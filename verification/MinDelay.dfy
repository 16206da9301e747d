/** Models code/daemon/src/min_delay.c: the sliding-minimum filter over the last ten round-trip times. */
module MinDelay {
  import opened Config
  import opened Iteration

  /** The smallest element, INT64_MAX for an empty window (round-trip times are int64). */
  function Min(w: seq<int>): int {
    if |w| == 0 then INT64_MAX
    else
      var m := Min(w[..|w| - 1]);
      if w[|w| - 1] < m then w[|w| - 1] else m
  }

  /** The last ten of the samples offered since the reset. */
  function LastTen(h: seq<int>): seq<int> {
    if |h| <= MIN_DELAY_WINDOW then h else h[|h| - MIN_DELAY_WINDOW..]
  }

  /** The samples that stay in the window when one more arrives: all but the oldest of a full one. */
  function Kept(w: seq<int>): seq<int> {
    if |w| < MIN_DELAY_WINDOW then w else w[|w| - MIN_DELAY_WINDOW + 1..]
  }

  /** The window after one more sample. */
  function Offer(w: seq<int>, rtt: int): seq<int> { Kept(w) + [rtt] }

  /** The minimum of that window. */
  function NewMin(w: seq<int>, rtt: int): int {
    var m := Min(Kept(w));
    if rtt < m then rtt else m
  }

  predicate Accepts(w: seq<int>, rtt: int) { rtt <= NewMin(w, rtt) + MIN_DELAY_TOLERANCE_NS }

  lemma NewMinIsMin(w: seq<int>, rtt: int)
    ensures Min(Offer(w, rtt)) == NewMin(w, rtt)
  {
    assert Offer(w, rtt)[..|Kept(w)|] == Kept(w);
  }

  predicate AllInt64(h: seq<int>) { forall x :: x in h ==> x <= INT64_MAX }

  /** Min is a lower bound that is attained. */
  lemma {:induction false} MinCorrect(w: seq<int>)
    requires |w| > 0 && AllInt64(w)
    ensures Min(w) in w && forall x :: x in w ==> Min(w) <= x
  {
    var n := |w| - 1;
    assert w == w[..n] + [w[n]];
    assert forall x :: x in w[..n] ==> x in w;
    assert w[n] in w;
    if n > 0 {
      MinCorrect(w[..n]);
    }
  }

  lemma LastTenStep(h: seq<int>, x: int)
    ensures Offer(LastTen(h), x) == LastTen(h + [x])
  {}

  /** The ring never holds anything but the last ten samples of the history. */
  lemma {:induction false} WindowIsLastTen(h: seq<int>)
    ensures Fold(Offer, [], h) == LastTen(h)
  {
    if |h| > 0 {
      var n := |h| - 1;
      WindowIsLastTen(h[..n]);
      assert h == h[..n] + [h[n]];
      LastTenStep(h[..n], h[n]);
    }
  }

  /** The sample is accepted exactly when it is within 200 us of the smallest of the last ten. */
  lemma AcceptIff(h: seq<int>, rtt: int)
    requires AllInt64(h + [rtt])
    ensures Accepts(Fold(Offer, [], h), rtt) <==>
            forall x :: x in LastTen(h + [rtt]) ==> rtt <= x + MIN_DELAY_TOLERANCE_NS
  {
    var w := LastTen(h + [rtt]);
    WindowIsLastTen(h);
    WindowIsLastTen(h + [rtt]);
    assert (h + [rtt])[..|h|] == h;
    assert Fold(Offer, [], h + [rtt]) == Offer(Fold(Offer, [], h), rtt);
    assert forall x :: x in w ==> x in h + [rtt];
    MinCorrect(w);
    NewMinIsMin(LastTen(h), rtt);
  }

  /** A new minimum, and so the first sample after a reset, is always accepted. */
  lemma NewMinimumAccepted(h: seq<int>, rtt: int)
    requires AllInt64(h + [rtt])
    requires forall x :: x in LastTen(h) ==> rtt <= x
    ensures Accepts(Fold(Offer, [], h), rtt)
  {
    AcceptIff(h, rtt);
    forall x | x in LastTen(h + [rtt]) ensures rtt <= x + MIN_DELAY_TOLERANCE_NS {
      if x != rtt {
        assert x in LastTen(h);
      }
    }
  }

  /** The ring slot of the i-th oldest sample. */
  function Slot(head: nat, count: nat, i: nat): nat
    requires head < MIN_DELAY_WINDOW && count <= MIN_DELAY_WINDOW
  {
    (head - count + i + MIN_DELAY_WINDOW) % MIN_DELAY_WINDOW
  }

  /** The samples in the ring, oldest first. */
  function Ring(w: seq<int>, head: nat, count: nat): (s: seq<int>)
    requires |w| == MIN_DELAY_WINDOW && head < MIN_DELAY_WINDOW && count <= MIN_DELAY_WINDOW
    ensures |s| == count
  {
    seq(count, i requires 0 <= i => w[Slot(head, count, i)])
  }

  /** Overwriting the slot at head drops the oldest sample of a full ring and appends the new one. */
  lemma InsertSample(w: seq<int>, head: nat, count: nat, rtt: int)
    requires |w| == MIN_DELAY_WINDOW && head < MIN_DELAY_WINDOW && count <= MIN_DELAY_WINDOW
    ensures var count' := if count < MIN_DELAY_WINDOW then count + 1 else count;
            Ring(w[head := rtt], (head + 1) % MIN_DELAY_WINDOW, count') == Offer(Ring(w, head, count), rtt)
  {
    var head', w' := (head + 1) % MIN_DELAY_WINDOW, w[head := rtt];
    if count < MIN_DELAY_WINDOW {
      forall i: nat | i < count
        ensures Slot(head', count + 1, i) == Slot(head, count, i) && Slot(head, count, i) != head
      {}
      assert Slot(head', count + 1, count) == head;
      assert Ring(w', head', count + 1) == Ring(w, head, count) + [rtt];
    } else {
      forall i: nat | i < count - 1
        ensures Slot(head', count, i) == Slot(head, count, i + 1) && Slot(head, count, i + 1) != head
      {}
      assert Slot(head', count, count - 1) == head;
      assert Ring(w', head', count) == Ring(w, head, count)[1..] + [rtt];
    }
  }

  /** min_delay_t.  contents is the abstract value: the samples in the ring, oldest first. */
  class Filter {
    const window: array<int>
    var count: nat
    var head: nat
    var currentMin: int
    ghost var contents: seq<int>

    ghost predicate RingHolds()
      reads `count, `head, `contents, window
    {
      && window.Length == MIN_DELAY_WINDOW && count <= MIN_DELAY_WINDOW && head < MIN_DELAY_WINDOW
      && contents == Ring(window[..], head, count)
    }

    ghost predicate Valid()
      reads this, window
    {
      RingHolds() && currentMin == Min(contents)
    }

    constructor ()
      ensures Valid() && contents == [] && fresh(window)
    {
      window := new int[MIN_DELAY_WINDOW](_ => 0);
      count, head, currentMin := 0, 0, INT64_MAX;
      contents := [];
    }

    method Reset()
      requires Valid()
      modifies this, window
      ensures Valid() && contents == []
    {
      for i := 0 to window.Length {
        window[i] := 0;
      }
      count := 0;
      head := 0;
      currentMin := INT64_MAX;
      contents := [];
    }

    /** Writes the sample over the oldest slot. */
    method Insert(rtt: int)
      requires Valid()
      modifies `count, `head, `contents, window
      ensures RingHolds() && contents == Offer(old(contents), rtt)
    {
      ghost var before, at := window[..], head;
      InsertSample(before, head, count, rtt);
      contents := Offer(contents, rtt);
      window[head] := rtt;
      head := (head + 1) % MIN_DELAY_WINDOW;
      if count < MIN_DELAY_WINDOW {
        count := count + 1;
      }
      assert window[..] == before[at := rtt];
    }

    /** The minimum over all valid slots. */
    method Minimum() returns (mn: int)
      requires RingHolds()
      ensures mn == Min(contents)
    {
      mn := INT64_MAX;
      for i := 0 to count
        invariant mn == Min(contents[..i])
      {
        var idx := (head - count + i + MIN_DELAY_WINDOW) % MIN_DELAY_WINDOW;
        assert contents[..i + 1][..i] == contents[..i];
        if window[idx] < mn {
          mn := window[idx];
        }
      }
      assert contents[..count] == contents;
    }

    method Update(rtt: int) returns (accepted: bool)
      requires Valid()
      modifies this, window
      ensures Valid() && contents == Offer(old(contents), rtt)
      ensures accepted <==> Accepts(old(contents), rtt)
    {
      NewMinIsMin(contents, rtt);
      Insert(rtt);
      currentMin := Minimum();
      accepted := rtt <= currentMin + MIN_DELAY_TOLERANCE_NS;
    }
  }
}
