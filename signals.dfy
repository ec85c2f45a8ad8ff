/** Counting the signals of one kind in the sequence an object has emitted;
    both the downloader and the installer count their completion signals
    this way. */
module Signals {
  /** How many of `events` satisfy `isKind`. */
  function Count<T>(events: seq<T>, isKind: T -> bool): nat {
    if events == [] then 0
    else Count(events[..|events| - 1], isKind) + (if isKind(events[|events| - 1]) then 1 else 0)
  }

  /** Counting distributes over concatenation. */
  lemma {:induction false} CountAppend<T>(a: seq<T>, b: seq<T>, isKind: T -> bool)
    ensures Count(a + b, isKind) == Count(a, isKind) + Count(b, isKind)
    decreases |b|
  {
    if b != [] {
      assert (a + b)[..|a + b| - 1] == a + b[..|b| - 1];
      CountAppend(a, b[..|b| - 1], isKind);
    } else {
      assert a + b == a;
    }
  }

  /** A sequence none of whose elements is of the kind counts zero. */
  lemma {:induction false} CountNone<T>(events: seq<T>, isKind: T -> bool)
    requires forall k :: 0 <= k < |events| ==> !isKind(events[k])
    ensures Count(events, isKind) == 0
    decreases |events|
  {
    if events != [] {
      CountNone(events[..|events| - 1], isKind);
    }
  }

  /** A sequence whose last element alone is of the kind counts one. */
  lemma OnlyLast<T>(events: seq<T>, isKind: T -> bool)
    requires events != [] && isKind(events[|events| - 1])
    requires forall k :: 0 <= k < |events| - 1 ==> !isKind(events[k])
    ensures Count(events, isKind) == 1
  {
    CountNone(events[..|events| - 1], isKind);
  }
}
