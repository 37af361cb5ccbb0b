/** The throttle both presence writers apply to watch samples: a sample
    at client time `t` is written when `t - last >= throttleMs`, and then
    `last := t`; other samples are dropped, not queued. Within one window
    the FIRST sample is kept. */
module Throttling {

  /** `!(now - last < throttleMs)`. */
  predicate Accepts(t: int, last: int, throttleMs: int)
  {
    !(t - last < throttleMs)
  }

  /** The times of the samples written, in order, when samples arrive at
      times `ts` starting from `last`. */
  function Accepted(ts: seq<int>, last: int, throttleMs: int): seq<int>
  {
    if ts == [] then []
    else if Accepts(ts[0], last, throttleMs) then [ts[0]] + Accepted(ts[1..], ts[0], throttleMs)
    else Accepted(ts[1..], last, throttleMs)
  }

  /** The value of `last` after those samples. */
  function LastAfter(ts: seq<int>, last: int, throttleMs: int): int
  {
    if ts == [] then last
    else LastAfter(ts[1..], if Accepts(ts[0], last, throttleMs) then ts[0] else last, throttleMs)
  }

  /** One more sample is written exactly when it is far enough from the
      current `last`. */
  lemma {:induction false} AcceptedSnoc(ts: seq<int>, last: int, throttleMs: int, t: int)
    ensures var prev := LastAfter(ts, last, throttleMs);
      && Accepted(ts + [t], last, throttleMs)
         == Accepted(ts, last, throttleMs) + (if Accepts(t, prev, throttleMs) then [t] else [])
      && LastAfter(ts + [t], last, throttleMs) == (if Accepts(t, prev, throttleMs) then t else prev)
  {
    if ts != [] {
      assert (ts + [t])[1..] == ts[1..] + [t];
      var next := if Accepts(ts[0], last, throttleMs) then ts[0] else last;
      AcceptedSnoc(ts[1..], next, throttleMs, t);
    }
  }

  /** The last written sample is `last` itself when one was written. */
  lemma {:induction false} LastIsLastAccepted(ts: seq<int>, last: int, throttleMs: int)
    ensures var r := Accepted(ts, last, throttleMs);
      LastAfter(ts, last, throttleMs) == (if r == [] then last else r[|r| - 1])
  {
    if ts != [] {
      var next := if Accepts(ts[0], last, throttleMs) then ts[0] else last;
      LastIsLastAccepted(ts[1..], next, throttleMs);
    }
  }

  /** Written samples are at least `throttleMs` apart, and the first is
      at least `throttleMs` after the starting `last`. */
  lemma {:induction false} AcceptedSpaced(ts: seq<int>, last: int, throttleMs: int)
    ensures var r := Accepted(ts, last, throttleMs);
      && (r != [] ==> r[0] - last >= throttleMs)
      && (forall i :: 0 < i < |r| ==> r[i] - r[i - 1] >= throttleMs)
  {
    if ts != [] {
      var next := if Accepts(ts[0], last, throttleMs) then ts[0] else last;
      AcceptedSpaced(ts[1..], next, throttleMs);
    }
  }

  /** Every written time is one of the sample times, and no more are
      written than arrive. */
  lemma {:induction false} AcceptedFromSamples(ts: seq<int>, last: int, throttleMs: int)
    ensures |Accepted(ts, last, throttleMs)| <= |ts|
    ensures forall x :: x in Accepted(ts, last, throttleMs) ==> x in ts
  {
    if ts != [] {
      var next := if Accepts(ts[0], last, throttleMs) then ts[0] else last;
      AcceptedFromSamples(ts[1..], next, throttleMs);
    }
  }

  /** Samples all too close to `last` are all dropped and leave it as is. */
  lemma {:induction false} AllDropped(ts: seq<int>, last: int, throttleMs: int)
    requires forall i :: 0 <= i < |ts| ==> ts[i] - last < throttleMs
    ensures Accepted(ts, last, throttleMs) == [] && LastAfter(ts, last, throttleMs) == last
  {
    if ts != [] {
      AllDropped(ts[1..], last, throttleMs);
    }
  }

  /** A burst whose first sample is accepted and whose others come less
      than `throttleMs` after it produces exactly one write: the first
      sample's. */
  lemma BurstKeepsFirst(ts: seq<int>, last: int, throttleMs: int)
    requires |ts| > 0 && Accepts(ts[0], last, throttleMs)
    requires forall i :: 0 < i < |ts| ==> ts[i] - ts[0] < throttleMs
    ensures Accepted(ts, last, throttleMs) == [ts[0]]
  {
    AllDropped(ts[1..], ts[0], throttleMs);
  }
}
