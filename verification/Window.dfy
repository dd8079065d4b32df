/** The counting loop at the heart of `verify_auth_token`
    (src/common/crypto.cpp), for an arbitrary test of one time stamp. */
module Window {
  import opened Basics

  /** Does the token belong to this second? */
  type Test = u64 -> bool

  /** The loop either answers or, because a 64-bit counter can never exceed
      2^64 - 1, runs forever. */
  datatype Verdict = Accepts | Rejects | Hangs

  ghost predicate HitIn(test: Test, lo: int, hi: int) {
    exists t: u64 :: lo <= t <= hi && test(t)
  }

  ghost function Judge(test: Test, timestamp: u64, window: u64): Verdict {
    var lo, hi := Sub64(timestamp, window), Add64(timestamp, window);
    if hi == MAX_U64 then
      if HitIn(test, 0, MAX_U64) then Accepts else Hangs
    else
      if HitIn(test, lo, hi) then Accepts else Rejects
  }

  /** `for (t = timestamp - window; t <= timestamp + window; ++t)`, wrap-around included.
      It is proved to end with the verdict wherever there is one. */
  method Search(test: Test, timestamp: u64, window: u64) returns (ok: bool)
    requires Judge(test, timestamp, window) != Hangs
    ensures ok <==> Judge(test, timestamp, window) == Accepts
  {
    ghost var lo, hi, hit := Sub64(timestamp, window), Add64(timestamp, window), 0;
    if hi == MAX_U64 {
      hit :| 0 <= hit <= MAX_U64 && test(hit);
    }
    var t: u64 := Sub64(timestamp, window);
    while t <= Add64(timestamp, window)
      invariant hi != MAX_U64 ==> lo <= t && (t > lo ==> t <= hi + 1) && !HitIn(test, lo, t - 1)
      decreases if hi != MAX_U64 then hi + 1 - t else if t <= hit then hit - t else hit - t + TWO_64
    {
      if test(t) {
        return true;
      }
      t := Add64(t, 1);
    }
    assert !HitIn(test, lo, hi);
    return false;
  }

  /** The loop as a step function: where it is after so many tests of its guard. */
  datatype Progress = At(t: u64) | Returned(ok: bool)

  function Iterate(test: Test, hi: u64, p: Progress): Progress {
    match p
    case Returned(_) => p
    case At(t) =>
      if t > hi then Returned(false)
      else if test(t) then Returned(true)
      else At(Add64(t, 1))
  }

  function After(test: Test, lo: u64, hi: u64, steps: nat): Progress {
    if steps == 0 then At(lo) else Iterate(test, hi, After(test, lo, hi, steps - 1))
  }

  function LoopAfter(test: Test, timestamp: u64, window: u64, steps: nat): Progress {
    After(test, Sub64(timestamp, window), Add64(timestamp, window), steps)
  }

  lemma {:induction false} BelowMax(test: Test, lo: u64, hi: u64, steps: nat)
    requires hi < MAX_U64
    ensures match After(test, lo, hi, steps)
            case Returned(ok) => ok == HitIn(test, lo, hi)
            case At(t) => t == lo + steps && (steps > 0 ==> t <= hi + 1) && !HitIn(test, lo, t - 1)
  {
    if steps > 0 {
      BelowMax(test, lo, hi, steps - 1);
    }
  }

  /** With the largest upper bound the loop visits every stamp in turn, wrapping. */
  lemma {:induction false} AtMax(test: Test, lo: u64, steps: nat)
    requires steps <= TWO_64
    ensures match After(test, lo, MAX_U64, steps)
            case Returned(ok) => ok && HitIn(test, 0, MAX_U64)
            case At(t) => t == (if lo + steps < TWO_64 then lo + steps else lo + steps - TWO_64)
                          && (forall x: u64 :: lo <= x < lo + steps || x + TWO_64 < lo + steps ==> !test(x))
  {
    if steps > 0 {
      AtMax(test, lo, steps - 1);
    }
  }

  lemma {:induction false} AtMaxForever(test: Test, lo: u64, steps: nat)
    requires !HitIn(test, 0, MAX_U64)
    ensures After(test, lo, MAX_U64, steps).At?
  {
    if steps > 0 {
      AtMaxForever(test, lo, steps - 1);
    }
  }

  lemma {:induction false} Stays(test: Test, lo: u64, hi: u64, n: nat, m: nat)
    requires After(test, lo, hi, n).Returned? && n <= m
    ensures After(test, lo, hi, m) == After(test, lo, hi, n)
  {
    if n < m {
      Stays(test, lo, hi, n, m - 1);
    }
  }

  lemma AllTests(test: Test, lo: u64)
    requires HitIn(test, 0, MAX_U64)
    ensures After(test, lo, MAX_U64, TWO_64) == Returned(true)
  {
    AtMax(test, lo, TWO_64);
    var x: u64 :| test(x);
    assert lo <= x < lo + TWO_64 || x + TWO_64 < lo + TWO_64;
  }

  /** The loop ends exactly when there is a verdict, and then with that verdict; there
      is none exactly when the upper bound is 2^64 - 1 and no stamp at all passes. */
  lemma LoopEndsIff(test: Test, timestamp: u64, window: u64)
    ensures Judge(test, timestamp, window) == Hangs <==>
              (timestamp + window) % TWO_64 == MAX_U64 && forall t: u64 :: !test(t)
    ensures (exists n: nat :: LoopAfter(test, timestamp, window, n).Returned?) <==>
              Judge(test, timestamp, window) != Hangs
    ensures forall n: nat :: LoopAfter(test, timestamp, window, n).Returned? ==>
              LoopAfter(test, timestamp, window, n) == Returned(Judge(test, timestamp, window) == Accepts)
  {
    WrapIsModulo(timestamp, window);
    var lo, hi := Sub64(timestamp, window), Add64(timestamp, window);
    if Judge(test, timestamp, window) == Hangs {
      forall n: nat
        ensures LoopAfter(test, timestamp, window, n).At?
      {
        AtMaxForever(test, lo, n);
      }
    } else {
      var answer := Returned(Judge(test, timestamp, window) == Accepts);
      if hi == MAX_U64 {
        AllTests(test, lo);
      } else {
        BelowMax(test, lo, hi, TWO_64);
      }
      assert LoopAfter(test, timestamp, window, TWO_64) == answer;
      forall n: nat | LoopAfter(test, timestamp, window, n).Returned?
        ensures LoopAfter(test, timestamp, window, n) == answer
      {
        if n <= TWO_64 {
          Stays(test, lo, hi, n, TWO_64);
        } else {
          Stays(test, lo, hi, TWO_64, n);
        }
      }
    }
  }

  /** The loop is exact. For a window below 2^63 it examines the stamps within `window` of
      the claimed one if that range does not wrap, and nothing at all if it does; a larger
      window always wraps, and the loop examines what lies between the wrapped ends if just
      one of them did. It answers within 2 * window + 2 tests of its guard. */
  lemma WindowExact(test: Test, timestamp: u64, window: u64)
    requires (timestamp + window) % TWO_64 != MAX_U64
    ensures Judge(test, timestamp, window) != Hangs
    ensures 2 * window < TWO_64 ==>
              (Judge(test, timestamp, window) == Accepts <==>
                && window <= timestamp && timestamp + window < TWO_64
                && HitIn(test, timestamp - window, timestamp + window))
    ensures 2 * window < TWO_64 && (window > timestamp || timestamp + window >= TWO_64) ==>
              LoopAfter(test, timestamp, window, 1) == Returned(false)
    ensures 2 * window >= TWO_64 ==>
              (Judge(test, timestamp, window) == Accepts <==>
                || (window > timestamp && timestamp + window < TWO_64
                    && HitIn(test, timestamp - window + TWO_64, timestamp + window))
                || (window <= timestamp && timestamp + window >= TWO_64
                    && HitIn(test, timestamp - window, timestamp + window - TWO_64)))
    ensures LoopAfter(test, timestamp, window, 2 * window + 2).Returned?
  {
    WrapIsModulo(timestamp, window);
    var lo, hi := Sub64(timestamp, window), Add64(timestamp, window);
    BelowMax(test, lo, hi, 2 * window + 2);
    assert After(test, lo, hi, 1) == Iterate(test, hi, At(lo));
  }
}
