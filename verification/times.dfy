/** Time points, counted in nanoseconds by a 64-bit number, and whole seconds. */
module Times {
  import opened Sqlite

  const NANOS := 1_000_000_000

  type int64 = x: int | -0x8000_0000_0000_0000 <= x <= 0x7FFF_FFFF_FFFF_FFFF

  predicate Fits64(x: int) {
    -0x8000_0000_0000_0000 <= x <= 0x7FFF_FFFF_FFFF_FFFF
  }

  /** The cast of durations truncates toward zero. */
  function ToSeconds(t: int64): int64 {
    if t >= 0 then t / NANOS else -((0 - t as int) / NANOS)
  }

  /** None where the multiplication overflows. */
  function FromSeconds(s: int64): Option<int64> {
    if Fits64(s * NANOS) then Some(s * NANOS) else None
  }

  lemma SecondsKeepOrder(a: int64, b: int64)
    requires a <= b
    ensures ToSeconds(a) <= ToSeconds(b)
  {
    if a >= 0 {
      assert a / NANOS <= b / NANOS;
    } else if b < 0 {
      assert (0 - b as int) / NANOS <= (0 - a as int) / NANOS;
    }
  }

  /** Whole seconds survive as a time point if and only if they are within 9223372036 of the epoch. */
  lemma SecondsRoundTrip(s: int64)
    ensures FromSeconds(s).Some? <==> -9_223_372_036 <= s <= 9_223_372_036
    ensures FromSeconds(s).Some? ==> ToSeconds(FromSeconds(s).value) == s
  {
  }

  /** The nearest time point toward the epoch; it never overflows, and is the same exactly for whole seconds. */
  lemma TimePointRoundTrip(t: int64)
    ensures FromSeconds(ToSeconds(t)).Some?
    ensures var back := FromSeconds(ToSeconds(t)).value;
            && (if t >= 0 then 0 <= t - back < NANOS else -NANOS < t - back <= 0)
            && (back == t <==> t % NANOS == 0)
  {
  }
}
