/**
 struct sos_time and its arithmetic (os/time.c:25-125): seconds and nanoseconds on 32-bit words.
 Every operation is exact on the number of nanoseconds, up to overflow of the seconds.
 */
module SosTime {
  const NS_IN_SEC := 1_000_000_000
  const WORD := 0x1_0000_0000

  datatype Time = Time(sec: int, nanosec: int)

  predicate Valid(t: Time) { 0 <= t.sec < WORD && 0 <= t.nanosec < NS_IN_SEC }

  /** The duration in nanoseconds. */
  function Ns(t: Time): int { t.sec * NS_IN_SEC + t.nanosec }

  /** sos_time_inc. The nanoseconds never overflow their word; the seconds may. */
  method Inc(dest: Time, toAdd: Time) returns (r: Time)
    requires Valid(dest) && Valid(toAdd)
    ensures Valid(r)
    ensures Ns(r) == (Ns(dest) + Ns(toAdd)) % (WORD * NS_IN_SEC)
    ensures Ns(dest) + Ns(toAdd) < WORD * NS_IN_SEC ==> Ns(r) == Ns(dest) + Ns(toAdd)
  {
    var sigma := (dest.nanosec + toAdd.nanosec) % WORD;
    assert sigma == dest.nanosec + toAdd.nanosec;
    var sec := (dest.sec + toAdd.sec) % WORD;
    sec := (sec + sigma / NS_IN_SEC) % WORD;
    r := Time(sec, sigma % NS_IN_SEC);
    ghost var full := dest.sec + toAdd.sec + sigma / NS_IN_SEC;
    WrapOnce(full, WORD);
    WrapOnce(dest.sec + toAdd.sec, WORD);
    WrapOnce(sec, WORD);
    assert Ns(dest) + Ns(toAdd) == full * NS_IN_SEC + sigma % NS_IN_SEC;
    WrapOnce(Ns(dest) + Ns(toAdd), WORD * NS_IN_SEC);
  }

  lemma WrapOnce(v: int, m: int)
    requires 0 <= v < 2 * m
    ensures v % m == if v < m then v else v - m
  {}

  /** Division as the C operator does it, truncating towards zero. */
  function TruncDiv(a: int, b: int): int
    requires 0 < b
  {
    if a >= 0 then a / b else -((-a) / b)
  }

  /** sos_time_dec. It halts the machine unless `toDec` is the shorter time. */
  method Dec(dest: Time, toDec: Time) returns (r: Time)
    requires Valid(dest) && Valid(toDec)
    requires Ns(dest) >= Ns(toDec)
    ensures Valid(r) && Ns(r) == Ns(dest) - Ns(toDec)
  {
    var diff := dest.nanosec - toDec.nanosec;
    assert dest.sec >= toDec.sec;
    assert dest.sec == toDec.sec ==> dest.nanosec >= toDec.nanosec;
    var sec := dest.sec - toDec.sec;
    if diff > 0 { sec := sec + TruncDiv(diff, NS_IN_SEC); } else { sec := sec - TruncDiv(-diff, NS_IN_SEC); }
    var nanosec := (NS_IN_SEC + diff) % NS_IN_SEC;
    if diff < 0 { sec := sec - 1; }
    r := Time(sec, nanosec);
  }

  /** sos_time_cmp. */
  function Cmp(a: Time, b: Time): (r: int)
    requires Valid(a) && Valid(b)
    ensures r < 0 <==> Ns(a) < Ns(b)
    ensures r == 0 <==> a == b
    ensures r > 0 <==> Ns(a) > Ns(b)
  {
    if a.sec < b.sec then -1
    else if a.sec > b.sec then 1
    else if a.nanosec < b.nanosec then -1
    else if a.nanosec > b.nanosec then 1
    else 0
  }

  /** sos_time_is_zero. */
  predicate IsZero(t: Time)
    requires Valid(t)
    ensures IsZero(t) <==> Ns(t) == 0
  {
    t.sec == 0 && t.nanosec == 0
  }
}
