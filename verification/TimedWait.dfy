/** The deadline arithmetic of mulle_thread_cond_timedwait on Windows: a POSIX time becomes a count of
    100 ns units since 1601, and the distance to now becomes the DWORD of milliseconds to sleep. All
    widths and conversions are those of the source. */
module TimedWait {

  import opened Words

  const HALF := WORD_SIZE / 2

  const EPOCH_SECONDS := 11644473600
  const UNITS_PER_SECOND := 10000000
  const INFINITE := 0xFFFF_FFFF

  /** A signed 64-bit integer. */
  type Signed = x: int | -HALF <= x < HALF

  datatype Timespec = Timespec(sec: Signed, nsec: int)

  /** A timespec has at most a second's worth of nanoseconds. */
  predicate Normal(ts: Timespec) {
    0 <= ts.nsec < 1000000000
  }

  function AsSigned(x: Word): Signed { if x < HALF then x else x - WORD_SIZE }

  function AsUnsigned(x: Signed): Word { if x >= 0 then x else x + WORD_SIZE }

  /** Division of signed integers in C: towards zero. */
  function TruncDiv(a: int, b: int): int
    requires b > 0
  {
    if a >= 0 then a / b else -((-a) / b)
  }

  /** The argument of the wait; the source takes NULL for no deadline. */
  datatype Deadline = NoDeadline | Until(ts: Timespec)

  function Abs100ns(ts: Timespec): Word
    requires Normal(ts)
  {
    ((AsUnsigned(ts.sec) + EPOCH_SECONDS) % WORD_SIZE * UNITS_PER_SECOND % WORD_SIZE + ts.nsec / 100) % WORD_SIZE
  }

  function DiffNs(ts: Timespec, now: Word): Signed
    requires Normal(ts)
  {
    AsSigned((Abs100ns(ts) - now) % WORD_SIZE * 100 % WORD_SIZE)
  }

  function Milliseconds(diffNs: Signed): Dword {
    if diffNs <= 0 then 0 else TruncDiv(diffNs, 1000000) % DWORD_SIZE
  }

  /** What is meant: the exact distance from now to the deadline, in 100 ns units. */
  function Distance(ts: Timespec, now: Word): int
    requires Normal(ts)
  {
    (ts.sec + EPOCH_SECONDS) * UNITS_PER_SECOND + ts.nsec / 100 - now
  }

  // ---- the calendar behind the constants ----

  predicate IsLeapYear(y: nat) {
    y % 4 == 0 && (y % 100 != 0 || y % 400 == 0)
  }

  /** Days from the first of January 1601 to that of the year y. */
  function DaysUntil(y: nat): nat
    requires y >= 1601
    decreases y
  {
    if y == 1601 then 0 else DaysUntil(y - 1) + if IsLeapYear(y - 1) then 366 else 365
  }

  lemma QuotientStep(n: nat, d: nat)
    requires n > 0 && d in {4, 100, 400}
    ensures n / d == (n - 1) / d + if n % d == 0 then 1 else 0
  {
    if d == 4 {
      assert n / 4 == (n - 1) / 4 + if n % 4 == 0 then 1 else 0;
    } else if d == 100 {
      assert n / 100 == (n - 1) / 100 + if n % 100 == 0 then 1 else 0;
    } else {
      assert n / 400 == (n - 1) / 400 + if n % 400 == 0 then 1 else 0;
    }
  }

  lemma {:induction false} DaysInClosedForm(y: nat)
    requires y >= 1601
    ensures var n := y - 1; DaysUntil(y) == 365 * (n - 1600) + (n / 4 - 400) - (n / 100 - 16) + (n / 400 - 4)
    decreases y
  {
    if y == 1601 {
    } else {
      DaysInClosedForm(y - 1);
      var n := y - 1;
      MultiplesNest(n);
      QuotientStep(n, 4);
      QuotientStep(n, 100);
      QuotientStep(n, 400);
    }
  }

  lemma MultiplesNest(n: nat)
    ensures n % 400 == 0 ==> n % 100 == 0
    ensures n % 100 == 0 ==> n % 4 == 0
  {
    if n % 400 == 0 {
      assert n == 100 * (4 * (n / 400));
      MultipleOf(100, 4 * (n / 400));
    }
    if n % 100 == 0 {
      assert n == 4 * (25 * (n / 100));
      MultipleOf(4, 25 * (n / 100));
    }
  }

  lemma MultipleOf(d: nat, q: nat)
    requires d in {4, 100}
    ensures d * q % d == 0
  {
    if d == 4 {
      assert 4 * q % 4 == 0;
    } else {
      assert 100 * q % 100 == 0;
    }
  }

  /** The constant is the time between the epoch of a FILETIME and that of a timespec. */
  lemma EpochIsTheCalendars()
    ensures EPOCH_SECONDS == DaysUntil(1970) * 24 * 60 * 60
  {
    hide DaysUntil;
    DaysInClosedForm(1970);
    assert DaysUntil(1970) == 134774;
  }

  /** The distance in nanoseconds: a deadline counts its seconds and nanoseconds from 1970, to the unit of 100 ns,
      and the clock its units from 1601. */
  lemma DistanceInNanoseconds(ts: Timespec, now: Word)
    requires Normal(ts)
    ensures Distance(ts, now) * 100 ==
      (ts.sec + DaysUntil(1970) * 24 * 60 * 60) * 1000000000 + ts.nsec - ts.nsec % 100 - now * 100
  {
    hide DaysUntil;
    EpochIsTheCalendars();
  }

  // ---- wraparound does no harm ----

  lemma ModOfSum(a: int, b: int)
    ensures (a % WORD_SIZE + b) % WORD_SIZE == (a + b) % WORD_SIZE
  {
    assert a == WORD_SIZE * (a / WORD_SIZE) + a % WORD_SIZE;
    SameResidue(a % WORD_SIZE + b, a + b, -(a / WORD_SIZE));
  }

  lemma ModOfProduct(a: int, c: int)
    ensures (a % WORD_SIZE * c) % WORD_SIZE == (a * c) % WORD_SIZE
  {
    var q := a / WORD_SIZE;
    assert a == WORD_SIZE * q + a % WORD_SIZE;
    assert a * c == WORD_SIZE * (q * c) + a % WORD_SIZE * c;
    SameResidue(a % WORD_SIZE * c, a * c, -(q * c));
  }

  lemma SameResidue(x: int, y: int, k: int)
    requires x == y + WORD_SIZE * k
    ensures x % WORD_SIZE == y % WORD_SIZE
  {
  }

  /** The 64-bit computation is the exact one modulo the word size, whatever overflows on the way. */
  lemma DiffIsExactModulo(ts: Timespec, now: Word)
    requires Normal(ts)
    ensures (Abs100ns(ts) - now) % WORD_SIZE * 100 % WORD_SIZE == Distance(ts, now) * 100 % WORD_SIZE
  {
    var s := AsUnsigned(ts.sec) + EPOCH_SECONDS;
    var exact := (ts.sec + EPOCH_SECONDS) * UNITS_PER_SECOND;
    ModOfProduct(s, UNITS_PER_SECOND);
    var wrapped := s * UNITS_PER_SECOND;
    var k := if ts.sec >= 0 then 0 else UNITS_PER_SECOND;
    assert wrapped == exact + WORD_SIZE * k;
    SameResidue(wrapped, exact, k);
    ModOfSum(exact, ts.nsec / 100);
    var start: int := now;
    ModOfSum(exact + ts.nsec / 100, -start);
    ModOfProduct(Distance(ts, now), 100);
  }

  lemma SignedResidue(x: int)
    requires -HALF <= x < HALF
    ensures AsSigned(x % WORD_SIZE) == x
  {
    if x < 0 { SameResidue(x + WORD_SIZE, x, 1); }
  }

  /** The sleep is for the whole milliseconds of the distance, and does end. */
  predicate Honours(ms: Dword, distance: int) {
    ms != INFINITE && ms * 10000 <= distance < (ms + 1) * 10000
  }

  /** diff_ns is the exact distance in nanoseconds if and only if that fits 64 bits. A deadline to come,
      however far, is honoured if and only if it is less than 2^32 - 1 ms away; the whole milliseconds of
      its distance come out if and only if they fit a DWORD. A deadline up to 2^63 ns past gives 0. */
  lemma DeadlineIsHonoured(ts: Timespec, now: Word)
    requires Normal(ts)
    ensures var d, diff, ms := Distance(ts, now), DiffNs(ts, now), Milliseconds(DiffNs(ts, now));
      && (diff == d * 100 <==> -HALF <= d * 100 < HALF)
      && (d >= 0 ==> (Honours(ms, d) <==> d < INFINITE * 10000))
      && (d >= 0 ==> (ms * 10000 <= d < (ms + 1) * 10000 <==> d < DWORD_SIZE * 10000))
      && (d <= 0 && d * 100 >= -HALF ==> ms == 0)
  {
    DiffIsExactModulo(ts, now);
    var d := Distance(ts, now);
    hide DiffNs, Distance, Honours, Abs100ns;
    if -HALF <= d * 100 < HALF {
      SignedResidue(d * 100);
      if d >= 0 {
        if d > 0 { WholeMilliseconds(d); }
        HonouredExactlyIf(d, d / 10000);
      }
    } else {
      assert d > 0 ==> d >= DWORD_SIZE * 10000;
      FarIsNotHonoured(d, Milliseconds(DiffNs(ts, now)));
    }
  }

  lemma FarIsNotHonoured(d: int, ms: Dword)
    ensures d >= DWORD_SIZE * 10000 ==> !(d < (ms + 1) * 10000) && !Honours(ms, d)
  {
  }

  /** Cutting the whole milliseconds q down to a DWORD. */
  lemma HonouredExactlyIf(d: int, q: int)
    requires 0 <= d && q * 10000 <= d < (q + 1) * 10000
    ensures q % DWORD_SIZE * 10000 <= d < (q % DWORD_SIZE + 1) * 10000 <==> d < DWORD_SIZE * 10000
    ensures Honours(q % DWORD_SIZE, d) <==> d < INFINITE * 10000
  {
    if q >= DWORD_SIZE {
      assert q % DWORD_SIZE < q;
    }
  }

  lemma WholeMilliseconds(d: int)
    requires d > 0
    ensures TruncDiv(d * 100, 1000000) == d / 10000
  {
  }

  /** The milliseconds slept for a distance of d: the 64 bits of its nanoseconds, read as a signed number,
      decide. */
  function Slept(d: int): Dword {
    Milliseconds(AsSigned(d * 100 % WORD_SIZE))
  }

  /** The milliseconds handed to SleepConditionVariableCS depend on nothing but the exact distance. */
  method RelativeMilliseconds(deadline: Deadline, now: Word) returns (milliseconds: Dword)
    requires deadline.Until? ==> Normal(deadline.ts)
    ensures deadline.NoDeadline? ==> milliseconds == INFINITE
    ensures deadline.Until? ==>
      var d := Distance(deadline.ts, now);
      && milliseconds == Slept(d)
      && (d >= 0 ==> (Honours(milliseconds, d) <==> d < INFINITE * 10000))
      && (d <= 0 && d * 100 >= -HALF ==> milliseconds == 0)
  {
    if deadline.NoDeadline? {
      return INFINITE;
    }
    var abstime := deadline.ts;
    var abs100ns: Word := ((AsUnsigned(abstime.sec) + EPOCH_SECONDS) % WORD_SIZE * UNITS_PER_SECOND % WORD_SIZE
                           + abstime.nsec / 100) % WORD_SIZE;
    var diffNs: Signed := AsSigned((abs100ns - now) % WORD_SIZE * 100 % WORD_SIZE);
    milliseconds := TruncDiv(diffNs, 1000000) % DWORD_SIZE;
    if diffNs <= 0 {
      milliseconds := 0;
    }
    assert milliseconds == Milliseconds(DiffNs(abstime, now));
    hide Distance, Abs100ns, Honours, AsSigned, AsUnsigned, TruncDiv;
    DiffIsExactModulo(abstime, now);
    DeadlineIsHonoured(abstime, now);
  }

  /** From 2^32 ms on the truncation to a DWORD shows: only the low 32 bits of the milliseconds are slept,
      so the sleep is far too short, or endless when those bits are all ones. */
  lemma LongSleepsAreTruncated(ts: Timespec, now: Word)
    requires Normal(ts) && 0 < Distance(ts, now) && Distance(ts, now) * 100 < HALF
    ensures Milliseconds(DiffNs(ts, now)) == (Distance(ts, now) / 10000) % DWORD_SIZE
    ensures Distance(ts, now) >= DWORD_SIZE * 10000 ==> (Milliseconds(DiffNs(ts, now)) + 1) * 10000 <= Distance(ts, now)
  {
    DiffIsExactModulo(ts, now);
    SignedResidue(Distance(ts, now) * 100);
    WholeMilliseconds(Distance(ts, now));
  }

  /** A deadline 2^63 to 2^64 ns away, 292 to 584 years, counts as past. */
  lemma FarDeadlinesLookPast(ts: Timespec, now: Word)
    requires Normal(ts) && HALF <= Distance(ts, now) * 100 < WORD_SIZE
    ensures Milliseconds(DiffNs(ts, now)) == 0
  {
    DiffIsExactModulo(ts, now);
    hide Distance, Abs100ns;
    assert Distance(ts, now) * 100 % WORD_SIZE == Distance(ts, now) * 100;
  }

  /** Are all deadlines that have passed by at most `limit` units answered with 0? */
  ghost predicate PastIsOver(limit: nat) {
    forall ts, now: Word :: Normal(ts) && 0 <= -Distance(ts, now) <= limit ==> Milliseconds(DiffNs(ts, now)) == 0
  }

  /** They are if and only if the limit is within 2^63 ns: the first deadline beyond, of the year 1731 as
      seen in 2024, is slept for. */
  lemma PastIsOverWithin(limit: nat)
    ensures PastIsOver(limit) <==> limit * 100 <= HALF
  {
    if limit * 100 <= HALF {
      forall ts, now: Word | Normal(ts) && 0 <= -Distance(ts, now) <= limit
        ensures Milliseconds(DiffNs(ts, now)) == 0
      {
        DeadlineIsHonoured(ts, now);
      }
    } else {
      var ts, now := JustTooFar();
    }
  }

  lemma JustTooFar() returns (ts: Timespec, now: Word)
    ensures Normal(ts) && (-Distance(ts, now) - 1) * 100 <= HALF < -Distance(ts, now) * 100
    ensures Milliseconds(DiffNs(ts, now)) != 0
  {
    ts, now := Timespec(-7517845637, 145224100), 133500000000000000;
    assert Distance(ts, now) == -92233720368547759;
    DiffIsExactModulo(ts, now);
    hide Distance, Abs100ns;
  }

  /** A deadline 2^32 - 1 ms away, about 49.7 days, sleeps for ever. */
  lemma FiftyDaysIsForever()
    ensures exists ts, now ::
      Normal(ts) && Distance(ts, now) == INFINITE * 10000 && Milliseconds(DiffNs(ts, now)) == INFINITE
  {
    var ts := Timespec(4294967, 295000000);
    var now := EPOCH_SECONDS * UNITS_PER_SECOND;
    assert Distance(ts, now) == INFINITE * 10000;
    LongSleepsAreTruncated(ts, now);
  }

  // ---- the way there and back ----

  /** How the test turns the clock into a timespec. */
  function FromFiletime(ft: Word): Timespec {
    Timespec(AsSigned((ft / UNITS_PER_SECOND - EPOCH_SECONDS) % WORD_SIZE), ft % UNITS_PER_SECOND * 100)
  }

  /** The conversion in the wait undoes it for every clock value, also before 1970. */
  lemma FiletimeRoundTrip(ft: Word)
    ensures Normal(FromFiletime(ft)) && Abs100ns(FromFiletime(ft)) == ft
  {
    var ts := FromFiletime(ft);
    var seconds := ft / UNITS_PER_SECOND - EPOCH_SECONDS;
    SignedResidue(seconds);
    var s := AsUnsigned(ts.sec) + EPOCH_SECONDS;
    var k := if ts.sec >= 0 then 0 else 1;
    SameResidue(s, ft / UNITS_PER_SECOND, k);
    assert s % WORD_SIZE == ft / UNITS_PER_SECOND;
    assert ts.nsec / 100 == ft % UNITS_PER_SECOND;
  }
}
