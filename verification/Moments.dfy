/** Timestamps: the moments `datetime` can hold in UTC, and the texts they are stored and asked as. */
module Moments {
  import opened Ordering

  datatype Fields = Fields(year: nat, month: nat, day: nat, hour: nat, minute: nat, second: nat, micro: nat)

  predicate InRange(f: Fields) {
    && 1 <= f.year <= 9999 && 1 <= f.month <= 12 && 1 <= f.day <= 31
    && f.hour < 24 && f.minute < 60 && f.second < 60 && f.micro < 1000000
  }

  type Moment = f: Fields | InRange(f) witness Fields(1, 1, 1, 0, 0, 0, 0)

  // ------------------------------------------------------------------ the order of moments

  /** Numbers dates in their order. */
  function DateNumber(m: Moment): nat { (m.year * 13 + m.month) * 32 + m.day }

  const MICROS_A_DAY := 86400000000

  /** Microseconds since midnight. */
  function TimeNumber(m: Moment): (n: nat)
    ensures n < MICROS_A_DAY
  {
    ((m.hour * 60 + m.minute) * 60 + m.second) * 1000000 + m.micro
  }

  /** Numbers moments in their order. */
  function Instant(m: Moment): nat { DateNumber(m) * MICROS_A_DAY + TimeNumber(m) }

  predicate SameDate(a: Moment, b: Moment) { DateNumber(a) == DateNumber(b) }

  function EndOfDay(m: Moment): Moment { m.(hour := 23, minute := 59, second := 59, micro := 999999) }

  lemma InstantOrder(a: Moment, b: Moment)
    ensures Instant(a) < Instant(b) <==>
            DateNumber(a) < DateNumber(b) || (DateNumber(a) == DateNumber(b) && TimeNumber(a) < TimeNumber(b))
  {
  }

  lemma EndOfDayIsLast(m: Moment, other: Moment)
    ensures Instant(other) <= Instant(EndOfDay(m)) <==> DateNumber(other) <= DateNumber(m)
    ensures SameDate(EndOfDay(m), m)
  {
    InstantOrder(EndOfDay(m), other);
  }

  // ------------------------------------------------------------------ digits

  function Digit(d: nat): char
    requires d < 10
  {
    ['0', '1', '2', '3', '4', '5', '6', '7', '8', '9'][d]
  }

  /** The last `width` decimal digits. */
  function Digits(width: nat, n: nat): (s: string)
    ensures |s| == width
  {
    if width == 0 then "" else Digits(width - 1, n / 10) + [Digit(n % 10)]
  }

  predicate Fits(width: nat, n: nat) {
    if width == 0 then n == 0 else Fits(width - 1, n / 10)
  }

  lemma {:induction false} LessAppend(x: string, u: string, y: string, v: string)
    requires |x| == |y|
    ensures Less(x + u, y + v) <==> Less(x, y) || (x == y && Less(u, v))
  {
    if x == [] {
      assert x + u == u && y + v == v;
    } else {
      assert (x + u)[1..] == x[1..] + u && (y + v)[1..] == y[1..] + v;
      LessAppend(x[1..], u, y[1..], v);
      assert x == [x[0]] + x[1..] && y == [y[0]] + y[1..];
    }
  }

  lemma LessDigit(a: nat, b: nat)
    requires a < 10 && b < 10
    ensures Less([Digit(a)], [Digit(b)]) <==> a < b
    ensures Digit(a) == Digit(b) <==> a == b
  {
  }

  /** Numbers of one width compare as their digits do. */
  lemma {:induction false} DigitsOrder(width: nat, a: nat, b: nat)
    requires Fits(width, a) && Fits(width, b)
    ensures Less(Digits(width, a), Digits(width, b)) <==> a < b
    ensures Digits(width, a) == Digits(width, b) <==> a == b
  {
    if width > 0 {
      var x, y := Digits(width - 1, a / 10), Digits(width - 1, b / 10);
      DigitsOrder(width - 1, a / 10, b / 10);
      LessAppend(x, [Digit(a % 10)], y, [Digit(b % 10)]);
      LessDigit(a % 10, b % 10);
      if Digits(width, a) == Digits(width, b) {
        assert x == Digits(width, a)[..width - 1] && y == Digits(width, b)[..width - 1];
        assert Digits(width, a)[width - 1] == Digit(a % 10) && Digits(width, b)[width - 1] == Digit(b % 10);
      }
    }
  }

  lemma FitsTwo(n: nat)
    requires n < 100
    ensures Fits(2, n)
  {
    assert Fits(0, n / 10 / 10) && Fits(1, n / 10);
  }

  lemma FitsFour(n: nat)
    requires n < 10000
    ensures Fits(4, n)
  {
    FitsTwo(n / 10 / 10);
    assert Fits(3, n / 10);
  }

  lemma FitsSix(n: nat)
    requires n < 1000000
    ensures Fits(6, n)
  {
    FitsFour(n / 10 / 10);
    assert Fits(5, n / 10);
  }

  // ------------------------------------------------------------------ texts

  function DateText(m: Moment): string {
    Digits(4, m.year) + ("-" + (Digits(2, m.month) + ("-" + Digits(2, m.day))))
  }

  const OFFSET := "+00:00"

  /** `isoformat` leaves out the fraction of a whole second. */
  function FractionText(micro: nat): string {
    if micro == 0 then OFFSET else "." + (Digits(6, micro) + OFFSET)
  }

  function TimeText(m: Moment): string {
    Digits(2, m.hour) + (":" + (Digits(2, m.minute) + (":" + (Digits(2, m.second) + FractionText(m.micro)))))
  }

  /** What SQLite stores: `isoformat(" ")`. */
  function Stored(m: Moment): string { DateText(m) + (" " + TimeText(m)) }

  /** A text that starts with a date and a T, as `isoformat()` and JSON have it. */
  function WithT(m: Moment, rest: string): string { DateText(m) + ("T" + rest) }

  lemma SameSeparator(c: char, u: string, v: string)
    ensures Less([c] + u, [c] + v) <==> Less(u, v)
  {
    assert ([c] + u)[1..] == u && ([c] + v)[1..] == v;
  }

  lemma NumberField(width: nat, a: nat, u: string, b: nat, v: string)
    requires Fits(width, a) && Fits(width, b)
    ensures Less(Digits(width, a) + u, Digits(width, b) + v) <==> a < b || (a == b && Less(u, v))
  {
    DigitsOrder(width, a, b);
    LessAppend(Digits(width, a), u, Digits(width, b), v);
  }

  /** A date, then anything: the earlier date first, then what follows. */
  lemma DateField(a: Moment, u: string, b: Moment, v: string)
    ensures Less(DateText(a) + u, DateText(b) + v) <==>
            DateNumber(a) < DateNumber(b) || (DateNumber(a) == DateNumber(b) && Less(u, v))
  {
    DateOrder(a, b);
    LessAppend(DateText(a), u, DateText(b), v);
  }

  lemma DateOrder(a: Moment, b: Moment)
    ensures Less(DateText(a), DateText(b)) <==> DateNumber(a) < DateNumber(b)
    ensures DateText(a) == DateText(b) <==> DateNumber(a) == DateNumber(b)
    ensures |DateText(a)| == |DateText(b)|
  {
    var ma, mb := Digits(2, a.month) + ("-" + Digits(2, a.day)), Digits(2, b.month) + ("-" + Digits(2, b.day));
    FitsFour(a.year); FitsFour(b.year);
    FitsTwo(a.month); FitsTwo(b.month);
    FitsTwo(a.day); FitsTwo(b.day);
    NumberField(4, a.year, "-" + ma, b.year, "-" + mb);
    NumberField(4, b.year, "-" + mb, a.year, "-" + ma);
    SameSeparator('-', ma, mb);
    SameSeparator('-', mb, ma);
    NumberField(2, a.month, "-" + Digits(2, a.day), b.month, "-" + Digits(2, b.day));
    NumberField(2, b.month, "-" + Digits(2, b.day), a.month, "-" + Digits(2, a.day));
    SameSeparator('-', Digits(2, a.day), Digits(2, b.day));
    SameSeparator('-', Digits(2, b.day), Digits(2, a.day));
    DigitsOrder(2, a.day, b.day);
    DigitsOrder(2, b.day, a.day);
    LessTotal(DateText(a), DateText(b));
    LessIrreflexive(DateText(a));
  }

  lemma FractionOrder(a: nat, b: nat)
    requires a < 1000000 && b < 1000000
    ensures Less(FractionText(a), FractionText(b)) <==> a < b
  {
    FitsSix(a);
    FitsSix(b);
    if a > 0 && b > 0 {
      SameSeparator('.', Digits(6, a) + OFFSET, Digits(6, b) + OFFSET);
      NumberField(6, a, OFFSET, b, OFFSET);
    }
    LessIrreflexive(OFFSET);
  }

  lemma TimeOrder(a: Moment, b: Moment)
    ensures Less(TimeText(a), TimeText(b)) <==> TimeNumber(a) < TimeNumber(b)
  {
    var sa, sb := Digits(2, a.second) + FractionText(a.micro), Digits(2, b.second) + FractionText(b.micro);
    var na, nb := Digits(2, a.minute) + (":" + sa), Digits(2, b.minute) + (":" + sb);
    FitsTwo(a.hour); FitsTwo(b.hour);
    FitsTwo(a.minute); FitsTwo(b.minute);
    FitsTwo(a.second); FitsTwo(b.second);
    NumberField(2, a.hour, ":" + na, b.hour, ":" + nb);
    SameSeparator(':', na, nb);
    NumberField(2, a.minute, ":" + sa, b.minute, ":" + sb);
    SameSeparator(':', sa, sb);
    NumberField(2, a.second, FractionText(a.micro), b.second, FractionText(b.micro));
    FractionOrder(a.micro, b.micro);
  }

  /** Stored texts compare as the moments they stand for. */
  lemma StoredOrder(a: Moment, b: Moment)
    ensures Less(Stored(a), Stored(b)) <==> Instant(a) < Instant(b)
  {
    DateField(a, " " + TimeText(a), b, " " + TimeText(b));
    SameSeparator(' ', TimeText(a), TimeText(b));
    TimeOrder(a, b);
    InstantOrder(a, b);
  }

  /** A text with a T sorts after every stored text of its date, whatever follows the T. */
  lemma SeparatorOrder(a: Moment, rest: string, b: Moment)
    ensures Less(WithT(a, rest), Stored(b)) <==> DateNumber(a) < DateNumber(b)
  {
    DateField(a, "T" + rest, b, " " + TimeText(b));
  }

  /** A text that starts with a date and a space. */
  function WithSpace(m: Moment, rest: string): string { DateText(m) + (" " + rest) }

  /** Such a text sorts by its date, and then by what follows the space. */
  lemma SpaceOrder(a: Moment, rest: string, b: Moment)
    ensures Less(WithSpace(a, rest), Stored(b)) <==>
            DateNumber(a) < DateNumber(b) || (DateNumber(a) == DateNumber(b) && Less(rest, TimeText(b)))
  {
    DateField(a, " " + rest, b, " " + TimeText(b));
    SameSeparator(' ', rest, TimeText(b));
  }

  /** A time of day to the second, with no offset. */
  function ShortTime(m: Moment): string {
    Digits(2, m.hour) + (":" + (Digits(2, m.minute) + (":" + Digits(2, m.second))))
  }

  /** Where a second starts. */
  function StartOfSecond(m: Moment): Moment { m.(micro := 0) }

  lemma ShortTimeOrder(a: Moment, b: Moment)
    ensures Less(ShortTime(a), TimeText(b)) <==> TimeNumber(StartOfSecond(a)) <= TimeNumber(b)
  {
    var sa, sb := Digits(2, a.second), Digits(2, b.second) + FractionText(b.micro);
    var na, nb := Digits(2, a.minute) + (":" + sa), Digits(2, b.minute) + (":" + sb);
    FitsTwo(a.hour); FitsTwo(b.hour);
    FitsTwo(a.minute); FitsTwo(b.minute);
    FitsTwo(a.second); FitsTwo(b.second);
    NumberField(2, a.hour, ":" + na, b.hour, ":" + nb);
    SameSeparator(':', na, nb);
    NumberField(2, a.minute, ":" + sa, b.minute, ":" + sb);
    SameSeparator(':', sa, sb);
    NumberField(2, a.second, "", b.second, FractionText(b.micro));
    assert sa + "" == sa;
  }

  /** A text to the second with no offset sorts before every stored text of that second. */
  lemma ShortFormOrder(a: Moment, b: Moment)
    ensures Less(WithSpace(a, ShortTime(a)), Stored(b)) <==> Instant(StartOfSecond(a)) <= Instant(b)
  {
    SpaceOrder(a, ShortTime(a), b);
    ShortTimeOrder(a, b);
    InstantOrder(b, StartOfSecond(a));
  }
}
