/**
 The timestamp text of db/base.py (`iso_utc`). Every time column of the SQLite store holds such
 a text and every comparison of times in its SQL is a comparison of texts.

 An instant counts the microseconds since 0001-01-01T00:00:00Z, the first moment a Python
 datetime can name.
 */
module Timestamps {
  import opened Wrappers

  const MICROS_PER_SECOND := 1_000_000
  const MICROS_PER_DAY := 86_400 * MICROS_PER_SECOND

  // ---------------------------------------------------------------- calendar

  datatype Date = Date(year: int, month: int, day: int)
  datatype Civil = Civil(date: Date, hour: int, minute: int, second: int, micro: int)

  /** A datetime: its wall clock and, unless it is naive, how far that clock is ahead of UTC. */
  datatype DateTime = DateTime(wall: Civil, offset: Option<int>)

  predicate Leap(year: int) {
    year % 4 == 0 && (year % 100 != 0 || year % 400 == 0)
  }

  function DaysInMonth(year: int, month: int): int {
    if month == 2 then (if Leap(year) then 29 else 28)
    else if month in {4, 6, 9, 11} then 30
    else 31
  }

  predicate ValidDate(d: Date) {
    1 <= d.year && 1 <= d.month <= 12 && 1 <= d.day <= DaysInMonth(d.year, d.month)
  }

  predicate Valid(c: Civil) {
    ValidDate(c.date) && 0 <= c.hour < 24 && 0 <= c.minute < 60 && 0 <= c.second < 60 && 0 <= c.micro < MICROS_PER_SECOND
  }

  function DaysBeforeYear(year: int): int {
    365 * (year - 1) + (year - 1) / 4 - (year - 1) / 100 + (year - 1) / 400
  }

  function DaysBeforeMonth(year: int, month: int): int
    requires 1 <= month
    decreases month
  {
    if month == 1 then 0 else DaysBeforeMonth(year, month - 1) + DaysInMonth(year, month - 1)
  }

  function DayNumber(d: Date): int
    requires ValidDate(d)
  {
    DaysBeforeYear(d.year) + DaysBeforeMonth(d.year, d.month) + d.day - 1
  }

  function DayMicros(c: Civil): int {
    ((c.hour * 60 + c.minute) * 60 + c.second) * MICROS_PER_SECOND + c.micro
  }

  function WallInstant(c: Civil): int
    requires Valid(c)
  {
    DayNumber(c.date) * MICROS_PER_DAY + DayMicros(c)
  }

  /** A naive datetime is taken as UTC. */
  function InstantOf(value: DateTime): int
    requires Valid(value.wall)
  {
    WallInstant(value.wall) - value.offset.GetOr(0)
  }

  function NextDay(d: Date): Date {
    if d.day < DaysInMonth(d.year, d.month) then d.(day := d.day + 1)
    else if d.month < 12 then Date(d.year, d.month + 1, 1)
    else Date(d.year + 1, 1, 1)
  }

  function DateOfDay(n: nat): (d: Date)
    ensures ValidDate(d)
  {
    if n == 0 then Date(1, 1, 1) else NextDay(DateOfDay(n - 1))
  }

  /** The UTC wall clock at an instant (`astimezone(timezone.utc)`). */
  function UtcWall(instant: nat): (c: Civil)
    ensures Valid(c)
  {
    var seconds := instant % MICROS_PER_DAY / MICROS_PER_SECOND;
    var minutes := seconds / 60;
    Civil(DateOfDay(instant / MICROS_PER_DAY), minutes / 60, minutes % 60, seconds % 60,
          instant % MICROS_PER_DAY % MICROS_PER_SECOND)
  }

  lemma QuotientStep(n: int, k: int)
    requires 1 <= n && k in {4, 100, 400}
    ensures n / k - (n - 1) / k == if n % k == 0 then 1 else 0
  {
  }

  lemma YearLength(year: int)
    requires 1 <= year
    ensures DaysBeforeYear(year + 1) == DaysBeforeYear(year) + DaysBeforeMonth(year, 12) + 31
  {
    MonthTable(year);
    QuotientStep(year, 4);
    QuotientStep(year, 100);
    QuotientStep(year, 400);
    LeapNesting(year);
  }

  lemma LeapNesting(year: int)
    ensures year % 400 == 0 ==> year % 100 == 0
    ensures year % 100 == 0 ==> year % 4 == 0
  {
    if year % 400 == 0 {
      MultipleOfMultiple(year, 4, 100, year / 400);
    }
    if year % 100 == 0 {
      MultipleOfMultiple(year, 25, 4, year / 100);
    }
  }

  lemma MultipleOfMultiple(n: int, a: nat, b: nat, q: int)
    requires (a == 4 && b == 100) || (a == 25 && b == 4)
    requires n == a * b * q
    ensures n % b == 0
  {
    if a == 4 {
      assert n == 100 * (4 * q);
    } else {
      assert n == 4 * (25 * q);
    }
  }

  lemma MonthTable(year: int)
    ensures DaysBeforeMonth(year, 12) == (if Leap(year) then 335 else 334)
  {
    assert DaysBeforeMonth(year, 4) == 90 + (if Leap(year) then 1 else 0);
    assert DaysBeforeMonth(year, 7) == 181 + (if Leap(year) then 1 else 0);
    assert DaysBeforeMonth(year, 10) == 273 + (if Leap(year) then 1 else 0);
  }

  lemma NextDayIsNext(d: Date)
    requires ValidDate(d)
    ensures ValidDate(NextDay(d))
    ensures DayNumber(NextDay(d)) == DayNumber(d) + 1
  {
    if d.day == DaysInMonth(d.year, d.month) && d.month == 12 {
      YearLength(d.year);
    }
  }

  lemma {:induction false} DateOfDayInverts(n: nat)
    ensures DayNumber(DateOfDay(n)) == n
  {
    if n > 0 {
      DateOfDayInverts(n - 1);
      NextDayIsNext(DateOfDay(n - 1));
    }
  }

  /** Hours, minutes, seconds and microseconds add up again. */
  lemma ClockAddsUp(micros: nat)
    ensures var seconds := micros / MICROS_PER_SECOND;
            var minutes := seconds / 60;
            ((minutes / 60 * 60 + minutes % 60) * 60 + seconds % 60) * MICROS_PER_SECOND + micros % MICROS_PER_SECOND == micros
  {
    var seconds := micros / MICROS_PER_SECOND;
    var minutes := seconds / 60;
    assert minutes / 60 * 60 + minutes % 60 == minutes;
    assert minutes * 60 + seconds % 60 == seconds;
    assert seconds * MICROS_PER_SECOND + micros % MICROS_PER_SECOND == micros;
  }

  /** The wall clock names the instant it was computed from. */
  lemma UtcWallInverts(instant: nat)
    ensures WallInstant(UtcWall(instant)) == instant
  {
    hide DayNumber, DateOfDay, ValidDate;
    var days, micros := instant / MICROS_PER_DAY, instant % MICROS_PER_DAY;
    DateOfDayInverts(days);
    ClockAddsUp(micros);
    assert UtcWall(instant).date == DateOfDay(days) && DayMicros(UtcWall(instant)) == micros;
    assert days * MICROS_PER_DAY + micros == instant;
  }

  // ------------------------------------------------------- order of the clock

  predicate DateBefore(a: Date, b: Date) {
    a.year < b.year || (a.year == b.year && (a.month < b.month || (a.month == b.month && a.day < b.day)))
  }

  lemma {:induction false} MonthsGrow(year: int, m: int, n: int)
    requires 1 <= m < n <= 12
    ensures DaysBeforeMonth(year, m) + DaysInMonth(year, m) <= DaysBeforeMonth(year, n)
    decreases n
  {
    if m < n - 1 {
      MonthsGrow(year, m, n - 1);
    }
  }

  lemma {:induction false} YearsGrow(y: int, z: int)
    requires 1 <= y < z
    ensures DaysBeforeYear(y + 1) <= DaysBeforeYear(z)
    decreases z
  {
    if y + 1 < z {
      YearsGrow(y, z - 1);
      YearLength(z - 1);
      MonthTable(z - 1);
    }
  }

  lemma DayNumberOrder(a: Date, b: Date)
    requires ValidDate(a) && ValidDate(b) && DateBefore(a, b)
    ensures DayNumber(a) < DayNumber(b)
  {
    if a.year < b.year {
      YearsGrow(a.year, b.year);
      YearLength(a.year);
      if a.month < 12 {
        MonthsGrow(a.year, a.month, 12);
      }
      if 1 < b.month {
        MonthsGrow(b.year, 1, b.month);
      }
    } else if a.month < b.month {
      MonthsGrow(a.year, a.month, b.month);
    }
  }

  // -------------------------------------------------------------------- text

  function Digit(d: int): char
    requires 0 <= d < 10
  {
    "0123456789"[d]
  }

  /** `n` in decimal, padded with zeros to at least `width` digits. */
  function Pad(n: nat, width: nat): string {
    if width == 0 && n == 0 then "" else Pad(n / 10, if width == 0 then 0 else width - 1) + [Digit(n % 10)]
  }

  /** One directive of the format: a number, its width and the literal that follows it. */
  datatype Piece = Piece(number: nat, width: nat, literal: char)

  /** "%Y-%m-%dT%H:%M:%S.%fZ"; %Y writes a year without padding. */
  function Pieces(c: Civil): seq<Piece>
    requires Valid(c)
  {
    [Piece(c.date.year, 0, '-')] + AfterYear(c)
  }

  function AfterYear(c: Civil): seq<Piece>
    requires Valid(c)
  {
    [Piece(c.date.month, 2, '-'), Piece(c.date.day, 2, 'T'),
     Piece(c.hour, 2, ':'), Piece(c.minute, 2, ':'), Piece(c.second, 2, '.'), Piece(c.micro, 6, 'Z')]
  }

  function YearText(instant: nat): string {
    Pad(UtcWall(instant).date.year, 0)
  }

  /** The text of the pieces from position `i` on. */
  function Render(pieces: seq<Piece>, i: nat := 0): string
    requires i <= |pieces|
    decreases |pieces| - i
  {
    if i == |pieces| then ""
    else Pad(pieces[i].number, pieces[i].width) + [pieces[i].literal] + Render(pieces, i + 1)
  }

  function IsoOfInstant(instant: nat): string {
    Render(Pieces(UtcWall(instant)))
  }

  /** `iso_utc`. A datetime whose UTC wall clock Python cannot name, before year 1 or after 9999, is
      outside its domain. */
  function IsoUtc(value: Option<DateTime>): Option<string>
    requires value.Some? ==> Valid(value.value.wall) && 0 <= InstantOf(value.value) && UtcWall(InstantOf(value.value)).date.year <= 9999
  {
    match value
    case None => None
    case Some(dt) => Some(IsoOfInstant(InstantOf(dt)))
  }

  /** The order SQLite's BINARY collation and Python give to texts. */
  predicate TextBefore(a: string, b: string) {
    b != "" && (a == "" || a[0] < b[0] || (a[0] == b[0] && TextBefore(a[1..], b[1..])))
  }

  predicate TextAtMost(a: string, b: string) {
    a == b || TextBefore(a, b)
  }

  lemma {:induction false} TextTotal(a: string, b: string)
    ensures TextAtMost(a, b) || TextBefore(b, a)
  {
    if a != "" && b != "" && a[0] == b[0] {
      TextTotal(a[1..], b[1..]);
      assert a[1..] == b[1..] ==> a == [a[0]] + a[1..] == b;
    }
  }

  lemma {:induction false} TextTransitive(a: string, b: string, c: string)
    requires TextAtMost(a, b) && TextAtMost(b, c)
    ensures TextAtMost(a, c)
  {
    if a != b && b != c && a != "" && a[0] == b[0] && b[0] == c[0] {
      TextTransitive(a[1..], b[1..], c[1..]);
      assert a[1..] == c[1..] ==> a == [a[0]] + a[1..] == c;
    }
  }

  /** Texts of one length: the first half decides unless it is shared. */
  lemma {:induction false} TextBeforeConcat(a: string, x: string, b: string, y: string)
    requires |a| == |b|
    ensures TextBefore(a + x, b + y) <==> TextBefore(a, b) || (a == b && TextBefore(x, y))
    ensures !TextBefore(a, a)
  {
    if a == "" {
      assert a + x == x && b + y == y;
    } else {
      TextBeforeConcat(a[1..], x, b[1..], y);
      assert (a + x)[1..] == a[1..] + x && (b + y)[1..] == b[1..] + y;
      assert a == b <==> a[0] == b[0] && a[1..] == b[1..];
    }
  }

  function Power10(k: nat): nat {
    if k == 0 then 1 else 10 * Power10(k - 1)
  }

  /** Zero-padded numbers of one width order as their values do. */
  lemma {:induction false} PadOrder(m: nat, n: nat, width: nat)
    requires m < Power10(width) && n < Power10(width)
    ensures |Pad(m, width)| == |Pad(n, width)| == width
    ensures TextBefore(Pad(m, width), Pad(n, width)) <==> m < n
    ensures Pad(m, width) == Pad(n, width) <==> m == n
  {
    if width > 0 {
      PadOrder(m / 10, n / 10, width - 1);
      LastDigitDecides(Pad(m / 10, width - 1), Pad(n / 10, width - 1), m, n);
      assert Pad(m, width) == Pad(m / 10, width - 1) + [Digit(m % 10)] && Pad(n, width) == Pad(n / 10, width - 1) + [Digit(n % 10)];
    }
  }

  /** Texts of the leading digits that order and tell apart, with one more digit, do so still. */
  lemma LastDigitDecides(a: string, b: string, m: nat, n: nat)
    requires |a| == |b| && (TextBefore(a, b) <==> m / 10 < n / 10) && (a == b <==> m / 10 == n / 10)
    ensures TextBefore(a + [Digit(m % 10)], b + [Digit(n % 10)]) <==> m < n
    ensures a + [Digit(m % 10)] == b + [Digit(n % 10)] <==> m == n
  {
    TextBeforeConcat(a, [Digit(m % 10)], b, [Digit(n % 10)]);
    DigitOrder(m % 10, n % 10);
    var p, q := a + [Digit(m % 10)], b + [Digit(n % 10)];
    assert p[..|a|] == a && q[..|b|] == b && p[|a|] == Digit(m % 10) && q[|b|] == Digit(n % 10);
  }

  lemma DigitOrder(d: nat, e: nat)
    requires d < 10 && e < 10
    ensures TextBefore([Digit(d)], [Digit(e)]) <==> d < e
    ensures Digit(d) == Digit(e) <==> d == e
  {
  }

  predicate AllDigits(text: string) {
    forall i | 0 <= i < |text| :: '0' <= text[i] <= '9'
  }

  lemma {:induction false} PadIsDigits(n: nat, width: nat)
    ensures AllDigits(Pad(n, width))
    decreases n, width
  {
    if n > 0 || width > 0 {
      PadIsDigits(n / 10, if width == 0 then 0 else width - 1);
    }
  }

  /** Unpadded numbers of one length order as their values do, and no two numbers read the same. */
  lemma {:induction false} PlainOrder(m: nat, n: nat)
    requires |Pad(m, 0)| == |Pad(n, 0)|
    ensures TextBefore(Pad(m, 0), Pad(n, 0)) <==> m < n
    ensures Pad(m, 0) == Pad(n, 0) <==> m == n
    decreases m
  {
    if m > 0 && n > 0 {
      PlainOrder(m / 10, n / 10);
      LastDigitDecides(Pad(m / 10, 0), Pad(n / 10, 0), m, n);
      assert Pad(m, 0) == Pad(m / 10, 0) + [Digit(m % 10)] && Pad(n, 0) == Pad(n / 10, 0) + [Digit(n % 10)];
    }
  }

  /** The number that decimal digits stand for. */
  function NumberIn(text: string): nat {
    if text == "" then 0
    else 10 * NumberIn(text[..|text| - 1]) + (if '0' <= text[|text| - 1] <= '9' then (text[|text| - 1] - '0') as nat else 0)
  }

  lemma {:induction false} PadReads(n: nat, width: nat)
    ensures NumberIn(Pad(n, width)) == n
    decreases n, width
  {
    if n > 0 || width > 0 {
      var shorter := Pad(n / 10, if width == 0 then 0 else width - 1);
      PadReads(n / 10, if width == 0 then 0 else width - 1);
      assert Pad(n, width) == shorter + [Digit(n % 10)];
      assert Pad(n, width)[..|shorter|] == shorter;
    }
  }

  lemma FourDigits(year: nat)
    requires 1000 <= year <= 9999
    ensures |Pad(year, 0)| == 4
  {
    var century := year / 10 / 10;
    assert |Pad(century / 10, 0)| == 1 by {
      assert 1 <= century / 10 <= 9 && Pad(century / 10 / 10, 0) == "";
    }
    assert |Pad(century, 0)| == 2 && |Pad(year / 10, 0)| == 3;
  }

  /** Numbers that differ decide over whatever follows their separator, which sorts before digits. */
  lemma {:induction false} NumbersDecide(u: string, x: string, v: string, y: string)
    requires AllDigits(u) && AllDigits(v) && u != v
    ensures TextBefore(u + "-" + x, v + "-" + y) <==> TextBefore(u, v)
    ensures u + "-" + x != v + "-" + y
    decreases |u|
  {
    var a, b := u + "-" + x, v + "-" + y;
    if u != "" && v != "" && u[0] == v[0] {
      assert a[1..] == u[1..] + "-" + x && b[1..] == v[1..] + "-" + y;
      assert u == [u[0]] + u[1..] && v == [v[0]] + v[1..];
      NumbersDecide(u[1..], x, v[1..], y);
    } else {
      assert a[0] == (if u == "" then '-' else u[0]) && b[0] == (if v == "" then '-' else v[0]);
    }
  }

  predicate SameShape(a: seq<Piece>, b: seq<Piece>) {
    |a| == |b|
    && forall i | 0 <= i < |a| ::
         a[i].width == b[i].width && a[i].literal == b[i].literal
         && a[i].number < Power10(a[i].width) && b[i].number < Power10(b[i].width)
  }

  predicate PiecesBefore(a: seq<Piece>, b: seq<Piece>, i: nat)
    requires i <= |a| == |b|
    decreases |a| - i
  {
    i < |a| && (a[i].number < b[i].number || (a[i].number == b[i].number && PiecesBefore(a, b, i + 1)))
  }

  lemma {:induction false} RenderOrder(a: seq<Piece>, b: seq<Piece>, i: nat)
    requires SameShape(a, b) && i <= |a|
    ensures |Render(a, i)| == |Render(b, i)|
    ensures TextBefore(Render(a, i), Render(b, i)) <==> PiecesBefore(a, b, i)
    ensures Render(a, i) == Render(b, i) <==> forall k | i <= k < |a| :: a[k].number == b[k].number
    decreases |a| - i
  {
    if i < |a| {
      var u, v := Pad(a[i].number, a[i].width), Pad(b[i].number, b[i].width);
      var p, q := u + [a[i].literal], v + [b[i].literal];
      PadOrder(a[i].number, b[i].number, a[i].width);
      TextBeforeConcat(u, [a[i].literal], v, [b[i].literal]);
      assert p[..|u|] == u && q[..|v|] == v;
      assert !TextBefore([a[i].literal], [b[i].literal]);
      RenderOrder(a, b, i + 1);
      TextBeforeConcat(p, Render(a, i + 1), q, Render(b, i + 1));
      assert Render(a, i)[..|p|] == p && Render(b, i)[..|q|] == q;
      assert Render(a, i)[|p|..] == Render(a, i + 1) && Render(b, i)[|q|..] == Render(b, i + 1);
    }
  }

  /** Instants whose UTC year has four digits: the texts of these sort. */
  predicate Sortable(instant: nat) {
    1000 <= UtcWall(instant).date.year <= 9999
  }

  predicate TimeBefore(a: Civil, b: Civil) {
    a.hour < b.hour || (a.hour == b.hour && (a.minute < b.minute || (a.minute == b.minute &&
      (a.second < b.second || (a.second == b.second && a.micro < b.micro)))))
  }

  predicate WallBefore(a: Civil, b: Civil) {
    DateBefore(a.date, b.date) || (a.date == b.date && TimeBefore(a, b))
  }

  lemma WallOrder(a: Civil, b: Civil)
    requires Valid(a) && Valid(b)
    ensures WallInstant(a) < WallInstant(b) <==> WallBefore(a, b)
  {
    TimeOrder(a, b);
    if DateBefore(a.date, b.date) {
      DayNumberOrder(a.date, b.date);
      WholeDays(DayNumber(a.date), DayMicros(a), DayNumber(b.date), DayMicros(b));
    } else if DateBefore(b.date, a.date) {
      DayNumberOrder(b.date, a.date);
      WholeDays(DayNumber(b.date), DayMicros(b), DayNumber(a.date), DayMicros(a));
    } else {
      assert a.date == b.date;
    }
  }

  lemma WholeDays(d: int, x: int, e: int, y: int)
    requires d < e && x < MICROS_PER_DAY && 0 <= y
    ensures d * MICROS_PER_DAY + x < e * MICROS_PER_DAY + y
  {
  }

  lemma TimeOrder(a: Civil, b: Civil)
    requires Valid(a) && Valid(b)
    ensures 0 <= DayMicros(a) < MICROS_PER_DAY && 0 <= DayMicros(b) < MICROS_PER_DAY
    ensures DayMicros(a) < DayMicros(b) <==> TimeBefore(a, b)
  {
    var m, n := a.hour * 60 + a.minute, b.hour * 60 + b.minute;
    assert m < n <==> a.hour < b.hour || (a.hour == b.hour && a.minute < b.minute);
    var s, t := m * 60 + a.second, n * 60 + b.second;
    assert s < t <==> m < n || (m == n && a.second < b.second);
    assert s < 86_400 && t < 86_400;
  }

  /** What follows the year compares like the rest of the clocks it is read from. */
  lemma AfterYearOrder(a: Civil, b: Civil)
    requires Valid(a) && Valid(b) && a.date.year == b.date.year
    ensures TextBefore(Render(AfterYear(a)), Render(AfterYear(b))) <==> WallBefore(a, b)
    ensures Render(AfterYear(a)) == Render(AfterYear(b)) <==> a == b
  {
    var p, q := AfterYear(a), AfterYear(b);
    PowerTable();
    RenderOrder(p, q, 0);
    assert PiecesBefore(p, q, 5) <==> a.micro < b.micro;
    assert PiecesBefore(p, q, 2) <==> TimeBefore(a, b) by {
      assert PiecesBefore(p, q, 4) <==> a.second < b.second || (a.second == b.second && a.micro < b.micro);
    }
    assert PiecesBefore(p, q, 1) <==> a.date.day < b.date.day || (a.date.day == b.date.day && TimeBefore(a, b));
    if forall k | 0 <= k < 6 :: p[k].number == q[k].number {
      assert p[0].number == q[0].number && p[1].number == q[1].number && p[2].number == q[2].number;
      assert p[3].number == q[3].number && p[4].number == q[4].number && p[5].number == q[5].number;
    }
  }

  lemma PowerTable()
    ensures Power10(2) == 100 && Power10(6) == 1_000_000
  {
    assert Power10(4) == 10_000 by {
      assert Power10(2) == 100;
    }
  }

  lemma {:induction false} RenderShifts(head: Piece, rest: seq<Piece>, i: nat)
    requires i <= |rest|
    ensures Render([head] + rest, i + 1) == Render(rest, i)
    decreases |rest| - i
  {
    hide Pad;
    if i < |rest| {
      assert ([head] + rest)[i + 1] == rest[i];
      RenderShifts(head, rest, i + 1);
    }
  }

  lemma YearComesFirst(c: Civil)
    requires Valid(c)
    ensures Render(Pieces(c)) == Pad(c.date.year, 0) + "-" + Render(AfterYear(c))
  {
    RenderShifts(Piece(c.date.year, 0, '-'), AfterYear(c), 0);
  }

  /** How the texts of any two instants compare: within a year like the instants, across years like the
      texts of the years; and a text names one instant. */
  lemma TextOrder(s: nat, t: nat)
    ensures var y, z := UtcWall(s).date.year, UtcWall(t).date.year;
            && (TextBefore(IsoOfInstant(s), IsoOfInstant(t)) <==> if y == z then s < t else TextBefore(YearText(s), YearText(t)))
            && (IsoOfInstant(s) == IsoOfInstant(t) <==> s == t)
            && (y != z ==> (s < t <==> y < z))
  {
    hide UtcWall, Render, Pad, Pieces, AfterYear, TextBefore, WallInstant;
    var a, b := UtcWall(s), UtcWall(t);
    var u, v := Pad(a.date.year, 0), Pad(b.date.year, 0);
    UtcWallInverts(s);
    UtcWallInverts(t);
    WallOrder(a, b);
    YearComesFirst(a);
    YearComesFirst(b);
    if a.date.year == b.date.year {
      AfterYearOrder(a, b);
      var x, y := Render(AfterYear(a)), Render(AfterYear(b));
      TextBeforeConcat(u + "-", x, v + "-", y);
      assert (u + "-" + x)[|u| + 1..] == x && (v + "-" + y)[|v| + 1..] == y;
    } else {
      YearTextsDiffer(a.date.year, b.date.year);
      PadIsDigits(a.date.year, 0);
      PadIsDigits(b.date.year, 0);
      NumbersDecide(u, Render(AfterYear(a)), v, Render(AfterYear(b)));
    }
  }

  lemma YearTextsDiffer(y: nat, z: nat)
    requires y != z
    ensures Pad(y, 0) != Pad(z, 0)
  {
    if |Pad(y, 0)| == |Pad(z, 0)| {
      PlainOrder(y, z);
    }
  }

  /** Exactly when time order is text order: within a year, and across years whose texts sort like the
      years. Years of as many digits always do. */
  lemma WhenTextsSort(s: nat, t: nat)
    ensures var y, z := UtcWall(s).date.year, UtcWall(t).date.year;
            && ((TextBefore(IsoOfInstant(s), IsoOfInstant(t)) <==> s < t) <==>
                (y == z || (TextBefore(YearText(s), YearText(t)) <==> y < z)))
            && (|YearText(s)| == |YearText(t)| ==> (TextBefore(YearText(s), YearText(t)) <==> y < z))
  {
    hide UtcWall, IsoOfInstant, Pad, TextBefore;
    TextOrder(s, t);
    if |YearText(s)| == |YearText(t)| {
      PlainOrder(UtcWall(s).date.year, UtcWall(t).date.year);
    }
  }

  /** So time order is text order for years of four digits. */
  lemma IsoOrder(s: nat, t: nat)
    requires Sortable(s) && Sortable(t)
    ensures TextBefore(IsoOfInstant(s), IsoOfInstant(t)) <==> s < t
    ensures IsoOfInstant(s) == IsoOfInstant(t) <==> s == t
  {
    hide UtcWall, IsoOfInstant, Pad, TextBefore;
    FourDigits(UtcWall(s).date.year);
    FourDigits(UtcWall(t).date.year);
    WhenTextsSort(s, t);
    TextOrder(s, t);
  }

  // ------------------------------------------------------------- reading it back

  /** "YYYY-MM-DDTHH:MM:SS.ffffffZ", read field by field. */
  function ReadIso(text: string): Civil
    requires |text| == 27
  {
    Civil(Date(NumberIn(text[..4]), NumberIn(text[5..7]), NumberIn(text[8..10])),
          NumberIn(text[11..13]), NumberIn(text[14..16]), NumberIn(text[17..19]), NumberIn(text[20..26]))
  }

  lemma PieceReads(pieces: seq<Piece>, i: nat)
    requires i < |pieces|
    ensures var w, text := |Pad(pieces[i].number, pieces[i].width)|, Render(pieces, i);
            && |text| == w + 1 + |Render(pieces, i + 1)| && text[w] == pieces[i].literal && text[w + 1..] == Render(pieces, i + 1)
            && text[..w] == Pad(pieces[i].number, pieces[i].width) && NumberIn(text[..w]) == pieces[i].number
  {
    hide Pad, NumberIn;
    var u, rest := Pad(pieces[i].number, pieces[i].width), Render(pieces, i + 1);
    PadReads(pieces[i].number, pieces[i].width);
    assert Render(pieces, i) == u + [pieces[i].literal] + rest;
  }

  lemma TwoDigits(n: nat)
    requires n < 100
    ensures |Pad(n, 2)| == 2
  {
    PowerTable();
    PadOrder(n, n, 2);
  }

  /** The text after the year. */
  lemma AfterYearReads(c: Civil)
    requires Valid(c)
    ensures var t := Render(AfterYear(c));
            && |t| == 22 && t[2] == '-' && t[5] == 'T' && t[8] == ':' && t[11] == ':' && t[14] == '.' && t[21] == 'Z'
            && NumberIn(t[..2]) == c.date.month && NumberIn(t[3..5]) == c.date.day && NumberIn(t[6..8]) == c.hour
            && NumberIn(t[9..11]) == c.minute && NumberIn(t[12..14]) == c.second && NumberIn(t[15..21]) == c.micro
  {
    hide Pad, NumberIn, Render, DaysInMonth;
    var p := AfterYear(c);
    ShortFields(c);
    PieceReads(p, 0);
    PieceReads(p, 1);
    PieceReads(p, 2);
    PieceReads(p, 3);
    PieceReads(p, 4);
    PieceReads(p, 5);
    NothingLeft(p);
    var t0, t1, t2, t3, t4, t5 := Render(p, 0), Render(p, 1), Render(p, 2), Render(p, 3), Render(p, 4), Render(p, 5);
    assert t1 == t0[3..] && t2 == t0[6..] && t3 == t0[9..] && t4 == t0[12..] && t5 == t0[15..];
    assert t1[..2] == t0[3..5] && t2[..2] == t0[6..8] && t3[..2] == t0[9..11] && t4[..2] == t0[12..14] && t5[..6] == t0[15..21];
  }

  lemma NothingLeft(pieces: seq<Piece>)
    ensures Render(pieces, |pieces|) == ""
  {
  }

  lemma ShortFields(c: Civil)
    requires Valid(c)
    ensures |Pad(c.date.month, 2)| == |Pad(c.date.day, 2)| == |Pad(c.hour, 2)| == |Pad(c.minute, 2)| == |Pad(c.second, 2)| == 2
    ensures |Pad(c.micro, 6)| == 6
  {
    TwoDigits(c.date.month);
    TwoDigits(c.date.day);
    TwoDigits(c.hour);
    TwoDigits(c.minute);
    TwoDigits(c.second);
    PowerTable();
    PadOrder(c.micro, c.micro, 6);
  }

  /** The text of an instant is in the one format, and read back field by field it is the calendar and the
      clock of that instant. */
  lemma IsoReadsBack(instant: nat)
    requires Sortable(instant)
    ensures var t := IsoOfInstant(instant);
            && |t| == 27 && t[4] == t[7] == '-' && t[10] == 'T' && t[13] == t[16] == ':' && t[19] == '.' && t[26] == 'Z'
            && ReadIso(t) == UtcWall(instant) && WallInstant(ReadIso(t)) == instant
  {
    hide UtcWall, Pad, NumberIn, Render, WallInstant, AfterYear;
    var c := UtcWall(instant);
    UtcWallInverts(instant);
    FourDigits(c.date.year);
    PadReads(c.date.year, 0);
    YearComesFirst(c);
    AfterYearReads(c);
    var t, rest := IsoOfInstant(instant), Render(AfterYear(c));
    assert t == Pad(c.date.year, 0) + "-" + rest;
    assert t[..4] == Pad(c.date.year, 0) && t[5..] == rest;
    assert t[5..7] == rest[..2] && t[8..10] == rest[3..5] && t[11..13] == rest[6..8] && t[14..16] == rest[9..11];
    assert t[17..19] == rest[12..14] && t[20..26] == rest[15..21];
  }

  /** The calendar: the days since the first of January of the year 1 that datetime counts, and which
      years have a 29th of February. */
  lemma KnownDays()
    ensures DayNumber(Date(1, 1, 1)) == 0 && DayNumber(Date(1970, 1, 1)) == 719_162 && DayNumber(Date(9999, 12, 31)) == 3_652_058
    ensures DayNumber(Date(2000, 3, 1)) - DayNumber(Date(2000, 2, 28)) == 2 && DayNumber(Date(2024, 3, 1)) - DayNumber(Date(2024, 2, 28)) == 2
    ensures DayNumber(Date(1900, 3, 1)) - DayNumber(Date(1900, 2, 28)) == 1 && DayNumber(Date(2023, 3, 1)) - DayNumber(Date(2023, 2, 28)) == 1
  {
    MonthTable(9999);
  }

  /** A datetime that `iso_utc` takes, and writes as the instant's text. */
  ghost predicate WrittenAs(value: DateTime, instant: nat) {
    Valid(value.wall) && 0 <= InstantOf(value) && UtcWall(InstantOf(value)).date.year <= 9999
    && IsoUtc(Some(value)) == Some(IsoOfInstant(instant))
  }

  /** A clock that runs `offset` ahead of UTC, or a naive one that shows UTC, writes the instant it was
      read at. */
  lemma OffsetsCancel(instant: nat, offset: int)
    requires UtcWall(instant).date.year <= 9999 && 0 <= instant + offset
    ensures WrittenAs(DateTime(UtcWall(instant + offset), Some(offset)), instant)
    ensures WrittenAs(DateTime(UtcWall(instant), None), instant)
  {
    hide UtcWall, WallInstant, IsoOfInstant;
    UtcWallInverts(instant + offset);
    UtcWallInverts(instant);
  }

  /** The same for datetimes in any time zone, naive ones included. */
  lemma IsoUtcOrder(a: DateTime, b: DateTime)
    requires Valid(a.wall) && Valid(b.wall) && 0 <= InstantOf(a) && 0 <= InstantOf(b)
    requires Sortable(InstantOf(a)) && Sortable(InstantOf(b))
    ensures TextBefore(IsoUtc(Some(a)).value, IsoUtc(Some(b)).value) <==> InstantOf(a) < InstantOf(b)
    ensures IsoUtc(Some(a)) == IsoUtc(Some(b)) <==> InstantOf(a) == InstantOf(b)
  {
    IsoOrder(InstantOf(a), InstantOf(b));
  }

  lemma LeadingDigits()
    ensures Pad(999, 0)[0] == '9' && Pad(1000, 0)[0] == '1'
  {
    assert Pad(9, 0) == "9" && Pad(1, 0) == "1";
    assert Pad(99, 0) == "99" && Pad(10, 0) == "10";
    assert Pad(999, 0) == "999" && Pad(100, 0) == "100";
  }

  /** A range that fails: every moment of 999 sorts after every moment of 1000. */
  lemma EarlyYearsDoNotSort(s: nat, t: nat)
    requires UtcWall(s).date.year == 999 && UtcWall(t).date.year == 1000
    ensures s < t && TextBefore(IsoOfInstant(t), IsoOfInstant(s))
  {
    hide UtcWall, IsoOfInstant;
    TextOrder(t, s);
    LeadingDigits();
  }
}
