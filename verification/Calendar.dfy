/**
 Julian day numbers and the proleptic Gregorian calendar (src/common/dateTime.cpp).

 The conversions are modelled twice: over the unbounded integers, and with every C++ operation
 checked against the 32-bit range.  The first carries the calendar theorems; the second says
 exactly on which inputs the C++ code computes the first.
 */
module Calendar {
  const INT32_MIN: int := -0x8000_0000
  const INT32_MAX: int := 0x7fff_ffff
  const DATE_JD_INVALID: int := INT32_MIN

  /** The day numbers, and the dates, on which no C++ intermediate leaves 32 bits. */
  const JD_LO: int := -536866432
  const JD_HI: int := 536838867
  const YMD_LO: Ymd := Ymd(-5884291, 5, 14)
  const YMD_HI: Ymd := Ymd(5874689, 12, 15)

  datatype Ymd = Ymd(year: int, month: int, day: int)

  // ---------------------------------------------------------------------------------------------
  // Integer division

  /** C++ division: the quotient is truncated toward zero. */
  function TruncDiv(a: int, b: int): int
    requires b != 0
  {
    if a >= 0 then (if b > 0 then a / b else -(a / -b))
    else if b > 0 then -(-a / b) else -a / -b
  }

  /** C++ remainder: it takes the sign of the dividend. */
  function TruncMod(a: int, b: int): int
    requires b != 0
  {
    a - TruncDiv(a, b) * b
  }

  function FloorDiv(a: int, b: int): int
    requires b != 0
  {
    if b < 0 then
      if a < 0 then TruncDiv(a, b)
      else TruncDiv(-a - (if -a < 0 then -b - 1 else 0), -b)
    else
      TruncDiv(a - (if a < 0 then b - 1 else 0), b)
  }

  /** FloorDiv is the floor of the exact quotient, for divisors of either sign. */
  lemma FloorDivIsFloor(a: int, b: int)
    requires b != 0
    ensures b > 0 ==> b * FloorDiv(a, b) <= a < b * FloorDiv(a, b) + b
    ensures b < 0 ==> b * FloorDiv(a, b) + b < a <= b * FloorDiv(a, b)
  {
    hide FloorDiv, TruncDiv;
    if b > 0 {
      FloorDivPositive(a, b);
      Euclid(a, b);
    } else {
      FloorDivNegative(a, b);
      Euclid(-a, -b);
      FloorOfNegative(a, b, -a / -b);
    }
  }

  lemma FloorOfNegative(a: int, b: int, q: int)
    requires -b * q <= -a < -b * q + -b
    ensures b * q + b < a <= b * q
  {
    assert b * q == -(-b * q);
  }

  lemma FloorDivNegative(a: int, b: int)
    requires b < 0
    ensures FloorDiv(a, b) == -a / -b
  {
    if a >= 0 {
      FloorDivPositive(-a, -b);
      assert FloorDiv(a, b) == FloorDiv(-a, -b);
    }
  }

  lemma FloorDivPositive(a: int, b: int)
    requires b > 0
    ensures FloorDiv(a, b) == a / b
  {
    if a < 0 {
      NegatedCeiling(a, b, b - 1 - a);
      assert FloorDiv(a, b) == -((b - 1 - a) / b);
    }
  }

  /** floor(a / b) is the q with b*q <= a < b*q + b; the code computes -((b - 1 - a) / b). */
  lemma NegatedCeiling(a: int, b: int, n: int)
    requires b > 0 && n == b - 1 - a
    ensures -(n / b) == a / b
  {
    Euclid(a, b);
    Euclid(n, b);
    var q, p := a / b, n / b;
    assert b * (-p) == -(b * p);
    hide *;
    UniqueQuotient(a, b, q, -p);
  }

  lemma Euclid(n: int, b: int)
    requires b > 0
    ensures b * (n / b) <= n < b * (n / b) + b
  {
  }

  lemma UniqueQuotient(a: int, b: int, q: int, r: int)
    requires b > 0
    requires b * q <= a < b * q + b
    requires b * r <= a < b * r + b
    ensures q == r
  {
    assert b * (q - r) == b * q - b * r;
    assert -b < b * (q - r) < b;
    MulBound(b, q - r);
  }

  lemma MulBound(b: int, k: int)
    requires b > 0
    ensures k >= 1 ==> b * k >= b
    ensures k <= -1 ==> b * k <= -b
  {
    if k >= 1 {
      assert b * k == b + b * (k - 1);
    } else if k <= -1 {
      assert b * k == -b + b * (k + 1);
    }
  }

  // ---------------------------------------------------------------------------------------------
  // The conversions

  function YmdToJd(date: Ymd): int
  {
    var y0 := if date.year < 0 then date.year + 1 else date.year;
    var a := FloorDiv(14 - date.month, 12);
    var y := y0 + 4800 - a;
    var m := date.month + 12 * a - 3;
    date.day + FloorDiv(153 * m + 2, 5) + 365 * y + FloorDiv(y, 4) - FloorDiv(y, 100)
      + FloorDiv(y, 400) - 32045
  }

  function JdToYmd(jd: int): Ymd
  {
    var a := jd + 32044;
    var b := FloorDiv(4 * a + 3, 146097);
    var c := a - FloorDiv(146097 * b, 4);
    var d := FloorDiv(4 * c + 3, 1461);
    var e := c - FloorDiv(1461 * d, 4);
    var m := FloorDiv(5 * e + 2, 153);
    var day := e - FloorDiv(153 * m + 2, 5) + 1;
    var month := m + 3 - 12 * FloorDiv(m, 10);
    var year := 100 * b + d - 4800 + FloorDiv(m, 10);
    Ymd(if year <= 0 then year - 1 else year, month, day)
  }

  // ---------------------------------------------------------------------------------------------
  // The calendar rules

  /** Year -1 is followed by year 1: a negative year counts one more than its astronomical year. */
  predicate IsLeapYear(year: int) {
    var y := if year < 1 then year + 1 else year;
    (TruncMod(y, 4) == 0 && TruncMod(y, 100) != 0) || TruncMod(y, 400) == 0
  }

  /** The table of src/common/dateTime.cpp:126-134; an impossible month has no days. */
  function DaysInMonth(month: int): int {
    if month < 1 || month > 12 then 0
    else [0, 31, 28, 31, 30, 31, 30, 31, 31, 30, 31, 30, 31][month]
  }

  predicate IsValid(date: Ymd) {
    date.year != 0 && date.day >= 1
    && (date.day <= DaysInMonth(date.month)
        || (date.day == 29 && date.month == 2 && IsLeapYear(date.year)))
  }

  /** The days of a month, leap years taken into account. */
  function MonthLength(year: int, month: int): int {
    if month == 2 && IsLeapYear(year) then 29 else DaysInMonth(month)
  }

  function NextYear(year: int): int {
    if year == -1 then 1 else year + 1
  }

  /** The calendar successor of a date. */
  function NextDay(date: Ymd): Ymd {
    if date.day < MonthLength(date.year, date.month) then date.(day := date.day + 1)
    else if date.month < 12 then Ymd(date.year, date.month + 1, 1)
    else Ymd(NextYear(date.year), 1, 1)
  }

  /** Dates in the order of the calendar. */
  predicate NotAfter(x: Ymd, y: Ymd) {
    x.year < y.year
    || (x.year == y.year && (x.month < y.month || (x.month == y.month && x.day <= y.day)))
  }

  /** Days of the year that come before the given month. */
  function DaysBefore(year: int, month: int): int
    requires 1 <= month <= 12
    decreases month
  {
    if month == 1 then 0 else DaysBefore(year, month - 1) + MonthLength(year, month - 1)
  }

  function DaysInYear(year: int): int {
    if IsLeapYear(year) then 366 else 365
  }

  function DayOfWeek(jd: int): int {
    if jd >= 0 then TruncMod(jd, 7) + 1 else TruncMod(jd + 1, 7) + 7
  }

  function DayOfYear(jd: int): int {
    jd - YmdToJd(Ymd(JdToYmd(jd).year, 1, 1)) + 1
  }

  // ---------------------------------------------------------------------------------------------
  // Mutual inverses

  /** The astronomical year, starting in March, that both conversions compute with. */
  function MarchYear(date: Ymd): int {
    (if date.year < 0 then date.year + 1 else date.year) + 4800 - (if date.month <= 2 then 1 else 0)
  }

  /** The month counted from March. */
  function MarchMonth(date: Ymd): int {
    if date.month <= 2 then date.month + 9 else date.month - 3
  }

  /** YmdToJd with its divisions resolved. */
  lemma YmdToJdForm(date: Ymd)
    requires 1 <= date.month <= 12
    ensures var y := MarchYear(date);
            YmdToJd(date) == date.day + (153 * MarchMonth(date) + 2) / 5 + 365 * y + y / 4 - y / 100
                             + y / 400 - 32045
  {
    FloorDivPositive(14 - date.month, 12);
    FloorDivPositive(153 * MarchMonth(date) + 2, 5);
    FloorDivPositive(MarchYear(date), 4);
    FloorDivPositive(MarchYear(date), 100);
    FloorDivPositive(MarchYear(date), 400);
  }

  /** JdToYmd with its divisions resolved: century, year of century, day of year, month. */
  lemma JdToYmdForm(jd: int) returns (b: int, d: int, e: int, m: int)
    ensures b == (4 * (jd + 32044) + 3) / 146097
    ensures var c := jd + 32044 - 146097 * b / 4; d == (4 * c + 3) / 1461 && e == c - 1461 * d / 4
    ensures m == (5 * e + 2) / 153
    ensures var year := 100 * b + d - 4800 + m / 10;
            JdToYmd(jd) == Ymd(if year <= 0 then year - 1 else year, m + 3 - 12 * (m / 10),
                               e - (153 * m + 2) / 5 + 1)
  {
    var a := jd + 32044;
    b := (4 * a + 3) / 146097;
    FloorDivPositive(4 * a + 3, 146097);
    FloorDivPositive(146097 * b, 4);
    var c := a - 146097 * b / 4;
    d := (4 * c + 3) / 1461;
    FloorDivPositive(4 * c + 3, 1461);
    FloorDivPositive(1461 * d, 4);
    e := c - 1461 * d / 4;
    m := (5 * e + 2) / 153;
    FloorDivPositive(5 * e + 2, 153);
    FloorDivPositive(153 * m + 2, 5);
    FloorDivPositive(m, 10);
  }

  /** Leap years are those whose astronomical number passes the Gregorian test. */
  lemma LeapForm(year: int)
    ensures var y := if year < 1 then year + 1 else year;
            IsLeapYear(year) <==> (y % 4 == 0 && y % 100 != 0) || y % 400 == 0
  {
    var y := if year < 1 then year + 1 else year;
    TruncModZero(y, 4);
    TruncModZero(y, 100);
    TruncModZero(y, 400);
    hide TruncMod;
  }

  /** The C++ remainder is zero when the Euclidean one is. */
  lemma TruncModZero(a: int, b: int)
    requires b > 0
    ensures TruncMod(a, b) == 0 <==> a % b == 0
  {
    if a < 0 {
      var n := -a;
      var q, r := n / b, n % b;
      assert n == b * q + r;
      assert TruncMod(a, b) == -r;
      hide TruncMod;
      NegatedMod(n, b, q, r);
    }
  }

  lemma NegatedMod(n: int, b: int, q: int, r: int)
    requires b > 0 && 0 <= r < b && n == b * q + r
    ensures -n % b == 0 <==> r == 0
  {
    if r == 0 {
      assert -n == b * -q;
      UniqueQuotient(-n, b, -q, -n / b);
    } else {
      assert b * (-q - 1) == -(b * q) - b;
      UniqueQuotient(-n, b, -q - 1, -n / b);
    }
  }

  /** The ranges of the decoded pieces, and the years that have a 366th day. */
  lemma DecodedRanges(jd: int, b: int, c: int, d: int, e: int)
    requires b == (4 * (jd + 32044) + 3) / 146097
    requires c == jd + 32044 - 146097 * b / 4
    requires d == (4 * c + 3) / 1461
    requires e == c - 1461 * d / 4
    ensures 0 <= c <= 36524 && (c == 36524 ==> b % 4 == 3)
    ensures 0 <= d <= 99
    ensures 0 <= e <= 365
    ensures e == 365 ==> d % 4 == 3 && (d == 99 ==> b % 4 == 3)
  {
  }

  /** The month lengths, counted from March, that the 153-day cycle encodes. */
  lemma MarchMonths(e: int, m: int)
    requires 0 <= e <= 365
    requires m == (5 * e + 2) / 153
    ensures 0 <= m <= 11
    ensures var day := e - (153 * m + 2) / 5 + 1;
            var month := m + 3 - 12 * (m / 10);
            && 1 <= month <= 12 && day >= 1
            && (month == 2 ==> day <= 29 && (day == 29 <==> e == 365))
            && (month != 2 ==> day <= DaysInMonth(month))
  {
  }

  /** Decoding any day number gives a valid date: month and day in range, no year zero. */
  lemma DecodeIsValid(jd: int)
    ensures IsValid(JdToYmd(jd))
  {
    hide YmdToJd, JdToYmd, FloorDiv, TruncDiv;
    var b, d, e, m := JdToYmdForm(jd);
    DecodedRanges(jd, b, jd + 32044 - 146097 * b / 4, d, e);
    MarchMonths(e, m);
    var date := JdToYmd(jd);
    if date.month == 2 && date.day == 29 {
      // 29 February is day 365 counted from March of year 100b + d, and belongs to the next year
      LeapForm(date.year);
      FebruaryYear(b, d);
      assert IsLeapYear(date.year);
    }
  }

  lemma FebruaryYear(b: int, d: int)
    requires 0 <= d <= 99 && d % 4 == 3 && (d == 99 ==> b % 4 == 3)
    ensures var y := 100 * b + d - 4799; (y % 4 == 0 && y % 100 != 0) || y % 400 == 0
  {
    if d == 99 {
      Residues(b / 4 - 11, 0);
    } else {
      Residues(25 * b - 1200 + d / 4 + 1, 0);
      Residues(b - 48, d + 1);
    }
  }

  lemma Residues(n: int, r: int)
    requires 0 <= r < 100
    ensures (4 * n) % 4 == 0
    ensures (100 * n + r) % 100 == r
    ensures (400 * n) % 400 == 0
  {
  }

  /** Encoding undoes decoding, for every day number. */
  lemma EncodeDecode(jd: int)
    ensures YmdToJd(JdToYmd(jd)) == jd
  {
    hide YmdToJd, JdToYmd, MarchYear, MarchMonth;
    var b, d, e, m := JdToYmdForm(jd);
    DecodedRanges(jd, b, jd + 32044 - 146097 * b / 4, d, e);
    MarchMonths(e, m);
    var date := JdToYmd(jd);
    MarchForm(date, 100 * b + d, m);
    EncodedPieces(date, b, d, e);
    CenturySplit(b, d);
  }

  /** The March year and month of a date, from what the decoder computes. */
  lemma MarchForm(date: Ymd, y: int, m: int)
    requires 0 <= m <= 11 && date.month == m + 3 - 12 * (m / 10)
    requires var year := y - 4800 + m / 10; date.year == if year <= 0 then year - 1 else year
    ensures MarchYear(date) == y && MarchMonth(date) == m
  {
  }

  /** The leap-day count of a year, split by century. */
  lemma CenturySplit(b: int, d: int)
    requires 0 <= d <= 99
    ensures (100 * b + d) / 4 == 25 * b + d / 4
    ensures (100 * b + d) / 100 == b
    ensures (100 * b + d) / 400 == b / 4
    ensures 146097 * b / 4 == 36524 * b + b / 4
    ensures 1461 * d / 4 == 365 * d + d / 4
  {
    assert 100 * b + d == 4 * (25 * b) + d;
    var q, r := b / 4, b % 4;
    assert b == 4 * q + r;
    assert 100 * b + d == 400 * q + (100 * r + d);
    assert 0 <= 100 * r + d < 400;
  }

  /** Decoding undoes encoding, for every valid date. */
  lemma DecodeEncode(date: Ymd)
    requires IsValid(date)
    ensures JdToYmd(YmdToJd(date)) == date
  {
    hide YmdToJd, JdToYmd, FloorDiv, TruncDiv, IsLeapYear, MarchYear, MarchMonth;
    var jd := YmdToJd(date);
    var y, m := MarchYear(date), MarchMonth(date);
    var B, D := y / 100, y % 100;
    var E := date.day - 1 + (153 * m + 2) / 5;
    EncodedPieces(date, B, D, E);
    ValidDayIndex(date, B, D, E);
    DecodedPieces(jd, B, D, E);
    DateOfPieces(date, B, D);
  }

  /** Decoding, given century, year of century and day of year. */
  lemma DecodedPieces(jd: int, B: int, D: int, E: int)
    requires jd + 32044 == 36524 * B + B / 4 + 365 * D + D / 4 + E
    requires 0 <= D <= 99 && 0 <= E <= 365
    requires E == 365 ==> D % 4 == 3 && (D == 99 ==> B % 4 == 3)
    ensures var m := (5 * E + 2) / 153;
            var year := 100 * B + D - 4800 + m / 10;
            JdToYmd(jd) == Ymd(if year <= 0 then year - 1 else year, m + 3 - 12 * (m / 10),
                               E - (153 * m + 2) / 5 + 1)
  {
    hide JdToYmd;
    var b, d, e, m := JdToYmdForm(jd);
    PiecesUnique(jd, B, D, E, b, d, e);
  }

  /** Encoding, split into century, year of century and day of year. */
  lemma EncodedPieces(date: Ymd, B: int, D: int, E: int)
    requires 1 <= date.month <= 12
    requires 100 * B + D == MarchYear(date) && 0 <= D <= 99
    requires E == date.day - 1 + (153 * MarchMonth(date) + 2) / 5
    ensures YmdToJd(date) + 32044 == 36524 * B + B / 4 + 365 * D + D / 4 + E
  {
    hide YmdToJd, MarchYear, MarchMonth;
    YmdToJdForm(date);
    CenturySplit(B, D);
  }

  /** The date, from its March year and month. */
  lemma DateOfPieces(date: Ymd, B: int, D: int)
    requires 1 <= date.month <= 12 && date.year != 0 && 100 * B + D == MarchYear(date)
    ensures var m := MarchMonth(date);
            var year := 100 * B + D - 4800 + m / 10;
            date.year == (if year <= 0 then year - 1 else year) && date.month == m + 3 - 12 * (m / 10)
  {
  }

  /** A valid date is a legal day of its March year, and its month is recovered from it. */
  lemma ValidDayIndex(date: Ymd, B: int, D: int, E: int)
    requires IsValid(date)
    requires 100 * B + D == MarchYear(date) && 0 <= D <= 99
    requires E == date.day - 1 + (153 * MarchMonth(date) + 2) / 5
    ensures 0 <= E <= 365 && (E == 365 ==> D % 4 == 3 && (D == 99 ==> B % 4 == 3))
    ensures (5 * E + 2) / 153 == MarchMonth(date)
  {
    if date.month == 2 && date.day == 29 {
      LeapForm(date.year);
      assert E == 365;
      var y := if date.year < 1 then date.year + 1 else date.year;
      assert y == 100 * B + D - 4799;
      LeapPieces(y, B, D);
    }
  }

  lemma LeapPieces(y: int, B: int, D: int)
    requires y == 100 * B + D - 4799 && 0 <= D <= 99
    requires (y % 4 == 0 && y % 100 != 0) || y % 400 == 0
    ensures D % 4 == 3 && (D == 99 ==> B % 4 == 3)
  {
    if D == 99 {
      Residues(B - 47, 0);
      QuarterCentury(y, B);
    } else {
      Residues(B - 48, D + 1);
      FourYears(y, B, D);
    }
  }

  lemma QuarterCentury(y: int, B: int)
    requires y == 100 * (B - 47)
    ensures y % 400 == 0 ==> B % 4 == 3
  {
  }

  lemma FourYears(y: int, B: int, D: int)
    requires y == 4 * (25 * B - 1200) + (D + 1)
    ensures y % 4 == (D + 1) % 4
    ensures y % 400 == 0 ==> y % 4 == 0
  {
    Mod4(25 * B - 1200, D + 1);
    Mod4(100 * (y / 400), y % 400);
  }

  lemma Mod4(k: int, r: int)
    ensures (4 * k + r) % 4 == r % 4
  {
    var q, t := r / 4, r % 4;
    assert r == 4 * q + t;
    assert 4 * k + r == 4 * (k + q) + t;
  }

  /** Century, year and day of year are determined by the day number. */
  lemma PiecesUnique(jd: int, B: int, D: int, E: int, b: int, d: int, e: int)
    requires jd + 32044 == 36524 * B + B / 4 + 365 * D + D / 4 + E
    requires 0 <= D <= 99 && 0 <= E <= 365
    requires E == 365 ==> D % 4 == 3 && (D == 99 ==> B % 4 == 3)
    requires b == (4 * (jd + 32044) + 3) / 146097
    requires var c := jd + 32044 - 146097 * b / 4; d == (4 * c + 3) / 1461 && e == c - 1461 * d / 4
    ensures b == B && d == D && e == E
  {
    CenturySplit(B, D);
    var C := 365 * D + D / 4 + E;
    assert 0 <= C <= 36524 && (C == 36524 ==> B % 4 == 3);
    var a := jd + 32044;
    assert 4 * a + 3 == 146097 * B - B % 4 + 4 * C + 3;
    assert 0 <= -(B % 4) + 4 * C + 3 < 146097;
    assert b == B;
    assert a - 146097 * b / 4 == C;
    assert 4 * C + 3 == 1461 * D - D % 4 + 4 * E + 3;
    assert d == D;
  }

  // ---------------------------------------------------------------------------------------------
  // Calendar meaning

  /** Adding one to a valid date's day number is moving to the next day of the calendar. */
  lemma SuccessorEncodes(date: Ymd)
    requires IsValid(date)
    ensures IsValid(NextDay(date))
    ensures YmdToJd(NextDay(date)) == YmdToJd(date) + 1
  {
    hide YmdToJd, IsLeapYear;
    if date.day < MonthLength(date.year, date.month) {
      YmdToJdForm(date);
      YmdToJdForm(NextDay(date));
    } else if date.month == 2 {
      FebruaryToMarch(date);
    } else {
      MonthEnd(date);
    }
  }

  /** From the last of any other month to the first of the next, December included. */
  lemma MonthEnd(date: Ymd)
    requires IsValid(date) && date.month != 2 && date.day == DaysInMonth(date.month)
    ensures IsValid(NextDay(date)) && YmdToJd(NextDay(date)) == YmdToJd(date) + 1
  {
    hide YmdToJd, IsLeapYear;
    var next := NextDay(date);
    YmdToJdForm(date);
    YmdToJdForm(next);
    assert MarchYear(next) == MarchYear(date);
    MarchLength(date.month, MarchMonth(date));
  }

  lemma MarchLength(month: int, m: int)
    requires 1 <= month <= 12 && month != 2 && m == if month <= 2 then month + 9 else month - 3
    ensures (153 * (m + 1) + 2) / 5 - (153 * m + 2) / 5 == DaysInMonth(month)
  {
  }

  /** From the last of February to 1 March a March year ends: 28 or 29 by the leap rule. */
  lemma FebruaryToMarch(date: Ymd)
    requires IsValid(date) && date.month == 2 && date.day == MonthLength(date.year, 2)
    ensures YmdToJd(Ymd(date.year, 3, 1)) == YmdToJd(date) + 1
  {
    hide YmdToJd, IsLeapYear;
    YmdToJdForm(date);
    YmdToJdForm(Ymd(date.year, 3, 1));
    var y := MarchYear(date);
    YearStep(y);
    MarchLeap(date, y);
  }

  /** The March year that ends this February has a leap day when the calendar year has. */
  lemma MarchLeap(date: Ymd, y: int)
    requires date.month == 2 && date.year != 0 && y == MarchYear(date)
    ensures IsLeapYear(date.year) <==> ((y + 1) % 4 == 0 && (y + 1) % 100 != 0) || (y + 1) % 400 == 0
    ensures (y + 1) % 400 == 0 ==> (y + 1) % 100 == 0
    ensures (y + 1) % 100 == 0 ==> (y + 1) % 4 == 0
  {
    LeapForm(date.year);
    hide IsLeapYear;
    var a := if date.year < 1 then date.year + 1 else date.year;
    assert y + 1 == a + 4800;
    SameResidues(a);
    Mod4(25 * ((y + 1) / 100), (y + 1) % 100);
    Mod100(4 * ((y + 1) / 400), (y + 1) % 400);
  }

  lemma Mod100(k: int, r: int)
    ensures (100 * k + r) % 100 == r % 100
  {
    var q, t := r / 100, r % 100;
    assert r == 100 * q + t;
    assert 100 * k + r == 100 * (k + q) + t;
  }

  lemma SameResidues(a: int)
    ensures (a + 4800) % 4 == a % 4
    ensures (a + 4800) % 100 == a % 100
    ensures (a + 4800) % 400 == a % 400
  {
    Shifted4(a);
    Shifted100(a);
    Shifted400(a);
  }

  lemma Shifted4(a: int)
    ensures (a + 4800) % 4 == a % 4
  {
  }

  lemma Shifted100(a: int)
    ensures (a + 4800) % 100 == a % 100
  {
  }

  lemma Shifted400(a: int)
    ensures (a + 4800) % 400 == a % 400
  {
  }

  lemma YearStep(y: int)
    ensures (y + 1) / 4 - y / 4 == (if (y + 1) % 4 == 0 then 1 else 0)
    ensures (y + 1) / 100 - y / 100 == (if (y + 1) % 100 == 0 then 1 else 0)
    ensures (y + 1) / 400 - y / 400 == (if (y + 1) % 400 == 0 then 1 else 0)
  {
    QuotientStep(y, 4);
    QuotientStep(y, 100);
    QuotientStep(y, 400);
  }

  lemma QuotientStep(y: int, b: int)
    requires b > 1
    ensures (y + 1) / b - y / b == (if (y + 1) % b == 0 then 1 else 0)
  {
    var q, r := y / b, y % b;
    assert y == b * q + r;
    if r == b - 1 {
      assert b * (q + 1) == y + 1;
      UniqueQuotient(y + 1, b, q + 1, (y + 1) / b);
    } else {
      UniqueQuotient(y + 1, b, q, (y + 1) / b);
    }
  }

  /** The count is anchored: 1 January 2000 was day 2451545, a Saturday; day 1 was 25 November -4714. */
  lemma Anchored()
    ensures YmdToJd(Ymd(2000, 1, 1)) == 2451545 && JdToYmd(2451545) == Ymd(2000, 1, 1)
    ensures DayOfWeek(2451545) == 6
    ensures JdToYmd(1) == Ymd(-4714, 11, 25)
  {
    hide YmdToJd, JdToYmd;
    YmdToJdForm(Ymd(2000, 1, 1));
    DecodeEncode(Ymd(2000, 1, 1));
    YmdToJdForm(Ymd(-4714, 11, 25));
    DecodeEncode(Ymd(-4714, 11, 25));
  }

  /** Decoding jd + 1 gives the calendar successor of decoding jd. */
  lemma DecodeSuccessor(jd: int)
    ensures JdToYmd(jd + 1) == NextDay(JdToYmd(jd))
  {
    hide *;
    DecodeIsValid(jd);
    EncodeDecode(jd);
    SuccessorEncodes(JdToYmd(jd));
    DecodeEncode(NextDay(JdToYmd(jd)));
  }

  /** The day of the year counts the days of the months gone by, for every day number. */
  lemma DayOfYearMeaning(jd: int)
    ensures var date := JdToYmd(jd);
            && 1 <= date.month <= 12
            && DayOfYear(jd) == DaysBefore(date.year, date.month) + date.day
            && 1 <= DayOfYear(jd) <= DaysInYear(date.year)
            && (DayOfYear(jd) == 1 <==> date.month == 1 && date.day == 1)
            && (DayOfYear(jd) == DaysInYear(date.year) <==> date.month == 12 && date.day == 31)
  {
    hide YmdToJd, JdToYmd, FloorDiv, TruncDiv;
    DecodeIsValid(jd);
    EncodeDecode(jd);
    var date := JdToYmd(jd);
    FirstOfMonth(date.year, date.month);
    YmdToJdForm(date);
    YmdToJdForm(Ymd(date.year, date.month, 1));
    DaysBeforeTotal(date.year, date.month);
  }

  lemma {:induction false} FirstOfMonth(year: int, month: int)
    requires year != 0 && 1 <= month <= 12
    ensures YmdToJd(Ymd(year, month, 1)) - YmdToJd(Ymd(year, 1, 1)) == DaysBefore(year, month)
    decreases month
  {
    hide YmdToJd, JdToYmd, FloorDiv, TruncDiv;
    if month > 1 {
      FirstOfMonth(year, month - 1);
      var last := Ymd(year, month - 1, MonthLength(year, month - 1));
      SuccessorEncodes(last);
      YmdToJdForm(last);
      YmdToJdForm(Ymd(year, month - 1, 1));
    }
  }

  lemma {:induction false} DaysBeforeTotal(year: int, month: int)
    requires 1 <= month <= 12
    ensures (if month == 1 then DaysBefore(year, month) == 0 else DaysBefore(year, month) >= 31)
    ensures DaysBefore(year, month) + MonthLength(year, month)
            <= DaysInYear(year) - (if month == 12 then 0 else 30)
    ensures month == 12 ==> DaysBefore(year, month) + 31 == DaysInYear(year)
    decreases 12 - month
  {
    var f := if IsLeapYear(year) then 29 else 28;
    assert DaysBefore(year, 1) == 0;
    assert DaysBefore(year, 2) == 31;
    assert DaysBefore(year, 3) == 31 + f;
    assert DaysBefore(year, 4) == 62 + f;
    assert DaysBefore(year, 5) == 92 + f;
    assert DaysBefore(year, 6) == 123 + f;
    assert DaysBefore(year, 7) == 153 + f;
    assert DaysBefore(year, 8) == 184 + f;
    assert DaysBefore(year, 9) == 215 + f;
    assert DaysBefore(year, 10) == 245 + f;
    assert DaysBefore(year, 11) == 276 + f;
    assert DaysBefore(year, 12) == 306 + f;
  }

  /** Day numbers order dates as the calendar does, so comparing two dates by day number is comparing them. */
  lemma DatesAreOrdered(x: Ymd, y: Ymd)
    requires IsValid(x) && IsValid(y)
    ensures NotAfter(x, y) <==> YmdToJd(x) <= YmdToJd(y)
    ensures x == y <==> YmdToJd(x) == YmdToJd(y)
  {
    hide YmdToJd, IsValid;
    if NotAfter(x, y) && x != y {
      EarlierIsLess(x, y);
    }
    if NotAfter(y, x) && x != y {
      EarlierIsLess(y, x);
    }
  }

  lemma EarlierIsLess(x: Ymd, y: Ymd)
    requires IsValid(x) && IsValid(y) && NotAfter(x, y) && x != y
    ensures YmdToJd(x) < YmdToJd(y)
  {
    hide YmdToJd, IsLeapYear;
    DayInYear(x);
    DayInYear(y);
    if x.year < y.year {
      YearsApart(x.year, y.year);
    } else if x.month < y.month {
      MonthsApart(x.year, x.month, y.month);
    }
  }

  /** A day lies within its month, and its month within its year. */
  lemma DayInYear(date: Ymd)
    requires IsValid(date)
    ensures 1 <= date.month <= 12 && 1 <= date.day <= MonthLength(date.year, date.month)
    ensures var first := YmdToJd(Ymd(date.year, 1, 1));
            && YmdToJd(date) == first + DaysBefore(date.year, date.month) + date.day - 1
            && first <= YmdToJd(date) < first + DaysInYear(date.year)
  {
    hide YmdToJd, IsLeapYear;
    FirstOfMonth(date.year, date.month);
    YmdToJdForm(date);
    YmdToJdForm(Ymd(date.year, date.month, 1));
    DaysBeforeTotal(date.year, date.month);
  }

  lemma {:induction false} MonthsApart(year: int, a: int, b: int)
    requires 1 <= a < b <= 12
    ensures DaysBefore(year, a) + MonthLength(year, a) <= DaysBefore(year, b)
    decreases b
  {
    hide IsLeapYear;
    if b > a + 1 {
      MonthsApart(year, a, b - 1);
    }
  }

  lemma {:induction false} YearsApart(a: int, b: int)
    requires a < b && a != 0 && b != 0
    ensures YmdToJd(Ymd(a, 1, 1)) + DaysInYear(a) <= YmdToJd(Ymd(b, 1, 1))
    decreases b - a
  {
    hide YmdToJd, IsLeapYear;
    var next := NextYear(a);
    var last := Ymd(a, 12, 31);
    assert NextDay(last) == Ymd(next, 1, 1);
    SuccessorEncodes(last);
    FirstOfMonth(a, 12);
    DaysBeforeTotal(a, 12);
    YmdToJdForm(last);
    YmdToJdForm(Ymd(a, 12, 1));
    if next < b {
      YearsApart(next, b);
    }
  }

  /** Weekdays run 1..7 and advance by one each day, through zero and for negative day numbers. */
  lemma DayOfWeekCycles(jd: int)
    ensures 1 <= DayOfWeek(jd) <= 7
    ensures DayOfWeek(jd + 1) == if DayOfWeek(jd) == 7 then 1 else DayOfWeek(jd) + 1
    ensures DayOfWeek(jd) == jd % 7 + 1
  {
    TruncMod7(jd);
    TruncMod7(jd + 1);
    TruncMod7(jd + 2);
    hide TruncMod;
  }

  /** The C++ remainder by 7, in terms of the Euclidean one. */
  lemma TruncMod7(a: int)
    ensures TruncMod(a, 7) == if a >= 0 || a % 7 == 0 then a % 7 else a % 7 - 7
  {
    if a < 0 {
      var q, r := -a / 7, -a % 7;
      assert -a == 7 * q + r;
      assert a == 7 * (-q) - r;
    }
  }

  // ---------------------------------------------------------------------------------------------
  // The same code in 32-bit arithmetic

  /** The value of a checked computation, or Overflow once an intermediate leaves the int32 range. */
  datatype Checked<+T> = Value(value: T) | Overflow {
    predicate IsFailure() { Overflow? }
    function PropagateFailure<U>(): Checked<U>
      requires Overflow?
    { Overflow }
    function Extract(): T
      requires Value?
    { value }
  }

  function Int32(x: int): Checked<int> {
    if INT32_MIN <= x <= INT32_MAX then Value(x) else Overflow
  }

  function FloorDiv32(a: int, b: int): Checked<int>
    requires b > 0
  {
    var shift :- Int32(b - 1);
    var shifted :- Int32(a - (if a < 0 then shift else 0));
    Int32(TruncDiv(shifted, b))
  }

  /** Century and day of the century, of a day counted from 1 March 4801 BCE. */
  function Century32(a: int): Checked<(int, int)> {
    var a4 :- Int32(4 * a);
    var a43 :- Int32(a4 + 3);
    var b :- FloorDiv32(a43, 146097);
    var days :- Int32(146097 * b);
    var before :- FloorDiv32(days, 4);
    var c :- Int32(a - before);
    Value((b, c))
  }

  /** Year of the century and day of the year. */
  function Year32(c: int): Checked<(int, int)> {
    var c4 :- Int32(4 * c);
    var c43 :- Int32(c4 + 3);
    var d :- FloorDiv32(c43, 1461);
    var days :- Int32(1461 * d);
    var before :- FloorDiv32(days, 4);
    var e :- Int32(c - before);
    Value((d, e))
  }

  /** Month counted from March, and day of the month. */
  function Month32(e: int): Checked<(int, int)> {
    var e5 :- Int32(5 * e);
    var e52 :- Int32(e5 + 2);
    var m :- FloorDiv32(e52, 153);
    var m153 :- Int32(153 * m);
    var m1532 :- Int32(m153 + 2);
    var first :- FloorDiv32(m1532, 5);
    var day0 :- Int32(e - first);
    var day :- Int32(day0 + 1);
    Value((m, day))
  }

  /** The civil year and month, from the century, its year, and the month counted from March. */
  function Civil32(b: int, d: int, m: int): Checked<(int, int)> {
    var m3 :- Int32(m + 3);
    var wrap :- FloorDiv32(m, 10);
    var wrap12 :- Int32(12 * wrap);
    var month :- Int32(m3 - wrap12);
    var b100 :- Int32(100 * b);
    var y0 :- Int32(b100 + d);
    var y1 :- Int32(y0 - 4800);
    var y2 :- Int32(y1 + wrap);
    var year :- if y2 <= 0 then Int32(y2 - 1) else Value(y2);
    Value((year, month))
  }

  function JdToYmd32(jd: int): Checked<Ymd> {
    var a :- Int32(jd + 32044);
    var (b, c) :- Century32(a);
    var (d, e) :- Year32(c);
    var (m, day) :- Month32(e);
    var (year, month) :- Civil32(b, d, m);
    Value(Ymd(year, month, day))
  }

  /** The March-based year and month of a date. */
  function March32(year: int, month: int): Checked<(int, int)> {
    var y0 :- if year < 0 then Int32(year + 1) else Value(year);
    var diff :- Int32(14 - month);
    var a :- FloorDiv32(diff, 12);
    var y1 :- Int32(y0 + 4800);
    var y :- Int32(y1 - a);
    var a12 :- Int32(12 * a);
    var m0 :- Int32(month + a12);
    var m :- Int32(m0 - 3);
    Value((y, m))
  }

  /** Days before 1 March of year y, added to s term by term. */
  function AddYears32(s: int, y: int): Checked<int> {
    var y365 :- Int32(365 * y);
    var s2 :- Int32(s + y365);
    var q4 :- FloorDiv32(y, 4);
    var s3 :- Int32(s2 + q4);
    var q100 :- FloorDiv32(y, 100);
    var s4 :- Int32(s3 - q100);
    var q400 :- FloorDiv32(y, 400);
    Int32(s4 + q400)
  }

  function YmdToJd32(date: Ymd): Checked<int> {
    var (y, m) :- March32(date.year, date.month);
    var m153 :- Int32(153 * m);
    var m1532 :- Int32(m153 + 2);
    var months :- FloorDiv32(m1532, 5);
    var s1 :- Int32(date.day + months);
    var s5 :- AddYears32(s1, y);
    Int32(s5 - 32045)
  }

  lemma Century32Fits(a: int, b: int)
    requires INT32_MIN + 32044 <= a <= INT32_MAX
    requires b == (4 * a + 3) / 146097
    ensures Century32(a) == if JD_LO + 32044 <= a <= JD_HI + 32044
                            then Value((b, a - 146097 * b / 4)) else Overflow
  {
    hide FloorDiv32;
    if a < JD_LO + 32044 {
      CheckedFloorDivSmall(4 * a + 3);
    } else if a <= JD_HI + 32044 {
      CheckedFloorDiv(4 * a + 3, 146097);
      CheckedFloorDiv(146097 * b, 4);
    }
  }

  lemma Year32Fits(c: int, d: int)
    requires 0 <= c <= 36524
    requires d == (4 * c + 3) / 1461
    ensures Year32(c) == Value((d, c - 1461 * d / 4))
  {
    hide FloorDiv32;
    CheckedFloorDiv(4 * c + 3, 1461);
    CheckedFloorDiv(1461 * d, 4);
  }

  lemma Month32Fits(e: int, m: int)
    requires 0 <= e <= 365
    requires m == (5 * e + 2) / 153
    ensures Month32(e) == Value((m, e - (153 * m + 2) / 5 + 1))
  {
    hide FloorDiv32;
    CheckedFloorDiv(5 * e + 2, 153);
    CheckedFloorDiv(153 * m + 2, 5);
  }

  lemma Civil32Fits(b: int, d: int, m: int)
    requires -15000 <= b <= 15000 && 0 <= d <= 99 && 0 <= m <= 11
    ensures var year := 100 * b + d - 4800 + m / 10;
            Civil32(b, d, m) == Value((if year <= 0 then year - 1 else year, m + 3 - 12 * (m / 10)))
  {
    hide FloorDiv32;
    CheckedFloorDiv(m, 10);
  }

  /** The C++ decoder computes the calendar date exactly on JD_LO..JD_HI, and overflows elsewhere. */
  lemma DecodeFitsExactly(jd: int)
    requires INT32_MIN <= jd <= INT32_MAX
    ensures JdToYmd32(jd) == if JD_LO <= jd <= JD_HI then Value(JdToYmd(jd)) else Overflow
  {
    hide JdToYmd, FloorDiv, TruncDiv, FloorDiv32, Century32, Year32, Month32, Civil32;
    var b, d, e, m := JdToYmdForm(jd);
    var c := jd + 32044 - 146097 * b / 4;
    if jd + 32044 <= INT32_MAX {
      Century32Fits(jd + 32044, b);
    }
    if JD_LO <= jd <= JD_HI {
      DecodedRanges(jd, b, c, d, e);
      Year32Fits(c, d);
      MarchMonths(e, m);
      Month32Fits(e, m);
      Civil32Fits(b, d, m);
    }
  }

  lemma CheckedFloorDiv(a: int, b: int)
    requires 0 < b <= 146097
    requires INT32_MIN + b - 1 <= a <= INT32_MAX
    ensures FloorDiv32(a, b) == Value(a / b)
  {
    FloorDivPositive(a, b);
    QuotientBound(a, b);
  }

  lemma QuotientBound(a: int, b: int)
    requires b > 0
    ensures a >= 0 ==> 0 <= a / b <= a
    ensures a < 0 ==> a <= a / b < 0
  {
    var q := a / b;
    assert b * q <= a < b * q + b;
    MulBound(b, q);
    MulBound(b, q + 1);
    Distribute(b, q);
    hide *;
    if a < 0 {
      ProductSign(b - 1, -(q + 1));
    } else {
      ProductSign(b - 1, q);
    }
  }

  lemma ProductSign(x: int, y: int)
    requires x >= 0
    ensures y >= 0 ==> x * y >= 0
  {
  }

  lemma Distribute(b: int, q: int)
    ensures b * (q + 1) == b * q + b
    ensures (b - 1) * q == b * q - q
    ensures (b - 1) * -(q + 1) == -(b * q) - b + q + 1
  {
  }

  lemma CheckedFloorDivSmall(a: int)
    requires a < INT32_MIN + 146096
    ensures FloorDiv32(a, 146097) == Overflow
  {
  }

  lemma March32Fits(date: Ymd)
    requires 1 <= date.month <= 12 && INT32_MIN <= date.year <= INT32_MAX
    ensures March32(date.year, date.month)
            == if (if date.year < 0 then date.year + 1 else date.year) + 4800 <= INT32_MAX
               then Value((MarchYear(date), MarchMonth(date))) else Overflow
  {
    hide FloorDiv32;
    CheckedFloorDiv(14 - date.month, 12);
  }

  /** The largest partial sum is the one after the quarter-years, in either direction. */
  lemma AddYears32Fits(s: int, y: int)
    requires 1 <= s <= 400 && INT32_MIN <= y <= INT32_MAX
    ensures (AddYears32(s, y).Value? && Int32(AddYears32(s, y).value - 32045).Value?)
            <==> INT32_MIN <= s + 365 * y + y / 4 <= INT32_MAX
    ensures AddYears32(s, y).Value? ==> AddYears32(s, y).value == s + 365 * y + y / 4 - y / 100 + y / 400
  {
    hide FloorDiv32;
    if INT32_MIN <= 365 * y <= INT32_MAX {
      CheckedFloorDiv(y, 4);
      CheckedFloorDiv(y, 100);
      CheckedFloorDiv(y, 400);
    }
  }

  /** The C++ encoder is right on the valid dates from YMD_LO to YMD_HI, and overflows on all others. */
  lemma EncodeFitsExactly(date: Ymd)
    requires IsValid(date)
    requires INT32_MIN <= date.year <= INT32_MAX
    ensures YmdToJd32(date)
            == if NotAfter(YMD_LO, date) && NotAfter(date, YMD_HI) then Value(YmdToJd(date)) else Overflow
  {
    hide YmdToJd, FloorDiv, TruncDiv, FloorDiv32, IsLeapYear, March32, AddYears32, NotAfter;
    YmdToJdForm(date);
    March32Fits(date);
    var y, m := MarchYear(date), MarchMonth(date);
    CheckedFloorDiv(153 * m + 2, 5);
    var s := date.day + (153 * m + 2) / 5;
    if INT32_MIN <= y <= INT32_MAX {
      AddYears32Fits(s, y);
    }
    JulianOrder(date, s);
  }

  /** Where the largest partial sum stays in range, as dates. */
  lemma JulianOrder(date: Ymd, s: int)
    requires IsValid(date)
    requires s == date.day + (153 * MarchMonth(date) + 2) / 5
    ensures var y := MarchYear(date);
            INT32_MIN <= s + 365 * y + y / 4 <= INT32_MAX
            <==> NotAfter(YMD_LO, date) && NotAfter(date, YMD_HI)
  {
    hide IsLeapYear;
  }

  // ---------------------------------------------------------------------------------------------
  // Date objects

  /** Every day number the C++ code decodes is encoded back by the C++ code, and conversely. */
  lemma RoundTrip32(jd: int)
    requires JD_LO <= jd <= JD_HI
    ensures JdToYmd32(jd).Value? && IsValid(JdToYmd32(jd).value)
    ensures YmdToJd32(JdToYmd32(jd).value) == Value(jd)
  {
    hide YmdToJd, JdToYmd, YmdToJd32, JdToYmd32, IsValid, IsLeapYear;
    DecodeFitsExactly(jd);
    DecodeIsValid(jd);
    EncodeDecode(jd);
    var b, d, e, m := JdToYmdForm(jd);
    DecodedRanges(jd, b, jd + 32044 - 146097 * b / 4, d, e);
    MarchMonths(e, m);
    EncodeFitsExactly(JdToYmd(jd));
  }

  /** The first and last dates the decoder reaches. */
  const GET_LO: Ymd := Ymd(-1474604, 7, 13)
  const GET_HI: Ymd := Ymd(1465102, 10, 18)

  lemma GetRange()
    ensures IsValid(GET_LO) && YmdToJd(GET_LO) == JD_LO
    ensures IsValid(GET_HI) && YmdToJd(GET_HI) == JD_HI
  {
  }

  /** A date survives Set and Get in C++ exactly when it lies between those two. */
  lemma DateRoundTrip32(date: Ymd)
    requires IsValid(date) && INT32_MIN <= date.year <= INT32_MAX
    ensures (YmdToJd32(date).Value? && INT32_MIN <= YmdToJd32(date).value <= INT32_MAX
             && JdToYmd32(YmdToJd32(date).value) == Value(date))
            <==> NotAfter(GET_LO, date) && NotAfter(date, GET_HI)
  {
    hide YmdToJd, JdToYmd, YmdToJd32, JdToYmd32, IsValid, NotAfter;
    EncodeFitsExactly(date);
    var jd := YmdToJd(date);
    DecodeEncode(date);
    GetRange();
    DatesAreOrdered(GET_LO, date);
    DatesAreOrdered(date, GET_HI);
    if INT32_MIN <= jd <= INT32_MAX {
      DecodeFitsExactly(jd);
    }
    if JD_LO <= jd <= JD_HI {
      RoundTrip32(jd);
    }
  }

  /** Some dates are stored and then cannot be read: their year is beyond the decoder's range. */
  lemma StoredButUnreadable()
    ensures IsValid(Ymd(1500000, 1, 1)) && YmdToJd32(Ymd(1500000, 1, 1)).Value?
    ensures JdToYmd32(YmdToJd32(Ymd(1500000, 1, 1)).value) == Overflow
  {
  }

  /** class Date: the day number it stores, and Set, which keeps only valid dates. */
  class Date {
    var jd: int

    constructor ()
      ensures jd == DATE_JD_INVALID
    {
      jd := DATE_JD_INVALID;
    }

    /** A later Get returns the date that was set, or the date was refused. */
    method Set(date: Ymd)
      requires IsValid(date) ==> YmdToJd32(date).Value?
      modifies this
      ensures IsValid(date) ==> jd == YmdToJd(date) && JdToYmd(jd) == date
      ensures !IsValid(date) ==> jd == DATE_JD_INVALID
    {
      if IsValid(date) {
        jd := YmdToJd(date);
        DecodeEncode(date);
      } else {
        jd := DATE_JD_INVALID;
      }
    }
  }
}
