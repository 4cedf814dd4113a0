/** Futures and options symbols: the three formats tried in order, each with a lazy base, against
    printing a contract and parsing it back. */
module FoSymbol {
  import opened Sequences
  import opened TradeTypes
  import opened Calendar

  /** What parsing yields.  A weekly symbol with an impossible day raises a bare ValueError. */
  datatype Parsed = NoMatch | BadDate | Contract(base: string, kind: InstrumentType, expiry: Date, strike: Option<nat>)

  datatype Format = Future | Monthly | Weekly

  // ---------- characters ----------

  predicate IsDigit(c: char) {
    '0' <= c <= '9'
  }

  predicate IsUpper(c: char) {
    'A' <= c <= 'Z'
  }

  predicate IsAlnum(c: char) {
    IsDigit(c) || IsUpper(c)
  }

  predicate AllDigits(s: string) {
    forall i :: 0 <= i < |s| ==> IsDigit(s[i])
  }

  predicate AllAlnum(s: string) {
    forall i :: 0 <= i < |s| ==> IsAlnum(s[i])
  }

  function Upper(s: string): (u: string)
    ensures |u| == |s|
    ensures AllAlnum(s) ==> u == s
  {
    seq(|s|, i requires 0 <= i < |s| => if 'a' <= s[i] <= 'z' then ((s[i] as int) - 32) as char else s[i])
  }

  // ---------- numbers ----------

  function DigitChar(d: nat): (c: char)
    requires d < 10
    ensures IsDigit(c) && DigitValue(c) == d
  {
    (('0' as int) + d) as char
  }

  function DigitValue(c: char): int {
    (c as int) - ('0' as int)
  }

  function ParseNat(s: string): nat
    requires AllDigits(s)
  {
    if s == [] then 0 else ParseNat(Front(s)) * 10 + DigitValue(Last(s))
  }

  function PrintNat(n: nat): (s: string)
    ensures s != [] && AllDigits(s)
  {
    if n < 10 then [DigitChar(n)] else PrintNat(n / 10) + [DigitChar(n % 10)]
  }

  lemma {:induction false} PrintParseNat(n: nat)
    ensures ParseNat(PrintNat(n)) == n
  {
    var s := PrintNat(n);
    if n < 10 {
      assert s[..0] == [];
    } else {
      PrintParseNat(n / 10);
      assert Front(s) == PrintNat(n / 10);
    }
  }

  function Two(n: nat): (s: string)
    requires n < 100
    ensures |s| == 2 && AllDigits(s) && ParseNat(s) == n
  {
    var s := [DigitChar(n / 10), DigitChar(n % 10)];
    assert s[..1] == [DigitChar(n / 10)] && s[..1][..0] == [];
    assert ParseNat(s[..1]) == n / 10;
    s
  }

  // ---------- months and types ----------

  function MonthAbbr(m: nat): (s: string)
    requires 1 <= m <= 12
    ensures |s| == 3 && IsUpper(s[0]) && IsUpper(s[1]) && IsUpper(s[2])
  {
    ["JAN", "FEB", "MAR", "APR", "MAY", "JUN", "JUL", "AUG", "SEP", "OCT", "NOV", "DEC"][m - 1]
  }

  /** The month of an abbreviation, 0 when it is none. */
  function MonthNumber(s: string): (m: nat)
    ensures m <= 12
  {
    if s == "JAN" then 1 else if s == "FEB" then 2 else if s == "MAR" then 3 else if s == "APR" then 4
    else if s == "MAY" then 5 else if s == "JUN" then 6 else if s == "JUL" then 7 else if s == "AUG" then 8
    else if s == "SEP" then 9 else if s == "OCT" then 10 else if s == "NOV" then 11 else if s == "DEC" then 12 else 0
  }

  lemma MonthRoundTrip(m: nat)
    requires 1 <= m <= 12
    ensures MonthNumber(MonthAbbr(m)) == m
  {
  }

  lemma MonthIsLetters(s: string)
    requires MonthNumber(s) > 0
    ensures |s| == 3 && IsUpper(s[0]) && IsUpper(s[1]) && IsUpper(s[2])
  {
  }

  /** Single-character month codes of weekly options: 1 to 9, then O, N, D. */
  function MonthCode(m: nat): (c: char)
    requires 1 <= m <= 12
    ensures m < 10 ==> IsDigit(c) && c != '0'
    ensures m >= 10 ==> IsUpper(c)
  {
    if m < 10 then DigitChar(m) else if m == 10 then 'O' else if m == 11 then 'N' else 'D'
  }

  function CodeMonth(c: char): (m: nat)
    ensures m <= 12
  {
    if '1' <= c <= '9' then DigitValue(c)
    else if c == 'O' then 10 else if c == 'N' then 11 else if c == 'D' then 12 else 0
  }

  lemma CodeRoundTrip(m: nat)
    requires 1 <= m <= 12
    ensures CodeMonth(MonthCode(m)) == m
  {
  }

  function TypeCode(kind: InstrumentType): string
    requires kind == CE || kind == PE
  {
    if kind == CE then "CE" else "PE"
  }

  function TypeOf(s: string): InstrumentType {
    if s == "CE" then CE else PE
  }

  // ---------- the three patterns ----------

  /** An optional-digits tail closed by CE or PE, from position i. */
  predicate StrikeAndType(t: string, i: nat) {
    i + 3 <= |t| && AllDigits(t[i..|t| - 2]) && (t[|t| - 2..] == "CE" || t[|t| - 2..] == "PE")
  }

  /** The part of each pattern after its base. */
  predicate TailMatches(format: Format, t: string) {
    |t| >= 2 && AllDigits(t[..2]) &&
    match format
    case Future => |t| == 8 && MonthNumber(t[2..5]) > 0 && t[5..] == "FUT"
    case Monthly => |t| >= 5 && MonthNumber(t[2..5]) > 0 && StrikeAndType(t, 5)
    case Weekly => |t| >= 5 && CodeMonth(t[2]) > 0 && AllDigits(t[3..5]) && StrikeAndType(t, 5)
  }

  predicate SplitsAt(format: Format, s: string, b: nat) {
    0 < b <= |s| && AllAlnum(s[..b]) && TailMatches(format, s[b..])
  }

  /** A lazy base takes the first split that matches. */
  function LazySplit(format: Format, s: string, from: nat): (b: Option<nat>)
    ensures b.Some? ==> from <= b.value && SplitsAt(format, s, b.value)
    decreases |s| + 1 - from
  {
    if from > |s| then None
    else if SplitsAt(format, s, from) then Some(from)
    else LazySplit(format, s, from + 1)
  }

  function ParseFoSymbol(symbol: string): Parsed {
    var s := Upper(symbol);
    match LazySplit(Future, s, 1)
    case Some(b) => Contract(s[..b], FUT, LastThursday(2000 + ParseNat(s[b..][..2]), MonthNumber(s[b..][2..5])), None)
    case None =>
      match LazySplit(Monthly, s, 1)
      case Some(b) =>
        var t := s[b..];
        Contract(s[..b], TypeOf(t[|t| - 2..]), LastThursday(2000 + ParseNat(t[..2]), MonthNumber(t[2..5])),
                 Some(ParseNat(t[5..|t| - 2])))
      case None =>
        match LazySplit(Weekly, s, 1)
        case Some(b) =>
          var t := s[b..];
          var date := Date(2000 + ParseNat(t[..2]), CodeMonth(t[2]), ParseNat(t[3..5]));
          if Valid(date) then Contract(s[..b], TypeOf(t[|t| - 2..]), date, Some(ParseNat(t[5..|t| - 2]))) else BadDate
        case None => NoMatch
  }

  // ---------- printing ----------

  function PrintFuture(base: string, yy: nat, month: nat): string
    requires yy < 100 && 1 <= month <= 12
  {
    base + (Two(yy) + MonthAbbr(month) + "FUT")
  }

  function PrintMonthly(base: string, yy: nat, month: nat, strike: nat, kind: InstrumentType): string
    requires yy < 100 && 1 <= month <= 12 && (kind == CE || kind == PE)
  {
    base + (Two(yy) + MonthAbbr(month) + PrintNat(strike) + TypeCode(kind))
  }

  function PrintWeekly(base: string, yy: nat, month: nat, day: nat, strike: nat, kind: InstrumentType): string
    requires yy < 100 && 1 <= month <= 12 && day < 100 && (kind == CE || kind == PE)
  {
    base + (Two(yy) + [MonthCode(month)] + Two(day) + PrintNat(strike) + TypeCode(kind))
  }

  // ---------- lazy splitting ----------

  lemma {:induction false} LazySplitIs(format: Format, s: string, from: nat, b: nat)
    requires from <= b && SplitsAt(format, s, b) && forall c :: from <= c < b ==> !SplitsAt(format, s, c)
    ensures LazySplit(format, s, from) == Some(b)
    decreases b - from
  {
    if from < b {
      LazySplitIs(format, s, from + 1, b);
    }
  }

  lemma {:induction false} LazySplitNone(format: Format, s: string, from: nat)
    requires forall c :: from <= c <= |s| ==> !SplitsAt(format, s, c)
    ensures LazySplit(format, s, from).None?
    decreases |s| + 1 - from
  {
    if from <= |s| {
      LazySplitNone(format, s, from + 1);
    }
  }

  lemma {:induction false} LazySplitEarly(format: Format, s: string, from: nat, b: nat)
    requires from <= b && SplitsAt(format, s, b)
    ensures LazySplit(format, s, from).Some? && LazySplit(format, s, from).value <= b
    decreases b - from
  {
    if from < b && !SplitsAt(format, s, from) {
      LazySplitEarly(format, s, from + 1, b);
    }
  }

  // ---------- shapes of printed symbols ----------

  lemma AlnumUpper(base: string, tail: string)
    requires AllAlnum(base) && AllAlnum(tail)
    ensures Upper(base + tail) == base + tail && (base + tail)[..|base|] == base && (base + tail)[|base|..] == tail
  {
  }

  lemma FutureTail(yy: nat, month: nat)
    requires yy < 100 && 1 <= month <= 12
    ensures var t := Two(yy) + MonthAbbr(month) + "FUT";
            |t| == 8 && t[..2] == Two(yy) && t[2..5] == MonthAbbr(month) && t[5..] == "FUT" && AllAlnum(t)
            && TailMatches(Future, t)
  {
    MonthRoundTrip(month);
  }

  lemma FutureSplitsOnce(s: string, b: nat)
    requires SplitsAt(Future, s, b)
    ensures b == |s| - 8
  {
  }

  /** Printing a future and parsing it back recovers the base, for any letters-and-digits base, with
      the last Thursday of the month as expiry. */
  lemma FutureRoundTrip(base: string, yy: nat, month: nat)
    requires base != [] && AllAlnum(base) && yy < 100 && 1 <= month <= 12
    ensures ParseFoSymbol(PrintFuture(base, yy, month)) == Contract(base, FUT, LastThursday(2000 + yy, month), None)
  {
    hide LastThursday;
    var t := Two(yy) + MonthAbbr(month) + "FUT";
    FutureTail(yy, month);
    AlnumUpper(base, t);
    MonthRoundTrip(month);
    forall c | 1 <= c < |base| ensures !SplitsAt(Future, base + t, c) {
      if SplitsAt(Future, base + t, c) {
        FutureSplitsOnce(base + t, c);
        assert false;
      }
    }
    LazySplitIs(Future, base + t, 1, |base|);
  }

  // ---------- options ----------

  predicate DigitsFrom(s: string, from: nat, to: int) {
    forall p :: from <= p < to && p < |s| ==> IsDigit(s[p])
  }

  predicate TypeAtEnd(s: string) {
    |s| >= 2 && (s[|s| - 2..] == "CE" || s[|s| - 2..] == "PE")
  }

  /** What lies between the year and the strike. */
  predicate MiddleAt(format: Format, s: string, c: nat) {
    c + 5 <= |s| &&
    match format
    case Future => false
    case Monthly => MonthNumber(s[c + 2..c + 5]) > 0
    case Weekly => CodeMonth(s[c + 2]) > 0 && IsDigit(s[c + 3]) && IsDigit(s[c + 4])
  }

  /** An option split, read position by position. */
  predicate OptionAt(format: Format, s: string, c: nat) {
    && 0 < c && c + 8 <= |s| && AllAlnum(s[..c]) && IsDigit(s[c]) && IsDigit(s[c + 1])
    && MiddleAt(format, s, c) && DigitsFrom(s, c + 5, |s| - 2) && TypeAtEnd(s)
  }

  lemma SplitIsOptionAt(format: Format, s: string, c: nat)
    requires format != Future
    ensures SplitsAt(format, s, c) <==> OptionAt(format, s, c)
  {
    if SplitsAt(format, s, c) {
      SplitGivesOption(format, s, c);
    }
    if OptionAt(format, s, c) {
      OptionGivesSplit(format, s, c);
    }
  }

  lemma SplitGivesOption(format: Format, s: string, c: nat)
    requires format != Future && SplitsAt(format, s, c)
    ensures OptionAt(format, s, c)
  {
    hide MonthNumber, CodeMonth;
    var t := s[c..];
    assert t[..2][0] == s[c] && t[..2][1] == s[c + 1] && t[|t| - 2..] == s[|s| - 2..];
    forall p | c + 5 <= p < |s| - 2 ensures IsDigit(s[p]) {
      assert t[5..|t| - 2][p - c - 5] == s[p];
    }
    if format == Monthly {
      assert t[2..5] == s[c + 2..c + 5];
    } else {
      assert t[3..5][0] == s[c + 3] && t[3..5][1] == s[c + 4];
    }
  }

  lemma OptionGivesSplit(format: Format, s: string, c: nat)
    requires format != Future && OptionAt(format, s, c)
    ensures SplitsAt(format, s, c)
  {
    hide MonthNumber, CodeMonth;
    var t := s[c..];
    assert t[..2] == [s[c], s[c + 1]] && t[|t| - 2..] == s[|s| - 2..];
    assert t[2..5] == s[c + 2..c + 5] && t[3..5] == [s[c + 3], s[c + 4]];
    var k := t[5..|t| - 2];
    forall q | 0 <= q < |k| ensures IsDigit(k[q]) {
      assert k[q] == s[c + 5 + q];
    }
  }

  lemma OptionIsNoFuture(s: string, b: nat)
    requires TypeAtEnd(s)
    ensures !SplitsAt(Future, s, b)
  {
    if 0 < b <= |s| && |s[b..]| == 8 {
      assert s[b..][5..][2] == Last(s) == s[|s| - 2..][1];
    }
  }

  lemma NoFutureSplit(s: string)
    requires TypeAtEnd(s)
    ensures LazySplit(Future, s, 1).None?
  {
    forall c: nat ensures !SplitsAt(Future, s, c) {
      OptionIsNoFuture(s, c);
    }
    LazySplitNone(Future, s, 1);
  }

  /** The tail of a printed option: year, three middle characters, strike, type. */
  function Tail(yy: nat, middle: string, strike: nat, kind: InstrumentType): (t: string)
    requires yy < 100 && |middle| == 3 && (kind == CE || kind == PE)
  {
    Two(yy) + middle + PrintNat(strike) + TypeCode(kind)
  }

  /** The parts of an option symbol, by slices of its tail. */
  ghost predicate Parts(s: string, base: string, yy: nat, middle: string, strike: nat, kind: InstrumentType)
    requires yy < 100 && |middle| == 3 && (kind == CE || kind == PE)
  {
    && |base| + 8 <= |s| && s[..|base|] == base && Upper(s) == s
    && var t := s[|base|..];
    && t[..2] == Two(yy) && t[2..5] == middle && t[5..|t| - 2] == PrintNat(strike) && t[|t| - 2..] == TypeCode(kind)
  }

  lemma TailSlices(year: string, middle: string, digits: string, code: string)
    requires |year| == |code| == 2 && |middle| == 3
    ensures var t := year + middle + digits + code;
            && |t| == 7 + |digits| && t[..2] == year && t[2..5] == middle && t[5..|t| - 2] == digits
            && t[|t| - 2..] == code
  {
  }

  lemma PrintedParts(base: string, yy: nat, middle: string, strike: nat, kind: InstrumentType)
    requires yy < 100 && |middle| == 3 && (kind == CE || kind == PE) && AllAlnum(base) && AllAlnum(middle)
    ensures Parts(base + Tail(yy, middle, strike, kind), base, yy, middle, strike, kind)
  {
    var k, t := PrintNat(strike), Tail(yy, middle, strike, kind);
    TailSlices(Two(yy), middle, k, TypeCode(kind));
    assert AllAlnum(TypeCode(kind));
    AlnumUpper(base, t);
  }

  /** The same parts, position by position. */
  lemma PartsPositions(s: string, base: string, yy: nat, middle: string, strike: nat, kind: InstrumentType)
    requires yy < 100 && |middle| == 3 && (kind == CE || kind == PE)
    requires Parts(s, base, yy, middle, strike, kind)
    ensures |base| + 8 <= |s| && s[..|base|] == base && TypeAtEnd(s) && DigitsFrom(s, |base| + 5, |s| - 2)
    ensures s[|base|..|base| + 2] == Two(yy) && s[|base| + 2..|base| + 5] == middle
    ensures IsDigit(s[|base|]) && IsDigit(s[|base| + 1])
  {
    hide Upper, PrintNat;
    var t, k := s[|base|..], PrintNat(strike);
    assert s[|base|..|base| + 2] == t[..2] && s[|base| + 2..|base| + 5] == t[2..5] && s[|s| - 2..] == t[|t| - 2..];
    assert s[|base|] == Two(yy)[0] && s[|base| + 1] == Two(yy)[1];
    forall p | |base| + 5 <= p < |s| - 2 ensures IsDigit(s[p]) {
      assert s[p] == k[p - |base| - 5];
    }
  }

  // ---------- monthly options ----------

  /** The value a monthly match at b yields. */
  lemma MonthlyValue(s: string, base: string, yy: nat, month: nat, strike: nat, kind: InstrumentType)
    requires yy < 100 && 1 <= month <= 12 && (kind == CE || kind == PE)
    requires Parts(s, base, yy, MonthAbbr(month), strike, kind)
    requires LazySplit(Future, s, 1).None? && LazySplit(Monthly, s, 1) == Some(|base|)
    ensures ParseFoSymbol(s) == Contract(base, kind, LastThursday(2000 + yy, month), Some(strike))
  {
    hide LastThursday, PrintNat, ParseNat, MonthAbbr, MonthNumber, LazySplit, SplitsAt, Upper;
    MonthRoundTrip(month);
    PrintParseNat(strike);
  }

  /** Only the printed split of a monthly option matches. */
  lemma MonthlySplitIs(s: string, base: string, yy: nat, month: nat, strike: nat, kind: InstrumentType)
    requires base != [] && AllAlnum(base) && yy < 100 && 1 <= month <= 12 && (kind == CE || kind == PE)
    requires Parts(s, base, yy, MonthAbbr(month), strike, kind)
    ensures LazySplit(Monthly, s, 1) == Some(|base|)
  {
    hide Parts, PrintNat, SplitsAt, MonthNumber, MonthAbbr;
    PartsPositions(s, base, yy, MonthAbbr(month), strike, kind);
    MonthRoundTrip(month);
    assert s[|base| + 4] == s[|base| + 2..|base| + 5][2];
    SplitIsOptionAt(Monthly, s, |base|);
    forall c | 1 <= c < |base| ensures !SplitsAt(Monthly, s, c) {
      SplitIsOptionAt(Monthly, s, c);
    }
    LazySplitIs(Monthly, s, 1, |base|);
  }

  /** Printing a monthly option and parsing it back, for any letters-and-digits base. */
  lemma MonthlyRoundTrip(base: string, yy: nat, month: nat, strike: nat, kind: InstrumentType)
    requires base != [] && AllAlnum(base) && yy < 100 && 1 <= month <= 12 && (kind == CE || kind == PE)
    ensures ParseFoSymbol(PrintMonthly(base, yy, month, strike, kind)) ==
              Contract(base, kind, LastThursday(2000 + yy, month), Some(strike))
  {
    hide LastThursday, PrintNat, ParseNat, ParseFoSymbol, LazySplit, Parts, MonthAbbr;
    var s := PrintMonthly(base, yy, month, strike, kind);
    PrintedParts(base, yy, MonthAbbr(month), strike, kind);
    PartsPositions(s, base, yy, MonthAbbr(month), strike, kind);
    NoFutureSplit(s);
    MonthlySplitIs(s, base, yy, month, strike, kind);
    MonthlyValue(s, base, yy, month, strike, kind);
  }

  // ---------- weekly options ----------

  function Middle(month: nat, day: nat): (m: string)
    requires 1 <= month <= 12 && day < 100
    ensures |m| == 3 && AllAlnum(m) && m[0] == MonthCode(month) && m[1..] == Two(day) && IsDigit(m[1]) && IsDigit(m[2])
  {
    [MonthCode(month)] + Two(day)
  }

  /** The base itself ends like the start of a monthly option. */
  predicate MonthlyShadow(base: string, c: nat) {
    && 0 < c && c + 5 <= |base| && IsDigit(base[c]) && IsDigit(base[c + 1])
    && MonthNumber(base[c + 2..c + 5]) > 0 && DigitsFrom(base, c + 5, |base|)
  }

  /** The end of the base and the two year digits read like the start of a weekly option. */
  predicate WeeklyShadow(base: string, yy: nat, c: nat)
    requires yy < 100
  {
    0 < c < |base| &&
    var w := base + Two(yy);
    IsDigit(w[c]) && IsDigit(w[c + 1]) && CodeMonth(w[c + 2]) > 0 && DigitsFrom(w, c + 3, |w|)
  }

  /** Something a caller can check before printing: the month code is a digit (January to September)
      and the base ends so that an earlier split matches. */
  predicate Shadowed(base: string, yy: nat, month: nat)
    requires yy < 100
  {
    month < 10 && exists c :: 0 < c < |base| && (MonthlyShadow(base, c) || WeeklyShadow(base, yy, c))
  }

  /** The symbol printed for a weekly option, as the positions of its characters. */
  ghost predicate Layout(s: string, base: string, yy: nat, month: nat)
    requires yy < 100 && 1 <= month <= 12
  {
    && |base| + 8 <= |s| && AllAlnum(base) && s[..|base| + 2] == base + Two(yy) && s[|base| + 2] == MonthCode(month)
    && TypeAtEnd(s) && DigitsFrom(s, |base| + 3, |s| - 2)
  }

  lemma PartsLayout(s: string, base: string, yy: nat, month: nat, day: nat, strike: nat, kind: InstrumentType)
    requires AllAlnum(base) && yy < 100 && 1 <= month <= 12 && day < 100 && (kind == CE || kind == PE)
    requires Parts(s, base, yy, Middle(month, day), strike, kind)
    ensures Layout(s, base, yy, month)
  {
    hide Parts, PrintNat, MonthCode;
    var m := Middle(month, day);
    PartsPositions(s, base, yy, m, strike, kind);
    assert s[..|base| + 2] == base + Two(yy);
    assert s[|base| + 2] == m[0] && s[|base| + 3] == m[1] && s[|base| + 4] == m[2];
  }

  lemma MonthlyMatchesShadow(s: string, base: string, yy: nat, month: nat, c: nat)
    requires yy < 100 && 1 <= month <= 12 && Layout(s, base, yy, month)
    ensures OptionAt(Monthly, s, c) ==> month < 10 && MonthlyShadow(base, c)
    ensures month < 10 && MonthlyShadow(base, c) ==> OptionAt(Monthly, s, c)
  {
    hide MonthNumber;
    var w := base + Two(yy);
    assert forall p :: 0 <= p < |w| ==> w[p] == s[p];
    assert IsDigit(w[|base|]) && IsDigit(w[|base| + 1]);
    if OptionAt(Monthly, s, c) {
      var m := s[c + 2..c + 5];
      MonthIsLetters(m);
      assert m[0] == s[c + 2] && m[1] == s[c + 3] && m[2] == s[c + 4];
      assert c + 5 <= |base|;
      assert base[c + 2..c + 5] == m;
      assert month < 10 by {
        assert IsDigit(s[|base| + 2]);
      }
      forall p | c + 5 <= p < |base| ensures IsDigit(base[p]) {
        assert base[p] == w[p] == s[p];
      }
      assert base[c] == w[c] && base[c + 1] == w[c + 1];
    }
    if month < 10 && MonthlyShadow(base, c) {
      assert s[c + 2..c + 5] == base[c + 2..c + 5];
      assert s[..c] == base[..c];
    }
  }

  lemma WeeklyMatchesShadow(s: string, base: string, yy: nat, month: nat, c: nat)
    requires yy < 100 && 1 <= month <= 12 && Layout(s, base, yy, month) && 0 < c < |base|
    ensures OptionAt(Weekly, s, c) ==> month < 10 && WeeklyShadow(base, yy, c)
    ensures month < 10 && WeeklyShadow(base, yy, c) ==> OptionAt(Weekly, s, c)
  {
    hide CodeMonth;
    var w := base + Two(yy);
    assert forall p :: 0 <= p < |w| ==> w[p] == s[p];
    if OptionAt(Weekly, s, c) {
      assert IsDigit(s[|base| + 2]);
    }
    if month < 10 && WeeklyShadow(base, yy, c) {
      assert s[..c] == base[..c];
    }
  }

  lemma MonthlySplitIff(s: string, base: string, yy: nat, month: nat, c: nat)
    requires yy < 100 && 1 <= month <= 12 && Layout(s, base, yy, month)
    ensures SplitsAt(Monthly, s, c) <==> month < 10 && MonthlyShadow(base, c)
  {
    hide SplitsAt, OptionAt, MonthlyShadow, Layout;
    SplitIsOptionAt(Monthly, s, c);
    MonthlyMatchesShadow(s, base, yy, month, c);
  }

  lemma WeeklySplitIff(s: string, base: string, yy: nat, month: nat, c: nat)
    requires yy < 100 && 1 <= month <= 12 && Layout(s, base, yy, month) && 0 < c < |base|
    ensures SplitsAt(Weekly, s, c) <==> month < 10 && WeeklyShadow(base, yy, c)
  {
    hide SplitsAt, OptionAt, WeeklyShadow, Layout;
    SplitIsOptionAt(Weekly, s, c);
    WeeklyMatchesShadow(s, base, yy, month, c);
  }

  lemma PrintedWeeklySplits(s: string, base: string, yy: nat, month: nat)
    requires base != [] && yy < 100 && 1 <= month <= 12 && Layout(s, base, yy, month)
    ensures SplitsAt(Weekly, s, |base|)
  {
    hide SplitsAt;
    CodeRoundTrip(month);
    var w := base + Two(yy);
    assert s[|base|] == w[|base|] && s[|base| + 1] == w[|base| + 1];
    assert s[..|base|] == w[..|base|] == base;
    SplitIsOptionAt(Weekly, s, |base|);
  }

  /** An unshadowed weekly symbol is read at its printed split. */
  lemma UnshadowedSplits(s: string, base: string, yy: nat, month: nat)
    requires base != [] && yy < 100 && 1 <= month <= 12 && Layout(s, base, yy, month) && !Shadowed(base, yy, month)
    ensures LazySplit(Monthly, s, 1).None? && LazySplit(Weekly, s, 1) == Some(|base|)
  {
    hide SplitsAt, WeeklyShadow, Layout, LazySplit;
    forall c: nat | 1 <= c <= |s| ensures !SplitsAt(Monthly, s, c) {
      MonthlySplitIff(s, base, yy, month, c);
      if MonthlyShadow(base, c) {
        assert 0 < c < |base|;
      }
    }
    LazySplitNone(Monthly, s, 1);
    forall c: nat | 1 <= c < |base| ensures !SplitsAt(Weekly, s, c) {
      WeeklySplitIff(s, base, yy, month, c);
    }
    PrintedWeeklySplits(s, base, yy, month);
    LazySplitIs(Weekly, s, 1, |base|);
  }

  /** A shadowed one is read at an earlier split, as a monthly or as a weekly option. */
  lemma ShadowedSplits(s: string, base: string, yy: nat, month: nat)
    requires base != [] && yy < 100 && 1 <= month <= 12 && Layout(s, base, yy, month) && Shadowed(base, yy, month)
    ensures if LazySplit(Monthly, s, 1).Some? then LazySplit(Monthly, s, 1).value < |base|
            else LazySplit(Weekly, s, 1).Some? && LazySplit(Weekly, s, 1).value < |base|
  {
    hide SplitsAt, WeeklyShadow, Layout, LazySplit;
    var c :| 0 < c < |base| && (MonthlyShadow(base, c) || WeeklyShadow(base, yy, c));
    if MonthlyShadow(base, c) {
      MonthlySplitIff(s, base, yy, month, c);
      LazySplitEarly(Monthly, s, 1, c);
    } else {
      WeeklySplitIff(s, base, yy, month, c);
      LazySplitEarly(Weekly, s, 1, c);
      if LazySplit(Monthly, s, 1).Some? {
        MonthlySplitIff(s, base, yy, month, LazySplit(Monthly, s, 1).value);
      }
    }
  }

  /** The value a weekly match at the printed split yields. */
  lemma WeeklyValue(s: string, base: string, yy: nat, month: nat, day: nat, strike: nat, kind: InstrumentType)
    requires yy < 100 && 1 <= month <= 12 && day < 100 && (kind == CE || kind == PE)
    requires Parts(s, base, yy, Middle(month, day), strike, kind)
    requires LazySplit(Future, s, 1).None? && LazySplit(Monthly, s, 1).None? && LazySplit(Weekly, s, 1) == Some(|base|)
    ensures ParseFoSymbol(s) == var date := Date(2000 + yy, month, day);
                                if Valid(date) then Contract(base, kind, date, Some(strike)) else BadDate
  {
    hide LastThursday, PrintNat, ParseNat, LazySplit, SplitsAt, Upper, Valid, MonthCode, CodeMonth;
    CodeRoundTrip(month);
    PrintParseNat(strike);
    var t := s[|base|..];
    assert t[2] == t[2..5][0] && t[3..5] == t[2..5][1..];
  }

  /** A match at an earlier split cannot yield the printed base. */
  lemma EarlierSplitLosesBase(s: string, b: nat)
    requires Upper(s) == s && LazySplit(Future, s, 1).None?
    requires if LazySplit(Monthly, s, 1).Some? then LazySplit(Monthly, s, 1).value < b
             else LazySplit(Weekly, s, 1).Some? && LazySplit(Weekly, s, 1).value < b
    ensures ParseFoSymbol(s).BadDate? || (ParseFoSymbol(s).Contract? && |ParseFoSymbol(s).base| < b)
  {
    hide LastThursday, ParseNat, LazySplit, Upper, Valid;
  }

  lemma PrintedWeekly(base: string, yy: nat, month: nat, day: nat, strike: nat, kind: InstrumentType)
    requires AllAlnum(base) && yy < 100 && 1 <= month <= 12 && day < 100 && (kind == CE || kind == PE)
    ensures var s := PrintWeekly(base, yy, month, day, strike, kind);
            && Parts(s, base, yy, Middle(month, day), strike, kind) && Layout(s, base, yy, month)
            && LazySplit(Future, s, 1).None? && Upper(s) == s
  {
    hide PrintNat, LazySplit, Layout, TypeAtEnd, DigitsFrom, Upper;
    var s, m := PrintWeekly(base, yy, month, day, strike, kind), Middle(month, day);
    assert s == base + Tail(yy, m, strike, kind);
    PrintedParts(base, yy, m, strike, kind);
    assert Upper(s) == s;
    hide Parts, Tail, Middle;
    PartsPositions(s, base, yy, m, strike, kind);
    PartsLayout(s, base, yy, month, day, strike, kind);
    NoFutureSplit(s);
  }

  /** How a printed weekly option is read. */
  lemma WeeklyReading(base: string, yy: nat, month: nat, day: nat, strike: nat, kind: InstrumentType)
    requires base != [] && AllAlnum(base) && yy < 100 && 1 <= month <= 12 && day < 100 && (kind == CE || kind == PE)
    ensures var parsed := ParseFoSymbol(PrintWeekly(base, yy, month, day, strike, kind));
            var date := Date(2000 + yy, month, day);
            if Shadowed(base, yy, month) then parsed.BadDate? || (parsed.Contract? && |parsed.base| < |base|)
            else parsed == if Valid(date) then Contract(base, kind, date, Some(strike)) else BadDate
  {
    hide ParseFoSymbol, PrintWeekly, LazySplit, Shadowed, Layout, Parts, Valid, Upper, Middle;
    var s := PrintWeekly(base, yy, month, day, strike, kind);
    PrintedWeekly(base, yy, month, day, strike, kind);
    if Shadowed(base, yy, month) {
      ShadowedSplits(s, base, yy, month);
      EarlierSplitLosesBase(s, |base|);
    } else {
      UnshadowedSplits(s, base, yy, month);
      WeeklyValue(s, base, yy, month, day, strike, kind);
    }
  }

  /** Printing a weekly option with a valid date and parsing it back recovers it exactly when the
      base is not shadowed. */
  lemma WeeklyRoundTripIff(base: string, yy: nat, month: nat, day: nat, strike: nat, kind: InstrumentType)
    requires base != [] && AllAlnum(base) && yy < 100 && 1 <= month <= 12 && day < 100 && (kind == CE || kind == PE)
    requires Valid(Date(2000 + yy, month, day))
    ensures ParseFoSymbol(PrintWeekly(base, yy, month, day, strike, kind)) ==
              Contract(base, kind, Date(2000 + yy, month, day), Some(strike))
            <==> !Shadowed(base, yy, month)
  {
    hide ParseFoSymbol, PrintWeekly, Shadowed;
    WeeklyReading(base, yy, month, day, strike, kind);
  }

  /** An unshadowed weekly symbol raises a bare ValueError exactly when its day does not exist. */
  lemma WeeklyBadDateIff(base: string, yy: nat, month: nat, day: nat, strike: nat, kind: InstrumentType)
    requires base != [] && AllAlnum(base) && yy < 100 && 1 <= month <= 12 && day < 100 && (kind == CE || kind == PE)
    requires !Shadowed(base, yy, month)
    ensures ParseFoSymbol(PrintWeekly(base, yy, month, day, strike, kind)) == BadDate
            <==> !Valid(Date(2000 + yy, month, day))
  {
    hide ParseFoSymbol, PrintWeekly, Shadowed;
    WeeklyReading(base, yy, month, day, strike, kind);
  }

  /** A base of letters only is never shadowed, so all three formats round trip and never collide. */
  lemma LettersAreNeverShadowed(base: string, yy: nat, month: nat)
    requires yy < 100 && forall i :: 0 <= i < |base| ==> IsUpper(base[i])
    ensures !Shadowed(base, yy, month)
  {
    forall c | 0 < c < |base| ensures !MonthlyShadow(base, c) && !WeeklyShadow(base, yy, c) {
      assert IsUpper(base[c]);
    }
  }

  /** For a letters-only base the three printed formats never collide: each reads back as printed. */
  lemma LettersRoundTrip(base: string, yy: nat, month: nat, day: nat, strike: nat, kind: InstrumentType)
    requires base != [] && forall i :: 0 <= i < |base| ==> IsUpper(base[i])
    requires yy < 100 && 1 <= month <= 12 && day < 100 && (kind == CE || kind == PE)
    ensures ParseFoSymbol(PrintFuture(base, yy, month)) == Contract(base, FUT, LastThursday(2000 + yy, month), None)
    ensures ParseFoSymbol(PrintMonthly(base, yy, month, strike, kind)) ==
              Contract(base, kind, LastThursday(2000 + yy, month), Some(strike))
    ensures var date := Date(2000 + yy, month, day);
            ParseFoSymbol(PrintWeekly(base, yy, month, day, strike, kind)) ==
              if Valid(date) then Contract(base, kind, date, Some(strike)) else BadDate
  {
    hide ParseFoSymbol, PrintFuture, PrintMonthly, PrintWeekly, Shadowed, LastThursday, Valid;
    LettersAreNeverShadowed(base, yy, month);
    FutureRoundTrip(base, yy, month);
    MonthlyRoundTrip(base, yy, month, strike, kind);
    WeeklyReading(base, yy, month, day, strike, kind);
  }

  /** Whatever the symbol, a parsed contract is complete: a non-empty base of letters and digits, a
      real expiry date, and a strike exactly when it is an option. */
  lemma ParsedContractIsComplete(symbol: string)
    ensures var parsed := ParseFoSymbol(symbol);
            parsed.Contract? ==>
              && parsed.base != [] && AllAlnum(parsed.base) && Valid(parsed.expiry)
              && parsed.kind in {FUT, CE, PE} && (parsed.strike.Some? <==> parsed.kind != FUT)
  {
    hide LastThursday, ParseNat, LazySplit, Upper, Valid;
    var s := Upper(symbol);
    if LazySplit(Future, s, 1).Some? {
      var t := s[LazySplit(Future, s, 1).value..];
      LastThursdayIsLast(2000 + ParseNat(t[..2]), MonthNumber(t[2..5]));
    } else if LazySplit(Monthly, s, 1).Some? {
      var t := s[LazySplit(Monthly, s, 1).value..];
      LastThursdayIsLast(2000 + ParseNat(t[..2]), MonthNumber(t[2..5]));
    }
  }

  // ---------- exactly which symbols are read ----------

  lemma UpperTwice(s: string)
    ensures Upper(Upper(s)) == Upper(s)
  {
  }

  /** The case of a symbol's letters does not matter. */
  lemma CaseDoesNotMatter(symbol: string, other: string)
    requires Upper(symbol) == Upper(other)
    ensures ParseFoSymbol(symbol) == ParseFoSymbol(other)
  {
    hide LazySplit, Upper, LastThursday, ParseNat, Valid;
  }

  lemma TwoDigits(d: string)
    requires |d| == 2 && AllDigits(d)
    ensures ParseNat(d) < 100 && Two(ParseNat(d)) == d
  {
    assert d[..1] == [d[0]] && d[..1][..0] == [];
    assert ParseNat(d[..1]) == DigitValue(d[0]);
    assert ParseNat(d) == DigitValue(d[0]) * 10 + DigitValue(d[1]);
  }

  lemma MonthWritten(s: string)
    requires MonthNumber(s) > 0
    ensures MonthAbbr(MonthNumber(s)) == s
  {
  }

  lemma CodeWritten(c: char)
    requires CodeMonth(c) > 0
    ensures MonthCode(CodeMonth(c)) == c
  {
  }

  /** The symbol is written as a future: base, year, month, FUT. */
  predicate WrittenFuture(s: string, base: string, yy: nat, month: nat) {
    base != [] && AllAlnum(base) && yy < 100 && 1 <= month <= 12 && s == PrintFuture(base, yy, month)
  }

  /** The symbol is written as an option: base, year, month (and day, in the weekly format), strike digits, type. */
  predicate WrittenOption(format: Format, s: string, base: string, yy: nat, month: nat, day: nat, digits: string,
                          kind: InstrumentType) {
    && format != Future && base != [] && AllAlnum(base) && yy < 100 && 1 <= month <= 12 && day < 100
    && digits != [] && AllDigits(digits) && (kind == CE || kind == PE)
    && s == base + (Two(yy) + (if format == Monthly then MonthAbbr(month) else Middle(month, day)) + digits +
                    TypeCode(kind))
  }

  lemma FutureIsWritten(s: string, b: nat)
    requires SplitsAt(Future, s, b)
    ensures var t := s[b..]; WrittenFuture(s, s[..b], ParseNat(t[..2]), MonthNumber(t[2..5]))
  {
    hide MonthNumber, ParseNat, Two, MonthAbbr;
    var t := s[b..];
    TwoDigits(t[..2]);
    MonthWritten(t[2..5]);
    assert t == t[..2] + t[2..5] + t[5..] && s == s[..b] + t;
  }

  lemma TypeWritten(s: string)
    requires s == "CE" || s == "PE"
    ensures TypeCode(TypeOf(s)) == s
  {
  }

  lemma Reassembled(s: string, b: nat)
    requires b + 7 <= |s|
    ensures var t := s[b..]; s == s[..b] + (t[..2] + t[2..5] + t[5..|t| - 2] + t[|t| - 2..])
  {
  }

  lemma OptionIsWritten(format: Format, s: string, b: nat)
    requires format != Future && SplitsAt(format, s, b)
    ensures var t := s[b..];
            var month := if format == Monthly then MonthNumber(t[2..5]) else CodeMonth(t[2]);
            var day := if format == Monthly then 1 else ParseNat(t[3..5]);
            WrittenOption(format, s, s[..b], ParseNat(t[..2]), month, day, t[5..|t| - 2], TypeOf(t[|t| - 2..]))
  {
    hide MonthNumber, ParseNat, Two, MonthAbbr, CodeMonth, MonthCode;
    var t := s[b..];
    TwoDigits(t[..2]);
    TypeWritten(t[|t| - 2..]);
    Reassembled(s, b);
    if format == Monthly {
      MonthWritten(t[2..5]);
    } else {
      CodeWritten(t[2]);
      TwoDigits(t[3..5]);
      assert t[2..5] == [t[2]] + t[3..5];
    }
  }

  lemma WrittenFutureSplits(s: string, base: string, yy: nat, month: nat)
    requires WrittenFuture(s, base, yy, month)
    ensures SplitsAt(Future, s, |base|)
  {
    FutureTail(yy, month);
    AlnumUpper(base, Two(yy) + MonthAbbr(month) + "FUT");
  }

  lemma WrittenOptionSplits(format: Format, s: string, base: string, yy: nat, month: nat, day: nat, digits: string,
                            kind: InstrumentType)
    requires WrittenOption(format, s, base, yy, month, day, digits, kind)
    ensures SplitsAt(format, s, |base|)
  {
    hide ParseNat, Two, MonthNumber, MonthAbbr, MonthCode, CodeMonth;
    var middle := if format == Monthly then MonthAbbr(month) else Middle(month, day);
    var t := Two(yy) + middle + digits + TypeCode(kind);
    assert s[..|base|] == base && s[|base|..] == t;
    TailSlices(Two(yy), middle, digits, TypeCode(kind));
    if format == Monthly {
      MonthRoundTrip(month);
    } else {
      CodeRoundTrip(month);
      assert t[2] == t[2..5][0] && t[3..5] == t[2..5][1..];
    }
  }

  /** Whatever is read was written so, digit for digit: a future with its month's expiry, a monthly option with
      its month's, a weekly option with the day it names. */
  lemma ReadsWhatIsWritten(symbol: string) returns (yy: nat, month: nat, day: nat, digits: string)
    requires ParseFoSymbol(symbol).Contract?
    ensures var s, c := Upper(symbol), ParseFoSymbol(symbol);
            if c.kind == FUT then WrittenFuture(s, c.base, yy, month) && c.expiry == LastThursday(2000 + yy, month)
            else
              && AllDigits(digits) && c.strike == Some(ParseNat(digits))
              && ((WrittenOption(Monthly, s, c.base, yy, month, day, digits, c.kind)
                   && c.expiry == LastThursday(2000 + yy, month))
                  || (WrittenOption(Weekly, s, c.base, yy, month, day, digits, c.kind)
                      && c.expiry == Date(2000 + yy, month, day)))
  {
    hide LazySplit, Upper, LastThursday, ParseNat, Valid, MonthNumber, CodeMonth, WrittenFuture, WrittenOption;
    var s := Upper(symbol);
    yy, month, day, digits := 0, 0, 0, "";
    if LazySplit(Future, s, 1).Some? {
      var b := LazySplit(Future, s, 1).value;
      FutureIsWritten(s, b);
      yy, month := ParseNat(s[b..][..2]), MonthNumber(s[b..][2..5]);
    } else if LazySplit(Monthly, s, 1).Some? {
      var b := LazySplit(Monthly, s, 1).value;
      var t := s[b..];
      OptionIsWritten(Monthly, s, b);
      yy, month, day, digits := ParseNat(t[..2]), MonthNumber(t[2..5]), 1, t[5..|t| - 2];
    } else {
      var b := LazySplit(Weekly, s, 1).value;
      var t := s[b..];
      OptionIsWritten(Weekly, s, b);
      yy, month, day, digits := ParseNat(t[..2]), CodeMonth(t[2]), ParseNat(t[3..5]), t[5..|t| - 2];
    }
  }

  /** A symbol is not read exactly when it is written in none of the three formats. */
  lemma UnreadIffUnwritten(symbol: string)
    ensures ParseFoSymbol(symbol).NoMatch? <==>
              && (forall base, yy, month :: !WrittenFuture(Upper(symbol), base, yy, month))
              && (forall format, base, yy, month, day, digits, kind ::
                    !WrittenOption(format, Upper(symbol), base, yy, month, day, digits, kind))
  {
    hide LazySplit, Upper, LastThursday, ParseNat, Valid, MonthNumber, CodeMonth, WrittenFuture, WrittenOption,
         SplitsAt;
    var s := Upper(symbol);
    forall base, yy, month | WrittenFuture(s, base, yy, month) ensures LazySplit(Future, s, 1).Some? {
      WrittenFutureSplits(s, base, yy, month);
      FutureHasBase(s, base, yy, month);
      LazySplitEarly(Future, s, 1, |base|);
    }
    forall format, base, yy, month, day, digits, kind |
      WrittenOption(format, s, base, yy, month, day, digits, kind)
      ensures LazySplit(format, s, 1).Some? && format != Future
    {
      WrittenOptionSplits(format, s, base, yy, month, day, digits, kind);
      OptionHasBase(format, s, base, yy, month, day, digits, kind);
      LazySplitEarly(format, s, 1, |base|);
    }
    SplitIsWritten(s);
  }

  lemma FutureHasBase(s: string, base: string, yy: nat, month: nat)
    requires WrittenFuture(s, base, yy, month)
    ensures |base| >= 1
  {
  }

  lemma OptionHasBase(format: Format, s: string, base: string, yy: nat, month: nat, day: nat, digits: string,
                      kind: InstrumentType)
    requires WrittenOption(format, s, base, yy, month, day, digits, kind)
    ensures |base| >= 1 && format != Future
  {
  }

  lemma SplitIsWritten(s: string)
    ensures LazySplit(Future, s, 1).Some? ==> exists base, yy, month :: WrittenFuture(s, base, yy, month)
    ensures forall format :: format != Future && LazySplit(format, s, 1).Some? ==>
              exists base, yy, month, day, digits, kind :: WrittenOption(format, s, base, yy, month, day, digits, kind)
  {
    hide LazySplit, ParseNat, MonthNumber, CodeMonth, WrittenFuture, WrittenOption;
    if LazySplit(Future, s, 1).Some? {
      FutureIsWritten(s, LazySplit(Future, s, 1).value);
    }
    forall format | format != Future && LazySplit(format, s, 1).Some?
      ensures exists base, yy, month, day, digits, kind ::
                WrittenOption(format, s, base, yy, month, day, digits, kind)
    {
      OptionIsWritten(format, s, LazySplit(format, s, 1).value);
    }
  }

  /** Printed symbols are in upper case already. */
  lemma PrintedFutureIsUpper(base: string, yy: nat, month: nat)
    requires AllAlnum(base) && yy < 100 && 1 <= month <= 12
    ensures Upper(PrintFuture(base, yy, month)) == PrintFuture(base, yy, month) != ""
  {
    FutureTail(yy, month);
    AlnumUpper(base, Two(yy) + MonthAbbr(month) + "FUT");
  }

  lemma PrintedMonthlyIsUpper(base: string, yy: nat, month: nat, strike: nat, kind: InstrumentType)
    requires AllAlnum(base) && yy < 100 && 1 <= month <= 12 && (kind == CE || kind == PE)
    ensures Upper(PrintMonthly(base, yy, month, strike, kind)) == PrintMonthly(base, yy, month, strike, kind) != ""
  {
    hide PrintNat, Upper;
    PrintedParts(base, yy, MonthAbbr(month), strike, kind);
  }

  lemma PrintedWeeklyIsUpper(base: string, yy: nat, month: nat, day: nat, strike: nat, kind: InstrumentType)
    requires AllAlnum(base) && yy < 100 && 1 <= month <= 12 && day < 100 && (kind == CE || kind == PE)
    ensures Upper(PrintWeekly(base, yy, month, day, strike, kind)) ==
            PrintWeekly(base, yy, month, day, strike, kind) != ""
  {
    hide PrintNat, Upper, Layout, LazySplit;
    PrintedWeekly(base, yy, month, day, strike, kind);
  }

  /** A weekly option for the 30th of February. */
  lemma NoSuchDayExample()
    ensures ParseFoSymbol(PrintWeekly("NIFTY", 24, 2, 30, 22000, CE)) == BadDate
  {
    hide ParseFoSymbol, PrintWeekly, Shadowed;
    LettersAreNeverShadowed("NIFTY", 24, 2);
    assert AllAlnum("NIFTY");
    WeeklyBadDateIff("NIFTY", 24, 2, 30, 22000, CE);
  }

  lemma Digits24502100()
    ensures PrintNat(24502100) == "24502100" && PrintNat(100) == "100"
  {
    assert PrintNat(24) == "24";
    assert PrintNat(245) == PrintNat(24) + "5";
    assert PrintNat(2450) == PrintNat(245) + "0";
    assert PrintNat(24502) == PrintNat(2450) + "2";
    assert PrintNat(245021) == PrintNat(24502) + "1";
    assert PrintNat(2450210) == PrintNat(245021) + "0";
    assert PrintNat(24502100) == PrintNat(2450210) + "0";
    assert PrintNat(10) == "10";
    assert PrintNat(100) == PrintNat(10) + "0";
  }

  lemma WeeklyText()
    ensures PrintWeekly("A10JAN", 24, 5, 2, 100, CE) == "A10JAN24502100CE"
  {
    hide PrintNat;
    Digits24502100();
  }

  lemma MonthlyText()
    ensures PrintMonthly("A", 10, 1, 24502100, CE) == "A10JAN24502100CE"
  {
    hide PrintNat;
    Digits24502100();
  }

  /** Two contracts with one printed symbol: the weekly option of base "A10JAN" for 2 May 2024, strike 100,
      is read as the January 2010 option of base "A", strike 24502100. */
  lemma ShadowedExample()
    ensures PrintWeekly("A10JAN", 24, 5, 2, 100, CE) == PrintMonthly("A", 10, 1, 24502100, CE)
    ensures ParseFoSymbol(PrintWeekly("A10JAN", 24, 5, 2, 100, CE)) ==
            Contract("A", CE, LastThursday(2010, 1), Some(24502100))
  {
    hide ParseFoSymbol, LastThursday, PrintWeekly, PrintMonthly;
    WeeklyText();
    MonthlyText();
    MonthlyRoundTrip("A", 10, 1, 24502100, CE);
  }
}
