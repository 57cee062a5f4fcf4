/**
 _interval_token: the canonical token of an interval literal. Amounts are exact
 decimals.
 */
module Interval {
  import opened Lex

  // ------------------------------------------------------------- exact decimals

  predicate IsDigit(c: char) {
    '0' <= c <= '9'
  }

  predicate AllDigits(s: string) {
    forall k :: 0 <= k < |s| ==> IsDigit(s[k])
  }

  predicate IsLower(c: char) {
    'a' <= c <= 'z'
  }

  predicate AllLower(s: string) {
    forall k :: 0 <= k < |s| ==> IsLower(s[k])
  }

  function Pow10(k: nat): (p: nat)
    ensures p > 0
  {
    if k == 0 then 1 else 10 * Pow10(k - 1)
  }

  /** units / 10^places. */
  datatype Decimal = Decimal(units: nat, places: nat)

  predicate Equal(a: Decimal, b: Decimal) {
    a.units * Pow10(b.places) == b.units * Pow10(a.places)
  }

  function DigitValue(c: char): nat {
    if IsDigit(c) then c as nat - '0' as nat else 0
  }

  function Value(s: string): nat {
    if s == "" then 0 else 10 * Value(s[..|s| - 1]) + DigitValue(s[|s| - 1])
  }

  function Plus(whole: nat, d: Decimal): Decimal {
    Decimal(whole * Pow10(d.places) + d.units, d.places)
  }

  function Scale(d: Decimal, factor: nat): Decimal {
    Decimal(d.units * factor, d.places)
  }

  /** Trailing zeros of the fraction removed. */
  function Reduce(d: Decimal): Decimal
    decreases d.places
  {
    if d.places > 0 && d.units % 10 == 0 then Reduce(Decimal(d.units / 10, d.places - 1)) else d
  }

  function DigitChar(n: nat): char
    requires n < 10
  {
    ('0' as int + n) as char
  }

  function Digits(n: nat): string {
    if n < 10 then [DigitChar(n)] else Digits(n / 10) + [DigitChar(n % 10)]
  }

  function Whole(d: Decimal): nat
    decreases d.places
  {
    if d.places == 0 then d.units else Whole(Decimal(d.units / 10, d.places - 1))
  }

  function Fraction(d: Decimal): string
    decreases d.places
  {
    if d.places == 0 then ""
    else Fraction(Decimal(d.units / 10, d.places - 1)) + [DigitChar(d.units % 10)]
  }

  /** _interval_seconds_text: without a fraction when the amount is whole. */
  function AmountText(d: Decimal): string {
    var r := Reduce(d);
    Digits(Whole(r)) + if r.places == 0 then "" else "." + Fraction(r)
  }

  // -------------------------------------------------------------------- reading

  datatype Reading =
    | Seconds(amount: Decimal)
    | Named(count: Decimal, unit: string)
    | Raw(text: string)

  /** The digits a text begins with. */
  function First(s: string): string {
    if s == "" || !IsDigit(s[0]) then "" else [s[0]] + First(s[1..])
  }

  /** What follows them. */
  function Rest(s: string): (r: string)
    ensures |r| <= |s|
  {
    if s == "" || !IsDigit(s[0]) then s else Rest(s[1..])
  }

  /** The number a text begins with, \d+(\.\d+)?, and what follows it. */
  datatype Lead = Lead(amount: Decimal, rest: string)

  function LeadingNumber(x: string): Option<Lead> {
    var y := Rest(x);
    if First(x) == "" then None
    else if y != "" && y[0] == '.' && First(y[1..]) != "" then
      Some(Lead(Decimal(Value(First(x) + First(y[1..])), |First(y[1..])|), Rest(y[1..])))
    else Some(Lead(Decimal(Value(First(x)), 0), y))
  }

  /** \d+ before one given character; the value and what follows. */
  function Field(x: string, mark: char): Option<Lead> {
    var y := Rest(x);
    if First(x) != "" && y != "" && y[0] == mark then Some(Lead(Decimal(Value(First(x)), 0), y[1..])) else None
  }

  /** HH:MM, HH:MM:SS or HH:MM:SS.f: one or two digits after each colon. */
  function Clock(x: string): Option<Decimal> {
    var h := Field(x, ':');
    if h.None? then None else AfterHours(h.value.amount.units * 3600, h.value.rest)
  }

  function AfterHours(hours: nat, y: string): Option<Decimal> {
    var m, z := First(y), Rest(y);
    if m == "" || |m| > 2 then None
    else if z == "" then Some(Decimal(hours + Value(m) * 60, 0))
    else if z[0] != ':' then None
    else ClockSeconds(hours + Value(m) * 60, z[1..])
  }

  function ClockSeconds(minutes: nat, z: string): Option<Decimal> {
    var s := LeadingNumber(z);
    if s.None? || |First(z)| > 2 || s.value.rest != "" then None else Some(Plus(minutes, s.value.amount))
  }

  /** The optional hours, minutes and seconds after "t", to the end of the text. */
  function TimePart(x: string): Option<Decimal> {
    var h := Field(x, 'h');
    var y := if h.Some? then h.value.rest else x;
    var m := Field(y, 'm');
    var whole := (if h.Some? then h.value.amount.units * 3600 else 0) +
                 (if m.Some? then m.value.amount.units * 60 else 0);
    IsoSeconds(whole, if m.Some? then m.value.rest else y)
  }

  function IsoSeconds(minutes: nat, z: string): Option<Decimal> {
    if z == "" then Some(Decimal(minutes, 0))
    else
      var s := LeadingNumber(z);
      if s.Some? && s.value.rest == "s" then Some(Plus(minutes, s.value.amount)) else None
  }

  /** The ISO 8601 subset; the "d" may be missing, "pt" alone does not count. */
  function Iso(x: string): Option<Decimal> {
    if x == "" || x[0] != 'p' then None
    else if |x| >= 2 && x[1] == 't' then if x == "pt" then None else TimePart(x[2..])
    else if First(x[1..]) == "" then None
    else AfterDays(Value(First(x[1..])) * 86400, Rest(x[1..]))
  }

  function AfterDays(days: nat, y: string): Option<Decimal> {
    var z := if y != "" && y[0] == 'd' then y[1..] else y;
    if z == "" then Some(Decimal(days, 0))
    else if z[0] != 't' then None
    else
      var t := TimePart(z[1..]);
      if t.Some? then Some(Plus(days, t.value)) else None
  }

  /** _INTERVAL_UNIT_SECONDS. */
  function UnitSeconds(u: string): Option<nat> {
    if u == "second" || u == "seconds" || u == "sec" || u == "secs" then Some(1)
    else if u == "minute" || u == "minutes" || u == "min" || u == "mins" then Some(60)
    else if u == "hour" || u == "hours" || u == "hr" || u == "hrs" then Some(3600)
    else if u == "day" || u == "days" then Some(86400)
    else if u == "week" || u == "weeks" then Some(604800)
    else None
  }

  /** _INTERVAL_UNIT_SUFFIX. */
  function UnitSuffix(u: string): Option<string> {
    if u == "mon" || u == "mons" || u == "month" || u == "months" then Some("mon")
    else if u == "year" || u == "years" then Some("yr")
    else None
  }

  function InUnit(d: Decimal, unit: string): Reading {
    match UnitSeconds(unit)
    case Some(f) => Seconds(Scale(d, f))
    case None =>
      if UnitSuffix(unit).Some? && Reduce(d).places == 0 then Named(d, UnitSuffix(unit).value)
      else Named(d, unit)
  }

  /** How the source reads a stripped, lower-case literal: clock, ISO, number with a
      unit, bare number, or nothing it knows. */
  function Read(x: string): Reading {
    if Clock(x).Some? then Seconds(Clock(x).value)
    else if Iso(x).Some? then Seconds(Iso(x).value)
    else
      match LeadingNumber(x)
      case None => Raw(x)
      case Some(lead) =>
        var unit := TrimLeft(lead.rest);
        if lead.rest == "" then Seconds(lead.amount)
        else if unit != "" && AllLower(unit) then InUnit(lead.amount, unit)
        else Raw(x)
  }

  function Token(r: Reading): string {
    match r
    case Seconds(d) => "interval(" + AmountText(d) + ")"
    case Named(d, unit) => "interval(" + (AmountText(d) + unit) + ")"
    case Raw(text) => "interval(" + ("'" + text + "'") + ")"
  }

  function ReadLiteral(literal: string): Reading {
    Read(Lower(Strip(literal)))
  }

  /** _interval_token. */
  function IntervalToken(literal: string): string {
    Token(ReadLiteral(literal))
  }

  // ----------------------------------------------------- amounts and their texts

  lemma {:induction false} Tenfold(x: int, p: int)
    ensures x * (10 * p) == 10 * (x * p) && (10 * x) * p == 10 * (x * p)
  {
  }

  predicate Reduced(d: Decimal) {
    d.places == 0 || d.units % 10 != 0
  }

  /** A trailing zero does not change an amount. */
  lemma {:induction false} ZeroDropped(n: nat, k: nat, x: Decimal)
    ensures Equal(Decimal(10 * n, k + 1), x) <==> Equal(Decimal(n, k), x)
  {
    Tenfold(n, Pow10(x.places));
    Tenfold(x.units, Pow10(k));
  }

  lemma {:induction false} ReduceEqual(d: Decimal, x: Decimal)
    ensures Reduced(Reduce(d)) && (Equal(Reduce(d), x) <==> Equal(d, x))
    decreases d.places
  {
    if d.places > 0 && d.units % 10 == 0 {
      ZeroDropped(d.units / 10, d.places - 1, x);
      ReduceEqual(Decimal(d.units / 10, d.places - 1), x);
    }
  }

  /** One place fewer on both sides. */
  lemma {:induction false} PlaceDropped(a: Decimal, b: Decimal)
    requires a.places > 0 && b.places > 0 && Equal(a, b)
    ensures Equal(Decimal(a.units, a.places - 1), Decimal(b.units, b.places - 1))
  {
    Tenfold(a.units, Pow10(b.places - 1));
    Tenfold(b.units, Pow10(a.places - 1));
  }

  lemma {:induction false} WholeOrZero(a: Decimal, b: Decimal)
    requires a.places == 0 && b.places > 0 && Equal(a, b)
    ensures b.units % 10 == 0
  {
    Tenfold(a.units, Pow10(b.places - 1));
    assert b.units == 10 * (a.units * Pow10(b.places - 1));
  }

  lemma {:induction false} ReducedUnique(a: Decimal, b: Decimal)
    requires Reduced(a) && Reduced(b) && Equal(a, b)
    ensures a == b
    decreases a.places
  {
    if a.places > 0 && b.places > 0 {
      PlaceDropped(a, b);
      ReducedUnique(Decimal(a.units, a.places - 1), Decimal(b.units, b.places - 1));
    } else if b.places > 0 {
      WholeOrZero(a, b);
    } else if a.places > 0 {
      WholeOrZero(b, a);
    }
  }

  /** Equal amounts are the ones with one reduced form. */
  lemma {:induction false} ReduceSame(a: Decimal, b: Decimal)
    ensures Reduce(a) == Reduce(b) <==> Equal(a, b)
  {
    var r, s := Reduce(a), Reduce(b);
    ReduceEqual(a, s);
    ReduceEqual(b, a);
    ReduceEqual(b, r);
    ReduceEqual(a, b);
    if Equal(a, b) {
      ReducedUnique(r, s);
    }
  }

  lemma {:induction false} DigitsAre(n: nat)
    ensures AllDigits(Digits(n)) && Digits(n) != "" && Value(Digits(n)) == n
  {
    if n >= 10 {
      DigitsAre(n / 10);
      assert Digits(n)[..|Digits(n)| - 1] == Digits(n / 10);
    }
  }

  lemma {:induction false} FractionIs(d: Decimal)
    ensures |Fraction(d)| == d.places && AllDigits(Fraction(d))
    decreases d.places
  {
    if d.places > 0 {
      FractionIs(Decimal(d.units / 10, d.places - 1));
    }
  }

  lemma {:induction false} FractionSame(a: Decimal, b: Decimal)
    requires Fraction(a) == Fraction(b) && Whole(a) == Whole(b)
    ensures a == b
    decreases a.places
  {
    FractionIs(a);
    FractionIs(b);
    if a.places > 0 {
      var x, y := Decimal(a.units / 10, a.places - 1), Decimal(b.units / 10, b.places - 1);
      assert Fraction(a)[..a.places - 1] == Fraction(x) by { FractionIs(x); }
      assert Fraction(b)[..a.places - 1] == Fraction(y) by { FractionIs(y); }
      assert Fraction(a)[a.places - 1] == DigitChar(a.units % 10) && Fraction(b)[a.places - 1] == DigitChar(b.units % 10);
      FractionSame(x, y);
    }
  }

  predicate Numeric(c: char) {
    IsDigit(c) || c == '.'
  }

  lemma {:induction false} AmountShape(d: Decimal)
    ensures AmountText(d) != "" && IsDigit(AmountText(d)[0])
    ensures forall k :: 0 <= k < |AmountText(d)| ==> Numeric(AmountText(d)[k])
  {
    DigitsAre(Whole(Reduce(d)));
    FractionIs(Reduce(d));
  }

  /** A run of characters of one kind, followed by none or one of another kind, is
      not part of a longer run. */
  lemma {:induction false} RunsDiffer(a: string, u: string, b: string, v: string, kind: char -> bool)
    requires |a| < |b| && (u == "" || !kind(u[0])) && forall k :: 0 <= k < |b| ==> kind(b[k])
    ensures a + u != b + v
  {
    var s, t := a + u, b + v;
    assert t[|a|] == b[|a|];
    assert u != "" ==> s[|a|] == u[0];
  }

  lemma {:induction false} SameRuns(a: string, u: string, b: string, v: string, kind: char -> bool)
    requires a + u == b + v && (u == "" || !kind(u[0])) && (v == "" || !kind(v[0]))
    requires (forall k :: 0 <= k < |a| ==> kind(a[k])) && (forall k :: 0 <= k < |b| ==> kind(b[k]))
    ensures a == b && u == v
  {
    if |a| != |b| {
      if |a| < |b| {
        RunsDiffer(a, u, b, v, kind);
      } else {
        RunsDiffer(b, v, a, u, kind);
      }
    }
    assert (a + u)[..|a|] == a && (a + u)[|a|..] == u;
    assert (b + v)[..|b|] == b && (b + v)[|b|..] == v;
  }

  /** Equal amounts have equal texts, and only they. */
  lemma {:induction false} AmountSame(a: Decimal, b: Decimal)
    ensures AmountText(a) == AmountText(b) <==> Equal(a, b)
  {
    ReduceSame(a, b);
    if AmountText(a) == AmountText(b) {
      var r, s := Reduce(a), Reduce(b);
      var u := if r.places == 0 then "" else "." + Fraction(r);
      var v := if s.places == 0 then "" else "." + Fraction(s);
      DigitsAre(Whole(r));
      DigitsAre(Whole(s));
      SameRuns(Digits(Whole(r)), u, Digits(Whole(s)), v, IsDigit);
      assert Whole(r) == Value(Digits(Whole(r))) == Value(Digits(Whole(s))) == Whole(s);
      if r.places > 0 {
        assert u[1..] == Fraction(r) && v[1..] == Fraction(s);
      }
      assert Fraction(r) == Fraction(s);
      FractionSame(r, s);
    }
  }

  // ---------------------------------------------------------------- main theorem

  /** One reading: equal seconds, or equal counts of one unit, or one text. */
  predicate SameReading(r: Reading, s: Reading) {
    match (r, s)
    case (Seconds(a), Seconds(b)) => Equal(a, b)
    case (Named(a, u), Named(b, v)) => Equal(a, b) && u == v
    case (Raw(x), Raw(y)) => x == y
    case _ => false
  }

  /** What is inside the token's parentheses. */
  function Body(r: Reading): string {
    match r
    case Seconds(d) => AmountText(d)
    case Named(d, unit) => AmountText(d) + unit
    case Raw(text) => "'" + text + "'"
  }

  ghost predicate UnitOk(r: Reading) {
    r.Named? ==> r.unit != "" && AllLower(r.unit)
  }

  lemma {:induction false} ReadUnits(x: string)
    ensures UnitOk(Read(x))
  {
  }

  lemma {:induction false} BodySame(r: Reading, s: Reading)
    requires UnitOk(r) && UnitOk(s)
    ensures Body(r) == Body(s) <==> SameReading(r, s)
  {
    match (r, s)
    case (Seconds(a), Seconds(b)) => AmountSame(a, b);
    case (Named(a, u), Named(b, v)) =>
      AmountSame(a, b);
      AmountShape(a);
      AmountShape(b);
      if Body(r) == Body(s) {
        SameRuns(AmountText(a), u, AmountText(b), v, Numeric);
      }
    case (Raw(x), Raw(y)) =>
      assert Body(r)[1..|x| + 1] == x;
      assert Body(s)[1..|y| + 1] == y;
    case (Seconds(a), Named(b, v)) => LastDiffers(a, b, v);
    case (Named(a, u), Seconds(b)) => LastDiffers(b, a, u);
    case (Raw(x), Seconds(b)) => AmountShape(b);
    case (Raw(x), Named(b, v)) =>
      AmountShape(b);
      assert Body(s)[0] == AmountText(b)[0] && Body(r)[0] == '\'';
    case (Seconds(a), Raw(y)) => AmountShape(a);
    case (Named(a, u), Raw(y)) =>
      AmountShape(a);
      assert Body(r)[0] == AmountText(a)[0] && Body(s)[0] == '\'';
  }

  lemma {:induction false} LastDiffers(a: Decimal, b: Decimal, v: string)
    requires v != "" && AllLower(v)
    ensures AmountText(a) != AmountText(b) + v
  {
    AmountShape(a);
    var s := AmountText(b) + v;
    assert s[|s| - 1] == v[|v| - 1];
    assert !Numeric(v[|v| - 1]);
  }

  lemma {:induction false} TokenBody(r: Reading, s: Reading)
    ensures Token(r) == Token(s) <==> Body(r) == Body(s)
  {
    TokenIs(r);
    TokenIs(s);
  }

  lemma {:induction false} TokenIs(r: Reading)
    ensures Token(r) == "interval(" + Body(r) + ")"
    ensures Token(r)[9..|Token(r)| - 1] == Body(r)
  {
  }

  /** A token tells readings apart. */
  lemma {:induction false} TokenSame(r: Reading, s: Reading)
    requires UnitOk(r) && UnitOk(s)
    ensures Token(r) == Token(s) <==> SameReading(r, s)
  {
    BodySame(r, s);
    TokenBody(r, s);
  }

  /** Two literals get one token exactly when they are read alike: equal numbers of
      seconds, equal counts of one unit, or the same unread text. */
  lemma {:induction false} TokensAgreeExactly(x: string, y: string)
    ensures IntervalToken(x) == IntervalToken(y) <==> SameReading(ReadLiteral(x), ReadLiteral(y))
  {
    ReadUnits(Lower(Strip(x)));
    ReadUnits(Lower(Strip(y)));
    TokenSame(ReadLiteral(x), ReadLiteral(y));
  }

  // ------------------------------------------------------- spellings of durations

  /** A number: digits, and a fraction when frac is not empty. */
  predicate NumberOk(whole: string, frac: string) {
    whole != "" && AllDigits(whole) && AllDigits(frac)
  }

  function Dotted(frac: string): string {
    if frac == "" then "" else "." + frac
  }

  function NumberOf(whole: string, frac: string): Decimal {
    Decimal(Value(whole + frac), |frac|)
  }

  /** Hours, minutes and seconds of an ISO duration; an empty field is absent. */
  datatype Time = Time(h: string, m: string, s: string, f: string)

  predicate TimeOk(t: Time) {
    AllDigits(t.h) && AllDigits(t.m) && AllDigits(t.s) && AllDigits(t.f) && (t.s == "" ==> t.f == "")
  }

  function SecondsPart(t: Time): string {
    if t.s == "" then "" else t.s + (Dotted(t.f) + "s")
  }

  function MinutesPart(t: Time): string {
    if t.m == "" then SecondsPart(t) else t.m + ("m" + SecondsPart(t))
  }

  function TimeText(t: Time): string {
    if t.h == "" then MinutesPart(t) else t.h + ("h" + MinutesPart(t))
  }

  function TimeValue(t: Time): Decimal {
    var whole := Value(t.h) * 3600 + Value(t.m) * 60;
    if t.s == "" then Decimal(whole, 0) else Plus(whole, NumberOf(t.s, t.f))
  }

  /** The names of fixed lengths of time. */
  predicate WeekName(u: string) {
    u == "week" || u == "weeks"
  }

  predicate DayName(u: string) {
    u == "day" || u == "days"
  }

  predicate HourName(u: string) {
    u == "hour" || u == "hours" || u == "hr" || u == "hrs"
  }

  predicate MinuteName(u: string) {
    u == "minute" || u == "minutes" || u == "min" || u == "mins"
  }

  predicate SecondName(u: string) {
    u == "second" || u == "seconds" || u == "sec" || u == "secs"
  }

  predicate FixedUnit(u: string) {
    WeekName(u) || DayName(u) || HourName(u) || MinuteName(u) || SecondName(u)
  }

  /** The length each name has, in seconds. */
  function UnitLength(u: string): nat
    requires FixedUnit(u)
  {
    if WeekName(u) then 7 * 24 * 60 * 60
    else if DayName(u) then 24 * 60 * 60
    else if HourName(u) then 60 * 60
    else if MinuteName(u) then 60
    else 1
  }

  /** The table holds these names with these lengths, and no others. */
  lemma {:induction false} UnitTable(u: string)
    ensures UnitSeconds(u) == if FixedUnit(u) then Some(UnitLength(u)) else None
  {
  }

  /** The spellings of a fixed duration. */
  datatype Spelling =
    | HoursMinutes(h: string, m: string)
    | HoursMinutesSeconds(h: string, m: string, s: string, f: string)
    | IsoDays(d: string, mark: string)
    | IsoDaysTime(d: string, mark: string, time: Time)
    | IsoTime(time: Time)
    | Count(whole: string, frac: string, gap: string, unit: string)
    | Bare(whole: string, frac: string)

  ghost predicate SpellingOk(p: Spelling) {
    match p
    case HoursMinutes(h, m) => h != "" && AllDigits(h) && AllDigits(m) && 1 <= |m| <= 2
    case HoursMinutesSeconds(h, m, s, f) =>
      h != "" && AllDigits(h) && AllDigits(m) && 1 <= |m| <= 2 && NumberOk(s, f) && |s| <= 2
    case IsoDays(d, mark) => d != "" && AllDigits(d) && (mark == "" || mark == "d")
    case IsoDaysTime(d, mark, time) => d != "" && AllDigits(d) && (mark == "" || mark == "d") && TimeOk(time)
    case IsoTime(time) => TimeOk(time) && TimeText(time) != ""
    case Count(whole, frac, gap, unit) =>
      NumberOk(whole, frac) && Blank(gap) && FixedUnit(unit)
    case Bare(whole, frac) => NumberOk(whole, frac)
  }

  function SpellOf(p: Spelling): string {
    match p
    case HoursMinutes(h, m) => h + (":" + m)
    case HoursMinutesSeconds(h, m, s, f) => h + (":" + (m + (":" + (s + Dotted(f)))))
    case IsoDays(d, mark) => "p" + (d + mark)
    case IsoDaysTime(d, mark, time) => "p" + (d + (mark + ("t" + TimeText(time))))
    case IsoTime(time) => "pt" + TimeText(time)
    case Count(whole, frac, gap, unit) => whole + (Dotted(frac) + (gap + unit))
    case Bare(whole, frac) => whole + Dotted(frac)
  }

  /** The seconds a spelling means. */
  ghost function Amount(p: Spelling): Decimal
    requires SpellingOk(p)
  {
    match p
    case HoursMinutes(h, m) => Decimal(Value(h) * 3600 + Value(m) * 60, 0)
    case HoursMinutesSeconds(h, m, s, f) => Plus(Value(h) * 3600 + Value(m) * 60, NumberOf(s, f))
    case IsoDays(d, _) => Decimal(Value(d) * 86400, 0)
    case IsoDaysTime(d, _, time) => Plus(Value(d) * 86400, TimeValue(time))
    case IsoTime(time) => TimeValue(time)
    case Count(whole, frac, _, unit) => Scale(NumberOf(whole, frac), UnitLength(unit))
    case Bare(whole, frac) => NumberOf(whole, frac)
  }

  /** Digits are split off whole. */
  lemma {:induction false} FirstOf(d: string, rest: string)
    requires AllDigits(d) && (rest == "" || !IsDigit(rest[0]))
    ensures First(d + rest) == d && Rest(d + rest) == rest
  {
    if d == "" {
      assert d + rest == rest;
    } else {
      assert (d + rest)[1..] == d[1..] + rest && d == [d[0]] + d[1..];
      FirstOf(d[1..], rest);
    }
  }

  lemma {:induction false} FieldFound(d: string, mark: char, rest: string, tail: string)
    requires d != "" && AllDigits(d) && !IsDigit(mark) && tail != "" && tail[0] == mark && tail[1..] == rest
    ensures Field(d + tail, mark) == Some(Lead(Decimal(Value(d), 0), rest))
  {
    FirstOf(d, tail);
  }

  lemma {:induction false} FieldMissing(d: string, rest: string, mark: char)
    requires AllDigits(d) && (rest == "" || (!IsDigit(rest[0]) && rest[0] != mark))
    ensures Field(d + rest, mark) == None
  {
    FirstOf(d, rest);
  }

  /** A number is read whole. */
  lemma {:induction false} NumberFound(whole: string, frac: string, rest: string)
    requires NumberOk(whole, frac) && (rest == "" || (!IsDigit(rest[0]) && rest[0] != '.'))
    ensures LeadingNumber(whole + (Dotted(frac) + rest)) == Some(Lead(NumberOf(whole, frac), rest))
    ensures First(whole + (Dotted(frac) + rest)) == whole
  {
    var tail := Dotted(frac) + rest;
    if frac == "" {
      assert tail == rest && whole + frac == whole;
      FirstOf(whole, rest);
    } else {
      assert tail[0] == '.' && tail[1..] == frac + rest;
      FirstOf(whole, tail);
      FirstOf(frac, rest);
    }
  }

  lemma {:induction false} DottedStarts(frac: string, rest: string, mark: char)
    requires AllDigits(frac) && mark != '.' && (rest == "" || (!IsDigit(rest[0]) && rest[0] != mark))
    ensures var tail := Dotted(frac) + rest; tail == "" || (!IsDigit(tail[0]) && tail[0] != mark)
  {
  }

  /** The optional fields are read back. */
  lemma {:induction false} TimeRead(t: Time)
    requires TimeOk(t)
    ensures TimePart(TimeText(t)) == Some(TimeValue(t))
  {
    TimeFields(t);
    var hours, minutes := Value(t.h), Value(t.m);
    FieldsJoin(TimeText(t), MinutesPart(t), SecondsPart(t), hours, minutes);
    SecondsRead(t, hours * 3600 + minutes * 60);
  }

  lemma {:induction false} FieldsJoin(x: string, y: string, z: string, hours: nat, minutes: nat)
    requires Field(x, 'h') == Some(Lead(Decimal(hours, 0), y)) || (Field(x, 'h') == None && x == y && hours == 0)
    requires Field(y, 'm') == Some(Lead(Decimal(minutes, 0), z)) || (Field(y, 'm') == None && y == z && minutes == 0)
    ensures TimePart(x) == IsoSeconds(hours * 3600 + minutes * 60, z)
  {
  }

  lemma {:induction false} SecondsRead(t: Time, minutes: nat)
    requires TimeOk(t)
    ensures IsoSeconds(minutes, SecondsPart(t)) ==
            Some(if t.s == "" then Decimal(minutes, 0) else Plus(minutes, NumberOf(t.s, t.f)))
  {
    if t.s != "" {
      NumberFound(t.s, t.f, "s");
    }
  }

  lemma {:induction false} TimeFields(t: Time)
    requires TimeOk(t)
    ensures Field(TimeText(t), 'h') == if t.h == "" then None else Some(Lead(Decimal(Value(t.h), 0), MinutesPart(t)))
    ensures Field(MinutesPart(t), 'm') == if t.m == "" then None else Some(Lead(Decimal(Value(t.m), 0), SecondsPart(t)))
  {
    SecondsField(t, 'h');
    SecondsField(t, 'm');
    if t.m != "" {
      FieldFound(t.m, 'm', SecondsPart(t), "m" + SecondsPart(t));
      FieldMissing(t.m, "m" + SecondsPart(t), 'h');
    }
    if t.h != "" {
      FieldFound(t.h, 'h', MinutesPart(t), "h" + MinutesPart(t));
    }
  }

  lemma {:induction false} SecondsField(t: Time, mark: char)
    requires TimeOk(t) && (mark == 'h' || mark == 'm')
    ensures Field(SecondsPart(t), mark) == None
  {
    if t.s != "" {
      DottedStarts(t.f, "s", mark);
      FieldMissing(t.s, Dotted(t.f) + "s", mark);
    }
  }

  // ------------------------------------------------------------ each spelling read

  lemma {:induction false} ClockRead(p: Spelling)
    requires SpellingOk(p) && p.HoursMinutes?
    ensures Read(SpellOf(p)) == Seconds(Amount(p))
  {
    FieldFound(p.h, ':', p.m, ":" + p.m);
    FirstOf(p.m, "");
    assert p.m + "" == p.m;
  }

  lemma {:induction false} FullClockRead(h: string, m: string, z: string, minutes: nat, total: Decimal)
    requires h != "" && AllDigits(h) && AllDigits(m) && 1 <= |m| <= 2
    requires minutes == Value(h) * 3600 + Value(m) * 60 && ClockSeconds(minutes, z) == Some(total)
    ensures Clock(h + (":" + (m + (":" + z)))) == Some(total)
  {
    var tail := ":" + z;
    FieldFound(h, ':', m + tail, ":" + (m + tail));
    MinutesRead(Value(h) * 3600, m, z, tail, minutes);
  }

  lemma {:induction false} ClockOnly(x: string)
    requires Clock(x).Some?
    ensures Read(x) == Seconds(Clock(x).value)
  {
  }

  lemma {:induction false} MinutesRead(hours: nat, m: string, z: string, tail: string, minutes: nat)
    requires AllDigits(m) && 1 <= |m| <= 2 && tail != "" && tail[0] == ':' && tail[1..] == z
    requires minutes == hours + Value(m) * 60
    ensures AfterHours(hours, m + tail) == ClockSeconds(minutes, z)
  {
    FirstOf(m, tail);
    MinutesSplit(hours, m + tail, m, tail, minutes);
  }

  lemma {:induction false} MinutesSplit(hours: nat, y: string, m: string, tail: string, minutes: nat)
    requires First(y) == m && Rest(y) == tail && 1 <= |m| <= 2 && tail != "" && tail[0] == ':'
    requires minutes == hours + Value(m) * 60
    ensures AfterHours(hours, y) == ClockSeconds(minutes, tail[1..])
  {
  }

  lemma {:induction false} ClockSecondsRead(p: Spelling, minutes: nat)
    requires SpellingOk(p) && p.HoursMinutesSeconds?
    ensures ClockSeconds(minutes, p.s + Dotted(p.f)) == Some(Plus(minutes, NumberOf(p.s, p.f)))
  {
    NumberFound(p.s, p.f, "");
    assert Dotted(p.f) + "" == Dotted(p.f);
  }

  lemma {:induction false} NoClock(x: string)
    requires x != "" && x[0] == 'p'
    ensures Clock(x) == None
  {
  }

  lemma {:induction false} IsoDaysRead(d: string, mark: string, tail: string)
    requires d != "" && AllDigits(d) && (mark == "" || mark == "d") && (tail == "" || tail[0] == 't')
    ensures var x := "p" + (d + (mark + tail));
            Clock(x) == None && Iso(x) ==
            if tail == "" then Some(Decimal(Value(d) * 86400, 0))
            else if TimePart(tail[1..]).Some? then Some(Plus(Value(d) * 86400, TimePart(tail[1..]).value))
            else None
  {
    var x := "p" + (d + (mark + tail));
    NoClock(x);
    assert x[1..] == d + (mark + tail) && x[1] == d[0];
    DaysRead(Value(d) * 86400, mark, tail);
    assert mark + tail != "" ==> (mark + tail)[0] == if mark == "" then tail[0] else mark[0];
    FirstOf(d, mark + tail);
  }

  lemma {:induction false} DaysRead(days: nat, mark: string, tail: string)
    requires (mark == "" || mark == "d") && (tail == "" || tail[0] == 't')
    ensures AfterDays(days, mark + tail) ==
            if tail == "" then Some(Decimal(days, 0))
            else if TimePart(tail[1..]).Some? then Some(Plus(days, TimePart(tail[1..]).value))
            else None
  {
    if mark == "" {
      assert mark + tail == tail;
    } else {
      assert (mark + tail)[0] == 'd' && (mark + tail)[1..] == tail;
    }
  }

  lemma {:induction false} IsoRead(p: Spelling)
    requires SpellingOk(p) && (p.IsoDays? || p.IsoDaysTime? || p.IsoTime?)
    ensures Read(SpellOf(p)) == Seconds(Amount(p))
  {
    match p
    case IsoDays(d, mark) =>
      IsoDaysRead(d, mark, "");
      assert mark + "" == mark;
    case IsoDaysTime(d, mark, time) =>
      var tail := "t" + TimeText(time);
      IsoDaysRead(d, mark, tail);
      assert tail[1..] == TimeText(time);
      TimeRead(time);
    case IsoTime(time) =>
      var x := SpellOf(p);
      NoClock(x);
      assert x[2..] == TimeText(time) && x != "pt";
      TimeRead(time);
  }

  lemma {:induction false} CountRead(whole: string, frac: string, rest: string)
    requires NumberOk(whole, frac)
    requires rest == "" || (!IsDigit(rest[0]) && rest[0] != '.' && rest[0] != ':')
    ensures var x := whole + (Dotted(frac) + rest);
            Clock(x) == None && Iso(x) == None && LeadingNumber(x) == Some(Lead(NumberOf(whole, frac), rest))
  {
    NumberFound(whole, frac, rest);
    DottedStarts(frac, rest, ':');
    FieldMissing(whole, Dotted(frac) + rest, ':');
    assert (whole + (Dotted(frac) + rest))[0] == whole[0];
  }

  lemma {:induction false} UnitRead(whole: string, frac: string, gap: string, unit: string)
    requires NumberOk(whole, frac) && Blank(gap) && unit != "" && AllLower(unit)
    ensures Read(whole + (Dotted(frac) + (gap + unit))) == InUnit(NumberOf(whole, frac), unit)
  {
    assert (gap + unit)[0] == if gap == "" then unit[0] else gap[0];
    CountRead(whole, frac, gap + unit);
    TrimLeftOf(gap, unit);
  }

  lemma {:induction false} UnitIsWord(unit: string)
    requires FixedUnit(unit)
    ensures unit != "" && AllLower(unit)
  {
  }

  /** Every spelling is read as the seconds it means. */
  lemma {:induction false} SpellingRead(p: Spelling)
    requires SpellingOk(p)
    ensures Read(SpellOf(p)) == Seconds(Amount(p))
  {
    match p
    case HoursMinutes(_, _) => ClockRead(p);
    case HoursMinutesSeconds(h, m, s, f) =>
      var minutes := Value(h) * 3600 + Value(m) * 60;
      ClockSecondsRead(p, minutes);
      FullClockRead(h, m, s + Dotted(f), minutes, Amount(p));
      ClockOnly(SpellOf(p));
    case IsoDays(_, _) => IsoRead(p);
    case IsoDaysTime(_, _, _) => IsoRead(p);
    case IsoTime(_) => IsoRead(p);
    case Count(whole, frac, gap, unit) =>
      UnitIsWord(unit);
      UnitTable(unit);
      UnitRead(whole, frac, gap, unit);
    case Bare(whole, frac) =>
      CountRead(whole, frac, "");
      assert Dotted(frac) + "" == Dotted(frac);
  }

  // ----------------------------------------------------------- equal durations

  predicate NoUpper(x: string) {
    forall k :: 0 <= k < |x| ==> !('A' <= x[k] <= 'Z')
  }

  lemma {:induction false} LowerSame(x: string)
    requires NoUpper(x)
    ensures Lower(x) == x
  {
  }

  /** No upper-case letters, no white space at the end. */
  predicate Ends(x: string) {
    NoUpper(x) && (x == "" || !IsSpace(x[|x| - 1]))
  }

  lemma {:induction false} JoinEnds(a: string, b: string)
    requires NoUpper(a) && Ends(b) && (b == "" ==> Ends(a))
    ensures Ends(a + b)
  {
  }

  lemma {:induction false} DottedEnds(frac: string)
    requires AllDigits(frac)
    ensures Ends(Dotted(frac))
  {
  }

  lemma {:induction false} TimeEnds(t: Time)
    requires TimeOk(t)
    ensures Ends(TimeText(t))
  {
    SecondsEnds(t);
    FieldEnds(t.m, "m", SecondsPart(t));
    FieldEnds(t.h, "h", MinutesPart(t));
  }

  lemma {:induction false} SecondsEnds(t: Time)
    requires TimeOk(t)
    ensures Ends(SecondsPart(t))
  {
    DottedEnds(t.f);
    JoinEnds(Dotted(t.f), "s");
    JoinEnds(t.s, Dotted(t.f) + "s");
  }

  lemma {:induction false} FieldEnds(digits: string, mark: string, x: string)
    requires AllDigits(digits) && |mark| == 1 && mark[0] in ":hm" && Ends(x)
    ensures Ends(digits + (mark + x))
  {
    JoinEnds(mark, x);
    JoinEnds(digits, mark + x);
  }

  lemma {:induction false} ClockEnds(h: string, m: string, s: string, f: string)
    requires AllDigits(h) && AllDigits(m) && AllDigits(s) && AllDigits(f)
    ensures Ends(h + (":" + m)) && Ends(h + (":" + (m + (":" + (s + Dotted(f))))))
  {
    var z := s + Dotted(f);
    DottedEnds(f);
    JoinEnds(s, Dotted(f));
    FieldEnds(m, ":", z);
    FieldEnds(h, ":", m + (":" + z));
    FieldEnds(h, ":", m);
  }

  lemma {:induction false} IsoEnds(d: string, mark: string, tail: string)
    requires AllDigits(d) && (mark == "" || mark == "d") && Ends(tail)
    ensures Ends("p" + (d + (mark + tail)))
  {
    JoinEnds(mark, tail);
    JoinEnds(d, mark + tail);
    JoinEnds("p", d + (mark + tail));
  }

  lemma {:induction false} CountEnds(whole: string, frac: string, gap: string, unit: string)
    requires AllDigits(whole) && AllDigits(frac) && Blank(gap) && unit != "" && AllLower(unit)
    ensures Ends(whole + (Dotted(frac) + (gap + unit)))
  {
    DottedEnds(frac);
    JoinEnds(gap, unit);
    JoinEnds(Dotted(frac), gap + unit);
    JoinEnds(whole, Dotted(frac) + (gap + unit));
  }

  lemma {:induction false} SpellingEnds(p: Spelling)
    requires SpellingOk(p)
    ensures Ends(SpellOf(p))
  {
    match p
    case HoursMinutes(h, m) => ClockEnds(h, m, "", "");
    case HoursMinutesSeconds(h, m, s, f) => ClockEnds(h, m, s, f);
    case IsoDays(d, mark) =>
      IsoEnds(d, mark, "");
      assert mark + "" == mark;
    case IsoDaysTime(d, mark, time) =>
      TimeEnds(time);
      JoinEnds("t", TimeText(time));
      IsoEnds(d, mark, "t" + TimeText(time));
    case IsoTime(time) =>
      TimeEnds(time);
      JoinEnds("pt", TimeText(time));
    case Count(whole, frac, gap, unit) =>
      UnitIsWord(unit);
      CountEnds(whole, frac, gap, unit);
    case Bare(whole, frac) =>
      DottedEnds(frac);
      JoinEnds(whole, Dotted(frac));
  }

  lemma {:induction false} SpellingBegins(p: Spelling)
    requires SpellingOk(p)
    ensures SpellOf(p) != "" && !IsSpace(SpellOf(p)[0])
  {
  }

  /** Two spellings of fixed durations get one token exactly when they mean equal
      numbers of seconds. */
  lemma {:induction false} SameDurationSameToken(p: Spelling, q: Spelling)
    requires SpellingOk(p) && SpellingOk(q)
    ensures IntervalToken(SpellOf(p)) == IntervalToken(SpellOf(q)) <==> Equal(Amount(p), Amount(q))
  {
    Spelled(p);
    Spelled(q);
    TokensAgreeExactly(SpellOf(p), SpellOf(q));
  }

  lemma {:induction false} Spelled(p: Spelling)
    requires SpellingOk(p)
    ensures Read(Lower(Strip(SpellOf(p)))) == Seconds(Amount(p))
  {
    SpellingEnds(p);
    SpellingBegins(p);
    StripTrimmed(SpellOf(p));
    LowerSame(SpellOf(p));
    SpellingRead(p);
  }

  // ------------------------------------------- nothing else is read as a duration

  lemma {:induction false} FirstRest(x: string)
    ensures x == First(x) + Rest(x) && AllDigits(First(x)) && (Rest(x) == "" || !IsDigit(Rest(x)[0]))
  {
    if x != "" && IsDigit(x[0]) {
      var y := x[1..];
      FirstRest(y);
      FirstStep(x, y, First(y), Rest(y));
    }
  }

  lemma {:induction false} FirstStep(x: string, y: string, d: string, rest: string)
    requires x != "" && IsDigit(x[0]) && y == x[1..] && y == d + rest && AllDigits(d)
    ensures x == ([x[0]] + d) + rest && AllDigits([x[0]] + d)
  {
    assert x == [x[0]] + y;
  }

  lemma {:induction false} LeadSplit(x: string) returns (whole: string, frac: string)
    requires LeadingNumber(x).Some?
    ensures NumberOk(whole, frac) && x == whole + (Dotted(frac) + LeadingNumber(x).value.rest) && whole == First(x)
  {
    var y := Rest(x);
    FirstRest(x);
    whole := First(x);
    if y != "" && y[0] == '.' && First(y[1..]) != "" {
      FirstRest(y[1..]);
      frac := First(y[1..]);
      assert y == "." + frac + Rest(y[1..]);
    } else {
      frac := "";
    }
  }

  lemma {:induction false} FieldSplit(x: string, mark: char)
    requires Field(x, mark).Some?
    ensures First(x) != "" && AllDigits(First(x)) && x == First(x) + ([mark] + Field(x, mark).value.rest)
  {
    FirstRest(x);
    assert Rest(x) == [mark] + Rest(x)[1..];
  }

  lemma {:induction false} TimeSplit(y: string) returns (t: Time)
    requires TimePart(y).Some?
    ensures TimeOk(t) && TimeText(t) == y
  {
    var h := Field(y, 'h');
    var y1 := if h.Some? then h.value.rest else y;
    var m := Field(y1, 'm');
    var z := if m.Some? then m.value.rest else y1;
    var s, f := SecondsSplit(z);
    if h.Some? {
      FieldSplit(y, 'h');
    }
    if m.Some? {
      FieldSplit(y1, 'm');
    }
    t := Time(if h.Some? then First(y) else "", if m.Some? then First(y1) else "", s, f);
    assert SecondsPart(t) == z;
    assert MinutesPart(t) == y1;
  }

  lemma {:induction false} SecondsSplit(z: string) returns (s: string, f: string)
    requires z == "" || (LeadingNumber(z).Some? && LeadingNumber(z).value.rest == "s")
    ensures AllDigits(s) && AllDigits(f) && (s == "" ==> f == "" && z == "") && (s != "" ==> z == s + (Dotted(f) + "s"))
  {
    s, f := "", "";
    if z != "" {
      s, f := LeadSplit(z);
    }
  }

  lemma {:induction false} ClockSplit(x: string) returns (p: Spelling)
    requires Clock(x).Some?
    ensures SpellingOk(p) && SpellOf(p) == x
  {
    FieldSplit(x, ':');
    var h, y := First(x), Field(x, ':').value.rest;
    FirstRest(y);
    var m, z := First(y), Rest(y);
    assert [':'] == ":";
    if z == "" {
      p := HoursMinutes(h, m);
      assert m + z == m;
    } else {
      var s, f := LeadSplit(z[1..]);
      p := HoursMinutesSeconds(h, m, s, f);
      assert z == ":" + z[1..];
      assert s + (Dotted(f) + "") == s + Dotted(f);
    }
  }

  lemma {:induction false} IsoSplit(x: string) returns (p: Spelling)
    requires Iso(x).Some?
    ensures SpellingOk(p) && SpellOf(p) == x
  {
    if |x| >= 2 && x[1] == 't' {
      var t := TimeSplit(x[2..]);
      p := IsoTime(t);
      assert x == "pt" + x[2..];
    } else {
      FirstRest(x[1..]);
      var d, y := First(x[1..]), Rest(x[1..]);
      p := DaysSplit(d, y);
      assert x == "p" + x[1..];
    }
  }

  lemma {:induction false} DaysSplit(d: string, y: string) returns (p: Spelling)
    requires d != "" && AllDigits(d) && AfterDays(Value(d) * 86400, y).Some?
    ensures SpellingOk(p) && SpellOf(p) == "p" + (d + y)
  {
    var mark, z := MarkSplit(y);
    if z == "" {
      p := IsoDays(d, mark);
      assert mark + z == mark;
    } else {
      var t := TimeSplit(z[1..]);
      p := IsoDaysTime(d, mark, t);
      assert z == "t" + z[1..];
    }
  }

  lemma {:induction false} MarkSplit(y: string) returns (mark: string, z: string)
    ensures (mark == "" || mark == "d") && y == mark + z
    ensures z == if y != "" && y[0] == 'd' then y[1..] else y
  {
    mark, z := "", y;
    if y != "" && y[0] == 'd' {
      mark, z := "d", y[1..];
    }
  }

  lemma {:induction false} CountSplit(x: string) returns (p: Spelling)
    requires Clock(x).None? && Iso(x).None? && Read(x).Seconds?
    ensures SpellingOk(p) && SpellOf(p) == x
  {
    var whole, frac := LeadSplit(x);
    var rest := LeadingNumber(x).value.rest;
    if rest == "" {
      p := Bare(whole, frac);
      assert Dotted(frac) + "" == Dotted(frac);
    } else {
      var gap, unit := GapSplit(rest);
      UnitTable(unit);
      p := Count(whole, frac, gap, unit);
    }
  }

  lemma {:induction false} GapSplit(rest: string) returns (gap: string, unit: string)
    ensures Blank(gap) && unit == TrimLeft(rest) && rest == gap + unit
  {
    unit := TrimLeft(rest);
    gap := rest[..|rest| - |unit|];
    TrimLeftShape(rest);
    assert rest == gap + unit;
  }

  /** A stripped, lower-case text is read as a duration exactly when it is one of the
      spellings, whole. */
  lemma {:induction false} SecondsExactly(x: string)
    ensures Read(x).Seconds? <==> exists p: Spelling :: SpellingOk(p) && SpellOf(p) == x
  {
    if Read(x).Seconds? {
      var p;
      if Clock(x).Some? {
        p := ClockSplit(x);
      } else if Iso(x).Some? {
        p := IsoSplit(x);
      } else {
        p := CountSplit(x);
      }
      assert SpellingOk(p) && SpellOf(p) == x;
    }
    forall p: Spelling | SpellingOk(p) && SpellOf(p) == x
      ensures Read(x).Seconds?
    {
      SpellingRead(p);
    }
  }

  /** It is read as a number of some other unit exactly when it is a number and a
      lower-case word; all else is kept as it is. */
  lemma {:induction false} NamedExactly(x: string)
    ensures Read(x).Named? <==> exists whole, frac, gap, unit :: UnitText(x, whole, frac, gap, unit) && !FixedUnit(unit)
    ensures Read(x).Raw? ==> Read(x) == Raw(x)
  {
    if Read(x).Named? {
      var whole, frac := LeadSplit(x);
      var rest := LeadingNumber(x).value.rest;
      var gap, unit := GapSplit(rest);
      UnitTable(unit);
      assert UnitText(x, whole, frac, gap, unit);
    }
    forall whole, frac, gap, unit | UnitText(x, whole, frac, gap, unit) && !FixedUnit(unit)
      ensures Read(x).Named?
    {
      UnitRead(whole, frac, gap, unit);
      UnitTable(unit);
    }
  }

  ghost predicate UnitText(x: string, whole: string, frac: string, gap: string, unit: string) {
    && NumberOk(whole, frac) && Blank(gap) && unit != "" && AllLower(unit)
    && x == whole + (Dotted(frac) + (gap + unit))
  }

  // --------------------------------------------------- durations as real numbers

  /** units / 10^places, place by place. */
  function RealOf(d: Decimal): real
    decreases d.places
  {
    if d.places == 0 then d.units as real else RealOf(Decimal(d.units, d.places - 1)) / 10.0
  }

  lemma {:induction false} TenthTimes(x: real, p: real)
    ensures (x / 10.0) * (10.0 * p) == x * p
  {
  }

  lemma {:induction false} RealTimes(d: Decimal)
    ensures RealOf(d) * Pow10(d.places) as real == d.units as real
    decreases d.places
  {
    if d.places > 0 {
      RealTimes(Decimal(d.units, d.places - 1));
      TenthTimes(RealOf(Decimal(d.units, d.places - 1)), Pow10(d.places - 1) as real);
    }
  }

  lemma {:induction false} Product(a: nat, b: nat)
    ensures (a * b) as real == a as real * b as real
  {
  }

  lemma {:induction false} Cross(x: real, p: real, y: real, q: real)
    requires p > 0.0 && q > 0.0
    ensures (x * p) * q == (y * q) * p <==> x == y
  {
    assert (x * p) * q == x * (p * q) && (y * q) * p == y * (p * q);
    if x * (p * q) == y * (p * q) {
      assert (x - y) * (p * q) == 0.0;
    }
  }

  lemma {:induction false} EqualReal(a: Decimal, b: Decimal)
    ensures Equal(a, b) <==> RealOf(a) == RealOf(b)
  {
    EqualCross(a, b, Pow10(a.places), Pow10(b.places), RealOf(a), RealOf(b));
  }

  lemma {:induction false} TimesIs(d: Decimal, p: nat, x: real)
    requires p == Pow10(d.places) && x == RealOf(d)
    ensures x * p as real == d.units as real
  {
    RealTimes(d);
  }

  lemma {:induction false} EqualCross(a: Decimal, b: Decimal, p: nat, q: nat, x: real, y: real)
    requires p == Pow10(a.places) && q == Pow10(b.places) && x == RealOf(a) && y == RealOf(b)
    ensures Equal(a, b) <==> x == y
  {
    TimesIs(a, p, x);
    TimesIs(b, q, y);
    CrossWhole(x, a.units, p, y, b.units, q);
  }

  lemma {:induction false} CrossWhole(x: real, m: nat, p: nat, y: real, n: nat, q: nat)
    requires p > 0 && q > 0 && x * p as real == m as real && y * q as real == n as real
    ensures m * q == n * p <==> x == y
  {
    var a, b, c, d := p as real, q as real, m as real, n as real;
    Product(m, q);
    Product(n, p);
    Cross(x, a, y, b);
    assert (x * a) * b == c * b;
    assert (y * b) * a == d * a;
  }

  lemma {:induction false} PlusReal(whole: nat, d: Decimal)
    ensures RealOf(Plus(whole, d)) == whole as real + RealOf(d)
    decreases d.places
  {
    if d.places > 0 {
      PlusReal(10 * whole, Decimal(d.units, d.places - 1));
      Tenfold(whole, Pow10(d.places - 1));
    }
  }

  lemma {:induction false} ScaleReal(d: Decimal, factor: nat)
    ensures RealOf(Scale(d, factor)) == factor as real * RealOf(d)
    decreases d.places
  {
    if d.places == 0 {
      Product(factor, d.units);
    } else {
      ScaleReal(Decimal(d.units, d.places - 1), factor);
    }
  }

  lemma {:induction false} WholeReal(n: nat)
    ensures RealOf(Decimal(n, 0)) == n as real
  {
  }

  /** The number that digits and the digits of a fraction spell. */
  function Spelled10(whole: string, frac: string): real {
    Value(whole) as real + RealOf(Decimal(Value(frac), |frac|))
  }

  lemma {:induction false} ValueConcat(a: string, b: string)
    ensures Value(a + b) == Value(a) * Pow10(|b|) + Value(b)
    decreases |b|
  {
    if b == "" {
      assert a + b == a;
    } else {
      var n := |b| - 1;
      assert (a + b)[..|a + b| - 1] == a + b[..n];
      ValueConcat(a, b[..n]);
      Tenfold(Value(a), Pow10(n));
    }
  }

  lemma {:induction false} NumberReal(whole: string, frac: string)
    ensures RealOf(NumberOf(whole, frac)) == Spelled10(whole, frac)
  {
    NumberPlus(whole, frac);
    SumReal(NumberOf(whole, frac), Value(whole), Decimal(Value(frac), |frac|));
  }

  lemma {:induction false} SumReal(sum: Decimal, whole: nat, d: Decimal)
    requires sum == Plus(whole, d)
    ensures RealOf(sum) == whole as real + RealOf(d)
  {
    PlusReal(whole, d);
  }

  lemma {:induction false} NumberPlus(whole: string, frac: string)
    ensures NumberOf(whole, frac) == Plus(Value(whole), Decimal(Value(frac), |frac|))
  {
    ValueConcat(whole, frac);
  }

  /** The hours, minutes and seconds of an ISO time; an absent field counts nothing. */
  function TimeLength(t: Time): real {
    (60 * (60 * Value(t.h) + Value(t.m))) as real + Spelled10(t.s, t.f)
  }

  /** How many seconds a spelling means. */
  ghost function Duration(p: Spelling): real
    requires SpellingOk(p)
  {
    match p
    case HoursMinutes(h, m) => (60 * (60 * Value(h) + Value(m))) as real
    case HoursMinutesSeconds(h, m, s, f) => (60 * (60 * Value(h) + Value(m))) as real + Spelled10(s, f)
    case IsoDays(d, _) => (24 * 60 * 60 * Value(d)) as real
    case IsoDaysTime(d, _, time) => (24 * 60 * 60 * Value(d)) as real + TimeLength(time)
    case IsoTime(time) => TimeLength(time)
    case Count(whole, frac, _, unit) => UnitLength(unit) as real * Spelled10(whole, frac)
    case Bare(whole, frac) => Spelled10(whole, frac)
  }

  lemma {:induction false} TimeReal(t: Time)
    requires TimeOk(t)
    ensures RealOf(TimeValue(t)) == TimeLength(t)
  {
    var whole := Value(t.h) * 3600 + Value(t.m) * 60;
    NumberReal(t.s, t.f);
    PlusReal(whole, NumberOf(t.s, t.f));
    WholeReal(whole);
  }

  lemma {:induction false} AmountReal(p: Spelling)
    requires SpellingOk(p)
    ensures RealOf(Amount(p)) == Duration(p)
  {
    match p
    case HoursMinutes(h, m) => WholeReal(Value(h) * 3600 + Value(m) * 60);
    case HoursMinutesSeconds(h, m, s, f) => LaterReal(Value(h) * 3600 + Value(m) * 60, NumberOf(s, f), s, f);
    case IsoDays(d, _) => WholeReal(Value(d) * 86400);
    case IsoDaysTime(d, _, time) =>
      TimeReal(time);
      PlusReal(Value(d) * 86400, TimeValue(time));
    case IsoTime(time) => TimeReal(time);
    case Count(whole, frac, _, unit) =>
      NumberReal(whole, frac);
      ScaleReal(NumberOf(whole, frac), UnitLength(unit));
    case Bare(whole, frac) => NumberReal(whole, frac);
  }

  lemma {:induction false} LaterReal(minutes: nat, d: Decimal, s: string, f: string)
    requires d == NumberOf(s, f)
    ensures RealOf(Plus(minutes, d)) == minutes as real + Spelled10(s, f)
  {
    NumberReal(s, f);
    PlusReal(minutes, d);
  }

  /** Two spellings get one token exactly when they mean the same duration. */
  lemma {:induction false} SameLengthSameToken(p: Spelling, q: Spelling)
    requires SpellingOk(p) && SpellingOk(q)
    ensures IntervalToken(SpellOf(p)) == IntervalToken(SpellOf(q)) <==> Duration(p) == Duration(q)
  {
    SameDurationSameToken(p, q);
    AmountReal(p);
    AmountReal(q);
    EqualReal(Amount(p), Amount(q));
  }

  // ----------------------------------------------------------- units, name by name

  /** A count of a unit has the token of as many of its seconds, whatever the unit. */
  lemma {:induction false} UnitMeans(n: string, k: string, unit: string, second: string)
    requires n != "" && AllDigits(n) && k != "" && AllDigits(k) && FixedUnit(unit) && SecondName(second)
    ensures IntervalToken(n + (" " + unit)) == IntervalToken(k + (" " + second)) <==> Value(k) == Value(n) * UnitLength(unit)
  {
    SecondLength(second);
    PlainCount(n, unit);
    PlainCount(k, second);
    SameDurationSameToken(Count(n, "", " ", unit), Count(k, "", " ", second));
    CountsEqual(Decimal(Value(n), 0), UnitLength(unit), Decimal(Value(k), 0));
  }

  lemma {:induction false} SecondLength(u: string)
    requires SecondName(u)
    ensures FixedUnit(u) && UnitLength(u) == 1
  {
  }

  lemma {:induction false} CountsEqual(a: Decimal, f: nat, b: Decimal)
    requires a.places == 0 && b.places == 0
    ensures Equal(Scale(a, f), Scale(b, 1)) <==> b.units == a.units * f
  {
  }

  lemma {:induction false} PlainCount(n: string, unit: string)
    ensures SpellOf(Count(n, "", " ", unit)) == n + (" " + unit) && NumberOf(n, "") == Decimal(Value(n), 0)
  {
    assert Dotted("") + (" " + unit) == " " + unit && n + "" == n;
  }

  /** Minutes and days in both notations. */
  lemma {:induction false} MinutesMeetIso(n: string, minutes: string)
    requires n != "" && AllDigits(n) && MinuteName(minutes)
    ensures IntervalToken(n + (" " + minutes)) == IntervalToken("pt" + (n + "m"))
  {
    var p, q := Count(n, "", " ", minutes), IsoTime(Time("", n, "", ""));
    NameLength(minutes);
    CountMeans(p, n, minutes, 60);
    IsoMinutes(q, n);
    SameDurationSameToken(p, q);
  }

  lemma {:induction false} DaysMeetIso(n: string, days: string)
    requires n != "" && AllDigits(n) && DayName(days)
    ensures IntervalToken(n + (" " + days)) == IntervalToken("p" + (n + "d"))
  {
    var p, q := Count(n, "", " ", days), IsoDays(n, "d");
    NameLength(days);
    CountMeans(p, n, days, 86400);
    IsoWholeDays(q, n);
    SameDurationSameToken(p, q);
  }

  lemma {:induction false} NameLength(u: string)
    requires MinuteName(u) || DayName(u)
    ensures FixedUnit(u) && UnitLength(u) == if DayName(u) then 86400 else 60
  {
  }

  lemma {:induction false} CountMeans(p: Spelling, n: string, unit: string, length: nat)
    requires p == Count(n, "", " ", unit) && n != "" && AllDigits(n) && FixedUnit(unit) && UnitLength(unit) == length
    ensures SpellingOk(p) && SpellOf(p) == n + (" " + unit) && Amount(p) == Decimal(Value(n) * length, 0)
  {
    PlainCount(n, unit);
    ScaledWhole(Value(n), length);
  }

  lemma {:induction false} IsoMinutes(p: Spelling, n: string)
    requires p == IsoTime(Time("", n, "", "")) && n != "" && AllDigits(n)
    ensures SpellingOk(p) && SpellOf(p) == "pt" + (n + "m") && Amount(p) == Decimal(Value(n) * 60, 0)
  {
    assert "m" + "" == "m" && TimeText(p.time) == n + "m";
  }

  lemma {:induction false} IsoWholeDays(p: Spelling, n: string)
    requires p == IsoDays(n, "d") && n != "" && AllDigits(n)
    ensures SpellingOk(p) && SpellOf(p) == "p" + (n + "d") && Amount(p) == Decimal(Value(n) * 86400, 0)
  {
  }

  lemma {:induction false} ScaledWhole(n: nat, f: nat)
    ensures Scale(Decimal(n, 0), f) == Decimal(n * f, 0)
  {
  }

  /** Digits without leading zeros are the text of their value. */
  lemma {:induction false} DigitsOfValue(n: string)
    requires n != "" && AllDigits(n) && (|n| == 1 || n[0] != '0')
    ensures Digits(Value(n)) == n
    decreases |n|
  {
    var k := |n| - 1;
    if k == 0 {
      assert n[..0] == "" && n == [n[0]];
    } else {
      DigitsOfValue(n[..k]);
      assert n == n[..k] + [n[k]];
      LeadingDigit(n[..k]);
    }
  }

  lemma {:induction false} LeadingDigit(n: string)
    requires n != "" && AllDigits(n) && n[0] != '0'
    ensures Value(n) >= 1
  {
    if |n| == 1 {
      assert n[..0] == "";
    } else {
      LeadingDigit(n[..|n| - 1]);
    }
  }

  /** Whole seconds are printed as they are. */
  lemma {:induction false} SecondsAreText(n: string, second: string)
    requires n != "" && AllDigits(n) && (|n| == 1 || n[0] != '0') && SecondName(second)
    ensures IntervalToken(n + (" " + second)) == "interval(" + n + ")"
  {
    var p := Count(n, "", " ", second);
    SecondLength(second);
    PlainCount(n, second);
    Spelled(p);
    DigitsOfValue(n);
    assert Amount(p) == Decimal(Value(n), 0);
    assert Digits(Value(n)) + "" == n;
  }

  /** Margins and the case of letters do not matter. */
  lemma {:induction false} MarginsAndCase(m1: string, x: string, m2: string, y: string)
    requires Blank(m1) && Blank(m2) && Trimmed(x) && Trimmed(y) && Lower(x) == Lower(y)
    ensures IntervalToken(m1 + x + m2) == IntervalToken(y)
  {
    StripOf(m1, x, m2);
    StripTrimmed(y);
  }

  /** The example of the documentation. */
  lemma {:induction false} FiveMinutes(five: string, clock: string, seconds: string)
    requires five == "5 minutes" && clock == "00:05:00" && seconds == "300 seconds"
    ensures IntervalToken(five) == IntervalToken(clock) == IntervalToken(seconds) == "interval(300)"
  {
    var minutes, second := "minutes", "seconds";
    MinuteAndSecond(minutes, second);
    FiveSpelled(five, clock, seconds, "5", "05", "00", "300", minutes, second);
    SmallValues("5", "05", "00", "300");
    FiveUnits("5", "300", minutes, second);
    ClockAre("05", "00", "300", second);
    SecondsAreText("300", second);
  }

  lemma {:induction false} MinuteAndSecond(minutes: string, second: string)
    requires minutes == "minutes" && second == "seconds"
    ensures MinuteName(minutes) && SecondName(second) && UnitLength(minutes) == 60
  {
  }

  lemma {:induction false} FiveSpelled(five: string, clock: string, seconds: string, a: string, b: string, c: string, d: string,
                                       minutes: string, second: string)
    requires five == "5 minutes" && clock == "00:05:00" && seconds == "300 seconds"
    requires a == "5" && b == "05" && c == "00" && d == "300" && minutes == "minutes" && second == "seconds"
    ensures five == a + (" " + minutes) && seconds == d + (" " + second) && clock == c + (":" + (b + (":" + (c + ""))))
    ensures "interval(300)" == "interval(" + d + ")"
    ensures AllDigits(a) && AllDigits(b) && AllDigits(c) && AllDigits(d) && d[0] != '0'
  {
  }

  lemma {:induction false} FiveUnits(a: string, d: string, minutes: string, second: string)
    requires AllDigits(a) && AllDigits(d) && a != "" && d != "" && Value(a) == 5 && Value(d) == 300
    requires MinuteName(minutes) && SecondName(second) && UnitLength(minutes) == 60
    ensures IntervalToken(a + (" " + minutes)) == IntervalToken(d + (" " + second))
  {
    UnitMeans(a, d, minutes, second);
  }

  lemma {:induction false} ClockAre(b: string, c: string, d: string, second: string)
    requires AllDigits(b) && AllDigits(c) && AllDigits(d) && |b| == 2 && |c| == 2 && |d| == 3 && SecondName(second)
    requires Value(b) == 5 && Value(c) == 0 && Value(d) == 300
    ensures IntervalToken(c + (":" + (b + (":" + (c + ""))))) == IntervalToken(d + (" " + second))
  {
    var p, q := HoursMinutesSeconds(c, b, c, ""), Count(d, "", " ", second);
    SecondLength(second);
    CountMeans(q, d, second, 1);
    ClockMeans(p, c, b, 5);
    SameDurationSameToken(p, q);
  }

  lemma {:induction false} ClockMeans(p: Spelling, c: string, b: string, minutes: nat)
    requires p == HoursMinutesSeconds(c, b, c, "") && AllDigits(b) && AllDigits(c) && |b| == 2 && |c| == 2
    requires Value(c) == 0 && Value(b) == minutes
    ensures SpellingOk(p) && SpellOf(p) == c + (":" + (b + (":" + (c + "")))) && Amount(p) == Decimal(60 * minutes, 0)
  {
    assert Dotted("") == "" && c + "" == c;
  }

  lemma {:induction false} SmallValues(a: string, b: string, c: string, d: string)
    requires a == "5" && b == "05" && c == "00" && d == "300"
    ensures Value(a) == 5 && Value(b) == 5 && Value(c) == 0 && Value(d) == 300
  {
    OneDigit("5");
    OneDigit("0");
    OneDigit("3");
    assert b[..1] == "0" && c[..1] == "0" && d[..2][..1] == "3";
    assert Value(d[..2]) == 30;
  }

  lemma {:induction false} OneDigit(a: string)
    requires |a| == 1 && IsDigit(a[0])
    ensures Value(a) == a[0] as nat - '0' as nat
  {
    assert a[..0] == "" && Value(a[..0]) == 0;
  }

  // ---------------------------------------------------------- calendar and unknown

  predicate MonthName(u: string) {
    u == "mon" || u == "mons" || u == "month" || u == "months"
  }

  predicate YearName(u: string) {
    u == "year" || u == "years" || u == "yr"
  }

  /** What follows a whole number in the token: one suffix for all names of a month,
      one for all names of a year, the word itself for any other. */
  function Suffix(u: string): string {
    if MonthName(u) then "mon" else if YearName(u) then "yr" else u
  }

  lemma {:induction false} CalendarRead(n: string, unit: string)
    requires n != "" && AllDigits(n) && unit != "" && AllLower(unit) && !FixedUnit(unit)
    ensures ReadLiteral(n + (" " + unit)) == Named(NumberOf(n, ""), Suffix(unit))
  {
    UnitOf(n, " " + unit, unit);
    UnitTable(unit);
    assert NumberOf(n, "").places == 0;
  }

  /** Whole numbers of such units get one token exactly when the numbers are equal and
      the units are one; months never meet years, nor either a fixed duration. */
  lemma {:induction false} CalendarExactly(n: string, u: string, k: string, v: string)
    requires n != "" && AllDigits(n) && u != "" && AllLower(u) && !FixedUnit(u)
    requires k != "" && AllDigits(k) && v != "" && AllLower(v)
    ensures IntervalToken(n + (" " + u)) == IntervalToken(k + (" " + v)) <==>
            Value(n) == Value(k) && !FixedUnit(v) && Suffix(u) == Suffix(v)
  {
    CalendarRead(n, u);
    TokensAgreeExactly(n + (" " + u), k + (" " + v));
    assert n + "" == n && k + "" == k;
    if FixedUnit(v) {
      PlainCount(k, v);
      Spelled(Count(k, "", " ", v));
    } else {
      CalendarRead(k, v);
    }
    WholeEqual(NumberOf(n, ""), NumberOf(k, ""));
  }

  /** A fraction of a calendar unit keeps the word it is spelled with. */
  lemma {:induction false} FractionKeepsUnit(whole: string, frac: string, unit: string)
    requires NumberOk(whole, frac) && unit != "" && AllLower(unit) && !FixedUnit(unit)
    requires Reduce(NumberOf(whole, frac)).places > 0
    ensures Read(whole + (Dotted(frac) + (" " + unit))) == Named(NumberOf(whole, frac), unit)
  {
    UnitRead(whole, frac, " ", unit);
    UnitTable(unit);
  }

  /** A clock field of three digits or none is no clock: the text is kept as it is. */
  lemma {:induction false} BadClockKept(h: string, m: string)
    requires h != "" && AllDigits(h) && AllDigits(m) && |m| != 1 && |m| != 2
    ensures Read(h + (":" + m)) == Raw(h + (":" + m))
  {
    var x, y := h + (":" + m), ":" + m;
    FieldFound(h, ':', m, y);
    FirstOf(m, "");
    assert m + "" == m;
    FirstOf(h, y);
    assert y[0] == ':' && x[0] == h[0] && TrimLeft(y) == y;
  }

  /** The letters of an ISO time alone are no duration. */
  lemma {:induction false} EmptyIsoKept(x: string)
    requires x == "pt" || x == "p"
    ensures Read(x) == Raw(x)
  {
    NoClock(x);
    assert x[1..] == if x == "p" then "" else "t";
  }

  /** Hours come first in a two-field clock, although the documentation in the
      source says minutes: "05:00" is five hours. */
  lemma {:induction false} TwoFieldsAreHours(n: string, m: string)
    requires n != "" && AllDigits(n) && m == "00"
    ensures IntervalToken(n + (":" + m)) == IntervalToken(n + " hours")
  {
    var p, q := HoursMinutes(n, m), Count(n, "", " ", "hours");
    assert Value(m) == 0 by {
      assert m[..1] == "0" && Value("0") == 0;
    }
    assert n + "" == n && Dotted("") + (" " + "hours") == " hours";
    SameDurationSameToken(p, q);
  }

  /** A two-field clock has the token of so many seconds exactly when they are its
      hours and minutes. */
  lemma {:induction false} TwoFieldsExactly(h: string, m: string, n: string)
    requires h != "" && AllDigits(h) && AllDigits(m) && 1 <= |m| <= 2 && n != "" && AllDigits(n)
    ensures IntervalToken(h + (":" + m)) == IntervalToken(n + " seconds") <==> Value(n) == 3600 * Value(h) + 60 * Value(m)
  {
    var p, q := HoursMinutes(h, m), Count(n, "", " ", "seconds");
    assert n + "" == n && Dotted("") + (" " + "seconds") == " seconds";
    SameDurationSameToken(p, q);
    WholeEqual(Amount(p), Amount(q));
  }

  lemma {:induction false} WholeEqual(x: Decimal, y: Decimal)
    requires x.places == 0 && y.places == 0
    ensures Equal(x, y) <==> x.units == y.units
  {
  }

  /** The documented reading, minutes and seconds, is met by no clock but zero. */
  lemma {:induction false} MinutesSecondsExactly(h: string, m: string, n: string)
    requires h != "" && AllDigits(h) && AllDigits(m) && 1 <= |m| <= 2 && n != "" && AllDigits(n)
    requires Value(n) == 60 * Value(h) + Value(m)
    ensures IntervalToken(h + (":" + m)) == IntervalToken(n + " seconds") <==> Value(h) == 0 && Value(m) == 0
  {
    TwoFieldsExactly(h, m, n);
  }

  /** A whole number of "yr", which the unit table does not list, meets "year". */
  lemma {:induction false} YrIsYear(n: string, yr: string, year: string)
    requires n != "" && AllDigits(n) && yr == " yr" && year == " year"
    ensures IntervalToken(n + yr) == IntervalToken(n + year) == Token(Named(NumberOf(n, ""), "yr"))
  {
    UnitOf(n, yr, "yr");
    UnitOf(n, year, "year");
    YearUnit(NumberOf(n, ""));
  }

  lemma {:induction false} YearUnit(d: Decimal)
    requires d.places == 0
    ensures InUnit(d, "yr") == InUnit(d, "year") == Named(d, "yr")
  {
  }

  lemma {:induction false} UnitOf(n: string, rest: string, unit: string)
    requires n != "" && AllDigits(n) && unit != "" && AllLower(unit) && rest == " " + unit
    ensures Read(Lower(Strip(n + rest))) == InUnit(NumberOf(n, ""), unit)
  {
    UnitRead(n, "", " ", unit);
    assert Dotted("") + (" " + unit) == rest;
    JoinEnds(" ", unit);
    JoinEnds(n, rest);
    assert (n + rest)[0] == n[0];
    StripTrimmed(n + rest);
    LowerSame(n + rest);
  }
}
