/** Kubernetes resource quantities: `parse_quantity` of multistack/core/minio.py, over exact rationals. */
module Quantity {
  import opened Collections

  const UNITS: map<string, nat> := map[
    "" := 1,
    "K" := 1000, "M" := 1000000, "G" := 1000000000, "T" := 1000000000000, "P" := 1000000000000000,
    "Ki" := 1024, "Mi" := 1048576, "Gi" := 1073741824, "Ti" := 1099511627776, "Pi" := 1125899906842624
  ]

  /** Character kinds of the quantity pattern. */
  datatype Kind = Digit | Numeric | Space

  predicate Is(c: char, kind: Kind) {
    match kind
    case Digit => '0' <= c <= '9'
    case Numeric => '0' <= c <= '9' || c == '.'
    case Space => c == ' ' || '\t' <= c <= '\r' || '\U{1c}' <= c <= '\U{1f}'
  }

  predicate All(s: string, kind: Kind) {
    forall i | 0 <= i < |s| :: Is(s[i], kind)
  }

  /** Length of the longest prefix of characters of one kind. */
  function Span(s: string, kind: Kind): (n: nat)
    ensures n <= |s| && All(s[..n], kind) && (n < |s| ==> !Is(s[n], kind))
  {
    if s == [] || !Is(s[0], kind) then 0 else 1 + Span(s[1..], kind)
  }

  function Strip(s: string): (r: string) {
    StripRight(s[Span(s, Space)..])
  }

  function StripRight(s: string): (r: string) {
    if s != [] && Is(s[|s| - 1], Space) then StripRight(s[..|s| - 1]) else s
  }

  function DigitOf(c: char): (d: nat) {
    if Is(c, Digit) then (c - '0') as nat else 0
  }

  function Shift(n: nat, digit: nat): nat {
    10 * n + digit
  }

  function Decimal(digits: string): (n: nat) {
    if digits == [] then 0
    else Shift(Decimal(digits[..|digits| - 1]), DigitOf(digits[|digits| - 1]))
  }

  /** `n * 10^places`. */
  function Scale(n: nat, places: nat): (r: nat) {
    if places == 0 then n else 10 * Scale(n, places - 1)
  }

  /** Digits with at most one point among them, as a numerator over a power of ten. */
  function Number(s: string): (r: Option<(nat, nat)>) {
    var n := Span(s, Digit);
    var fraction := if n < |s| then s[n + 1..] else [];
    if !All(fraction, Digit) || s[..n] + fraction == [] then None
    else Some((Decimal(s[..n] + fraction), |fraction|))
  }

  /** `x / 10^places`, truncated. */
  function Chop(x: nat, places: nat): (r: nat) {
    if places == 0 then x else Chop(x / 10, places - 1)
  }

  function Scaled(number: (nat, nat), unit: nat): nat {
    Chop(number.0 * unit, number.1)
  }

  /** The pattern's three parts are told apart by their character classes; any failure is a ValueError. */
  function ParseWith(s: string, units: map<string, nat>): (r: Option<nat>) {
    var t := Strip(s);
    var n := Span(t, Numeric);
    var m := n + Span(t[n..], Space);
    if t[m..] !in units || Number(t[..n]).None? then None
    else Some(Scaled(Number(t[..n]).value, units[t[m..]]))
  }

  function Parse(s: string): (r: Option<nat>) {
    ParseWith(s, UNITS)
  }

  /*** reading back what was written ***/

  function Render(n: nat): (s: string)
    ensures s != [] && All(s, Digit)
  {
    if n < 10 then ['0' + n as char] else Render(n / 10) + ['0' + (n % 10) as char]
  }

  lemma {:induction false} RenderReads(n: nat)
    ensures Decimal(Render(n)) == n
  {
    if n >= 10 {
      RenderReads(n / 10);
      var s := Render(n);
      assert s[..|s| - 1] == Render(n / 10);
    }
  }

  lemma {:induction false} SpanOf(prefix: string, rest: string, kind: Kind)
    requires All(prefix, kind) && (rest == [] || !Is(rest[0], kind))
    ensures Span(prefix + rest, kind) == |prefix|
  {
    if prefix == [] {
      assert prefix + rest == rest;
    } else {
      assert (prefix + rest)[1..] == prefix[1..] + rest;
      SpanOf(prefix[1..], rest, kind);
    }
  }

  lemma {:induction false} StripRightOf(s: string, padding: string)
    requires All(padding, Space) && (s == [] || !Is(s[|s| - 1], Space))
    ensures StripRight(s + padding) == s
  {
    if padding == [] {
      assert s + padding == s;
    } else {
      var all := s + padding;
      assert all[|all| - 1] == padding[|padding| - 1] && all[..|all| - 1] == s + padding[..|padding| - 1];
      StripRightOf(s, padding[..|padding| - 1]);
    }
  }

  lemma {:induction false} StripOf(before: string, s: string, behind: string)
    requires All(before, Space) && All(behind, Space)
    requires s != [] && !Is(s[0], Space) && !Is(s[|s| - 1], Space)
    ensures Strip(before + s + behind) == s
  {
    assert before + s + behind == before + (s + behind);
    assert (s + behind)[0] == s[0];
    SpanOf(before, s + behind, Space);
    assert (before + (s + behind))[|before|..] == s + behind;
    StripRightOf(s, behind);
  }

  predicate Fits(unit: string) {
    unit == [] || (!Is(unit[0], Numeric) && !Is(unit[0], Space) && !Is(unit[|unit| - 1], Space))
  }

  lemma {:induction false} UnitsFit(unit: string)
    requires unit in UNITS
    ensures Fits(unit)
  {
  }

  /** A numeral, spaces and a unit are told apart again, whatever surrounds them. */
  lemma {:induction false} PartsOf(before: string, number: string, gap: string, unit: string, behind: string)
    requires All(before, Space) && All(gap, Space) && All(behind, Space)
    requires number != [] && All(number, Numeric) && Fits(unit) && (unit == "" ==> gap == "")
    ensures
      var t := Strip(before + (number + gap + unit) + behind);
      var n := Span(t, Numeric);
      n == |number| && t[..n] == number && t[n + Span(t[n..], Space)..] == unit
  {
    var t := number + gap + unit;
    assert t[0] == number[0] && Is(number[0], Numeric);
    assert Is(number[|number| - 1], Numeric);
    assert t[|t| - 1] == if unit == [] then number[|number| - 1] else unit[|unit| - 1];
    StripOf(before, t, behind);
    assert t == number + (gap + unit);
    assert gap != [] ==> (gap + unit)[0] == gap[0] && Is(gap[0], Space);
    SpanOf(number, gap + unit, Numeric);
    assert t[|number|..] == gap + unit;
    SpanOf(gap, unit, Space);
    assert t[|number| + |gap|..] == unit;
  }

  lemma {:induction false} ParseParts(before: string, number: string, gap: string, unit: string, behind: string,
                                      units: map<string, nat>)
    requires All(before, Space) && All(gap, Space) && All(behind, Space)
    requires number != [] && All(number, Numeric) && unit in units && Fits(unit) && (unit == "" ==> gap == "")
    ensures
      ParseWith(before + (number + gap + unit) + behind, units)
      == if Number(number).None? then None else Some(Scaled(Number(number).value, units[unit]))
  {
    PartsOf(before, number, gap, unit, behind);
  }

  /** Writing n units, with spaces anywhere the syntax admits them, reads back as n times the unit's bytes. */
  lemma {:induction false} WholeReadsBack(before: string, n: nat, gap: string, unit: string, behind: string)
    requires All(before, Space) && All(gap, Space) && All(behind, Space)
    requires unit in UNITS && (unit == "" ==> gap == "")
    ensures Parse(before + (Render(n) + gap + unit) + behind) == Some(n * UNITS[unit])
  {
    UnitsFit(unit);
    WholeNumber(n);
    ParseParts(before, Render(n), gap, unit, behind, UNITS);
  }

  /** A decimal fraction reads as the whole part plus the fraction's share of the unit, truncated to bytes. */
  lemma {:induction false} FractionReadsBack(n: nat, fraction: string, unit: string)
    requires All(fraction, Digit) && unit in UNITS
    ensures
      Parse(Point(Render(n), fraction) + unit)
      == Some(n * UNITS[unit] + Scaled((Decimal(fraction), |fraction|), UNITS[unit]))
  {
    UnitsFit(unit);
    PointReadsBack(n, fraction, unit, UNITS);
  }

  lemma {:induction false} PointReadsBack(n: nat, fraction: string, unit: string, units: map<string, nat>)
    requires All(fraction, Digit) && unit in units && Fits(unit)
    ensures
      ParseWith(Point(Render(n), fraction) + unit, units)
      == Some(n * units[unit] + Scaled((Decimal(fraction), |fraction|), units[unit]))
  {
    PointParse(Render(n), fraction, unit, units);
    PointValue(n, fraction, units[unit]);
  }

  lemma {:induction false} PointParse(whole: string, fraction: string, unit: string, units: map<string, nat>)
    requires whole != [] && All(whole, Digit) && All(fraction, Digit) && unit in units && Fits(unit)
    ensures
      ParseWith(Point(whole, fraction) + unit, units)
      == Some(Scaled((Decimal(whole + fraction), |fraction|), units[unit]))
  {
    PointNumeric(whole, fraction);
    PointNumber(whole, fraction);
    BareParse(Point(whole, fraction), unit, units);
  }

  lemma {:induction false} BareParse(number: string, unit: string, units: map<string, nat>)
    requires number != [] && All(number, Numeric) && unit in units && Fits(unit) && Number(number).Some?
    ensures ParseWith(number + unit, units) == Some(Scaled(Number(number).value, units[unit]))
  {
    Unpadded(number, unit);
    ParseParts([], number, [], unit, [], units);
  }

  lemma {:induction false} Unpadded(number: string, unit: string)
    ensures [] + (number + [] + unit) + [] == number + unit
  {
  }

  lemma {:induction false} WholeNumber(n: nat)
    ensures Number(Render(n)) == Some((n, 0))
  {
    assert Render(n) + [] == Render(n);
    SpanOf(Render(n), [], Digit);
    RenderReads(n);
  }

  lemma {:induction false} PointValue(n: nat, fraction: string, u: nat)
    ensures
      Scaled((Decimal(Render(n) + fraction), |fraction|), u) == n * u + Scaled((Decimal(fraction), |fraction|), u)
  {
    RenderReads(n);
    DecimalAppend(Render(n), fraction);
    WholePlusFraction(Decimal(Render(n) + fraction), n, Decimal(fraction), u, |fraction|);
  }

  function Point(whole: string, fraction: string): (s: string) {
    whole + "." + fraction
  }

  lemma {:induction false} PointNumeric(whole: string, fraction: string)
    requires All(whole, Digit) && All(fraction, Digit)
    ensures All(Point(whole, fraction), Numeric)
  {
    var s := Point(whole, fraction);
    forall i | 0 <= i < |s| ensures Is(s[i], Numeric) {
      assert s[i] == if i < |whole| then whole[i] else if i == |whole| then '.' else fraction[i - |whole| - 1];
    }
  }

  lemma {:induction false} PointNumber(whole: string, fraction: string)
    requires whole != [] && All(whole, Digit) && All(fraction, Digit)
    ensures Number(Point(whole, fraction)) == Some((Decimal(whole + fraction), |fraction|))
  {
    var number := Point(whole, fraction);
    assert number == whole + ("." + fraction);
    SpanOf(whole, "." + fraction, Digit);
    assert number[|whole| + 1..] == fraction && number[..|whole|] == whole;
  }

  lemma {:induction false} DecimalAppend(a: string, b: string)
    ensures Decimal(a + b) == Scale(Decimal(a), |b|) + Decimal(b)
  {
    if b == [] {
      assert a + b == a;
    } else {
      var all, init := a + b, b[..|b| - 1];
      assert all[|all| - 1] == b[|b| - 1] && all[..|all| - 1] == a + init;
      DecimalAppend(a, init);
    }
  }

  lemma {:induction false} WholePlusFraction(v: nat, n: nat, d: nat, u: nat, places: nat)
    requires v == Scale(n, places) + d
    ensures Scaled((v, places), u) == n * u + Scaled((d, places), u)
  {
    ScaleTimes(n, u, places);
    assert v * u == Scale(n, places) * u + d * u;
    ChopSum(n * u, d * u, places);
  }

  lemma {:induction false} ScaleTimes(n: nat, u: nat, places: nat)
    ensures Scale(n, places) * u == Scale(n * u, places)
  {
    if places > 0 {
      ScaleTimes(n, u, places - 1);
      TenTimes(Scale(n, places - 1), u);
    }
  }

  lemma {:induction false} TenTimes(x: nat, u: nat)
    ensures (10 * x) * u == 10 * (x * u)
  {
  }

  lemma {:induction false} ChopSum(m: nat, y: nat, places: nat)
    ensures Chop(Scale(m, places) + y, places) == m + Chop(y, places)
  {
    if places > 0 {
      var q := Scale(m, places - 1);
      assert (10 * q + y) / 10 == q + y / 10;
      ChopSum(m, y / 10, places - 1);
    }
  }
}
