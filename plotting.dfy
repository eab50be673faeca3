/**
 * The pure helpers of resources/plotting.py: the interval option of
 * `streamplot` (`_parse_interval` and the band it selects), the components
 * `decompositionplot` draws (`att_gen`) and its column count and figure
 * width, and the `nlags` check of `autocorrplot`.
 */
module Plotting {
  import opened Wrappers
  import opened Strings

  /** The exception a refused argument raises. */
  datatype PlotError = ValueError | AssertionError

  /**
   * The groups of a match of `([1-3])?(sigma|robust)`: the optional digit
   * and the word.
   */
  datatype IntervalSpec = IntervalSpec(count: Option<char>, kind: string)

  /** A spec the pattern can produce. */
  predicate ValidSpec(spec: IntervalSpec)
  {
    && (spec.count.Some? ==> spec.count.value in {'1', '2', '3'})
    && spec.kind in {"sigma", "robust"}
  }

  /** The text a spec is matched from. */
  function Render(spec: IntervalSpec): string
  {
    (if spec.count.Some? then [spec.count.value] else "") + spec.kind
  }

  /** The alternation `(sigma|robust)` at the start of `s`. */
  function MatchKind(s: string): Option<string>
  {
    if StartsWith(s, "sigma") then Some("sigma")
    else if StartsWith(s, "robust") then Some("robust")
    else None
  }

  /**
   * `re.match(r'([1-3])?(sigma|robust)', s)`: the optional digit is tried
   * first, and dropped when the word does not follow it.
   */
  function MatchInterval(s: string): (r: Option<IntervalSpec>)
    ensures r.Some? ==> ValidSpec(r.value)
    ensures MatchKind(s).Some? ==> r.Some?
  {
    if |s| > 0 && s[0] in {'1', '2', '3'} && MatchKind(s[1..]).Some? then
      Some(IntervalSpec(Some(s[0]), MatchKind(s[1..]).value))
    else
      match MatchKind(s)
      case Some(kind) => Some(IntervalSpec(None, kind))
      case None => None
  }

  /**
   * `_parse_interval`: None stays None; a text the pattern does not match at
   * its start raises ValueError.
   */
  function ParseInterval(interval: Option<string>): (r: Result<Option<IntervalSpec>, PlotError>)
    ensures interval.None? ==> r == Ok(None)
    ensures interval.Some? ==> r != Ok(None)
    ensures r.Ok? && r.value.Some? ==> ValidSpec(r.value.value)
    ensures r.Err? ==> r.error == ValueError
  {
    match interval
    case None => Ok(None)
    case Some(s) =>
      match MatchInterval(s)
      case Some(spec) => Ok(Some(spec))
      case None => Err(ValueError)
  }

  /** A parsed spec is one the pattern allows, and the text starts with it. */
  lemma ParseIntervalSound(s: string)
    requires ParseInterval(Some(s)).Ok?
    ensures ParseInterval(Some(s)).value.Some?
    ensures var spec := ParseInterval(Some(s)).value.value;
      ValidSpec(spec) && StartsWith(s, Render(spec))
  {
    var spec := ParseInterval(Some(s)).value.value;
    if spec.count.Some? {
      assert s == [s[0]] + s[1..];
      assert s[..|Render(spec)|] == [s[0]] + s[1..][..|spec.kind|];
    }
  }

  lemma KindsExclusive(s: string)
    ensures !(StartsWith(s, "sigma") && StartsWith(s, "robust"))
  {
    if StartsWith(s, "sigma") {
      assert s[0] == 's';
    }
  }

  /**
   * Every text that starts with an allowed spec parses to that spec, so
   * whatever follows it is ignored.
   */
  lemma ParseIntervalComplete(s: string, spec: IntervalSpec)
    requires ValidSpec(spec) && StartsWith(s, Render(spec))
    ensures ParseInterval(Some(s)) == Ok(Some(spec))
  {
    KindsExclusive(s);
    if spec.count.Some? {
      assert s[0] == Render(spec)[0];
      assert StartsWith(s[1..], spec.kind) by {
        assert s[1..][..|spec.kind|] == s[..|Render(spec)|][1..];
      }
      KindsExclusive(s[1..]);
    } else {
      assert Render(spec) == spec.kind;
      assert s[0] == spec.kind[0];
    }
  }

  /** A text raises exactly when it starts with no allowed spec. */
  lemma ParseIntervalRejects(s: string, spec: IntervalSpec)
    ensures ParseInterval(Some(s)).Err? && ValidSpec(spec) ==> !StartsWith(s, Render(spec))
    ensures ParseInterval(Some(s)).Ok? ==> exists p :: ValidSpec(p) && StartsWith(s, Render(p))
  {
    if ValidSpec(spec) && StartsWith(s, Render(spec)) {
      ParseIntervalComplete(s, spec);
    }
    if ParseInterval(Some(s)).Ok? {
      ParseIntervalSound(s);
    }
  }

  /** Only a prefix has to match: "2sigmaXYZ" gives ('2', 'sigma'). */
  lemma ParseIntervalAccepts()
    ensures ParseInterval(None) == Ok(None)
    ensures ParseInterval(Some("2sigmaXYZ")) == Ok(Some(IntervalSpec(Some('2'), "sigma")))
    ensures ParseInterval(Some("robust")) == Ok(Some(IntervalSpec(None, "robust")))
  {
    var s := "2sigmaXYZ";
    assert s[..6] == "2sigma";
    ParseIntervalComplete(s, IntervalSpec(Some('2'), "sigma"));
    ParseIntervalComplete("robust", IntervalSpec(None, "robust"));
  }

  /** A text that starts with neither word nor a digit 1-3 followed by one raises. */
  lemma RejectedWhenNoWord(s: string)
    requires !StartsWith(s, "sigma") && !StartsWith(s, "robust")
    requires |s| > 0 ==> s[0] !in {'1', '2', '3'} || (!StartsWith(s[1..], "sigma") && !StartsWith(s[1..], "robust"))
    ensures ParseInterval(Some(s)) == Err(ValueError)
  {
  }

  /** "4sigma", "12sigma", "Sigma" and "" raise ValueError. */
  lemma ParseIntervalRefuses()
    ensures ParseInterval(Some("4sigma")) == Err(ValueError)
    ensures ParseInterval(Some("12sigma")) == Err(ValueError)
    ensures ParseInterval(Some("Sigma")) == Err(ValueError)
    ensures ParseInterval(Some("")) == Err(ValueError)
  {
    var a, b, c := "4sigma", "12sigma", "Sigma";
    assert a[0] == '4';
    RejectedWhenNoWord(a);
    assert b[0] == '1' && b[1..][0] == '2';
    RejectedWhenNoWord(b);
    assert c[0] == 'S';
    RejectedWhenNoWord(c);
    RejectedWhenNoWord("");
  }

  /** The value of a decimal digit. */
  function DigitValue(c: char): (v: int)
    requires IsDigit(c)
    ensures 0 <= v <= 9
  {
    c as int - '0' as int
  }

  /**
   * The band `streamplot` shades around the mean of the series: the mean
   * plus and minus `multiplier` sample standard deviations, or the 5 % and
   * 95 % quantiles.
   */
  datatype Band = SigmaBand(multiplier: nat) | QuantileBand(lower: real, upper: real)

  /**
   * The band for a parsed spec: "sigma" scales by its digit, 1 when there is
   * none, so the multiplier is 1, 2 or 3; "robust" takes the quantile band.
   */
  function BandOf(spec: IntervalSpec): (b: Band)
    requires ValidSpec(spec)
    ensures b.SigmaBand? <==> spec.kind == "sigma"
    ensures b.SigmaBand? ==> 1 <= b.multiplier <= 3
    ensures b.SigmaBand? && spec.count.None? ==> b.multiplier == 1
    ensures b.QuantileBand? ==> 0.0 < b.lower < b.upper < 1.0
    ensures b.SigmaBand? && spec.count.Some? ==> b.multiplier == DigitValue(spec.count.value)
    ensures spec.kind == "robust" ==> b == QuantileBand(0.05, 0.95)
  {
    if spec.kind == "sigma" then
      SigmaBand(if spec.count.None? then 1 else DigitValue(spec.count.value))
    else
      QuantileBand(0.05, 0.95)
  }

  /** The digit written before "sigma" is the multiplier the band uses. */
  lemma SigmaMultiplierRoundTrip(n: nat, rest: string)
    requires 1 <= n <= 3
    ensures var s := [('0' as int + n) as char] + "sigma" + rest;
      && ParseInterval(Some(s)).Ok? && ParseInterval(Some(s)).value.Some?
      && BandOf(ParseInterval(Some(s)).value.value) == SigmaBand(n)
  {
    var c := ('0' as int + n) as char;
    var spec := IntervalSpec(Some(c), "sigma");
    var s := [c] + "sigma" + rest;
    assert s[..|Render(spec)|] == Render(spec);
    ParseIntervalComplete(s, spec);
  }

  /** The number of flags set. */
  function CountTrue(flags: seq<bool>): nat
  {
    if flags == [] then 0 else Bit(flags[0]) + CountTrue(flags[1..])
  }

  /**
   * The names in `names` whose flag is set, in their order: a `for` ... `yield`
   * over a zip. One name is yielded per flag set.
   */
  function Select(names: seq<string>, flags: seq<bool>): (r: seq<string>)
    requires |names| == |flags|
    ensures |r| == CountTrue(flags)
    ensures |r| <= |names|
    ensures forall x :: x in r <==> exists i :: 0 <= i < |names| && names[i] == x && flags[i]
  {
    if names == [] then []
    else
      var rest := Select(names[1..], flags[1..]);
      assert forall i :: 0 < i < |names| ==> names[i] == names[1..][i - 1] && flags[i] == flags[1..][i - 1];
      (if flags[0] then [names[0]] else []) + rest
  }

  /** `rank` increases strictly along `xs`. */
  predicate Increasing(xs: seq<string>, rank: string -> int)
  {
    forall i, j :: 0 <= i < j < |xs| ==> rank(xs[i]) < rank(xs[j])
  }

  /**
   * The selection keeps the order of `names`: when `rank` increases along
   * `names`, it increases strictly along the result, so no name is yielded
   * twice.
   */
  lemma {:induction false} SelectKeepsOrder(names: seq<string>, flags: seq<bool>, rank: string -> int)
    requires |names| == |flags|
    requires Increasing(names, rank)
    ensures Increasing(Select(names, flags), rank)
  {
    if names != [] {
      var tail := names[1..];
      assert forall i :: 0 <= i < |tail| ==> tail[i] == names[i + 1];
      assert Increasing(tail, rank);
      SelectKeepsOrder(tail, flags[1..], rank);
      var rest := Select(tail, flags[1..]);
      var r := Select(names, flags);
      if flags[0] {
        assert r == [names[0]] + rest;
        forall i, j | 0 <= i < j < |r| ensures rank(r[i]) < rank(r[j]) {
          assert r[j] == rest[j - 1] && r[j] in rest;
          if i == 0 {
            var k :| 0 <= k < |tail| && tail[k] == r[j] && flags[1..][k];
            assert tail[k] == names[k + 1];
          } else {
            assert r[i] == rest[i - 1];
          }
        }
      } else {
        assert r == rest;
      }
    }
  }

  /** `att_gen(trend, seasonal, residual)`. */
  function AttGen(trend: bool, seasonal: bool, residual: bool): (a: seq<string>)
    ensures |a| <= 3
    ensures forall x :: x in a ==> x == "trend" || x == "seasonal" || x == "resid"
  {
    Select(["trend", "seasonal", "resid"], [trend, seasonal, residual])
  }

  /** The place of a component in the fixed order trend, seasonal, resid. */
  function Rank(name: string): nat
  {
    if name == "trend" then 0 else if name == "seasonal" then 1 else 2
  }

  function Bit(b: bool): nat
  {
    if b then 1 else 0
  }

  /**
   * `att_gen` yields exactly the enabled components, each once, in the
   * fixed order.
   */
  lemma AttGenSelects(trend: bool, seasonal: bool, residual: bool)
    ensures var a := AttGen(trend, seasonal, residual);
      && ("trend" in a <==> trend)
      && ("seasonal" in a <==> seasonal)
      && ("resid" in a <==> residual)
      && (forall x :: x in a ==> x in {"trend", "seasonal", "resid"})
      && |a| == Bit(trend) + Bit(seasonal) + Bit(residual)
      && forall i, j :: 0 <= i < j < |a| ==> Rank(a[i]) < Rank(a[j])
  {
    var names := ["trend", "seasonal", "resid"];
    var flags := [trend, seasonal, residual];
    assert names[1..] == ["seasonal", "resid"] && names[2..] == ["resid"] && names[3..] == [];
    assert flags[1..] == [seasonal, residual] && flags[2..] == [residual] && flags[3..] == [];
    var t := if trend then ["trend"] else [];
    var s := if seasonal then ["seasonal"] else [];
    var r := if residual then ["resid"] else [];
    assert Select(names[2..], flags[2..]) == r;
    assert Select(names[1..], flags[1..]) == s + r;
    var a := AttGen(trend, seasonal, residual);
    assert a == t + s + r;
    assert "trend"[0] == 't' && "seasonal"[0] == 's' && "resid"[0] == 'r';
    assert Rank("trend") == 0 && Rank("seasonal") == 1 && Rank("resid") == 2;
  }

  /**
   * `ncols` of `decompositionplot`: two columns when the trend or the
   * seasonal component is drawn, one more for the residual.
   */
  function NCols(trend: bool, seasonal: bool, residual: bool): (n: nat)
    ensures n <= 3
    ensures n % 2 == 1 <==> residual
    ensures n >= 2 <==> trend || seasonal
  {
    Bit(trend || seasonal) * 2 + Bit(residual)
  }

  /** The figure width, which gives every grid column 4 inches. */
  function FigureWidth(trend: bool, seasonal: bool, residual: bool): (w: nat)
    ensures w == 4 * NCols(trend, seasonal, residual)
  {
    8 * Bit(trend || seasonal) + 4 * Bit(residual)
  }

  /** The Python values `nlags` may be given as. */
  datatype PyValue = Str(s: string) | Int(i: int) | Bool(b: bool) | Float(f: real) | NoneValue

  /** `isinstance(v, int)`: a bool is an int in Python. */
  predicate IsInt(v: PyValue)
  {
    v.Int? || v.Bool?
  }

  function AsInt(v: PyValue): int
    requires IsInt(v)
  {
    if v.Int? then v.i else Bit(v.b)
  }

  /**
   * The assertion of `autocorrplot` on `nlags` and the lag count it then
   * draws: "auto" draws one more lag than there are coefficients, a
   * positive integer draws that many; anything else fails the assertion.
   */
  function Lags(nlags: PyValue, coefficients: nat): (r: Result<nat, PlotError>)
    ensures r.Ok? <==> nlags == Str("auto") || (nlags.Int? && nlags.i > 0) || nlags == Bool(true)
    ensures r.Ok? ==> r.value >= 1
    ensures nlags == Str("auto") ==> r == Ok(coefficients + 1)
    ensures nlags.Int? && nlags.i > 0 ==> r == Ok(nlags.i)
    ensures nlags == Bool(true) ==> r == Ok(1)
    ensures r.Err? ==> r.error == AssertionError
  {
    if nlags == Str("auto") then Ok(coefficients + 1)
    else if IsInt(nlags) && AsInt(nlags) > 0 then Ok(AsInt(nlags))
    else Err(AssertionError)
  }
}
