/**
 * The bootstrap engine of resources/utils.py (class `Bootstrap`).
 *
 * The global numpy random source is replaced by the indices it would draw,
 * one sequence per round, passed to `Feed`; `est_class().fit(...)` followed
 * by `getattr(est, attrs)` is an arbitrary function from the resampled arrays
 * to either an exception or the fitted object's numeric attributes by name.
 * Each input array is a sequence of rows of one element type `T`.
 */
module Resampling {
  import opened Wrappers
  import opened Statistics

  /** What `est_class().fit(*arrays)` leaves behind: it raised, or the fitted object's attributes. */
  datatype Fit = Raised | Fitted(attributes: map<string, real>)

  /** The exceptions with which `feed` can stop. */
  datatype Error =
    | NoInput                  // `args[0]` on an empty argument list (IndexError)
    | IndexOutOfBounds         // a drawn index past the end of a shorter array (IndexError)
    | FitRaised                // the estimator's `fit` raised
    | MissingAttribute         // the fitted object has no attribute `attrs` (AttributeError)
    | TransformRaised          // the transformation raised on the fitted attribute
    | QuantileLevelOutOfRange  // alpha/2 or 1 - alpha/2 outside [0, 1] (ValueError from np.quantile)
    | EmptyResults             // np.quantile of an empty result list (IndexError)

  /** The `stat` field: not yet assigned, NaN (np.mean of an empty list), or the mean. */
  datatype Stat = Unset | NaN | Value(mean: real)

  /** The outcome of the rounds of one `feed`: the statistics collected, and the exception that stopped them, if any. */
  datatype Run = Run(results: seq<real>, failure: Option<Error>)

  /** A sequence `np.random.choice(np.arange(n), n, replace=True)` can return. */
  ghost predicate ValidDraw(idx: seq<nat>, n: nat)
  {
    |idx| == n && forall i :: 0 <= i < |idx| ==> idx[i] < n
  }

  /** Number of iterations of `range(n)`. */
  function RangeLength(n: int): nat
  {
    if n > 0 then n else 0
  }

  /**
   * `_transform`: the default transformation, which returns its argument.
   * A transformation is a function to `Option<real>`, None when it raises.
   */
  function Identity(x: real): (r: Option<real>)
    ensures r.Some? && r.value == x
  {
    Some(x)
  }

  /** The transformation `__init__` keeps: the one given, or `_transform` when None is given. */
  function Transformation(transformation: Option<real -> Option<real>>): (f: real -> Option<real>)
    ensures transformation.Some? ==> f == transformation.value
    ensures transformation.None? ==> forall x :: f(x) == Some(x)
  {
    if transformation.Some? then transformation.value else Identity
  }

  /** `arg[idx]` with numpy integer-array indexing: IndexError (None) when an index is past the end. */
  function Reindex<T>(arg: seq<T>, idx: seq<nat>): (r: Option<seq<T>>)
    ensures r.Some? <==> forall i :: 0 <= i < |idx| ==> idx[i] < |arg|
    ensures r.Some? ==> |r.value| == |idx|
    ensures r.Some? ==> forall i :: 0 <= i < |idx| ==> r.value[i] == arg[idx[i]]
  {
    if idx == [] then Some([])
    else
      match Reindex(arg, idx[1..])
      case None => None
      case Some(rest) => if idx[0] < |arg| then Some([arg[idx[0]]] + rest) else None
  }

  /**
   * `_bootstrap_data` once the indices are drawn: every input array
   * re-indexed by the same index sequence, so that rows stay aligned.
   * It fails exactly when some index is past the end of some array; an
   * array longer than the first is not an error.
   */
  function BootstrapData<T>(args: seq<seq<T>>, idx: seq<nat>): (r: Option<seq<seq<T>>>)
    ensures r.Some? <==> forall k, i :: 0 <= k < |args| && 0 <= i < |idx| ==> idx[i] < |args[k]|
    ensures r.Some? ==> |r.value| == |args|
    ensures r.Some? ==> forall k :: 0 <= k < |args| ==> |r.value[k]| == |idx|
    ensures r.Some? ==> forall k, i :: 0 <= k < |args| && 0 <= i < |idx| ==> r.value[k][i] == args[k][idx[i]]
  {
    if args == [] then Some([])
    else
      match (Reindex(args[0], idx), BootstrapData(args[1..], idx))
      case (Some(first), Some(rest)) =>
        assert forall k :: 1 <= k < |args| ==> args[k] == args[1..][k - 1];
        Some([first] + rest)
      case (None, _) => None
      case (_, None) =>
        assert forall k :: 1 <= k < |args| ==> args[k] == args[1..][k - 1];
        None
  }

  /**
   * For a batch of equal-length arrays and a valid draw, the resample has one
   * array per input, each of the same length n, and row i of every output is
   * row idx[i] of its input, an index in [0, n).
   */
  lemma BootstrapDataAligned<T>(args: seq<seq<T>>, idx: seq<nat>)
    requires args != [] && ValidDraw(idx, |args[0]|)
    requires forall k :: 0 <= k < |args| ==> |args[k]| == |args[0]|
    ensures BootstrapData(args, idx).Some?
    ensures var out := BootstrapData(args, idx).value;
      |out| == |args| &&
      forall k :: 0 <= k < |args| ==>
        |out[k]| == |args[0]| &&
        forall i :: 0 <= i < |idx| ==> idx[i] < |args[0]| && out[k][i] == args[k][idx[i]]
  {
  }

  /** Lines 34-36 of one round: resample, fit a fresh estimator, read the attribute. */
  function FittedAttribute<T>(estimator: seq<seq<T>> -> Fit, attrs: string, args: seq<seq<T>>, idx: seq<nat>): (r: Result<real, Error>)
    ensures r == Err(NoInput) <==> args == []
    ensures r.Ok? ==> BootstrapData(args, idx).Some?
    ensures r.Err? ==> r.error != TransformRaised
  {
    if args == [] then Err(NoInput)
    else
      match BootstrapData(args, idx)
      case None => Err(IndexOutOfBounds)
      case Some(batch) =>
        match estimator(batch)
        case Raised => Err(FitRaised)
        case Fitted(attributes) => if attrs in attributes then Ok(attributes[attrs]) else Err(MissingAttribute)
  }

  /** One whole round, lines 34-37: the fitted attribute passed through the transformation, which may raise. */
  function RoundStat<T>(estimator: seq<seq<T>> -> Fit, attrs: string, transform: real -> Option<real>,
                        args: seq<seq<T>>, idx: seq<nat>): (r: Result<real, Error>)
    ensures var att := FittedAttribute(estimator, attrs, args, idx);
      && (att.Err? ==> r == Err(att.error))
      && (r == Err(TransformRaised) <==> att.Ok? && transform(att.value).None?)
      && (r.Ok? ==> att.Ok? && transform(att.value) == Some(r.value))
  {
    match FittedAttribute(estimator, attrs, args, idx)
    case Ok(att) => if transform(att).Some? then Ok(transform(att).value) else Err(TransformRaised)
    case Err(e) => Err(e)
  }

  /** The rounds of one `feed`, one per draw, stopping at the first exception. */
  function RunRounds<T>(estimator: seq<seq<T>> -> Fit, attrs: string, transform: real -> Option<real>,
                        args: seq<seq<T>>, draws: seq<seq<nat>>): (run: Run)
    ensures |run.results| <= |draws|
    ensures run.failure.None? ==> |run.results| == |draws|
    decreases |draws|
  {
    if draws == [] then Run([], None)
    else
      match RoundStat(estimator, attrs, transform, args, draws[0])
      case Err(e) => Run([], Some(e))
      case Ok(v) =>
        var rest := RunRounds(estimator, attrs, transform, args, draws[1..]);
        Run([v] + rest.results, rest.failure)
  }

  /**
   * Entry k of the results is the statistic of round k; without an exception
   * there is one entry per round, and with one, the entries are exactly the
   * rounds completed before the failing round, which is not retried.
   */
  lemma {:induction false} RunRoundsResults<T>(estimator: seq<seq<T>> -> Fit, attrs: string, transform: real -> Option<real>,
                                               args: seq<seq<T>>, draws: seq<seq<nat>>)
    ensures var run := RunRounds(estimator, attrs, transform, args, draws);
      && |run.results| <= |draws|
      && (forall k :: 0 <= k < |run.results| ==> RoundStat(estimator, attrs, transform, args, draws[k]) == Ok(run.results[k]))
      && (run.failure.None? ==> |run.results| == |draws|)
      && (run.failure.Some? ==>
            |run.results| < |draws| &&
            RoundStat(estimator, attrs, transform, args, draws[|run.results|]) == Err(run.failure.value))
    decreases |draws|
  {
    if draws != [] {
      RunRoundsResults(estimator, attrs, transform, args, draws[1..]);
      var run := RunRounds(estimator, attrs, transform, args, draws);
      var rest := RunRounds(estimator, attrs, transform, args, draws[1..]);
      if RoundStat(estimator, attrs, transform, args, draws[0]).Ok? {
        forall k | 1 <= k < |run.results|
          ensures RoundStat(estimator, attrs, transform, args, draws[k]) == Ok(run.results[k])
        {
          assert run.results[k] == rest.results[k - 1] && draws[k] == draws[1..][k - 1];
        }
        if run.failure.Some? {
          assert draws[|run.results|] == draws[1..][|rest.results|];
        }
      }
    }
  }

  /** Unfolds the rounds that start at round r. */
  lemma RunRoundsStep<T>(estimator: seq<seq<T>> -> Fit, attrs: string, transform: real -> Option<real>,
                         args: seq<seq<T>>, draws: seq<seq<nat>>, r: nat)
    requires r < |draws|
    ensures RunRounds(estimator, attrs, transform, args, draws[r..]) ==
      match RoundStat(estimator, attrs, transform, args, draws[r])
      case Err(e) => Run([], Some(e))
      case Ok(v) =>
        var rest := RunRounds(estimator, attrs, transform, args, draws[r + 1..]);
        Run([v] + rest.results, rest.failure)
  {
    assert draws[r..][0] == draws[r] && draws[r..][1..] == draws[r + 1..];
  }

  /** Without a transformation every stored result is the raw attribute of its round. */
  lemma IdentityKeepsAttribute<T>(estimator: seq<seq<T>> -> Fit, attrs: string,
                                  args: seq<seq<T>>, draws: seq<seq<nat>>)
    ensures var run := RunRounds(estimator, attrs, Transformation(None), args, draws);
      forall k :: 0 <= k < |run.results| && k < |draws| ==> FittedAttribute(estimator, attrs, args, draws[k]) == Ok(run.results[k])
  {
    RunRoundsResults(estimator, attrs, Transformation(None), args, draws);
  }

  /** The `stat` that `_process_results` assigns: np.mean of the results. */
  function MeanStat(results: seq<real>): (s: Stat)
    ensures s.Value? <==> results != []
    ensures results == [] ==> s == NaN
    ensures s.Value? ==> Min(results) <= s.mean <= Max(results)
  {
    if results == [] then NaN
    else
      MeanBetween(results);
      Value(Mean(results))
  }

  /**
   * The `conf_int` that `_process_results` assigns: the quantiles of the
   * results at alpha/2 and 1 - alpha/2. numpy accepts only levels in [0, 1],
   * so alpha must lie in [0, 2], and it fails on an empty list.
   */
  function ConfidenceInterval(results: seq<real>, alpha: real): (r: Result<(real, real), Error>)
    ensures r.Ok? <==> 0.0 <= alpha <= 2.0 && results != []
    ensures r.Ok? ==> Min(results) <= r.value.0 <= Max(results) && Min(results) <= r.value.1 <= Max(results)
  {
    var lower, upper := alpha / 2.0, 1.0 - alpha / 2.0;
    if !(0.0 <= lower <= 1.0 && 0.0 <= upper <= 1.0) then Err(QuantileLevelOutOfRange)
    else if results == [] then Err(EmptyResults)
    else Ok((Quantile(results, lower), Quantile(results, upper)))
  }

  /** For alpha in [0, 1] the interval is ordered and lies within the results' range. */
  lemma IntervalOrdered(results: seq<real>, alpha: real)
    requires results != [] && 0.0 <= alpha <= 1.0
    ensures ConfidenceInterval(results, alpha).Ok?
    ensures var ci := ConfidenceInterval(results, alpha).value;
      Min(results) <= ci.0 <= ci.1 <= Max(results)
  {
    var lower, upper := alpha / 2.0, 1.0 - alpha / 2.0;
    assert 0.0 <= lower <= upper <= 1.0;
    var ci := ConfidenceInterval(results, alpha);
    assert ci.value == (Quantile(results, lower), Quantile(results, upper));
    QuantileMonotone(results, lower, upper);
  }

  /**
   * For alpha in [1, 2], which `feed` accepts as well, the level alpha/2 is
   * at least 1 - alpha/2, so the interval comes out in descending order.
   */
  lemma IntervalReversed(results: seq<real>, alpha: real)
    requires results != [] && 1.0 <= alpha <= 2.0
    ensures ConfidenceInterval(results, alpha).Ok?
    ensures var ci := ConfidenceInterval(results, alpha).value;
      Min(results) <= ci.1 <= ci.0 <= Max(results)
  {
    var lower, upper := alpha / 2.0, 1.0 - alpha / 2.0;
    assert 0.0 <= upper <= lower <= 1.0;
    var ci := ConfidenceInterval(results, alpha);
    assert ci.value == (Quantile(results, lower), Quantile(results, upper));
    QuantileMonotone(results, upper, lower);
  }

  /** If every result is `c`, then `stat` is `c` and the interval is `(c, c)`. */
  lemma ConstantResults(results: seq<real>, c: real, alpha: real)
    requires results != [] && Constant(results, c)
    requires 0.0 <= alpha <= 2.0
    ensures MeanStat(results) == Value(c)
    ensures ConfidenceInterval(results, alpha) == Ok((c, c))
  {
    var lower, upper := alpha / 2.0, 1.0 - alpha / 2.0;
    assert 0.0 <= lower <= 1.0 && 0.0 <= upper <= 1.0;
    ConstantStatistics(results, c, lower);
    ConstantStatistics(results, c, upper);
  }

  /** A bootstrap session: `Bootstrap(estimator, attributes, transformation, n_samples)`. */
  class Bootstrap<T> {
    const estimator: seq<seq<T>> -> Fit
    const attrs: string
    const transform: real -> Option<real>
    const nSamples: int

    var results: seq<real>
    var alpha: real
    var stat: Stat
    var confInt: Option<(real, real)>

    constructor (estimator: seq<seq<T>> -> Fit, attributes: string,
                 transformation: Option<real -> Option<real>> := None, nSamples: int := 1000)
      ensures this.estimator == estimator && attrs == attributes && this.nSamples == nSamples
      ensures transform == Transformation(transformation)
      ensures results == [] && alpha == 0.0 && stat == Unset && confInt == None
    {
      this.estimator := estimator;
      attrs := attributes;
      this.nSamples := nSamples;
      transform := Transformation(transformation);
      results := [];
      alpha := 0.0;
      stat := Unset;
      confInt := None;
    }

    /**
     * `feed(*args, alpha=alpha)`, alpha defaulting to 0.05, where `draws[r]`
     * holds the indices drawn in round r. The results are reset, then filled round by round; an exception
     * leaves the completed rounds in `results` and `stat` and `conf_int`
     * untouched, since `_process_results` is never reached.
     */
    method Feed(args: seq<seq<T>>, draws: seq<seq<nat>>, alpha: real := 0.05) returns (error: Option<Error>)
      requires |draws| == RangeLength(nSamples)
      requires args != [] ==> forall r :: 0 <= r < |draws| ==> ValidDraw(draws[r], |args[0]|)
      modifies this
      ensures this.alpha == alpha
      ensures var run := RunRounds(estimator, attrs, transform, args, draws);
        && results == run.results
        && (run.failure.Some? ==> error == run.failure && stat == old(stat) && confInt == old(confInt))
        && (run.failure.None? ==> stat == MeanStat(results))
        && (run.failure.None? ==> (match ConfidenceInterval(results, alpha)
                                    case Ok(ci) => confInt == Some(ci) && error == None
                                    case Err(e) => confInt == old(confInt) && error == Some(e)))
    {
      results := [];
      this.alpha := alpha;
      var r := 0;
      while r < |draws|
        invariant 0 <= r <= |draws|
        invariant this.alpha == alpha && stat == old(stat) && confInt == old(confInt)
        invariant var rest := RunRounds(estimator, attrs, transform, args, draws[r..]);
          RunRounds(estimator, attrs, transform, args, draws) == Run(results + rest.results, rest.failure)
      {
        RunRoundsStep(estimator, attrs, transform, args, draws, r);
        var round := Round(args, draws[r]);
        if round.Err? {
          return Some(round.error);
        }
        var v := round.value;
        ghost var rest := RunRounds(estimator, attrs, transform, args, draws[r + 1..]);
        assert results + ([v] + rest.results) == (results + [v]) + rest.results;
        results := results + [v];
        r := r + 1;
      }
      assert draws[r..] == [];
      error := ProcessResults();
    }

    /**
     * One pass of the loop body of `feed`: resample, fit, read the attribute
     * and transform it, each step of which may raise.
     */
    method Round(args: seq<seq<T>>, idx: seq<nat>) returns (round: Result<real, Error>)
      ensures round == RoundStat(estimator, attrs, transform, args, idx)
    {
      if args == [] {
        return Err(NoInput);
      }
      var batch := BootstrapData(args, idx);
      if batch.None? {
        return Err(IndexOutOfBounds);
      }
      var est := estimator(batch.value);
      if est.Raised? {
        return Err(FitRaised);
      }
      if attrs !in est.attributes {
        return Err(MissingAttribute);
      }
      var t := transform(est.attributes[attrs]);
      if t.None? {
        return Err(TransformRaised);
      }
      round := Ok(t.value);
    }

    /** `_process_results`: the mean first, then the interval, which may raise. */
    method ProcessResults() returns (error: Option<Error>)
      modifies this`stat, this`confInt
      ensures stat == MeanStat(results)
      ensures match ConfidenceInterval(results, alpha)
        case Ok(ci) => confInt == Some(ci) && error == None
        case Err(e) => confInt == old(confInt) && error == Some(e)
    {
      stat := MeanStat(results);
      match ConfidenceInterval(results, alpha)
      case Ok(ci) =>
        confInt := Some(ci);
        error := None;
      case Err(e) =>
        error := Some(e);
    }
  }

  /** Feeding the same session twice with the same draws gives the same results. */
  method Replay<T>(b: Bootstrap<T>, args: seq<seq<T>>, alpha: real, draws: seq<seq<nat>>)
    returns (first: seq<real>, second: seq<real>)
    requires |draws| == RangeLength(b.nSamples)
    requires args != [] ==> forall r :: 0 <= r < |draws| ==> ValidDraw(draws[r], |args[0]|)
    modifies b
    ensures first == second
  {
    var _ := b.Feed(args, draws, alpha);
    first := b.results;
    var _ := b.Feed(args, draws, alpha);
    second := b.results;
  }
}
