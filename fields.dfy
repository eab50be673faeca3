/**
 * `extract_fields` (resources/utils.py): the sorted names of all columns of
 * the stations' tables, without the excluded ones. A station's table is
 * given by its list of column names.
 */
module Fields {

  /** Python's `<` on str: by code point, a proper prefix first. */
  predicate Less(a: string, b: string)
    decreases |a|
  {
    |b| > 0 && (|a| == 0 || a[0] < b[0] || (a[0] == b[0] && Less(a[1..], b[1..])))
  }

  lemma {:induction false} LessIrreflexive(a: string)
    ensures !Less(a, a)
    decreases |a|
  {
    if |a| > 0 {
      LessIrreflexive(a[1..]);
    }
  }

  lemma {:induction false} LessTransitive(a: string, b: string, c: string)
    requires Less(a, b) && Less(b, c)
    ensures Less(a, c)
    decreases |a|
  {
    if |a| > 0 && a[0] == b[0] && b[0] == c[0] {
      LessTransitive(a[1..], b[1..], c[1..]);
    }
  }

  /** Two different strings are ordered one way or the other. */
  lemma {:induction false} LessTotal(a: string, b: string)
    ensures a == b || Less(a, b) || Less(b, a)
    decreases |a|
  {
    if |a| > 0 && |b| > 0 && a[0] == b[0] {
      LessTotal(a[1..], b[1..]);
      if a[1..] == b[1..] {
        assert a == [a[0]] + a[1..] && b == [b[0]] + b[1..];
      }
    }
  }

  /** `m` is in `s` and below every other element of `s`. */
  predicate IsLeast(m: string, s: set<string>)
  {
    m in s && forall y :: y in s && y != m ==> Less(m, y)
  }

  /** Every non-empty finite set of strings has a least element. */
  lemma {:induction false} LeastExists(s: set<string>)
    requires s != {}
    ensures exists m :: IsLeast(m, s)
    decreases |s|
  {
    var x :| x in s;
    if s == {x} {
      assert IsLeast(x, s);
    } else {
      var rest := s - {x};
      assert |rest| < |s|;
      LeastExists(rest);
      var m :| IsLeast(m, rest);
      LeastAdd(x, m, rest);
      assert rest + {x} == s;
      if !IsLeast(x, s) {
        assert IsLeast(m, s);
      }
    }
  }

  /** Adding `x` to a set whose least element is `m` gives a set whose least element is `x` or `m`. */
  lemma LeastAdd(x: string, m: string, rest: set<string>)
    requires IsLeast(m, rest)
    ensures IsLeast(x, rest + {x}) || IsLeast(m, rest + {x})
  {
    LessTotal(x, m);
    if Less(x, m) {
      forall y | y in rest + {x} && y != x ensures Less(x, y) {
        if y != m {
          LessTransitive(x, m, y);
        }
      }
    }
  }

  ghost predicate StrictlySorted(xs: seq<string>)
  {
    forall i, j :: 0 <= i < j < |xs| ==> Less(xs[i], xs[j])
  }

  /**
   * `extract_fields(data, exclude)`: the union of every station's column
   * names, minus the excluded names, sorted; a name appears once.
   */
  method ExtractFields(data: seq<seq<string>>, exclude: seq<string> := []) returns (fields: seq<string>)
    ensures StrictlySorted(fields)
    ensures forall f :: f in fields <==> f !in exclude && exists i :: 0 <= i < |data| && f in data[i]
  {
    var features: set<string> := {};
    for i := 0 to |data|
      invariant forall f :: f in features <==> exists j :: 0 <= j < i && f in data[j]
    {
      features := features + (set c | c in data[i]);
    }
    var rest := features - (set e | e in exclude);
    fields := [];
    while rest != {}
      invariant StrictlySorted(fields)
      invariant forall f :: f in fields ==> f in features && f !in exclude
      invariant forall f :: f in features && f !in exclude ==> f in fields || f in rest
      invariant rest <= features - (set e | e in exclude)
      invariant forall f, g :: f in fields && g in rest ==> Less(f, g)
      decreases |rest|
    {
      LeastExists(rest);
      var m :| IsLeast(m, rest);
      fields := fields + [m];
      rest := rest - {m};
    }
  }

  /**
   * A strictly sorted sequence is fixed by its elements, so the contract of
   * `ExtractFields` determines its result.
   */
  lemma {:induction false} SortedUnique(xs: seq<string>, ys: seq<string>)
    requires StrictlySorted(xs) && StrictlySorted(ys)
    requires forall f :: f in xs <==> f in ys
    ensures xs == ys
    decreases |xs|
  {
    assert xs != [] ==> xs[0] in ys;
    assert ys != [] ==> ys[0] in xs;
    if xs != [] && ys != [] {
      assert xs[0] == ys[0] by {
        if xs[0] != ys[0] {
          assert xs[0] in ys && ys[0] in xs;
          var i :| 0 <= i < |ys| && ys[i] == xs[0];
          var j :| 0 <= j < |xs| && xs[j] == ys[0];
          assert i > 0 && j > 0;
          LessTransitive(xs[0], xs[j], xs[0]);
          LessIrreflexive(xs[0]);
        }
      }
      forall f ensures f in xs[1..] <==> f in ys[1..] {
        if f in xs[1..] {
          var i :| 1 <= i < |xs| && xs[i] == f;
          LessIrreflexive(f);
          assert f != xs[0] && f in xs && f in ys;
          var j :| 0 <= j < |ys| && ys[j] == f;
          assert ys[1..][j - 1] == f;
        }
        if f in ys[1..] {
          var i :| 1 <= i < |ys| && ys[i] == f;
          LessIrreflexive(f);
          assert f != ys[0] && f in ys && f in xs;
          var j :| 0 <= j < |xs| && xs[j] == f;
          assert xs[1..][j - 1] == f;
        }
      }
      SortedUnique(xs[1..], ys[1..]);
      assert xs == [xs[0]] + xs[1..] && ys == [ys[0]] + ys[1..];
    }
  }
}
