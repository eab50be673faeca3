/**
 * `multiline`, the word-wrapping helper nested in `summary_dataset`
 * (resources/utils.py): it cuts a text at the last separator that fits
 * inside `width` until the rest fits.
 */
module TextWrap {
  import opened Wrappers

  /** Python's reading of a slice end `end` against a text of length n. */
  function SliceEnd(n: nat, end: int): (e: nat)
    ensures e <= n
    ensures 0 <= end <= n ==> e == end
  {
    if end < 0 then (if n + end < 0 then 0 else n + end)
    else if end > n then n
    else end
  }

  /** `sub` occurs in `t` starting at position i. */
  predicate OccursAt(t: string, sub: string, i: int)
  {
    0 <= i && i + |sub| <= |t| && t[i..i + |sub|] == sub
  }

  /** The last start position at or below j where `sub` occurs, or -1. */
  function LastFrom(t: string, sub: string, j: int): (i: int)
    requires j + |sub| <= |t|
    ensures -1 <= i && (j >= 0 ==> i <= j)
    ensures i >= 0 ==> OccursAt(t, sub, i)
    ensures forall k :: i < k <= j ==> !OccursAt(t, sub, k)
    decreases j + 1
  {
    if j < 0 then -1
    else if OccursAt(t, sub, j) then j
    else LastFrom(t, sub, j - 1)
  }

  /**
   * `t.rfind(sub, 0, end)`: the last position i at which `sub` occurs
   * inside `t[0:end]`, or -1 when it does not occur there.
   */
  function RFind(t: string, sub: string, end: int): (i: int)
    ensures -1 <= i
    ensures i >= 0 ==> OccursAt(t, sub, i) && i + |sub| <= SliceEnd(|t|, end)
    ensures forall k :: i < k && k + |sub| <= SliceEnd(|t|, end) ==> !OccursAt(t, sub, k)
  {
    var e := SliceEnd(|t|, end);
    LastFrom(t, sub, e - |sub|)
  }

  /** Python's `t[k:]` for k >= 0. */
  function Drop(t: string, k: nat): (r: string)
    ensures |r| == if k <= |t| then |t| - k else 0
  {
    if k <= |t| then t[k..] else ""
  }

  /**
   * The loop of `multiline` cannot move on from text `t`: `t` is still too
   * long and either no separator fits in its first `width` characters
   * (`idx` is -1, so `string[idx+1:]` is `t` again) or `t` is empty.
   */
  predicate Stalls(t: string, width: int, sep: string)
  {
    |t| > width && (RFind(t, sep, width) < 0 || t == "")
  }

  /** The pieces `multiline(s, width, sep)` returns, or None when its loop never ends. */
  function Wrap(s: string, width: int, sep: string): (r: Option<seq<string>>)
    ensures r.Some? ==> r.value != []
    ensures |s| <= width ==> r == Some([s])
    decreases |s|
  {
    if |s| <= width then Some([s])
    else if Stalls(s, width, sep) then None
    else
      var idx := RFind(s, sep, width);
      match Wrap(Drop(s, idx + 1), width, sep)
      case None => None
      case Some(rest) => Some([s[..idx]] + rest)
  }

  function Prepend(pieces: seq<string>, w: Option<seq<string>>): Option<seq<string>>
  {
    match w
    case None => None
    case Some(rest) => Some(pieces + rest)
  }

  lemma PrependTwice(out: seq<string>, piece: string, w: Option<seq<string>>)
    ensures Prepend(out, Prepend([piece], w)) == Prepend(out + [piece], w)
  {
    if w.Some? {
      assert out + ([piece] + w.value) == (out + [piece]) + w.value;
    }
  }

  /**
   * One turn of the loop: a text that is too long and does not stall is cut
   * at its separator, whose start `idx` leaves at least one character after
   * the piece.
   */
  lemma WrapStep(s: string, width: int, sep: string)
    requires |s| > width && !Stalls(s, width, sep)
    ensures var idx := RFind(s, sep, width);
      && 0 <= idx < |s|
      && |Drop(s, idx + 1)| < |s|
      && Wrap(s, width, sep) == Prepend([s[..idx]], Wrap(Drop(s, idx + 1), width, sep))
  {
  }

  /** `sep.join(pieces)`. */
  function Join(pieces: seq<string>, sep: string): string
    requires pieces != []
  {
    if |pieces| == 1 then pieces[0] else pieces[0] + sep + Join(pieces[1..], sep)
  }

  /** What `multiline` returns: `(len(out), out)`, unless it never returns. */
  datatype Wrapped = Lines(count: nat, lines: seq<string>) | Endless

  /** The loop of `multiline`, stopped where Python's would spin forever. */
  method Multiline(s: string, width: int := 30, sep: string := " ") returns (r: Wrapped)
    ensures r.Lines? <==> Wrap(s, width, sep).Some?
    ensures r.Lines? ==> r.lines == Wrap(s, width, sep).value && r.count == |r.lines|
  {
    var text := s;
    var idx := RFind(text, sep, width);
    var out: seq<string> := [];
    assert Prepend(out, Wrap(text, width, sep)) == Wrap(s, width, sep) by {
      if Wrap(s, width, sep).Some? {
        assert out + Wrap(s, width, sep).value == Wrap(s, width, sep).value;
      }
    }
    while |text| > width
      invariant idx == RFind(text, sep, width)
      invariant Wrap(s, width, sep) == Prepend(out, Wrap(text, width, sep))
      decreases |text|
    {
      if Stalls(text, width, sep) {
        return Endless;
      }
      WrapStep(text, width, sep);
      PrependTwice(out, text[..idx], Wrap(Drop(text, idx + 1), width, sep));
      out := out + [text[..idx]];
      text := Drop(text, idx + 1);
      idx := RFind(text, sep, width);
    }
    assert Wrap(text, width, sep) == Some([text]);
    out := out + [text];
    r := Lines(|out|, out);
  }

  /**
   * With a non-empty separator the pieces, joined by the separator's first
   * character (the separator itself when it is one character long),
   * give back the input text.
   */
  lemma {:induction false} WrapJoins(s: string, width: int, sep: string)
    requires sep != "" && Wrap(s, width, sep).Some?
    ensures Wrap(s, width, sep).value != []
    ensures Join(Wrap(s, width, sep).value, sep[..1]) == s
    decreases |s|
  {
    if |s| > width {
      WrapStep(s, width, sep);
      var idx := RFind(s, sep, width);
      var next := Drop(s, idx + 1);
      WrapJoins(next, width, sep);
      var rest := Wrap(next, width, sep).value;
      assert Wrap(s, width, sep).value == [s[..idx]] + rest;
      CutAtSeparator(s, width, sep);
      JoinCons(s[..idx], rest, sep[..1]);
    }
  }

  /** The text is the piece before the separator found, its first character and the text after that character. */
  lemma CutAtSeparator(s: string, width: int, sep: string)
    requires sep != "" && |s| > width && !Stalls(s, width, sep)
    ensures var idx := RFind(s, sep, width);
      0 <= idx < |s| && s == s[..idx] + sep[..1] + Drop(s, idx + 1)
  {
    var idx := RFind(s, sep, width);
    assert s[idx] == sep[0] by {
      assert OccursAt(s, sep, idx);
      assert s[idx..idx + |sep|][0] == sep[0];
    }
    assert sep[..1] == [s[idx]];
  }

  lemma JoinCons(first: string, rest: seq<string>, sep: string)
    requires rest != []
    ensures Join([first] + rest, sep) == first + sep + Join(rest, sep)
  {
    assert ([first] + rest)[1..] == rest;
  }

  /**
   * Every piece except the last is at most `width - |sep|` long (shorter
   * than `width` when the separator is not empty), and the last is at most
   * `width` long.
   */
  lemma {:induction false} WrapWidths(s: string, width: int, sep: string)
    requires Wrap(s, width, sep).Some?
    ensures PiecesFit(Wrap(s, width, sep).value, width, |sep|)
    decreases |s|
  {
    if |s| > width {
      WrapStep(s, width, sep);
      var idx := RFind(s, sep, width);
      var next := Drop(s, idx + 1);
      WrapWidths(next, width, sep);
      var rest := Wrap(next, width, sep).value;
      assert PiecesFit(rest, width, |sep|);
      FirstPieceFits(s, width, sep);
      RestFits(s[..idx], rest, width, |sep|);
    }
  }

  /**
   * `lines` is not empty, its last piece is at most `width` long, and every
   * other piece is at most `width - sepLen` long.
   */
  predicate PiecesFit(lines: seq<string>, width: int, sepLen: nat)
  {
    && lines != []
    && |lines[|lines| - 1]| <= width
    && forall k :: 0 <= k < |lines| - 1 ==> |lines[k]| + sepLen <= width
  }

  /** The piece cut off first ends before the separator found within `width`. */
  lemma FirstPieceFits(s: string, width: int, sep: string)
    requires 0 <= width < |s| && !Stalls(s, width, sep)
    ensures var idx := RFind(s, sep, width);
      0 <= idx && idx + |sep| <= width
  {
  }

  /** Putting a piece that fits with the separator in front of fitting pieces keeps them fitting. */
  lemma RestFits(first: string, rest: seq<string>, width: int, sepLen: nat)
    requires PiecesFit(rest, width, sepLen) && |first| + sepLen <= width
    ensures PiecesFit([first] + rest, width, sepLen)
  {
    var lines := [first] + rest;
    forall k | 1 <= k < |lines| - 1 ensures |lines[k]| + sepLen <= width {
      assert lines[k] == rest[k - 1];
    }
  }

  /**
   * The loop never ends when the text it starts from stalls, and when it
   * never ends, some remaining text (a suffix of the input) stalls: a
   * remaining text longer than `width` had no separator within its first
   * `width` characters.
   */
  lemma {:induction false} WrapEndless(s: string, width: int, sep: string)
    ensures Stalls(s, width, sep) ==> Wrap(s, width, sep).None?
    ensures Wrap(s, width, sep).None? ==> exists k :: 0 <= k <= |s| && Stalls(s[k..], width, sep)
    decreases |s|
  {
    if Wrap(s, width, sep).None? && !Stalls(s, width, sep) {
      WrapStep(s, width, sep);
      var idx := RFind(s, sep, width);
      var next := Drop(s, idx + 1);
      WrapEndless(next, width, sep);
      var k :| 0 <= k <= |next| && Stalls(next[k..], width, sep);
      assert next == s[idx + 1..];
      assert next[k..] == s[idx + 1 + k..];
    } else if Stalls(s, width, sep) {
      assert s[0..] == s;
    }
  }

  /** "ab cd" with width 3 is cut at its space. */
  lemma WrapCutExample()
    ensures Wrap("ab cd", 3, " ") == Some(["ab", "cd"])
  {
    var s := "ab cd";
    assert OccursAt(s, " ", 2) by { assert s[2..3] == [s[2]]; }
    assert RFind(s, " ", 3) == 2;
    assert !Stalls(s, 3, " ");
    WrapStep(s, 3, " ");
    assert Drop(s, 3) == "cd" && s[..2] == "ab";
    assert Wrap("cd", 3, " ") == Some(["cd"]);
    assert Wrap(s, 3, " ") == Prepend([s[..2]], Wrap(Drop(s, 3), 3, " "));
    assert [s[..2]] + ["cd"] == ["ab", "cd"];
  }

  /** "abcd" with width 2 has no space to cut at, so the loop never ends. */
  lemma WrapEndlessExample()
    ensures Wrap("abcd", 2, " ") == None
  {
    var t := "abcd";
    assert !OccursAt(t, " ", 1) by { assert t[1..2] == [t[1]]; }
    assert !OccursAt(t, " ", 0) by { assert t[0..1] == [t[0]]; }
    assert RFind(t, " ", 2) == -1;
  }
}
