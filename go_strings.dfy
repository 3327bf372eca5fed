/**
 * The parts of Go's `strings` package that the configuration code relies on:
 * `Split` and `Join` with a one-character separator, and `Trim` with a cut set.
 * Strings are sequences of code points; Go's byte-level UTF-8 view is not modelled.
 */
module GoStrings {

  /** `strings.Join(parts, string(sep))`. */
  function Join(parts: seq<string>, sep: char): string
  {
    if |parts| == 0 then ""
    else if |parts| == 1 then parts[0]
    else Join(parts[..|parts| - 1], sep) + [sep] + parts[|parts| - 1]
  }

  /**
   * `strings.Split(s, string(sep))`: the pieces between separators, in order.
   * There is always one piece more than there are separators, so `Split("")` is `[""]`.
   */
  function Split(s: string, sep: char): (pieces: seq<string>)
    ensures |pieces| >= 1
    ensures forall i :: 0 <= i < |pieces| ==> sep !in pieces[i]
  {
    if |s| == 0 then [""]
    else
      var init := Split(s[..|s| - 1], sep);
      var c := s[|s| - 1];
      if c == sep then init + [""]
      else init[..|init| - 1] + [init[|init| - 1] + [c]]
  }

  /** `strings.TrimLeft(s, cutset)`. */
  function TrimLeft(s: string, cut: set<char>): (r: string)
    ensures |r| <= |s| && r == s[|s| - |r|..]
    ensures r == [] || r[0] !in cut
    ensures forall i :: 0 <= i < |s| - |r| ==> s[i] in cut
  {
    if |s| > 0 && s[0] in cut then TrimLeft(s[1..], cut) else s
  }

  /** `strings.TrimRight(s, cutset)`. */
  function TrimRight(s: string, cut: set<char>): (r: string)
    ensures |r| <= |s| && r == s[..|r|]
    ensures r == [] || r[|r| - 1] !in cut
    ensures forall i :: |r| <= i < |s| ==> s[i] in cut
  {
    if |s| > 0 && s[|s| - 1] in cut then TrimRight(s[..|s| - 1], cut) else s
  }

  /** `strings.Trim(s, cutset)`: the infix left after removing cut characters at both ends. */
  function Trim(s: string, cut: set<char>): (r: string)
    ensures |r| <= |s|
    ensures r == [] || (r[0] !in cut && r[|r| - 1] !in cut)
    ensures exists i, j :: 0 <= i <= j <= |s| && r == s[i..j]
              && (forall k :: 0 <= k < i ==> s[k] in cut)
              && (forall k :: j <= k < |s| ==> s[k] in cut)
  {
    var l := TrimLeft(s, cut);
    var r := TrimRight(l, cut);
    TrimWitness(s, cut, l, r);
    r
  }

  /**
   * Where the trimmed string sits in the input: after the cut prefix that
   * TrimLeft removes and before the cut suffix that TrimRight removes.
   */
  lemma {:induction false} TrimWitness(s: string, cut: set<char>, l: string, r: string)
    requires |l| <= |s| && l == s[|s| - |l|..]
    requires |r| <= |l| && r == l[..|r|]
    requires forall k :: |r| <= k < |l| ==> l[k] in cut
    ensures r == s[|s| - |l|..|s| - |l| + |r|]
    ensures forall k :: |s| - |l| + |r| <= k < |s| ==> s[k] in cut
  {
    var i := |s| - |l|;
    forall k | i + |r| <= k < |s| ensures s[k] in cut {
      assert s[k] == l[k - i];
    }
  }

  /** A prefix made only of cut characters is skipped by TrimLeft. */
  lemma {:induction false} TrimLeftSkips(p: string, t: string, cut: set<char>)
    requires forall i :: 0 <= i < |p| ==> p[i] in cut
    ensures TrimLeft(p + t, cut) == TrimLeft(t, cut)
  {
    if |p| > 0 {
      assert (p + t)[0] == p[0];
      assert (p + t)[1..] == p[1..] + t;
      assert forall i :: 0 <= i < |p[1..]| ==> p[1..][i] == p[i + 1];
      TrimLeftSkips(p[1..], t, cut);
    } else {
      assert p + t == t;
    }
  }

  /** A suffix made only of cut characters is skipped by TrimRight. */
  lemma {:induction false} TrimRightSkips(t: string, p: string, cut: set<char>)
    requires forall i :: 0 <= i < |p| ==> p[i] in cut
    ensures TrimRight(t + p, cut) == TrimRight(t, cut)
  {
    if |p| > 0 {
      assert (t + p)[|t + p| - 1] == p[|p| - 1];
      assert (t + p)[..|t + p| - 1] == t + p[..|p| - 1];
      assert forall i :: 0 <= i < |p| - 1 ==> p[..|p| - 1][i] == p[i];
      TrimRightSkips(t, p[..|p| - 1], cut);
    } else {
      assert t + p == t;
    }
  }

  /** Padding made of cut characters on both sides of a word that neither starts nor ends with one is removed exactly. */
  lemma TrimPadded(pre: string, w: string, post: string, cut: set<char>)
    requires forall i :: 0 <= i < |pre| ==> pre[i] in cut
    requires forall i :: 0 <= i < |post| ==> post[i] in cut
    requires w != [] && w[0] !in cut && w[|w| - 1] !in cut
    ensures Trim(pre + w + post, cut) == w
  {
    assert pre + w + post == pre + (w + post);
    TrimLeftSkips(pre, w + post, cut);
    assert (w + post)[0] == w[0];
    TrimRightSkips(w, post, cut);
  }

  /** The trimmed string is empty exactly when every character is in the cut set. */
  lemma TrimEmpty(s: string, cut: set<char>)
    ensures Trim(s, cut) == [] <==> forall i :: 0 <= i < |s| ==> s[i] in cut
  {
    var l := TrimLeft(s, cut);
    if l != [] {
      assert s[|s| - |l|] !in cut;
      assert TrimRight(l, cut) != [];
    }
  }

  /** Trimming never introduces a character: one absent from the input is absent from the result. */
  lemma TrimAbsent(s: string, cut: set<char>, c: char)
    requires c !in s
    ensures c !in Trim(s, cut)
  {
    var l := TrimLeft(s, cut);
    var r := TrimRight(l, cut);
    assert r == s[|s| - |l|..][..|r|];
  }

  /** Joining the pieces of a split gives back the original string. */
  lemma {:induction false} JoinSplit(s: string, sep: char)
    ensures Join(Split(s, sep), sep) == s
  {
    if |s| > 0 {
      var front := s[..|s| - 1];
      var init := Split(front, sep);
      var c := s[|s| - 1];
      JoinSplit(front, sep);
      if c == sep {
        assert (init + [""])[..|init|] == init;
      } else if |init| > 1 {
        var pieces := Split(s, sep);
        assert pieces[..|pieces| - 1] == init[..|init| - 1];
      }
    }
  }

  /** A string without the separator is one piece. */
  lemma {:induction false} SplitWithoutSeparator(y: string, sep: char)
    requires sep !in y
    ensures Split(y, sep) == [y]
  {
    if |y| > 0 {
      SplitWithoutSeparator(y[..|y| - 1], sep);
      assert y[..|y| - 1] + [y[|y| - 1]] == y;
    }
  }

  /** Appending a separator and a separator-free tail adds exactly that tail as the last piece. */
  lemma {:induction false} SplitAppend(x: string, y: string, sep: char)
    requires sep !in y
    ensures Split(x + [sep] + y, sep) == Split(x, sep) + [y]
  {
    var s := x + [sep] + y;
    if |y| == 0 {
      assert s[..|s| - 1] == x;
    } else {
      var y' := y[..|y| - 1];
      assert s[..|s| - 1] == x + [sep] + y';
      assert sep !in y' by {
        forall i | 0 <= i < |y'| ensures y'[i] != sep {
          assert y'[i] == y[i];
        }
      }
      SplitAppend(x, y', sep);
      assert y' + [y[|y| - 1]] == y;
    }
  }

  /** Splitting a join of separator-free parts gives back the parts. */
  lemma {:induction false} SplitJoin(parts: seq<string>, sep: char)
    requires |parts| >= 1
    requires forall i :: 0 <= i < |parts| ==> sep !in parts[i]
    ensures Split(Join(parts, sep), sep) == parts
  {
    if |parts| == 1 {
      SplitWithoutSeparator(parts[0], sep);
    } else {
      var init := parts[..|parts| - 1];
      SplitJoin(init, sep);
      SplitAppend(Join(init, sep), parts[|parts| - 1], sep);
      assert init + [parts[|parts| - 1]] == parts;
    }
  }
}
