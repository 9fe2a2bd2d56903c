/**
 * Python's `str.split()` with no separator, which both the vocabulary builder and
 * the sentence encoder use to turn a cleaned turn into tokens, and `str.strip()`,
 * which the submission writer applies to each input line.
 */
module Text {

  /** The characters for which Python's `str.isspace()` holds. */
  predicate IsSpace(ch: char)
  {
    ch == ' ' || ('\t' <= ch <= '\r') || ('\U{1c}' <= ch <= '\U{1f}')
    || ch == '\U{85}' || ch == '\U{a0}' || ch == '\U{1680}'
    || ('\U{2000}' <= ch <= '\U{200a}') || ch == '\U{2028}' || ch == '\U{2029}'
    || ch == '\U{202f}' || ch == '\U{205f}' || ch == '\U{3000}'
  }

  predicate NoSpace(s: string)
  {
    forall i :: 0 <= i < |s| ==> !IsSpace(s[i])
  }

  /** A token as `split` produces it: non-empty and free of whitespace. */
  predicate IsToken(t: string)
  {
    t != [] && NoSpace(t)
  }

  /** The longest prefix of `s` that holds no whitespace. */
  function Word(s: string): (w: string)
    ensures |w| <= |s| && w == s[..|w|]
    ensures NoSpace(w)
    ensures |w| < |s| ==> IsSpace(s[|w|])
  {
    if s == [] || IsSpace(s[0]) then [] else [s[0]] + Word(s[1..])
  }

  /** `s.split()`: the maximal runs of non-whitespace characters of `s`, in order. */
  function Split(s: string): (ts: seq<string>)
    ensures forall i :: 0 <= i < |ts| ==> IsToken(ts[i])
    decreases |s|
  {
    if s == [] then []
    else if IsSpace(s[0]) then Split(s[1..])
    else
      var w := Word(s);
      [w] + Split(s[|w|..])
  }

  /** `" ".join(ts)`. */
  function Join(ts: seq<string>): string
  {
    if ts == [] then []
    else if |ts| == 1 then ts[0]
    else ts[0] + " " + Join(ts[1..])
  }

  /** The characters of all tokens, glued together. */
  function Concat(ts: seq<string>): string
  {
    if ts == [] then [] else ts[0] + Concat(ts[1..])
  }

  /** The non-whitespace characters of `s`, in order. */
  function NonSpace(s: string): string
  {
    if s == [] then []
    else if IsSpace(s[0]) then NonSpace(s[1..])
    else [s[0]] + NonSpace(s[1..])
  }

  lemma {:induction false} NonSpaceAppend(s: string, t: string)
    ensures NonSpace(s + t) == NonSpace(s) + NonSpace(t)
  {
    if s == [] {
      assert s + t == t;
    } else {
      assert (s + t)[1..] == s[1..] + t;
      NonSpaceAppend(s[1..], t);
    }
  }

  lemma {:induction false} NonSpaceOfWord(s: string)
    requires NoSpace(s)
    ensures NonSpace(s) == s
  {
    if s != [] {
      NonSpaceOfWord(s[1..]);
    }
  }

  /** Splitting loses exactly the whitespace: the tokens hold every other character, in order. */
  lemma {:induction false} SplitKeepsNonSpace(s: string)
    ensures Concat(Split(s)) == NonSpace(s)
    decreases |s|
  {
    if s == [] {
    } else if IsSpace(s[0]) {
      SplitKeepsNonSpace(s[1..]);
    } else {
      var w := Word(s);
      var rest := s[|w|..];
      assert s == w + rest;
      SplitKeepsNonSpace(rest);
      NonSpaceAppend(w, rest);
      NonSpaceOfWord(w);
      assert Split(s) == [w] + Split(rest);
      assert Concat(Split(s)) == w + Concat(Split(rest));
    }
  }

  lemma WordOfToken(t: string, rest: string)
    requires NoSpace(t)
    requires rest == [] || IsSpace(rest[0])
    ensures Word(t + rest) == t
    decreases |t|
  {
    if t == [] {
      assert t + rest == rest;
    } else {
      assert (t + rest)[1..] == t[1..] + rest;
      WordOfToken(t[1..], rest);
    }
  }

  /** Splitting undoes joining with single spaces. */
  lemma {:induction false} SplitJoin(ts: seq<string>)
    requires forall i :: 0 <= i < |ts| ==> IsToken(ts[i])
    ensures Split(Join(ts)) == ts
  {
    if ts == [] {
    } else if |ts| == 1 {
      WordOfToken(ts[0], []);
      assert ts[0] + [] == ts[0];
      assert ts[0][|ts[0]|..] == [];
    } else {
      var t, rest := ts[0], " " + Join(ts[1..]);
      var s := Join(ts);
      assert s == t + rest;
      WordOfToken(t, rest);
      assert s[0] == t[0];
      assert s[|t|..] == rest;
      assert Split(s) == [t] + Split(rest);
      assert rest[1..] == Join(ts[1..]);
      SplitJoin(ts[1..]);
    }
  }

  /** `t` occurs in `s` at `p` with whitespace or an end of `s` on both sides. */
  predicate RunAt(s: string, t: string, p: nat)
  {
    p + |t| <= |s| && s[p..p + |t|] == t
    && (p == 0 || IsSpace(s[p - 1]))
    && (p + |t| == |s| || IsSpace(s[p + |t|]))
  }

  /** A run of the suffix `s[d..]` is a run of `s`, once shifted by `d`. */
  lemma RunShift(s: string, d: nat, t: string, p: nat)
    requires d <= |s| && RunAt(s[d..], t, p)
    requires p == 0 ==> d == 0 || IsSpace(s[d - 1])
    ensures RunAt(s, t, p + d)
  {
    assert s[p + d..p + d + |t|] == s[d..][p..p + |t|];
    if p > 0 {
      assert s[p + d - 1] == s[d..][p - 1];
    }
    if p + |t| < |s| - d {
      assert s[p + d + |t|] == s[d..][p + |t|];
    }
  }

  /** `t` is a run of `s` somewhere. */
  ghost predicate IsRunOf(s: string, t: string)
  {
    exists p: nat :: RunAt(s, t, p)
  }

  /** Every string of `ts` is a run of `s`. */
  ghost predicate AllRuns(s: string, ts: seq<string>)
  {
    forall k :: 0 <= k < |ts| ==> IsRunOf(s, ts[k])
  }

  /**
   * Every token of `s.split()` is a maximal run: it occurs in `s` with whitespace
   * or an end of `s` right before and right after it, so tokens break only at whitespace.
   */
  lemma {:induction false} SplitMaximal(s: string)
    ensures AllRuns(s, Split(s))
    decreases |s|
  {
    if s == [] {
    } else if IsSpace(s[0]) {
      var ts := Split(s[1..]);
      assert Split(s) == ts;
      SplitMaximal(s[1..]);
      forall k | 0 <= k < |ts|
        ensures IsRunOf(s, ts[k])
      {
        var p: nat :| RunAt(s[1..], ts[k], p);
        RunShift(s, 1, ts[k], p);
        assert RunAt(s, ts[k], p + 1);
      }
      assert AllRuns(s, ts);
    } else {
      var w := Word(s);
      var rest := s[|w|..];
      var ts := Split(rest);
      assert Split(s) == [w] + ts;
      SplitMaximal(rest);
      assert s[0..|w|] == w;
      assert RunAt(s, w, 0);
      forall k | 0 <= k < |ts|
        ensures IsRunOf(s, ts[k])
      {
        var p: nat :| RunAt(rest, ts[k], p);
        assert rest != [] && IsSpace(rest[0]);
        assert IsToken(ts[k]) && rest[p] == ts[k][0];
        RunShift(s, |w|, ts[k], p);
      }
      assert forall k :: 0 <= k < |[w] + ts| ==> ([w] + ts)[k] == if k == 0 then w else ts[k - 1];
    }
  }

  /** `s.lstrip()`: `s` without its leading whitespace. */
  function StripLeft(s: string): (r: string)
    ensures |r| <= |s| && r == s[|s| - |r|..]
    ensures forall i :: 0 <= i < |s| - |r| ==> IsSpace(s[i])
    ensures r != [] ==> !IsSpace(r[0])
  {
    if s != [] && IsSpace(s[0]) then StripLeft(s[1..]) else s
  }

  /** `s.rstrip()`: `s` without its trailing whitespace. */
  function StripRight(s: string): (r: string)
    ensures |r| <= |s| && r == s[..|r|]
    ensures forall i :: |r| <= i < |s| ==> IsSpace(s[i])
    ensures r != [] ==> !IsSpace(r[|r| - 1])
  {
    if s != [] && IsSpace(s[|s| - 1]) then StripRight(s[..|s| - 1]) else s
  }

  /** `s.strip()`. */
  function Strip(s: string): string
  {
    StripRight(StripLeft(s))
  }

  /**
   * `strip` removes exactly the whitespace at both ends: the result is the slice
   * `s[i..j]` with only whitespace outside it and no whitespace at its own ends.
   */
  lemma StripSlice(s: string)
    ensures exists i, j ::
      && 0 <= i <= j <= |s| && Strip(s) == s[i..j]
      && (forall k :: 0 <= k < i ==> IsSpace(s[k]))
      && (forall k :: j <= k < |s| ==> IsSpace(s[k]))
    ensures Strip(s) != [] ==> !IsSpace(Strip(s)[0]) && !IsSpace(Strip(s)[|Strip(s)| - 1])
  {
    var l := StripLeft(s);
    var r := StripRight(l);
    var i := |s| - |l|;
    assert r == s[i..i + |r|];
    forall k | i + |r| <= k < |s|
      ensures IsSpace(s[k])
    {
      assert s[k] == l[k - i];
    }
  }

  /** Stripping twice is stripping once. */
  lemma StripIdempotent(s: string)
    ensures Strip(Strip(s)) == Strip(s)
  {
    var t := Strip(s);
    StripSlice(s);
    assert StripLeft(t) == t;
    assert StripRight(t) == t;
  }
}
