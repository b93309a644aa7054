/** The three string primitives the analyzer builds on: `strings.TrimSpace`,
    `strings.ToLower` and `strings.Contains`.

    Strings are sequences of Unicode code points. Whitespace is Go's
    `unicode.IsSpace` set; lower-casing is restricted to ASCII letters. */
module Text {

  /** Go's `unicode.IsSpace`: the six ASCII spaces, NEL, NBSP and the
      remaining code points with the Unicode White_Space property. */
  predicate IsSpace(c: char) {
    || c == '\t' || c == '\n' || c == '\U{000B}' || c == '\U{000C}' || c == '\r' || c == ' '
    || c == '\U{0085}' || c == '\U{00A0}' || c == '\U{1680}'
    || ('\U{2000}' <= c <= '\U{200A}')
    || c == '\U{2028}' || c == '\U{2029}' || c == '\U{202F}' || c == '\U{205F}' || c == '\U{3000}'
  }

  predicate AllSpace(s: string) {
    forall i :: 0 <= i < |s| ==> IsSpace(s[i])
  }

  /** `s[i..i + |r|]` is `r`, and everything around it is whitespace. */
  ghost predicate TrimmedAt(s: string, r: string, i: int) {
    && 0 <= i && i + |r| <= |s|
    && s[i..i + |r|] == r
    && AllSpace(s[..i])
    && AllSpace(s[i + |r|..])
  }

  /** Neither end of `r` is whitespace. */
  predicate Tight(r: string) {
    r == [] || (!IsSpace(r[0]) && !IsSpace(r[|r| - 1]))
  }

  function TrimLeft(s: string): (r: string)
    ensures |r| <= |s| && r == s[|s| - |r|..]
    ensures AllSpace(s[..|s| - |r|])
    ensures r == [] || !IsSpace(r[0])
  {
    if |s| > 0 && IsSpace(s[0]) then TrimLeft(s[1..]) else s
  }

  function TrimRight(s: string): (r: string)
    ensures |r| <= |s| && r == s[..|r|]
    ensures AllSpace(s[|r|..])
    ensures r == [] || !IsSpace(r[|r| - 1])
  {
    if |s| > 0 && IsSpace(s[|s| - 1]) then
      var r := TrimRight(s[..|s| - 1]);
      assert s[|r|..] == s[..|s| - 1][|r|..] + [s[|s| - 1]];
      r
    else
      s
  }

  lemma AllSpaceSplit(s: string, i: int)
    requires 0 <= i <= |s|
    ensures AllSpace(s) <==> AllSpace(s[..i]) && AllSpace(s[i..])
  {
    if AllSpace(s[..i]) && AllSpace(s[i..]) {
      forall k | 0 <= k < |s| ensures IsSpace(s[k]) {
        if k < i { assert s[..i][k] == s[k]; } else { assert s[i..][k - i] == s[k]; }
      }
    }
  }

  /** `strings.TrimSpace`: the slice of `s` left after removing leading and
      trailing whitespace. */
  function TrimSpace(s: string): (r: string)
    ensures exists i :: TrimmedAt(s, r, i)
    ensures Tight(r)
  {
    var l := TrimLeft(s);
    var r := TrimRight(l);
    NestedSlice(s, l, r);
    r
  }

  /** The sequence facts behind TrimSpace: a prefix of a suffix is a middle
      slice, what follows it is a suffix of the whole, and its ends are
      the ends the two trims left. */
  lemma NestedSlice(s: string, l: string, r: string)
    requires |l| <= |s| && l == s[|s| - |l|..] && AllSpace(s[..|s| - |l|])
    requires l == [] || !IsSpace(l[0])
    requires |r| <= |l| && r == l[..|r|] && AllSpace(l[|r|..])
    requires r == [] || !IsSpace(r[|r| - 1])
    ensures TrimmedAt(s, r, |s| - |l|) && Tight(r)
  {
    assert s[|s| - |l| + |r|..] == l[|r|..];
    if r != [] {
      assert r[0] == l[0];
    }
  }

  /** With whitespace before `i` and a non-space at `i`, TrimLeft starts at `i`. */
  lemma {:induction false} TrimLeftAt(s: string, i: int)
    requires 0 <= i <= |s| && AllSpace(s[..i])
    requires i == |s| || !IsSpace(s[i])
    ensures TrimLeft(s) == s[i..]
  {
    if i > 0 {
      assert IsSpace(s[..i][0]);
      var u := s[1..][..i - 1];
      forall k | 0 <= k < |u| ensures IsSpace(u[k]) {
        assert u[k] == s[..i][k + 1];
      }
      TrimLeftAt(s[1..], i - 1);
      assert s[1..][i - 1..] == s[i..];
    }
  }

  /** With whitespace from `j` on and a non-space before `j`, TrimRight ends at `j`. */
  lemma {:induction false} TrimRightAt(s: string, j: int)
    requires 0 <= j <= |s| && AllSpace(s[j..])
    requires j == 0 || !IsSpace(s[j - 1])
    ensures TrimRight(s) == s[..j]
  {
    if j < |s| {
      assert IsSpace(s[j..][|s| - 1 - j]);
      var t := s[..|s| - 1];
      assert forall k :: 0 <= k < |t| - j ==> t[j..][k] == s[j..][k];
      TrimRightAt(t, j);
      assert t[..j] == s[..j];
    }
  }

  /** TrimSpace is characterised by its contract: any tight slice with
      whitespace margins is the trimmed string. */
  lemma TrimSpaceUnique(s: string, r: string, i: int)
    requires TrimmedAt(s, r, i) && Tight(r)
    ensures TrimSpace(s) == r
  {
    if r == [] {
      AllSpaceSplit(s, i);
      assert s[..|s|] == s;
      TrimLeftAt(s, |s|);
    } else {
      assert s[i] == r[0];
      TrimLeftAt(s, i);
      var l := s[i..];
      assert l[|r|..] == s[i + |r|..];
      assert l[|r| - 1] == r[|r| - 1];
      TrimRightAt(l, |r|);
    }
  }

  lemma TrimSpaceEmptyIff(s: string)
    ensures TrimSpace(s) == [] <==> AllSpace(s)
  {
    if AllSpace(s) {
      AllSpaceSplit(s, 0);
      assert s[..0] == [] && s[0..] == s;
      TrimSpaceUnique(s, [], 0);
    }
    var t := TrimSpace(s);
    var j :| TrimmedAt(s, t, j);
    if t == [] {
      AllSpaceSplit(s, j);
    }
  }

  lemma TrimSpaceIdempotent(s: string)
    ensures TrimSpace(TrimSpace(s)) == TrimSpace(s)
  {
    var t := TrimSpace(s);
    assert TrimmedAt(t, t, 0) by { assert t[..0] == [] && t[|t|..] == [] && t[0..|t|] == t; }
    TrimSpaceUnique(t, t, 0);
  }

  function LowerChar(c: char): char {
    if 'A' <= c <= 'Z' then (c as int + 32) as char else c
  }

  /** `strings.ToLower`, restricted to ASCII letters. */
  function ToLower(s: string): (r: string)
    ensures |r| == |s|
    ensures forall i :: 0 <= i < |s| ==> r[i] == LowerChar(s[i])
  {
    if s == [] then [] else [LowerChar(s[0])] + ToLower(s[1..])
  }

  lemma ToLowerIdempotent(s: string)
    ensures ToLower(ToLower(s)) == ToLower(s)
  {
  }

  /** `sub` occurs in `s` at offset `i`. */
  ghost predicate OccursAt(s: string, sub: string, i: int) {
    0 <= i && i + |sub| <= |s| && s[i..i + |sub|] == sub
  }

  predicate HasPrefix(s: string, p: string) {
    |p| <= |s| && s[..|p|] == p
  }

  lemma OccursShift(s: string, sub: string)
    requires |s| > 0
    ensures (exists i :: OccursAt(s[1..], sub, i)) ==> (exists i :: OccursAt(s, sub, i))
    ensures (exists i :: OccursAt(s, sub, i)) && !HasPrefix(s, sub) ==> (exists i :: OccursAt(s[1..], sub, i))
  {
    if i :| OccursAt(s[1..], sub, i) {
      assert s[1..][i..i + |sub|] == s[i + 1..i + 1 + |sub|];
      assert OccursAt(s, sub, i + 1);
    }
    if i :| OccursAt(s, sub, i) {
      if !HasPrefix(s, sub) {
        assert i != 0;
        assert s[1..][i - 1..i - 1 + |sub|] == s[i..i + |sub|];
        assert OccursAt(s[1..], sub, i - 1);
      }
    }
  }

  /** `strings.Contains`: `sub` is a substring of `s`. */
  function Contains(s: string, sub: string): bool
  {
    if HasPrefix(s, sub) then true
    else if s == [] then false
    else Contains(s[1..], sub)
  }

  /** Contains holds exactly when `sub` occurs somewhere in `s`. */
  lemma {:induction false} ContainsIff(s: string, sub: string)
    ensures Contains(s, sub) <==> exists i :: OccursAt(s, sub, i)
  {
    if HasPrefix(s, sub) {
      assert OccursAt(s, sub, 0);
    } else if s == [] {
    } else {
      ContainsIff(s[1..], sub);
      OccursShift(s, sub);
    }
  }

  /** Every string contains the empty string. */
  lemma ContainsEmpty(s: string)
    ensures Contains(s, "")
  {
    assert HasPrefix(s, "");
  }

  /** A line that is already trimmed and tight is its own trimmed form. */
  lemma TrimSpaceOfTight(s: string)
    requires Tight(s)
    ensures TrimSpace(s) == s
  {
    assert TrimmedAt(s, s, 0) by { assert s[..0] == [] && s[|s|..] == [] && s[0..|s|] == s; }
    TrimSpaceUnique(s, s, 0);
  }

  /** A string with no upper-case ASCII letter is its own lower-cased form. */
  lemma ToLowerOfLower(s: string)
    requires forall i :: 0 <= i < |s| ==> !('A' <= s[i] <= 'Z')
    ensures ToLower(s) == s
  {
  }
}
