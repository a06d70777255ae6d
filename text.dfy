/**
 * The Python string operations the metadata generator relies on:
 * `str.strip()`, `str.split()`, `str.lower()`, `str.replace(old, new)` and
 * the character-class filter applied to clip titles.
 *
 * Python's character classes come from the Unicode database. The model does
 * not reproduce that table: `CharTable` carries `isalnum`, `isspace` and a
 * per-character `lower` as parameters.
 */
module Text {
  import opened Base

  datatype CharTable = CharTable(isAlnum: char -> bool, isSpace: char -> bool, lower: char -> char)

  /** Lower-casing a lower-cased character changes nothing, and '-' is its own lower case. */
  predicate LowerIsStable(ct: CharTable) {
    && (forall c :: ct.lower(ct.lower(c)) == ct.lower(c))
    && ct.lower('-') == '-'
  }

  /** Every character of `s` is already lower case. */
  predicate IsLower(s: string, ct: CharTable) {
    forall k :: 0 <= k < |s| ==> ct.lower(s[k]) == s[k]
  }

  predicate NoSpaceIn(s: string, ct: CharTable) {
    forall k :: 0 <= k < |s| ==> !ct.isSpace(s[k])
  }

  // ---------------------------------------------------------------- strip

  /** Every character of `s` is whitespace. */
  predicate AllSpace(s: string, ct: CharTable) {
    forall k :: 0 <= k < |s| ==> ct.isSpace(s[k])
  }

  /** Leading whitespace removed: the result is the suffix that starts at the first non-space. */
  function StripStart(s: string, ct: CharTable): (r: string)
    ensures |r| <= |s| && r == s[|s| - |r|..]
    ensures AllSpace(s[..|s| - |r|], ct)
    ensures r != [] ==> !ct.isSpace(r[0])
    decreases |s|
  {
    if s != [] && ct.isSpace(s[0]) then
      var r := StripStart(s[1..], ct);
      SpaceBeforeSuffix(s, r, ct);
      r
    else s
  }

  /** Trailing whitespace removed: the result is the prefix that ends at the last non-space. */
  function StripEnd(s: string, ct: CharTable): (r: string)
    ensures |r| <= |s| && r == s[..|r|]
    ensures AllSpace(s[|r|..], ct)
    ensures r != [] ==> !ct.isSpace(r[|r| - 1])
    decreases |s|
  {
    if s != [] && ct.isSpace(s[|s| - 1]) then
      var r := StripEnd(s[..|s| - 1], ct);
      SpaceAfterPrefix(s, r, ct);
      r
    else s
  }

  /** A suffix of `s[1..]` after whitespace is a suffix of `s` after whitespace, when `s[0]` is whitespace. */
  lemma SpaceBeforeSuffix(s: string, r: string, ct: CharTable)
    requires s != [] && ct.isSpace(s[0])
    requires |r| <= |s| - 1 && r == s[1..][|s| - 1 - |r|..]
    requires AllSpace(s[1..][..|s| - 1 - |r|], ct)
    ensures r == s[|s| - |r|..]
    ensures AllSpace(s[..|s| - |r|], ct)
  {
    var n := |s| - |r|;
    forall k | 0 <= k < n ensures ct.isSpace(s[..n][k]) {
      if k > 0 {
        assert s[..n][k] == s[1..][..n - 1][k - 1];
      }
    }
  }

  /** A prefix of `s[..|s| - 1]` before whitespace is a prefix of `s` before whitespace, when `s`'s last character is whitespace. */
  lemma SpaceAfterPrefix(s: string, r: string, ct: CharTable)
    requires s != [] && ct.isSpace(s[|s| - 1])
    requires |r| <= |s| - 1 && r == s[..|s| - 1][..|r|]
    requires AllSpace(s[..|s| - 1][|r|..], ct)
    ensures r == s[..|r|]
    ensures AllSpace(s[|r|..], ct)
  {
    forall k | 0 <= k < |s| - |r| ensures ct.isSpace(s[|r|..][k]) {
      if k < |s| - 1 - |r| {
        assert s[|r|..][k] == s[..|s| - 1][|r|..][k];
      }
    }
  }

  /** `r` is the slice of `s` that starts at `lead`, with only whitespace before and after it. */
  predicate SpaceAround(s: string, r: string, lead: nat, ct: CharTable) {
    && lead + |r| <= |s|
    && r == s[lead..lead + |r|]
    && AllSpace(s[..lead], ct)
    && AllSpace(s[lead + |r|..], ct)
  }

  /**
   * Python's `s.strip()`: whitespace removed at both ends. The result is a
   * slice of `s` with only whitespace before and after it.
   */
  function Strip(s: string, ct: CharTable): (r: string)
    ensures |r| <= |s|
    ensures SpaceAround(s, r, |s| - |StripStart(s, ct)|, ct)
    ensures r != [] ==> !ct.isSpace(r[0]) && !ct.isSpace(r[|r| - 1])
  {
    StripSlice(s, ct);
    StripEnd(StripStart(s, ct), ct)
  }

  /** The ends `StripStart` and `StripEnd` remove are whitespace of `s`. */
  lemma StripSlice(s: string, ct: CharTable)
    ensures var a := StripStart(s, ct);
            SpaceAround(s, StripEnd(a, ct), |s| - |a|, ct)
  {
    var a := StripStart(s, ct);
    var r := StripEnd(a, ct);
    PrefixOfSuffix(s, a, r, ct);
  }

  /**
   * A prefix `r` of a suffix `a` of `s`, with only whitespace before `a` in
   * `s` and after `r` in `a`, is a slice of `s` with only whitespace around it.
   */
  lemma PrefixOfSuffix(s: string, a: string, r: string, ct: CharTable)
    requires |a| <= |s| && a == s[|s| - |a|..] && AllSpace(s[..|s| - |a|], ct)
    requires |r| <= |a| && r == a[..|r|] && AllSpace(a[|r|..], ct)
    ensures SpaceAround(s, r, |s| - |a|, ct)
  {
    var lead := |s| - |a|;
    assert s[lead..lead + |r|] == a[..|r|];
    assert s[lead + |r|..] == a[|r|..];
  }

  /** Stripping is idempotent. */
  lemma StripIdempotent(s: string, ct: CharTable)
    ensures Strip(Strip(s, ct), ct) == Strip(s, ct)
  {
    var r := Strip(s, ct);
    if r != [] {
      assert StripStart(r, ct) == r;
      assert StripEnd(r, ct) == r;
    }
  }

  // ---------------------------------------------------------------- split

  /** Length of the run of non-space characters at the start of `s`. */
  function WordLength(s: string, ct: CharTable): (n: nat)
    ensures n <= |s|
    ensures forall k :: 0 <= k < n ==> !ct.isSpace(s[k])
    ensures n < |s| ==> ct.isSpace(s[n])
    decreases |s|
  {
    if s == [] || ct.isSpace(s[0]) then 0 else 1 + WordLength(s[1..], ct)
  }

  /** Python's `s.split()`: the maximal runs of non-space characters, in order. */
  function Split(s: string, ct: CharTable): (words: seq<string>)
    ensures forall i :: 0 <= i < |words| ==> words[i] != [] && NoSpaceIn(words[i], ct)
    decreases |s|
  {
    if s == [] then []
    else if ct.isSpace(s[0]) then Split(s[1..], ct)
    else
      var n := WordLength(s, ct);
      [s[..n]] + Split(s[n..], ct)
  }

  /** The characters of `s` that are not whitespace, in order. */
  function NonSpace(s: string, ct: CharTable): string
    decreases |s|
  {
    if s == [] then []
    else (if ct.isSpace(s[0]) then [] else [s[0]]) + NonSpace(s[1..], ct)
  }

  function Flatten(words: seq<string>): string
    decreases |words|
  {
    if words == [] then [] else words[0] + Flatten(words[1..])
  }

  /** Dropping whitespace works piece by piece. */
  lemma {:induction false} NonSpaceAppend(a: string, b: string, ct: CharTable)
    ensures NonSpace(a + b, ct) == NonSpace(a, ct) + NonSpace(b, ct)
    decreases |a|
  {
    if a == [] {
      assert a + b == b;
    } else {
      assert (a + b)[0] == a[0] && (a + b)[1..] == a[1..] + b;
      NonSpaceAppend(a[1..], b, ct);
    }
  }

  /** A run of whitespace has no non-space characters, and no non-space character occurs in it. */
  lemma {:induction false} NonSpaceOfSpaces(s: string, ct: CharTable)
    requires AllSpace(s, ct)
    ensures NonSpace(s, ct) == []
    ensures forall c :: !ct.isSpace(c) ==> multiset(s)[c] == 0
    decreases |s|
  {
    if s != [] {
      assert AllSpace(s[1..], ct);
      NonSpaceOfSpaces(s[1..], ct);
      assert s == [s[0]] + s[1..];
    }
  }

  /**
   * Stripping removes whitespace only: the non-space characters of `s`
   * survive, in order and with their multiplicities.
   */
  lemma StripKeepsNonSpace(s: string, ct: CharTable)
    ensures NonSpace(Strip(s, ct), ct) == NonSpace(s, ct)
    ensures forall c :: !ct.isSpace(c) ==> multiset(Strip(s, ct))[c] == multiset(s)[c]
  {
    SpaceAroundKeepsNonSpace(s, Strip(s, ct), |s| - |StripStart(s, ct)|, ct);
  }

  /** Removing whitespace around a slice keeps the non-space characters, in order and with their multiplicities. */
  lemma SpaceAroundKeepsNonSpace(s: string, r: string, lead: nat, ct: CharTable)
    requires SpaceAround(s, r, lead, ct)
    ensures NonSpace(r, ct) == NonSpace(s, ct)
    ensures forall c :: !ct.isSpace(c) ==> multiset(r)[c] == multiset(s)[c]
  {
    var head, tail := s[..lead], s[lead + |r|..];
    assert s == head + r + tail;
    NonSpaceOfSpaces(head, ct);
    NonSpaceOfSpaces(tail, ct);
    NonSpaceAppend(head + r, tail, ct);
    NonSpaceAppend(head, r, ct);
    assert multiset(s) == multiset(head) + multiset(r) + multiset(tail);
  }


  lemma {:induction false} NonSpaceOfWord(w: string, t: string, ct: CharTable)
    requires NoSpaceIn(w, ct)
    ensures NonSpace(w + t, ct) == w + NonSpace(t, ct)
    decreases |w|
  {
    if w != [] {
      assert (w + t)[0] == w[0] && !ct.isSpace(w[0]);
      assert (w + t)[1..] == w[1..] + t;
      assert NoSpaceIn(w[1..], ct);
      NonSpaceOfWord(w[1..], t, ct);
      calc {
        NonSpace(w + t, ct);
        [w[0]] + NonSpace(w[1..] + t, ct);
        [w[0]] + (w[1..] + NonSpace(t, ct));
        { assert w == [w[0]] + w[1..]; }
        w + NonSpace(t, ct);
      }
    } else {
      assert w + t == t;
    }
  }

  /** Splitting loses nothing but whitespace: the words, glued together, are `s` without its spaces. */
  lemma {:induction false} SplitKeepsNonSpace(s: string, ct: CharTable)
    ensures Flatten(Split(s, ct)) == NonSpace(s, ct)
    decreases |s|
  {
    if s == [] {
    } else if ct.isSpace(s[0]) {
      SplitKeepsNonSpace(s[1..], ct);
    } else {
      var n := WordLength(s, ct);
      SplitKeepsNonSpace(s[n..], ct);
      NonSpaceOfWord(s[..n], s[n..], ct);
      assert s[..n] + s[n..] == s;
      assert Split(s, ct) == [s[..n]] + Split(s[n..], ct);
      assert ([s[..n]] + Split(s[n..], ct))[1..] == Split(s[n..], ct);
    }
  }

  /** A word that runs into a whitespace character ends there. */
  lemma {:induction false} WordLengthBeforeSpace(a: string, sp: char, b: string, ct: CharTable)
    requires ct.isSpace(sp)
    ensures WordLength(a + [sp] + b, ct) == WordLength(a, ct)
    decreases |a|
  {
    if a == [] {
      assert (a + [sp] + b)[0] == sp;
    } else if !ct.isSpace(a[0]) {
      assert (a + [sp] + b)[0] == a[0];
      assert (a + [sp] + b)[1..] == a[1..] + [sp] + b;
      WordLengthBeforeSpace(a[1..], sp, b, ct);
    } else {
      assert (a + [sp] + b)[0] == a[0];
    }
  }

  /** Words never span whitespace: splitting at a whitespace character splits the word list there. */
  lemma {:induction false} SplitAtSpace(a: string, sp: char, b: string, ct: CharTable)
    requires ct.isSpace(sp)
    ensures Split(a + [sp] + b, ct) == Split(a, ct) + Split(b, ct)
    decreases |a|
  {
    var s := a + [sp] + b;
    if a == [] {
      assert s[0] == sp && s[1..] == b;
    } else if ct.isSpace(a[0]) {
      assert s[0] == a[0] && s[1..] == a[1..] + [sp] + b;
      SplitAtSpace(a[1..], sp, b, ct);
    } else {
      var n := WordLength(a, ct);
      WordLengthBeforeSpace(a, sp, b, ct);
      assert s[0] == a[0];
      assert s[..n] == a[..n];
      assert s[n..] == a[n..] + [sp] + b;
      SplitAtSpace(a[n..], sp, b, ct);
    }
  }

  /** A non-empty run without whitespace is a single word. */
  lemma {:induction false} SplitWord(w: string, ct: CharTable)
    requires w != [] && NoSpaceIn(w, ct)
    ensures Split(w, ct) == [w]
  {
    var n := WordLength(w, ct);
    assert w[..n] == w && w[n..] == [];
  }

  // ------------------------------------------------- lower, replace, filter

  /** Python's `s.lower()`, one character at a time. */
  function Lower(s: string, ct: CharTable): (r: string)
    ensures |r| == |s|
  {
    seq(|s|, i requires 0 <= i < |s| => ct.lower(s[i]))
  }

  lemma LowerIsLower(s: string, ct: CharTable)
    requires LowerIsStable(ct)
    ensures IsLower(Lower(s, ct), ct)
  {
  }

  /** `a` and `b` hold every character outside `excluded` equally often. */
  predicate SameCountsOutside(a: string, b: string, excluded: string) {
    forall c :: c !in excluded ==> multiset(a)[c] == multiset(b)[c]
  }

  /**
   * Python's `s.replace(old, new)` for a one-character `old`: every
   * occurrence is replaced; other characters are kept.
   */
  function ReplaceChar(s: string, from: char, to: string): (r: string)
    ensures SameCountsOutside(r, s, [from] + to)
    ensures from !in to ==> multiset(r)[from] == 0
    ensures |to| == 1 && to[0] != from ==> multiset(r)[to[0]] == multiset(s)[to[0]] + multiset(s)[from]
    ensures to == [] ==> |r| == |s| - multiset(s)[from]
    ensures |to| == 1 ==> |r| == |s|
    decreases |s|
  {
    if s == [] then []
    else
      assert s == [s[0]] + s[1..];
      (if s[0] == from then to else [s[0]]) + ReplaceChar(s[1..], from, to)
  }

  /** Replacement works piece by piece: replacing in `a + b` replaces in `a`, then in `b`. */
  lemma {:induction false} ReplaceCharAppend(a: string, b: string, from: char, to: string)
    ensures ReplaceChar(a + b, from, to) == ReplaceChar(a, from, to) + ReplaceChar(b, from, to)
    decreases |a|
  {
    if a == [] {
      assert ReplaceChar(a, from, to) == [];
      assert a + b == b;
    } else {
      var head := if a[0] == from then to else [a[0]];
      assert (a + b)[1..] == a[1..] + b;
      ReplaceCharFirst(a + b, from, to);
      ReplaceCharFirst(a, from, to);
      ReplaceCharAppend(a[1..], b, from, to);
      AppendAssoc(head, ReplaceChar(a[1..], from, to), ReplaceChar(b, from, to));
    }
  }

  lemma ReplaceCharFirst(s: string, from: char, to: string)
    requires s != []
    ensures ReplaceChar(s, from, to) == (if s[0] == from then to else [s[0]]) + ReplaceChar(s[1..], from, to)
  {
  }

  /** Replacing a character by a one-character string replaces it position by position. */
  lemma {:induction false} ReplaceCharAt(s: string, from: char, to: char, k: nat)
    requires k < |s|
    ensures |ReplaceChar(s, from, [to])| == |s|
    ensures ReplaceChar(s, from, [to])[k] == if s[k] == from then to else s[k]
    decreases |s|
  {
    if k > 0 {
      ReplaceCharAt(s[1..], from, to, k - 1);
    }
  }

  /** The characters a cleaned title may keep. */
  predicate Allowed(c: char, ct: CharTable) {
    ct.isAlnum(c) || ct.isSpace(c) || c in "'-_!?."
  }

  /** `r` holds each allowed character as often as `s` does, and no other character. */
  predicate AllowedCounts(r: string, s: string, ct: CharTable) {
    forall c :: multiset(r)[c] == if Allowed(c, ct) then multiset(s)[c] else 0
  }

  /** The characters of `s` that a cleaned title may keep, in order. */
  function KeepAllowed(s: string, ct: CharTable): (r: string)
    ensures forall k :: 0 <= k < |r| ==> Allowed(r[k], ct)
    ensures AllowedCounts(r, s, ct)
    decreases |s|
  {
    if s == [] then []
    else
      assert s == [s[0]] + s[1..];
      (if Allowed(s[0], ct) then [s[0]] else []) + KeepAllowed(s[1..], ct)
  }

  /** Filtering keeps order: filtering `a + b` filters `a`, then `b`. */
  lemma {:induction false} KeepAllowedAppend(a: string, b: string, ct: CharTable)
    ensures KeepAllowed(a + b, ct) == KeepAllowed(a, ct) + KeepAllowed(b, ct)
    decreases |a|
  {
    if a == [] {
      assert KeepAllowed(a, ct) == [];
      assert a + b == b;
    } else {
      var head := if Allowed(a[0], ct) then [a[0]] else [];
      assert (a + b)[1..] == a[1..] + b;
      KeepAllowedFirst(a + b, ct);
      KeepAllowedFirst(a, ct);
      KeepAllowedAppend(a[1..], b, ct);
      AppendAssoc(head, KeepAllowed(a[1..], ct), KeepAllowed(b, ct));
    }
  }

  lemma KeepAllowedFirst(s: string, ct: CharTable)
    requires s != []
    ensures KeepAllowed(s, ct) == (if Allowed(s[0], ct) then [s[0]] else []) + KeepAllowed(s[1..], ct)
  {
  }
}
