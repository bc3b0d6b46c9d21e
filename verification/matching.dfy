/**
  The answer-matching rule of the bot (`compare` in main.py).

  Both strings are lower-cased character by character, each is split at
  EVERY single non-word character, as `re.split("\W", s)` does, and the
  two token lists are compared.  Word characters are modelled for ASCII,
  Latin-1 and Cyrillic U+0400-U+045F only; every other character counts
  as a separator here.  Runs of separators are not collapsed:
  "a  b" splits into ["a", "", "b"], and a leading or trailing separator
  yields an empty token.
*/
module Matching {

  /** Python's `\w` on `str`, restricted to ASCII, Latin-1 and Cyrillic
      U+0400-U+045F: ASCII letters, digits and `_`, the Latin-1 letters
      and numerals, and that Cyrillic block.  Word characters of other
      scripts are not recognised. */
  predicate IsWordChar(c: char) {
    || ('a' <= c <= 'z') || ('A' <= c <= 'Z') || ('0' <= c <= '9') || c == '_'
    || c == '\U{AA}' || c == '\U{B2}' || c == '\U{B3}' || c == '\U{B5}'
    || c == '\U{B9}' || c == '\U{BA}' || ('\U{BC}' <= c <= '\U{BE}')
    || ('\U{C0}' <= c <= '\U{FF}' && c != '\U{D7}' && c != '\U{F7}')
    || ('\U{400}' <= c <= '\U{45F}')
  }

  /** `str.lower()` on one character: the upper-case letters of ASCII,
      Latin-1 and basic Cyrillic map to their lower-case partners. */
  function Lower(c: char): char {
    if 'A' <= c <= 'Z' then (c as int + 32) as char
    else if '\U{C0}' <= c <= '\U{DE}' && c != '\U{D7}' then (c as int + 32) as char
    else if '\U{410}' <= c <= '\U{42F}' then (c as int + 32) as char
    else if '\U{400}' <= c <= '\U{40F}' then (c as int + 80) as char
    else c
  }

  /** `s.lower()`: the per-character lower-casing of a whole string. */
  function LowerStr(s: string): string {
    seq(|s|, k requires 0 <= k < |s| => Lower(s[k]))
  }

  /** The one separator every non-word character is mapped to by `Mask`. */
  const Sep: char := ' '

  /** `s` with every non-word character replaced by `Sep`. */
  function Mask(s: string): string {
    seq(|s|, k requires 0 <= k < |s| => if IsWordChar(s[k]) then s[k] else Sep)
  }

  predicate AllWord(t: string) {
    forall k :: 0 <= k < |t| ==> IsWordChar(t[k])
  }

  /** The number of non-word characters of `s`: each one is a split point. */
  function SeparatorCount(s: string): nat
    decreases |s|
  {
    if |s| == 0 then 0
    else (if IsWordChar(s[0]) then 0 else 1) + SeparatorCount(s[1..])
  }

  /** `re.split("\W", s)`: the maximal word-character stretches between
      consecutive non-word characters, one token more than there are
      separators, empty tokens included. */
  function Split(s: string): (r: seq<string>)
    decreases |s|
    ensures |r| == SeparatorCount(s) + 1
    ensures forall k :: 0 <= k < |r| ==> AllWord(r[k])
  {
    if |s| == 0 then [""]
    else
      var rest := Split(s[1..]);
      if IsWordChar(s[0]) then [[s[0]] + rest[0]] + rest[1..]
      else [""] + rest
  }

  /** The tokens glued back together, `Sep` between neighbours
      (`" ".join(ts)`). */
  function Join(ts: seq<string>): string
    requires |ts| >= 1
    decreases |ts|
  {
    if |ts| == 1 then ts[0] else ts[0] + [Sep] + Join(ts[1..])
  }

  /** `compare(s1, s2)`: the lower-cased strings split into equal token
      lists.  Equivalently, they agree position by position once every
      non-word character is read as the one separator `Sep`; in particular
      matching strings have the same length. */
  function Compare(s1: string, s2: string): (r: bool)
    ensures r <==> Mask(LowerStr(s1)) == Mask(LowerStr(s2))
    ensures r ==> |s1| == |s2|
  {
    SplitEqIffMaskEq(LowerStr(s1), LowerStr(s2));
    Split(LowerStr(s1)) == Split(LowerStr(s2))
  }

  lemma MaskCons(s: string)
    requires |s| > 0
    ensures Mask(s) == [if IsWordChar(s[0]) then s[0] else Sep] + Mask(s[1..])
  {
  }

  /** Joining the tokens of `s` gives back `s` with its separators masked. */
  lemma {:induction false} JoinSplit(s: string)
    ensures Join(Split(s)) == Mask(s)
    decreases |s|
  {
    if |s| == 0 {
      assert Mask(s) == "";
    } else {
      var rest := Split(s[1..]);
      JoinSplit(s[1..]);
      MaskCons(s);
      if IsWordChar(s[0]) {
        var r := [[s[0]] + rest[0]] + rest[1..];
        assert Split(s) == r;
        if |rest| == 1 {
          assert Join(r) == [s[0]] + rest[0];
        } else {
          assert r[1..] == rest[1..];
          assert Join(r) == [s[0]] + rest[0] + [Sep] + Join(rest[1..]);
        }
      } else {
        assert Split(s) == [""] + rest;
        assert ([""] + rest)[1..] == rest;
      }
    }
  }

  /** Splitting a string that starts with a word-only stretch `w`: `w` is
      glued onto the first token of the remainder. */
  lemma {:induction false} SplitWordPrefix(w: string, s: string)
    requires AllWord(w)
    ensures Split(w + s) == [w + Split(s)[0]] + Split(s)[1..]
    decreases |w|
  {
    if |w| == 0 {
      assert w + s == s;
      assert w + Split(s)[0] == Split(s)[0];
      assert [Split(s)[0]] + Split(s)[1..] == Split(s);
    } else {
      assert (w + s)[1..] == w[1..] + s;
      SplitWordPrefix(w[1..], s);
      assert IsWordChar((w + s)[0]);
      assert [w[0]] + (w[1..] + Split(s)[0]) == w + Split(s)[0];
    }
  }

  /** Splitting a string that starts with a separator opens an empty token. */
  lemma SplitSep(s: string)
    ensures Split([Sep] + s) == [""] + Split(s)
  {
    assert ([Sep] + s)[1..] == s;
  }

  /** Splitting undoes joining, for tokens made of word characters only. */
  lemma {:induction false} SplitJoin(ts: seq<string>)
    requires |ts| >= 1
    requires forall k :: 0 <= k < |ts| ==> AllWord(ts[k])
    ensures Split(Join(ts)) == ts
    decreases |ts|
  {
    if |ts| == 1 {
      SplitWordPrefix(ts[0], "");
      assert ts[0] + "" == ts[0];
    } else {
      var j := Join(ts[1..]);
      SplitJoin(ts[1..]);
      SplitSep(j);
      assert Join(ts) == ts[0] + ([Sep] + j);
      SplitWordPrefix(ts[0], [Sep] + j);
      assert ts[0] + "" == ts[0];
      assert ([""] + ts[1..])[1..] == ts[1..];
      assert [ts[0]] + ts[1..] == ts;
    }
  }

  /** Which non-word character separates two tokens does not matter. */
  lemma SplitMask(s: string)
    ensures Split(Mask(s)) == Split(s)
  {
    JoinSplit(s);
    SplitJoin(Split(s));
  }

  /** Two strings split into the same tokens exactly when they agree after
      masking their separators. */
  lemma SplitEqIffMaskEq(a: string, b: string)
    ensures Split(a) == Split(b) <==> Mask(a) == Mask(b)
  {
    JoinSplit(a);
    JoinSplit(b);
    SplitMask(a);
    SplitMask(b);
  }

  lemma LowerIdempotent(c: char)
    ensures Lower(Lower(c)) == Lower(c)
  {
  }

  /** Lower-casing a string that is already lower-cased changes nothing. */
  lemma LowerStrIdempotent(s: string)
    ensures LowerStr(LowerStr(s)) == LowerStr(s)
  {
    forall k | 0 <= k < |s|
      ensures LowerStr(LowerStr(s))[k] == LowerStr(s)[k]
    {
      LowerIdempotent(s[k]);
    }
  }

  /** `compare` ignores case: lower-casing either argument beforehand does
      not change the verdict. */
  lemma CompareIgnoresCase(s1: string, s2: string)
    ensures Compare(LowerStr(s1), s2) == Compare(s1, s2)
    ensures Compare(s1, LowerStr(s2)) == Compare(s1, s2)
  {
    LowerStrIdempotent(s1);
    LowerStrIdempotent(s2);
  }

  /** `compare` is an equivalence relation on answers. */
  lemma CompareIsEquivalence()
    ensures forall a :: Compare(a, a)
    ensures forall a, b :: Compare(a, b) ==> Compare(b, a)
    ensures forall a, b, c :: Compare(a, b) && Compare(b, c) ==> Compare(a, c)
  {
  }

  /** The empty answer matches only the empty translation: any non-empty
      target yields at least one non-empty token or one extra separator. */
  lemma EmptyMatchesOnlyEmpty(w: string)
    ensures Compare("", w) <==> w == ""
  {
    if w == "" {
      assert LowerStr(w) == "";
    }
  }

  /** Two strings that agree everywhere except at one position, where both
      hold a separator, match. */
  lemma SeparatorVariance(a: string, b: string, p: nat)
    requires |a| == |b| && p < |a|
    requires !IsWordChar(a[p]) && !IsWordChar(b[p])
    requires forall k :: 0 <= k < |a| && k != p ==> a[k] == b[k]
    ensures Compare(a, b)
  {
    assert !IsWordChar(Lower(a[p])) && !IsWordChar(Lower(b[p]));
    assert Mask(LowerStr(a)) == Mask(LowerStr(b));
  }

  /** A hyphen in the dictionary may be typed as a space. */
  lemma HyphenMatchesSpace()
    ensures Compare("lief gelaufen", "lief-gelaufen")
  {
    SeparatorVariance("lief gelaufen", "lief-gelaufen", 4);
  }

  /** Capitals in the answer are ignored. */
  lemma CapitalIgnored()
    ensures Compare("Laufen", "laufen")
  {
    var a, b := LowerStr("Laufen"), LowerStr("laufen");
    assert a[0] == 'l';
    assert forall k :: 1 <= k < 6 ==> a[k] == b[k];
    assert a == b;
  }

  /** The order of the tokens counts. */
  lemma OrderMatters()
    ensures !Compare("gelaufen lief", "lief-gelaufen")
  {
    assert Mask(LowerStr("gelaufen lief"))[0] == 'g';
    assert Mask(LowerStr("lief-gelaufen"))[0] == 'l';
  }

  /** Runs of separators are not collapsed: two spaces are not one. */
  lemma RunsNotCollapsed()
    ensures !Compare("a  b", "a b")
  {
  }
}
