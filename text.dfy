/**
 * The two Python string methods the add handler applies to user input:
 * `str.strip()` with no argument and `str.capitalize()`.
 * Characters are Unicode code points; whitespace and case mapping are
 * modelled for the Latin-1 range that Python's `isspace` and the ASCII
 * letters cover (see README, "Left out").
 */
module Text {

  /** Python's `str.isspace()` on the Latin-1 range. */
  predicate IsSpace(c: char) {
    (9 <= c as int <= 13) || (28 <= c as int <= 32) || c as int == 0x85 || c as int == 0xA0
  }

  predicate IsUpper(c: char) { 'A' <= c <= 'Z' }

  predicate IsLower(c: char) { 'a' <= c <= 'z' }

  function ToUpper(c: char): (u: char)
    ensures !IsLower(u)
    ensures IsSpace(u) <==> IsSpace(c)
  {
    if IsLower(c) then (c as int - 32) as char else c
  }

  function ToLower(c: char): (l: char)
    ensures !IsUpper(l)
    ensures IsSpace(l) <==> IsSpace(c)
  {
    if IsUpper(c) then (c as int + 32) as char else c
  }

  /** `str.lower()`: the text with every letter in lower case. */
  function Lower(s: string): (r: string)
    ensures |r| == |s|
    ensures forall k :: 0 <= k < |r| ==> !IsUpper(r[k])
  {
    if s == [] then [] else [ToLower(s[0])] + Lower(s[1..])
  }

  /** Each character of the lowered text is the lower-case form of the input's character there. */
  lemma {:induction false} LowerAt(s: string, k: nat)
    requires k < |s|
    ensures Lower(s)[k] == ToLower(s[k])
  {
    if k > 0 {
      LowerAt(s[1..], k - 1);
    }
  }

  /** Lowering twice changes nothing. */
  lemma {:induction false} LowerIdempotent(s: string)
    ensures Lower(Lower(s)) == Lower(s)
  {
    if s != [] {
      var l := Lower(s);
      assert l[1..] == Lower(s[1..]);
      LowerIdempotent(s[1..]);
    }
  }

  /** First character not lower case, every later one not upper case. */
  predicate IsCapitalized(t: string) {
    (|t| > 0 ==> !IsLower(t[0])) && forall k :: 1 <= k < |t| ==> !IsUpper(t[k])
  }

  /**
   * `str.capitalize()`: the first character upper case and the rest lower case.
   * The result is the capitalised spelling of the same text ignoring case.
   */
  function Capitalize(s: string): (r: string)
    ensures |r| == |s|
    ensures IsCapitalized(r)
    ensures Lower(r) == Lower(s)
  {
    if s == [] then []
    else
      var r := [ToUpper(s[0])] + Lower(s[1..]);
      assert r[1..] == Lower(s[1..]);
      LowerIdempotent(s[1..]);
      r
  }

  /** The character at each position of a capitalized text. */
  lemma CapitalizeAt(s: string, k: nat)
    requires k < |s|
    ensures Capitalize(s)[k] == if k == 0 then ToUpper(s[0]) else ToLower(s[k])
  {
    if k > 0 {
      var tail := Lower(s[1..]);
      assert Capitalize(s) == [ToUpper(s[0])] + tail;
      LowerAt(s[1..], k - 1);
    }
  }

  /** Capitalised form of a character, as a helper of CapitalizeUnique. */
  lemma CharCase(t: char, c: char, first: bool)
    requires ToLower(t) == ToLower(c)
    requires first ==> !IsLower(t)
    requires !first ==> !IsUpper(t)
    ensures t == if first then ToUpper(c) else ToLower(c)
  {
  }

  /**
   * Capitalize has an independent characterisation: the only capitalised
   * text that equals `s` ignoring case is `Capitalize(s)`.
   */
  lemma CapitalizeUnique(s: string, t: string)
    requires IsCapitalized(t) && Lower(t) == Lower(s)
    ensures t == Capitalize(s)
  {
    var r := Capitalize(s);
    assert |t| == |s|;
    forall k | 0 <= k < |t|
      ensures t[k] == r[k]
    {
      LowerAt(t, k);
      LowerAt(s, k);
      CapitalizeAt(s, k);
      CharCase(t[k], s[k], k == 0);
    }
  }

  /** Capitalizing twice changes nothing. */
  lemma CapitalizeIdempotent(s: string)
    ensures Capitalize(Capitalize(s)) == Capitalize(s)
  {
    CapitalizeUnique(Capitalize(s), Capitalize(s));
  }

  /** Two inputs capitalize alike exactly when they agree ignoring case. */
  lemma CapitalizeCaseless(a: string, b: string)
    ensures Capitalize(a) == Capitalize(b) <==> Lower(a) == Lower(b)
  {
    if Lower(a) == Lower(b) {
      CapitalizeUnique(b, Capitalize(a));
    }
  }

  /** `str.lstrip()`: drops the leading whitespace and nothing else. */
  function LStrip(s: string): (r: string)
    ensures |r| <= |s| && r == s[|s| - |r|..]
    ensures forall k :: 0 <= k < |s| - |r| ==> IsSpace(s[k])
    ensures r == [] || !IsSpace(r[0])
  {
    if s != [] && IsSpace(s[0]) then LStrip(s[1..]) else s
  }

  /** `str.rstrip()`: drops the trailing whitespace and nothing else. */
  function RStrip(s: string): (r: string)
    ensures |r| <= |s| && r == s[..|r|]
    ensures forall k :: |r| <= k < |s| ==> IsSpace(s[k])
    ensures r == [] || !IsSpace(r[|r| - 1])
  {
    if s != [] && IsSpace(s[|s| - 1]) then RStrip(s[..|s| - 1]) else s
  }

  /** No whitespace at either end. */
  predicate IsStripped(t: string) {
    t == [] || (!IsSpace(t[0]) && !IsSpace(t[|t| - 1]))
  }

  /** `str.strip()`: the text between the leading and the trailing whitespace. */
  function Strip(s: string): (r: string)
    ensures IsStripped(r)
  {
    var l := LStrip(s);
    var r := RStrip(l);
    assert r != [] ==> r[0] == l[0] && !IsSpace(r[0]) && !IsSpace(r[|r| - 1]);
    r
  }

  /**
   * Strip returns the middle of the input: the part between a run of
   * leading whitespace and a run of trailing whitespace.
   */
  lemma StripIsMiddle(s: string)
    ensures exists i, j :: 0 <= i <= j <= |s| && Strip(s) == s[i..j] &&
                           (forall k :: 0 <= k < i ==> IsSpace(s[k])) &&
                           (forall k :: j <= k < |s| ==> IsSpace(s[k]))
  {
    var l := LStrip(s);
    var r := RStrip(l);
    var i := |s| - |l|;
    StripSlice(s, l, r, i);
    TrailingSpace(s, l, r, i);
    assert forall k :: 0 <= k < i ==> IsSpace(s[k]);
    assert Strip(s) == s[i..i + |r|];
  }

  /** The stripped text is the prefix RStrip keeps of the suffix LStrip keeps. */
  lemma StripSlice(s: string, l: string, r: string, i: nat)
    requires l == LStrip(s) && r == RStrip(l) && i == |s| - |l|
    ensures i + |r| <= |s| && Strip(s) == s[i..i + |r|]
  {
    assert Strip(s) == r;
    PrefixOfSuffix(s, i, l, r);
  }

  /** A prefix of a suffix is a slice. */
  lemma PrefixOfSuffix<T>(s: seq<T>, i: nat, l: seq<T>, r: seq<T>)
    requires i <= |s| && l == s[i..] && |r| <= |l| && r == l[..|r|]
    ensures r == s[i..i + |r|]
  {
    assert forall k :: 0 <= k < |r| ==> r[k] == l[k] == s[i + k];
  }

  /** What RStrip drops from the end of LStrip's result is whitespace of the input. */
  lemma TrailingSpace(s: string, l: string, r: string, i: nat)
    requires l == LStrip(s) && r == RStrip(l) && i == |s| - |l|
    ensures forall k :: i + |r| <= k < |s| ==> IsSpace(s[k])
  {
    forall k | i + |r| <= k < |s|
      ensures IsSpace(s[k])
    {
      SuffixAt(s, i, l, k);
    }
  }

  /** Indexing a suffix is indexing the sequence it was cut from. */
  lemma SuffixAt<T>(s: seq<T>, i: nat, l: seq<T>, k: nat)
    requires i <= k < |s| && l == s[i..]
    ensures l[k - i] == s[k]
  {
  }

  /** Stripping text without surrounding whitespace leaves it as it is. */
  lemma StripNoop(t: string)
    requires IsStripped(t)
    ensures Strip(t) == t
  {
    assert LStrip(t) == t;
    assert RStrip(t) == t;
  }

  /** Capitalizing keeps the text free of surrounding whitespace. */
  lemma CapitalizeKeepsStripped(t: string)
    requires IsStripped(t)
    ensures IsStripped(Capitalize(t))
  {
    if t != [] {
      CapitalizeAt(t, 0);
      CapitalizeAt(t, |t| - 1);
    }
  }
}
