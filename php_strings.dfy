/** The PHP string built-ins the core calls (`trim`, `explode`, `implode`,
    `strtr`, `empty`, `intval`, the `\w` class of PCRE and ASCII case
    mapping), written out on `seq<char>`, one `char` per byte. */
module PhpStrings {

  /** The characters PHP's `trim` strips by default: " \t\n\r\0\x0B". */
  predicate IsSpace(c: char) {
    c == ' ' || c == '\t' || c == '\n' || c == '\r' || c == 0 as char || c == 11 as char
  }

  predicate AllSpace(s: string) {
    forall i :: 0 <= i < |s| ==> IsSpace(s[i])
  }

  /** The PCRE class `\w` outside UTF mode: ASCII letters, digits, underscore. */
  predicate IsWordChar(c: char) {
    ('a' <= c <= 'z') || ('A' <= c <= 'Z') || ('0' <= c <= '9') || c == '_'
  }

  predicate IsWord(s: string) {
    |s| > 0 && forall i :: 0 <= i < |s| ==> IsWordChar(s[i])
  }

  predicate IsDigit(c: char) {
    '0' <= c <= '9'
  }

  function TrimLeft(s: string): (r: string)
    ensures |r| <= |s| && forall i :: 0 <= i < |r| ==> r[i] == s[|s| - |r| + i]
    ensures AllSpace(s[..|s| - |r|])
    ensures r == [] || !IsSpace(r[0])
  {
    if |s| > 0 && IsSpace(s[0]) then TrimLeft(s[1..]) else s
  }

  function TrimRight(s: string): (r: string)
    ensures |r| <= |s| && r == s[..|r|]
    ensures AllSpace(s[|r|..])
    ensures r == [] || !IsSpace(r[|r| - 1])
  {
    if |s| > 0 && IsSpace(s[|s| - 1]) then
      var r := TrimRight(s[..|s| - 1]);
      assert s[|r|..] == s[..|s| - 1][|r|..] + [s[|s| - 1]];
      r
    else s
  }

  /** PHP `trim($s)`. */
  function Trim(s: string): (r: string)
    ensures r == [] || (!IsSpace(r[0]) && !IsSpace(r[|r| - 1]))
    ensures Framed(s, r)
  {
    var l := TrimLeft(s);
    var r := TrimRight(l);
    TrimSlice(s, l, r);
    r
  }

  /** `r` is a slice of `s` with only whitespace before and after it. */
  predicate Framed(s: string, r: string) {
    exists k :: 0 <= k <= |s| - |r| && r == s[k..k + |r|]
                && AllSpace(s[..k]) && AllSpace(s[k + |r|..])
  }

  /** `trim`'s two passes leave a slice of the text framed by whitespace. */
  lemma TrimSlice(s: string, l: string, r: string)
    requires l == TrimLeft(s) && r == TrimRight(l)
    ensures Framed(s, r)
  {
    var k := |s| - |l|;
    TrimLeftSuffix(s, l);
    assert AllSpace(s[..k]);
    assert AllSpace(l[|r|..]) && r == l[..|r|];
    FramedAt(s, l, r, k);
  }

  lemma TrimLeftSuffix(s: string, l: string)
    requires l == TrimLeft(s)
    ensures s[|s| - |l|..] == l
  {
  }

  lemma FramedAt(s: string, l: string, r: string, k: nat)
    requires k + |l| == |s| && s[k..] == l
    requires |r| <= |l| && r == l[..|r|]
    requires AllSpace(s[..k]) && AllSpace(l[|r|..])
    ensures Framed(s, r)
  {
    assert s[k..k + |r|] == l[..|r|];
    assert s[k + |r|..] == l[|r|..];
  }

  /** A string without surrounding whitespace is its own `trim`. */
  lemma TrimOfTrimmed(s: string)
    requires s == [] || (!IsSpace(s[0]) && !IsSpace(s[|s| - 1]))
    ensures Trim(s) == s
  {
  }

  /** `trim` removes any whitespace padding added on either side. */
  lemma {:induction false} TrimPadding(left: string, s: string, right: string)
    requires AllSpace(left) && AllSpace(right)
    ensures Trim(left + s + right) == Trim(s)
  {
    TrimLeftPadding(left, s + right);
    assert left + s + right == left + (s + right);
    TrimRightPadding(TrimLeft(s + right), right);
    TrimLeftOfSuffixPadding(s, right);
  }

  lemma {:induction false} TrimLeftPadding(left: string, s: string)
    requires AllSpace(left)
    ensures TrimLeft(left + s) == TrimLeft(s)
  {
    if left != [] {
      assert (left + s)[0] == left[0] && IsSpace(left[0]);
      assert (left + s)[1..] == left[1..] + s;
      assert TrimLeft(left + s) == TrimLeft(left[1..] + s);
      TrimLeftPadding(left[1..], s);
    } else {
      assert left + s == s;
    }
  }

  lemma {:induction false} TrimRightPadding(s: string, right: string)
    requires AllSpace(right)
    ensures TrimRight(s + right) == TrimRight(s)
  {
    if right != [] {
      var n := |right|;
      assert (s + right)[|s + right| - 1] == right[n - 1] && IsSpace(right[n - 1]);
      assert (s + right)[..|s + right| - 1] == s + right[..n - 1];
      assert TrimRight(s + right) == TrimRight(s + right[..n - 1]);
      TrimRightPadding(s, right[..n - 1]);
    } else {
      assert s + right == s;
    }
  }

  /** Left-trimming `s + right` then right-trimming gives the same as doing
      it on `s` alone, when `right` is whitespace. */
  lemma {:induction false} TrimLeftOfSuffixPadding(s: string, right: string)
    requires AllSpace(right)
    ensures TrimRight(TrimLeft(s + right)) == TrimRight(TrimLeft(s))
  {
    if |s| > 0 && IsSpace(s[0]) {
      assert (s + right)[1..] == s[1..] + right;
      TrimLeftOfSuffixPadding(s[1..], right);
    } else if |s| > 0 {
      TrimRightPadding(s, right);
    } else {
      assert s + right == right;
      TrimLeftAllSpace(right);
    }
  }

  lemma {:induction false} TrimLeftAllSpace(s: string)
    requires AllSpace(s)
    ensures TrimLeft(s) == []
  {
    if s != [] {
      TrimLeftAllSpace(s[1..]);
    }
  }

  /** The longest prefix of `s` made of `\w` characters: what PCRE's
      `/^\w+/` captures as `$matches[0]` (empty when it fails). */
  function WordPrefix(s: string): (w: string)
    ensures |w| <= |s| && w == s[..|w|]
    ensures forall i :: 0 <= i < |w| ==> IsWordChar(w[i])
    ensures |w| == |s| || !IsWordChar(s[|w|])
  {
    if |s| > 0 && IsWordChar(s[0]) then [s[0]] + WordPrefix(s[1..]) else []
  }

  /** PHP `explode($sep, $s)` for a one-character separator. */
  function Explode(sep: char, s: string): (parts: seq<string>)
    ensures |parts| >= 1
    ensures forall i :: 0 <= i < |parts| ==> sep !in parts[i]
  {
    if s == [] then [""]
    else
      var rest := Explode(sep, s[1..]);
      if s[0] == sep then [""] + rest
      else [[s[0]] + rest[0]] + rest[1..]
  }

  /** PHP `implode($sep, $parts)` for a one-character separator. */
  function Implode(sep: char, parts: seq<string>): string {
    if parts == [] then ""
    else if |parts| == 1 then parts[0]
    else parts[0] + [sep] + Implode(sep, parts[1..])
  }

  /** Joining the pieces of an `explode` gives back the original text. */
  lemma {:induction false} ImplodeExplode(sep: char, s: string)
    ensures Implode(sep, Explode(sep, s)) == s
  {
    if s != [] {
      var rest := Explode(sep, s[1..]);
      ImplodeExplode(sep, s[1..]);
      if s[0] == sep {
        assert Explode(sep, s) == [""] + rest;
        assert s == [sep] + s[1..];
      } else {
        var parts := [[s[0]] + rest[0]] + rest[1..];
        assert Explode(sep, s) == parts;
        if |rest| == 1 {
          assert s == [s[0]] + rest[0];
        } else {
          assert parts[1..] == rest[1..];
          assert Implode(sep, rest) == rest[0] + [sep] + Implode(sep, rest[1..]);
          assert s == [s[0]] + s[1..];
        }
      }
    }
  }

  /** Splitting the `implode` of separator-free pieces gives the pieces back. */
  lemma {:induction false} ExplodeImplode(sep: char, parts: seq<string>)
    requires |parts| >= 1
    requires forall i :: 0 <= i < |parts| ==> sep !in parts[i]
    ensures Explode(sep, Implode(sep, parts)) == parts
  {
    if |parts| == 1 {
      ExplodeNoSep(sep, parts[0]);
    } else {
      ExplodeImplode(sep, parts[1..]);
      ExplodeConcat(sep, parts[0], Implode(sep, parts[1..]));
    }
  }

  lemma {:induction false} ExplodeNoSep(sep: char, s: string)
    requires sep !in s
    ensures Explode(sep, s) == [s]
  {
    if s != [] {
      ExplodeNoSep(sep, s[1..]);
      assert s[0] != sep;
      assert [s[0]] + s[1..] == s;
    }
  }

  lemma {:induction false} ExplodeConcat(sep: char, a: string, b: string)
    requires sep !in a
    ensures Explode(sep, a + [sep] + b) == [a] + Explode(sep, b)
  {
    if a == [] {
      assert a + [sep] + b == [sep] + b;
      assert ([sep] + b)[1..] == b;
    } else {
      assert (a + [sep] + b)[1..] == a[1..] + [sep] + b;
      ExplodeConcat(sep, a[1..], b);
      assert [a[0]] + a[1..] == a;
    }
  }

  /** PHP `strtr($s, '\\', '/')`: every backslash becomes a slash. */
  function Slashed(s: string): (r: string)
    ensures |r| == |s|
    ensures forall i :: 0 <= i < |s| ==> r[i] == (if s[i] == '\\' then '/' else s[i])
  {
    if s == [] then [] else [if s[0] == '\\' then '/' else s[0]] + Slashed(s[1..])
  }

  /** PHP `empty($s)` on a string: true for "" and for "0". */
  predicate PhpEmpty(s: string) {
    s == "" || s == "0"
  }

  /** PHP `intval` of a string that starts with its digits: the value of the
      leading run of decimal digits, 0 when there is none. */
  function IntVal(s: string): nat {
    LeadingDigits(s, 0)
  }

  function LeadingDigits(s: string, acc: nat): (r: nat)
    ensures acc > 0 ==> r > 0
  {
    if |s| > 0 && IsDigit(s[0]) then LeadingDigits(s[1..], acc * 10 + (s[0] as int - '0' as int)) else acc
  }

  /** A number written with a non-zero first digit, as `[1-9]\d*` captures
      it, has a non-zero `intval`. */
  lemma IntValPositive(s: string)
    requires |s| > 0 && '1' <= s[0] <= '9'
    ensures IntVal(s) > 0
  {
    assert IntVal(s) == LeadingDigits(s[1..], s[0] as int - '0' as int);
  }

  /** ASCII upper-casing, the part of `mb_strtoupper` this model keeps. */
  function ToUpper(s: string): (r: string)
    ensures |r| == |s|
    ensures forall i :: 0 <= i < |s| ==> r[i] == UpperChar(s[i])
  {
    if s == [] then [] else [UpperChar(s[0])] + ToUpper(s[1..])
  }

  /** ASCII lower-casing, the part of `mb_strtolower` this model keeps. */
  function ToLower(s: string): (r: string)
    ensures |r| == |s|
    ensures forall i :: 0 <= i < |s| ==> r[i] == LowerChar(s[i])
  {
    if s == [] then [] else [LowerChar(s[0])] + ToLower(s[1..])
  }

  function UpperChar(c: char): char {
    if 'a' <= c <= 'z' then (c as int - 32) as char else c
  }

  function LowerChar(c: char): char {
    if 'A' <= c <= 'Z' then (c as int + 32) as char else c
  }

  /** Upper-casing leaves no lower-case ASCII letter and is idempotent;
      lower-casing after upper-casing is the same as lower-casing. */
  lemma CaseMappings(s: string)
    ensures forall i :: 0 <= i < |s| ==> !('a' <= ToUpper(s)[i] <= 'z')
    ensures ToUpper(ToUpper(s)) == ToUpper(s)
    ensures ToLower(ToUpper(s)) == ToLower(s)
    ensures ToUpper(ToLower(s)) == ToUpper(s)
  {
    var u, l := ToUpper(s), ToLower(s);
    forall i | 0 <= i < |s|
      ensures ToUpper(u)[i] == u[i] && ToLower(u)[i] == l[i] && ToUpper(l)[i] == u[i]
    {
      CharCases(s[i]);
    }
  }

  lemma CharCases(c: char)
    ensures UpperChar(UpperChar(c)) == UpperChar(c)
    ensures LowerChar(UpperChar(c)) == LowerChar(c)
    ensures UpperChar(LowerChar(c)) == UpperChar(c)
  {
  }
}
