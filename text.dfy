/** The string operations the storefront relies on: `trim`, `toLowerCase`,
    `includes`, `split(sep)[0]` and the `\s` character class. */
module Text {
  import opened Seqs

  /** ECMAScript WhiteSpace and LineTerminator code points: the set that
      `String.prototype.trim` strips and that the regular-expression class
      `\s` matches. */
  predicate IsWhitespace(c: char) {
    || c == '\t' || c == '\n' || c == '\U{000B}' || c == '\U{000C}' || c == '\r' || c == ' '
    || c == '\U{00A0}' || c == '\U{1680}' || ('\U{2000}' <= c <= '\U{200A}')
    || c == '\U{2028}' || c == '\U{2029}' || c == '\U{202F}' || c == '\U{205F}'
    || c == '\U{3000}' || c == '\U{FEFF}'
  }

  predicate IsNotWhitespace(c: char) {
    !IsWhitespace(c)
  }

  /** `toLowerCase` restricted to ASCII: `A`..`Z` become `a`..`z`. */
  function LowerChar(c: char): (r: char)
    ensures 'A' <= c <= 'Z' ==> 'a' <= r <= 'z' && r as int == c as int + 32
    ensures !('A' <= c <= 'Z') ==> r == c
    ensures IsWhitespace(r) == IsWhitespace(c)
  {
    if 'A' <= c <= 'Z' then (c as int + 32) as char else c
  }

  function Lower(s: string): (r: string)
    ensures |r| == |s|
    ensures forall i :: 0 <= i < |r| ==> !('A' <= r[i] <= 'Z')
    ensures forall i :: 0 <= i < |s| ==> r[i] == LowerChar(s[i])
  {
    seq(|s|, i requires 0 <= i < |s| => LowerChar(s[i]))
  }

  /** `trimStart`: drops the longest whitespace prefix. */
  function TrimStart(s: string): (r: string)
    ensures |r| <= |s| && r == s[|s| - |r|..]
    ensures r == [] || !IsWhitespace(r[0])
    ensures forall i :: 0 <= i < |s| - |r| ==> IsWhitespace(s[i])
  {
    if s != [] && IsWhitespace(s[0]) then TrimStart(s[1..]) else s
  }

  /** `trimEnd`: drops the longest whitespace suffix. */
  function TrimEnd(s: string): (r: string)
    ensures |r| <= |s| && r == s[..|r|]
    ensures r == [] || !IsWhitespace(r[|r| - 1])
    ensures forall i :: |r| <= i < |s| ==> IsWhitespace(s[i])
  {
    if s != [] && IsWhitespace(s[|s| - 1]) then TrimEnd(s[..|s| - 1]) else s
  }

  /** `trim`: both ends. */
  function Trim(s: string): (r: string)
    ensures |r| <= |s|
    ensures r == [] || (!IsWhitespace(r[0]) && !IsWhitespace(r[|r| - 1]))
    ensures r == [] <==> forall i :: 0 <= i < |s| ==> IsWhitespace(s[i])
    ensures |s| - |TrimStart(s)| + |r| <= |s|
    ensures r == s[|s| - |TrimStart(s)|..|s| - |TrimStart(s)| + |r|]
  {
    TrimEnd(TrimStart(s))
  }

  /** Trimming cuts a slice, so a string free of upper-case letters stays so. */
  lemma TrimKeepsLower(s: string)
    requires forall i :: 0 <= i < |s| ==> !('A' <= s[i] <= 'Z')
    ensures forall i :: 0 <= i < |Trim(s)| ==> !('A' <= Trim(s)[i] <= 'Z')
  {
    var k := |s| - |TrimStart(s)|;
    forall i | 0 <= i < |Trim(s)|
      ensures !('A' <= Trim(s)[i] <= 'Z')
    {
      assert Trim(s)[i] == s[k + i];
    }
  }

  /** `needle` occurs in `hay` starting at index `i`. */
  predicate OccursAt(hay: string, needle: string, i: nat) {
    i + |needle| <= |hay| && hay[i..i + |needle|] == needle
  }

  /** `hay.includes(needle)`. */
  function Includes(hay: string, needle: string): (r: bool)
    ensures needle == [] ==> r
    ensures r ==> |needle| <= |hay|
    decreases |hay|
  {
    needle <= hay || (hay != [] && Includes(hay[1..], needle))
  }

  /** An occurrence at any position makes `includes` hold. */
  lemma {:induction false} IncludesAt(hay: string, needle: string, i: nat)
    requires OccursAt(hay, needle, i)
    ensures Includes(hay, needle)
    decreases i
  {
    if i == 0 {
      assert needle <= hay;
    } else {
      assert hay[1..][i - 1..i - 1 + |needle|] == hay[i..i + |needle|];
      IncludesAt(hay[1..], needle, i - 1);
    }
  }

  /** When `includes` holds, the needle occurs at some position. */
  lemma {:induction false} IncludesWitness(hay: string, needle: string)
    requires Includes(hay, needle)
    ensures exists i: nat :: i <= |hay| && OccursAt(hay, needle, i)
    decreases |hay|
  {
    if needle <= hay {
      assert OccursAt(hay, needle, 0);
    } else {
      IncludesWitness(hay[1..], needle);
      var j: nat :| j <= |hay[1..]| && OccursAt(hay[1..], needle, j);
      assert hay[1..][j..j + |needle|] == hay[j + 1..j + 1 + |needle|];
      assert OccursAt(hay, needle, j + 1);
    }
  }

  /** `includes` holds exactly when the needle occurs at some position. */
  lemma IncludesIff(hay: string, needle: string)
    ensures Includes(hay, needle) <==> exists i: nat :: i <= |hay| && OccursAt(hay, needle, i)
  {
    if Includes(hay, needle) {
      IncludesWitness(hay, needle);
    }
    if exists i: nat :: i <= |hay| && OccursAt(hay, needle, i) {
      var i: nat :| i <= |hay| && OccursAt(hay, needle, i);
      IncludesAt(hay, needle, i);
    }
  }

  /** `s.split(sep)[0]`: everything before the first `sep`. */
  function BeforeFirst(s: string, sep: char): (r: string)
    ensures r <= s && sep !in r
    ensures sep in s ==> |r| < |s| && s[|r|] == sep
    ensures sep !in s ==> r == s
  {
    if s == [] || s[0] == sep then [] else [s[0]] + BeforeFirst(s[1..], sep)
  }

  /** Splitting `prefix + sep + rest` gives back `prefix` when it holds no `sep`. */
  lemma BeforeFirstOfJoin(prefix: string, sep: char, rest: string)
    requires sep !in prefix
    ensures BeforeFirst(prefix + [sep] + rest, sep) == prefix
  {
    var s := prefix + [sep] + rest;
    var r := BeforeFirst(s, sep);
    assert s[|prefix|] == sep;
  }

  /** `s.replace(/\s/g, '')`: the string without its whitespace. */
  function StripWhitespace(s: string): (r: string)
    ensures forall i :: 0 <= i < |r| ==> !IsWhitespace(r[i])
  {
    Keep(s, IsNotWhitespace)
  }

  /** Removing whitespace forgets where whitespace was: inserting one
      whitespace character anywhere does not change the stripped string. */
  lemma StripIgnoresInsertedWhitespace(a: string, w: char, b: string)
    requires IsWhitespace(w)
    ensures StripWhitespace(a + [w] + b) == StripWhitespace(a + b)
  {
    KeepAppend(a + [w], b, IsNotWhitespace);
    KeepAppend(a, [w], IsNotWhitespace);
    KeepAppend(a, b, IsNotWhitespace);
    assert Keep([w], IsNotWhitespace) == [];
  }

  /** Lower-casing twice is lower-casing once. */
  lemma LowerIdempotent(s: string)
    ensures Lower(Lower(s)) == Lower(s)
  {
  }

  /** `s.length`: JavaScript strings count UTF-16 code units, so a
      character outside the Basic Multilingual Plane (above U+FFFF) counts
      twice, as its surrogate pair. */
  function Utf16Length(s: string): (n: nat)
    ensures |s| <= n <= 2 * |s|
    ensures (forall i :: 0 <= i < |s| ==> s[i] as int <= 0xFFFF) ==> n == |s|
  {
    if s == [] then 0 else (if s[0] as int > 0xFFFF then 2 else 1) + Utf16Length(s[1..])
  }

  /** The code-unit length of a concatenation is the sum of the parts'. */
  lemma {:induction false} Utf16LengthAppend(a: string, b: string)
    ensures Utf16Length(a + b) == Utf16Length(a) + Utf16Length(b)
    decreases |a|
  {
    if a != [] {
      assert (a + b)[0] == a[0] && (a + b)[1..] == a[1..] + b;
      Utf16LengthAppend(a[1..], b);
    } else {
      assert a + b == b;
    }
  }
}
