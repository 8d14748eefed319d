/** The JavaScript string primitives the core relies on: `String.prototype.trim`
    and the case mappings. Characters are Unicode scalar values. Trimming uses the
    whole (finite) set of code points that ECMAScript calls WhiteSpace or
    LineTerminator. Case mapping is restricted to ASCII letters. */
module JsString {

  /** ECMAScript LineTerminator: LF, CR, LINE SEPARATOR, PARAGRAPH SEPARATOR. A
      regular-expression `.` matches every character except these. */
  predicate IsLineTerminator(c: char) {
    c == '\n' || c == '\r' || c as int == 0x2028 || c as int == 0x2029
  }

  /** ECMAScript WhiteSpace (TAB, VT, FF, ZWNBSP and the Zs category) or a LineTerminator. */
  const WhiteSpaceChars: set<char> := {'\n', '\r', 0x2028 as char, 0x2029 as char, '\t', 0x0B as char, 0x0C as char, 0xFEFF as char, ' ', 0xA0 as char, 0x1680 as char,
    0x2000 as char, 0x2001 as char, 0x2002 as char, 0x2003 as char, 0x2004 as char, 0x2005 as char, 0x2006 as char, 0x2007 as char, 0x2008 as char, 0x2009 as char, 0x200A as char,
    0x202F as char, 0x205F as char, 0x3000 as char}
  predicate IsWhiteSpace(c: char) {
    c in WhiteSpaceChars
  }

  /** The number of white-space characters `s` starts with. */
  function LeadingWhiteSpace(s: string): (n: nat)
    ensures n <= |s|
  {
    if s != [] && IsWhiteSpace(s[0]) then 1 + LeadingWhiteSpace(s[1..]) else 0
  }

  /** The number of white-space characters `s` ends with. */
  function TrailingWhiteSpace(s: string): (m: nat)
    ensures m <= |s|
  {
    if s != [] && IsWhiteSpace(s[|s| - 1]) then 1 + TrailingWhiteSpace(s[..|s| - 1]) else 0
  }

  /** The leading count covers white space only, and stops at the first other
      character. */
  lemma {:induction false} LeadingSpec(s: string)
    ensures forall k {:trigger IsWhiteSpace(s[k])} :: 0 <= k < LeadingWhiteSpace(s) ==> IsWhiteSpace(s[k])
    ensures LeadingWhiteSpace(s) < |s| ==> !IsWhiteSpace(s[LeadingWhiteSpace(s)])
  {
    if s != [] && IsWhiteSpace(s[0]) {
      var t := s[1..];
      LeadingSpec(t);
      forall k | 1 <= k < LeadingWhiteSpace(s) ensures IsWhiteSpace(s[k]) {
        assert s[k] == t[k - 1];
      }
      if LeadingWhiteSpace(s) < |s| {
        assert s[LeadingWhiteSpace(s)] == t[LeadingWhiteSpace(t)];
      }
    }
  }

  /** The trailing count covers white space only, and stops at the last other
      character. */
  lemma {:induction false} TrailingSpec(s: string)
    ensures forall k {:trigger IsWhiteSpace(s[k])} :: |s| - TrailingWhiteSpace(s) <= k < |s| ==> IsWhiteSpace(s[k])
    ensures TrailingWhiteSpace(s) < |s| ==> !IsWhiteSpace(s[|s| - TrailingWhiteSpace(s) - 1])
  {
    if s != [] && IsWhiteSpace(s[|s| - 1]) {
      var t := s[..|s| - 1];
      TrailingSpec(t);
      forall k | |s| - TrailingWhiteSpace(s) <= k < |s| - 1 ensures IsWhiteSpace(s[k]) {
        assert s[k] == t[k];
      }
      if TrailingWhiteSpace(s) < |s| {
        assert s[|s| - TrailingWhiteSpace(s) - 1] == t[|t| - TrailingWhiteSpace(t) - 1];
      }
    }
  }

  /** `s[i..j]` is what trimming `s` keeps: everything outside it is white space and
      it neither starts nor ends with white space. */
  ghost predicate TrimmedSlice(s: string, i: int, j: int) {
    && 0 <= i <= j <= |s|
    && (forall k {:trigger IsWhiteSpace(s[k])} :: 0 <= k < i ==> IsWhiteSpace(s[k]))
    && (forall k {:trigger IsWhiteSpace(s[k])} :: j <= k < |s| ==> IsWhiteSpace(s[k]))
    && (i < j ==> !IsWhiteSpace(s[i]) && !IsWhiteSpace(s[j - 1]))
  }

  /** The leading and the trailing white space of a string that is not all white
      space do not overlap. */
  lemma CountsDisjoint(s: string)
    ensures LeadingWhiteSpace(s) < |s| ==> LeadingWhiteSpace(s) + TrailingWhiteSpace(s) < |s|
  {
    var i, m := LeadingWhiteSpace(s), TrailingWhiteSpace(s);
    if i < |s| {
      LeadingSpec(s);
      TrailingSpec(s);
      assert !IsWhiteSpace(s[i]);
    }
  }

  /** `String.prototype.trim`: the slice of `s` between its leading and its
      trailing white space; empty when `s` is all white space. */
  function Trim(s: string): string {
    var i := LeadingWhiteSpace(s);
    if i == |s| then "" else
      CountsDisjoint(s);
      s[i..|s| - TrailingWhiteSpace(s)]
  }

  /** `Trim` of a string that is not all white space, in terms of the two counts. */
  lemma TrimByCounts(s: string)
    requires LeadingWhiteSpace(s) + TrailingWhiteSpace(s) < |s|
    ensures Trim(s) == s[LeadingWhiteSpace(s)..|s| - TrailingWhiteSpace(s)]
  {
  }

  /** What trimming keeps: the slice starting after the leading white space that
      leaves only white space outside it and neither starts nor ends with white
      space. */
  lemma TrimSpec(s: string)
    ensures var i := LeadingWhiteSpace(s);
      TrimmedSlice(s, i, i + |Trim(s)|) && Trim(s) == s[i..i + |Trim(s)|]
  {
    var i, m := LeadingWhiteSpace(s), TrailingWhiteSpace(s);
    LeadingSpec(s);
    TrailingSpec(s);
    CountsDisjoint(s);
    if i < |s| {
      TrimByCounts(s);
      assert i + |Trim(s)| == |s| - m;
    }
  }

  /** Trimming gives the empty string exactly when the string is all white space. */
  lemma TrimEmptyIff(s: string)
    ensures Trim(s) == [] <==> forall k {:trigger IsWhiteSpace(s[k])} :: 0 <= k < |s| ==> IsWhiteSpace(s[k])
  {
    var i := LeadingWhiteSpace(s);
    LeadingSpec(s);
    CountsDisjoint(s);
    if i < |s| {
      TrimByCounts(s);
      assert !IsWhiteSpace(s[i]);
    }
  }

  /** A string with no white space at either end is its own trim. */
  lemma TrimNoop(s: string)
    requires s == [] || (!IsWhiteSpace(s[0]) && !IsWhiteSpace(s[|s| - 1]))
    ensures Trim(s) == s
  {
    if s != [] {
      assert LeadingWhiteSpace(s) == 0 && TrailingWhiteSpace(s) == 0;
      assert s[0..|s|] == s;
    }
  }

  /** Trimming twice is trimming once. */
  lemma TrimIdempotent(s: string)
    ensures Trim(Trim(s)) == Trim(s)
  {
    TrimSpec(s);
    TrimNoop(Trim(s));
  }

  function LowerChar(c: char): (d: char) {
    if 'A' <= c <= 'Z' then (c as int - 'A' as int + 'a' as int) as char else c
  }

  function UpperChar(c: char): (d: char) {
    if 'a' <= c <= 'z' then (c as int - 'a' as int + 'A' as int) as char else c
  }

  /** `String.prototype.toLowerCase` on ASCII letters: maps every character on its own. */
  function ToLower(s: string): (r: string)
    ensures |r| == |s|
    ensures forall k :: 0 <= k < |s| ==> r[k] == LowerChar(s[k])
  {
    seq(|s|, k requires 0 <= k < |s| => LowerChar(s[k]))
  }

  /** `String.prototype.toUpperCase` on ASCII letters: maps every character on its own. */
  function ToUpper(s: string): (r: string)
    ensures |r| == |s|
    ensures forall k :: 0 <= k < |s| ==> r[k] == UpperChar(s[k])
  {
    seq(|s|, k requires 0 <= k < |s| => UpperChar(s[k]))
  }

  /** Lower-casing neither creates nor removes white space or line terminators. */
  lemma LowerCharKeepsClass(c: char)
    ensures IsWhiteSpace(LowerChar(c)) == IsWhiteSpace(c)
    ensures IsLineTerminator(LowerChar(c)) == IsLineTerminator(c)
  {
  }

  lemma {:induction false} LeadingLower(s: string)
    ensures LeadingWhiteSpace(ToLower(s)) == LeadingWhiteSpace(s)
  {
    if s != [] {
      LowerCharKeepsClass(s[0]);
      assert ToLower(s)[1..] == ToLower(s[1..]);
      if IsWhiteSpace(s[0]) {
        LeadingLower(s[1..]);
      }
    }
  }

  lemma {:induction false} TrailingLower(s: string)
    ensures TrailingWhiteSpace(ToLower(s)) == TrailingWhiteSpace(s)
  {
    if s != [] {
      var n := |s| - 1;
      LowerCharKeepsClass(s[n]);
      assert ToLower(s)[..n] == ToLower(s[..n]);
      if IsWhiteSpace(s[n]) {
        TrailingLower(s[..n]);
      }
    }
  }

  /** Lower-casing a slice is slicing the lower-cased string. */
  lemma LowerSlice(s: string, i: nat, j: nat)
    requires i <= j <= |s|
    ensures ToLower(s[i..j]) == ToLower(s)[i..j]
  {
    var a, b := ToLower(s[i..j]), ToLower(s)[i..j];
    forall k | 0 <= k < |a| ensures a[k] == b[k] {
      assert s[i..j][k] == s[i + k];
    }
  }

  /** The order of Mongoose's `trim` and `lowercase` setters does not matter. */
  lemma TrimLowerCommute(s: string)
    ensures ToLower(Trim(s)) == Trim(ToLower(s))
  {
    var t := ToLower(s);
    LeadingLower(s);
    TrailingLower(s);
    var i, m := LeadingWhiteSpace(s), TrailingWhiteSpace(s);
    CountsDisjoint(s);
    if i < |s| {
      TrimByCounts(s);
      TrimByCounts(t);
      LowerSlice(s, i, |s| - m);
    }
  }

  lemma LowerIdempotent(s: string)
    ensures ToLower(ToLower(s)) == ToLower(s)
  {
  }

  /** The number of UTF-16 code units a character takes in a JavaScript string:
      two (a surrogate pair) beyond the Basic Multilingual Plane. */
  function CodeUnits(c: char): (k: nat)
    ensures k == 1 || k == 2
    ensures k == 2 <==> c as int > 0xFFFF
  {
    if c as int <= 0xFFFF then 1 else 2
  }

  /** `s.length` in JavaScript: the count of UTF-16 code units. */
  function Utf16Length(s: string): (n: nat)
    ensures |s| <= n <= 2 * |s|
  {
    if s == [] then 0 else CodeUnits(s[0]) + Utf16Length(s[1..])
  }

  /** On characters of the Basic Multilingual Plane the JavaScript length is the
      character count. */
  lemma {:induction false} Utf16LengthBmp(s: string)
    requires forall i :: 0 <= i < |s| ==> s[i] as int <= 0xFFFF
    ensures Utf16Length(s) == |s|
  {
    if s != [] {
      assert forall i :: 0 <= i < |s[1..]| ==> s[1..][i] == s[i + 1];
      Utf16LengthBmp(s[1..]);
    }
  }
}
