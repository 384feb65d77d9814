/**
  String helpers behind the JavaScript string methods the application calls:
  `toLowerCase` (ASCII letters only), `includes`, `trim`, `Number.prototype.toString`
  for natural numbers and `padStart` with a one-character pad.
  Strings are sequences of characters; JavaScript's UTF-16 code units are not modelled.
*/
module Text {

  // ---------------------------------------------------------------------------
  // Lowercasing
  // ---------------------------------------------------------------------------

  predicate IsUpper(c: char) { 'A' <= c <= 'Z' }

  /** The lowercase form of an ASCII letter; every other character is kept. */
  function LowerChar(c: char): (r: char)
    ensures IsUpper(c) ==> r as int == c as int + 32
    ensures !IsUpper(c) ==> r == c
    ensures !IsUpper(r)
  {
    if IsUpper(c) then (c as int + 32) as char else c
  }

  /** `s.toLowerCase()`, restricted to ASCII letters. */
  function Lower(s: string): (r: string)
    ensures |r| == |s|
    ensures forall k :: 0 <= k < |s| ==> r[k] == LowerChar(s[k])
    decreases |s|
  {
    if s == [] then [] else [LowerChar(s[0])] + Lower(s[1..])
  }

  /** `t` is `s` lowercased from index `i` on, checked character by character. */
  predicate LowersFrom(s: string, t: string, i: nat)
    requires |s| == |t| && i <= |s|
    decreases |s| - i
  {
    i == |s| || (t[i] == LowerChar(s[i]) && LowersFrom(s, t, i + 1))
  }

  lemma {:induction false} LowersFromAt(s: string, t: string, i: nat, k: nat)
    requires |s| == |t| && i <= k < |s| && LowersFrom(s, t, i)
    ensures t[k] == LowerChar(s[k])
    decreases k - i
  {
    if i < k {
      LowersFromAt(s, t, i + 1, k);
    }
  }

  /** A character-by-character check establishes the lowercase form. */
  lemma LowersTo(s: string, t: string)
    requires |s| == |t| && LowersFrom(s, t, 0)
    ensures Lower(s) == t
  {
    forall k | 0 <= k < |s|
      ensures Lower(s)[k] == t[k]
    {
      LowersFromAt(s, t, 0, k);
    }
  }

  /** A character of `a + b` at an index inside `a` is lowercased as it is in `a`. */
  lemma LowerAppendLeft(a: string, b: string, k: nat)
    requires k < |a|
    ensures Lower(a + b)[k] == (Lower(a) + Lower(b))[k]
  {
    var s, la := a + b, Lower(a);
    assert s[k] == a[k];
    assert Lower(s)[k] == LowerChar(a[k]) == la[k];
    assert (la + Lower(b))[k] == la[k];
  }

  /** A character of `a + b` at an index past `a` is lowercased as it is in `b`. */
  lemma LowerAppendRight(a: string, b: string, k: nat)
    requires |a| <= k < |a| + |b|
    ensures Lower(a + b)[k] == (Lower(a) + Lower(b))[k]
  {
    var s, la, lb, j := a + b, Lower(a), Lower(b), k - |a|;
    assert s[k] == b[j];
    assert Lower(s)[k] == LowerChar(b[j]) == lb[j];
    assert (la + lb)[k] == lb[j];
  }

  lemma LowerAppend(a: string, b: string)
    ensures Lower(a + b) == Lower(a) + Lower(b)
  {
    forall k | 0 <= k < |a| + |b|
      ensures Lower(a + b)[k] == (Lower(a) + Lower(b))[k]
    {
      if k < |a| {
        LowerAppendLeft(a, b, k);
      } else {
        LowerAppendRight(a, b, k);
      }
    }
  }

  // ---------------------------------------------------------------------------
  // Substring search: `s.includes(p)`
  // ---------------------------------------------------------------------------

  /** `p` occurs in `s` at position `i`: the reference meaning of a match. */
  predicate OccursAt(s: string, p: string, i: int)
  {
    0 <= i && i + |p| <= |s| && s[i..i + |p|] == p
  }

  /** `s.includes(p)`: tries each start position from the left. */
  predicate Includes(s: string, p: string)
    decreases |s|
  {
    |p| <= |s| && (s[..|p|] == p || Includes(s[1..], p))
  }

  /** The scan finds `p` exactly when `p` occurs somewhere in `s`. */
  lemma {:induction false} IncludesIff(s: string, p: string)
    ensures Includes(s, p) <==> exists k :: OccursAt(s, p, k)
    decreases |s|
  {
    if |p| <= |s| && s[..|p|] == p {
      assert OccursAt(s, p, 0);
    } else if |p| <= |s| {
      IncludesIff(s[1..], p);
      if Includes(s, p) {
        var k :| OccursAt(s[1..], p, k);
        assert s[k + 1..k + 1 + |p|] == s[1..][k..k + |p|];
        assert OccursAt(s, p, k + 1);
      }
      if exists k :: OccursAt(s, p, k) {
        var k :| OccursAt(s, p, k);
        assert k != 0;
        assert s[1..][k - 1..k - 1 + |p|] == s[k..k + |p|];
        assert OccursAt(s[1..], p, k - 1);
      }
    }
  }

  /** An occurrence inside the middle part of a concatenation is an occurrence of the whole. */
  lemma IncludesInfix(a: string, b: string, c: string, p: string)
    requires Includes(b, p)
    ensures Includes(a + b + c, p)
  {
    IncludesIff(b, p);
    var k :| OccursAt(b, p, k);
    assert (a + b + c)[|a| + k..|a| + k + |p|] == b[k..k + |p|];
    assert OccursAt(a + b + c, p, |a| + k);
    IncludesIff(a + b + c, p);
  }

  /** Every text contains itself. */
  lemma IncludesSelf(p: string)
    ensures Includes(p, p)
  {
    assert OccursAt(p, p, 0);
    IncludesIff(p, p);
  }

  /** A text lacking one of the pattern's characters cannot contain the pattern. */
  lemma MissingChar(s: string, p: string, c: char)
    requires c in p && c !in s
    ensures !Includes(s, p)
  {
    var x :| 0 <= x < |p| && p[x] == c;
    forall k | 0 <= k && k + |p| <= |s|
      ensures !OccursAt(s, p, k)
    {
      assert s[k..k + |p|][x] == s[k + x];
    }
    IncludesIff(s, p);
  }

  /** A text lacking a lowercase letter of the pattern in both cases cannot contain the pattern once lowercased. */
  lemma MissingLetter(s: string, p: string, c: char)
    requires 'a' <= c <= 'z' && c in p && c !in s && (c as int - 32) as char !in s
    ensures !Includes(Lower(s), p)
  {
    forall x | 0 <= x < |s|
      ensures Lower(s)[x] != c
    {
      assert s[x] != c && s[x] != (c as int - 32) as char;
    }
    MissingChar(Lower(s), p, c);
  }

  /** Every character covered by an occurrence of `p` is a character of `p`. */
  lemma OccurrenceCovers(s: string, p: string, k: int, x: int)
    requires OccursAt(s, p, k) && k <= x < k + |p|
    ensures s[x] in p
  {
    assert s[x] == s[k..k + |p|][x - k];
  }

  /** An occurrence in `a + [c] + b` of a pattern without `c` lies inside `a` or inside `b`. */
  lemma OccursSplit(a: string, c: char, b: string, p: string, k: int)
    requires c !in p && OccursAt(a + [c] + b, p, k)
    ensures OccursAt(a, p, k) || OccursAt(b, p, k - |a| - 1)
  {
    var s := a + [c] + b;
    if k + |p| <= |a| {
      assert a[k..k + |p|] == s[k..k + |p|];
    } else if k > |a| {
      var m := k - |a| - 1;
      assert s[k..k + |p|] == b[m..m + |p|];
    } else {
      // the occurrence would cover the separator, which `p` does not contain
      OccurrenceCovers(s, p, k, |a|);
      assert false;
    }
  }

  /** An occurrence in `a` is one in `a + [c] + b` at the same place. */
  lemma OccursLeft(a: string, c: char, b: string, p: string, k: int)
    requires OccursAt(a, p, k)
    ensures OccursAt(a + [c] + b, p, k)
  {
    assert (a + [c] + b)[k..k + |p|] == a[k..k + |p|];
  }

  /** An occurrence in `b` is one in `a + [c] + b`, shifted past `a` and the separator. */
  lemma OccursRight(a: string, c: char, b: string, p: string, k: int)
    requires OccursAt(b, p, k)
    ensures OccursAt(a + [c] + b, p, |a| + 1 + k)
  {
    assert (a + [c] + b)[|a| + 1 + k..|a| + 1 + k + |p|] == b[k..k + |p|];
  }

  /**
    A pattern without the separator `c` occurs in `a + [c] + b` only inside `a` or inside `b`:
    an occurrence that covers the separator would contain it.
  */
  lemma IncludesAcross(a: string, c: char, b: string, p: string)
    requires c !in p
    ensures Includes(a + [c] + b, p) <==> Includes(a, p) || Includes(b, p)
  {
    var s := a + [c] + b;
    IncludesIff(s, p);
    IncludesIff(a, p);
    IncludesIff(b, p);
    if Includes(s, p) {
      var k :| OccursAt(s, p, k);
      OccursSplit(a, c, b, p, k);
    }
    if Includes(a, p) {
      var k :| OccursAt(a, p, k);
      OccursLeft(a, c, b, p, k);
    }
    if Includes(b, p) {
      var k :| OccursAt(b, p, k);
      OccursRight(a, c, b, p, k);
    }
  }

  /** Lowercasing keeps an occurrence where it is. */
  lemma OccursLower(s: string, p: string, k: int)
    requires OccursAt(s, p, k)
    ensures OccursAt(Lower(s), Lower(p), k)
  {
    var t, q := Lower(s), Lower(p);
    forall x | 0 <= x < |p|
      ensures t[k..k + |p|][x] == q[x]
    {
      assert s[k + x] == s[k..k + |p|][x] == p[x];
      assert t[k + x] == LowerChar(s[k + x]) && q[x] == LowerChar(p[x]);
    }
    assert t[k..k + |p|] == q;
  }

  /** Matching the lowercased text is case-insensitive: an occurrence in `s` is one in `Lower(s)`. */
  lemma IncludesLower(s: string, p: string)
    requires Includes(s, p)
    ensures Includes(Lower(s), Lower(p))
  {
    IncludesIff(s, p);
    var k :| OccursAt(s, p, k);
    OccursLower(s, p, k);
    IncludesIff(Lower(s), Lower(p));
  }

  // ---------------------------------------------------------------------------
  // Whitespace trimming: `s.trim()`
  // ---------------------------------------------------------------------------

  /**
    The characters `String.prototype.trim` removes: the ECMAScript WhiteSpace
    (tab, vertical tab, form feed, space, no-break space, byte order mark and the
    other space separators) and LineTerminator (line feed, carriage return, line
    and paragraph separators) code points.
  */
  predicate IsWhitespace(c: char)
  {
    var n := c as int;
    n == 0x09 || n == 0x0A || n == 0x0B || n == 0x0C || n == 0x0D || n == 0x20 ||
    n == 0xA0 || n == 0x1680 || (0x2000 <= n <= 0x200A) || n == 0x2028 || n == 0x2029 ||
    n == 0x202F || n == 0x205F || n == 0x3000 || n == 0xFEFF
  }

  /** Every character of `s` is whitespace (the empty string included). */
  predicate IsBlank(s: string)
  {
    forall k :: 0 <= k < |s| ==> IsWhitespace(s[k])
  }

  /** `s` without its leading whitespace. */
  function TrimStart(s: string): (r: string)
    ensures |r| <= |s| && r == s[|s| - |r|..]
    ensures IsBlank(s[..|s| - |r|])
    ensures r != [] ==> !IsWhitespace(r[0])
  {
    if s != [] && IsWhitespace(s[0]) then TrimStart(s[1..]) else s
  }

  /** `s` without its trailing whitespace. */
  function TrimEnd(s: string): (r: string)
    ensures |r| <= |s| && r == s[..|r|]
    ensures IsBlank(s[|r|..])
    ensures r != [] ==> !IsWhitespace(r[|r| - 1])
  {
    if s != [] && IsWhitespace(s[|s| - 1]) then TrimEnd(s[..|s| - 1]) else s
  }

  /**
    Cutting the leading blank text and then the trailing blank text leaves an infix with blank
    text on both sides, which neither starts nor ends with whitespace.
  */
  lemma TrimSpan(s: string, t: string, r: string)
    requires |t| <= |s| && t == s[|s| - |t|..] && IsBlank(s[..|s| - |t|]) && (t != [] ==> !IsWhitespace(t[0]))
    requires |r| <= |t| && r == t[..|r|] && IsBlank(t[|r|..]) && (r != [] ==> !IsWhitespace(r[|r| - 1]))
    ensures exists i :: 0 <= i <= |s| - |r| && s[i..i + |r|] == r && IsBlank(s[..i]) && IsBlank(s[i + |r|..])
    ensures r != [] ==> !IsWhitespace(r[0]) && !IsWhitespace(r[|r| - 1])
  {
    var i := |s| - |t|;
    assert s[i..i + |r|] == t[..|r|];
    assert s[i + |r|..] == t[|r|..];
    if r != [] {
      assert r[0] == t[0];
    }
  }

  /** `s.trim()`. */
  function Trim(s: string): (r: string)
  {
    TrimEnd(TrimStart(s))
  }

  /** `s.trim()` is the part of `s` left once blank text is cut from both ends; it neither starts nor ends with whitespace. */
  lemma TrimInfix(s: string)
    ensures exists i :: 0 <= i <= |s| - |Trim(s)| && s[i..i + |Trim(s)|] == Trim(s) && IsBlank(s[..i]) && IsBlank(s[i + |Trim(s)|..])
    ensures Trim(s) != [] ==> !IsWhitespace(Trim(s)[0]) && !IsWhitespace(Trim(s)[|Trim(s)| - 1])
  {
    TrimSpan(s, TrimStart(s), Trim(s));
  }

  /** `s.trim()` is the empty string, JavaScript's only falsy string, exactly when `s` is blank. */
  lemma TrimEmptyIff(s: string)
    ensures Trim(s) == [] <==> IsBlank(s)
  {
    var t := TrimStart(s);
    if Trim(s) == [] {
      assert IsBlank(t[0..]);
      // a non-empty `t` would start with a character that is not whitespace
      assert t == [];
      assert s[..|s|] == s;
    }
  }

  // ---------------------------------------------------------------------------
  // Decimal numerals: `n.toString()` for natural numbers, and `padStart`
  // ---------------------------------------------------------------------------

  predicate IsDigit(c: char) { '0' <= c <= '9' }

  predicate AllDigits(s: string)
  {
    forall k :: 0 <= k < |s| ==> IsDigit(s[k])
  }

  function DigitChar(d: nat): (c: char)
    requires d < 10
    ensures IsDigit(c)
  {
    ('0' as int + d) as char
  }

  function DigitValue(c: char): (d: nat)
    requires IsDigit(c)
    ensures d < 10 && DigitChar(d) == c
  {
    c as int - '0' as int
  }

  /** The shortest decimal numeral of `n`, as `n.toString()` prints it. */
  function Decimal(n: nat): (r: string)
    ensures |r| >= 1 && AllDigits(r)
    ensures |r| > 1 ==> r[0] != '0'
    ensures n < 10 <==> |r| == 1
    decreases n
  {
    if n < 10 then [DigitChar(n)] else Decimal(n / 10) + [DigitChar(n % 10)]
  }

  /** The number a string of decimal digits denotes (most significant digit first). */
  function DecimalValue(s: string): (n: nat)
    requires AllDigits(s)
    decreases |s|
  {
    if s == [] then 0 else DecimalValue(s[..|s| - 1]) * 10 + DigitValue(s[|s| - 1])
  }

  /** Reading back the numeral of `n` gives `n`. */
  lemma {:induction false} DecimalRoundTrip(n: nat)
    ensures DecimalValue(Decimal(n)) == n
    decreases n
  {
    var r := Decimal(n);
    if n >= 10 {
      DecimalRoundTrip(n / 10);
      assert r[..|r| - 1] == Decimal(n / 10);
    }
  }

  /** A leading zero does not change the value of a numeral. */
  lemma {:induction false} LeadingZero(s: string)
    requires AllDigits(s)
    ensures AllDigits("0" + s) && DecimalValue("0" + s) == DecimalValue(s)
    decreases |s|
  {
    var z := "0" + s;
    assert AllDigits(z) by {
      forall k | 0 <= k < |z|
        ensures IsDigit(z[k])
      {
        if k > 0 {
          assert z[k] == s[k - 1];
        }
      }
    }
    if s != [] {
      assert z[..|z| - 1] == "0" + s[..|s| - 1];
      LeadingZero(s[..|s| - 1]);
    }
  }

  /** Numbers below 100 have at most two digits. */
  lemma DecimalBelowHundred(n: nat)
    requires n < 100
    ensures |Decimal(n)| <= 2
  {
    if n >= 10 {
      assert |Decimal(n / 10)| == 1;
    }
  }

  /** `s.padStart(width, [c])`: `s` preceded by as many copies of `c` as make it `width` long. */
  function PadStart(s: string, width: nat, c: char): (r: string)
    ensures |r| == if |s| >= width then |s| else width
    ensures r[|r| - |s|..] == s
    ensures forall k :: 0 <= k < |r| - |s| ==> r[k] == c
  {
    if |s| >= width then s else seq(width - |s|, _ => c) + s
  }
}
