/**
  The JavaScript string operations that both the server and the browser script
  rely on: `trim`, `length` (counted in UTF-16 code units), `startsWith` and
  `endsWith`. A Dafny `char` is a Unicode scalar value.
 */
module JsStrings {

  /** The characters `String.prototype.trim` removes: ECMAScript WhiteSpace
      (tab, vertical tab, form feed, ZWNBSP and every space separator) and
      LineTerminator (LF, CR, LS, PS). */
  predicate IsTrimmable(c: char) {
    var n := c as int;
    n == 0x09 || n == 0x0A || n == 0x0B || n == 0x0C || n == 0x0D || n == 0x20 ||
    n == 0xA0 || n == 0x1680 || (0x2000 <= n <= 0x200A) || n == 0x2028 || n == 0x2029 ||
    n == 0x202F || n == 0x205F || n == 0x3000 || n == 0xFEFF
  }

  /** Drops the longest prefix of trimmable characters. */
  function TrimStart(s: string): (r: string)
    ensures |r| <= |s| && r == s[|s| - |r|..]
    ensures r == [] || !IsTrimmable(r[0])
    ensures forall i :: 0 <= i < |s| - |r| ==> IsTrimmable(s[i])
  {
    if s != [] && IsTrimmable(s[0]) then TrimStart(s[1..]) else s
  }

  /** Drops the longest suffix of trimmable characters. */
  function TrimEnd(s: string): (r: string)
    ensures |r| <= |s| && r == s[..|r|]
    ensures r == [] || !IsTrimmable(r[|r| - 1])
    ensures forall i :: |r| <= i < |s| ==> IsTrimmable(s[i])
  {
    if s != [] && IsTrimmable(s[|s| - 1]) then TrimEnd(s[..|s| - 1]) else s
  }

  /** The number of trimmable characters at the start of `s`. */
  function Leading(s: string): (k: nat)
    ensures k <= |s|
    ensures forall i :: 0 <= i < k ==> IsTrimmable(s[i])
    ensures k < |s| ==> !IsTrimmable(s[k])
  {
    |s| - |TrimStart(s)|
  }

  /** `s.trim()`: the slice of `s` left after removing trimmable characters at both ends. */
  function Trim(s: string): (r: string)
    ensures Leading(s) + |r| <= |s| && r == s[Leading(s)..Leading(s) + |r|]
    ensures r == [] || (!IsTrimmable(r[0]) && !IsTrimmable(r[|r| - 1]))
    ensures forall i :: Leading(s) + |r| <= i < |s| ==> IsTrimmable(s[i])
  {
    TrimEnd(TrimStart(s))
  }

  /** A string without trimmable characters is its own trim. */
  lemma TrimOfUntrimmable(s: string)
    requires forall i :: 0 <= i < |s| ==> !IsTrimmable(s[i])
    ensures Trim(s) == s
  {
    assert TrimStart(s) == s;
    assert TrimEnd(s) == s;
  }

  /** Trimming twice is trimming once. */
  lemma TrimIdempotent(s: string)
    ensures Trim(Trim(s)) == Trim(s)
  {
    var r := Trim(s);
    if r != [] {
      assert TrimStart(r) == r;
      assert TrimEnd(r) == r;
    }
  }

  /** `s.length`: the number of UTF-16 code units, two for each character outside the BMP. */
  function Utf16Length(s: string): (n: nat)
    ensures |s| <= n <= 2 * |s|
    ensures n == |s| <==> forall i :: 0 <= i < |s| ==> s[i] as int < 0x10000
  {
    if s == [] then 0 else (if s[0] as int >= 0x10000 then 2 else 1) + Utf16Length(s[1..])
  }

  lemma {:induction false} Utf16LengthAppend(a: string, b: string)
    ensures Utf16Length(a + b) == Utf16Length(a) + Utf16Length(b)
  {
    if a == [] {
      assert a + b == b;
    } else {
      assert (a + b)[0] == a[0];
      assert (a + b)[1..] == a[1..] + b;
      Utf16LengthAppend(a[1..], b);
    }
  }

  /** A substring never has more UTF-16 code units than the whole string. */
  lemma Utf16LengthOfInfix(s: string, t: string, i: nat)
    requires i + |t| <= |s| && t == s[i..i + |t|]
    ensures Utf16Length(t) <= Utf16Length(s)
  {
    var j := i + |t|;
    assert s[..j] == s[..i] + t;
    Utf16LengthAppend(s[..i], t);
    assert s == s[..j] + s[j..];
    Utf16LengthAppend(s[..j], s[j..]);
  }

  /** Trimming never makes a string longer, counted as JavaScript counts. */
  lemma Utf16LengthOfTrim(s: string)
    ensures Utf16Length(Trim(s)) <= Utf16Length(s)
  {
    Utf16LengthOfInfix(s, Trim(s), Leading(s));
  }

  /** `s.startsWith(p)`. */
  predicate StartsWith(s: string, p: string) {
    |p| <= |s| && s[..|p|] == p
  }

  /** `s.endsWith(x)`. */
  predicate EndsWith(s: string, x: string) {
    |x| <= |s| && s[|s| - |x|..] == x
  }
}
