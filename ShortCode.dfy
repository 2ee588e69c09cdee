/**
  The pure parts of short-code allocation and of the redirect filter in
  server.js: custom-name normalisation, the two lists of file names and
  extensions, and the hex spelling of four random bytes.
 */
module ShortCode {
  import opened JsStrings

  // ---------------------------------------------------------------------------
  // Custom-name normalisation: customName.trim().toLowerCase().replace(/[^a-z0-9.\-_]/g, '')
  // ---------------------------------------------------------------------------

  /** The characters a short code may keep: `[a-z0-9._-]`. */
  predicate IsCodeChar(c: char) {
    ('a' <= c <= 'z') || ('0' <= c <= '9') || c == '.' || c == '-' || c == '_'
  }

  predicate IsCodeString(s: string) {
    forall i :: 0 <= i < |s| ==> IsCodeChar(s[i])
  }

  /** `toLowerCase` of one character, exact wherever the lower-case form holds an
      ASCII character: A-Z, U+0130 (capital I with dot, which becomes "i" followed
      by U+0307) and U+212A (Kelvin sign, which becomes "k"). Every other
      character is left as it is; its true lower-case form is wholly outside
      `[a-z0-9._-]` and is removed by the next step either way. */
  function LowerChar(c: char): (r: string)
    ensures 1 <= |r| <= 2
    ensures forall i :: 0 <= i < |r| ==> !('A' <= r[i] <= 'Z')
  {
    if 'A' <= c <= 'Z' then [(c as int + 32) as char]
    else if c as int == 0x130 then ['i', 0x307 as char]
    else if c as int == 0x212A then ['k']
    else [c]
  }

  /** The capital letter A-Z whose lower-case form is the letter `c`. */
  function UpperOf(c: char): char
    requires 'a' <= c <= 'z'
  {
    (c as int - 32) as char
  }

  /** How many characters of `s` lower-case to a form holding the code
      character `c`: `c` itself, its capital A-Z, and for `i` and `k` the two
      other capitals U+0130 and U+212A. No other character lower-cases to a
      form holding a code character. */
  function LowerSources(s: string, c: char): nat {
    multiset(s)[c]
    + (if 'a' <= c <= 'z' then multiset(s)[UpperOf(c)] else 0)
    + (if c == 'i' then multiset(s)[0x130 as char] else 0)
    + (if c == 'k' then multiset(s)[0x212A as char] else 0)
  }

  /** The code characters in the lower-case form of one character are exactly
      those `LowerSources` counts. */
  lemma LowerCharCounts(x: char)
    ensures forall c :: IsCodeChar(c) ==> multiset(LowerChar(x))[c] == LowerSources([x], c)
  {
    forall c | IsCodeChar(c)
      ensures multiset(LowerChar(x))[c] == LowerSources([x], c)
    {
      if 'A' <= x <= 'Z' {
        assert LowerChar(x) == [(x as int + 32) as char];
        assert x != c;
        assert 'a' <= c <= 'z' ==> (UpperOf(c) == x <==> c == (x as int + 32) as char);
      } else if x as int == 0x130 {
        assert LowerChar(x) == ['i'] + [0x307 as char];
        assert x != c && x == 0x130 as char;
        assert 'a' <= c <= 'z' ==> UpperOf(c) != x;
      } else if x as int == 0x212A {
        assert LowerChar(x) == ['k'];
        assert x != c && x == 0x212A as char;
        assert 'a' <= c <= 'z' ==> UpperOf(c) != x;
      } else {
        assert LowerChar(x) == [x];
        assert 'a' <= c <= 'z' ==> UpperOf(c) != x;
      }
    }
  }

  /** `s.toLowerCase()`, character by character. No capital letter A-Z is
      left, and each code character occurs exactly as often as the characters
      that lower-case to it: itself and its capitals. */
  function ToLower(s: string): (r: string)
    ensures |s| <= |r| <= 2 * |s|
    ensures forall i :: 0 <= i < |r| ==> !('A' <= r[i] <= 'Z')
    ensures forall c :: IsCodeChar(c) ==> multiset(r)[c] == LowerSources(s, c)
  {
    if s == [] then []
    else
      assert s == [s[0]] + s[1..];
      LowerCharCounts(s[0]);
      LowerChar(s[0]) + ToLower(s[1..])
  }

  /** `s.replace(/[^a-z0-9.\-_]/g, '')`: keeps the code characters, in order. */
  function StripDisallowed(s: string): (r: string)
    ensures IsCodeString(r)
    ensures |r| <= |s|
    ensures IsCodeString(s) ==> r == s
    ensures forall c :: multiset(r)[c] == if IsCodeChar(c) then multiset(s)[c] else 0
  {
    if s == [] then []
    else
      assert s == [s[0]] + s[1..];
      (if IsCodeChar(s[0]) then [s[0]] else []) + StripDisallowed(s[1..])
  }

  lemma {:induction false} StripAppend(a: string, b: string)
    ensures StripDisallowed(a + b) == StripDisallowed(a) + StripDisallowed(b)
  {
    if a == [] {
      assert a + b == b;
    } else {
      assert (a + b)[0] == a[0];
      assert (a + b)[1..] == a[1..] + b;
      StripAppend(a[1..], b);
    }
  }

  /** At most one code character comes out of lower-casing one character. */
  lemma StripLowerChar(c: char)
    ensures |StripDisallowed(LowerChar(c))| <= 1
  {
    var lc := LowerChar(c);
    if c as int == 0x130 {
      assert lc == ['i', 0x307 as char];
      assert !IsCodeChar(0x307 as char);
      assert StripDisallowed(lc[1..]) == [];
    } else {
      assert |lc| == 1;
    }
  }

  /** Lower-casing may lengthen a string (U+0130 becomes two characters), but
      what survives the strip is never longer than the input. */
  lemma {:induction false} StripLowerLength(s: string)
    ensures |StripDisallowed(ToLower(s))| <= |s|
  {
    if s != [] {
      var lc := LowerChar(s[0]);
      var rest := ToLower(s[1..]);
      assert ToLower(s) == lc + rest;
      StripAppend(lc, rest);
      StripLowerChar(s[0]);
      StripLowerLength(s[1..]);
    }
  }

  /** Lower-casing leaves a string of code characters untouched. */
  lemma {:induction false} ToLowerOfCodeString(s: string)
    requires IsCodeString(s)
    ensures ToLower(s) == s
  {
    if s != [] {
      assert LowerChar(s[0]) == [s[0]];
      assert IsCodeString(s[1..]) by {
        forall i | 0 <= i < |s[1..]| ensures IsCodeChar(s[1..][i]) {
          assert s[1..][i] == s[i + 1];
        }
      }
      ToLowerOfCodeString(s[1..]);
    }
  }

  /** The custom name as the shorten handler rewrites it (server.js line 159). */
  function Normalise(name: string): (r: string)
    ensures IsCodeString(r)
    ensures forall c :: multiset(r)[c] == if IsCodeChar(c) then LowerSources(Trim(name), c) else 0
    ensures |r| <= |Trim(name)|
  {
    StripLowerLength(Trim(name));
    StripDisallowed(ToLower(Trim(name)))
  }

  /** Normalising an already normalised name changes nothing. */
  lemma NormaliseIdempotent(name: string)
    ensures Normalise(Normalise(name)) == Normalise(name)
  {
    NormaliseFixedPoints(Normalise(name));
  }

  /** The names normalisation leaves unchanged are exactly the strings over `[a-z0-9._-]`. */
  lemma NormaliseFixedPoints(s: string)
    ensures Normalise(s) == s <==> IsCodeString(s)
  {
    if IsCodeString(s) {
      TrimOfUntrimmable(s);
      ToLowerOfCodeString(s);
    }
  }

  // ---------------------------------------------------------------------------
  // File names the server keeps away from short codes
  // ---------------------------------------------------------------------------

  /** The extensions a custom name may not end with (server.js line 167). */
  const ForbiddenExtensions: seq<string> := [".css", ".js", ".png", ".ico", ".jpg", ".jpeg", ".gif", ".svg"]

  /** File names the redirect route answers with 404 (server.js line 250). */
  const StaticFiles: seq<string> := ["favicon.ico", "favicon.png", "script.js", "style.css", "robots.txt"]

  /** Extensions the redirect route answers with 404 (server.js line 251). */
  const AssetExtensions: seq<string> := [".css", ".js", ".png", ".ico", ".jpg", ".jpeg", ".gif", ".svg", ".woff", ".woff2", ".ttf"]

  /** Every listed extension starts with a dot, and every listed file name contains one. */
  lemma ListedNamesHaveDots()
    ensures forall i :: 0 <= i < |ForbiddenExtensions| ==> |ForbiddenExtensions[i]| > 0 && ForbiddenExtensions[i][0] == '.'
    ensures forall i :: 0 <= i < |AssetExtensions| ==> |AssetExtensions[i]| > 0 && AssetExtensions[i][0] == '.'
    ensures forall f :: f in StaticFiles ==> '.' in f
  {
    forall i | 0 <= i < |ForbiddenExtensions|
      ensures |ForbiddenExtensions[i]| > 0 && ForbiddenExtensions[i][0] == '.'
    {
      var ext := ForbiddenExtensions[i];
      assert ext[0] == '.';
    }
    forall i | 0 <= i < |AssetExtensions|
      ensures |AssetExtensions[i]| > 0 && AssetExtensions[i][0] == '.'
    {
      var ext := AssetExtensions[i];
      assert ext[0] == '.';
    }
    forall f | f in StaticFiles
      ensures '.' in f
    {
      var dot := if f == "script.js" then 6 else |f| - 4;
      assert f[dot] == '.';
    }
  }

  /** A string ending in something that starts with a dot contains a dot. */
  lemma DottedSuffix(code: string)
    ensures forall ext :: EndsWith(code, ext) && |ext| > 0 && ext[0] == '.' ==> '.' in code
  {
    forall ext | EndsWith(code, ext) && |ext| > 0 && ext[0] == '.'
      ensures '.' in code
    {
      assert code[|code| - |ext|] == code[|code| - |ext|..][0];
    }
  }

  /** `forbiddenExtensions.some(ext => shortCode.endsWith(ext))`. A refused
      name always contains a dot. */
  predicate HasForbiddenExtension(code: string)
    ensures HasForbiddenExtension(code) ==> '.' in code
  {
    ListedNamesHaveDots();
    DottedSuffix(code);
    exists i :: 0 <= i < |ForbiddenExtensions| && EndsWith(code, ForbiddenExtensions[i])
  }

  /** The redirect filter: `staticFiles.includes(code) || fileExtensions.some(ext => code.endsWith(ext))`.
      A filtered code always contains a dot. */
  predicate IsStaticRequest(code: string)
    ensures IsStaticRequest(code) ==> '.' in code
  {
    ListedNamesHaveDots();
    DottedSuffix(code);
    code in StaticFiles || exists i :: 0 <= i < |AssetExtensions| && EndsWith(code, AssetExtensions[i])
  }

  /** Every extension the shorten handler refuses is one the redirect filter drops. */
  lemma ForbiddenIsStatic(code: string)
    requires HasForbiddenExtension(code)
    ensures IsStaticRequest(code)
  {
    var i :| 0 <= i < |ForbiddenExtensions| && EndsWith(code, ForbiddenExtensions[i]);
    assert ForbiddenExtensions == AssetExtensions[..8];
    assert AssetExtensions[i] == ForbiddenExtensions[i];
  }

  /** Every listed file name and extension contains a dot, so a code without a dot
      passes both filters. */
  lemma DotFreeIsNotStatic(code: string)
    requires forall i :: 0 <= i < |code| ==> code[i] != '.'
    ensures !IsStaticRequest(code) && !HasForbiddenExtension(code)
  {
  }

  // ---------------------------------------------------------------------------
  // Random codes: crypto.randomBytes(4).toString('hex')
  // ---------------------------------------------------------------------------

  type Byte = b: int | 0 <= b < 256

  /** One result of `crypto.randomBytes(4)`. */
  type Draw = d: seq<Byte> | |d| == 4 witness [0, 0, 0, 0]

  predicate IsHexDigit(c: char) {
    ('0' <= c <= '9') || ('a' <= c <= 'f')
  }

  /** The lower-case hex digit for `v`: `0123456789abcdef`. */
  function HexDigit(v: int): (c: char)
    requires 0 <= v < 16
    ensures IsHexDigit(c)
  {
    if v < 10 then ('0' as int + v) as char else ('a' as int + v - 10) as char
  }

  /** The shape of every random code: eight lower-case hex digits. */
  predicate IsHexCode(s: string) {
    |s| == 8 && forall i :: 0 <= i < |s| ==> IsHexDigit(s[i])
  }

  /** `buffer.toString('hex')`: two lower-case hex digits per byte, high nibble first. */
  function HexEncode(bytes: seq<Byte>): (r: string)
    ensures |r| == 2 * |bytes|
    ensures forall i :: 0 <= i < |r| ==> IsHexDigit(r[i])
  {
    if bytes == [] then [] else [HexDigit(bytes[0] / 16), HexDigit(bytes[0] % 16)] + HexEncode(bytes[1..])
  }

  /** The value of one lower-case hex digit. */
  function HexValue(c: char): (v: int)
    requires IsHexDigit(c)
    ensures 0 <= v < 16 && HexDigit(v) == c
  {
    if c <= '9' then c as int - '0' as int else c as int - 'a' as int + 10
  }

  lemma HexValueOfDigit(v: int)
    requires 0 <= v < 16
    ensures HexValue(HexDigit(v)) == v
  {
  }

  /** Reads back a string of lower-case hex digits, two per byte. */
  function HexDecode(s: string): (r: seq<Byte>)
    requires |s| % 2 == 0
    requires forall i :: 0 <= i < |s| ==> IsHexDigit(s[i])
    ensures 2 * |r| == |s|
  {
    if s == [] then [] else [HexValue(s[0]) * 16 + HexValue(s[1])] + HexDecode(s[2..])
  }

  /** Decoding the hex spelling of some bytes gives those bytes back. */
  lemma {:induction false} HexDecodeEncode(bytes: seq<Byte>)
    ensures HexDecode(HexEncode(bytes)) == bytes
  {
    if bytes != [] {
      var s := HexEncode(bytes);
      var b := bytes[0];
      var rest := HexEncode(bytes[1..]);
      assert s == [HexDigit(b / 16), HexDigit(b % 16)] + rest;
      HexValueOfDigit(b / 16);
      HexValueOfDigit(b % 16);
      assert HexValue(s[0]) * 16 + HexValue(s[1]) == b;
      assert s[2..] == rest;
      HexDecodeEncode(bytes[1..]);
      assert HexDecode(s) == [b] + bytes[1..];
    }
  }

  /** Encoding what was decoded gives the same string back: lower-case hex
      spelling is one-to-one. */
  lemma {:induction false} HexEncodeDecode(s: string)
    requires |s| % 2 == 0
    requires forall i :: 0 <= i < |s| ==> IsHexDigit(s[i])
    ensures HexEncode(HexDecode(s)) == s
  {
    if s != [] {
      var r := HexDecode(s);
      var v := HexValue(s[0]) * 16 + HexValue(s[1]);
      assert r[0] == v && r[1..] == HexDecode(s[2..]);
      assert v / 16 == HexValue(s[0]) && v % 16 == HexValue(s[1]);
      HexEncodeDecode(s[2..]);
      assert s == [s[0], s[1]] + s[2..];
    }
  }

  /** The random codes are exactly the eight-hex-digit strings: every draw gives
      one, and every one comes from exactly one draw. */
  lemma RandomCodesAreHexCodes(d: Draw, s: string)
    ensures IsHexCode(HexEncode(d))
    ensures IsHexCode(s) ==> |HexDecode(s)| == 4 && HexEncode(HexDecode(s)) == s
    ensures IsHexCode(s) ==> (HexEncode(d) == s <==> d == HexDecode(s))
  {
    if IsHexCode(s) {
      HexEncodeDecode(s);
      HexDecodeEncode(d);
    }
  }

  /** A random code is never refused for its extension nor dropped by the redirect filter. */
  lemma HexCodeIsRoutable(s: string)
    requires IsHexCode(s)
    ensures !HasForbiddenExtension(s) && !IsStaticRequest(s)
  {
    DotFreeIsNotStatic(s);
  }
}
