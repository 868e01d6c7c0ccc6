/** String helpers: JavaScript's `trim`, ASCII case folding, infix search and hexadecimal text. */
module Text {
  import opened Base

  /** The code points that ECMAScript's `String.prototype.trim` strips: WhiteSpace and LineTerminator. */
  predicate IsJsWhitespace(c: char) {
    c == '\t' || c == '\n' || c == '\U{000B}' || c == '\U{000C}' || c == '\r' || c == ' '
    || c == '\U{00A0}' || c == '\U{1680}' || ('\U{2000}' <= c <= '\U{200A}')
    || c == '\U{2028}' || c == '\U{2029}' || c == '\U{202F}' || c == '\U{205F}'
    || c == '\U{3000}' || c == '\U{FEFF}'
  }

  /** Leading whitespace removed: what is dropped is a whitespace prefix and what is kept does not start with whitespace. */
  function TrimStart(s: string): (r: string)
    ensures |r| <= |s| && r == s[|s| - |r|..]
    ensures r == [] || !IsJsWhitespace(r[0])
    ensures forall k :: 0 <= k < |s| - |r| ==> IsJsWhitespace(s[k])
  {
    if |s| > 0 && IsJsWhitespace(s[0]) then TrimStart(s[1..]) else s
  }

  /** Trailing whitespace removed: what is dropped is a whitespace suffix and what is kept does not end with whitespace. */
  function TrimEnd(s: string): (r: string)
    ensures |r| <= |s| && r == s[..|r|]
    ensures r == [] || !IsJsWhitespace(r[|r| - 1])
    ensures forall k :: |r| <= k < |s| ==> IsJsWhitespace(s[k])
  {
    if |s| > 0 && IsJsWhitespace(s[|s| - 1]) then TrimEnd(s[..|s| - 1]) else s
  }

  /** `s.trim()`. */
  function Trim(s: string): string {
    TrimEnd(TrimStart(s))
  }

  /** Every character is whitespace (this includes the empty string). */
  predicate IsBlank(s: string) {
    forall k :: 0 <= k < |s| ==> IsJsWhitespace(s[k])
  }

  /** Trimming yields the empty string exactly when the text is blank; otherwise the result starts and ends with a non-space. */
  lemma TrimEmptyIffBlank(s: string)
    ensures Trim(s) == [] <==> IsBlank(s)
    ensures Trim(s) != [] ==> !IsJsWhitespace(Trim(s)[0]) && !IsJsWhitespace(Trim(s)[|Trim(s)| - 1])
  {
    var a := TrimStart(s);
    var b := TrimEnd(a);
    var d := |s| - |a|;
    if b == [] {
      assert a == [];
    } else {
      assert b[0] == a[0];
      assert a[0] == s[d];
    }
  }

  /** A string without surrounding whitespace is its own trim, so trimming twice is trimming once. */
  lemma {:induction false} TrimIdempotent(s: string)
    ensures Trim(Trim(s)) == Trim(s)
  {
    var t := Trim(s);
    TrimEmptyIffBlank(s);
    if t != [] {
      assert TrimStart(t) == t;
      assert TrimEnd(t) == t;
    }
  }

  /** ASCII-only lower-casing, the case folding used for case-insensitive matching in this model. */
  function ToLower(s: string): (r: string)
    ensures |r| == |s|
    ensures forall k :: 0 <= k < |s| ==> r[k] == LowerChar(s[k])
  {
    if s == [] then [] else [LowerChar(s[0])] + ToLower(s[1..])
  }

  function LowerChar(c: char): char {
    if 'A' <= c <= 'Z' then (c as int + 32) as char else c
  }

  /** `needle` occurs as a contiguous part of `hay`. */
  predicate IsInfix(needle: string, hay: string)
    decreases |hay|
  {
    needle <= hay || (|hay| > 0 && IsInfix(needle, hay[1..]))
  }

  /** Case-insensitive containment: the meaning this model gives to `{ $regex: literal, $options: "i" }`. */
  predicate ContainsIgnoreCase(hay: string, needle: string) {
    IsInfix(ToLower(needle), ToLower(hay))
  }

  /** Every string contains itself, whatever its case, so filtering on a record's own organization keeps it. */
  lemma ContainsItself(s: string, t: string)
    requires ToLower(s) == ToLower(t)
    ensures ContainsIgnoreCase(s, t)
  {
  }

  /** A character outside the Basic Multilingual Plane, which UTF-16 stores as a surrogate pair. */
  predicate IsAstral(c: char) {
    c as int >= 0x1_0000
  }

  /** JavaScript's `length` of a string: the number of UTF-16 code units, which counts every
      astral character twice. zod's `.min()` and `.max()` on strings compare this length. */
  function Utf16Length(s: string): (n: nat)
    ensures |s| <= n <= 2 * |s|
  {
    if s == [] then 0 else (if IsAstral(s[0]) then 2 else 1) + Utf16Length(s[1..])
  }

  /** The JavaScript length is the number of characters exactly when no character is astral. */
  lemma {:induction false} Utf16LengthIsCountIff(s: string)
    ensures Utf16Length(s) == |s| <==> forall i :: 0 <= i < |s| ==> !IsAstral(s[i])
  {
    if s != [] {
      Utf16LengthIsCountIff(s[1..]);
      assert forall i :: 1 <= i < |s| ==> s[i] == s[1..][i - 1];
    }
  }

  /** The length JavaScript reports differs from the number of characters: an emoji followed by a
      letter has length 3, and the empty string has length 0. */
  lemma Utf16LengthOfEmoji()
    ensures |"\U{1F600}a"| == 2 && Utf16Length("\U{1F600}a") == 3
    ensures forall s: string :: Utf16Length(s) == 0 <==> s == []
  {
    assert IsAstral('\U{1F600}') && !IsAstral('a');
    assert "\U{1F600}a"[1..] == "a";
    assert "a"[1..] == "";
  }

  /** Characters matched by the character class `[0-9a-fA-F]`. */
  predicate IsHexChar(c: char) {
    ('0' <= c <= '9') || ('a' <= c <= 'f') || ('A' <= c <= 'F')
  }

  /** The lower-case hexadecimal digit for a nibble, as Node's `toString('hex')` writes it. */
  function HexDigit(n: int): (c: char)
    requires 0 <= n < 16
    ensures IsHexChar(c) && !('A' <= c <= 'F')
  {
    if n < 10 then ('0' as int + n) as char else ('a' as int + n - 10) as char
  }

  function HexValue(c: char): (n: int)
    requires IsHexChar(c)
    ensures 0 <= n < 16
  {
    if '0' <= c <= '9' then c as int - '0' as int
    else if 'a' <= c <= 'f' then c as int - 'a' as int + 10
    else c as int - 'A' as int + 10
  }

  /** `Buffer.toString('hex')`: two lower-case digits per byte, high nibble first. */
  function HexEncode(bytes: seq<byte>): (s: string)
    ensures |s| == 2 * |bytes|
    ensures forall k :: 0 <= k < |s| ==> IsHexChar(s[k]) && !('A' <= s[k] <= 'F')
  {
    if bytes == [] then []
    else [HexDigit(bytes[0] / 16), HexDigit(bytes[0] % 16)] + HexEncode(bytes[1..])
  }

  /** Reads hexadecimal text of either case back into bytes; fails on an odd length or a non-hex character. */
  function HexDecode(s: string): (r: Option<seq<byte>>)
    ensures r.Some? ==> |r.value| * 2 == |s|
    decreases |s|
  {
    if s == [] then Some([])
    else if |s| == 1 || !IsHexChar(s[0]) || !IsHexChar(s[1]) then None
    else match HexDecode(s[2..])
      case None => None
      case Some(rest) => Some([HexValue(s[0]) * 16 + HexValue(s[1])] + rest)
  }

  /** Decoding succeeds exactly on even-length all-hex text. */
  lemma {:induction false} HexDecodeSucceedsIff(s: string)
    ensures HexDecode(s).Some? <==> |s| % 2 == 0 && forall k :: 0 <= k < |s| ==> IsHexChar(s[k])
    decreases |s|
  {
    if |s| >= 2 {
      HexDecodeSucceedsIff(s[2..]);
      if IsHexChar(s[0]) && IsHexChar(s[1]) && HexDecode(s[2..]).Some? {
        forall k | 0 <= k < |s| ensures IsHexChar(s[k]) {
          if k >= 2 { assert s[k] == s[2..][k - 2]; }
        }
      }
      if |s| % 2 == 0 && (forall k :: 0 <= k < |s| ==> IsHexChar(s[k])) {
        assert forall k :: 0 <= k < |s[2..]| ==> IsHexChar(s[2..][k]) by {
          forall k | 0 <= k < |s[2..]| ensures IsHexChar(s[2..][k]) { assert s[2..][k] == s[k + 2]; }
        }
      }
    }
  }

  /** Decoding inverts encoding. */
  lemma {:induction false} HexRoundTrip(bytes: seq<byte>)
    ensures HexDecode(HexEncode(bytes)) == Some(bytes)
  {
    if bytes != [] {
      var s := HexEncode(bytes);
      assert s[2..] == HexEncode(bytes[1..]);
      HexRoundTrip(bytes[1..]);
      assert HexValue(s[0]) * 16 + HexValue(s[1]) == bytes[0];
      assert [bytes[0]] + bytes[1..] == bytes;
    }
  }

  /** Distinct byte strings give distinct hex text. */
  lemma HexEncodeInjective(a: seq<byte>, b: seq<byte>)
    requires HexEncode(a) == HexEncode(b)
    ensures a == b
  {
    HexRoundTrip(a);
    HexRoundTrip(b);
  }
}
