/** The client's `base64ToArrayBuffer` (frontend/src/App.js): input validation,
    removal of a `data:<type>;base64,` prefix and of all whitespace, decoding
    with the browser's `atob`, and the copy of the binary string into a byte
    array.  `atob` is the "forgiving-base64 decode" of the WHATWG Infra
    Standard; the encoder is the padded base64 of section 4 of RFC 4648, which
    `Buffer.toString('base64')` and the upstream service produce. */
module Base64 {
  import opened Wrappers
  import opened Pcm

  // ---------------------------------------------------------------------------
  // The alphabet of section 4 of RFC 4648

  type Sextet = x: int | 0 <= x < 64

  predicate IsBase64Char(c: char) {
    ('A' <= c <= 'Z') || ('a' <= c <= 'z') || ('0' <= c <= '9') || c == '+' || c == '/'
  }

  predicate AllBase64(s: string) {
    forall i :: 0 <= i < |s| ==> IsBase64Char(s[i])
  }

  lemma AllBase64Append(a: string, b: string)
    requires AllBase64(a) && AllBase64(b)
    ensures AllBase64(a + b)
  {
  }

  function CharOf(v: Sextet): (c: char)
    ensures IsBase64Char(c)
  {
    if v < 26 then ('A' as int + v) as char
    else if v < 52 then ('a' as int + (v - 26)) as char
    else if v < 62 then ('0' as int + (v - 52)) as char
    else if v == 62 then '+'
    else '/'
  }

  function ValueOf(c: char): (v: Sextet)
    requires IsBase64Char(c)
    ensures CharOf(v) == c
  {
    if 'A' <= c <= 'Z' then c as int - 'A' as int
    else if 'a' <= c <= 'z' then c as int - 'a' as int + 26
    else if '0' <= c <= '9' then c as int - '0' as int + 52
    else if c == '+' then 62
    else 63
  }

  lemma ValueOfCharOf(v: Sextet)
    ensures ValueOf(CharOf(v)) == v
  {
  }

  // ---------------------------------------------------------------------------
  // Encoding (section 4 of RFC 4648)

  /** Three bytes as four characters. */
  function EncodeTriple(b0: Byte, b1: Byte, b2: Byte): (s: string)
    ensures |s| == 4 && AllBase64(s)
  {
    [CharOf(b0 / 4), CharOf((b0 % 4) * 16 + b1 / 16), CharOf((b1 % 16) * 4 + b2 / 64), CharOf(b2 % 64)]
  }

  /** The characters of the encoding before its `=` padding: a final group of one
      or two bytes gives two or three characters. */
  function Unpadded(b: seq<Byte>): (s: string)
    ensures AllBase64(s)
    ensures |s| % 4 == (if |b| % 3 == 0 then 0 else |b| % 3 + 1)
    ensures |s| % 4 != 1
    ensures b != [] ==> s != []
    decreases |b|
  {
    if |b| >= 3 then
      var rest := Unpadded(b[3..]);
      ModFour(|rest|);
      ModThree(|b| - 3);
      EncodeTriple(b[0], b[1], b[2]) + rest
    else if |b| == 2 then [CharOf(b[0] / 4), CharOf((b[0] % 4) * 16 + b[1] / 16), CharOf((b[1] % 16) * 4)]
    else if |b| == 1 then [CharOf(b[0] / 4), CharOf((b[0] % 4) * 16)]
    else []
  }

  function Padding(b: seq<Byte>): string {
    if |b| % 3 == 1 then "==" else if |b| % 3 == 2 then "=" else ""
  }

  /** Padded base64, as `Buffer.toString('base64')` writes it. */
  function Encode(b: seq<Byte>): (s: string)
    ensures |s| % 4 == 0
    ensures b != [] ==> |s| >= 4
  {
    var u := Unpadded(b);
    PaddedLength(|u|, |Padding(b)|);
    u + Padding(b)
  }

  lemma PaddedLength(n: nat, p: nat)
    requires n % 4 + p == 4 || (n % 4 == 0 && p == 0)
    ensures (n + p) % 4 == 0
  {
  }

  /** Every started group of three bytes becomes four characters. */
  lemma {:induction false} EncodeLength(b: seq<Byte>)
    ensures |Encode(b)| == 4 * ((|b| + 2) / 3)
    decreases |b|
  {
    if |b| >= 3 {
      EncodeLength(b[3..]);
      EncodeGroup(b);
      DivThree(|b| - 1);
    } else {
      EncodeShort(b);
    }
  }

  lemma EncodeGroup(b: seq<Byte>)
    requires |b| >= 3
    ensures |Encode(b)| == 4 + |Encode(b[3..])|
  {
    ModThree(|b| - 3);
    assert Padding(b) == Padding(b[3..]);
    assert |Unpadded(b)| == 4 + |Unpadded(b[3..])|;
  }

  lemma EncodeShort(b: seq<Byte>)
    requires |b| < 3
    ensures |Encode(b)| == 4 * ((|b| + 2) / 3)
  {
    if |b| == 2 {
      assert |Unpadded(b)| == 3 && Padding(b) == "=";
    } else if |b| == 1 {
      assert |Unpadded(b)| == 2 && Padding(b) == "==";
    } else {
      assert Unpadded(b) == [] && Padding(b) == [];
    }
  }

  lemma ModFour(n: nat)
    ensures (n + 4) % 4 == n % 4
  {
  }

  lemma ModThree(n: nat)
    ensures (n + 3) % 3 == n % 3
  {
  }

  lemma DivThree(n: nat)
    ensures (n + 3) / 3 == n / 3 + 1
  {
  }

  // ---------------------------------------------------------------------------
  // Forgiving-base64 decode (`atob`)

  /** ASCII whitespace as the WHATWG Infra Standard defines it. */
  predicate IsAsciiWhitespace(c: char) {
    c == '\t' || c == '\n' || c as int == 0x0C || c == '\r' || c == ' '
  }

  function RemoveAsciiWhitespace(s: string): (r: string)
    ensures |r| <= |s|
    ensures forall i :: 0 <= i < |r| ==> !IsAsciiWhitespace(r[i])
  {
    if s == [] then []
    else (if IsAsciiWhitespace(s[0]) then [] else [s[0]]) + RemoveAsciiWhitespace(s[1..])
  }

  /** Drops one or two trailing `=`, as the decoder does when the length is a multiple of four. */
  function DropPadding(s: string): string {
    if |s| >= 2 && s[|s| - 2] == '=' && s[|s| - 1] == '=' then s[..|s| - 2]
    else if |s| >= 1 && s[|s| - 1] == '=' then s[..|s| - 1]
    else s
  }

  /** Four sextets as three bytes. */
  function Quad(v0: Sextet, v1: Sextet, v2: Sextet, v3: Sextet): seq<Byte> {
    [v0 * 4 + v1 / 16, (v1 % 16) * 16 + v2 / 4, (v2 % 4) * 64 + v3]
  }

  /** A final group of two or three sextets gives one or two bytes; the leftover
      low bits are discarded without being checked. */
  function Tail(s: string): (b: seq<Byte>)
    requires |s| < 4 && |s| != 1
    requires AllBase64(s)
    ensures |b| == |s| * 3 / 4
  {
    if |s| == 3 then Quad(ValueOf(s[0]), ValueOf(s[1]), ValueOf(s[2]), 0)[..2]
    else if |s| == 2 then Quad(ValueOf(s[0]), ValueOf(s[1]), 0, 0)[..1]
    else []
  }

  function DecodeChars(s: string): (b: seq<Byte>)
    requires AllBase64(s)
    requires |s| % 4 != 1
    ensures |b| == |s| * 3 / 4
    decreases |s|
  {
    if |s| >= 4 then Quad(ValueOf(s[0]), ValueOf(s[1]), ValueOf(s[2]), ValueOf(s[3])) + DecodeChars(s[4..])
    else Tail(s)
  }

  /** Message of the `InvalidCharacterError` `atob` throws (browser-specific wording). */
  const NotEncoded := "The string to be decoded is not correctly encoded."

  /** A binary string: one character per byte, its code being the byte. */
  function BinaryString(b: seq<Byte>): (s: string)
    ensures |s| == |b|
    ensures forall i :: 0 <= i < |s| ==> s[i] as int == b[i]
  {
    seq(|b|, i requires 0 <= i < |b| => b[i] as char)
  }

  /** `atob`: the forgiving-base64 decode of the WHATWG Infra Standard. */
  function Atob(s: string): (r: Result<string>)
    ensures r.Success? ==> forall i :: 0 <= i < |r.value| ==> r.value[i] as int < 256
    ensures r.Failure? ==> r.error == NotEncoded
    ensures |RemoveAsciiWhitespace(s)| % 4 == 1 ==> r.Failure?
  {
    var d := RemoveAsciiWhitespace(s);
    var d' := if |d| % 4 == 0 then DropPadding(d) else d;
    if |d'| % 4 == 1 then Failure(NotEncoded)
    else if exists i :: 0 <= i < |d'| && !IsBase64Char(d'[i]) then Failure(NotEncoded)
    else Success(BinaryString(DecodeChars(d')))
  }

  // ---------------------------------------------------------------------------
  // The round trip

  /** Joining high and low bits and splitting them again gives them back. */
  lemma Regroup16(hi: int, lo: int)
    requires 0 <= lo < 16
    ensures (hi * 16 + lo) / 16 == hi && (hi * 16 + lo) % 16 == lo
  {
  }

  lemma Regroup4(hi: int, lo: int)
    requires 0 <= lo < 4
    ensures (hi * 4 + lo) / 4 == hi && (hi * 4 + lo) % 4 == lo
  {
  }

  /** The four sextets of three bytes give those bytes back. */
  lemma TripleSextets(b0: Byte, b1: Byte, b2: Byte)
    ensures (b0 / 4) * 4 + ((b0 % 4) * 16 + b1 / 16) / 16 == b0
    ensures (((b0 % 4) * 16 + b1 / 16) % 16) * 16 + ((b1 % 16) * 4 + b2 / 64) / 4 == b1
    ensures (((b1 % 16) * 4 + b2 / 64) % 4) * 64 + b2 % 64 == b2
  {
    Regroup16(b0 % 4, b1 / 16);
    Regroup4(b1 % 16, b2 / 64);
  }

  lemma QuadOfTriple(b0: Byte, b1: Byte, b2: Byte)
    ensures Quad(b0 / 4, (b0 % 4) * 16 + b1 / 16, (b1 % 16) * 4 + b2 / 64, b2 % 64) == [b0, b1, b2]
  {
    TripleSextets(b0, b1, b2);
  }

  lemma TripleSextetValues(b0: Byte, b1: Byte, b2: Byte, rest: string)
    ensures var s := EncodeTriple(b0, b1, b2) + rest;
            |s| >= 4 && s[4..] == rest
            && ValueOf(s[0]) == b0 / 4 && ValueOf(s[1]) == (b0 % 4) * 16 + b1 / 16
            && ValueOf(s[2]) == (b1 % 16) * 4 + b2 / 64 && ValueOf(s[3]) == b2 % 64
  {
    var s := EncodeTriple(b0, b1, b2) + rest;
    assert s[0] == CharOf(b0 / 4) && s[1] == CharOf((b0 % 4) * 16 + b1 / 16);
    assert s[2] == CharOf((b1 % 16) * 4 + b2 / 64) && s[3] == CharOf(b2 % 64);
    ValueOfCharOf(b0 / 4);
    ValueOfCharOf((b0 % 4) * 16 + b1 / 16);
    ValueOfCharOf((b1 % 16) * 4 + b2 / 64);
    ValueOfCharOf(b2 % 64);
    assert s[4..] == rest;
  }

  /** The first four characters of an encoded triple decode to the triple. */
  lemma TripleHead(b0: Byte, b1: Byte, b2: Byte, rest: string)
    ensures var s := EncodeTriple(b0, b1, b2) + rest;
            |s| == |rest| + 4 && s[4..] == rest
            && Quad(ValueOf(s[0]), ValueOf(s[1]), ValueOf(s[2]), ValueOf(s[3])) == [b0, b1, b2]
  {
    TripleSextetValues(b0, b1, b2, rest);
    QuadOfTriple(b0, b1, b2);
  }

  lemma DecodeHead(s: string)
    requires |s| >= 4 && |s| % 4 != 1
    requires AllBase64(s)
    ensures DecodeChars(s) == Quad(ValueOf(s[0]), ValueOf(s[1]), ValueOf(s[2]), ValueOf(s[3])) + DecodeChars(s[4..])
  {
  }

  /** Decoding an encoded triple in front of more characters gives the triple in front of their decoding. */
  lemma DecodeTriple(b0: Byte, b1: Byte, b2: Byte, rest: string, s: string)
    requires s == EncodeTriple(b0, b1, b2) + rest
    requires AllBase64(rest)
    requires |rest| % 4 != 1
    ensures AllBase64(s) && |s| % 4 != 1
    ensures DecodeChars(s) == [b0, b1, b2] + DecodeChars(rest)
  {
    AllBase64Append(EncodeTriple(b0, b1, b2), rest);
    TripleHead(b0, b1, b2, rest);
    ModFour(|rest|);
    DecodeHead(s);
  }

  /** The three characters of a final pair of bytes decode to the pair. */
  lemma DecodePair(b0: Byte, b1: Byte)
    ensures var s := [CharOf(b0 / 4), CharOf((b0 % 4) * 16 + b1 / 16), CharOf((b1 % 16) * 4)];
            AllBase64(s) && DecodeChars(s) == [b0, b1]
  {
    var v0, v1, v2 := b0 / 4, (b0 % 4) * 16 + b1 / 16, (b1 % 16) * 4;
    var s := [CharOf(v0), CharOf(v1), CharOf(v2)];
    ValueOfCharOf(v0);
    ValueOfCharOf(v1);
    ValueOfCharOf(v2);
    assert DecodeChars(s) == Quad(v0, v1, v2, 0)[..2];
    QuadOfTriple(b0, b1, 0);
  }

  /** The two characters of a final single byte decode to the byte. */
  lemma DecodeSingle(b0: Byte)
    ensures var s := [CharOf(b0 / 4), CharOf((b0 % 4) * 16)];
            AllBase64(s) && DecodeChars(s) == [b0]
  {
    var v0, v1 := b0 / 4, (b0 % 4) * 16;
    var s := [CharOf(v0), CharOf(v1)];
    ValueOfCharOf(v0);
    ValueOfCharOf(v1);
    assert DecodeChars(s) == Quad(v0, v1, 0, 0)[..1];
    QuadOfTriple(b0, 0, 0);
  }

  lemma SplitThree<T>(s: seq<T>)
    requires |s| >= 3
    ensures [s[0], s[1], s[2]] + s[3..] == s
  {
    assert s[..3] == [s[0], s[1], s[2]];
    assert s[..3] + s[3..] == s;
  }

  lemma {:induction false} DecodeUnpadded(b: seq<Byte>)
    ensures DecodeChars(Unpadded(b)) == b
    decreases |b|
  {
    if |b| >= 3 {
      DecodeUnpadded(b[3..]);
      DecodeTriple(b[0], b[1], b[2], Unpadded(b[3..]), Unpadded(b));
      SplitThree(b);
    } else if |b| == 2 {
      DecodePair(b[0], b[1]);
      assert b == [b[0], b[1]];
    } else if |b| == 1 {
      DecodeSingle(b[0]);
      assert b == [b[0]];
    }
  }

  lemma {:induction false} RemoveAsciiWhitespaceKeeps(s: string)
    requires forall i :: 0 <= i < |s| ==> s[i] == '=' || IsBase64Char(s[i])
    ensures RemoveAsciiWhitespace(s) == s
  {
    if s != [] {
      RemoveAsciiWhitespaceKeeps(s[1..]);
      assert s == [s[0]] + s[1..];
    }
  }

  lemma DropPaddingOfEncode(b: seq<Byte>)
    ensures DropPadding(Encode(b)) == Unpadded(b)
  {
    var u := Unpadded(b);
    var s := Encode(b);
    if |b| % 3 == 1 {
      assert s[..|s| - 2] == u;
    } else if |b| % 3 == 2 {
      assert s[..|s| - 1] == u;
      assert |u| >= 2 && IsBase64Char(u[|u| - 1]);
    } else {
      assert s == u;
      assert |u| > 0 ==> IsBase64Char(u[|u| - 1]);
    }
  }

  /** The characters of an encoding are alphabet characters or `=`. */
  lemma EncodeChars(b: seq<Byte>)
    ensures forall i :: 0 <= i < |Encode(b)| ==> Encode(b)[i] == '=' || IsBase64Char(Encode(b)[i])
  {
    var s := Encode(b);
    var u := Unpadded(b);
    forall i | 0 <= i < |s| ensures s[i] == '=' || IsBase64Char(s[i]) {
      if i >= |u| {
        assert s[i] == Padding(b)[i - |u|];
      }
    }
  }

  /** `atob` undoes the encoder: decoding the padded base64 of any bytes gives
      those bytes back, as a binary string. */
  lemma {:induction false} AtobEncode(b: seq<Byte>)
    ensures Atob(Encode(b)) == Success(BinaryString(b))
  {
    var s := Encode(b);
    var u := Unpadded(b);
    EncodeChars(b);
    RemoveAsciiWhitespaceKeeps(s);
    assert RemoveAsciiWhitespace(s) == s;
    DropPaddingOfEncode(b);
    assert |u| % 4 != 1;
    assert !exists i :: 0 <= i < |u| && !IsBase64Char(u[i]);
    DecodeUnpadded(b);
  }

  // ---------------------------------------------------------------------------
  // `base64ToArrayBuffer`

  /** JavaScript's `\s`: the ECMAScript white space and line terminator characters. */
  predicate IsJsSpace(c: char) {
    var n := c as int;
    n == 0x09 || n == 0x0A || n == 0x0B || n == 0x0C || n == 0x0D || n == 0x20 || n == 0xA0
    || n == 0x1680 || (0x2000 <= n <= 0x200A) || n == 0x2028 || n == 0x2029
    || n == 0x202F || n == 0x205F || n == 0x3000 || n == 0xFEFF
  }

  /** `.replace(/\s+/g, '')`. */
  function RemoveSpaces(s: string): (r: string)
    ensures |r| <= |s|
    ensures forall i :: 0 <= i < |r| ==> !IsJsSpace(r[i])
  {
    if s == [] then []
    else (if IsJsSpace(s[0]) then [] else [s[0]]) + RemoveSpaces(s[1..])
  }

  /** Removing whitespace works piecewise: what it keeps of a concatenation is what
      it keeps of each part. */
  lemma {:induction false} RemoveSpacesAppend(a: string, b: string)
    ensures RemoveSpaces(a + b) == RemoveSpaces(a) + RemoveSpaces(b)
    decreases |a|
  {
    if a == [] {
      assert a + b == b;
    } else {
      assert (a + b)[1..] == a[1..] + b;
      RemoveSpacesAppend(a[1..], b);
    }
  }

  /** On one character: white space goes, anything else stays.  With
      `RemoveSpacesAppend` this fixes the result on every string: the
      characters that are not white space, in their order. */
  lemma RemoveSpacesOne(c: char)
    ensures RemoveSpaces([c]) == if IsJsSpace(c) then [] else [c]
  {
    assert [c][1..] == [];
  }

  lemma {:induction false} RemoveSpacesAll(w: string)
    requires forall i :: 0 <= i < |w| ==> IsJsSpace(w[i])
    ensures RemoveSpaces(w) == []
    decreases |w|
  {
    if w != [] {
      RemoveSpacesAll(w[1..]);
    }
  }

  lemma {:induction false} RemoveSpacesKeeps(s: string)
    requires forall i :: 0 <= i < |s| ==> !IsJsSpace(s[i])
    ensures RemoveSpaces(s) == s
    decreases |s|
  {
    if s != [] {
      RemoveSpacesKeeps(s[1..]);
      assert s == [s[0]] + s[1..];
    }
  }

  /** The index of the first `;` at or after `from`, or `|s|` when there is none. */
  function SemicolonFrom(s: string, from: nat): (k: nat)
    requires from <= |s|
    ensures from <= k <= |s|
    ensures forall i :: from <= i < k ==> s[i] != ';'
    ensures k < |s| ==> s[k] == ';'
    decreases |s| - from
  {
    if from == |s| || s[from] == ';' then from else SemicolonFrom(s, from + 1)
  }

  /** A string the pattern `^data:[^;]+;base64,` matches in full: `data:`, a
      non-empty media type without `;`, then `;base64,`. */
  predicate DataUrlHead(h: string) {
    |h| >= 14 && h[..5] == "data:" && h[|h| - 8..] == ";base64,"
    && forall i :: 5 <= i < |h| - 8 ==> h[i] != ';'
  }

  /** `.replace(/^data:[^;]+;base64,/, '')`.  `[^;]+` cannot cross a `;`, so the only
      candidate match runs to the first `;` after `data:`. */
  function StripDataUrl(s: string): (r: string)
    ensures |r| <= |s| && r == s[|s| - |r|..]
    ensures r != s ==> DataUrlHead(s[..|s| - |r|])
  {
    if |s| >= 5 && s[..5] == "data:" then
      var k := SemicolonFrom(s, 5);
      if 5 < k && k + 8 <= |s| && s[k..k + 8] == ";base64," then
        var h := s[..k + 8];
        assert h[..5] == s[..5] && h[k..] == s[k..k + 8];
        assert forall i :: 5 <= i < k ==> h[i] == s[i];
        s[k + 8..]
      else s
    else s
  }

  /** A data URL with a non-empty media type loses exactly its `data:<type>;base64,` head. */
  lemma StripDataUrlOfPrefix(mediaType: string, rest: string)
    requires mediaType != [] && forall i :: 0 <= i < |mediaType| ==> mediaType[i] != ';'
    ensures StripDataUrl("data:" + mediaType + ";base64," + rest) == rest
  {
    var s := "data:" + mediaType + ";base64," + rest;
    var k := 5 + |mediaType|;
    assert s[..5] == "data:";
    assert s[k] == ';';
    assert forall i :: 5 <= i < k ==> s[i] == mediaType[i - 5];
    assert SemicolonFrom(s, 5) == k by {
      SemicolonAt(s, 5, k);
    }
    assert s[k..k + 8] == ";base64,";
    assert s[k + 8..] == rest;
  }

  lemma {:induction false} SemicolonAt(s: string, from: nat, k: nat)
    requires from <= k < |s| && s[k] == ';'
    requires forall i :: from <= i < k ==> s[i] != ';'
    ensures SemicolonFrom(s, from) == k
    decreases k - from
  {
    if from < k {
      SemicolonAt(s, from + 1, k);
    }
  }

  /** A string that does not start with `data:` is left alone. */
  lemma StripDataUrlNoPrefix(s: string)
    requires !(|s| >= 5 && s[..5] == "data:")
    ensures StripDataUrl(s) == s
  {
  }

  function Clean(s: string): (r: string)
    ensures forall i :: 0 <= i < |r| ==> !IsJsSpace(r[i])
  {
    RemoveSpaces(StripDataUrl(s))
  }

  /** The value handed to `base64ToArrayBuffer`.  Besides a string, what matters
      is what the catch block's `base64String?.slice(0, 30)` does with it:
      `null` and `undefined` short-circuit (`Missing`), a value with a `slice`
      method such as an array answers it (`Sliceable`), and any other value
      (a number, a boolean, a plain object) has no `slice` to call (`Unsliceable`). */
  datatype Payload = Text(s: string) | Missing | Sliceable | Unsliceable

  /** The loop filling a `Uint8Array` from a binary string; an element stores
      its value modulo 256. */
  function ToUint8Array(bin: string): (bytes: seq<Byte>)
    ensures |bytes| == |bin|
    ensures forall i :: 0 <= i < |bin| && bin[i] as int < 256 ==> bytes[i] == bin[i] as int
  {
    seq(|bin|, i requires 0 <= i < |bin| => (bin[i] as int) % 256)
  }

  const InvalidInput := "Invalid base64 string input"
  const ConversionFailed := "Audio conversion failed: "
  /** The `TypeError` the catch block itself throws when `slice` is not a
      function (V8's wording). */
  const SliceNotAFunction := "base64String?.slice is not a function"

  /** `base64ToArrayBuffer`.  A payload that is not a non-empty string is
      refused; the catch block wraps that refusal, and any `atob` failure, in
      "Audio conversion failed: ", except for a payload without a `slice`
      method, where the catch block throws a `TypeError` of its own. */
  function Base64ToArrayBuffer(p: Payload): (r: Result<seq<Byte>>)
    ensures p.Unsliceable? ==> r == Failure(SliceNotAFunction)
    ensures (p.Missing? || p.Sliceable? || p == Text("")) ==> r == Failure(ConversionFailed + InvalidInput)
    ensures p.Text? && p.s != "" ==>
              match Atob(Clean(p.s))
              case Failure(e) => r == Failure(ConversionFailed + e)
              case Success(bin) =>
                r.Success? && |r.value| == |bin| && forall i :: 0 <= i < |bin| ==> r.value[i] == bin[i] as int
  {
    if p.Unsliceable? then Failure(SliceNotAFunction)
    else if !p.Text? || |p.s| == 0 then Failure(ConversionFailed + InvalidInput)
    else
      match Atob(Clean(p.s))
      case Failure(e) => Failure(ConversionFailed + e)
      case Success(bin) => Success(ToUint8Array(bin))
  }

  lemma NoColonNoPrefix(s: string)
    requires forall i :: 0 <= i < |s| ==> s[i] != ':'
    ensures StripDataUrl(s) == s
  {
    if |s| >= 5 {
      assert s[4] != ':';
      assert s[..5][4] != "data:"[4];
    }
    StripDataUrlNoPrefix(s);
  }

  /** The bytes of a successful decode are the codes of the binary string `atob` gives. */
  lemma BytesOfBinaryString(p: Payload, b: seq<Byte>)
    requires p.Text? && p.s != "" && Atob(Clean(p.s)) == Success(BinaryString(b))
    ensures Base64ToArrayBuffer(p) == Success(b)
  {
    var bin := BinaryString(b);
    var bytes := Base64ToArrayBuffer(p).value;
    assert |bytes| == |b|;
    forall i | 0 <= i < |b| ensures bytes[i] == b[i] {
      assert bytes[i] == bin[i] as int;
    }
    assert bytes == b;
  }

  /** The client recovers exactly the bytes the relay's base64 string encodes;
      an empty payload is rejected. */
  lemma Base64ToArrayBufferEncode(b: seq<Byte>)
    ensures b != [] ==> Base64ToArrayBuffer(Text(Encode(b))) == Success(b)
    ensures b == [] ==> Base64ToArrayBuffer(Text(Encode(b))).Failure?
  {
    if b != [] {
      CleanEncode(b);
      AtobEncode(b);
      BytesOfBinaryString(Text(Encode(b)), b);
    } else {
      assert Encode(b) == [];
    }
  }

  /** An encoding has no data-URL head and no white space, so cleaning keeps it. */
  lemma CleanEncode(b: seq<Byte>)
    ensures Clean(Encode(b)) == Encode(b)
  {
    EncodeChars(b);
    assert forall i :: 0 <= i < |Encode(b)| ==> Encode(b)[i] != ':';
    NoColonNoPrefix(Encode(b));
    EncodeNoSpaces(b);
  }

  lemma EncodeNoSpaces(b: seq<Byte>)
    ensures RemoveSpaces(Encode(b)) == Encode(b)
  {
    var s := Encode(b);
    EncodeChars(b);
    forall i | 0 <= i < |s| ensures !IsJsSpace(s[i]) {
      assert s[i] == '=' || IsBase64Char(s[i]);
    }
    RemoveSpacesKeeps(s);
  }

  /** The same bytes come back when the encoding follows a data-URL head, and
      here even no bytes at all decode, since the payload itself is not empty. */
  lemma Base64ToArrayBufferDataUrl(mediaType: string, b: seq<Byte>)
    requires mediaType != [] && forall i :: 0 <= i < |mediaType| ==> mediaType[i] != ';'
    ensures Base64ToArrayBuffer(Text("data:" + mediaType + ";base64," + Encode(b))) == Success(b)
  {
    var s := Encode(b);
    StripDataUrlOfPrefix(mediaType, s);
    EncodeNoSpaces(b);
    AtobEncode(b);
    BytesOfBinaryString(Text("data:" + mediaType + ";base64," + s), b);
  }

  /** White space anywhere in the payload, such as a line break inside or after
      the base64 text, is removed before decoding: the client still recovers
      exactly the encoded bytes. */
  lemma Base64ToArrayBufferSpaced(b: seq<Byte>, k: nat, w: string)
    requires k <= |Encode(b)|
    requires forall i :: 0 <= i < |w| ==> IsJsSpace(w[i])
    ensures var t := Encode(b)[..k] + w + Encode(b)[k..];
            t != "" ==> Base64ToArrayBuffer(Text(t)) == Success(b)
  {
    var e := Encode(b);
    var t := e[..k] + w + e[k..];
    if t != "" {
      SpacedClean(b, k, w);
      AtobEncode(b);
      BytesOfBinaryString(Text(t), b);
    }
  }

  /** Cleaning the spaced encoding gives back the encoding. */
  lemma SpacedClean(b: seq<Byte>, k: nat, w: string)
    requires k <= |Encode(b)|
    requires forall i :: 0 <= i < |w| ==> IsJsSpace(w[i])
    ensures Clean(Encode(b)[..k] + w + Encode(b)[k..]) == Encode(b)
  {
    var e := Encode(b);
    EncodeChars(b);
    SplicedNoColon(e, k, w);
    NoColonNoPrefix(e[..k] + w + e[k..]);
    EncodeNoSpaceChars(b);
    SplicedAt(e, k, w);
  }

  lemma EncodeNoSpaceChars(b: seq<Byte>)
    ensures forall i :: 0 <= i < |Encode(b)| ==> !IsJsSpace(Encode(b)[i])
  {
    var e := Encode(b);
    EncodeChars(b);
    forall i | 0 <= i < |e| ensures !IsJsSpace(e[i]) {
      assert e[i] == '=' || IsBase64Char(e[i]);
    }
  }

  lemma SplicedAt(e: string, k: nat, w: string)
    requires k <= |e|
    requires forall i :: 0 <= i < |e| ==> !IsJsSpace(e[i])
    requires forall i :: 0 <= i < |w| ==> IsJsSpace(w[i])
    ensures RemoveSpaces(e[..k] + w + e[k..]) == e
  {
    NoSpacesSplit(e, k);
    SplicedRemoveSpaces(e[..k], w, e[k..]);
    TakeDrop(e, k);
  }

  lemma SplicedNoColon(e: string, k: nat, w: string)
    requires k <= |e|
    requires forall i :: 0 <= i < |e| ==> e[i] == '=' || IsBase64Char(e[i])
    requires forall i :: 0 <= i < |w| ==> IsJsSpace(w[i])
    ensures forall i :: 0 <= i < |e[..k] + w + e[k..]| ==> (e[..k] + w + e[k..])[i] != ':'
  {
    var t := e[..k] + w + e[k..];
    forall i | 0 <= i < |t| ensures t[i] != ':' {
      if i < k {
        assert t[i] == e[i];
      } else if i < k + |w| {
        assert t[i] == w[i - k];
      } else {
        assert t[i] == e[i - |w|];
      }
    }
  }

  /** White space spliced between two strings without any is removed again. */
  lemma NoSpacesSplit(e: string, k: nat)
    requires k <= |e|
    requires forall i :: 0 <= i < |e| ==> !IsJsSpace(e[i])
    ensures forall i :: 0 <= i < k ==> !IsJsSpace(e[..k][i])
    ensures forall i :: 0 <= i < |e| - k ==> !IsJsSpace(e[k..][i])
  {
    assert forall i :: 0 <= i < k ==> e[..k][i] == e[i];
    assert forall i :: 0 <= i < |e| - k ==> e[k..][i] == e[k + i];
  }

  lemma TakeDrop<T>(s: seq<T>, k: nat)
    requires k <= |s|
    ensures s[..k] + s[k..] == s
  {
  }

  lemma SplicedRemoveSpaces(x: string, w: string, y: string)
    requires forall i :: 0 <= i < |x| ==> !IsJsSpace(x[i])
    requires forall i :: 0 <= i < |w| ==> IsJsSpace(w[i])
    requires forall i :: 0 <= i < |y| ==> !IsJsSpace(y[i])
    ensures RemoveSpaces(x + w + y) == x + y
  {
    RemoveSpacesKeeps(x);
    RemoveSpacesKeeps(y);
    RemoveSpacesAll(w);
    RemoveSpacesAppend(x + w, y);
    RemoveSpacesAppend(x, w);
    assert x + [] == x;
  }
}
