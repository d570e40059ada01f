/** Rendered access tokens: `rheo_<kind>_<43 base64url characters>` (section 5 of RFC 4648). */
module TokenFormat {
  import opened Text

  type Byte = b: int | 0 <= b < 256
  type Sextet = s: int | 0 <= s < 64

  const RAW_BYTES := 32
  const VALUE_CHARS := 43
  const PREFIX := "rheo_"

  predicate IsBase64(c: char) {
    'A' <= c <= 'Z' || 'a' <= c <= 'z' || '0' <= c <= '9' || c == '-' || c == '_'
  }

  function ToChar(s: Sextet): (c: char)
    ensures IsBase64(c) && FromChar(c) == s
  {
    if s < 26 then (s + 'A' as int) as char
    else if s < 52 then (s - 26 + 'a' as int) as char
    else if s < 62 then (s - 52 + '0' as int) as char
    else if s == 62 then '-' else '_'
  }

  function FromChar(c: char): (s: Sextet)
    requires IsBase64(c)
  {
    if 'A' <= c <= 'Z' then c as int - 'A' as int
    else if 'a' <= c <= 'z' then c as int - 'a' as int + 26
    else if '0' <= c <= '9' then c as int - '0' as int + 52
    else if c == '-' then 62 else 63
  }

  lemma CharOfSextet(c: char)
    requires IsBase64(c)
    ensures ToChar(FromChar(c)) == c
  {
  }

  // The four sextets of three bytes, and the three bytes of four sextets.
  function Sextet0(b0: int): int { b0 / 4 }

  function Sextet1(b0: int, b1: int): int { b0 % 4 * 16 + b1 / 16 }

  function Sextet2(b1: int, b2: int): int { b1 % 16 * 4 + b2 / 64 }

  function Sextet3(b2: int): int { b2 % 64 }

  function Byte0(s0: int, s1: int): int { s0 * 4 + s1 / 16 }

  function Byte1(s1: int, s2: int): int { s1 % 16 * 16 + s2 / 4 }

  function Byte2(s2: int, s3: int): int { s2 % 4 * 64 + s3 }

  /** Base64 without padding: three bytes to four sextets, then the one or two bytes left. */
  function Encode(bytes: seq<Byte>): seq<Sextet> {
    if |bytes| == 0 then []
    else if |bytes| == 1 then [Sextet0(bytes[0]), Sextet1(bytes[0], 0)]
    else if |bytes| == 2 then [Sextet0(bytes[0]), Sextet1(bytes[0], bytes[1]), Sextet2(bytes[1], 0)]
    else EncodeGroup(bytes[0], bytes[1], bytes[2]) + Encode(bytes[3..])
  }

  function EncodeGroup(b0: Byte, b1: Byte, b2: Byte): (r: seq<Sextet>)
    ensures |r| == 4
  {
    [Sextet0(b0), Sextet1(b0, b1), Sextet2(b1, b2), Sextet3(b2)]
  }

  /**
   * Python's decoder on restored padding: the unused low bits of the last sextet are dropped. A single
   * sextet left over, at which Python raises, cannot occur in a token's 43 characters.
   */
  function Decode(sextets: seq<Sextet>): seq<Byte> {
    if |sextets| <= 1 then []
    else if |sextets| == 2 then [Byte0(sextets[0], sextets[1])]
    else if |sextets| == 3 then [Byte0(sextets[0], sextets[1]), Byte1(sextets[1], sextets[2])]
    else DecodeGroup(sextets[0], sextets[1], sextets[2], sextets[3]) + Decode(sextets[4..])
  }

  function DecodeGroup(s0: Sextet, s1: Sextet, s2: Sextet, s3: Sextet): (r: seq<Byte>)
    ensures |r| == 3
  {
    [Byte0(s0, s1), Byte1(s1, s2), Byte2(s2, s3)]
  }

  /** A group of three bytes decodes from its own encoding and from nothing else. */
  lemma GroupInverse(s0: Sextet, s1: Sextet, s2: Sextet, s3: Sextet, b0: Byte, b1: Byte, b2: Byte)
    ensures DecodeGroup(s0, s1, s2, s3) == [b0, b1, b2] <==> [s0, s1, s2, s3] == EncodeGroup(b0, b1, b2)
  {
    var d, e := DecodeGroup(s0, s1, s2, s3), EncodeGroup(b0, b1, b2);
    assert d == [b0, b1, b2] <==> d[0] == b0 && d[1] == b1 && d[2] == b2;
    assert [s0, s1, s2, s3] == e <==> s0 == e[0] && s1 == e[1] && s2 == e[2] && s3 == e[3];
  }

  lemma LastGroupInverse(s0: Sextet, s1: Sextet, s2: Sextet, b0: Byte, b1: Byte)
    ensures Byte0(s0, s1) == b0 && Byte1(s1, s2) == b1 <==>
      s0 == Sextet0(b0) && s1 == Sextet1(b0, b1) && s2 / 4 == Sextet2(b1, 0) / 4
  {
  }

  /** The number that the sextets spell, most significant first. */
  function NumberOf(sextets: seq<Sextet>): int {
    if sextets == [] then 0 else NumberOf(sextets[..|sextets| - 1]) * 64 + sextets[|sextets| - 1]
  }

  lemma NumberOfFour(a: Sextet, b: Sextet, c: Sextet, d: Sextet)
    ensures NumberOf([a]) == a && NumberOf([a, b]) == (a as int) * 64 + b
    ensures NumberOf([a, b, c]) == ((a as int) * 64 + b) * 64 + c
    ensures NumberOf([a, b, c, d]) == (((a as int) * 64 + b) * 64 + c) * 64 + d
  {
    assert [a, b, c, d][..3] == [a, b, c] && [a, b, c][..2] == [a, b] && [a, b][..1] == [a] && [a][..0] == [];
  }

  /** Three bytes and their sextets are one number; a shorter last group is filled up with zero bits. */
  lemma EncodeIsBigEndian(b0: Byte, b1: Byte, b2: Byte)
    ensures |Encode([b0, b1, b2])| == 4 && NumberOf(Encode([b0, b1, b2])) == ((b0 as int) * 256 + b1) * 256 + b2
    ensures |Encode([b0, b1])| == 3 && NumberOf(Encode([b0, b1])) == ((b0 as int) * 256 + b1) * 4
    ensures |Encode([b0])| == 2 && NumberOf(Encode([b0])) == (b0 as int) * 16
  {
    assert [b0, b1, b2][3..] == [] && Encode([b0, b1, b2]) == EncodeGroup(b0, b1, b2);
    NumberOfFour(Sextet0(b0), Sextet1(b0, b1), Sextet2(b1, b2), Sextet3(b2));
    NumberOfFour(Sextet0(b0), Sextet1(b0, b1), Sextet2(b1, 0), 0);
    NumberOfFour(Sextet0(b0), Sextet1(b0, 0), 0, 0);
  }

  lemma {:induction false} EncodeLength(bytes: seq<Byte>)
    ensures |Encode(bytes)| == (4 * |bytes| + 2) / 3
  {
    if |bytes| >= 3 { EncodeLength(bytes[3..]); }
  }

  lemma {:induction false} DecodeLength(sextets: seq<Sextet>)
    ensures |Decode(sextets)| == 3 * |sextets| / 4
  {
    if |sextets| >= 4 { DecodeLength(sextets[4..]); }
  }

  /** The first group of an encoding, and the rest. */
  lemma EncodeUnfolds(bytes: seq<Byte>)
    requires |bytes| >= 3
    ensures var e := Encode(bytes);
      && |e| >= 4 && e[4..] == Encode(bytes[3..])
      && [e[0], e[1], e[2], e[3]] == EncodeGroup(bytes[0], bytes[1], bytes[2])
  {
  }

  lemma DecodeOfShort(bytes: seq<Byte>)
    requires |bytes| < 3
    ensures Decode(Encode(bytes)) == bytes
  {
    if |bytes| == 1 {
      OneByte(bytes[0]);
      assert bytes == [bytes[0]];
    } else if |bytes| == 2 {
      TwoBytes(bytes[0], bytes[1]);
      assert bytes == [bytes[0], bytes[1]];
    }
  }

  lemma OneByte(b: Byte)
    ensures Decode(Encode([b])) == [b]
  {
  }

  lemma TwoBytes(b0: Byte, b1: Byte)
    ensures Decode(Encode([b0, b1])) == [b0, b1]
  {
  }

  lemma DecodeUnfolds(sextets: seq<Sextet>)
    requires |sextets| >= 4
    ensures Decode(sextets) == DecodeGroup(sextets[0], sextets[1], sextets[2], sextets[3]) + Decode(sextets[4..])
  {
  }

  lemma {:induction false} DecodeOfEncode(bytes: seq<Byte>)
    ensures Decode(Encode(bytes)) == bytes
  {
    if |bytes| < 3 {
      DecodeOfShort(bytes);
    } else {
      var e := Encode(bytes);
      EncodeUnfolds(bytes);
      DecodeOfEncode(bytes[3..]);
      GroupInverse(e[0], e[1], e[2], e[3], bytes[0], bytes[1], bytes[2]);
      DecodeUnfolds(e);
      assert bytes == [bytes[0], bytes[1], bytes[2]] + bytes[3..];
    }
  }

  /** Equal up to the two bits of the last sextet that the decoder drops. */
  predicate SameUpToUnusedBits(s: seq<Sextet>, e: seq<Sextet>) {
    |s| == |e| > 0 && (forall k :: 0 <= k < |s| - 1 ==> s[k] == e[k]) && s[|s| - 1] / 4 == e[|s| - 1] / 4
  }

  lemma SameFromFour(s: seq<Sextet>, e: seq<Sextet>)
    requires |s| == |e| > 4
    ensures SameUpToUnusedBits(s, e) <==>
      [s[0], s[1], s[2], s[3]] == [e[0], e[1], e[2], e[3]] && SameUpToUnusedBits(s[4..], e[4..])
  {
  }

  lemma ConcatEqual<T>(a: seq<T>, b: seq<T>, c: seq<T>, d: seq<T>)
    requires |a| == |c|
    ensures a + b == c + d <==> a == c && b == d
  {
    if a + b == c + d {
      assert a == (a + b)[..|a|] && b == (a + b)[|a|..];
      assert c == (c + d)[..|c|] && d == (c + d)[|c|..];
    }
  }

  lemma EncodeLengthOf(bytes: seq<Byte>, groups: nat)
    requires |bytes| == 3 * groups + 2
    ensures |Encode(bytes)| == 4 * groups + 3
  {
    EncodeLength(bytes);
  }

  /** When the last group holds two bytes, a value has exactly its encoding and that encoding's variants. */
  lemma {:induction false} DecodePreimage(sextets: seq<Sextet>, bytes: seq<Byte>, groups: nat)
    requires |bytes| == 3 * groups + 2 && |sextets| == 4 * groups + 3
    ensures Decode(sextets) == bytes <==> SameUpToUnusedBits(sextets, Encode(bytes))
    decreases groups
  {
    if groups > 0 {
      DecodePreimage(sextets[4..], bytes[3..], groups - 1);
      EncodeLengthOf(bytes, groups);
      PreimageStep(sextets, bytes);
    } else {
      LastGroupInverse(sextets[0], sextets[1], sextets[2], bytes[0], bytes[1]);
      assert bytes == [bytes[0], bytes[1]];
    }
  }

  lemma PreimageStep(s: seq<Sextet>, bytes: seq<Byte>)
    requires |bytes| >= 3 && |s| == |Encode(bytes)| > 4
    requires Decode(s[4..]) == bytes[3..] <==> SameUpToUnusedBits(s[4..], Encode(bytes[3..]))
    ensures Decode(s) == bytes <==> SameUpToUnusedBits(s, Encode(bytes))
  {
    var e, rest := Encode(bytes), Decode(s[4..]);
    var group, first := DecodeGroup(s[0], s[1], s[2], s[3]), [bytes[0], bytes[1], bytes[2]];
    EncodeUnfolds(bytes);
    DecodeUnfolds(s);
    GroupInverse(s[0], s[1], s[2], s[3], bytes[0], bytes[1], bytes[2]);
    assert bytes == first + bytes[3..];
    PreimageGlue(s, e, group, rest, first, bytes[3..]);
  }

  lemma PreimageGlue(
    s: seq<Sextet>, e: seq<Sextet>, group: seq<Byte>, rest: seq<Byte>, first: seq<Byte>, tail: seq<Byte>)
    requires |s| == |e| > 4 && |group| == |first| == 3
    requires group == first <==> [s[0], s[1], s[2], s[3]] == [e[0], e[1], e[2], e[3]]
    requires rest == tail <==> SameUpToUnusedBits(s[4..], e[4..])
    ensures group + rest == first + tail <==> SameUpToUnusedBits(s, e)
  {
    SameFromFour(s, e);
    ConcatEqual(group, rest, first, tail);
  }

  function Chars(sextets: seq<Sextet>): (s: string)
    ensures |s| == |sextets| && forall k :: 0 <= k < |s| ==> s[k] == ToChar(sextets[k])
  {
    seq(|sextets|, k requires 0 <= k < |sextets| => ToChar(sextets[k]))
  }

  function Sextets(s: string): (r: seq<Sextet>)
    requires forall c <- s :: IsBase64(c)
    ensures |r| == |s| && forall k :: 0 <= k < |s| ==> r[k] == FromChar(s[k])
  {
    seq(|s|, k requires 0 <= k < |s| => FromChar(s[k]))
  }

  /** `mint`, with the random draw as an input: the rendered string. */
  function Mint(kind: string, raw: seq<Byte>): string
    requires |raw| == RAW_BYTES
  {
    PREFIX + kind + "_" + Chars(Encode(raw))
  }

  datatype ParsedToken = ParsedToken(kind: string, raw: seq<Byte>)

  /** `[a-z]+` */
  predicate IsKind(s: string) { s != "" && forall c <- s :: 'a' <= c <= 'z' }

  /** The pattern's only reading: the value is the last 43 characters, so the kind is what lies before. */
  predicate Matches(token: string, kind: string, value: string) {
    token == PREFIX + kind + "_" + value && IsKind(kind) && |value| == VALUE_CHARS && forall c <- value :: IsBase64(c)
  }

  function KindPart(token: string): string
    requires |token| >= |PREFIX| + 1 + VALUE_CHARS
  {
    token[|PREFIX|..|token| - VALUE_CHARS - 1]
  }

  function ValuePart(token: string): string
    requires |token| >= VALUE_CHARS
  {
    token[|token| - VALUE_CHARS..]
  }

  /** `parse` */
  function Parse(token: string): Option<ParsedToken> {
    if |token| < |PREFIX| + 1 + VALUE_CHARS || !Matches(token, KindPart(token), ValuePart(token)) then None
    else
      var raw := Decode(Sextets(ValuePart(token)));
      if |raw| != RAW_BYTES then None else Some(ParsedToken(KindPart(token), raw))
  }

  lemma MatchIsUnique(token: string, kind: string, value: string)
    requires Matches(token, kind, value)
    ensures |token| >= |PREFIX| + 1 + VALUE_CHARS && kind == KindPart(token) && value == ValuePart(token)
  {
  }

  /** The decoded length is always 32, so the length check never refuses a token of the right shape. */
  lemma EveryMatchParses(token: string, kind: string, value: string)
    requires Matches(token, kind, value)
    ensures Parse(token) == Some(ParsedToken(kind, Decode(Sextets(value))))
    ensures |Decode(Sextets(value))| == RAW_BYTES
  {
    MatchIsUnique(token, kind, value);
    DecodeLength(Sextets(value));
  }

  lemma CharsOfSextets(value: string)
    requires forall c <- value :: IsBase64(c)
    ensures Chars(Sextets(value)) == value
  {
    forall k | 0 <= k < |value| ensures Chars(Sextets(value))[k] == value[k] {
      assert value[k] in value;
      CharOfSextet(value[k]);
    }
  }

  lemma SextetsOfChars(sextets: seq<Sextet>)
    ensures forall c <- Chars(sextets) :: IsBase64(c)
    ensures Sextets(Chars(sextets)) == sextets
  {
  }

  /** The four texts that carry one value: the minted one, and those that differ in two unused bits. */
  function Spelling(kind: string, raw: seq<Byte>, bits: nat): string
    requires |raw| == RAW_BYTES && bits < 4
  {
    EncodeLength(raw);
    LastSextet(raw);
    PREFIX + kind + "_" + Chars(Encode(raw)[42 := Encode(raw)[42] + bits])
  }

  lemma {:induction false} LastSextet(raw: seq<Byte>)
    requires |raw| % 3 == 2
    ensures |Encode(raw)| > 0 && Encode(raw)[|Encode(raw)| - 1] % 4 == 0
  {
    EncodeLength(raw);
    if |raw| > 2 {
      LastSextet(raw[3..]);
      assert Encode(raw)[4..] == Encode(raw[3..]);
    }
  }

  /** Parsing undoes minting exactly for the kinds that the pattern admits. */
  lemma ParseOfMint(kind: string, raw: seq<Byte>)
    requires |raw| == RAW_BYTES
    ensures IsKind(kind) <==> Parse(Mint(kind, raw)) == Some(ParsedToken(kind, raw))
  {
    EncodeLength(raw);
    SextetsOfChars(Encode(raw));
    DecodeOfEncode(raw);
    if IsKind(kind) {
      EveryMatchParses(Mint(kind, raw), kind, Chars(Encode(raw)));
    }
  }

  /** A text is accepted as a given kind and value exactly when it is one of the four spellings. */
  lemma AcceptedSpellings(token: string, kind: string, raw: seq<Byte>)
    requires |raw| == RAW_BYTES
    ensures Parse(token) == Some(ParsedToken(kind, raw)) <==>
      IsKind(kind) && exists bits: nat :: bits < 4 && token == Spelling(kind, raw, bits)
  {
    if IsKind(kind) {
      if bits: nat :| bits < 4 && token == Spelling(kind, raw, bits) {
        SpellingParses(kind, raw, bits);
      }
    }
    if Parse(token) == Some(ParsedToken(kind, raw)) {
      var bits := ParsedIsSpelling(token, kind, raw);
    }
  }

  lemma SpellingParses(kind: string, raw: seq<Byte>, bits: nat)
    requires |raw| == RAW_BYTES && IsKind(kind) && bits < 4
    ensures Parse(Spelling(kind, raw, bits)) == Some(ParsedToken(kind, raw))
  {
    EncodeLength(raw);
    LastSextet(raw);
    var spelt := Encode(raw)[42 := Encode(raw)[42] + bits];
    DecodePreimage(spelt, raw, 10);
    SextetsOfChars(spelt);
    EveryMatchParses(Spelling(kind, raw, bits), kind, Chars(spelt));
  }

  lemma ParsedIsSpelling(token: string, kind: string, raw: seq<Byte>) returns (bits: nat)
    requires |raw| == RAW_BYTES && Parse(token) == Some(ParsedToken(kind, raw))
    ensures bits < 4 && token == Spelling(kind, raw, bits)
  {
    var value := ValuePart(token);
    var sextets := Sextets(value);
    EncodeLength(raw);
    LastSextet(raw);
    DecodePreimage(sextets, raw, 10);
    var e := Encode(raw);
    bits := sextets[42] - e[42];
    assert sextets == e[42 := e[42] + bits];
    CharsOfSextets(value);
  }

  /** The four spellings are four different texts of one length, alike up to the last character. */
  lemma SpellingsDiffer(kind: string, raw: seq<Byte>, a: nat, b: nat)
    requires |raw| == RAW_BYTES && a < 4 && b < 4
    ensures Spelling(kind, raw, 0) == Mint(kind, raw)
    ensures var x, y := Spelling(kind, raw, a), Spelling(kind, raw, b);
      |x| == |y| > 0 && x[..|x| - 1] == y[..|y| - 1] && (x == y <==> a == b)
  {
    EncodeLength(raw);
    LastSextet(raw);
    var e := Encode(raw);
    var x, y := e[42 := e[42] + a], e[42 := e[42] + b];
    assert e[42 := e[42] + 0] == e;
    assert FromChar(Chars(x)[42]) == x[42] && FromChar(Chars(y)[42]) == y[42];
    var start := PREFIX + kind + "_";
    assert Spelling(kind, raw, a)[|start| + 42] == Chars(x)[42];
    assert Spelling(kind, raw, b)[|start| + 42] == Chars(y)[42];
    assert Chars(x)[..42] == Chars(y)[..42];
    assert Spelling(kind, raw, a)[..|start| + 42] == start + Chars(x)[..42];
    assert Spelling(kind, raw, b)[..|start| + 42] == start + Chars(y)[..42];
  }
}
