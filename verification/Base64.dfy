// Unpadded base64 in its standard and URL-safe alphabets (sections 3.2, 4 and 5 of RFC 4648).
module Base64 {
  import opened Basics

  type byte = x: int | 0 <= x < 256
  type sextet = x: int | 0 <= x < 64

  datatype Encoding = RawStd | RawURL

  function CharOf(enc: Encoding, v: sextet): char {
    if v < 26 then ('A' as int + v) as char
    else if v < 52 then ('a' as int + (v - 26)) as char
    else if v < 62 then ('0' as int + (v - 52)) as char
    else if v == 62 then (if enc.RawStd? then '+' else '-')
    else if enc.RawStd? then '/' else '_'
  }

  function ValueOf(enc: Encoding, c: char): Option<sextet> {
    if 'A' <= c <= 'Z' then Some(c as int - 'A' as int)
    else if 'a' <= c <= 'z' then Some(c as int - 'a' as int + 26)
    else if '0' <= c <= '9' then Some(c as int - '0' as int + 52)
    else if c == (if enc.RawStd? then '+' else '-') then Some(62)
    else if c == (if enc.RawStd? then '/' else '_') then Some(63)
    else None
  }

  function EncodeToString(enc: Encoding, b: seq<byte>): string {
    if |b| == 0 then ""
    else if |b| == 1 then [CharOf(enc, b[0] / 4), CharOf(enc, b[0] % 4 * 16)]
    else if |b| == 2 then
      [CharOf(enc, b[0] / 4), CharOf(enc, b[0] % 4 * 16 + b[1] / 16), CharOf(enc, b[1] % 16 * 4)]
    else
      [CharOf(enc, b[0] / 4), CharOf(enc, b[0] % 4 * 16 + b[1] / 16),
       CharOf(enc, b[1] % 16 * 4 + b[2] / 64), CharOf(enc, b[2] % 64)]
      + EncodeToString(enc, b[3..])
  }

  // Line breaks are skipped wherever they stand.
  function Strip(s: string): string {
    if s == "" then ""
    else if s[0] == '\r' || s[0] == '\n' then Strip(s[1..])
    else [s[0]] + Strip(s[1..])
  }

  predicate InAlphabet(enc: Encoding, s: string) {
    forall c :: c in s ==> ValueOf(enc, c).Some?
  }

  function Values(enc: Encoding, s: string): (v: seq<sextet>)
    requires InAlphabet(enc, s)
    ensures |v| == |s|
  {
    seq(|s|, i requires 0 <= i < |s| => ValueOf(enc, s[i]).value)
  }

  // The three bytes of a group of four sextets.
  function Byte0(a: sextet, b: sextet): byte { (a as int) * 4 + b / 16 }
  function Byte1(b: sextet, c: sextet): byte { (b % 16) as int * 16 + c / 4 }
  function Byte2(c: sextet, d: sextet): byte { (c % 4) as int * 64 + d }

  lemma GroupOff(n: nat)
    requires n >= 4
    ensures (n - 4) % 4 == n % 4
  {
  }

  // A last group of two or three sextets drops its spare bits.
  function Pack(v: seq<sextet>): seq<byte>
    requires |v| % 4 != 1
  {
    if |v| == 0 then []
    else if |v| == 2 then [Byte0(v[0], v[1])]
    else if |v| == 3 then [Byte0(v[0], v[1]), Byte1(v[1], v[2])]
    else
      GroupOff(|v|);
      [Byte0(v[0], v[1]), Byte1(v[1], v[2]), Byte2(v[2], v[3])] + Pack(v[4..])
  }

  function DecodeString(enc: Encoding, s: string): Option<seq<byte>> {
    var t := Strip(s);
    if InAlphabet(enc, t) && |t| % 4 != 1 then Some(Pack(Values(enc, t))) else None
  }

  // ---------------------------------------------------------------- the round trip

  lemma ValueOfChar(enc: Encoding, v: sextet)
    ensures ValueOf(enc, CharOf(enc, v)) == Some(v)
  {
  }

  // The sextets of a byte string, and the encoding as the characters of those.
  function Unpack(b: seq<byte>): seq<sextet> {
    if |b| == 0 then []
    else if |b| == 1 then [b[0] / 4, b[0] % 4 * 16]
    else if |b| == 2 then [b[0] / 4, b[0] % 4 * 16 + b[1] / 16, b[1] % 16 * 4]
    else [b[0] / 4, b[0] % 4 * 16 + b[1] / 16, b[1] % 16 * 4 + b[2] / 64, b[2] % 64] + Unpack(b[3..])
  }

  function Chars(enc: Encoding, v: seq<sextet>): (s: string)
    ensures |s| == |v|
  {
    seq(|v|, i requires 0 <= i < |v| => CharOf(enc, v[i]))
  }

  lemma {:induction false} EncodeIsChars(enc: Encoding, b: seq<byte>)
    ensures EncodeToString(enc, b) == Chars(enc, Unpack(b))
  {
    if |b| >= 3 {
      EncodeIsChars(enc, b[3..]);
    }
  }

  lemma {:induction false} UnpackLength(b: seq<byte>)
    ensures |Unpack(b)| == (4 * |b| + 2) / 3 && |Unpack(b)| % 4 != 1
  {
    if |b| >= 3 {
      UnpackLength(b[3..]);
    }
  }

  lemma GroupPacks(x: byte, y: byte, z: byte)
    ensures Byte0(x / 4, x % 4 * 16 + y / 16) == x
    ensures Byte1(x % 4 * 16 + y / 16, y % 16 * 4 + z / 64) == y
    ensures Byte2(y % 16 * 4 + z / 64, z % 64) == z
  {
  }

  lemma PackGroup(a: sextet, b: sextet, c: sextet, d: sextet, rest: seq<sextet>)
    requires |rest| % 4 != 1
    ensures Pack([a, b, c, d] + rest) == [Byte0(a, b), Byte1(b, c), Byte2(c, d)] + Pack(rest)
  {
    assert ([a, b, c, d] + rest)[4..] == rest;
  }

  lemma UnpackGroup(x: byte, y: byte, z: byte, rest: seq<byte>)
    ensures Unpack([x, y, z] + rest) == [x / 4, x % 4 * 16 + y / 16, y % 16 * 4 + z / 64, z % 64] + Unpack(rest)
  {
    assert ([x, y, z] + rest)[3..] == rest;
  }

  // Packing the sextets of a byte string gives it back.
  predicate Unpacks(b: seq<byte>) {
    |Unpack(b)| % 4 != 1 && Pack(Unpack(b)) == b
  }

  lemma UnpacksShort(b: seq<byte>)
    requires |b| < 3
    ensures Unpacks(b)
  {
    if |b| == 1 {
      GroupPacks(b[0], 0, 0);
    } else if |b| == 2 {
      GroupPacks(b[0], b[1], 0);
    }
  }

  lemma PacksOn(a: sextet, b: sextet, c: sextet, d: sextet, v: seq<sextet>)
    requires |v| % 4 != 1
    ensures |[a, b, c, d] + v| % 4 != 1
    ensures Pack([a, b, c, d] + v) == [Byte0(a, b), Byte1(b, c), Byte2(c, d)] + Pack(v)
  {
    GroupOff(|[a, b, c, d] + v|);
    PackGroup(a, b, c, d, v);
  }

  lemma UnpacksGroup(x: byte, y: byte, z: byte, rest: seq<byte>)
    requires Unpacks(rest)
    ensures Unpacks([x, y, z] + rest)
  {
    UnpackGroup(x, y, z, rest);
    GroupPacks(x, y, z);
    PacksOn(x / 4, x % 4 * 16 + y / 16, y % 16 * 4 + z / 64, z % 64, Unpack(rest));
  }

  lemma {:induction false} PackUnpacks(b: seq<byte>)
    ensures Unpacks(b)
  {
    if |b| < 3 {
      UnpacksShort(b);
    } else {
      assert [b[0], b[1], b[2]] + b[3..] == b;
      PackUnpacks(b[3..]);
      UnpacksGroup(b[0], b[1], b[2], b[3..]);
    }
  }

  lemma CharsRead(enc: Encoding, v: seq<sextet>)
    ensures InAlphabet(enc, Chars(enc, v)) && Values(enc, Chars(enc, v)) == v
  {
    forall i | 0 <= i < |v| ensures ValueOf(enc, Chars(enc, v)[i]) == Some(v[i]) {
      ValueOfChar(enc, v[i]);
    }
  }

  lemma {:induction false} AlphabetHasNoBreaks(enc: Encoding, s: string)
    requires InAlphabet(enc, s)
    ensures Strip(s) == s
  {
    if s != "" {
      AlphabetHasNoBreaks(enc, s[1..]);
      assert s[0] in s;
    }
  }

  // Decoding undoes encoding for all byte strings, in either alphabet; the text has ceil(4n/3)
  // characters, all of the alphabet.
  lemma DecodeEncode(enc: Encoding, b: seq<byte>)
    ensures DecodeString(enc, EncodeToString(enc, b)) == Some(b)
    ensures |EncodeToString(enc, b)| == (4 * |b| + 2) / 3
    ensures InAlphabet(enc, EncodeToString(enc, b))
  {
    EncodeIsChars(enc, b);
    CharsRead(enc, Unpack(b));
    PackUnpacks(b);
    UnpackLength(b);
    AlphabetHasNoBreaks(enc, EncodeToString(enc, b));
  }

  // ---------------------------------------------------------------- which texts are encodings

  // The bits that the last group drops are zero.
  predicate SpareClear(v: seq<sextet>) {
    && (|v| % 4 == 2 ==> v[|v| - 1] % 16 == 0)
    && (|v| % 4 == 3 ==> v[|v| - 1] % 4 == 0)
  }

  // Only characters of the alphabet, so no line breaks, and no spare bits set.
  predicate Exact(enc: Encoding, s: string) {
    InAlphabet(enc, s) && SpareClear(Values(enc, s))
  }

  lemma GroupUnpacks(a: sextet, b: sextet, c: sextet, d: sextet)
    ensures Byte0(a, b) / 4 == a && Byte0(a, b) % 4 * 16 + Byte1(b, c) / 16 == b
    ensures Byte1(b, c) % 16 * 4 + Byte2(c, d) / 64 == c && Byte2(c, d) % 64 == d
  {
  }

  predicate Repacks(v: seq<sextet>)
    requires |v| % 4 != 1
  {
    Unpack(Pack(v)) == v
  }

  lemma RepacksGroup(a: sextet, b: sextet, c: sextet, d: sextet, rest: seq<sextet>)
    requires |rest| % 4 != 1
    ensures Repacks([a, b, c, d] + rest) <==> Repacks(rest)
  {
    PackGroup(a, b, c, d, rest);
    UnpackGroup(Byte0(a, b), Byte1(b, c), Byte2(c, d), Pack(rest));
    GroupUnpacks(a, b, c, d);
    var group, back := [a, b, c, d], Unpack(Pack(rest));
    assert (group + back)[4..] == back && (group + rest)[4..] == rest;
  }

  lemma SpareGroup(group: seq<sextet>, rest: seq<sextet>)
    requires |group| == 4
    ensures SpareClear(group + rest) <==> SpareClear(rest)
  {
    assert (|group + rest|) % 4 == |rest| % 4;
    assert rest != [] ==> (group + rest)[|group + rest| - 1] == rest[|rest| - 1];
  }

  lemma RepacksShort(v: seq<sextet>)
    requires |v| < 4 && |v| != 1
    ensures Repacks(v) <==> SpareClear(v)
  {
    if |v| == 2 {
      GroupUnpacks(v[0], v[1], 0, 0);
    } else if |v| == 3 {
      GroupUnpacks(v[0], v[1], v[2], 0);
    }
  }

  // Unpacking undoes packing exactly when no spare bits are set.
  lemma {:induction false} UnpackPacksIff(v: seq<sextet>)
    requires |v| % 4 != 1
    ensures Repacks(v) <==> SpareClear(v)
  {
    if |v| < 4 {
      RepacksShort(v);
    } else {
      var rest := v[4..];
      assert v == [v[0], v[1], v[2], v[3]] + rest;
      UnpackPacksIff(rest);
      RepacksGroup(v[0], v[1], v[2], v[3], rest);
      SpareGroup([v[0], v[1], v[2], v[3]], rest);
    }
  }

  lemma {:induction false} UnpackIsClear(b: seq<byte>)
    ensures SpareClear(Unpack(b))
  {
    PackUnpacks(b);
    UnpackPacksIff(Unpack(b));
  }

  lemma CharOfValue(enc: Encoding, c: char)
    requires ValueOf(enc, c).Some?
    ensures CharOf(enc, ValueOf(enc, c).value) == c
  {
  }

  lemma ReadChars(enc: Encoding, s: string)
    requires InAlphabet(enc, s)
    ensures Chars(enc, Values(enc, s)) == s
  {
    forall i | 0 <= i < |s| ensures Chars(enc, Values(enc, s))[i] == s[i] {
      CharOfValue(enc, s[i]);
    }
  }

  lemma EncodingIsExact(enc: Encoding, b: seq<byte>)
    ensures Exact(enc, EncodeToString(enc, b))
  {
    EncodeIsChars(enc, b);
    CharsRead(enc, Unpack(b));
    UnpackIsClear(b);
  }

  // A text that decodes is the encoding of its bytes if and only if it is exact.
  lemma EncodeDecodeIff(enc: Encoding, s: string)
    requires DecodeString(enc, s).Some?
    ensures EncodeToString(enc, DecodeString(enc, s).value) == s <==> Exact(enc, s)
  {
    var b := DecodeString(enc, s).value;
    if EncodeToString(enc, b) == s {
      EncodingIsExact(enc, b);
    }
    if Exact(enc, s) {
      AlphabetHasNoBreaks(enc, s);
      UnpackPacksIff(Values(enc, s));
      EncodeIsChars(enc, b);
      ReadChars(enc, s);
    }
  }

  lemma {:induction false} StripConcat(a: string, b: string)
    ensures Strip(a + b) == Strip(a) + Strip(b)
  {
    if a == "" {
      assert a + b == b;
    } else {
      assert (a + b)[1..] == a[1..] + b;
      StripConcat(a[1..], b);
    }
  }

  // A line break makes no difference, wherever it stands.
  lemma BreaksIgnored(enc: Encoding, a: string, b: string)
    ensures DecodeString(enc, a + "\n" + b) == DecodeString(enc, a + b)
    ensures DecodeString(enc, a + "\r" + b) == DecodeString(enc, a + b)
  {
    StripConcat(a, b);
    StripConcat(a + "\n", b);
    StripConcat(a, "\n");
    StripConcat(a + "\r", b);
    StripConcat(a, "\r");
    assert "\n"[1..] == "" && "\r"[1..] == "";
    assert Strip("\n") == "" && Strip("\r") == "";
    assert Strip(a) + "" == Strip(a);
  }

  // Without line breaks, a text decodes exactly if all its characters are of the alphabet and it does
  // not end in a single one.
  lemma DecodesIff(enc: Encoding, s: string)
    requires '\n' !in s && '\r' !in s
    ensures DecodeString(enc, s).Some? <==> InAlphabet(enc, s) && |s| % 4 != 1
  {
    NoBreaks(s);
  }

  lemma {:induction false} NoBreaks(s: string)
    requires '\n' !in s && '\r' !in s
    ensures Strip(s) == s
  {
    if s != "" {
      assert s[0] in s && forall c :: c in s[1..] ==> c in s;
      NoBreaks(s[1..]);
    }
  }

  // ---------------------------------------------------------------- the alphabets and the bits

  predicate Runs(enc: Encoding, v: sextet, from: char, first: int) {
    CharOf(enc, v) as int == from as int + (v - first)
  }

  // The tables of sections 4 and 5 of RFC 4648: capitals, small letters, digits, and two signs.
  lemma Alphabets(enc: Encoding, v: sextet)
    ensures v < 26 ==> Runs(enc, v, 'A', 0)
    ensures 26 <= v < 52 ==> Runs(enc, v, 'a', 26)
    ensures 52 <= v < 62 ==> Runs(enc, v, '0', 52)
    ensures CharOf(RawStd, 62) == '+' && CharOf(RawStd, 63) == '/'
    ensures CharOf(RawURL, 62) == '-' && CharOf(RawURL, 63) == '_'
  {
  }

  // Sextets as the digits of a number, the first one the highest.
  function Bits(v: seq<sextet>): int {
    if v == [] then 0 else Bits(v[..|v| - 1]) * 0x40 + v[|v| - 1]
  }

  lemma BitsOf(v: seq<sextet>)
    ensures |v| == 2 ==> Bits(v) == (v[0] as int) * 0x40 + v[1]
    ensures |v| == 3 ==> Bits(v) == (v[0] as int) * 0x1000 + (v[1] as int) * 0x40 + v[2]
    ensures |v| == 4 ==> Bits(v) == (v[0] as int) * 0x4_0000 + (v[1] as int) * 0x1000 + (v[2] as int) * 0x40 + v[3]
  {
    if |v| == 2 {
      assert v[..1][..0] == [] && Bits(v[..1]) == v[0];
    } else if |v| == 3 || |v| == 4 {
      BitsOf(v[..|v| - 1]);
    }
  }

  // Three bytes and the four sextets they become are one number of twenty-four bits.
  lemma GroupIsOneNumber(x: byte, y: byte, z: byte, rest: seq<byte>)
    ensures var v := Unpack([x, y, z] + rest);
      && |v| == 4 + |Unpack(rest)| && v[4..] == Unpack(rest)
      && Bits([v[0], v[1], v[2], v[3]]) == (x as int) * 0x1_0000 + (y as int) * 0x100 + z
  {
    UnpackGroup(x, y, z, rest);
    BitsOf([x / 4, x % 4 * 16 + y / 16, y % 16 * 4 + z / 64, z % 64]);
  }

  // At the end, one byte makes two sextets and two bytes make three, filled up with zero bits.
  lemma TailIsOneNumber(x: byte, y: byte)
    ensures |Unpack([x])| == 2 && Bits(Unpack([x])) == (x as int) * 0x10
    ensures |Unpack([x, y])| == 3 && Bits(Unpack([x, y])) == ((x as int) * 0x100 + y) * 4
  {
    BitsOf([x / 4, x % 4 * 16]);
    BitsOf([x / 4, x % 4 * 16 + y / 16, y % 16 * 4]);
  }
}
