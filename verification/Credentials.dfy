// API-key tokens and the Argon2id verifier string: how they are printed and parsed.
module Credentials {
  import opened Basics
  import opened Base64

  type uint32 = x: int | 0 <= x < 0x1_0000_0000
  type uint8 = x: int | 0 <= x < 256

  const SCHEME: string := "owc_"
  const PREFIX_LEN: nat := 16
  const SECRET_LEN: nat := 32
  const ARGON2_VERSION: int := 19
  const ARGON2_TIME: uint32 := 3
  const ARGON2_MEMORY: uint32 := 65536
  const ARGON2_THREADS: uint8 := 4
  const ARGON2_KEY_LEN: uint32 := 32
  const ARGON2_SALT_LEN: nat := 16

  // ---------------------------------------------------------------- tokens

  datatype Minted = Minted(prefix: string, secret: string, display: string)

  // The random bytes are parameters.
  function MintToken(prefixBytes: seq<byte>, secretBytes: seq<byte>): Minted
    requires |prefixBytes| == (PREFIX_LEN * 6 + 7) / 8 && |secretBytes| == SECRET_LEN
  {
    DecodeEncode(RawURL, prefixBytes);
    var prefix := EncodeToString(RawURL, prefixBytes)[..PREFIX_LEN];
    var secret := EncodeToString(RawURL, secretBytes);
    Minted(prefix, secret, SCHEME + prefix + "." + secret)
  }

  // First occurrence, or -1.
  function IndexByte(s: string, c: char): (i: int)
    ensures -1 <= i < |s|
    ensures i >= 0 ==> s[i] == c && c !in s[..i]
    ensures i < 0 ==> c !in s
  {
    if s == "" then -1
    else if s[0] == c then 0
    else
      var i := IndexByte(s[1..], c);
      assert i >= 0 ==> s[..i + 1] == [s[0]] + s[1..][..i];
      if i < 0 then -1 else i + 1
  }

  lemma FirstSeparator(a: string, c: char, rest: string)
    requires c !in a
    ensures IndexByte(a + [c] + rest, c) == |a|
  {
    var w := a + [c] + rest;
    assert w[|a|] == c;
  }

  // On an error the prefix is empty and the secret is the raw input.
  datatype Halves = Halves(prefix: string, secret: string, error: Option<string>)

  function SplitToken(tok: string): Halves {
    if !(SCHEME <= tok) then Halves("", tok, Some("identity: token scheme mismatch"))
    else
      var body := tok[|SCHEME|..];
      var sep := IndexByte(body, '.');
      if sep <= 0 || sep == |body| - 1 then Halves("", tok, Some("identity: token shape mismatch"))
      else if sep != PREFIX_LEN then Halves("", tok, Some("identity: token prefix length mismatch"))
      else Halves(body[..sep], body[sep + 1..], None)
  }

  predicate Canonical(tok: string, prefix: string, secret: string) {
    tok == SCHEME + prefix + "." + secret && |prefix| == PREFIX_LEN && '.' !in prefix && secret != ""
  }

  lemma CanonicalSplits(tok: string, prefix: string, secret: string)
    requires Canonical(tok, prefix, secret)
    ensures SplitToken(tok) == Halves(prefix, secret, None)
  {
    var body := tok[|SCHEME|..];
    assert tok == SCHEME + (prefix + "." + secret);
    assert body == prefix + "." + secret;
    FirstSeparator(prefix, '.', secret);
  }

  // A token is accepted, with these halves, if and only if it is the scheme, sixteen characters
  // without a '.', a '.', and a secret; a rejected token is handed back whole.
  lemma SplitTokenIff(tok: string, prefix: string, secret: string)
    ensures SplitToken(tok) == Halves(prefix, secret, None) <==> Canonical(tok, prefix, secret)
    ensures SplitToken(tok).error.Some? ==> SplitToken(tok).prefix == "" && SplitToken(tok).secret == tok
  {
    if Canonical(tok, prefix, secret) {
      CanonicalSplits(tok, prefix, secret);
    }
    if SplitToken(tok) == Halves(prefix, secret, None) {
      var body := tok[|SCHEME|..];
      assert tok == SCHEME + body;
      assert body == body[..PREFIX_LEN] + "." + body[PREFIX_LEN + 1..];
      assert SCHEME + (prefix + "." + secret) == SCHEME + prefix + "." + secret;
    }
  }

  lemma NoDot(s: string)
    requires InAlphabet(RawURL, s)
    ensures '.' !in s
  {
    assert ValueOf(RawURL, '.').None?;
  }

  // Every minted token splits into its two halves.
  lemma MintedSplits(prefixBytes: seq<byte>, secretBytes: seq<byte>)
    requires |prefixBytes| == (PREFIX_LEN * 6 + 7) / 8 && |secretBytes| == SECRET_LEN
    ensures var m := MintToken(prefixBytes, secretBytes);
      SplitToken(m.display) == Halves(m.prefix, m.secret, None) && DecodeString(RawURL, m.secret) == Some(secretBytes)
  {
    var m := MintToken(prefixBytes, secretBytes);
    DecodeEncode(RawURL, prefixBytes);
    DecodeEncode(RawURL, secretBytes);
    NoDot(EncodeToString(RawURL, prefixBytes));
    SplitTokenIff(m.display, m.prefix, m.secret);
  }

  // What a minted token looks like: the scheme, sixteen characters, a dot and forty-three more.
  lemma MintedShape(prefixBytes: seq<byte>, secretBytes: seq<byte>)
    requires |prefixBytes| == (PREFIX_LEN * 6 + 7) / 8 && |secretBytes| == SECRET_LEN
    ensures var m := MintToken(prefixBytes, secretBytes);
      && |m.display| == 64 && m.display[..4] == "owc_" && m.display[20] == '.'
      && m.display[4..20] == m.prefix && m.display[21..] == m.secret
      && InAlphabet(RawURL, m.prefix) && InAlphabet(RawURL, m.secret)
  {
    var m := MintToken(prefixBytes, secretBytes);
    DecodeEncode(RawURL, prefixBytes);
    DecodeEncode(RawURL, secretBytes);
    assert m.display == "owc_" + (m.prefix + ("." + m.secret));
  }

  // ---------------------------------------------------------------- printing and scanning integers

  function Itoa(n: nat): string {
    if n < 10 then [('0' as int + n) as char] else Itoa(n / 10) + [('0' as int + n % 10) as char]
  }

  predicate IsDigit(c: char) { '0' <= c <= '9' }

  predicate AllDigits(s: string) {
    forall c :: c in s ==> IsDigit(c)
  }

  function Atoi(s: string): nat
    requires AllDigits(s)
  {
    if s == "" then 0
    else
      assert IsDigit(s[|s| - 1]);
      Atoi(s[..|s| - 1]) * 10 + (s[|s| - 1] as int - '0' as int)
  }

  lemma {:induction false} AtoiItoa(n: nat)
    ensures AllDigits(Itoa(n)) && Itoa(n) != "" && Atoi(Itoa(n)) == n
  {
    if n >= 10 {
      AtoiItoa(n / 10);
      assert Itoa(n)[..|Itoa(n)| - 1] == Itoa(n / 10);
    } else {
      assert Itoa(n)[..0] == "";
    }
  }

  // Decimal digits without leading zeros.
  predicate Numeral(s: string) {
    s != "" && AllDigits(s) && (|s| > 1 ==> s[0] != '0')
  }

  lemma {:induction false} NumeralValue(s: string)
    requires Numeral(s) && s[0] != '0'
    ensures Atoi(s) >= 1
  {
    var n := |s| - 1;
    assert IsDigit(s[n]);
    if n > 0 {
      assert s[..n][0] == s[0];
      NumeralValue(s[..n]);
    }
  }

  lemma AtoiSnoc(s: string, d: char)
    requires AllDigits(s) && IsDigit(d)
    ensures AllDigits(s + [d]) && Atoi(s + [d]) == Atoi(s) * 10 + (d as int - '0' as int)
  {
    var all := s + [d];
    assert forall c :: c in all ==> IsDigit(c);
    assert all[..|s|] == s && all[|s|] == d;
  }

  predicate PrintsBack(s: string) {
    AllDigits(s) && Itoa(Atoi(s)) == s
  }

  lemma PrintsBackSnoc(s: string, d: char)
    requires PrintsBack(s) && IsDigit(d) && Atoi(s) >= 1
    ensures PrintsBack(s + [d])
  {
    AtoiSnoc(s, d);
    var n, v := Atoi(s), d as int - '0' as int;
    assert (n * 10 + v) / 10 == n && (n * 10 + v) % 10 == v;
    assert Itoa(n * 10 + v) == Itoa(n) + [('0' as int + v) as char];
  }

  lemma OneDigitPrintsBack(d: char)
    requires IsDigit(d)
    ensures PrintsBack([d])
  {
    assert [d][..0] == "";
  }

  lemma {:induction false} ItoaAtoi(s: string)
    requires Numeral(s)
    ensures PrintsBack(s)
  {
    var front, d := s[..|s| - 1], s[|s| - 1];
    assert s == front + [d] && IsDigit(d);
    if front == "" {
      OneDigitPrintsBack(d);
    } else {
      assert front[0] == s[0];
      NumeralValue(front);
      ItoaAtoi(front);
      PrintsBackSnoc(front, d);
    }
  }

  lemma {:induction false} ItoaIsNumeral(n: nat)
    ensures Numeral(Itoa(n)) && (n > 0 ==> Itoa(n)[0] != '0')
  {
    AtoiItoa(n);
    if n >= 10 {
      ItoaIsNumeral(n / 10);
    }
  }

  // What the scanner skips before a number; a line feed is an error there.
  predicate IsSpace(c: char) {
    c in "\t\r \U{B}\U{C}\U{85}\U{A0}\U{1680}\U{2028}\U{2029}\U{202F}\U{205F}\U{3000}" || '\U{2000}' <= c <= '\U{200A}'
  }

  function SkipSpace(s: string): string {
    if s != "" && IsSpace(s[0]) then SkipSpace(s[1..]) else s
  }

  // The length of the leading run of digits.
  function DigitRun(s: string): (n: nat)
    ensures n <= |s| && AllDigits(s[..n])
    ensures n < |s| ==> !IsDigit(s[n])
  {
    if s == "" || !IsDigit(s[0]) then 0
    else
      var n := DigitRun(s[1..]);
      assert s[..n + 1] == [s[0]] + s[1..][..n];
      n + 1
  }

  // %d: the number and what follows it. A line feed, the end of the text, anything but a digit,
  // and a value above `max` are errors.
  function ScanUint(s: string, max: nat): Option<(nat, string)> {
    var t := SkipSpace(s);
    var n := DigitRun(t);
    if n == 0 || Atoi(t[..n]) > max then None else Some((Atoi(t[..n]), t[n..]))
  }

  // %d into a signed 64-bit integer.
  function ScanInt(s: string): Option<(int, string)> {
    ScanSigned(SkipSpace(s))
  }

  function ScanSigned(t: string): Option<(int, string)> {
    var u := if t != "" && (t[0] == '+' || t[0] == '-') then t[1..] else t;
    var n := DigitRun(u);
    var v := if t != "" && t[0] == '-' then 0 - Atoi(u[..n]) as int else Atoi(u[..n]) as int;
    if n == 0 || v < -0x8000_0000_0000_0000 || v > 0x7FFF_FFFF_FFFF_FFFF then None else Some((v, u[n..]))
  }

  function Literal(s: string, lit: string): Option<string> {
    if lit <= s then Some(s[|lit|..]) else None
  }

  // Text after a printed number does not continue it.
  predicate Ends(rest: string) { rest == "" || !IsDigit(rest[0]) }

  lemma RunStops(a: string, rest: string)
    requires AllDigits(a) && Ends(rest)
    ensures DigitRun(a + rest) == |a|
  {
    var w := a + rest;
    assert forall i :: 0 <= i < |a| ==> IsDigit(w[i]);
    assert rest != "" ==> w[|a|] == rest[0] && !IsDigit(w[|a|]);
  }

  lemma DigitsFirst(a: string, rest: string)
    requires a != "" && AllDigits(a) && Ends(rest)
    ensures DigitRun(a + rest) == |a| && (a + rest)[..|a|] == a && (a + rest)[|a|..] == rest
    ensures SkipSpace(a + rest) == a + rest && IsDigit((a + rest)[0])
  {
    assert (a + rest)[0] == a[0] && IsDigit(a[0]);
    RunStops(a, rest);
  }

  // Digits scan as their value if it fits, and nothing after them is read.
  lemma ScanDigits(a: string, max: nat, rest: string)
    requires a != "" && AllDigits(a) && Ends(rest)
    ensures ScanUint(a + rest, max) == if Atoi(a) <= max then Some((Atoi(a), rest)) else None
  {
    DigitsFirst(a, rest);
  }

  lemma ScanPrinted(n: nat, max: nat, rest: string)
    requires n <= max && Ends(rest)
    ensures ScanUint(Itoa(n) + rest, max) == Some((n, rest))
    ensures n <= 0x7FFF_FFFF_FFFF_FFFF ==> ScanInt(Itoa(n) + rest) == Some((n as int, rest))
  {
    AtoiItoa(n);
    ScanDigits(Itoa(n), max, rest);
    DigitsFirst(Itoa(n), rest);
  }

  lemma SkipOne(c: char, s: string)
    requires IsSpace(c)
    ensures SkipSpace([c] + s) == SkipSpace(s)
  {
    assert ([c] + s)[1..] == s;
  }

  // Spaces before a number are skipped.
  lemma SpaceSkipped(c: char, s: string, max: nat)
    requires c == ' ' || c == '\t' || c == '\r'
    ensures ScanUint([c] + s, max) == ScanUint(s, max)
  {
    SkipOne(c, s);
  }

  lemma SignedSpaceSkipped(c: char, s: string)
    requires c == ' ' || c == '\t' || c == '\r'
    ensures ScanInt([c] + s) == ScanInt(s)
  {
    SkipOne(c, s);
  }

  lemma NotSkipped(c: char, s: string)
    requires !IsSpace(c)
    ensures SkipSpace([c] + s) == [c] + s && ([c] + s)[1..] == s
  {
  }

  // A sign is read for a signed number, and refused for another.
  lemma PlusRead(u: string, n: nat)
    requires n == DigitRun(u) && n > 0 && Atoi(u[..n]) <= 0x7FFF_FFFF_FFFF_FFFF
    ensures ScanInt(['+'] + u) == Some((Atoi(u[..n]) as int, u[n..]))
  {
    NotSkipped('+', u);
  }

  lemma MinusRead(u: string, n: nat)
    requires n == DigitRun(u) && n > 0 && Atoi(u[..n]) <= 0x8000_0000_0000_0000
    ensures ScanInt(['-'] + u) == Some((0 - Atoi(u[..n]) as int, u[n..]))
  {
    NotSkipped('-', u);
  }

  lemma SignRefused(c: char, u: string, max: nat)
    requires c == '+' || c == '-'
    ensures ScanUint([c] + u, max) == None
  {
    NotSkipped(c, u);
    assert ([c] + u)[0] == c;
  }

  // ---------------------------------------------------------------- the verifier string

  datatype Verifier = Verifier(salt: seq<byte>, sum: seq<byte>, t: uint32, m: uint32, p: uint8)

  function ParamsText(m: string, t: string, p: string): string {
    "m=" + m + ",t=" + t + ",p=" + p
  }

  function Params(v: Verifier): string {
    ParamsText(Itoa(v.m), Itoa(v.t), Itoa(v.p))
  }

  function Join(parts: seq<string>, c: char): string
    requires parts != []
  {
    if |parts| == 1 then parts[0] else parts[0] + [c] + Join(parts[1..], c)
  }

  // The fields of the PHC form, the text before the first '$' included.
  function Fields(lead: string, v: Verifier): seq<string> {
    [lead, "argon2id", "v=" + Itoa(ARGON2_VERSION), Params(v),
     EncodeToString(RawStd, v.salt), EncodeToString(RawStd, v.sum)]
  }

  function EncodeVerifier(v: Verifier): string {
    Join(Fields("", v), '$')
  }

  // The pieces between the separators.
  function Split(s: string, c: char): (parts: seq<string>)
    ensures parts != []
  {
    var i := IndexByte(s, c);
    if i < 0 then [s] else [s[..i]] + Split(s[i + 1..], c)
  }

  function ScanVersion(s: string): Option<int> {
    match Literal(s, "v=")
    case None => None
    case Some(rest) => if ScanInt(rest).None? then None else Some(ScanInt(rest).value.0)
  }

  function ScanField(s: string, lit: string, max: nat): Option<(nat, string)> {
    match Literal(s, lit)
    case None => None
    case Some(rest) => ScanUint(rest, max)
  }

  // m, t and p; what follows the last number is ignored.
  function ScanParams(s: string): Option<(nat, nat, nat)> {
    match ScanField(s, "m=", 0xFFFF_FFFF)
    case None => None
    case Some((m, afterM)) =>
      match ScanField(afterM, ",t=", 0xFFFF_FFFF)
      case None => None
      case Some((t, afterT)) =>
        match ScanField(afterT, ",p=", 0xFF)
        case None => None
        case Some((p, _)) => Some((m, t, p))
  }

  lemma ScanParamsInRange(s: string)
    ensures ScanParams(s).Some? ==>
      ScanParams(s).value.0 <= 0xFFFF_FFFF && ScanParams(s).value.1 <= 0xFFFF_FFFF && ScanParams(s).value.2 <= 0xFF
  {
  }

  // The first field is not looked at.
  function DecodeFields(parts: seq<string>): Result<Verifier> {
    if |parts| != 6 || parts[1] != "argon2id" then Err("identity: malformed verifier")
    else
      var version, params := ScanVersion(parts[2]), ScanParams(parts[3]);
      if version.None? then Err("identity: verifier version")
      else if version.value != ARGON2_VERSION then Err("identity: verifier version differs")
      else if params.None? then Err("identity: verifier params")
      else
        ScanParamsInRange(parts[3]);
        var salt, sum := DecodeString(RawStd, parts[4]), DecodeString(RawStd, parts[5]);
        if salt.None? then Err("identity: verifier salt")
        else if sum.None? then Err("identity: verifier sum")
        else Ok(Verifier(salt.value, sum.value, params.value.1, params.value.0, params.value.2))
  }

  function DecodeVerifier(s: string): Result<Verifier> {
    DecodeFields(Split(s, '$'))
  }

  // ---------------------------------------------------------------- decoding undoes encoding

  predicate Plain(parts: seq<string>, c: char) {
    forall k :: 0 <= k < |parts| ==> c !in parts[k]
  }

  lemma JoinCons(a: string, rest: seq<string>, c: char)
    requires rest != []
    ensures Join([a] + rest, c) == a + [c] + Join(rest, c)
  {
    assert ([a] + rest)[1..] == rest;
  }

  lemma SplitCons(a: string, rest: string, c: char)
    requires c !in a
    ensures Split(a + [c] + rest, c) == [a] + Split(rest, c)
  {
    FirstSeparator(a, c, rest);
    var w := a + [c] + rest;
    assert w[..|a|] == a && w[|a| + 1..] == rest;
  }

  predicate SplitsBack(parts: seq<string>, c: char)
    requires parts != []
  {
    Split(Join(parts, c), c) == parts
  }

  lemma SplitsBackCons(a: string, rest: seq<string>, c: char)
    requires rest != [] && c !in a && SplitsBack(rest, c)
    ensures SplitsBack([a] + rest, c)
  {
    JoinCons(a, rest, c);
    SplitCons(a, Join(rest, c), c);
  }

  // Split and Join are inverses of each other.
  lemma {:induction false} SplitJoin(parts: seq<string>, c: char)
    requires parts != [] && Plain(parts, c)
    ensures SplitsBack(parts, c)
  {
    if |parts| > 1 {
      var a, rest := parts[0], parts[1..];
      assert [a] + rest == parts;
      SplitJoin(rest, c);
      SplitsBackCons(a, rest, c);
    }
  }

  lemma PlainCons(a: string, rest: seq<string>, c: char)
    requires c !in a && Plain(rest, c)
    ensures Plain([a] + rest, c)
  {
  }

  lemma {:induction false} SplitPlain(s: string, c: char)
    ensures Plain(Split(s, c), c)
  {
    var i := IndexByte(s, c);
    if i >= 0 {
      SplitPlain(s[i + 1..], c);
      PlainCons(s[..i], Split(s[i + 1..], c), c);
    }
  }

  lemma {:induction false} JoinSplit(s: string, c: char)
    ensures Join(Split(s, c), c) == s
  {
    var i := IndexByte(s, c);
    if i >= 0 {
      var a, rest := s[..i], s[i + 1..];
      JoinSplit(rest, c);
      JoinCons(a, Split(rest, c), c);
      assert s == a + [c] + rest;
    }
  }

  lemma NoDollar(n: nat, b: seq<byte>)
    ensures '$' !in Itoa(n) && '$' !in EncodeToString(RawStd, b)
  {
    AtoiItoa(n);
    DecodeEncode(RawStd, b);
    assert ValueOf(RawStd, '$').None?;
  }

  lemma VersionScans()
    ensures ScanVersion("v=" + Itoa(ARGON2_VERSION)) == Some(ARGON2_VERSION)
  {
    ScanPrinted(ARGON2_VERSION, ARGON2_VERSION, "");
    assert Itoa(ARGON2_VERSION) + "" == Itoa(ARGON2_VERSION);
    assert ("v=" + Itoa(ARGON2_VERSION))[2..] == Itoa(ARGON2_VERSION);
  }

  lemma LiteralTaken(lit: string, rest: string)
    ensures Literal(lit + rest, lit) == Some(rest)
  {
  }

  lemma FieldScans(lit: string, a: string, max: nat, rest: string)
    requires a != "" && AllDigits(a) && Ends(rest)
    ensures ScanField(lit + (a + rest), lit, max) == if Atoi(a) <= max then Some((Atoi(a), rest)) else None
  {
    LiteralTaken(lit, a + rest);
    ScanDigits(a, max, rest);
  }

  // Three runs of digits scan as their values, if those fit their types.
  lemma DigitParamsScan(m: string, t: string, p: string)
    requires Numeral(m) && Numeral(t) && Numeral(p)
    ensures ScanParams(ParamsText(m, t, p)) ==
      if Atoi(m) <= 0xFFFF_FFFF && Atoi(t) <= 0xFFFF_FFFF && Atoi(p) <= 0xFF
      then Some((Atoi(m), Atoi(t), Atoi(p)))
      else None
  {
    var afterT := ",p=" + (p + "");
    var afterM := ",t=" + (t + afterT);
    assert ParamsText(m, t, p) == "m=" + (m + afterM);
    FieldScans("m=", m, 0xFFFF_FFFF, afterM);
    FieldScans(",t=", t, 0xFFFF_FFFF, afterT);
    FieldScans(",p=", p, 0xFF, "");
  }

  lemma ParamsPlain(v: Verifier)
    ensures '$' !in Params(v)
  {
    NoDollar(v.m, []);
    NoDollar(v.t, []);
    NoDollar(v.p, []);
  }

  lemma ParamsScan(v: Verifier)
    ensures ScanParams(Params(v)) == Some((v.m as nat, v.t as nat, v.p as nat))
  {
    ItoaIsNumeral(v.m);
    ItoaIsNumeral(v.t);
    ItoaIsNumeral(v.p);
    AtoiItoa(v.m);
    AtoiItoa(v.t);
    AtoiItoa(v.p);
    DigitParamsScan(Itoa(v.m), Itoa(v.t), Itoa(v.p));
  }

  lemma FieldsPlain(lead: string, v: Verifier)
    requires '$' !in lead
    ensures Plain(Fields(lead, v), '$')
  {
    NoDollar(ARGON2_VERSION, v.salt);
    NoDollar(0, v.sum);
    ParamsPlain(v);
  }

  // A printed verifier decodes to the same salt, sum and parameters, for all byte strings and all
  // integers in range; the text before the first '$' is never looked at.
  lemma FieldsDecode(lead: string, v: Verifier)
    requires '$' !in lead
    ensures DecodeVerifier(Join(Fields(lead, v), '$')) == Ok(v)
  {
    FieldsPlain(lead, v);
    SplitJoin(Fields(lead, v), '$');
    VersionScans();
    ParamsScan(v);
    DecodeEncode(RawStd, v.salt);
    DecodeEncode(RawStd, v.sum);
  }

  lemma DecodeEncodeVerifier(v: Verifier)
    ensures DecodeVerifier(EncodeVerifier(v)) == Ok(v)
  {
    FieldsDecode("", v);
  }

  // ---------------------------------------------------------------- what else decodes

  lemma FirstFieldFree(a: string, b: string, tail: seq<string>)
    ensures DecodeFields([a] + tail) == DecodeFields([b] + tail)
  {
  }

  // The decoder never looks at the text before the first '$'.
  lemma LeadIgnored(a: string, b: string, rest: string)
    requires '$' !in a && '$' !in b
    ensures DecodeVerifier(a + "$" + rest) == DecodeVerifier(b + "$" + rest)
  {
    SplitCons(a, rest, '$');
    SplitCons(b, rest, '$');
    FirstFieldFree(a, b, Split(rest, '$'));
  }

  // The fields of a text in PHC form: plain numerals, exact base64, nothing before, between or after.
  predicate PhcParts(parts: seq<string>, m: string, t: string, p: string) {
    && |parts| == 6 && parts[0] == "" && parts[1] == "argon2id" && parts[2] == "v=19"
    && Numeral(m) && Numeral(t) && Numeral(p) && parts[3] == ParamsText(m, t, p)
    && Exact(RawStd, parts[4]) && Exact(RawStd, parts[5])
  }

  ghost predicate InPhcForm(s: string) {
    exists m, t, p :: PhcParts(Split(s, '$'), m, t, p)
  }

  lemma VersionText()
    ensures "v=" + Itoa(ARGON2_VERSION) == "v=19"
  {
    assert Itoa(1) == "1" && Itoa(19) == Itoa(1) + "9";
  }

  lemma EncodedIsPhc(v: Verifier)
    ensures InPhcForm(EncodeVerifier(v))
  {
    FieldsPlain("", v);
    SplitJoin(Fields("", v), '$');
    VersionText();
    ItoaIsNumeral(v.m);
    ItoaIsNumeral(v.t);
    ItoaIsNumeral(v.p);
    EncodingIsExact(RawStd, v.salt);
    EncodingIsExact(RawStd, v.sum);
    assert PhcParts(Split(EncodeVerifier(v), '$'), Itoa(v.m), Itoa(v.t), Itoa(v.p));
  }

  // What decodes: six pieces, the second the algorithm, the third version 19, then parameters, salt and
  // key that scan and decode.
  lemma DecodesIff(s: string)
    ensures var parts := Split(s, '$');
      DecodeVerifier(s).Ok? <==>
      && |parts| == 6 && parts[1] == "argon2id" && ScanVersion(parts[2]) == Some(19) && ScanParams(parts[3]).Some?
      && DecodeString(RawStd, parts[4]).Some? && DecodeString(RawStd, parts[5]).Some?
  {
  }

  // What a decoded verifier was read from.
  lemma DecodedFrom(s: string)
    requires DecodeVerifier(s).Ok?
    ensures var v, parts := DecodeVerifier(s).value, Split(s, '$');
      && |parts| == 6 && ScanParams(parts[3]) == Some((v.m as nat, v.t as nat, v.p as nat))
      && DecodeString(RawStd, parts[4]) == Some(v.salt) && DecodeString(RawStd, parts[5]) == Some(v.sum)
  {
  }

  lemma ParamsBack(v: Verifier, m: string, t: string, p: string)
    requires Numeral(m) && Numeral(t) && Numeral(p)
    requires ScanParams(ParamsText(m, t, p)) == Some((v.m as nat, v.t as nat, v.p as nat))
    ensures Params(v) == ParamsText(m, t, p)
  {
    DigitParamsScan(m, t, p);
    ItoaAtoi(m);
    ItoaAtoi(t);
    ItoaAtoi(p);
  }

  lemma FieldsAre(v: Verifier, parts: seq<string>)
    requires |parts| == 6 && parts[0] == "" && parts[1] == "argon2id" && parts[2] == "v=" + Itoa(ARGON2_VERSION)
    requires parts[3] == Params(v)
    requires parts[4] == EncodeToString(RawStd, v.salt) && parts[5] == EncodeToString(RawStd, v.sum)
    ensures Fields("", v) == parts
  {
  }

  lemma PhcReencodes(v: Verifier, parts: seq<string>, m: string, t: string, p: string)
    requires PhcParts(parts, m, t, p) && ScanParams(parts[3]) == Some((v.m as nat, v.t as nat, v.p as nat))
    requires DecodeString(RawStd, parts[4]) == Some(v.salt) && DecodeString(RawStd, parts[5]) == Some(v.sum)
    ensures Fields("", v) == parts
  {
    assert parts[2] == "v=" + Itoa(ARGON2_VERSION) by { VersionText(); }
    assert parts[3] == Params(v) by { ParamsBack(v, m, t, p); }
    assert parts[4] == EncodeToString(RawStd, v.salt) by { EncodeDecodeIff(RawStd, parts[4]); }
    assert parts[5] == EncodeToString(RawStd, v.sum) by { EncodeDecodeIff(RawStd, parts[5]); }
    FieldsAre(v, parts);
  }

  // The decoder also takes signs, spaces, leading zeros, text after the numbers, line breaks and spare
  // bits. What it accepts is what would be printed again if and only if it is in PHC form.
  lemma EncodeDecodeVerifierIff(s: string)
    requires DecodeVerifier(s).Ok?
    ensures EncodeVerifier(DecodeVerifier(s).value) == s <==> InPhcForm(s)
  {
    if EncodeVerifier(DecodeVerifier(s).value) == s {
      EncodedIsPhc(DecodeVerifier(s).value);
    }
    if InPhcForm(s) {
      var m, t, p :| PhcParts(Split(s, '$'), m, t, p);
      DecodedFrom(s);
      PhcReencodes(DecodeVerifier(s).value, Split(s, '$'), m, t, p);
      JoinSplit(s, '$');
    }
  }

  // ---------------------------------------------------------------- secrets

  // Argon2id: secret, salt, time, memory, threads and key length to a key.
  type KDF = (string, seq<byte>, uint32, uint32, uint8, uint32) -> seq<byte>

  function HashSecret(kdf: KDF, secret: string, salt: seq<byte>): string
    requires |salt| == ARGON2_SALT_LEN
  {
    var sum := kdf(secret, salt, ARGON2_TIME, ARGON2_MEMORY, ARGON2_THREADS, ARGON2_KEY_LEN);
    EncodeVerifier(Verifier(salt, sum, ARGON2_TIME, ARGON2_MEMORY, ARGON2_THREADS))
  }

  function VerifySecret(kdf: KDF, secret: string, verifier: string): Result<bool> {
    match DecodeVerifier(verifier)
    case Err(e) => Err(e)
    case Ok(v) =>
      if |v.sum| > 0xFFFF_FFFF then Err("identity: verifier hash length exceeds uint32")
      else Ok(kdf(secret, v.salt, v.t, v.m, v.p, |v.sum|) == v.sum)
  }

  lemma StoredParams()
    ensures Itoa(65536) == "65536" && Itoa(3) == "3" && Itoa(4) == "4"
  {
    assert Itoa(65) == "65" by {
      assert Itoa(6) == "6";
    }
    assert Itoa(6553) == Itoa(655) + "3" && Itoa(655) == Itoa(65) + "5";
  }

  lemma StoredText()
    ensures ParamsText("65536", "3", "4") == "m=65536,t=3,p=4"
  {
  }

  lemma StoredFields(v: Verifier)
    requires v.t == 3 && v.m == 65536 && v.p == 4
    ensures Fields("", v)
         == ["", "argon2id", "v=19", "m=65536,t=3,p=4", EncodeToString(RawStd, v.salt), EncodeToString(RawStd, v.sum)]
  {
    assert Params(v) == "m=65536,t=3,p=4" by {
      StoredParams();
      StoredText();
    }
    assert "v=" + Itoa(ARGON2_VERSION) == "v=19" by { VersionText(); }
  }

  // A stored verifier, piece by piece: 64 MiB, three passes and four lanes, the salt and the key.
  lemma StoredForm(kdf: KDF, secret: string, salt: seq<byte>)
    requires |salt| == ARGON2_SALT_LEN
    ensures var key := kdf(secret, salt, 3, 65536, 4, 32);
      Split(HashSecret(kdf, secret, salt), '$')
        == ["", "argon2id", "v=19", "m=65536,t=3,p=4", EncodeToString(RawStd, salt), EncodeToString(RawStd, key)]
  {
    var v := Verifier(salt, kdf(secret, salt, 3, 65536, 4, 32), 3, 65536, 4);
    assert HashSecret(kdf, secret, salt) == EncodeVerifier(v);
    FieldsPlain("", v);
    SplitJoin(Fields("", v), '$');
    StoredFields(v);
  }

  // A secret is checked under the salt, the parameters and the key length of the verifier itself.
  lemma VerifiesUnderOwnParams(kdf: KDF, secret: string, v: Verifier)
    ensures VerifySecret(kdf, secret, EncodeVerifier(v)) ==
      if |v.sum| > 0xFFFF_FFFF then Err("identity: verifier hash length exceeds uint32")
      else Ok(kdf(secret, v.salt, v.t, v.m, v.p, |v.sum|) == v.sum)
  {
    DecodeEncodeVerifier(v);
  }

  // A secret passes against another's stored verifier exactly when Argon2 gives both one key.
  lemma VerifiesIffSameKey(kdf: KDF, secret: string, other: string, salt: seq<byte>)
    requires |salt| == ARGON2_SALT_LEN
    requires |kdf(secret, salt, ARGON2_TIME, ARGON2_MEMORY, ARGON2_THREADS, ARGON2_KEY_LEN)| == ARGON2_KEY_LEN
    ensures VerifySecret(kdf, other, HashSecret(kdf, secret, salt)) == Ok(
      kdf(other, salt, ARGON2_TIME, ARGON2_MEMORY, ARGON2_THREADS, ARGON2_KEY_LEN) ==
      kdf(secret, salt, ARGON2_TIME, ARGON2_MEMORY, ARGON2_THREADS, ARGON2_KEY_LEN))
  {
    var sum := kdf(secret, salt, ARGON2_TIME, ARGON2_MEMORY, ARGON2_THREADS, ARGON2_KEY_LEN);
    DecodeEncodeVerifier(Verifier(salt, sum, ARGON2_TIME, ARGON2_MEMORY, ARGON2_THREADS));
  }

  // A minted token's secret half passes against the verifier stored for it.
  lemma MintedTokenVerifies(kdf: KDF, prefixBytes: seq<byte>, secretBytes: seq<byte>, salt: seq<byte>)
    requires |prefixBytes| == (PREFIX_LEN * 6 + 7) / 8 && |secretBytes| == SECRET_LEN && |salt| == ARGON2_SALT_LEN
    requires forall s: string ::
      |kdf(s, salt, ARGON2_TIME, ARGON2_MEMORY, ARGON2_THREADS, ARGON2_KEY_LEN)| == ARGON2_KEY_LEN
    ensures var m := MintToken(prefixBytes, secretBytes);
      VerifySecret(kdf, SplitToken(m.display).secret, HashSecret(kdf, m.secret, salt)) == Ok(true)
  {
    var m := MintToken(prefixBytes, secretBytes);
    MintedSplits(prefixBytes, secretBytes);
    VerifiesIffSameKey(kdf, m.secret, m.secret, salt);
  }
}
