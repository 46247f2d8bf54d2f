/** password_service.go: the encoded Argon2id string, printed by HashPassword and parsed by VerifyPassword. */
module PasswordHash {
  import opened Domain
  import opened Decimal
  import opened Base64

  type Uint32 = n: int | 0 <= n < 0x1_0000_0000

  const ARGON2_VERSION: nat := 19

  /** What the encoded string says about the key derivation. */
  datatype Params = Params(memory: Uint32, iterations: Uint32, parallelism: Byte)

  /** The service's own configuration. */
  datatype Service = Service(params: Params, saltLength: Uint32, keyLength: Uint32)

  /** Argon2id is abstract; None is its panic on arguments it refuses. */
  datatype KdfInput = KdfInput(password: string, salt: seq<Byte>, params: Params, keyLength: Uint32)
  type Kdf = KdfInput -> Option<seq<Byte>>

  ghost predicate FixedLength(kdf: Kdf) {
    forall x :: kdf(x).Some? ==> |kdf(x).value| == x.keyLength
  }

  datatype Parsed = Parsed(params: Params, salt: seq<Byte>, hash: seq<Byte>)

  datatype Error =
    | InvalidFormat
    | IncompatibleAlgorithm
    | UnreadableVersion
    | IncompatibleVersion
    | UnreadableParams
    | CorruptSalt
    | CorruptHash

  datatype Verdict = Answer(matches: bool) | Failed(error: Error) | Panicked

  datatype Parse = Read(parsed: Parsed) | Rejected(error: Error)

  // ---------------------------------------------------------------- printing

  function PrintParams(p: Params): string {
    "m=" + Print(p.memory) + ",t=" + Print(p.iterations) + ",p=" + Print(p.parallelism)
  }

  function PrintVersion(): string {
    "v=" + Print(ARGON2_VERSION)
  }

  function PrintHash(h: Parsed): string {
    "$argon2id" + "$" + PrintVersion() + "$" + PrintParams(h.params) + "$" + Encode(h.salt) + "$" + Encode(h.hash)
  }

  /** What a service derives from a password and a salt. */
  function Derived(service: Service, kdf: Kdf, password: string, salt: seq<Byte>): Option<seq<Byte>> {
    kdf(KdfInput(password, salt, service.params, service.keyLength))
  }

  /** None when the key derivation panics; the salt is what the random source delivered. */
  function HashPassword(service: Service, kdf: Kdf, password: string, salt: seq<Byte>): Option<string>
    requires |salt| == service.saltLength
  {
    match Derived(service, kdf, password, salt)
    case None => None
    case Some(hash) => Some(PrintHash(Parsed(service.params, salt, hash)))
  }

  // ---------------------------------------------------------------- scanning, as Sscanf does

  /** Spaces other than line feeds. */
  predicate IsBlank(c: char) {
    || '\t' == c || '\U{000B}' <= c <= '\r' || c == ' ' || c == '\U{0085}' || c == '\U{00A0}' || c == '\U{1680}'
    || '\U{2000}' <= c <= '\U{200A}' || c == '\U{2028}' || c == '\U{2029}' || c == '\U{202F}' || c == '\U{205F}'
    || c == '\U{3000}'
  }

  /** Every verb skips blanks first; a line feed there is an error. */
  function SkipBlanks(s: string): Option<string> {
    if s == [] then Some(s)
    else if s[0] == '\n' then None
    else if IsBlank(s[0]) then SkipBlanks(s[1..])
    else Some(s)
  }

  function DigitCount(s: string): (n: nat)
    ensures n <= |s|
  {
    if s == [] || !IsDigit(s[0]) then 0 else 1 + DigitCount(s[1..])
  }

  lemma {:induction false} DigitsAreDigits(s: string)
    ensures AllDigits(s[..DigitCount(s)])
  {
    if s != [] && IsDigit(s[0]) {
      DigitsAreDigits(s[1..]);
      assert s[..DigitCount(s)] == [s[0]] + s[1..][..DigitCount(s[1..])];
    }
  }

  /** %d into an unsigned integer below the bound: the value and the rest of the input. */
  function ScanUint(s: string, bound: nat): Option<(nat, string)> {
    match SkipBlanks(s)
    case None => None
    case Some(t) =>
      var n := DigitCount(t);
      DigitsAreDigits(t);
      if n > 0 && Value(t[..n]) < bound then Some((Value(t[..n]), t[n..])) else None
  }

  /** %d into Go's 64-bit int: an optional sign, then digits. */
  function ScanInt(s: string): Option<(int, string)> {
    match SkipBlanks(s)
    case None => None
    case Some(t) =>
      var negative := t != [] && t[0] == '-';
      var u := if t != [] && (t[0] == '-' || t[0] == '+') then t[1..] else t;
      var n := DigitCount(u);
      DigitsAreDigits(u);
      if n == 0 then None else
      var v: int := if negative then -(Value(u[..n]) as int) else Value(u[..n]);
      if -0x8000_0000_0000_0000 <= v < 0x8000_0000_0000_0000 then Some((v, u[n..])) else None
  }

  function Expect(s: string, literal: string): Option<string> {
    if literal <= s then Some(s[|literal|..]) else None
  }

  /** Sscanf(s, "v=%d"): what follows the number is ignored. */
  function ScanVersion(s: string): Option<int> {
    match Expect(s, "v=")
    case None => None
    case Some(t) =>
      match ScanInt(t)
      case None => None
      case Some(v) => Some(v.0)
  }

  function ScanField(s: string, literal: string, bound: nat): (r: Option<(nat, string)>)
    ensures r.Some? ==> r.value.0 < bound
  {
    match Expect(s, literal)
    case None => None
    case Some(t) => ScanUint(t, bound)
  }

  /** Sscanf(s, "m=%d,t=%d,p=%d"). */
  function ScanParams(s: string): Option<Params> {
    match ScanField(s, "m=", 0x1_0000_0000)
    case None => None
    case Some(m) =>
      match ScanField(m.1, ",t=", 0x1_0000_0000)
      case None => None
      case Some(t) =>
        match ScanField(t.1, ",p=", 0x100)
        case None => None
        case Some(p) => Some(Params(m.0, t.0, p.0))
  }

  // ---------------------------------------------------------------- parsing

  function SplitOn(s: string, separator: char): (parts: seq<string>)
    ensures |parts| > 0
  {
    if s == [] then [[]]
    else
      var rest := SplitOn(s[1..], separator);
      if s[0] == separator then [[]] + rest else [[s[0]] + rest[0]] + rest[1..]
  }

  function ParseHash(encoded: string): Parse {
    var parts := SplitOn(encoded, '$');
    if |parts| != 6 then Rejected(InvalidFormat)
    else if parts[1] != "argon2id" then Rejected(IncompatibleAlgorithm)
    else if ScanVersion(parts[2]) == None then Rejected(UnreadableVersion)
    else if ScanVersion(parts[2]) != Some(ARGON2_VERSION) then Rejected(IncompatibleVersion)
    else if ScanParams(parts[3]) == None then Rejected(UnreadableParams)
    else if Decode(parts[4]) == None then Rejected(CorruptSalt)
    else if Decode(parts[5]) == None then Rejected(CorruptHash)
    else Read(Parsed(ScanParams(parts[3]).value, Decode(parts[4]).value, Decode(parts[5]).value))
  }

  function Compare(kdf: Kdf, password: string, h: Parsed): Verdict {
    match kdf(KdfInput(password, h.salt, h.params, |h.hash| % 0x1_0000_0000))
    case None => Panicked
    case Some(comparison) => Answer(h.hash == comparison)
  }

  /** The receiver's configuration is not consulted: everything comes from the encoded string. */
  function VerifyPassword(service: Service, kdf: Kdf, password: string, encoded: string): Verdict {
    match ParseHash(encoded)
    case Rejected(e) => Failed(e)
    case Read(h) => Compare(kdf, password, h)
  }

  // ---------------------------------------------------------------- splitting what was printed

  predicate Without(s: string, c: char) {
    forall i :: 0 <= i < |s| ==> s[i] != c
  }

  lemma {:induction false} SplitOnAlone(s: string, c: char)
    requires Without(s, c)
    ensures SplitOn(s, c) == [s]
  {
    if s != [] {
      SplitOnAlone(s[1..], c);
      assert [s[0]] + s[1..] == s;
    }
  }

  lemma {:induction false} SplitOnLast(s: string, c: char, last: string)
    requires Without(last, c)
    ensures SplitOn(s + [c] + last, c) == SplitOn(s, c) + [last]
  {
    var whole := s + [c] + last;
    if s == [] {
      SplitOnAlone(last, c);
      assert whole[1..] == last;
    } else {
      SplitOnLast(s[1..], c, last);
      assert whole[1..] == s[1..] + [c] + last;
    }
  }

  lemma SplitSixParts(p1: string, p2: string, p3: string, p4: string, p5: string)
    requires Without(p1, '$') && Without(p2, '$') && Without(p3, '$') && Without(p4, '$') && Without(p5, '$')
    ensures SplitOn("$" + p1 + "$" + p2 + "$" + p3 + "$" + p4 + "$" + p5, '$') == ["", p1, p2, p3, p4, p5]
  {
    SplitOnLast("", '$', p1);
    assert "" + "$" + p1 == "$" + p1;
    SplitOnLast("$" + p1, '$', p2);
    SplitOnLast("$" + p1 + "$" + p2, '$', p3);
    SplitOnLast("$" + p1 + "$" + p2 + "$" + p3, '$', p4);
    SplitOnLast("$" + p1 + "$" + p2 + "$" + p3 + "$" + p4, '$', p5);
  }

  // ---------------------------------------------------------------- scanning what was printed

  predicate NoDigitAhead(rest: string) {
    rest == [] || !IsDigit(rest[0])
  }

  lemma {:induction false} DigitCountOf(digits: string, rest: string)
    requires AllDigits(digits) && NoDigitAhead(rest)
    ensures DigitCount(digits + rest) == |digits|
  {
    if digits != [] {
      DigitCountOf(digits[1..], rest);
      assert (digits + rest)[1..] == digits[1..] + rest;
    } else {
      assert digits + rest == rest;
    }
  }

  /** A printed number is scanned back whole, whatever follows it. */
  lemma ScanPrinted(n: nat, rest: string, bound: nat)
    requires n < bound && NoDigitAhead(rest)
    ensures ScanUint(Print(n) + rest, bound) == Some((n, rest))
  {
    ValueOfPrint(n);
    DigitCountOf(Print(n), rest);
    var s := Print(n) + rest;
    assert IsDigit(s[0]);
    assert s[..|Print(n)|] == Print(n) && s[|Print(n)|..] == rest;
  }

  lemma ScanPrintedField(literal: string, n: nat, rest: string, bound: nat)
    requires n < bound && NoDigitAhead(rest)
    ensures ScanField(literal + Print(n) + rest, literal, bound) == Some((n, rest))
  {
    assert (literal + Print(n) + rest)[|literal|..] == Print(n) + rest;
    ScanPrinted(n, rest, bound);
  }

  lemma ScanPrintedParams(p: Params)
    ensures ScanParams(PrintParams(p)) == Some(p)
  {
    var t3 := ",p=" + Print(p.parallelism) + "";
    var t2 := ",t=" + Print(p.iterations) + t3;
    assert PrintParams(p) == "m=" + Print(p.memory) + t2;
    ScanPrintedField("m=", p.memory, t2, 0x1_0000_0000);
    ScanPrintedField(",t=", p.iterations, t3, 0x1_0000_0000);
    ScanPrintedField(",p=", p.parallelism, "", 0x100);
  }

  lemma ScanPrintedVersion(n: nat)
    requires n < 0x8000_0000_0000_0000
    ensures ScanVersion("v=" + Print(n)) == Some(n)
  {
    ValueOfPrint(n);
    var s := Print(n);
    assert ("v=" + s)[2..] == s && IsDigit(s[0]);
    DigitCountOf(s, "");
    assert s + "" == s && s[..|s|] == s;
  }

  lemma DigitsWithout(n: nat)
    ensures Without(Print(n), '$')
  {
  }

  lemma SymbolsWithout(b: seq<Byte>)
    ensures Without(Encode(b), '$')
  {
  }

  lemma ParamsWithout(p: Params)
    ensures Without(PrintParams(p), '$') && Without(PrintVersion(), '$')
  {
    DigitsWithout(ARGON2_VERSION);
    DigitsWithout(p.memory);
    DigitsWithout(p.iterations);
    DigitsWithout(p.parallelism);
  }

  lemma ParseOfParts(encoded: string, version: string, params: string, salt: string, hash: string, h: Parsed)
    requires SplitOn(encoded, '$') == ["", "argon2id", version, params, salt, hash]
    requires ScanVersion(version) == Some(ARGON2_VERSION) && ScanParams(params) == Some(h.params)
    requires Decode(salt) == Some(h.salt) && Decode(hash) == Some(h.hash)
    ensures ParseHash(encoded) == Read(h)
  {
  }

  // ---------------------------------------------------------------- main results

  /** For all parameters, salts and hashes, parsing recovers exactly what was printed. */
  lemma ParseRecoversPrint(h: Parsed)
    ensures ParseHash(PrintHash(h)) == Read(h)
  {
    var version := PrintVersion();
    var params := PrintParams(h.params);
    var salt := Encode(h.salt);
    var hash := Encode(h.hash);
    assert "$" + "argon2id" == "$argon2id";
    ParamsWithout(h.params);
    SymbolsWithout(h.salt);
    SymbolsWithout(h.hash);
    SplitSixParts("argon2id", version, params, salt, hash);
    ScanPrintedVersion(ARGON2_VERSION);
    ScanPrintedParams(h.params);
    RoundTrip(h.salt);
    RoundTrip(h.hash);
    ParseOfParts(PrintHash(h), version, params, salt, hash, h);
  }

  lemma CompareWithDerived(kdf: Kdf, q: string, h: Parsed, printer: Service)
    requires h.params == printer.params && |h.hash| == printer.keyLength
    ensures Compare(kdf, q, h) ==
            match Derived(printer, kdf, q, h.salt)
            case None => Panicked
            case Some(derived) => Answer(h.hash == derived)
  {
  }

  /** A password verifies against another's hash exactly when the key derivation agrees on the two, under any
      configuration of the verifying service. */
  lemma VerifyAgreesWithKdf(printer: Service, verifier: Service, kdf: Kdf, p: string, q: string, salt: seq<Byte>)
    requires FixedLength(kdf) && |salt| == printer.saltLength
    requires HashPassword(printer, kdf, p, salt).Some?
    ensures VerifyPassword(verifier, kdf, q, HashPassword(printer, kdf, p, salt).value) ==
            match kdf(KdfInput(q, salt, printer.params, printer.keyLength))
            case None => Panicked
            case Some(derived) => Answer(kdf(KdfInput(p, salt, printer.params, printer.keyLength)) == Some(derived))
  {
    var h := Parsed(printer.params, salt, Derived(printer, kdf, p, salt).value);
    ParseRecoversPrint(h);
    CompareWithDerived(kdf, q, h, printer);
  }

  /** The password that was hashed always verifies. */
  lemma OwnPasswordVerifies(printer: Service, verifier: Service, kdf: Kdf, p: string, salt: seq<Byte>)
    requires FixedLength(kdf) && |salt| == printer.saltLength
    requires HashPassword(printer, kdf, p, salt).Some?
    ensures VerifyPassword(verifier, kdf, p, HashPassword(printer, kdf, p, salt).value) == Answer(true)
  {
    VerifyAgreesWithKdf(printer, verifier, kdf, p, p, salt);
  }

  /** Two hash records never print alike. */
  lemma PrintHashIsInjective(g: Parsed, h: Parsed)
    requires PrintHash(g) == PrintHash(h)
    ensures g == h
  {
    ParseRecoversPrint(g);
    ParseRecoversPrint(h);
  }
}
