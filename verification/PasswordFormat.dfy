/** The encoded password string letter by letter: what is printed, and what is read from any string of that shape. */
module PasswordFormat {
  import opened Domain
  import opened Decimal
  import opened Base64
  import opened PasswordHash

  // ---------------------------------------------------------------- printing

  lemma PrintsNineteen()
    ensures Print(19) == "19"
  {
    assert Print(1) == "1";
  }

  lemma Pieces(v: string, m: string, t: string, p: string, s: string, h: string)
    requires v == "19"
    ensures "$argon2id" + "$" + ("v=" + v) + "$" + ("m=" + m + ",t=" + t + ",p=" + p) + "$" + s + "$" + h
            == "$argon2id$v=19$m=" + m + ",t=" + t + ",p=" + p + "$" + s + "$" + h
  {
    var front := "$argon2id" + "$" + ("v=" + v) + "$";
    assert front == "$argon2id$v=19$";
    assert front + ("m=" + m + ",t=" + t + ",p=" + p) == front + "m=" + m + ",t=" + t + ",p=" + p;
    assert front + "m=" == "$argon2id$v=19$m=";
  }

  /** The string HashPassword prints. */
  lemma PrintedHash(h: Parsed)
    ensures PrintHash(h) == "$argon2id$v=19$m=" + Print(h.params.memory) + ",t=" + Print(h.params.iterations)
                            + ",p=" + Print(h.params.parallelism) + "$" + Encode(h.salt) + "$" + Encode(h.hash)
  {
    PrintsNineteen();
    Pieces(Print(19), Print(h.params.memory), Print(h.params.iterations), Print(h.params.parallelism),
           Encode(h.salt), Encode(h.hash));
  }

  // ---------------------------------------------------------------- reading

  function Count(s: string, c: char): nat {
    if s == [] then 0 else (if s[0] == c then 1 else 0) + Count(s[1..], c)
  }

  lemma {:induction false} PartsCount(s: string, c: char)
    ensures |SplitOn(s, c)| == Count(s, c) + 1
  {
    if s != [] {
      PartsCount(s[1..], c);
    }
  }

  /** A string is in the format when it holds five dollar signs; only then anything else is looked at. */
  lemma InvalidFormatIff(encoded: string)
    ensures ParseHash(encoded) == Rejected(InvalidFormat) <==> Count(encoded, '$') != 5
  {
    PartsCount(encoded, '$');
  }

  predicate Numeral(s: string) {
    s != [] && AllDigits(s)
  }

  lemma ScanNumeral(digits: string, rest: string, bound: nat)
    requires Numeral(digits) && NoDigitAhead(rest)
    ensures ScanUint(digits + rest, bound)
            == if Value(digits) < bound then Some((Value(digits), rest)) else None
  {
    DigitCountOf(digits, rest);
    var s := digits + rest;
    assert IsDigit(s[0]);
    assert s[..|digits|] == digits && s[|digits|..] == rest;
  }

  lemma ScanNumeralField(literal: string, digits: string, rest: string, bound: nat)
    requires Numeral(digits) && NoDigitAhead(rest)
    ensures ScanField(literal + digits + rest, literal, bound)
            == FieldOf(digits, rest, bound)
  {
    assert (literal + digits + rest)[|literal|..] == digits + rest;
    ScanNumeral(digits, rest, bound);
  }

  lemma ScanVersionNumeral(digits: string)
    requires Numeral(digits)
    ensures ScanVersion("v=" + digits) == if Value(digits) < 0x8000_0000_0000_0000 then Some(Value(digits)) else None
  {
    assert ("v=" + digits)[2..] == digits && IsDigit(digits[0]);
    DigitCountOf(digits, "");
    assert digits + "" == digits && digits[..|digits|] == digits;
  }

  lemma Regroup(a: string, m: string, b: string, t: string, c: string, p: string)
    ensures a + m + b + t + c + p == a + m + (b + t + (c + p + ""))
  {
  }

  /** One field: the literal, a number, and what follows. */
  function FieldOf(digits: string, rest: string, bound: nat): Option<(nat, string)>
    requires AllDigits(digits)
  {
    if Value(digits) < bound then Some((Value(digits), rest)) else None
  }

  lemma ThreeFields(s: string, m: string, t2: string, t: string, t3: string, p: string)
    requires AllDigits(m) && AllDigits(t) && AllDigits(p)
    requires ScanField(s, "m=", 0x1_0000_0000) == FieldOf(m, t2, 0x1_0000_0000)
    requires ScanField(t2, ",t=", 0x1_0000_0000) == FieldOf(t, t3, 0x1_0000_0000)
    requires ScanField(t3, ",p=", 0x100) == FieldOf(p, "", 0x100)
    ensures ScanParams(s)
            == if Value(m) < 0x1_0000_0000 && Value(t) < 0x1_0000_0000 && Value(p) < 256
               then Some(Params(Value(m), Value(t), Value(p))) else None
  {
  }

  lemma Nested(t: string, t3: string, p: string, t2: string)
    requires t3 == ",p=" + p + "" && t2 == ",t=" + t + t3
    ensures NoDigitAhead(t2) && NoDigitAhead(t3)
  {
  }

  lemma ScanParamNumerals(m: string, t: string, p: string)
    requires Numeral(m) && Numeral(t) && Numeral(p)
    ensures ScanParams("m=" + m + ",t=" + t + ",p=" + p)
            == if Value(m) < 0x1_0000_0000 && Value(t) < 0x1_0000_0000 && Value(p) < 256
               then Some(Params(Value(m), Value(t), Value(p))) else None
  {
    var t3 := ",p=" + p + "";
    var t2 := ",t=" + t + t3;
    Regroup("m=", m, ",t=", t, ",p=", p);
    Nested(t, t3, p, t2);
    ScanNumeralField("m=", m, t2, 0x1_0000_0000);
    ScanNumeralField(",t=", t, t3, 0x1_0000_0000);
    ScanNumeralField(",p=", p, "", 0x100);
    ThreeFields("m=" + m + t2, m, t2, t, t3, p);
  }

  /** What a string of the printed shape is read as. */
  function Reading(algorithm: string, v: string, m: string, t: string, p: string, salt: string, hash: string): Parse
    requires AllDigits(v) && AllDigits(m) && AllDigits(t) && AllDigits(p)
  {
    if algorithm != "argon2id" then Rejected(IncompatibleAlgorithm)
    else if Value(v) >= 9223372036854775808 then Rejected(UnreadableVersion)
    else if Value(v) != 19 then Rejected(IncompatibleVersion)
    else if Value(m) >= 4294967296 || Value(t) >= 4294967296 || Value(p) >= 256 then Rejected(UnreadableParams)
    else if Decode(salt) == None then Rejected(CorruptSalt)
    else if Decode(hash) == None then Rejected(CorruptHash)
    else Read(Parsed(Params(Value(m), Value(t), Value(p)), Decode(salt).value, Decode(hash).value))
  }

  lemma NumeralWithout(digits: string)
    requires AllDigits(digits)
    ensures Without(digits, '$')
  {
  }

  lemma ReadingOfParts(encoded: string, algorithm: string, version: string, v: string, params: string, m: string,
                       t: string, p: string, salt: string, hash: string)
    requires AllDigits(v) && AllDigits(m) && AllDigits(t) && AllDigits(p)
    requires SplitOn(encoded, '$') == ["", algorithm, version, params, salt, hash]
    requires ScanVersion(version) == if Value(v) < 0x8000_0000_0000_0000 then Some(Value(v)) else None
    requires ScanParams(params)
             == if Value(m) < 0x1_0000_0000 && Value(t) < 0x1_0000_0000 && Value(p) < 256
                then Some(Params(Value(m), Value(t), Value(p))) else None
    ensures ParseHash(encoded) == Reading(algorithm, v, m, t, p, salt, hash)
  {
  }

  /** Of every string of the printed shape the reader recovers the numbers, the salt and the hash, and accepts exactly
      version 19 of argon2id with numbers in range and sound base64. */
  lemma ReadsTheShape(algorithm: string, v: string, m: string, t: string, p: string, salt: string, hash: string)
    requires Without(algorithm, '$') && Without(salt, '$') && Without(hash, '$')
    requires Numeral(v) && Numeral(m) && Numeral(t) && Numeral(p)
    ensures ParseHash("$" + algorithm + "$" + ("v=" + v) + "$" + ("m=" + m + ",t=" + t + ",p=" + p)
                      + "$" + salt + "$" + hash)
            == Reading(algorithm, v, m, t, p, salt, hash)
  {
    var version, params := "v=" + v, "m=" + m + ",t=" + t + ",p=" + p;
    NumeralWithout(v);
    NumeralWithout(m);
    NumeralWithout(t);
    NumeralWithout(p);
    SplitSixParts(algorithm, version, params, salt, hash);
    ScanVersionNumeral(v);
    ScanParamNumerals(m, t, p);
    ReadingOfParts("$" + algorithm + "$" + version + "$" + params + "$" + salt + "$" + hash,
                   algorithm, version, v, params, m, t, p, salt, hash);
  }
}
