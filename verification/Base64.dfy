/** Unpadded base64 (RFC 4648, sections 3.2 and 4) with the leniency of Go's RawStdEncoding: carriage returns
    and line feeds are skipped, unused trailing bits are ignored. */
module Base64 {
  import opened Domain

  type Byte = b: int | 0 <= b < 256
  type Sextet = s: int | 0 <= s < 64

  // ---------------------------------------------------------------- symbols

  function Symbol(s: Sextet): char {
    if s < 26 then ('A' as int + s) as char
    else if s < 52 then ('a' as int + (s - 26)) as char
    else if s < 62 then ('0' as int + (s - 52)) as char
    else if s == 62 then '+'
    else '/'
  }

  predicate InAlphabet(c: char) {
    'A' <= c <= 'Z' || 'a' <= c <= 'z' || '0' <= c <= '9' || c == '+' || c == '/'
  }

  function SextetOf(c: char): Sextet
    requires InAlphabet(c)
  {
    if 'A' <= c <= 'Z' then c as int - 'A' as int
    else if 'a' <= c <= 'z' then c as int - 'a' as int + 26
    else if '0' <= c <= '9' then c as int - '0' as int + 52
    else if c == '+' then 62
    else 63
  }

  predicate AllSymbols(x: string) {
    forall i :: 0 <= i < |x| ==> InAlphabet(x[i])
  }

  function Text(s: seq<Sextet>): string {
    seq(|s|, i requires 0 <= i < |s| => Symbol(s[i]))
  }

  function SextetsOf(x: string): seq<Sextet>
    requires AllSymbols(x)
  {
    seq(|x|, i requires 0 <= i < |x| => SextetOf(x[i]))
  }

  // ---------------------------------------------------------------- bits

  function Sextet0(b0: Byte): Sextet { b0 / 4 }
  function Sextet1(b0: Byte, b1: Byte): Sextet { b0 as int % 4 * 16 + b1 / 16 }
  function Sextet2(b1: Byte, b2: Byte): Sextet { b1 as int % 16 * 4 + b2 / 64 }
  function Sextet3(b2: Byte): Sextet { b2 as int % 64 }

  function Byte0(s0: Sextet, s1: Sextet): Byte { s0 as int * 4 + s1 / 16 }
  function Byte1(s1: Sextet, s2: Sextet): Byte { s1 as int % 16 * 16 + s2 / 4 }
  function Byte2(s2: Sextet, s3: Sextet): Byte { s2 as int % 4 * 64 + s3 }

  /** Three bytes are four sextets; a last group of one or two bytes is padded with zero bits to two or three. */
  function Split(b: seq<Byte>): seq<Sextet> {
    if |b| == 0 then []
    else if |b| == 1 then [Sextet0(b[0]), Sextet1(b[0], 0)]
    else if |b| == 2 then [Sextet0(b[0]), Sextet1(b[0], b[1]), Sextet2(b[1], 0)]
    else [Sextet0(b[0]), Sextet1(b[0], b[1]), Sextet2(b[1], b[2]), Sextet3(b[2])] + Split(b[3..])
  }

  function Join(s: seq<Sextet>): seq<Byte> {
    if |s| < 2 then []
    else if |s| == 2 then [Byte0(s[0], s[1])]
    else if |s| == 3 then [Byte0(s[0], s[1]), Byte1(s[1], s[2])]
    else [Byte0(s[0], s[1]), Byte1(s[1], s[2]), Byte2(s[2], s[3])] + Join(s[4..])
  }

  lemma BytesBack(b0: Byte, b1: Byte, b2: Byte)
    ensures Byte0(Sextet0(b0), Sextet1(b0, b1)) == b0
    ensures Byte1(Sextet1(b0, b1), Sextet2(b1, b2)) == b1
    ensures Byte2(Sextet2(b1, b2), Sextet3(b2)) == b2
  {
  }

  lemma SextetsBack(s0: Sextet, s1: Sextet, s2: Sextet, s3: Sextet)
    ensures Sextet0(Byte0(s0, s1)) == s0
    ensures Sextet1(Byte0(s0, s1), Byte1(s1, s2)) == s1
    ensures Sextet2(Byte1(s1, s2), Byte2(s2, s3)) == s2
    ensures Sextet3(Byte2(s2, s3)) == s3
  {
  }

  predicate WholeBytes(s: seq<Sextet>) {
    |s| % 4 != 1
  }

  /** The bits past the last whole byte, which the decoder never looks at. */
  function SpareBits(s: seq<Sextet>): int {
    if |s| >= 4 then SpareBits(s[4..])
    else if |s| == 3 then s[2] % 4
    else if |s| == 2 then s[1] % 16
    else 0
  }

  // ---------------------------------------------------------------- strings

  function WithoutLineBreaks(x: string): string {
    if x == [] then []
    else if x[0] == '\r' || x[0] == '\n' then WithoutLineBreaks(x[1..])
    else [x[0]] + WithoutLineBreaks(x[1..])
  }

  function Encode(b: seq<Byte>): string {
    Text(Split(b))
  }

  function Decode(x: string): Option<seq<Byte>> {
    var y := WithoutLineBreaks(x);
    if AllSymbols(y) && WholeBytes(SextetsOf(y)) then Some(Join(SextetsOf(y))) else None
  }

  // ---------------------------------------------------------------- round trips

  lemma TextRoundTrip(s: seq<Sextet>)
    ensures AllSymbols(Text(s)) && SextetsOf(Text(s)) == s
  {
  }

  lemma SextetsRoundTrip(x: string)
    requires AllSymbols(x)
    ensures Text(SextetsOf(x)) == x
  {
  }

  lemma {:induction false} NoLineBreaksToDrop(x: string)
    requires AllSymbols(x)
    ensures WithoutLineBreaks(x) == x
  {
    if x != [] {
      assert InAlphabet(x[0]);
      NoLineBreaksToDrop(x[1..]);
    }
  }

  /** The first group of a split, as four values that give the bytes back. */
  lemma SplitHead(b: seq<Byte>) returns (s0: Sextet, s1: Sextet, s2: Sextet, s3: Sextet)
    requires |b| >= 3
    ensures Split(b) == [s0, s1, s2, s3] + Split(b[3..])
    ensures Byte0(s0, s1) == b[0] && Byte1(s1, s2) == b[1] && Byte2(s2, s3) == b[2]
  {
    s0, s1, s2, s3 := Sextet0(b[0]), Sextet1(b[0], b[1]), Sextet2(b[1], b[2]), Sextet3(b[2]);
    BytesBack(b[0], b[1], b[2]);
  }

  lemma SplitTwo(b: seq<Byte>) returns (s0: Sextet, s1: Sextet, s2: Sextet)
    requires |b| == 2
    ensures Split(b) == [s0, s1, s2] && Byte0(s0, s1) == b[0] && Byte1(s1, s2) == b[1]
  {
    s0, s1, s2 := Sextet0(b[0]), Sextet1(b[0], b[1]), Sextet2(b[1], 0);
    BytesBack(b[0], b[1], 0);
  }

  lemma SplitOne(b: seq<Byte>) returns (s0: Sextet, s1: Sextet)
    requires |b| == 1
    ensures Split(b) == [s0, s1] && Byte0(s0, s1) == b[0]
  {
    s0, s1 := Sextet0(b[0]), Sextet1(b[0], 0);
    BytesBack(b[0], 0, 0);
  }

  lemma JoinSplitShort(b: seq<Byte>)
    requires |b| < 3
    ensures Join(Split(b)) == b && WholeBytes(Split(b))
  {
    if |b| == 2 {
      var s0, s1, s2 := SplitTwo(b);
    } else if |b| == 1 {
      var s0, s1 := SplitOne(b);
    }
  }

  lemma JoinStep(head: seq<Sextet>, tail: seq<Sextet>)
    requires |head| == 4
    ensures Join(head + tail)
            == [Byte0(head[0], head[1]), Byte1(head[1], head[2]), Byte2(head[2], head[3])] + Join(tail)
  {
  }

  lemma WholeStep(s: seq<Sextet>)
    requires |s| >= 4
    ensures WholeBytes(s) == WholeBytes(s[4..])
  {
  }

  lemma {:induction false} JoinSplit(b: seq<Byte>)
    ensures Join(Split(b)) == b && WholeBytes(Split(b))
  {
    if |b| < 3 {
      JoinSplitShort(b);
    } else {
      var s0, s1, s2, s3 := SplitHead(b);
      JoinStep([s0, s1, s2, s3], Split(b[3..]));
      JoinSplit(b[3..]);
      WholeStep(Split(b));
    }
  }

  /** The first group of a join, as three values that give the sextets back. */
  lemma JoinHead(s: seq<Sextet>) returns (b0: Byte, b1: Byte, b2: Byte)
    requires |s| >= 4
    ensures Join(s) == [b0, b1, b2] + Join(s[4..])
    ensures Sextet0(b0) == s[0] && Sextet1(b0, b1) == s[1] && Sextet2(b1, b2) == s[2] && Sextet3(b2) == s[3]
  {
    b0, b1, b2 := Byte0(s[0], s[1]), Byte1(s[1], s[2]), Byte2(s[2], s[3]);
    SextetsBack(s[0], s[1], s[2], s[3]);
  }

  lemma SplitStep(b0: Byte, b1: Byte, b2: Byte, tail: seq<Byte>)
    ensures Split([b0, b1, b2] + tail) == [Sextet0(b0), Sextet1(b0, b1), Sextet2(b1, b2), Sextet3(b2)] + Split(tail)
  {
  }

  /** A last group of two or three sextets comes back with its spare bits cleared. */
  lemma JoinTwo(s: seq<Sextet>) returns (b0: Byte)
    requires |s| == 2
    ensures Join(s) == [b0] && Sextet0(b0) == s[0] && Sextet1(b0, 0) == s[1] - s[1] % 16
  {
    b0 := Byte0(s[0], s[1]);
    ClearedByJoin(s[0], s[1], 0);
  }

  lemma JoinThree(s: seq<Sextet>) returns (b0: Byte, b1: Byte)
    requires |s| == 3
    ensures Join(s) == [b0, b1]
    ensures Sextet0(b0) == s[0] && Sextet1(b0, b1) == s[1] && Sextet2(b1, 0) == s[2] - s[2] % 4
  {
    b0, b1 := Byte0(s[0], s[1]), Byte1(s[1], s[2]);
    SextetsBack(s[0], s[1], s[2], 0);
    ClearedByJoin(s[0], s[1], s[2]);
  }

  lemma ClearedByJoin(s0: Sextet, s1: Sextet, s2: Sextet)
    ensures Sextet0(Byte0(s0, s1)) == s0
    ensures Sextet1(Byte0(s0, s1), 0) == s1 - s1 % 16
    ensures Sextet2(Byte1(s1, s2), 0) == s2 - s2 % 4
  {
  }

  lemma {:induction false} SplitJoin(s: seq<Sextet>)
    requires WholeBytes(s)
    ensures |Split(Join(s))| == |s|
    ensures Split(Join(s)) == s <==> SpareBits(s) == 0
  {
    if |s| < 4 {
      SplitJoinShort(s);
    } else {
      var b0, b1, b2 := JoinHead(s);
      SplitStep(b0, b1, b2, Join(s[4..]));
      WholeStep(s);
      assert s == [s[0], s[1], s[2], s[3]] + s[4..];
      SplitJoin(s[4..]);
    }
  }

  lemma SplitJoinShort(s: seq<Sextet>)
    requires |s| < 4 && |s| != 1
    ensures |Split(Join(s))| == |s|
    ensures Split(Join(s)) == s <==> SpareBits(s) == 0
  {
    if |s| == 2 {
      var b0 := JoinTwo(s);
      var t := Split(Join(s));
      assert t[0] == s[0] && t[1] == s[1] - s[1] % 16;
    } else if |s| == 3 {
      var b0, b1 := JoinThree(s);
      var t := Split(Join(s));
      assert t[0] == s[0] && t[1] == s[1] && t[2] == s[2] - s[2] % 4;
    }
  }

  /** Decoding recovers every byte string that was encoded. */
  lemma RoundTrip(b: seq<Byte>)
    ensures AllSymbols(Encode(b)) && Decode(Encode(b)) == Some(b)
  {
    JoinSplit(b);
    TextRoundTrip(Split(b));
    NoLineBreaksToDrop(Encode(b));
  }

  /** The other way: an accepted string is the one the encoder prints exactly when it has no line breaks and its
      spare bits are zero. */
  lemma ReencodedIff(x: string)
    requires Decode(x).Some?
    ensures Encode(Decode(x).value) == x <==> AllSymbols(x) && SpareBits(SextetsOf(x)) == 0
  {
    if AllSymbols(x) {
      NoLineBreaksToDrop(x);
      SextetsRoundTrip(x);
      TextRoundTrip(Split(Join(SextetsOf(x))));
      SplitJoin(SextetsOf(x));
    } else {
      TextRoundTrip(Split(Decode(x).value));
    }
  }
}
