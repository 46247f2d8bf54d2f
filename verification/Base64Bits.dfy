/** Base64 as section 4 of RFC 4648 defines it: the text spells the bits of the bytes, six to a character. */
module Base64Bits {
  import opened Domain
  import opened Base64

  type Bit = n: int | 0 <= n < 2

  /** The n lowest bits of a number, the highest first. */
  function Bits(v: nat, n: nat): (r: seq<Bit>)
    ensures |r| == n
  {
    if n == 0 then [] else Bits(v / 2, n - 1) + [v % 2]
  }

  function ByteBits(b: seq<Byte>): (r: seq<Bit>)
    ensures |r| == 8 * |b|
  {
    if b == [] then [] else Bits(b[0], 8) + ByteBits(b[1..])
  }

  function SextetBits(s: seq<Sextet>): (r: seq<Bit>)
    ensures |r| == 6 * |s|
  {
    if s == [] then [] else Bits(s[0], 6) + SextetBits(s[1..])
  }

  // ---------------------------------------------------------------- the alphabet

  ghost predicate Consecutive(t: string, from: nat, until: nat, first: int) {
    until <= |t| && forall i :: from <= i < until ==> t[i] as int == first + (i - from)
  }

  /** The characters of table 1 of RFC 4648. */
  ghost predicate TableOne(t: string) {
    |t| == 64 && t[..26] == "ABCDEFGHIJKLMNOPQRSTUVWXYZ" && t[26..52] == "abcdefghijklmnopqrstuvwxyz"
    && t[52..62] == "0123456789" && t[62] == '+' && t[63] == '/'
  }

  lemma TheTable()
    ensures TableOne("ABCDEFGHIJKLMNOPQRSTUVWXYZ" + "abcdefghijklmnopqrstuvwxyz" + "0123456789" + "+/")
  {
  }

  lemma TableRuns(t: string)
    requires TableOne(t)
    ensures Consecutive(t, 0, 26, 65) && Consecutive(t, 26, 52, 97) && Consecutive(t, 52, 62, 48)
  {
    assert forall i :: 0 <= i < 26 ==> t[i] == t[..26][i];
    assert forall i :: 26 <= i < 52 ==> t[i] == t[26..52][i - 26];
    assert forall i :: 52 <= i < 62 ==> t[i] == t[52..62][i - 52];
  }

  lemma SymbolInTable(t: string, s: Sextet)
    requires TableOne(t)
    ensures Symbol(s) == t[s] && InAlphabet(t[s])
  {
    TableRuns(t);
  }

  lemma PlaceInTable(t: string, c: char)
    requires TableOne(t) && InAlphabet(c)
    ensures t[SextetOf(c)] == c
  {
    TableRuns(t);
  }

  /** A sextet is written as its character of the table, and a character stands for its place there. */
  lemma SymbolsAreTableOne(t: string, s: Sextet, c: char)
    requires TableOne(t)
    ensures Symbol(s) == t[s]
    ensures InAlphabet(c) <==> c in t
    ensures InAlphabet(c) ==> t[SextetOf(c)] == c
  {
    SymbolInTable(t, s);
    if InAlphabet(c) {
      PlaceInTable(t, c);
    }
    if i: Sextet :| t[i] == c {
      SymbolInTable(t, i);
    }
  }

  // ---------------------------------------------------------------- the bits of one group

  function Power(k: nat): nat {
    if k == 0 then 1 else 2 * Power(k - 1)
  }

  lemma Halves(v: nat, w: nat, p: nat)
    ensures (v * (2 * p) + w) / 2 == v * p + w / 2 && (v * (2 * p) + w) % 2 == w % 2
  {
    var q := v * p;
    assert v * (2 * p) == 2 * q;
  }

  lemma {:induction false} BitsOfSum(v: nat, n: nat, w: nat, k: nat)
    requires w < Power(k)
    ensures Bits(v * Power(k) + w, n + k) == Bits(v, n) + Bits(w, k)
  {
    if k == 0 {
      assert v * Power(0) + w == v;
    } else {
      Halves(v, w, Power(k - 1));
      BitsOfSum(v, n, w / 2, k - 1);
      assert v * Power(k) + w >= 0;
    }
  }

  lemma Powers()
    ensures Power(2) == 4 && Power(4) == 16 && Power(6) == 64
  {
    assert Power(3) == 8 && Power(5) == 32;
  }

  /** A number put together from two is spelled by the bits of the two. */
  lemma BitsTogether(r: nat, v: nat, n: nat, w: nat, k: nat, p: nat)
    requires p == Power(k) && w < p && r == v * p + w
    ensures Bits(r, n + k) == Bits(v, n) + Bits(w, k)
  {
    BitsOfSum(v, n, w, k);
  }

  /** The halves of the middle sextets of a group, and what the bytes are made of. */
  lemma Halved(s0: Sextet, s1: Sextet, s2: Sextet, s3: Sextet) returns (h1: nat, l1: nat, h2: nat, l2: nat)
    ensures h1 < 4 && l1 < 16 && h2 < 16 && l2 < 4
    ensures s1 == h1 * 16 + l1 && s2 == h2 * 4 + l2
    ensures Byte0(s0, s1) == s0 as int * 4 + h1 && Byte1(s1, s2) == l1 * 16 + h2
    ensures Byte2(s2, s3) == l2 * 64 + s3 as int
  {
    h1, l1, h2, l2 := s1 / 16, s1 as int % 16, s2 / 4, s2 as int % 4;
  }

  lemma Regrouped(a: seq<Bit>, b1: seq<Bit>, b2: seq<Bit>, c1: seq<Bit>, c2: seq<Bit>, d: seq<Bit>)
    ensures (a + b1) + (b2 + c1) + (c2 + d) == a + (b1 + b2) + (c1 + c2) + d
  {
  }

  lemma Whole(r: nat, v: nat, n: nat, w: nat, k: nat, p: nat, bits: nat)
    requires p == Power(k) && w < p && r == v * p + w && bits == n + k
    ensures Bits(r, bits) == Bits(v, n) + Bits(w, k)
  {
    BitsTogether(r, v, n, w, k, p);
  }

  lemma MiddleBits(s1: nat, s2: nat, h1: nat, l1: nat, h2: nat, l2: nat)
    requires l1 < 16 && l2 < 4 && s1 == h1 * 16 + l1 && s2 == h2 * 4 + l2
    ensures Bits(s1, 6) == Bits(h1, 2) + Bits(l1, 4) && Bits(s2, 6) == Bits(h2, 4) + Bits(l2, 2)
  {
    Powers();
    Whole(s1, h1, 2, l1, 4, 16, 6);
    Whole(s2, h2, 4, l2, 2, 4, 6);
  }

  lemma OuterBits(s0: nat, s3: nat, h1: nat, l2: nat, b0: nat, b2: nat)
    requires h1 < 4 && s3 < 64 && b0 == s0 * 4 + h1 && b2 == l2 * 64 + s3
    ensures Bits(b0, 8) == Bits(s0, 6) + Bits(h1, 2) && Bits(b2, 8) == Bits(l2, 2) + Bits(s3, 6)
  {
    Powers();
    Whole(b0, s0, 6, h1, 2, 4, 8);
    Whole(b2, l2, 2, s3, 6, 64, 8);
  }

  lemma MiddleByteBits(l1: nat, h2: nat, b1: nat)
    requires h2 < 16 && b1 == l1 * 16 + h2
    ensures Bits(b1, 8) == Bits(l1, 4) + Bits(h2, 4)
  {
    Powers();
    Whole(b1, l1, 4, h2, 4, 16, 8);
  }

  lemma GroupBits(s0: nat, s1: nat, s2: nat, s3: nat, h1: nat, l1: nat, h2: nat, l2: nat, b0: nat, b1: nat, b2: nat)
    requires h1 < 4 && l1 < 16 && h2 < 16 && l2 < 4 && s3 < 64
    requires s1 == h1 * 16 + l1 && s2 == h2 * 4 + l2
    requires b0 == s0 * 4 + h1 && b1 == l1 * 16 + h2 && b2 == l2 * 64 + s3
    ensures Bits(b0, 8) == Bits(s0, 6) + Bits(h1, 2) && Bits(b1, 8) == Bits(l1, 4) + Bits(h2, 4)
    ensures Bits(b2, 8) == Bits(l2, 2) + Bits(s3, 6)
    ensures Bits(s1, 6) == Bits(h1, 2) + Bits(l1, 4) && Bits(s2, 6) == Bits(h2, 4) + Bits(l2, 2)
  {
    MiddleBits(s1, s2, h1, l1, h2, l2);
    OuterBits(s0, s3, h1, l2, b0, b2);
    MiddleByteBits(l1, h2, b1);
  }

  // ---------------------------------------------------------------- the bits of a text

  lemma ByteBitsCons(b: Byte, rest: seq<Byte>)
    ensures ByteBits([b] + rest) == Bits(b, 8) + ByteBits(rest)
  {
  }

  lemma SextetBitsCons(s: Sextet, rest: seq<Sextet>)
    ensures SextetBits([s] + rest) == Bits(s, 6) + SextetBits(rest)
  {
  }

  lemma ByteBitsOfThree(b0: Byte, b1: Byte, b2: Byte, rest: seq<Byte>)
    ensures ByteBits([b0, b1, b2] + rest) == Bits(b0, 8) + Bits(b1, 8) + Bits(b2, 8) + ByteBits(rest)
  {
    ByteBitsCons(b2, rest);
    ByteBitsCons(b1, [b2] + rest);
    ByteBitsCons(b0, [b1] + ([b2] + rest));
    assert [b0, b1, b2] + rest == [b0] + ([b1] + ([b2] + rest));
    Flattened(Bits(b0, 8), Bits(b1, 8), Bits(b2, 8), ByteBits(rest));
  }

  lemma Flattened(a: seq<Bit>, b: seq<Bit>, c: seq<Bit>, d: seq<Bit>)
    ensures a + (b + (c + d)) == a + b + c + d
  {
  }

  lemma SextetBitsOfTwo(s0: Sextet, s1: Sextet, rest: seq<Sextet>)
    ensures SextetBits([s0, s1] + rest) == Bits(s0, 6) + Bits(s1, 6) + SextetBits(rest)
  {
    SextetBitsCons(s1, rest);
    SextetBitsCons(s0, [s1] + rest);
    assert [s0, s1] + rest == [s0] + ([s1] + rest);
  }

  lemma SextetBitsOfFour(s0: Sextet, s1: Sextet, s2: Sextet, s3: Sextet, rest: seq<Sextet>)
    ensures SextetBits([s0, s1, s2, s3] + rest)
            == Bits(s0, 6) + Bits(s1, 6) + Bits(s2, 6) + Bits(s3, 6) + SextetBits(rest)
  {
    SextetBitsOfTwo(s2, s3, rest);
    SextetBitsOfTwo(s0, s1, [s2, s3] + rest);
    assert [s0, s1, s2, s3] + rest == [s0, s1] + ([s2, s3] + rest);
    Flattened(Bits(s0, 6) + Bits(s1, 6), Bits(s2, 6), Bits(s3, 6), SextetBits(rest));
  }

  lemma BitsOfOneAndTwo(b0: Byte, s0: Sextet, s1: Sextet)
    ensures ByteBits([b0]) == Bits(b0, 8) && SextetBits([s0, s1]) == Bits(s0, 6) + Bits(s1, 6)
  {
    ByteBitsCons(b0, []);
    SextetBitsCons(s1, []);
    SextetBitsCons(s0, [s1]);
    assert [s0, s1] == [s0] + [s1] && [s1] == [s1] + [] && [b0] == [b0] + [];
  }

  lemma ByteBitsOfTwo(b0: Byte, b1: Byte)
    ensures ByteBits([b0, b1]) == Bits(b0, 8) + Bits(b1, 8)
  {
    ByteBitsCons(b1, []);
    ByteBitsCons(b0, [b1]);
    assert [b0, b1] == [b0] + [b1] && [b1] == [b1] + [];
  }

  lemma SextetBitsOfThree(s0: Sextet, s1: Sextet, s2: Sextet)
    ensures SextetBits([s0, s1, s2]) == Bits(s0, 6) + (Bits(s1, 6) + Bits(s2, 6))
  {
    SextetBitsCons(s2, []);
    SextetBitsCons(s1, [s2]);
    SextetBitsCons(s0, [s1] + [s2]);
    assert [s0, s1, s2] == [s0] + ([s1] + [s2]) && [s2] == [s2] + [];
  }

  lemma PrefixInFront(x: seq<Bit>, y: seq<Bit>, z: seq<Bit>)
    requires y <= z
    ensures x + y <= x + z
  {
  }

  /** The bytes are the leading bits, and fewer than six are left over. */
  predicate Leads(bytes: seq<Bit>, sextets: seq<Bit>) {
    bytes <= sextets && |sextets| - |bytes| < 6
  }

  lemma Left(a: seq<Bit>, b: seq<Bit>, c: seq<Bit>)
    requires |c| < 6
    ensures Leads(a + b, a + (b + c)) && a + (b + c) == (a + b) + c
  {
  }

  /** Two sextets spell one byte and the low half of the second. */
  lemma JoinedTwo(s: seq<Sextet>) returns (low: nat)
    requires |s| == 2
    ensures Leads(ByteBits(Join(s)), SextetBits(s)) && SextetBits(s) == ByteBits(Join(s)) + Bits(low, 4)
    ensures SpareBits(s) == 0 ==> low == 0
  {
    var h1, l1, h2, l2 := Halved(s[0], s[1], 0, 0);
    Powers();
    var b0 := Byte0(s[0], s[1]);
    Whole(b0, s[0], 6, h1, 2, 4, 8);
    Whole(s[1], h1, 2, l1, 4, 16, 6);
    low := l1;
    BitsOfOneAndTwo(b0, s[0], s[1]);
    assert s == [s[0], s[1]];
    Left(Bits(s[0], 6), Bits(h1, 2), Bits(l1, 4));
  }

  lemma LeftThree(a: seq<Bit>, b1: seq<Bit>, b2: seq<Bit>, c1: seq<Bit>, c2: seq<Bit>)
    requires |c2| < 6
    ensures var bytes, sextets := (a + b1) + (b2 + c1), a + ((b1 + b2) + (c1 + c2));
            Leads(bytes, sextets) && sextets == bytes + c2
  {
  }

  /** Three sextets spell two bytes and the low bits of the third. */
  lemma JoinedThree(s: seq<Sextet>) returns (low: nat)
    requires |s| == 3
    ensures Leads(ByteBits(Join(s)), SextetBits(s)) && SextetBits(s) == ByteBits(Join(s)) + Bits(low, 2)
    ensures SpareBits(s) == 0 ==> low == 0
  {
    var h1, l1, h2, l2 := Halved(s[0], s[1], s[2], 0);
    var b0, b1, b2 := Byte0(s[0], s[1]), Byte1(s[1], s[2]), Byte2(s[2], 0);
    GroupBits(s[0], s[1], s[2], 0, h1, l1, h2, l2, b0, b1, b2);
    low := l2;
    ByteBitsOfTwo(b0, b1);
    SextetBitsOfThree(s[0], s[1], s[2]);
    assert s == [s[0], s[1], s[2]];
    LeftThree(Bits(s[0], 6), Bits(h1, 2), Bits(l1, 4), Bits(h2, 4), Bits(l2, 2));
  }

  lemma ZeroBits(k: nat)
    ensures forall i :: 0 <= i < k ==> Bits(0, k)[i] == 0
  {
    if k > 0 {
      ZeroBits(k - 1);
    }
  }

  lemma JoinedGroup(s: seq<Sextet>) returns (head: seq<Bit>)
    requires |s| >= 4
    ensures |head| == 24 && |Join(s)| == 3 + |Join(s[4..])|
    ensures SextetBits(s) == head + SextetBits(s[4..]) && ByteBits(Join(s)) == head + ByteBits(Join(s[4..]))
  {
    var b0, b1, b2 := Byte0(s[0], s[1]), Byte1(s[1], s[2]), Byte2(s[2], s[3]);
    var h1, l1, h2, l2 := Halved(s[0], s[1], s[2], s[3]);
    GroupBits(s[0], s[1], s[2], s[3], h1, l1, h2, l2, b0, b1, b2);
    Regrouped(Bits(s[0], 6), Bits(h1, 2), Bits(l1, 4), Bits(h2, 4), Bits(l2, 2), Bits(s[3], 6));
    ByteBitsOfThree(b0, b1, b2, Join(s[4..]));
    SextetBitsOfFour(s[0], s[1], s[2], s[3], s[4..]);
    assert s == [s[0], s[1], s[2], s[3]] + s[4..];
    assert Join(s) == [b0, b1, b2] + Join(s[4..]);
    head := Bits(b0, 8) + Bits(b1, 8) + Bits(b2, 8);
  }

  predicate SpareZero(s: seq<Sextet>) {
    forall i :: 8 * |Join(s)| <= i < |SextetBits(s)| ==> SextetBits(s)[i] == 0
  }

  lemma {:induction false} JoinedBits(s: seq<Sextet>)
    requires WholeBytes(s)
    ensures Leads(ByteBits(Join(s)), SextetBits(s))
    ensures SpareBits(s) == 0 ==> SpareZero(s)
  {
    if |s| >= 4 {
      var head := JoinedGroup(s);
      WholeStep(s);
      JoinedBits(s[4..]);
      PrefixInFront(head, ByteBits(Join(s[4..])), SextetBits(s[4..]));
      if SpareBits(s) == 0 {
        SpareInFront(s, head);
      }
    } else if |s| == 3 {
      var low := JoinedThree(s);
      ZeroBits(2);
    } else if |s| == 2 {
      var low := JoinedTwo(s);
      ZeroBits(4);
    }
  }

  lemma SpareInFront(s: seq<Sextet>, head: seq<Bit>)
    requires |s| >= 4 && |head| == 24 && SextetBits(s) == head + SextetBits(s[4..])
    requires |Join(s)| == 3 + |Join(s[4..])| && SpareZero(s[4..])
    ensures SpareZero(s)
  {
    var rest := SextetBits(s[4..]);
    forall i | 8 * |Join(s)| <= i < |SextetBits(s)| ensures SextetBits(s)[i] == 0 {
      assert SextetBits(s)[i] == rest[i - 24];
    }
  }

  // ---------------------------------------------------------------- main results

  /** The places in the table of the characters of a text. */
  ghost predicate Spells(t: string, x: string, places: seq<Sextet>) {
    |t| == 64 && |places| == |x| && forall i :: 0 <= i < |x| ==> x[i] == t[places[i]]
  }

  /** The encoded text spells the bits of the bytes, padded with fewer than six zeros to whole characters. */
  lemma EncodeSpellsTheBits(t: string, b: seq<Byte>) returns (places: seq<Sextet>)
    requires TableOne(t)
    ensures Spells(t, Encode(b), places) && Leads(ByteBits(b), SextetBits(places))
    ensures forall i :: 8 * |b| <= i < 6 * |places| ==> SextetBits(places)[i] == 0
  {
    places := Split(b);
    JoinSplit(b);
    SplitJoin(places);
    JoinedBits(places);
    forall i | 0 <= i < |places| ensures Encode(b)[i] == t[places[i]] {
      SymbolsAreTableOne(t, places[i], 'A');
    }
  }

  /** The characters of the table that a text holds, in order. */
  function InTable(t: string, x: string): string {
    if x == [] then [] else (if x[0] in t then [x[0]] else "") + InTable(t, x[1..])
  }

  lemma SymbolInFront(c: char, z: string)
    ensures AllSymbols([c] + z) <==> InAlphabet(c) && AllSymbols(z)
  {
    var y := [c] + z;
    assert y[0] == c && forall i :: 0 <= i < |z| ==> z[i] == y[i + 1];
  }

  lemma {:induction false} FilteredAlike(t: string, x: string)
    requires TableOne(t)
    ensures AllSymbols(WithoutLineBreaks(x)) <==>
            forall i :: 0 <= i < |x| ==> x[i] in t || x[i] == '\r' || x[i] == '\n'
    ensures AllSymbols(WithoutLineBreaks(x)) ==> WithoutLineBreaks(x) == InTable(t, x)
  {
    if x != [] {
      FilteredAlike(t, x[1..]);
      SymbolsAreTableOne(t, 0, x[0]);
      assert forall i :: 0 < i < |x| ==> x[i] == x[1..][i - 1];
      var y, z := WithoutLineBreaks(x), WithoutLineBreaks(x[1..]);
      if x[0] != '\r' && x[0] != '\n' {
        SymbolInFront(x[0], z);
      }
    }
  }

  /** A text is accepted exactly when it holds characters of the table and line breaks alone and the former do not leave
      a single one over; the bytes are then the bits they spell, but for the fewer than six bits left over. */
  lemma DecodeReadsTheBits(t: string, x: string) returns (places: seq<Sextet>)
    requires TableOne(t)
    ensures Decode(x).Some? <==>
            (forall i :: 0 <= i < |x| ==> x[i] in t || x[i] == '\r' || x[i] == '\n') && |InTable(t, x)| % 4 != 1
    ensures Decode(x).Some? ==>
              Spells(t, InTable(t, x), places) && Leads(ByteBits(Decode(x).value), SextetBits(places))
  {
    FilteredAlike(t, x);
    var y := WithoutLineBreaks(x);
    places := [];
    if AllSymbols(y) && WholeBytes(SextetsOf(y)) {
      places := SextetsOf(y);
      JoinedBits(places);
      forall i | 0 <= i < |y| ensures y[i] == t[places[i]] {
        SymbolsAreTableOne(t, 0, y[i]);
      }
    }
  }
}
