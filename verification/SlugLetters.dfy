/** What the slugs and the stored addresses hold, spelled out letter by letter. */
module SlugLetters {
  import opened Domain
  import opened Decimal
  import opened Slug
  import Rbac

  datatype Alphabet = Alphabet(capitals: string, small: string, digits: string)

  const LATIN: Alphabet := Alphabet("ABCDEFGHIJKLMNOPQRSTUVWXYZ", "abcdefghijklmnopqrstuvwxyz", "0123456789")

  /** Where the character first stands in the text; the length of the text if nowhere. */
  function Position(c: char, s: string): (i: nat)
    ensures i <= |s| && (i == |s| <==> c !in s)
    ensures i < |s| ==> s[i] == c
  {
    if s == [] || s[0] == c then 0 else 1 + Position(c, s[1..])
  }

  /** A capital's partner; every other character stands for itself. */
  function Small(a: Alphabet, c: char): char {
    var i := Position(c, a.capitals);
    if i < |a.capitals| && i < |a.small| then a.small[i] else c
  }

  function InSmall(a: Alphabet, s: string): string {
    if s == [] then [] else [Small(a, s[0])] + InSmall(a, s[1..])
  }

  /** What a character leaves in a slug: a letter in its small form, a digit, or nothing. The dotted capital I and the
      Kelvin sign count as I and K. */
  function Kept(a: Alphabet, c: char): string {
    if c in a.capitals || c in a.small || c in a.digits then [Small(a, c)]
    else if c == '\U{0130}' then "i"
    else if c == '\U{212A}' then "k"
    else ""
  }

  function KeptOf(a: Alphabet, s: string): string {
    if s == [] then [] else Kept(a, s[0]) + KeptOf(a, s[1..])
  }

  function Undashed(c: char): string {
    if c == '-' then "" else [c]
  }

  function WithoutDashes(s: string): string {
    if s == [] then [] else Undashed(s[0]) + WithoutDashes(s[1..])
  }

  // ---------------------------------------------------------------- characters

  ghost predicate Consecutive(s: string, first: int, n: nat) {
    |s| == n && forall i :: 0 <= i < n ==> s[i] as int == first + i
  }

  ghost predicate InOrder(a: Alphabet) {
    Consecutive(a.capitals, 65, 26) && Consecutive(a.small, 97, 26) && Consecutive(a.digits, 48, 10)
  }

  lemma ConsecutiveOf(s: string, first: int, n: nat)
    requires |s| == n && forall i :: 0 <= i < n ==> s[i] as int == first + i
    ensures Consecutive(s, first, n)
  {
  }

  lemma LatinInOrder()
    ensures InOrder(LATIN)
  {
    ConsecutiveOf("ABCDEFGHIJKLMNOPQRSTUVWXYZ", 65, 26);
    ConsecutiveOf("abcdefghijklmnopqrstuvwxyz", 97, 26);
    ConsecutiveOf("0123456789", 48, 10);
  }

  lemma InConsecutive(s: string, first: int, n: nat, c: char)
    requires Consecutive(s, first, n)
    ensures c in s <==> first <= c as int < first + n
    ensures c in s ==> Position(c, s) == c as int - first
  {
    var k := c as int - first;
    if 0 <= k < n {
      assert s[k] == c;
    }
  }

  lemma Ranges(a: Alphabet, c: char)
    requires InOrder(a)
    ensures c in a.capitals <==> 65 <= c as int <= 90
    ensures c in a.small <==> 97 <= c as int <= 122
    ensures c in a.digits <==> 48 <= c as int <= 57
    ensures Small(a, c) as int == if 65 <= c as int <= 90 then c as int + 32 else c as int
  {
    InConsecutive(a.capitals, 65, 26, c);
    InConsecutive(a.small, 97, 26, c);
    InConsecutive(a.digits, 48, 10, c);
  }

  lemma GoLowerIs(a: Alphabet, c: char)
    requires InOrder(a)
    ensures GoLower(c) == if c == '\U{0130}' then "i" else if c == '\U{212A}' then "k" else [Small(a, c)]
    ensures Kept(a, c) == if Alnum(GoLower(c)[0]) then GoLower(c) else ""
    ensures GoLower(Small(a, c)) == GoLower(c)
  {
    Ranges(a, c);
    Ranges(a, Small(a, c));
  }

  // ---------------------------------------------------------------- the letters of the words

  /** The characters of a text that belong to its words. */
  function Letters(s: string): string {
    if s == [] then [] else (if Alnum(s[0]) then [s[0]] else "") + Letters(s[1..])
  }

  lemma LettersOfCons(c: char, s: string)
    ensures Letters([c] + s) == (if Alnum(c) then [c] else "") + Letters(s)
  {
    assert ([c] + s)[1..] == s;
  }

  lemma {:induction false} LettersOfConcat(s: string, t: string)
    ensures Letters(s + t) == Letters(s) + Letters(t)
  {
    if s == [] {
      assert s + t == t;
    } else {
      var c, rest := s[0], s[1..];
      LettersOfConcat(rest, t);
      LettersOfCons(c, rest + t);
      Associated([c], rest, t);
      assert s == [c] + rest;
    }
  }

  lemma DashesOfCons(c: char, s: string)
    ensures WithoutDashes([c] + s) == Undashed(c) + WithoutDashes(s)
  {
    assert ([c] + s)[1..] == s;
  }

  lemma Associated(a: string, b: string, c: string)
    ensures a + (b + c) == (a + b) + c
  {
  }

  lemma {:induction false} DashesOfConcat(s: string, t: string)
    ensures WithoutDashes(s + t) == WithoutDashes(s) + WithoutDashes(t)
  {
    if s == [] {
      assert s + t == t;
    } else {
      var c, rest := s[0], s[1..];
      DashesOfConcat(rest, t);
      DashesOfCons(c, rest + t);
      Associated([c], rest, t);
      assert s == [c] + rest;
      Associated(Undashed(c), WithoutDashes(rest), WithoutDashes(t));
    }
  }

  lemma {:induction false} WordLetters(word: string)
    requires forall i :: 0 <= i < |word| ==> Alnum(word[i])
    ensures Letters(word) == word == WithoutDashes(word)
  {
    if word != [] {
      WordLetters(word[1..]);
    }
  }

  lemma DashesOfWordThen(word: string, tail: string)
    requires forall i :: 0 <= i < |word| ==> Alnum(word[i])
    ensures WithoutDashes(word + "-" + tail) == word + WithoutDashes(tail)
  {
    var behind := ['-'] + tail;
    WordLetters(word);
    Dashed(word, tail);
    DashesOfCons('-', tail);
    assert WithoutDashes(behind) == WithoutDashes(tail);
    DashesOfConcat(word, behind);
  }

  lemma WordThenLetters(word: string, rest: string)
    requires forall i :: 0 <= i < |word| ==> Alnum(word[i])
    requires WithoutDashes(Joined(Words(rest))) == Letters(rest)
    ensures WithoutDashes(Joined([word] + Words(rest))) == Letters(word + rest)
  {
    WordLetters(word);
    LettersOfConcat(word, rest);
    JoinedCons(word, Words(rest));
    DashesOfWordThen(word, Joined(Words(rest)));
  }

  lemma {:induction false} JoinedHasTheLetters(s: string)
    ensures WithoutDashes(Joined(Words(s))) == Letters(s)
    decreases |s|
  {
    if s != [] && Alnum(s[0]) {
      var n := Run(true, s);
      RunIsUniform(true, s);
      JoinedHasTheLetters(s[n..]);
      WordThenLetters(s[..n], s[n..]);
      assert s == s[..n] + s[n..];
    } else if s != [] {
      JoinedHasTheLetters(s[1..]);
    }
  }

  lemma {:induction false} LoweredLetters(a: Alphabet, s: string)
    requires InOrder(a)
    ensures Letters(Lowered(GoLower, s)) == KeptOf(a, s) == Letters(Lowered(JsLower, s))
  {
    if s != [] {
      var rest := s[1..];
      GoLowerIs(a, s[0]);
      LoweredLetters(a, rest);
      LettersOfConcat(GoLower(s[0]), Lowered(GoLower, rest));
      LettersOfConcat(JsLower(s[0]), Lowered(JsLower, rest));
      LettersOfLowered(a, s[0]);
    }
  }

  lemma LettersOfLowered(a: Alphabet, c: char)
    requires InOrder(a)
    ensures Letters(GoLower(c)) == Kept(a, c) == Letters(JsLower(c))
  {
    GoLowerIs(a, c);
    WordLetters(Kept(a, c));
    assert c == DOTTED_CAPITAL_I ==> JsLower(c)[1..] == [DOT_ABOVE] && [DOT_ABOVE][1..] == [];
  }

  /** Leaving its dashes aside, a slug is the letters and digits of the name in their order, capitals replaced by their
      partners. */
  lemma SlugKeepsTheLetters(s: string)
    ensures WithoutDashes(GoSlugify(s)) == KeptOf(LATIN, s) == WithoutDashes(TsSlugify(s))
  {
    LatinInOrder();
    SlugsAreJoinedWords(s);
    LoweredLetters(LATIN, s);
    JoinedHasTheLetters(Lowered(GoLower, s));
    JoinedHasTheLetters(Lowered(JsLower, s));
  }

  // ---------------------------------------------------------------- where the dashes stand

  function Glued(a: string, b: string): string {
    if a == [] then b else if b == [] then a else a + "-" + b
  }

  lemma ConcatFrom(s: string, n: nat, c: char, t: string)
    requires n <= |s|
    ensures s + [c] + t == s[..n] + (s[n..] + [c] + t)
  {
  }

  lemma {:induction false} WordsAroundJunk(s: string, c: char, t: string)
    requires !Alnum(c)
    ensures Words(s + [c] + t) == Words(s) + Words(t)
    decreases |s|
  {
    if s == [] {
      WordsAfterJunk(c, t);
      assert s + [c] + t == [c] + t;
    } else if Alnum(s[0]) {
      var n := Run(true, s);
      RunIsUniform(true, s);
      WordsAroundJunk(s[n..], c, t);
      WordsOfWordThen(s[..n], s[n..] + [c] + t);
      ConcatFrom(s, n, c, t);
    } else {
      WordsAroundJunk(s[1..], c, t);
      WordsAfterJunk(s[0], s[1..] + [c] + t);
      ConcatFrom(s, 1, c, t);
    }
  }

  lemma {:induction false} WordsAreNotEmpty(s: string)
    ensures forall i :: 0 <= i < |Words(s)| ==> Words(s)[i] != []
    decreases |s|
  {
    if s != [] && Alnum(s[0]) {
      WordsAreNotEmpty(s[Run(true, s)..]);
    } else if s != [] {
      WordsAreNotEmpty(s[1..]);
    }
  }

  lemma JoinedIsEmptyIff(w: seq<string>)
    requires forall i :: 0 <= i < |w| ==> w[i] != []
    ensures Joined(w) == [] <==> w == []
  {
  }

  lemma {:induction false} JoinedOfConcat(v: seq<string>, w: seq<string>)
    requires forall i :: 0 <= i < |v| ==> v[i] != []
    requires forall i :: 0 <= i < |w| ==> w[i] != []
    ensures Joined(v + w) == Glued(Joined(v), Joined(w))
  {
    JoinedIsEmptyIff(v);
    JoinedIsEmptyIff(w);
    if v == [] {
      assert v + w == w;
    } else if w == [] {
      assert v + w == v;
    } else {
      var front := v[1..];
      assert v + w == [v[0]] + (front + w) && v == [v[0]] + front;
      JoinedIsEmptyIff(front);
      JoinedOfConcat(front, w);
      JoinedCons(v[0], front + w);
      JoinedCons(v[0], front);
      GluedInFront(v[0], Joined(front), Joined(w));
    }
  }

  lemma GluedInFront(word: string, a: string, b: string)
    requires b != []
    ensures word + "-" + Glued(a, b) == if a == [] then word + "-" + b else (word + "-" + a) + "-" + b
  {
  }

  lemma LoweredOfCons(lower: char -> string, c: char, s: string)
    ensures Lowered(lower, [c] + s) == lower(c) + Lowered(lower, s)
  {
    assert ([c] + s)[1..] == s;
  }

  lemma {:induction false} LoweredOfConcat(lower: char -> string, s: string, t: string)
    ensures Lowered(lower, s + t) == Lowered(lower, s) + Lowered(lower, t)
  {
    if s == [] {
      assert s + t == t;
    } else {
      var c, rest := s[0], s[1..];
      LoweredOfConcat(lower, rest, t);
      LoweredOfCons(lower, c, rest + t);
      Associated([c], rest, t);
      assert s == [c] + rest;
      Associated(lower(c), Lowered(lower, rest), Lowered(lower, t));
    }
  }

  lemma SlugAroundJunk(lower: char -> string, a: string, c: char, b: string)
    requires lower(c) == [c] && !Alnum(c)
    ensures Joined(Words(Lowered(lower, a + [c] + b)))
            == Glued(Joined(Words(Lowered(lower, a))), Joined(Words(Lowered(lower, b))))
  {
    var x, y := Lowered(lower, a), Lowered(lower, b);
    LoweredOfConcat(lower, a + [c], b);
    LoweredLast(lower, a, c);
    WordsAroundJunk(x, c, y);
    WordsAreNotEmpty(x);
    WordsAreNotEmpty(y);
    JoinedOfConcat(Words(x), Words(y));
  }

  /** A character that leaves nothing cuts the name: what stands before and behind it is slugified by itself, and one
      dash stands between the two if both leave something. */
  lemma SeparatorBecomesDash(front: string, c: char, back: string)
    requires Kept(LATIN, c) == ""
    ensures GoSlugify(front + [c] + back) == Glued(GoSlugify(front), GoSlugify(back))
    ensures TsSlugify(front + [c] + back) == Glued(TsSlugify(front), TsSlugify(back))
  {
    LatinInOrder();
    GoLowerIs(LATIN, c);
    SlugAroundJunk(GoLower, front, c, back);
    SlugAroundJunk(JsLower, front, c, back);
    SlugsAreJoinedWords(front);
    SlugsAreJoinedWords(back);
    SlugsAreJoinedWords(front + [c] + back);
  }

  lemma {:induction false} LettersOnlyLowered(a: Alphabet, s: string)
    requires InOrder(a)
    requires forall i :: 0 <= i < |s| ==> Kept(a, s[i]) != ""
    ensures Lowered(GoLower, s) == KeptOf(a, s)
    ensures forall i :: 0 <= i < |KeptOf(a, s)| ==> Alnum(KeptOf(a, s)[i])
  {
    if s != [] {
      GoLowerIs(a, s[0]);
      LettersOnlyLowered(a, s[1..]);
    }
  }

  lemma OneWord(t: string)
    requires forall i :: 0 <= i < |t| ==> Alnum(t[i])
    ensures Joined(Words(t)) == t
  {
    RunOf(true, t, |t|);
    assert t != [] ==> t[..|t|] == t && t[|t|..] == [];
  }

  lemma NextIsKept(s: string)
    requires forall i :: 0 <= i < |s| ==> Kept(LATIN, s[i]) != ""
    ensures DottedInsideWord(s) <==> exists i :: 0 <= i < |s| - 1 && s[i] == '\U{0130}'
  {
    LatinInOrder();
    if i :| 0 <= i < |s| - 1 && s[i] == '\U{0130}' {
      GoLowerIs(LATIN, s[i + 1]);
    }
  }

  /** A name without such characters becomes one word, in TypeScript unless a dotted capital I stands inside. */
  lemma LettersMakeOneWord(s: string)
    requires forall i :: 0 <= i < |s| ==> Kept(LATIN, s[i]) != ""
    ensures GoSlugify(s) == KeptOf(LATIN, s)
    ensures TsSlugify(s) == KeptOf(LATIN, s) <==> forall i :: 0 <= i < |s| - 1 ==> s[i] != '\U{0130}'
  {
    LatinInOrder();
    LettersOnlyLowered(LATIN, s);
    OneWord(KeptOf(LATIN, s));
    GoSlugIsJoinedWords(s);
    SlugifiersAgreeIff(s);
    NextIsKept(s);
  }

  // ---------------------------------------------------------------- spelling with capitals

  lemma {:induction false} LoweredInSmall(a: Alphabet, s: string)
    requires InOrder(a)
    ensures Lowered(GoLower, InSmall(a, s)) == Lowered(GoLower, s)
    ensures Lowered(JsLower, InSmall(a, s)) == Lowered(JsLower, s)
  {
    if s != [] {
      GoLowerIs(a, s[0]);
      Ranges(a, s[0]);
      LoweredInSmall(a, s[1..]);
    }
  }

  /** A name and its spelling in small letters have one slug. */
  lemma SlugsIgnoreCase(s: string)
    ensures GoSlugify(InSmall(LATIN, s)) == GoSlugify(s)
    ensures TsSlugify(InSmall(LATIN, s)) == TsSlugify(s)
  {
    LatinInOrder();
    LoweredInSmall(LATIN, s);
    SlugsAreJoinedWords(s);
    SlugsAreJoinedWords(InSmall(LATIN, s));
  }

  // ---------------------------------------------------------------- candidates

  /** The candidates spelled out, and when they are slugs themselves: all of them, unless the name left nothing. */
  lemma CandidatesSpelled(base: string, i: nat) returns (digits: string)
    ensures Candidate(base, 0) == base
    ensures AllDigits(digits) && Value(digits) == i
    ensures i > 0 ==> Candidate(base, i) == base + "-" + digits
    ensures SlugShaped(base) ==> (SlugShaped(Candidate(base, i)) <==> base != "" || i == 0)
  {
    digits := Print(i);
    ValueOfPrint(i);
    if i > 0 {
      assert base == "" ==> Candidate(base, i)[0] == '-';
    }
  }

  // ---------------------------------------------------------------- addresses

  predicate Ascii(s: string) {
    forall i :: 0 <= i < |s| ==> s[i] < '\U{0080}'
  }

  /** Space, tab, line feed, vertical tab, form feed, carriage return. */
  predicate Blank(c: char) {
    c == ' ' || c == '\t' || c == '\n' || c == '\U{000B}' || c == '\U{000C}' || c == '\r'
  }

  predicate AllBlank(s: string) {
    forall i :: 0 <= i < |s| ==> Blank(s[i])
  }

  /** The text without the blanks at its ends. */
  ghost predicate TrimsTo(s: string, front: string, core: string, back: string) {
    && s == front + core + back && AllBlank(front) && AllBlank(back)
    && (core != [] ==> !Blank(core[0]) && !Blank(core[|core| - 1]))
  }

  lemma AsciiSpace(c: char)
    requires c < '\U{0080}'
    ensures GoSpace(c) <==> Blank(c)
  {
  }

  lemma BlankInFront(c: char, s: string, front: string, core: string, back: string)
    requires Blank(c) && TrimsTo(s, front, core, back)
    ensures TrimsTo([c] + s, [c] + front, core, back)
  {
    assert [c] + (front + core + back) == [c] + front + core + back;
  }

  lemma BlankBehind(c: char, s: string, front: string, core: string, back: string)
    requires Blank(c) && TrimsTo(s, front, core, back)
    ensures TrimsTo(s + [c], front, core, back + [c])
  {
    assert (front + core + back) + [c] == front + core + (back + [c]);
  }

  lemma {:induction false} TrimmedCuts(s: string) returns (front: string, back: string)
    requires Ascii(s)
    ensures TrimsTo(s, front, Trimmed(GoSpace, s), back)
    decreases |s|
  {
    if s == [] {
      return "", "";
    }
    var n := |s| - 1;
    AsciiSpace(s[0]);
    AsciiSpace(s[n]);
    if GoSpace(s[0]) {
      front, back := TrimmedCuts(s[1..]);
      BlankInFront(s[0], s[1..], front, Trimmed(GoSpace, s[1..]), back);
      assert s == [s[0]] + s[1..];
      front := [s[0]] + front;
    } else if GoSpace(s[n]) {
      front, back := TrimmedCuts(s[..n]);
      BlankBehind(s[n], s[..n], front, Trimmed(GoSpace, s[..n]), back);
      assert s == s[..n] + [s[n]];
      back := back + [s[n]];
    } else {
      front, back := "", "";
      assert s == [] + s + [];
    }
  }

  lemma CoreIsAscii(s: string, front: string, core: string, back: string)
    requires Ascii(s) && TrimsTo(s, front, core, back)
    ensures Ascii(core)
  {
    forall i | 0 <= i < |core| ensures core[i] < '\U{0080}' {
      assert core[i] == s[|front| + i];
    }
  }

  lemma {:induction false} AsciiLowered(a: Alphabet, s: string)
    requires InOrder(a)
    requires Ascii(s)
    ensures Lowered(GoLower, s) == InSmall(a, s)
  {
    if s != [] {
      GoLowerIs(a, s[0]);
      AsciiLowered(a, s[1..]);
    }
  }

  /** The stored form of an address is the address without the blanks at its ends, in small letters. */
  lemma CleanTrimsAndLowers(email: string) returns (front: string, core: string, back: string)
    requires Ascii(email)
    ensures TrimsTo(email, front, core, back) && Rbac.Clean(email) == InSmall(LATIN, core)
  {
    LatinInOrder();
    core := Trimmed(GoSpace, email);
    front, back := TrimmedCuts(email);
    CoreIsAscii(email, front, core, back);
    AsciiLowered(LATIN, core);
  }

  lemma SpaceIsItself(a: Alphabet, c: char)
    requires InOrder(a)
    ensures GoSpace(Small(a, c)) <==> GoSpace(c)
  {
    Ranges(a, c);
  }

  lemma FrontInSmall(a: Alphabet, s: string)
    requires s != []
    ensures var t := InSmall(a, s); t != [] && t[..|t| - 1] == InSmall(a, s[..|s| - 1])
  {
    InSmallAt(a, s);
    InSmallAt(a, s[..|s| - 1]);
  }

  lemma SpaceInSmall(a: Alphabet, s: string, t: string)
    requires InOrder(a) && t == InSmall(a, s) && s != []
    ensures |t| == |s| && (GoSpace(t[0]) <==> GoSpace(s[0])) && (GoSpace(t[|t| - 1]) <==> GoSpace(s[|s| - 1]))
  {
    InSmallAt(a, s);
    SpaceIsItself(a, s[0]);
    SpaceIsItself(a, s[|s| - 1]);
  }

  lemma {:induction false} TrimmedInSmall(a: Alphabet, s: string)
    requires InOrder(a)
    ensures InSmall(a, Trimmed(GoSpace, s)) == Trimmed(GoSpace, InSmall(a, s))
    decreases |s|
  {
    if s != [] {
      var t := InSmall(a, s);
      SpaceInSmall(a, s, t);
      FrontInSmall(a, s);
      if GoSpace(s[0]) {
        TrimmedInSmall(a, s[1..]);
      } else if GoSpace(s[|s| - 1]) {
        TrimmedInSmall(a, s[..|s| - 1]);
      }
    }
  }

  lemma {:induction false} InSmallAt(a: Alphabet, s: string)
    ensures |InSmall(a, s)| == |s| && forall i :: 0 <= i < |s| ==> InSmall(a, s)[i] == Small(a, s[i])
  {
    if s != [] {
      InSmallAt(a, s[1..]);
    }
  }

  /** Addresses that differ in capitals alone are stored as one, so that their owners cannot both be in one
      organization. */
  lemma AddressesIgnoreCase(a: string, b: string)
    requires InSmall(LATIN, a) == InSmall(LATIN, b)
    ensures Rbac.Clean(a) == Rbac.Clean(b)
  {
    LatinInOrder();
    TrimmedInSmall(LATIN, a);
    TrimmedInSmall(LATIN, b);
    LoweredInSmall(LATIN, Trimmed(GoSpace, a));
    LoweredInSmall(LATIN, Trimmed(GoSpace, b));
  }
}
