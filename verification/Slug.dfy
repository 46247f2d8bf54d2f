/** The two slugify functions, in Go and in TypeScript, and the loop that finds a free slug at onboarding. */
module Slug {
  import opened Domain
  import opened Decimal

  // ---------------------------------------------------------------- characters

  predicate Alnum(c: char) {
    'a' <= c <= 'z' || '0' <= c <= '9'
  }

  const DOTTED_CAPITAL_I: char := '\U{0130}'
  const KELVIN: char := '\U{212A}'
  const DOT_ABOVE: char := '\U{0307}'

  /** Go lowers rune by rune. Only these runes have a lower case in a-z; what the others become is collapsed into a
      dash like the rune itself, so they stand for themselves. */
  function GoLower(c: char): string {
    if 'A' <= c <= 'Z' then [(c as int + 32) as char]
    else if c == DOTTED_CAPITAL_I then "i"
    else if c == KELVIN then "k"
    else [c]
  }

  /** JavaScript keeps the dot of a dotted capital I as a combining character. */
  function JsLower(c: char): string {
    if c == DOTTED_CAPITAL_I then ['i', DOT_ABOVE] else GoLower(c)
  }

  predicate SharedSpace(c: char) {
    || '\t' <= c <= '\r' || c == ' ' || c == '\U{00A0}' || c == '\U{1680}' || '\U{2000}' <= c <= '\U{200A}'
    || c == '\U{2028}' || c == '\U{2029}' || c == '\U{202F}' || c == '\U{205F}' || c == '\U{3000}'
  }

  predicate GoSpace(c: char) {
    SharedSpace(c) || c == '\U{0085}'
  }

  predicate JsSpace(c: char) {
    SharedSpace(c) || c == '\U{FEFF}'
  }

  // ---------------------------------------------------------------- the two functions

  function Lowered(lower: char -> string, s: string): string {
    if s == [] then [] else lower(s[0]) + Lowered(lower, s[1..])
  }

  /** Drops characters of the set from both ends. */
  function Trimmed(drop: char -> bool, s: string): string {
    if s == [] then []
    else if drop(s[0]) then Trimmed(drop, s[1..])
    else if drop(s[|s| - 1]) then Trimmed(drop, s[..|s| - 1])
    else s
  }

  /** The length of the leading run of characters in a-z0-9, or outside it. */
  function Run(alnum: bool, s: string): (n: nat)
    ensures n <= |s|
    ensures n > 0 <==> s != [] && Alnum(s[0]) == alnum
  {
    if s != [] && Alnum(s[0]) == alnum then 1 + Run(alnum, s[1..]) else 0
  }

  /** Replaces every maximal match of [^a-z0-9]+ by one dash. */
  function Collapsed(s: string): string {
    if s == [] then []
    else if Alnum(s[0]) then s[..Run(true, s)] + Collapsed(s[Run(true, s)..])
    else "-" + Collapsed(s[Run(false, s)..])
  }

  /** Replaces the matches of (^-|-$). */
  function WithoutEndDashes(s: string): string {
    var t := if s != [] && s[0] == '-' then s[1..] else s;
    if t != [] && t[|t| - 1] == '-' then t[..|t| - 1] else t
  }

  function GoSlugify(s: string): string {
    Trimmed(c => c == '-', Collapsed(Lowered(GoLower, Trimmed(GoSpace, s))))
  }

  function TsSlugify(s: string): string {
    WithoutEndDashes(Collapsed(Trimmed(JsSpace, Lowered(JsLower, s))))
  }

  // ---------------------------------------------------------------- what a slug is

  /** The words of a text: its maximal runs of a-z0-9. */
  function Words(s: string): seq<string> {
    if s == [] then []
    else if Alnum(s[0]) then [s[..Run(true, s)]] + Words(s[Run(true, s)..])
    else Words(s[1..])
  }

  function Joined(words: seq<string>): string {
    if words == [] then []
    else if |words| == 1 then words[0]
    else words[0] + "-" + Joined(words[1..])
  }

  /** Empty, or groups of a-z0-9 joined by single dashes. */
  predicate SlugShaped(t: string) {
    && (forall i :: 0 <= i < |t| ==> Alnum(t[i]) || t[i] == '-')
    && (forall i :: 0 < i < |t| ==> t[i - 1] != '-' || t[i] != '-')
    && (t != [] ==> t[0] != '-' && t[|t| - 1] != '-')
  }

  // ---------------------------------------------------------------- words

  lemma {:induction false} RunIsUniform(alnum: bool, s: string)
    ensures forall i :: 0 <= i < Run(alnum, s) ==> Alnum(s[i]) == alnum
    ensures Run(alnum, s) < |s| ==> Alnum(s[Run(alnum, s)]) != alnum
  {
    if s != [] && Alnum(s[0]) == alnum {
      RunIsUniform(alnum, s[1..]);
    }
  }

  lemma {:induction false} RunOf(alnum: bool, s: string, n: nat)
    requires n <= |s| && (forall i :: 0 <= i < n ==> Alnum(s[i]) == alnum)
    requires n < |s| ==> Alnum(s[n]) != alnum
    ensures Run(alnum, s) == n
  {
    if n > 0 {
      RunOf(alnum, s[1..], n - 1);
    }
  }

  lemma WordsAfterJunk(c: char, t: string)
    requires !Alnum(c)
    ensures Words([c] + t) == Words(t)
  {
  }

  lemma {:induction false} WordsBeforeJunk(t: string, c: char)
    requires !Alnum(c)
    ensures Words(t + [c]) == Words(t)
    decreases |t|
  {
    var s := t + [c];
    if t == [] {
      assert s[1..] == [];
    } else if Alnum(t[0]) {
      var n := Run(true, t);
      RunIsUniform(true, t);
      RunOf(true, s, n);
      assert s[..n] == t[..n] && s[n..] == t[n..] + [c];
      WordsBeforeJunk(t[n..], c);
    } else {
      assert s[1..] == t[1..] + [c];
      WordsBeforeJunk(t[1..], c);
    }
  }

  /** How one more letter in front changes the words: it opens a word or extends the first. */
  lemma WordsCons(c: char, t: string)
    requires Alnum(c)
    ensures t != [] && Alnum(t[0]) ==>
              Words(t) != [] && Words([c] + t) == [[c] + Words(t)[0]] + Words(t)[1..]
    ensures t == [] || !Alnum(t[0]) ==> Words([c] + t) == [[c]] + Words(t)
  {
    var s := [c] + t;
    assert s[1..] == t;
    var n := Run(true, t);
    assert Run(true, s) == 1 + n;
    assert s[..1 + n] == [c] + t[..n] && s[1 + n..] == t[n..];
  }

  lemma {:induction false} WordsOfRun(s: string)
    ensures Words(s) == Words(s[Run(false, s)..])
    decreases |s|
  {
    if s != [] && !Alnum(s[0]) {
      WordsOfRun(s[1..]);
      assert s[Run(false, s)..] == s[1..][Run(false, s[1..])..];
    } else {
      assert s[0..] == s;
    }
  }

  lemma {:induction false} NoWordsNoLetters(s: string)
    requires Words(s) == []
    ensures forall i :: 0 <= i < |s| ==> !Alnum(s[i])
  {
    if s != [] {
      assert !Alnum(s[0]);
      NoWordsNoLetters(s[1..]);
    }
  }

  function EndDash(c: char): string {
    if Alnum(c) then "" else "-"
  }

  lemma JoinedCons(word: string, words: seq<string>)
    ensures Joined([word] + words) == if words == [] then word else word + "-" + Joined(words)
  {
  }

  /** What CollapsedIsJoined says about a text, once its end characters are known. */
  predicate CollapseShape(front: string, words: seq<string>, back: string, collapsed: string) {
    collapsed == if words == [] then "-" else front + Joined(words) + back
  }

  lemma WordInFront(word: string, words: seq<string>, back: string, collapsed: string)
    requires CollapseShape("-", words, back, collapsed) && (words == [] ==> back == "-")
    ensures CollapseShape("", [word] + words, back, word + collapsed)
  {
  }

  lemma JunkInFront(words: seq<string>, back: string, collapsed: string)
    requires words != [] && CollapseShape("", words, back, collapsed)
    ensures CollapseShape("-", words, back, "-" + collapsed)
  {
  }

  /** Collapsing leaves the joined words, with a dash at each end where the text had something else. */
  lemma {:induction false} CollapsedIsJoined(s: string)
    requires s != []
    ensures CollapseShape(EndDash(s[0]), Words(s), EndDash(s[|s| - 1]), Collapsed(s))
    decreases |s|
  {
    var n := Run(Alnum(s[0]), s);
    var rest := s[n..];
    var back := EndDash(s[|s| - 1]);
    RunIsUniform(Alnum(s[0]), s);
    if rest == [] {
      assert s[..n] == s;
      CollapsedSingleRun(s);
    } else {
      CollapsedIsJoined(rest);
      assert rest[|rest| - 1] == s[|s| - 1];
      if Alnum(s[0]) {
        if Words(rest) == [] {
          NoWordsNoLetters(rest);
        }
        WordInFront(s[..n], Words(rest), back, Collapsed(rest));
      } else {
        WordsOfRun(s);
        JunkInFront(Words(rest), back, Collapsed(rest));
      }
    }
  }

  lemma CollapsedSingleRun(s: string)
    requires s != [] && Run(Alnum(s[0]), s) == |s|
    ensures CollapseShape(EndDash(s[0]), Words(s), EndDash(s[|s| - 1]), Collapsed(s))
  {
    RunIsUniform(Alnum(s[0]), s);
    assert s[..|s|] == s && s[|s|..] == [];
    if Alnum(s[0]) {
      assert Words(s) == [s];
    } else {
      WordsOfRun(s);
    }
  }

  lemma {:induction false} JoinedIsSlugShaped(s: string)
    ensures SlugShaped(Joined(Words(s)))
    ensures Words(s) != [] ==> Joined(Words(s)) != []
    decreases |s|
  {
    if s != [] && Alnum(s[0]) {
      var n := Run(true, s);
      RunIsUniform(true, s);
      JoinedIsSlugShaped(s[n..]);
    } else if s != [] {
      JoinedIsSlugShaped(s[1..]);
    }
  }

  lemma SlugTail(t: string, n: nat)
    requires SlugShaped(t) && n < |t| && t[n] == '-'
    ensures t[n + 1..] != [] && SlugShaped(t[n + 1..])
  {
  }

  lemma WordsOfWordThen(word: string, tail: string)
    requires word != [] && (forall i :: 0 <= i < |word| ==> Alnum(word[i]))
    requires tail != [] ==> !Alnum(tail[0])
    ensures Words(word + tail) == [word] + Words(tail)
  {
    var t := word + tail;
    RunOf(true, t, |word|);
    assert t[..|word|] == word && t[|word|..] == tail;
  }

  lemma WordThenSlug(word: string, rest: string)
    requires word != [] && (forall i :: 0 <= i < |word| ==> Alnum(word[i]))
    requires rest != [] && Joined(Words(rest)) == rest
    ensures Joined(Words(word + (['-'] + rest))) == word + (['-'] + rest)
  {
    WordsOfWordThen(word, ['-'] + rest);
    WordsAfterJunk('-', rest);
    JoinedCons(word, Words(rest));
    Dashed(word, rest);
  }

  lemma Dashed(word: string, rest: string)
    ensures word + "-" + rest == word + (['-'] + rest)
  {
  }

  lemma {:induction false} SlugIsItsWords(t: string)
    requires SlugShaped(t)
    ensures Joined(Words(t)) == t
    decreases |t|
  {
    if t != [] {
      var n := Run(true, t);
      RunIsUniform(true, t);
      if n == |t| {
        assert t[..n] == t && t[n..] == [];
      } else {
        var rest := t[n + 1..];
        SlugTail(t, n);
        SlugIsItsWords(rest);
        WordThenSlug(t[..n], rest);
        assert t == t[..n] + (['-'] + rest);
      }
    }
  }

  // ---------------------------------------------------------------- trimming makes no difference to the words

  lemma TrimmedIdentity(drop: char -> bool, s: string)
    requires s != [] ==> !drop(s[0]) && !drop(s[|s| - 1])
    ensures Trimmed(drop, s) == s
  {
  }

  predicate Bare(core: string) {
    core != [] && core[0] != '-' && core[|core| - 1] != '-'
  }

  lemma BareStays(core: string)
    requires Bare(core)
    ensures Trimmed(c => c == '-', core) == core == WithoutEndDashes(core)
  {
    TrimmedIdentity(c => c == '-', core);
  }

  lemma DashBehind(core: string)
    requires Bare(core)
    ensures Trimmed(c => c == '-', core + "-") == core == WithoutEndDashes(core + "-")
  {
    var s := core + "-";
    assert s[..|s| - 1] == core;
    BareStays(core);
  }

  lemma DashInFront(core: string)
    requires core != [] && core[0] != '-'
    ensures Trimmed(c => c == '-', "-" + core) == Trimmed(c => c == '-', core)
    ensures WithoutEndDashes("-" + core) == WithoutEndDashes(core)
  {
    assert ("-" + core)[1..] == core;
  }

  lemma TrimmedCore(core: string, front: bool, back: bool)
    requires Bare(core)
    ensures var s := (if front then "-" else "") + core + (if back then "-" else "");
            Trimmed(c => c == '-', s) == core && WithoutEndDashes(s) == core
  {
    var tail := core + (if back then "-" else "");
    var s := (if front then "-" else "") + core + (if back then "-" else "");
    assert s == (if front then "-" + tail else tail);
    assert !back ==> tail == core;
    BareStays(core);
    DashBehind(core);
    DashInFront(tail);
  }

  /** Dropping all end dashes and dropping one at each end leave the same. */
  lemma BothEndsAgree(s: string)
    ensures Trimmed(c => c == '-', Collapsed(s)) == Joined(Words(s)) == WithoutEndDashes(Collapsed(s))
  {
    var drop := c => c == '-';
    if s != [] {
      CollapsedIsJoined(s);
      JoinedIsSlugShaped(s);
      if Words(s) == [] {
        assert Trimmed(drop, "-") == Trimmed(drop, "-"[1..]) == [];
      } else {
        TrimmedCore(Joined(Words(s)), !Alnum(s[0]), !Alnum(s[|s| - 1]));
      }
    }
  }

  lemma {:induction false} TrimmedKeepsWords(space: char -> bool, s: string)
    requires forall c :: space(c) ==> !Alnum(c)
    ensures Words(Trimmed(space, s)) == Words(s)
    decreases |s|
  {
    if s != [] && space(s[0]) {
      TrimmedKeepsWords(space, s[1..]);
    } else if s != [] && space(s[|s| - 1]) {
      TrimmedKeepsWords(space, s[..|s| - 1]);
      WordsBeforeJunk(s[..|s| - 1], s[|s| - 1]);
      assert s == s[..|s| - 1] + [s[|s| - 1]];
    }
  }

  lemma {:induction false} LoweredLast(lower: char -> string, s: string, c: char)
    ensures Lowered(lower, s + [c]) == Lowered(lower, s) + lower(c)
  {
    if s == [] {
      assert (s + [c])[1..] == [];
    } else {
      LoweredLast(lower, s[1..], c);
      assert (s + [c])[1..] == s[1..] + [c];
    }
  }

  lemma {:induction false} TrimmedBeforeLowering(s: string)
    ensures Words(Lowered(GoLower, Trimmed(GoSpace, s))) == Words(Lowered(GoLower, s))
    decreases |s|
  {
    if s != [] && GoSpace(s[0]) {
      WordsAfterJunk(s[0], Lowered(GoLower, s[1..]));
      TrimmedBeforeLowering(s[1..]);
    } else if s != [] && GoSpace(s[|s| - 1]) {
      var front := s[..|s| - 1];
      var c := s[|s| - 1];
      assert s == front + [c];
      LoweredLast(GoLower, front, c);
      WordsBeforeJunk(Lowered(GoLower, front), c);
      TrimmedBeforeLowering(front);
    }
  }

  lemma GoSlugIsJoinedWords(s: string)
    ensures GoSlugify(s) == Joined(Words(Lowered(GoLower, s)))
  {
    var t := Lowered(GoLower, Trimmed(GoSpace, s));
    BothEndsAgree(t);
    TrimmedBeforeLowering(s);
    assert GoSlugify(s) == Trimmed(c => c == '-', Collapsed(t));
  }

  lemma TsSlugIsJoinedWords(s: string)
    ensures TsSlugify(s) == Joined(Words(Lowered(JsLower, s)))
  {
    var t := Lowered(JsLower, s);
    BothEndsAgree(Trimmed(JsSpace, t));
    TrimmedKeepsWords(JsSpace, t);
  }

  /** Both functions join the words of the lowered text. */
  lemma SlugsAreJoinedWords(s: string)
    ensures GoSlugify(s) == Joined(Words(Lowered(GoLower, s)))
    ensures TsSlugify(s) == Joined(Words(Lowered(JsLower, s)))
  {
    GoSlugIsJoinedWords(s);
    TsSlugIsJoinedWords(s);
  }

  // ---------------------------------------------------------------- where the two differ

  /** A dotted capital I that is not the last letter of its word. */
  predicate DottedInsideWord(s: string) {
    exists k :: 0 <= k < |s| - 1 && s[k] == DOTTED_CAPITAL_I && Alnum(GoLower(s[k + 1])[0])
  }

  function Size(words: seq<string>): nat {
    if words == [] then 0 else |words[0]| + Size(words[1..])
  }

  lemma {:induction false} JoinedLength(words: seq<string>)
    requires words != []
    ensures |Joined(words)| == Size(words) + |words| - 1
  {
    if |words| > 1 {
      JoinedLength(words[1..]);
    }
  }

  lemma DottedStep(s: string)
    requires s != []
    ensures DottedInsideWord(s) <==>
            (|s| > 1 && s[0] == DOTTED_CAPITAL_I && Alnum(GoLower(s[1])[0])) || DottedInsideWord(s[1..])
  {
  }

  lemma LoweredHeads(s: string)
    ensures Lowered(GoLower, s) == [] <==> s == []
    ensures Lowered(JsLower, s) == [] <==> s == []
    ensures s != [] ==> Lowered(GoLower, s)[0] == GoLower(s[0])[0] == Lowered(JsLower, s)[0]
  {
  }

  /** The words of g and j are the same, or hold as many letters but are more in j. */
  predicate Compared(g: string, j: string, cut: bool) {
    && Size(Words(g)) == Size(Words(j))
    && (if cut then |Words(g)| < |Words(j)| else Words(g) == Words(j))
  }

  predicate WordAhead(t: string) {
    t != [] && Alnum(t[0])
  }

  lemma LetterInFront(c: char, t: string)
    requires Alnum(c)
    ensures Size(Words([c] + t)) == Size(Words(t)) + 1
    ensures |Words([c] + t)| == |Words(t)| + if WordAhead(t) then 0 else 1
  {
  }

  lemma SameHead(c: char, g: string, j: string, cut: bool)
    requires Compared(g, j, cut) && WordAhead(g) == WordAhead(j)
    ensures Compared([c] + g, [c] + j, cut)
  {
    if Alnum(c) {
      LetterInFront(c, g);
      LetterInFront(c, j);
      WordsCons(c, g);
      WordsCons(c, j);
    } else {
      WordsAfterJunk(c, g);
      WordsAfterJunk(c, j);
    }
  }

  lemma DottedHead(g: string, j: string, cut: bool)
    requires Compared(g, j, cut)
    ensures Compared(['i'] + g, ['i'] + ([DOT_ABOVE] + j), cut || WordAhead(g))
  {
  }

  lemma LoweredCons(c: char, s: string)
    requires c != DOTTED_CAPITAL_I
    ensures Lowered(GoLower, [c] + s) == [GoLower(c)[0]] + Lowered(GoLower, s)
    ensures Lowered(JsLower, [c] + s) == [GoLower(c)[0]] + Lowered(JsLower, s)
  {
  }

  lemma LoweredDotted(s: string)
    ensures Lowered(GoLower, [DOTTED_CAPITAL_I] + s) == ['i'] + Lowered(GoLower, s)
    ensures Lowered(JsLower, [DOTTED_CAPITAL_I] + s) == ['i'] + ([DOT_ABOVE] + Lowered(JsLower, s))
  {
  }

  /** The two lowerings give the same letters, and the same words unless a dot cuts one of them. */
  lemma {:induction false} LoweringsCompared(s: string)
    ensures Compared(Lowered(GoLower, s), Lowered(JsLower, s), DottedInsideWord(s))
  {
    if s != [] {
      var rest := s[1..];
      LoweringsCompared(rest);
      LoweredHeads(rest);
      DottedStep(s);
      assert s == [s[0]] + rest;
      if s[0] == DOTTED_CAPITAL_I {
        LoweredDotted(rest);
        DottedHead(Lowered(GoLower, rest), Lowered(JsLower, rest), DottedInsideWord(rest));
      } else {
        LoweredCons(s[0], rest);
        SameHead(GoLower(s[0])[0], Lowered(GoLower, rest), Lowered(JsLower, rest), DottedInsideWord(rest));
      }
    }
  }

  // ---------------------------------------------------------------- main results

  /** The services agree on a name exactly when no dotted capital I stands inside a word. */
  lemma SlugifiersAgreeIff(s: string)
    ensures GoSlugify(s) == TsSlugify(s) <==> !DottedInsideWord(s)
  {
    SlugsAreJoinedWords(s);
    LoweringsCompared(s);
    var g := Words(Lowered(GoLower, s));
    var j := Words(Lowered(JsLower, s));
    if DottedInsideWord(s) {
      JoinedIsSlugShaped(Lowered(JsLower, s));
      JoinedLength(j);
      if g != [] {
        JoinedLength(g);
      }
    }
  }

  lemma SlugifiersAgreeOnAscii(s: string)
    requires forall i :: 0 <= i < |s| ==> s[i] < '\U{0080}'
    ensures GoSlugify(s) == TsSlugify(s)
  {
    SlugifiersAgreeIff(s);
  }

  lemma {:induction false} LoweredSlug(lower: char -> string, t: string)
    requires lower == GoLower || lower == JsLower
    requires forall i :: 0 <= i < |t| ==> Alnum(t[i]) || t[i] == '-'
    ensures Lowered(lower, t) == t
  {
    if t != [] {
      LoweredSlug(lower, t[1..]);
    }
  }

  /** Every result is a slug, and the slugs are exactly the strings either function leaves alone. */
  lemma SlugsAreTheFixedPoints(s: string)
    ensures SlugShaped(GoSlugify(s)) && SlugShaped(TsSlugify(s))
    ensures GoSlugify(s) == s <==> SlugShaped(s)
    ensures TsSlugify(s) == s <==> SlugShaped(s)
  {
    SlugsAreJoinedWords(s);
    JoinedIsSlugShaped(Lowered(GoLower, s));
    JoinedIsSlugShaped(Lowered(JsLower, s));
    if SlugShaped(s) {
      LoweredSlug(GoLower, s);
      LoweredSlug(JsLower, s);
      SlugIsItsWords(s);
    }
  }

  /** Either service's slugs pass unchanged through both. */
  lemma SlugifyIsIdempotent(s: string)
    ensures GoSlugify(GoSlugify(s)) == GoSlugify(s) == TsSlugify(GoSlugify(s))
    ensures TsSlugify(TsSlugify(s)) == TsSlugify(s) == GoSlugify(TsSlugify(s))
  {
    SlugsAreTheFixedPoints(s);
    SlugsAreTheFixedPoints(GoSlugify(s));
    SlugsAreTheFixedPoints(TsSlugify(s));
  }

  // ---------------------------------------------------------------- slug allocation

  /** base, base-1, base-2, ... */
  function Candidate(base: string, i: nat): string {
    if i == 0 then base else base + "-" + Print(i)
  }

  lemma CandidatesDiffer(base: string, i: nat, j: nat)
    requires Candidate(base, i) == Candidate(base, j)
    ensures i == j
  {
    if i > 0 && j > 0 {
      assert Candidate(base, i)[|base| + 1..] == Print(i);
      assert Candidate(base, j)[|base| + 1..] == Print(j);
      PrintIsInjective(i, j);
    }
  }

  /** As many taken candidates need as many taken slugs. */
  lemma {:induction false} TakenCandidates(taken: set<string>, base: string, n: nat)
    requires forall j :: 0 <= j < n ==> Candidate(base, j) in taken
    ensures n <= |taken|
    decreases n
  {
    if n > 0 {
      var last := Candidate(base, n - 1);
      forall j | 0 <= j < n - 1 ensures Candidate(base, j) in taken - {last} {
        if Candidate(base, j) == last {
          CandidatesDiffer(base, j, n - 1);
        }
      }
      TakenCandidates(taken - {last}, base, n - 1);
    }
  }

  /** Whatever is taken, one of the first |taken| + 1 candidates is free. */
  lemma SomeCandidateIsFree(taken: set<string>, base: string)
    ensures exists i :: 0 <= i <= |taken| && Candidate(base, i) !in taken
  {
    if forall i :: 0 <= i <= |taken| ==> Candidate(base, i) in taken {
      TakenCandidates(taken, base, |taken| + 1);
    }
  }

  /** Onboard's loop. Lookup number k may fail for reasons of its own, which ends the search without a slug. */
  method AllocateSlug(taken: set<string>, requested: string, name: string, fails: nat -> bool)
    returns (slug: Option<string>, lookups: nat)
    ensures 0 < lookups <= |taken| + 1
    ensures var base := if requested == "" then GoSlugify(name) else requested;
            && (forall j :: 0 <= j < lookups - 1 ==> Candidate(base, j) in taken && !fails(j))
            && match slug
               case None => fails(lookups - 1)
               case Some(s) => !fails(lookups - 1) && s == Candidate(base, lookups - 1) && s !in taken
  {
    var current := requested;
    if current == "" {
      current := GoSlugify(name);
    }
    var original := current;
    var i := 1;
    while true
      invariant i >= 1 && current == Candidate(original, i - 1)
      invariant forall j :: 0 <= j < i - 1 ==> Candidate(original, j) in taken && !fails(j)
      invariant i <= |taken| + 1
      decreases |taken| + 1 - i
    {
      if fails(i - 1) {
        return None, i;
      }
      if current !in taken {
        return Some(current), i;
      }
      TakenCandidates(taken, original, i);
      current := original + "-" + Print(i);
      i := i + 1;
    }
  }
}
