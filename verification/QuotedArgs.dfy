/** Splitting a command line into arguments, with double quotes and backslash
    escapes. */
module QuotedArgs {
  import opened Lists

  // ----------------------------------------------------------- grammar

  /** A command line means a sequence of literal characters and separators. */
  datatype Symbol = Literal(c: char) | Separator

  predicate IsBlank(c: char) {
    c == ' ' || c == '\t'
  }

  /** What the characters mean. A backslash before a quote or a backslash makes
      it literal, before any other character both are literal, and at the end
      of the line it means nothing. A bare quote switches quoting, closed or
      not. A blank separates only outside quotes. */
  function Symbols(line: string, inQuotes: bool): (symbols: seq<Symbol>)
    decreases |line|
  {
    if line == "" then []
    else if line[0] == '\\' then
      if |line| == 1 then []
      else if line[1] == '"' || line[1] == '\\' then [Literal(line[1])] + Symbols(line[2..], inQuotes)
      else [Literal('\\'), Literal(line[1])] + Symbols(line[2..], inQuotes)
    else if line[0] == '"' then Symbols(line[1..], !inQuotes)
    else if IsBlank(line[0]) && !inQuotes then [Separator] + Symbols(line[1..], inQuotes)
    else [Literal(line[0])] + Symbols(line[1..], inQuotes)
  }

  /** The longest run of literals at the front. */
  function Lead(symbols: seq<Symbol>): (word: string)
    ensures |word| <= |symbols|
    ensures symbols != [] && symbols[0].Literal? ==> word != ""
  {
    if symbols == [] || symbols[0].Separator? then "" else [symbols[0].c] + Lead(symbols[1..])
  }

  /** The arguments are the maximal runs of literals. */
  function Words(symbols: seq<Symbol>): (words: seq<string>)
    decreases |symbols|
  {
    if symbols == [] then []
    else if symbols[0].Separator? then Words(symbols[1..])
    else [Lead(symbols)] + Words(symbols[|Lead(symbols)|..])
  }

  // -------------------------------------------------------- the parser

  function Literals(word: string): (symbols: seq<Symbol>)
    ensures |symbols| == |word|
  {
    seq(|word|, i requires 0 <= i < |word| => Literal(word[i]))
  }

  lemma {:induction false} LeadOfLiterals(word: string, rest: seq<Symbol>)
    requires rest == [] || rest[0].Separator?
    ensures Lead(Literals(word) + rest) == word
  {
    var s := Literals(word) + rest;
    if word == "" {
      assert s == rest;
    } else {
      LeadOfLiterals(word[1..], rest);
      assert s[1..] == Literals(word[1..]) + rest;
    }
  }

  /** A finished word in front of a separator or the end of the line. */
  lemma WordsAfter(word: string, rest: seq<Symbol>)
    ensures Words(Literals(word)) == if word == "" then [] else [word]
    ensures Words(Literals(word) + [Separator] + rest) == (if word == "" then [] else [word]) + Words(rest)
  {
    if word == "" {
      assert Literals(word) + [Separator] + rest == [Separator] + rest;
    } else {
      var s, t := Literals(word), Literals(word) + [Separator] + rest;
      LeadOfLiterals(word, []);
      assert s + [] == s && s[|word|..] == [];
      LeadOfLiterals(word, [Separator] + rest);
      assert t == s + ([Separator] + rest);
      assert t[|word|..] == [Separator] + rest;
      assert ([Separator] + rest)[1..] == rest;
      assert Words(t) == [word] + Words([Separator] + rest);
    }
  }

  lemma TakeLiteral(current: string, c: char, rest: seq<Symbol>)
    ensures Literals(current) + ([Literal(c)] + rest) == Literals(current + [c]) + rest
  {
  }

  /** What the unread part of the line means, given the two flags. */
  ghost function Pending(unread: string, inQuotes: bool, escaped: bool): seq<Symbol> {
    if escaped then Symbols(['\\'] + unread, inQuotes) else Symbols(unread, inQuotes)
  }

  /** One character moves from the unread part to the current word, ends it, or
      only changes a flag. */
  lemma PendingStep(r: char, rest: string, inQuotes: bool, escaped: bool)
    ensures var p := Pending([r] + rest, inQuotes, escaped);
            if escaped then
              if r == '"' || r == '\\' then p == [Literal(r)] + Pending(rest, inQuotes, false)
              else p == [Literal('\\')] + ([Literal(r)] + Pending(rest, inQuotes, false))
            else if r == '\\' then p == Pending(rest, inQuotes, true)
            else if r == '"' then p == Pending(rest, !inQuotes, false)
            else if IsBlank(r) && !inQuotes then p == [Separator] + Pending(rest, inQuotes, false)
            else p == [Literal(r)] + Pending(rest, inQuotes, false)
  {
    var line := if escaped then ['\\'] + ([r] + rest) else [r] + rest;
    if escaped {
      assert line[2..] == rest;
    } else {
      assert line[1..] == rest;
    }
  }

  lemma FinishWord(word: string, rest: seq<Symbol>)
    ensures Words(Literals(word) + ([Separator] + rest))
         == (if word == "" then [] else [word]) + Words(Literals("") + rest)
  {
    WordsAfter(word, rest);
    assert Literals(word) + ([Separator] + rest) == Literals(word) + [Separator] + rest;
    assert Literals("") + rest == rest;
  }

  datatype Reader = Reader(args: seq<string>, current: string, inQuotes: bool, escaped: bool)

  /** The arguments a line means when some are complete, one is being collected
      and the rest is unread. */
  ghost function Meaning(s: Reader, unread: string): seq<string> {
    s.args + Words(Literals(s.current) + Pending(unread, s.inQuotes, s.escaped))
  }

  /** One turn of the loop. */
  function Turn(s: Reader, r: char): Reader {
    if s.escaped then
      s.(current := s.current + (if r == '"' || r == '\\' then [r] else ['\\'] + [r]), escaped := false)
    else if r == '\\' then s.(escaped := true)
    else if r == '"' then s.(inQuotes := !s.inQuotes)
    else if IsBlank(r) && !s.inQuotes then s.(args := s.args + (if s.current == "" then [] else [s.current]), current := "")
    else s.(current := s.current + [r])
  }

  lemma TurnKeepsMeaning(s: Reader, r: char, rest: string)
    ensures Meaning(s, [r] + rest) == Meaning(Turn(s, r), rest)
  {
    PendingStep(r, rest, s.inQuotes, s.escaped);
    var p := Pending(rest, s.inQuotes, false);
    if s.escaped && !(r == '"' || r == '\\') {
      TakeLiteral(s.current, '\\', [Literal(r)] + p);
      TakeLiteral(s.current + ['\\'], r, p);
      assert s.current + ['\\'] + [r] == s.current + (['\\'] + [r]);
    } else if s.escaped || !(r == '\\' || r == '"' || (IsBlank(r) && !s.inQuotes)) {
      TakeLiteral(s.current, r, p);
    } else if IsBlank(r) {
      FinishWord(s.current, p);
    }
  }

  lemma MeaningAtStart(input: string)
    ensures Meaning(Reader([], "", false, false), input[0..]) == Words(Symbols(input, false))
  {
    assert input[0..] == input && Literals("") + Symbols(input, false) == Symbols(input, false);
  }

  lemma MeaningAtEnd(s: Reader)
    ensures Meaning(s, "") == if s.current == "" then s.args else s.args + [s.current]
  {
    assert Pending("", s.inQuotes, s.escaped) == [];
    assert Literals(s.current) + [] == Literals(s.current);
    WordsAfter(s.current, []);
  }

  /** The loop computes the grammar, on every line. */
  method ParseArgsRespectQuotes(input: string) returns (args: seq<string>)
    ensures args == Words(Symbols(input, false))
  {
    args := [];
    var current := "";
    var inQuotes := false;
    var escaped := false;
    ghost var meant := Words(Symbols(input, false));
    MeaningAtStart(input);
    for i := 0 to |input|
      invariant Meaning(Reader(args, current, inQuotes, escaped), input[i..]) == meant
    {
      var r := input[i];
      ghost var rest := input[i + 1..];
      assert input[i..] == [r] + rest;
      ghost var before := Reader(args, current, inQuotes, escaped);
      TurnKeepsMeaning(before, r, rest);
      if escaped {
        if r == '"' || r == '\\' {
          current := current + [r];
        } else {
          current := current + (['\\'] + [r]);
        }
        escaped := false;
      } else if r == '\\' {
        escaped := true;
      } else if r == '"' {
        inQuotes := !inQuotes;
      } else if r == ' ' || r == '\t' {
        if inQuotes {
          current := current + [r];
        } else if |current| > 0 {
          args := args + [current];
          current := "";
        }
      } else {
        current := current + [r];
      }
      assert Reader(args, current, inQuotes, escaped) == Turn(before, r);
    }
    MeaningAtEnd(Reader(args, current, inQuotes, escaped));
    assert input[|input|..] == "";
    if |current| > 0 {
      args := args + [current];
    }
  }

  // ---------------------------------------------------------- printing

  /** Inside quotes only the quote and the backslash need a backslash. */
  function EscapeChar(c: char): string {
    if c == '"' || c == '\\' then ['\\', c] else [c]
  }

  function Escape(word: string): string {
    if word == "" then "" else EscapeChar(word[0]) + Escape(word[1..])
  }

  function Quote(word: string): string {
    "\"" + Escape(word) + "\""
  }

  /** The arguments quoted and separated by single spaces. */
  function CommandLine(args: seq<string>): string {
    if args == [] then ""
    else if |args| == 1 then Quote(args[0])
    else Quote(args[0]) + " " + CommandLine(args[1..])
  }

  lemma {:induction false} SymbolsOfEscape(word: string, rest: string)
    ensures Symbols(Escape(word) + ("\"" + rest), true) == Literals(word) + Symbols(rest, false)
  {
    if word == "" {
      var line := Escape(word) + ("\"" + rest);
      assert line == "\"" + rest && line[1..] == rest;
      assert Literals(word) + Symbols(rest, false) == Symbols(rest, false);
    } else {
      var c, after := word[0], "\"" + rest;
      SymbolsOfEscape(word[1..], rest);
      Associative(EscapeChar(c), Escape(word[1..]), after);
      ReadLiteral(c, Escape(word[1..]) + after);
      LiteralsCons(word);
      Associative([Literal(c)], Literals(word[1..]), Symbols(rest, false));
    }
  }

  lemma LiteralsCons(word: string)
    requires word != ""
    ensures Literals(word) == [Literal(word[0])] + Literals(word[1..])
  {
  }

  lemma ReadLiteral(c: char, tail: string)
    ensures Symbols(EscapeChar(c) + tail, true) == [Literal(c)] + Symbols(tail, true)
  {
    if c == '"' || c == '\\' {
      assert (['\\', c] + tail)[2..] == tail;
    } else {
      assert ([c] + tail)[1..] == tail;
    }
  }

  lemma SymbolsOfQuote(word: string, rest: string)
    ensures Symbols(Quote(word) + rest, false) == Literals(word) + Symbols(rest, false)
  {
    var line := Quote(word) + rest;
    assert line[0] == '"' && line[1..] == Escape(word) + ("\"" + rest);
    SymbolsOfEscape(word, rest);
  }

  /** Printing then parsing gives back every list of non-empty arguments,
      whatever characters they hold. */
  lemma {:induction false} ParseOfCommandLine(args: seq<string>)
    requires forall i :: 0 <= i < |args| ==> args[i] != ""
    ensures Words(Symbols(CommandLine(args), false)) == args
  {
    if args == [] {
    } else if |args| == 1 {
      SymbolsOfQuote(args[0], "");
      assert Quote(args[0]) + "" == Quote(args[0]);
      assert Literals(args[0]) + [] == Literals(args[0]);
      WordsAfter(args[0], []);
    } else {
      var rest := CommandLine(args[1..]);
      assert CommandLine(args) == Quote(args[0]) + (" " + rest);
      SymbolsOfQuote(args[0], " " + rest);
      assert (" " + rest)[1..] == rest;
      assert Symbols(" " + rest, false) == [Separator] + Symbols(rest, false);
      assert Literals(args[0]) + ([Separator] + Symbols(rest, false)) == Literals(args[0]) + [Separator] + Symbols(rest, false);
      WordsAfter(args[0], Symbols(rest, false));
      ParseOfCommandLine(args[1..]);
    }
  }

  /** An argument is never empty, so the round trip holds for exactly the lists
      without an empty string. */
  lemma RoundTripIffNonEmpty(args: seq<string>)
    ensures Words(Symbols(CommandLine(args), false)) == args
       <==> forall i :: 0 <= i < |args| ==> args[i] != ""
  {
    if forall i :: 0 <= i < |args| ==> args[i] != "" {
      ParseOfCommandLine(args);
    }
    WordsAreNonEmpty(Symbols(CommandLine(args), false));
  }

  lemma {:induction false} WordsAreNonEmpty(symbols: seq<Symbol>)
    ensures forall i :: 0 <= i < |Words(symbols)| ==> Words(symbols)[i] != ""
    decreases |symbols|
  {
    if symbols == [] {
    } else if symbols[0].Separator? {
      WordsAreNonEmpty(symbols[1..]);
    } else {
      WordsAreNonEmpty(symbols[|Lead(symbols)|..]);
    }
  }

  // ------------------------------------------------- lines typed by hand

  /** A character as typed, by itself or after a backslash. */
  datatype Mark = Mark(c: char, escaped: bool)

  /** A word is typed in pieces, some of them between quotes. */
  datatype Piece = Bare(mark: Mark) | Quoted(marks: seq<Mark>)

  predicate Typable(m: Mark, quoted: bool) {
    m.escaped || (m.c != '"' && m.c != '\\' && (quoted || (m.c != ' ' && m.c != '\t')))
  }

  predicate TypablePiece(p: Piece) {
    match p
    case Bare(m) => Typable(m, false)
    case Quoted(marks) => forall m :: m in marks ==> Typable(m, true)
  }

  function TypedMark(m: Mark): string {
    if m.escaped then ['\\', m.c] else [m.c]
  }

  /** A backslash takes the meaning from a quote or another backslash, and stands
      for itself before anything else. */
  function MeantMark(m: Mark): string {
    if m.escaped && m.c != '"' && m.c != '\\' then ['\\', m.c] else [m.c]
  }

  function Typed(marks: seq<Mark>): string {
    if marks == [] then "" else TypedMark(marks[0]) + Typed(marks[1..])
  }

  function Meant(marks: seq<Mark>): string {
    if marks == [] then "" else MeantMark(marks[0]) + Meant(marks[1..])
  }

  function TypedPiece(p: Piece): string {
    match p
    case Bare(m) => TypedMark(m)
    case Quoted(marks) => "\"" + Typed(marks) + "\""
  }

  function MeantPiece(p: Piece): string {
    match p
    case Bare(m) => MeantMark(m)
    case Quoted(marks) => Meant(marks)
  }

  function TypedWord(pieces: seq<Piece>): string {
    if pieces == [] then "" else TypedPiece(pieces[0]) + TypedWord(pieces[1..])
  }

  function MeantWord(pieces: seq<Piece>): string {
    if pieces == [] then "" else MeantPiece(pieces[0]) + MeantWord(pieces[1..])
  }

  /** Each word with the blanks behind it. */
  function TypedLine(words: seq<seq<Piece>>, gaps: seq<string>): string
    requires |words| == |gaps|
  {
    if words == [] then "" else TypedWord(words[0]) + (gaps[0] + TypedLine(words[1..], gaps[1..]))
  }

  /** A word without characters is no argument. */
  function Argument(word: string): seq<string> {
    if word == "" then [] else [word]
  }

  function MeantLine(words: seq<seq<Piece>>): seq<string> {
    if words == [] then [] else Argument(MeantWord(words[0])) + MeantLine(words[1..])
  }

  predicate Blanks(gap: string) {
    forall i :: 0 <= i < |gap| ==> gap[i] == ' ' || gap[i] == '\t'
  }

  lemma LiteralsConcat(a: string, b: string, rest: seq<Symbol>)
    ensures Literals(a) + (Literals(b) + rest) == Literals(a + b) + rest
  {
  }

  /** Text read piece by piece. */
  lemma ReadOn(a: string, x: string, b: string, y: string, rest: string, quoted: bool)
    requires Symbols(a + (b + rest), quoted) == Literals(x) + Symbols(b + rest, quoted)
    requires Symbols(b + rest, quoted) == Literals(y) + Symbols(rest, quoted)
    ensures Symbols((a + b) + rest, quoted) == Literals(x + y) + Symbols(rest, quoted)
  {
    Associative(a, b, rest);
    LiteralsConcat(x, y, Symbols(rest, quoted));
  }

  lemma ReadNothing(rest: string, quoted: bool)
    ensures Symbols("" + rest, quoted) == Literals("") + Symbols(rest, quoted)
  {
    assert "" + rest == rest;
    assert Literals("") + Symbols(rest, quoted) == Symbols(rest, quoted);
  }

  lemma SymbolsOfMark(m: Mark, rest: string, quoted: bool)
    requires Typable(m, quoted)
    ensures Symbols(TypedMark(m) + rest, quoted) == Literals(MeantMark(m)) + Symbols(rest, quoted)
  {
    var line := TypedMark(m) + rest;
    if m.escaped {
      assert line[2..] == rest;
      assert Literals(['\\', m.c]) == [Literal('\\'), Literal(m.c)];
    } else {
      assert line[1..] == rest;
    }
  }

  lemma {:induction false} SymbolsOfMarks(marks: seq<Mark>, rest: string, quoted: bool)
    requires forall m :: m in marks ==> Typable(m, quoted)
    ensures Symbols(Typed(marks) + rest, quoted) == Literals(Meant(marks)) + Symbols(rest, quoted)
  {
    if marks == [] {
      ReadNothing(rest, quoted);
    } else {
      var m, tail := marks[0], marks[1..];
      SymbolsOfMarks(tail, rest, quoted);
      SymbolsOfMark(m, Typed(tail) + rest, quoted);
      ReadOn(TypedMark(m), MeantMark(m), Typed(tail), Meant(tail), rest, quoted);
    }
  }

  lemma SymbolsOfPiece(p: Piece, rest: string)
    requires TypablePiece(p)
    ensures Symbols(TypedPiece(p) + rest, false) == Literals(MeantPiece(p)) + Symbols(rest, false)
  {
    match p
    case Bare(m) => SymbolsOfMark(m, rest, false);
    case Quoted(marks) =>
      var line := TypedPiece(p) + rest;
      assert line[0] == '"' && line[1..] == Typed(marks) + ("\"" + rest);
      SymbolsOfMarks(marks, "\"" + rest, true);
      assert ("\"" + rest)[1..] == rest;
  }

  lemma {:induction false} SymbolsOfWord(pieces: seq<Piece>, rest: string)
    requires forall p :: p in pieces ==> TypablePiece(p)
    ensures Symbols(TypedWord(pieces) + rest, false) == Literals(MeantWord(pieces)) + Symbols(rest, false)
  {
    if pieces == [] {
      ReadNothing(rest, false);
    } else {
      var p, tail := pieces[0], pieces[1..];
      SymbolsOfWord(tail, rest);
      SymbolsOfPiece(p, TypedWord(tail) + rest);
      ReadOn(TypedPiece(p), MeantPiece(p), TypedWord(tail), MeantWord(tail), rest, false);
    }
  }

  lemma SymbolsOfBlank(gap: string, rest: string)
    requires Blanks(gap) && gap != ""
    ensures Symbols(gap + rest, false) == [Separator] + Symbols(gap[1..] + rest, false)
  {
    assert (gap + rest)[1..] == gap[1..] + rest;
  }

  lemma {:induction false} WordsAfterGap(word: string, gap: string, rest: string)
    requires Blanks(gap) && gap != ""
    ensures Words(Literals(word) + Symbols(gap + rest, false)) == Argument(word) + Words(Symbols(rest, false))
    decreases |gap|
  {
    var more := gap[1..] + rest;
    SymbolsOfBlank(gap, rest);
    FinishWord(word, Symbols(more, false));
    if |gap| == 1 {
      assert more == rest;
      assert Literals("") + Symbols(rest, false) == Symbols(rest, false);
    } else {
      WordsAfterGap("", gap[1..], rest);
    }
  }

  /** How a line may end: perhaps with a quote that is not closed, and perhaps with
      a backslash that nothing follows. */
  datatype Ending = Ending(unclosed: Option<seq<Mark>>, dangling: bool)

  function TypedEnding(e: Ending): string {
    (if e.unclosed.Some? then "\"" + Typed(e.unclosed.value) else "") + if e.dangling then "\\" else ""
  }

  function MeantEnding(e: Ending): string {
    if e.unclosed.Some? then Meant(e.unclosed.value) else ""
  }

  lemma SymbolsOfEnding(e: Ending)
    requires e.unclosed.Some? ==> forall m :: m in e.unclosed.value ==> Typable(m, true)
    ensures Symbols(TypedEnding(e), false) == Literals(MeantEnding(e))
  {
    var last := if e.dangling then "\\" else "";
    assert Symbols(last, false) == [] == Symbols(last, true);
    if e.unclosed.Some? {
      var marks := e.unclosed.value;
      assert TypedEnding(e)[1..] == Typed(marks) + last;
      SymbolsOfMarks(marks, last, true);
      assert Literals(Meant(marks)) + [] == Literals(Meant(marks));
    } else {
      assert TypedEnding(e) == last;
    }
  }

  lemma LiteralsPair(a: string, b: string)
    ensures Literals(a) + Literals(b) == Literals(a + b)
  {
  }

  lemma LastWord(last: seq<Piece>, e: Ending)
    requires forall p :: p in last ==> TypablePiece(p)
    requires e.unclosed.Some? ==> forall m :: m in e.unclosed.value ==> Typable(m, true)
    ensures Words(Symbols(TypedWord(last) + TypedEnding(e), false)) == Argument(MeantWord(last) + MeantEnding(e))
  {
    var word, end := MeantWord(last), MeantEnding(e);
    SymbolsOfWord(last, TypedEnding(e));
    SymbolsOfEnding(e);
    LiteralsPair(word, end);
    WordsAfter(word + end, []);
  }

  lemma WordInFront(pieces: seq<Piece>, gap: string, rest: string)
    requires gap != "" && Blanks(gap) && forall p :: p in pieces ==> TypablePiece(p)
    ensures Words(Symbols(TypedWord(pieces) + (gap + rest), false))
         == Argument(MeantWord(pieces)) + Words(Symbols(rest, false))
  {
    SymbolsOfWord(pieces, gap + rest);
    WordsAfterGap(MeantWord(pieces), gap, rest);
  }

  lemma LineAssociative(word: string, gap: string, more: string, tail: string)
    ensures (word + (gap + more)) + tail == word + (gap + (more + tail))
  {
  }

  /** Whatever mixture of bare, escaped and quoted characters each word is typed
      in, whatever spaces and tabs stand between the words, and however the line
      ends, the arguments are the words that hold a character, in order. */
  lemma {:induction false} ParseOfTypedLine(words: seq<seq<Piece>>, gaps: seq<string>, last: seq<Piece>, e: Ending)
    requires |words| == |gaps| && forall i :: 0 <= i < |gaps| ==> gaps[i] != "" && Blanks(gaps[i])
    requires forall i :: 0 <= i < |words| ==> forall p :: p in words[i] ==> TypablePiece(p)
    requires forall p :: p in last ==> TypablePiece(p)
    requires e.unclosed.Some? ==> forall m :: m in e.unclosed.value ==> Typable(m, true)
    ensures Words(Symbols(TypedLine(words, gaps) + (TypedWord(last) + TypedEnding(e)), false))
         == MeantLine(words) + Argument(MeantWord(last) + MeantEnding(e))
    decreases |words|
  {
    var tail := TypedWord(last) + TypedEnding(e);
    if words == [] {
      LastWord(last, e);
      assert TypedLine(words, gaps) + tail == tail;
    } else {
      var more := TypedLine(words[1..], gaps[1..]);
      ParseOfTypedLine(words[1..], gaps[1..], last, e);
      WordInFront(words[0], gaps[0], more + tail);
      LineAssociative(TypedWord(words[0]), gaps[0], more, tail);
      Associative(Argument(MeantWord(words[0])), MeantLine(words[1..]), Argument(MeantWord(last) + MeantEnding(e)));
    }
  }

  /** A word without blanks, quotes and backslashes needs no quoting. */
  lemma {:induction false} BareWord(word: string) returns (pieces: seq<Piece>)
    requires forall i :: 0 <= i < |word| ==> word[i] !in {' ', '\t', '"', '\\'}
    ensures TypedWord(pieces) == word == MeantWord(pieces)
    ensures forall p :: p in pieces ==> TypablePiece(p)
  {
    if word == "" {
      pieces := [];
    } else {
      var rest := BareWord(word[1..]);
      pieces := [Bare(Mark(word[0], false))] + rest;
      assert pieces[1..] == rest;
    }
  }
}
