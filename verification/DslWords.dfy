/** The words and marks of the definition language, spelled out: what reads, what ends a text, what is refused. */
module DslWords {
  import opened Values
  import opened Model
  import opened DslLexer
  import opened DslParser
  import opened DslLengths
  import opened DslRoundTrip

  // ---- marks ---------------------------------------------------------------------------

  /** Each mark of the language alone is one token, and so are its four pairs; any other sign is an error. */
  lemma MarksRead(s: string, ch: char)
    ensures s == [ch] && ch in {':', ',', '[', ']', '(', ')', '=', '.', '*', '<', '>', '+', '-', '/'} ==>
      Tokenize(s) == Lexed([Punct(s)], true)
    ensures s in {"->", "<=", ">=", "!="} ==> Tokenize(s) == Lexed([Punct(s)], true)
    ensures s == [ch] && ch in {'!', '?', ';', '%', '&', '|', '@', '^', '~', '\\', '`', '{', '}', '\t'} ==>
      !Tokenize(s).clean
  {
    hide *;
    if s == [ch] && ch in {':', ',', '[', ']', '(', ')', '=', '.', '*', '<', '>', '+', '-', '/'} {
      MarkIsToken(s, ch);
      OneTokenLine(s, Punct(s));
    }
    if s in {"->", "<=", ">=", "!="} {
      PairIsToken(s);
      OneTokenLine(s, Punct(s));
    }
    if s == [ch] && ch in {'!', '?', ';', '%', '&', '|', '@', '^', '~', '\\', '`', '{', '}', '\t'} {
      SignIsStray(s, ch);
    }
  }

  lemma MarkIsToken(s: string, ch: char)
    requires s == [ch] && ch in {':', ',', '[', ']', '(', ')', '=', '.', '*', '<', '>', '+', '-', '/'}
    ensures LexOne(s) == Token(Punct(s), |s|)
  {
  }

  lemma PairIsToken(s: string)
    requires s in {"->", "<=", ">=", "!="}
    ensures LexOne(s) == Token(Punct(s), |s|)
  {
    assert |s| == 2 && s[..2] == s;
  }

  lemma SignIsStray(s: string, ch: char)
    requires s == [ch] && ch in {'!', '?', ';', '%', '&', '|', '@', '^', '~', '\\', '`', '{', '}', '\t'}
    ensures !Tokenize(s).clean
  {
    assert LexOne(s).Stray?;
  }

  /** A number sign ends the line for the lexer, and a quote that is not closed is an error. */
  lemma LineEnds(s: string, rest: string)
    requires Plain(s)
    ensures Tokenize(s + " #" + rest) == Lexed(Tokenize(s).toks, true)
    ensures '"' !in rest ==> Tokenize(s + " \"" + rest) == Lexed(Tokenize(s).toks, false)
  {
    hide Plain;
    PlainReads(s);
    ReadsAt(s, Tokenize(s).toks, false, " #" + rest);
    ReadsAt(s, Tokenize(s).toks, false, " \"" + rest);
    assert s + " #" + rest == s + (" #" + rest) && s + " \"" + rest == s + (" \"" + rest);
    Tails(rest);
    hide Tokenize;
    assert Tokenize(s).toks + [] == Tokenize(s).toks;
  }

  lemma Tails(rest: string)
    ensures Tokenize(" #" + rest) == Lexed([], true)
    ensures '"' !in rest ==> Tokenize(" \"" + rest) == Lexed([], false)
  {
    assert (" #" + rest)[1..] == "#" + rest && (" \"" + rest)[1..] == "\"" + rest;
    assert Tokenize("#" + rest) == Lexed([], true);
    if '"' !in rest {
      assert ("\"" + rest)[1..] == rest;
      assert QuoteRun(rest) == |rest|;
      assert LexOne("\"" + rest).Unterminated?;
    }
  }

  predicate NameChar(ch: char) {
    'a' <= ch <= 'z' || 'A' <= ch <= 'Z' || '0' <= ch <= '9' || ch == '_' || ch == '$'
  }

  /** Letters, digits, underscores and dollar signs are one name, unless a digit comes first; digits, dots and
      the unit after them are one number. */
  lemma NamesAndNumbersRead(name: string, digits: string, unit: string)
    requires name != "" && !('0' <= name[0] <= '9') && forall ch <- name :: NameChar(ch)
    requires digits != "" && '0' <= digits[0] <= '9' && forall ch <- digits :: '0' <= ch <= '9' || ch == '.'
    requires forall ch <- unit :: 'a' <= ch <= 'z' || 'A' <= ch <= 'Z'
    ensures Tokenize(name) == Lexed([Ident(name)], true)
    ensures Tokenize(digits + unit) == Lexed([Numeral(digits + unit)], true)
  {
    assert IsName(name) by {
      assert name[0] in name;
    }
    hide IsName;
    NameReads(name);
    ReadsAlone(name, [Ident(name)], false);
    NumberWithUnit(digits, unit);
    hide LexOne, Tokenize;
    OneTokenLine(digits + unit, Numeral(digits + unit));
  }

  lemma NumberWithUnit(digits: string, unit: string)
    requires digits != "" && '0' <= digits[0] <= '9' && forall ch <- digits :: '0' <= ch <= '9' || ch == '.'
    requires forall ch <- unit :: 'a' <= ch <= 'z' || 'A' <= ch <= 'Z'
    ensures LexOne(digits + unit) == Token(Numeral(digits + unit), |digits + unit|)
  {
    var s := digits + unit;
    Runs(digits, unit);
    hide LexOne, DigitRun, LetterRun;
    assert s[0] == digits[0] && IsDigit(s[0]);
    NumberTurn(s, |digits|, |unit|);
    assert s[..|digits| + |unit|] == s;
  }

  lemma Runs(digits: string, unit: string)
    requires digits != "" && forall ch <- digits :: '0' <= ch <= '9' || ch == '.'
    requires forall ch <- unit :: 'a' <= ch <= 'z' || 'A' <= ch <= 'Z'
    ensures DigitRun(digits + unit) == |digits| && LetterRun((digits + unit)[|digits|..]) == |unit|
  {
    hide DigitRun, LetterRun;
    var s := digits + unit;
    assert forall i :: 0 <= i < |digits| ==> s[i] == digits[i] && digits[i] in digits;
    assert forall i :: 0 <= i < |unit| ==> unit[i] in unit && s[|digits| + i] == unit[i];
    DigitRunStops(s, |digits|);
    assert s[|digits|..] == unit;
    LetterRunStops(unit, |unit|);
  }

  lemma OneTokenLine(s: string, t: Tok)
    requires s != "" && LexOne(s) == Token(t, |s|)
    ensures Tokenize(s) == Lexed([t], true)
  {
    hide LexOne;
    assert s[|s|..] == "" && Tokenize("") == Lexed([], true);
    assert Tokenize(s) == Prepend(t, Tokenize(s[|s|..]));
  }

  // ---- types -----------------------------------------------------------------------------

  predicate ScalarName(text: string) {
    text in {"string", "text", "int", "float", "money", "bool", "date", "datetime", "file", "email", "url", "phone",
             "duration", "percent", "color", "decimal", "json", "serial"}
  }

  /** A field of a scalar type is declared by its name, a colon and the type's name. */
  lemma ScalarFieldReads(name: string, scalar: string)
    requires IsName(name) && ScalarName(scalar)
    ensures FieldLine(Tokenize(name + ": " + scalar).toks) ==
      Some(Parsed(FieldDecl(name, Scalar(scalar), false, false, "", "", "", "", ""), true))
  {
    var f := FieldSpec(name, scalar, [], "", false, false, "", "", "", "");
    assert IsScalar(scalar);
    ScalarSpec(f);
    hide IsName, Tokenize, FieldLine, LineCloses, FieldOk, DeclOf, RenderField;
    FieldRoundTrip(f, []);
  }

  lemma ScalarSpec(f: FieldSpec)
    requires IsName(f.name) && ScalarName(f.ty)
    requires f == FieldSpec(f.name, f.ty, [], "", false, false, "", "", "", "")
    ensures FieldOk(f, []) && LineCloses(f) && RenderField(f) == f.name + ": " + f.ty
    ensures DeclOf(f) == FieldDecl(f.name, Scalar(f.ty), false, false, "", "", "", "", "")
  {
    hide IsName;
    assert RenderType(f) == f.ty;
    var head := f.name + ": " + f.ty;
    assert JoinWith([head], " ") == head;
    assert [head] + [] + [] + [] + [] + [] + [] == [head];
    NoText();
  }

  /** Any other word names no type. */
  lemma OtherWordIsNoType(word: string, rest: seq<Tok>)
    requires !ScalarName(word) && word !in {"enum", "ref", "mdg", "array"}
    ensures ParseType([Ident(word)] + rest).None?
  {
  }

  // ---- modifiers ----------------------------------------------------------------------------

  predicate Word(text: string) {
    text in {"required", "unique", "default", "computed", "on_delete", "format", "label"}
  }

  /** No keyword and no bracket among the tokens. */
  predicate Wordless(toks: seq<Tok>) {
    forall t <- toks :: t.text !in {"(", "[", ")", "]"} && (t.Ident? ==> !Word(t.text))
  }

  lemma {:induction false} WordStops(toks: seq<Tok>, word: string, rest: seq<Tok>)
    requires Wordless(toks) && Word(word)
    ensures UntilKeyword(toks + ([Ident(word)] + rest), 0) == |toks|
  {
    var all := toks + ([Ident(word)] + rest);
    if toks == [] {
      assert all == [Ident(word)] + rest;
    } else {
      assert all[0] == toks[0] && toks[0] in toks && all[1..] == toks[1..] + ([Ident(word)] + rest);
      assert forall t <- toks[1..] :: t in toks;
      WordStops(toks[1..], word, rest);
    }
  }

  /** A default ends in front of each of the seven keywords, and is what stands before it. */
  lemma WordEndsText(toks: seq<Tok>, word: string, rest: seq<Tok>, g: FieldDecl)
    requires Wordless(toks) && Word(word)
    ensures Modifiers([Ident("default"), Punct("=")] + toks + ([Ident(word)] + rest), g) ==
      Modifiers([Ident(word)] + rest, g.(default := TextOf(toks)))
    ensures Modifiers([Ident("computed"), Punct("=")] + toks + ([Ident(word)] + rest), g) ==
      Modifiers([Ident(word)] + rest, g.(computed := TextOf(toks)))
  {
    hide Modifiers, TextOf, UntilKeyword, Wordless, Word;
    WordStops(toks, word, rest);
    ValuedStep("default", toks, [Ident(word)] + rest, g);
    ValuedStep("computed", toks, [Ident(word)] + rest, g);
  }

  /** But not inside brackets: there a keyword is text like any other. */
  lemma BracketsHideWords(word: string, g: FieldDecl)
    requires IsName(word)
    ensures Modifiers([Ident("default"), Punct("="), Punct("("), Ident(word), Punct(")")], g) ==
      Parsed(g.(default := "( " + word + " )"), true)
  {
    var toks := [Punct("("), Ident(word), Punct(")")];
    InBrackets(word);
    TextOfThree(word);
    hide Modifiers, TextOf, UntilKeyword;
    LastStep("default", toks, g);
    assert [Ident("default"), Punct("=")] + toks ==
      [Ident("default"), Punct("="), Punct("("), Ident(word), Punct(")")];
  }

  lemma InBrackets(word: string)
    requires IsName(word)
    ensures UntilKeyword([Punct("("), Ident(word), Punct(")")], 0) == 3
  {
    var toks := [Punct("("), Ident(word), Punct(")")];
    assert word[0] in word && word !in {"(", "[", ")", "]"};
    assert toks[1..] == [Ident(word), Punct(")")] && toks[1..][1..] == [Punct(")")] && toks[1..][1..][1..] == [];
    assert UntilKeyword([Punct(")")], 1) == 1;
    assert Depth(Ident(word), 1) == 1 && UntilKeyword([Ident(word), Punct(")")], 1) == 2;
    assert Depth(Punct("("), 0) == 1;
  }

  lemma TextOfThree(word: string)
    ensures TextOf([Punct("("), Ident(word), Punct(")")]) == "( " + word + " )"
  {
    assert [Punct("("), Ident(word), Punct(")")][1..] == [Ident(word), Punct(")")];
    assert [Ident(word), Punct(")")][1..] == [Punct(")")];
    assert TextOf([Punct(")")]) == ")" && TextOf([Ident(word), Punct(")")]) == word + [' '] + ")";
    assert TextOf([Punct("("), Ident(word), Punct(")")]) == "(" + [' '] + (word + [' '] + ")");
  }

  /** on_delete takes three words and reports any other. */
  lemma OnDeleteWords(word: string, g: FieldDecl)
    requires !Word(word)
    ensures Modifiers([Ident("on_delete"), Punct("="), Ident(word)], g).decl == g.(onDelete := word)
    ensures Modifiers([Ident("on_delete"), Punct("="), Ident(word)], g).clean <==>
      word in {"restrict", "set_null", "cascade"}
  {
    var toks := [Ident(word)];
    assert toks[1..] == [] && UntilKeyword(toks, 0) == 1 && TextOf(toks) == word;
    hide Modifiers;
    LastStep("on_delete", toks, g);
    assert [Ident("on_delete"), Punct("=")] + toks == [Ident("on_delete"), Punct("="), Ident(word)];
  }

  /** A label is its quoted text. */
  lemma LabelReads(text: string, g: FieldDecl)
    requires '"' !in text
    ensures Modifiers([Ident("label"), Punct("="), Tok.Str(text)], g) == Parsed(g.(caption := text), true)
  {
    var toks := [Tok.Str(text)];
    assert toks[1..] == [] && UntilKeyword(toks, 0) == 1;
    TrimQuoted(text);
    hide Modifiers;
    LastStep("label", toks, g);
    assert [Ident("label"), Punct("=")] + toks == [Ident("label"), Punct("="), Tok.Str(text)];
  }

  // ---- clauses -------------------------------------------------------------------------------

  predicate StopWord(text: string) {
    text in {"assignee", "requires", "label"}
  }

  /** A guard ends in front of each of the three clause keywords, and nowhere before. */
  lemma {:induction false} StopWordStops(toks: seq<Tok>, word: string, rest: seq<Tok>)
    requires StopWord(word) && forall t <- toks :: t.Ident? ==> !StopWord(t.text)
    ensures UntilStop(toks + ([Ident(word)] + rest)) == |toks|
  {
    var all := toks + ([Ident(word)] + rest);
    if toks == [] {
      assert all == [Ident(word)] + rest;
    } else {
      assert all[0] == toks[0] && toks[0] in toks && all[1..] == toks[1..] + ([Ident(word)] + rest);
      assert forall t <- toks[1..] :: t in toks;
      StopWordStops(toks[1..], word, rest);
    }
  }

  lemma WordEndsGuard(toks: seq<Tok>, word: string, rest: seq<Tok>, g: TransitionDecl)
    requires StopWord(word) && forall t <- toks :: t.Ident? ==> !StopWord(t.text)
    ensures Clauses([Ident("when")] + toks + ([Ident(word)] + rest), g) ==
      Clauses([Ident(word)] + rest, g.(when := TextOf(toks)))
  {
    hide TextOf, UntilStop;
    StopWordStops(toks, word, rest);
    var all := [Ident("when")] + toks + ([Ident(word)] + rest);
    assert all[1..] == toks + ([Ident(word)] + rest);
    assert all[1..1 + |toks|] == toks && all[1 + |toks|..] == [Ident(word)] + rest;
    hide Clauses;
    ClausesTurn(all, g);
    assert DslLengths.Turn(all, g) == Some((1 + |toks|, g.(when := TextOf(toks))));
  }

  /** A transition's label is its quoted text. */
  lemma ClauseLabelReads(text: string, g: TransitionDecl)
    ensures Clauses([Ident("label"), Punct("="), Tok.Str(text)], g) == Parsed(g.(caption := text), true)
  {
    var all := [Ident("label"), Punct("="), Tok.Str(text)];
    assert all[3..] == [];
  }
}
