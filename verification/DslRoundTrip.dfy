/** Rendered lines read back: tokenizing and parsing what the composer wrote gives the specification again.

    First each piece of rendered text is shown to read as its tokens, next to whatever follows it; then the
    token list of a whole line is shown to parse to the fields of the specification, one modifier or clause
    at a time. */
module DslRoundTrip {
  import opened Values
  import opened Model
  import opened DslLexer
  import opened DslParser
  import opened DslLengths

  // ---- reading pieces of a line -----------------------------------------------------------

  /** A character no token runs into, and that is no second character of one. */
  predicate Breaks(ch: char) {
    ch == ' ' || ch == ':' || ch == ',' || ch == '[' || ch == ']' || ch == '(' || ch == ')'
  }

  /** The text reads as these tokens in front of any text; unless closed, in front of any that starts with a break. */
  ghost predicate Reads(s: string, toks: seq<Tok>, closed: bool) {
    forall rest: string :: closed || rest == "" || Breaks(rest[0]) ==>
      Tokenize(s + rest) == Lexed(toks + Tokenize(rest).toks, Tokenize(rest).clean)
  }

  lemma ReadsAlone(s: string, toks: seq<Tok>, closed: bool)
    requires Reads(s, toks, closed)
    ensures Tokenize(s) == Lexed(toks, true)
  {
    assert s + "" == s && toks + [] == toks;
    assert Tokenize(s + "") == Lexed(toks + Tokenize("").toks, Tokenize("").clean);
  }

  /** The reading at one continuation. */
  lemma ReadsAt(s: string, toks: seq<Tok>, closed: bool, rest: string)
    requires Reads(s, toks, closed) && (closed || rest == "" || Breaks(rest[0]))
    ensures Tokenize(s + rest) == Lexed(toks + Tokenize(rest).toks, Tokenize(rest).clean)
  {
  }

  lemma Regroup<T>(a: seq<T>, b: seq<T>, c: seq<T>)
    ensures (a + b) + c == a + (b + c)
  {
  }

  lemma Follow(s: string, toks: seq<Tok>, closed: bool, t: string, more: seq<Tok>, end: bool)
    requires Reads(s, toks, closed) && Reads(t, more, end)
    requires t != "" && (closed || Breaks(t[0]))
    ensures Reads(s + t, toks + more, end)
  {
    forall rest: string | end || rest == "" || Breaks(rest[0])
      ensures Tokenize((s + t) + rest) == Lexed((toks + more) + Tokenize(rest).toks, Tokenize(rest).clean)
    {
      hide Reads, Tokenize;
      Regroup(s, t, rest);
      Regroup(toks, more, Tokenize(rest).toks);
      assert (t + rest)[0] == t[0];
      ReadsAt(t, more, end, rest);
      ReadsAt(s, toks, closed, t + rest);
    }
  }

  lemma OneToken(s: string, t: Tok, rest: string)
    requires s != "" && LexOne(s + rest) == Token(t, |s|)
    ensures Tokenize(s + rest) == Lexed([t] + Tokenize(rest).toks, Tokenize(rest).clean)
  {
    hide LexOne;
    assert (s + rest)[|s|..] == rest;
  }

  /** A name: starts with an identifier character that is no digit. */
  predicate IsName(s: string) {
    s != "" && !IsDigit(s[0]) && forall ch <- s :: IsIdentRune(ch)
  }

  lemma {:induction false} IdentRunStops(s: string, k: nat)
    requires k <= |s| && (forall i :: 0 <= i < k ==> IsIdentRune(s[i])) && (k < |s| ==> !IsIdentRune(s[k]))
    ensures IdentRun(s) == k
  {
    if k > 0 {
      IdentRunStops(s[1..], k - 1);
    }
  }

  /** A name is one token in front of anything but more of it. */
  lemma NameThen(name: string, rest: string)
    requires IsName(name) && (rest == "" || !IsIdentRune(rest[0]))
    ensures Tokenize(name + rest) == Lexed([Ident(name)] + Tokenize(rest).toks, Tokenize(rest).clean)
  {
    var s := name + rest;
    assert forall i :: 0 <= i < |name| ==> s[i] == name[i] && name[i] in name;
    IdentRunStops(s, |name|);
    assert s[..|name|] == name && s[0] == name[0];
    OneToken(name, Ident(name), rest);
  }

  lemma NameReads(name: string)
    requires IsName(name)
    ensures Reads(name, [Ident(name)], false)
  {
    hide Tokenize, IsName;
    forall rest: string | rest == "" || Breaks(rest[0])
      ensures Tokenize(name + rest) == Lexed([Ident(name)] + Tokenize(rest).toks, Tokenize(rest).clean)
    {
      NameThen(name, rest);
    }
  }

  predicate LowerWord(s: string) {
    s != "" && forall ch <- s :: 'a' <= ch <= 'z' || ch == '_'
  }

  lemma WordReads(w: string)
    requires LowerWord(w)
    ensures IsName(w) && Reads(w, [Ident(w)], false)
  {
    assert w[0] in w;
    NameReads(w);
  }

  predicate SelfMark(ch: char) {
    ch == ':' || ch == ',' || ch == '[' || ch == ']' || ch == '(' || ch == ')' || ch == '=' || ch == '.'
  }

  lemma MarkTurn(ch: char, rest: string)
    requires SelfMark(ch)
    ensures LexOne([ch] + rest) == Token(Punct([ch]), 1)
  {
    var s := [ch] + rest;
    assert s[0] == ch && !IsIdentRune(ch);
  }

  lemma MarkReads(ch: char)
    requires SelfMark(ch)
    ensures Reads([ch], [Punct([ch])], true)
  {
    hide Tokenize, LexOne;
    forall rest: string ensures Tokenize([ch] + rest) ==
      Lexed([Punct([ch])] + Tokenize(rest).toks, Tokenize(rest).clean) {
      MarkTurn(ch, rest);
      OneToken([ch], Punct([ch]), rest);
    }
  }

  lemma BlankReads()
    ensures Reads([' '], [], true)
  {
    forall rest: string ensures Tokenize([' '] + rest) == Lexed([] + Tokenize(rest).toks, Tokenize(rest).clean) {
      assert ([' '] + rest)[1..] == rest && [] + Tokenize(rest).toks == Tokenize(rest).toks;
    }
  }

  lemma AfterBlank(s: string, toks: seq<Tok>, closed: bool)
    requires s != "" && Reads(s, toks, closed)
    ensures Reads([' '] + s, toks, closed)
  {
    hide Reads;
    BlankReads();
    Follow([' '], [], true, s, toks, closed);
    Units("", toks, []);
  }

  lemma ArrowReads()
    ensures Reads(['-', '>'], [Punct("->")], true)
  {
    hide Tokenize;
    forall rest: string ensures Tokenize(['-', '>'] + rest) ==
      Lexed([Punct("->")] + Tokenize(rest).toks, Tokenize(rest).clean) {
      OneToken(['-', '>'], Punct("->"), rest);
    }
  }

  lemma QuotedReads(text: string)
    requires '"' !in text
    ensures Reads(['"'] + text + ['"'], [Tok.Str(text)], true)
  {
    hide Tokenize;
    var q := ['"'] + text + ['"'];
    forall rest: string ensures Tokenize(q + rest) ==
      Lexed([Tok.Str(text)] + Tokenize(rest).toks, Tokenize(rest).clean) {
      var s := q + rest;
      assert forall i :: 0 <= i < |text| ==> s[1..][i] == text[i];
      QuoteRunStops(s[1..], |text|);
      assert s[1..1 + |text|] == text;
      OneToken(q, Tok.Str(text), rest);
    }
  }

  lemma KeyThen(key: string, rest: string)
    requires IsName(key)
    ensures Tokenize((key + ['=']) + rest) ==
      Lexed([Ident(key), Punct(['='])] + Tokenize(rest).toks, Tokenize(rest).clean)
  {
    hide Tokenize, Reads, IsName;
    var tail := ['='] + rest;
    MarkReads('=');
    ReadsAt(['='], [Punct(['='])], true, rest);
    assert tail[0] == '=' && !IsIdentRune('=');
    NameThen(key, tail);
    Regroup(key, ['='], rest);
    Regroup([Ident(key)], [Punct(['='])], Tokenize(rest).toks);
    assert [Ident(key)] + [Punct(['='])] == [Ident(key), Punct(['='])];
  }

  /** key= reads as two tokens in front of anything. */
  lemma KeyReads(key: string)
    requires IsName(key)
    ensures Reads(key + ['='], [Ident(key), Punct(['='])], true)
  {
    forall rest: string
      ensures Tokenize((key + ['=']) + rest) ==
        Lexed([Ident(key), Punct(['='])] + Tokenize(rest).toks, Tokenize(rest).clean)
    {
      hide Tokenize;
      KeyThen(key, rest);
    }
  }

  // ---- free text ----------------------------------------------------------------------------

  /** The lexer reads blanks and tokens only: no stray character, no comment, no open quote. */
  predicate Plain(s: string)
    decreases |s|
  {
    if s == "" then true
    else
      var turn := LexOne(s);
      (turn.Blank? || turn.Token?) && Plain(s[if turn.Token? then turn.size else 1..])
  }

  predicate FreeText(s: string) {
    Plain(s) && Tokenize(s).toks != []
  }

  /** What the lexer sees first is the same whatever follows after a break. */
  lemma SameTurn(s: string, rest: string)
    requires s != "" && (LexOne(s).Blank? || LexOne(s).Token?) && (rest == "" || Breaks(rest[0]))
    ensures LexOne(s + rest) == LexOne(s)
  {
    var t := s + rest;
    assert t[0] == s[0] && s[0] in s;
    if s[0] == '"' {
      var k := QuoteRun(s[1..]);
      assert forall i :: 0 <= i < |s| - 1 ==> t[1..][i] == s[1..][i];
      QuoteRunStops(t[1..], k);
      assert t[1..1 + k] == s[1..1 + k];
    } else if IsDigit(s[0]) {
      DigitsSame(s, rest);
    } else if IsIdentRune(s[0]) {
      var k := IdentRun(s);
      assert forall i :: 0 <= i < |s| ==> t[i] == s[i];
      IdentRunStops(t, k);
      assert t[..k] == s[..k];
    } else {
      assert |s| > 1 ==> t[1] == s[1];
      assert |s| == 1 && rest != "" ==> t[1] == rest[0];
      assert |s| > 1 ==> t[..2] == s[..2];
    }
  }

  lemma NumberTurn(s: string, k: nat, n: nat)
    requires s != "" && IsDigit(s[0]) && k == DigitRun(s) && n == LetterRun(s[k..])
    ensures LexOne(s) == Token(Numeral(s[..k + n]), k + n)
  {
  }

  lemma DigitsSame(s: string, rest: string)
    requires s != "" && IsDigit(s[0]) && (rest == "" || Breaks(rest[0]))
    ensures LexOne(s + rest) == LexOne(s)
  {
    hide LexOne;
    var t := s + rest;
    var k := DigitRun(s);
    var n := LetterRun(s[k..]);
    assert forall i :: 0 <= i < |s| ==> t[i] == s[i];
    assert rest != "" ==> t[|s|] == rest[0];
    DigitRunStops(t, k);
    assert t[k..] == s[k..] + rest;
    LettersSame(s[k..], rest);
    NumberTurn(s, k, n);
    NumberTurn(t, k, n);
    assert t[..k + n] == s[..k + n];
  }

  lemma LettersSame(s: string, rest: string)
    requires rest == "" || Breaks(rest[0])
    ensures LetterRun(s + rest) == LetterRun(s)
  {
    var n := LetterRun(s);
    assert forall i :: 0 <= i < |s| ==> (s + rest)[i] == s[i];
    LetterRunStops(s + rest, n);
  }

  lemma {:induction false} DigitRunStops(s: string, k: nat)
    requires k <= |s| && (forall i :: 0 <= i < k ==> IsDigit(s[i]) || s[i] == '.')
    requires k < |s| ==> !IsDigit(s[k]) && s[k] != '.'
    ensures DigitRun(s) == k
  {
    if k > 0 {
      DigitRunStops(s[1..], k - 1);
    }
  }

  lemma {:induction false} LetterRunStops(s: string, k: nat)
    requires k <= |s| && (forall i :: 0 <= i < k ==> IsLetter(s[i])) && (k < |s| ==> !IsLetter(s[k]))
    ensures LetterRun(s) == k
  {
    if k > 0 {
      LetterRunStops(s[1..], k - 1);
    }
  }

  lemma {:induction false} PlainThen(s: string, rest: string)
    requires Plain(s) && (rest == "" || Breaks(rest[0]))
    ensures Tokenize(s + rest) == Lexed(Tokenize(s).toks + Tokenize(rest).toks, Tokenize(rest).clean)
    decreases |s|
  {
    hide LexOne;
    if s == "" {
      assert s + rest == rest && [] + Tokenize(rest).toks == Tokenize(rest).toks;
    } else {
      SameTurn(s, rest);
      var turn := LexOne(s);
      var k := if turn.Token? then turn.size else 1;
      assert (s + rest)[k..] == s[k..] + rest;
      PlainThen(s[k..], rest);
      if turn.Token? {
        assert [turn.tok] + (Tokenize(s[k..]).toks + Tokenize(rest).toks) ==
          ([turn.tok] + Tokenize(s[k..]).toks) + Tokenize(rest).toks;
      }
    }
  }

  lemma PlainReads(s: string)
    requires Plain(s)
    ensures Reads(s, Tokenize(s).toks, false)
  {
    hide Tokenize, Plain;
    forall rest: string | rest == "" || Breaks(rest[0])
      ensures Tokenize(s + rest) == Lexed(Tokenize(s).toks + Tokenize(rest).toks, Tokenize(rest).clean)
    {
      PlainThen(s, rest);
    }
  }

  // ---- types -----------------------------------------------------------------------------------

  function NameToks(names: seq<string>): seq<Tok> {
    if names == [] then []
    else if |names| == 1 then [Ident(names[0])]
    else [Ident(names[0]), Punct(",")] + NameToks(names[1..])
  }

  lemma {:induction false} NamesRead(names: seq<string>)
    requires names != [] && forall n <- names :: IsName(n)
    ensures JoinWith(names, ", ") != "" && Reads(JoinWith(names, ", "), NameToks(names), false)
    decreases |names|
  {
    hide Reads, IsName;
    assert names[0] in names;
    NameReads(names[0]);
    NameNotEmpty(names[0]);
    if |names| > 1 {
      var rest := JoinWith(names[1..], ", ");
      NamesRead(names[1..]);
      MarkReads(',');
      BlankReads();
      Follow([' '], [], true, rest, NameToks(names[1..]), false);
      Follow([','], [Punct([','])], true, [' '] + rest, [] + NameToks(names[1..]), false);
      Follow(names[0], [Ident(names[0])], false, [','] + ([' '] + rest), [Punct([','])] + ([] + NameToks(names[1..])),
        false);
      CommaGroup(names[0], rest, NameToks(names[1..]));
    }
  }

  lemma CommaGroup(name: string, rest: string, toks: seq<Tok>)
    ensures name + ([','] + ([' '] + rest)) == name + ", " + rest
    ensures [Ident(name)] + ([Punct([','])] + ([] + toks)) == [Ident(name), Punct(",")] + toks
  {
    assert [','] == ",";
  }

  lemma NameNotEmpty(name: string)
    requires IsName(name)
    ensures name != "" && !Breaks(name[0])
  {
    assert name[0] in name;
  }

  /** key[inner] */
  function Bracketed(key: string, inner: string): string {
    key + ['['] + inner + [']']
  }

  function BracketToks(key: string, inner: seq<Tok>): seq<Tok> {
    [Ident(key), Punct("[")] + inner + [Punct("]")]
  }

  lemma BracketsRead(key: string, inner: string, toks: seq<Tok>, closed: bool)
    requires IsName(key) && inner != "" && Reads(inner, toks, closed)
    ensures Reads(Bracketed(key, inner), BracketToks(key, toks), true)
  {
    hide Reads, IsName;
    NameReads(key);
    MarkReads('[');
    MarkReads(']');
    Follow(inner, toks, closed, [']'], [Punct([']'])], true);
    Follow(['['], [Punct(['['])], true, inner + [']'], toks + [Punct([']'])], true);
    Follow(key, [Ident(key)], false, ['['] + (inner + [']']), [Punct(['['])] + (toks + [Punct([']'])]), true);
    assert key + (['['] + (inner + [']'])) == Bracketed(key, inner);
    assert ['['] == "[" && [']'] == "]";
    assert [Ident(key)] + ([Punct(['['])] + (toks + [Punct([']'])])) == BracketToks(key, toks);
  }

  /** A dotted name as its parts. */
  predicate IsDotted(parts: seq<string>) {
    parts != [] && forall p <- parts :: IsName(p)
  }

  function DotToks(parts: seq<string>): seq<Tok> {
    if parts == [] then []
    else if |parts| == 1 then [Ident(parts[0])]
    else [Ident(parts[0]), Punct(".")] + DotToks(parts[1..])
  }

  lemma {:induction false} DottedReads(parts: seq<string>)
    requires IsDotted(parts)
    ensures JoinWith(parts, ".") != "" && Reads(JoinWith(parts, "."), DotToks(parts), false)
    decreases |parts|
  {
    hide Tokenize, IsName;
    assert parts[0] in parts;
    NameReads(parts[0]);
    NameNotEmpty(parts[0]);
    if |parts| > 1 {
      DottedReads(parts[1..]);
      var s, tail := JoinWith(parts, "."), JoinWith(parts[1..], ".");
      forall rest: string | rest == "" || Breaks(rest[0])
        ensures Tokenize(s + rest) == Lexed(DotToks(parts) + Tokenize(rest).toks, Tokenize(rest).clean)
      {
        DotThen(parts, tail, rest);
      }
    }
  }

  lemma DotThen(parts: seq<string>, tail: string, rest: string)
    requires |parts| > 1 && IsName(parts[0]) && tail == JoinWith(parts[1..], ".")
    requires Tokenize(tail + rest) == Lexed(DotToks(parts[1..]) + Tokenize(rest).toks, Tokenize(rest).clean)
    ensures Tokenize(JoinWith(parts, ".") + rest) == Lexed(DotToks(parts) + Tokenize(rest).toks, Tokenize(rest).clean)
  {
    hide Tokenize, IsName, Reads;
    var u, toks := tail + rest, DotToks(parts[1..]);
    MarkReads('.');
    ReadsAt(['.'], [Punct(['.'])], true, u);
    NameThen(parts[0], ['.'] + u);
    DotText(parts[0], tail, rest);
    DotGroup(parts[0], toks, Tokenize(rest).toks);
  }

  lemma DotText(head: string, tail: string, rest: string)
    ensures (head + "." + tail) + rest == head + (['.'] + (tail + rest))
  {
  }

  lemma DotGroup(head: string, toks: seq<Tok>, rest: seq<Tok>)
    ensures [Ident(head)] + ([Punct(['.'])] + (toks + rest)) == ([Ident(head), Punct(".")] + toks) + rest
  {
    assert ['.'] == ".";
  }

  predicate TypeOk(f: FieldSpec, parts: seq<string>) {
    match f.ty
    case "enum" => f.values != [] && forall v <- f.values :: IsName(v)
    case "multiselect" => f.values != [] && forall v <- f.values :: IsName(v)
    case "tags" => true
    case "array_file" => true
    case "ref" => IsDotted(parts) && f.ref == JoinWith(parts, ".")
    case "array_ref" => IsDotted(parts) && f.ref == JoinWith(parts, ".")
    case _ => IsScalar(f.ty)
  }

  /** The type a specification stands for. */
  function TypeOf(f: FieldSpec): FieldType {
    match f.ty
    case "enum" => Enum(f.values)
    case "multiselect" => MultiEnum(f.values)
    case "tags" => Tags
    case "array_file" => ArrayFile
    case "ref" => Ref(f.ref)
    case "array_ref" => ArrayRef(f.ref)
    case _ => Scalar(f.ty)
  }

  function TypeToks(f: FieldSpec, parts: seq<string>): seq<Tok> {
    match f.ty
    case "enum" => BracketToks("enum", NameToks(f.values))
    case "multiselect" => BracketToks("array", BracketToks("enum", NameToks(f.values)))
    case "tags" => BracketToks("array", [Ident("string")])
    case "array_file" => BracketToks("array", [Ident("file")])
    case "ref" => BracketToks("ref", DotToks(parts))
    case "array_ref" => BracketToks("array", BracketToks("ref", DotToks(parts)))
    case _ => [Ident(f.ty)]
  }

  lemma Weaken(s: string, toks: seq<Tok>)
    requires Reads(s, toks, true)
    ensures Reads(s, toks, false)
  {
    hide Tokenize;
  }

  lemma TypeWords()
    ensures LowerWord("enum") && LowerWord("array") && LowerWord("ref") && LowerWord("string") && LowerWord("file")
  {
  }

  lemma ScalarWord(text: string)
    requires IsScalar(text)
    ensures LowerWord(text)
  {
  }

  lemma TypeReads(f: FieldSpec, parts: seq<string>)
    requires TypeOk(f, parts)
    ensures RenderType(f) != "" && Reads(RenderType(f), TypeToks(f, parts), false)
  {
    hide Reads, IsName, IsScalar, IsDotted, JoinWith, NameToks, DotToks, BracketToks;
    match f.ty {
      case "enum" => EnumReads(f.values);
      case "multiselect" => MultiReads(f.values);
      case "tags" =>
        WordArrayReads("string");
        assert "array[" + "string" + "]" == "array[string]";
      case "array_file" =>
        WordArrayReads("file");
        assert "array[" + "file" + "]" == "array[file]";
      case "ref" => RefReads(parts);
      case "array_ref" => ArrayRefReads(parts);
      case _ => ScalarReads(f.ty);
    }
  }

  lemma ScalarReads(text: string)
    requires IsScalar(text)
    ensures text != "" && Reads(text, [Ident(text)], false)
  {
    hide Reads, IsName;
    ScalarWord(text);
    WordReads(text);
    NameNotEmpty(text);
  }

  lemma WordArrayReads(word: string)
    requires word == "string" || word == "file"
    ensures Reads("array[" + word + "]", BracketToks("array", [Ident(word)]), false)
  {
    hide Reads, IsName, LowerWord;
    TypeWords();
    WordReads(word);
    ArrayReads(word, [Ident(word)]);
  }

  lemma MultiReads(values: seq<string>)
    requires values != [] && forall v <- values :: IsName(v)
    ensures Reads("array[enum[" + JoinWith(values, ", ") + "]]",
      BracketToks("array", BracketToks("enum", NameToks(values))), false)
  {
    hide Reads, IsName;
    EnumReads(values);
    ArrayReads("enum[" + JoinWith(values, ", ") + "]", BracketToks("enum", NameToks(values)));
    Nested("array[", "enum[", JoinWith(values, ", "), "]");
    assert "array[" + "enum[" == "array[enum[" && "]" + "]" == "]]";
  }

  lemma ArrayRefReads(parts: seq<string>)
    requires IsDotted(parts)
    ensures Reads("array[ref[" + JoinWith(parts, ".") + "]]", BracketToks("array", BracketToks("ref", DotToks(parts))),
      false)
  {
    hide Reads, IsName, IsDotted;
    RefReads(parts);
    ArrayReads("ref[" + JoinWith(parts, ".") + "]", BracketToks("ref", DotToks(parts)));
    Nested("array[", "ref[", JoinWith(parts, "."), "]");
    assert "array[" + "ref[" == "array[ref[" && "]" + "]" == "]]";
  }

  lemma Nested(a: string, b: string, c: string, d: string)
    ensures a + (b + c + d) + d == (a + b) + c + (d + d)
  {
  }

  lemma EnumReads(values: seq<string>)
    requires values != [] && forall v <- values :: IsName(v)
    ensures Reads("enum[" + JoinWith(values, ", ") + "]", BracketToks("enum", NameToks(values)), false)
  {
    hide Reads, IsName, LowerWord;
    TypeWords();
    WordReads("enum");
    NamesRead(values);
    BracketsRead("enum", JoinWith(values, ", "), NameToks(values), false);
    assert Bracketed("enum", JoinWith(values, ", ")) == "enum[" + JoinWith(values, ", ") + "]";
    Weaken("enum[" + JoinWith(values, ", ") + "]", BracketToks("enum", NameToks(values)));
  }

  lemma RefReads(parts: seq<string>)
    requires IsDotted(parts)
    ensures Reads("ref[" + JoinWith(parts, ".") + "]", BracketToks("ref", DotToks(parts)), false)
  {
    hide Reads, IsName, LowerWord, IsDotted;
    TypeWords();
    WordReads("ref");
    DottedReads(parts);
    BracketsRead("ref", JoinWith(parts, "."), DotToks(parts), false);
    assert Bracketed("ref", JoinWith(parts, ".")) == "ref[" + JoinWith(parts, ".") + "]";
    Weaken("ref[" + JoinWith(parts, ".") + "]", BracketToks("ref", DotToks(parts)));
  }

  lemma ArrayReads(inner: string, toks: seq<Tok>)
    requires inner != "" && Reads(inner, toks, false)
    ensures Reads("array[" + inner + "]", BracketToks("array", toks), false)
  {
    hide Reads, IsName, LowerWord;
    TypeWords();
    WordReads("array");
    BracketsRead("array", inner, toks, false);
    assert Bracketed("array", inner) == "array[" + inner + "]";
    Weaken("array[" + inner + "]", BracketToks("array", toks));
  }

  // ---- parsing types -----------------------------------------------------------------------

  lemma NameIsNoMark(name: string)
    requires IsName(name)
    ensures name != "]" && name != "," && name != "." && name != "["
  {
    assert name[0] in name;
  }

  lemma {:induction false} ParseNames(names: seq<string>, acc: seq<string>, rest: seq<Tok>)
    requires (forall n <- names :: IsName(n)) && acc + names != []
    ensures Names(NameToks(names) + [Punct("]")] + rest, acc) == Some((acc + names, |NameToks(names)| + 1))
    decreases |names|
  {
    hide IsName;
    var toks := NameToks(names) + [Punct("]")] + rest;
    if names == [] {
      assert acc + names == acc;
    } else {
      assert names[0] in names;
      NameIsNoMark(names[0]);
      var more := acc + [names[0]];
      assert acc + names == more + names[1..];
      if |names| == 1 {
        assert toks[1..] == NameToks([]) + [Punct("]")] + rest;
        assert names[1..] == [];
        ParseNames([], more, rest);
      } else {
        var tail := NameToks(names[1..]) + [Punct("]")] + rest;
        assert toks[1..] == [Punct(",")] + tail && ([Punct(",")] + tail)[1..] == tail;
        ParseNames(names[1..], more, rest);
      }
    }
  }

  lemma ParseBracketNames(values: seq<string>, rest: seq<Tok>)
    requires values != [] && forall v <- values :: IsName(v)
    ensures BracketIdents([Punct("[")] + NameToks(values) + [Punct("]")] + rest) ==
      Some((values, |NameToks(values)| + 2))
  {
    hide IsName, Names;
    var toks := [Punct("[")] + NameToks(values) + [Punct("]")] + rest;
    assert toks[1..] == NameToks(values) + [Punct("]")] + rest;
    ParseNames(values, [], rest);
    assert [] + values == values;
  }

  lemma {:induction false} ParseDots(parts: seq<string>, name: string, rest: seq<Tok>)
    requires IsDotted(parts)
    ensures Dotted(DotToks(parts)[1..] + [Punct("]")] + rest, name) ==
      (if |parts| == 1 then name else name + "." + JoinWith(parts[1..], "."), |DotToks(parts)| - 1)
    decreases |parts|
  {
    hide IsName;
    var toks := DotToks(parts)[1..] + [Punct("]")] + rest;
    if |parts| > 1 {
      var tail := parts[1..];
      var more := name + "." + tail[0];
      var next := DotToks(tail)[1..] + [Punct("]")] + rest;
      DotsNotEmpty(tail);
      DotTail(parts, rest);
      hide Dotted, DotToks, JoinWith;
      DottedStep(tail[0], next, name);
      ParseDots(tail, more, rest);
      JoinHead(name, tail);
    } else {
      assert toks[0] == Punct("]") && "]" != ".";
    }
  }

  lemma DotTail(parts: seq<string>, rest: seq<Tok>)
    requires |parts| > 1 && DotToks(parts[1..]) != [] && DotToks(parts[1..])[0] == Ident(parts[1])
    ensures DotToks(parts)[1..] + [Punct("]")] + rest ==
      [Punct("."), Ident(parts[1])] + (DotToks(parts[1..])[1..] + [Punct("]")] + rest)
    ensures |DotToks(parts)| == |DotToks(parts[1..])| + 2
  {
    var a, b := DotToks(parts)[1..], DotToks(parts[1..]);
    assert a == [Punct(".")] + b && b == [b[0]] + b[1..];
  }

  lemma JoinHead(name: string, tail: seq<string>)
    requires tail != []
    ensures |tail| > 1 ==> (name + "." + tail[0]) + "." + JoinWith(tail[1..], ".") == name + "." + JoinWith(tail, ".")
    ensures |tail| == 1 ==> name + "." + tail[0] == name + "." + JoinWith(tail, ".")
  {
    if |tail| > 1 {
      Separated(name, tail[0], JoinWith(tail[1..], "."), ".");
    }
  }

  lemma Separated(a: string, b: string, c: string, sep: string)
    ensures (a + sep + b) + sep + c == a + sep + (b + sep + c)
  {
  }

  lemma DottedStep(part: string, next: seq<Tok>, name: string)
    ensures Dotted([Punct("."), Ident(part)] + next, name) ==
      (Dotted(next, name + "." + part).0, Dotted(next, name + "." + part).1 + 2)
  {
    assert ([Punct("."), Ident(part)] + next)[2..] == next;
  }

  lemma ParseBracketDots(parts: seq<string>, rest: seq<Tok>)
    requires IsDotted(parts)
    ensures BracketDotted([Punct("[")] + DotToks(parts) + [Punct("]")] + rest) ==
      Some((JoinWith(parts, "."), |DotToks(parts)| + 2))
  {
    hide IsName, Dotted, IsDotted;
    var toks := [Punct("[")] + DotToks(parts) + [Punct("]")] + rest;
    DotsNotEmpty(parts);
    assert toks[2..] == DotToks(parts)[1..] + [Punct("]")] + rest;
    ParseDots(parts, parts[0], rest);
  }

  lemma DotsNotEmpty(parts: seq<string>)
    requires IsDotted(parts)
    ensures DotToks(parts) != [] && DotToks(parts)[0] == Ident(parts[0])
  {
  }

  lemma TypeKeywords()
    ensures !IsScalar("enum") && !IsScalar("ref") && !IsScalar("array")
  {
  }

  lemma ParseTypeToks(f: FieldSpec, parts: seq<string>, rest: seq<Tok>)
    requires TypeOk(f, parts)
    ensures ParseType(TypeToks(f, parts) + rest) == Some((TypeOf(f), |TypeToks(f, parts)|))
  {
    hide IsName, IsDotted, IsScalar, BracketIdents, BracketDotted;
    TypeKeywords();
    hide ParseArray;
    match f.ty {
      case "enum" => ParseEnum(f.values, rest);
      case "ref" => ParseRef(parts, rest);
      case "multiselect" => ParseArrayOfEnum(f.values, rest);
      case "array_ref" => ParseArrayOfRef(parts, rest);
      case "tags" => ParseArrayOfWord("string", rest);
      case "array_file" => ParseArrayOfWord("file", rest);
      case _ =>
    }
  }

  lemma ParseEnum(values: seq<string>, rest: seq<Tok>)
    requires values != [] && forall v <- values :: IsName(v)
    ensures ParseType(BracketToks("enum", NameToks(values)) + rest) ==
      Some((Enum(values), |BracketToks("enum", NameToks(values))|))
  {
    hide IsName, IsScalar, BracketIdents, BracketDotted, ParseArray;
    TypeKeywords();
    var toks := BracketToks("enum", NameToks(values)) + rest;
    assert toks[0] == Ident("enum") && toks[1..] == [Punct("[")] + NameToks(values) + [Punct("]")] + rest;
    ParseBracketNames(values, rest);
  }

  lemma ParseRef(parts: seq<string>, rest: seq<Tok>)
    requires IsDotted(parts)
    ensures ParseType(BracketToks("ref", DotToks(parts)) + rest) ==
      Some((Ref(JoinWith(parts, ".")), |BracketToks("ref", DotToks(parts))|))
  {
    hide IsDotted, IsScalar, BracketIdents, BracketDotted, ParseArray;
    TypeKeywords();
    var toks := BracketToks("ref", DotToks(parts)) + rest;
    assert toks[0] == Ident("ref") && toks[1..] == [Punct("[")] + DotToks(parts) + [Punct("]")] + rest;
    ParseBracketDots(parts, rest);
  }

  lemma ParseArrayOfEnum(values: seq<string>, rest: seq<Tok>)
    requires values != [] && forall v <- values :: IsName(v)
    ensures ParseArray(BracketToks("array", BracketToks("enum", NameToks(values))) + rest) ==
      Some((MultiEnum(values), |BracketToks("array", BracketToks("enum", NameToks(values)))|))
  {
    hide IsName, BracketIdents, BracketDotted;
    var toks := BracketToks("array", BracketToks("enum", NameToks(values))) + rest;
    assert toks[3..] == [Punct("[")] + NameToks(values) + [Punct("]")] + ([Punct("]")] + rest);
    ParseBracketNames(values, [Punct("]")] + rest);
    assert toks[2] == Ident("enum");
    assert toks[3 + |NameToks(values)| + 2] == Punct("]");
  }

  lemma ParseArrayOfRef(parts: seq<string>, rest: seq<Tok>)
    requires IsDotted(parts)
    ensures ParseArray(BracketToks("array", BracketToks("ref", DotToks(parts))) + rest) ==
      Some((ArrayRef(JoinWith(parts, ".")), |BracketToks("array", BracketToks("ref", DotToks(parts)))|))
  {
    hide IsDotted, BracketIdents, BracketDotted;
    var toks := BracketToks("array", BracketToks("ref", DotToks(parts))) + rest;
    assert toks[3..] == [Punct("[")] + DotToks(parts) + [Punct("]")] + ([Punct("]")] + rest);
    ParseBracketDots(parts, [Punct("]")] + rest);
    assert toks[2] == Ident("ref");
    assert toks[3 + |DotToks(parts)| + 2] == Punct("]");
  }

  lemma ParseArrayOfWord(word: string, rest: seq<Tok>)
    requires word == "string" || word == "file"
    ensures ParseArray(BracketToks("array", [Ident(word)]) + rest) ==
      Some((if word == "string" then Tags else ArrayFile, 4))
  {
    hide BracketIdents, BracketDotted;
    var toks := BracketToks("array", [Ident(word)]) + rest;
    assert toks[1] == Punct("[") && toks[2] == Ident(word) && toks[3] == Punct("]");
  }

  // ---- field lines ---------------------------------------------------------------------------

  function DepthAfter(toks: seq<Tok>, depth: int): int {
    if toks == [] then depth else DepthAfter(toks[1..], Depth(toks[0], depth))
  }

  predicate FieldOk(f: FieldSpec, parts: seq<string>) {
    && IsName(f.name) && TypeOk(f, parts)
    && (f.default == "" || FreeText(f.default))
    && (f.computed == "" || FreeText(f.computed))
    && '"' !in f.format
    && (f.onDelete == "" || IsOnDelete(f.onDelete))
  }

  /** No modifier keyword stands in the text outside brackets, and its brackets close, unless nothing follows. */
  predicate TextCloses(s: string, last: bool) {
    var toks := Tokenize(s).toks;
    UntilKeyword(toks, 0) == |toks| && (last || DepthAfter(toks, 0) == 0)
  }

  /** No on_delete clause follows a format that is a single bracket. */
  predicate FormatCloses(f: FieldSpec) {
    f.onDelete == "" || f.format !in {"(", "[", ")", "]"}
  }

  /** Every text of the line ends where its clause does. */
  predicate LineCloses(f: FieldSpec) {
    && TextCloses(f.default, f.computed == "" && f.format == "" && f.onDelete == "")
    && TextCloses(f.computed, f.format == "" && f.onDelete == "")
    && FormatCloses(f)
  }

  function Given(given: bool, toks: seq<Tok>): seq<Tok> {
    if given then toks else []
  }

  /** key=text */
  function KeyToks(key: string, text: string): seq<Tok> {
    Given(text != "", [Ident(key), Punct("=")] + Tokenize(text).toks)
  }

  function ModToks(f: FieldSpec): seq<Tok> {
    Given(f.required, [Ident("required")])
    + (Given(f.unique, [Ident("unique")])
    + (KeyToks("default", f.default)
    + (KeyToks("computed", f.computed)
    + (Given(f.format != "", [Ident("format"), Punct("="), Tok.Str(f.format)])
    + Given(f.onDelete != "", [Ident("on_delete"), Punct("="), Ident(f.onDelete)])))))
  }

  /** Each part after a blank. */
  function Spaced(parts: seq<string>): string {
    if parts == [] then "" else [' '] + parts[0] + Spaced(parts[1..])
  }

  lemma {:induction false} JoinIsSpaced(head: string, parts: seq<string>)
    ensures JoinWith([head] + parts, " ") == head + Spaced(parts)
    decreases |parts|
  {
    assert ([head] + parts)[1..] == parts;
    if parts != [] {
      JoinIsSpaced(parts[0], parts[1..]);
      assert parts == [parts[0]] + parts[1..];
      assert head + " " + (parts[0] + Spaced(parts[1..])) == head + ([' '] + parts[0] + Spaced(parts[1..]));
    }
  }

  lemma SpacedOptional(given: bool, part: string, parts: seq<string>)
    ensures Spaced(Optional(given, part) + parts) == (if given then [' '] + part else "") + Spaced(parts)
  {
    if given {
      assert ([part] + parts)[1..] == parts;
    } else {
      assert [] + parts == parts && "" + Spaced(parts) == Spaced(parts);
    }
  }

  /** Optional parts read as their tokens, whatever the parts after them read as. */
  lemma OptionalReads(given: bool, part: string, toks: seq<Tok>, parts: seq<string>, more: seq<Tok>)
    requires given ==> part != "" && Reads(part, toks, false)
    requires Reads(Spaced(parts), more, false)
    ensures Reads(Spaced(Optional(given, part) + parts), Given(given, toks) + more, false)
  {
    SpacedOptional(given, part, parts);
    SpacedStarts(parts);
    hide Reads, Spaced, Optional, Tokenize;
    var tail := Spaced(parts);
    if given {
      BlankReads();
      if tail == "" {
        Follow([' '], [], true, part, toks, false);
        EmptyReads(tail, more);
        Units([' '] + part, toks, more);
      } else {
        Follow(part, toks, false, tail, more, false);
        Follow([' '], [], true, part + tail, toks + more, false);
        Regroup([' '], part, tail);
        Units("", toks + more, []);
      }
    } else {
      Units(tail, more, []);
    }
  }

  lemma SpacedStarts(parts: seq<string>)
    ensures Spaced(parts) != "" ==> Spaced(parts)[0] == ' '
  {
  }

  lemma Units(s: string, toks: seq<Tok>, more: seq<Tok>)
    ensures s + "" == s && "" + s == s && [] + toks == toks && (more == [] ==> toks + more == toks)
  {
  }

  lemma EmptyReads(s: string, toks: seq<Tok>)
    requires s == "" && Reads(s, toks, false)
    ensures toks == []
  {
    ReadsAlone(s, toks, false);
  }

  lemma NothingReads()
    ensures Reads("", [], false)
  {
    forall rest: string ensures Tokenize("" + rest) == Lexed([] + Tokenize(rest).toks, Tokenize(rest).clean) {
      assert "" + rest == rest && [] + Tokenize(rest).toks == Tokenize(rest).toks;
    }
  }

  lemma Keywords()
    ensures LowerWord("required") && LowerWord("unique") && LowerWord("default") && LowerWord("computed")
    ensures LowerWord("format") && LowerWord("on_delete")
  {
  }

  lemma DefaultReads(text: string)
    requires FreeText(text)
    ensures Reads("default=" + text, [Ident("default"), Punct("=")] + Tokenize(text).toks, false)
  {
    hide Tokenize, Plain, Reads, IsName, LowerWord, FreeText;
    Keywords();
    WordReads("default");
    KeyReads("default");
    FreeNotEmpty(text);
    PlainReads(text);
    Follow("default" + ['='], [Ident("default"), Punct(['='])], true, text, Tokenize(text).toks, false);
    assert "default" + ['='] == "default=" && ['='] == "=";
  }

  lemma FreeNotEmpty(text: string)
    requires FreeText(text)
    ensures text != "" && Plain(text)
  {
  }

  lemma ComputedReads(text: string)
    requires FreeText(text)
    ensures Reads("computed = " + text, [Ident("computed"), Punct("=")] + Tokenize(text).toks, false)
  {
    hide Plain, Reads, IsName, LowerWord, FreeText;
    Keywords();
    WordReads("computed");
    FreeNotEmpty(text);
    PlainReads(text);
    MarkReads('=');
    var toks := Tokenize(text).toks;
    AfterBlank(text, toks, false);
    Follow(['='], [Punct(['='])], true, [' '] + text, toks, false);
    AfterBlank(['='] + ([' '] + text), [Punct(['='])] + toks, false);
    Follow("computed", [Ident("computed")], false, [' '] + (['='] + ([' '] + text)), [Punct(['='])] + toks, false);
    ComputedText(text, toks);
  }

  lemma ComputedText(text: string, toks: seq<Tok>)
    ensures "computed" + ([' '] + (['='] + ([' '] + text))) == "computed = " + text
    ensures [Ident("computed")] + ([Punct(['='])] + toks) == [Ident("computed"), Punct("=")] + toks
  {
    assert ['='] == "=";
  }

  lemma FormatReads(text: string)
    requires '"' !in text
    ensures Reads("format=\"" + text + "\"", [Ident("format"), Punct("="), Tok.Str(text)], false)
  {
    hide Reads, IsName, LowerWord;
    Keywords();
    WordReads("format");
    KeyReads("format");
    QuotedReads(text);
    var q := ['"'] + text + ['"'];
    Follow("format" + ['='], [Ident("format"), Punct(['='])], true, q, [Tok.Str(text)], true);
    assert ("format" + ['=']) + q == "format=\"" + text + "\"" && ['='] == "=";
    assert [Ident("format"), Punct(['='])] + [Tok.Str(text)] == [Ident("format"), Punct("="), Tok.Str(text)];
    Weaken("format=\"" + text + "\"", [Ident("format"), Punct("="), Tok.Str(text)]);
  }

  lemma OnDeleteReads(text: string)
    requires IsOnDelete(text)
    ensures Reads("on_delete=" + text, [Ident("on_delete"), Punct("="), Ident(text)], false)
  {
    hide Reads, IsName;
    Keywords();
    assert LowerWord(text);
    hide LowerWord;
    WordReads("on_delete");
    WordReads(text);
    NameNotEmpty(text);
    KeyReads("on_delete");
    Follow("on_delete" + ['='], [Ident("on_delete"), Punct(['='])], true, text, [Ident(text)], false);
    assert "on_delete" + ['='] == "on_delete=" && ['='] == "=";
    assert [Ident("on_delete"), Punct(['='])] + [Ident(text)] == [Ident("on_delete"), Punct("="), Ident(text)];
  }

  lemma HeadReads(f: FieldSpec, parts: seq<string>)
    requires FieldOk(f, parts)
    ensures Reads(f.name + ": " + RenderType(f), [Ident(f.name), Punct(":")] + TypeToks(f, parts), false)
  {
    hide Reads, IsName, RenderType, TypeToks;
    NameReads(f.name);
    MarkReads(':');
    BlankReads();
    TypeReads(f, parts);
    var t, toks := RenderType(f), TypeToks(f, parts);
    Follow([' '], [], true, t, toks, false);
    Follow([':'], [Punct([':'])], true, [' '] + t, [] + toks, false);
    Follow(f.name, [Ident(f.name)], false, [':'] + ([' '] + t), [Punct([':'])] + ([] + toks), false);
    assert f.name + ([':'] + ([' '] + t)) == f.name + ": " + t && [':'] == ":";
    assert [Ident(f.name)] + ([Punct([':'])] + ([] + toks)) == [Ident(f.name), Punct(":")] + toks;
  }

  function Options(f: FieldSpec): seq<string> {
    Optional(f.required, "required")
    + (Optional(f.unique, "unique")
    + (Optional(f.default != "", "default=" + f.default)
    + (Optional(f.computed != "", "computed = " + f.computed)
    + (Optional(f.format != "", "format=\"" + f.format + "\"")
    + (Optional(f.onDelete != "", "on_delete=" + f.onDelete) + [])))))
  }

  lemma OptionsRead(f: FieldSpec, parts: seq<string>)
    requires FieldOk(f, parts)
    ensures Reads(Spaced(Options(f)), ModToks(f), false)
  {
    hide Reads, LowerWord, IsName, Tokenize, FreeText, TypeOk;
    Keywords();
    WordReads("required");
    WordReads("unique");
    if f.default != "" { DefaultReads(f.default); }
    if f.computed != "" { ComputedReads(f.computed); }
    if f.format != "" { FormatReads(f.format); }
    if f.onDelete != "" { OnDeleteReads(f.onDelete); }
    NothingReads();
    OptionsChain(f);
  }

  lemma OptionsChain(f: FieldSpec)
    requires Reads("", [], false) && Reads("required", [Ident("required")], false)
      && Reads("unique", [Ident("unique")], false)
    requires f.default != "" ==>
      Reads("default=" + f.default, [Ident("default"), Punct("=")] + Tokenize(f.default).toks, false)
    requires f.computed != "" ==>
      Reads("computed = " + f.computed, [Ident("computed"), Punct("=")] + Tokenize(f.computed).toks, false)
    requires f.format != "" ==>
      Reads("format=\"" + f.format + "\"", [Ident("format"), Punct("="), Tok.Str(f.format)], false)
    requires f.onDelete != "" ==>
      Reads("on_delete=" + f.onDelete, [Ident("on_delete"), Punct("="), Ident(f.onDelete)], false)
    ensures Reads(Spaced(Options(f)), ModToks(f), false)
  {
    hide Reads, Tokenize, Optional;
    var o := Optional(f.onDelete != "", "on_delete=" + f.onDelete) + [];
    var ot := Given(f.onDelete != "", [Ident("on_delete"), Punct("="), Ident(f.onDelete)]);
    assert ot + [] == ot;
    OptionalReads(f.onDelete != "", "on_delete=" + f.onDelete, [Ident("on_delete"), Punct("="), Ident(f.onDelete)], [],
      []);
    hide Spaced, Given;
    var m := Optional(f.format != "", "format=\"" + f.format + "\"") + o;
    var mt := Given(f.format != "", [Ident("format"), Punct("="), Tok.Str(f.format)]) + ot;
    OptionalReads(f.format != "", "format=\"" + f.format + "\"", [Ident("format"), Punct("="), Tok.Str(f.format)], o,
      ot);
    var c := Optional(f.computed != "", "computed = " + f.computed) + m;
    var ct := Given(f.computed != "", [Ident("computed"), Punct("=")] + Tokenize(f.computed).toks) + mt;
    OptionalReads(f.computed != "", "computed = " + f.computed,
      [Ident("computed"), Punct("=")] + Tokenize(f.computed).toks, m, mt);
    var d := Optional(f.default != "", "default=" + f.default) + c;
    var dt := Given(f.default != "", [Ident("default"), Punct("=")] + Tokenize(f.default).toks) + ct;
    OptionalReads(f.default != "", "default=" + f.default, [Ident("default"), Punct("=")] + Tokenize(f.default).toks, c,
      ct);
    OptionalReads(f.unique, "unique", [Ident("unique")], d, dt);
    OptionalReads(f.required, "required", [Ident("required")], Optional(f.unique, "unique") + d,
      Given(f.unique, [Ident("unique")]) + dt);
  }

  /** A rendered field line reads as its name, its type and its modifiers. */
  lemma FieldTokens(f: FieldSpec, parts: seq<string>)
    requires FieldOk(f, parts)
    ensures Tokenize(RenderField(f)) == Lexed([Ident(f.name), Punct(":")] + TypeToks(f, parts) + ModToks(f), true)
  {
    hide Reads, Tokenize, TypeToks, ModToks, RenderType, IsName;
    var head, toks := f.name + ": " + RenderType(f), [Ident(f.name), Punct(":")] + TypeToks(f, parts);
    HeadReads(f, parts);
    OptionsRead(f, parts);
    RenderIsSpaced(f);
    if Spaced(Options(f)) == "" {
      EmptyReads(Spaced(Options(f)), ModToks(f));
      assert head + "" == head && toks + [] == toks;
      ReadsAlone(head, toks, false);
    } else {
      assert Spaced(Options(f))[0] == ' ';
      Follow(head, toks, false, Spaced(Options(f)), ModToks(f), false);
      ReadsAlone(head + Spaced(Options(f)), toks + ModToks(f), false);
    }
  }

  lemma RenderIsSpaced(f: FieldSpec)
    ensures RenderField(f) == (f.name + ": " + RenderType(f)) + Spaced(Options(f))
  {
    hide Optional, RenderType, JoinWith;
    var head := f.name + ": " + RenderType(f);
    JoinIsSpaced(head, Options(f));
    var r, u, d, c, m, o := Optional(f.required, "required"), Optional(f.unique, "unique"),
      Optional(f.default != "", "default=" + f.default), Optional(f.computed != "", "computed = " + f.computed),
      Optional(f.format != "", "format=\"" + f.format + "\""), Optional(f.onDelete != "", "on_delete=" + f.onDelete);
    assert [head] + r + u + d + c + m + o == [head] + (r + (u + (d + (c + (m + (o + []))))));
  }

  // ---- parsing modifiers ------------------------------------------------------------------------

  predicate KeywordAhead(rest: seq<Tok>) {
    rest == [] || (rest[0].Ident? && ModKeyword(rest[0].text))
  }

  /** A text is read to its end in front of a keyword, or of nothing. */
  lemma {:induction false} UntilAhead(toks: seq<Tok>, rest: seq<Tok>, depth: int)
    requires KeywordAhead(rest)
    ensures UntilKeyword(toks + rest, depth) == |toks| <==>
      UntilKeyword(toks, depth) == |toks| && (rest == [] || DepthAfter(toks, depth) == 0)
    decreases |toks|
  {
    hide ModKeyword;
    if toks == [] {
      assert toks + rest == rest;
    } else {
      assert (toks + rest)[1..] == toks[1..] + rest;
      UntilAhead(toks[1..], rest, Depth(toks[0], depth));
    }
  }

  lemma ValuedStep(key: string, toks: seq<Tok>, rest: seq<Tok>, g: FieldDecl)
    requires Valued(key) && UntilKeyword(toks + rest, 0) == |toks|
    ensures Modifiers(([Ident(key), Punct("=")] + toks) + rest, g) ==
      (var r := Modifiers(rest, SetModifier(g, key, TextOf(toks)));
       Parsed(r.decl, r.clean && (key == "on_delete" ==> IsOnDelete(TextOf(toks)))))
  {
    hide SetModifier, TextOf, UntilKeyword, DepthAfter, KeywordAhead;
    var all := ([Ident(key), Punct("=")] + toks) + rest;
    ModifierStep(all, 0, g);
    assert all[0..] == all && all[0] == Ident(key) && all[1] == Punct("=") && all[2..] == toks + rest;
    assert (toks + rest)[..|toks|] == toks && all[2 + |toks|..] == rest;
    ValuedIsNoFlag(key);
  }

  lemma ValuedIsNoFlag(key: string)
    requires Valued(key)
    ensures key != "required" && key != "unique"
  {
  }

  lemma TrimQuoted(text: string)
    requires '"' !in text
    ensures TrimQuotes(['"'] + text + ['"']) == text
  {
    var q := ['"'] + text + ['"'];
    assert q[1..] == text + ['"'];
    if text == "" {
      assert q[1..] == ['"'] && q[1..][1..] == "";
      assert TrimQuotes("") == "";
    } else {
      var half := text + ['"'];
      assert text[0] in text && text[|text| - 1] in text && half[..|half| - 1] == text;
      assert TrimQuotes(text) == text;
      assert TrimQuotes(half) == TrimQuotes(text);
      assert TrimQuotes(q) == TrimQuotes(half);
    }
  }

  /** The declaration a specification stands for; free text comes back with single blanks between its tokens. */
  function DeclOf(f: FieldSpec): FieldDecl {
    FieldDecl(f.name, TypeOf(f), f.required, f.unique, TextOf(Tokenize(f.default).toks),
      TextOf(Tokenize(f.computed).toks),
              f.onDelete, f.format, "")
  }

  lemma FlagStep(given: bool, key: string, rest: seq<Tok>, g: FieldDecl)
    requires key == "required" || key == "unique"
    ensures given ==>
      Modifiers(Given(given, [Ident(key)]) + rest, g) ==
      Modifiers(rest, if key == "required" then g.(required := true) else g.(unique := true))
    ensures !given ==> Given(given, [Ident(key)]) + rest == rest
  {
    if given {
      assert ([Ident(key)] + rest)[1..] == rest;
    }
  }

  lemma NoText()
    ensures TextOf(Tokenize("").toks) == ""
  {
  }

  lemma FreeTextHas(text: string)
    requires FreeText(text)
    ensures TextOf(Tokenize(text).toks) != ""
  {
    hide Reads, TextOf;
    SpacingReads(text);
    TextNotEmpty(Tokenize(text).toks);
  }

  /** A default or computed clause that closes sets its text and leaves the rest to be read; where it does not,
      the line is not read as the declaration that has the text. */
  lemma TextStep(key: string, text: string, rest: seq<Tok>, g: FieldDecl, d: FieldDecl)
    requires TextKey(key) && (text == "" || FreeText(text)) && KeywordAhead(rest)
    requires text == "" ==> g == SetModifier(g, key, "")
    requires TextAt(d, key) == TextOf(Tokenize(text).toks)
    requires Weight(d) + 2 >= Weight(SetModifier(g, key, "")) + Length(KeyToks(key, text) + rest)
    ensures TextCloses(text, rest == []) ==>
      Modifiers(KeyToks(key, text) + rest, g) == Modifiers(rest, SetModifier(g, key, TextOf(Tokenize(text).toks)))
    ensures !TextCloses(text, rest == []) ==> Modifiers(KeyToks(key, text) + rest, g).decl != d
  {
    hide Modifiers, KeywordAhead, TextOf, FreeText, Weight, Length, SetModifier, TextAt;
    var toks := Tokenize(text).toks;
    if text == "" {
      NoText();
      assert [] + rest == rest;
    } else {
      UntilAhead(toks, rest, 0);
      hide Tokenize;
      if TextCloses(text, rest == []) {
        KeyIsValued(key);
        ValuedStep(key, toks, rest, g);
      } else {
        FreeTextHas(text);
        assert KeyToks(key, text) + rest == [Ident(key), Punct("=")] + (toks + rest);
        ClauseMisread(key, toks, rest, g, d);
      }
    }
  }

  lemma KeyIsValued(key: string)
    requires key == "default" || key == "computed" || key == "format" || key == "on_delete"
    ensures Valued(key) && ModKeyword(key) && (key == "on_delete" || key != "on_delete")
  {
  }

  lemma FormatStep(text: string, rest: seq<Tok>, g: FieldDecl)
    requires '"' !in text && KeywordAhead(rest) && g.format == ""
    requires rest == [] || Depth(Tok.Str(text), 0) == 0
    ensures Modifiers(Given(text != "", [Ident("format"), Punct("="), Tok.Str(text)]) + rest, g) ==
      Modifiers(rest, g.(format := text))
  {
    hide Modifiers, KeywordAhead;
    if text == "" {
      assert [] + rest == rest;
    } else {
      var toks := [Tok.Str(text)];
      assert toks[1..] == [];
      TrimQuoted(text);
      KeyIsValued("format");
      assert [Ident("format"), Punct("=")] + toks == [Ident("format"), Punct("="), Tok.Str(text)];
      if rest == [] {
        NoModifiers();
        LastStep("format", toks, g);
        assert ([Ident("format"), Punct("=")] + toks) + rest == [Ident("format"), Punct("=")] + toks;
      } else {
        UntilAhead(toks, rest, 0);
        ValuedStep("format", toks, rest, g);
      }
    }
  }

  /** The last clause takes all that is left, whatever brackets it holds. */
  lemma LastStep(key: string, toks: seq<Tok>, g: FieldDecl)
    requires Valued(key) && UntilKeyword(toks, 0) == |toks|
    ensures Modifiers([Ident(key), Punct("=")] + toks, g) ==
      Parsed(SetModifier(g, key, TextOf(toks)), key == "on_delete" ==> IsOnDelete(TextOf(toks)))
  {
    hide SetModifier, TextOf, UntilKeyword;
    var all := [Ident(key), Punct("=")] + toks;
    ModifierStep(all, 0, g);
    assert all[0..] == all && all[0] == Ident(key) && all[1] == Punct("=") && all[2..] == toks;
    assert toks[..|toks|] == toks && all[2 + |toks|..] == [];
    ValuedIsNoFlag(key);
  }

  lemma OnDeleteStep(text: string, g: FieldDecl)
    requires (text == "" || IsOnDelete(text)) && g.onDelete == ""
    ensures Modifiers(Given(text != "", [Ident("on_delete"), Punct("="), Ident(text)]), g) ==
      Parsed(g.(onDelete := text), true)
  {
    if text != "" {
      var toks := [Ident(text)];
      NoModifier(text);
      assert toks[1..] == [] && UntilKeyword(toks, 0) == 1 && TextOf(toks) == text;
      KeyIsValued("on_delete");
      hide Modifiers;
      LastStep("on_delete", toks, g);
      assert [Ident("on_delete"), Punct("=")] + toks == [Ident("on_delete"), Punct("="), Ident(text)];
    }
  }

  lemma NoModifier(text: string)
    requires IsOnDelete(text)
    ensures !ModKeyword(text)
  {
  }

  /** A text that is a single bracket swallows the on_delete clause after it, whether it is quoted or not. */
  lemma BracketSwallows(key: string, t: Tok, text: string, g: FieldDecl)
    requires key == "default" || key == "computed" || key == "format"
    requires t.text in {"(", "[", ")", "]"} && !t.Ident? && IsOnDelete(text)
    ensures Modifiers([Ident(key), Punct("="), t, Ident("on_delete"), Punct("="), Ident(text)], g).decl.onDelete
         == g.onDelete
  {
    var tail := [Ident("on_delete"), Punct("="), Ident(text)];
    var toks := [t] + tail;
    BracketsCount(t, text, Depth(t, 0));
    KeyIsValued(key);
    hide Modifiers, TextOf, Depth, IsOnDelete;
    DeepStep(tail, Depth(t, 0));
    assert toks[0] == t && toks[1..] == tail;
    assert UntilKeyword(toks, 0) == 1 + UntilKeyword(tail, Depth(t, 0));
    hide UntilKeyword;
    LastStep(key, toks, g);
    assert [Ident(key), Punct("=")] + toks ==
      [Ident(key), Punct("="), t, Ident("on_delete"), Punct("="), Ident(text)];
  }

  lemma BracketsCount(t: Tok, text: string, depth: int)
    requires t.text in {"(", "[", ")", "]"} && IsOnDelete(text)
    ensures Depth(t, 0) != 0 && forall u <- [Ident("on_delete"), Punct("="), Ident(text)] :: Depth(u, depth) == depth
  {
  }

  /** Between unmatched brackets no keyword stops the text. */
  lemma {:induction false} DeepStep(toks: seq<Tok>, depth: int)
    requires depth != 0 && forall t <- toks :: Depth(t, depth) == depth
    ensures UntilKeyword(toks, depth) == |toks|
    decreases |toks|
  {
    if toks != [] {
      assert toks[0] in toks && forall t <- toks[1..] :: t in toks;
      DeepStep(toks[1..], depth);
    }
  }

  lemma AheadChain(f: FieldSpec)
    ensures var o := Given(f.onDelete != "", [Ident("on_delete"), Punct("="), Ident(f.onDelete)]);
      var c := KeyToks("computed", f.computed) + FormatToks(f);
      && KeywordAhead(o) && KeywordAhead(FormatToks(f)) && KeywordAhead(c) && (f.onDelete == "" <==> o == [])
      && (FormatToks(f) == [] <==> f.format == "" && f.onDelete == "")
      && (c == [] <==> f.computed == "" && f.format == "" && f.onDelete == "")
  {
    hide Tokenize;
    KeyIsValued("computed");
    KeyIsValued("format");
    KeyIsValued("on_delete");
    hide ModKeyword;
  }

  /** The declaration when the format clause is reached. */
  function BeforeFormat(f: FieldSpec): FieldDecl {
    DeclOf(f).(format := "", onDelete := "")
  }

  function FormatToks(f: FieldSpec): seq<Tok> {
    Given(f.format != "", [Ident("format"), Punct("="), Tok.Str(f.format)])
    + Given(f.onDelete != "", [Ident("on_delete"), Punct("="), Ident(f.onDelete)])
  }

  lemma KeyLength(key: string, text: string, rest: seq<Tok>)
    requires text == "" || FreeText(text)
    ensures Length(KeyToks(key, text) + rest) == Clause(key, TextOf(Tokenize(text).toks)) + Length(rest)
  {
    hide TextOf, Tokenize, FreeText;
    LengthJoins(KeyToks(key, text), rest);
    if text == "" {
      NoText();
    } else {
      var toks := Tokenize(text).toks;
      FreeTextHas(text);
      LengthIs(toks);
      var all := [Ident(key), Punct("=")] + toks;
      assert all[1..][1..] == toks;
      assert Length(all[1..]) == 2 + Length(toks);
    }
  }

  lemma FormatLength(f: FieldSpec)
    ensures Length(FormatToks(f)) <= Clause("format", f.format) + Clause("on_delete", f.onDelete) + 2
  {
    LengthJoins(Given(f.format != "", [Ident("format"), Punct("="), Tok.Str(f.format)]),
      Given(f.onDelete != "", [Ident("on_delete"), Punct("="), Ident(f.onDelete)]));
    ThreeLong("format", Tok.Str(f.format));
    ThreeLong("on_delete", Ident(f.onDelete));
  }

  lemma ThreeLong(key: string, t: Tok)
    ensures Length([Ident(key), Punct("="), t]) == |key| + 4 + |Part(t)|
  {
    assert Part(Ident(key)) == key && Part(Punct("=")) == "=";
    hide Part;
    assert Length([t]) == |Part(t)| + 1 by { assert [t][1..] == []; }
    assert Length([Punct("="), t]) == 2 + Length([t]) by { assert [Punct("="), t][1..] == [t]; }
    assert [Ident(key), Punct("="), t][1..] == [Punct("="), t];
  }

  /** The declaration when the default clause is reached. */
  function BeforeDefault(f: FieldSpec): FieldDecl {
    DeclOf(f).(default := "", computed := "", format := "", onDelete := "")
  }

  lemma ParseFlags(f: FieldSpec, g: FieldDecl)
    requires g == FieldDecl(f.name, TypeOf(f), false, false, "", "", "", "", "")
    ensures Modifiers(ModToks(f), g) ==
      Modifiers(KeyToks("default", f.default) + (KeyToks("computed", f.computed) + FormatToks(f)), BeforeDefault(f))
  {
    hide Modifiers, TextOf, TypeOf, Tokenize, KeyToks;
    var d := KeyToks("default", f.default) + (KeyToks("computed", f.computed) + FormatToks(f));
    hide Given;
    FlagStep(f.required, "required", Given(f.unique, [Ident("unique")]) + d, g);
    FlagStep(f.unique, "unique", d, g.(required := f.required));
  }

  /** Down to the format clause, the line is read as its declaration exactly when its texts close. */
  lemma ParseToFormat(f: FieldSpec, parts: seq<string>)
    requires FieldOk(f, parts)
    ensures var all := KeyToks("default", f.default) + (KeyToks("computed", f.computed) + FormatToks(f));
      var last := f.format == "" && f.onDelete == "";
      if TextCloses(f.default, f.computed == "" && last) && TextCloses(f.computed, last) then
        Modifiers(all, BeforeDefault(f)) == Modifiers(FormatToks(f), BeforeFormat(f))
      else Modifiers(all, BeforeDefault(f)).decl != DeclOf(f)
  {
    hide Modifiers, TextOf, TypeOf, TypeOk, IsName, Depth, KeywordAhead, Tokenize, IsOnDelete, FreeText, TextCloses,
      Length, KeyToks, Clause, FormatToks;
    var m, d := FormatToks(f), DeclOf(f);
    var c := KeyToks("computed", f.computed) + m;
    AheadChain(f);
    NoText();
    KeyLength("default", f.default, c);
    KeyLength("computed", f.computed, m);
    FormatLength(f);
    assert forall key :: Clause(key, "") == 0 by { ClauseOfNothing(); }
    var g := BeforeDefault(f);
    TextStep("default", f.default, c, g, d);
    var g1 := g.(default := d.default);
    TextStep("computed", f.computed, m, g1, d);
  }

  lemma ClauseOfNothing()
    ensures forall key :: Clause(key, "") == 0
  {
  }

  lemma ParseFromFormat(f: FieldSpec, parts: seq<string>)
    requires FieldOk(f, parts)
    ensures FormatCloses(f) ==> Modifiers(FormatToks(f), BeforeFormat(f)) == Parsed(DeclOf(f), true)
    ensures !FormatCloses(f) ==> Modifiers(FormatToks(f), BeforeFormat(f)).decl.onDelete != f.onDelete
  {
    hide Modifiers, TextOf, TypeOf, TypeOk, IsName, FreeText, KeywordAhead, Tokenize;
    AheadChain(f);
    var o := Given(f.onDelete != "", [Ident("on_delete"), Punct("="), Ident(f.onDelete)]);
    if FormatCloses(f) {
      FormatStep(f.format, o, BeforeFormat(f));
      OnDeleteStep(f.onDelete, BeforeFormat(f).(format := f.format));
    } else {
      BracketSwallows("format", Tok.Str(f.format), f.onDelete, BeforeFormat(f));
      assert FormatToks(f) ==
        [Ident("format"), Punct("="), Tok.Str(f.format), Ident("on_delete"), Punct("="), Ident(f.onDelete)];
    }
  }

  /** A rendered field line tokenizes without error, and parses back to what it was rendered from exactly when
      every text of the line ends where its clause does. */
  lemma FieldRoundTrip(f: FieldSpec, parts: seq<string>)
    requires FieldOk(f, parts)
    ensures Tokenize(RenderField(f)).clean
    ensures FieldLine(Tokenize(RenderField(f)).toks) == Some(Parsed(DeclOf(f), true)) <==> LineCloses(f)
  {
    hide Modifiers, ModToks, TypeToks, TypeOf, Tokenize, RenderField, ParseType, TextOf, TextCloses, FormatCloses;
    FieldTokens(f, parts);
    var toks := [Ident(f.name), Punct(":")] + TypeToks(f, parts) + ModToks(f);
    assert toks[2..] == TypeToks(f, parts) + ModToks(f);
    ParseTypeToks(f, parts, ModToks(f));
    var n := |TypeToks(f, parts)|;
    assert toks[2 + n..] == ModToks(f);
    ParseFlags(f, FieldDecl(f.name, TypeOf(f), false, false, "", "", "", "", ""));
    ParseToFormat(f, parts);
    ParseFromFormat(f, parts);
  }

  /** A failing input: a default that is one bracket, in quotes, takes the on_delete clause with it. */
  lemma QuotedBracketIsLost(f: FieldSpec)
    requires f == FieldSpec("mark", "string", [], "", false, false, "\"(\"", "", "", "restrict")
    ensures FieldOk(f, []) && !LineCloses(f)
    ensures FieldLine(Tokenize(RenderField(f)).toks).Some?
         && FieldLine(Tokenize(RenderField(f)).toks).value.decl.onDelete == ""
  {
    var bracket := "(";
    QuotedIsFree(bracket, f.default);
    BracketSpec(f);
    hide *;
    FieldTokens(f, []);
    var toks := [Ident(f.name), Punct(":")] + TypeToks(f, []) + ModToks(f);
    assert toks[2..] == TypeToks(f, []) + ModToks(f);
    ParseTypeToks(f, [], ModToks(f));
    assert toks[2 + |TypeToks(f, [])|..] == ModToks(f);
    ParseFlags(f, FieldDecl(f.name, TypeOf(f), false, false, "", "", "", "", ""));
    BracketSwallows("default", Tok.Str(bracket), f.onDelete, BeforeDefault(f));
    LineOf(toks, TypeOf(f), |TypeToks(f, [])|);
  }

  lemma LineOf(toks: seq<Tok>, ty: FieldType, n: nat)
    requires |toks| >= 2 && toks[0].Ident? && toks[1].text == ":" && ParseType(toks[2..]) == Some((ty, n))
    ensures FieldLine(toks) ==
      Some(Modifiers(toks[2 + n..], FieldDecl(toks[0].text, ty, false, false, "", "", "", "", "")))
  {
    hide Modifiers, ParseType;
  }

  lemma QuotedIsFree(text: string, quoted: string)
    requires '"' !in text && quoted == ['"'] + text + ['"']
    ensures FreeText(quoted) && Tokenize(quoted).toks == [Tok.Str(text)]
  {
    assert forall i :: 0 <= i < |text| ==> quoted[1..][i] == text[i];
    QuoteRunStops(quoted[1..], |text|);
    assert quoted[1..1 + |text|] == text;
    assert LexOne(quoted) == Token(Tok.Str(text), |quoted|);
    hide LexOne;
    assert quoted[|quoted|..] == "" && Plain("") && Tokenize("") == Lexed([], true);
    assert Tokenize(quoted) == Prepend(Tok.Str(text), Tokenize(quoted[|quoted|..]));
  }

  lemma BracketSpec(f: FieldSpec)
    requires f == FieldSpec("mark", "string", [], "", false, false, "\"(\"", "", "", "restrict")
    requires FreeText(f.default) && Tokenize(f.default).toks == [Tok.Str("(")]
    ensures FieldOk(f, []) && !LineCloses(f)
    ensures f.onDelete == "restrict" && IsOnDelete(f.onDelete) && BeforeDefault(f).onDelete == ""
    ensures KeyToks("default", f.default) + (KeyToks("computed", f.computed) + FormatToks(f)) ==
      [Ident("default"), Punct("="), Tok.Str("("), Ident("on_delete"), Punct("="), Ident(f.onDelete)]
  {
    hide Tokenize, FreeText;
    ScalarWord("string");
    assert [Tok.Str("(")][1..] == [];
  }

  // ---- token spacing ----------------------------------------------------------------------------

  /** A token read from free text reads back from its own text. */
  lemma TokenReads(s: string)
    requires s != "" && LexOne(s).Token?
    ensures var t := LexOne(s).tok; Part(t) != "" && Reads(Part(t), [t], false)
  {
    var t, k := LexOne(s).tok, LexOne(s).size;
    if s[0] == '"' {
      QuotedReads(t.text);
      Weaken(Part(t), [t]);
    } else {
      TokenIsPrefix(s);
      TokenAlone(s);
      hide LexOne;
      assert t.text[k..] == "" && Plain("") && Tokenize("") == Lexed([], true);
      assert Plain(t.text);
      assert Tokenize(t.text) == Prepend(t, Tokenize(t.text[k..]));
      assert Tokenize(t.text).toks == [t];
      PlainReads(t.text);
    }
  }

  lemma TokenIsPrefix(s: string)
    requires s != "" && LexOne(s).Token? && s[0] != '"'
    ensures var t, k := LexOne(s).tok, LexOne(s).size;
      t.text == s[..k] && !t.Str? && t.text != "" && Part(t) == t.text
  {
    if LexOne(s).tok.Punct? && LexOne(s).size == 2 && s[0] == '-' {
      assert s[..2] == "->";
    }
  }

  lemma TokenAlone(s: string)
    requires s != "" && LexOne(s).Token? && s[0] != '"'
    ensures var t, k := LexOne(s).tok, LexOne(s).size; s[..k] != "" && LexOne(s[..k]) == Token(t, k)
  {
    var k := LexOne(s).size;
    var u := s[..k];
    assert forall i :: 0 <= i < k ==> u[i] == s[i];
    if IsDigit(s[0]) {
      NumberAlone(s);
    } else if IsIdentRune(s[0]) {
      IdentRunStops(u, k);
      assert u[..k] == u;
    } else if k == 2 {
      assert u[..2] == u;
    }
  }

  lemma NumberAlone(s: string)
    requires s != "" && IsDigit(s[0])
    ensures var t, k := LexOne(s).tok, LexOne(s).size; s[..k] != "" && LexOne(s[..k]) == Token(t, k)
  {
    var d := DigitRun(s);
    var n := LetterRun(s[d..]);
    NumberTurn(s, d, n);
    var u := s[..d + n];
    assert forall i :: 0 <= i < d + n ==> u[i] == s[i];
    assert forall i :: 0 <= i < n ==> u[d..][i] == s[d..][i];
    assert n > 0 ==> u[d] == s[d..][0];
    DigitRunStops(u, d);
    LetterRunStops(u[d..], n);
    NumberTurn(u, d, n);
    assert u[..d + n] == u;
  }

  lemma {:induction false} SpacingReads(s: string)
    requires Plain(s)
    ensures Reads(TextOf(Tokenize(s).toks), Tokenize(s).toks, false)
    decreases |s|
  {
    hide Reads, LexOne;
    if s == "" {
      NothingReads();
    } else {
      var turn := LexOne(s);
      var rest := s[if turn.Token? then turn.size else 1..];
      SpacingReads(rest);
      if turn.Token? {
        TokenReads(s);
        SpacingJoins(turn.tok, Tokenize(rest).toks);
      }
    }
  }

  lemma SpacingJoins(t: Tok, toks: seq<Tok>)
    requires Part(t) != "" && Reads(Part(t), [t], false) && Reads(TextOf(toks), toks, false)
    ensures Reads(TextOf([t] + toks), [t] + toks, false)
  {
    hide Reads, Part;
    assert ([t] + toks)[1..] == toks;
    if toks != [] {
      BlankReads();
      TextNotEmpty(toks);
      Follow([' '], [], true, TextOf(toks), toks, false);
      Units("", toks, []);
      Follow(Part(t), [t], false, [' '] + TextOf(toks), toks, false);
      Regroup(Part(t), [' '], TextOf(toks));
    } else {
      Units("", [t], toks);
    }
  }

  lemma TextNotEmpty(toks: seq<Tok>)
    requires toks != [] && Reads(TextOf(toks), toks, false)
    ensures TextOf(toks) != ""
  {
    ReadsAlone(TextOf(toks), toks, false);
  }

  /** Free text that went through the parser has the same tokens; only the blanks between them may differ. */
  lemma SpacingKeepsTokens(s: string)
    requires Plain(s)
    ensures Tokenize(TextOf(Tokenize(s).toks)) == Tokenize(s) && Tokenize(s).clean
  {
    hide Reads;
    SpacingReads(s);
    PlainReads(s);
    ReadsAlone(s, Tokenize(s).toks, false);
    ReadsAlone(TextOf(Tokenize(s).toks), Tokenize(s).toks, false);
  }

  // ---- transition lines ----------------------------------------------------------------------------

  predicate TransitionOk(t: TransitionSpec) {
    && IsName(t.from) && IsName(t.to) && (t.auto || IsName(t.action))
    && (t.when == "" || FreeText(t.when))
    && (t.assigneeAgent == "" || IsName(t.assigneeAgent))
    && (t.approval == "" || IsName(t.approval))
  }

  /** An action that is not automatic has another name than "auto". */
  predicate ActionStands(t: TransitionSpec) {
    t.auto || t.action != "auto"
  }

  /** No clause keyword stands in the guard; brackets do not hide one. */
  predicate GuardStands(t: TransitionSpec) {
    UntilStop(Tokenize(t.when).toks) == |Tokenize(t.when).toks|
  }

  function TransitionOf(t: TransitionSpec): TransitionDecl {
    TransitionDecl(t.from, t.to, if t.auto then "auto" else t.action, t.auto, TextOf(Tokenize(t.when).toks),
                   t.assigneeAgent != "", t.assigneeAgent, t.approval, "")
  }

  function WhenToks(t: TransitionSpec): seq<Tok> {
    Given(t.when != "", [Ident("when")] + Tokenize(t.when).toks)
  }

  function AssigneeToks(t: TransitionSpec): seq<Tok> {
    Given(t.assigneeAgent != "",
          [Ident("assignee"), Punct("="), Ident("agent"), Punct("("), Ident(t.assigneeAgent), Punct(")")])
  }

  function ApprovalToks(t: TransitionSpec): seq<Tok> {
    Given(t.approval != "", [Ident("requires"), Ident("approval"), Punct("("), Ident(t.approval), Punct(")")])
  }

  lemma WordIs(w: string)
    requires w == "when" || w == "assignee" || w == "agent" || w == "requires" || w == "approval" || w == "auto"
    ensures LowerWord(w)
  {
  }

  lemma WhenText(text: string)
    ensures [' '] + ("when" + ([' '] + text)) == " when " + text
  {
  }

  lemma WhenReads(text: string)
    requires FreeText(text)
    ensures Reads(" when " + text, [Ident("when")] + Tokenize(text).toks, false)
  {
    hide Plain, Reads, Tokenize, IsName, LowerWord, FreeText;
    WordIs("when");
    WordReads("when");
    FreeNotEmpty(text);
    PlainReads(text);
    var toks := Tokenize(text).toks;
    AfterBlank(text, toks, false);
    Follow("when", [Ident("when")], false, [' '] + text, toks, false);
    AfterBlank("when" + ([' '] + text), [Ident("when")] + toks, false);
    WhenText(text);
  }

  /** word(name) */
  lemma CallReads(word: string, name: string)
    requires LowerWord(word) && IsName(name)
    ensures Reads(word + ['('] + name + [')'], [Ident(word), Punct("("), Ident(name), Punct(")")], true)
  {
    hide Reads, IsName, LowerWord;
    WordReads(word);
    NameReads(name);
    NameNotEmpty(name);
    MarkReads('(');
    MarkReads(')');
    Follow(name, [Ident(name)], false, [')'], [Punct([')'])], true);
    Follow(['('], [Punct(['('])], true, name + [')'], [Ident(name)] + [Punct([')'])], true);
    Follow(word, [Ident(word)], false, ['('] + (name + [')']), [Punct(['('])] + ([Ident(name)] + [Punct([')'])]), true);
    assert word + (['('] + (name + [')'])) == word + ['('] + name + [')'] && ['('] == "(" && [')'] == ")";
    assert [Ident(word)] + ([Punct(['('])] + ([Ident(name)] + [Punct([')'])])) ==
      [Ident(word), Punct("("), Ident(name), Punct(")")];
  }

  lemma AssigneeText(name: string)
    ensures [' '] + (("assignee" + ['=']) + ("agent" + ['('] + name + [')'])) == " assignee=agent(" + name + ")"
    ensures [Ident("assignee"), Punct(['='])] + [Ident("agent"), Punct("("), Ident(name), Punct(")")] ==
            [Ident("assignee"), Punct("="), Ident("agent"), Punct("("), Ident(name), Punct(")")]
  {
    assert ['='] == "=";
  }

  lemma AssigneeReads(name: string)
    requires IsName(name)
    ensures Reads(" assignee=agent(" + name + ")",
                  [Ident("assignee"), Punct("="), Ident("agent"), Punct("("), Ident(name), Punct(")")], false)
  {
    hide Reads, IsName, LowerWord;
    WordIs("assignee");
    WordIs("agent");
    WordReads("assignee");
    KeyReads("assignee");
    CallReads("agent", name);
    var call, toks := "agent" + ['('] + name + [')'], [Ident("agent"), Punct("("), Ident(name), Punct(")")];
    var key := "assignee" + ['='];
    assert call != "";
    Follow(key, [Ident("assignee"), Punct(['='])], true, call, toks, true);
    AssigneeText(name);
    AfterBlank(key + call, [Ident("assignee"), Punct(['='])] + toks, true);
    Weaken(" assignee=agent(" + name + ")",
      [Ident("assignee"), Punct("="), Ident("agent"), Punct("("), Ident(name), Punct(")")]);
  }

  lemma ApprovalText(name: string)
    ensures [' '] + ("requires" + ([' '] + ("approval" + ['('] + name + [')']))) == " requires approval(" + name + ")"
    ensures [Ident("requires")] + [Ident("approval"), Punct("("), Ident(name), Punct(")")] ==
            [Ident("requires"), Ident("approval"), Punct("("), Ident(name), Punct(")")]
  {
  }

  lemma ApprovalReads(name: string)
    requires IsName(name)
    ensures Reads(" requires approval(" + name + ")",
                  [Ident("requires"), Ident("approval"), Punct("("), Ident(name), Punct(")")], false)
  {
    hide Reads, IsName, LowerWord;
    WordIs("requires");
    WordIs("approval");
    WordReads("requires");
    CallReads("approval", name);
    var call, toks := "approval" + ['('] + name + [')'], [Ident("approval"), Punct("("), Ident(name), Punct(")")];
    assert call != "";
    AfterBlank(call, toks, true);
    Follow("requires", [Ident("requires")], false, [' '] + call, toks, true);
    AfterBlank("requires" + ([' '] + call), [Ident("requires")] + toks, true);
    ApprovalText(name);
    Weaken(" requires approval(" + name + ")",
      [Ident("requires"), Ident("approval"), Punct("("), Ident(name), Punct(")")]);
  }

  /** An optional clause appended to what reads already. */
  lemma AppendClause(s: string, toks: seq<Tok>, given: bool, clause: string, more: seq<Tok>)
    requires Reads(s, toks, false)
    requires given ==> clause != "" && clause[0] == ' ' && Reads(clause, more, false)
    ensures Reads(s + (if given then clause else ""), toks + Given(given, more), false)
  {
    if given {
      hide Reads;
      Follow(s, toks, false, clause, more, false);
    } else {
      assert s + "" == s && toks + [] == toks;
    }
  }

  lemma EdgeText(from: string, to: string, action: string)
    ensures from + ([' '] + (['-', '>'] + ([' '] + (to + ([':'] + ([' '] + action)))))) ==
      from + " -> " + to + ": " + action
    ensures [Ident(from)] + ([Punct("->")] + ([Ident(to)] + ([Punct([':'])] + [Ident(action)]))) ==
            [Ident(from), Punct("->"), Ident(to), Punct(":"), Ident(action)]
  {
    assert [':'] == ":";
  }

  lemma ArrowEdge(from: string, to: string, action: string)
    requires IsName(from) && IsName(to) && IsName(action)
    ensures Reads(from + " -> " + to + ": " + action, [Ident(from), Punct("->"), Ident(to), Punct(":"), Ident(action)],
      false)
  {
    hide Reads, IsName;
    NameReads(action);
    NameReads(from);
    NameReads(to);
    NameNotEmpty(action);
    NameNotEmpty(to);
    ArrowReads();
    MarkReads(':');
    AfterBlank(action, [Ident(action)], false);
    Follow([':'], [Punct([':'])], true, [' '] + action, [Ident(action)], false);
    var b, bs := [Punct([':'])] + [Ident(action)], [':'] + ([' '] + action);
    Follow(to, [Ident(to)], false, bs, b, false);
    var c, cs := [Ident(to)] + b, to + bs;
    AfterBlank(cs, c, false);
    Follow(['-', '>'], [Punct("->")], true, [' '] + cs, c, false);
    var d, ds := [Punct("->")] + c, ['-', '>'] + ([' '] + cs);
    AfterBlank(ds, d, false);
    Follow(from, [Ident(from)], false, [' '] + ds, d, false);
    EdgeText(from, to, action);
  }

  lemma EdgeReads(t: TransitionSpec)
    requires TransitionOk(t)
    ensures var action := if t.auto then "auto" else t.action;
      Reads(t.from + " -> " + t.to + ": " + action,
        [Ident(t.from), Punct("->"), Ident(t.to), Punct(":"), Ident(action)], false)
  {
    hide Reads, IsName, LowerWord, FreeText, Tokenize, UntilStop;
    WordIs("auto");
    WordReads("auto");
    ArrowEdge(t.from, t.to, if t.auto then "auto" else t.action);
  }

  lemma TransitionTokens(t: TransitionSpec)
    requires TransitionOk(t)
    ensures var action := if t.auto then "auto" else t.action;
      Tokenize(RenderTransition(t)) ==
      Lexed([Ident(t.from), Punct("->"), Ident(t.to), Punct(":"), Ident(action)] + WhenToks(t) + AssigneeToks(t) +
        ApprovalToks(t), true)
  {
    hide Reads, IsName, Tokenize, Given;
    var action := if t.auto then "auto" else t.action;
    var s0, t0 := t.from + " -> " + t.to + ": " + action,
      [Ident(t.from), Punct("->"), Ident(t.to), Punct(":"), Ident(action)];
    EdgeReads(t);
    if t.when != "" { WhenReads(t.when); }
    if t.assigneeAgent != "" { AssigneeReads(t.assigneeAgent); }
    if t.approval != "" { ApprovalReads(t.approval); }
    AppendClause(s0, t0, t.when != "", " when " + t.when, [Ident("when")] + Tokenize(t.when).toks);
    var s1, t1 := s0 + (if t.when != "" then " when " + t.when else ""), t0 + WhenToks(t);
    AppendClause(s1, t1, t.assigneeAgent != "", " assignee=agent(" + t.assigneeAgent + ")",
                 [Ident("assignee"), Punct("="), Ident("agent"), Punct("("), Ident(t.assigneeAgent), Punct(")")]);
    var s2, t2 := s1 + (if t.assigneeAgent != "" then " assignee=agent(" + t.assigneeAgent + ")" else ""),
      t1 + AssigneeToks(t);
    AppendClause(s2, t2, t.approval != "", " requires approval(" + t.approval + ")",
                 [Ident("requires"), Ident("approval"), Punct("("), Ident(t.approval), Punct(")")]);
    ReadsAlone(s2 + (if t.approval != "" then " requires approval(" + t.approval + ")" else ""), t2 + ApprovalToks(t),
      false);
  }

  predicate StopAhead(rest: seq<Tok>) {
    rest == [] || (rest[0].Ident? && StopKeyword(rest[0].text))
  }

  lemma {:induction false} UntilStopAhead(toks: seq<Tok>, rest: seq<Tok>)
    requires StopAhead(rest)
    ensures UntilStop(toks + rest) == |toks| <==> UntilStop(toks) == |toks|
  {
    hide StopKeyword;
    if toks == [] {
      assert toks + rest == rest;
    } else {
      assert (toks + rest)[1..] == toks[1..] + rest;
      UntilStopAhead(toks[1..], rest);
    }
  }

  lemma ParseWhen(toks: seq<Tok>, rest: seq<Tok>, tr: TransitionDecl)
    requires UntilStop(toks) == |toks| && StopAhead(rest)
    ensures Clauses(([Ident("when")] + toks) + rest, tr) == Clauses(rest, tr.(when := TextOf(toks)))
  {
    hide TextOf, UntilStop, StopAhead;
    var all := ([Ident("when")] + toks) + rest;
    assert all[1..] == toks + rest;
    UntilStopAhead(toks, rest);
    assert all[1..1 + |toks|] == toks && all[1 + |toks|..] == rest;
  }

  lemma ParseAssignee(name: string, rest: seq<Tok>, tr: TransitionDecl)
    ensures Clauses([Ident("assignee"), Punct("="), Ident("agent"), Punct("("), Ident(name), Punct(")")] + rest, tr) ==
      Clauses(rest, tr.(assigneeAgent := true, assigneeRole := name))
  {
    var all := [Ident("assignee"), Punct("="), Ident("agent"), Punct("("), Ident(name), Punct(")")] + rest;
    assert all[6..] == rest;
  }

  lemma ParseApproval(name: string, tr: TransitionDecl)
    ensures Clauses([Ident("requires"), Ident("approval"), Punct("("), Ident(name), Punct(")")], tr) ==
      Parsed(tr.(approvalRole := name), true)
  {
    var all := [Ident("requires"), Ident("approval"), Punct("("), Ident(name), Punct(")")];
    assert all[5..] == [];
  }

  lemma NoClauses(tr: TransitionDecl)
    ensures Clauses([], tr) == Parsed(tr, true)
  {
  }

  lemma StopChain(t: TransitionSpec)
    ensures StopAhead(AssigneeToks(t) + ApprovalToks(t))
  {
    assert StopKeyword("assignee") && StopKeyword("requires");
  }

  lemma GuardLength(t: TransitionSpec)
    requires t.when == "" || FreeText(t.when)
    ensures var w, a, r := WhenToks(t), AssigneeToks(t), ApprovalToks(t);
      var d := TransitionOf(t);
      && Length(w + (a + r)) <= ClausesWeight(d) + 1
      && (t.when != "" ==> TextOf(Tokenize(t.when).toks) != "")
  {
    var w, a, r := WhenToks(t), AssigneeToks(t), ApprovalToks(t);
    var toks := Tokenize(t.when).toks;
    LengthJoins(w, a + r);
    LengthJoins(a, r);
    NoText();
    if t.when != "" {
      FreeTextHas(t.when);
      LengthIs(toks);
      assert ([Ident("when")] + toks)[1..] == toks;
    }
    hide Tokenize, TextOf, FreeText;
    CallsLength(t.assigneeAgent, t.approval);
  }

  lemma CallsLength(agent: string, role: string)
    ensures Length([Ident("assignee"), Punct("="), Ident("agent"), Punct("("), Ident(agent), Punct(")")])
         == 22 + |agent|
    ensures Length([Ident("requires"), Ident("approval"), Punct("("), Ident(role), Punct(")")]) == 23 + |role|
  {
    TailsOfCalls(agent, role);
    hide Length;
    PairLength(Ident("assignee"), Punct("="));
    PairLength(Ident("agent"), Punct("("));
    PairLength(Ident(agent), Punct(")"));
    PairLength(Ident("requires"), Ident("approval"));
    PairLength(Ident(role), Punct(")"));
    LengthJoins([Ident("assignee"), Punct("=")], [Ident("agent"), Punct("(")]);
    LengthJoins([Ident("assignee"), Punct("=")] + [Ident("agent"), Punct("(")], [Ident(agent), Punct(")")]);
    LengthJoins([Ident("requires"), Ident("approval")], [Punct("(")]);
    LengthJoins([Ident("requires"), Ident("approval")] + [Punct("(")], [Ident(role), Punct(")")]);
  }

  lemma TailsOfCalls(agent: string, role: string)
    ensures [Ident("assignee"), Punct("="), Ident("agent"), Punct("("), Ident(agent), Punct(")")] ==
      ([Ident("assignee"), Punct("=")] + [Ident("agent"), Punct("(")]) + [Ident(agent), Punct(")")]
    ensures [Ident("requires"), Ident("approval"), Punct("("), Ident(role), Punct(")")] ==
      ([Ident("requires"), Ident("approval")] + [Punct("(")]) + [Ident(role), Punct(")")]
    ensures Length([Punct("(")]) == 2
  {
    assert [Punct("(")][1..] == [];
  }

  lemma PairLength(t: Tok, u: Tok)
    requires !t.Str? && !u.Str?
    ensures Length([t, u]) == |t.text| + |u.text| + 2
  {
    assert Part(t) == t.text && Part(u) == u.text;
    hide Part;
    assert Length([u]) == |Part(u)| + 1 by { assert [u][1..] == []; }
    assert [t, u][1..] == [u];
  }

  /** The declaration when the clauses are reached. */
  function BeforeClauses(t: TransitionSpec): TransitionDecl {
    var action := if t.auto then "auto" else t.action;
    TransitionDecl(t.from, t.to, action, action == "auto", "", false, "", "", "")
  }

  lemma ClausesOfLine(t: TransitionSpec)
    requires TransitionOk(t)
    ensures Tokenize(RenderTransition(t)).clean
    ensures TransitionLine(Tokenize(RenderTransition(t)).toks) ==
      Some(Clauses(WhenToks(t) + (AssigneeToks(t) + ApprovalToks(t)), BeforeClauses(t)))
  {
    hide *;
    var action := if t.auto then "auto" else t.action;
    TransitionTokens(t);
    ClausesFrom(t.from, t.to, action, WhenToks(t), AssigneeToks(t), ApprovalToks(t));
    BeforeClausesIs(t);
  }

  lemma BeforeClausesIs(t: TransitionSpec)
    ensures var action := if t.auto then "auto" else t.action;
      BeforeClauses(t) == TransitionDecl(t.from, t.to, action, action == "auto", "", false, "", "", "")
  {
  }

  lemma ClausesFrom(from: string, to: string, action: string, w: seq<Tok>, a: seq<Tok>, r: seq<Tok>)
    ensures TransitionLine([Ident(from), Punct("->"), Ident(to), Punct(":"), Ident(action)] + w + a + r) ==
      Some(Clauses(w + (a + r), TransitionDecl(from, to, action, action == "auto", "", false, "", "", "")))
  {
    hide Clauses;
    var toks := [Ident(from), Punct("->"), Ident(to), Punct(":"), Ident(action)] + w + a + r;
    assert toks[5..] == w + (a + r);
  }

  /** A rendered transition line tokenizes without error, and parses back to what it was rendered from exactly
      when its action is not taken for "auto" and its guard holds no clause keyword. */
  lemma TransitionRoundTrip(t: TransitionSpec)
    requires TransitionOk(t)
    ensures Tokenize(RenderTransition(t)).clean
    ensures TransitionLine(Tokenize(RenderTransition(t)).toks) == Some(Parsed(TransitionOf(t), true)) <==>
      ActionStands(t) && GuardStands(t)
  {
    ClausesOfLine(t);
    assert t.when == "" ==> GuardStands(t) by { NoGuard(); }
    hide RenderTransition, TransitionLine, Clauses, WhenToks, AssigneeToks, ApprovalToks, TransitionOk, TextOf,
      Tokenize, GuardStands, Length, ClausesWeight;
    ClausesBound(WhenToks(t) + (AssigneeToks(t) + ApprovalToks(t)), BeforeClauses(t));
    ParseGuard(t, BeforeClauses(t));
    ParseCalls(t, BeforeClauses(t).(when := TextOf(Tokenize(t.when).toks)));
  }

  lemma NoGuard()
    ensures UntilStop(Tokenize("").toks) == |Tokenize("").toks|
  {
  }

  /** The guard's clause is read as the guard exactly when the guard stands. */
  lemma ParseGuard(t: TransitionSpec, d0: TransitionDecl)
    requires TransitionOk(t) && d0.from == t.from && d0.to == t.to && d0.when == "" && !d0.assigneeAgent
    requires d0.assigneeRole == d0.approvalRole == d0.caption == ""
    ensures var all := WhenToks(t) + (AssigneeToks(t) + ApprovalToks(t));
      if t.when == "" || GuardStands(t) then
        Clauses(all, d0) == Clauses(AssigneeToks(t) + ApprovalToks(t), d0.(when := TextOf(Tokenize(t.when).toks)))
      else Clauses(all, d0).decl != TransitionOf(t)
  {
    hide Clauses, IsName, TextOf, StopAhead, UntilStop, FreeText, Length, AssigneeToks, ApprovalToks;
    var toks, rest := Tokenize(t.when).toks, AssigneeToks(t) + ApprovalToks(t);
    NoText();
    GuardLength(t);
    StopChain(t);
    UntilStopAhead(toks, rest);
    hide Tokenize;
    if t.when == "" {
      assert WhenToks(t) + rest == rest;
    } else if GuardStands(t) {
      ParseWhen(toks, rest, d0);
    } else {
      assert WhenToks(t) + rest == [Ident("when")] + (toks + rest);
      GuardMisread(toks, rest, d0, TransitionOf(t));
    }
  }

  lemma ParseCalls(t: TransitionSpec, d1: TransitionDecl)
    requires !d1.assigneeAgent && d1.assigneeRole == "" && d1.approvalRole == ""
    ensures Clauses(AssigneeToks(t) + ApprovalToks(t), d1) ==
      Parsed(d1.(assigneeAgent := t.assigneeAgent != "", assigneeRole := t.assigneeAgent, approvalRole := t.approval),
        true)
  {
    hide Clauses;
    var a, r := AssigneeToks(t), ApprovalToks(t);
    var d2 := d1.(assigneeAgent := t.assigneeAgent != "", assigneeRole := t.assigneeAgent);
    if t.assigneeAgent != "" {
      ParseAssignee(t.assigneeAgent, r, d1);
    } else {
      assert a + r == r;
    }
    if t.approval != "" {
      ParseApproval(t.approval, d2);
    } else {
      NoClauses(d2);
    }
  }
}
