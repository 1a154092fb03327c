/** The definition language's lexer: one trimmed line into tokens. */
module DslLexer {
  import opened Values

  datatype Tok = Ident(text: string) | Numeral(text: string) | Str(text: string) | Punct(text: string)

  /** Letters of the first 256 code points: the lexer looks at one byte at a time. */
  predicate IsLetter(ch: char) {
    || 'a' <= ch <= 'z' || 'A' <= ch <= 'Z'
    || ch == '\U{AA}' || ch == '\U{B5}' || ch == '\U{BA}'
    || ('\U{C0}' <= ch <= '\U{FF}' && ch != '\U{D7}' && ch != '\U{F7}')
  }

  predicate IsIdentRune(ch: char) { IsLetter(ch) || IsDigit(ch) || ch == '_' || ch == '$' }

  predicate IsMark(ch: char) {
    ch == ':' || ch == ',' || ch == '[' || ch == ']' || ch == '(' || ch == ')' || ch == '=' || ch == '.' ||
    ch == '*' || ch == '<' || ch == '>' || ch == '+' || ch == '-' || ch == '/'
  }

  function IdentRun(s: string): (k: nat)
    ensures k <= |s| && (forall i :: 0 <= i < k ==> IsIdentRune(s[i])) && (k < |s| ==> !IsIdentRune(s[k]))
  {
    if s == "" || !IsIdentRune(s[0]) then 0 else 1 + IdentRun(s[1..])
  }

  function LetterRun(s: string): (k: nat)
    ensures k <= |s| && (forall i :: 0 <= i < k ==> IsLetter(s[i])) && (k < |s| ==> !IsLetter(s[k]))
  {
    if s == "" || !IsLetter(s[0]) then 0 else 1 + LetterRun(s[1..])
  }

  function DigitRun(s: string): (k: nat)
    ensures k <= |s| && (forall i :: 0 <= i < k ==> IsDigit(s[i]) || s[i] == '.')
    ensures k < |s| ==> !IsDigit(s[k]) && s[k] != '.'
  {
    if s == "" || !(IsDigit(s[0]) || s[0] == '.') then 0 else 1 + DigitRun(s[1..])
  }

  /** One turn of the lexer's loop. */
  datatype Turn = Blank | Token(tok: Tok, size: nat) | Stray | Comment | Unterminated

  function LexOne(s: string): (r: Turn)
    requires s != ""
    ensures r.Token? ==> 0 < r.size <= |s|
  {
    var ch := s[0];
    if ch == ' ' then Blank
    else if ch == '#' then Comment
    else if ch == '"' then
      var k := QuoteRun(s[1..]);
      if 1 + k < |s| then Token(Tok.Str(s[1..1 + k]), k + 2) else Unterminated
    else if IsDigit(ch) then
      var k := DigitRun(s);
      var n := k + LetterRun(s[k..]);
      Token(Numeral(s[..n]), n)
    else if IsIdentRune(ch) then
      var k := IdentRun(s);
      Token(Ident(s[..k]), k)
    else if ch == '-' && |s| > 1 && s[1] == '>' then Token(Punct("->"), 2)
    else if (ch == '<' || ch == '>' || ch == '!') && |s| > 1 && s[1] == '=' then Token(Punct(s[..2]), 2)
    else if IsMark(ch) then Token(Punct([ch]), 1)
    else Stray
  }

  /** The tokens of a line, and whether no error was reported. */
  datatype Lexed = Lexed(toks: seq<Tok>, clean: bool)

  function Prepend(t: Tok, rest: Lexed): Lexed {
    Lexed([t] + rest.toks, rest.clean)
  }

  function Tokenize(s: string): Lexed
    decreases |s|
  {
    if s == "" then Lexed([], true)
    else
      match LexOne(s)
      case Blank => Tokenize(s[1..])
      case Token(t, k) => Prepend(t, Tokenize(s[k..]))
      case Stray => Lexed(Tokenize(s[1..]).toks, false)
      case Comment => Lexed([], true)
      case Unterminated => Lexed([], false)
  }

  function Joined(out: seq<Tok>, clean: bool, rest: Lexed): Lexed {
    Lexed(out + rest.toks, clean && rest.clean)
  }

  lemma JoinedSteps(out: seq<Tok>, clean: bool, rest: Lexed)
    ensures forall t :: Joined(out, clean, Prepend(t, rest)) == Joined(out + [t], clean, rest)
    ensures Joined([], true, rest) == rest
    ensures Joined(out, clean, Lexed([], true)) == Lexed(out, clean)
    ensures Joined(out, clean, Lexed([], false)) == Lexed(out, false)
  {
    forall t ensures Joined(out, clean, Prepend(t, rest)) == Joined(out + [t], clean, rest) {
      assert out + ([t] + rest.toks) == (out + [t]) + rest.toks;
    }
    assert [] + rest.toks == rest.toks && out + [] == out;
  }

  /** The lexer as it runs. */
  method TokenizeLine(s: string) returns (toks: seq<Tok>, clean: bool)
    ensures Lexed(toks, clean) == Tokenize(s)
  {
    hide LexOne, Joined;
    toks, clean := [], true;
    var i := 0;
    assert s[0..] == s;
    JoinedSteps([], true, Tokenize(s));
    while i < |s|
      invariant 0 <= i <= |s|
      invariant Tokenize(s) == Joined(toks, clean, Tokenize(s[i..]))
      decreases |s| - i
    {
      match LexOne(s[i..]) {
        case Blank =>
          assert s[i..][1..] == s[i + 1..];
          i := i + 1;
        case Token(t, k) =>
          assert s[i..][k..] == s[i + k..];
          JoinedSteps(toks, clean, Tokenize(s[i + k..]));
          toks := toks + [t];
          i := i + k;
        case Stray =>
          assert s[i..][1..] == s[i + 1..];
          StrayStep(toks, clean, Tokenize(s[i + 1..]));
          clean := false;
          i := i + 1;
        case Comment =>
          JoinedSteps(toks, clean, Lexed([], true));
          return;
        case Unterminated =>
          JoinedSteps(toks, clean, Lexed([], false));
          return toks, false;
      }
    }
    assert s[i..] == "";
    JoinedSteps(toks, clean, Lexed([], true));
  }

  lemma StrayStep(out: seq<Tok>, clean: bool, rest: Lexed)
    ensures Joined(out, clean, Lexed(rest.toks, false)) == Joined(out, false, rest)
  {
  }
}
