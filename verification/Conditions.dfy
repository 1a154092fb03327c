/** The condition language: lexer, precedence parser and short-circuit evaluator. */
module Conditions {
  import opened Values

  // ---- lexer ------------------------------------------------------------------

  datatype Tok = Word(text: string) | NumTok(text: string) | StrTok(text: string) | Punct(text: string)

  predicate IsWordByte(c: char) {
    'a' <= c <= 'z' || 'A' <= c <= 'Z' || IsDigit(c) || c == '_' || c == '$'
  }

  predicate WordOrDot(c: char) { IsWordByte(c) || c == '.' }

  predicate DigitOrDot(c: char) { IsDigit(c) || c == '.' }

  function WordRun(s: string): (k: nat)
    ensures k <= |s| && (forall i :: 0 <= i < k ==> WordOrDot(s[i])) && (k < |s| ==> !WordOrDot(s[k]))
  {
    if s == "" || !WordOrDot(s[0]) then 0 else 1 + WordRun(s[1..])
  }

  function NumRun(s: string): (k: nat)
    ensures k <= |s| && (forall i :: 0 <= i < k ==> DigitOrDot(s[i])) && (k < |s| ==> !DigitOrDot(s[k]))
  {
    if s == "" || !DigitOrDot(s[0]) then 0 else 1 + NumRun(s[1..])
  }

  predicate IsBracket(c: char) { c == '(' || c == ')' || c == '[' || c == ']' || c == ',' }

  /** One step of the lexer: a blank, a token with its length, or a character that fits nothing. */
  datatype LexStep = Blank | Lexed(tok: Tok, size: nat) | Stray

  function LexOne(s: string): (r: LexStep)
    requires s != ""
    ensures r.Lexed? ==> 0 < r.size <= |s|
  {
    var c := s[0];
    var nextIsEq := |s| > 1 && s[1] == '=';
    if c == ' ' || c == '\t' then Blank
    else if c == '"' then
      var k := QuoteRun(s[1..]);
      if 1 + k < |s| then Lexed(StrTok(s[1..1 + k]), k + 2) else Stray
    else if IsBracket(c) || c == '=' then Lexed(Punct([c]), 1)
    else if c == '!' && nextIsEq then Lexed(Punct("!="), 2)
    else if (c == '>' || c == '<') && nextIsEq then Lexed(Punct(s[..2]), 2)
    else if c == '>' || c == '<' then Lexed(Punct([c]), 1)
    else if IsDigit(c) || (c == '-' && |s| > 1 && IsDigit(s[1])) then
      var k := 1 + NumRun(s[1..]);
      Lexed(NumTok(s[..k]), k)
    else if IsWordByte(c) then
      var k := WordRun(s);
      Lexed(Word(s[..k]), k)
    else Stray
  }

  function Prepend(out: seq<Tok>, rest: Option<seq<Tok>>): Option<seq<Tok>> {
    if rest.Some? then Some(out + rest.value) else None
  }

  lemma PrependTwice(out: seq<Tok>, t: Tok, rest: Option<seq<Tok>>)
    ensures Prepend(out, Prepend([t], rest)) == Prepend(out + [t], rest)
    ensures Prepend([], rest) == rest
  {
    if rest.Some? {
      assert out + ([t] + rest.value) == (out + [t]) + rest.value;
      assert [] + rest.value == rest.value;
    }
  }

  function Lex(s: string): Option<seq<Tok>>
    decreases |s|
  {
    if s == "" then Some([])
    else
      match LexOne(s)
      case Blank => Lex(s[1..])
      case Lexed(t, k) => Prepend([t], Lex(s[k..]))
      case Stray => None
  }

  /** The lexer as it runs: an index over the text, a growing token list. */
  method LexExpr(s: string) returns (toks: Option<seq<Tok>>)
    ensures toks == Lex(s)
  {
    hide LexOne;
    var out: seq<Tok> := [];
    var i := 0;
    assert s[0..] == s;
    PrependTwice([], Word(""), Lex(s));
    while i < |s|
      invariant 0 <= i <= |s|
      invariant Lex(s) == Prepend(out, Lex(s[i..]))
      decreases |s| - i
    {
      match LexOne(s[i..]) {
        case Blank =>
          assert s[i..][1..] == s[i + 1..];
          i := i + 1;
        case Lexed(t, k) =>
          assert s[i..][k..] == s[i + k..];
          PrependTwice(out, t, Lex(s[i + k..]));
          out := out + [t];
          i := i + k;
        case Stray =>
          return None;
      }
    }
    assert s[i..] == "" && out + [] == out;
    return Some(out);
  }

  // ---- trees ------------------------------------------------------------------

  /** A path or a literal, with its text. */
  datatype Operand = Path(text: string) | Lit(text: string)

  datatype Node =
    | And(left: Node, right: Node)
    | Or(left: Node, right: Node)
    | Not(inner: Node)
    | Cmp(subject: Operand, op: string, object_: Operand)
    | In(subject: Operand, list: seq<Operand>)
    | Truthy(subject: Operand)

  predicate IsCmpOp(text: string) {
    text == "=" || text == "!=" || text == ">" || text == "<" || text == ">=" || text == "<="
  }

  predicate WordLiteral(text: string) {
    (text != "" && text[0] == '$') || text == "true" || text == "false" || text == "null"
  }

  // ---- parser -----------------------------------------------------------------

  predicate Starts(ts: seq<Tok>, t: Tok) { ts != [] && ts[0] == t }

  type Parsed<+T> = Option<(T, seq<Tok>)>

  function ParseOperand(ts: seq<Tok>): (r: Parsed<Operand>)
    ensures r.Some? ==> ts != [] && r.value.1 == ts[1..]
  {
    if ts == [] then None
    else match ts[0]
      case Word(text) => Some((if WordLiteral(text) then Lit(text) else Path(text), ts[1..]))
      case NumTok(text) => Some((Lit(text), ts[1..]))
      case StrTok(text) => Some((Lit(text), ts[1..]))
      case Punct(_) => None
  }

  /** The rest of an in-list, up to and including its closing bracket; commas are optional. */
  function ParseList(ts: seq<Tok>, list: seq<Operand>): (r: Parsed<seq<Operand>>)
    ensures r.Some? ==> |r.value.1| < |ts|
    decreases |ts|
  {
    if Starts(ts, Punct("]")) then Some((list, ts[1..]))
    else
      var o := ParseOperand(ts);
      if o.None? then None
      else
        var rest := o.value.1;
        ParseList(if Starts(rest, Punct(",")) then rest[1..] else rest, list + [o.value.0])
  }

  function ParseComparison(ts: seq<Tok>): (r: Parsed<Node>)
    ensures r.Some? ==> |r.value.1| < |ts|
  {
    var left := ParseOperand(ts);
    if left.None? then None
    else
      var (o, rest) := left.value;
      if Starts(rest, Word("in")) then
        if !Starts(rest[1..], Punct("[")) then None
        else
          var list := ParseList(rest[2..], []);
          if list.None? then None else Some((In(o, list.value.0), list.value.1))
      else if rest == [] || !rest[0].Punct? || !IsCmpOp(rest[0].text) then Some((Truthy(o), rest))
      else
        var right := ParseOperand(rest[1..]);
        if right.None? then None else Some((Cmp(o, rest[0].text, right.value.0), right.value.1))
  }

  function ParseUnary(ts: seq<Tok>): (r: Parsed<Node>)
    ensures r.Some? ==> |r.value.1| < |ts|
    decreases |ts|, 0
  {
    if Starts(ts, Word("not")) then
      var inner := ParseUnary(ts[1..]);
      if inner.None? then None else Some((Not(inner.value.0), inner.value.1))
    else if Starts(ts, Punct("(")) then
      var inner := ParseOr(ts[1..]);
      if inner.None? || !Starts(inner.value.1, Punct(")")) then None else Some((inner.value.0, inner.value.1[1..]))
    else ParseComparison(ts)
  }

  function ParseAnd(ts: seq<Tok>): (r: Parsed<Node>)
    ensures r.Some? ==> |r.value.1| < |ts|
    decreases |ts|, 1
  {
    var left := ParseUnary(ts);
    if left.None? then None else AndTail(left.value.0, left.value.1)
  }

  function AndTail(left: Node, ts: seq<Tok>): (r: Parsed<Node>)
    ensures r.Some? ==> |r.value.1| <= |ts|
    decreases |ts|, 0
  {
    if !Starts(ts, Word("and")) then Some((left, ts))
    else
      var right := ParseUnary(ts[1..]);
      if right.None? then None else AndTail(And(left, right.value.0), right.value.1)
  }

  function ParseOr(ts: seq<Tok>): (r: Parsed<Node>)
    ensures r.Some? ==> |r.value.1| < |ts|
    decreases |ts|, 2
  {
    var left := ParseAnd(ts);
    if left.None? then None else OrTail(left.value.0, left.value.1)
  }

  function OrTail(left: Node, ts: seq<Tok>): (r: Parsed<Node>)
    ensures r.Some? ==> |r.value.1| <= |ts|
    decreases |ts|, 0
  {
    if !Starts(ts, Word("or")) then Some((left, ts))
    else
      var right := ParseAnd(ts[1..]);
      if right.None? then None else OrTail(Or(left, right.value.0), right.value.1)
  }

  /** The parser as it runs: a position moving over a fixed token list. */
  class ExprParser {
    const toks: seq<Tok>
    var pos: nat

    ghost predicate Valid()
      reads this
    {
      pos <= |toks|
    }

    constructor (toks: seq<Tok>)
      ensures Valid() && this.toks == toks && pos == 0
    {
      this.toks, pos := toks, 0;
    }

    function Rest(): seq<Tok>
      requires Valid()
      reads this
    {
      toks[pos..]
    }

    predicate At(t: Tok)
      requires Valid()
      reads this
      ensures At(t) == Starts(Rest(), t)
    {
      pos < |toks| && toks[pos] == t
    }

    method Operand() returns (r: Option<Operand>)
      requires Valid()
      modifies this
      ensures Valid() && pos >= old(pos)
      ensures var p := ParseOperand(old(Rest()));
        if p.None? then r.None? && pos == old(pos) else r == Some(p.value.0) && Rest() == p.value.1
    {
      if pos == |toks| {
        return None;
      }
      var t := toks[pos];
      assert Rest()[1..] == toks[pos + 1..];
      match t {
        case Word(text) =>
          pos := pos + 1;
          r := Some(if WordLiteral(text) then Lit(text) else Path(text));
        case NumTok(text) =>
          pos := pos + 1;
          r := Some(Lit(text));
        case StrTok(text) =>
          pos := pos + 1;
          r := Some(Lit(text));
        case Punct(_) =>
          r := None;
      }
    }

    method ListItems() returns (r: Option<seq<Operand>>)
      requires Valid()
      modifies this
      ensures Valid() && pos >= old(pos)
      ensures var p := ParseList(old(Rest()), []);
        if p.None? then r.None? else r == Some(p.value.0) && Rest() == p.value.1
    {
      var list: seq<Operand> := [];
      while !At(Punct("]"))
        invariant Valid() && pos >= old(pos)
        invariant ParseList(Rest(), list) == ParseList(old(Rest()), [])
        decreases |toks| - pos
      {
        var o := Operand();
        if o.None? {
          return None;
        }
        list := list + [o.value];
        if At(Punct(",")) {
          assert Rest()[1..] == toks[pos + 1..];
          pos := pos + 1;
        }
      }
      assert Rest()[1..] == toks[pos + 1..];
      pos := pos + 1;
      r := Some(list);
    }

    method Comparison() returns (r: Option<Node>)
      requires Valid()
      modifies this
      ensures Valid() && pos >= old(pos)
      ensures var p := ParseComparison(old(Rest()));
        if p.None? then r.None? else r == Some(p.value.0) && Rest() == p.value.1
    {
      var left := Operand();
      if left.None? {
        return None;
      }
      ghost var rest := Rest();
      if At(Word("in")) {
        pos := pos + 1;
        assert Rest() == rest[1..];
        if !At(Punct("[")) {
          return None;
        }
        pos := pos + 1;
        assert Rest() == rest[2..];
        var list := ListItems();
        return if list.None? then None else Some(In(left.value, list.value));
      }
      if pos == |toks| || !toks[pos].Punct? || !IsCmpOp(toks[pos].text) {
        return Some(Truthy(left.value));
      }
      var op := toks[pos].text;
      pos := pos + 1;
      assert Rest() == rest[1..];
      var right := Operand();
      r := if right.None? then None else Some(Cmp(left.value, op, right.value));
    }

    method Unary() returns (r: Option<Node>)
      requires Valid()
      modifies this
      ensures Valid() && pos >= old(pos)
      ensures var p := ParseUnary(old(Rest()));
        if p.None? then r.None? else r == Some(p.value.0) && Rest() == p.value.1
      decreases |toks| - pos, 0
    {
      ghost var start := Rest();
      if At(Word("not")) {
        pos := pos + 1;
        assert Rest() == start[1..];
        var inner := Unary();
        return if inner.None? then None else Some(Not(inner.value));
      }
      if At(Punct("(")) {
        pos := pos + 1;
        assert Rest() == start[1..];
        var inner := OrExpr();
        if inner.None? || !At(Punct(")")) {
          return None;
        }
        assert Rest()[1..] == toks[pos + 1..];
        pos := pos + 1;
        return inner;
      }
      r := Comparison();
    }

    method AndExpr() returns (r: Option<Node>)
      requires Valid()
      modifies this
      ensures Valid() && pos >= old(pos)
      ensures var p := ParseAnd(old(Rest()));
        if p.None? then r.None? else r == Some(p.value.0) && Rest() == p.value.1
      decreases |toks| - pos, 1
    {
      var left := Unary();
      while left.Some? && At(Word("and"))
        invariant Valid() && pos >= old(pos)
        invariant left.None? ==> ParseAnd(old(Rest())).None?
        invariant left.Some? ==> pos > old(pos) && ParseAnd(old(Rest())) == AndTail(left.value, Rest())
        decreases left.Some?, |toks| - pos
      {
        ghost var rest := Rest();
        pos := pos + 1;
        assert Rest() == rest[1..];
        var right := Unary();
        left := if right.None? then None else Some(And(left.value, right.value));
      }
      r := left;
    }

    method OrExpr() returns (r: Option<Node>)
      requires Valid()
      modifies this
      ensures Valid() && pos >= old(pos)
      ensures var p := ParseOr(old(Rest()));
        if p.None? then r.None? else r == Some(p.value.0) && Rest() == p.value.1
      decreases |toks| - pos, 2
    {
      var left := AndExpr();
      while left.Some? && At(Word("or"))
        invariant Valid() && pos >= old(pos)
        invariant left.None? ==> ParseOr(old(Rest())).None?
        invariant left.Some? ==> pos > old(pos) && ParseOr(old(Rest())) == OrTail(left.value, Rest())
        decreases left.Some?, |toks| - pos
      {
        ghost var rest := Rest();
        pos := pos + 1;
        assert Rest() == rest[1..];
        var right := AndExpr();
        left := if right.None? then None else Some(Or(left.value, right.value));
      }
      r := left;
    }
  }

  // ---- evaluation ---------------------------------------------------------------

  /** What a condition is evaluated against. Numbers are read from text by the library's float parser. */
  datatype Ctx = Ctx(
    values: Fields, actorId: string, selfId: string, attrs: Fields, now: string,
    resolve: string -> Option<Value>, number: string -> Option<real>)

  /** The two results of eval, (result, ok), and the panic of comparing two lists or two objects. */
  datatype Verdict = Known(holds: bool) | Unknown | Crash

  predicate Dotted(path: string) { '.' in path }

  /** Trimming `$me.` off a literal leaves the name of an actor attribute. */
  predicate IsAttribute(text: string) {
    |text| >= 4 && text[0] == '$' && text[1] == 'm' && text[2] == 'e' && text[3] == '.'
  }

  function LitValue(text: string, c: Ctx): Value {
    if text == "$me" then Str(c.actorId)
    else if text == "$self" then Str(c.selfId)
    else if text == "$now" then Str(c.now)
    else if text == "true" then Bool(true)
    else if text == "false" then Bool(false)
    else if text == "null" then Null
    else if IsAttribute(text) then Get(c.attrs, text[4..])
    else if c.number(text).Some? then Num(c.number(text).value)
    else if |text| >= 2 && text[0] == '"' && text[|text| - 1] == '"' then Str(text[1..|text| - 1])
    else Str(text)
  }

  /** A bareword that names no field is the enum value it spells; an unresolved dotted path is nothing. */
  function Resolve(o: Operand, c: Ctx): Option<Value> {
    match o
    case Lit(text) => Some(LitValue(text, c))
    case Path(text) =>
      if !Dotted(text) then Some(if text in c.values then c.values[text] else Str(text))
      else c.resolve(text)
  }

  function ValueOf(o: Operand, c: Ctx): Value {
    var v := Resolve(o, c);
    if v.Some? then v.value else Null
  }

  predicate IsNullLit(o: Operand) { o == Lit("null") }

  predicate Present(o: Operand, c: Ctx) {
    match o
    case Lit(text) => text != "null"
    case Path(text) =>
      if !Dotted(text) then Get(c.values, text) != Null
      else c.resolve(text).Some? && c.resolve(text).value != Null
  }

  function Equal(a: Value, b: Value): Verdict {
    if ToNumber(a).None? && Uncomparable(a, b) then Crash else Known(ValuesEqual(a, b))
  }

  function Negate(v: Verdict): Verdict {
    if v.Known? then Known(!v.holds) else v
  }

  function AnyEqual(v: Value, list: seq<Operand>, c: Ctx): Verdict
    decreases |list|
  {
    if list == [] then Known(false)
    else
      var first := Equal(v, ValueOf(list[0], c));
      if first == Known(false) then AnyEqual(v, list[1..], c) else first
  }

  predicate Ordered(op: string, a: real, b: real) {
    (op == ">" && a > b) || (op == "<" && a < b) || (op == ">=" && a >= b) || (op == "<=" && a <= b)
  }

  function EvalCmp(left: Operand, op: string, right: Operand, c: Ctx): Verdict {
    if (op == "=" || op == "!=") && (IsNullLit(left) || IsNullLit(right)) then
      var present := Present(if IsNullLit(left) then right else left, c);
      Known(if op == "!=" then present else !present)
    else
      var l, r := Resolve(left, c), Resolve(right, c);
      if l.None? || r.None? then Known(false)
      else if op == "=" then Equal(l.value, r.value)
      else if op == "!=" then Negate(Equal(l.value, r.value))
      else
        var x, y := ToNumber(l.value), ToNumber(r.value);
        Known(x.Some? && y.Some? && Ordered(op, x.value, y.value))
  }

  function Eval(n: Node, c: Ctx): Verdict {
    match n
    case And(l, r) =>
      var v := Eval(l, c);
      if v == Known(true) then Eval(r, c) else v
    case Or(l, r) =>
      var v := Eval(l, c);
      if v == Known(false) then Eval(r, c) else v
    case Not(inner) => Negate(Eval(inner, c))
    case Cmp(l, op, r) => EvalCmp(l, op, r, c)
    case In(o, list) =>
      var v := Resolve(o, c);
      if v.None? then Known(false) else AnyEqual(v.value, list, c)
    case Truthy(o) =>
      var v := Resolve(o, c);
      if v.None? then Unknown else Known(v.value == Bool(true))
  }

  // ---- condition texts ------------------------------------------------------------

  predicate IsSpace(ch: char) {
    ch == ' ' || ch == '\t' || ch == '\n' || ch == '\r' || ch == '\U{000C}' || ch == '\U{000B}'
  }

  /** The white space a regular expression's \s matches: vertical tab is not in it. */
  predicate IsGap(ch: char) { IsSpace(ch) && ch != '\U{000B}' }

  function GapRun(s: string): (k: nat)
    ensures k <= |s| && (forall i :: 0 <= i < k ==> IsGap(s[i])) && (k < |s| ==> !IsGap(s[k]))
  {
    if s == "" || !IsGap(s[0]) then 0 else 1 + GapRun(s[1..])
  }

  /** Blanks around dots are dropped: the definition language spaces ref paths out. */
  function Collapse(s: string): string
    decreases |s|
  {
    if s == "" then ""
    else
      var k := GapRun(s);
      if k < |s| && s[k] == '.' then
        var rest := s[k + 1..];
        "." + Collapse(rest[GapRun(rest)..])
      else [s[0]] + Collapse(s[1..])
  }

  function TrimLeft(s: string): string {
    if s == "" || !IsSpace(s[0]) then s else TrimLeft(s[1..])
  }

  function TrimRight(s: string): string {
    if s == "" || !IsSpace(s[|s| - 1]) then s else TrimRight(s[..|s| - 1])
  }

  function TrimSpace(s: string): string {
    TrimRight(TrimLeft(s))
  }

  /** The tree of a condition text, if all of it parses. */
  function ParseText(text: string): Option<Node> {
    var toks := Lex(Collapse(text));
    if toks.None? then None
    else
      var p := ParseOr(toks.value);
      if p.None? || p.value.1 != [] then None else Some(p.value.0)
  }

  /** evalWhere: the empty condition holds; anything that does not parse or evaluate does not. */
  function EvalWhere(text: string, c: Ctx): Verdict {
    var trimmed := TrimSpace(text);
    if trimmed == "" then Known(true)
    else
      var n := ParseText(trimmed);
      if n.None? then Known(false)
      else
        var v := Eval(n.value, c);
        if v == Unknown then Known(false) else v
  }

  /** evalWhere as it runs, over the lexer loop and the parser object. */
  method Where(text: string, c: Ctx) returns (v: Verdict)
    ensures v == EvalWhere(text, c)
  {
    var trimmed := TrimSpace(text);
    if trimmed == "" {
      return Known(true);
    }
    var toks := LexExpr(Collapse(trimmed));
    if toks.None? {
      return Known(false);
    }
    var p := new ExprParser(toks.value);
    assert p.Rest() == toks.value;
    var node := p.OrExpr();
    if node.None? || p.pos != |p.toks| {
      assert node.Some? ==> p.Rest() != [];
      return Known(false);
    }
    assert p.Rest() == [];
    v := Eval(node.value, c);
    if v == Unknown {
      v := Known(false);
    }
  }
}
