/** Conditions keep their meaning: printed as text and evaluated, a tree means what it means. */
module ConditionMeaning {
  import opened Values
  import opened Conditions
  import opened Spelling

  // ---- printing trees ---------------------------------------------------------------

  function OperandTok(o: Operand): Tok {
    match o
    case Path(text) => Word(text)
    case Lit(text) =>
      if WordLiteral(text) && PlainWord(text) && TightDots(text) then Word(text)
      else if PlainNumber(text) && TightDots(text) then NumTok(text)
      else StrTok(text)
  }

  predicate Reserved(text: string) {
    text == "and" || text == "or" || text == "not" || text == "in"
  }

  /** A path is a word that is not a keyword and not a word literal; a literal carries no quote. */
  predicate OperandOk(o: Operand) {
    match o
    case Path(text) => PlainWord(text) && TightDots(text) && !WordLiteral(text) && !Reserved(text)
    case Lit(text) => '"' !in text
  }

  predicate NodeOk(n: Node) {
    match n
    case And(l, r) => NodeOk(l) && NodeOk(r)
    case Or(l, r) => NodeOk(l) && NodeOk(r)
    case Not(inner) => NodeOk(inner)
    case Cmp(l, op, r) => OperandOk(l) && OperandOk(r) && IsCmpOp(op)
    case In(o, list) => OperandOk(o) && forall x <- list :: OperandOk(x)
    case Truthy(o) => OperandOk(o)
  }

  const LIST_START := Punct("[")
  const LIST_END := Punct("]")
  const COMMA := Punct(",")
  const OPEN := Punct("(")
  const CLOSE := Punct(")")

  function ListToks(list: seq<Operand>): seq<Tok> {
    if list == [] then [LIST_END]
    else if |list| == 1 then [OperandTok(list[0]), LIST_END]
    else [OperandTok(list[0]), COMMA] + ListToks(list[1..])
  }

  datatype Level = OrLevel | AndLevel | UnaryLevel

  function Parens(inner: seq<Tok>): seq<Tok> {
    [OPEN] + inner + [CLOSE]
  }

  /** The tokens of a tree where the grammar expects the given level: looser operators get parentheses. */
  function Toks(n: Node, level: Level): seq<Tok> {
    match n
    case Or(l, r) =>
      var inner := Toks(l, OrLevel) + [Word("or")] + Toks(r, AndLevel);
      if level.OrLevel? then inner else Parens(inner)
    case And(l, r) =>
      var inner := Toks(l, AndLevel) + [Word("and")] + Toks(r, UnaryLevel);
      if level.UnaryLevel? then Parens(inner) else inner
    case Not(inner) => [Word("not")] + Toks(inner, UnaryLevel)
    case Cmp(l, op, r) => [OperandTok(l), Punct(op), OperandTok(r)]
    case In(o, list) => [OperandTok(o), Word("in"), LIST_START] + ListToks(list)
    case Truthy(o) => [OperandTok(o)]
  }

  /** The condition text of a tree. */
  function Print(n: Node): string {
    Text(Toks(n, OrLevel))
  }

  lemma GrammarSpellable()
    ensures Spellable(Word("and")) && Spellable(Word("or")) && Spellable(Word("not")) && Spellable(Word("in"))
    ensures Spellable(OPEN) && Spellable(CLOSE) && Spellable(LIST_START) && Spellable(LIST_END) && Spellable(COMMA)
  {
    hide Spellable;
    KeywordSpellable("and");
    KeywordSpellable("or");
    KeywordSpellable("not");
    KeywordSpellable("in");
    PunctSpellable("(");
    PunctSpellable(")");
    PunctSpellable("[");
    PunctSpellable("]");
    PunctSpellable(",");
  }

  lemma KeywordSpellable(w: string)
    requires w != "" && forall ch <- w :: 'a' <= ch <= 'z'
    ensures Spellable(Word(w))
  {
    assert forall i :: 0 <= i < |w| ==> w[i] in w;
    assert forall i :: 0 <= i < |w| ==> WordOrDot(w[i]) && w[i] != '.';
  }

  lemma PunctSpellable(p: string)
    requires PlainPunct(p)
    ensures Spellable(Punct(p))
  {
  }

  lemma SpellableJoin(a: seq<Tok>, t: Tok, b: seq<Tok>)
    requires AllSpellable(a) && Spellable(t) && AllSpellable(b)
    ensures AllSpellable(a + [t] + b)
  {
  }

  lemma {:induction false} ToksSpellable(n: Node, level: Level)
    requires NodeOk(n)
    ensures AllSpellable(Toks(n, level)) && Toks(n, level) != []
    decreases n
  {
    hide Spellable, AllSpellable, OperandTok, OperandOk;
    GrammarSpellable();
    match n {
      case Or(l, r) =>
        ToksSpellable(l, OrLevel);
        ToksSpellable(r, AndLevel);
        SpellableJoin(Toks(l, OrLevel), Word("or"), Toks(r, AndLevel));
        ParensSpellable(Toks(n, OrLevel));
      case And(l, r) =>
        ToksSpellable(l, AndLevel);
        ToksSpellable(r, UnaryLevel);
        SpellableJoin(Toks(l, AndLevel), Word("and"), Toks(r, UnaryLevel));
        ParensSpellable(Toks(n, OrLevel));
      case Not(inner) =>
        ToksSpellable(inner, UnaryLevel);
        NoneSpellable();
        SpellableJoin([], Word("not"), Toks(inner, UnaryLevel));
        assert [] + [Word("not")] + Toks(inner, UnaryLevel) == Toks(n, level);
      case Cmp(l, op, r) => LeafSpellable(n);
      case In(o, list) => LeafSpellable(n);
      case Truthy(o) => LeafSpellable(n);
    }
  }

  lemma NoneSpellable()
    ensures AllSpellable([])
  {
  }

  lemma ParensSpellable(ts: seq<Tok>)
    requires AllSpellable(ts)
    ensures AllSpellable(Parens(ts))
  {
    GrammarSpellable();
    hide Spellable;
  }

  lemma OperandSpellable(o: Operand)
    requires OperandOk(o)
    ensures Spellable(OperandTok(o))
  {
  }

  lemma LeafSpellable(n: Node)
    requires NodeOk(n) && (n.Cmp? || n.In? || n.Truthy?)
    ensures AllSpellable(Toks(n, OrLevel))
  {
    hide Spellable, OperandTok, OperandOk;
    GrammarSpellable();
    OperandSpellable(n.subject);
    if n.In? {
      ListSpellable(n.list);
    } else if n.Cmp? {
      OperandSpellable(n.object_);
      PunctSpellable(n.op);
    }
  }

  lemma {:induction false} ListSpellable(list: seq<Operand>)
    requires forall x <- list :: OperandOk(x)
    ensures AllSpellable(ListToks(list))
  {
    hide Spellable, OperandTok, OperandOk;
    GrammarSpellable();
    if list != [] {
      assert list[0] in list;
      OperandSpellable(list[0]);
    }
    if |list| > 1 {
      ListSpellable(list[1..]);
    }
  }

  // ---- parsing printed trees ------------------------------------------------------------

  /** What may follow an expression: nothing, a connective or a closing parenthesis. */
  predicate Follows(ts: seq<Tok>) {
    ts == [] || ts[0] == Word("and") || ts[0] == Word("or") || ts[0] == CLOSE
  }

  lemma ParseOperandTok(o: Operand, rest: seq<Tok>)
    requires OperandOk(o)
    ensures ParseOperand([OperandTok(o)] + rest) == Some((o, rest))
  {
    assert ([OperandTok(o)] + rest)[1..] == rest;
  }

  lemma ParseListStep(o: Operand, after: seq<Tok>, acc: seq<Operand>)
    requires OperandOk(o)
    ensures ParseList([OperandTok(o)] + after, acc) ==
      ParseList(if Starts(after, COMMA) then after[1..] else after, acc + [o])
  {
    ParseOperandTok(o, after);
    assert !OperandTok(o).Punct?;
    hide OperandOk, OperandTok;
  }

  lemma ListEnds(rest: seq<Tok>, acc: seq<Operand>)
    ensures ParseList([LIST_END] + rest, acc) == Some((acc, rest))
  {
    assert ([LIST_END] + rest)[1..] == rest;
  }

  lemma BracketIsNoComma()
    ensures LIST_END != COMMA
  {
    assert "]"[0] != ","[0];
  }

  lemma {:induction false} ParseListToks(list: seq<Operand>, acc: seq<Operand>, rest: seq<Tok>)
    requires forall x <- list :: OperandOk(x)
    ensures ParseList(ListToks(list) + rest, acc) == Some((acc + list, rest))
    decreases |list|
  {
    hide ParseList, OperandOk, OperandTok;
    BracketIsNoComma();
    if list == [] {
      assert acc + list == acc;
      ListEnds(rest, acc);
    } else if |list| == 1 {
      var after := [LIST_END] + rest;
      assert ListToks(list) + rest == [OperandTok(list[0])] + after && acc + list == acc + [list[0]];
      ParseListStep(list[0], after, acc);
      ListEnds(rest, acc + [list[0]]);
    } else {
      var tail := ListToks(list[1..]) + rest;
      var after := [COMMA] + tail;
      assert ListToks(list) + rest == [OperandTok(list[0])] + after;
      ParseListStep(list[0], after, acc);
      assert after[1..] == tail && acc + list == (acc + [list[0]]) + list[1..];
      ParseListToks(list[1..], acc + [list[0]], rest);
    }
  }

  lemma ParseLeaf(n: Node, rest: seq<Tok>)
    requires NodeOk(n) && (n.Cmp? || n.In? || n.Truthy?) && Follows(rest)
    ensures ParseUnary(Toks(n, UnaryLevel) + rest) == Some((n, rest))
  {
    var ts := Toks(n, UnaryLevel) + rest;
    OperandIsNoKeyword(n.subject);
    assert ParseUnary(ts) == ParseComparison(ts);
    match n {
      case Cmp(l, op, r) => ParseCmp(l, op, r, rest);
      case In(o, list) => ParseIn(o, list, rest);
      case Truthy(o) =>
        hide OperandOk, OperandTok;
        ParseOperandTok(o, rest);
    }
  }

  lemma OperandIsNoKeyword(o: Operand)
    requires OperandOk(o)
    ensures OperandTok(o) != Word("not") && OperandTok(o) != OPEN
  {
    if o.Lit? && WordLiteral(o.text) {
      assert o.text != "not";
    }
  }

  lemma ParseCmp(l: Operand, op: string, r: Operand, rest: seq<Tok>)
    requires OperandOk(l) && OperandOk(r) && IsCmpOp(op)
    ensures ParseComparison([OperandTok(l), Punct(op), OperandTok(r)] + rest) == Some((Cmp(l, op, r), rest))
  {
    hide OperandOk, OperandTok;
    var after := [Punct(op), OperandTok(r)] + rest;
    assert [OperandTok(l), Punct(op), OperandTok(r)] + rest == [OperandTok(l)] + after;
    ParseOperandTok(l, after);
    assert after[1..] == [OperandTok(r)] + rest;
    ParseOperandTok(r, rest);
  }

  lemma ParseIn(o: Operand, list: seq<Operand>, rest: seq<Tok>)
    requires OperandOk(o) && forall x <- list :: OperandOk(x)
    ensures ParseComparison([OperandTok(o), Word("in"), LIST_START] + ListToks(list) + rest) ==
      Some((In(o, list), rest))
  {
    hide OperandOk, OperandTok, ParseOperand, ParseList, ListToks;
    var items := ListToks(list) + rest;
    var after := [Word("in"), LIST_START] + items;
    assert [OperandTok(o), Word("in"), LIST_START] + ListToks(list) + rest == [OperandTok(o)] + after;
    ParseOperandTok(o, after);
    assert after[1..] == [LIST_START] + items && after[2..] == items;
    ParseListToks(list, [], rest);
    assert [] + list == list;
  }

  /** The order in which the three levels of one tree are parsed: the level it is built at comes first. */
  function Rank(n: Node, level: Level): nat {
    match level
    case OrLevel => if n.Or? then 0 else if n.And? then 1 else 2
    case AndLevel => if n.Or? then 2 else if n.And? then 0 else 1
    case UnaryLevel => if n.Or? then 1 else if n.And? then 2 else 0
  }

  /** What the parser makes of a printed tree: the tree, extended by the connectives that follow it. */
  ghost predicate Parses(n: Node, level: Level, rest: seq<Tok>) {
    match level
    case OrLevel => ParseOr(Toks(n, OrLevel) + rest) == OrTail(n, rest)
    case AndLevel => ParseAnd(Toks(n, AndLevel) + rest) == AndTail(n, rest)
    case UnaryLevel => ParseUnary(Toks(n, UnaryLevel) + rest) == Some((n, rest))
  }

  lemma {:induction false} ParseToks(n: Node, level: Level, rest: seq<Tok>)
    requires NodeOk(n) && Follows(rest)
    requires level.OrLevel? ==> !Starts(rest, Word("and"))
    ensures Parses(n, level, rest)
    decreases n, Rank(n, level)
  {
    hide ParseComparison, ParseList, ParseOperand, OperandOk, OperandTok, ListToks;
    if level.OrLevel? && !n.Or? {
      ParseToks(n, AndLevel, rest);
    } else if level.AndLevel? && !n.And? {
      ParseToks(n, UnaryLevel, rest);
      assert Toks(n, AndLevel) == Toks(n, UnaryLevel);
    } else {
      match n {
        case Or(l, r) =>
          if level.OrLevel? {
            ParseOrNode(l, r, rest);
          } else {
            ParseParens(n, OrLevel, rest);
          }
        case And(l, r) =>
          if level.AndLevel? {
            ParseAndNode(l, r, rest);
          } else {
            ParseParens(n, AndLevel, rest);
          }
        case Not(inner) =>
          ParseToks(inner, UnaryLevel, rest);
          var after := Toks(inner, UnaryLevel) + rest;
          assert Toks(n, UnaryLevel) + rest == [Word("not")] + after;
          assert ([Word("not")] + after)[1..] == after;
        case Cmp(_, _, _) => ParseLeaf(n, rest);
        case In(_, _) => ParseLeaf(n, rest);
        case Truthy(_) => ParseLeaf(n, rest);
      }
    }
  }

  lemma {:induction false} ParseOrNode(l: Node, r: Node, rest: seq<Tok>)
    requires NodeOk(l) && NodeOk(r) && Follows(rest) && !Starts(rest, Word("and"))
    ensures Parses(Or(l, r), OrLevel, rest)
    decreases Or(l, r), 0, 0
  {
    hide ParseOr, ParseAnd, OrTail, NodeOk;
    var right := Toks(r, AndLevel) + rest;
    var after := [Word("or")] + right;
    ParseToks(l, OrLevel, after);
    ParseToks(r, AndLevel, rest);
    assert AndTail(r, rest) == Some((r, rest));
    assert Toks(Or(l, r), OrLevel) + rest == Toks(l, OrLevel) + after;
    OrTailStep(l, r, right, rest);
  }

  lemma OrTailStep(l: Node, r: Node, right: seq<Tok>, rest: seq<Tok>)
    requires ParseAnd(right) == Some((r, rest))
    ensures OrTail(l, [Word("or")] + right) == OrTail(Or(l, r), rest)
  {
    assert ([Word("or")] + right)[1..] == right;
  }

  lemma {:induction false} ParseAndNode(l: Node, r: Node, rest: seq<Tok>)
    requires NodeOk(l) && NodeOk(r) && Follows(rest)
    ensures Parses(And(l, r), AndLevel, rest)
    decreases And(l, r), 0, 0
  {
    hide ParseAnd, ParseUnary, AndTail, NodeOk;
    var right := Toks(r, UnaryLevel) + rest;
    var after := [Word("and")] + right;
    ParseToks(l, AndLevel, after);
    ParseToks(r, UnaryLevel, rest);
    assert Toks(And(l, r), AndLevel) + rest == Toks(l, AndLevel) + after;
    AndTailStep(l, r, right, rest);
  }

  lemma AndTailStep(l: Node, r: Node, right: seq<Tok>, rest: seq<Tok>)
    requires ParseUnary(right) == Some((r, rest))
    ensures AndTail(l, [Word("and")] + right) == AndTail(And(l, r), rest)
  {
    assert ([Word("and")] + right)[1..] == right;
  }

  lemma {:induction false} ParseParens(n: Node, level: Level, rest: seq<Tok>)
    requires NodeOk(n) && Follows(rest)
    requires (n.Or? && level.OrLevel?) || (n.And? && level.AndLevel?)
    ensures Parses(n, UnaryLevel, rest)
    decreases n, 1, 0
  {
    var close := [CLOSE] + rest;
    var inner := Toks(n, OrLevel);
    ParseToks(n, level, close);
    if n.And? {
      assert ParseAnd(inner + close) == Some((n, close));
    }
    assert ParseOr(inner + close) == Some((n, close));
    assert Toks(n, UnaryLevel) + rest == [OPEN] + (inner + close);
    assert ([OPEN] + (inner + close))[1..] == inner + close;
    assert close[1..] == rest;
  }

  // ---- tokens that stand for the same literal ------------------------------------------------

  function OperandOf(t: Tok): Option<Operand> {
    match t
    case Word(text) => Some(if WordLiteral(text) then Lit(text) else Path(text))
    case NumTok(text) => Some(Lit(text))
    case StrTok(text) => Some(Lit(text))
    case Punct(_) => None
  }

  /** Equal tokens, or spellings of one literal. */
  predicate Alike(t: Tok, u: Tok) {
    t == u || (OperandOf(t).Some? && OperandOf(t).value.Lit? && OperandOf(t) == OperandOf(u))
  }

  predicate Similar(ts: seq<Tok>, us: seq<Tok>) {
    |ts| == |us| && forall i :: 0 <= i < |ts| ==> Alike(ts[i], us[i])
  }

  /** Parsing similar tokens gives the same tree and leaves similar tokens. */
  predicate SameParse<T(==)>(p: Parsed<T>, q: Parsed<T>) {
    && (p.Some? <==> q.Some?)
    && (p.Some? ==> p.value.0 == q.value.0 && Similar(p.value.1, q.value.1))
  }

  lemma SimilarTail(ts: seq<Tok>, us: seq<Tok>)
    requires Similar(ts, us) && ts != []
    ensures Similar(ts[1..], us[1..]) && |us| == |ts|
  {
  }

  /** Words that are no literals and marks are told apart by what they are. */
  lemma SimilarStarts(ts: seq<Tok>, us: seq<Tok>, t: Tok)
    requires Similar(ts, us) && (t.Punct? || (t.Word? && !WordLiteral(t.text)))
    ensures Starts(ts, t) <==> Starts(us, t)
  {
  }

  lemma GrammarIsNoLiteral()
    ensures !WordLiteral("in") && !WordLiteral("not") && !WordLiteral("and") && !WordLiteral("or")
  {
  }

  lemma OperandSimilar(ts: seq<Tok>, us: seq<Tok>)
    requires Similar(ts, us)
    ensures SameParse(ParseOperand(ts), ParseOperand(us))
  {
    if ts != [] {
      SimilarTail(ts, us);
      assert Alike(ts[0], us[0]);
    }
  }

  lemma {:induction false} ListSimilar(ts: seq<Tok>, us: seq<Tok>, acc: seq<Operand>)
    requires Similar(ts, us)
    ensures SameParse(ParseList(ts, acc), ParseList(us, acc))
    decreases |ts|
  {
    hide Similar, Alike, ParseOperand;
    SimilarStarts(ts, us, LIST_END);
    if Starts(ts, LIST_END) {
      SimilarTail(ts, us);
    } else {
      OperandSimilar(ts, us);
      if ParseOperand(ts).Some? {
        var p, q := ParseOperand(ts).value.1, ParseOperand(us).value.1;
        SimilarStarts(p, q, COMMA);
        if Starts(p, COMMA) {
          SimilarTail(p, q);
        }
        ListSimilar(if Starts(p, COMMA) then p[1..] else p, if Starts(q, COMMA) then q[1..] else q,
          acc + [ParseOperand(ts).value.0]);
      }
    }
  }

  lemma ComparisonSimilar(ts: seq<Tok>, us: seq<Tok>)
    requires Similar(ts, us)
    ensures SameParse(ParseComparison(ts), ParseComparison(us))
  {
    hide ParseOperand, ParseList, WordLiteral;
    OperandSimilar(ts, us);
    if ParseOperand(ts).Some? {
      var p, q := ParseOperand(ts).value.1, ParseOperand(us).value.1;
      GrammarIsNoLiteral();
      SimilarStarts(p, q, Word("in"));
      if p != [] {
        assert Alike(p[0], q[0]) && p[0].Punct? == q[0].Punct?;
        SimilarTail(p, q);
        OperandSimilar(p[1..], q[1..]);
        SimilarStarts(p[1..], q[1..], LIST_START);
        if |p| > 1 {
          SimilarTail(p[1..], q[1..]);
          assert p[1..][1..] == p[2..] && q[1..][1..] == q[2..];
          ListSimilar(p[2..], q[2..], []);
        }
      }
    }
  }

  lemma {:induction false} UnarySimilar(ts: seq<Tok>, us: seq<Tok>)
    requires Similar(ts, us)
    ensures SameParse(ParseUnary(ts), ParseUnary(us))
    decreases |ts|, 0
  {
    hide Similar, Alike, ParseComparison, ParseOr, WordLiteral;
    GrammarIsNoLiteral();
    SimilarStarts(ts, us, Word("not"));
    SimilarStarts(ts, us, OPEN);
    if Starts(ts, Word("not")) {
      SimilarTail(ts, us);
      UnarySimilar(ts[1..], us[1..]);
    } else if Starts(ts, OPEN) {
      SimilarTail(ts, us);
      OrSimilar(ts[1..], us[1..]);
      if ParseOr(ts[1..]).Some? {
        var p, q := ParseOr(ts[1..]).value.1, ParseOr(us[1..]).value.1;
        SimilarStarts(p, q, CLOSE);
        if Starts(p, CLOSE) {
          SimilarTail(p, q);
        }
      }
    } else {
      ComparisonSimilar(ts, us);
    }
  }

  lemma {:induction false} AndSimilar(ts: seq<Tok>, us: seq<Tok>)
    requires Similar(ts, us)
    ensures SameParse(ParseAnd(ts), ParseAnd(us))
    decreases |ts|, 1
  {
    hide Similar, ParseUnary, AndTail;
    UnarySimilar(ts, us);
    if ParseUnary(ts).Some? {
      AndTailSimilar(ParseUnary(ts).value.0, ParseUnary(ts).value.1, ParseUnary(us).value.1);
    }
  }

  lemma {:induction false} AndTailSimilar(left: Node, ts: seq<Tok>, us: seq<Tok>)
    requires Similar(ts, us)
    ensures SameParse(AndTail(left, ts), AndTail(left, us))
    decreases |ts|, 0
  {
    hide Similar, ParseUnary, WordLiteral;
    GrammarIsNoLiteral();
    SimilarStarts(ts, us, Word("and"));
    if Starts(ts, Word("and")) {
      SimilarTail(ts, us);
      UnarySimilar(ts[1..], us[1..]);
      if ParseUnary(ts[1..]).Some? {
        AndTailSimilar(And(left, ParseUnary(ts[1..]).value.0), ParseUnary(ts[1..]).value.1,
          ParseUnary(us[1..]).value.1);
      }
    }
  }

  lemma {:induction false} OrSimilar(ts: seq<Tok>, us: seq<Tok>)
    requires Similar(ts, us)
    ensures SameParse(ParseOr(ts), ParseOr(us))
    decreases |ts|, 2
  {
    hide Similar, ParseAnd, OrTail;
    AndSimilar(ts, us);
    if ParseAnd(ts).Some? {
      OrTailSimilar(ParseAnd(ts).value.0, ParseAnd(ts).value.1, ParseAnd(us).value.1);
    }
  }

  lemma {:induction false} OrTailSimilar(left: Node, ts: seq<Tok>, us: seq<Tok>)
    requires Similar(ts, us)
    ensures SameParse(OrTail(left, ts), OrTail(left, us))
    decreases |ts|, 0
  {
    hide Similar, ParseAnd, WordLiteral;
    GrammarIsNoLiteral();
    SimilarStarts(ts, us, Word("or"));
    if Starts(ts, Word("or")) {
      SimilarTail(ts, us);
      AndSimilar(ts[1..], us[1..]);
      if ParseAnd(ts[1..]).Some? {
        OrTailSimilar(Or(left, ParseAnd(ts[1..]).value.0), ParseAnd(ts[1..]).value.1, ParseAnd(us[1..]).value.1);
      }
    }
  }

  // ---- what collapsing makes of a tree ---------------------------------------------------------

  /** A literal that is printed in quotes loses the blanks next to its dots. */
  function CollapsedOperand(o: Operand): Operand {
    if OperandTok(o).StrTok? then Lit(Collapse(o.text)) else o
  }

  function CollapsedList(list: seq<Operand>): seq<Operand> {
    if list == [] then [] else [CollapsedOperand(list[0])] + CollapsedList(list[1..])
  }

  function Collapsed(n: Node): Node {
    match n
    case And(l, r) => And(Collapsed(l), Collapsed(r))
    case Or(l, r) => Or(Collapsed(l), Collapsed(r))
    case Not(inner) => Not(Collapsed(inner))
    case Cmp(l, op, r) => Cmp(CollapsedOperand(l), op, CollapsedOperand(r))
    case In(o, list) => In(CollapsedOperand(o), CollapsedList(list))
    case Truthy(o) => Truthy(CollapsedOperand(o))
  }

  /** No literal printed in quotes has a blank next to a dot. */
  predicate OperandSpared(o: Operand) {
    OperandTok(o).StrTok? ==> NoGapsAtDots(o.text)
  }

  predicate Spared(n: Node) {
    match n
    case And(l, r) => Spared(l) && Spared(r)
    case Or(l, r) => Spared(l) && Spared(r)
    case Not(inner) => Spared(inner)
    case Cmp(l, op, r) => OperandSpared(l) && OperandSpared(r)
    case In(o, list) => OperandSpared(o) && forall x <- list :: OperandSpared(x)
    case Truthy(o) => OperandSpared(o)
  }

  lemma OperandSparedIff(o: Operand)
    ensures CollapsedOperand(o) == o <==> OperandSpared(o)
  {
    CollapsesToItselfIff(o.text);
  }

  lemma {:induction false} ListSparedIff(list: seq<Operand>)
    ensures |CollapsedList(list)| == |list|
    ensures CollapsedList(list) == list <==> forall x <- list :: OperandSpared(x)
  {
    hide OperandSpared, CollapsedOperand;
    if list != [] {
      OperandSparedIff(list[0]);
      ListSparedIff(list[1..]);
      assert list == [list[0]] + list[1..];
      assert CollapsedList(list)[0] == CollapsedOperand(list[0])
        && CollapsedList(list)[1..] == CollapsedList(list[1..]);
    }
  }

  /** A tree is its own collapsed tree exactly when its quoted literals are spared. */
  lemma {:induction false} SparedIff(n: Node)
    ensures Collapsed(n) == n <==> Spared(n)
  {
    hide OperandSpared, CollapsedOperand;
    match n {
      case And(l, r) =>
        SparedIff(l);
        SparedIff(r);
      case Or(l, r) =>
        SparedIff(l);
        SparedIff(r);
      case Not(inner) => SparedIff(inner);
      case Cmp(l, _, r) =>
        OperandSparedIff(l);
        OperandSparedIff(r);
      case In(o, list) =>
        OperandSparedIff(o);
        ListSparedIff(list);
      case Truthy(o) => OperandSparedIff(o);
    }
  }

  lemma OperandCollapses(o: Operand)
    requires OperandOk(o)
    ensures OperandOk(CollapsedOperand(o)) && Alike(CollapseTok(OperandTok(o)), OperandTok(CollapsedOperand(o)))
  {
    CollapsedHasNoGaps(o.text);
  }

  lemma {:induction false} CollapseConcat(a: seq<Tok>, b: seq<Tok>)
    ensures CollapseToks(a + b) == CollapseToks(a) + CollapseToks(b)
  {
    hide CollapseTok;
    if a == [] {
      assert a + b == b;
    } else {
      assert (a + b)[1..] == a[1..] + b;
      CollapseConcat(a[1..], b);
    }
  }

  lemma SimilarConcat(a: seq<Tok>, b: seq<Tok>, c: seq<Tok>, d: seq<Tok>)
    requires Similar(a, c) && Similar(b, d)
    ensures Similar(a + b, c + d)
  {
    hide Alike;
  }

  /** The collapsed tokens of one part stand for the tokens of its collapsed tree. */
  predicate StandsFor(ts: seq<Tok>, us: seq<Tok>) {
    Similar(CollapseToks(ts), us)
  }

  lemma StandsForJoin(a: seq<Tok>, b: seq<Tok>, c: seq<Tok>, d: seq<Tok>)
    requires StandsFor(a, c) && StandsFor(b, d)
    ensures StandsFor(a + b, c + d)
  {
    CollapseConcat(a, b);
    SimilarConcat(CollapseToks(a), CollapseToks(b), c, d);
  }

  lemma MarkStands(t: Tok)
    requires !t.StrTok?
    ensures StandsFor([t], [t])
  {
    assert [t][1..] == [];
  }

  lemma OperandStands(o: Operand)
    requires OperandOk(o)
    ensures StandsFor([OperandTok(o)], [OperandTok(CollapsedOperand(o))])
  {
    OperandCollapses(o);
    assert [OperandTok(o)][1..] == [];
    hide Alike, OperandTok, CollapsedOperand, CollapseTok;
    assert CollapseToks([OperandTok(o)]) == [CollapseTok(OperandTok(o))];
  }

  lemma {:induction false} ListStands(list: seq<Operand>)
    requires forall x <- list :: OperandOk(x)
    ensures StandsFor(ListToks(list), ListToks(CollapsedList(list)))
    ensures forall x <- CollapsedList(list) :: OperandOk(x)
    ensures |CollapsedList(list)| == |list|
  {
    hide StandsFor, OperandTok, CollapsedOperand, OperandOk;
    MarkStands(LIST_END);
    MarkStands(COMMA);
    if list != [] {
      OperandStands(list[0]);
      OperandOkStays(list[0]);
      ListStands(list[1..]);
      var c := CollapsedList(list);
      assert c == [c[0]] + CollapsedList(list[1..]) && c[1..] == CollapsedList(list[1..]);
      if |list| == 1 {
        StandsForJoin([OperandTok(list[0])], [LIST_END], [OperandTok(c[0])], [LIST_END]);
        assert [OperandTok(list[0])] + [LIST_END] == ListToks(list) && [OperandTok(c[0])] + [LIST_END] == ListToks(c);
      } else {
        StandsForJoin([OperandTok(list[0])], [COMMA], [OperandTok(c[0])], [COMMA]);
        StandsForJoin([OperandTok(list[0])] + [COMMA], ListToks(list[1..]), [OperandTok(c[0])] + [COMMA],
          ListToks(c[1..]));
        assert [OperandTok(list[0])] + [COMMA] == [OperandTok(list[0]), COMMA]
          && [OperandTok(c[0])] + [COMMA] == [OperandTok(c[0]), COMMA];
      }
    }
  }

  lemma OperandOkStays(o: Operand)
    requires OperandOk(o)
    ensures OperandOk(CollapsedOperand(o))
  {
    OperandCollapses(o);
  }

  lemma ParensStand(ts: seq<Tok>, us: seq<Tok>)
    requires StandsFor(ts, us)
    ensures StandsFor(Parens(ts), Parens(us))
  {
    hide StandsFor;
    MarkStands(OPEN);
    MarkStands(CLOSE);
    StandsForJoin([OPEN], ts, [OPEN], us);
    StandsForJoin([OPEN] + ts, [CLOSE], [OPEN] + us, [CLOSE]);
  }

  lemma {:induction false} TreeStands(n: Node, level: Level)
    requires NodeOk(n)
    ensures StandsFor(Toks(n, level), Toks(Collapsed(n), level)) && NodeOk(Collapsed(n))
    decreases n
  {
    hide StandsFor, OperandTok, CollapsedOperand, OperandOk;
    match n {
      case Or(l, r) =>
        TreeStands(l, OrLevel);
        TreeStands(r, AndLevel);
        BinaryStands(Toks(l, OrLevel), Word("or"), Toks(r, AndLevel), Toks(Collapsed(l), OrLevel),
          Toks(Collapsed(r), AndLevel));
      case And(l, r) =>
        TreeStands(l, AndLevel);
        TreeStands(r, UnaryLevel);
        BinaryStands(Toks(l, AndLevel), Word("and"), Toks(r, UnaryLevel), Toks(Collapsed(l), AndLevel),
          Toks(Collapsed(r), UnaryLevel));
      case Not(inner) =>
        TreeStands(inner, UnaryLevel);
        MarkStands(Word("not"));
        StandsForJoin([Word("not")], Toks(inner, UnaryLevel), [Word("not")], Toks(Collapsed(inner), UnaryLevel));
      case Cmp(l, op, r) =>
        OperandStands(l);
        OperandStands(r);
        OperandOkStays(l);
        OperandOkStays(r);
        BinaryStands([OperandTok(l)], Punct(op), [OperandTok(r)], [OperandTok(CollapsedOperand(l))],
          [OperandTok(CollapsedOperand(r))]);
        assert [OperandTok(l)] + [Punct(op)] + [OperandTok(r)] == Toks(n, level);
        assert [OperandTok(CollapsedOperand(l))] + [Punct(op)] + [OperandTok(CollapsedOperand(r))] ==
          Toks(Collapsed(n), level);
      case In(o, list) => InStands(o, list, level);
      case Truthy(o) =>
        OperandStands(o);
        OperandOkStays(o);
    }
  }

  lemma InStands(o: Operand, list: seq<Operand>, level: Level)
    requires NodeOk(In(o, list))
    ensures StandsFor(Toks(In(o, list), level), Toks(Collapsed(In(o, list)), level)) && NodeOk(Collapsed(In(o, list)))
  {
    hide StandsFor, OperandTok, CollapsedOperand, OperandOk;
    OperandStands(o);
    OperandOkStays(o);
    ListStands(list);
    MarkStands(LIST_START);
    var a, b := [OperandTok(o)], [OperandTok(CollapsedOperand(o))];
    BinaryStands(a, Word("in"), [LIST_START], b, [LIST_START]);
    StandsForJoin(a + [Word("in")] + [LIST_START], ListToks(list), b + [Word("in")] + [LIST_START],
      ListToks(CollapsedList(list)));
    assert a + [Word("in")] + [LIST_START] == [OperandTok(o), Word("in"), LIST_START];
    assert b + [Word("in")] + [LIST_START] == [OperandTok(CollapsedOperand(o)), Word("in"), LIST_START];
  }

  lemma BinaryStands(a: seq<Tok>, mark: Tok, b: seq<Tok>, c: seq<Tok>, d: seq<Tok>)
    requires StandsFor(a, c) && StandsFor(b, d) && !mark.StrTok?
    ensures StandsFor(a + [mark] + b, c + [mark] + d) && StandsFor(Parens(a + [mark] + b), Parens(c + [mark] + d))
  {
    hide StandsFor;
    MarkStands(mark);
    StandsForJoin(a, [mark], c, [mark]);
    StandsForJoin(a + [mark], b, c + [mark], d);
    ParensStand(a + [mark] + b, c + [mark] + d);
  }

  // ---- main results ----------------------------------------------------------------------

  /** Every tree, printed with the grammar's precedence, lexes to its tokens; these parse back to the tree and
      are used up; and the text as it is evaluated, blanks at dots collapsed first, parses to the collapsed
      tree: to the tree itself exactly when no quoted literal has a blank next to a dot. */
  lemma PrintParses(n: Node)
    requires NodeOk(n)
    ensures Lex(Print(n)) == Some(Toks(n, OrLevel)) && ParseOr(Toks(n, OrLevel)) == Some((n, []))
    ensures ParseText(TrimSpace(Print(n))) == Some(Collapsed(n))
    ensures ParseText(TrimSpace(Print(n))) == Some(n) <==> Spared(n)
  {
    hide NodeOk, Lex, Collapse, Text, Toks, AllSpellable, ParseOr, Collapsed, Spared, CollapseToks;
    var ts := Toks(n, OrLevel);
    PrintNotBlank(n);
    ToksSpellable(n, OrLevel);
    LexText(ts);
    ParsesAlone(n);
    CollapseText(ts);
    LexText(CollapseToks(ts));
    TreeStands(n, OrLevel);
    ParsesAlone(Collapsed(n));
    assert Similar(CollapseToks(ts), Toks(Collapsed(n), OrLevel));
    OrSimilar(CollapseToks(ts), Toks(Collapsed(n), OrLevel));
    SparedIff(n);
  }

  lemma ParsesAlone(n: Node)
    requires NodeOk(n)
    ensures ParseOr(Toks(n, OrLevel)) == Some((n, []))
  {
    hide NodeOk, Toks, ParseOr;
    ParseToks(n, OrLevel, []);
    assert Toks(n, OrLevel) + [] == Toks(n, OrLevel);
  }

  /** Evaluating the printed text means evaluating the collapsed tree; so the text keeps its tree's meaning
      when no quoted literal has a blank next to a dot. */
  lemma PrintKeepsMeaning(n: Node, c: Ctx)
    requires NodeOk(n)
    ensures EvalWhere(Print(n), c) == if Eval(Collapsed(n), c) == Unknown then Known(false) else Eval(Collapsed(n), c)
    ensures Spared(n) ==> EvalWhere(Print(n), c) == if Eval(n, c) == Unknown then Known(false) else Eval(n, c)
  {
    hide Eval, NodeOk, ParseText, Print, Spared, Collapsed;
    PrintParses(n);
    PrintNotBlank(n);
  }

  lemma PrintNotBlank(n: Node)
    requires NodeOk(n)
    ensures TrimSpace(Print(n)) == Print(n) != ""
  {
    ToksSpellable(n, OrLevel);
    TextEnds(Toks(n, OrLevel));
  }

  /** A comparison of a field with a literal that is printed in quotes. */
  function QuotedComparison(field: string, op: string, text: string): Node {
    Cmp(Path(field), op, Lit(text))
  }

  /** Parsers of numerals read no text with a blank next to a dot. */
  ghost predicate NumeralsAreTight(number: string -> Option<real>) {
    forall s :: number(s).Some? ==> NoGapsAtDots(s)
  }

  /** A context where the field holds exactly the literal's value. */
  function HoldsLiteral(field: string, text: string, number: string -> Option<real>): Ctx {
    var attrs: Fields := if IsAttribute(text) then map[text[4..] := Str(text)] else map[];
    Ctx(map[field := Str(text)], "", "", attrs, "", path => None, number)
  }

  /** The text of such a comparison means what the comparison means, in every context, exactly when its literal
      has no blank next to a dot: in any other a field that holds the literal is told apart from it. */
  lemma QuotedComparisonIff(field: string, op: string, text: string, number: string -> Option<real>)
    requires OperandOk(Path(field)) && '.' !in field && (op == "=" || op == "!=")
    requires '"' !in text && OperandTok(Lit(text)).StrTok? && NumeralsAreTight(number)
    ensures var n := QuotedComparison(field, op, text);
      (forall c: Ctx | c.number == number :: EvalWhere(Print(n), c) == Eval(n, c)) <==> NoGapsAtDots(text)
  {
    hide NoGapsAtDots, Collapse, Eval, EvalWhere, Print, OperandOk, OperandTok, HoldsLiteral, NumeralsAreTight;
    var n := QuotedComparison(field, op, text);
    CollapsesToItselfIff(text);
    QuotedIs(field, op, text);
    if Collapse(text) == text {
      forall c ensures EvalWhere(Print(n), c) == Eval(n, c) {
        PrintKeepsMeaning(n, c);
        ComparisonIsKnown(field, op, text, c);
      }
    } else {
      var c := HoldsLiteral(field, text, number);
      assert c.number == number by { HoldsIs(field, text, number); }
      PrintKeepsMeaning(n, c);
      ToldApart(field, op, text, number);
    }
  }

  lemma QuotedIs(field: string, op: string, text: string)
    requires OperandOk(Path(field)) && (op == "=" || op == "!=") && '"' !in text && OperandTok(Lit(text)).StrTok?
    ensures NodeOk(QuotedComparison(field, op, text))
    ensures Collapsed(QuotedComparison(field, op, text)) == QuotedComparison(field, op, Collapse(text))
  {
    hide Collapse;
  }

  lemma ComparisonIsKnown(field: string, op: string, text: string, c: Ctx)
    requires op == "=" || op == "!="
    ensures Eval(QuotedComparison(field, op, text), c) != Unknown
  {
  }

  /** Where the field holds a text. */
  lemma TextComparison(field: string, op: string, x: string, c: Ctx)
    requires '.' !in field && (op == "=" || op == "!=") && !IsNullLit(Lit(x))
    requires field in c.values && c.values[field].Str?
    ensures Eval(QuotedComparison(field, op, x), c) == Known((op == "=") == (c.values[field] == LitValue(x, c)))
  {
    hide LitValue;
    assert Resolve(Path(field), c) == Some(c.values[field]);
  }

  lemma ToldApart(field: string, op: string, text: string, number: string -> Option<real>)
    requires '.' !in field && (op == "=" || op == "!=") && '"' !in text && Collapse(text) != text
    requires NumeralsAreTight(number)
    ensures var c := HoldsLiteral(field, text, number);
      && Eval(QuotedComparison(field, op, text), c) == Known(op == "=")
      && Eval(QuotedComparison(field, op, Collapse(text)), c) == Known(op != "=")
  {
    hide Collapse, LitValue, Eval, HoldsLiteral, NumeralsAreTight;
    var c, u := HoldsLiteral(field, text, number), Collapse(text);
    CollapseKeeps(text);
    HoldsIs(field, text, number);
    OwnValue(field, text, number);
    OtherValue(field, text, number, u);
    assert !IsNullLit(Lit(text)) && !IsNullLit(Lit(u)) by { DottedIsNoNull(text, u); }
    TextComparison(field, op, text, c);
    TextComparison(field, op, u, c);
  }

  lemma HoldsIs(field: string, text: string, number: string -> Option<real>)
    ensures var c := HoldsLiteral(field, text, number);
      field in c.values && c.values[field] == Str(text) && c.number == number
  {
  }

  /** The literal's own value is what the field holds, whether the literal is a text or an attribute. */
  lemma OwnValue(field: string, text: string, number: string -> Option<real>)
    requires Collapse(text) != text && '"' !in text && NumeralsAreTight(number)
    ensures LitValue(text, HoldsLiteral(field, text, number)) == Str(text)
  {
    hide Collapse, NoGapsAtDots;
    CollapsesToItselfIff(text);
    CollapseKeeps(text);
    assert text != "" && text[0] in text;
  }

  /** No other literal has that value. */
  lemma OtherValue(field: string, text: string, number: string -> Option<real>, u: string)
    requires u != text && text != "" && '"' !in u
    ensures LitValue(u, HoldsLiteral(field, text, number)) != Str(text)
  {
    assert u != "" ==> u[0] in u;
    if IsAttribute(text) && IsAttribute(u) {
      assert text == text[..4] + text[4..] && u == u[..4] + u[4..] && text[..4] == u[..4];
    }
  }

  lemma DottedIsNoNull(text: string, u: string)
    requires '.' in text && '.' in u
    ensures !IsNullLit(Lit(text)) && !IsNullLit(Lit(u))
  {
  }

  /** A text that collapsing changes has a dot, which stays; it keeps its first character or loses blanks. */
  lemma CollapseKeeps(text: string)
    requires Collapse(text) != text
    ensures '.' in text && '.' in Collapse(text) && (forall ch <- Collapse(text) :: ch in text)
    ensures Firm(text[0]) ==> Collapse(text)[0] == text[0]
  {
    if '.' !in text {
      assert NoGapsAtDots(text);
      CollapseTight(text);
    }
    CollapsedHasNoGaps(text);
    DotsStay(text);
    CollapseStep(text);
  }

  lemma {:induction false} DotsStay(text: string)
    requires '.' in text
    ensures '.' in Collapse(text)
    decreases |text|
  {
    CollapseStep(text);
    if !DotAhead(text) {
      assert GapRun(text) == 0 ==> text[0] != '.';
      assert text == [text[0]] + text[1..] && text[0] != '.';
      DotsStay(text[1..]);
    }
  }

  /** A failing input: a name with an initial is not found by the text that asks for it. */
  lemma InitialIsLost(field: string, name: string, number: string -> Option<real>)
    requires field == "name" && name == "J. Smith" && NumeralsAreTight(number)
    ensures var n, c := QuotedComparison(field, "=", name), HoldsLiteral(field, name, number);
      Eval(n, c) == Known(true) && EvalWhere(Print(n), c) == Known(false)
  {
    hide Collapse, Eval, EvalWhere, Print, HoldsLiteral, OperandOk, OperandTok, NoGapsAtDots, Collapsed, NodeOk,
      NumeralsAreTight;
    NameIsPlain(field);
    InitialHasGap(name);
    CollapsesToItselfIff(name);
    QuotedIs(field, "=", name);
    PrintKeepsMeaning(QuotedComparison(field, "=", name), HoldsLiteral(field, name, number));
    ToldApart(field, "=", name, number);
  }

  // ---- lists of literals -----------------------------------------------------------------------

  predicate Literals(list: seq<Operand>) {
    forall x <- list :: x.Lit? && '"' !in x.text
  }

  /** A field asked for in a list of literals: the text keeps its meaning in every context exactly when every
      literal printed in quotes is spared. */
  lemma QuotedListIff(field: string, list: seq<Operand>, number: string -> Option<real>)
    requires OperandOk(Path(field)) && '.' !in field && Literals(list) && NumeralsAreTight(number)
    ensures var n := In(Path(field), list);
      (forall c: Ctx | c.number == number :: EvalWhere(Print(n), c) == Eval(n, c)) <==>
      forall x <- list :: OperandSpared(x)
  {
    hide NoGapsAtDots, Collapse, Eval, EvalWhere, Print, OperandOk, OperandTok, HoldsLiteral, NumeralsAreTight,
      OperandSpared;
    var n := In(Path(field), list);
    ListNodeIs(field, list);
    ListSparedIff(list);
    if forall x <- list :: OperandSpared(x) {
      forall c ensures EvalWhere(Print(n), c) == Eval(n, c) {
        PrintKeepsMeaning(n, c);
        assert Eval(n, c) != Unknown by { ListIsKnown(field, list, c); }
      }
    } else {
      var x :| x in list && !OperandSpared(x);
      var c := HoldsLiteral(field, x.text, number);
      HoldsIs(field, x.text, number);
      PrintKeepsMeaning(n, c);
      LostFromList(field, list, x, number);
    }
  }

  lemma ListNodeIs(field: string, list: seq<Operand>)
    requires OperandOk(Path(field)) && Literals(list)
    ensures NodeOk(In(Path(field), list)) && Collapsed(In(Path(field), list)) == In(Path(field), CollapsedList(list))
    ensures Spared(In(Path(field), list)) <==> forall x <- list :: OperandSpared(x)
  {
    hide Collapse, CollapsedList, NoGapsAtDots;
  }

  lemma ListIsKnown(field: string, list: seq<Operand>, c: Ctx)
    requires '.' !in field
    ensures Eval(In(Path(field), list), c) != Unknown
    ensures Eval(In(Path(field), list), c) ==
      AnyEqual(if field in c.values then c.values[field] else Str(field), list, c)
  {
    AnyIsKnown(if field in c.values then c.values[field] else Str(field), list, c);
  }

  lemma {:induction false} AnyIsKnown(v: Value, list: seq<Operand>, c: Ctx)
    ensures AnyEqual(v, list, c) != Unknown
    decreases |list|
  {
    if list != [] {
      AnyIsKnown(v, list[1..], c);
    }
  }

  /** A text is in a list exactly when it is the value of one of its literals. */
  lemma {:induction false} TextInList(text: string, list: seq<Operand>, c: Ctx)
    ensures AnyEqual(Str(text), list, c) == Known(exists x <- list :: ValueOf(x, c) == Str(text))
    decreases |list|
  {
    hide ValueOf;
    if list != [] {
      assert list == [list[0]] + list[1..];
      TextInList(text, list[1..], c);
    }
  }

  /** Where the field holds a literal that is not spared, the list contains it and the collapsed list does not. */
  lemma LostFromList(field: string, list: seq<Operand>, x: Operand, number: string -> Option<real>)
    requires '.' !in field && Literals(list) && x in list && !OperandSpared(x) && NumeralsAreTight(number)
    ensures var c := HoldsLiteral(field, x.text, number);
      && Eval(In(Path(field), list), c) == Known(true)
      && Eval(In(Path(field), CollapsedList(list)), c) == Known(false)
  {
    var text, c := x.text, HoldsLiteral(field, x.text, number);
    assert OperandTok(x).StrTok? && Collapse(text) != text by { CollapsesToItselfIff(text); }
    hide NoGapsAtDots, Collapse, Eval, HoldsLiteral, NumeralsAreTight, OperandSpared, LitValue, OperandTok, AnyEqual;
    HoldsIs(field, text, number);
    OwnValue(field, text, number);
    CollapseKeeps(text);
    ListIsKnown(field, list, c);
    ListIsKnown(field, CollapsedList(list), c);
    TextInList(text, list, c);
    TextInList(text, CollapsedList(list), c);
    assert ValueOf(x, c) == Str(text);
    forall y | y in CollapsedList(list) ensures ValueOf(y, c) != Str(text) {
      var z := CollapsedFrom(list, y);
      CollapsedIsTight(z, text);
      OtherValue(field, text, number, y.text);
    }
  }

  lemma {:induction false} CollapsedFrom(list: seq<Operand>, y: Operand) returns (z: Operand)
    requires y in CollapsedList(list)
    ensures z in list && y == CollapsedOperand(z)
    decreases |list|
  {
    hide CollapsedOperand;
    z := list[0];
    if y != CollapsedOperand(list[0]) {
      z := CollapsedFrom(list[1..], y);
    }
  }

  /** What collapsing makes of a literal is no text that it changes. */
  lemma CollapsedIsTight(z: Operand, text: string)
    requires z.Lit? && '"' !in z.text && Collapse(text) != text && OperandTok(Lit(text)).StrTok?
    ensures var y := CollapsedOperand(z); y.Lit? && y.text != text && '"' !in y.text
  {
    hide Collapse, NoGapsAtDots, OperandTok;
    CollapsesToItselfIff(text);
    if OperandTok(z).StrTok? {
      CollapsedHasNoGaps(z.text);
      if Collapse(z.text) != z.text {
        CollapseKeeps(z.text);
      }
    }
  }

  lemma InitialHasGap(name: string)
    requires name == "J. Smith"
    ensures !NoGapsAtDots(name) && '"' !in name && OperandTok(Lit(name)).StrTok?
  {
    assert name[1] == '.' && IsGap(name[2]);
  }

  lemma NameIsPlain(field: string)
    requires field == "name"
    ensures OperandOk(Path(field)) && '.' !in field
  {
  }

  /** Beyond a field's comparison the condition is enough but not necessary: a literal that loses blanks on both
      sides still equals itself. */
  lemma SelfComparisonKeepsMeaning(text: string, c: Ctx)
    requires '"' !in text && OperandTok(Lit(text)).StrTok? && !NoGapsAtDots(text)
    requires Firm(text[0]) && text[0] != '$'
    ensures var n := Cmp(Lit(text), "=", Lit(text));
      !Spared(n) && Eval(n, c) == Known(true) && EvalWhere(Print(n), c) == Known(true)
  {
    hide Collapse, EvalWhere, Print, OperandOk, OperandTok, LitValue, NoGapsAtDots;
    var n := Cmp(Lit(text), "=", Lit(text));
    CollapsesToItselfIff(text);
    CollapseKeeps(text);
    SelfIs(text);
    EqualsItself(text, c);
    EqualsItself(Collapse(text), c);
    SparedIff(n);
    PrintKeepsMeaning(n, c);
  }

  lemma SelfIs(text: string)
    requires '"' !in text && OperandTok(Lit(text)).StrTok?
    ensures NodeOk(Cmp(Lit(text), "=", Lit(text)))
    ensures Collapsed(Cmp(Lit(text), "=", Lit(text))) == Cmp(Lit(Collapse(text)), "=", Lit(Collapse(text)))
  {
    hide Collapse;
  }

  lemma EqualsItself(text: string, c: Ctx)
    requires '.' in text && text[0] != '$'
    ensures Eval(Cmp(Lit(text), "=", Lit(text)), c) == Known(true)
  {
    assert !IsAttribute(text) && !IsNullLit(Lit(text));
    assert Resolve(Lit(text), c) == Some(LitValue(text, c));
  }

  // ---- two-valued reading ------------------------------------------------------------------

  /** Truthiness of a dotted path that leads nowhere is the only thing that leaves a condition undecided. */
  predicate Decided(n: Node, c: Ctx) {
    match n
    case And(l, r) => Decided(l, c) && Decided(r, c)
    case Or(l, r) => Decided(l, c) && Decided(r, c)
    case Not(inner) => Decided(inner, c)
    case Cmp(l, op, r) => EvalCmp(l, op, r, c) != Crash
    case In(o, list) => Resolve(o, c).Some? ==> AnyEqual(Resolve(o, c).value, list, c) != Crash
    case Truthy(o) => Resolve(o, c).Some?
  }

  /** The classical reading, where connectives do not depend on the order of their sides. */
  predicate Sat(n: Node, c: Ctx) {
    match n
    case And(l, r) => Sat(l, c) && Sat(r, c)
    case Or(l, r) => Sat(l, c) || Sat(r, c)
    case Not(inner) => !Sat(inner, c)
    case Cmp(l, op, r) => EvalCmp(l, op, r, c) == Known(true)
    case In(o, list) => Resolve(o, c).Some? && exists x <- list :: ValuesEqual(Resolve(o, c).value, ValueOf(x, c))
    case Truthy(o) => Resolve(o, c) == Some(Bool(true))
  }

  lemma {:induction false} AnyEqualIs(v: Value, list: seq<Operand>, c: Ctx)
    requires AnyEqual(v, list, c) != Crash
    ensures AnyEqual(v, list, c) == Known(exists x <- list :: ValuesEqual(v, ValueOf(x, c)))
  {
    if list != [] {
      assert list == [list[0]] + list[1..];
      if Equal(v, ValueOf(list[0], c)) == Known(false) {
        AnyEqualIs(v, list[1..], c);
      }
    }
  }

  /** Where every leaf is decided, short-circuit evaluation is classical logic. */
  lemma {:induction false} DecidedIsClassical(n: Node, c: Ctx)
    requires Decided(n, c)
    ensures Eval(n, c) == Known(Sat(n, c))
  {
    match n {
      case And(l, r) =>
        DecidedIsClassical(l, c);
        DecidedIsClassical(r, c);
      case Or(l, r) =>
        DecidedIsClassical(l, c);
        DecidedIsClassical(r, c);
      case Not(inner) => DecidedIsClassical(inner, c);
      case Cmp(_, _, _) =>
        assert EvalCmp(n.subject, n.op, n.object_, c) != Unknown;
      case In(o, list) =>
        if Resolve(o, c).Some? {
          AnyEqualIs(Resolve(o, c).value, list, c);
        }
      case Truthy(_) =>
    }
  }

  /** A text and its negation: outside the undecided case exactly one of them holds; inside it neither does. */
  lemma NegationFailsClosed(n: Node, c: Ctx)
    requires NodeOk(n) && Eval(Collapsed(n), c) != Crash
    ensures !(EvalWhere(Print(n), c) == Known(true) && EvalWhere(Print(Not(n)), c) == Known(true))
    ensures EvalWhere(Print(n), c) == Known(false) && EvalWhere(Print(Not(n)), c) == Known(false) <==>
      Eval(Collapsed(n), c) == Unknown
  {
    PrintKeepsMeaning(n, c);
    PrintKeepsMeaning(Not(n), c);
  }
}
