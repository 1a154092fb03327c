/** One-pass evaluation of a printed expression is the real value of its tree. */
module ArithmeticMeaning {
  import opened Values
  import opened Conditions
  import opened Spelling
  import opened Arithmetic

  datatype Arith =
    | Numeral(text: string)
    | Field(path: string)
    | Call(name: string, body: string)
    | Minus(inner: Arith)
    | Sum(op: char, left: Arith, right: Arith)
    | Product(op: char, left: Arith, right: Arith)

  predicate PlainNumeral(text: string) {
    text != "" && TightDots(text) && forall ch <- text :: DigitOrDot(ch)
  }

  predicate PlainPath(text: string) {
    text != "" && TightDots(text) && !IsDigit(text[0]) && forall ch <- text :: AtomByte(ch)
  }

  /** A function term: its name, and a body whose parentheses close. */
  predicate PlainCall(name: string, body: string) {
    PlainPath(name) && TightDots(body) && Close(body + [')'], 1) == Some(|body|)
  }

  predicate ArithOk(n: Arith) {
    match n
    case Numeral(text) => PlainNumeral(text)
    case Field(path) => PlainPath(path)
    case Call(name, body) => PlainCall(name, body)
    case Minus(inner) => ArithOk(inner)
    case Sum(op, l, r) => (op == '+' || op == '-') && ArithOk(l) && ArithOk(r)
    case Product(op, l, r) => (op == '*' || op == '/') && ArithOk(l) && ArithOk(r)
  }

  // ---- the value of a tree -------------------------------------------------------------

  /** The value where it exists; the reals are total, and a failed part stands for zero. */
  function RealOf(n: Arith, c: Reader): real {
    match n
    case Numeral(text) => if c.number(text).Some? then c.number(text).value else 0.0
    case Field(path) =>
      if c.path(path).Some? && ToNumber(c.path(path).value).Some? then ToNumber(c.path(path).value).value else 0.0
    case Call(name, body) => if c.call(name, body).Got? then c.call(name, body).v else 0.0
    case Minus(inner) => -RealOf(inner, c)
    case Sum(op, l, r) => if op == '+' then RealOf(l, c) + RealOf(r, c) else RealOf(l, c) - RealOf(r, c)
    case Product(op, l, r) =>
      if op == '*' then RealOf(l, c) * RealOf(r, c)
      else if RealOf(r, c) == 0.0 then 0.0
      else RealOf(l, c) / RealOf(r, c)
  }

  /** Every function term of the tree returns. */
  predicate Returns(n: Arith, c: Reader) {
    match n
    case Call(name, body) => c.call(name, body) != Diverges
    case Minus(inner) => Returns(inner, c)
    case Sum(_, l, r) => Returns(l, c) && Returns(r, c)
    case Product(_, l, r) => Returns(l, c) && Returns(r, c)
    case _ => true
  }

  /** Somewhere a path is unresolved or not a number, a numeral is malformed, a function term fails, or a divisor
      is zero. */
  predicate Broken(n: Arith, c: Reader) {
    match n
    case Numeral(text) => c.number(text).None?
    case Field(path) => c.path(path).None? || ToNumber(c.path(path).value).None?
    case Call(name, body) => !c.call(name, body).Got?
    case Minus(inner) => Broken(inner, c)
    case Sum(_, l, r) => Broken(l, c) || Broken(r, c)
    case Product(op, l, r) => Broken(l, c) || Broken(r, c) || (op == '/' && RealOf(r, c) == 0.0)
  }

  // ---- printing ---------------------------------------------------------------------------

  datatype Tier = Expression | TermTier | FactorTier

  function Wrap(inner: string): string {
    ['('] + inner + [')']
  }

  function Infix(l: string, op: char, r: string): string {
    l + [' ', op, ' '] + r
  }

  function PrintArith(n: Arith, tier: Tier): string {
    match n
    case Numeral(text) => text
    case Field(path) => path
    case Call(name, body) => name + (['('] + (body + [')']))
    case Minus(inner) => ['-'] + PrintArith(inner, FactorTier)
    case Sum(op, l, r) =>
      var inner := Infix(PrintArith(l, Expression), op, PrintArith(r, TermTier));
      if tier.Expression? then inner else Wrap(inner)
    case Product(op, l, r) =>
      var inner := Infix(PrintArith(l, TermTier), op, PrintArith(r, FactorTier));
      if tier.FactorTier? then Wrap(inner) else inner
  }

  predicate EndsWell(s: string) {
    s != "" && TightDots(s) && !IsSpace(s[0]) && !IsSpace(s[|s| - 1])
  }

  lemma InfixTight(l: string, op: char, r: string)
    requires EndsWell(l) && EndsWell(r) && op != '.'
    ensures EndsWell(Infix(l, op, r)) && EndsWell(Wrap(Infix(l, op, r)))
  {
    var s := Infix(l, op, r);
    assert s == l + [' '] + [op] + [' '] + r;
    forall i | 0 <= i < |s| && s[i] == '.' ensures 0 < i < |s| - 1 && !IsGap(s[i - 1]) && !IsGap(s[i + 1]) {
      if i < |l| {
        assert l[i] == '.' && s[i - 1] == l[i - 1] && s[i + 1] == l[i + 1];
      } else {
        var j := i - |l| - 3;
        assert r[j] == '.' && s[i - 1] == r[j - 1] && s[i + 1] == r[j + 1];
      }
    }
    WrapTight(s);
  }

  lemma WrapTight(s: string)
    requires EndsWell(s)
    ensures EndsWell(Wrap(s)) && EndsWell(['-'] + s)
  {
    forall i | 0 <= i < |Wrap(s)| && Wrap(s)[i] == '.'
      ensures 0 < i < |Wrap(s)| - 1 && !IsGap(Wrap(s)[i - 1]) && !IsGap(Wrap(s)[i + 1])
    {
      assert s[i - 1] == '.' && Wrap(s)[i - 1] == s[i - 2] && Wrap(s)[i + 1] == s[i];
    }
    var m := ['-'] + s;
    forall i | 0 <= i < |m| && m[i] == '.' ensures 0 < i < |m| - 1 && !IsGap(m[i - 1]) && !IsGap(m[i + 1]) {
      assert s[i - 1] == '.' && m[i - 1] == s[i - 2] && m[i + 1] == s[i];
    }
  }

  lemma {:induction false} PrintEndsWell(n: Arith, tier: Tier)
    requires ArithOk(n)
    ensures EndsWell(PrintArith(n, tier))
    decreases n
  {
    hide EndsWell, Infix, Wrap;
    match n {
      case Numeral(text) => LeafEndsWell(text);
      case Field(path) => LeafEndsWell(path);
      case Call(name, body) => CallEndsWell(name, body);
      case Minus(inner) =>
        PrintEndsWell(inner, FactorTier);
        WrapTight(PrintArith(inner, FactorTier));
      case Sum(op, l, r) =>
        PrintEndsWell(l, Expression);
        PrintEndsWell(r, TermTier);
        InfixTight(PrintArith(l, Expression), op, PrintArith(r, TermTier));
      case Product(op, l, r) =>
        PrintEndsWell(l, TermTier);
        PrintEndsWell(r, FactorTier);
        InfixTight(PrintArith(l, TermTier), op, PrintArith(r, FactorTier));
    }
  }

  lemma LeafEndsWell(text: string)
    requires text != "" && TightDots(text) && forall ch <- text :: AtomByte(ch)
    ensures EndsWell(text)
  {
    assert text[0] in text && text[|text| - 1] in text;
  }

  lemma CallEndsWell(name: string, body: string)
    requires PlainCall(name, body)
    ensures EndsWell(name + (['('] + (body + [')'])))
  {
    var s, n := name + (['('] + (body + [')'])), |name|;
    assert name[0] in name && s[0] == name[0] && s[|s| - 1] == ')';
    forall i | 0 <= i < |s| && s[i] == '.' ensures 0 < i < |s| - 1 && !IsGap(s[i - 1]) && !IsGap(s[i + 1]) {
      if i < n {
        assert name[i] == '.' && s[i - 1] == name[i - 1] && s[i + 1] == name[i + 1];
      } else {
        assert body[i - n - 1] == '.' && s[i - 1] == body[i - n - 2] && s[i + 1] == body[i - n];
      }
    }
  }

  // ---- parsing and calculating a printed tree ------------------------------------------------

  /** What may follow a printed part: nothing, a closing parenthesis, or a blank and an operator. */
  predicate Follow(rest: string) {
    rest == "" || rest[0] == ')' || (|rest| > 1 && rest[0] == ' ' && rest[1] in {'+', '-', '*', '/'})
  }

  /** A step that calculated the tree and stopped at `rest`, blanks aside; or a failure if the tree is broken. */
  ghost predicate Calculated(r: Step, n: Arith, rest: string, c: Reader) {
    if Broken(n, c) then r == Stop(Fails)
    else r.At? && r.v == RealOf(n, c) && SkipSpace(r.rest) == SkipSpace(rest)
  }

  ghost predicate Evaluates(n: Arith, tier: Tier, rest: string, c: Reader) {
    var text := PrintArith(n, tier) + rest;
    match tier
    case FactorTier => Calculated(ParseFactor(text, c), n, rest, c)
    case TermTier => ParseTerm(text, c) == if Broken(n, c) then Stop(Fails) else TermTail(RealOf(n, c), rest, c)
    case Expression => ParseExpr(text, c) == if Broken(n, c) then Stop(Fails) else ExprTail(RealOf(n, c), rest, c)
  }

  lemma {:induction false} SkipTwice(s: string)
    ensures SkipSpace(SkipSpace(s)) == SkipSpace(s)
  {
    if s != "" && (s[0] == ' ' || s[0] == '\t') {
      SkipTwice(s[1..]);
    }
  }

  /** The tails look only at the text after the blanks. */
  lemma TailsSkip(v: real, a: string, b: string, c: Reader)
    requires SkipSpace(a) == SkipSpace(b)
    ensures TermTail(v, a, c) == TermTail(v, b, c) && ExprTail(v, a, c) == ExprTail(v, b, c)
  {
  }

  lemma {:induction false} AtomRunStops(s: string, k: nat)
    requires k <= |s| && (forall i :: 0 <= i < k ==> AtomByte(s[i])) && (k < |s| ==> !AtomByte(s[k]))
    ensures AtomRun(s) == k
  {
    if k > 0 {
      AtomRunStops(s[1..], k - 1);
    }
  }

  lemma SkipFollow(rest: string)
    requires Follow(rest)
    ensures SkipSpace(rest) == if rest != "" && rest[0] == ' ' then rest[1..] else rest
  {
  }

  lemma ParseNumeral(text: string, rest: string, c: Reader)
    requires PlainNumeral(text) && Follow(rest)
    ensures Evaluates(Numeral(text), FactorTier, rest, c)
  {
    var s := text + rest;
    assert text[0] in text && s[0] == text[0];
    assert forall i :: 0 <= i < |text| ==> text[i] in text && s[i] == text[i];
    assert s[..|text|] == text && s[|text|..] == rest;
    NumRunStops(s, |text|);
    assert ParseFactor(s, c) == ParseNumber(s, c);
  }

  lemma ParseField(path: string, rest: string, c: Reader)
    requires PlainPath(path) && Follow(rest)
    ensures Evaluates(Field(path), FactorTier, rest, c)
  {
    var s := path + rest;
    assert path[0] in path && s[0] == path[0] && path[0] != '.';
    assert forall i :: 0 <= i < |path| ==> path[i] in path && s[i] == path[i];
    assert s[..|path|] == path && s[|path|..] == rest;
    AtomRunStops(s, |path|);
    SkipFollow(rest);
    SkipTwice(rest);
    assert ParseFactor(s, c) == ParseAtom(s, c);
  }

  lemma {:induction false} CloseWithin(a: string, b: string, depth: nat)
    requires depth > 0 && Close(a, depth).Some?
    ensures Close(a + b, depth) == Close(a, depth)
    decreases |a|
  {
    assert (a + b)[1..] == a[1..] + b;
    if !(a[0] == ')' && depth == 1) {
      CloseWithin(a[1..], b, if a[0] == '(' then depth + 1 else if a[0] == ')' then depth - 1 else depth);
    }
  }

  /** A name in front of an opening parenthesis is read as the name. */
  lemma NameAhead(name: string, tail: string, c: Reader)
    requires PlainPath(name) && tail != "" && tail[0] == '('
    ensures ParseFactor(name + tail, c) == ParseCall(name, tail, c)
  {
    var s := name + tail;
    assert name[0] in name && s[0] == name[0] && name[0] != '.';
    assert forall i :: 0 <= i < |name| ==> name[i] in name && s[i] == name[i];
    assert s[..|name|] == name && s[|name|..] == tail;
    AtomRunStops(s, |name|);
    hide ParseCall;
    assert ParseFactor(s, c) == ParseAtom(s, c);
    assert SkipSpace(tail) == tail;
  }

  lemma CallAhead(name: string, body: string, rest: string, c: Reader)
    requires Close(body + [')'], 1) == Some(|body|)
    ensures var v := c.call(name, body);
      ParseCall(name, ['('] + (body + ([')'] + rest)), c) == if v.Got? then At(v.v, rest) else Stop(v)
  {
    var tail := ['('] + (body + ([')'] + rest));
    CloseWithin(body + [')'], rest, 1);
    hide Close;
    CallParts(body, rest);
  }

  lemma CallParts(body: string, rest: string)
    ensures var tail := ['('] + (body + ([')'] + rest));
      && tail[1..] == (body + [')']) + rest && tail[1..][..|body|] == body && tail[|body| + 2..] == rest
  {
    var tail := ['('] + (body + ([')'] + rest));
    assert tail[1..] == (body + [')']) + rest;
    assert tail == (['('] + (body + [')'])) + rest;
  }

  lemma ParseFunction(name: string, body: string, rest: string, c: Reader)
    requires PlainCall(name, body) && Follow(rest) && c.call(name, body) != Diverges
    ensures Evaluates(Call(name, body), FactorTier, rest, c)
  {
    hide ParseFactor, ParseCall, PlainPath, TightDots, Close, SkipSpace, Follow;
    var tail := ['('] + (body + ([')'] + rest));
    NameAhead(name, tail, c);
    CallAhead(name, body, rest, c);
    assert PrintArith(Call(name, body), FactorTier) + rest == name + tail;
  }

  function Order(n: Arith, tier: Tier): nat {
    match tier
    case Expression => if n.Sum? then 0 else if n.Product? then 1 else 2
    case TermTier => if n.Sum? then 2 else if n.Product? then 0 else 1
    case FactorTier => if n.Sum? then 1 else if n.Product? then 2 else 0
  }

  /** What may follow at a tier: a term is not followed by a factor operator where an expression is expected. */
  predicate FollowAt(tier: Tier, rest: string) {
    Follow(rest) && (tier.Expression? && |rest| > 1 && rest[0] == ' ' ==> rest[1] == '+' || rest[1] == '-')
  }

  lemma {:induction false} EvaluatePrinted(n: Arith, tier: Tier, rest: string, c: Reader)
    requires ArithOk(n) && Returns(n, c) && FollowAt(tier, rest)
    ensures Evaluates(n, tier, rest, c)
    decreases n, Order(n, tier)
  {
    if tier.Expression? && !n.Sum? {
      EvaluatePrinted(n, TermTier, rest, c);
      TermStopsHere(n, rest, c);
    } else if tier.TermTier? && !n.Product? {
      EvaluatePrinted(n, FactorTier, rest, c);
      assert PrintArith(n, TermTier) == PrintArith(n, FactorTier);
      FactorStartsTerm(n, PrintArith(n, TermTier) + rest, rest, c);
    } else {
      match n {
        case Numeral(text) => ParseNumeral(text, rest, c);
        case Field(path) => ParseField(path, rest, c);
        case Call(name, body) => ParseFunction(name, body, rest, c);
        case Minus(inner) =>
          EvaluatePrinted(inner, FactorTier, rest, c);
          assert PrintArith(n, tier) + rest == ['-'] + (PrintArith(inner, FactorTier) + rest);
          NegateStep(inner, PrintArith(inner, FactorTier) + rest, rest, c);
        case Sum(op, l, r) =>
          if tier.Expression? {
            EvaluateSum(op, l, r, rest, c);
          } else {
            EvaluateParens(n, Expression, rest, c);
          }
        case Product(op, l, r) =>
          if tier.TermTier? {
            EvaluateProduct(op, l, r, rest, c);
          } else {
            EvaluateParens(n, TermTier, rest, c);
          }
      }
    }
  }

  /** A term followed by no factor operator ends there. */
  lemma TermStopsHere(n: Arith, rest: string, c: Reader)
    requires ArithOk(n) && FollowAt(Expression, rest) && !n.Sum? && Evaluates(n, TermTier, rest, c)
    ensures Evaluates(n, Expression, rest, c)
  {
    SkipFollow(rest);
    SkipTwice(rest);
    assert PrintArith(n, Expression) == PrintArith(n, TermTier);
    if !Broken(n, c) {
      TailsSkip(RealOf(n, c), SkipSpace(rest), rest, c);
    }
  }

  lemma FactorStartsTerm(n: Arith, text: string, rest: string, c: Reader)
    requires Calculated(ParseFactor(text, c), n, rest, c)
    ensures ParseTerm(text, c) == if Broken(n, c) then Stop(Fails) else TermTail(RealOf(n, c), rest, c)
  {
    if !Broken(n, c) {
      TailsSkip(RealOf(n, c), ParseFactor(text, c).rest, rest, c);
    }
  }

  lemma NegateStep(inner: Arith, text: string, rest: string, c: Reader)
    requires Calculated(ParseFactor(text, c), inner, rest, c)
    ensures Calculated(ParseFactor(['-'] + text, c), Minus(inner), rest, c)
  {
    assert (['-'] + text)[1..] == text;
    assert SkipSpace(['-'] + text) == ['-'] + text;
  }

  lemma {:induction false} EvaluateSum(op: char, l: Arith, r: Arith, rest: string, c: Reader)
    requires ArithOk(Sum(op, l, r)) && Returns(Sum(op, l, r), c) && FollowAt(Expression, rest)
    ensures Evaluates(Sum(op, l, r), Expression, rest, c)
    decreases Sum(op, l, r), 0, 0
  {
    hide ParseExpr, ParseTerm, ParseFactor, ExprTail, TermTail, SkipSpace;
    var right := PrintArith(r, TermTier) + rest;
    var after := [' ', op, ' '] + right;
    EvaluatePrinted(l, Expression, after, c);
    EvaluatePrinted(r, TermTier, rest, c);
    assert PrintArith(Sum(op, l, r), Expression) + rest == PrintArith(l, Expression) + after;
    if !Broken(r, c) {
      TermStops(RealOf(r, c), rest, c);
    }
    SumStep(RealOf(l, c), op, right, rest, c);
  }

  /** One turn of the sum loop on a printed operator. */
  lemma SumTurn(v: real, op: char, right: string, c: Reader)
    requires op == '+' || op == '-'
    ensures var r := ParseTerm(right, c);
      ExprTail(v, [' ', op, ' '] + right, c) ==
      if r.Stop? then r else ExprTail(if op == '+' then v + r.v else v - r.v, r.rest, c)
  {
    BlankBeforeTerm(right, c);
    OperatorAhead(op, right);
    hide ParseTerm, SkipSpace;
  }

  lemma SumStep(v: real, op: char, right: string, rest: string, c: Reader)
    requires op == '+' || op == '-'
    ensures var r, text := ParseTerm(right, c), [' ', op, ' '] + right;
      && (r.Stop? ==> ExprTail(v, text, c) == r)
      && (r.At? && r.rest == SkipSpace(rest) ==>
            ExprTail(v, text, c) == ExprTail(if op == '+' then v + r.v else v - r.v, rest, c))
  {
    hide *;
    SumTurn(v, op, right, c);
    SkipTwice(rest);
    var r := ParseTerm(right, c);
    if r.At? && r.rest == SkipSpace(rest) {
      TailsSkip(if op == '+' then v + r.v else v - r.v, r.rest, rest, c);
    }
  }

  lemma OperatorAhead(op: char, right: string)
    requires op != ' ' && op != '\t'
    ensures var text := [' ', op, ' '] + right;
      SkipSpace(text) == [op, ' '] + right && SkipSpace(text)[0] == op && SkipSpace(text)[1..] == [' '] + right
  {
    var text := [' ', op, ' '] + right;
    assert text[1..] == [op, ' '] + right && ([op, ' '] + right)[1..] == [' '] + right;
  }

  lemma TermStops(v: real, rest: string, c: Reader)
    requires FollowAt(Expression, rest)
    ensures TermTail(v, rest, c) == At(v, SkipSpace(rest))
    ensures forall w :: ExprTail(w, SkipSpace(rest), c) == ExprTail(w, rest, c)
  {
    SkipFollow(rest);
    SkipTwice(rest);
    forall w ensures ExprTail(w, SkipSpace(rest), c) == ExprTail(w, rest, c) {
      TailsSkip(w, SkipSpace(rest), rest, c);
    }
  }

  lemma BlankBeforeTerm(text: string, c: Reader)
    ensures ParseFactor([' '] + text, c) == ParseFactor(text, c)
    ensures ParseTerm([' '] + text, c) == ParseTerm(text, c)
  {
    assert ([' '] + text)[1..] == text;
  }

  lemma {:induction false} EvaluateProduct(op: char, l: Arith, r: Arith, rest: string, c: Reader)
    requires ArithOk(Product(op, l, r)) && Returns(Product(op, l, r), c) && Follow(rest)
    ensures Evaluates(Product(op, l, r), TermTier, rest, c)
    decreases Product(op, l, r), 0, 0
  {
    hide ParseExpr, ParseTerm, ParseFactor, ExprTail, TermTail, SkipSpace;
    var right := PrintArith(r, FactorTier) + rest;
    var after := [' ', op, ' '] + right;
    EvaluatePrinted(l, TermTier, after, c);
    EvaluatePrinted(r, FactorTier, rest, c);
    assert PrintArith(Product(op, l, r), TermTier) + rest == PrintArith(l, TermTier) + after;
    ProductStep(RealOf(l, c), op, right, rest, c);
    CombineIs(op, l, r, c);
    hide Combine, RealOf;
  }

  lemma CombineIs(op: char, l: Arith, r: Arith, c: Reader)
    requires op == '*' || op == '/'
    ensures var n := Product(op, l, r);
      !Broken(l, c) && !Broken(r, c) ==>
        Combine(op, RealOf(l, c), RealOf(r, c)) == if Broken(n, c) then Fails else Got(RealOf(n, c))
  {
  }

  lemma ProductStep(v: real, op: char, right: string, rest: string, c: Reader)
    requires op == '*' || op == '/'
    ensures var r, text := ParseFactor(right, c), [' ', op, ' '] + right;
      && (r.Stop? ==> TermTail(v, text, c) == r)
      && (r.At? && SkipSpace(r.rest) == SkipSpace(rest) ==>
            TermTail(v, text, c) ==
            if Combine(op, v, r.v).Got? then TermTail(Combine(op, v, r.v).v, rest, c) else Stop(Fails))
  {
    var text := [' ', op, ' '] + right;
    BlankBeforeTerm(right, c);
    OperatorAhead(op, right);
    hide Combine, ParseFactor, SkipSpace;
    var r := ParseFactor(right, c);
    if r.At? && SkipSpace(r.rest) == SkipSpace(rest) {
      CombineFails(op, v, r.v);
      if Combine(op, v, r.v).Got? {
        TailsSkip(Combine(op, v, r.v).v, r.rest, rest, c);
      }
    }
  }

  lemma CombineFails(op: char, v: real, w: real)
    ensures !Combine(op, v, w).Diverges?
  {
  }

  lemma {:induction false} EvaluateParens(n: Arith, tier: Tier, rest: string, c: Reader)
    requires ArithOk(n) && Returns(n, c) && Follow(rest)
    requires ((n.Sum? && tier.Expression?) || (n.Product? && tier.TermTier?))
    ensures Evaluates(n, FactorTier, rest, c)
    decreases n, 1, 0
  {
    var close := [')'] + rest;
    var inner := PrintArith(n, Expression);
    EvaluatePrinted(n, tier, close, c);
    if n.Product? {
      TermStopsHere(n, close, c);
    }
    assert PrintArith(n, FactorTier) + rest == ['('] + (inner + close);
    assert (['('] + (inner + close))[1..] == inner + close;
    assert SkipSpace(close) == close && close[1..] == rest;
    assert SkipSpace(['('] + (inner + close)) == ['('] + (inner + close);
  }

  /** Evaluating the printed expression gives the real value of the tree, and fails exactly when it is broken. */
  lemma OnePassIsTreeValue(n: Arith, c: Reader)
    requires ArithOk(n) && Returns(n, c)
    ensures EvalExpr(PrintArith(n, Expression), c) == if Broken(n, c) then Fails else Got(RealOf(n, c))
  {
    hide ArithOk, PrintArith, RealOf, Broken, ParseExpr, Collapse, TightDots;
    var text := PrintArith(n, Expression);
    PrintEndsWell(n, Expression);
    TightHasNoGaps(text);
    CollapseTight(text);
    EvaluatePrinted(n, Expression, "", c);
    assert text + "" == text;
  }
}
