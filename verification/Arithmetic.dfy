/** The one-pass evaluator of computed fields: it parses and calculates at the same time. */
module Arithmetic {
  import opened Values
  import opened Conditions

  /** The value of an expression. Diverges marks an evaluation that would not return. */
  datatype Number = Got(v: real) | Fails | Diverges

  /** What an expression reads: float literals, record paths, and function terms by name and body. */
  datatype Reader = Reader(
    number: string -> Option<real>,
    path: string -> Option<Value>,
    call: (string, string) -> Number)

  /** A value together with the text after it. */
  datatype Step = At(v: real, rest: string) | Stop(why: Number)

  function SkipSpace(s: string): (rest: string)
    ensures |rest| <= |s| && (rest != "" ==> rest[0] != ' ' && rest[0] != '\t')
  {
    if s != "" && (s[0] == ' ' || s[0] == '\t') then SkipSpace(s[1..]) else s
  }

  predicate AtomByte(ch: char) {
    'a' <= ch <= 'z' || 'A' <= ch <= 'Z' || IsDigit(ch) || ch == '_' || ch == '.'
  }

  function AtomRun(s: string): (k: nat)
    ensures k <= |s| && (forall i :: 0 <= i < k ==> AtomByte(s[i])) && (k < |s| ==> !AtomByte(s[k]))
  {
    if s == "" || !AtomByte(s[0]) then 0 else 1 + AtomRun(s[1..])
  }

  /** The index of the parenthesis that closes `depth` open ones. */
  function Close(s: string, depth: nat): (k: Option<nat>)
    requires depth > 0
    ensures k.Some? ==> k.value < |s| && s[k.value] == ')'
    decreases |s|
  {
    if s == "" then None
    else if s[0] == ')' && depth == 1 then Some(0)
    else
      var next := Close(s[1..], if s[0] == '(' then depth + 1 else if s[0] == ')' then depth - 1 else depth);
      if next.None? then None else Some(next.value + 1)
  }

  /** Reads a product or a quotient; a zero divisor has none. */
  function Combine(op: char, left: real, right: real): Number {
    if op == '*' then Got(left * right)
    else if right == 0.0 then Fails
    else Got(left / right)
  }

  function ParseNumber(s: string, c: Reader): (r: Step)
    ensures r.At? && s != "" && DigitOrDot(s[0]) ==> |r.rest| < |s|
  {
    var k := NumRun(s);
    var n := c.number(s[..k]);
    if n.None? then Stop(Fails) else At(n.value, s[k..])
  }

  function ParseCall(name: string, s: string, c: Reader): (r: Step)
    requires s != "" && s[0] == '('
    ensures r.At? ==> |r.rest| < |s|
  {
    var close := Close(s[1..], 1);
    if close.None? then Stop(Fails)
    else
      var v := c.call(name, s[1..][..close.value]);
      if v.Got? then At(v.v, s[close.value + 2..]) else Stop(v)
  }

  function ParseAtom(s: string, c: Reader): (r: Step)
    ensures r.At? ==> |r.rest| < |s|
  {
    var k := AtomRun(s);
    if k == 0 then Stop(Fails)
    else
      var name, rest := s[..k], SkipSpace(s[k..]);
      if rest != "" && rest[0] == '(' then ParseCall(name, rest, c)
      else
        var v := c.path(name);
        if v.None? || ToNumber(v.value).None? then Stop(Fails) else At(ToNumber(v.value).value, rest)
  }

  function ParseFactor(text: string, c: Reader): (r: Step)
    ensures r.At? ==> |r.rest| < |text|
    decreases |text|, 0
  {
    var s := SkipSpace(text);
    if s == "" then Stop(Fails)
    else if s[0] == '(' then
      var v := ParseExpr(s[1..], c);
      if v.Stop? then v
      else
        var rest := SkipSpace(v.rest);
        if rest == "" || rest[0] != ')' then Stop(Fails) else At(v.v, rest[1..])
    else if s[0] == '-' then
      var v := ParseFactor(s[1..], c);
      if v.Stop? then v else At(-v.v, v.rest)
    else if DigitOrDot(s[0]) then ParseNumber(s, c)
    else ParseAtom(s, c)
  }

  function ParseTerm(s: string, c: Reader): (r: Step)
    ensures r.At? ==> |r.rest| < |s|
    decreases |s|, 1
  {
    var left := ParseFactor(s, c);
    if left.Stop? then left else TermTail(left.v, left.rest, c)
  }

  function TermTail(left: real, text: string, c: Reader): (r: Step)
    ensures r.At? ==> |r.rest| <= |text|
    decreases |text|, 0
  {
    var s := SkipSpace(text);
    if s == "" || (s[0] != '*' && s[0] != '/') then At(left, s)
    else
      var right := ParseFactor(s[1..], c);
      if right.Stop? then right
      else
        var v := Combine(s[0], left, right.v);
        if v.Got? then TermTail(v.v, right.rest, c) else Stop(v)
  }

  function ParseExpr(s: string, c: Reader): (r: Step)
    ensures r.At? ==> |r.rest| < |s|
    decreases |s|, 2
  {
    var left := ParseTerm(s, c);
    if left.Stop? then left else ExprTail(left.v, left.rest, c)
  }

  function ExprTail(left: real, text: string, c: Reader): (r: Step)
    ensures r.At? ==> |r.rest| <= |text|
    decreases |text|, 0
  {
    var s := SkipSpace(text);
    if s == "" || (s[0] != '+' && s[0] != '-') then At(left, s)
    else
      var right := ParseTerm(s[1..], c);
      if right.Stop? then right
      else ExprTail(if s[0] == '+' then left + right.v else left - right.v, right.rest, c)
  }

  /** The value of an expression text; text left over is a failure. */
  function EvalExpr(text: string, c: Reader): Number {
    var r := ParseExpr(Collapse(TrimSpace(text)), c);
    if r.Stop? then r.why
    else if SkipSpace(r.rest) != "" then Fails
    else Got(r.v)
  }

  // ---- the evaluator as it runs ----------------------------------------------------

  class Evaluator {
    const s: string
    const c: Reader
    var pos: nat

    ghost predicate Valid()
      reads this
    {
      pos <= |s|
    }

    constructor (s: string, c: Reader)
      ensures Valid() && this.s == s && this.c == c && pos == 0
    {
      this.s, this.c, pos := s, c, 0;
    }

    function Rest(): string
      requires Valid()
      reads this
    {
      s[pos..]
    }

    /** How a method's outcome and position relate to what the function makes of the remaining text. */
    ghost predicate Did(p: Step, r: Number)
      requires Valid()
      reads this
    {
      if p.At? then r == Got(p.v) && Rest() == p.rest else r == p.why && !r.Got?
    }

    method Skip()
      requires Valid()
      modifies this
      ensures Valid() && pos >= old(pos) && Rest() == SkipSpace(old(Rest()))
    {
      while pos < |s| && (s[pos] == ' ' || s[pos] == '\t')
        invariant Valid() && pos >= old(pos)
        invariant SkipSpace(Rest()) == SkipSpace(old(Rest()))
      {
        assert Rest()[1..] == s[pos + 1..];
        pos := pos + 1;
      }
    }

    method Expr() returns (r: Number)
      requires Valid()
      modifies this
      ensures Valid() && pos >= old(pos) && Did(ParseExpr(old(Rest()), c), r)
      decreases |s| - pos, 2
    {
      hide ParseTerm, SkipSpace;
      r := Term();
      while r.Got?
        invariant Valid() && pos >= old(pos)
        invariant !r.Got? ==> ParseExpr(old(Rest()), c) == Stop(r)
        invariant r.Got? ==> pos > old(pos) && ParseExpr(old(Rest()), c) == ExprTail(r.v, Rest(), c)
        decreases r.Got?, |s| - pos
      {
        Skip();
        if pos >= |s| || (s[pos] != '+' && s[pos] != '-') {
          return;
        }
        var op := s[pos];
        ghost var rest := Rest();
        pos := pos + 1;
        assert Rest() == rest[1..];
        var right := Term();
        r := if !right.Got? then right else Got(if op == '+' then r.v + right.v else r.v - right.v);
      }
    }

    method Term() returns (r: Number)
      requires Valid()
      modifies this
      ensures Valid() && pos >= old(pos) && (r.Got? ==> pos > old(pos)) && Did(ParseTerm(old(Rest()), c), r)
      decreases |s| - pos, 1
    {
      hide Combine;
      r := Factor();
      while r.Got?
        invariant Valid() && pos >= old(pos)
        invariant !r.Got? ==> ParseTerm(old(Rest()), c) == Stop(r)
        invariant r.Got? ==> pos > old(pos) && ParseTerm(old(Rest()), c) == TermTail(r.v, Rest(), c)
        decreases r.Got?, |s| - pos
      {
        Skip();
        if pos >= |s| || (s[pos] != '*' && s[pos] != '/') {
          return;
        }
        var op := s[pos];
        ghost var rest := Rest();
        pos := pos + 1;
        assert Rest() == rest[1..];
        var right := Factor();
        r := if right.Got? then Combine(op, r.v, right.v) else right;
      }
    }

    method Factor() returns (r: Number)
      requires Valid()
      modifies this
      ensures Valid() && pos >= old(pos) && (r.Got? ==> pos > old(pos)) && Did(ParseFactor(old(Rest()), c), r)
      decreases |s| - pos, 0
    {
      Skip();
      if pos >= |s| {
        return Fails;
      }
      ghost var start := Rest();
      if s[pos] == '(' {
        pos := pos + 1;
        assert Rest() == start[1..];
        r := Expr();
        Skip();
        if !r.Got? {
          return;
        }
        if pos >= |s| || s[pos] != ')' {
          return Fails;
        }
        assert Rest()[1..] == s[pos + 1..];
        pos := pos + 1;
      } else if s[pos] == '-' {
        pos := pos + 1;
        assert Rest() == start[1..];
        r := Factor();
        r := if r.Got? then Got(-r.v) else r;
      } else if DigitOrDot(s[pos]) {
        r := Numeral();
      } else {
        r := Atom();
      }
    }

    method Numeral() returns (r: Number)
      requires Valid() && pos < |s| && DigitOrDot(s[pos])
      modifies this
      ensures Valid() && pos > old(pos) && Did(ParseNumber(old(Rest()), c), r)
    {
      ghost var text := Rest();
      var start := pos;
      while pos < |s| && DigitOrDot(s[pos])
        invariant start <= pos <= |s|
        invariant NumRun(text) == (pos - start) + NumRun(Rest())
        invariant pos == start ==> pos < |s| && DigitOrDot(s[pos])
      {
        assert Rest()[1..] == s[pos + 1..];
        pos := pos + 1;
      }
      assert text[..pos - start] == s[start..pos] && text[pos - start..] == Rest();
      var n := c.number(s[start..pos]);
      r := if n.None? then Fails else Got(n.value);
    }

    /** A function term: its body runs to the parenthesis that closes it. */
    method FunctionTerm(name: string) returns (r: Number)
      requires Valid() && pos < |s| && s[pos] == '('
      modifies this
      ensures Valid() && pos >= old(pos) && (r.Got? ==> pos > old(pos)) && Did(ParseCall(name, old(Rest()), c), r)
    {
      ghost var rest := Rest();
      assert rest[1..] == s[pos + 1..];
      var close := Close(s[pos + 1..], 1);
      if close.None? {
        return Fails;
      }
      r := c.call(name, s[pos + 1..][..close.value]);
      assert rest[close.value + 2..] == s[pos + close.value + 2..];
      pos := pos + close.value + 2;
    }

    method Atom() returns (r: Number)
      requires Valid()
      modifies this
      ensures Valid() && pos >= old(pos) && (r.Got? ==> pos > old(pos)) && Did(ParseAtom(old(Rest()), c), r)
    {
      hide ParseCall, SkipSpace, ToNumber;
      ghost var text := Rest();
      var start := pos;
      while pos < |s| && AtomByte(s[pos])
        invariant start <= pos <= |s|
        invariant AtomRun(text) == (pos - start) + AtomRun(Rest())
      {
        assert Rest()[1..] == s[pos + 1..];
        pos := pos + 1;
      }
      assert text[..pos - start] == s[start..pos] && text[pos - start..] == Rest();
      var name := s[start..pos];
      if name == "" {
        return Fails;
      }
      Skip();
      if pos < |s| && s[pos] == '(' {
        r := FunctionTerm(name);
        return;
      }
      var raw := c.path(name);
      r := if raw.None? || ToNumber(raw.value).None? then Fails else Got(ToNumber(raw.value).value);
    }
  }

  method EvalComputed(text: string, c: Reader) returns (r: Number)
    ensures r == EvalExpr(text, c)
  {
    var p := new Evaluator(Collapse(TrimSpace(text)), c);
    assert p.Rest() == p.s;
    r := p.Expr();
    p.Skip();
    if r.Got? && p.pos != |p.s| {
      assert p.Rest() != "";
      r := Fails;
    }
  }
}
