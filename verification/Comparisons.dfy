/** What printed conditions decide, operator by operator: numbers in order, presence, equality, membership. */
module Comparisons {
  import opened Values
  import opened Conditions
  import opened Spelling
  import opened ConditionMeaning

  /** A field a condition can name: a word without dots that is no keyword and no literal. */
  predicate PlainField(field: string) {
    OperandOk(Path(field)) && '.' !in field
  }

  /** What a bare word reads as: the field's value, or the word itself where there is no such field. */
  function Held(field: string, c: Ctx): Value {
    if field in c.values then c.values[field] else Str(field)
  }

  /** A number, or a money object by its amount. */
  predicate Counts(x: Value, a: real) {
    x == Num(a) || (x.Obj? && "amount" in x.fields && x.fields["amount"] == Num(a))
  }

  /** Neither a number nor an object with an amount. */
  predicate Countless(x: Value) {
    !x.Num? && (x.Obj? ==> "amount" !in x.fields)
  }

  // ---- the text of a comparison ----------------------------------------------------------

  function ComparisonText(field: string, op: string, right: Operand): string {
    field + " " + op + " " + Spell(OperandTok(right))
  }

  lemma ThreeToks(a: Tok, b: Tok, d: Tok)
    ensures Text([a] + [b] + [d]) == Spell(a) + " " + Spell(b) + " " + Spell(d)
  {
    hide Spell;
    assert [a] + [b] + [d] == [a, b, d] && [a, b, d][1..] == [b, d] && [b, d][1..] == [d];
    assert Text([d]) == Spell(d) && Text([b, d]) == Spell(b) + [' '] + Text([d]);
    assert [' '] == " ";
  }

  /** Evaluating the text of a comparison compares what the field holds. */
  lemma ComparisonIs(field: string, op: string, right: Operand, c: Ctx)
    requires PlainField(field) && IsCmpOp(op) && OperandOk(right) && OperandSpared(right)
    ensures EvalWhere(ComparisonText(field, op, right), c) == EvalCmp(Path(field), op, right, c)
    ensures Resolve(Path(field), c) == Some(Held(field, c)) && !IsNullLit(Path(field))
  {
    var n := Cmp(Path(field), op, right);
    ThreeToks(Word(field), Punct(op), OperandTok(right));
    assert Toks(n, OrLevel) == [Word(field)] + [Punct(op)] + [OperandTok(right)];
    assert Spared(n) by { hide NoGapsAtDots, OperandOk; }
    assert EvalCmp(Path(field), op, right, c) != Unknown by { hide LitValue, Present; }
    hide EvalWhere, OperandTok, OperandSpared, Text, Toks, EvalCmp, PlainWord, TightDots, WordLiteral;
    PrintKeepsMeaning(n, c);
  }

  // ---- numbers ---------------------------------------------------------------------------

  /** A numeral in the source's spelling, with dots inside only. */
  predicate Numeral(text: string) {
    PlainNumber(text) && TightDots(text)
  }

  lemma NumeralReads(text: string, c: Ctx)
    requires Numeral(text) && c.number(text).Some?
    ensures OperandOk(Lit(text)) && OperandSpared(Lit(text)) && Spell(OperandTok(Lit(text))) == text
    ensures Resolve(Lit(text), c) == Some(Num(c.number(text).value)) && !IsNullLit(Lit(text))
  {
    forall i | 0 <= i < |text| ensures text[i] != '"' {
      assert i >= 1 ==> DigitOrDot(text[i]);
    }
  }

  lemma NumbersDecide(field: string, text: string, c: Ctx, a: real, b: real)
    requires !IsNullLit(Lit(text)) && Resolve(Path(field), c) == Some(Held(field, c))
    requires Resolve(Lit(text), c) == Some(Num(b)) && Counts(Held(field, c), a)
    ensures EvalCmp(Path(field), ">", Lit(text), c) == Known(a > b)
    ensures EvalCmp(Path(field), "<", Lit(text), c) == Known(a < b)
    ensures EvalCmp(Path(field), ">=", Lit(text), c) == Known(a >= b)
    ensures EvalCmp(Path(field), "<=", Lit(text), c) == Known(a <= b)
    ensures EvalCmp(Path(field), "=", Lit(text), c) == Known(a == b)
    ensures EvalCmp(Path(field), "!=", Lit(text), c) == Known(a != b)
  {
    hide Resolve;
    assert ToNumber(Held(field, c)) == Some(a);
  }

  /** A field that holds a number, compared with a numeral: each operator is its relation on the two numbers. */
  lemma NumbersCompare(field: string, text: string, c: Ctx, a: real, b: real)
    requires PlainField(field) && field in c.values && Counts(c.values[field], a)
    requires Numeral(text) && c.number(text) == Some(b)
    ensures EvalWhere(field + " > " + text, c) == Known(a > b)
    ensures EvalWhere(field + " < " + text, c) == Known(a < b)
    ensures EvalWhere(field + " >= " + text, c) == Known(a >= b)
    ensures EvalWhere(field + " <= " + text, c) == Known(a <= b)
    ensures EvalWhere(field + " = " + text, c) == Known(a == b)
    ensures EvalWhere(field + " != " + text, c) == Known(a != b)
  {
    NumeralReads(text, c);
    hide EvalWhere, EvalCmp, Resolve, OperandOk, OperandSpared, PlainField, Numeral, OperandTok, Spell, Counts;
    ComparisonIs(field, ">", Lit(text), c);
    NumbersDecide(field, text, c, a, b);
    Operators(field, Lit(text), c);
    OperatorTexts(field, text);
  }

  /** The text with each operator decides the comparison by it. */
  lemma Operators(field: string, right: Operand, c: Ctx)
    requires PlainField(field) && OperandOk(right) && OperandSpared(right)
    ensures forall op | op in {"=", "!=", ">", "<", ">=", "<="} ::
      EvalWhere(ComparisonText(field, op, right), c) == EvalCmp(Path(field), op, right, c)
  {
    hide EvalWhere, EvalCmp, PlainField, OperandOk, OperandSpared, ComparisonText;
    forall op | op in {"=", "!=", ">", "<", ">=", "<="}
      ensures EvalWhere(ComparisonText(field, op, right), c) == EvalCmp(Path(field), op, right, c)
    {
      ComparisonIs(field, op, right, c);
    }
  }

  lemma OperatorTexts(field: string, text: string)
    ensures field + " " + ">" + " " + text == field + " > " + text
    ensures field + " " + "<" + " " + text == field + " < " + text
    ensures field + " " + ">=" + " " + text == field + " >= " + text
    ensures field + " " + "<=" + " " + text == field + " <= " + text
    ensures field + " " + "=" + " " + text == field + " = " + text
    ensures field + " " + "!=" + " " + text == field + " != " + text
  {
  }

  /** A field without a number is neither above nor below any numeral, and differs from it. */
  lemma NoNumberNoOrder(field: string, text: string, c: Ctx)
    requires PlainField(field) && Countless(Held(field, c)) && Numeral(text) && c.number(text).Some?
    ensures EvalWhere(field + " > " + text, c) == Known(false) && EvalWhere(field + " < " + text, c) == Known(false)
    ensures EvalWhere(field + " >= " + text, c) == Known(false) && EvalWhere(field + " <= " + text, c) == Known(false)
    ensures EvalWhere(field + " = " + text, c) == Known(false) && EvalWhere(field + " != " + text, c) == Known(true)
  {
    NumeralReads(text, c);
    hide EvalWhere, EvalCmp, Resolve, OperandOk, OperandSpared, PlainField, Numeral, OperandTok, Spell, Countless;
    ComparisonIs(field, ">", Lit(text), c);
    Operators(field, Lit(text), c);
    OperatorTexts(field, text);
    CountlessDecides(field, text, c);
  }

  lemma CountlessDecides(field: string, text: string, c: Ctx)
    requires !IsNullLit(Lit(text)) && Resolve(Path(field), c) == Some(Held(field, c)) && Countless(Held(field, c))
    requires Resolve(Lit(text), c).Some? && Resolve(Lit(text), c).value.Num?
    ensures EvalCmp(Path(field), ">", Lit(text), c) == EvalCmp(Path(field), "<", Lit(text), c) == Known(false)
    ensures EvalCmp(Path(field), ">=", Lit(text), c) == EvalCmp(Path(field), "<=", Lit(text), c) == Known(false)
    ensures EvalCmp(Path(field), "=", Lit(text), c) == Known(false)
    ensures EvalCmp(Path(field), "!=", Lit(text), c) == Known(true)
  {
    hide Resolve;
    assert ToNumber(Held(field, c)).None?;
  }

  // ---- presence ------------------------------------------------------------------------------

  /** Comparing with null asks whether the field has a value. */
  lemma NullAsksForPresence(field: string, c: Ctx)
    requires PlainField(field)
    ensures EvalWhere(field + " = null", c) == Known(field !in c.values || c.values[field] == Null)
    ensures EvalWhere(field + " != null", c) == Known(field in c.values && c.values[field] != Null)
  {
    var text := "null";
    assert OperandTok(Lit(text)) == Word(text) && OperandOk(Lit(text)) && OperandSpared(Lit(text));
    assert field + " " + "=" + " " + text == field + " = null" && field + " " + "!=" + " " + text == field + " != null";
    assert EvalCmp(Path(field), "=", Lit(text), c) == Known(field !in c.values || c.values[field] == Null);
    assert EvalCmp(Path(field), "!=", Lit(text), c) == Known(field in c.values && c.values[field] != Null);
    hide EvalWhere, EvalCmp, OperandOk, OperandSpared, PlainField, OperandTok;
    Operators(field, Lit(text), c);
  }

  // ---- equality ---------------------------------------------------------------------------------

  /** What an operand of a comparison stands for, spelled: the actor, its attributes, the record, the clock, the
      two truth values, a word that names no field, a quoted text. */
  ghost predicate StandsFor(o: Operand, c: Ctx, v: Value) {
    || (o == Lit("$me") && v == Str(c.actorId))
    || (o == Lit("$self") && v == Str(c.selfId))
    || (o == Lit("$now") && v == Str(c.now))
    || (o == Lit("true") && v == Bool(true))
    || (o == Lit("false") && v == Bool(false))
    || (exists name :: Attribute(o, name) && v == if name in c.attrs then c.attrs[name] else Null)
    || (o.Path? && PlainField(o.text) && o.text !in c.values && v == Str(o.text))
    || (o.Lit? && PlainText(o.text) && c.number(o.text).None? && v == Str(o.text))
    || (o.Lit? && Numeral(o.text) && c.number(o.text).Some? && v == Num(c.number(o.text).value))
  }

  predicate Attribute(o: Operand, name: string) {
    o == Lit("$me." + name) && name != "" && forall ch <- name :: IsWordByte(ch) && ch != '$'
  }

  /** A text that only quotes can hold, with no blank next to a dot. */
  predicate PlainText(text: string) {
    && '"' !in text && NoGapsAtDots(text) && (text == "" || text[0] != '$')
    && text != "true" && text != "false" && text != "null" && !PlainNumber(text)
  }

  /** The value a comparison sees on both sides: numbers by what they count, anything else as it is. */
  ghost predicate SameValue(x: Value, v: Value) {
    if v.Num? then Counts(x, v.n) else x == v
  }

  lemma StandsForReads(o: Operand, c: Ctx, v: Value)
    requires StandsFor(o, c, v)
    ensures OperandOk(o) && OperandSpared(o) && Resolve(o, c) == Some(v) && !IsNullLit(o)
  {
    if name :| Attribute(o, name) && v == if name in c.attrs then c.attrs[name] else Null {
      hide *;
      AttributeReads(o, name, c);
    } else if o.Lit? && Numeral(o.text) && c.number(o.text).Some? && v == Num(c.number(o.text).value) {
      hide *;
      NumeralReads(o.text, c);
    } else if o.Lit? && PlainText(o.text) && c.number(o.text).None? && v == Str(o.text) {
      hide *;
      TextReads(o.text, c);
    } else if o.Path? && v == Str(o.text) && o.text !in c.values {
      hide NoGapsAtDots, PlainWord, TightDots, WordLiteral, PlainText, Numeral, LitValue;
    } else {
      hide PlainField, NoGapsAtDots, PlainText, Numeral, Attribute;
      WordReads(o, c, v);
    }
  }

  lemma TextReads(text: string, c: Ctx)
    requires PlainText(text) && c.number(text).None?
    ensures OperandOk(Lit(text)) && OperandSpared(Lit(text)) && !IsNullLit(Lit(text))
    ensures Resolve(Lit(text), c) == Some(Str(text))
  {
    assert text != "" ==> text[0] in text;
    hide NoGapsAtDots, PlainNumber;
  }

  /** The literals that are words. */
  lemma WordReads(o: Operand, c: Ctx, v: Value)
    requires (o == Lit("$me") && v == Str(c.actorId)) || (o == Lit("$self") && v == Str(c.selfId))
      || (o == Lit("$now") && v == Str(c.now)) || (o == Lit("true") && v == Bool(true))
      || (o == Lit("false") && v == Bool(false))
    ensures OperandOk(o) && OperandSpared(o) && Resolve(o, c) == Some(v) && !IsNullLit(o)
  {
  }

  lemma AttributeReads(o: Operand, name: string, c: Ctx)
    requires Attribute(o, name)
    ensures OperandOk(o) && OperandSpared(o) && !IsNullLit(o)
    ensures Resolve(o, c) == Some(if name in c.attrs then c.attrs[name] else Null)
  {
    var text := o.text;
    assert text[0] == '$' && text[1] == 'm' && text[2] == 'e' && text[3] == '.' && text[4..] == name;
    forall i | 0 <= i < |text| ensures text[i] != '"' {
      assert i >= 4 ==> text[i] == name[i - 4] && name[i - 4] in name;
    }
    assert name[0] in name && text[4] == name[0];
    forall i | 4 <= i < |text| ensures text[i] != '.' {
      assert text[i] == name[i - 4] && name[i - 4] in name;
    }
  }

  /** Equality of a field with anything that stands for a value other than a list or an object. */
  lemma EqualityDecides(field: string, o: Operand, c: Ctx, v: Value)
    requires PlainField(field) && StandsFor(o, c, v) && !v.List? && !v.Obj?
    requires v.Num? ==> Countless(Held(field, c)) || exists a :: Counts(Held(field, c), a)
    ensures EvalWhere(ComparisonText(field, "=", o), c) == Known(SameValue(Held(field, c), v))
    ensures EvalWhere(ComparisonText(field, "!=", o), c) == Known(!SameValue(Held(field, c), v))
  {
    StandsForReads(o, c, v);
    hide EvalWhere, OperandOk, OperandSpared, PlainField, OperandTok, StandsFor, Resolve, ComparisonText;
    ComparisonIs(field, "=", o, c);
    Operators(field, o, c);
    EqualValues(Held(field, c), v);
    hide Equal, SameValue;
  }

  lemma EqualValues(x: Value, v: Value)
    requires !v.List? && !v.Obj?
    requires v.Num? ==> Countless(x) || exists a :: Counts(x, a)
    ensures Equal(x, v) == Known(SameValue(x, v))
  {
    if v.Num? && !Countless(x) {
      var a :| Counts(x, a);
      assert ToNumber(x) == Some(a);
    }
  }

  /** Membership: some operand of the list stands for the field's value. */
  lemma MembershipDecides(field: string, list: seq<Operand>, vs: seq<Value>, c: Ctx)
    requires PlainField(field) && |vs| == |list|
    requires forall i :: 0 <= i < |list| ==> StandsFor(list[i], c, vs[i]) && !vs[i].List? && !vs[i].Obj?
    requires Countless(Held(field, c)) || exists a :: Counts(Held(field, c), a)
    ensures EvalWhere(Print(In(Path(field), list)), c) ==
      Known(exists i :: 0 <= i < |vs| && SameValue(Held(field, c), vs[i]))
  {
    var n := In(Path(field), list);
    forall i | 0 <= i < |list|
      ensures OperandOk(list[i]) && OperandSpared(list[i]) && Resolve(list[i], c) == Some(vs[i])
    {
      StandsForReads(list[i], c, vs[i]);
    }
    hide StandsFor, OperandSpared, EvalWhere, Print, SameValue, Counts, Countless;
    MembersDecide(Held(field, c), list, vs, c);
    assert Resolve(Path(field), c) == Some(Held(field, c));
    hide Resolve, AnyEqual, PlainWord, TightDots, WordLiteral;
    PrintKeepsMeaning(n, c);
  }

  lemma {:induction false} MembersDecide(x: Value, list: seq<Operand>, vs: seq<Value>, c: Ctx)
    requires |vs| == |list|
    requires forall i :: 0 <= i < |list| ==> Resolve(list[i], c) == Some(vs[i]) && !vs[i].List? && !vs[i].Obj?
    requires Countless(x) || exists a :: Counts(x, a)
    ensures AnyEqual(x, list, c) == Known(exists i :: 0 <= i < |vs| && SameValue(x, vs[i]))
    decreases |list|
  {
    hide Resolve, SameValue, Counts, Countless, Equal;
    if list != [] {
      EqualValues(x, vs[0]);
      MembersDecide(x, list[1..], vs[1..], c);
      if exists i :: 0 <= i < |vs[1..]| && SameValue(x, vs[1..][i]) {
        var i :| 0 <= i < |vs[1..]| && SameValue(x, vs[1..][i]);
        assert vs[i + 1] == vs[1..][i];
      } else {
        forall i | 1 <= i < |vs| ensures !SameValue(x, vs[i]) {
          assert vs[1..][i - 1] == vs[i];
        }
      }
    }
  }

  /** A field alone holds where its value is true. */
  lemma FlagDecides(field: string, c: Ctx)
    requires PlainField(field)
    ensures EvalWhere(field, c) == Known(field in c.values && c.values[field] == Bool(true))
  {
    var n := Truthy(Path(field));
    assert Print(n) == field;
    assert Resolve(Path(field), c) == Some(Held(field, c));
    hide EvalWhere, PlainWord, TightDots, WordLiteral;
    PrintKeepsMeaning(n, c);
  }

  /** Comparing two lists, or two objects without amounts, stops the program. */
  lemma CompoundsCrash(field: string, name: string, c: Ctx)
    requires PlainField(field) && field in c.values && name in c.attrs && Attribute(Lit("$me." + name), name)
    requires (c.values[field].List? && c.attrs[name].List?)
             || (c.values[field].Obj? && c.attrs[name].Obj? && "amount" !in c.values[field].fields)
    ensures EvalWhere(ComparisonText(field, "=", Lit("$me." + name)), c) == Crash
  {
    var o := Lit("$me." + name);
    AttributeReads(o, name, c);
    assert ToNumber(c.values[field]).None?;
    hide EvalWhere, OperandOk, OperandSpared, PlainField, OperandTok, Attribute, Resolve, ComparisonText;
    ComparisonIs(field, "=", o, c);
  }

  // ---- reference paths ---------------------------------------------------------------------------

  predicate DottedPath(path: string) {
    OperandOk(Path(path)) && '.' in path
  }

  lemma PathComparisonIs(path: string, op: string, right: Operand, c: Ctx)
    requires DottedPath(path) && IsCmpOp(op) && OperandOk(right) && OperandSpared(right)
    ensures EvalWhere(ComparisonText(path, op, right), c) == EvalCmp(Path(path), op, right, c)
    ensures Resolve(Path(path), c) == c.resolve(path) && !IsNullLit(Path(path))
  {
    var n := Cmp(Path(path), op, right);
    ThreeToks(Word(path), Punct(op), OperandTok(right));
    assert Toks(n, OrLevel) == [Word(path)] + [Punct(op)] + [OperandTok(right)];
    assert Spared(n) by { hide NoGapsAtDots, OperandOk; }
    assert EvalCmp(Path(path), op, right, c) != Unknown by { hide LitValue, Present; }
    hide EvalWhere, OperandTok, OperandSpared, Text, Toks, EvalCmp, PlainWord, TightDots, WordLiteral;
    PrintKeepsMeaning(n, c);
  }

  /** What a path leads to is compared like a field's value. */
  lemma PathsCompare(path: string, op: string, text: string, c: Ctx, x: Value, a: real, b: real)
    requires DottedPath(path) && c.resolve(path) == Some(x) && Counts(x, a)
    requires Numeral(text) && c.number(text) == Some(b) && IsCmpOp(op)
    ensures EvalWhere(path + " " + op + " " + text, c) ==
      Known(match op
            case ">" => a > b
            case "<" => a < b
            case ">=" => a >= b
            case "<=" => a <= b
            case "=" => a == b
            case _ => a != b)
  {
    NumeralReads(text, c);
    assert ToNumber(x) == Some(a);
    hide EvalWhere, OperandOk, OperandSpared, DottedPath, Numeral, OperandTok, Spell, Resolve, Counts;
    PathComparisonIs(path, op, Lit(text), c);
  }

  /** A path that leads nowhere makes every comparison fail, the unequal one included, and every membership. */
  lemma LostPathFails(path: string, op: string, right: Operand, list: seq<Operand>, c: Ctx)
    requires DottedPath(path) && c.resolve(path).None? && IsCmpOp(op)
    requires OperandOk(right) && OperandSpared(right) && !IsNullLit(right)
    requires forall o <- list :: OperandOk(o) && OperandSpared(o)
    ensures EvalWhere(ComparisonText(path, op, right), c) == Known(false)
    ensures EvalWhere(Print(In(Path(path), list)), c) == Known(false)
    ensures EvalWhere(path, c) == Known(false)
  {
    hide *;
    LostComparison(path, op, right, c);
    LostInList(path, list, c);
    LostFlag(path, c);
  }

  lemma LostComparison(path: string, op: string, right: Operand, c: Ctx)
    requires DottedPath(path) && c.resolve(path).None? && IsCmpOp(op)
    requires OperandOk(right) && OperandSpared(right) && !IsNullLit(right)
    ensures EvalWhere(ComparisonText(path, op, right), c) == Known(false)
  {
    hide EvalWhere, ComparisonText, DottedPath, OperandOk, OperandSpared, IsNullLit, Resolve;
    PathComparisonIs(path, op, right, c);
  }

  lemma LostInList(path: string, list: seq<Operand>, c: Ctx)
    requires DottedPath(path) && c.resolve(path).None?
    requires forall o <- list :: OperandOk(o) && OperandSpared(o)
    ensures EvalWhere(Print(In(Path(path), list)), c) == Known(false)
  {
    var n := In(Path(path), list);
    hide EvalWhere, Print, OperandSpared;
    assert Spared(n) by { PathSpared(path); }
    PrintKeepsMeaning(n, c);
  }

  lemma LostFlag(path: string, c: Ctx)
    requires DottedPath(path) && c.resolve(path).None?
    ensures EvalWhere(path, c) == Known(false)
  {
    var flag := Truthy(Path(path));
    assert Print(flag) == path;
    hide EvalWhere, Print, OperandSpared;
    assert Spared(flag) by { PathSpared(path); }
    PrintKeepsMeaning(flag, c);
  }

  lemma PathSpared(path: string)
    ensures OperandSpared(Path(path))
  {
  }

  /** Comparing a path with null asks whether it leads to a value; a path alone, whether it leads to true. */
  lemma PathPresence(path: string, c: Ctx)
    requires DottedPath(path)
    ensures EvalWhere(path + " = null", c) == Known(c.resolve(path) in {None, Some(Null)})
    ensures EvalWhere(path + " != null", c) == Known(c.resolve(path) !in {None, Some(Null)})
    ensures EvalWhere(path, c) == Known(c.resolve(path) == Some(Bool(true)))
  {
    var text, flag := "null", Truthy(Path(path));
    assert OperandTok(Lit(text)) == Word(text) && OperandOk(Lit(text)) && OperandSpared(Lit(text));
    assert path + " " + "=" + " " + text == path + " = null" && path + " " + "!=" + " " + text == path + " != null";
    assert Print(flag) == path;
    PathSpared(path);
    hide EvalWhere, OperandOk, OperandSpared, OperandTok, Print;
    PathComparisonIs(path, "=", Lit(text), c);
    PathComparisonIs(path, "!=", Lit(text), c);
    PrintKeepsMeaning(flag, c);
  }

  // ---- what can be written ---------------------------------------------------------------------

  /** Letters, digits and underscores, no digit first, and none of the seven words that mean something else. */
  lemma NamesAreFields(name: string)
    requires name != "" && !('0' <= name[0] <= '9')
    requires forall ch <- name :: 'a' <= ch <= 'z' || 'A' <= ch <= 'Z' || '0' <= ch <= '9' || ch == '_'
    requires name !in {"and", "or", "not", "in", "true", "false", "null"}
    ensures PlainField(name)
  {
    assert name[0] in name;
    assert forall i :: 0 <= i < |name| ==> name[i] in name;
  }

  predicate Digits(s: string) {
    s != "" && forall ch <- s :: '0' <= ch <= '9'
  }

  /** Digits, with or without a sign in front and a fraction behind. */
  lemma DigitsAreNumerals(a: string, b: string)
    requires Digits(a) && Digits(b)
    ensures Numeral(a) && Numeral("-" + a) && Numeral(a + "." + b) && Numeral("-" + a + "." + b)
  {
    assert forall i :: 0 <= i < |a| ==> a[i] in a;
    assert forall i :: 0 <= i < |b| ==> b[i] in b;
    var s, t, u := "-" + a, a + "." + b, "-" + a + "." + b;
    assert forall i :: 1 <= i < |s| ==> s[i] == a[i - 1];
    FractionChars(a, b);
    assert u == "-" + t && forall i :: 1 <= i < |u| ==> u[i] == t[i - 1];
  }

  lemma FractionChars(a: string, b: string)
    requires Digits(a) && Digits(b)
    ensures var t := a + "." + b;
      |t| > |a| + 1 && forall i :: 0 <= i < |t| ==> (if i == |a| then t[i] == '.' else '0' <= t[i] <= '9')
  {
    var t := a + "." + b;
    assert forall i :: 0 <= i < |a| ==> t[i] == a[i] && a[i] in a;
    assert forall i :: |a| < i < |t| ==> t[i] == b[i - |a| - 1] && b[i - |a| - 1] in b;
  }

  predicate Blank(s: string) {
    forall ch <- s :: ch in {' ', '\t', '\n', '\r'}
  }

  lemma {:induction false} BlankLeft(a: string, s: string)
    requires Blank(a)
    ensures TrimLeft(a + s) == TrimLeft(s)
  {
    if a == "" {
      assert a + s == s;
    } else {
      assert a[0] in a && (a + s)[1..] == a[1..] + s && forall ch <- a[1..] :: ch in a;
      BlankLeft(a[1..], s);
    }
  }

  lemma {:induction false} BlankRight(s: string, b: string)
    requires Blank(b)
    ensures TrimRight(s + b) == TrimRight(s)
    decreases |b|
  {
    if b == "" {
      assert s + b == s;
    } else {
      var n := |b| - 1;
      assert b[n] in b && (s + b)[..|s + b| - 1] == s + b[..n] && forall ch <- b[..n] :: ch in b;
      BlankRight(s, b[..n]);
    }
  }

  /** An empty condition holds, and so does one of blanks. */
  lemma NoConditionHolds(s: string, c: Ctx)
    requires Blank(s)
    ensures EvalWhere(s, c) == Known(true)
  {
    assert s + "" == s;
    BlankLeft(s, "");
  }

  /** Blanks around a condition that starts and ends firmly make no difference. */
  lemma BlanksAround(a: string, s: string, b: string, c: Ctx)
    requires Blank(a) && Blank(b) && s != "" && Firm(s[0])
    ensures EvalWhere(a + s + b, c) == EvalWhere(s, c)
  {
    hide EvalWhere;
    assert a + s + b == a + (s + b);
    BlankLeft(a, s + b);
    assert (s + b)[0] == s[0] && TrimLeft(s + b) == s + b && TrimLeft(s) == s;
    BlankRight(s, b);
    SameTrimmed(a + s + b, s, c);
  }

  lemma SameTrimmed(s: string, t: string, c: Ctx)
    requires TrimSpace(s) == TrimSpace(t)
    ensures EvalWhere(s, c) == EvalWhere(t, c)
  {
  }

  /** A sign the language does not know makes a condition fail, and so does a comparison without a right side. */
  lemma UnreadableFails(s: string, field: string, c: Ctx)
    requires s != "" && s[0] in {'?', ';', '&', '|', '+', '*', '/', '%', '^', '#'} && Firm(s[|s| - 1])
    requires PlainField(field)
    ensures EvalWhere(s, c) == Known(false)
    ensures EvalWhere(field + " >", c) == Known(false)
  {
    SignFails(s, c);
    HalfFails(field, c);
  }

  lemma SignFails(s: string, c: Ctx)
    requires s != "" && s[0] in {'?', ';', '&', '|', '+', '*', '/', '%', '^', '#'} && Firm(s[|s| - 1])
    ensures EvalWhere(s, c) == Known(false)
  {
    assert TrimSpace(s) == s;
    FirstStays(s);
    SignIsStray(Collapse(s));
    hide Collapse, GapRun, Lex;
  }

  lemma FirstStays(s: string)
    requires s != "" && Firm(s[0])
    ensures Collapse(s) != "" && Collapse(s)[0] == s[0]
  {
    assert GapRun(s) == 0;
    hide Collapse;
    CollapseStep(s);
  }

  lemma SignIsStray(s: string)
    requires s != "" && s[0] in {'?', ';', '&', '|', '+', '*', '/', '%', '^', '#'}
    ensures Lex(s).None?
  {
    assert LexOne(s).Stray?;
  }

  lemma HalfFails(field: string, c: Ctx)
    requires PlainField(field)
    ensures EvalWhere(field + " >", c) == Known(false)
  {
    var ts := [Word(field), Punct(">")];
    assert [Word(field)] + [Punct(">")] == ts && Text([Punct(">")]) == ">";
    TextOfMore(Word(field), [Punct(">")]);
    assert [' '] + ">" == " >" && Text(ts) == field + " >";
    assert AllSpellable(ts) by { hide PlainWord, TightDots; }
    LexText(ts);
    CollapseText(ts);
    assert CollapseToks(ts) == ts by { assert CollapseToks(ts[1..]) == ts[1..]; }
    TextEnds(ts);
    assert TrimSpace(Text(ts)) == Text(ts);
    assert ts[1..] == [Punct(">")] && ts[1..][1..] == [];
    HalfIsNoCondition(field, ts);
    hide Lex, Collapse, ParseOr;
  }

  lemma HalfIsNoCondition(field: string, ts: seq<Tok>)
    requires PlainField(field) && ts == [Word(field), Punct(">")]
    ensures ParseOr(ts).None?
  {
    assert ts[1..] == [Punct(">")] && ts[1..][1..] == [];
    assert ParseOperand([]).None?;
    hide PlainWord, TightDots, WordLiteral, ParseList;
    assert ParseComparison(ts).None?;
    hide ParseComparison;
    assert ParseUnary(ts).None?;
  }
}
