/** A term inside quotes: the pattern finds it although the clause compares nothing with the actor. */
module QuotedTerms {
  import opened Values
  import opened Conditions
  import opened Spelling
  import opened ConditionMeaning
  import opened Scope

  /** A term in parentheses, the shortest text that holds one in quotes. */
  function QuotedTerm(t: Term): string {
    ['('] + (MeClause(t.field, t.attr) + [')'])
  }

  /** field = "(other = $me)" */
  function QuotedNode(field: string, t: Term): Node {
    Cmp(Path(field), "=", Lit(QuotedTerm(t)))
  }

  function QuotedClause(field: string, t: Term): string {
    field + ([' '] + ("=" + ([' '] + (['"'] + QuotedTerm(t) + ['"']))))
  }

  /** A clause text, character by character: what stands behind its blanks, and where the quoted term begins. */
  lemma ClauseShape(field: string, t: Term)
    requires Named(field, None) && Named(t.field, t.attr)
    ensures var s, u, n := QuotedClause(field, t), MeClause(t.field, t.attr), |field|;
      && 0 < n && |s| == n + 7 + |u| && s[..n] == field && s[n + 5..] == u + [')', '"']
      && s[n] == ' ' && s[n + 1] == '=' && s[n + 2] == ' ' && s[n + 3] == '"' && s[n + 4] == '('
      && (forall i :: 0 <= i < n ==> s[i] == field[i] && IsLetterOrDigit(s[i]))
      && (forall i :: 0 <= i < |s| && s[i] == ' ' ==> i + 1 < |s| && s[i + 1] != 'o')
  {
    var s, u, n := QuotedClause(field, t), MeClause(t.field, t.attr), |field|;
    BlanksOfClause(t.field, t.attr);
    SignsOfClause(t.field, t.attr);
    Assembled(field, u);
    hide MeClause, QuotedClause;
    assert QuotedClause(field, t) == Around(field, u) by { QuotedParts(field, t); }
    NameRunsOn(field);
    forall i | 0 <= i < |s| && s[i] == ' ' ensures i + 1 < |s| && s[i + 1] != 'o' {
      assert i < n ==> IsLetterOrDigit(field[i]);
      if i >= n + 5 {
        assert s[i] == s[n + 5..][i - n - 5] && s[n + 5..][i - n - 4] == s[i + 1];
      }
    }
  }

  /** A text in parentheses and quotes, compared with a field. */
  function Around(field: string, u: string): string {
    field + ([' '] + ("=" + ([' '] + (['"'] + (['('] + (u + [')'])) + ['"']))))
  }

  lemma Assembled(field: string, u: string)
    ensures var s, n := Around(field, u), |field|;
      && |s| == n + 7 + |u| && s[..n] == field && s[n + 5..] == u + [')', '"']
      && s[n] == ' ' && s[n + 1] == '=' && s[n + 2] == ' ' && s[n + 3] == '"' && s[n + 4] == '('
      && forall i :: 0 <= i < n ==> s[i] == field[i]
  {
    var inner := ['('] + (u + [')']);
    var quoted := ['"'] + inner + ['"'];
    assert quoted[2..] == u + [')', '"'];
    assert Around(field, u) == (field + [' ', '=', ' ']) + quoted;
  }

  lemma NameRunsOn(field: string)
    requires Letters(field)
    ensures field != "" && forall i :: 0 <= i < |field| ==> IsLetterOrDigit(field[i])
  {
    assert forall i :: 0 <= i < |field| ==> field[i] in field;
  }

  lemma SignsOfClause(field: string, attr: Option<string>)
    ensures var u, n := MeClause(field, attr), |field|; |u| > n + 3 && u[n + 1] == '=' && u[n + 3] == '$'
  {
    assert MeText(attr)[0] == '$';
  }

  // ---- the term the pattern finds ----------------------------------------------------------

  lemma MeThen(field: string, attr: Option<string>, rest: string)
    requires (attr.Some? ==> Letters(attr.value)) && rest != "" && rest[0] == ')'
    ensures MeAt(field, MeText(attr) + rest) == Some(Found(Term(field, attr), |MeText(attr)| + 1))
  {
    var me := MeText(attr);
    var s := me + rest;
    var tail := s[3..];
    assert s[0] == me[0] && s[1] == me[1] && s[2] == me[2] && StartsWithMe(s);
    if attr.Some? {
      var name := attr.value;
      assert tail[0] == '.' && tail[1..] == name + rest;
      assert forall i :: 0 <= i < |name| ==> name[i] in name && (name + rest)[i] == name[i];
      LettersStop(name + rest, |name|);
      hide NameRun, IsLetterOrDigit;
      assert tail[1..1 + |name|] == name && tail[1 + |name|..] == rest;
    } else {
      assert tail == rest;
    }
  }

  lemma TermThen(field: string, attr: Option<string>, rest: string)
    requires Letters(field) && (attr.Some? ==> Letters(attr.value)) && rest != "" && rest[0] == ')'
    ensures TermAt(MeClause(field, attr) + rest) == Some(Found(Term(field, attr), |MeClause(field, attr)| + 1))
  {
    hide *;
    var me, s, n := MeText(attr), MeClause(field, attr) + rest, |field|;
    MeThen(field, attr, rest);
    NameRunsOn(field);
    MeStarts(field, attr);
    Extended(field, me, rest);
    LettersStop(s, n);
    OneBlank("=" + ([' '] + (me + rest)));
    OneBlank(me + rest);
    TermTaken(s, field, n, me + rest, Found(Term(field, attr), |me| + 1));
  }

  lemma MeStarts(field: string, attr: Option<string>)
    ensures MeText(attr) != "" && MeText(attr)[0] == '$' && !IsGap('$') && !IsGap('=') && !IsLetterOrDigit(' ')
    ensures MeClause(field, attr) == field + ([' '] + ("=" + ([' '] + MeText(attr))))
  {
  }

  lemma Extended(field: string, me: string, rest: string)
    requires me != ""
    ensures var s, n := (field + ([' '] + ("=" + ([' '] + me)))) + rest, |field|;
      && |s| == n + 3 + |me| + |rest| && s[..n] == field && s[n] == ' ' && s[n + 1] == '='
      && s[n..] == [' '] + ("=" + ([' '] + (me + rest))) && s[n + 2..] == [' '] + (me + rest)
      && s[n + 3..] == me + rest && (me + rest)[0] == me[0] && forall i :: 0 <= i < n ==> s[i] == field[i]
  {
    var s := (field + ([' '] + ("=" + ([' '] + me)))) + rest;
    assert s == field + ([' '] + ("=" + ([' '] + (me + rest))));
  }

  lemma TermTaken(s: string, field: string, n: nat, tail: string, me: Found)
    requires 0 < n == NameRun(s) < |s| - 3 && s[..n] == field && GapRun(s[n..]) == 1 && s[n + 1] == '='
    requires GapRun(s[n + 2..]) == 1 && s[n + 3..] == tail && MeAt(field, tail) == Some(me)
    ensures TermAt(s) == Some(Found(me.term, n + 3 + me.size))
  {
    hide MeAt, NameRun, GapRun;
  }

  /** Where no opening character has a term behind it, the pattern finds nothing and goes on. */
  lemma {:induction false} TermsPass(s: string, k: nat)
    requires k < |s| && forall i :: 0 <= i < k && Opens(s[i]) ==> TermAt(s[i + 1..]).None?
    ensures Terms(s, false) == Terms(s[k..], false)
  {
    hide TermAt, Opens;
    if k == 0 {
      assert s[0..] == s;
    } else {
      assert forall i :: 0 <= i < k - 1 ==> s[1..][i] == s[i + 1] && s[1..][i + 1..] == s[i + 2..];
      TermsPass(s[1..], k - 1);
      assert s[1..][k - 1..] == s[k..];
    }
  }

  lemma NoNameNoTerm(s: string)
    requires s != "" && !IsLetterOrDigit(s[0])
    ensures TermAt(s).None?
  {
  }

  /** The clause does not begin with a term: its field is compared with a text. */
  lemma NoTermAtStart(s: string, n: nat)
    requires 0 < n < |s| - 5 && forall i :: 0 <= i < n ==> IsLetterOrDigit(s[i])
    requires s[n] == ' ' && s[n + 1] == '=' && s[n + 2] == ' ' && s[n + 3] == '"'
    ensures TermAt(s).None?
  {
    LettersStop(s, n);
    assert s[n..] == [' '] + s[n + 1..] && s[n + 2..] == [' '] + s[n + 3..];
    OneBlank(s[n + 1..]);
    OneBlank(s[n + 3..]);
    assert MeAt(s[..n], s[n + 3..]).None?;
    hide MeAt, NameRun, GapRun;
  }

  lemma QuotedTermFound(field: string, t: Term)
    requires Named(field, None) && Named(t.field, t.attr)
    ensures Terms(QuotedClause(field, t), true) == [t]
  {
    var s, u, n := QuotedClause(field, t), MeClause(t.field, t.attr), |field|;
    hide *;
    ClauseShape(field, t);
    NamedIs(t.field, t.attr);
    NoTermAtStart(s, n);
    assert !IsLetterOrDigit('=') && !IsLetterOrDigit('"') by { MarksAreNoNames(); }
    NoNameNoTerm(s[n + 1..]);
    NoNameNoTerm(s[n + 3..]);
    TermThen(t.field, t.attr, [')', '"']);
    OpensWhere(s, n);
    TermsPass(s, n + 4);
    FirstTerm(s);
    assert s[n + 4..][0] == '(' && s[n + 4..][1..] == s[n + 5..];
    TermBehind(s[n + 4..], u, t);
  }

  lemma MarksAreNoNames()
    ensures !IsLetterOrDigit('=') && !IsLetterOrDigit('"')
  {
  }

  lemma OpensWhere(s: string, n: nat)
    requires n + 5 < |s| && forall i :: 0 <= i < n ==> IsLetterOrDigit(s[i])
    requires s[n + 1] == '=' && s[n + 3] == '"'
    ensures forall i :: 0 <= i < n + 4 && Opens(s[i]) ==> i == n || i == n + 2
  {
  }

  /** A clause that does not begin with a term is searched from anywhere alike. */
  lemma FirstTerm(s: string)
    requires TermAt(s).None?
    ensures Terms(s, true) == Terms(s, false)
  {
    hide TermAt;
  }

  lemma TermBehind(s: string, u: string, t: Term)
    requires s != "" && s[0] == '(' && s[1..] == u + [')', '"'] && TermAt(s[1..]) == Some(Found(t, |u| + 1))
    ensures Terms(s, false) == [t]
  {
    hide TermAt;
    assert s[1 + (|u| + 1)..] == ['"'];
    assert ['"'][1..] == "" && Terms("", false) == [] && !Opens('"');
    assert Terms(['"'], false) == [];
    assert [t] + [] == [t];
  }

  // ---- the clause as a condition ------------------------------------------------------------

  lemma QuotedTermIsTight(t: Term)
    requires Named(t.field, t.attr)
    ensures var text := QuotedTerm(t);
      && NoGapsAtDots(text) && '"' !in text && text != "" && text[0] == '('
      && OperandTok(Lit(text)) == StrTok(text)
  {
    var u := MeClause(t.field, t.attr);
    NoQuoteInClause(t.field, t.attr);
    hide *;
    MeClauseIs(t.field, t.attr);
    CollapsesToItselfIff(u);
    assert QuotedTerm(t) == ['('] + (u + [')']) by { QuotedTermOf(t); }
    InParentheses(u, QuotedTerm(t));
  }

  lemma QuotedTermOf(t: Term)
    ensures QuotedTerm(t) == ['('] + (MeClause(t.field, t.attr) + [')'])
  {
    hide MeClause;
  }

  lemma InParentheses(u: string, text: string)
    requires NoGapsAtDots(u) && '"' !in u && text == ['('] + (u + [')'])
    ensures NoGapsAtDots(text) && '"' !in text && text != "" && text[0] == '(' && OperandTok(Lit(text)) == StrTok(text)
  {
    assert text[|text| - 1] == ')' && |text| == |u| + 2 && forall i :: 0 <= i < |u| ==> text[i + 1] == u[i];
    forall i | 0 <= i < |text| && text[i] == '.'
      ensures (i > 0 ==> !IsGap(text[i - 1])) && (i < |text| - 1 ==> !IsGap(text[i + 1]))
    {
      assert 0 < i <= |u| && u[i - 1] == '.';
      assert i > 1 ==> text[i - 1] == u[i - 2];
      assert i < |u| ==> text[i + 1] == u[i];
    }
  }

  lemma NoQuoteInClause(field: string, attr: Option<string>)
    requires Named(field, attr)
    ensures '"' !in MeClause(field, attr)
  {
    MeIsPlain(attr);
    hide MeText;
    var u, n, me := MeClause(field, attr), |field|, MeText(attr);
    forall i | 0 <= i < |u| ensures u[i] != '"' {
      assert i < n ==> u[i] == field[i] && field[i] in field;
      assert i >= n + 3 ==> u[i] == me[i - n - 3] && me[i - n - 3] in me;
    }
  }

  /** The clause is a printed condition that collapsing leaves alone; it shows no disjunction, and the pattern
      finds the quoted term. */
  lemma QuotedClauseIs(field: string, t: Term)
    requires Named(field, None) && Named(t.field, t.attr)
    ensures var n, s := QuotedNode(field, t), QuotedClause(field, t);
      && NodeOk(n) && Spared(n) && Print(n) == s && s != "" && ScopeTerms(s) == [t] && !HasPart(Collapse(s), " or ")
  {
    var n, s, text := QuotedNode(field, t), QuotedClause(field, t), QuotedTerm(t);
    QuotedTermIsTight(t);
    QuotedPrints(field, text);
    ClauseShape(field, t);
    QuotedTermFound(field, t);
    hide *;
    QuotedParts(field, t);
    CollapsesToItselfIff(text);
    StaysCollapsed(field, text);
    TermsOfCollapsed(s);
    NoOrBehindBlanks(s);
  }

  lemma QuotedParts(field: string, t: Term)
    ensures QuotedNode(field, t) == Cmp(Path(field), "=", Lit(QuotedTerm(t)))
    ensures QuotedClause(field, t) == field + ([' '] + ("=" + ([' '] + (['"'] + QuotedTerm(t) + ['"']))))
    ensures QuotedClause(field, t) == Around(field, MeClause(t.field, t.attr))
  {
    hide MeClause;
  }

  lemma QuotedPrints(field: string, text: string)
    requires Named(field, None) && '"' !in text && OperandTok(Lit(text)) == StrTok(text)
    ensures var n := Cmp(Path(field), "=", Lit(text));
      && NodeOk(n) && Toks(n, OrLevel) == [Word(field), Punct("="), StrTok(text)]
      && Print(n) == field + ([' '] + ("=" + ([' '] + (['"'] + text + ['"']))))
      && (NoGapsAtDots(text) ==> Spared(n))
  {
    FieldIsPlain(field);
    hide NoGapsAtDots, PlainWord, TightDots, WordLiteral, Letters;
    TextOfMore(Punct("="), [StrTok(text)]);
    TextOfMore(Word(field), [Punct("="), StrTok(text)]);
    assert [Punct("=")] + [StrTok(text)] == [Punct("="), StrTok(text)];
    assert [Word(field)] + [Punct("="), StrTok(text)] == [Word(field), Punct("="), StrTok(text)];
  }

  lemma StaysCollapsed(field: string, text: string)
    requires Collapse(text) == text
    requires var n := Cmp(Path(field), "=", Lit(text));
      NodeOk(n) && Toks(n, OrLevel) == [Word(field), Punct("="), StrTok(text)]
    ensures var n := Cmp(Path(field), "=", Lit(text)); Collapse(Print(n)) == Print(n)
  {
    hide Collapse, NodeOk, Toks;
    var ts := [Word(field), Punct("="), StrTok(text)];
    ToksSpellable(Cmp(Path(field), "=", Lit(text)), OrLevel);
    CollapseText(ts);
    assert CollapseToks(ts[2..]) == ts[2..] && CollapseToks(ts[1..]) == ts[1..];
  }

  lemma NoOrBehindBlanks(s: string)
    requires forall i :: 0 <= i < |s| && s[i] == ' ' ==> i + 1 < |s| && s[i + 1] != 'o'
    ensures !HasPart(s, " or ")
  {
    forall i | 0 <= i <= |s| - 4 ensures s[i..][..4] != " or " {
      assert s[i..][..4][0] == s[i] && s[i..][..4][1] == s[i + 1];
    }
  }

  /** The clause holds for the records whose field is the quoted text. */
  lemma QuotedClauseMeans(field: string, t: Term, c: Ctx)
    requires Named(field, None) && Named(t.field, t.attr) && c.number(QuotedTerm(t)).None?
    ensures EvalWhere(QuotedClause(field, t), c) == Known(Get(c.values, field) == Str(QuotedTerm(t)))
  {
    hide *;
    QuotedClauseIs(field, t);
    QuotedTermIsTight(t);
    PrintKeepsMeaning(QuotedNode(field, t), c);
    QuotedParts(field, t);
    NamedIs(field, None);
    TextComparison(field, QuotedTerm(t), c);
  }

  lemma TextComparison(field: string, text: string, c: Ctx)
    requires Letters(field) && text != "" && text[0] == '(' && '"' !in text && c.number(text).None?
    ensures Eval(Cmp(Path(field), "=", Lit(text)), c) == Known(Get(c.values, field) == Str(text))
  {
    FieldIsPlain(field);
    FieldIsNotText(field, text);
    hide PlainWord, TightDots, Letters;
    assert LitValue(text, c) == Str(text);
    hide LitValue;
    assert Resolve(Path(field), c) == Some(if field in c.values then c.values[field] else Str(field));
  }

  lemma FieldIsNotText(field: string, text: string)
    requires Letters(field) && text != "" && text[0] == '('
    ensures field != text
  {
    assert field[0] in field;
  }
}
