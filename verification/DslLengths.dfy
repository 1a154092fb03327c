/** How much text a parsed line accounts for: no declaration holds more than the tokens it was read from. */
module DslLengths {
  import opened Values
  import opened DslLexer
  import opened DslParser

  /** The text of tokens, each with a blank after it. */
  function Length(toks: seq<Tok>): nat {
    if toks == [] then 0 else |Part(toks[0])| + 1 + Length(toks[1..])
  }

  lemma {:induction false} LengthIs(toks: seq<Tok>)
    ensures |TextOf(toks)| == if toks == [] then 0 else Length(toks) - 1
  {
    hide Part;
    if |toks| > 1 {
      LengthIs(toks[1..]);
    }
  }

  lemma {:induction false} LengthJoins(a: seq<Tok>, b: seq<Tok>)
    ensures Length(a + b) == Length(a) + Length(b)
  {
    if a == [] {
      assert a + b == b;
    } else {
      assert (a + b)[1..] == a[1..] + b;
      LengthJoins(a[1..], b);
    }
  }

  lemma LengthAt(toks: seq<Tok>, n: nat)
    requires n <= |toks|
    ensures Length(toks) == Length(toks[..n]) + Length(toks[n..])
  {
    assert toks == toks[..n] + toks[n..];
    LengthJoins(toks[..n], toks[n..]);
  }

  lemma PartHolds(t: Tok)
    ensures |Part(t)| >= |t.text|
  {
  }

  lemma {:induction false} LengthCounts(toks: seq<Tok>)
    ensures Length(toks) >= |toks|
  {
    hide Part;
    if toks != [] {
      LengthCounts(toks[1..]);
    }
  }

  /** Two beginnings of one token list with the same text are the same, or both without text. */
  lemma BeginningsDiffer(toks: seq<Tok>, m: nat, n: nat)
    requires m < n <= |toks|
    ensures TextOf(toks[..m]) == TextOf(toks[..n]) ==> TextOf(toks[..n]) == ""
  {
    hide TextOf, Length;
    assert toks[..n][..m] == toks[..m];
    LengthAt(toks[..n], m);
    LengthCounts(toks[..n][m..]);
    LengthIs(toks[..m]);
    LengthIs(toks[..n]);
  }

  // ---- field lines -----------------------------------------------------------------------

  function Clause(key: string, text: string): nat {
    if text == "" then 0 else |key| + 4 + |text|
  }

  /** The text a declaration's modifiers take when written out. */
  function Weight(d: FieldDecl): nat {
    (if d.required then 9 else 0) + (if d.unique then 7 else 0) + Clause("default", d.default)
    + Clause("computed", d.computed) + Clause("format", d.format) + Clause("on_delete", d.onDelete)
    + Clause("label", d.caption)
  }

  lemma {:induction false} TrimShortens(s: string)
    ensures |TrimQuotes(s)| <= |s|
    decreases |s|
  {
    if s != "" {
      if s[0] == '"' {
        TrimShortens(s[1..]);
      } else if s[|s| - 1] == '"' {
        TrimShortens(s[..|s| - 1]);
      }
    }
  }

  lemma SetWeight(g: FieldDecl, key: string, val: string)
    requires Valued(key)
    ensures Weight(SetModifier(g, key, val)) <= Weight(SetModifier(g, key, "")) + |key| + 4 + |val|
    ensures val == "" ==> Weight(SetModifier(g, key, val)) <= Weight(SetModifier(g, key, ""))
    ensures Weight(SetModifier(g, key, "")) <= Weight(g)
  {
    TrimShortens(val);
    assert TrimQuotes("") == "";
  }

  /** What the clause at the front of a token list takes. */
  lemma ClauseLength(toks: seq<Tok>)
    requires |toks| >= 2 && toks[1].text == "="
    ensures var n := UntilKeyword(toks[2..], 0);
      var val := TextOf(toks[2..2 + n]);
      && Length(toks) >= |toks[0].text| + 3 + Length(toks[2..2 + n]) + Length(toks[2 + n..])
      && (val != "" ==> Length(toks) >= |toks[0].text| + 4 + |val| + Length(toks[2 + n..]))
  {
    hide UntilKeyword, TextOf, Part;
    var n := UntilKeyword(toks[2..], 0);
    assert toks[1..][1..] == toks[2..];
    assert toks[2..][..n] == toks[2..2 + n] && toks[2..][n..] == toks[2 + n..];
    LengthAt(toks[2..], n);
    LengthIs(toks[2..2 + n]);
    PartHolds(toks[0]);
    PartHolds(toks[1]);
  }

  /** Reading modifiers adds no more text than there is. */
  lemma {:induction false} ModifiersBound(toks: seq<Tok>, g: FieldDecl)
    ensures Weight(Modifiers(toks, g).decl) <= Weight(g) + Length(toks)
    decreases |toks|
  {
    hide UntilKeyword, TextOf, SetModifier, Part, Clause;
    if toks != [] {
      PartHolds(toks[0]);
      if toks[0].text == "required" {
        ModifiersBound(toks[1..], g.(required := true));
      } else if toks[0].text == "unique" {
        ModifiersBound(toks[1..], g.(unique := true));
      } else if Valued(toks[0].text) && At(toks, 1, "=") {
        var n := UntilKeyword(toks[2..], 0);
        var val := TextOf(toks[2..2 + n]);
        hide Weight, Valued;
        ClauseLength(toks);
        SetWeight(g, toks[0].text, val);
        ModifiersBound(toks[2 + n..], SetModifier(g, toks[0].text, val));
      }
    }
  }

  predicate TextKey(key: string) { key == "default" || key == "computed" }

  function TextAt(d: FieldDecl, key: string): string {
    if key == "default" then d.default else d.computed
  }

  lemma SetOther(g: FieldDecl, key: string, other: string, val: string)
    requires TextKey(key) && Valued(other) && other != key
    ensures TextAt(SetModifier(g, other, val), key) == TextAt(g, key)
    ensures SetModifier(SetModifier(g, other, val), key, "") == SetModifier(SetModifier(g, key, ""), other, val)
  {
  }

  lemma SetSame(g: FieldDecl, key: string, val: string)
    requires TextKey(key)
    ensures Valued(key) && TextAt(SetModifier(g, key, val), key) == val
    ensures SetModifier(SetModifier(g, key, val), key, "") == SetModifier(g, key, "")
  {
  }

  /** A text that changes while the rest is read leaves no trace of what it was before. */
  lemma {:induction false} ModifiersRewrite(toks: seq<Tok>, g: FieldDecl, key: string)
    requires TextKey(key) && TextAt(Modifiers(toks, g).decl, key) != TextAt(g, key)
    ensures Weight(Modifiers(toks, g).decl) <= Weight(SetModifier(g, key, "")) + Length(toks)
    decreases |toks|
  {
    hide UntilKeyword, TextOf, Part, Clause;
    if toks != [] {
      PartHolds(toks[0]);
      if toks[0].text == "required" {
        ModifiersRewrite(toks[1..], g.(required := true), key);
      } else if toks[0].text == "unique" {
        ModifiersRewrite(toks[1..], g.(unique := true), key);
      } else if Valued(toks[0].text) && At(toks, 1, "=") {
        hide SetModifier, Weight, Valued, TextAt, TextKey;
        var n := UntilKeyword(toks[2..], 0);
        var val, own := TextOf(toks[2..2 + n]), toks[0].text;
        var g1 := SetModifier(g, own, val);
        ClauseLength(toks);
        if own == key {
          SetSame(g, key, val);
          SetWeight(g, key, val);
          ModifiersBound(toks[2 + n..], g1);
        } else {
          SetOther(g, key, own, val);
          SetWeight(SetModifier(g, key, ""), own, val);
          ModifiersRewrite(toks[2 + n..], g1, key);
        }
      }
    }
  }

  /** A text clause that is cut short, or runs on into what follows, cannot be made good: a declaration with the
      clause's whole text, and as much text as there is but for two quotes, is not what is read. */
  lemma ClauseMisread(key: string, toks: seq<Tok>, rest: seq<Tok>, g: FieldDecl, d: FieldDecl)
    requires TextKey(key) && TextOf(toks) != "" && UntilKeyword(toks + rest, 0) != |toks|
    requires TextAt(d, key) == TextOf(toks)
    requires Weight(d) + 2 >= Weight(SetModifier(g, key, "")) + Length([Ident(key), Punct("=")] + (toks + rest))
    ensures Modifiers([Ident(key), Punct("=")] + (toks + rest), g).decl != d
  {
    hide UntilKeyword, TextOf, SetModifier, Length, Part, Weight, TextAt;
    var all := [Ident(key), Punct("=")] + (toks + rest);
    var n := UntilKeyword(toks + rest, 0);
    SetSame(g, key, "");
    assert all[2..] == toks + rest && all[2..2 + n] == (toks + rest)[..n] && (toks + rest)[..|toks|] == toks;
    assert Modifiers(all, g).decl == Modifiers(all[2 + n..], SetModifier(g, key, TextOf(all[2..2 + n]))).decl;
    if n < |toks| {
      BeginningsDiffer(toks + rest, n, |toks|);
    } else {
      BeginningsDiffer(toks + rest, |toks|, n);
    }
    var val := TextOf(all[2..2 + n]);
    SetSame(g, key, val);
    ClauseLength(all);
    if Modifiers(all, g).decl == d {
      ModifiersRewrite(all[2 + n..], SetModifier(g, key, val), key);
    }
  }

  // ---- transition lines --------------------------------------------------------------------

  /** The text a declaration's clauses take when written out. */
  function ClausesWeight(d: TransitionDecl): nat {
    (if d.when == "" then 0 else 6 + |d.when|) + (if d.assigneeAgent then 22 else 0) + |d.assigneeRole|
    + (if d.approvalRole == "" then 0 else 22 + |d.approvalRole|) + |d.caption|
  }

  lemma Ahead(toks: seq<Tok>, n: nat)
    requires n <= |toks|
    ensures forall i :: 0 <= i < n ==> Length(toks[i..]) >= |toks[i].text| + 1 + Length(toks[i + 1..])
    ensures toks[0..] == toks
  {
    forall i | 0 <= i < n ensures Length(toks[i..]) >= |toks[i].text| + 1 + Length(toks[i + 1..]) {
      PartHolds(toks[i]);
      assert toks[i..][0] == toks[i] && toks[i..][1..] == toks[i + 1..];
    }
  }

  lemma WhenLength(toks: seq<Tok>)
    requires toks != [] && toks[0].text == "when"
    ensures var n := UntilStop(toks[1..]);
      var val := TextOf(toks[1..1 + n]);
      && Length(toks) >= 5 + Length(toks[1..1 + n]) + Length(toks[1 + n..])
      && (val != "" ==> Length(toks) >= 6 + |val| + Length(toks[1 + n..]))
  {
    hide UntilStop, TextOf;
    var n := UntilStop(toks[1..]);
    assert toks[1..][..n] == toks[1..1 + n] && toks[1..][n..] == toks[1 + n..];
    Ahead(toks, 1);
    LengthAt(toks[1..], n);
    LengthIs(toks[1..1 + n]);
  }

  /** The clauses that set an assignee or an approval, and what they take. */
  lemma AssigneeLength(toks: seq<Tok>)
    requires |toks| >= 3 && toks[0].text == "assignee" && toks[1].text == "="
    ensures |toks| >= 6 && toks[2].text == "agent" && toks[3].text == "(" && toks[5].text == ")" ==>
      Length(toks) >= 22 + |toks[4].text| + Length(toks[6..])
    ensures Length(toks) >= 12 + |toks[2].text| + Length(toks[3..])
  {
    Ahead(toks, if |toks| >= 6 then 6 else 3);
  }

  lemma ApprovalLength(toks: seq<Tok>)
    requires |toks| >= 5 && toks[0].text == "requires" && toks[1].text == "approval" && toks[2].text == "("
    ensures Length(toks) >= 22 + |toks[3].text| + Length(toks[5..])
  {
    Ahead(toks, 5);
    hide Length;
    assert |"requires"| == 8 && |"approval"| == 8 && |"("| == 1;
    assert Length(toks[4..]) >= 1 + Length(toks[5..]);
    assert Length(toks[2..]) >= 2 + Length(toks[3..]);
  }

  /** One clause: the tokens it takes and the declaration after it; nothing where the clause is in error. */
  function Turn(toks: seq<Tok>, g: TransitionDecl): (r: Option<(nat, TransitionDecl)>)
    ensures r.Some? ==> 0 < r.value.0 <= |toks|
  {
    if toks == [] then None
    else if toks[0].text == "when" then
      var n := UntilStop(toks[1..]);
      Some((1 + n, g.(when := TextOf(toks[1..1 + n]))))
    else if toks[0].text == "label" && |toks| >= 3 && toks[1].text == "=" && toks[2].Str? then
      Some((3, g.(caption := toks[2].text)))
    else if toks[0].text == "assignee" && |toks| >= 3 && toks[1].text == "=" && toks[2].text != "agent" then
      Some((3, g.(assigneeRole := toks[2].text)))
    else if toks[0].text == "assignee" && |toks| >= 6 && toks[1].text == "=" && toks[3].text == "(" && toks[4].Ident?
            && toks[5].text == ")" then
      Some((6, g.(assigneeAgent := true, assigneeRole := toks[4].text)))
    else if toks[0].text == "requires" && |toks| >= 5 && toks[1].text == "approval" && toks[2].text == "("
            && toks[3].Ident? then
      Some((5, g.(approvalRole := toks[3].text)))
    else None
  }

  lemma ClausesTurn(toks: seq<Tok>, g: TransitionDecl)
    ensures Turn(toks, g).None? ==> Clauses(toks, g).decl == g
    ensures Turn(toks, g).Some? ==> Clauses(toks, g) == Clauses(toks[Turn(toks, g).value.0..], Turn(toks, g).value.1)
  {
    hide UntilStop, TextOf;
  }

  lemma TurnLength(toks: seq<Tok>, g: TransitionDecl)
    requires Turn(toks, g).Some?
    ensures var (k, next) := Turn(toks, g).value;
      && next.auto == g.auto
      && ClausesWeight(next) + Length(toks[k..]) <= ClausesWeight(g) + Length(toks)
      && (next.when != g.when ==>
            ClausesWeight(next) + Length(toks[k..]) <= ClausesWeight(g.(when := "")) + Length(toks))
      && (next.when == g.when ==>
            ClausesWeight(next.(when := "")) + Length(toks[k..]) <= ClausesWeight(g.(when := "")) + Length(toks))
  {
    hide UntilStop, TextOf, Length;
    if toks[0].text == "when" {
      WhenLength(toks);
    } else if toks[0].text == "label" {
      Ahead(toks, 3);
    } else if toks[0].text == "assignee" {
      AssigneeLength(toks);
    } else {
      ApprovalLength(toks);
    }
  }

  /** Reading clauses adds no more text than there is, and never changes whether a transition is automatic. */
  lemma {:induction false} ClausesBound(toks: seq<Tok>, g: TransitionDecl)
    ensures ClausesWeight(Clauses(toks, g).decl) <= ClausesWeight(g) + Length(toks)
    ensures Clauses(toks, g).decl.auto == g.auto
    decreases |toks|
  {
    hide Turn, Clauses, Length, ClausesWeight;
    ClausesTurn(toks, g);
    if Turn(toks, g).Some? {
      var (k, next) := Turn(toks, g).value;
      TurnLength(toks, g);
      ClausesBound(toks[k..], next);
    }
  }

  /** A guard that changes while the rest is read leaves no trace of what it was before. */
  lemma {:induction false} ClausesRewrite(toks: seq<Tok>, g: TransitionDecl)
    requires Clauses(toks, g).decl.when != g.when
    ensures ClausesWeight(Clauses(toks, g).decl) <= ClausesWeight(g.(when := "")) + Length(toks)
    decreases |toks|
  {
    hide Turn, Clauses, Length, ClausesWeight;
    ClausesTurn(toks, g);
    var (k, next) := Turn(toks, g).value;
    TurnLength(toks, g);
    if next.when != g.when {
      ClausesBound(toks[k..], next);
    } else {
      ClausesRewrite(toks[k..], next);
    }
  }

  /** A guard that is cut short cannot be made good either. */
  lemma GuardMisread(toks: seq<Tok>, rest: seq<Tok>, g: TransitionDecl, d: TransitionDecl)
    requires TextOf(toks) != "" && UntilStop(toks + rest) != |toks| && d.when == TextOf(toks)
    requires ClausesWeight(d) + 2 >= ClausesWeight(g.(when := "")) + Length([Ident("when")] + (toks + rest))
    ensures Clauses([Ident("when")] + (toks + rest), g).decl != d
  {
    hide UntilStop, TextOf, Length, ClausesWeight, Clauses;
    var all := [Ident("when")] + (toks + rest);
    var n := UntilStop(toks + rest);
    assert all[1..] == toks + rest && all[1..1 + n] == (toks + rest)[..n] && (toks + rest)[..|toks|] == toks;
    var val := TextOf(all[1..1 + n]);
    ClausesTurn(all, g);
    assert Turn(all, g) == Some((1 + n, g.(when := val)));
    hide Turn;
    if n < |toks| {
      BeginningsDiffer(toks + rest, n, |toks|);
    } else {
      BeginningsDiffer(toks + rest, |toks|, n);
    }
    WhenLength(all);
    if Clauses(all, g).decl == d {
      ClausesRewrite(all[1 + n..], g.(when := val));
    }
  }
}
