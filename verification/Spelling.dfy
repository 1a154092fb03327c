/** Spelled tokens lex back to themselves; collapsing touches quoted strings only. */
module Spelling {
  import opened Values
  import opened Conditions

  // ---- spelling ---------------------------------------------------------------

  function Spell(t: Tok): string {
    match t
    case StrTok(text) => ['"'] + text + ['"']
    case _ => t.text
  }

  /** Tokens joined by single blanks. */
  function Text(ts: seq<Tok>): string {
    if ts == [] then ""
    else if |ts| == 1 then Spell(ts[0])
    else Spell(ts[0]) + [' '] + Text(ts[1..])
  }

  predicate PlainWord(text: string) {
    text != "" && IsWordByte(text[0]) && !IsDigit(text[0]) && forall ch <- text :: WordOrDot(ch)
  }

  predicate PlainNumber(text: string) {
    && text != ""
    && (IsDigit(text[0]) || (text[0] == '-' && |text| > 1 && IsDigit(text[1])))
    && forall i :: 1 <= i < |text| ==> DigitOrDot(text[i])
  }

  predicate PlainPunct(text: string) {
    || (|text| == 1 && (IsBracket(text[0]) || text[0] == '=' || text[0] == '>' || text[0] == '<'))
    || (|text| == 2 && (text[0] == '!' || text[0] == '>' || text[0] == '<') && text[1] == '=')
  }

  /** No dot touches white space or an end of the text, so nothing is collapsed. */
  predicate TightDots(s: string) {
    forall i :: 0 <= i < |s| && s[i] == '.' ==> 0 < i < |s| - 1 && !IsGap(s[i - 1]) && !IsGap(s[i + 1])
  }

  /** Words and numbers whose dots are inside; quoted text may hold anything but a quote. */
  predicate Spellable(t: Tok) {
    match t
    case Word(text) => PlainWord(text) && TightDots(text)
    case NumTok(text) => PlainNumber(text) && TightDots(text)
    case StrTok(text) => '"' !in text
    case Punct(text) => PlainPunct(text)
  }

  predicate AllSpellable(ts: seq<Tok>) {
    forall t <- ts :: Spellable(t)
  }

  lemma {:induction false} WordRunStops(s: string, k: nat)
    requires k <= |s| && (forall i :: 0 <= i < k ==> WordOrDot(s[i])) && (k < |s| ==> !WordOrDot(s[k]))
    ensures WordRun(s) == k
  {
    if k > 0 {
      WordRunStops(s[1..], k - 1);
    }
  }

  lemma {:induction false} NumRunStops(s: string, k: nat)
    requires k <= |s| && (forall i :: 0 <= i < k ==> DigitOrDot(s[i])) && (k < |s| ==> !DigitOrDot(s[k]))
    ensures NumRun(s) == k
  {
    if k > 0 {
      NumRunStops(s[1..], k - 1);
    }
  }

  lemma LexWord(text: string, rest: string)
    requires PlainWord(text) && (rest == "" || rest[0] == ' ')
    ensures LexOne(text + rest) == Lexed(Word(text), |text|)
  {
    var s := text + rest;
    assert forall i :: 0 <= i < |text| ==> s[i] == text[i] && text[i] in text;
    WordRunStops(s, |text|);
    assert s[..|text|] == text;
  }

  lemma LexNumber(text: string, rest: string)
    requires PlainNumber(text) && (rest == "" || rest[0] == ' ')
    ensures LexOne(text + rest) == Lexed(NumTok(text), |text|)
  {
    var s := text + rest;
    assert forall i :: 0 <= i < |text| ==> s[i] == text[i];
    NumRunStops(s[1..], |text| - 1);
    assert s[..|text|] == text;
  }

  lemma LexQuoted(text: string, rest: string)
    requires '"' !in text
    ensures LexOne((['"'] + text + ['"']) + rest) == Lexed(StrTok(text), |text| + 2)
  {
    var s := (['"'] + text + ['"']) + rest;
    assert forall i :: 0 <= i < |text| ==> s[1..][i] == text[i];
    QuoteRunStops(s[1..], |text|);
    assert s[1..1 + |text|] == text;
  }

  lemma LexPunct(text: string, rest: string)
    requires PlainPunct(text) && (rest == "" || rest[0] == ' ')
    ensures LexOne(text + rest) == Lexed(Punct(text), |text|)
  {
    var s := text + rest;
    assert s[0] == text[0];
    if |text| == 2 {
      assert s[1] == text[1] && s[..2] == text;
      assert text[0] == '!' ==> text == "!=";
    } else {
      assert text == [text[0]];
      assert rest != "" ==> s[1] == ' ';
      assert text[0] == '=' ==> text == "=";
    }
  }

  /** The lexer reads a spelled token back, when it ends the text or a blank follows. */
  lemma LexSpelled(t: Tok, rest: string)
    requires Spellable(t) && (rest == "" || rest[0] == ' ')
    ensures LexOne(Spell(t) + rest) == Lexed(t, |Spell(t)|)
  {
    hide LexOne, PlainWord, PlainNumber, PlainPunct;
    match t {
      case Word(text) => LexWord(text, rest);
      case NumTok(text) => LexNumber(text, rest);
      case StrTok(text) => LexQuoted(text, rest);
      case Punct(text) => LexPunct(text, rest);
    }
  }

  /** Spelled tokens lex back to themselves. */
  lemma {:induction false} LexText(ts: seq<Tok>)
    requires AllSpellable(ts)
    ensures Lex(Text(ts)) == Some(ts)
  {
    hide LexOne, Spellable, Spell;
    if ts != [] {
      var t, tail := ts[0], ts[1..];
      assert ts == [t] + tail;
      assert Spell(t) + "" == Spell(t);
      LexText(tail);
      if tail == [] {
        LexSpelled(t, "");
        assert Text(ts)[|Spell(t)|..] == "";
      } else {
        var rest := [' '] + Text(tail);
        LexSpelled(t, rest);
        assert Text(ts) == Spell(t) + rest;
        assert Text(ts)[|Spell(t)|..] == rest && rest[1..] == Text(tail);
        LexBlank(rest);
      }
    }
  }

  lemma LexBlank(s: string)
    requires s != "" && s[0] == ' '
    ensures Lex(s) == Lex(s[1..])
  {
  }

  // ---- trimming and collapsing -----------------------------------------------------

  /** Weaker than TightDots, and true of every suffix. */
  predicate NoGapsAtDots(s: string) {
    forall i :: 0 <= i < |s| && s[i] == '.' ==> (i > 0 ==> !IsGap(s[i - 1])) && (i < |s| - 1 ==> !IsGap(s[i + 1]))
  }

  lemma {:induction false} CollapseTight(s: string)
    requires NoGapsAtDots(s)
    ensures Collapse(s) == s
    decreases |s|
  {
    if s != "" {
      var k := GapRun(s);
      assert k > 0 ==> IsGap(s[k - 1]);
      var rest := s[1..];
      assert s[0] == '.' ==> GapRun(rest) == 0;
      assert rest[0..] == rest && s == [s[0]] + rest;
      CollapseTight(rest);
    }
  }

  /** A spelled text neither starts nor ends with white space or a dot. */
  lemma {:induction false} TextEnds(ts: seq<Tok>)
    requires AllSpellable(ts) && ts != []
    ensures Text(ts) != "" && Firm(Text(ts)[0]) && Firm(Text(ts)[|Text(ts)| - 1])
  {
    var t, tail := ts[0], ts[1..];
    SpellEnds(t);
    hide Spellable, Spell;
    if tail != [] {
      TextEnds(tail);
      assert Text(ts) == Spell(t) + [' '] + Text(tail);
    }
  }

  /** Neither white space nor a dot. */
  predicate Firm(ch: char) {
    !IsSpace(ch) && ch != '.'
  }

  lemma SpellEnds(t: Tok)
    requires Spellable(t)
    ensures Spell(t) != "" && Firm(Spell(t)[0]) && Firm(Spell(t)[|Spell(t)| - 1])
  {
    if t.Word? {
      assert t.text[|t.text| - 1] in t.text;
    } else if t.NumTok? && |t.text| > 1 {
      assert DigitOrDot(t.text[|t.text| - 1]);
    }
  }

  lemma TightHasNoGaps(s: string)
    requires TightDots(s)
    ensures NoGapsAtDots(s)
  {
  }

  // ---- what collapsing leaves of a spelled text -------------------------------------------

  /** Whether the text starts with a dot, up to white space in front of it. */
  predicate DotAhead(s: string) {
    GapRun(s) < |s| && s[GapRun(s)] == '.'
  }

  /** What is left of it then: past the dot and the white space after it. */
  function PastDot(s: string): (r: string)
    requires DotAhead(s)
    ensures |r| < |s| && forall ch <- r :: ch in s
    ensures r != "" ==> !IsGap(r[0])
  {
    var c := s[GapRun(s) + 1..];
    c[GapRun(c)..]
  }

  lemma CollapseStep(s: string)
    requires s != ""
    ensures Collapse(s) == if DotAhead(s) then "." + Collapse(PastDot(s)) else [s[0]] + Collapse(s[1..])
  {
  }

  lemma DotAheadWithin(a: string, b: string)
    requires a != "" && Firm(a[|a| - 1])
    ensures DotAhead(a + b) <==> DotAhead(a)
    ensures DotAhead(a) ==>
      PastDot(a) != "" && PastDot(a)[|PastDot(a)| - 1] == a[|a| - 1] && PastDot(a + b) == PastDot(a) + b
  {
    var last, k := a[|a| - 1], GapRun(a);
    GapRunWithin(a, b);
    assert !IsGap(last) && last != '.';
    hide GapRun, IsGap, Firm;
    if DotAhead(a) {
      var c := a[k + 1..];
      assert k < |a| - 1 && c[|c| - 1] == last && (a + b)[k + 1..] == c + b;
      PastGaps(c, b);
    }
  }

  lemma PastGaps(c: string, b: string)
    requires c != "" && !IsGap(c[|c| - 1])
    ensures GapRun(c) < |c| && (c + b)[GapRun(c + b)..] == c[GapRun(c)..] + b
  {
    GapRunWithin(c, b);
    hide GapRun;
  }

  lemma DotAheadUpTo(a: string, ch: char)
    requires a != "" && Firm(ch)
    ensures DotAhead(a + [ch]) <==> DotAhead(a)
    ensures DotAhead(a) ==> PastDot(a + [ch]) == PastDot(a) + [ch]
  {
    GapRunUpTo(a, ch);
    if DotAhead(a) {
      var k := GapRun(a);
      var c := a[k + 1..];
      assert (a + [ch])[k + 1..] == c + [ch];
      GapRunUpTo(c, ch);
      assert (c + [ch])[GapRun(c)..] == c[GapRun(c)..] + [ch];
    }
  }

  lemma Assoc(a: string, b: string, c: string)
    ensures a + (b + c) == (a + b) + c
  {
  }

  lemma HeadTail(a: string, b: string)
    requires a != ""
    ensures (a + b)[0] == a[0] && (a + b)[1..] == a[1..] + b && a + b != ""
    ensures a[1..] != "" ==> a[1..][|a[1..]| - 1] == a[|a| - 1]
  {
  }

  /** Collapsing goes on past a firm character as if the text began there. */
  lemma {:induction false} CollapseAfter(a: string, b: string)
    requires a != "" ==> Firm(a[|a| - 1])
    ensures Collapse(a + b) == Collapse(a) + Collapse(b)
    decreases |a|
  {
    hide *;
    if a == "" {
      assert a + b == b;
      CollapseNothing();
    } else {
      HeadTail(a, b);
      CollapseStep(a);
      CollapseStep(a + b);
      DotAheadWithin(a, b);
      if DotAhead(a) {
        CollapseAfter(PastDot(a), b);
        Assoc(".", Collapse(PastDot(a)), Collapse(b));
      } else {
        CollapseAfter(a[1..], b);
        Assoc([a[0]], Collapse(a[1..]), Collapse(b));
      }
    }
  }

  lemma CollapseNothing()
    ensures Collapse("") == "" && forall s: string :: "" + s == s
  {
  }

  lemma {:induction false} GapRunWithin(a: string, b: string)
    requires a != "" && !IsGap(a[|a| - 1])
    ensures GapRun(a) < |a| && GapRun(a + b) == GapRun(a)
  {
    if IsGap(a[0]) {
      assert (a + b)[1..] == a[1..] + b;
      GapRunWithin(a[1..], b);
    }
  }

  /** A firm character after a text changes nothing in it. */
  lemma {:induction false} CollapseBefore(a: string, ch: char)
    requires Firm(ch)
    ensures Collapse(a + [ch]) == Collapse(a) + [ch]
    decreases |a|
  {
    if a == "" {
      assert [ch][1..] == "" && a + [ch] == [ch];
    } else {
      hide *;
      HeadTail(a, [ch]);
      CollapseStep(a);
      CollapseStep(a + [ch]);
      DotAheadUpTo(a, ch);
      if DotAhead(a) {
        CollapseBefore(PastDot(a), ch);
        Assoc(".", Collapse(PastDot(a)), [ch]);
      } else {
        CollapseBefore(a[1..], ch);
        Assoc([a[0]], Collapse(a[1..]), [ch]);
      }
    }
  }

  lemma {:induction false} GapRunUpTo(a: string, ch: char)
    requires !IsGap(ch)
    ensures GapRun(a + [ch]) == GapRun(a)
  {
    if a != "" && IsGap(a[0]) {
      assert (a + [ch])[1..] == a[1..] + [ch];
      GapRunUpTo(a[1..], ch);
    }
  }

  /** Collapsing leaves no white space at a dot, and so collapses nothing twice. */
  lemma {:induction false} CollapsedHasNoGaps(s: string)
    ensures NoGapsAtDots(Collapse(s))
    ensures forall ch <- Collapse(s) :: ch in s
    ensures Collapse(s) != "" && Collapse(s)[0] == '.' ==> DotAhead(s)
    ensures s != "" && !IsGap(s[0]) ==> Collapse(s) != "" && !IsGap(Collapse(s)[0])
    decreases |s|
  {
    if s != "" {
      CollapseStep(s);
      if DotAhead(s) {
        CollapsedHasNoGaps(PastDot(s));
        assert Collapse("") == "";
        hide Collapse, DotAhead, PastDot;
        Prefixed('.', Collapse(PastDot(s)));
      } else {
        CollapsedHasNoGaps(s[1..]);
        GapAhead(s);
        hide Collapse, DotAhead, PastDot;
        Prefixed(s[0], Collapse(s[1..]));
      }
    }
  }

  lemma GapAhead(s: string)
    requires s != "" && !DotAhead(s)
    ensures s[0] != '.' && (IsGap(s[0]) ==> !DotAhead(s[1..]))
  {
  }

  lemma Prefixed(ch: char, s: string)
    requires NoGapsAtDots(s)
    requires ch == '.' ==> s == "" || !IsGap(s[0])
    requires IsGap(ch) ==> s == "" || s[0] != '.'
    ensures NoGapsAtDots([ch] + s)
  {
    var u := [ch] + s;
    assert forall i :: 0 < i < |u| ==> u[i] == s[i - 1];
  }

  /** Blanks next to a dot are what collapsing removes: a text without them stays, any other changes. */
  lemma CollapsesToItselfIff(s: string)
    ensures Collapse(s) == s <==> NoGapsAtDots(s)
  {
    CollapsedHasNoGaps(s);
    if NoGapsAtDots(s) {
      CollapseTight(s);
    }
  }

  function CollapseTok(t: Tok): Tok {
    if t.StrTok? then StrTok(Collapse(t.text)) else t
  }

  function CollapseToks(ts: seq<Tok>): seq<Tok> {
    if ts == [] then [] else [CollapseTok(ts[0])] + CollapseToks(ts[1..])
  }

  lemma CollapseSpelled(t: Tok)
    requires Spellable(t)
    ensures Collapse(Spell(t)) == Spell(CollapseTok(t)) && Spellable(CollapseTok(t))
  {
    if t.StrTok? {
      var inner := t.text + ['"'];
      assert ['"'] + t.text + ['"'] == ['"'] + inner && ['"'][1..] == "";
      CollapseAfter(['"'], inner);
      CollapseBefore(t.text, '"');
      assert Collapse(['"']) == ['"'];
      assert ['"'] + (Collapse(t.text) + ['"']) == ['"'] + Collapse(t.text) + ['"'];
      CollapsedHasNoGaps(t.text);
    } else {
      if t.Punct? {
        assert NoGapsAtDots(t.text);
      }
      CollapseTight(t.text);
    }
  }

  /** Collapsing a spelled text collapses its quoted strings and nothing else. */
  lemma {:induction false} CollapseText(ts: seq<Tok>)
    requires AllSpellable(ts)
    ensures Collapse(Text(ts)) == Text(CollapseToks(ts)) && AllSpellable(CollapseToks(ts))
  {
    if ts != [] {
      var t, tail := ts[0], ts[1..];
      assert ts == [t] + tail && CollapseToks(ts) == [CollapseTok(t)] + CollapseToks(tail);
      CollapseText(tail);
      CollapseSpelled(t);
      hide Spellable, Spell, Collapse, CollapseTok;
      if tail != [] {
        SpellEnds(t);
        TextEnds(tail);
        TextOfMore(t, tail);
        var after := [' '] + Text(tail);
        CollapseAfter(Spell(t), after);
        CollapseBlank(Text(tail));
        assert CollapseToks(tail) != [];
        TextOfMore(CollapseTok(t), CollapseToks(tail));
      }
    }
  }

  lemma TextOfMore(t: Tok, tail: seq<Tok>)
    requires tail != []
    ensures Text([t] + tail) == Spell(t) + ([' '] + Text(tail))
  {
    assert ([t] + tail)[1..] == tail;
  }

  lemma CollapseBlank(s: string)
    requires s != "" && Firm(s[0])
    ensures Collapse([' '] + s) == [' '] + Collapse(s)
  {
    assert ([' '] + s)[1..] == s;
    assert GapRun([' '] + s) == 1;
  }
}
