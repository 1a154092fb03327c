/** Which conditions an index can serve: the terms `field = $me` and `field = $me.attr` of a read clause.

    The terms are searched for in the clause's text, so the link to what the clause means goes through its
    tokens and its tree. */
module Scope {
  import opened Values
  import opened Conditions
  import opened Spelling
  import opened ConditionMeaning

  /** The actor's id (no attribute) or an attribute, compared with a field. */
  datatype Term = Term(field: string, attr: Option<string>)

  // ---- the pattern --------------------------------------------------------------------

  predicate IsLetterOrDigit(ch: char) {
    'a' <= ch <= 'z' || 'A' <= ch <= 'Z' || IsDigit(ch) || ch == '_'
  }

  function NameRun(s: string): (k: nat)
    ensures k <= |s| && (forall i :: 0 <= i < k ==> IsLetterOrDigit(s[i])) && (k < |s| ==> !IsLetterOrDigit(s[k]))
  {
    if s == "" || !IsLetterOrDigit(s[0]) then 0 else 1 + NameRun(s[1..])
  }

  /** A term is followed by white space, a closing parenthesis or the end of the text. */
  predicate Ends(s: string) {
    s == "" || IsGap(s[0]) || s[0] == ')'
  }

  predicate StartsWithMe(s: string) {
    |s| >= 3 && s[0] == '$' && s[1] == 'm' && s[2] == 'e'
  }

  /** A term and how much text it takes up, with the character that ends it. */
  datatype Found = Found(term: Term, size: nat)

  function Ending(s: string): nat {
    if s == "" then 0 else 1
  }

  /** The right side of a term, after the equals sign and white space. */
  function MeAt(field: string, s: string): (r: Option<Found>)
    ensures r.Some? ==> r.value.size <= |s|
  {
    if !StartsWithMe(s) then None
    else
      var tail := s[3..];
      var n := if tail != "" && tail[0] == '.' then NameRun(tail[1..]) else 0;
      if n > 0 then
        if Ends(tail[1 + n..]) then Some(Found(Term(field, Some(tail[1..1 + n])), 4 + n + Ending(tail[1 + n..])))
          else None
      else if Ends(tail) then Some(Found(Term(field, None), 3 + Ending(tail)))
      else None
  }

  /** A term starting right here. */
  function TermAt(s: string): (r: Option<Found>)
    ensures r.Some? ==> 0 < r.value.size <= |s|
  {
    var k := NameRun(s);
    var q := k + GapRun(s[k..]);
    if k == 0 || q == |s| || s[q] != '=' then None
    else
      var m := q + 1 + GapRun(s[q + 1..]);
      var me := MeAt(s[..k], s[m..]);
      if me.None? then None else Some(Found(me.value.term, m + me.value.size))
  }

  predicate Opens(ch: char) {
    IsGap(ch) || ch == '('
  }

  /** All terms, left to right, without overlap: a term starts the text or follows white space or "(". */
  function Terms(s: string, atStart: bool): seq<Term>
    decreases |s|
  {
    if s == "" then []
    else
      var here := if atStart then TermAt(s) else None;
      var next := if here.None? && Opens(s[0]) then TermAt(s[1..]) else None;
      if here.Some? then [here.value.term] + Terms(s[here.value.size..], false)
      else if next.Some? then [next.value.term] + Terms(s[1 + next.value.size..], false)
      else Terms(s[1..], false)
  }

  /** The terms of a clause, blanks around dots dropped. */
  function ScopeTerms(where: string): seq<Term> {
    Terms(Collapse(where), true)
  }

  // ---- where terms are found -----------------------------------------------------------

  ghost predicate Hit(s: string, atStart: bool, b: nat, t: Term) {
    && b < |s|
    && ((b == 0 && atStart) || (b > 0 && Opens(s[b - 1])))
    && TermAt(s[b..]).Some? && TermAt(s[b..]).value.term == t
  }

  lemma {:induction false} TermsHit(s: string, atStart: bool, t: Term) returns (b: nat)
    requires t in Terms(s, atStart)
    ensures Hit(s, atStart, b, t)
    decreases |s|
  {
    hide TermAt;
    var here := if atStart then TermAt(s) else None;
    var next := if here.None? && Opens(s[0]) then TermAt(s[1..]) else None;
    var skip := if here.Some? then here.value.size else if next.Some? then 1 + next.value.size else 1;
    if here.Some? && here.value.term == t {
      assert s[0..] == s;
      b := 0;
    } else if next.Some? && next.value.term == t {
      b := 1;
    } else {
      var c := TermsHit(s[skip..], false, t);
      assert s[skip..][c..] == s[skip + c..];
      b := skip + c;
    }
  }

  // ---- a term found is three tokens of the clause ------------------------------------------

  /** No term stands in a quoted text; one at its end would need the white space the quote is not. */
  predicate TermFree(text: string) {
    forall b :: 0 < b <= |text| && Opens(text[b - 1]) ==> TermAt(text[b..] + ['"']).None?
  }

  predicate NoTermQuoted(ts: seq<Tok>) {
    forall t <- ts :: t.StrTok? ==> TermFree(t.text)
  }

  function MeText(attr: Option<string>): string {
    if attr.None? then "$me" else "$me." + attr.value
  }

  /** Three consecutive tokens: a field, an equals sign and the actor. */
  predicate TermAtToken(ts: seq<Tok>, k: nat, t: Term) {
    k + 2 < |ts| && ts[k] == Word(t.field) && ts[k + 1] == Punct("=") && ts[k + 2] == Word(MeText(t.attr))
  }

  /** A field name: a word that is not a literal and has no dots. */
  predicate FieldName(field: string) {
    PlainWord(field) && !WordLiteral(field) && '.' !in field
  }

  /** Where the parts of a term stand: letters, white space, the equals sign, white space, the actor. */
  lemma TermParts(u: string) returns (q: nat, m: nat)
    requires TermAt(u).Some?
    ensures 0 < NameRun(u) <= q < m <= |u| && u[q] == '='
    ensures q == NameRun(u) + GapRun(u[NameRun(u)..]) && m == q + 1 + GapRun(u[q + 1..])
    ensures MeAt(u[..NameRun(u)], u[m..]).Some? && TermAt(u).value.term == MeAt(u[..NameRun(u)], u[m..]).value.term
    ensures forall i :: NameRun(u) <= i < q ==> IsGap(u[i])
  {
    hide MeAt, NameRun, IsGap, GapRun;
    var k := NameRun(u);
    q := k + GapRun(u[k..]);
    m := q + 1 + GapRun(u[q + 1..]);
    GapsFrom(u, k);
  }

  lemma TwoSlices(s: string, i: nat, j: nat)
    requires i + j <= |s|
    ensures s[i..][j..] == s[i + j..]
  {
  }

  lemma GapsFrom(u: string, k: nat)
    requires k <= |u|
    ensures var q := k + GapRun(u[k..]); q <= |u| && u[k..][q - k..] == u[q..] && forall i :: k <= i < q ==> IsGap(u[i])
  {
    var tail := u[k..];
    forall i | k <= i < k + GapRun(tail) ensures IsGap(u[i]) {
      assert tail[i - k] == u[i];
    }
  }

  /** The lexer reads past white space, or fails on it. */
  lemma {:induction false} LexPastGaps(s: string)
    requires Lex(s).Some?
    ensures Lex(s) == Lex(s[GapRun(s)..])
    decreases |s|
  {
    if s != "" && IsGap(s[0]) {
      LexPastGaps(s[1..]);
      assert s[GapRun(s)..] == s[1..][GapRun(s[1..])..];
    }
  }

  /** The lexer reads the actor of a term as one word. */
  lemma MeIsWord(field: string, s: string)
    requires MeAt(field, s).Some?
    ensures s != "" && MeAt(field, s).value.term.field == field
    ensures var text := MeText(MeAt(field, s).value.term.attr); LexOne(s) == Lexed(Word(text), |text|)
  {
    var t := MeAt(field, s).value.term;
    var tail := s[3..];
    var text := MeText(t.attr);
    if t.attr.Some? {
      var n := |t.attr.value|;
      assert tail[1..1 + n] == t.attr.value;
      assert forall i :: 0 <= i < n ==> tail[1..][i] == s[4 + i];
      assert tail[1 + n..] != "" ==> tail[1 + n..][0] == s[4 + n];
      assert s[..4 + n] == text;
    } else {
      assert tail != "" ==> tail[0] == s[3];
      assert s[..3] == text;
    }
    hide MeText, MeAt;
    WordRunStops(s, |text|);
  }

  /** A term that starts the text is its first three tokens. */
  lemma TermIsHead(s: string, ts: seq<Tok>)
    requires Lex(s) == Some(ts) && TermAt(s).Some? && FieldName(TermAt(s).value.term.field)
    ensures TermAtToken(ts, 0, TermAt(s).value.term)
  {
    hide *;
    var q, m := TermParts(s);
    var k, t := NameRun(s), TermAt(s).value.term;
    var me := MeText(t.attr);
    MeIsWord(s[..k], s[m..]);
    FieldIsPath(s[..k]);
    FieldIsWord(s, k, q);
    LexToken(s, ts, Word(s[..k]), k);
    LexPastGaps(s[k..]);
    TwoSlices(s, k, GapRun(s[k..]));
    LexToken(s[q..], ts[1..], Punct("="), 1);
    TwoSlices(s, q, 1);
    LexPastGaps(s[q + 1..]);
    TwoSlices(s, q + 1, GapRun(s[q + 1..]));
    LexOneFits(s[m..]);
    LexToken(s[m..], ts[1..][1..], Word(me), |me|);
    ThreeTokens(ts, t);
  }

  lemma LexOneFits(s: string)
    ensures s != "" && LexOne(s).Lexed? ==> LexOne(s).size <= |s|
  {
    hide *;
  }

  lemma ThreeTokens(ts: seq<Tok>, t: Term)
    requires |ts| > 2 && ts[0] == Word(t.field) && ts[1..][0] == Punct("=") && ts[1..][1..][0] == Word(MeText(t.attr))
    ensures TermAtToken(ts, 0, t)
  {
    hide MeText;
  }

  lemma LexToken(s: string, ts: seq<Tok>, t: Tok, n: nat)
    requires s != "" && Lex(s) == Some(ts) && LexOne(s) == Lexed(t, n) && n <= |s|
    ensures ts != [] && ts[0] == t && Lex(s[n..]) == Some(ts[1..])
  {
    hide LexOne;
  }

  lemma FieldIsWord(s: string, k: nat, q: nat)
    requires 0 < k == NameRun(s) <= q < |s| && s[q] == '=' && PlainWord(s[..k])
    requires forall i :: k <= i < q ==> IsGap(s[i])
    ensures LexOne(s) == Lexed(Word(s[..k]), k) && LexOne(s[q..]) == Lexed(Punct("="), 1)
  {
    assert s[0] == s[..k][0];
    assert forall i :: 0 <= i < k ==> WordOrDot(s[i]);
    assert s[k] == '=' || IsGap(s[k]);
    assert !WordOrDot(s[k]);
    hide NameRun, PlainWord;
    WordRunStops(s, k);
    LexWordHere(s, k);
    assert ['='] == "=";
  }

  lemma LexWordHere(s: string, k: nat)
    requires 0 < k <= |s| && WordRun(s) == k && IsWordByte(s[0]) && !IsDigit(s[0])
    ensures LexOne(s) == Lexed(Word(s[..k]), k)
  {
  }

  /** Every term found in a clause the lexer accepts is three of its tokens, unless a quoted text holds one. */
  lemma {:induction false} HitIsTokens(s: string, ts: seq<Tok>, atStart: bool, b: nat, t: Term) returns (k: nat)
    requires Lex(s) == Some(ts) && NoTermQuoted(ts) && FieldName(t.field) && Hit(s, atStart, b, t)
    ensures TermAtToken(ts, k, t)
    decreases |s|
  {
    hide TermAt, LexOne, FieldName, NoTermQuoted;
    assert s[0..] == s;
    k := 0;
    if b == 0 {
      TermIsHead(s, ts);
    } else {
      match LexOne(s) {
        case Blank =>
          HitMovesOn(s, atStart, b, t, 1);
          k := HitIsTokens(s[1..], ts, true, b - 1, t);
        case Lexed(tok, n) =>
          LexToken(s, ts, tok, n);
          FewerQuoted(ts);
          if b < n {
            NoTermInside(s, tok, n, b);
            assert false;
          }
          HitMovesOn(s, atStart, b, t, n);
          var j := HitIsTokens(s[n..], ts[1..], true, b - n, t);
          assert ts[1..][j] == ts[j + 1] && ts[1..][j + 1] == ts[j + 2] && ts[1..][j + 2] == ts[j + 3];
          k := j + 1;
        case Stray =>
          assert false;
      }
    }
  }

  lemma HitMovesOn(s: string, atStart: bool, b: nat, t: Term, n: nat)
    requires Hit(s, atStart, b, t) && 0 < n <= b
    ensures Hit(s[n..], true, b - n, t)
  {
    assert s[n..][b - n..] == s[b..];
    assert b > n ==> s[n..][b - n - 1] == s[b - 1];
  }

  lemma FewerQuoted(ts: seq<Tok>)
    requires NoTermQuoted(ts) && ts != []
    ensures NoTermQuoted(ts[1..]) && (ts[0].StrTok? ==> TermFree(ts[0].text))
  {
  }

  /** No term starts inside a token. */
  lemma NoTermInside(s: string, tok: Tok, n: nat, b: nat)
    requires s != "" && LexOne(s) == Lexed(tok, n) && 0 < b < n
    requires tok.StrTok? ==> TermFree(tok.text)
    ensures Opens(s[b - 1]) ==> TermAt(s[b..]).None?
  {
    hide TermAt, LexOne;
    if tok.StrTok? {
      QuotedAt(s, tok, n);
      if Opens(s[b - 1]) && TermAt(s[b..]).Some? {
        assert b > 1 && s[b - 1] == tok.text[b - 2];
        assert forall i :: 0 <= i < n - 1 - b ==> s[b..][i] == tok.text[b - 1 + i];
        assert s[b..][..n - 1 - b + 1] == tok.text[b - 1..] + ['"'];
        TermBeforeQuote(s[b..], n - 1 - b);
        assert false;
      }
    } else {
      NoOpeningInside(s, tok, n, b - 1);
    }
  }

  /** A term that starts before the first quote ends before it, and is found without what follows the quote. */
  lemma TermBeforeQuote(u: string, quote: nat)
    requires TermAt(u).Some? && quote < |u| && u[quote] == '"' && forall i :: 0 <= i < quote ==> u[i] != '"'
    ensures TermAt(u[..quote + 1]).Some?
  {
    hide *;
    var q, m := TermParts(u);
    var k, v := NameRun(u), u[..quote + 1];
    QuoteIsNoPart(u, q, quote);
    NameRunCut(u, quote);
    GapRunCut(u[k..], quote - k);
    GapRunCut(u[q + 1..], quote - q - 1);
    CutSlices(u, quote, k);
    CutSlices(u, quote, q + 1);
    CutSlices(u, quote, m);
    MeBeforeQuote(u[..k], u[m..], quote - m);
    TermFrom(v, k, q, m);
  }

  lemma CutSlices(u: string, quote: nat, i: nat)
    requires i <= quote < |u|
    ensures u[i..][..quote - i + 1] == u[..quote + 1][i..] && u[..quote + 1][..i] == u[..i]
    ensures |u[i..]| == |u| - i && u[i..][quote - i] == u[quote]
    ensures forall j :: 0 <= j < quote - i ==> u[i..][j] == u[i + j]
  {
  }

  lemma TermFrom(v: string, k: nat, q: nat, m: nat)
    requires 0 < k == NameRun(v) <= |v| && q == k + GapRun(v[k..]) < |v| && v[q] == '='
    requires m == q + 1 + GapRun(v[q + 1..]) <= |v| && MeAt(v[..k], v[m..]).Some?
    ensures TermAt(v).Some?
  {
    hide NameRun, GapRun, MeAt;
  }

  lemma NameRunCut(u: string, quote: nat)
    requires quote < |u| && u[quote] == '"'
    ensures NameRun(u) <= quote && NameRun(u[..quote + 1]) == NameRun(u)
  {
    assert NameRun(u) > quote ==> IsLetterOrDigit(u[quote]);
    LettersStop(u[..quote + 1], NameRun(u));
  }

  lemma {:induction false} GapRunCut(u: string, quote: nat)
    requires quote < |u| && u[quote] == '"'
    ensures GapRun(u) <= quote && GapRun(u[..quote + 1]) == GapRun(u)
  {
    if quote > 0 {
      GapRunCut(u[1..], quote - 1);
      assert u[..quote + 1][1..] == u[1..][..quote];
    }
  }

  lemma MeBeforeQuote(field: string, s: string, quote: nat)
    requires MeAt(field, s).Some? && quote < |s| && s[quote] == '"' && forall i :: 0 <= i < quote ==> s[i] != '"'
    ensures MeAt(field, s[..quote + 1]).Some?
  {
    hide NameRun;
    var v := s[..quote + 1];
    var tail := s[3..];
    assert quote >= 3 && StartsWithMe(v);
    assert v[3..] == tail[..quote - 2];
    if tail[0] == '.' {
      assert quote > 3;
      NameRunCut(tail[1..], quote - 4);
      assert tail[1..][..quote - 3] == v[3..][1..];
      var n := NameRun(tail[1..]);
      assert tail[1 + n..][0] == tail[1 + n] && v[3..][1 + n] == tail[1 + n];
    }
  }

  /** The equals sign of a term comes before any quote. */
  lemma QuoteIsNoPart(u: string, q: nat, quote: nat)
    requires NameRun(u) <= q < |u| && u[q] == '=' && quote < |u| && u[quote] == '"'
    requires forall i :: NameRun(u) <= i < q ==> IsGap(u[i])
    ensures q < quote
  {
  }

  lemma QuotedAt(s: string, tok: Tok, n: nat)
    requires s != "" && LexOne(s) == Lexed(tok, n) && tok.StrTok?
    ensures n == |tok.text| + 2 <= |s| && s[0] == s[n - 1] == '"' && s[1..n - 1] == tok.text && '"' !in tok.text
  {
  }

  /** Words, numbers and marks hold no white space, and a parenthesis only as their end. */
  lemma NoOpeningInside(s: string, tok: Tok, n: nat, i: nat)
    requires s != "" && LexOne(s) == Lexed(tok, n) && !tok.StrTok? && i < n - 1
    ensures !Opens(s[i])
  {
    if i > 0 && tok.NumTok? {
      assert s[1..][i - 1] == s[i];
    }
  }

  // ---- what a clause's equals signs compare -----------------------------------------------------

  predicate HasNot(n: Node) {
    match n
    case Not(_) => true
    case And(l, r) => HasNot(l) || HasNot(r)
    case Or(l, r) => HasNot(l) || HasNot(r)
    case _ => false
  }

  predicate HasOr(n: Node) {
    match n
    case Or(_, _) => true
    case And(l, r) => HasOr(l) || HasOr(r)
    case Not(inner) => HasOr(inner)
    case _ => false
  }

  /** A conjunction of comparisons, nested or not. */
  predicate Conjunctive(n: Node) {
    !HasNot(n) && !HasOr(n)
  }

  predicate Conjunct(n: Node, leaf: Node) {
    if n.And? then Conjunct(n.left, leaf) || Conjunct(n.right, leaf) else n == leaf
  }

  /** What a parser leaves is the end of what it was given. */
  predicate EndOf(rest: seq<Tok>, ts: seq<Tok>) {
    |rest| <= |ts| && rest == ts[|ts| - |rest|..]
  }

  /** The equals sign at k compares two operands, and the comparison is a conjunct of the tree. */
  ghost predicate Compares(ts: seq<Tok>, k: nat, n: Node) {
    && 0 < k < |ts| - 1 && OperandOf(ts[k - 1]).Some? && OperandOf(ts[k + 1]).Some?
    && Conjunct(n, Cmp(OperandOf(ts[k - 1]).value, "=", OperandOf(ts[k + 1]).value))
  }

  lemma ComparesLater(ts: seq<Tok>, i: nat, k: nat, n: Node, m: Node)
    requires i <= k && i <= |ts| && Compares(ts[i..], k - i, n)
    requires forall leaf :: Conjunct(n, leaf) ==> Conjunct(m, leaf)
    ensures Compares(ts, k, m)
  {
    assert ts[i..][k - i - 1] == ts[k - 1] && ts[i..][k - i + 1] == ts[k + 1];
  }

  /** In-lists take operands and commas only. */
  lemma {:induction false} ListTakes(ts: seq<Tok>, acc: seq<Operand>, k: nat)
    requires ParseList(ts, acc).Some?
    ensures EndOf(ParseList(ts, acc).value.1, ts)
    ensures k < |ts| - |ParseList(ts, acc).value.1| ==> ts[k] != Punct("=")
    decreases |ts|
  {
    hide ParseOperand;
    MarksDiffer();
    if !Starts(ts, LIST_END) {
      OperandTakes(ts);
      var rest := ts[1..];
      var more := if Starts(rest, COMMA) then rest[1..] else rest;
      var n := |ts| - |more|;
      assert more == ts[n..];
      ListTakes(more, acc + [ParseOperand(ts).value.0], if k >= n then k - n else 0);
      assert EndOf(ParseList(more, acc + [ParseOperand(ts).value.0]).value.1, ts[n..]);
    }
  }

  lemma MarksDiffer()
    ensures LIST_END != Punct("=") && COMMA != Punct("=") && OPEN != Punct("=") && CLOSE != Punct("=")
      && LIST_START != Punct("=")
  {
    assert "("[0] != "="[0] && ")"[0] != "="[0] && "["[0] != "="[0] && "]"[0] != "="[0] && ","[0] != "="[0];
  }

  lemma OperandTakes(ts: seq<Tok>)
    requires ParseOperand(ts).Some?
    ensures ts != [] && !ts[0].Punct? && OperandOf(ts[0]) == Some(ParseOperand(ts).value.0)
      && ParseOperand(ts).value.1 == ts[1..]
  {
  }

  lemma ComparisonTakes(ts: seq<Tok>, k: nat)
    requires ParseComparison(ts).Some?
    ensures var (n, rest) := ParseComparison(ts).value;
      EndOf(rest, ts) && !n.And? && !n.Or? && !n.Not?
        && (k < |ts| - |rest| && ts[k] == Punct("=") ==> Compares(ts, k, n))
  {
    hide ParseOperand, ParseList;
    OperandTakes(ts);
    var rest := ts[1..];
    MarksDiffer();
    if Starts(rest, Word("in")) {
      assert rest[1..] == ts[2..] && rest[2..] == ts[3..] && ts[2] == LIST_START;
      ListTakes(ts[3..], [], if k >= 3 then k - 3 else 0);
    } else if rest != [] && rest[0].Punct? && IsCmpOp(rest[0].text) {
      assert rest[1..] == ts[2..];
      OperandTakes(ts[2..]);
      assert ts[2..][1..] == ts[3..];
    }
  }

  lemma {:induction false} UnaryTakes(ts: seq<Tok>, k: nat)
    requires ParseUnary(ts).Some? && Conjunctive(ParseUnary(ts).value.0)
    ensures var (n, rest) := ParseUnary(ts).value;
      EndOf(rest, ts) && (k < |ts| - |rest| && ts[k] == Punct("=") ==> Compares(ts, k, n))
    decreases |ts|, 0
  {
    hide ParseComparison, ParseOr, Compares, HasNot, HasOr;
    MarksDiffer();
    if Starts(ts, Word("not")) {
      NotHasNot(ParseUnary(ts).value.0);
    } else if Starts(ts, OPEN) {
      OrTakes(ts[1..], if k > 0 then k - 1 else 0);
      var (n, rest) := ParseOr(ts[1..]).value;
      assert rest[1..] == ts[|ts| - |rest| + 1..];
      if 0 < k < |ts| - |rest| && ts[k] == Punct("=") {
        assert ts[1..][k - 1] == ts[k];
        ComparesLater(ts, 1, k, n, n);
      }
      assert ts[|ts| - |rest|] == CLOSE;
    } else {
      ComparisonTakes(ts, k);
    }
  }

  lemma NotHasNot(n: Node)
    requires n.Not?
    ensures HasNot(n)
  {
  }

  lemma AndParts(l: Node, r: Node)
    ensures Conjunctive(And(l, r)) <==> Conjunctive(l) && Conjunctive(r)
    ensures forall leaf :: Conjunct(And(l, r), leaf) <==> Conjunct(l, leaf) || Conjunct(r, leaf)
  {
  }

  lemma {:induction false} AndTailTakes(left: Node, ts: seq<Tok>, k: nat)
    requires AndTail(left, ts).Some? && Conjunctive(AndTail(left, ts).value.0)
    ensures var (n, rest) := AndTail(left, ts).value;
      && EndOf(rest, ts) && Conjunctive(left) && (forall leaf :: Conjunct(left, leaf) ==> Conjunct(n, leaf))
      && (k < |ts| - |rest| && ts[k] == Punct("=") ==> Compares(ts, k, n))
    decreases |ts|, 0
  {
    hide ParseUnary, Compares, Conjunctive, Conjunct;
    if Starts(ts, Word("and")) {
      var (right, after) := ParseUnary(ts[1..]).value;
      var (n, rest) := AndTail(left, ts).value;
      var i := |ts| - |after|;
      AndTailTakes(And(left, right), after, if k >= i then k - i else 0);
      AndParts(left, right);
      UnaryTakes(ts[1..], if k > 0 then k - 1 else 0);
      hide AndTail;
      TailCompares(ts, k, right, after, n, rest);
    }
  }

  /** An equals sign after an "and" is one of the right side, or of what follows it. */
  lemma TailCompares(ts: seq<Tok>, k: nat, right: Node, after: seq<Tok>, n: Node, rest: seq<Tok>)
    requires Starts(ts, Word("and")) && EndOf(after, ts[1..]) && EndOf(rest, after)
    requires forall leaf :: Conjunct(right, leaf) ==> Conjunct(n, leaf)
    requires 0 < k < |ts| - |after| && ts[1..][k - 1] == Punct("=") ==> Compares(ts[1..], k - 1, right)
    requires |ts| - |after| <= k < |ts| - |rest| && after[k - |ts| + |after|] == Punct("=") ==>
      Compares(after, k - |ts| + |after|, n)
    ensures EndOf(rest, ts) && (k < |ts| - |rest| && ts[k] == Punct("=") ==> Compares(ts, k, n))
  {
    hide Compares, Conjunct;
    var i := |ts| - |after|;
    assert after == ts[i..];
    if k < |ts| - |rest| && ts[k] == Punct("=") {
      if k < i {
        ComparesLater(ts, 1, k, right, n);
      } else {
        ComparesLater(ts, i, k, n, n);
      }
    }
  }

  lemma {:induction false} OrTailIsOr(left: Node, ts: seq<Tok>)
    requires OrTail(left, ts).Some? && left.Or?
    ensures OrTail(left, ts).value.0.Or?
    decreases |ts|
  {
    hide ParseAnd;
    if Starts(ts, Word("or")) {
      OrTailIsOr(Or(left, ParseAnd(ts[1..]).value.0), ParseAnd(ts[1..]).value.1);
    }
  }

  lemma {:induction false} OrTakes(ts: seq<Tok>, k: nat)
    requires ParseOr(ts).Some? && Conjunctive(ParseOr(ts).value.0)
    ensures var (n, rest) := ParseOr(ts).value;
      EndOf(rest, ts) && (k < |ts| - |rest| && ts[k] == Punct("=") ==> Compares(ts, k, n))
    decreases |ts|, 2
  {
    hide ParseUnary, AndTail, Compares;
    var (left, after) := ParseAnd(ts).value;
    if Starts(after, Word("or")) {
      OrTailIsOr(Or(left, ParseAnd(after[1..]).value.0), ParseAnd(after[1..]).value.1);
      assert false;
    }
    AndTakes(ts, k);
  }

  lemma {:induction false} AndTakes(ts: seq<Tok>, k: nat)
    requires ParseAnd(ts).Some? && Conjunctive(ParseAnd(ts).value.0)
    ensures var (n, rest) := ParseAnd(ts).value;
      EndOf(rest, ts) && (k < |ts| - |rest| && ts[k] == Punct("=") ==> Compares(ts, k, n))
    decreases |ts|, 1
  {
    hide ParseUnary, AndTail, Compares, Conjunctive, Conjunct;
    var (left, after) := ParseUnary(ts).value;
    var (n, rest) := ParseAnd(ts).value;
    var i := |ts| - |after|;
    AndTailTakes(left, after, if k >= i then k - i else 0);
    UnaryTakes(ts, k);
    assert after == ts[i..];
    if k < |ts| - |rest| && ts[k] == Punct("=") {
      if k < i {
        assert ts[0..] == ts;
        ComparesLater(ts, 0, k, left, n);
      } else {
        assert after[k - i] == ts[k];
        ComparesLater(ts, i, k, n, n);
      }
    }
  }

  // ---- clauses an index may serve ---------------------------------------------------------

  lemma {:induction false} ConjunctHolds(n: Node, leaf: Node, c: Ctx)
    requires Conjunct(n, leaf) && Eval(n, c) == Known(true)
    ensures Eval(leaf, c) == Known(true)
  {
    if n.And? {
      if Conjunct(n.left, leaf) {
        ConjunctHolds(n.left, leaf, c);
      } else {
        ConjunctHolds(n.right, leaf, c);
      }
    }
  }

  /** What a term compares its field with. */
  function MeValue(t: Term, actorId: string, attrs: Fields): Value {
    if t.attr.None? then Str(actorId) else Get(attrs, t.attr.value)
  }

  lemma MeLiteral(t: Term, c: Ctx)
    ensures var text := MeText(t.attr);
      && OperandOf(Word(text)) == Some(Lit(text))
      && Resolve(Lit(text), c) == Some(MeValue(t, c.actorId, c.attrs)) && !IsNullLit(Lit(text))
  {
    var text := MeText(t.attr);
    assert text[0] == '$' && text[1] == 'm' && text[2] == 'e';
    if t.attr.Some? {
      assert text[3] == '.' && text[4..] == t.attr.value;
    }
  }

  /** A clause the compiler may store: trimmed, and if it parses at all, a condition without not, whose
      disjunctions show in the text and whose quoted texts hold no term, over named fields. */
  predicate PlainClause(where: string) {
    && TrimSpace(where) == where
    && (forall t <- ScopeTerms(where) :: FieldName(t.field))
    && (ParseText(where).Some? ==>
          && !HasNot(ParseText(where).value)
          && (HasOr(ParseText(where).value) ==> HasPart(Collapse(where), " or "))
          && NoTermQuoted(Lex(Collapse(where)).value))
  }

  /** The values a term's field may hold: anything but objects, and no number where the actor's is an object;
      comparing those looks at their amounts. */
  predicate Comparable(x: Value, me: Value) {
    !x.Obj? && (x.Num? ==> !me.Obj?)
  }

  /** In a plain clause that shows no disjunction, every term the pattern finds is necessary for the clause to
      hold, for a record that has the term's field. */
  lemma TermIsNecessary(where: string, c: Ctx, t: Term)
    requires PlainClause(where) && !HasPart(Collapse(where), " or ") && t in ScopeTerms(where)
    requires t.field in c.values && Comparable(c.values[t.field], MeValue(t, c.actorId, c.attrs))
    requires where != "" && EvalWhere(where, c) == Known(true)
    ensures c.values[t.field] == MeValue(t, c.actorId, c.attrs)
  {
    hide Eval, ScopeTerms, HasPart, HasNot, HasOr, FieldName, ParseOr, NoTermQuoted, Terms, TermAt, Collapse, Lex,
      MeText, Conjunct;
    var n := ParseText(where).value;
    var ts := Lex(Collapse(where)).value;
    var k := TermComparison(where, ts, n, t);
    MeLiteral(t, c);
    FieldIsPath(t.field);
    ConjunctHolds(n, Cmp(Path(t.field), "=", Lit(MeText(t.attr))), c);
    ComparedEqual(t, c);
  }

  lemma FieldIsPath(field: string)
    requires FieldName(field)
    ensures OperandOf(Word(field)) == Some(Path(field)) && '.' !in field && PlainWord(field)
  {
  }

  /** The comparison a term was found in. */
  lemma TermComparison(where: string, ts: seq<Tok>, n: Node, t: Term) returns (k: nat)
    requires Lex(Collapse(where)) == Some(ts) && ParseOr(ts) == Some((n, [])) && Conjunctive(n) && NoTermQuoted(ts)
    requires t in ScopeTerms(where) && FieldName(t.field)
    ensures Conjunct(n, Cmp(Path(t.field), "=", Lit(MeText(t.attr))))
  {
    hide Conjunctive, ParseOr, Lex, Hit, Terms, TermAt, MeText, Collapse, NoTermQuoted, Conjunct, FieldName,
      OperandOf;
    var b := TermsHit(Collapse(where), true, t);
    k := HitIsTokens(Collapse(where), ts, true, b, t);
    OrTakes(ts, k + 1);
    FieldIsPath(t.field);
    var c: Ctx :| true;
    MeLiteral(t, c);
  }

  lemma ComparedEqual(t: Term, c: Ctx)
    requires '.' !in t.field && t.field in c.values && Comparable(c.values[t.field], MeValue(t, c.actorId, c.attrs))
    requires Resolve(Lit(MeText(t.attr)), c) == Some(MeValue(t, c.actorId, c.attrs)) && !IsNullLit(Lit(MeText(t.attr)))
    requires Eval(Cmp(Path(t.field), "=", Lit(MeText(t.attr))), c) == Known(true)
    ensures c.values[t.field] == MeValue(t, c.actorId, c.attrs)
  {
    hide MeText, LitValue;
  }

  // ---- disjunctions are recognised ------------------------------------------------------------

  predicate HasPart(s: string, part: string) {
    exists i :: 0 <= i <= |s| - |part| && s[i..][..|part|] == part
  }

  lemma {:induction false} TextConcat(a: seq<Tok>, b: seq<Tok>)
    requires a != [] && b != []
    ensures Text(a + b) == Text(a) + [' '] + Text(b)
  {
    if |a| == 1 {
      assert (a + b)[1..] == b;
    } else {
      assert (a + b)[1..] == a[1..] + b;
      TextConcat(a[1..], b);
    }
  }

  lemma OrJoins(a: seq<Tok>, b: seq<Tok>)
    requires a != [] && b != []
    ensures HasPart(Text(a + [Word("or")] + b), " or ")
  {
    TextConcat(a, [Word("or")]);
    TextConcat(a + [Word("or")], b);
    var s := Text(a + [Word("or")] + b);
    assert Text([Word("or")]) == "or";
    assert s == Text(a) + [' '] + "or" + [' '] + Text(b);
    assert s[|Text(a)|..][..4] == " or ";
  }


  // What each parser function leaves, whatever the tree.

  lemma ComparisonEnd(ts: seq<Tok>)
    requires ParseComparison(ts).Some?
    ensures EndOf(ParseComparison(ts).value.1, ts) && !HasOr(ParseComparison(ts).value.0)
  {
    ComparisonTakes(ts, 0);
    hide ParseComparison;
  }

  lemma {:induction false} UnaryEnd(ts: seq<Tok>)
    requires ParseUnary(ts).Some?
    ensures EndOf(ParseUnary(ts).value.1, ts)
    decreases |ts|, 0
  {
    hide ParseComparison, ParseOr;
    if Starts(ts, Word("not")) {
      UnaryEnd(ts[1..]);
    } else if Starts(ts, OPEN) {
      OrEnd(ts[1..]);
    } else {
      ComparisonEnd(ts);
    }
  }

  lemma {:induction false} AndTailEnd(left: Node, ts: seq<Tok>)
    requires AndTail(left, ts).Some?
    ensures EndOf(AndTail(left, ts).value.1, ts)
    decreases |ts|, 0
  {
    hide ParseUnary;
    if Starts(ts, Word("and")) {
      var (right, after) := ParseUnary(ts[1..]).value;
      UnaryEnd(ts[1..]);
      AndTailEnd(And(left, right), after);
    }
  }

  lemma {:induction false} AndEnd(ts: seq<Tok>)
    requires ParseAnd(ts).Some?
    ensures EndOf(ParseAnd(ts).value.1, ts)
    decreases |ts|, 1
  {
    hide ParseUnary, AndTail;
    UnaryEnd(ts);
    AndTailEnd(ParseUnary(ts).value.0, ParseUnary(ts).value.1);
  }

  lemma {:induction false} OrTailEnd(left: Node, ts: seq<Tok>)
    requires OrTail(left, ts).Some?
    ensures EndOf(OrTail(left, ts).value.1, ts)
    decreases |ts|, 0
  {
    hide ParseAnd;
    if Starts(ts, Word("or")) {
      var (right, after) := ParseAnd(ts[1..]).value;
      AndEnd(ts[1..]);
      OrTailEnd(Or(left, right), after);
    }
  }

  lemma {:induction false} OrEnd(ts: seq<Tok>)
    requires ParseOr(ts).Some?
    ensures EndOf(ParseOr(ts).value.1, ts)
    decreases |ts|, 2
  {
    hide ParseAnd, OrTail;
    AndEnd(ts);
    OrTailEnd(ParseAnd(ts).value.0, ParseAnd(ts).value.1);
  }

  /** The word "or" at k, with tokens of the same expression on both sides. */
  predicate OrInside(ts: seq<Tok>, k: nat, rest: seq<Tok>) {
    0 < k < |ts| - |rest| - 1 && ts[k] == Word("or")
  }

  lemma {:induction false} UnaryOrWord(ts: seq<Tok>) returns (k: nat)
    requires ParseUnary(ts).Some? && HasOr(ParseUnary(ts).value.0)
    ensures OrInside(ts, k, ParseUnary(ts).value.1)
    decreases |ts|, 0
  {
    hide ParseComparison, ParseOr;
    k := 0;
    if Starts(ts, Word("not")) {
      var j := UnaryOrWord(ts[1..]);
      k := j + 1;
    } else if Starts(ts, OPEN) {
      var j := OrWord(ts[1..]);
      k := j + 1;
    } else {
      ComparisonEnd(ts);
    }
  }

  lemma {:induction false} AndTailOrWord(left: Node, ts: seq<Tok>) returns (k: nat)
    requires AndTail(left, ts).Some? && HasOr(AndTail(left, ts).value.0) && !HasOr(left)
    ensures OrInside(ts, k, AndTail(left, ts).value.1)
    decreases |ts|, 0
  {
    hide ParseUnary;
    var (right, after) := ParseUnary(ts[1..]).value;
    UnaryEnd(ts[1..]);
    if HasOr(right) {
      var j := UnaryOrWord(ts[1..]);
      k := j + 1;
    } else {
      var j := AndTailOrWord(And(left, right), after);
      k := j + |ts| - |after|;
    }
  }

  lemma {:induction false} AndOrWord(ts: seq<Tok>) returns (k: nat)
    requires ParseAnd(ts).Some? && HasOr(ParseAnd(ts).value.0)
    ensures OrInside(ts, k, ParseAnd(ts).value.1)
    decreases |ts|, 1
  {
    hide ParseUnary, AndTail;
    var (left, after) := ParseUnary(ts).value;
    UnaryEnd(ts);
    if HasOr(left) {
      k := UnaryOrWord(ts);
    } else {
      var j := AndTailOrWord(left, after);
      k := j + |ts| - |after|;
    }
  }

  /** The tree of a disjunction comes from a token list with the word inside. */
  lemma {:induction false} OrWord(ts: seq<Tok>) returns (k: nat)
    requires ParseOr(ts).Some? && HasOr(ParseOr(ts).value.0)
    ensures OrInside(ts, k, ParseOr(ts).value.1)
    decreases |ts|, 2
  {
    hide ParseAnd, OrTail;
    var (left, after) := ParseAnd(ts).value;
    AndEnd(ts);
    if Starts(after, Word("or")) {
      OrTailTakes(left, after);
      k := |ts| - |after|;
    } else {
      OrTailStops(left, after);
      k := AndOrWord(ts);
    }
  }

  lemma OrTailStops(left: Node, ts: seq<Tok>)
    requires !Starts(ts, Word("or"))
    ensures OrTail(left, ts) == Some((left, ts))
  {
  }

  lemma OrTailTakes(left: Node, ts: seq<Tok>)
    requires OrTail(left, ts).Some? && Starts(ts, Word("or"))
    ensures |OrTail(left, ts).value.1| < |ts| - 1
  {
  }

  /** A clause spelled with single blanks between its tokens shows its disjunctions. */
  lemma OrIsSeen(where: string, ts: seq<Tok>)
    requires Collapse(where) == Text(ts) && ParseOr(ts).Some? && ParseOr(ts).value.1 == [] && HasOr(ParseOr(ts).value.0)
    ensures HasPart(Collapse(where), " or ")
  {
    hide ParseOr, HasPart, Collapse, HasOr, Text;
    var k := OrWord(ts);
    assert ts == ts[..k] + [Word("or")] + ts[k + 1..];
    OrJoins(ts[..k], ts[k + 1..]);
  }

  // ---- clauses as the compiler stores them ---------------------------------------------------------

  /** Any clause that is, blanks at dots aside, a printed condition without not is plain, when its
      quoted texts hold no term and its terms are over named fields. */
  lemma PrintedClauseIsPlain(where: string, n: Node)
    requires NodeOk(n) && !HasNot(n) && TrimSpace(where) == where && Collapse(where) == Print(n)
    requires NoTermQuoted(Toks(n, OrLevel)) && forall t <- ScopeTerms(where) :: FieldName(t.field)
    ensures PlainClause(where) && ParseText(where) == Some(n)
  {
    hide NodeOk, HasNot, HasOr, HasPart, ParseOr, Lex, Toks, Text, Collapse, ScopeTerms, FieldName, NoTermQuoted,
      TrimSpace;
    PrintParses(n);
    if HasOr(n) {
      OrIsSeen(where, Toks(n, OrLevel));
    }
  }

  /** The attribute clause of a pack, with the blanks the definition language's lexer puts around the dot. */
  function CompiledAttributeClause(field: string, attr: string): string {
    field + ([' '] + ("=" + ([' '] + ("$me" + (" . " + attr)))))
  }

  predicate Letters(s: string) {
    s != "" && !('0' <= s[0] <= '9')
    && forall ch <- s :: 'a' <= ch <= 'z' || 'A' <= ch <= 'Z' || '0' <= ch <= '9' || ch == '_'
  }

  function MeNode(field: string, attr: Option<string>): Node {
    Cmp(Path(field), "=", Lit(MeText(attr)))
  }

  /** Plain names on both sides. */
  predicate Named(field: string, attr: Option<string>) {
    Letters(field) && !WordLiteral(field) && !Reserved(field) && (attr.Some? ==> Letters(attr.value))
  }

  lemma AttributeClauseCollapses(field: string, attr: string)
    requires Letters(field) && Letters(attr)
    ensures Collapse(CompiledAttributeClause(field, attr)) == MeClause(field, Some(attr))
  {
    var mid := " = $me";
    var head := field + mid;
    Regrouped(field, mid, attr);
    HeadOfClause(field, mid);
    hide CompiledAttributeClause, Collapse, Letters, NoGapsAtDots;
    CollapseTight(head);
    CollapseAfter(head, " . " + attr);
    DotInBlanks(attr);
  }

  lemma Regrouped(field: string, mid: string, attr: string)
    requires mid == " = $me"
    ensures CompiledAttributeClause(field, attr) == (field + mid) + (" . " + attr)
    ensures field + ([' '] + ("=" + ([' '] + ("$me." + attr)))) == (field + mid) + ("." + attr)
  {
    assert [' '] + ("=" + ([' '] + ("$me" + (" . " + attr)))) == mid + (" . " + attr);
    assert [' '] + ("=" + ([' '] + ("$me." + attr))) == mid + ("." + attr);
    Assoc(field, mid, " . " + attr);
    Assoc(field, mid, "." + attr);
  }

  lemma HeadOfClause(field: string, mid: string)
    requires Letters(field) && mid == " = $me"
    ensures NoGapsAtDots(field + mid) && field + mid != "" && Firm((field + mid)[|field + mid| - 1])
  {
    var head := field + mid;
    forall i | 0 <= i < |head| ensures head[i] != '.' {
      assert i < |field| ==> head[i] == field[i] && field[i] in field;
      assert i >= |field| ==> head[i] == mid[i - |field|];
    }
    assert head[|head| - 1] == mid[5];
  }

  lemma DotInBlanks(attr: string)
    requires Letters(attr)
    ensures Collapse(" . " + attr) == "." + attr
  {
    hide Collapse, GapRun, Letters;
    var s := " . " + attr;
    NoDotInside(attr);
    OneBlank(attr);
    OneBlank(". " + attr);
    assert s == [' '] + (". " + attr) && s[1] == '.';
    PastIs(s, attr);
    CollapseStep(s);
  }

  lemma NoDotInside(attr: string)
    requires Letters(attr)
    ensures Collapse(attr) == attr && attr != "" && !IsGap(attr[0])
  {
    assert attr[0] in attr && forall i :: 0 <= i < |attr| ==> attr[i] in attr;
    CollapseTight(attr);
  }

  lemma PastIs(s: string, attr: string)
    requires |s| == 3 + |attr| && s[1] == '.' && s[2] == ' ' && s[3..] == attr && GapRun(s) == 1
      && GapRun([' '] + attr) == 1
    ensures DotAhead(s) && PastDot(s) == attr
  {
    hide GapRun;
    assert s[2..] == [' '] + attr && ([' '] + attr)[1..] == attr;
  }

  /** The text of a comparison with the actor. */
  function MeClause(field: string, attr: Option<string>): string {
    field + ([' '] + ("=" + ([' '] + MeText(attr))))
  }

  /** The actor's literal is one word. */
  lemma MeIsPlain(attr: Option<string>)
    requires attr.Some? ==> Letters(attr.value)
    ensures var me := MeText(attr); PlainWord(me) && TightDots(me) && WordLiteral(me) && '"' !in me
  {
    var me := MeText(attr);
    assert me[0] == '$' && me[1] == 'm' && me[2] == 'e';
    if attr.Some? {
      var name := attr.value;
      assert me[3] == '.' && me[4..] == name && name[0] in name && me[4] == name[0];
      forall i | 0 <= i < |me| ensures WordOrDot(me[i]) && me[i] != '"' && (i != 3 ==> me[i] != '.') {
        if i >= 4 {
          assert me[i] == name[i - 4] && name[i - 4] in name;
        }
      }
    }
  }

  lemma FieldIsPlain(field: string)
    requires Letters(field)
    ensures PlainWord(field) && TightDots(field) && '.' !in field
  {
    assert field[0] in field && forall ch <- field :: WordOrDot(ch) && ch != '.';
    assert forall i :: 0 <= i < |field| ==> field[i] in field;
  }

  /** A comparison with the actor, and its negation, are printed as their clauses. */
  lemma MeClausePrints(field: string, attr: Option<string>)
    requires Named(field, attr)
    ensures var n := MeNode(field, attr);
      && NodeOk(n) && NodeOk(Not(n)) && !HasNot(n)
      && Toks(n, OrLevel) == [Word(field), Punct("="), Word(MeText(attr))]
      && Toks(Not(n), OrLevel) == [Word("not"), Word(field), Punct("="), Word(MeText(attr))]
      && Print(n) == MeClause(field, attr) && Print(Not(n)) == "not" + ([' '] + MeClause(field, attr))
  {
    MeIsPlain(attr);
    FieldIsPlain(field);
    var me := MeText(attr);
    hide MeText, PlainWord, TightDots, WordLiteral, Letters;
    var ts := [Word(field), Punct("="), Word(me)];
    TextOfMore(Punct("="), [Word(me)]);
    TextOfMore(Word(field), [Punct("="), Word(me)]);
    TextOfMore(Word("not"), ts);
    assert [Punct("=")] + [Word(me)] == [Punct("="), Word(me)] && [Word(field)] + [Punct("="), Word(me)] == ts;
    assert [Word("not")] + ts == [Word("not"), Word(field), Punct("="), Word(me)];
  }

  /** Such a text has one term. */
  lemma OwnTerm(field: string, attr: Option<string>)
    requires Letters(field) && (attr.Some? ==> Letters(attr.value))
    ensures TermAt(MeClause(field, attr)) == Some(Found(Term(field, attr), |MeClause(field, attr)|))
    ensures Terms(MeClause(field, attr), true) == [Term(field, attr)]
  {
    var me := MeText(attr);
    var eq := "=" + ([' '] + me);
    var s := field + ([' '] + eq);
    assert me[0] == '$';
    assert forall i :: 0 <= i < |field| ==> s[i] == field[i] && field[i] in field;
    assert s[|field|] == ' ';
    LettersStop(s, |field|);
    OneBlank(eq);
    OneBlank(me);
    MeAlone(field, attr);
    hide MeAt, NameRun, GapRun, Letters, MeText;
    assert s[..|field|] == field && s[|field|..] == [' '] + eq;
    assert s[|field| + 1] == eq[0] && s[|field| + 2..] == [' '] + me && s[|field| + 3..] == me;
    OneTerm(s, field, attr, me);
  }

  lemma OneTerm(s: string, field: string, attr: Option<string>, me: string)
    requires field != "" && |s| == |field| + 3 + |me| && NameRun(s) == |field| && s[..|field|] == field
    requires GapRun(s[|field|..]) == 1 && s[|field| + 1] == '='
    requires GapRun(s[|field| + 2..]) == 1 && s[|field| + 3..] == me
    requires MeAt(field, me) == Some(Found(Term(field, attr), |me|))
    ensures TermAt(s) == Some(Found(Term(field, attr), |s|)) && Terms(s, true) == [Term(field, attr)]
  {
    hide MeAt, NameRun, GapRun;
    assert TermAt(s) == Some(Found(Term(field, attr), |s|));
    hide TermAt;
    assert s[|s|..] == "" && Terms("", false) == [];
    assert [Term(field, attr)] + [] == [Term(field, attr)];
  }

  lemma OneBlank(s: string)
    requires s != "" && !IsGap(s[0])
    ensures GapRun([' '] + s) == 1 && ([' '] + s)[1..] == s
  {
    assert GapRun(s) == 0;
  }

  lemma {:induction false} LettersStop(s: string, k: nat)
    requires k <= |s| && (forall i :: 0 <= i < k ==> IsLetterOrDigit(s[i])) && (k < |s| ==> !IsLetterOrDigit(s[k]))
    ensures NameRun(s) == k
  {
    if k > 0 {
      LettersStop(s[1..], k - 1);
    }
  }

  lemma MeAlone(field: string, attr: Option<string>)
    requires attr.Some? ==> Letters(attr.value)
    ensures MeAt(field, MeText(attr)) == Some(Found(Term(field, attr), |MeText(attr)|))
  {
    var me := MeText(attr);
    var tail := me[3..];
    assert StartsWithMe(me);
    if attr.Some? {
      var name := attr.value;
      assert tail == "." + name && tail[1..] == name && tail[0] == '.';
      forall i | 0 <= i < |name| ensures IsLetterOrDigit(name[i]) {
        assert name[i] in name;
      }
      LettersStop(name, |name|);
      hide NameRun, IsLetterOrDigit;
      assert tail[1..1 + |name|] == name && tail[1 + |name|..] == "";
    }
  }

  /** Behind a not the term is still found. */
  lemma NegatedTerm(field: string, attr: Option<string>, not_: string)
    requires Letters(field) && (attr.Some? ==> Letters(attr.value)) && not_ == "not"
    ensures Terms(not_ + ([' '] + MeClause(field, attr)), true) == [Term(field, attr)]
  {
    hide TermAt, MeClause, Letters, Terms, MeText;
    var u := MeClause(field, attr);
    var s := not_ + ([' '] + u);
    OwnTerm(field, attr);
    NegatedShape(s, not_, u, field, attr);
    NoTermAtNot(s);
    TermsSkip(s[2..]);
    TermsSkip(s[1..]);
    TermsTake(s[3..], u, Term(field, attr));
    TermsSkipFirst(s);
  }

  lemma NegatedShape(s: string, not_: string, u: string, field: string, attr: Option<string>)
    requires Letters(field) && not_ == "not" && u == MeClause(field, attr) && s == not_ + ([' '] + u)
    ensures |s| > 4 && s[..3] == "not" && s[3] == ' ' && IsLetterOrDigit(s[4]) && s[3..] == [' '] + u
    ensures !Opens(s[0]) && !Opens(s[1..][0]) && !Opens(s[2..][0]) && s[1..][1..] == s[2..] && s[2..][1..] == s[3..]
  {
    assert field[0] in field && u[0] == field[0];
    assert s[0] == not_[0] && s[1] == not_[1] && s[2] == not_[2];
  }

  lemma TermsSkipFirst(s: string)
    requires s != "" && !Opens(s[0]) && TermAt(s).None?
    ensures Terms(s, true) == Terms(s[1..], false)
  {
    hide TermAt;
  }

  lemma TermsSkip(s: string)
    requires s != "" && !Opens(s[0])
    ensures Terms(s, false) == Terms(s[1..], false)
  {
  }

  lemma TermsTake(s: string, u: string, t: Term)
    requires s == [' '] + u && TermAt(u) == Some(Found(t, |u|))
    ensures Terms(s, false) == [t]
  {
    hide TermAt;
    assert s[1..] == u && s[0] == ' ' && s[1 + |u|..] == "";
    assert Terms("", false) == [];
    assert Terms(s, false) == [t] + Terms(s[1 + |u|..], false);
  }

  lemma NoTermAtNot(s: string)
    requires |s| > 4 && s[..3] == "not" && s[3] == ' ' && IsLetterOrDigit(s[4])
    ensures TermAt(s).None?
  {
    assert s[0] == s[..3][0] && s[1] == s[..3][1] && s[2] == s[..3][2];
    LettersStop(s, 3);
    var tail := s[3..];
    assert tail[0] == ' ' && tail[1..][0] == s[4];
    assert GapRun(tail[1..]) == 0 && GapRun(tail) == 1;
  }

  /** The clauses show no disjunction: their blanks stand too close together, or a field would be called "or". */
  lemma NoOrInMeClause(field: string, attr: Option<string>)
    requires Named(field, attr)
    ensures !HasPart(MeClause(field, attr), " or ") && !HasPart("not" + ([' '] + MeClause(field, attr)), " or ")
  {
    var u, n := MeClause(field, attr), |field|;
    BlanksOfClause(field, attr);
    hide MeClause, Named;
    forall i | 0 <= i <= |u| - 4 ensures u[i..][..4] != " or " {
      assert u[i..][..4][0] == u[i] && u[i..][..4][3] == u[i + 3];
    }
    NoOrNegated("not" + ([' '] + u), u, n);
  }

  /** A clause has two blanks, around its equals sign. */
  lemma BlanksOfClause(field: string, attr: Option<string>)
    requires Named(field, attr)
    ensures var u, n := MeClause(field, attr), |field|;
      n > 0 && |u| > n + 2 && (forall i :: 0 <= i < |u| ==> (u[i] == ' ' <==> i == n || i == n + 2)) && u[..n] != "or"
  {
    var u, n, me := MeClause(field, attr), |field|, MeText(attr);
    MeIsPlain(attr);
    FieldIsPlain(field);
    NoBlankInWord(field);
    NoBlankInWord(me);
    hide MeText, TightDots, WordLiteral, Letters, PlainWord;
    assert u == field + ([' '] + ("=" + ([' '] + me))) && u[..n] == field;
    forall i | 0 <= i < |u| ensures u[i] == ' ' <==> i == n || i == n + 2 {
      if i < n {
        assert u[i] == field[i];
      } else if i > n + 2 {
        assert u[i] == me[i - n - 3];
      }
    }
  }

  lemma NoBlankInWord(w: string)
    requires PlainWord(w)
    ensures w != "" && forall i :: 0 <= i < |w| ==> w[i] != ' '
  {
    assert forall i :: 0 <= i < |w| ==> w[i] in w;
  }

  lemma NoOrNegated(s: string, u: string, n: nat)
    requires s == "not" + ([' '] + u) && 0 < n < |u| - 2 && u[..n] != "or"
    requires forall i :: 0 <= i < |u| ==> (u[i] == ' ' <==> i == n || i == n + 2)
    ensures !HasPart(s, " or ")
  {
    assert s[0] == 'n' && s[1] == 'o' && s[2] == 't' && s[3] == ' ';
    assert forall i :: 4 <= i < |s| ==> s[i] == u[i - 4];
    assert n == 2 ==> u[..n] == [s[4], s[5]] && (u[..n] == "or" <==> s[4] == 'o' && s[5] == 'r');
    forall i | 0 <= i <= |s| - 4 ensures s[i..][..4] != " or " {
      var w := s[i..][..4];
      assert w[0] == s[i] && w[1] == s[i + 1] && w[2] == s[i + 2] && w[3] == s[i + 3];
    }
  }

  lemma NotSpaced(ts: seq<Tok>)
    requires forall t <- ts :: !t.StrTok?
    ensures CollapseToks(ts) == ts
  {
    if ts != [] {
      NotSpaced(ts[1..]);
    }
  }

  /** What a comparison with the actor, and its negation, are as clauses: printed conditions with one term and
      no disjunction, that collapsing leaves alone. */
  lemma MeClauseIs(field: string, attr: Option<string>)
    requires Named(field, attr)
    ensures var n, u := MeNode(field, attr), MeClause(field, attr);
      && NodeOk(n) && NodeOk(Not(n)) && Spared(n) && Print(n) == u && Print(Not(n)) == "not" + ([' '] + u)
      && Collapse(u) == u && Collapse(Print(Not(n))) == Print(Not(n))
      && !HasPart(u, " or ") && !HasPart(Print(Not(n)), " or ")
      && ScopeTerms(u) == [Term(field, attr)] && ScopeTerms(Print(Not(n))) == [Term(field, attr)]
  {
    hide *;
    var n := MeNode(field, attr);
    MeClausePrints(field, attr);
    NoOrInMeClause(field, attr);
    NamedIs(field, attr);
    OwnTerm(field, attr);
    NegatedTerm(field, attr, "not");
    MeNodeSpared(field, attr);
    CollapsedPrint(n);
    CollapsedPrint(Not(n));
    TermsOfCollapsed(Print(n));
    TermsOfCollapsed(Print(Not(n)));
  }

  lemma TermsOfCollapsed(where: string)
    ensures ScopeTerms(where) == Terms(Collapse(where), true)
  {
    hide Terms, Collapse;
  }

  lemma NamedIs(field: string, attr: Option<string>)
    requires Named(field, attr)
    ensures Letters(field) && (attr.Some? ==> Letters(attr.value))
  {
  }

  lemma MeNodeSpared(field: string, attr: Option<string>)
    requires Named(field, attr)
    ensures Spared(MeNode(field, attr))
  {
    MeIsPlain(attr);
    hide MeText, PlainWord, TightDots, WordLiteral;
  }

  lemma CollapsedPrint(n: Node)
    requires NodeOk(n) && forall t <- Toks(n, OrLevel) :: !t.StrTok?
    ensures Collapse(Print(n)) == Print(n)
  {
    ToksSpellable(n, OrLevel);
    CollapseText(Toks(n, OrLevel));
    NotSpaced(Toks(n, OrLevel));
  }

  /** The attribute clause of a pack, as the compiler stores it, is plain: one term, one comparison. */
  lemma AttributeClauseIsPlain(field: string, attr: string)
    requires Named(field, Some(attr))
    ensures var where := CompiledAttributeClause(field, attr);
      && PlainClause(where) && ScopeTerms(where) == [Term(field, Some(attr))]
      && ParseText(where) == Some(MeNode(field, Some(attr)))
  {
    hide *;
    var where, n := CompiledAttributeClause(field, attr), MeNode(field, Some(attr));
    NamedIs(field, Some(attr));
    AttributeClauseCollapses(field, attr);
    MeClauseIs(field, Some(attr));
    MeClausePrints(field, Some(attr));
    CompiledIsTrimmed(field, attr);
    TermsOfCollapsed(where);
    TermsOfCollapsed(MeClause(field, Some(attr)));
    NamedIsField(field, Some(attr));
    NothingQuoted(Toks(n, OrLevel));
    PrintedClauseIsPlain(where, n);
  }

  lemma NamedIsField(field: string, attr: Option<string>)
    requires Named(field, attr)
    ensures FieldName(field)
  {
    FieldIsPlain(field);
    hide PlainWord, Letters;
  }

  lemma NothingQuoted(ts: seq<Tok>)
    requires forall t <- ts :: !t.StrTok?
    ensures NoTermQuoted(ts)
  {
  }

  lemma CompiledIsTrimmed(field: string, attr: string)
    requires Letters(field) && Letters(attr)
    ensures TrimSpace(CompiledAttributeClause(field, attr)) == CompiledAttributeClause(field, attr)
  {
    var where := CompiledAttributeClause(field, attr);
    assert where[0] == field[0] && field[0] in field && where[|where| - 1] == attr[|attr| - 1]
      && attr[|attr| - 1] in attr;
  }
}
