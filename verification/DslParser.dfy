/** Field and transition lines of the definition language: tokens into declarations, and specifications into text. */
module DslParser {
  import opened Values
  import opened Model
  import opened DslLexer

  datatype FieldDecl = FieldDecl(
    name: string, ty: FieldType, required: bool, unique: bool, default: string, computed: string,
    onDelete: string, format: string, caption: string)

  datatype TransitionDecl = TransitionDecl(
    from: string, to: string, action: string, auto: bool, when: string,
    assigneeAgent: bool, assigneeRole: string, approvalRole: string, caption: string)

  /** A declaration, and whether no error was reported. */
  datatype Parsed<T> = Parsed(decl: T, clean: bool)

  predicate At(toks: seq<Tok>, i: nat, text: string) { i < |toks| && toks[i].text == text }

  predicate IsScalar(text: string) {
    || text == "string" || text == "text" || text == "int" || text == "float" || text == "money"
    || text == "bool" || text == "date" || text == "datetime" || text == "file"
    || text == "email" || text == "url" || text == "phone" || text == "duration"
    || text == "percent" || text == "color" || text == "decimal" || text == "json" || text == "serial"
  }

  // ---- types ---------------------------------------------------------------------------

  /** The rest of [A, B, C] after the opening bracket: the names, and how many tokens they take. */
  function Names(toks: seq<Tok>, names: seq<string>): (r: Option<(seq<string>, nat)>)
    ensures r.Some? ==> r.value.1 <= |toks|
    decreases |toks|
  {
    if toks == [] then None
    else if toks[0].text == "]" then (if names == [] then None else Some((names, 1)))
    else if toks[0].text == "," || toks[0].Ident? then
      var rest := Names(toks[1..], if toks[0].text == "," then names else names + [toks[0].text]);
      if rest.None? then None else Some((rest.value.0, rest.value.1 + 1))
    else None
  }

  function BracketIdents(toks: seq<Tok>): (r: Option<(seq<string>, nat)>)
    ensures r.Some? ==> r.value.1 <= |toks|
  {
    if !At(toks, 0, "[") then None
    else
      var rest := Names(toks[1..], []);
      if rest.None? then None else Some((rest.value.0, rest.value.1 + 1))
  }

  /** How many further tokens continue a dotted name, and the name with them. */
  function Dotted(toks: seq<Tok>, name: string): (r: (string, nat))
    ensures r.1 <= |toks|
    decreases |toks|
  {
    if |toks| >= 2 && toks[0].text == "." && toks[1].Ident? then
      var rest := Dotted(toks[2..], name + "." + toks[1].text);
      (rest.0, rest.1 + 2)
    else (name, 0)
  }

  function BracketDotted(toks: seq<Tok>): (r: Option<(string, nat)>)
    ensures r.Some? ==> r.value.1 <= |toks|
  {
    if |toks| < 3 || toks[0].text != "[" || !toks[1].Ident? then None
    else
      var (name, n) := Dotted(toks[2..], toks[1].text);
      if !At(toks, 2 + n, "]") then None else Some((name, 3 + n))
  }

  function ParseArray(toks: seq<Tok>): (r: Option<(FieldType, nat)>)
    ensures r.Some? ==> r.value.1 <= |toks|
  {
    if |toks| < 3 || toks[1].text != "[" then None
    else if toks[2].text == "ref" then
      var t := BracketDotted(toks[3..]);
      if t.None? || !At(toks, 3 + t.value.1, "]") then None else Some((ArrayRef(t.value.0), 4 + t.value.1))
    else if toks[2].text == "string" then (if At(toks, 3, "]") then Some((Tags, 4)) else None)
    else if toks[2].text == "file" then (if At(toks, 3, "]") then Some((ArrayFile, 4)) else None)
    else if toks[2].text == "enum" then
      var v := BracketIdents(toks[3..]);
      if v.None? || !At(toks, 3 + v.value.1, "]") then None else Some((MultiEnum(v.value.0), 4 + v.value.1))
    else None
  }

  /** A type and the tokens it takes. */
  function ParseType(toks: seq<Tok>): (r: Option<(FieldType, nat)>)
    ensures r.Some? ==> r.value.1 <= |toks|
  {
    if toks == [] || !toks[0].Ident? then None
    else
      var base := toks[0].text;
      if IsScalar(base) then Some((Scalar(base), 1))
      else if base == "enum" then
        var v := BracketIdents(toks[1..]);
        if v.None? then None else Some((Enum(v.value.0), 1 + v.value.1))
      else if base == "ref" then
        var t := BracketDotted(toks[1..]);
        if t.None? then None else Some((Ref(t.value.0), 1 + t.value.1))
      else if base == "mdg" then
        var v := BracketIdents(toks[1..]);
        if v.None? || |v.value.0| != 1 then None else Some((Ref("core." + v.value.0[0]), 1 + v.value.1))
      else if base == "array" then ParseArray(toks)
      else None
  }

  // ---- free text --------------------------------------------------------------------------

  function Part(t: Tok): string {
    if t.Str? then ['"'] + t.text + ['"'] else t.text
  }

  /** Tokens back into text, with single blanks between them. */
  function TextOf(toks: seq<Tok>): string {
    if toks == [] then ""
    else if |toks| == 1 then Part(toks[0])
    else Part(toks[0]) + [' '] + TextOf(toks[1..])
  }

  predicate ModKeyword(text: string) {
    || text == "required" || text == "unique" || text == "default" || text == "computed"
    || text == "on_delete" || text == "format" || text == "label"
  }

  function Depth(t: Tok, depth: int): int {
    if t.text == "(" || t.text == "[" then depth + 1
    else if t.text == ")" || t.text == "]" then depth - 1
    else depth
  }

  /** How many tokens come before the next modifier keyword outside brackets. */
  function UntilKeyword(toks: seq<Tok>, depth: int): (n: nat)
    ensures n <= |toks|
    decreases |toks|
  {
    if toks == [] || (depth == 0 && toks[0].Ident? && ModKeyword(toks[0].text)) then 0
    else 1 + UntilKeyword(toks[1..], Depth(toks[0], depth))
  }

  predicate StopKeyword(text: string) {
    text == "assignee" || text == "requires" || text == "label"
  }

  function UntilStop(toks: seq<Tok>): (n: nat)
    ensures n <= |toks|
  {
    if toks == [] || (toks[0].Ident? && StopKeyword(toks[0].text)) then 0 else 1 + UntilStop(toks[1..])
  }

  function TrimQuotes(s: string): string
    decreases |s|
  {
    if s == "" then s
    else if s[0] == '"' then TrimQuotes(s[1..])
    else if s[|s| - 1] == '"' then TrimQuotes(s[..|s| - 1])
    else s
  }

  // ---- field lines -------------------------------------------------------------------------

  predicate Valued(text: string) {
    text == "default" || text == "computed" || text == "on_delete" || text == "format" || text == "label"
  }

  predicate IsOnDelete(text: string) {
    text == "restrict" || text == "set_null" || text == "cascade"
  }

  function SetModifier(f: FieldDecl, key: string, val: string): FieldDecl {
    match key
    case "default" => f.(default := val)
    case "computed" => f.(computed := val)
    case "format" => f.(format := TrimQuotes(val))
    case "label" => f.(caption := TrimQuotes(val))
    case _ => f.(onDelete := val)
  }

  function Modifiers(toks: seq<Tok>, f: FieldDecl): Parsed<FieldDecl>
    decreases |toks|
  {
    if toks == [] then Parsed(f, true)
    else if toks[0].text == "required" then Modifiers(toks[1..], f.(required := true))
    else if toks[0].text == "unique" then Modifiers(toks[1..], f.(unique := true))
    else if Valued(toks[0].text) then
      if !At(toks, 1, "=") then Parsed(f, false)
      else
        var n := UntilKeyword(toks[2..], 0);
        var val := TextOf(toks[2..2 + n]);
        var rest := Modifiers(toks[2 + n..], SetModifier(f, toks[0].text, val));
        Parsed(rest.decl, rest.clean && (toks[0].text == "on_delete" ==> IsOnDelete(val)))
    else Parsed(f, false)
  }

  function FieldLine(toks: seq<Tok>): Option<Parsed<FieldDecl>> {
    if |toks| < 2 || !toks[0].Ident? || toks[1].text != ":" then None
    else
      var ty := ParseType(toks[2..]);
      if ty.None? then None
      else Some(Modifiers(toks[2 + ty.value.1..],
        FieldDecl(toks[0].text, ty.value.0, false, false, "", "", "", "", "")))
  }

  // ---- transition lines --------------------------------------------------------------------

  /** The clauses after the action. */
  function Clauses(toks: seq<Tok>, tr: TransitionDecl): Parsed<TransitionDecl>
    decreases |toks|
  {
    if toks == [] then Parsed(tr, true)
    else if toks[0].text == "when" then
      var n := UntilStop(toks[1..]);
      Clauses(toks[1 + n..], tr.(when := TextOf(toks[1..1 + n])))
    else if toks[0].text == "label" then
      if |toks| < 3 || toks[1].text != "=" || !toks[2].Str? then Parsed(tr, false)
      else Clauses(toks[3..], tr.(caption := toks[2].text))
    else if toks[0].text == "assignee" then
      if |toks| < 3 || toks[1].text != "=" then Parsed(tr, false)
      else if toks[2].text == "agent" then
        if |toks| < 6 || toks[3].text != "(" || !toks[4].Ident? || toks[5].text != ")" then Parsed(tr, false)
        else Clauses(toks[6..], tr.(assigneeAgent := true, assigneeRole := toks[4].text))
      else Clauses(toks[3..], tr.(assigneeRole := toks[2].text))
    else if toks[0].text == "requires" then
      if |toks| < 5 || toks[1].text != "approval" || toks[2].text != "(" || !toks[3].Ident? then Parsed(tr, false)
      else Clauses(toks[5..], tr.(approvalRole := toks[3].text))
    else Parsed(tr, false)
  }

  function TransitionLine(toks: seq<Tok>): Option<Parsed<TransitionDecl>> {
    if |toks| < 5 || !toks[0].Ident? || toks[1].text != "->" || !toks[2].Ident? || toks[3].text != ":" then None
    else Some(Clauses(toks[5..], TransitionDecl(toks[0].text, toks[2].text, toks[4].text, toks[4].text == "auto",
                                                "", false, "", "", "")))
  }

  // ---- the parser as it runs ----------------------------------------------------------------

  method ReadBracketIdents(toks: seq<Tok>) returns (r: Option<(seq<string>, nat)>)
    ensures r == BracketIdents(toks)
  {
    if |toks| == 0 || toks[0].text != "[" {
      return None;
    }
    var vals: seq<string> := [];
    var i := 1;
    while i < |toks|
      invariant 1 <= i <= |toks|
      invariant BracketIdents(toks) ==
        var rest := Names(toks[i..], vals);
        if rest.None? then None else Some((rest.value.0, rest.value.1 + i))
      decreases |toks| - i
    {
      assert toks[i..][0] == toks[i] && toks[i..][1..] == toks[i + 1..];
      if toks[i].text == "]" {
        return if vals == [] then None else Some((vals, i + 1));
      } else if toks[i].text == "," {
        i := i + 1;
      } else if toks[i].Ident? {
        vals := vals + [toks[i].text];
        i := i + 1;
      } else {
        return None;
      }
    }
    return None;
  }

  method ReadBracketDotted(toks: seq<Tok>) returns (r: Option<(string, nat)>)
    ensures r == BracketDotted(toks)
  {
    if |toks| < 3 || toks[0].text != "[" || !toks[1].Ident? {
      return None;
    }
    var name := toks[1].text;
    var i := 2;
    while i + 1 < |toks| && toks[i].text == "." && toks[i + 1].Ident?
      invariant 2 <= i <= |toks|
      invariant Dotted(toks[2..], toks[1].text) == (var rest := Dotted(toks[i..], name); (rest.0, rest.1 + i - 2))
      decreases |toks| - i
    {
      assert toks[i..][0] == toks[i] && toks[i..][1] == toks[i + 1] && toks[i..][2..] == toks[i + 2..];
      name := name + "." + toks[i + 1].text;
      i := i + 2;
    }
    assert Dotted(toks[i..], name) == (name, 0);
    return if i < |toks| && toks[i].text == "]" then Some((name, i + 1)) else None;
  }

  /** exprUntilKeyword: text up to the next modifier keyword outside brackets. */
  method ExprUntilKeyword(toks: seq<Tok>) returns (text: string, n: nat)
    ensures n == UntilKeyword(toks, 0) && text == TextOf(toks[..n])
  {
    n := 0;
    var depth := 0;
    assert toks[0..] == toks;
    while n < |toks|
      invariant 0 <= n <= |toks|
      invariant UntilKeyword(toks, 0) == n + UntilKeyword(toks[n..], depth)
    {
      var t := toks[n];
      assert toks[n..][0] == t && toks[n..][1..] == toks[n + 1..];
      if depth == 0 && t.Ident? && ModKeyword(t.text) {
        break;
      }
      depth := Depth(t, depth);
      n := n + 1;
    }
    text := TextOf(toks[..n]);
  }

  method ExprUntilStop(toks: seq<Tok>) returns (text: string, n: nat)
    ensures n == UntilStop(toks) && text == TextOf(toks[..n])
  {
    n := 0;
    assert toks[0..] == toks;
    while n < |toks|
      invariant 0 <= n <= |toks|
      invariant UntilStop(toks) == n + UntilStop(toks[n..])
    {
      var t := toks[n];
      assert toks[n..][0] == t && toks[n..][1..] == toks[n + 1..];
      if t.Ident? && StopKeyword(t.text) {
        break;
      }
      n := n + 1;
    }
    text := TextOf(toks[..n]);
  }

  /** One turn of the modifiers loop, by index. */
  lemma ModifierStep(toks: seq<Tok>, i: nat, f: FieldDecl)
    requires i < |toks|
    ensures var t := toks[i].text;
      Modifiers(toks[i..], f) ==
      if t == "required" then Modifiers(toks[i + 1..], f.(required := true))
      else if t == "unique" then Modifiers(toks[i + 1..], f.(unique := true))
      else if Valued(t) && At(toks, i + 1, "=") then
        var n := UntilKeyword(toks[i + 2..], 0);
        var val := TextOf(toks[i + 2..][..n]);
        var rest := Modifiers(toks[i + 2 + n..], SetModifier(f, t, val));
        Parsed(rest.decl, rest.clean && (t == "on_delete" ==> IsOnDelete(val)))
      else Parsed(f, false)
  {
    hide SetModifier, TextOf, UntilKeyword;
    var tail := toks[i..];
    assert tail[0] == toks[i] && tail[1..] == toks[i + 1..];
    if Valued(toks[i].text) && At(toks, i + 1, "=") {
      var n := UntilKeyword(toks[i + 2..], 0);
      assert tail[1] == toks[i + 1] && tail[2..] == toks[i + 2..];
      assert tail[2..2 + n] == toks[i + 2..][..n] && tail[2 + n..] == toks[i + 2 + n..];
    } else {
      assert At(tail, 1, "=") == At(toks, i + 1, "=");
    }
  }

  lemma NoModifiers()
    ensures forall f :: Modifiers([], f) == Parsed(f, true)
  {
  }

  lemma AtInside(toks: seq<Tok>, i: nat, text: string)
    requires At(toks, i, text)
    ensures i < |toks|
  {
  }

  /** modifiers: an index over the tokens, setting fields of the declaration. */
  method ReadModifiers(toks: seq<Tok>, start: FieldDecl) returns (f: FieldDecl, clean: bool)
    ensures Parsed(f, clean) == Modifiers(toks, start)
  {
    NoModifiers();
    hide Modifiers, SetModifier, TextOf, UntilKeyword, Valued, IsOnDelete, At;
    f, clean := start, true;
    var i := 0;
    assert toks[0..] == toks;
    while i < |toks|
      invariant 0 <= i <= |toks|
      invariant Modifiers(toks, start).decl == Modifiers(toks[i..], f).decl
      invariant Modifiers(toks, start).clean == (clean && Modifiers(toks[i..], f).clean)
      decreases |toks| - i
    {
      ModifierStep(toks, i, f);
      var t := toks[i];
      if t.text == "required" {
        f := f.(required := true);
        i := i + 1;
      } else if t.text == "unique" {
        f := f.(unique := true);
        i := i + 1;
      } else if Valued(t.text) {
        if !At(toks, i + 1, "=") {
          return f, false;
        }
        AtInside(toks, i + 1, "=");
        var val, n := ExprUntilKeyword(toks[i + 2..]);
        clean := clean && (t.text == "on_delete" ==> IsOnDelete(val));
        f := SetModifier(f, t.text, val);
        i := i + 2 + n;
      } else {
        return f, false;
      }
    }
    assert toks[i..] == [];
  }

  /** One turn of the clauses loop, by index. */
  lemma ClauseStep(toks: seq<Tok>, i: nat, tr: TransitionDecl)
    requires i < |toks|
    ensures var t := toks[i].text;
      Clauses(toks[i..], tr) ==
      if t == "when" then
        var n := UntilStop(toks[i + 1..]);
        Clauses(toks[i + 1 + n..], tr.(when := TextOf(toks[i + 1..][..n])))
      else if t == "label" then
        if i + 2 >= |toks| || toks[i + 1].text != "=" || !toks[i + 2].Str? then Parsed(tr, false)
        else Clauses(toks[i + 3..], tr.(caption := toks[i + 2].text))
      else if t == "assignee" then
        if i + 2 >= |toks| || toks[i + 1].text != "=" then Parsed(tr, false)
        else if toks[i + 2].text == "agent" then
          if i + 5 >= |toks| || toks[i + 3].text != "(" || !toks[i + 4].Ident?
            || toks[i + 5].text != ")" then Parsed(tr, false)
          else Clauses(toks[i + 6..], tr.(assigneeAgent := true, assigneeRole := toks[i + 4].text))
        else Clauses(toks[i + 3..], tr.(assigneeRole := toks[i + 2].text))
      else if t == "requires" then
        if i + 4 >= |toks| || toks[i + 1].text != "approval" || toks[i + 2].text != "("
          || !toks[i + 3].Ident? then Parsed(tr, false)
        else Clauses(toks[i + 5..], tr.(approvalRole := toks[i + 3].text))
      else Parsed(tr, false)
  {
    hide TextOf, UntilStop;
    var tail := toks[i..];
    assert forall j :: 0 <= j < |tail| ==> tail[j] == toks[i + j];
    assert forall j :: 0 <= j <= |tail| ==> tail[j..] == toks[i + j..];
    var n := UntilStop(toks[i + 1..]);
    assert tail[1..] == toks[i + 1..];
    assert tail[1..1 + n] == toks[i + 1..][..n] && tail[1 + n..] == toks[i + 1 + n..];
  }

  lemma NoMoreClauses()
    ensures forall tr :: Clauses([], tr) == Parsed(tr, true)
  {
  }

  /** transition: an index over the clauses, setting fields of the declaration. */
  method ReadClauses(rest: seq<Tok>, start: TransitionDecl) returns (tr: TransitionDecl, clean: bool)
    ensures Parsed(tr, clean) == Clauses(rest, start)
  {
    NoMoreClauses();
    hide Clauses, TextOf, UntilStop;
    tr := start;
    var i := 0;
    assert rest[0..] == rest;
    while i < |rest|
      invariant 0 <= i <= |rest|
      invariant Clauses(rest, start) == Clauses(rest[i..], tr)
      decreases |rest| - i
    {
      ClauseStep(rest, i, tr);
      if rest[i].text == "when" {
        var expr, n := ExprUntilStop(rest[i + 1..]);
        tr := tr.(when := expr);
        i := i + 1 + n;
      } else if rest[i].text == "label" {
        if i + 2 >= |rest| || rest[i + 1].text != "=" || !rest[i + 2].Str? {
          return tr, false;
        }
        tr := tr.(caption := rest[i + 2].text);
        i := i + 3;
      } else if rest[i].text == "assignee" {
        if i + 2 >= |rest| || rest[i + 1].text != "=" {
          return tr, false;
        }
        if rest[i + 2].text == "agent" {
          if i + 5 >= |rest| || rest[i + 3].text != "(" || !rest[i + 4].Ident? || rest[i + 5].text != ")" {
            return tr, false;
          }
          tr := tr.(assigneeAgent := true, assigneeRole := rest[i + 4].text);
          i := i + 6;
        } else {
          tr := tr.(assigneeRole := rest[i + 2].text);
          i := i + 3;
        }
      } else if rest[i].text == "requires" {
        if i + 4 >= |rest| || rest[i + 1].text != "approval" || rest[i + 2].text != "(" || !rest[i + 3].Ident? {
          return tr, false;
        }
        tr := tr.(approvalRole := rest[i + 3].text);
        i := i + 5;
      } else {
        return tr, false;
      }
    }
    assert rest[i..] == [];
    clean := true;
  }

  // ---- rendering ------------------------------------------------------------------------------

  datatype FieldSpec = FieldSpec(
    name: string, ty: string, values: seq<string>, ref: string, required: bool, unique: bool,
    default: string, computed: string, format: string, onDelete: string)

  datatype TransitionSpec = TransitionSpec(
    from: string, to: string, action: string, auto: bool, when: string, assigneeAgent: string, approval: string)

  function JoinWith(parts: seq<string>, sep: string): string {
    if parts == [] then "" else if |parts| == 1 then parts[0] else parts[0] + sep + JoinWith(parts[1..], sep)
  }

  function RenderType(f: FieldSpec): string {
    match f.ty
    case "enum" => "enum[" + JoinWith(f.values, ", ") + "]"
    case "multiselect" => "array[enum[" + JoinWith(f.values, ", ") + "]]"
    case "tags" => "array[string]"
    case "array_file" => "array[file]"
    case "ref" => "ref[" + f.ref + "]"
    case "array_ref" => "array[ref[" + f.ref + "]]"
    case _ => f.ty
  }

  function Optional(given: bool, part: string): seq<string> {
    if given then [part] else []
  }

  function RenderField(f: FieldSpec): string {
    JoinWith(
      [f.name + ": " + RenderType(f)]
      + Optional(f.required, "required")
      + Optional(f.unique, "unique")
      + Optional(f.default != "", "default=" + f.default)
      + Optional(f.computed != "", "computed = " + f.computed)
      + Optional(f.format != "", "format=\"" + f.format + "\"")
      + Optional(f.onDelete != "", "on_delete=" + f.onDelete),
      " ")
  }

  function RenderTransition(t: TransitionSpec): string {
    t.from + " -> " + t.to + ": " + (if t.auto then "auto" else t.action)
    + (if t.when != "" then " when " + t.when else "")
    + (if t.assigneeAgent != "" then " assignee=agent(" + t.assigneeAgent + ")" else "")
    + (if t.approval != "" then " requires approval(" + t.approval + ")" else "")
  }
}
