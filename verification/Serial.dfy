/** Document numbers: formatting a sequence number, reading it back, and resuming the sequence. */
module Serial {
  import opened Values

  const MAX_INT: int := 0x7FFF_FFFF_FFFF_FFFF

  /** Widths above this are refused by the formatter, which then prints a complaint instead of padding. */
  const MAX_WIDTH: nat := 1_000_000

  // ---- decimal numbers --------------------------------------------------------

  predicate AllDigits(s: string) { forall c <- s :: IsDigit(c) }

  function Decimal(n: nat): (s: string)
    ensures AllDigits(s) && s != ""
  {
    if n < 10 then [(n + '0' as int) as char] else Decimal(n / 10) + [(n % 10 + '0' as int) as char]
  }

  /** The value of a digit string, unbounded. */
  function Number(s: string): (n: nat)
    requires AllDigits(s)
  {
    if s == "" then 0
    else
      assert IsDigit(s[|s| - 1]);
      10 * Number(s[..|s| - 1]) + (s[|s| - 1] as int - '0' as int)
  }

  /** Digits beyond the integer range read as the largest integer. */
  function Atoi(s: string): int
    requires AllDigits(s)
  {
    if Number(s) > MAX_INT then MAX_INT else Number(s)
  }

  function Zeros(n: nat): (s: string)
    ensures |s| == n && AllDigits(s)
  {
    if n == 0 then "" else "0" + Zeros(n - 1)
  }

  lemma {:induction false} NumberOfDecimal(n: nat)
    ensures Number(Decimal(n)) == n
  {
    if n >= 10 {
      NumberOfDecimal(n / 10);
      assert Decimal(n)[..|Decimal(n)| - 1] == Decimal(n / 10);
    }
  }

  lemma {:induction false} LeadingZeros(k: nat, s: string)
    requires AllDigits(s)
    ensures Number(Zeros(k) + s) == Number(s)
    decreases |s|, k
  {
    if s == "" {
      assert Zeros(k) + s == Zeros(k);
      ZerosAreZero(k);
    } else {
      var t := Zeros(k) + s;
      assert t[..|t| - 1] == Zeros(k) + s[..|s| - 1];
      LeadingZeros(k, s[..|s| - 1]);
    }
  }

  lemma {:induction false} ZerosAreZero(k: nat)
    ensures Number(Zeros(k)) == 0
  {
    if k > 0 {
      ZerosAreZero(k - 1);
      ZerosSnoc(k - 1);
      assert Zeros(k)[..k - 1] == Zeros(k - 1);
    }
  }

  lemma {:induction false} ZerosSnoc(k: nat)
    ensures Zeros(k + 1) == Zeros(k) + "0"
  {
    if k > 0 {
      ZerosSnoc(k - 1);
    }
  }

  // ---- tokens of a format -----------------------------------------------------

  predicate StartsWith(s: string, p: string) {
    |p| <= |s| && s[..|p|] == p
  }

  function DigitRun(s: string): (k: nat)
    ensures k <= |s| && AllDigits(s[..k])
    ensures k < |s| ==> !IsDigit(s[k])
  {
    if s == "" || !IsDigit(s[0]) then 0
    else
      var k := DigitRun(s[1..]);
      assert s[..k + 1] == [s[0]] + s[1..][..k];
      1 + k
  }

  /** The width text of a {seq} or {seq:digits} token at the front, with the token's length. */
  function SeqToken(s: string): (t: Option<(nat, string)>)
    ensures t.Some? ==> 0 < t.value.0 <= |s| && s[0] == '{' && AllDigits(t.value.1)
  {
    if StartsWith(s, "{seq}") then Some((5, ""))
    else if StartsWith(s, "{seq:") then
      var k := DigitRun(s[5..]);
      if k > 0 && 5 + k < |s| && s[5 + k] == '}' then Some((6 + k, s[5..][..k])) else None
    else None
  }

  // ---- formatting -------------------------------------------------------------

  function ReplaceYear(format: string, year: string): string {
    if format == "" then ""
    else if StartsWith(format, "{year}") then year + ReplaceYear(format[6..], year)
    else [format[0]] + ReplaceYear(format[1..], year)
  }

  function PadTo(width: nat, s: string): string {
    Zeros(if |s| < width then width - |s| else 0) + s
  }

  /** A negative number keeps its sign in front of the padding. */
  function PrintInt(n: int, width: nat): string {
    if n >= 0 then PadTo(width, Decimal(n)) else "-" + PadTo(if width > 0 then width - 1 else 0, Decimal(-n))
  }

  function PrintSeq(widthText: string, n: int): string
    requires AllDigits(widthText)
  {
    if widthText == "" then PrintInt(n, 0)
    else
      var w := Atoi(widthText);
      if w > MAX_WIDTH then "%!(BADWIDTH)" + PrintInt(n, 0) else PrintInt(n, w)
  }

  function ReplaceSeq(format: string, n: int): string
    decreases |format|
  {
    if format == "" then ""
    else
      var t := SeqToken(format);
      if t.Some? then PrintSeq(t.value.1, n) + ReplaceSeq(format[t.value.0..], n)
      else [format[0]] + ReplaceSeq(format[1..], n)
  }

  function FormatOrDefault(format: string): string {
    if format == "" then "{seq}" else format
  }

  function FormatSerial(format: string, n: int, year: nat): string {
    ReplaceSeq(ReplaceYear(FormatOrDefault(format), Decimal(year)), n)
  }

  // ---- parsing ----------------------------------------------------------------

  datatype Piece = Lit(c: char) | Year | Seq(width: string)

  /** Splits a format into literals and tokens, leftmost token first. */
  function Pieces(format: string): seq<Piece>
    decreases |format|
  {
    if format == "" then []
    else if StartsWith(format, "{year}") then [Year] + Pieces(format[6..])
    else
      var t := SeqToken(format);
      if t.Some? then [Seq(t.value.1)] + Pieces(format[t.value.0..])
      else [Lit(format[0])] + Pieces(format[1..])
  }

  /** Matches the whole text against the pieces; returns what the sequence tokens captured. */
  function Match(pieces: seq<Piece>, s: string): (m: Option<seq<string>>)
    ensures m.Some? ==> forall c <- m.value :: AllDigits(c)
    decreases |pieces|, 0
  {
    if pieces == [] then if s == "" then Some([]) else None
    else match pieces[0]
      case Lit(c) => if s != "" && s[0] == c then Match(pieces[1..], s[1..]) else None
      case Year => if |s| >= 4 && AllDigits(s[..4]) then Match(pieces[1..], s[4..]) else None
      case Seq(_) => MatchSeq(pieces[1..], s, DigitRun(s))
  }

  /** A sequence token takes as many digits as it can while the rest still matches. */
  function MatchSeq(rest: seq<Piece>, s: string, k: nat): (m: Option<seq<string>>)
    requires k <= |s| && AllDigits(s[..k])
    ensures m.Some? ==> forall c <- m.value :: AllDigits(c)
    decreases |rest| + 1, 0, k
  {
    if k == 0 then None
    else
      var m := Match(rest, s[k..]);
      if m.Some? then Some([s[..k]] + m.value)
      else
        assert s[..k - 1] == s[..k][..k - 1];
        MatchSeq(rest, s, k - 1)
  }

  function ParseSeq(value: string, format: string): int {
    if value == "" then 0
    else
      var m := Match(Pieces(FormatOrDefault(format)), value);
      if m.None? || m.value == [] then 0 else Atoi(m.value[0])
  }

  // ---- resuming the sequence ----------------------------------------------------

  /** The largest number any stored value carries; 0 when none does. */
  function MaxSeq(stored: seq<string>, format: string): (m: int)
    ensures 0 <= m <= MAX_INT
    ensures forall v <- stored :: ParseSeq(v, format) <= m
  {
    if stored == [] then 0
    else
      var m := MaxSeq(stored[..|stored| - 1], format);
      var n := ParseSeq(stored[|stored| - 1], format);
      if n > m then n else m
  }

  /** Integers wrap: the successor of the largest one is the smallest. */
  function NextSeq(stored: seq<string>, format: string): int {
    var m := MaxSeq(stored, format);
    if m == MAX_INT then -MAX_INT - 1 else m + 1
  }

  method NextSerial(stored: seq<string>, format: string) returns (next: int)
    ensures next == NextSeq(stored, format)
  {
    var max := 0;
    for i := 0 to |stored|
      invariant max == MaxSeq(stored[..i], format)
    {
      assert stored[..i + 1][..i] == stored[..i];
      var n := ParseSeq(stored[i], format);
      if n > max {
        max := n;
      }
    }
    assert stored[..|stored|] == stored;
    next := if max == MAX_INT then -MAX_INT - 1 else max + 1;
  }

  // ---- the round trip -----------------------------------------------------------

  /** The length of the run of digits and {year} tokens at the front. */
  function YearRun(s: string): (k: nat)
    ensures k <= |s|
  {
    if s == "" then 0
    else if StartsWith(s, "{year}") then 6 + YearRun(s[6..])
    else if IsDigit(s[0]) then 1 + YearRun(s[1..])
    else 0
  }

  /** A {seq:...} token whose width contains a {year}: no token to the parser, one to the formatter, which
      replaces years first. */
  predicate YearWidth(s: string) {
    && StartsWith(s, "{seq:")
    && var k := YearRun(s[5..]);
       5 + k < |s| && s[5 + k] == '}' && !AllDigits(s[5..5 + k])
  }

  /** Where the formatter and the parser see the same tokens. */
  ghost predicate NoYearInWidth(format: string) {
    forall i :: 0 <= i < |format| ==> !YearWidth(format[i..])
  }

  function Widths(pieces: seq<Piece>): seq<string> {
    if pieces == [] then []
    else (if pieces[0].Seq? then [pieces[0].width] else []) + Widths(pieces[1..])
  }

  ghost predicate WellFormed(pieces: seq<Piece>) {
    forall p <- pieces :: p.Seq? ==> AllDigits(p.width)
  }

  lemma {:induction false} PiecesWellFormed(format: string)
    ensures WellFormed(Pieces(format))
    decreases |format|
  {
    if format != "" {
      if StartsWith(format, "{year}") {
        PiecesWellFormed(format[6..]);
      } else {
        var t := SeqToken(format);
        PiecesWellFormed(if t.Some? then format[t.value.0..] else format[1..]);
      }
    }
  }

  /** What formatting means: every piece printed in place. */
  function Render(pieces: seq<Piece>, year: string, n: int): string
    requires WellFormed(pieces)
  {
    if pieces == [] then ""
    else
      (match pieces[0]
       case Lit(c) => [c]
       case Year => year
       case Seq(w) => PrintSeq(w, n)) + Render(pieces[1..], year, n)
  }

  lemma PlainHead(c: char, rest: string, n: int)
    requires c != '{'
    ensures ReplaceSeq([c] + rest, n) == [c] + ReplaceSeq(rest, n)
  {
    assert ([c] + rest)[1..] == rest;
    assert SeqToken([c] + rest).None?;
  }

  lemma {:induction false} DigitsPassThrough(digits: string, rest: string, n: int)
    requires AllDigits(digits)
    ensures ReplaceSeq(digits + rest, n) == digits + ReplaceSeq(rest, n)
  {
    hide ReplaceSeq;
    if digits == "" {
      assert digits + rest == rest;
    } else {
      assert IsDigit(digits[0]);
      assert digits + rest == [digits[0]] + (digits[1..] + rest);
      PlainHead(digits[0], digits[1..] + rest, n);
      DigitsPassThrough(digits[1..], rest, n);
      assert digits + ReplaceSeq(rest, n) == [digits[0]] + (digits[1..] + ReplaceSeq(rest, n));
    }
  }

  lemma {:induction false} PlainPassThrough(text: string, rest: string, year: string)
    requires '{' !in text
    ensures ReplaceYear(text + rest, year) == text + ReplaceYear(rest, year)
  {
    if text == "" {
      assert text + rest == rest;
    } else {
      assert !StartsWith(text + rest, "{year}") by {
        assert (text + rest)[0] != "{year}"[0];
      }
      assert (text + rest)[1..] == text[1..] + rest;
      PlainPassThrough(text[1..], rest, year);
      assert text == [text[0]] + text[1..];
    }
  }

  /** A token keeps its reading whatever follows it. */
  lemma TokenPrefix(s: string, rest: string)
    requires SeqToken(s).Some?
    ensures var k := SeqToken(s).value.0;
      '{' !in s[1..k] && SeqToken(s[..k] + rest) == SeqToken(s)
  {
    var k := SeqToken(s).value.0;
    if StartsWith(s, "{seq}") {
      assert (s[..k] + rest)[..5] == "{seq}";
      assert s[1..5] == "seq}";
    } else {
      hide DigitRun;
      WidthPrefix(s, "{seq:", DigitRun(s[5..]), rest);
    }
  }

  lemma WidthPrefix(s: string, open: string, r: nat, rest: string)
    requires open == "{seq:" && StartsWith(s, open) && r == DigitRun(s[5..]) > 0 && 5 + r < |s| && s[5 + r] == '}'
    ensures '{' !in s[1..6 + r] && SeqToken(s[..6 + r] + rest) == Some((6 + r, s[5..][..r]))
  {
    var width, t := s[5..5 + r], s[..6 + r] + rest;
    RunOver(width, "}" + rest);
    assert DigitRun("}" + rest) == 0;
    hide DigitRun;
    assert s[5..][..r] == width;
    assert t[..5] == open && t[4] == open[4] && open != "{seq}";
    assert t[5..] == width + ("}" + rest) && t[5..][..r] == width && t[5 + r] == '}';
    hide SeqToken;
    TokenIs(t, r, width);
    NoBraceInWidth(s, open, r);
  }

  lemma TokenIs(t: string, r: nat, width: string)
    requires StartsWith(t, "{seq:") && r == DigitRun(t[5..]) > 0 && 5 + r < |t| && t[5 + r] == '}'
      && t[5..][..r] == width
    ensures SeqToken(t) == Some((6 + r, width))
  {
    hide DigitRun;
    assert t[..5][4] == ':' && "{seq}"[4] == '}';
  }

  lemma NoBraceInWidth(s: string, open: string, r: nat)
    requires open == "{seq:" && StartsWith(s, open) && 5 + r < |s| && s[5 + r] == '}' && AllDigits(s[5..][..r])
    ensures '{' !in s[1..6 + r]
  {
    var width := s[5..][..r];
    assert forall i :: 5 <= i < 5 + r ==> s[i] == width[i - 5] && width[i - 5] in width;
    assert forall i :: 1 <= i < 5 ==> s[i] == s[..5][i] == open[i];
  }

  /** Replacing years turns the run of digits and years into the digit run of the outcome; what follows the
      run starts with its own first character. */
  ghost predicate Expanded(s: string, year: string) {
    var k, t := YearRun(s), ReplaceYear(s, year);
    && (k == |s| <==> DigitRun(t) == |t|)
    && (k < |s| ==> DigitRun(t) < |t| && t[DigitRun(t)] == s[k])
    && (AllDigits(s[..k]) ==> DigitRun(t) == k == DigitRun(s) && s[..k] == t[..k])
    && (k > 0 <==> DigitRun(t) > 0)
  }

  lemma {:induction false} RunExpands(s: string, year: string)
    requires AllDigits(year) && year != ""
    ensures Expanded(s, year)
    decreases |s|
  {
    if s == "" {
    } else if StartsWith(s, "{year}") {
      RunExpands(s[6..], year);
      hide Expanded;
      YearExpands(s, year);
    } else if IsDigit(s[0]) {
      RunExpands(s[1..], year);
      hide Expanded;
      DigitExpands(s, year);
    } else {
      assert ReplaceYear(s, year) == [s[0]] + ReplaceYear(s[1..], year);
    }
  }

  lemma YearExpands(s: string, year: string)
    requires AllDigits(year) && year != "" && StartsWith(s, "{year}") && Expanded(s[6..], year)
    ensures Expanded(s, year)
  {
    var k, t := YearRun(s), ReplaceYear(s, year);
    assert t == year + ReplaceYear(s[6..], year) && k == 6 + YearRun(s[6..]);
    RunOver(year, ReplaceYear(s[6..], year));
    assert s[..6][0] == '{' && s[..k][0] == s[0] && s[0] in s[..k];
    hide ReplaceYear, YearRun, DigitRun;
  }

  lemma DigitExpands(s: string, year: string)
    requires AllDigits(year) && s != "" && IsDigit(s[0]) && Expanded(s[1..], year)
    ensures Expanded(s, year)
  {
    hide ReplaceYear, YearRun, DigitRun, StartsWith;
    DigitHead(s, year);
    var k, t, rest := YearRun(s), ReplaceYear(s, year), s[1..];
    assert s[..k] == [s[0]] + rest[..k - 1];
    if AllDigits(s[..k]) {
      assert forall c <- rest[..k - 1] :: c in s[..k];
      assert t[..k] == [s[0]] + t[1..][..k - 1];
    }
  }

  lemma DigitHead(s: string, year: string)
    requires s != "" && IsDigit(s[0])
    ensures YearRun(s) == 1 + YearRun(s[1..]) && DigitRun(s) == 1 + DigitRun(s[1..])
    ensures ReplaceYear(s, year) == [s[0]] + ReplaceYear(s[1..], year)
    ensures ReplaceYear(s, year)[1..] == ReplaceYear(s[1..], year)
    ensures DigitRun(ReplaceYear(s, year)) == 1 + DigitRun(ReplaceYear(s[1..], year))
  {
    var t := ReplaceYear(s, year);
    assert t == [s[0]] + ReplaceYear(s[1..], year) && t[1..] == ReplaceYear(s[1..], year);
  }

  lemma {:induction false} RunOver(digits: string, rest: string)
    requires AllDigits(digits)
    ensures DigitRun(digits + rest) == |digits| + DigitRun(rest)
  {
    if digits == "" {
      assert digits + rest == rest;
    } else {
      assert IsDigit(digits[0]);
      assert (digits + rest)[1..] == digits[1..] + rest;
      RunOver(digits[1..], rest);
    }
  }

  /** The first k characters survive the replacement of years. */
  ghost predicate Kept(s: string, year: string, k: nat) {
    k <= |s| && ReplaceYear(s, year) == s[..k] + ReplaceYear(s[k..], year)
  }

  lemma KeptStep(s: string, year: string, k: nat)
    requires year != "" && AllDigits(year) && Kept(s, year, k)
    requires k < |ReplaceYear(s, year)| && !IsDigit(ReplaceYear(s, year)[k])
    ensures Kept(s, year, k + 1) && ReplaceYear(s, year)[k] == s[k]
  {
    hide ReplaceYear;
    var rest := s[k..];
    assert ReplaceYear(rest, year)[0] == ReplaceYear(s, year)[k];
    HeadStays(rest, year);
    assert rest[1..] == s[k + 1..] && s[..k] + [rest[0]] == s[..k + 1];
    assert s[..k] + ([rest[0]] + ReplaceYear(rest[1..], year)) == s[..k + 1] + ReplaceYear(rest[1..], year);
  }

  /** Text that does not come out starting with a digit starts with its own first character. */
  lemma HeadStays(s: string, year: string)
    requires year != "" && AllDigits(year)
    requires ReplaceYear(s, year) != "" && !IsDigit(ReplaceYear(s, year)[0])
    ensures s != "" && ReplaceYear(s, year) == [s[0]] + ReplaceYear(s[1..], year)
  {
    if s != "" && StartsWith(s, "{year}") {
      YearStarts(s, year);
      assert false;
    }
  }

  lemma YearStarts(s: string, year: string)
    requires year != "" && AllDigits(year) && StartsWith(s, "{year}")
    ensures ReplaceYear(s, year) != "" && IsDigit(ReplaceYear(s, year)[0])
  {
    assert year[0] in year && ReplaceYear(s, year) == year + ReplaceYear(s[6..], year);
  }

  /** Replacing years forms a new sequence token exactly at a width with a year in it. */
  lemma TokenFormedIff(s: string, year: string)
    requires AllDigits(year) && year != "" && SeqToken(s).None?
    ensures SeqToken(ReplaceYear(s, year)).Some? <==> YearWidth(s)
    ensures YearWidth(s) ==> ReplaceYear(s, year)[0] == '{'
  {
    var t := ReplaceYear(s, year);
    if SeqToken(t).Some? {
      var head := if StartsWith(t, "{seq}") then "{seq}" else "{seq:";
      HeadKept(s, year, head);
      RunExpands(s[5..], year);
      var k := YearRun(s[5..]);
      assert s[5..][..k] == s[5..5 + k];
    }
    if YearWidth(s) {
      OpeningStays(s, year, "{seq:");
      RunExpands(s[5..], year);
      assert t[..5] != "{seq}";
    }
  }

  lemma OpeningStays(s: string, year: string, open: string)
    requires open == "{seq:" && StartsWith(s, open)
    ensures StartsWith(ReplaceYear(s, year), open) && ReplaceYear(s, year)[5..] == ReplaceYear(s[5..], year)
  {
    var rest := s[5..];
    assert s == [open[0]] + (open[1..] + rest) && '{' !in open[1..] && open[1..][0] == 's';
    ReplaceStep('{', open[1..] + rest, year);
    PlainPassThrough(open[1..], rest, year);
    assert [open[0]] + (open[1..] + ReplaceYear(rest, year)) == open + ReplaceYear(rest, year);
  }

  /** The opening of a token was there before years were replaced. */
  lemma HeadKept(s: string, year: string, head: string)
    requires year != "" && AllDigits(year) && StartsWith(ReplaceYear(s, year), head)
    requires |head| == 5 && forall ch <- head :: !IsDigit(ch)
    ensures |s| >= 5 && s[..5] == head && ReplaceYear(s, year)[5..] == ReplaceYear(s[5..], year)
  {
    hide ReplaceYear;
    var t := ReplaceYear(s, year);
    assert t[..5] == head;
    assert forall i :: 0 <= i < 5 ==> t[i] == head[i] && head[i] in head;
    KeptStart(s, year);
    KeptStep(s, year, 0);
    KeptStep(s, year, 1);
    KeptStep(s, year, 2);
    KeptStep(s, year, 3);
    KeptStep(s, year, 4);
    assert s[..5] == head;
  }

  lemma KeptStart(s: string, year: string)
    ensures Kept(s, year, 0)
  {
    assert s[0..] == s && s[..0] == "";
  }

  lemma FormatYear(format: string, year: string, n: int)
    requires AllDigits(year) && StartsWith(format, "{year}")
    ensures ReplaceSeq(ReplaceYear(format, year), n) == year + ReplaceSeq(ReplaceYear(format[6..], year), n)
  {
    DigitsPassThrough(year, ReplaceYear(format[6..], year), n);
  }

  lemma FormatToken(format: string, year: string, n: int)
    requires !StartsWith(format, "{year}") && SeqToken(format).Some?
    ensures var t := SeqToken(format).value;
      ReplaceSeq(ReplaceYear(format, year), n) == PrintSeq(t.1, n) + ReplaceSeq(ReplaceYear(format[t.0..], year), n)
  {
    var k := SeqToken(format).value.0;
    var rest := ReplaceYear(format[k..], year);
    TokenPrefix(format, rest);
    assert format[1..] == format[1..k] + format[k..];
    PlainPassThrough(format[1..k], format[k..], year);
    assert ReplaceYear(format, year) == format[..k] + rest;
    assert (format[..k] + rest)[k..] == rest;
  }

  lemma FormatLiteral(format: string, year: string, n: int)
    requires format != "" && AllDigits(year) && year != "" && NoYearInWidth(format)
    requires !StartsWith(format, "{year}") && SeqToken(format).None?
    ensures ReplaceSeq(ReplaceYear(format, year), n) == [format[0]] + ReplaceSeq(ReplaceYear(format[1..], year), n)
  {
    assert format[0..] == format;
    TokenFormedIff(format, year);
    assert ReplaceYear(format, year)[1..] == ReplaceYear(format[1..], year);
  }

  lemma NoYearInSuffix(format: string, k: nat)
    requires k <= |format| && NoYearInWidth(format)
    ensures NoYearInWidth(format[k..])
  {
    var rest := format[k..];
    forall i | 0 <= i < |rest| ensures !YearWidth(rest[i..]) {
      assert rest[i..] == format[k + i..];
    }
  }

  /** Where no width has a year in it, formatting prints every piece in place. */
  lemma {:induction false} FormatRenders(format: string, year: string, n: int)
    requires AllDigits(year) && year != "" && NoYearInWidth(format)
    ensures WellFormed(Pieces(format))
    ensures ReplaceSeq(ReplaceYear(format, year), n) == Render(Pieces(format), year, n)
    decreases |format|
  {
    PiecesWellFormed(format);
    if format != "" {
      var t := SeqToken(format);
      var step := if StartsWith(format, "{year}") then 6 else if t.Some? then t.value.0 else 1;
      NoYearInSuffix(format, step);
      FormatRenders(format[step..], year, n);
      assert Pieces(format)[1..] == Pieces(format[step..]);
      if StartsWith(format, "{year}") {
        FormatYear(format, year, n);
      } else if t.Some? {
        FormatToken(format, year, n);
      } else {
        FormatLiteral(format, year, n);
      }
    }
  }

  /** Literals and years have a fixed length, so they match at one place only. */
  function FixedLength(pieces: seq<Piece>): nat {
    if pieces == [] then 0
      else (match pieces[0] case Lit(_) => 1 case Year => 4 case Seq(_) => 0) + FixedLength(pieces[1..])
  }

  lemma {:induction false} FixedMatch(pieces: seq<Piece>, s: string, year: string, n: int)
    requires Widths(pieces) == [] && WellFormed(pieces) && |year| == 4 && AllDigits(year)
    ensures |Render(pieces, year, n)| == FixedLength(pieces)
    ensures Match(pieces, Render(pieces, year, n)) == Some([])
    ensures Match(pieces, s).Some? ==> |s| == FixedLength(pieces)
  {
    if pieces != [] {
      var r := Render(pieces, year, n);
      match pieces[0]
      case Lit(c) =>
        FixedMatch(pieces[1..], s[if s == "" then 0 else 1..], year, n);
        assert r[1..] == Render(pieces[1..], year, n);
      case Year =>
        FixedMatch(pieces[1..], s[if |s| < 4 then 0 else 4..], year, n);
        assert r[..4] == year && r[4..] == Render(pieces[1..], year, n);
      case Seq(_) =>
    }
  }

  /** A sequence token captures exactly the text printed for it, when that is all digits. */
  lemma {:induction false} SeqCaptures(rest: seq<Piece>, printed: string, tail: string, k: nat)
    requires k <= |printed + tail| && AllDigits((printed + tail)[..k])
    requires forall s :: Match(rest, s).Some? ==> |s| == |tail|
    requires Match(rest, tail) == Some([])
    ensures MatchSeq(rest, printed + tail, k) == if 0 < |printed| <= k then Some([printed]) else None
    decreases k
  {
    hide Match;
    var s := printed + tail;
    if k > 0 {
      if k == |printed| {
        assert s[k..] == tail && s[..k] == printed && [printed] + [] == [printed];
      } else {
        assert |s[k..]| == |s| - k;
        assert s[..k - 1] == s[..k][..k - 1];
        SeqCaptures(rest, printed, tail, k - 1);
      }
    }
  }

  /** One sequence token: the match captures its printed digits, or fails when it did not print digits. */
  lemma {:induction false} OneSeqMatch(pieces: seq<Piece>, year: string, n: int)
    requires WellFormed(pieces) && |Widths(pieces)| == 1 && AllDigits(Widths(pieces)[0])
    requires |year| == 4 && AllDigits(year)
    ensures var printed := PrintSeq(Widths(pieces)[0], n);
      && (AllDigits(printed) && printed != "" ==> Match(pieces, Render(pieces, year, n)) == Some([printed]))
      && (printed != "" && !IsDigit(printed[0]) ==> Match(pieces, Render(pieces, year, n)).None?)
  {
    var r, rest := Render(pieces, year, n), pieces[1..];
    match pieces[0]
    case Lit(c) =>
      OneSeqMatch(rest, year, n);
      assert r[1..] == Render(rest, year, n);
    case Year =>
      OneSeqMatch(rest, year, n);
      assert r[..4] == year && r[4..] == Render(rest, year, n);
    case Seq(w) =>
      assert Widths(pieces) == [w] + Widths(rest);
      var printed, tail := PrintSeq(w, n), Render(rest, year, n);
      FixedMatch(rest, tail, year, n);
      forall s | Match(rest, s).Some? ensures |s| == |tail| { FixedMatch(rest, s, year, n); }
      if AllDigits(printed) && printed != "" {
        RunOver(printed, tail);
        SeqCaptures(rest, printed, tail, DigitRun(printed + tail));
      } else if printed != "" && !IsDigit(printed[0]) {
        assert DigitRun(printed + tail) == 0;
      }
  }

  lemma YearHasFourDigits(year: nat)
    requires 1000 <= year <= 9999
    ensures |Decimal(year)| == 4
  {
    assert |Decimal(year / 1000)| == 1;
    assert Decimal(year / 100) == Decimal(year / 1000) + [(year / 100 % 10 + '0' as int) as char];
    assert Decimal(year / 10) == Decimal(year / 100) + [(year / 10 % 10 + '0' as int) as char];
  }

  // ---- formats whose widths have years in them --------------------------------------------------

  function Braces(s: string): nat {
    if s == "" then 0 else (if s[0] == '{' then 1 else 0) + Braces(s[1..])
  }

  function LitBraces(pieces: seq<Piece>): nat {
    if pieces == [] then 0 else (if pieces[0] == Lit('{') then 1 else 0) + LitBraces(pieces[1..])
  }

  lemma {:induction false} BracesAppend(a: string, b: string)
    ensures Braces(a + b) == Braces(a) + Braces(b)
    ensures '{' !in a ==> Braces(a) == 0
  {
    if a == "" {
      assert a + b == b;
    } else {
      assert (a + b)[1..] == a[1..] + b;
      BracesAppend(a[1..], b);
    }
  }

  lemma DigitsHaveNoBrace(s: string)
    requires AllDigits(s)
    ensures Braces(s) == 0
  {
    BracesAppend(s, "");
  }

  lemma PrintedHasNoBrace(w: string, n: nat)
    requires AllDigits(w)
    ensures '{' !in PrintSeq(w, n)
  {
    assert AllDigits(PrintInt(n, 0)) && (Atoi(w) <= MAX_WIDTH ==> AllDigits(PrintInt(n, Atoi(w))));
  }

  /** A text that matches has a brace for every literal one. */
  lemma {:induction false} MatchNeedsBraces(pieces: seq<Piece>, s: string)
    requires Match(pieces, s).Some?
    ensures Braces(s) >= LitBraces(pieces)
    decreases |pieces|
  {
    if pieces != [] {
      match pieces[0]
      case Lit(c) =>
        MatchNeedsBraces(pieces[1..], s[1..]);
      case Year =>
        MatchNeedsBraces(pieces[1..], s[4..]);
        assert s == s[..4] + s[4..];
        BracesAppend(s[..4], s[4..]);
      case Seq(_) =>
        var k := SeqSplit(pieces[1..], s, DigitRun(s));
        MatchNeedsBraces(pieces[1..], s[k..]);
        assert s == s[..k] + s[k..];
        BracesAppend(s[..k], s[k..]);
    }
  }

  /** The printed text has no more braces than the format has literal ones, and fewer as soon as a width has a
      year in it: the formatter took its brace for a token's. */
  lemma {:induction false} YearWidthTakesBrace(format: string, year: string, n: nat)
    requires AllDigits(year) && year != ""
    ensures Braces(ReplaceSeq(ReplaceYear(format, year), n)) <= LitBraces(Pieces(format))
    ensures !NoYearInWidth(format) ==> Braces(ReplaceSeq(ReplaceYear(format, year), n)) < LitBraces(Pieces(format))
    decreases |format|
  {
    if format != "" {
      var t := SeqToken(format);
      var step := if StartsWith(format, "{year}") then 6 else if t.Some? then t.value.0 else 1;
      var rest := format[step..];
      YearWidthTakesBrace(rest, year, n);
      YearWidthAhead(format, step);
      assert Pieces(format)[1..] == Pieces(rest);
      var tail := ReplaceSeq(ReplaceYear(rest, year), n);
      if StartsWith(format, "{year}") {
        FormatYear(format, year, n);
        DigitsHaveNoBrace(year);
        BracesAppend(year, tail);
      } else if t.Some? {
        FormatToken(format, year, n);
        PrintedHasNoBrace(t.value.1, n);
        BracesAppend(PrintSeq(t.value.1, n), tail);
      } else {
        LiteralBraces(format, year, n);
      }
    }
  }

  /** A year width starts at the first character or past the piece that stands there. */
  lemma YearWidthAhead(format: string, step: nat)
    requires format != ""
      && step == if StartsWith(format, "{year}") then 6 else if SeqToken(format).Some? then SeqToken(format).value.0
        else 1
    ensures !NoYearInWidth(format) <==> (step == 1 && YearWidth(format)) || !NoYearInWidth(format[step..])
  {
    assert format[0..] == format;
    if step > 1 {
      NoBraceInside(format, step);
    }
    if i :| 0 <= i < |format| && YearWidth(format[i..]) {
      assert format[i] == '{';
      if i >= step {
        assert format[step..][i - step..] == format[i..];
      }
    }
    if NoYearInWidth(format) {
      NoYearInSuffix(format, step);
    }
  }

  /** Inside a {year} or {seq} token no brace opens, and at its start no year width does. */
  lemma NoBraceInside(format: string, step: nat)
    requires if StartsWith(format, "{year}") then step == 6
      else (SeqToken(format).Some? && step == SeqToken(format).value.0)
    ensures step <= |format| && (forall i :: 0 < i < step ==> format[i] != '{') && !YearWidth(format)
  {
    if StartsWith(format, "{year}") {
      assert format[..6] == "{year}" && forall i :: 0 <= i < 6 ==> format[i] == format[..6][i];
      assert format[..5] == "{year" != "{seq:";
    } else {
      TokenPrefix(format, "");
      assert forall i :: 0 < i < step ==> format[i] == format[1..step][i - 1];
      if StartsWith(format, "{seq:") {
        var k := DigitRun(format[5..]);
        DigitsOnly(format[5..], k);
        assert format[5..][..k] == format[5..5 + k];
      }
    }
  }

  lemma {:induction false} DigitsOnly(s: string, k: nat)
    requires k == DigitRun(s) && k < |s| && s[k] == '}'
    ensures YearRun(s) == k
  {
    if k > 0 {
      DigitsOnly(s[1..], k - 1);
    }
  }

  lemma LiteralBraces(format: string, year: string, n: nat)
    requires format != "" && AllDigits(year) && year != "" && !StartsWith(format, "{year}") && SeqToken(format).None?
    ensures var tail := ReplaceSeq(ReplaceYear(format[1..], year), n);
      Braces(ReplaceSeq(ReplaceYear(format, year), n)) ==
        (if format[0] == '{' && !YearWidth(format) then 1 else 0) + Braces(tail)
    ensures Pieces(format)[0] == Lit(format[0]) && (YearWidth(format) ==> format[0] == '{')
  {
    TokenFormedIff(format, year);
    var t := ReplaceYear(format, year);
    assert t == [format[0]] + ReplaceYear(format[1..], year) && t[1..] == ReplaceYear(format[1..], year);
    if YearWidth(format) {
      var k := SeqToken(t).value.0;
      TokenPrefix(t, "");
      assert t[1..] == t[1..k] + t[k..];
      NoTokenInside(t[1..k], t[k..], n);
      BracesAppend(t[1..k], ReplaceSeq(t[k..], n));
      PrintedHasNoBrace(SeqToken(t).value.1, n);
      BracesAppend(PrintSeq(SeqToken(t).value.1, n), ReplaceSeq(t[k..], n));
    } else {
      BracesAppend([format[0]], ReplaceSeq(t[1..], n));
      assert [format[0]][1..] == "";
    }
  }

  lemma {:induction false} NoTokenInside(text: string, rest: string, n: int)
    requires '{' !in text
    ensures ReplaceSeq(text + rest, n) == text + ReplaceSeq(rest, n)
  {
    if text == "" {
      assert text + rest == rest;
    } else {
      assert text + rest == [text[0]] + (text[1..] + rest);
      PlainHead(text[0], text[1..] + rest, n);
      NoTokenInside(text[1..], rest, n);
      assert text + ReplaceSeq(rest, n) == [text[0]] + (text[1..] + ReplaceSeq(rest, n));
    }
  }

  // ---- the round trip, for every format with one token --------------------------------------------

  /** What a caller can look at: no width has a year in it, and the formatter accepts the token's width. */
  ghost predicate Readable(format: string)
    requires |Widths(Pieces(FormatOrDefault(format)))| == 1
  {
    PiecesWellFormed(FormatOrDefault(format));
    WidthsDigits(Pieces(FormatOrDefault(format)));
    NoYearInWidth(FormatOrDefault(format)) && Atoi(Widths(Pieces(FormatOrDefault(format)))[0]) <= MAX_WIDTH
  }

  /** The serial round trip: a format with one sequence token reads back the number it printed exactly when it
      is readable, and otherwise reads back nothing. */
  lemma RoundTrip(format: string, n: int, year: nat)
    requires |Widths(Pieces(FormatOrDefault(format)))| == 1
    requires 1 <= n <= MAX_INT && 1000 <= year <= 9999
    ensures ParseSeq(FormatSerial(format, n, year), format) == if Readable(format) then n else 0
  {
    var pieces := Pieces(FormatOrDefault(format));
    PiecesWellFormed(FormatOrDefault(format));
    WidthsDigits(pieces);
    YearHasFourDigits(year);
    if NoYearInWidth(FormatOrDefault(format)) {
      FormatRenders(FormatOrDefault(format), Decimal(year), n);
      OneSeqMatch(pieces, Decimal(year), n);
      var w := Widths(pieces)[0];
      assert FormatSerial(format, n, year) == Render(pieces, Decimal(year), n);
      EmptyMatch(pieces);
      hide Pieces, Widths, WellFormed, NoYearInWidth, FormatSerial, Render, Match;
      PrintedNumber(w, n);
    } else {
      YearWidthTakesBrace(FormatOrDefault(format), Decimal(year), n);
      var value := FormatSerial(format, n, year);
      if Match(pieces, value).Some? {
        MatchNeedsBraces(pieces, value);
      }
    }
  }

  /** A width the formatter accepts prints the number's digits; any other prints an error text. */
  lemma PrintedNumber(w: string, n: int)
    requires AllDigits(w) && 1 <= n <= MAX_INT
    ensures var printed := PrintSeq(w, n);
      if Atoi(w) <= MAX_WIDTH then printed != "" && AllDigits(printed) && Atoi(printed) == n
      else printed != "" && !IsDigit(printed[0])
  {
    if w == "" || Atoi(w) <= MAX_WIDTH {
      PaddedNumber(if w == "" then 0 else Atoi(w), n);
    }
    hide Decimal, Number, PadTo;
  }

  lemma PaddedNumber(width: nat, n: int)
    requires 1 <= n <= MAX_INT
    ensures var printed := PrintInt(n, width); printed != "" && AllDigits(printed) && Atoi(printed) == n
  {
    var d := Decimal(n);
    LeadingZeros(if |d| < width then width - |d| else 0, d);
    NumberOfDecimal(n);
    hide Decimal, Number, Zeros;
  }

  lemma {:induction false} WidthsDigits(pieces: seq<Piece>)
    requires WellFormed(pieces)
    ensures forall w <- Widths(pieces) :: AllDigits(w)
  {
    if pieces != [] {
      WidthsDigits(pieces[1..]);
    }
  }

  lemma {:induction false} EmptyMatch(pieces: seq<Piece>)
    ensures Match(pieces, "") == if pieces == [] then Some([]) else None
  {
  }

  /** Under a readable format the number handed out next is carried by no stored value, whatever years they
      were printed in, and the sequence moves on; under any other, it does not move, and the same number is
      handed out again. */
  lemma NextIsFresh(stored: seq<string>, format: string, year: nat)
    requires |Widths(Pieces(FormatOrDefault(format)))| == 1
    requires 1000 <= year <= 9999 && MaxSeq(stored, format) < MAX_INT
    ensures var printed := FormatSerial(format, NextSeq(stored, format), year);
      && (Readable(format) ==> printed !in stored && MaxSeq(stored + [printed], format) == NextSeq(stored, format))
      && (!Readable(format) ==> NextSeq(stored + [printed], format) == NextSeq(stored, format))
  {
    var next := NextSeq(stored, format);
    var printed := FormatSerial(format, next, year);
    RoundTrip(format, next, year);
    assert (stored + [printed])[..|stored|] == stored;
  }

  lemma {:induction false} SeqSplit(rest: seq<Piece>, s: string, k: nat) returns (at: nat)
    requires k <= |s| && AllDigits(s[..k]) && MatchSeq(rest, s, k).Some?
    ensures at <= k && Match(rest, s[at..]).Some?
    decreases k
  {
    if Match(rest, s[k..]).Some? {
      at := k;
    } else {
      assert s[..k - 1] == s[..k][..k - 1];
      at := SeqSplit(rest, s, k - 1);
    }
  }

  lemma ReplaceStep(c: char, rest: string, year: string)
    requires c != '{' || (|rest| > 0 && rest[0] != 'y')
    ensures ReplaceYear([c] + rest, year) == [c] + ReplaceYear(rest, year)
  {
    assert ([c] + rest)[1..] == rest;
    assert "{year}"[0] == '{' && "{year}"[1] == 'y';
  }

  // ---- what a number looks like ---------------------------------------------------------------

  /** Digits of a number: its value, without leading zeros but for zero itself. */
  lemma {:induction false} DecimalIs(n: nat)
    ensures Number(Decimal(n)) == n
    ensures Decimal(n)[0] == '0' ==> Decimal(n) == "0"
  {
    NumberOfDecimal(n);
    if n >= 10 {
      DecimalIs(n / 10);
      assert Decimal(n)[0] == Decimal(n / 10)[0];
      OnlyZero(n / 10);
    }
  }

  lemma OnlyZero(n: nat)
    ensures Decimal(n) == "0" ==> n == 0
  {
    NumberOfDecimal(n);
    ZerosAreZero(1);
    assert Zeros(1) == "0";
  }

  /** A number printed in a width fills it with zeros in front, and takes more room only if its digits do. */
  lemma PrintedInWidth(n: nat, width: nat)
    ensures var s, digits := PrintInt(n, width), Decimal(n);
      && |s| == (if |digits| < width then width else |digits|)
      && s[|s| - |digits|..] == digits && (forall i :: 0 <= i < |s| - |digits| ==> s[i] == '0')
      && AllDigits(s) && Number(s) == n
  {
    var k: nat := if |Decimal(n)| < width then width - |Decimal(n)| else 0;
    ZerosOnly(k);
    NumberOfDecimal(n);
    LeadingZeros(k, Decimal(n));
    assert PrintInt(n, width) == Zeros(k) + Decimal(n);
    assert forall ch <- Zeros(k) + Decimal(n) :: ch in Zeros(k) || ch in Decimal(n);
  }

  lemma {:induction false} ZerosOnly(k: nat)
    ensures forall i :: 0 <= i < k ==> Zeros(k)[i] == '0'
  {
    if k > 0 {
      ZerosOnly(k - 1);
    }
  }

  /** The text of a {seq} token and of a {seq:width} one; a width above a million is complained about. */
  lemma TokenPrints(digits: string, n: nat)
    requires digits != "" && AllDigits(digits)
    ensures ReplaceSeq("{seq}", n) == PrintInt(n, 0)
    ensures ReplaceSeq("{seq:" + digits + "}", n) ==
      if Number(digits) <= 1_000_000 then PrintInt(n, Number(digits)) else "%!(BADWIDTH)" + PrintInt(n, 0)
  {
    var s := "{seq:" + digits + "}";
    assert s[..5] == "{seq:" && s[5..] == digits + "}" && s[5 + |digits|] == '}';
    assert s[..5][4] == ':' && "{seq}"[4] == '}';
    RunIs(digits, "}");
    assert SeqToken(s) == Some((6 + |digits|, digits)) by { assert s[5..][..|digits|] == digits; }
    assert s[6 + |digits|..] == "" && ReplaceSeq("", n) == "";
    assert "{seq}"[5..] == "" && SeqToken("{seq}") == Some((5, ""));
  }

  lemma {:induction false} RunIs(digits: string, rest: string)
    requires AllDigits(digits) && (rest == "" || !IsDigit(rest[0]))
    ensures DigitRun(digits + rest) == |digits|
  {
    if digits == "" {
      assert digits + rest == rest;
    } else {
      assert digits[0] in digits && (digits + rest)[1..] == digits[1..] + rest;
      assert forall ch <- digits[1..] :: ch in digits;
      RunIs(digits[1..], rest);
    }
  }
}
