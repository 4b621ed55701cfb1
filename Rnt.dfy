/**
  The social-security contribution-base reader (rnt_reader.py). Page texts are scanned line by
  line; a worker line and a settlement-period header set the current worker and period, which
  persist across lines and pages, and every contribution-base line adds its amount to the
  bucket of (worker, year, month). Pages without text, and pages with a period header but no
  captured base, are reported. The buckets are then listed month by month and rolled up per
  DNI and year.
*/
module Rnt {
  import opened Wrappers
  import opened Text
  import opened Decimal
  import opened Seqs

  // ---------------------------------------------------------------------------------------------
  // Amounts (lines 7-27)
  // ---------------------------------------------------------------------------------------------

  /** `_parse_importe`, applied by the reader only to text that is an amount. */
  function ParseImporte(s: string): (v: real)
    requires IsAmount(s)
    ensures SpanishToFloat(s) == Some(v) && v >= 0.0
  {
    SpanishAmountValue(s);
    AmountValue(s)
  }

  /** `"1.234,56"` parses as 1234.56. */
  lemma ParseImporteExample()
    ensures IsAmount("1.234,56") && ParseImporte("1.234,56") == 1234.56
  {
    SpanishExampleValue();
  }

  /** An amount spanning `[p, e)` of `line` with only whitespace after it. */
  predicate EndMatch(line: string, p: int, e: int) {
    0 <= p <= e <= |line| && IsAmount(line[p..e]) && forall j :: e <= j < |line| ==> IsSpace(line[j])
  }

  /** The amount at the end of a line, as `re.search(amount + r"\s*$", line)` finds it. */
  function AmountAtEnd(line: string): (r: Option<string>)
    ensures r.Some? ==> IsAmount(r.value)
  {
    var u := RStrip(line);
    match AmountSuffixFrom(u, 0)
    case Some(p) => Some(u[p..])
    case None => None
  }

  /** An amount followed only by whitespace ends where the trailing whitespace begins. */
  lemma EndMatchStripped(line: string, p: int, e: int)
    requires EndMatch(line, p, e)
    ensures e == |RStrip(line)| && line[p..e] == RStrip(line)[p..]
  {
    var u := RStrip(line);
    RStripSpec(line);
    assert IsDigit(line[p..e][e - p - 1]);
    assert !IsSpace(line[e - 1]);
  }

  /**
    The end-of-line amount exists exactly when some amount is followed only by whitespace, and
    it is the one starting leftmost.
  */
  lemma AmountAtEndLeftmost(line: string)
    ensures AmountAtEnd(line).None? <==> forall p, e :: !EndMatch(line, p, e)
    ensures AmountAtEnd(line).Some? ==>
              exists p, e :: EndMatch(line, p, e) && AmountAtEnd(line).value == line[p..e]
                             && forall q, f :: EndMatch(line, q, f) ==> p <= q
  {
    var u := RStrip(line);
    RStripSpec(line);
    forall q, f | EndMatch(line, q, f) ensures AmountSuffixFrom(u, 0).Some? && AmountSuffixFrom(u, 0).value <= q {
      EndMatchStripped(line, q, f);
    }
    if AmountSuffixFrom(u, 0).Some? {
      var p := AmountSuffixFrom(u, 0).value;
      assert line[p..|u|] == u[p..];
      assert EndMatch(line, p, |u|);
    }
  }

  /** Which lines, stripped, are exactly an amount (`re.fullmatch` on `candidata`). */
  function BareAmounts(lines: seq<string>): (m: seq<bool>)
    ensures |m| == |lines| && forall j :: 0 <= j < |lines| ==> m[j] == IsAmount(Strip(lines[j]))
  {
    seq(|lines|, j requires 0 <= j < |lines| => IsAmount(Strip(lines[j])))
  }

  /**
    The loop over the following lines: the first marked position from `from` to `to`, stopping
    at the last line.
  */
  function FirstMarked(m: seq<bool>, from: nat, to: nat): (r: Option<nat>)
    decreases to + 1 - from
    ensures r.Some? ==> from <= r.value <= to && r.value < |m| && m[r.value]
    ensures r.Some? ==> forall j :: from <= j < r.value ==> !m[j]
    ensures r.None? ==> forall j :: from <= j <= to && j < |m| ==> !m[j]
  {
    if from > to || from >= |m| then None
    else if m[from] then Some(from)
    else FirstMarked(m, from + 1, to)
  }

  /** The first of lines `i + 1 .. i + maxOffset` that, stripped, is exactly an amount. */
  function NextAmount(lines: seq<string>, i: nat, maxOffset: nat): (r: Option<string>)
    ensures r.Some? ==> IsAmount(r.value)
  {
    match FirstMarked(BareAmounts(lines), i + 1, i + maxOffset)
    case Some(j) => Some(Strip(lines[j]))
    case None => None
  }

  /**
    `_extraer_importe_en_linea_o_siguiente(lines, i, max_offset)`: the amount at the end of line
    `i`, else the first of the next `maxOffset` lines that is a bare amount.
  */
  function AmountNear(lines: seq<string>, i: nat, maxOffset: nat): (r: Option<real>)
    requires i < |lines|
    ensures r.Some? ==> r.value >= 0.0
  {
    match AmountAtEnd(lines[i])
    case Some(a) => Some(ParseImporte(a))
    case None =>
      match NextAmount(lines, i, maxOffset)
      case Some(a) => Some(ParseImporte(a))
      case None => None
  }

  /** An amount at the end of the line wins over the following lines. */
  lemma AmountNearSameLine(lines: seq<string>, i: nat, maxOffset: nat)
    requires i < |lines| && AmountAtEnd(lines[i]).Some?
    ensures AmountNear(lines, i, maxOffset) == Some(ParseImporte(AmountAtEnd(lines[i]).value))
  {
  }

  /** Otherwise the value is that of the first bare amount among the next lines, if any. */
  lemma AmountNearNextLines(lines: seq<string>, i: nat, maxOffset: nat)
    requires i < |lines| && AmountAtEnd(lines[i]).None?
    ensures AmountNear(lines, i, maxOffset).None?
            <==> forall j :: i < j <= i + maxOffset && j < |lines| ==> !IsAmount(Strip(lines[j]))
    ensures AmountNear(lines, i, maxOffset).Some? ==>
              exists j :: i < j <= i + maxOffset && j < |lines| && IsAmount(Strip(lines[j]))
                          && AmountNear(lines, i, maxOffset).value == ParseImporte(Strip(lines[j]))
                          && forall j' :: i < j' < j ==> !IsAmount(Strip(lines[j']))
  {
  }

  // ---------------------------------------------------------------------------------------------
  // Line cleaning (lines 68-69): NFKD decomposition, then non-ASCII characters dropped
  // ---------------------------------------------------------------------------------------------

  /** The ASCII characters a character leaves after NFKD and `encode("ascii", "ignore")`. */
  function FoldChar(c: char): (r: string)
    ensures forall i :: 0 <= i < |r| ==> r[i] as int < 128
  {
    var n := c as int;
    if n < 0x80 then [c]
    else if n == 0xA0 || n == 0xA8 || n == 0xAF || n == 0xB4 || n == 0xB8 then " "
    else if n == 0xAA then "a"
    else if n == 0xBA then "o"
    else if n == 0xB2 then "2"
    else if n == 0xB3 then "3"
    else if n == 0xB9 then "1"
    else if n == 0xBC then "14"
    else if n == 0xBD then "12"
    else if n == 0xBE then "34"
    else if 0xC0 <= n <= 0xC5 then "A"
    else if n == 0xC7 then "C"
    else if 0xC8 <= n <= 0xCB then "E"
    else if 0xCC <= n <= 0xCF then "I"
    else if n == 0xD1 then "N"
    else if 0xD2 <= n <= 0xD6 then "O"
    else if 0xD9 <= n <= 0xDC then "U"
    else if n == 0xDD then "Y"
    else if 0xE0 <= n <= 0xE5 then "a"
    else if n == 0xE7 then "c"
    else if 0xE8 <= n <= 0xEB then "e"
    else if 0xEC <= n <= 0xEF then "i"
    else if n == 0xF1 then "n"
    else if 0xF2 <= n <= 0xF6 then "o"
    else if 0xF9 <= n <= 0xFC then "u"
    else if n == 0xFD || n == 0xFF then "y"
    else ""
  }

  /** The cleaned line: ASCII only. */
  function Fold(s: string): (r: string)
    ensures forall i :: 0 <= i < |r| ==> r[i] as int < 128
  {
    if s == [] then [] else FoldChar(s[0]) + Fold(s[1..])
  }

  /** An ASCII line is left as it is. */
  lemma {:induction false} FoldAscii(s: string)
    requires forall i :: 0 <= i < |s| ==> s[i] as int < 128
    ensures Fold(s) == s
    decreases |s|
  {
    if s != [] {
      FoldAscii(s[1..]);
      assert [s[0]] + s[1..] == s;
    }
  }

  lemma {:induction false} FoldAppend(a: string, b: string)
    ensures Fold(a + b) == Fold(a) + Fold(b)
    decreases |a|
  {
    if a == [] {
      assert a + b == b;
    } else {
      assert (a + b)[1..] == a[1..] + b;
      FoldAppend(a[1..], b);
    }
  }

  /** An accented capital loses its accent: `COTIZACIÓN ADIC` is compared as `COTIZACION ADIC`. */
  lemma FoldAccent(a: string, b: string)
    requires forall i :: 0 <= i < |a| ==> a[i] as int < 128
    requires forall i :: 0 <= i < |b| ==> b[i] as int < 128
    ensures Fold(a + "Ó" + b) == a + "O" + b
  {
    FoldAppend(a + "Ó", b);
    FoldAppend(a, "Ó");
    FoldAscii(a);
    FoldAscii(b);
    FoldCapitalO();
  }

  lemma FoldCapitalO()
    ensures Fold("Ó") == "O"
  {
    assert "Ó"[1..] == [];
  }

  // ---------------------------------------------------------------------------------------------
  // Worker lines and period headers (lines 58-61, 72-75)
  // ---------------------------------------------------------------------------------------------

  /** A worker identifier (IPF): nine or ten digits and a capital letter. */
  predicate IsWorkerId(w: string) {
    (|w| == 10 || |w| == 11) && AllDigits(w[..|w| - 1]) && IsUpper(w[|w| - 1])
  }

  /**
    `re.match(r"(\d{11,12})\s+(\d{9,10}[A-Z])", line).group(2)`: the digit run opening the line
    must be 11 or 12 long (a longer one leaves no whitespace after the first group on any
    backtrack), and the second digit run 9 or 10 long and followed by a capital letter.
  */
  function WorkerMatch(line: string): (w: Option<string>)
    ensures w.Some? ==> IsWorkerId(w.value)
  {
    var a := DigitRun(line, 0);
    var s := SpaceRun(line, a);
    var j := a + s;
    var d := DigitRun(line, j);
    if (a == 11 || a == 12) && s >= 1 && (d == 9 || d == 10) && j + d < |line| && IsUpper(line[j + d])
    then Some(line[j..j + d + 1])
    else None
  }

  /** The pattern recognised from its three runs: 11 or 12 digits, whitespace, 9 or 10 digits and a capital. */
  lemma WorkerMatchRuns(line: string, a: nat, s: nat, d: nat)
    requires (a == 11 || a == 12) && s >= 1 && (d == 9 || d == 10) && a + s + d < |line|
    requires forall x :: 0 <= x < a ==> IsDigit(line[x])
    requires forall x :: a <= x < a + s ==> IsSpace(line[x])
    requires forall x :: a + s <= x < a + s + d ==> IsDigit(line[x])
    requires IsUpper(line[a + s + d])
    ensures WorkerMatch(line) == Some(line[a + s..a + s + d + 1])
  {
    RunsOf(line, a, s, d);
    WorkerMatchOfRuns(line, a, s, d);
  }

  lemma WorkerMatchOfRuns(line: string, a: nat, s: nat, d: nat)
    requires (a == 11 || a == 12) && s >= 1 && (d == 9 || d == 10) && a + s + d < |line|
    requires DigitRun(line, 0) == a && SpaceRun(line, a) == s && DigitRun(line, a + s) == d
    requires IsUpper(line[a + s + d])
    ensures WorkerMatch(line) == Some(line[a + s..a + s + d + 1])
  {
  }

  lemma RunsOf(line: string, a: nat, s: nat, d: nat)
    requires a + s + d < |line|
    requires forall x :: 0 <= x < a ==> IsDigit(line[x])
    requires forall x :: a <= x < a + s ==> IsSpace(line[x])
    requires forall x :: a + s <= x < a + s + d ==> IsDigit(line[x])
    requires s >= 1 && d >= 1 && IsUpper(line[a + s + d])
    ensures DigitRun(line, 0) == a && SpaceRun(line, a) == s && DigitRun(line, a + s) == d
  {
    SpaceNotDigit(line[a]);
    DigitRunExact(line, 0, a);
    DigitNotSpace(line[a + s]);
    SpaceRunExact(line, a, s);
    UpperNotDigit(line[a + s + d]);
    DigitRunExact(line, a + s, d);
  }

  lemma SpaceNotDigit(c: char)
    requires IsSpace(c)
    ensures !IsDigit(c)
  {
  }

  lemma DigitNotSpace(c: char)
    requires IsDigit(c)
    ensures !IsSpace(c)
  {
  }

  lemma UpperNotDigit(c: char)
    requires IsUpper(c)
    ensures !IsDigit(c)
  {
  }

  /** A worker is found in a line that opens with the pattern, and it is the second group. */
  lemma WorkerMatchAccepts(d1: string, sp: string, d2: string, u: char, rest: string)
    requires (|d1| == 11 || |d1| == 12) && AllDigits(d1)
    requires |sp| >= 1 && forall i :: 0 <= i < |sp| ==> IsSpace(sp[i])
    requires (|d2| == 9 || |d2| == 10) && AllDigits(d2) && IsUpper(u)
    ensures WorkerMatch(d1 + sp + d2 + [u] + rest) == Some(d2 + [u])
  {
    Layout(d1, sp, d2, u, rest);
    WorkerMatchRuns(d1 + sp + d2 + [u] + rest, |d1|, |sp|, |d2|);
  }

  /** Where the pieces of such a line sit. */
  lemma Layout(d1: string, sp: string, d2: string, u: char, rest: string)
    requires AllDigits(d1) && AllDigits(d2) && forall i :: 0 <= i < |sp| ==> IsSpace(sp[i])
    ensures var line, a, j := d1 + sp + d2 + [u] + rest, |d1|, |d1| + |sp|;
      && j + |d2| < |line| && line[j + |d2|] == u && line[j..j + |d2| + 1] == d2 + [u]
      && (forall x :: 0 <= x < a ==> IsDigit(line[x]))
      && (forall x :: a <= x < j ==> IsSpace(line[x]))
      && (forall x :: j <= x < j + |d2| ==> IsDigit(line[x]))
  {
    var p1 := d1 + sp;
    var p2 := p1 + d2;
    var p3 := p2 + [u];
    var line := p3 + rest;
    var a, j := |d1|, |d1| + |sp|;
    assert forall x :: 0 <= x < |p3| ==> line[x] == p3[x];
    assert forall x :: 0 <= x < |p2| ==> p3[x] == p2[x];
    assert forall x :: 0 <= x < |p1| ==> p2[x] == p1[x];
    assert forall x :: 0 <= x < a ==> p1[x] == d1[x];
    assert forall x :: a <= x < j ==> p1[x] == sp[x - a];
    assert forall x :: j <= x < j + |d2| ==> p2[x] == d2[x - j];
    assert line[j..j + |d2| + 1] == d2 + [u];
  }

  /** Conversely, a found worker follows 11 or 12 digits and some whitespace at the start of the line. */
  lemma WorkerMatchForm(line: string)
    requires WorkerMatch(line).Some?
    ensures exists d1, sp, rest :: line == d1 + sp + WorkerMatch(line).value + rest
                                   && (|d1| == 11 || |d1| == 12) && AllDigits(d1)
                                   && |sp| >= 1 && forall j :: 0 <= j < |sp| ==> IsSpace(sp[j])
  {
    var w := WorkerMatch(line).value;
    var a := DigitRun(line, 0);
    var s := SpaceRun(line, a);
    assert w == line[a + s..a + s + |w|];
    CutLine(line, a, a + s, a + s + |w|);
  }

  /** A line whose first `a` characters are digits and whose next `b - a` are whitespace, cut around `[b, e)`. */
  lemma CutLine(line: string, a: nat, b: nat, e: nat)
    requires a <= b <= e <= |line|
    requires forall x :: 0 <= x < a ==> IsDigit(line[x])
    requires forall x :: a <= x < b ==> IsSpace(line[x])
    ensures exists d1, sp, rest :: line == d1 + sp + line[b..e] + rest && |d1| == a && AllDigits(d1)
                                   && |sp| == b - a && forall j :: 0 <= j < |sp| ==> IsSpace(sp[j])
  {
    SliceFour(line, a, b, e);
    var d1, sp, rest := line[..a], line[a..b], line[e..];
    assert AllDigits(d1) by {
      forall x | 0 <= x < |d1| ensures IsDigit(d1[x]) {
        assert d1[x] == line[x];
      }
    }
    forall x | 0 <= x < |sp| ensures IsSpace(sp[x]) {
      assert sp[x] == line[a + x];
    }
  }

  lemma {:induction false} DigitRunExact(s: string, i: nat, n: nat)
    requires i + n <= |s| && (forall j :: i <= j < i + n ==> IsDigit(s[j])) && (i + n == |s| || !IsDigit(s[i + n]))
    ensures DigitRun(s, i) == n
    decreases n
  {
    if n > 0 {
      DigitRunExact(s, i + 1, n - 1);
    }
  }

  lemma {:induction false} SpaceRunExact(s: string, i: nat, n: nat)
    requires i + n <= |s| && (forall j :: i <= j < i + n ==> IsSpace(s[j])) && (i + n == |s| || !IsSpace(s[i + n]))
    ensures SpaceRun(s, i) == n
    decreases n
  {
    if n > 0 {
      SpaceRunExact(s, i + 1, n - 1);
    }
  }

  /** The identifier that goes into the DNI column: the last nine characters of the IPF. */
  lemma WorkerDni(w: string)
    requires IsWorkerId(w)
    ensures |Last(w, 9)| == 9 && Last(w, 9) == w[|w| - 9..] && IsUpper(Last(w, 9)[8])
  {
  }

  const PeriodLabel: string := "Periodo de liquidación"

  /** `Periodo de liquidación\s+(\d{2})/(\d{4})` matched at `i`: (month, year). */
  function PeriodAt(t: string, i: nat): (r: Option<(string, string)>)
    ensures r.Some? ==> |r.value.0| == 2 && |r.value.1| == 4 && AllDigits(r.value.0) && AllDigits(r.value.1)
  {
    if !StartsAt(t, PeriodLabel, i) then None
    else
      var s := SpaceRun(t, i + |PeriodLabel|);
      var k := i + |PeriodLabel| + s;
      if s >= 1 && k + 7 <= |t| && AllDigits(t[k..k + 2]) && t[k + 2] == '/' && AllDigits(t[k + 3..k + 7])
      then Some((t[k..k + 2], t[k + 3..k + 7]))
      else None
  }

  /** Where `re.search` finds the period header from `i`: the leftmost position that matches. */
  function PeriodPos(t: string, i: nat): (k: Option<nat>)
    decreases |t| - i
    ensures k.Some? ==> i <= k.value <= |t| && PeriodAt(t, k.value).Some?
    ensures k.Some? ==> forall j :: i <= j < k.value ==> PeriodAt(t, j).None?
    ensures k.None? ==> forall j :: i <= j <= |t| ==> PeriodAt(t, j).None?
  {
    if PeriodAt(t, i).Some? then Some(i)
    else if i >= |t| then None
    else PeriodPos(t, i + 1)
  }

  /** `re.search` of the period header from `i`: its leftmost match. */
  function FindPeriod(t: string, i: nat): (r: Option<(string, string)>)
    ensures r.Some? ==> exists k :: i <= k <= |t| && PeriodAt(t, k) == r && forall j :: i <= j < k ==> PeriodAt(t, j).None?
    ensures r.None? ==> forall k :: i <= k <= |t| ==> PeriodAt(t, k).None?
    ensures r.Some? ==> |r.value.0| == 2 && |r.value.1| == 4 && AllDigits(r.value.0) && AllDigits(r.value.1)
  {
    match PeriodPos(t, i)
    case None => None
    case Some(k) => PeriodAt(t, k)
  }


  // ---------------------------------------------------------------------------------------------
  // Reading a page (lines 51-58, 63-72, 81, 91, 102, 113): text to plain facts
  // ---------------------------------------------------------------------------------------------

  const TotalsLabel: string := "SUMA DE BASES"

  /** The three contribution bases accumulated per bucket. */
  datatype Category = CommonContingencies | WorkAccidents | Solidarity

  /** The keyword test of each category, made on the cleaned line. */
  predicate Announces(line: string, c: Category) {
    match c
    case CommonContingencies => Contains(line, "BASE DE CONTINGENCIAS COMUNES")
    case WorkAccidents => Contains(line, "BASE DE ACCIDENTES DE TRABAJO")
    case Solidarity => Contains(line, "COTIZACION ADIC") || Contains(line, "SOLIDARIDAD")
  }

  /**
    What the scanner uses of one line: the worker it opens, whether it is a totals line, which
    categories it announces, and the amount found at it or just below it.
  */
  datatype LineInfo = LineInfo(worker: Option<string>, totals: bool, cc: bool, at: bool, sol: bool, amount: Option<real>)

  function Says(info: LineInfo, c: Category): bool {
    match c
    case CommonContingencies => info.cc
    case WorkAccidents => info.at
    case Solidarity => info.sol
  }

  predicate LineOk(info: LineInfo) {
    (info.worker.Some? ==> IsWorkerId(info.worker.value)) && (info.amount.Some? ==> info.amount.value >= 0.0)
  }

  /**
    Line `i` of a page. The worker, the totals label and the keywords are looked for in the
    cleaned line; the amount is looked for in the page's own lines, which are not cleaned.
  */
  function ReadLine(raw: seq<string>, i: nat): (info: LineInfo)
    requires i < |raw|
    ensures LineOk(info)
  {
    var line := Fold(raw[i]);
    LineInfo(WorkerMatch(line), Contains(line, TotalsLabel),
             Announces(line, CommonContingencies), Announces(line, WorkAccidents), Announces(line, Solidarity),
             AmountNear(raw, i, 3))
  }

  /** A substring is found wherever it occurs. */
  lemma ContainsAt(s: string, sub: string, i: nat)
    requires StartsAt(s, sub, i)
    ensures Contains(s, sub)
  {
  }

  /** `COTIZACIÓN ADIC`, accent and all, announces the solidarity base. */
  lemma ReadLineSolidarity(a: string, b: string)
    requires forall i :: 0 <= i < |a| ==> a[i] as int < 128
    requires forall i :: 0 <= i < |b| ==> b[i] as int < 128
    ensures ReadLine([a + "COTIZACIÓN ADIC" + b], 0).sol
  {
    var pre := a + "COTIZACI";
    var post := "N ADIC" + b;
    assert a + "COTIZACIÓN ADIC" + b == pre + "Ó" + post;
    FoldAccent(pre, post);
    var line := pre + "O" + post;
    assert line[|a|..|a| + |"COTIZACION ADIC"|] == "COTIZACION ADIC";
    ContainsAt(line, "COTIZACION ADIC", |a|);
  }

  /** A page as the scanner sees it: no text at all, or its period header and its lines. */
  datatype PageText = Blank | Page(header: Option<(string, string)>, lines: seq<LineInfo>)

  predicate PeriodOk(p: (string, string)) {
    |p.0| == 2 && |p.1| == 4 && AllDigits(p.0) && AllDigits(p.1)
  }

  predicate PageOk(pg: PageText) {
    pg.Page? ==> (pg.header.Some? ==> PeriodOk(pg.header.value)) && forall i :: 0 <= i < |pg.lines| ==> LineOk(pg.lines[i])
  }

  /** `extract_text()` of a page is `None` or a string; empty text counts as no text. */
  function ReadPage(text: Option<string>): (pg: PageText)
    ensures PageOk(pg)
    ensures pg.Blank? <==> text.None? || text.value == ""
  {
    if text.None? || text.value == "" then Blank
    else
      Page(FindPeriod(text.value, 0), ReadLines(Split(text.value, "\n")))
  }

  /** A page with text has the period header found first in it, and one entry per line of it. */
  lemma ReadPageLines(text: string, i: nat)
    requires text != "" && i < |Split(text, "\n")|
    ensures ReadPage(Some(text)).header == FindPeriod(text, 0)
    ensures |ReadPage(Some(text)).lines| == |Split(text, "\n")|
    ensures ReadPage(Some(text)).lines[i] == ReadLine(Split(text, "\n"), i)
  {
  }

  /** Every line of a page, read in order. */
  function ReadLines(lines: seq<string>): (ls: seq<LineInfo>)
    ensures |ls| == |lines| && forall i :: 0 <= i < |ls| ==> LineOk(ls[i])
  {
    seq(|lines|, i requires 0 <= i < |lines| => ReadLine(lines, i))
  }

  lemma ReadLinesAt(lines: seq<string>, i: nat)
    requires i < |lines|
    ensures ReadLines(lines)[i] == ReadLine(lines, i)
  {
  }

  /** Every page of a document, read in order. */
  function ReadPages(pages: seq<Option<string>>): (ps: seq<PageText>)
    ensures |ps| == |pages| && forall i :: 0 <= i < |ps| ==> PageOk(ps[i])
  {
    if pages == [] then [] else [ReadPage(pages[0])] + ReadPages(pages[1..])
  }

  lemma {:induction false} ReadPagesAt(pages: seq<Option<string>>, i: nat)
    requires i < |pages|
    ensures ReadPages(pages)[i] == ReadPage(pages[i])
  {
    if i > 0 {
      ReadPagesAt(pages[1..], i - 1);
    }
  }

  // ---------------------------------------------------------------------------------------------
  // Buckets (lines 33-37, 94, 105, 116): a dictionary kept in insertion order
  // ---------------------------------------------------------------------------------------------

  datatype Bases = Bases(cc: real, at: real, sol: real)

  const Zero: Bases := Bases(0.0, 0.0, 0.0)

  function Get(b: Bases, c: Category): real {
    match c
    case CommonContingencies => b.cc
    case WorkAccidents => b.at
    case Solidarity => b.sol
  }

  /** `valores[c] += v`: one category grows, the others stay. */
  function AddTo(b: Bases, c: Category, v: real): (r: Bases)
    ensures Get(r, c) == Get(b, c) + v
    ensures forall c' :: c' != c ==> Get(r, c') == Get(b, c')
  {
    match c
    case CommonContingencies => b.(cc := b.cc + v)
    case WorkAccidents => b.(at := b.at + v)
    case Solidarity => b.(sol := b.sol + v)
  }

  /** A `defaultdict` of bases: its entries in the order their keys were first used. */
  type Ledger<K> = seq<(K, Bases)>

  /** Where `k` is kept, if it is. */
  function Find<K(==)>(l: Ledger<K>, k: K): (r: Option<nat>)
    ensures r.Some? ==> r.value < |l| && l[r.value].0 == k && forall j :: 0 <= j < r.value ==> l[j].0 != k
    ensures r.None? ==> forall j :: 0 <= j < |l| ==> l[j].0 != k
  {
    if l == [] then None
    else if l[0].0 == k then Some(0)
    else match Find(l[1..], k)
      case Some(j) => Some(j + 1)
      case None => None
  }

  /** `detalle[k]`: a key never used reads as all zeros. */
  function BasesOf<K(==)>(l: Ledger<K>, k: K): Bases {
    match Find(l, k)
    case Some(i) => l[i].1
    case None => Zero
  }

  function Keys<K>(l: Ledger<K>): set<K> {
    set i | 0 <= i < |l| :: l[i].0
  }

  /** Each key is kept once. */
  ghost predicate DistinctKeys<K>(l: Ledger<K>) {
    forall i, j :: 0 <= i < j < |l| ==> l[i].0 != l[j].0
  }

  /** `b` is `a` with possibly more keys after it, and no base of `a` smaller. */
  ghost predicate Grows<K>(a: Ledger<K>, b: Ledger<K>) {
    |a| <= |b| && forall j :: 0 <= j < |a| ==>
      b[j].0 == a[j].0 && b[j].1.cc >= a[j].1.cc && b[j].1.at >= a[j].1.at && b[j].1.sol >= a[j].1.sol
  }

  /** No base below zero. */
  ghost predicate NonNegative<K>(l: Ledger<K>) {
    forall j :: 0 <= j < |l| ==> l[j].1.cc >= 0.0 && l[j].1.at >= 0.0 && l[j].1.sol >= 0.0
  }

  lemma GrowsTrans<K>(a: Ledger<K>, b: Ledger<K>, c: Ledger<K>)
    requires Grows(a, b) && Grows(b, c)
    ensures Grows(a, c)
  {
  }

  /** Ledgers with the same keys in the same places find every key in the same place. */
  lemma SameKeysFind<K(!new)>(a: Ledger<K>, b: Ledger<K>)
    requires |a| == |b| && forall j :: 0 <= j < |a| ==> a[j].0 == b[j].0
    ensures forall k :: Find(a, k) == Find(b, k)
  {
    forall k ensures Find(a, k) == Find(b, k) {
      var fa, fb := Find(a, k), Find(b, k);
      if fa.Some? {
        assert b[fa.value].0 == k;
      }
      if fb.Some? {
        assert a[fb.value].0 == k;
      }
    }
  }

  /** Appending a new key leaves every other key where it was, and puts the new one last. */
  lemma AppendFind<K(!new)>(a: Ledger<K>, e: (K, Bases))
    requires Find(a, e.0).None?
    ensures Find(a + [e], e.0) == Some(|a|)
    ensures forall k :: k != e.0 ==> Find(a + [e], k) == Find(a, k)
  {
    var r := a + [e];
    FindAt(r, e.0, |a|);
    forall k | k != e.0 ensures Find(r, k) == Find(a, k) {
      match Find(a, k)
      case Some(i) => FindAt(r, k, i);
      case None => FindNone(r, k);
    }
  }

  /** The first place that holds `k` is where `Find` finds it. */
  lemma FindAt<K>(l: Ledger<K>, k: K, i: nat)
    requires i < |l| && l[i].0 == k && forall j :: 0 <= j < i ==> l[j].0 != k
    ensures Find(l, k) == Some(i)
  {
    var f := Find(l, k);
    if f.Some? {
      assert !(f.value < i) && !(i < f.value);
    }
  }

  lemma FindNone<K>(l: Ledger<K>, k: K)
    requires forall j :: 0 <= j < |l| ==> l[j].0 != k
    ensures Find(l, k) == None
  {
  }

  /** `detalle[k][c] += v`: the entry of `k` is updated in place, or appended when `k` is new. */
  function Credit<K(==)>(l: Ledger<K>, k: K, c: Category, v: real): (r: Ledger<K>)
    ensures |r| == |l| + (if Find(l, k).None? then 1 else 0)
    ensures forall j :: 0 <= j < |l| ==> r[j].0 == l[j].0
    ensures |r| > |l| ==> r[|l|] == (k, AddTo(Zero, c, v))
  {
    match Find(l, k)
    case Some(i) => l[i := (k, AddTo(l[i].1, c, v))]
    case None => l + [(k, AddTo(Zero, c, v))]
  }

  /** The credited key reads one base higher; every other key reads as before. */
  lemma CreditBases<K(!new)>(l: Ledger<K>, k: K, c: Category, v: real)
    ensures BasesOf(Credit(l, k, c, v), k) == AddTo(BasesOf(l, k), c, v)
    ensures forall k' :: k' != k ==> BasesOf(Credit(l, k, c, v), k') == BasesOf(l, k')
  {
    var r := Credit(l, k, c, v);
    if Find(l, k).Some? {
      SameKeysFind(l, r);
    } else {
      AppendFind(l, (k, AddTo(Zero, c, v)));
    }
  }

  /** Crediting a key adds it to the keys, if it was not there. */
  lemma CreditKeys<K>(l: Ledger<K>, k: K, c: Category, v: real)
    ensures Keys(Credit(l, k, c, v)) == Keys(l) + {k}
  {
    var r := Credit(l, k, c, v);
    forall x | x in Keys(r) ensures x in Keys(l) + {k} {
      var j :| 0 <= j < |r| && r[j].0 == x;
      if j < |l| {
        assert l[j].0 == x;
      }
    }
    forall x | x in Keys(l) ensures x in Keys(r) {
      var j :| 0 <= j < |l| && l[j].0 == x;
      assert r[j].0 == x;
    }
    if Find(l, k).Some? {
      assert l[Find(l, k).value].0 == k;
    } else {
      assert r[|l|].0 == k;
    }
  }

  /** Crediting keeps keys distinct. */
  lemma CreditDistinct<K>(l: Ledger<K>, k: K, c: Category, v: real)
    requires DistinctKeys(l)
    ensures DistinctKeys(Credit(l, k, c, v))
  {
  }

  /** A non-negative amount lowers no base. */
  lemma CreditGrows<K>(l: Ledger<K>, k: K, c: Category, v: real)
    requires v >= 0.0
    ensures Grows(l, Credit(l, k, c, v))
  {
  }

  lemma CreditNonNegative<K>(l: Ledger<K>, k: K, c: Category, v: real)
    requires v >= 0.0 && NonNegative(l)
    ensures NonNegative(Credit(l, k, c, v))
  {
  }

  /** With distinct keys, each entry is what `detalle[k]` reads. */
  lemma EntryIsBases<K>(l: Ledger<K>, j: nat)
    requires DistinctKeys(l) && j < |l|
    ensures BasesOf(l, l[j].0) == l[j].1
  {
    assert Find(l, l[j].0) == Some(j);
  }

  // ---------------------------------------------------------------------------------------------
  // Scanning (lines 39-123)
  // ---------------------------------------------------------------------------------------------

  /** `trabajador_actual` and `(mes_actual, año_actual)`, carried across lines and pages. */
  datatype Scanner = Scanner(worker: Option<string>, period: Option<(string, string)>)

  /** A bucket key: (IPF, year, month), the year and month as the header writes them. */
  type Bucket = (string, string, string)

  /** The state inside one page: the scanner, the buckets and `bases_en_pagina`. */
  datatype Run = Run(scanner: Scanner, ledger: Ledger<Bucket>, captured: nat)

  /** The scanner after a worker line opens a new worker. */
  function Current(sc: Scanner, info: LineInfo): Scanner {
    if info.worker.Some? then sc.(worker := info.worker) else sc
  }

  /** The bucket a line credits, if it is read at all: there are a worker and a period, and it is not a totals line. */
  function Target(sc: Scanner, info: LineInfo): (t: Option<Bucket>)
    ensures t.Some? <==> Current(sc, info).worker.Some? && sc.period.Some? && !info.totals
  {
    var s := Current(sc, info);
    if s.worker.None? || s.period.None? || info.totals then None
    else Some((s.worker.value, s.period.value.1, s.period.value.0))
  }

  /** One `if <keyword> in linea` block: the amount goes to category `c` and is counted. */
  function Capture(r: Run, key: Bucket, hit: bool, c: Category, v: Option<real>): Run {
    if hit && v.Some? then Run(r.scanner, Credit(r.ledger, key, c, v.value), r.captured + 1) else r
  }

  /** One line of the page's loop (lines 68-119). */
  function LineStep(r: Run, info: LineInfo): Run {
    var sc := Current(r.scanner, info);
    if sc.worker.None? || sc.period.None? then r.(scanner := sc)
    else if info.totals then r.(scanner := sc.(worker := None))
    else
      var key := (sc.worker.value, sc.period.value.1, sc.period.value.0);
      var r0 := r.(scanner := sc);
      var r1 := Capture(r0, key, info.cc, CommonContingencies, info.amount);
      var r2 := Capture(r1, key, info.at, WorkAccidents, info.amount);
      Capture(r2, key, info.sol, Solidarity, info.amount)
  }

  /** How many amounts a line captures: one per category it announces, when an amount was found. */
  function Hits(info: LineInfo): nat {
    if info.amount.None? then 0
    else (if info.cc then 1 else 0) + (if info.at then 1 else 0) + (if info.sol then 1 else 0)
  }

  /** What a category of a line adds to its bucket. */
  function Added(info: LineInfo, c: Category): real {
    if Says(info, c) && info.amount.Some? then info.amount.value else 0.0
  }

  /** The worker persists until another worker line or a totals line; the period is never touched by a line. */
  lemma LineScanner(r: Run, info: LineInfo)
    ensures LineStep(r, info).scanner.period == r.scanner.period
    ensures info.worker.Some? && !(r.scanner.period.Some? && info.totals) ==> LineStep(r, info).scanner.worker == info.worker
    ensures info.worker.None? && !info.totals ==> LineStep(r, info).scanner.worker == r.scanner.worker
    ensures info.totals && r.scanner.period.Some? ==> LineStep(r, info).scanner.worker.None?
  {
  }

  lemma CaptureBases(r: Run, key: Bucket, hit: bool, c: Category, v: Option<real>, k: Bucket, c': Category)
    ensures Get(BasesOf(Capture(r, key, hit, c, v).ledger, k), c') ==
            Get(BasesOf(r.ledger, k), c') + (if hit && v.Some? && k == key && c == c' then v.value else 0.0)
  {
    if hit && v.Some? {
      CreditBases(r.ledger, key, c, v.value);
    }
  }

  lemma CaptureGrows(r: Run, key: Bucket, hit: bool, c: Category, v: Option<real>)
    requires v.Some? ==> v.value >= 0.0
    ensures Grows(r.ledger, Capture(r, key, hit, c, v).ledger)
  {
    if hit && v.Some? {
      CreditGrows(r.ledger, key, c, v.value);
    }
  }

  lemma CaptureSound(r: Run, key: Bucket, hit: bool, c: Category, v: Option<real>)
    requires v.Some? ==> v.value >= 0.0
    requires KeyOk(key) && KeysOk(r.ledger) && DistinctKeys(r.ledger) && NonNegative(r.ledger)
    ensures var l := Capture(r, key, hit, c, v).ledger;
      KeysOk(l) && DistinctKeys(l) && NonNegative(l)
  {
    if hit && v.Some? {
      CreditDistinct(r.ledger, key, c, v.value);
      CreditNonNegative(r.ledger, key, c, v.value);
    }
  }

  /** A line that is not read leaves the buckets and the count alone. */
  lemma LineIgnored(r: Run, info: LineInfo)
    requires Target(r.scanner, info).None?
    ensures LineStep(r, info).ledger == r.ledger && LineStep(r, info).captured == r.captured
  {
  }

  /** A line that is read adds its amount to each category it announces, in its own bucket only. */
  lemma LineCredits(r: Run, info: LineInfo, c: Category)
    requires Target(r.scanner, info).Some?
    ensures var key, next := Target(r.scanner, info).value, LineStep(r, info);
      && Get(BasesOf(next.ledger, key), c) == Get(BasesOf(r.ledger, key), c) + Added(info, c)
      && next.captured == r.captured + Hits(info)
  {
    var sc := Current(r.scanner, info);
    var key := Target(r.scanner, info).value;
    var r0 := r.(scanner := sc);
    var r1 := Capture(r0, key, info.cc, CommonContingencies, info.amount);
    var r2 := Capture(r1, key, info.at, WorkAccidents, info.amount);
    CaptureBases(r0, key, info.cc, CommonContingencies, info.amount, key, c);
    CaptureBases(r1, key, info.at, WorkAccidents, info.amount, key, c);
    CaptureBases(r2, key, info.sol, Solidarity, info.amount, key, c);
  }

  /** No other bucket changes. */
  lemma LineOthers(r: Run, info: LineInfo, k: Bucket, c: Category)
    requires Target(r.scanner, info) != Some(k)
    ensures Get(BasesOf(LineStep(r, info).ledger, k), c) == Get(BasesOf(r.ledger, k), c)
  {
    var sc := Current(r.scanner, info);
    if sc.worker.Some? && sc.period.Some? && !info.totals {
      var key := Target(r.scanner, info).value;
      var r0 := r.(scanner := sc);
      var r1 := Capture(r0, key, info.cc, CommonContingencies, info.amount);
      var r2 := Capture(r1, key, info.at, WorkAccidents, info.amount);
      CaptureBases(r0, key, info.cc, CommonContingencies, info.amount, k, c);
      CaptureBases(r1, key, info.at, WorkAccidents, info.amount, k, c);
      CaptureBases(r2, key, info.sol, Solidarity, info.amount, k, c);
    }
  }

  /** A line never removes a bucket nor lowers a base. */
  lemma LineGrows(r: Run, info: LineInfo)
    requires LineOk(info)
    ensures Grows(r.ledger, LineStep(r, info).ledger)
  {
    var sc := Current(r.scanner, info);
    if sc.worker.Some? && sc.period.Some? && !info.totals {
      var key := (sc.worker.value, sc.period.value.1, sc.period.value.0);
      var r0 := r.(scanner := sc);
      var r1 := Capture(r0, key, info.cc, CommonContingencies, info.amount);
      var r2 := Capture(r1, key, info.at, WorkAccidents, info.amount);
      CaptureGrows(r0, key, info.cc, CommonContingencies, info.amount);
      CaptureGrows(r1, key, info.at, WorkAccidents, info.amount);
      CaptureGrows(r2, key, info.sol, Solidarity, info.amount);
      GrowsTrans(r.ledger, r1.ledger, r2.ledger);
      GrowsTrans(r.ledger, r2.ledger, LineStep(r, info).ledger);
    }
  }

  /** The first `n` lines of a page. */
  function PageLines(r: Run, ls: seq<LineInfo>, n: nat): Run
    requires n <= |ls|
  {
    if n == 0 then r else LineStep(PageLines(r, ls, n - 1), ls[n - 1])
  }

  lemma {:induction false} LinesKeepPeriod(r: Run, ls: seq<LineInfo>, n: nat)
    requires n <= |ls|
    ensures PageLines(r, ls, n).scanner.period == r.scanner.period
  {
    if n > 0 {
      LinesKeepPeriod(r, ls, n - 1);
      LineScanner(PageLines(r, ls, n - 1), ls[n - 1]);
    }
  }

  lemma {:induction false} LinesGrow(r: Run, ls: seq<LineInfo>, n: nat)
    requires n <= |ls| && forall i :: 0 <= i < |ls| ==> LineOk(ls[i])
    ensures Grows(r.ledger, PageLines(r, ls, n).ledger)
  {
    if n > 0 {
      LinesGrow(r, ls, n - 1);
      LineGrows(PageLines(r, ls, n - 1), ls[n - 1]);
      GrowsTrans(r.ledger, PageLines(r, ls, n - 1).ledger, PageLines(r, ls, n).ledger);
    }
  }

  /** After a page: the scanner, the buckets and the pages reported so far. */
  datatype Doc = Doc(scanner: Scanner, ledger: Ledger<Bucket>, errors: seq<nat>)

  /** The run over a page's lines, after its header (if any) has set the period. */
  function PageRun(d: Doc, pg: PageText): Run
    requires pg.Page?
  {
    var sc := if pg.header.Some? then d.scanner.(period := pg.header) else d.scanner;
    PageLines(Run(sc, d.ledger, 0), pg.lines, |pg.lines|)
  }

  /** A page is reported when it has no text, or a period header and no captured base. */
  predicate Flagged(d: Doc, pg: PageText) {
    pg.Blank? || (pg.header.Some? && PageRun(d, pg).captured == 0)
  }

  /** Page number `pageNo` (counted from 1). */
  function PageStep(d: Doc, pg: PageText, pageNo: nat): (next: Doc)
    ensures next.errors == d.errors + (if Flagged(d, pg) then [pageNo] else [])
  {
    match pg
    case Blank => d.(errors := d.errors + [pageNo])
    case Page(h, ls) =>
      var r := PageRun(d, pg);
      Doc(r.scanner, r.ledger, if h.Some? && r.captured == 0 then d.errors + [pageNo] else d.errors)
  }

  /** A page without text changes nothing but the report. */
  lemma BlankPage(d: Doc, pageNo: nat)
    ensures PageStep(d, Blank, pageNo) == d.(errors := d.errors + [pageNo])
  {
  }

  /** The period of a page is its own header, or else the one carried from earlier pages. */
  lemma PagePeriod(d: Doc, pg: PageText, pageNo: nat)
    requires pg.Page?
    ensures PageStep(d, pg, pageNo).scanner.period == if pg.header.Some? then pg.header else d.scanner.period
  {
    var sc := if pg.header.Some? then d.scanner.(period := pg.header) else d.scanner;
    LinesKeepPeriod(Run(sc, d.ledger, 0), pg.lines, |pg.lines|);
  }

  /** The first `n` pages. */
  function ScanPages(ps: seq<PageText>, n: nat): Doc
    requires n <= |ps|
  {
    if n == 0 then Doc(Scanner(None, None), [], [])
    else PageStep(ScanPages(ps, n - 1), ps[n - 1], n)
  }

  /** `ds[i]` is the document after the first `i` pages: the states of the loop over the pages. */
  ghost predicate PageTrace(ps: seq<PageText>, ds: seq<Doc>) {
    |ds| == |ps| + 1 && ds[0] == Doc(Scanner(None, None), [], [])
      && forall i :: 0 <= i < |ps| ==> ds[i + 1] == PageStep(ds[i], ps[i], i + 1)
  }

  /** The trace of the pages, ending in the scanned document. */
  lemma PageTraceOf(ps: seq<PageText>) returns (ds: seq<Doc>)
    ensures PageTrace(ps, ds) && ds[|ps|] == ScanPages(ps, |ps|)
  {
    ds := seq(|ps| + 1, i requires 0 <= i <= |ps| => ScanPages(ps, i));
    forall i | 0 <= i < |ps| ensures ds[i + 1] == PageStep(ds[i], ps[i], i + 1) {
      ScanPagesNext(ps, i, ds[i], ds[i + 1]);
    }
  }

  lemma ScanPagesNext(ps: seq<PageText>, i: nat, d: Doc, d': Doc)
    requires i < |ps| && d == ScanPages(ps, i) && d' == ScanPages(ps, i + 1)
    ensures d' == PageStep(d, ps[i], i + 1)
  {
  }

  /** Reported pages are numbered 1 to `n`. */
  lemma {:induction false} ScanErrorsRange(ps: seq<PageText>, n: nat, i: nat)
    requires n <= |ps| && i < |ScanPages(ps, n).errors|
    ensures 1 <= ScanPages(ps, n).errors[i] <= n
  {
    var e0 := ScanPages(ps, n - 1).errors;
    var e := ScanPages(ps, n).errors;
    assert e == e0 + (if Flagged(ScanPages(ps, n - 1), ps[n - 1]) then [n] else []);
    if i < |e0| {
      ScanErrorsRange(ps, n - 1, i);
      assert e[i] == e0[i];
    }
  }

  /** The report lists pages in increasing order, each at most once. */
  lemma {:induction false} ScanErrorsSorted(ps: seq<PageText>, n: nat, i: nat, j: nat)
    requires n <= |ps| && i < j < |ScanPages(ps, n).errors|
    ensures ScanPages(ps, n).errors[i] < ScanPages(ps, n).errors[j]
  {
    var e0 := ScanPages(ps, n - 1).errors;
    var e := ScanPages(ps, n).errors;
    assert e == e0 + (if Flagged(ScanPages(ps, n - 1), ps[n - 1]) then [n] else []);
    if j < |e0| {
      ScanErrorsSorted(ps, n - 1, i, j);
      assert e[i] == e0[i] && e[j] == e0[j];
    } else {
      ScanErrorsRange(ps, n - 1, i);
      assert e[i] == e0[i] && e[j] == n;
    }
  }

  /** The report holds exactly the flagged pages. */
  lemma {:induction false} ScanErrors(ps: seq<PageText>, n: nat, k: nat)
    requires n <= |ps| && 1 <= k <= n
    ensures k in ScanPages(ps, n).errors <==> Flagged(ScanPages(ps, k - 1), ps[k - 1])
  {
    var e0 := ScanPages(ps, n - 1).errors;
    ScanPagesNext(ps, n - 1, ScanPages(ps, n - 1), ScanPages(ps, n));
    if k < n {
      ScanErrors(ps, n - 1, k);
    } else if n in e0 {
      var i :| 0 <= i < |e0| && e0[i] == n;
      ScanErrorsRange(ps, n - 1, i);
    }
  }

  /** A page never removes a bucket nor lowers a base. */
  lemma PageGrows(d: Doc, pg: PageText, pageNo: nat)
    requires PageOk(pg)
    ensures Grows(d.ledger, PageStep(d, pg, pageNo).ledger)
  {
    if pg.Page? {
      var sc := if pg.header.Some? then d.scanner.(period := pg.header) else d.scanner;
      LinesGrow(Run(sc, d.ledger, 0), pg.lines, |pg.lines|);
    }
  }

  /** Buckets only grow from page to page: a later state keeps every bucket of an earlier one, in place, with bases no lower. */
  lemma {:induction false} ScanGrows(ps: seq<PageText>, m: nat, n: nat)
    requires m <= n <= |ps| && forall i :: 0 <= i < |ps| ==> PageOk(ps[i])
    ensures Grows(ScanPages(ps, m).ledger, ScanPages(ps, n).ledger)
    decreases n
  {
    if m < n {
      ScanGrows(ps, m, n - 1);
      PageGrows(ScanPages(ps, n - 1), ps[n - 1], n);
      GrowsTrans(ScanPages(ps, m).ledger, ScanPages(ps, n - 1).ledger, ScanPages(ps, n).ledger);
    }
  }

  // ---------------------------------------------------------------------------------------------
  // What the scan keeps well formed
  // ---------------------------------------------------------------------------------------------

  /** A bucket key as the scan builds it: a worker identifier, a four-digit year and a two-digit month. */
  predicate KeyOk(k: Bucket) {
    IsWorkerId(k.0) && PeriodOk((k.2, k.1))
  }

  ghost predicate KeysOk(l: Ledger<Bucket>) {
    forall j :: 0 <= j < |l| ==> KeyOk(l[j].0)
  }

  predicate ScannerOk(sc: Scanner) {
    (sc.worker.Some? ==> IsWorkerId(sc.worker.value)) && (sc.period.Some? ==> PeriodOk(sc.period.value))
  }

  ghost predicate RunOk(r: Run) {
    ScannerOk(r.scanner) && KeysOk(r.ledger) && NonNegative(r.ledger) && DistinctKeys(r.ledger)
  }

  lemma LineKeeps(r: Run, info: LineInfo)
    requires RunOk(r) && LineOk(info)
    ensures RunOk(LineStep(r, info))
  {
    var sc := Current(r.scanner, info);
    if sc.worker.Some? && sc.period.Some? && !info.totals {
      var key := (sc.worker.value, sc.period.value.1, sc.period.value.0);
      var r0 := r.(scanner := sc);
      var r1 := Capture(r0, key, info.cc, CommonContingencies, info.amount);
      var r2 := Capture(r1, key, info.at, WorkAccidents, info.amount);
      CaptureSound(r0, key, info.cc, CommonContingencies, info.amount);
      CaptureSound(r1, key, info.at, WorkAccidents, info.amount);
      CaptureSound(r2, key, info.sol, Solidarity, info.amount);
    }
  }

  lemma {:induction false} LinesKeep(r: Run, ls: seq<LineInfo>, n: nat)
    requires n <= |ls| && RunOk(r) && forall i :: 0 <= i < |ls| ==> LineOk(ls[i])
    ensures RunOk(PageLines(r, ls, n))
  {
    if n > 0 {
      LinesKeep(r, ls, n - 1);
      LineKeeps(PageLines(r, ls, n - 1), ls[n - 1]);
    }
  }

  ghost predicate DocOk(d: Doc) {
    RunOk(Run(d.scanner, d.ledger, 0))
  }

  /** Every bucket is keyed by a well-formed worker, year and month, is listed once and has no negative base. */
  lemma {:induction false} ScanOk(ps: seq<PageText>, n: nat)
    requires n <= |ps| && forall i :: 0 <= i < |ps| ==> PageOk(ps[i])
    ensures DocOk(ScanPages(ps, n))
  {
    if n > 0 {
      ScanOk(ps, n - 1);
      var d := ScanPages(ps, n - 1);
      var pg := ps[n - 1];
      if pg.Page? {
        var sc := if pg.header.Some? then d.scanner.(period := pg.header) else d.scanner;
        LinesKeep(Run(sc, d.ledger, 0), pg.lines, |pg.lines|);
      }
    }
  }

  // ---------------------------------------------------------------------------------------------
  // Monthly detail (lines 129-139)
  // ---------------------------------------------------------------------------------------------

  datatype MonthRow = MonthRow(ipf: string, dni: string, anio: nat, mes: nat, bases: Bases)

  /** `round(v, 2)` of each base. */
  function Rounded(b: Bases): (r: Bases)
    ensures IsCents(r.cc) && IsCents(r.at) && IsCents(r.sol)
    ensures b.cc >= 0.0 && b.at >= 0.0 && b.sol >= 0.0 ==> r.cc >= 0.0 && r.at >= 0.0 && r.sol >= 0.0
  {
    Round2IsCents(b.cc);
    Round2IsCents(b.at);
    Round2IsCents(b.sol);
    Bases(Round2(b.cc), Round2(b.at), Round2(b.sol))
  }

  function MonthRowOf(k: Bucket, b: Bases): MonthRow
    requires KeyOk(k)
  {
    MonthRow(k.0, Last(k.0, 9), DigitsValue(k.1), DigitsValue(k.2), Rounded(b))
  }

  /** One row per bucket, in the order the buckets were opened. */
  function MonthlyRows(l: Ledger<Bucket>): (rows: seq<MonthRow>)
    requires KeysOk(l)
    ensures |rows| == |l|
  {
    seq(|l|, j requires 0 <= j < |l| => MonthRowOf(l[j].0, l[j].1))
  }

  lemma {:induction false} DigitsBound(s: string)
    requires AllDigits(s)
    ensures DigitsValue(s) < Pow10(|s|)
    decreases |s|
  {
    if s != [] {
      DigitsBound(s[..|s| - 1]);
    }
  }

  /**
    Row `j` is bucket `j`: its IPF, the nine-character DNI that ends it, the year and month as
    numbers, and the bucket's bases rounded to cents, none negative.
  */
  lemma MonthRowMeaning(l: Ledger<Bucket>, j: nat)
    requires KeysOk(l) && DistinctKeys(l) && NonNegative(l) && j < |l|
    ensures var row, k := MonthlyRows(l)[j], l[j].0;
      && row.ipf == k.0 && |row.dni| == 9 && row.dni == k.0[|k.0| - 9..]
      && 1 <= |k.0| - 9 <= 2 && IsUpper(row.dni[8])
      && row.anio == DigitsValue(k.1) && row.anio <= 9999 && row.mes == DigitsValue(k.2) && row.mes <= 99
      && row.bases == Rounded(BasesOf(l, k))
      && row.bases.cc >= 0.0 && row.bases.at >= 0.0 && row.bases.sol >= 0.0
  {
    var k := l[j].0;
    assert KeyOk(k);
    WorkerDni(k.0);
    DigitsBound(k.1);
    DigitsBound(k.2);
    assert Pow10(4) == 10000 && Pow10(2) == 100;
    EntryIsBases(l, j);
  }

  // ---------------------------------------------------------------------------------------------
  // Annual summary (lines 145-165)
  // ---------------------------------------------------------------------------------------------

  /** A summary key: (DNI, year). */
  type YearKey = (string, nat)

  datatype YearRow = YearRow(dni: string, anio: nat, bases: Bases)

  function YearOf(m: MonthRow): YearKey {
    (m.dni, m.anio)
  }

  const Categories: seq<Category> := [CommonContingencies, WorkAccidents, Solidarity]

  /** What the summary loop reads of each monthly row: its (DNI, year) and its bases. */
  function Entries(ms: seq<MonthRow>): (es: seq<(YearKey, Bases)>)
    ensures |es| == |ms| && forall i :: 0 <= i < |ms| ==> es[i] == (YearOf(ms[i]), ms[i].bases)
  {
    seq(|ms|, i requires 0 <= i < |ms| => (YearOf(ms[i]), ms[i].bases))
  }

  /** `resumen[k][c] += b[c]` for each category in `cs`, in order. */
  function CreditEach<K(==)>(l: Ledger<K>, k: K, b: Bases, cs: seq<Category>): Ledger<K>
    decreases |cs|
  {
    if cs == [] then l else CreditEach(Credit(l, k, cs[0], Get(b, cs[0])), k, b, cs[1..])
  }

  /** The three `resumen[clave][c] += item[c]` of one entry `e`: key `e.0`, bases `e.1`. */
  function CreditAll<K(==)>(l: Ledger<K>, e: (K, Bases)): Ledger<K> {
    CreditEach(l, e.0, e.1, Categories)
  }

  lemma {:induction false} CreditEachEffect<K(!new)>(l: Ledger<K>, k: K, b: Bases, cs: seq<Category>, k': K, c: Category)
    requires forall i, j :: 0 <= i < j < |cs| ==> cs[i] != cs[j]
    ensures Get(BasesOf(CreditEach(l, k, b, cs), k'), c) == Get(BasesOf(l, k'), c) + (if k' == k && c in cs then Get(b, c) else 0.0)
    ensures Keys(CreditEach(l, k, b, cs)) == Keys(l) + (if cs == [] then {} else {k})
    ensures DistinctKeys(l) ==> DistinctKeys(CreditEach(l, k, b, cs))
    decreases |cs|
  {
    if cs != [] {
      var l1 := Credit(l, k, cs[0], Get(b, cs[0]));
      CreditBases(l, k, cs[0], Get(b, cs[0]));
      CreditKeys(l, k, cs[0], Get(b, cs[0]));
      if DistinctKeys(l) {
        CreditDistinct(l, k, cs[0], Get(b, cs[0]));
      }
      CreditEachEffect(l1, k, b, cs[1..], k', c);
      assert c in cs <==> c == cs[0] || c in cs[1..];
      assert c == cs[0] ==> c !in cs[1..];
    }
  }

  /** The summary after the first `n` entries. */
  function Roll<K(==)>(es: seq<(K, Bases)>, n: nat): Ledger<K>
    requires n <= |es|
  {
    if n == 0 then [] else CreditAll(Roll(es, n - 1), es[n - 1])
  }

  /** One row per (DNI, year), in order of first appearance, with its sums rounded. */
  function AnnualRows(l: Ledger<YearKey>): (rows: seq<YearRow>)
    ensures |rows| == |l|
  {
    seq(|l|, j requires 0 <= j < |l| => YearRow(l[j].0.0, l[j].0.1, Rounded(l[j].1)))
  }

  /** Reference definition: the sum of category `c` over the first `n` entries of key `k`. */
  function SumMonths<K(==)>(es: seq<(K, Bases)>, n: nat, k: K, c: Category): real
    requires n <= |es|
  {
    if n == 0 then 0.0
    else SumMonths(es, n - 1, k, c) + (if es[n - 1].0 == k then Get(es[n - 1].1, c) else 0.0)
  }

  /** An entry adds its three bases to its own key and to no other. */
  lemma CreditAllBases<K(!new)>(l: Ledger<K>, e: (K, Bases), k: K, c: Category)
    ensures Get(BasesOf(CreditAll(l, e), k), c) == Get(BasesOf(l, k), c) + (if e.0 == k then Get(e.1, c) else 0.0)
  {
    CreditEachEffect(l, e.0, e.1, Categories, k, c);
    assert c in Categories;
  }

  lemma CreditAllKeys<K(!new)>(l: Ledger<K>, e: (K, Bases), k: K)
    ensures k in Keys(CreditAll(l, e)) <==> k in Keys(l) || k == e.0
  {
    CreditEachEffect(l, e.0, e.1, Categories, e.0, CommonContingencies);
  }

  lemma CreditAllDistinct<K(!new)>(l: Ledger<K>, e: (K, Bases))
    requires DistinctKeys(l)
    ensures DistinctKeys(CreditAll(l, e))
  {
    CreditEachEffect(l, e.0, e.1, Categories, e.0, CommonContingencies);
  }

  /** `ls[i]` is the summary after the first `i` entries: the loop's states, one per step. */
  ghost predicate Trace<K>(es: seq<(K, Bases)>, ls: seq<Ledger<K>>) {
    |ls| == |es| + 1 && ls[0] == [] && forall i :: 0 <= i < |es| ==> ls[i + 1] == CreditAll(ls[i], es[i])
  }

  function Rolls<K(==)>(es: seq<(K, Bases)>): (ls: seq<Ledger<K>>)
    ensures |ls| == |es| + 1 && forall i :: 0 <= i <= |es| ==> ls[i] == Roll(es, i)
  {
    seq(|es| + 1, i requires 0 <= i <= |es| => Roll(es, i))
  }

  lemma RollsTrace<K>(es: seq<(K, Bases)>)
    ensures Trace(es, Rolls(es))
  {
  }

  /** A trace of the entries, ending in their summary. */
  lemma TraceOf<K>(es: seq<(K, Bases)>) returns (ls: seq<Ledger<K>>)
    ensures Trace(es, ls) && ls[|es|] == Roll(es, |es|)
  {
    ls := Rolls(es);
    RollsTrace(es);
  }

  /** What each step of a trace does to the base of category `c` of key `k`. */
  ghost predicate StepsAdd<K>(es: seq<(K, Bases)>, ls: seq<Ledger<K>>, k: K, c: Category) {
    |ls| == |es| + 1 && forall i :: 0 <= i < |es| ==>
      Get(BasesOf(ls[i + 1], k), c) == Get(BasesOf(ls[i], k), c) + (if es[i].0 == k then Get(es[i].1, c) else 0.0)
  }

  lemma TraceStepsAdd<K(!new)>(es: seq<(K, Bases)>, ls: seq<Ledger<K>>, k: K, c: Category)
    requires Trace(es, ls)
    ensures StepsAdd(es, ls, k, c)
  {
    forall i | 0 <= i < |es|
      ensures Get(BasesOf(ls[i + 1], k), c) == Get(BasesOf(ls[i], k), c) + (if es[i].0 == k then Get(es[i].1, c) else 0.0)
    {
      CreditAllBases(ls[i], es[i], k, c);
    }
  }

  lemma {:induction false} StepsSums<K(!new)>(es: seq<(K, Bases)>, ls: seq<Ledger<K>>, n: nat, k: K, c: Category)
    requires StepsAdd(es, ls, k, c) && ls[0] == [] && n <= |es|
    ensures Get(BasesOf(ls[n], k), c) == SumMonths(es, n, k, c)
  {
    if n > 0 {
      StepsSums(es, ls, n - 1, k, c);
      assert Get(BasesOf(ls[n], k), c) == Get(BasesOf(ls[n - 1], k), c) + (if es[n - 1].0 == k then Get(es[n - 1].1, c) else 0.0);
    }
  }

  lemma TraceSums<K(!new)>(es: seq<(K, Bases)>, ls: seq<Ledger<K>>, n: nat, k: K, c: Category)
    requires Trace(es, ls) && n <= |es|
    ensures Get(BasesOf(ls[n], k), c) == SumMonths(es, n, k, c)
  {
    TraceStepsAdd(es, ls, k, c);
    StepsSums(es, ls, n, k, c);
  }

  lemma {:induction false} TraceKeys<K(!new)>(es: seq<(K, Bases)>, ls: seq<Ledger<K>>, n: nat, k: K)
    requires Trace(es, ls) && n <= |es|
    ensures k in Keys(ls[n]) <==> exists j :: 0 <= j < n && es[j].0 == k
  {
    if n > 0 {
      TraceKeys(es, ls, n - 1, k);
      CreditAllKeys(ls[n - 1], es[n - 1], k);
      if es[n - 1].0 == k {
        assert 0 <= n - 1 < n && es[n - 1].0 == k;
      }
    }
  }

  lemma {:induction false} TraceDistinct<K(!new)>(es: seq<(K, Bases)>, ls: seq<Ledger<K>>, n: nat)
    requires Trace(es, ls) && n <= |es|
    ensures DistinctKeys(ls[n])
  {
    if n > 0 {
      TraceDistinct(es, ls, n - 1);
      CreditAllDistinct(ls[n - 1], es[n - 1]);
    }
  }

  /** Each summary entry holds the sums of its entries. */
  lemma RollSums<K(!new)>(es: seq<(K, Bases)>, n: nat, k: K, c: Category)
    requires n <= |es|
    ensures Get(BasesOf(Roll(es, n), k), c) == SumMonths(es, n, k, c)
  {
    RollsTrace(es);
    TraceSums(es, Rolls(es), n, k, c);
  }

  /** The summary has an entry for a key exactly when some entry has it. */
  lemma RollKeys<K(!new)>(es: seq<(K, Bases)>, n: nat, k: K)
    requires n <= |es|
    ensures k in Keys(Roll(es, n)) <==> exists j :: 0 <= j < n && es[j].0 == k
  {
    RollsTrace(es);
    TraceKeys(es, Rolls(es), n, k);
  }

  /** Each key is summarised once. */
  lemma RollDistinct<K(!new)>(es: seq<(K, Bases)>, n: nat)
    requires n <= |es|
    ensures DistinctKeys(Roll(es, n))
  {
    RollsTrace(es);
    TraceDistinct(es, Rolls(es), n);
  }

  /** Every base of the entries has at most two decimals. */
  ghost predicate AllCents<K>(es: seq<(K, Bases)>) {
    forall i :: 0 <= i < |es| ==> IsCents(es[i].1.cc) && IsCents(es[i].1.at) && IsCents(es[i].1.sol)
  }

  lemma {:induction false} SumMonthsCents<K>(es: seq<(K, Bases)>, n: nat, k: K, c: Category)
    requires n <= |es| && AllCents(es)
    ensures IsCents(SumMonths(es, n, k, c))
  {
    if n == 0 {
      WholeCents(0.0, 0);
    } else {
      SumMonthsCents(es, n - 1, k, c);
      var e := es[n - 1];
      var x := if e.0 == k then Get(e.1, c) else 0.0;
      assert IsCents(x) by {
        if e.0 != k {
          WholeCents(0.0, 0);
        }
      }
      CentsAdd(SumMonths(es, n - 1, k, c), x);
    }
  }

  /**
    The annual row of (DNI, year) holds the exact sums of that key's monthly values: these
    already have two decimals, so the second rounding changes nothing.
  */
  lemma AnnualIsSumOfMonths(ms: seq<MonthRow>, j: nat, c: Category)
    requires AllCents(Entries(ms)) && j < |Roll(Entries(ms), |ms|)|
    ensures var l := Roll(Entries(ms), |ms|);
      Get(AnnualRows(l)[j].bases, c) == SumMonths(Entries(ms), |ms|, l[j].0, c)
  {
    var es := Entries(ms);
    var l := Roll(es, |es|);
    var total := SumMonths(es, |es|, l[j].0, c);
    RollDistinct(es, |es|);
    EntryIsBases(l, j);
    RollSums(es, |es|, l[j].0, c);
    SumMonthsCents(es, |es|, l[j].0, c);
    Round2Cents(total);
    assert Get(l[j].1, c) == total;
  }

  /** The monthly rows have two-decimal bases. */
  lemma MonthlyCents(l: Ledger<Bucket>)
    requires KeysOk(l)
    ensures AllCents(Entries(MonthlyRows(l)))
  {
  }

  // ---------------------------------------------------------------------------------------------
  // The reader (lines 30-167)
  // ---------------------------------------------------------------------------------------------

  /** The body of the loop over the lines of a page (lines 65-119). */
  method ScanLine(r: Run, lineas: seq<string>, i: nat) returns (next: Run)
    requires i < |lineas|
    ensures next == LineStep(r, ReadLines(lineas)[i])
  {
    ghost var info := ReadLines(lineas)[i];
    ReadLinesAt(lineas, i);
    var linea := Fold(lineas[i]);
    var trabajador := r.scanner.worker;
    var periodo := r.scanner.period;
    var m := WorkerMatch(linea);
    assert m == info.worker;
    if m.Some? {
      trabajador := m;
    }
    if trabajador.None? || periodo.None? {
      return Run(Scanner(trabajador, periodo), r.ledger, r.captured);
    }
    if Contains(linea, TotalsLabel) {
      return Run(Scanner(None, periodo), r.ledger, r.captured);
    }
    assert !info.totals;
    var clave := (trabajador.value, periodo.value.1, periodo.value.0);
    next := Run(Scanner(trabajador, periodo), r.ledger, r.captured);
    next := CaptureBlock(next, clave, Announces(linea, CommonContingencies), CommonContingencies, lineas, i);
    next := CaptureBlock(next, clave, Announces(linea, WorkAccidents), WorkAccidents, lineas, i);
    next := CaptureBlock(next, clave, Announces(linea, Solidarity), Solidarity, lineas, i);
  }

  /** One `if <keyword> in linea` block (lines 90-97, 101-108, 112-119). */
  method CaptureBlock(r: Run, clave: Bucket, hit: bool, c: Category, lineas: seq<string>, i: nat) returns (next: Run)
    requires i < |lineas|
    ensures next == Capture(r, clave, hit, c, AmountNear(lineas, i, 3))
  {
    next := r;
    if hit {
      var valor := AmountNear(lineas, i, 3);
      if valor.Some? {
        next := Run(r.scanner, Credit(r.ledger, clave, c, valor.value), r.captured + 1);
      }
    }
  }

  /** The loop over the lines of a page (lines 65-119). */
  method ScanLines(r: Run, lineas: seq<string>) returns (next: Run)
    ensures next == PageLines(r, ReadLines(lineas), |lineas|)
  {
    ghost var ls := ReadLines(lineas);
    assert |ls| == |lineas|;
    next := r;
    var i := 0;
    while i < |lineas|
      invariant i <= |lineas| == |ls|
      invariant next == PageLines(r, ls, i)
    {
      next := ScanLine(next, lineas, i);
      i := i + 1;
    }
  }

  /** One page (lines 49-123), numbered `pageNo` from 1. */
  method ScanPage(d: Doc, texto: Option<string>, pageNo: nat) returns (next: Doc)
    ensures next == PageStep(d, ReadPage(texto), pageNo)
  {
    if texto.None? || texto.value == "" {
      return d.(errors := d.errors + [pageNo]);
    }
    var periodo := FindPeriod(texto.value, 0);
    var sc := d.scanner;
    if periodo.Some? {
      sc := sc.(period := periodo);
    }
    var run := ScanLines(Run(sc, d.ledger, 0), Split(texto.value, "\n"));
    var errores := d.errors;
    if periodo.Some? && run.captured == 0 {
      errores := errores + [pageNo];
    }
    next := Doc(run.scanner, run.ledger, errores);
  }

  /** `detalle_mensual` (lines 129-139). */
  method MonthlyDetail(detalle: Ledger<Bucket>) returns (rows: seq<MonthRow>)
    requires KeysOk(detalle)
    ensures rows == MonthlyRows(detalle)
  {
    rows := [];
    for j := 0 to |detalle|
      invariant rows == MonthlyRows(detalle)[..j]
    {
      rows := rows + [MonthRowOf(detalle[j].0, detalle[j].1)];
    }
  }

  /** One pass of the loop of lines 151-155: the three bases of `item` added to its (DNI, year). */
  method Acumular(resumen: Ledger<YearKey>, item: MonthRow) returns (r: Ledger<YearKey>)
    ensures r == CreditAll(resumen, (YearOf(item), item.bases))
  {
    var clave := (item.dni, item.anio);
    r := Credit(resumen, clave, CommonContingencies, item.bases.cc);
    r := Credit(r, clave, WorkAccidents, item.bases.at);
    r := Credit(r, clave, Solidarity, item.bases.sol);
  }

  /** `resumen_anual` (lines 157-165): one rounded row per entry of the summary, in its order. */
  method AnnualTable(resumen: Ledger<YearKey>) returns (rows: seq<YearRow>)
    ensures rows == AnnualRows(resumen)
  {
    rows := [];
    for j := 0 to |resumen|
      invariant rows == AnnualRows(resumen)[..j]
    {
      rows := rows + [YearRow(resumen[j].0.0, resumen[j].0.1, Rounded(resumen[j].1))];
    }
  }

  /** `resumen` (lines 145-155): the entries of the monthly detail added up by (DNI, year). */
  method Resumen(monthly: seq<MonthRow>) returns (resumen: Ledger<YearKey>)
    ensures resumen == Roll(Entries(monthly), |monthly|)
  {
    ghost var es := Entries(monthly);
    ghost var ls := TraceOf(es);
    resumen := [];
    for k := 0 to |monthly|
      invariant resumen == ls[k]
    {
      assert es[k] == (YearOf(monthly[k]), monthly[k].bases);
      resumen := Acumular(resumen, monthly[k]);
    }
  }

  /** `resumen` and `resumen_anual` (lines 145-165). */
  method AnnualSummary(monthly: seq<MonthRow>) returns (rows: seq<YearRow>)
    ensures rows == AnnualRows(Roll(Entries(monthly), |monthly|))
  {
    var resumen := Resumen(monthly);
    rows := AnnualTable(resumen);
  }

  /** The loop over the pages (lines 49-123). */
  method ScanDocument(pages: seq<Option<string>>) returns (doc: Doc)
    ensures doc == ScanPages(ReadPages(pages), |pages|)
  {
    ghost var ps := ReadPages(pages);
    ghost var ds := PageTraceOf(ps);
    doc := Doc(Scanner(None, None), [], []);
    var p := 0;
    while p < |pages|
      invariant p <= |pages|
      invariant doc == ds[p]
    {
      ReadPagesAt(pages, p);
      doc := ScanPage(doc, pages[p], p + 1);
      p := p + 1;
    }
  }

  /**
    `extraer_bases_rnt` over the texts of a document's pages (`None` where a page has no text
    layer): the monthly detail, the annual summary and the reported pages.
  */
  method ExtraerBasesRnt(pages: seq<Option<string>>) returns (monthly: seq<MonthRow>, annual: seq<YearRow>, errors: seq<nat>)
    ensures var d := ScanPages(ReadPages(pages), |pages|);
      && DocOk(d) && errors == d.errors && monthly == MonthlyRows(d.ledger)
      && annual == AnnualRows(Roll(Entries(monthly), |monthly|))
  {
    var doc := ScanDocument(pages);
    ScanOk(ReadPages(pages), |pages|);
    monthly := MonthlyDetail(doc.ledger);
    annual := AnnualSummary(monthly);
    errors := doc.errors;
  }
}
