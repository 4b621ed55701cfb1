/**
  Construction of the period records of an IDC document (extractor_idc.py). The page texts are
  inputs (`None` for a page without a text layer), and the regular-expression captures of a text
  are given as a function of that text. A result of `None` stands for the exception the extractor
  raises: a page without text, a date that does not exist, or a month end past 9999-12-31.
*/
module Idc {
  import opened Wrappers
  import opened Text
  import opened Decimal
  import opened Dates

  /** One period record (a dictionary of extractor_idc.py). */
  datatype Period = Period(
    nombre: string, dniTrabajador: string, nifEmpresa: string, empresa: string,
    ctp: nat, esAutonomo: bool,
    desdeInfo: ValidDate, hastaInfo: ValidDate, inicioContrato: ValidDate,
    tramosIt: seq<(ValidDate, ValidDate)>,
    alta: string, baja: string)

  /** Captures on one page of a self-employment document; the period is `(int(MM), int(YYYY))`. */
  datatype PageCaptures = PageCaptures(nombre: Option<string>, dni: Option<string>, periodo: Option<(nat, nat)>)

  /**
    Captures on the full text of an employee document. `periodo` is the DESDE date with the
    optional HASTA date; `ctp` is `int` of the captured digits.
  */
  datatype DocCaptures = DocCaptures(
    nombre: Option<string>, dni: Option<string>, razonSocial: Option<string>, cif: Option<string>,
    alta: Option<string>, inicioContrato: Option<string>, baja: Option<string>, ctp: Option<nat>,
    periodo: Option<(string, Option<string>)>)

  // ---------------------------------------------------------------------------
  // Full text and document kind
  // ---------------------------------------------------------------------------

  /** Every page text followed by a newline; `None` when a page has no text (`None + "\n"` raises). */
  function FullText(pages: seq<Option<string>>): (r: Option<string>)
    ensures r.Some? <==> forall i :: 0 <= i < |pages| ==> pages[i].Some?
  {
    if pages == [] then Some("")
    else match FullText(pages[..|pages| - 1])
      case None => None
      case Some(t) =>
        match pages[|pages| - 1]
        case None => None
        case Some(p) => Some(t + p + "\n")
  }

  /** The loop of line 12: `texto_completo += page.extract_text() + "\n"`. */
  method BuildFullText(pages: seq<Option<string>>) returns (r: Option<string>)
    ensures r == FullText(pages)
  {
    var text := "";
    var k := 0;
    while k < |pages|
      invariant 0 <= k <= |pages|
      invariant FullText(pages[..k]) == Some(text)
    {
      assert pages[..k + 1][..k] == pages[..k];
      match pages[k] {
        case None =>
          assert FullText(pages[..k + 1]).None?;
          NoneStaysNone(pages, k + 1);
          return None;
        case Some(p) =>
          text := text + p + "\n";
      }
      k := k + 1;
    }
    assert pages[..k] == pages;
    return Some(text);
  }

  lemma NoneStaysNone(pages: seq<Option<string>>, k: nat)
    requires k <= |pages| && FullText(pages[..k]).None?
    ensures FullText(pages).None?
  {
    var i :| 0 <= i < k && pages[..k][i].None?;
    assert pages[i].None?;
  }

  /** `Cuenta Propia` or `AUTÓNOMOS` anywhere in the text marks a self-employment document. */
  predicate IsSelfEmployed(t: string) {
    Contains(t, "Cuenta Propia") || Contains(t, "AUT\U{D3}NOMOS")
  }

  /** `f"DESCONOCIDO ({file})"`, the name of a record whose name was not found. */
  function UnknownName(file: string): (r: string)
    ensures Contains(r, "DESCONOCIDO")
  {
    var r := "DESCONOCIDO (" + file + ")";
    assert StartsAt(r, "DESCONOCIDO", 0) by { assert r[0..11] == "DESCONOCIDO"; }
    r
  }

  // ---------------------------------------------------------------------------
  // Self-employment documents: one record per dated page
  // ---------------------------------------------------------------------------

  /** What one page contributes: nothing, a record, or the exception of an impossible date. */
  datatype PageOutcome = Skip | Emit(p: Period) | Raise

  /** `(datetime(y, m, 28) + timedelta(days=4)).replace(day=1) - timedelta(days=1)`, or the exception. */
  function PeriodBounds(m: nat, y: nat): (r: Option<(ValidDate, ValidDate)>)
  {
    if Valid(Date(y, m, 1)) then
      match MonthEnd(y, m)
      case None => None
      case Some(e) => Some((Date(y, m, 1), e))
    else None
  }

  function SelfEmployedPage(text: Option<string>, caps: string -> PageCaptures, file: string): PageOutcome {
    if text.None? || text.value == "" then Skip
    else
      var c := caps(text.value);
      match c.periodo
      case None => Skip
      case Some((m, y)) =>
        match PeriodBounds(m, y)
        case None => Raise
        case Some((desde, hasta)) =>
          Emit(Period(
            if c.nombre.Some? then Strip(c.nombre.value) else UnknownName(file),
            if c.dni.Some? then Strip(c.dni.value) else "N/A",
            "PENDIENTE", "PENDIENTE", 0, true, desde, hasta, desde, [],
            FormatDmy(desde), "ACTIVO"))
  }

  /** The records of lines 19-39 for the pages, in page order; `None` once a page raises. */
  function SelfEmployedRecords(pages: seq<Option<string>>, caps: string -> PageCaptures, file: string): Option<seq<Period>> {
    if pages == [] then Some([])
    else match SelfEmployedRecords(pages[..|pages| - 1], caps, file)
      case None => None
      case Some(rs) =>
        match SelfEmployedPage(pages[|pages| - 1], caps, file)
        case Skip => Some(rs)
        case Emit(p) => Some(rs + [p])
        case Raise => None
  }

  method CollectSelfEmployed(pages: seq<Option<string>>, caps: string -> PageCaptures, file: string)
    returns (r: Option<seq<Period>>)
    ensures r == SelfEmployedRecords(pages, caps, file)
  {
    var rs: seq<Period> := [];
    var k := 0;
    while k < |pages|
      invariant 0 <= k <= |pages|
      invariant SelfEmployedRecords(pages[..k], caps, file) == Some(rs)
    {
      assert pages[..k + 1][..k] == pages[..k];
      var outcome := SelfEmployedPage(pages[k], caps, file);
      match outcome {
        case Skip =>
        case Emit(p) =>
          rs := rs + [p];
        case Raise =>
          RaiseStaysNone(pages, caps, file, k + 1);
          return None;
      }
      k := k + 1;
    }
    assert pages[..k] == pages;
    return Some(rs);
  }

  lemma {:induction false} RaiseStaysNone(pages: seq<Option<string>>, caps: string -> PageCaptures, file: string, k: nat)
    requires k <= |pages| && SelfEmployedRecords(pages[..k], caps, file).None?
    ensures SelfEmployedRecords(pages, caps, file).None?
    decreases |pages| - k
  {
    if k < |pages| {
      assert pages[..k + 1][..k] == pages[..k];
      RaiseStaysNone(pages, caps, file, k + 1);
    } else {
      assert pages[..k] == pages;
    }
  }

  /** The fixed fields of a self-employment record, and its month bounds. */
  predicate SelfEmployedShape(r: Period) {
    r.ctp == 0 && r.esAutonomo && r.tramosIt == [] && r.baja == "ACTIVO"
    && r.nifEmpresa == "PENDIENTE" && r.empresa == "PENDIENTE"
    && r.inicioContrato == r.desdeInfo && r.alta == FormatDmy(r.desdeInfo)
    && r.desdeInfo.day == 1
    && r.hastaInfo == Date(r.desdeInfo.year, r.desdeInfo.month, DaysInMonth(r.desdeInfo.year, r.desdeInfo.month))
  }

  /** A dated page yields a record spanning its whole month, whose Alta text parses back to its start. */
  lemma SelfEmployedPageShape(text: Option<string>, caps: string -> PageCaptures, file: string)
    requires SelfEmployedPage(text, caps, file).Emit?
    ensures var r := SelfEmployedPage(text, caps, file).p;
            SelfEmployedShape(r) && ParseDmy(r.alta) == Some(r.desdeInfo)
            && r.desdeInfo.month == caps(text.value).periodo.value.0
            && r.desdeInfo.year == caps(text.value).periodo.value.1
  {
    var (m, y) := caps(text.value).periodo.value;
    MonthEndValue(y, m);
    ParseFormatDmy(Date(y, m, 1));
  }

  /** A page without text or without a period capture yields nothing. */
  lemma SelfEmployedPageSkip(text: Option<string>, caps: string -> PageCaptures, file: string)
    ensures SelfEmployedPage(text, caps, file).Skip?
            <==> text.None? || text.value == "" || caps(text.value).periodo.None?
  {
    if text.Some? && text.value != "" && caps(text.value).periodo.Some? {
      var (m, y) := caps(text.value).periodo.value;
      if Valid(Date(y, m, 1)) {
        MonthEndValue(y, m);
      }
    }
  }

  /** A dated page raises exactly when its month does not exist or its month end overflows. */
  lemma SelfEmployedPageRaise(text: Option<string>, caps: string -> PageCaptures, file: string)
    requires text.Some? && text.value != "" && caps(text.value).periodo.Some?
    ensures var (m, y) := caps(text.value).periodo.value;
            SelfEmployedPage(text, caps, file).Raise? <==> !(1 <= m <= 12 && 1 <= y <= 9999) || (y == 9999 && m == 12)
  {
    var (m, y) := caps(text.value).periodo.value;
    if 1 <= m <= 12 && 1 <= y <= 9999 {
      MonthEndValue(y, m);
    }
  }

  /** Pages that yield a record. */
  function Dated(pages: seq<Option<string>>, caps: string -> PageCaptures, file: string): nat {
    if pages == [] then 0
    else Dated(pages[..|pages| - 1], caps, file) + (if SelfEmployedPage(pages[|pages| - 1], caps, file).Emit? then 1 else 0)
  }

  /** Every record has the self-employment shape, and there is one per dated page. */
  lemma {:induction false} SelfEmployedRecordsShape(pages: seq<Option<string>>, caps: string -> PageCaptures, file: string)
    requires SelfEmployedRecords(pages, caps, file).Some?
    ensures var rs := SelfEmployedRecords(pages, caps, file).value;
            |rs| == Dated(pages, caps, file) && forall i :: 0 <= i < |rs| ==> SelfEmployedShape(rs[i])
    decreases |pages|
  {
    if pages != [] {
      var init := pages[..|pages| - 1];
      SelfEmployedRecordsShape(init, caps, file);
      var last := pages[|pages| - 1];
      if SelfEmployedPage(last, caps, file).Emit? {
        SelfEmployedPageShape(last, caps, file);
      }
    }
  }

  // ---------------------------------------------------------------------------
  // Employee documents: incapacity spells
  // ---------------------------------------------------------------------------

  /** `\d{2}-\d{2}-\d{4}` at position `i`. */
  predicate DateShapeAt(s: string, i: nat) {
    i + 10 <= |s| && AllDigits(s[i..i + 2]) && s[i + 2] == '-' && AllDigits(s[i + 3..i + 5])
    && s[i + 5] == '-' && AllDigits(s[i + 6..i + 10])
  }

  /** `re.findall(r"(\d{2}-\d{2}-\d{4})", s[i:])`: left to right, without overlaps. */
  function DateTexts(s: string, i: nat): (r: seq<string>)
    decreases |s| - i
    ensures forall k :: 0 <= k < |r| ==> |r[k]| == 10
  {
    if i + 10 > |s| then []
    else if DateShapeAt(s, i) then [s[i..i + 10]] + DateTexts(s, i + 10)
    else DateTexts(s, i + 1)
  }

  /** A line of the peculiarity block that describes an incapacity spell. */
  predicate HasItKeyword(line: string) {
    var u := Upper(line);
    Contains(u, "IT.") || Contains(u, "ENFERMEDAD") || Contains(u, "ACCIDENTE")
    || Contains(u, "22 ") || Contains(u, "29 ") || Contains(u, "BUI")
  }

  /** What one line contributes to `Tramos_IT`. */
  datatype LineOutcome = NoSpell | Spell(from: ValidDate, to: ValidDate) | BadDate

  function LineSpell(line: string): LineOutcome {
    if !HasItKeyword(line) then NoSpell
    else
      var fechas := DateTexts(line, 0);
      if |fechas| < 2 then NoSpell
      else
        match (ParseDmy(fechas[|fechas| - 2]), ParseDmy(fechas[|fechas| - 1]))
        case (Some(a), Some(b)) => Spell(a, b)
        case _ => BadDate
  }

  /** The spells of the lines, in line order; `None` once a date of a spell does not exist. */
  function Spells(lines: seq<string>): Option<seq<(ValidDate, ValidDate)>> {
    if lines == [] then Some([])
    else match Spells(lines[..|lines| - 1])
      case None => None
      case Some(ts) =>
        match LineSpell(lines[|lines| - 1])
        case NoSpell => Some(ts)
        case Spell(a, b) => Some(ts + [(a, b)])
        case BadDate => None
  }

  /** The text between `TIPO DE PECULIARIDAD` and the next `***` (line 78), if the heading occurs. */
  function PeculiarityBlock(t: string): Option<string> {
    if Contains(t, "TIPO DE PECULIARIDAD") then
      var after := Split(t, "TIPO DE PECULIARIDAD");
      Some(Split(after[1], "***")[0])
    else None
  }

  /** The lines scanned for spells: none without the heading. */
  function BlockLines(t: string): seq<string> {
    match PeculiarityBlock(t)
    case None => []
    case Some(b) => Split(b, "\n")
  }

  /** The loop of lines 79-83. */
  method CollectSpells(lines: seq<string>) returns (r: Option<seq<(ValidDate, ValidDate)>>)
    ensures r == Spells(lines)
  {
    var ts: seq<(ValidDate, ValidDate)> := [];
    var k := 0;
    while k < |lines|
      invariant 0 <= k <= |lines|
      invariant Spells(lines[..k]) == Some(ts)
    {
      assert lines[..k + 1][..k] == lines[..k];
      match LineSpell(lines[k]) {
        case NoSpell =>
        case Spell(a, b) =>
          ts := ts + [(a, b)];
        case BadDate =>
          BadDateStaysNone(lines, k + 1);
          return None;
      }
      k := k + 1;
    }
    assert lines[..k] == lines;
    return Some(ts);
  }

  lemma {:induction false} BadDateStaysNone(lines: seq<string>, k: nat)
    requires k <= |lines| && Spells(lines[..k]).None?
    ensures Spells(lines).None?
    decreases |lines| - k
  {
    if k < |lines| {
      assert lines[..k + 1][..k] == lines[..k];
      BadDateStaysNone(lines, k + 1);
    } else {
      assert lines[..k] == lines;
    }
  }

  /** A spell list that exists also exists for every prefix of the lines. */
  lemma SpellsInit(b: seq<string>)
    requires b != [] && Spells(b).Some?
    ensures Spells(b[..|b| - 1]).Some?
  {
  }

  /** Spells of consecutive groups of lines follow each other: the list keeps line order. */
  lemma {:induction false} SpellsAppend(a: seq<string>, b: seq<string>)
    requires Spells(a).Some? && Spells(b).Some?
    ensures Spells(a + b) == Some(Spells(a).value + Spells(b).value)
    decreases |b|
  {
    if b == [] {
      assert a + b == a;
      assert Spells(a).value + Spells(b).value == Spells(a).value;
    } else {
      var b0, last := b[..|b| - 1], b[|b| - 1];
      assert (a + b)[..|a + b| - 1] == a + b0;
      assert (a + b)[|a + b| - 1] == last;
      SpellsInit(b);
      SpellsAppend(a, b0);
      var sa, sb0 := Spells(a).value, Spells(b0).value;
      match LineSpell(last) {
        case NoSpell =>
        case Spell(x, y) =>
          assert sa + (sb0 + [(x, y)]) == (sa + sb0) + [(x, y)];
        case BadDate =>
      }
    }
  }

  /** A line yields the spell from its second-to-last to its last date, when it names an incapacity. */
  lemma LineSpellDates(line: string)
    requires LineSpell(line).Spell?
    ensures var f := DateTexts(line, 0);
            HasItKeyword(line) && |f| >= 2
            && ParseDmy(f[|f| - 2]) == Some(LineSpell(line).from)
            && ParseDmy(f[|f| - 1]) == Some(LineSpell(line).to)
  {
  }

  /** A line without a keyword, or with fewer than two dates, yields no spell. */
  lemma LineSpellNone(line: string)
    ensures LineSpell(line).NoSpell? <==> !HasItKeyword(line) || |DateTexts(line, 0)| < 2
  {
  }

  // ---------------------------------------------------------------------------
  // Employee documents: the single record
  // ---------------------------------------------------------------------------

  /** `alta_m.group(1).strip() if alta_m else "01-01-2000"` and the like. */
  function OrDefault(c: Option<string>, d: string): string {
    if c.Some? then Strip(c.value) else d
  }

  /** The record of lines 43-91; `None` when one of its dates does not parse. */
  function EmployeeRecord(c: DocCaptures, file: string, spells: Option<seq<(ValidDate, ValidDate)>>): Option<Period> {
    var alta := OrDefault(c.alta, "01-01-2000");
    var inicio := OrDefault(c.inicioContrato, alta);
    var desde := if c.periodo.Some? then ParseDmy(c.periodo.value.0) else ParseDmy(alta);
    var hasta := if c.periodo.Some? && c.periodo.value.1.Some? then ParseDmy(c.periodo.value.1.value)
                 else Some(Date(2099, 12, 31));
    var inicioDate := ParseDmy(inicio);
    if desde.None? || hasta.None? || spells.None? || inicioDate.None? then None
    else Some(Period(
      if c.nombre.Some? then Strip(c.nombre.value) else UnknownName(file),
      OrDefault(c.dni, "N/A"), OrDefault(c.cif, "N/A"), OrDefault(c.razonSocial, "DESCONOCIDA"),
      c.ctp.GetOr(0), false, desde.value, hasta.value, inicioDate.value, spells.value,
      alta, OrDefault(c.baja, "ACTIVO")))
  }

  /** The defaults of an employee record for each capture that is missing. */
  lemma EmployeeDefaults(t: string, c: DocCaptures, file: string)
    requires EmployeeRecord(c, file, Spells(BlockLines(t))).Some?
    ensures var r := EmployeeRecord(c, file, Spells(BlockLines(t))).value;
            !r.esAutonomo
            && (c.alta.None? ==> r.alta == "01-01-2000")
            && (c.inicioContrato.None? ==> ParseDmy(r.alta) == Some(r.inicioContrato))
            && (c.periodo.None? ==> ParseDmy(r.alta) == Some(r.desdeInfo))
            && (c.periodo.None? || c.periodo.value.1.None? ==> r.hastaInfo == Date(2099, 12, 31))
            && (c.baja.None? ==> r.baja == "ACTIVO")
            && (c.ctp.None? ==> r.ctp == 0)
            && (c.nombre.None? ==> Contains(r.nombre, "DESCONOCIDO"))
            && (c.dni.None? ==> r.dniTrabajador == "N/A")
            && r.tramosIt == Spells(BlockLines(t)).value
  {
  }

  /** With no capture at all and no peculiarity block, the record runs from 2000-01-01 to 2099-12-31. */
  lemma EmployeeAllMissing(t: string, file: string)
    requires !Contains(t, "TIPO DE PECULIARIDAD")
    ensures var c := DocCaptures(None, None, None, None, None, None, None, None, None);
            var r := EmployeeRecord(c, file, Spells(BlockLines(t)));
            r.Some? && r.value.desdeInfo == Date(2000, 1, 1) && r.value.inicioContrato == Date(2000, 1, 1)
            && r.value.hastaInfo == Date(2099, 12, 31) && r.value.tramosIt == []
            && r.value.baja == "ACTIVO" && r.value.ctp == 0
  {
    ParseDefaultAlta();
  }

  // ---------------------------------------------------------------------------
  // The whole document
  // ---------------------------------------------------------------------------

  /** `extraer_datos_idc(...)[0]`: the records of a document, or `None` when it raises. */
  function ExtractIdc(pages: seq<Option<string>>, pageCaps: string -> PageCaptures, docCaps: string -> DocCaptures, file: string)
    : Option<seq<Period>>
  {
    match FullText(pages)
    case None => None
    case Some(t) =>
      if IsSelfEmployed(t) then SelfEmployedRecords(pages, pageCaps, file)
      else match EmployeeRecord(docCaps(t), file, Spells(BlockLines(t)))
        case None => None
        case Some(r) => Some([r])
  }

  /** `extraer_datos_idc`, step by step as the source runs it. */
  method Extract(pages: seq<Option<string>>, pageCaps: string -> PageCaptures, docCaps: string -> DocCaptures, file: string)
    returns (r: Option<seq<Period>>)
    ensures r == ExtractIdc(pages, pageCaps, docCaps, file)
  {
    var full := BuildFullText(pages);
    if full.None? {
      return None;
    }
    var t := full.value;
    if IsSelfEmployed(t) {
      r := CollectSelfEmployed(pages, pageCaps, file);
      return;
    }
    var spells := CollectSpells(BlockLines(t));
    var rec := EmployeeRecord(docCaps(t), file, spells);
    if rec.None? {
      return None;
    }
    return Some([rec.value]);
  }

  /**
    A self-employment document gives one self-employment record per dated page; any other document
    gives exactly one employee record.
  */
  lemma ExtractIdcKinds(pages: seq<Option<string>>, pageCaps: string -> PageCaptures, docCaps: string -> DocCaptures, file: string)
    requires ExtractIdc(pages, pageCaps, docCaps, file).Some?
    ensures var rs := ExtractIdc(pages, pageCaps, docCaps, file).value;
            var t := FullText(pages).value;
            (IsSelfEmployed(t) ==> |rs| == Dated(pages, pageCaps, file) && forall i :: 0 <= i < |rs| ==> SelfEmployedShape(rs[i]))
            && (!IsSelfEmployed(t) ==> |rs| == 1 && !rs[0].esAutonomo)
  {
    if IsSelfEmployed(FullText(pages).value) {
      SelfEmployedRecordsShape(pages, pageCaps, file);
    }
  }
}
