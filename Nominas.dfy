/**
  The payroll part of the reader (`extractor_nominas.py`, `procesar_documento`): the entities
  that the document processor found on one payslip are folded into the record of fields
  Archivo, Nombre, DNI, MesNomina, Anualidad, Salario, AportacionEmpresa, Empresa and CIF.
  Every AportacionEmpresa entity adds up the tokens of its text that read as numbers; every
  other entity whose type names a field overwrites that field; the total is written with two
  decimals at the end.
*/
module Nominas {
  import opened Wrappers
  import opened Text
  import opened Decimal

  /** One entity of the processed document: its type and the text it was found in. */
  datatype Entidad = Entidad(tipo: string, texto: string)

  const Aportacion: string := "AportacionEmpresa"

  /** The fields that hold text while the entities are read (all but AportacionEmpresa). */
  const TextFields: set<string> := {"Archivo", "Nombre", "DNI", "MesNomina", "Anualidad", "Salario", "Empresa", "CIF"}

  /** Every field of the result. */
  const Fields: set<string> := TextFields + {Aportacion}

  /** `campos` before the loop (lines 68-78), without its AportacionEmpresa entry. */
  function Initial(ruta: string): (m: map<string, string>)
    ensures m.Keys == TextFields
  {
    map k | k in TextFields :: if k == "Archivo" then Basename(ruta) else ""
  }

  // ---------------------------------------------------------------------------------------------
  // The tokens of an AportacionEmpresa entity (lines 86-93)
  // ---------------------------------------------------------------------------------------------

  /** What one token adds: its value when `float` reads it once the separators are converted, otherwise nothing. */
  function TokenValue(t: string): real {
    match SpanishToFloat(t)
    case Some(v) => v
    case None => 0.0
  }

  /** What each token adds. */
  function TokenValues(ts: seq<string>): (vs: seq<real>)
    ensures |vs| == |ts|
  {
    seq(|ts|, k requires 0 <= k < |ts| => TokenValue(ts[k]))
  }

  function Sum(vs: seq<real>): real {
    if vs == [] then 0.0 else Sum(vs[..|vs| - 1]) + vs[|vs| - 1]
  }

  /** The sum of the tokens' values. */
  function TokenSum(ts: seq<string>): real {
    Sum(TokenValues(ts))
  }

  /** `valor.replace("\n", " ").split()`. */
  function Trozos(valor: string): seq<string> {
    Words(ReplaceChar(valor, '\n', ' '))
  }

  lemma SumAppend(vs: seq<real>, v: real)
    ensures Sum(vs + [v]) == Sum(vs) + v
  {
    assert (vs + [v])[..|vs|] == vs;
  }

  lemma {:induction false} SumSkipsZero(vs: seq<real>, i: nat)
    requires i < |vs| && vs[i] == 0.0
    ensures Sum(vs) == Sum(vs[..i] + vs[i + 1..])
  {
    var init := vs[..|vs| - 1];
    if i == |vs| - 1 {
      assert vs[..i] + vs[i + 1..] == init;
    } else {
      SumSkipsZero(init, i);
      assert vs[..i] + vs[i + 1..] == (init[..i] + init[i + 1..]) + [vs[|vs| - 1]];
      SumAppend(init[..i] + init[i + 1..], vs[|vs| - 1]);
    }
  }

  lemma TokenValuesSkip(ts: seq<string>, i: nat)
    requires i < |ts|
    ensures TokenValues(ts[..i] + ts[i + 1..]) == TokenValues(ts)[..i] + TokenValues(ts)[i + 1..]
  {
  }

  lemma TokenSumAppend(ts: seq<string>, t: string)
    ensures TokenSum(ts + [t]) == TokenSum(ts) + TokenValue(t)
  {
    assert TokenValues(ts + [t]) == TokenValues(ts) + [TokenValue(t)];
    SumAppend(TokenValues(ts), TokenValue(t));
  }

  /** Tokens that do not read as numbers add nothing: dropping them leaves the sum unchanged. */
  lemma TokenSumSkips(ts: seq<string>, i: nat)
    requires i < |ts| && SpanishToFloat(ts[i]).None?
    ensures TokenSum(ts) == TokenSum(ts[..i] + ts[i + 1..])
  {
    SumSkipsZero(TokenValues(ts), i);
    TokenValuesSkip(ts, i);
  }

  /** A token written as a Spanish amount adds the amount it denotes. */
  lemma TokenAmount(t: string)
    requires IsAmount(t)
    ensures TokenValue(t) == AmountValue(t)
  {
    SpanishAmountValue(t);
  }

  // ---------------------------------------------------------------------------------------------
  // The fold over the entities (lines 80-95)
  // ---------------------------------------------------------------------------------------------

  /** `campos` during the loop: the text fields, and the running AportacionEmpresa total. */
  datatype Campos = Campos(textos: map<string, string>, aportacion: real)

  /** One entity: the tokens of an AportacionEmpresa add to the total, a known field is overwritten, anything else is ignored. */
  function Step(c: Campos, e: Entidad): Campos {
    var tipo := Strip(e.tipo);
    var valor := Strip(e.texto);
    if tipo == Aportacion then Campos(c.textos, c.aportacion + TokenSum(Trozos(valor)))
    else if tipo in c.textos then Campos(c.textos[tipo := valor], c.aportacion)
    else c
  }

  /** The state after the entities `es`, in order. */
  function Fold(c: Campos, es: seq<Entidad>): Campos {
    if es == [] then c else Step(Fold(c, es[..|es| - 1]), es[|es| - 1])
  }

  /** Line 97: the total written with two decimals joins the text fields. */
  function Finish(c: Campos): map<string, string> {
    c.textos[Aportacion := FormatFixed2(c.aportacion)]
  }

  /** The record `procesar_documento` returns for the file at `ruta` and the entities `es`. */
  function Record(ruta: string, es: seq<Entidad>): map<string, string> {
    Finish(Fold(Campos(Initial(ruta), 0.0), es))
  }

  lemma FoldAppend(c: Campos, es: seq<Entidad>, e: Entidad)
    ensures Fold(c, es + [e]) == Step(Fold(c, es), e)
  {
    assert (es + [e])[..|es|] == es;
  }

  lemma FoldPrefix(c: Campos, es: seq<Entidad>, n: nat)
    requires n < |es|
    ensures Fold(c, es[..n + 1]) == Step(Fold(c, es[..n]), es[n])
  {
    assert es[..n + 1][..n] == es[..n];
  }

  lemma {:induction false} FoldConcat(c: Campos, a: seq<Entidad>, b: seq<Entidad>)
    ensures Fold(c, a + b) == Fold(Fold(c, a), b)
  {
    if b == [] {
      assert a + b == a;
    } else {
      var init := b[..|b| - 1];
      var last := b[|b| - 1];
      assert a + b == (a + init) + [last];
      assert b == init + [last];
      FoldConcat(c, a, init);
      FoldAppend(c, a + init, last);
      FoldAppend(Fold(c, a), init, last);
    }
  }

  /** The fold never adds nor removes a field. */
  lemma {:induction false} FoldKeys(c: Campos, es: seq<Entidad>)
    ensures Fold(c, es).textos.Keys == c.textos.Keys
  {
    if es != [] {
      FoldKeys(c, es[..|es| - 1]);
    }
  }

  /** The record has exactly the nine fields, whatever the entities. */
  lemma RecordKeys(ruta: string, es: seq<Entidad>)
    ensures Record(ruta, es).Keys == Fields
  {
    FoldKeys(Campos(Initial(ruta), 0.0), es);
  }

  // ---------------------------------------------------------------------------------------------
  // What the record holds
  // ---------------------------------------------------------------------------------------------

  /** The AportacionEmpresa total on its own: the tokens of every AportacionEmpresa entity, in order. */
  function AportacionTotal(es: seq<Entidad>): real {
    if es == [] then 0.0
    else
      var e := es[|es| - 1];
      AportacionTotal(es[..|es| - 1]) + (if Strip(e.tipo) == Aportacion then TokenSum(Trozos(Strip(e.texto))) else 0.0)
  }

  lemma {:induction false} FoldAportacion(c: Campos, es: seq<Entidad>)
    ensures Fold(c, es).aportacion == c.aportacion + AportacionTotal(es)
  {
    if es != [] {
      FoldAportacion(c, es[..|es| - 1]);
    }
  }

  /** AportacionEmpresa is the total written with two decimals, which reads back as the total rounded to cents. */
  lemma RecordAportacion(ruta: string, es: seq<Entidad>)
    ensures Record(ruta, es)[Aportacion] == FormatFixed2(AportacionTotal(es))
    ensures ParseFloat(Record(ruta, es)[Aportacion]) == Some(Round2(AportacionTotal(es)))
    ensures var s := Record(ruta, es)[Aportacion];
            |s| >= 4 && s[|s| - 3] == '.' && IsDigit(s[|s| - 2]) && IsDigit(s[|s| - 1])
  {
    var s := Record(ruta, es)[Aportacion];
    FoldAportacion(Campos(Initial(ruta), 0.0), es);
    assert s == FormatFixed2(AportacionTotal(es));
    FixedText(s, AportacionTotal(es));
  }

  lemma FixedText(s: string, x: real)
    requires s == FormatFixed2(x)
    ensures ParseFloat(s) == Some(Round2(x))
    ensures |s| >= 4 && s[|s| - 3] == '.' && IsDigit(s[|s| - 2]) && IsDigit(s[|s| - 1])
  {
    FormatFixed2RoundTrip(x);
    FormatFixed2Shape(x);
  }

  /** The value of field `k` once the entities `es` have been read: the entity's text whose type names it last wins. */
  lemma {:induction false} FoldLastWins(c: Campos, es: seq<Entidad>, k: string, i: nat)
    requires k in c.textos && k != Aportacion
    requires i < |es| && Strip(es[i].tipo) == k
    requires forall j :: i < j < |es| ==> Strip(es[j].tipo) != k
    ensures k in Fold(c, es).textos && Fold(c, es).textos[k] == Strip(es[i].texto)
  {
    FoldKeys(c, es);
    var init := es[..|es| - 1];
    FoldKeys(c, init);
    if i < |es| - 1 {
      assert forall j :: i < j < |init| ==> init[j] == es[j];
      FoldLastWins(c, init, k, i);
    }
  }

  /** A field that no entity names keeps its value. */
  lemma {:induction false} FoldUntouched(c: Campos, es: seq<Entidad>, k: string)
    requires k in c.textos
    requires forall j :: 0 <= j < |es| ==> Strip(es[j].tipo) != k
    ensures k in Fold(c, es).textos && Fold(c, es).textos[k] == c.textos[k]
  {
    FoldKeys(c, es);
    if es != [] {
      var init := es[..|es| - 1];
      assert forall j :: 0 <= j < |init| ==> init[j] == es[j];
      FoldUntouched(c, init, k);
      FoldKeys(c, init);
    }
  }

  /** A text field holds the stripped text of the last entity of that type. */
  lemma RecordLastWins(ruta: string, es: seq<Entidad>, k: string, i: nat)
    requires k in TextFields
    requires i < |es| && Strip(es[i].tipo) == k
    requires forall j :: i < j < |es| ==> Strip(es[j].tipo) != k
    ensures k in Record(ruta, es) && Record(ruta, es)[k] == Strip(es[i].texto)
  {
    FoldLastWins(Campos(Initial(ruta), 0.0), es, k, i);
  }

  /** A text field no entity names keeps its default: the file's base name for Archivo, empty text otherwise. */
  lemma RecordDefault(ruta: string, es: seq<Entidad>, k: string)
    requires k in TextFields
    requires forall j :: 0 <= j < |es| ==> Strip(es[j].tipo) != k
    ensures k in Record(ruta, es) && Record(ruta, es)[k] == (if k == "Archivo" then Basename(ruta) else "")
  {
    FoldUntouched(Campos(Initial(ruta), 0.0), es, k);
  }

  lemma StepIgnores(c: Campos, e: Entidad)
    requires Strip(e.tipo) != Aportacion && Strip(e.tipo) !in c.textos
    ensures Step(c, e) == c
  {
  }

  lemma FoldIgnores(c: Campos, a: seq<Entidad>, e: Entidad, b: seq<Entidad>)
    requires Strip(e.tipo) != Aportacion && Strip(e.tipo) !in c.textos
    ensures Fold(c, a + [e] + b) == Fold(c, a + b)
  {
    FoldKeys(c, a);
    StepIgnores(Fold(c, a), e);
    FoldAppend(c, a, e);
    FoldConcat(c, a + [e], b);
    FoldConcat(c, a, b);
  }

  /** An entity whose type names no field changes nothing, wherever it comes. */
  lemma RecordIgnores(ruta: string, es: seq<Entidad>, e: Entidad, i: nat)
    requires i <= |es| && Strip(e.tipo) !in Fields
    ensures Record(ruta, es[..i] + [e] + es[i..]) == Record(ruta, es)
  {
    var c := Campos(Initial(ruta), 0.0);
    assert Strip(e.tipo) !in c.textos;
    FoldIgnores(c, es[..i], e, es[i..]);
    assert es[..i] + es[i..] == es;
    assert Fold(c, es[..i] + [e] + es[i..]) == Fold(c, es);
  }

  // ---------------------------------------------------------------------------------------------
  // The loops of procesar_documento (lines 68-98)
  // ---------------------------------------------------------------------------------------------

  /** The token loop (lines 86-93): the values of the tokens of `valor` that `float` reads, added up. */
  method SumarTrozos(valor: string) returns (suma: real)
    ensures suma == TokenSum(Trozos(valor))
  {
    var trozos := Trozos(valor);
    suma := 0.0;
    var j := 0;
    while j < |trozos|
      invariant j <= |trozos|
      invariant suma == TokenSum(trozos[..j])
    {
      assert trozos[..j + 1] == trozos[..j] + [trozos[j]];
      TokenSumAppend(trozos[..j], trozos[j]);
      match SpanishToFloat(trozos[j]) {
        case Some(v) => suma := suma + v;
        case None =>
      }
      j := j + 1;
    }
    assert trozos[..j] == trozos;
  }

  /** One pass of the entity loop (lines 81-95): the entity `e` read into the text fields and the running total. */
  method Leer(textos: map<string, string>, aportacion: real, e: Entidad) returns (textos': map<string, string>, aportacion': real)
    ensures Campos(textos', aportacion') == Step(Campos(textos, aportacion), e)
  {
    var tipo := Strip(e.tipo);
    var valor := Strip(e.texto);
    textos', aportacion' := textos, aportacion;
    if tipo == Aportacion {
      var suma := SumarTrozos(valor);
      aportacion' := aportacion + suma;
    } else if tipo in textos {
      textos' := textos[tipo := valor];
    }
  }

  /** `procesar_documento` once the document processor has answered: the entity loop and its token loop. */
  method ProcesarDocumento(ruta: string, entidades: seq<Entidad>) returns (campos: map<string, string>)
    ensures campos == Record(ruta, entidades)
  {
    var textos := Initial(ruta);
    var aportacion := 0.0;
    ghost var inicio := Campos(textos, aportacion);
    var n := 0;
    while n < |entidades|
      invariant n <= |entidades|
      invariant Campos(textos, aportacion) == Fold(inicio, entidades[..n])
    {
      FoldPrefix(inicio, entidades, n);
      textos, aportacion := Leer(textos, aportacion, entidades[n]);
      n := n + 1;
    }
    assert entidades[..n] == entidades;
    campos := textos[Aportacion := FormatFixed2(aportacion)];
  }
}
