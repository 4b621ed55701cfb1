/**
  Cleaning of identifiers and amounts before the sources are joined (super_extractor.py):
  `normalizar_dni_final` reduces a DNI/NIF to its last nine upper-case letters and digits, and
  `limpiar_valor_numerico` turns a cell into a number, falling back to 0.0.
*/
module Identifiers {
  import opened Wrappers
  import opened Text
  import opened Decimal

  /** A spreadsheet cell as the sources deliver it: missing (None/NaN), a number or text. */
  datatype Cell = Missing | Number(x: real) | Str(s: string)

  /** `"".join(filter(str.isalnum, s))`. */
  function AlnumOnly(s: string): (r: string)
    ensures |r| <= |s|
    ensures forall i :: 0 <= i < |r| ==> IsAlnum(r[i])
  {
    if s == [] then [] else (if IsAlnum(s[0]) then [s[0]] else []) + AlnumOnly(s[1..])
  }

  /** `normalizar_dni_final`: `None` for a missing or blank value, else the last nine characters. */
  function NormalizeDni(v: Option<string>): Option<string> {
    if v.None? || Strip(v.value) == [] then None
    else Some(Last(Upper(AlnumOnly(v.value)), 9))
  }

  /** A character of a normalised identifier. */
  predicate IdChar(c: char) { IsUpper(c) || IsDigit(c) }

  /** The result is absent exactly for a missing or whitespace-only value. */
  lemma NormalizeDniNone(v: Option<string>)
    ensures NormalizeDni(v).None? <==> v.None? || forall i :: 0 <= i < |v.value| ==> IsSpace(v.value[i])
  {
    if v.Some? {
      StripEmpty(v.value);
    }
  }

  lemma StripEmpty(s: string)
    ensures Strip(s) == [] <==> forall i :: 0 <= i < |s| ==> IsSpace(s[i])
  {
    var l := LStrip(s);
    LStripSpec(s);
    RStripSpec(l);
    if l != [] {
      assert !IsSpace(s[|s| - |l|]);
      assert RStrip(l) != [];
    }
  }

  /**
    A present result has at most nine upper-case letters and digits, and it is the tail of the
    upper-cased alphanumeric characters: all of them when there are fewer than nine.
  */
  lemma NormalizeDniShape(s: string)
    requires Strip(s) != []
    ensures var r := NormalizeDni(Some(s)).value;
            var a := Upper(AlnumOnly(s));
            |r| == (if |a| < 9 then |a| else 9) && r == a[|a| - |r|..]
            && forall i :: 0 <= i < |r| ==> IdChar(r[i])
  {
    var a := Upper(AlnumOnly(s));
    var r := NormalizeDni(Some(s)).value;
    forall i | 0 <= i < |r| ensures IdChar(r[i]) {
      assert r[i] == a[|a| - |r| + i];
    }
  }

  lemma {:induction false} AlnumOnlyKeeps(s: string)
    requires forall i :: 0 <= i < |s| ==> IsAlnum(s[i])
    ensures AlnumOnly(s) == s
    decreases |s|
  {
    if s != [] {
      AlnumOnlyKeeps(s[1..]);
      assert [s[0]] + s[1..] == s;
    }
  }

  lemma UpperKeeps(s: string)
    requires forall i :: 0 <= i < |s| ==> IdChar(s[i])
    ensures Upper(s) == s
  {
  }

  /** An alphanumeric value keeps its last nine characters, upper-cased. */
  lemma NormalizeDniAlnum(s: string)
    requires s != [] && forall i :: 0 <= i < |s| ==> IsAlnum(s[i])
    ensures NormalizeDni(Some(s)) == Some(Last(Upper(s), 9))
  {
    assert !IsSpace(s[0]);
    StripEmpty(s);
    AlnumOnlyKeeps(s);
  }

  /** Normalising again changes nothing, except for the empty identifier `""`. */
  lemma NormalizeDniIdempotent(v: Option<string>)
    requires NormalizeDni(v) != Some([])
    ensures NormalizeDni(NormalizeDni(v)) == NormalizeDni(v)
  {
    if NormalizeDni(v).Some? {
      var r := NormalizeDni(v).value;
      NormalizeDniShape(v.value);
      NormalizeDniAlnum(r);
      UpperKeeps(r);
    }
  }

  /** A value without letters or digits, such as `"---"`, normalises to the empty string. */
  lemma NormalizeDniDashes()
    ensures NormalizeDni(Some("---")) == Some("")
  {
    assert !IsSpace('-');
    assert LStrip("---") == "---";
    assert AlnumOnly("---") == [];
  }

  /** A leading padding zero of a 10-character identifier is dropped. */
  lemma NormalizeDniTen()
    ensures NormalizeDni(Some("016095080W")) == Some("16095080W")
  {
    var s := "016095080W";
    assert forall i :: 0 <= i < |s| ==> IdChar(s[i]);
    NormalizeDniAlnum(s);
    UpperKeeps(s);
    assert s[1..] == "16095080W";
  }

  /**
    `limpiar_valor_numerico`: a missing cell, `""` and `"N/A"` give 0.0, numbers pass through,
    and text is stripped, its dots removed and its commas turned into points before `float`;
    text `float` rejects gives 0.0.
  */
  function CleanNumeric(c: Cell): real {
    match c
    case Missing => 0.0
    case Number(x) => x
    case Str(s) =>
      if s == "" || s == "N/A" then 0.0
      else SpanishToFloat(Strip(s)).GetOr(0.0)
  }

  /** A Spanish-format amount, possibly surrounded by whitespace, is cleaned to its value. */
  lemma CleanNumericAmount(s: string)
    requires IsAmount(Strip(s))
    ensures CleanNumeric(Str(s)) == AmountValue(Strip(s))
  {
    SpanishAmountValue(Strip(s));
  }

  /** Text that does not convert is cleaned to 0.0. */
  lemma CleanNumericUnparsable(s: string)
    requires SpanishToFloat(Strip(s)).None?
    ensures CleanNumeric(Str(s)) == 0.0
  {
  }

  /** Numbers pass through; the placeholders give 0.0. */
  lemma CleanNumericPassThrough(x: real)
    ensures CleanNumeric(Number(x)) == x
    ensures CleanNumeric(Missing) == 0.0 && CleanNumeric(Str("")) == 0.0 && CleanNumeric(Str("N/A")) == 0.0
  {
  }
}
