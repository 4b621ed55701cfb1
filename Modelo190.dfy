/**
  Reading the Modelo 190 (the annual summary of withholdings on earned income) from the text of
  its pages: each perceptor's block becomes one record with the perceptor's identifier and name,
  the payment key and sub-key, and the cash and in-kind amounts, with and without temporary
  incapacity (`extractor_190.py`).
*/
module Modelo190 {
  import opened Wrappers
  import opened Text
  import opened Decimal
  import opened Seqs

  // ---------------------------------------------------------------------------------------------
  // limpiar_monto (lines 6-14)
  // ---------------------------------------------------------------------------------------------

  predicate NumericChar(c: char) { IsDigit(c) || c == ',' || c == '.' }

  /** `re.sub(r'[^0-9,.]', '', s)`: the digits, commas and dots of `s`, in order. */
  function KeepNumeric(s: string): (r: string)
    ensures |r| <= |s|
    ensures forall i :: 0 <= i < |r| ==> NumericChar(r[i])
  {
    if s == [] then [] else (if NumericChar(s[0]) then [s[0]] else []) + KeepNumeric(s[1..])
  }

  /** `limpiar_monto`: 0.0 for empty text, for text without digits or separators, and for what `float` refuses. */
  function LimpiarMonto(texto: string): real {
    if texto == "" then 0.0
    else
      var limpio := KeepNumeric(texto);
      if limpio == "" then 0.0
      else match SpanishToFloat(limpio)
        case Some(v) => v
        case None => 0.0
  }

  lemma {:induction false} KeepNumericAll(s: string)
    requires forall i :: 0 <= i < |s| ==> NumericChar(s[i])
    ensures KeepNumeric(s) == s
    decreases |s|
  {
    if s != [] {
      KeepNumericAll(s[1..]);
      assert [s[0]] + s[1..] == s;
    }
  }

  lemma {:induction false} GroupedChars(s: string)
    requires IsGroupedInt(s)
    ensures forall i :: 0 <= i < |s| ==> NumericChar(s[i])
    decreases |s|
  {
    if |s| > 3 {
      GroupedChars(s[..|s| - 4]);
      forall i | 0 <= i < |s| ensures NumericChar(s[i]) {
        if i < |s| - 4 {
          assert s[i] == s[..|s| - 4][i];
        } else if i > |s| - 4 {
          assert s[i] == s[|s| - 3..][i - (|s| - 3)];
        }
      }
    }
  }

  /** Every character of a Spanish-format amount survives the cleaning. */
  lemma AmountChars(s: string)
    requires IsAmount(s)
    ensures forall i :: 0 <= i < |s| ==> NumericChar(s[i])
  {
    GroupedChars(s[..|s| - 3]);
    forall i | 0 <= i < |s| ensures NumericChar(s[i]) {
      if i < |s| - 3 {
        assert s[i] == s[..|s| - 3][i];
      } else if i > |s| - 3 {
        assert s[i] == s[|s| - 2..][i - (|s| - 2)];
      }
    }
  }

  /** An amount as the recogniser of line 22 delivers it is read as the value it denotes. */
  lemma LimpiarMontoAmount(s: string)
    requires IsAmount(s)
    ensures LimpiarMonto(s) == AmountValue(s)
  {
    AmountChars(s);
    KeepNumericAll(s);
    SpanishAmountValue(s);
  }

  lemma ParseUnsignedNonNegative(t: string)
    requires ParseUnsigned(t).Some?
    ensures ParseUnsigned(t).value >= 0.0
  {
  }

  /** Text without whitespace is its own strip. */
  lemma StripNoSpace(t: string)
    requires forall i :: 0 <= i < |t| ==> !IsSpace(t[i])
    ensures Strip(t) == t
  {
    if t != [] {
      assert LStrip(t) == t;
    }
  }

  /** The cleaned text has no sign and no whitespace, so `float` never reads a negative number from it. */
  lemma LimpiarMontoNonNegative(texto: string)
    ensures LimpiarMonto(texto) >= 0.0
  {
    var limpio := KeepNumeric(texto);
    if texto != "" && limpio != "" {
      RemoveCharSubset(limpio, '.');
      UnsignedNonNegative(ReplaceChar(RemoveChar(limpio, '.'), ',', '.'));
    }
  }

  /** Digits and points only: `float` reads no sign, so no negative value. */
  lemma UnsignedNonNegative(t: string)
    requires forall i :: 0 <= i < |t| ==> IsDigit(t[i]) || t[i] == '.'
    ensures ParseFloat(t).Some? ==> ParseFloat(t).value >= 0.0
  {
    StripNoSpace(t);
    if ParseFloat(t).Some? {
      assert t != [] ==> t[0] != '-' && t[0] != '+';
      ParseUnsignedNonNegative(t);
    }
  }

  /** Removing a character keeps only characters that satisfy what all of `s` satisfied. */
  lemma {:induction false} RemoveCharSubset(s: string, a: char)
    requires forall i :: 0 <= i < |s| ==> NumericChar(s[i])
    ensures forall i :: 0 <= i < |RemoveChar(s, a)| ==> NumericChar(RemoveChar(s, a)[i])
    decreases |s|
  {
    if s != [] {
      RemoveCharSubset(s[1..], a);
    }
  }

  /** Nothing to clean reads as zero. */
  lemma LimpiarMontoNothing(texto: string)
    requires forall i :: 0 <= i < |texto| ==> !NumericChar(texto[i])
    ensures LimpiarMonto(texto) == 0.0
  {
    if texto != "" {
      NoNumeric(texto);
    }
  }

  lemma {:induction false} NoNumeric(s: string)
    requires forall i :: 0 <= i < |s| ==> !NumericChar(s[i])
    ensures KeepNumeric(s) == ""
    decreases |s|
  {
    if s != [] {
      NoNumeric(s[1..]);
    }
  }

  // ---------------------------------------------------------------------------------------------
  // extraer_por_instancia (lines 16-27)
  // ---------------------------------------------------------------------------------------------

  /**
    `[m.start() for m in re.finditer(re.escape(sub), s)]` from position `i`: the occurrences of
    the literal `sub`, left to right, each search resuming after the previous occurrence.
  */
  function Occurrences(s: string, sub: string, i: nat): (r: seq<nat>)
    decreases |s| + 1 - i
  {
    if i > |s| then []
    else
      match FindFrom(s, sub, i)
      case None => []
      case Some(k) => [k] + Occurrences(s, sub, k + (if |sub| == 0 then 1 else |sub|))
  }

  /** Every listed position is an occurrence at or after `i`. */
  lemma {:induction false} OccurrencesSound(s: string, sub: string, i: nat, j: nat)
    requires j < |Occurrences(s, sub, i)|
    ensures i <= Occurrences(s, sub, i)[j] && StartsAt(s, sub, Occurrences(s, sub, i)[j])
    decreases |s| + 1 - i
  {
    var k := FindFrom(s, sub, i).value;
    if j > 0 {
      OccurrencesSound(s, sub, k + (if |sub| == 0 then 1 else |sub|), j - 1);
    }
  }

  /** The occurrences do not overlap: each starts after the previous one ends. */
  lemma {:induction false} OccurrencesApart(s: string, sub: string, i: nat, j: nat)
    requires j + 1 < |Occurrences(s, sub, i)|
    ensures Occurrences(s, sub, i)[j] + |sub| <= Occurrences(s, sub, i)[j + 1]
    ensures Occurrences(s, sub, i)[j] < Occurrences(s, sub, i)[j + 1]
    decreases |s| + 1 - i
  {
    var k := FindFrom(s, sub, i).value;
    var next := k + (if |sub| == 0 then 1 else |sub|);
    if j == 0 {
      OccurrencesSound(s, sub, next, 0);
    } else {
      OccurrencesApart(s, sub, next, j - 1);
    }
  }

  /** No occurrence is skipped: none starts between the end of one listed occurrence and the next. */
  lemma {:induction false} OccurrencesGap(s: string, sub: string, i: nat, j: nat, p: nat)
    requires j + 1 < |Occurrences(s, sub, i)|
    requires Occurrences(s, sub, i)[j] + (if |sub| == 0 then 1 else |sub|) <= p < Occurrences(s, sub, i)[j + 1]
    ensures !StartsAt(s, sub, p)
    decreases |s| + 1 - i
  {
    var k := FindFrom(s, sub, i).value;
    var next := k + (if |sub| == 0 then 1 else |sub|);
    if j > 0 {
      OccurrencesGap(s, sub, next, j - 1, p);
    }
  }

  /** The first listed occurrence is the leftmost one; there is none exactly when `sub` does not occur. */
  lemma OccurrencesFirst(s: string, sub: string, i: nat)
    requires i <= |s|
    ensures |Occurrences(s, sub, i)| == 0 <==> FindFrom(s, sub, i).None?
    ensures |Occurrences(s, sub, i)| > 0 ==> Some(Occurrences(s, sub, i)[0]) == FindFrom(s, sub, i)
  {
  }

  /** `bloque[p:p + 200]`: the window an amount is looked for in. */
  const WindowSize: nat := 200

  function Window(s: string, p: nat): (w: string)
    ensures |w| <= WindowSize
    ensures p <= |s| ==> w == s[p..if p + WindowSize <= |s| then p + WindowSize else |s|]
  {
    if p >= |s| then [] else s[p..if p + WindowSize <= |s| then p + WindowSize else |s|]
  }

  /**
    Where `extraer_por_instancia` looks: the `instancia`-th occurrence of the tag, or `None`
    when there are fewer. Instance 0 is Python's index -1, the last occurrence; with no
    occurrence at all its IndexError is swallowed by the `except`.
  */
  function InstanceStart(bloque: string, etiqueta: string, instancia: nat): (r: Option<nat>)
  {
    var matches := Occurrences(bloque, etiqueta, 0);
    if |matches| < instancia || |matches| == 0 then None
    else if instancia == 0 then Some(matches[|matches| - 1])
    else Some(matches[instancia - 1])
  }

  /** The first amount of the window at the chosen occurrence, cleaned; 0.0 when there is none. */
  function ExtraerPorInstancia(bloque: string, etiqueta: string, instancia: nat): real {
    match InstanceStart(bloque, etiqueta, instancia)
    case None => 0.0
    case Some(p) =>
      var fragmento := Window(bloque, p);
      match SearchAmount(fragmento, 0)
      case None => 0.0
      case Some((a, b)) => LimpiarMonto(fragmento[a..b])
  }

  lemma ExtraerNonNegative(bloque: string, etiqueta: string, instancia: nat)
    ensures ExtraerPorInstancia(bloque, etiqueta, instancia) >= 0.0
  {
    match InstanceStart(bloque, etiqueta, instancia)
    case None =>
    case Some(p) =>
      var fragmento := Window(bloque, p);
      match SearchAmount(fragmento, 0)
      case None =>
      case Some((a, b)) => LimpiarMontoNonNegative(fragmento[a..b]);
  }

  /** A tag that occurs fewer than `instancia` times gives 0.0. */
  lemma ExtraerTooFew(bloque: string, etiqueta: string, instancia: nat)
    requires |Occurrences(bloque, etiqueta, 0)| < instancia
    ensures ExtraerPorInstancia(bloque, etiqueta, instancia) == 0.0
  {
  }

  /**
    At the `instancia`-th occurrence (counted from 1), the result is the value of the leftmost
    amount in the 200 characters from there, and 0.0 when they hold none.
  */
  lemma ExtraerFound(bloque: string, etiqueta: string, instancia: nat)
    requires 1 <= instancia <= |Occurrences(bloque, etiqueta, 0)|
    ensures var p := Occurrences(bloque, etiqueta, 0)[instancia - 1];
      var w := Window(bloque, p);
      match SearchAmount(w, 0)
      case None => ExtraerPorInstancia(bloque, etiqueta, instancia) == 0.0
      case Some((a, b)) => IsAmount(w[a..b]) && ExtraerPorInstancia(bloque, etiqueta, instancia) == AmountValue(w[a..b])
  {
    var p := Occurrences(bloque, etiqueta, 0)[instancia - 1];
    var w := Window(bloque, p);
    match SearchAmount(w, 0)
    case None =>
    case Some((a, b)) => LimpiarMontoAmount(w[a..b]);
  }

  /** The first instance is read at the leftmost occurrence of the tag. */
  lemma ExtraerFirstAt(bloque: string, etiqueta: string)
    requires FindFrom(bloque, etiqueta, 0).Some?
    ensures InstanceStart(bloque, etiqueta, 1) == FindFrom(bloque, etiqueta, 0)
  {
    OccurrencesFirst(bloque, etiqueta, 0);
  }

  // ---------------------------------------------------------------------------------------------
  // Blocks: re.split(r'Percepción\s+\d+', texto) (lines 42-44)
  // ---------------------------------------------------------------------------------------------

  const Marker: string := "Percepción"

  /** A match of `Percepción\s+\d+` starting at `i`: where it ends. */
  function MarkerAt(s: string, i: nat): (e: Option<nat>)
    ensures e.Some? ==> i < e.value <= |s|
  {
    if !StartsAt(s, Marker, i) then None
    else
      var k := i + |Marker|;
      var w := SpaceRun(s, k);
      var d := DigitRun(s, k + w);
      if w >= 1 && d >= 1 then Some(k + w + d) else None
  }

  /** The leftmost marker at or after `i`: its start and end. */
  function NextMarker(s: string, i: nat): (r: Option<(nat, nat)>)
    requires i <= |s|
    decreases |s| - i
    ensures r.Some? ==> i <= r.value.0 < r.value.1 <= |s| && MarkerAt(s, r.value.0) == Some(r.value.1)
  {
    match MarkerAt(s, i)
    case Some(e) => Some((i, e))
    case None => if i == |s| then None else NextMarker(s, i + 1)
  }

  /** The marker found is the leftmost one, and none is found only when there is none. */
  lemma {:induction false} NextMarkerLeftmost(s: string, i: nat, j: nat)
    requires i <= j <= |s|
    requires NextMarker(s, i).None? || j < NextMarker(s, i).value.0
    ensures MarkerAt(s, j).None?
    decreases |s| - i
  {
    if i < j {
      NextMarkerLeftmost(s, i + 1, j);
    }
  }

  /** The pieces of `s[i..]` between markers. */
  function SplitFrom(s: string, i: nat): (r: seq<string>)
    requires i <= |s|
    decreases |s| - i
    ensures |r| >= 1
  {
    match NextMarker(s, i)
    case None => [s[i..]]
    case Some((k, e)) => [s[i..k]] + SplitFrom(s, e)
  }

  /** The markers themselves, in order. */
  function MarkersFrom(s: string, i: nat): (r: seq<string>)
    requires i <= |s|
    decreases |s| - i
  {
    match NextMarker(s, i)
    case None => []
    case Some((k, e)) => [s[k..e]] + MarkersFrom(s, e)
  }

  /** Pieces with the separators put back between them. */
  function Interleave(pieces: seq<string>, seps: seq<string>): string
    requires |pieces| == |seps| + 1
    decreases |seps|
  {
    if seps == [] then pieces[0] else pieces[0] + seps[0] + Interleave(pieces[1..], seps[1..])
  }

  /** Splitting loses nothing: the pieces and the markers put back together are the text. */
  lemma {:induction false} SplitJoin(s: string, i: nat)
    requires i <= |s|
    ensures |SplitFrom(s, i)| == |MarkersFrom(s, i)| + 1
    ensures Interleave(SplitFrom(s, i), MarkersFrom(s, i)) == s[i..]
    decreases |s| - i
  {
    match NextMarker(s, i)
    case None =>
    case Some((k, e)) =>
      SplitJoin(s, e);
      var ps, ms := SplitFrom(s, i), MarkersFrom(s, i);
      assert ps[1..] == SplitFrom(s, e) && ms[1..] == MarkersFrom(s, e);
      SliceThree(s, i, k, e);
  }

  /** Every marker put back is a marker. */
  lemma {:induction false} MarkersAreMarkers(s: string, i: nat, j: nat)
    requires i <= |s| && j < |MarkersFrom(s, i)|
    ensures exists k :: i <= k < |s| && MarkerAt(s, k).Some? && MarkersFrom(s, i)[j] == s[k..MarkerAt(s, k).value]
    decreases |s| - i
  {
    var m := NextMarker(s, i).value;
    var rest := MarkersFrom(s, m.1);
    assert MarkersFrom(s, i) == [s[m.0..m.1]] + rest;
    AppendAt([s[m.0..m.1]], rest, j);
    if j > 0 {
      MarkersAreMarkers(s, m.1, j - 1);
    }
  }

  /** The piece before the first marker, which the reader discards, is all that precedes it. */
  lemma SplitFirst(s: string)
    ensures NextMarker(s, 0).None? ==> SplitFrom(s, 0) == [s]
    ensures NextMarker(s, 0).Some? ==> SplitFrom(s, 0)[0] == s[..NextMarker(s, 0).value.0]
  {
  }

  // ---------------------------------------------------------------------------------------------
  // Identifier and name: ([A-Z0-9][0-9A-Z]{7,8})\s+(.*?)\s+(\d{2}) (lines 47-51)
  // ---------------------------------------------------------------------------------------------

  predicate IdChar(c: char) { IsUpper(c) || IsDigit(c) }

  /** Number of consecutive identifier characters starting at `i`. */
  function IdRun(s: string, i: nat): (n: nat)
    decreases |s| - i
    ensures i + n <= |s| || (i > |s| && n == 0)
    ensures forall j :: i <= j < i + n ==> IdChar(s[j])
    ensures i + n < |s| ==> !IdChar(s[i + n])
  {
    if i < |s| && IdChar(s[i]) then 1 + IdRun(s, i + 1) else 0
  }

  /** `\s+(\d{2})` at `t`: the whitespace run is greedy and must be followed by two digits. */
  predicate Closes(s: string, t: nat) {
    var w := SpaceRun(s, t);
    w >= 1 && t + w + 2 <= |s| && IsDigit(s[t + w]) && IsDigit(s[t + w + 1])
  }

  /** The lazy `(.*?)` from `t`: the first end at which the closing part matches, never crossing a newline. */
  function LazyEnd(s: string, t: nat): (e: Option<nat>)
    requires t <= |s|
    decreases |s| - t
    ensures e.Some? ==> t <= e.value <= |s| && Closes(s, e.value)
    ensures e.Some? ==> forall j :: t <= j < e.value ==> s[j] != '\n' && !Closes(s, j)
  {
    if Closes(s, t) then Some(t)
    else if t < |s| && s[t] != '\n' then LazyEnd(s, t + 1)
    else None
  }

  /**
    `\s+(.*?)\s+(\d{2})` after the identifier, which ends at `q`: the name group. With the first
    whitespace run taken whole, the name starts at the next printing character. If no end fits,
    the engine gives back one whitespace character; the name is then empty and matches exactly
    when two digits follow the run (a run of at least two).
  */
  function NameAt(s: string, q: nat): (n: Option<string>)
    requires q <= |s|
  {
    var w := SpaceRun(s, q);
    if w == 0 then None
    else
      match LazyEnd(s, q + w)
      case Some(e) => Some(s[q + w..e])
      case None =>
        if w >= 2 && q + w + 2 <= |s| && IsDigit(s[q + w]) && IsDigit(s[q + w + 1]) then Some("") else None
  }

  /**
    The regular expression matched at `p`: identifier and name group. The identifier takes nine
    characters when it can and eight otherwise, and whitespace must follow it, so a run of
    identifier characters matches only when it is eight or nine long.
  */
  function IdAt(s: string, p: nat): (r: Option<(string, string)>)
    requires p <= |s|
    ensures r.Some? ==> 8 <= |r.value.0| <= 9 && forall i :: 0 <= i < |r.value.0| ==> IdChar(r.value.0[i])
  {
    var n := IdRun(s, p);
    if n != 8 && n != 9 then None
    else
      var id := s[p..p + n];
      assert forall i :: 0 <= i < |id| ==> IdChar(id[i]);
      Paired(id, NameAt(s, p + n))
  }

  /** The identifier with the name group, when there is one. */
  function Paired(id: string, g: Option<string>): (r: Option<(string, string)>)
    ensures r.Some? <==> g.Some?
    ensures r.Some? ==> r.value == (id, g.value)
  {
    if g.Some? then Some((id, g.value)) else None
  }

  /** `re.search`: the leftmost position at or after `p` where the expression matches. */
  function IdPos(s: string, p: nat): (k: Option<nat>)
    requires p <= |s|
    decreases |s| - p
    ensures k.Some? ==> p <= k.value <= |s| && IdAt(s, k.value).Some?
    ensures k.Some? ==> forall j :: p <= j < k.value ==> IdAt(s, j).None?
    ensures k.None? ==> forall j :: p <= j <= |s| ==> IdAt(s, j).None?
  {
    if IdAt(s, p).Some? then Some(p)
    else if p == |s| then None
    else IdPos(s, p + 1)
  }

  /** The identifier and the name group of the leftmost match; none only when nothing matches. */
  function FindId(s: string): (r: Option<(string, string)>)
    ensures r.Some? ==> 8 <= |r.value.0| <= 9 && forall i :: 0 <= i < |r.value.0| ==> IdChar(r.value.0[i])
    ensures r.None? ==> forall j :: 0 <= j <= |s| ==> IdAt(s, j).None?
    ensures r.Some? ==> exists k :: 0 <= k <= |s| && IdAt(s, k) == r && forall j :: 0 <= j < k ==> IdAt(s, j).None?
  {
    match IdPos(s, 0)
    case None => None
    case Some(k) => IdAt(s, k)
  }

  // ---------------------------------------------------------------------------------------------
  // Clave and Subclave (lines 54-58)
  // ---------------------------------------------------------------------------------------------

  /** What follows the tag: `([A-Z])` for the key, `(\d{2})` for the sub-key. */
  datatype CodeShape = Letter | TwoDigits

  /** `<tag>\s*(<code>)` at `p`: the code. */
  function CodeAt(s: string, tag: string, shape: CodeShape, p: nat): (r: Option<string>)
    ensures r.Some? ==> match shape
      case Letter => |r.value| == 1 && IsUpper(r.value[0])
      case TwoDigits => |r.value| == 2 && AllDigits(r.value)
  {
    if !StartsAt(s, tag, p) then None
    else
      var k := p + |tag| + SpaceRun(s, p + |tag|);
      match shape
      case Letter => if k < |s| && IsUpper(s[k]) then Some([s[k]]) else None
      case TwoDigits => if k + 2 <= |s| && IsDigit(s[k]) && IsDigit(s[k + 1]) then Some(s[k..k + 2]) else None
  }

  /** The leftmost position at or after `p` where the code follows the tag. */
  function CodePos(s: string, tag: string, shape: CodeShape, p: nat): (k: Option<nat>)
    requires p <= |s|
    decreases |s| - p
    ensures k.Some? ==> p <= k.value <= |s| && CodeAt(s, tag, shape, k.value).Some?
  {
    if CodeAt(s, tag, shape, p).Some? then Some(p)
    else if p == |s| then None
    else CodePos(s, tag, shape, p + 1)
  }

  lemma {:induction false} CodePosLeftmost(s: string, tag: string, shape: CodeShape, p: nat, j: nat)
    requires p <= j <= |s|
    requires CodePos(s, tag, shape, p).None? || j < CodePos(s, tag, shape, p).value
    ensures CodeAt(s, tag, shape, j).None?
    decreases |s| - p
  {
    if p < j {
      CodePosLeftmost(s, tag, shape, p + 1, j);
    }
  }

  /** The code of the leftmost match, or `""` (the `else ""` of lines 55 and 58). */
  function FindCode(s: string, tag: string, shape: CodeShape): (r: string)
    ensures r == "" || match shape
      case Letter => |r| == 1 && IsUpper(r[0])
      case TwoDigits => |r| == 2 && AllDigits(r)
  {
    match CodePos(s, tag, shape, 0)
    case None => ""
    case Some(k) => CodeAt(s, tag, shape, k).value
  }

  /** The key: one capital letter, or empty. */
  function Clave(bloque: string): (r: string)
    ensures r == "" || (|r| == 1 && IsUpper(r[0]))
  {
    FindCode(bloque, "Clave:", Letter)
  }

  /** The sub-key: two digits, or empty. */
  function Subclave(bloque: string): (r: string)
    ensures r == "" || (|r| == 2 && AllDigits(r))
  {
    FindCode(bloque, "Subclave:", TwoDigits)
  }

  /**
    The code is empty exactly when the tag is nowhere followed (after optional whitespace) by a
    code of the right shape; otherwise it is the code at the leftmost such tag.
  */
  lemma FindCodeFound(s: string, tag: string, shape: CodeShape, j: nat)
    requires j <= |s|
    ensures FindCode(s, tag, shape) == "" <==> CodePos(s, tag, shape, 0).None?
    ensures FindCode(s, tag, shape) == "" ==> CodeAt(s, tag, shape, j).None?
    ensures FindCode(s, tag, shape) != "" ==>
              && CodeAt(s, tag, shape, CodePos(s, tag, shape, 0).value) == Some(FindCode(s, tag, shape))
              && (j < CodePos(s, tag, shape, 0).value ==> CodeAt(s, tag, shape, j).None?)
  {
    var cp := CodePos(s, tag, shape, 0);
    if cp.None? || j < cp.value {
      CodePosLeftmost(s, tag, shape, 0, j);
    }
  }

  // ---------------------------------------------------------------------------------------------
  // Records (lines 29-77)
  // ---------------------------------------------------------------------------------------------

  /** One row of `resultados`. */
  datatype Percepcion = Percepcion(
    archivo: string, nif: string, nombre: string, clave: string, subclave: string,
    dinerariasNoIl: real, especieNoIl: real, dinerariasIl: real, especieIl: real)

  /** The uploaded file (it has a `name`) or a path on disk, of which only the base name is kept (lines 32-35). */
  datatype Source = Upload(name: string) | OnDisk(path: string)

  function FileName(f: Source): string {
    match f
    case Upload(n) => n
    case OnDisk(p) => Basename(p)
  }

  const Integra: string := "Percepción íntegra"
  const Valoracion: string := "Valoración"

  /** One block (lines 47-76): no record without an identifier match. */
  function BlockRecord(archivo: string, bloque: string): Option<Percepcion> {
    match FindId(bloque)
    case None => None
    case Some((nif, grupo)) =>
      Some(Percepcion(archivo, nif, Strip(grupo), Clave(bloque), Subclave(bloque),
                      ExtraerPorInstancia(bloque, Integra, 1), ExtraerPorInstancia(bloque, Valoracion, 1),
                      ExtraerPorInstancia(bloque, Integra, 2), ExtraerPorInstancia(bloque, Valoracion, 2)))
  }

  /** An optional value as a sequence of zero or one elements. */
  function Emit<T>(o: Option<T>): (r: seq<T>)
    ensures |r| <= 1 && (r == [] <==> o.None?)
  {
    match o
    case None => []
    case Some(x) => [x]
  }

  /** The present values of `xs`, in order. */
  function Somes<T>(xs: seq<Option<T>>): (r: seq<T>)
    ensures |r| <= |xs|
  {
    if xs == [] then [] else Somes(xs[..|xs| - 1]) + Emit(xs[|xs| - 1])
  }

  lemma SomesAppend<T>(xs: seq<Option<T>>, x: Option<T>)
    ensures Somes(xs + [x]) == Somes(xs) + Emit(x)
  {
    assert (xs + [x])[..|xs|] == xs;
  }

  /** Every value kept comes from some position of `xs`. */
  lemma {:induction false} SomesFrom<T>(xs: seq<Option<T>>, i: nat)
    requires i < |Somes(xs)|
    ensures exists k :: 0 <= k < |xs| && xs[k] == Some(Somes(xs)[i])
  {
    var init := xs[..|xs| - 1];
    var last := xs[|xs| - 1];
    assert xs == init + [last];
    SomesAppend(init, last);
    if i < |Somes(init)| {
      SomesFrom(init, i);
      var k :| 0 <= k < |init| && init[k] == Some(Somes(init)[i]);
      assert xs[k] == init[k];
    } else {
      assert Somes(xs)[i] == last.value;
    }
  }

  /** Exactly the present values are kept: one per position holding a value. */
  lemma {:induction false} SomesCount<T>(xs: seq<Option<T>>)
    ensures |Somes(xs)| == |set k | 0 <= k < |xs| && xs[k].Some?|
  {
    if xs != [] {
      var init := xs[..|xs| - 1];
      var last := xs[|xs| - 1];
      assert xs == init + [last];
      SomesAppend(init, last);
      SomesCount(init);
      var before := set k | 0 <= k < |init| && init[k].Some?;
      var now := set k | 0 <= k < |xs| && xs[k].Some?;
      if last.Some? {
        assert now == before + {|init|};
        assert |init| !in before;
      } else {
        assert now == before;
      }
    }
  }

  /** The record, or its absence, of each block, in order. */
  function Rows(archivo: string, bs: seq<string>): (r: seq<Option<Percepcion>>)
    ensures |r| == |bs|
  {
    seq(|bs|, k requires 0 <= k < |bs| => BlockRecord(archivo, bs[k]))
  }

  /** The records of the blocks of one page: a page without text gives none, and the text before the first marker is dropped. */
  function PageRecords(archivo: string, texto: Option<string>): seq<Percepcion> {
    if texto.None? || texto.value == "" then []
    else Somes(Rows(archivo, SplitFrom(texto.value, 0)[1..]))
  }

  /** The sequences of `xss` one after another. */
  function Concat<T>(xss: seq<seq<T>>): seq<T> {
    if xss == [] then [] else Concat(xss[..|xss| - 1]) + xss[|xss| - 1]
  }

  lemma ConcatAppend<T>(xss: seq<seq<T>>, xs: seq<T>)
    ensures Concat(xss + [xs]) == Concat(xss) + xs
  {
    assert (xss + [xs])[..|xss|] == xss;
  }

  /** Every element of the concatenation comes from one of the sequences. */
  lemma {:induction false} ConcatFrom<T>(xss: seq<seq<T>>, i: nat)
    requires i < |Concat(xss)|
    ensures exists p, j :: 0 <= p < |xss| && 0 <= j < |xss[p]| && xss[p][j] == Concat(xss)[i]
  {
    var init := xss[..|xss| - 1];
    var last := xss[|xss| - 1];
    assert xss == init + [last];
    ConcatAppend(init, last);
    if i < |Concat(init)| {
      ConcatFrom(init, i);
      var p, j :| 0 <= p < |init| && 0 <= j < |init[p]| && init[p][j] == Concat(init)[i];
      assert xss[p] == init[p];
    } else {
      assert Concat(xss)[i] == last[i - |Concat(init)|];
    }
  }

  /** The records of each page, in order. */
  function PagesRecords(archivo: string, pages: seq<Option<string>>): (r: seq<seq<Percepcion>>)
    ensures |r| == |pages|
  {
    seq(|pages|, p requires 0 <= p < |pages| => PageRecords(archivo, pages[p]))
  }

  /** The records of a whole document: its pages' records one after another. */
  function AllRecords(archivo: string, pages: seq<Option<string>>): seq<Percepcion> {
    Concat(PagesRecords(archivo, pages))
  }

  /** What every record satisfies. */
  predicate RecordOk(archivo: string, r: Percepcion) {
    && r.archivo == archivo
    && 8 <= |r.nif| <= 9 && (forall i :: 0 <= i < |r.nif| ==> IdChar(r.nif[i]))
    && (r.clave == "" || (|r.clave| == 1 && IsUpper(r.clave[0])))
    && (r.subclave == "" || (|r.subclave| == 2 && AllDigits(r.subclave)))
    && r.dinerariasNoIl >= 0.0 && r.especieNoIl >= 0.0 && r.dinerariasIl >= 0.0 && r.especieIl >= 0.0
  }

  lemma BlockRecordOk(archivo: string, bloque: string)
    requires BlockRecord(archivo, bloque).Some?
    ensures RecordOk(archivo, BlockRecord(archivo, bloque).value)
  {
    ExtraerNonNegative(bloque, Integra, 1);
    ExtraerNonNegative(bloque, Valoracion, 1);
    ExtraerNonNegative(bloque, Integra, 2);
    ExtraerNonNegative(bloque, Valoracion, 2);
  }

  /** A block gives a record exactly when its identifier matches, so a page gives one record per such block. */
  lemma BlockRecordsCount(archivo: string, bs: seq<string>)
    ensures |Somes(Rows(archivo, bs))| == |set k | 0 <= k < |bs| && FindId(bs[k]).Some?|
  {
    var rs := Rows(archivo, bs);
    SomesCount(rs);
    assert (set k | 0 <= k < |rs| && rs[k].Some?) == (set k | 0 <= k < |bs| && FindId(bs[k]).Some?);
  }

  lemma BlockRecordsOk(archivo: string, bs: seq<string>, i: nat)
    requires i < |Somes(Rows(archivo, bs))|
    ensures RecordOk(archivo, Somes(Rows(archivo, bs))[i])
  {
    var rs := Rows(archivo, bs);
    SomesFrom(rs, i);
    var k :| 0 <= k < |rs| && rs[k] == Some(Somes(rs)[i]);
    BlockRecordOk(archivo, bs[k]);
  }

  /** Text without any `Percepción <n>` marker gives no record. */
  lemma NoMarkerNoRecords(archivo: string, texto: string)
    requires NextMarker(texto, 0).None?
    ensures PageRecords(archivo, Some(texto)) == []
  {
  }

  /** Every record read from a document is well formed and carries the document's name. */
  lemma AllRecordsOk(archivo: string, pages: seq<Option<string>>, i: nat)
    requires i < |AllRecords(archivo, pages)|
    ensures RecordOk(archivo, AllRecords(archivo, pages)[i])
  {
    var ps := PagesRecords(archivo, pages);
    ConcatFrom(ps, i);
    var p, j :| 0 <= p < |ps| && 0 <= j < |ps[p]| && ps[p][j] == Concat(ps)[i];
    var t := pages[p];
    BlockRecordsOk(archivo, SplitFrom(t.value, 0)[1..], j);
  }

  /** The inner loop of `extraer_datos_190`: the blocks after the first piece, one record per identifier match. */
  method ExtraerBloques(archivo: string, bloques: seq<string>) returns (registros: seq<Percepcion>)
    requires |bloques| >= 1
    ensures registros == Somes(Rows(archivo, bloques[1..]))
  {
    ghost var rows := Rows(archivo, bloques[1..]);
    registros := [];
    var b := 1;
    while b < |bloques|
      invariant 1 <= b <= |bloques|
      invariant registros == Somes(rows[..b - 1])
    {
      var r := BlockRecord(archivo, bloques[b]);
      TakeNext(rows, b - 1);
      assert rows[b - 1] == r;
      SomesAppend(rows[..b - 1], r);
      if r.Some? {
        registros := registros + [r.value];
      }
      b := b + 1;
    }
    assert rows[..b - 1] == rows;
  }

  /** One page of `extraer_datos_190`: nothing from a page without text, otherwise its blocks after the first piece. */
  method ExtraerPagina(archivo: string, texto: Option<string>) returns (registros: seq<Percepcion>)
    ensures registros == PageRecords(archivo, texto)
  {
    registros := [];
    if texto.Some? && texto.value != "" {
      var bloques := SplitFrom(texto.value, 0);
      registros := ExtraerBloques(archivo, bloques);
    }
  }

  /** `extraer_datos_190`: every page's blocks, in order, under the file's base name. */
  method ExtraerDatos190(fichero: Source, pages: seq<Option<string>>) returns (resultados: seq<Percepcion>)
    ensures resultados == AllRecords(FileName(fichero), pages)
  {
    var nombreArchivo := FileName(fichero);
    ghost var ps := PagesRecords(nombreArchivo, pages);
    resultados := [];
    var p := 0;
    while p < |pages|
      invariant p <= |pages|
      invariant resultados == Concat(ps[..p])
    {
      var registros := ExtraerPagina(nombreArchivo, pages[p]);
      TakeNext(ps, p);
      ConcatAppend(ps[..p], registros);
      resultados := resultados + registros;
      p := p + 1;
    }
    assert ps[..p] == ps;
  }
}
