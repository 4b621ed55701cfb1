/**
  Character and string primitives with the meaning Python gives them: `str.isspace`,
  `str.strip`, `str.split`, `str.replace`, `in`, `s[-n:]` and `os.path.basename`.
  Letters, digits and case are ASCII (the recognisers of the system only use ASCII ranges).
*/
module Text {
  import opened Wrappers

  /** Python's `str.isspace` (and regular-expression `\s`): every Unicode whitespace character. */
  predicate IsSpace(c: char) {
    ('\t' <= c <= '\r') || ('\U{1C}' <= c <= '\U{1F}') || c == ' ' || c == '\U{85}' || c == '\U{A0}'
    || c == '\U{1680}' || ('\U{2000}' <= c <= '\U{200A}') || c == '\U{2028}' || c == '\U{2029}'
    || c == '\U{202F}' || c == '\U{205F}' || c == '\U{3000}'
  }

  predicate IsDigit(c: char) { '0' <= c <= '9' }
  predicate IsUpper(c: char) { 'A' <= c <= 'Z' }
  predicate IsLower(c: char) { 'a' <= c <= 'z' }
  predicate IsAlnum(c: char) { IsDigit(c) || IsUpper(c) || IsLower(c) }

  predicate AllDigits(s: string) { forall i :: 0 <= i < |s| ==> IsDigit(s[i]) }

  function ToUpper(c: char): (r: char)
    ensures IsLower(c) ==> IsUpper(r)
    ensures !IsLower(c) ==> r == c
  {
    if IsLower(c) then (c as int - 32) as char else c
  }

  function Upper(s: string): (r: string)
    ensures |r| == |s|
    ensures forall i :: 0 <= i < |s| ==> r[i] == ToUpper(s[i])
  {
    if s == [] then [] else [ToUpper(s[0])] + Upper(s[1..])
  }

  /** Leading whitespace removed. */
  function LStrip(s: string): (r: string)
    ensures |r| <= |s|
  {
    if s != [] && IsSpace(s[0]) then LStrip(s[1..]) else s
  }

  /** What `LStrip` removes is a whitespace prefix, and what it keeps does not start with whitespace. */
  lemma {:induction false} LStripSpec(s: string)
    ensures LStrip(s) == s[|s| - |LStrip(s)|..]
    ensures LStrip(s) != [] ==> !IsSpace(LStrip(s)[0])
    ensures forall i :: 0 <= i < |s| - |LStrip(s)| ==> IsSpace(s[i])
    decreases |s|
  {
    if s != [] && IsSpace(s[0]) {
      LStripSpec(s[1..]);
    }
  }

  /** Trailing whitespace removed. */
  function RStrip(s: string): (r: string)
    ensures |r| <= |s|
  {
    if s != [] && IsSpace(s[|s| - 1]) then RStrip(s[..|s| - 1]) else s
  }

  /** What `RStrip` removes is a whitespace suffix, and what it keeps does not end with whitespace. */
  lemma {:induction false} RStripSpec(s: string)
    ensures RStrip(s) == s[..|RStrip(s)|]
    ensures RStrip(s) != [] ==> !IsSpace(RStrip(s)[|RStrip(s)| - 1])
    ensures forall i :: |RStrip(s)| <= i < |s| ==> IsSpace(s[i])
    decreases |s|
  {
    if s != [] && IsSpace(s[|s| - 1]) {
      RStripSpec(s[..|s| - 1]);
    }
  }

  /** Python's `str.strip()`. */
  function Strip(s: string): (r: string)
    ensures |r| <= |s|
  {
    RStrip(LStrip(s))
  }

  /** `sub` occurs in `s` at position `i`. */
  predicate StartsAt(s: string, sub: string, i: nat) {
    i + |sub| <= |s| && s[i..i + |sub|] == sub
  }

  /** The first position at or after `i` where `sub` occurs (Python's `str.find(sub, i)`). */
  function FindFrom(s: string, sub: string, i: nat): (r: Option<nat>)
    decreases |s| - i
    ensures r.Some? ==> i <= r.value && StartsAt(s, sub, r.value)
    ensures r.Some? ==> forall j :: i <= j < r.value ==> !StartsAt(s, sub, j)
    ensures r.None? ==> forall j :: i <= j <= |s| ==> !StartsAt(s, sub, j)
  {
    if i + |sub| > |s| then None
    else if s[i..i + |sub|] == sub then Some(i)
    else FindFrom(s, sub, i + 1)
  }

  /** A single character is found at its first occurrence. */
  lemma {:induction false} FindCharFirst(s: string, c: char, i: nat, k: nat)
    requires i <= k < |s| && s[k] == c
    requires forall j :: i <= j < k ==> s[j] != c
    ensures FindFrom(s, [c], i) == Some(k)
    decreases k - i
  {
    if i < k {
      assert s[i..i + 1] != [c] by { assert s[i..i + 1][0] == s[i]; }
      FindCharFirst(s, c, i + 1, k);
    } else {
      assert s[i..i + 1] == [c];
    }
  }

  /** Python's `sub in s`. */
  predicate Contains(s: string, sub: string) {
    FindFrom(s, sub, 0).Some?
  }

  /** Python's `s.split(sep)` for a non-empty separator: the pieces between occurrences. */
  function Split(s: string, sep: string): (r: seq<string>)
    requires |sep| > 0
    decreases |s|
    ensures |r| >= 1
  {
    match FindFrom(s, sep, 0)
    case None => [s]
    case Some(i) => [s[..i]] + Split(s[i + |sep|..], sep)
  }

  /** Number of consecutive whitespace characters starting at `i`. */
  function SpaceRun(s: string, i: nat): (n: nat)
    decreases |s| - i
    ensures i + n <= |s| || (i > |s| && n == 0)
    ensures forall j :: i <= j < i + n ==> IsSpace(s[j])
    ensures i + n < |s| ==> !IsSpace(s[i + n])
  {
    if i < |s| && IsSpace(s[i]) then 1 + SpaceRun(s, i + 1) else 0
  }

  /** Number of consecutive ASCII digits starting at `i`. */
  function DigitRun(s: string, i: nat): (n: nat)
    decreases |s| - i
    ensures i + n <= |s| || (i > |s| && n == 0)
    ensures forall j :: i <= j < i + n ==> IsDigit(s[j])
    ensures i + n < |s| ==> !IsDigit(s[i + n])
  {
    if i < |s| && IsDigit(s[i]) then 1 + DigitRun(s, i + 1) else 0
  }

  /** Python's `s.split()`: the maximal runs of non-whitespace characters. */
  function Words(s: string): (r: seq<string>)
    decreases |s|
  {
    if s == [] then []
    else if IsSpace(s[0]) then Words(s[1..])
    else
      var n := WordLength(s, 0);
      [s[..n]] + Words(s[n..])
  }

  /** Length of the run of non-whitespace characters starting at `i`. */
  function WordLength(s: string, i: nat): (n: nat)
    requires i <= |s|
    decreases |s| - i
    ensures i + n <= |s|
    ensures forall j :: i <= j < i + n ==> !IsSpace(s[j])
    ensures i < |s| && !IsSpace(s[i]) ==> n >= 1
  {
    if i < |s| && !IsSpace(s[i]) then 1 + WordLength(s, i + 1) else 0
  }

  /** Python's `s.replace(a, b)` for single characters. */
  function ReplaceChar(s: string, a: char, b: char): (r: string)
    ensures |r| == |s|
    ensures forall i :: 0 <= i < |s| ==> r[i] == (if s[i] == a then b else s[i])
  {
    if s == [] then [] else [if s[0] == a then b else s[0]] + ReplaceChar(s[1..], a, b)
  }

  /** Python's `s.replace(a, "")`. */
  function RemoveChar(s: string, a: char): (r: string)
    ensures |r| <= |s|
    ensures forall i :: 0 <= i < |r| ==> r[i] != a
  {
    if s == [] then [] else (if s[0] == a then [] else [s[0]]) + RemoveChar(s[1..], a)
  }

  /** Python's `s[-n:]`: the last `n` characters, or all of `s` when it is shorter. */
  function Last(s: string, n: nat): (r: string)
    ensures |r| == if |s| < n then |s| else n
    ensures r == s[|s| - |r|..]
  {
    if |s| < n then s else s[|s| - n..]
  }

  /** `os.path.basename` on a POSIX path: everything after the last `/`. */
  function Basename(path: string): (r: string)
    decreases |path|
    ensures |r| <= |path|
    ensures forall i :: 0 <= i < |r| ==> r[i] != '/'
    ensures r == path[|path| - |r|..]
  {
    if path == [] || path[|path| - 1] == '/' then []
    else
      var init := path[..|path| - 1];
      var b := Basename(init);
      SuffixSnoc(path, b);
      b + [path[|path| - 1]]
  }

  /** A suffix of all but the last character, extended by that character, is a suffix. */
  lemma SuffixSnoc(s: string, b: string)
    requires 0 < |s| && |b| < |s| && b == s[..|s| - 1][|s| - 1 - |b|..]
    ensures b + [s[|s| - 1]] == s[|s| - |b| - 1..]
  {
    var t := s[|s| - |b| - 1..];
    assert forall i :: 0 <= i < |b| ==> t[i] == b[i];
  }
}
