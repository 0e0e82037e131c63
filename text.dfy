/**
 * The nom primitives every parser of the project is built from, each specified
 * by the language it accepts on complete input (`nom::*::complete`):
 * `alpha1`, `digit1`, `space0`, `multispace0`, `tag`, `tag_no_case`, `char`,
 * `take_until`, `character::complete::i64` and `number::complete::double`.
 *
 * A parser is applied to `input[pos..]` (nom's `&str`) and reports the position
 * where the unconsumed rest starts, so the rest of a successful parse is
 * `input[r.pos..]`, a suffix of `input[pos..]` whenever `pos <= r.pos`.
 */
module Text {

  /** Outcome of a nom parser on complete input: success with the value and the
      position of the unconsumed rest; a recoverable error (nom's `Err::Error`),
      after which `alt` tries its next alternative and `opt`, `many0` and the
      separated lists stop; or an unrecoverable one (nom's `Err::Failure`, raised
      by `cut`), which every combinator passes straight up. */
  datatype PResult<+T> = Done(value: T, pos: nat) | Fail | Cut

  datatype Option<+T> = None | Some(value: T)

  predicate IsSuffix(rest: string, s: string) {
    |rest| <= |s| && rest == s[|s| - |rest|..]
  }

  /** A successful parse of `input[pos..]` leaves a suffix of it. */
  predicate Within<T>(r: PResult<T>, input: string, pos: nat) {
    r.Done? ==> pos <= r.pos <= |input|
  }

  /** A successful parse of `input[pos..]` consumes at least one character. */
  predicate Advances<T>(r: PResult<T>, input: string, pos: nat) {
    r.Done? ==> pos < r.pos <= |input|
  }

  /** What `Within` means for the text: the rest is a suffix of what was parsed. */
  lemma RestIsSuffix(input: string, pos: nat, end: nat)
    requires pos <= end <= |input|
    ensures IsSuffix(input[end..], input[pos..])
  {
  }

  /** The character classes of nom's `&str` predicates (all ASCII-only). */
  datatype CharClass = Alpha | Digit | Space | Multispace {
    predicate Has(c: char) {
      match this
      case Alpha => 'a' <= c <= 'z' || 'A' <= c <= 'Z'
      case Digit => '0' <= c <= '9'
      case Space => c == ' ' || c == '\t'
      case Multispace => c == ' ' || c == '\t' || c == '\r' || c == '\n'
    }
  }

  predicate IsAlpha(c: char) { Alpha.Has(c) }
  predicate IsDigit(c: char) { Digit.Has(c) }

  predicate AllIn(k: CharClass, s: string) {
    forall i :: 0 <= i < |s| ==> k.Has(s[i])
  }

  /** `input[from..to]` consists of characters of class `k`. */
  predicate RunOf(k: CharClass, input: string, from: nat, to: nat) {
    to <= |input| && forall i :: from <= i < to ==> k.Has(input[i])
  }

  /** Number of characters of class `k` starting at `pos`, as many as there are. */
  function Span(k: CharClass, input: string, pos: nat): (n: nat)
    requires pos <= |input|
    decreases |input| - pos
    ensures pos + n <= |input|
    ensures forall i :: pos <= i < pos + n ==> k.Has(input[i])
    ensures pos + n < |input| ==> !k.Has(input[pos + n])
  {
    if pos == |input| || !k.Has(input[pos]) then 0 else 1 + Span(k, input, pos + 1)
  }

  /** `Span` counts exactly the run of class `k` that ends at `end`. */
  lemma SpanExact(k: CharClass, input: string, pos: nat, end: nat)
    requires pos <= end <= |input|
    requires forall i :: pos <= i < end ==> k.Has(input[i])
    requires end == |input| || !k.Has(input[end])
    ensures Span(k, input, pos) == end - pos
    decreases end - pos
  {
    if pos < end {
      SpanExact(k, input, pos + 1, end);
    }
  }

  /** `alpha1` / `digit1`: one or more characters of the class, as many as there are. */
  function Take1(k: CharClass, input: string, pos: nat): (r: PResult<string>)
    requires pos <= |input|
    ensures Advances(r, input, pos)
    ensures !r.Cut?
    ensures r.Done? <==> pos < |input| && k.Has(input[pos])
    ensures r.Done? ==> r.value == input[pos..r.pos] && AllIn(k, r.value)
    ensures r.Done? && r.pos < |input| ==> !k.Has(input[r.pos])
  {
    var n := Span(k, input, pos);
    if n == 0 then Fail else Done(input[pos..pos + n], pos + n)
  }

  /** `space0` / `multispace0`: skip zero or more characters of the class; never fails. */
  function Skip0(k: CharClass, input: string, pos: nat): (end: nat)
    requires pos <= |input|
    ensures pos <= end <= |input|
    ensures forall i :: pos <= i < end ==> k.Has(input[i])
    ensures end < |input| ==> !k.Has(input[end])
  {
    pos + Span(k, input, pos)
  }

  /** `input[pos..]` starts with `t`. */
  predicate Matches(input: string, pos: nat, t: string) {
    pos + |t| <= |input| && forall i :: 0 <= i < |t| ==> input[pos + i] == t[i]
  }

  /** `tag(t)` (and `char(c)` as `tag([c])`). */
  function Tag(t: string, input: string, pos: nat): (r: PResult<string>)
    ensures !r.Cut?
    ensures r.Done? <==> Matches(input, pos, t)
    ensures r.Done? ==> r.value == t && r.pos == pos + |t|
  {
    if Matches(input, pos, t) then Done(t, pos + |t|) else Fail
  }

  function Lower(c: char): char {
    if 'A' <= c <= 'Z' then (c as int + 32) as char else c
  }

  predicate MatchesNoCase(input: string, pos: nat, t: string) {
    pos + |t| <= |input| && forall i :: 0 <= i < |t| ==> Lower(input[pos + i]) == t[i]
  }

  /** `tag_no_case(t)` for a lower-case ASCII `t`; the value is the matched slice of the input. */
  function TagNoCase(t: string, input: string, pos: nat): (r: PResult<string>)
    ensures !r.Cut?
    ensures r.Done? <==> MatchesNoCase(input, pos, t)
    ensures r.Done? ==> r.value == input[pos..pos + |t|] && r.pos == pos + |t|
  {
    if MatchesNoCase(input, pos, t) then Done(input[pos..pos + |t|], pos + |t|) else Fail
  }

  /** Position of the first `c` at or after `pos`, if any. */
  function Find(c: char, input: string, pos: nat): (r: Option<nat>)
    requires pos <= |input|
    decreases |input| - pos
    ensures r.Some? ==> pos <= r.value < |input| && input[r.value] == c
    ensures r.Some? ==> forall i :: pos <= i < r.value ==> input[i] != c
    ensures r.None? ==> forall i :: pos <= i < |input| ==> input[i] != c
  {
    if pos == |input| then None
    else if input[pos] == c then Some(pos)
    else Find(c, input, pos + 1)
  }

  /** `take_until(t)` for a one-character `t`: everything before the next `t`, which
      is not consumed; a recoverable error when there is none. */
  function TakeUntil(c: char, input: string, pos: nat): (r: PResult<string>)
    requires pos <= |input|
    ensures !r.Cut?
    ensures r.Done? <==> exists i :: pos <= i < |input| && input[i] == c
    ensures r.Done? ==> pos <= r.pos < |input| && input[r.pos] == c
    ensures r.Done? ==> r.value == input[pos..r.pos] && c !in r.value
  {
    match Find(c, input, pos)
    case None => Fail
    case Some(i) => Done(input[pos..i], i)
  }

  /** The double-quote character that delimits string literals. */
  const Quote: char := 34 as char

  const MinI64: int := -0x8000_0000_0000_0000
  const MaxI64: int := 0x7fff_ffff_ffff_ffff
  const MinI32: int := -0x8000_0000
  const MaxI32: int := 0x7fff_ffff

  type Int64 = i: int | MinI64 <= i <= MaxI64
  type Int32 = i: int | MinI32 <= i <= MaxI32

  function DigitValue(c: char): nat
    requires IsDigit(c)
  {
    c as int - '0' as int
  }

  /** The decimal value of the digits `input[pos..end]`. */
  function DigitsValue(input: string, pos: nat, end: nat): nat
    requires pos <= end <= |input|
    requires forall i :: pos <= i < end ==> IsDigit(input[i])
    decreases end - pos
  {
    if end == pos then 0 else DigitsValue(input, pos, end - 1) * 10 + DigitValue(input[end - 1])
  }

  /** nom's `sign`: an optional `+` or `-`; whether the number is non-negative, and where it goes on. */
  function Sign(input: string, pos: nat): (r: (bool, nat))
    requires pos <= |input|
    ensures pos <= r.1 <= pos + 1 && r.1 <= |input|
    ensures !r.0 ==> r.1 == pos + 1 && input[pos] == '-'
  {
    if pos < |input| && input[pos] == '-' then (false, pos + 1)
    else if pos < |input| && input[pos] == '+' then (true, pos + 1)
    else (true, pos)
  }

  /** `character::complete::i64`: optional sign, then digits; a value outside the
      64-bit range is a recoverable error (nom accumulates with `checked_*`). */
  function I64(input: string, pos: nat): (r: PResult<Int64>)
    requires pos <= |input|
    ensures Advances(r, input, pos)
    ensures !r.Cut?
  {
    var (nonNegative, start) := Sign(input, pos);
    var n := Span(Digit, input, start);
    if n == 0 then Fail
    else
      var magnitude: int := DigitsValue(input, start, start + n);
      var v := if nonNegative then magnitude else -magnitude;
      if MinI64 <= v <= MaxI64 then Done(v, start + n) else Fail
  }

  /** End of the mantissa of nom's `recognize_float` starting at `p`:
      `digit1 ('.' digit*)?` or `'.' digit1`. */
  function MantissaEnd(input: string, p: nat): (r: Option<nat>)
    requires p <= |input|
    ensures r.Some? ==> p < r.value <= |input|
  {
    if p < |input| && IsDigit(input[p]) then
      var q := p + Span(Digit, input, p);
      if q < |input| && input[q] == '.' then Some(q + 1 + Span(Digit, input, q + 1)) else Some(q)
    else if p + 1 < |input| && input[p] == '.' && IsDigit(input[p + 1]) then
      Some(p + 1 + Span(Digit, input, p + 1))
    else None
  }

  /** nom's `recognize_float`: sign? mantissa (('e'|'E') sign? cut(digit1))?.
      An exponent marker not followed by digits is a `cut`: unrecoverable. */
  function RecognizeFloat(input: string, pos: nat): (r: PResult<string>)
    requires pos <= |input|
    ensures Advances(r, input, pos)
    ensures r.Done? ==> r.value == input[pos..r.pos]
  {
    match MantissaEnd(input, Sign(input, pos).1)
    case None => Fail
    case Some(q) =>
      if q < |input| && (input[q] == 'e' || input[q] == 'E') then
        var e := Sign(input, q + 1).1;
        var d := Span(Digit, input, e);
        if d == 0 then Cut else Done(input[pos..e + d], e + d)
      else Done(input[pos..q], q)
  }

  /** `number::complete::double` (nom 7.1): `recognize_float`, else the case-insensitive
      words `nan`, `inf`, `infinity` (tried in that order, so `infinity` stops after `inf`).
      The recognised text is returned; Rust's `str::parse::<f64>` accepts every such text. */
  function RecognizeDouble(input: string, pos: nat): (r: PResult<string>)
    requires pos <= |input|
    ensures Advances(r, input, pos)
    ensures r.Done? ==> r.value == input[pos..r.pos]
  {
    match RecognizeFloat(input, pos)
    case Done(t, end) => Done(t, end)
    case Cut => Cut
    case Fail =>
      if TagNoCase("nan", input, pos).Done? then TagNoCase("nan", input, pos)
      else if TagNoCase("inf", input, pos).Done? then TagNoCase("inf", input, pos)
      else TagNoCase("infinity", input, pos)
  }

  /** Whatever `i64` accepts, `double` accepts too (or rejects unrecoverably). */
  lemma I64ShadowedByDouble(input: string, pos: nat)
    requires pos <= |input|
    requires I64(input, pos).Done?
    ensures !RecognizeDouble(input, pos).Fail?
  {
    var start := Sign(input, pos).1;
    assert Span(Digit, input, start) > 0;
    assert MantissaEnd(input, start).Some?;
  }
}
