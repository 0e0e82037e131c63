/**
 * The nom demo examples/separated.rs: `separated_list1(char(','), parse_number)`,
 * where `parse_number` is `map_res(digit1, str::parse::<i32>)`. A digit run too
 * large for `i32` makes `map_res` fail with a recoverable error; it does not panic.
 * `separated_list1` (nom 7.1) needs one element, then takes `,` element pairs while
 * both parse; a pair whose element fails is left unconsumed.
 */
module Separated {
  import opened Text

  /** The values `parse_number` can produce. */
  type Natural32 = x: int | 0 <= x <= MaxI32

  /** `parse_number`: a non-empty digit run whose value fits in `i32`. */
  function ParseNumber(input: string, pos: nat): (r: PResult<Int32>)
    requires pos <= |input|
    ensures Advances(r, input, pos)
    ensures !r.Cut?
    ensures r.Done? <==>
      pos < |input| && IsDigit(input[pos]) && DigitsValue(input, pos, pos + Span(Digit, input, pos)) <= MaxI32
    ensures r.Done? ==> r.pos == pos + Span(Digit, input, pos) && r.value == DigitsValue(input, pos, r.pos)
  {
    var n := Span(Digit, input, pos);
    if n == 0 then Fail
    else
      var v := DigitsValue(input, pos, pos + n);
      if v <= MaxI32 then Done(v, pos + n) else Fail
  }

  /** The loop of `separated_list1` after the first element, the elements so far in `acc`. */
  function ParseMore(input: string, pos: nat, acc: seq<Int32>): (r: PResult<seq<Int32>>)
    requires pos <= |input|
    decreases |input| - pos
    ensures r.Done? && pos <= r.pos <= |input|
    ensures |r.value| >= |acc| && r.value[..|acc|] == acc
  {
    if pos == |input| || input[pos] != ',' then Done(acc, pos)
    else
      match ParseNumber(input, pos + 1)
      case Done(n, q) =>
        var r := ParseMore(input, q, acc + [n]);
        assert r.value[..|acc|] == (acc + [n])[..|acc|];
        r
      case _ => Done(acc, pos)
  }

  /** `parse_comma_separated_numbers`: at least one number, then `,` number pairs. */
  function ParseNumbers(input: string, pos: nat): (r: PResult<seq<Int32>>)
    requires pos <= |input|
    ensures Advances(r, input, pos)
    ensures !r.Cut?
    ensures r.Done? <==> ParseNumber(input, pos).Done?
    ensures r.Done? ==> |r.value| >= 1 && r.value[0] == ParseNumber(input, pos).value
  {
    match ParseNumber(input, pos)
    case Done(n, q) => ParseMore(input, q, [n])
    case _ => Fail
  }

  // ---------------------------------------------------------------- the printed form

  function DigitChar(d: nat): (c: char)
    requires d < 10
    ensures IsDigit(c) && DigitValue(c) == d
  {
    ('0' as int + d) as char
  }

  /** The decimal digits of `n`, without leading zeros. */
  function Decimal(n: nat): (s: string)
    ensures |s| > 0 && AllIn(Digit, s)
    decreases n
  {
    if n < 10 then [DigitChar(n)] else Decimal(n / 10) + [DigitChar(n % 10)]
  }

  /** The numbers written out with `,` between them: the language the parser reads. */
  function Join(xs: seq<nat>): (s: string)
    requires |xs| > 0
  {
    if |xs| == 1 then Decimal(xs[0]) else Decimal(xs[0]) + "," + Join(xs[1..])
  }

  /** `DigitsValue` reads a digit run the same wherever it sits. */
  lemma {:induction false} DigitsValueOfSlice(input: string, pos: nat, end: nat)
    requires pos <= end <= |input|
    requires forall i :: pos <= i < end ==> IsDigit(input[i])
    ensures DigitsValue(input, pos, end) == DigitsValue(input[pos..end], 0, end - pos)
    decreases end - pos
  {
    if end > pos {
      DigitsValueOfSlice(input, pos, end - 1);
      var t := input[pos..end];
      assert input[pos..end - 1] == t[..end - 1 - pos];
      DigitsValueOfPrefix(t, end - 1 - pos);
    }
  }

  /** Dropping characters after `end` does not change the value of the run before it. */
  lemma {:induction false} DigitsValueOfPrefix(s: string, end: nat)
    requires end <= |s|
    requires forall i :: 0 <= i < end ==> IsDigit(s[i])
    ensures DigitsValue(s, 0, end) == DigitsValue(s[..end], 0, end)
    decreases end
  {
    if end > 0 {
      DigitsValueOfPrefix(s, end - 1);
      assert s[..end][..end - 1] == s[..end - 1];
      DigitsValueOfPrefix(s[..end], end - 1);
    }
  }

  /** Reading back what `Decimal` writes gives the number. */
  lemma {:induction false} DecimalValue(n: nat)
    ensures DigitsValue(Decimal(n), 0, |Decimal(n)|) == n
    decreases n
  {
    if n >= 10 {
      var s := Decimal(n);
      var h := Decimal(n / 10);
      DecimalValue(n / 10);
      assert s[..|h|] == h;
      DigitsValueOfPrefix(s, |h|);
    }
  }

  /** A number written at `pos` and not followed by a digit is read back. */
  lemma NumberAt(input: string, pos: nat, x: Int32)
    requires x >= 0
    requires pos + |Decimal(x)| <= |input| && input[pos..pos + |Decimal(x)|] == Decimal(x)
    requires pos + |Decimal(x)| == |input| || !IsDigit(input[pos + |Decimal(x)|])
    ensures ParseNumber(input, pos) == Done(x, pos + |Decimal(x)|)
  {
    var d := Decimal(x);
    var end := pos + |d|;
    assert forall i :: pos <= i < end ==> input[i] == d[i - pos];
    SpanExact(Digit, input, pos, end);
    DigitsValueOfSlice(input, pos, end);
    DecimalValue(x);
  }

  /** `Join` starts with the first number, then either ends or goes on with `,` and
      the rest of the list. */
  lemma JoinParts(xs: seq<Natural32>)
    requires |xs| > 0
    ensures |Decimal(xs[0])| <= |Join(xs)| && Join(xs)[..|Decimal(xs[0])|] == Decimal(xs[0])
    ensures |xs| == 1 ==> Join(xs) == Decimal(xs[0])
    ensures |xs| > 1 ==> Join(xs) == Decimal(xs[0]) + "," + Join(xs[1..])
  {
  }

  /** Where a written-out list starts, its first number is read; then the text
      either ends or goes on with `,` and the rest of the list. */
  lemma FirstOfJoin(xs: seq<Natural32>, input: string, pos: nat)
    requires |xs| > 0
    requires pos <= |input| && input[pos..] == Join(xs)
    ensures ParseNumber(input, pos).Done? && ParseNumber(input, pos).value == xs[0]
    ensures |xs| == 1 ==> ParseNumber(input, pos).pos == |input|
    ensures |xs| > 1 ==>
      ParseNumber(input, pos).pos < |input| && input[ParseNumber(input, pos).pos] == ',' &&
      input[ParseNumber(input, pos).pos + 1..] == Join(xs[1..])
  {
    var d := Decimal(xs[0]);
    JoinParts(xs);
    assert input[pos..pos + |d|] == input[pos..][..|d|];
    if |xs| > 1 {
      assert input[pos + |d|] == input[pos..][|d|];
      assert input[pos + |d| + 1..] == input[pos..][|d| + 1..];
    }
    NumberAt(input, pos, xs[0]);
  }

  /** One `,` number pair of the loop, then whatever the rest of the loop gives. */
  lemma MoreStep(input: string, pos: nat, acc: seq<Int32>, result: seq<Int32>)
    requires pos < |input| && input[pos] == ','
    requires ParseNumber(input, pos + 1).Done?
    requires ParseMore(input, ParseNumber(input, pos + 1).pos, acc + [ParseNumber(input, pos + 1).value]) == Done(result, |input|)
    ensures ParseMore(input, pos, acc) == Done(result, |input|)
  {
  }

  lemma SplitFirst(acc: seq<Int32>, xs: seq<Natural32>)
    requires |xs| > 0
    ensures acc + [xs[0]] + xs[1..] == acc + xs
  {
    assert [xs[0]] + xs[1..] == xs;
  }

  /** The round trip: the parser reads back every non-empty list of `i32` values
      that are not negative, written out with `,`, and consumes all of it. */
  lemma {:induction false} JoinRoundTrip(xs: seq<Natural32>, input: string, pos: nat, acc: seq<Int32>)
    requires |xs| > 0
    requires pos <= |input| && input[pos..] == Join(xs)
    ensures ParseNumber(input, pos).Done? && ParseNumber(input, pos).value == xs[0]
    ensures ParseMore(input, ParseNumber(input, pos).pos, acc + [xs[0]]) == Done(acc + xs, |input|)
    decreases |xs|
  {
    FirstOfJoin(xs, input, pos);
    var end := ParseNumber(input, pos).pos;
    if |xs| == 1 {
      assert acc + [xs[0]] == acc + xs;
    } else {
      var ys := xs[1..];
      var a := acc + [xs[0]];
      SplitFirst(acc, xs);
      JoinRoundTrip(ys, input, end + 1, a);
      MoreStep(input, end, a, acc + xs);
    }
  }

  /** Parsing the written-out list gives the list back, with nothing left over. */
  lemma ParseJoin(xs: seq<Natural32>)
    requires |xs| > 0
    ensures ParseNumbers(Join(xs), 0) == Done(xs, |Join(xs)|)
  {
    assert Join(xs)[0..] == Join(xs);
    JoinRoundTrip(xs, Join(xs), 0, []);
    assert [] + [xs[0]] == [xs[0]] && [] + xs == xs;
  }

  // ---------------------------------------------------------------- examples

  /** At least one number is needed: the empty text is an error. */
  lemma EmptyIsAnError()
    ensures ParseNumbers("", 0) == Fail
  {
  }

  /** `main`'s input gives `[1, 2, 3, 4, 5]` with nothing left over. */
  lemma OneToFive(s: string)
    requires s == "1,2,3,4,5"
    ensures ParseNumbers(s, 0) == Done([1, 2, 3, 4, 5], 9)
  {
    assert Decimal(1) == "1" && Decimal(2) == "2" && Decimal(3) == "3" && Decimal(4) == "4" && Decimal(5) == "5";
    assert Join([1, 2, 3, 4, 5]) == s;
    ParseJoin([1, 2, 3, 4, 5]);
  }

  /** The separator is a bare `,`: after `1, 2` only the `1` is read. */
  lemma NoSpaceAfterComma(s: string)
    requires s == "1, 2"
    ensures ParseNumbers(s, 0) == Done([1], 1)
  {
    SpanExact(Digit, s, 0, 1);
    assert ParseNumber(s, 2) == Fail;
  }

  /** `2147483648` does not fit in `i32`: a recoverable error, not a panic. */
  lemma TooLargeFails(s: string)
    requires s == "2147483648"
    ensures ParseNumbers(s, 0) == Fail
  {
    SpanExact(Digit, s, 0, 10);
    assert DigitsValue(s, 0, 10) == 2147483648;
  }
}
