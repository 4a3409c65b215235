/**
 * Arithmetic on `"yyyy-MM"` month keys: parsing and formatting a
 * `YearMonth`, `addMonths`, `monthSequence` and `monthWindow`. A month is
 * represented by its index `year * 12 + (month - 1)`.
 */
module TimeUtils {
  import opened Wrappers
  import opened Text

  const MIN_YEAR: int := 1
  const MAX_YEAR: int := 9999

  /** Month indices whose year prints as four digits. */
  predicate InRange(m: int) {
    MIN_YEAR * 12 <= m < (MAX_YEAR + 1) * 12
  }

  function Fixed2(n: int): (s: string)
    requires 0 <= n < 100
    ensures |s| == 2 && AllDigits(s)
  {
    [DigitChar(n / 10), DigitChar(n % 10)]
  }

  function Fixed4(n: int): (s: string)
    requires 0 <= n < 10000
    ensures |s| == 4 && AllDigits(s)
  {
    [DigitChar(n / 1000), DigitChar(n / 100 % 10), DigitChar(n / 10 % 10), DigitChar(n % 10)]
  }

  /** `YearMonth.parse(key, "yyyy-MM")`; `None` where Java throws `DateTimeParseException`. */
  function ParseKey(k: string): (r: Option<int>)
    ensures r.Some? ==> InRange(r.value)
  {
    if |k| == 7 && AllDigits(k[..4]) && k[4] == '-' && AllDigits(k[5..]) then
      var year := DigitsValue(k[..4]);
      var month := DigitsValue(k[5..]);
      DigitsFixed4(k[..4]);
      if year >= MIN_YEAR && 1 <= month <= 12 then Some(year * 12 + month - 1) else None
    else
      None
  }

  /** Formats a month index as `"yyyy-MM"`. */
  function FormatKey(m: int): (k: string)
    requires InRange(m)
    ensures |k| == 7
  {
    Fixed4(m / 12) + "-" + Fixed2(m % 12 + 1)
  }

  lemma Fixed2Value(n: int)
    requires 0 <= n < 100
    ensures DigitsValue(Fixed2(n)) == n
  {
    DigitsOf2(Fixed2(n));
  }

  lemma Fixed4Value(n: int)
    requires 0 <= n < 10000
    ensures DigitsValue(Fixed4(n)) == n
  {
    DigitsOf4(Fixed4(n));
    var q1 := n / 10;
    var q2 := q1 / 10;
    assert n == q1 * 10 + n % 10;
    assert q1 == q2 * 10 + q1 % 10;
    assert q2 == q2 / 10 * 10 + q2 % 10;
    assert n / 100 == q2;
    assert n / 1000 == q2 / 10;
  }

  lemma DigitsOf2(s: string)
    requires |s| == 2 && AllDigits(s)
    ensures DigitsValue(s) == DigitValue(s[0]) * 10 + DigitValue(s[1])
  {
    assert DigitsValue(s[..1]) == DigitValue(s[0]) by { assert s[..1][..0] == []; }
    assert s[..|s| - 1] == s[..1];
  }

  lemma DigitsOf4(s: string)
    requires |s| == 4 && AllDigits(s)
    ensures DigitsValue(s) == DigitValue(s[0]) * 1000 + DigitValue(s[1]) * 100 + DigitValue(s[2]) * 10 + DigitValue(s[3])
  {
    assert DigitsValue(s[..1]) == DigitValue(s[0]) by { assert s[..1][..0] == []; }
    assert DigitsValue(s[..2]) == DigitValue(s[0]) * 10 + DigitValue(s[1]) by { assert s[..2][..1] == s[..1]; }
    assert DigitsValue(s[..3]) == DigitValue(s[0]) * 100 + DigitValue(s[1]) * 10 + DigitValue(s[2]) by {
      assert s[..3][..2] == s[..2];
    }
    assert s[..|s| - 1] == s[..3];
  }

  lemma DigitsFixed2(s: string)
    requires |s| == 2 && AllDigits(s)
    ensures DigitsValue(s) < 100 && Fixed2(DigitsValue(s)) == s
  {
    DigitsOf2(s);
  }

  lemma DigitsFixed4(s: string)
    requires |s| == 4 && AllDigits(s)
    ensures DigitsValue(s) < 10000 && Fixed4(DigitsValue(s)) == s
  {
    DigitsOf4(s);
    var a, b, c, d := DigitValue(s[0]), DigitValue(s[1]), DigitValue(s[2]), DigitValue(s[3]);
    var v := DigitsValue(s);
    var q1 := a * 100 + b * 10 + c;
    var q2 := a * 10 + b;
    assert v == q1 * 10 + d;
    assert v / 10 == q1 && v % 10 == d;
    assert q1 == q2 * 10 + c;
    assert q1 / 10 == q2 && q1 % 10 == c;
    assert q2 / 10 == a && q2 % 10 == b;
    assert v / 100 == q2 && v / 1000 == a;
    assert Fixed4(v) == [DigitChar(a), DigitChar(b), DigitChar(c), DigitChar(d)];
  }

  /** Formatting then parsing a month gives the month back. */
  lemma {:induction false} ParseFormat(m: int)
    requires InRange(m)
    ensures ParseKey(FormatKey(m)) == Some(m)
  {
    var k := FormatKey(m);
    assert k[..4] == Fixed4(m / 12);
    assert k[5..] == Fixed2(m % 12 + 1);
    Fixed4Value(m / 12);
    Fixed2Value(m % 12 + 1);
  }

  /** A key that parses is exactly the text its month formats to. */
  lemma {:induction false} FormatParse(k: string)
    requires ParseKey(k).Some?
    ensures FormatKey(ParseKey(k).value) == k
  {
    var year := DigitsValue(k[..4]);
    var month := DigitsValue(k[5..]);
    DigitsFixed4(k[..4]);
    DigitsFixed2(k[5..]);
    var m := year * 12 + month - 1;
    assert m / 12 == year && m % 12 + 1 == month;
    assert k == k[..4] + "-" + k[5..];
  }

  /**
   * `addMonths(key, offset)`: defined exactly for a valid key whose result
   * stays within the four-digit years (`None` where Java throws or leaves
   * them), and then the key `offset` months later.
   */
  function AddMonths(k: string, offset: int): (r: Option<string>)
    ensures r.Some? <==> ParseKey(k).Some? && InRange(ParseKey(k).value + offset)
    ensures r.Some? ==> ParseKey(r.value) == Some(ParseKey(k).value + offset)
  {
    match ParseKey(k)
    case None => None
    case Some(m) =>
      if InRange(m + offset) then
        ParseFormat(m + offset);
        Some(FormatKey(m + offset))
      else None
  }

  /** Adding no months returns a valid key unchanged. */
  lemma AddMonthsZero(k: string)
    requires ParseKey(k).Some?
    ensures AddMonths(k, 0) == Some(k)
  {
    FormatParse(k);
  }

  /** Adding `a` then `b` months is adding `a + b` months. */
  lemma AddMonthsAdd(k: string, a: int, b: int)
    requires AddMonths(k, a).Some?
    ensures AddMonths(AddMonths(k, a).value, b) == AddMonths(k, a + b)
  {
    var m := ParseKey(k).value;
    assert ParseKey(AddMonths(k, a).value) == Some(m + a);
  }

  /** Entry `i` of a month sequence. */
  function SequenceEntry(start: string, step: int, i: int): Option<string> {
    AddMonths(start, i * step)
  }

  /** `monthSequence(start, count, step)`: `count` keys, `step` months apart. */
  function MonthSequence(start: string, count: int, step: int): (r: Option<seq<string>>)
    requires count >= 0
    ensures r.Some? ==> |r.value| == count
    ensures r.Some? <==> forall i :: 0 <= i < count ==> SequenceEntry(start, step, i).Some?
  {
    if forall i :: 0 <= i < count ==> SequenceEntry(start, step, i).Some? then
      Some(seq(count, i requires 0 <= i < count => SequenceEntry(start, step, i).value))
    else
      None
  }

  /** Entry `i` is `start` plus `i * step` months, so neighbours are `step` months apart. */
  lemma MonthSequenceEntries(start: string, count: int, step: int)
    requires count >= 0
    requires MonthSequence(start, count, step).Some?
    ensures forall i :: 0 <= i < count ==>
      AddMonths(start, i * step) == Some(MonthSequence(start, count, step).value[i])
    ensures forall i :: 0 <= i < count - 1 ==>
      AddMonths(MonthSequence(start, count, step).value[i], step) == Some(MonthSequence(start, count, step).value[i + 1])
  {
    var r := MonthSequence(start, count, step).value;
    forall i | 0 <= i < count - 1
      ensures AddMonths(r[i], step) == Some(r[i + 1])
    {
      assert r[i] == SequenceEntry(start, step, i).value && r[i + 1] == SequenceEntry(start, step, i + 1).value;
      SequenceNeighbours(start, step, i);
    }
  }

  lemma SequenceNeighbours(start: string, step: int, i: int)
    requires SequenceEntry(start, step, i).Some?
    ensures AddMonths(SequenceEntry(start, step, i).value, step) == SequenceEntry(start, step, i + 1)
  {
    AddMonthsAdd(start, i * step, step);
    assert i * step + step == (i + 1) * step;
  }

  /** `monthWindow(center, past, future)`: the `past` months before `center`, `center`, then `future` months after. */
  function MonthWindow(center: string, past: int, future: int): (r: Option<seq<string>>)
    requires past >= 0 && future >= 0
    ensures r.Some? ==> |r.value| == past + future + 1
    ensures r.Some? <==> ParseKey(center).Some? && InRange(ParseKey(center).value - past)
                                                 && InRange(ParseKey(center).value + future)
  {
    match ParseKey(center)
    case None => None
    case Some(c) =>
      if InRange(c - past) && InRange(c + future) then
        Some(seq(past + future + 1, i requires 0 <= i < past + future + 1 => FormatKey(c + i - past)))
      else
        None
  }

  /** The window is centred on `center`, entry `i` is `center` plus `i - past` months, and it ascends month by month. */
  lemma MonthWindowEntries(center: string, past: int, future: int)
    requires past >= 0 && future >= 0
    requires MonthWindow(center, past, future).Some?
    ensures MonthWindow(center, past, future).value[past] == center
    ensures forall i :: 0 <= i < past + future + 1 ==>
      AddMonths(center, i - past) == Some(MonthWindow(center, past, future).value[i])
    ensures forall i :: 0 <= i < past + future + 1 ==>
      ParseKey(MonthWindow(center, past, future).value[i]) == Some(ParseKey(center).value + i - past)
  {
    FormatParse(center);
    forall i | 0 <= i < past + future + 1
      ensures AddMonths(center, i - past) == Some(MonthWindow(center, past, future).value[i])
      ensures ParseKey(MonthWindow(center, past, future).value[i]) == Some(ParseKey(center).value + i - past)
    {
      WindowAt(center, past, future, i);
    }
  }

  /** One entry of the window. */
  lemma WindowAt(center: string, past: int, future: int, i: int)
    requires past >= 0 && future >= 0
    requires MonthWindow(center, past, future).Some?
    requires 0 <= i < past + future + 1
    ensures AddMonths(center, i - past) == Some(MonthWindow(center, past, future).value[i])
    ensures ParseKey(MonthWindow(center, past, future).value[i]) == Some(ParseKey(center).value + i - past)
  {
    var c := ParseKey(center).value;
    assert MonthWindow(center, past, future).value[i] == FormatKey(c + (i - past));
    WindowEntry(center, c, i - past);
  }

  lemma WindowEntry(center: string, c: int, offset: int)
    requires ParseKey(center) == Some(c) && InRange(c + offset)
    ensures AddMonths(center, offset) == Some(FormatKey(c + offset))
    ensures ParseKey(FormatKey(c + offset)) == Some(c + offset)
  {
    ParseFormat(c + offset);
  }
}
