/**
 * Rows of the two CSV tables, as the CSV loader delivers them: each row maps a
 * column header to the cell's text. A `State` column names the US state and
 * one column per year holds the figure for that year.
 */
module Cells {
  import opened Wrappers

  type Row = map<string, string>

  /** The header of the column holding the state's name. */
  const StateColumn: string := "State"

  /** The `State` cell of a row; a row without that column reads as undefined. */
  function StateOf(row: Row): Option<string>
  {
    if StateColumn in row then Some(row[StateColumn]) else None
  }

  // ---------------------------------------------------------------------------
  // The year as a property key

  predicate IsDigit(c: char)
  {
    '0' <= c <= '9'
  }

  predicate AllDigits(s: string)
  {
    forall i :: 0 <= i < |s| ==> IsDigit(s[i])
  }

  function DigitChar(d: nat): char
    requires d < 10
  {
    ('0' as int + d) as char
  }

  /** The decimal digits of `n`, without leading zeros. */
  function NatDigits(n: nat): (s: string)
    ensures |s| > 0 && AllDigits(s)
    ensures s[0] == '0' ==> s == "0"
    decreases n
  {
    if n < 10 then [DigitChar(n)] else NatDigits(n / 10) + [DigitChar(n % 10)]
  }

  /**
   * The property name a year becomes when it is tested with `in` against a row:
   * JavaScript turns the number into its decimal string.
   */
  function YearKey(year: int): (key: string)
    ensures |key| > 0 && (key[0] == '-' <==> year < 0)
    ensures AllDigits(if year < 0 then key[1..] else key)
    ensures var digits := if year < 0 then key[1..] else key;
      |digits| > 0 && (digits[0] == '0' ==> digits == "0")
  {
    if year < 0 then "-" + NatDigits(-year) else NatDigits(year)
  }

  /** The row has a column for `year`. */
  predicate HasYear(row: Row, year: int)
  {
    YearKey(year) in row
  }

  // ---------------------------------------------------------------------------
  // Unary `+` on a cell's text

  /** A JavaScript number: not-a-number, or a finite value (held exactly). */
  datatype Number = NaN | Num(value: real)

  function DigitsValue(s: string): nat
    requires AllDigits(s)
    decreases |s|
  {
    if s == [] then 0 else DigitsValue(s[..|s| - 1]) * 10 + (s[|s| - 1] as int - '0' as int)
  }

  function FractionValue(s: string): real
    requires AllDigits(s)
    decreases |s|
  {
    if s == [] then 0.0 else ((s[0] as int - '0' as int) as real + FractionValue(s[1..])) / 10.0
  }

  /** The position of the first `c` in `s`, or `|s|` when there is none. */
  function IndexOf(s: string, c: char): (i: nat)
    ensures i <= |s|
    ensures i < |s| ==> s[i] == c
    ensures forall j :: 0 <= j < i ==> s[j] != c
    decreases |s|
  {
    if s == [] || s[0] == c then 0 else 1 + IndexOf(s[1..], c)
  }

  /** Digits, optionally with one decimal point, with at least one digit. */
  function UnsignedValue(s: string): Number
  {
    var dot := IndexOf(s, '.');
    var whole := s[..dot];
    var fraction := if dot < |s| then s[dot + 1..] else "";
    if AllDigits(whole) && AllDigits(fraction) && |whole| + |fraction| > 0
    then Num(DigitsValue(whole) as real + FractionValue(fraction))
    else NaN
  }

  /** The number `+s` gives for the text `s` of a cell. */
  function ToNum(s: string): Number
  {
    if s == "" then Num(0.0)
    else if s[0] == '-' then
      match UnsignedValue(s[1..])
      case Num(v) => Num(-v)
      case NaN => NaN
    else if s[0] == '+' then UnsignedValue(s[1..])
    else UnsignedValue(s)
  }

  // ---------------------------------------------------------------------------
  // Properties of the year key

  lemma {:induction false} NatDigitsReadBack(n: nat)
    ensures DigitsValue(NatDigits(n)) == n
    decreases n
  {
    var s := NatDigits(n);
    if n >= 10 {
      NatDigitsReadBack(n / 10);
      var init := NatDigits(n / 10);
      assert s == init + [DigitChar(n % 10)];
      assert s[..|s| - 1] == init;
    }
  }

  /** A plain run of digits reads as its decimal value. */
  lemma DigitsToNum(s: string)
    requires s != "" && AllDigits(s)
    ensures ToNum(s) == Num(DigitsValue(s) as real)
  {
    assert s[0] != '-' && s[0] != '+';
    assert IndexOf(s, '.') == |s|;
    assert s[..|s|] == s;
  }

  /** The key of a year, read as a number, is that year again. */
  lemma {:induction false} YearKeyReadsBack(year: int)
    ensures ToNum(YearKey(year)) == Num(year as real)
  {
    var n: nat := if year < 0 then -year else year;
    var digits := NatDigits(n);
    NatDigitsReadBack(n);
    DigitsToNum(digits);
    if year < 0 {
      assert IndexOf(digits, '.') == |digits| && digits[..|digits|] == digits;
      assert YearKey(year)[1..] == digits;
    }
  }

  /** Distinct years never test for the same column. */
  lemma YearKeyInjective(a: int, b: int)
    ensures YearKey(a) == YearKey(b) <==> a == b
  {
    YearKeyReadsBack(a);
    YearKeyReadsBack(b);
  }
}
