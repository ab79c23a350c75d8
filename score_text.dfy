/**
 * The text of one score cell: how `Number(text) || 0` turns what the user
 * typed into the stored score (src/App.tsx:115), and how a stored score is
 * shown back in its input field (src/App.tsx:178).
 *
 * JavaScript numbers are IEEE-754 doubles; this model reads decimal integer
 * text only (an optional sign followed by at least one digit) and treats
 * everything else as "not a number".
 */
module ScoreText {
  import opened Wrappers

  predicate IsDigit(c: char) {
    '0' <= c <= '9'
  }

  predicate AllDigits(s: string) {
    forall i :: 0 <= i < |s| ==> IsDigit(s[i])
  }

  function DigitValue(c: char): (d: nat)
    requires IsDigit(c)
    ensures d < 10
  {
    c as int - '0' as int
  }

  function DigitChar(d: nat): (c: char)
    requires d < 10
    ensures IsDigit(c) && DigitValue(c) == d
  {
    ('0' as int + d) as char
  }

  /** The value of a run of decimal digits, read most significant first. */
  function DigitsValue(s: string): nat
    requires AllDigits(s)
  {
    if s == [] then 0 else DigitsValue(s[..|s| - 1]) * 10 + DigitValue(s[|s| - 1])
  }

  /** Decimal digits of `n`, without leading zeros. */
  function ShowNat(n: nat): (s: string)
    ensures |s| > 0 && AllDigits(s)
    ensures |s| > 1 ==> s[0] != '0'
  {
    if n < 10 then [DigitChar(n)] else ShowNat(n / 10) + [DigitChar(n % 10)]
  }

  /** `Number(text)` restricted to decimal integers: `None` stands for NaN. */
  function Parse(s: string): (r: Option<int>)
    ensures r.Some? ==> s != ""
    ensures r.Some? && r.value < 0 ==> s[0] == '-'
    ensures s != "" && AllDigits(s) ==> r == Some(DigitsValue(s))
  {
    if |s| > 0 && (s[0] == '-' || s[0] == '+') then
      var digits := s[1..];
      if |digits| > 0 && AllDigits(digits) then
        Some(if s[0] == '-' then -(DigitsValue(digits) as int) else DigitsValue(digits))
      else None
    else if |s| > 0 && AllDigits(s) then Some(DigitsValue(s))
    else None
  }

  /** `String(n)`: the text a stored score is displayed with. */
  function Show(n: int): (s: string)
    ensures Parse(s) == Some(n)
  {
    if n < 0 then
      ShowNatRoundTrip(-n);
      "-" + ShowNat(-n)
    else
      ShowNatRoundTrip(n);
      ShowNat(n)
  }

  /**
   * `Number(text) || 0`: `|| 0` turns both NaN and 0 into 0, so every other
   * number is kept. The result is always a number, never `undefined`.
   */
  function CellValue(text: string): (v: int)
    ensures Parse(text).Some? ==> v == Parse(text).value
    ensures Parse(text).None? ==> v == 0
  {
    Parse(text).GetOr(0)
  }

  /** The text an input cell shows: `score ?? ""`. */
  function CellText(cell: Option<int>): (s: string)
    ensures cell.None? <==> s == ""
  {
    match cell
    case Some(v) => Show(v)
    case None => ""
  }

  /** The texts of the walkthrough game read as the numbers they spell. */
  lemma ParseSamples()
    ensures Parse("10") == Some(10) && Parse("0") == Some(0)
    ensures Parse("-50") == Some(-50) && Parse("5") == Some(5)
  {
    assert "1"[..0] == "" && "5"[..0] == "" && "0"[..0] == "";
    assert "10"[..1] == "1" && "50"[..1] == "5";
    assert DigitsValue("1") == 1 && DigitsValue("5") == 5 && DigitsValue("0") == 0;
    assert DigitsValue("10") == 10 && DigitsValue("50") == 50;
    assert "-50"[1..] == "50";
  }

  lemma {:induction false} ShowNatRoundTrip(n: nat)
    ensures DigitsValue(ShowNat(n)) == n
  {
    if n >= 10 {
      var s := ShowNat(n);
      var prefix := ShowNat(n / 10);
      assert s[..|s| - 1] == prefix;
      ShowNatRoundTrip(n / 10);
    }
  }

  /** Retyping the text a cell shows stores the value it showed; an empty cell becomes 0. */
  lemma CellTextRoundTrip(cell: Option<int>)
    ensures CellValue(CellText(cell)) == cell.GetOr(0)
  {
  }
}
