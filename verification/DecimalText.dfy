/** Numbers as text: what `str` prints for an integer and for an amount in hundredths, and the
    readers that take the text back. */
module DecimalText {
  import opened Wrappers

  function Digit(d: nat): char
    requires d < 10
  {
    '0' + d as char
  }

  predicate IsDigit(c: char) { '0' <= c <= '9' }

  function DigitValue(c: char): nat
    requires IsDigit(c)
  {
    (c - '0') as nat
  }

  predicate AllDigits(s: string) { forall i :: 0 <= i < |s| ==> IsDigit(s[i]) }

  function NatText(n: nat): (s: string)
    ensures 1 <= |s| && AllDigits(s)
    ensures |s| == 1 || s[0] != '0'
  {
    if n < 10 then [Digit(n)] else NatText(n / 10) + [Digit(n % 10)]
  }

  function ReadDigits(s: string): nat
    requires AllDigits(s)
  {
    if s == [] then 0 else 10 * ReadDigits(s[..|s| - 1]) + DigitValue(s[|s| - 1])
  }

  function ReadNat(s: string): Option<nat> {
    if s != [] && AllDigits(s) then Some(ReadDigits(s)) else None
  }

  lemma {:induction false} NatRoundTrip(n: nat)
    ensures ReadNat(NatText(n)) == Some(n)
  {
    if 10 <= n {
      NatRoundTrip(n / 10);
      var s := NatText(n);
      assert s[..|s| - 1] == NatText(n / 10);
    } else {
      var s := NatText(n);
      assert s[..|s| - 1] == [];
      assert ReadDigits(s[..|s| - 1]) == 0;
    }
  }

  function IntText(n: int): string {
    if n < 0 then "-" + NatText(-n) else NatText(n)
  }

  function ReadInt(s: string): Option<int> {
    if s != [] && s[0] == '-' then
      if ReadNat(s[1..]).None? then None else Some(0 - ReadNat(s[1..]).value)
    else
      if ReadNat(s).None? then None else Some(ReadNat(s).value)
  }

  lemma IntRoundTrip(n: int)
    ensures ReadInt(IntText(n)) == Some(n)
  {
    if n < 0 {
      NatRoundTrip(-n);
      assert IntText(n)[1..] == NatText(-n);
    } else {
      NatRoundTrip(n);
    }
  }

  // An integer is printed without colons, commas or braces: minus signs and digits only.
  lemma IntTextPlain(n: int)
    ensures forall i :: 0 <= i < |IntText(n)| ==> IsDigit(IntText(n)[i]) || IntText(n)[i] == '-'
    ensures IntText(n) != [] && (IntText(n)[0] == '-' <==> n < 0)
  {
  }

  function TwoDigits(n: nat): string
    requires n < 100
  {
    [Digit(n / 10), Digit(n % 10)]
  }

  function UnsignedText(n: nat): (s: string)
    ensures s != [] && s[0] != '-'
  {
    NatText(n / 100) + "." + TwoDigits(n % 100)
  }

  // An amount in hundredths, as a number with two decimals.
  function AmountText(hundredths: int): string {
    if hundredths < 0 then "-" + UnsignedText(-hundredths) else UnsignedText(hundredths)
  }

  function ReadUnsigned(s: string): Option<nat> {
    if 4 <= |s| && s[|s| - 3] == '.' && AllDigits(s[|s| - 2..]) then
      match ReadNat(s[..|s| - 3]) case None => None case Some(n) => Some(100 * n + ReadDigits(s[|s| - 2..]))
    else None
  }

  function ReadAmount(s: string): Option<int> {
    if s != [] && s[0] == '-' then
      if ReadUnsigned(s[1..]).None? then None else Some(0 - ReadUnsigned(s[1..]).value)
    else
      if ReadUnsigned(s).None? then None else Some(ReadUnsigned(s).value)
  }

  lemma TwoDigitsRoundTrip(n: nat)
    requires n < 100
    ensures AllDigits(TwoDigits(n)) && ReadDigits(TwoDigits(n)) == n
  {
    var d := TwoDigits(n);
    var first := d[..|d| - 1];
    assert first == [Digit(n / 10)] && first[..|first| - 1] == [];
    assert ReadDigits(first[..|first| - 1]) == 0;
    assert ReadDigits(first) == n / 10;
  }

  lemma UnsignedRoundTrip(n: nat)
    ensures ReadUnsigned(UnsignedText(n)) == Some(n)
  {
    NatRoundTrip(n / 100);
    TwoDigitsRoundTrip(n % 100);
    JoinedAmount(NatText(n / 100), TwoDigits(n % 100));
  }

  lemma JoinedAmount(whole: string, cents: string)
    requires |cents| == 2 && AllDigits(cents) && ReadNat(whole).Some?
    ensures ReadUnsigned(whole + "." + cents) == Some(100 * ReadNat(whole).value + ReadDigits(cents))
  {
    var s := whole + "." + cents;
    assert s[..|s| - 3] == whole && s[|s| - 2..] == cents;
  }

  lemma AmountRoundTrip(hundredths: int)
    ensures ReadAmount(AmountText(hundredths)) == Some(hundredths)
    ensures AmountText(hundredths)[0] == '-' <==> hundredths < 0
  {
    var n: nat := if hundredths < 0 then -hundredths else hundredths;
    UnsignedRoundTrip(n);
    assert ("-" + UnsignedText(n))[1..] == UnsignedText(n);
  }
}
