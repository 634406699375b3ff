/** The identity token of a signal: `get_signature(obj, fp)` concatenates the
    decimal forms of the sender's address and of the sender method's address. */
module Token {
  import opened Types

  predicate IsDigit(c: char) {
    '0' <= c <= '9'
  }

  predicate AllDigits(s: string) {
    forall i :: 0 <= i < |s| ==> IsDigit(s[i])
  }

  /** A decimal numeral as `std::to_string` prints an unsigned value: at least
      one digit and no leading zero unless the value is zero. */
  predicate Canonical(s: string) {
    |s| >= 1 && AllDigits(s) && (s[0] == '0' ==> |s| == 1)
  }

  function DigitChar(d: nat): (c: char)
    requires d < 10
    ensures IsDigit(c)
  {
    ('0' as int + d) as char
  }

  function DigitValue(c: char): (d: nat)
    requires IsDigit(c)
    ensures d < 10
  {
    c as int - '0' as int
  }

  /** `std::to_string` of an unsigned integer. */
  function DecimalString(n: nat): (s: string)
    ensures Canonical(s)
    ensures s[|s| - 1] == DigitChar(n % 10)
    ensures n < 10 <==> |s| == 1
    decreases n
  {
    if n < 10 then [DigitChar(n)] else DecimalString(n / 10) + [DigitChar(n % 10)]
  }

  /** Reads a string of digits back as a number; the inverse of `DecimalString`. */
  function ParseDecimal(s: string): nat
    requires AllDigits(s)
    decreases |s|
  {
    if s == [] then 0 else 10 * ParseDecimal(s[..|s| - 1]) + DigitValue(s[|s| - 1])
  }

  /** Parsing what `DecimalString` printed gives the number back. */
  lemma {:induction false} ParseDecimalString(n: nat)
    ensures ParseDecimal(DecimalString(n)) == n
    decreases n
  {
    var s := DecimalString(n);
    if n >= 10 {
      ParseDecimalString(n / 10);
      assert s[..|s| - 1] == DecimalString(n / 10);
    }
  }

  /** A canonical numeral whose first digit is not zero has a value of at least
      one, and of at least ten once it has two digits or more. */
  lemma {:induction false} ParseDecimalLowerBound(s: string)
    requires Canonical(s) && s[0] != '0'
    ensures ParseDecimal(s) >= 1
    ensures |s| >= 2 ==> ParseDecimal(s) >= 10
    decreases |s|
  {
    if |s| >= 2 {
      ParseDecimalLowerBound(s[..|s| - 1]);
    }
  }

  /** Every canonical numeral is printed by `DecimalString` from its value, so
      `DecimalString` and `ParseDecimal` are inverse bijections between
      naturals and canonical numerals. */
  lemma {:induction false} DecimalStringParse(s: string)
    requires Canonical(s)
    ensures DecimalString(ParseDecimal(s)) == s
    decreases |s|
  {
    var n := ParseDecimal(s);
    var init := s[..|s| - 1];
    if |s| == 1 {
      assert init == [] && ParseDecimal(init) == 0;
      assert n == DigitValue(s[0]);
    } else {
      ParseDecimalLowerBound(s);
      assert n == 10 * ParseDecimal(init) + DigitValue(s[|s| - 1]);
      assert n / 10 == ParseDecimal(init);
      assert n % 10 == DigitValue(s[|s| - 1]);
      DecimalStringParse(init);
      assert s == init + [s[|s| - 1]];
    }
  }

  /** `get_signature(obj, fp)`: the decimal address of the sender followed,
      without a separator, by the decimal address of the sender method. The
      token is a string of digits ending in the last digit of the method
      address; cut where the object's numeral ends, both halves are canonical
      numerals and parse back into exactly the two addresses it was built
      from. */
  function Signature(obj: Addr, fp: Addr): (t: string)
    ensures AllDigits(t) && |t| >= 2
    ensures t[|t| - 1] == DigitChar(fp % 10)
    ensures var k := |DecimalString(obj)|;
            && k < |t|
            && Canonical(t[..k]) && Canonical(t[k..])
            && ParseDecimal(t[..k]) == obj
            && ParseDecimal(t[k..]) == fp
  {
    var o := DecimalString(obj);
    var f := DecimalString(fp);
    assert (o + f)[..|o|] == o;
    assert (o + f)[|o|..] == f;
    ParseDecimalString(obj);
    ParseDecimalString(fp);
    o + f
  }

  /** Only the split point is lost: two pairs whose object addresses print
      with the same number of digits have equal tokens only if the pairs are
      equal. */
  lemma SignatureInjectiveAtFixedWidth(o1: Addr, f1: Addr, o2: Addr, f2: Addr)
    requires |DecimalString(o1)| == |DecimalString(o2)|
    requires Signature(o1, f1) == Signature(o2, f2)
    ensures o1 == o2 && f1 == f2
  {
  }

  /** One sender emitting through two different methods uses two different
      tokens, whatever the addresses. */
  lemma SignatureDistinguishesMethods(obj: Addr, f1: Addr, f2: Addr)
    requires f1 != f2
    ensures Signature(obj, f1) != Signature(obj, f2)
  {
    if Signature(obj, f1) == Signature(obj, f2) {
      SignatureInjectiveAtFixedWidth(obj, f1, obj, f2);
    }
  }

  /** Without that width condition the token is not injective: the pairs
      (1, 23) and (12, 3) print the same token "123". */
  lemma SignatureCollision()
    ensures Signature(1, 23) == Signature(12, 3)
    ensures (1, 23) != (12, 3)
  {
    assert DecimalString(23) == DecimalString(2) + [DigitChar(3)];
    assert DecimalString(12) == DecimalString(1) + [DigitChar(2)];
  }
}
