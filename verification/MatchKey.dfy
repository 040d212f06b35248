/** The age component of a match key: `…|a<digits>` at the very end. */
module MatchKey {
  import opened Facts

  predicate IsDigit(ch: char) { '0' <= ch <= '9' }

  function DigitValue(ch: char): nat
    requires IsDigit(ch)
  {
    ch as int - '0' as int
  }

  function Digit(n: nat): char
    requires n < 10
  {
    ('0' as int + n) as char
  }

  function Decimal(n: nat): string {
    if n < 10 then [Digit(n)] else Decimal(n / 10) + [Digit(n % 10)]
  }

  ghost predicate AllDigits(text: string) {
    forall i :: 0 <= i < |text| ==> IsDigit(text[i])
  }

  function Parse(digits: string): nat
    requires AllDigits(digits)
  {
    if digits == [] then 0 else Parse(digits[..|digits| - 1]) * 10 + DigitValue(digits[|digits| - 1])
  }

  /** The longest run of digits that ends the text. */
  function Tail(text: string): (digits: string)
    ensures |digits| <= |text| && text[|text| - |digits|..] == digits && AllDigits(digits)
    ensures |digits| < |text| ==> !IsDigit(text[|text| - |digits| - 1])
  {
    if text == [] || !IsDigit(text[|text| - 1]) then []
    else Tail(text[..|text| - 1]) + [text[|text| - 1]]
  }

  /** `KEY_AGE.test`: a non-empty digit run at the end, introduced by `|a`. */
  predicate HasAge(key: string) {
    var n := |Tail(key)|;
    0 < n && n + 2 <= |key| && key[|key| - n - 2..|key| - n] == "|a"
  }

  function Stem(key: string): string
    requires HasAge(key)
  {
    key[..|key| - |Tail(key)| - 2]
  }

  function KeyAge(key: string): Option<nat> {
    if HasAge(key) then Some(Parse(Tail(key))) else None
  }

  function Rekey(key: string, age: nat): string {
    if HasAge(key) then Stem(key) + "|a" + Decimal(age) else key
  }

  lemma {:induction false} DecimalRoundTrip(n: nat)
    ensures Decimal(n) != [] && AllDigits(Decimal(n)) && Parse(Decimal(n)) == n
  {
    if n < 10 {
      assert Decimal(n)[..0] == [];
    } else {
      DecimalRoundTrip(n / 10);
      assert Decimal(n)[..|Decimal(n)| - 1] == Decimal(n / 10);
    }
  }

  lemma SplitLast(stem: string, digits: string)
    requires digits != []
    ensures digits == digits[..|digits| - 1] + [digits[|digits| - 1]]
    ensures stem + digits == (stem + digits[..|digits| - 1]) + [digits[|digits| - 1]]
  {
  }

  lemma {:induction false} OneDigitMore(text: string, digit: char)
    requires IsDigit(digit)
    ensures Tail(text + [digit]) == Tail(text) + [digit]
  {
    assert (text + [digit])[..|text|] == text;
  }

  lemma {:induction false} TailOf(stem: string, digits: string)
    requires AllDigits(digits) && (stem == [] || !IsDigit(stem[|stem| - 1]))
    ensures Tail(stem + digits) == digits
  {
    if digits != [] {
      TailOf(stem, digits[..|digits| - 1]);
      SplitLast(stem, digits);
      OneDigitMore(stem + digits[..|digits| - 1], digits[|digits| - 1]);
    } else {
      assert stem + digits == stem;
    }
  }

  /** `|a` and at least one digit end the key. */
  ghost predicate EndsWithAge(key: string, stem: string, digits: string) {
    key == stem + "|a" + digits && digits != [] && AllDigits(digits)
  }

  lemma {:induction false} ReadsAsWritten(key: string, stem: string, digits: string)
    requires EndsWithAge(key, stem, digits)
    ensures HasAge(key) && Stem(key) == stem && Tail(key) == digits
  {
    TailOf(stem + "|a", digits);
    assert key == (stem + "|a") + digits;
    assert key[|key| - |digits| - 2..|key| - |digits|] == "|a";
  }

  lemma {:induction false} WrittenAsRead(key: string)
    requires HasAge(key)
    ensures EndsWithAge(key, Stem(key), Tail(key))
  {
    var n := |key| - |Tail(key)|;
    assert key == key[..n - 2] + key[n - 2..n] + key[n..];
  }

  /** A key carries an age exactly if it ends so; there is one way to read it, and the age is its digits' number. */
  lemma KeyForm(key: string)
    ensures HasAge(key) <==> exists stem, digits :: EndsWithAge(key, stem, digits)
    ensures forall stem, digits :: EndsWithAge(key, stem, digits) ==>
      Stem(key) == stem && KeyAge(key) == Some(Parse(digits))
  {
    forall stem, digits | EndsWithAge(key, stem, digits)
      ensures HasAge(key) && Stem(key) == stem && KeyAge(key) == Some(Parse(digits))
    {
      ReadsAsWritten(key, stem, digits);
    }
    if HasAge(key) {
      WrittenAsRead(key);
    }
  }

  /** Re-signing changes the age `KeyAge` reads back and nothing else. */
  lemma RekeySetsOnlyTheAge(key: string, age: nat)
    requires HasAge(key)
    ensures HasAge(Rekey(key, age)) && KeyAge(Rekey(key, age)) == Some(age) && Stem(Rekey(key, age)) == Stem(key)
  {
    DecimalRoundTrip(age);
    ReadsAsWritten(Rekey(key, age), Stem(key), Decimal(age));
  }

  /** Re-signed keys agree exactly when the rest of the key and the age do. */
  lemma RekeyIsInjective(left: string, right: string, a: nat, b: nat)
    requires HasAge(left) && HasAge(right)
    ensures Rekey(left, a) == Rekey(right, b) <==> Stem(left) == Stem(right) && a == b
  {
    RekeySetsOnlyTheAge(left, a);
    RekeySetsOnlyTheAge(right, b);
  }

  /** A key written the way the catalogue writes it: no leading zeros in the age. */
  predicate Canonical(key: string) {
    HasAge(key) && Rekey(key, Parse(Tail(key))) == key
  }
}
