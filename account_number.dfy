/**
 * util/account/AccountNumberGenerator.java: account numbers of the form
 * "1001-dddd-dddd", the eight digits drawn at random.  The random draws are
 * a parameter: a sequence of values of `nextInt(10)`.
 */
module AccountNumbers {

  /** A value of `random.nextInt(10)`. */
  type Digit = d: int | 0 <= d < 10

  const Prefix: string := "1001"
  const DigitsPerGroup: nat := 4

  function DigitChar(d: Digit): (c: char)
    ensures '0' <= c <= '9'
  {
    '0' + d as char
  }

  /** The decimal text of the draws, one character per draw. */
  function DigitText(draws: seq<Digit>): (s: string)
    ensures |s| == |draws|
    ensures forall k :: 0 <= k < |s| ==> s[k] == DigitChar(draws[k])
  {
    if draws == [] then "" else DigitText(draws[..|draws| - 1]) + [DigitChar(draws[|draws| - 1])]
  }

  predicate IsDigit(c: char)
  {
    '0' <= c <= '9'
  }

  /** `^\d{4}-\d{4}-\d{4}$`, the pattern the transfer requests demand of an account number. */
  predicate WellFormed(s: string)
  {
    |s| == 14 && s[4] == '-' && s[9] == '-'
    && forall k :: 0 <= k < 14 && k != 4 && k != 9 ==> IsDigit(s[k])
  }

  /** The number `generate` builds from eight draws. */
  function NumberOf(draws: seq<Digit>): string
    requires |draws| == 2 * DigitsPerGroup
  {
    Prefix + "-" + DigitText(draws[..DigitsPerGroup]) + "-" + DigitText(draws[DigitsPerGroup..])
  }

  /** Every generated number starts with "1001-" and matches the account-number pattern. */
  lemma NumberOfWellFormed(draws: seq<Digit>)
    requires |draws| == 2 * DigitsPerGroup
    ensures WellFormed(NumberOf(draws))
    ensures NumberOf(draws)[..5] == "1001-"
  {
    var s := NumberOf(draws);
    var p1 := DigitText(draws[..DigitsPerGroup]);
    var p2 := DigitText(draws[DigitsPerGroup..]);
    assert s == Prefix + "-" + p1 + "-" + p2;
    forall k | 0 <= k < 14 && k != 4 && k != 9
      ensures IsDigit(s[k])
    {
      if k < 4 {
        assert s[k] == Prefix[k];
      } else if k < 9 {
        assert s[k] == p1[k - 5];
      } else {
        assert s[k] == p2[k - 10];
      }
    }
  }

  /** Different draws give different numbers. */
  lemma NumberOfInjective(d1: seq<Digit>, d2: seq<Digit>)
    requires |d1| == |d2| == 2 * DigitsPerGroup
    requires NumberOf(d1) == NumberOf(d2)
    ensures d1 == d2
  {
    forall k | 0 <= k < |d1|
      ensures d1[k] == d2[k]
    {
      var i := if k < DigitsPerGroup then k + 5 else k + 6;
      if k < DigitsPerGroup {
        assert NumberOf(d1)[i] == DigitText(d1[..DigitsPerGroup])[k];
        assert NumberOf(d2)[i] == DigitText(d2[..DigitsPerGroup])[k];
      } else {
        assert NumberOf(d1)[i] == DigitText(d1[DigitsPerGroup..])[k - DigitsPerGroup];
        assert NumberOf(d2)[i] == DigitText(d2[DigitsPerGroup..])[k - DigitsPerGroup];
      }
    }
  }

  /** `generateRandomDigits(length)`: appends one drawn digit per position. */
  method GenerateRandomDigits(draws: seq<Digit>, length: nat) returns (s: string)
    requires |draws| >= length
    ensures s == DigitText(draws[..length])
  {
    s := "";
    for i := 0 to length
      invariant s == DigitText(draws[..i])
    {
      assert draws[..i + 1][..i] == draws[..i];
      s := s + [DigitChar(draws[i])];
    }
  }

  /** `generate`, drawing its eight digits from `draws`. */
  method Generate(draws: seq<Digit>) returns (accountNumber: string)
    requires |draws| == 2 * DigitsPerGroup
    ensures accountNumber == NumberOf(draws)
  {
    var part2 := GenerateRandomDigits(draws, DigitsPerGroup);
    var part3 := GenerateRandomDigits(draws[DigitsPerGroup..], DigitsPerGroup);
    assert draws[DigitsPerGroup..][..DigitsPerGroup] == draws[DigitsPerGroup..];
    accountNumber := Prefix + "-" + part2 + "-" + part3;
  }
}
