/** Decimal text of 64-bit unsigned numbers, as Rust's standard library prints and parses it. */
module Numerals {
  import opened Wrappers

  const U64_MAX: nat := 0xFFFF_FFFF_FFFF_FFFF

  type U64 = n: nat | n <= U64_MAX

  /** The number that a string of digits denotes; nothing if another character occurs. */
  function Digits(v: string): Option<nat> {
    if v == [] then Some(0)
    else
      var last := v[|v| - 1];
      var front := Digits(v[..|v| - 1]);
      if front.None? || last < '0' || last > '9' then None
      else Some(front.value * 10 + (last as int - '0' as int))
  }

  /** Parsing accepts a leading plus sign and rejects overflow. */
  function ParseU64(v: string): Option<U64> {
    var digits := if v != [] && v[0] == '+' then v[1..] else v;
    if digits == [] then None
    else
      var n := Digits(digits);
      if n.None? || n.value > U64_MAX then None else Some(n.value)
  }

  function ToString(n: nat): string {
    var last := [('0' as int + n % 10) as char];
    if n < 10 then last else ToString(n / 10) + last
  }

  lemma {:induction false} DigitsOfToString(n: nat)
    ensures Digits(ToString(n)) == Some(n)
    ensures ToString(n) != [] && ToString(n)[0] != '+'
  {
    var last := [('0' as int + n % 10) as char];
    if n < 10 {
      assert last[..0] == [];
    } else {
      DigitsOfToString(n / 10);
      var s := ToString(n / 10) + last;
      assert s[..|s| - 1] == ToString(n / 10);
    }
  }

  /** Parsing undoes printing. */
  lemma ToStringParses(n: U64)
    ensures ParseU64(ToString(n)) == Some(n)
  {
    DigitsOfToString(n);
  }

  /** A leading plus sign is accepted, once. */
  lemma PlusSignParses(n: U64)
    ensures ParseU64(['+'] + ToString(n)) == Some(n)
  {
    DigitsOfToString(n);
    assert (['+'] + ToString(n))[1..] == ToString(n);
  }

  lemma {:induction false} OnlyDigitsDenote(v: string, i: nat)
    requires i < |v| && !('0' <= v[i] <= '9')
    ensures Digits(v) == None
    decreases |v|
  {
    if i < |v| - 1 {
      OnlyDigitsDenote(v[..|v| - 1], i);
    }
  }

  /** Any other character, a lone plus sign and the empty string are rejected. */
  lemma NonNumeralsAreRejected(v: string, i: nat)
    requires v == [] || v == ['+'] || (i < |v| && !('0' <= v[i] <= '9') && (i > 0 || v[0] != '+'))
    ensures ParseU64(v) == None
  {
    if i < |v| && v != ['+'] {
      if v[0] == '+' {
        assert v[1..][i - 1] == v[i];
        OnlyDigitsDenote(v[1..], i - 1);
      } else {
        OnlyDigitsDenote(v, i);
      }
    }
  }
}
