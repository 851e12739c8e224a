/** Decimal numbers and separators as the wire formats use them. */
module Decimal {
  import opened Wrappers

  const U32_MAX: nat := 0xFFFF_FFFF

  function Digit(d: nat): (c: char)
    requires d < 10
    ensures '0' <= c <= '9' && (c - '0') as int == d
  {
    '0' + d as char
  }

  predicate IsDigit(c: char) {
    '0' <= c <= '9'
  }

  predicate AllDigits(s: string) {
    forall i | 0 <= i < |s| :: IsDigit(s[i])
  }

  /** `u32::to_string`. */
  function Digits(n: nat): (s: string)
    ensures s != [] && AllDigits(s)
  {
    if n < 10 then [Digit(n)] else Digits(n / 10) + [Digit(n % 10)]
  }

  function Value(s: string): nat
    requires AllDigits(s)
  {
    if s == [] then 0 else 10 * Value(s[..|s| - 1]) + (s[|s| - 1] - '0') as nat
  }

  /** `str::parse::<u32>`: digits after an optional plus sign, in range. */
  function ParseU32(s: string): Option<nat> {
    var digits := if s != [] && s[0] == '+' then s[1..] else s;
    if digits != [] && AllDigits(digits) && Value(digits) <= U32_MAX then Some(Value(digits)) else None
  }

  lemma {:induction false} ValueOfDigits(n: nat)
    ensures Value(Digits(n)) == n
  {
    if n >= 10 {
      ValueOfDigits(n / 10);
      assert Digits(n)[..|Digits(n)| - 1] == Digits(n / 10);
    }
  }

  lemma ParseDigits(n: nat)
    requires n <= U32_MAX
    ensures ParseU32(Digits(n)) == Some(n)
  {
    ValueOfDigits(n);
  }

  function Power10(k: nat): nat {
    if k == 0 then 1 else 10 * Power10(k - 1)
  }

  lemma {:induction false} DigitsShort(n: nat, k: nat)
    requires k > 0 && n < Power10(k)
    ensures |Digits(n)| <= k
  {
    if n >= 10 {
      DigitsShort(n / 10, k - 1);
    }
  }

  lemma U32Short(n: nat)
    requires n <= U32_MAX
    ensures 1 <= |Digits(n)| <= 10
  {
    assert Power10(5) == 100_000;
    assert Power10(10) == 10_000_000_000;
    DigitsShort(n, 10);
  }

  /** The pieces between separators; one empty piece for the empty string. */
  function SplitOn(s: string, sep: char): (parts: seq<string>)
    ensures parts != []
  {
    if s == [] then [[]]
    else
      var rest, c := SplitOn(s[..|s| - 1], sep), s[|s| - 1];
      if c == sep then rest + [[]] else rest[..|rest| - 1] + [rest[|rest| - 1] + [c]]
  }

  lemma {:induction false} SplitAppends(s: string, sep: char, piece: string)
    requires sep !in piece
    ensures SplitOn(s + [sep] + piece, sep) == SplitOn(s, sep) + [piece]
  {
    var whole := s + [sep] + piece;
    if piece == [] {
      assert whole[..|whole| - 1] == s;
    } else {
      var k := |piece| - 1;
      assert whole[..|whole| - 1] == s + [sep] + piece[..k];
      assert forall c | c in piece[..k] :: c in piece;
      SplitAppends(s, sep, piece[..k]);
      assert piece[..k] + [piece[k]] == piece;
    }
  }

  lemma {:induction false} SplitNothing(piece: string, sep: char)
    requires sep !in piece
    ensures SplitOn(piece, sep) == [piece]
  {
    if piece != [] {
      var k := |piece| - 1;
      assert forall c | c in piece[..k] :: c in piece;
      SplitNothing(piece[..k], sep);
      assert piece[..k] + [piece[k]] == piece;
    }
  }
}
