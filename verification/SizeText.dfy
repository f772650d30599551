/** Reading the `size` and `inodes` mount options. */
module SizeText {
  import opened Base

  const OPTION_MAX: nat := 131072

  predicate Digit(c: char) {
    '0' <= c <= '9'
  }

  /** The power of 1024 a suffix stands for; 0 for a character that is no suffix. */
  function Unit(c: char): nat {
    if c == 'k' || c == 'K' then 1024
    else if c == 'm' || c == 'M' then 1048576
    else if c == 'g' || c == 'G' then 1048576 * 1024
    else if c == 't' || c == 'T' then 1048576 * 1048576
    else if c == 'p' || c == 'P' then 1048576 * 1048576 * 1024
    else if c == 'e' || c == 'E' then 1048576 * 1048576 * 1048576
    else 0
  }

  const UNITS := "kmgtpe"
  const UNITS_UPPER := "KMGTPE"

  function Pow1024(n: nat): nat {
    if n == 0 then 1 else 1024 * Pow1024(n - 1)
  }

  /** The n-th suffix, in either case, is the n-th power of 1024; no other character is
      a suffix. */
  lemma {:induction false} UnitIs(c: char)
    ensures forall n: nat :: n < 6 && (c == UNITS[n] || c == UNITS_UPPER[n]) ==> Unit(c) == Pow1024(n + 1)
    ensures c !in UNITS && c !in UNITS_UPPER ==> Unit(c) == 0
  {
    assert Pow1024(2) == 1024 * Pow1024(1) && Pow1024(3) == 1024 * Pow1024(2);
    assert Pow1024(4) == 1024 * Pow1024(3) && Pow1024(5) == 1024 * Pow1024(4) && Pow1024(6) == 1024 * Pow1024(5);
    assert UNITS[0] == 'k' && UNITS[1] == 'm' && UNITS[2] == 'g' && UNITS[3] == 't';
    assert UNITS[4] == 'p' && UNITS[5] == 'e';
    assert UNITS_UPPER[0] == 'K' && UNITS_UPPER[1] == 'M' && UNITS_UPPER[2] == 'G' && UNITS_UPPER[3] == 'T';
    assert UNITS_UPPER[4] == 'P' && UNITS_UPPER[5] == 'E';
  }

  function Trimmed(s: string): (r: string)
    ensures |r| <= |s| && r == s[..|r|]
    ensures r != [] ==> r[|r| - 1] != ' '
    ensures forall j :: |r| <= j < |s| ==> s[j] == ' '
  {
    if s != [] && s[|s| - 1] == ' ' then Trimmed(s[..|s| - 1]) else s
  }

  /** The decimal number a text of digits denotes, read from the left. */
  function Decimal(s: string): nat
    requires Digits(s)
  {
    if s == [] then 0 else 10 * Decimal(s[..|s| - 1]) + (s[|s| - 1] - '0') as nat
  }

  predicate Digits(s: string) {
    forall j :: 0 <= j < |s| ==> Digit(s[j])
  }

  /** What the text stands for: digits and an optional unit, modulo 2^64; anything
      else stands for 0. */
  function Meaning(s: string): word {
    var t := Trimmed(s);
    if t == [] then 0 else
    var last, init := t[|t| - 1], t[..|t| - 1];
    if Digit(last) then (if Digits(init) then Wrap(Decimal(t)) else 0)
    else if Digits(init) then Wrap(Times(Decimal(init), Unit(last)))
    else 0
  }

  function Pow10(n: nat): nat {
    if n == 0 then 1 else 10 * Pow10(n - 1)
  }

  function Value(c: char): nat
    requires Digit(c)
  {
    (c - '0') as nat
  }

  /** A product, named so that its terms stay apart from linear arithmetic. */
  function Times(a: int, b: int): int {
    a * b
  }

  lemma {:induction false} TimesTen(a: int, b: int)
    ensures Times(10 * a, b) == 10 * Times(a, b)
  {
  }

  /** A digit in front counts with the magnitude of its place. */
  lemma {:induction false} DecimalFront(c: char, s: string)
    requires Digit(c) && Digits(s)
    ensures Digits([c] + s) && Decimal([c] + s) == Times(Pow10(|s|), Value(c)) + Decimal(s)
  {
    if s == [] {
      assert [c] + s == [c] && [c][..0] == [];
    } else {
      var init := s[..|s| - 1];
      DecimalFront(c, init);
      assert ([c] + s)[..|s|] == [c] + init;
      TimesTen(Pow10(|init|), Value(c));
    }
  }

  lemma {:induction false} TenTimes(n: nat)
    ensures Times(Pow10(n), 10) == Pow10(n + 1)
  {
  }

  /** Overflowing in a factor does not change the 64-bit product. */
  lemma {:induction false} WrapTimes(a: int, b: int)
    ensures Wrap(Times(Wrap(a), b)) == Wrap(Times(a, b))
  {
    var q := a / 0x1_0000_0000_0000_0000;
    assert a == Wrap(a) + q * 0x1_0000_0000_0000_0000;
    assert Times(a, b) == Times(Wrap(a), b) + Times(q, b) * 0x1_0000_0000_0000_0000;
    WrapMultiple(Times(Wrap(a), b), Times(q, b));
  }

  lemma {:induction false} WrapMultiple(x: int, k: int)
    ensures Wrap(x + k * 0x1_0000_0000_0000_0000) == Wrap(x)
  {
  }

  /** One step of the loop, with every 64-bit overflow. */
  lemma {:induction false} LoopStep(size: word, magnitude: word, c: char, s: string)
    requires Digit(c) && Digits(s)
    requires size == Wrap(Decimal(s)) && magnitude == Wrap(Pow10(|s|))
    ensures Wrap(size + Wrap(Times(magnitude, Value(c)))) == Wrap(Decimal([c] + s))
    ensures Wrap(Times(magnitude, 10)) == Wrap(Pow10(|s| + 1))
  {
    hide Wrap, Times, Decimal;
    DecimalFront(c, s);
    WrapTimes(Pow10(|s|), Value(c));
    WrapTimes(Pow10(|s|), 10);
    TenTimes(|s|);
    WrapShift(Times(Pow10(|s|), Value(c)), size);
    WrapShift(Decimal(s), Times(Pow10(|s|), Value(c)));
  }

  function Considered(str: string): string {
    if |str| <= OPTION_MAX then str else str[..OPTION_MAX]
  }

  /** The second loop: from the last digit to the first, or to a non-digit. */
  method GatherNumber(num: string) returns (r: Option<word>)
    ensures r == if Digits(num) then Some(Wrap(Decimal(num))) else None
  {
    hide Wrap, Times, Decimal, Pow10;
    var sp := |num| - 1;
    var size: word, magnitude: word := 0, 1;
    Nothing();
    assert num[sp + 1..] == [];
    while sp >= 0
      invariant -1 <= sp < |num|
      invariant Digits(num[sp + 1..])
      invariant size == Wrap(Decimal(num[sp + 1..])) && magnitude == Wrap(Pow10(|num[sp + 1..]|))
    {
      var cur := num[sp];
      if !Digit(cur) {
        return None;
      }
      LoopStep(size, magnitude, cur, num[sp + 1..]);
      assert [cur] + num[sp + 1..] == num[sp..];
      size := Wrap(size + Wrap(Times(magnitude, Value(cur))));
      magnitude := Wrap(Times(magnitude, 10));
      sp := sp - 1;
    }
    assert num[0..] == num;
    return Some(size);
  }

  method SizeStr2Number(str: string) returns (r: word)
    requires exists j :: 0 <= j < |Considered(str)| && str[j] != ' '
    ensures r == Meaning(Considered(str))
  {
    hide Wrap, Times, Decimal, Trimmed, Unit;
    var sp := |Considered(str)| - 1;
    ghost var t := Trimmed(Considered(str));
    while str[sp] == ' '
      invariant 0 <= |t| - 1 <= sp < |Considered(str)|
      decreases sp
    {
      sp := sp - 1;
    }
    assert t == str[..sp + 1];
    var uc := str[sp];
    var unit;
    if Digit(uc) {
      unit, sp := 1, sp + 1;
      assert Digits(t) == Digits(t[..|t| - 1]);
    } else {
      unit := Unit(uc);
      assert t[..|t| - 1] == str[..sp];
      if unit == 0 {
        NoUnit(if Digits(str[..sp]) then Decimal(str[..sp]) else 0);
        return 0;
      }
    }
    var size := GatherNumber(str[..sp]);
    if size.None? {
      return 0;
    }
    WrapTimes(Decimal(str[..sp]), unit);
    OneUnit(Decimal(str[..sp]));
    r := Wrap(Times(size.value, unit));
  }

  lemma {:induction false} Nothing()
    ensures Wrap(Decimal([])) == 0 && Wrap(Pow10(0)) == 1
  {
  }

  lemma {:induction false} NoUnit(a: int)
    ensures Wrap(Times(a, 0)) == 0
  {
  }

  lemma {:induction false} OneUnit(a: int)
    ensures Times(a, 1) == a
  {
  }

  // ------------------------------------------------------------- reading back

  /** The usual decimal notation. */
  function Show(n: nat): (s: string)
    ensures s != [] && Digits(s)
  {
    var d := [('0' as int + n % 10) as char];
    if n < 10 then d else Show(n / 10) + d
  }

  lemma {:induction false} ShowIsDecimal(n: nat)
    ensures Decimal(Show(n)) == n
  {
    var s := Show(n);
    assert Value(s[|s| - 1]) == n % 10;
    if n >= 10 {
      ShowIsDecimal(n / 10);
      assert s[..|s| - 1] == Show(n / 10);
    } else {
      assert s[..0] == [];
    }
  }

  function Spaces(n: nat): string {
    seq(n, _ => ' ')
  }

  lemma {:induction false} TrimSpaces(s: string, k: nat)
    requires s != [] && s[|s| - 1] != ' '
    ensures Trimmed(s + Spaces(k)) == s
  {
    if k == 0 {
      assert s + Spaces(0) == s;
    } else {
      TrimSpaces(s, k - 1);
      var t := s + Spaces(k);
      assert t[..|t| - 1] == s + Spaces(k - 1);
    }
  }

  /** A number in decimal, with or without a unit, followed by any spaces, is read
      as the number times the unit, modulo 2^64. */
  lemma {:induction false} ReadsBack(n: nat, unit: char, k: nat)
    ensures Meaning(Show(n) + Spaces(k)) == Wrap(n)
    ensures Unit(unit) != 0 ==> Meaning(Show(n) + [unit] + Spaces(k)) == Wrap(Times(n, Unit(unit)))
  {
    hide Wrap, Times;
    ShowIsDecimal(n);
    var s := Show(n);
    TrimSpaces(s, k);
    if Unit(unit) != 0 {
      TrimSpaces(s + [unit], k);
      assert (s + [unit])[..|s|] == s;
    }
  }
}
