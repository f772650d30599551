/** Machine words, block arithmetic and sums over sequences. */
module Base {

  datatype Option<+T> = None | Some(value: T)

  type byte = x: int | 0 <= x < 256

  /** An unsigned 64-bit value: size_t, nlink_t, fsblkcnt_t, fsfilcnt_t. */
  type word = x: int | 0 <= x < 0x1_0000_0000_0000_0000

  /** Unsigned 64-bit arithmetic keeps the residue modulo 2^64. */
  function Wrap(n: int): (w: word)
  {
    n % 0x1_0000_0000_0000_0000
  }

  /** A value in range is its own residue. */
  lemma {:induction false} WrapExact(a: int)
    requires 0 <= a < 0x1_0000_0000_0000_0000
    ensures Wrap(a) == a
  {
  }

  lemma {:induction false} WrapShift(a: int, b: int)
    ensures Wrap(Wrap(a) + b) == Wrap(a + b)
  {
  }

  /** get_nblocks(size, 512). */
  function NBlocks(size: nat): (n: nat)
    ensures 512 * n >= size
    ensures n > 0 ==> 512 * (n - 1) < size
  {
    (size + 511) / 512
  }

  /** The write path's block arithmetic is get_nblocks, and growing within the
      allocated blocks needs no new one. */
  lemma {:induction false} BlocksOfWrite(size: nat, newSize: nat)
    ensures newSize / 512 + (if newSize % 512 != 0 then 1 else 0) == NBlocks(newSize)
    ensures size < newSize <= 512 * NBlocks(size) ==> NBlocks(newSize) == NBlocks(size)
  {
  }

  ghost function Sum<T>(s: seq<T>, f: T -> int): int
  {
    if |s| == 0 then 0 else Sum(s[..|s| - 1], f) + f(s[|s| - 1])
  }

  lemma {:induction false} SumConcat<T>(a: seq<T>, b: seq<T>, f: T -> int)
    ensures Sum(a + b, f) == Sum(a, f) + Sum(b, f)
  {
    if b == [] {
      assert a + b == a;
    } else {
      SumConcat(a, b[..|b| - 1], f);
      assert (a + b)[..|a + b| - 1] == a + b[..|b| - 1];
    }
  }

  lemma {:induction false} SumSplit<T>(s: seq<T>, k: nat, f: T -> int)
    requires k < |s|
    ensures Sum(s, f) == Sum(s[..k], f) + f(s[k]) + Sum(s[k + 1..], f)
  {
    assert s == s[..k] + ([s[k]] + s[k + 1..]);
    SumConcat(s[..k], [s[k]] + s[k + 1..], f);
    SumConcat([s[k]], s[k + 1..], f);
    assert [s[k]][..0] == [];
  }

  lemma {:induction false} SumAppend<T>(s: seq<T>, x: T, f: T -> int)
    ensures Sum(s + [x], f) == Sum(s, f) + f(x)
  {
  }

  lemma {:induction false} SumRemove<T>(s: seq<T>, k: nat, f: T -> int)
    requires k < |s|
    ensures Sum(s[..k] + s[k + 1..], f) == Sum(s, f) - f(s[k])
  {
    SumSplit(s, k, f);
    SumConcat(s[..k], s[k + 1..], f);
  }

  lemma {:induction false} SumUpdate<T>(s: seq<T>, k: nat, x: T, f: T -> int)
    requires k < |s|
    ensures Sum(s[k := x], f) == Sum(s, f) - f(s[k]) + f(x)
  {
    SumSplit(s, k, f);
    SumSplit(s[k := x], k, f);
    assert s[k := x][..k] == s[..k];
    assert s[k := x][k + 1..] == s[k + 1..];
  }

  lemma {:induction false} SumSame<T>(s: seq<T>, f: T -> int, g: T -> int)
    requires forall i :: 0 <= i < |s| ==> f(s[i]) == g(s[i])
    ensures Sum(s, f) == Sum(s, g)
  {
    if s != [] {
      SumSame(s[..|s| - 1], f, g);
    }
  }

  /** A sum of non-negative terms bounds each of them. */
  lemma {:induction false} SumBounds<T>(s: seq<T>, f: T -> int)
    requires forall i :: 0 <= i < |s| ==> f(s[i]) >= 0
    ensures Sum(s, f) >= 0
    ensures forall i :: 0 <= i < |s| ==> f(s[i]) <= Sum(s, f)
  {
    if s != [] {
      SumBounds(s[..|s| - 1], f);
    }
  }

  lemma {:induction false} SumZero<T>(s: seq<T>, f: T -> int)
    requires forall i :: 0 <= i < |s| ==> f(s[i]) == 0
    ensures Sum(s, f) == 0
  {
    if s != [] {
      SumZero(s[..|s| - 1], f);
    }
  }
}
