/** Bytes, bit strings and optional results, shared by the codecs. */
module Bytes {
  import opened Arithmetic

  type byte = x: int | 0 <= x < 256

  datatype Option<+T> = None | Some(value: T)

  function Ascii(s: string): seq<byte> { seq(|s|, i requires 0 <= i < |s| => s[i] as int % 256) }

  lemma SliceOfSlice<T>(s: seq<T>, a: nat, b: nat, c: nat, d: nat)
    requires a <= b <= |s| && c <= d <= b - a
    ensures s[a..b][c..d] == s[a + c..a + d]
  {
    var part, whole := s[a..b][c..d], s[a + c..a + d];
    forall i | 0 <= i < d - c ensures part[i] == whole[i] { assert part[i] == s[a..b][c + i] == s[a + c + i]; }
  }

  /** A slice that starts where a prefix ends extends it. */
  lemma SliceExtends<T>(s: seq<T>, a: nat, b: nat, c: nat, n: nat)
    requires a <= b <= |s| && c + n <= b - a
    ensures s[..a + c] + s[a..b][c..c + n] == s[..a + c + n]
  {
    SliceOfSlice(s, a, b, c, c + n);
    assert s[..a + c] + s[a + c..a + c + n] == s[..a + c + n];
  }

  lemma DropDrop<T>(s: seq<T>, a: nat, b: nat)
    requires a + b <= |s|
    ensures s[a..][b..] == s[a + b..]
  {
  }

  lemma Regroup<T>(a: seq<T>, b: seq<T>, c: seq<T>)
    ensures a + b + c == a + (b + c)
  {
  }

  /** x >> n */
  function Shr(x: nat, n: nat): nat {
    if n == 0 then x else Shr(x / 2, n - 1)
  }

  /** The low n bits of x, most significant first. */
  function BitsOf(x: nat, n: nat): (bits: seq<bool>)
    ensures |bits| == n
  {
    if n == 0 then [] else BitsOf(x / 2, n - 1) + [x % 2 == 1]
  }

  function Ones(n: nat): (bits: seq<bool>)
    ensures |bits| == n && forall i :: 0 <= i < n ==> bits[i]
  {
    seq(n, i => true)
  }

  /** The bits of a byte string, each byte most significant bit first. */
  function BytesToBits(data: seq<byte>): (bits: seq<bool>)
    ensures |bits| == 8 * |data|
  {
    if data == [] then [] else BitsOf(data[0], 8) + BytesToBits(data[1..])
  }

  lemma {:induction false} BytesToBitsConcat(a: seq<byte>, b: seq<byte>)
    ensures BytesToBits(a + b) == BytesToBits(a) + BytesToBits(b)
  {
    if a == [] {
      assert a + b == b;
    } else {
      assert (a + b)[1..] == a[1..] + b;
      BytesToBitsConcat(a[1..], b);
    }
  }

  lemma {:induction false} BitsSplit(x: nat, a: nat, b: nat)
    ensures BitsOf(x, a + b) == BitsOf(Shr(x, b), a) + BitsOf(x, b)
  {
    if b == 0 {
    } else {
      BitsSplit(x / 2, a, b - 1);
      Regroup(BitsOf(Shr(x, b), a), BitsOf(x / 2, b - 1), [x % 2 == 1]);
    }
  }

  /** Only the low n bits matter. */
  lemma {:induction false} BitsMod(x: nat, n: nat)
    ensures BitsOf(x % Pow2(n), n) == BitsOf(x, n)
  {
    if n == 0 {
    } else {
      var h := Pow2(n - 1);
      ModDouble(x, h);
      assert (x % (2 * h)) / 2 == x / 2 % h && (x % (2 * h)) % 2 == x % 2;
      BitsMod(x / 2, n - 1);
    }
  }

  lemma {:induction false} BitAt(x: nat, n: nat, k: nat)
    requires k < n
    ensures BitsOf(x, n)[k] == (Shr(x, n - 1 - k) % 2 == 1)
  {
    if k < n - 1 {
      BitAt(x / 2, n - 1, k);
    }
  }

  lemma {:induction false} ShrOfSum(x: nat, c: nat, n: nat)
    requires c < Pow2(n)
    ensures Shr(x * Pow2(n) + c, n) == x
  {
    if n == 0 {
    } else {
      var h := Pow2(n - 1);
      MulDouble(x, h);
      assert (x * Pow2(n) + c) / 2 == x * h + c / 2;
      ShrOfSum(x, c / 2, n - 1);
    }
  }

  /** Appending the n bits of c below those of x. */
  lemma {:induction false} BitsAppend(x: nat, m: nat, c: nat, n: nat)
    requires c < Pow2(n)
    ensures BitsOf(x * Pow2(n) + c, m + n) == BitsOf(x, m) + BitsOf(c, n)
  {
    if n == 0 {
    } else {
      var y := x * Pow2(n) + c;
      MulDouble(x, Pow2(n - 1));
      assert y / 2 == x * Pow2(n - 1) + c / 2 && y % 2 == c % 2;
      BitsAppend(x, m, c / 2, n - 1);
    }
  }

  lemma {:induction false} Pow2Monotone(a: nat, b: nat)
    requires a <= b
    ensures Pow2(a) <= Pow2(b)
  {
    if a == b {
    } else {
      Pow2Monotone(a, b - 1);
    }
  }

  lemma {:induction false} Pow2Sum(a: nat, b: nat)
    ensures Pow2(a + b) == Pow2(a) * Pow2(b)
  {
    if a == 0 {
    } else {
      Pow2Sum(a - 1, b);
      MulDouble(Pow2(a - 1), Pow2(b));
    }
  }

  /** The low n bytes of x, most significant first. */
  function BigEndian(x: nat, n: nat): (bytes: seq<byte>)
    ensures |bytes| == n
  {
    if n == 0 then [] else BigEndian(x / 256, n - 1) + [x % 256]
  }

  function FromBigEndian(bytes: seq<byte>): nat {
    if bytes == [] then 0 else 256 * FromBigEndian(bytes[..|bytes| - 1]) + bytes[|bytes| - 1]
  }

  function Pow256(n: nat): (r: nat)
    ensures r >= 1
  {
    if n == 0 then 1 else 256 * Pow256(n - 1)
  }

  lemma {:induction false} BigEndianRoundTrip(x: nat, n: nat)
    requires x < Pow256(n)
    ensures FromBigEndian(BigEndian(x, n)) == x
  {
    if n == 0 {
    } else {
      BigEndianRoundTrip(x / 256, n - 1);
      assert BigEndian(x, n)[..n - 1] == BigEndian(x / 256, n - 1);
    }
  }
}
