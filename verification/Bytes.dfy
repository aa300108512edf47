/** Byte strings, optional values and the big-endian integers shared by the rest of the project. */
module Bytes {
  type byte = x: int | 0 <= x < 256

  datatype Option<+T> = None | Some(value: T)

  function Min(a: nat, b: nat): nat { if a <= b then a else b }

  /** The concatenation of a list of segments. */
  function Flatten<T>(segments: seq<seq<T>>): seq<T> {
    if segments == [] then [] else segments[0] + Flatten(segments[1..])
  }

  lemma {:induction false} FlattenAppend<T>(a: seq<seq<T>>, b: seq<seq<T>>)
    ensures Flatten(a + b) == Flatten(a) + Flatten(b)
  {
    if a == [] {
      assert a + b == b;
    } else {
      assert (a + b)[1..] == a[1..] + b;
      FlattenAppend(a[1..], b);
    }
  }

  lemma FlattenSnoc<T>(a: seq<seq<T>>, x: seq<T>)
    ensures Flatten(a + [x]) == Flatten(a) + x
  {
    FlattenAppend(a, [x]);
    assert Flatten([x]) == x + Flatten<T>([]);
  }

  function Sum(ns: seq<nat>): nat {
    if ns == [] then 0 else ns[0] + Sum(ns[1..])
  }

  lemma {:induction false} SumAppend(a: seq<nat>, b: seq<nat>)
    ensures Sum(a + b) == Sum(a) + Sum(b)
  {
    if a == [] {
      assert a + b == b;
    } else {
      assert (a + b)[1..] == a[1..] + b;
      SumAppend(a[1..], b);
    }
  }

  predicate AllPositive(ns: seq<nat>) {
    forall i :: 0 <= i < |ns| ==> ns[i] > 0
  }

  /** The lengths of a list of segments. */
  function Lengths<T>(segments: seq<seq<T>>): (r: seq<nat>)
    ensures |r| == |segments|
    ensures forall i :: 0 <= i < |segments| ==> r[i] == |segments[i]|
  {
    seq(|segments|, i requires 0 <= i < |segments| => |segments[i]|)
  }

  lemma {:induction false} LengthsSum<T>(segments: seq<seq<T>>)
    ensures Sum(Lengths(segments)) == |Flatten(segments)|
  {
    if segments != [] {
      assert Lengths(segments)[1..] == Lengths(segments[1..]);
      LengthsSum(segments[1..]);
    }
  }

  /** 256 to the power p. */
  function Pow256(p: nat): (r: nat)
    ensures r > 0
  {
    if p == 0 then 1 else 256 * Pow256(p - 1)
  }

  /** The low p bytes of n, most significant byte first. */
  function BigEndian(n: nat, p: nat): (r: seq<byte>)
    ensures |r| == p
  {
    if p == 0 then [] else BigEndian(n / 256, p - 1) + [n % 256]
  }

  function FromBigEndian(b: seq<byte>): nat {
    if b == [] then 0 else 256 * FromBigEndian(b[..|b| - 1]) + b[|b| - 1]
  }

  lemma ModStep(n: nat, m: nat)
    requires m > 0
    ensures 256 * ((n / 256) % m) + n % 256 == n % (256 * m)
  {
    var q := n / 256 / m;
    var r := 256 * ((n / 256) % m) + n % 256;
    assert n == 256 * (n / 256) + n % 256;
    assert n / 256 == m * q + (n / 256) % m;
    assert n == (256 * m) * q + r;
    assert 0 <= r < 256 * m;
    ModUnique(n, 256 * m, q, r);
  }

  lemma ModUnique(n: nat, m: nat, q: nat, r: nat)
    requires m > 0 && n == m * q + r && r < m
    ensures n % m == r
  {
    var d := n / m - q;
    assert m * d == r - n % m;
    SmallMultiple(m, d);
  }

  lemma SmallMultiple(m: int, d: int)
    requires 0 < m && 0 - m < m * d < m
    ensures d == 0
  {
    assert d >= 1 ==> m * d >= m;
    assert d <= -1 ==> m * d <= 0 - m;
  }

  /** Reading back an integer written with p bytes gives it modulo 256^p. */
  lemma {:induction false} BigEndianRoundTrip(n: nat, p: nat)
    ensures FromBigEndian(BigEndian(n, p)) == n % Pow256(p)
  {
    if p > 0 {
      BigEndianRoundTrip(n / 256, p - 1);
      var b := BigEndian(n, p);
      assert b[..p - 1] == BigEndian(n / 256, p - 1);
      ModStep(n, Pow256(p - 1));
    }
  }

  /** Every byte string is the encoding of the number it denotes. */
  lemma {:induction false} BigEndianOnto(b: seq<byte>)
    ensures BigEndian(FromBigEndian(b), |b|) == b
    ensures FromBigEndian(b) < Pow256(|b|)
  {
    if b != [] {
      var front := b[..|b| - 1];
      BigEndianOnto(front);
      var n := FromBigEndian(b);
      assert n / 256 == FromBigEndian(front) && n % 256 == b[|b| - 1];
    }
  }

  lemma DivTwice(n: nat, m: nat)
    requires m > 0
    ensures n / 256 / m == n / (256 * m)
  {
    var q := n / 256 / m;
    ModStep(n, m);
    assert n == (256 * m) * (n / (256 * m)) + n % (256 * m);
    assert n / 256 == m * q + (n / 256) % m;
    assert n == 256 * (n / 256) + n % 256;
    assert n == (256 * m) * q + n % (256 * m);
    EqualQuotients(256 * m, q, n / (256 * m));
  }

  lemma EqualQuotients(m: nat, a: nat, b: nat)
    requires m > 0 && m * a == m * b
    ensures a == b
  {
    SmallMultiple(m, a - b);
  }

  /** Network byte order: the i-th byte written is the i-th most significant. */
  lemma {:induction false} BigEndianAt(n: nat, p: nat, i: nat)
    requires i < p
    ensures BigEndian(n, p)[i] == n / Pow256(p - 1 - i) % 256
    decreases p
  {
    if i < p - 1 {
      BigEndianAt(n / 256, p - 1, i);
      DivTwice(n, Pow256(p - 2 - i));
    }
  }
}
