/** Little-endian numbers and runs of them. */
module TensorBytes {

  type Byte = x: int | 0 <= x < 256

  function Power(n: nat): nat
  {
    if n == 0 then 1 else 256 * Power(n - 1)
  }

  /** The low `n` bytes of a number, least significant first. */
  function PutLE(x: nat, n: nat): (r: seq<Byte>)
    ensures |r| == n
    decreases n
  {
    if n == 0 then [] else [x % 256] + PutLE(x / 256, n - 1)
  }

  function GetLE(bytes: seq<Byte>): nat
  {
    if bytes == [] then 0 else bytes[0] + 256 * GetLE(bytes[1..])
  }

  lemma {:induction false} PutThenGet(x: nat, n: nat)
    requires x < Power(n)
    ensures GetLE(PutLE(x, n)) == x
    decreases n
  {
    if n > 0 {
      PutThenGet(x / 256, n - 1);
    }
  }

  /** Numbers of `n` bytes each, one after the other. */
  function PutAll(xs: seq<nat>, n: nat): seq<Byte>
  {
    if xs == [] then [] else PutLE(xs[0], n) + PutAll(xs[1..], n)
  }

  function GetAll(bytes: seq<Byte>, n: nat): seq<nat>
    requires n > 0
  {
    if |bytes| < n then [] else [GetLE(bytes[..n])] + GetAll(bytes[n..], n)
  }

  lemma {:induction false} PutAllLength(xs: seq<nat>, n: nat)
    ensures |PutAll(xs, n)| == |xs| * n
  {
    if xs != [] {
      PutAllLength(xs[1..], n);
      assert |xs| * n == n + (|xs| - 1) * n;
    }
  }

  /** A run of numbers that fit is read back as it was written. */
  lemma {:induction false} PutAllThenGet(xs: seq<nat>, n: nat)
    requires n > 0 && forall i | 0 <= i < |xs| :: xs[i] < Power(n)
    ensures GetAll(PutAll(xs, n), n) == xs
  {
    if xs != [] {
      PutThenGet(xs[0], n);
      PutAllThenGet(xs[1..], n);
      assert PutAll(xs, n)[..n] == PutLE(xs[0], n);
      assert PutAll(xs, n)[n..] == PutAll(xs[1..], n);
    }
  }

  lemma {:induction false} GetIsNarrow(bytes: seq<Byte>)
    ensures GetLE(bytes) < Power(|bytes|)
  {
    if bytes != [] {
      GetIsNarrow(bytes[1..]);
    }
  }

  /** A run of bytes of the right length holds that many numbers, each as wide as its bytes. */
  lemma {:induction false} GetAllShape(bytes: seq<Byte>, count: nat, n: nat)
    requires n > 0 && |bytes| == count * n
    ensures |GetAll(bytes, n)| == count && forall i | 0 <= i < count :: GetAll(bytes, n)[i] < Power(n)
    decreases count
  {
    if count > 0 {
      assert count * n == n + (count - 1) * n;
      assert |bytes[n..]| == (count - 1) * n;
      GetIsNarrow(bytes[..n]);
      GetAllShape(bytes[n..], count - 1, n);
    }
  }

  lemma {:induction false} PutAllSnoc(xs: seq<nat>, x: nat, n: nat)
    ensures PutAll(xs + [x], n) == PutAll(xs, n) + PutLE(x, n)
  {
    hide PutLE;
    if xs == [] {
      assert PutAll([x], n) == PutLE(x, n) + PutAll([x][1..], n);
    } else {
      PutAllSnoc(xs[1..], x, n);
      assert (xs + [x])[1..] == xs[1..] + [x];
    }
  }

  /** Writes the numbers into a buffer of exactly their size. */
  method EncodeAll(xs: seq<nat>, n: nat) returns (bytes: seq<Byte>)
    ensures bytes == PutAll(xs, n)
  {
    bytes := [];
    for i := 0 to |xs|
      invariant bytes == PutAll(xs[..i], n)
    {
      PutAllSnoc(xs[..i], xs[i], n);
      assert xs[..i + 1] == xs[..i] + [xs[i]];
      bytes := bytes + PutLE(xs[i], n);
    }
    assert xs[..|xs|] == xs;
  }

  /** Reads the numbers off a run of bytes. */
  method DecodeAll(bytes: seq<Byte>, n: nat) returns (xs: seq<nat>)
    requires n > 0
    ensures xs == GetAll(bytes, n)
  {
    xs := [];
    var at := 0;
    while |bytes| - at >= n
      invariant at <= |bytes| && xs + GetAll(bytes[at..], n) == GetAll(bytes, n)
      decreases |bytes| - at
    {
      assert bytes[at..][..n] == bytes[at..at + n] && bytes[at..][n..] == bytes[at + n..];
      xs := xs + [GetLE(bytes[at..at + n])];
      at := at + n;
    }
  }
}
