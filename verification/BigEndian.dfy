/** Unsigned integers as big-endian bytes: 8-byte references and 6-byte ids. */
module BigEndian {

  type Byte = x: nat | x < 256

  function Pow(n: nat): (p: nat)
    ensures p > 0
  {
    if n == 0 then 1 else 256 * Pow(n - 1)
  }

  /** The low n bytes of v, most significant first. */
  function Bytes(v: nat, n: nat): (b: seq<Byte>)
    ensures |b| == n
  {
    if n == 0 then [] else Bytes(v / 256, n - 1) + [v % 256]
  }

  function Value(b: seq<Byte>): (v: nat) {
    if b == [] then 0 else 256 * Value(b[..|b| - 1]) + b[|b| - 1]
  }

  lemma {:induction false} ValueOfBytes(v: nat, n: nat)
    requires v < Pow(n)
    ensures Value(Bytes(v, n)) == v
  {
    if n > 0 {
      ValueOfBytes(v / 256, n - 1);
      assert Bytes(v, n)[..n - 1] == Bytes(v / 256, n - 1);
    }
  }

  lemma {:induction false} BytesOfValue(b: seq<Byte>)
    ensures Value(b) < Pow(|b|) && Bytes(Value(b), |b|) == b
  {
    if b != [] {
      var front := b[..|b| - 1];
      BytesOfValue(front);
      assert b == front + [b[|b| - 1]];
      assert Value(b) / 256 == Value(front) && Value(b) % 256 == b[|b| - 1];
    }
  }

  /** v shifted right by n bytes. */
  function Shifted(v: nat, n: nat): (r: nat) {
    if n == 0 then v else Shifted(v, n - 1) / 256
  }

  /** Byte by byte from the most significant, as the encoders write. */
  method Write(v: nat, n: nat) returns (b: seq<Byte>)
    ensures b == Bytes(v, n)
  {
    b := [];
    var i: nat := n;
    while i > 0
      invariant i <= n && b == Bytes(Shifted(v, i), n - i)
    {
      i := i - 1;
      b := b + [Shifted(v, i) % 256];
    }
  }

  method Read(b: seq<Byte>) returns (v: nat)
    ensures v == Value(b)
  {
    v := 0;
    for i := 0 to |b|
      invariant v == Value(b[..i])
    {
      assert b[..i + 1][..i] == b[..i];
      v := 256 * v + b[i];
    }
    assert b[..|b|] == b;
  }
}
