/** Fixed-width numbers as bytes: big-endian in instructions and in the file header,
    little-endian inside type codes. */
module Binary {
  type Byte = b: nat | b < 256 witness 0

  const TWO64: nat := 0x1_0000_0000_0000_0000

  function Pow256(n: nat): nat { if n == 0 then 1 else 256 * Pow256(n - 1) }

  /** The low bytes of a number, most significant first. */
  function Be(n: nat, width: nat): (r: seq<Byte>)
    ensures |r| == width
    decreases width
  {
    if width == 0 then [] else Be(n / 256, width - 1) + [n % 256]
  }

  function UnBe(s: seq<Byte>): nat {
    if s == [] then 0 else 256 * UnBe(s[..|s| - 1]) + s[|s| - 1]
  }

  /** The low bytes of a number, least significant first. */
  function Le(n: nat, width: nat): (r: seq<Byte>)
    ensures |r| == width
    decreases width
  {
    if width == 0 then [] else [n % 256] + Le(n / 256, width - 1)
  }

  function UnLe(s: seq<Byte>): nat {
    if s == [] then 0 else s[0] + 256 * UnLe(s[1..])
  }

  lemma {:induction false} BeRoundTrip(n: nat, width: nat)
    requires n < Pow256(width)
    ensures UnBe(Be(n, width)) == n
    decreases width
  {
    if width > 0 {
      BeRoundTrip(n / 256, width - 1);
      assert Be(n, width)[..width - 1] == Be(n / 256, width - 1);
    }
  }

  lemma {:induction false} UnBeRoundTrip(s: seq<Byte>)
    ensures UnBe(s) < Pow256(|s|) && Be(UnBe(s), |s|) == s
    decreases |s|
  {
    if s != [] {
      UnBeRoundTrip(s[..|s| - 1]);
      assert s == s[..|s| - 1] + [s[|s| - 1]];
    }
  }

  lemma {:induction false} LeRoundTrip(n: nat, width: nat)
    requires n < Pow256(width)
    ensures UnLe(Le(n, width)) == n
    decreases width
  {
    if width > 0 {
      LeRoundTrip(n / 256, width - 1);
      assert Le(n, width)[1..] == Le(n / 256, width - 1);
    }
  }

  lemma {:induction false} UnLeRoundTrip(s: seq<Byte>)
    ensures UnLe(s) < Pow256(|s|) && Le(UnLe(s), |s|) == s
    decreases |s|
  {
    if s != [] {
      UnLeRoundTrip(s[1..]);
      assert s == [s[0]] + s[1..];
    }
  }

  lemma EightBytes()
    ensures Pow256(8) == TWO64
  {
    assert Pow256(4) == 0x1_0000_0000;
    assert Pow256(6) == 0x1_0000_0000_0000;
  }

  /** 64-bit two's complement. */
  function Unsigned64(i: int): nat { i % TWO64 }
  function Signed64(u: nat): int { if u < TWO64 / 2 then u else u - TWO64 }

  lemma SignedRoundTrip(i: int)
    requires -(TWO64 / 2) <= i < TWO64 / 2
    ensures Unsigned64(i) < TWO64 && Signed64(Unsigned64(i)) == i
  {
  }

  function ReverseBytes(s: seq<Byte>): (r: seq<Byte>)
    ensures |r| == |s| && forall i :: 0 <= i < |s| ==> r[i] == s[|s| - 1 - i]
  {
    seq(|s|, i requires 0 <= i < |s| => s[|s| - 1 - i])
  }

  lemma {:induction false} ReverseLe(n: nat, width: nat)
    ensures ReverseBytes(Le(n, width)) == Be(n, width)
    decreases width
  {
    if width > 0 {
      ReverseLe(n / 256, width - 1);
      var l, b := Le(n, width), Be(n, width);
      assert l[1..] == Le(n / 256, width - 1);
      forall i | 0 <= i < width ensures l[width - 1 - i] == b[i] {
        if i < width - 1 { assert ReverseBytes(l[1..])[i] == Be(n / 256, width - 1)[i]; }
      }
    }
  }

  /** A number shifted right by k bytes. */
  function Shr(n: nat, k: nat): nat
    decreases k
  {
    if k == 0 then n else Shr(n / 256, k - 1)
  }

  lemma {:induction false} ShrStep(n: nat, k: nat)
    ensures Shr(n, k + 1) == Shr(n, k) / 256
    decreases k
  {
    if k > 0 { ShrStep(n / 256, k - 1); }
  }

  lemma {:induction false} LeStep(n: nat, width: nat)
    ensures Le(n, width + 1) == Le(n, width) + [Shr(n, width) % 256]
    decreases width
  {
    if width > 0 { LeStep(n / 256, width - 1); }
  }

  /** to_bytes: the bytes from the low end up, then turned round. */
  method ToBytes(value: nat, width: nat) returns (bytes: array<Byte>)
    ensures fresh(bytes) && bytes[..] == Be(value, width)
  {
    bytes := new Byte[width](_ => 0);
    var rest := value;
    for i := 0 to width
      invariant rest == Shr(value, i)
      invariant bytes[..i] == Le(value, i)
    {
      LeStep(value, i);
      ShrStep(value, i);
      bytes[i] := rest % 256;
      rest := rest / 256;
      assert bytes[..i + 1] == bytes[..i] + [bytes[i]];
    }
    ghost var low := bytes[..];
    assert low == Le(value, width);
    ReverseInPlace(bytes);
    ReverseLe(value, width);
  }

  method ReverseInPlace(a: array<Byte>)
    modifies a
    ensures a[..] == ReverseBytes(old(a[..]))
  {
    var i := 0;
    while i < a.Length / 2
      invariant 0 <= i <= a.Length / 2
      invariant forall k :: 0 <= k < i ==> a[k] == old(a[a.Length - 1 - k]) && a[a.Length - 1 - k] == old(a[k])
      invariant forall k :: i <= k < a.Length - i ==> a[k] == old(a[k])
    {
      a[i], a[a.Length - 1 - i] := a[a.Length - 1 - i], a[i];
      i := i + 1;
    }
  }

  /** uint64_to_bytes, of the type encoder. */
  method Uint64ToBytes(num: nat) returns (bytes: array<Byte>)
    ensures fresh(bytes) && bytes[..] == Le(num, 8)
  {
    bytes := new Byte[8](_ => 0);
    var i := 0;
    while i < 8
      invariant i <= 8 && bytes[..i] == Le(num, i)
    {
      LeStep(num, i);
      bytes[i] := Shr(num, i) % 256;
      assert bytes[..i + 1] == bytes[..i] + [bytes[i]];
      i := i + 1;
    }
    assert bytes[..] == bytes[..8];
  }

  /** fetch_uint: eight bytes at pc, which moves past them. */
  method FetchUint(code: seq<Byte>, pc: nat) returns (value: nat, next: nat)
    requires pc + 8 <= |code|
    ensures value == UnBe(code[pc..pc + 8]) && next == pc + 8 && value < TWO64
  {
    value, next := 0, pc;
    for i := 0 to 8
      invariant next == pc + i && value == UnBe(code[pc..next]) && value < Pow256(i)
    {
      assert code[pc..next + 1][..i] == code[pc..next];
      value := value * 256 + code[next];
      next := next + 1;
    }
    EightBytes();
  }

  /** read_uint_64, of the type decoder: each byte shifted to its place. */
  method ReadUint64(code: seq<Byte>, pos: nat) returns (size: nat)
    requires pos + 8 <= |code|
    ensures size == UnLe(code[pos..pos + 8])
  {
    size := 0;
    var i := 0;
    while i < 8
      invariant i <= 8 && size == UnLe(code[pos..pos + i])
    {
      UnLeStep(code[pos..pos + i], code[pos + i]);
      assert code[pos..pos + i + 1] == code[pos..pos + i] + [code[pos + i]];
      size := size + code[pos + i] * Pow256(i);
      i := i + 1;
    }
  }

  lemma {:induction false} UnLeStep(s: seq<Byte>, b: Byte)
    ensures UnLe(s + [b]) == UnLe(s) + b * Pow256(|s|)
    decreases |s|
  {
    if s != [] {
      UnLeStep(s[1..], b);
      assert (s + [b])[1..] == s[1..] + [b];
      assert 256 * (b * Pow256(|s| - 1)) == b * Pow256(|s|);
    } else {
      assert ([] + [b])[1..] == [];
    }
  }
}
