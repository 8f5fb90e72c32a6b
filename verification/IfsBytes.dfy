/** Little-endian fields of the image file system, as byte sequences. */
module IfsBytes {

  type Byte = x: int | 0 <= x < 256 witness 0

  const U16_MOD: nat := 0x1_0000
  const U32_MOD: nat := 0x1_0000_0000

  function U16(n: nat): (s: seq<Byte>)
    ensures |s| == 2
  {
    [n % 256, n / 256 % 256]
  }

  function U32(n: nat): (s: seq<Byte>)
    ensures |s| == 4
  {
    [n % 256, n / 256 % 256, n / 65536 % 256, n / 16777216 % 256]
  }

  function Get16(s: seq<Byte>, at: nat): (n: nat)
    requires at + 2 <= |s|
    ensures n < U16_MOD
  {
    var a: nat, b: nat := s[at], s[at + 1];
    a + 256 * b
  }

  function Get32(s: seq<Byte>, at: nat): (n: nat)
    requires at + 4 <= |s|
    ensures n < U32_MOD
  {
    var a: nat, b: nat, c: nat, d: nat := s[at], s[at + 1], s[at + 2], s[at + 3];
    a + 256 * b + 65536 * c + 16777216 * d
  }

  function Fill(n: nat): (s: seq<Byte>)
    ensures |s| == n && forall i :: 0 <= i < n ==> s[i] == 0
  {
    seq(n, _ => 0)
  }

  /** The padding that rounds n up to a multiple of four. */
  function PadLen(n: nat): (p: nat)
    ensures p < 4 && (n + p) % 4 == 0
  {
    (4 - n % 4) % 4
  }

  /** s stands at position at. */
  ghost predicate Stands(data: seq<Byte>, at: nat, s: seq<Byte>) {
    at + |s| <= |data| && data[at..at + |s|] == s
  }

  lemma StandsSplit(data: seq<Byte>, at: nat, s: seq<Byte>, t: seq<Byte>)
    requires Stands(data, at, s + t)
    ensures Stands(data, at, s) && Stands(data, at + |s|, t)
  {
    assert data[at..at + |s|] == data[at..at + |s + t|][..|s|];
    assert data[at + |s|..at + |s| + |t|] == data[at..at + |s + t|][|s|..];
  }

  lemma StandsInside(data: seq<Byte>, at: nat, s: seq<Byte>, k: nat, t: seq<Byte>)
    requires Stands(data, at, s) && Stands(s, k, t)
    ensures Stands(data, at + k, t)
  {
    StandsAt(data, at, s);
    StandsAt(s, k, t);
    forall i | 0 <= i < |t| ensures data[at + k + i] == t[i] {
      var j := k + i;
      assert data[at + j] == s[j];
    }
  }

  lemma StandsAt(data: seq<Byte>, at: nat, s: seq<Byte>)
    requires Stands(data, at, s)
    ensures forall i :: 0 <= i < |s| ==> data[at + i] == s[i]
  {
    forall i | 0 <= i < |s| ensures data[at + i] == s[i] {
      assert data[at..at + |s|][i] == s[i];
    }
  }

  lemma Back16(data: seq<Byte>, at: nat, n: nat)
    requires Stands(data, at, U16(n)) && n < U16_MOD
    ensures Get16(data, at) == n
  {
    StandsAt(data, at, U16(n));
    assert data[at + 0] == n % 256 && data[at + 1] == n / 256 % 256;
  }

  lemma Back32(data: seq<Byte>, at: nat, n: nat)
    requires Stands(data, at, U32(n)) && n < U32_MOD
    ensures Get32(data, at) == n
  {
    StandsAt(data, at, U32(n));
    assert data[at + 0] == n % 256 && data[at + 1] == n / 256 % 256;
    assert data[at + 2] == n / 65536 % 256 && data[at + 3] == n / 16777216 % 256;
    assert n / 65536 == n / 256 / 256 && n / 16777216 == n / 256 / 256 / 256;
  }
}
