/** Bytes, and numbers in network byte order. */
module Bytes {

  newtype Byte = b: int | 0 <= b < 256

  function U16(v: int): (r: seq<Byte>)
    ensures |r| == 2
  {
    [(v / 256 % 256) as Byte, (v % 256) as Byte]
  }

  function U32(v: int): (r: seq<Byte>)
    ensures |r| == 4
  {
    U16(v / 0x1_0000) + U16(v)
  }

  function GetU16(s: seq<Byte>): nat
    requires |s| >= 2
  {
    s[0] as nat * 256 + s[1] as nat
  }

  function GetU32(s: seq<Byte>): nat
    requires |s| >= 4
  {
    GetU16(s) * 0x1_0000 + GetU16(s[2..])
  }

  function Zero(n: nat): (r: seq<Byte>)
    ensures |r| == n
  {
    seq(n, _ => 0)
  }

  /** A copy of `bytes` into `s` at `at`, as memcpy makes it. */
  function Overwrite(s: seq<Byte>, at: nat, bytes: seq<Byte>): (r: seq<Byte>)
    requires at + |bytes| <= |s|
    ensures |r| == |s|
  {
    s[..at] + bytes + s[at + |bytes|..]
  }

  lemma OverwriteTwice(s: seq<Byte>, at: nat, a: seq<Byte>, b: seq<Byte>)
    requires at + |a| + |b| <= |s|
    ensures Overwrite(Overwrite(s, at, a), at + |a|, b) == Overwrite(s, at, a + b)
  {
  }

  method Copy(buffer: array<Byte>, at: nat, bytes: seq<Byte>)
    requires at + |bytes| <= buffer.Length
    modifies buffer
    ensures buffer[..] == Overwrite(old(buffer[..]), at, bytes)
  {
    forall j | 0 <= j < |bytes| { buffer[at + j] := bytes[j]; }
  }

  lemma GetU16Of(v: int, rest: seq<Byte>)
    ensures GetU16(U16(v) + rest) == v % 0x1_0000
    ensures (U16(v) + rest)[2..] == rest
  {
    assert v % 0x1_0000 == v / 256 % 256 * 256 + v % 256;
  }

  lemma GetU32Of(v: int, rest: seq<Byte>)
    ensures GetU32(U32(v) + rest) == v % 0x1_0000_0000
    ensures (U32(v) + rest)[4..] == rest
  {
    assert U32(v) + rest == U16(v / 0x1_0000) + (U16(v) + rest);
    GetU16Of(v / 0x1_0000, U16(v) + rest);
    GetU16Of(v, rest);
  }

  /** The highest byte comes first. */
  lemma NetworkOrder(v: nat)
    requires v < 0x1_0000_0000
    ensures var b := U32(v); v == b[0] as nat * 0x100_0000 + b[1] as nat * 0x1_0000 + b[2] as nat * 0x100 + b[3] as nat
  {
    GetU32Of(v, []);
    assert U32(v) + [] == U32(v) && U32(v)[2..] == U16(v);
  }

  lemma TwoWords(a: int, b: int, tail: seq<Byte>, s: seq<Byte>)
    requires s == U16(a) + U16(b) + tail
    ensures GetU16(s) == a % 0x1_0000 && GetU16(s[2..]) == b % 0x1_0000 && s[4..] == tail
  {
    assert s == U16(a) + (U16(b) + tail);
    GetU16Of(a, U16(b) + tail);
    GetU16Of(b, tail);
  }

  // ---------- Pieces laid end to end ----------

  function Joined(parts: seq<seq<Byte>>): seq<Byte> {
    if parts == [] then [] else Joined(parts[..|parts| - 1]) + parts[|parts| - 1]
  }

  /** n pieces of a list, from the q-th on. */
  function Pieces(all: seq<seq<Byte>>, q: nat, n: nat): seq<Byte>
    requires q + n <= |all|
  {
    Joined(all[q..q + n])
  }

  lemma PiecesNext(all: seq<seq<Byte>>, q: nat, n: nat)
    requires q + n < |all|
    ensures Pieces(all, q, n + 1) == Pieces(all, q, n) + all[q + n]
  {
    assert all[q..q + n + 1][..n] == all[q..q + n];
  }

  lemma {:induction false} PiecesLength(all: seq<seq<Byte>>, q: nat, n: nat, size: nat)
    requires q + n <= |all| && forall x | 0 <= x < |all| :: |all[x]| == size
    ensures |Pieces(all, q, n)| == n * size
  {
    if n > 0 {
      PiecesLength(all, q, n - 1, size);
      PiecesNext(all, q, n - 1);
      assert n * size == (n - 1) * size + size;
    }
  }

  lemma {:induction false} PiecesStart(all: seq<seq<Byte>>, q: nat, n: nat, j: nat)
    requires j <= n && q + n <= |all|
    ensures Pieces(all, q, j) <= Pieces(all, q, n)
  {
    if j < n {
      PiecesStart(all, q, n - 1, j);
      PiecesNext(all, q, n - 1);
    }
  }

  /** Of pieces of one size, piece j starts j sizes into the run. */
  lemma PieceAt(all: seq<seq<Byte>>, q: nat, n: nat, j: nat, size: nat)
    requires j < n && q + n <= |all| && forall x | 0 <= x < |all| :: |all[x]| == size
    ensures 0 <= j * size <= j * size + size <= |Pieces(all, q, n)|
    ensures Pieces(all, q, n)[j * size..j * size + size] == all[q + j]
  {
    PiecesStart(all, q, n, j + 1);
    PiecesNext(all, q, j);
    PiecesLength(all, q, j, size);
    PrefixEnds(Pieces(all, q, n), Pieces(all, q, j), all[q + j]);
  }

  lemma PrefixEnds(s: seq<Byte>, a: seq<Byte>, x: seq<Byte>)
    requires a + x <= s
    ensures |a| + |x| <= |s| && s[|a|..|a| + |x|] == x
  {
    assert s[..|a + x|] == a + x;
  }

  // ---------- Lists of byte strings ----------

  function List(f: nat --> seq<Byte>, n: nat): (r: seq<seq<Byte>>)
    requires forall k: nat | k < n :: f.requires(k)
    ensures |r| == n && forall k | 0 <= k < n :: r[k] == f(k)
  {
    seq(n, k requires 0 <= k < n && f.requires(k) => f(k))
  }

  lemma ListNext(f: nat --> seq<Byte>, n: nat)
    requires forall k: nat | k <= n :: f.requires(k)
    ensures List(f, n + 1) == List(f, n) + [f(n)]
  {
  }
}
