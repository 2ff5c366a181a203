/** Derivation paths as they are sent: little-endian 32-bit components, two to five of them. */
module Paths {
  import opened Base
  import opened ParserSpec
  import opened AppSpec

  /** `n` in `k` bytes, the least significant first. */
  function LittleEndian(n: nat, k: nat): (b: Bytes)
    ensures |b| == k && AllBytes(b)
  {
    if k == 0 then [] else [(n % 256) as char] + LittleEndian(n / 256, k - 1)
  }

  predicate Words(p: seq<nat>) { forall i | 0 <= i < |p| :: p[i] < 0x1_0000_0000 }

  /** The components of a path one after the other. */
  function PathBytes(p: seq<nat>): (b: Bytes)
    ensures |b| == 4 * |p| && AllBytes(b)
  {
    if p == [] then [] else LittleEndian(p[0], 4) + PathBytes(p[1..])
  }

  /** A path as the device keeps it: five components, the missing ones zero. */
  function Padded(p: seq<nat>): Path
    requires |p| <= 5
  {
    seq(5, i requires 0 <= i < 5 => if i < |p| then p[i] else 0)
  }

  // ---- One component ---------------------------------------------------------------------------

  lemma {:induction false} FourBytes(n: nat)
    ensures LittleEndian(n, 4) == [(n % 256) as char, (n / 256 % 256) as char, (n / 256 / 256 % 256) as char,
                                   (n / 256 / 256 / 256 % 256) as char]
  {
    var a, b, c := n / 256, n / 256 / 256, n / 256 / 256 / 256;
    assert LittleEndian(c, 1) == [(c % 256) as char] + LittleEndian(c / 256, 0);
    assert LittleEndian(b, 2) == [(b % 256) as char] + LittleEndian(c, 1);
    assert LittleEndian(a, 3) == [(a % 256) as char] + LittleEndian(b, 2);
    assert LittleEndian(n, 4) == [(n % 256) as char] + LittleEndian(a, 3);
  }

  /** A number below 2^32 from its bytes. */
  lemma {:induction false} BytesOf(n: nat, a: nat, b: nat, c: nat, d: nat)
    requires a < 256 && b < 256 && c < 256 && d < 256 && n == a + 0x100 * b + 0x1_0000 * c + 0x100_0000 * d
    ensures n % 256 == a && n / 256 % 256 == b && n / 256 / 256 % 256 == c && n / 256 / 256 / 256 % 256 == d
  {
    assert n == a + 256 * (b + 256 * (c + 256 * d));
    assert n / 256 == b + 256 * (c + 256 * d);
    assert n / 256 / 256 == c + 256 * d;
    assert n / 256 / 256 / 256 == d;
  }

  lemma {:induction false} NumberOf(n: nat)
    requires n < 0x1_0000_0000
    ensures n % 256 + 0x100 * (n / 256 % 256) + 0x1_0000 * (n / 256 / 256 % 256) +
            0x100_0000 * (n / 256 / 256 / 256 % 256) == n
  {
    assert n / 256 / 256 / 256 < 256;
  }

  lemma {:induction false} WordIs(b: Bytes, i: nat)
    requires i + 4 <= |b| && AllBytes(b)
    ensures Le32(b, i) ==
            b[i] as int + 0x100 * b[i + 1] as int + 0x1_0000 * b[i + 2] as int + 0x100_0000 * b[i + 3] as int
  {
  }

  predicate BytesAre(n: nat, a: nat, b: nat, c: nat, d: nat) {
    n % 256 == a && n / 256 % 256 == b && n / 256 / 256 % 256 == c && n / 256 / 256 / 256 % 256 == d
  }

  lemma {:induction false} SameBytes(n: nat, a: nat, b: nat, c: nat, d: nat)
    requires a < 256 && b < 256 && c < 256 && d < 256 && n < 0x1_0000_0000
    ensures n == a + 0x100 * b + 0x1_0000 * c + 0x100_0000 * d <==> BytesAre(n, a, b, c, d)
  {
    NumberOf(n);
    if n == a + 0x100 * b + 0x1_0000 * c + 0x100_0000 * d { BytesOf(n, a, b, c, d); }
  }

  lemma {:induction false} FourAre(w: Bytes, n: nat)
    requires |w| == 4 && AllBytes(w)
    ensures w == LittleEndian(n, 4) <==> BytesAre(n, w[0] as int, w[1] as int, w[2] as int, w[3] as int)
  {
    hide LittleEndian;
    FourBytes(n);
    var e := LittleEndian(n, 4);
    assert w == e <==> w[0] == e[0] && w[1] == e[1] && w[2] == e[2] && w[3] == e[3];
  }

  /** Four bytes are the number that they encode. */
  lemma {:induction false} ReadsWord(b: Bytes, i: nat, n: nat)
    requires i + 4 <= |b| && AllBytes(b) && n < 0x1_0000_0000
    ensures Le32(b, i) == n <==> b[i..i + 4] == LittleEndian(n, 4)
  {
    hide LittleEndian, Le32, BytesAre;
    var w := b[i..i + 4];
    assert w[0] == b[i] && w[1] == b[i + 1] && w[2] == b[i + 2] && w[3] == b[i + 3];
    WordIs(b, i);
    SameBytes(n, b[i] as int, b[i + 1] as int, b[i + 2] as int, b[i + 3] as int);
    FourAre(w, n);
  }

  // ---- The path --------------------------------------------------------------------------------

  lemma {:induction false} WordsBefore(b: Bytes, i: nat, p: seq<nat>)
    requires p != [] && i + 4 * |p| <= |b|
    ensures b[i..i + 4 * |p|] == PathBytes(p) <==>
            b[i..i + 4] == LittleEndian(p[0], 4) && b[i + 4..i + 4 * |p|] == PathBytes(p[1..])
  {
    hide LittleEndian;
    var all, rest := b[i..i + 4 * |p|], PathBytes(p[1..]);
    assert all == b[i..i + 4] + b[i + 4..i + 4 * |p|];
    assert all[..4] == b[i..i + 4] && all[4..] == b[i + 4..i + 4 * |p|];
    assert PathBytes(p)[..4] == LittleEndian(p[0], 4) && PathBytes(p)[4..] == rest;
  }

  /** Every component is where it should be. */
  predicate WordsAt(b: Bytes, i: nat, p: seq<nat>)
    requires i + 4 * |p| <= |b|
  {
    forall k | 0 <= k < |p| :: Le32(b, i + 4 * k) == p[k]
  }

  lemma {:induction false} ReadsWords(b: Bytes, i: nat, p: seq<nat>)
    requires i + 4 * |p| <= |b| && AllBytes(b) && Words(p)
    ensures b[i..i + 4 * |p|] == PathBytes(p) <==> WordsAt(b, i, p)
    decreases |p|
  {
    hide Le32, LittleEndian;
    if p == [] {
      assert b[i..i] == [];
    } else {
      WordsBefore(b, i, p);
      ReadsWord(b, i, p[0]);
      ReadsWords(b, i + 4, p[1..]);
      SplitWords(b, i, p);
    }
  }

  lemma {:induction false} SplitWords(b: Bytes, i: nat, p: seq<nat>)
    requires p != [] && i + 4 * |p| <= |b|
    ensures WordsAt(b, i, p) <==> Le32(b, i) == p[0] && WordsAt(b, i + 4, p[1..])
  {
    hide Le32;
    if Le32(b, i) == p[0] && WordsAt(b, i + 4, p[1..]) {
      forall k | 0 <= k < |p| ensures Le32(b, i + 4 * k) == p[k] {
        if k > 0 { assert Le32(b, i + 4 + 4 * (k - 1)) == p[1..][k - 1]; }
      }
    }
    if WordsAt(b, i, p) {
      forall k | 0 <= k < |p| - 1 ensures Le32(b, i + 4 + 4 * k) == p[1..][k] {
        assert Le32(b, i + 4 * (k + 1)) == p[k + 1];
      }
    }
  }

  /** Bytes are read as a path exactly if they encode it: its components, then zeros. */
  lemma {:induction false} ReadsPath(b: Bytes, i: nat, p: seq<nat>)
    requires |p| <= 5 && i + 4 * |p| <= |b| && AllBytes(b) && Words(p)
    ensures b[i..i + 4 * |p|] == PathBytes(p) <==> PathAt(b, i, |p|) == Padded(p)
  {
    hide Le32, PathBytes;
    ReadsWords(b, i, p);
    var read, all := PathAt(b, i, |p|), Padded(p);
    if read == all {
      forall k | 0 <= k < |p| ensures Le32(b, i + 4 * k) == p[k] { assert read[k] == all[k]; }
    }
  }

  /** And what is read is encoded there. */
  lemma {:induction false} EncodesPath(b: Bytes, i: nat, n: nat) returns (p: seq<nat>)
    requires n <= 5 && i + 4 * n <= |b| && AllBytes(b)
    ensures |p| == n && Words(p) && b[i..i + 4 * n] == PathBytes(p) && PathAt(b, i, n) == Padded(p)
  {
    p := seq(n, k requires 0 <= k < n => Le32(b, i + 4 * k));
    forall k | 0 <= k < n ensures p[k] < 0x1_0000_0000 { WordBound(b, i + 4 * k); }
    ReadsWords(b, i, p);
    ReadsPath(b, i, p);
  }

  lemma {:induction false} WordBound(b: Bytes, i: nat)
    requires i + 4 <= |b|
    ensures Le32(b, i) < 0x1_0000_0000
  {
  }
}
