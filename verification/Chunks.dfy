/** A buffer cut into chunks of equal size, and the flat byte sequence it stands for. */
module Chunks {
  type byte = x: int | 0 <= x < 256

  /** `old` with `data` written over it at position `at`. */
  function Splice(old_: seq<byte>, at: nat, data: seq<byte>): (r: seq<byte>)
    requires at + |data| <= |old_|
    ensures |r| == |old_|
  {
    old_[..at] + data + old_[at + |data|..]
  }

  // Positions are taken apart by counting whole chunks, which keeps the proofs linear; DivideIsDivision
  // ties the counts to division and remainder.

  /** The flat position at which chunk number `i` starts. */
  function Start(i: nat, base: nat): nat {
    if i == 0 then 0 else Start(i - 1, base) + base
  }

  /** The number of the chunk that holds position `p`. */
  function NodeOf(p: nat, base: nat): nat {
    if base == 0 || p < base then 0 else NodeOf(p - base, base) + 1
  }

  /** The offset of position `p` in its chunk. */
  function Rem(p: nat, base: nat): nat {
    if base == 0 || p < base then p else Rem(p - base, base)
  }

  lemma {:induction false} DivideIsDivision(p: nat, base: nat)
    requires base >= 1
    ensures NodeOf(p, base) == p / base && Rem(p, base) == p % base
  {
    if p >= base {
      DivideIsDivision(p - base, base);
      var q, r := (p - base) / base, (p - base) % base;
      assert p == (q + 1) * base + r;
      QuotientUnique(p, base, q + 1, r);
    }
  }

  lemma TimesAtLeast(d: nat, base: nat)
    requires d >= 1
    ensures d * base >= base
  {
    assert d * base == base + (d - 1) * base;
  }

  lemma LargeMultiple(d: int, base: nat)
    requires d != 0
    ensures d * base >= base || -d * base >= base
  {
    if d > 0 { TimesAtLeast(d, base); } else { TimesAtLeast(-d, base); }
  }

  lemma QuotientUnique(p: nat, base: nat, q: nat, r: nat)
    requires base >= 1 && p == q * base + r && r < base
    ensures p / base == q && p % base == r
  {
    assert p == base * (p / base) + p % base;
    assert (q - p / base) * base == p % base - r;
    if q != p / base {
      LargeMultiple(q - p / base, base);
    }
  }

  /** Every position is its chunk's start plus its offset. */
  lemma {:induction false} Divide(p: nat, base: nat)
    requires base >= 1
    ensures p == Start(NodeOf(p, base), base) + Rem(p, base) && Rem(p, base) < base
  {
    if p >= base {
      Divide(p - base, base);
    }
  }

  /** And there is only one way to write it so. */
  lemma {:induction false} Locate(i: nat, base: nat, off: nat)
    requires off < base
    ensures NodeOf(Start(i, base) + off, base) == i && Rem(Start(i, base) + off, base) == off
  {
    if i > 0 {
      Locate(i - 1, base, off);
    }
  }

  lemma {:induction false} StartMonotone(i: nat, j: nat, base: nat)
    requires i <= j
    ensures Start(i, base) <= Start(j, base)
    ensures i < j ==> Start(i, base) + base <= Start(j, base)
    decreases j
  {
    if i < j {
      StartMonotone(i, j - 1, base);
    }
  }

  lemma {:induction false} StartAdd(i: nat, k: nat, base: nat)
    ensures Start(i + k, base) == Start(i, base) + Start(k, base)
  {
    if k > 0 {
      StartAdd(i, k - 1, base);
    }
  }

  ghost predicate Even(chunks: seq<seq<byte>>, base: nat) {
    forall i :: 0 <= i < |chunks| ==> |chunks[i]| == base
  }

  ghost function Flatten(chunks: seq<seq<byte>>): seq<byte> {
    if chunks == [] then [] else chunks[0] + Flatten(chunks[1..])
  }

  lemma {:induction false} FlattenLength(chunks: seq<seq<byte>>, base: nat)
    requires Even(chunks, base)
    ensures |Flatten(chunks)| == Start(|chunks|, base)
  {
    if chunks != [] {
      FlattenLength(chunks[1..], base);
    }
  }

  /** A piece of one chunk is a piece of the flat sequence. */
  lemma {:induction false} FlattenSlice(chunks: seq<seq<byte>>, base: nat, i: nat, off: nat, m: nat)
    requires Even(chunks, base) && i < |chunks| && off + m <= base
    ensures Start(i, base) + off + m <= |Flatten(chunks)|
    ensures Flatten(chunks)[Start(i, base) + off..Start(i, base) + off + m] == chunks[i][off..off + m]
  {
    var rest := chunks[1..];
    if i > 0 {
      FlattenSlice(rest, base, i - 1, off, m);
      StartAdd(1, i - 1, base);
      var s := Start(i - 1, base) + off;
      assert Flatten(chunks)[base + s..base + s + m] == Flatten(rest)[s..s + m];
    } else {
      assert Flatten(chunks)[off..off + m] == chunks[0][off..off + m];
    }
  }

  /** Writing into one chunk writes into the flat sequence. */
  lemma {:induction false} FlattenUpdate(chunks: seq<seq<byte>>, base: nat, i: nat, off: nat, data: seq<byte>)
    requires Even(chunks, base) && i < |chunks| && off + |data| <= base
    ensures Start(i, base) + off + |data| <= |Flatten(chunks)|
    ensures Flatten(chunks[i := Splice(chunks[i], off, data)]) == Splice(Flatten(chunks), Start(i, base) + off, data)
  {
    var chunk := Splice(chunks[i], off, data);
    var rest := chunks[1..];
    if i > 0 {
      FlattenUpdate(rest, base, i - 1, off, data);
      assert chunks[i := chunk][1..] == rest[i - 1 := chunk];
      StartAdd(1, i - 1, base);
      var s := Start(i - 1, base) + off;
      assert chunks[0] + Splice(Flatten(rest), s, data) == Splice(chunks[0] + Flatten(rest), base + s, data);
    } else {
      assert chunks[0 := chunk][1..] == rest;
      assert chunk + Flatten(rest) == Splice(chunks[0] + Flatten(rest), off, data);
    }
  }

  lemma {:induction false} FlattenConcat(a: seq<seq<byte>>, b: seq<seq<byte>>)
    ensures Flatten(a + b) == Flatten(a) + Flatten(b)
  {
    if a == [] {
      assert a + b == b;
    } else {
      assert (a + b)[1..] == a[1..] + b;
      FlattenConcat(a[1..], b);
    }
  }

  /** Writing two adjacent pieces is writing their concatenation. */
  lemma SpliceTwice(s: seq<byte>, at: nat, a: seq<byte>, b: seq<byte>)
    requires at + |a| + |b| <= |s|
    ensures Splice(Splice(s, at, a), at + |a|, b) == Splice(s, at, a + b)
  {
  }
}
