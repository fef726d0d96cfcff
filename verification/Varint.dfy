/** Base-128 variable-length integers and zigzag, as arithmetic on unsigned numbers of `w` bits. */
module Varints {
  import opened Prelude
  import opened Chunks

  function Pow2(i: nat): (r: nat)
    ensures r >= 1
  {
    if i == 0 then 1 else 2 * Pow2(i - 1)
  }

  lemma {:induction false} Pow2Monotone(i: nat, j: nat)
    requires i <= j
    ensures Pow2(i) <= Pow2(j) && (i < j ==> 2 * Pow2(i) <= Pow2(j))
    decreases j
  {
    if i < j {
      Pow2Monotone(i, j - 1);
    }
  }

  /** v << i. */
  function Shl(v: nat, i: nat): nat {
    if i == 0 then v else 2 * Shl(v, i - 1)
  }

  lemma {:induction false} ShlOne(i: nat)
    ensures Shl(1, i) == Pow2(i)
  {
    if i > 0 {
      ShlOne(i - 1);
    }
  }

  lemma {:induction false} ShlPlus(a: nat, b: nat, i: nat)
    ensures Shl(a + b, i) == Shl(a, i) + Shl(b, i)
  {
    if i > 0 {
      ShlPlus(a, b, i - 1);
    }
  }

  lemma {:induction false} ShlDouble(v: nat, i: nat)
    ensures Shl(2 * v, i) == Shl(v, i + 1)
  {
    if i > 0 {
      ShlDouble(v, i - 1);
    }
  }

  /** Seven bits of the number are seven places of the shift. */
  lemma ShlSeven(v: nat, i: nat)
    ensures Shl(128 * v, i) == Shl(v, i + 7)
  {
    ShlDouble(64 * v, i);
    ShlDouble(32 * v, i + 1);
    ShlDouble(16 * v, i + 2);
    ShlDouble(8 * v, i + 3);
    ShlDouble(4 * v, i + 4);
    ShlDouble(2 * v, i + 5);
    ShlDouble(v, i + 6);
  }

  lemma {:induction false} ShlAtLeast(v: nat, i: nat)
    requires v >= 1
    ensures Shl(v, i) >= Pow2(i)
  {
    if i > 0 {
      ShlAtLeast(v, i - 1);
    }
  }

  /** The low seven bits and the rest, each shifted into its place. */
  lemma ShlSplit(v: nat, i: nat)
    ensures Shl(v, i) == Shl(v % 128, i) + Shl(v / 128, i + 7)
    ensures v >= 128 ==> Shl(v, i) >= Pow2(i + 7)
  {
    ShlPlus(v % 128, 128 * (v / 128), i);
    ShlSeven(v / 128, i);
    assert v == v % 128 + 128 * (v / 128);
    if v >= 128 {
      ShlAtLeast(v / 128, i + 7);
    }
  }

  /** The low `w` bits of a number in two's complement: what every cast and every `<<` keeps. */
  function Wrap(v: int, w: nat): (u: nat)
    ensures u < Pow2(w)
    decreases w
  {
    if w == 0 then 0 else v % 2 + 2 * Wrap(v / 2, w - 1)
  }

  lemma {:induction false} WrapOf(v: int, w: nat)
    ensures 0 <= v < Pow2(w) ==> Wrap(v, w) == v
    ensures 0 <= v + Pow2(w) < Pow2(w) ==> Wrap(v, w) == v + Pow2(w)
    ensures Pow2(w) <= v < 2 * Pow2(w) ==> Wrap(v, w) == v - Pow2(w)
    decreases w
  {
    if w > 0 {
      WrapOf(v / 2, w - 1);
    }
  }

  // ------------------------------------------------------------ bitwise operators

  function BitOr(a: nat, b: nat): nat {
    if a == 0 && b == 0 then 0
    else (if a % 2 == 1 || b % 2 == 1 then 1 else 0) + 2 * BitOr(a / 2, b / 2)
  }

  function BitXor(a: nat, b: nat): nat {
    if a == 0 && b == 0 then 0
    else (if a % 2 != b % 2 then 1 else 0) + 2 * BitXor(a / 2, b / 2)
  }

  /** Or-ing in bits above the ones set adds them. */
  lemma {:induction false} OrIsPlus(a: nat, b: nat, i: nat)
    requires a < Pow2(i)
    ensures BitOr(a, Shl(b, i)) == a + Shl(b, i)
  {
    if i == 0 {
      OrZero(b);
    } else {
      OrIsPlus(a / 2, b, i - 1);
    }
  }

  lemma {:induction false} OrZero(b: nat)
    ensures BitOr(0, b) == b
  {
    if b > 0 {
      OrZero(b / 2);
    }
  }

  lemma {:induction false} XorZero(a: nat)
    ensures BitXor(a, 0) == a
  {
    if a > 0 {
      XorZero(a / 2);
    }
  }

  lemma XorStep(a: nat, b: nat)
    ensures BitXor(a, b) == (if a % 2 != b % 2 then 1 else 0) + 2 * BitXor(a / 2, b / 2)
  {
  }

  /** Xor-ing with all ones flips every bit. */
  lemma {:induction false} XorOnes(a: nat, w: nat)
    requires a < Pow2(w)
    ensures BitXor(a, Pow2(w) - 1) == Pow2(w) - 1 - a
  {
    if w > 0 {
      XorOnes(a / 2, w - 1);
      var b := Pow2(w) - 1;
      assert b == 2 * (Pow2(w - 1) - 1) + 1 && b / 2 == Pow2(w - 1) - 1 && b % 2 == 1;
      XorStep(a, b);
    }
  }

  // ------------------------------------------------------------ zigzag

  /** The signed value of the low `w` bits. */
  function Signed(u: int, w: nat): int {
    var m := Wrap(u, w);
    if 2 * m >= Pow2(w) then m - Pow2(w) else m
  }

  predicate InRange(v: int, w: nat) {
    0 <= 2 * v + Pow2(w) < 2 * Pow2(w)
  }

  function EncodeZigzag(v: int, w: nat): (u: nat)
    ensures u < Pow2(w)
  {
    if v < 0 then Wrap(Wrap(-v, w) * 2 - 1, w) else Wrap(v * 2, w)
  }

  function DecodeZigzag(u: nat, w: nat): int {
    Signed(BitXor(u / 2, Wrap(-(u % 2), w)), w)
  }

  /** Zigzag without wrap-around: the numbers 0, -1, 1, -2, 2 ... in turn. */
  lemma ZigzagMeaning(v: int, w: nat)
    requires w >= 1 && InRange(v, w)
    ensures EncodeZigzag(v, w) == if v < 0 then -2 * v - 1 else 2 * v
  {
    if v < 0 {
      WrapOf(-v, w);
      WrapOf(-v * 2 - 1, w);
    } else {
      WrapOf(v * 2, w);
    }
  }

  lemma UnzigzagOdd(u: nat, w: nat)
    requires w >= 1 && u < Pow2(w) && u % 2 == 1
    ensures DecodeZigzag(u, w) == -(u / 2) - 1
  {
    var h := u / 2;
    WrapOf(-1, w);
    XorOnes(h, w);
    WrapOf(Pow2(w) - 1 - h, w);
  }

  /** What decoding yields: even numbers up, odd numbers down. */
  lemma UnzigzagMeaning(u: nat, w: nat)
    requires w >= 1 && u < Pow2(w)
    ensures DecodeZigzag(u, w) == if u % 2 == 0 then u / 2 else -(u / 2) - 1
  {
    if u % 2 == 1 {
      UnzigzagOdd(u, w);
    } else {
      assert Pow2(w) == 2 * Pow2(w - 1);
      WrapOf(0, w);
      XorZero(u / 2);
      WrapOf(u / 2, w);
    }
  }

  /** Zigzag is a bijection between the signed and the unsigned numbers of w bits, the minimum included. */
  lemma ZigzagRoundTrip(v: int, w: nat)
    requires w >= 1 && InRange(v, w)
    ensures DecodeZigzag(EncodeZigzag(v, w), w) == v
  {
    ZigzagMeaning(v, w);
    UnzigzagMeaning(EncodeZigzag(v, w), w);
  }

  lemma UnzigzagRoundTrip(u: nat, w: nat)
    requires w >= 1 && u < Pow2(w)
    ensures InRange(DecodeZigzag(u, w), w) && EncodeZigzag(DecodeZigzag(u, w), w) == u
  {
    assert Pow2(w) == 2 * Pow2(w - 1);
    UnzigzagMeaning(u, w);
    ZigzagMeaning(DecodeZigzag(u, w), w);
  }

  // ------------------------------------------------------------ base 128

  lemma Pow2Seven(i: nat)
    ensures Pow2(i + 7) == 128 * Pow2(i)
  {
    assert Pow2(i + 7) == 2 * Pow2(i + 6) && Pow2(i + 6) == 2 * Pow2(i + 5) && Pow2(i + 5) == 2 * Pow2(i + 4);
    assert Pow2(i + 4) == 2 * Pow2(i + 3) && Pow2(i + 3) == 2 * Pow2(i + 2) && Pow2(i + 2) == 2 * Pow2(i + 1);
  }

  /** The encoding: seven bits a byte, lowest first, the top bit set on all but the last. */
  function EncodeVarint(v: nat): (s: seq<byte>)
    ensures |s| >= 1
  {
    if v < 128 then [v] else [v % 128 + 128] + EncodeVarint(v / 128)
  }

  /** What the writers' loop produces: it stops before the last group. */
  function AsWritten(v: nat): seq<byte> {
    if v < 128 then [] else [v % 128 + 128] + AsWritten(v / 128)
  }

  function LastGroup(v: nat): byte {
    if v < 128 then v else LastGroup(v / 128)
  }

  /** The writers drop exactly the last byte of the encoding. */
  lemma {:induction false} WriterDropsLast(v: nat)
    ensures AsWritten(v) + [LastGroup(v)] == EncodeVarint(v)
    ensures LastGroup(v) < 128 && forall b :: b in AsWritten(v) ==> b >= 128
  {
    if v >= 128 {
      WriterDropsLast(v / 128);
      assert AsWritten(v) + [LastGroup(v)] == [v % 128 + 128] + (AsWritten(v / 128) + [LastGroup(v / 128)]);
    }
  }

  /** v >> 7k. */
  function GroupsFrom(v: nat, k: nat): nat {
    if k == 0 then v else GroupsFrom(v / 128, k - 1)
  }

  /** The encoding by its places: byte k holds bits 7k to 7k + 6, and its top bit says that another byte follows; the last
      byte holds the last bits that are not zero. */
  lemma {:induction false} EncodeAt(v: nat, k: nat)
    requires k < |EncodeVarint(v)|
    ensures EncodeVarint(v)[k] == GroupsFrom(v, k) % 128 + if k + 1 < |EncodeVarint(v)| then 128 else 0
    ensures k + 1 == |EncodeVarint(v)| <==> GroupsFrom(v, k) < 128
  {
    if k > 0 {
      EncodeAt(v / 128, k - 1);
    }
  }

  /** A number below 2^(7k) takes at most k bytes. */
  lemma {:induction false} EncodeFits(v: nat, k: nat)
    requires k >= 1 && v < Pow2(7 * k)
    ensures |EncodeVarint(v)| <= k
  {
    if v >= 128 {
      Pow2Seven(7 * (k - 1));
      EncodeFits(v / 128, k - 1);
    }
  }

  /** At most 5 bytes for 32 bits, 10 for 64. */
  lemma EncodeBounds(v: nat)
    ensures v < Pow2(32) ==> |EncodeVarint(v)| <= 5
    ensures v < Pow2(64) ==> |EncodeVarint(v)| <= 10
  {
    Pow2Monotone(32, 35);
    Pow2Monotone(64, 70);
    if v < Pow2(32) { EncodeFits(v, 5); }
    if v < Pow2(64) { EncodeFits(v, 10); }
  }

  /** What a reader of `w` bits makes of the bytes `s` from bit `i` on: the value of the remaining groups and
      how many bytes they take, or None when the bytes run out. Bits past w are cut off. */
  function DecodeVarint(s: seq<byte>, i: nat, w: nat): (r: Option<(nat, nat)>)
    ensures r.Some? ==> r.value.1 <= |s|
    decreases |s|
  {
    if i >= w then Some((0, 0))
    else if s == [] then None
    else if s[0] < 128 then Some((Wrap(Shl(s[0], i), w), 1))
    else
      match DecodeVarint(s[1..], i + 7, w)
      case None => None
      case Some((v, n)) => Some((Wrap(Shl(s[0] % 128, i), w) + v, n + 1))
  }

  /** What the low seven bits of the bytes spell, the first byte lowest. */
  function Spelled(s: seq<byte>): nat {
    if s == [] then 0 else s[0] % 128 + 128 * Spelled(s[1..])
  }

  /** Cutting a number cuts its upper part where the lower part fits, and the lower part where it does not. */
  lemma {:induction false} WrapSplit(x: nat, y: nat, j: nat, m: nat)
    requires x < Pow2(j)
    ensures Wrap(x + Shl(y, j), m) == if m >= j then x + Shl(Wrap(y, m - j), j) else Wrap(x, m)
    decreases j
  {
    if j > 0 && m > 0 {
      WrapSplit(x / 2, y, j - 1, m - 1);
      PlusEven(x, Shl(y, j - 1));
    }
  }

  /** Any bytes at all: the reader stops behind the first byte whose top bit is clear, or once it has `w` bits, and what
      it makes of those bytes is what they spell, cut to `w` bits; it runs out exactly if neither comes. */
  lemma {:induction false} DecodeMeaning(s: seq<byte>, i: nat, w: nat)
    ensures match DecodeVarint(s, i, w)
      case None => i + 7 * |s| < w && forall k :: 0 <= k < |s| ==> s[k] >= 128
      case Some((v, n)) =>
        && n <= |s| && (forall k :: 0 <= k < n - 1 ==> s[k] >= 128)
        && (i + 7 * n >= w || (n > 0 && s[n - 1] < 128)) && (n > 0 ==> i + 7 * (n - 1) < w)
        && v == Wrap(Shl(Spelled(s[..n]), i), w)
    decreases |s|
  {
    if i >= w {
      ShlZero(i);
      WrapOf(0, w);
    } else if s != [] {
      if s[0] < 128 {
        assert s[..1][1..] == [];
      } else {
        DecodeMeaning(s[1..], i + 7, w);
        match DecodeVarint(s[1..], i + 7, w)
        case None =>
        case Some((v, n)) =>
          assert s[..n + 1][1..] == s[1..][..n];
          GroupAndRest(s[0] % 128, Spelled(s[1..][..n]), i, w);
      }
    }
  }

  lemma {:induction false} ShlZero(i: nat)
    ensures Shl(0, i) == 0
  {
    if i > 0 {
      ShlZero(i - 1);
    }
  }

  lemma GroupAndRest(x: nat, y: nat, i: nat, w: nat)
    requires x < 128 && i < w
    ensures Wrap(Shl(x + 128 * y, i), w) == Wrap(Shl(x, i), w) + Wrap(Shl(y, i + 7), w)
  {
    ShlPlus(x, 128 * y, i);
    ShlSeven(y, i);
    ShlGroup(x, i);
    WrapSplit(Shl(x, i), y, i + 7, w);
    if w >= i + 7 {
      WrapOf(Shl(x, i), w);
      Pow2Monotone(i + 7, w);
      WrapShl(y, i + 7, w);
    } else {
      ShlBelow(y, i + 7, w);
    }
  }

  /** Bits above the word are cut off. */
  lemma ShlBelow(y: nat, j: nat, w: nat)
    requires w < j
    ensures Wrap(Shl(y, j), w) == 0
  {
    WrapSplit(0, y, j, w);
    WrapOf(0, w);
  }

  /** Decoding inverts encoding and takes exactly the encoded bytes, whatever follows. */
  lemma {:induction false} VarintRoundTrip(v: nat, rest: seq<byte>, i: nat, w: nat)
    requires i < w && Shl(v, i) < Pow2(w)
    ensures DecodeVarint(EncodeVarint(v) + rest, i, w) == Some((Shl(v, i), |EncodeVarint(v)|))
  {
    var s := EncodeVarint(v) + rest;
    if v < 128 {
      WrapOf(Shl(v, i), w);
    } else {
      assert s[1..] == EncodeVarint(v / 128) + rest;
      ShlSplit(v, i);
      if i + 7 >= w { Pow2Monotone(w, i + 7); }
      VarintRoundTrip(v / 128, rest, i + 7, w);
      WrapOf(Shl(v % 128, i), w);
    }
  }

  /** Truncating a shifted number truncates it below the shift. */
  lemma {:induction false} WrapShl(x: nat, i: nat, w: nat)
    requires i <= w
    ensures Wrap(Shl(x, i), w) == Shl(Wrap(x, w - i), i)
  {
    if i > 0 {
      WrapShl(x, i - 1, w - 1);
    }
  }

  lemma {:induction false} WrapAtMost(x: nat, w: nat)
    ensures Wrap(x, w) <= x
    decreases w
  {
    if w > 0 {
      WrapAtMost(x / 2, w - 1);
    }
  }

  lemma {:induction false} ShlGroup(y: nat, i: nat)
    requires y < 128
    ensures Shl(y, i) + Pow2(i) <= Pow2(i + 7)
  {
    if i == 0 {
      Pow2Seven(0);
    } else {
      ShlGroup(y, i - 1);
    }
  }

  /** The readers' `|=`: the next group lies above the bits read so far. */
  lemma OrGroup(res: nat, t: nat, i: nat, w: nat)
    requires res < Pow2(i) && t < 128 && i < w
    ensures BitOr(res, Wrap(Shl(t, i), w)) == res + Wrap(Shl(t, i), w) < Pow2(i + 7)
  {
    WrapShl(t, i, w);
    var y := Wrap(t, w - i);
    WrapAtMost(t, w - i);
    OrIsPlus(res, y, i);
    ShlGroup(y, i);
  }

  /** No encoding is a prefix of another: a stream of them splits in one way only. */
  lemma PrefixFree(a: nat, b: nat, x: seq<byte>, y: seq<byte>, w: nat)
    requires w >= 1 && a < Pow2(w) && b < Pow2(w) && EncodeVarint(a) + x == EncodeVarint(b) + y
    ensures a == b && x == y
  {
    VarintRoundTrip(a, x, 0, w);
    VarintRoundTrip(b, y, 0, w);
    assert (EncodeVarint(a) + x)[|EncodeVarint(a)|..] == x;
    assert (EncodeVarint(b) + y)[|EncodeVarint(b)|..] == y;
  }

  /** Composed with zigzag: every signed number of w bits comes back. */
  lemma SignedRoundTrip(v: int, rest: seq<byte>, w: nat)
    requires w >= 1 && InRange(v, w)
    ensures
      var s := EncodeVarint(EncodeZigzag(v, w));
      var r := DecodeVarint(s + rest, 0, w);
      r.Some? && r.value.1 == |s| && DecodeZigzag(r.value.0, w) == v
  {
    ZigzagRoundTrip(v, w);
    VarintRoundTrip(EncodeZigzag(v, w), rest, 0, w);
  }

  /** The bytes of the writers alone never decode: every one of them asks for another. */
  lemma {:induction false} AsWrittenNeverDecodes(v: nat, i: nat, w: nat)
    requires i < w && Shl(v, i) < Pow2(w)
    ensures DecodeVarint(AsWritten(v), i, w) == None
  {
    if v >= 128 {
      ShlSplit(v, i);
      if i + 7 >= w { Pow2Monotone(w, i + 7); }
      AsWrittenNeverDecodes(v / 128, i + 7, w);
    }
  }

  // ------------------------------------------------------------ the readers' result types

  lemma PlusEven(z: int, h: int)
    ensures (z + 2 * h) % 2 == z % 2 && (z + 2 * h) / 2 == z / 2 + h
  {
  }

  /** Adding 2^j for any j >= w does not change the low w bits. */
  lemma {:induction false} WrapPeriod(v: int, w: nat, j: nat)
    requires j >= w
    ensures Wrap(v + Pow2(j), w) == Wrap(v, w)
    decreases w
  {
    if w > 0 {
      WrapPeriod(v / 2, w - 1, j - 1);
      PlusEven(v, Pow2(j - 1));
    }
  }

  lemma SignedInRange(u: int, w: nat)
    requires w >= 1
    ensures InRange(Signed(u, w), w)
  {
    assert Pow2(w) == 2 * Pow2(w - 1);
  }

  /** A signed value is its own image exactly when it is in range. */
  lemma SignedExact(v: int, w: nat)
    requires w >= 1
    ensures Signed(v, w) == v <==> InRange(v, w)
  {
    SignedInRange(v, w);
    WrapOf(v, w);
  }

  /** readUint64 reads a number of W = 64 bits and returns it as int32_t, w = 32. As a number the result is right
      exactly below 2^31. */
  lemma NarrowedExact(v: nat, w: nat)
    requires w >= 1
    ensures Signed(v, w) == v <==> v < Pow2(w - 1)
  {
    SignedExact(v, w);
  }

  /** Widened to 64 bits again, as readStringVint and readInt64 do, it is right also for the last 2^31 numbers,
      which look like small negative ones. */
  lemma WidenedExact(v: nat, w: nat, W: nat)
    requires 1 <= w < W && v < Pow2(W)
    ensures Wrap(Signed(v, w), W) == v <==> v < Pow2(w - 1) || v >= Pow2(W) - Pow2(w - 1)
  {
    Pow2Monotone(w, W);
    SignedInRange(v, w);
    WrapOf(Signed(v, w), W);
    SignedExact(v, w);
    SignedExact(v - Pow2(W), w);
    WrapPeriod(v - Pow2(W), w, W);
  }

  /** What readInt64 makes of the number z in the stream: it passes through int32_t twice. */
  function ReadInt64Result(z: nat, w: nat, W: nat): int {
    Signed(DecodeZigzag(Wrap(Signed(z, w), W), W), w)
  }

  /** A value comes back exactly between -2^30 and 2^30, although its encoding is complete. */
  lemma ReadInt64Exact(v: int, w: nat, W: nat)
    requires 2 <= w && w + 2 <= W && InRange(v, W)
    ensures ReadInt64Result(EncodeZigzag(v, W), w, W) == v <==> 0 <= v + Pow2(w - 2) < 2 * Pow2(w - 2)
  {
    var z := EncodeZigzag(v, W);
    Pow2Monotone(w, W);
    ZigzagMeaning(v, W);
    SignedInRange(DecodeZigzag(Wrap(Signed(z, w), W), W), w);
    if z < Pow2(w - 1) {
      WidenedExact(z, w, W);
      ZigzagRoundTrip(v, W);
      SignedExact(v, w);
    } else if InRange(v, w) {
      MiddleIsLost(v, z, w, W);
    }
  }

  /** From 2^31 on the sign of the truncated number ends up in bit 31 of the result. */
  lemma MiddleIsLost(v: int, z: nat, w: nat, W: nat)
    requires z == (if v < 0 then -2 * v - 1 else 2 * v) && 2 <= w && w + 2 <= W
    requires Pow2(w - 1) <= z < Pow2(w)
    ensures ReadInt64Result(z, w, W) != v
  {
    MiddleWidened(z, w, W);
    var u := z - Pow2(w) + Pow2(W);
    var h := Pow2(W - 1) - Pow2(w - 1);
    assert Pow2(w) == 2 * Pow2(w - 1) && Pow2(W) == 2 * Pow2(W - 1) && Pow2(w - 1) == 2 * Pow2(w - 2);
    UnzigzagShifted(v, z, u, h, W);
    SignBitFlips(v, DecodeZigzag(u, W), w, W);
  }

  lemma UnzigzagShifted(v: int, z: nat, u: nat, h: int, W: nat)
    requires z == (if v < 0 then -2 * v - 1 else 2 * v) && u == z + 2 * h && W >= 1 && u < Pow2(W)
    ensures DecodeZigzag(u, W) == if v < 0 then v - h else v + h
  {
    UnzigzagMeaning(u, W);
    PlusEven(z, h);
    if v < 0 { PlusEven(1, -v - 1); } else { PlusEven(0, v); }
  }

  lemma MiddleWidened(z: nat, w: nat, W: nat)
    requires 2 <= w && w + 2 <= W && Pow2(w - 1) <= z < Pow2(w)
    ensures Pow2(w) <= Pow2(W) && Wrap(Signed(z, w), W) == z - Pow2(w) + Pow2(W)
  {
    Pow2Monotone(w, W);
    WrapOf(z, w);
    WrapOf(z - Pow2(w), W);
  }

  lemma SignBitFlips(v: int, d: int, w: nat, W: nat)
    requires 2 <= w && w + 2 <= W && InRange(v, w)
    requires
      || (v >= 0 && d == v - Pow2(w - 1) + Pow2(W - 1))
      || (v < 0 && d == v + Pow2(w - 1) - Pow2(W - 1))
    ensures Signed(d, w) != v
  {
    Pow2Monotone(w, W - 1);
    if v >= 0 {
      WrapPeriod(v - Pow2(w - 1), w, W - 1);
      WrapOf(v - Pow2(w - 1), w);
    } else {
      WrapPeriod(d, w, W - 1);
      WrapOf(v + Pow2(w - 1), w);
    }
  }
}
