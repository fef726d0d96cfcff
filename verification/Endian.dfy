/** Fixed-width integers as bytes: two's complement, byte swapping and the two byte orders. */
module ByteOrder {
  import opened Chunks

  datatype Endian = Little | Big

  /** The number of values of `p` bytes. */
  function Values(p: nat): (n: nat)
    ensures n >= 1 && (p > 0 ==> n % 256 == 0 && n >= 256)
  {
    if p == 0 then 1 else 256 * Values(p - 1)
  }

  /** The unsigned image of a signed value, and back: what the C casts do. */
  function ToUnsigned(v: int, p: nat): int {
    if v < 0 then v + Values(p) else v
  }

  function ToSigned(u: int, p: nat): int {
    if u >= Values(p) / 2 then u - Values(p) else u
  }

  predicate FitsInt(v: int, p: nat, signed: bool) {
    if signed then -(Values(p) / 2) <= v < Values(p) / 2 else 0 <= v < Values(p)
  }

  /** Casting to unsigned and back keeps exactly the values in range; in between they are in two's complement. */
  lemma SignRoundTrip(v: int, p: nat)
    requires p >= 1
    ensures FitsInt(v, p, true) <==> FitsInt(ToUnsigned(v, p), p, false) && ToSigned(ToUnsigned(v, p), p) == v
    ensures 0 <= v < Values(p) / 2 ==> ToUnsigned(v, p) == v
    ensures -(Values(p) / 2) <= v < 0 ==> ToUnsigned(v, p) == Values(p) + v
  {
    assert Values(p) % 2 == 0;
  }

  /** The `p` bytes of `u` in a little-endian machine's memory, and what they stand for. */
  function ToLE(u: nat, p: nat): (s: seq<byte>)
    ensures |s| == p
  {
    if p == 0 then [] else [u % 256] + ToLE(u / 256, p - 1)
  }

  function FromLE(s: seq<byte>): (u: nat)
    ensures u < Values(|s|)
  {
    if s == [] then 0 else s[0] + 256 * FromLE(s[1..])
  }

  function Reverse(s: seq<byte>): (r: seq<byte>)
    ensures |r| == |s|
    ensures forall k :: 0 <= k < |s| ==> r[k] == s[|s| - 1 - k]
  {
    if s == [] then [] else Reverse(s[1..]) + [s[0]]
  }

  /** `b` moved up by `q` bytes. */
  function Raise(b: nat, q: nat): nat {
    if q == 0 then b else 256 * Raise(b, q - 1)
  }

  lemma {:induction false} RaiseBelow(b: byte, q: nat)
    ensures Raise(b, q) + Values(q) <= Values(q + 1)
  {
    if q > 0 {
      RaiseBelow(b, q - 1);
    }
  }

  /** The low `p` bytes of a number: a cast to a narrower unsigned type. */
  function Low(u: nat, p: nat): (r: nat)
    ensures r < Values(p)
  {
    if p == 0 then 0 else u % 256 + 256 * Low(u / 256, p - 1)
  }

  /** A cast keeps exactly the numbers that fit. */
  lemma {:induction false} LowFits(u: nat, p: nat)
    ensures Low(u, p) == u <==> u < Values(p)
  {
    if p > 0 {
      LowFits(u / 256, p - 1);
    }
  }

  /** bswap_16, bswap_32, bswap_64: the lowest byte to the top, and so on down. */
  function Byteswap(u: nat, p: nat): (r: nat)
    ensures r < Values(p)
  {
    if p == 0 then 0 else
      RaiseBelow(u % 256, p - 1);
      Raise(u % 256, p - 1) + Byteswap(u / 256, p - 1)
  }

  lemma {:induction false} FromLEToLE(u: nat, p: nat)
    ensures FromLE(ToLE(u, p)) == Low(u, p)
  {
    if p > 0 {
      FromLEToLE(u / 256, p - 1);
    }
  }

  lemma {:induction false} ToLEFromLE(s: seq<byte>)
    ensures ToLE(FromLE(s), |s|) == s
  {
    if s != [] {
      ToLEFromLE(s[1..]);
      assert FromLE(s) % 256 == s[0] && FromLE(s) / 256 == FromLE(s[1..]);
    }
  }

  lemma {:induction false} FromLEAppend(s: seq<byte>, b: byte)
    ensures FromLE(s + [b]) == FromLE(s) + Raise(b, |s|)
  {
    if s == [] {
      assert s + [b] == [b];
    } else {
      assert (s + [b])[1..] == s[1..] + [b];
      FromLEAppend(s[1..], b);
    }
  }

  /** Swapping a number's bytes reverses them in memory. */
  lemma {:induction false} SwapReverses(u: nat, p: nat)
    ensures FromLE(Reverse(ToLE(u, p))) == Byteswap(u, p)
    ensures ToLE(Byteswap(u, p), p) == Reverse(ToLE(u, p))
  {
    if p > 0 {
      SwapReverses(u / 256, p - 1);
      FromLEAppend(Reverse(ToLE(u / 256, p - 1)), u % 256);
    }
    ToLEFromLE(Reverse(ToLE(u, p)));
  }

  lemma ReverseTwice(s: seq<byte>)
    ensures Reverse(Reverse(s)) == s
  {
  }

  /** byteswap undoes itself. */
  lemma SwapTwice(u: nat, p: nat)
    requires u < Values(p)
    ensures Byteswap(Byteswap(u, p), p) == u
  {
    SwapReverses(u, p);
    SwapReverses(Byteswap(u, p), p);
    ReverseTwice(ToLE(u, p));
    FromLEToLE(u, p);
    LowFits(u, p);
  }

  /** How the host lays out a number in memory, and reads it back. */
  function Layout(host: Endian, u: nat, p: nat): (s: seq<byte>)
    ensures |s| == p
  {
    if host == Little then ToLE(u, p) else Reverse(ToLE(u, p))
  }

  function FromLayout(host: Endian, s: seq<byte>): (u: nat)
    ensures u < Values(|s|)
  {
    if host == Little then FromLE(s) else FromLE(Reverse(s))
  }

  /** What a number looks like in the buffer: its bytes in the buffer's order. */
  function Wire(order: Endian, u: nat, p: nat): (s: seq<byte>)
    ensures |s| == p
  {
    Layout(order, u, p)
  }

  /** A number shifted down by `k` bytes. */
  function Down(u: nat, k: nat): nat {
    if k == 0 then u else Down(u / 256, k - 1)
  }

  /** The bytes in the buffer by their places: lowest first in little-endian order, highest first in big-endian order. */
  lemma {:induction false} WireAt(u: nat, p: nat, k: nat)
    requires k < p
    ensures Wire(Little, u, p)[k] == Down(u, k) % 256
    ensures Wire(Big, u, p)[p - 1 - k] == Down(u, k) % 256
  {
    if k > 0 {
      WireAt(u / 256, p - 1, k - 1);
      assert ToLE(u, p)[k] == ToLE(u / 256, p - 1)[k - 1];
    }
  }

  /** Swapping when the orders differ makes the wire format independent of the host. */
  lemma WireIsHostFree(order: Endian, host: Endian, u: nat, p: nat)
    ensures Layout(host, if order != host then Byteswap(u, p) else u, p) == Wire(order, u, p)
  {
    SwapReverses(u, p);
    ReverseTwice(ToLE(u, p));
  }

  /** And so is reading: whatever wrote the bytes, any host gets the number back. */
  lemma ReadIsHostFree(order: Endian, host: Endian, u: nat, p: nat)
    requires u < Values(p)
    ensures
      var v := FromLayout(host, Wire(order, u, p));
      (if order == host then v else Byteswap(v, p)) == u
  {
    FromLEToLE(u, p);
    LowFits(u, p);
    SwapReverses(u, p);
    SwapTwice(u, p);
    ReverseTwice(ToLE(u, p));
  }

  /** Any p bytes are the wire format of exactly one number. */
  lemma WireOnto(order: Endian, s: seq<byte>)
    ensures FromLayout(order, s) < Values(|s|) && Wire(order, FromLayout(order, s), |s|) == s
  {
    ToLEFromLE(s);
    ToLEFromLE(Reverse(s));
    ReverseTwice(s);
  }
}
