/** The variable-length integer calls of the byte buffer, as the source has them: the writers stop one byte
    short, and every 64-bit reader returns 32 bits. */
module VarintStream {
  import opened Prelude
  import opened Chunks
  import opened ByteOrder
  import opened Varints
  import opened ByteBuffer
  import opened TypedStream

  function Bits(wide: bool): nat {
    if wide then 64 else 32
  }

  /** writeUint32 and writeUint64: the loop fills a buffer of 5 or 10 bytes, and the last group stays in `value`. */
  method WriteUint(b: ByteArray, v: nat, wide: bool, ghost start: Start, ghost done: seq<byte>)
    requires Writing(b, start, done) && v < Pow2(Bits(wide))
    modifies b`position, b`size, b`capacity, b`cur, b`nodes, b`store, b.nodes, b.store
    ensures Writing(b, start, done + AsWritten(v)) && Larger(b, old(b.nodes), old(b.store))
  {
    var data := Groups(v, wide);
    Put(b, data, start, done);
  }

  method Groups(v: nat, wide: bool) returns (bytes: seq<byte>)
    requires v < Pow2(Bits(wide))
    ensures bytes == AsWritten(v)
  {
    var data := new byte[if wide then 10 else 5];
    var i: nat, value: nat := 0, v;
    EncodeBounds(v);
    assert data[..0] + AsWritten(v) == AsWritten(v);
    while value >= 128
      invariant i + |EncodeVarint(value)| <= data.Length
      invariant data[..i] + AsWritten(value) == AsWritten(v)
      decreases value
    {
      data[i] := value % 128 + 128;
      assert data[..i + 1] == data[..i] + [data[i]];
      Regroup(data[..i], [data[i]], AsWritten(value / 128));
      i, value := i + 1, value / 128;
    }
    bytes := data[..i];
  }

  /** writeInt32 and writeInt64: zigzag, and both end in writeUint32, which cuts 64 bits to 32. */
  method WriteInt(b: ByteArray, v: int, wide: bool, ghost start: Start, ghost done: seq<byte>)
    requires Writing(b, start, done) && InRange(v, Bits(wide))
    modifies b`position, b`size, b`capacity, b`cur, b`nodes, b`store, b.nodes, b.store
    ensures Writing(b, start, done + AsWritten(Wrap(EncodeZigzag(v, Bits(wide)), 32))) && Larger(b, old(b.nodes), old(b.store))
  {
    WriteUint(b, Wrap(EncodeZigzag(v, Bits(wide)), 32), false, start, done);
  }

  /** What is left of decoding `s` after some groups gave `res` from `taken` bytes. */
  ghost function Resume(r: Option<(nat, nat)>, res: nat, taken: nat): Option<(nat, nat)> {
    match r
    case None => None
    case Some((v, n)) => Some((res + v, taken + n))
  }

  /** The loop of readUint32 and readUint64, before the result is cut to int32_t. It ends at a byte without the
      top bit, after `w` bits, or when the buffer runs out. */
  method ReadUint(b: ByteArray, w: nat) returns (status: Status, res: nat)
    requires b.Valid()
    modifies b`position, b`cur
    ensures b.Valid() && b.size <= |b.Contents()|
    ensures
      match DecodeVarint(old(Rest(b)), 0, w)
      case None => status == OutOfRange
      case Some((v, n)) =>
        status == Done && res == v && b.position == old(b.position) + n && Rest(b) == old(Rest(b))[n..]
  {
    b.ContentsLength();
    ghost var rest := Rest(b);
    var i: nat := 0;
    res := 0;
    ghost var taken: nat := 0;
    while i < w
      invariant b.Valid() && b.size <= |b.Contents()| && taken <= |rest| && Rest(b) == rest[taken..]
      invariant b.position == old(b.position) + taken && res < Pow2(i)
      invariant DecodeVarint(rest, 0, w) == Resume(DecodeVarint(rest[taken..], i, w), res, taken)
    {
      var last;
      ghost var before := res;
      status, res, last := ReadGroup(b, i, w, res);
      if status != Done {
        return;
      }
      Resumed(rest, taken, i, w, before, res, last);
      taken := taken + 1;
      if last {
        return Done, res;
      }
      i := i + 7;
    }
    status := Done;
  }

  /** One more group, put behind those that gave `before`. */
  lemma Resumed(rest: seq<byte>, taken: nat, i: nat, w: nat, before: nat, res: nat, last: bool)
    requires taken < |rest| && before <= res
    requires DecodeVarint(rest[taken..], i, w)
      == if last then Some((res - before, 1)) else Resume(DecodeVarint(rest[taken..][1..], i + 7, w), res - before, 1)
    ensures rest[taken..][1..] == rest[taken + 1..]
    ensures Resume(DecodeVarint(rest[taken..], i, w), before, taken)
      == if last then Some((res, taken + 1)) else Resume(DecodeVarint(rest[taken + 1..], i + 7, w), res, taken + 1)
  {
  }

  /** One turn of the loop. */
  method ReadGroup(b: ByteArray, i: nat, w: nat, res0: nat) returns (status: Status, res: nat, last: bool)
    requires b.Valid() && res0 < Pow2(i) && i < w
    modifies b`position, b`cur
    ensures b.Valid() && b.size <= |b.Contents()|
    ensures status == if |old(Rest(b))| == 0 then OutOfRange else Done
    ensures status == Done ==>
      && Rest(b) == old(Rest(b))[1..] && b.position == old(b.position) + 1 && res0 <= res < Pow2(i + 7)
      && last == (old(Rest(b))[0] < 128)
      && DecodeVarint(old(Rest(b)), i, w)
        == if last then Some((res - res0, 1)) else Resume(DecodeVarint(Rest(b), i + 7, w), res - res0, 1)
  {
    b.ContentsLength();
    ghost var rest := Rest(b);
    res, last := res0, false;
    var t;
    status, t := ReadFixed(b, 1);
    if status == Done {
      OneByte(b.endian, rest[..1]);
      OrGroup(res, t % 128, i, w);
      res, last := BitOr(res, Wrap(Shl(t % 128, i), w)), t < 128;
    }
  }

  lemma OneByte(order: Endian, s: seq<byte>)
    requires |s| == 1
    ensures FromLayout(order, s) == s[0]
  {
    assert Reverse(s) == s;
    assert FromLE(s) == s[0] + 256 * FromLE([]);
  }

  /** readUint32 and readUint64 as called: int32_t either way. */
  method ReadUintResult(b: ByteArray, wide: bool) returns (status: Status, r: int)
    requires b.Valid()
    modifies b`position, b`cur
    ensures b.Valid() && b.size <= |b.Contents()|
    ensures
      match DecodeVarint(old(Rest(b)), 0, Bits(wide))
      case None => status == OutOfRange
      case Some((v, n)) =>
        status == Done && r == Signed(v, 32) && b.position == old(b.position) + n && Rest(b) == old(Rest(b))[n..]
  {
    var res;
    status, res := ReadUint(b, Bits(wide));
    r := Signed(res, 32);
  }

  /** readInt32 and readInt64: the result is widened to the unsigned type, decoded and cut to int32_t. */
  method ReadIntResult(b: ByteArray, wide: bool) returns (status: Status, r: int)
    requires b.Valid()
    modifies b`position, b`cur
    ensures b.Valid() && b.size <= |b.Contents()|
    ensures
      match DecodeVarint(old(Rest(b)), 0, Bits(wide))
      case None => status == OutOfRange
      case Some((v, n)) =>
        && status == Done && r == ReadInt64Result(v, 32, Bits(wide))
        && b.position == old(b.position) + n && Rest(b) == old(Rest(b))[n..]
  {
    var u;
    status, u := ReadUintResult(b, wide);
    r := Signed(DecodeZigzag(Wrap(u, Bits(wide)), Bits(wide)), 32);
  }

  /** A complete encoding is read back, and only it, whatever follows. */
  method ReadEncoded(b: ByteArray, v: nat, wide: bool, ghost after: seq<byte>) returns (status: Status, res: nat)
    requires b.Valid() && b.size <= |b.Contents()| && v < Pow2(Bits(wide)) && Rest(b) == EncodeVarint(v) + after
    modifies b`position, b`cur
    ensures b.Valid() && b.size <= |b.Contents()|
    ensures status == Done && res == v && Rest(b) == after && b.position == old(b.position) + |EncodeVarint(v)|
  {
    VarintRoundTrip(v, after, 0, Bits(wide));
    status, res := ReadUint(b, Bits(wide));
  }

  /** readStringVint: the length is read with W = 64 bits and passes through int32_t, w = 32. */
  method ReadStringVint(b: ByteArray, w: nat, W: nat) returns (status: Status, text: seq<byte>)
    requires b.Valid()
    modifies b`position, b`cur
    ensures b.Valid() && b.size <= |b.Contents()|
    ensures
      match DecodeVarint(old(Rest(b)), 0, W)
      case None => status == OutOfRange
      case Some((v, n)) =>
        var len := Wrap(Signed(v, w), W);
        if n + len > |old(Rest(b))| then status == OutOfRange
        else if len == 0 && old(b.position) + n == b.capacity then status == NullNode
        else status == Done && text == old(Rest(b))[n..n + len] && b.position == old(b.position) + n + len
  {
    b.ContentsLength();
    text := [];
    var u;
    status, u := ReadUint(b, W);
    if status == Done {
      status, text := Take(b, Wrap(Signed(u, w), W));
    }
  }

  /** Nothing written at the end of the buffer by the unsigned writers can be read back: either no byte was
      written, or every byte asks for another one. */
  method WriteThenRead(b: ByteArray, v: nat, wide: bool) returns (status: Status, res: nat)
    requires b.Valid() && b.position == b.size && v < Pow2(Bits(wide))
    modifies b`position, b`size, b`capacity, b`cur, b`nodes, b`store, b.nodes, b.store
    ensures status == if old(b.position) == b.capacity then NullNode else OutOfRange
  {
    res := 0;
    var at := b.position;
    ghost var start := Begin(b);
    WriteUint(b, v, wide, start, []);
    assert [] + AsWritten(v) == AsWritten(v);
    AsWrittenNeverDecodes(v, 0, Bits(wide));
    ghost var tail;
    status, tail := Rewind(b, at, start, AsWritten(v));
    if status == Done {
      assert Rest(b) == AsWritten(v);
      status, res := ReadUint(b, Bits(wide));
    }
  }
}
