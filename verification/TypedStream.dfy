/** The typed readers and writers of the byte buffer: fixed-width integers in the buffer's byte order and
    strings behind a fixed-width length. */
module TypedStream {
  import opened Prelude
  import opened Chunks
  import opened ByteOrder
  import opened ByteBuffer

  // ------------------------------------------------------------ the format

  /** What one writer call writes: writeF[u]int8..64 or writeStringF16..64 (widths in bytes). */
  datatype Item = Int(width: nat, signed: bool, value: int) | Str(prefix: nat, text: seq<byte>)
  {
    /** The argument is one the C type can hold; a string's length is a 64-bit size. */
    predicate Legal() {
      match this
      case Int(w, signed, v) => (w == 1 || w == 2 || w == 4 || w == 8) && FitsInt(v, w, signed)
      case Str(p, s) => p == 2 || p == 4 || p == 8
    }

    /** A string's length fits its prefix. */
    predicate Fits() {
      Str? ==> |text| < Values(prefix)
    }

    predicate EmptyString() {
      Str? && text == []
    }

    function Kind(): Kind {
      match this
      case Int(w, signed, _) => IntKind(w, signed)
      case Str(p, _) => StrKind(p)
    }
  }

  /** The reader that belongs to a writer. */
  datatype Kind = IntKind(width: nat, signed: bool) | StrKind(prefix: nat)
  {
    predicate Legal() {
      match this
      case IntKind(w, _) => w == 1 || w == 2 || w == 4 || w == 8
      case StrKind(p) => p == 2 || p == 4 || p == 8
    }
  }

  function Encode(order: Endian, it: Item): seq<byte>
    requires it.Legal()
  {
    match it
    case Int(w, _, v) => Wire(order, ToUnsigned(v, w), w)
    case Str(p, s) => Wire(order, |s|, p) + s
  }

  /** The item at the front of `s` and its length, or None where the reader throws. */
  function Decode(order: Endian, k: Kind, s: seq<byte>): (r: Option<(Item, nat)>)
    ensures r.Some? ==> r.value.1 <= |s|
  {
    match k
    case IntKind(w, signed) =>
      if |s| < w then None else
        var u := FromLayout(order, s[..w]);
        Some((Int(w, signed, if signed then ToSigned(u, w) else u), w))
    case StrKind(p) =>
      if |s| < p then None else
        var n := FromLayout(order, s[..p]);
        if |s| < p + n then None else Some((Str(p, s[p..p + n]), p + n))
  }

  lemma WireRead(order: Endian, u: nat, p: nat)
    ensures FromLayout(order, Wire(order, u, p)) == Low(u, p)
  {
    FromLEToLE(u, p);
    ReverseTwice(ToLE(u, p));
  }

  /** A string comes back as long as its truncated prefix says. */
  lemma DecodeString(order: Endian, p: nat, text: seq<byte>, rest: seq<byte>)
    requires p == 2 || p == 4 || p == 8
    ensures Low(|text|, p) <= |text|
    ensures Decode(order, StrKind(p), Encode(order, Str(p, text)) + rest)
      == Some((Str(p, text[..Low(|text|, p)]), p + Low(|text|, p)))
  {
    LowAtMost(|text|, p);
    WireRead(order, |text|, p);
    TakeApart(Wire(order, |text|, p), text, rest, Low(|text|, p));
  }

  lemma TakeApart(a: seq<byte>, text: seq<byte>, rest: seq<byte>, n: nat)
    requires n <= |text|
    ensures var s := a + text + rest; s[..|a|] == a && |s| >= |a| + n && s[|a|..|a| + n] == text[..n]
  {
  }

  lemma {:induction false} LowAtMost(u: nat, p: nat)
    ensures Low(u, p) <= u
  {
    if p > 0 {
      LowAtMost(u / 256, p - 1);
    }
  }

  lemma DecodeInt(order: Endian, w: nat, signed: bool, v: int, rest: seq<byte>)
    requires (w == 1 || w == 2 || w == 4 || w == 8) && FitsInt(v, w, signed)
    ensures Decode(order, IntKind(w, signed), Encode(order, Int(w, signed, v)) + rest) == Some((Int(w, signed, v), w))
  {
    var s := Encode(order, Int(w, signed, v)) + rest;
    var u := ToUnsigned(v, w);
    assert s[..w] == Wire(order, u, w);
    WireRead(order, u, w);
    SignRoundTrip(v, w);
    LowFits(u, w);
  }

  /** The reader gets back what the writer wrote, and takes as many bytes, exactly when a string's length fits
      its prefix - whatever follows. */
  lemma DecodeEncode(order: Endian, it: Item, rest: seq<byte>)
    requires it.Legal()
    ensures Decode(order, it.Kind(), Encode(order, it) + rest) == Some((it, |Encode(order, it)|)) <==> it.Fits()
  {
    match it
    case Int(w, signed, v) => DecodeInt(order, w, signed, v, rest);
    case Str(p, text) =>
      DecodeString(order, p, text, rest);
      LowFits(|text|, p);
  }

  predicate AllLegal(items: seq<Item>) {
    forall it :: it in items ==> it.Legal()
  }

  predicate AllFit(items: seq<Item>) {
    forall it :: it in items ==> it.Fits()
  }

  function EncodeAll(order: Endian, items: seq<Item>): seq<byte>
    requires AllLegal(items)
  {
    if items == [] then [] else Encode(order, items[0]) + EncodeAll(order, items[1..])
  }

  function DecodeAll(order: Endian, kinds: seq<Kind>, s: seq<byte>): (r: Option<(seq<Item>, nat)>)
    ensures r.Some? ==> r.value.1 <= |s| && |r.value.0| == |kinds|
  {
    if kinds == [] then Some(([], 0)) else
      match Decode(order, kinds[0], s)
      case None => None
      case Some((it, n)) =>
        match DecodeAll(order, kinds[1..], s[n..])
        case None => None
        case Some((items, m)) => Some(([it] + items, n + m))
  }

  function Kinds(items: seq<Item>): (r: seq<Kind>)
    ensures |r| == |items| && forall i :: 0 <= i < |items| ==> r[i] == items[i].Kind()
  {
    seq(|items|, i requires 0 <= i < |items| => items[i].Kind())
  }

  lemma StreamStep(order: Endian, kinds: seq<Kind>, a: seq<byte>, b: seq<byte>, rest: seq<byte>, it: Item, xs: seq<Item>)
    requires kinds != [] && Decode(order, kinds[0], a + (b + rest)) == Some((it, |a|))
    requires DecodeAll(order, kinds[1..], b + rest) == Some((xs, |b|))
    ensures DecodeAll(order, kinds, a + b + rest) == Some(([it] + xs, |a + b|))
  {
    Regroup(a, b, rest);
    assert (a + (b + rest))[|a|..] == b + rest;
  }

  lemma KindsCons(it: Item, xs: seq<Item>)
    ensures Kinds([it] + xs) == [it.Kind()] + Kinds(xs)
  {
  }

  lemma EncodeCons(order: Endian, it: Item, xs: seq<Item>)
    requires it.Legal() && AllLegal(xs)
    ensures AllLegal([it] + xs) && EncodeAll(order, [it] + xs) == Encode(order, it) + EncodeAll(order, xs)
  {
    assert ([it] + xs)[1..] == xs;
  }

  lemma DecodeCons(order: Endian, it: Item, xs: seq<Item>, kinds: seq<Kind>, a: seq<byte>, b: seq<byte>, rest: seq<byte>)
    requires it.Legal() && it.Fits() && a == Encode(order, it) && DecodeAll(order, kinds, b + rest) == Some((xs, |b|))
    ensures DecodeAll(order, [it.Kind()] + kinds, a + b + rest) == Some(([it] + xs, |a + b|))
  {
    DecodeEncode(order, it, b + rest);
    assert ([it.Kind()] + kinds)[1..] == kinds;
    StreamStep(order, [it.Kind()] + kinds, a, b, rest, it, xs);
  }

  /** A whole stream comes back. */
  lemma {:induction false} DecodeAllEncodeAll(order: Endian, items: seq<Item>, rest: seq<byte>)
    requires AllLegal(items) && AllFit(items)
    ensures DecodeAll(order, Kinds(items), EncodeAll(order, items) + rest) == Some((items, |EncodeAll(order, items)|))
  {
    if items == [] {
      assert Kinds(items) == [];
    } else {
      var it, xs := items[0], items[1..];
      assert [it] + xs == items;
      DecodeAllEncodeAll(order, xs, rest);
      KindsCons(it, xs);
      EncodeCons(order, it, xs);
      DecodeCons(order, it, xs, Kinds(xs), Encode(order, it), EncodeAll(order, xs), rest);
    }
  }

  // ------------------------------------------------------------ writing

  /** A buffer in which a run of writer calls began: its bytes, position and high-water mark. */
  datatype Start = Start(bytes: seq<byte>, at: nat, size: nat)

  /** The writers have put the bytes `done` there since, and every other byte is as it was; the next write will
      use the right node too. */
  ghost predicate Writing(b: ByteArray, start: Start, done: seq<byte>)
    reads b, b.nodes, b.store
  {
    && b.Valid() && b.WriteSafe()
    && b.position == start.at + |done|
    && b.size == (if b.position > start.size then b.position else start.size)
    && |b.Contents()| == b.capacity && ByteArray.Wrote(start.bytes, b.Contents(), start.at, done)
  }

  /** Only new nodes were added. */
  twostate predicate Larger(b: ByteArray, nodes: seq<Node>, store: seq<array<byte>>)
    reads b
  {
    && nodes <= b.nodes && store <= b.store && |b.nodes| == |b.store|
    && forall i :: |nodes| <= i < |b.nodes| ==> fresh(b.nodes[i]) && fresh(b.store[i])
  }

  lemma WroteTwice(c0: seq<byte>, c1: seq<byte>, c2: seq<byte>, at: nat, x: seq<byte>, y: seq<byte>)
    requires ByteArray.Wrote(c0, c1, at, x) && ByteArray.Wrote(c1, c2, at + |x|, y)
    ensures ByteArray.Wrote(c0, c2, at, x + y)
  {
    assert forall k :: at <= k < at + |x| ==> c2[k] == c1[k];
    assert c2[at..at + |x| + |y|] == c2[at..at + |x|] + c2[at + |x|..at + |x| + |y|];
  }

  /** write, as one more piece: where it uses the right node it never faults. */
  method Put(b: ByteArray, data: seq<byte>, ghost start: Start, ghost done: seq<byte>)
    requires Writing(b, start, done)
    modifies b`position, b`size, b`capacity, b`cur, b`nodes, b`store, b.nodes, b.store
    ensures Writing(b, start, done + data) && Larger(b, old(b.nodes), old(b.store))
  {
    ghost var before := b.Contents();
    var status := b.Write(data);
    if data == [] {
      assert done + data == done;
    } else {
      WroteTwice(start.bytes, before, b.Contents(), start.at, done, data);
    }
  }

  /** writeFuint8 to writeFuint64; the signed writers pass the unsigned image. One byte is never swapped. */
  method WriteFixed(b: ByteArray, u: nat, p: nat, ghost start: Start, ghost done: seq<byte>)
    requires Writing(b, start, done) && p >= 1 && u < Values(p)
    modifies b`position, b`size, b`capacity, b`cur, b`nodes, b`store, b.nodes, b.store
    ensures Writing(b, start, done + Wire(b.endian, u, p)) && Larger(b, old(b.nodes), old(b.store))
  {
    var value := if p > 1 && b.endian != b.host then Byteswap(u, p) else u;
    WireIsHostFree(b.endian, b.host, u, p);
    if p == 1 { SwapByte(u); }
    Put(b, Layout(b.host, value, p), start, done);
  }

  lemma SwapByte(u: byte)
    ensures Byteswap(u, 1) == u
  {
    assert Byteswap(u / 256, 0) == 0;
    assert Raise(u, 0) == u;
  }

  lemma WireLow(order: Endian, u: nat, p: nat)
    ensures Wire(order, Low(u, p), p) == Wire(order, u, p)
  {
    ToLELow(u, p);
  }

  lemma {:induction false} ToLELow(u: nat, p: nat)
    ensures ToLE(Low(u, p), p) == ToLE(u, p)
  {
    if p > 0 {
      var low := Low(u / 256, p - 1);
      assert Low(u, p) == u % 256 + 256 * low;
      assert Low(u, p) % 256 == u % 256 && Low(u, p) / 256 == low;
      ToLELow(u / 256, p - 1);
    }
  }

  lemma Regroup(a: seq<byte>, b: seq<byte>, c: seq<byte>)
    ensures a + b + c == a + (b + c)
  {
  }

  /** writeStringF16 to writeStringF64: the length cut to its prefix, then all the bytes. */
  method WriteText(b: ByteArray, p: nat, text: seq<byte>, ghost start: Start, ghost done: seq<byte>)
    requires Writing(b, start, done) && p >= 1
    modifies b`position, b`size, b`capacity, b`cur, b`nodes, b`store, b.nodes, b.store
    ensures Writing(b, start, done + (Wire(b.endian, |text|, p) + text)) && Larger(b, old(b.nodes), old(b.store))
  {
    WireLow(b.endian, |text|, p);
    ghost var prefix := Wire(b.endian, |text|, p);
    WriteFixed(b, Low(|text|, p), p, start, done);
    Put(b, text, start, done + prefix);
    Regroup(done, prefix, text);
  }

  /** One writer call. */
  method WriteItem(b: ByteArray, it: Item, ghost start: Start, ghost done: seq<byte>)
    requires Writing(b, start, done) && it.Legal()
    modifies b`position, b`size, b`capacity, b`cur, b`nodes, b`store, b.nodes, b.store
    ensures Writing(b, start, done + Encode(b.endian, it)) && Larger(b, old(b.nodes), old(b.store))
  {
    match it
    case Int(w, signed, v) => WriteFixed(b, ToUnsigned(v, w), w, start, done);
    case Str(p, text) => WriteText(b, p, text, start, done);
  }

  method WriteAll(b: ByteArray, items: seq<Item>, ghost start: Start, ghost done: seq<byte>)
    requires Writing(b, start, done) && AllLegal(items)
    modifies b`position, b`size, b`capacity, b`cur, b`nodes, b`store, b.nodes, b.store
    ensures Writing(b, start, done + EncodeAll(b.endian, items)) && Larger(b, old(b.nodes), old(b.store))
    decreases |items|
  {
    if items == [] {
      assert done + [] == done;
    } else {
      ghost var first, others := Encode(b.endian, items[0]), EncodeAll(b.endian, items[1..]);
      WriteItem(b, items[0], start, done);
      WriteAll(b, items[1..], start, done + first);
      Regroup(done, first, others);
    }
  }

  // ------------------------------------------------------------ reading

  /** What is left to read. */
  ghost function Rest(b: ByteArray): seq<byte>
    requires b.position <= b.size <= |b.Contents()|
    reads b`position, b`size, b`store, b.store
  {
    b.Contents()[b.position..b.size]
  }

  /** read, in terms of what is left. */
  method Take(b: ByteArray, n: nat) returns (status: Status, data: seq<byte>)
    requires b.Valid()
    modifies b`position, b`cur
    ensures b.Valid() && b.size <= |b.Contents()|
    ensures status == (if n > old(b.ReadSize()) then OutOfRange else if n == 0 && old(b.position) == b.capacity then NullNode else Done)
    ensures status == Done ==>
      n <= |old(Rest(b))| && data == old(Rest(b))[..n] && Rest(b) == old(Rest(b))[n..] && b.position == old(b.position) + n
    ensures status != Done ==> Rest(b) == old(Rest(b)) && b.position == old(b.position) && data == []
  {
    b.ContentsLength();
    status, data := b.Read(n);
  }

  /** readFuint8 to readFuint64. */
  method ReadFixed(b: ByteArray, p: nat) returns (status: Status, u: nat)
    requires b.Valid() && p >= 1
    modifies b`position, b`cur
    ensures b.Valid() && b.size <= |b.Contents()|
    ensures status == (if p > |old(Rest(b))| then OutOfRange else Done)
    ensures status == Done ==>
      u == FromLayout(b.endian, old(Rest(b))[..p]) && Rest(b) == old(Rest(b))[p..] && b.position == old(b.position) + p
    ensures u < Values(p)
  {
    b.ContentsLength();
    var buf;
    status, buf := Take(b, p);
    if status != Done {
      return status, 0;
    }
    u := FromLayout(b.host, buf);
    WireOnto(b.endian, buf);
    ReadIsHostFree(b.endian, b.host, FromLayout(b.endian, buf), p);
    if p > 1 && b.endian != b.host {
      u := Byteswap(u, p);
    } else if p == 1 {
      SwapByte(u);
    }
  }

  /** readStringF16 to readStringF64. */
  method ReadText(b: ByteArray, p: nat) returns (status: Status, text: seq<byte>)
    requires b.Valid() && p >= 1
    modifies b`position, b`cur
    ensures b.Valid() && b.size <= |b.Contents()|
    ensures
      match Decode(b.endian, StrKind(p), old(Rest(b)))
      case None => status == OutOfRange
      case Some((x, n)) =>
        && status == (if x.text == [] && old(b.position) + n == b.capacity then NullNode else Done)
        && b.position == old(b.position) + n && Rest(b) == old(Rest(b))[n..] && (status == Done ==> text == x.text)
  {
    var n;
    b.ContentsLength();
    status, n := ReadFixed(b, p);
    text := [];
    if status == Done {
      status, text := Take(b, n);
    }
  }

  /** One reader call. A string of length zero at the very end of the list follows the null node. */
  method ReadItem(b: ByteArray, k: Kind) returns (status: Status, it: Item)
    requires b.Valid() && k.Legal()
    modifies b`position, b`cur
    ensures b.Valid() && b.size <= |b.Contents()|
    ensures
      match Decode(b.endian, k, old(Rest(b)))
      case None => status == OutOfRange
      case Some((x, n)) =>
        && status == (if x.EmptyString() && old(b.position) + n == b.capacity then NullNode else Done)
        && b.position == old(b.position) + n && Rest(b) == old(Rest(b))[n..] && (status == Done ==> it == x)
  {
    b.ContentsLength();
    match k
    case IntKind(w, signed) =>
      var u;
      status, u := ReadFixed(b, w);
      it := Int(w, signed, if signed then ToSigned(u, w) else u);
    case StrKind(p) =>
      var text;
      status, text := ReadText(b, p);
      it := Str(p, text);
  }

  /** The last item is an empty string. */
  predicate EndsEmpty(items: seq<Item>) {
    items != [] && if |items| == 1 then items[0].EmptyString() else EndsEmpty(items[1..])
  }

  lemma EndsEmptyCons(it: Item, xs: seq<Item>)
    ensures EndsEmpty([it] + xs) <==> if xs == [] then it.EmptyString() else EndsEmpty(xs)
  {
    assert ([it] + xs)[1..] == xs;
  }

  lemma NothingDecodes(order: Endian, k: Kind)
    requires k.Legal()
    ensures Decode(order, k, []) == None
  {
  }

  method ReadAll(b: ByteArray, kinds: seq<Kind>) returns (status: Status, items: seq<Item>)
    requires b.Valid() && forall k :: k in kinds ==> k.Legal()
    modifies b`position, b`cur
    ensures b.Valid() && b.size <= |b.Contents()|
    ensures
      match DecodeAll(b.endian, kinds, old(Rest(b)))
      case None => status != Done
      case Some((xs, n)) =>
        && status == (if EndsEmpty(xs) && old(b.position) + n == b.capacity then NullNode else Done)
        && b.position == old(b.position) + n && (status == Done ==> items == xs)
    decreases |kinds|
  {
    b.ContentsLength();
    items := [];
    if kinds == [] {
      return Done, [];
    }
    ghost var rest := Rest(b);
    var it;
    status, it := ReadItem(b, kinds[0]);
    if |kinds| > 1 { NothingDecodes(b.endian, kinds[1]); }
    if status == Done {
      status, items := ReadAll(b, kinds[1..]);
      EndsEmptyCons(it, items);
      items := [it] + items;
    }
  }

  /** Going back over what was written. */
  method Rewind(b: ByteArray, at: nat, ghost start: Start, ghost done: seq<byte>) returns (status: Status, ghost tail: seq<byte>)
    requires Writing(b, start, done) && at == start.at
    modifies b`position, b`size, b`cur
    ensures b.position == start.at && status == if b.position == b.capacity then NullNode else Done
    ensures status == Done ==> b.Valid() && b.size <= |b.Contents()| && Rest(b) == done + tail
    ensures old(b.position) == old(b.size) ==> tail == []
  {
    tail := WroteRest(start.bytes, b.Contents(), at, done, b.size);
    status := b.SetPosition(at);
  }

  method WriteAndRewind(b: ByteArray, items: seq<Item>) returns (status: Status, ghost tail: seq<byte>)
    requires b.Valid() && b.WriteSafe() && AllLegal(items)
    modifies b`position, b`size, b`capacity, b`cur, b`nodes, b`store, b.nodes, b.store
    ensures b.position == old(b.position) && status == if b.position == b.capacity then NullNode else Done
    ensures status == Done ==>
      b.Valid() && b.size <= |b.Contents()| && Rest(b) == EncodeAll(b.endian, items) + tail
  {
    var at := b.position;
    ghost var start := Begin(b);
    WriteAll(b, items, start, []);
    assert [] + EncodeAll(b.endian, items) == EncodeAll(b.endian, items);
    status, tail := Rewind(b, at, start, EncodeAll(b.endian, items));
  }

  /** No writer called yet. */
  lemma Begin(b: ByteArray) returns (start: Start)
    requires b.Valid() && b.WriteSafe()
    ensures start == Start(b.Contents(), b.position, b.size) && Writing(b, start, [])
  {
    b.ContentsLength();
    start := Start(b.Contents(), b.position, b.size);
  }

  lemma WroteRest(c0: seq<byte>, c1: seq<byte>, at: nat, data: seq<byte>, size: nat) returns (tail: seq<byte>)
    requires ByteArray.Wrote(c0, c1, at, data) && at + |data| <= size <= |c1|
    ensures c1[at..size] == data + tail && (size == at + |data| ==> tail == [])
  {
    tail := c1[at + |data|..size];
  }

  /** Writing a list of items, going back and reading the same types gives the same list and ends at the same
      place, for every node size, byte order and host, wherever in the buffer a write is safe. The only
      exception is following the null node: going back to a position that is the capacity (nothing was
      written), and reading an empty string that ends exactly at the capacity. */
  method RoundTrip(b: ByteArray, items: seq<Item>) returns (status: Status, out: seq<Item>)
    requires b.Valid() && b.WriteSafe() && AllLegal(items) && AllFit(items)
    modifies b`position, b`size, b`capacity, b`cur, b`nodes, b`store, b.nodes, b.store
    ensures
      var end := old(b.position) + |EncodeAll(b.endian, items)|;
      && status == (if old(b.position) == b.capacity || (EndsEmpty(items) && end == b.capacity) then NullNode else Done)
      && (status == Done ==> b.Valid() && out == items && b.position == end)
  {
    ghost var s := EncodeAll(b.endian, items);
    ghost var tail;
    out := [];
    status, tail := WriteAndRewind(b, items);
    if status == Done {
      DecodeAllEncodeAll(b.endian, items, tail);
      assert forall i :: 0 <= i < |items| ==> items[i] in items;
      status, out := ReadAll(b, Kinds(items));
    }
  }
}
