/** The growable byte buffer: a singly linked list of equal nodes with one cursor. Every
    method is specified on the flat sequence of bytes the nodes hold. */
module ByteBuffer {
  import opened Chunks
  import opened ByteOrder

  /** How a call ends: normally, with std::out_of_range before anything changed, or by following a null
      node pointer (undefined behaviour in the source). */
  datatype Status = Done | OutOfRange | NullNode

  class Node {
    const size: nat
    const data: array<byte>
    var next: Node?

    constructor (s: nat)
      ensures size == s && data.Length == s && fresh(data) && next == null
    {
      size := s;
      data := new byte[s];
      next := null;
    }
  }

  /** An iovec: a stretch of some node's memory. */
  datatype Region = Region(base: array<byte>, off: nat, len: nat)

  /** memcpy into a node. */
  method CopyIn(a: array<byte>, off: nat, buf: seq<byte>, from: nat, n: nat)
    requires off + n <= a.Length && from + n <= |buf|
    modifies a
    ensures a[..] == Splice(old(a[..]), off, buf[from..from + n])
  {
    forall k | 0 <= k < n {
      a[off + k] := buf[from + k];
    }
  }

  class ByteArray {
    const baseSize: nat
    /** The byte order of the machine and of the numbers in the buffer. */
    const host: Endian
    var endian: Endian
    var position: nat
    var size: nat
    var capacity: nat
    const root: Node
    var cur: Node?

    /** The nodes in list order, and their memory. */
    ghost var nodes: seq<Node>
    ghost var store: seq<array<byte>>

    /** The list is exactly `nodes`. */
    ghost predicate Linked()
      reads this`nodes, nodes
    {
      && |nodes| >= 1 && nodes[0] == root
      && forall i {:trigger nodes[i].next} :: 0 <= i < |nodes| ==>
          nodes[i].next == if i + 1 < |nodes| then nodes[i + 1] else null
    }

    ghost predicate Backed()
      reads this`nodes, this`store
    {
      && |store| == |nodes|
      && forall i :: 0 <= i < |nodes| ==> nodes[i].size == baseSize && nodes[i].data == store[i] && store[i].Length == baseSize
    }

    /** No node and no memory occurs twice. */
    ghost predicate Apart()
      reads this`nodes, this`store
    {
      && (forall i, j :: 0 <= i < j < |nodes| ==> nodes[i] != nodes[j])
      && (forall i, j :: 0 <= i < j < |store| ==> store[i] != store[j])
    }

    /** The list, its memory and the capacity agree. */
    ghost predicate Memory()
      reads this`nodes, this`store, this`capacity, nodes
    {
      baseSize >= 1 && Linked() && Backed() && Apart() && capacity == Start(|nodes|, baseSize)
    }

    ghost predicate Shape()
      reads this`nodes, this`store, this`capacity, this`position, this`size, nodes
    {
      Memory() && position <= size <= capacity
    }

    /** `node`, which may be the cached one, is number `i` of the list; the end of the list is number |nodes|. */
    ghost predicate NodeIs(node: Node?, i: nat)
      reads this`nodes
    {
      i <= |nodes| && node == if i < |nodes| then nodes[i] else null
    }

    ghost predicate Valid()
      reads this, nodes
    {
      Shape() && NodeIs(cur, NodeOf(position, baseSize))
    }

    static ghost function Snapshot(store: seq<array<byte>>): seq<seq<byte>>
      reads store
    {
      seq(|store|, i requires 0 <= i < |store| reads store => store[i][..])
    }

    ghost function ChunksOf(): seq<seq<byte>>
      reads this`store, store
    {
      Snapshot(store)
    }

    /** The bytes of the whole capacity, in order. */
    ghost function Contents(): seq<byte>
      reads this`store, store
    {
      Flatten(ChunksOf())
    }

    lemma ContentsLength()
      requires Shape()
      ensures |Contents()| == capacity && Even(ChunksOf(), baseSize)
    {
      FlattenLength(ChunksOf(), baseSize);
    }

    /** A position inside the capacity is in an existing node, and the capacity itself is the list's end. */
    lemma CursorInRange(p: nat)
      requires Shape() && p <= capacity
      ensures var i := NodeOf(p, baseSize);
        && p == Start(i, baseSize) + Rem(p, baseSize) && Rem(p, baseSize) < baseSize && i <= |nodes|
        && (p < capacity <==> i < |nodes|)
      ensures p == capacity ==> NodeOf(p, baseSize) == |nodes| && Rem(p, baseSize) == 0
      ensures Rem(p, baseSize) == p % baseSize && NodeOf(p, baseSize) == p / baseSize
    {
      var i := NodeOf(p, baseSize);
      Divide(p, baseSize);
      DivideIsDivision(p, baseSize);
      Locate(|nodes|, baseSize, 0);
      if i > |nodes| {
        StartMonotone(|nodes|, i, baseSize);
      } else {
        StartMonotone(i, |nodes|, baseSize);
      }
    }

    constructor (base: nat, order: Endian)
      requires base >= 1
      ensures Valid() && baseSize == base && position == size == 0 && capacity == base
      ensures host == order && endian == Big
      ensures fresh(nodes) && fresh(store)
    {
      baseSize, position, capacity, size := base, 0, base, 0;
      host, endian := order, Big;
      var node := new Node(base);
      root, cur := node, node;
      nodes, store := [node], [node.data];
    }

    method SetEndian(little: bool)
      modifies this`endian
      ensures endian == if little then Little else Big
    {
      endian := if little then Little else Big;
    }

    /** getReadSize and getCapacity. */
    function ReadSize(): nat
      reads this`position, this`size
      requires position <= size
    {
      size - position
    }

    function Spare(): nat
      reads this`capacity, this`size
      requires size <= capacity
    {
      capacity - size
    }

    /** clear: the first node and its bytes stay. */
    method Clear()
      requires Shape()
      modifies this`position, this`size, this`capacity, this`cur, this`nodes, this`store, root
      ensures Valid() && position == size == 0 && capacity == baseSize
      ensures nodes == [root] && store == old(store)[..1]
    {
      position, size, capacity := 0, 0, baseSize;
      cur := root;
      root.next := null;
      nodes, store := [root], store[..1];
    }

    // ------------------------------------------------------------------- growing

    /** Nodes needed for `n` more bytes: n over the node size, rounded up. */
    function NodesFor(n: nat): (k: nat)
      requires baseSize >= 1
    {
      (n + baseSize - 1) / baseSize
    }

    lemma NodesForEnough(n: nat)
      requires baseSize >= 1
      ensures n <= Start(NodesFor(n), baseSize) < n + baseSize
    {
      Divide(n + baseSize - 1, baseSize);
      DivideIsDivision(n + baseSize - 1, baseSize);
    }

    /** The capacity after room was made for `n` bytes beyond the high-water mark. */
    function Grown(n: nat): nat
      reads this`capacity, this`size
      requires baseSize >= 1 && size <= capacity
    {
      if n <= Spare() then capacity else capacity + Start(NodesFor(n - Spare()), baseSize)
    }

    /** Nothing is added while there is room; otherwise as few whole nodes as make room. */
    lemma GrownLeast(n: nat)
      requires Shape()
      ensures size + n <= Grown(n)
      ensures size + n <= capacity ==> Grown(n) == capacity
      ensures size + n > capacity ==> Grown(n) < size + n + baseSize && (Grown(n) - capacity) % baseSize == 0
    {
      if n > Spare() {
        NodesForEnough(n - Spare());
        StartDivides(NodesFor(n - Spare()), baseSize);
      }
    }

    static lemma {:induction false} StartDivides(i: nat, base: nat)
      requires base >= 1
      ensures Start(i, base) % base == 0
    {
      if i > 0 {
        StartDivides(i - 1, base);
        PlusBase(Start(i - 1, base), base);
      }
    }

    static lemma PlusBase(a: nat, base: nat)
      requires base >= 1
      ensures (a + base) % base == a % base
    {
      QuotientUnique(a + base, base, a / base + 1, a % base);
    }

    /** The walk to the last node. */
    method Tail() returns (tail: Node)
      requires Shape()
      ensures tail == nodes[|nodes| - 1]
    {
      tail := root;
      ghost var i: nat := 0;
      while tail.next != null
        invariant Shape() && 0 <= i < |nodes| && tail == nodes[i]
        decreases |nodes| - i
      {
        tail := tail.next;
        i := i + 1;
      }
    }

    method AppendNode(tail: Node) returns (node: Node)
      requires Shape() && tail == nodes[|nodes| - 1]
      modifies this`capacity, this`nodes, this`store, tail
      ensures Shape() && fresh(node) && fresh(node.data)
      ensures nodes == old(nodes) + [node] && store == old(store) + [node.data]
      ensures capacity == old(capacity) + baseSize
      ensures old(Contents()) <= Contents()
    {
      node := new Node(baseSize);
      tail.next := node;
      nodes, store := nodes + [node], store + [node.data];
      capacity := capacity + baseSize;
      assert Linked() by {
        forall i | 0 <= i < |nodes| - 1
          ensures nodes[i].next == nodes[i + 1]
        {
          assert old(nodes)[i] == nodes[i];
        }
      }
      assert capacity == Start(|nodes|, baseSize);
      LongerContents(old(ChunksOf()), ChunksOf());
    }

    static lemma LongerContents(a: seq<seq<byte>>, b: seq<seq<byte>>)
      requires a <= b
      ensures Flatten(a) <= Flatten(b)
    {
      FlattenConcat(a, b[|a|..]);
      assert a + b[|a|..] == b;
    }

    /** addCapacity's second loop: `num` new nodes behind `tail`; returns the first of them. */
    method AppendNodes(last: Node, num: nat) returns (first: Node?)
      requires Shape() && last == nodes[|nodes| - 1]
      modifies this`capacity, this`nodes, this`store, nodes
      ensures Shape() && capacity == old(capacity) + Start(num, baseSize)
      ensures |nodes| == |old(nodes)| + num && old(nodes) <= nodes && old(store) <= store
      ensures old(Contents()) <= Contents()
      ensures forall i :: |old(nodes)| <= i < |nodes| ==> fresh(nodes[i]) && fresh(store[i])
      ensures first == if num == 0 then null else nodes[|old(nodes)|]
    {
      first := null;
      var tail := last;
      ghost var start := nodes;
      for i := 0 to num
        invariant Shape() && tail == nodes[|nodes| - 1] && |nodes| == |start| + i
        invariant capacity == old(capacity) + Start(i, baseSize)
        invariant start <= nodes && old(store) <= store && old(Contents()) <= Contents()
        invariant forall k :: |start| <= k < |nodes| ==> fresh(nodes[k]) && fresh(store[k])
        invariant first == if i == 0 then null else nodes[|start|]
        invariant tail in start || fresh(tail)
      {
        var node := AppendNode(tail);
        if first == null {
          first := node;
        }
        tail := node;
      }
    }

    /** addCapacity as written. The bytes stay; the cursor's node is left alone, except that a buffer filled to
        the brim moves it to the first new node, wherever the position is. */
    method AddCapacity(n: nat)
      requires Shape()
      modifies this`capacity, this`nodes, this`store, this`cur, nodes
      ensures Shape()
      ensures capacity == old(Grown(n))
      ensures old(nodes) <= nodes && old(store) <= store && old(Contents()) <= Contents()
      ensures forall i :: |old(nodes)| <= i < |nodes| ==> fresh(nodes[i]) && fresh(store[i])
      ensures if n > 0 && old(size == capacity) then NodeIs(cur, |old(nodes)|) else cur == old(cur)
    {
      if n == 0 || Spare() >= n {
        return;
      }
      var spare := Spare();
      var num := NodesFor(n - spare);
      NodesForEnough(n - spare);
      var tail := Tail();
      var first := AppendNodes(tail, num);
      if spare == 0 {
        cur := first;
      }
    }

    // ------------------------------------------------------------ reading and writing

    /** Where the next write lands: at the position, unless the buffer is filled to the brim and the position
        rewound; then in the first new node, at the position's offset. */
    ghost function Target(): nat
      reads this`capacity, this`size, this`position
      requires baseSize >= 1
    {
      if WriteSafe() then position else capacity + Rem(position, baseSize)
    }

    /** The guard under which write and getWriteBuffers use the right node. */
    predicate WriteSafe()
      reads this`capacity, this`size, this`position
    {
      size < capacity || position == size
    }

    /** `node` is number i, and `npos` bytes into it is flat position p. */
    ghost predicate At(node: Node?, i: nat, npos: nat, p: nat)
      reads this`nodes
    {
      i < |nodes| && node == nodes[i] && npos < baseSize && p == Start(i, baseSize) + npos
    }

    /** One memcpy into node i. */
    method CopyIntoNode(ghost i: nat, node: Node, npos: nat, data: seq<byte>, from: nat, m: nat)
      requires Memory() && i < |nodes| && node == nodes[i] && npos + m <= baseSize && from + m <= |data|
      modifies node.data
      ensures Start(i, baseSize) + npos + m <= |old(Contents())|
      ensures Contents() == Splice(old(Contents()), Start(i, baseSize) + npos, data[from..from + m])
    {
      ghost var before := ChunksOf();
      assert before[i] == node.data[..];
      FlattenUpdate(before, baseSize, i, npos, data[from..from + m]);
      CopyIn(node.data, npos, data, from, m);
      assert ChunksOf() == before[i := Splice(before[i], npos, data[from..from + m])];
    }

    /** How far a write of `data` to flat position `p` of `start` has come. */
    ghost predicate Progress(start: seq<byte>, p: nat, data: seq<byte>, bpos: nat)
      reads this`store, store
    {
      bpos <= |data| && p + bpos <= |start| && Contents() == Splice(start, p, data[..bpos])
    }

    lemma ProgressStart(i: nat, npos: nat, p: nat, data: seq<byte>)
      requires Memory() && i < |nodes| && Split(i, npos, p)
      ensures Progress(Contents(), p, data, 0) && |Contents()| == capacity && p <= capacity
    {
      FlattenLength(ChunksOf(), baseSize);
      PieceEnd(i);
    }

    lemma ProgressEnd(start: seq<byte>, p: nat, data: seq<byte>)
      requires Progress(start, p, data, |data|)
      ensures p + |data| <= |start| && Contents() == Splice(start, p, data)
    {
      assert data[..|data|] == data;
    }

    static lemma NextPiece(start: seq<byte>, p: nat, data: seq<byte>, bpos: nat, m: nat)
      requires bpos + m <= |data| && p + bpos + m <= |start|
      ensures Splice(Splice(start, p, data[..bpos]), p + bpos, data[bpos..bpos + m]) == Splice(start, p, data[..bpos + m])
    {
      SpliceTwice(start, p, data[..bpos], data[bpos..bpos + m]);
      assert data[..bpos + m] == data[..bpos] + data[bpos..bpos + m];
    }

    /** memcpy the next `m` bytes and advance m_position. */
    method WritePiece(ghost i: nat, npos: nat, data: seq<byte>, bpos: nat, m: nat, ghost start: seq<byte>, ghost p: nat)
      requires Memory() && cur != null && i < |nodes| && NodeIs(cur, i) && npos + m <= baseSize && bpos + m <= |data|
      requires p + bpos == Start(i, baseSize) + npos && Progress(start, p, data, bpos)
      modifies this`position, cur.data
      ensures NodeIs(cur, i) && position == old(position) + m && Progress(start, p, data, bpos + m)
    {
      CopyIntoNode(i, cur, npos, data, bpos, m);
      NextPiece(start, p, data, bpos, m);
      position := position + m;
    }

    /** A piece of node i ends inside it or at the start of the next one. */
    lemma PieceEnd(i: nat)
      requires Memory() && i < |nodes|
      ensures Start(i + 1, baseSize) == Start(i, baseSize) + baseSize <= capacity
      ensures i + 1 == |nodes| ==> capacity == Start(i, baseSize) + baseSize
    {
      StartMonotone(i + 1, |nodes|, baseSize);
    }

    /** Flat position p is `off` bytes into node number i, which may be the end of the list. */
    ghost predicate Split(i: nat, off: nat, p: nat)
      reads this`nodes
    {
      i <= |nodes| && off < baseSize && p == Start(i, baseSize) + off
    }

    /** m_cur = m_cur->next. */
    method NextNode(ghost i: nat)
      requires Memory() && cur != null && i < |nodes| && NodeIs(cur, i)
      modifies this`cur
      ensures Memory() && NodeIs(cur, i + 1)
    {
      cur := cur.next;
    }

    /** One turn of the copying loop: fill what is left of the node, or write the last piece into it. */
    method WriteTurn(data: seq<byte>, bpos: nat, ghost i: nat, npos: nat, ghost start: seq<byte>, ghost p: nat)
      returns (m: nat, ghost j: nat, ghost off: nat)
      requires Memory() && cur != null && At(cur, i, npos, p + bpos) && bpos < |data| && Progress(start, p, data, bpos)
      modifies this`position, this`cur, cur.data
      ensures 0 < m && Progress(start, p, data, bpos + m)
      ensures NodeIs(cur, j) && Split(j, off, p + bpos + m)
      ensures bpos + m < |data| ==> off == 0 && (cur == null <==> p + bpos + m == capacity)
      ensures position == old(position) + m && p + bpos + m <= capacity
    {
      var left, ncap: nat := |data| - bpos, cur.size - npos;
      m := if ncap >= left then left else ncap;
      WritePiece(i, npos, data, bpos, m, start, p);
      PieceEnd(i);
      j, off := i, npos + m;
      if m == ncap {
        NextNode(i);
        j, off := i + 1, 0;
        if j < |nodes| { PieceEnd(j); }
      }
    }

    /** The copying loop of write, from node `i0` at offset `npos0`, flat position `p`. */
    method WriteLoop(data: seq<byte>, ghost i0: nat, npos0: nat, ghost p: nat, ghost start: seq<byte>)
      returns (status: Status, ghost i: nat, ghost off: nat)
      requires Memory() && |data| > 0 && cur != null && At(cur, i0, npos0, p) && p <= capacity && Progress(start, p, data, 0)
      modifies this`position, this`cur, store
      ensures status == if p + |data| <= capacity then Done else NullNode
      ensures status == Done ==>
        Progress(start, p, data, |data|) && position == old(position) + |data| && NodeIs(cur, i) && Split(i, off, p + |data|)
    {
      i := i0;
      var npos: nat, bpos: nat := npos0, 0;
      off := npos;
      while bpos < |data|
        invariant Progress(start, p, data, bpos) && position == old(position) + bpos && p + bpos <= capacity
        invariant if bpos < |data| then cur != null && At(cur, i, npos, p + bpos) else NodeIs(cur, i) && Split(i, off, p + bpos)
      {
        var m;
        m, i, off := WriteTurn(data, bpos, i, npos, start, p);
        bpos := bpos + m;
        if bpos < |data| {
          if cur == null {
            return NullNode, i, off;
          }
          npos := 0;
        }
      }
      status := Done;
    }

    method WriteAt(data: seq<byte>, ghost i0: nat, npos0: nat, ghost p: nat)
      returns (status: Status, ghost i: nat, ghost off: nat)
      requires Memory() && |data| > 0 && cur != null && At(cur, i0, npos0, p)
      modifies this`position, this`cur, store
      ensures status == if p + |data| <= capacity then Done else NullNode
      ensures status == Done ==>
        && p + |data| <= |old(Contents())|
        && Contents() == Splice(old(Contents()), p, data)
        && position == old(position) + |data| && NodeIs(cur, i) && Split(i, off, p + |data|)
    {
      ghost var start := Contents();
      ProgressStart(i0, npos0, p, data);
      status, i, off := WriteLoop(data, i0, npos0, p, start);
      if status == Done { ProgressEnd(start, p, data); }
    }

    /** `after` is `before`, possibly longer, with `data` at `at`. */
    static ghost predicate Wrote(before: seq<byte>, after: seq<byte>, at: nat, data: seq<byte>) {
      && |before| <= |after| && at + |data| <= |after|
      && after[at..at + |data|] == data
      && forall k :: 0 <= k < |before| && !(at <= k < at + |data|) ==> after[k] == before[k]
    }

    static lemma SpliceWrote(before: seq<byte>, grown: seq<byte>, at: nat, data: seq<byte>)
      requires before <= grown && at + |data| <= |grown|
      ensures Wrote(before, Splice(grown, at, data), at, data)
    {
    }

    /** Making room leaves the cached node where Target() says. */
    method MakeRoom(n: nat) returns (ghost i: nat)
      requires Valid() && n > 0
      modifies this`capacity, this`nodes, this`store, this`cur, nodes
      ensures Shape() && capacity == old(Grown(n)) && old(Contents()) <= Contents()
      ensures old(nodes) <= nodes && old(store) <= store
      ensures forall k :: |old(nodes)| <= k < |nodes| ==> fresh(nodes[k]) && fresh(store[k])
      ensures cur != null && At(cur, i, Rem(position, baseSize), old(Target()))
      ensures old(WriteSafe()) ==> old(Target()) + n <= capacity
    {
      CursorInRange(position);
      if n > Spare() { NodesForEnough(n - Spare()); }
      i := if size == capacity then |nodes| else NodeOf(position, baseSize);
      ghost var was := |nodes|;
      AddCapacity(n);
      if |nodes| <= was { StartMonotone(|nodes|, was, baseSize); }
    }

    /** The cached node has one number only. */
    lemma CurUnique(a: nat, b: nat)
      requires Memory() && NodeIs(cur, a) && NodeIs(cur, b)
      ensures a == b
    {
    }

    /** After a write the cached node agrees with the position exactly when the write was safe. */
    lemma EndIsAligned(i: nat, off: nat, target: nat, pos: nat, was: nat, n: nat)
      requires Memory() && NodeIs(cur, i) && Split(i, off, target + n)
      requires target == pos || (pos < Start(was, baseSize) && target == Start(was, baseSize) + Rem(pos, baseSize))
      ensures NodeIs(cur, NodeOf(pos + n, baseSize)) <==> target == pos
    {
      Locate(i, baseSize, off);
      if target != pos {
        BehindIsElsewhere(pos, was, n);
        if NodeIs(cur, NodeOf(pos + n, baseSize)) {
          CurUnique(i, NodeOf(pos + n, baseSize));
        }
      }
    }

    /** Behind the old capacity is never where the position points. */
    lemma BehindIsElsewhere(pos: nat, was: nat, n: nat)
      requires baseSize >= 1 && pos < Start(was, baseSize)
      ensures NodeOf(Start(was, baseSize) + Rem(pos, baseSize) + n, baseSize) != NodeOf(pos + n, baseSize)
    {
      Divide(pos, baseSize);
      var i := NodeOf(pos, baseSize);
      if was <= i { StartMonotone(was, i, baseSize); }
      var q, r := NodeOf(pos + n, baseSize), Rem(pos + n, baseSize);
      Divide(pos + n, baseSize);
      StartAdd(i, was - i, baseSize);
      StartAdd(q, was - i, baseSize);
      Locate(q + (was - i), baseSize, r);
    }

    /** write's work once room has been made. */
    method WriteGrown(data: seq<byte>, ghost i: nat, ghost target: nat, ghost before: seq<byte>, ghost was: nat)
      returns (status: Status)
      requires Memory() && |data| > 0 && position <= size && cur != null
      requires At(cur, i, Rem(position, baseSize), target) && before <= Contents()
      requires target == position || (position < Start(was, baseSize) && target == Start(was, baseSize) + Rem(position, baseSize))
      modifies this`position, this`size, this`cur, store
      ensures status == if target + |data| <= capacity then Done else NullNode
      ensures status == Done ==>
        && Wrote(before, Contents(), target, data) && |Contents()| == capacity
        && position == old(position) + |data| && size == (if position > old(size) then position else old(size))
        && (NodeIs(cur, NodeOf(position, baseSize)) <==> target == old(position))
    {
      DivideIsDivision(position, baseSize);
      ghost var end, off;
      status, end, off := WriteOver(data, i, position % baseSize, target, before);
      if status == Done {
        EndIsAligned(end, off, target, old(position), was, |data|);
        if position > size {
          size := position;
        }
      }
    }

    method WriteOver(data: seq<byte>, ghost i0: nat, npos: nat, ghost p: nat, ghost before: seq<byte>)
      returns (status: Status, ghost i: nat, ghost off: nat)
      requires Memory() && |data| > 0 && cur != null && At(cur, i0, npos, p) && before <= Contents()
      modifies this`position, this`cur, store
      ensures status == if p + |data| <= capacity then Done else NullNode
      ensures status == Done ==>
        && Wrote(before, Contents(), p, data) && |Contents()| == capacity
        && position == old(position) + |data| && NodeIs(cur, i) && Split(i, off, p + |data|)
    {
      ghost var grown := Contents();
      FlattenLength(ChunksOf(), baseSize);
      status, i, off := WriteAt(data, i0, npos, p);
      if status == Done { SpliceWrote(before, grown, p, data); }
    }

    /** write as written, in a well-formed buffer. It refines writing into a flat buffer exactly when
        WriteSafe held: otherwise the bytes land behind the old capacity, or past the end of the list. */
    method Write(data: seq<byte>) returns (status: Status)
      requires Valid()
      modifies this`position, this`size, this`capacity, this`cur, this`nodes, this`store, nodes, store
      ensures status == if |data| == 0 || old(Target()) + |data| <= capacity then Done else NullNode
      ensures |data| == 0 ==> unchanged(this) && Valid() && Contents() == old(Contents())
      ensures capacity == old(Grown(|data|))
      ensures status == Done ==>
        && Memory() && |Contents()| == capacity && position <= size
        && position == old(position) + |data|
        && size == (if position > old(size) then position else old(size))
      ensures status == Done && |data| > 0 ==>
        && Wrote(old(Contents()), Contents(), old(Target()), data)
        && (NodeIs(cur, NodeOf(position, baseSize)) <==> old(WriteSafe()))
      ensures old(WriteSafe()) ==> status == Done && size <= capacity
      ensures old(nodes) <= nodes && old(store) <= store && |nodes| == |store|
      ensures forall i :: |old(nodes)| <= i < |nodes| ==> fresh(nodes[i]) && fresh(store[i])
    {
      ContentsLength();
      if |data| == 0 {
        return Done;
      }
      CursorInRange(position);
      ghost var was := |nodes|;
      ghost var i := MakeRoom(|data|);
      status := WriteGrown(data, i, old(Target()), old(Contents()), was);
    }

    /** A stretch of one node is a stretch of the flat bytes. */
    lemma PieceOf(i: nat, npos: nat, m: nat)
      requires Memory() && i < |nodes| && npos + m <= baseSize
      ensures |Contents()| == capacity && Start(i, baseSize) + npos + m <= capacity
      ensures store[i][npos..npos + m] == Contents()[Start(i, baseSize) + npos..Start(i, baseSize) + npos + m]
    {
      FlattenLength(ChunksOf(), baseSize);
      assert ChunksOf()[i] == store[i][..];
      FlattenSlice(ChunksOf(), baseSize, i, npos, m);
      assert store[i][npos..npos + m] == store[i][..][npos..npos + m];
    }

    static lemma Adjoin(c: seq<byte>, p: nat, k: nat, m: nat)
      requires p + k + m <= |c|
      ensures c[p..p + k] + c[p + k..p + k + m] == c[p..p + (k + m)]
    {
    }

    /** One turn of the copying loop of both read functions. */
    method ReadTurn(node: Node, ghost i: nat, npos: nat, left: nat, ghost p: nat)
      returns (m: nat, piece: seq<byte>, after: Node?, ghost j: nat, ghost off: nat)
      requires Memory() && At(node, i, npos, p) && left > 0
      ensures m == if node.size - npos >= left then left else node.size - npos
      ensures 0 < m && p + m <= capacity == |Contents()| && piece == Contents()[p..p + m]
      ensures NodeIs(after, j) && Split(j, off, p + m)
      ensures m < left ==> off == 0 && (after == null ==> p + m == capacity)
    {
      m := if node.size - npos >= left then left else node.size - npos;
      PieceOf(i, npos, m);
      PieceEnd(i);
      piece := node.data[npos..npos + m];
      after, j, off := node, i, npos + m;
      if m == node.size - npos {
        after, j, off := node.next, i + 1, 0;
      }
    }

    /** The copying loop of both read functions: `n` bytes from node `i0`, offset `npos0`, flat position `p`. */
    method ReadLoop(start: Node, ghost i0: nat, npos0: nat, n: nat, ghost p: nat)
      returns (status: Status, buf: seq<byte>, node: Node?, ghost i: nat, ghost off: nat)
      requires Memory() && At(start, i0, npos0, p)
      ensures |Contents()| == capacity
      ensures status == if n == 0 || p + n <= capacity then Done else NullNode
      ensures status == Done ==>
        p + n <= capacity && buf == Contents()[p..p + n] && NodeIs(node, i) && Split(i, off, p + n)
    {
      node, i := start, i0;
      var npos: nat, left: nat := npos0, n;
      buf, off := [], npos;
      PieceOf(i, npos, 0);
      while left > 0
        invariant left <= n && p + (n - left) <= capacity && buf == Contents()[p..p + (n - left)]
        invariant NodeIs(node, i) && Split(i, off, p + (n - left))
        invariant left > 0 ==> i < |nodes| && off == npos
      {
        var m, piece;
        m, piece, node, i, off := ReadTurn(node, i, npos, left, p + (n - left));
        Adjoin(Contents(), p, n - left, m);
        buf := buf + piece;
        left := left - m;
        if left > 0 {
          if node == null {
            return NullNode, buf, node, i, off;
          }
          npos := 0;
        }
      }
      status := Done;
    }

    /** read(buf, size): refuses more than ReadSize(); reading nothing at the very end of the list follows the null node. */
    method Read(n: nat) returns (status: Status, buf: seq<byte>)
      requires Valid()
      modifies this`position, this`cur
      ensures Valid()
      ensures status == (if n > old(ReadSize()) then OutOfRange else if old(position) == capacity then NullNode else Done)
      ensures status == Done ==> position == old(position) + n <= |Contents()| && buf == Contents()[old(position)..position]
      ensures status != Done ==> position == old(position) && buf == []
    {
      CursorInRange(position);
      if n > ReadSize() {
        return OutOfRange, [];
      }
      if cur == null {
        return NullNode, [];
      }
      var npos := position % baseSize;
      ghost var i, off;
      var node;
      ghost var at := NodeOf(position, baseSize);
      status, buf, node, i, off := ReadLoop(cur, at, npos, n, position);
      cur, position := node, position + n;
      Locate(i, baseSize, off);
    }

    /** The flat position at which read(buf, size, st) really starts: the cached node, at the offset of `st`. */
    ghost function ReadsFrom(st: nat): nat
      reads this`position
      requires baseSize >= 1
    {
      Start(NodeOf(position, baseSize), baseSize) + Rem(st, baseSize)
    }

    lemma SameNode(st: nat)
      requires baseSize >= 1
      ensures ReadsFrom(st) == st <==> NodeOf(st, baseSize) == NodeOf(position, baseSize)
    {
      var i, j := NodeOf(st, baseSize), NodeOf(position, baseSize);
      Divide(st, baseSize);
      if i < j { StartMonotone(i, j, baseSize); }
      if j < i { StartMonotone(j, i, baseSize); }
    }

    /** read(buf, size, st), which starts at the cached node whatever `st` is; m_size - st is a 64-bit difference. It
        returns the bytes at `st` exactly if `st` is in that node. */
    method ReadAt(n: nat, st: nat) returns (status: Status, buf: seq<byte>)
      requires Valid() && st < 0x1_0000_0000_0000_0000
      ensures |Contents()| == capacity
      ensures status ==
        if n > (if st <= size then size - st else size + 0x1_0000_0000_0000_0000 - st) then OutOfRange
        else if position == capacity || (n > 0 && ReadsFrom(st) + n > capacity) then NullNode
        else Done
      ensures status == Done ==> ReadsFrom(st) + n <= capacity && buf == Contents()[ReadsFrom(st)..ReadsFrom(st) + n]
      ensures ReadsFrom(st) == st <==> NodeOf(st, baseSize) == NodeOf(position, baseSize)
    {
      CursorInRange(position);
      ContentsLength();
      Divide(st, baseSize);
      DivideIsDivision(st, baseSize);
      SameNode(st);
      var available := if st <= size then size - st else size + 0x1_0000_0000_0000_0000 - st;
      if n > available {
        return OutOfRange, [];
      }
      if cur == null {
        return NullNode, [];
      }
      var npos := st % baseSize;
      ghost var i, off;
      var node;
      ghost var at := NodeOf(position, baseSize);
      status, buf, node, i, off := ReadLoop(cur, at, npos, n, ReadsFrom(st));
    }

    /** toString: what is left to read. */
    method ToString() returns (s: seq<byte>)
      requires Valid() && size < 0x1_0000_0000_0000_0000
      ensures size <= |Contents()| && s == Contents()[position..size]
    {
      ContentsLength();
      if ReadSize() == 0 {
        return [];
      }
      CursorInRange(position);
      var status;
      status, s := ReadAt(ReadSize(), position);
    }

    /** setPosition's walk from the root. The source does not test for null: walking off the list is a fault. */
    method WalkTo(v: nat)
      requires Memory() && v <= capacity
      modifies this`cur
      ensures if v < capacity then NodeIs(cur, NodeOf(v, baseSize)) && cur != null else cur == null
    {
      cur := root;
      var rest: nat := v;
      ghost var i: nat := 0;
      while cur != null && rest >= cur.size
        invariant NodeIs(cur, i) && v == Start(i, baseSize) + rest
        decreases |nodes| - i
      {
        PieceEnd(i);
        rest := rest - cur.size;
        cur := cur.next;
        i := i + 1;
      }
      if cur != null {
        PieceEnd(i);
        Locate(i, baseSize, rest);
      }
    }

    /** setPosition: refuses positions behind the capacity; the capacity itself walks off the list. */
    method SetPosition(v: nat) returns (status: Status)
      requires Shape()
      modifies this`position, this`size, this`cur
      ensures status == if v > capacity then OutOfRange else if v == capacity then NullNode else Done
      ensures status == OutOfRange ==> unchanged(this)
      ensures status != OutOfRange ==> position == v
      ensures status == Done ==> Valid() && size == if v > old(size) then v else old(size)
    {
      if v > capacity {
        return OutOfRange;
      }
      position := v;
      if position > size {
        size := position;
      }
      WalkTo(v);
      status := if cur == null then NullNode else Done;
    }

    // ------------------------------------------------------------------ gather, scatter

    /** `r` is the memory behind flat positions from p on, inside one node. */
    ghost predicate Maps(r: Region, p: nat)
      reads this`store
    {
      && NodeOf(p, baseSize) < |store| && r.base == store[NodeOf(p, baseSize)] && r.off == Rem(p, baseSize)
      && r.len > 0 && r.off + r.len <= baseSize
    }

    /** The regions map the flat positions from..to, in order and without gaps. */
    ghost predicate Covers(rs: seq<Region>, from: nat, to: nat)
      reads this`store
    {
      if rs == [] then from == to else Maps(rs[0], from) && Covers(rs[1..], from + rs[0].len, to)
    }

    lemma {:induction false} CoversAppend(rs: seq<Region>, from: nat, mid: nat, r: Region)
      requires Covers(rs, from, mid) && Maps(r, mid)
      ensures Covers(rs + [r], from, mid + r.len)
    {
      if rs == [] {
        assert (rs + [r])[1..] == [];
      } else {
        assert (rs + [r])[1..] == rs[1..] + [r];
        CoversAppend(rs[1..], from + rs[0].len, mid, r);
      }
    }

    /** All regions but the last reach to the end of their nodes. */
    ghost predicate Full(rs: seq<Region>) {
      forall i :: 0 <= i < |rs| - 1 ==> rs[i].off + rs[i].len == baseSize
    }

    /** There is only one way to cover a stretch with full regions: two walks that do so agree. */
    lemma {:induction false} CoversUnique(rs: seq<Region>, qs: seq<Region>, from: nat, to: nat)
      requires Memory() && Covers(rs, from, to) && Covers(qs, from, to) && Full(rs) && Full(qs) && from <= to
      ensures rs == qs
      decreases |rs|
    {
      if rs == [] {
        if qs != [] { CoversAhead(qs[1..], from + qs[0].len, to); }
      } else if qs == [] {
        CoversAhead(rs[1..], from + rs[0].len, to);
      } else {
        CoversAhead(rs[1..], from + rs[0].len, to);
        CoversAhead(qs[1..], from + qs[0].len, to);
        FirstLength(rs, from, to);
        FirstLength(qs, from, to);
        assert forall i :: 0 <= i < |rs[1..]| ==> rs[1..][i] == rs[i + 1];
        assert forall i :: 0 <= i < |qs[1..]| ==> qs[1..][i] == qs[i + 1];
        CoversUnique(rs[1..], qs[1..], from + rs[0].len, to);
        assert rs == [rs[0]] + rs[1..] && qs == [qs[0]] + qs[1..];
      }
    }

    lemma {:induction false} CoversAhead(rs: seq<Region>, from: nat, to: nat)
      requires Covers(rs, from, to)
      ensures from <= to && (rs != [] ==> from < to)
    {
      if rs != [] { CoversAhead(rs[1..], from + rs[0].len, to); }
    }

    /** The first of several full regions ends where the node or the stretch does, whichever comes first. */
    lemma FirstLength(rs: seq<Region>, from: nat, to: nat)
      requires Covers(rs, from, to) && Full(rs) && rs != []
      ensures rs[0].len == if Rem(from, baseSize) + (to - from) <= baseSize then to - from else baseSize - Rem(from, baseSize)
    {
      CoversAhead(rs[1..], from + rs[0].len, to);
      if |rs| == 1 { assert rs[1..] == []; } else { assert rs[1..] != []; }
    }

    /** What the regions' memory holds, one after the other. */
    static ghost function Gather(rs: seq<Region>): seq<byte>
      reads set r | r in rs :: r.base
      requires forall r :: r in rs ==> r.off + r.len <= r.base.Length
    {
      if rs == [] then [] else rs[0].base[rs[0].off..rs[0].off + rs[0].len] + Gather(rs[1..])
    }

    /** One mapped region holds the bytes at its flat position. */
    lemma MapsBytes(r: Region, p: nat)
      requires Memory() && Maps(r, p)
      ensures |Contents()| == capacity && p + r.len <= capacity && r.off + r.len <= r.base.Length
      ensures r.base[r.off..r.off + r.len] == Contents()[p..p + r.len]
    {
      Divide(p, baseSize);
      PieceOf(NodeOf(p, baseSize), r.off, r.len);
    }

    lemma {:induction false} CoversInRange(rs: seq<Region>, from: nat, to: nat)
      requires Memory() && Covers(rs, from, to) && from <= capacity
      ensures from <= to <= capacity && forall r :: r in rs ==> r.off + r.len <= r.base.Length
    {
      if rs != [] {
        MapsBytes(rs[0], from);
        CoversInRange(rs[1..], from + rs[0].len, to);
        assert forall x :: x in rs ==> x == rs[0] || x in rs[1..];
      }
    }

    /** Covering regions gather exactly the covered bytes. */
    lemma {:induction false} CoversGather(rs: seq<Region>, from: nat, to: nat)
      requires Memory() && Covers(rs, from, to) && from <= to <= capacity == |Contents()|
      requires forall r :: r in rs ==> r.off + r.len <= r.base.Length
      ensures Gather(rs) == Contents()[from..to]
    {
      if rs != [] {
        MapsBytes(rs[0], from);
        var mid := from + rs[0].len;
        CoversInRange(rs[1..], mid, to);
        CoversGather(rs[1..], mid, to);
        Adjoin(Contents(), from, rs[0].len, to - mid);
      }
    }

    /** Covering regions do not overlap. */
    lemma {:induction false} CoversDisjoint(rs: seq<Region>, from: nat, to: nat, a: nat, b: nat)
      requires Memory() && Covers(rs, from, to) && a < b < |rs|
      ensures rs[a].base != rs[b].base || rs[a].off + rs[a].len <= rs[b].off
      decreases |rs|
    {
      if a > 0 {
        CoversDisjoint(rs[1..], from + rs[0].len, to, a - 1, b - 1);
      } else {
        var q := CoversAt(rs[1..], from + rs[0].len, to, b - 1);
        var i, j := NodeOf(from, baseSize), NodeOf(q, baseSize);
        Divide(from, baseSize);
        Divide(q, baseSize);
        if i == j {
        } else {
          assert store[i] != store[j];
        }
      }
    }

    /** The flat position of one of the regions. */
    lemma {:induction false} CoversAt(rs: seq<Region>, from: nat, to: nat, k: nat) returns (q: nat)
      requires Covers(rs, from, to) && k < |rs|
      ensures from <= q && Maps(rs[k], q)
    {
      if k == 0 {
        q := from;
      } else {
        q := CoversAt(rs[1..], from + rs[0].len, to, k - 1);
      }
    }

    /** One turn of the loop of the three buffer functions: the next iovec, and the node to go on with. */
    method RegionTurn(node: Node, ghost i: nat, npos: nat, left: nat, ghost p: nat)
      returns (iov: Region, after: Node?, ghost j: nat)
      requires Memory() && At(node, i, npos, p) && left > 0
      ensures iov.len == (if node.size - npos >= left then left else node.size - npos)
      ensures Maps(iov, p) && p + iov.len <= capacity
      ensures iov.len < left ==>
        && iov.off + iov.len == baseSize && NodeIs(after, j) && Split(j, 0, p + iov.len)
        && (after == null ==> p + iov.len == capacity)
    {
      Locate(i, baseSize, npos);
      PieceEnd(i);
      after, j := node, i;
      if node.size - npos >= left {
        iov := Region(node.data, npos, left);
      } else {
        iov := Region(node.data, npos, node.size - npos);
        after, j := node.next, i + 1;
      }
    }

    /** The loop of the three buffer functions: `len` bytes from node `i0`, offset `npos0`, flat position `p`. */
    method RegionLoop(start: Node, ghost i0: nat, npos0: nat, len: nat, ghost p: nat)
      returns (status: Status, rs: seq<Region>)
      requires Memory() && At(start, i0, npos0, p)
      ensures status == if len == 0 || p + len <= capacity then Done else NullNode
      ensures status == Done ==> Covers(rs, p, p + len) && Full(rs)
    {
      var node: Node?, npos: nat, left: nat := start, npos0, len;
      ghost var i: nat := i0;
      rs := [];
      PieceEnd(i);
      while left > 0
        invariant left <= len && p + (len - left) <= capacity && Covers(rs, p, p + (len - left))
        invariant Full(rs) && (left > 0 && rs != [] ==> rs[|rs| - 1].off + rs[|rs| - 1].len == baseSize)
        invariant left > 0 ==> node != null && At(node, i, npos, p + (len - left))
      {
        var iov, after;
        iov, after, i := RegionTurn(node, i, npos, left, p + (len - left));
        CoversAppend(rs, p, p + (len - left), iov);
        rs := rs + [iov];
        left := left - iov.len;
        if left > 0 {
          node := after;
          if node == null {
            return NullNode, rs;
          }
          npos := 0;
        }
      }
      status := Done;
    }

    /** getReadBuffers(buffers, len), from the cached node. */
    method GetReadBuffers(len: nat) returns (n: nat, rs: seq<Region>)
      requires Valid()
      ensures n == if len > ReadSize() then ReadSize() else len
      ensures Covers(rs, position, position + n) && Full(rs)
    {
      CursorInRange(position);
      n := if len > ReadSize() then ReadSize() else len;
      if n == 0 {
        return 0, [];
      }
      var status;
      status, rs := RegionLoop(cur, NodeOf(position, baseSize), position % baseSize, n, position);
    }

    /** getReadBuffers(buffers, len, position): walks from the root to `at`, but caps the length by what is left
        from the buffer's own position, so behind that position it may run past the high-water mark. */
    method GetReadBuffersAt(len: nat, at: nat) returns (status: Status, n: nat, rs: seq<Region>)
      requires Valid()
      ensures n == if len > ReadSize() then ReadSize() else len
      ensures status == if n == 0 || at + n <= capacity then Done else NullNode
      ensures status == Done ==> Covers(rs, at, at + n) && Full(rs)
      ensures status == Done && at <= position ==> at + n <= size
    {
      n := if len > ReadSize() then ReadSize() else len;
      if n == 0 {
        return Done, 0, [];
      }
      DivideIsDivision(at, baseSize);
      Divide(at, baseSize);
      var npos: nat, count: nat := at % baseSize, at / baseSize;
      var node: Node? := root;
      ghost var i: nat := 0;
      while count > 0 && node != null
        invariant i + count == NodeOf(at, baseSize) && NodeIs(node, i)
      {
        node := node.next;
        count := count - 1;
        i := i + 1;
      }
      if node == null {
        StartMonotone(|nodes|, NodeOf(at, baseSize), baseSize);
        return NullNode, n, [];
      }
      status, rs := RegionLoop(node, i, npos, n, at);
    }

    /** getWriteBuffers: room for `len` bytes and the regions that hold them, at Target() like write. */
    method GetWriteBuffers(len: nat) returns (status: Status, rs: seq<Region>)
      requires Valid()
      modifies this`capacity, this`nodes, this`store, this`cur, nodes
      ensures Shape() && capacity == old(Grown(len)) && old(Contents()) <= Contents()
      ensures old(nodes) <= nodes && old(store) <= store
      ensures forall k :: |old(nodes)| <= k < |nodes| ==> fresh(nodes[k]) && fresh(store[k])
      ensures status == if len == 0 || old(Target()) + len <= capacity then Done else NullNode
      ensures status == Done ==> Covers(rs, old(Target()), old(Target()) + len) && Full(rs)
      ensures old(WriteSafe()) ==> status == Done && Valid()
    {
      ContentsLength();
      if len == 0 {
        return Done, [];
      }
      CursorInRange(position);
      ghost var i := MakeRoom(len);
      DivideIsDivision(position, baseSize);
      status, rs := RegionLoop(cur, i, position % baseSize, len, old(Target()));
      Locate(i, baseSize, Rem(position, baseSize));
    }

    /** Writing the start of a mapped region writes the flat bytes behind it. */
    method FillRegion(r: Region, data: seq<byte>, from: nat, m: nat, ghost p: nat)
      requires Memory() && Maps(r, p) && m <= r.len && from + m <= |data|
      modifies r.base
      ensures p + m <= |old(Contents())| && Contents() == Splice(old(Contents()), p, data[from..from + m])
    {
      ghost var i := NodeOf(p, baseSize);
      Divide(p, baseSize);
      ghost var before := ChunksOf();
      assert before[i] == r.base[..];
      FlattenUpdate(before, baseSize, i, r.off, data[from..from + m]);
      CopyIn(r.base, r.off, data, from, m);
      assert ChunksOf() == before[i := Splice(before[i], r.off, data[from..from + m])];
    }

    /** The next `m` bytes received go into the region that is mapped there. */
    method FillPiece(r: Region, data: seq<byte>, bpos: nat, m: nat, ghost start: seq<byte>, ghost p: nat)
      requires Memory() && Maps(r, p + bpos) && m <= r.len && bpos + m <= |data| && Progress(start, p, data, bpos)
      modifies r.base
      ensures Progress(start, p, data, bpos + m)
    {
      FillRegion(r, data, bpos, m, p + bpos);
      NextPiece(start, p, data, bpos, m);
    }

    /** One iovec filled: one more piece of the bytes received. */
    method FillTurn(rs: seq<Region>, k: nat, data: seq<byte>, bpos: nat, ghost start: seq<byte>, ghost p: nat, ghost to: nat)
      returns (next: nat)
      requires Memory() && k <= |rs| && Covers(rs[k..], p + bpos, to) && bpos < |data| && p + |data| <= to
      requires Progress(start, p, data, bpos)
      modifies store
      ensures k < |rs| && Progress(start, p, data, next)
      ensures next < |data| ==> Covers(rs[k + 1..], p + next, to)
    {
      var r := rs[k];
      assert rs[k..][0] == r && rs[k..][1..] == rs[k + 1..];
      var m: nat := if r.len >= |data| - bpos then |data| - bpos else r.len;
      FillPiece(r, data, bpos, m, start, p);
      next := bpos + m;
    }

    lemma NothingYet(p: nat, data: seq<byte>)
      requires Memory() && p <= capacity
      ensures Progress(Contents(), p, data, 0)
    {
      FlattenLength(ChunksOf(), baseSize);
    }

    /** What readv or recvmsg does with an iovec: fill the regions in order with the bytes received. */
    method Receive(rs: seq<Region>, data: seq<byte>, ghost from: nat, ghost to: nat)
      requires Memory() && Covers(rs, from, to) && from + |data| <= to <= capacity
      modifies store
      ensures from + |data| <= |old(Contents())| && Contents() == Splice(old(Contents()), from, data)
    {
      var k: nat, bpos: nat := 0, 0;
      ghost var start := Contents();
      NothingYet(from, data);
      assert rs[0..] == rs;
      while bpos < |data|
        invariant k <= |rs| && Progress(start, from, data, bpos)
        invariant bpos < |data| ==> Covers(rs[k..], from + bpos, to)
        decreases |rs| - k
      {
        bpos := FillTurn(rs, k, data, bpos, start, from, to);
        k := k + 1;
      }
      ProgressEnd(start, from, data);
    }

    /** Room for `len` bytes at the end, and fewer of them received into it. */
    method ReceiveInto(len: nat, data: seq<byte>)
      requires Valid() && position == size && 0 < |data| <= len
      modifies this`capacity, this`nodes, this`store, this`cur, nodes, store
      ensures Shape() && capacity == |Contents()| == old(Grown(len)) >= position + len
      ensures Contents()[position..position + |data|] == data
    {
      ghost var before := position;
      var status, rs := GetWriteBuffers(len);
      Receive(rs, data, before, before + len);
      ContentsLength();
    }

    /** Receiving through getWriteBuffers: advance over what came in, go back, and toString returns exactly it -
        unless it came to fill the buffer to the brim, where setPosition walks off the list. */
    method ReceiveAndShow(len: nat, data: seq<byte>) returns (status: Status, s: seq<byte>)
      requires Valid() && position == size && 0 < |data| <= len
      requires position + len < 0x1_0000_0000_0000_0000
      modifies this`capacity, this`nodes, this`store, this`cur, this`position, this`size, nodes, store
      ensures capacity == old(Grown(len))
      ensures status == if old(position) + |data| == capacity then NullNode else Done
      ensures status == Done ==> Valid() && position == old(position) && size == position + |data| && s == data
    {
      s := [];
      ReceiveInto(len, data);
      var at := position;
      status := SetPosition(at + |data|);
      if status == Done {
        status := SetPosition(at);
        s := ToString();
      }
    }

    /** One round of the echo server: its 4096-byte nodes leave room behind any 1024 bytes received. */
    method EchoRound(data: seq<byte>) returns (s: seq<byte>)
      requires Valid() && baseSize == 4096 && 0 < |data| <= 1024
      modifies this`capacity, this`nodes, this`store, this`cur, this`position, this`size, nodes, store
      ensures Valid() && position == 0 && size == |data| && s == data
    {
      Clear();
      var status;
      status, s := ReceiveAndShow(1024, data);
    }
  }
}
