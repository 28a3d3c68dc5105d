// The video packet buffer: a singly linked list of packets, oldest at `tail`, newest at `head`,
// trimmed by timestamp on every add, whose dropped nodes go to a pool and are used again. An add
// that drops its own packet leaves `head` on a pooled node, and from then on the list is lost.

module PacketBuffer {
  import opened CLib
  import opened Codec
  import opened PacketWindow

  class PacketNode {
    var next: PacketNode?
    var packet: Packet

    constructor ()
      ensures next == null && packet == BLANK_PACKET
    {
      next := null;
      packet := BLANK_PACKET;
    }
  }

  /** `ns` is the null-terminated list that starts at `first`. */
  ghost predicate Linked(ns: seq<PacketNode>, first: PacketNode?)
    reads ns
  {
    && first == (if ns == [] then null else ns[0])
    && forall i {:trigger ns[i].next} :: 0 <= i < |ns| ==> ns[i].next == if i + 1 < |ns| then ns[i + 1] else null
  }

  ghost predicate Distinct(ns: seq<PacketNode>) {
    forall i, j :: 0 <= i < j < |ns| ==> ns[i] != ns[j]
  }

  /** `live`, `pooled` and `spare` are disjoint and make up all the nodes. */
  ghost predicate Parts(live: seq<PacketNode>, pooled: seq<PacketNode>, spare: set<PacketNode>, nodes: set<PacketNode>) {
    && Distinct(live) && Distinct(pooled)
    && (forall n :: n in live ==> n in nodes && n !in pooled && n !in spare)
    && (forall n :: n in pooled ==> n in nodes && n !in spare)
    && (forall n :: n in nodes ==> n in live || n in pooled || n in spare)
    && spare <= nodes
    && |nodes| == |live| + |pooled| + |spare|
  }

  lemma SplitFirst(ns: seq<PacketNode>)
    requires ns != [] && Distinct(ns)
    ensures Distinct(ns[1..]) && ns[0] !in ns[1..]
    ensures forall n :: n in ns <==> n == ns[0] || n in ns[1..]
  {
    assert ns == [ns[0]] + ns[1..];
  }

  lemma FirstPooledTaken(live: seq<PacketNode>, pooled: seq<PacketNode>, spare: set<PacketNode>, nodes: set<PacketNode>)
    requires Parts(live, pooled, spare, nodes) && pooled != []
    ensures Parts(live, pooled[1..], spare + {pooled[0]}, nodes) && pooled[0] !in spare
  {
    SplitFirst(pooled);
  }

  lemma FirstLivePooled(live: seq<PacketNode>, pooled: seq<PacketNode>, spare: set<PacketNode>, nodes: set<PacketNode>)
    requires Parts(live, pooled, spare, nodes) && live != []
    ensures Parts(live[1..], [live[0]] + pooled, spare, nodes)
  {
    SplitFirst(live);
  }

  lemma SpareAppended(live: seq<PacketNode>, pooled: seq<PacketNode>, spare: set<PacketNode>, nodes: set<PacketNode>,
                      node: PacketNode)
    requires Parts(live, pooled, spare + {node}, nodes) && node !in spare
    ensures Parts(live + [node], pooled, spare, nodes) && node !in live && node !in pooled
  {
  }

  lemma LastOfSuffix(ns: seq<PacketNode>, n: nat)
    requires n < |ns|
    ensures ns[n..] != [] && ns[n..][|ns[n..]| - 1] == ns[|ns| - 1]
  {
  }

  ghost predicate Carry(ns: seq<PacketNode>, packets: seq<Packet>)
    reads ns
  {
    && |ns| == |packets|
    && forall i {:trigger ns[i].packet} :: 0 <= i < |ns| ==> ns[i].packet == packets[i]
  }

  ghost predicate Blank(ns: seq<PacketNode>)
    reads ns
  {
    forall i {:trigger ns[i].packet} :: 0 <= i < |ns| ==> ns[i].packet == BLANK_PACKET
  }

  class RSBuffer {
    // whether everything it asks the libraries for is granted
    const reliable: bool
    const window: Nat64
    var pool: PacketNode?
    var tail: PacketNode?
    var head: PacketNode?
    ghost var live: seq<PacketNode>
    ghost var pooled: seq<PacketNode>
    ghost var packets: seq<Packet>
    // every node this buffer ever allocated, and those it has given back to the system
    ghost var nodes: set<PacketNode>
    ghost var freed: set<PacketNode>
    // nodes that are in neither list any more
    ghost var stray: set<PacketNode>
    // every packet whose add succeeded
    ghost var history: seq<Packet>

    /** Two disjoint acyclic lists, the live one starting at `first`, that together with the
        nodes in `spare` make up every allocated node. */
    ghost predicate Shape(first: PacketNode?, spare: set<PacketNode>)
      reads `pool, `live, `pooled, `packets, `nodes, `freed, live, pooled
    {
      && Linked(live, first) && Carry(live, packets)
      && Linked(pooled, pool) && Blank(pooled)
      && Parts(live, pooled, spare, nodes)
      && freed == {}
    }

    /** The live list can be walked from `tail`. */
    ghost predicate Readable()
      reads `tail, `live, `packets, live
    {
      && Linked(live, tail)
      && Carry(live, packets)
    }

    /** `head` is the last live node. */
    ghost predicate InOrder()
      reads `head, `live, `stray
    {
      stray == {} && head == (if live == [] then null else live[|live| - 1])
    }

    /** Nothing is live, and `head` is the first node of the pool or a node of neither list. */
    ghost predicate Adrift()
      reads `head, `tail, `live, `pooled, `stray
    {
      && tail == null && live == [] && head != null
      && (head in stray || (stray == {} && pooled != [] && head == pooled[0]))
    }

    ghost predicate Linkable()
      reads `pool, `tail, `head, `live, `pooled, `packets, `nodes, `freed, `stray, nodes, live, pooled
    {
      && Shape(tail, stray)
      && (InOrder() || Adrift())
    }

    /** The live list holds exactly what the history leaves in the window, in order unless the
        packets are lost, and the number of nodes ever allocated is the most the run has needed
        at once. */
    ghost predicate Valid()
      reads this, nodes, live, pooled
    {
      && Linkable()
      && (InOrder() <==> !Lost(history, window))
      && packets == Live(history, window)
      && |live| + |stray| == Held(history, window)
      && |nodes| == Peak(history, window)
    }

    constructor (recordSeconds: nat, reliable: bool)
      requires 1 <= recordSeconds <= INT_MAX / TIME_BASE
      ensures Valid() && history == [] && nodes == {}
      ensures window == recordSeconds * TIME_BASE && this.reliable == reliable
    {
      this.reliable := reliable;
      window := recordSeconds * TIME_BASE;
      pool, tail, head := null, null, null;
      live, pooled, packets, history := [], [], [], [];
      nodes, freed, stray := {}, {}, {};
    }

    /** bufferPacketCreate, when the pool has a node. */
    method TakePooled() returns (node: PacketNode)
      requires Shape(tail, stray) && pool != null
      modifies this`pool, this`pooled, pooled
      ensures node == old(pooled[0]) && pooled == old(pooled[1..])
      ensures node !in stray && Shape(tail, stray + {node})
      ensures node.next == null && node.packet == BLANK_PACKET
    {
      FirstPooledTaken(live, pooled, stray, nodes);
      node := pool;
      pool := node.next;
      node.next := null;
      pooled := pooled[1..];
    }

    /** bufferPacketCreate: takes a node from the pool, or allocates one when the pool is empty. */
    method PacketCreate() returns (node: PacketNode?)
      requires Shape(tail, stray)
      modifies this`pool, this`pooled, this`nodes, pooled
      ensures forall n :: n in nodes ==> n in old(nodes) || fresh(n)
      ensures node == null ==> !reliable
      ensures node == null ==> pooled == old(pooled) == [] && nodes == old(nodes) && Shape(tail, stray)
      ensures node != null ==> |nodes| == Max(|old(nodes)|, |live| + |stray| + 1)
      ensures node != null ==>
                && node !in stray && Shape(tail, stray + {node})
                && node.next == null && node.packet == BLANK_PACKET
                && if old(pooled) == [] then fresh(node) && nodes == old(nodes) + {node} && pooled == []
                   else node == old(pooled[0]) && nodes == old(nodes) && pooled == old(pooled[1..])
    {
      if pool != null {
        node := TakePooled();
        return;
      }
      node := AllocateNode();
    }

    /** The same when it has none. */
    method AllocateNode() returns (node: PacketNode?)
      requires Shape(tail, stray) && pooled == []
      modifies this`nodes
      ensures node == null ==> !reliable && nodes == old(nodes)
      ensures node != null ==>
                && fresh(node) && node.next == null && node.packet == BLANK_PACKET
                && node !in old(nodes) && node !in stray && nodes == old(nodes) + {node} && Shape(tail, stray + {node})
    {
      var outOfMemory: bool := *;
      if !reliable && outOfMemory {
        return null;
      }
      node := new PacketNode();
      nodes := nodes + {node};
    }

    /** bufferPacketDestroy on the oldest live node: blanks it and puts it on the pool. */
    method PacketDestroy(node: PacketNode)
      requires Shape(node, stray)
      modifies this`pool, this`pooled, this`live, this`packets, node
      ensures live == old(live[1..]) && packets == old(packets[1..])
      ensures pooled == [node] + old(pooled)
      ensures Shape(old(node.next), stray)
    {
      FirstLivePooled(live, pooled, stray, nodes);
      SplitFirst(live);
      node.packet := BLANK_PACKET;
      node.next := pool;
      pool := node;
      pooled := [node] + pooled;
      live := live[1..];
      packets := packets[1..];
    }

    /** Links a node behind `head`, the last live node: it becomes live. */
    method Append(node: PacketNode, packet: Packet)
      requires node !in stray && Shape(tail, {node}) && node.next == null && InOrder()
      modifies this`tail, this`head, this`live, this`packets, node
      modifies if head == null then {} else {head}
      ensures head == node && Shape(tail, {}) && InOrder()
      ensures live == old(live) + [node] && packets == old(packets) + [packet]
      ensures nodes == old(nodes) && stray == old(stray)
    {
      SpareAppended(live, pooled, {}, nodes, node);
      node.packet := packet;
      if head == null {
        tail := node;
        head := node;
      } else {
        assert head in live;
        head.next := node;
        head := node;
      }
      live := live + [node];
      packets := packets + [packet];
    }

    /** The same with `head` on a node that is not live: the new node ends up in neither list. */
    method AppendAdrift(node: PacketNode, packet: Packet)
      requires node !in stray && Shape(tail, stray + {node}) && node.next == null
      requires tail == null && live == [] && head != null && (head in stray || head == node)
      modifies this`head, this`stray, node, head
      ensures head == node && Shape(tail, stray) && old(head).next == node
      ensures stray == old(stray) + {node} && nodes == old(nodes)
      ensures tail == null && live == [] && packets == []
    {
      node.packet := packet;
      head.next := node;
      head := node;
      stray := stray + {node};
    }

    /** The removal loop: drops nodes from the front until one is not older than `startTime`. */
    method DropOlder(startTime: int)
      requires Shape(tail, stray)
      modifies this`pool, this`tail, this`pooled, this`live, this`packets, nodes
      ensures Shape(tail, stray)
      ensures packets == old(packets[Stale(packets, startTime)..])
      ensures live == old(live[Stale(packets, startTime)..])
      ensures old(Stale(packets, startTime)) > 0 ==>
                pooled != [] && pooled[0] == old(live[Stale(packets, startTime) - 1])
      ensures old(Stale(packets, startTime)) == 0 ==> pooled == old(pooled)
    {
      var remove := tail;
      ghost var k := 0;
      while remove != null && remove.packet.pts < startTime
        invariant Shape(remove, stray) && k + |live| == |old(live)|
        invariant live == old(live)[k..] && packets == old(packets)[k..]
        invariant k + Stale(packets, startTime) == Stale(old(packets), startTime)
        invariant if k == 0 then pooled == old(pooled) else pooled != [] && pooled[0] == old(live)[k - 1]
        decreases |live|
      {
        var next := remove.next;
        PacketDestroy(remove);
        remove := next;
        k := k + 1;
      }
      tail := remove;
    }

    /** First half of rsBufferAddPacket: a node for the packet, linked behind `head`. */
    method Push(packet: Packet) returns (ret: int)
      requires Linkable()
      modifies this`pool, this`tail, this`head, this`live, this`pooled, this`packets, this`nodes, this`stray, nodes
      ensures Linkable() && (ret == 0 || (ret == ERROR_NO_MEMORY && !reliable))
      ensures forall n :: n in nodes ==> n in old(nodes) || fresh(n)
      ensures InOrder() == old(InOrder())
      ensures ret == 0 && InOrder() ==> packets == old(packets) + [packet]
      ensures ret == 0 && !InOrder() ==> |stray| == |old(stray)| + 1
      ensures ret == 0 ==> |nodes| == Max(|old(nodes)|, |old(live)| + |old(stray)| + 1)
      ensures ret < 0 ==>
                && packets == old(packets) && nodes == old(nodes) && live == old(live) && stray == old(stray)
                && pooled == old(pooled) == []
    {
      var node := PacketCreate();
      if node == null {
        return ERROR_NO_MEMORY;
      }
      // what is linked is the same either way; what it amounts to is not
      if tail == null && head != null {
        AppendAdrift(node, packet);
      } else {
        Append(node, packet);
      }
      ret := 0;
    }

    /** Trimming a list in order leaves it in order when the newest packet stays, and adrift when
        it goes too; a list adrift has nothing to trim. */
    method Trim(startTime: int)
      requires Linkable() && head != null
      modifies this`pool, this`tail, this`pooled, this`live, this`packets, nodes
      ensures Linkable()
      ensures packets == old(packets[Stale(packets, startTime)..])
      ensures InOrder() <==> old(InOrder()) && packets != []
    {
      ghost var n, before := Stale(packets, startTime), live;
      if n < |live| {
        LastOfSuffix(live, n);
      }
      DropOlder(startTime);
      assert live == before[n..];
      if n == |before| > 0 {
        assert live == [] && pooled[0] == before[n - 1];
      }
    }

    /** rsBufferAddPacket on the two lists alone. */
    method AddToLists(packet: Packet) returns (ret: int)
      requires Linkable()
      modifies this`pool, this`tail, this`head, this`live, this`pooled, this`packets, this`nodes, this`stray, nodes
      ensures Linkable() && (ret == 0 || (ret == ERROR_NO_MEMORY && !reliable))
      ensures forall n :: n in nodes ==> n in old(nodes) || fresh(n)
      ensures ret == 0 && old(InOrder()) ==>
                && packets == AddTo(old(packets), packet, window) && stray == {}
                && (InOrder() <==> packets != [])
      ensures ret == 0 && old(!InOrder()) ==>
                !InOrder() && live == [] && packets == [] && |stray| == |old(stray)| + 1
      ensures ret == 0 ==> |nodes| == Max(|old(nodes)|, |old(live)| + |old(stray)| + 1)
      ensures ret < 0 ==>
                && packets == old(packets) && nodes == old(nodes) && live == old(live) && stray == old(stray)
                && pooled == old(pooled) == [] && InOrder() == old(InOrder())
    {
      ret := Push(packet);
      if ret < 0 {
        return;
      }
      var startTime := Minus64(packet.pts, window);
      Trim(startTime);
    }

    /** rsBufferAddPacket: the list becomes what the history leaves in the window; it stays in order
        unless this very add empties it. An add that cannot allocate changes nothing. */
    method AddPacket(packet: Packet) returns (ret: int)
      requires Valid()
      modifies this, nodes
      ensures Valid() && (ret == 0 || (ret == ERROR_NO_MEMORY && !reliable))
      ensures forall n :: n in nodes ==> n in old(nodes) || fresh(n)
      ensures ret == 0 ==> history == old(history) + [packet]
      ensures ret == 0 && old(InOrder()) ==> (InOrder() <==> !Empties(old(packets), packet, window))
      ensures old(!InOrder()) ==> !InOrder() && packets == []
      ensures ret < 0 ==>
                && history == old(history) && packets == old(packets) && nodes == old(nodes)
                && live == old(live) && pooled == old(pooled) == []
    {
      OneMore(history, packet, window);
      AddEmpties(packets, packet, window);
      ret := AddToLists(packet);
      if ret == 0 {
        history := history + [packet];
        ghost var linkable := Linkable();
        assert linkable;
      }
    }

    /** bufferPacketGetStart: the first live node that holds a key frame. */
    method GetStart() returns (start: PacketNode?, ghost k: nat)
      requires Readable()
      ensures k == FirstKey(packets)
      ensures start == if FirstKey(packets) < |live| then live[FirstKey(packets)] else null
    {
      k := 0;
      start := tail;
      while start != null
        invariant k <= |live| && start == if k < |live| then live[k] else null
        invariant forall i :: 0 <= i < k ==> !packets[i].key
        decreases |live| - k
      {
        if start.packet.key {
          return;
        }
        start := start.next;
        k := k + 1;
      }
    }

    /** rsBufferGetStartTime: the timestamp of the first key frame, or AVERROR(EAGAIN). */
    method GetStartTime() returns (ret: int)
      requires Readable()
      ensures var k := FirstKey(packets);
              ret == if k < |packets| then packets[k].pts else ERROR_AGAIN
    {
      ghost var k;
      var start;
      start, k := GetStart();
      if start == null {
        return ERROR_AGAIN;
      }
      ret := start.packet.pts;
    }

    /** The body of the loop of rsBufferWrite: a copy of the packet, moved by the first timestamp. */
    method WritePacket(node: PacketNode, start: PacketNode, output: Output, stream: int) returns (ret: int)
      modifies output
      ensures ret <= 0 && (reliable && output.reliable ==> ret == 0)
      ensures output.written == if ret < 0 then old(output.written)
                                else old(output.written) + [Shifted(node.packet, stream, start.packet.pts)]
    {
      var failure: int := *;
      if !reliable && failure < 0 {
        return failure;
      }
      var packet := node.packet;
      packet := packet.(stream := stream);
      packet := packet.(pts := Minus64(packet.pts, start.packet.pts));
      packet := packet.(dts := Minus64(packet.dts, start.packet.pts));
      ret := output.Write(packet);
    }

    /** rsBufferWrite: writes the live packets from the first key frame on, shifted to start at
        zero; on a failure part of them; with no key frame nothing. */
    method Write(output: Output, stream: int) returns (ret: int)
      requires Readable()
      modifies output
      ensures ret <= 0
      ensures old(output.written) <= output.written <= old(output.written) + SavedVideo(packets, stream)
      ensures ret == 0 ==> output.written == old(output.written) + SavedVideo(packets, stream)
      ensures ret == 0 ==> FirstKey(packets) < |packets|
      ensures FirstKey(packets) == |packets| ==> ret < 0 && output.written == old(output.written)
      ensures reliable && output.reliable ==> ret == if FirstKey(packets) < |packets| then 0 else ERROR_AGAIN
    {
      var outOfMemory: bool := *;
      if !reliable && outOfMemory {
        return ERROR_NO_MEMORY;
      }
      ghost var k;
      var start;
      start, k := GetStart();
      if start == null {
        return ERROR_AGAIN;
      }
      ghost var saved := SavedVideo(packets, stream);
      SavedVideoStart(packets, stream);
      forall i | 0 <= i < |saved|
        ensures saved[i] == Shifted(packets[k + i], stream, packets[k].pts)
      {
        SavedAt(packets, stream, i);
      }
      ret := WriteList(start, k, output, stream, saved);
    }

    /** Its loop, from a live node on. */
    method WriteList(start: PacketNode, ghost k: nat, output: Output, stream: int, ghost saved: seq<Packet>)
      returns (ret: int)
      requires Readable() && k < |live| && start == live[k] && |saved| == |packets| - k
      requires forall i :: 0 <= i < |saved| ==> saved[i] == Shifted(packets[k + i], stream, packets[k].pts)
      modifies output
      ensures ret <= 0 && (reliable && output.reliable ==> ret == 0)
      ensures old(output.written) <= output.written <= old(output.written) + saved
      ensures ret == 0 ==> output.written == old(output.written) + saved
    {
      var plist: PacketNode? := start;
      ghost var i := 0;
      while plist != null
        invariant k + i <= |live| && plist == if k + i < |live| then live[k + i] else null
        invariant output.written == old(output.written) + saved[..i]
        decreases |live| - i
      {
        assert plist == live[k + i] && plist.packet == packets[k + i];
        PrefixStep(old(output.written), saved, i);
        ret := WritePacket(plist, start, output, stream);
        if ret < 0 {
          return;
        }
        plist := plist.next;
        i := i + 1;
      }
      ret := 0;
    }

    // av_freep: the caller must not free a node twice.
    method Free(node: PacketNode)
      requires node !in freed
      modifies this`freed
      ensures freed == old(freed) + {node}
    {
      freed := freed + {node};
    }

    /** First half of rsBufferDestroy: every live node goes to the pool. */
    method PoolAll()
      requires Shape(tail, stray)
      modifies this`pool, this`tail, this`pooled, this`live, this`packets, nodes
      ensures Shape(null, stray) && tail == null && live == []
    {
      var plist := tail;
      while plist != null
        invariant Shape(plist, stray)
        decreases |live|
      {
        var next := plist.next;
        PacketDestroy(plist);
        plist := next;
      }
      tail := null;
    }

    /** Second half: every pooled node is given back, each once. */
    method FreePool()
      requires Linked(pooled, pool) && Distinct(pooled) && freed == {}
      modifies this`freed
      ensures forall n :: n in freed <==> n in pooled
    {
      var plist := pool;
      ghost var k := 0;
      while plist != null
        invariant k <= |pooled| && plist == if k < |pooled| then pooled[k] else null
        invariant forall n :: n in freed <==> n in pooled[..k]
        decreases |pooled| - k
      {
        var next := plist.next;
        assert pooled[..k + 1] == pooled[..k] + [pooled[k]];
        Free(plist);
        plist := next;
        k := k + 1;
      }
      assert pooled[..k] == pooled;
    }

    /** No node is outside both lists exactly unless packets were added after all were lost. */
    lemma StrayExactly()
      requires Valid()
      ensures stray == {} <==> !(history != [] && Lost(history[..|history| - 1], window))
    {
      HeldIsLive(history, window);
    }

    /** rsBufferDestroy: gives back, each exactly once, every node ever allocated that a list still
        holds: all of them, exactly unless packets were added after all were lost. */
    method Destroy()
      requires Valid()
      modifies this, nodes
      ensures nodes == old(nodes) && freed == nodes - stray && stray == old(stray)
      ensures freed == nodes <==> !(old(history) != [] && Lost(old(history)[..|old(history)| - 1], window))
      ensures tail == null && pool == null
    {
      StrayExactly();
      PoolAll();
      FreePool();
      pool := null;
    }
  }
}
