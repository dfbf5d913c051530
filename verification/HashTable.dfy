/** The hash table as the program keeps it: an array of chain heads and nodes linked through `next`,
    updated in place. Every method is proved against the value model of `ChainedTable`. */
module HashTables {
  import opened Options
  import opened Fnv1a
  import opened ChainedTable

  /** `prev` is written as the program writes it; nothing reads it. */
  class Node<V> {
    const key: string
    var address: Option<V>
    var next: Node?<V>
    var prev: Node?<V>

    constructor (key: string, address: Option<V>)
      ensures this.key == key && this.address == address && next == null && prev == null
    {
      this.key, this.address, this.next, this.prev := key, address, null, null;
    }
  }

  /** The node at a position of a chain, NULL past its end. */
  ghost function At<V>(chain: seq<Node<V>>, j: nat): Node?<V> {
    if j < |chain| then chain[j] else null
  }

  /** The nodes reached from `head` are exactly `chain`, in order, and the last link is NULL. */
  ghost predicate IsChain<V>(head: Node?<V>, chain: seq<Node<V>>)
    reads chain`next
  {
    && head == At(chain, 0)
    && forall j :: 0 <= j < |chain| ==> chain[j].next == At(chain, j + 1)
  }

  ghost predicate NoRepeats<V>(chain: seq<Node<V>>) {
    forall i, j :: 0 <= i < j < |chain| ==> chain[i] != chain[j]
  }

  ghost predicate Within<V>(chains: seq<seq<Node<V>>>, nodes: set<Node<V>>) {
    forall i, n :: 0 <= i < |chains| && n in chains[i] ==> n in nodes
  }

  /** The chains are made of exactly these nodes, each one once, in the bucket its hash selects. */
  ghost predicate Placed<V>(chains: seq<seq<Node<V>>>, nodes: set<Node<V>>) {
    && |chains| > 0
    && Within(chains, nodes)
    && (forall n :: n in nodes ==> n in chains[Slot(n.key, |chains|)])
    && (forall i, n :: 0 <= i < |chains| && n in chains[i] ==> Slot(n.key, |chains|) == i)
    && (forall i :: 0 <= i < |chains| ==> NoRepeats(chains[i]))
  }

  ghost predicate Holds<V>(table: array<Node?<V>>, chains: seq<seq<Node<V>>>, nodes: set<Node<V>>)
    reads table, nodes`next
  {
    && |chains| == table.Length
    && Placed(chains, nodes)
    && forall i :: 0 <= i < |chains| ==> IsChain(table[i], chains[i])
  }

  ghost function ChainEntries<V>(chain: seq<Node<V>>): (r: seq<Entry<Option<V>>>)
    reads chain`address
    ensures |r| == |chain|
    ensures forall j :: 0 <= j < |chain| ==> r[j] == Entry(chain[j].key, chain[j].address)
  {
    if chain == [] then []
    else [Entry(chain[0].key, chain[0].address)] + ChainEntries(chain[1..])
  }

  ghost function Entries<V>(chains: seq<seq<Node<V>>>, nodes: set<Node<V>>): (r: Buckets<Option<V>>)
    requires Within(chains, nodes)
    reads nodes`address
    ensures |r| == |chains|
    ensures forall i :: 0 <= i < |chains| ==> r[i] == ChainEntries(chains[i])
  {
    if chains == [] then []
    else [ChainEntries(chains[0])] + Entries(chains[1..], nodes)
  }

  method SlotOf(key: string, length: nat) returns (slot: nat)
    requires length > 0
    ensures slot == Slot(key, length)
  {
    var hash := Fnv1aStringHash(key);
    slot := hash % length;
  }

  lemma FindStops<V>(chain: seq<Entry<V>>, key: string, j: nat)
    requires j <= |chain|
    requires forall k :: 0 <= k < j ==> chain[k].key != key
    requires j < |chain| ==> chain[j].key == key
    ensures Find(chain, key) == j
  {
  }

  /** The chain walk shared by lookup, update and deletion. */
  method FindInChain<V>(head: Node?<V>, ghost chain: seq<Node<V>>, keyname: string) returns (ptr: Node?<V>)
    requires IsChain(head, chain)
    ensures var j := Find(ChainEntries(chain), keyname);
      ptr == At(chain, j)
  {
    ptr := head;
    ghost var j := 0;
    while ptr != null && ptr.key != keyname
      invariant 0 <= j <= |chain|
      invariant ptr == At(chain, j)
      invariant forall k :: 0 <= k < j ==> chain[k].key != keyname
      decreases |chain| - j
    {
      ptr := ptr.next;
      j := j + 1;
    }
    FindStops(ChainEntries(chain), keyname, j);
  }

  ghost function EmptyChains<V>(n: nat): seq<seq<Node<V>>> {
    seq(n, _ => [])
  }

  /** A zeroed bucket array. */
  method AllocateTable<V>(n: nat) returns (table: array<Node?<V>>)
    requires n > 0
    ensures fresh(table) && table.Length == n
    ensures Holds(table, EmptyChains(n), {})
    ensures Entries(EmptyChains<V>(n), {}) == EmptyBuckets(n)
  {
    table := new Node?<V>[n](_ => null);
    assert Entries(EmptyChains<V>(n), {}) == EmptyBuckets(n);
  }

  /** Pushing a node on a chain pushes its entry. */
  lemma PushedEntries<V>(chains: seq<seq<Node<V>>>, nodes: set<Node<V>>, n: Node<V>)
    requires |chains| > 0
    requires Within(chains, nodes)
    ensures var s := Slot(n.key, |chains|);
      Entries(chains[s := [n] + chains[s]], nodes + {n})
      == Push(Entries(chains, nodes), Entry(n.key, n.address))
  {
    hide Slot;
    var s := Slot(n.key, |chains|);
    assert ChainEntries([n] + chains[s]) == [Entry(n.key, n.address)] + ChainEntries(chains[s]);
  }

  lemma PushedPlaced<V>(chains: seq<seq<Node<V>>>, nodes: set<Node<V>>, n: Node<V>)
    requires Placed(chains, nodes) && n !in nodes
    ensures var s := Slot(n.key, |chains|);
      Placed(chains[s := [n] + chains[s]], nodes + {n})
  {
    hide Slot;
    var s := Slot(n.key, |chains|);
    var chain := [n] + chains[s];
    assert forall i :: 0 <= i < |chains[s]| ==> chain[i + 1] == chains[s][i];
    assert NoRepeats(chain);
  }

  lemma HeadInChain<V>(head: Node?<V>, chain: seq<Node<V>>)
    requires IsChain(head, chain)
    ensures head != null ==> head in chain
  {
  }

  lemma LinkedInFront<V>(n: Node<V>, chain: seq<Node<V>>)
    requires IsChain(n.next, chain)
    ensures IsChain(n, [n] + chain)
  {
    forall j | 0 <= j < |[n] + chain|
      ensures ([n] + chain)[j].next == At([n] + chain, j + 1)
    {
      if j > 0 {
        assert ([n] + chain)[j] == chain[j - 1];
      }
    }
  }

  lemma PlacedWithin<V>(chains: seq<seq<Node<V>>>, nodes: set<Node<V>>)
    requires Placed(chains, nodes)
    ensures Within(chains, nodes)
  {
  }

  lemma HoldsWithin<V>(table: array<Node?<V>>, chains: seq<seq<Node<V>>>, nodes: set<Node<V>>)
    requires Holds(table, chains, nodes)
    ensures |chains| == table.Length && Within(chains, nodes) && Placed(chains, nodes)
    ensures forall i :: 0 <= i < |chains| ==> IsChain(table[i], chains[i])
  {
  }

  /** Links a node in front of the chain of its bucket. */
  method PushNode<V>(table: array<Node?<V>>, ghost chains: seq<seq<Node<V>>>, ghost nodes: set<Node<V>>,
                     slot: nat, ptr: Node<V>)
    returns (ghost chains': seq<seq<Node<V>>>)
    requires slot < table.Length && slot == Slot(ptr.key, table.Length)
    requires Holds(table, chains, nodes) && ptr !in nodes
    modifies table, ptr`next, nodes`prev
    ensures Holds(table, chains', nodes + {ptr})
    ensures chains' == chains[slot := [ptr] + chains[slot]]
  {
    hide Slot, Placed, NoRepeats, At;
    HoldsWithin(table, chains, nodes);
    PushedPlaced(chains, nodes, ptr);
    HeadInChain(table[slot], chains[slot]);
    ptr.next := table[slot];
    if table[slot] != null {
      table[slot].prev := ptr;
    }
    table[slot] := ptr;
    chains' := chains[slot := [ptr] + chains[slot]];
    forall i | 0 <= i < |chains|
      ensures IsChain(table[i], chains'[i])
    {
      assert old(IsChain(table[i], chains[i]));
      if i == slot {
        LinkedInFront(ptr, chains[slot]);
      }
    }
  }

  /** One turn of the relinking loop: the head of an old chain becomes the head of its new one. */
  method MoveNode<V>(newTable: array<Node?<V>>, ghost newChains: seq<seq<Node<V>>>,
                     ghost done: set<Node<V>>, ptr: Node<V>)
    returns (nextPtr: Node?<V>, ghost chains': seq<seq<Node<V>>>)
    requires newTable.Length > 0 && Holds(newTable, newChains, done) && ptr !in done
    modifies newTable, ptr`next, done`prev
    ensures nextPtr == old(ptr.next)
    ensures Holds(newTable, chains', done + {ptr})
    ensures Entries(chains', done + {ptr}) == Push(old(Entries(newChains, done)), Entry(ptr.key, ptr.address))
  {
    hide *;
    HoldsWithin(newTable, newChains, done);
    var newHashValue := SlotOf(ptr.key, newTable.Length);
    nextPtr := ptr.next;
    PushedEntries(newChains, done, ptr);
    chains' := PushNode(newTable, newChains, done, newHashValue, ptr);
    assert Entries(newChains, done) == old(Entries(newChains, done));
  }

  lemma {:induction false} PushAllConcat<V>(b: Buckets<V>, c: seq<Entry<V>>, d: seq<Entry<V>>)
    requires |b| > 0
    ensures PushAll(b, c + d) == PushAll(PushAll(b, c), d)
    decreases c
  {
    hide Push;
    if c == [] {
      assert c + d == d;
    } else {
      assert (c + d)[1..] == c[1..] + d;
      PushAllConcat(Push(b, c[0]), c[1..], d);
    }
  }

  lemma PushAllCons<V>(b: Buckets<V>, e: Entry<V>, entries: seq<Entry<V>>)
    requires |b| > 0
    ensures PushAll(b, [e] + entries) == PushAll(Push(b, e), entries)
  {
    assert ([e] + entries)[1..] == entries;
  }

  lemma PushAllNone<V>(b: Buckets<V>)
    requires |b| > 0
    ensures PushAll(b, []) == b
  {
  }

  ghost function NodeSet<V>(chain: seq<Node<V>>): set<Node<V>> {
    set n | n in chain
  }

  lemma ChainEnds<V>(chain: seq<Node<V>>)
    requires IsChain(null, chain)
    ensures chain == [] && NodeSet(chain) == {} && ChainEntries(chain) == []
  {
  }

  lemma RestOfChain<V>(head: Node<V>, chain: seq<Node<V>>)
    requires IsChain(head, chain) && NoRepeats(chain)
    ensures chain != [] && chain[0] == head && head !in chain[1..]
    ensures IsChain(head.next, chain[1..]) && NoRepeats(chain[1..])
    ensures NodeSet(chain) == {head} + NodeSet(chain[1..]) && head !in NodeSet(chain[1..])
    ensures ChainEntries(chain) == [Entry(head.key, head.address)] + ChainEntries(chain[1..])
  {
    assert forall j :: 0 <= j < |chain[1..]| ==> chain[1..][j] == chain[j + 1];
    assert chain == [head] + chain[1..];
  }

  /** What one turn does to the bucket being emptied: its chain loses its head, and pushing what is
      left still leads to the same table. */
  method MoveStep<V>(table: array<Node?<V>>, i: nat, ghost rest: seq<Node<V>>,
                     newTable: array<Node?<V>>, ghost newChains: seq<seq<Node<V>>>, ghost done: set<Node<V>>,
                     ptr: Node<V>)
    returns (nextPtr: Node?<V>, ghost chains': seq<seq<Node<V>>>)
    requires table != newTable && i < table.Length && newTable.Length > 0
    requires Holds(newTable, newChains, done)
    requires ptr == table[i] && IsChain(ptr, rest) && NoRepeats(rest) && NodeSet(rest) !! done
    modifies table, newTable, ptr`next, done`prev
    ensures rest != [] && ptr == rest[0] && nextPtr == table[i]
    ensures IsChain(nextPtr, rest[1..]) && NoRepeats(rest[1..])
    ensures NodeSet(rest) == {ptr} + NodeSet(rest[1..]) && ptr !in NodeSet(rest[1..])
    ensures Holds(newTable, chains', done + {ptr})
    ensures PushAll(Entries(chains', done + {ptr}), ChainEntries(rest[1..]))
         == old(PushAll(Entries(newChains, done), ChainEntries(rest)))
    ensures forall k :: 0 <= k < table.Length && k != i ==> table[k] == old(table[k])
  {
    hide *;
    HoldsWithin(newTable, newChains, done);
    RestOfChain(ptr, rest);
    ghost var tail := ChainEntries(rest[1..]);
    PushAllCons(Entries(newChains, done), Entry(ptr.key, ptr.address), tail);
    assert ptr !in done by { assert ptr in NodeSet(rest); }
    nextPtr, chains' := MoveNode(newTable, newChains, done, ptr);
    HoldsWithin(newTable, chains', done + {ptr});
    table[i] := nextPtr;
    assert ChainEntries(rest[1..]) == tail;
  }

  /** The inner loop: relinks one old chain, node by node. */
  method MoveChain<V>(table: array<Node?<V>>, i: nat, ghost chain: seq<Node<V>>,
                      newTable: array<Node?<V>>, ghost newChains: seq<seq<Node<V>>>, ghost done: set<Node<V>>)
    returns (ghost chains': seq<seq<Node<V>>>, ghost done': set<Node<V>>, ghost steps: nat)
    requires table != newTable && i < table.Length && newTable.Length > 0
    requires Holds(newTable, newChains, done)
    requires IsChain(table[i], chain) && NoRepeats(chain) && NodeSet(chain) !! done
    modifies table, newTable, NodeSet(chain)`next, done`prev, NodeSet(chain)`prev
    ensures Holds(newTable, chains', done') && done' == done + NodeSet(chain) && steps == |chain|
    ensures Entries(chains', done') == old(PushAll(Entries(newChains, done), ChainEntries(chain)))
    ensures table[i] == null
    ensures forall k :: 0 <= k < table.Length && k != i ==> table[k] == old(table[k])
  {
    hide *;
    HoldsWithin(newTable, newChains, done);
    var ptr := table[i];
    chains', done', steps := newChains, done, 0;
    ghost var rest := chain;
    ghost var goal := PushAll(Entries(newChains, done), ChainEntries(chain));
    while ptr != null
      invariant ptr == table[i] && IsChain(ptr, rest) && NoRepeats(rest)
      invariant NodeSet(rest) <= NodeSet(chain) && NodeSet(rest) !! done'
      invariant done' + NodeSet(rest) == done + NodeSet(chain)
      invariant steps + |rest| == |chain|
      invariant Holds(newTable, chains', done') && Within(chains', done') && |chains'| == newTable.Length
      invariant PushAll(Entries(chains', done'), ChainEntries(rest)) == goal
      invariant forall k :: 0 <= k < table.Length && k != i ==> table[k] == old(table[k])
      decreases |rest|
    {
      var nextPtr;
      RestOfChain(ptr, rest);
      nextPtr, chains' := MoveStep(table, i, rest, newTable, chains', done', ptr);
      HoldsWithin(newTable, chains', done' + {ptr});
      done' := done' + {ptr};
      rest := rest[1..];
      ptr := nextPtr;
      steps := steps + 1;
    }
    ChainEnds(rest);
    PushAllNone(Entries(chains', done'));
  }

  /** The nodes whose bucket lies before `i`. */
  ghost function Before<V>(nodes: set<Node<V>>, length: nat, i: nat): set<Node<V>>
    requires length > 0
  {
    set n | n in nodes && Slot(n.key, length) < i
  }

  lemma BucketNodes<V>(chains: seq<seq<Node<V>>>, nodes: set<Node<V>>, i: nat)
    requires i < |chains| && Placed(chains, nodes)
    ensures Before(nodes, |chains|, i + 1) == Before(nodes, |chains|, i) + NodeSet(chains[i])
    ensures NodeSet(chains[i]) !! Before(nodes, |chains|, i)
    ensures Before(nodes, |chains|, i) <= nodes
    ensures NodeSet(chains[i]) <= nodes && NoRepeats(chains[i])
    ensures forall k :: 0 <= k < |chains| && k != i ==> NodeSet(chains[i]) !! NodeSet(chains[k])
  {
    hide Slot, NoRepeats;
  }

  lemma BeforeEnds<V>(chains: seq<seq<Node<V>>>, nodes: set<Node<V>>)
    requires Placed(chains, nodes)
    ensures Before(nodes, |chains|, 0) == {} && Before(nodes, |chains|, |chains|) == nodes
  {
    hide Slot;
  }

  lemma FlattenStep<V>(b: Buckets<V>, i: nat, acc: Buckets<V>)
    requires i < |b| && |acc| > 0
    ensures |FlattenFrom(b, i)| == |b[i]| + |FlattenFrom(b, i + 1)|
    ensures PushAll(acc, FlattenFrom(b, i)) == PushAll(PushAll(acc, b[i]), FlattenFrom(b, i + 1))
  {
    PushAllConcat(acc, b[i], FlattenFrom(b, i + 1));
  }

  lemma RehashStart<V>(b: Buckets<V>, newLength: nat)
    requires newLength > 0
    ensures PushAll(EmptyBuckets(newLength), FlattenFrom(b, 0)) == Rehash(b, newLength)
    ensures Flatten(b) == FlattenFrom(b, 0)
  {
  }

  lemma RehashEnd<V>(b: Buckets<V>, acc: Buckets<V>)
    requires |acc| > 0
    ensures FlattenFrom(b, |b|) == [] && PushAll(acc, []) == acc
  {
  }

  /** The chains from bucket `i` on are still linked from the old array. */
  ghost predicate LinkedFrom<V>(table: array<Node?<V>>, chains: seq<seq<Node<V>>>, nodes: set<Node<V>>, i: nat)
    requires |chains| == table.Length && Within(chains, nodes)
    reads table, nodes`next
  {
    forall k :: i <= k < |chains| ==> IsChain(table[k], chains[k])
  }

  /** One turn of the outer loop: empties one bucket of the old array. */
  method MoveBucket<V>(table: array<Node?<V>>, ghost chains: seq<seq<Node<V>>>, ghost nodes: set<Node<V>>, i: nat,
                       newTable: array<Node?<V>>, ghost newChains: seq<seq<Node<V>>>, ghost done: set<Node<V>>)
    returns (ghost chains': seq<seq<Node<V>>>, ghost steps: nat)
    requires table != newTable && i < table.Length == |chains| && newTable.Length > 0
    requires Placed(chains, nodes) && done == Before(nodes, |chains|, i)
    requires LinkedFrom(table, chains, nodes, i) && Holds(newTable, newChains, done)
    modifies table, newTable, nodes`next, nodes`prev
    ensures LinkedFrom(table, chains, nodes, i + 1)
    ensures Holds(newTable, chains', Before(nodes, |chains|, i + 1))
    ensures Entries(chains', Before(nodes, |chains|, i + 1))
         == old(PushAll(Entries(newChains, done), ChainEntries(chains[i])))
    ensures steps == |chains[i]|
  {
    hide Slot, Placed, PushAll, Holds, Within, NoRepeats, IsChain, ChainEntries, Entries, Before;
    BucketNodes(chains, nodes, i);
    HoldsWithin(newTable, newChains, done);
    ghost var done';
    chains', done', steps := MoveChain(table, i, chains[i], newTable, newChains, done);
    forall k | i + 1 <= k < |chains|
      ensures IsChain(table[k], chains[k])
    {
      assert old(IsChain(table[k], chains[k]));
      assert NodeSet(chains[i]) !! NodeSet(chains[k]);
    }
  }

  /** The resize: every chain of the old array is relinked into a new array of the given length. */
  method MoveAll<V>(table: array<Node?<V>>, ghost chains: seq<seq<Node<V>>>, ghost nodes: set<Node<V>>, newLength: nat)
    returns (newTable: array<Node?<V>>, ghost newChains: seq<seq<Node<V>>>, ghost steps: nat)
    requires table.Length > 0 && newLength > 0 && Holds(table, chains, nodes)
    modifies table, nodes`next, nodes`prev
    ensures fresh(newTable) && newTable.Length == newLength
    ensures Holds(newTable, newChains, nodes)
    ensures Entries(newChains, nodes) == old(Rehash(Entries(chains, nodes), newLength))
    ensures steps == old(|Flatten(Entries(chains, nodes))|)
  {
    hide *;
    HoldsWithin(table, chains, nodes);
    HoldsLinked(table, chains, nodes);
    BeforeEnds(chains, nodes);
    ghost var entries := Entries(chains, nodes);
    newTable := AllocateTable<V>(newLength);
    newChains, steps := EmptyChains(newLength), 0;
    ghost var done := {};
    HoldsWithin(newTable, newChains, done);
    RehashStart(entries, newLength);
    var i := 0;
    while i < table.Length
      invariant 0 <= i <= table.Length
      invariant done == Before(nodes, table.Length, i)
      invariant Holds(newTable, newChains, done) && Within(newChains, done) && |newChains| == newLength
      invariant LinkedFrom(table, chains, nodes, i)
      invariant Entries(chains, nodes) == entries
      invariant PushAll(Entries(newChains, done), FlattenFrom(entries, i)) == Rehash(entries, newLength)
      invariant steps + |FlattenFrom(entries, i)| == |Flatten(entries)|
    {
      ghost var moved;
      FlattenStep(entries, i, Entries(newChains, done));
      newChains, moved := MoveBucket(table, chains, nodes, i, newTable, newChains, done);
      done := Before(nodes, table.Length, i + 1);
      HoldsWithin(newTable, newChains, done);
      steps := steps + moved;
      i := i + 1;
    }
    RehashEnd(entries, Entries(newChains, done));
  }

  lemma HoldsLinked<V>(table: array<Node?<V>>, chains: seq<seq<Node<V>>>, nodes: set<Node<V>>)
    requires Holds(table, chains, nodes)
    ensures LinkedFrom(table, chains, nodes, 0)
  {
  }

  lemma OccursOnce<V>(chains: seq<seq<Node<V>>>, nodes: set<Node<V>>, i: nat, j: nat)
    requires Placed(chains, nodes) && i < |chains| && j < |chains[i]|
    ensures forall k :: 0 <= k < |chains| && k != i ==> chains[i][j] !in chains[k]
    ensures forall k :: 0 <= k < |chains[i]| && k != j ==> chains[i][k] != chains[i][j]
  {
    hide Slot;
    var n := chains[i][j];
    assert NoRepeats(chains[i]);
    assert n in chains[i] && Slot(n.key, |chains|) == i;
    forall k | 0 <= k < |chains| && n in chains[k]
      ensures k == i
    {
      assert Slot(n.key, |chains|) == k;
    }
  }

  /** Rewriting one node's value rewrites one entry. */
  method UpdateNode<V>(ghost chains: seq<seq<Node<V>>>, ghost nodes: set<Node<V>>, ghost i: nat, ghost j: nat,
                       ptr: Node<V>, address: Option<V>)
    requires Placed(chains, nodes) && i < |chains| && j < |chains[i]| && ptr == chains[i][j]
    modifies ptr`address
    ensures Entries(chains, nodes)
         == old(Entries(chains, nodes))[i := old(ChainEntries(chains[i]))[j := Entry(ptr.key, address)]]
  {
    hide Slot, ChainEntries, Entries;
    OccursOnce(chains, nodes, i, j);
    ptr.address := address;
    forall k | 0 <= k < |chains| && k != i
      ensures ChainEntries(chains[k]) == old(ChainEntries(chains[k]))
    {
    }
    assert ChainEntries(chains[i]) == old(ChainEntries(chains[i]))[j := Entry(ptr.key, address)];
  }

  lemma HeadEntries<V>(head: Node?<V>, chain: seq<Node<V>>)
    requires IsChain(head, chain)
    ensures head == null <==> ChainEntries(chain) == []
    ensures head != null ==> head == chain[0] && ChainEntries(chain)[0].key == head.key
  {
  }

  ghost function Unlinked<V>(chain: seq<Node<V>>, j: nat): seq<Node<V>>
    requires j < |chain|
  {
    chain[..j] + chain[j + 1..]
  }

  lemma UnlinkedPlaced<V>(chains: seq<seq<Node<V>>>, nodes: set<Node<V>>, i: nat, j: nat)
    requires Placed(chains, nodes) && i < |chains| && j < |chains[i]|
    ensures Placed(chains[i := Unlinked(chains[i], j)], nodes - {chains[i][j]})
    ensures chains[i][j] !in Unlinked(chains[i], j)
  {
    hide Slot;
    var n, chain := chains[i][j], Unlinked(chains[i], j);
    assert forall k :: 0 <= k < |chain| ==> chain[k] == chains[i][if k < j then k else k + 1];
    assert chains[i] == chains[i][..j] + [n] + chains[i][j + 1..];
    assert NoRepeats(chain);
    assert n !in chain;
  }

  lemma UnlinkedEntries<V>(chains: seq<seq<Node<V>>>, nodes: set<Node<V>>, i: nat, j: nat)
    requires Within(chains, nodes) && i < |chains| && j < |chains[i]|
    requires Within(chains[i := Unlinked(chains[i], j)], nodes - {chains[i][j]})
    ensures Entries(chains[i := Unlinked(chains[i], j)], nodes - {chains[i][j]})
         == Entries(chains, nodes)[i := ChainEntries(chains[i])[..j] + ChainEntries(chains[i])[j + 1..]]
  {
    hide Within, Entries, ChainEntries;
    UnlinkedChainEntries(chains[i], j);
  }

  lemma UnlinkedChainEntries<V>(chain: seq<Node<V>>, j: nat)
    requires j < |chain|
    ensures ChainEntries(Unlinked(chain, j)) == ChainEntries(chain)[..j] + ChainEntries(chain)[j + 1..]
  {
    hide ChainEntries;
    var left, right := ChainEntries(Unlinked(chain, j)), ChainEntries(chain)[..j] + ChainEntries(chain)[j + 1..];
    forall k | 0 <= k < |left|
      ensures left[k] == right[k]
    {
      assert Unlinked(chain, j)[k] == chain[if k < j then k else k + 1];
    }
  }

  /** The walk of the deletion, one node behind itself so that it can relink. */
  method FindAfterHead<V>(head: Node<V>, ghost chain: seq<Node<V>>, keyname: string)
    returns (prev: Node<V>, ptr: Node?<V>)
    requires IsChain(head, chain) && head.key != keyname
    ensures var j := Find(ChainEntries(chain), keyname);
      1 <= j && ptr == At(chain, j) && prev == At(chain, j - 1)
  {
    prev, ptr := head, head.next;
    ghost var j := 1;
    while ptr != null && ptr.key != keyname
      invariant 1 <= j <= |chain|
      invariant ptr == At(chain, j) && prev == At(chain, j - 1)
      invariant forall k :: 0 <= k < j ==> chain[k].key != keyname
      decreases |chain| - j
    {
      prev, ptr := ptr, ptr.next;
      j := j + 1;
    }
    FindStops(ChainEntries(chain), keyname, j);
  }

  lemma UnlinkedPositions<V>(chain: seq<Node<V>>, j: nat)
    requires j < |chain|
    ensures |Unlinked(chain, j)| == |chain| - 1
    ensures forall k :: 0 <= k < |chain| - 1 ==> Unlinked(chain, j)[k] == chain[if k < j then k else k + 1]
  {
  }

  lemma RestOfBucket<V>(chains: seq<seq<Node<V>>>, nodes: set<Node<V>>, i: nat, head: Node<V>)
    requires i < |chains| && Placed(chains, nodes) && IsChain(head, chains[i])
    ensures head.next != null ==> head.next in nodes
  {
    hide Slot;
    assert chains[i][0].next == At(chains[i], 1);
  }

  /** A chain whose head is skipped. */
  lemma SkippedHead<V>(head: Node<V>, chain: seq<Node<V>>)
    requires IsChain(head, chain)
    ensures chain != [] && IsChain(head.next, Unlinked(chain, 0))
  {
    UnlinkedPositions(chain, 0);
  }

  /** Unlinks a node that is not the head of its chain. */
  method UnlinkAfter<V>(prev: Node<V>, ptr: Node<V>, ghost head: Node?<V>, ghost chain: seq<Node<V>>, ghost j: nat)
    requires IsChain(head, chain) && NoRepeats(chain) && 1 <= j < |chain|
    requires prev == chain[j - 1] && ptr == chain[j]
    modifies prev`next, NodeSet(chain)`prev
    ensures IsChain(head, Unlinked(chain, j))
  {
    UnlinkedPositions(chain, j);
    var next := ptr.next;
    prev.next := next;
    if next != null {
      next.prev := prev;
    }
    ghost var rest := Unlinked(chain, j);
    forall k | 0 <= k < |rest|
      ensures rest[k].next == At(rest, k + 1)
    {
      assert rest[k] == prev <==> k == j - 1;
    }
  }

  class HashTable<V> {
    var length: nat
    var table: array<Node?<V>>
    var elemCount: nat

    ghost var chains: seq<seq<Node<V>>>
    ghost var nodes: set<Node<V>>

    /** Nodes relinked by resizes since the table was created. */
    ghost var moved: nat

    ghost predicate Linked()
      reads this, table, nodes
    {
      && length == table.Length > 0
      && Holds(table, chains, nodes)
    }

    ghost function Model(): Table<Option<V>>
      requires Linked()
      reads this, table, nodes
    {
      Table(Entries(chains, nodes), elemCount)
    }

    ghost predicate Valid()
      reads this, table, nodes
    {
      Linked() && Inv(Model())
    }

    constructor ()
      ensures Valid() && fresh(table) && nodes == {} && moved == 0
      ensures Model() == Create()
    {
      hide Holds, Inv, EmptyBuckets, EmptyChains, Placed, WellPlaced;
      var t := AllocateTable<V>(INITIAL_SIZE);
      length := INITIAL_SIZE;
      table := t;
      elemCount := 0;
      chains := EmptyChains(INITIAL_SIZE);
      nodes := {};
      moved := 0;
      new;
      CreateCorrect<Option<V>>();
    }

    method GetPtrToElemByKey(keyname: string) returns (ptr: Node?<V>)
      requires Linked()
      ensures var i := Slot(keyname, length);
        var j := Find(Model().buckets[i], keyname);
        ptr == At(chains[i], j) && (ptr != null ==> ptr.key == keyname && ptr in nodes)
        && (ptr != null <==> Lookup(Model().buckets, keyname).Some?)
    {
      hide Find;
      var keyhash := SlotOf(keyname, length);
      ptr := FindInChain(table[keyhash], chains[keyhash], keyname);
    }

    method CheckKeyExists(keyname: string) returns (r: bool)
      requires Valid()
      ensures r == Lookup(Model().buckets, keyname).Some?
    {
      var ptr := GetPtrToElemByKey(keyname);
      r := ptr != null;
    }

    /** NULL stands both for an absent key and for a key bound to NULL. */
    method GetPtrToValueByKey(keyname: string) returns (r: Option<V>)
      requires Valid()
      ensures var found := Lookup(Model().buckets, keyname);
        r == if found.Some? then found.value else None
    {
      var ptr := GetPtrToElemByKey(keyname);
      if ptr == null {
        return None;
      }
      r := ptr.address;
    }

    /** Relinks everything into an array of twice the length. */
    method Grow()
      requires Linked()
      modifies this`table, this`length, this`chains, this`moved, table, nodes`next, nodes`prev
      ensures Linked() && fresh(table)
      ensures Model() == old(Model()).(buckets := Rehash(old(Model()).buckets, 2 * old(length)))
      ensures moved == old(moved) + |Flatten(old(Model()).buckets)|
    {
      hide Holds, Placed, Within, Entries, Rehash, Flatten;
      HoldsWithin(table, chains, nodes);
      ghost var steps;
      var newLength := length * 2;
      table, chains, steps := MoveAll(table, chains, nodes, newLength);
      HoldsWithin(table, chains, nodes);
      length := newLength;
      moved := moved + steps;
    }

    /** Links a new node for an unbound key and counts it. */
    method PushFresh(keyname: string, address: Option<V>, keyhash: nat) returns (collision: bool)
      requires Linked() && keyhash == Slot(keyname, length)
      modifies this`chains, this`nodes, this`elemCount, table, nodes`prev
      ensures Linked() && fresh(nodes - old(nodes)) && old(nodes) <= nodes
      ensures Model() == Table(Push(old(Model()).buckets, Entry(keyname, address)), old(elemCount) + 1)
      ensures collision <==> old(Model()).buckets[keyhash] != []
    {
      hide Slot, Push, Placed, Within, Holds, Entries, IsChain, ChainEntries;
      assert |chains| == table.Length && Within(chains, nodes)
          && (table[keyhash] == null <==> ChainEntries(chains[keyhash]) == []) by {
        HoldsWithin(table, chains, nodes);
        HeadEntries(table[keyhash], chains[keyhash]);
      }
      var ptr := new Node(keyname, address);
      collision := table[keyhash] != null;
      PushedEntries(chains, nodes, ptr);
      chains := PushNode(table, chains, nodes, keyhash, ptr);
      nodes := nodes + {ptr};
      elemCount := elemCount + 1;
    }

    /** Links and counts a new node, then resizes if the load calls for it. */
    method InsertFresh(keyname: string, address: Option<V>, keyhash: nat) returns (result: set<Flag>)
      requires Linked() && keyhash == Slot(keyname, length)
      modifies this, table, nodes`next, nodes`prev
      ensures Linked() && (table == old(table) || fresh(table))
      ensures fresh(nodes - old(nodes)) && old(nodes) <= nodes
      ensures (Model(), result) == InsertNew(old(Model()), keyname, address)
      ensures moved == old(moved) + (if Resized in result
        then |Flatten(Push(old(Model()).buckets, Entry(keyname, address)))| else 0)
    {
      hide Slot, Push, Placed, Within, Holds, Entries, ChainEntries, IsChain, At, Rehash, Flatten, NeedsGrowth, Inv;
      HoldsWithin(table, chains, nodes);
      var collision := PushFresh(keyname, address, keyhash);
      result := if collision then {Success, Collision} else {Success};
      var resized := CheckGrow();
      if resized {
        result := result + {Resized};
      }
    }

    /** Resizes when the load calls for it. */
    method CheckGrow() returns (resized: bool)
      requires Linked()
      modifies this`table, this`length, this`chains, this`moved, table, nodes`next, nodes`prev
      ensures Linked() && (table == old(table) || fresh(table))
      ensures resized == NeedsGrowth(old(length), elemCount)
      ensures Model() == if resized
        then old(Model()).(buckets := Rehash(old(Model()).buckets, 2 * old(length))) else old(Model())
      ensures moved == old(moved) + (if resized then |Flatten(old(Model()).buckets)| else 0)
    {
      hide Holds, Placed, Within, Entries, Rehash, Flatten;
      HoldsWithin(table, chains, nodes);
      resized := NeedsGrowth(length, elemCount);
      if resized {
        Grow();
      }
    }

    /** Rebinds a bound key in place. */
    method UpdateElem(keyname: string, address: Option<V>, ptr: Node<V>)
      requires Linked()
      requires var i := Slot(keyname, length);
        ptr.key == keyname && ptr == At(chains[i], Find(Model().buckets[i], keyname))
      modifies ptr`address
      ensures Linked()
      ensures var i, b := Slot(keyname, length), old(Model()).buckets;
        Model() == old(Model()).(buckets := b[i := Replaced(b[i], keyname, address)])
    {
      hide Slot, Placed, Within, Entries, IsChain, ChainEntries, Find;
      HoldsWithin(table, chains, nodes);
      ghost var i := Slot(keyname, length);
      UpdateNode(chains, nodes, i, Find(Model().buckets[i], keyname), ptr, address);
    }

    method InsertEntry(keyname: string, address: Option<V>) returns (result: set<Flag>)
      requires Valid()
      modifies this, table, nodes
      ensures Valid() && fresh(nodes - old(nodes)) && (table == old(table) || fresh(table))
      ensures (Model(), result) == Insert(old(Model()), keyname, address)
      ensures old(nodes) <= nodes && (Updated in result ==> nodes == old(nodes))
      ensures moved == old(moved) + (if Resized in result then |Flatten(Model().buckets)| else 0)
    {
      hide Slot, Push, Placed, Within, Holds, Entries, IsChain, ChainEntries;
      hide At, Rehash, Replaced, Inv, Flatten, LookupsUpdated, NeedsGrowth;
      HoldsWithin(table, chains, nodes);
      ResizeMovesAll(Model(), keyname, address);
      InsertCorrect(Model(), keyname, address);
      var keyhash := SlotOf(keyname, length);
      var ptr := GetPtrToElemByKey(keyname);
      if ptr != null {
        UpdateElem(keyname, address, ptr);
        return {Success, Updated};
      }
      result := InsertFresh(keyname, address, keyhash);
    }

    /** Forgets a node that has just been unlinked from its chain. */
    ghost method Forget(i: nat, j: nat, was: Buckets<Option<V>>)
      requires length == table.Length == |chains| && Placed(chains, nodes) && i < length && j < |chains[i]|
      requires was == Entries(chains, nodes)
      requires IsChain(table[i], Unlinked(chains[i], j))
      requires forall k :: 0 <= k < length && k != i ==> IsChain(table[k], chains[k])
      modifies this`chains, this`nodes
      ensures Linked() && nodes == old(nodes) - {old(chains)[i][j]}
      ensures Model() == Table(was[i := was[i][..j] + was[i][j + 1..]], elemCount)
    {
      hide Slot, Placed, Entries, ChainEntries, IsChain, Unlinked;
      UnlinkedPlaced(chains, nodes, i, j);
      PlacedWithin(chains, nodes);
      PlacedWithin(chains[i := Unlinked(chains[i], j)], nodes - {chains[i][j]});
      UnlinkedEntries(chains, nodes, i, j);
      nodes, chains := nodes - {chains[i][j]}, chains[i := Unlinked(chains[i], j)];
    }

    /** Unlinks the first node of a bucket. */
    method DeleteHead(keyhash: nat)
      requires Linked() && keyhash < length && table[keyhash] != null
      modifies this`chains, this`nodes, table, nodes`prev
      ensures Linked() && nodes <= old(nodes)
      ensures var b := old(Model()).buckets;
        b[keyhash] != [] && b[keyhash][0].key == old(table[keyhash]).key
        && Model() == old(Model()).(buckets := b[keyhash := b[keyhash][1..]])
    {
      hide Slot, Placed, Within, Entries, ChainEntries, IsChain, At;
      HoldsWithin(table, chains, nodes);
      ghost var chain, was := chains[keyhash], Model().buckets;
      HeadEntries(table[keyhash], chain);
      SkippedHead(table[keyhash], chain);
      RestOfBucket(chains, nodes, keyhash, table[keyhash]);
      var ptr := table[keyhash].next;
      table[keyhash] := ptr;
      if ptr != null {
        ptr.prev := null;
      }
      Forget(keyhash, 0, was);
      assert was[keyhash][..0] + was[keyhash][1..] == was[keyhash][1..];
    }

    /** Unlinks a later node of a bucket. */
    method DeleteAfter(keyhash: nat, prev: Node<V>, ptr: Node<V>, ghost j: nat)
      requires Linked() && keyhash < length && 1 <= j < |chains[keyhash]|
      requires prev == chains[keyhash][j - 1] && ptr == chains[keyhash][j]
      modifies this`chains, this`nodes, nodes`next, nodes`prev
      ensures Linked() && nodes <= old(nodes)
      ensures var b := old(Model()).buckets;
        Model() == old(Model()).(buckets := b[keyhash := b[keyhash][..j] + b[keyhash][j + 1..]])
    {
      hide Slot, Placed, Entries, ChainEntries, IsChain, At, Unlinked;
      HoldsWithin(table, chains, nodes);
      BucketNodes(chains, nodes, keyhash);
      OccursOnce(chains, nodes, keyhash, j - 1);
      ghost var was := Model().buckets;
      UnlinkAfter(prev, ptr, table[keyhash], chains[keyhash], j);
      Forget(keyhash, j, was);
    }

    method DeleteEntry(keyname: string) returns (result: set<Flag>)
      requires Valid()
      modifies this`chains, this`nodes, table, nodes`next, nodes`prev
      ensures Valid()
      ensures (Model(), result) == Delete(old(Model()), keyname)
      ensures nodes <= old(nodes) && (Success !in result ==> nodes == old(nodes))
    {
      hide Slot, Placed, Within, Entries, IsChain, ChainEntries, Inv, LookupsUpdated;
      HoldsWithin(table, chains, nodes);
      DeleteCorrect(Model(), keyname);
      var keyhash := SlotOf(keyname, length);
      HeadEntries(table[keyhash], chains[keyhash]);
      var head := table[keyhash];
      if head == null {
        return {};
      }
      if head.key == keyname {
        WithoutCons(Model().buckets[keyhash], keyname);
        DeleteHead(keyhash);
        return {Success};
      }
      var prev, ptr := FindAfterHead(head, chains[keyhash], keyname);
      if ptr == null {
        return {};
      }
      DeleteAfter(keyhash, prev, ptr, Find(ChainEntries(chains[keyhash]), keyname));
      result := {Success, Collision};
    }
  }
}
