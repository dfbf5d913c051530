/** Runs of operations on the hash table of heap nodes. */
module HashTableRuns {
  import opened Options
  import opened ChainedTable
  import opened HashTables

  /** What a caller sees of an outcome: a lookup returns NULL for a key bound to NULL too. */
  function Seen<V>(o: Outcome<Option<V>>): Outcome<Option<V>> {
    if o.Found? && o.result == Some(None) then Found(None) else o
  }

  function AllSeen<V>(os: seq<Outcome<Option<V>>>): (r: seq<Outcome<Option<V>>>)
    ensures |r| == |os| && forall i :: 0 <= i < |os| ==> r[i] == Seen(os[i])
  {
    if os == [] then [] else [Seen(os[0])] + AllSeen(os[1..])
  }

  lemma InsertMoves<V>(t: Table<Option<V>>, key: string, value: Option<V>)
    requires ChainedTable.Inv(t)
    ensures var (t', flags) := Insert(t, key, value);
      Moved(t, InsertOp(key, value)) == if Resized in flags then |Flatten(t'.buckets)| else 0
  {
    hide Insert, Lookup, Flatten, ChainedTable.Inv, LookupsUpdated;
    InsertCorrect(t, key, value);
    InvPositive(t);
  }

  lemma DeleteMoves<V>(t: Table<Option<V>>, key: string)
    requires |t.buckets| > 0
    ensures Moved(t, DeleteOp(key)) == 0
  {
  }

  method Perform<V(==)>(table: HashTable<V>, op: Op<Option<V>>) returns (o: Outcome<Option<V>>)
    requires table.Valid()
    modifies table, table.table, table.nodes
    ensures table.Valid() && fresh(table.nodes - old(table.nodes))
    ensures table.table == old(table.table) || fresh(table.table)
    ensures table.Model() == TableStep(old(table.Model()), op).0
    ensures o == Seen(TableStep(old(table.Model()), op).1)
    ensures table.moved == old(table.moved) + Moved(old(table.Model()), op)
  {
    hide Insert, Delete, Lookup, Flatten, Moved, ChainedTable.Inv;
    hide Placed, Within, Holds, Entries, IsChain, ChainEntries;
    InvPositive(table.Model());
    match op
    case InsertOp(key, value) =>
      InsertMoves(table.Model(), key, value);
      var flags := table.InsertEntry(key, value);
      o := Code(flags);
    case DeleteOp(key) =>
      DeleteMoves(table.Model(), key);
      var flags := table.DeleteEntry(key);
      o := Code(flags);
    case LookupOp(key) =>
      ReadMovesNothing(table.Model(), op);
      var r := table.GetPtrToValueByKey(key);
      o := Found(if r.Some? then Some(r) else None);
    case ExistsOp(key) =>
      ReadMovesNothing(table.Model(), op);
      var r := table.CheckKeyExists(key);
      o := Present(r);
  }

  lemma ReadMovesNothing<V>(t: Table<Option<V>>, op: Op<Option<V>>)
    requires |t.buckets| > 0 && (op.LookupOp? || op.ExistsOp?)
    ensures Moved(t, op) == 0
  {
  }

  lemma RunOneMore<V>(t: Table<Option<V>>, ops: seq<Op<Option<V>>>, i: nat)
    requires |t.buckets| > 0 && i < |ops|
    ensures ops[i..][1..] == ops[i + 1..]
    ensures var (t1, o) := TableStep(t, ops[i]);
      && RunTable(t, ops[i..]) == (RunTable(t1, ops[i + 1..]).0, [Visible(o)] + RunTable(t1, ops[i + 1..]).1)
      && TotalMoved(t, ops[i..]) == Moved(t, ops[i]) + TotalMoved(t1, ops[i + 1..])
  {
    hide TableStep, Moved;
    assert ops[i..][1..] == ops[i + 1..];
  }

  lemma RunNothing<V>(t: Table<Option<V>>)
    requires |t.buckets| > 0
    ensures RunTable(t, []) == (t, []) && TotalMoved(t, []) == 0 && AllSeen<V>([]) == []
  {
  }

  lemma SeenVisible<V>(o: Outcome<Option<V>>)
    ensures Visible(Seen(o)) == Seen(Visible(o))
  {
  }

  lemma AllSeenCons<V>(o: Outcome<Option<V>>, os: seq<Outcome<Option<V>>>)
    ensures AllSeen([o] + os) == [Seen(o)] + AllSeen(os)
  {
    assert ([o] + os)[1..] == os;
  }

  /** Any sequence of operations on a fresh table of heap nodes is answered as by a finite map, which the
      table stands for in the end; and its resizes have moved at most twice as many nodes as keys were
      freshly inserted. */
  method RunAll<V(==)>(ops: seq<Op<Option<V>>>)
    returns (table: HashTable<V>, outcomes: seq<Outcome<Option<V>>>)
    ensures fresh(table) && table.Valid()
    ensures outcomes == AllSeen(RunMap(map[], ops).1)
    ensures Represents(table.Model().buckets, RunMap(map[], ops).0)
    ensures table.moved <= 2 * table.elemCount
  {
    hide TableStep, Moved, Represents, ChainedTable.Inv, Seen, Visible, RunTable, TotalMoved;
    hide RunMap, AllSeen, Create, Placed, Holds, Entries;
    table := new HashTable();
    outcomes := [];
    ghost var start := table.Model();
    var i := 0;
    InvPositive(start);
    assert ops[0..] == ops;
    assert [] + AllSeen(RunTable(start, ops).1) == AllSeen(RunTable(start, ops).1);
    while i < |ops|
      invariant 0 <= i <= |ops|
      invariant fresh(table) && fresh(table.table) && fresh(table.nodes) && table.Valid()
      invariant |start.buckets| > 0 && |table.Model().buckets| > 0
      invariant RunTable(start, ops).0 == RunTable(table.Model(), ops[i..]).0
      invariant AllSeen(RunTable(start, ops).1) == outcomes + AllSeen(RunTable(table.Model(), ops[i..]).1)
      invariant TotalMoved(start, ops) == table.moved + TotalMoved(table.Model(), ops[i..])
    {
      ghost var before := table.Model();
      RunOneMore(before, ops, i);
      var o := Perform(table, ops[i]);
      ghost var (t1, seen) := TableStep(before, ops[i]);
      InvPositive(table.Model());
      SeenVisible(seen);
      AllSeenCons(Visible(seen), RunTable(t1, ops[i + 1..]).1);
      outcomes := outcomes + [Visible(o)];
      i := i + 1;
    }
    assert ops[i..] == [];
    RunNothing(table.Model());
    TableIsMap(ops);
    AmortisedResizeCost(ops);
    assert outcomes + [] == outcomes;
  }
}
