/** The command table, its registration in the hash table, and the dispatch of a control line. */
module Dispatch {
  import opened Options
  import opened ChainedTable
  import opened HashTables
  import opened CommandParser

  /** The action a line is handed to. */
  datatype Handler =
    | SystAction | QuitAction | AuthAction | PbszAction | ProtAction | NoopAction | FeatAction
    | TypeAction | EpsvAction | PasvAction | NlstAction | ListAction | SizeAction | RetrAction
    | StorAction | MdtmAction | CwdAction | PwdAction | AborAction | MkdAction | RmdAction | DeleAction
    | UserAction | PassAction
    | NonAuthenticated | AlreadyAuthenticated | InvalidAction

  datatype Callbacks = Callbacks(authenticated: Handler, nonAuthenticated: Handler)

  datatype Row = Row(action: string, callbacks: Callbacks)

  function Same(action: string, handler: Handler): Row {
    Row(action, Callbacks(handler, handler))
  }

  function Authenticated(action: string, handler: Handler): Row {
    Row(action, Callbacks(handler, NonAuthenticated))
  }

  function Unauthenticated(action: string, handler: Handler): Row {
    Row(action, Callbacks(AlreadyAuthenticated, handler))
  }

  const COMMAND_ACTIONS: seq<Row> := [
    Same("SYST", SystAction), Same("QUIT", QuitAction), Same("AUTH", AuthAction),
    Same("PBSZ", PbszAction), Same("PROT", ProtAction), Same("NOOP", NoopAction),
    Same("FEAT", FeatAction),
    Authenticated("TYPE", TypeAction), Authenticated("EPSV", EpsvAction),
    Authenticated("PASV", PasvAction), Authenticated("NLST", NlstAction),
    Authenticated("LIST", ListAction), Authenticated("SIZE", SizeAction),
    Authenticated("RETR", RetrAction), Authenticated("STOR", StorAction),
    Authenticated("MDTM", MdtmAction), Authenticated("CWD", CwdAction),
    Authenticated("PWD", PwdAction), Authenticated("ABOR", AborAction),
    Authenticated("MKD", MkdAction), Authenticated("RMD", RmdAction),
    Authenticated("DELE", DeleAction),
    Unauthenticated("USER", UserAction), Unauthenticated("PASS", PassAction)
  ]

  /** The reference: the first row, scanning the table from the top. */
  function Scan(rows: seq<Row>, name: string): Option<Callbacks> {
    if rows == [] then None
    else if rows[0].action == name then Some(rows[0].callbacks)
    else Scan(rows[1..], name)
  }

  function Chosen(found: Option<Callbacks>, authenticated: bool): Handler {
    match found
    case None => InvalidAction
    case Some(cb) => if authenticated then cb.authenticated else cb.nonAuthenticated
  }

  function Select(name: string, authenticated: bool): Handler {
    Chosen(Scan(COMMAND_ACTIONS, name), authenticated)
  }

  /** What registration leaves behind: a later row with the same name would win. */
  function LastRow(rows: seq<Row>, name: string): Option<Callbacks> {
    if rows == [] then None
    else
      var last := |rows| - 1;
      if rows[last].action == name then Some(rows[last].callbacks) else LastRow(rows[..last], name)
  }

  ghost predicate DistinctNames(rows: seq<Row>) {
    forall i, j :: 0 <= i < j < |rows| ==> rows[i].action != rows[j].action
  }

  lemma {:induction false} ScanIsFirst(rows: seq<Row>, i: nat)
    requires DistinctNames(rows) && i < |rows|
    ensures Scan(rows, rows[i].action) == Some(rows[i].callbacks)
  {
    if i > 0 {
      ScanIsFirst(rows[1..], i - 1);
    }
  }

  lemma {:induction false} ScanMisses(rows: seq<Row>, name: string)
    requires forall i :: 0 <= i < |rows| ==> rows[i].action != name
    ensures Scan(rows, name) == None
  {
    if rows != [] {
      ScanMisses(rows[1..], name);
    }
  }

  lemma {:induction false} LastRowFinds(rows: seq<Row>, name: string)
    ensures LastRow(rows, name) == None ==> forall i :: 0 <= i < |rows| ==> rows[i].action != name
    ensures LastRow(rows, name).Some? ==>
      exists i :: 0 <= i < |rows| && rows[i].action == name && LastRow(rows, name) == Some(rows[i].callbacks)
  {
    if rows != [] {
      var last := |rows| - 1;
      LastRowFinds(rows[..last], name);
      if rows[last].action != name && LastRow(rows[..last], name).Some? {
        var i :| 0 <= i < last && rows[..last][i].action == name
          && LastRow(rows[..last], name) == Some(rows[..last][i].callbacks);
        assert rows[i].action == name;
      }
    }
  }

  lemma LastIsFirst(rows: seq<Row>, name: string)
    requires DistinctNames(rows)
    ensures LastRow(rows, name) == Scan(rows, name)
  {
    LastRowFinds(rows, name);
    if LastRow(rows, name).Some? {
      var i :| 0 <= i < |rows| && rows[i].action == name && LastRow(rows, name) == Some(rows[i].callbacks);
      ScanIsFirst(rows, i);
    } else {
      ScanMisses(rows, name);
    }
  }

  /** The row a name belongs to, told from its letters. */
  function RowOf(name: string): nat
    requires |name| >= 3
  {
    match name[0]
    case 'S' => if name[1] == 'Y' then 0 else if name[1] == 'I' then 12 else 14
    case 'Q' => 1
    case 'A' => if name[1] == 'U' then 2 else 18
    case 'P' =>
      if name[1] == 'B' then 3 else if name[1] == 'R' then 4 else if name[1] == 'W' then 17
      else if name[|name| - 1] == 'V' then 9 else 23
    case 'N' => if name[1] == 'O' then 5 else 10
    case 'F' => 6
    case 'T' => 7
    case 'E' => 8
    case 'L' => 11
    case 'R' => if name[1] == 'E' then 13 else 20
    case 'M' => if name[1] == 'D' then 15 else 19
    case 'C' => 16
    case 'D' => 21
    case _ => 22
  }

  predicate Recognised(i: nat)
    requires i < |COMMAND_ACTIONS|
  {
    |COMMAND_ACTIONS[i].action| >= 3 && RowOf(COMMAND_ACTIONS[i].action) == i
  }

  lemma FirstHalfRecognised()
    ensures forall i :: 0 <= i < 12 ==> Recognised(i)
  {
  }

  lemma SecondHalfRecognised()
    ensures |COMMAND_ACTIONS| == 24
    ensures forall i :: 12 <= i < 24 ==> Recognised(i)
  {
  }

  lemma TableNamesDistinct()
    ensures DistinctNames(COMMAND_ACTIONS)
  {
    FirstHalfRecognised();
    SecondHalfRecognised();
    hide COMMAND_ACTIONS, RowOf;
    forall i, j | 0 <= i < j < |COMMAND_ACTIONS|
      ensures COMMAND_ACTIONS[i].action != COMMAND_ACTIONS[j].action
    {
      assert Recognised(i) && Recognised(j);
    }
  }

  // ---------------------------------------------------------------- the engine

  /** A table that answers as the rows registered so far, the last one winning, and whose size says
      how many there were: the fifteenth one doubles the table. */
  ghost predicate HoldsRows(t: Table<Option<Callbacks>>, rows: seq<Row>)
    requires |t.buckets| > 0
  {
    && t.elemCount == |Flatten(t.buckets)| == |rows|
    && |t.buckets| == (if |rows| < 15 then 21 else 42)
    && forall name :: Lookup(t.buckets, name)
         == if LastRow(rows, name).Some? then Some(LastRow(rows, name)) else None
  }

  ghost predicate Registered(registry: HashTable<Callbacks>, rows: seq<Row>)
    reads registry, registry.table, registry.nodes
  {
    && registry.Valid()
    && HoldsRows(registry.Model(), rows)
    && registry.moved == (if |rows| < 15 then 0 else 15)
  }

  lemma RegisterStep(t: Table<Option<Callbacks>>, rows: seq<Row>, row: Row)
    requires Inv(t) && HoldsRows(t, rows) && LastRow(rows, row.action) == None && |rows| < 24
    ensures var (t', flags) := Insert(t, row.action, Some(row.callbacks));
      && HoldsRows(t', rows + [row])
      && Success in flags && Updated !in flags
      && (Resized in flags <==> |rows| == 14)
      && |Flatten(t'.buckets)| == |rows| + 1
  {
    hide Lookup, Insert, LastRow, Flatten, Inv;
    InsertCorrect(t, row.action, Some(row.callbacks));
    InsertSize(t, row.action, Some(row.callbacks));
    forall name
      ensures LastRow(rows + [row], name) == if row.action == name then Some(row.callbacks) else LastRow(rows, name)
    {
      LastRowAppend(rows, row, name);
    }
  }

  method RegisterCommand(registry: HashTable<Callbacks>, row: Row, ghost rows: seq<Row>)
    returns (code: set<Flag>)
    requires Registered(registry, rows) && LastRow(rows, row.action) == None && |rows| < 24
    modifies registry, registry.table, registry.nodes
    ensures Registered(registry, rows + [row]) && code != {}
    ensures registry.table == old(registry.table) || fresh(registry.table)
    ensures fresh(registry.nodes - old(registry.nodes))
  {
    hide HoldsRows, Insert, LastRow, Flatten, Inv;
    RegisterStep(registry.Model(), rows, row);
    code := registry.InsertEntry(row.action, Some(row.callbacks));
  }

  lemma LastRowAppend(rows: seq<Row>, row: Row, name: string)
    ensures LastRow(rows + [row], name) == if row.action == name then Some(row.callbacks) else LastRow(rows, name)
  {
    assert (rows + [row])[..|rows|] == rows;
  }

  lemma NotYetRegistered(rows: seq<Row>, i: nat)
    requires DistinctNames(rows) && i < |rows|
    ensures LastRow(rows[..i], rows[i].action) == None
  {
    LastRowFinds(rows[..i], rows[i].action);
  }

  method EmptyRegistry() returns (registry: HashTable<Callbacks>)
    ensures fresh(registry) && fresh(registry.table) && registry.nodes == {}
    ensures Registered(registry, [])
  {
    hide HoldsRows, Create, Inv;
    registry := new HashTable();
    CreateHoldsNothing();
  }

  lemma CreateHoldsNothing()
    ensures HoldsRows(Create(), [])
  {
    EmptyPlaced<Option<Callbacks>>(INITIAL_SIZE);
  }

  /** Registers the whole table; one resize happens on the way, moving fifteen nodes, and no row fails
      to register. */
  method InitializeExecutionEngine() returns (registry: HashTable<Callbacks>)
    ensures fresh(registry) && Registered(registry, COMMAND_ACTIONS)
    ensures registry.length == 42 && registry.moved == 15
  {
    hide LastRow, Registered, COMMAND_ACTIONS, Recognised, DistinctNames;
    registry := EmptyRegistry();
    TableNamesDistinct();
    SecondHalfRecognised();
    var i := 0;
    assert COMMAND_ACTIONS[..0] == [];
    while i < |COMMAND_ACTIONS|
      invariant 0 <= i <= |COMMAND_ACTIONS|
      invariant Registered(registry, COMMAND_ACTIONS[..i])
      invariant fresh(registry) && fresh(registry.table) && fresh(registry.nodes)
    {
      NotYetRegistered(COMMAND_ACTIONS, i);
      var code := RegisterCommand(registry, COMMAND_ACTIONS[i], COMMAND_ACTIONS[..i]);
      assert COMMAND_ACTIONS[..i + 1] == COMMAND_ACTIONS[..i] + [COMMAND_ACTIONS[i]];
      i := i + 1;
    }
    assert COMMAND_ACTIONS[..i] == COMMAND_ACTIONS;
    RegisteredSize(registry);
  }

  lemma RegisteredSize(registry: HashTable<Callbacks>)
    requires Registered(registry, COMMAND_ACTIONS)
    ensures registry.length == 42 && registry.moved == 15
  {
    hide Lookup, Inv, Flatten;
  }

  /** Any line runs the handler the table's first matching row names for the current login state. */
  method ExecuteFtpCommand(registry: HashTable<Callbacks>, input: string, authenticated: bool)
    returns (handler: Handler, cmd: Command)
    requires Registered(registry, COMMAND_ACTIONS)
    ensures cmd == Parse(input)
    ensures handler == Select(Parse(input).command, authenticated)
  {
    hide Parse, Scan, LastRow, COMMAND_ACTIONS;
    cmd := ParseTextCommand(input);
    TableNamesDistinct();
    LastIsFirst(COMMAND_ACTIONS, cmd.command);
    var cb := registry.GetPtrToValueByKey(cmd.command);
    if cb.Some? {
      handler := if authenticated then cb.value.authenticated else cb.value.nonAuthenticated;
    } else {
      handler := InvalidAction;
    }
  }
}
