/** The scope / name table of table.c: a stack-discipline symbol table kept
    in a fixed array, with per-level block bookkeeping.  TableState and the
    functions on it are the specification; class NameTable is the imperative
    table over arrays, and each of its methods is proved to do what the
    matching function says. */
module Table {
  import opened Results
  import opened Share

  const MAX_TABLE_SIZE: nat := 200

  /** IdentifierKind (table.h). */
  datatype IdentifierKind = VarIdentifier | FuncIdentifier | ConstIdentifier | ParamIdentifier

  /** BlockKind (table.h); FunctionBlock is the enumerator with value 0. */
  datatype BlockKind = FunctionBlock | LoopBlock | TopLevel | NormalBlock

  /** RelAddr (table.h): block level and address inside the block (for a
      function, the first pc of its body). */
  datatype RelAddr = RelAddr(blockLevel: int, address: int)

  /** One slot of name_table.  The C payload is a union; the model keeps its
      members as separate fields, so reading a member other than the one the
      entry's kind uses is not modelled. */
  datatype Entry = Entry(kind: IdentifierKind, name: string, relAddr: RelAddr,
                         value: Value, numParams: int)

  /** A slot as static storage leaves it: all zero. */
  const ZeroEntry: Entry := Entry(VarIdentifier, "", RelAddr(0, 0), IntValue(0), 0)

  /** Fatal outcomes.  OutOfRange stands for an array access outside its
      bounds, which the C code performs without a check. */
  datatype TableError = TableFull | TooDeeplyNested | OutOfRange

  /** The whole global state of table.c. */
  datatype TableState = TableState(
    entries: seq<Entry>,        // name_table
    tableIndex: int,            // table_index: the newest entry
    tableFuncIndex: int,        // table_func_index: the newest function
    level: int,                 // current_block_level
    lastIndex: seq<int>,        // last_index
    lastAddr: seq<int>,         // last_addr
    blockKind: seq<BlockKind>,  // block_kind
    localAddr: int,             // local_addr
    breakCount: seq<int>,       // break_label_count
    continueCount: seq<int>)    // continue_label_count

  ghost predicate WellFormed(t: TableState) {
    && |t.entries| == MAX_TABLE_SIZE
    && 0 <= t.tableIndex < MAX_TABLE_SIZE
    && 0 <= t.tableFuncIndex < MAX_TABLE_SIZE
    && -1 <= t.level < MAX_BLOCK_LEVEL
    && |t.lastIndex| == MAX_BLOCK_LEVEL && |t.lastAddr| == MAX_BLOCK_LEVEL
    && |t.blockKind| == MAX_BLOCK_LEVEL
    && |t.breakCount| == MAX_BLOCK_LEVEL && |t.continueCount| == MAX_BLOCK_LEVEL
    && forall i :: 0 <= i < MAX_BLOCK_LEVEL ==> 0 <= t.lastIndex[i] < MAX_TABLE_SIZE
  }

  function Zeros(n: nat): (r: seq<int>)
    ensures |r| == n && forall i :: 0 <= i < n ==> r[i] == 0
  {
    seq(n, _ => 0)
  }

  /** The state before any call: static storage is zero, and
      current_block_level starts at -1. */
  function Initial(): (t: TableState)
    ensures WellFormed(t)
  {
    TableState(seq(MAX_TABLE_SIZE, _ => ZeroEntry), 0, 0, -1,
               Zeros(MAX_BLOCK_LEVEL), Zeros(MAX_BLOCK_LEVEL),
               seq(MAX_BLOCK_LEVEL, _ => FunctionBlock), 0,
               Zeros(MAX_BLOCK_LEVEL), Zeros(MAX_BLOCK_LEVEL))
  }

  // ---------------------------------------------------------------------
  // Adding entries

  /** addTableName: the next slot gets the name; a full table is fatal. */
  function AddName(t: TableState, name: string): (r: Result<TableState, TableError>)
    requires WellFormed(t)
    ensures r.Ok? <==> t.tableIndex + 1 < MAX_TABLE_SIZE
    ensures r.Err? ==> r.error == TableFull
    ensures r.Ok? ==> WellFormed(r.value) && r.value.tableIndex == t.tableIndex + 1
    ensures r.Ok? ==> r.value.entries[r.value.tableIndex].name == name
  {
    var i := t.tableIndex + 1;
    if i < MAX_TABLE_SIZE then
      Ok(t.(tableIndex := i, entries := t.entries[i := t.entries[i].(name := name)]))
    else
      Err(TableFull)
  }

  /** addTableFunc: a function entry at the current level with the given
      first pc and no parameters yet; it becomes the current function. */
  function AddFunc(t: TableState, name: string, address: int): (r: Result<(TableState, nat), TableError>)
    requires WellFormed(t)
    ensures r.Ok? <==> t.tableIndex + 1 < MAX_TABLE_SIZE
    ensures r.Ok? ==> var (t', i) := r.value;
      && WellFormed(t') && i == t'.tableIndex == t.tableIndex + 1 && i >= 1
      && t'.entries[i] == Entry(FuncIdentifier, name, RelAddr(t.level, address), t.entries[i].value, 0)
      && t'.tableFuncIndex == i
      && (forall j :: 0 <= j < MAX_TABLE_SIZE && j != i ==> t'.entries[j] == t.entries[j])
      && t'.localAddr == t.localAddr && t'.level == t.level
  {
    var t1 :- AddName(t, name);
    var i := t1.tableIndex;
    var e := t1.entries[i].(kind := FuncIdentifier, relAddr := RelAddr(t.level, address), numParams := 0);
    Ok((t1.(entries := t1.entries[i := e], tableFuncIndex := i), i))
  }

  /** addTableParam: a parameter entry at the current level, whose address is
      assigned later by parEnd; the current function gains a parameter. */
  function AddParam(t: TableState, name: string): (r: Result<(TableState, nat), TableError>)
    requires WellFormed(t)
    ensures r.Ok? <==> t.tableIndex + 1 < MAX_TABLE_SIZE
    ensures r.Ok? ==> var (t', i) := r.value;
      && WellFormed(t') && i == t'.tableIndex == t.tableIndex + 1 && i >= 1
      && t'.entries[i].kind == ParamIdentifier && t'.entries[i].name == name
      && t'.entries[i].relAddr.blockLevel == t.level
      && (t.tableFuncIndex != i ==>
            t'.entries[t.tableFuncIndex].numParams == t.entries[t.tableFuncIndex].numParams + 1)
      && (forall j :: 0 <= j < MAX_TABLE_SIZE && j != i && j != t.tableFuncIndex ==>
            t'.entries[j] == t.entries[j])
      && t'.tableFuncIndex == t.tableFuncIndex
      && t'.localAddr == t.localAddr && t'.level == t.level
  {
    var t1 :- AddName(t, name);
    var i := t1.tableIndex;
    var e := t1.entries[i].(kind := ParamIdentifier,
                            relAddr := t1.entries[i].relAddr.(blockLevel := t.level));
    var t2 := t1.(entries := t1.entries[i := e]);
    var f := t2.tableFuncIndex;
    var fe := t2.entries[f].(numParams := t2.entries[f].numParams + 1);
    Ok((t2.(entries := t2.entries[f := fe]), i))
  }

  /** addTableVar: a variable at the current level that takes the next local
      address; local_addr advances by one. */
  function AddVar(t: TableState, name: string): (r: Result<(TableState, nat), TableError>)
    requires WellFormed(t)
    ensures r.Ok? <==> t.tableIndex + 1 < MAX_TABLE_SIZE
    ensures r.Ok? ==> var (t', i) := r.value;
      && WellFormed(t') && i == t'.tableIndex == t.tableIndex + 1 && i >= 1
      && t'.entries[i].kind == VarIdentifier && t'.entries[i].name == name
      && t'.entries[i].relAddr == RelAddr(t.level, t.localAddr)
      && t'.localAddr == t.localAddr + 1
      && (forall j :: 0 <= j < MAX_TABLE_SIZE && j != i ==> t'.entries[j] == t.entries[j])
      && t'.level == t.level && t'.tableFuncIndex == t.tableFuncIndex
      && t'.lastIndex == t.lastIndex && t'.lastAddr == t.lastAddr
      && t'.blockKind == t.blockKind
      && t'.breakCount == t.breakCount && t'.continueCount == t.continueCount
  {
    var t1 :- AddName(t, name);
    var i := t1.tableIndex;
    var e := t1.entries[i].(kind := VarIdentifier, relAddr := RelAddr(t.level, t.localAddr));
    Ok((t1.(entries := t1.entries[i := e], localAddr := t.localAddr + 1), i))
  }

  /** addTableConst: a constant entry carrying its value. */
  function AddConst(t: TableState, name: string, v: Value): (r: Result<(TableState, nat), TableError>)
    requires WellFormed(t)
    ensures r.Ok? <==> t.tableIndex + 1 < MAX_TABLE_SIZE
    ensures r.Ok? ==> var (t', i) := r.value;
      && WellFormed(t') && i == t'.tableIndex == t.tableIndex + 1 && i >= 1
      && t'.entries[i].kind == ConstIdentifier && t'.entries[i].name == name
      && t'.entries[i].value == v
      && (forall j :: 0 <= j < MAX_TABLE_SIZE && j != i ==> t'.entries[j] == t.entries[j])
      && t'.localAddr == t.localAddr && t'.level == t.level
      && t'.tableFuncIndex == t.tableFuncIndex
  {
    var t1 :- AddName(t, name);
    var i := t1.tableIndex;
    var e := t1.entries[i].(kind := ConstIdentifier, value := v);
    Ok((t1.(entries := t1.entries[i := e]), i))
  }

  // ---------------------------------------------------------------------
  // Parameter addresses

  /** The entries after parEnd: the n slots following the current function
      get the addresses -n .. -1 in order. */
  function ParamAddressed(entries: seq<Entry>, f: int, n: int): (r: seq<Entry>)
    requires |entries| == MAX_TABLE_SIZE
    ensures |r| == MAX_TABLE_SIZE
    ensures forall j :: 0 <= j < MAX_TABLE_SIZE ==>
      r[j] == if f < j <= f + n then entries[j].(relAddr := entries[j].relAddr.(address := j - f - 1 - n))
              else entries[j]
  {
    seq(MAX_TABLE_SIZE, j requires 0 <= j < MAX_TABLE_SIZE =>
      if f < j <= f + n then entries[j].(relAddr := entries[j].relAddr.(address := j - f - 1 - n))
      else entries[j])
  }

  /** parEnd.  Writing past the end of name_table is out of range. */
  function ParEnd(t: TableState): (r: Result<TableState, TableError>)
    requires WellFormed(t)
    ensures r.Ok? ==> WellFormed(r.value)
  {
    var f := t.tableFuncIndex;
    var n := t.entries[f].numParams;
    if n <= 0 then Ok(t)
    else if f + n >= MAX_TABLE_SIZE then Err(OutOfRange)
    else Ok(t.(entries := ParamAddressed(t.entries, f, n)))
  }

  /** changeFuncAddr: a new first pc for the function at index i. */
  function ChangeFuncAddr(t: TableState, i: int, address: int): (r: Result<TableState, TableError>)
    requires WellFormed(t)
    ensures r.Ok? <==> 0 <= i < MAX_TABLE_SIZE
    ensures r.Ok? ==> WellFormed(r.value) && r.value.entries[i].relAddr.address == address
  {
    if 0 <= i < MAX_TABLE_SIZE then
      Ok(t.(entries := t.entries[i := t.entries[i].(relAddr := t.entries[i].relAddr.(address := address))]))
    else Err(OutOfRange)
  }

  // ---------------------------------------------------------------------
  // Lookup

  /** The newest index in 1..top whose name matches, or 0 when there is none
      (slot 0 is the sentinel and never a real entry). */
  function Latest(entries: seq<Entry>, name: string, top: int): (r: nat)
    requires top < |entries|
    decreases top
    ensures r <= (if top < 0 then 0 else top)
    ensures r > 0 ==> entries[r].name == name
    ensures forall j :: r < j <= top ==> entries[j].name != name
  {
    if top <= 0 then 0
    else if entries[top].name == name then top
    else Latest(entries, name, top - 1)
  }

  /** searchTable: the sentinel write into slot 0, then the newest match by
      name (whatever its kind); missing names give 0, except that a missing
      variable is declared on the spot. */
  function Search(t: TableState, name: string, kind: IdentifierKind): (r: Result<(TableState, nat), TableError>)
    requires WellFormed(t)
    ensures r.Ok? ==> WellFormed(r.value.0) && r.value.1 <= r.value.0.tableIndex
  {
    var t1 := t.(entries := t.entries[0 := t.entries[0].(name := name)]);
    var i := Latest(t1.entries, name, t1.tableIndex);
    if i != 0 then Ok((t1, i))
    else if kind == VarIdentifier then AddVar(t1, name)
    else Ok((t1, 0))
  }

  // ---------------------------------------------------------------------
  // Getters.  The source indexes name_table without a check; callers pass
  // indices the table handed out.

  function GetTableKind(t: TableState, i: int): IdentifierKind
    requires WellFormed(t) && 0 <= i < MAX_TABLE_SIZE
  {
    t.entries[i].kind
  }

  function GetVarRelAddr(t: TableState, i: int): RelAddr
    requires WellFormed(t) && 0 <= i < MAX_TABLE_SIZE
  {
    t.entries[i].relAddr
  }

  function GetConstValue(t: TableState, i: int): Value
    requires WellFormed(t) && 0 <= i < MAX_TABLE_SIZE
  {
    t.entries[i].value
  }

  function GetNumParams(t: TableState, i: int): int
    requires WellFormed(t) && 0 <= i < MAX_TABLE_SIZE
  {
    t.entries[i].numParams
  }

  function GetCurrentNumParams(t: TableState): int
    requires WellFormed(t)
  {
    t.entries[t.tableFuncIndex].numParams
  }

  /** getBlockNeedMemory: the local addresses in use in the current block. */
  function GetBlockNeedMemory(t: TableState): int {
    t.localAddr
  }

  // ---------------------------------------------------------------------
  // Blocks

  /** blockBegin.  The first call (level -1) resets the table and sets level
      0; a begin at the deepest level is fatal; otherwise the current table
      top, local address and the given kind are saved for this level, its
      label counters are cleared and the new block starts at firstAddress. */
  function BlockBegin(t: TableState, firstAddress: int, kind: BlockKind): (r: Result<TableState, TableError>)
    requires WellFormed(t)
    ensures r.Err? <==> t.level == MAX_BLOCK_LEVEL - 1
    ensures r.Ok? ==> WellFormed(r.value) && r.value.level == t.level + 1
    ensures r.Ok? ==> r.value.localAddr == firstAddress
    ensures r.Ok? ==> r.value.tableIndex == (if t.level == -1 then 0 else t.tableIndex)
  {
    if t.level == -1 then
      Ok(t.(localAddr := firstAddress, tableIndex := 0,
            blockKind := t.blockKind[0 := TopLevel],
            breakCount := Zeros(MAX_BLOCK_LEVEL), continueCount := Zeros(MAX_BLOCK_LEVEL),
            level := 0))
    else if t.level == MAX_BLOCK_LEVEL - 1 then
      Err(TooDeeplyNested)
    else
      var l := t.level;
      Ok(t.(lastIndex := t.lastIndex[l := t.tableIndex],
            lastAddr := t.lastAddr[l := t.localAddr],
            blockKind := t.blockKind[l := kind],
            breakCount := t.breakCount[l := 0],
            continueCount := t.continueCount[l := 0],
            localAddr := firstAddress,
            level := l + 1))
  }

  /** blockEnd: back one level, restoring the table top and the local
      address saved there.  At level 0 the C code reads last_index[-1]. */
  function BlockEnd(t: TableState): (r: Result<TableState, TableError>)
    requires WellFormed(t)
    ensures r.Ok? <==> t.level >= 1
    ensures r.Ok? ==> WellFormed(r.value) && r.value.level == t.level - 1
  {
    if t.level <= 0 then Err(OutOfRange)
    else
      var l := t.level - 1;
      Ok(t.(level := l, tableIndex := t.lastIndex[l], localAddr := t.lastAddr[l]))
  }

  /** getBlockKind reads block_kind[current_block_level - 1]. */
  function GetBlockKind(t: TableState): (r: Result<BlockKind, TableError>)
    requires WellFormed(t)
    ensures r.Ok? <==> t.level >= 1
  {
    if t.level >= 1 then Ok(t.blockKind[t.level - 1]) else Err(OutOfRange)
  }

  function GetBlockLevel(t: TableState): int {
    t.level
  }

  /** getBreakCount / getContinueCount: the counter of the current level. */
  function GetBreakCount(t: TableState): (r: Result<int, TableError>)
    requires WellFormed(t)
    ensures r.Ok? <==> t.level >= 0
  {
    if t.level >= 0 then Ok(t.breakCount[t.level]) else Err(OutOfRange)
  }

  function GetContinueCount(t: TableState): (r: Result<int, TableError>)
    requires WellFormed(t)
    ensures r.Ok? <==> t.level >= 0
  {
    if t.level >= 0 then Ok(t.continueCount[t.level]) else Err(OutOfRange)
  }

  /** incBreakCount / incContinueCount: pre-increment and return the counter
      of the current level. */
  function IncBreakCount(t: TableState): (r: Result<(TableState, int), TableError>)
    requires WellFormed(t)
    ensures r.Ok? <==> t.level >= 0
    ensures r.Ok? ==> WellFormed(r.value.0)
  {
    if t.level >= 0 then
      var c := t.breakCount[t.level] + 1;
      Ok((t.(breakCount := t.breakCount[t.level := c]), c))
    else Err(OutOfRange)
  }

  function IncContinueCount(t: TableState): (r: Result<(TableState, int), TableError>)
    requires WellFormed(t)
    ensures r.Ok? <==> t.level >= 0
    ensures r.Ok? ==> WellFormed(r.value.0)
  {
    if t.level >= 0 then
      var c := t.continueCount[t.level] + 1;
      Ok((t.(continueCount := t.continueCount[t.level := c]), c))
    else Err(OutOfRange)
  }

  /** The scan of searchTable stops exactly at Latest: the first index at or
      below the top whose name matches, with the sentinel at 0. */
  lemma {:induction false} LatestIs(entries: seq<Entry>, name: string, top: int, i: int)
    requires 0 <= i <= top < |entries|
    requires i == 0 || entries[i].name == name
    requires forall j :: i < j <= top ==> entries[j].name != name
    ensures Latest(entries, name, top) == i
    decreases top
  {
    if top > i {
      LatestIs(entries, name, top - 1, i);
    }
  }
}
