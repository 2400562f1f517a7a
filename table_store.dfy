// The globals of table.c as a class over fixed-size arrays.  Every method is
// proved to do exactly what the matching function of module Table does.
module TableStore {
  import opened Results
  import opened Share
  import opened Table


  /** r and the new state are what the specification function gives.  Every
      failure is fatal in the source (compile_error ends the program), so the
      state after one is left open. */
  ghost predicate Follows<T>(spec: Result<(TableState, T), TableError>, r: Result<T, TableError>,
                             after: TableState) {
    match spec
    case Ok((t', v)) => r == Ok(v) && after == t'
    case Err(e) => r == Err(e)
  }

  ghost predicate FollowsState(spec: Result<TableState, TableError>, r: Result<(), TableError>,
                               after: TableState) {
    match spec
    case Ok(t') => r == Ok(()) && after == t'
    case Err(e) => r == Err(e)
  }

  /** The globals of table.c.  The arrays keep their C sizes. */
  class NameTable {
    const nameTable: array<Entry>
    var tableIndex: int
    var tableFuncIndex: int
    var currentBlockLevel: int
    const lastIndex: array<int>
    const lastAddr: array<int>
    const blockKind: array<BlockKind>
    var localAddr: int
    const breakLabelCount: array<int>
    const continueLabelCount: array<int>

    ghost const Repr: set<object> := {this, nameTable, lastIndex, lastAddr, blockKind,
                                       breakLabelCount, continueLabelCount}

    ghost function Model(): TableState
      reads this, nameTable, lastIndex, lastAddr, blockKind, breakLabelCount, continueLabelCount
    {
      TableState(nameTable[..], tableIndex, tableFuncIndex, currentBlockLevel,
                 lastIndex[..], lastAddr[..], blockKind[..], localAddr,
                 breakLabelCount[..], continueLabelCount[..])
    }

    ghost predicate Valid()
      reads this, nameTable, lastIndex, lastAddr, blockKind, breakLabelCount, continueLabelCount
    {
      && Repr == {this, nameTable, lastIndex, lastAddr, blockKind, breakLabelCount, continueLabelCount}
      && lastIndex != lastAddr && lastIndex != breakLabelCount && lastIndex != continueLabelCount
      && lastAddr != breakLabelCount && lastAddr != continueLabelCount
      && breakLabelCount != continueLabelCount
      && WellFormed(Model())
    }

    constructor ()
      ensures Valid() && Model() == Initial()
      ensures fresh(nameTable) && fresh(lastIndex) && fresh(lastAddr) && fresh(blockKind)
      ensures fresh(breakLabelCount) && fresh(continueLabelCount)
    {
      nameTable := new Entry[MAX_TABLE_SIZE](_ => ZeroEntry);
      lastIndex := new int[MAX_BLOCK_LEVEL](_ => 0);
      lastAddr := new int[MAX_BLOCK_LEVEL](_ => 0);
      blockKind := new BlockKind[MAX_BLOCK_LEVEL](_ => FunctionBlock);
      breakLabelCount := new int[MAX_BLOCK_LEVEL](_ => 0);
      continueLabelCount := new int[MAX_BLOCK_LEVEL](_ => 0);
      tableIndex, tableFuncIndex, currentBlockLevel, localAddr := 0, 0, -1, 0;
      new;
      assert nameTable[..] == seq(MAX_TABLE_SIZE, _ => ZeroEntry);
      assert blockKind[..] == seq(MAX_BLOCK_LEVEL, _ => FunctionBlock);
    }

    /** addTableName: advance table_index and store the name there. */
    method AddTableName(name: string) returns (r: Result<(), TableError>)
      requires Valid()
      modifies this, nameTable
      ensures Valid()
      ensures FollowsState(AddName(old(Model()), name), r, Model())
    {
      if tableIndex + 1 >= MAX_TABLE_SIZE {
        return Err(TableFull);
      }
      tableIndex := tableIndex + 1;
      nameTable[tableIndex] := nameTable[tableIndex].(name := name);
      r := Ok(());
    }

    method AddTableFunc(name: string, address: int) returns (r: Result<nat, TableError>)
      requires Valid()
      modifies this, nameTable
      ensures Valid()
      ensures Follows(AddFunc(old(Model()), name, address), r, Model())
    {
      var ok := AddTableName(name);
      if ok.Err? {
        return Err(ok.error);
      }
      nameTable[tableIndex] := nameTable[tableIndex].(kind := FuncIdentifier,
        relAddr := RelAddr(currentBlockLevel, address), numParams := 0);
      tableFuncIndex := tableIndex;
      r := Ok(tableIndex);
    }

    method AddTableParam(name: string) returns (r: Result<nat, TableError>)
      requires Valid()
      modifies this, nameTable
      ensures Valid()
      ensures Follows(AddParam(old(Model()), name), r, Model())
    {
      var ok := AddTableName(name);
      if ok.Err? {
        return Err(ok.error);
      }
      nameTable[tableIndex] := nameTable[tableIndex].(kind := ParamIdentifier,
        relAddr := nameTable[tableIndex].relAddr.(blockLevel := currentBlockLevel));
      nameTable[tableFuncIndex] := nameTable[tableFuncIndex].(
        numParams := nameTable[tableFuncIndex].numParams + 1);
      r := Ok(tableIndex);
    }

    method AddTableVar(name: string) returns (r: Result<nat, TableError>)
      requires Valid()
      modifies this, nameTable
      ensures Valid()
      ensures Follows(AddVar(old(Model()), name), r, Model())
    {
      var ok := AddTableName(name);
      if ok.Err? {
        return Err(ok.error);
      }
      nameTable[tableIndex] := nameTable[tableIndex].(kind := VarIdentifier,
        relAddr := RelAddr(currentBlockLevel, localAddr));
      localAddr := localAddr + 1;
      r := Ok(tableIndex);
    }

    method AddTableConst(name: string, v: Value) returns (r: Result<nat, TableError>)
      requires Valid()
      modifies this, nameTable
      ensures Valid()
      ensures Follows(AddConst(old(Model()), name, v), r, Model())
    {
      var ok := AddTableName(name);
      if ok.Err? {
        return Err(ok.error);
      }
      nameTable[tableIndex] := nameTable[tableIndex].(kind := ConstIdentifier, value := v);
      r := Ok(tableIndex);
    }

    /** parEnd: the for loop that writes the parameter addresses. */
    method ParEnd() returns (r: Result<(), TableError>)
      requires Valid()
      modifies nameTable
      ensures Valid()
      ensures FollowsState(Table.ParEnd(old(Model())), r, Model())
    {
      var f := tableFuncIndex;
      var n := nameTable[f].numParams;
      if n <= 0 {
        return Ok(());
      }
      if f + n >= MAX_TABLE_SIZE {
        return Err(OutOfRange);
      }
      ghost var before := nameTable[..];
      var i := 1;
      while i <= n
        invariant 1 <= i <= n + 1
        invariant forall j :: 0 <= j < MAX_TABLE_SIZE ==>
          nameTable[j] == if f < j < f + i then before[j].(relAddr := before[j].relAddr.(address := j - f - 1 - n))
                          else before[j]
      {
        nameTable[f + i] := nameTable[f + i].(relAddr := nameTable[f + i].relAddr.(address := i - 1 - n));
        i := i + 1;
      }
      assert nameTable[..] == ParamAddressed(before, f, n);
      r := Ok(());
    }

    method ChangeFuncAddr(i: int, address: int) returns (r: Result<(), TableError>)
      requires Valid()
      modifies nameTable
      ensures Valid()
      ensures FollowsState(Table.ChangeFuncAddr(old(Model()), i, address), r, Model())
    {
      if !(0 <= i < MAX_TABLE_SIZE) {
        return Err(OutOfRange);
      }
      nameTable[i] := nameTable[i].(relAddr := nameTable[i].relAddr.(address := address));
      r := Ok(());
    }

    /** searchTable: sentinel in slot 0, then a backward scan from the top. */
    method SearchTable(name: string, kind: IdentifierKind) returns (r: Result<nat, TableError>)
      requires Valid()
      modifies this, nameTable
      ensures Valid()
      ensures Follows(Search(old(Model()), name, kind), r, Model())
    {
      nameTable[0] := nameTable[0].(name := name);
      ghost var sentinel := Model();
      var i := tableIndex;
      while nameTable[i].name != name
        invariant 0 <= i <= tableIndex
        invariant forall j :: i < j <= tableIndex ==> nameTable[j].name != name
        decreases i
      {
        i := i - 1;
      }
      LatestIs(nameTable[..], name, tableIndex, i);
      if i != 0 {
        return Ok(i);
      }
      if kind == VarIdentifier {
        r := AddTableVar(name);
        return;
      }
      r := Ok(0);
    }

    method GetTableKind(i: int) returns (k: IdentifierKind)
      requires Valid() && 0 <= i < MAX_TABLE_SIZE
      ensures k == Table.GetTableKind(Model(), i)
    {
      k := nameTable[i].kind;
    }

    method GetVarRelAddr(i: int) returns (a: RelAddr)
      requires Valid() && 0 <= i < MAX_TABLE_SIZE
      ensures a == Table.GetVarRelAddr(Model(), i)
    {
      a := nameTable[i].relAddr;
    }

    method GetConstValue(i: int) returns (v: Value)
      requires Valid() && 0 <= i < MAX_TABLE_SIZE
      ensures v == Table.GetConstValue(Model(), i)
    {
      v := nameTable[i].value;
    }

    method GetNumParams(i: int) returns (n: int)
      requires Valid() && 0 <= i < MAX_TABLE_SIZE
      ensures n == Table.GetNumParams(Model(), i)
    {
      n := nameTable[i].numParams;
    }

    method GetCurrentNumParams() returns (n: int)
      requires Valid()
      ensures n == Table.GetCurrentNumParams(Model())
    {
      n := nameTable[tableFuncIndex].numParams;
    }

    method GetBlockNeedMemory() returns (n: int)
      requires Valid()
      ensures n == Table.GetBlockNeedMemory(Model())
    {
      n := localAddr;
    }

    method GetBlockLevel() returns (l: int)
      requires Valid()
      ensures l == Table.GetBlockLevel(Model())
    {
      l := currentBlockLevel;
    }

    method GetBlockKind() returns (r: Result<BlockKind, TableError>)
      requires Valid()
      ensures r == Table.GetBlockKind(Model())
    {
      if currentBlockLevel < 1 {
        return Err(OutOfRange);
      }
      r := Ok(blockKind[currentBlockLevel - 1]);
    }

    /** blockBegin, with the for loop that clears every label counter on the
      first call. */
    method BlockBegin(firstAddress: int, kind: BlockKind) returns (r: Result<(), TableError>)
      requires Valid()
      modifies this, lastIndex, lastAddr, blockKind, breakLabelCount, continueLabelCount
      ensures Valid()
      ensures FollowsState(Table.BlockBegin(old(Model()), firstAddress, kind), r, Model())
    {
      if currentBlockLevel == -1 {
        var i := 0;
        while i < MAX_BLOCK_LEVEL
          invariant 0 <= i <= MAX_BLOCK_LEVEL
          invariant forall j :: 0 <= j < i ==> breakLabelCount[j] == 0 && continueLabelCount[j] == 0
          invariant forall j :: i <= j < MAX_BLOCK_LEVEL ==>
            breakLabelCount[j] == old(breakLabelCount[j]) && continueLabelCount[j] == old(continueLabelCount[j])
          invariant lastIndex[..] == old(lastIndex[..]) && lastAddr[..] == old(lastAddr[..])
          invariant blockKind[..] == old(blockKind[..])
          invariant tableIndex == old(tableIndex) && tableFuncIndex == old(tableFuncIndex)
          invariant currentBlockLevel == -1
        {
          breakLabelCount[i] := 0;
          continueLabelCount[i] := 0;
          i := i + 1;
        }
        blockKind[0] := TopLevel;
        localAddr := firstAddress;
        tableIndex := 0;
        currentBlockLevel := 0;
        assert breakLabelCount[..] == Zeros(MAX_BLOCK_LEVEL);
        assert continueLabelCount[..] == Zeros(MAX_BLOCK_LEVEL);
        return Ok(());
      }
      if currentBlockLevel == MAX_BLOCK_LEVEL - 1 {
        return Err(TooDeeplyNested);
      }
      lastIndex[currentBlockLevel] := tableIndex;
      lastAddr[currentBlockLevel] := localAddr;
      blockKind[currentBlockLevel] := kind;
      breakLabelCount[currentBlockLevel] := 0;
      continueLabelCount[currentBlockLevel] := 0;
      localAddr := firstAddress;
      currentBlockLevel := currentBlockLevel + 1;
      r := Ok(());
    }

    method BlockEnd() returns (r: Result<(), TableError>)
      requires Valid()
      modifies this
      ensures Valid()
      ensures FollowsState(Table.BlockEnd(old(Model())), r, Model())
    {
      if currentBlockLevel <= 0 {
        return Err(OutOfRange);
      }
      currentBlockLevel := currentBlockLevel - 1;
      tableIndex := lastIndex[currentBlockLevel];
      localAddr := lastAddr[currentBlockLevel];
      r := Ok(());
    }

    method GetBreakCount() returns (r: Result<int, TableError>)
      requires Valid()
      ensures r == Table.GetBreakCount(Model())
    {
      if currentBlockLevel < 0 {
        return Err(OutOfRange);
      }
      r := Ok(breakLabelCount[currentBlockLevel]);
    }

    method GetContinueCount() returns (r: Result<int, TableError>)
      requires Valid()
      ensures r == Table.GetContinueCount(Model())
    {
      if currentBlockLevel < 0 {
        return Err(OutOfRange);
      }
      r := Ok(continueLabelCount[currentBlockLevel]);
    }

    method IncBreakCount() returns (r: Result<int, TableError>)
      requires Valid()
      modifies breakLabelCount
      ensures Valid()
      ensures Follows(Table.IncBreakCount(old(Model())), r, Model())
    {
      if currentBlockLevel < 0 {
        return Err(OutOfRange);
      }
      breakLabelCount[currentBlockLevel] := breakLabelCount[currentBlockLevel] + 1;
      r := Ok(breakLabelCount[currentBlockLevel]);
    }

    method IncContinueCount() returns (r: Result<int, TableError>)
      requires Valid()
      modifies continueLabelCount
      ensures Valid()
      ensures Follows(Table.IncContinueCount(old(Model())), r, Model())
    {
      if currentBlockLevel < 0 {
        return Err(OutOfRange);
      }
      continueLabelCount[currentBlockLevel] := continueLabelCount[currentBlockLevel] + 1;
      r := Ok(continueLabelCount[currentBlockLevel]);
    }
  }
}
