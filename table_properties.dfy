/** What the name table of table.c guarantees to the compiler: lookup finds
    the newest declaration of a name, local variables get consecutive
    addresses, parameters are addressed below the frame, and a block gives
    back exactly the names and addresses that were visible before it. */
module TableProperties {
  import opened Results
  import opened Share
  import opened Table

  // ---------------------------------------------------------------------
  // Lookup

  /** Entries that agree above the sentinel have the same newest match. */
  lemma {:induction false} LatestAgree(a: seq<Entry>, b: seq<Entry>, name: string, top: int)
    requires top < |a| && top < |b|
    requires forall j :: 1 <= j <= top ==> a[j] == b[j]
    ensures Latest(a, name, top) == Latest(b, name, top)
    decreases top
  {
    if top > 0 && a[top].name != name {
      LatestAgree(a, b, name, top - 1);
    }
  }

  /** searchTable on a name declared in 1..table_index returns the newest
      such declaration, whatever kind was asked for, and changes nothing but
      the sentinel. */
  lemma {:induction false} SearchFindsNewest(t: TableState, name: string, kind: IdentifierKind, d: int)
    requires WellFormed(t)
    requires 1 <= d <= t.tableIndex && t.entries[d].name == name
    ensures Search(t, name, kind).Ok?
    ensures var (t', i) := Search(t, name, kind).value;
      && d <= i <= t.tableIndex && t'.entries[i].name == name
      && (forall j :: i < j <= t.tableIndex ==> t.entries[j].name != name)
      && t' == t.(entries := t.entries[0 := t.entries[0].(name := name)])
  {
    var t1 := t.(entries := t.entries[0 := t.entries[0].(name := name)]);
    assert t1.entries[d].name == name;
    assert forall j :: 1 <= j < MAX_TABLE_SIZE ==> t1.entries[j] == t.entries[j];
    var i := Latest(t1.entries, name, t1.tableIndex);
    assert i >= d;
  }

  /** searchTable on a name with no declaration: a variable is declared on
      the spot at the next local address; any other kind gives 0. */
  lemma {:induction false} SearchMissing(t: TableState, name: string, kind: IdentifierKind)
    requires WellFormed(t)
    requires forall j :: 1 <= j <= t.tableIndex ==> t.entries[j].name != name
    ensures kind != VarIdentifier ==> Search(t, name, kind).Ok? && Search(t, name, kind).value.1 == 0
    ensures kind == VarIdentifier ==>
      (Search(t, name, kind).Ok? <==> t.tableIndex + 1 < MAX_TABLE_SIZE)
    ensures kind == VarIdentifier && Search(t, name, kind).Ok? ==>
      var (t', i) := Search(t, name, kind).value;
      && i == t.tableIndex + 1 && t'.entries[i].kind == VarIdentifier
      && t'.entries[i].relAddr == RelAddr(t.level, t.localAddr)
      && t'.localAddr == t.localAddr + 1
  {
  }

  /** A later declaration shadows an earlier one of the same name. */
  lemma {:induction false} SearchAfterDeclare(t: TableState, name: string, kind: IdentifierKind)
    requires WellFormed(t) && AddVar(t, name).Ok?
    ensures var (t1, i) := AddVar(t, name).value;
      Search(t1, name, kind).Ok? && Search(t1, name, kind).value.1 == i
  {
  }

  // ---------------------------------------------------------------------
  // Local variables

  /** A run of addTableVar calls, as varDecl makes them. */
  function AddVars(t: TableState, names: seq<string>): (r: Result<(TableState, seq<nat>), TableError>)
    requires WellFormed(t)
    ensures r.Ok? ==> WellFormed(r.value.0) && |r.value.1| == |names|
    decreases |names|
  {
    if names == [] then Ok((t, []))
    else
      var (t1, i) :- AddVar(t, names[0]);
      var (t2, idxs) :- AddVars(t1, names[1..]);
      Ok((t2, [i] + idxs))
  }

  /** The k-th variable declared gets the slot after the top plus k and the
      local address local_addr + k, at the current level. */
  lemma {:induction false} VarsConsecutive(t: TableState, names: seq<string>)
    requires WellFormed(t) && AddVars(t, names).Ok?
    ensures var (t', idxs) := AddVars(t, names).value;
      && t'.tableIndex == t.tableIndex + |names|
      && t'.localAddr == t.localAddr + |names|
      && t'.level == t.level
      && forall k :: 0 <= k < |names| ==>
           && idxs[k] == t.tableIndex + 1 + k
           && t'.entries[idxs[k]].kind == VarIdentifier && t'.entries[idxs[k]].name == names[k]
           && t'.entries[idxs[k]].relAddr == RelAddr(t.level, t.localAddr + k)
    decreases |names|
  {
    if names != [] {
      var (t1, i) := AddVar(t, names[0]).value;
      VarsConsecutive(t1, names[1..]);
      var (t', idxs) := AddVars(t, names).value;
      var (t2, rest) := AddVars(t1, names[1..]).value;
      assert idxs == [i] + rest;
      forall k | 0 <= k < |names|
        ensures idxs[k] == t.tableIndex + 1 + k
        ensures t'.entries[idxs[k]].kind == VarIdentifier && t'.entries[idxs[k]].name == names[k]
        ensures t'.entries[idxs[k]].relAddr == RelAddr(t.level, t.localAddr + k)
      {
        if k > 0 {
          assert idxs[k] == rest[k - 1];
          assert names[1..][k - 1] == names[k];
        } else {
          VarsKeepBelow(t1, names[1..], i);
        }
      }
    }
  }

  /** Later addTableVar calls do not touch the slots at or below the top. */
  lemma {:induction false} VarsKeepBelow(t: TableState, names: seq<string>, j: int)
    requires WellFormed(t) && AddVars(t, names).Ok?
    requires 0 <= j <= t.tableIndex
    ensures AddVars(t, names).value.0.entries[j] == t.entries[j]
    decreases |names|
  {
    if names != [] {
      var (t1, i) := AddVar(t, names[0]).value;
      VarsKeepBelow(t1, names[1..], j);
    }
  }

  // ---------------------------------------------------------------------
  // Parameters

  /** A run of addTableParam calls, as a parameter list makes them. */
  function AddParams(t: TableState, names: seq<string>): (r: Result<(TableState, seq<nat>), TableError>)
    requires WellFormed(t)
    ensures r.Ok? ==> WellFormed(r.value.0) && |r.value.1| == |names|
    decreases |names|
  {
    if names == [] then Ok((t, []))
    else
      var (t1, i) :- AddParam(t, names[0]);
      var (t2, idxs) :- AddParams(t1, names[1..]);
      Ok((t2, [i] + idxs))
  }

  /** While the current function sits at or below the top, every parameter
      added counts on it and lands in the next slot. */
  lemma {:induction false} ParamsCounted(t: TableState, names: seq<string>)
    requires WellFormed(t) && AddParams(t, names).Ok?
    requires t.tableFuncIndex <= t.tableIndex
    ensures var (t', idxs) := AddParams(t, names).value;
      && t'.tableIndex == t.tableIndex + |names|
      && t'.tableFuncIndex == t.tableFuncIndex
      && t'.entries[t.tableFuncIndex] == t.entries[t.tableFuncIndex].(
           numParams := t.entries[t.tableFuncIndex].numParams + |names|)
      && (forall j :: 0 <= j <= t.tableIndex && j != t.tableFuncIndex ==> t'.entries[j] == t.entries[j])
      && forall k :: 0 <= k < |names| ==>
           idxs[k] == t.tableIndex + 1 + k && t'.entries[idxs[k]].kind == ParamIdentifier
           && t'.entries[idxs[k]].name == names[k] && t'.entries[idxs[k]].relAddr.blockLevel == t.level
    decreases |names|
  {
    if names != [] {
      var (t1, i) := AddParam(t, names[0]).value;
      ParamsCounted(t1, names[1..]);
      var (t', idxs) := AddParams(t, names).value;
      var (t2, rest) := AddParams(t1, names[1..]).value;
      assert idxs == [i] + rest;
      forall k | 0 <= k < |names|
        ensures idxs[k] == t.tableIndex + 1 + k && t'.entries[idxs[k]].kind == ParamIdentifier
        ensures t'.entries[idxs[k]].name == names[k] && t'.entries[idxs[k]].relAddr.blockLevel == t.level
      {
        if k > 0 {
          assert idxs[k] == rest[k - 1];
          assert names[1..][k - 1] == names[k];
        }
      }
    }
  }

  /** A function with n parameters: after addTableFunc, n addTableParam calls
      and parEnd, the function records n parameters and the k-th parameter
      (from 0) has the frame address k - n, so the last one sits just below
      the callee's frame. */
  lemma {:induction false} FunctionParameters(t: TableState, fname: string, address: int, names: seq<string>,
                           t1: TableState, f: nat, t2: TableState, idxs: seq<nat>)
    requires WellFormed(t) && AddFunc(t, fname, address) == Ok((t1, f))
    requires WellFormed(t1) && AddParams(t1, names) == Ok((t2, idxs))
    ensures t2.tableIndex == f + |names| && ParEnd(t2).Ok?
    ensures GetCurrentNumParams(ParEnd(t2).value) == |names|
    ensures ParEnd(t2).value.entries[f].kind == FuncIdentifier
    ensures ParEnd(t2).value.entries[f].relAddr == RelAddr(t.level, address)
    ensures forall k :: 0 <= k < |names| ==>
      && idxs[k] == f + 1 + k
      && ParEnd(t2).value.entries[idxs[k]].kind == ParamIdentifier
      && ParEnd(t2).value.entries[idxs[k]].name == names[k]
      && ParEnd(t2).value.entries[idxs[k]].relAddr == RelAddr(t.level, k - |names|)
  {
    ParamsCounted(t1, names);
    assert t1.tableIndex == f && t1.tableFuncIndex == f;
    assert t2.tableIndex == f + |names| && t2.tableFuncIndex == f;
    assert t2.entries[f].numParams == |names|;
    ParEndAssigns(t2, f, |names|);
    var t3 := ParEnd(t2).value;
    assert t3.entries[f] == t2.entries[f] == t1.entries[f].(numParams := |names|);
    forall k | 0 <= k < |names|
      ensures idxs[k] == f + 1 + k
      ensures t3.entries[idxs[k]].kind == ParamIdentifier && t3.entries[idxs[k]].name == names[k]
      ensures t3.entries[idxs[k]].relAddr == RelAddr(t.level, k - |names|)
    {
      assert t2.entries[idxs[k]].relAddr.blockLevel == t.level;
    }
  }

  /** parEnd on a function entry f with n > 0 parameters above it. */
  lemma {:induction false} ParEndAssigns(t: TableState, f: int, n: int)
    requires WellFormed(t) && f == t.tableFuncIndex && n == t.entries[f].numParams
    requires f + n < MAX_TABLE_SIZE
    ensures ParEnd(t).Ok?
    ensures forall j :: 0 <= j < MAX_TABLE_SIZE ==>
      ParEnd(t).value.entries[j] ==
        if f < j <= f + n then t.entries[j].(relAddr := t.entries[j].relAddr.(address := j - f - 1 - n))
        else t.entries[j]
    ensures ParEnd(t).value.tableFuncIndex == f
  {
  }

  // ---------------------------------------------------------------------
  // Blocks

  /** What the compiler asks of the table between a blockBegin and its
      blockEnd; Nested is an inner block. */
  datatype TableOp =
    | DeclareVar(name: string)
    | DeclareConst(name: string, v: Value)
    | DeclareFunc(name: string, address: int)
    | DeclareParam(name: string)
    | EndParams
    | Lookup(name: string, kind: IdentifierKind)
    | CountBreak
    | CountContinue
    | Nested(firstAddress: int, blockKind: BlockKind, body: seq<TableOp>)

  function Step(t: TableState, op: TableOp): (r: Result<TableState, TableError>)
    requires WellFormed(t)
    ensures r.Ok? ==> WellFormed(r.value)
    decreases op, 1
  {
    match op
    case DeclareVar(n) => var (t', _) :- AddVar(t, n); Ok(t')
    case DeclareConst(n, v) => var (t', _) :- AddConst(t, n, v); Ok(t')
    case DeclareFunc(n, a) => var (t', _) :- AddFunc(t, n, a); Ok(t')
    case DeclareParam(n) => var (t', _) :- AddParam(t, n); Ok(t')
    case EndParams => ParEnd(t)
    case Lookup(n, k) => var (t', _) :- Search(t, n, k); Ok(t')
    case CountBreak => var (t', _) :- IncBreakCount(t); Ok(t')
    case CountContinue => var (t', _) :- IncContinueCount(t); Ok(t')
    case Nested(a, k, body) =>
      var t1 :- BlockBegin(t, a, k);
      var t2 :- Run(t1, body);
      BlockEnd(t2)
  }

  function Run(t: TableState, ops: seq<TableOp>): (r: Result<TableState, TableError>)
    requires WellFormed(t)
    ensures r.Ok? ==> WellFormed(r.value)
    decreases ops, 0
  {
    if ops == [] then Ok(t)
    else
      var t1 :- Step(t, ops[0]);
      Run(t1, ops[1..])
  }

  /** Operations that leave every existing entry alone: no parameters, which
      update the current function's entry wherever it is. */
  predicate NoParams(ops: seq<TableOp>)
    decreases ops
  {
    forall i :: 0 <= i < |ops| ==> NoParam(ops[i])
  }

  predicate NoParam(op: TableOp)
    decreases op
  {
    match op
    case DeclareParam(_) => false
    case EndParams => false
    case Nested(_, _, body) => forall i :: 0 <= i < |body| ==> NoParam(body[i])
    case _ => true
  }

  /** Inside an open block, a run keeps the level, everything saved for the
      enclosing levels, and every entry from 1 to the top, and the top only
      grows. */
  lemma {:induction false} RunKeeps(t: TableState, ops: seq<TableOp>)
    requires WellFormed(t) && t.level >= 0 && NoParams(ops) && Run(t, ops).Ok?
    ensures var t' := Run(t, ops).value;
      && t'.level == t.level
      && (forall j :: 0 <= j < t.level ==> t'.lastIndex[j] == t.lastIndex[j] && t'.lastAddr[j] == t.lastAddr[j])
      && t'.tableIndex >= t.tableIndex
      && (forall j :: 1 <= j <= t.tableIndex ==> t'.entries[j] == t.entries[j])
    decreases ops, 0
  {
    if ops != [] {
      StepKeeps(t, ops[0]);
      RunKeeps(Step(t, ops[0]).value, ops[1..]);
    }
  }

  lemma {:induction false} StepKeeps(t: TableState, op: TableOp)
    requires WellFormed(t) && t.level >= 0 && NoParam(op) && Step(t, op).Ok?
    ensures var t' := Step(t, op).value;
      && t'.level == t.level
      && (forall j :: 0 <= j < t.level ==> t'.lastIndex[j] == t.lastIndex[j] && t'.lastAddr[j] == t.lastAddr[j])
      && t'.tableIndex >= t.tableIndex
      && (forall j :: 1 <= j <= t.tableIndex ==> t'.entries[j] == t.entries[j])
    decreases op, 1
  {
    if op.Nested? {
      BlockKeeps(t, op.firstAddress, op.blockKind, op.body);
    }
  }

  /** An inner block restores the top, the local address and the level, and
      keeps the entries a lookup may see. */
  lemma {:induction false} BlockKeeps(t: TableState, first: int, kind: BlockKind, body: seq<TableOp>)
    requires WellFormed(t) && t.level >= 0
    requires forall i :: 0 <= i < |body| ==> NoParam(body[i])
    requires Step(t, Nested(first, kind, body)).Ok?
    ensures var t' := Step(t, Nested(first, kind, body)).value;
      && t'.level == t.level && t'.tableIndex == t.tableIndex && t'.localAddr == t.localAddr
      && (forall j :: 0 <= j < t.level ==> t'.lastIndex[j] == t.lastIndex[j] && t'.lastAddr[j] == t.lastAddr[j])
      && (forall j :: 1 <= j <= t.tableIndex ==> t'.entries[j] == t.entries[j])
    decreases Nested(first, kind, body), 0
  {
    var t1 := BlockBegin(t, first, kind).value;
    RunKeeps(t1, body);
  }

  /** Scoping: after a block, lookups see exactly what they saw before it,
      and the next local address is the one before it. */
  lemma {:induction false} BlockScoping(t: TableState, first: int, kind: BlockKind, body: seq<TableOp>, name: string)
    requires WellFormed(t) && t.level >= 0 && NoParams(body)
    requires Run(t, [Nested(first, kind, body)]).Ok?
    ensures var t' := Run(t, [Nested(first, kind, body)]).value;
      && t'.tableIndex == t.tableIndex && t'.localAddr == t.localAddr && t'.level == t.level
      && Latest(t'.entries, name, t'.tableIndex) == Latest(t.entries, name, t.tableIndex)
  {
    BlockKeeps(t, first, kind, body);
    var t' := Run(t, [Nested(first, kind, body)]).value;
    assert t' == Step(t, Nested(first, kind, body)).value;
    LatestAgree(t'.entries, t.entries, name, t.tableIndex);
  }

  /** The first blockBegin starts the table afresh at level 0 with every
      label counter cleared; a begin at depth MAX_BLOCK_LEVEL - 1 is fatal;
      any other begin records its kind for getBlockKind. */
  lemma {:induction false} BeginKinds(t: TableState, first: int, kind: BlockKind)
    requires WellFormed(t)
    ensures t.level == -1 ==> (BlockBegin(t, first, kind).Ok? &&
      var t' := BlockBegin(t, first, kind).value;
      t'.level == 0 && t'.tableIndex == 0 && t'.localAddr == first
      && GetBreakCount(t') == Ok(0) && GetContinueCount(t') == Ok(0))
    ensures t.level == MAX_BLOCK_LEVEL - 1 ==> BlockBegin(t, first, kind) == Err(TooDeeplyNested)
    ensures 0 <= t.level < MAX_BLOCK_LEVEL - 1 ==>
      (BlockBegin(t, first, kind).Ok? && GetBlockKind(BlockBegin(t, first, kind).value) == Ok(kind))
  {
  }

  /** The label counters are per level: incrementing returns the new count,
      which getBreakCount then reports, and the other counter is untouched. */
  lemma {:induction false} CountersPerLevel(t: TableState)
    requires WellFormed(t) && t.level >= 0
    ensures var (t1, c) := IncBreakCount(t).value;
      && c == GetBreakCount(t).value + 1 && GetBreakCount(t1) == Ok(c)
      && GetContinueCount(t1) == GetContinueCount(t)
    ensures var (t1, c) := IncContinueCount(t).value;
      && c == GetContinueCount(t).value + 1 && GetContinueCount(t1) == Ok(c)
      && GetBreakCount(t1) == GetBreakCount(t)
  {
  }

  /** blockBegin clears the counters of the level it leaves, not of the one
      it enters, so an inner block starts with whatever count the previous
      block at its depth left behind. */
  lemma {:induction false} InnerCountersNotCleared(t: TableState, first: int, kind: BlockKind)
    requires WellFormed(t) && 0 <= t.level < MAX_BLOCK_LEVEL - 1
    ensures var t' := BlockBegin(t, first, kind).value;
      && t'.breakCount[t.level] == 0
      && GetBreakCount(t') == Ok(t.breakCount[t.level + 1])
  {
  }
}
