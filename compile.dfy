/** The recursive-descent compiler of compile.c as functions over the token
    sequence the lexer yields.  A state holds the position of the lookahead
    token, the code emitted so far, the name table, the heap (string
    literals are allocated while compiling) and the jumps of break and
    continue statements still waiting to be patched at the end of the
    enclosing loop.  Every production returns the state after it, or the
    error at which the C code stops the program (compile_error, the exits
    of checkGetToken and of the table).

    Each C procedure is one function here, cut into a few helpers where the
    procedure runs through many steps; the helpers keep the C order of
    token checks and genCode calls.  What each statement does to the code
    before it is stated in the
    contracts of the statement functions.

    Where compile.c does not compile or plainly contradicts its own
    structure, the model follows the evident intent; each such place is
    marked DEVIATION.  The three places where the code compiles but does
    something else than intended are modelled both ways: ConstDeclAsWritten,
    IfBodyAsWritten and ToplevelAsWritten beside the corrected ConstDecl,
    IfBody and Toplevel. */
module Compile {
  import opened Results
  import opened Share
  import opened Lexical
  import opened Table
  import Heap
  import Bytecode

  type Instruction = Bytecode.Instruction

  /** Why compilation stops. */
  datatype CompileError =
    | Syntax                        // compile_error(SYNTAX_ERROR) and checkGetToken
    | InvalidChar                   // an OTHERS token where a term or a symbol is due
    | AssignToConstant              // assignment to a constant or a function
    | MissingIdentifier             // a constant declaration without a name
    | TableFailure(tableError: TableError)
    | CodeOverflow                  // more than MAX_CODE_SIZE instructions

  /** The compiler's state: the lookahead is ts[pos] (END_OF_FILE past the
      end), code is the buffer of generate.c, table the globals of table.c,
      heap the heap of heap.c, breaks / continues the pending jumps, and
      loopStart the label where the body of the innermost loop begins. */
  datatype CState = CState(pos: nat, code: seq<Instruction>, table: TableState,
                           heap: Heap.HeapState, breaks: seq<nat>, continues: seq<nat>,
                           loopStart: nat)

  const EmptyHeap: Heap.HeapState := Heap.HeapState(map[], [], 0)

  /** Every pending jump is an instruction of the body of the innermost
      loop. */
  ghost predicate PendingIn(s: CState) {
    && s.loopStart <= |s.code|
    && (forall i | 0 <= i < |s.breaks| :: s.loopStart <= s.breaks[i] < |s.code|)
    && (forall i | 0 <= i < |s.continues| :: s.loopStart <= s.continues[i] < |s.code|)
  }

  /** What holds of every state the compiler passes through: the buffer
      within MAX_CODE_SIZE, a well-formed table and pending jumps that
      exist. */
  ghost predicate Inv(s: CState) {
    && |s.code| <= Bytecode.MAX_CODE_SIZE
    && WellFormed(s.table)
    && PendingIn(s)
  }

  type State = s: CState | Inv(s) witness CState(0, [], Initial(), EmptyHeap, [], [], 0)

  /** An expression only appends code: table, heap and pending jumps stay. */
  ghost predicate Appends(s: CState, r: CState) {
    && r == s.(pos := r.pos, code := r.code)
    && |s.code| <= |r.code| && forall i | 0 <= i < |s.code| :: r.code[i] == s.code[i]
  }

  /** A declaration: the code only grows and no jump becomes pending. */
  ghost predicate Grows(s: CState, r: CState) {
    && |s.code| <= |r.code| && (forall i | 0 <= i < |s.code| :: r.code[i] == s.code[i])
    && r.breaks == s.breaks && r.continues == s.continues && r.loopStart == s.loopStart
  }

  /** A statement or a part of one: the code grows, and an instruction of
      the code before changes only at a label of ps (a statement: nowhere). */
  ghost predicate Keeps(s: CState, r: CState, ps: seq<nat>) {
    && |s.code| <= |r.code| && r.loopStart == s.loopStart
    && forall i | 0 <= i < |s.code| && i !in ps :: r.code[i] == s.code[i]
  }

  /** Every label of ps in the code before now jumps to target, with its
      opcode unchanged. */
  ghost predicate Retargeted(s: CState, r: CState, ps: seq<nat>, target: int) {
    && |s.code| <= |r.code|
    && forall i | 0 <= i < |ps| && ps[i] < |s.code| ::
         r.code[ps[i]] == Bytecode.Instruction(s.code[ps[i]].opcode, Bytecode.JumpPc(target))
  }

  // ---------------------------------------------------------------------
  // Tokens

  /** The lookahead token: the lexer returns END_OF_FILE for ever at the end. */
  function Peek(ts: seq<Token>, s: CState): Token {
    if s.pos < |ts| then ts[s.pos] else EndOfFileToken
  }

  function KindAt(ts: seq<Token>, s: CState): Kind {
    if s.pos < |ts| then ts[s.pos].kind else EndOfFile
  }

  /** token = nextToken() past a token of the input. */
  function Step(ts: seq<Token>, s: State): State
    requires s.pos < |ts|
  {
    s.(pos := s.pos + 1)
  }

  /** checkGetToken: the next token if the lookahead has kind k; otherwise a
      syntax error, or an invalid-character error when k itself is OTHERS. */
  function Expect(ts: seq<Token>, s: State, k: Kind): (r: Result<State, CompileError>)
    requires s.pos <= |ts| && k != EndOfFile
    ensures r.Ok? <==> KindAt(ts, s) == k
    ensures r.Ok? ==> s.pos < |ts| && r.value == Step(ts, s)
    ensures r.Err? ==> r.error == if k == Others then InvalidChar else Syntax
  {
    if KindAt(ts, s) == k then Ok(Step(ts, s))
    else Err(if k == Others then InvalidChar else Syntax)
  }

  /** checkGetToken2: either of two kinds; the error is an invalid-character
      error when the lookahead is OTHERS. */
  function Expect2(ts: seq<Token>, s: State, k1: Kind, k2: Kind): (r: Result<State, CompileError>)
    requires s.pos <= |ts| && k1 != EndOfFile && k2 != EndOfFile
    ensures r.Ok? <==> KindAt(ts, s) == k1 || KindAt(ts, s) == k2
    ensures r.Ok? ==> s.pos < |ts| && r.value == Step(ts, s)
    ensures r.Err? ==> r.error == if KindAt(ts, s) == Others then InvalidChar else Syntax
  {
    if KindAt(ts, s) == k1 || KindAt(ts, s) == k2 then Ok(Step(ts, s))
    else Err(if KindAt(ts, s) == Others then InvalidChar else Syntax)
  }

  /** The optional ';' after break, continue, return and declarations. */
  function SkipSemicolon(ts: seq<Token>, s: State): State
    requires s.pos <= |ts|
  {
    if KindAt(ts, s) == Semicolon then Step(ts, s) else s
  }

  /** token.u.identifier. */
  function IdentName(t: Token): string {
    if t.payload.IdentPayload? then t.payload.identifier else ""
  }

  function Lift<T>(r: Result<T, TableError>): (q: Result<T, CompileError>)
    ensures q.Ok? <==> r.Ok?
    ensures q.Ok? ==> q.value == r.value
    ensures q.Err? ==> q.error == TableFailure(r.error)
  {
    match r
    case Ok(v) => Ok(v)
    case Err(e) => Err(TableFailure(e))
  }

  // ---------------------------------------------------------------------
  // Emitting

  function Calc(op: Bytecode.OpCode): Instruction {
    Bytecode.Instruction(op, Bytecode.NoOperand)
  }

  function JumpTo(op: Bytecode.OpCode, target: int): Instruction {
    Bytecode.Instruction(op, Bytecode.JumpPc(target))
  }

  function OnTable(op: Bytecode.OpCode, index: int): Instruction {
    Bytecode.Instruction(op, Bytecode.TableIndex(index))
  }

  /** One genCode call: append, or fail when the buffer is full. */
  function Emit(s: State, ins: Instruction): (r: Result<State, CompileError>)
    ensures r.Ok? <==> |s.code| < Bytecode.MAX_CODE_SIZE
    ensures r.Ok? ==> r.value == s.(code := s.code + [ins])
    ensures r.Err? ==> r.error == CodeOverflow
  {
    if |s.code| < Bytecode.MAX_CODE_SIZE then Ok(s.(code := s.code + [ins])) else Err(CodeOverflow)
  }

  /** backPatch(p): instruction p jumps to the next instruction. */
  function Patch(s: State, p: nat): (r: State)
    requires p < |s.code|
    ensures r == s.(code := Bytecode.Patched(s.code, p, |s.code|))
  {
    s.(code := Bytecode.Patched(s.code, p, |s.code|))
  }

  /** backPatch to one target at each label of ps, on a whole state. */
  function PatchEach(s: State, ps: seq<nat>, target: int): (r: State)
    requires forall i | 0 <= i < |ps| :: ps[i] < |s.code|
    ensures r == s.(code := PatchAll(s.code, ps, target))
  {
    s.(code := PatchAll(s.code, ps, target))
  }

  /** backPatch applied to each label of ps, all with the same target. */
  function PatchAll(code: seq<Instruction>, ps: seq<nat>, target: int): (r: seq<Instruction>)
    requires forall i | 0 <= i < |ps| :: ps[i] < |code|
    ensures |r| == |code|
    ensures forall i | 0 <= i < |code| ::
      r[i] == if i in ps then Bytecode.Instruction(code[i].opcode, Bytecode.JumpPc(target)) else code[i]
    decreases |ps|
  {
    if ps == [] then code
    else PatchAll(Bytecode.Patched(code, ps[0], target), ps[1..], target)
  }

  /** The end of a loop: every pending continue jumps to the loop label,
      every pending break to the next instruction (backPatchContinueLabels,
      backPatchBreakLabels), and nothing stays pending. */
  function LoopEnd(s: State, loop: nat): (r: State)
    ensures r == s.(code := r.code, breaks := [], continues := []) && |r.code| == |s.code|
    ensures forall i | 0 <= i < |s.breaks| ::
      r.code[s.breaks[i]] == Bytecode.Instruction(s.code[s.breaks[i]].opcode, Bytecode.JumpPc(|s.code|))
    ensures forall i | 0 <= i < |s.continues| && s.continues[i] !in s.breaks ::
      r.code[s.continues[i]] == Bytecode.Instruction(s.code[s.continues[i]].opcode, Bytecode.JumpPc(loop))
    ensures forall i | 0 <= i < |s.code| && i !in s.breaks && i !in s.continues :: r.code[i] == s.code[i]
    ensures forall i | 0 <= i < s.loopStart :: r.code[i] == s.code[i]
  {
    s.(code := PatchAll(PatchAll(s.code, s.continues, loop), s.breaks, |s.code|),
       breaks := [], continues := [])
  }

  /** The body of a loop starts here, with no pending jumps ... */
  function Unpend(s: State): State {
    s.(breaks := [], continues := [], loopStart := |s.code|)
  }

  /** ... and after the loop those of the enclosing loop are pending again. */
  function Restore(r: State, outer: State): State
    requires |outer.code| <= |r.code|
  {
    r.(breaks := outer.breaks, continues := outer.continues, loopStart := outer.loopStart)
  }

  // ---------------------------------------------------------------------
  // Expressions

  /** The binary operators of the expression chain with the level each
      belongs to, loosest first: expression (0), logical_and_expression
      (1), equal_expression (2), compare_expression (3), add_expression
      (4), mul_expression (5) and power_expression (6), and the opcode it
      emits. */
  function BinaryOperator(k: Kind): Option<(nat, Bytecode.OpCode)> {
    match k
    case LogicalOr | LogicalOrString => Some((0, Bytecode.LogicalOr))
    case LogicalAnd | LogicalAndString => Some((1, Bytecode.LogicalAnd))
    case Equal => Some((2, Bytecode.Equal))
    case NotEqual => Some((2, Bytecode.NotEqual))
    case Greater => Some((3, Bytecode.Greater))
    case GreaterEqual => Some((3, Bytecode.GreaterEqual))
    case LessThan => Some((3, Bytecode.LessThan))
    case LessThanEqual => Some((3, Bytecode.LessThanEqual))
    case Plus => Some((4, Bytecode.Add))
    case Minus => Some((4, Bytecode.Sub))
    case Mul => Some((5, Bytecode.Mul))
    case Div => Some((5, Bytecode.Div))
    case Mod | ModString => Some((5, Bytecode.Mod))
    case Power => Some((6, Bytecode.Pow))
    case _ => None
  }

  /** The opcode of k if it is an operator of level n. */
  function BinaryOp(n: nat, k: Kind): Option<Bytecode.OpCode> {
    match BinaryOperator(k)
    case Some((level, op)) => if level == n then Some(op) else None
    case None => None
  }

  /** expression: the loosest level. */
  function Expression(ts: seq<Token>, s: State): (r: Result<State, CompileError>)
    requires s.pos <= |ts|
    ensures r.Ok? ==> s.pos < r.value.pos <= |ts| && Appends(s, r.value)
    decreases |ts| - s.pos, 40
  {
    BinaryLevel(ts, s, 0)
  }

  /** One level of the chain: an operand, then while the lookahead is an
      operator of this level, the operator, an operand and its opcode. */
  function BinaryLevel(ts: seq<Token>, s: State, n: nat): (r: Result<State, CompileError>)
    requires s.pos <= |ts| && n <= 6
    ensures r.Ok? ==> s.pos < r.value.pos <= |ts| && Appends(s, r.value)
    decreases |ts| - s.pos, 30 - 2 * n
  {
    var s1 :- Operand(ts, s, n);
    BinaryRest(ts, s1, n)
  }

  /** The operand of level n: level n + 1, or a unary expression below the
      tightest level. */
  function Operand(ts: seq<Token>, s: State, n: nat): (r: Result<State, CompileError>)
    requires s.pos <= |ts| && n <= 6
    ensures r.Ok? ==> s.pos < r.value.pos <= |ts| && Appends(s, r.value)
    decreases |ts| - s.pos, 29 - 2 * n
  {
    if n < 6 then BinaryLevel(ts, s, n + 1) else UnaryExpression(ts, s)
  }

  /** The while loop of one level. */
  function BinaryRest(ts: seq<Token>, s: State, n: nat): (r: Result<State, CompileError>)
    requires s.pos <= |ts| && n <= 6
    ensures r.Ok? ==> s.pos <= r.value.pos <= |ts| && Appends(s, r.value)
    decreases |ts| - s.pos, 2
  {
    match BinaryOp(n, KindAt(ts, s))
    case None => Ok(s)
    case Some(op) => BinaryStep(ts, s, n, op)
  }

  /** One turn of that loop: the operator token, the operand, the opcode. */
  function BinaryStep(ts: seq<Token>, s: State, n: nat, op: Bytecode.OpCode): (r: Result<State, CompileError>)
    requires s.pos < |ts| && n <= 6
    ensures r.Ok? ==> s.pos < r.value.pos <= |ts| && Appends(s, r.value)
    decreases |ts| - s.pos, 1
  {
    var s2 :- Operand(ts, Step(ts, s), n);
    var s3 :- Emit(s2, Calc(op));
    BinaryRest(ts, s3, n)
  }

  predicate IsPrefix(k: Kind) {
    k == LogicalNot || k == LogicalNotString || k == Plus || k == Minus
  }

  predicate IsSuffix(k: Kind) {
    k == Increment || k == Decrement
  }

  /** The optional operator token before a term. */
  function SkipPrefix(ts: seq<Token>, s: State): (r: State)
    requires s.pos <= |ts|
    ensures s.pos <= r.pos <= |ts| && r == s.(pos := r.pos)
  {
    if IsPrefix(KindAt(ts, s)) then Step(ts, s) else s
  }

  /** The optional operator token after a term. */
  function SkipSuffix(ts: seq<Token>, s: State): (r: State)
    requires s.pos <= |ts|
    ensures s.pos <= r.pos <= |ts| && r == s.(pos := r.pos)
  {
    if IsSuffix(KindAt(ts, s)) then Step(ts, s) else s
  }

  /** unary_expression: an optional prefix ! not + -, a term and an optional
      suffix ++ --.  The operators are consumed and, as written, emit
      nothing. */
  function UnaryExpression(ts: seq<Token>, s: State): (r: Result<State, CompileError>)
    requires s.pos <= |ts|
    ensures r.Ok? ==> s.pos < r.value.pos <= |ts| && Appends(s, r.value)
    decreases |ts| - s.pos, 10
  {
    var s2 :- Term(ts, SkipPrefix(ts, s));
    Ok(SkipSuffix(ts, s2))
  }

  predicate IsOperandKind(k: Kind) {
    k == Identifier || k == IntLiteral || k == DoubleLiteral || k == StringLiteral
    || k == TrueLiteral || k == FalseLiteral
  }

  /** term: an identifier or literal is consumed and, as written, emits
      nothing; '(' comma_expression ')'; OTHERS is an invalid character and
      anything else a syntax error. */
  function Term(ts: seq<Token>, s: State): (r: Result<State, CompileError>)
    requires s.pos <= |ts|
    ensures r.Ok? ==> s.pos < r.value.pos <= |ts| && Appends(s, r.value)
    decreases |ts| - s.pos, 9
  {
    var k := KindAt(ts, s);
    if IsOperandKind(k) then Ok(Step(ts, s))
    else if k == LeftParlen then ParenTerm(ts, s)
    else if k == Others then Err(InvalidChar)
    else Err(Syntax)
  }

  /** The '(' case of term. */
  function ParenTerm(ts: seq<Token>, s: State): (r: Result<State, CompileError>)
    requires s.pos < |ts|
    ensures r.Ok? ==> s.pos < r.value.pos <= |ts| && Appends(s, r.value)
    decreases |ts| - s.pos, 8
  {
    var s1 :- CommaExpression(ts, Step(ts, s));
    Expect(ts, s1, RightParlen)
  }

  /** comma_expression: an expression and a POP, then for each ", e" the
      expression, with a POP after each one that another comma follows. */
  function CommaExpression(ts: seq<Token>, s: State): (r: Result<State, CompileError>)
    requires s.pos <= |ts|
    ensures r.Ok? ==> s.pos < r.value.pos <= |ts| && Appends(s, r.value)
    decreases |ts| - s.pos, 41
  {
    var s1 :- Expression(ts, s);
    var s2 :- Emit(s1, Calc(Bytecode.Pop));
    CommaRest(ts, s2)
  }

  /** The while loop of comma_expression. */
  function CommaRest(ts: seq<Token>, s: State): (r: Result<State, CompileError>)
    requires s.pos <= |ts|
    ensures r.Ok? ==> s.pos <= r.value.pos <= |ts| && Appends(s, r.value)
    decreases |ts| - s.pos, 3
  {
    if KindAt(ts, s) == Comma then CommaItem(ts, s) else Ok(s)
  }

  /** One turn: the comma and the expression. */
  function CommaItem(ts: seq<Token>, s: State): (r: Result<State, CompileError>)
    requires s.pos < |ts|
    ensures r.Ok? ==> s.pos < r.value.pos <= |ts| && Appends(s, r.value)
    decreases |ts| - s.pos, 2
  {
    var s1 :- Expression(ts, Step(ts, s));
    CommaMore(ts, s1)
  }

  /** After an expression of the list: the loop ends unless a comma
      follows, in which case the value is popped. */
  function CommaMore(ts: seq<Token>, s: State): (r: Result<State, CompileError>)
    requires s.pos <= |ts|
    ensures r.Ok? ==> s.pos <= r.value.pos <= |ts| && Appends(s, r.value)
    decreases |ts| - s.pos, 4
  {
    if KindAt(ts, s) != Comma then Ok(s)
    else
      var s2 :- Emit(s, Calc(Bytecode.Pop));
      CommaRest(ts, s2)
  }

  /** '(' expression ')', as if, elsif, while, switch and do-while check it. */
  function Parenthesised(ts: seq<Token>, s: State): (r: Result<State, CompileError>)
    requires s.pos <= |ts|
    ensures r.Ok? ==> s.pos < r.value.pos <= |ts| && Appends(s, r.value)
  {
    var s1 :- Expect(ts, s, LeftParlen);
    var s2 :- Expression(ts, s1);
    Expect(ts, s2, RightParlen)
  }

  /** The condition of if, elsif and while: the parenthesised expression and
      a JUMP_IF_FALSE whose target is still open. */
  function Condition(ts: seq<Token>, s: State): (r: Result<State, CompileError>)
    requires s.pos <= |ts|
    ensures r.Ok? ==> s.pos < r.value.pos <= |ts| && Appends(s, r.value) && |s.code| < |r.value.code|
  {
    var s1 :- Parenthesised(ts, s);
    Emit(s1, JumpTo(Bytecode.JumpIfFalse, 0))
  }

  // ---------------------------------------------------------------------
  // Assignment

  predicate IsAssignOp(k: Kind) {
    k == Assign || k == AddAssign || k == SubAssign || k == MulAssign || k == DivAssign || k == ModAssign
  }

  /** The opcode of a compound assignment; plain '=' has none.  DEVIATION:
      the source labels the DIV case ADD_ASSIGN a second time, which does
      not compile; DIV_ASSIGN is meant. */
  function AssignOpCode(k: Kind): Option<Bytecode.OpCode> {
    if k == AddAssign then Some(Bytecode.Add)
    else if k == SubAssign then Some(Bytecode.Sub)
    else if k == MulAssign then Some(Bytecode.Mul)
    else if k == DivAssign then Some(Bytecode.Div)
    else if k == ModAssign then Some(Bytecode.Mod)
    else None
  }

  /** assign_statement(table_index), the identifier consumed: with an
      assignment operator, a constant or function target is fatal and the
      assignment is compiled; without one the rest is compiled as a comma
      expression. */
  function AssignStatement(ts: seq<Token>, s: State, index: nat): (r: Result<State, CompileError>)
    requires s.pos <= |ts| && index < MAX_TABLE_SIZE
    ensures r.Ok? ==> s.pos < r.value.pos <= |ts| && Appends(s, r.value)
    ensures (IsAssignOp(KindAt(ts, s)) && GetTableKind(s.table, index) != VarIdentifier
             && GetTableKind(s.table, index) != ParamIdentifier) ==> r == Err(AssignToConstant)
  {
    var kind := GetTableKind(s.table, index);
    if !IsAssignOp(KindAt(ts, s)) then CommaExpression(ts, s)
    else if kind != VarIdentifier && kind != ParamIdentifier then Err(AssignToConstant)
    else AssignValue(ts, s, index)
  }

  /** A compound operator pushes the variable first; then come the operator
      token, the right-hand side, the operator's opcode and POP_VARIABLE. */
  function AssignValue(ts: seq<Token>, s: State, index: nat): (r: Result<State, CompileError>)
    requires s.pos < |ts|
    ensures r.Ok? ==> s.pos < r.value.pos <= |ts| && Appends(s, r.value)
    ensures r.Ok? ==> |s.code| < |r.value.code| && r.value.code[|r.value.code| - 1] == OnTable(Bytecode.PopVariable, index)
    ensures r.Ok? && ts[s.pos].kind != Assign ==> r.value.code[|s.code|] == OnTable(Bytecode.PushValue, index)
  {
    var op := ts[s.pos].kind;
    var s1 :- if op != Assign then Emit(s, OnTable(Bytecode.PushValue, index)) else Ok(s);
    var s2 :- CommaExpression(ts, Step(ts, s1));
    AssignStore(s2, index, op)
  }

  /** The operator's opcode, if any, and POP_VARIABLE. */
  function AssignStore(s: State, index: nat, op: Kind): (r: Result<State, CompileError>)
    ensures r.Ok? ==> r.value == s.(code := r.value.code)
    ensures r.Ok? ==> r.value.code == s.code + (match AssignOpCode(op) case Some(c) => [Calc(c)] case None => [])
                                      + [OnTable(Bytecode.PopVariable, index)]
  {
    var s3 :- match AssignOpCode(op) case Some(c) => Emit(s, Calc(c)) case None => Ok(s);
    Emit(s3, OnTable(Bytecode.PopVariable, index))
  }

  /** The IDENTIFIER case of statement.  DEVIATION: the source calls
      assign_statement(table_index) before nextToken and then a second time
      without an argument, which does not compile; the search, the step
      past the identifier and one call with the index are meant. */
  function Assignment(ts: seq<Token>, s: State): (r: Result<State, CompileError>)
    requires s.pos < |ts|
    ensures r.Ok? ==> s.pos < r.value.pos <= |ts| && Grows(s, r.value)
  {
    var (t1, index) :- Lift(Search(s.table, IdentName(ts[s.pos]), VarIdentifier));
    AssignStatement(ts, Step(ts, s.(table := t1)), index)
  }

  // ---------------------------------------------------------------------
  // Statements

  /** statement: the keyword, if any, selects the production. */
  function Statement(ts: seq<Token>, s: State): (r: Result<State, CompileError>)
    requires s.pos <= |ts|
    ensures r.Ok? ==> s.pos < r.value.pos <= |ts| && Keeps(s, r.value, [])
    decreases |ts| - s.pos, 30
  {
    var k := KindAt(ts, s);
    if k in {If, Switch, For, While, Do} then CompoundStatement(ts, s)
    else if k == Identifier then Assignment(ts, s)
    else if k == Continue || k == Break then JumpStatement(ts, s)
    else if k == Return then ReturnStatement(ts, s)
    else if k == LeftBrace || k == LeftBraceString then Block(ts, Step(ts, s))
    else CommaExpression(ts, s)
  }

  /** The statements that start with a keyword and hold a body. */
  function CompoundStatement(ts: seq<Token>, s: State): (r: Result<State, CompileError>)
    requires s.pos < |ts|
    ensures r.Ok? ==> s.pos < r.value.pos <= |ts| && Keeps(s, r.value, [])
    decreases |ts| - s.pos, 29
  {
    var k := KindAt(ts, s);
    var s1 := Step(ts, s);
    if k == If then IfStatement(ts, s1)
    else if k == Switch then SwitchStatement(ts, s1)
    else if k == For then ForStatement(ts, s1)
    else if k == While then WhileStatement(ts, s1)
    else DoWhileStatement(ts, s1)
  }

  /** continue and break: a JUMP whose target is left open, recorded as
      pending, and an optional ';'. */
  function JumpStatement(ts: seq<Token>, s: State): (r: Result<State, CompileError>)
    requires s.pos < |ts|
    ensures r.Ok? ==> s.pos < r.value.pos <= |ts| && r.value.code == s.code + [JumpTo(Bytecode.Jump, 0)]
    ensures r.Ok? ==> if ts[s.pos].kind == Continue
                      then r.value.continues == s.continues + [|s.code|] && r.value.breaks == s.breaks
                      else r.value.breaks == s.breaks + [|s.code|] && r.value.continues == s.continues
  {
    var s1 :- Emit(s, JumpTo(Bytecode.Jump, 0));
    var s2 := if ts[s.pos].kind == Continue then s1.(continues := s1.continues + [|s.code|])
              else s1.(breaks := s1.breaks + [|s.code|]);
    Ok(SkipSemicolon(ts, Step(ts, s2)))
  }

  /** return: the keyword, an expression and an optional ';'. */
  function ReturnStatement(ts: seq<Token>, s: State): (r: Result<State, CompileError>)
    requires s.pos < |ts|
    ensures r.Ok? ==> s.pos < r.value.pos <= |ts| && Appends(s, r.value)
  {
    var s1 :- Expression(ts, Step(ts, s));
    Ok(SkipSemicolon(ts, s1))
  }

  /** block: declarations and statements up to the closing brace, which is
      consumed.  A block opens no scope of the name table. */
  function Block(ts: seq<Token>, s: State): (r: Result<State, CompileError>)
    requires s.pos <= |ts|
    ensures r.Ok? ==> s.pos < r.value.pos <= |ts| && Keeps(s, r.value, [])
    decreases |ts| - s.pos, 33
  {
    var k := KindAt(ts, s);
    if k == RightBrace || k == RightBraceString then Ok(Step(ts, s))
    else BlockItem(ts, s)
  }

  /** One turn of block's loop, and the rest of the block. */
  function BlockItem(ts: seq<Token>, s: State): (r: Result<State, CompileError>)
    requires s.pos <= |ts|
    ensures r.Ok? ==> s.pos < r.value.pos <= |ts| && Keeps(s, r.value, [])
    decreases |ts| - s.pos, 32
  {
    var s1 :- Item(ts, s);
    Block(ts, s1)
  }

  /** A variable declaration, a constant declaration or a statement. */
  function Item(ts: seq<Token>, s: State): (r: Result<State, CompileError>)
    requires s.pos <= |ts|
    ensures r.Ok? ==> s.pos < r.value.pos <= |ts| && Keeps(s, r.value, [])
    decreases |ts| - s.pos, 31
  {
    var k := KindAt(ts, s);
    if k == Var then VarDecl(ts, Step(ts, s))
    else if k == Const then ConstDecl(ts, Step(ts, s))
    else Statement(ts, s)
  }

  /** Statements while the lookahead is not one of stops: the body loops of
      if_statement and of the case and default clauses. */
  function StatementList(ts: seq<Token>, s: State, stops: set<Kind>): (r: Result<State, CompileError>)
    requires s.pos <= |ts|
    ensures r.Ok? ==> s.pos <= r.value.pos <= |ts| && Keeps(s, r.value, [])
    ensures r.Ok? ==> KindAt(ts, r.value) in stops
    decreases |ts| - s.pos, 35
  {
    if KindAt(ts, s) in stops then Ok(s) else StatementSeq(ts, s, stops)
  }

  /** One statement of such a loop, and the rest of the loop. */
  function StatementSeq(ts: seq<Token>, s: State, stops: set<Kind>): (r: Result<State, CompileError>)
    requires s.pos <= |ts|
    ensures r.Ok? ==> s.pos < r.value.pos <= |ts| && Keeps(s, r.value, [])
    ensures r.Ok? ==> KindAt(ts, r.value) in stops
    decreases |ts| - s.pos, 34
  {
    var s1 :- Statement(ts, s);
    StatementList(ts, s1, stops)
  }

  // ---------------------------------------------------------------------
  // if

  /** The condition of an if, elsif or while and the opening brace of its
      body. */
  function BranchHead(ts: seq<Token>, s: State): (r: Result<State, CompileError>)
    requires s.pos <= |ts|
    ensures r.Ok? ==> s.pos < r.value.pos <= |ts| && Appends(s, r.value) && |s.code| < |r.value.code|
  {
    var s4 :- Condition(ts, s);
    Expect2(ts, s4, LeftBrace, LeftBraceString)
  }

  /** The end of a branch: its JUMP to the end of the whole statement, and
      the branch's false-jump patched past it. */
  function BranchEnd(s: State, falseLabel: nat): (r: Result<State, CompileError>)
    requires falseLabel < |s.code|
    ensures r.Ok? ==> r.value == s.(code := r.value.code)
    ensures r.Ok? ==> r.value.code == Bytecode.Patched(s.code + [JumpTo(Bytecode.Jump, 0)], falseLabel, |s.code| + 1)
  {
    var s1 :- Emit(s, JumpTo(Bytecode.Jump, 0));
    Ok(Patch(s1, falseLabel))
  }

  /** if_statement, the keyword consumed.  DEVIATION: if_end_labels starts
      as an empty list (the source reallocates an uninitialised pointer). */
  function IfStatement(ts: seq<Token>, s: State): (r: Result<State, CompileError>)
    requires s.pos <= |ts|
    ensures r.Ok? ==> s.pos < r.value.pos <= |ts| && Keeps(s, r.value, [])
    decreases |ts| - s.pos, 30
  {
    var s5 :- BranchHead(ts, s);
    var falseLabel: nat := |s5.code| - 1;
    var r := IfRest(ts, s5, falseLabel);
    if r.Ok? then TailFrame(s, s5, r.value, falseLabel); r else r
  }

  /** The first branch's body and end, then the elsif chain. */
  function IfRest(ts: seq<Token>, s: State, falseLabel: nat): (r: Result<State, CompileError>)
    requires s.pos <= |ts| && falseLabel < |s.code|
    ensures r.Ok? ==> s.pos < r.value.pos <= |ts| && Keeps(s, r.value, [falseLabel])
    decreases |ts| - s.pos, 37
  {
    var s7 :- IfBody(ts, s);
    var s9 :- BranchEnd(s7, falseLabel);
    var more: seq<nat> := [|s7.code|];
    var r := ElsifChain(ts, s9, more);
    if r.Ok? then FirstBranchFrame(s, s7, s9, r.value, falseLabel, more); r else r
  }

  /** The body of the first branch: statements up to the closing brace,
      which is consumed.  DEVIATION: as written the loop condition is
      kind != '}' || kind != 'end', which always holds (IfBodyAsWritten), and
      the brace is left for elsif to see. */
  function IfBody(ts: seq<Token>, s: State): (r: Result<State, CompileError>)
    requires s.pos <= |ts|
    ensures r.Ok? ==> s.pos < r.value.pos <= |ts| && Keeps(s, r.value, [])
    decreases |ts| - s.pos, 36
  {
    var s1 :- StatementList(ts, s, {RightBrace, RightBraceString});
    Ok(Step(ts, s1))
  }

  /** The body loop of the first branch as written: no kind is both '}'
      and 'end', so the loop stops at no kind at all and never ends well. */
  function IfBodyAsWritten(ts: seq<Token>, s: State): (r: Result<State, CompileError>)
    requires s.pos <= |ts|
    ensures r.Err?
  {
    StatementList(ts, s, {})
  }

  /** The elsif list, the else part and the patching of the end jumps. */
  function ElsifChain(ts: seq<Token>, s: State, ends: seq<nat>): (r: Result<State, CompileError>)
    requires s.pos <= |ts| && forall i | 0 <= i < |ends| :: ends[i] < |s.code|
    ensures r.Ok? ==> s.pos <= r.value.pos <= |ts| && Keeps(s, r.value, ends)
    ensures r.Ok? ==> Retargeted(s, r.value, ends, |r.value.code|)
    decreases |ts| - s.pos, 40
  {
    if KindAt(ts, s) == Elsif then ElsifBranch(ts, s, ends)
    else ElseTail(ts, s, ends)
  }

  /** One elsif: the keyword, the condition and the brace. */
  function ElsifBranch(ts: seq<Token>, s: State, ends: seq<nat>): (r: Result<State, CompileError>)
    requires s.pos < |ts| && forall i | 0 <= i < |ends| :: ends[i] < |s.code|
    ensures r.Ok? ==> s.pos < r.value.pos <= |ts| && Keeps(s, r.value, ends)
    ensures r.Ok? ==> Retargeted(s, r.value, ends, |r.value.code|)
    decreases |ts| - s.pos, 39
  {
    var s5 :- BranchHead(ts, Step(ts, s));
    var falseLabel: nat := |s5.code| - 1;
    var r := ElsifRest(ts, s5, falseLabel, ends);
    if r.Ok? then HeadFrame(s, s5, r.value, falseLabel, ends); r else r
  }

  /** The frame of code emitted before a label patched later. */
  lemma {:induction false} HeadFrame(s: CState, h: CState, r: CState, p: nat, ends: seq<nat>)
    requires |s.code| <= p < |h.code| && Keeps(s, h, []) && forall i | 0 <= i < |ends| :: ends[i] < |s.code|
    requires Keeps(h, r, ends + [p]) && Retargeted(h, r, ends, |r.code|)
    ensures Keeps(s, r, ends) && Retargeted(s, r, ends, |r.code|)
  {
  }

  /** The elsif's block and end, then the rest of the chain. */
  function ElsifRest(ts: seq<Token>, s: State, falseLabel: nat, ends: seq<nat>): (r: Result<State, CompileError>)
    requires s.pos <= |ts| && falseLabel < |s.code| && forall i | 0 <= i < |ends| :: ends[i] < falseLabel
    ensures r.Ok? ==> s.pos < r.value.pos <= |ts| && Keeps(s, r.value, ends + [falseLabel])
    ensures r.Ok? ==> Retargeted(s, r.value, ends, |r.value.code|)
    decreases |ts| - s.pos, 38
  {
    var s6 :- Block(ts, s);
    var s8 :- BranchEnd(s6, falseLabel);
    var more: seq<nat> := ends + [|s6.code|];
    BranchLabels(s6, s8, falseLabel, ends, more);
    var r := ElsifChain(ts, s8, more);
    if r.Ok? then BranchFrame(s, s6, s8, r.value, falseLabel, ends, more); r else r
  }

  /** The end labels stay inside the code once a branch end is appended. */
  lemma {:induction false} BranchLabels(s6: CState, s8: CState, falseLabel: nat, ends: seq<nat>, more: seq<nat>)
    requires forall i | 0 <= i < |ends| :: ends[i] < falseLabel
    requires falseLabel < |s6.code| && |s8.code| == |s6.code| + 1 && more == ends + [|s6.code|]
    ensures forall i | 0 <= i < |more| :: more[i] < |s8.code|
  {
  }

  /** The frame of a branch followed by the rest of its chain. */
  lemma {:induction false} BranchFrame(s: CState, s6: CState, s8: CState, r: CState, falseLabel: nat, ends: seq<nat>, more: seq<nat>)
    requires falseLabel < |s.code| && forall i | 0 <= i < |ends| :: ends[i] < falseLabel
    requires Keeps(s, s6, []) && s8.loopStart == s6.loopStart
    requires s8.code == Bytecode.Patched(s6.code + [JumpTo(Bytecode.Jump, 0)], falseLabel, |s6.code| + 1)
    requires more == ends + [|s6.code|] && Keeps(s8, r, more) && Retargeted(s8, r, more, |r.code|)
    ensures Keeps(s, r, ends + [falseLabel]) && Retargeted(s, r, ends, |r.code|)
  {
    forall i | 0 <= i < |ends| ensures (ends + [|s6.code|])[i] == ends[i] && s8.code[ends[i]] == s.code[ends[i]] {
    }
  }

  /** BranchFrame for the first branch of an if, with no end-jumps before it. */
  lemma {:induction false} FirstBranchFrame(s: CState, s7: CState, s9: CState, r: CState, falseLabel: nat, more: seq<nat>)
    requires falseLabel < |s.code| && Keeps(s, s7, []) && s9.loopStart == s7.loopStart
    requires s9.code == Bytecode.Patched(s7.code + [JumpTo(Bytecode.Jump, 0)], falseLabel, |s7.code| + 1)
    requires more == [|s7.code|] && Keeps(s9, r, more) && Retargeted(s9, r, more, |r.code|)
    ensures Keeps(s, r, [falseLabel])
  {
    assert more == [] + [|s7.code|] && [] + [falseLabel] == [falseLabel];
    BranchFrame(s, s7, s9, r, falseLabel, [], more);
  }

  /** The optional else block, then every end jump patched to the end. */
  function ElseTail(ts: seq<Token>, s: State, ends: seq<nat>): (r: Result<State, CompileError>)
    requires s.pos <= |ts| && forall i | 0 <= i < |ends| :: ends[i] < |s.code|
    ensures r.Ok? ==> s.pos <= r.value.pos <= |ts| && Keeps(s, r.value, ends)
    ensures r.Ok? ==> Retargeted(s, r.value, ends, |r.value.code|)
    decreases |ts| - s.pos, 39
  {
    var s1 :- if KindAt(ts, s) == Else then ElseBlock(ts, s) else Ok(s);
    var r := PatchEach(s1, ends, |s1.code|);
    CloseFrame(s, s1, r, ends);
    Ok(r)
  }

  /** The frame of the final patching of the end jumps. */
  lemma {:induction false} CloseFrame(s: CState, m: CState, r: CState, ends: seq<nat>)
    requires Keeps(s, m, []) && forall i | 0 <= i < |ends| :: ends[i] < |s.code|
    requires r.loopStart == m.loopStart && r.code == PatchAll(m.code, ends, |m.code|)
    ensures Keeps(s, r, ends) && Retargeted(s, r, ends, |r.code|)
  {
  }

  /** else, the opening brace and the block. */
  function ElseBlock(ts: seq<Token>, s: State): (r: Result<State, CompileError>)
    requires s.pos < |ts|
    ensures r.Ok? ==> s.pos < r.value.pos <= |ts| && Keeps(s, r.value, [])
    decreases |ts| - s.pos, 38
  {
    var s0 :- Expect2(ts, Step(ts, s), LeftBrace, LeftBraceString);
    Block(ts, s0)
  }

  // ---------------------------------------------------------------------
  // switch

  /** switch_statement, the keyword consumed: the parenthesised value, the
      brace and the clauses.  DEVIATION: the label lists grow as lists (the
      source calls MEM_realloc with a size only). */
  function SwitchStatement(ts: seq<Token>, s: State): (r: Result<State, CompileError>)
    requires s.pos <= |ts|
    ensures r.Ok? ==> s.pos < r.value.pos <= |ts| && Keeps(s, r.value, [])
    decreases |ts| - s.pos, 30
  {
    var s3 :- Parenthesised(ts, s);
    var s4 :- Expect2(ts, s3, LeftBrace, LeftBraceString);
    CaseClauses(ts, s4, [])
  }

  /** The case clauses, then the default clause, the closing brace and the
      patching of the end jumps. */
  function CaseClauses(ts: seq<Token>, s: State, ends: seq<nat>): (r: Result<State, CompileError>)
    requires s.pos <= |ts| && forall i | 0 <= i < |ends| :: ends[i] < |s.code|
    ensures r.Ok? ==> s.pos < r.value.pos <= |ts| && Keeps(s, r.value, ends)
    ensures r.Ok? ==> Retargeted(s, r.value, ends, |r.value.code|)
    decreases |ts| - s.pos, 40
  {
    if KindAt(ts, s) == Case then CaseClause(ts, s, ends)
    else SwitchEnd(ts, s, ends)
  }

  /** One case clause: its values and its no-match jump, then its
      statements and its jump to the end of the switch. */
  function CaseClause(ts: seq<Token>, s: State, ends: seq<nat>): (r: Result<State, CompileError>)
    requires s.pos < |ts| && forall i | 0 <= i < |ends| :: ends[i] < |s.code|
    ensures r.Ok? ==> s.pos < r.value.pos <= |ts| && Keeps(s, r.value, ends)
    ensures r.Ok? ==> Retargeted(s, r.value, ends, |r.value.code|)
    decreases |ts| - s.pos, 39
  {
    var s8 :- CaseHead(ts, s);
    var nextCase: nat := |s8.code| - 1;
    var r := CaseBody(ts, s8, nextCase, ends);
    if r.Ok? then HeadFrame(s, s8, r.value, nextCase, ends); r else r
  }

  /** The values of a clause, then its ':' and jumps; the JUMP to the next
      clause is the last instruction. */
  function CaseHead(ts: seq<Token>, s: State): (r: Result<State, CompileError>)
    requires s.pos < |ts|
    ensures r.Ok? ==> s.pos < r.value.pos <= |ts| && Keeps(s, r.value, []) && |s.code| < |r.value.code|
  {
    var (s5, trues) :- CaseValues(ts, s, []);
    var r := CaseJump(ts, s5, trues);
    if r.Ok? then LabelsFrame(s, s5, r.value, trues); r else r
  }

  /** The frame of code appended and then patched only at new labels. */
  lemma {:induction false} LabelsFrame(s: CState, m: CState, r: CState, ps: seq<nat>)
    requires Appends(s, m) && Keeps(m, r, ps) && forall i | 0 <= i < |ps| :: |s.code| <= ps[i]
    ensures Keeps(s, r, [])
  {
  }

  /** The ':', the JUMP to the next clause and the true-jumps patched to the
      clause's statements. */
  function CaseJump(ts: seq<Token>, s: State, trues: seq<nat>): (r: Result<State, CompileError>)
    requires s.pos <= |ts| && forall i | 0 <= i < |trues| :: trues[i] < |s.code|
    ensures r.Ok? ==> s.pos < r.value.pos <= |ts| && |r.value.code| == |s.code| + 1
    ensures r.Ok? ==> Keeps(s, r.value, trues) && r.value.breaks == s.breaks && r.value.continues == s.continues
    ensures r.Ok? ==> Retargeted(s, r.value, trues, |s.code| + 1) && r.value.code[|s.code|] == JumpTo(Bytecode.Jump, 0)
  {
    var s6 :- Expect(ts, s, Colon);
    var s7 :- Emit(s6, JumpTo(Bytecode.Jump, 0));
    Ok(PatchEach(s7, trues, |s7.code|))
  }

  /** The values of one case clause, the first after "case" and each
      further one after a comma; the result carries the labels of the
      clause's true-jumps, those given followed by new ones. */
  function CaseValues(ts: seq<Token>, s: State, trues: seq<nat>): (r: Result<(State, seq<nat>), CompileError>)
    requires s.pos < |ts| && forall i | 0 <= i < |trues| :: trues[i] < |s.code|
    ensures r.Ok? ==> var (next, labels) := r.value;
      && s.pos < next.pos <= |ts| && Appends(s, next) && |trues| <= |labels|
      && forall i | 0 <= i < |labels| ::
           && labels[i] < |next.code|
           && (i < |trues| ==> labels[i] == trues[i])
           && (|trues| <= i ==> |s.code| <= labels[i])
    decreases |ts| - s.pos
  {
    var s4 :- CaseValue(ts, s);
    var more := trues + [|s4.code| - 1];
    if KindAt(ts, s4) == Comma then CaseValues(ts, s4, more) else Ok((s4, more))
  }

  /** One value: DUPLICATE, the token before the value, the value, EQUAL
      and a JUMP_IF_TRUE whose target is still open. */
  function CaseValue(ts: seq<Token>, s: State): (r: Result<State, CompileError>)
    requires s.pos < |ts|
    ensures r.Ok? ==> s.pos < r.value.pos <= |ts| && Appends(s, r.value) && |r.value.code| > |s.code| + 2
    ensures r.Ok? ==> r.value.code[|s.code|] == Calc(Bytecode.Duplicate)
    ensures r.Ok? ==> r.value.code[|r.value.code| - 2..] == [Calc(Bytecode.Equal), JumpTo(Bytecode.JumpIfTrue, 0)]
  {
    var s1 :- Emit(s, Calc(Bytecode.Duplicate));
    var s2 :- Expression(ts, Step(ts, s1));
    CaseTest(s2)
  }

  /** EQUAL and the open JUMP_IF_TRUE of one case value. */
  function CaseTest(s: State): (r: Result<State, CompileError>)
    ensures r.Ok? ==> r.value == s.(code := s.code + [Calc(Bytecode.Equal), JumpTo(Bytecode.JumpIfTrue, 0)])
  {
    var s3 :- Emit(s, Calc(Bytecode.Equal));
    Emit(s3, JumpTo(Bytecode.JumpIfTrue, 0))
  }

  /** The statements of a case clause, its end jump, the no-match jump
      patched past it, then the further clauses. */
  function CaseBody(ts: seq<Token>, s: State, nextCase: nat, ends: seq<nat>): (r: Result<State, CompileError>)
    requires s.pos <= |ts| && nextCase < |s.code| && forall i | 0 <= i < |ends| :: ends[i] < nextCase
    ensures r.Ok? ==> s.pos < r.value.pos <= |ts| && Keeps(s, r.value, ends + [nextCase])
    ensures r.Ok? ==> Retargeted(s, r.value, ends, |r.value.code|)
    decreases |ts| - s.pos, 41
  {
    var s9 :- StatementList(ts, s, {Case, Default, RightBrace, RightBraceString});
    var s11 :- BranchEnd(s9, nextCase);
    var more: seq<nat> := ends + [|s9.code|];
    BranchLabels(s9, s11, nextCase, ends, more);
    var r := CaseClauses(ts, s11, more);
    if r.Ok? then BranchFrame(s, s9, s11, r.value, nextCase, ends, more); r else r
  }

  /** The optional default clause, the closing brace and the end jumps. */
  function SwitchEnd(ts: seq<Token>, s: State, ends: seq<nat>): (r: Result<State, CompileError>)
    requires s.pos <= |ts| && forall i | 0 <= i < |ends| :: ends[i] < |s.code|
    ensures r.Ok? ==> s.pos < r.value.pos <= |ts| && Keeps(s, r.value, ends)
    ensures r.Ok? ==> Retargeted(s, r.value, ends, |r.value.code|)
    decreases |ts| - s.pos, 39
  {
    var s1 :- if KindAt(ts, s) == Default then DefaultClause(ts, s) else Ok(s);
    var r := SwitchClose(ts, s1, ends);
    if r.Ok? then CloseFrame(s, s1, r.value, ends); r else r
  }

  /** The closing brace and every end jump patched past it. */
  function SwitchClose(ts: seq<Token>, s: State, ends: seq<nat>): (r: Result<State, CompileError>)
    requires s.pos <= |ts| && forall i | 0 <= i < |ends| :: ends[i] < |s.code|
    ensures r.Ok? ==> s.pos < r.value.pos <= |ts| && r.value == s.(pos := r.value.pos, code := r.value.code)
    ensures r.Ok? ==> r.value.code == PatchAll(s.code, ends, |s.code|)
  {
    var s2 :- Expect2(ts, s, RightBrace, RightBraceString);
    Ok(PatchEach(s2, ends, |s2.code|))
  }

  /** default, the ':' and the statements up to the closing brace. */
  function DefaultClause(ts: seq<Token>, s: State): (r: Result<State, CompileError>)
    requires s.pos < |ts|
    ensures r.Ok? ==> s.pos < r.value.pos <= |ts| && Keeps(s, r.value, [])
    decreases |ts| - s.pos, 38
  {
    var s0 :- Expect(ts, Step(ts, s), Colon);
    StatementList(ts, s0, {RightBrace, RightBraceString})
  }

  // ---------------------------------------------------------------------
  // Loops

  /** for_statement, the keyword consumed: '(' and the initialiser, the
      loop label (nextCode), then the rest.  As written the update is
      compiled in place, before the body. */
  function ForStatement(ts: seq<Token>, s: State): (r: Result<State, CompileError>)
    requires s.pos <= |ts|
    ensures r.Ok? ==> s.pos < r.value.pos <= |ts| && Keeps(s, r.value, [])
    decreases |ts| - s.pos, 30
  {
    var s1 :- Expect(ts, s, LeftParlen);
    var s3 :- ForClause(ts, s1, Semicolon, true);
    var r := ForRest(ts, s3);
    if r.Ok? then AppendsFrame(s, s1, s3, r.value); r else r
  }

  /** The frame of a token consumed and code appended before a statement. */
  lemma {:induction false} AppendsFrame(s: CState, s1: CState, m: CState, r: CState)
    requires s1 == s.(pos := s1.pos) && Appends(s1, m) && Keeps(m, r, [])
    ensures Keeps(s, r, [])
  {
  }

  /** The frame of code appended before a part of a statement whose only
      label is in the appended part. */
  lemma {:induction false} TailFrame(s: CState, m: CState, r: CState, p: nat)
    requires Appends(s, m) && Keeps(m, r, [p]) && |s.code| <= p
    ensures Keeps(s, r, [])
  {
  }

  /** The condition, then the body with the loop label. */
  function ForRest(ts: seq<Token>, s: State): (r: Result<State, CompileError>)
    requires s.pos <= |ts|
    ensures r.Ok? ==> s.pos < r.value.pos <= |ts| && Keeps(s, r.value, [])
    decreases |ts| - s.pos, 37
  {
    var s5 :- ForClause(ts, s, Semicolon, false);
    ForBody(ts, s5, |s.code|)
  }

  /** The update and the opening brace, then the common end of loops. */
  function ForBody(ts: seq<Token>, s: State, loop: nat): (r: Result<State, CompileError>)
    requires s.pos <= |ts|
    ensures r.Ok? ==> s.pos < r.value.pos <= |ts| && Keeps(s, r.value, [])
    decreases |ts| - s.pos, 37
  {
    var s9 :- ForUpdate(ts, s);
    var r := LoopTail(ts, s9, loop, |s.code|);
    if r.Ok? then TailFrame(s, s9, r.value, |s.code|); r else r
  }

  /** The condition's JUMP_IF_FALSE, the update clause and the opening
      brace of the body. */
  function ForUpdate(ts: seq<Token>, s: State): (r: Result<State, CompileError>)
    requires s.pos <= |ts|
    ensures r.Ok? ==> s.pos < r.value.pos <= |ts| && Appends(s, r.value)
    ensures r.Ok? ==> |s.code| < |r.value.code|
  {
    var s6 :- Emit(s, JumpTo(Bytecode.JumpIfFalse, 0));
    var s8 :- ForClause(ts, s6, RightParlen, true);
    var s9 :- Expect2(ts, s8, LeftBrace, LeftBraceString);
    EmitFrame(s, JumpTo(Bytecode.JumpIfFalse, 0), s8, s9);
    Ok(s9)
  }

  /** An instruction emitted, then code appended and tokens consumed. */
  lemma {:induction false} EmitFrame(s: CState, ins: Instruction, m: CState, r: CState)
    requires Appends(s.(code := s.code + [ins]), m) && r == m.(pos := r.pos)
    ensures Appends(s, r) && |s.code| < |r.code|
  {
    forall i | 0 <= i < |s.code| ensures r.code[i] == s.code[i] {
      assert r.code[i] == (s.code + [ins])[i];
    }
  }

  /** One clause of a for header: an optional comma expression (or an
      expression, for the condition) and the token that ends it. */
  function ForClause(ts: seq<Token>, s: State, end: Kind, comma: bool): (r: Result<State, CompileError>)
    requires s.pos <= |ts| && end != EndOfFile
    ensures r.Ok? ==> s.pos < r.value.pos <= |ts| && Appends(s, r.value)
  {
    var s1 :- if KindAt(ts, s) == end then Ok(s)
              else if comma then CommaExpression(ts, s)
              else Expression(ts, s);
    Expect(ts, s1, end)
  }

  /** while_statement, the keyword consumed: the loop label is the code
      size before the condition. */
  function WhileStatement(ts: seq<Token>, s: State): (r: Result<State, CompileError>)
    requires s.pos <= |ts|
    ensures r.Ok? ==> s.pos < r.value.pos <= |ts| && Keeps(s, r.value, [])
    decreases |ts| - s.pos, 30
  {
    var s5 :- BranchHead(ts, s);
    var endLabel: nat := |s5.code| - 1;
    var r := LoopTail(ts, s5, |s.code|, endLabel);
    if r.Ok? then TailFrame(s, s5, r.value, endLabel); r else r
  }

  /** The common end of for and while: the body, a JUMP back to the loop
      label, the false-jump patched past it and the body's pending jumps
      patched.  DEVIATION: the break and continue helpers are not part of
      the source; as the per-level counters of table.c suggest, each loop
      patches the jumps of its own body only, those of an enclosing loop
      staying pending. */
  function LoopTail(ts: seq<Token>, s: State, loop: nat, endLabel: nat): (r: Result<State, CompileError>)
    requires s.pos <= |ts| && endLabel < |s.code|
    ensures r.Ok? ==> s.pos < r.value.pos <= |ts| && Keeps(s, r.value, [endLabel])
    ensures r.Ok? ==> r.value.breaks == s.breaks && r.value.continues == s.continues
    ensures r.Ok? ==> Retargeted(s, r.value, [endLabel], |r.value.code|)
    decreases |ts| - s.pos, 36
  {
    var s6 :- Block(ts, Unpend(s));
    var s7 :- Emit(s6, JumpTo(Bytecode.Jump, loop));
    Ok(Restore(LoopEnd(Patch(s7, endLabel), loop), s))
  }

  /** do_while_statement, the keyword consumed: the loop label, the body,
      the condition and its jump, the body's pending jumps patched. */
  function DoWhileStatement(ts: seq<Token>, s: State): (r: Result<State, CompileError>)
    requires s.pos <= |ts|
    ensures r.Ok? ==> s.pos < r.value.pos <= |ts| && Keeps(s, r.value, [])
    ensures r.Ok? ==> r.value.breaks == s.breaks && r.value.continues == s.continues
    decreases |ts| - s.pos, 30
  {
    var s1 :- Expect2(ts, s, LeftBrace, LeftBraceString);
    var s2 :- Block(ts, Unpend(s1));
    var s7 :- DoWhileTail(ts, s2, |s.code|);
    var r := Restore(LoopEnd(s7, |s.code|), s);
    LoopFrame(s, s1, s2, s7, r);
    Ok(r)
  }

  /** The frame of a loop body followed by its tail: the code before the
      loop is below the body's loop label, so LoopEnd leaves it alone. */
  lemma {:induction false} LoopFrame(s: State, s1: State, s2: State, s7: State, r: State)
    requires s1.code == s.code && Keeps(Unpend(s1), s2, []) && Appends(s2, s7)
    requires r == Restore(LoopEnd(s7, |s.code|), s)
    ensures Keeps(s, r, []) && r.breaks == s.breaks && r.continues == s.continues
  {
  }

  /** while and the parenthesised condition, then a JUMP_IF_TRUE back to
      the loop label. */
  function DoWhileTail(ts: seq<Token>, s: State, loop: nat): (r: Result<State, CompileError>)
    requires s.pos <= |ts|
    ensures r.Ok? ==> s.pos < r.value.pos <= |ts| && Appends(s, r.value) && |s.code| < |r.value.code|
  {
    var s3 :- Expect(ts, s, While);
    var s6 :- Parenthesised(ts, s3);
    Emit(s6, JumpTo(Bytecode.JumpIfTrue, loop))
  }

  // ---------------------------------------------------------------------
  // Declarations

  predicate IsLiteralKind(k: Kind) {
    k == IntLiteral || k == DoubleLiteral || k == StringLiteral || k == TrueLiteral || k == FalseLiteral
  }

  /** The value of a literal in an initialiser: a string literal is
      allocated on the heap as a literal string (alloc_string(s, TRUE));
      any other token is a syntax error.  DEVIATION: a double keeps its
      value (the source stores it into int_value), and the string object is
      not written through before it is allocated. */
  function LiteralValue(h: Heap.HeapState, t: Token): (r: Result<(Value, Heap.HeapState), CompileError>)
    ensures r.Ok? ==> IsLiteralKind(t.kind)
    ensures r.Err? ==> r.error == Syntax
    ensures r.Ok? && t.kind != StringLiteral ==> r.value.1 == h
  {
    match t.kind
    case IntLiteral => if t.payload.IntPayload? then Ok((IntValue(t.payload.intValue), h)) else Err(Syntax)
    case DoubleLiteral => if t.payload.DoublePayload? then Ok((DoubleValue(t.payload.doubleText), h)) else Err(Syntax)
    case StringLiteral =>
      if t.payload.StringPayload? then
        var (h', o) := Heap.AllocString(h, t.payload.stringValue, true);
        Ok((ObjectValue(o), h'))
      else Err(Syntax)
    case TrueLiteral => Ok((BooleanValue(true), h))
    case FalseLiteral => Ok((BooleanValue(false), h))
    case _ => Err(Syntax)
  }

  /** varDecl, the keyword consumed: names separated by commas, each added
      to the table; "= literal" pushes the literal and pops it into the
      variable; an optional ';' ends the list.  DEVIATION: the name is the
      identifier's own (the source reads it from the token after it), and
      the literal is consumed (the source leaves it as the lookahead). */
  function VarDecl(ts: seq<Token>, s: State): (r: Result<State, CompileError>)
    requires s.pos <= |ts|
    ensures r.Ok? ==> s.pos < r.value.pos <= |ts| && Grows(s, r.value)
    decreases |ts| - s.pos, 1
  {
    var s3 :- VarItem(ts, s);
    VarMore(ts, s3)
  }

  /** After one name: a comma continues the list, anything else ends it. */
  function VarMore(ts: seq<Token>, s: State): (r: Result<State, CompileError>)
    requires s.pos <= |ts|
    ensures r.Ok? ==> s.pos <= r.value.pos <= |ts| && Grows(s, r.value)
    decreases |ts| - s.pos, 0
  {
    if KindAt(ts, s) == Comma then VarDecl(ts, Step(ts, s)) else Ok(SkipSemicolon(ts, s))
  }

  /** One name and its optional initialiser. */
  function VarItem(ts: seq<Token>, s: State): (r: Result<State, CompileError>)
    requires s.pos <= |ts|
    ensures r.Ok? ==> s.pos < r.value.pos <= |ts| && Grows(s, r.value)
  {
    var s2 :- VarName(ts, s);
    if KindAt(ts, s2) == Assign then Initialiser(ts, Step(ts, s2), IdentName(ts[s.pos])) else Ok(s2)
  }

  /** checkGetToken(IDENTIFIER) and addTableVar. */
  function VarName(ts: seq<Token>, s: State): (r: Result<State, CompileError>)
    requires s.pos <= |ts|
    ensures r.Ok? ==> s.pos < r.value.pos <= |ts| && r.value == s.(pos := r.value.pos, table := r.value.table)
  {
    var s1 :- Expect(ts, s, Identifier);
    Declare(s1, IdentName(ts[s.pos]))
  }

  /** addTableVar: the name becomes the newest entry of the table. */
  function Declare(s: State, name: string): (r: Result<State, CompileError>)
    ensures r.Ok? ==> r.value == s.(table := r.value.table)
  {
    var (t1, _) :- Lift(AddVar(s.table, name));
    Ok(s.(table := t1))
  }

  /** One initialiser: the literal, then PUSH_IMMEDIATE of its value and
      POP_VARIABLE into the entry searchTable finds for the name. */
  function Initialiser(ts: seq<Token>, s: State, name: string): (r: Result<State, CompileError>)
    requires s.pos <= |ts|
    ensures r.Ok? ==> s.pos < r.value.pos <= |ts| && Grows(s, r.value) && |r.value.code| == |s.code| + 2
  {
    var (v, h) :- LiteralValue(s.heap, Peek(ts, s));
    var (t1, index) :- Lift(Search(s.table, name, VarIdentifier));
    InitialiserCode(ts, s.(table := t1, heap := h), v, index)
  }

  /** The two instructions of an initialiser and the step past the literal. */
  function InitialiserCode(ts: seq<Token>, s: State, v: Value, index: nat): (r: Result<State, CompileError>)
    requires s.pos < |ts|
    ensures r.Ok? ==> r.value == s.(pos := s.pos + 1, code := s.code + [
      Bytecode.Instruction(Bytecode.PushImmediate, Bytecode.ImmediateValue(v)),
      OnTable(Bytecode.PopVariable, index)])
  {
    var s2 :- Emit(s, Bytecode.Instruction(Bytecode.PushImmediate, Bytecode.ImmediateValue(v)));
    var s3 :- Emit(s2, OnTable(Bytecode.PopVariable, index));
    Ok(Step(ts, s3))
  }

  /** constDecl: "name = literal" pairs separated by commas, each added to
      the table as a constant, and an optional ';'.  It emits no code. */
  function ConstDecl(ts: seq<Token>, s: State): (r: Result<State, CompileError>)
    requires s.pos <= |ts|
    ensures r.Ok? ==> s.pos < r.value.pos <= |ts|
    ensures r.Ok? ==> r.value == s.(pos := r.value.pos, table := r.value.table, heap := r.value.heap)
    decreases |ts| - s.pos, 1
  {
    if KindAt(ts, s) != Identifier then Err(MissingIdentifier)
    else
      var s2 :- ConstItem(ts, s);
      ConstMore(ts, s2)
  }

  /** After one constant: a comma continues the list, anything else ends it. */
  function ConstMore(ts: seq<Token>, s: State): (r: Result<State, CompileError>)
    requires s.pos <= |ts|
    ensures r.Ok? ==> s.pos <= r.value.pos <= |ts|
    ensures r.Ok? ==> r.value == s.(pos := r.value.pos, table := r.value.table, heap := r.value.heap)
    decreases |ts| - s.pos, 0
  {
    if KindAt(ts, s) == Comma then ConstDecl(ts, Step(ts, s)) else Ok(SkipSemicolon(ts, s))
  }

  /** The name, checkGetToken(ASSIGN) on the token after it, and the value. */
  function ConstItem(ts: seq<Token>, s: State): (r: Result<State, CompileError>)
    requires s.pos < |ts|
    ensures r.Ok? ==> s.pos < r.value.pos <= |ts|
    ensures r.Ok? ==> r.value == s.(pos := r.value.pos, table := r.value.table, heap := r.value.heap)
  {
    var s1 :- Expect(ts, Step(ts, s), Assign);
    ConstValue(ts, s1, IdentName(ts[s.pos]))
  }

  /** The literal, addTableConst and the step past the literal. */
  function ConstValue(ts: seq<Token>, s: State, name: string): (r: Result<State, CompileError>)
    requires s.pos <= |ts|
    ensures r.Ok? ==> s.pos < |ts| && r.value == s.(pos := s.pos + 1, table := r.value.table, heap := r.value.heap)
  {
    var (v, h) :- LiteralValue(s.heap, Peek(ts, s));
    var (t1, _) :- Lift(AddConst(s.table, name, v));
    Ok(Step(ts, s.(table := t1, heap := h)))
  }

  /** constDecl as written: it checks the identifier token itself against
      ASSIGN, so a declaration with a name is a syntax error and one
      without a name a missing-identifier error. */
  function ConstDeclAsWritten(ts: seq<Token>, s: State): (r: Result<State, CompileError>)
    requires s.pos <= |ts|
    ensures r.Err?
    ensures r.error == if KindAt(ts, s) == Identifier then Syntax else MissingIdentifier
  {
    if KindAt(ts, s) != Identifier then Err(MissingIdentifier)
    else
      var e := Expect(ts, s, Assign);
      Err(e.error)
  }

  /** funcDecl, the keyword consumed: the name, an optional parameter list
      and the body.  As written nothing is entered into the table and no
      code surrounds the body. */
  function FuncDecl(ts: seq<Token>, s: State): (r: Result<State, CompileError>)
    requires s.pos <= |ts|
    ensures r.Ok? ==> s.pos < r.value.pos <= |ts| && Keeps(s, r.value, [])
  {
    var s1 :- Expect(ts, s, Identifier);
    var s2 :- FuncParams(ts, s1);
    FuncBody(ts, s2)
  }

  /** The optional parenthesised parameter list. */
  function FuncParams(ts: seq<Token>, s: State): (r: Result<State, CompileError>)
    requires s.pos <= |ts|
    ensures r.Ok? ==> r.value == s.(pos := r.value.pos) && s.pos <= r.value.pos <= |ts|
  {
    if KindAt(ts, s) == LeftParlen then
      var s3 :- Params(ts, Step(ts, s));
      Expect(ts, s3, RightParlen)
    else Ok(s)
  }

  /** The parameter names, separated by commas. */
  function Params(ts: seq<Token>, s: State): (r: Result<State, CompileError>)
    requires s.pos <= |ts|
    ensures r.Ok? ==> r.value == s.(pos := r.value.pos) && s.pos < r.value.pos <= |ts|
    decreases |ts| - s.pos
  {
    var s1 :- Expect(ts, s, Identifier);
    if KindAt(ts, s1) == Comma then Params(ts, Step(ts, s1)) else Ok(s1)
  }

  /** The opening brace and the block of a function. */
  function FuncBody(ts: seq<Token>, s: State): (r: Result<State, CompileError>)
    requires s.pos <= |ts|
    ensures r.Ok? ==> s.pos < r.value.pos <= |ts| && Keeps(s, r.value, [])
  {
    var s4 :- Expect2(ts, s, LeftBrace, LeftBraceString);
    Block(ts, s4)
  }

  // ---------------------------------------------------------------------
  // The whole program

  /** toplevel: declarations of variables, constants and functions and
      statements, up to the end of the input.  An END_OF_FILE token before
      the end is a syntax error, as it is for statement. */
  function Toplevel(ts: seq<Token>, s: State): (r: Result<State, CompileError>)
    requires s.pos <= |ts|
    ensures r.Ok? ==> r.value.pos == |ts| && Keeps(s, r.value, [])
    decreases |ts| - s.pos
  {
    if KindAt(ts, s) == EndOfFile then
      if s.pos == |ts| then Ok(s) else Err(Syntax)
    else
      var s1 :- TopItem(ts, s);
      Toplevel(ts, s1)
  }

  /** One turn of toplevel's loop. */
  function TopItem(ts: seq<Token>, s: State): (r: Result<State, CompileError>)
    requires s.pos <= |ts|
    ensures r.Ok? ==> s.pos < r.value.pos <= |ts| && Keeps(s, r.value, [])
  {
    if KindAt(ts, s) == Func then FuncDecl(ts, Step(ts, s)) else Item(ts, s)
  }

  /** toplevel as written: while (1) with no way out, so the end of the
      input reaches statement, whose comma expression finds no term. */
  function ToplevelAsWritten(ts: seq<Token>, s: State): (r: Result<State, CompileError>)
    requires s.pos <= |ts|
    decreases |ts| - s.pos
  {
    var s1 :- TopItemAsWritten(ts, s);
    ToplevelAsWritten(ts, s1)
  }

  /** One turn of that loop, with constDecl as written. */
  function TopItemAsWritten(ts: seq<Token>, s: State): (r: Result<State, CompileError>)
    requires s.pos <= |ts|
    ensures r.Ok? ==> s.pos < r.value.pos <= |ts|
  {
    var k := KindAt(ts, s);
    if k == Var then VarDecl(ts, Step(ts, s))
    else if k == Const then ConstDeclAsWritten(ts, Step(ts, s))
    else if k == Func then FuncDecl(ts, Step(ts, s))
    else Statement(ts, s)
  }

  /** The state before the first token, over the table t. */
  function Start(t: TableState): (s: State)
    requires WellFormed(t)
    ensures s.pos == 0 && s.code == [] && s.table == t && s.breaks == [] && s.continues == []
  {
    CState(0, [], t, EmptyHeap, [], [], 0)
  }

  /** compile: the outermost block at FIRST_LOCAL_ADDRESS, then the top
      level. */
  function Compile(ts: seq<Token>): (r: Result<State, CompileError>)
    ensures r.Ok? ==> r.value.pos == |ts|
  {
    var t := BlockBegin(Initial(), FIRST_LOCAL_ADDRESS, FunctionBlock).value;
    Toplevel(ts, Start(t))
  }
}
