/** What the compiler of compile.c emits, stated over inputs with a known
    shape: the code of an expression is its operators in post-order, with
    the precedence and left association of the chain of levels; and the
    jumps of the loop and branch statements land where the C comments say. */
module CompileProperties {
  import opened Results
  import opened Share
  import opened Lexical
  import opened Table
  import Bytecode
  import opened Compile

  // ---------------------------------------------------------------------
  // Expressions

  /** An expression as a tree: an operand token, a parenthesised
      expression, or a binary operator applied to two expressions. */
  datatype Expr =
    | Atom(t: Token)
    | Paren(inner: Expr)
    | Binary(op: Kind, left: Expr, right: Expr)

  /** The level of the chain an operator kind belongs to; 7 for a kind that
      is no binary operator. */
  function LevelOf(k: Kind): (n: nat)
    ensures n <= 7
  {
    match BinaryOperator(k)
    case Some((level, _)) => if level <= 6 then level else 7
    case None => 7
  }

  /** Every operator kind belongs to exactly one level, the one LevelOf
      names. */
  lemma {:induction false} LevelOfOp(k: Kind, n: nat)
    requires n <= 6
    ensures BinaryOp(n, k).Some? <==> n == LevelOf(k)
  {
  }

  /** The tree is one the chain parses from level n: an operator stands at
      level n or tighter, its left operand at its own level or tighter (so
      a chain of one level leans left) and its right operand strictly
      tighter; inside parentheses any expression may stand. */
  predicate Within(e: Expr, n: nat) {
    match e
    case Atom(t) => IsOperandKind(t.kind)
    case Paren(i) => Within(i, 0)
    case Binary(op, l, r) =>
      n <= LevelOf(op) <= 6 && Within(l, LevelOf(op)) && Within(r, LevelOf(op) + 1)
  }

  /** The number of tokens of the expression, parentheses included. */
  function Size(e: Expr): (n: nat)
    ensures n > 0
  {
    match e
    case Atom(_) => 1
    case Paren(i) => Size(i) + 2
    case Binary(_, l, r) => Size(l) + 1 + Size(r)
  }

  /** The code of the expression as the compiler is meant to order it: both
      operands, then the operator's opcode; operands themselves emit
      nothing and a parenthesis adds the POP of comma_expression. */
  function Postfix(e: Expr): seq<Instruction> {
    match e
    case Atom(_) => []
    case Paren(i) => Postfix(i) + [Calc(Bytecode.Pop)]
    case Binary(op, l, r) =>
      Postfix(l) + Postfix(r)
      + (match BinaryOp(LevelOf(op), op) case Some(c) => [Calc(c)] case None => [])
  }

  /** The tokens of e stand at position p of ts: its operand tokens, its
      operator kinds and its parentheses, in order. */
  ghost predicate RenderedAt(ts: seq<Token>, p: nat, e: Expr)
    decreases e
  {
    && p + Size(e) <= |ts|
    && match e
       case Atom(t) => ts[p] == t
       case Paren(i) =>
         ts[p].kind == LeftParlen && RenderedAt(ts, p + 1, i) && ts[p + 1 + Size(i)].kind == RightParlen
       case Binary(op, l, r) =>
         RenderedAt(ts, p, l) && ts[p + Size(l)].kind == op && RenderedAt(ts, p + Size(l) + 1, r)
  }

  function KindAtPos(ts: seq<Token>, p: nat): Kind {
    if p < |ts| then ts[p].kind else EndOfFile
  }

  /** The token at p ends an operand of level m: it is no operator of a
      tighter level and no suffix operator. */
  predicate EndsLevel(ts: seq<Token>, p: nat, m: nat) {
    var k := KindAtPos(ts, p);
    !IsSuffix(k) && !(m < LevelOf(k) <= 6)
  }

  /** The state after the tokens of e, with the code of e appended. */
  function After(s: State, e: Expr): (r: State)
    requires |s.code| + |Postfix(e)| <= Bytecode.MAX_CODE_SIZE
    ensures r.pos == s.pos + Size(e) && r.code == s.code + Postfix(e)
  {
    s.(pos := s.pos + Size(e), code := s.code + Postfix(e))
  }

  /** The state after one turn of a level's loop. */
  function Turn(s: State, r: Expr, o: Bytecode.OpCode): (q: State)
    requires |s.code| + |Postfix(r)| < Bytecode.MAX_CODE_SIZE
  {
    s.(pos := s.pos + 1 + Size(r), code := s.code + Postfix(r) + [Calc(o)])
  }

  /** n tokens consumed and code appended. */
  function Skip(s: State, n: nat, tail: seq<Instruction>): (r: State)
    requires |s.code| + |tail| <= Bytecode.MAX_CODE_SIZE
    ensures r.pos == s.pos + n && r.code == s.code + tail
  {
    s.(pos := s.pos + n, code := s.code + tail)
  }

  /** A token kind that ends an expression: no suffix operator and no
      binary operator. */
  predicate Stops(k: Kind) {
    !IsSuffix(k) && LevelOf(k) == 7
  }

  // One step of a compile function of the chain each, over states the
  // steps before it produced.

  /** A level whose operand compiled to a continues with its loop at a. */
  lemma {:induction false} LevelStep(ts: seq<Token>, s: State, m: nat, a: State)
    requires m <= 6 && s.pos <= |ts| && Operand(ts, s, m) == Ok(a)
    ensures BinaryLevel(ts, s, m) == BinaryRest(ts, a, m)
  {
  }

  /** The loop of level m stops at a token that is no operator of level m. */
  lemma {:induction false} RestDone(ts: seq<Token>, a: State, m: nat)
    requires m <= 6 && a.pos <= |ts| && LevelOf(KindAtPos(ts, a.pos)) != m
    ensures BinaryRest(ts, a, m) == Ok(a)
  {
    LevelOfOp(KindAtPos(ts, a.pos), m);
  }

  /** An operand below the tightest level is the next level. */
  lemma {:induction false} OperandStep(ts: seq<Token>, s: State, m: nat, a: State)
    requires m < 6 && s.pos <= |ts| && BinaryLevel(ts, s, m + 1) == Ok(a)
    ensures Operand(ts, s, m) == Ok(a)
  {
  }

  /** An expression is the loosest level. */
  lemma {:induction false} ExpressionStep(ts: seq<Token>, s: State, a: State)
    requires s.pos <= |ts| && BinaryLevel(ts, s, 0) == Ok(a)
    ensures Expression(ts, s) == Ok(a)
  {
  }

  /** One turn of the loop of level m whose operand compiled to a. */
  lemma {:induction false} RestTurn(ts: seq<Token>, s: State, m: nat, o: Bytecode.OpCode, a: State, q: State)
    requires m <= 6 && s.pos < |ts| && BinaryOp(m, KindAt(ts, s)) == Some(o)
    requires Operand(ts, Step(ts, s), m) == Ok(a) && |a.code| < Bytecode.MAX_CODE_SIZE
    requires q == a.(code := a.code + [Calc(o)])
    ensures BinaryRest(ts, s, m) == BinaryRest(ts, q, m)
  {
  }

  /** A term without prefix and suffix operators. */
  lemma {:induction false} UnaryStep(ts: seq<Token>, s: State, a: State)
    requires s.pos <= |ts| && !IsPrefix(KindAt(ts, s)) && Term(ts, s) == Ok(a)
    requires !IsSuffix(KindAt(ts, a))
    ensures UnaryExpression(ts, s) == Ok(a)
  {
  }

  /** '(' comma_expression ')' once the comma expression compiled to a. */
  lemma {:induction false} ParenStep(ts: seq<Token>, s: State, a: State, q: State)
    requires s.pos < |ts| && ts[s.pos].kind == LeftParlen
    requires CommaExpression(ts, Step(ts, s)) == Ok(a) && KindAt(ts, a) == RightParlen
    requires q == Step(ts, a)
    ensures Term(ts, s) == Ok(q)
  {
  }

  /** A comma expression of one expression that compiled to a. */
  lemma {:induction false} CommaStep(ts: seq<Token>, s: State, a: State, q: State)
    requires s.pos <= |ts| && Expression(ts, s) == Ok(a) && |a.code| < Bytecode.MAX_CODE_SIZE
    requires KindAtPos(ts, a.pos) != Comma && q == a.(code := a.code + [Calc(Bytecode.Pop)])
    ensures CommaExpression(ts, s) == Ok(q)
  {
  }

  // The chain over a tree.

  /** The main statement about the expression chain: compiling a tree's
      tokens gives the tree's post-order code, whatever the state before. */
  lemma {:induction false} ExpressionPostfix(ts: seq<Token>, s: State, e: Expr)
    requires Within(e, 0) && RenderedAt(ts, s.pos, e)
    requires |s.code| + |Postfix(e)| <= Bytecode.MAX_CODE_SIZE
    requires Stops(KindAtPos(ts, s.pos + Size(e)))
    ensures Expression(ts, s) == Ok(After(s, e))
    decreases e, 7, 3
  {
    Chain(ts, s, e, 0);
    var a := After(s, e);
    RestDone(ts, a, 0);
    ExpressionStep(ts, s, a);
  }

  /** Level m compiles e and leaves its loop at the token after e. */
  lemma {:induction false} Chain(ts: seq<Token>, s: State, e: Expr, m: nat)
    requires m <= 6 && Within(e, m) && RenderedAt(ts, s.pos, e)
    requires |s.code| + |Postfix(e)| <= Bytecode.MAX_CODE_SIZE
    requires EndsLevel(ts, s.pos + Size(e), m)
    ensures BinaryLevel(ts, s, m) == BinaryRest(ts, After(s, e), m)
    decreases e, 7 - m, 2
  {
    if e.Binary? && LevelOf(e.op) == m {
      ChainBinary(ts, s, e, m);
    } else {
      OperandOf(ts, s, e, m);
      LevelStep(ts, s, m, After(s, e));
    }
  }

  /** An operator of level m itself: its left operand through the loop of
      level m, then one turn of that loop. */
  lemma {:induction false} ChainBinary(ts: seq<Token>, s: State, e: Expr, m: nat)
    requires m <= 6 && e.Binary? && LevelOf(e.op) == m && Within(e, m) && RenderedAt(ts, s.pos, e)
    requires |s.code| + |Postfix(e)| <= Bytecode.MAX_CODE_SIZE
    requires EndsLevel(ts, s.pos + Size(e), m)
    ensures BinaryLevel(ts, s, m) == BinaryRest(ts, After(s, e), m)
    decreases e, 7 - m, 1
  {
    LeftParts(ts, s, e, m);
    Chain(ts, s, e.left, m);
    var o := RightParts(ts, s, e, m);
    TurnOf(ts, After(s, e.left), e.right, m, o);
    TurnAfter(s, e, o);
  }

  /** The left operand of an operator of level m stands at s, at level m,
      and ends that level. */
  lemma {:induction false} LeftParts(ts: seq<Token>, s: State, e: Expr, m: nat)
    requires m <= 6 && e.Binary? && LevelOf(e.op) == m && Within(e, m) && RenderedAt(ts, s.pos, e)
    requires |s.code| + |Postfix(e)| <= Bytecode.MAX_CODE_SIZE
    ensures Within(e.left, m) && RenderedAt(ts, s.pos, e.left)
    ensures |s.code| + |Postfix(e.left)| <= Bytecode.MAX_CODE_SIZE
    ensures EndsLevel(ts, s.pos + Size(e.left), m)
  {
    LevelOfOp(e.op, m);
  }

  /** After the left operand stand the operator token, with opcode o, and
      the right operand, at a tighter level and ending level m. */
  lemma {:induction false} RightParts(ts: seq<Token>, s: State, e: Expr, m: nat) returns (o: Bytecode.OpCode)
    requires m <= 6 && e.Binary? && LevelOf(e.op) == m && Within(e, m) && RenderedAt(ts, s.pos, e)
    requires |s.code| + |Postfix(e)| <= Bytecode.MAX_CODE_SIZE
    requires EndsLevel(ts, s.pos + Size(e), m)
    ensures var sl := After(s, e.left);
      && sl.pos < |ts| && BinaryOp(m, ts[sl.pos].kind) == Some(o)
      && Within(e.right, m + 1) && RenderedAt(ts, sl.pos + 1, e.right)
      && |sl.code| + |Postfix(e.right)| < Bytecode.MAX_CODE_SIZE
      && EndsLevel(ts, sl.pos + 1 + Size(e.right), m)
    ensures Postfix(e) == Postfix(e.left) + Postfix(e.right) + [Calc(o)]
  {
    LevelOfOp(e.op, m);
    o := BinaryOp(m, e.op).value;
    var sl := After(s, e.left);
    assert sl.pos == s.pos + Size(e.left);
    assert sl.pos + 1 + Size(e.right) == s.pos + Size(e);
  }

  /** One turn over the right operand ends where the operator does. */
  lemma {:induction false} TurnAfter(s: State, e: Expr, o: Bytecode.OpCode)
    requires e.Binary? && |s.code| + |Postfix(e)| <= Bytecode.MAX_CODE_SIZE
    requires Postfix(e) == Postfix(e.left) + Postfix(e.right) + [Calc(o)]
    ensures Turn(After(s, e.left), e.right, o) == After(s, e)
  {
    Assoc(s.code, Postfix(e.left), Postfix(e.right) + [Calc(o)]);
    Assoc(Postfix(e.left), Postfix(e.right), [Calc(o)]);
  }

  lemma {:induction false} Assoc(a: seq<Instruction>, b: seq<Instruction>, c: seq<Instruction>)
    ensures a + b + c == a + (b + c)
  {
  }

  /** One turn of the loop of level m over an operator token and a right
      operand of a tighter level. */
  lemma {:induction false} TurnOf(ts: seq<Token>, s: State, r: Expr, m: nat, o: Bytecode.OpCode)
    requires m <= 6 && s.pos < |ts| && BinaryOp(m, ts[s.pos].kind) == Some(o)
    requires Within(r, m + 1) && RenderedAt(ts, s.pos + 1, r)
    requires |s.code| + |Postfix(r)| < Bytecode.MAX_CODE_SIZE
    requires EndsLevel(ts, s.pos + 1 + Size(r), m)
    ensures BinaryRest(ts, s, m) == BinaryRest(ts, Turn(s, r, o), m)
    decreases r, 7 - m, 3
  {
    var s1 := Step(ts, s);
    assert s1.pos == s.pos + 1;
    OperandOf(ts, s1, r, m);
    RestTurn(ts, s, m, o, After(s1, r), Turn(s, r, o));
  }

  /** The operand of level m: a tree of a tighter level is compiled whole. */
  lemma {:induction false} OperandOf(ts: seq<Token>, s: State, e: Expr, m: nat)
    requires m <= 6 && Within(e, m + 1) && RenderedAt(ts, s.pos, e)
    requires |s.code| + |Postfix(e)| <= Bytecode.MAX_CODE_SIZE
    requires EndsLevel(ts, s.pos + Size(e), m)
    ensures Operand(ts, s, m) == Ok(After(s, e))
    decreases e, 7 - m, 1
  {
    if m < 6 {
      OperandLevel(ts, s, e, m);
    } else if e.Atom? {
      AtomUnary(ts, s, e);
    } else {
      ParenUnary(ts, s, e);
    }
  }

  /** The operand of a level below the tightest: the next level, whose loop
      stops after e. */
  lemma {:induction false} OperandLevel(ts: seq<Token>, s: State, e: Expr, m: nat)
    requires m < 6 && Within(e, m + 1) && RenderedAt(ts, s.pos, e)
    requires |s.code| + |Postfix(e)| <= Bytecode.MAX_CODE_SIZE
    requires EndsLevel(ts, s.pos + Size(e), m)
    ensures Operand(ts, s, m) == Ok(After(s, e))
    decreases e, 7 - m, 0
  {
    Chain(ts, s, e, m + 1);
    var a := After(s, e);
    RestDone(ts, a, m + 1);
    OperandStep(ts, s, m, a);
  }

  /** A unary expression of an operand token: the token is consumed and
      emits nothing. */
  lemma {:induction false} AtomUnary(ts: seq<Token>, s: State, e: Expr)
    requires e.Atom? && Within(e, 0) && RenderedAt(ts, s.pos, e)
    requires |s.code| + |Postfix(e)| <= Bytecode.MAX_CODE_SIZE
    requires !IsSuffix(KindAtPos(ts, s.pos + Size(e)))
    ensures UnaryExpression(ts, s) == Ok(After(s, e))
  {
    assert s.code + Postfix(e) == s.code;
    UnaryStep(ts, s, After(s, e));
  }

  /** A unary expression of a parenthesised tree. */
  lemma {:induction false} ParenUnary(ts: seq<Token>, s: State, e: Expr)
    requires e.Paren? && Within(e, 0) && RenderedAt(ts, s.pos, e)
    requires |s.code| + |Postfix(e)| <= Bytecode.MAX_CODE_SIZE
    requires !IsSuffix(KindAtPos(ts, s.pos + Size(e)))
    ensures UnaryExpression(ts, s) == Ok(After(s, e))
    decreases e, 0, 2
  {
    ParenOf(ts, s, e);
    UnaryStep(ts, s, After(s, e));
  }

  /** The '(' case of term over a parenthesised tree. */
  lemma {:induction false} ParenOf(ts: seq<Token>, s: State, e: Expr)
    requires e.Paren? && Within(e, 0) && RenderedAt(ts, s.pos, e)
    requires |s.code| + |Postfix(e)| <= Bytecode.MAX_CODE_SIZE
    ensures Term(ts, s) == Ok(After(s, e))
    decreases e, 0, 1
  {
    assert ParenAt(ts, s.pos, e.inner);
    ParenInner(ts, s, e.inner);
    var s1 := Step(ts, s);
    CommaOf(ts, s1, e.inner);
    var a := Skip(s1, Size(e.inner), Postfix(e.inner) + [Calc(Bytecode.Pop)]);
    ParenStep(ts, s, a, After(s, e));
  }

  /** A comma expression of one expression: the expression and its POP. */
  lemma {:induction false} CommaOf(ts: seq<Token>, s: State, e: Expr)
    requires Within(e, 0) && RenderedAt(ts, s.pos, e)
    requires |s.code| + |Postfix(e)| < Bytecode.MAX_CODE_SIZE
    requires Stops(KindAtPos(ts, s.pos + Size(e))) && KindAtPos(ts, s.pos + Size(e)) != Comma
    ensures CommaExpression(ts, s) == Ok(Skip(s, Size(e), Postfix(e) + [Calc(Bytecode.Pop)]))
    decreases e, 8, 0
  {
    ExpressionPostfix(ts, s, e);
    var a := After(s, e);
    CommaStep(ts, s, a, Skip(s, Size(e), Postfix(e) + [Calc(Bytecode.Pop)]));
  }

  // ---------------------------------------------------------------------
  // Assignment and case values

  /** The code of "x op e" once e compiles to rhs: PUSH_VALUE x first when
      op is a compound operator, then rhs with the POP of comma_expression,
      the operator's opcode and POP_VARIABLE x. */
  function AssignCode(op: Kind, index: nat, rhs: seq<Instruction>): seq<Instruction> {
    PushFirst(op, index) + rhs + [Calc(Bytecode.Pop)] + StoreCode(op, index)
  }

  function PushFirst(op: Kind, index: nat): seq<Instruction> {
    if op != Assign then [OnTable(Bytecode.PushValue, index)] else []
  }

  function StoreCode(op: Kind, index: nat): seq<Instruction> {
    (match AssignOpCode(op) case Some(c) => [Calc(c)] case None => []) + [OnTable(Bytecode.PopVariable, index)]
  }

  /** An assignment to a variable or parameter whose right-hand side is a
      tree compiles to AssignCode and consumes the operator and the tree. */
  lemma {:induction false} AssignOf(ts: seq<Token>, s: State, index: nat, e: Expr) returns (n: nat, rhs: seq<Instruction>)
    requires index < MAX_TABLE_SIZE && s.pos < |ts| && IsAssignOp(ts[s.pos].kind)
    requires GetTableKind(s.table, index) == VarIdentifier || GetTableKind(s.table, index) == ParamIdentifier
    requires Within(e, 0) && RenderedAt(ts, s.pos + 1, e)
    requires Stops(KindAtPos(ts, s.pos + 1 + Size(e))) && KindAtPos(ts, s.pos + 1 + Size(e)) != Comma
    requires |s.code| + |Postfix(e)| + 4 <= Bytecode.MAX_CODE_SIZE
    ensures n == Size(e) && rhs == Postfix(e)
    ensures AssignStatement(ts, s, index) == Ok(Skip(s, 1 + n, AssignCode(ts[s.pos].kind, index, rhs)))
  {
    n, rhs := Size(e), Postfix(e);
    var op := ts[s.pos].kind;
    var s1, s2 := AssignRight(ts, s, e, PushFirst(op, index));
    var q := StoreOf(s2, index, op);
    AssignStep(ts, s, index, s1, s2, q);
    AssignJoin(s, s1, s2, q, n, op, index, rhs);
  }

  /** The right-hand side of an assignment, after the operator and the
      code push put before it. */
  lemma {:induction false} AssignRight(ts: seq<Token>, s: State, e: Expr, push: seq<Instruction>)
    returns (s1: State, s2: State)
    requires Within(e, 0) && RenderedAt(ts, s.pos + 1, e) && |push| <= 1
    requires Stops(KindAtPos(ts, s.pos + 1 + Size(e))) && KindAtPos(ts, s.pos + 1 + Size(e)) != Comma
    requires |s.code| + |Postfix(e)| + 4 <= Bytecode.MAX_CODE_SIZE
    ensures s1 == Skip(s, 1, push) && s2 == Skip(s1, Size(e), Postfix(e) + [Calc(Bytecode.Pop)])
    ensures CommaExpression(ts, s1) == Ok(s2)
  {
    s1 := Skip(s, 1, push);
    OneOn(ts, s, s1, e);
    CommaOf(ts, s1, e);
    s2 := Skip(s1, Size(e), Postfix(e) + [Calc(Bytecode.Pop)]);
  }

  /** A tree one token after s starts at the position of s1, one token and
      one instruction on, with the same token after it and room for its code. */
  lemma {:induction false} OneOn(ts: seq<Token>, s: State, s1: State, e: Expr)
    requires s1.pos == s.pos + 1 && |s1.code| <= |s.code| + 1 && |s.code| + |Postfix(e)| + 1 <= Bytecode.MAX_CODE_SIZE
    requires RenderedAt(ts, s.pos + 1, e) && Stops(KindAtPos(ts, s.pos + 1 + Size(e)))
    ensures RenderedAt(ts, s1.pos, e) && Stops(KindAtPos(ts, s1.pos + Size(e)))
    ensures KindAtPos(ts, s1.pos + Size(e)) == KindAtPos(ts, s.pos + 1 + Size(e))
    ensures |s1.code| + |Postfix(e)| <= Bytecode.MAX_CODE_SIZE
  {
  }

  /** assign_statement with an assignment operator and a variable target,
      once the right-hand side compiled to a and the store gave q. */
  lemma {:induction false} AssignStep(ts: seq<Token>, s: State, index: nat, s1: State, a: State, q: State)
    requires index < MAX_TABLE_SIZE && s.pos < |ts| && IsAssignOp(ts[s.pos].kind) && |s.code| < Bytecode.MAX_CODE_SIZE
    requires GetTableKind(s.table, index) == VarIdentifier || GetTableKind(s.table, index) == ParamIdentifier
    requires s1 == Skip(s, 1, PushFirst(ts[s.pos].kind, index))
    requires CommaExpression(ts, s1) == Ok(a) && AssignStore(a, index, ts[s.pos].kind) == Ok(q)
    ensures AssignStatement(ts, s, index) == Ok(q)
  {
    var op := ts[s.pos].kind;
    var p := if op != Assign then Emit(s, OnTable(Bytecode.PushValue, index)) else Ok(s);
    assert p.Ok? && Step(ts, p.value) == s1;
  }

  /** The store of an assignment with room for it: the operator's opcode,
      if any, and POP_VARIABLE. */
  lemma {:induction false} StoreOf(s: State, index: nat, op: Kind) returns (q: State)
    requires |s.code| + 2 <= Bytecode.MAX_CODE_SIZE
    ensures AssignStore(s, index, op) == Ok(q)
    ensures q == s.(code := s.code + StoreCode(op, index))
  {
    q := AssignStore(s, index, op).value;
  }

  /** The states of an assignment put together. */
  lemma {:induction false} AssignJoin(s: State, s1: State, s2: State, q: State, n: nat, op: Kind, index: nat,
                                      rhs: seq<Instruction>)
    requires |s.code| + |rhs| + 4 <= Bytecode.MAX_CODE_SIZE
    requires s1 == Skip(s, 1, PushFirst(op, index)) && s2 == Skip(s1, n, rhs + [Calc(Bytecode.Pop)])
    requires q == s2.(code := s2.code + StoreCode(op, index))
    ensures q == Skip(s, 1 + n, AssignCode(op, index, rhs))
  {
    Assoc(PushFirst(op, index), rhs, [Calc(Bytecode.Pop)]);
    Assoc4(s.code, PushFirst(op, index), rhs + [Calc(Bytecode.Pop)], StoreCode(op, index));
  }

  /** One case value that is a tree, after the "case" or "," token:
      DUPLICATE, the tree's code, EQUAL and an open JUMP_IF_TRUE. */
  lemma {:induction false} CaseValueOf(ts: seq<Token>, s: State, e: Expr) returns (n: nat, v: seq<Instruction>)
    requires s.pos < |ts| && Within(e, 0) && RenderedAt(ts, s.pos + 1, e)
    requires Stops(KindAtPos(ts, s.pos + 1 + Size(e)))
    requires |s.code| + |Postfix(e)| + 3 <= Bytecode.MAX_CODE_SIZE
    ensures n == Size(e) && v == Postfix(e)
    ensures CaseValue(ts, s) == Ok(Skip(s, 1 + n, CaseCode(v)))
  {
    var s1, a;
    s1, a, n, v := CaseRight(ts, s, e);
    CaseValueStep(ts, s, s1, a);
    CaseJoin(s, s1, a, n, v);
  }

  /** The expression of a case value, after its DUPLICATE. */
  lemma {:induction false} CaseRight(ts: seq<Token>, s: State, e: Expr) returns (s1: State, a: State, n: nat, v: seq<Instruction>)
    requires Within(e, 0) && RenderedAt(ts, s.pos + 1, e)
    requires Stops(KindAtPos(ts, s.pos + 1 + Size(e)))
    requires |s.code| + |Postfix(e)| + 3 <= Bytecode.MAX_CODE_SIZE
    ensures n == Size(e) && v == Postfix(e) && |s.code| + |v| + 3 <= Bytecode.MAX_CODE_SIZE
    ensures s1 == Skip(s, 1, [Calc(Bytecode.Duplicate)])
    ensures a == s1.(pos := s1.pos + n, code := s1.code + v) && Expression(ts, s1) == Ok(a)
  {
    n, v := Size(e), Postfix(e);
    s1 := Skip(s, 1, [Calc(Bytecode.Duplicate)]);
    OneOn(ts, s, s1, e);
    ExpressionPostfix(ts, s1, e);
    a := After(s1, e);
  }

  /** The code of one case value whose expression compiles to v. */
  function CaseCode(v: seq<Instruction>): seq<Instruction> {
    [Calc(Bytecode.Duplicate)] + v + [Calc(Bytecode.Equal), JumpTo(Bytecode.JumpIfTrue, 0)]
  }

  /** A case value once its expression compiled to a. */
  lemma {:induction false} CaseValueStep(ts: seq<Token>, s: State, s1: State, a: State)
    requires s.pos < |ts| && |s.code| < Bytecode.MAX_CODE_SIZE && s1 == Skip(s, 1, [Calc(Bytecode.Duplicate)])
    requires Expression(ts, s1) == Ok(a) && |a.code| + 2 <= Bytecode.MAX_CODE_SIZE
    ensures CaseValue(ts, s) == Ok(a.(code := a.code + [Calc(Bytecode.Equal), JumpTo(Bytecode.JumpIfTrue, 0)]))
  {
    assert Emit(s, Calc(Bytecode.Duplicate)) == Ok(s.(code := s.code + [Calc(Bytecode.Duplicate)]));
    assert Step(ts, s.(code := s.code + [Calc(Bytecode.Duplicate)])) == s1;
  }

  /** The states of a case value put together. */
  lemma {:induction false} CaseJoin(s: State, s1: State, a: State, n: nat, v: seq<Instruction>)
    requires |s.code| + |v| + 3 <= Bytecode.MAX_CODE_SIZE
    requires s1 == Skip(s, 1, [Calc(Bytecode.Duplicate)]) && a == s1.(pos := s1.pos + n, code := s1.code + v)
    ensures a.(code := a.code + [Calc(Bytecode.Equal), JumpTo(Bytecode.JumpIfTrue, 0)]) == Skip(s, 1 + n, CaseCode(v))
  {
    Assoc4(s.code, [Calc(Bytecode.Duplicate)], v, [Calc(Bytecode.Equal), JumpTo(Bytecode.JumpIfTrue, 0)]);
  }

  lemma {:induction false} Assoc4(a: seq<Instruction>, b: seq<Instruction>, c: seq<Instruction>, d: seq<Instruction>)
    ensures a + b + c + d == a + (b + c + d)
  {
    Assoc(a, b, c);
    Assoc(a + b, c, d);
    Assoc(a, b + c, d);
    Assoc(b, c, d);
  }

  // ---------------------------------------------------------------------
  // Loops

  /** What the end of a loop does to the code b of its body: one JUMP back
      to loop, the exit jump at endLabel (opcode op) landing past it, every
      pending break there too, every pending continue at loop, and nothing
      else of the body changed. */
  ghost predicate LoopClosed(b: CState, r: CState, loop: nat, endLabel: nat, op: Bytecode.OpCode) {
    && |r.code| == |b.code| + 1 && r.pos == b.pos
    && r.code[|b.code|] == JumpTo(Bytecode.Jump, loop)
    && endLabel < |b.code| && r.code[endLabel] == JumpTo(op, |b.code| + 1)
    && (forall i | 0 <= i < |b.breaks| && b.breaks[i] < |b.code| ::
          r.code[b.breaks[i]] == Bytecode.Instruction(b.code[b.breaks[i]].opcode, Bytecode.JumpPc(|b.code| + 1)))
    && (forall i | 0 <= i < |b.continues| && b.continues[i] < |b.code| && b.continues[i] !in b.breaks ::
          r.code[b.continues[i]] == Bytecode.Instruction(b.code[b.continues[i]].opcode, Bytecode.JumpPc(loop)))
    && (forall i | 0 <= i < |b.code| && i != endLabel && i !in b.breaks && i !in b.continues ::
          r.code[i] == b.code[i])
  }

  /** The common end of while and for: once the body compiles, the loop
      closes as LoopClosed says, or the back jump overflows the buffer. */
  lemma {:induction false} LoopTailJumps(ts: seq<Token>, s: State, loop: nat, endLabel: nat)
    requires s.pos <= |ts| && endLabel < |s.code|
    requires Block(ts, Unpend(s)).Ok?
    ensures var b := Block(ts, Unpend(s)).value;
      && (LoopTail(ts, s, loop, endLabel).Ok? <==> |b.code| < Bytecode.MAX_CODE_SIZE)
      && (LoopTail(ts, s, loop, endLabel).Ok? ==>
            LoopClosed(b, LoopTail(ts, s, loop, endLabel).value, loop, endLabel, s.code[endLabel].opcode))
      && (LoopTail(ts, s, loop, endLabel).Err? ==> LoopTail(ts, s, loop, endLabel).error == CodeOverflow)
  {
    var b := Block(ts, Unpend(s)).value;
    if |b.code| < Bytecode.MAX_CODE_SIZE {
      var s7 := b.(code := b.code + [JumpTo(Bytecode.Jump, loop)]);
      var p := Patch(s7, endLabel);
      LoopEndJumps(p, b, loop, endLabel, s.code[endLabel].opcode);
    }
  }

  /** LoopEnd over the body followed by its back jump, with the exit jump
      patched. */
  lemma {:induction false} LoopEndJumps(p: State, b: State, loop: nat, endLabel: nat, op: Bytecode.OpCode)
    requires endLabel < b.loopStart && |b.code| < Bytecode.MAX_CODE_SIZE
    requires p.breaks == b.breaks && p.continues == b.continues && p.loopStart == b.loopStart && p.pos == b.pos
    requires b.code[endLabel].opcode == op
    requires p.code == Bytecode.Patched(b.code + [JumpTo(Bytecode.Jump, loop)], endLabel, |b.code| + 1)
    ensures LoopClosed(b, LoopEnd(p, loop), loop, endLabel, op)
  {
    var r := LoopEnd(p, loop);
    assert p.code[|b.code|] == JumpTo(Bytecode.Jump, loop);
    forall i | 0 <= i < |b.code| && i != endLabel
      ensures p.code[i] == b.code[i]
    {
      assert p.code[i] == (b.code + [JumpTo(Bytecode.Jump, loop)])[i];
    }
  }

  /** '(' e ')' stands at p. */
  ghost predicate ParenAt(ts: seq<Token>, p: nat, e: Expr) {
    && KindAtPos(ts, p) == LeftParlen && Within(e, 0) && RenderedAt(ts, p + 1, e)
    && KindAtPos(ts, p + 1 + Size(e)) == RightParlen
  }

  /** A parenthesised condition compiles to the code of its expression. */
  lemma {:induction false} ParenthesisedOf(ts: seq<Token>, s: State, e: Expr)
    requires ParenAt(ts, s.pos, e) && |s.code| + |Postfix(e)| <= Bytecode.MAX_CODE_SIZE
    ensures Parenthesised(ts, s) == Ok(Skip(s, Size(e) + 2, Postfix(e)))
  {
    var s1 := Step(ts, s);
    ParenInner(ts, s, e);
    ExpressionPostfix(ts, s1, e);
    var s2 := After(s1, e);
    ParenthesisedStep(ts, s, s2);
    ParenClose(ts, s, e);
  }

  /** Inside '(' e ')': e starts one token on and is followed by ')'. */
  lemma ParenInner(ts: seq<Token>, s: State, e: Expr)
    requires ParenAt(ts, s.pos, e)
    ensures s.pos < |ts| && ts[s.pos].kind == LeftParlen
    ensures Within(e, 0) && RenderedAt(ts, Step(ts, s).pos, e)
    ensures Step(ts, s).pos + Size(e) < |ts| && ts[Step(ts, s).pos + Size(e)].kind == RightParlen
    ensures KindAtPos(ts, Step(ts, s).pos + Size(e)) == RightParlen
    ensures Stops(KindAtPos(ts, Step(ts, s).pos + Size(e)))
  {
    assert Step(ts, s).pos == s.pos + 1;
  }

  /** Consuming the ')' after e leaves the state e's rendering predicts. */
  lemma ParenClose(ts: seq<Token>, s: State, e: Expr)
    requires s.pos < |ts| && |s.code| + |Postfix(e)| <= Bytecode.MAX_CODE_SIZE
    requires After(Step(ts, s), e).pos < |ts|
    ensures Step(ts, After(Step(ts, s), e)) == Skip(s, Size(e) + 2, Postfix(e))
  {
  }

  /** '(' expression ')' once the expression is compiled to a. */
  lemma {:induction false} ParenthesisedStep(ts: seq<Token>, s: State, a: State)
    requires s.pos < |ts| && ts[s.pos].kind == LeftParlen
    requires Expression(ts, Step(ts, s)) == Ok(a) && a.pos < |ts| && ts[a.pos].kind == RightParlen
    ensures Parenthesised(ts, s) == Ok(Step(ts, a))
  {
  }

  /** The head of an if, elsif or while: the condition's code, an open
      JUMP_IF_FALSE, and the brace consumed. */
  lemma {:induction false} BranchHeadOf(ts: seq<Token>, s: State, e: Expr)
    requires ParenAt(ts, s.pos, e) && |s.code| + |Postfix(e)| < Bytecode.MAX_CODE_SIZE
    requires KindAtPos(ts, s.pos + Size(e) + 2) == LeftBrace || KindAtPos(ts, s.pos + Size(e) + 2) == LeftBraceString
    ensures BranchHead(ts, s) == Ok(Skip(s, Size(e) + 3, Postfix(e) + [JumpTo(Bytecode.JumpIfFalse, 0)]))
  {
    ParenthesisedOf(ts, s, e);
    var s1 := Skip(s, Size(e) + 2, Postfix(e));
    var s4 := s1.(code := s1.code + [JumpTo(Bytecode.JumpIfFalse, 0)]);
    assert Condition(ts, s) == Ok(s4);
    assert KindAt(ts, s4) in {LeftBrace, LeftBraceString};
    assert Step(ts, s4) == Skip(s, Size(e) + 3, Postfix(e) + [JumpTo(Bytecode.JumpIfFalse, 0)]);
  }

  /** The tail of a do-while: the keyword while, the condition's code and a
      JUMP_IF_TRUE back to the loop label. */
  lemma {:induction false} DoWhileTailOf(ts: seq<Token>, s: State, e: Expr, loop: nat)
    requires KindAtPos(ts, s.pos) == While && ParenAt(ts, s.pos + 1, e)
    requires |s.code| + |Postfix(e)| < Bytecode.MAX_CODE_SIZE
    ensures DoWhileTail(ts, s, loop) == Ok(Skip(s, Size(e) + 3, Postfix(e) + [JumpTo(Bytecode.JumpIfTrue, loop)]))
  {
    var s3 := Step(ts, s);
    assert Expect(ts, s, While) == Ok(s3) && s3.pos == s.pos + 1;
    ParenthesisedOf(ts, s3, e);
    var j := JumpTo(Bytecode.JumpIfTrue, loop);
    var s6 := Skip(s3, Size(e) + 2, Postfix(e));
    Assoc(s.code, Postfix(e), [j]);
    assert s6.(code := s6.code + [j]) == Skip(s, Size(e) + 3, Postfix(e) + [j]);
  }
}
