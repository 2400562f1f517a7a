/** The precedence table of the expression chain of compile.c, and one
    expression compiled end to end. */
module CompileExamples {
  import opened Results
  import opened Lexical
  import Bytecode
  import opened Compile
  import opened CompileProperties

  /** The loosest levels: || and its alias or, then && and its alias and,
      each with the opcode of its symbol. */
  lemma LogicalLevels()
    ensures LevelOf(LogicalOr) == 0 && LevelOf(LogicalOrString) == 0
    ensures BinaryOp(0, LogicalOrString) == BinaryOp(0, LogicalOr) == Some(Bytecode.LogicalOr)
    ensures LevelOf(LogicalAnd) == 1 && LevelOf(LogicalAndString) == 1
    ensures BinaryOp(1, LogicalAndString) == BinaryOp(1, LogicalAnd) == Some(Bytecode.LogicalAnd)
  {
  }

  /** Equality binds tighter than &&, comparison tighter than equality. */
  lemma RelationalLevels()
    ensures LevelOf(Equal) == 2 && LevelOf(NotEqual) == 2
    ensures LevelOf(Greater) == 3 && LevelOf(GreaterEqual) == 3
    ensures LevelOf(LessThan) == 3 && LevelOf(LessThanEqual) == 3
  {
  }

  /** Then + -, then * / % and its alias mod, and ** tightest. */
  lemma ArithmeticLevels()
    ensures LevelOf(Plus) == 4 && LevelOf(Minus) == 4
    ensures LevelOf(Mul) == 5 && LevelOf(Div) == 5
    ensures LevelOf(Mod) == 5 && LevelOf(ModString) == 5
    ensures BinaryOp(5, ModString) == BinaryOp(5, Mod) == Some(Bytecode.Mod)
    ensures LevelOf(Power) == 6
  {
  }

  /** A chain of one level leans left: a - (b - c) without its parentheses
      is no tree the chain parses, (a - b) - c is. */
  lemma LeansLeft(a: Expr, b: Expr, c: Expr)
    requires Within(a, 5) && Within(b, 5) && Within(c, 5)
    ensures Within(Binary(Minus, Binary(Minus, a, b), c), 0)
    ensures !Within(Binary(Minus, a, Binary(Minus, b, c)), 0)
  {
  }

  const Name := Token(Identifier, IdentPayload("a"))

  /** The tokens of a - a * a + a. */
  const Mixed: seq<Token> := [Name, Token(Minus, NoPayload), Name, Token(Mul, NoPayload), Name, Token(Plus, NoPayload), Name]

  /** Its tree: the product binds tighter, the sum and difference lean left. */
  const MixedTree: Expr := Binary(Plus, Binary(Minus, Atom(Name), Binary(Mul, Atom(Name), Atom(Name))), Atom(Name))

  /** a - a * a + a compiles to MUL, SUB, ADD: the product first, then the
      operators of the loosest level from left to right. */
  lemma MixedExpression(s: State)
    requires s.pos == 0 && |s.code| + 3 <= Bytecode.MAX_CODE_SIZE
    ensures Expression(Mixed, s) == Ok(s.(pos := 7, code := s.code + [Calc(Bytecode.Mul), Calc(Bytecode.Sub), Calc(Bytecode.Add)]))
  {
    assert Within(MixedTree, 0);
    assert RenderedAt(Mixed, 0, MixedTree);
    assert Postfix(MixedTree) == [Calc(Bytecode.Mul), Calc(Bytecode.Sub), Calc(Bytecode.Add)];
    assert KindAtPos(Mixed, 7) == EndOfFile;
    ExpressionPostfix(Mixed, s, MixedTree);
  }
}
