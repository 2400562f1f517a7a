/** The three places where compile.c compiles but does something else than
    its structure intends, each shown on an input: the function modelling
    the code as written fails where the corrected one, which the rest of
    the model uses, succeeds. */
module CompileFindings {
  import opened Results
  import opened Share
  import opened Lexical
  import opened Table
  import opened Compile

  /** toplevel as written never returns: every program, the empty one
      included, ends in a compile error. */
  lemma {:induction false} ToplevelAsWrittenFails(ts: seq<Token>, s: State)
    requires s.pos <= |ts|
    ensures ToplevelAsWritten(ts, s).Err?
    decreases |ts| - s.pos
  {
    var r1 := TopItemAsWritten(ts, s);
    if r1.Ok? {
      ToplevelAsWrittenFails(ts, r1.value);
    }
  }

  /** The empty program: the corrected top level stops at END_OF_FILE with
      nothing emitted. */
  lemma EmptyProgram(s: State)
    requires s.pos == 0
    ensures ToplevelAsWritten([], s).Err?
    ensures Toplevel([], s) == Ok(s)
  {
    ToplevelAsWrittenFails([], s);
  }

  /** An empty first branch "}": corrected, the brace ends it. */
  lemma EmptyIfBody(s: State)
    requires s.pos == 0
    ensures IfBodyAsWritten([Token(RightBrace, NoPayload)], s).Err?
    ensures IfBody([Token(RightBrace, NoPayload)], s) == Ok(s.(pos := 1))
  {
  }

  /** The tokens of the declaration "a = 1". */
  const ConstA: seq<Token> := [Token(Identifier, IdentPayload("a")), Token(Assign, NoPayload), Token(IntLiteral, IntPayload(1))]

  /** "a = 1" as written: constDecl checks the name itself against ASSIGN
      and stops with a syntax error. */
  lemma ConstDeclAsWrittenRejects(s: State)
    requires s.pos == 0
    ensures ConstDeclAsWritten(ConstA, s) == Err(Syntax)
  {
    assert KindAt(ConstA, s) == Identifier;
  }

  /** "a = 1" corrected: the constant a with value 1 becomes the newest
      entry of the table, and no code is emitted. */
  lemma ConstDeclAccepts(s: State)
    requires s.pos == 0 && AddConst(s.table, "a", IntValue(1)).Ok?
    ensures ConstDecl(ConstA, s).Ok?
    ensures ConstDecl(ConstA, s).value.table == AddConst(s.table, "a", IntValue(1)).value.0
    ensures ConstDecl(ConstA, s).value.code == s.code
  {
    var s1 := Step(ConstA, Step(ConstA, s));
    assert Expect(ConstA, Step(ConstA, s), Assign) == Ok(s1);
    assert LiteralValue(s1.heap, Peek(ConstA, s1)) == Ok((IntValue(1), s1.heap));
    var c := ConstValue(ConstA, s1, "a");
    assert c.Ok? && c.value.table == AddConst(s.table, "a", IntValue(1)).value.0;
    assert ConstItem(ConstA, s) == c;
    assert c.value.pos == 3 && KindAt(ConstA, c.value) == EndOfFile;
    assert SkipSemicolon(ConstA, c.value) == c.value;
    assert ConstMore(ConstA, c.value) == Ok(c.value);
    assert ConstDecl(ConstA, s) == ConstMore(ConstA, c.value);
  }
}
