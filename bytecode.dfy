/** The bytecode buffer (generate.h, with the buffer state of generate.c):
    an append-only array of instructions whose jump targets can be patched. */
module Bytecode {
  import opened Share

  /** generate.h sets MAX_CODE_SIZE to 1000, but generate.c redefines it to
      500 after the include, and generate.c owns the buffer. */
  const MAX_CODE_SIZE: nat := 500

  /** LVM_OpCode, in declaration order. */
  datatype OpCode =
    | MoveStackP
    | PushImmediate | PushValue | PopVariable | Pop | Duplicate
    | Jump | JumpIfTrue | JumpIfFalse
    | Invoke | Return
    | Minus | LogicalNot | Increment | Decrement
    | Add | Sub | Mul | Div | Mod | Pow
    | LogicalAnd | LogicalOr
    | Equal | NotEqual | Greater | GreaterEqual | LessThan | LessThanEqual

  /** The binary opcodes: each replaces the two top values of the stack by
      (second from top) op (top). */
  predicate IsBinary(op: OpCode) {
    op in {Add, Sub, Mul, Div, Mod, Pow, LogicalAnd, LogicalOr,
           Equal, NotEqual, Greater, GreaterEqual, LessThan, LessThanEqual}
  }

  /** The operand union of LVM_Instruction.  genCodeTable is documented to
      take a name-table index, and the model records exactly that index. */
  datatype Operand =
    | NoOperand
    | TableIndex(index: int)
    | ImmediateValue(value: Value)
    | JumpPc(pc: int)
    | MoveTop(delta: int)

  datatype Instruction = Instruction(opcode: OpCode, operand: Operand)

  /** Instruction p with its jump target overwritten, everything else kept. */
  function Patched(code: seq<Instruction>, p: nat, target: int): (r: seq<Instruction>)
    requires p < |code|
    ensures |r| == |code|
    ensures r[p].opcode == code[p].opcode && r[p].operand == JumpPc(target)
    ensures forall i :: 0 <= i < |code| && i != p ==> r[i] == code[i]
  {
    code[p := Instruction(code[p].opcode, JumpPc(target))]
  }

  /** The relation every buffer operation keeps between the old and the new
      contents: nothing is removed or reordered, opcodes never change, and an
      instruction only ever changes by getting a new jump target. */
  ghost predicate Extends(before: seq<Instruction>, after: seq<Instruction>) {
    && |before| <= |after|
    && forall i :: 0 <= i < |before| ==>
         && after[i].opcode == before[i].opcode
         && (after[i] == before[i] || after[i].operand.JumpPc?)
  }

  lemma {:induction false} ExtendsTransitive(a: seq<Instruction>, b: seq<Instruction>, c: seq<Instruction>)
    requires Extends(a, b) && Extends(b, c)
    ensures Extends(a, c)
  {
    forall i | 0 <= i < |a|
      ensures c[i].opcode == a[i].opcode && (c[i] == a[i] || c[i].operand.JumpPc?)
    {
      assert b[i].opcode == a[i].opcode;
    }
  }

  /** Appending and patching both keep Extends. */
  lemma {:induction false} AppendExtends(code: seq<Instruction>, ins: Instruction)
    ensures Extends(code, code + [ins])
  {
  }

  lemma {:induction false} PatchExtends(code: seq<Instruction>, p: nat, target: int)
    requires p < |code|
    ensures Extends(code, Patched(code, p, target))
  {
  }

  /** The code array of generate.c (code[MAX_CODE_SIZE] and
      current_code_size, which is size - 1 here: the index of the last
      instruction, -1 when the buffer is empty). */
  class CodeBuffer {
    const code: array<Instruction>
    var size: nat

    ghost predicate Valid()
      reads this
    {
      code.Length == MAX_CODE_SIZE && size <= MAX_CODE_SIZE
    }

    /** The instructions emitted so far, in emission order. */
    ghost function Contents(): seq<Instruction>
      reads this, code
      requires Valid()
    {
      code[..size]
    }

    constructor ()
      ensures Valid() && fresh(code)
      ensures Contents() == []
    {
      code := new Instruction[MAX_CODE_SIZE](_ => Instruction(MoveStackP, NoOperand));
      size := 0;
    }

    /** Common body of the genCode family: append one instruction and return
        its index.  A full buffer is an error (checkCodeSize). */
    method Append(ins: Instruction) returns (ok: bool, pc: nat)
      requires Valid()
      modifies this, code
      ensures Valid()
      ensures ok == (old(size) < MAX_CODE_SIZE)
      ensures ok ==> pc == old(size) && Contents() == old(Contents()) + [ins]
      ensures !ok ==> size == old(size) && Contents() == old(Contents())
    {
      if size == MAX_CODE_SIZE {
        return false, 0;
      }
      code[size] := ins;
      pc := size;
      size := size + 1;
      ok := true;
    }

    /** genCodeValue: an instruction whose operand is a value. */
    method GenCodeValue(op: OpCode, v: Value) returns (ok: bool, pc: nat)
      requires Valid()
      modifies this, code
      ensures Valid()
      ensures ok == (old(size) < MAX_CODE_SIZE)
      ensures ok ==> pc == old(size) && Contents() == old(Contents()) + [Instruction(op, ImmediateValue(v))]
      ensures !ok ==> size == old(size) && Contents() == old(Contents())
    {
      ok, pc := Append(Instruction(op, ImmediateValue(v)));
    }

    /** genCodeTable: an instruction whose operand is a name-table index. */
    method GenCodeTable(op: OpCode, tableIndex: int) returns (ok: bool, pc: nat)
      requires Valid()
      modifies this, code
      ensures Valid()
      ensures ok == (old(size) < MAX_CODE_SIZE)
      ensures ok ==> pc == old(size) && Contents() == old(Contents()) + [Instruction(op, TableIndex(tableIndex))]
      ensures !ok ==> size == old(size) && Contents() == old(Contents())
    {
      ok, pc := Append(Instruction(op, TableIndex(tableIndex)));
    }

    /** genCodeCalc: an operation without operand. */
    method GenCodeCalc(op: OpCode) returns (ok: bool, pc: nat)
      requires Valid()
      modifies this, code
      ensures Valid()
      ensures ok == (old(size) < MAX_CODE_SIZE)
      ensures ok ==> pc == old(size) && Contents() == old(Contents()) + [Instruction(op, NoOperand)]
      ensures !ok ==> size == old(size) && Contents() == old(Contents())
    {
      ok, pc := Append(Instruction(op, NoOperand));
    }

    /** genCodeJump: a jump with the given target (0 for a placeholder). */
    method GenCodeJump(op: OpCode, target: int) returns (ok: bool, pc: nat)
      requires Valid()
      modifies this, code
      ensures Valid()
      ensures ok == (old(size) < MAX_CODE_SIZE)
      ensures ok ==> pc == old(size) && Contents() == old(Contents()) + [Instruction(op, JumpPc(target))]
      ensures !ok ==> size == old(size) && Contents() == old(Contents())
    {
      ok, pc := Append(Instruction(op, JumpPc(target)));
    }

    /** genCodeReturn: the return instruction.  Its operand is not documented
        in generate.h, so the model emits it without one. */
    method GenCodeReturn() returns (ok: bool, pc: nat)
      requires Valid()
      modifies this, code
      ensures Valid()
      ensures ok == (old(size) < MAX_CODE_SIZE)
      ensures ok ==> pc == old(size) && Contents() == old(Contents()) + [Instruction(Return, NoOperand)]
      ensures !ok ==> size == old(size) && Contents() == old(Contents())
    {
      ok, pc := Append(Instruction(Return, NoOperand));
    }

    /** nextCode: the index the next emitted instruction will get. */
    method NextCode() returns (pc: nat)
      requires Valid()
      ensures pc == |Contents()|
    {
      pc := size;
    }

    /** backPatch: the target of instruction p becomes the next instruction. */
    method BackPatch(p: nat)
      requires Valid() && p < size
      modifies code
      ensures Valid()
      ensures Contents() == Patched(old(Contents()), p, old(size))
    {
      code[p] := Instruction(code[p].opcode, JumpPc(size));
      assert code[..size] == old(code[..size])[p := code[p]];
    }

    /** Patch instruction p to an explicit target.  generate.h has no such
        entry point; it is what backPatchContinueLabels needs to send every
        continue jump to a loop label captured earlier. */
    method BackPatchTo(p: nat, target: int)
      requires Valid() && p < size
      modifies code
      ensures Valid()
      ensures Contents() == Patched(old(Contents()), p, target)
    {
      code[p] := Instruction(code[p].opcode, JumpPc(target));
      assert code[..size] == old(code[..size])[p := code[p]];
    }
  }
}
