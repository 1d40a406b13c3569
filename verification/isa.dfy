/** The instruction set as both simulator variants see it: the ten opcode
    names, the register-name table built by the constructor, the word
    address of a memory operand `offset($reg)` (`locateAddress`) and the
    label lookup.  Commands stay as the four text fields the loader stored:
    the hazard units compare register NAMES, so decoding them to indices
    early would change behaviour. */
module Isa {
  import opened Text

  /** A stored command: opcode and up to three operands, as text. */
  type Command = seq<string>

  /** Field `i` of a command, or "" when the command is shorter. */
  function Field(c: Command, i: nat): string {
    if i < |c| then c[i] else ""
  }

  function Opcode(c: Command): string {
    Field(c, 0)
  }

  /** The keys of the `instructions` table. */
  predicate IsOpcode(op: string) {
    op in {"add", "sub", "mul", "beq", "bne", "slt", "j", "lw", "sw", "addi"}
  }

  /** Three-register ALU operations. */
  predicate IsAluR(op: string) {
    op in {"add", "sub", "mul", "slt"}
  }

  /** Operations that write a register from the ALU. */
  predicate IsAluWrite(op: string) {
    IsAluR(op) || op == "addi"
  }

  predicate IsBranch(op: string) {
    op == "beq" || op == "bne"
  }

  const RegisterCount := 32

  /** Different register numbers get different numeric spellings. */
  lemma NumericSpellingsDistinct()
    ensures forall i, j | "$" + IntToString(i) == "$" + IntToString(j) :: i == j
  {
    forall i, j | "$" + IntToString(i) == "$" + IntToString(j)
      ensures i == j
    {
      assert IntToString(i) == ("$" + IntToString(i))[1..];
      assert IntToString(j) == ("$" + IntToString(j))[1..];
      IntToStringInjective(i, j);
    }
  }

  /** `registerMap` after the first `n` rounds of the constructor's first
      loop, which enters `"$" + to_string(i)` for register `i`. */
  function NumericUpTo(n: nat): map<string, int>
    decreases n
  {
    if n == 0 then map[] else NumericUpTo(n - 1)["$" + IntToString(n - 1) := n - 1]
  }

  /** After `n` rounds every entry is a numeric spelling of a register
      below `n`, mapped to that register. */
  lemma {:induction false} NumericUpToShape(n: nat)
    ensures forall name | name in NumericUpTo(n) ::
              && |name| > 1 && name[0] == '$' && 0 <= NumericUpTo(n)[name] < n
              && name == "$" + IntToString(NumericUpTo(n)[name])
    decreases n
  {
    if n > 0 {
      NumericUpToShape(n - 1);
    }
  }

  /** A round never overwrites an earlier one: the spelling of `i` still
      maps to `i` after every later round. */
  lemma {:induction false} NumericUpToHas(n: nat, i: int)
    requires 0 <= i < n
    ensures "$" + IntToString(i) in NumericUpTo(n)
    ensures NumericUpTo(n)["$" + IntToString(i)] == i
    decreases n
  {
    if i < n - 1 {
      NumericUpToHas(n - 1, i);
      NumericSpellingsDistinct();
    }
  }

  /** The names the whole first loop enters. */
  const NumericNames: map<string, int> := NumericUpTo(RegisterCount)

  /** The conventional names, entered after the numeric ones. */
  const SymbolicNames: map<string, int> := map[
    "$zero" := 0, "$at" := 1, "$v0" := 2, "$v1" := 3,
    "$a0" := 4, "$a1" := 5, "$a2" := 6, "$a3" := 7,
    "$t0" := 8, "$t1" := 9, "$t2" := 10, "$t3" := 11,
    "$t4" := 12, "$t5" := 13, "$t6" := 14, "$t7" := 15,
    "$s0" := 16, "$s1" := 17, "$s2" := 18, "$s3" := 19,
    "$s4" := 20, "$s5" := 21, "$s6" := 22, "$s7" := 23,
    "$t8" := 24, "$t9" := 25, "$k0" := 26, "$k1" := 27,
    "$gp" := 28, "$sp" := 29, "$s8" := 30, "$ra" := 31]

  /** A register-name table whose every entry denotes a register. */
  predicate TableOk(names: map<string, int>) {
    forall name | name in names :: 0 <= names[name] < RegisterCount
  }

  lemma NumericNamesInRange()
    ensures TableOk(NumericNames)
  {
    NumericUpToShape(RegisterCount);
  }

  lemma SymbolicNamesInRange()
    ensures TableOk(SymbolicNames)
  {
  }

  /** Every name of a table is spelled with a leading `$`. */
  predicate DollarNames(names: map<string, int>) {
    forall name | name in names :: |name| > 1 && name[0] == '$'
  }

  lemma NumericNamesUseDollar()
    ensures DollarNames(NumericNames)
  {
    NumericUpToShape(RegisterCount);
  }

  lemma SymbolicNamesUseDollar()
    ensures DollarNames(SymbolicNames)
  {
  }

  /** Merging two tables keeps both properties. */
  lemma MergeKeeps(a: map<string, int>, b: map<string, int>)
    requires TableOk(a) && TableOk(b) && DollarNames(a) && DollarNames(b)
    ensures TableOk(a + b) && DollarNames(a + b)
  {
  }

  /** `registerMap` as the constructor leaves it: the numeric names, then
      the conventional ones.  Every entry denotes a register and is spelled
      with a leading `$`. */
  function RegisterMap(): (m: map<string, int>)
    ensures TableOk(m)
    ensures DollarNames(m)
  {
    NumericNamesInRange();
    SymbolicNamesInRange();
    NumericNamesUseDollar();
    SymbolicNamesUseDollar();
    MergeKeeps(NumericNames, SymbolicNames);
    NumericNames + SymbolicNames
  }

  /** `registerMap[name]`: `operator[]` yields 0 for a name that is not in
      the table.  The table is a parameter (it is a member of the simulator
      object); the simulator always passes `RegisterMap()`. */
  function RegIndex(names: map<string, int>, name: string): (r: int)
    requires TableOk(names)
    ensures 0 <= r < RegisterCount
  {
    if name in names then names[name] else 0
  }

  /** A numeric name no conventional name shadows resolves to its own
      number. */
  lemma NumericNameResolves(name: string)
    requires name in NumericNames && name !in SymbolicNames
    ensures RegIndex(RegisterMap(), name) == NumericNames[name]
  {
  }

  lemma EightSpelling()
    ensures "$" + IntToString(8) == "$8"
  {
    assert IntToString(8) == "8";
  }

  /** Every conventional name has a letter right after its `$`. */
  lemma SymbolicNamesLettered()
    ensures forall name | name in SymbolicNames :: |name| > 1 && 'a' <= name[1] <= 'z'
  {
  }

  lemma EightIsNumeric()
    ensures "$8" in NumericNames && "$8" !in SymbolicNames && NumericNames["$8"] == 8
  {
    NumericUpToHas(RegisterCount, 8);
    EightSpelling();
    SymbolicNamesLettered();
  }

  lemma TZeroIsSymbolic()
    ensures "$t0" in SymbolicNames && SymbolicNames["$t0"] == 8
  {
  }

  /** `$8` and `$t0` are one register under two different spellings: the
      hazard units, which compare spellings, cannot see that they agree. */
  lemma AliasedSpellings()
    ensures RegIndex(RegisterMap(), "$8") == RegIndex(RegisterMap(), "$t0") == 8
    ensures "$8" != "$t0"
  {
    EightIsNumeric();
    NumericNameResolves("$8");
    TZeroIsSymbolic();
    SymbolicNameResolves("$t0");
  }

  /** A conventional name resolves to the register the constructor gave
      it: the later insertion wins. */
  lemma SymbolicNameResolves(name: string)
    requires name in SymbolicNames
    ensures RegIndex(RegisterMap(), name) == SymbolicNames[name]
  {
  }

  /** A name the table lacks reads register 0; every name not spelled
      `$` plus at least one character, such as a label or a bare number,
      is one. */
  lemma UnknownNameIsZero(name: string)
    requires |name| < 2 || name[0] != '$'
    ensures name !in RegisterMap()
    ensures RegIndex(RegisterMap(), name) == 0
  {
    assert DollarNames(RegisterMap());
  }

  /** C++ `a / 4`: the quotient truncated toward zero, so the remainder
      takes the sign of `a` (Dafny's own `/` is Euclidean instead). */
  function Quarter(a: int): (q: int)
    ensures a >= 0 ==> 0 <= a - 4 * q < 4
    ensures a < 0 ==> -4 < a - 4 * q <= 0
  {
    if a >= 0 then a / 4 else -((-a) / 4)
  }

  /** `stoi` of an immediate or offset; a field `stoi` rejects reads as 0. */
  function Imm(s: string): int {
    match StoI(s)
    case Some(v) => v
    case None => 0
  }

  /** The offset text of `offset($reg)`: everything before the first `(`,
      or the whole operand when there is none (`substr(0, npos)`). */
  function OffsetText(operand: string): string {
    var p1 := Find(operand, '(');
    if p1 < 0 then operand else operand[..p1]
  }

  /** The register name `locateAddress` builds:
      `"$" + operand.substr(p1 + 2, p2 - p1 - 2)` with `p1`, `p2` the first
      `(` and `)` as ints (-1 when missing).  A negative length becomes
      `npos` and takes the rest of the operand.  A start past the end makes
      `substr` throw; the model reads register 0 ("") there instead. */
  function BaseName(operand: string): string {
    var p1 := Find(operand, '(');
    var p2 := Find(operand, ')');
    var start := p1 + 2;
    if start > |operand| then ""
    else if p2 - p1 - 2 < 0 then "$" + operand[start..]
    else "$" + operand[start..p2]
  }

  /** The register name the hazard units extract: the text strictly between
      the first `(` and the next `)`, or "" when either is missing. */
  function ParenText(operand: string): string {
    var p1 := Find(operand, '(');
    if p1 < 0 then ""
    else
      var p2 := FindFrom(operand, ')', p1 + 1);
      if p2 < 0 then "" else operand[p1 + 1..p2]
  }

  /** `locateAddress`: word index `(offset + registers[base]) / 4`, with
      C++ truncation. */
  function LocateAddress(operand: string, names: map<string, int>, regs: seq<int>): int
    requires TableOk(names) && |regs| == RegisterCount
  {
    Quarter(Imm(OffsetText(operand)) + regs[RegIndex(names, BaseName(operand))])
  }

  /** The text of a well-formed memory operand. */
  function MemOperand(offset: int, base: string): string {
    IntToString(offset) + "(" + base + ")"
  }

  predicate PlainName(base: string) {
    |base| >= 2 && base[0] == '$' && '(' !in base && ')' !in base
  }

  /** A rendered number holds no parenthesis. */
  lemma RenderingHasNoParens(offset: int)
    ensures '(' !in IntToString(offset) && ')' !in IntToString(offset)
  {
    var num := IntToString(offset);
    if offset < 0 {
      assert num[1..] == NatToString(-offset);
      assert forall k | 1 <= k < |num| :: num[k] == NatToString(-offset)[k - 1];
    }
  }

  /** Where the parentheses of a well-formed operand are: `(` right after
      the number, `)` right after the base name. */
  lemma OperandParens(offset: int, base: string)
    requires PlainName(base)
    ensures var num := IntToString(offset);
            var s := MemOperand(offset, base);
            && Find(s, '(') == |num|
            && Find(s, ')') == |num| + 1 + |base|
            && FindFrom(s, ')', |num| + 1) == |num| + 1 + |base|
            && s[..|num|] == num
            && s[|num| + 1..|num| + 1 + |base|] == base
  {
    var num := IntToString(offset);
    var s := MemOperand(offset, base);
    var p1 := |num|;
    var p2 := |num| + 1 + |base|;
    RenderingHasNoParens(offset);
    assert s[..p1] == num;
    assert s[p1] == '(';
    assert s[p2] == ')';
    assert s[..p2] == num + "(" + base;
    assert forall k | p1 + 1 <= k < p2 :: s[k] == base[k - p1 - 1];
  }

  /** Parsing a well-formed operand gives back its parts: the offset, the
      base register for the address, and the same name for the hazard
      comparison. */
  lemma MemOperandParses(offset: int, base: string)
    requires PlainName(base)
    ensures Imm(OffsetText(MemOperand(offset, base))) == offset
    ensures BaseName(MemOperand(offset, base)) == base
    ensures ParenText(MemOperand(offset, base)) == base
  {
    OperandParens(offset, base);
    OffsetParses(offset, base);
    BaseParses(offset, base);
  }

  lemma OffsetParses(offset: int, base: string)
    requires PlainName(base)
    requires OffsetText(MemOperand(offset, base)) == IntToString(offset)
    ensures Imm(OffsetText(MemOperand(offset, base))) == offset
  {
    StoIReadsRendering(offset, "");
    assert IntToString(offset) + "" == IntToString(offset);
  }

  lemma BaseParses(offset: int, base: string)
    requires PlainName(base)
    requires var s := MemOperand(offset, base);
             var n := |IntToString(offset)|;
             Find(s, '(') == n && Find(s, ')') == n + 1 + |base| && s[n + 1..n + 1 + |base|] == base
    ensures BaseName(MemOperand(offset, base)) == base
  {
    var s := MemOperand(offset, base);
    var n := |IntToString(offset)|;
    assert s[n + 2..n + 1 + |base|] == base[1..];
    assert "$" + base[1..] == base;
  }

  /** The word address of a well-formed operand in terms of its parts. */
  lemma LocateWellFormed(offset: int, base: string, names: map<string, int>, regs: seq<int>)
    requires PlainName(base)
    requires TableOk(names) && |regs| == RegisterCount
    ensures LocateAddress(MemOperand(offset, base), names, regs) == Quarter(offset + regs[RegIndex(names, base)])
  {
    MemOperandParses(offset, base);
  }

  /** `address[label]`: `operator[]` yields 0 for a label never defined; a
      label defined twice is stored as -1. */
  function LabelAddress(labels: map<string, int>, name: string): int {
    if name in labels then labels[name] else 0
  }
}
