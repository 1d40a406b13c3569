/** The forwarding variant of the cycle (`EXECUTE_THE_PIPELINE` in
    submitpart2.hpp).  ID takes operand values from L4 (an ALU result
    computed by EX earlier in the same cycle) or from L5 (a word MEM just
    loaded, or an older ALU result) when an in-flight producer writes the
    register by the same name; only a load immediately followed by a use
    stalls, for one cycle.  `lw` reads memory in MEM. */
module Forwarding {
  import opened Text
  import opened Isa
  import opened Machine

  /** The register WB writes for the instruction in L5, if any: field 1 of
      an ALU-class instruction through the name table, or the index an
      `lw` carries in REG_ONE. */
  function WritebackTarget(p: Program, l5: Latch): (k: Option<int>)
    requires TableOk(p.names) && LatchOk(l5)
    ensures k.Some? <==> Filled(l5) && (IsAluWrite(Opcode(l5.com)) || Opcode(l5.com) == "lw")
    ensures k.Some? ==> 0 <= k.value < RegisterCount
  {
    if !Filled(l5) then None
    else if IsAluWrite(Opcode(l5.com)) then Some(Idx(p, Field(l5.com, 1)))
    else if Opcode(l5.com) == "lw" then Some(l5.regOne)
    else None
  }

  /** WB writes L5.VALUE_ONE into its target register and touches no other
      register; beq, bne, j and sw write nothing.  L5 is never emptied, so
      the same write repeats while L5 keeps its command. */
  function Writeback(p: Program, s: State): (r: State)
    requires Valid(p, s)
    ensures Valid(p, r)
    ensures r == s.(regs := r.regs)
    ensures WritebackTarget(p, s.l5).None? ==> r.regs == s.regs
    ensures WritebackTarget(p, s.l5).Some? ==>
              r.regs == s.regs[WritebackTarget(p, s.l5).value := s.l5.valueOne]
  {
    match WritebackTarget(p, s.l5)
    case None => s
    case Some(k) => s.(regs := s.regs[k := s.l5.valueOne])
  }

  /** The word an `lw` or `sw` in a latch addresses:
      `(stoi(offset) + VALUE_TWO) / 4`, truncating. */
  function WordAddress(l: Latch): int {
    Quarter(Imm(OffsetText(Field(l.com, 2))) + l.valueTwo)
  }

  /** The store MEM performs: an `sw` in L4 writes L4.VALUE_ONE to its word
      every cycle it is there. */
  function MemStore(s: State): (st: Store)
    ensures st.Stored? <==> Filled(s.l4) && Opcode(s.l4.com) == "sw"
    ensures st.Stored? ==> st.addr == WordAddress(s.l4) && st.value == s.l4.valueOne
  {
    if Filled(s.l4) && Opcode(s.l4.com) == "sw" then Stored(WordAddress(s.l4), s.l4.valueOne) else NoStore
  }

  /** MEM: a filled L4 moves to L5 whole; an `lw` replaces VALUE_ONE with
      the word it addresses, read before this cycle's store. */
  function Memory(p: Program, s: State): (r: State)
    requires Valid(p, s)
    ensures Valid(p, r)
    ensures r == s.(mem := r.mem, l5 := r.l5)
    ensures r.mem == Commit(s.mem, MemStore(s))
    ensures !Filled(s.l4) ==> r.l5 == s.l5
    ensures Filled(s.l4) && Opcode(s.l4.com) != "lw" ==> r.l5 == s.l4
    ensures Filled(s.l4) && Opcode(s.l4.com) == "lw" ==>
              r.l5 == s.l4.(valueOne := Load(s.mem, WordAddress(s.l4)))
  {
    if !Filled(s.l4) then s
    else
      var l5 := if Opcode(s.l4.com) == "lw" then s.l4.(valueOne := Load(s.mem, WordAddress(s.l4))) else s.l4;
      s.(l5 := l5, mem := Commit(s.mem, MemStore(s)))
  }

  /** EX: a filled L3 overwrites L4.  ALU operations combine the two
      values, addi adds its immediate to VALUE_ONE, lw and sw pass L3 on
      unchanged, j passes only its command, beq/bne resolve. */
  function Execute(p: Program, s: State): (r: State)
    requires Valid(p, s)
    ensures Valid(p, r)
    ensures r.regs == s.regs && r.mem == s.mem && r.l5 == s.l5 && r.cycle == s.cycle
    ensures !Filled(s.l3) ==> r == s
    ensures !(Filled(s.l3) && IsBranch(Opcode(s.l3.com))) ==> r == s.(l4 := r.l4)
    ensures Filled(s.l3) && IsAluR(Opcode(s.l3.com)) ==>
              r == s.(l4 := s.l4.(com := s.l3.com, regOne := Idx(p, Field(s.l3.com, 1)),
                                  valueOne := AluResult(Opcode(s.l3.com), s.l3.valueOne, s.l3.valueTwo)))
    ensures Filled(s.l3) && Opcode(s.l3.com) == "addi" ==>
              r == s.(l4 := s.l3.(valueOne := Imm(Field(s.l3.com, 3)) + s.l3.valueOne))
    ensures Filled(s.l3) && (Opcode(s.l3.com) == "lw" || Opcode(s.l3.com) == "sw") ==> r == s.(l4 := s.l3)
    ensures Filled(s.l3) && IsBranch(Opcode(s.l3.com)) ==> r == ResolveBranch(p, s)
  {
    if !Filled(s.l3) then s
    else
      var c := s.l3.com;
      var op := Opcode(c);
      if IsAluR(op) then
        s.(l4 := s.l4.(com := c, regOne := Idx(p, Field(c, 1)), valueOne := AluResult(op, s.l3.valueOne, s.l3.valueTwo)))
      else if IsBranch(op) then ResolveBranch(p, s)
      else if op == "j" then s.(l4 := s.l4.(com := c))
      else if op == "sw" || op == "lw" then s.(l4 := s.l3)
      else if op == "addi" then
        s.(l4 := s.l4.(com := c, regOne := s.l3.regOne, valueOne := Imm(Field(c, 3)) + s.l3.valueOne,
                       valueTwo := s.l3.valueTwo, regTwo := s.l3.regTwo))
      else s
  }

  /** The load-use check as the source writes it, opcode by opcode.  It
      holds exactly when window[-2] is an `lw` writing a register the
      instruction in ID reads. */
  function LoadUseCheck(w: seq<Entry>, c: Command): (hazard: bool)
    ensures hazard <==> |w| >= 2 && Opcode(w[|w| - 2].com) == "lw" && Field(w[|w| - 2].com, 1) in ReadNames(c)
  {
    var n := |w|;
    if n >= 2 && Opcode(w[n - 2].com) == "lw" then
      var dst := Field(w[n - 2].com, 1);
      var op := Opcode(c);
      if IsAluR(op) then dst == Field(c, 2) || dst == Field(c, 3)
      else if op == "addi" then dst == Field(c, 2)
      else if IsBranch(op) then dst == Field(c, 1) || dst == Field(c, 2)
      else if op == "sw" || op == "lw" then
        ParenText(Field(c, 2)) == dst || (op == "sw" && Field(c, 1) == dst)
      else false
    else false
  }

  /** Source `x` as ID reads it after comparing with window[-2]: a name
      match with an `lw` takes L5.VALUE_ONE, with an ALU-class producer
      L4.VALUE_ONE; otherwise the register file.  Window entries always
      carry one of the ten opcodes, so these cases cover the source's
      three producer classes. */
  function NearOperand(p: Program, s: State, near: Command, x: string): int
    requires TableOk(p.names) && |s.regs| == RegisterCount
  {
    if Opcode(near) == "lw" && Field(near, 1) == x then s.l5.valueOne
    else if IsAluWrite(Opcode(near)) && Field(near, 1) == x then s.l4.valueOne
    else Reg(p, s, x)
  }

  /** The second comparison, with window[-3]: a name match with any
      producer overwrites the value with L5.VALUE_ONE. */
  function FarOperand(s: State, far: Command, x: string, v: int): int {
    if Writes(far, x) then s.l5.valueOne else v
  }


  /** The value ID hands on for source register `x`, stated by priority:
      a producer at window[-3] (its value now in L5) wins over one at
      window[-2]; a window[-2] `lw` has its word in L5, a window[-2]
      ALU-class producer its result in L4; with no producer in the two
      places ahead the register file is read. */
  function ForwardedValue(p: Program, s: State, x: string): int
    requires TableOk(p.names) && |s.regs| == RegisterCount
  {
    var w := s.window;
    var n := |w|;
    if n >= 3 && Writes(w[n - 3].com, x) then s.l5.valueOne
    else if n >= 2 && Writes(w[n - 2].com, x) then
      (if Opcode(w[n - 2].com) == "lw" then s.l5.valueOne else s.l4.valueOne)
    else Reg(p, s, x)
  }

  /** ID for an instruction reading two named registers `x` and `y` into
      (REG_ONE, VALUE_ONE) and (REG_TWO, VALUE_TWO): ALU operations, beq,
      bne, and sw (data register and base).  With an empty window only the
      command is copied. */
  function DecodePair(p: Program, s: State, x: string, y: string): (l: Latch)
    requires TableOk(p.names) && |s.regs| == RegisterCount && LatchOk(s.l3)
    ensures LatchOk(l) && l.com == s.l2.com
    ensures |s.window| == 0 ==> l == s.l3.(com := s.l2.com)
    ensures |s.window| >= 1 ==> l.regOne == Idx(p, x) && l.regTwo == Idx(p, y)
    ensures |s.window| >= 1 ==> l.valueOne == ForwardedValue(p, s, x) && l.valueTwo == ForwardedValue(p, s, y)
  {
    var n := |s.window|;
    var l3 := s.l3.(com := s.l2.com);
    if n == 0 then l3
    else if n == 1 then
      l3.(regOne := Idx(p, x), regTwo := Idx(p, y), valueOne := Reg(p, s, x), valueTwo := Reg(p, s, y))
    else
      var near := s.window[n - 2].com;
      var a := NearOperand(p, s, near, x);
      var b := NearOperand(p, s, near, y);
      var l := l3.(regOne := Idx(p, x), regTwo := Idx(p, y), valueOne := a, valueTwo := b);
      if n == 2 then l
      else
        var far := s.window[n - 3].com;
        l.(valueOne := FarOperand(s, far, x, a), valueTwo := FarOperand(s, far, y, b))
  }

  /** ID for addi: its source goes to (REG_ONE, VALUE_ONE); the immediate
      is parsed into VALUE_TWO only when nothing or a non-producer is
      ahead. */
  function DecodeAddi(p: Program, s: State): (l: Latch)
    requires TableOk(p.names) && |s.regs| == RegisterCount && LatchOk(s.l3)
    ensures LatchOk(l) && l.com == s.l2.com
    ensures |s.window| == 0 ==> l == s.l3.(com := s.l2.com)
    ensures |s.window| >= 1 ==> l.regOne == Idx(p, Field(s.l2.com, 2))
    ensures |s.window| >= 1 ==> l.valueOne == ForwardedValue(p, s, Field(s.l2.com, 2))
    ensures |s.window| >= 1 && !(|s.window| >= 2 && Produces(s.window[|s.window| - 2].com)) ==>
              l.valueTwo == Imm(Field(s.l2.com, 3))
    ensures |s.window| >= 2 && Produces(s.window[|s.window| - 2].com) ==> l.valueTwo == s.l3.valueTwo
  {
    var c := s.l2.com;
    var x := Field(c, 2);
    var imm := Imm(Field(c, 3));
    var n := |s.window|;
    var l3 := s.l3.(com := c);
    if n == 0 then l3
    else if n == 1 then l3.(regOne := Idx(p, x), valueOne := Reg(p, s, x), valueTwo := imm)
    else
      var near := s.window[n - 2].com;
      var l := l3.(regOne := Idx(p, x), valueOne := NearOperand(p, s, near, x));
      var l' := if Produces(near) then l else l.(valueTwo := imm);
      if n == 2 then l'
      else l'.(valueOne := FarOperand(s, s.window[n - 3].com, x, l'.valueOne))
  }

  /** An `lw` in ID whose base the address (VALUE_TWO) receives forwarded:
      a producer is right ahead, and the base is not written by an
      ALU-class instruction at window[-3]. */
  predicate LoadBaseForwarded(s: State) {
    var n := |s.window|;
    n >= 2 && Produces(s.window[n - 2].com) && !LoadBaseMisrouted(s)
  }

  /** An `lw` in ID whose base is written by an ALU-class instruction at
      window[-3]: the source forwards that value into VALUE_ONE, which MEM
      does not use for the address. */
  predicate LoadBaseMisrouted(s: State) {
    var n := |s.window|;
    n >= 3 && IsAluWrite(Opcode(s.window[n - 3].com)) && Field(s.window[n - 3].com, 1) == ParenText(Field(s.l2.com, 2))
  }

  /** ID for lw: REG_ONE is the destination, REG_TWO the base register.
      Alone in flight, the base's value lands in VALUE_ONE and VALUE_TWO
      keeps whatever L3 held.  Behind a producer the base's value goes to
      VALUE_TWO; behind anything else VALUE_TWO is left as it was.  A base
      written by an ALU-class window[-3] is forwarded into VALUE_ONE. */
  function DecodeLoad(p: Program, s: State): (l: Latch)
    requires TableOk(p.names) && |s.regs| == RegisterCount && LatchOk(s.l3)
    ensures LatchOk(l) && l.com == s.l2.com
    ensures |s.window| == 0 ==> l == s.l3.(com := s.l2.com)
    ensures |s.window| >= 1 ==>
              l.regOne == Idx(p, Field(s.l2.com, 1)) && l.regTwo == Idx(p, ParenText(Field(s.l2.com, 2)))
    ensures |s.window| == 1 ==>
              l.valueOne == Reg(p, s, ParenText(Field(s.l2.com, 2))) && l.valueTwo == s.l3.valueTwo
    ensures LoadBaseForwarded(s) ==> l.valueTwo == ForwardedValue(p, s, ParenText(Field(s.l2.com, 2)))
    ensures LoadBaseMisrouted(s) ==> l.valueOne == ForwardedValue(p, s, ParenText(Field(s.l2.com, 2)))
    ensures (|s.window| >= 3 && Opcode(s.window[|s.window| - 3].com) == "lw" &&
             Field(s.window[|s.window| - 3].com, 1) == ParenText(Field(s.l2.com, 2))) ==>
              l.valueTwo == s.l5.valueOne
    ensures |s.window| >= 2 && !Produces(s.window[|s.window| - 2].com) &&
            !(|s.window| >= 3 && Writes(s.window[|s.window| - 3].com, ParenText(Field(s.l2.com, 2)))) ==>
              l.valueTwo == s.l3.valueTwo
  {
    var c := s.l2.com;
    var d := Field(c, 1);
    var res := ParenText(Field(c, 2));
    var n := |s.window|;
    var l3 := s.l3.(com := c);
    if n == 0 then l3
    else if n == 1 then l3.(regOne := Idx(p, d), regTwo := Idx(p, res), valueOne := Reg(p, s, res))
    else
      var l := LoadNear(p, s, l3.(regOne := Idx(p, d), regTwo := Idx(p, res)), res);
      NearAgrees(p, s, res);
      if n == 2 then l else LoadFar(s, l, s.window[n - 3].com, res)
  }

  /** The window[-2] comparison for an `lw` base `res`: behind a producer
      VALUE_TWO takes the value the near comparison gives, behind anything
      else it is left alone. */
  function LoadNear(p: Program, s: State, l: Latch, res: string): (r: Latch)
    requires TableOk(p.names) && |s.regs| == RegisterCount && |s.window| >= 2
    ensures r == l.(valueTwo := r.valueTwo)
    ensures Produces(s.window[|s.window| - 2].com) ==> r.valueTwo == NearOperand(p, s, s.window[|s.window| - 2].com, res)
    ensures !Produces(s.window[|s.window| - 2].com) ==> r.valueTwo == l.valueTwo
  {
    var near := s.window[|s.window| - 2].com;
    if Produces(near) then l.(valueTwo := NearOperand(p, s, near, res)) else l
  }

  /** The window[-3] comparison for an `lw` base `res`: an `lw` writing it
      overrides VALUE_TWO with L5's word, an ALU-class writer puts L5's
      value into VALUE_ONE instead. */
  function LoadFar(s: State, l: Latch, far: Command, res: string): (r: Latch)
    ensures Opcode(far) == "lw" && Field(far, 1) == res ==> r == l.(valueTwo := s.l5.valueOne)
    ensures IsAluWrite(Opcode(far)) && Field(far, 1) == res ==> r == l.(valueOne := s.l5.valueOne)
    ensures !Writes(far, res) ==> r == l
  {
    if Opcode(far) == "lw" && Field(far, 1) == res then l.(valueTwo := s.l5.valueOne)
    else if IsAluWrite(Opcode(far)) && Field(far, 1) == res then l.(valueOne := s.l5.valueOne)
    else l
  }

  /** With no producer of `x` at window[-3], the window[-2] comparison
      alone gives the forwarded value. */
  lemma NearAgrees(p: Program, s: State, x: string)
    requires TableOk(p.names) && |s.regs| == RegisterCount && |s.window| >= 2
    ensures !(|s.window| >= 3 && Writes(s.window[|s.window| - 3].com, x)) ==>
              ForwardedValue(p, s, x) == NearOperand(p, s, s.window[|s.window| - 2].com, x)
  {
  }

  /** ID: when not stalled and L2 is filled, L2's command moves to L3 with
      its operands read (and forwarded); `j` is resolved here. */
  function Decode(p: Program, s: State): (r: State)
    requires Valid(p, s)
    ensures Valid(p, r)
    ensures r.regs == s.regs && r.mem == s.mem && r.l4 == s.l4 && r.l5 == s.l5 && r.cycle == s.cycle
    ensures s.stall || !Filled(s.l2) ==> r == s
    ensures !s.stall && Filled(s.l2) && Opcode(s.l2.com) != "j" ==> r == s.(l3 := r.l3) && r.l3.com == s.l2.com
    ensures !s.stall && Filled(s.l2) && Opcode(s.l2.com) == "j" ==> r == DecodeJump(p, s)
  {
    if s.stall || !Filled(s.l2) then s
    else
      var c := s.l2.com;
      var op := Opcode(c);
      if IsAluR(op) then s.(l3 := DecodePair(p, s, Field(c, 2), Field(c, 3)))
      else if IsBranch(op) then s.(l3 := DecodePair(p, s, Field(c, 1), Field(c, 2)))
      else if op == "j" then DecodeJump(p, s)
      else if op == "addi" then s.(l3 := DecodeAddi(p, s))
      else if op == "lw" then s.(l3 := DecodeLoad(p, s))
      else s.(l3 := DecodePair(p, s, Field(c, 1), ParenText(Field(c, 2))))
  }

  /** The stall gate: the load-use hazard stalls for one cycle. */
  function StallGate(s: State): State {
    Gate(s, if LoadUseCheck(s.window, s.l2.com) then 1 else 0)
  }

  /** The first part of a cycle: the cycle count advances, WB writes
      back, the window's head leaves when it has completed, and MEM runs.
      Only WB writes a register and only an `sw` in L4 writes memory; L2, L3, L4, the PC and the
      stall are untouched. */
  function Complete(p: Program, s: State): (r: State)
    requires Valid(p, s)
    ensures Valid(p, r)
    ensures r.cycle == s.cycle + 1
    ensures r.l2 == s.l2 && r.l3 == s.l3 && r.l4 == s.l4 && r.pc == s.pc
    ensures r.stall == s.stall && r.stallUntil == s.stallUntil
    ensures r.window == Retire(s).window
    ensures r.mem == Commit(s.mem, MemStore(s))
    ensures forall i | 0 <= i < RegisterCount && r.regs[i] != s.regs[i] ::
              WritebackTarget(p, s.l5) == Some(i) && r.regs[i] == s.l5.valueOne
  {
    var s1 := Retire(Writeback(p, s.(cycle := s.cycle + 1)));
    assert MemStore(s1) == MemStore(s);
    Memory(p, s1)
  }

  /** The back half of a cycle: the first part, then EX.  Without a branch
      in EX the front of the pipeline (L2, the PC, the stall) is left as it
      was. */
  function Back(p: Program, s: State): (r: State)
    requires Valid(p, s)
    ensures Valid(p, r)
    ensures r.cycle == s.cycle + 1
    ensures r.mem == Commit(s.mem, MemStore(s))
    ensures forall i | 0 <= i < RegisterCount && r.regs[i] != s.regs[i] ::
              WritebackTarget(p, s.l5) == Some(i) && r.regs[i] == s.l5.valueOne
    ensures !(Filled(s.l3) && IsBranch(Opcode(s.l3.com))) ==>
              r.window == Retire(s).window && r.l2 == s.l2 && r.l3 == s.l3 && r.pc == s.pc &&
              r.stall == s.stall && r.stallUntil == s.stallUntil
  {
    Execute(p, Complete(p, s))
  }

  /** One call of `EXECUTE_THE_PIPELINE`: the back half, then the stall
      gate, ID and IF.  The store line is the one MEM produced. */
  function Step(p: Program, s: State): (c: Cycle)
    requires Valid(p, s)
    ensures Valid(p, c.state)
    ensures c.state.cycle == s.cycle + 1
    ensures c.state.mem == Commit(s.mem, c.store)
    ensures c.store.Stored? <==> Filled(s.l4) && Opcode(s.l4.com) == "sw"
    ensures c.status == Drained ==> |c.state.window| == 0
    ensures c.store.Stored? ==> c.store == Stored(WordAddress(s.l4), s.l4.valueOne)
    ensures forall i | 0 <= i < RegisterCount && c.state.regs[i] != s.regs[i] ::
              WritebackTarget(p, s.l5) == Some(i) && c.state.regs[i] == s.l5.valueOne
  {
    var b := Back(p, s);
    var f := Fetch(p, Decode(p, StallGate(b)));
    assert f.state.regs == b.regs && f.state.mem == b.mem && f.state.cycle == b.cycle;
    f.(store := MemStore(s))
  }

  /** A load-use pair stalls the use for one cycle.  With no stall pending
      and no branch in EX, the instruction in ID (other than `j`) stalls
      exactly when the load-use check fires against the window as it is
      after this cycle's retirement; a stall holds the PC and L2 and ends
      two cycles on, otherwise the instruction moves on to L3. */
  lemma LoadUseStall(p: Program, s: State)
    requires Valid(p, s) && !s.stall && Filled(s.l2) && Opcode(s.l2.com) != "j"
    requires !(Filled(s.l3) && IsBranch(Opcode(s.l3.com)))
    ensures Step(p, s).state.stall <==> LoadUseCheck(Retire(s).window, s.l2.com)
    ensures Step(p, s).state.stall ==>
              Step(p, s).state.stallUntil == s.cycle + 2 && Step(p, s).state.pc == s.pc &&
              Step(p, s).state.l2 == s.l2 && Step(p, s).state.l3 == s.l3
    ensures !Step(p, s).state.stall ==> Step(p, s).state.l3.com == s.l2.com
  {
    var b := Back(p, s);
    assert !StallGate(b).stall ==> !Decode(p, StallGate(b)).stall;
  }

  /** While a stall is pending and no branch resolves, a cycle holds the
      PC, L2 and the stall's target. */
  lemma StallHolds(p: Program, s: State)
    requires Valid(p, s) && s.stall && s.stallUntil != s.cycle + 1
    requires !(Filled(s.l3) && IsBranch(Opcode(s.l3.com)))
    ensures Step(p, s).state.stall && Step(p, s).state.stallUntil == s.stallUntil
    ensures Step(p, s).state.pc == s.pc && Step(p, s).state.l2 == s.l2 && Step(p, s).state.l3 == s.l3
  {
    var b := Back(p, s);
  }

  /** In the cycle a stall reaches its target it is released and ID
      proceeds without a hazard check: an instruction other than `j` in L2
      moves on to L3 and no stall remains. */
  lemma StallReleased(p: Program, s: State)
    requires Valid(p, s) && s.stall && s.stallUntil == s.cycle + 1
    requires !(Filled(s.l3) && IsBranch(Opcode(s.l3.com)))
    requires Filled(s.l2) && Opcode(s.l2.com) != "j"
    ensures !Step(p, s).state.stall && Step(p, s).state.l3.com == s.l2.com
  {
    var b := Back(p, s);
  }

  /** The back half with a branch in EX: the branch resolves on the
      state WB, retirement and MEM left. */
  lemma BackBranch(p: Program, s: State)
    requires Valid(p, s) && Filled(s.l3) && IsBranch(Opcode(s.l3.com))
    ensures var r := Back(p, s);
            && !Filled(r.l2) && !Filled(r.l3) && r.l4.com == s.l3.com
            && r.stall && r.stallUntil == r.cycle + 1
            && r.pc == (if BranchTaken(s.l3) then LabelAddress(p.labels, Field(s.l3.com, 3))
                        else if TailIsL2(Retire(s)) then s.pc - 1 else s.pc)
            && r.window == if TailIsL2(Retire(s)) then DropTail(Retire(s).window) else Retire(s).window
  {
    var c := Complete(p, s);
    assert TailIsL2(c) == TailIsL2(Retire(s));
  }

  /** A beq or bne in EX squashes L2 and L3, sets a stall that lasts until
      the next cycle, and moves the PC to the label's address exactly when
      taken; a not-taken branch takes back an instruction fetched behind it
      and rewinds the PC onto that instruction. */
  lemma BranchResolves(p: Program, s: State)
    requires Valid(p, s) && Filled(s.l3) && IsBranch(Opcode(s.l3.com))
    ensures var r := Step(p, s).state;
            && !Filled(r.l2) && !Filled(r.l3) && r.l4.com == s.l3.com
            && r.stall && r.stallUntil == s.cycle + 2
            && (BranchTaken(s.l3) ==> r.pc == LabelAddress(p.labels, Field(s.l3.com, 3)))
            && (!BranchTaken(s.l3) ==> r.pc == if TailIsL2(Retire(s)) then s.pc - 1 else s.pc)
  {
    BackBranch(p, s);
    var b := Back(p, s);
    assert StallGate(b) == b && Decode(p, b) == b;
  }

  /** A `j` in ID with no stall pending and no branch in EX moves the PC to
      its label's address (0 for an undefined label, -1 for one defined
      twice) and stalls so that nothing is fetched until the next cycle. */
  lemma JumpResolves(p: Program, s: State)
    requires Valid(p, s) && !s.stall && Filled(s.l2) && Opcode(s.l2.com) == "j"
    requires !(Filled(s.l3) && IsBranch(Opcode(s.l3.com)))
    ensures var r := Step(p, s).state;
            && r.pc == LabelAddress(p.labels, Field(s.l2.com, 1))
            && r.stall && r.stallUntil == s.cycle + 2
            && !Filled(r.l2) && !Filled(r.l3)
  {
    var b := Back(p, s);
    assert StallGate(b) == b;
  }

  /** A load-use stall costs exactly one cycle: ID holds the use (and IF
      its PC) in the cycle that finds the hazard and passes it on in the
      next. */
  lemma LoadUseSpan(p: Program, s: State)
    requires Valid(p, s) && !s.stall && Filled(s.l2) && Opcode(s.l2.com) != "j"
    requires !(Filled(s.l3) && IsBranch(Opcode(s.l3.com)))
    requires LoadUseCheck(Retire(s).window, s.l2.com)
    ensures var s1 := Step(p, s).state;
            && s1.stall && s1.pc == s.pc && s1.l2 == s.l2
            && !Step(p, s1).state.stall && Step(p, s1).state.l3.com == s.l2.com
  {
    LoadUseStall(p, s);
    StallReleased(p, Step(p, s).state);
  }

  /** After a taken branch the squash costs one more cycle: the cycle
      after the branch leaves EX fetches the command at the branch target,
      provided the target is a command of the program with a known
      opcode. */
  lemma BranchRefetches(p: Program, s: State)
    requires Valid(p, s) && Filled(s.l3) && IsBranch(Opcode(s.l3.com)) && BranchTaken(s.l3)
    requires 0 <= LabelAddress(p.labels, Field(s.l3.com, 3)) < |p.commands|
    requires IsOpcode(Opcode(p.commands[LabelAddress(p.labels, Field(s.l3.com, 3))]))
    ensures var t := LabelAddress(p.labels, Field(s.l3.com, 3));
            var c := Step(p, Step(p, s).state);
            && c.status == Running && c.state.l2.com == p.commands[t] && c.state.pc == t + 1
            && c.state.window[|c.state.window| - 1] == Entry(t, p.commands[t])
  {
    BranchResolves(p, s);
    var s1 := Step(p, s).state;
    var b := Back(p, s1);
    assert StallGate(b) == b.(stall := false);
    assert Decode(p, b.(stall := false)) == b.(stall := false);
  }

  /** The front half of a cycle (stall gate, ID, IF) edits only the
      window's tail: ID may take back a `j` that is the tail, IF may append
      one entry; with L2 empty nothing is taken back. */
  lemma FrontWindow(p: Program, b: State)
    requires Valid(p, b)
    ensures var r := Fetch(p, Decode(p, StallGate(b))).state.window;
            && TailEdited(b.window, r)
            && (!Filled(b.l2) ==> |b.window| <= |r| && r[..|b.window|] == b.window)
  {
    var d := Decode(p, StallGate(b));
    assert d.window == b.window || (|b.window| > 0 && d.window == DropTail(b.window));
  }

  /** The window behaves as a queue: over one cycle the entries ahead of
      the tail keep their places and order, the head leaves only when it
      completes (`Retire`), and the tail loses at most one entry to a
      squash and gains at most one by fetch. */
  lemma WindowFifo(p: Program, s: State)
    requires Valid(p, s)
    ensures TailEdited(Retire(s).window, Step(p, s).state.window)
  {
    var b := Back(p, s);
    FrontWindow(p, b);
    if Filled(s.l3) && IsBranch(Opcode(s.l3.com)) {
      BackBranch(p, s);
    }
  }
}
