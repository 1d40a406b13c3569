/** The stall-only variant of the cycle (`runCycle` in submitpart1.hpp).
    ID reads every operand from the register file and computes an
    `lw`/`sw` word address itself; a hazard with an instruction still in
    flight stalls ID for one or two cycles instead of forwarding.  `lw`
    reads memory in WB, and an `sw` stores only in the cycle it first
    reaches L5. */
module StallOnly {
  import opened Text
  import opened Isa
  import opened Machine

  /** An `lw` past EX carries the index of its destination register in
      VALUE_ONE. */
  predicate LoadIndexOk(l: Latch) {
    Filled(l) && Opcode(l.com) == "lw" ==> 0 <= l.valueOne < RegisterCount
  }

  /** The shared invariant plus what WB's indexing by VALUE_ONE needs. */
  predicate Valid2(p: Program, s: State) {
    Valid(p, s) && LoadIndexOk(s.l4) && LoadIndexOk(s.l5)
  }

  lemma InitialValid2(p: Program)
    requires TableOk(p.names)
    ensures Valid2(p, Initial())
  {
  }

  /** The register WB writes for the instruction in L5, if any: REG_ONE of
      an ALU-class instruction, VALUE_ONE of an `lw`. */
  function WritebackTarget(l5: Latch): (k: Option<int>)
    requires LatchOk(l5) && LoadIndexOk(l5)
    ensures k.Some? <==> Filled(l5) && (IsAluWrite(Opcode(l5.com)) || Opcode(l5.com) == "lw")
    ensures k.Some? ==> 0 <= k.value < RegisterCount
  {
    if !Filled(l5) then None
    else if IsAluWrite(Opcode(l5.com)) then Some(l5.regOne)
    else if Opcode(l5.com) == "lw" then Some(l5.valueOne)
    else None
  }

  /** The value WB writes: an ALU result carried in VALUE_ONE, or for `lw`
      the memory word at the address carried in VALUE_TWO. */
  function WritebackValue(s: State): int {
    if Opcode(s.l5.com) == "lw" then Load(s.mem, s.l5.valueTwo) else s.l5.valueOne
  }

  /** WB writes one register, or none for beq, bne, j and sw.  The load
      itself happens here: an `lw` reads memory as it stands when WB runs,
      before this cycle's MEM. */
  function Writeback(p: Program, s: State): (r: State)
    requires Valid2(p, s)
    ensures Valid2(p, r)
    ensures r == s.(regs := r.regs)
    ensures WritebackTarget(s.l5).None? ==> r.regs == s.regs
    ensures WritebackTarget(s.l5).Some? ==> r.regs == s.regs[WritebackTarget(s.l5).value := WritebackValue(s)]
    ensures Filled(s.l5) && Opcode(s.l5.com) == "lw" ==> r.regs[s.l5.valueOne] == Load(s.mem, s.l5.valueTwo)
  {
    match WritebackTarget(s.l5)
    case None => s
    case Some(k) => s.(regs := s.regs[k := WritebackValue(s)])
  }

  /** The store MEM performs: an `sw` in L4 stores VALUE_ONE at word
      VALUE_TWO only when L5 does not already hold the same command text,
      which makes a store happen once although L4 may keep the `sw` for
      several cycles. */
  function MemStore(s: State): (st: Store)
    ensures st.Stored? <==> Filled(s.l4) && Opcode(s.l4.com) == "sw" && s.l5.com != s.l4.com
    ensures st.Stored? ==> st.addr == s.l4.valueTwo && st.value == s.l4.valueOne
  {
    if Filled(s.l4) && Opcode(s.l4.com) == "sw" && s.l5.com != s.l4.com then Stored(s.l4.valueTwo, s.l4.valueOne)
    else NoStore
  }

  /** MEM: a filled L4 moves to L5 whole; nothing is loaded here. */
  function Memory(p: Program, s: State): (r: State)
    requires Valid2(p, s)
    ensures Valid2(p, r)
    ensures r == s.(mem := r.mem, l5 := r.l5)
    ensures r.mem == Commit(s.mem, MemStore(s))
    ensures r.l5 == if Filled(s.l4) then s.l4 else s.l5
  {
    if !Filled(s.l4) then s else s.(l5 := s.l4, mem := Commit(s.mem, MemStore(s)))
  }

  /** EX: ALU operations as in the other variant; `lw` and `sw` carry the
      word address in VALUE_TWO, and an `lw` turns VALUE_ONE into the
      index of its destination; addi adds its immediate to VALUE_TWO. */
  function Execute(p: Program, s: State): (r: State)
    requires Valid2(p, s)
    ensures Valid2(p, r)
    ensures r.regs == s.regs && r.mem == s.mem && r.l5 == s.l5 && r.cycle == s.cycle
    ensures !Filled(s.l3) ==> r == s
    ensures !(Filled(s.l3) && IsBranch(Opcode(s.l3.com))) ==> r == s.(l4 := r.l4)
    ensures Filled(s.l3) && IsAluR(Opcode(s.l3.com)) ==>
              r.l4 == s.l4.(com := s.l3.com, regOne := Idx(p, Field(s.l3.com, 1)),
                            valueOne := AluResult(Opcode(s.l3.com), s.l3.valueOne, s.l3.valueTwo))
    ensures Filled(s.l3) && Opcode(s.l3.com) == "addi" ==>
              r.l4 == s.l4.(com := s.l3.com, regOne := s.l3.regOne, valueOne := Imm(Field(s.l3.com, 3)) + s.l3.valueTwo)
    ensures Filled(s.l3) && Opcode(s.l3.com) == "lw" ==>
              r.l4 == s.l4.(com := s.l3.com, regOne := s.l3.regOne, valueOne := Idx(p, Field(s.l3.com, 1)),
                            valueTwo := s.l3.valueTwo)
    ensures Filled(s.l3) && Opcode(s.l3.com) == "sw" ==>
              r.l4 == s.l4.(com := s.l3.com, regOne := s.l3.regOne, valueOne := s.l3.valueOne,
                            valueTwo := s.l3.valueTwo)
    ensures Filled(s.l3) && IsBranch(Opcode(s.l3.com)) ==> r == ResolveBranch(p, s)
  {
    if !Filled(s.l3) then s
    else
      var c := s.l3.com;
      var op := Opcode(c);
      if IsAluR(op) then
        s.(l4 := s.l4.(com := c, regOne := Idx(p, Field(c, 1)), valueOne := AluResult(op, s.l3.valueOne, s.l3.valueTwo)))
      else if IsBranch(op) then ResolveBranch(p, s)
      else if op == "j" then s.(l4 := s.l4.(com := c))
      else if op == "sw" then
        s.(l4 := s.l4.(com := c, valueTwo := s.l3.valueTwo, valueOne := s.l3.valueOne, regOne := s.l3.regOne))
      else if op == "lw" then
        s.(l4 := s.l4.(com := c, valueTwo := s.l3.valueTwo, valueOne := Idx(p, Field(c, 1)), regOne := s.l3.regOne))
      else if op == "addi" then
        s.(l4 := s.l4.(com := c, regOne := s.l3.regOne, valueOne := Imm(Field(c, 3)) + s.l3.valueTwo))
      else s
  }

  /** A producer (ALU class or `lw`) at window[-2] writes one of `xs`. */
  predicate NearWrites(w: seq<Entry>, xs: set<string>) {
    |w| >= 2 && Produces(w[|w| - 2].com) && Field(w[|w| - 2].com, 1) in xs
  }

  /** An ALU-class instruction (not `lw`) at window[-3] writes one of
      `xs`. */
  predicate FarWrites(w: seq<Entry>, xs: set<string>) {
    |w| >= 3 && IsAluWrite(Opcode(w[|w| - 3].com)) && Field(w[|w| - 3].com, 1) in xs
  }

  /** The `lw` in ID addresses the same word as an `sw` at window[-2], both
      addresses computed with the current registers. */
  predicate StoreAliases(p: Program, s: State)
    requires TableOk(p.names) && |s.regs| == RegisterCount
  {
    var w := s.window;
    |w| >= 2 && Opcode(w[|w| - 2].com) == "sw" &&
    LocateAddress(Field(w[|w| - 2].com, 2), p.names, s.regs) == LocateAddress(Field(s.l2.com, 2), p.names, s.regs)
  }

  /** One round of the source's checks for the operand names `xs`, on top
      of a delay `d` an earlier round set: a producer at window[-2] raises
      the delay to 2; when still no stall is set, an ALU-class instruction
      at window[-3] sets 1. */
  function Round(w: seq<Entry>, xs: set<string>, d: nat): (d': nat)
    requires d <= 1
    ensures d' <= 2
    ensures d' == 2 <==> NearWrites(w, xs)
    ensures d' == 1 <==> !NearWrites(w, xs) && (d == 1 || FarWrites(w, xs))
  {
    var d1 := if NearWrites(w, xs) then 2 else d;
    if d1 == 0 && FarWrites(w, xs) then 1 else d1
  }

  /** The hazard unit, opcode by opcode as the source orders its checks:
      the two sources of an ALU operation or branch together; for `lw` the
      store-address alias first, then the base register; for `sw` the data
      register, then (unless a two-cycle stall is already set) the base;
      for addi its one source; none for `j`.  The delay is 2 exactly when a
      window[-2] producer writes a register the instruction reads, 1 when
      instead an ALU-class window[-3] does or, for `lw`, a window[-2] `sw`
      stores to the word it loads, and 0 otherwise. */
  function HazardDelay(p: Program, s: State): (d: nat)
    requires TableOk(p.names) && |s.regs| == RegisterCount
    ensures d <= 2
    ensures d == 2 <==> NearWrites(s.window, ReadNames(s.l2.com))
    ensures d == 1 <==> !NearWrites(s.window, ReadNames(s.l2.com)) &&
                        (FarWrites(s.window, ReadNames(s.l2.com)) || (Opcode(s.l2.com) == "lw" && StoreAliases(p, s)))
  {
    var w := s.window;
    var c := s.l2.com;
    var op := Opcode(c);
    if IsAluR(op) then Round(w, {Field(c, 2), Field(c, 3)}, 0)
    else if IsBranch(op) then Round(w, {Field(c, 1), Field(c, 2)}, 0)
    else if op == "lw" then
      var alias := if StoreAliases(p, s) then 1 else 0;
      Round(w, {ParenText(Field(c, 2))}, alias)
    else if op == "sw" then
      var first := Round(w, {Field(c, 1)}, 0);
      var d := if first == 2 then 2 else Round(w, {ParenText(Field(c, 2))}, first);
      UnionRounds(w, Field(c, 1), ParenText(Field(c, 2)));
      d
    else if op == "addi" then Round(w, {Field(c, 2)}, 0)
    else 0
  }

  /** A producer or an ALU-class instruction writing one of two names
      writes one of the pair. */
  lemma UnionRounds(w: seq<Entry>, x: string, y: string)
    ensures NearWrites(w, {x, y}) <==> NearWrites(w, {x}) || NearWrites(w, {y})
    ensures FarWrites(w, {x, y}) <==> FarWrites(w, {x}) || FarWrites(w, {y})
  {
  }

  /** ID: every operand is read from the register file, with no
      forwarding: VALUE_ONE is the register REG_ONE names, and VALUE_TWO
      the register REG_TWO names, or for `lw` and `sw` the word address
      computed from the current registers. */
  function Decode(p: Program, s: State): (r: State)
    requires Valid2(p, s)
    ensures Valid2(p, r)
    ensures r.regs == s.regs && r.mem == s.mem && r.l4 == s.l4 && r.l5 == s.l5 && r.cycle == s.cycle
    ensures s.stall || !Filled(s.l2) ==> r == s
    ensures !s.stall && Filled(s.l2) && Opcode(s.l2.com) == "j" ==> r == DecodeJump(p, s)
    ensures !s.stall && Filled(s.l2) && Opcode(s.l2.com) != "j" ==>
              && r == s.(l3 := r.l3) && r.l3.com == s.l2.com
              && r.l3.valueOne == s.regs[r.l3.regOne]
    ensures !s.stall && Filled(s.l2) && (IsAluR(Opcode(s.l2.com)) || IsBranch(Opcode(s.l2.com)) || Opcode(s.l2.com) == "addi") ==>
              r.l3.valueTwo == s.regs[r.l3.regTwo]
    ensures !s.stall && Filled(s.l2) && IsAluR(Opcode(s.l2.com)) ==>
              r.l3.regOne == Idx(p, Field(s.l2.com, 2)) && r.l3.regTwo == Idx(p, Field(s.l2.com, 3))
    ensures !s.stall && Filled(s.l2) && IsBranch(Opcode(s.l2.com)) ==>
              r.l3.regOne == Idx(p, Field(s.l2.com, 1)) && r.l3.regTwo == Idx(p, Field(s.l2.com, 2))
    ensures !s.stall && Filled(s.l2) && Opcode(s.l2.com) == "addi" ==>
              r.l3.regOne == Idx(p, Field(s.l2.com, 1)) && r.l3.regTwo == Idx(p, Field(s.l2.com, 2))
    ensures !s.stall && Filled(s.l2) && (Opcode(s.l2.com) == "lw" || Opcode(s.l2.com) == "sw") ==>
              r.l3.regOne == Idx(p, Field(s.l2.com, 1)) &&
              r.l3.valueTwo == LocateAddress(Field(s.l2.com, 2), p.names, s.regs)
  {
    if s.stall || !Filled(s.l2) then s
    else
      var c := s.l2.com;
      var op := Opcode(c);
      if op == "j" then DecodeJump(p, s)
      else
        var l3 := s.l3.(com := c);
        var x := Field(c, 1);
        var y := Field(c, 2);
        if IsAluR(op) then
          s.(l3 := l3.(regOne := Idx(p, y), regTwo := Idx(p, Field(c, 3)), valueOne := Reg(p, s, y), valueTwo := Reg(p, s, Field(c, 3))))
        else if IsBranch(op) || op == "addi" then
          s.(l3 := l3.(regOne := Idx(p, x), regTwo := Idx(p, y), valueOne := Reg(p, s, x), valueTwo := Reg(p, s, y)))
        else
          s.(l3 := l3.(regOne := Idx(p, x), valueOne := Reg(p, s, x), valueTwo := LocateAddress(y, p.names, s.regs)))
  }

  /** The first part of a cycle: the cycle count advances, WB writes
      back, the window's head leaves when it has completed, and MEM runs.
      Only WB writes a register and only a first-time `sw` in L4 writes memory; L2, L3, L4, the PC and the
      stall are untouched. */
  function Complete(p: Program, s: State): (r: State)
    requires Valid2(p, s)
    ensures Valid2(p, r)
    ensures r.cycle == s.cycle + 1
    ensures r.l2 == s.l2 && r.l3 == s.l3 && r.l4 == s.l4 && r.pc == s.pc
    ensures r.stall == s.stall && r.stallUntil == s.stallUntil
    ensures r.window == Retire(s).window
    ensures r.mem == Commit(s.mem, MemStore(s))
    ensures forall i | 0 <= i < RegisterCount && r.regs[i] != s.regs[i] ::
              WritebackTarget(s.l5) == Some(i) && r.regs[i] == WritebackValue(s)
    ensures r.l5 == if Filled(s.l4) then s.l4 else s.l5
  {
    var s1 := Retire(Writeback(p, s.(cycle := s.cycle + 1)));
    assert MemStore(s1) == MemStore(s);
    Memory(p, s1)
  }

  /** The back half of a cycle: the first part, then EX.  Without a branch
      in EX the front of the pipeline (L2, the PC, the stall) is left as it
      was. */
  function Back(p: Program, s: State): (r: State)
    requires Valid2(p, s)
    ensures Valid2(p, r)
    ensures r.cycle == s.cycle + 1
    ensures r.mem == Commit(s.mem, MemStore(s))
    ensures forall i | 0 <= i < RegisterCount && r.regs[i] != s.regs[i] ::
              WritebackTarget(s.l5) == Some(i) && r.regs[i] == WritebackValue(s)
    ensures r.l5 == if Filled(s.l4) then s.l4 else s.l5
    ensures !(Filled(s.l3) && IsBranch(Opcode(s.l3.com))) ==>
              r.window == Retire(s).window && r.l2 == s.l2 && r.l3 == s.l3 && r.pc == s.pc &&
              r.stall == s.stall && r.stallUntil == s.stallUntil
  {
    Execute(p, Complete(p, s))
  }

  /** The stall gate: a hazard found for L2 stalls for its delay. */
  function StallGate(p: Program, s: State): State
    requires TableOk(p.names) && |s.regs| == RegisterCount
  {
    Gate(s, HazardDelay(p, s))
  }

  /** One call of `runCycle`: the back half, then the stall gate, ID and
      IF.  The store line is the one MEM produced. */
  function Step(p: Program, s: State): (c: Cycle)
    requires Valid2(p, s)
    ensures Valid2(p, c.state)
    ensures c.state.cycle == s.cycle + 1
    ensures c.state.mem == Commit(s.mem, c.store)
    ensures c.store.Stored? <==> Filled(s.l4) && Opcode(s.l4.com) == "sw" && s.l5.com != s.l4.com
    ensures c.status == Drained ==> |c.state.window| == 0
    ensures c.store.Stored? ==> c.store == Stored(s.l4.valueTwo, s.l4.valueOne)
    ensures Filled(s.l4) ==> c.state.l5 == s.l4
    ensures forall i | 0 <= i < RegisterCount && c.state.regs[i] != s.regs[i] ::
              WritebackTarget(s.l5) == Some(i) && c.state.regs[i] == WritebackValue(s)
  {
    var b := Back(p, s);
    var f := Fetch(p, Decode(p, StallGate(p, b)));
    assert f.state.regs == b.regs && f.state.mem == b.mem && f.state.cycle == b.cycle && f.state.l5 == b.l5;
    f.(store := MemStore(s))
  }

  /** A hazard stalls ID for its delay.  With no stall pending and no
      branch in EX, the instruction in ID (other than `j`) stalls exactly
      when the hazard unit reports a delay against the window as it is
      after this cycle's retirement; the stall holds the PC and L2 and ends
      `delay` cycles on.  Otherwise the instruction moves on to L3. */
  lemma HazardStall(p: Program, s: State)
    requires Valid2(p, s) && !s.stall && Filled(s.l2) && Opcode(s.l2.com) != "j"
    requires !(Filled(s.l3) && IsBranch(Opcode(s.l3.com)))
    ensures var d := HazardDelay(p, Back(p, s));
            && (Step(p, s).state.stall <==> d > 0)
            && (Step(p, s).state.stall ==>
                  Step(p, s).state.stallUntil == s.cycle + 1 + d && Step(p, s).state.pc == s.pc &&
                  Step(p, s).state.l2 == s.l2 && Step(p, s).state.l3 == s.l3)
    ensures !Step(p, s).state.stall ==> Step(p, s).state.l3.com == s.l2.com
  {
    var b := Back(p, s);
  }

  /** While a stall is pending and no branch resolves, a cycle holds the
      PC, L2 and the stall's target. */
  lemma StallHolds(p: Program, s: State)
    requires Valid2(p, s) && s.stall && s.stallUntil != s.cycle + 1
    requires !(Filled(s.l3) && IsBranch(Opcode(s.l3.com)))
    ensures Step(p, s).state.stall && Step(p, s).state.stallUntil == s.stallUntil
    ensures Step(p, s).state.pc == s.pc && Step(p, s).state.l2 == s.l2 && Step(p, s).state.l3 == s.l3
  {
    var b := Back(p, s);
  }

  /** In the cycle a stall reaches its target it is released and ID
      proceeds without a hazard check: an instruction other than `j` in L2
      moves on to L3 and no stall remains. */
  lemma StallReleased(p: Program, s: State)
    requires Valid2(p, s) && s.stall && s.stallUntil == s.cycle + 1
    requires !(Filled(s.l3) && IsBranch(Opcode(s.l3.com)))
    requires Filled(s.l2) && Opcode(s.l2.com) != "j"
    ensures !Step(p, s).state.stall && Step(p, s).state.l3.com == s.l2.com
  {
    var b := Back(p, s);
  }

  /** The back half with a branch in EX: the branch resolves on the
      state WB, retirement and MEM left. */
  lemma BackBranch(p: Program, s: State)
    requires Valid2(p, s) && Filled(s.l3) && IsBranch(Opcode(s.l3.com))
    ensures var r := Back(p, s);
            && !Filled(r.l2) && !Filled(r.l3) && r.l4.com == s.l3.com
            && r.stall && r.stallUntil == r.cycle + 1
            && r.pc == (if BranchTaken(s.l3) then LabelAddress(p.labels, Field(s.l3.com, 3))
                        else if TailIsL2(Retire(s)) then s.pc - 1 else s.pc)
            && r.window == if TailIsL2(Retire(s)) then DropTail(Retire(s).window) else Retire(s).window
  {
    var c := Complete(p, s);
    assert TailIsL2(c) == TailIsL2(Retire(s));
  }

  /** beq and bne resolve in EX exactly as in the forwarding variant. */
  lemma BranchResolves(p: Program, s: State)
    requires Valid2(p, s) && Filled(s.l3) && IsBranch(Opcode(s.l3.com))
    ensures var r := Step(p, s).state;
            && !Filled(r.l2) && !Filled(r.l3) && r.l4.com == s.l3.com
            && r.stall && r.stallUntil == s.cycle + 2
            && (BranchTaken(s.l3) ==> r.pc == LabelAddress(p.labels, Field(s.l3.com, 3)))
            && (!BranchTaken(s.l3) ==> r.pc == if TailIsL2(Retire(s)) then s.pc - 1 else s.pc)
  {
    BackBranch(p, s);
    var b := Back(p, s);
    assert StallGate(p, b) == b && Decode(p, b) == b;
  }

  /** A `j` in ID moves the PC to its label's address and stalls fetch for
      a cycle; the hazard unit never stalls a `j`. */
  lemma JumpResolves(p: Program, s: State)
    requires Valid2(p, s) && !s.stall && Filled(s.l2) && Opcode(s.l2.com) == "j"
    requires !(Filled(s.l3) && IsBranch(Opcode(s.l3.com)))
    ensures var r := Step(p, s).state;
            && r.pc == LabelAddress(p.labels, Field(s.l2.com, 1))
            && r.stall && r.stallUntil == s.cycle + 2
            && !Filled(r.l2) && !Filled(r.l3)
  {
    var b := Back(p, s);
    assert StallGate(p, b) == b;
  }

  /** An `sw` stores once: after the cycle that moves it from L4 to L5, a
      cycle in which L4 still (or again) holds the same command text stores
      nothing. */
  lemma StoreOnce(p: Program, s: State)
    requires Valid2(p, s) && Filled(s.l4) && Opcode(s.l4.com) == "sw"
    requires Step(p, s).state.l4.com == s.l4.com
    ensures Step(p, Step(p, s).state).store == NoStore
  {
  }

  /** A two-cycle hazard: ID holds its instruction (and IF its PC) for the
      cycle that finds the hazard and the next one, and passes it on in the
      cycle after, when the stall is released. */
  lemma TwoCycleStall(p: Program, s: State)
    requires Valid2(p, s) && !s.stall && Filled(s.l2) && Opcode(s.l2.com) != "j"
    requires !(Filled(s.l3) && IsBranch(Opcode(s.l3.com)))
    requires HazardDelay(p, Back(p, s)) == 2
    ensures var s1 := Step(p, s).state;
            var s2 := Step(p, s1).state;
            && s1.stall && s2.stall && !Step(p, s2).state.stall
            && s1.pc == s.pc && s2.pc == s.pc && s1.l2 == s.l2 && s2.l2 == s.l2
            && Step(p, s2).state.l3.com == s.l2.com
  {
    HazardStall(p, s);
    var s1 := Step(p, s).state;
    StallHolds(p, s1);
    var s2 := Step(p, s1).state;
    StallReleased(p, s2);
  }

  /** After a taken branch the squash costs one more cycle: the cycle
      after the branch leaves EX fetches the command at the branch target,
      provided the target is a command of the program with a known
      opcode. */
  lemma BranchRefetches(p: Program, s: State)
    requires Valid2(p, s) && Filled(s.l3) && IsBranch(Opcode(s.l3.com)) && BranchTaken(s.l3)
    requires 0 <= LabelAddress(p.labels, Field(s.l3.com, 3)) < |p.commands|
    requires IsOpcode(Opcode(p.commands[LabelAddress(p.labels, Field(s.l3.com, 3))]))
    ensures var t := LabelAddress(p.labels, Field(s.l3.com, 3));
            var c := Step(p, Step(p, s).state);
            && c.status == Running && c.state.l2.com == p.commands[t] && c.state.pc == t + 1
            && c.state.window[|c.state.window| - 1] == Entry(t, p.commands[t])
  {
    BranchResolves(p, s);
    var s1 := Step(p, s).state;
    var b := Back(p, s1);
    assert StallGate(p, b) == b.(stall := false);
    assert Decode(p, b.(stall := false)) == b.(stall := false);
  }

  /** The front half of a cycle (stall gate, ID, IF) edits only the
      window's tail: ID may take back a `j` that is the tail, IF may append
      one entry; with L2 empty nothing is taken back. */
  lemma FrontWindow(p: Program, b: State)
    requires Valid2(p, b)
    ensures var r := Fetch(p, Decode(p, StallGate(p, b))).state.window;
            && TailEdited(b.window, r)
            && (!Filled(b.l2) ==> |b.window| <= |r| && r[..|b.window|] == b.window)
  {
    var d := Decode(p, StallGate(p, b));
    assert d.window == b.window || (|b.window| > 0 && d.window == DropTail(b.window));
  }

  /** The window behaves as a queue, as in the forwarding variant. */
  lemma WindowFifo(p: Program, s: State)
    requires Valid2(p, s)
    ensures TailEdited(Retire(s).window, Step(p, s).state.window)
  {
    var b := Back(p, s);
    FrontWindow(p, b);
    if Filled(s.l3) && IsBranch(Opcode(s.l3.com)) {
      BackBranch(p, s);
    }
  }
}
