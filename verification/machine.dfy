/** The state both simulator variants share, and the pieces of a cycle they
    do identically: the ALU, retirement from the in-flight window, branch
    resolution in EX, `j` in ID, the stall gate and instruction fetch.

    A cycle is one call of the simulator's recursive cycle function.  Its
    stages run in the order WB, MEM, EX, ID, IF on one shared state, so a
    later stage sees what an earlier stage of the same call wrote. */
module Machine {
  import opened Text
  import opened Isa

  /** A pipeline latch: the command it carries (empty when the latch has
      never been filled or was cleared) and four integer fields whose
      meaning depends on the opcode and on the stage. */
  datatype Latch = Latch(com: Command, regOne: int, valueOne: int, regTwo: int, valueTwo: int)

  const EmptyLatch := Latch([], 0, 0, 0, 0)

  /** One in-flight instruction: where it was fetched from and its text. */
  datatype Entry = Entry(pc: int, com: Command)

  /** What the loader produced, plus the register-name table. */
  datatype Program = Program(commands: seq<Command>, labels: map<string, int>, names: map<string, int>)

  datatype State = State(
    regs: seq<int>,
    mem: map<int, int>,
    l2: Latch, l3: Latch, l4: Latch, l5: Latch,
    pc: int,
    stall: bool,
    stallUntil: int,
    cycle: int,
    window: seq<Entry>)

  /** The store line a cycle prints: `0`, or `1 addr value`. */
  datatype Store = NoStore | Stored(addr: int, value: int)

  /** How a cycle ends: the recursion goes on, the window drained (the run
      is over), or fetch met an unknown opcode (`SYNTAX_ERROR`). */
  datatype Status = Running | Drained | SyntaxError

  datatype Cycle = Cycle(state: State, store: Store, status: Status)

  /** `MAX / 4` with `MAX = 1 << 20`: the number of data words, and the
      bound on the program length checked before any cycle runs. */
  const MemoryWords := 262144

  /** The simulator object as constructed: zeroed registers and data
      memory, four empty latches with zero fields, no stall, PC 0. */
  function Initial(): (s: State)
    ensures |s.regs| == RegisterCount && forall i | 0 <= i < RegisterCount :: s.regs[i] == 0
    ensures forall a :: Load(s.mem, a) == 0
    ensures s.mem == map[]
    ensures s.l2 == s.l3 == s.l4 == s.l5 == Latch([], 0, 0, 0, 0) && !Filled(s.l2)
    ensures s.window == [] && !s.stall && s.stallUntil == 0 && s.pc == 0 && s.cycle == 0
  {
    State(seq(RegisterCount, _ => 0), map[], EmptyLatch, EmptyLatch, EmptyLatch, EmptyLatch, 0, false, 0, 0, [])
  }

  /** `data[a]`: every word starts at 0. */
  function Load(mem: map<int, int>, a: int): int {
    if a in mem then mem[a] else 0
  }

  /** Memory after a cycle's store line. */
  function Commit(mem: map<int, int>, store: Store): map<int, int> {
    match store
    case NoStore => mem
    case Stored(a, v) => mem[a := v]
  }

  predicate Filled(l: Latch) {
    |l.com| > 0
  }

  predicate LatchOk(l: Latch) {
    0 <= l.regOne < RegisterCount && 0 <= l.regTwo < RegisterCount
  }

  /** An in-flight entry is the command stored at its address, and fetch
      admitted its opcode. */
  predicate EntryOk(p: Program, e: Entry) {
    0 <= e.pc < |p.commands| && e.com == p.commands[e.pc] && IsOpcode(Opcode(e.com))
  }

  predicate WindowOk(p: Program, w: seq<Entry>) {
    forall i | 0 <= i < |w| :: EntryOk(p, w[i])
  }

  /** What every reachable state satisfies: 32 registers, register indices
      in the latches that name registers, and only admitted opcodes in L2
      and in the window. */
  predicate Valid(p: Program, s: State) {
    && TableOk(p.names)
    && |s.regs| == RegisterCount
    && LatchOk(s.l2) && LatchOk(s.l3) && LatchOk(s.l4) && LatchOk(s.l5)
    && (!Filled(s.l2) || IsOpcode(Opcode(s.l2.com)))
    && WindowOk(p, s.window)
  }

  lemma InitialValid(p: Program)
    requires TableOk(p.names)
    ensures Valid(p, Initial())
  {
  }

  /** `registers[registerMap[name]]`. */
  function Reg(p: Program, s: State, name: string): int
    requires TableOk(p.names) && |s.regs| == RegisterCount
  {
    s.regs[RegIndex(p.names, name)]
  }

  function Idx(p: Program, name: string): (r: int)
    requires TableOk(p.names)
    ensures 0 <= r < RegisterCount
  {
    RegIndex(p.names, name)
  }

  /** The EX result of add, sub, mul and slt: slt gives 1 exactly when the
      first operand is smaller.  Integers are unbounded. */
  function AluResult(op: string, a: int, b: int): (r: int)
    requires IsAluR(op)
    ensures op == "slt" ==> (r == 1 <==> a < b) && (r == 0 <==> !(a < b))
  {
    if op == "add" then a + b
    else if op == "sub" then a - b
    else if op == "mul" then a * b
    else if a < b then 1 else 0
  }

  /** Instructions that write a register: add, sub, mul, slt, addi and
      lw, each into the register field 1 names. */
  predicate Produces(c: Command) {
    Opcode(c) == "lw" || IsAluWrite(Opcode(c))
  }

  predicate Writes(c: Command, name: string) {
    Produces(c) && Field(c, 1) == name
  }

  /** The register names an instruction reads before it can execute: both
      sources of an ALU operation, the source of addi, both operands of a
      branch, the base of a memory operand and the data register of sw.
      `j` reads none. */
  function ReadNames(c: Command): set<string> {
    var op := Opcode(c);
    if IsAluR(op) then {Field(c, 2), Field(c, 3)}
    else if op == "addi" then {Field(c, 2)}
    else if IsBranch(op) then {Field(c, 1), Field(c, 2)}
    else if op == "lw" then {ParenText(Field(c, 2))}
    else if op == "sw" then {Field(c, 1), ParenText(Field(c, 2))}
    else {}
  }

  /** Completion: the window's head leaves when L5 carries the same command
      text. */
  function Retire(s: State): (r: State)
    ensures r == s.(window := r.window)
    ensures |s.window| > 0 && s.l5.com == s.window[0].com ==> r.window == s.window[1..]
    ensures !(|s.window| > 0 && s.l5.com == s.window[0].com) ==> r.window == s.window
  {
    if |s.window| > 0 && s.l5.com == s.window[0].com then s.(window := s.window[1..]) else s
  }

  /** The window `r` a cycle leaves behind, against the window `w` after
      retirement: everything but the tail of `w` stays in place and in
      order, at most one entry leaves the tail (a squash) and at most one
      joins it (a fetch). */
  predicate TailEdited(w: seq<Entry>, r: seq<Entry>) {
    |w| - 1 <= |r| <= |w| + 1 && (|w| > 0 ==> r[..|w| - 1] == w[..|w| - 1])
  }

  /** Whether the instruction in L2 is the window's tail, the case in which
      a squash takes it back. */
  predicate TailIsL2(s: State) {
    |s.window| > 0 && s.l2.com == s.window[|s.window| - 1].com
  }

  function DropTail(w: seq<Entry>): seq<Entry>
    requires |w| > 0
  {
    w[..|w| - 1]
  }

  /** beq/bne in EX (identical in both variants).  The target is looked up
      with `operator[]`: 0 for an undefined label, -1 for a duplicate one.
      The latches behind are squashed, a one-cycle stall is set, an
      instruction fetched behind the branch is taken back and the PC
      rewound to it, and the PC moves to the target exactly when the
      branch is taken. */
  function ResolveBranch(p: Program, s: State): (r: State)
    requires Valid(p, s) && IsBranch(Opcode(s.l3.com))
    ensures Valid(p, r)
    ensures r.regs == s.regs && r.mem == s.mem && r.l5 == s.l5 && r.cycle == s.cycle
    ensures !Filled(r.l2) && !Filled(r.l3)
    ensures r.stall && r.stallUntil == s.cycle + 1
    ensures r.l4 == s.l4.(com := s.l3.com, valueOne := LabelAddress(p.labels, Field(s.l3.com, 3)))
    ensures TailIsL2(s) ==> r.window == DropTail(s.window)
    ensures !TailIsL2(s) ==> r.window == s.window
    ensures BranchTaken(s.l3) ==> r.pc == LabelAddress(p.labels, Field(s.l3.com, 3))
    ensures !BranchTaken(s.l3) ==> r.pc == if TailIsL2(s) then s.pc - 1 else s.pc
  {
    var target := LabelAddress(p.labels, Field(s.l3.com, 3));
    var squash := TailIsL2(s);
    var rewound := if squash then s.pc - 1 else s.pc;
    s.(l4 := s.l4.(com := s.l3.com, valueOne := target),
       stall := true,
       stallUntil := s.cycle + 1,
       window := if squash then DropTail(s.window) else s.window,
       pc := if BranchTaken(s.l3) then target else rewound,
       l3 := s.l3.(com := []),
       l2 := s.l2.(com := []))
  }

  /** beq is taken on equal operands, bne on different ones. */
  predicate BranchTaken(l3: Latch) {
    if Opcode(l3.com) == "beq" then l3.valueOne == l3.valueTwo else l3.valueOne != l3.valueTwo
  }

  /** `j` in ID (identical in both variants): the PC moves to the label's
      address at once (0 when undefined, -1 when defined twice), a
      one-cycle stall is set, L2 and L3 are emptied and the `j` itself
      leaves the window when it is the tail. */
  function DecodeJump(p: Program, s: State): (r: State)
    requires Valid(p, s) && Opcode(s.l2.com) == "j"
    ensures Valid(p, r)
    ensures r.regs == s.regs && r.mem == s.mem && r.l4 == s.l4 && r.l5 == s.l5 && r.cycle == s.cycle
    ensures r.pc == LabelAddress(p.labels, Field(s.l2.com, 1)) == r.l3.valueOne
    ensures r.stall && r.stallUntil == s.cycle + 1
    ensures !Filled(r.l2) && !Filled(r.l3)
    ensures TailIsL2(s) ==> r.window == DropTail(s.window)
    ensures !TailIsL2(s) ==> r.window == s.window
  {
    var target := LabelAddress(p.labels, Field(s.l2.com, 1));
    s.(l3 := s.l3.(com := [], valueOne := target),
       pc := target,
       stall := true,
       stallUntil := s.cycle + 1,
       window := if TailIsL2(s) then DropTail(s.window) else s.window,
       l2 := s.l2.(com := []))
  }

  /** The stall gate at the head of ID.  A stall whose target is this cycle
      is released, and no hazard check runs in that cycle; a stall still
      pending is kept; otherwise a hazard found for the filled L2 (`delay`
      cycles, 0 for none) sets a stall until `cycle + delay`. */
  function Gate(s: State, delay: nat): (r: State)
    ensures r == s.(stall := r.stall, stallUntil := r.stallUntil)
    ensures s.stall && s.stallUntil == s.cycle ==> !r.stall && r.stallUntil == s.stallUntil
    ensures s.stall && s.stallUntil != s.cycle ==> r.stall && r.stallUntil == s.stallUntil
    ensures !s.stall ==> (r.stall <==> Filled(s.l2) && delay > 0)
    ensures !s.stall && r.stall ==> r.stallUntil == s.cycle + delay
    ensures !s.stall && !r.stall ==> r.stallUntil == s.stallUntil
  {
    if s.stall && s.stallUntil == s.cycle then s.(stall := false)
    else if !s.stall && Filled(s.l2) && delay > 0 then s.(stall := true, stallUntil := s.cycle + delay)
    else s
  }

  /** Whether IF takes a command this cycle: the PC is inside the program
      (the source compares a signed PC with an unsigned size, so a negative
      PC never qualifies) and the pipeline is not stalled. */
  predicate Fetching(p: Program, s: State) {
    0 <= s.pc < |p.commands| && !s.stall
  }

  /** IF, and the end-of-run test between its two halves: an unknown
      opcode aborts before anything is pushed; otherwise the command joins
      the window's tail, and when the window is then empty the run is over;
      otherwise L2 takes the command and the PC advances by one. */
  function Fetch(p: Program, s: State): (c: Cycle)
    requires Valid(p, s)
    ensures Valid(p, c.state)
    ensures c.store == NoStore
    ensures c.status == SyntaxError <==> Fetching(p, s) && !IsOpcode(Opcode(p.commands[s.pc]))
    ensures c.status == SyntaxError ==> c.state == s
    ensures c.status == Drained <==> !Fetching(p, s) && |s.window| == 0
    ensures !Fetching(p, s) ==> c.state == s
    ensures Fetching(p, s) && c.status == Running ==>
              c.state == s.(window := s.window + [Entry(s.pc, p.commands[s.pc])],
                            l2 := s.l2.(com := p.commands[s.pc]),
                            pc := s.pc + 1)
  {
    if !Fetching(p, s) then
      Cycle(s, NoStore, if |s.window| == 0 then Drained else Running)
    else
      var cmd := p.commands[s.pc];
      if !IsOpcode(Opcode(cmd)) then Cycle(s, NoStore, SyntaxError)
      else
        var w := s.window + [Entry(s.pc, cmd)];
        assert forall i | 0 <= i < |w| :: w[i] == if i < |s.window| then s.window[i] else Entry(s.pc, cmd);
        Cycle(s.(window := w, l2 := s.l2.(com := cmd), pc := s.pc + 1), NoStore, Running)
  }
}
