/** A whole run: the memory-limit check of `executeCommandsPipelined`,
    then cycle after cycle until the window drains or fetch meets an
    unknown opcode.  The source's cycle function calls itself once per
    cycle without bound; here `Iterate` is that recursion with a fuel bound
    on the number of cycles. */
module Driver {
  import opened Text
  import opened Isa
  import opened Machine
  import Forwarding
  import StallOnly

  /** Which simulator: submitpart2.hpp forwards, submitpart1.hpp stalls. */
  datatype Variant = WithForwarding | WithoutForwarding

  /** How a run ends: the program is too long to run at all, the window
      drained, fetch met an unknown opcode, or the fuel ran out. */
  datatype Outcome = MemoryError | Finished | SyntaxAbort | OutOfFuel

  /** The end of a run: its outcome, the last state, and the store line of
      every cycle in order. */
  datatype Trace = Trace(outcome: Outcome, last: State, stores: seq<Store>)

  predicate Ready(v: Variant, p: Program, s: State) {
    match v
    case WithForwarding => Valid(p, s)
    case WithoutForwarding => StallOnly.Valid2(p, s)
  }

  /** One cycle of the chosen variant. */
  function Advance(v: Variant, p: Program, s: State): (c: Cycle)
    requires Ready(v, p, s)
    ensures Ready(v, p, c.state)
    ensures c.state.cycle == s.cycle + 1
    ensures c.state.mem == Commit(s.mem, c.store)
    ensures c.status == Drained ==> |c.state.window| == 0
  {
    match v
    case WithForwarding => Forwarding.Step(p, s)
    case WithoutForwarding => StallOnly.Step(p, s)
  }

  /** Memory after a sequence of store lines, applied in order. */
  function Replay(mem: map<int, int>, stores: seq<Store>): map<int, int>
    decreases |stores|
  {
    if |stores| == 0 then mem else Replay(Commit(mem, stores[0]), stores[1..])
  }

  /** The run from state `s` with at most `fuel` cycles.  Every cycle
      leaves one store line; memory at the end is exactly the start memory
      with those stores applied in order, and the cycle count grows by one
      per line. */
  function Iterate(v: Variant, p: Program, s: State, fuel: nat): (t: Trace)
    requires Ready(v, p, s)
    ensures Ready(v, p, t.last)
    ensures t.outcome != MemoryError
    ensures t.outcome == Finished ==> |t.last.window| == 0
    ensures |t.stores| <= fuel
    ensures t.outcome == OutOfFuel ==> |t.stores| == fuel
    ensures t.last.cycle == s.cycle + |t.stores|
    ensures t.last.mem == Replay(s.mem, t.stores)
    decreases fuel
  {
    if fuel == 0 then Trace(OutOfFuel, s, [])
    else
      var c := Advance(v, p, s);
      if c.status == Drained then Trace(Finished, c.state, [c.store])
      else if c.status == SyntaxError then Trace(SyntaxAbort, c.state, [c.store])
      else
        var rest := Iterate(v, p, c.state, fuel - 1);
        Trace(rest.outcome, rest.last, [c.store] + rest.stores)
  }

  /** `executeCommandsPipelined`: a program of `MAX / 4` commands or more
      is refused before any cycle runs; otherwise the run starts from zeroed
      registers and memory with an empty pipeline. */
  method Simulate(v: Variant, p: Program, fuel: nat) returns (t: Trace)
    requires TableOk(p.names)
    ensures |p.commands| >= MemoryWords ==> t == Trace(MemoryError, Initial(), [])
    ensures |p.commands| < MemoryWords ==> t == Iterate(v, p, Initial(), fuel)
    ensures |p.commands| < MemoryWords ==> t.outcome != MemoryError && t.last.mem == Replay(map[], t.stores)
  {
    if |p.commands| >= MemoryWords {
      return Trace(MemoryError, Initial(), []);
    }
    InitialValid(p);
    StallOnly.InitialValid2(p);
    t := Iterate(v, p, Initial(), fuel);
  }
}
