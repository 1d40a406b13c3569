# A five-stage MIPS pipeline simulator, modelled in Dafny

The modelled program is a cycle-by-cycle simulator for a ten-instruction subset of
MIPS (`add`, `sub`, `mul`, `slt`, `addi`, `beq`, `bne`, `j`, `lw`, `sw`). It runs
a program through the stages IF, ID, EX, MEM and WB. It comes in two variants
that share one machine state:

- `submitpart2.hpp` (`EXECUTE_THE_PIPELINE`), module `Forwarding`. ID takes
  operand values from the L4 and L5 latches when an instruction ahead writes a
  register of the same name. Only a load immediately followed by a use stalls,
  for one cycle. `lw` reads memory in MEM.
- `submitpart1.hpp` (`runCycle`), module `StallOnly`. There is no forwarding.
  A dependency on the instruction right ahead stalls ID for two cycles; one on
  the instruction before that stalls it for one. ID computes `lw`/`sw` word
  addresses from the register file. `lw` reads memory in WB. An `sw` stores
  only in the cycle it first reaches L5.

Files:

- `text.dfy` (module `Text`) holds the string helpers. These are `std::stoi`
  as a prefix parse, `to_string`, `find` as an int with -1 for "not found",
  and the space joining of trailing tokens.
- `isa.dfy` (module `Isa`) holds the instruction set:
  - the opcode set;
  - the register-name table the constructor builds;
  - `locateAddress`, using C++ truncating `/ 4`;
  - the label lookup with `operator[]`.
- `loader.dfy` (module `Loader`) holds `parseCommand` from a token sequence
  onward, the label table, and `checkLabel` / `checkRegister`.
- `machine.dfy` (module `Machine`) holds what both variants share:
  - the state: registers, sparse memory, latches L2–L5, the PC, the stall and
    its target cycle, the cycle count, and the in-flight window of
    `(pc, command)` pairs;
  - its invariant;
  - retirement of the window head;
  - `beq`/`bne` resolved in EX;
  - `j` resolved in ID;
  - the stall gate;
  - fetch.
- `forwarding.dfy` and `stallonly.dfy` each hold one variant's stages and its
  `Step`. Within one call the stages run WB, then MEM, EX, ID and IF. ID
  therefore sees L4 and L5 as EX and MEM refilled them in the same call.
- `driver.dfy` (module `Driver`) holds the memory-limit check of
  `executeCommandsPipelined` and the run itself. The source's
  one-call-per-cycle recursion becomes a fuel-bounded recursive function.

Commands are kept as their four text fields, because the hazard units compare
register names as text: `$8` and `$t0` are the same register but never
conflict (`Isa.AliasedSpellings`). A latch is overwritten only when the latch
upstream of it is filled, so stale values flow on exactly as in the source.

Some behaviour of the source shows up in the contracts:

- Forwarding variant, lone `lw`: when the `lw` in ID is alone in flight, its
  base register value goes to VALUE_ONE and VALUE_TWO keeps whatever L3 held.
  MEM uses VALUE_TWO for the address.
- Forwarding variant, `lw` base written by an ALU-class instruction at
  window[-3]: the value is forwarded into VALUE_ONE rather than VALUE_TWO
  (`Forwarding.LoadBaseMisrouted`).
- Forwarding variant, priority: a producer at window[-3] overrides a match at
  window[-2] (`Forwarding.ForwardedValue`).
- Stall-only variant, store-once guard: MEM stores only when L5's command
  text differs from L4's (`submitpart1.hpp:403`). Two identical `sw` lines
  back to back therefore store only once. The forwarding variant has no such
  guard: it stores every cycle L4 holds `sw`, so both lines store.
- Both variants, retirement: the head of the window is popped when L5 holds
  a command with equal *text*, not necessarily the same instruction.
- Labels: an undefined label resolves to 0 and a label defined twice resolves
  to -1. A negative PC fetches nothing, so a run whose window then drains
  ends normally.

## Model

| member | source | states |
|---|---|---|
| Text.Find | submitpart2.hpp:152-153 | `find` as an int: the first index of the character, and -1 exactly when it does not occur |
| Text.StoIReadsRendering | submitpart2.hpp:154-156 | `stoi` reads back exactly the number `to_string` rendered, whatever non-digit text follows |
| Text.IntToStringInjective | submitpart2.hpp:57-58 | different numbers get different `to_string` renderings, so the first loop's `"$" + to_string(i)` names never collide (used by `Isa.NumericUpToHas`) |
| Isa.NumericUpToShape | submitpart2.hpp:57-58 | after the first loop's rounds up to `n`, every entry is `"$" + to_string(i)` for some register `i < n`, mapped to `i` |
| Isa.NumericUpToHas | submitpart2.hpp:57-58 | no later round of the first loop overwrites an earlier one: `"$" + to_string(i)` still maps to `i` |
| Text.SplitJoin | submitpart2.hpp:296-298 | tokens joined into the fourth field with single spaces split back into the same tokens |
| Isa.RegisterMap | submitpart2.hpp:57-74 | every name the constructor enters denotes one of the 32 registers and starts with `$` |
| Isa.NumericNameResolves | submitpart2.hpp:57-58 | a numeric name that no conventional name shadows resolves to its own number |
| Isa.SymbolicNameResolves | submitpart2.hpp:59-74 | a conventional name resolves to the register its later insertion gave it |
| Isa.AliasedSpellings | submitpart2.hpp:548-551 | `$8` and `$t0` denote register 8, yet the textual hazard comparison sees different names |
| Isa.UnknownNameIsZero | submitpart2.hpp:156 | a name not spelled `$` plus at least one character is not in the table, and `registerMap[name]` on it reads register 0 |
| Isa.RegIndex | submitpart2.hpp:156 | a table lookup always yields a register index in 0..31 |
| Isa.Quarter | submitpart2.hpp:156 | C++ `/ 4` truncates toward zero: the remainder has the sign of the dividend |
| Isa.MemOperandParses | submitpart2.hpp:149-157 | on `offset($reg)` the offset parse gives back the offset, and the address and hazard extractions both give back the base name |
| Isa.LocateWellFormed | submitpart1.hpp:149-159 | `locateAddress` of a well-formed operand is `(offset + registers[base]) / 4`, truncated |
| Loader.StripComment | submitpart1.hpp:256 | the kept text is the line up to the first `#`, and contains no `#` |
| Loader.Define | submitpart1.hpp:266-270 | a label's first definition maps it to the index of the next stored command; a redefinition sets it to -1; other labels are untouched |
| Loader.Fit4 | submitpart1.hpp:305-309 | a stored command has exactly four fields; the first three tokens are kept, missing fields are empty, and extra tokens join the fourth with spaces |
| Loader.Fit4KeepsTokens | submitpart1.hpp:305-308 | no token beyond the fourth is lost: splitting the fourth field gives back every token from the fourth on |
| Loader.ParseCommand | submitpart1.hpp:253-311 | a line changes the label table only through `Define` of the label it names and stores at most one four-field command, appended after the old ones; for each label form (`L: …`, `L:op …`, `L :op …`, `L : …`) and for a plain instruction, which tokens become that command; a lone token stores nothing |
| Loader.ParseLines | submitpart1.hpp:314-320 | reading lines keeps every command in place and every label defined; a label that was ambiguous stays -1 |
| Loader.LabelNamesNextCommand | submitpart1.hpp:264-273 | a label alone on its line names the command stored from the next line |
| Loader.AmbiguousLabelStays | submitpart1.hpp:266-270 | a label defined twice stays -1 whatever lines follow |
| Loader.LoneLabelDefines | submitpart1.hpp:264-273 | a line holding only `name:` defines `name` and stores no command |
| Loader.SameLineLabelNamesItsCommand | submitpart1.hpp:274-310 | a fresh label written on the same line as an instruction, in any of the four spellings, maps to the index of the command stored from that line, and that command is the instruction's four fields |
| Loader.CheckLabel | submitpart1.hpp:177-182 | a string is a valid label exactly when it starts with a letter, every character is a letter or digit, and it is not an opcode; so it contains neither `:` nor `$` |
| Loader.CheckRegister | submitpart1.hpp:185-188 | a valid register name is a key of the table; any other name reads register 0 |
| Loader.LabelsAreNotRegisters | submitpart1.hpp:177-188 | no string is both a valid label and a valid register name |
| Machine.Initial | submitpart1.hpp:31-40 | a run starts with 32 zeroed registers, all-zero data memory, four empty latches with zero fields, PC 0, no stall, stall target 0 and an empty window |
| Machine.AluResult | submitpart2.hpp:423-448 | `slt` yields 1 exactly when the first operand is smaller and 0 otherwise |
| Machine.Retire | submitpart2.hpp:362-367 | the window's head leaves exactly when L5 holds the same command; nothing else changes |
| Machine.ResolveBranch | submitpart2.hpp:466-503 | a `beq`/`bne` in EX squashes L2 and L3 and sets a one-cycle stall; it takes back L2 and rewinds the PC when L2 is the window tail; the PC moves to `address[label]` exactly when the branch is taken |
| Machine.DecodeJump | submitpart2.hpp:835-849 | `j` moves the PC to `address[label]` (0 if undefined, -1 if duplicated), stalls one cycle, empties L2 and L3, and leaves the window if it is the tail |
| Machine.Gate | submitpart2.hpp:540-545 | a stall due this cycle is released with no hazard check; a pending one is kept; otherwise a filled L2 with a hazard stalls until `cycle + delay` |
| Machine.Fetch | submitpart2.hpp:1159-1194 | fetch only when `0 <= pc < size` and not stalled; an unknown opcode aborts with nothing pushed; otherwise `(pc, command)` joins the tail, L2 takes it and the PC grows by 1; the run ends when the window is empty |
| Forwarding.WritebackTarget | submitpart2.hpp:338-360 | WB writes a register exactly for the ALU-class ops and `lw`; `beq`, `bne`, `j` and `sw` write none |
| Forwarding.Writeback | submitpart2.hpp:338-360 | WB changes at most the one target register, setting it to L5.VALUE_ONE |
| Forwarding.MemStore | submitpart2.hpp:388-405 | a store happens exactly when L4 holds `sw`, writing L4.VALUE_ONE at `(offset + L4.VALUE_TWO) / 4` |
| Forwarding.Memory | submitpart2.hpp:371-414 | MEM copies L4 into L5; for `lw`, L5.VALUE_ONE becomes the word at the address; memory changes only by the store |
| Forwarding.Execute | submitpart2.hpp:421-535 | EX puts `V1 op V2` for add/sub/mul/slt and `imm + V1` for addi into L4.VALUE_ONE; `lw`/`sw` pass through unchanged; a branch resolves |
| Forwarding.LoadUseCheck | submitpart2.hpp:546-600 | the opcode-by-opcode check fires exactly when window[-2] is an `lw` whose destination the instruction in ID reads |
| Forwarding.DecodePair | submitpart2.hpp:608-720 | with anything in flight, ALU, branch and `sw` operands get the forwarded value by priority: window[-3] producer, then window[-2] producer (L5 for `lw`, L4 otherwise), then the register file |
| Forwarding.DecodeAddi | submitpart2.hpp:850-929 | `addi`'s source is forwarded by the same priority; the immediate lands in VALUE_TWO only when no producer is right ahead, and VALUE_TWO is stale otherwise |
| Forwarding.DecodeLoad | submitpart2.hpp:930-1022 | the `lw` base is forwarded into VALUE_TWO behind a producer and into VALUE_ONE behind an ALU-class window[-3] writer; VALUE_TWO stays stale when alone or behind a non-producer |
| Forwarding.Decode | submitpart2.hpp:603-1153 | ID moves a filled, unstalled L2 into L3, and resolves `j`; a stalled or empty ID changes nothing |
| Forwarding.Complete | submitpart2.hpp:328-419 | WB, retirement and MEM advance the cycle, touch only WB's target register and the stored word, and leave L2, L3, L4 and the PC alone |
| Forwarding.Back | submitpart2.hpp:328-535 | without a branch in EX, the back half leaves the window (after retirement), L2, L3, the PC and the stall as they were |
| Forwarding.Step | submitpart2.hpp:326-1214 | one cycle keeps the invariant, stores exactly when L4 holds `sw`, and changes only WB's target register |
| Forwarding.LoadUseStall | submitpart2.hpp:540-606 | ID stalls exactly when the load-use check fires; the stall holds the PC, L2 and L3 and ends two cycles on; otherwise L2 moves to L3 |
| Forwarding.StallHolds | submitpart2.hpp:540-545 | while a stall is pending, a cycle keeps the PC, L2, L3 and the stall's target |
| Forwarding.StallReleased | submitpart2.hpp:540-543 | in the cycle a stall reaches its target it is released and L2 moves on to L3 |
| Forwarding.BackBranch | submitpart2.hpp:466-503 | a branch in EX leaves L2 and L3 empty, a one-cycle stall, the target or rewound PC, and the squashed window |
| Forwarding.BranchResolves | submitpart2.hpp:466-503 | after the cycle a branch is in EX, L2 and L3 are empty, a stall ends two cycles on, and the PC is the target exactly when taken |
| Forwarding.JumpResolves | submitpart2.hpp:835-849 | a `j` in ID puts the PC at its label's address and stalls fetch for a cycle |
| Forwarding.LoadUseSpan | submitpart2.hpp:546-606 | a load-use hazard holds the consumer in ID for exactly one cycle, then passes it on |
| Forwarding.BranchRefetches | submitpart2.hpp:1159-1194 | two cycles after a taken branch enters EX, the target command is fetched and the PC is one past it |
| Forwarding.FrontWindow | submitpart2.hpp:835-849 | stall gate, ID and IF edit only the window's tail, and take nothing back when L2 is empty |
| Forwarding.WindowFifo | submitpart2.hpp:362-367 | over a cycle the window is a queue: only the head leaves, on completion, and the tail loses and gains at most one entry each |
| StallOnly.WritebackTarget | submitpart1.hpp:348-390 | WB writes REGISTER_ONE for ALU-class ops, VALUE_ONE (the destination index) for `lw`, nothing for the rest |
| StallOnly.Writeback | submitpart1.hpp:382-385 | `lw` completes in WB: its destination gets the word at L5.VALUE_TWO; no other register changes |
| StallOnly.MemStore | submitpart1.hpp:401-433 | a store happens exactly when L4 holds `sw` and L5 holds a different command, writing L4.VALUE_ONE at L4.VALUE_TWO |
| StallOnly.Memory | submitpart1.hpp:399-428 | MEM copies a filled L4 into L5 unchanged |
| StallOnly.Execute | submitpart1.hpp:436-545 | EX computes ALU results and `imm + V2` for addi into L4.VALUE_ONE; `lw` gets its destination index in VALUE_ONE; `sw` passes through; a branch resolves |
| StallOnly.Round | submitpart1.hpp:582-611 | one round of checks gives delay 2 exactly for a window[-2] producer, else 1 for an ALU-class window[-3] or an earlier round's 1 |
| StallOnly.HazardDelay | submitpart1.hpp:559-949 | delay 2 exactly when a window[-2] producer writes a register the instruction reads; 1 for an ALU-class window[-3] writer or an `lw` reading the word a window[-2] `sw` stores; 0 otherwise |
| StallOnly.Decode | submitpart1.hpp:954-1022 | no forwarding: VALUE_ONE is the register REGISTER_ONE names; VALUE_TWO is the register REGISTER_TWO names, or the `locateAddress` word address for `lw`/`sw` |
| StallOnly.Complete | submitpart1.hpp:339-433 | WB, retirement and MEM advance the cycle, touch only WB's target and the stored word, and move a filled L4 into L5 |
| StallOnly.Back | submitpart1.hpp:339-545 | without a branch in EX the window (after retirement), L2, L3, the PC and the stall stay as they were |
| StallOnly.Step | submitpart1.hpp:337-1082 | one cycle keeps the invariant, stores only a first-time `sw`, moves L4 to L5, and changes only WB's target register |
| StallOnly.HazardStall | submitpart1.hpp:549-951 | ID stalls exactly when the hazard delay is positive, until `cycle + delay`, holding the PC, L2 and L3; otherwise L2 moves on |
| StallOnly.StallHolds | submitpart1.hpp:549-553 | a pending stall keeps the PC, L2, L3 and its target |
| StallOnly.StallReleased | submitpart1.hpp:554-557 | at the target cycle the stall clears and L2 is decoded |
| StallOnly.BackBranch | submitpart1.hpp:480-519 | a branch in EX empties L2 and L3, stalls a cycle, sets the target or rewound PC, and squashes the window tail |
| StallOnly.BranchResolves | submitpart1.hpp:480-519 | after the branch's EX cycle the PC is the target exactly when taken, with L2 and L3 squashed |
| StallOnly.JumpResolves | submitpart1.hpp:977-991 | a `j` moves the PC to its label's address and stalls fetch for a cycle |
| StallOnly.StoreOnce | submitpart1.hpp:403 | an `sw` that stays in L4 for another cycle does not store again |
| StallOnly.TwoCycleStall | submitpart1.hpp:582-598 | a window[-2] dependency holds the consumer in ID for two cycles, then passes it on |
| StallOnly.BranchRefetches | submitpart1.hpp:1025-1061 | two cycles after a taken branch enters EX, the target command is fetched |
| StallOnly.FrontWindow | submitpart1.hpp:977-991 | stall gate, ID and IF edit only the window's tail |
| StallOnly.WindowFifo | submitpart1.hpp:393-397 | over a cycle the window is a queue: only the head leaves, on completion, and the tail loses and gains at most one entry each |
| Driver.Advance | submitpart2.hpp:326-1214 | a cycle of either variant keeps the invariant, advances the cycle count, changes memory only by its store line, and drains only with an empty window |
| Driver.Iterate | submitpart2.hpp:1176-1214 | for either variant (the stall-only `runCycle` self-call is `submitpart1.hpp:1082`), a run leaves one store line per cycle, the final memory is the start memory with those stores replayed in order, and a finished run has an empty window |
| Driver.Simulate | submitpart2.hpp:312-324 | a program of `MAX / 4` commands or more runs no cycle; any other starts from the zero state, and its final memory is exactly its stores replayed |

## Left out

- Output is not modelled: the per-cycle register dump, the `0` / `1 addr value`
  store lines (modelled as the `Store` a cycle returns), and the `handleExit`
  diagnostics and memory dump. A syntax error and the memory limit become run
  outcomes.
- File reading (`constructCommands`) and the tokenizer are not modelled.
  Parsing starts from a line already split into tokens, and `ParseLines` stands
  for the loop over lines.
- The per-opcode helper methods (`add`, …, `addi`) are not modelled: the
  pipeline never calls them. The instruction table is used only as the opcode
  set, and `checkRegisters` only combines `checkRegister`.
- `commandList` / `LIST_OF_COMMANDS` duplicate the window's PCs (the `pc` of
  each window entry). `commandCount` is never incremented, and `clearLatches`
  is never called.
- The "something wrong" prints in branches the invariant excludes are not
  modelled, nor the unreachable early return of ID for an unknown opcode.
- Machine.AluResult: integers are unbounded. 32-bit overflow of `add`, `sub`,
  `mul` and `addi` is undefined behaviour in the source and is not modelled.
- Isa.Imm: a field whose digits give a number outside 32-bit `int` is read as
  that unbounded number. `stoi` throws `out_of_range` there and the program
  dies.
- Isa.Imm: a field `stoi` rejects reads as 0. The source throws there and the
  program dies.
- Isa.BaseName: an empty operand, or one whose `(` is its last character,
  makes `substr` throw in the source. The model reads register 0 there. Any
  other operand, including a non-empty one with no `(`, gets the name the
  source builds.
- Forwarding.MemStore / Forwarding.Memory: in the forwarding variant, MEM
  also builds a base-register name it never uses (`submitpart2.hpp:384`
  for `lw`, `submitpart2.hpp:399` for `sw`). When the operand is empty or its
  `(` is its last character, that `substr` throws `out_of_range`. Nothing
  catches it, so the run ends there with no store and no load. The model
  carries on: it stores (or loads) at `(offset + VALUE_TWO) / 4` and the run
  continues. So `Forwarding.Step`'s "stores exactly when L4 holds `sw`" holds
  only for operands the source does not crash on.
- Isa.RegIndex and the label reads in `Machine.ResolveBranch` and
  `Machine.DecodeJump`: `registerMap[…]` and `address[…]` go through
  `operator[]`. It inserts a missing key with value 0 (for example
  `submitpart1.hpp:1012-1013`, `submitpart2.hpp:468`, `submitpart2.hpp:838`).
  The model reads 0 and leaves both tables unchanged. The insertion changes
  nothing observable: a later read gives the same 0, and the label table is
  complete before the first cycle. The pipeline never calls `checkRegister` or
  `checkLabel`, the only functions that would see the new key.
- Machine.Load: memory is an unbounded sparse map defaulting to 0. An
  out-of-range word index (undefined behaviour in the source's fixed array) is
  not flagged.
- Driver.Iterate: the source recurses once per cycle with no bound, so a run
  that never drains never returns; a not-taken branch as the last command is
  one such program. The model stops after `fuel` cycles with `OutOfFuel`.
  Stack exhaustion in the source is not modelled.
- The commented-out checks are not modelled: the window[-3] `sw` alias for
  `lw` in `submitpart1.hpp` and the EX-stage `j` handling.
- `sample.cpp` (argument check and file opening) is not modelled.
