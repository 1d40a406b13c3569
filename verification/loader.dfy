/** The loader's per-line work once a line has been split into tokens
    (`parseCommand`): label definitions go into the label table, the rest
    of the line becomes a command of exactly four fields.  Also the
    validity checks for labels and register names. */
module Loader {
  import opened Text
  import opened Isa

  /** The commands stored so far and the label table (`address`). */
  datatype Listing = Listing(commands: seq<Command>, labels: map<string, int>)

  const EmptyListing := Listing([], map[])

  /** The text before the first `#` (`line.substr(0, line.find('#'))`). */
  function StripComment(line: string): (r: string)
    ensures '#' !in r
    ensures r <= line
    ensures |r| < |line| ==> line[|r|] == '#'
  {
    var k := Find(line, '#');
    if k < 0 then line else line[..k]
  }

  predicate Tokenized(tokens: seq<string>) {
    forall i | 0 <= i < |tokens| :: |tokens[i]| > 0
  }

  function Last(t: string): char
    requires |t| > 0
  {
    t[|t| - 1]
  }

  /** The label a token line defines, if any: a lone token (`?` when it
      does not end in `:`), a first token ending in `:`, the part of the
      first token before its first `:`, or a first token followed by a
      token that starts with `:`. */
  function DefinedLabel(tokens: seq<string>): Option<string>
    requires Tokenized(tokens)
  {
    if |tokens| == 0 then None
    else if |tokens| == 1 then Some(if Last(tokens[0]) == ':' then tokens[0][..|tokens[0]| - 1] else "?")
    else if Last(tokens[0]) == ':' then Some(tokens[0][..|tokens[0]| - 1])
    else if ':' in tokens[0] then Some(tokens[0][..Find(tokens[0], ':')])
    else if tokens[1][0] == ':' then Some(tokens[0])
    else None
  }

  /** The label table after defining `name`: the first definition points at
      the index the next stored command will get, a second one marks the
      label ambiguous with -1. */
  function Define(lst: Listing, name: string): (r: Listing)
    ensures r.commands == lst.commands
    ensures name in r.labels
    ensures name !in lst.labels ==> r.labels[name] == |lst.commands|
    ensures name in lst.labels ==> r.labels[name] == -1
    ensures forall other | other != name :: (other in r.labels <==> other in lst.labels)
    ensures forall other | other != name && other in lst.labels :: r.labels[other] == lst.labels[other]
  {
    lst.(labels := lst.labels[name := if name in lst.labels then -1 else |lst.commands|])
  }

  /** A command of exactly four fields: the fifth and later tokens are
      appended to the fourth with single spaces, missing fields are "". */
  function Fit4(cmd: seq<string>): (r: Command)
    requires |cmd| > 0
    ensures |r| == 4
    ensures forall i | 0 <= i < 3 && i < |cmd| :: r[i] == cmd[i]
    ensures |cmd| <= 4 ==> r[..|cmd|] == cmd && forall i | |cmd| <= i < 4 :: r[i] == ""
    ensures |cmd| > 4 ==> r[3] == JoinSpaced(cmd[3..])
  {
    if |cmd| > 4 then cmd[..3] + [JoinSpaced(cmd[3..])]
    else cmd + seq(4 - |cmd|, _ => "")
  }

  /** The fields beyond the fourth are not lost: splitting the fourth field
      at its spaces gives back every token from the fourth on. */
  lemma Fit4KeepsTokens(cmd: seq<string>)
    requires |cmd| > 4
    requires forall i | 0 <= i < |cmd| :: ' ' !in cmd[i]
    ensures SplitSpaces(Fit4(cmd)[3]) == cmd[3..]
  {
    SplitJoin(cmd[3..]);
  }

  function StoreCommand(lst: Listing, cmd: seq<string>): Listing {
    if |cmd| == 0 then lst else lst.(commands := lst.commands + [Fit4(cmd)])
  }

  /** `parseCommand` from the token sequence on. */
  function ParseCommand(lst: Listing, tokens: seq<string>): (r: Listing)
    requires Tokenized(tokens)
    ensures DefinedLabel(tokens).None? ==> r.labels == lst.labels
    ensures DefinedLabel(tokens).Some? ==> r.labels == Define(lst, DefinedLabel(tokens).value).labels
    ensures |lst.commands| <= |r.commands| <= |lst.commands| + 1
    ensures r.commands[..|lst.commands|] == lst.commands
    ensures |r.commands| > |lst.commands| ==> |r.commands[|lst.commands|]| == 4
    ensures DefinedLabel(tokens).None? && |tokens| > 0 ==> r.commands == lst.commands + [Fit4(tokens)]
    ensures |tokens| == 1 ==> r.commands == lst.commands
    ensures |tokens| > 1 && Last(tokens[0]) == ':' ==> r.commands == lst.commands + [Fit4(tokens[1..])]
    ensures |tokens| > 1 && Last(tokens[0]) != ':' && ':' in tokens[0] ==>
              r.commands == lst.commands + [Fit4([tokens[0][Find(tokens[0], ':') + 1..]] + tokens[1..])]
    ensures |tokens| > 1 && ':' !in tokens[0] && tokens[1] == ":" ==>
              r.commands == if |tokens| > 2 then lst.commands + [Fit4(tokens[2..])] else lst.commands
    ensures |tokens| > 1 && ':' !in tokens[0] && tokens[1][0] == ':' && tokens[1] != ":" ==>
              r.commands == lst.commands + [Fit4([tokens[1][1..]] + tokens[2..])]
  {
    if |tokens| == 0 then lst
    else if |tokens| == 1 then
      Define(lst, DefinedLabel(tokens).value)
    else if Last(tokens[0]) == ':' then
      StoreCommand(Define(lst, tokens[0][..|tokens[0]| - 1]), tokens[1..])
    else if ':' in tokens[0] then
      var idx := Find(tokens[0], ':');
      StoreCommand(Define(lst, tokens[0][..idx]), [tokens[0][idx + 1..]] + tokens[1..])
    else if tokens[1][0] == ':' then
      var rest := tokens[1][1..];
      StoreCommand(Define(lst, tokens[0]), if rest == "" then tokens[2..] else [rest] + tokens[2..])
    else
      StoreCommand(lst, tokens)
  }

  predicate WellFormedListing(lst: Listing) {
    && (forall i | 0 <= i < |lst.commands| :: |lst.commands[i]| == 4)
    && (forall name | name in lst.labels :: -1 <= lst.labels[name] <= |lst.commands|)
  }

  /** Every line of a file, in order (`constructCommands`). */
  function ParseLines(lst: Listing, lines: seq<seq<string>>): (r: Listing)
    requires forall i | 0 <= i < |lines| :: Tokenized(lines[i])
    requires WellFormedListing(lst)
    ensures WellFormedListing(r)
    ensures |r.commands| >= |lst.commands| && r.commands[..|lst.commands|] == lst.commands
    ensures forall name | name in lst.labels :: name in r.labels
    ensures forall name | name in lst.labels && lst.labels[name] == -1 :: r.labels[name] == -1
    decreases |lines|
  {
    if |lines| == 0 then lst
    else
      var next := ParseCommand(lst, lines[0]);
      assert WellFormedListing(next) by {
        forall i | 0 <= i < |next.commands|
          ensures |next.commands[i]| == 4
        {
          if i < |lst.commands| {
            assert next.commands[i] == next.commands[..|lst.commands|][i];
          }
        }
      }
      var r := ParseLines(next, lines[1..]);
      assert r.commands[..|lst.commands|] == r.commands[..|next.commands|][..|lst.commands|];
      r
  }

  function ParseProgram(lines: seq<seq<string>>): (r: Listing)
    requires forall i | 0 <= i < |lines| :: Tokenized(lines[i])
    ensures WellFormedListing(r)
  {
    ParseLines(EmptyListing, lines)
  }

  /** A label on a line of its own names the command on the next line. */
  lemma LabelNamesNextCommand(lst: Listing, name: string, instruction: seq<string>)
    requires |name| > 0 && name !in lst.labels
    requires Tokenized(instruction) && |instruction| >= 2
    requires DefinedLabel(instruction).None?
    ensures var r := ParseCommand(ParseCommand(lst, [name + ":"]), instruction);
            r.labels[name] == |lst.commands| && r.commands[r.labels[name]] == Fit4(instruction)
  {
    var t := name + ":";
    assert Last(t) == ':' && t[..|t| - 1] == name;
    assert DefinedLabel([t]) == Some(name);
  }

  /** `name` is a fresh label of `r` naming the one command stored after
      `lst`, which is `cmd`. */
  predicate NamesStored(lst: Listing, r: Listing, name: string, cmd: Command) {
    && name in r.labels && r.labels[name] == |lst.commands|
    && |r.commands| == |lst.commands| + 1 && r.commands[|lst.commands|] == cmd
  }

  /** A label sharing its line with an instruction names the command of
      that same line, in each spelling the loader accepts: `name: op …`,
      `name:op …`, `name :op …` and `name : op …`. */
  lemma SameLineLabelNamesItsCommand(lst: Listing, name: string, instruction: seq<string>)
    requires |name| > 0 && ':' !in name && name !in lst.labels
    requires Tokenized(instruction) && |instruction| >= 2 && ':' !in instruction[0]
    ensures NamesStored(lst, ParseCommand(lst, [name + ":"] + instruction), name, Fit4(instruction))
    ensures NamesStored(lst, ParseCommand(lst, [name + ":" + instruction[0]] + instruction[1..]), name, Fit4(instruction))
    ensures NamesStored(lst, ParseCommand(lst, [name, ":" + instruction[0]] + instruction[1..]), name, Fit4(instruction))
    ensures NamesStored(lst, ParseCommand(lst, [name, ":"] + instruction), name, Fit4(instruction))
  {
    SpacedLabel(lst, name, instruction);
    GluedLabel(lst, name, instruction);
    ColonFirstLabel(lst, name, instruction);
    LoneColonLabel(lst, name, instruction);
  }

  lemma SpacedLabel(lst: Listing, name: string, instruction: seq<string>)
    requires |name| > 0 && ':' !in name && name !in lst.labels
    requires Tokenized(instruction) && |instruction| >= 2 && ':' !in instruction[0]
    ensures NamesStored(lst, ParseCommand(lst, [name + ":"] + instruction), name, Fit4(instruction))
  {
    var t := [name + ":"] + instruction;
    assert t[0][..|t[0]| - 1] == name && t[1..] == instruction;
  }

  lemma GluedLabel(lst: Listing, name: string, instruction: seq<string>)
    requires |name| > 0 && ':' !in name && name !in lst.labels
    requires Tokenized(instruction) && |instruction| >= 2 && ':' !in instruction[0]
    ensures NamesStored(lst, ParseCommand(lst, [name + ":" + instruction[0]] + instruction[1..]), name, Fit4(instruction))
  {
    var w := name + ":" + instruction[0];
    var t := [w] + instruction[1..];
    assert w[|name|] == ':' && w[..|name|] == name;
    assert Last(w) == Last(instruction[0]) && Last(instruction[0]) in instruction[0];
    assert Find(w, ':') == |name|;
    assert w[|name| + 1..] == instruction[0];
    assert [w[|name| + 1..]] + t[1..] == instruction;
  }

  lemma ColonFirstLabel(lst: Listing, name: string, instruction: seq<string>)
    requires |name| > 0 && ':' !in name && name !in lst.labels
    requires Tokenized(instruction) && |instruction| >= 2 && ':' !in instruction[0]
    ensures NamesStored(lst, ParseCommand(lst, [name, ":" + instruction[0]] + instruction[1..]), name, Fit4(instruction))
  {
    var t := [name, ":" + instruction[0]] + instruction[1..];
    assert Last(name) in name;
    assert t[1][1..] == instruction[0] && t[1] != ":";
    assert [t[1][1..]] + t[2..] == instruction;
  }

  lemma LoneColonLabel(lst: Listing, name: string, instruction: seq<string>)
    requires |name| > 0 && ':' !in name && name !in lst.labels
    requires Tokenized(instruction) && |instruction| >= 2 && ':' !in instruction[0]
    ensures NamesStored(lst, ParseCommand(lst, [name, ":"] + instruction), name, Fit4(instruction))
  {
    var t := [name, ":"] + instruction;
    assert Last(name) in name;
    assert t[2..] == instruction;
  }

  /** Once a label is ambiguous it stays ambiguous, whatever follows. */
  lemma AmbiguousLabelStays(lst: Listing, name: string, lines: seq<seq<string>>)
    requires name in lst.labels
    requires forall i | 0 <= i < |lines| :: Tokenized(lines[i])
    requires WellFormedListing(lst)
    requires Tokenized([name + ":"])
    ensures ParseLines(ParseCommand(lst, [name + ":"]), lines).labels[name] == -1
  {
    LoneLabelDefines(lst, name);
  }

  /** A line holding only `name:` defines `name` and stores nothing. */
  lemma LoneLabelDefines(lst: Listing, name: string)
    requires Tokenized([name + ":"])
    ensures ParseCommand(lst, [name + ":"]) == Define(lst, name)
  {
    var t := name + ":";
    assert t[..|t| - 1] == name;
  }

  predicate IsAlpha(c: char) {
    'a' <= c <= 'z' || 'A' <= c <= 'Z'
  }

  predicate IsAlnum(c: char) {
    IsAlpha(c) || IsDigit(c)
  }

  /** `checkLabel`: a letter, then letters and digits, and not an opcode. */
  function CheckLabel(s: string): (ok: bool)
    ensures ok ==> |s| > 0 && IsAlpha(s[0]) && !IsOpcode(s)
    ensures ok ==> forall c | c in s :: IsAlnum(c)
    ensures |s| > 0 && IsAlpha(s[0]) && (forall c | c in s :: IsAlnum(c)) && !IsOpcode(s) ==> ok
    ensures ok ==> ':' !in s && '$' !in s
  {
    |s| > 0 && IsAlpha(s[0]) && (forall i | 1 <= i < |s| :: IsAlnum(s[i])) && !IsOpcode(s)
  }

  /** `checkRegister`: the name is a key of the register table. */
  function CheckRegister(name: string): (ok: bool)
    ensures ok ==> |name| > 1 && name[0] == '$'
    ensures ok ==> 0 <= RegIndex(RegisterMap(), name) < RegisterCount && name in RegisterMap()
    ensures !ok ==> RegIndex(RegisterMap(), name) == 0
  {
    name in RegisterMap()
  }

  /** No string is both a valid label and a valid register name. */
  lemma LabelsAreNotRegisters(s: string)
    requires CheckLabel(s)
    ensures !CheckRegister(s)
  {
  }

  /** Every name the constructor entered passes the register check. */
  lemma TableNamesAreRegisters(name: string)
    requires name in NumericNames || name in SymbolicNames
    ensures CheckRegister(name)
  {
  }
}
