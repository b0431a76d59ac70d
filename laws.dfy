/** What the interpreter's statements promise, proved about their models in Statements. */
module Laws {
  import opened Text
  import opened Variables
  import opened Faults
  import opened Patterns
  import opened Statements
  import Postfix
  import Condition
  import Template

  // ---------------------------------------------------------------- Validity

  lemma {:induction false} DeclareValid(t: Table, sets: seq<string>, typeName: string, last: Option<Fault>)
    requires Valid(t)
    ensures Valid(DeclareSets(t, sets, typeName, last).table)
    decreases |sets|
  {
    if sets != [] {
      var temp := Trim(sets[0]);
      var name := LeadingName(temp);
      if IsVariable(name) && name in t.values {
        RemoveValid(t, name);
      } else if IsVariable(name) && ZeroOf(typeName).Some? {
        var z := ZeroOf(typeName).value;
        AddValid(t, name, z);
        var added := Add(t, name, z);
        AssignValid(added, temp, true, typeName, name);
        DeclareValid(Assign(added, temp, true, typeName, name).table, sets[1..], typeName,
                     Assign(added, temp, true, typeName, name).fault);
      }
    }
  }

  lemma {:induction false} ReadValid(t: Table, names: seq<string>, console: seq<string>)
    requires Valid(t)
    ensures Valid(ReadNames(t, names, console).table)
    decreases |names|
  {
    if names != [] {
      var n := names[0];
      if IsVariable(n) && n in t.values {
        var input := if console == [] then None else Some(console[0]);
        var rest := if console == [] then [] else console[1..];
        var p := Parsed(t.values[n], input);
        if p.Ok? {
          SetValid(t, n, p.value);
          ReadValid(Set(t, n, p.value), names[1..], rest);
        }
      }
    }
  }

  lemma DeclarationValid(s: State, line: string)
    requires Valid(s.table)
    ensures Valid(DeclarationOf(s, line).0.table)
  {
    if !s.started {
      DeclareValid(s.table, Split(DeclarationBody(line), ','), TypeWord(line), None);
    }
  }

  lemma InputValid(s: State, line: string)
    requires Valid(s.table)
    ensures Valid(InputOf(s, line).0.table)
  {
    if s.started {
      ReadValid(s.table, InputNames(line), s.console);
    }
  }

  lemma UnaryValid(s: State, line: string)
    requires Valid(s.table)
    ensures Valid(UnaryOf(s, line).0.table)
  {
    var name := FirstName(line);
    if s.started && name in s.table.values && FirstAction(line) != "" {
      var b := Bump(s.table.values[name], FirstAction(line) == "++");
      if b.Ok? {
        SetValid(s.table, name, b.value);
      }
    }
  }

  /** Every statement keeps the variable table consistent: each key in exactly one entry,
      the free list naming distinct empty entries. */
  lemma StepValid(s: State, line: string)
    requires Valid(s.table)
    ensures Valid(Step(s, line).0.table)
  {
    RunValid(s, line, Classify(line));
  }

  lemma RunValid(s: State, line: string, kind: Statement)
    requires Valid(s.table)
    ensures Valid(Run(s, line, kind).0.table)
  {
    match kind
    case Declaration => DeclarationValid(s, line);
    case Assignment => AssignValid(s.table, line, false, "", "");
    case Input => InputValid(s, line);
    case Unary => UnaryValid(s, line);
    case _ =>
  }

  // ---------------------------------------------------------------- START and STOP

  /** A line that starts with a letter other than V is not a declaration. */
  lemma NotDeclaration(line: string)
    requires |line| > 0 && IsLetter(line[0]) && line[0] != 'V'
    ensures !IsDeclarationLine(line)
  {
    NoVar(line);
  }

  /** A line that starts with a letter other than V does not start with VAR, even past its
      leading white space. */
  lemma NoVar(line: string)
    requires |line| > 0 && IsLetter(line[0]) && line[0] != 'V'
    ensures !StartsWith(TrimStart(line), "VAR")
  {
    assert TrimStart(line) == line;
    assert line[0] != "VAR"[0];
  }

  lemma {:induction false} AlnumAll(s: string)
    requires AllAlnum(s)
    ensures AlnumRun(s) == |s|
    decreases |s|
  {
    if |s| > 0 {
      AlnumAll(s[1..]);
    }
  }

  /** A line made of letters and digits only is not an assignment. */
  lemma NotAssignment(line: string)
    requires AllAlnum(line)
    ensures !IsAssignmentLine(line)
  {
    if |line| > 0 {
      AlnumAll(line[1..]);
      assert line[1 + |line| - 1..] == [];
    }
  }

  /** A text does not start with a prefix whose first character differs from its own. */
  lemma HeadDiffers(s: string, p: string)
    requires |s| > 0 && |p| > 0 && s[0] != p[0]
    ensures !StartsWith(s, p)
  {
  }

  /** A line of letters and digits starting with S, such as START and STOP, matches neither
      of the first two patterns. */
  lemma NotDeclarationNorAssignment(line: string)
    requires |line| > 0 && AllAlnum(line) && line[0] == 'S'
    ensures !IsDeclarationLine(line) && !IsAssignmentLine(line)
  {
    NotAssignment(line);
    NotDeclaration(line);
  }

  /** A line starting with S, such as START and STOP, matches neither INPUT nor OUTPUT. */
  lemma NotInputNorOutput(line: string)
    requires |line| > 0 && line[0] == 'S'
    ensures !IsInputLine(line) && !IsOutputLine(line)
  {
    HeadDiffers(line, "INPUT");
    HeadDiffers(line, "OUTPUT");
  }

  /** A line that matches none of the first four patterns reaches the START pattern. */
  lemma NoneBeforeStart(line: string)
    requires !IsDeclarationLine(line) && !IsAssignmentLine(line)
    requires !IsInputLine(line) && !IsOutputLine(line)
    ensures NoneBefore(line, Order, 4)
  {
    MatchesOfAt(line, Declaration);
    MatchesOfAt(line, Assignment);
    MatchesOfAt(line, Input);
    MatchesOfAt(line, Output);
    NoHitBeforeStart(MatchesOf(line));
  }

  /** A line that matches none of the first five patterns reaches the STOP pattern. */
  lemma NoneBeforeStop(line: string)
    requires !IsDeclarationLine(line) && !IsAssignmentLine(line)
    requires !IsInputLine(line) && !IsOutputLine(line) && !IsStartLine(line)
    ensures NoneBefore(line, Order, 5)
  {
    MatchesOfAt(line, Declaration);
    MatchesOfAt(line, Assignment);
    MatchesOfAt(line, Input);
    MatchesOfAt(line, Output);
    MatchesOfAt(line, Start);
    NoHitBeforeStop(MatchesOf(line));
  }

  lemma NoHitBeforeStart(hit: Statement -> bool)
    requires !hit(Declaration) && !hit(Assignment) && !hit(Input) && !hit(Output)
    ensures NoHitBefore(hit, Order, 4)
  {
    forall j | 0 <= j < 4 ensures !hit(Order[j]) {
      assert Order[j] == [Declaration, Assignment, Input, Output][j];
    }
  }

  lemma NoHitBeforeStop(hit: Statement -> bool)
    requires !hit(Declaration) && !hit(Assignment) && !hit(Input) && !hit(Output) && !hit(Start)
    ensures NoHitBefore(hit, Order, 5)
  {
    forall j | 0 <= j < 5 ensures !hit(Order[j]) {
      assert Order[j] == [Declaration, Assignment, Input, Output, Start][j];
    }
  }

  /** The line START runs as the START statement. */
  lemma StartClassified(line: string)
    requires line == "START"
    ensures Classify(line) == Start
  {
    NotDeclarationNorAssignment(line);
    NotInputNorOutput(line);
    NoneBeforeStart(line);
    ClassifyIff(line, 4);
  }

  /** The line STOP runs as the STOP statement. */
  lemma StopClassified(line: string)
    requires line == "STOP"
    ensures Classify(line) == Stop
  {
    NotDeclarationNorAssignment(line);
    NotInputNorOutput(line);
    assert !IsStartLine(line) by { assert |line| != |"START"|; }
    NoneBeforeStop(line);
    ClassifyIff(line, 5);
  }

  /** START sets the started flag, and fails if it is already set (StartClassified: the line
      START is such a line). */
  lemma StartRule(s: State, line: string)
    requires Valid(s.table) && Classify(line) == Start
    ensures Step(s, line) == if s.started then (s, Message(Plain)) else (s.(started := true), Quiet)
  {
  }

  /** STOP sets the finished flag after START, and fails before it (StopClassified: the line
      STOP is such a line). */
  lemma StopRule(s: State, line: string)
    requires Valid(s.table) && Classify(line) == Stop
    ensures Step(s, line) == if s.started then (s.(finished := true), Quiet) else (s, Message(Plain))
  {
  }

  /** Only START raises the started flag and only STOP, once started, raises the finished
      flag; neither is ever lowered. */
  lemma FlagsRule(s: State, line: string)
    requires Valid(s.table)
    ensures var s' := Step(s, line).0;
      && (s.started ==> s'.started) && (s.finished ==> s'.finished)
      && (s'.started != s.started ==> Classify(line) == Start && !s.started)
      && (s'.finished != s.finished ==> Classify(line) == Stop && s.started)
  {
    FlagsRun(s, line, Classify(line));
  }

  lemma FlagsRun(s: State, line: string, kind: Statement)
    requires Valid(s.table)
    ensures var s' := Run(s, line, kind).0;
      && (s.started ==> s'.started) && (s.finished ==> s'.finished)
      && (s'.started != s.started ==> kind == Start && !s.started)
      && (s'.finished != s.finished ==> kind == Stop && s.started)
  {
    match kind
    case Declaration => DeclarationFlags(s, line);
    case Assignment =>
    case Input => InputFlags(s, line);
    case Output => Unchanged(s, line);
    case Start =>
    case Stop =>
    case Comment => Unchanged(s, line);
    case Unary => UnaryFlags(s, line);
    case If => Unchanged(s, line);
    case NoMatch =>
  }

  /** OUTPUT, comments and the IF condition check change no part of the state. */
  lemma Unchanged(s: State, line: string)
    ensures OutputStatement(s, line).0 == s && CommentOf(s, line).0 == s && IfOf(s, line).0 == s
  {
  }

  lemma DeclarationFlags(s: State, line: string)
    requires Valid(s.table)
    ensures DeclarationOf(s, line).0 == s.(table := DeclarationOf(s, line).0.table)
  {
  }

  lemma InputFlags(s: State, line: string)
    requires Valid(s.table)
    ensures InputOf(s, line).0 == s.(table := InputOf(s, line).0.table, console := InputOf(s, line).0.console)
  {
  }

  lemma UnaryFlags(s: State, line: string)
    ensures UnaryOf(s, line).0 == s.(table := UnaryOf(s, line).0.table)
  {
  }

  // ---------------------------------------------------------------- After START

  lemma {:induction false} ReadKeys(t: Table, names: seq<string>, console: seq<string>)
    requires Valid(t)
    ensures ReadNames(t, names, console).table.values.Keys == t.values.Keys
    decreases |names|
  {
    if names != [] {
      var n := names[0];
      if IsVariable(n) && n in t.values {
        var input := if console == [] then None else Some(console[0]);
        var rest := if console == [] then [] else console[1..];
        var p := Parsed(t.values[n], input);
        if p.Ok? {
          SetValid(t, n, p.value);
          ReadKeys(Set(t, n, p.value), names[1..], rest);
        }
      }
    }
  }

  /** Reading takes lines from the front of the console input, at most one per name. */
  lemma {:induction false} ReadConsumes(t: Table, names: seq<string>, console: seq<string>)
    requires Valid(t)
    ensures var rest := ReadNames(t, names, console).console;
      |rest| <= |console| && rest == console[|console| - |rest|..]
      && |console| - |rest| <= |names|
    decreases |names|
  {
    if names != [] {
      var n := names[0];
      if IsVariable(n) && n in t.values {
        var input := if console == [] then None else Some(console[0]);
        var rest := if console == [] then [] else console[1..];
        var p := Parsed(t.values[n], input);
        if p.Ok? {
          SetValid(t, n, p.value);
          ReadConsumes(Set(t, n, p.value), names[1..], rest);
        }
      }
    }
  }

  lemma AssignKeys(t: Table, line: string)
    requires Valid(t)
    ensures Assign(t, line, false, "", "").table.values.Keys == t.values.Keys
  {
    var n := LeadingName(line);
    if n in t.values {
      FinishKeys(t, line, TypeNameOf(t.values[n]), n);
    }
  }

  lemma FinishKeys(t: Table, line: string, typeName: string, name: string)
    requires Valid(t) && name in t.values
    ensures Finish(t, line, false, typeName, name).table.values.Keys == t.values.Keys
  {
    match ZeroOf(typeName)
    case None =>
    case Some(z) =>
      match AssignSets(t.values, Split(line, ','), typeName, z)
      case Ok(v) => assert Set(t, name, v).values == t.values[name := v];
      case Err(f) =>
  }

  /** Once START has run, no statement declares or removes a variable: the names in the
      table stay the same, and the interpreter stays started. */
  lemma StartedKeysFixed(s: State, line: string)
    requires Valid(s.table) && s.started
    ensures Step(s, line).0.started
    ensures Step(s, line).0.table.values.Keys == s.table.values.Keys
  {
    StartedKeysRun(s, line, Classify(line));
  }

  lemma StartedKeysRun(s: State, line: string, kind: Statement)
    requires Valid(s.table) && s.started
    ensures Run(s, line, kind).0.started
    ensures Run(s, line, kind).0.table.values.Keys == s.table.values.Keys
  {
    match kind
    case Assignment => AssignKeys(s.table, line);
    case Input => InputKeys(s, line);
    case Unary => UnaryKeys(s, line);
    case Declaration => DeclarationFlags(s, line);
    case _ =>
  }

  lemma InputKeys(s: State, line: string)
    requires Valid(s.table) && s.started
    ensures InputOf(s, line).0.started && InputOf(s, line).0.table.values.Keys == s.table.values.Keys
  {
    ReadKeys(s.table, InputNames(line), s.console);
  }

  lemma UnaryKeys(s: State, line: string)
    requires s.started
    ensures UnaryOf(s, line).0.started && UnaryOf(s, line).0.table.values.Keys == s.table.values.Keys
  {
  }

  // ---------------------------------------------------------------- Declaration

  /** LeadingName's result, when it is the whole text, holds no comma and no `=`. */
  lemma NameChars(s: string)
    requires LeadingName(s) == s
    ensures ',' !in s && '=' !in s
  {
    if |s| > 0 {
      var n := LooseRun(s[1..]);
      assert s == s[..1 + n];
      forall i | 0 <= i < |s| ensures s[i] != ',' && s[i] != '=' {
        if i > 0 {
          assert s[1..][i - 1] == s[i];
        }
      }
    }
  }

  /** Items that are bare names: each a valid name made only of name characters, new to the
      table and to the other items. */
  predicate FreshNames(t: Table, sets: seq<string>) {
    && (forall k | 0 <= k < |sets| ::
          IsVariable(Trim(sets[k])) && LeadingName(Trim(sets[k])) == Trim(sets[k]) && Trim(sets[k]) !in t.values)
    && (forall a, b | 0 <= a < b < |sets| :: Trim(sets[a]) != Trim(sets[b]))
  }

  /** The items' names, each item trimmed. */
  function Names(sets: seq<string>): set<string>
    decreases |sets|
  {
    if sets == [] then {} else {Trim(sets[0])} + Names(sets[1..])
  }

  /** The zero value of each name. */
  function Zeros(names: set<string>, z: Value): map<string, Value> {
    map n | n in names :: z
  }

  /** A bare name is declared with its type's zero, and the assignment run for it reports
      nothing. */
  lemma FreshStep(t: Table, sets: seq<string>, typeName: string, last: Option<Fault>)
    requires Valid(t) && sets != [] && typeName in TypeNames
    requires var n := Trim(sets[0]); IsVariable(n) && LeadingName(n) == n && n !in t.values
    ensures var n := Trim(sets[0]);
      var z := ZeroOf(typeName).value;
      var t' := Set(Add(t, n, z), n, z);
      && Valid(t') && t'.values == t.values[n := z]
      && DeclareSets(t, sets, typeName, last) == DeclareSets(t', sets[1..], typeName, None)
  {
    var n := Trim(sets[0]);
    var z := ZeroOf(typeName).value;
    NameChars(n);
    FreshTable(t, n, z);
    var added := Add(t, n, z);
    assert Split(n, ',') == [n];
    assert |Split(n, '=')| == 1;
    assert AssignSets(added.values, Split(n, ','), typeName, z) == Ok(z);
  }

  /** The table after a fresh name is added and set to z. */
  lemma FreshTable(t: Table, n: string, z: Value)
    requires Valid(t) && n !in t.values
    ensures var t' := Set(Add(t, n, z), n, z);
      Valid(t') && t'.values == t.values[n := z]
  {
    AddValid(t, n, z);
    SetValid(Add(t, n, z), n, z);
  }

  lemma FreshTail(t: Table, sets: seq<string>, t': Table)
    requires FreshNames(t, sets) && sets != []
    requires t'.values.Keys == t.values.Keys + {Trim(sets[0])}
    ensures FreshNames(t', sets[1..])
  {
    var rest := sets[1..];
    forall k | 0 <= k < |rest| ensures Trim(rest[k]) !in t'.values {
      assert rest[k] == sets[k + 1];
    }
    forall a, b | 0 <= a < b < |rest| ensures Trim(rest[a]) != Trim(rest[b]) {
      assert rest[a] == sets[a + 1] && rest[b] == sets[b + 1];
    }
  }

  /** The values after each of the items' names is set to z in turn. */
  function Declared(values: map<string, Value>, sets: seq<string>, z: Value): map<string, Value>
    decreases |sets|
  {
    if sets == [] then values else Declared(values[Trim(sets[0]) := z], sets[1..], z)
  }

  lemma ZerosCons(values: map<string, Value>, n: string, names: set<string>, z: Value)
    ensures values[n := z] + Zeros(names, z) == values + Zeros({n} + names, z)
  {
  }

  /** Setting the names one by one gives every one of them z and keeps every other entry. */
  lemma {:induction false} DeclaredZeros(values: map<string, Value>, sets: seq<string>, z: Value)
    ensures Declared(values, sets, z) == values + Zeros(Names(sets), z)
    decreases |sets|
  {
    if sets == [] {
      assert Names(sets) == {};
      assert values + Zeros(Names(sets), z) == values;
    } else {
      DeclaredZeros(values[Trim(sets[0]) := z], sets[1..], z);
      ZerosCons(values, Trim(sets[0]), Names(sets[1..]), z);
    }
  }

  /** A declaration of bare names before START adds each of them with its type's zero value,
      keeps every other variable, and reports nothing. */
  lemma {:induction false} DeclareFresh(t: Table, sets: seq<string>, typeName: string, last: Option<Fault>)
    requires Valid(t) && FreshNames(t, sets) && typeName in TypeNames
    ensures var d := DeclareSets(t, sets, typeName, last);
      && d.table.values == Declared(t.values, sets, ZeroOf(typeName).value)
      && d.fault == (if sets == [] then last else None)
    decreases |sets|
  {
    if sets != [] {
      var z := ZeroOf(typeName).value;
      var n := Trim(sets[0]);
      FreshStep(t, sets, typeName, last);
      var t' := Set(Add(t, n, z), n, z);
      FreshTail(t, sets, t');
      DeclareFresh(t', sets[1..], typeName, None);
    }
  }

  lemma SliceTail(sets: seq<string>, j: nat)
    requires 0 < j < |sets|
    ensures sets[1..][..j - 1] == sets[..j][1..] && sets[1..][j - 1] == sets[j]
  {
  }

  lemma DeclaredPrefix(values: map<string, Value>, sets: seq<string>, j: nat, z: Value)
    requires 0 < j <= |sets|
    ensures Declared(values, sets[..j], z) == Declared(values[Trim(sets[0]) := z], sets[1..][..j - 1], z)
  {
    assert sets[..j][0] == sets[0];
    assert sets[1..][..j - 1] == sets[..j][1..];
  }

  /** A first item naming a declared variable removes it and fails. */
  lemma RedeclareFirst(t: Table, sets: seq<string>, typeName: string, last: Option<Fault>)
    requires Valid(t) && sets != []
    requires var n := LeadingName(Trim(sets[0])); IsVariable(n) && n in t.values
    ensures var d := DeclareSets(t, sets, typeName, last);
      d.table.values == t.values - {LeadingName(Trim(sets[0]))} && d.fault == Some(Plain)
  {
  }

  /** The conditions of RedeclareRemoves carry over from the items to the items after the
      first, once the first has been declared. */
  lemma RedeclareTail(t: Table, sets: seq<string>, j: nat, t': Table)
    requires 0 < j < |sets|
    requires FreshNames(t, sets[..j])
    requires t'.values.Keys == t.values.Keys + {Trim(sets[0])}
    ensures FreshNames(t', sets[1..][..j - 1]) && sets[1..][j - 1] == sets[j]
  {
    assert sets[..j][0] == sets[0];
    FreshTail(t, sets[..j], t');
    SliceTail(sets, j);
  }

  /** The items before item j are fresh bare names, and item j starts with a valid name that
      is already declared or is one of them. */
  ghost predicate Redeclared(t: Table, sets: seq<string>, typeName: string, j: nat) {
    && Valid(t) && typeName in TypeNames && j < |sets|
    && FreshNames(t, sets[..j])
    && IsVariable(LeadingName(Trim(sets[j])))
    && LeadingName(Trim(sets[j])) in Declared(t.values, sets[..j], ZeroOf(typeName).value)
  }

  /** One step of RedeclareRemoves: the first item, a fresh name, is declared, and what is
      left is a declaration of the other items on the new table. */
  lemma RedeclareStep(t: Table, sets: seq<string>, typeName: string, j: nat) returns (t': Table)
    requires Redeclared(t, sets, typeName, j) && 0 < j
    ensures var z := ZeroOf(typeName).value;
      t' == Set(Add(t, Trim(sets[0]), z), Trim(sets[0]), z)
    ensures Redeclared(t', sets[1..], typeName, j - 1)
    ensures LeadingName(Trim(sets[1..][j - 1])) == LeadingName(Trim(sets[j]))
    ensures Declared(t.values, sets[..j], ZeroOf(typeName).value) == Declared(t'.values, sets[1..][..j - 1], ZeroOf(typeName).value)
  {
    var z := ZeroOf(typeName).value;
    var m := Trim(sets[0]);
    assert sets[..j][0] == sets[0];
    FreshTable(t, m, z);
    t' := Set(Add(t, m, z), m, z);
    RedeclareTail(t, sets, j, t');
    DeclaredPrefix(t.values, sets, j, z);
  }

  /** An item naming a variable that is already declared, or declared by an earlier item of
      the same statement, ends the declaration with a failure and removes that variable. */
  lemma {:induction false} RedeclareRemoves(t: Table, sets: seq<string>, typeName: string, last: Option<Fault>, j: nat)
    requires Redeclared(t, sets, typeName, j)
    ensures var d := DeclareSets(t, sets, typeName, last);
      && d.table.values == Declared(t.values, sets[..j], ZeroOf(typeName).value) - {LeadingName(Trim(sets[j]))}
      && d.fault == Some(Plain)
    decreases j
  {
    if j == 0 {
      assert sets[..0] == [];
      RedeclareFirst(t, sets, typeName, last);
    } else {
      var t' := RedeclareStep(t, sets, typeName, j);
      assert DeclareSets(t, sets, typeName, last) == DeclareSets(t', sets[1..], typeName, None) by {
        assert sets[..j][0] == sets[0];
        FreshStep(t, sets, typeName, last);
      }
      RedeclareRemoves(t', sets[1..], typeName, None, j - 1);
    }
  }

  /** The zero a fresh name gets, and the table with it added. */
  function Added(t: Table, name: string, typeName: string): (r: Table)
    requires name !in t.values && typeName in TypeNames && Valid(t)
    ensures Valid(r) && r.values == t.values[name := ZeroOf(typeName).value]
  {
    AddValid(t, name, ZeroOf(typeName).value);
    Add(t, name, ZeroOf(typeName).value)
  }

  /** A declared item whose initializer fails: the failure is the statement's reply so far,
      and the catch block removes the key Keys.Last() names, which is not always the new
      one. */
  lemma FailedInitializerRemovesLast(t: Table, item: string, typeName: string, last: Option<Fault>)
    requires Valid(t) && typeName in TypeNames
    requires var n := LeadingName(Trim(item)); IsVariable(n) && n !in t.values
    requires var n := LeadingName(Trim(item));
      AssignSets(t.values[n := ZeroOf(typeName).value], Split(Trim(item), ','), typeName, ZeroOf(typeName).value).Err?
    ensures var n := LeadingName(Trim(item));
      var added := Added(t, n, typeName);
      var d := DeclareSets(t, [item], typeName, last);
      && LastKey(added.slots).Some?
      && d.table.values == added.values - {LastKey(added.slots).value}
      && d.fault.Some?
  {
    var n := LeadingName(Trim(item));
    var z := ZeroOf(typeName).value;
    AddValid(t, n, z);
    var added := Add(t, n, z);
    AssignUndone(added, Trim(item), typeName, n);
    DeclareSingle(t, item, typeName, last);
  }

  /** A declaration of one fresh name is the assignment run for it on the table it is added
      to. */
  lemma DeclareSingle(t: Table, item: string, typeName: string, last: Option<Fault>)
    requires Valid(t) && typeName in TypeNames
    requires var n := LeadingName(Trim(item)); IsVariable(n) && n !in t.values
    ensures var n := LeadingName(Trim(item));
      DeclareSets(t, [item], typeName, last)
        == Assign(Added(t, n, typeName), Trim(item), true, typeName, n)
  {
    assert [item][1..] == [];
  }

  /** Inside a declaration, an assignment whose initializer fails removes the last key. */
  lemma AssignUndone(t: Table, temp: string, typeName: string, name: string)
    requires Valid(t) && name in t.values && typeName in TypeNames
    requires AssignSets(t.values, Split(temp, ','), typeName, ZeroOf(typeName).value).Err?
    ensures LastKey(t.slots).Some?
    ensures var a := Assign(t, temp, true, typeName, name);
      a.table.values == t.values - {LastKey(t.slots).value} && a.fault.Some?
  {
    LastKeyPresent(t, name);
  }

  /** While nothing has been removed from the table, a declared item whose initializer fails
      leaves the table as it was. */
  lemma FailedInitializerUndone(t: Table, item: string, typeName: string, last: Option<Fault>)
    requires Valid(t) && typeName in TypeNames && t.free == []
    requires var n := LeadingName(Trim(item)); IsVariable(n) && n !in t.values
    requires var n := LeadingName(Trim(item));
      AssignSets(t.values[n := ZeroOf(typeName).value], Split(Trim(item), ','), typeName, ZeroOf(typeName).value).Err?
    ensures DeclareSets(t, [item], typeName, last).table.values == t.values
  {
    var n := LeadingName(Trim(item));
    FailedInitializerRemovesLast(t, item, typeName, last);
    AddThenLastKey(t, n, ZeroOf(typeName).value);
  }

  /** Before START a declaration runs DeclareSets on the items between VAR and AS; after
      START it fails and changes nothing. */
  lemma DeclarationAfterStart(s: State, line: string)
    requires Valid(s.table) && s.started
    ensures DeclarationOf(s, line) == (s, Message(Plain))
  {
  }

  // ---------------------------------------------------------------- Assignment

  /** The single `=` expression of a one-set line. */
  function Expression(line: string): string
    requires |Split(line, '=')| == 2
  {
    Trim(Split(line, '=')[1])
  }

  lemma OneSet(line: string)
    requires ',' !in line
    ensures Split(line, ',') == [line]
  {
  }

  /** Assigning to a name that is not declared fails and changes nothing. */
  lemma AssignUndeclared(t: Table, line: string)
    requires Valid(t) && LeadingName(line) !in t.values
    ensures Assign(t, line, false, "", "") == Stored(t, Some(Plain))
  {
  }

  /** The type of the value a name holds, as Assignment looks it up. */
  function TypeOfName(t: Table, line: string): (typeName: string)
    requires LeadingName(line) in t.values
    ensures ZeroOf(typeName).Some?
  {
    TypeNameOf(t.values[LeadingName(line)])
  }

  /** A one-set assignment `name = expression` to a declared variable stores the value the
      expression gives a variable of the name's current type, or fails and leaves the table
      as it was. */
  lemma AssignOne(t: Table, line: string)
    requires Valid(t) && ',' !in line && |Split(line, '=')| == 2
    requires LeadingName(line) in t.values
    ensures var typeName := TypeOfName(t, line);
      var r := Initializer(t.values, Expression(line), typeName, ZeroOf(typeName).value);
      Assign(t, line, false, "", "") ==
        if r.Ok? then Stored(Set(t, LeadingName(line), r.value), None) else Stored(t, Some(r.fault))
  {
    var typeName := TypeOfName(t, line);
    AssignSetsOne(t.values, line, typeName, ZeroOf(typeName).value);
  }

  /** The foreach over the sets of a line without commas runs the one initializer. */
  lemma AssignSetsOne(vars: map<string, Value>, line: string, typeName: string, z: Value)
    requires ',' !in line && |Split(line, '=')| == 2
    ensures var r := Initializer(vars, Expression(line), typeName, z);
      AssignSets(vars, Split(line, ','), typeName, z) == if r.Ok? then Ok(r.value) else Err(r.fault)
  {
    OneSet(line);
    assert [line][1..] == [];
  }

  /** CHAR: exactly three characters store the middle one; anything else fails. */
  lemma AssignChar(t: Table, line: string)
    requires Valid(t) && ',' !in line && |Split(line, '=')| == 2
    requires LeadingName(line) in t.values && TypeOfName(t, line) == "CHAR"
    ensures var e := Expression(line);
      var a := Assign(t, line, false, "", "");
      && (|e| == 3 ==> a == Stored(Set(t, LeadingName(line), CharV(e[1])), None))
      && (|e| != 3 ==> a == Stored(t, Some(Format)))
  {
    AssignOne(t, line);
  }

  /** BOOL: the quoted literals store their value; any other expression stores IsTrue's
      verdict, and fails where IsTrue is null. */
  lemma AssignBool(t: Table, line: string)
    requires Valid(t) && ',' !in line && |Split(line, '=')| == 2
    requires LeadingName(line) in t.values && TypeOfName(t, line) == "BOOL"
    ensures var e := Expression(line);
      var n := LeadingName(line);
      var a := Assign(t, line, false, "", "");
      && (e == "\"TRUE\"" ==> a == Stored(Set(t, n, BoolV(true)), None))
      && (e == "\"FALSE\"" ==> a == Stored(Set(t, n, BoolV(false)), None))
      && (e != "\"TRUE\"" && e != "\"FALSE\"" ==>
            a == match Condition.IsTrueOf(e, t.values)
                 case None => Stored(t, Some(Format))
                 case Some(b) => Stored(Set(t, n, BoolV(b)), None))
  {
    AssignOne(t, line);
  }

  /** INT and FLOAT: QuickMath's result is stored as a float; where its last pop finds the
      stack empty the assignment fails, and where ToPostFix rejects the expression the
      variable is reset to its type's zero. */
  lemma AssignNumber(t: Table, line: string)
    requires Valid(t) && ',' !in line && |Split(line, '=')| == 2
    requires LeadingName(line) in t.values && TypeOfName(t, line) in {"INT", "FLOAT"}
    ensures var n := LeadingName(line);
      var a := Assign(t, line, false, "", "");
      a == match Postfix.ToPostFixOf(Expression(line))
           case None => Stored(Set(t, n, ZeroOf(TypeOfName(t, line)).value), None)
           case Some(post) =>
             (match Postfix.QuickMathOf(post, t.values)
              case None => Stored(t, Some(EmptyStack))
              case Some(r) => Stored(Set(t, n, FloatV(r)), None))
  {
    AssignOne(t, line);
  }

  /** An INT variable holds a FLOAT after any assignment that evaluates its expression. */
  lemma IntBecomesFloat(t: Table, line: string)
    requires Valid(t) && ',' !in line && |Split(line, '=')| == 2
    requires LeadingName(line) in t.values && t.values[LeadingName(line)].IntV?
    requires Postfix.ToPostFixOf(Expression(line)).Some?
    requires Postfix.QuickMathOf(Postfix.ToPostFixOf(Expression(line)).value, t.values).Some?
    ensures Assign(t, line, false, "", "").table.values[LeadingName(line)].FloatV?
  {
    AssignNumber(t, line);
  }

  /** A chained `x = y = 3` splits into three parts at `=` and is skipped: the variable is
      reset to its type's zero and nothing fails. */
  lemma ChainedAssignStoresZero(t: Table, line: string)
    requires Valid(t) && ',' !in line && |Split(line, '=')| > 2
    requires LeadingName(line) in t.values
    ensures var n := LeadingName(line);
      var a := Assign(t, line, false, "", "");
      a.fault.None? && a.table.values == t.values[n := ZeroOf(TypeNameOf(t.values[n])).value]
  {
    OneSet(line);
    var typeName := TypeOfName(t, line);
    var z := ZeroOf(typeName).value;
    assert [line][1..] == [];
    assert AssignSets(t.values, [line], typeName, z) == Ok(z);
  }

  // ---------------------------------------------------------------- ++ and --


  /** What `++` (up) or `--` makes of a value that has the operator: an int in the 32-bit
      range moves by one and wraps from the largest to the smallest; a float moves by one;
      a 16-bit char moves by one code unit and wraps at 16 bits, skipping the surrogate
      block. */
  predicate OneStep(v: Value, w: Value, up: bool) {
    var d := if up then 1 else -1;
    match v
    case IntV(i) =>
      Int32Min <= i <= Int32Max ==>
        w == IntV(if up && i == Int32Max then Int32Min else if !up && i == Int32Min then Int32Max else i + d)
    case FloatV(r) => w == FloatV(r + d as real)
    case CharV(c) =>
      c as int < 0x1_0000 ==>
        var n := c as int + d;
        w.CharV? &&
        w.c as int == (if n == 0x1_0000 then 0 else if n == -1 then 0xFFFF
                       else if n == 0xD800 then 0xE000 else if n == 0xDFFF then 0xD7FF else n)
    case _ => false
  }

  lemma Wrap32Range(x: int)
    requires Int32Min - 1 <= x <= Int32Max + 1
    ensures Wrap32(x) == if x == Int32Max + 1 then Int32Min else if x == Int32Min - 1 then Int32Max else x
  {
  }

  /** Bump fails exactly on bool and string values, and otherwise moves the value by one. */
  lemma BumpOneStep(v: Value, up: bool)
    ensures Bump(v, up).Err? <==> v.BoolV? || v.StrV?
    ensures Bump(v, up).Err? ==> Bump(v, up).fault == Binder
    ensures Bump(v, up).Ok? ==> OneStep(v, Bump(v, up).value, up)
  {
    match v
    case IntV(i) =>
      if Int32Min <= i <= Int32Max {
        Wrap32Range(i + (if up then 1 else -1));
      }
    case _ =>
  }

  /** `++x` or `x--` after START changes only the named variable, by exactly one step; a
      line without an operator changes nothing; before START, on a malformed name or on an
      undeclared one it fails and changes nothing. */
  lemma UnaryEffect(s: State, line: string)
    ensures var (s', r) := UnaryOf(s, line);
      var n := FirstName(line);
      && (!s.started ==> r == Message(Plain))
      && (s.started && IsVariable(n) && n !in s.table.values ==> r == Message(NullReference))
      && (s.started && !IsVariable(n) ==> r == Message(Format))
      && (r != Quiet || FirstAction(line) == "" ==> s' == s)
      && (r == Quiet && FirstAction(line) != "" ==>
            && s' == s.(table := s'.table) && n in s.table.values
            && s'.table.values.Keys == s.table.values.Keys
            && (forall m | m in s.table.values && m != n :: s'.table.values[m] == s.table.values[m])
            && OneStep(s.table.values[n], s'.table.values[n], FirstAction(line) == "++"))
  {
    var n := FirstName(line);
    if s.started && IsVariable(n) && n in s.table.values && FirstAction(line) != "" {
      BumpOneStep(s.table.values[n], FirstAction(line) == "++");
    }
  }

  // ---------------------------------------------------------------- IF and OUTPUT

  /** IF fails exactly when its condition is null; the condition check changes nothing. */
  lemma IfRule(s: State, line: string)
    ensures IfOf(s, line).0 == s
    ensures IfOf(s, line).1 == Message(InvalidOperation) <==> Condition.IsTrueOf(IfExpression(line), s.table.values).None?
    ensures IfOf(s, line).1 != Message(InvalidOperation) ==> IfOf(s, line).1 == Quiet
  {
  }

  /** After START, an OUTPUT line whose template is a well-formed list of segments writes
      each declared name's value and each quoted text, escapes resolved, in order. */
  lemma OutputPrints(s: State, line: string, items: seq<Template.Item>)
    requires Valid(s.table) && s.started && Classify(line) == Output
    requires Template.TemplateOf(line) == Template.Line(items)
    requires Template.WellFormed(items, s.table.values)
    ensures Step(s, line) == (s, Shown(Template.Expect(items, s.table.values, [])))
  {
    Template.WalkLine(items, s.table.values);
  }
}
