/** The Interpreter class: its flags and variable table change in place as Interpret runs
    one line after another. Every method is proved to do what the matching function of
    Statements says. */
module Interpreting {
  import opened Text
  import opened Variables
  import opened Faults
  import opened Patterns
  import opened Statements
  import Postfix
  import Condition
  import Template

  /** One `name = expression` set of an assignment, worked out with the ToPostFix,
      QuickMath and IsTrue methods. */
  method InitialValue(vars: map<string, Value>, expression: string, typeName: string, v: Value)
    returns (r: Result<Value>)
    ensures r == Initializer(vars, expression, typeName, v)
  {
    r := Ok(v);
    if typeName == "INT" || typeName == "FLOAT" {
      var post := Postfix.ToPostFix(expression);
      if post.Some? {
        var value := Postfix.QuickMath(post.value, vars);
        r := if value.None? then Err(EmptyStack) else Ok(FloatV(value.value));
      }
    } else if typeName == "BOOL" {
      if expression == "\"TRUE\"" {
        r := Ok(BoolV(true));
      } else if expression == "\"FALSE\"" {
        r := Ok(BoolV(false));
      } else {
        var run := Condition.IsTrue(expression, vars);
        r := if run.None? then Err(Format) else Ok(BoolV(run.value));
      }
    } else if typeName == "CHAR" {
      r := if |expression| == 3 then Ok(CharV(expression[1])) else Err(Format);
    }
  }

  /** Assignment's foreach over the comma-separated sets, ending at the first initializer
      that fails. */
  method Initializers(vars: map<string, Value>, sets: seq<string>, typeName: string, z: Value)
    returns (r: Result<Value>)
    ensures r == AssignSets(vars, sets, typeName, z)
  {
    var v := z;
    var i := 0;
    while i < |sets|
      invariant 0 <= i <= |sets|
      invariant AssignSets(vars, sets, typeName, z) == AssignSets(vars, sets[i..], typeName, v)
    {
      AssignSetsAt(vars, sets, i, typeName, v);
      var parts := Split(sets[i], '=');
      if |parts| == 2 {
        var w := InitialValue(vars, Trim(parts[1]), typeName, v);
        if w.Err? {
          return w;
        }
        v := w.value;
      }
      i := i + 1;
    }
    assert sets[i..] == [];
    r := Ok(v);
  }

  /** AssignSets from position i: the set there, then the rest. */
  lemma AssignSetsAt(vars: map<string, Value>, sets: seq<string>, i: nat, typeName: string, v: Value)
    requires i < |sets|
    ensures var parts := Split(sets[i], '=');
      AssignSets(vars, sets[i..], typeName, v)
        == if |parts| != 2 then AssignSets(vars, sets[i + 1..], typeName, v)
           else match Initializer(vars, Trim(parts[1]), typeName, v)
             case Err(f) => Err(f)
             case Ok(w) => AssignSets(vars, sets[i + 1..], typeName, w)
  {
    assert sets[i..][0] == sets[i] && sets[i..][1..] == sets[i + 1..];
  }

  /** Interpret's foreach over the patterns: the first one the line matches. */
  method Recognize(line: string) returns (kind: Statement)
    ensures kind == Classify(line)
  {
    var i := 0;
    while i < |Order|
      invariant 0 <= i <= |Order|
      invariant FirstHit(MatchesOf(line), Order[i..]) == Classify(line)
    {
      FirstHitAt(MatchesOf(line), Order, i);
      MatchesOfAt(line, Order[i]);
      if Matches(Order[i], line) {
        return Order[i];
      }
      i := i + 1;
    }
    kind := NoMatch;
  }

  /** One item of a declaration: the table and fault after it, and whether the foreach stops
      there. */
  ghost function DeclareItem(t: Table, item: string, typeName: string): (r: (Stored, bool))
    requires Valid(t)
    ensures Valid(r.0.table)
  {
    var temp := Trim(item);
    var name := LeadingName(temp);
    if !IsVariable(name) then (Stored(t, Some(Plain)), true)
    else if name in t.values then
      RemoveValid(t, name);
      (Stored(Remove(t, name), Some(Plain)), true)
    else
      match ZeroOf(typeName)
      case None => (Stored(t, Some(KeyNotFound)), true)
      case Some(z) => (Introduce(t, temp, typeName, name, z), false)
  }

  /** A declared name not yet in the table: added with the zero z, then assigned from its
      item with del set. */
  ghost function Introduce(t: Table, temp: string, typeName: string, name: string, z: Value): (r: Stored)
    requires Valid(t) && name !in t.values
    ensures Valid(r.table)
  {
    AddValid(t, name, z);
    AssignValid(Add(t, name, z), temp, true, typeName, name);
    Assign(Add(t, name, z), temp, true, typeName, name)
  }

  /** DeclareSets from position i: the item there, then the rest unless that item stopped
      the foreach. */
  lemma DeclareSetsAt(t: Table, sets: seq<string>, i: nat, typeName: string, last: Option<Fault>)
    requires Valid(t) && i < |sets|
    ensures DeclareSets(t, sets[i..], typeName, last)
            == (var (d, stop) := DeclareItem(t, sets[i], typeName);
                if stop then d else DeclareSets(d.table, sets[i + 1..], typeName, d.fault))
  {
    var rest := sets[i..];
    assert rest[0] == sets[i] && rest[1..] == sets[i + 1..];
    var name := LeadingName(Trim(sets[i]));
    if IsVariable(name) && name !in t.values {
      match ZeroOf(typeName)
      case None =>
      case Some(z) =>
    }
  }

  lemma DeclareSetsEnd(t: Table, sets: seq<string>, i: nat, typeName: string, last: Option<Fault>)
    requires Valid(t) && i == |sets|
    ensures DeclareSets(t, sets[i..], typeName, last) == Stored(t, last)
  {
    assert sets[i..] == [];
  }

  class Interpreter {
    var hasStarted: bool
    var hasFinished: bool
    var variableList: Table
    /** The lines Console.ReadLine has still to return. */
    var console: seq<string>

    ghost predicate Valid()
      reads this
    {
      Variables.Valid(variableList)
    }

    /** The interpreter's fields as a value of the model. */
    function Snapshot(): State
      reads this
    {
      State(hasStarted, hasFinished, variableList, console)
    }

    /** A new interpreter: not started, no variables, reading the given console lines. */
    constructor(input: seq<string>)
      ensures Valid() && Snapshot() == Fresh(input)
    {
      hasStarted := false;
      hasFinished := false;
      variableList := EmptyTable;
      console := input;
    }

    /** Interpret: the first pattern the line matches picks the statement; START and STOP
        set the flags here. */
    method Interpret(line: string) returns (reply: Reply)
      requires Valid()
      modifies this
      ensures Valid() && (Snapshot(), reply) == Step(old(Snapshot()), line)
    {
      var kind := Recognize(line);
      reply := Dispatch(kind, line);
    }

    /** Interpret's switch on the matched pattern's key. */
    method Dispatch(kind: Statement, line: string) returns (reply: Reply)
      requires Valid()
      modifies this
      ensures Valid() && (Snapshot(), reply) == Run(old(Snapshot()), line, kind)
    {
      match kind
      case Declaration => reply := Declaration(line);
      case Assignment =>
        var fault := Assignment(line, false, "", "");
        reply := Said(fault);
      case Input => reply := Input(line);
      case Output => reply := Output(line);
      case Comment => reply := Comment(line);
      case Unary => reply := Unary(line);
      case If => reply := IF(line);
      case Start =>
        if !hasStarted {
          hasStarted := true;
          reply := Quiet;
        } else {
          reply := Message(Plain);
        }
      case Stop =>
        if hasStarted {
          hasFinished := true;
          reply := Quiet;
        } else {
          reply := Message(Plain);
        }
      case NoMatch => reply := Message(Plain);
    }

    /** Declaration: each item is added with its type's zero and its initializer runs as an
        assignment that, on failure, removes the last key. */
    method Declaration(line: string) returns (reply: Reply)
      requires Valid()
      modifies this
      ensures Valid() && (Snapshot(), reply) == DeclarationOf(old(Snapshot()), line)
    {
      if hasStarted {
        return Message(Plain);
      }
      var sets := Split(DeclarationBody(line), ',');
      var variableType := TypeWord(line);
      var last: Option<Fault> := None;
      ghost var goal := DeclareSets(variableList, sets, variableType, None);
      var i := 0;
      while i < |sets|
        invariant 0 <= i <= |sets|
        invariant Valid()
        invariant !hasStarted && hasFinished == old(hasFinished) && console == old(console)
        invariant goal == DeclareSets(variableList, sets[i..], variableType, last)
      {
        ghost var before := variableList;
        var stop, fault := DeclareOne(sets[i], variableType);
        DeclareSetsAt(before, sets, i, variableType, last);
        if stop {
          return Said(fault);
        }
        last := fault;
        i := i + 1;
      }
      DeclareSetsEnd(variableList, sets, i, variableType, last);
      reply := Said(last);
    }

    /** One pass of Declaration's foreach. */
    method DeclareOne(item: string, typeName: string) returns (stop: bool, fault: Option<Fault>)
      requires Valid()
      modifies this
      ensures Valid() && Snapshot() == old(Snapshot()).(table := variableList)
      ensures (Stored(variableList, fault), stop) == DeclareItem(old(variableList), item, typeName)
    {
      var temp := Trim(item);
      var variableName := LeadingName(temp);
      if !IsVariable(variableName) {
        return true, Some(Plain);
      }
      if variableName in variableList.values {
        Redeclared(variableName);
        return true, Some(Plain);
      }
      var zero := ZeroOf(typeName);
      if zero.None? {
        return true, Some(KeyNotFound);
      }
      fault := AddVariable(temp, typeName, variableName, zero.value);
      stop := false;
    }

    /** A name declared twice: its entry is removed before the declaration fails. */
    method Redeclared(name: string)
      requires Valid()
      modifies this
      ensures Valid() && Snapshot() == old(Snapshot()).(table := Remove(old(variableList), name))
    {
      RemoveValid(variableList, name);
      variableList := Remove(variableList, name);
    }

    /** A new name is added with its type's zero, then its initializer runs as an assignment. */
    method AddVariable(temp: string, typeName: string, name: string, z: Value) returns (fault: Option<Fault>)
      requires Valid() && name !in variableList.values
      modifies this
      ensures Valid()
      ensures hasStarted == old(hasStarted) && hasFinished == old(hasFinished) && console == old(console)
      ensures Stored(variableList, fault) == Introduce(old(variableList), temp, typeName, name, z)
    {
      AddValid(variableList, name, z);
      variableList := Add(variableList, name, z);
      fault := Assignment(temp, true, typeName, name);
    }

    /** Assignment(line, del, variableType, variableName): the fault it reports, if any. */
    method Assignment(line: string, del: bool, typeName: string, name: string) returns (fault: Option<Fault>)
      requires Valid()
      requires (name == "" && typeName == "" && !del) || name in variableList.values
      modifies this
      ensures Valid()
      ensures hasStarted == old(hasStarted) && hasFinished == old(hasFinished) && console == old(console)
      ensures Stored(variableList, fault) == Assign(old(variableList), line, del, typeName, name)
    {
      var variableName, variableType := name, typeName;
      if name == "" && typeName == "" {
        variableName := LeadingName(line);
        if variableName !in variableList.values {
          return Some(Plain);
        }
        variableType := TypeNameOf(variableList.values[variableName]);
      }
      var zero := ZeroOf(variableType);
      if zero.None? {
        fault := Rollback(del, KeyNotFound, variableName);
        return;
      }
      var r := Initializers(variableList.values, Split(line, ','), variableType, zero.value);
      if r.Err? {
        fault := Rollback(del, r.fault, variableName);
        return;
      }
      SetValid(variableList, variableName, r.value);
      variableList := Set(variableList, variableName, r.value);
      fault := None;
    }

    /** Assignment's catch block: inside a declaration the key Keys.Last() names goes. */
    method Rollback(del: bool, f: Fault, name: string) returns (fault: Option<Fault>)
      requires Valid() && name in variableList.values
      modifies this
      ensures Valid()
      ensures hasStarted == old(hasStarted) && hasFinished == old(hasFinished) && console == old(console)
      ensures Stored(variableList, fault) == Undo(old(variableList), del, f, name)
    {
      if del {
        LastKeyPresent(variableList, name);
        RemoveValid(variableList, LastKey(variableList.slots).value);
        variableList := Remove(variableList, LastKey(variableList.slots).value);
      }
      fault := Some(f);
    }

    /** Input: a console line is read and parsed for each name in turn. */
    method Input(line: string) returns (reply: Reply)
      requires Valid()
      modifies this
      ensures Valid() && (Snapshot(), reply) == InputOf(old(Snapshot()), line)
    {
      if !hasStarted {
        return Message(Plain);
      }
      var variables := InputNames(line);
      var i := 0;
      while i < |variables|
        invariant 0 <= i <= |variables|
        invariant Valid()
        invariant hasStarted && hasFinished == old(hasFinished)
        invariant ReadNames(old(variableList), variables, old(console))
                  == ReadNames(variableList, variables[i..], console)
      {
        var variable := variables[i];
        if !IsVariable(variable) {
          return Message(Format);
        }
        if variable !in variableList.values {
          return Message(NullReference);
        }
        var input: Option<string> := None;
        if console != [] {
          input := Some(console[0]);
          console := console[1..];
        }
        var v := Parsed(variableList.values[variable], input);
        if v.Err? {
          return Message(v.fault);
        }
        SetValid(variableList, variable, v.value);
        variableList := Set(variableList, variable, v.value);
        assert variables[i..][1..] == variables[i + 1..];
        i := i + 1;
      }
      reply := Quiet;
    }

    /** Output: the chunks OUTPUT writes, built by Template.Build. */
    method Output(line: string) returns (reply: Reply)
      ensures (Snapshot(), reply) == OutputStatement(Snapshot(), line)
    {
      if !hasStarted {
        return Message(Plain);
      }
      var outcome := Template.Build(Template.TemplateOf(line), variableList.values);
      reply := Shows(outcome);
    }

    /** Comment: written back to the console after START. */
    method Comment(line: string) returns (reply: Reply)
      ensures (Snapshot(), reply) == CommentOf(Snapshot(), line)
    {
      if hasStarted {
        reply := Shown([Template.Lit(line)]);
      } else {
        reply := Message(Plain);
      }
    }

    /** Unary: `++` or `--` on the first name of the line. */
    method Unary(line: string) returns (reply: Reply)
      requires Valid()
      modifies this
      ensures Valid() && (Snapshot(), reply) == UnaryOf(old(Snapshot()), line)
    {
      if !hasStarted {
        return Message(Plain);
      }
      var variable := FirstName(line);
      var action := FirstAction(line);
      if !IsVariable(variable) {
        return Message(Format);
      }
      if variable !in variableList.values {
        return Message(NullReference);
      }
      reply := Quiet;
      if action != "" {
        var v := Bump(variableList.values[variable], action == "++");
        if v.Err? {
          return Message(v.fault);
        }
        SetValid(variableList, variable, v.value);
        variableList := Set(variableList, variable, v.value);
      }
    }

    /** IF: the condition check; a condition IsTrue cannot decide fails. */
    method IF(line: string) returns (reply: Reply)
      ensures (Snapshot(), reply) == IfOf(Snapshot(), line)
    {
      var run := Condition.IsTrue(IfExpression(line), variableList.values);
      reply := if run.None? then Message(InvalidOperation) else Quiet;
    }
  }
}
