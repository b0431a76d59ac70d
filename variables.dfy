/** Run-time values of the interpreter's variables, the per-type zero values, the name
    predicates, and the variable table: a model of Dictionary<string, dynamic> that keeps
    the entry order the .NET dictionary enumerates its keys in. */
module Variables {
  import opened Text

  /** The run-time type of a `dynamic` value in the table: int, float, bool, char, or the
      string an INPUT into a CHAR variable stores. */
  datatype Value = IntV(i: int) | FloatV(r: real) | BoolV(b: bool) | CharV(c: char) | StrV(s: string)

  const TypeNames: seq<string> := ["INT", "FLOAT", "BOOL", "CHAR"]

  /** Assignment's classification of a stored value: int, float and bool by their run-time
      type, everything else as CHAR. */
  function TypeNameOf(v: Value): string {
    match v
    case IntV(_) => "INT"
    case FloatV(_) => "FLOAT"
    case BoolV(_) => "BOOL"
    case _ => "CHAR"
  }

  /** The `dataTypes` dictionary: the zero value a declaration stores for its type (0, 0.0,
      false and a space); None where the lookup throws KeyNotFoundException. */
  function ZeroOf(typeName: string): (r: Option<Value>)
    ensures r.Some? <==> typeName in TypeNames
    ensures r.Some? ==> TypeNameOf(r.value) == typeName
    ensures typeName == "INT" ==> r == Some(IntV(0))
    ensures typeName == "FLOAT" ==> r == Some(FloatV(0.0))
    ensures typeName == "BOOL" ==> r == Some(BoolV(false))
    ensures typeName == "CHAR" ==> r == Some(CharV(' '))
  {
    if typeName == "INT" then Some(IntV(0))
    else if typeName == "FLOAT" then Some(FloatV(0.0))
    else if typeName == "BOOL" then Some(BoolV(false))
    else if typeName == "CHAR" then Some(CharV(' '))
    else None
  }

  const Reserved: seq<string> := ["VAR", "AS", "INT", "FLOAT", "BOOL", "CHAR", "START", "STOP"]

  predicate IsReserved(name: string) { name in Reserved }

  predicate IsNameStart(c: char) { IsLetter(c) || c == '_' }

  /** isVariable: the pattern ^[a-zA-Z_][a-zA-z0-9_]* has no end anchor, so only the first
      character is examined; the name must also not be reserved. */
  predicate IsVariable(name: string) {
    |name| > 0 && IsNameStart(name[0]) && !IsReserved(name)
  }

  /** The character class [a-zA-z0-9_]: the range A-z also takes in [ \ ] ^ and `. */
  predicate IsLooseNameChar(c: char) { ('A' <= c <= 'z') || IsDigit(c) }

  function LooseRun(s: string): (n: nat)
    ensures n <= |s| && forall i | 0 <= i < n :: IsLooseNameChar(s[i])
    ensures n < |s| ==> !IsLooseNameChar(s[n])
  {
    if |s| > 0 && IsLooseNameChar(s[0]) then 1 + LooseRun(s[1..]) else 0
  }

  /** Regex.Match(s, @"^[a-zA-Z_][a-zA-z0-9_]*").Value: the longest such prefix, or "". */
  function LeadingName(s: string): (name: string)
    ensures name == [] || (IsNameStart(name[0]) && name <= s)
    ensures name == [] <==> (|s| == 0 || !IsNameStart(s[0]))
    ensures |name| < |s| && name != [] ==> !IsLooseNameChar(s[|name|])
  {
    if |s| > 0 && IsNameStart(s[0]) then s[..1 + LooseRun(s[1..])] else []
  }

  /** The variable table. `values` is what the dictionary maps; `slots` is its entry array
      (a removed entry leaves a hole) and `free` its free list, last freed slot last: Add
      reuses the most recently freed slot, so the key order seen through `Keys` is slot order,
      not insertion order. */
  datatype Table = Table(values: map<string, Value>, slots: seq<Option<string>>, free: seq<nat>)

  const EmptyTable: Table := Table(map[], [], [])

  /** The invariant Add and Remove keep: the keys are exactly the occupied slots, each in
      one slot; the free list names distinct holes. */
  ghost predicate Valid(t: Table) {
    KeysInSlots(t) && SlotsDistinct(t) && FreeHoles(t) && FreeDistinct(t)
  }

  ghost predicate KeysInSlots(t: Table) { forall k :: k in t.values <==> Some(k) in t.slots }

  ghost predicate SlotsDistinct(t: Table) {
    forall i, j | 0 <= i < j < |t.slots| :: t.slots[i].Some? ==> t.slots[i] != t.slots[j]
  }

  ghost predicate FreeHoles(t: Table) {
    forall j | 0 <= j < |t.free| :: t.free[j] < |t.slots| && t.slots[t.free[j]].None?
  }

  ghost predicate FreeDistinct(t: Table) {
    forall a, b | 0 <= a < b < |t.free| :: t.free[a] != t.free[b]
  }

  lemma EmptyTableValid()
    ensures Valid(EmptyTable) && EmptyTable.values == map[]
  {
  }

  function SlotOf(slots: seq<Option<string>>, k: string): (i: nat)
    requires Some(k) in slots
    ensures i < |slots| && slots[i] == Some(k)
  {
    if slots[0] == Some(k) then 0 else 1 + SlotOf(slots[1..], k)
  }

  /** Dictionary.Add for a key that is not present (every call site checks ContainsKey
      first): the entry goes into the most recently freed slot, or after the last one. */
  function Add(t: Table, k: string, v: Value): (r: Table)
    requires k !in t.values && (|t.free| > 0 ==> t.free[|t.free| - 1] < |t.slots|)
    ensures r.values == t.values[k := v]
    ensures |t.free| > 0 ==>
              r.slots == t.slots[t.free[|t.free| - 1] := Some(k)] && r.free == t.free[..|t.free| - 1]
    ensures |t.free| == 0 ==> r.slots == t.slots + [Some(k)] && r.free == []
  {
    if |t.free| > 0 then
      var f := t.free[|t.free| - 1];
      Table(t.values[k := v], t.slots[f := Some(k)], t.free[..|t.free| - 1])
    else
      Table(t.values[k := v], t.slots + [Some(k)], t.free)
  }

  lemma AddValid(t: Table, k: string, v: Value)
    requires Valid(t) && k !in t.values
    ensures Valid(Add(t, k, v))
  {
    if |t.free| > 0 {
      AddHoleKeys(t, k, v);
      AddHoleDistinct(t, k, v);
      AddHoleFree(t, k, v);
    } else {
      AddEndKeys(t, k, v);
      AddEndDistinct(t, k, v);
    }
  }

  lemma AddHoleKeys(t: Table, k: string, v: Value)
    requires Valid(t) && k !in t.values && |t.free| > 0
    ensures KeysInSlots(Add(t, k, v))
  {
    var r := Add(t, k, v);
    var f := t.free[|t.free| - 1];
    forall k' ensures k' in r.values <==> Some(k') in r.slots {
      if k' == k {
        assert r.slots[f] == Some(k);
      } else if k' in t.values {
        var i := SlotOf(t.slots, k');
        assert r.slots[i] == Some(k');
      }
    }
  }

  lemma AddHoleDistinct(t: Table, k: string, v: Value)
    requires Valid(t) && k !in t.values && |t.free| > 0
    ensures SlotsDistinct(Add(t, k, v))
  {
    assert Some(k) !in t.slots;
  }

  lemma AddHoleFree(t: Table, k: string, v: Value)
    requires Valid(t) && k !in t.values && |t.free| > 0
    ensures FreeHoles(Add(t, k, v)) && FreeDistinct(Add(t, k, v))
  {
  }

  lemma AddEndKeys(t: Table, k: string, v: Value)
    requires Valid(t) && k !in t.values && |t.free| == 0
    ensures KeysInSlots(Add(t, k, v))
  {
    var r := Add(t, k, v);
    forall k' ensures k' in r.values <==> Some(k') in r.slots {
      if k' == k {
        assert r.slots[|t.slots|] == Some(k);
      } else if k' in t.values {
        var i := SlotOf(t.slots, k');
        assert r.slots[i] == Some(k');
      }
    }
  }

  lemma AddEndDistinct(t: Table, k: string, v: Value)
    requires Valid(t) && k !in t.values && |t.free| == 0
    ensures SlotsDistinct(Add(t, k, v)) && FreeHoles(Add(t, k, v)) && FreeDistinct(Add(t, k, v))
  {
    assert Some(k) !in t.slots;
  }

  /** Dictionary.Remove: a present key's slot becomes a hole at the end of the free list; an
      absent key leaves the table as it is (in a valid table a key has a slot exactly when it
      is present, so the second branch only ever sees absent keys). */
  function Remove(t: Table, k: string): (r: Table)
    ensures r.values == t.values - {k}
    ensures k in t.values && Some(k) in t.slots ==>
              var i := SlotOf(t.slots, k);
              r.slots == t.slots[i := None] && r.free == t.free + [i]
    ensures k !in t.values ==> r == t
  {
    if k in t.values && Some(k) in t.slots then
      var i := SlotOf(t.slots, k);
      Table(t.values - {k}, t.slots[i := None], t.free + [i])
    else
      Table(t.values - {k}, t.slots, t.free)
  }

  lemma RemoveValid(t: Table, k: string)
    requires Valid(t)
    ensures Valid(Remove(t, k))
  {
    if k in t.values {
      RemoveKeys(t, k);
      RemoveDistinct(t, k);
      RemoveFree(t, k);
    }
  }

  lemma RemoveKeys(t: Table, k: string)
    requires Valid(t) && k in t.values
    ensures KeysInSlots(Remove(t, k))
  {
    var r := Remove(t, k);
    forall k' ensures k' in r.values <==> Some(k') in r.slots {
      if k' in r.values {
        var j := SlotOf(t.slots, k');
        assert r.slots[j] == Some(k');
      }
    }
  }

  lemma RemoveDistinct(t: Table, k: string)
    requires Valid(t) && k in t.values
    ensures SlotsDistinct(Remove(t, k))
  {
  }

  lemma RemoveFree(t: Table, k: string)
    requires Valid(t) && k in t.values
    ensures FreeHoles(Remove(t, k)) && FreeDistinct(Remove(t, k))
  {
    var i := SlotOf(t.slots, k);
    assert forall j | 0 <= j < |t.free| :: t.free[j] != i;
  }

  /** The indexer's setter on a present key (Assignment only stores into a declared
      variable): the value changes, the entry stays in its slot. */
  function Set(t: Table, k: string, v: Value): (r: Table)
    requires k in t.values
    ensures r.values == t.values[k := v] && r.slots == t.slots && r.free == t.free
  {
    Table(t.values[k := v], t.slots, t.free)
  }

  lemma SetValid(t: Table, k: string, v: Value)
    requires Valid(t) && k in t.values
    ensures Valid(Set(t, k, v))
  {
  }

  /** Keys.Last(): the key in the last occupied slot; None where Last() throws on an empty
      key collection. */
  function LastKey(slots: seq<Option<string>>): (r: Option<string>)
    ensures r.Some? ==> Some(r.value) in slots
    ensures r.Some? ==> exists i | 0 <= i < |slots| :: slots[i] == r && LaterEmpty(slots, i)
    ensures r.None? <==> forall i | 0 <= i < |slots| :: slots[i].None?
  {
    if |slots| == 0 then None
    else if slots[|slots| - 1].Some? then slots[|slots| - 1]
    else
      var r := LastKey(slots[..|slots| - 1]);
      LastKeyStep(slots, r);
      r
  }

  /** An empty last slot leaves the last occupied slot where it was. */
  lemma LastKeyStep(slots: seq<Option<string>>, r: Option<string>)
    requires |slots| > 0 && slots[|slots| - 1].None?
    requires var front := slots[..|slots| - 1];
      r.Some? ==> exists i | 0 <= i < |front| :: front[i] == r && LaterEmpty(front, i)
    ensures r.Some? ==> exists i | 0 <= i < |slots| :: slots[i] == r && LaterEmpty(slots, i)
  {
    if r.Some? {
      var front := slots[..|slots| - 1];
      var i :| 0 <= i < |front| && front[i] == r && LaterEmpty(front, i);
      assert slots[i] == r && LaterEmpty(slots, i);
    }
  }

  /** Every slot after slot i is empty. */
  predicate LaterEmpty(slots: seq<Option<string>>, i: nat) {
    forall j | i < j < |slots| :: slots[j].None?
  }

  /** While nothing has been removed from the table, the last key is the one added last. */
  lemma AddThenLastKey(t: Table, k: string, v: Value)
    requires k !in t.values && |t.free| == 0
    ensures LastKey(Add(t, k, v).slots) == Some(k)
  {
  }

  /** Once an entry has been removed, the next Add fills the hole, and Keys.Last() no longer
      names the key added last: declaring a, b, then removing a and adding c leaves b last. */
  lemma AddAfterRemoveLastKey()
    ensures var t0 := Add(Add(EmptyTable, "a", IntV(0)), "b", IntV(0));
            var t1 := Add(Remove(t0, "a"), "c", IntV(0));
            "c" in t1.values && LastKey(t1.slots) == Some("b")
  {
    var t0 := Add(Add(EmptyTable, "a", IntV(0)), "b", IntV(0));
    assert t0.slots == [Some("a"), Some("b")];
    RemoveFirst(t0);
  }

  lemma RemoveFirst(t0: Table)
    requires t0.slots == [Some("a"), Some("b")] && t0.free == []
    requires t0.values == map["a" := IntV(0), "b" := IntV(0)]
    ensures var t1 := Add(Remove(t0, "a"), "c", IntV(0));
            "c" in t1.values && LastKey(t1.slots) == Some("b")
  {
    assert SlotOf(t0.slots, "a") == 0;
    var r := Remove(t0, "a");
    assert r.slots == [None, Some("b")] && r.free == [0];
    AddIntoHole(r);
  }

  lemma AddIntoHole(r: Table)
    requires r.slots == [None, Some("b")] && r.free == [0] && "c" !in r.values
    ensures var t1 := Add(r, "c", IntV(0));
            "c" in t1.values && LastKey(t1.slots) == Some("b")
  {
    assert Add(r, "c", IntV(0)).slots == [Some("c"), Some("b")];
  }
}
