// The symbol registries of a world, and when they intern a name as the overlay does.

module Registry {
  import opened Wrappers
  import opened Model
  import opened Overlay
  import opened Invariants

  datatype WorldError =
    | EmptyName
    | NameTaken
    | SymbolTaken
    | UnknownSymbol
    | InvalidSymbolId
    | UnknownObject
    | UnknownTemp
    | InvalidTemp
    | DuplicateTemp
    | UnknownPointer
    | UnknownFact

  // Every name is at its slot and nothing else is in the map; slots may be empty.
  ghost predicate Inverse(names: seq<string>, ids: map<string, nat>) {
    && (forall i :: 0 <= i < |names| && names[i] != "" ==> names[i] in ids && ids[names[i]] == i + 1)
    && (forall n :: n in ids ==> n != "" && 1 <= ids[n] <= |names| && names[ids[n] - 1] == n)
  }

  // No slot is empty and no name repeated.
  ghost predicate Full(names: seq<string>) {
    && (forall i :: 0 <= i < |names| ==> names[i] != "")
    && (forall i, j :: 0 <= i < j < |names| ==> names[i] != names[j])
  }

  // The table of a snapshot: slot i holds symbol i + 1.
  function Table(names: seq<string>): map<nat, string> {
    map k: nat | 0 <= k <= |names| && IsSlot(names, k) :: names[k - 1]
  }

  predicate IsSlot(names: seq<string>, k: nat) {
    1 <= k <= |names|
  }

  function Resized(names: seq<string>, size: nat): (r: seq<string>)
    ensures |r| == Max(size, |names|)
    ensures forall i :: 0 <= i < |r| ==> r[i] == if i < |names| then names[i] else ""
  {
    if |names| < size then names + seq(size - |names|, _ => "") else names
  }

  // What interning a name at a wanted symbol leaves in the slots.
  function InternedAt(names: seq<string>, symbol: nat, name: string): Result<seq<string>, WorldError> {
    if name == "" then Err(EmptyName)
    else if symbol == 0 then (if name in names then Ok(names) else Ok(names + [name]))
    else if name in names then (if symbol <= |names| && names[symbol - 1] == name then Ok(names) else Err(NameTaken))
    else if Resized(names, symbol)[symbol - 1] != "" then Err(SymbolTaken)
    else Ok(Resized(names, symbol)[symbol - 1 := name])
  }

  // A new name at an empty slot keeps names and map inverse.
  lemma InverseGrows(names: seq<string>, ids: map<string, nat>, size: nat, symbol: nat, name: string)
    requires Inverse(names, ids) && 1 <= symbol <= |Resized(names, size)| && name != "" && name !in ids
    requires Resized(names, size)[symbol - 1] == ""
    ensures Inverse(Resized(names, size)[symbol - 1 := name], ids[name := symbol])
  {
  }

  lemma InverseKnows(names: seq<string>, ids: map<string, nat>, name: string)
    requires Inverse(names, ids) && name != ""
    ensures name in ids <==> name in names
    ensures name in ids ==> 1 <= ids[name] <= |names| && names[ids[name] - 1] == name
    ensures forall i :: 0 <= i < |names| && names[i] == name ==> name in ids && ids[name] == i + 1
  {
  }

  // The slots hold the table, except for the entries left.
  ghost predicate Restored(names: seq<string>, table: map<nat, string>, left: set<nat>) {
    forall i :: 0 <= i < |names| ==> names[i] == if i + 1 in table && i + 1 !in left then table[i + 1] else ""
  }

  lemma RestoreOne(names: seq<string>, ids: map<string, nat>, table: map<nat, string>, left: set<nat>, k: nat)
    requires SymbolsOk(table) && Inverse(names, ids) && Restored(names, table, left)
    requires k in left && k in table && 1 <= k <= |names|
    ensures Inverse(names[k - 1 := table[k]], ids[table[k] := k]) &&
            Restored(names[k - 1 := table[k]], table, left - {k})
  {
    assert table[k] !in ids;
    assert Resized(names, 0) == names;
    InverseGrows(names, ids, 0, k, table[k]);
  }

  class SymbolRegistry {
    var names: seq<string>
    var ids: map<string, nat>

    ghost predicate Valid()
      reads this
    {
      Inverse(names, ids)
    }

    constructor ()
      ensures Valid() && names == [] && ids == map[]
    {
      names := [];
      ids := map[];
    }

    method Intern(name: string) returns (r: Result<nat, WorldError>)
      requires Valid()
      modifies this
      ensures Valid() && (r.Ok? <==> InternedAt(old(names), 0, name).Ok?)
      ensures names == if r.Ok? then InternedAt(old(names), 0, name).value else old(names)
      ensures r.Ok? ==> 1 <= r.value <= |names| && names[r.value - 1] == name
    {
      if name == "" {
        return Err(EmptyName);
      }
      if name in ids {
        assert name in names;
        return Ok(ids[name]);
      }
      assert name !in names;
      names := names + [name];
      ids := ids[name := |names|];
      r := Ok(|names|);
    }

    method InternAt(symbol: nat, name: string) returns (r: Result<nat, WorldError>)
      requires Valid()
      modifies this
      ensures r.Ok? <==> InternedAt(old(names), symbol, name).Ok?
      ensures r.Ok? ==> Valid() && names == InternedAt(old(names), symbol, name).value
      ensures r.Ok? ==> 1 <= r.value <= |names| && names[r.value - 1] == name
    {
      hide Inverse;
      if name == "" {
        return Err(EmptyName);
      }
      if symbol == 0 {
        r := Intern(name);
        return;
      }
      InverseKnows(names, ids, name);
      if name in ids {
        if ids[name] != symbol {
          return Err(NameTaken);
        }
        return Ok(symbol);
      }
      ghost var was, map' := names, ids;
      names := Resized(names, symbol);
      if names[symbol - 1] != "" && names[symbol - 1] != name {
        return Err(SymbolTaken);
      }
      InverseGrows(was, map', symbol, symbol, name);
      names := names[symbol - 1 := name];
      ids := ids[name := symbol];
      r := Ok(symbol);
    }

    // The name of a symbol, when it has a slot.
    method Name(symbol: nat) returns (r: Result<string, WorldError>)
      ensures r == if 1 <= symbol <= |names| then Ok(names[symbol - 1]) else Err(UnknownSymbol)
    {
      if symbol == 0 || symbol > |names| {
        return Err(UnknownSymbol);
      }
      r := Ok(names[symbol - 1]);
    }

    // The slots of a table, up to its largest symbol.
    method RestoreNames(table: map<nat, string>)
      requires SymbolsOk(table)
      modifies this
      ensures Valid() && Restored(names, table, {})
      ensures forall k :: k in table ==> k <= |names|
      ensures |names| == 0 || |names| in table
    {
      hide Inverse, Restored;
      var max: nat := 0;
      var keys := table.Keys;
      while keys != {}
        invariant keys <= table.Keys && (forall k :: k in table && k !in keys ==> k <= max) &&
                  (max == 0 || max in table)
        decreases keys
        modifies {}
      {
        var k :| k in keys;
        max := Max(max, k);
        keys := keys - {k};
      }
      names := Resized([], max);
      ids := map[];
      RestoreNone(names, table);
      keys := table.Keys;
      while keys != {}
        invariant |names| == max && keys <= table.Keys && Inverse(names, ids) && Restored(names, table, keys)
        decreases keys
      {
        var k :| k in keys;
        RestoreOne(names, ids, table, keys, k);
        names := names[k - 1 := table[k]];
        ids := ids[table[k] := k];
        keys := keys - {k};
      }
    }
  }

  lemma RestoreNone(names: seq<string>, table: map<nat, string>)
    requires forall i :: 0 <= i < |names| ==> names[i] == ""
    ensures Inverse(names, map[]) && Restored(names, table, table.Keys)
  {
  }

  // An intern the overlay and the registries treat alike: it carries no symbol, the one
  // the name has, or for a new name at most the next free one.
  ghost predicate RegularIntern(table: map<nat, string>, symbol: nat, name: string) {
    name == "" || symbol == 0 ||
    if name in table.Values then symbol in table && table[symbol] == name else symbol <= NextSymbol(table)
  }

  // Both refuse, or both accept with the same table.
  ghost predicate SameIntern(names: seq<string>, symbol: nat, name: string) {
    match (InternedAt(names, symbol, name), InternName(Table(names), name, symbol))
    case (Ok(slots), Ok(table)) => Table(slots) == table
    case (Err(_), Err(_)) => true
    case _ => false
  }

  lemma NextDense(names: seq<string>)
    ensures NextSymbol(Table(names)) == |names| + 1
  {
    var table := Table(names);
    assert names != [] ==> |names| in table;
    assert forall k :: k in table ==> k <= |names|;
  }

  lemma TableHas(names: seq<string>, name: string)
    ensures name in Table(names).Values <==> name in names
  {
    if name in names {
      var i :| 0 <= i < |names| && names[i] == name;
      assert i + 1 in Table(names) && Table(names)[i + 1] == name;
    }
  }

  lemma ResizedOne(names: seq<string>, name: string)
    ensures Resized(names, |names| + 1)[|names| := name] == names + [name]
    ensures Table(names + [name]) == Table(names)[|names| + 1 := name]
  {
  }

  // A new name at a later symbol leaves a gap in the slots that the table does not have.
  lemma GapDiffers(names: seq<string>, symbol: nat, name: string)
    requires symbol > |names| + 1
    ensures Table(Resized(names, symbol)[symbol - 1 := name]) != Table(names)[symbol := name]
  {
    assert |names| + 1 in Table(Resized(names, symbol)[symbol - 1 := name]) &&
           |names| + 1 !in Table(names)[symbol := name];
  }

  lemma TakenSlot(names: seq<string>, symbol: nat, name: string)
    requires Full(names) && 1 <= symbol <= |names| && name !in names
    ensures Resized(names, symbol)[symbol - 1] != "" && symbol in Table(names) && Table(names)[symbol] != name
  {
  }

  lemma KnownSlot(names: seq<string>, symbol: nat, name: string)
    ensures symbol in Table(names) && Table(names)[symbol] == name <==>
            1 <= symbol <= |names| && names[symbol - 1] == name
    ensures symbol in Table(names) <==> 1 <= symbol <= |names|
  {
  }

  // The registries and the overlay intern alike exactly when the intern is regular.
  lemma InternAgrees(names: seq<string>, symbol: nat, name: string)
    requires Full(names)
    ensures SameIntern(names, symbol, name) <==> RegularIntern(Table(names), symbol, name)
  {
    hide Full, Table, NextSymbol;
    NextDense(names);
    TableHas(names, name);
    KnownSlot(names, symbol, name);
    KnownSlot(names, |names| + 1, name);
    if name != "" && name !in names {
      if symbol == 0 || symbol == |names| + 1 {
        ResizedOne(names, name);
      } else if symbol > |names| + 1 {
        GapDiffers(names, symbol, name);
      } else {
        TakenSlot(names, symbol, name);
      }
    }
  }

  // A new name interned two symbols ahead is accepted by both, with different tables.
  lemma AheadDiffers()
    ensures Full(["a"]) && InternedAt(["a"], 3, "b").Ok? && InternName(Table(["a"]), "b", 3).Ok?
    ensures !SameIntern(["a"], 3, "b")
  {
    TableHas(["a"], "b");
    KnownSlot(["a"], 3, "b");
    NextDense(["a"]);
    InternAgrees(["a"], 3, "b");
  }

  // A regular intern leaves the slots full.
  lemma InternFull(names: seq<string>, symbol: nat, name: string)
    requires Full(names) && RegularIntern(Table(names), symbol, name) && InternedAt(names, symbol, name).Ok?
    ensures Full(InternedAt(names, symbol, name).value)
  {
    NextDense(names);
    TableHas(names, name);
    if name !in names && symbol == |names| + 1 {
      assert Resized(names, symbol)[symbol - 1 := name] == names + [name];
    }
  }

  lemma TableOk(names: seq<string>)
    requires Full(names)
    ensures SymbolsOk(Table(names))
    ensures forall k: nat :: HasSymbol(Table(names), k) <==> 1 <= k <= |names|
  {
  }
}
