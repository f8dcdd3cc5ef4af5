// What a merged delta is made of: the operations of the first, then those of the second
// under other names, without the type updates a later one overwrites.

module MergeShape {
  import opened Wrappers
  import opened Model
  import opened Overlay
  import opened OpLists
  import opened Invariants
  import opened SequentialMerge
  import opened RenameProof
  import opened MergeProof
  import opened Effects

  // ---- one operation under other names

  // The temp ids a delta creates.
  function Temps(delta: Delta): set<nat> {
    set k | 0 <= k < |delta| && delta[k].CreateObject? :: delta[k].temp
  }

  // The temps of the second delta are renamed; an object made by the first is named by its
  // temp id again; anything else keeps its name.
  ghost predicate SameRef(base: Snapshot, first: Delta, rename: map<nat, nat>, ref: Ref, now: Ref) {
    match ref
    case ByTemp(t) => now == ByTemp(if t in rename then rename[t] else t)
    case ById(id) =>
      if Contains(base, id) then now == ref else now.ByTemp? && Made(base, first, now.temp) == Some(id)
  }

  ghost predicate SameOp(base: Snapshot, first: Delta, rename: map<nat, nat>, op: Op, now: Op) {
    match op
    case CreateObject(temp, name, typ, existence, attributes) =>
      temp in rename && now == CreateObject(rename[temp], name, typ, existence, attributes)
    case SetObjectType(target, typ) =>
      now.SetObjectType? && now.typ == typ && SameRef(base, first, rename, target, now.target)
    case SetObjectExistence(target, existence) =>
      now.SetObjectExistence? && now.existence == existence && SameRef(base, first, rename, target, now.target)
    case SetObjectAttribute(target, attribute) =>
      now.SetObjectAttribute? && now.attribute == attribute && SameRef(base, first, rename, target, now.target)
    case RemoveObjectAttribute(target, key) =>
      now.RemoveObjectAttribute? && now.key == key && SameRef(base, first, rename, target, now.target)
    case AssertObject(target) => now.AssertObject? && SameRef(base, first, rename, target, now.target)
    case CreatePointer(from, to, relation, role, weight, lawDomain, attributes) =>
      && now.CreatePointer? && now == CreatePointer(now.from, now.to, relation, role, weight, lawDomain, attributes)
      && SameRef(base, first, rename, from, now.from) && SameRef(base, first, rename, to, now.to)
    case _ => now == op
  }

  // Temps of the second delta that the first has too become new ones, above all others.
  ghost predicate Renames(rename: map<nat, nat>, first: Delta, second: Delta) {
    && rename.Keys == Temps(second)
    && (forall t, u :: t in rename && u in rename && rename[t] == rename[u] ==> t == u)
    && (forall t :: t in rename && t !in Temps(first) ==> rename[t] == t)
    && (forall t, u :: t in rename && t in Temps(first) && u in Temps(first) + Temps(second) ==> u < rename[t])
  }

  ghost predicate Joined(base: Snapshot, first: Delta, second: Delta, rename: map<nat, nat>, all: Delta) {
    && Renames(rename, first, second)
    && |all| == |first| + |second|
    && (forall k :: 0 <= k < |first| ==> all[k] == first[k])
    && (forall k :: 0 <= k < |second| ==> SameOp(base, first, rename, second[k], all[|first| + k]))
  }

  // A later operation sets the type of the same reference.
  ghost predicate Superseded(all: Delta, k: nat)
    requires k < |all|
  {
    all[k].SetObjectType? &&
      exists j :: k < j < |all| && all[j].SetObjectType? && all[j].target == all[k].target
  }

  // What is left, in order, is exactly what is not superseded.
  ghost predicate KeepsLatest(all: Delta, kept: seq<nat>, merged: Delta) {
    && |kept| == |merged|
    && (forall i :: 0 <= i < |kept| ==> kept[i] < |all| && merged[i] == all[kept[i]])
    && (forall i, j :: 0 <= i < j < |kept| ==> kept[i] < kept[j])
    && (forall k :: 0 <= k < |all| ==> (k in kept <==> !Superseded(all, k)))
  }

  // ---- the renaming

  lemma {:induction false} CreatedAre(delta: Delta)
    ensures TempSet(CreatedTemps(delta)) == Temps(delta)
  {
    if delta != [] {
      var rest := delta[1..];
      CreatedAre(rest);
      assert delta == [delta[0]] + rest;
      var head := if delta[0].CreateObject? then {delta[0].temp} else {};
      assert Temps(delta) == head + Temps(rest) by {
        forall t | t in Temps(rest) ensures t in Temps(delta) {
          var k :| 0 <= k < |rest| && rest[k].CreateObject? && rest[k].temp == t;
          assert delta[k + 1].temp == t;
        }
        if delta[0].CreateObject? {
          assert delta[0].temp in Temps(delta);
        }
      }
      assert TempSet(CreatedTemps(delta)) == head + TempSet(CreatedTemps(rest));
    }
  }

  lemma {:induction false} RemapGives(temps: seq<nat>, firstTemps: set<nat>, next: nat, acc: map<nat, nat>)
    requires Remap(temps, firstTemps, next, acc).Ok?
    ensures var r := Remap(temps, firstTemps, next, acc).value;
            && (forall t :: t in acc ==> t in r && r[t] == acc[t])
            && (forall t :: t in r && t !in acc ==> if t in firstTemps then r[t] >= next else r[t] == t)
    decreases |temps|
  {
    if temps != [] {
      if temps[0] in firstTemps {
        RemapGives(temps[1..], firstTemps, next + 1, acc[temps[0] := next]);
      } else {
        RemapGives(temps[1..], firstTemps, next, acc[temps[0] := temps[0]]);
      }
    }
  }

  lemma RemapRenames(first: Delta, second: Delta)
    requires var temps1, temps2 := CreatedTemps(first), CreatedTemps(second);
             var r := Remap(temps2, TempSet(temps1), Max(TempAbove(temps1), TempAbove(temps2)), map[]);
             r.Ok? && r.value.Keys == TempSet(temps2) && RemapOk(r.value, TempSet(temps1))
    ensures var temps1, temps2 := CreatedTemps(first), CreatedTemps(second);
            var r := Remap(temps2, TempSet(temps1), Max(TempAbove(temps1), TempAbove(temps2)), map[]);
            Renames(r.value, first, second)
  {
    var temps1, temps2 := CreatedTemps(first), CreatedTemps(second);
    var next := Max(TempAbove(temps1), TempAbove(temps2));
    RemapGives(temps2, TempSet(temps1), next, map[]);
    CreatedAre(first);
    CreatedAre(second);
    TempAboveAll(temps1);
    TempAboveAll(temps2);
    forall u | u in Temps(first) + Temps(second) ensures u < next {
      assert u in TempSet(temps1) || u in TempSet(temps2);
    }
  }

  // ---- the rewriting

  lemma RefRewritten(base: Snapshot, first: Delta, n: Names, ref: Ref)
    requires n == NamesFor(base, first, n.remap) && NormalizeRef(n, ref).Some?
    requires forall id :: id in n.synthetic ==> Made(base, first, n.synthetic[id]) == Some(id)
    ensures SameRef(base, first, n.remap, ref, NormalizeRef(n, ref).value)
  {
  }

  lemma OpRewritten(base: Snapshot, first: Delta, n: Names, op: Op)
    requires n == NamesFor(base, first, n.remap) && NormalizeOp(n, op).Ok?
    requires forall id :: id in n.synthetic ==> Made(base, first, n.synthetic[id]) == Some(id)
    ensures SameOp(base, first, n.remap, op, NormalizeOp(n, op).value)
  {
    hide NormalizeRef, SameRef, NamesFor, Made;
    if ObjectOp(op) {
      RefRewritten(base, first, n, op.target);
    } else if op.CreatePointer? {
      RefRewritten(base, first, n, op.from);
      RefRewritten(base, first, n, op.to);
    }
  }

  lemma {:induction false} AllRewritten(base: Snapshot, first: Delta, n: Names, ops: Delta)
    requires n == NamesFor(base, first, n.remap) && Normalize(n, ops).Ok?
    requires forall id :: id in n.synthetic ==> Made(base, first, n.synthetic[id]) == Some(id)
    ensures var renamed := Normalize(n, ops).value;
            |renamed| == |ops| &&
            forall k :: 0 <= k < |ops| ==> SameOp(base, first, n.remap, ops[k], renamed[k])
    decreases |ops|
  {
    hide SameOp, NormalizeOp, NamesFor, Made;
    if ops != [] {
      OpRewritten(base, first, n, ops[0]);
      AllRewritten(base, first, n, ops[1..]);
      var renamed, rest := Normalize(n, ops).value, Normalize(n, ops[1..]).value;
      forall k | 0 <= k < |ops| ensures SameOp(base, first, n.remap, ops[k], renamed[k]) {
        if k > 0 {
          assert ops[k] == ops[1..][k - 1] && renamed[k] == rest[k - 1];
        }
      }
    }
  }

  // ---- the operations left out

  // The reference is one of those that can name an object: no two of them print alike.
  predicate Proper(ref: Ref) {
    if ref.ById? then ref.id.generation != 0 else ref.temp != 0
  }

  ghost predicate ProperTypes(delta: Delta) {
    forall k :: 0 <= k < |delta| && delta[k].SetObjectType? ==> Proper(delta[k].target)
  }

  lemma {:induction false} ProperRun(st: State, ops: Delta)
    requires StateOk(st) && Run(st, ops).Ok?
    ensures ProperTypes(ops)
    decreases |ops|
  {
    hide StateOk, Step;
    if ops != [] {
      var op, rest := ops[0], ops[1..];
      StepKeeps(st, op);
      ProperRun(Step(st, op).value, rest);
      ProperStep(st, op);
      forall k | 0 <= k < |ops| && ops[k].SetObjectType? ensures Proper(ops[k].target) {
        if k > 0 {
          assert ops[k] == rest[k - 1];
        }
      }
    }
  }

  lemma ProperStep(st: State, op: Op)
    requires StateOk(st) && Step(st, op).Ok?
    ensures op.SetObjectType? ==> Proper(op.target)
  {
    hide PointersOk;
    if op.SetObjectType? {
      var i := FindObject(st.snap.objects, Resolve(st, op.target).value).value;
      assert st.snap.objects[i].id.generation != 0;
    }
  }

  lemma SupersededIs(delta: Delta, k: nat)
    requires ProperTypes(delta) && k < |delta|
    ensures Overwritten(delta[k], delta[k + 1..]) <==> Superseded(delta, k)
  {
    var rest := delta[k + 1..];
    assert forall j :: 0 <= j < |rest| ==> rest[j] == delta[k + 1 + j];
    if Superseded(delta, k) {
      var j :| k < j < |delta| && delta[j].SetObjectType? && delta[j].target == delta[k].target;
      assert TypeUpdateOf(rest[j - k - 1], KeyOf(delta[k].target));
    }
  }

  lemma SupersededTail(delta: Delta, k: nat)
    requires 0 < k < |delta|
    ensures Superseded(delta, k) <==> Superseded(delta[1..], k - 1)
  {
    var rest := delta[1..];
    assert forall j :: 0 <= j < |rest| ==> rest[j] == delta[j + 1];
    if Superseded(delta, k) {
      var j :| k < j < |delta| && delta[j].SetObjectType? && delta[j].target == delta[k].target;
      assert rest[j - 1].target == rest[k - 1].target;
    }
  }

  // The kept positions of a delta from those of its tail.
  function Lift(kept: seq<nat>, first: bool): seq<nat> {
    (if first then [0] else []) + seq(|kept|, i requires 0 <= i < |kept| => kept[i] + 1)
  }

  lemma LiftHas(kept: seq<nat>, first: bool, k: nat)
    ensures k in Lift(kept, first) <==> if k == 0 then first else k - 1 in kept
  {
    var lifted := Lift(kept, first);
    var d := if first then 1 else 0;
    if k > 0 && k - 1 in kept {
      var i :| 0 <= i < |kept| && kept[i] == k - 1;
      assert lifted[d + i] == k;
    }
    if k > 0 && k in lifted {
      var i :| 0 <= i < |lifted| && lifted[i] == k;
      assert kept[i - d] == k - 1;
    }
    if k == 0 && first {
      assert lifted[0] == 0;
    }
  }

  lemma KeepsCons(delta: Delta, kept: seq<nat>, merged: Delta)
    requires delta != [] && KeepsLatest(delta[1..], kept, merged)
    ensures var first := !Superseded(delta, 0);
            KeepsLatest(delta, Lift(kept, first), (if first then [delta[0]] else []) + merged)
  {
    hide Superseded;
    var first := !Superseded(delta, 0);
    var lifted, merged' := Lift(kept, first), (if first then [delta[0]] else []) + merged;
    forall k | 0 <= k < |delta| ensures k in lifted <==> !Superseded(delta, k) {
      LiftHas(kept, first, k);
      if k > 0 {
        SupersededTail(delta, k);
      }
    }
    var d := if first then 1 else 0;
    forall i | 0 <= i < |lifted| ensures lifted[i] < |delta| && merged'[i] == delta[lifted[i]] {
      if i >= d {
        assert lifted[i] == kept[i - d] + 1 && merged'[i] == merged[i - d];
      }
    }
    forall i, j | 0 <= i < j < |lifted| ensures lifted[i] < lifted[j] {
      assert lifted[j] == kept[j - d] + 1;
      if i >= d {
        assert lifted[i] == kept[i - d] + 1;
      }
    }
  }

  lemma {:induction false} CompressKeeps(delta: Delta) returns (kept: seq<nat>)
    requires ProperTypes(delta)
    ensures KeepsLatest(delta, kept, Compress(delta))
  {
    hide Overwritten, KeepsLatest, Superseded;
    if delta == [] {
      kept := [];
      KeepsNone();
    } else {
      assert forall k :: 0 <= k < |delta[1..]| ==> delta[1..][k] == delta[k + 1];
      var below := CompressKeeps(delta[1..]);
      SupersededIs(delta, 0);
      KeepsCons(delta, below, Compress(delta[1..]));
      kept := Lift(below, !Superseded(delta, 0));
      assert [] + Compress(delta[1..]) == Compress(delta[1..]);
    }
  }

  lemma KeepsNone()
    ensures KeepsLatest([], [], [])
  {
  }

  // ---- the references of the second delta stay proper

  ghost predicate ProperNames(base: Snapshot, n: Names) {
    && n.baseIds == IdSet(base.objects)
    && (forall t :: t in n.remap ==> n.remap[t] != 0)
    && (forall id :: id in n.synthetic ==> n.synthetic[id] != 0)
  }

  lemma RefProper(base: Snapshot, n: Names, ref: Ref)
    requires WellFormed(base) && ProperNames(base, n) && NormalizeRef(n, ref).Some?
    ensures Proper(NormalizeRef(n, ref).value)
  {
    hide PointersOk;
  }

  lemma {:induction false} AllProper(base: Snapshot, n: Names, ops: Delta)
    requires WellFormed(base) && ProperNames(base, n) && Normalize(n, ops).Ok?
    ensures ProperTypes(Normalize(n, ops).value)
    decreases |ops|
  {
    hide WellFormed, ProperNames, NormalizeRef, Proper;
    if ops != [] {
      AllProper(base, n, ops[1..]);
      if ops[0].SetObjectType? {
        RefProper(base, n, ops[0].target);
      }
      var renamed, rest := Normalize(n, ops).value, Normalize(n, ops[1..]).value;
      forall k | 0 <= k < |renamed| && renamed[k].SetObjectType? ensures Proper(renamed[k].target) {
        if k > 0 {
          assert renamed[k] == rest[k - 1];
        }
      }
    }
  }

  // ---- the theorem

  // The first delta makes the objects its temp ids are numbered for.
  lemma NamesMade(base: Snapshot, first: Delta, n: Names)
    requires WellFormed(base) && Apply(base, first).Ok?
    requires n == NamesFor(base, first, n.remap) && RemapOk(n.remap, n.firstTemps)
    ensures ProperNames(base, n) && forall id :: id in n.synthetic ==> Made(base, first, n.synthetic[id]) == Some(id)
  {
    hide Step, Run;
    StartKeeps(base);
    RunCreates(Start(base), first);
    RunTracks(base, first);
  }

  lemma FirstProper(base: Snapshot, first: Delta)
    requires WellFormed(base) && Apply(base, first).Ok?
    ensures ProperTypes(first)
  {
    hide Run, StateOk, ProperTypes;
    StartKeeps(base);
    ProperRun(Start(base), first);
  }

  lemma ProperAppend(a: Delta, b: Delta)
    requires ProperTypes(a) && ProperTypes(b)
    ensures ProperTypes(a + b)
  {
    hide Proper;
  }

  lemma ApplyFirst(base: Snapshot, first: Delta, second: Delta) returns (mid: Snapshot)
    requires MergeSequential(base, first, second).Ok?
    ensures Apply(base, first) == Ok(mid) && Apply(mid, second).Ok?
    ensures Fuse(base, first, second) == MergeSequential(base, first, second)
  {
    hide Apply, Fuse;
    mid := Apply(base, first).value;
  }

  lemma RemapFound(base: Snapshot, first: Delta, second: Delta, mid: Snapshot) returns (n: Names)
    requires WellFormed(base) && Apply(base, first) == Ok(mid) && Apply(mid, second).Ok?
    requires Fuse(base, first, second).Ok?
    ensures n == NamesFor(base, first, n.remap) && Renames(n.remap, first, second) && RemapOk(n.remap, n.firstTemps)
    ensures Normalize(n, second).Ok?
    ensures Fuse(base, first, second) == Ok(Compress(first + Normalize(n, second).value))
  {
    hide Apply, Run, Renames, Normalize, Compress;
    var temps1, temps2 := CreatedTemps(first), CreatedTemps(second);
    NamesCorrespond(base, first, second, mid);
    var remap := Remap(temps2, TempSet(temps1), Max(TempAbove(temps1), TempAbove(temps2)), map[]).value;
    n := NamesFor(base, first, remap);
    RemapRenames(first, second);
  }

  // A merge that succeeds gives the operations of the first delta followed by those of the
  // second under their new names, less the type updates superseded among them.
  lemma Shape(base: Snapshot, first: Delta, second: Delta) returns (rename: map<nat, nat>, all: Delta, kept: seq<nat>)
    requires WellFormed(base) && MergeSequential(base, first, second).Ok?
    ensures Joined(base, first, second, rename, all)
    ensures KeepsLatest(all, kept, MergeSequential(base, first, second).value)
  {
    hide Run, Apply, NamesFor, Renames, SameOp, KeepsLatest, MergeSequential, Fuse, Normalize, Compress, RemapOk,
         WellFormed, ProperTypes, ProperNames;
    var mid := ApplyFirst(base, first, second);
    var n := RemapFound(base, first, second, mid);
    NamesMade(base, first, n);
    rename := n.remap;
    AllRewritten(base, first, n, second);
    all := first + Normalize(n, second).value;
    FirstProper(base, first);
    AllProper(base, n, second);
    ProperAppend(first, Normalize(n, second).value);
    kept := CompressKeeps(all);
  }

  // ---- lists of one kind

  lemma {:induction false} ThoseKept(delta: Delta, p: Op -> bool)
    requires forall op :: p(op) ==> !op.SetObjectType?
    ensures Those(Compress(delta), p) == Those(delta, p)
  {
    if delta != [] {
      var rest := delta[1..];
      ThoseKept(rest, p);
      if Overwritten(delta[0], rest) {
        assert [] + Those(rest, p) == Those(rest, p);
      } else {
        assert ([delta[0]] + Compress(rest))[1..] == Compress(rest);
      }
    }
  }

  lemma {:induction false} ThoseRenamed(base: Snapshot, first: Delta, rename: map<nat, nat>, ops: Delta,
                                        renamed: Delta, p: Op -> bool)
    requires |ops| == |renamed|
    requires forall k :: 0 <= k < |ops| ==> SameOp(base, first, rename, ops[k], renamed[k])
    requires forall op :: p(op) ==> !Referring(op)
    ensures Those(renamed, p) == Those(ops, p)
    decreases |ops|
  {
    hide SameRef;
    if ops != [] {
      forall k | 0 <= k < |ops[1..]| ensures SameOp(base, first, rename, ops[1..][k], renamed[1..][k]) {
        assert SameOp(base, first, rename, ops[k + 1], renamed[k + 1]);
      }
      ThoseRenamed(base, first, rename, ops[1..], renamed[1..], p);
      assert SameOp(base, first, rename, ops[0], renamed[0]);
      assert if Referring(ops[0]) then Referring(renamed[0]) else renamed[0] == ops[0];
    }
  }

  // Whatever kind of operation names no object: those of the merge are those of the first
  // delta followed by those of the second.
  lemma Lists(base: Snapshot, first: Delta, second: Delta, p: Op -> bool)
    requires WellFormed(base) && MergeSequential(base, first, second).Ok?
    requires forall op :: p(op) ==> !Referring(op)
    ensures Those(MergeSequential(base, first, second).value, p) == Those(first, p) + Those(second, p)
  {
    hide Run, Apply, NamesFor, Renames, SameOp, MergeSequential, Fuse, Normalize, Compress, RemapOk, WellFormed,
         ProperNames, Those;
    var mid := ApplyFirst(base, first, second);
    var n := RemapFound(base, first, second, mid);
    NamesMade(base, first, n);
    AllRewritten(base, first, n, second);
    var renamed := Normalize(n, second).value;
    ThoseKept(first + renamed, p);
    ThoseAppend(first, renamed, p);
    ThoseRenamed(base, first, n.remap, second, renamed, p);
  }

  // The events of the merge are those of the first delta and then those of the second; so
  // are the assertions of pointers and of facts.
  lemma EventsAndAssertions(base: Snapshot, first: Delta, second: Delta)
    requires WellFormed(base) && MergeSequential(base, first, second).Ok?
    ensures var merged := MergeSequential(base, first, second).value;
            && Those(merged, IsEvent) ==
               Those(first, IsEvent) + Those(second, IsEvent)
            && Those(merged, IsPointerAssertion) ==
               Those(first, IsPointerAssertion) + Those(second, IsPointerAssertion)
            && Those(merged, IsFactAssertion) ==
               Those(first, IsFactAssertion) + Those(second, IsFactAssertion)
  {
    hide Run, Apply, MergeSequential, WellFormed, Those;
    Lists(base, first, second, IsEvent);
    Lists(base, first, second, IsPointerAssertion);
    Lists(base, first, second, IsFactAssertion);
  }
}
