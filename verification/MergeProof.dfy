// merge_sequential preserves meaning, and says no only when it has to.

module MergeProof {
  import opened Wrappers
  import opened Model
  import opened Overlay
  import opened Invariants
  import opened SequentialMerge
  import opened EpochView
  import opened CompressProof
  import opened RenameProof

  // ---- asserting facts changes no state, so those operations can be set aside

  function NoFacts(delta: Delta): Delta {
    if delta == [] then []
    else (if delta[0].AssertFact? then [] else [delta[0]]) + NoFacts(delta[1..])
  }

  lemma {:induction false} NoFactsFree(delta: Delta)
    ensures FactFree(NoFacts(delta))
    ensures CreatedTemps(NoFacts(delta)) == CreatedTemps(delta)
  {
    if delta != [] {
      NoFactsFree(delta[1..]);
      var op, rest := delta[0], NoFacts(delta[1..]);
      if op.AssertFact? {
        assert [] + rest == rest;
        assert [] + CreatedTemps(delta[1..]) == CreatedTemps(delta[1..]);
      } else {
        assert ([op] + rest)[1..] == rest;
      }
    }
  }

  lemma {:induction false} RunNoFacts(st: State, ops: Delta)
    requires Run(st, ops).Ok?
    ensures Run(st, NoFacts(ops)) == Run(st, ops)
    decreases |ops|
  {
    if ops != [] {
      var op, rest := ops[0], NoFacts(ops[1..]);
      RunNoFacts(Step(st, op).value, ops[1..]);
      if op.AssertFact? {
        assert [] + rest == rest;
      } else {
        assert ([op] + rest)[1..] == rest;
      }
    }
  }

  lemma {:induction false} NoFactsAppend(a: Delta, b: Delta)
    ensures NoFacts(a + b) == NoFacts(a) + NoFacts(b)
  {
    if a == [] {
      assert a + b == b;
    } else {
      assert (a + b)[1..] == a[1..] + b;
      NoFactsAppend(a[1..], b);
    }
  }

  lemma {:induction false} NoFactsNormalize(n: Names, delta: Delta)
    requires Normalize(n, delta).Ok?
    ensures Normalize(n, NoFacts(delta)) == Ok(NoFacts(Normalize(n, delta).value))
  {
    if delta != [] {
      var op, rest := delta[0], NoFacts(delta[1..]);
      NoFactsNormalize(n, delta[1..]);
      var op', rest' := NormalizeOp(n, op).value, Normalize(n, delta[1..]).value;
      assert ([op'] + rest')[1..] == rest';
      if op.AssertFact? {
        assert [] + rest == rest && [] + NoFacts(rest') == NoFacts(rest');
      } else {
        assert ([op] + rest)[1..] == rest;
      }
    }
  }

  lemma OverwrittenCons(op: Op, next: Op, rest: Delta)
    requires op.SetObjectType?
    ensures Overwritten(op, [next] + rest) <==> TypeUpdateOf(next, KeyOf(op.target)) || Overwritten(op, rest)
  {
    var all := [next] + rest;
    assert forall j :: 0 <= j < |rest| ==> all[j + 1] == rest[j];
    if TypeUpdateOf(next, KeyOf(op.target)) {
      assert all[0] == next;
    }
  }

  lemma {:induction false} NoFactsOverwritten(op: Op, rest: Delta)
    ensures Overwritten(op, NoFacts(rest)) <==> Overwritten(op, rest)
  {
    if op.SetObjectType? && rest != [] {
      var tail := NoFacts(rest[1..]);
      NoFactsOverwritten(op, rest[1..]);
      assert rest == [rest[0]] + rest[1..];
      OverwrittenCons(op, rest[0], rest[1..]);
      OverwrittenCons(op, rest[0], tail);
      assert [] + tail == tail;
    }
  }

  lemma {:induction false} NoFactsCompress(delta: Delta)
    ensures NoFacts(Compress(delta)) == Compress(NoFacts(delta))
  {
    if delta != [] {
      var op, rest := delta[0], delta[1..];
      NoFactsCompress(rest);
      NoFactsOverwritten(op, rest);
      assert ([op] + Compress(rest))[1..] == Compress(rest);
      if op.AssertFact? {
        assert NoFacts(delta) == NoFacts(rest);
        assert [] + NoFacts(Compress(rest)) == NoFacts(Compress(rest));
      } else {
        assert ([op] + NoFacts(rest))[1..] == NoFacts(rest);
      }
    }
  }

  // ---- two accepted deltas, fused

  lemma NamesCorrespond(base: Snapshot, first: Delta, second: Delta, mid: Snapshot)
    requires WellFormed(base) && Apply(base, first) == Ok(mid) && Apply(mid, second).Ok?
    ensures var temps1, temps2 := CreatedTemps(first), CreatedTemps(second);
            var r := Remap(temps2, TempSet(temps1), Max(TempAbove(temps1), TempAbove(temps2)), map[]);
            r.Ok? && r.value.Keys == TempSet(temps2) &&
            var n := NamesFor(base, first, r.value);
            Corresponds(n, map[], Run(Start(base), first).value.temps) &&
            KnownIds(n) == IdSet(mid.objects) && forall id :: id in n.synthetic ==> n.synthetic[id] in n.firstTemps
  {
    hide Step, Run;
    var temps1, temps2 := CreatedTemps(first), CreatedTemps(second);
    var low := Max(TempAbove(temps1), TempAbove(temps2));
    TempAboveAll(temps1);
    TempAboveAll(temps2);
    CreatedFresh(Start(mid), second);
    RemapWorks(temps2, TempSet(temps1), low, low, map[]);
    StartKeeps(base);
    RunCreates(Start(base), first);
    var after := Run(Start(base), first).value;
    assert after.temps.Keys == TempSet(temps1);
    RecountIds(after.snap);
  }

  lemma RecountIds(s: Snapshot)
    ensures IdSet(Recount(s).objects) == IdSet(s.objects)
  {
    ExtendsIds(s.objects, Recount(s).objects);
    ExtendsIds(Recount(s).objects, s.objects);
  }

  lemma ViewOfRecount(s: Snapshot, k: nat)
    requires s.epoch == k
    ensures View(Start(Recount(s)).snap, k) == View(s, k)
  {
    assert BareAll(Recount(s).objects) == BareAll(s.objects);
  }

  lemma FuseRuns(base: Snapshot, first: Delta, second: Delta, mid: Snapshot)
    requires WellFormed(base) && FactFree(first) && FactFree(second)
    requires Apply(base, first) == Ok(mid) && Apply(mid, second).Ok?
    ensures Fuse(base, first, second).Ok? <==> AllKnown(second, IdSet(mid.objects))
    ensures Fuse(base, first, second).Ok? ==>
            Run(Start(base), Fuse(base, first, second).value).Ok? &&
            View(Run(Start(base), Fuse(base, first, second).value).value.snap, base.epoch + 1) ==
            View(Run(Start(mid), second).value.snap, base.epoch + 1)
  {
    hide Step, StateOk;
    var k := base.epoch + 1;
    var temps1, temps2 := CreatedTemps(first), CreatedTemps(second);
    NamesCorrespond(base, first, second, mid);
    var remap := Remap(temps2, TempSet(temps1), Max(TempAbove(temps1), TempAbove(temps2)), map[]).value;
    var n := NamesFor(base, first, remap);
    var a1 := Run(Start(base), first).value;
    ViewRun(Start(base), first, k);
    ViewRun(Start(mid), second, k);
    ViewOfRecount(a1.snap, k);
    var v := View(a1.snap, k);
    BareSame(a1.snap.objects);
    RecountIds(a1.snap);
    RunNormalized(n, v, map[], a1.temps, second);
    if Normalize(n, second).Ok? {
      var renamed := Normalize(n, second).value;
      assert FactFree(first + renamed);
      RunAppend(ViewState(Start(base), k), first, renamed);
      ViewRun(Start(base), first + renamed, k);
      StartKeeps(base);
      CompressRun(Start(base), first + renamed);
    }
  }

  // ---- the theorems

  lemma FuseFactFree(base: Snapshot, first: Delta, second: Delta, mid: Snapshot)
    requires WellFormed(base) && FactFree(first) && FactFree(second)
    requires Apply(base, first) == Ok(mid) && Apply(mid, second).Ok? && Fuse(base, first, second).Ok?
    ensures Apply(base, Fuse(base, first, second).value) == ClampResult(Apply(mid, second), base.epoch + 1)
  {
    hide Step, Run;
    var k, fused := base.epoch + 1, Fuse(base, first, second).value;
    FuseRuns(base, first, second, mid);
    var a, b := Run(Start(base), fused).value.snap, Run(Start(mid), second).value.snap;
    StartKeeps(base);
    RunKeeps(Start(base), fused);
    ApplyKeeps(base, first);
    StartKeeps(mid);
    RunKeeps(Start(mid), second);
    WellFormedTimely(a);
    WellFormedTimely(b);
    RecountView(a, k);
    RecountView(b, k);
    RecountKeeps(a);
    WellFormedTimely(Recount(a));
    ClampIdle(Recount(a));
  }

  // Soundness: the merged delta does in one step what the two did in two, object and
  // pointer ids, symbols, attributes and counts included; only the second epoch is lost.
  lemma MergeSound(base: Snapshot, first: Delta, second: Delta)
    requires WellFormed(base) && MergeSequential(base, first, second).Ok?
    ensures var mid := Apply(base, first).value;
            Apply(base, MergeSequential(base, first, second).value) ==
            ClampResult(Apply(mid, second), base.epoch + 1)
  {
    hide Step;
    var mid, fused := Apply(base, first).value, Fuse(base, first, second).value;
    var first', second' := NoFacts(first), NoFacts(second);
    NoFactsFree(first);
    NoFactsFree(second);
    RunNoFacts(Start(base), first);
    RunNoFacts(Start(mid), second);
    RunNoFacts(Start(base), fused);
    var temps1, temps2 := CreatedTemps(first), CreatedTemps(second);
    var remap := Remap(temps2, TempSet(temps1), Max(TempAbove(temps1), TempAbove(temps2)), map[]).value;
    var n := NamesFor(base, first, remap);
    NoFactsNormalize(n, second);
    var renamed := Normalize(n, second).value;
    NoFactsAppend(first, renamed);
    NoFactsCompress(first + renamed);
    FuseFactFree(base, first', second', mid);
  }

  // Completeness: for deltas that assert no facts, the merge succeeds exactly when both
  // steps are accepted, neither delta retypes an object inconsistently, and the second
  // names by id only objects that were there before it.
  lemma MergeComplete(base: Snapshot, first: Delta, second: Delta)
    requires WellFormed(base) && FactFree(first) && FactFree(second)
    ensures MergeSequential(base, first, second).Ok? <==>
            && !TypeConflict(first) && !TypeConflict(second)
            && Apply(base, first).Ok?
            && Apply(Apply(base, first).value, second).Ok?
            && AllKnown(second, IdSet(Apply(base, first).value.objects))
  {
    hide Step, Run;
    if Apply(base, first).Ok? && Apply(Apply(base, first).value, second).Ok? {
      FuseRuns(base, first, second, Apply(base, first).value);
    }
  }
}
