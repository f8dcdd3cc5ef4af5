// The laws of the category of morphisms.

module CategoryProof {
  import opened Wrappers
  import opened Model
  import opened Overlay
  import opened Invariants
  import opened SequentialMerge
  import opened EpochView
  import opened MergeProof
  import opened Morphisms
  import opened MorphismProof

  // A snapshot as it looks when its moment is called k.
  function Seen(s: Snapshot, k: nat): Snapshot {
    View(s, k).(epoch := k)
  }

  lemma SeenIdle(s: Snapshot, k: nat)
    requires Timely(s) && s.epoch == k
    ensures Recount(Seen(Recount(s), k)) == Recount(s)
  {
    assert View(Recount(s), k) == View(s, k) by {
      assert BareAll(Recount(s).objects) == BareAll(s.objects);
    }
    RecountView(s, k);
    assert Timely(Recount(s));
    ClampIdle(Recount(s));
  }

  lemma SeenLater(a: Snapshot, b: Snapshot, k: nat)
    requires Seen(a, k + 1) == Seen(b, k + 1)
    ensures Seen(a, k) == Seen(b, k)
  {
    SeenTwice(a, k);
    SeenTwice(b, k);
  }

  lemma SeenTwice(s: Snapshot, k: nat)
    ensures Seen(Seen(s, k + 1), k) == Seen(s, k)
  {
    assert BareAll(BareAll(s.objects)) == BareAll(s.objects);
    assert ClampPointers(ClampPointers(s.pointers, k + 1), k) == ClampPointers(s.pointers, k);
  }

  lemma SeenClamped(s: Snapshot, k: nat)
    ensures Seen(Clamp(s, k), k) == Seen(s, k)
  {
    assert ClampPointers(ClampPointers(s.pointers, k), k) == ClampPointers(s.pointers, k);
  }

  // ---- fact-free deltas act alike on snapshots that look alike

  lemma ApplySeen(a: Snapshot, b: Snapshot, delta: Delta, k: nat)
    requires k <= a.epoch + 1 && k <= b.epoch + 1 && Seen(a, k) == Seen(b, k) && FactFree(delta)
    requires Apply(a, delta).Ok?
    ensures Apply(b, delta).Ok? && Seen(Apply(a, delta).value, k) == Seen(Apply(b, delta).value, k)
  {
    hide Step;
    assert ViewState(Start(a), k) == State(Seen(a, k), map[]);
    assert ViewState(Start(b), k) == State(Seen(b, k), map[]);
    ViewRun(Start(a), delta, k);
    ViewRun(Start(b), delta, k);
    var x, y := Run(Start(a), delta).value.snap, Run(Start(b), delta).value.snap;
    assert BareAll(Recount(x).objects) == BareAll(x.objects);
    assert BareAll(Recount(y).objects) == BareAll(y.objects);
  }

  // ---- and a defined morphism makes the same delta from them

  lemma ActiveSeen(p: Pointer, epoch: nat, k: nat)
    requires TimesOk(p, epoch)
    ensures ActiveAt(ClampPointer(p, k), k) <==> ActiveAt(p, epoch)
  {
  }

  lemma {:induction false} ExpirationsSeen(pointers: seq<Pointer>, oid: ObjectId, relation: nat, epoch: nat, k: nat)
    requires forall i :: 0 <= i < |pointers| ==> TimesOk(pointers[i], epoch)
    ensures Expirations(ClampPointers(pointers, k), oid, relation, k) == Expirations(pointers, oid, relation, epoch)
  {
    if pointers != [] {
      var last := |pointers| - 1;
      assert ClampPointers(pointers, k)[..last] == ClampPointers(pointers[..last], k);
      ExpirationsSeen(pointers[..last], oid, relation, epoch, k);
      ActiveSeen(pointers[last], epoch, k);
    }
  }

  lemma {:induction false} FindNamedSeen(objects: seq<Object>, name: string)
    ensures FindNamed(BareAll(objects), name) == FindNamed(objects, name)
  {
    if objects != [] {
      assert BareAll(objects)[1..] == BareAll(objects[1..]);
      FindNamedSeen(objects[1..], name);
    }
  }

  lemma {:induction false} ActAllSeen(s: Snapshot, k: nat, d: Draft, o: Object, actions: seq<Action>)
    ensures ActAll(Seen(s, k), d, Bare(o), actions) == ActAll(s, d, o, actions)
  {
    if actions != [] {
      var last := |actions| - 1;
      ActAllSeen(s, k, d, o, actions[..last]);
      if actions[last].EmitAction? {
        FindNamedSeen(s.objects, actions[last].target);
      }
    }
  }

  lemma {:induction false} TransformedAllSeen(m: Morphism, s: Snapshot, k: nat, d: Draft, selection: seq<ObjectId>)
    requires m.Defined? && Timely(s)
    ensures TransformedAll(m, Seen(s, k), d, selection) == TransformedAll(m, s, d, selection)
  {
    if selection != [] {
      var last := |selection| - 1;
      TransformedAllSeen(m, s, k, d, selection[..last]);
      BareSame(s.objects);
      var at := FindObject(s.objects, selection[last]);
      assert FindObject(Seen(s, k).objects, selection[last]) == at;
      if Selected(m, s, selection[last]) {
        TransformedSeen(m, s, k, TransformedAll(m, s, d, selection[..last]), s.objects[at.value]);
      }
    }
  }

  lemma TransformedSeen(m: Morphism, s: Snapshot, k: nat, d: Draft, o: Object)
    requires m.Defined? && Timely(s)
    ensures Transformed(m, Seen(s, k), d, Bare(o)) == Transformed(m, s, d, o)
  {
    hide ActAll;
    var relation := "morphism." + m.name;
    var self := RelationIn(s, d, relation);
    ExpirationsSeen(s.pointers, o.id, self, s.epoch, k);
    var known := Interned(s, d, relation);
    var expired := known.(ops := known.ops + Expirations(s.pointers, o.id, self, s.epoch));
    var retyped := if m.signature.domain != m.signature.codomain
                   then Push(expired, SetObjectType(ById(o.id), m.signature.codomain)) else expired;
    ActAllSeen(s, k, Push(retyped, SelfLoop(o.id, self)), o, m.actions);
  }

  lemma DefinedSeen(m: Morphism, a: Snapshot, b: Snapshot, k: nat, selection: seq<ObjectId>)
    requires m.Defined? && Timely(a) && Timely(b) && Seen(a, k) == Seen(b, k)
    ensures DefinedDelta(m, a, selection) == DefinedDelta(m, b, selection)
  {
    assert EmptyDraft(a) == EmptyDraft(Seen(a, k)) == EmptyDraft(b);
    TransformedAllSeen(m, a, k, EmptyDraft(a), selection);
    TransformedAllSeen(m, b, k, EmptyDraft(b), selection);
  }

  // ---- the parts of a morphism, and running them one after another

  // The defined morphisms a composite is made of, in the order they act.
  function Parts(m: Morphism): seq<Morphism>
    ensures forall i :: 0 <= i < |Parts(m)| ==> Parts(m)[i].Defined?
  {
    match m
    case Identity(_) => []
    case Defined(_, _, _) => [m]
    case Composed(_, _, first, second) => Parts(first) + Parts(second)
  }

  // Each part applied to the snapshot the one before it left.
  ghost function InTurn(s: Snapshot, parts: seq<Morphism>, selection: seq<ObjectId>): Result<Snapshot, OverlayError>
    requires forall i :: 0 <= i < |parts| ==> parts[i].Defined?
    decreases |parts|
  {
    if parts == [] then Ok(s)
    else match Apply(s, DefinedDelta(parts[0], s, selection))
      case Err(e) => Err(e)
      case Ok(next) => InTurn(next, parts[1..], selection)
  }

  ghost predicate PartsOk(parts: seq<Morphism>, typeNames: map<nat, string>) {
    forall i :: 0 <= i < |parts| ==> parts[i].Defined? && MorphismOk(parts[i], typeNames)
  }

  lemma PartsTail(parts: seq<Morphism>, a: map<nat, string>, b: map<nat, string>)
    requires PartsOk(parts, a) && NamesExtend(a, b) && parts != []
    ensures PartsOk(parts[1..], b)
  {
    forall i | 0 <= i < |parts[1..]| ensures MorphismOk(parts[1..][i], b) {
      OkStays(parts[i + 1], a, b);
    }
  }

  // One part leaves a well-formed snapshot with the same objects.
  lemma PartKeeps(m: Morphism, s: Snapshot, selection: seq<ObjectId>)
    requires m.Defined? && WellFormed(s) && MorphismOk(m, s.typeNames)
    ensures var r := Apply(s, DefinedDelta(m, s, selection));
            r.Ok? && WellFormed(r.value) && Extends(s, r.value) && IdSet(r.value.objects) == IdSet(s.objects) &&
            r.value.epoch == s.epoch + 1
    ensures FactFree(DefinedDelta(m, s, selection))
  {
    hide WellFormed, DefinedDelta;
    var d := DefinedDelta(m, s, selection);
    DefinedAccepted(m, s, selection);
    ApplyKeeps(s, d);
    TameIds(s, d);
    TameBasics(d, IdSet(s.objects));
  }

  lemma {:induction false} InTurnKeeps(s: Snapshot, parts: seq<Morphism>, selection: seq<ObjectId>)
    requires WellFormed(s) && PartsOk(parts, s.typeNames)
    ensures var r := InTurn(s, parts, selection);
            r.Ok? && WellFormed(r.value) && Extends(s, r.value) && IdSet(r.value.objects) == IdSet(s.objects) &&
            r.value.epoch == s.epoch + |parts|
    decreases |parts|
  {
    hide WellFormed, DefinedDelta, Apply;
    if parts != [] {
      PartKeeps(parts[0], s, selection);
      var next := Apply(s, DefinedDelta(parts[0], s, selection)).value;
      PartsTail(parts, s.typeNames, next.typeNames);
      InTurnKeeps(next, parts[1..], selection);
      ExtendsTrans(s, next, InTurn(s, parts, selection).value);
    }
  }

  lemma {:induction false} InTurnAppend(s: Snapshot, a: seq<Morphism>, b: seq<Morphism>, selection: seq<ObjectId>)
    requires forall i :: 0 <= i < |a| ==> a[i].Defined?
    requires forall i :: 0 <= i < |b| ==> b[i].Defined?
    requires InTurn(s, a, selection).Ok?
    ensures InTurn(s, a + b, selection) == InTurn(InTurn(s, a, selection).value, b, selection)
    decreases |a|
  {
    hide DefinedDelta, Apply;
    if a == [] {
      assert a + b == b;
    } else {
      assert (a + b)[1..] == a[1..] + b;
      InTurnAppend(Apply(s, DefinedDelta(a[0], s, selection)).value, a[1..], b, selection);
    }
  }

  lemma {:induction false} InTurnSeen(a: Snapshot, b: Snapshot, parts: seq<Morphism>, selection: seq<ObjectId>, k: nat)
    requires WellFormed(a) && WellFormed(b) && PartsOk(parts, a.typeNames)
    requires Seen(a, k) == Seen(b, k) && k <= a.epoch + 1 && k <= b.epoch + 1
    ensures InTurn(a, parts, selection).Ok? && InTurn(b, parts, selection).Ok?
    ensures Seen(InTurn(a, parts, selection).value, k) == Seen(InTurn(b, parts, selection).value, k)
    decreases |parts|
  {
    hide WellFormed, DefinedDelta, Apply;
    if parts != [] {
      WellFormedTimely(a);
      WellFormedTimely(b);
      DefinedSeen(parts[0], a, b, k, selection);
      PartKeeps(parts[0], a, selection);
      PartKeeps(parts[0], b, selection);
      var d := DefinedDelta(parts[0], a, selection);
      ApplySeen(a, b, d, k);
      PartsTail(parts, a.typeNames, Apply(a, d).value.typeNames);
      InTurnSeen(Apply(a, d).value, Apply(b, d).value, parts[1..], selection, k);
    }
  }

  // ---- narrowing a selection to the objects that are there changes nothing

  lemma {:induction false} NarrowDraft(m: Morphism, s: Snapshot, d: Draft, selection: seq<ObjectId>, other: Snapshot)
    requires m.Defined? && IdSet(other.objects) == IdSet(s.objects)
    ensures TransformedAll(m, s, d, Project(selection, other)) == TransformedAll(m, s, d, selection)
  {
    hide Transformed;
    if selection != [] {
      var last := |selection| - 1;
      var head, id := Project(selection[..last], other), selection[last];
      NarrowDraft(m, s, d, selection[..last], other);
      if Contains(other, id) {
        assert (head + [id])[..|head|] == head;
      } else {
        assert head + [] == head;
        SelectedPresent(m, s, id);
      }
    }
  }

  lemma SelectedPresent(m: Morphism, s: Snapshot, id: ObjectId)
    requires m.Defined?
    ensures Selected(m, s, id) ==> Contains(s, id)
  {
    var i := FindObject(s.objects, id);
    assert i.Some? ==> s.objects[i.value].id == id;
  }

  lemma {:induction false} InTurnNarrowed(s: Snapshot, parts: seq<Morphism>, selection: seq<ObjectId>, other: Snapshot)
    requires WellFormed(s) && PartsOk(parts, s.typeNames) && IdSet(other.objects) == IdSet(s.objects)
    ensures InTurn(s, parts, Project(selection, other)) == InTurn(s, parts, selection)
    decreases |parts|
  {
    hide WellFormed, Apply, TransformedAll;
    if parts != [] {
      NarrowDraft(parts[0], s, EmptyDraft(s), selection, other);
      PartKeeps(parts[0], s, selection);
      var next := Apply(s, DefinedDelta(parts[0], s, selection)).value;
      PartsTail(parts, s.typeNames, next.typeNames);
      InTurnNarrowed(next, parts[1..], selection, other);
    }
  }

  // ---- the main theorem

  lemma {:induction false} PartsFine(m: Morphism, typeNames: map<nat, string>)
    requires MorphismOk(m, typeNames)
    ensures PartsOk(Parts(m), typeNames)
  {
    if m.Composed? {
      PartsFine(m.first, typeNames);
      PartsFine(m.second, typeNames);
    }
  }

  lemma IdentityRuns(s: Snapshot)
    requires WellFormed(s)
    ensures Accepted(s, [Traced("morphism.apply")])
    ensures Seen(Apply(s, [Traced("morphism.apply")]).value, s.epoch + 1) == Seen(s, s.epoch + 1)
  {
    TraceIdle(s, [], "morphism.apply");
    TraceTame([], IdSet(s.objects), "morphism.apply");
    assert [] + [Traced("morphism.apply")] == [Traced("morphism.apply")];
    assert BareAll(Recount(Start(s).snap).objects) == BareAll(s.objects);
  }

  // The delta of any morphism is accepted, and in one step does what its parts do in turn.
  lemma {:induction false} MorphismRuns(m: Morphism, s: Snapshot, selection: seq<ObjectId>)
    requires WellFormed(s) && MorphismOk(m, s.typeNames)
    ensures Accepted(s, MorphismDelta(m, s, selection))
    ensures InTurn(s, Parts(m), selection).Ok?
    ensures Seen(Apply(s, MorphismDelta(m, s, selection)).value, s.epoch + 1) ==
            Seen(InTurn(s, Parts(m), selection).value, s.epoch + 1)
    decreases m
  {
    hide WellFormed, DefinedDelta, Apply, Accepted;
    match m
    case Identity(_) =>
      IdentityRuns(s);
    case Defined(_, _, _) =>
      PartKeeps(m, s, selection);
      DefinedAccepted(m, s, selection);
    case Composed(_, _, first, second) =>
      var k := s.epoch + 1;
      var d1 := MorphismDelta(first, s, selection);
      MorphismRuns(first, s, selection);
      AcceptedKeeps(s, d1);
      var mid := Apply(s, d1).value;
      var narrowed := Project(selection, mid);
      var d2 := MorphismDelta(second, mid, narrowed);
      OkStays(second, s.typeNames, mid.typeNames);
      MorphismRuns(second, mid, narrowed);
      CompositeRuns(m, s, selection, d1, mid, d2);
  }

  lemma AcceptedKeeps(s: Snapshot, delta: Delta)
    requires WellFormed(s) && Accepted(s, delta)
    ensures var after := Apply(s, delta).value;
            WellFormed(after) && Extends(s, after) && after.epoch == s.epoch + 1 &&
              IdSet(after.objects) == IdSet(s.objects)
    ensures Apply(s, delta).Ok?
  {
    ApplyKeeps(s, delta);
    TameIds(s, delta);
  }

  lemma CompositeDelta(m: Morphism, s: Snapshot, selection: seq<ObjectId>, d1: Delta, mid: Snapshot, d2: Delta)
    requires m.Composed? && WellFormed(s) && d1 == MorphismDelta(m.first, s, selection) && Accepted(s, d1)
    requires mid == Apply(s, d1).value && d2 == MorphismDelta(m.second, mid, Project(selection, mid)) &&
             Accepted(mid, d2)
    ensures Accepted(s, MorphismDelta(m, s, selection))
    ensures Apply(s, MorphismDelta(m, s, selection)) == ClampResult(Apply(mid, d2), s.epoch + 1)
  {
    hide WellFormed, Run, Step, TypeConflict, Tame;
    AcceptedKeeps(s, d1);
    FuseTame(s, d1, d2);
    var merged := MergeSequential(s, d1, d2).value;
    TraceIdle(s, merged, "morphism.compose");
    TraceTame(merged, IdSet(s.objects), "morphism.compose");
  }

  lemma SeenNames(a: Snapshot, b: Snapshot, k: nat)
    requires Seen(a, k) == Seen(b, k)
    ensures a.typeNames == b.typeNames
  {
  }

  lemma CompositeRuns(m: Morphism, s: Snapshot, selection: seq<ObjectId>, d1: Delta, mid: Snapshot, d2: Delta)
    requires m.Composed? && WellFormed(s) && MorphismOk(m, s.typeNames)
    requires d1 == MorphismDelta(m.first, s, selection) && Accepted(s, d1) && mid == Apply(s, d1).value
    requires d2 == MorphismDelta(m.second, mid, Project(selection, mid)) && Accepted(mid, d2)
    requires InTurn(s, Parts(m.first), selection).Ok?
    requires Seen(mid, s.epoch + 1) == Seen(InTurn(s, Parts(m.first), selection).value, s.epoch + 1)
    requires InTurn(mid, Parts(m.second), Project(selection, mid)).Ok?
    requires Seen(Apply(mid, d2).value, mid.epoch + 1) ==
             Seen(InTurn(mid, Parts(m.second), Project(selection, mid)).value, mid.epoch + 1)
    ensures Accepted(s, MorphismDelta(m, s, selection))
    ensures InTurn(s, Parts(m), selection).Ok?
    ensures Seen(Apply(s, MorphismDelta(m, s, selection)).value, s.epoch + 1) ==
            Seen(InTurn(s, Parts(m), selection).value, s.epoch + 1)
  {
    hide WellFormed, DefinedDelta, Apply, Accepted, MorphismDelta, InTurn, Project, PartsOk, Seen;
    var k, p1, p2 := s.epoch + 1, Parts(m.first), Parts(m.second);
    AcceptedKeeps(s, d1);
    AcceptedKeeps(mid, d2);
    CompositeDelta(m, s, selection, d1, mid, d2);
    SeenClamped(Apply(mid, d2).value, k);
    PartsFine(m.first, s.typeNames);
    PartsFine(m.second, s.typeNames);
    InTurnKeeps(s, p1, selection);
    var x := InTurn(s, p1, selection).value;
    SeenNames(mid, x, k);
    OkStays(m.second, s.typeNames, mid.typeNames);
    PartsFine(m.second, mid.typeNames);
    InTurnNarrowed(mid, p2, selection, mid);
    InTurnSeen(mid, x, p2, selection, k);
    SeenLater(Apply(mid, d2).value, InTurn(mid, p2, selection).value, k);
    InTurnAppend(s, p1, p2, selection);
  }

  // Morphisms with the same parts produce the same snapshot, however they are bracketed
  // and wherever identities stand between them.
  lemma SamePartsSameResult(m: Morphism, n: Morphism, s: Snapshot, selection: seq<ObjectId>)
    requires WellFormed(s) && MorphismOk(m, s.typeNames) && MorphismOk(n, s.typeNames) && Parts(m) == Parts(n)
    ensures Apply(s, MorphismDelta(m, s, selection)).Ok?
    ensures Apply(s, MorphismDelta(m, s, selection)) == Apply(s, MorphismDelta(n, s, selection))
  {
    hide MorphismDelta, InTurn;
    MorphismRuns(m, s, selection);
    MorphismRuns(n, s, selection);
    ResultSeen(s, MorphismDelta(m, s, selection));
    ResultSeen(s, MorphismDelta(n, s, selection));
  }

  lemma ResultSeen(s: Snapshot, delta: Delta)
    requires WellFormed(s) && Apply(s, delta).Ok?
    ensures Recount(Seen(Apply(s, delta).value, s.epoch + 1)) == Apply(s, delta).value
  {
    hide Step;
    StartKeeps(s);
    RunKeeps(Start(s), delta);
    WellFormedTimely(Run(Start(s), delta).value.snap);
    SeenIdle(Run(Start(s), delta).value.snap, s.epoch + 1);
  }

  // h after (g after f) and (h after g) after f.
  lemma CompositionAssociative(h: Morphism, g: Morphism, f: Morphism, s: Snapshot, selection: seq<ObjectId>)
    requires WellFormed(s)
    requires MorphismOk(f, s.typeNames) && MorphismOk(g, s.typeNames) && MorphismOk(h, s.typeNames)
    ensures Compose(g, f).Ok? && Compose(h, g).Ok? ==>
            var left, right := Compose(h, Compose(g, f).value), Compose(Compose(h, g).value, f);
            left.Ok? && right.Ok? && SignatureOf(left.value) == SignatureOf(right.value) &&
            Apply(s, MorphismDelta(left.value, s, selection)).Ok? &&
            Apply(s, MorphismDelta(left.value, s, selection)) == Apply(s, MorphismDelta(right.value, s, selection))
  {
    hide MorphismDelta, Apply, WellFormed;
    if Compose(g, f).Ok? && Compose(h, g).Ok? {
      var left, right := Compose(h, Compose(g, f).value).value, Compose(Compose(h, g).value, f).value;
      assert Parts(f) + Parts(g) + Parts(h) == Parts(f) + (Parts(g) + Parts(h));
      SamePartsSameResult(left, right, s, selection);
    }
  }

  // f after id and id after f do what f does.
  lemma IdentityNeutral(f: Morphism, s: Snapshot, selection: seq<ObjectId>)
    requires WellFormed(s) && MorphismOk(f, s.typeNames)
    ensures var before, after := Compose(f, Identity(SignatureOf(f).domain)),
            Compose(Identity(SignatureOf(f).codomain), f);
            before.Ok? && after.Ok? &&
            SignatureOf(before.value) == SignatureOf(f) == SignatureOf(after.value) &&
            Apply(s, MorphismDelta(before.value, s, selection)) == Apply(s, MorphismDelta(f, s, selection)) &&
            Apply(s, MorphismDelta(after.value, s, selection)) == Apply(s, MorphismDelta(f, s, selection))
  {
    hide MorphismDelta, Apply, WellFormed;
    var before, after := Compose(f, Identity(SignatureOf(f).domain)).value,
      Compose(Identity(SignatureOf(f).codomain), f).value;
    assert [] + Parts(f) == Parts(f) == Parts(f) + [];
    SamePartsSameResult(before, f, s, selection);
    SamePartsSameResult(after, f, s, selection);
  }
}
