// merge_sequential: two deltas fused into one that can be applied in a single step.

module SequentialMerge {
  import opened Wrappers
  import opened Model
  import opened Overlay
  import opened OverlayApply

  datatype MergeError =
    | OverlayRejected
    | DuplicateTempObject
    | ConflictingObjectUpdate
    | UpdateMissingObject
    | PointerMissingObject

  // ---- the printed form of a reference, which is what the merge compares

  datatype RefKey = ObjectKey(index: nat, generation: nat) | InvalidObjectKey | TempKey(temp: nat) | InvalidTempKey

  function KeyOf(ref: Ref): RefKey {
    match ref
    case ById(id) => if id.generation != 0 then ObjectKey(id.index, id.generation) else InvalidObjectKey
    case ByTemp(t) => if t != 0 then TempKey(t) else InvalidTempKey
  }

  predicate TypeUpdateOf(op: Op, key: RefKey) {
    op.SetObjectType? && KeyOf(op.target) == key
  }

  // Two type updates of one delta name the same object and disagree.
  ghost predicate TypeConflict(delta: Delta) {
    exists i, j :: 0 <= i < j < |delta| && delta[i].SetObjectType? && delta[j].SetObjectType? &&
      KeyOf(delta[i].target) == KeyOf(delta[j].target) && delta[i].typ != delta[j].typ
  }

  // ---- temp ids

  // The temp ids a delta creates, in order.
  function CreatedTemps(delta: Delta): seq<nat> {
    if delta == [] then []
    else (if delta[0].CreateObject? then [delta[0].temp] else []) + CreatedTemps(delta[1..])
  }

  // The object ids the overlay gives to the creates of a delta, each with its temp id.
  function Synthetic(next: nat, temps: seq<nat>): map<ObjectId, nat> {
    if temps == [] then map[]
    else
      var last := |temps| - 1;
      Synthetic(next, temps[..last])[ObjectId(next + last, 1) := temps[last]]
  }

  function TempAbove(temps: seq<nat>): nat {
    if temps == [] then 1
    else
      var last := |temps| - 1;
      Max(TempAbove(temps[..last]), temps[last] + 1)
  }

  // The renaming of the second delta's temp ids away from those of the first.
  function Remap(temps: seq<nat>, firstTemps: set<nat>, next: nat, acc: map<nat, nat>): Result<map<nat, nat>,
                 MergeError> {
    if temps == [] then Ok(acc)
    else if temps[0] == 0 || temps[0] in acc then Err(MergeError.DuplicateTempObject)
    else if temps[0] in firstTemps then Remap(temps[1..], firstTemps, next + 1, acc[temps[0] := next])
    else Remap(temps[1..], firstTemps, next, acc[temps[0] := temps[0]])
  }

  function TempSet(temps: seq<nat>): set<nat> {
    set t | t in temps
  }

  // ---- references of the second delta, read against the base

  datatype Names = Names(baseIds: set<ObjectId>, firstTemps: set<nat>, synthetic: map<ObjectId, nat>, remap: map<nat,
    nat>)

  function NormalizeRef(n: Names, ref: Ref): Option<Ref> {
    match ref
    case ByTemp(t) =>
      if t == 0 then None
      else if t in n.remap then Some(ByTemp(n.remap[t]))
      else if t in n.firstTemps then Some(ref)
      else None
    case ById(id) =>
      if id in n.baseIds then Some(ref)
      else if id in n.synthetic then Some(ByTemp(n.synthetic[id]))
      else None
  }

  function NormalizeOp(n: Names, op: Op): Result<Op, MergeError> {
    if op.CreateObject? then
      if op.temp in n.remap then Ok(op.(temp := n.remap[op.temp])) else Err(MergeError.DuplicateTempObject)
    else if op.CreatePointer? then
      var f, t := NormalizeRef(n, op.from), NormalizeRef(n, op.to);
      if f.None? || t.None? then Err(MergeError.PointerMissingObject) else Ok(op.(from := f.value, to := t.value))
    else if ObjectOp(op) then
      var r := NormalizeRef(n, op.target);
      if r.None? then Err(MergeError.UpdateMissingObject) else Ok(Retarget(op, r.value))
    else Ok(op)
  }

  function Retarget(op: Op, ref: Ref): Op
    requires ObjectOp(op)
  {
    match op
    case SetObjectType(_, typ) => SetObjectType(ref, typ)
    case SetObjectExistence(_, existence) => SetObjectExistence(ref, existence)
    case SetObjectAttribute(_, attribute) => SetObjectAttribute(ref, attribute)
    case RemoveObjectAttribute(_, key) => RemoveObjectAttribute(ref, key)
    case AssertObject(_) => AssertObject(ref)
  }

  function Normalize(n: Names, delta: Delta): Result<Delta, MergeError> {
    if delta == [] then Ok([])
    else match NormalizeOp(n, delta[0])
      case Err(e) => Err(e)
      case Ok(op) =>
        match Normalize(n, delta[1..])
        case Err(e) => Err(e)
        case Ok(rest) => Ok([op] + rest)
  }

  // ---- dropping type updates that a later one of the same reference overwrites

  predicate Overwritten(op: Op, rest: Delta) {
    op.SetObjectType? && exists j :: 0 <= j < |rest| && TypeUpdateOf(rest[j], KeyOf(op.target))
  }

  function Compress(delta: Delta): Delta {
    if delta == [] then []
    else if Overwritten(delta[0], delta[1..]) then Compress(delta[1..])
    else [delta[0]] + Compress(delta[1..])
  }

  // ---- the merge

  function NamesFor(base: Snapshot, first: Delta, remap: map<nat, nat>): Names {
    var temps := CreatedTemps(first);
    Names(IdSet(base.objects), TempSet(temps), Synthetic(NextIndex(base.objects), temps), remap)
  }

  ghost function Fuse(base: Snapshot, first: Delta, second: Delta): Result<Delta, MergeError> {
    var temps1, temps2 := CreatedTemps(first), CreatedTemps(second);
    match Remap(temps2, TempSet(temps1), Max(TempAbove(temps1), TempAbove(temps2)), map[])
    case Err(e) => Err(e)
    case Ok(remap) =>
      match Normalize(NamesFor(base, first, remap), second)
      case Err(e) => Err(e)
      case Ok(renamed) => Ok(Compress(first + renamed))
  }

  ghost function MergeSequential(base: Snapshot, first: Delta, second: Delta): Result<Delta, MergeError> {
    if TypeConflict(first) || TypeConflict(second) then Err(MergeError.ConflictingObjectUpdate)
    else
      var mid := Apply(base, first);
      if mid.Err? || Apply(mid.value, second).Err? then Err(OverlayRejected)
      else match Fuse(base, first, second)
        case Err(e) => Err(e)
        case Ok(out) => if Apply(base, out).Err? then Err(OverlayRejected) else Ok(out)
  }

  // ---- the same, as it runs

  method RejectConflicts(delta: Delta) returns (conflict: bool)
    ensures conflict <==> TypeConflict(delta)
  {
    var seen: map<RefKey, nat> := map[];
    for k := 0 to |delta|
      invariant forall i :: 0 <= i < k && delta[i].SetObjectType? ==>
        KeyOf(delta[i].target) in seen && seen[KeyOf(delta[i].target)] == delta[i].typ
      invariant forall key :: key in seen ==>
        exists i :: 0 <= i < k && TypeUpdateOf(delta[i], key) && delta[i].typ == seen[key]
    {
      if delta[k].SetObjectType? {
        var key := KeyOf(delta[k].target);
        if key in seen && seen[key] != delta[k].typ {
          return true;
        }
        seen := seen[key := delta[k].typ];
      }
    }
    return false;
  }

  method TempsOf(delta: Delta) returns (temps: seq<nat>)
    ensures temps == CreatedTemps(delta)
  {
    temps := [];
    for k := 0 to |delta|
      invariant CreatedTemps(delta) == temps + CreatedTemps(delta[k..])
    {
      assert delta[k..][1..] == delta[k + 1..];
      if delta[k].CreateObject? {
        temps := temps + [delta[k].temp];
      }
    }
  }

  method SyntheticOf(next: nat, temps: seq<nat>) returns (out: map<ObjectId, nat>)
    ensures out == Synthetic(next, temps)
  {
    out := map[];
    var index := next;
    for k := 0 to |temps|
      invariant out == Synthetic(next, temps[..k]) && index == next + k
    {
      assert temps[..k + 1][..k] == temps[..k];
      out := out[ObjectId(index, 1) := temps[k]];
      index := index + 1;
    }
    assert temps[..|temps|] == temps;
  }

  method TempAboveOf(start: nat, temps: seq<nat>) returns (next: nat)
    requires start >= 1
    ensures next == Max(start, TempAbove(temps))
  {
    next := start;
    for k := 0 to |temps|
      invariant next == Max(start, TempAbove(temps[..k]))
    {
      assert temps[..k + 1][..k] == temps[..k];
      next := Max(next, temps[k] + 1);
    }
    assert temps[..|temps|] == temps;
  }

  method RemapOf(temps: seq<nat>, firstTemps: set<nat>, start: nat) returns (r: Result<map<nat, nat>, MergeError>)
    ensures r == Remap(temps, firstTemps, start, map[])
  {
    var remap: map<nat, nat>, next := map[], start;
    for k := 0 to |temps|
      invariant Remap(temps, firstTemps, start, map[]) == Remap(temps[k..], firstTemps, next, remap)
    {
      assert temps[k..][1..] == temps[k + 1..];
      var temp := temps[k];
      if temp == 0 {
        return Err(MergeError.DuplicateTempObject);
      }
      var renamed := temp;
      var taken := temp in remap;
      if temp in firstTemps {
        renamed := next;
        next := next + 1;
      }
      if taken {
        return Err(MergeError.DuplicateTempObject);
      }
      remap := remap[temp := renamed];
    }
    return Ok(remap);
  }

  method NormalizeAll(n: Names, delta: Delta) returns (r: Result<Delta, MergeError>)
    ensures r == Normalize(n, delta)
  {
    var out: Delta := [];
    assert Normalize(n, delta).Ok? ==> [] + Normalize(n, delta).value == Normalize(n, delta).value;
    for k := 0 to |delta|
      invariant Normalize(n, delta) == After(out, Normalize(n, delta[k..]))
    {
      assert delta[k..][1..] == delta[k + 1..];
      ghost var rest := Normalize(n, delta[k + 1..]);
      var op := NormalizeOp(n, delta[k]);
      if op.Err? {
        return Err(op.error);
      }
      assert rest.Ok? ==> out + ([op.value] + rest.value) == out + [op.value] + rest.value;
      out := out + [op.value];
    }
    assert out + [] == out;
    return Ok(out);
  }

  function After(out: Delta, r: Result<Delta, MergeError>): Result<Delta, MergeError> {
    match r
    case Err(e) => Err(e)
    case Ok(rest) => Ok(out + rest)
  }

  // The last type update of each key among the first k operations.
  ghost predicate LastUpdates(delta: Delta, last: map<RefKey, nat>, k: nat)
    requires k <= |delta|
  {
    && (forall i :: 0 <= i < k && delta[i].SetObjectType? ==>
          KeyOf(delta[i].target) in last && i <= last[KeyOf(delta[i].target)])
    && (forall key :: key in last ==> last[key] < k && TypeUpdateOf(delta[last[key]], key))
  }

  // An operation is overwritten exactly when it is not the last update of its key.
  lemma OverwrittenLast(delta: Delta, last: map<RefKey, nat>, k: nat)
    requires LastUpdates(delta, last, |delta|) && k < |delta|
    ensures Overwritten(delta[k], delta[k + 1..]) <==> delta[k].SetObjectType? && last[KeyOf(delta[k].target)] != k
  {
    var op, rest := delta[k], delta[k + 1..];
    assert forall j :: 0 <= j < |rest| ==> rest[j] == delta[k + 1 + j];
    if op.SetObjectType? && last[KeyOf(op.target)] != k {
      assert TypeUpdateOf(rest[last[KeyOf(op.target)] - k - 1], KeyOf(op.target));
    }
  }

  lemma LastGrows(delta: Delta, last: map<RefKey, nat>, k: nat)
    requires k < |delta| && LastUpdates(delta, last, k)
    ensures LastUpdates(delta, if delta[k].SetObjectType? then last[KeyOf(delta[k].target) := k] else last, k + 1)
  {
  }

  lemma LastNone(delta: Delta)
    ensures LastUpdates(delta, map[], 0)
  {
  }

  lemma LastKnown(delta: Delta, last: map<RefKey, nat>, k: nat)
    requires k < |delta| && LastUpdates(delta, last, |delta|)
    ensures delta[k].SetObjectType? ==> KeyOf(delta[k].target) in last
  {
  }

  method CompressUpdates(delta: Delta) returns (out: Delta)
    ensures out == Compress(delta)
  {
    hide Overwritten, LastUpdates, KeyOf;
    var last: map<RefKey, nat> := map[];
    assert LastUpdates(delta, last, 0) by { LastNone(delta); }
    for k := 0 to |delta|
      invariant LastUpdates(delta, last, k)
    {
      LastGrows(delta, last, k);
      if delta[k].SetObjectType? {
        last := last[KeyOf(delta[k].target) := k];
      }
    }
    out := [];
    for k := 0 to |delta|
      invariant Compress(delta) == out + Compress(delta[k..])
    {
      var op := delta[k];
      assert delta[k..][1..] == delta[k + 1..];
      OverwrittenLast(delta, last, k);
      LastKnown(delta, last, k);
      if !(op.SetObjectType? && last[KeyOf(op.target)] != k) {
        out := out + [op];
      }
    }
  }

  method Merge(base: Snapshot, first: Delta, second: Delta) returns (r: Result<Delta, MergeError>)
    ensures r == MergeSequential(base, first, second)
  {
    var conflict1 := RejectConflicts(first);
    var conflict2 := RejectConflicts(second);
    if conflict1 || conflict2 {
      return Err(MergeError.ConflictingObjectUpdate);
    }
    var mid := ApplyDelta(base, first);
    if mid.Err? {
      return Err(OverlayRejected);
    }
    var after := ApplyDelta(mid.value, second);
    if after.Err? {
      return Err(OverlayRejected);
    }
    var temps1 := TempsOf(first);
    var temps2 := TempsOf(second);
    var next := TempAboveOf(1, temps1);
    next := TempAboveOf(next, temps2);
    var remap := RemapOf(temps2, TempSet(temps1), next);
    if remap.Err? {
      return Err(remap.error);
    }
    var nextIndex := NextIndexOf(base.objects);
    var synthetic := SyntheticOf(nextIndex, temps1);
    var renamed := NormalizeAll(Names(IdSet(base.objects), TempSet(temps1), synthetic, remap.value), second);
    if renamed.Err? {
      return Err(renamed.error);
    }
    var out := CompressUpdates(first + renamed.value);
    var fused := ApplyDelta(base, out);
    if fused.Err? {
      return Err(OverlayRejected);
    }
    return Ok(out);
  }
}
