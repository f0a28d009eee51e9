/** The IL manipulator installed on `TempleEye.Update`: it finds the first
    `ldarg.0; call get_Scene; callvirt get_Tracker; callvirt <any method>;
    stloc.0|stloc.1` window (in the vanilla body the fourth instruction is
    `GetEntity<TheoCrystal>`, but any `callvirt` is accepted there), keeps
    the `ldarg.0` that loads `this`, and replaces the three instructions
    after it by an invocation of the tracked-actor selector. */
module TempleEyeUpdate {
  import opened Wrappers
  import opened Cil

  const SceneGetter := "get_Scene"
  const TrackerGetter := "get_Tracker"

  /** Number of instructions the patch removes after the kept `ldarg.0`. */
  const RemovedCount := 3

  /** `call` or `callvirt` (per `op`) to a method whose name contains `name`. */
  predicate CallsNamed(ins: Instr, op: OpCode, name: string) {
    ins.op == op && ins.callee.Some? && Contains(ins.callee.value, name)
  }

  predicate IsLoadThis(ins: Instr) { ins.op == Ldarg0 }
  predicate IsSceneGetterCall(ins: Instr) { CallsNamed(ins, Call, SceneGetter) }
  predicate IsTrackerGetterCall(ins: Instr) { CallsNamed(ins, Callvirt, TrackerGetter) }
  predicate IsAnyCallvirt(ins: Instr) { ins.op == Callvirt }
  /** `stloc.0` on the XNA build, `stloc.1` on the FNA build. */
  predicate IsStoreLocal01(ins: Instr) { ins.op == Stloc0 || ins.op == Stloc1 }

  /** The five predicates handed to `TryGotoNext`, in order. */
  const TargetPattern: Pattern :=
    [IsLoadThis, IsSceneGetterCall, IsTrackerGetterCall, IsAnyCallvirt, IsStoreLocal01]

  /** Length of the targeted window: one instruction per predicate of
      `TargetPattern` (`PatternMatchesTarget` fails if the two drift apart). */
  const WindowLength := 5

  /** The shape of the targeted five-instruction window. */
  predicate TargetShape(w: seq<Instr>)
    requires |w| == WindowLength
  {
    && IsLoadThis(w[0])
    && IsSceneGetterCall(w[1])
    && IsTrackerGetterCall(w[2])
    && IsAnyCallvirt(w[3])
    && IsStoreLocal01(w[4])
  }

  /** The targeted window starts at position `i` of `body`. */
  predicate TargetAt(body: seq<Instr>, i: int) {
    0 <= i && i + WindowLength <= |body| && TargetShape(body[i..i + WindowLength])
  }

  /** `i` is the first position at which the targeted window starts. */
  predicate FirstTargetAt(body: seq<Instr>, i: int) {
    TargetAt(body, i) && forall j :: 0 <= j < i ==> !TargetAt(body, j)
  }

  /** At most one targeted window in the body. */
  ghost predicate AtMostOneTarget(body: seq<Instr>) {
    forall i, j :: TargetAt(body, i) && TargetAt(body, j) ==> i == j
  }

  /** Nothing the emitted delegate invocation contains reads `Scene`. */
  predicate NoSceneGetterCall(emitted: seq<Instr>) {
    forall k :: 0 <= k < |emitted| ==> !IsSceneGetterCall(emitted[k])
  }

  /** The generic cursor match of `TargetPattern` is exactly the targeted window. */
  lemma PatternMatchesTarget(body: seq<Instr>, i: nat)
    ensures MatchesAt(body, TargetPattern, i) <==> TargetAt(body, i)
  {
    if i + 5 <= |body| {
      var w := body[i..i + 5];
      assert forall k :: 0 <= k < 5 ==> w[k] == body[i + k];
      if MatchesAt(body, TargetPattern, i) {
        assert TargetPattern[0](body[i]) && TargetPattern[1](body[i + 1]) && TargetPattern[2](body[i + 2]);
        assert TargetPattern[3](body[i + 3]) && TargetPattern[4](body[i + 4]);
      }
      if TargetAt(body, i) {
        forall k | 0 <= k < |TargetPattern|
          ensures TargetPattern[k](body[i + k])
        {
          assert body[i + k] == w[k];
        }
      }
    }
  }

  /** The cursor search of the manipulator, stated over the targeted window:
      it returns the first window in the body, or nothing when none exists. */
  function FindTarget(body: seq<Instr>): (r: Option<nat>)
    ensures r.Some? ==> FirstTargetAt(body, r.value)
    ensures r.None? ==> forall j :: !TargetAt(body, j)
  {
    var r := FindFirst(body, TargetPattern);
    if r.Some? then
      PatternMatchesTarget(body, r.value);
      forall j | 0 <= j < r.value
        ensures !TargetAt(body, j)
      {
        PatternMatchesTarget(body, j);
      }
      r
    else
      forall j | TargetAt(body, j)
        ensures false
      {
        PatternMatchesTarget(body, j);
      }
      r
  }

  /** The edit at a match index `i`: `cursor.Index++`, `RemoveRange(3)`,
      then the emitted delegate invocation at the same position. */
  function PatchAt(body: seq<Instr>, i: nat, emitted: seq<Instr>): (r: seq<Instr>)
    requires TargetAt(body, i)
    ensures |r| == |body| - RemovedCount + |emitted|
    ensures forall k :: 0 <= k <= i ==> r[k] == body[k]
    ensures forall k :: 0 <= k < |emitted| ==> r[i + 1 + k] == emitted[k]
    ensures forall k :: i + 1 + RemovedCount <= k < |body| ==> r[k - RemovedCount + |emitted|] == body[k]
    ensures IsLoadThis(r[i]) && IsStoreLocal01(r[i + 1 + |emitted|])
  {
    Splice(body, i + 1, RemovedCount, emitted)
  }

  /** `ModTempleEyeUpdate` applied to `body`, with `emitted` standing for
      what `EmitDelegate` emits. */
  function PatchUpdate(body: seq<Instr>, emitted: seq<Instr>): (r: seq<Instr>)
    ensures (forall j :: !TargetAt(body, j)) ==> r == body
    ensures forall i :: FirstTargetAt(body, i) ==> r == PatchAt(body, i, emitted)
  {
    match FindTarget(body)
    case None => body
    case Some(i) =>
      assert forall i' :: FirstTargetAt(body, i') ==> i' == i by {
        forall i' | FirstTargetAt(body, i')
          ensures i' == i
        {
          FirstTargetUnique(body, i, i');
        }
      }
      PatchAt(body, i, emitted)
  }

  /** The emitted invocation removed the `get_Scene` call at offset 1, so the
      window at the match index no longer has the targeted shape. */
  lemma PatchClearsMatchedWindow(body: seq<Instr>, i: nat, emitted: seq<Instr>)
    requires TargetAt(body, i)
    requires NoSceneGetterCall(emitted)
    ensures !TargetAt(PatchAt(body, i, emitted), i)
  {
  }

  /** A window position of the patched body starting inside the kept prefix
      or the emitted invocation never has the targeted shape. */
  lemma NoTargetBeforeSuffix(body: seq<Instr>, i: nat, emitted: seq<Instr>, j: int)
    requires FirstTargetAt(body, i)
    requires NoSceneGetterCall(emitted)
    requires j < i + 1 + |emitted|
    ensures !TargetAt(PatchAt(body, i, emitted), j)
  {
    var r := PatchAt(body, i, emitted);
    if 0 <= j && j + 5 <= |r| {
      if j + 4 <= i {
        // the whole window lies in the unchanged prefix, before the first match
        assert r[j..j + 5] == body[j..j + 5];
        assert !TargetAt(body, j);
      } else if j < i {
        // offset i - j (1, 2 or 3) is the kept `ldarg.0`, which is no call
        assert r[j..j + 5][i - j] == body[i];
      } else if j < i + |emitted| {
        assert r[j..j + 5][1] == emitted[j - i];
      } else {
        // offset 1 is the former `stloc`
        assert r[j..j + 5][1] == body[i + 4];
      }
    }
  }

  /** A window of the patched body starting after the emitted invocation
      is the original window shifted by the length change. */
  lemma SuffixTargetShifted(body: seq<Instr>, i: nat, emitted: seq<Instr>, j: int)
    requires TargetAt(body, i)
    requires i + 1 + |emitted| <= j
    ensures TargetAt(PatchAt(body, i, emitted), j) <==> TargetAt(body, j + RemovedCount - |emitted|)
  {
    var r := PatchAt(body, i, emitted);
    var j' := j + RemovedCount - |emitted|;
    if j + 5 <= |r| {
      forall x | j <= x < j + 5
        ensures r[x] == body[x + RemovedCount - |emitted|]
      {
        var y := x + RemovedCount - |emitted|;
        assert r[y - RemovedCount + |emitted|] == body[y];
      }
      assert r[j..j + 5] == body[j'..j' + 5];
    }
  }

  /** Two first targeted windows are the same window. */
  lemma FirstTargetUnique(body: seq<Instr>, i: int, i': int)
    requires FirstTargetAt(body, i) && FirstTargetAt(body, i')
    ensures i == i'
  {
  }

  /** The windows of the patched body are exactly the windows of the
      original body that lay wholly after the removed range, shifted by the
      length change. */
  lemma PatchedTargets(body: seq<Instr>, i: nat, emitted: seq<Instr>, j: int)
    requires FirstTargetAt(body, i)
    requires NoSceneGetterCall(emitted)
    ensures TargetAt(PatchAt(body, i, emitted), j) <==>
            (i + 1 + |emitted| <= j && TargetAt(body, j + RemovedCount - |emitted|))
  {
    if j < i + 1 + |emitted| {
      NoTargetBeforeSuffix(body, i, emitted, j);
    } else {
      SuffixTargetShifted(body, i, emitted, j);
    }
  }

  /** With a single targeted window, a second run of the manipulator finds
      nothing and leaves the patched body unchanged. */
  lemma PatchIdempotent(body: seq<Instr>, emitted: seq<Instr>)
    requires AtMostOneTarget(body)
    requires NoSceneGetterCall(emitted)
    ensures PatchUpdate(PatchUpdate(body, emitted), emitted) == PatchUpdate(body, emitted)
  {
    var found := FindTarget(body);
    if found.Some? {
      var i := found.value;
      var r := PatchAt(body, i, emitted);
      assert PatchUpdate(body, emitted) == r;
      forall j
        ensures !TargetAt(r, j)
      {
        PatchedTargets(body, i, emitted, j);
      }
    }
  }

  /** The body after `n` registrations of the manipulator have each run once,
      in registration order. */
  function PatchRepeated(n: nat, body: seq<Instr>, emitted: seq<Instr>): seq<Instr>
  {
    if n == 0 then body else PatchUpdate(PatchRepeated(n - 1, body, emitted), emitted)
  }

  /** Registering the manipulator several times (loading the module again
      without unloading it) edits a single-window body exactly once. */
  lemma {:induction false} RepeatedPatchEditsOnce(n: nat, body: seq<Instr>, emitted: seq<Instr>)
    requires 1 <= n
    requires AtMostOneTarget(body)
    requires NoSceneGetterCall(emitted)
    ensures PatchRepeated(n, body, emitted) == PatchUpdate(body, emitted)
  {
    if n > 1 {
      RepeatedPatchEditsOnce(n - 1, body, emitted);
      PatchIdempotent(body, emitted);
    }
  }

  /** The XNA shape (`stloc.0`) and the FNA shape (`stloc.1`) both match at
      index 0; a store into any other local does not. */
  lemma BuildShapesMatch(store: OpCode)
    ensures var body := [Instr(Ldarg0, None),
                         Instr(Call, Some("get_Scene")),
                         Instr(Callvirt, Some("get_Tracker")),
                         Instr(Callvirt, Some("GetEntity")),
                         Instr(store, None)];
            FindTarget(body) == (if store == Stloc0 || store == Stloc1 then Some(0) else None)
  {
  }
}
