/** `Load` and `Unload` of the module: subscribing and unsubscribing the
    constructor hook and the `Update` IL manipulator on their hook events. */
module ModuleLifecycle {
  import opened Wrappers

  /** A delegate subscribed to a hook event; equal delegates compare equal. */
  datatype Handler = TempleEyeCtorHook | TempleEyeUpdateManipulator | Foreign(id: nat)

  /** The invocation lists of `On.Celeste.TempleEye.ctor` and
      `IL.Celeste.TempleEye.Update`. */
  datatype Registry = Registry(ctorHooks: seq<Handler>, updateManipulators: seq<Handler>)

  /** Position of the last occurrence of `h` in `l`, if any. */
  function LastIndexOf(l: seq<Handler>, h: Handler): (r: Option<nat>)
    ensures r.None? ==> h !in l
    ensures r.Some? ==> r.value < |l| && l[r.value] == h && h !in l[r.value + 1..]
  {
    if |l| == 0 then None
    else if l[|l| - 1] == h then Some(|l| - 1)
    else
      var r := LastIndexOf(l[..|l| - 1], h);
      assert l == l[..|l| - 1] + [l[|l| - 1]];
      r
  }

  /** Event `+=`: the handler joins the end of the invocation list. */
  function Subscribe(l: seq<Handler>, h: Handler): (r: seq<Handler>)
    ensures |r| == |l| + 1 && r[..|l|] == l && r[|l|] == h
  {
    l + [h]
  }

  /** Event `-=`: the last occurrence of the handler leaves the list, the
      others keep their order; an absent handler leaves it unchanged. */
  function Unsubscribe(l: seq<Handler>, h: Handler): (r: seq<Handler>)
    ensures h !in l ==> r == l
    ensures h in l ==> |r| == |l| - 1 && multiset(r) == multiset(l) - multiset{h}
  {
    match LastIndexOf(l, h)
    case None => l
    case Some(k) =>
      assert l == l[..k] + [l[k]] + l[k + 1..];
      l[..k] + l[k + 1..]
  }

  /** The handler `-=` removes is its last occurrence: every other handler
      keeps its place and order. */
  lemma UnsubscribeRemovesLast(l: seq<Handler>, h: Handler, k: nat)
    requires k < |l| && l[k] == h && h !in l[k + 1..]
    ensures Unsubscribe(l, h) == l[..k] + l[k + 1..]
  {
  }

  /** `Load`. */
  function Load(reg: Registry): (r: Registry)
    ensures multiset(r.ctorHooks) == multiset(reg.ctorHooks) + multiset{TempleEyeCtorHook}
    ensures multiset(r.updateManipulators) == multiset(reg.updateManipulators) + multiset{TempleEyeUpdateManipulator}
  {
    Registry(Subscribe(reg.ctorHooks, TempleEyeCtorHook),
             Subscribe(reg.updateManipulators, TempleEyeUpdateManipulator))
  }

  /** `Unload`. */
  function Unload(reg: Registry): (r: Registry)
    ensures TempleEyeCtorHook in reg.ctorHooks ==>
              multiset(r.ctorHooks) == multiset(reg.ctorHooks) - multiset{TempleEyeCtorHook}
    ensures TempleEyeUpdateManipulator in reg.updateManipulators ==>
              multiset(r.updateManipulators) == multiset(reg.updateManipulators) - multiset{TempleEyeUpdateManipulator}
    ensures TempleEyeCtorHook !in reg.ctorHooks ==> r.ctorHooks == reg.ctorHooks
    ensures TempleEyeUpdateManipulator !in reg.updateManipulators ==> r.updateManipulators == reg.updateManipulators
  {
    Registry(Unsubscribe(reg.ctorHooks, TempleEyeCtorHook),
             Unsubscribe(reg.updateManipulators, TempleEyeUpdateManipulator))
  }

  /** Unsubscribing right after subscribing restores the list. */
  lemma UnsubscribeAfterSubscribe(l: seq<Handler>, h: Handler)
    ensures Unsubscribe(Subscribe(l, h), h) == l
  {
  }

  /** `Unload` after `Load` restores both invocation lists exactly, whatever
      other handlers they held. */
  lemma UnloadUndoesLoad(reg: Registry)
    ensures Unload(Load(reg)) == reg
  {
  }

  /** `n` applications of `step`, starting from `x`. */
  function Repeat<T>(step: T -> T, n: nat, x: T): T {
    if n == 0 then x else Repeat(step, n - 1, step(x))
  }

  /** The last of `n` steps can be taken outermost. */
  lemma {:induction false} RepeatLast<T>(step: T -> T, n: nat, x: T)
    requires 1 <= n
    ensures Repeat(step, n, x) == step(Repeat(step, n - 1, x))
  {
    if n > 1 {
      RepeatLast(step, n - 1, step(x));
    }
  }

  /** `n` undo steps take back `n` do steps. */
  lemma {:induction false} RepeatUndo<T>(undo: T -> T, redo: T -> T, n: nat, x: T)
    requires forall y :: undo(redo(y)) == y
    ensures Repeat(undo, n, Repeat(redo, n, x)) == x
  {
    if n > 0 {
      var inner := Repeat(redo, n - 1, x);
      RepeatLast(redo, n, x);
      assert undo(redo(inner)) == inner;
      RepeatUndo(undo, redo, n - 1, x);
    }
  }

  /** As many unloads as loads, in any session length, restore the lists. */
  lemma BalancedSessionsRestore(n: nat, reg: Registry)
    ensures Repeat(Unload, n, Repeat(Load, n, reg)) == reg
  {
    forall y: Registry
      ensures Unload(Load(y)) == y
    {
      UnloadUndoesLoad(y);
    }
    RepeatUndo(Unload, Load, n, reg);
  }

  /** How many times `h` is subscribed in `l`. */
  function Subscriptions(l: seq<Handler>, h: Handler): nat {
    multiset(l)[h]
  }

  /** After `n` loads each handler of the module is subscribed `n` more
      times, so `n` copies of the constructor hook and of the manipulator
      run on the next construction and the next `Update` compilation. */
  lemma {:induction false} LoadsAddSubscriptions(n: nat, reg: Registry)
    ensures Subscriptions(Repeat(Load, n, reg).ctorHooks, TempleEyeCtorHook)
              == Subscriptions(reg.ctorHooks, TempleEyeCtorHook) + n
    ensures Subscriptions(Repeat(Load, n, reg).updateManipulators, TempleEyeUpdateManipulator)
              == Subscriptions(reg.updateManipulators, TempleEyeUpdateManipulator) + n
  {
    if n > 0 {
      RepeatLast(Load, n, reg);
      LoadsAddSubscriptions(n - 1, reg);
    }
  }
}
