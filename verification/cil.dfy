/** An abstract view of a CIL method body as the IL cursor sees it: an
    indexable sequence of instructions, an ordinal substring test on the
    names of referenced methods, the forward window search of
    `ILCursor.TryGotoNext` and the remove-then-emit splice. */
module Cil {
  import opened Wrappers

  /** The operation codes the TempleEye patch distinguishes; every other
      opcode is kept only by its mnemonic. `OtherOp` never carries the
      mnemonic of one of the five named opcodes (`ldarg.0`, `call`,
      `callvirt`, `stloc.0`, `stloc.1`): each opcode has exactly one
      representation. */
  datatype OpCode = Ldarg0 | Call | Callvirt | Stloc0 | Stloc1 | OtherOp(mnemonic: string)

  /** One instruction: its opcode and, when its operand is a method
      reference, the referenced method's name. */
  datatype Instr = Instr(op: OpCode, callee: Option<string>)

  /** An ordered list of per-offset instruction predicates, as passed to
      `TryGotoNext`. */
  type Pattern = seq<Instr -> bool>

  /** `sub` occurs in `s` starting at position `k`. */
  predicate OccursAt(s: string, sub: string, k: nat) {
    k + |sub| <= |s| && s[k..k + |sub|] == sub
  }

  /** Ordinal `String.Contains`: the search for `sub` from position `from` on. */
  function ContainsFrom(s: string, sub: string, from: nat): (r: bool)
    ensures r <==> exists k :: from <= k && OccursAt(s, sub, k)
    decreases |s| - from
  {
    if |s| < from + |sub| then false
    else if s[from..from + |sub|] == sub then
      assert OccursAt(s, sub, from);
      true
    else
      ContainsFrom(s, sub, from + 1)
  }

  /** Ordinal `String.Contains`. */
  function Contains(s: string, sub: string): (r: bool)
    ensures r <==> exists k :: OccursAt(s, sub, k)
  {
    ContainsFrom(s, sub, 0)
  }

  /** Every predicate of `p` accepts the instruction at its offset from `i`,
      and the whole window lies inside the body. */
  predicate MatchesAt(body: seq<Instr>, p: Pattern, i: nat) {
    i + |p| <= |body| && forall k :: 0 <= k < |p| ==> p[k](body[i + k])
  }

  /** The search of `TryGotoNext(MoveType.Before, p)`: the first window
      position at or after `from` where every predicate holds; `None` when
      no window that fits the body matches. */
  function FindFrom(body: seq<Instr>, p: Pattern, from: nat): (r: Option<nat>)
    ensures r.Some? ==> from <= r.value && MatchesAt(body, p, r.value)
    ensures r.Some? ==> forall j :: from <= j < r.value ==> !MatchesAt(body, p, j)
    ensures r.None? ==> forall j :: from <= j ==> !MatchesAt(body, p, j)
    decreases |body| - from
  {
    if |body| < from + |p| then None
    else if MatchesAt(body, p, from) then Some(from)
    else FindFrom(body, p, from + 1)
  }

  /** `TryGotoNext` on a fresh cursor, which starts at the first instruction. */
  function FindFirst(body: seq<Instr>, p: Pattern): (r: Option<nat>)
    ensures r.Some? ==> MatchesAt(body, p, r.value)
    ensures r.Some? ==> forall j :: 0 <= j < r.value ==> !MatchesAt(body, p, j)
    ensures r.None? ==> forall j: nat :: !MatchesAt(body, p, j)
  {
    FindFrom(body, p, 0)
  }

  /** The cursor edit at `at`: `RemoveRange(removeCount)` then emitting `ins`
      at the same position. */
  function Splice(body: seq<Instr>, at: nat, removeCount: nat, ins: seq<Instr>): (r: seq<Instr>)
    requires at + removeCount <= |body|
    ensures |r| == |body| - removeCount + |ins|
    ensures forall k :: 0 <= k < at ==> r[k] == body[k]
    ensures forall k :: 0 <= k < |ins| ==> r[at + k] == ins[k]
    ensures forall k :: at + removeCount <= k < |body| ==> r[k - removeCount + |ins|] == body[k]
  {
    body[..at] + ins + body[at + removeCount..]
  }

  /** Splicing the removed range back over the inserted one restores the body. */
  lemma SpliceUndo(body: seq<Instr>, at: nat, removeCount: nat, ins: seq<Instr>)
    requires at + removeCount <= |body|
    ensures Splice(Splice(body, at, removeCount, ins), at, |ins|, body[at..at + removeCount]) == body
  {
    var once := Splice(body, at, removeCount, ins);
    assert once[..at] == body[..at];
    assert once[at + |ins|..] == body[at + removeCount..];
  }
}
