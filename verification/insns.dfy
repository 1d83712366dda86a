/** Instruction nodes and instruction sequences (cmd_ir/core.py,
    `InstructionSeq` and `Preamble`; the instruction classes of
    cmd_ir/instructions/func_prop.py and cmd_ir/instructions/events.py).

    The instruction set is a closed tagged type. What the core asks of an
    instruction (preamble safety, inline copyability, terminator semantics,
    its name, the entities it refers to) is a per-variant table. Variants
    whose classes are not part of this model (branches, returns, stack
    frames, deferred callbacks) carry only what the core needs of them;
    every other instruction is a `Generic` node with its flags spelled out. */
module Insns {
  import opened Common

  /** Only `i32` and `q10` matter to the core (literal arguments); every
      other variable type is carried by name. */
  datatype VarType = I32 | Q10 | OtherType(name: string)

  datatype PassMode = ByVal | ByRef

  datatype Param = Param(ty: VarType, mode: PassMode)

  /** An argument slot: a reference to an entity or a literal. */
  datatype Operand = Ref(h: Handle) | IntLit(n: int) | FloatLit | Text(s: string)

  datatype Insn =
    | Branch(target: Handle)
    | Return
    | PushNewStackFrame(types: seq<VarType>)
    | PopStack
    | RunDeferredCallback
    | RevokeEventAdvancement(func: Handle)
    | ExternInsn
    | PureInsn
    | InlineInsn
    | RunCallbackOnExit
    | CreateEvent(eventName: string)
    | AddEventCondition(event: Handle, path: string, value: string)
    | EventHandler(handler: Handle, event: Handle)
    | SetupInsn(func: Handle)
    | Generic(name: string, operands: seq<Operand>, preambleSafe: bool, copyable: bool, terminator: bool)

  /** The function-trait markers of func_prop.py. */
  predicate IsTraitMarker(i: Insn) {
    i.ExternInsn? || i.PureInsn? || i.InlineInsn? || i.RunCallbackOnExit?
  }

  /** `preamble_safe`: the preamble-only instructions may sit in a preamble;
      control flow and stack-frame instructions may not. */
  predicate PreambleSafe(i: Insn) {
    match i
    case Branch(_) => false
    case Return => false
    case PushNewStackFrame(_) => false
    case PopStack => false
    case RunDeferredCallback => false
    case RevokeEventAdvancement(_) => false
    case Generic(_, _, safe, _, _) => safe
    case _ => true
  }

  /** `inline_copyable`: the trait markers describe the function that holds
      them and are not copied into a function they are inlined into. */
  predicate InlineCopyable(i: Insn) {
    match i
    case Generic(_, _, _, copyable, _) => copyable
    case _ => !IsTraitMarker(i)
  }

  /** `terminator()`: whether a block ends with this instruction. */
  predicate Terminator(i: Insn) {
    match i
    case Branch(_) => true
    case Return => true
    case Generic(_, _, _, _, t) => t
    case _ => false
  }

  /** `insn_name`, the default name hint when an instruction's result is bound. */
  function InsnName(i: Insn): string {
    match i
    case Branch(_) => "branch"
    case Return => "ret"
    case PushNewStackFrame(_) => "push_stack_frame"
    case PopStack => "pop_stack"
    case RunDeferredCallback => "run_deferred_callback"
    case RevokeEventAdvancement(_) => "revoke_event_adv"
    case ExternInsn => "extern"
    case PureInsn => "pure_func"
    case InlineInsn => "inline"
    case RunCallbackOnExit => "run_callback_on_exit"
    case CreateEvent(_) => "event"
    case AddEventCondition(_, _, _) => "add_event_condition"
    case EventHandler(_, _) => "event_handler"
    case SetupInsn(_) => "setupfn"
    case Generic(name, _, _, _, _) => name
  }

  /** The entities an instruction refers to, in argument order. */
  function Refs(i: Insn): seq<Handle> {
    match i
    case Branch(t) => [t]
    case RevokeEventAdvancement(f) => [f]
    case AddEventCondition(e, _, _) => [e]
    case EventHandler(h, e) => [h, e]
    case SetupInsn(f) => [f]
    case Generic(_, ops, _, _, _) => OperandRefs(ops)
    case _ => []
  }

  function OperandRefs(ops: seq<Operand>): seq<Handle> {
    if |ops| == 0 then []
    else (if ops[0].Ref? then [ops[0].h] else []) + OperandRefs(ops[1..])
  }

  // ---------------------------------------------------------------------
  // apply_mapping

  /** One argument slot under `apply_mapping(kind, m)`: a reference to an
      entity of the queried kind that the mapping knows is replaced. */
  function MapHandle(h: Handle, kind: set<Handle>, m: map<Handle, Handle>): Handle {
    if h in kind && h in m then m[h] else h
  }

  function MapOperands(ops: seq<Operand>, kind: set<Handle>, m: map<Handle, Handle>): (r: seq<Operand>)
    ensures |r| == |ops|
    ensures OperandRefs(r) == MapRefs(OperandRefs(ops), kind, m)
  {
    if |ops| == 0 then []
    else
      var o := ops[0];
      var o' := if o.Ref? then Ref(MapHandle(o.h, kind, m)) else o;
      assert ops == [o] + ops[1..];
      [o'] + MapOperands(ops[1..], kind, m)
  }

  function MapRefs(hs: seq<Handle>, kind: set<Handle>, m: map<Handle, Handle>): (r: seq<Handle>)
    ensures |r| == |hs|
    ensures forall j :: 0 <= j < |hs| ==> r[j] == MapHandle(hs[j], kind, m)
  {
    if |hs| == 0 then [] else [MapHandle(hs[0], kind, m)] + MapRefs(hs[1..], kind, m)
  }

  /** One instruction with every queried reference replaced. */
  function MapInsn(i: Insn, kind: set<Handle>, m: map<Handle, Handle>): (r: Insn)
    ensures Refs(r) == MapRefs(Refs(i), kind, m)
  {
    match i
    case Branch(t) => Branch(MapHandle(t, kind, m))
    case RevokeEventAdvancement(f) => RevokeEventAdvancement(MapHandle(f, kind, m))
    case AddEventCondition(e, p, v) => AddEventCondition(MapHandle(e, kind, m), p, v)
    case EventHandler(h, e) => EventHandler(MapHandle(h, kind, m), MapHandle(e, kind, m))
    case SetupInsn(f) => SetupInsn(MapHandle(f, kind, m))
    case Generic(n, ops, s, c, t) => Generic(n, MapOperands(ops, kind, m), s, c, t)
    case _ => assert Refs(i) == []; i
  }

  /** Remapping changes arguments only: the instruction keeps its name, and
      with it whether it is preamble-safe, inline-copyable or a terminator. */
  lemma MapInsnKeepsKind(i: Insn, kind: set<Handle>, m: map<Handle, Handle>)
    ensures var r := MapInsn(i, kind, m);
      && PreambleSafe(r) == PreambleSafe(i) && InlineCopyable(r) == InlineCopyable(i)
      && Terminator(r) == Terminator(i) && InsnName(r) == InsnName(i)
  {
  }

  /** `apply_mapping`: every instruction of the sequence, in place. */
  function ApplyMapping(s: seq<Insn>, kind: set<Handle>, m: map<Handle, Handle>): (r: seq<Insn>)
    ensures |r| == |s|
    ensures forall i :: 0 <= i < |s| ==> r[i] == MapInsn(s[i], kind, m)
  {
    seq(|s|, i requires 0 <= i < |s| => MapInsn(s[i], kind, m))
  }

  /** No instruction of `s` refers to any handle of `hs`. */
  predicate NoRefsTo(s: seq<Insn>, hs: set<Handle>) {
    forall i, j :: 0 <= i < |s| && 0 <= j < |Refs(s[i])| ==> Refs(s[i])[j] !in hs
  }

  /** A mapping whose targets are not themselves remapped leaves no reference
      to a remapped entity behind: after the linker's rewrite no instruction
      still names a resolved extern stub. */
  lemma MappingClearsDomain(s: seq<Insn>, kind: set<Handle>, m: map<Handle, Handle>)
    requires forall h :: h in m && h in kind ==> m[h] !in m || m[h] !in kind
    ensures NoRefsTo(ApplyMapping(s, kind, m), m.Keys * kind)
  {
    var r := ApplyMapping(s, kind, m);
    forall i, j | 0 <= i < |r| && 0 <= j < |Refs(r[i])|
      ensures Refs(r[i])[j] !in m.Keys * kind
    {
      assert Refs(r[i]) == MapRefs(Refs(s[i]), kind, m);
    }
  }

  /** A mapping that touches none of the queried entities changes nothing. */
  lemma MappingIdentity(s: seq<Insn>, kind: set<Handle>, m: map<Handle, Handle>)
    requires m.Keys * kind == {}
    ensures ApplyMapping(s, kind, m) == s
  {
    forall i | 0 <= i < |s| ensures MapInsn(s[i], kind, m) == s[i] {
      MapInsnIdentity(s[i], kind, m);
    }
  }

  lemma MapHandleIdentity(kind: set<Handle>, m: map<Handle, Handle>)
    requires m.Keys * kind == {}
    ensures forall h :: MapHandle(h, kind, m) == h
  {
    forall h ensures MapHandle(h, kind, m) == h {
      assert h in m && h in kind ==> h in m.Keys * kind;
    }
  }

  lemma MapInsnIdentity(i: Insn, kind: set<Handle>, m: map<Handle, Handle>)
    requires m.Keys * kind == {}
    ensures MapInsn(i, kind, m) == i
  {
    MapHandleIdentity(kind, m);
    if i.Generic? {
      MapOperandsIdentity(i.operands, kind, m);
    }
  }

  lemma {:induction false} MapOperandsIdentity(ops: seq<Operand>, kind: set<Handle>, m: map<Handle, Handle>)
    requires m.Keys * kind == {}
    ensures MapOperands(ops, kind, m) == ops
  {
    if |ops| > 0 {
      MapOperandsIdentity(ops[1..], kind, m);
      MapHandleIdentity(kind, m);
      assert ops == [ops[0]] + ops[1..];
    }
  }

  // ---------------------------------------------------------------------
  // transform

  /** What a transform callback answers for one instruction: `None` in the
      source drops it, a single instruction replaces it, a list expands it. */
  datatype Rewritten = Drop | One(insn: Insn) | Many(insns: seq<Insn>)

  function Spliced(w: Rewritten): seq<Insn> {
    match w
    case Drop => []
    case One(i) => [i]
    case Many(more) => more
  }

  /** Reference definition: the in-order concatenation of what every
      instruction was rewritten to. */
  function Rewrite(s: seq<Insn>, f: Insn -> Rewritten): seq<Insn> {
    if |s| == 0 then [] else Rewrite(s[..|s| - 1], f) + Spliced(f(s[|s| - 1]))
  }

  /** An answer counts as a change unless it is the instruction itself; a
      list never compares equal to an instruction, even a one-element list.
      The comparison is structural. `insn != new_insn` in cmd_ir/core.py is
      an identity test unless the instruction classes define `__eq__`, and
      those classes are not part of this model, so the model assumes that an
      answer equal to the instruction is the instruction itself. */
  predicate Changes(f: Insn -> Rewritten, i: Insn) {
    f(i) != One(i)
  }

  /** `transform(func)`, the loop the core runs: rebuild the list and note
      whether any answer differed from its instruction. */
  method Transform(s: seq<Insn>, f: Insn -> Rewritten) returns (r: seq<Insn>, changed: bool)
    ensures r == Rewrite(s, f)
    ensures changed <==> exists i :: 0 <= i < |s| && Changes(f, s[i])
    ensures !changed ==> r == s
  {
    r := [];
    changed := false;
    var i := 0;
    while i < |s|
      invariant 0 <= i <= |s|
      invariant r == Rewrite(s[..i], f)
      invariant changed <==> exists j :: 0 <= j < i && Changes(f, s[j])
      invariant !changed ==> r == s[..i]
    {
      var answer := f(s[i]);
      if !changed && answer != One(s[i]) {
        changed := true;
      }
      assert s[..i + 1][..i] == s[..i];
      r := r + Spliced(answer);
      i := i + 1;
    }
    assert s[..i] == s;
  }

  /** Rewriting distributes over concatenation, so a transform can be run
      block by block or over a whole function body with the same result. */
  lemma {:induction false} RewriteAppend(a: seq<Insn>, b: seq<Insn>, f: Insn -> Rewritten)
    ensures Rewrite(a + b, f) == Rewrite(a, f) + Rewrite(b, f)
  {
    if |b| > 0 {
      assert (a + b)[..|a + b| - 1] == a + b[..|b| - 1];
      RewriteAppend(a, b[..|b| - 1], f);
    } else {
      assert a + b == a;
    }
  }

  /** The identity callback changes nothing. */
  lemma {:induction false} RewriteIdentity(s: seq<Insn>)
    ensures Rewrite(s, i => One(i)) == s
  {
    if |s| > 0 {
      RewriteIdentity(s[..|s| - 1]);
      assert s == s[..|s| - 1] + [s[|s| - 1]];
    }
  }

  // ---------------------------------------------------------------------
  // Copying a sequence while inlining

  /** `_inline_seq`'s filter: only inline-copyable instructions are copied,
      each with the inlining substitution applied to its references. */
  function InlineCopy(s: seq<Insn>, m: map<Handle, Handle>): (r: seq<Insn>)
    ensures |r| <= |s|
    ensures forall k :: 0 <= k < |r| ==> InlineCopyable(r[k])
  {
    if |s| == 0 then []
    else
      var rest := InlineCopy(s[1..], m);
      if InlineCopyable(s[0]) then [MapInsn(s[0], m.Keys, m)] + rest else rest
  }

  /** No function-trait marker survives inlining. */
  lemma InlineDropsTraitMarkers(s: seq<Insn>, m: map<Handle, Handle>)
    ensures forall k :: 0 <= k < |InlineCopy(s, m)| ==> !IsTraitMarker(InlineCopy(s, m)[k])
  {
  }

  /** Copying distributes over concatenation ... */
  lemma {:induction false} InlineCopyAppend(a: seq<Insn>, b: seq<Insn>, m: map<Handle, Handle>)
    ensures InlineCopy(a + b, m) == InlineCopy(a, m) + InlineCopy(b, m)
  {
    if |a| > 0 {
      assert (a + b)[1..] == a[1..] + b;
      InlineCopyAppend(a[1..], b, m);
    } else {
      assert a + b == b;
    }
  }

  /** ... and loses nothing but the instructions that are not copyable. */
  lemma {:induction false} InlineCopyAllCopyable(s: seq<Insn>, m: map<Handle, Handle>)
    requires forall k :: 0 <= k < |s| ==> InlineCopyable(s[k])
    ensures InlineCopy(s, m) == ApplyMapping(s, m.Keys, m)
  {
    if |s| > 0 {
      var tail := s[1..];
      assert forall k :: 0 <= k < |tail| ==> tail[k] == s[k + 1];
      InlineCopyAllCopyable(tail, m);
      var t := ApplyMapping(s, m.Keys, m);
      var u := [MapInsn(s[0], m.Keys, m)] + ApplyMapping(tail, m.Keys, m);
      assert |t| == |u|;
      forall k | 0 <= k < |t| ensures t[k] == u[k] {
        if k > 0 {
          assert u[k] == ApplyMapping(tail, m.Keys, m)[k - 1];
        }
      }
      assert t == u;
    }
  }
}
