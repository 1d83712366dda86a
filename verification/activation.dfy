/** Instruction sequences (cmd_ir/core.py, `InstructionSeq`, `Preamble`,
    `BasicBlock.validate_insn`) and the activation hooks of the function
    properties and events instructions (cmd_ir/instructions/func_prop.py,
    cmd_ir/instructions/events.py).

    Adding an instruction validates it against the sequence, runs its
    activation hook (which may touch other entities: the holding function's
    traits, a handler's entry block, a fresh event), appends it, and may
    bind the value the hook produced to a name in the holder's scope. */
module Activation {
  import opened Common
  import opened Insns
  import opened Scopes
  import opened Blocks
  import opened Ir
  import opened Functions

  /** Where an instruction sequence lives. */
  datatype SeqLoc =
    | UnitPreamble(unit: Handle)
    | FuncPreamble(func: Handle)
    | BlockBody(block: Handle)

  predicate ValidLoc(w: World, s: SeqLoc) {
    && (s.UnitPreamble? ==> IsUnit(w, s.unit))
    && (s.FuncPreamble? ==> IsFunc(w, s.func))
    && (s.BlockBody? ==> IsBlock(w, s.block))
  }

  predicate IsPreamble(s: SeqLoc) {
    s.UnitPreamble? || s.FuncPreamble?
  }

  /** `seq.holder`: the unit or function whose scope receives bindings. A
      block's holder is its function. */
  function Holder(w: World, s: SeqLoc): (h: Handle)
    requires WfWorld(w) && ValidLoc(w, s)
    ensures IsUnit(w, h) || IsFunc(w, h)
    ensures s.UnitPreamble? ==> h == s.unit
    ensures s.FuncPreamble? ==> h == s.func
    ensures s.BlockBody? ==> h == B(w, s.block).func
  {
    match s
    case UnitPreamble(u) => u
    case FuncPreamble(f) => f
    case BlockBody(b) => B(w, b).func
  }

  /** The instructions of a sequence. */
  function Body(w: World, s: SeqLoc): seq<Insn>
    requires ValidLoc(w, s)
  {
    match s
    case UnitPreamble(u) => U(w, u).preamble
    case FuncPreamble(f) => F(w, f).preamble
    case BlockBody(b) => B(w, b).insns
  }

  /** Replace the instructions of a sequence, nothing else. */
  function WithBody(w: World, s: SeqLoc, body: seq<Insn>): (r: World)
    requires WfWorld(w) && ValidLoc(w, s)
    ensures WfWorld(r) && Stable(w, r) && ValidLoc(r, s)
    ensures Body(r, s) == body
    ensures s.UnitPreamble? ==> r.arena == w.arena[s.unit := UnitEntity(U(w, s.unit).(preamble := body))]
    ensures s.FuncPreamble? ==> r.arena == w.arena[s.func := FuncEntity(F(w, s.func).(preamble := body))]
    ensures s.BlockBody? ==> r.arena == w.arena[s.block := BlockEntity(B(w, s.block).(insns := body))]
  {
    match s
    case UnitPreamble(u) => PutUnit(w, u, U(w, u).(preamble := body))
    case FuncPreamble(f) => PutFunc(w, f, F(w, f).(preamble := body))
    case BlockBody(b) => PutBlock(w, b, B(w, b).(insns := body))
  }

  /** Replacing the instructions keeps the holder and what its scope chain
      reads. */
  lemma WithBodyKeepsChain(w: World, s: SeqLoc, body: seq<Insn>)
    requires WfWorld(w) && ValidLoc(w, s)
    ensures Holder(WithBody(w, s, body), s) == Holder(w, s)
    ensures Chain(WithBody(w, s, body), Holder(w, s)) == Chain(w, Holder(w, s))
  {
    var r := WithBody(w, s, body);
    var h := Holder(w, s);
    if IsFunc(w, h) {
      assert F(w, h).unit != h;
      assert s.BlockBody? ==> s.block != h && s.block != F(w, h).unit;
    }
  }

  /** The instruction arguments the constructors of the event instructions
      insist on: a handler is a function, an event is an event, a setup
      function is a visible function. */
  predicate WellTyped(w: World, i: Insn) {
    match i
    case EventHandler(h, ev) => IsFunc(w, h) && IsEvent(w, ev)
    case SetupInsn(f) => IsVisible(w, f)
    case _ => true
  }

  lemma WellTypedStable(w: World, w2: World, i: Insn)
    requires Stable(w, w2) && WellTyped(w, i)
    ensures WellTyped(w2, i)
  {
    match i
    case EventHandler(h, ev) =>
      assert SameLinks(w.arena[h], w2.arena[h]);
      assert SameLinks(w.arena[ev], w2.arena[ev]);
    case SetupInsn(f) =>
      assert SameLinks(w.arena[f], w2.arena[f]);
    case _ =>
  }

  // ---------------------------------------------------------------------
  // validate_insn

  /** `validate_insn` of the sequence: a preamble refuses an instruction
      that is not preamble-safe, a block applies its termination rule and
      turns `Return` into a branch to its function's exit block. */
  function ValidateIn(w: World, s: SeqLoc, i: Insn): (r: Result<Insn>)
    requires WfWorld(w) && ValidLoc(w, s)
    ensures IsPreamble(s) ==> (r.Ok? <==> PreambleSafe(i))
    ensures IsPreamble(s) && r.Ok? ==> r.value == i
    ensures IsPreamble(s) && r.Err? ==> r.error == NotPreambleSafe
    ensures s.BlockBody? ==> (r.Err? <==> Sealed(B(w, s.block)))
    ensures s.BlockBody? && r.Err? ==> r.error == BlockTerminated
    ensures s.BlockBody? && r.Ok? ==> r.value == Stored(F(w, B(w, s.block).func).exit, i)
  {
    match s
    case BlockBody(b) => Validate(B(w, b), F(w, B(w, b).func).exit, i)
    case _ => if PreambleSafe(i) then Ok(i) else Err(NotPreambleSafe)
  }

  // ---------------------------------------------------------------------
  // activate

  /** The two events that need no advancement revoke. */
  predicate SelfRearming(name: string) {
    name == "minecraft:tick" || name == "minecraft:load"
  }

  /** `IRFunction.add_advancement_revoke`: append a revoke of the handler's
      own advancement to its entry block. */
  function AddRevoke(w: World, h: Handle): (r: Result<World>)
    requires WfWorld(w) && IsFunc(w, h)
    ensures var e := F(w, h).entry;
      && (r.Err? <==> Sealed(B(w, e)))
      && (r.Err? ==> r.error == BlockTerminated)
      && (r.Ok? ==>
            WfWorld(r.value) && Stable(w, r.value)
            && r.value.arena == w.arena[e := BlockEntity(B(w, e).(insns := B(w, e).insns + [RevokeEventAdvancement(h)]))])
  {
    var e := F(w, h).entry;
    var b :- Append(B(w, e), F(w, h).exit, RevokeEventAdvancement(h));
    Ok(PutBlock(w, e, b))
  }

  /** `insn.activate(seq)`: the hooks of the function-property and event
      instructions; every other instruction activates to nothing. The
      trait markers set a trait of the sequence's holder, which must be a
      function (a unit has no traits). The second component is the value
      the activation produced, if any. */
  function Activate(w: World, s: SeqLoc, i: Insn): (r: Result<(World, Option<Handle>)>)
    requires WfWorld(w) && ValidLoc(w, s) && WellTyped(w, i)
    ensures r.Ok? ==> WfWorld(r.value.0) && Stable(w, r.value.0)
    ensures r.Ok? && r.value.1.Some? ==> i.CreateEvent?
    ensures IsTraitMarker(i) ==> (r.Err? <==> IsUnit(w, Holder(w, s)))
    ensures IsTraitMarker(i) && r.Err? ==> r.error == NoTraitHolder
    ensures !IsTraitMarker(i) && !i.EventHandler? ==> r.Ok?
    ensures !IsTraitMarker(i) && !i.EventHandler? && !i.CreateEvent? ==> r == Ok((w, None))
  {
    match i
    case ExternInsn => SetTrait(w, s, i)
    case PureInsn => SetTrait(w, s, i)
    case InlineInsn => SetTrait(w, s, i)
    case RunCallbackOnExit => SetTrait(w, s, i)
    case EventHandler(h, ev) =>
      if SelfRearming(EventName(w, ev)) then Ok((w, None))
      else
        var r :- AddRevoke(w, h);
        Ok((r, None))
    case CreateEvent(name) =>
      var a := Alloc(w, EventEntity(name));
      Ok((a.0, Some(a.1)))
    case _ => Ok((w, None))
  }

  function EventName(w: World, ev: Handle): string
    requires IsEvent(w, ev)
  {
    w.arena[ev].eventName
  }

  /** The func_prop.py hooks: `set_extern(True)`, `set_pure()`,
      `set_inline()`, and queueing a `RunDeferredCallback` after the exit. */
  function SetTrait(w: World, s: SeqLoc, i: Insn): (r: Result<(World, Option<Handle>)>)
    requires WfWorld(w) && ValidLoc(w, s) && IsTraitMarker(i)
    ensures r.Err? <==> IsUnit(w, Holder(w, s))
    ensures r.Err? ==> r.error == NoTraitHolder
    ensures r.Ok? ==> WfWorld(r.value.0) && Stable(w, r.value.0) && r.value.1.None?
  {
    var h := Holder(w, s);
    if IsUnit(w, h) then Err(NoTraitHolder)
    else
      Ok((PutFunc(w, h, Marked(F(w, h), i)), None))
  }

  /** The function record with the trait a marker sets. */
  function Marked(f: Func, i: Insn): Func
    requires IsTraitMarker(i)
  {
    if i.ExternInsn? then f.(isExtern := true)
    else if i.PureInsn? then f.(isPure := true)
    else if i.InlineInsn? then f.(isInline := true)
    else f.(postExit := f.postExit + [RunDeferredCallback])
  }

  /** Each trait marker changes exactly one field of the holding function
      and nothing else in the world. */
  lemma TraitMarkersSetTraits(w: World, s: SeqLoc, i: Insn)
    requires WfWorld(w) && ValidLoc(w, s) && IsTraitMarker(i) && IsFunc(w, Holder(w, s))
    ensures var h := Holder(w, s);
      var f := F(w, h);
      var r := Activate(w, s, i);
      && r.Ok? && r.value.1 == None
      && (i.ExternInsn? ==> r.value.0.arena == w.arena[h := FuncEntity(f.(isExtern := true))])
      && (i.PureInsn? ==> r.value.0.arena == w.arena[h := FuncEntity(f.(isPure := true))])
      && (i.InlineInsn? ==> r.value.0.arena == w.arena[h := FuncEntity(f.(isInline := true))])
      && (i.RunCallbackOnExit? ==>
            r.value.0.arena == w.arena[h := FuncEntity(f.(postExit := f.postExit + [RunDeferredCallback]))])
  {
  }

  /** An event handler's activation adds a revoke to the handler's entry
      block exactly when the event is neither `minecraft:tick` nor
      `minecraft:load`; it fails only when that block is sealed. */
  lemma EventHandlerRevokes(w: World, s: SeqLoc, h: Handle, ev: Handle)
    requires WfWorld(w) && ValidLoc(w, s) && IsFunc(w, h) && IsEvent(w, ev)
    ensures var e := F(w, h).entry;
      var r := Activate(w, s, EventHandler(h, ev));
      && (r.Err? <==> !SelfRearming(EventName(w, ev)) && Sealed(B(w, e)))
      && (r.Ok? ==> r.value.1 == None)
      && (r.Ok? && SelfRearming(EventName(w, ev)) ==> r.value.0 == w)
      && (r.Ok? && !SelfRearming(EventName(w, ev)) ==>
            r.value.0.arena == w.arena[e := BlockEntity(B(w, e).(insns := B(w, e).insns + [RevokeEventAdvancement(h)]))])
  {
  }

  /** `CreateEvent.construct`: a fresh event entity carrying the name. */
  lemma CreateEventNames(w: World, s: SeqLoc, name: string)
    requires WfWorld(w) && ValidLoc(w, s)
    ensures var r := Activate(w, s, CreateEvent(name));
      && r.Ok? && r.value.1.Some?
      && var h := r.value.1.value;
      && h !in w.arena
      && IsEvent(r.value.0, h) && EventName(r.value.0, h) == name
      && r.value.0.arena == w.arena[h := EventEntity(name)]
  {
  }

  // ---------------------------------------------------------------------
  // add

  /** The `with_name` argument of `add`: no binding, a given name, or a
      fresh name from a hint (`True` with `namehint`). An empty given name
      is falsy and binds nothing; an empty hint falls back to the
      instruction's name. */
  datatype Binding = NoName | Named(name: string) | Fresh(hint: string)

  predicate Binds(b: Binding) {
    b.Fresh? || (b.Named? && b.name != "")
  }

  /** The name a binding chooses in chain `c` for instruction `i`. */
  function BoundName(c: seq<Level>, b: Binding, i: Insn): string
    requires Binds(b)
  {
    if b.Named? then b.name
    else FreshName(c, if b.hint != "" then b.hint else InsnName(i))
  }

  /** `InstructionSeq.add`: validate, activate, append, then bind the
      activation's value under a name in the holder's scope. Binding
      without a value fails, as does binding a name the holder's own level
      already has. */
  function Add(w: World, s: SeqLoc, i: Insn, bind: Binding): (r: Result<(World, Option<Handle>)>)
    requires WfWorld(w) && ValidLoc(w, s) && WellTyped(w, i)
    ensures IsPreamble(s) && !PreambleSafe(i) ==> r == Err(NotPreambleSafe)
    ensures s.BlockBody? && Sealed(B(w, s.block)) ==> r == Err(BlockTerminated)
    ensures r.Ok? ==> WfWorld(r.value.0) && Stable(w, r.value.0) && ValidLoc(r.value.0, s)
    ensures r.Ok? ==> (r.value.1.Some? <==> Binds(bind))
    ensures r.Ok? ==> ValidateIn(w, s, i).Ok? && Activate(w, s, ValidateIn(w, s, i).value).Ok?
    ensures r.Ok? ==> var i' := ValidateIn(w, s, i).value;
      var a := Activate(w, s, i').value;
      && Body(r.value.0, s) == Body(a.0, s) + [i']
      && (Binds(bind) ==> r.value.1 == a.1)
  {
    var i' :- ValidateIn(w, s, i);
    WellTypedValidated(w, s, i);
    var a :- Activate(w, s, i');
    var w1 := WithBody(a.0, s, Body(a.0, s) + [i']);
    StableTrans(w, a.0, w1);
    var r := BindResult(w1, s, i', bind, a.1);
    if r.Ok? then StableTrans(w, w1, r.value.0); r else r
  }

  /** The binding half of `add`, once the instruction is appended: bind
      the activation's value `v` in the holder's scope, or fail. */
  function BindResult(w: World, s: SeqLoc, i: Insn, bind: Binding, v: Option<Handle>): (r: Result<(World, Option<Handle>)>)
    requires WfWorld(w) && ValidLoc(w, s)
    ensures !Binds(bind) ==> r == Ok((w, None))
    ensures Binds(bind) && v.None? ==> r == Err(NothingToBind)
    ensures r.Ok? ==> WfWorld(r.value.0) && Stable(w, r.value.0) && ValidLoc(r.value.0, s)
    ensures r.Ok? ==> Body(r.value.0, s) == Body(w, s) && (Binds(bind) ==> r.value.1 == v)
    ensures Binds(bind) && v.Some? ==>
      var c := Chain(w, Holder(w, s));
      var name := BoundName(c, bind, i);
      && (r.Err? <==> name in c[0].fwd)
      && (r.Err? ==> r.error == DuplicateDefinition(name))
      && (r.Ok? ==> Chain(r.value.0, Holder(w, s)) == SetLocal(c, name, v.value))
  {
    if !Binds(bind) then Ok((w, None))
    else if v.None? then Err(NothingToBind)
    else
      var holder := Holder(w, s);
      var name := BoundName(Chain(w, holder), bind, i);
      var w2 :- StoreIn(w, holder, name, v.value);
      StoreKeepsBodies(w, holder, name, v.value, s);
      Ok((w2, v))
  }

  lemma WellTypedValidated(w: World, s: SeqLoc, i: Insn)
    requires WfWorld(w) && ValidLoc(w, s) && WellTyped(w, i) && ValidateIn(w, s, i).Ok?
    ensures WellTyped(w, ValidateIn(w, s, i).value)
  {
  }

  /** A store writes the holder's scope only. */
  lemma StoreKeepsBodies(w: World, holder: Handle, name: string, v: Handle, s: SeqLoc)
    requires WfWorld(w) && (IsUnit(w, holder) || IsFunc(w, holder)) && ValidLoc(w, s)
    requires StoreIn(w, holder, name, v).Ok?
    ensures ValidLoc(StoreIn(w, holder, name, v).value, s)
    ensures Body(StoreIn(w, holder, name, v).value, s) == Body(w, s)
  {
    var r := StoreIn(w, holder, name, v).value;
    assert SetIn(w, holder, name, v) == r;
    var l := Set(Chain(w, holder)[0], name, v);
    assert r == WithLevel(w, holder, l);
  }

  /** `define(insn)`: add and bind under a fresh name from the instruction's
      own name. */
  function Define(w: World, s: SeqLoc, i: Insn): (r: Result<(World, Option<Handle>)>)
    requires WfWorld(w) && ValidLoc(w, s) && WellTyped(w, i)
    ensures r.Ok? ==> WfWorld(r.value.0) && Stable(w, r.value.0) && r.value.1.Some?
    ensures r.Ok? ==> i.CreateEvent?
  {
    var r := Add(w, s, i, Fresh(""));
    assert r.Ok? ==> r.value.1.Some? && ValidateIn(w, s, i).Ok? && Activate(w, s, ValidateIn(w, s, i).value).Ok?;
    r
  }

  /** Activation writes no scope and no preamble; only an event handler's
      revoke touches a block. */
  lemma ActivateFrame(w: World, s: SeqLoc, i: Insn)
    requires WfWorld(w) && ValidLoc(w, s) && WellTyped(w, i) && Activate(w, s, i).Ok?
    ensures var a := Activate(w, s, i).value.0;
      && ValidLoc(a, s)
      && Holder(a, s) == Holder(w, s)
      && Chain(a, Holder(w, s)) == Chain(w, Holder(w, s))
      && (IsPreamble(s) || !i.EventHandler? ==> Body(a, s) == Body(w, s))
  {
    var a := Activate(w, s, i).value.0;
    var h := Holder(w, s);
    assert IsFunc(w, h) ==> F(w, h).unit != h;
    if IsTraitMarker(i) {
      assert a == PutFunc(w, h, Marked(F(w, h), i));
    } else if i.EventHandler? && !SelfRearming(EventName(w, i.event)) {
      var e := F(w, i.handler).entry;
      assert a.arena == w.arena[e := a.arena[e]];
      assert IsBlock(w, e);
    }
  }

  /** After a binding `add`, the chosen name reads back as the produced
      value and the value as the name. A fresh name was bound nowhere in
      the holder's chain before; a given name fails exactly when the
      holder's own level already has it. */
  lemma AddBinds(w: World, s: SeqLoc, i: Insn, bind: Binding)
    requires WfWorld(w) && ValidLoc(w, s) && WellTyped(w, i) && Binds(bind)
    requires ValidateIn(w, s, i).Ok? && Activate(w, s, ValidateIn(w, s, i).value).Ok?
    requires Activate(w, s, ValidateIn(w, s, i).value).value.1.Some?
    ensures var i' := ValidateIn(w, s, i).value;
      var v := Activate(w, s, i').value.1.value;
      var c := Chain(w, Holder(w, s));
      var name := BoundName(c, bind, i');
      var r := Add(w, s, i, bind);
      && (r.Err? <==> name in c[0].fwd)
      && (r.Err? ==> r.error == DuplicateDefinition(name))
      && (bind.Fresh? ==> !Contains(c, name) && r.Ok?)
      && (r.Ok? ==>
            r.value.1 == Some(v)
            && Get(Chain(r.value.0, Holder(w, s)), name) == Ok(v)
            && ForValue(Chain(r.value.0, Holder(w, s)), v, true) == Ok(name))
  {
    var i' := ValidateIn(w, s, i).value;
    WellTypedValidated(w, s, i);
    var a := Activate(w, s, i').value;
    ActivateFrame(w, s, i');
    var w1 := WithBody(a.0, s, Body(a.0, s) + [i']);
    WithBodyKeepsChain(a.0, s, Body(a.0, s) + [i']);
    var holder := Holder(w, s);
    var c := Chain(w, holder);
    assert Chain(w1, holder) == c;
    var name := BoundName(c, bind, i');
    if name !in c[0].fwd {
      StoreThenLookup(c, name, a.1.value);
    }
  }

  /** A preamble holds only preamble-safe instructions, whatever is added. */
  lemma AddKeepsPreambleSafe(w: World, s: SeqLoc, i: Insn, bind: Binding)
    requires WfWorld(w) && ValidLoc(w, s) && WellTyped(w, i) && IsPreamble(s)
    requires forall k :: 0 <= k < |Body(w, s)| ==> PreambleSafe(Body(w, s)[k])
    requires Add(w, s, i, bind).Ok?
    ensures var r := Add(w, s, i, bind).value.0;
      ValidLoc(r, s) && Body(r, s) == Body(w, s) + [i]
    ensures var r := Add(w, s, i, bind).value.0;
      forall k :: 0 <= k < |Body(r, s)| ==> PreambleSafe(Body(r, s)[k])
  {
    ActivateFrame(w, s, i);
  }

  /** Appending to a block: everything but an event handler lands at the
      end of the block as the block stores it, a `Return` as a branch to
      the function's exit. */
  lemma AddToBlock(w: World, b: Handle, i: Insn, bind: Binding)
    requires WfWorld(w) && IsBlock(w, b) && WellTyped(w, i) && !i.EventHandler?
    requires Add(w, BlockBody(b), i, bind).Ok?
    ensures var r := Add(w, BlockBody(b), i, bind).value.0;
      && IsBlock(r, b)
      && B(r, b).insns == B(w, b).insns + [Stored(F(w, B(w, b).func).exit, i)]
  {
    var i' := ValidateIn(w, BlockBody(b), i).value;
    ActivateFrame(w, BlockBody(b), i');
  }

  // ---------------------------------------------------------------------
  // declare and apply of the event instructions

  /** The function an event handler or setup instruction names. */
  function Target(i: Insn): Handle
    requires i.EventHandler? || i.SetupInsn?
  {
    if i.EventHandler? then i.handler else i.func
  }

  /** `declare()`: an event handler or setup instruction counts as a use of
      the function it names (an extern stub ignores it); other instructions
      declare nothing. */
  function Declare(w: World, i: Insn): (r: Result<World>)
    requires WfWorld(w) && WellTyped(w, i)
    ensures !i.EventHandler? && !i.SetupInsn? ==> r == Ok(w)
    ensures r.Ok? ==> WfWorld(r.value) && Stable(w, r.value)
    ensures (i.EventHandler? || i.SetupInsn?) && IsExtern(w, Target(i)) ==> r == Ok(w)
    ensures (i.EventHandler? || i.SetupInsn?) && IsFunc(w, Target(i)) && r.Ok? ==>
      IsFunc(r.value, Target(i)) && F(r.value, Target(i)) == F(w, Target(i)).(use := F(w, Target(i)).use + 1)
  {
    if i.EventHandler? || i.SetupInsn? then Functions.Usage(w, Target(i)) else Ok(w)
  }

  /** A declared use succeeds exactly when the function has blocks to count
      it on. */
  lemma DeclareAccepts(w: World, i: Insn)
    requires WfWorld(w) && WellTyped(w, i) && (i.EventHandler? || i.SetupInsn?) && IsFunc(w, Target(i))
    ensures var f := Target(i);
      Declare(w, i).Ok? <==> |AllBlocks(w, f)| > 0 && (F(w, f).finalized || |UserBlocks(w, f)| > 0)
  {
  }

  /** The writer call `apply` makes for an event handler or a setup
      function. */
  datatype WriterCall = WriteEventHandler(handler: Handle, event: Handle) | WriteSetupFunction(func: Handle)

  /** `apply(out, top)` of an event handler or setup instruction: refused
      for an inline function, otherwise one writer call. */
  function ApplyEvent(w: World, i: Insn): (r: Result<WriterCall>)
    requires WellTyped(w, i) && (i.EventHandler? || i.SetupInsn?)
    ensures r.Err? <==> IsInlineFn(w, Target(i))
    ensures r.Err? ==> r.error == InlineHandler
    ensures r.Ok? && i.EventHandler? ==> r.value == WriteEventHandler(i.handler, i.event)
    ensures r.Ok? && i.SetupInsn? ==> r.value == WriteSetupFunction(i.func)
  {
    if IsInlineFn(w, Target(i)) then Err(InlineHandler)
    else if i.EventHandler? then Ok(WriteEventHandler(i.handler, i.event))
    else Ok(WriteSetupFunction(i.func))
  }

  /** Once a function's preamble marks it inline, applying an event
      handler or setup instruction for it is refused. */
  lemma ApplyEventInline(w: World, s: SeqLoc, i: Insn)
    requires WfWorld(w) && ValidLoc(w, s) && WellTyped(w, i) && (i.EventHandler? || i.SetupInsn?)
    requires IsFunc(w, Holder(w, s)) && Holder(w, s) == Target(i)
    ensures var a := Activate(w, s, InlineInsn).value.0;
      WellTyped(a, i) && ApplyEvent(a, i) == Err(InlineHandler)
  {
    TraitMarkersSetTraits(w, s, InlineInsn);
    WellTypedStable(w, Activate(w, s, InlineInsn).value.0, i);
  }
}
