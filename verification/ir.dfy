/** The IR's entities and the arena that holds them (cmd_ir/core.py,
    `TopLevel`, `IRFunction`, `ExternFunction`, and the variables the
    finalization pipeline lays out).

    Every entity sits in an arena under an integer handle; instructions,
    scopes and functions refer to each other through handles, so "the same
    object" is "the same handle". A function's scope is chained to the scope
    of the unit it belongs to through the unit's handle. */
module Ir {
  import opened Common
  import opened Insns
  import opened Scopes
  import opened Blocks

  /** A stack slot a parameter or return variable is redirected to
      (`set_proxy(LocalStackVariable(type, offset))`, then
      `realign_frame(shift)`). */
  datatype Slot = Slot(offset: nat, frameShift: nat)

  /** The kinds of variable the core distinguishes. A local whose storage is
      a frame slot carries the slot's offset. */
  datatype VarKind =
    | ParamVar(mode: PassMode)
    | ReturnVar
    | LocalVar(stackOffset: Option<nat>)
    | OtherVar

  datatype Variable = Variable(ty: VarType, kind: VarKind, proxy: Option<Slot>)

  datatype Func = Func(
    name: string,
    unit: Handle,
    scope: Level,
    preamble: seq<Insn>,
    entry: Handle,
    exit: Handle,
    postExit: seq<Insn>,
    finished: bool,
    finalized: bool,
    isExtern: bool,
    isPure: bool,
    isInline: bool,
    params: seq<Param>,
    results: seq<VarType>,
    pending: seq<Handle>,
    use: nat)

  /** A stand-in for a function defined in another unit: a global name and
      a signature. */
  datatype Extern = Extern(gname: string, params: seq<Param>, results: seq<VarType>)

  /** A compilation unit (`TopLevel`). Pragma values are opaque strings. */
  datatype Unit = Unit(scope: Level, preamble: seq<Insn>, finished: bool, pragmas: seq<(string, string)>)

  datatype Entity =
    | FuncEntity(f: Func)
    | ExternEntity(x: Extern)
    | BlockEntity(b: Block)
    | VarEntity(v: Variable)
    | EventEntity(eventName: string)
    | UnitEntity(u: Unit)
    | PlainEntity(tag: string)

  datatype World = World(arena: map<Handle, Entity>, next: Handle)

  // ---------------------------------------------------------------------
  // Kinds and accessors

  predicate IsFunc(w: World, h: Handle) { h in w.arena && w.arena[h].FuncEntity? }
  predicate IsExtern(w: World, h: Handle) { h in w.arena && w.arena[h].ExternEntity? }
  predicate IsBlock(w: World, h: Handle) { h in w.arena && w.arena[h].BlockEntity? }
  predicate IsVar(w: World, h: Handle) { h in w.arena && w.arena[h].VarEntity? }
  predicate IsEvent(w: World, h: Handle) { h in w.arena && w.arena[h].EventEntity? }
  predicate IsUnit(w: World, h: Handle) { h in w.arena && w.arena[h].UnitEntity? }

  /** `VisibleFunction`: a function or an extern stub. */
  predicate IsVisible(w: World, h: Handle) { IsFunc(w, h) || IsExtern(w, h) }

  function F(w: World, h: Handle): Func requires IsFunc(w, h) { w.arena[h].f }
  function X(w: World, h: Handle): Extern requires IsExtern(w, h) { w.arena[h].x }
  function B(w: World, h: Handle): Block requires IsBlock(w, h) { w.arena[h].b }
  function V(w: World, h: Handle): Variable requires IsVar(w, h) { w.arena[h].v }
  function U(w: World, h: Handle): Unit requires IsUnit(w, h) { w.arena[h].u }

  /** `finished` of a visible function: an extern stub always is. */
  function Finished(w: World, h: Handle): bool
    requires IsVisible(w, h)
  {
    if IsFunc(w, h) then F(w, h).finished else true
  }

  function ParamsOf(w: World, h: Handle): seq<Param>
    requires IsVisible(w, h)
  {
    if IsFunc(w, h) then F(w, h).params else X(w, h).params
  }

  function ReturnsOf(w: World, h: Handle): seq<VarType>
    requires IsVisible(w, h)
  {
    if IsFunc(w, h) then F(w, h).results else X(w, h).results
  }

  /** `is_inline` of a visible function: an extern stub never is. */
  function IsInlineFn(w: World, h: Handle): bool
    requires IsVisible(w, h)
  {
    IsFunc(w, h) && F(w, h).isInline
  }

  // ---------------------------------------------------------------------
  // Well-formedness

  /** The function `f` stored under `h` has two distinct super-blocks of its
      own as entry and exit, the entry flagged as such, and it belongs to a
      unit. */
  predicate FuncLinks(w: World, h: Handle, f: Func) {
    && IsBlock(w, f.entry) && B(w, f.entry).super && B(w, f.entry).isEntry && B(w, f.entry).func == h
    && IsBlock(w, f.exit) && B(w, f.exit).super && !B(w, f.exit).isEntry && B(w, f.exit).func == h
    && f.entry != f.exit
    && IsUnit(w, f.unit)
  }

  /** Handles below `next` are taken, every function is linked to its
      super-blocks and unit, every block to its function. The links of a
      function are brought in only where the function's record is read, so
      that following a block to its function and back stays finite. */
  ghost predicate WfWorld(w: World) {
    && (forall h :: h in w.arena ==> h < w.next)
    && (forall h {:trigger F(w, h)} :: IsFunc(w, h) ==> FuncLinks(w, h, F(w, h)))
    && (forall h :: IsBlock(w, h) ==> IsFunc(w, B(w, h).func))
  }

  /** What an update must keep of an entity: its kind, a function's entry
      and exit, a block's function and super-block flags. A function may
      move to another unit (the linker re-parents function scopes). */
  predicate SameLinks(a: Entity, b: Entity) {
    && a.FuncEntity? == b.FuncEntity?
    && a.ExternEntity? == b.ExternEntity?
    && a.BlockEntity? == b.BlockEntity?
    && a.VarEntity? == b.VarEntity?
    && a.EventEntity? == b.EventEntity?
    && a.UnitEntity? == b.UnitEntity?
    && (a.FuncEntity? && b.FuncEntity? ==>
          a.f.entry == b.f.entry && a.f.exit == b.f.exit)
    && (a.BlockEntity? && b.BlockEntity? ==>
          a.b.func == b.b.func && a.b.super == b.b.super && a.b.isEntry == b.b.isEntry)
  }

  /** `w2` has every entity of `w`, each with the same links. */
  ghost predicate Stable(w: World, w2: World) {
    && w.next <= w2.next
    && forall h :: h in w.arena ==> h in w2.arena && SameLinks(w.arena[h], w2.arena[h])
  }

  lemma StableTrans(w1: World, w2: World, w3: World)
    requires Stable(w1, w2) && Stable(w2, w3)
    ensures Stable(w1, w3)
  {
  }

  /** A function's links survive an update that keeps every entity's links. */
  lemma LinksCarryOver(w: World, r: World, h: Handle, f: Func, g: Func)
    requires FuncLinks(w, h, f)
    requires g.entry == f.entry && g.exit == f.exit && (g.unit == f.unit || IsUnit(w, g.unit))
    requires forall h :: h in w.arena ==> h in r.arena && SameLinks(w.arena[h], r.arena[h])
    ensures FuncLinks(r, h, g)
  {
    assert SameLinks(w.arena[f.entry], r.arena[f.entry]);
    assert SameLinks(w.arena[f.exit], r.arena[f.exit]);
    assert SameLinks(w.arena[g.unit], r.arena[g.unit]);
  }

  /** Replace an existing entity. */
  function Put(w: World, h: Handle, e: Entity): (r: World)
    requires h in w.arena
    ensures r.arena == w.arena[h := e] && r.next == w.next
  {
    w.(arena := w.arena[h := e])
  }

  lemma PutPreserves(w: World, h: Handle, e: Entity)
    requires WfWorld(w) && h in w.arena && SameLinks(w.arena[h], e)
    requires e.FuncEntity? ==> IsUnit(w, e.f.unit)
    ensures WfWorld(Put(w, h, e)) && Stable(w, Put(w, h, e))
  {
    var r := Put(w, h, e);
    forall g | g in w.arena ensures SameLinks(w.arena[g], r.arena[g]) {
    }
    forall g | IsFunc(r, g) ensures FuncLinks(r, g, F(r, g)) {
      assert IsFunc(w, g);
      LinksCarryOver(w, r, g, F(w, g), F(r, g));
    }
    forall g | IsBlock(r, g) ensures IsFunc(r, B(r, g).func) {
      assert IsBlock(w, g);
    }
  }

  function PutFunc(w: World, h: Handle, f: Func): (r: World)
    requires WfWorld(w) && IsFunc(w, h)
    requires f.entry == F(w, h).entry && f.exit == F(w, h).exit && IsUnit(w, f.unit)
    ensures WfWorld(r) && Stable(w, r)
    ensures IsFunc(r, h) && F(r, h) == f
    ensures r.arena == w.arena[h := FuncEntity(f)]
  {
    PutPreserves(w, h, FuncEntity(f));
    Put(w, h, FuncEntity(f))
  }

  function PutBlock(w: World, h: Handle, b: Block): (r: World)
    requires WfWorld(w) && IsBlock(w, h)
    requires b.func == B(w, h).func && b.super == B(w, h).super && b.isEntry == B(w, h).isEntry
    ensures WfWorld(r) && Stable(w, r)
    ensures IsBlock(r, h) && B(r, h) == b
    ensures r.arena == w.arena[h := BlockEntity(b)]
  {
    PutPreserves(w, h, BlockEntity(b));
    Put(w, h, BlockEntity(b))
  }

  function PutUnit(w: World, h: Handle, u: Unit): (r: World)
    requires WfWorld(w) && IsUnit(w, h)
    ensures WfWorld(r) && Stable(w, r)
    ensures IsUnit(r, h) && U(r, h) == u
    ensures r.arena == w.arena[h := UnitEntity(u)]
  {
    PutPreserves(w, h, UnitEntity(u));
    Put(w, h, UnitEntity(u))
  }

  /** An entity that links to nothing can be added under a fresh handle. */
  predicate Unlinked(e: Entity) {
    e.ExternEntity? || e.VarEntity? || e.EventEntity? || e.PlainEntity? || e.UnitEntity?
  }

  function Alloc(w: World, e: Entity): (r: (World, Handle))
    requires WfWorld(w) && Unlinked(e)
    ensures WfWorld(r.0) && Stable(w, r.0)
    ensures r.1 !in w.arena && r.1 == w.next && r.0.arena == w.arena[r.1 := e]
  {
    var h := w.next;
    var r := World(w.arena[h := e], h + 1);
    forall g | g in w.arena ensures g in r.arena && SameLinks(w.arena[g], r.arena[g]) {
    }
    forall g | IsFunc(r, g) ensures FuncLinks(r, g, F(r, g)) {
      assert IsFunc(w, g);
      LinksCarryOver(w, r, g, F(w, g), F(r, g));
    }
    forall g | IsBlock(r, g) ensures IsFunc(r, B(r, g).func) {
      assert IsBlock(w, g);
    }
    (r, h)
  }

  /** Add a block of an existing function under a fresh handle. */
  function AllocBlock(w: World, b: Block): (r: (World, Handle))
    requires WfWorld(w) && IsFunc(w, b.func)
    ensures WfWorld(r.0) && Stable(w, r.0)
    ensures r.1 !in w.arena && r.1 == w.next && r.0.arena == w.arena[r.1 := BlockEntity(b)]
  {
    var h := w.next;
    var r := World(w.arena[h := BlockEntity(b)], h + 1);
    forall g | g in w.arena ensures g in r.arena && SameLinks(w.arena[g], r.arena[g]) {
    }
    forall g | IsFunc(r, g) ensures FuncLinks(r, g, F(r, g)) {
      assert IsFunc(w, g);
      LinksCarryOver(w, r, g, F(w, g), F(r, g));
    }
    forall g | IsBlock(r, g) ensures IsFunc(r, B(r, g).func) {
      if g != h {
        assert IsBlock(w, g);
      }
    }
    (r, h)
  }

  function PutVar(w: World, h: Handle, v: Variable): (r: World)
    requires WfWorld(w) && IsVar(w, h)
    ensures WfWorld(r) && Stable(w, r)
    ensures IsVar(r, h) && V(r, h) == v
    ensures r.arena == w.arena[h := VarEntity(v)]
  {
    PutPreserves(w, h, VarEntity(v));
    Put(w, h, VarEntity(v))
  }

  // ---------------------------------------------------------------------
  // Scopes of holders

  /** The scope chain a holder reads through: a unit's own level, or a
      function's level followed by its unit's. */
  function Chain(w: World, holder: Handle): (c: seq<Level>)
    requires WfWorld(w) && (IsUnit(w, holder) || IsFunc(w, holder))
    ensures |c| > 0
    ensures IsUnit(w, holder) ==> c == [U(w, holder).scope]
    ensures IsFunc(w, holder) ==> c == [F(w, holder).scope, U(w, F(w, holder).unit).scope]
  {
    if IsUnit(w, holder) then [U(w, holder).scope]
    else [F(w, holder).scope, U(w, F(w, holder).unit).scope]
  }

  /** Write the holder's own level. */
  function WithLevel(w: World, holder: Handle, l: Level): (r: World)
    requires WfWorld(w) && (IsUnit(w, holder) || IsFunc(w, holder))
    ensures WfWorld(r) && Stable(w, r)
    ensures IsUnit(w, holder) ==> r.arena == w.arena[holder := UnitEntity(U(w, holder).(scope := l))]
    ensures IsFunc(w, holder) ==> r.arena == w.arena[holder := FuncEntity(F(w, holder).(scope := l))]
  {
    if IsUnit(w, holder) then PutUnit(w, holder, U(w, holder).(scope := l))
    else PutFunc(w, holder, F(w, holder).(scope := l))
  }

  /** `holder.scope[name] = v`. */
  function SetIn(w: World, holder: Handle, name: string, v: Handle): (r: World)
    requires WfWorld(w) && (IsUnit(w, holder) || IsFunc(w, holder))
    ensures WfWorld(r) && Stable(w, r)
    ensures (IsUnit(r, holder) || IsFunc(r, holder)) && Chain(r, holder) == SetLocal(Chain(w, holder), name, v)
    ensures holder in r.arena && r.arena == w.arena[holder := r.arena[holder]]
  {
    var c := Chain(w, holder);
    var r := WithLevel(w, holder, Set(c[0], name, v));
    assert IsFunc(w, holder) ==> F(w, holder).unit != holder;
    r
  }

  /** `VariableHolder.store`: refused when the holder's own level has the name. */
  function StoreIn(w: World, holder: Handle, name: string, v: Handle): (r: Result<World>)
    requires WfWorld(w) && (IsUnit(w, holder) || IsFunc(w, holder))
    ensures r.Err? <==> Store(Chain(w, holder), name, v).Err?
    ensures r.Ok? ==> WfWorld(r.value) && Stable(w, r.value)
    ensures r.Ok? ==> ((IsUnit(r.value, holder) || IsFunc(r.value, holder))
      && Chain(r.value, holder) == Store(Chain(w, holder), name, v).value)
    ensures r.Ok? ==> holder in r.value.arena && r.value.arena == w.arena[holder := r.value.arena[holder]]
  {
    if name in Chain(w, holder)[0].fwd then Err(DuplicateDefinition(name))
    else Ok(SetIn(w, holder, name, v))
  }

  /** `VariableHolder.uniq`: bind under the name `uniq_name(hint)`. */
  function UniqIn(w: World, holder: Handle, hint: string, v: Handle): (r: (World, string))
    requires WfWorld(w) && (IsUnit(w, holder) || IsFunc(w, holder))
    ensures WfWorld(r.0) && Stable(w, r.0)
    ensures r.1 == FreshName(Chain(w, holder), hint) && !Contains(Chain(w, holder), r.1)
    ensures (IsUnit(r.0, holder) || IsFunc(r.0, holder)) && Chain(r.0, holder) == SetLocal(Chain(w, holder), r.1, v)
  {
    var name := FreshName(Chain(w, holder), hint);
    (SetIn(w, holder, name, v), name)
  }

  /** The values of a level, in insertion order (`scope.values()`). */
  function Values(l: Level): (vs: seq<Handle>)
    ensures Wf(l) ==> |vs| == |l.order|
  {
    ValuesOf(l.order, l.fwd)
  }

  function ValuesOf(names: seq<string>, fwd: map<string, Handle>): (vs: seq<Handle>)
    ensures (forall n :: n in names ==> n in fwd) ==> |vs| == |names|
  {
    if |names| == 0 then []
    else (if names[0] in fwd then [fwd[names[0]]] else []) + ValuesOf(names[1..], fwd)
  }

  /** `allblocks` minus entry and exit: the user blocks in scope order. */
  function UserBlocks(w: World, f: Handle): (bs: seq<Handle>)
    requires WfWorld(w) && IsFunc(w, f)
    ensures forall i :: 0 <= i < |bs| ==> IsBlock(w, bs[i]) && bs[i] != F(w, f).entry && bs[i] != F(w, f).exit
    ensures forall h {:trigger h in bs} :: h in bs <==> h in Values(F(w, f).scope) && IsBlock(w, h) && h != F(w, f).entry && h != F(w, f).exit
    ensures Subsequence(bs, Values(F(w, f).scope))
  {
    UserBlocksOf(w, Values(F(w, f).scope), F(w, f).entry, F(w, f).exit)
  }

  function UserBlocksOf(w: World, vs: seq<Handle>, entry: Handle, exit: Handle): (bs: seq<Handle>)
    ensures forall i :: 0 <= i < |bs| ==> IsBlock(w, bs[i]) && bs[i] != entry && bs[i] != exit
    ensures forall h :: h in bs <==> h in vs && IsBlock(w, h) && h != entry && h != exit
    ensures (forall i :: 0 <= i < |vs| ==> vs[i] == entry || vs[i] == exit) ==> bs == []
    ensures Subsequence(bs, vs)
  {
    if |vs| == 0 then []
    else
      var rest := UserBlocksOf(w, vs[1..], entry, exit);
      var h := vs[0];
      assert vs == [h] + vs[1..];
      if IsBlock(w, h) && h != entry && h != exit then [h] + rest else rest
  }

  // ---------------------------------------------------------------------
  // Constructors

  /** `TopLevel()`: an unfinished unit whose scope holds the two built-in
      entities `pos_util` and `_global_entity`. */
  function NewUnit(w: World): (r: (World, Handle))
    requires WfWorld(w)
    ensures WfWorld(r.0) && Stable(w, r.0)
    ensures IsUnit(r.0, r.1) && r.1 !in w.arena
    ensures !U(r.0, r.1).finished && U(r.0, r.1).preamble == [] && U(r.0, r.1).pragmas == []
    ensures U(r.0, r.1).scope.order == ["pos_util", "_global_entity"]
    ensures forall n :: n in U(r.0, r.1).scope.fwd ==> !IsVisible(r.0, U(r.0, r.1).scope.fwd[n])
    ensures forall h :: h in w.arena ==> r.0.arena[h] == w.arena[h]
    ensures forall h :: IsVisible(r.0, h) ==> IsVisible(w, h)
  {
    var (w1, pos) := Alloc(w, PlainEntity("pos_util"));
    var (w2, glob) := Alloc(w1, PlainEntity("_global_entity"));
    var level := Set(Set(Empty, "pos_util", pos), "_global_entity", glob);
    var (w3, u) := Alloc(w2, UnitEntity(Unit(level, [], false, [])));
    AllocInvisible(w, w1, pos);
    AllocInvisible(w1, w2, glob);
    AllocInvisible(w2, w3, u);
    (w3, u)
  }

  /** Allocating anything but a function or a stub keeps every existing
      entity and adds no visible function. */
  lemma AllocInvisible(w: World, w2: World, h: Handle)
    requires h !in w.arena && h in w2.arena && w2.arena == w.arena[h := w2.arena[h]]
    requires !w2.arena[h].FuncEntity? && !w2.arena[h].ExternEntity?
    ensures forall g :: g in w.arena ==> w2.arena[g] == w.arena[g]
    ensures forall g :: IsVisible(w2, g) ==> IsVisible(w, g)
  {
  }

  /** `IRFunction(name, top)`: a declared function with its pinned entry
      (`0entry`) and exit (`0ret`) super-blocks, named uniquely through the
      unit's scope. `pending` is the signature checks queued on it at once
      (`define_function` queues the replaced stub's). */
  function NewFunction(w: World, name: string, unit: Handle, pending: seq<Handle>): (r: (World, Handle))
    requires WfWorld(w) && IsUnit(w, unit)
    ensures WfWorld(r.0) && Stable(w, r.0)
    ensures r.1 !in w.arena && IsFunc(r.0, r.1)
    ensures var f := F(r.0, r.1);
      && f.name == name && f.unit == unit
      && !f.finished && !f.finalized && !f.isExtern && !f.isPure && !f.isInline
      && f.params == [] && f.results == [] && f.postExit == [] && f.preamble == [] && f.pending == pending
      && B(r.0, f.entry).insns == [] && B(r.0, f.exit).insns == []
      && UseCount(B(r.0, f.entry)) == 2 && UseCount(B(r.0, f.exit)) == 2
    ensures var f := F(r.0, r.1);
      && f.entry != f.exit && Values(f.scope) == [f.entry, f.exit] && f.use == 0
      && IsBlock(r.0, f.entry) && B(r.0, f.entry).super && B(r.0, f.entry).isEntry
      && IsBlock(r.0, f.exit) && B(r.0, f.exit).super && !B(r.0, f.exit).isEntry
    ensures UserBlocks(r.0, r.1) == []
  {
    var fh := w.next;
    var (entryName, exitName, l) := SuperBlockNames(U(w, unit).scope, fh + 1, fh + 2);
    var f := Func(name, unit, l, [], fh + 1, fh + 2, [], false, false, false, false, false, [], [], pending, 0);
    var r := Install(w, f, entryName, exitName);
    SuperBlockNamesDistinct(U(w, unit).scope, fh + 1, fh + 2);
    InstalledShape(w, f, entryName, exitName);
    (r, fh)
  }

  /** The two super-block names differ, so the new level has exactly the
      two super-blocks as values, entry first. */
  lemma SuperBlockNamesDistinct(unitLevel: Level, entry: Handle, exit: Handle)
    ensures var (a, b, l) := SuperBlockNames(unitLevel, entry, exit);
      a != b && Values(l) == [entry, exit]
  {
    var (a, b, l) := SuperBlockNames(unitLevel, entry, exit);
    var c := [Set(Empty, a, entry), unitLevel];
    assert a in c[0].fwd && Contains(c, a);
    TwoValues(a, b, entry, exit);
  }

  /** An installed function whose level holds only its super-blocks is
      stored as given and has no user blocks. */
  lemma InstalledShape(w: World, f: Func, entryName: string, exitName: string)
    requires WfWorld(w) && IsUnit(w, f.unit) && f.entry == w.next + 1 && f.exit == w.next + 2
    requires Values(f.scope) == [f.entry, f.exit]
    ensures var r := Install(w, f, entryName, exitName);
      && IsFunc(r, w.next) && F(r, w.next) == f && UserBlocks(r, w.next) == []
      && IsBlock(r, f.entry) && B(r, f.entry).super && B(r, f.entry).isEntry
      && IsBlock(r, f.exit) && B(r, f.exit).super && !B(r, f.exit).isEntry
      && B(r, f.entry).insns == [] && B(r, f.exit).insns == []
      && UseCount(B(r, f.entry)) == 2 && UseCount(B(r, f.exit)) == 2
  {
    var r := Install(w, f, entryName, exitName);
    assert F(r, w.next) == f;
    OnlySuperBlocks(r, w.next);
  }

  /** The names of a new function's super-blocks, made unique against its
      own level and then its unit's, and the function's level binding them
      to `entry` and `exit`. */
  function SuperBlockNames(unitLevel: Level, entry: Handle, exit: Handle): (string, string, Level) {
    var entryName := FreshName([Empty, unitLevel], "0entry");
    var l1 := Set(Empty, entryName, entry);
    var exitName := FreshName([l1, unitLevel], "0ret");
    (entryName, exitName, Set(l1, exitName, exit))
  }

  /** Declaring a function leaves every existing entity as it was. */
  lemma NewFunctionFrame(w: World, name: string, unit: Handle, pending: seq<Handle>)
    requires WfWorld(w) && IsUnit(w, unit)
    ensures var r := NewFunction(w, name, unit, pending).0;
      forall h :: h in w.arena ==> h in r.arena && r.arena[h] == w.arena[h]
  {
  }

  /** A level holding two distinct names, bound in that order, has exactly
      their two values. */
  lemma TwoValues(a: string, b: string, ha: Handle, hb: Handle)
    requires a != b
    ensures Values(Set(Set(Empty, a, ha), b, hb)) == [ha, hb]
  {
    var l2 := Set(Set(Empty, a, ha), b, hb);
    assert l2.order == [a, b];
    assert ValuesOf([b], l2.fwd) == [hb];
  }

  /** A function whose scope binds nothing but its entry and exit has no
      user blocks. */
  lemma OnlySuperBlocks(w: World, f: Handle)
    requires WfWorld(w) && IsFunc(w, f)
    requires var vs := Values(F(w, f).scope);
      forall i :: 0 <= i < |vs| ==> vs[i] == F(w, f).entry || vs[i] == F(w, f).exit
    ensures UserBlocks(w, f) == []
  {
  }

  /** Add a function and its two super-blocks under the next three handles. */
  function Install(w: World, f: Func, entryName: string, exitName: string): (r: World)
    requires WfWorld(w) && IsUnit(w, f.unit) && f.entry == w.next + 1 && f.exit == w.next + 2
    ensures WfWorld(r) && Stable(w, r) && r.next == w.next + 3
    ensures r.arena == w.arena[w.next := FuncEntity(f)]
      [f.entry := BlockEntity(NewSuperBlock(entryName, w.next, true))]
      [f.exit := BlockEntity(NewSuperBlock(exitName, w.next, false))]
  {
    var fh := w.next;
    var arena := w.arena[fh := FuncEntity(f)]
      [f.entry := BlockEntity(NewSuperBlock(entryName, fh, true))]
      [f.exit := BlockEntity(NewSuperBlock(exitName, fh, false))];
    var r := World(arena, fh + 3);
    forall g | g in w.arena ensures g in r.arena && SameLinks(w.arena[g], r.arena[g]) {
    }
    forall g | IsFunc(r, g) ensures FuncLinks(r, g, F(r, g)) {
      if g != fh {
        assert IsFunc(w, g);
        LinksCarryOver(w, r, g, F(w, g), F(r, g));
      }
    }
    forall g | IsBlock(r, g) ensures IsFunc(r, B(r, g).func) {
      if g != f.entry && g != f.exit {
        assert IsBlock(w, g);
      }
    }
    r
  }
}
