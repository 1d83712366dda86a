/** Compilation units (cmd_ir/core.py, `TopLevel`): finishing a unit,
    looking up, creating and defining its functions, including another
    unit's functions as extern stubs, and linking units together. */
module Units {
  import opened Common
  import opened Insns
  import opened Scopes
  import opened Blocks
  import opened Ir
  import opened Functions

  // ---------------------------------------------------------------------
  // end

  /** A name of the level bound to a visible function that is not
      finished. */
  predicate Unfinished(w: World, fwd: map<string, Handle>, n: string) {
    n in fwd && IsVisible(w, fwd[n]) && !Finished(w, fwd[n])
  }

  /** The first name in `names` bound to an unfinished visible function. */
  function FirstUnfinished(w: World, names: seq<string>, fwd: map<string, Handle>): (r: Option<string>)
    ensures r.None? <==> forall k :: 0 <= k < |names| ==> !Unfinished(w, fwd, names[k])
    ensures r.Some? ==> exists k ::
      && 0 <= k < |names| && names[k] == r.value && Unfinished(w, fwd, names[k])
      && forall j :: 0 <= j < k ==> !Unfinished(w, fwd, names[j])
  {
    if |names| == 0 then None
    else if Unfinished(w, fwd, names[0]) then Some(names[0])
    else
      var r := FirstUnfinished(w, names[1..], fwd);
      assert forall k :: 1 <= k < |names| ==> names[k] == names[1..][k - 1];
      r
  }

  /** `TopLevel.end`: a unit finishes once, and only when every visible
      function in its scope is finished; the first one that is not is
      named in the failure. */
  function EndUnit(w: World, u: Handle): (r: Result<World>)
    requires WfWorld(w) && IsUnit(w, u)
    ensures U(w, u).finished ==> r == Err(AlreadyFinished)
    ensures r.Ok? <==>
      && !U(w, u).finished
      && forall k :: 0 <= k < |U(w, u).scope.order| ==> !Unfinished(w, U(w, u).scope.fwd, U(w, u).scope.order[k])
    ensures r.Err? && !U(w, u).finished ==>
      r.error.UnfinishedFunction? && Unfinished(w, U(w, u).scope.fwd, r.error.name)
    ensures r.Ok? ==> WfWorld(r.value) && Stable(w, r.value)
    ensures r.Ok? ==> r.value.arena == w.arena[u := UnitEntity(U(w, u).(finished := true))]
  {
    if U(w, u).finished then Err(AlreadyFinished)
    else match FirstUnfinished(w, U(w, u).scope.order, U(w, u).scope.fwd)
      case Some(n) => Err(UnfinishedFunction(n))
      case None => Ok(PutUnit(w, u, U(w, u).(finished := true)))
  }

  // ---------------------------------------------------------------------
  // Functions of a unit

  /** `lookup_func`: nothing for an unbound name; a bound name must be a
      visible function. */
  function LookupFunc(w: World, u: Handle, name: string): (r: Result<Option<Handle>>)
    requires WfWorld(w) && IsUnit(w, u)
    ensures r == Ok(None) <==> !Contains(Chain(w, u), name)
    ensures r.Ok? && r.value.Some? ==> Get(Chain(w, u), name) == Ok(r.value.value) && IsVisible(w, r.value.value)
    ensures r.Err? <==> Contains(Chain(w, u), name) && !IsVisible(w, Get(Chain(w, u), name).value)
    ensures r.Err? ==> r.error == NotAVisibleFunction(name)
  {
    var c := Chain(w, u);
    match Get(c, name)
    case Err(_) => Ok(None)
    case Ok(h) => if IsVisible(w, h) then Ok(Some(h)) else Err(NotAVisibleFunction(name))
  }

  /** `self.scope[name] = self._create_func(name)`: a new function of the
      unit with the checks `pending` queued, bound under `name` in the
      unit's own level; nothing else that existed changes. */
  function NewBound(w: World, u: Handle, name: string, pending: seq<Handle>): (r: (World, Handle))
    requires WfWorld(w) && IsUnit(w, u)
    ensures WfWorld(r.0) && Stable(w, r.0) && IsUnit(r.0, u)
    ensures r.1 !in w.arena && IsFunc(r.0, r.1)
    ensures F(r.0, r.1).name == name && F(r.0, r.1).unit == u && F(r.0, r.1).pending == pending && !F(r.0, r.1).finished
    ensures Chain(r.0, u) == SetLocal(Chain(w, u), name, r.1)
    ensures forall h :: h in w.arena && h != u ==> r.0.arena[h] == w.arena[h]
  {
    var (w1, f) := NewFunction(w, name, u, pending);
    NewFunctionFrame(w, name, u, pending);
    assert Chain(w1, u) == Chain(w, u);
    var w2 := SetIn(w1, u, name, f);
    assert w2.arena[f] == w1.arena[f];
    (w2, f)
  }

  /** `get_or_create_func`: whatever the unit binds under `name`, or else a
      new function of that name, bound under it. */
  function GetOrCreateFunc(w: World, u: Handle, name: string): (r: (World, Handle))
    requires WfWorld(w) && IsUnit(w, u)
    ensures WfWorld(r.0) && Stable(w, r.0) && IsUnit(r.0, u)
    ensures Get(Chain(r.0, u), name) == Ok(r.1)
    ensures Contains(Chain(w, u), name) ==> r == (w, Get(Chain(w, u), name).value)
    ensures !Contains(Chain(w, u), name) ==>
      && r.1 !in w.arena && IsFunc(r.0, r.1) && F(r.0, r.1).name == name && F(r.0, r.1).unit == u
      && Chain(r.0, u) == SetLocal(Chain(w, u), name, r.1)
  {
    match Get(Chain(w, u), name)
    case Ok(h) => (w, h)
    case Err(_) => NewBound(w, u, name, [])
  }

  /** `create_function(namehint)`: a new function under the name
      `uniq_name(namehint)`, which no level of the unit bound before. */
  function CreateFunction(w: World, u: Handle, hint: string): (r: (World, Handle))
    requires WfWorld(w) && IsUnit(w, u)
    ensures WfWorld(r.0) && Stable(w, r.0) && IsUnit(r.0, u)
    ensures r.1 !in w.arena && IsFunc(r.0, r.1) && F(r.0, r.1).unit == u
    ensures var name := FreshName(Chain(w, u), hint);
      && !Contains(Chain(w, u), name)
      && F(r.0, r.1).name == name
      && Chain(r.0, u) == SetLocal(Chain(w, u), name, r.1)
      && Get(Chain(r.0, u), name) == Ok(r.1)
  {
    var name := FreshName(Chain(w, u), hint);
    NewBound(w, u, name, [])
  }

  // ---------------------------------------------------------------------
  // Rewriting references in blocks

  /** The blocks of the functions among `vs` (`var.allblocks` for each
      function `var`). */
  function BlocksOfFuncs(w: World, vs: seq<Handle>): (s: set<Handle>)
    requires WfWorld(w)
    ensures forall b :: b in s ==> IsBlock(w, b)
  {
    if |vs| == 0 then {}
    else (if IsFunc(w, vs[0]) then (set b | b in AllBlocks(w, vs[0])) else {}) + BlocksOfFuncs(w, vs[1..])
  }

  /** `block.apply_mapping(kind, m)` for every block in `bs`. */
  function MapBlocks(w: World, bs: set<Handle>, kind: set<Handle>, m: map<Handle, Handle>): (r: World)
    requires WfWorld(w) && forall b :: b in bs ==> IsBlock(w, b)
    ensures WfWorld(r) && Stable(w, r) && r.arena.Keys == w.arena.Keys
    ensures forall h :: h in w.arena && !w.arena[h].BlockEntity? ==> r.arena[h] == w.arena[h]
    ensures forall b :: b in bs ==> IsBlock(r, b) && B(r, b) == B(w, b).(insns := ApplyMapping(B(w, b).insns, kind, m))
  {
    var arena := map h | h in w.arena :: if h in bs then BlockEntity(B(w, h).(insns := ApplyMapping(B(w, h).insns, kind, m))) else w.arena[h];
    var r := World(arena, w.next);
    forall g | g in w.arena ensures g in r.arena && SameLinks(w.arena[g], r.arena[g]) {
    }
    forall g | IsFunc(r, g) ensures FuncLinks(r, g, F(r, g)) {
      assert IsFunc(w, g) && F(r, g) == F(w, g);
      LinksCarryOver(w, r, g, F(w, g), F(r, g));
    }
    forall g | IsBlock(r, g) ensures IsFunc(r, B(r, g).func) {
      assert IsBlock(w, g) && B(r, g).func == B(w, g).func;
      assert IsFunc(w, B(w, g).func);
    }
    r
  }

  /** Rewriting through a map whose targets are outside its domain leaves
      no reference to the domain in any rewritten block. */
  lemma MapBlocksClears(w: World, bs: set<Handle>, kind: set<Handle>, m: map<Handle, Handle>)
    requires WfWorld(w) && forall b :: b in bs ==> IsBlock(w, b)
    requires m.Keys <= kind && forall h :: h in m ==> m[h] !in m
    ensures var r := MapBlocks(w, bs, kind, m);
      forall b :: b in bs ==> NoRefsTo(B(r, b).insns, m.Keys)
  {
    var r := MapBlocks(w, bs, kind, m);
    assert m.Keys * kind == m.Keys;
    forall b | b in bs ensures NoRefsTo(B(r, b).insns, m.Keys) {
      MappingClearsDomain(B(w, b).insns, kind, m);
    }
  }

  /** The extern stubs of the world: what `query(ExternFunction)` selects. */
  function Externs(w: World): (s: set<Handle>)
    ensures forall h :: h in s <==> IsExtern(w, h)
  {
    set h | h in w.arena && w.arena[h].ExternEntity?
  }

  // ---------------------------------------------------------------------
  // define_function

  /** Binding a new function leaves the existing blocks as they were. */
  lemma NewBoundKeepsBlocks(w: World, u: Handle, name: string, pending: seq<Handle>, bs: set<Handle>)
    requires WfWorld(w) && IsUnit(w, u) && forall b :: b in bs ==> IsBlock(w, b)
    ensures var r := NewBound(w, u, name, pending).0;
      forall b :: b in bs ==> IsBlock(r, b) && B(r, b) == B(w, b)
  {
  }

  /** The replacement half of `define_function`: the successor takes the
      stub's name, and the blocks of the functions the unit bound before
      are rewritten to refer to it instead of the stub (the successor's
      own blocks are still empty then). */
  function ReplaceStub(w: World, u: Handle, name: string, stub: Handle): (r: (World, Handle))
    requires WfWorld(w) && IsUnit(w, u) && IsExtern(w, stub)
    ensures WfWorld(r.0) && Stable(w, r.0) && IsUnit(r.0, u)
    ensures r.1 !in w.arena && IsFunc(r.0, r.1)
    ensures var m: map<Handle, Handle> := map[stub := r.1];
      forall b :: b in BlocksOfFuncs(w, Values(U(w, u).scope)) ==>
        IsBlock(r.0, b) && B(r.0, b).insns == ApplyMapping(B(w, b).insns, Externs(w), m)
    ensures var nb := NewBound(w, u, name, [stub]);
      r.1 == nb.1 && r.0.arena[u] == nb.0.arena[u] && r.0.arena[r.1] == nb.0.arena[r.1]
  {
    var nb := NewBound(w, u, name, [stub]);
    var bs := BlocksOfFuncs(w, Values(U(w, u).scope));
    NewBoundKeepsBlocks(w, u, name, [stub], bs);
    // The successor is no extern, so the stubs are those of `w`.
    var m: map<Handle, Handle> := map[stub := nb.1];
    var w2 := MapBlocks(nb.0, bs, Externs(w), m);
    StableTrans(w, nb.0, w2);
    assert w2.arena[u] == nb.0.arena[u] && w2.arena[nb.1] == nb.0.arena[nb.1];
    (w2, nb.1)
  }

  /** `define_function(name)`: the function the unit binds under `name`,
      created if absent; an extern stub bound there is replaced. */
  function DefineFunction(w: World, u: Handle, name: string): (r: (World, Handle))
    requires WfWorld(w) && IsUnit(w, u)
    ensures WfWorld(r.0) && Stable(w, r.0) && IsUnit(r.0, u)
    ensures Get(Chain(r.0, u), name) == Ok(r.1)
    ensures !Contains(Chain(w, u), name) || !IsExtern(w, Get(Chain(w, u), name).value) ==>
      r == GetOrCreateFunc(w, u, name)
    ensures Contains(Chain(w, u), name) && IsExtern(w, Get(Chain(w, u), name).value) ==>
      r == ReplaceStub(w, u, name, Get(Chain(w, u), name).value)
  {
    match Get(Chain(w, u), name)
    case Ok(h) =>
      if IsExtern(w, h) then ReplaceStub(w, u, name, h) else (w, h)
    case Err(_) => GetOrCreateFunc(w, u, name)
  }

  /** Defining a name bound to an extern stub (which `DefineFunction`
      hands to `ReplaceStub`) binds the name to a new function, and no
      block of the functions the unit bound before refers to the stub any
      more. */
  lemma ReplaceStubClears(w: World, u: Handle, name: string, stub: Handle)
    requires WfWorld(w) && IsUnit(w, u) && IsExtern(w, stub)
    ensures var r := ReplaceStub(w, u, name, stub);
      && r.1 != stub && Get(Chain(r.0, u), name) == Ok(r.1)
      && forall b :: b in BlocksOfFuncs(w, Values(U(w, u).scope)) ==>
           IsBlock(r.0, b) && NoRefsTo(B(r.0, b).insns, {stub})
  {
    var r := ReplaceStub(w, u, name, stub);
    assert Chain(r.0, u) == Chain(NewBound(w, u, name, [stub]).0, u);
    forall b | b in BlocksOfFuncs(w, Values(U(w, u).scope))
      ensures IsBlock(r.0, b) && NoRefsTo(B(r.0, b).insns, {stub})
    {
      MapOneClears(B(w, b).insns, Externs(w), stub, r.1);
    }
  }

  /** Rewriting one stub of `kind` to another handle leaves no reference to
      the stub. */
  lemma MapOneClears(s: seq<Insn>, kind: set<Handle>, stub: Handle, made: Handle)
    requires stub in kind && made != stub
    ensures NoRefsTo(ApplyMapping(s, kind, map[stub := made]), {stub})
  {
    var m := map[stub := made];
    assert m.Keys * kind == {stub};
    MappingClearsDomain(s, kind, m);
  }

  /** The new function waits to check its signature against the stub's:
      once it ends, the two agree. */
  lemma ReplaceStubChecks(w: World, u: Handle, name: string, stub: Handle)
    requires WfWorld(w) && IsUnit(w, u) && IsExtern(w, stub)
    ensures var r := ReplaceStub(w, u, name, stub);
      && IsFunc(r.0, r.1) && F(r.0, r.1).name == name && !F(r.0, r.1).finished
      && PendingOk(r.0, r.1) && IsExtern(r.0, stub)
      && (Functions.End(r.0, r.1).Ok? ==> SameSignature(r.0, r.1, stub))
  {
    var r := ReplaceStub(w, u, name, stub);
    assert F(r.0, r.1) == F(NewBound(w, u, name, [stub]).0, r.1);
    assert SameLinks(w.arena[stub], r.0.arena[stub]);
    EndChecksStub(r.0, r.1, stub);
  }

  /** A function whose only queued check is against an extern stub ends
      only with the stub's signature. */
  lemma EndChecksStub(w: World, f: Handle, stub: Handle)
    requires WfWorld(w) && IsFunc(w, f) && IsExtern(w, stub) && F(w, f).pending == [stub]
    ensures PendingOk(w, f) && (Functions.End(w, f).Ok? ==> SameSignature(w, f, stub))
  {
    if Functions.End(w, f).Ok? {
      assert F(w, f).pending[0] == stub;
    }
  }

  // ---------------------------------------------------------------------
  // include_from

  /** `name.startswith('__')`. */
  predicate Private(n: string) {
    |n| >= 2 && n[0] == '_' && n[1] == '_'
  }

  /** An entry `include_from` takes from the other unit's level: a visible
      function under a name that is not private. */
  predicate Exported(w: World, l: Level, n: string) {
    n in l.fwd && IsVisible(w, l.fwd[n]) && !Private(n)
  }

  /** A taken entry whose `global_name` can be read: a defined function (an
      extern stub refuses the read, an undefined function asserts). */
  predicate Includable(w: World, h: Handle)
    requires WfWorld(w)
  {
    IsFunc(w, h) && IsDefined(w, h)
  }

  /** Why reading the `global_name` of a taken entry fails. */
  function NameFailure(w: World, h: Handle): Failure
    requires WfWorld(w)
  {
    if IsExtern(w, h) then ExternNotReferenceable else FunctionUndefined
  }

  /** The stub standing for a defined function of another unit: its global
      name and its signature. */
  function StubOf(w: World, h: Handle): Extern
    requires IsFunc(w, h)
  {
    Extern(F(w, h).name, F(w, h).params, F(w, h).results)
  }

  /** The position of the first taken entry of `l.order` from `i` on. */
  function FirstExported(w: World, l: Level, i: nat): (r: Option<nat>)
    requires i <= |l.order|
    ensures r.None? <==> forall k :: i <= k < |l.order| ==> !Exported(w, l, l.order[k])
    ensures r.Some? ==>
      && i <= r.value < |l.order| && Exported(w, l, l.order[r.value])
      && forall k :: i <= k < r.value ==> !Exported(w, l, l.order[k])
    decreases |l.order| - i
  {
    if i == |l.order| then None
    else if Exported(w, l, l.order[i]) then Some(i)
    else FirstExported(w, l, i + 1)
  }

  /** `include_from(other)` as written: the stub is built as
      `ExternFunction(var.global_name, self)`, which hands the unit itself
      over as the parameter list, and `list(self)` of a unit raises. So the
      first taken entry always ends the call: with the `global_name` failure
      when it has one, and with `NotIterable` otherwise. A unit with nothing
      to take is left as it is. */
  function IncludeFromAsWritten(w: World, u: Handle, other: Handle): (r: Result<World>)
    requires WfWorld(w) && IsUnit(w, u) && IsUnit(w, other)
    ensures var l := U(w, other).scope;
      r.Ok? <==> forall k :: 0 <= k < |l.order| ==> !Exported(w, l, l.order[k])
    ensures r.Ok? ==> r.value == w
    ensures r.Err? ==> r.error in {ExternNotReferenceable, FunctionUndefined, NotIterable}
  {
    var l := U(w, other).scope;
    match FirstExported(w, l, 0)
    case None => Ok(w)
    case Some(k) =>
      var h := l.fwd[l.order[k]];
      if !Includable(w, h) then Err(NameFailure(w, h)) else Err(NotIterable)
  }

  /** `self.scope[name] = ExternFunction(...)`: a new stub bound under
      `name` in the unit's own level. */
  function BindStub(w: World, u: Handle, name: string, x: Extern): (r: (World, Handle))
    requires WfWorld(w) && IsUnit(w, u)
    ensures WfWorld(r.0) && Stable(w, r.0) && IsUnit(r.0, u)
    ensures r.1 !in w.arena && r.1 != u && IsExtern(r.0, r.1) && X(r.0, r.1) == x
    ensures Chain(r.0, u) == SetLocal(Chain(w, u), name, r.1)
    ensures forall h :: h in w.arena && h != u ==> r.0.arena[h] == w.arena[h]
  {
    var (w1, h) := Alloc(w, ExternEntity(x));
    assert w1.arena[u] == w.arena[u];
    var w2 := SetIn(w1, u, name, h);
    StableTrans(w, w1, w2);
    (w2, h)
  }

  /** `include_from(other)` as evidently intended: every taken entry, in the
      other unit's order, is bound in this unit's own level to a new extern
      stub carrying the function's global name and signature. The entries
      are read from the world `w0` the call started in (the loop only
      writes this unit's level). A taken entry whose `global_name` fails
      ends the call. */
  function IncludeEntries(w0: World, w: World, u: Handle, l: Level, i: nat): (r: Result<World>)
    requires WfWorld(w0) && WfWorld(w) && IsUnit(w, u) && i <= |l.order|
    ensures r.Ok? <==> forall k :: i <= k < |l.order| && Exported(w0, l, l.order[k]) ==>
      Includable(w0, l.fwd[l.order[k]])
    ensures r.Err? ==> r.error == ExternNotReferenceable || r.error == FunctionUndefined
    ensures r.Ok? ==> WfWorld(r.value) && Stable(w, r.value) && IsUnit(r.value, u)
    ensures r.Ok? ==> forall n :: n !in l.order[i..] ==> Get(Chain(r.value, u), n) == Get(Chain(w, u), n)
    ensures r.Ok? ==> forall h :: h in w.arena && h != u ==> r.value.arena[h] == w.arena[h]
    decreases |l.order| - i
  {
    if i == |l.order| then Ok(w)
    else
      var n := l.order[i];
      if !Exported(w0, l, n) then
        var r := IncludeEntries(w0, w, u, l, i + 1);
        assert forall m :: m !in l.order[i..] ==> m !in l.order[i + 1..];
        r
      else
        var h := l.fwd[n];
        if !Includable(w0, h) then Err(NameFailure(w0, h))
        else
          var (w2, x) := BindStub(w, u, n, StubOf(w0, h));
          var r := IncludeEntries(w0, w2, u, l, i + 1);
          assert forall m :: m !in l.order[i..] ==> m !in l.order[i + 1..] && m != n;
          if r.Ok? then
            StableTrans(w, w2, r.value);
            r
          else r
  }

  /** Every taken entry ends up bound, under its own name, to a stub
      carrying the entry's global name and signature (names are listed once
      in a level's order, so no later entry overwrites an earlier one). */
  lemma {:induction false} IncludeBinds(w0: World, w: World, u: Handle, l: Level, i: nat)
    requires WfWorld(w0) && WfWorld(w) && IsUnit(w, u) && i <= |l.order| && NoDup(l.order)
    requires IncludeEntries(w0, w, u, l, i).Ok?
    ensures var r := IncludeEntries(w0, w, u, l, i).value;
      forall k :: i <= k < |l.order| && Exported(w0, l, l.order[k]) ==>
        && Get(Chain(r, u), l.order[k]).Ok?
        && IsExtern(r, Get(Chain(r, u), l.order[k]).value)
        && X(r, Get(Chain(r, u), l.order[k]).value) == StubOf(w0, l.fwd[l.order[k]])
    decreases |l.order| - i
  {
    if i < |l.order| {
      var n := l.order[i];
      var r := IncludeEntries(w0, w, u, l, i).value;
      if !Exported(w0, l, n) {
        IncludeBinds(w0, w, u, l, i + 1);
      } else {
        var h := l.fwd[n];
        var (w2, x) := BindStub(w, u, n, StubOf(w0, h));
        assert r == IncludeEntries(w0, w2, u, l, i + 1).value;
        IncludeBinds(w0, w2, u, l, i + 1);
        assert n !in l.order[i + 1..] by {
          forall k | i + 1 <= k < |l.order| ensures l.order[k] != n { }
        }
        assert Get(Chain(r, u), n) == Ok(x);
        assert r.arena[x] == w2.arena[x];
      }
    }
  }

  function IncludeFrom(w: World, u: Handle, other: Handle): (r: Result<World>)
    requires WfWorld(w) && IsUnit(w, u) && IsUnit(w, other)
    ensures var l := U(w, other).scope;
      r.Ok? <==> forall k :: 0 <= k < |l.order| && Exported(w, l, l.order[k]) ==> Includable(w, l.fwd[l.order[k]])
    ensures r.Err? ==> r.error == ExternNotReferenceable || r.error == FunctionUndefined
    ensures r.Ok? ==> WfWorld(r.value) && Stable(w, r.value) && IsUnit(r.value, u)
    ensures var l := U(w, other).scope;
      r.Ok? ==> forall n :: n !in l.order ==> Get(Chain(r.value, u), n) == Get(Chain(w, u), n)
    ensures var l := U(w, other).scope;
      r.Ok? && NoDup(l.order) ==> forall k :: 0 <= k < |l.order| && Exported(w, l, l.order[k]) ==>
        && Get(Chain(r.value, u), l.order[k]).Ok?
        && IsExtern(r.value, Get(Chain(r.value, u), l.order[k]).value)
        && X(r.value, Get(Chain(r.value, u), l.order[k]).value) == StubOf(w, l.fwd[l.order[k]])
  {
    var l := U(w, other).scope;
    var r := IncludeEntries(w, w, u, l, 0);
    assert l.order[0..] == l.order;
    if r.Ok? && NoDup(l.order) then
      IncludeBinds(w, w, u, l, 0);
      r
    else r
  }

  /** The discrepancy: whenever the other unit has something to take and
      the intended `include_from` succeeds, the code as written fails on
      building the first stub. */
  lemma IncludeAsWrittenFails(w: World, u: Handle, other: Handle, k: nat)
    requires WfWorld(w) && IsUnit(w, u) && IsUnit(w, other)
    requires k < |U(w, other).scope.order| && Exported(w, U(w, other).scope, U(w, other).scope.order[k])
    requires IncludeFrom(w, u, other).Ok?
    ensures IncludeFromAsWritten(w, u, other) == Err(NotIterable)
  {
  }
}
