/** Pass 1 of the linker (`TopLevel.linker`, cmd_ir/core.py): every unit,
    which must be finished, hands its preamble and pragmas to the merged
    unit, and each entry of its scope is gathered there. A function is
    stored under its name and re-parented to the merged unit, and its user
    blocks are remembered for pass 2; an extern stub is grouped by name;
    anything else is bound under a name made unique in the merged unit. */
module Gather {
  import opened Common
  import opened Insns
  import opened Scopes
  import opened Ir
  import opened Linker

  /** What pass 1 has built so far: the world holding the merged unit, the
      stub groups (`externs`) and the blocks of the gathered functions
      (`all_blocks`). */
  datatype Gathered = Gathered(w: World, g: Groups, blocks: seq<Handle>)

  ghost predicate Gathering(st: Gathered, out: Handle) {
    && WfWorld(st.w) && IsUnit(st.w, out)
    && GroupsOk(st.g) && GroupedExterns(st.w, st.g)
    && (forall i :: 0 <= i < |st.blocks| ==> IsBlock(st.w, st.blocks[i]))
    && (forall n :: n in Bound(st.w, out) ==> !IsExtern(st.w, Bound(st.w, out)[n]))
  }

  /** A level binds `v` under `n`, and `n` is among the names its order
      lists, so that iterating the level meets the pair. */
  predicate Binds(l: Level, n: string, v: Handle) {
    n in l.order && n in l.fwd && l.fwd[n] == v
  }

  /** Every binding of `a` is in `b`. */
  ghost predicate Extends(a: map<string, Handle>, b: map<string, Handle>) {
    forall n :: n in a ==> n in b && b[n] == a[n]
  }

  /** Every stub grouped in `g` is grouped under the same name in `g2`. */
  ghost predicate GroupsGrow(g: Groups, g2: Groups) {
    forall n, e :: n in g.stubs && e in g.stubs[n] ==> n in g2.stubs && e in g2.stubs[n]
  }

  /** What pass 1 keeps: the merged unit's bindings and flag, the stub
      groups, and every visible function's signature. */
  ghost predicate Keeps(st: Gathered, st2: Gathered, out: Handle)
    requires IsUnit(st.w, out) && IsUnit(st2.w, out)
  {
    && Stable(st.w, st2.w) && SigsKept(st.w, st2.w)
    && Extends(Bound(st.w, out), Bound(st2.w, out))
    && U(st2.w, out).finished == U(st.w, out).finished
    && GroupsGrow(st.g, st2.g)
  }

  /** ... and a step within one unit's scope keeps the merged unit's
      preamble and pragmas too. */
  ghost predicate Grows(st: Gathered, st2: Gathered, out: Handle)
    requires IsUnit(st.w, out) && IsUnit(st2.w, out)
  {
    Keeps(st, st2, out) && U(st2.w, out) == U(st.w, out).(scope := U(st2.w, out).scope)
  }

  lemma KeepsTrans(st1: Gathered, st2: Gathered, st3: Gathered, out: Handle)
    requires IsUnit(st1.w, out) && IsUnit(st2.w, out) && IsUnit(st3.w, out)
    requires Keeps(st1, st2, out) && Keeps(st2, st3, out)
    ensures Keeps(st1, st3, out)
  {
    StableTrans(st1.w, st2.w, st3.w);
    SigsKeptTrans(st1.w, st2.w, st3.w);
  }

  lemma GrowsTrans(st1: Gathered, st2: Gathered, st3: Gathered, out: Handle)
    requires IsUnit(st1.w, out) && IsUnit(st2.w, out) && IsUnit(st3.w, out)
    requires Grows(st1, st2, out) && Grows(st2, st3, out)
    ensures Grows(st1, st3, out)
  {
    KeepsTrans(st1, st2, st3, out);
  }

  lemma GrowsRefl(st: Gathered, out: Handle)
    requires IsUnit(st.w, out)
    ensures Grows(st, st, out)
  {
    SigsKeptRefl(st.w);
  }

  /** Every block of `w` is a block of `w2` with the same contents, every
      function of `w` keeps its scope, and `w2` has no extern stub `w` does
      not have: pass 1 moves functions to the merged unit but rewrites
      nothing. */
  ghost predicate Untouched(w: World, w2: World) {
    && BlocksKept(w, w2)
    && (forall h :: IsFunc(w, h) ==> IsFunc(w2, h) && F(w2, h).scope == F(w, h).scope)
    && (forall h :: IsExtern(w2, h) ==> IsExtern(w, h))
  }

  lemma UntouchedTrans(w1: World, w2: World, w3: World)
    requires Untouched(w1, w2) && Untouched(w2, w3)
    ensures Untouched(w1, w3)
  {
  }

  /** A function's user blocks stay its user blocks while its scope does. */
  lemma UserBlocksKept(w: World, w2: World, f: Handle)
    requires WfWorld(w) && WfWorld(w2) && IsFunc(w, f) && Stable(w, w2) && Untouched(w, w2)
    ensures IsFunc(w2, f) && forall b :: b in UserBlocks(w, f) ==> b in UserBlocks(w2, f)
  {
  }

  /** `externs[name].append(var)`: the stub joins the end of its name's
      group, and a name met for the first time joins the end of the names. */
  function AddStub(g: Groups, n: string, e: Handle): (r: Groups)
    requires GroupsOk(g)
    ensures GroupsOk(r) && GroupsGrow(g, r)
    ensures n in r.stubs && e in r.stubs[n]
    ensures forall n', e' :: n' in r.stubs && e' in r.stubs[n'] ==>
      (n' in g.stubs && e' in g.stubs[n']) || (n' == n && e' == e)
  {
    if n in g.stubs then Groups(g.names, g.stubs[n := g.stubs[n] + [e]])
    else Groups(g.names + [n], g.stubs[n := [e]])
  }

  /** Re-parenting a function onto the merged unit
      (`var.scope.parent = out.scope`) changes nothing else. */
  function Reparent(w: World, f: Handle, out: Handle): (r: World)
    requires WfWorld(w) && IsFunc(w, f) && IsUnit(w, out)
    ensures WfWorld(r) && Stable(w, r) && SigsKept(w, r)
    ensures IsFunc(r, f) && F(r, f).unit == out && F(r, f).scope == F(w, f).scope
    ensures IsUnit(r, out) && r.arena[out] == w.arena[out]
    ensures r.arena == w.arena[f := r.arena[f]]
  {
    PutFunc(w, f, F(w, f).(unit := out))
  }

  /** A function entry: `out.store(name, var)`, refused when the merged
      unit binds the name already, then the re-parenting, and its user
      blocks join `all_blocks`. */
  function GatherFunc(st: Gathered, out: Handle, n: string, v: Handle): (r: Result<Gathered>)
    requires Gathering(st, out) && IsFunc(st.w, v)
    ensures r.Err? <==> n in Bound(st.w, out)
    ensures r.Err? ==> r.error == DuplicateDefinition(n)
    ensures r.Ok? ==> Gathering(r.value, out) && Grows(st, r.value, out) && r.value.g == st.g
    ensures r.Ok? ==> n in Bound(r.value.w, out) && Bound(r.value.w, out)[n] == v
  {
    if n in Bound(st.w, out) then Err(DuplicateDefinition(n))
    else
      var w1 := BindIn(st.w, out, n, v);
      var w2 := Reparent(w1, v, out);
      StableTrans(st.w, w1, w2);
      SigsKeptTrans(st.w, w1, w2);
      GroupedStable(st.w, w2, st.g);
      Ok(Gathered(w2, st.g, st.blocks + UserBlocks(w2, v)))
  }

  /** Any other entry: `out.generate_name(name, var)`, under `name` or the
      first free suffixed form of it. */
  function GatherOther(st: Gathered, out: Handle, n: string, v: Handle): (r: Gathered)
    requires Gathering(st, out) && !IsVisible(st.w, v)
    ensures Gathering(r, out) && Grows(st, r, out) && r.g == st.g
    ensures var name := FreshName(Chain(st.w, out), n);
      name !in Bound(st.w, out) && Bound(r.w, out) == Bound(st.w, out)[name := v]
  {
    var name := FreshName(Chain(st.w, out), n);
    UnitLookup(st.w, out, name);
    var w1 := BindIn(st.w, out, name, v);
    GroupedStable(st.w, w1, st.g);
    st.(w := w1)
  }

  /** One entry `name, var` of a unit's scope. */
  function GatherEntry(st: Gathered, out: Handle, n: string, v: Handle): (r: Result<Gathered>)
    requires Gathering(st, out)
    ensures r.Err? <==> IsFunc(st.w, v) && n in Bound(st.w, out)
    ensures r.Err? ==> r.error == DuplicateDefinition(n)
    ensures r.Ok? ==> Gathering(r.value, out) && Grows(st, r.value, out)
    ensures r.Ok? && IsFunc(st.w, v) ==> n in Bound(r.value.w, out) && Bound(r.value.w, out)[n] == v
    ensures IsExtern(st.w, v) ==> r.Ok? && n in r.value.g.stubs && v in r.value.g.stubs[n]
    ensures !IsVisible(st.w, v) ==> r.Ok? && v in Bound(r.value.w, out).Values
    ensures r.Ok? ==> forall n', e :: n' in r.value.g.stubs && e in r.value.g.stubs[n'] ==>
      (n' in st.g.stubs && e in st.g.stubs[n']) || (n' == n && e == v)
  {
    if IsExtern(st.w, v) then
      GrowsRefl(st, out);
      Ok(st.(g := AddStub(st.g, n, v)))
    else if IsFunc(st.w, v) then GatherFunc(st, out, n, v)
    else
      var r := GatherOther(st, out, n, v);
      assert Bound(r.w, out)[FreshName(Chain(st.w, out), n)] == v;
      Ok(r)
  }

  /** The step of pass 1 for the `i`-th name of a level's order; a name
      the level no longer binds is passed over. */
  function GatherStep(st: Gathered, out: Handle, l: Level, i: nat): (r: Result<Gathered>)
    requires Gathering(st, out) && i < |l.order|
    ensures r.Ok? ==> Gathering(r.value, out) && Grows(st, r.value, out)
  {
    var n := l.order[i];
    if n in l.fwd then GatherEntry(st, out, n, l.fwd[n])
    else
      GrowsRefl(st, out);
      Ok(st)
  }

  /** The entries of one unit's scope from the `i`-th name of its order on
      (`for name, var in top.scope.items()`). */
  function GatherScope(st: Gathered, out: Handle, l: Level, i: nat): (r: Result<Gathered>)
    requires Gathering(st, out) && i <= |l.order|
    ensures r.Err? ==> r.error.DuplicateDefinition?
    ensures r.Ok? ==> Gathering(r.value, out) && Grows(st, r.value, out)
    decreases |l.order| - i
  {
    if i == |l.order| then
      GrowsRefl(st, out);
      Ok(st)
    else
      var one := GatherStep(st, out, l, i);
      if one.Err? then Err(one.error)
      else
        var r := GatherScope(one.value, out, l, i + 1);
        if r.Ok? then
          GrowsTrans(st, one.value, r.value, out);
          r
        else r
  }

  /** Every function the level binds from the `i`-th name on, by its kind
      in `w0`, is bound under its name in `w`. */
  ghost predicate FuncsBound(w0: World, l: Level, i: nat, w: World, out: Handle)
    requires IsUnit(w, out)
  {
    forall j :: i <= j < |l.order| && l.order[j] in l.fwd && IsFunc(w0, l.fwd[l.order[j]]) ==>
      l.order[j] in Bound(w, out) && Bound(w, out)[l.order[j]] == l.fwd[l.order[j]]
  }

  /** Every extern stub the level binds from the `i`-th name on is grouped
      under its name in `g`. */
  ghost predicate StubsGrouped(w0: World, l: Level, i: nat, g: Groups) {
    forall j :: i <= j < |l.order| && l.order[j] in l.fwd && IsExtern(w0, l.fwd[l.order[j]]) ==>
      l.order[j] in g.stubs && l.fwd[l.order[j]] in g.stubs[l.order[j]]
  }

  /** Every stub grouped in `g2` was grouped in `g` or is bound under its
      name by the level from the `i`-th name on. */
  ghost predicate StubsFrom(g: Groups, l: Level, i: nat, g2: Groups) {
    forall n, e :: n in g2.stubs && e in g2.stubs[n] ==>
      (n in g.stubs && e in g.stubs[n]) || (Binds(l, n, e) && exists j :: i <= j < |l.order| && l.order[j] == n)
  }

  /** Every entry the level binds from the `i`-th name on that is not a
      visible function, by its kind in `w0`, is bound in `w`'s merged unit
      under some name. */
  ghost predicate OthersBound(w0: World, l: Level, i: nat, w: World, out: Handle)
    requires IsUnit(w, out)
  {
    forall j :: i <= j < |l.order| && l.order[j] in l.fwd && !IsVisible(w0, l.fwd[l.order[j]]) ==>
      l.fwd[l.order[j]] in Bound(w, out).Values
  }

  /** Pass 1 over a scope binds every function of the scope under its
      name ... */
  lemma {:induction false} GatherScopeBinds(st: Gathered, out: Handle, l: Level, i: nat)
    requires Gathering(st, out) && i <= |l.order|
    ensures var r := GatherScope(st, out, l, i);
      r.Ok? ==> FuncsBound(st.w, l, i, r.value.w, out)
    decreases |l.order| - i
  {
    if i < |l.order| && GatherScope(st, out, l, i).Ok? {
      var one := GatherStep(st, out, l, i).value;
      GatherScopeBinds(one, out, l, i + 1);
      var r := GatherScope(one, out, l, i + 1).value;
      forall j | i <= j < |l.order| && l.order[j] in l.fwd && IsFunc(st.w, l.fwd[l.order[j]])
        ensures l.order[j] in Bound(r.w, out) && Bound(r.w, out)[l.order[j]] == l.fwd[l.order[j]]
      {
        assert IsFunc(one.w, l.fwd[l.order[j]]);
      }
    }
  }

  /** ... groups every extern stub of the scope under its name ... */
  lemma {:induction false} GatherScopeStubs(st: Gathered, out: Handle, l: Level, i: nat)
    requires Gathering(st, out) && i <= |l.order|
    ensures var r := GatherScope(st, out, l, i);
      r.Ok? ==> StubsGrouped(st.w, l, i, r.value.g)
    decreases |l.order| - i
  {
    if i < |l.order| && GatherScope(st, out, l, i).Ok? {
      var one := GatherStep(st, out, l, i).value;
      GatherScopeStubs(one, out, l, i + 1);
      var r := GatherScope(one, out, l, i + 1).value;
      forall j | i <= j < |l.order| && l.order[j] in l.fwd && IsExtern(st.w, l.fwd[l.order[j]])
        ensures l.order[j] in r.g.stubs && l.fwd[l.order[j]] in r.g.stubs[l.order[j]]
      {
        assert IsExtern(one.w, l.fwd[l.order[j]]);
      }
    }
  }

  /** ... binds every other entry of the scope under a generated name ... */
  lemma {:induction false} GatherScopeOthers(st: Gathered, out: Handle, l: Level, i: nat)
    requires Gathering(st, out) && i <= |l.order|
    ensures var r := GatherScope(st, out, l, i);
      r.Ok? ==> OthersBound(st.w, l, i, r.value.w, out)
    decreases |l.order| - i
  {
    if i < |l.order| && GatherScope(st, out, l, i).Ok? {
      var one := GatherStep(st, out, l, i).value;
      GatherScopeOthers(one, out, l, i + 1);
      var r := GatherScope(one, out, l, i + 1).value;
      forall j | i <= j < |l.order| && l.order[j] in l.fwd && !IsVisible(st.w, l.fwd[l.order[j]])
        ensures l.fwd[l.order[j]] in Bound(r.w, out).Values
      {
        var v := l.fwd[l.order[j]];
        if j == i {
          var k :| k in Bound(one.w, out) && Bound(one.w, out)[k] == v;
          assert k in Bound(r.w, out) && Bound(r.w, out)[k] == v;
        } else {
          assert !IsVisible(one.w, v);
        }
      }
    }
  }

  /** ... and groups no stub the scope does not bind under that name. */
  lemma {:induction false} GatherScopeOnly(st: Gathered, out: Handle, l: Level, i: nat)
    requires Gathering(st, out) && i <= |l.order|
    ensures var r := GatherScope(st, out, l, i);
      r.Ok? ==> StubsFrom(st.g, l, i, r.value.g)
    decreases |l.order| - i
  {
    if i < |l.order| && GatherScope(st, out, l, i).Ok? {
      var one := GatherStep(st, out, l, i).value;
      GatherScopeOnly(one, out, l, i + 1);
    }
  }

  /** Every visible function the merged unit binds in `w2` was bound
      there in `w`, or the level binds it under the same name. */
  ghost predicate BoundFrom(w: World, l: Level, w2: World, out: Handle)
    requires IsUnit(w, out) && IsUnit(w2, out)
  {
    forall n :: n in Bound(w2, out) && IsVisible(w2, Bound(w2, out)[n]) ==>
      (n in Bound(w, out) && Bound(w, out)[n] == Bound(w2, out)[n]) || Binds(l, n, Bound(w2, out)[n])
  }

  /** One step of pass 1 binds no visible function but the level's own. */
  lemma GatherStepFrom(st: Gathered, out: Handle, l: Level, i: nat)
    requires Gathering(st, out) && i < |l.order|
    ensures var r := GatherStep(st, out, l, i);
      r.Ok? ==> BoundFrom(st.w, l, r.value.w, out)
  {
    var n := l.order[i];
    if n in l.fwd && !IsExtern(st.w, l.fwd[n]) {
      var v := l.fwd[n];
      if IsFunc(st.w, v) {
        if n !in Bound(st.w, out) {
          var w1 := BindIn(st.w, out, n, v);
          assert Bound(Reparent(w1, v, out), out) == Bound(w1, out);
        }
      } else {
        var name := FreshName(Chain(st.w, out), n);
        assert Bound(BindIn(st.w, out, name, v), out) == Bound(st.w, out)[name := v];
      }
    }
  }

  /** Pass 1 over a scope binds no visible function but the scope's own. */
  lemma {:induction false} GatherScopeFrom(st: Gathered, out: Handle, l: Level, i: nat)
    requires Gathering(st, out) && i <= |l.order|
    ensures var r := GatherScope(st, out, l, i);
      r.Ok? ==> BoundFrom(st.w, l, r.value.w, out)
    decreases |l.order| - i
  {
    if i < |l.order| && GatherScope(st, out, l, i).Ok? {
      var one := GatherStep(st, out, l, i).value;
      GatherStepFrom(st, out, l, i);
      GatherScopeFrom(one, out, l, i + 1);
    }
  }

  /** One step of pass 1 rewrites nothing, keeps the blocks gathered so
      far and gathers a function's user blocks. */
  lemma GatherStepBlocks(st: Gathered, out: Handle, l: Level, i: nat)
    requires Gathering(st, out) && i < |l.order|
    ensures var r := GatherStep(st, out, l, i);
      r.Ok? ==>
        && Untouched(st.w, r.value.w)
        && (forall b :: b in st.blocks ==> b in r.value.blocks)
        && (l.order[i] in l.fwd && IsFunc(st.w, l.fwd[l.order[i]]) ==>
              forall b :: b in UserBlocks(st.w, l.fwd[l.order[i]]) ==> b in r.value.blocks)
  {
    var n := l.order[i];
    if n in l.fwd && !IsExtern(st.w, l.fwd[n]) {
      if IsFunc(st.w, l.fwd[n]) {
        GatherFuncBlocks(st, out, n, l.fwd[n]);
      } else {
        var name := FreshName(Chain(st.w, out), n);
        var w1 := BindIn(st.w, out, name, l.fwd[n]);
      }
    }
  }

  lemma GatherFuncBlocks(st: Gathered, out: Handle, n: string, v: Handle)
    requires Gathering(st, out) && IsFunc(st.w, v)
    ensures var r := GatherFunc(st, out, n, v);
      r.Ok? ==>
        && Untouched(st.w, r.value.w)
        && (forall b :: b in st.blocks ==> b in r.value.blocks)
        && (forall b :: b in UserBlocks(st.w, v) ==> b in r.value.blocks)
  {
    if n !in Bound(st.w, out) {
      var w1 := BindIn(st.w, out, n, v);
      var w2 := Reparent(w1, v, out);
      StableTrans(st.w, w1, w2);
      UserBlocksKept(st.w, w2, v);
    }
  }

  /** Every function the level binds from the `i`-th name on, by its kind
      in `w`, has its user blocks in `blocks`. */
  ghost predicate BlocksFrom(w: World, l: Level, i: nat, blocks: seq<Handle>)
    requires WfWorld(w)
  {
    forall j, b ::
      (i <= j < |l.order| && l.order[j] in l.fwd && IsFunc(w, l.fwd[l.order[j]]) && b in UserBlocks(w, l.fwd[l.order[j]]))
      ==> b in blocks
  }

  /** Pass 1 over a scope rewrites nothing, keeps the blocks gathered
      before and gathers the user blocks of each of the scope's functions. */
  lemma {:induction false} GatherScopeBlocks(st: Gathered, out: Handle, l: Level, i: nat)
    requires Gathering(st, out) && i <= |l.order|
    ensures var r := GatherScope(st, out, l, i);
      r.Ok? ==>
        && Untouched(st.w, r.value.w)
        && (forall b :: b in st.blocks ==> b in r.value.blocks)
        && BlocksFrom(st.w, l, i, r.value.blocks)
    decreases |l.order| - i
  {
    if i < |l.order| && GatherScope(st, out, l, i).Ok? {
      var one := GatherStep(st, out, l, i).value;
      GatherStepBlocks(st, out, l, i);
      GatherScopeBlocks(one, out, l, i + 1);
      var r := GatherScope(one, out, l, i + 1).value;
      UntouchedTrans(st.w, one.w, r.w);
      forall j, b | i <= j < |l.order| && l.order[j] in l.fwd && IsFunc(st.w, l.fwd[l.order[j]])
        && b in UserBlocks(st.w, l.fwd[l.order[j]])
        ensures b in r.blocks
      {
        if j > i {
          UserBlocksKept(st.w, one.w, l.fwd[l.order[j]]);
        }
      }
    }
  }

  /** A scope that binds a function under a name the merged unit binds
      already fails pass 1. */
  lemma {:induction false} GatherScopeRejects(st: Gathered, out: Handle, l: Level, i: nat, k: nat)
    requires Gathering(st, out) && i <= k < |l.order|
    requires l.order[k] in l.fwd && IsFunc(st.w, l.fwd[l.order[k]]) && l.order[k] in Bound(st.w, out)
    ensures GatherScope(st, out, l, i).Err?
    decreases |l.order| - i
  {
    var one := GatherStep(st, out, l, i);
    if one.Ok? {
      assert i < k;
      GatherScopeRejects(one.value, out, l, i + 1, k);
    }
  }

  // ---------------------------------------------------------------------
  // One unit

  /** `out.preamble.insns.extend(top.preamble.insns)` and
      `out.pragmas.extend(top.pragmas)`. */
  function Absorb(st: Gathered, out: Handle, top: Unit): (r: Gathered)
    requires Gathering(st, out)
    ensures Gathering(r, out) && Keeps(st, r, out) && r.g == st.g
    ensures U(r.w, out).scope == U(st.w, out).scope
    ensures U(r.w, out).preamble == U(st.w, out).preamble + top.preamble
    ensures U(r.w, out).pragmas == U(st.w, out).pragmas + top.pragmas
  {
    var u := U(st.w, out);
    var w1 := PutUnit(st.w, out, u.(preamble := u.preamble + top.preamble, pragmas := u.pragmas + top.pragmas));
    UnitUpdateKeepsSigs(st.w, w1, out);
    GroupedStable(st.w, w1, st.g);
    assert Bound(w1, out) == Bound(st.w, out);
    assert forall h :: IsExtern(w1, h) == IsExtern(st.w, h);
    st.(w := w1)
  }

  /** Pass 1 for one unit: it must be finished (`assert top.finished`);
      its preamble and pragmas are appended, then its scope is gathered. */
  function GatherTop(st: Gathered, out: Handle, top: Unit): (r: Result<Gathered>)
    requires Gathering(st, out)
    ensures r.Err? ==> r.error == NotFinished || r.error.DuplicateDefinition?
    ensures r.Err? ==> (r.error == NotFinished <==> !top.finished)
    ensures r.Err? <== !top.finished
    ensures r.Ok? ==> Gathering(r.value, out) && Keeps(st, r.value, out)
    ensures r.Ok? ==> U(r.value.w, out).preamble == U(st.w, out).preamble + top.preamble
    ensures r.Ok? ==> U(r.value.w, out).pragmas == U(st.w, out).pragmas + top.pragmas
  {
    if !top.finished then Err(NotFinished)
    else
      var st1 := Absorb(st, out, top);
      var r := GatherScope(st1, out, top.scope, 0);
      if r.Ok? then
        KeepsTrans(st, st1, r.value, out);
        r
      else r
  }

  /** Every function the level binds, by its kind in `w0`, is bound under
      the same name in `w`. */
  ghost predicate LevelFuncsBound(w0: World, l: Level, w: World, out: Handle)
    requires IsUnit(w, out)
  {
    forall n :: n in l.order && n in l.fwd && IsFunc(w0, l.fwd[n]) ==>
      n in Bound(w, out) && Bound(w, out)[n] == l.fwd[n]
  }

  /** Every extern stub the level binds, by its kind in `w0`, is grouped
      under its name in `g`. */
  ghost predicate LevelStubsGrouped(w0: World, l: Level, g: Groups) {
    forall n :: n in l.order && n in l.fwd && IsExtern(w0, l.fwd[n]) ==>
      n in g.stubs && l.fwd[n] in g.stubs[n]
  }

  /** Pass 1 for one unit binds each of its functions under its name ... */
  lemma GatherTopBinds(st: Gathered, out: Handle, top: Unit)
    requires Gathering(st, out)
    ensures var r := GatherTop(st, out, top);
      r.Ok? ==> LevelFuncsBound(st.w, top.scope, r.value.w, out)
  {
    if GatherTop(st, out, top).Ok? {
      var l := top.scope;
      var st1 := Absorb(st, out, top);
      GatherScopeBinds(st1, out, l, 0);
      var r := GatherScope(st1, out, l, 0).value;
      forall n | n in l.order && n in l.fwd && IsFunc(st.w, l.fwd[n])
        ensures n in Bound(r.w, out) && Bound(r.w, out)[n] == l.fwd[n]
      {
        var k :| 0 <= k < |l.order| && l.order[k] == n;
        assert IsFunc(st1.w, l.fwd[l.order[k]]);
      }
    }
  }

  /** ... groups each of its extern stubs under its name ... */
  lemma GatherTopStubs(st: Gathered, out: Handle, top: Unit)
    requires Gathering(st, out)
    ensures var r := GatherTop(st, out, top);
      r.Ok? ==> LevelStubsGrouped(st.w, top.scope, r.value.g)
  {
    if GatherTop(st, out, top).Ok? {
      var l := top.scope;
      var st1 := Absorb(st, out, top);
      GatherScopeStubs(st1, out, l, 0);
      var r := GatherScope(st1, out, l, 0).value;
      forall n | n in l.order && n in l.fwd && IsExtern(st.w, l.fwd[n])
        ensures n in r.g.stubs && l.fwd[n] in r.g.stubs[n]
      {
        var k :| 0 <= k < |l.order| && l.order[k] == n;
        assert IsExtern(st1.w, l.fwd[l.order[k]]);
      }
    }
  }

  /** Every entry the level binds that is not a visible function, by its
      kind in `w0`, is bound in `w`'s merged unit under some name. */
  ghost predicate LevelOthersBound(w0: World, l: Level, w: World, out: Handle)
    requires IsUnit(w, out)
  {
    forall n :: OtherAt(w0, l, n) ==> l.fwd[n] in Bound(w, out).Values
  }

  /** ... binds every other entry under the name `generate_name` picks ... */
  lemma GatherTopOthers(st: Gathered, out: Handle, top: Unit)
    requires Gathering(st, out)
    ensures var r := GatherTop(st, out, top);
      r.Ok? ==> LevelOthersBound(st.w, top.scope, r.value.w, out)
  {
    if GatherTop(st, out, top).Ok? {
      var l := top.scope;
      var st1 := Absorb(st, out, top);
      GatherScopeOthers(st1, out, l, 0);
      var r := GatherScope(st1, out, l, 0).value;
      forall n | OtherAt(st.w, l, n) ensures l.fwd[n] in Bound(r.w, out).Values {
        var k :| 0 <= k < |l.order| && l.order[k] == n;
        assert !IsVisible(st1.w, l.fwd[l.order[k]]);
      }
    }
  }

  /** ... groups no other stub ... */
  lemma GatherTopOnly(st: Gathered, out: Handle, top: Unit)
    requires Gathering(st, out)
    ensures var r := GatherTop(st, out, top);
      r.Ok? ==> forall n, e :: n in r.value.g.stubs && e in r.value.g.stubs[n] ==>
        (n in st.g.stubs && e in st.g.stubs[n]) || Binds(top.scope, n, e)
  {
    if GatherTop(st, out, top).Ok? {
      GatherScopeOnly(Absorb(st, out, top), out, top.scope, 0);
    }
  }

  /** ... binds no visible function but its own ... */
  lemma GatherTopFrom(st: Gathered, out: Handle, top: Unit)
    requires Gathering(st, out)
    ensures var r := GatherTop(st, out, top);
      r.Ok? ==> BoundFrom(st.w, top.scope, r.value.w, out)
  {
    if GatherTop(st, out, top).Ok? {
      GatherScopeFrom(Absorb(st, out, top), out, top.scope, 0);
    }
  }

  /** Every function the level binds, by its kind in `w`, has its user
      blocks in `blocks`. */
  ghost predicate LevelBlocks(w: World, l: Level, blocks: seq<Handle>)
    requires WfWorld(w)
  {
    forall n, b :: FuncAt(w, l, n) && b in UserBlocks(w, l.fwd[n]) ==> b in blocks
  }

  /** ... gathers the user blocks of its functions, rewriting nothing ... */
  lemma GatherTopBlocks(st: Gathered, out: Handle, top: Unit)
    requires Gathering(st, out)
    ensures var r := GatherTop(st, out, top);
      r.Ok? ==>
        && Untouched(st.w, r.value.w)
        && (forall b :: b in st.blocks ==> b in r.value.blocks)
        && LevelBlocks(st.w, top.scope, r.value.blocks)
  {
    if GatherTop(st, out, top).Ok? {
      var l := top.scope;
      var st1 := Absorb(st, out, top);
      GatherScopeBlocks(st1, out, l, 0);
      var r := GatherScope(st1, out, l, 0).value;
      assert Untouched(st.w, st1.w);
      UntouchedTrans(st.w, st1.w, r.w);
      forall n, b | FuncAt(st.w, l, n) && b in UserBlocks(st.w, l.fwd[n]) ensures b in r.blocks {
        var k :| 0 <= k < |l.order| && l.order[k] == n;
        UserBlocksKept(st.w, st1.w, l.fwd[n]);
      }
    }
  }

  /** ... and fails when one of its functions has a name the merged unit
      binds already. */
  lemma GatherTopRejects(st: Gathered, out: Handle, top: Unit, n: string)
    requires Gathering(st, out)
    requires n in top.scope.order && n in top.scope.fwd && IsFunc(st.w, top.scope.fwd[n])
    requires n in Bound(st.w, out)
    ensures GatherTop(st, out, top).Err?
  {
    if top.finished {
      var l := top.scope;
      var st1 := Absorb(st, out, top);
      var k :| 0 <= k < |l.order| && l.order[k] == n;
      assert IsFunc(st1.w, l.fwd[l.order[k]]);
      GatherScopeRejects(st1, out, l, 0, k);
    }
  }

  /** So when pass 1 gets through a unit, none of its functions had a name
      the merged unit bound before. */
  lemma FreshNames(st0: Gathered, st: Gathered, out: Handle, top: Unit)
    requires Gathering(st0, out) && Gathering(st, out) && Stable(st0.w, st.w)
    requires GatherTop(st, out, top).Ok?
    ensures forall n :: FuncAt(st0.w, top.scope, n) ==> n !in Bound(st.w, out)
  {
    forall n | FuncAt(st0.w, top.scope, n) ensures n !in Bound(st.w, out) {
      assert IsFunc(st.w, top.scope.fwd[n]);
      if n in Bound(st.w, out) {
        GatherTopRejects(st, out, top, n);
      }
    }
  }

  // ---------------------------------------------------------------------
  // Over the units

  /** A level binds a function, by its kind in `w`, under `n`. */
  predicate FuncAt(w: World, l: Level, n: string) {
    n in l.order && n in l.fwd && IsFunc(w, l.fwd[n])
  }

  /** A level binds something other than a visible function, by its kind
      in `w`, under `n`. */
  predicate OtherAt(w: World, l: Level, n: string) {
    n in l.order && n in l.fwd && !IsVisible(w, l.fwd[n])
  }

  /** The preambles of the units, one after another. */
  function Preambles(tops: seq<Unit>): seq<Insn> {
    if |tops| == 0 then [] else Preambles(tops[..|tops| - 1]) + tops[|tops| - 1].preamble
  }

  /** The pragmas of the units, one after another. */
  function Pragmas(tops: seq<Unit>): seq<(string, string)> {
    if |tops| == 0 then [] else Pragmas(tops[..|tops| - 1]) + tops[|tops| - 1].pragmas
  }

  /** What pass 1 has established after the first `i` units: the merged
      unit has their preambles and pragmas in order ... */
  ghost predicate Merged(st0: Gathered, st: Gathered, out: Handle, tops: seq<Unit>, i: nat)
    requires i <= |tops|
  {
    && Gathering(st, out) && IsUnit(st0.w, out) && Keeps(st0, st, out)
    && (forall j :: 0 <= j < i ==> tops[j].finished)
    && U(st.w, out).preamble == U(st0.w, out).preamble + Preambles(tops[..i])
    && U(st.w, out).pragmas == U(st0.w, out).pragmas + Pragmas(tops[..i])
  }

  /** ... binds their functions under their names ... */
  ghost predicate FuncsGathered(st0: Gathered, st: Gathered, out: Handle, tops: seq<Unit>, i: nat)
    requires i <= |tops| && IsUnit(st.w, out)
  {
    forall j :: 0 <= j < i ==> LevelFuncsBound(st0.w, tops[j].scope, st.w, out)
  }

  /** ... groups their stubs under their names ... */
  ghost predicate StubsGathered(st0: Gathered, st: Gathered, tops: seq<Unit>, i: nat)
    requires i <= |tops|
  {
    forall j :: 0 <= j < i ==> LevelStubsGrouped(st0.w, tops[j].scope, st.g)
  }

  /** ... and no other stubs ... */
  ghost predicate OnlyTheirStubs(st0: Gathered, st: Gathered, tops: seq<Unit>, i: nat)
    requires i <= |tops|
  {
    forall n, e :: n in st.g.stubs && e in st.g.stubs[n] ==>
      (n in st0.g.stubs && e in st0.g.stubs[n]) || exists j :: 0 <= j < i && Binds(tops[j].scope, n, e)
  }

  /** ... binds everything else they bind under generated names ... */
  ghost predicate OthersGathered(st0: Gathered, st: Gathered, out: Handle, tops: seq<Unit>, i: nat)
    requires i <= |tops| && IsUnit(st.w, out)
  {
    forall j :: 0 <= j < i ==> LevelOthersBound(st0.w, tops[j].scope, st.w, out)
  }

  /** ... binds no visible function but theirs and what it bound before ... */
  ghost predicate FuncsFromUnits(st0: Gathered, st: Gathered, out: Handle, tops: seq<Unit>, i: nat)
    requires i <= |tops| && IsUnit(st0.w, out) && IsUnit(st.w, out)
  {
    forall n :: n in Bound(st.w, out) && IsVisible(st.w, Bound(st.w, out)[n]) ==>
      (n in Bound(st0.w, out) && Bound(st0.w, out)[n] == Bound(st.w, out)[n])
      || exists j :: 0 <= j < i && Binds(tops[j].scope, n, Bound(st.w, out)[n])
  }

  /** ... gathers the user blocks of their functions ... */
  ghost predicate BlocksGathered(st0: Gathered, st: Gathered, tops: seq<Unit>, i: nat)
    requires i <= |tops| && WfWorld(st0.w)
  {
    && Untouched(st0.w, st.w)
    && forall j :: 0 <= j < i ==> LevelBlocks(st0.w, tops[j].scope, st.blocks)
  }

  /** ... and no two of them, nor one of them and the merged unit as it
      was, have a function under the same name. */
  ghost predicate NamesApart(st0: Gathered, out: Handle, tops: seq<Unit>, i: nat)
    requires i <= |tops| && IsUnit(st0.w, out)
  {
    && (forall j, n :: 0 <= j < i && FuncAt(st0.w, tops[j].scope, n) ==> n !in Bound(st0.w, out))
    && (forall j1, j2, n :: 0 <= j1 < j2 < i && FuncAt(st0.w, tops[j1].scope, n) ==>
          !FuncAt(st0.w, tops[j2].scope, n))
  }

  lemma MergedStep(st0: Gathered, st: Gathered, st1: Gathered, out: Handle, tops: seq<Unit>, i: nat)
    requires i < |tops| && Merged(st0, st, out, tops, i)
    requires Gathering(st1, out) && Keeps(st, st1, out) && tops[i].finished
    requires U(st1.w, out).preamble == U(st.w, out).preamble + tops[i].preamble
    requires U(st1.w, out).pragmas == U(st.w, out).pragmas + tops[i].pragmas
    ensures Merged(st0, st1, out, tops, i + 1)
  {
    KeepsTrans(st0, st, st1, out);
    assert tops[..i + 1][..i] == tops[..i];
  }

  lemma FuncsStep(st0: Gathered, st: Gathered, st1: Gathered, out: Handle, tops: seq<Unit>, i: nat)
    requires i < |tops| && IsUnit(st.w, out) && IsUnit(st1.w, out)
    requires FuncsGathered(st0, st, out, tops, i) && Stable(st0.w, st.w)
    requires Extends(Bound(st.w, out), Bound(st1.w, out))
    requires LevelFuncsBound(st.w, tops[i].scope, st1.w, out)
    ensures FuncsGathered(st0, st1, out, tops, i + 1)
  {
    forall j | 0 <= j < i + 1 ensures LevelFuncsBound(st0.w, tops[j].scope, st1.w, out) {
      var l := tops[j].scope;
      forall n | n in l.order && n in l.fwd && IsFunc(st0.w, l.fwd[n])
        ensures n in Bound(st1.w, out) && Bound(st1.w, out)[n] == l.fwd[n]
      {
        assert IsFunc(st.w, l.fwd[n]);
        if j < i {
          assert LevelFuncsBound(st0.w, tops[j].scope, st.w, out);
        }
      }
    }
  }

  lemma OthersStep(st0: Gathered, st: Gathered, st1: Gathered, out: Handle, tops: seq<Unit>, i: nat)
    requires i < |tops| && IsUnit(st.w, out) && IsUnit(st1.w, out)
    requires OthersGathered(st0, st, out, tops, i) && SigsKept(st0.w, st.w)
    requires Extends(Bound(st.w, out), Bound(st1.w, out))
    requires LevelOthersBound(st.w, tops[i].scope, st1.w, out)
    ensures OthersGathered(st0, st1, out, tops, i + 1)
  {
    forall j | 0 <= j < i + 1 ensures LevelOthersBound(st0.w, tops[j].scope, st1.w, out) {
      var l := tops[j].scope;
      forall n | OtherAt(st0.w, l, n) ensures l.fwd[n] in Bound(st1.w, out).Values {
        if j < i {
          assert LevelOthersBound(st0.w, tops[j].scope, st.w, out);
          var k :| k in Bound(st.w, out) && Bound(st.w, out)[k] == l.fwd[n];
          assert Bound(st1.w, out)[k] == l.fwd[n];
        } else {
          assert OtherAt(st.w, l, n);
        }
      }
    }
  }

  lemma StubsStep(st0: Gathered, st: Gathered, st1: Gathered, tops: seq<Unit>, i: nat)
    requires i < |tops| && StubsGathered(st0, st, tops, i) && Stable(st0.w, st.w)
    requires GroupsGrow(st.g, st1.g)
    requires LevelStubsGrouped(st.w, tops[i].scope, st1.g)
    ensures StubsGathered(st0, st1, tops, i + 1)
  {
    forall j | 0 <= j < i + 1 ensures LevelStubsGrouped(st0.w, tops[j].scope, st1.g) {
      var l := tops[j].scope;
      forall n | n in l.order && n in l.fwd && IsExtern(st0.w, l.fwd[n])
        ensures n in st1.g.stubs && l.fwd[n] in st1.g.stubs[n]
      {
        assert IsExtern(st.w, l.fwd[n]);
        if j < i {
          assert LevelStubsGrouped(st0.w, tops[j].scope, st.g);
        }
      }
    }
  }

  lemma OnlyStep(st0: Gathered, st: Gathered, st1: Gathered, tops: seq<Unit>, i: nat)
    requires i < |tops| && OnlyTheirStubs(st0, st, tops, i)
    requires forall n, e :: n in st1.g.stubs && e in st1.g.stubs[n] ==>
      (n in st.g.stubs && e in st.g.stubs[n]) || Binds(tops[i].scope, n, e)
    ensures OnlyTheirStubs(st0, st1, tops, i + 1)
  {
  }

  lemma FromStep(st0: Gathered, st: Gathered, st1: Gathered, out: Handle, tops: seq<Unit>, i: nat)
    requires i < |tops| && IsUnit(st0.w, out) && IsUnit(st.w, out) && IsUnit(st1.w, out)
    requires FuncsFromUnits(st0, st, out, tops, i) && SigsKept(st.w, st1.w)
    requires BoundFrom(st.w, tops[i].scope, st1.w, out)
    ensures FuncsFromUnits(st0, st1, out, tops, i + 1)
  {
    forall n | n in Bound(st1.w, out) && IsVisible(st1.w, Bound(st1.w, out)[n])
      ensures (n in Bound(st0.w, out) && Bound(st0.w, out)[n] == Bound(st1.w, out)[n])
        || exists j :: 0 <= j < i + 1 && Binds(tops[j].scope, n, Bound(st1.w, out)[n])
    {
      if !Binds(tops[i].scope, n, Bound(st1.w, out)[n]) {
        assert IsVisible(st.w, Bound(st.w, out)[n]);
      }
    }
  }

  lemma BlocksStep(st0: Gathered, st: Gathered, st1: Gathered, tops: seq<Unit>, i: nat)
    requires i < |tops| && WfWorld(st0.w) && WfWorld(st.w) && Stable(st0.w, st.w)
    requires BlocksGathered(st0, st, tops, i)
    requires Untouched(st.w, st1.w) && forall b :: b in st.blocks ==> b in st1.blocks
    requires LevelBlocks(st.w, tops[i].scope, st1.blocks)
    ensures BlocksGathered(st0, st1, tops, i + 1)
  {
    UntouchedTrans(st0.w, st.w, st1.w);
    forall j | 0 <= j < i + 1 ensures LevelBlocks(st0.w, tops[j].scope, st1.blocks) {
      if j < i {
        LevelBlocksGrow(st0.w, tops[j].scope, st.blocks, st1.blocks);
      } else {
        LevelBlocksEarlier(st0.w, st.w, tops[i].scope, st1.blocks);
      }
    }
  }

  /** Gathering more blocks keeps the ones already gathered. */
  lemma LevelBlocksGrow(w: World, l: Level, bs: seq<Handle>, bs2: seq<Handle>)
    requires WfWorld(w) && LevelBlocks(w, l, bs)
    requires forall b :: b in bs ==> b in bs2
    ensures LevelBlocks(w, l, bs2)
  {
  }

  /** A unit's functions had the same user blocks before pass 1 reached it. */
  lemma LevelBlocksEarlier(w0: World, w: World, l: Level, bs: seq<Handle>)
    requires WfWorld(w0) && WfWorld(w) && Stable(w0, w) && Untouched(w0, w)
    requires LevelBlocks(w, l, bs)
    ensures LevelBlocks(w0, l, bs)
  {
    forall n, b | FuncAt(w0, l, n) && b in UserBlocks(w0, l.fwd[n]) ensures b in bs {
      UserBlocksKept(w0, w, l.fwd[n]);
    }
  }

  lemma ApartStep(st0: Gathered, st: Gathered, out: Handle, tops: seq<Unit>, i: nat)
    requires i < |tops| && IsUnit(st0.w, out) && IsUnit(st.w, out)
    requires NamesApart(st0, out, tops, i) && FuncsGathered(st0, st, out, tops, i)
    requires Extends(Bound(st0.w, out), Bound(st.w, out))
    requires forall n :: FuncAt(st0.w, tops[i].scope, n) ==> n !in Bound(st.w, out)
    ensures NamesApart(st0, out, tops, i + 1)
  {
    forall j1, n | 0 <= j1 < i && FuncAt(st0.w, tops[j1].scope, n)
      ensures !FuncAt(st0.w, tops[i].scope, n)
    {
      assert LevelFuncsBound(st0.w, tops[j1].scope, st.w, out);
    }
  }

  /** Pass 1 over the units, in order (`for top in tops`). The units are
      read as they stand when linking starts: pass 1 changes no unit but
      the merged one. It gets through only when every unit is finished and
      no function's name is taken in the merged unit when it comes; then
      the merged unit has every preamble and pragma list in the order of
      the units, every function under its name, and the stubs are grouped
      by name, exactly those the units bind. */
  method GatherUnits(st0: Gathered, out: Handle, tops: seq<Unit>) returns (r: Result<Gathered>)
    requires Gathering(st0, out)
    ensures r.Err? ==> r.error == NotFinished || r.error.DuplicateDefinition?
    ensures r.Err? && r.error == NotFinished ==> exists j :: 0 <= j < |tops| && !tops[j].finished
    ensures r.Ok? ==> Merged(st0, r.value, out, tops, |tops|)
    ensures r.Ok? ==> FuncsGathered(st0, r.value, out, tops, |tops|)
    ensures r.Ok? ==> OthersGathered(st0, r.value, out, tops, |tops|)
    ensures r.Ok? ==> StubsGathered(st0, r.value, tops, |tops|)
    ensures r.Ok? ==> OnlyTheirStubs(st0, r.value, tops, |tops|)
    ensures r.Ok? ==> NamesApart(st0, out, tops, |tops|)
    ensures r.Ok? ==> FuncsFromUnits(st0, r.value, out, tops, |tops|)
    ensures r.Ok? ==> BlocksGathered(st0, r.value, tops, |tops|)
  {
    var st := st0;
    GrowsRefl(st0, out);
    assert Untouched(st0.w, st0.w);
    assert tops[..0] == [];
    for i := 0 to |tops|
      invariant Merged(st0, st, out, tops, i)
      invariant FuncsGathered(st0, st, out, tops, i)
      invariant OthersGathered(st0, st, out, tops, i)
      invariant StubsGathered(st0, st, tops, i)
      invariant OnlyTheirStubs(st0, st, tops, i)
      invariant NamesApart(st0, out, tops, i)
      invariant FuncsFromUnits(st0, st, out, tops, i)
      invariant BlocksGathered(st0, st, tops, i)
    {
      var one := GatherTop(st, out, tops[i]);
      if one.Err? {
        return Err(one.error);
      }
      var st1 := one.value;
      FreshNames(st0, st, out, tops[i]);
      GatherTopBinds(st, out, tops[i]);
      GatherTopOthers(st, out, tops[i]);
      GatherTopStubs(st, out, tops[i]);
      GatherTopOnly(st, out, tops[i]);
      GatherTopFrom(st, out, tops[i]);
      GatherTopBlocks(st, out, tops[i]);
      MergedStep(st0, st, st1, out, tops, i);
      FuncsStep(st0, st, st1, out, tops, i);
      OthersStep(st0, st, st1, out, tops, i);
      StubsStep(st0, st, st1, tops, i);
      OnlyStep(st0, st, st1, tops, i);
      ApartStep(st0, st, out, tops, i);
      FromStep(st0, st, st1, out, tops, i);
      BlocksStep(st0, st, st1, tops, i);
      st := st1;
    }
    assert tops[..|tops|] == tops;
    return Ok(st);
  }
}
