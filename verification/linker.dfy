// The linker (`TopLevel.linker`): several finished units merged into one.
// Pass 1 gathers every unit's bindings into a fresh unit and groups the
// extern stubs by name; pass 2 resolves each group to the function bound
// under its name, or else to its first stub, and rewrites the gathered
// blocks accordingly.

module Linker {
  import opened Common
  import opened Insns
  import opened Scopes
  import opened Ir
  import opened Functions
  import opened Units

  // ---------------------------------------------------------------------
  // Extern groups

  /** The stubs met in pass 1 by name, the names in the order they were
      first met (the `externs` table, an insertion-ordered
      `defaultdict(list)`). */
  datatype Groups = Groups(names: seq<string>, stubs: map<string, seq<Handle>>)

  ghost predicate GroupsOk(g: Groups) {
    && NoDup(g.names)
    && (forall n :: n in g.stubs <==> n in g.names)
    && (forall n :: n in g.stubs ==> |g.stubs[n]| > 0)
  }

  /** Every grouped stub is an extern stub of `w`. */
  ghost predicate GroupedExterns(w: World, g: Groups) {
    forall n, i :: n in g.stubs && 0 <= i < |g.stubs[n]| ==> IsExtern(w, g.stubs[n][i])
  }

  /** No stub is grouped under two names. */
  ghost predicate StubsDistinct(g: Groups) {
    forall n1, n2, e :: n1 in g.stubs && n2 in g.stubs && e in g.stubs[n1] && e in g.stubs[n2] ==> n1 == n2
  }

  lemma GroupedStable(w: World, w2: World, g: Groups)
    requires GroupedExterns(w, g) && Stable(w, w2)
    ensures GroupedExterns(w2, g)
  {
  }

  /** The visible functions of `w2` are those of `w`, with the same
      `finished` flag and signature. */
  ghost predicate SigsKept(w: World, w2: World) {
    forall h :: (IsVisible(w2, h) <==> IsVisible(w, h))
      && (IsVisible(w, h) ==>
            Finished(w2, h) == Finished(w, h) && ParamsOf(w2, h) == ParamsOf(w, h) && ReturnsOf(w2, h) == ReturnsOf(w, h))
  }

  lemma SigsKeptTrans(w1: World, w2: World, w3: World)
    requires SigsKept(w1, w2) && SigsKept(w2, w3)
    ensures SigsKept(w1, w3)
  {
  }

  /** A step that keeps the visible handles keeps the extern stubs. */
  lemma ExternsKept(w: World, w2: World)
    requires Stable(w, w2) && SigsKept(w, w2)
    ensures Externs(w2) == Externs(w)
  {
    forall h | IsExtern(w2, h) ensures IsExtern(w, h) {
      assert IsVisible(w2, h);
    }
  }

  // ---------------------------------------------------------------------
  // Pass 2

  /** The names a unit binds in its own level. */
  function Bound(w: World, u: Handle): map<string, Handle>
    requires IsUnit(w, u)
  {
    U(w, u).scope.fwd
  }

  /** `out.scope[name] = v` on a unit, stated on the unit's own bindings;
      nothing but the unit's level changes. */
  function BindIn(w: World, u: Handle, n: string, v: Handle): (r: World)
    requires WfWorld(w) && IsUnit(w, u)
    ensures WfWorld(r) && Stable(w, r) && IsUnit(r, u) && SigsKept(w, r)
    ensures U(r, u) == U(w, u).(scope := U(r, u).scope)
    ensures Bound(r, u) == Bound(w, u)[n := v]
    ensures r.arena == w.arena[u := r.arena[u]]
  {
    var r := PutUnit(w, u, U(w, u).(scope := Set(U(w, u).scope, n, v)));
    UnitUpdateKeepsSigs(w, r, u);
    r
  }

  /** The write is the one any holder makes (`SetIn`), and reads back
      through the unit's chain. */
  lemma BindInIsSetIn(w: World, u: Handle, n: string, v: Handle)
    requires WfWorld(w) && IsUnit(w, u)
    ensures BindIn(w, u, n, v) == SetIn(w, u, n, v)
    ensures Get(Chain(BindIn(w, u, n, v), u), n) == Ok(v)
  {
  }

  /** A unit's lookup chain is its own level alone. */
  lemma UnitLookup(w: World, u: Handle, n: string)
    requires WfWorld(w) && IsUnit(w, u)
    ensures Contains(Chain(w, u), n) <==> n in Bound(w, u)
    ensures n in Bound(w, u) ==> Get(Chain(w, u), n) == Ok(Bound(w, u)[n])
  {
    assert Contains(Chain(w, u), n) ==> n in Chain(w, u)[0].fwd;
    if n in Bound(w, u) {
      assert InnermostAt(Chain(w, u), n, 0);
    }
  }

  /** What the stubs named `n` resolve to (`concrete or new_extern`): what
      the merged unit binds under `n`, else the first stub of that name. */
  function Resolution(w: World, out: Handle, g: Groups, n: string): Handle
    requires IsUnit(w, out) && n in g.stubs && |g.stubs[n]| > 0
  {
    if n in Bound(w, out) then Bound(w, out)[n] else g.stubs[n][0]
  }

  /** Pass 2 gets through the name `n`: what the stubs resolve to is a
      visible function, and when it is finished every stub has its
      signature (an unfinished one checks them when it ends). */
  predicate Resolvable(w: World, out: Handle, g: Groups, n: string)
    requires IsUnit(w, out) && n in g.stubs && |g.stubs[n]| > 0
  {
    var rep := Resolution(w, out, g, n);
    IsVisible(w, rep)
    && (Finished(w, rep) ==> forall i :: 0 <= i < |g.stubs[n]| ==>
          IsVisible(w, g.stubs[n][i]) && SameSignature(w, g.stubs[n][i], rep))
  }

  /** Resolution and resolvability of a name depend only on what the merged
      unit binds under it and on the signatures of the visible functions. */
  lemma ResolutionKept(w: World, w2: World, out: Handle, g: Groups, n: string)
    requires IsUnit(w, out) && IsUnit(w2, out) && n in g.stubs && |g.stubs[n]| > 0
    requires SigsKept(w, w2)
    requires n in Bound(w2, out) <==> n in Bound(w, out)
    requires n in Bound(w, out) ==> Bound(w2, out)[n] == Bound(w, out)[n]
    ensures Resolution(w2, out, g, n) == Resolution(w, out, g, n)
    ensures Resolvable(w2, out, g, n) == Resolvable(w, out, g, n)
  {
  }

  /** Every block of `w` is a block of `w2` with the same contents. */
  ghost predicate BlocksKept(w: World, w2: World) {
    forall h :: IsBlock(w, h) ==> IsBlock(w2, h) && B(w2, h) == B(w, h)
  }

  lemma BlocksKeptTrans(w1: World, w2: World, w3: World)
    requires BlocksKept(w1, w2) && BlocksKept(w2, w3)
    ensures BlocksKept(w1, w3)
  {
  }

  /** The signature checks of pass 2 for one name, in order: every stub
      runs `extern.expect_signature(replacement)` against `rep`. */
  function ExpectAll(w: World, stubs: seq<Handle>, rep: Handle): (r: Result<World>)
    requires WfWorld(w) && IsVisible(w, rep)
    requires forall i :: 0 <= i < |stubs| ==> IsExtern(w, stubs[i])
    ensures r.Err? ==> r.error == SignatureMismatch
    ensures r.Ok? ==> WfWorld(r.value) && Stable(w, r.value)
    ensures Finished(w, rep) ==> (r.Ok? <==> forall i :: 0 <= i < |stubs| ==> SameSignature(w, stubs[i], rep))
    ensures Finished(w, rep) && r.Ok? ==> r.value == w
    decreases |stubs|
  {
    if |stubs| == 0 then Ok(w)
    else
      var w1 :- ExpectSignature(w, stubs[0], rep);
      assert forall i :: 0 <= i < |stubs[1..]| ==> IsExtern(w1, stubs[1..][i]) by {
        forall i | 0 <= i < |stubs[1..]| ensures IsExtern(w1, stubs[1..][i]) {
          assert IsExtern(w, stubs[i + 1]);
        }
      }
      var r := ExpectAll(w1, stubs[1..], rep);
      assert Finished(w, rep) ==> w1 == w && Finished(w, stubs[0]);
      if r.Ok? then StableTrans(w, w1, r.value); r else r
  }

  /** Against an unfinished function the checks cannot fail: each stub is
      queued on it, in order, and nothing else changes. */
  lemma {:induction false} ExpectAllQueues(w: World, stubs: seq<Handle>, rep: Handle)
    requires WfWorld(w) && IsFunc(w, rep) && !F(w, rep).finished
    requires forall i :: 0 <= i < |stubs| ==> IsExtern(w, stubs[i])
    ensures var r := ExpectAll(w, stubs, rep);
      r.Ok? && IsFunc(r.value, rep)
      && F(r.value, rep) == F(w, rep).(pending := F(w, rep).pending + stubs)
      && r.value.arena == w.arena[rep := FuncEntity(F(r.value, rep))]
    decreases |stubs|
  {
    if |stubs| > 0 {
      var e := stubs[0];
      var w1 := ExpectSignature(w, e, rep).value;
      assert w1.arena == w.arena[rep := FuncEntity(F(w1, rep))];
      assert forall i :: 0 <= i < |stubs[1..]| ==> IsExtern(w1, stubs[1..][i]) by {
        forall i | 0 <= i < |stubs[1..]| ensures IsExtern(w1, stubs[1..][i]) {
          assert IsExtern(w, stubs[i + 1]);
        }
      }
      ExpectAllQueues(w1, stubs[1..], rep);
      var r := ExpectAll(w1, stubs[1..], rep).value;
      assert ExpectAll(w, stubs, rep) == Ok(r);
      UpdateTwice(w.arena, rep, FuncEntity(F(w1, rep)), FuncEntity(F(r, rep)));
      AppendFirst(F(w, rep).pending, stubs);
    }
  }

  lemma AppendFirst<T>(p: seq<T>, s: seq<T>)
    requires |s| > 0
    ensures p + s == (p + [s[0]]) + s[1..]
  {
    assert s == [s[0]] + s[1..];
  }

  lemma UpdateTwice<K, V>(m: map<K, V>, k: K, a: V, b: V)
    ensures m[k := a][k := b] == m[k := b]
  {
  }

  /** The mapping pass 2 adds for one name: every stub other than `rep` is
      mapped to `rep` (`extern_mapping[extern] = replacement`). */
  function Displace(stubs: seq<Handle>, rep: Handle, m: map<Handle, Handle>): (r: map<Handle, Handle>)
    ensures forall e :: e in r <==> e in m || (e in stubs && e != rep)
    ensures forall e :: e in r ==> r[e] == if e in stubs && e != rep then rep else m[e]
    decreases |stubs|
  {
    if |stubs| == 0 then m
    else
      assert stubs == [stubs[0]] + stubs[1..];
      Displace(stubs[1..], rep, if stubs[0] != rep then m[stubs[0] := rep] else m)
  }

  /** An update that only queues checks on one function keeps every
      visible function's signature and `finished` flag. */
  lemma QueueKeepsSigs(w: World, w2: World, f: Handle)
    requires IsFunc(w, f) && IsFunc(w2, f)
    requires F(w2, f) == F(w, f).(pending := F(w2, f).pending)
    requires w2.arena == w.arena[f := FuncEntity(F(w2, f))]
    ensures SigsKept(w, w2)
  {
  }

  /** An update of a unit keeps every visible function as it was. */
  lemma UnitUpdateKeepsSigs(w: World, w2: World, u: Handle)
    requires IsUnit(w, u) && IsUnit(w2, u) && w2.arena == w.arena[u := w2.arena[u]]
    ensures SigsKept(w, w2)
  {
  }

  /** The signature checks of one name change no unit and no signature. */
  lemma ExpectAllFrame(w: World, stubs: seq<Handle>, rep: Handle, out: Handle)
    requires WfWorld(w) && IsVisible(w, rep) && IsUnit(w, out)
    requires forall i :: 0 <= i < |stubs| ==> IsExtern(w, stubs[i])
    ensures var r := ExpectAll(w, stubs, rep);
      r.Ok? ==> SigsKept(w, r.value) && IsUnit(r.value, out) && r.value.arena[out] == w.arena[out]
  {
    if !Finished(w, rep) {
      ExpectAllQueues(w, stubs, rep);
      var w1 := ExpectAll(w, stubs, rep).value;
      QueueKeepsSigs(w, w1, rep);
      assert w1.arena[out] == w.arena[out];
    } else if ExpectAll(w, stubs, rep).Ok? {
      SigsKeptRefl(w);
    }
  }

  /** The signature checks of one name rewrite no block. */
  lemma ExpectAllBlocks(w: World, stubs: seq<Handle>, rep: Handle)
    requires WfWorld(w) && IsVisible(w, rep)
    requires forall i :: 0 <= i < |stubs| ==> IsExtern(w, stubs[i])
    ensures var r := ExpectAll(w, stubs, rep);
      r.Ok? ==> BlocksKept(w, r.value)
  {
    if !Finished(w, rep) {
      ExpectAllQueues(w, stubs, rep);
    }
  }

  lemma SigsKeptRefl(w: World)
    ensures SigsKept(w, w)
  {
  }

  /** `if not concrete: out.store(name, new_extern)`; the store cannot
      fail, since nothing is bound under the name. */
  function BindUnresolved(w: World, out: Handle, n: string, concrete: Option<Handle>, stub: Handle): (r: World)
    requires WfWorld(w) && IsUnit(w, out)
    requires concrete.Some? ==> n in Bound(w, out) && Bound(w, out)[n] == concrete.value
    ensures WfWorld(r) && Stable(w, r) && IsUnit(r, out) && SigsKept(w, r)
    ensures U(r, out) == U(w, out).(scope := U(r, out).scope)
    ensures Bound(r, out) == Bound(w, out)[n := if concrete.Some? then concrete.value else stub]
    ensures BlocksKept(w, r)
  {
    if concrete.Some? then
      SigsKeptRefl(w);
      w
    else
      BindIn(w, out, n, stub)
  }

  /** Pass 2 for one name: look the name up in the merged unit, check every
      stub against what it resolves to, map the other stubs to it, and bind
      the first stub under the name when nothing was bound. */
  function ResolveOne(w: World, out: Handle, g: Groups, n: string, m: map<Handle, Handle>): (r: Result<(World, map<Handle, Handle>)>)
    requires WfWorld(w) && IsUnit(w, out) && n in g.stubs && |g.stubs[n]| > 0 && GroupedExterns(w, g)
    ensures r.Ok? <==> Resolvable(w, out, g, n)
    ensures r.Err? ==> r.error == NotAVisibleFunction(n) || r.error == SignatureMismatch
    ensures r.Ok? ==> WfWorld(r.value.0) && Stable(w, r.value.0) && IsUnit(r.value.0, out) && SigsKept(w, r.value.0)
    ensures r.Ok? ==> U(r.value.0, out) == U(w, out).(scope := U(r.value.0, out).scope)
    ensures r.Ok? ==> Bound(r.value.0, out) == Bound(w, out)[n := Resolution(w, out, g, n)]
    ensures r.Ok? ==> r.value.1 == Displace(g.stubs[n], Resolution(w, out, g, n), m)
    ensures r.Ok? ==> BlocksKept(w, r.value.0)
  {
    var stubs := g.stubs[n];
    UnitLookup(w, out, n);
    var concrete :- LookupFunc(w, out, n);
    var rep := if concrete.Some? then concrete.value else stubs[0];
    assert IsVisible(w, rep) && rep == Resolution(w, out, g, n);
    var checked := ExpectAll(w, stubs, rep);
    assert !Finished(w, rep) ==> checked.Ok? by {
      if !Finished(w, rep) {
        ExpectAllQueues(w, stubs, rep);
      }
    }
    var w1 :- checked;
    ExpectAllFrame(w, stubs, rep, out);
    ExpectAllBlocks(w, stubs, rep);
    var w2 := BindUnresolved(w1, out, n, concrete, stubs[0]);
    SigsKeptTrans(w, w1, w2);
    StableTrans(w, w1, w2);
    BlocksKeptTrans(w, w1, w2);
    Ok((w2, Displace(stubs, rep, m)))
  }

  /** Pass 2 over the names from the `k`-th on, in the order first met. */
  function ResolveNames(w: World, out: Handle, g: Groups, k: nat, m: map<Handle, Handle>): (r: Result<(World, map<Handle, Handle>)>)
    requires WfWorld(w) && IsUnit(w, out) && GroupsOk(g) && GroupedExterns(w, g) && k <= |g.names|
    ensures r.Err? ==> r.error.NotAVisibleFunction? || r.error == SignatureMismatch
    ensures r.Ok? ==> WfWorld(r.value.0) && Stable(w, r.value.0) && IsUnit(r.value.0, out) && SigsKept(w, r.value.0)
    ensures r.Ok? ==> U(r.value.0, out) == U(w, out).(scope := U(r.value.0, out).scope)
    decreases |g.names| - k
  {
    if k == |g.names| then Ok((w, m))
    else
      var one := ResolveOne(w, out, g, g.names[k], m);
      if one.Err? then Err(one.error)
      else
        var w1 := one.value.0;
        GroupedStable(w, w1, g);
        var rest := ResolveNames(w1, out, g, k + 1, one.value.1);
        if rest.Err? then rest
        else
          StableTrans(w, w1, rest.value.0);
          SigsKeptTrans(w, w1, rest.value.0);
          rest
  }

  lemma UnfoldResolveNames(w: World, out: Handle, g: Groups, k: nat, m: map<Handle, Handle>)
    requires WfWorld(w) && IsUnit(w, out) && GroupsOk(g) && GroupedExterns(w, g) && k < |g.names|
    requires ResolveOne(w, out, g, g.names[k], m).Ok?
    requires GroupedExterns(ResolveOne(w, out, g, g.names[k], m).value.0, g)
    ensures var one := ResolveOne(w, out, g, g.names[k], m).value;
      ResolveNames(w, out, g, k, m) == ResolveNames(one.0, out, g, k + 1, one.1)
  {
  }

  /** A step of pass 2 that binds only the `k`-th name leaves the
      resolution of the later names as it was. */
  lemma LaterKept(w: World, w1: World, out: Handle, g: Groups, k: nat, v: Handle)
    requires IsUnit(w, out) && GroupsOk(g) && k < |g.names|
    requires IsUnit(w1, out) && SigsKept(w, w1)
    requires Bound(w1, out) == Bound(w, out)[g.names[k] := v]
    ensures forall j :: k < j < |g.names| ==>
      Resolution(w1, out, g, g.names[j]) == Resolution(w, out, g, g.names[j])
      && Resolvable(w1, out, g, g.names[j]) == Resolvable(w, out, g, g.names[j])
    ensures g.names[k] !in g.names[k + 1..]
  {
    forall j | k < j < |g.names|
      ensures Resolution(w1, out, g, g.names[j]) == Resolution(w, out, g, g.names[j])
      ensures Resolvable(w1, out, g, g.names[j]) == Resolvable(w, out, g, g.names[j])
    {
      assert g.names[j] != g.names[k];
      ResolutionKept(w, w1, out, g, g.names[j]);
    }
    forall j | k + 1 <= j < |g.names| ensures g.names[j] != g.names[k] { }
  }

  /** Pass 2 gets through exactly when every name from the `k`-th on is
      resolvable: this direction from the names to the outcome ... */
  lemma {:induction false} ResolvableGetsThrough(w: World, out: Handle, g: Groups, k: nat, m: map<Handle, Handle>)
    requires WfWorld(w) && IsUnit(w, out) && GroupsOk(g) && GroupedExterns(w, g) && k <= |g.names|
    requires forall j :: k <= j < |g.names| ==> Resolvable(w, out, g, g.names[j])
    ensures ResolveNames(w, out, g, k, m).Ok?
    decreases |g.names| - k
  {
    if k < |g.names| {
      assert Resolvable(w, out, g, g.names[k]);
      var one := ResolveOne(w, out, g, g.names[k], m).value;
      GroupedStable(w, one.0, g);
      UnfoldResolveNames(w, out, g, k, m);
      LaterKept(w, one.0, out, g, k, Resolution(w, out, g, g.names[k]));
      ResolvableGetsThrough(one.0, out, g, k + 1, one.1);
    }
  }

  /** ... and this one from the outcome back to the names. */
  lemma {:induction false} GetsThroughResolvable(w: World, out: Handle, g: Groups, k: nat, m: map<Handle, Handle>)
    requires WfWorld(w) && IsUnit(w, out) && GroupsOk(g) && GroupedExterns(w, g) && k <= |g.names|
    requires ResolveNames(w, out, g, k, m).Ok?
    ensures forall j :: k <= j < |g.names| ==> Resolvable(w, out, g, g.names[j])
    decreases |g.names| - k
  {
    if k < |g.names| {
      var one := ResolveOne(w, out, g, g.names[k], m).value;
      GroupedStable(w, one.0, g);
      UnfoldResolveNames(w, out, g, k, m);
      LaterKept(w, one.0, out, g, k, Resolution(w, out, g, g.names[k]));
      GetsThroughResolvable(one.0, out, g, k + 1, one.1);
      forall j | k < j < |g.names| ensures Resolvable(w, out, g, g.names[j]) {
        assert Resolvable(one.0, out, g, g.names[j]);
      }
    }
  }

  /** After pass 2 the names from the `k`-th on are bound to what they
      resolve to ... */
  lemma {:induction false} ResolveNamesBinds(w: World, out: Handle, g: Groups, k: nat, m: map<Handle, Handle>)
    requires WfWorld(w) && IsUnit(w, out) && GroupsOk(g) && GroupedExterns(w, g) && k <= |g.names|
    ensures var r := ResolveNames(w, out, g, k, m);
      r.Ok? ==> forall j :: k <= j < |g.names| ==>
        g.names[j] in Bound(r.value.0, out) && Bound(r.value.0, out)[g.names[j]] == Resolution(w, out, g, g.names[j])
    decreases |g.names| - k
  {
    if k < |g.names| && ResolveNames(w, out, g, k, m).Ok? {
      var n := g.names[k];
      var one := ResolveOne(w, out, g, n, m).value;
      var w1 := one.0;
      GroupedStable(w, w1, g);
      UnfoldResolveNames(w, out, g, k, m);
      LaterKept(w, w1, out, g, k, Resolution(w, out, g, n));
      ResolveNamesBinds(w1, out, g, k + 1, one.1);
      ResolveNamesKeeps(w1, out, g, k + 1, one.1);
      var r := ResolveNames(w1, out, g, k + 1, one.1).value.0;
      forall j | k <= j < |g.names|
        ensures g.names[j] in Bound(r, out) && Bound(r, out)[g.names[j]] == Resolution(w, out, g, g.names[j])
      {
        if j == k {
          assert n in Bound(w1, out) && Bound(w1, out)[n] == Resolution(w, out, g, n);
        } else {
          assert Resolution(w1, out, g, g.names[j]) == Resolution(w, out, g, g.names[j]);
        }
      }
    }
  }

  /** ... and every other name as before. */
  lemma {:induction false} ResolveNamesKeeps(w: World, out: Handle, g: Groups, k: nat, m: map<Handle, Handle>)
    requires WfWorld(w) && IsUnit(w, out) && GroupsOk(g) && GroupedExterns(w, g) && k <= |g.names|
    ensures var r := ResolveNames(w, out, g, k, m);
      r.Ok? ==> forall n :: n !in g.names[k..] ==>
        (n in Bound(r.value.0, out) <==> n in Bound(w, out))
        && (n in Bound(w, out) ==> Bound(r.value.0, out)[n] == Bound(w, out)[n])
    decreases |g.names| - k
  {
    if k < |g.names| && ResolveNames(w, out, g, k, m).Ok? {
      var one := ResolveOne(w, out, g, g.names[k], m).value;
      GroupedStable(w, one.0, g);
      UnfoldResolveNames(w, out, g, k, m);
      ResolveNamesKeeps(one.0, out, g, k + 1, one.1);
      SliceCons(g.names, k);
    }
  }

  /** Pass 2 rewrites no block. */
  lemma {:induction false} ResolveNamesBlocks(w: World, out: Handle, g: Groups, k: nat, m: map<Handle, Handle>)
    requires WfWorld(w) && IsUnit(w, out) && GroupsOk(g) && GroupedExterns(w, g) && k <= |g.names|
    ensures var r := ResolveNames(w, out, g, k, m);
      r.Ok? ==> BlocksKept(w, r.value.0)
    decreases |g.names| - k
  {
    if k < |g.names| && ResolveNames(w, out, g, k, m).Ok? {
      var one := ResolveOne(w, out, g, g.names[k], m).value;
      GroupedStable(w, one.0, g);
      UnfoldResolveNames(w, out, g, k, m);
      ResolveNamesBlocks(one.0, out, g, k + 1, one.1);
    }
  }

  /** After pass 2 the merged unit binds what it bound before, and each
      grouped name to what it resolves to. */
  lemma ResolveNamesExtends(w: World, out: Handle, g: Groups, m: map<Handle, Handle>)
    requires WfWorld(w) && IsUnit(w, out) && GroupsOk(g) && GroupedExterns(w, g)
    ensures var r := ResolveNames(w, out, g, 0, m);
      r.Ok? ==>
        && (forall n :: n in Bound(w, out) ==> n in Bound(r.value.0, out) && Bound(r.value.0, out)[n] == Bound(w, out)[n])
        && (forall n :: n in g.stubs ==> n in Bound(r.value.0, out) && Bound(r.value.0, out)[n] == Resolution(w, out, g, n))
  {
    if ResolveNames(w, out, g, 0, m).Ok? {
      ResolveNamesBinds(w, out, g, 0, m);
      ResolveNamesKeeps(w, out, g, 0, m);
      assert g.names[0..] == g.names;
      forall n | n in g.stubs ensures n in Bound(ResolveNames(w, out, g, 0, m).value.0, out) {
        var j :| 0 <= j < |g.names| && g.names[j] == n;
      }
    }
  }

  /** What each grouped name resolves to. */
  function Targets(w: World, out: Handle, g: Groups): (t: map<string, Handle>)
    requires IsUnit(w, out) && forall n :: n in g.stubs ==> |g.stubs[n]| > 0
    ensures t.Keys == g.stubs.Keys
    ensures forall n :: n in t ==> t[n] == Resolution(w, out, g, n)
  {
    map n | n in g.stubs :: Resolution(w, out, g, n)
  }

  /** The mapping pass 2 builds from the `k`-th name on, given what each
      name resolves to. */
  function Mapping(g: Groups, t: map<string, Handle>, k: nat, m: map<Handle, Handle>): map<Handle, Handle>
    requires k <= |g.names| && forall n :: n in g.names ==> n in g.stubs && n in t
    decreases |g.names| - k
  {
    if k == |g.names| then m
    else Mapping(g, t, k + 1, Displace(g.stubs[g.names[k]], t[g.names[k]], m))
  }

  /** The mapping reads the resolution of the names from the `k`-th on only. */
  lemma {:induction false} MappingAgrees(g: Groups, t1: map<string, Handle>, t2: map<string, Handle>, k: nat, m: map<Handle, Handle>)
    requires k <= |g.names| && forall n :: n in g.names ==> n in g.stubs && n in t1 && n in t2
    requires forall j :: k <= j < |g.names| ==> t1[g.names[j]] == t2[g.names[j]]
    ensures Mapping(g, t1, k, m) == Mapping(g, t2, k, m)
    decreases |g.names| - k
  {
    if k < |g.names| {
      MappingAgrees(g, t1, t2, k + 1, Displace(g.stubs[g.names[k]], t1[g.names[k]], m));
    }
  }

  /** Every stub of the names from the `k`-th on other than its name's
      resolution is mapped to that resolution, when no stub is grouped
      under two names ... */
  lemma {:induction false} MappingMaps(g: Groups, t: map<string, Handle>, k: nat, m: map<Handle, Handle>)
    requires GroupsOk(g) && StubsDistinct(g) && k <= |g.names| && forall n :: n in g.names ==> n in t
    ensures forall j, e :: k <= j < |g.names| && e in g.stubs[g.names[j]] && e != t[g.names[j]] ==>
      e in Mapping(g, t, k, m) && Mapping(g, t, k, m)[e] == t[g.names[j]]
    decreases |g.names| - k
  {
    if k < |g.names| {
      var n := g.names[k];
      var m1 := Displace(g.stubs[n], t[n], m);
      MappingMaps(g, t, k + 1, m1);
      var r := Mapping(g, t, k + 1, m1);
      assert Mapping(g, t, k, m) == r;
      forall j, e | k <= j < |g.names| && e in g.stubs[g.names[j]] && e != t[g.names[j]]
        ensures e in r && r[e] == t[g.names[j]]
      {
        if j == k {
          LaterGroupsOmit(g, k, e);
          MappingMapsHead(g, t, k, m, e);
        }
      }
    }
  }

  /** A stub of the `k`-th name grouped under no later name ends up mapped
      to that name's resolution. */
  lemma {:induction false} MappingMapsHead(g: Groups, t: map<string, Handle>, k: nat, m: map<Handle, Handle>, e: Handle)
    requires k < |g.names| && forall n :: n in g.names ==> n in g.stubs && n in t
    requires e in g.stubs[g.names[k]] && e != t[g.names[k]]
    requires forall j :: k < j < |g.names| ==> e !in g.stubs[g.names[j]]
    ensures e in Mapping(g, t, k, m) && Mapping(g, t, k, m)[e] == t[g.names[k]]
  {
    var n := g.names[k];
    var m1 := Displace(g.stubs[n], t[n], m);
    MappingKeeps(g, t, k + 1, m1, e);
  }

  /** A stub grouped under the `k`-th name is grouped under no later one. */
  lemma LaterGroupsOmit(g: Groups, k: nat, e: Handle)
    requires GroupsOk(g) && StubsDistinct(g) && k < |g.names| && e in g.stubs[g.names[k]]
    ensures forall j :: k < j < |g.names| ==> e !in g.stubs[g.names[j]]
  {
    forall j | k < j < |g.names| ensures e !in g.stubs[g.names[j]] {
      assert g.names[j] != g.names[k];
    }
  }

  /** The mapping keeps the entry of a handle grouped under none of the
      names from the `k`-th on. */
  lemma {:induction false} MappingKeeps(g: Groups, t: map<string, Handle>, k: nat, m: map<Handle, Handle>, e: Handle)
    requires k <= |g.names| && forall n :: n in g.names ==> n in g.stubs && n in t
    requires e in m && forall j :: k <= j < |g.names| ==> e !in g.stubs[g.names[j]]
    ensures e in Mapping(g, t, k, m) && Mapping(g, t, k, m)[e] == m[e]
    decreases |g.names| - k
  {
    if k < |g.names| {
      MappingKeeps(g, t, k + 1, Displace(g.stubs[g.names[k]], t[g.names[k]], m), e);
    }
  }

  /** ... and every entry the mapping adds or changes belongs to a stub of
      one of those names other than its resolution. */
  lemma {:induction false} MappingOnly(g: Groups, t: map<string, Handle>, k: nat, m: map<Handle, Handle>)
    requires GroupsOk(g) && k <= |g.names| && forall n :: n in g.names ==> n in t
    ensures forall e :: e in m ==> e in Mapping(g, t, k, m)
    ensures forall e :: e in Mapping(g, t, k, m) && !(e in m && Mapping(g, t, k, m)[e] == m[e]) ==>
      exists j :: k <= j < |g.names| && e in g.stubs[g.names[j]] && e != t[g.names[j]]
    decreases |g.names| - k
  {
    if k < |g.names| {
      var n := g.names[k];
      var m1 := Displace(g.stubs[n], t[n], m);
      MappingOnly(g, t, k + 1, m1);
    }
  }

  /** When each name resolves to its first stub or to something that is no
      stub at all, and no stub is grouped twice, no stub is mapped to a
      stub that is itself mapped: one rewrite leaves no mapped stub behind. */
  lemma {:induction false} MappingSettles(g: Groups, t: map<string, Handle>)
    requires GroupsOk(g) && StubsDistinct(g) && forall n :: n in g.names ==> n in t
    requires forall n, n' :: n in g.names && n' in g.names && t[n] in g.stubs[n'] ==> t[n] == g.stubs[n][0]
    ensures var r := Mapping(g, t, 0, map[]);
      forall e :: e in r ==> r[e] !in r
  {
    var r := Mapping(g, t, 0, map[]);
    MappingMaps(g, t, 0, map[]);
    MappingOnly(g, t, 0, map[]);
    forall e | e in r ensures r[e] !in r {
      var j :| 0 <= j < |g.names| && e in g.stubs[g.names[j]] && e != t[g.names[j]];
      forall j' | 0 <= j' < |g.names| && r[e] in g.stubs[g.names[j']] ensures r[e] == t[g.names[j']] {
        SettledTarget(g, t, g.names[j], g.names[j']);
      }
    }
  }

  /** A resolution that is a stub of some name is the first stub of its own
      name, hence grouped under that name alone. */
  lemma {:induction false} SettledTarget(g: Groups, t: map<string, Handle>, n: string, n': string)
    requires GroupsOk(g) && StubsDistinct(g) && forall n :: n in g.names ==> n in t
    requires forall n, n' :: n in g.names && n' in g.names && t[n] in g.stubs[n'] ==> t[n] == g.stubs[n][0]
    requires n in g.names && n' in g.names && t[n] in g.stubs[n']
    ensures t[n] == t[n']
  {
    assert t[n] in g.stubs[n];
  }

  /** The mapping pass 2 builds is `Mapping` over the resolutions as they
      stand before pass 2. */
  lemma {:induction false} ResolveNamesMapping(w: World, out: Handle, g: Groups, k: nat, m: map<Handle, Handle>)
    requires WfWorld(w) && IsUnit(w, out) && GroupsOk(g) && GroupedExterns(w, g) && k <= |g.names|
    ensures var r := ResolveNames(w, out, g, k, m);
      r.Ok? ==> r.value.1 == Mapping(g, Targets(w, out, g), k, m)
    decreases |g.names| - k
  {
    if k < |g.names| && ResolveNames(w, out, g, k, m).Ok? {
      var n := g.names[k];
      var one := ResolveOne(w, out, g, n, m).value;
      var w1 := one.0;
      GroupedStable(w, w1, g);
      UnfoldResolveNames(w, out, g, k, m);
      LaterKept(w, w1, out, g, k, Resolution(w, out, g, n));
      ResolveNamesMapping(w1, out, g, k + 1, one.1);
      MappingAgrees(g, Targets(w1, out, g), Targets(w, out, g), k + 1, one.1);
    }
  }

  lemma SliceCons<T>(s: seq<T>, k: nat)
    requires k < |s|
    ensures s[k..] == [s[k]] + s[k + 1..]
  {
  }
}
