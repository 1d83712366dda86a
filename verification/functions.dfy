/** The lifecycle of an `IRFunction` up to its frame layout
    (cmd_ir/core.py, `IRFunction` and `VisibleFunction`): creating blocks,
    counting uses, closing the function, checking signatures now or once the
    function is finished, and the call-shape rules of `validate_args`. */
module Functions {
  import opened Common
  import opened Insns
  import opened Scopes
  import opened Blocks
  import opened Ir

  // ---------------------------------------------------------------------
  // Blocks of a function

  /** The blocks among `vs`, in order. */
  function BlocksIn(w: World, vs: seq<Handle>): (bs: seq<Handle>)
    ensures forall i :: 0 <= i < |bs| ==> IsBlock(w, bs[i])
    ensures forall h :: h in bs <==> h in vs && IsBlock(w, h)
    ensures Subsequence(bs, vs)
  {
    if |vs| == 0 then []
    else
      var rest := BlocksIn(w, vs[1..]);
      assert vs == [vs[0]] + vs[1..];
      if IsBlock(w, vs[0]) then [vs[0]] + rest else rest
  }

  /** `allblocks`: every block bound in the function's own scope, in
      insertion order (the two super-blocks included). */
  function AllBlocks(w: World, f: Handle): (bs: seq<Handle>)
    requires WfWorld(w) && IsFunc(w, f)
    ensures forall i :: 0 <= i < |bs| ==> IsBlock(w, bs[i])
    ensures forall h {:trigger h in bs} :: h in bs <==> h in Values(F(w, f).scope) && IsBlock(w, h)
    ensures Subsequence(bs, Values(F(w, f).scope))
  {
    BlocksIn(w, Values(F(w, f).scope))
  }

  /** `is_defined`: before finalization a function is defined once it has a
      user block; afterwards any block counts. */
  predicate IsDefined(w: World, f: Handle)
    requires WfWorld(w) && IsFunc(w, f)
  {
    if !F(w, f).finalized then |UserBlocks(w, f)| > 0 else |AllBlocks(w, f)| > 0
  }

  /** A function just declared has no user block, so it is not defined
      yet: `is_defined` becomes true only with its first block. */
  lemma NewFunctionUndefined(w: World, name: string, unit: Handle, pending: seq<Handle>)
    requires WfWorld(w) && IsUnit(w, unit)
    ensures var (r, f) := NewFunction(w, name, unit, pending);
      !IsDefined(r, f) && F(r, f).use == 0
  {
  }

  /** A value bound under a listed name shows up among the level's values. */
  lemma {:induction false} BoundValueListed(names: seq<string>, fwd: map<string, Handle>, n: string)
    requires n in names && n in fwd
    ensures fwd[n] in ValuesOf(names, fwd)
  {
    if names[0] != n {
      BoundValueListed(names[1..], fwd, n);
    }
  }

  /** `create_block(hint)`: a defined, empty user block bound under
      `uniq_name(hint)` in the function's scope. */
  function CreateBlock(w: World, f: Handle, hint: string): (r: (World, Handle))
    requires WfWorld(w) && IsFunc(w, f)
    ensures WfWorld(r.0) && Stable(w, r.0) && r.1 !in w.arena
    ensures IsBlock(r.0, r.1) && IsFunc(r.0, f)
    ensures B(r.0, r.1) == NewBlock(FreshName(Chain(w, f), hint), f).(defined := true)
    ensures Chain(r.0, f) == SetLocal(Chain(w, f), FreshName(Chain(w, f), hint), r.1)
  {
    var name := FreshName(Chain(w, f), hint);
    var (w1, h) := AllocBlock(w, NewBlock(name, f).(defined := true));
    assert Chain(w1, f) == Chain(w, f);
    (SetIn(w1, f, name, h), h)
  }

  /** A created block is one of the function's user blocks, so the function
      counts as defined from then on (until it is finalized). */
  lemma CreateBlockDefines(w: World, f: Handle, hint: string)
    requires WfWorld(w) && IsFunc(w, f)
    ensures var (r, h) := CreateBlock(w, f, hint);
      h in UserBlocks(r, f) && (!F(r, f).finalized ==> IsDefined(r, f))
  {
    var (r, h) := CreateBlock(w, f, hint);
    var name := FreshName(Chain(w, f), hint);
    var l := F(w, f).scope;
    assert !Contains(Chain(w, f), name);
    assert Chain(w, f)[0] == l;
    assert name !in l.fwd;
    var l' := Set(l, name, h);
    assert F(r, f).scope == l';
    assert name in l'.order;
    BoundValueListed(l'.order, l'.fwd, name);
    assert h in Values(l');
    assert F(r, f).entry < w.next && F(r, f).exit < w.next;
  }

  // ---------------------------------------------------------------------
  // Usage

  /** `IRFunction.usage`: one more use of the function, one use of its first
      block and, before finalization, one of its first user block. An extern
      stub ignores the call. Without the blocks to count the source fails
      on an index. */
  function Usage(w: World, f: Handle): (r: Result<World>)
    requires WfWorld(w) && IsVisible(w, f)
    ensures IsExtern(w, f) ==> r == Ok(w)
    ensures IsFunc(w, f) ==> (r.Ok? <==> |AllBlocks(w, f)| > 0 && (F(w, f).finalized || |UserBlocks(w, f)| > 0))
    ensures r.Ok? ==> WfWorld(r.value) && Stable(w, r.value)
    ensures r.Ok? && IsFunc(w, f) ==> IsFunc(r.value, f) && F(r.value, f) == F(w, f).(use := F(w, f).use + 1)
    ensures r.Ok? && IsFunc(w, f) && F(w, f).finalized ==>
      var a := AllBlocks(w, f)[0];
      IsBlock(r.value, a) && B(r.value, a) == Blocks.Usage(B(w, a))
    ensures r.Ok? && IsFunc(w, f) && !F(w, f).finalized ==>
      var a, u := AllBlocks(w, f)[0], UserBlocks(w, f)[0];
      && IsBlock(r.value, a) && IsBlock(r.value, u)
      && B(r.value, u) == Blocks.Usage(if u == a then Blocks.Usage(B(w, a)) else B(w, u))
      && (u != a ==> B(r.value, a) == Blocks.Usage(B(w, a)))
    ensures r.Ok? && IsFunc(w, f) ==> r.value.arena.Keys == w.arena.Keys && forall h :: h in w.arena ==>
      h == f || h == AllBlocks(w, f)[0] || (!F(w, f).finalized && h == UserBlocks(w, f)[0]) || r.value.arena[h] == w.arena[h]
  {
    if IsExtern(w, f) then Ok(w)
    else
      var all := AllBlocks(w, f);
      var user := UserBlocks(w, f);
      if |all| == 0 then Err(NoBlocks)
      else if !F(w, f).finalized && |user| == 0 then Err(NoUserBlock)
      else
        Ok(CountUse(w, f))
  }

  /** The counting part of `usage` and `entry_point_usage`, once the blocks
      to count are known to exist. */
  function CountUse(w: World, f: Handle): (r: World)
    requires WfWorld(w) && IsFunc(w, f)
    requires |AllBlocks(w, f)| > 0 && (F(w, f).finalized || |UserBlocks(w, f)| > 0)
    ensures WfWorld(r) && Stable(w, r)
    ensures IsFunc(r, f) && F(r, f) == F(w, f).(use := F(w, f).use + 1)
    ensures F(w, f).finalized ==>
      var a := AllBlocks(w, f)[0];
      IsBlock(r, a) && B(r, a) == Blocks.Usage(B(w, a))
    ensures !F(w, f).finalized ==>
      var a, u := AllBlocks(w, f)[0], UserBlocks(w, f)[0];
      && IsBlock(r, a) && IsBlock(r, u)
      && B(r, u) == Blocks.Usage(if u == a then Blocks.Usage(B(w, a)) else B(w, u))
      && (u != a ==> B(r, a) == Blocks.Usage(B(w, a)))
    ensures r.arena.Keys == w.arena.Keys && forall h :: h in w.arena ==>
      h == f || h == AllBlocks(w, f)[0] || (!F(w, f).finalized && h == UserBlocks(w, f)[0]) || r.arena[h] == w.arena[h]
  {
    var all := AllBlocks(w, f);
    var w1 := PutFunc(w, f, F(w, f).(use := F(w, f).use + 1));
    var w2 := UseBlock(w1, all[0]);
    StableTrans(w, w1, w2);
    if F(w, f).finalized then w2
    else
      var user := UserBlocks(w, f);
      var w3 := UseBlock(w2, user[0]);
      StableTrans(w, w2, w3);
      w3
  }

  /** One use of one block; every other entity is left as it was. */
  function UseBlock(w: World, b: Handle): (r: World)
    requires WfWorld(w) && IsBlock(w, b)
    ensures WfWorld(r) && Stable(w, r) && IsBlock(r, b) && B(r, b) == Blocks.Usage(B(w, b))
    ensures r.arena.Keys == w.arena.Keys
    ensures forall h :: h in w.arena && h != b ==> r.arena[h] == w.arena[h]
  {
    PutBlock(w, b, Blocks.Usage(B(w, b)))
  }

  /** Before finalization a use of the function is a use of its first user
      block; the pinned entry block does not count it. */
  lemma UsageCountsFirstBlock(w: World, f: Handle)
    requires WfWorld(w) && IsFunc(w, f) && !F(w, f).finalized
    requires |AllBlocks(w, f)| > 0 && |UserBlocks(w, f)| > 0
    requires AllBlocks(w, f)[0] == F(w, f).entry
    requires !B(w, F(w, f).entry).clear && !B(w, UserBlocks(w, f)[0]).super
    ensures var r := Usage(w, f).value; var b := UserBlocks(w, f)[0];
      IsBlock(r, b) && UseCount(B(r, b)) == UseCount(B(w, b)) + 1
      && UseCount(B(r, F(w, f).entry)) == 2
  {
    var all := AllBlocks(w, f);
    var user := UserBlocks(w, f);
    var w1 := PutFunc(w, f, F(w, f).(use := F(w, f).use + 1));
    var w2 := PutBlock(w1, all[0], Blocks.Usage(B(w1, all[0])));
    assert B(w2, user[0]) == B(w, user[0]);
    assert B(w2, all[0]) == B(w, all[0]);
  }

  /** After finalization the entry block has been handed over, so a use of
      the function is one more use of the entry block and the user blocks
      are not counted. */
  lemma UsageCountsEntry(w: World, f: Handle)
    requires WfWorld(w) && IsFunc(w, f) && F(w, f).finalized
    requires |AllBlocks(w, f)| > 0 && AllBlocks(w, f)[0] == F(w, f).entry
    requires B(w, F(w, f).entry).clear
    ensures Usage(w, f).Ok?
    ensures var r := Usage(w, f).value;
      && IsBlock(r, F(w, f).entry) && UseCount(B(r, F(w, f).entry)) == UseCount(B(w, F(w, f).entry)) + 1
      && forall b :: b in UserBlocks(w, f) ==> IsBlock(r, b) && B(r, b) == B(w, b)
  {
  }

  // ---------------------------------------------------------------------
  // Signatures

  predicate SameSignature(w: World, a: Handle, b: Handle)
    requires IsVisible(w, a) && IsVisible(w, b)
  {
    ParamsOf(w, a) == ParamsOf(w, b) && ReturnsOf(w, a) == ReturnsOf(w, b)
  }

  /** Every function a function waits on is a visible function other than
      itself (a function only waits while it is unfinished, and only on a
      finished one). */
  predicate PendingOk(w: World, f: Handle)
    requires IsFunc(w, f)
  {
    forall i :: 0 <= i < |F(w, f).pending| ==> IsVisible(w, F(w, f).pending[i]) && F(w, f).pending[i] != f
  }

  /** `expect_signature(other)`. On a function: `other` must be finished; an
      unfinished function queues the check for its `end`, a finished one
      compares parameters and returns now. On an extern stub: an unfinished
      `other` is asked to check against the stub instead, a finished one is
      compared now. */
  function ExpectSignature(w: World, self: Handle, other: Handle): (r: Result<World>)
    requires WfWorld(w) && IsVisible(w, self) && IsVisible(w, other)
    ensures r.Err? ==> r.error == NotFinished || r.error == SignatureMismatch
    ensures r.Err? && IsExtern(w, self) ==> r.error == SignatureMismatch
    ensures Finished(w, self) && Finished(w, other) ==> (r.Ok? <==> SameSignature(w, self, other))
    ensures Finished(w, self) && Finished(w, other) && r.Ok? ==> r.value == w
    ensures r.Ok? ==> WfWorld(r.value) && Stable(w, r.value)
    ensures r.Ok? && IsFunc(w, self) ==> IsFunc(r.value, self) && (PendingOk(w, self) ==> PendingOk(r.value, self))
    ensures r.Ok? && IsFunc(w, other) ==> IsFunc(r.value, other) && (PendingOk(w, other) ==> PendingOk(r.value, other))
    ensures IsFunc(w, self) && !Finished(w, self) ==>
      (r.Ok? <==> Finished(w, other))
      && (r.Ok? ==> F(r.value, self) == F(w, self).(pending := F(w, self).pending + [other]))
    ensures IsExtern(w, self) && !Finished(w, other) ==>
      r.Ok? && F(r.value, other) == F(w, other).(pending := F(w, other).pending + [self])
    ensures r.Ok? && IsFunc(w, self) ==> self in r.value.arena && r.value.arena == w.arena[self := r.value.arena[self]]
    ensures r.Ok? && IsExtern(w, self) ==> other in r.value.arena && r.value.arena == w.arena[other := r.value.arena[other]]
    decreases if IsFunc(w, self) then 0 else 1
  {
    if IsFunc(w, self) then
      if !Finished(w, other) then Err(NotFinished)
      else if !F(w, self).finished then
        Ok(PutFunc(w, self, F(w, self).(pending := F(w, self).pending + [other])))
      else if SameSignature(w, self, other) then Ok(w)
      else Err(SignatureMismatch)
    else if !Finished(w, other) then
      ExpectSignature(w, other, self)
    else if SameSignature(w, self, other) then Ok(w)
    else Err(SignatureMismatch)
  }

  /** The checks `end` runs for the queued functions, in queue order. */
  function CheckPending(w: World, f: Handle, ps: seq<Handle>): (r: Outcome)
    requires IsFunc(w, f) && forall i :: 0 <= i < |ps| ==> IsVisible(w, ps[i])
    ensures r.Pass? <==> forall i :: 0 <= i < |ps| ==> Finished(w, ps[i]) && SameSignature(w, f, ps[i])
  {
    if |ps| == 0 then Pass
    else if !Finished(w, ps[0]) then Fail(NotFinished)
    else if !SameSignature(w, f, ps[0]) then Fail(SignatureMismatch)
    else CheckPending(w, f, ps[1..])
  }

  /** `end` of every user block, in order: each must be defined. */
  function EndBlocks(w: World, bs: seq<Handle>): (r: Outcome)
    requires forall i :: 0 <= i < |bs| ==> IsBlock(w, bs[i])
    ensures r.Pass? <==> forall i :: 0 <= i < |bs| ==> B(w, bs[i]).defined
  {
    if |bs| == 0 then Pass
    else if !B(w, bs[0]).defined then Fail(BlockUndefined)
    else EndBlocks(w, bs[1..])
  }

  /** `IRFunction.end`: a defined, unfinished function whose user blocks are
      all defined becomes finished, and every signature check queued while
      it was unfinished runs then. */
  function End(w: World, f: Handle): (r: Result<World>)
    requires WfWorld(w) && IsFunc(w, f) && PendingOk(w, f)
    ensures r.Ok? <==>
      && IsDefined(w, f)
      && !F(w, f).finished
      && (forall i :: 0 <= i < |UserBlocks(w, f)| ==> B(w, UserBlocks(w, f)[i]).defined)
      && (forall i :: 0 <= i < |F(w, f).pending| ==>
            Finished(w, F(w, f).pending[i]) && ParamsOf(w, F(w, f).pending[i]) == F(w, f).params
            && ReturnsOf(w, F(w, f).pending[i]) == F(w, f).results)
    ensures r.Ok? ==> WfWorld(r.value) && Stable(w, r.value)
    ensures r.Ok? ==> r.value.arena == w.arena[f := FuncEntity(F(w, f).(finished := true))]
  {
    if !IsDefined(w, f) then Err(FunctionUndefined)
    else if F(w, f).finished then Err(AlreadyFinished)
    else
      :- EndBlocks(w, UserBlocks(w, f));
      var w1 := PutFunc(w, f, F(w, f).(finished := true));
      var ps := F(w, f).pending;
      OthersKept(w, w1, f, ps);
      :- CheckPending(w1, f, ps);
      Ok(w1)
  }

  /** Rewriting one entity leaves every other visible function's
      signature and finished flag as they were. */
  lemma OthersKept(w: World, w1: World, f: Handle, ps: seq<Handle>)
    requires f in w.arena && f in w1.arena && w1.arena == w.arena[f := w1.arena[f]]
    requires forall i :: 0 <= i < |ps| ==> IsVisible(w, ps[i]) && ps[i] != f
    ensures forall i :: 0 <= i < |ps| ==>
      IsVisible(w1, ps[i]) && Finished(w1, ps[i]) == Finished(w, ps[i])
      && ParamsOf(w1, ps[i]) == ParamsOf(w, ps[i]) && ReturnsOf(w1, ps[i]) == ReturnsOf(w, ps[i])
  {
    forall i | 0 <= i < |ps|
      ensures IsVisible(w1, ps[i]) && Finished(w1, ps[i]) == Finished(w, ps[i])
      ensures ParamsOf(w1, ps[i]) == ParamsOf(w, ps[i]) && ReturnsOf(w1, ps[i]) == ReturnsOf(w, ps[i])
    {
      assert w1.arena[ps[i]] == w.arena[ps[i]];
    }
  }

  /** A check queued on an unfinished function is not lost: the function's
      `end` succeeds only if the signatures agree. */
  lemma DeferredCheckRuns(w: World, self: Handle, other: Handle)
    requires WfWorld(w) && IsFunc(w, self) && PendingOk(w, self) && !F(w, self).finished
    requires IsVisible(w, other) && Finished(w, other) && other != self
    ensures ExpectSignature(w, self, other).Ok?
    ensures var w1 := ExpectSignature(w, self, other).value;
      PendingOk(w1, self) && (End(w1, self).Ok? ==> SameSignature(w, self, other))
  {
    var w1 := ExpectSignature(w, self, other).value;
    var ps := F(w1, self).pending;
    assert ps[|ps| - 1] == other;
    assert IsVisible(w1, other) && ParamsOf(w1, other) == ParamsOf(w, other) && ReturnsOf(w1, other) == ReturnsOf(w, other);
  }

  // ---------------------------------------------------------------------
  // validate_args

  /** A call argument: an integer or float literal, or an entity. */
  datatype Arg = IntArg(n: int) | FloatArg | EntityArg(h: Handle)

  /** One argument against one parameter's type. */
  function CheckArg(w: World, ty: VarType, a: Arg): (r: Outcome)
  {
    match a
    case IntArg(_) => Need(ty == I32, LiteralIntOnNonI32)
    case FloatArg => Need(ty == Q10, LiteralFloatOnNonQ10)
    case EntityArg(h) =>
      if !IsVar(w, h) then Fail(ArgNotVariable)
      else Need(V(w, h).ty == ty, ArgTypeMismatch)
  }

  /** One return destination against one return type: nowhere is allowed. */
  function CheckRet(w: World, ty: VarType, d: Option<Handle>): (r: Outcome)
  {
    match d
    case None => Pass
    case Some(h) =>
      if !IsVar(w, h) then Fail(ReturnVarNotVariable)
      else Need(V(w, h).ty == ty, ReturnVarTypeMismatch)
  }

  function CheckArgs(w: World, ps: seq<Param>, args: seq<Arg>): (r: Outcome)
    requires |ps| == |args|
  {
    if |ps| == 0 then Pass
    else
      var head := CheckArg(w, ps[0].ty, args[0]);
      if head.Fail? then head else CheckArgs(w, ps[1..], args[1..])
  }

  function CheckRets(w: World, ts: seq<VarType>, ds: seq<Option<Handle>>): (r: Outcome)
    requires |ts| == |ds|
  {
    if |ts| == 0 then Pass
    else
      var head := CheckRet(w, ts[0], ds[0]);
      if head.Fail? then head else CheckRets(w, ts[1..], ds[1..])
  }

  /** The call-shape rule for one argument, stated directly. */
  predicate ArgFits(w: World, ty: VarType, a: Arg) {
    || (a.IntArg? && ty == I32)
    || (a.FloatArg? && ty == Q10)
    || (a.EntityArg? && IsVar(w, a.h) && V(w, a.h).ty == ty)
  }

  predicate RetFits(w: World, ty: VarType, d: Option<Handle>) {
    d.None? || (IsVar(w, d.value) && V(w, d.value).ty == ty)
  }

  lemma {:induction false} CheckArgsSound(w: World, ps: seq<Param>, args: seq<Arg>)
    requires |ps| == |args|
    ensures CheckArgs(w, ps, args).Pass? <==> forall i :: 0 <= i < |ps| ==> ArgFits(w, ps[i].ty, args[i])
  {
    if |ps| > 0 {
      CheckArgsSound(w, ps[1..], args[1..]);
      assert forall i :: 1 <= i < |ps| ==> ps[1..][i - 1] == ps[i] && args[1..][i - 1] == args[i];
    }
  }

  lemma {:induction false} CheckRetsSound(w: World, ts: seq<VarType>, ds: seq<Option<Handle>>)
    requires |ts| == |ds|
    ensures CheckRets(w, ts, ds).Pass? <==> forall i :: 0 <= i < |ts| ==> RetFits(w, ts[i], ds[i])
  {
    if |ts| > 0 {
      CheckRetsSound(w, ts[1..], ds[1..]);
    }
  }

  /** `validate_args(args, retvars)`: the callee must be finished; arguments
      are given exactly when there are parameters, one per parameter, each a
      literal of the parameter's type (`i32` for an integer, `q10` for a
      float) or a variable of that type; return destinations likewise, where
      a destination may be nowhere. */
  function ValidateArgs(w: World, f: Handle, args: Option<seq<Arg>>, rets: Option<seq<Option<Handle>>>): (r: Outcome)
    requires IsVisible(w, f)
    ensures !Finished(w, f) ==> r == Fail(NotFinished)
    ensures r.Pass? ==> (args.Some? <==> |ParamsOf(w, f)| > 0) && (rets.Some? <==> |ReturnsOf(w, f)| > 0)
    ensures r.Pass? && args.Some? ==> |args.value| == |ParamsOf(w, f)|
    ensures r.Pass? && rets.Some? ==> |rets.value| == |ReturnsOf(w, f)|
  {
    var ps := ParamsOf(w, f);
    var ts := ReturnsOf(w, f);
    var argsOk :=
      if |ps| > 0 then
        if args.None? then Fail(MissingArgs)
        else if |args.value| != |ps| then Fail(ArgCount)
        else CheckArgs(w, ps, args.value)
      else Need(args.None?, UnexpectedArgs);
    if !Finished(w, f) then Fail(NotFinished)
    else if argsOk.Fail? then argsOk
    else if |ts| > 0 then
      if rets.None? then Fail(MissingReturnVars)
      else if |rets.value| != |ts| then Fail(ReturnVarCount)
      else CheckRets(w, ts, rets.value)
    else Need(rets.None?, UnexpectedReturnVars)
  }

  /** The call shape `validate_args` accepts, stated declaratively. */
  predicate CallFits(w: World, f: Handle, args: Option<seq<Arg>>, rets: Option<seq<Option<Handle>>>)
    requires IsVisible(w, f)
  {
    var ps := ParamsOf(w, f);
    var ts := ReturnsOf(w, f);
    && Finished(w, f)
    && (if |ps| == 0 then args.None?
        else args.Some? && |args.value| == |ps| && forall i :: 0 <= i < |ps| ==> ArgFits(w, ps[i].ty, args.value[i]))
    && (if |ts| == 0 then rets.None?
        else rets.Some? && |rets.value| == |ts| && forall i :: 0 <= i < |ts| ==> RetFits(w, ts[i], rets.value[i]))
  }

  lemma ValidateArgsExact(w: World, f: Handle, args: Option<seq<Arg>>, rets: Option<seq<Option<Handle>>>)
    requires IsVisible(w, f)
    ensures ValidateArgs(w, f, args, rets).Pass? <==> CallFits(w, f, args, rets)
  {
    var ps := ParamsOf(w, f);
    var ts := ReturnsOf(w, f);
    if args.Some? && |args.value| == |ps| {
      CheckArgsSound(w, ps, args.value);
    }
    if rets.Some? && |rets.value| == |ts| {
      CheckRetsSound(w, ts, rets.value);
    }
  }

  /** A parameterless callee refuses even an empty argument list: only
      "no arguments at all" fits. */
  lemma EmptyArgsRefused(w: World, f: Handle)
    requires IsVisible(w, f) && Finished(w, f) && ParamsOf(w, f) == []
    ensures ValidateArgs(w, f, Some([]), None) == Fail(UnexpectedArgs)
  {
  }
}
