/** `TopLevel.linker(*tops)` (cmd_ir/core.py) as a whole: no units is an
    error, one unit is returned as it is, and several are merged into a
    fresh unit by pass 1 (module Gather) and pass 2 (module Linker), the
    gathered blocks are rewritten through the stub mapping when it is not
    empty, and the merged unit is ended. */
module Linking {
  import opened Common
  import opened Insns
  import opened Scopes
  import opened Ir
  import opened Functions
  import opened Units
  import opened Linker
  import opened Gather

  /** The units as they stand when linking starts. */
  function UnitsOf(w: World, tops: seq<Handle>): (r: seq<Unit>)
    requires forall i :: 0 <= i < |tops| ==> IsUnit(w, tops[i])
    ensures |r| == |tops| && forall i :: 0 <= i < |tops| ==> r[i] == U(w, tops[i])
  {
    seq(|tops|, i requires 0 <= i < |tops| => U(w, tops[i]))
  }

  // ---------------------------------------------------------------------
  // What linking promises

  /** Some unit binds the extern stub `e` under `n`. */
  ghost predicate StubAt(w: World, units: seq<Unit>, n: string, e: Handle) {
    IsExtern(w, e) && exists j :: 0 <= j < |units| && Binds(units[j].scope, n, e)
  }

  /** No extern stub is bound under two different names. */
  ghost predicate StubNamesUnique(w: World, units: seq<Unit>) {
    forall n1, n2, e :: StubAt(w, units, n1, e) && StubAt(w, units, n2, e) ==> n1 == n2
  }

  /** No two units bind a function under the same name. */
  ghost predicate FuncNamesApart(w: World, units: seq<Unit>) {
    forall j1, j2, n :: 0 <= j1 < j2 < |units| && FuncAt(w, units[j1].scope, n) ==> !FuncAt(w, units[j2].scope, n)
  }

  /** The linked unit binds every function of every unit under its name. */
  ghost predicate FuncsLinked(w: World, units: seq<Unit>, r: World, out: Handle)
    requires IsUnit(r, out)
  {
    forall j, n :: 0 <= j < |units| && FuncAt(w, units[j].scope, n) ==>
      n in Bound(r, out) && Bound(r, out)[n] == units[j].scope.fwd[n]
  }

  /** Everything else the units bind (globals, events, `pos_util`,
      `_global_entity`) is bound in the linked unit too, under the name
      `generate_name` picked for it. */
  ghost predicate OthersLinked(w: World, units: seq<Unit>, r: World, out: Handle)
    requires IsUnit(r, out)
  {
    forall j, n :: 0 <= j < |units| && OtherAt(w, units[j].scope, n) ==>
      units[j].scope.fwd[n] in Bound(r, out).Values
  }

  /** Every stub some unit binds under `n` is resolved: the linked unit
      binds `n` to a visible function that some unit binds under `n` (the
      function of that name, when a unit has one), and the stub has its
      signature once it is finished. */
  ghost predicate StubsLinked(w: World, units: seq<Unit>, r: World, out: Handle)
    requires IsUnit(r, out)
  {
    forall n, e :: StubAt(w, units, n, e) ==>
      && n in Bound(r, out) && IsVisible(r, e) && IsVisible(r, Bound(r, out)[n])
      && (exists j :: 0 <= j < |units| && Binds(units[j].scope, n, Bound(r, out)[n]))
      && (Finished(r, Bound(r, out)[n]) ==> SameSignature(r, e, Bound(r, out)[n]))
  }

  /** Every user block of every function of the units is rewritten through
      `m` on its extern references, and otherwise as it was. */
  ghost predicate BlocksLinked(w: World, units: seq<Unit>, r: World, m: map<Handle, Handle>)
    requires WfWorld(w)
  {
    forall j, n, b :: 0 <= j < |units| && FuncAt(w, units[j].scope, n) && b in UserBlocks(w, units[j].scope.fwd[n]) ==>
      IsBlock(r, b) && B(r, b) == B(w, b).(insns := ApplyMapping(B(w, b).insns, Externs(w), m))
  }

  /** The rewrite `m` sends each stub some unit binds under `n` to what the
      linked unit binds under `n`, and changes no other reference. */
  ghost predicate Relinks(w: World, units: seq<Unit>, r: World, out: Handle, m: map<Handle, Handle>)
    requires IsUnit(r, out)
  {
    forall h ::
      && (forall n :: StubAt(w, units, n, h) ==> n in Bound(r, out) && MapHandle(h, Externs(w), m) == Bound(r, out)[n])
      && (MapHandle(h, Externs(w), m) != h ==> exists n :: StubAt(w, units, n, h))
  }

  /** The outcome of linking several units into the fresh unit `out`: its
      frame ... */
  ghost predicate LinkedFrame(w: World, units: seq<Unit>, r: World, out: Handle) {
    && WfWorld(r) && Stable(w, r) && out !in w.arena && IsUnit(r, out)
    && Externs(r) == Externs(w)
    && (forall j :: 0 <= j < |units| ==> units[j].finished)
    && FuncNamesApart(w, units)
    && U(r, out).preamble == Preambles(units) && U(r, out).pragmas == Pragmas(units)
    && U(r, out).finished
    && (forall k :: 0 <= k < |U(r, out).scope.order| ==> !Unfinished(r, U(r, out).scope.fwd, U(r, out).scope.order[k]))
  }

  /** ... and its contents. */
  ghost predicate LinkedContents(w: World, units: seq<Unit>, r: World, out: Handle, m: map<Handle, Handle>)
    requires WfWorld(w) && IsUnit(r, out)
  {
    && FuncsLinked(w, units, r, out)
    && OthersLinked(w, units, r, out)
    && StubsLinked(w, units, r, out)
    && BlocksLinked(w, units, r, m)
    && (StubNamesUnique(w, units) ==> Relinks(w, units, r, out, m))
  }

  ghost predicate Linked(w: World, units: seq<Unit>, r: World, out: Handle, m: map<Handle, Handle>)
    requires WfWorld(w)
  {
    LinkedFrame(w, units, r, out) && LinkedContents(w, units, r, out, m)
  }

  // ---------------------------------------------------------------------
  // The linker

  /** `TopLevel.linker(*tops)`. */
  method Link(w: World, tops: seq<Handle>) returns (r: Result<(World, Handle)>, ghost mapping: map<Handle, Handle>)
    requires WfWorld(w) && forall i :: 0 <= i < |tops| ==> IsUnit(w, tops[i])
    ensures r == Err(NoUnits) <==> |tops| == 0
    ensures |tops| == 1 ==> r == Ok((w, tops[0]))
    ensures r.Err? ==>
      || r.error == NoUnits || r.error == NotFinished || r.error.DuplicateDefinition?
      || r.error.NotAVisibleFunction? || r.error == SignatureMismatch || r.error.UnfinishedFunction?
    ensures r.Err? && r.error == NotFinished ==> exists j :: 0 <= j < |tops| && !U(w, tops[j]).finished
    ensures r.Ok? && |tops| > 1 ==> Linked(w, UnitsOf(w, tops), r.value.0, r.value.1, mapping)
  {
    mapping := map[];
    if |tops| == 0 {
      return Err(NoUnits), mapping;
    }
    if |tops| == 1 {
      return Ok((w, tops[0])), mapping;
    }
    var units := UnitsOf(w, tops);
    var (w1, out) := NewUnit(w);
    var st0 := Gathered(w1, Groups([], map[]), []);
    StartGathering(w, w1, out);
    var gathered := GatherUnits(st0, out, units);
    if gathered.Err? {
      return Err(gathered.error), mapping;
    }
    PassOne(w, units, w1, gathered.value, out);
    var linked;
    linked, mapping := LinkGathered(w, units, gathered.value, out);
    if linked.Err? {
      return Err(linked.error), mapping;
    }
    return Ok((linked.value, out)), mapping;
  }

  /** What pass 1 hands to pass 2, in terms of the units as they stood:
      every unit was finished and no two bind a function under the same
      name; the merged unit is unfinished, has their preambles and pragmas
      in order, binds each of their functions under its name and no other
      visible function; the stubs are grouped by exactly the names the
      units bind them under; and every user block of their functions is
      gathered, as it was. */
  ghost predicate PassOneDone(w: World, units: seq<Unit>, st: Gathered, out: Handle)
    requires WfWorld(w)
  {
    && Gathering(st, out) && Stable(w, st.w) && out !in w.arena
    && !U(st.w, out).finished
    && Externs(st.w) == Externs(w)
    && (forall j :: 0 <= j < |units| ==> units[j].finished)
    && FuncNamesApart(w, units)
    && U(st.w, out).preamble == Preambles(units) && U(st.w, out).pragmas == Pragmas(units)
    && FuncsLinked(w, units, st.w, out)
    && OthersLinked(w, units, st.w, out)
    && (forall n, e :: StubAt(w, units, n, e) ==> n in st.g.stubs && e in st.g.stubs[n])
    && (forall n, e :: n in st.g.stubs && e in st.g.stubs[n] ==> StubAt(w, units, n, e))
    && (forall n :: n in Bound(st.w, out) && IsVisible(st.w, Bound(st.w, out)[n]) ==>
          exists j :: 0 <= j < |units| && Binds(units[j].scope, n, Bound(st.w, out)[n]))
    && (forall j, n, b :: 0 <= j < |units| && FuncAt(w, units[j].scope, n) && b in UserBlocks(w, units[j].scope.fwd[n]) ==>
          b in st.blocks && IsBlock(st.w, b) && B(st.w, b) == B(w, b))
  }

  /** Pass 2, the rewrite of the gathered blocks and `out.end()`. */
  method LinkGathered(w: World, units: seq<Unit>, st: Gathered, out: Handle) returns (r: Result<World>, ghost mapping: map<Handle, Handle>)
    requires WfWorld(w) && PassOneDone(w, units, st, out)
    ensures r.Err? ==> r.error.NotAVisibleFunction? || r.error == SignatureMismatch || r.error.UnfinishedFunction?
    ensures r.Ok? ==> Linked(w, units, r.value, out, mapping)
  {
    mapping := map[];
    var resolved := ResolveNames(st.w, out, st.g, 0, map[]);
    if resolved.Err? {
      return Err(resolved.error), mapping;
    }
    var (w2, m) := resolved.value;
    var bs := set b | b in st.blocks;
    var w3 := if |m| > 0 then MapBlocks(w2, bs, Externs(w2), m) else w2;
    assert U(w3, out) == U(w2, out);
    var ended := EndUnit(w3, out);
    if ended.Err? {
      return Err(ended.error), mapping;
    }
    var w4 := ended.value;
    PassTwoFrame(st, out, w2, m, w3, w4);
    LinkedFrameHolds(w, units, st, out, w2, w4);
    PassTwoBinds(st, out, w2, m, w4);
    PassTwoBlocks(st, out, w2, m, w3, w4);
    PassTwoLinks(w, units, st, out, w2, m, w3, w4);
    return Ok(w4), m;
  }

  // ---------------------------------------------------------------------
  // Proof

  /** The fresh unit starts pass 1: nothing grouped, nothing gathered, and
      it binds no visible function; the rest of the world is as it was. */
  lemma StartGathering(w: World, w1: World, out: Handle)
    requires WfWorld(w) && WfWorld(w1) && Stable(w, w1) && IsUnit(w1, out) && out !in w.arena
    requires forall n :: n in U(w1, out).scope.fwd ==> !IsVisible(w1, U(w1, out).scope.fwd[n])
    requires forall h :: h in w.arena ==> w1.arena[h] == w.arena[h]
    requires forall h :: IsVisible(w1, h) ==> IsVisible(w, h)
    ensures Gathering(Gathered(w1, Groups([], map[]), []), out)
    ensures Untouched(w, w1)
    ensures forall h :: (IsFunc(w1, h) <==> IsFunc(w, h)) && (IsExtern(w1, h) <==> IsExtern(w, h))
  {
    forall h | IsVisible(w1, h) ensures w1.arena[h] == w.arena[h] {
      assert IsVisible(w, h);
    }
  }

  /** Pass 1, once through, establishes what pass 2 needs. */
  lemma PassOne(w: World, units: seq<Unit>, w1: World, st: Gathered, out: Handle)
    requires WfWorld(w) && WfWorld(w1) && Stable(w, w1) && IsUnit(w1, out) && out !in w.arena
    requires Untouched(w, w1) && forall h :: (IsFunc(w1, h) <==> IsFunc(w, h)) && (IsExtern(w1, h) <==> IsExtern(w, h))
    requires forall n :: n in U(w1, out).scope.fwd ==> !IsVisible(w1, U(w1, out).scope.fwd[n])
    requires U(w1, out).preamble == [] && U(w1, out).pragmas == [] && !U(w1, out).finished
    requires Merged(Gathered(w1, Groups([], map[]), []), st, out, units, |units|)
    requires FuncsGathered(Gathered(w1, Groups([], map[]), []), st, out, units, |units|)
    requires OthersGathered(Gathered(w1, Groups([], map[]), []), st, out, units, |units|)
    requires StubsGathered(Gathered(w1, Groups([], map[]), []), st, units, |units|)
    requires OnlyTheirStubs(Gathered(w1, Groups([], map[]), []), st, units, |units|)
    requires NamesApart(Gathered(w1, Groups([], map[]), []), out, units, |units|)
    requires FuncsFromUnits(Gathered(w1, Groups([], map[]), []), st, out, units, |units|)
    requires BlocksGathered(Gathered(w1, Groups([], map[]), []), st, units, |units|)
    ensures PassOneDone(w, units, st, out)
  {
    GatheredOrder(w, units, w1, st, out);
    GatheredApart(w, units, w1, out);
    GatheredFuncs(w, units, w1, st, out);
    GatheredOthers(w, units, w1, st, out);
    GatheredStubs(w, units, w1, st, out);
    GatheredBlocks(w, units, w1, st, out);
  }

  /** After pass 1 every unit was finished, and the merged unit has their
      preambles and pragmas in order and is unfinished ... */
  lemma GatheredOrder(w: World, units: seq<Unit>, w1: World, st: Gathered, out: Handle)
    requires WfWorld(w) && IsUnit(w1, out) && Stable(w, w1)
    requires U(w1, out).preamble == [] && U(w1, out).pragmas == [] && !U(w1, out).finished
    requires Merged(Gathered(w1, Groups([], map[]), []), st, out, units, |units|)
    ensures WfWorld(st.w) && IsUnit(st.w, out) && Stable(w, st.w) && !U(st.w, out).finished
    ensures forall j :: 0 <= j < |units| ==> units[j].finished
    ensures U(st.w, out).preamble == Preambles(units) && U(st.w, out).pragmas == Pragmas(units)
  {
    assert units[..|units|] == units;
    StableTrans(w, w1, st.w);
  }

  /** ... no two units bind a function under the same name ... */
  lemma GatheredApart(w: World, units: seq<Unit>, w1: World, out: Handle)
    requires IsUnit(w1, out) && forall h :: IsFunc(w1, h) <==> IsFunc(w, h)
    requires NamesApart(Gathered(w1, Groups([], map[]), []), out, units, |units|)
    ensures FuncNamesApart(w, units)
  {
    forall j1, j2, n | 0 <= j1 < j2 < |units| && FuncAt(w, units[j1].scope, n)
      ensures !FuncAt(w, units[j2].scope, n)
    {
      assert FuncAt(w1, units[j1].scope, n);
    }
  }

  /** ... the merged unit binds every function of the units under its
      name, and binds no other visible function ... */
  lemma GatheredFuncs(w: World, units: seq<Unit>, w1: World, st: Gathered, out: Handle)
    requires IsUnit(w1, out) && IsUnit(st.w, out)
    requires forall h :: IsFunc(w1, h) <==> IsFunc(w, h)
    requires forall n :: n in U(w1, out).scope.fwd ==> !IsVisible(w1, U(w1, out).scope.fwd[n])
    requires SigsKept(w1, st.w)
    requires FuncsGathered(Gathered(w1, Groups([], map[]), []), st, out, units, |units|)
    requires FuncsFromUnits(Gathered(w1, Groups([], map[]), []), st, out, units, |units|)
    ensures FuncsLinked(w, units, st.w, out)
    ensures forall n :: n in Bound(st.w, out) && IsVisible(st.w, Bound(st.w, out)[n]) ==>
      exists j :: 0 <= j < |units| && Binds(units[j].scope, n, Bound(st.w, out)[n])
  {
    forall j, n | 0 <= j < |units| && FuncAt(w, units[j].scope, n)
      ensures n in Bound(st.w, out) && Bound(st.w, out)[n] == units[j].scope.fwd[n]
    {
      assert LevelFuncsBound(w1, units[j].scope, st.w, out);
    }
  }

  /** ... binds everything else the units bind under generated names ... */
  lemma GatheredOthers(w: World, units: seq<Unit>, w1: World, st: Gathered, out: Handle)
    requires IsUnit(w1, out) && IsUnit(st.w, out)
    requires forall h :: (IsFunc(w1, h) <==> IsFunc(w, h)) && (IsExtern(w1, h) <==> IsExtern(w, h))
    requires OthersGathered(Gathered(w1, Groups([], map[]), []), st, out, units, |units|)
    ensures OthersLinked(w, units, st.w, out)
  {
    forall j, n | 0 <= j < |units| && OtherAt(w, units[j].scope, n)
      ensures units[j].scope.fwd[n] in Bound(st.w, out).Values
    {
      assert LevelOthersBound(w1, units[j].scope, st.w, out);
      assert OtherAt(w1, units[j].scope, n);
    }
  }

  /** ... the stubs grouped by name are exactly those the units bind under
      that name, and there are no new extern stubs ... */
  lemma GatheredStubs(w: World, units: seq<Unit>, w1: World, st: Gathered, out: Handle)
    requires Stable(w, w1) && forall h :: IsExtern(w1, h) <==> IsExtern(w, h)
    requires Gathering(st, out) && Stable(w1, st.w) && Untouched(w1, st.w)
    requires StubsGathered(Gathered(w1, Groups([], map[]), []), st, units, |units|)
    requires OnlyTheirStubs(Gathered(w1, Groups([], map[]), []), st, units, |units|)
    ensures forall n, e :: StubAt(w, units, n, e) ==> n in st.g.stubs && e in st.g.stubs[n]
    ensures forall n, e :: n in st.g.stubs && e in st.g.stubs[n] ==> StubAt(w, units, n, e)
    ensures Externs(st.w) == Externs(w)
  {
    forall n, e | StubAt(w, units, n, e) ensures n in st.g.stubs && e in st.g.stubs[n] {
      var j :| 0 <= j < |units| && Binds(units[j].scope, n, e);
      assert LevelStubsGrouped(w1, units[j].scope, st.g);
    }
    forall n, e | n in st.g.stubs && e in st.g.stubs[n] ensures StubAt(w, units, n, e) {
      assert IsExtern(st.w, e);
    }
  }

  /** ... and every user block of the units' functions is gathered, with
      its contents as they were. */
  lemma GatheredBlocks(w: World, units: seq<Unit>, w1: World, st: Gathered, out: Handle)
    requires WfWorld(w) && WfWorld(w1) && Stable(w, w1) && Untouched(w, w1)
    requires forall h :: IsFunc(w1, h) <==> IsFunc(w, h)
    requires Gathering(st, out)
    requires BlocksGathered(Gathered(w1, Groups([], map[]), []), st, units, |units|)
    ensures forall j, n, b :: 0 <= j < |units| && FuncAt(w, units[j].scope, n) && b in UserBlocks(w, units[j].scope.fwd[n]) ==>
      b in st.blocks && IsBlock(st.w, b) && B(st.w, b) == B(w, b)
  {
    forall j, n, b | 0 <= j < |units| && FuncAt(w, units[j].scope, n) && b in UserBlocks(w, units[j].scope.fwd[n])
      ensures b in st.blocks && IsBlock(st.w, b) && B(st.w, b) == B(w, b)
    {
      UserBlocksKept(w, w1, units[j].scope.fwd[n]);
      assert LevelBlocks(w1, units[j].scope, st.blocks);
    }
  }

  /** Pass 2, once through: the merged unit keeps its bindings and binds
      every grouped name to what it resolves to, every name resolves, no
      block is rewritten, and the mapping is `Mapping` over the
      resolutions. */
  lemma PassTwo(st: Gathered, out: Handle, w2: World, m: map<Handle, Handle>)
    requires Gathering(st, out) && ResolveNames(st.w, out, st.g, 0, map[]) == Ok((w2, m))
    ensures Extends(Bound(st.w, out), Bound(w2, out))
    ensures forall n :: n in st.g.stubs ==>
      && n in Bound(w2, out) && Bound(w2, out)[n] == Resolution(st.w, out, st.g, n)
      && Resolvable(st.w, out, st.g, n)
    ensures BlocksKept(st.w, w2)
    ensures m == Mapping(st.g, Targets(st.w, out, st.g), 0, map[])
  {
    ResolveNamesExtends(st.w, out, st.g, map[]);
    GetsThroughResolvable(st.w, out, st.g, 0, map[]);
    ResolveNamesBlocks(st.w, out, st.g, 0, map[]);
    ResolveNamesMapping(st.w, out, st.g, 0, map[]);
    forall n | n in st.g.stubs ensures Resolvable(st.w, out, st.g, n) {
      var j :| 0 <= j < |st.g.names| && st.g.names[j] == n;
    }
  }

  /** The rewrite of the gathered blocks (`if extern_mapping:`), which
      changes nothing but those blocks. */
  lemma Rewritten(w2: World, bs: set<Handle>, m: map<Handle, Handle>, w3: World)
    requires WfWorld(w2) && forall b :: b in bs ==> IsBlock(w2, b)
    requires w3 == if |m| > 0 then MapBlocks(w2, bs, Externs(w2), m) else w2
    ensures WfWorld(w3) && Stable(w2, w3) && SigsKept(w2, w3) && Externs(w3) == Externs(w2)
    ensures forall h :: h in w2.arena && !w2.arena[h].BlockEntity? ==> h in w3.arena && w3.arena[h] == w2.arena[h]
    ensures forall b :: b in bs ==> IsBlock(w3, b) && B(w3, b) == B(w2, b).(insns := ApplyMapping(B(w2, b).insns, Externs(w2), m))
  {
    if |m| == 0 {
      assert m == map[];
      forall b | b in bs ensures ApplyMapping(B(w2, b).insns, Externs(w2), m) == B(w2, b).insns {
        MappingIdentity(B(w2, b).insns, Externs(w2), m);
      }
    }
  }

  /** `out.end()` on the merged unit changes nothing but its flag. */
  lemma Ended(w3: World, out: Handle, w4: World)
    requires WfWorld(w3) && IsUnit(w3, out) && EndUnit(w3, out) == Ok(w4)
    ensures WfWorld(w4) && Stable(w3, w4) && IsUnit(w4, out) && U(w4, out) == U(w3, out).(finished := true)
    ensures SigsKept(w3, w4) && BlocksKept(w3, w4) && Externs(w4) == Externs(w3)
    ensures forall k :: 0 <= k < |U(w4, out).scope.order| ==> !Unfinished(w4, U(w4, out).scope.fwd, U(w4, out).scope.order[k])
  {
    UnitUpdateKeepsSigs(w3, w4, out);
    forall k | 0 <= k < |U(w4, out).scope.order|
      ensures !Unfinished(w4, U(w4, out).scope.fwd, U(w4, out).scope.order[k])
    {
      assert !Unfinished(w3, U(w3, out).scope.fwd, U(w3, out).scope.order[k]);
    }
  }

  /** Pass 2, the rewrite and `out.end()` change the merged unit's scope
      and its flag only, and keep the visible functions and extern stubs. */
  lemma PassTwoFrame(st: Gathered, out: Handle, w2: World, m: map<Handle, Handle>, w3: World, w4: World)
    requires Gathering(st, out) && ResolveNames(st.w, out, st.g, 0, map[]) == Ok((w2, m))
    requires w3 == if |m| > 0 then MapBlocks(w2, (set b | b in st.blocks), Externs(w2), m) else w2
    requires WfWorld(w3) && IsUnit(w3, out) && EndUnit(w3, out) == Ok(w4)
    ensures WfWorld(w4) && Stable(st.w, w2) && Stable(w2, w4) && IsUnit(w2, out) && IsUnit(w4, out)
    ensures U(w2, out) == U(st.w, out).(scope := U(w2, out).scope) && U(w4, out) == U(w2, out).(finished := true)
    ensures forall k :: 0 <= k < |U(w4, out).scope.order| ==> !Unfinished(w4, U(w4, out).scope.fwd, U(w4, out).scope.order[k])
    ensures Externs(w4) == Externs(st.w) && Externs(w2) == Externs(st.w) && SigsKept(st.w, w4)
  {
    Rewritten(w2, (set b | b in st.blocks), m, w3);
    Ended(w3, out, w4);
    SigsKeptTrans(st.w, w2, w3);
    SigsKeptTrans(st.w, w3, w4);
    StableTrans(w2, w3, w4);
    ExternsKept(st.w, w2);
  }

  /** After pass 2, the rewrite and `out.end()` the merged unit keeps its
      bindings and binds each grouped name to what it resolves to, and the
      mapping is `Mapping` over those resolutions. */
  lemma PassTwoBinds(st: Gathered, out: Handle, w2: World, m: map<Handle, Handle>, w4: World)
    requires Gathering(st, out) && ResolveNames(st.w, out, st.g, 0, map[]) == Ok((w2, m))
    requires IsUnit(w2, out) && IsUnit(w4, out) && U(w4, out).scope == U(w2, out).scope
    ensures Extends(Bound(st.w, out), Bound(w4, out))
    ensures forall n :: n in st.g.stubs ==>
      && n in Bound(w4, out) && Bound(w4, out)[n] == Resolution(st.w, out, st.g, n)
      && Resolvable(st.w, out, st.g, n)
    ensures m == Mapping(st.g, Targets(st.w, out, st.g), 0, map[])
  {
    PassTwo(st, out, w2, m);
    assert Bound(w4, out) == Bound(w2, out);
  }

  /** After pass 2, the rewrite and `out.end()` the gathered blocks are
      rewritten through the mapping and every other block is kept. */
  lemma PassTwoBlocks(st: Gathered, out: Handle, w2: World, m: map<Handle, Handle>, w3: World, w4: World)
    requires Gathering(st, out) && ResolveNames(st.w, out, st.g, 0, map[]) == Ok((w2, m))
    requires w3 == if |m| > 0 then MapBlocks(w2, (set b | b in st.blocks), Externs(w2), m) else w2
    requires WfWorld(w3) && IsUnit(w3, out) && EndUnit(w3, out) == Ok(w4)
    ensures BlocksKept(st.w, w2) && BlocksKept(w3, w4)
    ensures forall b :: b in st.blocks ==>
      && IsBlock(w3, b) && IsBlock(w2, b)
      && B(w3, b) == B(w2, b).(insns := ApplyMapping(B(w2, b).insns, Externs(w2), m))
  {
    PassTwo(st, out, w2, m);
    Rewritten(w2, (set b | b in st.blocks), m, w3);
    Ended(w3, out, w4);
  }

  /** Pass 2, the rewrite and `out.end()` after pass 1 fill the merged unit
      as linking promises. */
  lemma PassTwoLinks(w: World, units: seq<Unit>, st: Gathered, out: Handle, w2: World, m: map<Handle, Handle>, w3: World, w4: World)
    requires WfWorld(w) && PassOneDone(w, units, st, out)
    requires IsUnit(w4, out) && Externs(w2) == Externs(st.w) && SigsKept(st.w, w4)
    requires Extends(Bound(st.w, out), Bound(w4, out))
    requires forall n :: n in st.g.stubs ==>
      && n in Bound(w4, out) && Bound(w4, out)[n] == Resolution(st.w, out, st.g, n)
      && Resolvable(st.w, out, st.g, n)
    requires m == Mapping(st.g, Targets(st.w, out, st.g), 0, map[])
    requires BlocksKept(st.w, w2) && BlocksKept(w3, w4)
    requires forall b :: b in st.blocks ==>
      && IsBlock(w3, b) && IsBlock(w2, b)
      && B(w3, b) == B(w2, b).(insns := ApplyMapping(B(w2, b).insns, Externs(w2), m))
    ensures LinkedContents(w, units, w4, out, m)
  {
    assert FuncsLinked(w, units, w4, out) by {
      FuncsLinkedHolds(w, units, st.w, out, w4);
    }
    assert OthersLinked(w, units, w4, out) by {
      OthersLinkedHolds(w, units, st.w, out, w4);
    }
    assert StubsLinked(w, units, w4, out) by {
      StubsLinkedHolds(w, units, st, out, w4);
    }
    assert BlocksLinked(w, units, w4, m) by {
      BlocksLinkedHolds(w, units, st, w2, m, w3, w4);
    }
    if StubNamesUnique(w, units) {
      assert Relinks(w, units, w4, out, m) by {
        RelinksAfterPassTwo(w, units, st, out, m, w4);
      }
    }
  }

  /** The frame of the linked unit follows from pass 1 and the steps after
      it, which change its scope and its flag only. */
  lemma LinkedFrameHolds(w: World, units: seq<Unit>, st: Gathered, out: Handle, w2: World, w4: World)
    requires WfWorld(w) && PassOneDone(w, units, st, out)
    requires Stable(st.w, w2) && Stable(w2, w4) && WfWorld(w4) && IsUnit(w2, out) && IsUnit(w4, out)
    requires Externs(w4) == Externs(st.w)
    requires U(w2, out) == U(st.w, out).(scope := U(w2, out).scope)
    requires U(w4, out) == U(w2, out).(finished := true)
    requires forall k :: 0 <= k < |U(w4, out).scope.order| ==> !Unfinished(w4, U(w4, out).scope.fwd, U(w4, out).scope.order[k])
    ensures LinkedFrame(w, units, w4, out)
  {
    StableTrans(w, st.w, w2);
    StableTrans(w, w2, w4);
  }

  /** The merged unit only gains bindings after pass 1. */
  lemma FuncsLinkedHolds(w: World, units: seq<Unit>, w1: World, out: Handle, r: World)
    requires IsUnit(w1, out) && IsUnit(r, out)
    requires FuncsLinked(w, units, w1, out) && Extends(Bound(w1, out), Bound(r, out))
    ensures FuncsLinked(w, units, r, out)
  {
  }

  /** ... and so keeps what pass 1 bound under generated names. */
  lemma OthersLinkedHolds(w: World, units: seq<Unit>, w1: World, out: Handle, r: World)
    requires IsUnit(w1, out) && IsUnit(r, out)
    requires OthersLinked(w, units, w1, out) && Extends(Bound(w1, out), Bound(r, out))
    ensures OthersLinked(w, units, r, out)
  {
    forall j, n | 0 <= j < |units| && OtherAt(w, units[j].scope, n)
      ensures units[j].scope.fwd[n] in Bound(r, out).Values
    {
      var k :| k in Bound(w1, out) && Bound(w1, out)[k] == units[j].scope.fwd[n];
      assert Bound(r, out)[k] == units[j].scope.fwd[n];
    }
  }

  /** Every stub some unit binds is resolved as pass 2 resolves its name. */
  lemma StubsLinkedHolds(w: World, units: seq<Unit>, st: Gathered, out: Handle, r: World)
    requires IsUnit(st.w, out) && IsUnit(r, out) && GroupsOk(st.g) && GroupedExterns(st.w, st.g)
    requires forall n, e :: StubAt(w, units, n, e) ==> n in st.g.stubs && e in st.g.stubs[n]
    requires forall n, e :: n in st.g.stubs && e in st.g.stubs[n] ==> StubAt(w, units, n, e)
    requires forall n :: n in Bound(st.w, out) && IsVisible(st.w, Bound(st.w, out)[n]) ==>
      exists j :: 0 <= j < |units| && Binds(units[j].scope, n, Bound(st.w, out)[n])
    requires forall n :: n in st.g.stubs ==>
      && n in Bound(r, out) && Bound(r, out)[n] == Resolution(st.w, out, st.g, n)
      && Resolvable(st.w, out, st.g, n)
    requires SigsKept(st.w, r)
    ensures StubsLinked(w, units, r, out)
  {
    forall n, e | StubAt(w, units, n, e)
      ensures && n in Bound(r, out) && IsVisible(r, e) && IsVisible(r, Bound(r, out)[n])
        && (exists j :: 0 <= j < |units| && Binds(units[j].scope, n, Bound(r, out)[n]))
        && (Finished(r, Bound(r, out)[n]) ==> SameSignature(r, e, Bound(r, out)[n]))
    {
      var stubs := st.g.stubs[n];
      var rep := Resolution(st.w, out, st.g, n);
      var i :| 0 <= i < |stubs| && stubs[i] == e;
      assert IsExtern(st.w, stubs[i]);
      if n !in Bound(st.w, out) {
        assert StubAt(w, units, n, stubs[0]);
      }
    }
  }

  /** With no stub bound under two names, pass 2's mapping relinks the
      units to what the merged unit binds after it. */
  lemma RelinksAfterPassTwo(w: World, units: seq<Unit>, st: Gathered, out: Handle, m: map<Handle, Handle>, r: World)
    requires IsUnit(st.w, out) && IsUnit(r, out) && GroupsOk(st.g) && StubNamesUnique(w, units)
    requires forall n, e :: StubAt(w, units, n, e) ==> n in st.g.stubs && e in st.g.stubs[n]
    requires forall n, e :: n in st.g.stubs && e in st.g.stubs[n] ==> StubAt(w, units, n, e)
    requires forall n :: n in st.g.stubs ==> n in Bound(r, out) && Bound(r, out)[n] == Resolution(st.w, out, st.g, n)
    requires m == Mapping(st.g, Targets(st.w, out, st.g), 0, map[])
    ensures Relinks(w, units, r, out, m)
  {
    var t := Targets(st.w, out, st.g);
    MappingFacts(w, units, st.g, t);
    RelinkHolds(w, units, st.g, t, m, out, r);
  }

  /** With no stub bound under two names, the mapping of pass 2 sends every
      stub grouped under a name, other than what the name resolves to, to
      that, and maps nothing else. */
  lemma MappingFacts(w: World, units: seq<Unit>, g: Groups, t: map<string, Handle>)
    requires GroupsOk(g) && StubNamesUnique(w, units) && forall n :: n in g.names ==> n in t
    requires forall n, e :: n in g.stubs && e in g.stubs[n] ==> StubAt(w, units, n, e)
    ensures var m := Mapping(g, t, 0, map[]);
      && (forall j, e :: 0 <= j < |g.names| && e in g.stubs[g.names[j]] && e != t[g.names[j]] ==> e in m && m[e] == t[g.names[j]])
      && (forall e :: e in m ==> exists j :: 0 <= j < |g.names| && e in g.stubs[g.names[j]] && e != t[g.names[j]])
  {
    forall n1, n2, e | n1 in g.stubs && n2 in g.stubs && e in g.stubs[n1] && e in g.stubs[n2] ensures n1 == n2 {
      assert StubAt(w, units, n1, e) && StubAt(w, units, n2, e);
    }
    MappingMaps(g, t, 0, map[]);
    MappingOnly(g, t, 0, map[]);
  }

  /** With no stub bound under two names, a mapping that sends each stub to
      what its name resolves to and maps nothing else relinks the units. */
  lemma RelinkHolds(w: World, units: seq<Unit>, g: Groups, t: map<string, Handle>, m: map<Handle, Handle>, out: Handle, r: World)
    requires IsUnit(r, out) && GroupsOk(g) && StubNamesUnique(w, units)
    requires forall n, e :: StubAt(w, units, n, e) ==> n in g.stubs && e in g.stubs[n]
    requires forall n, e :: n in g.stubs && e in g.stubs[n] ==> StubAt(w, units, n, e)
    requires forall n :: n in g.names ==> n in t && n in Bound(r, out) && Bound(r, out)[n] == t[n]
    requires forall j, e :: 0 <= j < |g.names| && e in g.stubs[g.names[j]] && e != t[g.names[j]] ==>
      e in m && m[e] == t[g.names[j]]
    requires forall e :: e in m ==> exists j :: 0 <= j < |g.names| && e in g.stubs[g.names[j]] && e != t[g.names[j]]
    ensures Relinks(w, units, r, out, m)
  {
    forall h
      ensures forall n :: StubAt(w, units, n, h) ==> n in Bound(r, out) && MapHandle(h, Externs(w), m) == Bound(r, out)[n]
      ensures MapHandle(h, Externs(w), m) != h ==> exists n :: StubAt(w, units, n, h)
    {
      forall n | StubAt(w, units, n, h)
        ensures n in Bound(r, out) && MapHandle(h, Externs(w), m) == Bound(r, out)[n]
      {
        RelinkAt(w, units, g, t, m, n, h);
      }
      if h in m {
        var j :| 0 <= j < |g.names| && h in g.stubs[g.names[j]] && h != t[g.names[j]];
        assert StubAt(w, units, g.names[j], h);
      }
    }
  }

  /** A stub some unit binds under `n` is sent to what `n` resolves to. */
  lemma RelinkAt(w: World, units: seq<Unit>, g: Groups, t: map<string, Handle>, m: map<Handle, Handle>, n: string, h: Handle)
    requires GroupsOk(g) && StubNamesUnique(w, units) && forall n :: n in g.names ==> n in t
    requires forall n, e :: StubAt(w, units, n, e) ==> n in g.stubs && e in g.stubs[n]
    requires forall n, e :: n in g.stubs && e in g.stubs[n] ==> StubAt(w, units, n, e)
    requires forall j, e :: 0 <= j < |g.names| && e in g.stubs[g.names[j]] && e != t[g.names[j]] ==>
      e in m && m[e] == t[g.names[j]]
    requires forall e :: e in m ==> exists j :: 0 <= j < |g.names| && e in g.stubs[g.names[j]] && e != t[g.names[j]]
    requires StubAt(w, units, n, h)
    ensures n in t && MapHandle(h, Externs(w), m) == t[n]
  {
    var j :| 0 <= j < |g.names| && g.names[j] == n;
    forall j' | 0 <= j' < |g.names| && h in g.stubs[g.names[j']] ensures g.names[j'] == n {
      assert StubAt(w, units, g.names[j'], h);
    }
  }

  /** The user blocks of the units' functions end up rewritten through the
      mapping and otherwise as they were. */
  lemma BlocksLinkedHolds(w: World, units: seq<Unit>, st: Gathered, w2: World, m: map<Handle, Handle>, w3: World, r: World)
    requires WfWorld(w)
    requires forall j, n, b :: 0 <= j < |units| && FuncAt(w, units[j].scope, n) && b in UserBlocks(w, units[j].scope.fwd[n]) ==>
      b in st.blocks && IsBlock(st.w, b) && B(st.w, b) == B(w, b)
    requires BlocksKept(st.w, w2) && BlocksKept(w3, r) && Externs(w2) == Externs(w)
    requires forall b :: b in st.blocks ==>
      && IsBlock(w3, b) && IsBlock(w2, b)
      && B(w3, b) == B(w2, b).(insns := ApplyMapping(B(w2, b).insns, Externs(w2), m))
    ensures BlocksLinked(w, units, r, m)
  {
  }
}
