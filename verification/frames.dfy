/** The stack-frame layout a function gets when its variables are finalized
    (cmd_ir/core.py, `IRFunction.add_entry_exit`, `configure_parameters`,
    `is_closed` and `variables_finalized`).

    The locals that live in the frame carry their offsets. Sorted by offset
    they must be exactly 0, 1, ..., N-1; the entry block then pushes a frame
    whose type tuple runs from the stack base down to the tip, and the exit
    block pops it. Parameters and return variables are redirected to frame
    slots, parameters first. */
module Frames {
  import opened Common
  import opened Insns
  import opened Scopes
  import opened Blocks
  import opened Ir
  import opened Functions

  // ---------------------------------------------------------------------
  // Offsets

  function Elements(s: seq<nat>): set<nat> {
    set x | x in s
  }

  function Range(n: nat): (r: set<nat>)
    ensures forall k: nat :: k in r <==> k < n
  {
    if n == 0 then {} else Range(n - 1) + {n - 1}
  }

  /** The offsets, sorted, are exactly 0, 1, ..., N-1. */
  predicate Dense(offs: seq<nat>) {
    Elements(offs) == Range(|offs|)
  }

  function Min(s: seq<nat>): (m: nat)
    requires |s| > 0
    ensures m in s && forall x :: x in s ==> m <= x
  {
    if |s| == 1 then s[0]
    else
      var rest := Min(s[1..]);
      assert s == [s[0]] + s[1..];
      if s[0] <= rest then s[0] else rest
  }

  function Max(s: seq<nat>): (m: nat)
    requires |s| > 0
    ensures m in s && forall x :: x in s ==> x <= m
  {
    if |s| == 1 then s[0]
    else
      var rest := Max(s[1..]);
      assert s == [s[0]] + s[1..];
      if s[0] >= rest then s[0] else rest
  }

  /** The three checks on the sorted offsets: the first (the least) is 0,
      the last (the greatest) is N-1, and no two coincide. */
  function CheckFrame(offs: seq<nat>): (r: Outcome)
    ensures |offs| == 0 ==> r == Pass
    ensures r == Fail(StackTipNotZero) <==> |offs| > 0 && 0 !in offs
    ensures r == Fail(StackBaseMismatch) <==>
      0 in offs && (|offs| - 1 !in offs || exists x :: x in offs && x >= |offs|)
    ensures r.Pass? ==> forall x :: x in offs ==> x < |offs|
  {
    if |offs| == 0 then Pass
    else if Min(offs) != 0 then Fail(StackTipNotZero)
    else if Max(offs) != |offs| - 1 then Fail(StackBaseMismatch)
    else if |Elements(offs)| != |offs| then Fail(StackCollision)
    else Pass
  }

  lemma {:induction false} RangeCard(n: nat)
    ensures |Range(n)| == n
  {
    if n > 0 {
      RangeCard(n - 1);
      assert Range(n) == Range(n - 1) + {n - 1};
    }
  }

  lemma SubsetSameCard(a: set<nat>, b: set<nat>)
    requires a <= b && |a| == |b|
    ensures a == b
  {
    assert a * b == a;
    assert a + b == b;
    assert a - b == {};
    assert |b - a| == 0;
  }

  /** The three checks pass exactly when the offsets are 0..N-1. */
  lemma CheckFrameExact(offs: seq<nat>)
    ensures CheckFrame(offs).Pass? <==> Dense(offs)
  {
    var n := |offs|;
    RangeCard(n);
    if n > 0 {
      if Dense(offs) {
        assert 0 in Range(n) && n - 1 in Range(n);
        assert Max(offs) in Elements(offs);
      }
      if CheckFrame(offs).Pass? {
        assert Elements(offs) <= Range(n);
        SubsetSameCard(Elements(offs), Range(n));
      }
    }
  }

  lemma {:induction false} ElementsCard(s: seq<nat>)
    ensures |Elements(s)| <= |s|
  {
    if |s| > 0 {
      ElementsCard(s[..|s| - 1]);
      assert Elements(s) == Elements(s[..|s| - 1]) + {s[|s| - 1]};
    }
  }

  /** With as many distinct offsets as entries, no offset repeats. */
  lemma DistinctWhenFull(s: seq<nat>)
    requires |Elements(s)| == |s|
    ensures NoDup(s)
  {
    if !NoDup(s) {
      var i, j :| 0 <= i < j < |s| && s[i] == s[j];
      var t := s[..j] + s[j + 1..];
      assert Elements(s) == Elements(t) by {
        forall x | x in Elements(s) ensures x in Elements(t) {
          var k :| 0 <= k < |s| && s[k] == x;
          if k < j { assert t[k] == x; }
          else if k == j { assert t[i] == x; }
          else { assert t[k - 1] == x; }
        }
      }
      ElementsCard(t);
    }
  }

  lemma DenseCovers(offs: seq<nat>)
    requires Dense(offs)
    ensures forall o: nat :: o < |offs| ==> o in offs
  {
    forall o: nat | o < |offs| ensures o in offs {
      assert o in Range(|offs|);
      assert o in Elements(offs);
    }
  }

  lemma DenseDistinct(offs: seq<nat>)
    requires Dense(offs)
    ensures NoDup(offs)
  {
    RangeCard(|offs|);
    DistinctWhenFull(offs);
  }

  // ---------------------------------------------------------------------
  // Frame-resident locals

  /** A local whose storage is a slot of the function's frame. */
  predicate IsStackVar(w: World, h: Handle) {
    IsVar(w, h) && V(w, h).kind.LocalVar? && V(w, h).kind.stackOffset.Some?
  }

  function StackVarsIn(w: World, vs: seq<Handle>): (hs: seq<Handle>)
    ensures forall i :: 0 <= i < |hs| ==> IsStackVar(w, hs[i])
  {
    if |vs| == 0 then []
    else (if IsStackVar(w, vs[0]) then [vs[0]] else []) + StackVarsIn(w, vs[1..])
  }

  /** The frame-resident locals of the function's scope, in scope order. */
  function StackVars(w: World, f: Handle): (hs: seq<Handle>)
    requires WfWorld(w) && IsFunc(w, f)
    ensures forall i :: 0 <= i < |hs| ==> IsStackVar(w, hs[i])
  {
    StackVarsIn(w, Values(F(w, f).scope))
  }

  function Offset(w: World, h: Handle): nat
    requires IsStackVar(w, h)
  {
    V(w, h).kind.stackOffset.value
  }

  function Offsets(w: World, hs: seq<Handle>): (offs: seq<nat>)
    requires forall i :: 0 <= i < |hs| ==> IsStackVar(w, hs[i])
    ensures |offs| == |hs| && forall i :: 0 <= i < |hs| ==> offs[i] == Offset(w, hs[i])
  {
    if |hs| == 0 then [] else [Offset(w, hs[0])] + Offsets(w, hs[1..])
  }

  /** The type of the first of `hs` that sits at offset `o`. */
  function TypeAt(w: World, hs: seq<Handle>, o: nat): VarType
    requires forall i :: 0 <= i < |hs| ==> IsStackVar(w, hs[i])
    requires o in Offsets(w, hs)
  {
    if Offset(w, hs[0]) == o then V(w, hs[0]).ty
    else
      assert Offsets(w, hs) == [Offset(w, hs[0])] + Offsets(w, hs[1..]);
      TypeAt(w, hs[1..], o)
  }

  /** The types at offsets `m-1`, `m-2`, ..., 0. */
  function TypesBelow(w: World, hs: seq<Handle>, m: nat): (ts: seq<VarType>)
    requires forall i :: 0 <= i < |hs| ==> IsStackVar(w, hs[i])
    requires forall o: nat :: o < m ==> o in Offsets(w, hs)
    ensures |ts| == m && forall k :: 0 <= k < m ==> ts[k] == TypeAt(w, hs, m - 1 - k)
  {
    if m == 0 then [] else [TypeAt(w, hs, m - 1)] + TypesBelow(w, hs, m - 1)
  }

  /** The frame's type tuple: sorted by offset, then reversed, so that it
      runs from the stack base (offset N-1) down to the tip (offset 0). */
  function FrameTypes(w: World, hs: seq<Handle>): (ts: seq<VarType>)
    requires forall i :: 0 <= i < |hs| ==> IsStackVar(w, hs[i])
    requires Dense(Offsets(w, hs))
    ensures |ts| == |hs|
  {
    DenseCovers(Offsets(w, hs));
    TypesBelow(w, hs, |hs|)
  }

  lemma {:induction false} TypeAtOwnOffset(w: World, hs: seq<Handle>, j: nat)
    requires forall i :: 0 <= i < |hs| ==> IsStackVar(w, hs[i])
    requires NoDup(Offsets(w, hs)) && j < |hs|
    ensures TypeAt(w, hs, Offsets(w, hs)[j]) == V(w, hs[j]).ty
  {
    if j > 0 {
      var offs := Offsets(w, hs);
      assert offs[0] != offs[j];
      assert Offsets(w, hs[1..]) == offs[1..];
      TypeAtOwnOffset(w, hs[1..], j - 1);
    }
  }

  /** Every frame-resident local's type sits in the pushed tuple at the
      position its offset counts from the base. */
  lemma FramePushOrder(w: World, hs: seq<Handle>)
    requires forall i :: 0 <= i < |hs| ==> IsStackVar(w, hs[i])
    requires Dense(Offsets(w, hs))
    ensures forall j :: 0 <= j < |hs| ==>
      Offsets(w, hs)[j] < |hs| && FrameTypes(w, hs)[|hs| - 1 - Offsets(w, hs)[j]] == V(w, hs[j]).ty
  {
    var offs := Offsets(w, hs);
    DenseDistinct(offs);
    forall j | 0 <= j < |hs|
      ensures offs[j] < |hs| && FrameTypes(w, hs)[|hs| - 1 - offs[j]] == V(w, hs[j]).ty
    {
      assert offs[j] in Elements(offs);
      TypeAtOwnOffset(w, hs, j);
    }
  }

  // ---------------------------------------------------------------------
  // add_entry_exit

  /** The block edits of `add_entry_exit` in source order: the frame push
      on the entry block and the pop on the exit block (only when `framed`),
      the post-exit instructions on the exit block, then the branch from
      the entry block to the first user block, of which there must be one. */
  function LayoutBlocks(e0: Block, x0: Block, exit: Handle, framed: bool, types: seq<VarType>,
                        post: seq<Insn>, first: Option<Handle>): (r: Result<(Block, Block)>)
    ensures first.None? ==> r.Err?
    ensures r.Ok? ==>
      && r.value.0 == e0.(insns := e0.insns + (if framed then [PushNewStackFrame(types)] else []) + [Branch(first.value)])
      && r.value.1 == x0.(insns := x0.insns + (if framed then [PopStack] else []) + StoredAll(exit, post))
  {
    var e1 :- if framed then Append(e0, exit, PushNewStackFrame(types)) else Ok(e0);
    var x1 :- if framed then Append(x0, exit, PopStack) else Ok(x0);
    var x2 :- AppendAll(x1, exit, post);
    if first.None? then Err(NoUserBlock)
    else
      var e2 :- Append(e1, exit, Branch(first.value));
      Ok((e2, x2))
  }

  function FirstOf(hs: seq<Handle>): Option<Handle> {
    if |hs| == 0 then None else Some(hs[0])
  }

  /** `add_entry_exit`: check the frame offsets, lay out the entry and exit
      blocks, and yield the number of frame-resident locals. */
  function AddEntryExit(w: World, f: Handle): (r: Result<(World, nat)>)
    requires WfWorld(w) && IsFunc(w, f)
    ensures r.Ok? ==> WfWorld(r.value.0) && Stable(w, r.value.0) && r.value.1 == |StackVars(w, f)|
    ensures r.Ok? ==>
      var hs := StackVars(w, f);
      var e := F(w, f).entry;
      var x := F(w, f).exit;
      && Dense(Offsets(w, hs)) && |UserBlocks(w, f)| > 0
      && r.value.0.arena == w.arena[e := r.value.0.arena[e]][x := r.value.0.arena[x]]
      && IsBlock(r.value.0, e) && IsBlock(r.value.0, x)
      && B(r.value.0, e) == B(w, e).(insns := B(w, e).insns
           + (if |hs| > 0 then [PushNewStackFrame(FrameTypes(w, hs))] else [])
           + [Branch(UserBlocks(w, f)[0])])
      && B(r.value.0, x) == B(w, x).(insns := B(w, x).insns
           + (if |hs| > 0 then [PopStack] else [])
           + StoredAll(x, F(w, f).postExit))
  {
    var hs := StackVars(w, f);
    var offs := Offsets(w, hs);
    CheckFrameExact(offs);
    :- CheckFrame(offs);
    var fn := F(w, f);
    var types := FrameTypes(w, hs);
    var bs :- LayoutBlocks(B(w, fn.entry), B(w, fn.exit), fn.exit, |hs| > 0, types, fn.postExit, FirstOf(UserBlocks(w, f)));
    Ok((PutSuperBlocks(w, f, bs.0.insns, bs.1.insns), |hs|))
  }

  /** Give the function's entry and exit blocks new instruction lists. */
  function PutSuperBlocks(w: World, f: Handle, entry: seq<Insn>, exit: seq<Insn>): (r: World)
    requires WfWorld(w) && IsFunc(w, f)
    ensures WfWorld(r) && Stable(w, r)
    ensures var e := F(w, f).entry;
      var x := F(w, f).exit;
      && r.arena == w.arena[e := r.arena[e]][x := r.arena[x]]
      && IsBlock(r, e) && B(r, e) == B(w, e).(insns := entry)
      && IsBlock(r, x) && B(r, x) == B(w, x).(insns := exit)
  {
    var fn := F(w, f);
    var w1 := PutBlock(w, fn.entry, B(w, fn.entry).(insns := entry));
    var w2 := PutBlock(w1, fn.exit, B(w1, fn.exit).(insns := exit));
    StableTrans(w, w1, w2);
    w2
  }

  /** The layout fails unless the frame offsets are 0..N-1 and there is a
      user block to branch to. */
  lemma AddEntryExitChecks(w: World, f: Handle)
    requires WfWorld(w) && IsFunc(w, f)
    ensures var r := AddEntryExit(w, f);
      && (!Dense(Offsets(w, StackVars(w, f))) ==>
            r.Err? && r.error in {StackTipNotZero, StackBaseMismatch, StackCollision})
      && (|UserBlocks(w, f)| == 0 ==> r.Err?)
  {
    CheckFrameExact(Offsets(w, StackVars(w, f)));
  }

  /** The layout goes through whenever the offsets are dense, there is a
      user block, neither super-block is terminated yet and no post-exit
      instruction but the last is a terminator. */
  lemma AddEntryExitAccepts(w: World, f: Handle)
    requires WfWorld(w) && IsFunc(w, f)
    requires Dense(Offsets(w, StackVars(w, f))) && |UserBlocks(w, f)| > 0
    requires !Sealed(B(w, F(w, f).entry)) && !Sealed(B(w, F(w, f).exit))
    requires forall k :: 0 <= k < |F(w, f).postExit| - 1 ==> !Terminator(F(w, f).postExit[k])
    ensures AddEntryExit(w, f).Ok?
  {
    var hs := StackVars(w, f);
    var fn := F(w, f);
    CheckFrameExact(Offsets(w, hs));
    LayoutAccepts(B(w, fn.entry), B(w, fn.exit), fn.exit, |hs| > 0, FrameTypes(w, hs), fn.postExit, FirstOf(UserBlocks(w, f)));
  }

  /** The block edits go through when neither block is sealed, there is a
      block to branch to and no post-exit instruction but the last ends
      control flow. */
  lemma LayoutAccepts(e0: Block, x0: Block, exit: Handle, framed: bool, types: seq<VarType>,
                      post: seq<Insn>, first: Option<Handle>)
    requires !Sealed(e0) && !Sealed(x0) && first.Some?
    requires forall k :: 0 <= k < |post| - 1 ==> !Terminator(post[k])
    ensures LayoutBlocks(e0, x0, exit, framed, types, post, first).Ok?
  {
    var x1 := if framed then Append(x0, exit, PopStack).value else x0;
    AppendAllAccepts(x1, exit, post);
  }

  // ---------------------------------------------------------------------
  // configure_parameters

  predicate IsParamVar(w: World, h: Handle) {
    IsVar(w, h) && V(w, h).kind.ParamVar?
  }

  predicate IsReturnVar(w: World, h: Handle) {
    IsVar(w, h) && V(w, h).kind.ReturnVar?
  }

  function ParamVarsIn(w: World, vs: seq<Handle>): (hs: seq<Handle>)
    ensures forall i :: 0 <= i < |hs| ==> IsParamVar(w, hs[i])
  {
    if |vs| == 0 then []
    else (if IsParamVar(w, vs[0]) then [vs[0]] else []) + ParamVarsIn(w, vs[1..])
  }

  function ReturnVarsIn(w: World, vs: seq<Handle>): (hs: seq<Handle>)
    ensures forall i :: 0 <= i < |hs| ==> IsReturnVar(w, hs[i])
  {
    if |vs| == 0 then []
    else (if IsReturnVar(w, vs[0]) then [vs[0]] else []) + ReturnVarsIn(w, vs[1..])
  }

  /** The slots `set_proxy` hands out to `hs`, from `start` on: one per
      entry in order, a later entry overriding an earlier one for the same
      variable. */
  function SlotsFor(hs: seq<Handle>, start: nat, shift: nat): (m: map<Handle, Slot>)
    ensures m.Keys == set h | h in hs
    decreases |hs|
  {
    if |hs| == 0 then map[]
    else SlotsFor(hs[..|hs| - 1], start, shift)[hs[|hs| - 1] := Slot(start + |hs| - 1, shift)]
  }

  lemma {:induction false} SlotsForDistinct(hs: seq<Handle>, start: nat, shift: nat)
    requires NoDup(hs)
    ensures forall i :: 0 <= i < |hs| ==> hs[i] in SlotsFor(hs, start, shift) && SlotsFor(hs, start, shift)[hs[i]] == Slot(start + i, shift)
    decreases |hs|
  {
    if |hs| > 0 {
      var init := hs[..|hs| - 1];
      SlotsForDistinct(init, start, shift);
      assert forall i :: 0 <= i < |hs| - 1 ==> init[i] == hs[i] && hs[i] != hs[|hs| - 1];
    }
  }

  /** Redirect every variable of `m` to its slot. */
  function SetProxies(w: World, m: map<Handle, Slot>): (r: World)
    requires WfWorld(w) && forall h :: h in m ==> IsVar(w, h)
    ensures WfWorld(r) && Stable(w, r) && r.arena.Keys == w.arena.Keys
    ensures forall h :: h in w.arena && h !in m ==> r.arena[h] == w.arena[h]
    ensures forall h :: h in m ==> IsVar(r, h) && V(r, h) == V(w, h).(proxy := Some(m[h]))
  {
    var arena := map h | h in w.arena :: if h in m then VarEntity(V(w, h).(proxy := Some(m[h]))) else w.arena[h];
    var r := World(arena, w.next);
    forall g | g in w.arena ensures g in r.arena && SameLinks(w.arena[g], r.arena[g]) {
      if g in m {
        assert IsVar(w, g) && r.arena[g].VarEntity?;
      } else {
        assert r.arena[g] == w.arena[g];
      }
    }
    forall h | h in m ensures IsVar(r, h) && V(r, h) == V(w, h).(proxy := Some(m[h])) {
      assert IsVar(w, h);
    }
    forall g | IsFunc(r, g) ensures FuncLinks(r, g, F(r, g)) {
      assert IsFunc(w, g);
      LinksCarryOver(w, r, g, F(w, g), F(r, g));
    }
    forall g | IsBlock(r, g) ensures IsFunc(r, B(r, g).func) {
      assert IsBlock(w, g);
    }
    r
  }

  /** The parameters and return variables of a function, in scope order. */
  function Params(w: World, f: Handle): (hs: seq<Handle>)
    requires WfWorld(w) && IsFunc(w, f)
    ensures forall i :: 0 <= i < |hs| ==> IsParamVar(w, hs[i])
  {
    ParamVarsIn(w, Values(F(w, f).scope))
  }

  function Returns(w: World, f: Handle): (hs: seq<Handle>)
    requires WfWorld(w) && IsFunc(w, f)
    ensures forall i :: 0 <= i < |hs| ==> IsReturnVar(w, hs[i])
  {
    ReturnVarsIn(w, Values(F(w, f).scope))
  }

  /** The slots of `configure_parameters(framed)`: parameters take 0..P-1 in
      scope order, return variables the slots after them, all realigned by
      one frame when the function pushed a frame of its own. */
  function ParameterSlots(w: World, f: Handle, framed: bool): (m: map<Handle, Slot>)
    requires WfWorld(w) && IsFunc(w, f)
    ensures forall h :: h in m ==> IsVar(w, h)
  {
    var shift := if framed then 1 else 0;
    var ps := Params(w, f);
    var rs := Returns(w, f);
    SlotsFor(ps, 0, shift) + SlotsFor(rs, |ps|, shift)
  }

  /** `configure_parameters(framed)`. */
  function ConfigureParameters(w: World, f: Handle, framed: bool): (r: World)
    requires WfWorld(w) && IsFunc(w, f)
    ensures WfWorld(r) && Stable(w, r) && r.arena.Keys == w.arena.Keys
    ensures forall h :: h in w.arena && h !in Params(w, f) && h !in Returns(w, f) ==> r.arena[h] == w.arena[h]
    ensures forall h :: h in Params(w, f) || h in Returns(w, f) ==>
      IsVar(r, h) && V(r, h) == V(w, h).(proxy := Some(ParameterSlots(w, f, framed)[h]))
  {
    SetProxies(w, ParameterSlots(w, f, framed))
  }

  /** Laid out one after the other, two disjoint lists of distinct
      variables get consecutive slots. */
  lemma SlotsLayout(ps: seq<Handle>, rs: seq<Handle>, shift: nat)
    requires NoDup(ps) && NoDup(rs)
    requires forall i :: 0 <= i < |ps| ==> ps[i] !in rs
    ensures var m := SlotsFor(ps, 0, shift) + SlotsFor(rs, |ps|, shift);
      && (forall i :: 0 <= i < |ps| ==> ps[i] in m && m[ps[i]] == Slot(i, shift))
      && (forall j :: 0 <= j < |rs| ==> rs[j] in m && m[rs[j]] == Slot(|ps| + j, shift))
  {
    var a := SlotsFor(ps, 0, shift);
    var b := SlotsFor(rs, |ps|, shift);
    SlotsForDistinct(ps, 0, shift);
    SlotsForDistinct(rs, |ps|, shift);
    assert forall i :: 0 <= i < |ps| ==> ps[i] !in b.Keys;
    MergeSlots(a, b, ps, rs, shift);
  }

  /** The union of the two slot maps keeps both layouts when no parameter
      is also a return variable. */
  lemma MergeSlots(a: map<Handle, Slot>, b: map<Handle, Slot>, ps: seq<Handle>, rs: seq<Handle>, shift: nat)
    requires forall i :: 0 <= i < |ps| ==> ps[i] in a && a[ps[i]] == Slot(i, shift)
    requires forall i :: 0 <= i < |ps| ==> ps[i] !in b
    requires forall j :: 0 <= j < |rs| ==> rs[j] in b && b[rs[j]] == Slot(|ps| + j, shift)
    ensures forall i :: 0 <= i < |ps| ==> ps[i] in a + b && (a + b)[ps[i]] == Slot(i, shift)
    ensures forall j :: 0 <= j < |rs| ==> rs[j] in a + b && (a + b)[rs[j]] == Slot(|ps| + j, shift)
  {
  }

  /** Parameters get slots 0..P-1 and return variables P..P+R-1, shifted by
      one frame exactly when the function has a frame of its own. */
  lemma ConfigureParametersSlots(w: World, f: Handle, framed: bool)
    requires WfWorld(w) && IsFunc(w, f)
    requires NoDup(Params(w, f)) && NoDup(Returns(w, f))
    ensures var m := ParameterSlots(w, f, framed);
      var ps := Params(w, f);
      var rs := Returns(w, f);
      var shift := if framed then 1 else 0;
      && (forall i :: 0 <= i < |ps| ==> ps[i] in m && m[ps[i]] == Slot(i, shift))
      && (forall j :: 0 <= j < |rs| ==> rs[j] in m && m[rs[j]] == Slot(|ps| + j, shift))
  {
    var ps := Params(w, f);
    var rs := Returns(w, f);
    assert forall i :: 0 <= i < |ps| ==> ps[i] !in rs by {
      forall i | 0 <= i < |ps| ensures ps[i] !in rs {
        assert IsParamVar(w, ps[i]);
        assert forall j :: 0 <= j < |rs| ==> IsReturnVar(w, rs[j]);
      }
    }
    SlotsLayout(ps, rs, if framed then 1 else 0);
  }

  // ---------------------------------------------------------------------
  // is_closed

  /** A defined block that ends the function's control flow: a call target,
      or a block whose last instruction is a terminator. */
  predicate Ends(b: Block) {
    b.defined && (b.isFunction || (|b.insns| > 0 && Terminator(b.insns[|b.insns| - 1])))
  }

  /** `is_terminated` of each block in turn, stopping at the first that is
      not; an undefined block reached on the way fails. */
  function ClosedFrom(w: World, bs: seq<Handle>): (r: Result<bool>)
    requires forall i :: 0 <= i < |bs| ==> IsBlock(w, bs[i])
    ensures r == Ok(true) <==> forall i :: 0 <= i < |bs| ==> Ends(B(w, bs[i]))
    ensures r.Err? ==> r.error == BlockUndefined
  {
    if |bs| == 0 then Ok(true)
    else
      var t :- IsTerminated(B(w, bs[0]));
      if !t then Ok(false) else ClosedFrom(w, bs[1..])
  }

  /** `is_closed`: every user block is terminated. */
  function IsClosed(w: World, f: Handle): (r: Result<bool>)
    requires WfWorld(w) && IsFunc(w, f)
    ensures r == Ok(true) <==> forall i :: 0 <= i < |UserBlocks(w, f)| ==> Ends(B(w, UserBlocks(w, f)[i]))
  {
    ClosedFrom(w, UserBlocks(w, f))
  }

  // ---------------------------------------------------------------------
  // variables_finalized

  /** The entry block, now forced, takes over every instruction of the exit
      block, which is left empty. */
  function FoldExit(w: World, f: Handle): (r: World)
    requires WfWorld(w) && IsFunc(w, f)
    ensures WfWorld(r) && Stable(w, r)
    ensures var e := F(w, f).entry;
      var x := F(w, f).exit;
      && r.arena == w.arena[e := r.arena[e]][x := r.arena[x]]
      && B(r, e) == B(w, e).(force := true, insns := B(w, e).insns + StoredAll(x, B(w, x).insns))
      && B(r, x) == B(w, x).(insns := [])
  {
    var fn := F(w, f);
    var forced := B(w, fn.entry).(force := true);
    AppendAllAccepts(forced, fn.exit, B(w, fn.exit).insns);
    var e1 := AppendAll(forced, fn.exit, B(w, fn.exit).insns).value;
    var w1 := PutBlock(w, fn.entry, e1);
    var w2 := PutBlock(w1, fn.exit, B(w, fn.exit).(insns := []));
    StableTrans(w, w1, w2);
    w2
  }

  /** Both super-blocks are handed to ordinary usage tracking and the
      function is marked finalized. */
  function HandOver(w: World, f: Handle): (r: World)
    requires WfWorld(w) && IsFunc(w, f)
    ensures WfWorld(r) && Stable(w, r)
    ensures var e := F(w, f).entry;
      var x := F(w, f).exit;
      && r.arena == w.arena[e := r.arena[e]][x := r.arena[x]][f := r.arena[f]]
      && B(r, e) == B(w, e).(clear := true)
      && B(r, x) == B(w, x).(clear := true)
      && F(r, f) == F(w, f).(finalized := true)
  {
    var fn := F(w, f);
    var w1 := PutBlock(w, fn.entry, Superclear(B(w, fn.entry)));
    var w2 := PutBlock(w1, fn.exit, Superclear(B(w, fn.exit)));
    var w3 := PutFunc(w2, f, fn.(finalized := true));
    StableTrans(w, w1, w2);
    StableTrans(w, w2, w3);
    w3
  }

  /** The tail of `variables_finalized`: fold the exit block into the entry
      block when the function is closed, then hand both super-blocks over. */
  function Conclude(w: World, f: Handle, closed: bool): (r: World)
    requires WfWorld(w) && IsFunc(w, f)
    ensures WfWorld(r) && Stable(w, r)
    ensures var e := F(w, f).entry;
      var x := F(w, f).exit;
      && r.arena == w.arena[e := r.arena[e]][x := r.arena[x]][f := r.arena[f]]
      && F(r, f) == F(w, f).(finalized := true)
      && B(r, e).clear && B(r, x).clear
      && (closed ==>
            && B(r, e).force
            && B(r, e).insns == B(w, e).insns + StoredAll(x, B(w, x).insns)
            && B(r, x).insns == [])
      && (!closed ==> B(r, e).insns == B(w, e).insns && B(r, x).insns == B(w, x).insns)
  {
    var w1 := if closed then FoldExit(w, f) else w;
    assert Stable(w, w1) && F(w1, f) == F(w, f);
    var r := HandOver(w1, f);
    StableTrans(w, w1, r);
    r
  }

  /** `variables_finalized`: on a defined function not finalized yet, lay
      out the frame, configure the parameters, fold the exit block into the
      entry block when every user block is terminated, then clear both
      super-blocks and mark the function finalized. */
  function VariablesFinalized(w: World, f: Handle): (r: Result<World>)
    requires WfWorld(w) && IsFunc(w, f)
    ensures !IsDefined(w, f) ==> r == Err(FunctionUndefined)
    ensures IsDefined(w, f) && F(w, f).finalized ==> r == Err(AlreadyFinalized)
    ensures r.Ok? ==> WfWorld(r.value) && Stable(w, r.value) && IsFunc(r.value, f)
    ensures r.Ok? ==> F(r.value, f) == F(w, f).(finalized := true)
    ensures r.Ok? ==> B(r.value, F(w, f).entry).clear && B(r.value, F(w, f).exit).clear
  {
    if !IsDefined(w, f) then Err(FunctionUndefined)
    else if F(w, f).finalized then Err(AlreadyFinalized)
    else
    var laid :- AddEntryExit(w, f);
    var w1 := ConfigureParameters(laid.0, f, laid.1 > 0);
    StableTrans(w, laid.0, w1);
    LaidKeepsFunc(w, f, laid);
    ConfigureKeepsFunc(laid.0, f, laid.1 > 0);
    var closed :- IsClosed(w1, f);
    var r := Conclude(w1, f, closed);
    StableTrans(w, w1, r);
    Ok(r)
  }

  /** User blocks are picked by kind alone, so two worlds that agree on
      which of the scope's values are blocks pick the same ones. */
  lemma {:induction false} UserBlocksOfAgree(w: World, w2: World, vs: seq<Handle>, e: Handle, x: Handle)
    requires forall i :: 0 <= i < |vs| ==> IsBlock(w, vs[i]) == IsBlock(w2, vs[i])
    ensures UserBlocksOf(w2, vs, e, x) == UserBlocksOf(w, vs, e, x)
    decreases |vs|
  {
    if |vs| > 0 {
      UserBlocksOfAgree(w, w2, vs[1..], e, x);
    }
  }

  /** Any step that keeps the arena's handles, their kinds and the
      function's scope keeps its user blocks. */
  lemma UserBlocksKept(w: World, w2: World, f: Handle)
    requires WfWorld(w) && WfWorld(w2) && IsFunc(w, f) && Stable(w, w2)
    requires w2.arena.Keys == w.arena.Keys && F(w2, f).scope == F(w, f).scope
    ensures UserBlocks(w2, f) == UserBlocks(w, f)
  {
    var vs := Values(F(w, f).scope);
    forall i | 0 <= i < |vs| ensures IsBlock(w, vs[i]) == IsBlock(w2, vs[i]) {
      if vs[i] in w.arena {
        assert SameLinks(w.arena[vs[i]], w2.arena[vs[i]]);
      }
    }
    UserBlocksOfAgree(w, w2, vs, F(w, f).entry, F(w, f).exit);
  }

  /** Laying out the frame and configuring the parameters leave the user
      blocks, and so the closedness of the function, as they were. */
  lemma PreparedKeepsUserBlocks(w: World, f: Handle)
    requires WfWorld(w) && IsFunc(w, f) && AddEntryExit(w, f).Ok?
    ensures var laid := AddEntryExit(w, f).value;
      var w1 := ConfigureParameters(laid.0, f, laid.1 > 0);
      && F(w1, f) == F(w, f)
      && UserBlocks(w1, f) == UserBlocks(w, f)
      && (forall b :: b in UserBlocks(w, f) ==> B(w1, b) == B(w, b))
  {
    var laid := AddEntryExit(w, f).value;
    var a := laid.0;
    var w1 := ConfigureParameters(a, f, laid.1 > 0);
    StableTrans(w, a, w1);
    LaidKeepsFunc(w, f, laid);
    ConfigureKeepsFunc(a, f, laid.1 > 0);
    UserBlocksKept(w, w1, f);
    forall b | b in UserBlocks(w, f) ensures B(w1, b) == B(w, b) {
      assert b !in Params(a, f) && b !in Returns(a, f);
    }
  }

  /** Closedness reads only the blocks it walks over. */
  lemma {:induction false} ClosedFromAgree(w: World, w2: World, bs: seq<Handle>)
    requires forall i :: 0 <= i < |bs| ==> IsBlock(w, bs[i]) && IsBlock(w2, bs[i]) && B(w2, bs[i]) == B(w, bs[i])
    ensures ClosedFrom(w2, bs) == ClosedFrom(w, bs)
    decreases |bs|
  {
    if |bs| > 0 {
      ClosedFromAgree(w, w2, bs[1..]);
    }
  }

  /** Folding the exit block and handing the super-blocks over touch no
      user block. */
  lemma ConcludeKeepsUserBlocks(w: World, f: Handle, closed: bool)
    requires WfWorld(w) && IsFunc(w, f)
    ensures var r := Conclude(w, f, closed);
      && IsFunc(r, f)
      && UserBlocks(r, f) == UserBlocks(w, f)
      && (forall b :: b in UserBlocks(w, f) ==> IsBlock(r, b) && B(r, b) == B(w, b))
  {
    var r := Conclude(w, f, closed);
    var fn := F(w, f);
    assert fn.entry in w.arena && fn.exit in w.arena;
    assert r.arena.Keys == w.arena.Keys;
    UserBlocksKept(w, r, f);
  }

  /** The steps of a successful `variables_finalized`, spelt out. */
  lemma VariablesFinalizedSteps(w: World, f: Handle)
    requires WfWorld(w) && IsFunc(w, f) && VariablesFinalized(w, f).Ok?
    ensures AddEntryExit(w, f).Ok?
    ensures var laid := AddEntryExit(w, f).value;
      var w1 := ConfigureParameters(laid.0, f, laid.1 > 0);
      && IsClosed(w1, f).Ok?
      && VariablesFinalized(w, f) == Ok(Conclude(w1, f, IsClosed(w1, f).value))
  {
    var laid := AddEntryExit(w, f).value;
    LaidKeepsFunc(w, f, laid);
    ConfigureKeepsFunc(laid.0, f, laid.1 > 0);
    var w1 := ConfigureParameters(laid.0, f, laid.1 > 0);
    var closed := IsClosed(w1, f);
    assert closed.Ok?;
  }

  /** `variables_finalized` leaves every user block as it was. */
  lemma VariablesFinalizedKeepsUserBlocks(w: World, f: Handle, r: World)
    requires WfWorld(w) && IsFunc(w, f) && VariablesFinalized(w, f) == Ok(r)
    ensures IsFunc(r, f) && UserBlocks(r, f) == UserBlocks(w, f)
    ensures forall b :: b in UserBlocks(w, f) ==> IsBlock(r, b) && B(r, b) == B(w, b)
  {
    var laid := AddEntryExit(w, f).value;
    var w1 := ConfigureParameters(laid.0, f, laid.1 > 0);
    PreparedKeepsUserBlocks(w, f);
    VariablesFinalizedSteps(w, f);
    ConcludeKeepsUserBlocks(w1, f, IsClosed(w1, f).value);
  }

  /** Configuring the parameters touches variables only. */
  lemma ConfigureKeepsBlocks(w: World, f: Handle, framed: bool)
    requires WfWorld(w) && IsFunc(w, f)
    ensures var r := ConfigureParameters(w, f, framed);
      && IsFunc(r, f) && F(r, f) == F(w, f)
      && forall h :: IsBlock(w, h) ==> IsBlock(r, h) && B(r, h) == B(w, h)
  {
    var r := ConfigureParameters(w, f, framed);
    forall h | IsBlock(w, h) ensures IsBlock(r, h) && B(r, h) == B(w, h) {
      assert h !in Params(w, f) && h !in Returns(w, f);
    }
    assert f !in Params(w, f) && f !in Returns(w, f);
  }

  /** Laying out the super-blocks leaves the function record alone. */
  lemma LaidKeepsFunc(w: World, f: Handle, laid: (World, nat))
    requires WfWorld(w) && IsFunc(w, f) && AddEntryExit(w, f) == Ok(laid)
    ensures IsFunc(laid.0, f) && F(laid.0, f) == F(w, f)
  {
    var fn := F(w, f);
    assert IsBlock(w, fn.entry) && IsBlock(w, fn.exit);
    assert laid.0.arena[f] == w.arena[f];
  }

  /** Configuring the parameters leaves the function record alone. */
  lemma ConfigureKeepsFunc(w: World, f: Handle, framed: bool)
    requires WfWorld(w) && IsFunc(w, f)
    ensures var r := ConfigureParameters(w, f, framed);
      IsFunc(r, f) && F(r, f) == F(w, f)
  {
    assert f !in Params(w, f) && f !in Returns(w, f);
  }

  /** The steps of a successful `variables_finalized` once more, with the
      closedness it tests read off the user blocks it started from. */
  lemma PreparedClosedness(w: World, f: Handle)
    requires WfWorld(w) && IsFunc(w, f) && VariablesFinalized(w, f).Ok?
    ensures AddEntryExit(w, f).Ok?
    ensures var laid := AddEntryExit(w, f).value;
      var w1 := ConfigureParameters(laid.0, f, laid.1 > 0);
      && IsFunc(w1, f)
      && IsClosed(w1, f).Ok?
      && (IsClosed(w1, f).value <==> forall i :: 0 <= i < |UserBlocks(w, f)| ==> Ends(B(w, UserBlocks(w, f)[i])))
      && VariablesFinalized(w, f).value == Conclude(w1, f, IsClosed(w1, f).value)
  {
    var laid := AddEntryExit(w, f).value;
    var w1 := ConfigureParameters(laid.0, f, laid.1 > 0);
    PreparedKeepsUserBlocks(w, f);
    VariablesFinalizedSteps(w, f);
    ClosedAgree(w, w1, f);
  }

  /** Two worlds whose function has the same user blocks, with the same
      contents, agree on whether it is closed. */
  lemma ClosedAgree(w: World, w1: World, f: Handle)
    requires WfWorld(w) && IsFunc(w, f) && WfWorld(w1) && IsFunc(w1, f)
    requires UserBlocks(w1, f) == UserBlocks(w, f)
    requires forall b :: b in UserBlocks(w, f) ==> B(w1, b) == B(w, b)
    ensures IsClosed(w1, f) == IsClosed(w, f)
  {
    var bs := UserBlocks(w, f);
    assert forall i :: 0 <= i < |bs| ==> bs[i] in bs;
    ClosedFromAgree(w, w1, bs);
  }

  /** Configuring the parameters after the layout leaves the laid-out
      super-blocks as they are. */
  lemma PreparedSuperBlocks(w: World, f: Handle)
    requires WfWorld(w) && IsFunc(w, f) && AddEntryExit(w, f).Ok?
    ensures var laid := AddEntryExit(w, f).value;
      var w1 := ConfigureParameters(laid.0, f, laid.1 > 0);
      && IsFunc(w1, f) && F(w1, f) == F(w, f)
      && IsBlock(laid.0, F(w, f).entry) && IsBlock(laid.0, F(w, f).exit)
      && B(w1, F(w, f).entry) == B(laid.0, F(w, f).entry)
      && B(w1, F(w, f).exit) == B(laid.0, F(w, f).exit)
  {
    var laid := AddEntryExit(w, f).value;
    ConfigureKeepsBlocks(laid.0, f, laid.1 > 0);
    PreparedKeepsUserBlocks(w, f);
  }

  /** When every user block was terminated, the entry block (forced) ends
      up holding the laid-out entry followed by the laid-out exit and the
      exit block is empty; otherwise both keep their laid-out instructions. */
  lemma VariablesFinalizedFolds(w: World, f: Handle, laid: (World, nat), r: World)
    requires WfWorld(w) && IsFunc(w, f)
    requires AddEntryExit(w, f) == Ok(laid) && VariablesFinalized(w, f) == Ok(r)
    ensures IsBlock(laid.0, F(w, f).entry) && IsBlock(laid.0, F(w, f).exit)
    ensures IsBlock(r, F(w, f).entry) && IsBlock(r, F(w, f).exit)
    ensures var e := F(w, f).entry;
      var x := F(w, f).exit;
      var closed := forall i :: 0 <= i < |UserBlocks(w, f)| ==> Ends(B(w, UserBlocks(w, f)[i]));
      && (closed ==>
            && B(r, e).force
            && B(r, e).insns == B(laid.0, e).insns + StoredAll(x, B(laid.0, x).insns)
            && B(r, x).insns == [])
      && (!closed ==> B(r, e).insns == B(laid.0, e).insns && B(r, x).insns == B(laid.0, x).insns)
  {
    PreparedClosedness(w, f);
    PreparedSuperBlocks(w, f);
  }
}
