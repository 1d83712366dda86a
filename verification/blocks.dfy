/** Basic blocks and the two super-blocks of every function (cmd_ir/core.py,
    `BasicBlock` and `SuperBlock`).

    A block is a named instruction sequence of one function. Once its last
    instruction is a terminator nothing more may be appended unless the block
    is forced, and a `Return` is stored as a branch to the function's exit
    block. The entry and exit super-blocks report a use count of 2 until
    they are cleared, so that nothing eliminates or inlines them before the
    function's frame layout is fixed. */
module Blocks {
  import opened Common
  import opened Insns

  datatype Block = Block(
    name: string,
    func: Handle,
    insns: seq<Insn>,
    defined: bool,
    isFunction: bool,
    force: bool,
    use: nat,
    super: bool,
    clear: bool,
    isEntry: bool)

  /** A fresh user block of `func`: not yet defined, not a call target. */
  function NewBlock(name: string, func: Handle): (b: Block)
    ensures !b.defined && !b.super && b.insns == [] && UseCount(b) == 0
    ensures b.name == name && b.func == func
    ensures !b.isFunction && !b.force && !b.clear && !b.isEntry
  {
    Block(name, func, [], false, false, false, 0, false, false, false)
  }

  /** A fresh super-block: defined from the start and pinned. */
  function NewSuperBlock(name: string, func: Handle, isEntry: bool): (b: Block)
    ensures b.defined && b.super && !b.clear && b.insns == [] && UseCount(b) == 2
  {
    Block(name, func, [], true, false, false, 0, true, false, isEntry)
  }

  /** The block's last instruction is a terminator and the block is not
      forced: appending is refused. */
  predicate Sealed(b: Block) {
    && !b.force
    && |b.insns| > 0
    && Terminator(b.insns[|b.insns| - 1])
  }

  /** `validate_insn`: refuse appending to a sealed block; turn a `Return`
      into a branch to the function's exit block `exit`. */
  function Validate(b: Block, exit: Handle, i: Insn): (r: Result<Insn>)
    ensures r.Err? <==> Sealed(b)
    ensures r.Err? ==> r.error == BlockTerminated
    ensures r.Ok? && i.Return? ==> r.value == Branch(exit)
    ensures r.Ok? && !i.Return? ==> r.value == i
  {
    if Sealed(b) then Err(BlockTerminated)
    else if i.Return? then Ok(Branch(exit))
    else Ok(i)
  }

  /** Validation followed by the append itself (activation aside). */
  function Append(b: Block, exit: Handle, i: Insn): (r: Result<Block>)
    ensures r.Err? <==> Sealed(b)
    ensures r.Ok? ==> r.value == b.(insns := b.insns + [Validate(b, exit, i).value])
  {
    var i' :- Validate(b, exit, i);
    Ok(b.(insns := b.insns + [i']))
  }

  /** The instruction a block stores for `i`: a `Return` becomes a branch to
      the function's exit block `exit`. */
  function Stored(exit: Handle, i: Insn): Insn {
    if i.Return? then Branch(exit) else i
  }

  function StoredAll(exit: Handle, s: seq<Insn>): (r: seq<Insn>)
    ensures |r| == |s| && forall k :: 0 <= k < |s| ==> r[k] == Stored(exit, s[k])
  {
    if |s| == 0 then [] else [Stored(exit, s[0])] + StoredAll(exit, s[1..])
  }

  /** `add` of each instruction of `s` in turn. */
  function AppendAll(b: Block, exit: Handle, s: seq<Insn>): (r: Result<Block>)
    ensures r.Ok? ==> r.value == b.(insns := b.insns + StoredAll(exit, s))
    decreases |s|
  {
    if |s| == 0 then
      assert b.insns + StoredAll(exit, s) == b.insns;
      Ok(b)
    else
      var a := Append(b, exit, s[0]);
      if a.Err? then Err(a.error)
      else
        var x := Stored(exit, s[0]);
        var rest := StoredAll(exit, s[1..]);
        assert a.value == b.(insns := b.insns + [x]);
        assert StoredAll(exit, s) == [x] + rest;
        assert (b.insns + [x]) + rest == b.insns + ([x] + rest);
        AppendAll(a.value, exit, s[1..])
  }

  /** All of `s` goes in exactly when the block is forced or accepts the
      first instruction, and none but the last is a terminator. */
  lemma {:induction false} AppendAllAccepts(b: Block, exit: Handle, s: seq<Insn>)
    ensures AppendAll(b, exit, s).Ok? <==>
      |s| == 0 || (!Sealed(b) && (b.force || forall k :: 0 <= k < |s| - 1 ==> !Terminator(s[k])))
    decreases |s|
  {
    if |s| > 0 && !Sealed(b) {
      var b1 := Append(b, exit, s[0]).value;
      assert Sealed(b1) <==> !b.force && Terminator(s[0]);
      AppendAllAccepts(b1, exit, s[1..]);
      assert forall k :: 1 <= k < |s| ==> s[1..][k - 1] == s[k];
    }
  }

  /** `is_terminated`: only asked of defined blocks; a function-call target
      block always counts as terminated, any other one when its last
      instruction is a terminator. */
  function IsTerminated(b: Block): (r: Result<bool>)
    ensures r.Err? <==> !b.defined
    ensures r.Ok? ==> (r.value <==> b.isFunction || (|b.insns| > 0 && Terminator(b.insns[|b.insns| - 1])))
  {
    if !b.defined then Err(BlockUndefined)
    else if b.isFunction then Ok(true)
    else if |b.insns| == 0 then Ok(false)
    else Ok(Terminator(b.insns[|b.insns| - 1]))
  }

  /** `end`: a block may only be closed once it was defined. */
  function End(b: Block): (r: Outcome)
    ensures r.Pass? <==> b.defined
  {
    Need(b.defined, BlockUndefined)
  }

  /** `usage`: counts for an ordinary block or a cleared super-block; a
      pinned super-block ignores it. */
  function Usage(b: Block): (r: Block)
    ensures (!b.super || b.clear) ==> r == b.(use := b.use + 1)
    ensures b.super && !b.clear ==> r == b
  {
    if b.super && !b.clear then b else b.(use := b.use + 1)
  }

  /** `reset`: like `usage`, ignored by a pinned super-block. */
  function Reset(b: Block): (r: Block)
    ensures (!b.super || b.clear) ==> r == b.(use := 0)
    ensures b.super && !b.clear ==> r == b
  {
    if b.super && !b.clear then b else b.(use := 0)
  }

  /** `use_count`: 2 for a pinned super-block, one extra for a cleared entry
      block (the function's own callers reach it), otherwise the count. */
  function UseCount(b: Block): nat {
    if !b.super then b.use
    else if !b.clear then 2
    else if b.isEntry then 1 + b.use
    else b.use
  }

  /** `superclear`: hand the super-block to ordinary usage tracking. */
  function Superclear(b: Block): (r: Block)
    requires b.super
    ensures r.clear && r.insns == b.insns && r.use == b.use
    ensures r.(clear := b.clear) == b
  {
    b.(clear := true)
  }

  /** `is_empty`: a pinned super-block never counts as empty. */
  function IsEmpty(b: Block): (r: bool)
    ensures r ==> |b.insns| == 0
    ensures b.super && !b.clear ==> !r
    ensures (!b.super || b.clear) && |b.insns| == 0 ==> r
  {
    (!b.super || b.clear) && |b.insns| == 0
  }

  /** `set_is_function`. */
  function SetIsFunction(b: Block): (r: Block)
    ensures r.isFunction && (r.defined ==> IsTerminated(r) == Ok(true))
    ensures r.(isFunction := b.isFunction) == b
  {
    b.(isFunction := true)
  }

  // ---------------------------------------------------------------------
  // Properties

  /** Once a terminator went in, nothing more does unless the block is
      forced. A `Return` is such a terminator: it is stored as a branch. */
  lemma NoAppendAfterTerminator(b: Block, exit: Handle, t: Insn, i: Insn)
    requires !b.force && Terminator(t) && Append(b, exit, t).Ok?
    ensures Append(Append(b, exit, t).value, exit, i).Err?
  {
  }

  /** A forced block accepts anything. */
  lemma ForcedAcceptsAll(b: Block, exit: Handle, i: Insn)
    requires b.force
    ensures Append(b, exit, i).Ok?
  {
  }

  /** Appending a `Return` to a defined block terminates it with a branch to
      the exit block. */
  lemma ReturnBranchesToExit(b: Block, exit: Handle)
    requires b.defined && Append(b, exit, Return).Ok?
    ensures Append(b, exit, Return).value.insns == b.insns + [Branch(exit)]
    ensures IsTerminated(Append(b, exit, Return).value) == Ok(true)
  {
  }

  datatype BlockEvent = Used | WasReset

  /** The block after a run of `usage`/`reset` calls. */
  function Replay(b: Block, evs: seq<BlockEvent>): Block
    decreases |evs|
  {
    if |evs| == 0 then b
    else Replay(if evs[0].Used? then Usage(b) else Reset(b), evs[1..])
  }

  /** However often it is used or reset, a super-block reports a use count of
      2 until it is cleared. */
  lemma {:induction false} PinnedUntilCleared(b: Block, evs: seq<BlockEvent>)
    requires b.super && !b.clear
    ensures UseCount(Replay(b, evs)) == 2
    ensures Replay(b, evs) == b
  {
    if |evs| > 0 {
      PinnedUntilCleared(b, evs[1..]);
    }
  }

  /** Once cleared, every use counts. */
  lemma {:induction false} ClearedCounts(b: Block, n: nat)
    requires b.super
    ensures UseCount(UsedTimes(Superclear(b), n)) == UseCount(Superclear(b)) + n
  {
    if n > 0 {
      ClearedCounts(b, n - 1);
    }
  }

  function UsedTimes(b: Block, n: nat): (r: Block)
    ensures r.super == b.super && r.clear == b.clear && r.isEntry == b.isEntry
    ensures (!b.super || b.clear) ==> r == b.(use := b.use + n)
    ensures b.super && !b.clear ==> r == b
  {
    if n == 0 then b else Usage(UsedTimes(b, n - 1))
  }
}
