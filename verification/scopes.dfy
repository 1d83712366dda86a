/** The scoped naming model shared by every IR holder (cmd_ir/core.py,
    classes `Scope` and `VariableHolder`).

    A scope level is an insertion-ordered map from names to entity handles
    plus the inverse table from handles to names. Levels are chained, the
    innermost first: a function's level, then its unit's level. Reads fall
    through to the outer levels; writes always go to the innermost one. */
module Scopes {
  import opened Common
  import Decimal

  datatype Level = Level(order: seq<string>, fwd: map<string, Handle>, inv: map<Handle, string>)

  const Empty: Level := Level([], map[], map[])

  predicate NoDup<T(==)>(s: seq<T>) {
    forall i, j :: 0 <= i < j < |s| ==> s[i] != s[j]
  }

  /** The order lists every bound name exactly once. */
  ghost predicate Wf(l: Level) {
    && NoDup(l.order)
    && forall n :: n in l.fwd <==> n in l.order
  }

  ghost predicate WfChain(c: seq<Level>) {
    forall i :: 0 <= i < |c| ==> Wf(c[i])
  }

  /** `name in scope`: some level of the chain binds the name. */
  predicate Contains(c: seq<Level>, name: string) {
    exists i :: 0 <= i < |c| && name in c[i].fwd
  }

  /** Level `i` is the innermost level of the chain that binds `name`. */
  predicate InnermostAt(c: seq<Level>, name: string, i: int) {
    && 0 <= i < |c|
    && name in c[i].fwd
    && forall j :: 0 <= j < i ==> name !in c[j].fwd
  }

  /** Every name bound anywhere in the chain. */
  function Names(c: seq<Level>): (ns: set<string>)
    ensures forall n :: n in ns <==> Contains(c, n)
  {
    set i, n | 0 <= i < |c| && n in c[i].fwd :: n
  }

  /** `scope[name]`: the innermost binding, or `NameNotFound` when no level
      binds the name. */
  function Get(c: seq<Level>, name: string): (r: Result<Handle>)
    ensures r.Ok? <==> Contains(c, name)
    ensures r.Ok? ==> exists i :: InnermostAt(c, name, i) && r.value == c[i].fwd[name]
    ensures r.Err? ==> r.error == NameNotFound(name)
  {
    if |c| == 0 then Err(NameNotFound(name))
    else if name in c[0].fwd then Ok(c[0].fwd[name])
    else
      var r := Get(c[1..], name);
      assert forall i :: 0 <= i < |c[1..]| ==> c[1..][i] == c[i + 1];
      if r.Ok? then
        var i :| InnermostAt(c[1..], name, i) && r.value == c[1..][i].fwd[name];
        assert InnermostAt(c, name, i + 1);
        r
      else
        r
  }

  /** `get_no_parent`: the binding of the innermost level only. */
  function GetNoParent(c: seq<Level>, name: string): (r: Result<Handle>)
    requires |c| > 0
    ensures r.Ok? <==> name in c[0].fwd
    ensures r.Ok? ==> r.value == c[0].fwd[name]
  {
    if name in c[0].fwd then Ok(c[0].fwd[name]) else Err(NameNotFound(name))
  }

  /** `for_value`: the name under which the first level that ever named
      `v` recorded it; only the innermost level unless `lookParent`. */
  function ForValue(c: seq<Level>, v: Handle, lookParent: bool): (r: Result<string>)
    ensures r.Ok? <==> exists i :: 0 <= i < |c| && (lookParent || i == 0) && v in c[i].inv
    ensures r.Ok? ==> exists i :: (0 <= i < |c| && v in c[i].inv && r.value == c[i].inv[v]
      && forall j :: 0 <= j < i ==> v !in c[j].inv)
  {
    if |c| == 0 then Err(ValueNotFound)
    else if v in c[0].inv then Ok(c[0].inv[v])
    else if lookParent then
      var r := ForValue(c[1..], v, true);
      assert forall i :: 0 <= i < |c[1..]| ==> c[1..][i] == c[i + 1];
      if r.Ok? then
        var i :| 0 <= i < |c[1..]| && v in c[1..][i].inv && r.value == c[1..][i].inv[v]
          && forall j :: 0 <= j < i ==> v !in c[1..][j].inv;
        assert v in c[i + 1].inv && r.value == c[i + 1].inv[v];
        r
      else
        assert forall i :: 1 <= i < |c| ==> v !in c[i].inv by {
          forall i | 1 <= i < |c| ensures v !in c[i].inv {
            assert c[i] == c[1..][i - 1];
          }
        }
        r
    else Err(ValueNotFound)
  }

  /** `scope[name] = v` on one level: the name keeps its position when it was
      already bound and is appended otherwise; the inverse table gains
      `v -> name` and keeps every other entry, stale ones included. */
  function Set(l: Level, name: string, v: Handle): (r: Level)
    ensures Wf(l) ==> Wf(r)
    ensures r.fwd == l.fwd[name := v] && r.inv == l.inv[v := name]
    ensures Wf(l) ==> l.order <= r.order
    ensures Wf(l) ==> |r.order| == |l.order| + (if name in l.fwd then 0 else 1)
  {
    var order := if name in l.fwd then l.order else l.order + [name];
    Level(order, l.fwd[name := v], l.inv[v := name])
  }

  /** A write through a chain: always into the innermost level. */
  function SetLocal(c: seq<Level>, name: string, v: Handle): (r: seq<Level>)
    requires |c| > 0
    ensures |r| == |c| && r[1..] == c[1..]
    ensures WfChain(c) ==> WfChain(r)
    ensures Get(r, name) == Ok(v)
    ensures forall n :: n != name ==> Get(r, n) == Get(c, n)
    ensures ForValue(r, v, true) == Ok(name)
  {
    var r := c[0 := Set(c[0], name, v)];
    assert InnermostAt(r, name, 0);
    assert forall n :: n != name ==> Get(r, n) == Get(c, n) by {
      forall n | n != name ensures Get(r, n) == Get(c, n) {
        if n in c[0].fwd {
          assert Get(r, n) == Ok(c[0].fwd[n]);
        } else {
          assert r[1..] == c[1..];
        }
      }
    }
    r
  }

  /** `Scope.get_or_create`: the existing binding wins; otherwise `made` (the
      entity the callback built) is bound locally under `name`. */
  function GetOrCreate(c: seq<Level>, name: string, made: Handle): (r: (seq<Level>, Handle))
    requires |c| > 0
    ensures Get(r.0, name) == Ok(r.1)
    ensures Contains(c, name) ==> r.0 == c && Get(c, name) == Ok(r.1)
    ensures !Contains(c, name) ==> r.1 == made && r.0 == SetLocal(c, name, made)
  {
    if Contains(c, name) then (c, Get(c, name).value) else (SetLocal(c, name, made), made)
  }

  // ---------------------------------------------------------------------
  // VariableHolder

  /** The candidate `hint` followed by the decimal counter `i` (`'%s%d'`). */
  function Suffixed(hint: string, i: nat): string {
    hint + Decimal.Show(i)
  }

  function Suffixes(hint: string, n: nat): set<string> {
    set j | 0 <= j < n :: Suffixed(hint, j)
  }

  lemma {:induction false} SuffixesCard(hint: string, n: nat)
    ensures |Suffixes(hint, n)| == n
  {
    if n > 0 {
      SuffixesCard(hint, n - 1);
      assert Suffixes(hint, n) == Suffixes(hint, n - 1) + {Suffixed(hint, n - 1)};
      if Suffixed(hint, n - 1) in Suffixes(hint, n - 1) {
        var j :| 0 <= j < n - 1 && Suffixed(hint, j) == Suffixed(hint, n - 1);
        Decimal.SuffixInjective(hint, j, n - 1);
      }
    }
  }

  lemma {:induction false} SubsetCard<T>(a: set<T>, b: set<T>)
    requires a <= b
    ensures |a| <= |b|
  {
    if a != {} {
      var x :| x in a;
      SubsetCard(a - {x}, b - {x});
    }
  }

  /** Only finitely many suffixed candidates can be taken: if the first `n`
      all are, there are at least `n` names. */
  lemma SuffixesBound(keys: set<string>, hint: string, n: nat)
    requires forall j :: 0 <= j < n ==> Suffixed(hint, j) in keys
    ensures n <= |keys|
  {
    SuffixesCard(hint, n);
    SubsetCard(Suffixes(hint, n), keys);
  }

  /** The least counter from `i` on whose candidate is not taken. */
  function FreeIndexFrom(keys: set<string>, hint: string, i: nat): (k: nat)
    requires forall j :: 0 <= j < i ==> Suffixed(hint, j) in keys
    ensures i <= k
    ensures Suffixed(hint, k) !in keys
    ensures forall j :: 0 <= j < k ==> Suffixed(hint, j) in keys
    decreases |keys| - i
  {
    if Suffixed(hint, i) !in keys then i
    else
      SuffixesBound(keys, hint, i + 1);
      FreeIndexFrom(keys, hint, i + 1)
  }

  /** At most one counter is both free and preceded only by taken ones. */
  lemma LeastFreeUnique(keys: set<string>, hint: string, a: nat, b: nat)
    requires Suffixed(hint, a) !in keys && forall j :: 0 <= j < a ==> Suffixed(hint, j) in keys
    requires Suffixed(hint, b) !in keys && forall j :: 0 <= j < b ==> Suffixed(hint, j) in keys
    ensures a == b
  {
  }

  /** Reference definition of `uniq_name`: `hint` itself when it is free in
      the whole chain, else `hint` followed by the least free counter. */
  function FreshName(c: seq<Level>, hint: string): (r: string)
    ensures !Contains(c, r)
    ensures !Contains(c, hint) ==> r == hint
    ensures Contains(c, hint) ==> exists i: nat :: (r == Suffixed(hint, i)
      && forall j :: 0 <= j < i ==> Contains(c, Suffixed(hint, j)))
  {
    if !Contains(c, hint) then hint
    else Suffixed(hint, FreeIndexFrom(Names(c), hint, 0))
  }

  /** `uniq_name` as the core computes it: probe `hint`, then `hint0`,
      `hint1`, ... until a name no level binds. */
  method UniqName(c: seq<Level>, hint: string) returns (r: string)
    ensures r == FreshName(c, hint)
    ensures !Contains(c, r)
  {
    if !Contains(c, hint) {
      return hint;
    }
    var i: nat := 0;
    while Contains(c, Suffixed(hint, i))
      invariant forall j :: 0 <= j < i ==> Suffixed(hint, j) in Names(c)
      decreases |Names(c)| - i
    {
      SuffixesBound(Names(c), hint, i + 1);
      i := i + 1;
    }
    LeastFreeUnique(Names(c), hint, FreeIndexFrom(Names(c), hint, 0), i);
    r := Suffixed(hint, i);
  }

  /** `uniq`: bind `v` locally under a fresh name. */
  function Uniq(c: seq<Level>, hint: string, v: Handle): (r: (seq<Level>, string))
    requires |c| > 0
    ensures !Contains(c, r.1)
    ensures Get(r.0, r.1) == Ok(v)
    ensures forall n :: Contains(c, n) ==> Get(r.0, n) == Get(c, n)
    ensures r.1 == FreshName(c, hint)
    ensures |r.0| == |c| && r.0[1..] == c[1..]
    ensures forall n :: n != r.1 ==> Get(r.0, n) == Get(c, n)
  {
    var name := FreshName(c, hint);
    (SetLocal(c, name, v), name)
  }

  /** `store`: a direct definition, refused when the innermost level already
      binds the name (a binding in an outer level is shadowed). */
  function Store(c: seq<Level>, name: string, v: Handle): (r: Result<seq<Level>>)
    requires |c| > 0
    ensures r.Err? <==> name in c[0].fwd
    ensures r.Err? ==> r.error == DuplicateDefinition(name)
    ensures r.Ok? ==> r.value == SetLocal(c, name, v)
  {
    if name in c[0].fwd then Err(DuplicateDefinition(name)) else Ok(SetLocal(c, name, v))
  }

  /** After a successful store the name reads back as the stored value and
      the value reads back as the name, whether or not an outer level bound
      the same name before. */
  lemma StoreThenLookup(c: seq<Level>, name: string, v: Handle)
    requires |c| > 0 && name !in c[0].fwd
    ensures Store(c, name, v).Ok?
    ensures Get(Store(c, name, v).value, name) == Ok(v)
    ensures ForValue(Store(c, name, v).value, v, true) == Ok(name)
    ensures Store(c, name, v).value[1..] == c[1..]
  {
  }

  // ---------------------------------------------------------------------
  // transform_scope

  /** `del scope[name]`: the name leaves the order and the forward map; the
      inverse table is not touched. */
  function Without(s: seq<string>, x: string): (r: seq<string>)
    ensures forall y :: y in r <==> y in s && y != x
    ensures NoDup(s) ==> NoDup(r)
  {
    if |s| == 0 then []
    else
      var rest := Without(s[1..], x);
      if s[0] == x then rest
      else
        assert NoDup(s) ==> s[0] !in s[1..];
        [s[0]] + rest
  }

  function Delete(l: Level, name: string): (r: Level)
    ensures Wf(l) ==> Wf(r)
    ensures r.fwd == l.fwd - {name} && r.inv == l.inv
  {
    Level(Without(l.order, name), l.fwd - {name}, l.inv)
  }

  /** What the rewrite callback returns for one entry: `None` deletes it,
      `Some((k, v))` binds `v` under `k`. */
  type Rewrite = (string, Handle) -> Option<(string, Handle)>

  /** The callback's answer for entry `j` differs from the entry itself. */
  predicate Moved(l: Level, f: Rewrite, j: int)
    requires Wf(l) && 0 <= j < |l.order|
  {
    var k := l.order[j];
    f(k, l.fwd[k]) != Some((k, l.fwd[k]))
  }

  /** The callback never renames: it keeps or drops every entry. */
  predicate KeepsNames(l: Level, f: Rewrite) {
    forall n :: n in l.fwd && f(n, l.fwd[n]).Some? ==> f(n, l.fwd[n]).value.0 == n
  }

  /** The names the callback keeps, in their original order. */
  function Kept(names: seq<string>, l: Level, f: Rewrite): (r: seq<string>)
    requires forall n :: n in names ==> n in l.fwd
    ensures forall n :: n in r <==> n in names && f(n, l.fwd[n]).Some?
  {
    if |names| == 0 then []
    else
      var n := names[|names| - 1];
      Kept(names[..|names| - 1], l, f) + (if f(n, l.fwd[n]).Some? then [n] else [])
  }

  /** One entry of `transform_scope`: rebind what the callback answered, or
      delete the entry's own name when it answered `None`. */
  function StepEntry(r: Level, k: string, answer: Option<(string, Handle)>): Level {
    if answer.Some? then Set(r, answer.value.0, answer.value.1) else Delete(r, k)
  }

  /** The level after the first `i` entries of the snapshot were processed. */
  function Replay(l: Level, f: Rewrite, i: nat): Level
    requires Wf(l) && i <= |l.order|
  {
    if i == 0 then l
    else
      var k := l.order[i - 1];
      StepEntry(Replay(l, f, i - 1), k, f(k, l.fwd[k]))
  }

  lemma {:induction false} ReplayWf(l: Level, f: Rewrite, i: nat)
    requires Wf(l) && i <= |l.order|
    ensures Wf(Replay(l, f, i))
    ensures forall j :: i <= j < |l.order| ==> l.order[j] in Replay(l, f, i).fwd
  {
    if i > 0 {
      ReplayWf(l, f, i - 1);
    }
  }

  lemma SplitAt(s: seq<string>, i: nat)
    requires NoDup(s) && 0 < i <= |s|
    ensures s[..i] == s[..i - 1] + [s[i - 1]]
    ensures s[i - 1..] == [s[i - 1]] + s[i..]
    ensures s[i - 1] !in s[..i - 1] && s[i - 1] !in s[i..]
  {
    assert forall j :: 0 <= j < |s| && j != i - 1 ==> s[j] != s[i - 1];
  }

  /** With a callback that never renames, replaying `i` entries keeps the
      order of the kept names among them, followed by the untouched rest. */
  lemma {:induction false} ReplayOrder(l: Level, f: Rewrite, i: nat)
    requires Wf(l) && i <= |l.order| && KeepsNames(l, f)
    ensures Replay(l, f, i).order == Kept(l.order[..i], l, f) + l.order[i..]
  {
    if i == 0 {
      assert l.order[..0] == [] && l.order[0..] == l.order;
    } else {
      ReplayOrder(l, f, i - 1);
      ReplayWf(l, f, i - 1);
      var k := l.order[i - 1];
      SplitAt(l.order, i);
      assert l.order[..i][..i - 1] == l.order[..i - 1];
      var kept := Kept(l.order[..i - 1], l, f);
      StepOrder(Replay(l, f, i - 1), k, f(k, l.fwd[k]), kept, l.order[i..]);
    }
  }

  /** One step of the replay: the entry in front of the untouched rest is
      kept in place or dropped. */
  lemma StepOrder(prev: Level, k: string, answer: Option<(string, Handle)>, kept: seq<string>, rest: seq<string>)
    requires prev.order == kept + ([k] + rest) && k in prev.fwd && k !in kept && k !in rest
    requires answer.Some? ==> answer.value.0 == k
    ensures StepEntry(prev, k, answer).order == kept + (if answer.Some? then [k] else []) + rest
  {
    if answer.None? {
      assert kept + ([k] + rest) == kept + [k] + rest;
      WithoutHead(kept, k, rest);
      assert kept + [] == kept;
    } else {
      assert kept + ([k] + rest) == kept + [k] + rest;
    }
  }

  /** ... binds exactly the untouched names and the kept ones ... */
  lemma {:induction false} ReplayDomain(l: Level, f: Rewrite, i: nat)
    requires Wf(l) && i <= |l.order| && KeepsNames(l, f)
    ensures forall n :: n in Replay(l, f, i).fwd <==>
      (n in l.order[i..] || (n in l.order[..i] && f(n, l.fwd[n]).Some?))
  {
    if i == 0 {
      assert l.order[0..] == l.order;
    } else {
      ReplayDomain(l, f, i - 1);
      SplitAt(l.order, i);
      var k := l.order[i - 1];
      StepFwd(Replay(l, f, i - 1), k, f(k, l.fwd[k]));
      assert forall n :: n in l.order[..i] <==> n in l.order[..i - 1] || n == k;
      assert forall n :: n in l.order[i - 1..] <==> n in l.order[i..] || n == k;
    }
  }

  /** ... and gives each kept name the value the callback answered. */
  lemma {:induction false} ReplayValues(l: Level, f: Rewrite, i: nat)
    requires Wf(l) && i <= |l.order| && KeepsNames(l, f)
    ensures forall n :: n in l.order[i..] ==> n in Replay(l, f, i).fwd && Replay(l, f, i).fwd[n] == l.fwd[n]
    ensures forall n :: n in l.order[..i] && f(n, l.fwd[n]).Some? ==>
      n in Replay(l, f, i).fwd && Replay(l, f, i).fwd[n] == f(n, l.fwd[n]).value.1
  {
    if i == 0 {
      assert l.order[0..] == l.order;
    } else {
      ReplayValues(l, f, i - 1);
      SplitAt(l.order, i);
      var k := l.order[i - 1];
      StepFwd(Replay(l, f, i - 1), k, f(k, l.fwd[k]));
    }
  }

  /** One step of the replay touches the entry's own name only. */
  lemma StepFwd(prev: Level, k: string, answer: Option<(string, Handle)>)
    requires answer.Some? ==> answer.value.0 == k
    ensures var r := StepEntry(prev, k, answer);
      && (forall n :: n != k ==> (n in r.fwd <==> n in prev.fwd))
      && (forall n :: n != k && n in prev.fwd ==> r.fwd[n] == prev.fwd[n])
      && (answer.Some? ==> k in r.fwd && r.fwd[k] == answer.value.1)
      && (answer.None? ==> k !in r.fwd)
  {
  }

  /** Entry `j` of the snapshot writes or deletes `n`: its answer binds
      something under `n`, or it is `n`'s own entry and was answered `None`. */
  predicate Touches(l: Level, f: Rewrite, j: int, n: string)
    requires Wf(l) && 0 <= j < |l.order|
  {
    var k := l.order[j];
    var a := f(k, l.fwd[k]);
    (a.Some? && a.value.0 == n) || (a.None? && k == n)
  }

  /** None of the first `i` entries writes or deletes `n`. */
  predicate NeverTouched(l: Level, f: Rewrite, i: nat, n: string)
    requires Wf(l) && i <= |l.order|
  {
    forall j :: 0 <= j < i ==> !Touches(l, f, j, n)
  }

  /** Among the first `i` entries, `j` is the last that writes or deletes `n`. */
  predicate LastTouch(l: Level, f: Rewrite, j: int, n: string, i: nat)
    requires Wf(l) && i <= |l.order|
  {
    0 <= j < i && Touches(l, f, j, n) && forall j' :: j < j' < i ==> !Touches(l, f, j', n)
  }

  /** The bindings after one more entry: its answer's binding written, or
      its own name deleted. */
  lemma ReplayStepFwd(l: Level, f: Rewrite, i: nat)
    requires Wf(l) && 0 < i <= |l.order|
    ensures var k := l.order[i - 1];
      var a := f(k, l.fwd[k]);
      Replay(l, f, i).fwd == if a.Some? then Replay(l, f, i - 1).fwd[a.value.0 := a.value.1]
                             else Replay(l, f, i - 1).fwd - {k}
  {
  }

  /** For any callback, renaming or not, a name none of the first `i`
      entries wrote or deleted keeps its binding. In particular a renamed
      entry's old key stays bound, since the source never deletes it. */
  lemma {:induction false} ReplayKeeps(l: Level, f: Rewrite, i: nat, n: string)
    requires Wf(l) && i <= |l.order| && NeverTouched(l, f, i, n)
    ensures var r := Replay(l, f, i);
      (n in r.fwd <==> n in l.fwd) && (n in l.fwd ==> r.fwd[n] == l.fwd[n])
  {
    if i > 0 {
      assert !Touches(l, f, i - 1, n);
      assert NeverTouched(l, f, i - 1, n);
      ReplayKeeps(l, f, i - 1, n);
      ReplayStepFwd(l, f, i);
    }
  }

  /** For any callback, the binding of a name after `i` entries is the one
      the last entry that wrote or deleted it left. */
  lemma {:induction false} ReplayLast(l: Level, f: Rewrite, j: int, n: string, i: nat)
    requires Wf(l) && i <= |l.order| && LastTouch(l, f, j, n, i)
    ensures var r := Replay(l, f, i);
      var a := f(l.order[j], l.fwd[l.order[j]]);
      (a.Some? ==> n in r.fwd && r.fwd[n] == a.value.1) && (a.None? ==> n !in r.fwd)
  {
    ReplayStepFwd(l, f, i);
    if j < i - 1 {
      assert !Touches(l, f, i - 1, n);
      assert LastTouch(l, f, j, n, i - 1);
      ReplayLast(l, f, j, n, i - 1);
    }
  }

  /** `ReplayKeeps` and `ReplayLast` for the whole snapshot. */
  lemma ReplayBindings(l: Level, f: Rewrite)
    requires Wf(l)
    ensures var r := Replay(l, f, |l.order|);
      forall n :: NeverTouched(l, f, |l.order|, n) ==>
        (n in r.fwd <==> n in l.fwd) && (n in l.fwd ==> r.fwd[n] == l.fwd[n])
    ensures var r := Replay(l, f, |l.order|);
      forall j, n :: LastTouch(l, f, j, n, |l.order|) ==>
        var a := f(l.order[j], l.fwd[l.order[j]]);
        (a.Some? ==> n in r.fwd && r.fwd[n] == a.value.1) && (a.None? ==> n !in r.fwd)
  {
    var r := Replay(l, f, |l.order|);
    forall n | NeverTouched(l, f, |l.order|, n)
      ensures (n in r.fwd <==> n in l.fwd) && (n in l.fwd ==> r.fwd[n] == l.fwd[n])
    {
      ReplayKeeps(l, f, |l.order|, n);
    }
    forall j, n | LastTouch(l, f, j, n, |l.order|)
      ensures var a := f(l.order[j], l.fwd[l.order[j]]);
        (a.Some? ==> n in r.fwd && r.fwd[n] == a.value.1) && (a.None? ==> n !in r.fwd)
    {
      ReplayLast(l, f, j, n, |l.order|);
    }
  }

  /** Some answer among the first `i` differed from its entry. */
  predicate AnyMoved(l: Level, f: Rewrite, i: nat)
    requires Wf(l) && i <= |l.order|
  {
    i > 0 && (AnyMoved(l, f, i - 1) || Moved(l, f, i - 1))
  }

  lemma {:induction false} AnyMovedExists(l: Level, f: Rewrite, i: nat)
    requires Wf(l) && i <= |l.order|
    ensures AnyMoved(l, f, i) <==> exists j :: 0 <= j < i && Moved(l, f, j)
  {
    if i > 0 {
      AnyMovedExists(l, f, i - 1);
    }
  }

  /** `transform_scope`: feed every entry of a snapshot of the level through
      `f`, rebind or delete it, and report whether any answer differed from
      its entry. For any `f`, each name ends up as the last entry that wrote
      or deleted it left it, and a name no entry touched keeps its binding.
      When `f` never renames, the result is the level with the dropped names
      removed and the kept ones rebound, order preserved. */
  method TransformScope(l: Level, f: Rewrite) returns (r: Level, changed: bool)
    requires Wf(l)
    ensures Wf(r)
    ensures changed <==> exists j :: 0 <= j < |l.order| && Moved(l, f, j)
    ensures KeepsNames(l, f) ==> r.order == Kept(l.order, l, f)
    ensures KeepsNames(l, f) ==> forall n :: n in r.fwd <==> n in l.fwd && f(n, l.fwd[n]).Some?
    ensures KeepsNames(l, f) ==> forall n :: n in r.fwd ==> r.fwd[n] == f(n, l.fwd[n]).value.1
    ensures forall n :: NeverTouched(l, f, |l.order|, n) ==>
      (n in r.fwd <==> n in l.fwd) && (n in l.fwd ==> r.fwd[n] == l.fwd[n])
    ensures forall j, n :: LastTouch(l, f, j, n, |l.order|) ==>
      var a := f(l.order[j], l.fwd[l.order[j]]);
      (a.Some? ==> n in r.fwd && r.fwd[n] == a.value.1) && (a.None? ==> n !in r.fwd)
  {
    r := l;
    changed := false;
    var i := 0;
    while i < |l.order|
      invariant 0 <= i <= |l.order|
      invariant r == Replay(l, f, i)
      invariant changed == AnyMoved(l, f, i)
    {
      var k := l.order[i];
      var answer := f(k, l.fwd[k]);
      changed := changed || answer != Some((k, l.fwd[k]));
      r := StepEntry(r, k, answer);
      i := i + 1;
    }
    ReplayOutcome(l, f);
    ReplayBindings(l, f);
  }

  /** What the finished replay amounts to. */
  lemma ReplayOutcome(l: Level, f: Rewrite)
    requires Wf(l)
    ensures var r := Replay(l, f, |l.order|);
      && Wf(r)
      && (AnyMoved(l, f, |l.order|) <==> exists j :: 0 <= j < |l.order| && Moved(l, f, j))
      && (KeepsNames(l, f) ==> r.order == Kept(l.order, l, f))
      && (KeepsNames(l, f) ==> forall n :: n in r.fwd <==> n in l.fwd && f(n, l.fwd[n]).Some?)
      && (KeepsNames(l, f) ==> forall n :: n in r.fwd ==> r.fwd[n] == f(n, l.fwd[n]).value.1)
  {
    ReplayWf(l, f, |l.order|);
    AnyMovedExists(l, f, |l.order|);
    if KeepsNames(l, f) {
      ReplayComplete(l, f);
    }
  }

  /** Replaying the whole snapshot with a callback that never renames. */
  lemma ReplayComplete(l: Level, f: Rewrite)
    requires Wf(l) && KeepsNames(l, f)
    ensures Replay(l, f, |l.order|).order == Kept(l.order, l, f)
    ensures forall n :: n in Replay(l, f, |l.order|).fwd <==> n in l.fwd && f(n, l.fwd[n]).Some?
    ensures forall n :: n in Replay(l, f, |l.order|).fwd ==>
      Replay(l, f, |l.order|).fwd[n] == f(n, l.fwd[n]).value.1
  {
    var i := |l.order|;
    ReplayOrder(l, f, i);
    ReplayDomain(l, f, i);
    ReplayValues(l, f, i);
    assert l.order[..i] == l.order;
    assert l.order[i..] == [];
  }

  /** Deleting the name that sits between a prefix and a suffix it does not
      occur in leaves prefix and suffix joined. */
  lemma {:induction false} WithoutHead(pre: seq<string>, x: string, post: seq<string>)
    requires x !in pre && x !in post
    ensures Without(pre + [x] + post, x) == pre + post
  {
    if |pre| == 0 {
      assert [x] + post == [x] + post;
      assert ([x] + post)[1..] == post;
      WithoutAbsent(post, x);
    } else {
      assert (pre + [x] + post)[1..] == pre[1..] + [x] + post;
      WithoutHead(pre[1..], x, post);
      assert pre == [pre[0]] + pre[1..];
    }
  }

  lemma {:induction false} WithoutAbsent(s: seq<string>, x: string)
    requires x !in s
    ensures Without(s, x) == s
  {
    if |s| > 0 {
      WithoutAbsent(s[1..], x);
      assert s == [s[0]] + s[1..];
    }
  }
}
