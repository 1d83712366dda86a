/** `TopLevel.run_pragmas(known_pragmas)` (cmd_ir/core.py): the unit's
    pragmas are key/value pairs; the values given for one key are folded
    left with that pragma's `reduce`, in the order they were given, and the
    folded value of each key is then handed to the pragma's `apply`, keys in
    the order they were first seen. A key with no known pragma is fatal.

    The known pragmas are a set of keys plus the two hooks, `reduce` and
    `apply`, passed as functions; `apply` closes over the unit it is run on. */
module Pragmas {
  import opened Common
  import opened Scopes

  // ---------------------------------------------------------------------
  // Reference definitions

  /** The values given for `key`, in the order given. */
  function ValuesOf(ps: seq<(string, string)>, key: string): (r: seq<string>)
    ensures |r| <= |ps|
    ensures |r| > 0 <==> exists i :: 0 <= i < |ps| && ps[i].0 == key
  {
    if |ps| == 0 then []
    else
      var last := ps[|ps| - 1];
      var before := ValuesOf(ps[..|ps| - 1], key);
      assert forall i :: 0 <= i < |ps| - 1 ==> ps[..|ps| - 1][i] == ps[i];
      if last.0 == key then before + [last.1] else before
  }

  /** Every key given, once, in the order first given. */
  function KeysOf(ps: seq<(string, string)>): (r: seq<string>)
    ensures NoDup(r)
    ensures forall k :: k in r <==> exists i :: 0 <= i < |ps| && ps[i].0 == k
  {
    if |ps| == 0 then []
    else
      var ks := KeysOf(ps[..|ps| - 1]);
      var k := ps[|ps| - 1].0;
      assert forall i :: 0 <= i < |ps| - 1 ==> ps[..|ps| - 1][i] == ps[i];
      if k in ks then ks else ks + [k]
  }

  /** The values given for one key folded left with its `reduce`: the first
      value as it is, then each later one combined into the result so far. */
  function Folded(key: string, vs: seq<string>, reduce: (string, string, string) -> string): string
    requires |vs| > 0
  {
    if |vs| == 1 then vs[0]
    else reduce(key, Folded(key, vs[..|vs| - 1], reduce), vs[|vs| - 1])
  }

  /** The first pair whose key has no known pragma, when there is one. */
  predicate FirstUnknown(ps: seq<(string, string)>, known: set<string>, i: int) {
    && 0 <= i < |ps| && ps[i].0 !in known
    && forall j :: 0 <= j < i ==> ps[j].0 in known
  }

  // ---------------------------------------------------------------------
  // run_pragmas

  /** `run_pragmas`: the `apply` results, one per key, keys in first-seen
      order; or the failure of the first unknown key's assertion. */
  method RunPragmas<R>(ps: seq<(string, string)>, known: set<string>,
                       reduce: (string, string, string) -> string, apply: (string, string) -> R)
    returns (r: Result<seq<(string, R)>>)
    ensures r.Err? <==> exists i :: 0 <= i < |ps| && ps[i].0 !in known
    ensures r.Err? ==> exists i :: FirstUnknown(ps, known, i) && r.error == UnknownPragma(ps[i].0)
    ensures r.Ok? ==> |r.value| == |KeysOf(ps)|
    ensures r.Ok? ==> forall i :: 0 <= i < |r.value| ==>
      var k := KeysOf(ps)[i];
      |ValuesOf(ps, k)| > 0 && r.value[i] == (k, apply(k, Folded(k, ValuesOf(ps, k), reduce)))
  {
    var order: seq<string> := [];
    var final: map<string, string> := map[];
    var i := 0;
    while i < |ps|
      invariant ReducedUpTo(ps, i, known, reduce, order, final)
    {
      var (key, val) := ps[i];
      if key !in known {
        assert FirstUnknown(ps, known, i);
        return Err(UnknownPragma(key));
      }
      var order0, final0 := order, final;
      if key in final {
        final := final[key := reduce(key, final[key], val)];
      } else {
        final := final[key := val];
        order := order + [key];
      }
      ReducedStep(ps, i, known, reduce, order0, final0);
      i := i + 1;
    }
    assert ps[..i] == ps;
    var results: seq<(string, R)> := [];
    while |results| < |order|
      invariant |results| <= |order|
      invariant forall j :: 0 <= j < |results| ==> results[j] == (order[j], apply(order[j], final[order[j]]))
    {
      var k := order[|results|];
      results := results + [(k, apply(k, final[k]))];
    }
    return Ok(results);
  }

  /** The state of `run_pragmas`'s first loop after the first `i` pairs:
      all their keys are known, `final` holds the keys in first-seen order,
      and each key's values folded so far. */
  ghost predicate ReducedUpTo(ps: seq<(string, string)>, i: int, known: set<string>,
                              reduce: (string, string, string) -> string, order: seq<string>, final: map<string, string>)
  {
    && 0 <= i <= |ps|
    && (forall j :: 0 <= j < i ==> ps[j].0 in known)
    && order == KeysOf(ps[..i])
    && (forall k :: k in final <==> k in order)
    && (forall k :: k in final ==> |ValuesOf(ps[..i], k)| > 0 && final[k] == Folded(k, ValuesOf(ps[..i], k), reduce))
  }

  /** One turn of the first loop keeps its state. */
  lemma ReducedStep(ps: seq<(string, string)>, i: int, known: set<string>,
                    reduce: (string, string, string) -> string, order: seq<string>, final: map<string, string>)
    requires ReducedUpTo(ps, i, known, reduce, order, final) && i < |ps| && ps[i].0 in known
    ensures var key, val := ps[i].0, ps[i].1;
      if key in final then ReducedUpTo(ps, i + 1, known, reduce, order, final[key := reduce(key, final[key], val)])
      else ReducedUpTo(ps, i + 1, known, reduce, order + [key], final[key := val])
  {
    var key, val := ps[i].0, ps[i].1;
    FoldedStep(ps, i, reduce);
    var order' := if key in final then order else order + [key];
    var final' := if key in final then final[key := reduce(key, final[key], val)] else final[key := val];
    forall k | k in final'
      ensures |ValuesOf(ps[..i + 1], k)| > 0 && final'[k] == Folded(k, ValuesOf(ps[..i + 1], k), reduce)
    {
      if k == key && key !in final {
        assert |ValuesOf(ps[..i], key)| == 0;
      }
    }
    assert ReducedUpTo(ps, i + 1, known, reduce, order', final');
  }

  /** One more pair extends the fold of its own key by its value and
      leaves every other key's values alone. */
  lemma FoldedStep(ps: seq<(string, string)>, i: nat, reduce: (string, string, string) -> string)
    requires i < |ps|
    ensures ValuesOf(ps[..i + 1], ps[i].0) == ValuesOf(ps[..i], ps[i].0) + [ps[i].1]
    ensures forall k :: k != ps[i].0 ==> ValuesOf(ps[..i + 1], k) == ValuesOf(ps[..i], k)
    ensures KeysOf(ps[..i + 1]) == if ps[i].0 in KeysOf(ps[..i]) then KeysOf(ps[..i]) else KeysOf(ps[..i]) + [ps[i].0]
    ensures |ValuesOf(ps[..i], ps[i].0)| > 0 ==>
      Folded(ps[i].0, ValuesOf(ps[..i + 1], ps[i].0), reduce) == reduce(ps[i].0, Folded(ps[i].0, ValuesOf(ps[..i], ps[i].0), reduce), ps[i].1)
  {
    assert ps[..i + 1][..i] == ps[..i];
    var vs := ValuesOf(ps[..i], ps[i].0) + [ps[i].1];
    assert vs[..|vs| - 1] == ValuesOf(ps[..i], ps[i].0);
  }

  // ---------------------------------------------------------------------
  // Pragmas of a linked unit

  /** The linker concatenates the units' pragmas, so in the merged unit the
      values of a key are those of the first unit followed by those of the
      second: `reduce` runs across unit boundaries in unit order. */
  lemma {:induction false} ValuesOfAppend(a: seq<(string, string)>, b: seq<(string, string)>, key: string)
    ensures ValuesOf(a + b, key) == ValuesOf(a, key) + ValuesOf(b, key)
    decreases |b|
  {
    if |b| > 0 {
      var b' := b[..|b| - 1];
      assert (a + b)[..|a + b| - 1] == a + b';
      ValuesOfAppend(a, b', key);
    } else {
      assert a + b == a;
    }
  }

  /** ... and a key first seen in the second unit comes after every key of
      the first. */
  lemma {:induction false} KeysOfAppend(a: seq<(string, string)>, b: seq<(string, string)>)
    ensures |KeysOf(a)| <= |KeysOf(a + b)| && KeysOf(a + b)[..|KeysOf(a)|] == KeysOf(a)
    decreases |b|
  {
    if |b| > 0 {
      var b' := b[..|b| - 1];
      assert (a + b)[..|a + b| - 1] == a + b';
      KeysOfAppend(a, b');
    } else {
      assert a + b == a;
    }
  }
}
