/** The write-out scratch-variable pool (cmd_ir/core.py, `TemporaryVarGen`):
    a free list of scratch cells, the set of cells currently checked out, and
    a counter that names new cells `temp_0`, `temp_1`, ... Minting a cell also
    declares it to the backend writer, recorded here as `objectives`. */
module TempVars {
  import opened Common
  import Decimal
  import Scopes

  function TempName(n: nat): string {
    "temp_" + Decimal.Show(n)
  }

  datatype TempGen = TempGen(temps: seq<string>, inUse: set<string>, counter: nat, objectives: seq<string>)

  const Initial: TempGen := TempGen([], {}, 0, [])

  /** The names of the first `n` cells ever minted. */
  function Minted(n: nat): set<string> {
    set j | 0 <= j < n :: TempName(j)
  }

  /** Every minted cell is either free (once) or checked out, never both, and
      the writer was told about each minted cell in minting order. */
  ghost predicate Inv(g: TempGen) {
    && Scopes.NoDup(g.temps)
    && (forall t :: t in g.temps ==> t !in g.inUse)
    && (set t | t in g.temps) + g.inUse == Minted(g.counter)
    && |g.objectives| == g.counter
    && (forall j :: 0 <= j < g.counter ==> g.objectives[j] == TempName(j))
  }

  lemma InitialInv()
    ensures Inv(Initial)
  {
    assert Minted(0) == {};
  }

  lemma NotYetMinted(n: nat)
    ensures TempName(n) !in Minted(n)
    ensures Minted(n + 1) == Minted(n) + {TempName(n)}
  {
    if TempName(n) in Minted(n) {
      var j :| 0 <= j < n && TempName(j) == TempName(n);
      Decimal.SuffixInjective("temp_", j, n);
    }
  }

  /** `next`: reuse the most recently freed cell, or mint a new one when the
      free list is empty; either way the cell is checked out. */
  function Next(g: TempGen): (r: (TempGen, string))
    ensures r.1 in r.0.inUse && r.0.inUse == g.inUse + {r.1}
    ensures |g.temps| == 0 ==> (r.1 == TempName(g.counter) && r.0.counter == g.counter + 1
      && r.0.objectives == g.objectives + [r.1])
    ensures |g.temps| > 0 ==> (r.1 == g.temps[|g.temps| - 1] && r.0.counter == g.counter
      && r.0.temps == g.temps[..|g.temps| - 1] && r.0.objectives == g.objectives)
    ensures Inv(g) ==> Inv(r.0) && r.1 !in g.inUse
  {
    if |g.temps| == 0 then
      var tmp := TempName(g.counter);
      var g' := g.(inUse := g.inUse + {tmp}, counter := g.counter + 1, objectives := g.objectives + [tmp]);
      NotYetMinted(g.counter);
      assert Inv(g) ==> (set t | t in g'.temps) + g'.inUse == Minted(g'.counter);
      (g', tmp)
    else
      var tmp := g.temps[|g.temps| - 1];
      var rest := g.temps[..|g.temps| - 1];
      assert g.temps == rest + [tmp];
      var g' := g.(temps := rest, inUse := g.inUse + {tmp});
      assert Inv(g) ==> tmp !in rest;
      assert (set t | t in g.temps) == (set t | t in rest) + {tmp};
      (g', tmp)
  }

  /** `free`: only a checked-out cell may be returned; it goes to the end of
      the free list. */
  function Free(g: TempGen, t: string): (r: Result<TempGen>)
    ensures r.Err? <==> t !in g.inUse
    ensures r.Ok? ==> (t !in r.value.inUse && r.value.temps == g.temps + [t]
      && r.value.inUse == g.inUse - {t} && r.value.counter == g.counter
      && r.value.objectives == g.objectives)
    ensures Inv(g) && r.Ok? ==> Inv(r.value)
  {
    if t !in g.inUse then Err(TempNotInUse(t))
    else
      var g' := g.(temps := g.temps + [t], inUse := g.inUse - {t});
      assert (set u | u in g'.temps) == (set u | u in g.temps) + {t};
      Ok(g')
  }

  /** `finish`: the pool must be fully returned. */
  function Finish(g: TempGen): (r: Outcome)
    ensures r.Pass? <==> g.inUse == {}
    ensures Inv(g) ==> (r.Pass? <==> (set t | t in g.temps) == Minted(g.counter))
  {
    Need(g.inUse == {}, TempsOutstanding)
  }

  /** Checking a reused cell out and freeing it again restores the pool. */
  lemma NextFreeRestores(g: TempGen)
    requires Inv(g) && |g.temps| > 0
    ensures Free(Next(g).0, Next(g).1) == Ok(g)
  {
    var (g', tmp) := Next(g);
    assert g.temps == g.temps[..|g.temps| - 1] + [tmp];
    assert g'.inUse - {tmp} == g.inUse;
  }

  /** Two checkouts in a row never hand out the same cell. */
  lemma {:induction false} NoDoubleCheckout(g: TempGen)
    requires Inv(g)
    ensures Next(Next(g).0).1 != Next(g).1
  {
    var (g1, a) := Next(g);
    assert a in g1.inUse;
    assert Inv(g1);
  }
}
