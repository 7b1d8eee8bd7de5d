/** Sums over all cells of a ledger: lamports, and the tokens held of a mint. */
module Sums {
  import opened Types
  import opened State

  /** What a sum counts in a cell. */
  datatype Measure = Lamports | Holding(mint: Pubkey)

  /** The cell's lamports, or the tokens of the mint it holds as an initialized token account of
      the program. */
  function Weight(env: Env, q: Measure, c: Cell): nat {
    match q
    case Lamports => c.lamports
    case Holding(mint) =>
      if c.owner == env.programId && c.data.AccountData?
         && c.data.account.IsInitialized() && c.data.account.mint == mint
      then c.data.account.amount else 0
  }

  ghost function Pick(l: Ledger): (k: Pubkey)
    requires |l| != 0
    ensures k in l
  {
    var k :| k in l;
    k
  }

  ghost function Total(env: Env, q: Measure, l: Ledger): nat
    decreases |l|
  {
    if |l| == 0 then 0 else
      var k := Pick(l);
      Weight(env, q, l[k]) + Total(env, q, l - {k})
  }

  lemma RemoveBoth(l: Ledger, j: Pubkey, k: Pubkey)
    ensures l - {j} - {k} == l - {k} - {j}
  {
  }

  /** Any cell may be split off first. */
  lemma {:induction false} TotalSplit(env: Env, q: Measure, l: Ledger, k: Pubkey)
    requires k in l
    ensures Total(env, q, l) == Weight(env, q, l[k]) + Total(env, q, l - {k})
    decreases |l|
  {
    var j := Pick(l);
    if j != k {
      TotalSplit(env, q, l - {j}, k);
      TotalSplit(env, q, l - {k}, j);
      RemoveBoth(l, j, k);
    }
  }

  lemma TotalUpdate(env: Env, q: Measure, l: Ledger, k: Pubkey, c: Cell)
    requires k in l
    ensures Total(env, q, l[k := c]) == Total(env, q, l) - Weight(env, q, l[k]) + Weight(env, q, c)
  {
    TotalSplit(env, q, l, k);
    TotalSplit(env, q, l[k := c], k);
    assert l[k := c] - {k} == l - {k};
  }

  /** One update, for every measure at once. */
  lemma TotalsUpdate(env: Env, l: Ledger, k: Pubkey, c: Cell)
    requires k in l
    ensures forall q: Measure :: Total(env, q, l[k := c]) == Total(env, q, l) - Weight(env, q, l[k]) + Weight(env, q, c)
  {
    forall q: Measure
      ensures Total(env, q, l[k := c]) == Total(env, q, l) - Weight(env, q, l[k]) + Weight(env, q, c)
    {
      TotalUpdate(env, q, l, k, c);
    }
  }

  lemma WeightBound(env: Env, q: Measure, l: Ledger, k: Pubkey)
    requires k in l
    ensures Weight(env, q, l[k]) <= Total(env, q, l)
  {
    TotalSplit(env, q, l, k);
  }

  lemma WeightsBound(env: Env, q: Measure, l: Ledger, j: Pubkey, k: Pubkey)
    requires j in l && k in l && j != k
    ensures Weight(env, q, l[j]) + Weight(env, q, l[k]) <= Total(env, q, l)
  {
    TotalSplit(env, q, l, j);
    TotalSplit(env, q, l - {j}, k);
  }

  /** Ledgers that agree in every weight, new keys weighing nothing, have the same total. */
  lemma {:induction false} TotalAgree(env: Env, q: Measure, l: Ledger, r: Ledger)
    requires l.Keys <= r.Keys
    requires forall k | k in r :: Weight(env, q, r[k]) == if k in l then Weight(env, q, l[k]) else 0
    ensures Total(env, q, l) == Total(env, q, r)
    decreases |r|
  {
    if |r| != 0 {
      var k :| k in r;
      TotalSplit(env, q, r, k);
      if k in l {
        TotalSplit(env, q, l, k);
        TotalAgree(env, q, l - {k}, r - {k});
      } else {
        TotalAgree(env, q, l, r - {k});
      }
    } else {
      assert l == map[];
    }
  }

  lemma {:induction false} TotalZero(env: Env, q: Measure, l: Ledger)
    requires forall k | k in l :: Weight(env, q, l[k]) == 0
    ensures Total(env, q, l) == 0
    decreases |l|
  {
    if |l| != 0 {
      var k :| k in l;
      TotalSplit(env, q, l, k);
      TotalZero(env, q, l - {k});
    }
  }
}
