/** Every protocol step keeps the invariant and moves no lamports in or out. */
module Preservation {
  import opened Types
  import opened State
  import opened Spec
  import opened Sums
  import opened Invariant
  import opened Actions
  import opened Exactness

  ghost predicate Keeps(env: Env, l: Ledger, r: Ledger) {
    Inv(env, r) && Total(env, Lamports, r) == Total(env, Lamports, l)
  }

  /** No account names a key that is not an initialized mint, so such a key has no holders. */
  lemma NoHolders(env: Env, l: Ledger, m: Pubkey)
    requires Inv(env, l) && !MintAt(env, l, m) && m != env.nativeMint
    ensures Total(env, Holding(m), l) == 0
  {
    forall k | k in l ensures Weight(env, Holding(m), l[k]) == 0 {
      if Owned(env, l, k) {
        assert CellOk(env, l, l[k]);
      }
    }
    TotalZero(env, Holding(m), l);
  }

  /** Cells that were fine stay fine while no mint disappears. */
  lemma OthersStayOk(env: Env, l: Ledger, r: Ledger, k: Pubkey)
    requires CellsOk(env, l) && Owned(env, l, k) && k in r && r[k] == l[k]
    requires forall m | MintAt(env, l, m) :: MintAt(env, r, m)
    ensures CellOk(env, r, r[k])
  {
    assert CellOk(env, l, l[k]);
  }

  /** Rewriting one record, without touching balances, supplies or lamports. */
  lemma RewriteKeeps(env: Env, l: Ledger, k: Pubkey, data: Data)
    requires Inv(env, l) && Owned(env, l, k)
    requires var r := WithData(l, k, data);
      && CellOk(env, r, r[k])
      && (MintAt(env, l, k) ==> MintAt(env, r, k) && MintOf(r, k).supply == MintOf(l, k).supply)
      && (MintAt(env, r, k) && !MintAt(env, l, k) ==> MintOf(r, k).supply == 0)
      && (forall m: Pubkey | m != env.nativeMint :: Weight(env, Holding(m), r[k]) == Weight(env, Holding(m), l[k]))
    ensures Keeps(env, l, WithData(l, k, data))
  {
    var r := WithData(l, k, data);
    TotalsUpdate(env, l, k, r[k]);
    assert forall m | MintAt(env, l, m) :: MintAt(env, r, m);
    forall j | Owned(env, r, j) ensures CellOk(env, r, r[j]) {
      if j != k {
        OthersStayOk(env, l, r, j);
      }
    }
    forall m | MintAt(env, r, m) && m != env.nativeMint
      ensures MintOf(r, m).supply == Total(env, Holding(m), r)
    {
      if !MintAt(env, l, m) {
        NoHolders(env, l, m);
      }
    }
  }

  /** Two cells change together: lamports balance, and each supply moves with its holders. */
  lemma ExchangeKeeps(env: Env, l: Ledger, j: Pubkey, c: Cell, k: Pubkey, e: Cell)
    requires Inv(env, l) && j in l && k in l && j != k
    requires c.lamports + e.lamports == l[j].lamports + l[k].lamports
    requires var r := l[j := c][k := e];
      && (Owned(env, r, j) ==> CellOk(env, r, c)) && (Owned(env, r, k) ==> CellOk(env, r, e))
      && (forall m :: MintAt(env, l, m) <==> MintAt(env, r, m))
      && (forall m | MintAt(env, l, m) && m != env.nativeMint ::
            MintOf(r, m).supply - MintOf(l, m).supply ==
            Weight(env, Holding(m), c) - Weight(env, Holding(m), l[j]) +
            Weight(env, Holding(m), e) - Weight(env, Holding(m), l[k]))
    ensures Keeps(env, l, l[j := c][k := e])
  {
    var r := l[j := c][k := e];
    TotalsUpdate(env, l, j, c);
    TotalsUpdate(env, l[j := c], k, e);
    forall i | Owned(env, r, i) ensures CellOk(env, r, r[i]) {
      if i != j && i != k {
        OthersStayOk(env, l, r, i);
      }
    }
  }

  lemma MoveKeeps(env: Env, l: Ledger, s: Pubkey, d: Pubkey, byDelegate: bool, amount: u64)
    requires Inv(env, l) && Unfrozen(env, l, s) && Unfrozen(env, l, d) && amount <= TokenOf(l, s).amount
    requires TokenOf(l, s).mint == TokenOf(l, d).mint && (byDelegate ==> amount <= TokenOf(l, s).delegatedAmount)
    ensures Keeps(env, l, Moved(l, s, d, byDelegate, amount))
  {
    if s != d {
      MoveFits(env, l, s, d, amount);
      var r := Moved(l, s, d, byDelegate, amount);
      assert CellOk(env, l, l[s]) && CellOk(env, l, l[d]);
      assert r == l[s := r[s]][d := r[d]];
      ExchangeKeeps(env, l, s, r[s], d, r[d]);
    }
  }

  lemma IssueKeeps(env: Env, l: Ledger, mint: Pubkey, d: Pubkey, amount: u64)
    requires Inv(env, l) && MintAt(env, l, mint) && Unfrozen(env, l, d) && TokenOf(l, d).mint == mint
    requires !TokenOf(l, d).IsNative() && MintOf(l, mint).supply + amount < U64_LIMIT
    ensures Keeps(env, l, Issued(l, mint, d, amount))
  {
    HeldInSupply(env, l, d);
    var r := Issued(l, mint, d, amount);
    assert CellOk(env, l, l[mint]) && CellOk(env, l, l[d]);
    assert r == l[d := r[d]][mint := r[mint]];
    ExchangeKeeps(env, l, d, r[d], mint, r[mint]);
  }

  lemma DestroyKeeps(env: Env, l: Ledger, s: Pubkey, mint: Pubkey, byDelegate: bool, amount: u64)
    requires Inv(env, l) && MintAt(env, l, mint) && Unfrozen(env, l, s) && TokenOf(l, s).mint == mint
    requires !TokenOf(l, s).IsNative() && amount <= TokenOf(l, s).amount
    requires byDelegate ==> amount <= TokenOf(l, s).delegatedAmount
    ensures Keeps(env, l, Destroyed(l, s, mint, byDelegate, amount))
  {
    HeldInSupply(env, l, s);
    var r := Destroyed(l, s, mint, byDelegate, amount);
    assert CellOk(env, l, l[mint]) && CellOk(env, l, l[s]);
    assert r == l[s := r[s]][mint := r[mint]];
    ExchangeKeeps(env, l, s, r[s], mint, r[mint]);
  }

  lemma CloseKeeps(env: Env, l: Ledger, s: Pubkey, d: Pubkey)
    requires Inv(env, l) && TokenAt(env, l, s) && d in l && s != d
    requires TokenOf(l, s).IsNative() || TokenOf(l, s).amount == 0
    ensures Keeps(env, l, Closed(env, l, s, d))
  {
    LamportsAddFit(env, l, s, d);
    var r := Closed(env, l, s, d);
    assert CellOk(env, l, l[s]);
    if Owned(env, l, d) {
      assert CellOk(env, l, l[d]);
    }
    assert r == l[d := r[d]][s := r[s]];
    ExchangeKeeps(env, l, d, r[d], s, r[s]);
  }

  /** Every granted action keeps the invariant and the sum of lamports. */
  lemma StepKeeps(env: Env, l: Ledger, act: Action)
    requires Inv(env, l) && Enabled(env, l, act)
    ensures Keeps(env, l, Effect(env, l, act))
  {
    match act
    case Move(s, d, auth, _, amount, _) => MoveKeeps(env, l, s, d, ByDelegate(TokenOf(l, s), auth), amount);
    case Issue(mint, d, _, _, amount, _) => IssueKeeps(env, l, mint, d, amount);
    case Destroy(s, mint, auth, _, amount, _) =>
      DestroyKeeps(env, l, s, mint, DestroysByDelegate(env, TokenOf(l, s), auth), amount);
    case Close(s, d, _, _) => CloseKeeps(env, l, s, d);
    case InitMint(_, _, _, _) => RewriteStepKeeps(env, l, act);
    case InitAccount(_, _, _) => RewriteStepKeeps(env, l, act);
    case InitMultisig(_, _, _) => RewriteStepKeeps(env, l, act);
    case SetDelegate(_, _, _, _, _) => RewriteStepKeeps(env, l, act);
    case SetOwner(_, _, _, _) => RewriteStepKeeps(env, l, act);
    case SetCloser(_, _, _, _) => RewriteStepKeeps(env, l, act);
    case SetMinter(_, _, _, _) => RewriteStepKeeps(env, l, act);
    case SetFreezer(_, _, _, _) => RewriteStepKeeps(env, l, act);
    case SetFrozen(_, _, _, _, _) => RewriteStepKeeps(env, l, act);
    case Sync(_) => RewriteStepKeeps(env, l, act);
    case _ =>
  }

  lemma RewriteStepKeeps(env: Env, l: Ledger, act: Action)
    requires Inv(env, l) && Enabled(env, l, act) && Rewritten(act).Some?
    ensures Keeps(env, l, Effect(env, l, act))
  {
    var k := Rewritten(act).value;
    assert CellOk(env, l, l[k]);
    RewriteKeeps(env, l, k, Effect(env, l, act)[k].data);
  }
}
