/** What holds of every reachable ledger, and what the rest of the chain may do between the
    program's own steps. */
module Invariant {
  import opened Types
  import opened State
  import opened Sums

  predicate Owned(env: Env, l: Ledger, k: Pubkey) {
    k in l && l[k].owner == env.programId
  }

  /** An initialized token account of the program. */
  predicate TokenAt(env: Env, l: Ledger, k: Pubkey) {
    Owned(env, l, k) && l[k].data.AccountData? && l[k].data.account.IsInitialized()
  }

  /** An initialized mint of the program. */
  predicate MintAt(env: Env, l: Ledger, k: Pubkey) {
    Owned(env, l, k) && l[k].data.MintData? && l[k].data.mint.isInitialized
  }

  /** An initialized multisig of the program. */
  predicate MultisigAt(env: Env, l: Ledger, k: Pubkey) {
    Owned(env, l, k) && l[k].data.MultisigData? && l[k].data.multisig.isInitialized
  }

  function TokenOf(l: Ledger, k: Pubkey): Account
    requires k in l && l[k].data.AccountData?
  {
    l[k].data.account
  }

  function MintOf(l: Ledger, k: Pubkey): Mint
    requires k in l && l[k].data.MintData?
  {
    l[k].data.mint
  }

  /** A native account is backed by its lamports and never frozen; any other names a real mint. */
  predicate TokenOk(env: Env, l: Ledger, lamports: u64, a: Account) {
    && (a.IsNative() <==> a.mint == env.nativeMint)
    && (if a.IsNative() then
          && a.isNative.value == env.minimumBalance(ACCOUNT_LEN)
          && env.minimumBalance(ACCOUNT_LEN) + a.amount <= lamports
          && !a.IsFrozen()
        else MintAt(env, l, a.mint))
    && (a.delegate.None? ==> a.delegatedAmount == 0)
  }

  predicate MultisigOk(ms: Multisig) {
    1 <= ms.m <= 11 && 1 <= ms.n <= 11
  }

  /** An uninitialized cell is all zero; an initialized one pays rent and is well formed. */
  predicate CellOk(env: Env, l: Ledger, c: Cell) {
    if !c.data.IsInitialized() then c.data == ZeroData(c.data.Len())
    else
      && env.IsExempt(c)
      && (c.data.AccountData? ==> TokenOk(env, l, c.lamports, c.data.account))
      && (c.data.MultisigData? ==> MultisigOk(c.data.multisig))
  }

  ghost predicate CellsOk(env: Env, l: Ledger) {
    forall k | Owned(env, l, k) :: CellOk(env, l, l[k])
  }

  /** The supply of every mint is what its holders hold. The native mint is not counted: its
      accounts are backed by lamports instead. */
  ghost predicate SupplyOk(env: Env, l: Ledger) {
    forall m | MintAt(env, l, m) && m != env.nativeMint :: MintOf(l, m).supply == Total(env, Holding(m), l)
  }

  ghost predicate LamportsFit(env: Env, l: Ledger) {
    Total(env, Lamports, l) < U64_LIMIT
  }

  ghost predicate Inv(env: Env, l: Ledger) {
    env.Valid() && CellsOk(env, l) && SupplyOk(env, l) && LamportsFit(env, l)
  }

  // ---- The world around the program ----

  /** What one cell may become while the program does not run. The program's cells keep owner and
      data and lose no lamports, except that a cell without lamports may be collected. Any other
      cell may take any content, but comes to the program only with zeroed data. */
  predicate MayBecome(env: Env, l: Ledger, k: Pubkey, c: Cell) {
    if Owned(env, l, k) then
      || (c.owner == env.programId && c.data == l[k].data && l[k].lamports <= c.lamports)
      || (l[k].lamports == 0 && c.owner != env.programId)
    else c.owner == env.programId ==> c.data == ZeroData(c.data.Len())
  }

  ghost predicate WorldStep(env: Env, l: Ledger, r: Ledger) {
    && l.Keys <= r.Keys
    && (forall k | k in r :: MayBecome(env, l, k, r[k]))
    && LamportsFit(env, r)
  }

  /** Where a run may start: nothing of the program's is initialized, but for the native mint. */
  ghost predicate Genesis(env: Env, l: Ledger) {
    && env.Valid()
    && (forall k | Owned(env, l, k) && k != env.nativeMint :: l[k].data == ZeroData(l[k].data.Len()))
    && (Owned(env, l, env.nativeMint) ==>
          var c := l[env.nativeMint];
          c.data == ZeroData(c.data.Len()) || (c.data.MintData? && c.data.mint.isInitialized && env.IsExempt(c)))
    && LamportsFit(env, l)
  }

  lemma ZeroDataIsUninitialized(d: Data)
    requires d == ZeroData(d.Len())
    ensures !d.IsInitialized()
  {
  }

  lemma GenesisInv(env: Env, l: Ledger)
    requires Genesis(env, l)
    ensures Inv(env, l)
  {
    forall k | Owned(env, l, k) ensures CellOk(env, l, l[k]) {
      if l[k].data == ZeroData(l[k].data.Len()) {
        ZeroDataIsUninitialized(l[k].data);
      }
    }
    forall m | MintAt(env, l, m) ensures m == env.nativeMint {
      if l[m].data == ZeroData(l[m].data.Len()) {
        ZeroDataIsUninitialized(l[m].data);
      }
    }
  }

  /** A cell that weighs something keeps its lamports positive, so the world cannot collect it. */
  lemma InitializedIsPaid(env: Env, l: Ledger, k: Pubkey)
    requires Inv(env, l) && Owned(env, l, k) && l[k].data.IsInitialized()
    ensures env.minimumBalance(l[k].data.Len()) <= l[k].lamports && 0 < l[k].lamports
  {
    assert CellOk(env, l, l[k]);
  }

  lemma WorldKeeps(env: Env, l: Ledger, r: Ledger, k: Pubkey)
    requires Inv(env, l) && WorldStep(env, l, r) && Owned(env, l, k) && l[k].data.IsInitialized()
    ensures Owned(env, r, k) && r[k].data == l[k].data && l[k].lamports <= r[k].lamports
  {
    InitializedIsPaid(env, l, k);
    assert k in r && MayBecome(env, l, k, r[k]);
  }

  lemma WorldBrings(env: Env, l: Ledger, r: Ledger, k: Pubkey)
    requires Inv(env, l) && WorldStep(env, l, r) && Owned(env, r, k) && r[k].data.IsInitialized()
    ensures Owned(env, l, k) && r[k].data == l[k].data && l[k].lamports <= r[k].lamports
  {
    assert MayBecome(env, l, k, r[k]);
    if !Owned(env, l, k) {
      ZeroDataIsUninitialized(r[k].data);
    }
  }

  lemma WorldHolds(env: Env, l: Ledger, r: Ledger, m: Pubkey)
    requires Inv(env, l) && WorldStep(env, l, r)
    ensures Total(env, Holding(m), l) == Total(env, Holding(m), r)
  {
    var q := Holding(m);
    forall k | k in r ensures Weight(env, q, r[k]) == if k in l then Weight(env, q, l[k]) else 0 {
      if Owned(env, r, k) && r[k].data.IsInitialized() {
        WorldBrings(env, l, r, k);
      } else if Owned(env, l, k) && l[k].data.IsInitialized() {
        WorldKeeps(env, l, r, k);
      }
    }
    TotalAgree(env, q, l, r);
  }

  /** The invariant survives whatever the rest of the chain does. */
  lemma WorldPreserves(env: Env, l: Ledger, r: Ledger)
    requires Inv(env, l) && WorldStep(env, l, r)
    ensures Inv(env, r)
  {
    forall k | Owned(env, r, k) ensures CellOk(env, r, r[k]) {
      assert MayBecome(env, l, k, r[k]);
      if r[k].data.IsInitialized() {
        WorldBrings(env, l, r, k);
        assert CellOk(env, l, l[k]);
        if r[k].data.AccountData? && !r[k].data.account.IsNative() {
          WorldKeeps(env, l, r, r[k].data.account.mint);
        }
      } else if Owned(env, l, k) {
        assert CellOk(env, l, l[k]);
      }
    }
    forall m | MintAt(env, r, m) && m != env.nativeMint
      ensures MintOf(r, m).supply == Total(env, Holding(m), r)
    {
      WorldBrings(env, l, r, m);
      WorldHolds(env, l, r, m);
      assert MintAt(env, l, m);
    }
  }
}
