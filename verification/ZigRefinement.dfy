/** The rewrite refines the processor: from every ledger its own steps can reach, each of its six
    instructions commits exactly what the processor commits. */
module ZigRefinement {
  import opened Types
  import opened State
  import opened Instruction
  import opened Spec
  import opened Sums
  import opened Invariant
  import opened Actions
  import opened Exactness
  import opened Preservation
  import opened ZigSpec
  import opened Runs

  /** What the six instructions can build: no delegates, no close authorities, nothing frozen, no
      multisigs. The rewrite looks at none of these, and never resets the fields they live in. */
  ghost predicate ZigInv(env: Env, l: Ledger) {
    && Inv(env, l)
    && (forall k | TokenAt(env, l, k) :: PlainToken(TokenOf(l, k)))
    && (forall k :: !MultisigAt(env, l, k))
  }

  predicate PlainToken(a: Account) {
    a.state == Initialized && a.delegate.None? && a.closeAuthority.None?
  }

  // ---- After-the-fact tests are up-front tests ----

  /** Subtracting and then adding leaves the source's amount where it was iff the two accounts are
      one cell or nothing was moved. */
  lemma AmountUnchangedIffSelfOrZero(l: Ledger, s: Pubkey, d: Pubkey, amount: u64)
    requires s in l && d in l && l[s].data.AccountData? && l[d].data.AccountData?
    requires amount <= TokenOf(l, s).amount
    ensures var l1 := PutAmount(l, s, Wrap(TokenOf(l, s).amount - amount));
      var l2 := PutAmount(l1, d, Wrap(TokenOf(l1, d).amount + amount));
      TokenOf(l2, s).amount == TokenOf(l, s).amount <==> s == d || amount == 0
  {
  }

  /** After a close the destination is empty iff it is the source: a live account pays rent. */
  lemma EmptyIffSelfClose(env: Env, l: Ledger, s: Pubkey, d: Pubkey)
    requires Inv(env, l) && TokenAt(env, l, s) && d in l
    ensures var l1 := PutLamports(l, d, Wrap(l[d].lamports + l[s].lamports));
      var l2 := PutLamports(l1, s, 0);
      l2[d].lamports == 0 <==> s == d
  {
    InitializedIsPaid(env, l, s);
    if s != d {
      LamportsAddFit(env, l, s, d);
    }
  }

  /** Without multisigs, refusing all multisig cells is what the processor does. */
  lemma AuthorityAgrees(env: Env, l: Ledger, expected: Pubkey, auth: Meta, signers: seq<Meta>)
    requires ZigInv(env, l) && auth.key in l
    ensures ZigValidateOwner(env, l, expected, auth).Pass? <==> Agreed(env, l, expected, auth, signers)
  {
    assert !MultisigAt(env, l, auth.key);
  }

  // ---- Initialization ----

  lemma ZigMintExact(env: Env, l: Ledger, accts: seq<Meta>, decimals: u8, ma: Pubkey, fa: Option<Pubkey>)
    requires Inv(env, l) && Present(l, accts)
    ensures Strict(env, l, ZigInitializeMint(env, l, accts, decimals, ma, fa), InitMintAction(env, accts, decimals,
                                                                                              ma, fa, true))
  {
    ExactInitMint(env, l, accts, decimals, ma, fa, true);
    assert ZigInitializeMint(env, l, accts, decimals, ma, fa).Ok? <==>
      ProcessInitializeMint(env, l, accts, decimals, ma, fa, true).Ok?;
  }

  lemma ZigAccountOwned(env: Env, l: Ledger, accts: seq<Meta>)
    requires Inv(env, l) && Present(l, accts) && InitAccountAction(env, accts, None, true).Some?
    requires Owned(env, l, accts[0].key)
    ensures var r, act := ZigInitializeAccount(env, l, accts), InitAccountAction(env, accts, None, true).value;
      && (r.Ok? <==> CanInitAccount(env, l, act.k, act.mint))
      && (r.Ok? ==> r.value == WithData(l, act.k, AccountData(NewAccount(env, l, act.k, act.mint, act.owner))))
  {
    if !l[accts[0].key].data.IsInitialized() {
      UninitializedIsZero(env, l, accts[0].key);
    }
  }

  /** Needs the genuine rent sysvar in place, which the rewrite reads without looking at its key. */
  lemma ZigAccountExact(env: Env, l: Ledger, accts: seq<Meta>)
    requires Inv(env, l) && Present(l, accts) && (4 <= |accts| ==> accts[3].key == env.rentSysvar)
    ensures Strict(env, l, ZigInitializeAccount(env, l, accts), InitAccountAction(env, accts, None, true))
  {
    var r := ZigInitializeAccount(env, l, accts);
    if InitAccountAction(env, accts, None, true).Some? {
      if Owned(env, l, accts[0].key) {
        ZigAccountOwned(env, l, accts);
      }
      if r.Ok? {
        OneWrite(env, l, accts[0].key, r.value[accts[0].key].data);
      }
    }
  }

  // ---- Transfer ----

  lemma ZigTransferGranted(env: Env, l: Ledger, accts: seq<Meta>, amount: u64)
    requires ZigInv(env, l) && Present(l, accts) && 3 <= |accts| && accts[0].key != accts[1].key
    requires CanMove(env, l, accts[0].key, accts[1].key, accts[2], accts[3..], amount, None)
    ensures ZigTransfer(env, l, accts, amount) == Ok(Moved(l, accts[0].key, accts[1].key, false, amount))
  {
    var s, d := accts[0].key, accts[1].key;
    AuthorityAgrees(env, l, TokenOf(l, s).owner, accts[2], accts[3..]);
    MoveFits(env, l, s, d, amount);
    assert ZigTransfer(env, l, accts, amount).value == Moved(l, s, d, false, amount);
  }

  lemma ZigSelfTransfer(env: Env, l: Ledger, accts: seq<Meta>, amount: u64)
    requires ZigInv(env, l) && Present(l, accts) && 3 <= |accts| && accts[0].key == accts[1].key
    requires CanMove(env, l, accts[0].key, accts[1].key, accts[2], accts[3..], amount, None)
    ensures ZigTransfer(env, l, accts, amount) == Ok(l)
  {
    var s := accts[0].key;
    AuthorityAgrees(env, l, TokenOf(l, s).owner, accts[2], accts[3..]);
    assert CellOk(env, l, l[s]);
    assert ZigTransfer(env, l, accts, amount).value == l;
  }

  /** A transfer that gets through was between accounts of the program. */
  lemma ZigTransferOwned(env: Env, l: Ledger, accts: seq<Meta>, amount: u64)
    requires Present(l, accts) && ZigTransfer(env, l, accts, amount).Ok?
    requires Admissible(env, l, ZigTransfer(env, l, accts, amount).value)
    ensures Owned(env, l, accts[0].key) && Owned(env, l, accts[1].key)
  {
    var s, d, r := accts[0].key, accts[1].key, ZigTransfer(env, l, accts, amount).value;
    AmountUnchangedIffSelfOrZero(l, s, d, amount);
    if s != d && amount != 0 {
      assert r[s].data != l[s].data;
      assert r[d].data != l[d].data;
    }
  }

  lemma ZigTransferOnlyIf(env: Env, l: Ledger, accts: seq<Meta>, amount: u64)
    requires ZigInv(env, l) && Present(l, accts) && ZigTransfer(env, l, accts, amount).Ok?
    requires Owned(env, l, accts[0].key) && Owned(env, l, accts[1].key)
    ensures CanMove(env, l, accts[0].key, accts[1].key, accts[2], accts[3..], amount, None)
  {
    var s, d := accts[0].key, accts[1].key;
    assert TokenAt(env, l, s) && TokenAt(env, l, d);
    AuthorityAgrees(env, l, TokenOf(l, s).owner, accts[2], accts[3..]);
  }

  lemma ZigMoveGranted(env: Env, l: Ledger, accts: seq<Meta>, amount: u64)
    requires ZigInv(env, l) && Present(l, accts) && 3 <= |accts|
    requires CanMove(env, l, accts[0].key, accts[1].key, accts[2], accts[3..], amount, None)
    ensures var s, d := accts[0].key, accts[1].key;
      var after := Moved(l, s, d, ByDelegate(TokenOf(l, s), accts[2]), amount);
      ZigTransfer(env, l, accts, amount) == Ok(after) && Admissible(env, l, after)
  {
    var s, d := accts[0].key, accts[1].key;
    assert !ByDelegate(TokenOf(l, s), accts[2]);
    MovedIsAdmissible(env, l, s, d, false, amount);
    if s == d {
      ZigSelfTransfer(env, l, accts, amount);
    } else {
      ZigTransferGranted(env, l, accts, amount);
    }
  }

  lemma ZigMoveRefused(env: Env, l: Ledger, accts: seq<Meta>, amount: u64)
    requires ZigInv(env, l) && Present(l, accts) && 3 <= |accts|
    requires !CanMove(env, l, accts[0].key, accts[1].key, accts[2], accts[3..], amount, None)
    ensures var r := ZigTransfer(env, l, accts, amount); r.Ok? ==> !Admissible(env, l, r.value)
  {
    var r := ZigTransfer(env, l, accts, amount);
    if r.Ok? && Admissible(env, l, r.value) {
      ZigTransferOwned(env, l, accts, amount);
      ZigTransferOnlyIf(env, l, accts, amount);
    }
  }

  lemma ZigTransferExact(env: Env, l: Ledger, accts: seq<Meta>, amount: u64)
    requires ZigInv(env, l) && Present(l, accts)
    ensures Strict(env, l, ZigTransfer(env, l, accts, amount), MoveAction(accts, amount, None))
  {
    if 3 <= |accts| {
      var act := Move(accts[0].key, accts[1].key, accts[2], accts[3..], amount, None);
      assert MoveAction(accts, amount, None) == Some(act);
      assert Enabled(env, l, act) <==> CanMove(env, l, act.s, act.d, act.auth, act.signers, amount, None);
      if Enabled(env, l, act) {
        ZigMoveGranted(env, l, accts, amount);
      } else {
        ZigMoveRefused(env, l, accts, amount);
      }
    }
  }

  // ---- Mint and burn ----

  lemma ZigMintToGranted(env: Env, l: Ledger, accts: seq<Meta>, amount: u64)
    requires ZigInv(env, l) && Present(l, accts) && 3 <= |accts|
    requires CanIssue(env, l, accts[0].key, accts[1].key, accts[2], accts[3..], amount, None)
    ensures ZigMintTo(env, l, accts, amount) == Ok(Issued(l, accts[0].key, accts[1].key, amount))
  {
    HeldInSupply(env, l, accts[1].key);
    AuthorityAgrees(env, l, MintOf(l, accts[0].key).mintAuthority.value, accts[2], accts[3..]);
    assert ZigMintTo(env, l, accts, amount).value == Issued(l, accts[0].key, accts[1].key, amount);
  }

  lemma ZigMintToOwned(env: Env, l: Ledger, accts: seq<Meta>, amount: u64)
    requires Present(l, accts) && ZigMintTo(env, l, accts, amount).Ok?
    requires Admissible(env, l, ZigMintTo(env, l, accts, amount).value)
    ensures Owned(env, l, accts[0].key) && Owned(env, l, accts[1].key)
  {
    var k, d, r := accts[0].key, accts[1].key, ZigMintTo(env, l, accts, amount).value;
    if amount != 0 {
      assert r[k].data.mint.supply != l[k].data.mint.supply;
      assert r[d].data.account.amount != l[d].data.account.amount;
    }
  }

  lemma ZigMintToOnlyIf(env: Env, l: Ledger, accts: seq<Meta>, amount: u64)
    requires ZigInv(env, l) && Present(l, accts) && ZigMintTo(env, l, accts, amount).Ok?
    requires Owned(env, l, accts[0].key) && Owned(env, l, accts[1].key)
    ensures CanIssue(env, l, accts[0].key, accts[1].key, accts[2], accts[3..], amount, None)
  {
    AuthorityAgrees(env, l, MintOf(l, accts[0].key).mintAuthority.value, accts[2], accts[3..]);
  }

  lemma ZigMintToTaken(env: Env, l: Ledger, accts: seq<Meta>, amount: u64)
    requires ZigInv(env, l) && Present(l, accts) && 3 <= |accts|
    requires CanIssue(env, l, accts[0].key, accts[1].key, accts[2], accts[3..], amount, None)
    ensures var after := Issued(l, accts[0].key, accts[1].key, amount);
      ZigMintTo(env, l, accts, amount) == Ok(after) && Admissible(env, l, after)
  {
    ZigMintToGranted(env, l, accts, amount);
    IssuedIsAdmissible(env, l, accts[0].key, accts[1].key, amount);
  }

  lemma ZigMintToRefused(env: Env, l: Ledger, accts: seq<Meta>, amount: u64)
    requires ZigInv(env, l) && Present(l, accts) && 3 <= |accts|
    requires !CanIssue(env, l, accts[0].key, accts[1].key, accts[2], accts[3..], amount, None)
    ensures var r := ZigMintTo(env, l, accts, amount); r.Ok? ==> !Admissible(env, l, r.value)
  {
    var r := ZigMintTo(env, l, accts, amount);
    if r.Ok? && Admissible(env, l, r.value) {
      ZigMintToOwned(env, l, accts, amount);
      ZigMintToOnlyIf(env, l, accts, amount);
    }
  }

  lemma ZigMintToExact(env: Env, l: Ledger, accts: seq<Meta>, amount: u64)
    requires ZigInv(env, l) && Present(l, accts) && 3 <= |accts|
    ensures Strict(env, l, ZigMintTo(env, l, accts, amount),
                   Some(Issue(accts[0].key, accts[1].key, accts[2], accts[3..], amount, None)))
  {
    var act := Issue(accts[0].key, accts[1].key, accts[2], accts[3..], amount, None);
    assert Enabled(env, l, act) <==> CanIssue(env, l, act.mint, act.d, act.auth, act.signers, amount, None);
    if Enabled(env, l, act) {
      ZigMintToTaken(env, l, accts, amount);
    } else {
      ZigMintToRefused(env, l, accts, amount);
    }
  }

  /** The rewrite's own rule for burning: the owner agrees, whoever the owner is. */
  predicate ZigCanDestroy(env: Env, l: Ledger, s: Pubkey, mint: Pubkey, auth: Meta, signers: seq<Meta>, amount: u64) {
    && CanDestroy(env, l, s, mint, auth, signers, amount, None)
    && Agreed(env, l, TokenOf(l, s).owner, auth, signers)
  }

  lemma ZigBurnGranted(env: Env, l: Ledger, accts: seq<Meta>, amount: u64)
    requires ZigInv(env, l) && Present(l, accts) && 3 <= |accts|
    requires ZigCanDestroy(env, l, accts[0].key, accts[1].key, accts[2], accts[3..], amount)
    ensures ZigBurn(env, l, accts, amount) == Ok(Destroyed(l, accts[0].key, accts[1].key, false, amount))
  {
    HeldInSupply(env, l, accts[0].key);
    AuthorityAgrees(env, l, TokenOf(l, accts[0].key).owner, accts[2], accts[3..]);
  }

  lemma ZigBurnOwned(env: Env, l: Ledger, accts: seq<Meta>, amount: u64)
    requires Present(l, accts) && ZigBurn(env, l, accts, amount).Ok?
    requires Admissible(env, l, ZigBurn(env, l, accts, amount).value)
    ensures Owned(env, l, accts[0].key) && Owned(env, l, accts[1].key)
  {
    var s, k, r := accts[0].key, accts[1].key, ZigBurn(env, l, accts, amount).value;
    if amount != 0 {
      assert r[k].data.mint.supply != l[k].data.mint.supply;
      assert r[s].data.account.amount != l[s].data.account.amount;
    }
  }

  lemma ZigBurnOnlyIf(env: Env, l: Ledger, accts: seq<Meta>, amount: u64)
    requires ZigInv(env, l) && Present(l, accts) && ZigBurn(env, l, accts, amount).Ok?
    requires Owned(env, l, accts[0].key) && Owned(env, l, accts[1].key)
    ensures ZigCanDestroy(env, l, accts[0].key, accts[1].key, accts[2], accts[3..], amount)
  {
    var s := accts[0].key;
    assert TokenAt(env, l, s) && PlainToken(TokenOf(l, s));
    AuthorityAgrees(env, l, TokenOf(l, s).owner, accts[2], accts[3..]);
  }

  /** When the rewrite burns, and what: exactly on its own rule. */
  lemma ZigBurnExact(env: Env, l: Ledger, accts: seq<Meta>, amount: u64)
    requires ZigInv(env, l) && Present(l, accts) && 3 <= |accts|
    ensures var r := ZigBurn(env, l, accts, amount);
      if ZigCanDestroy(env, l, accts[0].key, accts[1].key, accts[2], accts[3..], amount) then
        && r == Ok(Destroyed(l, accts[0].key, accts[1].key, false, amount))
        && Admissible(env, l, r.value)
      else r.Ok? ==> !Admissible(env, l, r.value)
  {
    var s, k, r := accts[0].key, accts[1].key, ZigBurn(env, l, accts, amount);
    if ZigCanDestroy(env, l, s, k, accts[2], accts[3..], amount) {
      ZigBurnGranted(env, l, accts, amount);
      DestroyedIsAdmissible(env, l, s, k, false, amount);
    } else if r.Ok? && Admissible(env, l, r.value) {
      ZigBurnOwned(env, l, accts, amount);
      ZigBurnOnlyIf(env, l, accts, amount);
    }
  }

  // ---- Close ----

  predicate ZigCanClose(env: Env, l: Ledger, s: Pubkey, d: Pubkey, auth: Meta, signers: seq<Meta>) {
    && s != d && d in l
    && TokenAt(env, l, s) && (TokenOf(l, s).IsNative() || TokenOf(l, s).amount == 0)
    && Agreed(env, l, TokenOf(l, s).owner, auth, signers)
  }

  lemma ZigCloseWrites(env: Env, l: Ledger, s: Pubkey, d: Pubkey)
    requires s in l && d in l && s != d && l[d].lamports + l[s].lamports < U64_LIMIT
    ensures var l2 := PutLamports(PutLamports(l, d, Wrap(l[d].lamports + l[s].lamports)), s, 0);
      l2[s := Cell(l2[s].lamports, env.systemProgram, Opaque([]))] == Closed(env, l, s, d)
  {
  }

  lemma ZigCloseGranted(env: Env, l: Ledger, accts: seq<Meta>)
    requires ZigInv(env, l) && Present(l, accts) && 3 <= |accts|
    requires ZigCanClose(env, l, accts[0].key, accts[1].key, accts[2], accts[3..])
    ensures ZigCloseAccount(env, l, accts) == Ok(Closed(env, l, accts[0].key, accts[1].key))
  {
    var s, d := accts[0].key, accts[1].key;
    assert PlainToken(TokenOf(l, s));
    AuthorityAgrees(env, l, TokenOf(l, s).owner, accts[2], accts[3..]);
    EmptyIffSelfClose(env, l, s, d);
    LamportsAddFit(env, l, s, d);
    ZigCloseWrites(env, l, s, d);
  }

  lemma ZigCloseOnlyIf(env: Env, l: Ledger, accts: seq<Meta>)
    requires ZigInv(env, l) && Present(l, accts) && ZigCloseAccount(env, l, accts).Ok?
    requires Admissible(env, l, ZigCloseAccount(env, l, accts).value)
    ensures ZigCanClose(env, l, accts[0].key, accts[1].key, accts[2], accts[3..])
  {
    var s, d := accts[0].key, accts[1].key;
    assert ZigCloseAccount(env, l, accts).value[s].data != l[s].data;
    assert TokenAt(env, l, s);
    AuthorityAgrees(env, l, TokenOf(l, s).owner, accts[2], accts[3..]);
    EmptyIffSelfClose(env, l, s, d);
  }

  /** When the rewrite closes, and what: exactly on its own rule. */
  lemma ZigCloseExact(env: Env, l: Ledger, accts: seq<Meta>)
    requires ZigInv(env, l) && Present(l, accts) && 3 <= |accts|
    ensures var r := ZigCloseAccount(env, l, accts);
      if ZigCanClose(env, l, accts[0].key, accts[1].key, accts[2], accts[3..]) then
        && r == Ok(Closed(env, l, accts[0].key, accts[1].key))
        && Admissible(env, l, r.value)
      else r.Ok? ==> !Admissible(env, l, r.value)
  {
    var r := ZigCloseAccount(env, l, accts);
    if ZigCanClose(env, l, accts[0].key, accts[1].key, accts[2], accts[3..]) {
      ZigCloseGranted(env, l, accts);
      ClosedIsAdmissible(env, l, accts[0].key, accts[1].key);
    } else if r.Ok? && Admissible(env, l, r.value) {
      ZigCloseOnlyIf(env, l, accts);
    }
  }

  // ---- Rules for fields the rewrite's own ledgers never fill ----

  /** Closing, on any ledger: the close authority is asked if there is one, and otherwise the owner. */
  lemma ZigCloseOkIff(env: Env, l: Ledger, accts: seq<Meta>)
    requires Present(l, accts) && 3 <= |accts| && l[accts[0].key].data.AccountData?
    ensures var s, d, auth, a := accts[0].key, accts[1].key, accts[2], l[accts[0].key].data.account;
      ZigCloseAccount(env, l, accts).Ok? <==>
      && a.state == Initialized && (a.isNative.Some? || a.amount == 0)
      && (match a.closeAuthority case Some(c) => auth.key == c case None => auth.key == a.owner)
      && auth.isSigner && !(l[auth.key].data.Len() == 355 && l[auth.key].owner == env.programId)
      && s != d && (l[d].lamports + l[s].lamports) % 0x1_0000_0000_0000_0000 != 0
  {
  }

  /** Frozen accounts are refused, on any ledger. */
  lemma ZigRefusesFrozen(env: Env, l: Ledger, accts: seq<Meta>, amount: u64)
    requires Present(l, accts) && 3 <= |accts|
    ensures LooksFrozen(l, accts[0].key) ==>
      && ZigTransfer(env, l, accts, amount) == Err(AccountFrozen)
      && ZigBurn(env, l, accts, amount) == Err(AccountFrozen)
      && ZigCloseAccount(env, l, accts) == Err(AccountFrozen)
    ensures LooksFrozen(l, accts[1].key) ==>
      && ZigTransfer(env, l, accts, amount).Err?
      && ZigMintTo(env, l, accts, amount) == Err(AccountFrozen)
  {
  }

  predicate LooksFrozen(l: Ledger, k: Pubkey)
    requires k in l
  {
    l[k].data.AccountData? && l[k].data.account.state == Frozen
  }

  // ---- The refinement ----

  predicate IsZigInstruction(ix: TokenInstruction) {
    ix.InitializeMint? || ix.InitializeAccount? || ix.Transfer? || ix.MintTo? || ix.Burn? || ix.CloseTokenAccount?
  }

  /** The genuine rent sysvar stands where `InitializeAccount` reads it. */
  predicate RentSupplied(env: Env, accts: seq<Meta>, ix: TokenInstruction) {
    ix.InitializeAccount? && 4 <= |accts| ==> accts[3].key == env.rentSysvar
  }

  /** The first account, where an instruction burns or closes it, does not belong to the system
      program or the incinerator. */
  predicate OrdinaryOwner(env: Env, l: Ledger, accts: seq<Meta>, ix: TokenInstruction) {
    (ix.Burn? || ix.CloseTokenAccount?) && 1 <= |accts| && TokenAt(env, l, accts[0].key) ==>
      !TokenOf(l, accts[0].key).IsOwnedBySystemProgramOrIncinerator(env)
  }

  lemma NotGrantedNotCommitted(env: Env, l: Ledger, accts: seq<Meta>, ix: TokenInstruction, after: Ledger)
    requires Present(l, accts) && Strict(env, l, Process(env, l, accts, ix), ActionOf(env, accts, ix))
    ensures Commits(env, l, accts, ix, after) <==>
      ActionOf(env, accts, ix).Some? && Takes(env, l, ActionOf(env, accts, ix).value, after)
  {
  }

  lemma ZigNotGrantedNotCommitted(env: Env, l: Ledger, accts: seq<Meta>, ix: TokenInstruction, after: Ledger)
    requires Present(l, accts) && Strict(env, l, ZigProcess(env, l, accts, ix), ActionOf(env, accts, ix))
    ensures ZigCommits(env, l, accts, ix, after) <==>
      ActionOf(env, accts, ix).Some? && Takes(env, l, ActionOf(env, accts, ix).value, after)
  {
  }

  lemma RustStrict(env: Env, l: Ledger, accts: seq<Meta>, ix: TokenInstruction)
    requires Inv(env, l) && Present(l, accts) && IsZigInstruction(ix)
    ensures Strict(env, l, Process(env, l, accts, ix), ActionOf(env, accts, ix))
  {
    match ix
    case InitializeMint(decimals, ma, fa) => ExactInitMint(env, l, accts, decimals, ma, fa, true);
    case InitializeAccount => ExactInitAccount(env, l, accts, None, true);
    case Transfer(amount) => ExactTransferList(env, l, accts, amount, None);
    case MintTo(amount) => if 3 <= |accts| { ExactMintTo(env, l, accts, amount, None); }
    case Burn(amount) => if 3 <= |accts| { ExactBurn(env, l, accts, amount, None); }
    case CloseTokenAccount => if 3 <= |accts| { ExactClose(env, l, accts); }
  }

  lemma ZigBurnStrict(env: Env, l: Ledger, accts: seq<Meta>, amount: u64)
    requires ZigInv(env, l) && Present(l, accts) && 3 <= |accts|
    requires TokenAt(env, l, accts[0].key) ==> !TokenOf(l, accts[0].key).IsOwnedBySystemProgramOrIncinerator(env)
    ensures Strict(env, l, ZigBurn(env, l, accts, amount),
                   Some(Destroy(accts[0].key, accts[1].key, accts[2], accts[3..], amount, None)))
  {
    ZigBurnExact(env, l, accts, amount);
  }

  lemma ZigCloseStrict(env: Env, l: Ledger, accts: seq<Meta>)
    requires ZigInv(env, l) && Present(l, accts) && 3 <= |accts|
    requires TokenAt(env, l, accts[0].key) ==> !TokenOf(l, accts[0].key).IsOwnedBySystemProgramOrIncinerator(env)
    ensures Strict(env, l, ZigCloseAccount(env, l, accts), Some(Close(accts[0].key, accts[1].key, accts[2],
                                                                      accts[3..])))
  {
    ZigCloseExact(env, l, accts);
  }

  lemma ZigStrict(env: Env, l: Ledger, accts: seq<Meta>, ix: TokenInstruction)
    requires ZigInv(env, l) && Present(l, accts) && IsZigInstruction(ix)
    requires RentSupplied(env, accts, ix) && OrdinaryOwner(env, l, accts, ix)
    ensures Strict(env, l, ZigProcess(env, l, accts, ix), ActionOf(env, accts, ix))
  {
    match ix
    case InitializeMint(decimals, ma, fa) => ZigMintExact(env, l, accts, decimals, ma, fa);
    case InitializeAccount => ZigAccountExact(env, l, accts);
    case Transfer(amount) => ZigTransferExact(env, l, accts, amount);
    case MintTo(amount) => if 3 <= |accts| { ZigMintToExact(env, l, accts, amount); }
    case Burn(amount) => if 3 <= |accts| { ZigBurnStrict(env, l, accts, amount); }
    case CloseTokenAccount => if 3 <= |accts| { ZigCloseStrict(env, l, accts); }
  }

  /** In every ledger with the invariant of the rewrite, it commits exactly what the processor
      commits. */
  lemma ZigCommitsWhatRustCommits(env: Env, l: Ledger, accts: seq<Meta>, ix: TokenInstruction, after: Ledger)
    requires ZigInv(env, l) && IsZigInstruction(ix)
    requires RentSupplied(env, accts, ix) && OrdinaryOwner(env, l, accts, ix)
    ensures ZigCommits(env, l, accts, ix, after) <==> Commits(env, l, accts, ix, after)
  {
    if Present(l, accts) {
      ZigStrict(env, l, accts, ix);
      RustStrict(env, l, accts, ix);
      ZigNotGrantedNotCommitted(env, l, accts, ix, after);
      NotGrantedNotCommitted(env, l, accts, ix, after);
    }
  }

  // ---- Where they differ: accounts of the system program and the incinerator ----

  lemma ZigBurnCommits(env: Env, l: Ledger, accts: seq<Meta>, amount: u64, after: Ledger)
    requires ZigInv(env, l) && Present(l, accts) && 3 <= |accts|
    ensures ZigCommits(env, l, accts, Burn(amount), after) <==>
      && ZigCanDestroy(env, l, accts[0].key, accts[1].key, accts[2], accts[3..], amount)
      && after == Destroyed(l, accts[0].key, accts[1].key, false, amount)
  {
    ZigBurnExact(env, l, accts, amount);
  }

  lemma ZigCloseCommits(env: Env, l: Ledger, accts: seq<Meta>, after: Ledger)
    requires ZigInv(env, l) && Present(l, accts) && 3 <= |accts|
    ensures ZigCommits(env, l, accts, CloseTokenAccount, after) <==>
      && ZigCanClose(env, l, accts[0].key, accts[1].key, accts[2], accts[3..])
      && after == Closed(env, l, accts[0].key, accts[1].key)
  {
    ZigCloseExact(env, l, accts);
  }

  lemma BurnResult(env: Env, l: Ledger, accts: seq<Meta>, amount: u64, after: Ledger)
    requires Inv(env, l) && Present(l, accts) && 3 <= |accts|
    ensures var s, k := accts[0].key, accts[1].key;
      ProcessBurn(env, l, accts, amount, None) == Ok(after) && Admissible(env, l, after) <==>
      && CanDestroy(env, l, s, k, accts[2], accts[3..], amount, None)
      && after == Destroyed(l, s, k, DestroysByDelegate(env, TokenOf(l, s), accts[2]), amount)
  {
    if CanDestroy(env, l, accts[0].key, accts[1].key, accts[2], accts[3..], amount, None) {
      BurnTaken(env, l, accts, amount, None);
    } else {
      BurnRefused(env, l, accts, amount, None);
    }
  }

  lemma RustBurnCommits(env: Env, l: Ledger, accts: seq<Meta>, amount: u64, after: Ledger)
    requires Inv(env, l) && Present(l, accts) && 3 <= |accts|
    ensures var s, k := accts[0].key, accts[1].key;
      Commits(env, l, accts, Burn(amount), after) <==>
      && CanDestroy(env, l, s, k, accts[2], accts[3..], amount, None)
      && after == Destroyed(l, s, k, DestroysByDelegate(env, TokenOf(l, s), accts[2]), amount)
  {
    BurnResult(env, l, accts, amount, after);
  }

  lemma RustCloseCommits(env: Env, l: Ledger, accts: seq<Meta>, after: Ledger)
    requires Inv(env, l) && Present(l, accts) && 3 <= |accts|
    ensures Commits(env, l, accts, CloseTokenAccount, after) <==>
      && CanClose(env, l, accts[0].key, accts[1].key, accts[2], accts[3..])
      && after == Closed(env, l, accts[0].key, accts[1].key)
  {
    CloseTakenIff(env, l, accts, after);
  }

  /** A burn by the rewrite is a burn by the processor that the owner also agreed to. */
  lemma BurnsCompared(env: Env, l: Ledger, accts: seq<Meta>, amount: u64, after: Ledger)
    requires ZigInv(env, l) && Present(l, accts) && 3 <= |accts| && TokenAt(env, l, accts[0].key)
    ensures ZigCommits(env, l, accts, Burn(amount), after) <==>
      && Commits(env, l, accts, Burn(amount), after)
      && Agreed(env, l, TokenOf(l, accts[0].key).owner, accts[2], accts[3..])
  {
    ZigBurnCommits(env, l, accts, amount, after);
    RustBurnCommits(env, l, accts, amount, after);
    assert !DestroysByDelegate(env, TokenOf(l, accts[0].key), accts[2]);
  }

  /** The two programs agree on a burn exactly when the tokens cannot be burnt at all, their owner is
      ordinary, or the owner agreed although nobody had to ask. */
  lemma BurnsAgreeIff(env: Env, l: Ledger, accts: seq<Meta>, amount: u64)
    requires ZigInv(env, l) && Present(l, accts) && 3 <= |accts| && TokenAt(env, l, accts[0].key)
    ensures var s, k := accts[0].key, accts[1].key;
      (forall after :: ZigCommits(env, l, accts, Burn(amount), after) <==> Commits(env, l, accts, Burn(amount), after))
      <==>
      (&& CanDestroy(env, l, s, k, accts[2], accts[3..], amount, None)
       && TokenOf(l, s).IsOwnedBySystemProgramOrIncinerator(env) ==>
         Agreed(env, l, TokenOf(l, s).owner, accts[2], accts[3..]))
  {
    var s, k := accts[0].key, accts[1].key;
    forall after ensures ZigCommits(env, l, accts, Burn(amount), after) <==>
      Commits(env, l, accts, Burn(amount), after) && Agreed(env, l, TokenOf(l, s).owner, accts[2], accts[3..])
    {
      BurnsCompared(env, l, accts, amount, after);
    }
    if CanDestroy(env, l, s, k, accts[2], accts[3..], amount, None) {
      var burnt := Destroyed(l, s, k, DestroysByDelegate(env, TokenOf(l, s), accts[2]), amount);
      RustBurnCommits(env, l, accts, amount, burnt);
      assert ZigCommits(env, l, accts, Burn(amount), burnt) || !ZigCommits(env, l, accts, Burn(amount), burnt);
      OrdinaryBurnsAgree(env, l, s, k, accts[2], accts[3..], amount);
    } else {
      forall after ensures !Commits(env, l, accts, Burn(amount), after) {
        RustBurnCommits(env, l, accts, amount, after);
      }
    }
  }

  lemma OrdinaryBurnsAgree(env: Env, l: Ledger, s: Pubkey, mint: Pubkey, auth: Meta, signers: seq<Meta>, amount: u64)
    requires ZigInv(env, l) && CanDestroy(env, l, s, mint, auth, signers, amount, None)
    ensures TokenOf(l, s).IsOwnedBySystemProgramOrIncinerator(env) || Agreed(env, l, TokenOf(l, s).owner, auth, signers)
  {
    assert PlainToken(TokenOf(l, s));
  }

  /** The closable part both programs agree on. */
  predicate Closable(env: Env, l: Ledger, s: Pubkey, d: Pubkey) {
    && s != d && d in l
    && TokenAt(env, l, s) && (TokenOf(l, s).IsNative() || TokenOf(l, s).amount == 0)
  }

  lemma ClosesCompared(env: Env, l: Ledger, accts: seq<Meta>, after: Ledger)
    requires ZigInv(env, l) && Present(l, accts) && 3 <= |accts| && TokenAt(env, l, accts[0].key)
    ensures var s, d := accts[0].key, accts[1].key;
      var agreed := Agreed(env, l, TokenOf(l, s).owner, accts[2], accts[3..]);
      && (ZigCommits(env, l, accts, CloseTokenAccount, after) <==>
            Closable(env, l, s, d) && after == Closed(env, l, s, d) && agreed)
      && (Commits(env, l, accts, CloseTokenAccount, after) <==>
            Closable(env, l, s, d) && after == Closed(env, l, s, d) &&
            if TokenOf(l, s).IsOwnedBySystemProgramOrIncinerator(env) then d == env.incinerator else agreed)
  {
    ZigCloseCommits(env, l, accts, after);
    RustCloseCommits(env, l, accts, after);
  }

  /** The two programs agree on a close exactly when the account is not closable at all, its owner
      is ordinary, or the signature the one wants and the destination the other wants go together. */
  lemma ClosesAgreeIff(env: Env, l: Ledger, accts: seq<Meta>)
    requires ZigInv(env, l) && Present(l, accts) && 3 <= |accts| && TokenAt(env, l, accts[0].key)
    ensures var s, d := accts[0].key, accts[1].key;
      (forall after ::
         ZigCommits(env, l, accts, CloseTokenAccount, after) <==> Commits(env, l, accts, CloseTokenAccount, after))
      <==>
      (Closable(env, l, s, d) && TokenOf(l, s).IsOwnedBySystemProgramOrIncinerator(env) ==>
         (d == env.incinerator <==> Agreed(env, l, TokenOf(l, s).owner, accts[2], accts[3..])))
  {
    forall after ensures
      var s, d := accts[0].key, accts[1].key;
      var agreed := Agreed(env, l, TokenOf(l, s).owner, accts[2], accts[3..]);
      && (ZigCommits(env, l, accts, CloseTokenAccount, after) <==>
            Closable(env, l, s, d) && after == Closed(env, l, s, d) && agreed)
      && (Commits(env, l, accts, CloseTokenAccount, after) <==>
            Closable(env, l, s, d) && after == Closed(env, l, s, d) &&
            if TokenOf(l, s).IsOwnedBySystemProgramOrIncinerator(env) then d == env.incinerator else agreed)
    {
      ClosesCompared(env, l, accts, after);
    }
    var target := Closed(env, l, accts[0].key, accts[1].key);
    var commits := ZigCommits(env, l, accts, CloseTokenAccount, target);
    assert commits || !commits;
  }

  // ---- Runs of the rewrite ----

  /** An event of a run of the rewrite; an `InitializeAccount` with a false rent sysvar is outside
      this model. */
  ghost function ZigNext(env: Env, l: Ledger, e: Event): Ledger {
    match e
    case Program(accts, ix) => if RentSupplied(env, accts, ix) then ZigInvoke(env, l, accts, ix) else l
    case World(next) => if WorldStep(env, l, next) then next else l
  }

  ghost function ZigAfter(env: Env, l: Ledger, run: seq<Event>): Ledger
    decreases |run|
  {
    if |run| == 0 then l else ZigAfter(env, ZigNext(env, l, run[0]), run[1..])
  }

  ghost predicate ZigReachable(env: Env, l: Ledger) {
    exists start: Ledger, run: seq<Event> :: Genesis(env, start) && ZigAfter(env, start, run) == l
  }

  lemma ZigGenesis(env: Env, l: Ledger)
    requires Genesis(env, l)
    ensures ZigInv(env, l)
  {
    GenesisInv(env, l);
    forall k | Owned(env, l, k) ensures !l[k].data.IsInitialized() || l[k].data.MintData? {
      if l[k].data == ZeroData(l[k].data.Len()) {
        ZeroDataIsUninitialized(l[k].data);
      }
    }
  }

  lemma ZigWorld(env: Env, l: Ledger, r: Ledger)
    requires ZigInv(env, l) && WorldStep(env, l, r)
    ensures ZigInv(env, r)
  {
    WorldPreserves(env, l, r);
    forall k | Owned(env, r, k) && r[k].data.IsInitialized() ensures Owned(env, l, k) && r[k].data == l[k].data {
      WorldBrings(env, l, r, k);
    }
    forall k | TokenAt(env, r, k) ensures PlainToken(TokenOf(r, k)) {
      assert TokenAt(env, l, k);
    }
    forall k ensures !MultisigAt(env, r, k) {
      assert !MultisigAt(env, l, k);
    }
  }

  /** Whatever an action of the rewrite leaves in a cell is plain again. */
  ghost predicate StaysPlain(env: Env, l: Ledger, r: Ledger) {
    && r.Keys == l.Keys
    && forall k | Owned(env, r, k) && r[k].data.IsInitialized() ::
         || (Owned(env, l, k) && r[k].data == l[k].data)
         || r[k].data.MintData?
         || (r[k].data.AccountData? && PlainToken(r[k].data.account))
  }

  lemma PlainKept(env: Env, l: Ledger, r: Ledger)
    requires ZigInv(env, l) && Inv(env, r) && StaysPlain(env, l, r)
    ensures ZigInv(env, r)
  {
    forall k | TokenAt(env, r, k) ensures PlainToken(TokenOf(r, k)) {
      if Owned(env, l, k) && r[k].data == l[k].data {
        assert TokenAt(env, l, k);
      }
    }
    forall k ensures !MultisigAt(env, r, k) {
      assert !MultisigAt(env, l, k);
    }
  }

  /** Two cells hold plain tokens or nothing initialized, and the others are what they were. */
  lemma OnlyPlainChanges(env: Env, l: Ledger, r: Ledger, s: Pubkey, d: Pubkey)
    requires r.Keys == l.Keys && (forall k | k in l && k != s && k != d :: r[k] == l[k])
    requires forall k | (k == s || k == d) && Owned(env, r, k) && r[k].data.IsInitialized() ::
      || (Owned(env, l, k) && r[k].data == l[k].data)
      || r[k].data.MintData? || (r[k].data.AccountData? && PlainToken(r[k].data.account))
    ensures StaysPlain(env, l, r)
  {
  }

  lemma MovedIsPlain(env: Env, l: Ledger, s: Pubkey, d: Pubkey, amount: u64)
    requires ZigInv(env, l) && Unfrozen(env, l, s) && Unfrozen(env, l, d) && amount <= TokenOf(l, s).amount
    ensures StaysPlain(env, l, Moved(l, s, d, false, amount))
  {
    var r := Moved(l, s, d, false, amount);
    assert PlainToken(TokenOf(l, s)) && PlainToken(TokenOf(l, d));
    OnlyPlainChanges(env, l, r, s, d);
  }

  lemma IssuedIsPlain(env: Env, l: Ledger, mint: Pubkey, d: Pubkey, amount: u64)
    requires ZigInv(env, l) && MintAt(env, l, mint) && Unfrozen(env, l, d)
    ensures StaysPlain(env, l, Issued(l, mint, d, amount))
  {
    assert PlainToken(TokenOf(l, d));
    OnlyPlainChanges(env, l, Issued(l, mint, d, amount), mint, d);
  }

  lemma DestroyedIsPlain(env: Env, l: Ledger, s: Pubkey, mint: Pubkey, amount: u64)
    requires ZigInv(env, l) && MintAt(env, l, mint) && Unfrozen(env, l, s) && amount <= TokenOf(l, s).amount
    ensures StaysPlain(env, l, Destroyed(l, s, mint, false, amount))
  {
    assert PlainToken(TokenOf(l, s));
    OnlyPlainChanges(env, l, Destroyed(l, s, mint, false, amount), s, mint);
  }

  lemma ClosedIsPlain(env: Env, l: Ledger, s: Pubkey, d: Pubkey)
    requires ZigInv(env, l) && s in l && d in l
    ensures StaysPlain(env, l, Closed(env, l, s, d))
  {
    OnlyPlainChanges(env, l, Closed(env, l, s, d), s, d);
  }

  lemma ZigActionKeeps(env: Env, l: Ledger, act: Action)
    requires ZigInv(env, l) && Enabled(env, l, act)
    requires act.InitMint? || act.InitAccount? || act.Move? || act.Issue?
    ensures ZigInv(env, Effect(env, l, act))
  {
    StepKeeps(env, l, act);
    match act
    case Move(s, d, auth, _, amount, _) =>
      assert !ByDelegate(TokenOf(l, s), auth);
      MovedIsPlain(env, l, s, d, amount);
      PlainKept(env, l, Effect(env, l, act));
    case Issue(mint, d, _, _, amount, _) =>
      IssuedIsPlain(env, l, mint, d, amount);
      PlainKept(env, l, Effect(env, l, act));
    case InitMint(_, _, _, _) => PlainKept(env, l, Effect(env, l, act));
    case InitAccount(_, _, _) => PlainKept(env, l, Effect(env, l, act));
  }

  lemma ZigBurnKeeps(env: Env, l: Ledger, accts: seq<Meta>, amount: u64, after: Ledger)
    requires ZigInv(env, l) && 3 <= |accts| && ZigCommits(env, l, accts, Burn(amount), after)
    ensures ZigInv(env, after)
  {
    var s, k := accts[0].key, accts[1].key;
    ZigBurnCommits(env, l, accts, amount, after);
    DestroyKeeps(env, l, s, k, false, amount);
    DestroyedIsPlain(env, l, s, k, amount);
    PlainKept(env, l, after);
  }

  lemma ZigCloseKeeps(env: Env, l: Ledger, accts: seq<Meta>, after: Ledger)
    requires ZigInv(env, l) && 3 <= |accts| && ZigCommits(env, l, accts, CloseTokenAccount, after)
    ensures ZigInv(env, after)
  {
    var s, d := accts[0].key, accts[1].key;
    ZigCloseCommits(env, l, accts, after);
    CloseKeeps(env, l, s, d);
    ClosedIsPlain(env, l, s, d);
    PlainKept(env, l, after);
  }

  lemma ZigAdditionKeeps(env: Env, l: Ledger, accts: seq<Meta>, ix: TokenInstruction, after: Ledger)
    requires ZigInv(env, l) && RentSupplied(env, accts, ix) && ZigCommits(env, l, accts, ix, after)
    requires ix.InitializeMint? || ix.InitializeAccount? || ix.Transfer? || ix.MintTo?
    ensures ZigInv(env, after)
  {
    ZigStrict(env, l, accts, ix);
    ZigNotGrantedNotCommitted(env, l, accts, ix, after);
    ZigActionKeeps(env, l, ActionOf(env, accts, ix).value);
  }

  lemma ZigCommitKeeps(env: Env, l: Ledger, accts: seq<Meta>, ix: TokenInstruction, after: Ledger)
    requires ZigInv(env, l) && RentSupplied(env, accts, ix) && ZigCommits(env, l, accts, ix, after)
    ensures ZigInv(env, after)
  {
    if ix.Burn? {
      ZigBurnKeeps(env, l, accts, ix.amount, after);
    } else if ix.CloseTokenAccount? {
      ZigCloseKeeps(env, l, accts, after);
    } else {
      ZigAdditionKeeps(env, l, accts, ix, after);
    }
  }

  lemma ZigInvokeKeeps(env: Env, l: Ledger, accts: seq<Meta>, ix: TokenInstruction)
    requires ZigInv(env, l) && RentSupplied(env, accts, ix)
    ensures ZigInv(env, ZigInvoke(env, l, accts, ix))
  {
    var after := ZigInvoke(env, l, accts, ix);
    if ZigCommits(env, l, accts, ix, after) {
      ZigCommitKeeps(env, l, accts, ix, after);
    }
  }

  lemma {:induction false} ZigRunKeeps(env: Env, l: Ledger, run: seq<Event>)
    requires ZigInv(env, l)
    ensures ZigInv(env, ZigAfter(env, l, run))
    decreases |run|
  {
    if |run| > 0 {
      match run[0] {
        case Program(accts, ix) =>
          if RentSupplied(env, accts, ix) { ZigInvokeKeeps(env, l, accts, ix); }
        case World(next) =>
          if WorldStep(env, l, next) { ZigWorld(env, l, next); }
      }
      ZigRunKeeps(env, ZigNext(env, l, run[0]), run[1..]);
    }
  }

  lemma ZigReachableInv(env: Env, l: Ledger)
    requires ZigReachable(env, l)
    ensures ZigInv(env, l)
  {
    var start: Ledger, run: seq<Event> :| Genesis(env, start) && ZigAfter(env, start, run) == l;
    ZigGenesis(env, start);
    ZigRunKeeps(env, start, run);
  }

  /** Zig refines Rust: from every ledger that runs of the rewrite can reach, each of its six
      instructions commits a ledger exactly when the processor commits the same ledger. */
  lemma ZigRefinesRust(env: Env, l: Ledger, accts: seq<Meta>, ix: TokenInstruction, after: Ledger)
    requires ZigReachable(env, l) && IsZigInstruction(ix)
    requires RentSupplied(env, accts, ix) && OrdinaryOwner(env, l, accts, ix)
    ensures ZigCommits(env, l, accts, ix, after) <==> Commits(env, l, accts, ix, after)
  {
    ZigReachableInv(env, l);
    ZigCommitsWhatRustCommits(env, l, accts, ix, after);
  }

  /** Every instruction of the run is one of the six, with the real rent sysvar and an ordinary owner
      at the time it is called. */
  ghost predicate WithinScope(env: Env, l: Ledger, run: seq<Event>)
    decreases |run|
  {
    |run| > 0 ==>
      && (run[0].Program? ==>
            && IsZigInstruction(run[0].ix) && RentSupplied(env, run[0].accts, run[0].ix)
            && OrdinaryOwner(env, l, run[0].accts, run[0].ix))
      && WithinScope(env, ZigNext(env, l, run[0]), run[1..])
  }

  lemma ZigInvokesWhatRustInvokes(env: Env, l: Ledger, accts: seq<Meta>, ix: TokenInstruction)
    requires ZigInv(env, l) && IsZigInstruction(ix)
    requires RentSupplied(env, accts, ix) && OrdinaryOwner(env, l, accts, ix)
    ensures ZigInvoke(env, l, accts, ix) == Invoke(env, l, accts, ix)
  {
    ZigCommitsWhatRustCommits(env, l, accts, ix, ZigInvoke(env, l, accts, ix));
    ZigCommitsWhatRustCommits(env, l, accts, ix, Invoke(env, l, accts, ix));
  }

  lemma {:induction false} ZigRunFrom(env: Env, l: Ledger, run: seq<Event>)
    requires ZigInv(env, l) && WithinScope(env, l, run)
    ensures ZigAfter(env, l, run) == After(env, l, run)
    decreases |run|
  {
    if |run| > 0 {
      match run[0] {
        case Program(accts, ix) =>
          ZigInvokesWhatRustInvokes(env, l, accts, ix);
          ZigInvokeKeeps(env, l, accts, ix);
        case World(next) =>
          if WorldStep(env, l, next) { ZigWorld(env, l, next); }
      }
      ZigRunFrom(env, ZigNext(env, l, run[0]), run[1..]);
    }
  }

  /** Run for run: from any genesis, both programs go through the same ledgers, whatever the rest of
      the chain does in between. */
  lemma ZigRunIsRustRun(env: Env, start: Ledger, run: seq<Event>)
    requires Genesis(env, start) && WithinScope(env, start, run)
    ensures ZigAfter(env, start, run) == After(env, start, run)
  {
    ZigGenesis(env, start);
    ZigRunFrom(env, start, run);
  }

  /** All other instructions are refused by the rewrite. */
  lemma ZigRefusesTheRest(env: Env, l: Ledger, accts: seq<Meta>, ix: TokenInstruction)
    requires Present(l, accts) && !IsZigInstruction(ix)
    ensures ZigProcess(env, l, accts, ix) == Err(InvalidState) && ZigInvoke(env, l, accts, ix) == l
  {
  }

  /** Supply conservation for the rewrite, unchecked arithmetic and all. */
  lemma ZigSupplyConservation(env: Env, l: Ledger, mint: Pubkey)
    requires ZigReachable(env, l) && MintAt(env, l, mint) && mint != env.nativeMint
    ensures MintOf(l, mint).supply == Total(env, Holding(mint), l)
  {
    ZigReachableInv(env, l);
  }
}
