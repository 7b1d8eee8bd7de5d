/** The processor and the protocol agree: under the invariant an instruction commits exactly the
    steps its action allows. Owner checks the processor leaves to the host, and overflow checks that
    cannot fire, both disappear on the protocol's side. */
module Exactness {
  import opened Types
  import opened State
  import opened Instruction
  import opened Spec
  import opened Sums
  import opened Invariant
  import opened Actions

  /** Two tokens of one mint: their amounts fit together, and so do their lamports. */
  lemma AddsFit(env: Env, l: Ledger, s: Pubkey, d: Pubkey)
    requires Inv(env, l) && TokenAt(env, l, s) && TokenAt(env, l, d) && s != d
    requires TokenOf(l, s).mint == TokenOf(l, d).mint
    ensures TokenOf(l, s).amount + TokenOf(l, d).amount < U64_LIMIT
  {
    var mint := TokenOf(l, s).mint;
    assert CellOk(env, l, l[s]) && CellOk(env, l, l[d]);
    if mint == env.nativeMint {
      WeightsBound(env, Lamports, l, s, d);
    } else {
      WeightsBound(env, Holding(mint), l, s, d);
    }
  }

  lemma LamportsAddFit(env: Env, l: Ledger, s: Pubkey, d: Pubkey)
    requires LamportsFit(env, l) && s in l && d in l && s != d
    ensures l[s].lamports + l[d].lamports < U64_LIMIT
  {
    WeightsBound(env, Lamports, l, s, d);
  }

  /** A holder's tokens are part of the supply of its mint, and the mint is genuine. */
  lemma HeldInSupply(env: Env, l: Ledger, k: Pubkey)
    requires Inv(env, l) && TokenAt(env, l, k) && !TokenOf(l, k).IsNative()
    ensures MintAt(env, l, TokenOf(l, k).mint)
    ensures TokenOf(l, k).amount <= MintOf(l, TokenOf(l, k).mint).supply
  {
    assert CellOk(env, l, l[k]);
    WeightBound(env, Holding(TokenOf(l, k).mint), l, k);
  }

  lemma UpdateForeign(env: Env, l: Ledger, k: Pubkey, c: Cell)
    requires k in l
    ensures Admissible(env, l, l[k := c]) <==>
      Owned(env, l, k) || (l[k].data == c.data && l[k].lamports <= c.lamports)
  {
    var r := l[k := c];
    assert r.Keys == l.Keys;
    if !Owned(env, l, k) && Admissible(env, l, r) {
      assert r[k] == c;
    }
  }

  lemma UpdateTwo(env: Env, l: Ledger, j: Pubkey, c: Cell, k: Pubkey, e: Cell)
    requires j in l && k in l && j != k
    ensures Admissible(env, l, l[j := c][k := e]) <==>
      && (Owned(env, l, j) || (l[j].data == c.data && l[j].lamports <= c.lamports))
      && (Owned(env, l, k) || (l[k].data == e.data && l[k].lamports <= e.lamports))
  {
    var r := l[j := c][k := e];
    assert r.Keys == l.Keys;
    assert r[j] == c && r[k] == e;
  }

  /** A write to one cell: the host lets it through iff the program owns the cell or the data is
      what was there. */
  lemma OneWrite(env: Env, l: Ledger, k: Pubkey, data: Data)
    requires k in l
    ensures Admissible(env, l, WithData(l, k, data)) <==> Owned(env, l, k) || l[k].data == data
    ensures l[k].data == data ==> WithData(l, k, data) == l
  {
    UpdateForeign(env, l, k, l[k].(data := data));
  }

  lemma AdmitsItself(env: Env, l: Ledger)
    ensures Admissible(env, l, l)
  {
  }

  /** Uninitialized cells of the program hold zeros, so initialization starts from known fields. */
  lemma UninitializedIsZero(env: Env, l: Ledger, k: Pubkey)
    requires Inv(env, l) && Owned(env, l, k) && !l[k].data.IsInitialized()
    ensures l[k].data == ZeroData(l[k].data.Len())
  {
    assert CellOk(env, l, l[k]);
  }

  // ---- What an instruction that was not granted can still do ----

  /** A cell of another program that decodes to a live token account. */
  predicate TokenLookAlike(env: Env, l: Ledger, k: Pubkey) {
    k in l && !Owned(env, l, k) && UnpackAccount(l[k].data).Ok? && !TokenOf(l, k).IsFrozen()
  }

  /** A cell of another program that decodes to a live mint. */
  predicate MintLookAlike(env: Env, l: Ledger, k: Pubkey) {
    k in l && !Owned(env, l, k) && UnpackMint(l[k].data).Ok?
  }

  /** An action on a look-alike that everyone it names agreed to, and that asks for the very fields
      the look-alike shows. The processor compares no owners here, writes back the same bytes, and
      the host has nothing to object to. */
  predicate Echoes(env: Env, l: Ledger, act: Action) {
    match act
    case SetDelegate(k, auth, signers, grant, check) =>
      && TokenLookAlike(env, l, k) && Passes(l, check, TokenOf(l, k).mint)
      && Agreed(env, l, TokenOf(l, k).owner, auth, signers)
      && Delegated(TokenOf(l, k), grant) == TokenOf(l, k)
    case SetOwner(k, auth, signers, owner) =>
      && TokenLookAlike(env, l, k) && Agreed(env, l, TokenOf(l, k).owner, auth, signers)
      && Reowned(TokenOf(l, k), owner) == TokenOf(l, k)
    case SetCloser(k, auth, signers, authority) =>
      && TokenLookAlike(env, l, k) && Agreed(env, l, Closer(TokenOf(l, k)), auth, signers)
      && TokenOf(l, k).closeAuthority == authority
    case SetMinter(k, auth, signers, authority) =>
      && MintLookAlike(env, l, k) && MintOf(l, k).mintAuthority.Some?
      && Agreed(env, l, MintOf(l, k).mintAuthority.value, auth, signers)
      && MintOf(l, k).mintAuthority == authority
    case SetFreezer(k, auth, signers, authority) =>
      && MintLookAlike(env, l, k) && MintOf(l, k).freezeAuthority.Some?
      && Agreed(env, l, MintOf(l, k).freezeAuthority.value, auth, signers)
      && MintOf(l, k).freezeAuthority == authority
    case _ => false
  }

  /** A granted action succeeds, passes the host, and leaves its effect. An echo succeeds and changes
      nothing. Nothing else gets through. */
  ghost predicate Exact(env: Env, l: Ledger, r: Result<Ledger>, act: Option<Action>) {
    if act.Some? && Echoes(env, l, act.value) then r == Ok(l) && !Enabled(env, l, act.value)
    else Strict(env, l, r, act)
  }

  /** The stricter story of the instructions that cannot echo: they get through only when granted. */
  ghost predicate Strict(env: Env, l: Ledger, r: Result<Ledger>, act: Option<Action>) {
    if act.Some? && Enabled(env, l, act.value) then
      r == Ok(Effect(env, l, act.value)) && Admissible(env, l, Effect(env, l, act.value))
    else r.Ok? ==> !Admissible(env, l, r.value)
  }

  // ---- Initialization ----

  lemma InitMintOwned(env: Env, l: Ledger, accts: seq<Meta>, decimals: u8, ma: Pubkey, fa: Option<Pubkey>,
                      viaSysvar: bool)
    requires Inv(env, l) && Present(l, accts) && InitMintAction(env, accts, decimals, ma, fa, viaSysvar).Some?
    requires Owned(env, l, accts[0].key)
    ensures var r, k := ProcessInitializeMint(env, l, accts, decimals, ma, fa, viaSysvar), accts[0].key;
      && (r.Ok? <==> Fresh(env, l, k, MINT_LEN))
      && (r.Ok? ==> r.value == WithData(l, k, MintData(Mint(Some(ma), 0, decimals, true, fa))))
  {
    if !l[accts[0].key].data.IsInitialized() {
      UninitializedIsZero(env, l, accts[0].key);
    }
  }

  lemma InitMintForeign(env: Env, l: Ledger, accts: seq<Meta>, decimals: u8, ma: Pubkey, fa: Option<Pubkey>,
                        viaSysvar: bool)
    requires Present(l, accts) && InitMintAction(env, accts, decimals, ma, fa, viaSysvar).Some?
    requires !Owned(env, l, accts[0].key)
    ensures var r := ProcessInitializeMint(env, l, accts, decimals, ma, fa, viaSysvar);
      r.Ok? ==> !Admissible(env, l, r.value)
  {
    var r := ProcessInitializeMint(env, l, accts, decimals, ma, fa, viaSysvar);
    if r.Ok? {
      UpdateForeign(env, l, accts[0].key, r.value[accts[0].key]);
    }
  }

  lemma ExactInitMint(env: Env, l: Ledger, accts: seq<Meta>, decimals: u8, ma: Pubkey, fa: Option<Pubkey>,
                      viaSysvar: bool)
    requires Inv(env, l) && Present(l, accts)
    ensures Strict(env, l, ProcessInitializeMint(env, l, accts, decimals, ma, fa, viaSysvar),
                   InitMintAction(env, accts, decimals, ma, fa, viaSysvar))
  {
    var action := InitMintAction(env, accts, decimals, ma, fa, viaSysvar);
    if action.Some? {
      var k := accts[0].key;
      assert Enabled(env, l, action.value) <==> Fresh(env, l, k, MINT_LEN);
      if Owned(env, l, k) {
        InitMintOwned(env, l, accts, decimals, ma, fa, viaSysvar);
        OneWrite(env, l, k, MintData(Mint(Some(ma), 0, decimals, true, fa)));
      } else {
        InitMintForeign(env, l, accts, decimals, ma, fa, viaSysvar);
      }
    }
  }

  lemma InitAccountOwned(env: Env, l: Ledger, accts: seq<Meta>, owner: Option<Pubkey>, viaSysvar: bool)
    requires Inv(env, l) && Present(l, accts) && InitAccountAction(env, accts, owner, viaSysvar).Some?
    requires Owned(env, l, accts[0].key)
    ensures var r := ProcessInitializeAccount(env, l, accts, owner, viaSysvar);
      var act := InitAccountAction(env, accts, owner, viaSysvar).value;
      && (r.Ok? <==> CanInitAccount(env, l, act.k, act.mint))
      && (r.Ok? ==> r.value == WithData(l, act.k, AccountData(NewAccount(env, l, act.k, act.mint, act.owner))))
  {
    if !l[accts[0].key].data.IsInitialized() {
      UninitializedIsZero(env, l, accts[0].key);
    }
  }

  lemma InitAccountForeign(env: Env, l: Ledger, accts: seq<Meta>, owner: Option<Pubkey>, viaSysvar: bool)
    requires Present(l, accts) && InitAccountAction(env, accts, owner, viaSysvar).Some?
    requires !Owned(env, l, accts[0].key)
    ensures var r := ProcessInitializeAccount(env, l, accts, owner, viaSysvar); r.Ok? ==> !Admissible(env, l, r.value)
  {
    var r := ProcessInitializeAccount(env, l, accts, owner, viaSysvar);
    if r.Ok? {
      UpdateForeign(env, l, accts[0].key, r.value[accts[0].key]);
    }
  }

  lemma ExactInitAccount(env: Env, l: Ledger, accts: seq<Meta>, owner: Option<Pubkey>, viaSysvar: bool)
    requires Inv(env, l) && Present(l, accts)
    ensures Strict(env, l, ProcessInitializeAccount(env, l, accts, owner, viaSysvar),
                  InitAccountAction(env, accts, owner, viaSysvar))
  {
    var action := InitAccountAction(env, accts, owner, viaSysvar);
    if action.Some? {
      var act := action.value;
      assert Enabled(env, l, act) <==> CanInitAccount(env, l, act.k, act.mint);
      if Owned(env, l, act.k) {
        InitAccountOwned(env, l, accts, owner, viaSysvar);
        if Enabled(env, l, act) {
          OneWrite(env, l, act.k, AccountData(NewAccount(env, l, act.k, act.mint, act.owner)));
        }
      } else {
        InitAccountForeign(env, l, accts, owner, viaSysvar);
      }
    }
  }

  /** An empty signer array filled from the front. */
  lemma FilledSigners(keys: seq<Pubkey>)
    requires |keys| <= 11
    ensures keys + EMPTY_MULTISIG.signers[|keys|..] == keys + seq(11 - |keys|, i => ZERO_KEY)
  {
  }

  lemma InitMultisigOwned(env: Env, l: Ledger, accts: seq<Meta>, m: u8, viaSysvar: bool)
    requires Inv(env, l) && Present(l, accts) && InitMultisigAction(env, accts, m, viaSysvar).Some?
    requires Owned(env, l, accts[0].key)
    ensures var r := ProcessInitializeMultisig(env, l, accts, m, viaSysvar);
      var act := InitMultisigAction(env, accts, m, viaSysvar).value;
      && (r.Ok? <==> CanInitMultisig(env, l, act.k, m, act.keys))
      && (r.Ok? ==> r.value == WithData(l, act.k, MultisigData(NewMultisig(m, act.keys))))
  {
    var act := InitMultisigAction(env, accts, m, viaSysvar).value;
    if !l[act.k].data.IsInitialized() {
      UninitializedIsZero(env, l, act.k);
      if |act.keys| <= 11 {
        FilledSigners(act.keys);
      }
    }
  }

  lemma InitMultisigForeign(env: Env, l: Ledger, accts: seq<Meta>, m: u8, viaSysvar: bool)
    requires Present(l, accts) && InitMultisigAction(env, accts, m, viaSysvar).Some?
    requires !Owned(env, l, accts[0].key)
    ensures var r := ProcessInitializeMultisig(env, l, accts, m, viaSysvar); r.Ok? ==> !Admissible(env, l, r.value)
  {
    var r := ProcessInitializeMultisig(env, l, accts, m, viaSysvar);
    if r.Ok? {
      UpdateForeign(env, l, accts[0].key, r.value[accts[0].key]);
    }
  }

  lemma ExactInitMultisig(env: Env, l: Ledger, accts: seq<Meta>, m: u8, viaSysvar: bool)
    requires Inv(env, l) && Present(l, accts)
    ensures Strict(env, l, ProcessInitializeMultisig(env, l, accts, m, viaSysvar),
                  InitMultisigAction(env, accts, m, viaSysvar))
  {
    var action := InitMultisigAction(env, accts, m, viaSysvar);
    if action.Some? {
      var act := action.value;
      assert Enabled(env, l, act) <==> CanInitMultisig(env, l, act.k, m, act.keys);
      if Owned(env, l, act.k) {
        InitMultisigOwned(env, l, accts, m, viaSysvar);
        if Enabled(env, l, act) {
          OneWrite(env, l, act.k, MultisigData(NewMultisig(m, act.keys)));
        }
      } else {
        InitMultisigForeign(env, l, accts, m, viaSysvar);
      }
    }
  }

  // ---- Transfer, mint, burn ----

  /** Allowance checks and updates, on either side. */
  lemma SpendAgrees(env: Env, l: Ledger, a: Account, auth: Meta, signers: seq<Meta>, amount: u64, keep: bool)
    requires auth.key in l && amount <= a.amount
    ensures Spend(env, l, a, auth, signers, amount, keep).Ok? <==> MaySpend(env, l, a, auth, signers, amount)
    ensures MaySpend(env, l, a, auth, signers, amount) ==>
      var r := Spend(env, l, a, auth, signers, amount, keep).value;
      if keep then r == a else r.(amount := a.amount - amount) == Debited(a, ByDelegate(a, auth), amount)
  {
  }

  /** The amount a transfer adds fits, and so do the lamports that go along with it. */
  lemma MoveFits(env: Env, l: Ledger, s: Pubkey, d: Pubkey, amount: u64)
    requires Inv(env, l) && TokenAt(env, l, s) && TokenAt(env, l, d) && s != d
    requires TokenOf(l, s).mint == TokenOf(l, d).mint && amount <= TokenOf(l, s).amount
    ensures TokenOf(l, d).amount + amount < U64_LIMIT
    ensures TokenOf(l, s).IsNative() ==> amount <= l[s].lamports && l[d].lamports + amount < U64_LIMIT
  {
    AddsFit(env, l, s, d);
    LamportsAddFit(env, l, s, d);
    assert CellOk(env, l, l[s]);
  }

  lemma TransferSelf(env: Env, l: Ledger, s: Pubkey, auth: Meta, signers: seq<Meta>, amount: u64,
                     check: Option<MintCheck>)
    requires Owned(env, l, s) && auth.key in l && CheckPresent(l, check)
    ensures var r := TransferBetween(env, l, s, s, auth, signers, amount, check);
      && (r.Ok? <==> CanMove(env, l, s, s, auth, signers, amount, check))
      && (r.Ok? ==> r.value == l)
  {
    if TokenAt(env, l, s) && amount <= TokenOf(l, s).amount {
      SpendAgrees(env, l, TokenOf(l, s), auth, signers, amount, true);
    }
  }

  lemma TransferGranted(env: Env, l: Ledger, s: Pubkey, d: Pubkey, auth: Meta, signers: seq<Meta>, amount: u64,
                        check: Option<MintCheck>)
    requires Inv(env, l) && Owned(env, l, s) && Owned(env, l, d) && s != d
    requires auth.key in l && CheckPresent(l, check) && CanMove(env, l, s, d, auth, signers, amount, check)
    ensures TransferBetween(env, l, s, d, auth, signers, amount, check)
      == Ok(Moved(l, s, d, ByDelegate(TokenOf(l, s), auth), amount))
  {
    SpendAgrees(env, l, TokenOf(l, s), auth, signers, amount, false);
    MoveFits(env, l, s, d, amount);
  }

  lemma TransferOnlyIf(env: Env, l: Ledger, s: Pubkey, d: Pubkey, auth: Meta, signers: seq<Meta>, amount: u64,
                       check: Option<MintCheck>)
    requires Owned(env, l, s) && Owned(env, l, d) && auth.key in l && CheckPresent(l, check)
    requires TransferBetween(env, l, s, d, auth, signers, amount, check).Ok?
    ensures CanMove(env, l, s, d, auth, signers, amount, check)
  {
    SpendAgrees(env, l, TokenOf(l, s), auth, signers, amount, s == d);
  }

  /** A transfer that wrote to someone else's account is thrown away by the host, or refused. */
  lemma TransferForeign(env: Env, l: Ledger, s: Pubkey, d: Pubkey, auth: Meta, signers: seq<Meta>, amount: u64,
                        check: Option<MintCheck>)
    requires s in l && d in l && auth.key in l && CheckPresent(l, check)
    requires !Owned(env, l, s) || !Owned(env, l, d)
    ensures var r := TransferBetween(env, l, s, d, auth, signers, amount, check);
      r.Ok? ==> !Admissible(env, l, r.value)
  {
    var r := TransferBetween(env, l, s, d, auth, signers, amount, check);
    if r.Ok? {
      assert s != d && amount != 0;
      assert r.value[s].data.account.amount != l[s].data.account.amount;
      assert r.value[d].data.account.amount != l[d].data.account.amount;
    }
  }

  lemma MovedIsAdmissible(env: Env, l: Ledger, s: Pubkey, d: Pubkey, byDelegate: bool, amount: u64)
    requires TokenAt(env, l, s) && TokenAt(env, l, d)
    requires amount <= TokenOf(l, s).amount && (byDelegate ==> amount <= TokenOf(l, s).delegatedAmount)
    ensures Admissible(env, l, Moved(l, s, d, byDelegate, amount))
  {
    assert Moved(l, s, d, byDelegate, amount).Keys == l.Keys;
  }

  lemma ExactTransfer(env: Env, l: Ledger, s: Pubkey, d: Pubkey, auth: Meta, signers: seq<Meta>, amount: u64,
                      check: Option<MintCheck>)
    requires Inv(env, l) && s in l && d in l && auth.key in l && CheckPresent(l, check)
    ensures Strict(env, l, TransferBetween(env, l, s, d, auth, signers, amount, check),
                  Some(Move(s, d, auth, signers, amount, check)))
  {
    if Owned(env, l, s) && Owned(env, l, d) {
      if TransferBetween(env, l, s, d, auth, signers, amount, check).Ok? {
        TransferOnlyIf(env, l, s, d, auth, signers, amount, check);
      }
      if CanMove(env, l, s, d, auth, signers, amount, check) {
        if s == d {
          TransferSelf(env, l, s, auth, signers, amount, check);
        } else {
          TransferGranted(env, l, s, d, auth, signers, amount, check);
        }
        MovedIsAdmissible(env, l, s, d, ByDelegate(TokenOf(l, s), auth), amount);
      }
    } else {
      TransferForeign(env, l, s, d, auth, signers, amount, check);
    }
  }

  lemma MintToGranted(env: Env, l: Ledger, accts: seq<Meta>, amount: u64, expected: Option<u8>)
    requires Inv(env, l) && Present(l, accts) && 3 <= |accts|
    requires CanIssue(env, l, accts[0].key, accts[1].key, accts[2], accts[3..], amount, expected)
    ensures ProcessMintTo(env, l, accts, amount, expected) == Ok(Issued(l, accts[0].key, accts[1].key, amount))
  {
    HeldInSupply(env, l, accts[1].key);
  }

  lemma MintToOnlyIf(env: Env, l: Ledger, accts: seq<Meta>, amount: u64, expected: Option<u8>)
    requires Present(l, accts) && ProcessMintTo(env, l, accts, amount, expected).Ok?
    requires Admissible(env, l, ProcessMintTo(env, l, accts, amount, expected).value)
    ensures CanIssue(env, l, accts[0].key, accts[1].key, accts[2], accts[3..], amount, expected)
  {
    var r, k, d := ProcessMintTo(env, l, accts, amount, expected).value, accts[0].key, accts[1].key;
    if amount != 0 {
      assert r[k].data.mint.supply != l[k].data.mint.supply;
      assert r[d].data.account.amount != l[d].data.account.amount;
    }
  }

  lemma BurnGranted(env: Env, l: Ledger, accts: seq<Meta>, amount: u64, expected: Option<u8>)
    requires Inv(env, l) && Present(l, accts) && 3 <= |accts|
    requires CanDestroy(env, l, accts[0].key, accts[1].key, accts[2], accts[3..], amount, expected)
    ensures ProcessBurn(env, l, accts, amount, expected) ==
      Ok(Destroyed(l, accts[0].key, accts[1].key, DestroysByDelegate(env, TokenOf(l, accts[0].key), accts[2]), amount))
  {
    HeldInSupply(env, l, accts[0].key);
    SpendAgrees(env, l, TokenOf(l, accts[0].key), accts[2], accts[3..], amount, false);
  }

  lemma BurnOnlyIf(env: Env, l: Ledger, accts: seq<Meta>, amount: u64, expected: Option<u8>)
    requires Present(l, accts) && ProcessBurn(env, l, accts, amount, expected).Ok?
    requires Admissible(env, l, ProcessBurn(env, l, accts, amount, expected).value)
    ensures CanDestroy(env, l, accts[0].key, accts[1].key, accts[2], accts[3..], amount, expected)
  {
    var r, s, k := ProcessBurn(env, l, accts, amount, expected).value, accts[0].key, accts[1].key;
    SpendAgrees(env, l, TokenOf(l, s), accts[2], accts[3..], amount, false);
    if amount != 0 {
      assert r[k].data.mint.supply != l[k].data.mint.supply;
      assert r[s].data.account.amount != l[s].data.account.amount;
    }
  }

  // ---- One-record writes ----

  lemma ExactApprove(env: Env, l: Ledger, k: Pubkey, delegate: Pubkey, auth: Meta, signers: seq<Meta>, amount: u64,
                     check: Option<MintCheck>)
    requires k in l && auth.key in l && CheckPresent(l, check)
    ensures Exact(env, l, ApproveDelegate(env, l, k, delegate, auth, signers, amount, check),
                  Some(SetDelegate(k, auth, signers, Some(Grant(delegate, amount)), check)))
  {
    if l[k].data.AccountData? {
      OneWrite(env, l, k, AccountData(TokenOf(l, k).(delegate := Some(delegate), delegatedAmount := amount)));
    }
  }

  lemma ExactRevoke(env: Env, l: Ledger, accts: seq<Meta>)
    requires Present(l, accts) && 2 <= |accts|
    ensures Exact(env, l, ProcessRevoke(env, l, accts),
                  Some(SetDelegate(accts[0].key, accts[1], accts[2..], None, None)))
  {
    var k := accts[0].key;
    if l[k].data.AccountData? {
      OneWrite(env, l, k, AccountData(TokenOf(l, k).(delegate := None, delegatedAmount := 0)));
    }
  }

  lemma ExactSetOwner(env: Env, l: Ledger, accts: seq<Meta>, authority: Option<Pubkey>)
    requires Present(l, accts) && 2 <= |accts| && l[accts[0].key].data.AccountData?
    ensures Exact(env, l, ProcessSetAuthority(env, l, accts, AccountOwner, authority),
                  SetAuthorityAction(accts, AccountOwner, authority))
  {
    if authority.Some? {
      OneWrite(env, l, accts[0].key, AccountData(Reowned(TokenOf(l, accts[0].key), authority.value)));
    }
  }

  lemma ExactSetCloser(env: Env, l: Ledger, accts: seq<Meta>, authority: Option<Pubkey>)
    requires Present(l, accts) && 2 <= |accts| && l[accts[0].key].data.AccountData?
    ensures Exact(env, l, ProcessSetAuthority(env, l, accts, CloseAccount, authority),
                  SetAuthorityAction(accts, CloseAccount, authority))
  {
    OneWrite(env, l, accts[0].key, AccountData(TokenOf(l, accts[0].key).(closeAuthority := authority)));
  }

  lemma ExactSetAccountAuthority(env: Env, l: Ledger, accts: seq<Meta>, authorityType: AuthorityType,
                                 authority: Option<Pubkey>)
    requires Present(l, accts) && 2 <= |accts| && l[accts[0].key].data.AccountData?
    ensures Exact(env, l, ProcessSetAuthority(env, l, accts, authorityType, authority),
                  SetAuthorityAction(accts, authorityType, authority))
  {
    match authorityType
    case AccountOwner => ExactSetOwner(env, l, accts, authority);
    case CloseAccount => ExactSetCloser(env, l, accts, authority);
    case _ =>
  }

  lemma ExactSetMinter(env: Env, l: Ledger, accts: seq<Meta>, authority: Option<Pubkey>)
    requires Present(l, accts) && 2 <= |accts| && l[accts[0].key].data.MintData?
    ensures Exact(env, l, ProcessSetAuthority(env, l, accts, MintTokens, authority),
                  SetAuthorityAction(accts, MintTokens, authority))
  {
    OneWrite(env, l, accts[0].key, MintData(MintOf(l, accts[0].key).(mintAuthority := authority)));
  }

  lemma ExactSetFreezer(env: Env, l: Ledger, accts: seq<Meta>, authority: Option<Pubkey>)
    requires Present(l, accts) && 2 <= |accts| && l[accts[0].key].data.MintData?
    ensures Exact(env, l, ProcessSetAuthority(env, l, accts, FreezeAccount, authority),
                  SetAuthorityAction(accts, FreezeAccount, authority))
  {
    OneWrite(env, l, accts[0].key, MintData(MintOf(l, accts[0].key).(freezeAuthority := authority)));
  }

  lemma ExactSetMintAuthority(env: Env, l: Ledger, accts: seq<Meta>, authorityType: AuthorityType,
                              authority: Option<Pubkey>)
    requires Present(l, accts) && 2 <= |accts| && l[accts[0].key].data.MintData?
    ensures Exact(env, l, ProcessSetAuthority(env, l, accts, authorityType, authority),
                  SetAuthorityAction(accts, authorityType, authority))
  {
    match authorityType
    case MintTokens => ExactSetMinter(env, l, accts, authority);
    case FreezeAccount => ExactSetFreezer(env, l, accts, authority);
    case _ =>
  }

  lemma ExactSetAuthority(env: Env, l: Ledger, accts: seq<Meta>, authorityType: AuthorityType,
                          authority: Option<Pubkey>)
    requires Present(l, accts)
    ensures Exact(env, l, ProcessSetAuthority(env, l, accts, authorityType, authority),
                  SetAuthorityAction(accts, authorityType, authority))
  {
    if 2 <= |accts| {
      match l[accts[0].key].data
      case AccountData(_) => ExactSetAccountAuthority(env, l, accts, authorityType, authority);
      case MintData(_) => ExactSetMintAuthority(env, l, accts, authorityType, authority);
      case _ =>
    }
  }

  lemma ToggleGranted(env: Env, l: Ledger, accts: seq<Meta>, freeze: bool)
    requires Present(l, accts) && 3 <= |accts|
    requires CanSetFrozen(env, l, accts[0].key, accts[1].key, accts[2], accts[3..], freeze)
    ensures var k := accts[0].key;
      ProcessToggleFreeze(env, l, accts, freeze)
      == Ok(WithData(l, k, AccountData(TokenOf(l, k).(state := if freeze then Frozen else Initialized))))
  {
  }

  /** Freezing does not look at the mint's owner; the invariant makes the mint genuine anyway. */
  lemma ToggleOnlyIf(env: Env, l: Ledger, accts: seq<Meta>, freeze: bool)
    requires Inv(env, l) && Present(l, accts) && ProcessToggleFreeze(env, l, accts, freeze).Ok?
    requires Admissible(env, l, ProcessToggleFreeze(env, l, accts, freeze).value)
    ensures CanSetFrozen(env, l, accts[0].key, accts[1].key, accts[2], accts[3..], freeze)
  {
    var k := accts[0].key;
    OneWrite(env, l, k, ProcessToggleFreeze(env, l, accts, freeze).value[k].data);
    assert CellOk(env, l, l[k]);
  }

  lemma ToggleTaken(env: Env, l: Ledger, accts: seq<Meta>, freeze: bool)
    requires Present(l, accts) && 3 <= |accts|
    requires CanSetFrozen(env, l, accts[0].key, accts[1].key, accts[2], accts[3..], freeze)
    ensures var k := accts[0].key;
      var after := WithData(l, k, AccountData(TokenOf(l, k).(state := if freeze then Frozen else Initialized)));
      ProcessToggleFreeze(env, l, accts, freeze) == Ok(after) && Admissible(env, l, after)
  {
    var k := accts[0].key;
    ToggleGranted(env, l, accts, freeze);
    OneWrite(env, l, k, AccountData(TokenOf(l, k).(state := if freeze then Frozen else Initialized)));
  }

  lemma ToggleRefused(env: Env, l: Ledger, accts: seq<Meta>, freeze: bool)
    requires Inv(env, l) && Present(l, accts) && 3 <= |accts|
    requires !CanSetFrozen(env, l, accts[0].key, accts[1].key, accts[2], accts[3..], freeze)
    ensures var r := ProcessToggleFreeze(env, l, accts, freeze); r.Ok? ==> !Admissible(env, l, r.value)
  {
    var r := ProcessToggleFreeze(env, l, accts, freeze);
    if r.Ok? && Admissible(env, l, r.value) {
      ToggleOnlyIf(env, l, accts, freeze);
    }
  }

  lemma ExactToggleFreeze(env: Env, l: Ledger, accts: seq<Meta>, freeze: bool)
    requires Inv(env, l) && Present(l, accts) && 3 <= |accts|
    ensures Strict(env, l, ProcessToggleFreeze(env, l, accts, freeze),
                  Some(SetFrozen(accts[0].key, accts[1].key, accts[2], accts[3..], freeze)))
  {
    var act := SetFrozen(accts[0].key, accts[1].key, accts[2], accts[3..], freeze);
    assert Enabled(env, l, act) <==> CanSetFrozen(env, l, act.k, act.mint, act.auth, act.signers, freeze);
    if Enabled(env, l, act) {
      ToggleTaken(env, l, accts, freeze);
    } else {
      ToggleRefused(env, l, accts, freeze);
    }
  }

  lemma SyncTaken(env: Env, l: Ledger, accts: seq<Meta>)
    requires Inv(env, l) && Present(l, accts) && 1 <= |accts| && CanSync(env, l, accts[0].key)
    ensures var after := Synced(l, accts[0].key);
      ProcessSyncNative(env, l, accts) == Ok(after) && Admissible(env, l, after)
  {
    var k := accts[0].key;
    assert CellOk(env, l, l[k]);
    OneWrite(env, l, k, AccountData(TokenOf(l, k).(amount := l[k].lamports - env.minimumBalance(ACCOUNT_LEN))));
  }

  lemma SyncRefused(env: Env, l: Ledger, accts: seq<Meta>)
    requires Present(l, accts) && 1 <= |accts| && !CanSync(env, l, accts[0].key)
    ensures ProcessSyncNative(env, l, accts).Err?
  {
  }

  lemma ExactSync(env: Env, l: Ledger, accts: seq<Meta>)
    requires Inv(env, l) && Present(l, accts) && 1 <= |accts|
    ensures Strict(env, l, ProcessSyncNative(env, l, accts), Some(Sync(accts[0].key)))
  {
    assert Enabled(env, l, Sync(accts[0].key)) <==> CanSync(env, l, accts[0].key);
    if Enabled(env, l, Sync(accts[0].key)) {
      SyncTaken(env, l, accts);
    } else {
      SyncRefused(env, l, accts);
    }
  }

  lemma ClosedIsAdmissible(env: Env, l: Ledger, s: Pubkey, d: Pubkey)
    requires Inv(env, l) && TokenAt(env, l, s) && d in l && s != d
    ensures Admissible(env, l, Closed(env, l, s, d))
  {
    LamportsAddFit(env, l, s, d);
    UpdateTwo(env, l, d, l[d].(lamports := l[d].lamports + l[s].lamports), s, Cell(0, env.systemProgram, Opaque([])));
  }

  lemma CloseGranted(env: Env, l: Ledger, accts: seq<Meta>)
    requires Inv(env, l) && Present(l, accts) && 3 <= |accts|
    requires CanClose(env, l, accts[0].key, accts[1].key, accts[2], accts[3..])
    ensures ProcessCloseAccount(env, l, accts) == Ok(Closed(env, l, accts[0].key, accts[1].key))
    ensures Admissible(env, l, Closed(env, l, accts[0].key, accts[1].key))
  {
    LamportsAddFit(env, l, accts[0].key, accts[1].key);
    ClosedIsAdmissible(env, l, accts[0].key, accts[1].key);
  }

  lemma CloseOnlyIf(env: Env, l: Ledger, accts: seq<Meta>)
    requires Present(l, accts) && ProcessCloseAccount(env, l, accts).Ok?
    requires Admissible(env, l, ProcessCloseAccount(env, l, accts).value)
    ensures CanClose(env, l, accts[0].key, accts[1].key, accts[2], accts[3..])
  {
    var s := accts[0].key;
    assert ProcessCloseAccount(env, l, accts).value[s].data != l[s].data;
  }

  lemma CloseRefused(env: Env, l: Ledger, accts: seq<Meta>)
    requires Present(l, accts) && 3 <= |accts|
    requires !CanClose(env, l, accts[0].key, accts[1].key, accts[2], accts[3..])
    ensures var r := ProcessCloseAccount(env, l, accts); r.Ok? ==> !Admissible(env, l, r.value)
  {
    var r := ProcessCloseAccount(env, l, accts);
    if r.Ok? && Admissible(env, l, r.value) {
      CloseOnlyIf(env, l, accts);
    }
  }

  lemma CloseTakenIff(env: Env, l: Ledger, accts: seq<Meta>, after: Ledger)
    requires Inv(env, l) && Present(l, accts) && 3 <= |accts|
    ensures ProcessCloseAccount(env, l, accts) == Ok(after) && Admissible(env, l, after) <==>
      && CanClose(env, l, accts[0].key, accts[1].key, accts[2], accts[3..])
      && after == Closed(env, l, accts[0].key, accts[1].key)
  {
    if CanClose(env, l, accts[0].key, accts[1].key, accts[2], accts[3..]) {
      CloseGranted(env, l, accts);
    } else {
      CloseRefused(env, l, accts);
    }
  }

  lemma ExactClose(env: Env, l: Ledger, accts: seq<Meta>)
    requires Inv(env, l) && Present(l, accts) && 3 <= |accts|
    ensures Strict(env, l, ProcessCloseAccount(env, l, accts),
                   Some(Close(accts[0].key, accts[1].key, accts[2], accts[3..])))
  {
    var act := Close(accts[0].key, accts[1].key, accts[2], accts[3..]);
    assert Enabled(env, l, act) <==> CanClose(env, l, act.s, act.d, act.auth, act.signers);
    if Enabled(env, l, act) {
      CloseGranted(env, l, accts);
    } else {
      CloseRefused(env, l, accts);
    }
  }

  lemma IssuedIsAdmissible(env: Env, l: Ledger, mint: Pubkey, d: Pubkey, amount: u64)
    requires MintAt(env, l, mint) && TokenAt(env, l, d)
    ensures Admissible(env, l, Issued(l, mint, d, amount))
  {
    assert Issued(l, mint, d, amount).Keys == l.Keys;
  }

  lemma MintToTaken(env: Env, l: Ledger, accts: seq<Meta>, amount: u64, expected: Option<u8>)
    requires Inv(env, l) && Present(l, accts) && 3 <= |accts|
    requires CanIssue(env, l, accts[0].key, accts[1].key, accts[2], accts[3..], amount, expected)
    ensures var after := Issued(l, accts[0].key, accts[1].key, amount);
      ProcessMintTo(env, l, accts, amount, expected) == Ok(after) && Admissible(env, l, after)
  {
    MintToGranted(env, l, accts, amount, expected);
    IssuedIsAdmissible(env, l, accts[0].key, accts[1].key, amount);
  }

  lemma MintToRefused(env: Env, l: Ledger, accts: seq<Meta>, amount: u64, expected: Option<u8>)
    requires Present(l, accts) && 3 <= |accts|
    requires !CanIssue(env, l, accts[0].key, accts[1].key, accts[2], accts[3..], amount, expected)
    ensures var r := ProcessMintTo(env, l, accts, amount, expected); r.Ok? ==> !Admissible(env, l, r.value)
  {
    var r := ProcessMintTo(env, l, accts, amount, expected);
    if r.Ok? && Admissible(env, l, r.value) {
      MintToOnlyIf(env, l, accts, amount, expected);
    }
  }

  lemma ExactMintTo(env: Env, l: Ledger, accts: seq<Meta>, amount: u64, expected: Option<u8>)
    requires Inv(env, l) && Present(l, accts) && 3 <= |accts|
    ensures Strict(env, l, ProcessMintTo(env, l, accts, amount, expected),
                  Some(Issue(accts[0].key, accts[1].key, accts[2], accts[3..], amount, expected)))
  {
    var act := Issue(accts[0].key, accts[1].key, accts[2], accts[3..], amount, expected);
    assert Enabled(env, l, act) <==> CanIssue(env, l, act.mint, act.d, act.auth, act.signers, amount, expected);
    if Enabled(env, l, act) {
      MintToTaken(env, l, accts, amount, expected);
    } else {
      MintToRefused(env, l, accts, amount, expected);
    }
  }

  lemma DestroyedIsAdmissible(env: Env, l: Ledger, s: Pubkey, mint: Pubkey, byDelegate: bool, amount: u64)
    requires MintAt(env, l, mint) && TokenAt(env, l, s)
    requires amount <= TokenOf(l, s).amount && (byDelegate ==> amount <= TokenOf(l, s).delegatedAmount)
    ensures Admissible(env, l, Destroyed(l, s, mint, byDelegate, amount))
  {
    assert Destroyed(l, s, mint, byDelegate, amount).Keys == l.Keys;
  }

  lemma BurnTaken(env: Env, l: Ledger, accts: seq<Meta>, amount: u64, expected: Option<u8>)
    requires Inv(env, l) && Present(l, accts) && 3 <= |accts|
    requires CanDestroy(env, l, accts[0].key, accts[1].key, accts[2], accts[3..], amount, expected)
    ensures var after := Destroyed(l, accts[0].key, accts[1].key,
                                   DestroysByDelegate(env, TokenOf(l, accts[0].key), accts[2]), amount);
      ProcessBurn(env, l, accts, amount, expected) == Ok(after) && Admissible(env, l, after)
  {
    BurnGranted(env, l, accts, amount, expected);
    DestroyedIsAdmissible(env, l, accts[0].key, accts[1].key,
                          DestroysByDelegate(env, TokenOf(l, accts[0].key), accts[2]), amount);
  }

  lemma BurnRefused(env: Env, l: Ledger, accts: seq<Meta>, amount: u64, expected: Option<u8>)
    requires Present(l, accts) && 3 <= |accts|
    requires !CanDestroy(env, l, accts[0].key, accts[1].key, accts[2], accts[3..], amount, expected)
    ensures var r := ProcessBurn(env, l, accts, amount, expected); r.Ok? ==> !Admissible(env, l, r.value)
  {
    var r := ProcessBurn(env, l, accts, amount, expected);
    if r.Ok? && Admissible(env, l, r.value) {
      BurnOnlyIf(env, l, accts, amount, expected);
    }
  }

  lemma ExactBurn(env: Env, l: Ledger, accts: seq<Meta>, amount: u64, expected: Option<u8>)
    requires Inv(env, l) && Present(l, accts) && 3 <= |accts|
    ensures Strict(env, l, ProcessBurn(env, l, accts, amount, expected),
                  Some(Destroy(accts[0].key, accts[1].key, accts[2], accts[3..], amount, expected)))
  {
    var act := Destroy(accts[0].key, accts[1].key, accts[2], accts[3..], amount, expected);
    assert Enabled(env, l, act) <==> CanDestroy(env, l, act.s, act.mint, act.auth, act.signers, amount, expected);
    if Enabled(env, l, act) {
      BurnTaken(env, l, accts, amount, expected);
    } else {
      BurnRefused(env, l, accts, amount, expected);
    }
  }

  // ---- All twenty-five instructions ----

  lemma TransferPicks(env: Env, l: Ledger, accts: seq<Meta>, amount: u64, expected: Option<u8>)
    requires Present(l, accts) && MoveAction(accts, amount, expected).Some?
    ensures var act := MoveAction(accts, amount, expected).value;
      && act == Move(act.s, act.d, act.auth, act.signers, amount, act.check)
      && act.s in l && act.d in l && act.auth.key in l && CheckPresent(l, act.check)
      && ProcessTransfer(env, l, accts, amount, expected)
         == TransferBetween(env, l, act.s, act.d, act.auth, act.signers, amount, act.check)
  {
  }

  lemma ExactTransferList(env: Env, l: Ledger, accts: seq<Meta>, amount: u64, expected: Option<u8>)
    requires Inv(env, l) && Present(l, accts)
    ensures Strict(env, l, ProcessTransfer(env, l, accts, amount, expected), MoveAction(accts, amount, expected))
  {
    var action := MoveAction(accts, amount, expected);
    if action.Some? {
      var act := action.value;
      TransferPicks(env, l, accts, amount, expected);
      ExactTransfer(env, l, act.s, act.d, act.auth, act.signers, amount, act.check);
      assert action == Some(Move(act.s, act.d, act.auth, act.signers, amount, act.check));
    }
  }

  lemma ExactApproveList(env: Env, l: Ledger, accts: seq<Meta>, amount: u64, expected: Option<u8>)
    requires Present(l, accts)
    ensures Exact(env, l, ProcessApprove(env, l, accts, amount, expected), ApproveAction(accts, amount, expected))
  {
    var act := ApproveAction(accts, amount, expected);
    if act.Some? {
      ExactApprove(env, l, act.value.k, act.value.grant.value.delegate, act.value.auth, act.value.signers, amount,
                   act.value.check);
    }
  }

  lemma StrictIsExact(env: Env, l: Ledger, r: Result<Ledger>, act: Option<Action>)
    requires Strict(env, l, r, act) && (act.Some? ==> !Echoes(env, l, act.value))
    ensures Exact(env, l, r, act)
  {
  }

  // One arm for each procedure: what the dispatch calls, and what the instruction asks for.

  lemma InitMintArm(env: Env, l: Ledger, accts: seq<Meta>, ix: TokenInstruction)
    requires Inv(env, l) && Present(l, accts) && (ix.InitializeMint? || ix.InitializeMint2?)
    ensures Exact(env, l, Process(env, l, accts, ix), ActionOf(env, accts, ix))
  {
    var viaSysvar := ix.InitializeMint?;
    var act := InitMintAction(env, accts, ix.decimals, ix.mintAuthority, ix.freezeAuthority, viaSysvar);
    var r := ProcessInitializeMint(env, l, accts, ix.decimals, ix.mintAuthority, ix.freezeAuthority, viaSysvar);
    assert Process(env, l, accts, ix) == r && ActionOf(env, accts, ix) == act;
    ExactInitMint(env, l, accts, ix.decimals, ix.mintAuthority, ix.freezeAuthority, viaSysvar);
    StrictIsExact(env, l, r, act);
  }

  lemma InitAccountArm(env: Env, l: Ledger, accts: seq<Meta>, ix: TokenInstruction)
    requires Inv(env, l) && Present(l, accts)
    requires ix.InitializeAccount? || ix.InitializeAccount2? || ix.InitializeAccount3?
    ensures Exact(env, l, Process(env, l, accts, ix), ActionOf(env, accts, ix))
  {
    var owner := if ix.InitializeAccount? then None else Some(ix.owner);
    var viaSysvar := !ix.InitializeAccount3?;
    var act := InitAccountAction(env, accts, owner, viaSysvar);
    var r := ProcessInitializeAccount(env, l, accts, owner, viaSysvar);
    assert Process(env, l, accts, ix) == r && ActionOf(env, accts, ix) == act;
    ExactInitAccount(env, l, accts, owner, viaSysvar);
    StrictIsExact(env, l, r, act);
  }

  lemma InitMultisigArm(env: Env, l: Ledger, accts: seq<Meta>, ix: TokenInstruction)
    requires Inv(env, l) && Present(l, accts) && (ix.InitializeMultisig? || ix.InitializeMultisig2?)
    ensures Exact(env, l, Process(env, l, accts, ix), ActionOf(env, accts, ix))
  {
    var viaSysvar := ix.InitializeMultisig?;
    var act := InitMultisigAction(env, accts, ix.m, viaSysvar);
    var r := ProcessInitializeMultisig(env, l, accts, ix.m, viaSysvar);
    assert Process(env, l, accts, ix) == r && ActionOf(env, accts, ix) == act;
    ExactInitMultisig(env, l, accts, ix.m, viaSysvar);
    StrictIsExact(env, l, r, act);
  }

  /** The decimals a checked instruction insists on. */
  function Expected(ix: TokenInstruction): Option<u8> {
    match ix
    case TransferChecked(_, decimals) => Some(decimals)
    case ApproveChecked(_, decimals) => Some(decimals)
    case MintToChecked(_, decimals) => Some(decimals)
    case BurnChecked(_, decimals) => Some(decimals)
    case _ => None
  }

  lemma TransferArm(env: Env, l: Ledger, accts: seq<Meta>, ix: TokenInstruction)
    requires Inv(env, l) && Present(l, accts) && (ix.Transfer? || ix.TransferChecked?)
    ensures Exact(env, l, Process(env, l, accts, ix), ActionOf(env, accts, ix))
  {
    var act := MoveAction(accts, ix.amount, Expected(ix));
    var r := ProcessTransfer(env, l, accts, ix.amount, Expected(ix));
    assert Process(env, l, accts, ix) == r && ActionOf(env, accts, ix) == act;
    ExactTransferList(env, l, accts, ix.amount, Expected(ix));
    StrictIsExact(env, l, r, act);
  }

  lemma MintToArm(env: Env, l: Ledger, accts: seq<Meta>, ix: TokenInstruction)
    requires Inv(env, l) && Present(l, accts) && (ix.MintTo? || ix.MintToChecked?)
    ensures Exact(env, l, Process(env, l, accts, ix), ActionOf(env, accts, ix))
  {
    var r := ProcessMintTo(env, l, accts, ix.amount, Expected(ix));
    assert Process(env, l, accts, ix) == r;
    if 3 <= |accts| {
      var act := Some(Issue(accts[0].key, accts[1].key, accts[2], accts[3..], ix.amount, Expected(ix)));
      assert ActionOf(env, accts, ix) == act;
      ExactMintTo(env, l, accts, ix.amount, Expected(ix));
      StrictIsExact(env, l, r, act);
    }
  }

  lemma BurnArm(env: Env, l: Ledger, accts: seq<Meta>, ix: TokenInstruction)
    requires Inv(env, l) && Present(l, accts) && (ix.Burn? || ix.BurnChecked?)
    ensures Exact(env, l, Process(env, l, accts, ix), ActionOf(env, accts, ix))
  {
    var r := ProcessBurn(env, l, accts, ix.amount, Expected(ix));
    assert Process(env, l, accts, ix) == r;
    if 3 <= |accts| {
      var act := Some(Destroy(accts[0].key, accts[1].key, accts[2], accts[3..], ix.amount, Expected(ix)));
      assert ActionOf(env, accts, ix) == act;
      ExactBurn(env, l, accts, ix.amount, Expected(ix));
      StrictIsExact(env, l, r, act);
    }
  }

  lemma ApproveArm(env: Env, l: Ledger, accts: seq<Meta>, ix: TokenInstruction)
    requires Present(l, accts) && (ix.Approve? || ix.ApproveChecked?)
    ensures Exact(env, l, Process(env, l, accts, ix), ActionOf(env, accts, ix))
  {
    var act := ApproveAction(accts, ix.amount, Expected(ix));
    var r := ProcessApprove(env, l, accts, ix.amount, Expected(ix));
    assert Process(env, l, accts, ix) == r && ActionOf(env, accts, ix) == act;
    ExactApproveList(env, l, accts, ix.amount, Expected(ix));
  }

  lemma RevokeArm(env: Env, l: Ledger, accts: seq<Meta>, ix: TokenInstruction)
    requires Present(l, accts) && ix.Revoke?
    ensures Exact(env, l, Process(env, l, accts, ix), ActionOf(env, accts, ix))
  {
    var r := ProcessRevoke(env, l, accts);
    assert Process(env, l, accts, ix) == r;
    if 2 <= |accts| {
      assert ActionOf(env, accts, ix) == Some(SetDelegate(accts[0].key, accts[1], accts[2..], None, None));
      ExactRevoke(env, l, accts);
    }
  }

  lemma SetAuthorityArm(env: Env, l: Ledger, accts: seq<Meta>, ix: TokenInstruction)
    requires Present(l, accts) && ix.SetAuthority?
    ensures Exact(env, l, Process(env, l, accts, ix), ActionOf(env, accts, ix))
  {
    var act := SetAuthorityAction(accts, ix.authorityType, ix.newAuthority);
    var r := ProcessSetAuthority(env, l, accts, ix.authorityType, ix.newAuthority);
    assert Process(env, l, accts, ix) == r && ActionOf(env, accts, ix) == act;
    ExactSetAuthority(env, l, accts, ix.authorityType, ix.newAuthority);
  }

  lemma CloseArm(env: Env, l: Ledger, accts: seq<Meta>, ix: TokenInstruction)
    requires Inv(env, l) && Present(l, accts) && ix.CloseTokenAccount?
    ensures Exact(env, l, Process(env, l, accts, ix), ActionOf(env, accts, ix))
  {
    var r := ProcessCloseAccount(env, l, accts);
    assert Process(env, l, accts, ix) == r;
    if 3 <= |accts| {
      var act := Some(Close(accts[0].key, accts[1].key, accts[2], accts[3..]));
      assert ActionOf(env, accts, ix) == act;
      ExactClose(env, l, accts);
      StrictIsExact(env, l, r, act);
    }
  }

  lemma ToggleFreezeArm(env: Env, l: Ledger, accts: seq<Meta>, ix: TokenInstruction)
    requires Inv(env, l) && Present(l, accts) && (ix.FreezeTokenAccount? || ix.ThawAccount?)
    ensures Exact(env, l, Process(env, l, accts, ix), ActionOf(env, accts, ix))
  {
    var freeze := ix.FreezeTokenAccount?;
    var r := ProcessToggleFreeze(env, l, accts, freeze);
    assert Process(env, l, accts, ix) == r;
    if 3 <= |accts| {
      var act := Some(SetFrozen(accts[0].key, accts[1].key, accts[2], accts[3..], freeze));
      assert ActionOf(env, accts, ix) == act;
      ExactToggleFreeze(env, l, accts, freeze);
      StrictIsExact(env, l, r, act);
    }
  }

  lemma SyncArm(env: Env, l: Ledger, accts: seq<Meta>, ix: TokenInstruction)
    requires Inv(env, l) && Present(l, accts) && ix.SyncNative?
    ensures Exact(env, l, Process(env, l, accts, ix), ActionOf(env, accts, ix))
  {
    var r := ProcessSyncNative(env, l, accts);
    assert Process(env, l, accts, ix) == r;
    if 1 <= |accts| {
      var act := Some(Sync(accts[0].key));
      assert ActionOf(env, accts, ix) == act;
      ExactSync(env, l, accts);
      StrictIsExact(env, l, r, act);
    }
  }

  /** An instruction that writes nothing: it only has to agree on when it succeeds. */
  lemma ExactIdle(env: Env, l: Ledger, r: Result<Ledger>, act: Option<Action>)
    requires r.Ok? ==> r.value == l
    requires act.Some? ==> act.value.ReadMint? || act.value.ReadAmount? || act.value.CheckFresh?
    requires act.Some? && Enabled(env, l, act.value) <==> r.Ok?
    ensures Exact(env, l, r, act)
  {
    AdmitsItself(env, l);
  }

  lemma QueryMintIsMintAt(env: Env, l: Ledger, accts: seq<Meta>)
    requires Present(l, accts)
    ensures QueryMint(env, l, accts).Ok? <==> 1 <= |accts| && MintAt(env, l, accts[0].key)
    ensures QueryMint(env, l, accts).Ok? ==> QueryMint(env, l, accts).value == MintOf(l, accts[0].key)
  {
  }

  lemma QueryArm(env: Env, l: Ledger, accts: seq<Meta>, ix: TokenInstruction)
    requires Present(l, accts)
    requires ix.GetAccountDataSize? || ix.InitializeImmutableOwner? || ix.AmountToUiAmount? || ix.UiAmountToAmount?
    ensures Exact(env, l, Process(env, l, accts, ix), ActionOf(env, accts, ix))
  {
    QueryMintIsMintAt(env, l, accts);
    ExactIdle(env, l, Process(env, l, accts, ix), ActionOf(env, accts, ix));
  }

  /** Under the invariant every instruction commits exactly what its action is granted, or echoes. */
  lemma Exactness(env: Env, l: Ledger, accts: seq<Meta>, ix: TokenInstruction)
    requires Inv(env, l) && Present(l, accts)
    ensures Exact(env, l, Process(env, l, accts, ix), ActionOf(env, accts, ix))
  {
    match ix
    case InitializeMint(_, _, _) => InitMintArm(env, l, accts, ix);
    case InitializeMint2(_, _, _) => InitMintArm(env, l, accts, ix);
    case InitializeAccount => InitAccountArm(env, l, accts, ix);
    case InitializeAccount2(_) => InitAccountArm(env, l, accts, ix);
    case InitializeAccount3(_) => InitAccountArm(env, l, accts, ix);
    case InitializeMultisig(_) => InitMultisigArm(env, l, accts, ix);
    case InitializeMultisig2(_) => InitMultisigArm(env, l, accts, ix);
    case Transfer(_) => TransferArm(env, l, accts, ix);
    case TransferChecked(_, _) => TransferArm(env, l, accts, ix);
    case MintTo(_) => MintToArm(env, l, accts, ix);
    case MintToChecked(_, _) => MintToArm(env, l, accts, ix);
    case Burn(_) => BurnArm(env, l, accts, ix);
    case BurnChecked(_, _) => BurnArm(env, l, accts, ix);
    case Approve(_) => ApproveArm(env, l, accts, ix);
    case ApproveChecked(_, _) => ApproveArm(env, l, accts, ix);
    case Revoke => RevokeArm(env, l, accts, ix);
    case SetAuthority(_, _) => SetAuthorityArm(env, l, accts, ix);
    case CloseTokenAccount => CloseArm(env, l, accts, ix);
    case FreezeTokenAccount => ToggleFreezeArm(env, l, accts, ix);
    case ThawAccount => ToggleFreezeArm(env, l, accts, ix);
    case SyncNative => SyncArm(env, l, accts, ix);
    case _ => QueryArm(env, l, accts, ix);
  }

  lemma ExactCommits(env: Env, l: Ledger, r: Result<Ledger>, act: Option<Action>, after: Ledger)
    requires Exact(env, l, r, act)
    ensures r == Ok(after) && Admissible(env, l, after) <==>
      act.Some? && (Takes(env, l, act.value, after) || (Echoes(env, l, act.value) && after == l))
  {
    AdmitsItself(env, l);
  }

  /** Every committed step is a granted action or an echo, and every one of these commits. */
  lemma CommitsExactly(env: Env, l: Ledger, accts: seq<Meta>, ix: TokenInstruction, after: Ledger)
    requires Inv(env, l) && Present(l, accts)
    ensures var act := ActionOf(env, accts, ix);
      Commits(env, l, accts, ix, after) <==>
      act.Some? && (Takes(env, l, act.value, after) || (Echoes(env, l, act.value) && after == l))
  {
    Exactness(env, l, accts, ix);
    ExactCommits(env, l, Process(env, l, accts, ix), ActionOf(env, accts, ix), after);
  }

  /** So "what commits was granted" holds of an instruction exactly when it is no echo. */
  lemma OnlyGrantedCommitIff(env: Env, l: Ledger, accts: seq<Meta>, ix: TokenInstruction)
    requires Inv(env, l) && Present(l, accts)
    ensures var act := ActionOf(env, accts, ix);
      (forall after | Commits(env, l, accts, ix, after) :: act.Some? && Takes(env, l, act.value, after)) <==>
      !(act.Some? && Echoes(env, l, act.value))
  {
    var act := ActionOf(env, accts, ix);
    forall after ensures Commits(env, l, accts, ix, after) <==>
      act.Some? && (Takes(env, l, act.value, after) || (Echoes(env, l, act.value) && after == l))
    {
      CommitsExactly(env, l, accts, ix, after);
    }
    if act.Some? && Echoes(env, l, act.value) {
      EchoIsNotGranted(env, l, act.value);
      assert Commits(env, l, accts, ix, l);
    }
  }

  lemma EchoIsNotGranted(env: Env, l: Ledger, act: Action)
    requires Echoes(env, l, act)
    ensures !Enabled(env, l, act)
  {
  }

  /** Consequently one invocation is one protocol step. */
  lemma InvokeIsStep(env: Env, l: Ledger, accts: seq<Meta>, ix: TokenInstruction)
    requires Inv(env, l) && Present(l, accts)
    ensures var act := ActionOf(env, accts, ix);
      Invoke(env, l, accts, ix) == if act.Some? && Enabled(env, l, act.value) then Effect(env, l, act.value) else l
  {
    Exactness(env, l, accts, ix);
    ExactInvokes(env, l, Process(env, l, accts, ix), ActionOf(env, accts, ix));
  }

  lemma ExactInvokes(env: Env, l: Ledger, r: Result<Ledger>, act: Option<Action>)
    requires Exact(env, l, r, act)
    ensures (if r.Ok? && Admissible(env, l, r.value) then r.value else l)
         == if act.Some? && Enabled(env, l, act.value) then Effect(env, l, act.value) else l
  {
  }
}
