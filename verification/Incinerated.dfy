/** Ledgers that runs of the rewrite reach, and on which it and the processor part: an account made
    out to the incinerator, first empty, then with five tokens. */
module Incinerated {
  import opened Types
  import opened State
  import opened Instruction
  import opened Spec
  import opened Sums
  import opened Invariant
  import opened Actions
  import opened ZigSpec
  import opened Runs
  import opened ZigRefinement
  import opened Witness

  // ---- Reaching a ledger ----

  lemma {:induction false} ZigAfterAppend(env: Env, l: Ledger, run: seq<Event>, e: Event)
    ensures ZigAfter(env, l, run + [e]) == ZigNext(env, ZigAfter(env, l, run), e)
    decreases |run|
  {
    if |run| == 0 {
      assert run + [e] == [e];
      assert ZigAfter(env, ZigNext(env, l, e), []) == ZigNext(env, l, e);
    } else {
      assert (run + [e])[1..] == run[1..] + [e];
      ZigAfterAppend(env, ZigNext(env, l, run[0]), run[1..], e);
    }
  }

  lemma ZigReachesNext(env: Env, l: Ledger, accts: seq<Meta>, ix: TokenInstruction)
    requires ZigReachable(env, l) && RentSupplied(env, accts, ix)
    ensures ZigReachable(env, ZigInvoke(env, l, accts, ix))
  {
    var start: Ledger, run: seq<Event> :| Genesis(env, start) && ZigAfter(env, start, run) == l;
    ZigAfterAppend(env, start, run, Program(accts, ix));
    assert ZigAfter(env, start, run + [Program(accts, ix)]) == ZigInvoke(env, l, accts, ix);
  }

  function MintList(k: Pubkey, rent: Pubkey): seq<Meta> {
    [Meta(k, false), Meta(rent, false)]
  }

  lemma MintMade(env: Env, l: Ledger, k: Pubkey, rent: Pubkey, authority: Pubkey)
    requires Fresh(env, l, k, MINT_LEN) && rent in l && rent == env.rentSysvar
    ensures ZigInvoke(env, l, MintList(k, rent), InitializeMint(0, authority, None))
         == WithData(l, k, MintData(Mint(Some(authority), 0, 0, true, None)))
  {
  }

  function AccountList(k: Pubkey, mint: Pubkey, owner: Pubkey, rent: Pubkey): seq<Meta> {
    [Meta(k, false), Meta(mint, false), Meta(owner, false), Meta(rent, false)]
  }

  lemma AccountMade(env: Env, l: Ledger, k: Pubkey, mint: Pubkey, owner: Pubkey, rent: Pubkey)
    requires Fresh(env, l, k, ACCOUNT_LEN) && MintAt(env, l, mint) && mint != env.nativeMint
    requires owner in l && rent in l
    ensures ZigInvoke(env, l, AccountList(k, mint, owner, rent), InitializeAccount)
         == WithData(l, k, AccountData(Account(mint, owner, 0, None, Initialized, None, 0, None)))
  {
    var accts := AccountList(k, mint, owner, rent);
    assert Present(l, accts) && ZigInitializeAccount(env, l, accts).Ok?;
  }

  function IssueList(mint: Pubkey, d: Pubkey, authority: Pubkey): seq<Meta> {
    [Meta(mint, false), Meta(d, false), Meta(authority, true)]
  }

  lemma TokensMade(env: Env, l: Ledger, mint: Pubkey, d: Pubkey, authority: Pubkey, amount: u64)
    requires MintAt(env, l, mint) && MintOf(l, mint).mintAuthority == Some(authority) && MintOf(l, mint).supply == 0
    requires Unfrozen(env, l, d) && TokenOf(l, d).mint == mint && !TokenOf(l, d).IsNative() && TokenOf(l, d).amount == 0
    requires authority in l && l[authority].data.Len() != MULTISIG_LEN
    ensures ZigInvoke(env, l, IssueList(mint, d, authority), MintTo(amount))
         == WithData(WithData(l, mint, MintData(MintOf(l, mint).(supply := amount))), d,
                     AccountData(TokenOf(l, d).(amount := amount)))
  {
    var accts := IssueList(mint, d, authority);
    assert Present(l, accts) && ZigMintTo(env, l, accts, amount).Ok?;
  }

  // ---- The run ----

  /** A fresh mint 10 and a fresh account 11; the incinerator 3, the rent sysvar 4, a stranger 12 and
      the minter 13. */
  function Start(): Ledger {
    map[Key(3) := Wallet(1), Key(4) := Wallet(1), Key(12) := Wallet(1), Key(13) := Wallet(1)]
       [Key(10) := Cell(1, Key(1), ZeroData(MINT_LEN))]
       [Key(11) := Cell(1, Key(1), ZeroData(ACCOUNT_LEN))]
  }

  function MintOfSupply(supply: u64): Mint {
    Mint(Some(Key(13)), supply, 0, true, None)
  }

  function AshOfAmount(amount: u64): Account {
    Account(Key(10), Key(3), amount, None, Initialized, None, 0, None)
  }

  /** The mint is initialized. */
  function Minted(): Ledger {
    Start()[Key(10) := Cell(1, Key(1), MintData(MintOfSupply(0)))]
  }

  /** And the account, in the incinerator's name. */
  function Opened(): Ledger {
    Minted()[Key(11) := Cell(1, Key(1), AccountData(AshOfAmount(0)))]
  }

  /** And five tokens are minted to it. */
  function Filled(): Ledger {
    Opened()[Key(10) := Cell(1, Key(1), MintData(MintOfSupply(5)))]
            [Key(11) := Cell(1, Key(1), AccountData(AshOfAmount(5)))]
  }

  predicate Apart(k: Pubkey) {
    k != Key(10) && k != Key(11)
  }

  predicate HasWallet(l: Ledger, k: Pubkey) {
    k in l && l[k] == Wallet(1)
  }

  lemma StartKeys()
    ensures Key(10) != Key(11) && Key(10) != Key(2)
    ensures Apart(Key(3)) && Apart(Key(4)) && Apart(Key(12)) && Apart(Key(13))
  {
    KeysDiffer(10, 11);
    KeysDiffer(10, 2);
    KeysDiffer(10, 3);
    KeysDiffer(10, 4);
    KeysDiffer(10, 12);
    KeysDiffer(10, 13);
    KeysDiffer(11, 3);
    KeysDiffer(11, 4);
    KeysDiffer(11, 12);
    KeysDiffer(11, 13);
  }

  lemma StartCells()
    ensures var l := Start();
      && Key(10) in l && l[Key(10)] == Cell(1, Key(1), ZeroData(MINT_LEN))
      && Key(11) in l && l[Key(11)] == Cell(1, Key(1), ZeroData(ACCOUNT_LEN))
      && HasWallet(l, Key(3)) && HasWallet(l, Key(4)) && HasWallet(l, Key(12)) && HasWallet(l, Key(13))
      && |l| <= 6
    ensures forall k | k in Start() && Apart(k) :: Start()[k] == Wallet(1)
  {
    StartKeys();
    assert Start().Keys == {Key(3), Key(4), Key(12), Key(13), Key(10), Key(11)};
    assert |Start()| == |Start().Keys| <= 6;
  }

  lemma StartFits()
    ensures LamportsFit(TheEnv(), Start())
  {
    StartCells();
    forall k | k in Start() ensures Start()[k].lamports == 1 {
      assert k == Key(10) || k == Key(11) || Start()[k] == Wallet(1);
    }
    TotalAtMost(TheEnv(), Lamports, Start());
  }

  lemma StartIsFresh(k: Pubkey)
    requires Owned(TheEnv(), Start(), k)
    ensures k != Key(2) && Start()[k].data == ZeroData(Start()[k].data.Len())
  {
    StartCells();
    KeysDiffer(1, 0);
    KeysDiffer(10, 2);
    KeysDiffer(11, 2);
    assert k == Key(10) || k == Key(11);
  }

  lemma StartIsGenesis()
    ensures Genesis(TheEnv(), Start())
  {
    TheEnvIsValid();
    StartFits();
    forall k | Owned(TheEnv(), Start(), k) ensures k != Key(2) && Start()[k].data == ZeroData(Start()[k].data.Len()) {
      StartIsFresh(k);
    }
  }

  lemma StartIsReachable()
    ensures ZigReachable(TheEnv(), Start())
  {
    StartIsGenesis();
    assert ZigAfter(TheEnv(), Start(), []) == Start();
  }

  lemma MintedIsReachable()
    ensures ZigReachable(TheEnv(), Minted())
  {
    StartIsReachable();
    StartCells();
    var accts, ix := MintList(Key(10), Key(4)), InitializeMint(0, Key(13), None);
    MintMade(TheEnv(), Start(), Key(10), Key(4), Key(13));
    ZigReachesNext(TheEnv(), Start(), accts, ix);
  }

  lemma OpenedIsReachable()
    ensures ZigReachable(TheEnv(), Opened())
  {
    MintedIsReachable();
    StartCells();
    StartKeys();
    AccountMade(TheEnv(), Minted(), Key(11), Key(10), Key(3), Key(4));
    ZigReachesNext(TheEnv(), Minted(), AccountList(Key(11), Key(10), Key(3), Key(4)), InitializeAccount);
  }

  /** The accounts of the filled and of the opened ledger. */
  lemma OpenedCells()
    ensures var l := Opened();
      && Key(10) in l && l[Key(10)] == Cell(1, Key(1), MintData(MintOfSupply(0)))
      && Key(11) in l && l[Key(11)] == Cell(1, Key(1), AccountData(AshOfAmount(0)))
      && HasWallet(l, Key(3)) && HasWallet(l, Key(4)) && HasWallet(l, Key(12)) && HasWallet(l, Key(13))
  {
    StartCells();
    StartKeys();
  }

  lemma FilledIsIssued()
    ensures ZigInvoke(TheEnv(), Opened(), IssueList(Key(10), Key(11), Key(13)), MintTo(5)) == Filled()
  {
    OpenedCells();
    StartKeys();
    TokensMade(TheEnv(), Opened(), Key(10), Key(11), Key(13), 5);
  }

  lemma FilledIsReachable()
    ensures ZigReachable(TheEnv(), Filled())
  {
    OpenedIsReachable();
    FilledIsIssued();
    ZigReachesNext(TheEnv(), Opened(), IssueList(Key(10), Key(11), Key(13)), MintTo(5));
  }

  // ---- Burns ----

  /** Tokens of the system program or the incinerator: a stranger burns them through the processor,
      and cannot through the rewrite. */
  lemma StrangersBurn(env: Env, l: Ledger, accts: seq<Meta>, amount: u64)
    requires ZigInv(env, l) && Present(l, accts) && 3 <= |accts|
    requires CanDestroy(env, l, accts[0].key, accts[1].key, accts[2], accts[3..], amount, None)
    requires TokenOf(l, accts[0].key).owner != accts[2].key
    ensures exists after :: Commits(env, l, accts, Burn(amount), after)
    ensures forall after :: !ZigCommits(env, l, accts, Burn(amount), after)
  {
    var s, k := accts[0].key, accts[1].key;
    var burnt := Destroyed(l, s, k, DestroysByDelegate(env, TokenOf(l, s), accts[2]), amount);
    RustBurnCommits(env, l, accts, amount, burnt);
    assert Commits(env, l, accts, Burn(amount), burnt);
    forall after ensures !ZigCommits(env, l, accts, Burn(amount), after) {
      BurnsCompared(env, l, accts, amount, after);
    }
  }

  function BurnList(): seq<Meta> {
    [Meta(Key(11), false), Meta(Key(10), false), Meta(Key(12), false)]
  }

  lemma BurnIsGranted()
    ensures Present(Filled(), BurnList()) && BurnList()[3..] == []
    ensures CanDestroy(TheEnv(), Filled(), Key(11), Key(10), Meta(Key(12), false), [], 5, None)
    ensures TokenOf(Filled(), Key(11)).owner != Key(12)
  {
    OpenedCells();
    StartKeys();
    KeysDiffer(3, 12);
  }

  /** So it happens: nobody signs, and on a ledger the rewrite itself made, five incinerated tokens are
      burnt by one program only. */
  lemma BurnsDiffer()
    ensures var env, l, accts := TheEnv(), Filled(), BurnList();
      && ZigReachable(env, l)
      && (exists after :: Commits(env, l, accts, Burn(5), after))
      && (forall after :: !ZigCommits(env, l, accts, Burn(5), after))
  {
    FilledIsReachable();
    ZigReachableInv(TheEnv(), Filled());
    BurnIsGranted();
    StrangersBurn(TheEnv(), Filled(), BurnList(), 5);
  }

  // ---- Closes ----

  /** An empty account of the system program or the incinerator: a stranger closes it to the
      incinerator through the processor, and cannot through the rewrite. */
  lemma StrangersClose(env: Env, l: Ledger, accts: seq<Meta>)
    requires ZigInv(env, l) && Present(l, accts) && 3 <= |accts|
    requires Closable(env, l, accts[0].key, accts[1].key) && accts[1].key == env.incinerator
    requires TokenOf(l, accts[0].key).IsOwnedBySystemProgramOrIncinerator(env)
    requires TokenOf(l, accts[0].key).owner != accts[2].key
    ensures exists after :: Commits(env, l, accts, CloseTokenAccount, after)
    ensures forall after :: !ZigCommits(env, l, accts, CloseTokenAccount, after)
  {
    var closed := Closed(env, l, accts[0].key, accts[1].key);
    ClosesCompared(env, l, accts, closed);
    assert Commits(env, l, accts, CloseTokenAccount, closed);
    forall after ensures !ZigCommits(env, l, accts, CloseTokenAccount, after) {
      ClosesCompared(env, l, accts, after);
    }
  }

  function CloseList(): seq<Meta> {
    [Meta(Key(11), false), Meta(Key(3), false), Meta(Key(12), false)]
  }

  lemma CloseIsGranted()
    ensures Present(Opened(), CloseList()) && Closable(TheEnv(), Opened(), Key(11), Key(3))
    ensures TokenOf(Opened(), Key(11)).owner == TheEnv().incinerator != Key(12)
  {
    OpenedCells();
    StartKeys();
    KeysDiffer(3, 12);
  }

  /** The same for closing: nobody signs, and only the processor closes the incinerator's account. */
  lemma ClosesDiffer()
    ensures var env, l, accts := TheEnv(), Opened(), CloseList();
      && ZigReachable(env, l)
      && (exists after :: Commits(env, l, accts, CloseTokenAccount, after))
      && (forall after :: !ZigCommits(env, l, accts, CloseTokenAccount, after))
  {
    OpenedIsReachable();
    ZigReachableInv(TheEnv(), Opened());
    CloseIsGranted();
    StrangersClose(TheEnv(), Opened(), CloseList());
  }
}
