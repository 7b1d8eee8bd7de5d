/** The rules of single instructions, said of account lists, keys and record fields alone: what the
    checked variants add, what a new multisig holds, who may close an account or name its closer, and
    what anyone may burn and close. */
module Rules {
  import opened Types
  import opened State
  import opened Instruction
  import opened Spec
  import opened Invariant
  import opened Actions
  import opened Exactness

  // ---- Checked variants ----

  /** The list without its second entry. */
  function WithoutSecond(accts: seq<Meta>): seq<Meta>
    requires 2 <= |accts|
  {
    [accts[0]] + accts[2..]
  }

  /** The second account is a live mint of these decimals, and the one the first account names. */
  predicate NamesItsMint(l: Ledger, accts: seq<Meta>, decimals: u8)
    requires 2 <= |accts| && Present(l, accts)
  {
    && l[accts[0].key].data.AccountData? && l[accts[0].key].data.account.mint == accts[1].key
    && l[accts[1].key].data.MintData?
    && l[accts[1].key].data.mint.isInitialized && l[accts[1].key].data.mint.decimals == decimals
  }

  lemma WithoutSecondPicks(accts: seq<Meta>)
    requires 4 <= |accts|
    ensures var rest := WithoutSecond(accts);
      && |rest| == |accts| - 1 && rest[0] == accts[0] && rest[1] == accts[2] && rest[2] == accts[3]
      && rest[3..] == accts[4..]
  {
  }

  lemma CheckedTransferBetween(env: Env, l: Ledger, s: Pubkey, d: Pubkey, auth: Meta, signers: seq<Meta>, amount: u64,
                               mint: Pubkey, decimals: u8)
    requires s in l && d in l && auth.key in l && mint in l
    ensures var r := TransferBetween(env, l, s, d, auth, signers, amount, Some(MintCheck(mint, decimals)));
      var plain := TransferBetween(env, l, s, d, auth, signers, amount, None);
      && (r.Ok? <==>
            && plain.Ok? && l[s].data.account.mint == mint && l[mint].data.MintData?
            && l[mint].data.mint.isInitialized && l[mint].data.mint.decimals == decimals)
      && (r.Ok? ==> r == plain)
  {
  }

  /** `TransferChecked` is `Transfer` with the mint put second, and commits iff that mint is the one
      transferred, live, and of the decimals given. */
  lemma TransferCheckedIff(env: Env, l: Ledger, accts: seq<Meta>, amount: u64, decimals: u8, after: Ledger)
    ensures Commits(env, l, accts, TransferChecked(amount, decimals), after) <==>
      && 4 <= |accts| && Present(l, accts) && NamesItsMint(l, accts, decimals)
      && Commits(env, l, WithoutSecond(accts), Transfer(amount), after)
  {
    if 4 <= |accts| && Present(l, accts) {
      WithoutSecondPicks(accts);
      var rest := WithoutSecond(accts);
      assert Present(l, rest);
      CheckedTransferBetween(env, l, accts[0].key, accts[2].key, accts[3], accts[4..], amount, accts[1].key, decimals);
    }
  }

  lemma CheckedApproveDelegate(env: Env, l: Ledger, k: Pubkey, delegate: Pubkey, auth: Meta, signers: seq<Meta>,
                               amount: u64, mint: Pubkey, decimals: u8)
    requires k in l && auth.key in l && mint in l
    ensures var r := ApproveDelegate(env, l, k, delegate, auth, signers, amount, Some(MintCheck(mint, decimals)));
      var plain := ApproveDelegate(env, l, k, delegate, auth, signers, amount, None);
      && (r.Ok? <==>
            && plain.Ok? && l[k].data.account.mint == mint && l[mint].data.MintData?
            && l[mint].data.mint.isInitialized && l[mint].data.mint.decimals == decimals)
      && (r.Ok? ==> r == plain)
  {
  }

  /** The same for approvals. */
  lemma ApproveCheckedIff(env: Env, l: Ledger, accts: seq<Meta>, amount: u64, decimals: u8, after: Ledger)
    ensures Commits(env, l, accts, ApproveChecked(amount, decimals), after) <==>
      && 4 <= |accts| && Present(l, accts) && NamesItsMint(l, accts, decimals)
      && Commits(env, l, WithoutSecond(accts), Approve(amount), after)
  {
    if 4 <= |accts| && Present(l, accts) {
      WithoutSecondPicks(accts);
      var rest := WithoutSecond(accts);
      assert Present(l, rest);
      CheckedApproveDelegate(env, l, accts[0].key, accts[2].key, accts[3], accts[4..], amount, accts[1].key, decimals);
    }
  }

  /** Minting and burning name their mint anyway; checked, they also need its decimals. */
  lemma MintToCheckedIff(env: Env, l: Ledger, accts: seq<Meta>, amount: u64, decimals: u8, after: Ledger)
    ensures Commits(env, l, accts, MintToChecked(amount, decimals), after) <==>
      && Commits(env, l, accts, MintTo(amount), after)
      && l[accts[0].key].data.MintData? && l[accts[0].key].data.mint.decimals == decimals
  {
    if Present(l, accts) {
      MintToDecimals(env, l, accts, amount, decimals);
    }
  }

  lemma MintToDecimals(env: Env, l: Ledger, accts: seq<Meta>, amount: u64, decimals: u8)
    requires Present(l, accts)
    ensures var r := ProcessMintTo(env, l, accts, amount, Some(decimals));
      var plain := ProcessMintTo(env, l, accts, amount, None);
      && (plain.Ok? ==> 3 <= |accts| && l[accts[0].key].data.MintData?)
      && (r.Ok? <==> plain.Ok? && l[accts[0].key].data.mint.decimals == decimals)
      && (r.Ok? ==> r == plain)
  {
  }

  lemma BurnCheckedIff(env: Env, l: Ledger, accts: seq<Meta>, amount: u64, decimals: u8, after: Ledger)
    ensures Commits(env, l, accts, BurnChecked(amount, decimals), after) <==>
      && Commits(env, l, accts, Burn(amount), after)
      && l[accts[1].key].data.MintData? && l[accts[1].key].data.mint.decimals == decimals
  {
    if Present(l, accts) {
      BurnDecimals(env, l, accts, amount, decimals);
    }
  }

  lemma BurnDecimals(env: Env, l: Ledger, accts: seq<Meta>, amount: u64, decimals: u8)
    requires Present(l, accts)
    ensures var r := ProcessBurn(env, l, accts, amount, Some(decimals));
      var plain := ProcessBurn(env, l, accts, amount, None);
      && (plain.Ok? ==> 3 <= |accts| && l[accts[1].key].data.MintData?)
      && (r.Ok? <==> plain.Ok? && l[accts[1].key].data.mint.decimals == decimals)
      && (r.Ok? ==> r == plain)
  {
  }

  // ---- A new multisig ----

  /** The record `InitializeMultisig` leaves: every signer's own key at its own place, in the order of
      the account list from `first` on, and nothing behind. */
  ghost predicate HoldsSigners(data: Data, accts: seq<Meta>, first: nat, m: u8)
    requires first <= |accts|
  {
    && data.MultisigData? && data.multisig.isInitialized
    && data.multisig.m == m && data.multisig.n == |accts| - first
    && 1 <= m <= 11 && 1 <= |accts| - first <= 11
    && (forall i | 0 <= i < |accts| - first :: data.multisig.signers[i] == accts[first + i].key)
    && (forall i | |accts| - first <= i < 11 :: data.multisig.signers[i].bytes == seq(32, j => 0))
  }

  lemma NewMultisigHolds(accts: seq<Meta>, first: nat, m: u8)
    requires first <= |accts| && 1 <= m <= 11 && 1 <= |accts| - first <= 11
    ensures HoldsSigners(MultisigData(NewMultisig(m, Keys(accts[first..]))), accts, first, m)
  {
    var keys := Keys(accts[first..]);
    assert forall i | 0 <= i < |keys| :: keys[i] == accts[first + i].key;
  }

  lemma MultisigTaken(env: Env, l: Ledger, accts: seq<Meta>, m: u8, after: Ledger, viaSysvar: bool)
    requires Inv(env, l) && Present(l, accts)
    requires ProcessInitializeMultisig(env, l, accts, m, viaSysvar) == Ok(after) && Admissible(env, l, after)
    ensures var first := if viaSysvar then 2 else 1;
      && first <= |accts| && accts[0].key in l
      && CanInitMultisig(env, l, accts[0].key, m, Keys(accts[first..]))
      && after == WithData(l, accts[0].key, MultisigData(NewMultisig(m, Keys(accts[first..]))))
  {
    ExactInitMultisig(env, l, accts, m, viaSysvar);
    var act := InitMultisigAction(env, accts, m, viaSysvar).value;
    assert Enabled(env, l, act) <==> CanInitMultisig(env, l, act.k, m, act.keys);
  }

  /** With the rent sysvar among the accounts the signers start at the third, otherwise at the
      second; no other cell changes. */
  lemma InitializeMultisigStores(env: Env, l: Ledger, accts: seq<Meta>, m: u8, after: Ledger, viaSysvar: bool)
    requires Inv(env, l) && Present(l, accts)
    requires Commits(env, l, accts, if viaSysvar then InitializeMultisig(m) else InitializeMultisig2(m), after)
    ensures var first := if viaSysvar then 2 else 1;
      && first <= |accts| && accts[0].key in after
      && HoldsSigners(after[accts[0].key].data, accts, first, m)
      && after == l[accts[0].key := l[accts[0].key].(data := after[accts[0].key].data)]
  {
    MultisigTaken(env, l, accts, m, after, viaSysvar);
    NewMultisigHolds(accts, if viaSysvar then 2 else 1, m);
  }

  // ---- Signatures ----

  /** Not a cell the program takes for a multisig. */
  predicate IsWallet(env: Env, l: Ledger, key: Pubkey) {
    key in l && !(l[key].owner == env.programId && l[key].data.Len() == 355)
  }

  /** A wallet agrees iff it is the key asked for and signed; the other accounts do not matter. */
  lemma WalletAgreesIff(env: Env, l: Ledger, expected: Pubkey, auth: Meta, signers: seq<Meta>)
    requires IsWallet(env, l, auth.key)
    ensures ValidateOwner(env, l, expected, auth, signers) == Pass <==> expected == auth.key && auth.isSigner
  {
  }

  /** A cell of the program as long as a multisig agrees only as one, and only if initialized. */
  lemma OnlyMultisigsAgree(env: Env, l: Ledger, expected: Pubkey, auth: Meta, signers: seq<Meta>)
    requires auth.key in l && !IsWallet(env, l, auth.key)
    requires ValidateOwner(env, l, expected, auth, signers) == Pass
    ensures expected == auth.key && l[auth.key].data.MultisigData? && l[auth.key].data.multisig.isInitialized
  {
  }

  // ---- Closing ----

  /** The key whose agreement a close or a change of the close authority needs: the close authority,
      or without one the owner. */
  predicate MayClose(a: Account, key: Pubkey) {
    match a.closeAuthority
    case Some(c) => key == c
    case None => key == a.owner
  }

  /** Nobody can be asked: the system program and the incinerator do not sign. */
  predicate NobodysAccount(env: Env, a: Account) {
    a.owner == env.systemProgram || a.owner == env.incinerator
  }

  lemma CanCloseMeans(env: Env, l: Ledger, s: Pubkey, d: Pubkey, auth: Meta, signers: seq<Meta>)
    requires TokenAt(env, l, s) && auth.key in l
    ensures CanClose(env, l, s, d, auth, signers) <==>
      && s != d && d in l && (TokenOf(l, s).isNative.Some? || TokenOf(l, s).amount == 0)
      && (if NobodysAccount(env, TokenOf(l, s)) then d == env.incinerator
          else MayClose(TokenOf(l, s), auth.key) && ValidateOwner(env, l, auth.key, auth, signers) == Pass)
  {
  }

  /** The ledger after a close: the lamports at the destination, and an empty cell of the system
      program in place of the account. */
  function Emptied(env: Env, l: Ledger, s: Pubkey, d: Pubkey): Ledger
    requires s in l && d in l && l[d].lamports + l[s].lamports < U64_LIMIT
  {
    l[d := l[d].(lamports := l[d].lamports + l[s].lamports)][s := Cell(0, env.systemProgram, Opaque([]))]
  }

  /** The exact rule of closing a token account, and what it leaves. */
  lemma CloseIff(env: Env, l: Ledger, accts: seq<Meta>, after: Ledger)
    requires Inv(env, l) && Present(l, accts) && 3 <= |accts| && TokenAt(env, l, accts[0].key)
    ensures var s, d, a := accts[0].key, accts[1].key, TokenOf(l, accts[0].key);
      Commits(env, l, accts, CloseTokenAccount, after) <==>
      && s != d && (a.isNative.Some? || a.amount == 0)
      && (if NobodysAccount(env, a) then d == env.incinerator
          else MayClose(a, accts[2].key) && ValidateOwner(env, l, accts[2].key, accts[2], accts[3..]) == Pass)
      && l[d].lamports + l[s].lamports < U64_LIMIT && after == Emptied(env, l, s, d)
  {
    var s, d := accts[0].key, accts[1].key;
    CloseTakenIff(env, l, accts, after);
    CanCloseMeans(env, l, s, d, accts[2], accts[3..]);
    if s != d {
      LamportsAddFit(env, l, s, d);
    }
  }

  /** With a wallet in the third place: its signature, by the right key, and nothing else. */
  lemma CloseByWalletIff(env: Env, l: Ledger, accts: seq<Meta>)
    requires Inv(env, l) && Present(l, accts) && 3 <= |accts| && TokenAt(env, l, accts[0].key)
    requires !NobodysAccount(env, TokenOf(l, accts[0].key)) && IsWallet(env, l, accts[2].key)
    ensures var a := TokenOf(l, accts[0].key);
      (exists after :: Commits(env, l, accts, CloseTokenAccount, after)) <==>
      && accts[0].key != accts[1].key && (a.isNative.Some? || a.amount == 0)
      && accts[2].isSigner && MayClose(a, accts[2].key)
  {
    var s, d := accts[0].key, accts[1].key;
    WalletAgreesIff(env, l, accts[2].key, accts[2], accts[3..]);
    forall after | Commits(env, l, accts, CloseTokenAccount, after)
      ensures s != d && (TokenOf(l, s).isNative.Some? || TokenOf(l, s).amount == 0)
        && accts[2].isSigner && MayClose(TokenOf(l, s), accts[2].key)
    {
      CloseIff(env, l, accts, after);
    }
    if s != d {
      LamportsAddFit(env, l, s, d);
      CloseIff(env, l, accts, Emptied(env, l, s, d));
    }
  }

  /** The exact rule of naming another close authority on an account of the program. */
  lemma SetCloserIff(env: Env, l: Ledger, accts: seq<Meta>, authority: Option<Pubkey>, after: Ledger)
    requires Inv(env, l) && Present(l, accts) && 2 <= |accts| && TokenAt(env, l, accts[0].key)
    ensures var k, a := accts[0].key, TokenOf(l, accts[0].key);
      Commits(env, l, accts, SetAuthority(CloseAccount, authority), after) <==>
      && a.state == Initialized && MayClose(a, accts[1].key)
      && ValidateOwner(env, l, accts[1].key, accts[1], accts[2..]) == Pass
      && after == l[k := l[k].(data := AccountData(a.(closeAuthority := authority)))]
  {
    var k := accts[0].key;
    assert ActionOf(env, accts, SetAuthority(CloseAccount, authority)) ==
      Some(SetCloser(k, accts[1], accts[2..], authority));
    CommitsExactly(env, l, accts, SetAuthority(CloseAccount, authority), after);
  }

  /** A signed wallet with the right key suffices, and a wallet needs both. */
  lemma SetCloserByWalletIff(env: Env, l: Ledger, accts: seq<Meta>, authority: Option<Pubkey>)
    requires Inv(env, l) && Present(l, accts) && 2 <= |accts| && TokenAt(env, l, accts[0].key)
    requires IsWallet(env, l, accts[1].key)
    ensures var a := TokenOf(l, accts[0].key);
      (exists after :: Commits(env, l, accts, SetAuthority(CloseAccount, authority), after)) <==>
      a.state == Initialized && accts[1].isSigner && MayClose(a, accts[1].key)
  {
    var k, a := accts[0].key, TokenOf(l, accts[0].key);
    WalletAgreesIff(env, l, accts[1].key, accts[1], accts[2..]);
    forall after | Commits(env, l, accts, SetAuthority(CloseAccount, authority), after)
      ensures a.state == Initialized && accts[1].isSigner && MayClose(a, accts[1].key)
    {
      SetCloserIff(env, l, accts, authority, after);
    }
    SetCloserIff(env, l, accts, authority, l[k := l[k].(data := AccountData(a.(closeAuthority := authority)))]);
  }

  // ---- Burning ----

  /** The tokens can be burned, if somebody may. */
  predicate Burnable(a: Account, mint: Pubkey, amount: u64) {
    a.state == Initialized && a.isNative.None? && a.mint == mint && amount <= a.amount
  }

  /** The delegate within its allowance, or, if the third account is not the delegate, the owner. */
  predicate SpenderAgrees(env: Env, l: Ledger, a: Account, auth: Meta, signers: seq<Meta>, amount: u64)
    requires auth.key in l
  {
    if a.delegate == Some(auth.key)
    then ValidateOwner(env, l, auth.key, auth, signers) == Pass && amount <= a.delegatedAmount
    else auth.key == a.owner && ValidateOwner(env, l, auth.key, auth, signers) == Pass
  }

  lemma CanDestroyMeans(env: Env, l: Ledger, s: Pubkey, mint: Pubkey, auth: Meta, signers: seq<Meta>, amount: u64)
    requires Inv(env, l) && TokenAt(env, l, s) && auth.key in l
    ensures CanDestroy(env, l, s, mint, auth, signers, amount, None) <==>
      && Burnable(TokenOf(l, s), mint, amount)
      && (NobodysAccount(env, TokenOf(l, s)) || SpenderAgrees(env, l, TokenOf(l, s), auth, signers, amount))
  {
    if !TokenOf(l, s).IsNative() {
      HeldInSupply(env, l, s);
    }
  }

  lemma BurnCommitsIff(env: Env, l: Ledger, accts: seq<Meta>, amount: u64)
    requires Inv(env, l) && Present(l, accts) && 3 <= |accts|
    ensures (exists after :: Commits(env, l, accts, Burn(amount), after)) <==>
      CanDestroy(env, l, accts[0].key, accts[1].key, accts[2], accts[3..], amount, None)
  {
    var act := Destroy(accts[0].key, accts[1].key, accts[2], accts[3..], amount, None);
    assert ActionOf(env, accts, Burn(amount)) == Some(act);
    forall after | Commits(env, l, accts, Burn(amount), after) ensures Enabled(env, l, act) {
      CommitsExactly(env, l, accts, Burn(amount), after);
    }
    if Enabled(env, l, act) {
      CommitsExactly(env, l, accts, Burn(amount), Effect(env, l, act));
      assert Commits(env, l, accts, Burn(amount), Effect(env, l, act));
    }
  }

  /** The exact rule of burning: tokens that fit, from a live account of the mint that is neither
      frozen nor native, whoever asks if they are nobody's, and else if their spender agrees. */
  lemma BurnIff(env: Env, l: Ledger, accts: seq<Meta>, amount: u64)
    requires Inv(env, l) && Present(l, accts) && 3 <= |accts| && TokenAt(env, l, accts[0].key)
    ensures var a := TokenOf(l, accts[0].key);
      (exists after :: Commits(env, l, accts, Burn(amount), after)) <==>
      && Burnable(a, accts[1].key, amount)
      && (NobodysAccount(env, a) || SpenderAgrees(env, l, a, accts[2], accts[3..], amount))
  {
    BurnCommitsIff(env, l, accts, amount);
    CanDestroyMeans(env, l, accts[0].key, accts[1].key, accts[2], accts[3..], amount);
  }

  /** So anyone burns what belongs to the system program or the incinerator. */
  lemma AnyoneBurnsNobodys(env: Env, l: Ledger, accts: seq<Meta>, amount: u64)
    requires Inv(env, l) && Present(l, accts) && 3 <= |accts| && TokenAt(env, l, accts[0].key)
    requires var a := TokenOf(l, accts[0].key);
      && (a.owner == env.systemProgram || a.owner == env.incinerator)
      && a.state != Frozen && a.isNative.None? && a.mint == accts[1].key && amount <= a.amount
    ensures exists after :: Commits(env, l, accts, Burn(amount), after)
  {
    BurnIff(env, l, accts, amount);
  }
}
