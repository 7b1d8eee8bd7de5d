/** What one granted action can and cannot do to a token account, a mint or a multisig that it may
    not even mention. */
module Steps {
  import opened Types
  import opened State
  import opened Invariant
  import opened Actions
  import opened Exactness

  // ---- Who must have agreed ----

  /** Tokens of `k` were spent by its owner, or by its delegate within the allowance; or burned from
      an account of the system program or the incinerator, which anyone may do. */
  predicate DebitAuthorized(env: Env, l: Ledger, act: Action, k: Pubkey)
    requires TokenAt(env, l, k)
  {
    match act
    case Move(s, _, auth, signers, amount, _) => s == k && MaySpend(env, l, TokenOf(l, k), auth, signers, amount)
    case Destroy(s, _, auth, signers, amount, _) =>
      && s == k
      && (TokenOf(l, k).IsOwnedBySystemProgramOrIncinerator(env)
          || MaySpend(env, l, TokenOf(l, k), auth, signers, amount))
    case _ => false
  }

  predicate OwnerAgreed(env: Env, l: Ledger, act: Action, k: Pubkey)
    requires TokenAt(env, l, k)
  {
    match act
    case SetDelegate(t, auth, signers, _, _) => t == k && Agreed(env, l, TokenOf(l, k).owner, auth, signers)
    case SetOwner(t, auth, signers, _) => t == k && Agreed(env, l, TokenOf(l, k).owner, auth, signers)
    case _ => false
  }

  predicate CloserAgreed(env: Env, l: Ledger, act: Action, k: Pubkey)
    requires TokenAt(env, l, k)
  {
    match act
    case SetCloser(t, auth, signers, _) => t == k && Agreed(env, l, Closer(TokenOf(l, k)), auth, signers)
    case _ => false
  }

  predicate CloseAuthorized(env: Env, l: Ledger, act: Action, k: Pubkey)
    requires TokenAt(env, l, k)
  {
    match act
    case Close(s, d, auth, signers) =>
      s == k && (if TokenOf(l, k).IsOwnedBySystemProgramOrIncinerator(env) then d == env.incinerator
                 else Agreed(env, l, Closer(TokenOf(l, k)), auth, signers))
    case _ => false
  }

  predicate FreezerAgreed(env: Env, l: Ledger, act: Action, k: Pubkey)
    requires TokenAt(env, l, k)
  {
    match act
    case SetFrozen(t, mint, auth, signers, _) =>
      t == k && mint == TokenOf(l, k).mint && CanSetFreezer(env, l, mint, auth, signers)
    case _ => false
  }

  /** The fate of any token account under any granted action: it is closed by whoever may close it,
      or stays a token account of the same mint with every change agreed to by whoever must. */
  predicate FateOk(env: Env, l: Ledger, act: Action, k: Pubkey, r: Ledger)
    requires TokenAt(env, l, k)
  {
    if !TokenAt(env, r, k) then CloseAuthorized(env, l, act, k) && !Owned(env, r, k)
    else
      var a, b := TokenOf(l, k), TokenOf(r, k);
      && a.mint == b.mint && a.isNative == b.isNative
      && (b.amount < a.amount ==> DebitAuthorized(env, l, act, k) && a.amount - b.amount == act.amount)
      && (a.owner != b.owner ==> act.SetOwner? && OwnerAgreed(env, l, act, k))
      && (a.delegate != b.delegate || a.delegatedAmount != b.delegatedAmount ==>
            OwnerAgreed(env, l, act, k) || DebitAuthorized(env, l, act, k))
      && (a.delegatedAmount < b.delegatedAmount ==> OwnerAgreed(env, l, act, k))
      && (a.closeAuthority != b.closeAuthority ==> CloserAgreed(env, l, act, k) || OwnerAgreed(env, l, act, k))
      && (a.state != b.state ==> FreezerAgreed(env, l, act, k))
  }

  lemma MoveFate(env: Env, l: Ledger, act: Action, k: Pubkey)
    requires Inv(env, l) && Enabled(env, l, act) && act.Move? && TokenAt(env, l, k) && (k == act.s || k == act.d)
    ensures FateOk(env, l, act, k, Effect(env, l, act))
  {
    MovedFate(env, l, act, k, Moved(l, act.s, act.d, ByDelegate(TokenOf(l, act.s), act.auth), act.amount));
  }

  lemma MovedFate(env: Env, l: Ledger, act: Action, k: Pubkey, r: Ledger)
    requires act.Move? && CanMove(env, l, act.s, act.d, act.auth, act.signers, act.amount, act.check)
    requires r == Moved(l, act.s, act.d, ByDelegate(TokenOf(l, act.s), act.auth), act.amount)
    requires TokenAt(env, l, k) && (k == act.s || k == act.d)
    ensures FateOk(env, l, act, k, r)
  {
  }

  lemma IssueFate(env: Env, l: Ledger, act: Action, k: Pubkey)
    requires Enabled(env, l, act) && act.Issue? && TokenAt(env, l, k)
    ensures FateOk(env, l, act, k, Effect(env, l, act))
  {
  }

  lemma DestroyFate(env: Env, l: Ledger, act: Action, k: Pubkey)
    requires Enabled(env, l, act) && act.Destroy? && TokenAt(env, l, k)
    ensures FateOk(env, l, act, k, Effect(env, l, act))
  {
  }

  lemma CloseFate(env: Env, l: Ledger, act: Action, k: Pubkey)
    requires Inv(env, l) && Enabled(env, l, act) && act.Close? && TokenAt(env, l, k)
    ensures FateOk(env, l, act, k, Effect(env, l, act))
  {
    LamportsAddFit(env, l, act.s, act.d);
  }

  lemma OwnersFate(env: Env, l: Ledger, act: Action, k: Pubkey)
    requires Inv(env, l) && Enabled(env, l, act) && (act.SetDelegate? || act.SetOwner?)
    requires act.k == k && TokenAt(env, l, k)
    ensures FateOk(env, l, act, k, Effect(env, l, act))
  {
    assert CellOk(env, l, l[k]);
  }

  lemma OthersFate(env: Env, l: Ledger, act: Action, k: Pubkey)
    requires Inv(env, l) && Enabled(env, l, act) && (act.SetCloser? || act.SetFrozen? || act.Sync?)
    requires act.k == k && TokenAt(env, l, k)
    ensures FateOk(env, l, act, k, Effect(env, l, act))
  {
    assert CellOk(env, l, l[k]);
  }

  /** Initializations need fresh cells, and a mint is no account. */
  lemma NoTokenThere(env: Env, l: Ledger, act: Action, k: Pubkey)
    requires Enabled(env, l, act) && Rewritten(act) == Some(k)
    requires !act.SetDelegate? && !act.SetOwner? && !act.SetCloser? && !act.SetFrozen? && !act.Sync?
    ensures !TokenAt(env, l, k)
  {
  }

  lemma EveryChangeIsAuthorized(env: Env, l: Ledger, act: Action, k: Pubkey)
    requires Inv(env, l) && Enabled(env, l, act) && TokenAt(env, l, k)
    ensures FateOk(env, l, act, k, Effect(env, l, act))
  {
    if k !in Touched(act) {
      Untouched(env, l, act, k);
      SameFate(env, l, act, k, Effect(env, l, act));
    } else {
      match act
      case Move(_, _, _, _, _, _) => MoveFate(env, l, act, k);
      case Issue(_, _, _, _, _, _) => IssueFate(env, l, act, k);
      case Destroy(_, _, _, _, _, _) => DestroyFate(env, l, act, k);
      case Close(_, _, _, _) => CloseFate(env, l, act, k);
      case SetDelegate(_, _, _, _, _) => OwnersFate(env, l, act, k);
      case SetOwner(_, _, _, _) => OwnersFate(env, l, act, k);
      case SetCloser(_, _, _, _) => OthersFate(env, l, act, k);
      case SetFrozen(_, _, _, _, _) => OthersFate(env, l, act, k);
      case Sync(_) => OthersFate(env, l, act, k);
      case _ => NoTokenThere(env, l, act, k);
    }
  }

  lemma SameFate(env: Env, l: Ledger, act: Action, k: Pubkey, r: Ledger)
    requires TokenAt(env, l, k) && k in r && r[k] == l[k]
    ensures FateOk(env, l, act, k, r)
  {
  }

  // ---- Mints and multisigs ----

  /** A mint stays a mint with its decimals; authorities given up stay given up, and without a
      mint authority the supply cannot grow. */
  predicate MintFate(env: Env, l: Ledger, k: Pubkey, r: Ledger)
    requires MintAt(env, l, k)
  {
    && MintAt(env, r, k)
    && var m, n := MintOf(l, k), MintOf(r, k);
    && m.decimals == n.decimals
    && (m.mintAuthority.None? ==> n.mintAuthority.None? && n.supply <= m.supply)
    && (m.freezeAuthority.None? ==> n.freezeAuthority.None?)
  }

  /** Who must have agreed to a change of a mint: its supply grows only by an issue of its mint
      authority, and shrinks only by a burn; each authority changes only if it agreed itself. */
  predicate MintChangesOk(env: Env, l: Ledger, act: Action, k: Pubkey, r: Ledger)
    requires MintAt(env, l, k)
  {
    && MintAt(env, r, k)
    && var m, n := MintOf(l, k), MintOf(r, k);
    && m.decimals == n.decimals
    && (m.supply < n.supply ==>
          && act.Issue? && act.mint == k && n.supply - m.supply == act.amount
          && m.mintAuthority.Some? && Agreed(env, l, m.mintAuthority.value, act.auth, act.signers))
    && (n.supply < m.supply ==>
          && act.Destroy? && act.mint == k && m.supply - n.supply == act.amount
          && CanDestroy(env, l, act.s, k, act.auth, act.signers, act.amount, act.expected))
    && (m.mintAuthority != n.mintAuthority ==>
          && act.SetMinter? && act.mint == k && n.mintAuthority == act.authority
          && m.mintAuthority.Some? && Agreed(env, l, m.mintAuthority.value, act.auth, act.signers))
    && (m.freezeAuthority != n.freezeAuthority ==>
          && act.SetFreezer? && act.mint == k && n.freezeAuthority == act.authority
          && m.freezeAuthority.Some? && Agreed(env, l, m.freezeAuthority.value, act.auth, act.signers))
  }

  lemma SupplyFate(env: Env, l: Ledger, act: Action, k: Pubkey)
    requires Enabled(env, l, act) && MintAt(env, l, k)
    requires (act.Issue? || act.Destroy?) && k in Touched(act)
    ensures MintChangesOk(env, l, act, k, Effect(env, l, act))
  {
  }

  lemma AuthorityFate(env: Env, l: Ledger, act: Action, k: Pubkey)
    requires Enabled(env, l, act) && MintAt(env, l, k) && k in Touched(act) && (act.SetMinter? || act.SetFreezer?)
    ensures MintChangesOk(env, l, act, k, Effect(env, l, act))
  {
  }

  lemma ReceiverFate(env: Env, l: Ledger, act: Action, k: Pubkey)
    requires Enabled(env, l, act) && MintAt(env, l, k) && k in Touched(act) && act.Close?
    ensures MintChangesOk(env, l, act, k, Effect(env, l, act))
  {
  }

  /** Initializations need fresh cells, and an account is no mint. */
  lemma NoMintThere(env: Env, l: Ledger, act: Action, k: Pubkey)
    requires Enabled(env, l, act) && k in Touched(act)
    requires !act.Issue? && !act.Destroy? && !act.SetMinter? && !act.SetFreezer? && !act.Close?
    ensures !MintAt(env, l, k)
  {
  }

  lemma EveryMintChangeIsAuthorized(env: Env, l: Ledger, act: Action, k: Pubkey)
    requires Enabled(env, l, act) && MintAt(env, l, k)
    ensures MintChangesOk(env, l, act, k, Effect(env, l, act))
  {
    if k !in Touched(act) {
      Untouched(env, l, act, k);
    } else if act.Issue? || act.Destroy? {
      SupplyFate(env, l, act, k);
    } else if act.SetMinter? || act.SetFreezer? {
      AuthorityFate(env, l, act, k);
    } else if act.Close? {
      ReceiverFate(env, l, act, k);
    } else {
      NoMintThere(env, l, act, k);
    }
  }

  lemma MintsOnlyLose(env: Env, l: Ledger, act: Action, k: Pubkey)
    requires Inv(env, l) && Enabled(env, l, act) && MintAt(env, l, k)
    ensures MintFate(env, l, k, Effect(env, l, act))
  {
    EveryMintChangeIsAuthorized(env, l, act, k);
    AuthorizedIsFate(env, l, act, k, Effect(env, l, act));
  }

  lemma AuthorizedIsFate(env: Env, l: Ledger, act: Action, k: Pubkey, r: Ledger)
    requires MintAt(env, l, k) && MintChangesOk(env, l, act, k, r)
    ensures MintFate(env, l, k, r)
  {
  }

  lemma ReceiverKeepsData(env: Env, l: Ledger, act: Action)
    requires Enabled(env, l, act) && act.Close?
    ensures var r := Effect(env, l, act); r[act.d].data == l[act.d].data && r[act.d].owner == l[act.d].owner
  {
  }

  lemma MultisigsNeverChange(env: Env, l: Ledger, act: Action, k: Pubkey)
    requires Inv(env, l) && Enabled(env, l, act) && MultisigAt(env, l, k)
    ensures MultisigAt(env, Effect(env, l, act), k) && Effect(env, l, act)[k].data == l[k].data
  {
    if k !in Touched(act) {
      Untouched(env, l, act, k);
    } else {
      assert act.Close? && k == act.d;
      ReceiverKeepsData(env, l, act);
    }
  }

  // ---- Frozen accounts ----

  predicate Thaws(act: Action, k: Pubkey) {
    act.SetFrozen? && act.k == k && !act.frozen
  }

  /** Nothing can be granted on a frozen account with tokens but a thaw, and lamports sent to it. */
  lemma FrozenOnlyReceives(env: Env, l: Ledger, act: Action, k: Pubkey)
    requires Inv(env, l) && Enabled(env, l, act) && TokenAt(env, l, k) && k in Touched(act)
    requires TokenOf(l, k).IsFrozen() && TokenOf(l, k).amount != 0 && !Thaws(act, k)
    ensures act.Close? && act.d == k
  {
    assert CellOk(env, l, l[k]);
  }

  /** Short of a thaw, a frozen account with tokens keeps every byte. */
  lemma FrozenIsStuck(env: Env, l: Ledger, act: Action, k: Pubkey)
    requires Inv(env, l) && Enabled(env, l, act) && TokenAt(env, l, k)
    requires TokenOf(l, k).IsFrozen() && TokenOf(l, k).amount != 0 && !Thaws(act, k)
    ensures Owned(env, Effect(env, l, act), k) && Effect(env, l, act)[k].data == l[k].data
  {
    if k !in Touched(act) {
      Untouched(env, l, act, k);
    } else {
      FrozenOnlyReceives(env, l, act, k);
      ReceiverKeepsData(env, l, act);
    }
  }

  /** Without a freeze authority no account of the mint changes between frozen and thawed. */
  lemma UnfreezableStays(env: Env, l: Ledger, act: Action, k: Pubkey)
    requires Inv(env, l) && Enabled(env, l, act) && TokenAt(env, l, k)
    requires !TokenOf(l, k).IsNative() ==> MintOf(l, TokenOf(l, k).mint).freezeAuthority.None?
    ensures TokenAt(env, Effect(env, l, act), k) ==> TokenOf(Effect(env, l, act), k).state == TokenOf(l, k).state
  {
    assert CellOk(env, l, l[k]);
    EveryChangeIsAuthorized(env, l, act, k);
  }

  // ---- Delegation ----

  /** What `d` may still spend from `k`. */
  function Allowance(l: Ledger, k: Pubkey, d: Pubkey): nat
    requires k in l && l[k].data.AccountData?
  {
    if TokenOf(l, k).delegate == Some(d) then TokenOf(l, k).delegatedAmount else 0
  }

  /** What leaves `k` by a transfer elsewhere or a burn on the authority of `d`. */
  function SpentBy(act: Action, k: Pubkey, d: Pubkey): nat {
    match act
    case Move(s, t, auth, _, amount, _) => if s == k && s != t && auth.key == d then amount else 0
    case Destroy(s, _, auth, _, amount, _) => if s == k && auth.key == d then amount else 0
    case _ => 0
  }

  /** A transfer or burn out of `k` on the authority of `d`. */
  predicate DrawsOn(act: Action, k: Pubkey, d: Pubkey) {
    match act
    case Move(s, _, auth, _, _, _) => s == k && auth.key == d
    case Destroy(s, _, auth, _, _, _) => s == k && auth.key == d
    case _ => false
  }

  /** The owner's ways to end a delegation, and closing. */
  predicate EndsDelegation(act: Action, k: Pubkey) {
    match act
    case SetDelegate(t, _, _, _, _) => t == k
    case SetOwner(t, _, _, _) => t == k
    case Close(s, _, _, _) => s == k
    case _ => false
  }

  predicate OwnerIsOther(env: Env, a: Account, d: Pubkey) {
    a.owner != d && !a.IsOwnedBySystemProgramOrIncinerator(env)
  }

  lemma AllowanceMoveOut(env: Env, l: Ledger, act: Action, d: Pubkey)
    requires Inv(env, l) && Enabled(env, l, act) && act.Move? && act.s != act.d
    requires OwnerIsOther(env, TokenOf(l, act.s), d)
    ensures AllowanceOk(env, l, act, act.s, d, Moved(l, act.s, act.d, ByDelegate(TokenOf(l, act.s), act.auth),
                                                     act.amount))
  {
    MoveFits(env, l, act.s, act.d, act.amount);
  }

  lemma AllowanceMoveOther(env: Env, l: Ledger, act: Action, k: Pubkey, d: Pubkey)
    requires Inv(env, l) && Enabled(env, l, act) && act.Move? && TokenAt(env, l, k) && (k != act.s || act.s == act.d)
    ensures AllowanceOk(env, l, act, k, d, Moved(l, act.s, act.d, ByDelegate(TokenOf(l, act.s), act.auth), act.amount))
  {
  }

  lemma AllowanceMove(env: Env, l: Ledger, act: Action, k: Pubkey, d: Pubkey)
    requires Inv(env, l) && Enabled(env, l, act) && act.Move? && TokenAt(env, l, k)
    requires OwnerIsOther(env, TokenOf(l, k), d)
    ensures AllowanceOk(env, l, act, k, d, Effect(env, l, act))
  {
    if k == act.s && act.s != act.d {
      AllowanceMoveOut(env, l, act, d);
    } else {
      AllowanceMoveOther(env, l, act, k, d);
    }
  }

  lemma AllowanceDestroy(env: Env, l: Ledger, act: Action, k: Pubkey, d: Pubkey)
    requires Inv(env, l) && Enabled(env, l, act) && act.Destroy? && TokenAt(env, l, k)
    requires OwnerIsOther(env, TokenOf(l, k), d)
    ensures AllowanceOk(env, l, act, k, d, Effect(env, l, act))
  {
    HeldInSupply(env, l, act.s);
  }

  /** What `d` spent is what its allowance lost, and what the account lost to it. */
  predicate AllowanceOk(env: Env, l: Ledger, act: Action, k: Pubkey, d: Pubkey, r: Ledger)
    requires TokenAt(env, l, k)
  {
    && TokenAt(env, r, k) && TokenOf(r, k).owner == TokenOf(l, k).owner
    && Allowance(r, k, d) + SpentBy(act, k, d) == Allowance(l, k, d)
    && (DrawsOn(act, k, d) ==> TokenOf(r, k).amount == TokenOf(l, k).amount - SpentBy(act, k, d))
  }

  /** Whatever else happens to `k`, as long as every change is authorized, leaves the allowance. */
  lemma AllowanceRest(env: Env, l: Ledger, act: Action, k: Pubkey, d: Pubkey, r: Ledger)
    requires TokenAt(env, l, k) && FateOk(env, l, act, k, r)
    requires !act.Move? && !act.Destroy? && !EndsDelegation(act, k)
    ensures AllowanceOk(env, l, act, k, d, r)
  {
  }

  lemma AllowanceOther(env: Env, l: Ledger, act: Action, k: Pubkey, d: Pubkey)
    requires Inv(env, l) && Enabled(env, l, act) && TokenAt(env, l, k)
    requires !act.Move? && !act.Destroy? && !EndsDelegation(act, k)
    ensures AllowanceOk(env, l, act, k, d, Effect(env, l, act))
  {
    EveryChangeIsAuthorized(env, l, act, k);
    AllowanceRest(env, l, act, k, d, Effect(env, l, act));
  }

  /** One step of the books of a delegation. */
  lemma AllowanceStep(env: Env, l: Ledger, act: Action, k: Pubkey, d: Pubkey)
    requires Inv(env, l) && Enabled(env, l, act) && TokenAt(env, l, k) && OwnerIsOther(env, TokenOf(l, k), d)
    requires !EndsDelegation(act, k)
    ensures AllowanceOk(env, l, act, k, d, Effect(env, l, act))
  {
    match act
    case Move(_, _, _, _, _, _) => AllowanceMove(env, l, act, k, d);
    case Destroy(_, _, _, _, _, _) => AllowanceDestroy(env, l, act, k, d);
    case _ => AllowanceOther(env, l, act, k, d);
  }
}
