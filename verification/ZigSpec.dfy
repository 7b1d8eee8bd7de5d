/** The reduced rewrite of the program: six instructions that write through their pointers first and
    look at the resulting numbers afterwards. Additions and subtractions are unchecked and wrap. */
module ZigSpec {
  import opened Types
  import opened State
  import opened Instruction
  import opened Spec

  /** Unchecked 64-bit arithmetic. */
  function Wrap(x: int): (r: u64)
    ensures 0 <= x < U64_LIMIT ==> r == x
  {
    x % 0x1_0000_0000_0000_0000
  }

  /** A pointer to a live token account: of the right length, neither uninitialized nor frozen. */
  function AccountFromBytes(d: Data): Result<Account> {
    if !d.AccountData? then Err(InvalidAccountData)
    else match d.account.state
      case Uninitialized => Err(UninitializedState)
      case Frozen => Err(AccountFrozen)
      case Initialized => Ok(d.account)
  }

  function MintFromBytes(d: Data): Result<Mint> {
    if !d.MintData? then Err(InvalidAccountData)
    else if !d.mint.isInitialized then Err(UninitializedState)
    else Ok(d.mint)
  }

  /** Multisig owners are not supported: they are refused as unsigned. */
  function ZigValidateOwner(env: Env, l: Ledger, expected: Pubkey, owner: Meta): Outcome
    requires owner.key in l
  {
    if expected != owner.key then Fail(OwnerMismatch)
    else if l[owner.key].data.Len() == MULTISIG_LEN && env.programId == l[owner.key].owner
    then Fail(MissingRequiredSignature)
    else Need(owner.isSigner, MissingRequiredSignature)
  }

  function CheckOwners(env: Env, c: Cell, d: Cell): Outcome {
    Need(c.owner == env.programId && d.owner == env.programId, IllegalOwner)
  }

  // Writes through a pointer to a record, or to the lamports of a cell.

  function PutAmount(l: Ledger, k: Pubkey, amount: u64): Ledger
    requires k in l && l[k].data.AccountData?
  {
    WithData(l, k, AccountData(l[k].data.account.(amount := amount)))
  }

  function PutSupply(l: Ledger, k: Pubkey, supply: u64): Ledger
    requires k in l && l[k].data.MintData?
  {
    WithData(l, k, MintData(l[k].data.mint.(supply := supply)))
  }

  function PutLamports(l: Ledger, k: Pubkey, lamports: u64): Ledger
    requires k in l
  {
    l[k := l[k].(lamports := lamports)]
  }

  function ZigInitializeMint(env: Env, l: Ledger, accts: seq<Meta>, decimals: u8, mintAuthority: Pubkey,
                             freezeAuthority: Option<Pubkey>): Result<Ledger>
    requires Present(l, accts)
  {
    var enough := Need(2 <= |accts|, NotEnoughAccountKeys);
    :- enough;
    var k := accts[0].key;
    var mint :- UnpackMintUnchecked(l[k].data);
    :- Need(!mint.isInitialized, AlreadyInUse);
    :- Need(accts[1].key == env.rentSysvar, InvalidAccountData);
    :- Need(env.IsExempt(l[k]), NotRentExempt);
    Ok(WithData(l, k, MintData(mint.(mintAuthority := Some(mintAuthority), decimals := decimals,
                                     isInitialized := true, freezeAuthority := freezeAuthority))))
  }

  /** Delegate, delegated amount, close authority, and for a non-native account reserve and amount
      are left as the fresh cell has them; the mint is looked at after the account was written. */
  function ZigInitializeAccount(env: Env, l: Ledger, accts: seq<Meta>): Result<Ledger>
    requires Present(l, accts)
  {
    var enough := Need(4 <= |accts|, NotEnoughAccountKeys);
    :- enough;
    var k, mintKey := accts[0].key, accts[1].key;
    var account :- UnpackAccountUnchecked(l[k].data);
    :- Need(account.state == Uninitialized, AlreadyInUse);
    :- Need(env.IsExempt(l[k]), NotRentExempt);
    var written := account.(mint := mintKey, owner := accts[2].key, state := Initialized);
    if mintKey == env.nativeMint then
      var reserve := env.minimumBalance(ACCOUNT_LEN);
      Ok(WithData(l, k, AccountData(written.(isNative := Some(reserve), amount := l[k].lamports - reserve))))
    else
      var l1 := WithData(l, k, AccountData(written));
      :- Need(l1[mintKey].owner == env.programId, IllegalOwner);
      :- MintFromBytes(l1[mintKey].data).AsOutcome();
      Ok(l1)
  }

  /** The four writes of a transfer. Source and destination may be one cell; each write sees the ones before it. */
  function TransferWrites(l: Ledger, s: Pubkey, d: Pubkey, amount: u64): (r: Ledger)
    requires s in l && d in l && l[s].data.AccountData? && l[d].data.AccountData?
    ensures s in r && d in r && r[s].data.AccountData?
  {
    var native := l[s].data.account.IsNative();
    var l1 := PutAmount(l, s, Wrap(l[s].data.account.amount - amount));
    var l2 := PutAmount(l1, d, Wrap(l1[d].data.account.amount + amount));
    var l3 := if native then PutLamports(l2, s, Wrap(l2[s].lamports - amount)) else l2;
    if native then PutLamports(l3, d, Wrap(l3[d].lamports + amount)) else l3
  }

  function ZigTransfer(env: Env, l: Ledger, accts: seq<Meta>, amount: u64): Result<Ledger>
    requires Present(l, accts)
  {
    var enough := Need(3 <= |accts|, NotEnoughAccountKeys);
    :- enough;
    var s, d := accts[0].key, accts[1].key;
    var source :- AccountFromBytes(l[s].data);
    var destination :- AccountFromBytes(l[d].data);
    :- Need(amount <= source.amount, InsufficientFunds);
    :- Need(source.mint == destination.mint, MintMismatch);
    :- ZigValidateOwner(env, l, source.owner, accts[2]);
    var preAmount := source.amount;
    var written := TransferWrites(l, s, d, amount);
    :- if preAmount == written[s].data.account.amount then CheckOwners(env, written[s], written[d]) else Pass;
    Ok(written)
  }

  function ZigMintTo(env: Env, l: Ledger, accts: seq<Meta>, amount: u64): Result<Ledger>
    requires Present(l, accts)
  {
    var enough := Need(3 <= |accts|, NotEnoughAccountKeys);
    :- enough;
    var k, d := accts[0].key, accts[1].key;
    var destination :- AccountFromBytes(l[d].data);
    :- Need(!destination.IsNative(), NativeNotSupported);
    :- Need(k == destination.mint, MintMismatch);
    var mint :- MintFromBytes(l[k].data);
    :- Need(mint.mintAuthority.Some?, FixedSupply);
    :- ZigValidateOwner(env, l, mint.mintAuthority.value, accts[2]);
    :- if amount == 0 then CheckOwners(env, l[k], l[d]) else Pass;
    :- Need(mint.supply + amount < U64_LIMIT, Overflow);
    var l1 := PutSupply(l, k, mint.supply + amount);
    Ok(PutAmount(l1, d, Wrap(l1[d].data.account.amount + amount)))
  }

  function ZigBurn(env: Env, l: Ledger, accts: seq<Meta>, amount: u64): Result<Ledger>
    requires Present(l, accts)
  {
    var enough := Need(3 <= |accts|, NotEnoughAccountKeys);
    :- enough;
    var s, k := accts[0].key, accts[1].key;
    var source :- AccountFromBytes(l[s].data);
    :- Need(!source.IsNative(), NativeNotSupported);
    var mint :- MintFromBytes(l[k].data);
    :- Need(k == source.mint, MintMismatch);
    :- Need(amount <= source.amount, InsufficientFunds);
    :- ZigValidateOwner(env, l, source.owner, accts[2]);
    var l1 := PutAmount(l, s, Wrap(source.amount - amount));
    var l2 := PutSupply(l1, k, Wrap(mint.supply - amount));
    :- if amount == 0 then CheckOwners(env, l2[k], l2[s]) else Pass;
    Ok(l2)
  }

  /** A self-close is noticed only when no lamports are left anywhere. */
  function ZigCloseAccount(env: Env, l: Ledger, accts: seq<Meta>): Result<Ledger>
    requires Present(l, accts)
  {
    var enough := Need(3 <= |accts|, NotEnoughAccountKeys);
    :- enough;
    var s, d := accts[0].key, accts[1].key;
    var source :- AccountFromBytes(l[s].data);
    :- Need(source.IsNative() || source.amount == 0, NonNativeHasBalance);
    :- ZigValidateOwner(env, l, source.closeAuthority.GetOr(source.owner), accts[2]);
    var l1 := PutLamports(l, d, Wrap(l[d].lamports + l[s].lamports));
    var l2 := PutLamports(l1, s, 0);
    var l3 := l2[s := Cell(l2[s].lamports, env.systemProgram, Opaque([]))];
    :- Need(l3[d].lamports != 0, InvalidAccountData);
    Ok(l3)
  }

  function ZigProcess(env: Env, l: Ledger, accts: seq<Meta>, ix: TokenInstruction): Result<Ledger>
    requires Present(l, accts)
  {
    match ix
    case InitializeMint(decimals, ma, fa) => ZigInitializeMint(env, l, accts, decimals, ma, fa)
    case InitializeAccount => ZigInitializeAccount(env, l, accts)
    case Transfer(amount) => ZigTransfer(env, l, accts, amount)
    case MintTo(amount) => ZigMintTo(env, l, accts, amount)
    case Burn(amount) => ZigBurn(env, l, accts, amount)
    case CloseTokenAccount => ZigCloseAccount(env, l, accts)
    case _ => Err(InvalidState)
  }

  predicate ZigCommits(env: Env, l: Ledger, accts: seq<Meta>, ix: TokenInstruction, after: Ledger) {
    Present(l, accts) && ZigProcess(env, l, accts, ix) == Ok(after) && Admissible(env, l, after)
  }

  function ZigInvoke(env: Env, l: Ledger, accts: seq<Meta>, ix: TokenInstruction): Ledger {
    if Present(l, accts) then
      var r := ZigProcess(env, l, accts, ix);
      if r.Ok? && Admissible(env, l, r.value) then r.value else l
    else l
  }
}
