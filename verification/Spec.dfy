/** The processor as a function: each instruction maps the cells to new cells or to an error. The
    imperative processor is proved to compute exactly this, error codes included. */
module Spec {
  import opened Types
  import opened State
  import opened Instruction
  import opened UiAmount
  import opened ByteCodec

  // ---- Authority ----

  /** The position of the first account with this key, or the length of the list. */
  function FirstIndex(signers: seq<Meta>, key: Pubkey): (i: nat)
    ensures i <= |signers|
    ensures i < |signers| ==> signers[i].key == key
    ensures forall j | 0 <= j < i :: signers[j].key != key
  {
    if |signers| == 0 || signers[0].key == key then 0 else FirstIndex(signers[1..], key) + 1
  }

  predicate Occurs(signers: seq<Meta>, key: Pubkey) {
    FirstIndex(signers, key) < |signers|
  }

  /** The multisig positions whose key is among the accounts given. */
  function MatchedPositions(ms: Multisig, signers: seq<Meta>): set<int>
    requires ms.n <= 11
  {
    set p | 0 <= p < ms.n && Occurs(signers, ms.signers[p])
  }

  /** Every named position that occurs is signed at its first occurrence, and enough occur. */
  predicate HasQuorum(ms: Multisig, signers: seq<Meta>)
    requires ms.n <= 11
  {
    && (forall p | 0 <= p < ms.n && Occurs(signers, ms.signers[p]) ::
          signers[FirstIndex(signers, ms.signers[p])].isSigner)
    && ms.m <= |MatchedPositions(ms, signers)|
  }

  /** A record that claims more positions than the array has is sliced only if there is an account
      to compare. */
  function CheckQuorum(ms: Multisig, signers: seq<Meta>): Outcome {
    if ms.n > 11 && |signers| > 0 then Fail(Panicked)
    else if ms.n > 11 then Need(ms.m == 0, MissingRequiredSignature)
    else if HasQuorum(ms, signers) then Pass
    else Fail(MissingRequiredSignature)
  }

  predicate IsMultisigCell(env: Env, c: Cell) {
    c.owner == env.programId && c.data.Len() == MULTISIG_LEN
  }

  function ValidateOwner(env: Env, l: Ledger, expected: Pubkey, auth: Meta, signers: seq<Meta>): Outcome
    requires auth.key in l
  {
    if expected != auth.key then Fail(OwnerMismatch)
    else if IsMultisigCell(env, l[auth.key]) then
      match UnpackMultisig(l[auth.key].data)
      case Ok(ms) => CheckQuorum(ms, signers)
      case Err(error) => Fail(error)
    else Need(auth.isSigner, MissingRequiredSignature)
  }

  function CheckAccountOwner(env: Env, c: Cell): Outcome {
    Need(c.owner == env.programId, IncorrectProgramId)
  }

  function CheckBothOwners(env: Env, c: Cell, d: Cell): Outcome {
    Need(c.owner == env.programId && d.owner == env.programId, IncorrectProgramId)
  }

  /** The rent sysvar at position `i`, where the instruction takes it as an account. */
  function TakeRent(env: Env, accts: seq<Meta>, i: nat, viaSysvar: bool): Outcome {
    if !viaSysvar then Pass
    else if |accts| <= i then Fail(NotEnoughAccountKeys)
    else Need(accts[i].key == env.rentSysvar, InvalidArgument)
  }

  /** The mint, by key and decimals, that a checked instruction insists on. */
  datatype MintCheck = MintCheck(key: Pubkey, decimals: u8)

  predicate CheckPresent(l: Ledger, check: Option<MintCheck>) {
    check.Some? ==> check.value.key in l
  }

  function CheckedMint(accts: seq<Meta>, expectedDecimals: Option<u8>): Option<MintCheck>
    requires expectedDecimals.Some? ==> 2 <= |accts|
  {
    if expectedDecimals.Some? then Some(MintCheck(accts[1].key, expectedDecimals.value)) else None
  }

  function CheckMint(l: Ledger, check: Option<MintCheck>, mint: Pubkey): Outcome
    requires CheckPresent(l, check)
  {
    if check.None? then Pass
    else if check.value.key != mint then Fail(MintMismatch)
    else
      match UnpackMint(l[mint].data)
      case Ok(m) => Need(check.value.decimals == m.decimals, MintDecimalsMismatch)
      case Err(error) => Fail(error)
  }

  function WithData(l: Ledger, key: Pubkey, data: Data): Ledger
    requires key in l
  {
    l[key := l[key].(data := data)]
  }

  // ---- Initialization ----

  function ProcessInitializeMint(env: Env, l: Ledger, accts: seq<Meta>, decimals: u8, mintAuthority: Pubkey,
                                 freezeAuthority: Option<Pubkey>, viaSysvar: bool): Result<Ledger>
    requires Present(l, accts)
  {
    var enough := Need(1 <= |accts|, NotEnoughAccountKeys);
    :- enough;
    :- TakeRent(env, accts, 1, viaSysvar);
    var k := accts[0].key;
    var mint :- UnpackMintUnchecked(l[k].data);
    :- Need(!mint.isInitialized, AlreadyInUse);
    :- Need(env.IsExempt(l[k]), NotRentExempt);
    Ok(WithData(l, k, MintData(mint.(mintAuthority := Some(mintAuthority), decimals := decimals,
                                     isInitialized := true, freezeAuthority := freezeAuthority))))
  }

  function ProcessInitializeAccount(env: Env, l: Ledger, accts: seq<Meta>, owner: Option<Pubkey>,
                                    viaSysvar: bool): Result<Ledger>
    requires Present(l, accts)
  {
    var taken := if owner.Some? then 2 else 3;
    :- Need(taken <= |accts|, NotEnoughAccountKeys);
    :- TakeRent(env, accts, taken, viaSysvar);
    var k, mintKey := accts[0].key, accts[1].key;
    var account :- UnpackAccountUnchecked(l[k].data);
    :- Need(!account.IsInitialized(), AlreadyInUse);
    :- Need(env.IsExempt(l[k]), NotRentExempt);
    :- if mintKey == env.nativeMint then Pass
       else if l[mintKey].owner != env.programId then Fail(IncorrectProgramId)
       else Need(UnpackMint(l[mintKey].data).Ok?, InvalidMint);
    var reserve := env.minimumBalance(ACCOUNT_LEN);
    var holder := if owner.Some? then owner.value else accts[2].key;
    var native := mintKey == env.nativeMint;
    Ok(WithData(l, k, AccountData(Account(
      mintKey, holder, if native then l[k].lamports - reserve else 0, None, Initialized,
      if native then Some(reserve) else None, 0, None))))
  }

  function Keys(accts: seq<Meta>): (s: seq<Pubkey>)
    ensures |s| == |accts|
    ensures forall i | 0 <= i < |s| :: s[i] == accts[i].key
  {
    seq(|accts|, i requires 0 <= i < |accts| => accts[i].key)
  }

  function ProcessInitializeMultisig(env: Env, l: Ledger, accts: seq<Meta>, m: u8, viaSysvar: bool): Result<Ledger>
    requires Present(l, accts)
  {
    var enough := Need(1 <= |accts|, NotEnoughAccountKeys);
    :- enough;
    :- TakeRent(env, accts, 1, viaSysvar);
    var k := accts[0].key;
    var ms :- UnpackMultisigUnchecked(l[k].data);
    :- Need(!ms.isInitialized, AlreadyInUse);
    :- Need(env.IsExempt(l[k]), NotRentExempt);
    var given := accts[if viaSysvar then 2 else 1..];
    // the count is truncated to a byte; a longer list then overruns the signer array
    var n := |given| % 0x100;
    :- Need(IsValidSignerIndex(n), InvalidNumberOfProvidedSigners);
    :- Need(IsValidSignerIndex(m), InvalidNumberOfRequiredSigners);
    :- Need(|given| <= 11, Panicked);
    Ok(WithData(l, k, MultisigData(Multisig(m, n, true, Keys(given) + ms.signers[n..]))))
  }

  // ---- Spending ----

  /** The debited record's authority check and allowance update. A self-transfer keeps the
      allowance. */
  function Spend(env: Env, l: Ledger, source: Account, auth: Meta, signers: seq<Meta>, amount: u64,
                 selfTransfer: bool): Result<Account>
    requires auth.key in l
  {
    if source.delegate == Some(auth.key) then
      :- ValidateOwner(env, l, auth.key, auth, signers);
      :- Need(amount <= source.delegatedAmount, InsufficientFunds);
      Ok(if selfTransfer then source else
         source.(delegatedAmount := source.delegatedAmount - amount,
                 delegate := if source.delegatedAmount == amount then None else source.delegate))
    else
      :- ValidateOwner(env, l, source.owner, auth, signers);
      Ok(source)
  }

  /** A transfer once its accounts are picked from the list. */
  function TransferBetween(env: Env, l: Ledger, s: Pubkey, d: Pubkey, auth: Meta, signers: seq<Meta>, amount: u64,
                           check: Option<MintCheck>): Result<Ledger>
    requires s in l && d in l && auth.key in l && CheckPresent(l, check)
  {
    var source :- UnpackAccount(l[s].data);
    var destination :- UnpackAccount(l[d].data);
    :- Need(!source.IsFrozen() && !destination.IsFrozen(), AccountFrozen);
    :- Need(amount <= source.amount, InsufficientFunds);
    :- Need(source.mint == destination.mint, MintMismatch);
    :- CheckMint(l, check, source.mint);
    var debited :- Spend(env, l, source, auth, signers, amount, s == d);
    :- if s == d || amount == 0 then CheckBothOwners(env, l[s], l[d]) else Pass;
    if s == d then Ok(l) else
      :- Need(destination.amount + amount < U64_LIMIT, Overflow);
      var moved := if source.IsNative() then amount else 0;
      :- Need(moved <= l[s].lamports, Overflow);
      :- Need(l[d].lamports + moved < U64_LIMIT, Overflow);
      Ok(l[s := Cell(l[s].lamports - moved, l[s].owner, AccountData(debited.(amount := source.amount - amount)))]
          [d := Cell(l[d].lamports + moved, l[d].owner,
                     AccountData(destination.(amount := destination.amount + amount)))])
  }

  function ProcessTransfer(env: Env, l: Ledger, accts: seq<Meta>, amount: u64,
                           expectedDecimals: Option<u8>): Result<Ledger>
    requires Present(l, accts)
  {
    var shift := if expectedDecimals.Some? then 1 else 0;
    :- Need(3 + shift <= |accts|, NotEnoughAccountKeys);
    TransferBetween(env, l, accts[0].key, accts[1 + shift].key, accts[2 + shift], accts[3 + shift..], amount,
                    CheckedMint(accts, expectedDecimals))
  }

  function ProcessMintTo(env: Env, l: Ledger, accts: seq<Meta>, amount: u64,
                         expectedDecimals: Option<u8>): Result<Ledger>
    requires Present(l, accts)
  {
    var enough := Need(3 <= |accts|, NotEnoughAccountKeys);
    :- enough;
    var k, d := accts[0].key, accts[1].key;
    var destination :- UnpackAccount(l[d].data);
    :- Need(!destination.IsFrozen(), AccountFrozen);
    :- Need(!destination.IsNative(), NativeNotSupported);
    :- Need(k == destination.mint, MintMismatch);
    var mint :- UnpackMint(l[k].data);
    :- Need(expectedDecimals.None? || expectedDecimals.value == mint.decimals, MintDecimalsMismatch);
    :- Need(mint.mintAuthority.Some?, FixedSupply);
    :- ValidateOwner(env, l, mint.mintAuthority.value, accts[2], accts[3..]);
    :- if amount == 0 then CheckBothOwners(env, l[k], l[d]) else Pass;
    :- Need(destination.amount + amount < U64_LIMIT, Overflow);
    :- Need(mint.supply + amount < U64_LIMIT, Overflow);
    Ok(WithData(WithData(l, d, AccountData(destination.(amount := destination.amount + amount))),
                k, MintData(mint.(supply := mint.supply + amount))))
  }

  function ProcessBurn(env: Env, l: Ledger, accts: seq<Meta>, amount: u64, expectedDecimals: Option<u8>): Result<Ledger>
    requires Present(l, accts)
  {
    var enough := Need(3 <= |accts|, NotEnoughAccountKeys);
    :- enough;
    var s, k := accts[0].key, accts[1].key;
    var source :- UnpackAccount(l[s].data);
    var mint :- UnpackMint(l[k].data);
    :- Need(!source.IsFrozen(), AccountFrozen);
    :- Need(!source.IsNative(), NativeNotSupported);
    :- Need(amount <= source.amount, InsufficientFunds);
    :- Need(k == source.mint, MintMismatch);
    :- Need(expectedDecimals.None? || expectedDecimals.value == mint.decimals, MintDecimalsMismatch);
    var debited :- if source.IsOwnedBySystemProgramOrIncinerator(env) then Ok(source)
                   else Spend(env, l, source, accts[2], accts[3..], amount, false);
    :- if amount == 0 then CheckBothOwners(env, l[s], l[k]) else Pass;
    :- Need(amount <= mint.supply, Overflow);
    Ok(WithData(WithData(l, s, AccountData(debited.(amount := source.amount - amount))),
                k, MintData(mint.(supply := mint.supply - amount))))
  }

  // ---- Authorities ----

  function ApproveDelegate(env: Env, l: Ledger, k: Pubkey, delegate: Pubkey, auth: Meta, signers: seq<Meta>,
                           amount: u64,
                           check: Option<MintCheck>): Result<Ledger>
    requires k in l && auth.key in l && CheckPresent(l, check)
  {
    var source :- UnpackAccount(l[k].data);
    :- Need(!source.IsFrozen(), AccountFrozen);
    :- CheckMint(l, check, source.mint);
    :- ValidateOwner(env, l, source.owner, auth, signers);
    Ok(WithData(l, k, AccountData(source.(delegate := Some(delegate), delegatedAmount := amount))))
  }

  function ProcessApprove(env: Env, l: Ledger, accts: seq<Meta>, amount: u64,
                          expectedDecimals: Option<u8>): Result<Ledger>
    requires Present(l, accts)
  {
    var shift := if expectedDecimals.Some? then 1 else 0;
    :- Need(3 + shift <= |accts|, NotEnoughAccountKeys);
    ApproveDelegate(env, l, accts[0].key, accts[1 + shift].key, accts[2 + shift], accts[3 + shift..], amount,
                    CheckedMint(accts, expectedDecimals))
  }

  function ProcessRevoke(env: Env, l: Ledger, accts: seq<Meta>): Result<Ledger>
    requires Present(l, accts)
  {
    var enough := Need(1 <= |accts|, NotEnoughAccountKeys);
    :- enough;
    var k := accts[0].key;
    var source :- UnpackAccount(l[k].data);
    :- Need(2 <= |accts|, NotEnoughAccountKeys);
    :- Need(!source.IsFrozen(), AccountFrozen);
    :- ValidateOwner(env, l, source.owner, accts[1], accts[2..]);
    Ok(WithData(l, k, AccountData(source.(delegate := None, delegatedAmount := 0))))
  }

  function SetAccountAuthority(env: Env, l: Ledger, account: Account, auth: Meta, signers: seq<Meta>,
                               authorityType: AuthorityType, newAuthority: Option<Pubkey>): Result<Account>
    requires auth.key in l
  {
    var unfrozen := Need(!account.IsFrozen(), AccountFrozen);
    :- unfrozen;
    match authorityType
    case AccountOwner =>
      :- ValidateOwner(env, l, account.owner, auth, signers);
      :- Need(newAuthority.Some?, InvalidInstruction);
      Ok(account.(owner := newAuthority.value, delegate := None, delegatedAmount := 0,
                  closeAuthority := if account.IsNative() then None else account.closeAuthority))
    case CloseAccount =>
      :- ValidateOwner(env, l, account.closeAuthority.GetOr(account.owner), auth, signers);
      Ok(account.(closeAuthority := newAuthority))
    case _ => Err(AuthorityTypeNotSupported)
  }

  function SetMintAuthority(env: Env, l: Ledger, mint: Mint, auth: Meta, signers: seq<Meta>,
                            authorityType: AuthorityType, newAuthority: Option<Pubkey>): Result<Mint>
    requires auth.key in l
  {
    match authorityType
    case MintTokens =>
      :- Need(mint.mintAuthority.Some?, FixedSupply);
      :- ValidateOwner(env, l, mint.mintAuthority.value, auth, signers);
      Ok(mint.(mintAuthority := newAuthority))
    case FreezeAccount =>
      :- Need(mint.freezeAuthority.Some?, MintCannotFreeze);
      :- ValidateOwner(env, l, mint.freezeAuthority.value, auth, signers);
      Ok(mint.(freezeAuthority := newAuthority))
    case _ => Err(AuthorityTypeNotSupported)
  }

  function ProcessSetAuthority(env: Env, l: Ledger, accts: seq<Meta>, authorityType: AuthorityType,
                               newAuthority: Option<Pubkey>): Result<Ledger>
    requires Present(l, accts)
  {
    var enough := Need(2 <= |accts|, NotEnoughAccountKeys);
    :- enough;
    var k := accts[0].key;
    if l[k].data.Len() == ACCOUNT_LEN then
      var account :- UnpackAccount(l[k].data);
      var updated :- SetAccountAuthority(env, l, account, accts[1], accts[2..], authorityType, newAuthority);
      Ok(WithData(l, k, AccountData(updated)))
    else if l[k].data.Len() == MINT_LEN then
      var mint :- UnpackMint(l[k].data);
      var updated :- SetMintAuthority(env, l, mint, accts[1], accts[2..], authorityType, newAuthority);
      Ok(WithData(l, k, MintData(updated)))
    else Err(InvalidArgument)
  }

  // ---- Closing, freezing, syncing ----

  function ProcessCloseAccount(env: Env, l: Ledger, accts: seq<Meta>): Result<Ledger>
    requires Present(l, accts)
  {
    var enough := Need(3 <= |accts|, NotEnoughAccountKeys);
    :- enough;
    var s, d := accts[0].key, accts[1].key;
    :- Need(s != d, InvalidAccountData);
    var source :- UnpackAccount(l[s].data);
    :- Need(source.IsNative() || source.amount == 0, NonNativeHasBalance);
    :- if source.IsOwnedBySystemProgramOrIncinerator(env)
       then Need(d == env.incinerator, InvalidAccountData)
       else ValidateOwner(env, l, source.closeAuthority.GetOr(source.owner), accts[2], accts[3..]);
    :- Need(l[d].lamports + l[s].lamports < U64_LIMIT, Overflow);
    Ok(l[d := l[d].(lamports := l[d].lamports + l[s].lamports)]
        [s := Cell(0, env.systemProgram, Opaque([]))])
  }

  function ProcessToggleFreeze(env: Env, l: Ledger, accts: seq<Meta>, freeze: bool): Result<Ledger>
    requires Present(l, accts)
  {
    var enough := Need(3 <= |accts|, NotEnoughAccountKeys);
    :- enough;
    var k, mintKey := accts[0].key, accts[1].key;
    var source :- UnpackAccount(l[k].data);
    :- Need(source.IsFrozen() != freeze, InvalidState);
    :- Need(!source.IsNative(), NativeNotSupported);
    :- Need(mintKey == source.mint, MintMismatch);
    var mint :- UnpackMint(l[mintKey].data);
    :- Need(mint.freezeAuthority.Some?, MintCannotFreeze);
    :- ValidateOwner(env, l, mint.freezeAuthority.value, accts[2], accts[3..]);
    Ok(WithData(l, k, AccountData(source.(state := if freeze then Frozen else Initialized))))
  }

  function ProcessSyncNative(env: Env, l: Ledger, accts: seq<Meta>): Result<Ledger>
    requires Present(l, accts)
  {
    var enough := Need(1 <= |accts|, NotEnoughAccountKeys);
    :- enough;
    var k := accts[0].key;
    :- CheckAccountOwner(env, l[k]);
    var account :- UnpackAccount(l[k].data);
    :- Need(account.IsNative(), NonNativeNotSupported);
    :- Need(account.isNative.value <= l[k].lamports, Overflow);
    :- Need(account.amount <= l[k].lamports - account.isNative.value, InvalidState);
    Ok(WithData(l, k, AccountData(account.(amount := l[k].lamports - account.isNative.value))))
  }

  // ---- Queries: the cells stay as they are ----

  function QueryMint(env: Env, l: Ledger, accts: seq<Meta>): Result<Mint>
    requires Present(l, accts)
  {
    var enough := Need(1 <= |accts|, NotEnoughAccountKeys);
    :- enough;
    :- CheckAccountOwner(env, l[accts[0].key]);
    var m := UnpackMint(l[accts[0].key].data);
    if m.Ok? then m else Err(InvalidMint)
  }

  // The answers, as the bytes handed back to the caller.

  function AccountDataSizeReply(env: Env, l: Ledger, accts: seq<Meta>): Result<Bytes>
    requires Present(l, accts)
  {
    var _ :- QueryMint(env, l, accts);
    Ok(U64ToLe(ACCOUNT_LEN))
  }

  function UiAmountReply(env: Env, l: Ledger, accts: seq<Meta>, amount: u64): Result<Bytes>
    requires Present(l, accts)
  {
    var m :- QueryMint(env, l, accts);
    Ok(AmountToUiAmountStringTrimmedSpec(amount, m.decimals))
  }

  function AmountReply(env: Env, l: Ledger, accts: seq<Meta>, uiAmount: Bytes): Result<Bytes>
    requires Present(l, accts)
  {
    var m :- QueryMint(env, l, accts);
    var amount :- TryUiAmountIntoAmountSpec(uiAmount, m.decimals);
    Ok(U64ToLe(amount))
  }

  /** An answer leaves the cells alone. */
  function Answered(l: Ledger, reply: Result<Bytes>): Result<Ledger> {
    match reply
    case Ok(_) => Ok(l)
    case Err(error) => Err(error)
  }

  function ProcessInitializeImmutableOwner(l: Ledger, accts: seq<Meta>): Result<Ledger>
    requires Present(l, accts)
  {
    var enough := Need(1 <= |accts|, NotEnoughAccountKeys);
    :- enough;
    var account :- UnpackAccountUnchecked(l[accts[0].key].data);
    :- Need(!account.IsInitialized(), AlreadyInUse);
    Ok(l)
  }

  // ---- Dispatch ----

  function Process(env: Env, l: Ledger, accts: seq<Meta>, ix: TokenInstruction): Result<Ledger>
    requires Present(l, accts)
  {
    match ix
    case InitializeMint(decimals, ma, fa) => ProcessInitializeMint(env, l, accts, decimals, ma, fa, true)
    case InitializeMint2(decimals, ma, fa) => ProcessInitializeMint(env, l, accts, decimals, ma, fa, false)
    case InitializeAccount => ProcessInitializeAccount(env, l, accts, None, true)
    case InitializeAccount2(owner) => ProcessInitializeAccount(env, l, accts, Some(owner), true)
    case InitializeAccount3(owner) => ProcessInitializeAccount(env, l, accts, Some(owner), false)
    case InitializeMultisig(m) => ProcessInitializeMultisig(env, l, accts, m, true)
    case InitializeMultisig2(m) => ProcessInitializeMultisig(env, l, accts, m, false)
    case Transfer(amount) => ProcessTransfer(env, l, accts, amount, None)
    case TransferChecked(amount, decimals) => ProcessTransfer(env, l, accts, amount, Some(decimals))
    case Approve(amount) => ProcessApprove(env, l, accts, amount, None)
    case ApproveChecked(amount, decimals) => ProcessApprove(env, l, accts, amount, Some(decimals))
    case Revoke => ProcessRevoke(env, l, accts)
    case SetAuthority(authorityType, newAuthority) => ProcessSetAuthority(env, l, accts, authorityType, newAuthority)
    case MintTo(amount) => ProcessMintTo(env, l, accts, amount, None)
    case MintToChecked(amount, decimals) => ProcessMintTo(env, l, accts, amount, Some(decimals))
    case Burn(amount) => ProcessBurn(env, l, accts, amount, None)
    case BurnChecked(amount, decimals) => ProcessBurn(env, l, accts, amount, Some(decimals))
    case CloseTokenAccount => ProcessCloseAccount(env, l, accts)
    case FreezeTokenAccount => ProcessToggleFreeze(env, l, accts, true)
    case ThawAccount => ProcessToggleFreeze(env, l, accts, false)
    case SyncNative => ProcessSyncNative(env, l, accts)
    case GetAccountDataSize => Answered(l, AccountDataSizeReply(env, l, accts))
    case InitializeImmutableOwner => ProcessInitializeImmutableOwner(l, accts)
    case AmountToUiAmount(amount) => Answered(l, UiAmountReply(env, l, accts, amount))
    case UiAmountToAmount(uiAmount) => Answered(l, AmountReply(env, l, accts, uiAmount))
  }

  // ---- The runtime's contract ----

  /** What the host checks before it keeps a successful instruction's writes: an account the program
      does not own keeps its data and loses no lamports. */
  predicate Admissible(env: Env, before: Ledger, after: Ledger) {
    && before.Keys == after.Keys
    && forall k | k in before && before[k].owner != env.programId ::
         before[k].data == after[k].data && before[k].lamports <= after[k].lamports
  }

  /** The step's writes are kept: it succeeded and the host admits it. */
  predicate Commits(env: Env, l: Ledger, accts: seq<Meta>, ix: TokenInstruction, after: Ledger) {
    Present(l, accts) && Process(env, l, accts, ix) == Ok(after) && Admissible(env, l, after)
  }

  /** One invocation: committed, or no change at all. */
  function Invoke(env: Env, l: Ledger, accts: seq<Meta>, ix: TokenInstruction): Ledger {
    if Present(l, accts) then
      var r := Process(env, l, accts, ix);
      if r.Ok? && Admissible(env, l, r.value) then r.value else l
    else l
  }
}
