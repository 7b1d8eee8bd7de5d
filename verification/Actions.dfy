/** The program seen as a protocol: what each instruction asks for, when it is granted, and what it
    changes. No error codes, no order of checks, no arithmetic that could fail. */
module Actions {
  import opened Types
  import opened State
  import opened Instruction
  import opened UiAmount
  import opened Spec
  import opened Invariant

  /** A delegate and its allowance. */
  datatype Grant = Grant(delegate: Pubkey, amount: u64)

  datatype Action =
    | InitMint(k: Pubkey, decimals: u8, mintAuthority: Pubkey, freezeAuthority: Option<Pubkey>)
    | InitAccount(k: Pubkey, mint: Pubkey, owner: Pubkey)
    | InitMultisig(k: Pubkey, m: u8, keys: seq<Pubkey>)
    | Move(s: Pubkey, d: Pubkey, auth: Meta, signers: seq<Meta>, amount: u64, check: Option<MintCheck>)
    | Issue(mint: Pubkey, d: Pubkey, auth: Meta, signers: seq<Meta>, amount: u64, expected: Option<u8>)
    | Destroy(s: Pubkey, mint: Pubkey, auth: Meta, signers: seq<Meta>, amount: u64, expected: Option<u8>)
    | SetDelegate(k: Pubkey, auth: Meta, signers: seq<Meta>, grant: Option<Grant>, check: Option<MintCheck>)
    | SetOwner(k: Pubkey, auth: Meta, signers: seq<Meta>, owner: Pubkey)
    | SetCloser(k: Pubkey, auth: Meta, signers: seq<Meta>, authority: Option<Pubkey>)
    | SetMinter(mint: Pubkey, auth: Meta, signers: seq<Meta>, authority: Option<Pubkey>)
    | SetFreezer(mint: Pubkey, auth: Meta, signers: seq<Meta>, authority: Option<Pubkey>)
    | Close(s: Pubkey, d: Pubkey, auth: Meta, signers: seq<Meta>)
    | SetFrozen(k: Pubkey, mint: Pubkey, auth: Meta, signers: seq<Meta>, frozen: bool)
    | Sync(k: Pubkey)
    | ReadMint(mint: Pubkey)
    | ReadAmount(mint: Pubkey, text: Bytes)
    | CheckFresh(k: Pubkey)

  // ---- Reading an instruction and its account list ----

  predicate RentGiven(env: Env, accts: seq<Meta>, i: nat) {
    i < |accts| && accts[i].key == env.rentSysvar
  }

  function InitMintAction(env: Env, accts: seq<Meta>, decimals: u8, ma: Pubkey, fa: Option<Pubkey>,
                          viaSysvar: bool): Option<Action> {
    if 1 <= |accts| && (viaSysvar ==> RentGiven(env, accts, 1))
    then Some(InitMint(accts[0].key, decimals, ma, fa)) else None
  }

  function InitAccountAction(env: Env, accts: seq<Meta>, owner: Option<Pubkey>, viaSysvar: bool): Option<Action> {
    var taken := if owner.Some? then 2 else 3;
    if taken <= |accts| && (viaSysvar ==> RentGiven(env, accts, taken))
    then Some(InitAccount(accts[0].key, accts[1].key, if owner.Some? then owner.value else accts[2].key)) else None
  }

  function InitMultisigAction(env: Env, accts: seq<Meta>, m: u8, viaSysvar: bool): Option<Action> {
    if 1 <= |accts| && (viaSysvar ==> RentGiven(env, accts, 1))
    then Some(InitMultisig(accts[0].key, m, Keys(accts[if viaSysvar then 2 else 1..]))) else None
  }

  function MoveAction(accts: seq<Meta>, amount: u64, expected: Option<u8>): Option<Action> {
    var shift := if expected.Some? then 1 else 0;
    if 3 + shift <= |accts| then
      Some(Move(accts[0].key, accts[1 + shift].key, accts[2 + shift], accts[3 + shift..], amount,
                CheckedMint(accts, expected)))
    else None
  }

  function ApproveAction(accts: seq<Meta>, amount: u64, expected: Option<u8>): Option<Action> {
    var shift := if expected.Some? then 1 else 0;
    if 3 + shift <= |accts| then
      Some(SetDelegate(accts[0].key, accts[2 + shift], accts[3 + shift..], Some(Grant(accts[1 + shift].key, amount)),
                       CheckedMint(accts, expected)))
    else None
  }

  function SetAuthorityAction(accts: seq<Meta>, authorityType: AuthorityType,
                              authority: Option<Pubkey>): Option<Action> {
    if |accts| < 2 then None else
      match authorityType
      case MintTokens => Some(SetMinter(accts[0].key, accts[1], accts[2..], authority))
      case FreezeAccount => Some(SetFreezer(accts[0].key, accts[1], accts[2..], authority))
      case AccountOwner =>
        if authority.Some? then Some(SetOwner(accts[0].key, accts[1], accts[2..], authority.value)) else None
      case CloseAccount => Some(SetCloser(accts[0].key, accts[1], accts[2..], authority))
  }

  /** What the instruction asks for, if its accounts suffice to ask anything. */
  function ActionOf(env: Env, accts: seq<Meta>, ix: TokenInstruction): Option<Action> {
    match ix
    case InitializeMint(decimals, ma, fa) => InitMintAction(env, accts, decimals, ma, fa, true)
    case InitializeMint2(decimals, ma, fa) => InitMintAction(env, accts, decimals, ma, fa, false)
    case InitializeAccount => InitAccountAction(env, accts, None, true)
    case InitializeAccount2(owner) => InitAccountAction(env, accts, Some(owner), true)
    case InitializeAccount3(owner) => InitAccountAction(env, accts, Some(owner), false)
    case InitializeMultisig(m) => InitMultisigAction(env, accts, m, true)
    case InitializeMultisig2(m) => InitMultisigAction(env, accts, m, false)
    case Transfer(amount) => MoveAction(accts, amount, None)
    case TransferChecked(amount, decimals) => MoveAction(accts, amount, Some(decimals))
    case Approve(amount) => ApproveAction(accts, amount, None)
    case ApproveChecked(amount, decimals) => ApproveAction(accts, amount, Some(decimals))
    case Revoke =>
      if 2 <= |accts| then Some(SetDelegate(accts[0].key, accts[1], accts[2..], None, None)) else None
    case SetAuthority(authorityType, authority) => SetAuthorityAction(accts, authorityType, authority)
    case MintTo(amount) =>
      if 3 <= |accts| then Some(Issue(accts[0].key, accts[1].key, accts[2], accts[3..], amount, None)) else None
    case MintToChecked(amount, decimals) =>
      if 3 <= |accts|
      then Some(Issue(accts[0].key, accts[1].key, accts[2], accts[3..], amount, Some(decimals)))
      else None
    case Burn(amount) =>
      if 3 <= |accts| then Some(Destroy(accts[0].key, accts[1].key, accts[2], accts[3..], amount, None)) else None
    case BurnChecked(amount, decimals) =>
      if 3 <= |accts|
      then Some(Destroy(accts[0].key, accts[1].key, accts[2], accts[3..], amount, Some(decimals)))
      else None
    case CloseTokenAccount =>
      if 3 <= |accts| then Some(Close(accts[0].key, accts[1].key, accts[2], accts[3..])) else None
    case FreezeTokenAccount =>
      if 3 <= |accts| then Some(SetFrozen(accts[0].key, accts[1].key, accts[2], accts[3..], true)) else None
    case ThawAccount =>
      if 3 <= |accts| then Some(SetFrozen(accts[0].key, accts[1].key, accts[2], accts[3..], false)) else None
    case SyncNative => if 1 <= |accts| then Some(Sync(accts[0].key)) else None
    case GetAccountDataSize => if 1 <= |accts| then Some(ReadMint(accts[0].key)) else None
    case InitializeImmutableOwner => if 1 <= |accts| then Some(CheckFresh(accts[0].key)) else None
    case AmountToUiAmount(_) => if 1 <= |accts| then Some(ReadMint(accts[0].key)) else None
    case UiAmountToAmount(text) => if 1 <= |accts| then Some(ReadAmount(accts[0].key, text)) else None
  }

  // ---- Guards ----

  predicate Fresh(env: Env, l: Ledger, k: Pubkey, len: nat) {
    Owned(env, l, k) && l[k].data == ZeroData(len) && env.minimumBalance(len) <= l[k].lamports
  }

  /** The key's holder, or a quorum of its multisig, agreed. */
  predicate Agreed(env: Env, l: Ledger, key: Pubkey, auth: Meta, signers: seq<Meta>) {
    auth.key in l && ValidateOwner(env, l, key, auth, signers).Pass?
  }

  predicate Unfrozen(env: Env, l: Ledger, k: Pubkey) {
    TokenAt(env, l, k) && !TokenOf(l, k).IsFrozen()
  }

  predicate ByDelegate(a: Account, auth: Meta) {
    a.delegate == Some(auth.key)
  }

  /** The delegate within its allowance, or else the owner. */
  predicate MaySpend(env: Env, l: Ledger, a: Account, auth: Meta, signers: seq<Meta>, amount: u64) {
    if ByDelegate(a, auth) then Agreed(env, l, auth.key, auth, signers) && amount <= a.delegatedAmount
    else Agreed(env, l, a.owner, auth, signers)
  }

  predicate Passes(l: Ledger, check: Option<MintCheck>, mint: Pubkey) {
    CheckPresent(l, check) && CheckMint(l, check, mint).Pass?
  }

  predicate MeetsDecimals(m: Mint, expected: Option<u8>) {
    expected.Some? ==> expected.value == m.decimals
  }

  /** The record after `amount` was spent from it: a delegate's allowance shrinks, and is dropped
      when used up. */
  function Debited(a: Account, byDelegate: bool, amount: u64): Account
    requires amount <= a.amount && (byDelegate ==> amount <= a.delegatedAmount)
  {
    var left := if byDelegate then a.delegatedAmount - amount else a.delegatedAmount;
    a.(amount := a.amount - amount, delegatedAmount := left,
       delegate := if byDelegate && left == 0 then None else a.delegate)
  }

  predicate CanInitAccount(env: Env, l: Ledger, k: Pubkey, mint: Pubkey) {
    Fresh(env, l, k, ACCOUNT_LEN) && (mint == env.nativeMint || MintAt(env, l, mint))
  }

  predicate CanInitMultisig(env: Env, l: Ledger, k: Pubkey, m: u8, keys: seq<Pubkey>) {
    Fresh(env, l, k, MULTISIG_LEN) && 1 <= m <= 11 && 1 <= |keys| <= 11
  }

  predicate CanMove(env: Env, l: Ledger, s: Pubkey, d: Pubkey, auth: Meta, signers: seq<Meta>, amount: u64,
                    check: Option<MintCheck>)
  {
    && Unfrozen(env, l, s) && Unfrozen(env, l, d)
    && amount <= TokenOf(l, s).amount
    && TokenOf(l, s).mint == TokenOf(l, d).mint
    && Passes(l, check, TokenOf(l, s).mint)
    && MaySpend(env, l, TokenOf(l, s), auth, signers, amount)
  }

  predicate CanIssue(env: Env, l: Ledger, mint: Pubkey, d: Pubkey, auth: Meta, signers: seq<Meta>, amount: u64,
                     expected: Option<u8>)
  {
    && MintAt(env, l, mint) && Unfrozen(env, l, d)
    && !TokenOf(l, d).IsNative() && TokenOf(l, d).mint == mint
    && MeetsDecimals(MintOf(l, mint), expected)
    && MintOf(l, mint).mintAuthority.Some?
    && Agreed(env, l, MintOf(l, mint).mintAuthority.value, auth, signers)
    && MintOf(l, mint).supply + amount < U64_LIMIT
  }

  predicate CanDestroy(env: Env, l: Ledger, s: Pubkey, mint: Pubkey, auth: Meta, signers: seq<Meta>, amount: u64,
                       expected: Option<u8>)
  {
    && Unfrozen(env, l, s) && !TokenOf(l, s).IsNative() && TokenOf(l, s).mint == mint
    && amount <= TokenOf(l, s).amount
    && MintAt(env, l, mint)
    && MeetsDecimals(MintOf(l, mint), expected)
    && (TokenOf(l, s).IsOwnedBySystemProgramOrIncinerator(env)
        || MaySpend(env, l, TokenOf(l, s), auth, signers, amount))
  }

  predicate CanSetDelegate(env: Env, l: Ledger, k: Pubkey, auth: Meta, signers: seq<Meta>, check: Option<MintCheck>) {
    && Unfrozen(env, l, k)
    && Passes(l, check, TokenOf(l, k).mint)
    && Agreed(env, l, TokenOf(l, k).owner, auth, signers)
  }

  predicate CanSetOwner(env: Env, l: Ledger, k: Pubkey, auth: Meta, signers: seq<Meta>) {
    Unfrozen(env, l, k) && Agreed(env, l, TokenOf(l, k).owner, auth, signers)
  }

  function Closer(a: Account): Pubkey {
    a.closeAuthority.GetOr(a.owner)
  }

  predicate CanSetCloser(env: Env, l: Ledger, k: Pubkey, auth: Meta, signers: seq<Meta>) {
    Unfrozen(env, l, k) && Agreed(env, l, Closer(TokenOf(l, k)), auth, signers)
  }

  predicate CanSetMinter(env: Env, l: Ledger, mint: Pubkey, auth: Meta, signers: seq<Meta>) {
    && MintAt(env, l, mint) && MintOf(l, mint).mintAuthority.Some?
    && Agreed(env, l, MintOf(l, mint).mintAuthority.value, auth, signers)
  }

  predicate CanSetFreezer(env: Env, l: Ledger, mint: Pubkey, auth: Meta, signers: seq<Meta>) {
    && MintAt(env, l, mint) && MintOf(l, mint).freezeAuthority.Some?
    && Agreed(env, l, MintOf(l, mint).freezeAuthority.value, auth, signers)
  }

  predicate CanClose(env: Env, l: Ledger, s: Pubkey, d: Pubkey, auth: Meta, signers: seq<Meta>) {
    && s != d && d in l
    && TokenAt(env, l, s) && (TokenOf(l, s).IsNative() || TokenOf(l, s).amount == 0)
    && (if TokenOf(l, s).IsOwnedBySystemProgramOrIncinerator(env) then d == env.incinerator
        else Agreed(env, l, Closer(TokenOf(l, s)), auth, signers))
  }

  predicate CanSetFrozen(env: Env, l: Ledger, k: Pubkey, mint: Pubkey, auth: Meta, signers: seq<Meta>, frozen: bool) {
    && TokenAt(env, l, k) && TokenOf(l, k).IsFrozen() != frozen
    && !TokenOf(l, k).IsNative() && TokenOf(l, k).mint == mint
    && CanSetFreezer(env, l, mint, auth, signers)
  }

  predicate CanSync(env: Env, l: Ledger, k: Pubkey) {
    TokenAt(env, l, k) && TokenOf(l, k).IsNative()
  }

  predicate Enabled(env: Env, l: Ledger, act: Action) {
    match act
    case InitMint(k, _, _, _) => Fresh(env, l, k, MINT_LEN)
    case InitAccount(k, mint, _) => CanInitAccount(env, l, k, mint)
    case InitMultisig(k, m, keys) => CanInitMultisig(env, l, k, m, keys)
    case Move(s, d, auth, signers, amount, check) => CanMove(env, l, s, d, auth, signers, amount, check)
    case Issue(mint, d, auth, signers, amount, expected) => CanIssue(env, l, mint, d, auth, signers, amount, expected)
    case Destroy(s, mint, auth, signers, amount, expected) =>
      CanDestroy(env, l, s, mint, auth, signers, amount, expected)
    case SetDelegate(k, auth, signers, _, check) => CanSetDelegate(env, l, k, auth, signers, check)
    case SetOwner(k, auth, signers, _) => CanSetOwner(env, l, k, auth, signers)
    case SetCloser(k, auth, signers, _) => CanSetCloser(env, l, k, auth, signers)
    case SetMinter(mint, auth, signers, _) => CanSetMinter(env, l, mint, auth, signers)
    case SetFreezer(mint, auth, signers, _) => CanSetFreezer(env, l, mint, auth, signers)
    case Close(s, d, auth, signers) => CanClose(env, l, s, d, auth, signers)
    case SetFrozen(k, mint, auth, signers, frozen) => CanSetFrozen(env, l, k, mint, auth, signers, frozen)
    case Sync(k) => CanSync(env, l, k)
    case ReadMint(mint) => MintAt(env, l, mint)
    case ReadAmount(mint, text) =>
      MintAt(env, l, mint) && TryUiAmountIntoAmountSpec(text, MintOf(l, mint).decimals).Ok?
    case CheckFresh(k) => k in l && l[k].data.AccountData? && !l[k].data.account.IsInitialized()
  }

  // ---- Effects ----

  function NewAccount(env: Env, l: Ledger, k: Pubkey, mint: Pubkey, owner: Pubkey): Account
    requires CanInitAccount(env, l, k, mint)
  {
    var reserve := env.minimumBalance(ACCOUNT_LEN);
    if mint == env.nativeMint
    then Account(mint, owner, l[k].lamports - reserve, None, Initialized, Some(reserve), 0, None)
    else Account(mint, owner, 0, None, Initialized, None, 0, None)
  }

  function NewMultisig(m: u8, keys: seq<Pubkey>): Multisig
    requires |keys| <= 11
  {
    Multisig(m, |keys|, true, keys + seq(11 - |keys|, i => ZERO_KEY))
  }

  // The four effects below add or subtract. Where a sum would not fit they change nothing; under
  // the invariant it always fits (`AddsFit`, `LamportsAddFit`, `HeldInSupply`).

  /** Tokens, and for a native account as many lamports, go from `s` to `d`. */
  function Moved(l: Ledger, s: Pubkey, d: Pubkey, byDelegate: bool, amount: u64): Ledger
    requires s in l && d in l && l[s].data.AccountData? && l[d].data.AccountData?
    requires amount <= TokenOf(l, s).amount && (byDelegate ==> amount <= TokenOf(l, s).delegatedAmount)
  {
    var a, b := TokenOf(l, s), TokenOf(l, d);
    var moved := if a.IsNative() then amount else 0;
    if s != d && b.amount + amount < U64_LIMIT && moved <= l[s].lamports && l[d].lamports + moved < U64_LIMIT then
      l[s := Cell(l[s].lamports - moved, l[s].owner, AccountData(Debited(a, byDelegate, amount)))]
       [d := Cell(l[d].lamports + moved, l[d].owner, AccountData(b.(amount := b.amount + amount)))]
    else l
  }

  /** Tokens appear at `d`, and the supply grows by as many. */
  function Issued(l: Ledger, mint: Pubkey, d: Pubkey, amount: u64): Ledger
    requires mint in l && d in l && l[mint].data.MintData? && l[d].data.AccountData?
  {
    var a, m := TokenOf(l, d), MintOf(l, mint);
    if a.amount + amount < U64_LIMIT && m.supply + amount < U64_LIMIT then
      WithData(WithData(l, d, AccountData(a.(amount := a.amount + amount))), mint,
               MintData(m.(supply := m.supply + amount)))
    else l
  }

  /** Tokens vanish from `s`, and the supply shrinks by as many. */
  function Destroyed(l: Ledger, s: Pubkey, mint: Pubkey, byDelegate: bool, amount: u64): Ledger
    requires mint in l && s in l && l[mint].data.MintData? && l[s].data.AccountData?
    requires amount <= TokenOf(l, s).amount && (byDelegate ==> amount <= TokenOf(l, s).delegatedAmount)
  {
    var a, m := TokenOf(l, s), MintOf(l, mint);
    if amount <= m.supply then
      WithData(WithData(l, s, AccountData(Debited(a, byDelegate, amount))), mint,
               MintData(m.(supply := m.supply - amount)))
    else l
  }

  /** All lamports of `s` go to `d`, and `s` is deleted. */
  function Closed(env: Env, l: Ledger, s: Pubkey, d: Pubkey): Ledger
    requires s in l && d in l
  {
    if l[d].lamports + l[s].lamports < U64_LIMIT then
      l[d := l[d].(lamports := l[d].lamports + l[s].lamports)][s := Cell(0, env.systemProgram, Opaque([]))]
    else l
  }

  function Synced(l: Ledger, k: Pubkey): Ledger
    requires k in l && l[k].data.AccountData? && TokenOf(l, k).IsNative()
  {
    var reserve := TokenOf(l, k).isNative.value;
    if reserve <= l[k].lamports
    then WithData(l, k, AccountData(TokenOf(l, k).(amount := l[k].lamports - reserve)))
    else l
  }

  function Delegated(a: Account, grant: Option<Grant>): Account {
    match grant
    case Some(g) => a.(delegate := Some(g.delegate), delegatedAmount := g.amount)
    case None => a.(delegate := None, delegatedAmount := 0)
  }

  function Reowned(a: Account, owner: Pubkey): Account {
    a.(owner := owner, delegate := None, delegatedAmount := 0,
       closeAuthority := if a.IsNative() then None else a.closeAuthority)
  }

  predicate DestroysByDelegate(env: Env, a: Account, auth: Meta) {
    ByDelegate(a, auth) && !a.IsOwnedBySystemProgramOrIncinerator(env)
  }

  /** What an enabled action leaves. */
  function Effect(env: Env, l: Ledger, act: Action): Ledger
    requires Enabled(env, l, act)
  {
    match act
    case InitMint(k, decimals, ma, fa) => WithData(l, k, MintData(Mint(Some(ma), 0, decimals, true, fa)))
    case InitAccount(k, mint, owner) => WithData(l, k, AccountData(NewAccount(env, l, k, mint, owner)))
    case InitMultisig(k, m, keys) => WithData(l, k, MultisigData(NewMultisig(m, keys)))
    case Move(s, d, auth, _, amount, _) => Moved(l, s, d, ByDelegate(TokenOf(l, s), auth), amount)
    case Issue(mint, d, _, _, amount, _) => Issued(l, mint, d, amount)
    case Destroy(s, mint, auth, _, amount, _) =>
      Destroyed(l, s, mint, DestroysByDelegate(env, TokenOf(l, s), auth), amount)
    case SetDelegate(k, _, _, grant, _) => WithData(l, k, AccountData(Delegated(TokenOf(l, k), grant)))
    case SetOwner(k, _, _, owner) => WithData(l, k, AccountData(Reowned(TokenOf(l, k), owner)))
    case SetCloser(k, _, _, authority) => WithData(l, k, AccountData(TokenOf(l, k).(closeAuthority := authority)))
    case SetMinter(mint, _, _, authority) => WithData(l, mint, MintData(MintOf(l, mint).(mintAuthority := authority)))
    case SetFreezer(mint, _, _, authority) =>
      WithData(l, mint, MintData(MintOf(l, mint).(freezeAuthority := authority)))
    case Close(s, d, _, _) => Closed(env, l, s, d)
    case SetFrozen(k, _, _, _, frozen) =>
      WithData(l, k, AccountData(TokenOf(l, k).(state := if frozen then Frozen else Initialized)))
    case Sync(k) => Synced(l, k)
    case _ => l
  }

  /** The cells an action may change. */
  function Touched(act: Action): set<Pubkey> {
    match act
    case InitMint(k, _, _, _) => {k}
    case InitAccount(k, _, _) => {k}
    case InitMultisig(k, _, _) => {k}
    case Move(s, d, _, _, _, _) => {s, d}
    case Issue(mint, d, _, _, _, _) => {mint, d}
    case Destroy(s, mint, _, _, _, _) => {s, mint}
    case SetDelegate(k, _, _, _, _) => {k}
    case SetOwner(k, _, _, _) => {k}
    case SetCloser(k, _, _, _) => {k}
    case SetMinter(k, _, _, _) => {k}
    case SetFreezer(k, _, _, _) => {k}
    case Close(s, d, _, _) => {s, d}
    case SetFrozen(k, _, _, _, _) => {k}
    case Sync(k) => {k}
    case _ => {}
  }

  /** The cell an action rewrites in place, if it is one of those that rewrite a single record. */
  function Rewritten(act: Action): Option<Pubkey> {
    match act
    case InitMint(k, _, _, _) => Some(k)
    case InitAccount(k, _, _) => Some(k)
    case InitMultisig(k, _, _) => Some(k)
    case SetDelegate(k, _, _, _, _) => Some(k)
    case SetOwner(k, _, _, _) => Some(k)
    case SetCloser(k, _, _, _) => Some(k)
    case SetMinter(k, _, _, _) => Some(k)
    case SetFreezer(k, _, _, _) => Some(k)
    case SetFrozen(k, _, _, _, _) => Some(k)
    case Sync(k) => Some(k)
    case _ => None
  }

  lemma Untouched(env: Env, l: Ledger, act: Action, k: Pubkey)
    requires Enabled(env, l, act) && k in l && k !in Touched(act)
    ensures k in Effect(env, l, act) && Effect(env, l, act)[k] == l[k]
  {
  }

  /** The protocol step: asked for, granted, and done. */
  predicate Takes(env: Env, l: Ledger, act: Action, after: Ledger) {
    Enabled(env, l, act) && after == Effect(env, l, act)
  }
}
