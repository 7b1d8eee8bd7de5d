/** The program's three records, the cells that hold them, and the ledger of all cells. */
module State {
  import opened Types

  const MINT_LEN: nat := 82
  const ACCOUNT_LEN: nat := 165
  const MULTISIG_LEN: nat := 355

  datatype Mint = Mint(
    mintAuthority: Option<Pubkey>,
    supply: u64,
    decimals: u8,
    isInitialized: bool,
    freezeAuthority: Option<Pubkey>)

  datatype AccountState = Uninitialized | Initialized | Frozen

  datatype Account = Account(
    mint: Pubkey,
    owner: Pubkey,
    amount: u64,
    delegate: Option<Pubkey>,
    state: AccountState,
    isNative: Option<u64>,
    delegatedAmount: u64,
    closeAuthority: Option<Pubkey>)
  {
    predicate IsFrozen() { state == Frozen }
    predicate IsInitialized() { state != Uninitialized }
    predicate IsNative() { isNative.Some? }
    predicate IsOwnedBySystemProgramOrIncinerator(env: Env) {
      owner == env.systemProgram || owner == env.incinerator
    }
  }

  type SignerArray = s: seq<Pubkey> | |s| == 11 witness seq(11, i => ZERO_KEY)

  datatype Multisig = Multisig(m: u8, n: u8, isInitialized: bool, signers: SignerArray)

  /** What a zeroed buffer of the record's length decodes to. */
  const EMPTY_MINT := Mint(None, 0, 0, false, None)
  const EMPTY_ACCOUNT := Account(ZERO_KEY, ZERO_KEY, 0, None, Uninitialized, None, 0, None)
  const EMPTY_MULTISIG := Multisig(0, 0, false, seq(11, i => ZERO_KEY))

  /** A cell's data, decoded by its length; `Opaque` bytes decode to none of the three records. */
  datatype Data =
    | MintData(mint: Mint)
    | AccountData(account: Account)
    | MultisigData(multisig: Multisig)
    | Opaque(bytes: Bytes)
  {
    function Len(): nat {
      match this
      case MintData(_) => MINT_LEN
      case AccountData(_) => ACCOUNT_LEN
      case MultisigData(_) => MULTISIG_LEN
      case Opaque(bytes) => |bytes|
    }

    predicate IsInitialized() {
      match this
      case MintData(m) => m.isInitialized
      case AccountData(a) => a.IsInitialized()
      case MultisigData(ms) => ms.isInitialized
      case Opaque(_) => false
    }
  }

  /** The decoding of `len` zero bytes. */
  function ZeroData(len: nat): Data {
    if len == MINT_LEN then MintData(EMPTY_MINT)
    else if len == ACCOUNT_LEN then AccountData(EMPTY_ACCOUNT)
    else if len == MULTISIG_LEN then MultisigData(EMPTY_MULTISIG)
    else Opaque(seq(len, i => 0))
  }

  datatype Cell = Cell(lamports: u64, owner: Pubkey, data: Data)

  /** Every cell of the chain by its key. Two accounts of an instruction with the same key are
      the same cell. */
  type Ledger = map<Pubkey, Cell>

  /** One entry of an instruction's account list. */
  datatype Meta = Meta(key: Pubkey, isSigner: bool)

  /** The fixed keys, and the rent minimum for each data length. */
  datatype Env = Env(
    programId: Pubkey,
    nativeMint: Pubkey,
    systemProgram: Pubkey,
    incinerator: Pubkey,
    rentSysvar: Pubkey,
    minimumBalance: nat -> u64)
  {
    ghost predicate Valid() {
      && programId != systemProgram
      && systemProgram != incinerator
      && forall len: nat :: 0 < minimumBalance(len)
    }

    predicate IsExempt(c: Cell) {
      minimumBalance(c.data.Len()) <= c.lamports
    }
  }

  predicate Present(l: Ledger, accts: seq<Meta>) {
    forall i | 0 <= i < |accts| :: accts[i].key in l
  }

  // `unpack_unchecked` accepts any decodable record of the right length; `unpack` also wants it
  // initialized.

  function UnpackMintUnchecked(d: Data): Result<Mint> {
    if d.MintData? then Ok(d.mint) else Err(InvalidAccountData)
  }

  function UnpackMint(d: Data): Result<Mint> {
    var m :- UnpackMintUnchecked(d);
    if m.isInitialized then Ok(m) else Err(UninitializedAccount)
  }

  function UnpackAccountUnchecked(d: Data): Result<Account> {
    if d.AccountData? then Ok(d.account) else Err(InvalidAccountData)
  }

  function UnpackAccount(d: Data): Result<Account> {
    var a :- UnpackAccountUnchecked(d);
    if a.IsInitialized() then Ok(a) else Err(UninitializedAccount)
  }

  function UnpackMultisigUnchecked(d: Data): Result<Multisig> {
    if d.MultisigData? then Ok(d.multisig) else Err(InvalidAccountData)
  }

  function UnpackMultisig(d: Data): Result<Multisig> {
    var ms :- UnpackMultisigUnchecked(d);
    if ms.isInitialized then Ok(ms) else Err(UninitializedAccount)
  }
}
