/** The twenty-five instructions of the program and the two byte enumerations they use. */
module Instruction {
  import opened Types

  datatype AuthorityType = MintTokens | FreezeAccount | AccountOwner | CloseAccount

  datatype TokenInstruction =
    | InitializeMint(decimals: u8, mintAuthority: Pubkey, freezeAuthority: Option<Pubkey>)
    | InitializeAccount
    | InitializeMultisig(m: u8)
    | Transfer(amount: u64)
    | Approve(amount: u64)
    | Revoke
    | SetAuthority(authorityType: AuthorityType, newAuthority: Option<Pubkey>)
    | MintTo(amount: u64)
    | Burn(amount: u64)
    | CloseTokenAccount
    | FreezeTokenAccount
    | ThawAccount
    | TransferChecked(amount: u64, decimals: u8)
    | ApproveChecked(amount: u64, decimals: u8)
    | MintToChecked(amount: u64, decimals: u8)
    | BurnChecked(amount: u64, decimals: u8)
    | InitializeAccount2(owner: Pubkey)
    | SyncNative
    | InitializeAccount3(owner: Pubkey)
    | InitializeMultisig2(m: u8)
    | InitializeMint2(decimals: u8, mintAuthority: Pubkey, freezeAuthority: Option<Pubkey>)
    | GetAccountDataSize
    | InitializeImmutableOwner
    | AmountToUiAmount(amount: u64)
    | UiAmountToAmount(uiAmount: Bytes)

  /** Between one and eleven signers. */
  predicate IsValidSignerIndex(index: nat) {
    1 <= index <= 11
  }
}
