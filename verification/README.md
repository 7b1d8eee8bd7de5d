# A verified model of the SPL Token programs

This project models the Solana token program and proves what it is relied on for. It covers four parts of
the repository:

- the Rust processor (`token/src/processor.rs`), all twenty-five instructions, as a state machine over a ledger of
  cells in which any two accounts of an instruction may be the same cell;
- the reduced Zig rewrite (`token/zig/src/main.zig`), which writes first and checks afterwards, proved to commit the
  same ledgers;
- the codecs: decimal UI amounts (`token/src/lib.rs`), packed records (`token/src/state.rs`) and the instruction wire
  format (`token/src/instruction.rs`);
- the assembly lamport transfer (`transfer-lamports/asm/main.s`).

## How the ledger is modelled

A ledger maps keys to cells; a cell has lamports, an owning program, and data. Data is kept decoded (mint, token
account, multisig, or opaque bytes of some length). `ByteLedger.BytesInvokeSimulates` and `ByteLedger.BytesRunSimulates`
justify that: invocations and runs on buffers of bytes, the host's comparison of bytes included, decode to invocations
and runs of this ledger, and `RecordCodec.DecodeZeros` says what a fresh cell decodes to. An instruction is a list of
(key, is-signer) pairs and a decoded instruction.

The code relies on its host, so the host's contract is part of the model:

- an instruction that returns an error, or panics, changes nothing (`Spec.Invoke`);
- a successful instruction is still discarded if it changed data, or lowered the lamports, of a cell the program does
  not own (`Spec.Admissible`). The processor compares owners itself only where nothing would be written;
- all lamports together fit in 64 bits;
- a cell comes to the program zeroed. Between instructions the rest of the chain may do anything to cells the program
  does not own, and may deposit lamports on those it owns (`Invariant.WorldStep`);
- rent is a positive minimum for each data length that never changes; the fixed keys (program, native mint, system
  program, incinerator, rent sysvar) are parameters;
- a run starts where nothing of the program is initialized, the native mint excepted (`Invariant.Genesis`).

Deleting a closed account follows the on-chain variant: new owner, no data.

## How it is layered

1. `Processor` and `Zig` are the programs as written: methods that overwrite cells in a field, statement by statement,
   with the source's order of checks and its error codes. Each is proved equal to a function in `Spec` or `ZigSpec`.
   The authority-and-allowance step of a debit, the writes of a transfer, the filling of a signer array, the expected-mint
   check and the dispatch of initializations and queries are methods of their own here and stand inline in the source.
2. `Actions` says the same as a protocol: what each instruction asks for, when it is granted, what it changes. There
   are no error codes, no order of checks, and no arithmetic that can fail.
3. `Exactness` proves that under the invariant (`Invariant.Inv`) an instruction commits exactly the effect of its
   granted action, or nothing. This is where missing owner checks and impossible overflows are discharged.
4. `Preservation`, `Steps`, `Runs` and `Guarantees` prove the invariant, the per-step rules and their consequences over
   every run. `ZigRefinement` does the same for the rewrite and compares the two programs. `Incinerated` and
   `LookAlike` hold concrete ledgers on which two expectations fail.
5. `Rules` says what single instructions need and leave in terms of account lists, keys and record fields alone, and the
   codecs are also pinned to their bytes: layouts, tags, byte order, the form of printed amounts, and UTF-8.
6. `ByteLedger` carries the results over to ledgers of bytes.

Where the rewrite leaves fields alone that the processor resets, the proof uses that fresh cells are zero; where it
detects self-transfers and self-closes from the resulting numbers, it uses that live accounts pay rent; where it adds
and subtracts without checking, it uses that balances are part of the supply and lamports fit.

## What turned out not to hold

- "The parser accepts exactly the texts that denote an amount." `str::parse` takes a leading plus sign, and the pieces are
  glued together before parsing, so ".+5" is 5 at two decimals (`UiAmount.PlusInFractionIsTaken`). It holds of a text iff
  the text is no signed numeral (`UiAmount.AcceptsWhatIsDenotedIff`).
- "Both programs commit the same ledgers." The processor lets anyone burn tokens of the system program or the incinerator,
  and close their accounts to the incinerator; the rewrite asks their owner. `Incinerated.BurnsDiffer` and
  `Incinerated.ClosesDiffer` show it on ledgers that runs of the rewrite reach. It holds iff the conditions of
  `ZigRefinement.BurnsAgreeIff` and `ZigRefinement.ClosesAgreeIff` do.
- "What commits was granted." The procedures that set a delegate or an authority do not compare owners, so on a cell of
  another program that looks like an account or a mint they can write back what is there (`LookAlike.EchoCommits`). It
  holds of an instruction iff it is no such echo (`Exactness.OnlyGrantedCommitIff`); an echo changes nothing.
- "More than eleven signers are refused as a wrong number." Their number is cut to a byte first, so 257 signers pass for
  one and overrun the array (`Guarantees.List257Panics`). It holds iff the byte is out of range
  (`Guarantees.TooManySignersRefusedIff`).

## Model

| member | source | states |
|---|---|---|
| `Runs.SupplyConservation` | token/src/processor.rs:522-669 | in every ledger any run can reach, the supply of a mint other than the native one is the sum of the amounts of all token accounts naming it |
| `Runs.TokenIntegrity` | token/src/processor.rs:105-139 | in every reachable ledger a token account is native iff its mint is the native mint, a native one is never frozen and has lamports for reserve plus amount, any other names a live mint and holds at most its supply; no delegate means no allowance; rent is paid |
| `Runs.RecordIntegrity` | token/src/processor.rs:45-59 | in every reachable ledger an initialized record holds its rent minimum, an uninitialized cell of the program is all zero, and an initialized multisig has m and n between 1 and 11 |
| `Runs.InvokeConservesLamports` | token/src/processor.rs:323-333 | no instruction changes the sum of lamports of all cells, whatever accounts it names twice |
| `Runs.RunKeepsInv` | token/src/processor.rs:847-963 | the invariant holds after every sequence of instructions and moves of the rest of the chain |
| `Runs.MintOfTokenIsFixed` | token/src/processor.rs:105-139 | while a token account exists, no run changes its mint or its native reserve |
| `Runs.MintsForever` | token/src/processor.rs:477-512 | along every run a mint stays, keeps its decimals, never regains a mint or freeze authority it gave up, and without a mint authority its supply never grows |
| `Runs.FixedSupplyBoundsHolders` | token/src/processor.rs:552-560 | once a mint has no mint authority, what its holders hold together never increases, along any run |
| `Runs.MultisigsForever` | token/src/processor.rs:187-213 | no run changes an initialized multisig |
| `Runs.FrozenForever` | token/src/processor.rs:250-252 | a frozen account with tokens keeps every field and stays open along every run without a successful thaw |
| `Runs.UnfreezableForever` | token/src/processor.rs:735-744 | once a mint has no freeze authority, no run changes the state of any of its accounts |
| `Runs.DelegationBooks` | token/src/processor.rs:274-294 | along every run in which owner and closer leave the account alone, what left it on the delegate's authority plus the remaining allowance equals the allowance at the start |
| `Runs.ApprovalBounds` | token/src/processor.rs:387-388 | after an approval of an amount, at most that amount leaves on the delegate's authority until the next approve, revoke, change of owner or close, and the remaining allowance is exactly the rest |
| `Steps.EveryChangeIsAuthorized` | token/src/processor.rs:228-710 | whatever a granted action does to any token account: its amount falls by the stated amount only if its owner, or its delegate with enough allowance, agreed (or it belongs to the system program or the incinerator and was burned); owner, delegate, allowance, close authority and frozen state change, and the account disappears, only with the right authority's agreement; mint and reserve never change |
| `Steps.EveryMintChangeIsAuthorized` | token/src/processor.rs:477-668 | whatever a granted action does to any mint: its supply grows only by an issue of exactly that amount its mint authority agreed to, and shrinks only by a burn of exactly that amount that was granted; each authority changes only to the one asked for, with the agreement of the one in place; decimals never change |
| `Steps.MintsOnlyLose` | token/src/processor.rs:477-512 | consequently one step never removes a mint, changes its decimals, revives an authority, or raises a fixed supply |
| `Steps.MultisigsNeverChange` | token/src/processor.rs:187-213 | one step never changes an initialized multisig |
| `Steps.FrozenIsStuck` | token/src/processor.rs:725-752 | one step other than a thaw changes no byte of a frozen account that holds tokens |
| `Steps.AllowanceStep` | token/src/processor.rs:274-294 | in one step, what a delegate spends is exactly what its allowance and the balance lose |
| `Exactness.Exactness` | token/src/processor.rs:847-963 | under the invariant every instruction that is granted succeeds, passes the host and leaves the protocol's effect; an echo (a change of delegate or authority, agreed to, on a cell of another program that already shows it) succeeds and changes nothing; nothing else gets through |
| `Exactness.CommitsExactly` | token/src/processor.rs:847-963 | an instruction commits a ledger iff that ledger is the effect of its granted action, or the action is an echo and the ledger is the old one |
| `Exactness.OnlyGrantedCommitIff` | token/src/processor.rs:847-963 | everything an instruction commits was granted iff the instruction is no echo |
| `Exactness.ExactApprove` | token/src/processor.rs:345-393 | approving commits iff granted, or iff the foreign look-alike already shows this delegate and amount |
| `Exactness.ExactRevoke` | token/src/processor.rs:396-421 | revoking commits iff granted, or iff the foreign look-alike shows no delegate and no allowance |
| `Exactness.ExactSetOwner` | token/src/processor.rs:442-462 | changing the owner commits iff granted, or iff the foreign look-alike already shows the owner and none of what the change clears |
| `Exactness.ExactSetCloser` | token/src/processor.rs:463-472 | changing the close authority commits iff granted, or iff the foreign look-alike already shows it |
| `Exactness.ExactSetMinter` | token/src/processor.rs:481-494 | changing the mint authority commits iff granted, or iff the foreign look-alike already shows it |
| `Exactness.ExactSetFreezer` | token/src/processor.rs:495-508 | changing the freeze authority commits iff granted, or iff the foreign look-alike already shows it |
| `LookAlike.EchoCommits` | token/src/processor.rs:363-392 | a concrete reachable ledger and approval that commits on a cell the program does not own, without a granted action |
| `Exactness.InvokeIsStep` | token/src/processor.rs:847-963 | one invocation is one protocol step or none |
| `Exactness.ExactTransfer` | token/src/processor.rs:250-339 | a transfer commits iff both accounts are live, unfrozen, of one mint (and the expected one), the amount is there, and owner or delegate agreed; then tokens and native lamports move, a self-transfer changes nothing |
| `Exactness.ExactMintTo` | token/src/processor.rs:533-583 | minting commits iff mint and account are genuine, the authority agreed and the supply fits; then supply and amount grow together |
| `Exactness.ExactBurn` | token/src/processor.rs:599-668 | burning commits iff the tokens are there and whoever must agreed; then supply, amount and allowance shrink together |
| `Exactness.ExactToggleFreeze` | token/src/processor.rs:719-755 | freezing and thawing commit iff the genuine mint's freeze authority agreed, although the mint's owner is not checked |
| `Exactness.ExactClose` | token/src/processor.rs:677-710 | closing commits iff the account is empty or native, the destination is another cell, and the close authority agreed (or incinerated lamports go to the incinerator) |
| `Exactness.ExactSetAuthority` | token/src/processor.rs:424-519 | each kind of authority is changed exactly with the agreement of the authority in place; on a foreign cell a change gets through exactly if it is an echo |
| `Exactness.ExactSync` | token/src/processor.rs:758-780 | syncing commits iff the account is a native account of the program |
| `Exactness.ExactInitMint` | token/src/processor.rs:29-62 | initializing a mint commits iff the cell is the program's, zero and rent-exempt; the record starts with no supply |
| `Exactness.ExactInitAccount` | token/src/processor.rs:84-143 | initializing an account commits iff the cell is fresh and the mint is native or genuine; all fields come out as for a new account |
| `Exactness.ExactInitMultisig` | token/src/processor.rs:173-213 | initializing a multisig commits iff the cell is fresh and both numbers are between 1 and 11; the keys given are stored in order |
| `Exactness.AddsFit` | token/src/processor.rs:317-321 | two distinct accounts of one mint hold amounts whose sum fits in 64 bits |
| `Exactness.HeldInSupply` | token/src/processor.rs:656-663 | a non-native account's mint is genuine and its amount is at most the supply |
| `Rules.TransferCheckedIff` | token/src/processor.rs:238-269 | a checked transfer commits iff at least four accounts are given, the second is the live mint the source names, of the decimals given, and the plain transfer without that account commits the same |
| `Rules.ApproveCheckedIff` | token/src/processor.rs:355-378 | the same for approvals |
| `Rules.MintToCheckedIff` | token/src/processor.rs:545-550 | a checked minting commits iff the plain one does and the mint has the decimals given |
| `Rules.BurnCheckedIff` | token/src/processor.rs:615-619 | a checked burn commits iff the plain one does and the mint has the decimals given |
| `Rules.InitializeMultisigStores` | token/src/processor.rs:196-210 | a committed initialization leaves m, the number of signers given, every signer's own key at its own place, zeros behind, and no other change |
| `Rules.CloseIff` | token/src/processor.rs:678-707 | a token account's close commits iff the destination is another cell, the account is native or empty, and: its owner is the system program or the incinerator and the destination is the incinerator, or else the close authority if there is one, otherwise the owner, is the third account and agreed; what it leaves is written out |
| `Rules.CloseByWalletIff` | token/src/processor.rs:687-696 | with a wallet third and an ordinary owner: iff the destination is another cell, the account is native or empty, and that wallet signed and is the close authority, or without one the owner |
| `Rules.SetCloserIff` | token/src/processor.rs:463-472 | a change of the close authority commits iff the account is not frozen and the close authority in place, or without one the owner, is the second account and agreed |
| `Rules.SetCloserByWalletIff` | token/src/processor.rs:463-472 | with a wallet second: iff it signed and is that key |
| `Rules.BurnIff` | token/src/processor.rs:602-649 | a burn from a token account commits iff the account is neither frozen nor native, names the mint and holds the amount, and: its owner is the system program or the incinerator, or its delegate within the allowance agreed, or (no delegate being third) its owner did |
| `Rules.AnyoneBurnsNobodys` | token/src/processor.rs:621-649 | anyone burns what is owned by the system program or the incinerator |
| `Rules.WalletAgreesIff` | token/src/processor.rs:981-1015 | a cell that is not the program's, or not as long as a multisig, agrees iff it is the expected key and signed |
| `Rules.OnlyMultisigsAgree` | token/src/processor.rs:987-990 | a cell of the program as long as a multisig agrees only as an initialized multisig |
| `Preservation.StepKeeps` | token/src/processor.rs:228-710 | every granted action keeps the invariant and the sum of lamports, under any aliasing |
| `Invariant.WorldPreserves` | token/src/processor.rs:303-306 | nothing the rest of the chain may do breaks the invariant |
| `Guarantees.MultisigAgreesExactly` | token/src/processor.rs:990-1010 | an initialized multisig agrees iff every account that is the first with a named key signed and at least m positions are named, for signer lists of any length |
| `Guarantees.TooManyRequired` | token/src/processor.rs:1005-1007 | a multisig with m greater than n never agrees |
| `Guarantees.RepeatsAddNothing` | token/src/processor.rs:994-1004 | giving an account again, signed or not, never changes whether the multisig agrees |
| `Guarantees.InitializeMultisigPanicsIff` | token/src/processor.rs:196-207 | initializing a multisig panics iff all else is in order, more than eleven signers are given and their number modulo 256 is between 1 and 11 |
| `Guarantees.TooManySignersRefusedIff` | token/src/processor.rs:196-201 | more than eleven signers are refused as a wrong number iff their number modulo 256 is 0 or above 11 |
| `Guarantees.List257Panics` | token/src/processor.rs:196-207 | 257 signers pass for one and panic |
| `Guarantees.TransferNeverOverflows` | token/src/processor.rs:317-333 | between accounts of the program a transfer never returns Overflow |
| `Guarantees.BurnNeverOverflows` | token/src/processor.rs:656-663 | burning from an account of the program never returns Overflow |
| `Guarantees.CloseNeverOverflows` | token/src/processor.rs:701-704 | closing never returns Overflow |
| `Guarantees.MintToOverflowsExactly` | token/src/processor.rs:567-575 | with mint and account owned by the program, minting returns Overflow iff all other checks pass and supply plus amount exceeds 64 bits; the holder's balance is never the cause |
| `Guarantees.SyncNativeAlwaysWorks` | token/src/processor.rs:758-780 | syncing a native account of the program always succeeds, never lowers its amount and leaves lamports equal to reserve plus amount |
| `Guarantees.AmountQueriesAgree` | token/src/processor.rs:811-844 | for a genuine mint, the text answered for an amount is answered with that amount |
| `Guarantees.UiAmountReplyForm` | token/src/processor.rs:811-826 | the text answered is the numeral of the whole units at the mint's decimals, and behind a dot, if there is a rest, its digits without trailing zeros |
| `Guarantees.AmountReplyIff` | token/src/processor.rs:829-844 | the amount answered is exactly the one the text denotes at the mint's decimals; other accounts and texts are refused |
| `Processor.Processor.CheckMultisig` | token/src/processor.rs:991-1008 | the nested loops compute exactly: every named position met is signed at its first account, and at least m are met |
| `Processor.Processor.CheckOwner` | token/src/processor.rs:981-1015 | the authority check, with its error codes in order |
| `Processor.Processor.InitializeMint` | token/src/processor.rs:29-62 | outcome, error code and new cells are those of the specification |
| `Processor.Processor.InitializeAccount` | token/src/processor.rs:84-143 | outcome, error code and new cells are those of the specification |
| `Processor.Processor.InitializeMultisig` | token/src/processor.rs:173-213 | outcome, error code and new cells are those of the specification |
| `Processor.Processor.FillSigners` | token/src/processor.rs:205-207 | the loop stores the keys in order over the front of the array, keeps the rest, and panics at a twelfth |
| `Processor.Processor.Transfer` | token/src/processor.rs:228-342 | outcome, error code and new cells are those of the specification, for any aliasing of its accounts |
| `Processor.Processor.TransferCells` | token/src/processor.rs:250-339 | the checks of a transfer in order, then the move; error codes and new cells are those of the specification, for any aliasing |
| `Processor.Processor.MoveTokens` | token/src/processor.rs:314-339 | amount and native lamports leave one cell and arrive at the other, both records written back, or Overflow |
| `Processor.Processor.MoveLamports` | token/src/processor.rs:323-333 | lamports leave one cell and arrive at the other, or Overflow |
| `Processor.Processor.MintTo` | token/src/processor.rs:522-584 | outcome, error code and new cells are those of the specification |
| `Processor.Processor.Burn` | token/src/processor.rs:587-669 | outcome, error code and new cells are those of the specification |
| `Processor.Processor.UseAuthority` | token/src/processor.rs:274-301 | a delegate is checked against the allowance, which shrinks and is dropped at zero except in a self-transfer; otherwise the owner is checked |
| `Processor.Processor.Approve` | token/src/processor.rs:345-393 | outcome, error code and new cells are those of the specification |
| `Processor.Processor.Revoke` | token/src/processor.rs:396-421 | outcome, error code and new cells are those of the specification |
| `Processor.Processor.SetAuthority` | token/src/processor.rs:424-519 | outcome, error code and new cells are those of the specification |
| `Processor.Processor.Close` | token/src/processor.rs:672-710 | outcome, error code and new cells are those of the specification |
| `Processor.Processor.DeleteAccount` | token/src/processor.rs:1032-1035 | the cell goes to the system program without data, its lamports untouched |
| `Processor.Processor.ToggleFreezeAccount` | token/src/processor.rs:714-755 | outcome, error code and new cells are those of the specification |
| `Processor.Processor.SyncNativeAccount` | token/src/processor.rs:758-780 | outcome, error code and new cells are those of the specification |
| `Guarantees.DataSizeAnsweredIff` | token/src/processor.rs:783-796 | the data size is answered iff the account is a genuine mint |
| `Guarantees.DataSizeIsWhatInitializes` | token/src/processor.rs:783-796 | the answer is the length of every account that can be initialized for the mint |
| `Guarantees.ImmutableOwnerThenInitialize` | token/src/processor.rs:799-808 | for a paid-for cell of the program and a mint to go with it, the instruction succeeds iff the account can be initialized next |
| `Processor.Processor.AmountToUiAmount` | token/src/processor.rs:811-826 | the trimmed decimal text of the amount at the mint's decimals |
| `Processor.Processor.UiAmountToAmount` | token/src/processor.rs:829-844 | the parsed amount in eight little-endian bytes, or the parser's error |
| `Processor.Processor.Dispatch` | token/src/processor.rs:850-962 | every instruction variant reaches its procedure with the right options |
| `Processor.Processor.ProcessInput` | token/src/processor.rs:847-963 | bytes are unpacked and the instruction carried out; bytes that do not unpack are an error and touch nothing |
| `Processor.Processor.Run` | token/src/processor.rs:847-963 | with the host around it, the program turns the cells into those of one invocation |
| `ZigRefinement.ZigRunIsRustRun` | token/zig/src/main.zig:18-335 | run for run: from any genesis, every sequence of the six instructions (real rent sysvar, ordinary owners) and of moves of the rest of the chain takes both programs through the same ledgers |
| `ZigRefinement.ZigRefinesRust` | token/zig/src/main.zig:18-335 | from every ledger runs of the rewrite can reach, each of its six instructions commits a ledger iff the processor commits the same ledger, given the real rent sysvar and an ordinary owner of what is burned or closed |
| `ZigRefinement.ZigCommitsWhatRustCommits` | token/zig/src/main.zig:18-335 | the same from every ledger that satisfies the rewrite's invariant |
| `ZigRefinement.ZigRunKeeps` | token/zig/src/main.zig:48-97 | every run of the rewrite keeps the invariant and never produces a delegate, a close authority, a frozen account or a multisig |
| `ZigRefinement.ZigSupplyConservation` | token/zig/src/main.zig:210-277 | supply equals the sum of balances in every ledger the rewrite reaches, unchecked arithmetic included |
| `ZigRefinement.AmountUnchangedIffSelfOrZero` | token/zig/src/main.zig:146-155 | after the two writes the source's amount is unchanged iff source and destination are one cell or the amount is zero |
| `ZigRefinement.EmptyIffSelfClose` | token/zig/src/main.zig:325-334 | after the lamport writes of a close the destination is empty iff it is the source |
| `ZigRefinement.AuthorityAgrees` | token/zig/src/main.zig:424-454 | without multisigs, refusing every multisig-sized owner is what the processor does |
| `ZigRefinement.ZigTransferExact` | token/zig/src/main.zig:99-164 | the rewrite's transfer gets through exactly when the protocol's move is granted, and leaves its effect |
| `ZigRefinement.ZigMintToExact` | token/zig/src/main.zig:166-216 | the same for minting; the unchecked destination add is exact |
| `ZigRefinement.ZigBurnExact` | token/zig/src/main.zig:218-287 | the rewrite burns exactly when the tokens could be burned by the processor and their owner agreed; the unchecked supply subtraction is exact |
| `ZigRefinement.ZigCloseExact` | token/zig/src/main.zig:289-335 | the rewrite closes exactly when the account is closable, the destination is another cell and the owner agreed |
| `ZigRefinement.ZigCloseOkIff` | token/zig/src/main.zig:289-335 | on any ledger, close authorities included: the rewrite's close succeeds iff the account is live and native or empty, the close authority if there is one, otherwise the owner, is third, signed and no multisig, and lamports are left at another cell |
| `ZigRefinement.ZigRefusesFrozen` | token/zig/src/state.zig:48-58 | on any ledger the rewrite refuses frozen accounts |
| `ZigRefinement.ZigMintExact` | token/zig/src/main.zig:18-46 | the rewrite's mint initialization gets through exactly when the protocol's is granted |
| `ZigRefinement.ZigAccountExact` | token/zig/src/main.zig:48-97 | the same for accounts, although five fields are not written and the mint is looked at last |
| `ZigRefinement.BurnsCompared` | token/zig/src/main.zig:269-274 | the rewrite commits a burn iff the processor does and the owner agreed |
| `ZigRefinement.BurnsAgreeIff` | token/zig/src/main.zig:246-274 | the two programs agree on a burn iff it is not granted at all, the owner is ordinary, or the owner agreed |
| `ZigRefinement.ClosesCompared` | token/zig/src/main.zig:307-323 | when each program commits a close: one asks the owner, the other asks it of ordinary owners and otherwise asks for the incinerator as destination |
| `ZigRefinement.ClosesAgreeIff` | token/zig/src/main.zig:307-323 | for a token account of the program, the exact condition under which the two programs agree on a close |
| `ZigRefinement.ZigRefusesTheRest` | token/zig/src/main.zig:348-420 | the other nineteen instructions are refused and change nothing |
| `Incinerated.StrangersBurn` | token/src/processor.rs:621-641 | tokens of the system program or the incinerator that a stranger may burn through the processor cannot be burned by that stranger through the rewrite |
| `Incinerated.StrangersClose` | token/src/processor.rs:690-699 | an empty account of the system program or the incinerator that a stranger may close to the incinerator through the processor cannot be closed by that stranger through the rewrite |
| `Incinerated.FilledIsReachable` | token/zig/src/main.zig:18-216 | a run of the rewrite (mint, account in the incinerator's name, five tokens) reaches the ledger of the next row |
| `Incinerated.BurnsDiffer` | token/zig/src/main.zig:246-274 | on that ledger an unsigned burn commits through the processor only: the refinement fails without the condition on owners |
| `Incinerated.ClosesDiffer` | token/zig/src/main.zig:307-323 | the same for an unsigned close to the incinerator, on the ledger before the tokens were minted |
| `Zig.ZigProcessor.ValidateOwner` | token/zig/src/main.zig:424-454 | the owner check with its error codes; multisigs are refused |
| `Zig.ZigProcessor.InitializeMint` | token/zig/src/main.zig:18-46 | outcome, error code and new cells are those of the specification |
| `Zig.ZigProcessor.InitializeAccount` | token/zig/src/main.zig:48-97 | outcome, error code and new cells are those of the specification |
| `Zig.ZigProcessor.WriteTransfer` | token/zig/src/main.zig:147-153 | the four writes of a transfer through possibly equal pointers, each seeing the ones before it |
| `Zig.ZigProcessor.Transfer` | token/zig/src/main.zig:99-164 | writes through possibly equal pointers, then the check; outcome and cells are those of the specification |
| `Zig.ZigProcessor.MintTo` | token/zig/src/main.zig:166-216 | outcome, error code and new cells are those of the specification |
| `Zig.ZigProcessor.Burn` | token/zig/src/main.zig:218-287 | outcome, error code and new cells are those of the specification |
| `Zig.ZigProcessor.CloseAccount` | token/zig/src/main.zig:289-335 | outcome, error code and new cells are those of the specification |
| `Zig.ZigProcessor.Dispatch` | token/zig/src/main.zig:337-422 | the six instructions reach their procedures, all others fail |
| `UiAmount.RoundTrip` | token/src/lib.rs:35-83 | for every 64-bit amount and every number of decimals, parsing the padded or the trimmed text returns the amount |
| `UiAmount.AcceptsExactly` | token/src/lib.rs:61-83 | unless the digits open with a plus sign, the parser returns v iff the text is digits with at most one dot, has a digit that counts, and denotes v when scaled by ten to the decimals |
| `UiAmount.PlusIsASign` | token/src/lib.rs:80-82 | what the parser does with every other text: it takes the plus sign, and the rest as digits |
| `UiAmount.AcceptsWhatIsDenotedIff` | token/src/lib.rs:61-83 | the parser meets its meaning on exactly the texts that are not signed numerals |
| `UiAmount.PlusInFractionIsTaken` | token/src/lib.rs:61-83 | ".+5" at two decimals is read as 5 |
| `UiAmount.PrintedDenotes` | token/src/lib.rs:35-46 | the padded text denotes the amount |
| `UiAmount.TrimmedDenotes` | token/src/lib.rs:50-57 | so does the trimmed text |
| `UiAmount.PrintedForm` | token/src/lib.rs:35-46 | the padded text is the numeral of the whole units without needless zeros, a dot, and exactly as many digits as there are decimals; without decimals the numeral alone |
| `UiAmount.TrimmedForm` | token/src/lib.rs:50-57 | the trimmed text is the same with the trailing zeros of the rest gone, and without a rest the dot too |
| `UiAmount.NothingTrails` | token/src/lib.rs:50-57 | no dot at the end of the trimmed text and no zero at the end behind a dot |
| `UiAmount.FormIsSettled` | token/src/lib.rs:35-46 | the form leaves one text for each amount |
| `Decimal.NumeralIsUnique` | token/src/lib.rs:35-46 | two numerals of one number without needless zeros are the same text |
| `UiAmount.AmountToUiAmountString` | token/src/lib.rs:35-46 | zero padding and the inserted dot give the specified text |
| `UiAmount.AmountToUiAmountStringTrimmed` | token/src/lib.rs:50-57 | trimming zeros, then dots |
| `UiAmount.TryUiAmountIntoAmount` | token/src/lib.rs:61-83 | splitting, trimming, gluing and padding in a loop give the specified result |
| `RecordCodec.MintRoundTrip` | token/src/state.rs:39-84 | unpacking a mint packed into any buffer returns it |
| `RecordCodec.MintCanonical` | token/src/state.rs:39-84 | packing an unpacked mint back into its buffer changes no byte |
| `RecordCodec.AccountRoundTrip` | token/src/state.rs:133-182 | unpacking an account packed into any buffer returns it |
| `RecordCodec.AccountCanonical` | token/src/state.rs:133-182 | packing an unpacked account back into its buffer changes no byte |
| `RecordCodec.MultisigRoundTrip` | token/src/state.rs:219-251 | unpacking a packed multisig returns it |
| `RecordCodec.MultisigCanonical` | token/src/state.rs:219-251 | packing an unpacked multisig gives its bytes back |
| `RecordCodec.DecodeEncode` | token/src/state.rs:39-251 | a record written into any buffer of its length is what the buffer then decodes to |
| `RecordCodec.BytesChangeIffRecordDoes` | token/src/state.rs:255-286 | a write changes bytes iff it changes the decoded record, although an absent option leaves old bytes behind |
| `RecordCodec.DecodeZeros` | token/src/state.rs:39-251 | a zeroed buffer decodes to the empty record of its length |
| `RecordCodec.MintLayout` | token/src/state.rs:62-84 | each field of a packed mint at its offset; a present authority is the tag one, zero, zero, zero and the key, an absent one four zeros and the old bytes |
| `RecordCodec.MintUnpacksIff` | token/src/state.rs:41-61 | a mint unpacks iff both tags are one of the two and the flag byte is 0 or 1 |
| `RecordCodec.AccountLayout` | token/src/state.rs:151-182 | each field of a packed account at its offset, tags and state byte written out |
| `RecordCodec.AccountUnpacksIff` | token/src/state.rs:135-150 | an account unpacks iff its three tags are one of the two and its state byte is at most 2 |
| `RecordCodec.MultisigLayout` | token/src/state.rs:240-251 | the three leading bytes, and every signer's key at its offset |
| `RecordCodec.MultisigUnpacksIff` | token/src/state.rs:221-239 | a multisig unpacks iff its flag byte is 0 or 1 |
| `RecordCodec.KeyOptionLayout` | token/src/state.rs:255-274 | tag and body of an optional key, and exactly which tags unpack to what |
| `RecordCodec.U64OptionLayout` | token/src/state.rs:275-294 | tag and body of an optional number, and exactly which tags unpack to what |
| `ByteCodec.LittleEndian` | token/src/instruction.rs:725-732 | numbers are eight bytes, the least significant first |
| `ByteLedger.BytesInvokeSimulates` | token/src/processor.rs:847-963 | one invocation on byte buffers (input unpacked, records unpacked and packed back into their buffers, bytes compared by the host) decodes to one invocation on the decoded ledger |
| `ByteLedger.AdmissibleOnBytes` | token/src/state.rs:255-286 | the host's rule on bytes and the rule on decoded records agree on everything the program can write |
| `ByteLedger.BytesRunSimulates` | token/src/processor.rs:847-963 | the same for whole runs of inputs and outside moves |
| `ByteLedger.BytesConserveSupply` | token/src/processor.rs:522-669 | whatever inputs arrive, the supply shown by the bytes of a mint is the sum held in the bytes of its accounts |
| `RecordCodec.FastAccessorsAgree` | token/src/state.rs:325-358 | on every buffer the full unpacking accepts, the fast accessors give owner and mint iff the account is initialized |
| `RecordCodec.FastAccessorsLaxness` | token/src/state.rs:348-358 | the buffers the fast accessors accept and the full unpacking refuses are exactly those with a malformed state or tag |
| `RecordCodec.PackMintIntoSlice` | token/src/state.rs:62-84 | the field-by-field writes leave the packed form over the old buffer |
| `RecordCodec.PackAccountIntoSlice` | token/src/state.rs:151-182 | the field-by-field writes leave the packed form over the old buffer |
| `RecordCodec.PackMultisigIntoSlice` | token/src/state.rs:240-251 | the loop writes every signer key at its place |
| `RecordCodec.PackKeyOptionAt` | token/src/state.rs:255-266 | tag and key, or the tag alone with the body kept |
| `RecordCodec.PackU64OptionAt` | token/src/state.rs:275-286 | tag and number, or the tag alone with the body kept |
| `RecordCodec.UnpackMultisigFromSlice` | token/src/state.rs:221-239 | the loop fills the signer array chunk by chunk |
| `InstructionCodec.InstructionRoundTrip` | token/src/instruction.rs:479-691 | every one of the twenty-five instructions survives packing and unpacking |
| `InstructionCodec.UnpackedIsPrefix` | token/src/instruction.rs:479-580 | whatever unpacks is, up to ignored bytes behind it, the packed form of the result |
| `InstructionCodec.TailIsIgnored` | token/src/instruction.rs:479-580 | bytes behind a packed instruction are ignored, except by the UI-amount text, which takes them all and stays valid iff they are valid |
| `InstructionCodec.AuthorityTypeBijection` | token/src/instruction.rs:755-773 | the byte conversions of authority types invert each other |
| `InstructionCodec.Pack` | token/src/instruction.rs:584-691 | pushing tag and fields gives the specified bytes |
| `InstructionCodec.WireOfMints` | token/src/instruction.rs:587-596 | tags 0 and 20, decimals, authority, and the optional key behind its flag byte |
| `InstructionCodec.WireOfOwners` | token/src/instruction.rs:650-664 | tags 16, 18, 2 and 19 and their fields |
| `InstructionCodec.WireOfAmounts` | token/src/instruction.rs:602-617 | tags 3, 4, 7, 8 and 23 and the amount |
| `InstructionCodec.WireOfCheckedAmounts` | token/src/instruction.rs:630-649 | tags 12 to 15, the amount and the decimals |
| `InstructionCodec.WireOfAuthorities` | token/src/instruction.rs:619-626 | tag 6, the code of the authority type, and the optional key |
| `InstructionCodec.WireOfBareTags` | token/src/instruction.rs:597-680 | the tags of the eight instructions without fields |
| `InstructionCodec.WireOfText` | token/src/instruction.rs:685-688 | tag 24 and the text |
| `Utf8.ValidUtf8Iff` | token/src/instruction.rs:574-577 | a text is valid iff it encodes a sequence of Unicode scalar values |
| `Utf8.AsciiIsValid` | token/src/instruction.rs:574-577 | every text of seven-bit bytes is valid |
| `LamportAsm.Entrypoint` | transfer-lamports/asm/main.s:3-42 | on every aligned buffer that serializes an input, a well-formed request turns it into the serialization of the input with the amount moved, and anything else is an error that writes nothing |
| `LamportAsm.Execute` | transfer-lamports/asm/main.s:3-42 | on a buffer with its fields located, the instructions leave the expected bytes or report an error |
| `LamportAsm.Parse` | transfer-lamports/asm/main.s:3-33 | the pointer arithmetic lands on the second account and the instruction data, for every pair of data lengths |
| `LamportAsm.AlignUp` | transfer-lamports/asm/main.s:14-17 | the bitwise and with minus eight, and adding eight when it changed anything, gives the next multiple of eight |
| `Bits.AndMinusEight` | transfer-lamports/asm/main.s:15-15 | the bitwise and of a word with the mask 2^64 - 8 is the word rounded down to a multiple of eight |
| `LamportAsm.SerializedIsLaidOut` | transfer-lamports/asm/main.s:9-33 | in a serialized input every field the program reads is where its offsets say |
| `LamportAsm.WritesTransfer` | transfer-lamports/asm/main.s:35-38 | overwriting the two lamport words gives the serialization of the transferred input, so no other byte changes |
| `LamportAsm.TransferMoves` | transfer-lamports/asm/main.s:33-38 | the amount leaves the first account's balance and arrives at the second's, wrapping where it must; nothing else changes |
| `LamportAsm.TransferKeepsTheSum` | transfer-lamports/asm/main.s:35-36 | the two balances keep their sum modulo 2^64 |

## Left out

- Logging, error printing, entrypoints and cross-program calls: input and output with nothing to prove. The answers of the
  query instructions are modelled; that the host hands them to the caller is not.
- `ui_amount_to_amount` and `amount_to_ui_amount` (token/src/lib.rs:23-31): floating point.
- The rent formula, the loading of sysvars, and the actual bytes of the fixed keys: a positive minimum per length and
  distinct parameters stand for them.
- RefCells: cells are kept in a map that the methods reassign, so borrow failures at run time are not represented.
- The byte layout of the Zig `extern struct` overlays and the pointer casts: the rewrite is compared on decoded fields.
  Data that decodes to none of the records is an error for both programs.
- Unchecked `+=` and `-=` of the rewrite are modelled as wrapping; the proofs show they never wrap.
- ZigRefinement.ZigRefinesRust: `InitializeAccount` with an account other than the rent sysvar in its place is outside the comparison,
  because the rewrite reads that account's bytes unchecked; such events do not occur in the runs either.
- ZigRefinement.ZigRefinesRust: burns and closes of accounts owned by the system program or the incinerator are excluded, because the
  programs differ there; `BurnsAgreeIff` and `ClosesAgreeIff` cover them.
- Runs.ApprovalBounds: the account's owner is neither the delegate itself, whose own transfers are not bounded, nor the system
  program or the incinerator, whose tokens anyone may burn.
- Runs.FrozenForever: the frozen account holds tokens, because an empty frozen account may be closed.
- LamportAsm.Entrypoint: the buffer is aligned to eight bytes and ends sixteen bytes or more below the top of the address
  space, as the host lays it out.
- LamportAsm.Entrypoint: the program loads the first account's marker byte and never compares it; that the first account is not a
  duplicate is a property of the host's serialization and is required.
- Read-only flags, transactions of several instructions, and the instruction builders (token/src/instruction.rs:776-1432).
- The C, Pinocchio, Rust and Zig lamport transfers, the pubkey, hello-world and cross-program programs: easy members.
