/** The processor as it is written: methods that read records out of the cells, edit them, and write
    cells back one by one. Each is proved to compute what its specification function says. */
module Processor {
  import opened Types
  import opened State
  import opened Instruction
  import opened Spec
  import opened Invariant
  import opened UiAmount
  import opened ByteCodec
  import InstructionCodec

  /** The method's outcome and the cells it left are those of the specification; after an error the
      cells do not matter, the host throws them away. */
  predicate Matches(r: Result<()>, after: Ledger, spec: Result<Ledger>) {
    match spec
    case Ok(l) => r == Ok(()) && after == l
    case Err(error) => r == Err(error)
  }

  predicate IsInitialization(ix: TokenInstruction) {
    || ix.InitializeMint? || ix.InitializeMint2? || ix.InitializeAccount? || ix.InitializeAccount2?
    || ix.InitializeAccount3? || ix.InitializeMultisig? || ix.InitializeMultisig2?
  }

  predicate IsQuery(ix: TokenInstruction) {
    ix.GetAccountDataSize? || ix.InitializeImmutableOwner? || ix.AmountToUiAmount? || ix.UiAmountToAmount?
  }

  class Processor {
    const env: Env
    var cells: Ledger

    constructor (env: Env, cells: Ledger)
      ensures this.env == env && this.cells == cells
    {
      this.env := env;
      this.cells := cells;
    }

    // ---- Authority ----

    /** Whether the accounts given fulfil the multisig: one pass over the accounts, each matched
        against every position not matched before. */
    method CheckMultisig(ms: Multisig, signers: seq<Meta>) returns (r: Outcome)
      ensures r == CheckQuorum(ms, signers)
    {
      if ms.n > 11 {
        // no array to slice; nothing to slice it for without accounts
        return if |signers| > 0 then Fail(Panicked) else Need(ms.m == 0, MissingRequiredSignature);
      }
      var numSigners := 0;
      var matched := new bool[11](_ => false);
      ghost var done: set<int> := {};
      for i := 0 to |signers|
        invariant forall q | 0 <= q < ms.n :: matched[q] <==> q in done
        invariant forall q :: q in done <==> 0 <= q < ms.n && FirstIndex(signers, ms.signers[q]) < i
        invariant forall q | q in done :: signers[FirstIndex(signers, ms.signers[q])].isSigner
        invariant numSigners == |done|
      {
        for p := 0 to ms.n
          invariant forall q | 0 <= q < ms.n :: matched[q] <==> q in done
          invariant forall q :: q in done <==> (0 <= q < ms.n && Seen(signers, ms.signers[q], i, q < p))
          invariant forall q | q in done :: signers[FirstIndex(signers, ms.signers[q])].isSigner
          invariant numSigners == |done|
        {
          if ms.signers[p] == signers[i].key && !matched[p] {
            assert FirstIndex(signers, ms.signers[p]) == i;
            if !signers[i].isSigner {
              return Fail(MissingRequiredSignature);
            }
            matched[p] := true;
            done := done + {p};
            numSigners := numSigners + 1;
          }
        }
      }
      assert done == MatchedPositions(ms, signers);
      if numSigners < ms.m {
        return Fail(MissingRequiredSignature);
      }
      return Pass;
    }

    /** The key was met before account `i`, or at account `i` if that was compared already. */
    ghost predicate Seen(signers: seq<Meta>, key: Pubkey, i: nat, compared: bool) {
      FirstIndex(signers, key) < i || (compared && FirstIndex(signers, key) == i)
    }

    method CheckOwner(expectedOwner: Pubkey, owner: Meta, signers: seq<Meta>) returns (r: Outcome)
      requires owner.key in cells
      ensures r == ValidateOwner(env, cells, expectedOwner, owner, signers)
    {
      if expectedOwner != owner.key {
        return Fail(OwnerMismatch);
      }
      if env.programId == cells[owner.key].owner && cells[owner.key].data.Len() == MULTISIG_LEN {
        var multisig := UnpackMultisig(cells[owner.key].data);
        if multisig.Err? {
          return Fail(multisig.error);
        }
        r := CheckMultisig(multisig.value, signers);
        return;
      } else if !owner.isSigner {
        return Fail(MissingRequiredSignature);
      }
      return Pass;
    }

    /** The mint and decimals a checked instruction was given, against the account's mint. */
    method CheckExpectedMint(expected: Option<MintCheck>, mint: Pubkey) returns (r: Outcome)
      requires CheckPresent(cells, expected)
      ensures r == CheckMint(cells, expected, mint)
    {
      if expected.Some? {
        if expected.value.key != mint {
          return Fail(MintMismatch);
        }
        var m := UnpackMint(cells[expected.value.key].data);
        if m.Err? {
          return Fail(m.error);
        }
        if expected.value.decimals != m.value.decimals {
          return Fail(MintDecimalsMismatch);
        }
      }
      return Pass;
    }

    // ---- Initialization ----

    method InitializeMint(accts: seq<Meta>, decimals: u8, mintAuthority: Pubkey, freezeAuthority: Option<Pubkey>,
                          viaSysvar: bool) returns (r: Result<()>)
      requires Present(cells, accts)
      modifies this
      ensures Matches(r, cells, ProcessInitializeMint(env, old(cells), accts, decimals, mintAuthority,
                                                      freezeAuthority, viaSysvar))
    {
      var enough := Need(1 <= |accts|, NotEnoughAccountKeys);
      :- enough;
      var mintInfo := accts[0].key;
      :- TakeRent(env, accts, 1, viaSysvar);
      var mint :- UnpackMintUnchecked(cells[mintInfo].data);
      if mint.isInitialized {
        return Err(AlreadyInUse);
      }
      if !env.IsExempt(cells[mintInfo]) {
        return Err(NotRentExempt);
      }
      mint := mint.(mintAuthority := Some(mintAuthority));
      mint := mint.(decimals := decimals);
      mint := mint.(isInitialized := true);
      mint := mint.(freezeAuthority := freezeAuthority);
      cells := WithData(cells, mintInfo, MintData(mint));
      return Ok(());
    }

    method InitializeAccount(accts: seq<Meta>, ownerGiven: Option<Pubkey>, viaSysvar: bool) returns (r: Result<()>)
      requires Present(cells, accts)
      modifies this
      ensures Matches(r, cells, ProcessInitializeAccount(env, old(cells), accts, ownerGiven, viaSysvar))
    {
      var next := 2;
      :- Need(next <= |accts|, NotEnoughAccountKeys);
      var newAccount, mintInfo := accts[0].key, accts[1].key;
      var owner := ZERO_KEY;
      if ownerGiven.Some? {
        owner := ownerGiven.value;
      } else {
        var enough := Need(next < |accts|, NotEnoughAccountKeys);
        :- enough;
        owner := accts[next].key;
        next := next + 1;
      }
      :- TakeRent(env, accts, next, viaSysvar);
      var account :- UnpackAccountUnchecked(cells[newAccount].data);
      if account.IsInitialized() {
        return Err(AlreadyInUse);
      }
      if !env.IsExempt(cells[newAccount]) {
        return Err(NotRentExempt);
      }
      var isNativeMint := mintInfo == env.nativeMint;
      if !isNativeMint {
        var checked := CheckAccountOwner(env, cells[mintInfo]);
        :- checked;
        if UnpackMint(cells[mintInfo].data).Err? {
          return Err(InvalidMint);
        }
      }
      account := account.(mint := mintInfo);
      account := account.(owner := owner);
      account := account.(closeAuthority := None, delegate := None, delegatedAmount := 0);
      account := account.(state := Initialized);
      if isNativeMint {
        var rentExemptReserve := env.minimumBalance(cells[newAccount].data.Len());
        account := account.(isNative := Some(rentExemptReserve));
        if cells[newAccount].lamports < rentExemptReserve {
          return Err(Overflow);
        }
        account := account.(amount := cells[newAccount].lamports - rentExemptReserve);
      } else {
        account := account.(isNative := None);
        account := account.(amount := 0);
      }
      cells := WithData(cells, newAccount, AccountData(account));
      return Ok(());
    }

    /** Writes the keys over the front of the array; a twelfth index panics. */
    method FillSigners(original: SignerArray, signerInfos: seq<Meta>) returns (r: Result<SignerArray>)
      ensures r == if 11 < |signerInfos| then Err(Panicked) else Ok(Keys(signerInfos) + original[|signerInfos|..])
    {
      var signers := original;
      for i := 0 to |signerInfos|
        invariant i <= 11
        invariant forall j | 0 <= j < 11 :: signers[j] == if j < i then signerInfos[j].key else original[j]
      {
        if 11 <= i {
          return Err(Panicked);
        }
        signers := signers[i := signerInfos[i].key];
      }
      assert signers == Keys(signerInfos) + original[|signerInfos|..];
      return Ok(signers);
    }

    method InitializeMultisig(accts: seq<Meta>, m: u8, viaSysvar: bool) returns (r: Result<()>)
      requires Present(cells, accts)
      modifies this
      ensures Matches(r, cells, ProcessInitializeMultisig(env, old(cells), accts, m, viaSysvar))
    {
      var enough := Need(1 <= |accts|, NotEnoughAccountKeys);
      :- enough;
      var multisigInfo := accts[0].key;
      :- TakeRent(env, accts, 1, viaSysvar);
      var multisig :- UnpackMultisigUnchecked(cells[multisigInfo].data);
      if multisig.isInitialized {
        return Err(AlreadyInUse);
      }
      if !env.IsExempt(cells[multisigInfo]) {
        return Err(NotRentExempt);
      }
      var signerInfos := accts[if viaSysvar then 2 else 1..];
      multisig := multisig.(m := m);
      multisig := multisig.(n := |signerInfos| % 0x100);
      if !IsValidSignerIndex(multisig.n) {
        return Err(InvalidNumberOfProvidedSigners);
      }
      if !IsValidSignerIndex(multisig.m) {
        return Err(InvalidNumberOfRequiredSigners);
      }
      var signers :- FillSigners(multisig.signers, signerInfos);
      multisig := multisig.(signers := signers);
      multisig := multisig.(isInitialized := true);
      cells := WithData(cells, multisigInfo, MultisigData(multisig));
      return Ok(());
    }

    // ---- Spending ----

    /** The authority check of a debit, and the allowance it uses up. */
    method UseAuthority(given: Account, authority: Meta, signers: seq<Meta>, amount: u64, selfTransfer: bool)
      returns (r: Result<Account>)
      requires authority.key in cells
      ensures r == Spend(env, cells, given, authority, signers, amount, selfTransfer)
    {
      var source := given;
      if source.delegate == Some(authority.key) {
        var checked := CheckOwner(authority.key, authority, signers);
        :- checked;
        if source.delegatedAmount < amount {
          return Err(InsufficientFunds);
        }
        if !selfTransfer {
          source := source.(delegatedAmount := source.delegatedAmount - amount);
          if source.delegatedAmount == 0 {
            source := source.(delegate := None);
          }
        }
      } else {
        var checked := CheckOwner(source.owner, authority, signers);
        :- checked;
      }
      return Ok(source);
    }

    method Transfer(accts: seq<Meta>, amount: u64, expectedDecimals: Option<u8>) returns (r: Result<()>)
      requires Present(cells, accts)
      modifies this
      ensures Matches(r, cells, ProcessTransfer(env, old(cells), accts, amount, expectedDecimals))
    {
      var next := 0;
      :- Need(next < |accts|, NotEnoughAccountKeys);
      var sourceInfo := accts[next].key;
      next := next + 1;
      if expectedDecimals.Some? {
        var enough := Need(next < |accts|, NotEnoughAccountKeys);
        :- enough;
        next := next + 1;
      }
      :- Need(next + 1 < |accts|, NotEnoughAccountKeys);
      var destinationInfo := accts[next].key;
      r := TransferCells(sourceInfo, destinationInfo, accts[next + 1], accts[next + 2..], amount,
                         CheckedMint(accts, expectedDecimals));
    }

    /** Lamports from one cell to another, each write checked as it is made. */
    method MoveLamports(sourceInfo: Pubkey, destinationInfo: Pubkey, amount: u64) returns (r: Outcome)
      requires sourceInfo in cells && destinationInfo in cells && sourceInfo != destinationInfo
      modifies this
      ensures var s, d := old(cells)[sourceInfo], old(cells)[destinationInfo];
        if amount <= s.lamports && d.lamports + amount < U64_LIMIT then
          r == Pass && cells == old(cells)[sourceInfo := s.(lamports := s.lamports - amount)]
                                          [destinationInfo := d.(lamports := d.lamports + amount)]
        else r == Fail(Overflow)
    {
      if cells[sourceInfo].lamports < amount {
        return Fail(Overflow);
      }
      cells := cells[sourceInfo := cells[sourceInfo].(lamports := cells[sourceInfo].lamports - amount)];
      if U64_LIMIT <= cells[destinationInfo].lamports + amount {
        return Fail(Overflow);
      }
      cells := cells[destinationInfo := cells[destinationInfo].(lamports := cells[destinationInfo].lamports + amount)];
      return Pass;
    }

    /** The amounts, the lamports of native accounts along with them, and the two records written back. */
    method MoveTokens(sourceInfo: Pubkey, destinationInfo: Pubkey, from: Account, to: Account, amount: u64)
      returns (r: Result<()>)
      requires sourceInfo in cells && destinationInfo in cells && sourceInfo != destinationInfo && amount <= from.amount
      modifies this
      ensures var s, d := old(cells)[sourceInfo], old(cells)[destinationInfo];
        var moved := if from.IsNative() then amount else 0;
        if to.amount + amount < U64_LIMIT && moved <= s.lamports && d.lamports + moved < U64_LIMIT then
          r == Ok(()) && cells == old(cells)
            [sourceInfo := Cell(s.lamports - moved, s.owner, AccountData(from.(amount := from.amount - amount)))]
            [destinationInfo := Cell(d.lamports + moved, d.owner, AccountData(to.(amount := to.amount + amount)))]
        else r == Err(Overflow)
    {
      var source := from.(amount := from.amount - amount);
      if U64_LIMIT <= to.amount + amount {
        return Err(Overflow);
      }
      var destination := to.(amount := to.amount + amount);
      if source.IsNative() {
        var moved := MoveLamports(sourceInfo, destinationInfo, amount);
        :- moved;
      }
      cells := WithData(cells, sourceInfo, AccountData(source));
      cells := WithData(cells, destinationInfo, AccountData(destination));
      return Ok(());
    }

    /** The transfer proper, the accounts being picked. */
    method TransferCells(sourceInfo: Pubkey, destinationInfo: Pubkey, authority: Meta, signers: seq<Meta>, amount: u64,
                         expected: Option<MintCheck>) returns (r: Result<()>)
      requires sourceInfo in cells && destinationInfo in cells && authority.key in cells
      requires CheckPresent(cells, expected)
      modifies this
      ensures Matches(r, cells,
        TransferBetween(env, old(cells), sourceInfo, destinationInfo, authority, signers, amount, expected))
    {
      var source :- UnpackAccount(cells[sourceInfo].data);
      var destination :- UnpackAccount(cells[destinationInfo].data);
      if source.IsFrozen() || destination.IsFrozen() {
        return Err(AccountFrozen);
      }
      if source.amount < amount {
        return Err(InsufficientFunds);
      }
      if source.mint != destination.mint {
        return Err(MintMismatch);
      }
      :- CheckExpectedMint(expected, source.mint);
      var selfTransfer := sourceInfo == destinationInfo;
      source :- UseAuthority(source, authority, signers, amount, selfTransfer);
      if selfTransfer || amount == 0 {
        var checked := CheckAccountOwner(env, cells[sourceInfo]);
        :- checked;
        :- CheckAccountOwner(env, cells[destinationInfo]);
      }
      if selfTransfer {
        return Ok(());
      }
      r := MoveTokens(sourceInfo, destinationInfo, source, destination, amount);
    }

    method MintTo(accts: seq<Meta>, amount: u64, expectedDecimals: Option<u8>) returns (r: Result<()>)
      requires Present(cells, accts)
      modifies this
      ensures Matches(r, cells, ProcessMintTo(env, old(cells), accts, amount, expectedDecimals))
    {
      var enough := Need(3 <= |accts|, NotEnoughAccountKeys);
      :- enough;
      var mintInfo, destinationInfo := accts[0].key, accts[1].key;
      var destination :- UnpackAccount(cells[destinationInfo].data);
      if destination.IsFrozen() {
        return Err(AccountFrozen);
      }
      if destination.IsNative() {
        return Err(NativeNotSupported);
      }
      if mintInfo != destination.mint {
        return Err(MintMismatch);
      }
      var mint :- UnpackMint(cells[mintInfo].data);
      if expectedDecimals.Some? {
        if expectedDecimals.value != mint.decimals {
          return Err(MintDecimalsMismatch);
        }
      }
      if mint.mintAuthority.None? {
        return Err(FixedSupply);
      }
      :- CheckOwner(mint.mintAuthority.value, accts[2], accts[3..]);
      if amount == 0 {
        var checked := CheckAccountOwner(env, cells[mintInfo]);
        :- checked;
        :- CheckAccountOwner(env, cells[destinationInfo]);
      }
      if U64_LIMIT <= destination.amount + amount {
        return Err(Overflow);
      }
      destination := destination.(amount := destination.amount + amount);
      if U64_LIMIT <= mint.supply + amount {
        return Err(Overflow);
      }
      mint := mint.(supply := mint.supply + amount);
      cells := WithData(cells, destinationInfo, AccountData(destination));
      cells := WithData(cells, mintInfo, MintData(mint));
      return Ok(());
    }

    method Burn(accts: seq<Meta>, amount: u64, expectedDecimals: Option<u8>) returns (r: Result<()>)
      requires Present(cells, accts)
      modifies this
      ensures Matches(r, cells, ProcessBurn(env, old(cells), accts, amount, expectedDecimals))
    {
      var enough := Need(3 <= |accts|, NotEnoughAccountKeys);
      :- enough;
      var sourceInfo, mintInfo := accts[0].key, accts[1].key;
      var source :- UnpackAccount(cells[sourceInfo].data);
      var mint :- UnpackMint(cells[mintInfo].data);
      if source.IsFrozen() {
        return Err(AccountFrozen);
      }
      if source.IsNative() {
        return Err(NativeNotSupported);
      }
      if source.amount < amount {
        return Err(InsufficientFunds);
      }
      if mintInfo != source.mint {
        return Err(MintMismatch);
      }
      if expectedDecimals.Some? {
        if expectedDecimals.value != mint.decimals {
          return Err(MintDecimalsMismatch);
        }
      }
      if !source.IsOwnedBySystemProgramOrIncinerator(env) {
        source :- UseAuthority(source, accts[2], accts[3..], amount, false);
      }
      if amount == 0 {
        var checked := CheckAccountOwner(env, cells[sourceInfo]);
        :- checked;
        :- CheckAccountOwner(env, cells[mintInfo]);
      }
      source := source.(amount := source.amount - amount);
      if mint.supply < amount {
        return Err(Overflow);
      }
      mint := mint.(supply := mint.supply - amount);
      cells := WithData(cells, sourceInfo, AccountData(source));
      cells := WithData(cells, mintInfo, MintData(mint));
      return Ok(());
    }

    // ---- Authorities ----

    method Approve(accts: seq<Meta>, amount: u64, expectedDecimals: Option<u8>) returns (r: Result<()>)
      requires Present(cells, accts)
      modifies this
      ensures Matches(r, cells, ProcessApprove(env, old(cells), accts, amount, expectedDecimals))
    {
      var next := 1;
      :- Need(1 <= |accts|, NotEnoughAccountKeys);
      if expectedDecimals.Some? {
        var enough := Need(next < |accts|, NotEnoughAccountKeys);
        :- enough;
        next := next + 1;
      }
      :- Need(next + 1 < |accts|, NotEnoughAccountKeys);
      var sourceInfo, delegateInfo, owner := accts[0].key, accts[next].key, accts[next + 1];
      var source :- UnpackAccount(cells[sourceInfo].data);
      if source.IsFrozen() {
        return Err(AccountFrozen);
      }
      :- CheckExpectedMint(CheckedMint(accts, expectedDecimals), source.mint);
      :- CheckOwner(source.owner, owner, accts[next + 2..]);
      source := source.(delegate := Some(delegateInfo));
      source := source.(delegatedAmount := amount);
      cells := WithData(cells, sourceInfo, AccountData(source));
      return Ok(());
    }

    method Revoke(accts: seq<Meta>) returns (r: Result<()>)
      requires Present(cells, accts)
      modifies this
      ensures Matches(r, cells, ProcessRevoke(env, old(cells), accts))
    {
      var enough := Need(1 <= |accts|, NotEnoughAccountKeys);
      :- enough;
      var sourceInfo := accts[0].key;
      var source :- UnpackAccount(cells[sourceInfo].data);
      :- Need(2 <= |accts|, NotEnoughAccountKeys);
      if source.IsFrozen() {
        return Err(AccountFrozen);
      }
      :- CheckOwner(source.owner, accts[1], accts[2..]);
      source := source.(delegate := None);
      source := source.(delegatedAmount := 0);
      cells := WithData(cells, sourceInfo, AccountData(source));
      return Ok(());
    }

    method SetAuthority(accts: seq<Meta>, authorityType: AuthorityType,
                        newAuthority: Option<Pubkey>) returns (r: Result<()>)
      requires Present(cells, accts)
      modifies this
      ensures Matches(r, cells, ProcessSetAuthority(env, old(cells), accts, authorityType, newAuthority))
    {
      var enough := Need(2 <= |accts|, NotEnoughAccountKeys);
      :- enough;
      var accountInfo, authority, signers := accts[0].key, accts[1], accts[2..];
      if cells[accountInfo].data.Len() == ACCOUNT_LEN {
        var account :- UnpackAccount(cells[accountInfo].data);
        if account.IsFrozen() {
          return Err(AccountFrozen);
        }
        match authorityType {
        case AccountOwner =>
          :- CheckOwner(account.owner, authority, signers);
          if newAuthority.Some? {
            account := account.(owner := newAuthority.value);
          } else {
            return Err(InvalidInstruction);
          }
          account := account.(delegate := None);
          account := account.(delegatedAmount := 0);
          if account.IsNative() {
            account := account.(closeAuthority := None);
          }
        case CloseAccount =>
          var current := account.closeAuthority.GetOr(account.owner);
          :- CheckOwner(current, authority, signers);
          account := account.(closeAuthority := newAuthority);
        case _ =>
          return Err(AuthorityTypeNotSupported);
        }
        cells := WithData(cells, accountInfo, AccountData(account));
      } else if cells[accountInfo].data.Len() == MINT_LEN {
        var mint :- UnpackMint(cells[accountInfo].data);
        match authorityType {
        case MintTokens =>
          if mint.mintAuthority.None? {
            return Err(FixedSupply);
          }
          :- CheckOwner(mint.mintAuthority.value, authority, signers);
          mint := mint.(mintAuthority := newAuthority);
        case FreezeAccount =>
          if mint.freezeAuthority.None? {
            return Err(MintCannotFreeze);
          }
          :- CheckOwner(mint.freezeAuthority.value, authority, signers);
          mint := mint.(freezeAuthority := newAuthority);
        case _ =>
          return Err(AuthorityTypeNotSupported);
        }
        cells := WithData(cells, accountInfo, MintData(mint));
      } else {
        return Err(InvalidArgument);
      }
      return Ok(());
    }

    // ---- Closing, freezing, syncing ----

    method Close(accts: seq<Meta>) returns (r: Result<()>)
      requires Present(cells, accts)
      modifies this
      ensures Matches(r, cells, ProcessCloseAccount(env, old(cells), accts))
    {
      var enough := Need(3 <= |accts|, NotEnoughAccountKeys);
      :- enough;
      var sourceInfo, destinationInfo := accts[0].key, accts[1].key;
      if sourceInfo == destinationInfo {
        return Err(InvalidAccountData);
      }
      var source :- UnpackAccount(cells[sourceInfo].data);
      if !source.IsNative() && source.amount != 0 {
        return Err(NonNativeHasBalance);
      }
      var authority := source.closeAuthority.GetOr(source.owner);
      if !source.IsOwnedBySystemProgramOrIncinerator(env) {
        var checked := CheckOwner(authority, accts[2], accts[3..]);
        :- checked;
      } else if destinationInfo != env.incinerator {
        return Err(InvalidAccountData);
      }
      if U64_LIMIT <= cells[destinationInfo].lamports + cells[sourceInfo].lamports {
        return Err(Overflow);
      }
      cells := cells[destinationInfo :=
        cells[destinationInfo].(lamports := cells[destinationInfo].lamports + cells[sourceInfo].lamports)];
      cells := cells[sourceInfo := cells[sourceInfo].(lamports := 0)];
      DeleteAccount(sourceInfo);
      return Ok(());
    }

    /** Hands the cell to the system program and empties it. */
    method DeleteAccount(k: Pubkey)
      requires k in cells
      modifies this
      ensures cells == old(cells)[k := Cell(old(cells)[k].lamports, env.systemProgram, Opaque([]))]
    {
      cells := cells[k := cells[k].(owner := env.systemProgram)];
      cells := WithData(cells, k, Opaque([]));
    }

    method ToggleFreezeAccount(accts: seq<Meta>, freeze: bool) returns (r: Result<()>)
      requires Present(cells, accts)
      modifies this
      ensures Matches(r, cells, ProcessToggleFreeze(env, old(cells), accts, freeze))
    {
      var enough := Need(3 <= |accts|, NotEnoughAccountKeys);
      :- enough;
      var sourceInfo, mintInfo := accts[0].key, accts[1].key;
      var source :- UnpackAccount(cells[sourceInfo].data);
      if (freeze && source.IsFrozen()) || (!freeze && !source.IsFrozen()) {
        return Err(InvalidState);
      }
      if source.IsNative() {
        return Err(NativeNotSupported);
      }
      if mintInfo != source.mint {
        return Err(MintMismatch);
      }
      var mint :- UnpackMint(cells[mintInfo].data);
      if mint.freezeAuthority.None? {
        return Err(MintCannotFreeze);
      }
      :- CheckOwner(mint.freezeAuthority.value, accts[2], accts[3..]);
      source := source.(state := if freeze then Frozen else Initialized);
      cells := WithData(cells, sourceInfo, AccountData(source));
      return Ok(());
    }

    method SyncNativeAccount(accts: seq<Meta>) returns (r: Result<()>)
      requires Present(cells, accts)
      modifies this
      ensures Matches(r, cells, ProcessSyncNative(env, old(cells), accts))
    {
      var enough := Need(1 <= |accts|, NotEnoughAccountKeys);
      :- enough;
      var info := accts[0].key;
      :- CheckAccountOwner(env, cells[info]);
      var account :- UnpackAccount(cells[info].data);
      if account.isNative.None? {
        return Err(NonNativeNotSupported);
      }
      if cells[info].lamports < account.isNative.value {
        return Err(Overflow);
      }
      var newAmount := cells[info].lamports - account.isNative.value;
      if newAmount < account.amount {
        return Err(InvalidState);
      }
      account := account.(amount := newAmount);
      cells := WithData(cells, info, AccountData(account));
      return Ok(());
    }

    // ---- Queries ----

    /** The mint a query is about. */
    method ReadMint(accts: seq<Meta>) returns (m: Result<Mint>)
      requires Present(cells, accts)
      ensures m == QueryMint(env, cells, accts)
    {
      if |accts| < 1 {
        return Err(NotEnoughAccountKeys);
      }
      :- CheckAccountOwner(env, cells[accts[0].key]);
      m := UnpackMint(cells[accts[0].key].data);
      if m.Err? {
        return Err(InvalidMint);
      }
    }

    method GetAccountDataSize(accts: seq<Meta>) returns (reply: Result<Bytes>)
      requires Present(cells, accts)
      ensures reply == AccountDataSizeReply(env, cells, accts)
      ensures reply.Ok? <==> 1 <= |accts| && MintAt(env, cells, accts[0].key)
      ensures reply.Ok? ==> |reply.value| == 8 && U64FromLe(reply.value) == ACCOUNT_LEN
    {
      var m := ReadMint(accts);
      var _ :- m;
      U64RoundTrip(ACCOUNT_LEN);
      return Ok(U64ToLe(ACCOUNT_LEN));
    }

    method AmountToUiAmount(accts: seq<Meta>, amount: u64) returns (reply: Result<Bytes>)
      requires Present(cells, accts)
      ensures reply == UiAmountReply(env, cells, accts, amount)
    {
      var m := ReadMint(accts);
      var mint :- m;
      var uiAmount := AmountToUiAmountStringTrimmed(amount, mint.decimals);
      return Ok(uiAmount);
    }

    method UiAmountToAmount(accts: seq<Meta>, uiAmount: Bytes) returns (reply: Result<Bytes>)
      requires Present(cells, accts)
      ensures reply == AmountReply(env, cells, accts, uiAmount)
    {
      var m := ReadMint(accts);
      var mint :- m;
      var parsed := TryUiAmountIntoAmount(uiAmount, mint.decimals);
      var amount :- parsed;
      return Ok(U64ToLe(amount));
    }

    method InitializeImmutableOwner(accts: seq<Meta>) returns (r: Result<()>)
      requires Present(cells, accts)
      ensures Matches(r, cells, ProcessInitializeImmutableOwner(cells, accts))
      ensures r.Ok? <==>
        1 <= |accts| && cells[accts[0].key].data.AccountData? && !cells[accts[0].key].data.IsInitialized()
    {
      var enough := Need(1 <= |accts|, NotEnoughAccountKeys);
      :- enough;
      var account :- UnpackAccountUnchecked(cells[accts[0].key].data);
      if account.IsInitialized() {
        return Err(AlreadyInUse);
      }
      return Ok(());
    }

    // ---- Dispatch and the host ----

    method Dispatch(accts: seq<Meta>, ix: TokenInstruction) returns (r: Result<()>)
      requires Present(cells, accts)
      modifies this
      ensures Matches(r, cells, Process(env, old(cells), accts, ix))
    {
      if IsInitialization(ix) {
        r := DispatchInitialization(accts, ix);
        return;
      }
      match ix
      case Transfer(amount) => r := Transfer(accts, amount, None);
      case TransferChecked(amount, decimals) => r := Transfer(accts, amount, Some(decimals));
      case Approve(amount) => r := Approve(accts, amount, None);
      case ApproveChecked(amount, decimals) => r := Approve(accts, amount, Some(decimals));
      case Revoke => r := Revoke(accts);
      case SetAuthority(authorityType, newAuthority) => r := SetAuthority(accts, authorityType, newAuthority);
      case MintTo(amount) => r := MintTo(accts, amount, None);
      case MintToChecked(amount, decimals) => r := MintTo(accts, amount, Some(decimals));
      case Burn(amount) => r := Burn(accts, amount, None);
      case BurnChecked(amount, decimals) => r := Burn(accts, amount, Some(decimals));
      case CloseTokenAccount => r := Close(accts);
      case FreezeTokenAccount => r := ToggleFreezeAccount(accts, true);
      case ThawAccount => r := ToggleFreezeAccount(accts, false);
      case SyncNative => r := SyncNativeAccount(accts);
      case _ => r := DispatchQuery(accts, ix);
    }

    method DispatchInitialization(accts: seq<Meta>, ix: TokenInstruction) returns (r: Result<()>)
      requires Present(cells, accts) && IsInitialization(ix)
      modifies this
      ensures Matches(r, cells, Process(env, old(cells), accts, ix))
    {
      match ix
      case InitializeMint(decimals, ma, fa) => r := InitializeMint(accts, decimals, ma, fa, true);
      case InitializeMint2(decimals, ma, fa) => r := InitializeMint(accts, decimals, ma, fa, false);
      case InitializeAccount => r := InitializeAccount(accts, None, true);
      case InitializeAccount2(owner) => r := InitializeAccount(accts, Some(owner), true);
      case InitializeAccount3(owner) => r := InitializeAccount(accts, Some(owner), false);
      case InitializeMultisig(m) => r := InitializeMultisig(accts, m, true);
      case InitializeMultisig2(m) => r := InitializeMultisig(accts, m, false);
    }

    method DispatchQuery(accts: seq<Meta>, ix: TokenInstruction) returns (r: Result<()>)
      requires Present(cells, accts) && IsQuery(ix)
      ensures Matches(r, cells, Process(env, cells, accts, ix))
    {
      if ix.InitializeImmutableOwner? {
        r := InitializeImmutableOwner(accts);
        return;
      }
      var reply;
      match ix {
        case GetAccountDataSize => reply := GetAccountDataSize(accts);
        case AmountToUiAmount(amount) => reply := AmountToUiAmount(accts, amount);
        case UiAmountToAmount(uiAmount) => reply := UiAmountToAmount(accts, uiAmount);
      }
      var _ :- reply;
      return Ok(());
    }

    /** From the wire: bytes that do not unpack are an error and touch nothing. */
    method ProcessInput(accts: seq<Meta>, input: Bytes) returns (r: Result<()>)
      requires Present(cells, accts)
      modifies this
      ensures match InstructionCodec.Unpack(input)
        case Ok(ix) => Matches(r, cells, Process(env, old(cells), accts, ix))
        case Err(error) => r == Err(error) && cells == old(cells)
    {
      var instruction :- InstructionCodec.Unpack(input);
      r := Dispatch(accts, instruction);
    }

    /** The host runs the instruction and keeps its writes only if it succeeded and may write. */
    method Run(accts: seq<Meta>, ix: TokenInstruction) returns (committed: bool)
      modifies this
      ensures cells == Invoke(env, old(cells), accts, ix)
      ensures committed <==> Commits(env, old(cells), accts, ix, cells)
    {
      if !Present(cells, accts) {
        return false;
      }
      var before := cells;
      var r := Dispatch(accts, ix);
      committed := r.Ok? && Admissible(env, before, cells);
      if !committed {
        cells := before;
      }
    }
  }
}
