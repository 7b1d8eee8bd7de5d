/** The rewrite in place: pointers into the cells, written statement by statement. */
module Zig {
  import opened Types
  import opened State
  import opened Instruction
  import opened Spec
  import opened ZigSpec
  import opened Processor

  class ZigProcessor {
    const env: Env
    var cells: Ledger

    constructor (env: Env, cells: Ledger)
      ensures this.env == env && this.cells == cells
    {
      this.env := env;
      this.cells := cells;
    }

    method ValidateOwner(expectedOwner: Pubkey, owner: Meta) returns (r: Outcome)
      requires owner.key in cells
      ensures r == ZigValidateOwner(env, cells, expectedOwner, owner)
    {
      if expectedOwner != owner.key {
        return Fail(OwnerMismatch);
      }
      if cells[owner.key].data.Len() == MULTISIG_LEN && env.programId == cells[owner.key].owner {
        return Fail(MissingRequiredSignature);
      } else if !owner.isSigner {
        return Fail(MissingRequiredSignature);
      }
      return Pass;
    }

    method InitializeMint(accts: seq<Meta>, decimals: u8, mintAuthority: Pubkey, freezeAuthority: Option<Pubkey>)
      returns (r: Result<()>)
      requires Present(cells, accts)
      modifies this
      ensures Matches(r, cells, ZigInitializeMint(env, old(cells), accts, decimals, mintAuthority, freezeAuthority))
    {
      var enough := Need(2 <= |accts|, NotEnoughAccountKeys);
      :- enough;
      var k := accts[0].key;
      if !cells[k].data.MintData? {
        return Err(InvalidAccountData);
      }
      if cells[k].data.mint.isInitialized {
        return Err(AlreadyInUse);
      }
      if accts[1].key != env.rentSysvar {
        return Err(InvalidAccountData);
      }
      if !env.IsExempt(cells[k]) {
        return Err(NotRentExempt);
      }
      cells := WithData(cells, k, MintData(cells[k].data.mint.(mintAuthority := Some(mintAuthority))));
      cells := WithData(cells, k, MintData(cells[k].data.mint.(decimals := decimals)));
      cells := WithData(cells, k, MintData(cells[k].data.mint.(isInitialized := true)));
      cells := WithData(cells, k, MintData(cells[k].data.mint.(freezeAuthority := freezeAuthority)));
      return Ok(());
    }

    method InitializeAccount(accts: seq<Meta>) returns (r: Result<()>)
      requires Present(cells, accts)
      modifies this
      ensures Matches(r, cells, ZigInitializeAccount(env, old(cells), accts))
    {
      var enough := Need(4 <= |accts|, NotEnoughAccountKeys);
      :- enough;
      var k, mintKey := accts[0].key, accts[1].key;
      if !cells[k].data.AccountData? {
        return Err(InvalidAccountData);
      }
      if cells[k].data.account.state != Uninitialized {
        return Err(AlreadyInUse);
      }
      if !env.IsExempt(cells[k]) {
        return Err(NotRentExempt);
      }
      cells := WithData(cells, k, AccountData(cells[k].data.account.(mint := mintKey)));
      cells := WithData(cells, k, AccountData(cells[k].data.account.(owner := accts[2].key)));
      cells := WithData(cells, k, AccountData(cells[k].data.account.(state := Initialized)));
      if mintKey == env.nativeMint {
        var reserve := env.minimumBalance(ACCOUNT_LEN);
        cells := WithData(cells, k, AccountData(cells[k].data.account.(isNative := Some(reserve))));
        if reserve > cells[k].lamports {
          return Err(Overflow);
        }
        cells := PutAmount(cells, k, cells[k].lamports - reserve);
      } else {
        if cells[mintKey].owner != env.programId {
          return Err(IllegalOwner);
        }
        if !cells[mintKey].data.MintData? {
          return Err(InvalidAccountData);
        }
        if !cells[mintKey].data.mint.isInitialized {
          return Err(UninitializedState);
        }
      }
      return Ok(());
    }

    method WriteTransfer(s: Pubkey, d: Pubkey, amount: u64)
      requires s in cells && d in cells && cells[s].data.AccountData? && cells[d].data.AccountData?
      modifies this
      ensures cells == TransferWrites(old(cells), s, d, amount)
    {
      cells := PutAmount(cells, s, Wrap(cells[s].data.account.amount - amount));
      cells := PutAmount(cells, d, Wrap(cells[d].data.account.amount + amount));
      if cells[s].data.account.IsNative() {
        cells := PutLamports(cells, s, Wrap(cells[s].lamports - amount));
        cells := PutLamports(cells, d, Wrap(cells[d].lamports + amount));
      }
    }

    method Transfer(accts: seq<Meta>, amount: u64) returns (r: Result<()>)
      requires Present(cells, accts)
      modifies this
      ensures Matches(r, cells, ZigTransfer(env, old(cells), accts, amount))
    {
      var enough := Need(3 <= |accts|, NotEnoughAccountKeys);
      :- enough;
      var s, d := accts[0].key, accts[1].key;
      var source :- AccountFromBytes(cells[s].data);
      var destination :- AccountFromBytes(cells[d].data);
      if source.amount < amount {
        return Err(InsufficientFunds);
      }
      if source.mint != destination.mint {
        return Err(MintMismatch);
      }
      :- ValidateOwner(source.owner, accts[2]);
      var preAmount := cells[s].data.account.amount;
      WriteTransfer(s, d, amount);
      if preAmount == cells[s].data.account.amount {
        if cells[s].owner != env.programId {
          return Err(IllegalOwner);
        }
        if cells[d].owner != env.programId {
          return Err(IllegalOwner);
        }
      }
      return Ok(());
    }

    method MintTo(accts: seq<Meta>, amount: u64) returns (r: Result<()>)
      requires Present(cells, accts)
      modifies this
      ensures Matches(r, cells, ZigMintTo(env, old(cells), accts, amount))
    {
      var enough := Need(3 <= |accts|, NotEnoughAccountKeys);
      :- enough;
      var k, d := accts[0].key, accts[1].key;
      var destination :- AccountFromBytes(cells[d].data);
      if destination.IsNative() {
        return Err(NativeNotSupported);
      }
      if k != destination.mint {
        return Err(MintMismatch);
      }
      var mint :- MintFromBytes(cells[k].data);
      if mint.mintAuthority.None? {
        return Err(FixedSupply);
      }
      :- ValidateOwner(mint.mintAuthority.value, accts[2]);
      if amount == 0 {
        if cells[k].owner != env.programId {
          return Err(IllegalOwner);
        }
        if cells[d].owner != env.programId {
          return Err(IllegalOwner);
        }
      }
      if U64_LIMIT <= mint.supply + amount {
        return Err(Overflow);
      }
      cells := PutSupply(cells, k, mint.supply + amount);
      cells := PutAmount(cells, d, Wrap(cells[d].data.account.amount + amount));
      return Ok(());
    }

    method Burn(accts: seq<Meta>, amount: u64) returns (r: Result<()>)
      requires Present(cells, accts)
      modifies this
      ensures Matches(r, cells, ZigBurn(env, old(cells), accts, amount))
    {
      var enough := Need(3 <= |accts|, NotEnoughAccountKeys);
      :- enough;
      var s, k := accts[0].key, accts[1].key;
      var source :- AccountFromBytes(cells[s].data);
      if source.IsNative() {
        return Err(NativeNotSupported);
      }
      var mint :- MintFromBytes(cells[k].data);
      if k != source.mint {
        return Err(MintMismatch);
      }
      if source.amount < amount {
        return Err(InsufficientFunds);
      }
      :- ValidateOwner(source.owner, accts[2]);
      cells := PutAmount(cells, s, Wrap(cells[s].data.account.amount - amount));
      cells := PutSupply(cells, k, Wrap(cells[k].data.mint.supply - amount));
      if amount == 0 {
        if cells[k].owner != env.programId {
          return Err(IllegalOwner);
        }
        if cells[s].owner != env.programId {
          return Err(IllegalOwner);
        }
      }
      return Ok(());
    }

    method CloseAccount(accts: seq<Meta>) returns (r: Result<()>)
      requires Present(cells, accts)
      modifies this
      ensures Matches(r, cells, ZigCloseAccount(env, old(cells), accts))
    {
      var enough := Need(3 <= |accts|, NotEnoughAccountKeys);
      :- enough;
      var s, d := accts[0].key, accts[1].key;
      var source :- AccountFromBytes(cells[s].data);
      if !source.IsNative() && source.amount != 0 {
        return Err(NonNativeHasBalance);
      }
      var authority := if source.closeAuthority.Some? then source.closeAuthority.value else source.owner;
      :- ValidateOwner(authority, accts[2]);
      cells := PutLamports(cells, d, Wrap(cells[d].lamports + cells[s].lamports));
      cells := PutLamports(cells, s, 0);
      cells := cells[s := cells[s].(owner := env.systemProgram)];
      cells := WithData(cells, s, Opaque([]));
      if cells[d].lamports == 0 {
        return Err(InvalidAccountData);
      }
      return Ok(());
    }

    method Dispatch(accts: seq<Meta>, ix: TokenInstruction) returns (r: Result<()>)
      requires Present(cells, accts)
      modifies this
      ensures Matches(r, cells, ZigProcess(env, old(cells), accts, ix))
    {
      match ix
      case InitializeMint(decimals, ma, fa) => r := InitializeMint(accts, decimals, ma, fa);
      case InitializeAccount => r := InitializeAccount(accts);
      case Transfer(amount) => r := Transfer(accts, amount);
      case MintTo(amount) => r := MintTo(accts, amount);
      case Burn(amount) => r := Burn(accts, amount);
      case CloseTokenAccount => r := CloseAccount(accts);
      case _ => return Err(InvalidState);
    }

    method Run(accts: seq<Meta>, ix: TokenInstruction) returns (committed: bool)
      modifies this
      ensures cells == ZigInvoke(env, old(cells), accts, ix)
      ensures committed <==> ZigCommits(env, old(cells), accts, ix, cells)
    {
      if !Present(cells, accts) {
        return false;
      }
      var before := cells;
      var r := Dispatch(accts, ix);
      committed := r.Ok? && Admissible(env, before, cells);
      if !committed {
        cells := before;
      }
    }
  }
}
