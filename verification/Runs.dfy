/** Whole runs: any sequence of instructions, with the rest of the chain acting in between. */
module Runs {
  import opened Types
  import opened State
  import opened Instruction
  import opened Spec
  import opened Sums
  import opened Invariant
  import opened Actions
  import opened Exactness
  import opened Preservation
  import opened Steps

  datatype Event =
    | Program(accts: seq<Meta>, ix: TokenInstruction)
    | World(next: Ledger)

  /** The action an event carries out, if it carries out one. */
  ghost function Done(env: Env, l: Ledger, e: Event): Option<Action> {
    if e.Program? && Present(l, e.accts) && ActionOf(env, e.accts, e.ix).Some?
       && Enabled(env, l, ActionOf(env, e.accts, e.ix).value)
    then ActionOf(env, e.accts, e.ix) else None
  }

  /** The ledger after an event: the program's own invocation, or a move of the world. */
  ghost function Next(env: Env, l: Ledger, e: Event): Ledger {
    match e
    case Program(accts, ix) => Invoke(env, l, accts, ix)
    case World(next) => if WorldStep(env, l, next) then next else l
  }

  ghost function After(env: Env, l: Ledger, run: seq<Event>): Ledger
    decreases |run|
  {
    if |run| == 0 then l else After(env, Next(env, l, run[0]), run[1..])
  }

  /** The three things an event can be: an action, a move of the world, or nothing. */
  lemma NextCases(env: Env, l: Ledger, e: Event)
    requires Inv(env, l)
    ensures Inv(env, Next(env, l, e))
    ensures Done(env, l, e).Some? ==> Next(env, l, e) == Effect(env, l, Done(env, l, e).value)
    ensures Done(env, l, e).None? ==> Next(env, l, e) == l || WorldStep(env, l, Next(env, l, e))
  {
    match e
    case Program(accts, ix) =>
      if Present(l, accts) {
        InvokeIsStep(env, l, accts, ix);
        if Done(env, l, e).Some? {
          StepKeeps(env, l, Done(env, l, e).value);
        }
      }
    case World(next) =>
      if WorldStep(env, l, next) {
        WorldPreserves(env, l, next);
      }
  }

  /** The invariant holds after every run. */
  lemma {:induction false} RunKeepsInv(env: Env, l: Ledger, run: seq<Event>)
    requires Inv(env, l)
    ensures Inv(env, After(env, l, run))
    decreases |run|
  {
    if |run| > 0 {
      NextCases(env, l, run[0]);
      RunKeepsInv(env, Next(env, l, run[0]), run[1..]);
    }
  }

  // ---- Safety from any genesis ----

  ghost predicate Reachable(env: Env, l: Ledger) {
    exists start: Ledger, run: seq<Event> :: Genesis(env, start) && After(env, start, run) == l
  }

  lemma ReachableInv(env: Env, l: Ledger)
    requires Reachable(env, l)
    ensures Inv(env, l)
  {
    var start: Ledger, run: seq<Event> :| Genesis(env, start) && After(env, start, run) == l;
    GenesisInv(env, start);
    RunKeepsInv(env, start, run);
  }

  /** Supply conservation: in every reachable ledger the supply of a mint, the native one apart, is
      the sum of what its token accounts hold. */
  lemma SupplyConservation(env: Env, l: Ledger, mint: Pubkey)
    requires Reachable(env, l) && MintAt(env, l, mint) && mint != env.nativeMint
    ensures MintOf(l, mint).supply == Total(env, Holding(mint), l)
  {
    ReachableInv(env, l);
  }

  /** Native backing and mint integrity of every reachable token account. */
  lemma TokenIntegrity(env: Env, l: Ledger, k: Pubkey)
    requires Reachable(env, l) && TokenAt(env, l, k)
    ensures var a := TokenOf(l, k);
      && (a.IsNative() <==> a.mint == env.nativeMint)
      && (a.IsNative() ==> !a.IsFrozen() && a.isNative.value + a.amount <= l[k].lamports)
      && (!a.IsNative() ==> MintAt(env, l, a.mint) && a.amount <= MintOf(l, a.mint).supply)
      && (a.delegate.None? ==> a.delegatedAmount == 0)
      && env.minimumBalance(ACCOUNT_LEN) <= l[k].lamports
  {
    ReachableInv(env, l);
    assert CellOk(env, l, l[k]);
    if !TokenOf(l, k).IsNative() {
      HeldInSupply(env, l, k);
    }
  }

  /** Every initialized record pays its rent, every multisig is within bounds, and whatever is not
      initialized is all zero. */
  lemma RecordIntegrity(env: Env, l: Ledger, k: Pubkey)
    requires Reachable(env, l) && Owned(env, l, k)
    ensures l[k].data.IsInitialized() ==> env.minimumBalance(l[k].data.Len()) <= l[k].lamports
    ensures !l[k].data.IsInitialized() ==> l[k].data == ZeroData(l[k].data.Len())
    ensures MultisigAt(env, l, k) ==> MultisigOk(l[k].data.multisig)
  {
    ReachableInv(env, l);
    assert CellOk(env, l, l[k]);
  }

  /** An instruction neither makes nor destroys lamports, whatever accounts it names twice. */
  lemma InvokeConservesLamports(env: Env, l: Ledger, accts: seq<Meta>, ix: TokenInstruction)
    requires Reachable(env, l)
    ensures Total(env, Lamports, Invoke(env, l, accts, ix)) == Total(env, Lamports, l)
  {
    ReachableInv(env, l);
    if Present(l, accts) {
      InvokeIsStep(env, l, accts, ix);
      var act := ActionOf(env, accts, ix);
      if act.Some? && Enabled(env, l, act.value) {
        StepKeeps(env, l, act.value);
      }
    }
  }

  // ---- What never changes ----

  /** `k` is a token account before, during and after the run. */
  ghost predicate StaysToken(env: Env, l: Ledger, run: seq<Event>, k: Pubkey)
    decreases |run|
  {
    TokenAt(env, l, k) && (|run| > 0 ==> StaysToken(env, Next(env, l, run[0]), run[1..], k))
  }

  /** One event on a token account: closed with authority, or the same mint and reserve. */
  lemma TokenNext(env: Env, l: Ledger, e: Event, k: Pubkey)
    requires Inv(env, l) && TokenAt(env, l, k)
    ensures var r, act := Next(env, l, e), Done(env, l, e);
      if act.Some? then FateOk(env, l, act.value, k, r) else Owned(env, r, k) && r[k].data == l[k].data
  {
    NextCases(env, l, e);
    var act := Done(env, l, e);
    if act.Some? {
      EveryChangeIsAuthorized(env, l, act.value, k);
    } else if Next(env, l, e) != l {
      WorldKeeps(env, l, Next(env, l, e), k);
    }
  }

  lemma {:induction false} MintOfTokenIsFixed(env: Env, l: Ledger, run: seq<Event>, k: Pubkey)
    requires Inv(env, l) && StaysToken(env, l, run, k)
    ensures var r := After(env, l, run);
      TokenAt(env, r, k) && TokenOf(r, k).mint == TokenOf(l, k).mint && TokenOf(r, k).isNative == TokenOf(l, k).isNative
    decreases |run|
  {
    if |run| > 0 {
      NextCases(env, l, run[0]);
      TokenNext(env, l, run[0], k);
      MintOfTokenIsFixed(env, Next(env, l, run[0]), run[1..], k);
    }
  }

  lemma MintNext(env: Env, l: Ledger, e: Event, k: Pubkey)
    requires Inv(env, l) && MintAt(env, l, k)
    ensures MintFate(env, l, k, Next(env, l, e))
  {
    NextCases(env, l, e);
    if Done(env, l, e).Some? {
      MintsOnlyLose(env, l, Done(env, l, e).value, k);
    } else if Next(env, l, e) != l {
      WorldKeeps(env, l, Next(env, l, e), k);
    }
  }

  /** A mint never disappears and keeps its decimals; a fixed supply never grows again, and a mint
      that gave up freezing never freezes again. */
  lemma {:induction false} MintsForever(env: Env, l: Ledger, run: seq<Event>, k: Pubkey)
    requires Inv(env, l) && MintAt(env, l, k)
    ensures MintFate(env, l, k, After(env, l, run))
    decreases |run|
  {
    if |run| > 0 {
      NextCases(env, l, run[0]);
      MintNext(env, l, run[0], k);
      MintsForever(env, Next(env, l, run[0]), run[1..], k);
    }
  }

  /** Once a mint has no mint authority, its holders together never hold more than they do. */
  lemma FixedSupplyBoundsHolders(env: Env, l: Ledger, run: seq<Event>, mint: Pubkey)
    requires Inv(env, l) && MintAt(env, l, mint) && mint != env.nativeMint && MintOf(l, mint).mintAuthority.None?
    ensures Total(env, Holding(mint), After(env, l, run)) <= Total(env, Holding(mint), l)
  {
    MintsForever(env, l, run, mint);
    RunKeepsInv(env, l, run);
  }

  lemma MultisigNext(env: Env, l: Ledger, e: Event, k: Pubkey)
    requires Inv(env, l) && MultisigAt(env, l, k)
    ensures MultisigAt(env, Next(env, l, e), k) && Next(env, l, e)[k].data == l[k].data
  {
    NextCases(env, l, e);
    if Done(env, l, e).Some? {
      MultisigsNeverChange(env, l, Done(env, l, e).value, k);
    } else if Next(env, l, e) != l {
      WorldKeeps(env, l, Next(env, l, e), k);
    }
  }

  lemma {:induction false} MultisigsForever(env: Env, l: Ledger, run: seq<Event>, k: Pubkey)
    requires Inv(env, l) && MultisigAt(env, l, k)
    ensures MultisigAt(env, After(env, l, run), k) && After(env, l, run)[k].data == l[k].data
    decreases |run|
  {
    if |run| > 0 {
      NextCases(env, l, run[0]);
      MultisigNext(env, l, run[0], k);
      MultisigsForever(env, Next(env, l, run[0]), run[1..], k);
    }
  }

  // ---- Freezing ----

  /** No event of the run succeeds in thawing `k`. */
  ghost predicate NeverThawed(env: Env, l: Ledger, run: seq<Event>, k: Pubkey)
    decreases |run|
  {
    |run| > 0 ==>
      && (Done(env, l, run[0]).Some? ==> !Thaws(Done(env, l, run[0]).value, k))
      && NeverThawed(env, Next(env, l, run[0]), run[1..], k)
  }

  lemma FrozenNext(env: Env, l: Ledger, e: Event, k: Pubkey)
    requires Inv(env, l) && TokenAt(env, l, k) && TokenOf(l, k).IsFrozen() && TokenOf(l, k).amount != 0
    requires Done(env, l, e).Some? ==> !Thaws(Done(env, l, e).value, k)
    ensures Owned(env, Next(env, l, e), k) && Next(env, l, e)[k].data == l[k].data
  {
    NextCases(env, l, e);
    if Done(env, l, e).Some? {
      FrozenIsStuck(env, l, Done(env, l, e).value, k);
    } else if Next(env, l, e) != l {
      WorldKeeps(env, l, Next(env, l, e), k);
    }
  }

  /** Frozen means stuck: along every run without a successful thaw, a frozen account that holds
      tokens keeps every field and cannot be closed. */
  lemma {:induction false} FrozenForever(env: Env, l: Ledger, run: seq<Event>, k: Pubkey)
    requires Inv(env, l) && TokenAt(env, l, k) && TokenOf(l, k).IsFrozen() && TokenOf(l, k).amount != 0
    requires NeverThawed(env, l, run, k)
    ensures TokenAt(env, After(env, l, run), k) && TokenOf(After(env, l, run), k) == TokenOf(l, k)
    decreases |run|
  {
    if |run| > 0 {
      NextCases(env, l, run[0]);
      FrozenNext(env, l, run[0], k);
      FrozenForever(env, Next(env, l, run[0]), run[1..], k);
    }
  }

  lemma UnfreezableNext(env: Env, l: Ledger, e: Event, mint: Pubkey, k: Pubkey)
    requires Inv(env, l) && MintAt(env, l, mint) && MintOf(l, mint).freezeAuthority.None?
    requires TokenAt(env, l, k) && TokenOf(l, k).mint == mint && TokenAt(env, Next(env, l, e), k)
    ensures var r := Next(env, l, e);
      && MintAt(env, r, mint) && MintOf(r, mint).freezeAuthority.None?
      && TokenOf(r, k).mint == mint && TokenOf(r, k).state == TokenOf(l, k).state
  {
    NextCases(env, l, e);
    TokenNext(env, l, e, k);
    MintNext(env, l, e, mint);
    if Done(env, l, e).Some? {
      UnfreezableStays(env, l, Done(env, l, e).value, k);
    }
  }

  /** Without a freeze authority no account of the mint is ever frozen or thawed again. */
  lemma {:induction false} UnfreezableForever(env: Env, l: Ledger, run: seq<Event>, mint: Pubkey, k: Pubkey)
    requires Inv(env, l) && MintAt(env, l, mint) && MintOf(l, mint).freezeAuthority.None?
    requires StaysToken(env, l, run, k) && TokenOf(l, k).mint == mint
    ensures TokenAt(env, After(env, l, run), k) && TokenOf(After(env, l, run), k).state == TokenOf(l, k).state
    decreases |run|
  {
    if |run| > 0 {
      NextCases(env, l, run[0]);
      UnfreezableNext(env, l, run[0], mint, k);
      UnfreezableForever(env, Next(env, l, run[0]), run[1..], mint, k);
    }
  }

  // ---- Delegation ----

  /** No event of the run approves, revokes, reowns or closes `k`. */
  ghost predicate Undisturbed(env: Env, l: Ledger, run: seq<Event>, k: Pubkey)
    decreases |run|
  {
    |run| > 0 ==>
      && (Done(env, l, run[0]).Some? ==> !EndsDelegation(Done(env, l, run[0]).value, k))
      && Undisturbed(env, Next(env, l, run[0]), run[1..], k)
  }

  /** The drop in the balance of `k` in an event that drew on it on the authority of `d`. */
  ghost function SpentNow(env: Env, l: Ledger, e: Event, k: Pubkey, d: Pubkey): int {
    var r := Next(env, l, e);
    if Done(env, l, e).Some? && DrawsOn(Done(env, l, e).value, k, d) && TokenAt(env, l, k) && TokenAt(env, r, k)
    then TokenOf(l, k).amount - TokenOf(r, k).amount else 0
  }

  /** All that leaves `k` during the run on the authority of `d`. */
  ghost function Spent(env: Env, l: Ledger, run: seq<Event>, k: Pubkey, d: Pubkey): int
    decreases |run|
  {
    if |run| == 0 then 0 else
      SpentNow(env, l, run[0], k, d) + Spent(env, Next(env, l, run[0]), run[1..], k, d)
  }

  lemma AllowanceNext(env: Env, l: Ledger, e: Event, k: Pubkey, d: Pubkey)
    requires Inv(env, l) && TokenAt(env, l, k) && OwnerIsOther(env, TokenOf(l, k), d)
    requires Done(env, l, e).Some? ==> !EndsDelegation(Done(env, l, e).value, k)
    ensures var r := Next(env, l, e);
      && TokenAt(env, r, k) && TokenOf(r, k).owner == TokenOf(l, k).owner
      && SpentNow(env, l, e, k, d) + Allowance(r, k, d) == Allowance(l, k, d)
  {
    NextCases(env, l, e);
    if Done(env, l, e).Some? {
      AllowanceStep(env, l, Done(env, l, e).value, k, d);
    } else if Next(env, l, e) != l {
      WorldKeeps(env, l, Next(env, l, e), k);
    }
  }

  /** The books of a delegation balance over every undisturbed run: what the delegate spent and what
      it may still spend add up to what it could spend at the start. */
  lemma {:induction false} DelegationBooks(env: Env, l: Ledger, run: seq<Event>, k: Pubkey, d: Pubkey)
    requires Inv(env, l) && TokenAt(env, l, k) && OwnerIsOther(env, TokenOf(l, k), d)
    requires Undisturbed(env, l, run, k)
    ensures TokenAt(env, After(env, l, run), k)
    ensures Spent(env, l, run, k, d) + Allowance(After(env, l, run), k, d) == Allowance(l, k, d)
    decreases |run|
  {
    if |run| > 0 {
      NextCases(env, l, run[0]);
      AllowanceNext(env, l, run[0], k, d);
      DelegationBooks(env, Next(env, l, run[0]), run[1..], k, d);
    }
  }

  /** The delegation bound: from the moment an approval of `amount` for `d` commits, and until the
      owner or closer intervenes, at most `amount` leaves on `d`'s authority, and the remaining
      allowance is exactly the rest. */
  lemma ApprovalBounds(env: Env, l: Ledger, approve: Event, run: seq<Event>, k: Pubkey, d: Pubkey, amount: u64)
    requires Inv(env, l)
    requires var act := Done(env, l, approve);
      act.Some? && act.value.SetDelegate? && act.value.k == k && act.value.grant == Some(Grant(d, amount))
    requires OwnerIsOther(env, TokenOf(l, k), d)
    requires Undisturbed(env, Next(env, l, approve), run, k)
    ensures var start := Next(env, l, approve);
      && TokenAt(env, After(env, start, run), k)
      && Spent(env, start, run, k, d) <= amount
      && Allowance(After(env, start, run), k, d) == amount - Spent(env, start, run, k, d)
  {
    NextCases(env, l, approve);
    DelegationBooks(env, Next(env, l, approve), run, k, d);
  }
}
