/** Guarantees about single calls that need the invariant or a look across the multisig: when a
    quorum is reached, and which arithmetic errors can and cannot be returned. */
module Guarantees {
  import opened Types
  import opened State
  import opened Instruction
  import opened Spec
  import opened UiAmount
  import opened ByteCodec
  import opened Invariant
  import opened Actions
  import opened Exactness

  // ---- Multisig ----

  /** Account `i` is the first with its key. */
  predicate IsFirst(signers: seq<Meta>, i: nat)
    requires i < |signers|
  {
    forall j | 0 <= j < i :: signers[j].key != signers[i].key
  }

  /** The positions of the multisig whose key some account carries. */
  ghost function Named(ms: Multisig, signers: seq<Meta>): set<int>
    requires ms.n <= 11
  {
    set p | 0 <= p < ms.n && exists i :: 0 <= i < |signers| && signers[i].key == ms.signers[p]
  }

  /** The authority of an initialized multisig, said without any search: the call succeeds iff every
      first account that carries a named key signed, and at least `m` positions are named. */
  lemma MultisigAgreesExactly(env: Env, l: Ledger, expected: Pubkey, auth: Meta, signers: seq<Meta>)
    requires Inv(env, l) && MultisigAt(env, l, auth.key)
    ensures var ms := l[auth.key].data.multisig;
      && 1 <= ms.m <= 11 && 1 <= ms.n <= 11
      && (ValidateOwner(env, l, expected, auth, signers) == Pass <==>
          && expected == auth.key
          && (forall p, i | 0 <= p < ms.n && 0 <= i < |signers|
                            && signers[i].key == ms.signers[p] && IsFirst(signers, i)
                :: signers[i].isSigner)
          && ms.m <= |Named(ms, signers)|)
  {
    var ms := l[auth.key].data.multisig;
    assert CellOk(env, l, l[auth.key]);
    assert Named(ms, signers) == MatchedPositions(ms, signers);
    forall p, i | 0 <= p < ms.n && 0 <= i < |signers| && signers[i].key == ms.signers[p] && IsFirst(signers, i)
      ensures i == FirstIndex(signers, ms.signers[p])
    {
    }
    forall p | 0 <= p < ms.n && Occurs(signers, ms.signers[p])
      ensures IsFirst(signers, FirstIndex(signers, ms.signers[p]))
    {
    }
  }

  lemma {:induction false} BoundedCard(a: set<int>, n: nat)
    requires forall x | x in a :: 0 <= x < n
    ensures |a| <= n
  {
    if n == 0 {
      assert forall x :: x !in a;
    } else {
      BoundedCard(a - {n - 1}, n - 1);
    }
  }

  /** A multisig that asks for more signers than it names can never agree. */
  lemma TooManyRequired(ms: Multisig, signers: seq<Meta>)
    requires ms.n <= 11 && ms.m > ms.n
    ensures !HasQuorum(ms, signers)
  {
    BoundedCard(MatchedPositions(ms, signers), ms.n);
  }

  lemma {:induction false} FirstIndexAppend(signers: seq<Meta>, s: Meta, key: Pubkey)
    ensures FirstIndex(signers + [s], key) ==
      if FirstIndex(signers, key) < |signers| then FirstIndex(signers, key)
      else if s.key == key then |signers| else |signers| + 1
  {
    if |signers| > 0 && signers[0].key != key {
      assert (signers + [s])[1..] == signers[1..] + [s];
      FirstIndexAppend(signers[1..], s, key);
    } else if |signers| == 0 {
      assert signers + [s] == [s];
    }
  }

  /** Passing an account again, signed or not, makes no difference to the quorum. */
  lemma RepeatsAddNothing(ms: Multisig, signers: seq<Meta>, s: Meta)
    requires ms.n <= 11 && Occurs(signers, s.key)
    ensures HasQuorum(ms, signers + [s]) == HasQuorum(ms, signers)
  {
    forall p | 0 <= p < ms.n
      ensures FirstIndex(signers + [s], ms.signers[p]) ==
        if Occurs(signers, ms.signers[p]) then FirstIndex(signers, ms.signers[p]) else |signers| + 1
    {
      FirstIndexAppend(signers, s, ms.signers[p]);
    }
    assert MatchedPositions(ms, signers + [s]) == MatchedPositions(ms, signers);
  }

  // ---- The number of signers ----

  /** A multisig could be initialized here with a threshold of `m`, as far as the number of signers
      given has not been looked at. */
  predicate AwaitsSigners(env: Env, l: Ledger, accts: seq<Meta>, m: u8, viaSysvar: bool)
    requires Present(l, accts)
  {
    && InitMultisigAction(env, accts, m, viaSysvar).Some?
    && var c := l[accts[0].key];
    && c.data.MultisigData? && !c.data.multisig.isInitialized && env.IsExempt(c)
  }

  /** The accounts given as signers. */
  function Given(accts: seq<Meta>, viaSysvar: bool): seq<Meta>
    requires (if viaSysvar then 2 else 1) <= |accts|
  {
    accts[if viaSysvar then 2 else 1..]
  }

  /** The number of signers is cut to a byte before it is checked, so a list that is too long panics
      exactly when the byte happens to be in range. */
  lemma InitializeMultisigPanicsIff(env: Env, l: Ledger, accts: seq<Meta>, m: u8, viaSysvar: bool)
    requires Present(l, accts)
    ensures ProcessInitializeMultisig(env, l, accts, m, viaSysvar) == Err(Panicked) <==>
      && AwaitsSigners(env, l, accts, m, viaSysvar) && 1 <= m <= 11
      && 11 < |Given(accts, viaSysvar)| && 1 <= |Given(accts, viaSysvar)| % 0x100 <= 11
  {
  }

  /** More than eleven signers are refused as such exactly when the byte is out of range too. */
  lemma TooManySignersRefusedIff(env: Env, l: Ledger, accts: seq<Meta>, m: u8, viaSysvar: bool)
    requires Present(l, accts) && AwaitsSigners(env, l, accts, m, viaSysvar) && 11 < |Given(accts, viaSysvar)|
    ensures ProcessInitializeMultisig(env, l, accts, m, viaSysvar) == Err(InvalidNumberOfProvidedSigners) <==>
      |Given(accts, viaSysvar)| % 0x100 == 0 || 11 < |Given(accts, viaSysvar)| % 0x100
  {
  }

  /** A list of 257 signers passes for one. */
  lemma List257Panics(env: Env, l: Ledger, k: Pubkey, m: u8)
    requires Fresh(env, l, k, MULTISIG_LEN) && 1 <= m <= 11
    ensures var accts := seq(258, i => Meta(k, false));
      Present(l, accts) && ProcessInitializeMultisig(env, l, accts, m, false) == Err(Panicked)
  {
    var accts := seq(258, i => Meta(k, false));
    assert accts[0].key == k && |Given(accts, false)| == 257;
    InitializeMultisigPanicsIff(env, l, accts, m, false);
  }

  // ---- Arithmetic errors ----

  /** What a transfer has checked by the time it can overflow, and what then does not fit. */
  lemma TransferOverflows(env: Env, l: Ledger, s: Pubkey, d: Pubkey, auth: Meta, signers: seq<Meta>, amount: u64,
                          check: Option<MintCheck>)
    requires s in l && d in l && auth.key in l && CheckPresent(l, check)
    requires TransferBetween(env, l, s, d, auth, signers, amount, check) == Err(Overflow)
    ensures s != d && UnpackAccount(l[s].data).Ok? && UnpackAccount(l[d].data).Ok?
    ensures var a, b := TokenOf(l, s), TokenOf(l, d);
      && a.mint == b.mint && amount <= a.amount
      && (|| U64_LIMIT <= b.amount + amount
          || (a.IsNative() && (l[s].lamports < amount || U64_LIMIT <= l[d].lamports + amount)))
  {
  }

  /** Between accounts of the program a transfer never overflows. */
  lemma TransferNeverOverflows(env: Env, l: Ledger, s: Pubkey, d: Pubkey, auth: Meta, signers: seq<Meta>, amount: u64,
                               check: Option<MintCheck>)
    requires Inv(env, l) && Owned(env, l, s) && Owned(env, l, d) && auth.key in l && CheckPresent(l, check)
    ensures TransferBetween(env, l, s, d, auth, signers, amount, check) != Err(Overflow)
  {
    if TransferBetween(env, l, s, d, auth, signers, amount, check) == Err(Overflow) {
      TransferOverflows(env, l, s, d, auth, signers, amount, check);
      MoveFits(env, l, s, d, amount);
      assert false;
    }
  }

  /** Burning from an account of the program never overflows: what it holds is in the supply. */
  lemma BurnNeverOverflows(env: Env, l: Ledger, accts: seq<Meta>, amount: u64, expected: Option<u8>)
    requires Inv(env, l) && Present(l, accts) && 3 <= |accts| && Owned(env, l, accts[0].key)
    ensures ProcessBurn(env, l, accts, amount, expected) != Err(Overflow)
  {
    var s := accts[0].key;
    if TokenAt(env, l, s) && !TokenOf(l, s).IsNative() {
      HeldInSupply(env, l, s);
    }
  }

  /** Closing never overflows, whoever owns the accounts. */
  lemma CloseNeverOverflows(env: Env, l: Ledger, accts: seq<Meta>)
    requires Inv(env, l) && Present(l, accts)
    ensures ProcessCloseAccount(env, l, accts) != Err(Overflow)
  {
    if 3 <= |accts| && accts[0].key != accts[1].key {
      LamportsAddFit(env, l, accts[0].key, accts[1].key);
    }
  }

  /** Minting between accounts of the program overflows exactly when everything else was in order
      and the supply would not fit; the holder's balance is never the cause. */
  lemma MintToOverflowsExactly(env: Env, l: Ledger, accts: seq<Meta>, amount: u64, expected: Option<u8>)
    requires Inv(env, l) && Present(l, accts) && 3 <= |accts|
    requires Owned(env, l, accts[0].key) && Owned(env, l, accts[1].key)
    ensures ProcessMintTo(env, l, accts, amount, expected) == Err(Overflow) <==>
      && CanIssue(env, l, accts[0].key, accts[1].key, accts[2], accts[3..], 0, expected)
      && U64_LIMIT <= MintOf(l, accts[0].key).supply + amount
  {
    var d := accts[1].key;
    if TokenAt(env, l, d) && !TokenOf(l, d).IsNative() {
      HeldInSupply(env, l, d);
    }
  }

  /** Syncing a native account of the program always succeeds and leaves it exactly backed. */
  lemma SyncNativeAlwaysWorks(env: Env, l: Ledger, accts: seq<Meta>)
    requires Inv(env, l) && Present(l, accts) && 1 <= |accts|
    requires TokenAt(env, l, accts[0].key) && TokenOf(l, accts[0].key).mint == env.nativeMint
    ensures var k, r := accts[0].key, ProcessSyncNative(env, l, accts);
      && r.Ok? && TokenAt(env, r.value, k)
      && TokenOf(r.value, k).isNative == Some(env.minimumBalance(ACCOUNT_LEN))
      && l[k].lamports == env.minimumBalance(ACCOUNT_LEN) + TokenOf(r.value, k).amount
      && TokenOf(l, k).amount <= TokenOf(r.value, k).amount
      && r.value == WithData(l, k, r.value[k].data)
  {
    assert CellOk(env, l, l[accts[0].key]);
  }

  // ---- Queries ----

  lemma DataSizeAnsweredIff(env: Env, l: Ledger, mint: Meta)
    requires mint.key in l
    ensures AccountDataSizeReply(env, l, [mint]).Ok? <==> MintAt(env, l, mint.key)
    ensures AccountDataSizeReply(env, l, [mint]).Ok? ==>
      AccountDataSizeReply(env, l, [mint]) == Ok(U64ToLe(ACCOUNT_LEN))
  {
    QueryMintIsMintAt(env, l, [mint]);
  }

  lemma InitializedMayBe(env: Env, l: Ledger, accts: seq<Meta>, owner: Pubkey, after: Ledger)
    requires Inv(env, l) && Present(l, accts) && 2 <= |accts|
    requires Commits(env, l, accts, InitializeAccount3(owner), after)
    ensures CanInitAccount(env, l, accts[0].key, accts[1].key)
  {
    var act := InitAccount(accts[0].key, accts[1].key, owner);
    assert ActionOf(env, accts, InitializeAccount3(owner)) == Some(act);
    CommitsExactly(env, l, accts, InitializeAccount3(owner), after);
  }

  /** The data size is answered for genuine mints only, and is the length of every account that can be
      initialized for the mint. */
  lemma DataSizeIsWhatInitializes(env: Env, l: Ledger, accts: seq<Meta>, owner: Pubkey, after: Ledger)
    requires Inv(env, l) && Present(l, accts) && 2 <= |accts| && accts[1].key != env.nativeMint
    requires Commits(env, l, accts, InitializeAccount3(owner), after)
    ensures AccountDataSizeReply(env, l, [accts[1]]) == Ok(U64ToLe(l[accts[0].key].data.Len()))
  {
    InitializedMayBe(env, l, accts, owner, after);
    DataSizeAnsweredIff(env, l, accts[1]);
  }

  /** On a paid-for cell of the program and a mint to go with it, `InitializeImmutableOwner` succeeds
      exactly when the account can be initialized next. */
  lemma ImmutableOwnerThenInitialize(env: Env, l: Ledger, accts: seq<Meta>, owner: Pubkey)
    requires Inv(env, l) && Present(l, accts) && 2 <= |accts|
    requires Owned(env, l, accts[0].key) && env.minimumBalance(ACCOUNT_LEN) <= l[accts[0].key].lamports
    requires accts[1].key == env.nativeMint || MintAt(env, l, accts[1].key)
    ensures ProcessInitializeImmutableOwner(l, accts).Ok? <==>
      exists after :: Commits(env, l, accts, InitializeAccount3(owner), after)
  {
    var act := InitAccount(accts[0].key, accts[1].key, owner);
    assert ActionOf(env, accts, InitializeAccount3(owner)) == Some(act);
    if ProcessInitializeImmutableOwner(l, accts).Ok? {
      UninitializedIsZero(env, l, accts[0].key);
      CommitsExactly(env, l, accts, InitializeAccount3(owner), Effect(env, l, act));
      assert Commits(env, l, accts, InitializeAccount3(owner), Effect(env, l, act));
    }
    forall after | Commits(env, l, accts, InitializeAccount3(owner), after)
      ensures ProcessInitializeImmutableOwner(l, accts).Ok?
    {
      InitializedMayBe(env, l, accts, owner, after);
    }
  }

  /** The text answered for an amount: whole units without needless zeros, and behind a dot the rest
      without trailing zeros, at the decimals of the mint asked about. */
  lemma UiAmountReplyForm(env: Env, l: Ledger, accts: seq<Meta>, amount: u64) returns (w: Bytes, t: Bytes)
    requires Present(l, accts) && 1 <= |accts| && MintAt(env, l, accts[0].key)
    ensures UiAmountReply(env, l, accts, amount) == Ok(if t == [] then w else w + [46] + t)
    ensures IsTrimmedForm(w, t, amount, MintOf(l, accts[0].key).decimals)
  {
    w, t := TrimmedForm(amount, MintOf(l, accts[0].key).decimals);
  }

  /** The amount answered for a text is the one it denotes at the decimals of the mint asked about;
      other accounts and other texts are refused. */
  lemma AmountReplyIff(env: Env, l: Ledger, accts: seq<Meta>, text: Bytes, v: u64)
    requires Present(l, accts) && !OpensWithPlus(text)
    ensures AmountReply(env, l, accts, text) == Ok(U64ToLe(v)) <==>
      1 <= |accts| && MintAt(env, l, accts[0].key) && Denotes(text, MintOf(l, accts[0].key).decimals, v)
  {
    QueryMintIsMintAt(env, l, accts);
    if 1 <= |accts| && MintAt(env, l, accts[0].key) {
      var decimals := MintOf(l, accts[0].key).decimals;
      AcceptsExactly(text, decimals, v);
      var r := TryUiAmountIntoAmountSpec(text, decimals);
      if r.Ok? {
        U64RoundTrip(v);
        U64RoundTrip(r.value);
      }
    }
  }

  /** For a genuine mint the two amount queries undo each other: the text answered for an amount is
      answered with that amount, and both always succeed. */
  lemma AmountQueriesAgree(env: Env, l: Ledger, accts: seq<Meta>, amount: u64)
    requires Present(l, accts) && 1 <= |accts| && MintAt(env, l, accts[0].key)
    ensures var text := UiAmountReply(env, l, accts, amount);
      text.Ok? && AmountReply(env, l, accts, text.value) == Ok(U64ToLe(amount))
  {
    RoundTrip(amount, MintOf(l, accts[0].key).decimals);
  }
}
