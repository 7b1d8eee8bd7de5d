/** The packed forms of the three records: packing writes into a buffer that already holds bytes, and
    an absent option leaves the bytes of its body as they were. */
module RecordCodec {
  import opened Types
  import opened State
  import opened ByteCodec

  const SOME_TAG: Bytes := [1, 0, 0, 0]
  const NONE_TAG: Bytes := [0, 0, 0, 0]

  // ---- Options ----

  function PackKeyOption(src: Option<Pubkey>, dst: Bytes): (r: Bytes)
    requires |dst| == 36
    ensures |r| == 36
  {
    match src
    case Some(key) => SOME_TAG + key.bytes
    case None => NONE_TAG + dst[4..]
  }

  function UnpackKeyOption(src: Bytes): Result<Option<Pubkey>>
    requires |src| == 36
  {
    if src[..4] == NONE_TAG then Ok(None)
    else if src[..4] == SOME_TAG then Ok(Some(Pubkey(src[4..])))
    else Err(InvalidAccountData)
  }

  function PackU64Option(src: Option<u64>, dst: Bytes): (r: Bytes)
    requires |dst| == 12
    ensures |r| == 12
  {
    match src
    case Some(x) => SOME_TAG + U64ToLe(x)
    case None => NONE_TAG + dst[4..]
  }

  function UnpackU64Option(src: Bytes): Result<Option<u64>>
    requires |src| == 12
  {
    if src[..4] == NONE_TAG then Ok(None)
    else if src[..4] == SOME_TAG then Ok(Some(U64FromLe(src[4..])))
    else Err(InvalidAccountData)
  }

  lemma KeyOptionRoundTrip(src: Option<Pubkey>, dst: Bytes)
    requires |dst| == 36
    ensures UnpackKeyOption(PackKeyOption(src, dst)) == Ok(src)
  {
    var b := PackKeyOption(src, dst);
    assert b[..4] == if src.Some? then SOME_TAG else NONE_TAG;
    if src.Some? {
      assert b[4..] == src.value.bytes;
    }
  }

  lemma KeyOptionCanonical(b: Bytes)
    requires |b| == 36 && UnpackKeyOption(b).Ok?
    ensures PackKeyOption(UnpackKeyOption(b).value, b) == b
  {
    assert b == b[..4] + b[4..];
  }

  lemma U64OptionRoundTrip(src: Option<u64>, dst: Bytes)
    requires |dst| == 12
    ensures UnpackU64Option(PackU64Option(src, dst)) == Ok(src)
  {
    var b := PackU64Option(src, dst);
    assert b[..4] == if src.Some? then SOME_TAG else NONE_TAG;
    if src.Some? {
      assert b[4..] == U64ToLe(src.value);
      U64RoundTrip(src.value);
    }
  }

  lemma U64OptionCanonical(b: Bytes)
    requires |b| == 12 && UnpackU64Option(b).Ok?
    ensures PackU64Option(UnpackU64Option(b).value, b) == b
  {
    assert b == b[..4] + b[4..];
    U64Canonical(b[4..]);
  }

  function PackBool(x: bool): u8 {
    if x then 1 else 0
  }

  function UnpackBool(b: u8): Result<bool> {
    if b == 0 then Ok(false) else if b == 1 then Ok(true) else Err(InvalidAccountData)
  }

  function PackState(s: AccountState): u8 {
    match s
    case Uninitialized => 0
    case Initialized => 1
    case Frozen => 2
  }

  function UnpackState(b: u8): Result<AccountState> {
    match b
    case 0 => Ok(Uninitialized)
    case 1 => Ok(Initialized)
    case 2 => Ok(Frozen)
    case _ => Err(InvalidAccountData)
  }

  // ---- Mint ----

  function PackMint(m: Mint, dst: Bytes): (r: Bytes)
    requires |dst| == 82
    ensures |r| == 82
  {
    PackKeyOption(m.mintAuthority, dst[..36]) + U64ToLe(m.supply) + [m.decimals] + [PackBool(m.isInitialized)]
    + PackKeyOption(m.freezeAuthority, dst[46..])
  }

  function UnpackMintFrom(src: Bytes): Result<Mint>
    requires |src| == 82
  {
    var mintAuthority :- UnpackKeyOption(src[..36]);
    var isInitialized :- UnpackBool(src[45]);
    var freezeAuthority :- UnpackKeyOption(src[46..]);
    Ok(Mint(mintAuthority, U64FromLe(src[36..44]), src[44], isInitialized, freezeAuthority))
  }

  lemma MintRoundTrip(m: Mint, dst: Bytes)
    requires |dst| == 82
    ensures UnpackMintFrom(PackMint(m, dst)) == Ok(m)
  {
    var b := PackMint(m, dst);
    assert b[..36] == PackKeyOption(m.mintAuthority, dst[..36]);
    assert b[36..44] == U64ToLe(m.supply);
    assert b[46..] == PackKeyOption(m.freezeAuthority, dst[46..]);
    KeyOptionRoundTrip(m.mintAuthority, dst[..36]);
    KeyOptionRoundTrip(m.freezeAuthority, dst[46..]);
    U64RoundTrip(m.supply);
  }

  lemma MintCanonical(b: Bytes)
    requires |b| == 82 && UnpackMintFrom(b).Ok?
    ensures PackMint(UnpackMintFrom(b).value, b) == b
  {
    KeyOptionCanonical(b[..36]);
    KeyOptionCanonical(b[46..]);
    U64Canonical(b[36..44]);
    assert b == b[..36] + b[36..44] + [b[44]] + [b[45]] + b[46..];
  }

  lemma MintAssembled(m: Mint, was: Bytes, done: Bytes)
    requires |was| == 82
    requires done == [] + PackKeyOption(m.mintAuthority, was[0..36]) + U64ToLe(m.supply) + [m.decimals]
                   + [PackBool(m.isInitialized)] + PackKeyOption(m.freezeAuthority, was[46..82])
    ensures Partly(done, was) == PackMint(m, was)
  {
    assert was[0..36] == was[..36] && was[46..82] == was[46..];
    assert [] + PackKeyOption(m.mintAuthority, was[0..36]) == PackKeyOption(m.mintAuthority, was[0..36]);
    Filled(done, was);
  }

  method PackMintIntoSlice(m: Mint, dst: array<u8>)
    requires dst.Length == 82
    modifies dst
    ensures dst[..] == PackMint(m, old(dst[..]))
  {
    ghost var was := dst[..];
    ghost var done: Bytes := [];
    assert dst[..] == Partly(done, was);
    done := PackKeyOptionNext(m.mintAuthority, dst, 0, done, was);
    done := CopyNext(U64ToLe(m.supply), dst, 36, done, was);
    done := CopyNext([m.decimals], dst, 44, done, was);
    done := CopyNext([PackBool(m.isInitialized)], dst, 45, done, was);
    done := PackKeyOptionNext(m.freezeAuthority, dst, 46, done, was);
    MintAssembled(m, was, done);
  }

  // Field after field, `done` being what is written so far of a buffer that held `was`.

  method CopyNext(src: Bytes, dst: array<u8>, at: nat, ghost done: Bytes, ghost was: Bytes) returns (ghost next: Bytes)
    requires |done| == at && |was| == dst.Length && at + |src| <= dst.Length && dst[..] == Partly(done, was)
    modifies dst
    ensures next == done + src && dst[..] == Partly(next, was)
  {
    CopyFromSlice(dst, at, src);
    Advance(done, was, src);
    next := done + src;
  }

  method PackKeyOptionNext(src: Option<Pubkey>, dst: array<u8>, at: nat, ghost done: Bytes, ghost was: Bytes)
    returns (ghost next: Bytes)
    requires |done| == at && |was| == dst.Length && at + 36 <= dst.Length && dst[..] == Partly(done, was)
    modifies dst
    ensures next == done + PackKeyOption(src, was[at..at + 36]) && dst[..] == Partly(next, was)
  {
    ghost var packed := PackKeyOption(src, was[at..at + 36]);
    Advance(done, was, packed);
    assert dst[at..at + 36] == dst[..][at..at + 36];
    PackKeyOptionAt(src, dst, at);
    next := done + packed;
  }

  method PackU64OptionNext(src: Option<u64>, dst: array<u8>, at: nat, ghost done: Bytes, ghost was: Bytes)
    returns (ghost next: Bytes)
    requires |done| == at && |was| == dst.Length && at + 12 <= dst.Length && dst[..] == Partly(done, was)
    modifies dst
    ensures next == done + PackU64Option(src, was[at..at + 12]) && dst[..] == Partly(next, was)
  {
    ghost var packed := PackU64Option(src, was[at..at + 12]);
    Advance(done, was, packed);
    assert dst[at..at + 12] == dst[..][at..at + 12];
    PackU64OptionAt(src, dst, at);
    next := done + packed;
  }

  /** Writes tag and key, or the tag alone. */
  method PackKeyOptionAt(src: Option<Pubkey>, dst: array<u8>, at: nat)
    requires at + 36 <= dst.Length
    modifies dst
    ensures dst[..] == Splice(old(dst[..]), at, PackKeyOption(src, old(dst[at..at + 36])))
  {
    ghost var was := dst[..];
    assert was[at..at + 36] == dst[at..at + 36];
    match src {
      case Some(key) =>
        CopyFromSlice(dst, at, SOME_TAG);
        CopyFromSlice(dst, at + 4, key.bytes);
        SpliceTwice(was, at, SOME_TAG, key.bytes);
      case None =>
        CopyFromSlice(dst, at, NONE_TAG);
        SpliceFront(was, at, NONE_TAG, 36);
    }
  }

  method PackU64OptionAt(src: Option<u64>, dst: array<u8>, at: nat)
    requires at + 12 <= dst.Length
    modifies dst
    ensures dst[..] == Splice(old(dst[..]), at, PackU64Option(src, old(dst[at..at + 12])))
  {
    ghost var was := dst[..];
    assert was[at..at + 12] == dst[at..at + 12];
    match src {
      case Some(x) =>
        CopyFromSlice(dst, at, SOME_TAG);
        CopyFromSlice(dst, at + 4, U64ToLe(x));
        SpliceTwice(was, at, SOME_TAG, U64ToLe(x));
      case None =>
        CopyFromSlice(dst, at, NONE_TAG);
        SpliceFront(was, at, NONE_TAG, 12);
    }
  }

  // ---- Account ----

  function PackAccount(a: Account, dst: Bytes): (r: Bytes)
    requires |dst| == 165
    ensures |r| == 165
  {
    a.mint.bytes + a.owner.bytes + U64ToLe(a.amount) + PackKeyOption(a.delegate, dst[72..108]) + [PackState(a.state)]
    + PackU64Option(a.isNative, dst[109..121]) + U64ToLe(a.delegatedAmount)
    + PackKeyOption(a.closeAuthority, dst[129..])
  }

  function UnpackAccountFrom(src: Bytes): Result<Account>
    requires |src| == 165
  {
    var delegate :- UnpackKeyOption(src[72..108]);
    var state :- UnpackState(src[108]);
    var isNative :- UnpackU64Option(src[109..121]);
    var closeAuthority :- UnpackKeyOption(src[129..]);
    Ok(Account(Pubkey(src[..32]), Pubkey(src[32..64]), U64FromLe(src[64..72]), delegate, state, isNative,
               U64FromLe(src[121..129]), closeAuthority))
  }

  lemma AccountPieces(a: Account, dst: Bytes)
    requires |dst| == 165
    ensures var b := PackAccount(a, dst);
      && b[..32] == a.mint.bytes && b[32..64] == a.owner.bytes && b[64..72] == U64ToLe(a.amount)
      && b[72..108] == PackKeyOption(a.delegate, dst[72..108]) && b[108] == PackState(a.state)
      && b[109..121] == PackU64Option(a.isNative, dst[109..121]) && b[121..129] == U64ToLe(a.delegatedAmount)
      && b[129..] == PackKeyOption(a.closeAuthority, dst[129..])
  {
  }

  lemma AccountRoundTrip(a: Account, dst: Bytes)
    requires |dst| == 165
    ensures UnpackAccountFrom(PackAccount(a, dst)) == Ok(a)
  {
    AccountPieces(a, dst);
    KeyOptionRoundTrip(a.delegate, dst[72..108]);
    U64OptionRoundTrip(a.isNative, dst[109..121]);
    KeyOptionRoundTrip(a.closeAuthority, dst[129..]);
    U64RoundTrip(a.amount);
    U64RoundTrip(a.delegatedAmount);
  }

  lemma AccountCanonical(b: Bytes)
    requires |b| == 165 && UnpackAccountFrom(b).Ok?
    ensures PackAccount(UnpackAccountFrom(b).value, b) == b
  {
    KeyOptionCanonical(b[72..108]);
    U64OptionCanonical(b[109..121]);
    KeyOptionCanonical(b[129..]);
    U64Canonical(b[64..72]);
    U64Canonical(b[121..129]);
    assert b == b[..32] + b[32..64] + b[64..72] + b[72..108] + [b[108]] + b[109..121] + b[121..129] + b[129..];
  }

  lemma AccountAssembled(a: Account, was: Bytes, done: Bytes)
    requires |was| == 165
    requires done == [] + a.mint.bytes + a.owner.bytes + U64ToLe(a.amount) + PackKeyOption(a.delegate, was[72..108])
                   + [PackState(a.state)] + PackU64Option(a.isNative, was[109..121]) + U64ToLe(a.delegatedAmount)
                   + PackKeyOption(a.closeAuthority, was[129..165])
    ensures Partly(done, was) == PackAccount(a, was)
  {
    assert was[129..165] == was[129..];
    assert [] + a.mint.bytes == a.mint.bytes;
    Filled(done, was);
  }

  method PackAccountIntoSlice(a: Account, dst: array<u8>)
    requires dst.Length == 165
    modifies dst
    ensures dst[..] == PackAccount(a, old(dst[..]))
  {
    ghost var was := dst[..];
    ghost var done: Bytes := [];
    assert dst[..] == Partly(done, was);
    done := CopyNext(a.mint.bytes, dst, 0, done, was);
    done := CopyNext(a.owner.bytes, dst, 32, done, was);
    done := CopyNext(U64ToLe(a.amount), dst, 64, done, was);
    done := PackKeyOptionNext(a.delegate, dst, 72, done, was);
    done := CopyNext([PackState(a.state)], dst, 108, done, was);
    done := PackU64OptionNext(a.isNative, dst, 109, done, was);
    done := CopyNext(U64ToLe(a.delegatedAmount), dst, 121, done, was);
    done := PackKeyOptionNext(a.closeAuthority, dst, 129, done, was);
    AccountAssembled(a, was, done);
  }

  // ---- Fast accessors ----

  predicate IsInitializedAccount(b: Bytes) {
    108 < |b| && b[108] != 0
  }

  predicate ValidAccountData(b: Bytes) {
    |b| == 165 && IsInitializedAccount(b)
  }

  function FastOwner(b: Bytes): Option<Pubkey> {
    if ValidAccountData(b) then Some(Pubkey(b[32..64])) else None
  }

  function FastMint(b: Bytes): Option<Pubkey> {
    if ValidAccountData(b) then Some(Pubkey(b[..32])) else None
  }

  /** On every buffer the full unpacking accepts, the fast accessors give its owner and mint when it
      is initialized and nothing otherwise. */
  lemma FastAccessorsAgree(b: Bytes)
    requires |b| == 165 && UnpackAccountFrom(b).Ok?
    ensures var a := UnpackAccountFrom(b).value;
      && FastOwner(b) == (if a.IsInitialized() then Some(a.owner) else None)
      && FastMint(b) == (if a.IsInitialized() then Some(a.mint) else None)
  {
  }

  /** They are laxer than the full unpacking by exactly the malformed tags and state bytes. */
  lemma FastAccessorsLaxness(b: Bytes)
    requires ValidAccountData(b)
    ensures UnpackAccountFrom(b).Err? <==>
      || b[108] > 2
      || (b[72..76] != NONE_TAG && b[72..76] != SOME_TAG)
      || (b[109..113] != NONE_TAG && b[109..113] != SOME_TAG)
      || (b[129..133] != NONE_TAG && b[129..133] != SOME_TAG)
  {
    assert b[72..108][..4] == b[72..76] && b[109..121][..4] == b[109..113] && b[129..][..4] == b[129..133];
  }

  // ---- Multisig ----

  function FlatKeys(keys: seq<Pubkey>): (b: Bytes)
    ensures |b| == 32 * |keys|
  {
    if |keys| == 0 then [] else FlatKeys(keys[..|keys| - 1]) + keys[|keys| - 1].bytes
  }

  function KeysFrom(b: Bytes): (keys: seq<Pubkey>)
    requires |b| % 32 == 0
    ensures |keys| == |b| / 32
  {
    if |b| == 0 then [] else KeysFrom(b[..|b| - 32]) + [Pubkey(b[|b| - 32..])]
  }

  lemma {:induction false} KeysRoundTrip(keys: seq<Pubkey>)
    ensures KeysFrom(FlatKeys(keys)) == keys
  {
    if |keys| > 0 {
      var front, b := keys[..|keys| - 1], FlatKeys(keys);
      KeysRoundTrip(front);
      assert b[..|b| - 32] == FlatKeys(front) && b[|b| - 32..] == keys[|keys| - 1].bytes;
    }
  }

  lemma {:induction false} KeysCanonical(b: Bytes)
    requires |b| % 32 == 0
    ensures FlatKeys(KeysFrom(b)) == b
  {
    if |b| > 0 {
      KeysCanonical(b[..|b| - 32]);
      assert KeysFrom(b)[..|b| / 32 - 1] == KeysFrom(b[..|b| - 32]);
    }
  }

  function PackMultisig(ms: Multisig): (r: Bytes)
    ensures |r| == 355
  {
    [ms.m] + [ms.n] + [PackBool(ms.isInitialized)] + FlatKeys(ms.signers)
  }

  function UnpackMultisigFrom(src: Bytes): Result<Multisig>
    requires |src| == 355
  {
    var isInitialized :- UnpackBool(src[2]);
    Ok(Multisig(src[0], src[1], isInitialized, KeysFrom(src[3..])))
  }

  lemma MultisigRoundTrip(ms: Multisig)
    ensures UnpackMultisigFrom(PackMultisig(ms)) == Ok(ms)
  {
    assert PackMultisig(ms)[3..] == FlatKeys(ms.signers);
    KeysRoundTrip(ms.signers);
  }

  lemma MultisigCanonical(b: Bytes)
    requires |b| == 355 && UnpackMultisigFrom(b).Ok?
    ensures PackMultisig(UnpackMultisigFrom(b).value) == b
  {
    KeysCanonical(b[3..]);
    assert b == [b[0]] + [b[1]] + [b[2]] + b[3..];
  }

  method PackMultisigIntoSlice(ms: Multisig, dst: array<u8>)
    requires dst.Length == 355
    modifies dst
    ensures dst[..] == PackMultisig(ms)
  {
    dst[0] := ms.m;
    dst[1] := ms.n;
    dst[2] := PackBool(ms.isInitialized);
    for i := 0 to 11
      invariant dst[..3] == [ms.m, ms.n, PackBool(ms.isInitialized)]
      invariant dst[3..3 + 32 * i] == FlatKeys(ms.signers[..i])
    {
      ghost var was := dst[..];
      CopyFromSlice(dst, 3 + 32 * i, ms.signers[i].bytes);
      assert ms.signers[..i + 1][..i] == ms.signers[..i];
      assert dst[3..3 + 32 * (i + 1)] == was[3..3 + 32 * i] + ms.signers[i].bytes;
    }
    assert ms.signers[..11] == ms.signers;
    assert dst[..] == dst[..3] + dst[3..];
  }

  lemma KeysStep(flat: Bytes, i: nat)
    requires 32 * i + 32 <= |flat|
    ensures KeysFrom(flat[..32 * i + 32]) == KeysFrom(flat[..32 * i]) + [Pubkey(flat[32 * i..32 * i + 32])]
  {
    var b := flat[..32 * i + 32];
    assert b[..|b| - 32] == flat[..32 * i] && b[|b| - 32..] == flat[32 * i..32 * i + 32];
  }

  /** Fills the signer array chunk by chunk. */
  method UnpackSigners(flat: Bytes) returns (signers: SignerArray)
    requires |flat| == 352
    ensures signers == KeysFrom(flat)
  {
    signers := seq(11, i => ZERO_KEY);
    for i := 0 to 11
      invariant signers[..i] == KeysFrom(flat[..32 * i])
    {
      KeysStep(flat, i);
      ghost var front := signers[..i];
      var key := Pubkey(flat[32 * i..32 * i + 32]);
      signers := signers[i := key];
      assert signers[..i + 1] == front + [key];
    }
    assert flat[..352] == flat && signers[..11] == signers;
  }

  method UnpackMultisigFromSlice(src: Bytes) returns (r: Result<Multisig>)
    requires |src| == 355
    ensures r == UnpackMultisigFrom(src)
  {
    var isInitialized :- UnpackBool(src[2]);
    var signers := UnpackSigners(src[3..]);
    return Ok(Multisig(src[0], src[1], isInitialized, signers));
  }

  // ---- The layouts, byte by byte ----

  /** A field of `|body|` bytes behind a tag: one and three zeros with the body, four zeros with the old
      bytes. */
  predicate TaggedField(b: Bytes, present: bool, body: Bytes, was: Bytes) {
    b == if present then [1, 0, 0, 0] + body else [0, 0, 0, 0] + was
  }

  predicate IsTag(b: Bytes) {
    b == [0, 0, 0, 0] || b == [1, 0, 0, 0]
  }

  function KeyBody(key: Option<Pubkey>): Bytes {
    if key.Some? then key.value.bytes else []
  }

  lemma KeyOptionLayout(src: Option<Pubkey>, dst: Bytes)
    requires |dst| == 36
    ensures TaggedField(PackKeyOption(src, dst), src.Some?, KeyBody(src), dst[4..])
    ensures UnpackKeyOption(dst).Ok? <==> IsTag(dst[..4])
    ensures dst[..4] == [1, 0, 0, 0] ==> UnpackKeyOption(dst) == Ok(Some(Pubkey(dst[4..])))
    ensures dst[..4] == [0, 0, 0, 0] ==> UnpackKeyOption(dst) == Ok(None)
  {
  }

  lemma U64OptionLayout(src: Option<u64>, dst: Bytes)
    requires |dst| == 12
    ensures TaggedField(PackU64Option(src, dst), src.Some?, if src.Some? then U64ToLe(src.value) else [], dst[4..])
    ensures UnpackU64Option(dst).Ok? <==> IsTag(dst[..4])
    ensures dst[..4] == [1, 0, 0, 0] ==> UnpackU64Option(dst) == Ok(Some(U64FromLe(dst[4..])))
    ensures dst[..4] == [0, 0, 0, 0] ==> UnpackU64Option(dst) == Ok(None)
  {
  }

  lemma MintLayout(m: Mint, dst: Bytes)
    requires |dst| == 82
    ensures var b := PackMint(m, dst);
      && TaggedField(b[0..36], m.mintAuthority.Some?, KeyBody(m.mintAuthority), dst[4..36])
      && b[36..44] == U64ToLe(m.supply) && b[44] == m.decimals && b[45] == (if m.isInitialized then 1 else 0)
      && TaggedField(b[46..82], m.freezeAuthority.Some?, KeyBody(m.freezeAuthority), dst[50..82])
  {
    var b := PackMint(m, dst);
    KeyOptionLayout(m.mintAuthority, dst[..36]);
    KeyOptionLayout(m.freezeAuthority, dst[46..]);
    assert b[0..36] == PackKeyOption(m.mintAuthority, dst[..36]);
    assert b[36..44] == U64ToLe(m.supply);
    assert b[46..82] == PackKeyOption(m.freezeAuthority, dst[46..]);
    assert dst[..36][4..] == dst[4..36] && dst[46..][4..] == dst[50..82];
  }

  lemma MintUnpacksIff(b: Bytes)
    requires |b| == 82
    ensures UnpackMintFrom(b).Ok? <==> IsTag(b[0..4]) && b[45] <= 1 && IsTag(b[46..50])
  {
    assert b[..36][..4] == b[0..4] && b[46..][..4] == b[46..50];
  }

  lemma AccountLayout(a: Account, dst: Bytes)
    requires |dst| == 165
    ensures var b := PackAccount(a, dst);
      && b[0..32] == a.mint.bytes && b[32..64] == a.owner.bytes && b[64..72] == U64ToLe(a.amount)
      && TaggedField(b[72..108], a.delegate.Some?, KeyBody(a.delegate), dst[76..108])
      && b[108] == (match a.state case Uninitialized => 0 case Initialized => 1 case Frozen => 2)
      && TaggedField(b[109..121], a.isNative.Some?, if a.isNative.Some? then U64ToLe(a.isNative.value) else [],
                     dst[113..121])
      && b[121..129] == U64ToLe(a.delegatedAmount)
      && TaggedField(b[129..165], a.closeAuthority.Some?, KeyBody(a.closeAuthority), dst[133..165])
  {
    AccountPieces(a, dst);
    KeyOptionLayout(a.delegate, dst[72..108]);
    U64OptionLayout(a.isNative, dst[109..121]);
    KeyOptionLayout(a.closeAuthority, dst[129..]);
    assert dst[72..108][4..] == dst[76..108] && dst[109..121][4..] == dst[113..121] && dst[129..][4..] == dst[133..165];
    assert PackAccount(a, dst)[129..165] == PackAccount(a, dst)[129..];
  }

  lemma AccountUnpacksIff(b: Bytes)
    requires |b| == 165
    ensures UnpackAccountFrom(b).Ok? <==>
      IsTag(b[72..76]) && b[108] <= 2 && IsTag(b[109..113]) && IsTag(b[129..133])
  {
    assert b[72..108][..4] == b[72..76] && b[109..121][..4] == b[109..113] && b[129..][..4] == b[129..133];
  }

  lemma {:induction false} FlatKeysAt(keys: seq<Pubkey>, i: nat)
    requires i < |keys|
    ensures FlatKeys(keys)[32 * i..32 * i + 32] == keys[i].bytes
  {
    var front := keys[..|keys| - 1];
    if i < |front| {
      FlatKeysAt(front, i);
      assert FlatKeys(keys)[32 * i..32 * i + 32] == FlatKeys(front)[32 * i..32 * i + 32];
    }
  }

  lemma MultisigLayout(ms: Multisig, i: nat)
    requires i < 11
    ensures var b := PackMultisig(ms);
      && b[0] == ms.m && b[1] == ms.n && b[2] == (if ms.isInitialized then 1 else 0)
      && b[3 + 32 * i..35 + 32 * i] == ms.signers[i].bytes
  {
    FlatKeysAt(ms.signers, i);
    assert PackMultisig(ms)[3 + 32 * i..35 + 32 * i] == FlatKeys(ms.signers)[32 * i..32 * i + 32];
  }

  lemma MultisigUnpacksIff(b: Bytes)
    requires |b| == 355
    ensures UnpackMultisigFrom(b).Ok? <==> b[2] <= 1
  {
  }

  // ---- Buffers and decoded data ----

  /** What a cell's bytes decode to. */
  function Decode(b: Bytes): Data {
    if |b| == 82 && UnpackMintFrom(b).Ok? then MintData(UnpackMintFrom(b).value)
    else if |b| == 165 && UnpackAccountFrom(b).Ok? then AccountData(UnpackAccountFrom(b).value)
    else if |b| == 355 && UnpackMultisigFrom(b).Ok? then MultisigData(UnpackMultisigFrom(b).value)
    else Opaque(b)
  }

  /** A record packed into a buffer of its length; opaque data replaces the buffer. */
  function Encode(d: Data, b: Bytes): Bytes
    requires !d.Opaque? ==> |b| == d.Len()
  {
    match d
    case MintData(m) => PackMint(m, b)
    case AccountData(a) => PackAccount(a, b)
    case MultisigData(ms) => PackMultisig(ms)
    case Opaque(bytes) => bytes
  }

  /** Writing a record into any buffer of its length and decoding gives the record: the cells of the
      ledger may be kept decoded. */
  lemma DecodeEncode(d: Data, b: Bytes)
    requires !d.Opaque? && |b| == d.Len()
    ensures Decode(Encode(d, b)) == d && |Encode(d, b)| == |b|
  {
    match d
    case MintData(m) => MintRoundTrip(m, b);
    case AccountData(a) => AccountRoundTrip(a, b);
    case MultisigData(ms) => MultisigRoundTrip(ms);
  }

  /** A write changes the bytes exactly when it changes the decoded record, so the host's comparison
      of bytes is a comparison of records. In particular writing back what was read changes nothing,
      although an absent option leaves old bytes behind. */
  lemma BytesChangeIffRecordDoes(d: Data, b: Bytes)
    requires !d.Opaque? && |b| == d.Len() && !Decode(b).Opaque?
    ensures Encode(d, b) == b <==> Decode(b) == d
  {
    DecodeEncode(d, b);
    match Decode(b)
    case MintData(m) => MintCanonical(b);
    case AccountData(a) => AccountCanonical(b);
    case MultisigData(ms) => MultisigCanonical(b);
  }

  lemma {:induction false} FromLeZeros(n: nat)
    ensures FromLe(seq(n, i => 0)) == 0
  {
    if n > 0 {
      FromLeZeros(n - 1);
      assert seq(n, i => 0 as u8)[1..] == seq(n - 1, i => 0 as u8);
    }
  }

  lemma {:induction false} KeysFromZeros(n: nat)
    ensures KeysFrom(seq(32 * n, i => 0)) == seq(n, i => ZERO_KEY)
  {
    if n > 0 {
      KeysFromZeros(n - 1);
      var b: Bytes := seq(32 * n, i => 0);
      assert b[..|b| - 32] == seq(32 * (n - 1), i => 0 as u8);
      assert b[|b| - 32..] == seq(32, i => 0 as u8);
    }
  }

  /** A zeroed buffer decodes to the record a fresh cell is said to hold. */
  lemma DecodeZeros(len: nat)
    ensures Decode(seq(len, i => 0)) == ZeroData(len)
  {
    var b: Bytes := seq(len, i => 0);
    FromLeZeros(8);
    if len == MINT_LEN {
      assert b[..36][..4] == NONE_TAG && b[46..][..4] == NONE_TAG;
      assert b[36..44] == seq(8, i => 0 as u8);
    } else if len == ACCOUNT_LEN {
      assert b[72..108][..4] == NONE_TAG && b[109..121][..4] == NONE_TAG && b[129..][..4] == NONE_TAG;
      assert b[64..72] == seq(8, i => 0 as u8) && b[121..129] == seq(8, i => 0 as u8);
      assert b[..32] == seq(32, i => 0 as u8) && b[32..64] == seq(32, i => 0 as u8);
    } else if len == MULTISIG_LEN {
      KeysFromZeros(11);
      assert b[3..] == seq(352, i => 0 as u8);
    }
  }
}
