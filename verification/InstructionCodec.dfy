/** The wire format of the instructions: a tag byte and the fields behind it. */
module InstructionCodec {
  import opened Types
  import opened Instruction
  import opened ByteCodec
  import opened Utf8

  // ---- Authority types ----

  function AuthorityTypeInto(t: AuthorityType): u8 {
    match t
    case MintTokens => 0
    case FreezeAccount => 1
    case AccountOwner => 2
    case CloseAccount => 3
  }

  function AuthorityTypeFrom(index: u8): Result<AuthorityType> {
    match index
    case 0 => Ok(MintTokens)
    case 1 => Ok(FreezeAccount)
    case 2 => Ok(AccountOwner)
    case 3 => Ok(CloseAccount)
    case _ => Err(InvalidInstruction)
  }

  lemma AuthorityTypeBijection(t: AuthorityType, index: u8)
    ensures AuthorityTypeFrom(index) == Ok(t) <==> index == AuthorityTypeInto(t)
  {
  }

  // ---- Fields: each unpacker returns its value and the rest ----

  function SplitFirst(b: Bytes): Result<(u8, Bytes)> {
    if |b| == 0 then Err(InvalidInstruction) else Ok((b[0], b[1..]))
  }

  function UnpackPubkey(b: Bytes): Result<(Pubkey, Bytes)> {
    if |b| >= 32 then Ok((Pubkey(b[..32]), b[32..])) else Err(InvalidInstruction)
  }

  function UnpackPubkeyOption(b: Bytes): Result<(Option<Pubkey>, Bytes)> {
    if |b| >= 1 && b[0] == 0 then Ok((None, b[1..]))
    else if |b| >= 33 && b[0] == 1 then Ok((Some(Pubkey(b[1..33])), b[33..]))
    else Err(InvalidInstruction)
  }

  function PackPubkeyOption(value: Option<Pubkey>): Bytes {
    match value
    case Some(key) => [1] + key.bytes
    case None => [0]
  }

  function UnpackU64(b: Bytes): Result<(u64, Bytes)> {
    if |b| >= 8 then Ok((U64FromLe(b[..8]), b[8..])) else Err(InvalidInstruction)
  }

  function UnpackAmountDecimals(b: Bytes): Result<(u64, u8, Bytes)> {
    var a :- UnpackU64(b);
    var d :- SplitFirst(a.1);
    Ok((a.0, d.0, d.1))
  }

  lemma PubkeyField(key: Pubkey, t: Bytes)
    ensures UnpackPubkey(key.bytes + t) == Ok((key, t))
  {
  }

  lemma PubkeyOptionField(value: Option<Pubkey>, t: Bytes)
    ensures UnpackPubkeyOption(PackPubkeyOption(value) + t) == Ok((value, t))
  {
    var b := PackPubkeyOption(value) + t;
    if value.Some? {
      assert b[1..33] == value.value.bytes && b[33..] == t;
    } else {
      assert b[1..] == t;
    }
  }

  lemma PubkeyOptionConsumes(b: Bytes)
    requires UnpackPubkeyOption(b).Ok?
    ensures b == PackPubkeyOption(UnpackPubkeyOption(b).value.0) + UnpackPubkeyOption(b).value.1
  {
  }

  lemma U64Field(x: u64, t: Bytes)
    ensures UnpackU64(U64ToLe(x) + t) == Ok((x, t))
  {
    U64RoundTrip(x);
    assert (U64ToLe(x) + t)[..8] == U64ToLe(x) && (U64ToLe(x) + t)[8..] == t;
  }

  lemma U64Consumes(b: Bytes)
    requires UnpackU64(b).Ok?
    ensures b == U64ToLe(UnpackU64(b).value.0) + UnpackU64(b).value.1
  {
    U64Canonical(b[..8]);
    assert b == b[..8] + b[8..];
  }

  // ---- Bodies ----

  function PackMintBody(decimals: u8, mintAuthority: Pubkey, freezeAuthority: Option<Pubkey>): Bytes {
    [decimals] + mintAuthority.bytes + PackPubkeyOption(freezeAuthority)
  }

  function UnpackMintBody(b: Bytes): Result<(u8, Pubkey, Option<Pubkey>)> {
    var d :- SplitFirst(b);
    var m :- UnpackPubkey(d.1);
    var f :- UnpackPubkeyOption(m.1);
    Ok((d.0, m.0, f.0))
  }

  lemma MintBodyField(decimals: u8, ma: Pubkey, fa: Option<Pubkey>, t: Bytes)
    ensures UnpackMintBody(PackMintBody(decimals, ma, fa) + t) == Ok((decimals, ma, fa))
  {
    BehindFirst(decimals, ma.bytes, PackPubkeyOption(fa), t);
    PubkeyField(ma, PackPubkeyOption(fa) + t);
    PubkeyOptionField(fa, t);
  }

  lemma BehindFirst(first: u8, b: Bytes, c: Bytes, t: Bytes)
    ensures ([first] + b + c + t)[0] == first && ([first] + b + c + t)[1..] == b + (c + t)
  {
  }

  lemma MintBodyConsumes(b: Bytes)
    requires UnpackMintBody(b).Ok?
    ensures var v := UnpackMintBody(b).value; PackMintBody(v.0, v.1, v.2) <= b
  {
    var v := UnpackMintBody(b).value;
    PubkeyOptionConsumes(b[33..]);
    assert b[1..][32..] == b[33..];
    assert b == [b[0]] + b[1..33] + b[33..];
    assert b[1..][..32] == b[1..33];
  }

  lemma AmountDecimalsField(amount: u64, decimals: u8, t: Bytes)
    ensures UnpackAmountDecimals(U64ToLe(amount) + [decimals] + t) == Ok((amount, decimals, t))
  {
    assert U64ToLe(amount) + [decimals] + t == U64ToLe(amount) + ([decimals] + t);
    U64Field(amount, [decimals] + t);
    assert ([decimals] + t)[1..] == t;
  }

  lemma AmountDecimalsConsumes(b: Bytes)
    requires UnpackAmountDecimals(b).Ok?
    ensures var v := UnpackAmountDecimals(b).value; b == U64ToLe(v.0) + [v.1] + v.2
  {
    U64Consumes(b);
  }

  // ---- Instructions ----

  /** `&str` fields hold valid UTF-8. */
  predicate WellTyped(ix: TokenInstruction) {
    ix.UiAmountToAmount? ==> ValidUtf8(ix.uiAmount)
  }

  function Tag(ix: TokenInstruction): (t: u8)
    ensures t <= 24
  {
    match ix
    case InitializeMint(_, _, _) => 0
    case InitializeAccount => 1
    case InitializeMultisig(_) => 2
    case Transfer(_) => 3
    case Approve(_) => 4
    case Revoke => 5
    case SetAuthority(_, _) => 6
    case MintTo(_) => 7
    case Burn(_) => 8
    case CloseTokenAccount => 9
    case FreezeTokenAccount => 10
    case ThawAccount => 11
    case TransferChecked(_, _) => 12
    case ApproveChecked(_, _) => 13
    case MintToChecked(_, _) => 14
    case BurnChecked(_, _) => 15
    case InitializeAccount2(_) => 16
    case SyncNative => 17
    case InitializeAccount3(_) => 18
    case InitializeMultisig2(_) => 19
    case InitializeMint2(_, _, _) => 20
    case GetAccountDataSize => 21
    case InitializeImmutableOwner => 22
    case AmountToUiAmount(_) => 23
    case UiAmountToAmount(_) => 24
  }

  function Body(ix: TokenInstruction): Bytes {
    match ix
    case InitializeMint(decimals, ma, fa) => PackMintBody(decimals, ma, fa)
    case InitializeMint2(decimals, ma, fa) => PackMintBody(decimals, ma, fa)
    case InitializeMultisig(m) => [m]
    case InitializeMultisig2(m) => [m]
    case Transfer(amount) => U64ToLe(amount)
    case Approve(amount) => U64ToLe(amount)
    case MintTo(amount) => U64ToLe(amount)
    case Burn(amount) => U64ToLe(amount)
    case AmountToUiAmount(amount) => U64ToLe(amount)
    case SetAuthority(t, authority) => [AuthorityTypeInto(t)] + PackPubkeyOption(authority)
    case TransferChecked(amount, decimals) => U64ToLe(amount) + [decimals]
    case ApproveChecked(amount, decimals) => U64ToLe(amount) + [decimals]
    case MintToChecked(amount, decimals) => U64ToLe(amount) + [decimals]
    case BurnChecked(amount, decimals) => U64ToLe(amount) + [decimals]
    case InitializeAccount2(owner) => owner.bytes
    case InitializeAccount3(owner) => owner.bytes
    case UiAmountToAmount(text) => text
    case _ => []
  }

  function Packed(ix: TokenInstruction): Bytes {
    [Tag(ix)] + Body(ix)
  }

  /** The body of an instruction with this tag. */
  function UnpackBody(tag: u8, rest: Bytes): Result<TokenInstruction> {
    match tag
    case 0 => var v :- UnpackMintBody(rest); Ok(InitializeMint(v.0, v.1, v.2))
    case 1 => Ok(InitializeAccount)
    case 2 => var v :- SplitFirst(rest); Ok(InitializeMultisig(v.0))
    case 3 => var v :- UnpackU64(rest); Ok(Transfer(v.0))
    case 4 => var v :- UnpackU64(rest); Ok(Approve(v.0))
    case 5 => Ok(Revoke)
    case 6 =>
      var v :- SplitFirst(rest);
      var t :- AuthorityTypeFrom(v.0);
      var authority :- UnpackPubkeyOption(v.1);
      Ok(SetAuthority(t, authority.0))
    case 7 => var v :- UnpackU64(rest); Ok(MintTo(v.0))
    case 8 => var v :- UnpackU64(rest); Ok(Burn(v.0))
    case 9 => Ok(CloseTokenAccount)
    case 10 => Ok(FreezeTokenAccount)
    case 11 => Ok(ThawAccount)
    case 12 => var v :- UnpackAmountDecimals(rest); Ok(TransferChecked(v.0, v.1))
    case 13 => var v :- UnpackAmountDecimals(rest); Ok(ApproveChecked(v.0, v.1))
    case 14 => var v :- UnpackAmountDecimals(rest); Ok(MintToChecked(v.0, v.1))
    case 15 => var v :- UnpackAmountDecimals(rest); Ok(BurnChecked(v.0, v.1))
    case 16 => var v :- UnpackPubkey(rest); Ok(InitializeAccount2(v.0))
    case 17 => Ok(SyncNative)
    case 18 => var v :- UnpackPubkey(rest); Ok(InitializeAccount3(v.0))
    case 19 => var v :- SplitFirst(rest); Ok(InitializeMultisig2(v.0))
    case 20 => var v :- UnpackMintBody(rest); Ok(InitializeMint2(v.0, v.1, v.2))
    case 21 => Ok(GetAccountDataSize)
    case 22 => Ok(InitializeImmutableOwner)
    case 23 => var v :- UnpackU64(rest); Ok(AmountToUiAmount(v.0))
    case 24 => if ValidUtf8(rest) then Ok(UiAmountToAmount(rest)) else Err(InvalidInstruction)
    case _ => Err(InvalidInstruction)
  }

  function Unpack(input: Bytes): Result<TokenInstruction> {
    var v :- SplitFirst(input);
    UnpackBody(v.0, v.1)
  }

  // Pushing tag and fields onto a buffer, shape by shape.

  method PushPubkeyOption(buffer: Bytes, value: Option<Pubkey>) returns (buf: Bytes)
    ensures buf == buffer + PackPubkeyOption(value)
  {
    buf := buffer;
    match value {
      case Some(key) =>
        buf := buf + [1];
        buf := buf + key.bytes;
      case None =>
        buf := buf + [0];
    }
  }

  method PackMintFields(tag: u8, decimals: u8, mintAuthority: Pubkey,
                        freezeAuthority: Option<Pubkey>) returns (buf: Bytes)
    ensures buf == [tag] + PackMintBody(decimals, mintAuthority, freezeAuthority)
  {
    buf := [];
    buf := buf + [tag];
    buf := buf + [decimals];
    buf := buf + mintAuthority.bytes;
    buf := PushPubkeyOption(buf, freezeAuthority);
  }

  method PackAmount(tag: u8, amount: u64) returns (buf: Bytes)
    ensures buf == [tag] + U64ToLe(amount)
  {
    buf := [];
    buf := buf + [tag];
    buf := buf + U64ToLe(amount);
  }

  method PackAmountDecimals(tag: u8, amount: u64, decimals: u8) returns (buf: Bytes)
    ensures buf == [tag] + (U64ToLe(amount) + [decimals])
  {
    buf := [];
    buf := buf + [tag];
    buf := buf + U64ToLe(amount);
    buf := buf + [decimals];
  }

  method PackAuthority(tag: u8, authorityType: AuthorityType, newAuthority: Option<Pubkey>) returns (buf: Bytes)
    ensures buf == [tag] + ([AuthorityTypeInto(authorityType)] + PackPubkeyOption(newAuthority))
  {
    buf := [];
    buf := buf + [tag];
    buf := buf + [AuthorityTypeInto(authorityType)];
    buf := PushPubkeyOption(buf, newAuthority);
  }

  method Pack(ix: TokenInstruction) returns (buf: Bytes)
    ensures buf == Packed(ix)
  {
    match ix
    case InitializeMint(decimals, ma, fa) => buf := PackMintFields(0, decimals, ma, fa);
    case InitializeAccount => buf := [1];
    case InitializeMultisig(m) => buf := [2] + [m];
    case Transfer(amount) => buf := PackAmount(3, amount);
    case Approve(amount) => buf := PackAmount(4, amount);
    case MintTo(amount) => buf := PackAmount(7, amount);
    case Burn(amount) => buf := PackAmount(8, amount);
    case Revoke => buf := [5];
    case SetAuthority(authorityType, newAuthority) => buf := PackAuthority(6, authorityType, newAuthority);
    case CloseTokenAccount => buf := [9];
    case FreezeTokenAccount => buf := [10];
    case ThawAccount => buf := [11];
    case TransferChecked(amount, decimals) => buf := PackAmountDecimals(12, amount, decimals);
    case ApproveChecked(amount, decimals) => buf := PackAmountDecimals(13, amount, decimals);
    case MintToChecked(amount, decimals) => buf := PackAmountDecimals(14, amount, decimals);
    case BurnChecked(amount, decimals) => buf := PackAmountDecimals(15, amount, decimals);
    case InitializeAccount2(owner) => buf := [16] + owner.bytes;
    case SyncNative => buf := [17];
    case InitializeAccount3(owner) => buf := [18] + owner.bytes;
    case InitializeMultisig2(m) => buf := [19] + [m];
    case InitializeMint2(decimals, ma, fa) => buf := PackMintFields(20, decimals, ma, fa);
    case GetAccountDataSize => buf := [21];
    case InitializeImmutableOwner => buf := [22];
    case AmountToUiAmount(amount) => buf := PackAmount(23, amount);
    case UiAmountToAmount(uiAmount) => buf := [24] + uiAmount;
  }

  // ---- The wire, byte by byte ----

  /** An absent key is a zero, a present one a one and the key. */
  predicate IsKeyField(b: Bytes, key: Option<Pubkey>) {
    b == match key case None => [0] case Some(k) => [1] + k.bytes
  }

  lemma WireOfKeyField(key: Option<Pubkey>)
    ensures IsKeyField(PackPubkeyOption(key), key)
  {
  }

  lemma WireOfMints(d: u8, k: Pubkey, f: Option<Pubkey>) returns (field: Bytes)
    ensures IsKeyField(field, f)
    ensures Packed(InitializeMint(d, k, f)) == [0] + ([d] + k.bytes + field)
    ensures Packed(InitializeMint2(d, k, f)) == [20] + ([d] + k.bytes + field)
  {
    field := PackPubkeyOption(f);
    WireOfKeyField(f);
  }

  lemma WireOfOwners(k: Pubkey, m: u8)
    ensures Packed(InitializeAccount2(k)) == [16] + k.bytes
    ensures Packed(InitializeAccount3(k)) == [18] + k.bytes
    ensures Packed(InitializeMultisig(m)) == [2] + [m]
    ensures Packed(InitializeMultisig2(m)) == [19] + [m]
  {
  }

  lemma WireOfAmounts(amount: u64)
    ensures Packed(Transfer(amount)) == [3] + U64ToLe(amount)
    ensures Packed(Approve(amount)) == [4] + U64ToLe(amount)
    ensures Packed(MintTo(amount)) == [7] + U64ToLe(amount)
    ensures Packed(Burn(amount)) == [8] + U64ToLe(amount)
    ensures Packed(AmountToUiAmount(amount)) == [23] + U64ToLe(amount)
  {
  }

  lemma WireOfCheckedAmounts(amount: u64, d: u8)
    ensures Packed(TransferChecked(amount, d)) == [12] + (U64ToLe(amount) + [d])
    ensures Packed(ApproveChecked(amount, d)) == [13] + (U64ToLe(amount) + [d])
    ensures Packed(MintToChecked(amount, d)) == [14] + (U64ToLe(amount) + [d])
    ensures Packed(BurnChecked(amount, d)) == [15] + (U64ToLe(amount) + [d])
  {
  }

  lemma WireOfAuthorities(t: AuthorityType, key: Option<Pubkey>) returns (code: u8, field: Bytes)
    ensures code ==
      match t case MintTokens => 0 case FreezeAccount => 1 case AccountOwner => 2 case CloseAccount => 3
    ensures IsKeyField(field, key) && Packed(SetAuthority(t, key)) == [6] + ([code] + field)
  {
    code, field := AuthorityTypeInto(t), PackPubkeyOption(key);
    WireOfKeyField(key);
  }

  /** The tags of the instructions without fields. */
  lemma WireOfBareTags(ix: TokenInstruction)
    requires HasNoBody(ix)
    ensures Packed(ix) == [
      if ix.InitializeAccount? then 1 else if ix.Revoke? then 5 else if ix.CloseTokenAccount? then 9
      else if ix.FreezeTokenAccount? then 10 else if ix.ThawAccount? then 11 else if ix.SyncNative? then 17
      else if ix.GetAccountDataSize? then 21 else 22]
  {
  }

  lemma WireOfText(text: Bytes)
    ensures Packed(UiAmountToAmount(text)) == [24] + text
  {
  }

  // ---- Laws ----

  predicate HasAmount(ix: TokenInstruction) {
    ix.Transfer? || ix.Approve? || ix.MintTo? || ix.Burn? || ix.AmountToUiAmount?
  }

  predicate IsChecked(ix: TokenInstruction) {
    ix.TransferChecked? || ix.ApproveChecked? || ix.MintToChecked? || ix.BurnChecked?
  }

  lemma CheckedBodyRead(ix: TokenInstruction, t: Bytes)
    requires IsChecked(ix)
    ensures UnpackBody(Tag(ix), Body(ix) + t) == Ok(ix)
  {
    AmountDecimalsField(ix.amount, ix.decimals, t);
  }

  lemma AmountBodyRead(ix: TokenInstruction, t: Bytes)
    requires HasAmount(ix)
    ensures UnpackBody(Tag(ix), Body(ix) + t) == Ok(ix)
  {
    U64Field(ix.amount, t);
  }

  lemma MintBodyRead(ix: TokenInstruction, t: Bytes)
    requires ix.InitializeMint? || ix.InitializeMint2?
    ensures UnpackBody(Tag(ix), Body(ix) + t) == Ok(ix)
  {
    var b := Body(ix) + t;
    MintBodyField(ix.decimals, ix.mintAuthority, ix.freezeAuthority, t);
    assert UnpackMintBody(b) == Ok((ix.decimals, ix.mintAuthority, ix.freezeAuthority));
  }

  lemma AuthorityBodyRead(ix: TokenInstruction, t: Bytes)
    requires ix.SetAuthority?
    ensures UnpackBody(Tag(ix), Body(ix) + t) == Ok(ix)
  {
    assert (Body(ix) + t)[1..] == PackPubkeyOption(ix.newAuthority) + t;
    PubkeyOptionField(ix.newAuthority, t);
  }

  lemma OwnerBodyRead(ix: TokenInstruction, t: Bytes)
    requires ix.InitializeAccount2? || ix.InitializeAccount3?
    ensures UnpackBody(Tag(ix), Body(ix) + t) == Ok(ix)
  {
    PubkeyField(ix.owner, t);
  }

  lemma ByteBodyRead(ix: TokenInstruction, t: Bytes)
    requires ix.InitializeMultisig? || ix.InitializeMultisig2?
    ensures UnpackBody(Tag(ix), Body(ix) + t) == Ok(ix)
  {
  }

  predicate HasNoBody(ix: TokenInstruction) {
    || ix.InitializeAccount? || ix.Revoke? || ix.CloseTokenAccount? || ix.FreezeTokenAccount? || ix.ThawAccount?
    || ix.SyncNative? || ix.GetAccountDataSize? || ix.InitializeImmutableOwner?
  }

  lemma EmptyBodyRead(ix: TokenInstruction, t: Bytes)
    requires HasNoBody(ix)
    ensures UnpackBody(Tag(ix), Body(ix) + t) == Ok(ix)
  {
  }

  lemma BodyRead(ix: TokenInstruction, t: Bytes)
    requires !ix.UiAmountToAmount?
    ensures UnpackBody(Tag(ix), Body(ix) + t) == Ok(ix)
  {
    if HasAmount(ix) {
      AmountBodyRead(ix, t);
    } else if IsChecked(ix) {
      CheckedBodyRead(ix, t);
    } else if ix.InitializeMint? || ix.InitializeMint2? {
      MintBodyRead(ix, t);
    } else if ix.SetAuthority? {
      AuthorityBodyRead(ix, t);
    } else if ix.InitializeAccount2? || ix.InitializeAccount3? {
      OwnerBodyRead(ix, t);
    } else if ix.InitializeMultisig? || ix.InitializeMultisig2? {
      ByteBodyRead(ix, t);
    } else {
      EmptyBodyRead(ix, t);
    }
  }

  lemma SplitPacked(ix: TokenInstruction, tail: Bytes)
    ensures SplitFirst(Packed(ix) + tail) == Ok((Tag(ix), Body(ix) + tail))
  {
    assert (Packed(ix) + tail)[1..] == Body(ix) + tail;
  }

  lemma TextTail(text: Bytes, tail: Bytes)
    requires ValidUtf8(text)
    ensures UnpackBody(24, text + tail) ==
      if ValidUtf8(tail) then Ok(UiAmountToAmount(text + tail)) else Err(InvalidInstruction)
  {
    Utf8Append(text, tail);
  }

  /** Whatever follows a packed instruction is ignored, except by the one that ends in text, which
      takes all of it. */
  lemma TailIsIgnored(ix: TokenInstruction, tail: Bytes)
    requires WellTyped(ix)
    ensures Unpack(Packed(ix) + tail) ==
      if !ix.UiAmountToAmount? then Ok(ix)
      else if ValidUtf8(tail) then Ok(UiAmountToAmount(ix.uiAmount + tail))
      else Err(InvalidInstruction)
  {
    SplitPacked(ix, tail);
    if ix.UiAmountToAmount? {
      TextTail(ix.uiAmount, tail);
    } else {
      BodyRead(ix, tail);
    }
  }

  /** Every instruction survives packing and unpacking. */
  lemma InstructionRoundTrip(ix: TokenInstruction)
    requires WellTyped(ix)
    ensures Unpack(Packed(ix)) == Ok(ix)
  {
    TailIsIgnored(ix, []);
    assert Packed(ix) + [] == Packed(ix);
    if ix.UiAmountToAmount? {
      assert ix.uiAmount + [] == ix.uiAmount;
    }
  }

  /** The instruction read accounts for the front of the body. */
  predicate Consumes(tag: u8, rest: Bytes) {
    UnpackBody(tag, rest).Ok? ==>
      var ix := UnpackBody(tag, rest).value;
      Tag(ix) == tag && Body(ix) <= rest && WellTyped(ix)
  }

  lemma AmountBodyConsumes(tag: u8, rest: Bytes)
    requires tag in {3, 4, 7, 8, 23}
    ensures Consumes(tag, rest)
  {
    if UnpackU64(rest).Ok? {
      U64Consumes(rest);
    }
  }

  lemma CheckedBodyConsumes(tag: u8, rest: Bytes)
    requires 12 <= tag <= 15
    ensures Consumes(tag, rest)
  {
    if UnpackAmountDecimals(rest).Ok? {
      AmountDecimalsConsumes(rest);
    }
  }

  lemma MintBodyConsumed(tag: u8, rest: Bytes)
    requires tag == 0 || tag == 20
    ensures Consumes(tag, rest)
  {
    if UnpackMintBody(rest).Ok? {
      MintBodyConsumes(rest);
    }
  }

  lemma BodyConsumes(tag: u8, rest: Bytes)
    ensures Consumes(tag, rest)
  {
    if tag == 0 || tag == 20 {
      MintBodyConsumed(tag, rest);
    } else if tag in {3, 4, 7, 8, 23} {
      AmountBodyConsumes(tag, rest);
    } else if tag == 6 {
      if UnpackBody(tag, rest).Ok? {
        PubkeyOptionConsumes(rest[1..]);
        assert rest == [rest[0]] + rest[1..];
      }
    } else if 12 <= tag <= 15 {
      CheckedBodyConsumes(tag, rest);
    }
  }

  /** Whatever unpacks is a packed instruction, up to ignored bytes behind it. */
  lemma UnpackedIsPrefix(input: Bytes)
    requires Unpack(input).Ok?
    ensures Packed(Unpack(input).value) <= input && WellTyped(Unpack(input).value)
  {
    BodyConsumes(input[0], input[1..]);
    assert input == [input[0]] + input[1..];
  }
}
