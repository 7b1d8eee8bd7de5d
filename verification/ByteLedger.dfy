/** The ledger as the host has it, with bytes in the cells: one invocation on bytes, its instruction
    from the wire, its writes into the old buffers and the host's comparison of bytes included, is one
    invocation on the decoded ledger. */
module ByteLedger {
  import opened Types
  import opened State
  import opened Instruction
  import opened Spec
  import opened Sums
  import opened Invariant
  import opened Runs
  import opened RecordCodec
  import InstructionCodec

  datatype ByteCell = ByteCell(lamports: u64, owner: Pubkey, bytes: Bytes)

  type Buffers = map<Pubkey, ByteCell>

  function Decoded(b: Buffers): Ledger {
    map k | k in b :: Cell(b[k].lamports, b[k].owner, Decode(b[k].bytes))
  }

  /** The host's contract, bytes for data. */
  predicate BytesAdmissible(env: Env, before: Buffers, after: Buffers) {
    && before.Keys == after.Keys
    && forall k | k in before && before[k].owner != env.programId ::
         before[k].bytes == after[k].bytes && before[k].lamports <= after[k].lamports
  }

  /** A cell is left as it was, rewritten with a record of its length, or emptied. */
  predicate Writes(was: Data, now: Data) {
    || now == was
    || now == Opaque([])
    || (!was.Opaque? && !now.Opaque? && now.Len() == was.Len())
  }

  predicate WritesCells(before: Ledger, after: Ledger) {
    && before.Keys == after.Keys
    && forall k | k in before :: Writes(before[k].data, after[k].data)
  }

  lemma DecodeLen(b: Bytes)
    ensures Decode(b).Len() == |b|
    ensures Decode(b).Opaque? ==> Decode(b) == Opaque(b)
  {
  }

  /** The record of each cell packed into the buffer it has. */
  function Written(b: Buffers, after: Ledger): Buffers
    requires WritesCells(Decoded(b), after)
  {
    map k | k in b :: ByteCell(after[k].lamports, after[k].owner, WrittenBytes(b[k].bytes, after[k].data))
  }

  function WrittenBytes(b: Bytes, now: Data): Bytes
    requires Writes(Decode(b), now)
  {
    DecodeLen(b);
    Encode(now, b)
  }

  lemma WrittenBytesDecode(b: Bytes, now: Data)
    requires Writes(Decode(b), now)
    ensures Decode(WrittenBytes(b, now)) == now
    ensures WrittenBytes(b, now) == b <==> Decode(b) == now
  {
    DecodeLen(b);
    if !now.Opaque? {
      DecodeEncode(now, b);
      BytesChangeIffRecordDoes(now, b);
    }
  }

  lemma WrittenDecodes(b: Buffers, after: Ledger)
    requires WritesCells(Decoded(b), after)
    ensures Decoded(Written(b, after)) == after
  {
    forall k | k in b ensures Decode(WrittenBytes(b[k].bytes, after[k].data)) == after[k].data {
      assert Writes(Decoded(b)[k].data, after[k].data);
      WrittenBytesDecode(b[k].bytes, after[k].data);
    }
    assert Decoded(Written(b, after)).Keys == after.Keys;
  }

  lemma AdmissibleOnBytes(env: Env, b: Buffers, after: Ledger)
    requires WritesCells(Decoded(b), after)
    ensures BytesAdmissible(env, b, Written(b, after)) <==> Admissible(env, Decoded(b), after)
  {
    var l, w := Decoded(b), Written(b, after);
    forall k | k in b ensures w[k].bytes == b[k].bytes <==> l[k].data == after[k].data {
      assert Writes(l[k].data, after[k].data);
      WrittenBytesDecode(b[k].bytes, after[k].data);
    }
    assert w.Keys == b.Keys && l.Keys == after.Keys;
    if Admissible(env, l, after) {
      assert forall k | k in b && b[k].owner != env.programId :: l[k].owner != env.programId;
    }
    if BytesAdmissible(env, b, w) {
      assert forall k | k in l && l[k].owner != env.programId :: b[k].owner != env.programId;
    }
  }

  // ---- What the instructions write ----

  lemma WritesOne(l: Ledger, k: Pubkey, data: Data)
    requires k in l && Writes(l[k].data, data)
    ensures WritesCells(l, WithData(l, k, data))
  {
  }

  lemma WritesTwo(l: Ledger, j: Pubkey, c: Cell, k: Pubkey, d: Cell)
    requires j in l && k in l && j != k && Writes(l[j].data, c.data) && Writes(l[k].data, d.data)
    ensures WritesCells(l, l[j := c][k := d])
  {
  }

  lemma InitializationWrites(env: Env, l: Ledger, accts: seq<Meta>, ix: TokenInstruction)
    requires Present(l, accts) && Process(env, l, accts, ix).Ok?
    requires ix.InitializeMint? || ix.InitializeMint2? || ix.InitializeAccount? || ix.InitializeAccount2?
      || ix.InitializeAccount3? || ix.InitializeMultisig? || ix.InitializeMultisig2?
    ensures WritesCells(l, Process(env, l, accts, ix).value)
  {
    var k, r := accts[0].key, Process(env, l, accts, ix).value;
    assert r == WithData(l, k, r[k].data);
    WritesOne(l, k, r[k].data);
  }

  lemma TransferWrites(env: Env, l: Ledger, s: Pubkey, d: Pubkey, auth: Meta, signers: seq<Meta>, amount: u64,
                       check: Option<MintCheck>)
    requires s in l && d in l && auth.key in l && CheckPresent(l, check)
    requires TransferBetween(env, l, s, d, auth, signers, amount, check).Ok?
    ensures WritesCells(l, TransferBetween(env, l, s, d, auth, signers, amount, check).value)
  {
    var r := TransferBetween(env, l, s, d, auth, signers, amount, check).value;
    if s != d {
      assert r == l[s := r[s]][d := r[d]];
      WritesTwo(l, s, r[s], d, r[d]);
    }
  }

  lemma TransferListWrites(env: Env, l: Ledger, accts: seq<Meta>, amount: u64, expected: Option<u8>)
    requires Present(l, accts) && ProcessTransfer(env, l, accts, amount, expected).Ok?
    ensures WritesCells(l, ProcessTransfer(env, l, accts, amount, expected).value)
  {
    var shift := if expected.Some? then 1 else 0;
    TransferWrites(env, l, accts[0].key, accts[1 + shift].key, accts[2 + shift], accts[3 + shift..], amount,
                   CheckedMint(accts, expected));
  }

  lemma MintToWrites(env: Env, l: Ledger, accts: seq<Meta>, amount: u64, expected: Option<u8>)
    requires Present(l, accts) && ProcessMintTo(env, l, accts, amount, expected).Ok?
    ensures WritesCells(l, ProcessMintTo(env, l, accts, amount, expected).value)
  {
    var k, d, r := accts[0].key, accts[1].key, ProcessMintTo(env, l, accts, amount, expected).value;
    assert r == l[d := r[d]][k := r[k]];
    WritesTwo(l, d, r[d], k, r[k]);
  }

  lemma BurnWrites(env: Env, l: Ledger, accts: seq<Meta>, amount: u64, expected: Option<u8>)
    requires Present(l, accts) && ProcessBurn(env, l, accts, amount, expected).Ok?
    ensures WritesCells(l, ProcessBurn(env, l, accts, amount, expected).value)
  {
    var s, k, r := accts[0].key, accts[1].key, ProcessBurn(env, l, accts, amount, expected).value;
    assert r == l[s := r[s]][k := r[k]];
    WritesTwo(l, s, r[s], k, r[k]);
  }

  lemma ApproveWrites(env: Env, l: Ledger, accts: seq<Meta>, amount: u64, expected: Option<u8>)
    requires Present(l, accts) && ProcessApprove(env, l, accts, amount, expected).Ok?
    ensures WritesCells(l, ProcessApprove(env, l, accts, amount, expected).value)
  {
    var k, r := accts[0].key, ProcessApprove(env, l, accts, amount, expected).value;
    WritesOne(l, k, r[k].data);
  }

  lemma CloseWrites(env: Env, l: Ledger, accts: seq<Meta>)
    requires Present(l, accts) && ProcessCloseAccount(env, l, accts).Ok?
    ensures WritesCells(l, ProcessCloseAccount(env, l, accts).value)
  {
    var s, d, r := accts[0].key, accts[1].key, ProcessCloseAccount(env, l, accts).value;
    assert r == l[d := r[d]][s := r[s]];
    WritesTwo(l, d, r[d], s, r[s]);
  }

  lemma ControlWrites(env: Env, l: Ledger, accts: seq<Meta>, ix: TokenInstruction)
    requires Present(l, accts) && Process(env, l, accts, ix).Ok?
    requires ix.Revoke? || ix.SetAuthority? || ix.FreezeTokenAccount? || ix.ThawAccount? || ix.SyncNative?
    ensures WritesCells(l, Process(env, l, accts, ix).value)
  {
    var k, r := accts[0].key, Process(env, l, accts, ix).value;
    assert r == WithData(l, k, r[k].data);
    WritesOne(l, k, r[k].data);
  }

  lemma ProcessWrites(env: Env, l: Ledger, accts: seq<Meta>, ix: TokenInstruction)
    requires Present(l, accts) && Process(env, l, accts, ix).Ok?
    ensures WritesCells(l, Process(env, l, accts, ix).value)
  {
    match ix
    case Transfer(amount) => TransferListWrites(env, l, accts, amount, None);
    case TransferChecked(amount, decimals) => TransferListWrites(env, l, accts, amount, Some(decimals));
    case MintTo(amount) => MintToWrites(env, l, accts, amount, None);
    case MintToChecked(amount, decimals) => MintToWrites(env, l, accts, amount, Some(decimals));
    case Burn(amount) => BurnWrites(env, l, accts, amount, None);
    case BurnChecked(amount, decimals) => BurnWrites(env, l, accts, amount, Some(decimals));
    case Approve(amount) => ApproveWrites(env, l, accts, amount, None);
    case ApproveChecked(amount, decimals) => ApproveWrites(env, l, accts, amount, Some(decimals));
    case CloseTokenAccount => CloseWrites(env, l, accts);
    case Revoke => ControlWrites(env, l, accts, ix);
    case SetAuthority(_, _) => ControlWrites(env, l, accts, ix);
    case FreezeTokenAccount => ControlWrites(env, l, accts, ix);
    case ThawAccount => ControlWrites(env, l, accts, ix);
    case SyncNative => ControlWrites(env, l, accts, ix);
    case GetAccountDataSize =>
    case InitializeImmutableOwner =>
    case AmountToUiAmount(_) =>
    case UiAmountToAmount(_) =>
    case _ => InitializationWrites(env, l, accts, ix);
  }

  // ---- The simulation ----

  /** One invocation as the host sees it: the input unpacked, the records unpacked and packed back, and
      the bytes compared. */
  function BytesInvoke(env: Env, b: Buffers, accts: seq<Meta>, input: Bytes): Buffers {
    var l := Decoded(b);
    if InstructionCodec.Unpack(input).Err? || !Present(l, accts) then b
    else
      var ix := InstructionCodec.Unpack(input).value;
      if Process(env, l, accts, ix).Err? then b
      else
        ProcessWrites(env, l, accts, ix);
        var w := Written(b, Process(env, l, accts, ix).value);
        if BytesAdmissible(env, b, w) then w else b
  }

  /** Decoding after an invocation on bytes is an invocation after decoding. */
  lemma BytesInvokeSimulates(env: Env, b: Buffers, accts: seq<Meta>, input: Bytes)
    ensures Decoded(BytesInvoke(env, b, accts, input)) ==
      match InstructionCodec.Unpack(input)
      case Ok(ix) => Invoke(env, Decoded(b), accts, ix)
      case Err(_) => Decoded(b)
  {
    var l := Decoded(b);
    var unpacked := InstructionCodec.Unpack(input);
    if unpacked.Ok? && Present(l, accts) && Process(env, l, accts, unpacked.value).Ok? {
      var after := Process(env, l, accts, unpacked.value).value;
      ProcessWrites(env, l, accts, unpacked.value);
      WrittenDecodes(b, after);
      AdmissibleOnBytes(env, b, after);
    }
  }

  // ---- Runs on bytes ----

  datatype WireEvent =
    | Call(accts: seq<Meta>, input: Bytes)
    | Outside(next: Buffers)

  ghost function BytesNext(env: Env, b: Buffers, e: WireEvent): Buffers {
    match e
    case Call(accts, input) => BytesInvoke(env, b, accts, input)
    case Outside(next) => if WorldStep(env, Decoded(b), Decoded(next)) then next else b
  }

  ghost function BytesAfter(env: Env, b: Buffers, run: seq<WireEvent>): Buffers
    decreases |run|
  {
    if |run| == 0 then b else BytesAfter(env, BytesNext(env, b, run[0]), run[1..])
  }

  /** The run of the decoded ledger; input that does not unpack is no event there. */
  function Unpacked(run: seq<WireEvent>): seq<Event> {
    if |run| == 0 then [] else
      match run[0]
      case Call(accts, input) =>
        (match InstructionCodec.Unpack(input)
         case Ok(ix) => [Program(accts, ix)] + Unpacked(run[1..])
         case Err(_) => Unpacked(run[1..]))
      case Outside(next) => [World(Decoded(next))] + Unpacked(run[1..])
  }

  lemma AfterFirst(env: Env, l: Ledger, e: Event, rest: seq<Event>)
    ensures After(env, l, [e] + rest) == After(env, Next(env, l, e), rest)
  {
    assert ([e] + rest)[1..] == rest;
  }

  lemma {:induction false} BytesRunSimulates(env: Env, b: Buffers, run: seq<WireEvent>)
    ensures Decoded(BytesAfter(env, b, run)) == After(env, Decoded(b), Unpacked(run))
    decreases |run|
  {
    if |run| > 0 {
      BytesRunSimulates(env, BytesNext(env, b, run[0]), run[1..]);
      match run[0] {
        case Call(accts, input) =>
          BytesInvokeSimulates(env, b, accts, input);
          if InstructionCodec.Unpack(input).Ok? {
            AfterFirst(env, Decoded(b), Program(accts, InstructionCodec.Unpack(input).value), Unpacked(run[1..]));
          }
        case Outside(next) => AfterFirst(env, Decoded(b), World(Decoded(next)), Unpacked(run[1..]));
      }
    }
  }

  /** Supply conservation, said of bytes: whatever inputs arrive, a buffer that decodes to a live mint
      shows as supply what the buffers that decode to its token accounts hold. */
  lemma BytesConserveSupply(env: Env, b: Buffers, run: seq<WireEvent>, mint: Pubkey)
    requires Genesis(env, Decoded(b)) && mint != env.nativeMint
    requires MintAt(env, Decoded(BytesAfter(env, b, run)), mint)
    ensures var l := Decoded(BytesAfter(env, b, run)); MintOf(l, mint).supply == Total(env, Holding(mint), l)
  {
    BytesRunSimulates(env, b, run);
    assert Reachable(env, Decoded(BytesAfter(env, b, run)));
    SupplyConservation(env, Decoded(BytesAfter(env, b, run)), mint);
  }
}
