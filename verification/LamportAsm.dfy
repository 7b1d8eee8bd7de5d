/** The assembly lamport transfer: it finds the second account and the instruction data in the
    serialized input by pointer arithmetic, and rewrites two words. */
module LamportAsm {
  import opened Types
  import opened ByteCodec
  import opened Bits

  // ---- The input buffer ----

  datatype Entry =
    | Duplicate(index: u8)
    | Entry(flags: Bytes, key: KeyBytes, owner: KeyBytes, lamports: u64, data: Bytes, rentEpoch: u64)

  datatype Input = Input(accounts: seq<Entry>, data: Bytes, programId: KeyBytes)

  /** Zeros up to the next multiple of eight. */
  function Padding(len: nat): (n: nat)
    ensures n < 8 && (len + n) % 8 == 0
  {
    (8 - len % 8) % 8
  }

  function Zeros(n: nat): (b: Bytes)
    ensures |b| == n
  {
    seq(n, i => 0)
  }

  /** The part of an entry before its lamports: marker, flags, key and owner. */
  function Head(e: Entry): Bytes
    requires e.Entry? && |e.flags| == 7
  {
    [0xff] + e.flags + e.key + e.owner
  }

  /** The part behind the lamports: length, data, room to grow, padding, and the rent epoch. */
  function Rest(e: Entry): Bytes
    requires e.Entry? && |e.data| < U64_LIMIT
  {
    U64ToLe(|e.data|) + e.data + Zeros(10240 + Padding(|e.data|)) + U64ToLe(e.rentEpoch)
  }

  predicate WellFormedEntry(e: Entry) {
    match e
    case Duplicate(index) => index < 0xff
    case Entry(flags, _, _, _, data, _) => |flags| == 7 && |data| < U64_LIMIT
  }

  function SerializeEntry(e: Entry): (b: Bytes)
    requires WellFormedEntry(e)
    ensures 8 <= |b|
    ensures e.Entry? ==> |b| == 88 + |e.data| + 10240 + Padding(|e.data|) + 8
  {
    match e
    case Duplicate(index) => [index] + Zeros(7)
    case Entry(_, _, _, lamports, _, _) => Head(e) + U64ToLe(lamports) + Rest(e)
  }

  predicate WellFormed(input: Input) {
    && |input.accounts| < U64_LIMIT && |input.data| < U64_LIMIT
    && (forall i | 0 <= i < |input.accounts| :: WellFormedEntry(input.accounts[i]))
    && (0 < |input.accounts| ==> input.accounts[0].Entry?)
  }

  function SerializeEntries(entries: seq<Entry>): Bytes
    requires forall i | 0 <= i < |entries| :: WellFormedEntry(entries[i])
  {
    if |entries| == 0 then [] else SerializeEntry(entries[0]) + SerializeEntries(entries[1..])
  }

  function Trailer(input: Input): Bytes
    requires |input.data| < U64_LIMIT
  {
    U64ToLe(|input.data|) + input.data + input.programId
  }

  function Serialize(input: Input): Bytes
    requires WellFormed(input)
  {
    U64ToLe(|input.accounts|) + SerializeEntries(input.accounts) + Trailer(input)
  }

  // ---- What the program is for ----

  predicate Acceptable(input: Input) {
    |input.accounts| == 2 && input.accounts[1].Entry? && |input.data| == 8
  }

  /** The input with the amount moved, modulo 2^64. */
  function Transferred(input: Input): (r: Input)
    requires WellFormed(input) && Acceptable(input)
  {
    var a, b, x := input.accounts[0], input.accounts[1], U64FromLe(input.data);
    input.(accounts := [a.(lamports := (a.lamports - x) % 0x1_0000_0000_0000_0000),
                        b.(lamports := (b.lamports + x) % 0x1_0000_0000_0000_0000)])
  }

  /** What is moved: the amount leaves the first account and arrives at the second, as long as it is
      there and fits; nothing but the two balances changes. */
  lemma TransferMoves(input: Input)
    requires WellFormed(input) && Acceptable(input)
    ensures var a, b, x, r := input.accounts[0], input.accounts[1], U64FromLe(input.data), Transferred(input);
      && |r.accounts| == 2 && r.data == input.data && r.programId == input.programId
      && r.accounts[0].Entry? && r.accounts[1].Entry?
      && r.accounts[0] == a.(lamports := r.accounts[0].lamports)
      && r.accounts[1] == b.(lamports := r.accounts[1].lamports)
      && (x <= a.lamports ==> r.accounts[0].lamports == a.lamports - x)
      && (a.lamports < x ==> r.accounts[0].lamports == a.lamports - x + U64_LIMIT)
      && (b.lamports + x < U64_LIMIT ==> r.accounts[1].lamports == b.lamports + x)
      && (U64_LIMIT <= b.lamports + x ==> r.accounts[1].lamports == b.lamports + x - U64_LIMIT)
  {
    WrappedDifference(input.accounts[0].lamports, U64FromLe(input.data));
    WrappedAddition(input.accounts[1].lamports, U64FromLe(input.data));
  }

  lemma WrappedDifference(a: u64, x: u64)
    ensures (a - x) % 0x1_0000_0000_0000_0000 == if a < x then a - x + 0x1_0000_0000_0000_0000 else a - x
  {
  }

  lemma WrappedAddition(b: u64, x: u64)
    ensures (b + x) % 0x1_0000_0000_0000_0000 == if b + x < U64_LIMIT then b + x else b + x - 0x1_0000_0000_0000_0000
  {
  }

  lemma WrappedSum(a: u64, b: u64, x: u64)
    ensures ((a - x) % 0x1_0000_0000_0000_0000 + (b + x) % 0x1_0000_0000_0000_0000) % U64_LIMIT == (a + b) % U64_LIMIT
  {
    WrappedDifference(a, x);
    WrappedAddition(b, x);
  }

  lemma TransferKeepsTheSum(input: Input)
    requires WellFormed(input) && Acceptable(input)
    ensures var a, b := input.accounts[0], input.accounts[1];
      var r := Transferred(input).accounts;
      (r[0].lamports + r[1].lamports) % U64_LIMIT == (a.lamports + b.lamports) % U64_LIMIT
  {
    WrappedSum(input.accounts[0].lamports, input.accounts[1].lamports, U64FromLe(input.data));
  }

  // ---- Machine ----

  /** `and64 r, -8`: the immediate is sign-extended to a mask with three low zeros. */
  function ClearLowBits(x: u64): (r: u64)
    ensures r % 8 == 0 && r <= x < r + 8
  {
    AndMinusEight(x);
    And(x, 0xFFFF_FFFF_FFFF_FFF8)
  }

  function Add64(x: u64, y: u64): (r: u64)
    ensures x + y < U64_LIMIT ==> r == x + y
  {
    (x + y) % 0x1_0000_0000_0000_0000
  }

  function Sub64(x: u64, y: u64): u64 {
    (x - y) % 0x1_0000_0000_0000_0000
  }

  function Load64(mem: Bytes, at: nat): u64
    requires at + 8 <= |mem|
  {
    U64FromLe(mem[at..at + 8])
  }

  /** A word in the middle of a buffer reads back. */
  lemma LoadsField(before: Bytes, x: u64, after: Bytes)
    ensures Load64(before + U64ToLe(x) + after, |before|) == x
  {
    assert (before + U64ToLe(x) + after)[|before|..|before| + 8] == U64ToLe(x);
    U64RoundTrip(x);
  }

  /** Writing over a field in the middle of a buffer replaces it. */
  lemma SplicesField(before: Bytes, field: Bytes, after: Bytes, src: Bytes)
    requires |src| == |field|
    ensures Splice(before + field + after, |before|, src) == before + src + after
  {
  }

  lemma Regroup(before: Bytes, front: Bytes, field: Bytes, back: Bytes, after: Bytes)
    ensures before + (front + field + back) + after == (before + front) + field + (back + after)
  {
  }

  lemma Shift(before: Bytes, field: Bytes, back: Bytes, after: Bytes)
    ensures before + ((field + back) + after) == before + field + (back + after)
  {
  }

  /** An entry in the middle of a buffer: its marker. */
  lemma LoadsMarker(before: Bytes, e: Entry, after: Bytes)
    requires WellFormedEntry(e)
    ensures (before + SerializeEntry(e) + after)[|before|] == 0xff <==> e.Entry?
  {
    assert (before + SerializeEntry(e) + after)[|before|] == SerializeEntry(e)[0];
  }

  /** And, unless it is a duplicate, its lamports and its length. */
  lemma LoadsEntry(before: Bytes, e: Entry, after: Bytes)
    requires WellFormedEntry(e) && e.Entry?
    ensures var mem := before + SerializeEntry(e) + after;
      Load64(mem, |before| + 72) == e.lamports && Load64(mem, |before| + 80) == |e.data|
  {
    var lamports, length := U64ToLe(e.lamports), U64ToLe(|e.data|);
    Regroup(before, Head(e), lamports, Rest(e), after);
    LoadsField(before + Head(e), e.lamports, Rest(e) + after);
    var tail := e.data + Zeros(10240 + Padding(|e.data|)) + U64ToLe(e.rentEpoch);
    RestShape(e, tail);
    Shift(before + Head(e) + lamports, length, tail, after);
    LoadsField(before + Head(e) + lamports, |e.data|, tail + after);
  }

  lemma RestShape(e: Entry, tail: Bytes)
    requires WellFormedEntry(e) && e.Entry?
    requires tail == e.data + Zeros(10240 + Padding(|e.data|)) + U64ToLe(e.rentEpoch)
    ensures Rest(e) == U64ToLe(|e.data|) + tail
  {
  }

  /** Writing the lamport word of an entry in the middle of a buffer. */
  lemma WritesEntry(before: Bytes, e: Entry, after: Bytes, x: u64)
    requires WellFormedEntry(e) && e.Entry?
    ensures Splice(before + SerializeEntry(e) + after, |before| + 72, U64ToLe(x))
         == before + SerializeEntry(e.(lamports := x)) + after
  {
    Regroup(before, Head(e), U64ToLe(e.lamports), Rest(e), after);
    Regroup(before, Head(e), U64ToLe(x), Rest(e), after);
    SplicesField(before + Head(e), U64ToLe(e.lamports), Rest(e) + after, U64ToLe(x));
  }

  /** The serialization of a nonempty list of accounts, around the first entry. */
  lemma AroundFirst(input: Input)
    requires WellFormed(input) && 1 <= |input.accounts|
    ensures Serialize(input) == U64ToLe(|input.accounts|) + SerializeEntry(input.accounts[0])
                              + (SerializeEntries(input.accounts[1..]) + Trailer(input))
  {
  }

  /** The serialization of two accounts, around the second entry. */
  lemma AroundSecond(input: Input)
    requires WellFormed(input) && |input.accounts| == 2
    ensures SerializeEntries(input.accounts[1..]) == SerializeEntry(input.accounts[1])
    ensures Serialize(input) == (U64ToLe(|input.accounts|) + SerializeEntry(input.accounts[0]))
                              + SerializeEntry(input.accounts[1]) + Trailer(input)
  {
    assert input.accounts[1..] == [input.accounts[1]];
    assert SerializeEntries(input.accounts[1..]) == SerializeEntry(input.accounts[1]) + [];
    AroundFirst(input);
  }

  /** The start of the second account, and of what follows it. */
  function SecondAt(input: Input): nat
    requires WellFormed(input) && 1 <= |input.accounts|
  {
    8 + |SerializeEntry(input.accounts[0])|
  }

  function TrailerAt(input: Input): nat
    requires WellFormed(input) && |input.accounts| == 2
  {
    SecondAt(input) + |SerializeEntry(input.accounts[1])|
  }

  lemma AroundCount(input: Input)
    requires WellFormed(input)
    ensures Serialize(input) == U64ToLe(|input.accounts|) + (SerializeEntries(input.accounts) + Trailer(input))
  {
  }

  lemma LoadsFront(x: u64, after: Bytes)
    ensures Load64(U64ToLe(x) + after, 0) == x
  {
    assert (U64ToLe(x) + after)[0..8] == U64ToLe(x);
    U64RoundTrip(x);
  }

  /** The number of accounts. */
  lemma CountLoads(input: Input, mem: Bytes)
    requires WellFormed(input) && mem == Serialize(input)
    ensures 8 <= |mem| && Load64(mem, 0) == |input.accounts|
  {
    AroundCount(input);
    LoadsFront(|input.accounts|, SerializeEntries(input.accounts) + Trailer(input));
  }

  /** The words of the first account. */
  lemma FirstAccountLoads(input: Input, mem: Bytes)
    requires WellFormed(input) && 1 <= |input.accounts| && mem == Serialize(input)
    ensures 96 <= SecondAt(input) <= |mem|
    ensures Load64(mem, 80) == input.accounts[0].lamports && Load64(mem, 88) == |input.accounts[0].data|
  {
    AroundFirst(input);
    LoadsEntry(U64ToLe(|input.accounts|), input.accounts[0], SerializeEntries(input.accounts[1..]) + Trailer(input));
  }

  /** The marker and the words of the second account. */
  lemma SecondAccountLoads(input: Input, mem: Bytes, at: nat)
    requires WellFormed(input) && |input.accounts| == 2 && mem == Serialize(input) && at == SecondAt(input)
    ensures at < TrailerAt(input) <= |mem|
    ensures mem[at] == 0xff <==> input.accounts[1].Entry?
    ensures input.accounts[1].Entry? ==>
      && at + 88 <= |mem|
      && Load64(mem, at + 72) == input.accounts[1].lamports && Load64(mem, at + 80) == |input.accounts[1].data|
  {
    AroundSecond(input);
    LoadsSecond(U64ToLe(|input.accounts|) + SerializeEntry(input.accounts[0]), input.accounts[1], Trailer(input), mem,
                at);
  }

  lemma LoadsSecond(before: Bytes, e: Entry, after: Bytes, mem: Bytes, at: nat)
    requires WellFormedEntry(e) && mem == before + SerializeEntry(e) + after && at == |before|
    ensures at + |SerializeEntry(e)| <= |mem| && (mem[at] == 0xff <==> e.Entry?)
    ensures e.Entry? ==>
      at + 88 <= |mem| && Load64(mem, at + 72) == e.lamports && Load64(mem, at + 80) == |e.data|
  {
    LoadsMarker(before, e, after);
    if e.Entry? {
      LoadsEntry(before, e, after);
    }
  }

  /** The instruction data's length and first word. */
  lemma TrailerLoads(input: Input, mem: Bytes, at: nat)
    requires WellFormed(input) && |input.accounts| == 2 && mem == Serialize(input) && at == TrailerAt(input)
    ensures at + 8 <= |mem| && Load64(mem, at) == |input.data|
    ensures |input.data| == 8 ==> at + 16 <= |mem| && Load64(mem, at + 8) == U64FromLe(input.data)
  {
    AroundSecond(input);
    var before := U64ToLe(|input.accounts|) + SerializeEntry(input.accounts[0]) + SerializeEntry(input.accounts[1]);
    LoadsTrailer(before, input, mem, at);
  }

  lemma LoadsTrailer(before: Bytes, input: Input, mem: Bytes, at: nat)
    requires |input.data| < U64_LIMIT && mem == before + Trailer(input) && at == |before|
    ensures at + 8 <= |mem| && Load64(mem, at) == |input.data|
    ensures |input.data| == 8 ==> at + 16 <= |mem| && Load64(mem, at + 8) == U64FromLe(input.data)
  {
    var length := U64ToLe(|input.data|);
    LoadsField(before, |input.data|, input.data + input.programId);
    assert mem == before + length + (input.data + input.programId);
    if |input.data| == 8 {
      assert mem[at + 8..at + 16] == input.data;
    }
  }

  lemma FirstWrite(was: Input, now: Input, mem: Bytes, x: u64)
    requires WellFormed(was) && |was.accounts| == 2 && mem == Serialize(was)
    requires now == was.(accounts := [was.accounts[0].(lamports := x), was.accounts[1]])
    ensures WellFormed(now) && SecondAt(now) == SecondAt(was) && 88 <= |mem|
    ensures Splice(mem, 80, U64ToLe(x)) == Serialize(now)
  {
    AroundFirst(was);
    AroundFirst(now);
    var after := SerializeEntries(was.accounts[1..]) + Trailer(was);
    assert was.accounts[1..] == now.accounts[1..];
    SplicesEntry(U64ToLe(2), was.accounts[0], after, x, mem, 80);
  }

  lemma SecondWrite(was: Input, now: Input, mem: Bytes, at: nat, x: u64)
    requires WellFormed(was) && |was.accounts| == 2 && was.accounts[1].Entry?
    requires now == was.(accounts := [was.accounts[0], was.accounts[1].(lamports := x)])
    requires mem == Serialize(was) && at == SecondAt(was) + 72
    ensures WellFormed(now) && at + 8 <= |mem|
    ensures Splice(mem, at, U64ToLe(x)) == Serialize(now)
  {
    AroundSecond(was);
    AroundSecond(now);
    var before, b := U64ToLe(2) + SerializeEntry(was.accounts[0]), was.accounts[1];
    SplicesEntry(before, b, Trailer(was), x, mem, at);
  }

  lemma SplicesEntry(before: Bytes, e: Entry, after: Bytes, x: u64, mem: Bytes, at: nat)
    requires WellFormedEntry(e) && e.Entry? && mem == before + SerializeEntry(e) + after && at == |before| + 72
    ensures at + 8 <= |mem|
    ensures Splice(mem, at, U64ToLe(x)) == before + SerializeEntry(e.(lamports := x)) + after
  {
    WritesEntry(before, e, after, x);
  }

  /** `end` is the first multiple of eight behind the data and the rent epoch of an entry at `at`. */
  predicate EndsAligned(at: nat, len: nat, end: nat) {
    end % 8 == 0 && at + 10336 + len <= end < at + 10336 + len + 8
  }

  /** Each address range of eight has one multiple of eight. */
  lemma Aligned(base: nat, offset: nat, end: nat, r: nat)
    requires base % 8 == 0 && offset % 8 == 0 && r % 8 == 0
    requires end <= r < end + 8 && end <= base + offset < end + 8
    ensures r == base + offset
  {
  }

  lemma EntryEnds(e: Entry, at: nat)
    requires WellFormedEntry(e) && e.Entry? && at % 8 == 0
    ensures EndsAligned(at, |e.data|, at + |SerializeEntry(e)|)
  {
  }

  /** What the program reads where, with the second account at `second` and the instruction data at `trailer`. */
  ghost predicate LaidOut(mem: Bytes, input: Input, second: nat, trailer: nat) {
    && 8 <= |mem| && Load64(mem, 0) == |input.accounts|
    && (|input.accounts| == 2 ==>
          && input.accounts[0].Entry?
          && ReadsWell(mem, input, second, trailer)
          && EndsAligned(8, |input.accounts[0].data|, second)
          && (input.accounts[1].Entry? ==> EndsAligned(second, |input.accounts[1].data|, trailer)))
  }

  lemma EntriesEnd(input: Input, second: nat, trailer: nat)
    requires WellFormed(input) && |input.accounts| == 2 && second == SecondAt(input) && trailer == TrailerAt(input)
    ensures EndsAligned(8, |input.accounts[0].data|, second)
    ensures input.accounts[1].Entry? ==> EndsAligned(second, |input.accounts[1].data|, trailer)
  {
    EntryEnds(input.accounts[0], 8);
    if input.accounts[1].Entry? {
      EntryEnds(input.accounts[1], second);
    }
  }

  /** The reads alone. */
  ghost predicate ReadsWell(mem: Bytes, input: Input, second: nat, trailer: nat)
    requires |input.accounts| == 2 && input.accounts[0].Entry?
  {
    && 96 <= |mem| && Load64(mem, 0) == |input.accounts| && second < |mem|
    && Load64(mem, 80) == input.accounts[0].lamports && Load64(mem, 88) == |input.accounts[0].data|
    && (mem[second] == 0xff <==> input.accounts[1].Entry?)
    && (input.accounts[1].Entry? ==>
          && second + 88 <= |mem| && trailer + 8 <= |mem|
          && Load64(mem, second + 72) == input.accounts[1].lamports
          && Load64(mem, second + 80) == |input.accounts[1].data|
          && Load64(mem, trailer) == |input.data|
          && (|input.data| == 8 ==>
                trailer + 16 <= |mem| && Load64(mem, trailer + 8) == U64FromLe(input.data)))
  }

  lemma SerializedReadsWell(input: Input, mem: Bytes, second: nat, trailer: nat)
    requires WellFormed(input) && |input.accounts| == 2 && mem == Serialize(input)
    requires second == SecondAt(input) && trailer == TrailerAt(input)
    ensures ReadsWell(mem, input, second, trailer)
  {
    CountLoads(input, mem);
    FirstAccountLoads(input, mem);
    SecondAccountLoads(input, mem, second);
    if input.accounts[1].Entry? {
      TrailerLoads(input, mem, trailer);
    }
  }

  lemma SerializedIsLaidOut(input: Input, mem: Bytes, second: nat, trailer: nat)
    requires WellFormed(input) && |input.accounts| == 2 && mem == Serialize(input)
    requires second == SecondAt(input) && trailer == TrailerAt(input)
    ensures LaidOut(mem, input, second, trailer)
  {
    EntriesEnd(input, second, trailer);
    SerializedReadsWell(input, mem, second, trailer);
  }

  lemma Locate(input: Input, mem: Bytes) returns (second: nat, trailer: nat)
    requires WellFormed(input) && mem == Serialize(input)
    ensures LaidOut(mem, input, second, trailer)
    ensures |input.accounts| == 2 ==> second == SecondAt(input)
  {
    CountLoads(input, mem);
    second, trailer := 0, 0;
    if |input.accounts| == 2 {
      second, trailer := SecondAt(input), TrailerAt(input);
      SerializedIsLaidOut(input, mem, second, trailer);
    }
  }

  lemma MovedInput(input: Input, x: u64, y: u64)
    requires WellFormed(input) && Acceptable(input)
    requires x == Sub64(input.accounts[0].lamports, U64FromLe(input.data))
    requires y == Add64(input.accounts[1].lamports, U64FromLe(input.data))
    ensures Transferred(input)
         == input.(accounts := [input.accounts[0].(lamports := x), input.accounts[1].(lamports := y)])
  {
  }

  /** Overwriting the two lamport words gives the serialization of the transferred input. */
  lemma WritesTransfer(input: Input, mem: Bytes, second: nat, x: u64, y: u64)
    returns (half: Bytes, target: Bytes)
    requires WellFormed(input) && Acceptable(input) && mem == Serialize(input) && second == SecondAt(input)
    requires x == Sub64(input.accounts[0].lamports, U64FromLe(input.data))
    requires y == Add64(input.accounts[1].lamports, U64FromLe(input.data))
    ensures 88 <= |mem| && second + 80 <= |mem| && WellFormed(Transferred(input))
    ensures half == Splice(mem, 8 + 8 + 32 + 32, U64ToLe(x))
    ensures target == Splice(half, second + 8 + 32 + 32, U64ToLe(y))
    ensures target == Serialize(Transferred(input))
  {
    MovedInput(input, x, y);
    half := Splice(mem, 80, U64ToLe(x));
    target := TwoWrites(input, input.accounts[0], input.accounts[1], mem, second, x, y);
  }

  lemma TwoWrites(input: Input, a: Entry, b: Entry, mem: Bytes, second: nat, x: u64, y: u64) returns (target: Bytes)
    requires WellFormed(input) && input.accounts == [a, b] && b.Entry?
    requires mem == Serialize(input) && second == SecondAt(input)
    ensures var r := input.(accounts := [a.(lamports := x), b.(lamports := y)]);
      && 88 <= |mem| && second + 80 <= |mem| && WellFormed(r)
      && target == Splice(Splice(mem, 80, U64ToLe(x)), second + 72, U64ToLe(y))
      && target == Serialize(r)
  {
    var half := input.(accounts := [a.(lamports := x), b]);
    var r := input.(accounts := [a.(lamports := x), b.(lamports := y)]);
    FirstWrite(input, half, mem, x);
    SecondWrite(half, r, Serialize(half), second + 72, y);
    target := Serialize(r);
  }

  /** The pointer arithmetic: from the end of an entry's data and rent epoch, the next multiple of eight. */
  method AlignUp(end: u64) returns (r: u64)
    requires end + 8 < U64_LIMIT
    ensures r % 8 == 0 && end <= r < end + 8
  {
    r := ClearLowBits(end);
    if end != r {
      r := Add64(r, 8);
    }
  }

  /** Everything up to the writes, instruction by instruction; `r1` is the address of the buffer. Left in
      the registers: both balances, the second account's address and the amount. */
  method Parse(r1: u64, mem: array<u8>, ghost input: Input, ghost second: nat, ghost trailer: nat)
    returns (r0: u64, r2: u64, r4: u64, r5: u64, r8: u64)
    requires r1 % 8 == 0 && r1 + mem.Length + 16 < U64_LIMIT
    requires LaidOut(mem[..], input, second, trailer)
    ensures r0 == if Acceptable(input) then 0 else 1
    ensures r0 == 0 ==>
      && r4 == r1 + second
      && r2 == input.accounts[0].lamports && r5 == input.accounts[1].lamports && r8 == U64FromLe(input.data)
  {
    var buffer := mem[..];
    r0, r4, r5, r8 := 0, 0, 0, 0;
    r2 := Load64(buffer, 0);
    if r2 != 2 {
      r0 := 1;
      return;
    }
    r5 := mem[8];
    r2 := Load64(buffer, 8 + 8 + 32 + 32);
    var r3 := Load64(buffer, 8 + 8 + 32 + 32 + 8);
    r4 := r1;
    r4 := Add64(r4, 8 + 8 + 32 + 32 + 8 + 8 + 10240 + 8);
    r4 := Add64(r4, r3);
    ghost var end := r4;
    r4 := AlignUp(r4);
    Aligned(r1, second, end, r4);

    r5 := mem[r4 - r1];
    if r5 != 0xff {
      r0 := 1;
      return;
    }
    r5 := Load64(buffer, r4 - r1 + 8 + 32 + 32);
    var r6 := Load64(buffer, r4 - r1 + 8 + 32 + 32 + 8);
    var r7 := r4;
    r7 := Add64(r7, 8 + 32 + 32 + 8 + 8 + 10240 + 8);
    r7 := Add64(r7, r6);
    end := r7;
    r7 := AlignUp(r7);
    Aligned(r1, trailer, end, r7);

    r8 := Load64(buffer, r7 - r1);
    if r8 != 8 {
      r0 := 1;
      return;
    }
    r8 := Load64(buffer, r7 - r1 + 8);
  }

  method Store64(mem: array<u8>, at: nat, x: u64, ghost was: Bytes, ghost now: Bytes)
    requires mem[..] == was && at + 8 <= |was| && now == Splice(was, at, U64ToLe(x))
    modifies mem
    ensures mem[..] == now
  {
    CopyFromSlice(mem, at, U64ToLe(x));
  }

  /** The arithmetic and the two stores. */
  method WriteBack(mem: array<u8>, balance: u64, second: nat, other: u64, r8: u64,
                   ghost was: Bytes, ghost half: Bytes, ghost now: Bytes)
    requires mem[..] == was && 88 <= |was| && second + 80 <= |was|
    requires half == Splice(was, 8 + 8 + 32 + 32, U64ToLe(Sub64(balance, r8)))
    requires now == Splice(half, second + 8 + 32 + 32, U64ToLe(Add64(other, r8)))
    modifies mem
    ensures mem[..] == now
  {
    var r2 := Sub64(balance, r8);
    var r5 := Add64(other, r8);
    Store64(mem, 8 + 8 + 32 + 32, r2, was, half);
    Store64(mem, second + 8 + 32 + 32, r5, half, now);
  }

  /** The program on a buffer whose fields are located, `now` being what it should leave. */
  method Execute(r1: u64, mem: array<u8>, ghost input: Input, ghost second: nat, ghost trailer: nat,
                 ghost was: Bytes, ghost half: Bytes, ghost now: Bytes) returns (r0: u64)
    requires r1 % 8 == 0 && r1 + mem.Length + 16 < U64_LIMIT && mem[..] == was
    requires LaidOut(was, input, second, trailer)
    requires Acceptable(input) ==> 88 <= |was| && second + 80 <= |was| && Stores(input, was, second, half, now)
    modifies mem
    ensures r0 == if Acceptable(input) then 0 else 1
    ensures mem[..] == if Acceptable(input) then now else was
  {
    var r2, r4, r5, r8;
    r0, r2, r4, r5, r8 := Parse(r1, mem, input, second, trailer);
    if r0 == 0 {
      WriteBack(mem, r2, r4 - r1, r5, r8, was, half, now);
    }
  }

  /** The two stores lead from `was` to `now`. */
  ghost predicate Stores(input: Input, was: Bytes, second: nat, half: Bytes, now: Bytes)
    requires Acceptable(input) && input.accounts[0].Entry? && 88 <= |was| && second + 80 <= |was|
  {
    && half == Splice(was, 80, U64ToLe(Sub64(input.accounts[0].lamports, U64FromLe(input.data))))
    && now == Splice(half, second + 72, U64ToLe(Add64(input.accounts[1].lamports, U64FromLe(input.data))))
  }

  lemma Expect(input: Input, was: Bytes, second: nat) returns (half: Bytes, now: Bytes)
    requires WellFormed(input) && was == Serialize(input) && (|input.accounts| == 2 ==> second == SecondAt(input))
    ensures Acceptable(input) ==>
      && 88 <= |was| && second + 80 <= |was| && Stores(input, was, second, half, now)
      && WellFormed(Transferred(input)) && now == Serialize(Transferred(input))
  {
    half, now := [], [];
    if Acceptable(input) {
      half, now := WritesTransfer(input, was, second, Sub64(input.accounts[0].lamports, U64FromLe(input.data)),
                                  Add64(input.accounts[1].lamports, U64FromLe(input.data)));
    }
  }

  /** An error leaves the buffer alone; otherwise it becomes that of the input with the amount moved. */
  method Entrypoint(r1: u64, mem: array<u8>, ghost input: Input) returns (r0: u64)
    requires r1 % 8 == 0 && r1 + mem.Length + 16 < U64_LIMIT
    requires WellFormed(input) && mem[..] == Serialize(input)
    modifies mem
    ensures Acceptable(input) ==>
      r0 == 0 && WellFormed(Transferred(input)) && mem[..] == Serialize(Transferred(input))
    ensures !Acceptable(input) ==> r0 == 1 && mem[..] == old(mem[..])
  {
    ghost var was := mem[..];
    ghost var second, trailer := Locate(input, was);
    ghost var half, now := Expect(input, was, second);
    r0 := Execute(r1, mem, input, second, trailer, was, half, now);
  }
}
