/** Building a payment proof from a node's answers, and checking it before it is submitted. */
module Spv {
  import opened Results
  import opened Bytes
  import opened Merkle
  import TxParser

  // ---- block headers

  datatype BlockHeader = BlockHeader(version: nat, prevBlockHash: Bytes, merkleRoot: Bytes, timestamp: nat, bits: nat,
    nonce: nat)

  datatype Error =
    | HeaderNot80Bytes
    | NumberTooWide
    | TargetNotAfterCheckpoint
    | TipBeforeTarget
    | TooFewConfirmations
    | TxidMismatch
    | Unparsable
    | OutputOutOfRange
    | UnsupportedScript
    | NotInBlock
    | RootMismatch

  function FromBytes(data: Bytes): Result<BlockHeader, Error> {
    if |data| != 80 then Err(HeaderNot80Bytes)
    else Ok(BlockHeader(FromLittleEndian(data[0..4]), data[4..36], data[36..68], FromLittleEndian(data[68..72]),
                        FromLittleEndian(data[72..76]), FromLittleEndian(data[76..80])))
  }

  predicate FourBytes(n: nat) {
    n < 0x1_0000_0000
  }

  function ToBytes(b: BlockHeader): Result<Bytes, Error> {
    if FourBytes(b.version) && FourBytes(b.timestamp) && FourBytes(b.bits) && FourBytes(b.nonce) then
      Ok(ToLittleEndian(b.version, 4) + b.prevBlockHash + b.merkleRoot + ToLittleEndian(b.timestamp, 4)
         + ToLittleEndian(b.bits, 4) + ToLittleEndian(b.nonce, 4))
    else Err(NumberTooWide)
  }

  lemma FourByteNumber(s: Bytes)
    requires |s| == 4
    ensures FourBytes(FromLittleEndian(s)) && ToLittleEndian(FromLittleEndian(s), 4) == s
  {
    TxParser.Powers();
    ReadNumberWritesBack(s);
  }

  /** Writing a header that was read gives back its 80 bytes. */
  lemma ReadHeaderWritesBack(data: Bytes)
    requires FromBytes(data).Ok?
    ensures ToBytes(FromBytes(data).value) == Ok(data)
  {
    hide FromLittleEndian, ToLittleEndian, FourBytes;
    FourByteNumber(data[0..4]);
    FourByteNumber(data[68..72]);
    FourByteNumber(data[72..76]);
    FourByteNumber(data[76..80]);
    assert data == data[0..4] + data[4..36] + data[36..68] + data[68..72] + data[72..76] + data[76..80];
  }

  /** Reading a header that was written gives back the header. */
  lemma WrittenHeaderReadsBack(b: BlockHeader)
    requires ToBytes(b).Ok? && |b.prevBlockHash| == 32 && |b.merkleRoot| == 32
    ensures FromBytes(ToBytes(b).value) == Ok(b)
  {
    hide FromLittleEndian, ToLittleEndian;
    TxParser.Powers();
    var data := ToBytes(b).value;
    assert data[0..4] == ToLittleEndian(b.version, 4);
    assert data[4..36] == b.prevBlockHash;
    assert data[36..68] == b.merkleRoot;
    assert data[68..72] == ToLittleEndian(b.timestamp, 4);
    assert data[72..76] == ToLittleEndian(b.bits, 4);
    assert data[76..80] == ToLittleEndian(b.nonce, 4);
    WrittenNumberReadsBack(b.version, 4);
    WrittenNumberReadsBack(b.timestamp, 4);
    WrittenNumberReadsBack(b.bits, 4);
    WrittenNumberReadsBack(b.nonce, 4);
  }

  function BlockHash(h: Hash, b: BlockHeader): Result<Bytes, Error> {
    if ToBytes(b).Err? then Err(ToBytes(b).error) else Ok(h(ToBytes(b).value))
  }

  // ---- scripts

  datatype ScriptType = P2wpkh | P2pkh

  function PubkeyHash(script: Bytes): Option<(Bytes, ScriptType)> {
    if |script| == 22 && script[0] == 0x00 && script[1] == 0x14 then Some((script[2..22], P2wpkh))
    else if |script| == 25 && script[0] == 0x76 && script[1] == 0xA9 && script[2] == 0x14 && script[23] == 0x88
      && script[24] == 0xAC
    then Some((script[3..23], P2pkh))
    else None
  }

  // ---- building

  /** The node's answers: a raw transaction by id, a header and the block's transaction ids by height. Ids are in
      display order, the reverse of the hash's. */
  datatype Node = Node(rawTx: Bytes -> Bytes, header: int -> Bytes, txids: int -> seq<Bytes>)

  datatype SpvProof = SpvProof(checkpointHeight: int, headers: seq<Bytes>, txBlockIndex: int, rawTx: Bytes,
                               merkleProof: seq<Bytes>, txIndex: int, outputIndex: int)

  datatype Built = Built(proof: SpvProof, txid: Bytes, amountSats: nat, pubkeyHash: Bytes, scriptType: ScriptType,
                         blockHeight: int, blockTimestamp: nat)

  const MinConfirmations := 6

  function HeadersInRange(node: Node, start: int, end: int): (headers: seq<Bytes>)
    ensures start <= end + 1 ==> |headers| == end + 1 - start
  {
    if end < start then [] else seq(end + 1 - start, i requires 0 <= i < end + 1 - start => node.header(start + i))
  }

  /** A negative index counts from the end. */
  function ListIndex(index: int, length: nat): Option<nat> {
    if 0 <= index < length then Some(index as nat)
    else if index < 0 && length + index >= 0 then Some((length + index) as nat)
    else None
  }

  function IndexOf(ids: seq<Bytes>, id: Bytes): (r: Option<nat>)
    ensures r.Some? <==> id in ids
    ensures r.Some? ==> r.value < |ids| && ids[r.value] == id && forall k :: 0 <= k < r.value ==> ids[k] != id
  {
    if ids == [] then None
    else if ids[0] == id then Some(0)
    else
      var rest := IndexOf(ids[1..], id);
      if rest.None? then None else Some(rest.value + 1)
  }

  function Internal(ids: seq<Bytes>): (internal: seq<Bytes>)
    ensures |internal| == |ids|
  {
    seq(|ids|, i requires 0 <= i < |ids| => Reversed(ids[i]))
  }

  function CheckHeights(checkpoint: int, target: int, tip: int): Option<Error> {
    if target <= checkpoint then Some(TargetNotAfterCheckpoint)
    else if tip < target then Some(TipBeforeTarget)
    else if tip - target + 1 < MinConfirmations then Some(TooFewConfirmations)
    else None
  }

  datatype Payout = Payout(amountSats: nat, pubkeyHash: Bytes, scriptType: ScriptType)

  function FindPayout(raw: Bytes, outputIndex: int): Result<Payout, Error> {
    var outputs := TxParser.Parse(raw);
    if outputs.Err? then Err(Unparsable)
    else
      var k := ListIndex(outputIndex, |outputs.value|);
      if k.None? then Err(OutputOutOfRange)
      else
        var output := outputs.value[k.value];
        var found := PubkeyHash(output.scriptPubkey);
        if found.None? then Err(UnsupportedScript) else Ok(Payout(output.value, found.value.0, found.value.1))
  }

  /** Where the transaction stands in its block, with its proof, checked against the block's own header. */
  function Locate(h: Hash, ids: seq<Bytes>, txid: Bytes, header: Bytes): Result<(nat, seq<Bytes>, BlockHeader), Error> {
    var found := IndexOf(ids, txid);
    if found.None? then Err(NotInBlock)
    else
      var block := FromBytes(header);
      if block.Err? then Err(block.error)
      else if Root(h, Internal(ids)) != block.value.merkleRoot then Err(RootMismatch)
      else Ok((found.value, Proof(h, Internal(ids), found.value), block.value))
  }

  function BuildProof(h: Hash, node: Node, txid: Bytes, outputIndex: int, checkpoint: int, target: int,
                      tip: Option<int>)
    : Result<Built, Error>
  {
    var tipHeight := if tip.None? then target + MinConfirmations - 1 else tip.value;
    var refused := CheckHeights(checkpoint, target, tipHeight);
    if refused.Some? then Err(refused.value)
    else
      var txBlockIndex := target - checkpoint - 1;
      var raw := node.rawTx(txid);
      if Reversed(h(raw)) != txid then Err(TxidMismatch)
      else
        var payout := FindPayout(raw, outputIndex);
        if payout.Err? then Err(payout.error)
        else
          var headers := HeadersInRange(node, checkpoint + 1, tipHeight);
          var located := Locate(h, node.txids(target), txid, headers[txBlockIndex]);
          if located.Err? then Err(located.error)
          else
            var (txIndex, merkleProof, header) := located.value;
            Ok(Built(SpvProof(checkpoint, headers, txBlockIndex, raw, merkleProof, txIndex, outputIndex), h(raw),
                     payout.value.amountSats, payout.value.pubkeyHash, payout.value.scriptType, target,
                       header.timestamp))
  }

  // ---- checking

  /** Each header is well-formed and names the hash of the one before it. */
  ghost predicate Linked(h: Hash, headers: seq<Bytes>) {
    && (forall i :: 0 <= i < |headers| ==> FromBytes(headers[i]).Ok?)
    && (forall i :: 0 <= i < |headers| - 1 ==> Succeeds(h, headers, i))
  }

  ghost predicate Succeeds(h: Hash, headers: seq<Bytes>, i: nat)
    requires i < |headers| - 1
  {
    FromBytes(headers[i + 1]).Ok? && FromBytes(headers[i + 1]).value.prevBlockHash == h(headers[i])
  }

  /** The header loop: a break in the chain is a no, a malformed header an error, whichever comes first. */
  function CheckChain(h: Hash, headers: seq<Bytes>, i: nat, prev: Bytes): Result<bool, Error>
    requires i <= |headers|
    decreases |headers| - i
  {
    if i == |headers| then Ok(true)
    else
      var header := FromBytes(headers[i]);
      if header.Err? then Err(header.error)
      else if i > 0 && header.value.prevBlockHash != prev then Ok(false)
      else
        var hash := BlockHash(h, header.value);
        if hash.Err? then Err(hash.error) else CheckChain(h, headers, i + 1, hash.value)
  }

  function VerifyLocally(h: Hash, p: SpvProof): Result<bool, Error> {
    if p.headers == [] then Ok(false)
    else if p.txBlockIndex >= |p.headers| then Ok(false)
    else if |p.headers| - p.txBlockIndex < MinConfirmations then Ok(false)
    else
      var chain := CheckChain(h, p.headers, 0, []);
      if chain.Err? || !chain.value then chain
      else
        var k := ListIndex(p.txBlockIndex, |p.headers|);
        if k.None? then Err(NotInBlock)
        else
          var block := FromBytes(p.headers[k.value]);
          if block.Err? then Err(block.error)
          else Ok(Climb(h, h(p.rawTx), p.merkleProof, p.txIndex) == block.value.merkleRoot)
  }

  method VerifyProofLocally(h: Hash, p: SpvProof) returns (r: Result<bool, Error>)
    ensures r == VerifyLocally(h, p)
  {
    hide FromBytes, ToBytes;
    if p.headers == [] || p.txBlockIndex >= |p.headers| || |p.headers| - p.txBlockIndex < MinConfirmations {
      return Ok(false);
    }
    var prev := [];
    for i := 0 to |p.headers|
      invariant CheckChain(h, p.headers, i, prev) == CheckChain(h, p.headers, 0, [])
    {
      var header := FromBytes(p.headers[i]);
      if header.Err? {
        return Err(header.error);
      }
      if i > 0 && header.value.prevBlockHash != prev {
        return Ok(false);
      }
      var hash := BlockHash(h, header.value);
      if hash.Err? {
        return Err(hash.error);
      }
      prev := hash.value;
    }
    var k := ListIndex(p.txBlockIndex, |p.headers|);
    if k.None? {
      return Err(NotInBlock);
    }
    var block := FromBytes(p.headers[k.value]);
    if block.Err? {
      return Err(block.error);
    }
    var ok := Merkle.VerifyProof(h, h(p.rawTx), block.value.merkleRoot, p.merkleProof, p.txIndex);
    r := Ok(ok);
  }

  // ---- what holds of a built proof

  /** A header hashes to the hash of its own bytes. */
  lemma HashOfBytes(h: Hash, data: Bytes)
    requires FromBytes(data).Ok?
    ensures BlockHash(h, FromBytes(data).value) == Ok(h(data))
  {
    hide FromBytes, ToBytes;
    ReadHeaderWritesBack(data);
  }

  ghost predicate LinkedFrom(h: Hash, headers: seq<Bytes>, i: nat, prev: Bytes)
    requires i <= |headers|
  {
    && (forall k :: i <= k < |headers| ==> FromBytes(headers[k]).Ok?)
    && (forall k :: i <= k < |headers| - 1 ==> Succeeds(h, headers, k))
    && (0 < i < |headers| ==> FromBytes(headers[i]).value.prevBlockHash == prev)
  }

  /** The loop says yes exactly to linked headers. */
  lemma {:induction false} CheckChainDecidesLinked(h: Hash, headers: seq<Bytes>, i: nat, prev: Bytes)
    requires i <= |headers|
    ensures CheckChain(h, headers, i, prev) == Ok(true) <==> LinkedFrom(h, headers, i, prev)
    decreases |headers| - i
  {
    hide FromBytes, BlockHash;
    if i < |headers| && FromBytes(headers[i]).Ok? {
      HashOfBytes(h, headers[i]);
      CheckChainDecidesLinked(h, headers, i + 1, h(headers[i]));
      if i + 1 < |headers| {
        if LinkedFrom(h, headers, i, prev) {
          assert Succeeds(h, headers, i);
        }
        if LinkedFrom(h, headers, i + 1, h(headers[i])) {
          assert FromBytes(headers[i + 1]).Ok?;
          assert Succeeds(h, headers, i);
        }
      }
    }
  }

  /** What a built proof says about heights: its headers run from the checkpoint to the tip, the block's header is where
      `txBlockIndex` points, and the confirmations counted on it are tip minus target plus one, at least six. */
  lemma BuiltHeightsAreRight(h: Hash, node: Node, txid: Bytes, outputIndex: int, checkpoint: int, target: int,
                             tip: Option<int>)
    ensures var r := BuildProof(h, node, txid, outputIndex, checkpoint, target, tip);
      r.Ok? ==> HeightsAreRight(node, r.value.proof, checkpoint, target, if tip.None? then target + 5 else tip.value)
  {
    hide Locate, FindPayout;
  }

  ghost predicate HeightsAreRight(node: Node, p: SpvProof, checkpoint: int, target: int, tip: int) {
    && |p.headers| == tip - checkpoint && 0 <= p.txBlockIndex < |p.headers|
    && (forall i :: 0 <= i < |p.headers| ==> p.headers[i] == node.header(checkpoint + 1 + i))
    && p.headers[p.txBlockIndex] == node.header(target)
    && |p.headers| - p.txBlockIndex == tip - target + 1 >= 6
  }

  /** Every built proof passes the local check exactly when the node's headers are linked. */
  lemma BuiltProofVerifies(h: Hash, node: Node, txid: Bytes, outputIndex: int, checkpoint: int, target: int,
                           tip: Option<int>)
    ensures var r := BuildProof(h, node, txid, outputIndex, checkpoint, target, tip);
      r.Ok? ==> (VerifyLocally(h, r.value.proof) == Ok(true) <==> Linked(h, r.value.proof.headers))
  {
    var r := BuildProof(h, node, txid, outputIndex, checkpoint, target, tip);
    if r.Ok? {
      LocatedClimbs(h, node, txid, outputIndex, checkpoint, target, tip);
      hide BuildProof, FromBytes, Climb;
      BuiltHeightsAreRight(h, node, txid, outputIndex, checkpoint, target, tip);
      CheckChainDecidesLinked(h, r.value.proof.headers, 0, []);
    }
  }

  lemma LocatedClimbs(h: Hash, node: Node, txid: Bytes, outputIndex: int, checkpoint: int, target: int,
                      tip: Option<int>)
    ensures var r := BuildProof(h, node, txid, outputIndex, checkpoint, target, tip);
      r.Ok? ==>
        var p := r.value.proof;
        && 0 <= p.txBlockIndex < |p.headers| && FromBytes(p.headers[p.txBlockIndex]).Ok?
        && Climb(h, h(p.rawTx), p.merkleProof, p.txIndex) == FromBytes(p.headers[p.txBlockIndex]).value.merkleRoot
  {
    hide FromBytes, Climb, Proof, Root, FindPayout;
    var r := BuildProof(h, node, txid, outputIndex, checkpoint, target, tip);
    if r.Ok? {
      var p, ids := r.value.proof, node.txids(target);
      GeneratedProofVerifies(h, Internal(ids), p.txIndex);
      assert Reversed(Reversed(h(p.rawTx))) == h(p.rawTx);
      assert Internal(ids)[p.txIndex] == Reversed(txid);
    }
  }

  /** A proof that passes shows its transaction in the block whose Merkle root the header carries, at the index claimed,
      or exhibits a collision. */
  lemma {:induction false} PassingProofShowsMembership(h: Hash, p: SpvProof, txids: seq<Bytes>)
    requires HashesToNodes(h) && AreNodes(txids) && AreNodes(p.merkleProof)
    requires VerifyLocally(h, p) == Ok(true) && 0 <= p.txBlockIndex
    requires 0 <= p.txIndex < |txids| && |p.merkleProof| == Height(|txids|)
    requires Root(h, txids) == FromBytes(p.headers[p.txBlockIndex]).value.merkleRoot
    ensures h(p.rawTx) == txids[p.txIndex] || Collides(h)
    ensures Linked(h, p.headers) && |p.headers| - p.txBlockIndex >= 6
  {
    hide FromBytes, Climb, Root, Collides;
    CheckChainDecidesLinked(h, p.headers, 0, []);
    VerifiedProofIsGenuine(h, txids, p.txIndex, h(p.rawTx), p.merkleProof);
  }
}
