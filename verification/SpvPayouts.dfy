/** What a built proof says was paid: the amount and the key hash of the output it points at. */
module SpvPayouts {
  import opened Results
  import opened Bytes
  import opened Merkle
  import opened TxParser
  import opened S = Spv

  /** The scripts that pay to a key hash. */
  function ScriptFor(hash: Bytes, t: ScriptType): Bytes {
    match t
    case P2wpkh => [0x00, 0x14] + hash
    case P2pkh => [0x76, 0xA9, 0x14] + (hash + [0x88, 0xAC])
  }

  /** A key hash is read exactly from a script that pays to it. */
  lemma ScriptReadsBack(script: Bytes, hash: Bytes, t: ScriptType)
    ensures PubkeyHash(script) == Some((hash, t)) <==> |hash| == 20 && script == ScriptFor(hash, t)
  {
    if PubkeyHash(script) == Some((hash, t)) {
      if t.P2wpkh? {
        assert script == [script[0], script[1]] + script[2..22];
      } else {
        assert script == [script[0], script[1], script[2]] + (script[3..23] + [script[23], script[24]]);
      }
    }
    if |hash| == 20 && script == ScriptFor(hash, t) {
      if t.P2wpkh? {
        assert script[2..22] == hash;
      } else {
        assert script[3..23] == hash;
      }
    }
  }

  /** The output an index points at; a negative one counts from the end. */
  function Pointed(outputIndex: int, count: nat): int {
    if outputIndex < 0 then count + outputIndex else outputIndex
  }

  ghost predicate PaysAKeyHash(script: Bytes) {
    exists hash, t :: |hash| == 20 && script == ScriptFor(hash, t)
  }

  lemma KeyHashIsFound(script: Bytes)
    ensures PubkeyHash(script).Some? <==> PaysAKeyHash(script)
  {
    if PubkeyHash(script).Some? {
      var (hash, t) := PubkeyHash(script).value;
      ScriptReadsBack(script, hash, t);
    }
    if PaysAKeyHash(script) {
      var hash, t :| |hash| == 20 && script == ScriptFor(hash, t);
      ScriptReadsBack(script, hash, t);
    }
  }

  /** From a serialised transaction, the payout is found exactly when the index points at an output that pays to a key
      hash, and it is that output's value and key hash. */
  lemma PayoutIsTheOutput(tx: Tx, segwit: bool, outputIndex: int)
    requires TxFits(tx) && (segwit || !LooksLikeSegwit(tx))
    ensures var k := Pointed(outputIndex, |tx.outputs|);
      var p := FindPayout(Serialize(tx, segwit), outputIndex);
      && (p.Ok? <==> 0 <= k < |tx.outputs| && PaysAKeyHash(tx.outputs[k].scriptPubkey))
      && (p.Ok? ==>
        && p.value.amountSats == tx.outputs[k].value && |p.value.pubkeyHash| == 20
        && tx.outputs[k].scriptPubkey == ScriptFor(p.value.pubkeyHash, p.value.scriptType))
  {
    ParseInvertsSerialize(tx, segwit);
    hide Serialize, Parse, PubkeyHash, PaysAKeyHash, ScriptFor;
    var k := Pointed(outputIndex, |tx.outputs|);
    if 0 <= k < |tx.outputs| {
      var script := tx.outputs[k].scriptPubkey;
      KeyHashIsFound(script);
      if PubkeyHash(script).Some? {
        ScriptReadsBack(script, PubkeyHash(script).value.0, PubkeyHash(script).value.1);
      }
    }
  }

  // ---- a built proof

  /** When a proof is built, and what it then says of heights, block, transaction and payout. */
  lemma BuiltExactly(h: Hash, node: Node, txid: Bytes, outputIndex: int, checkpoint: int, target: int,
                     tip: Option<int>)
    ensures var tipHeight := if tip.None? then target + 5 else tip.value;
      var raw, ids, header := node.rawTx(txid), node.txids(target), FromBytes(node.header(target));
      BuildProof(h, node, txid, outputIndex, checkpoint, target, tip).Ok? <==>
        && checkpoint < target && tipHeight - target >= 5
        && Reversed(h(raw)) == txid && FindPayout(raw, outputIndex).Ok?
        && txid in ids && header.Ok? && Root(h, Internal(ids)) == header.value.merkleRoot
  {
    var tipHeight := if tip.None? then target + 5 else tip.value;
    HeightsAccepted(checkpoint, target, tipHeight);
    if CheckHeights(checkpoint, target, tipHeight).None? {
      TargetHeader(node, checkpoint, target, tipHeight);
      Located(h, node.txids(target), txid, node.header(target));
    }
    hide FindPayout, FromBytes, Root, Locate, CheckHeights, HeadersInRange, Internal, Reversed;
  }

  lemma HeightsAccepted(checkpoint: int, target: int, tip: int)
    ensures CheckHeights(checkpoint, target, tip).None? <==> checkpoint < target && tip - target >= 5
  {
  }

  lemma TargetHeader(node: Node, checkpoint: int, target: int, tip: int)
    requires checkpoint < target <= tip
    ensures var headers := HeadersInRange(node, checkpoint + 1, tip);
      |headers| == tip - checkpoint && headers[target - checkpoint - 1] == node.header(target)
  {
  }

  lemma Located(h: Hash, ids: seq<Bytes>, txid: Bytes, header: Bytes)
    ensures Locate(h, ids, txid, header).Ok? <==>
      txid in ids && FromBytes(header).Ok? && Root(h, Internal(ids)) == FromBytes(header).value.merkleRoot
  {
    hide FromBytes, Root, Internal, Proof;
  }

  lemma BuiltSaysWhatTheNodeSaid(h: Hash, node: Node, txid: Bytes, outputIndex: int, checkpoint: int, target: int,
                                 tip: Option<int>)
    ensures var r := BuildProof(h, node, txid, outputIndex, checkpoint, target, tip);
      r.Ok? ==>
        var b, p := r.value, r.value.proof;
        && p.rawTx == node.rawTx(txid) && b.txid == h(p.rawTx) && Reversed(b.txid) == txid
        && p.checkpointHeight == checkpoint && p.outputIndex == outputIndex && b.blockHeight == target
        && FromBytes(node.header(target)).Ok? && b.blockTimestamp == FromBytes(node.header(target)).value.timestamp
        && 0 <= p.txIndex < |node.txids(target)| && node.txids(target)[p.txIndex] == txid
        && (forall k :: 0 <= k < p.txIndex ==> node.txids(target)[k] != txid)
        && FindPayout(p.rawTx, outputIndex) == Ok(Payout(b.amountSats, b.pubkeyHash, b.scriptType))
  {
    hide FindPayout, FromBytes, Root, Proof;
  }

  /** So a proof built for a serialised transaction pays what its output says, to the key hash in its script. */
  lemma BuiltPaysTheOutput(h: Hash, node: Node, txid: Bytes, outputIndex: int, checkpoint: int, target: int,
                           tip: Option<int>, tx: Tx, segwit: bool)
    requires TxFits(tx) && (segwit || !LooksLikeSegwit(tx)) && node.rawTx(txid) == Serialize(tx, segwit)
    ensures var r := BuildProof(h, node, txid, outputIndex, checkpoint, target, tip);
      var k := Pointed(outputIndex, |tx.outputs|);
      r.Ok? ==>
        && 0 <= k < |tx.outputs| && r.value.amountSats == tx.outputs[k].value
        && |r.value.pubkeyHash| == 20
        && tx.outputs[k].scriptPubkey == ScriptFor(r.value.pubkeyHash, r.value.scriptType)
  {
    hide FindPayout, FromBytes, Serialize, BuildProof, ScriptFor, TxFits, LooksLikeSegwit, Reversed;
    BuiltSaysWhatTheNodeSaid(h, node, txid, outputIndex, checkpoint, target, tip);
    PayoutIsTheOutput(tx, segwit, outputIndex);
  }
}
