/** Bitcoin's Merkle tree: roots, inclusion proofs, and what a verified proof shows. The pair hash is a parameter. */
module Merkle {
  import opened Results
  import opened Bytes
  import opened Powers

  type Hash = Bytes -> Bytes

  datatype Error = NoTransactions | IndexOutOfRange | IndexError

  // ---- one level

  /** An odd level repeats its last node. */
  function Padded(level: seq<Bytes>): (padded: seq<Bytes>)
    requires level != []
    ensures |padded| % 2 == 0 && level <= padded
  {
    if |level| % 2 == 1 then level + [level[|level| - 1]] else level
  }

  function Above(h: Hash, level: seq<Bytes>): (above: seq<Bytes>)
    requires level != []
    ensures |above| == (|level| + 1) / 2
  {
    var padded := Padded(level);
    seq(|padded| / 2, k requires 0 <= k < |padded| / 2 => h(padded[2 * k] + padded[2 * k + 1]))
  }

  function Sibling(index: int): int {
    if index % 2 == 0 then index + 1 else index - 1
  }

  /** The node hashed together with this one. */
  function Neighbour(level: seq<Bytes>, index: nat): Bytes
    requires index < |level|
  {
    Padded(level)[Sibling(index)]
  }

  // ---- root, proof, verification

  function Root(h: Hash, level: seq<Bytes>): Bytes
    requires level != []
    decreases |level|
  {
    if |level| == 1 then level[0] else Root(h, Above(h, level))
  }

  function Proof(h: Hash, level: seq<Bytes>, index: nat): seq<Bytes>
    requires index < |level|
    decreases |level|
  {
    if |level| == 1 then []
    else [Neighbour(level, index)] + Proof(h, Above(h, level), index / 2)
  }

  /** Where a proof leads from a transaction. */
  function Climb(h: Hash, node: Bytes, proof: seq<Bytes>, index: int): Bytes
    decreases |proof|
  {
    if proof == [] then node
    else Climb(h, if index % 2 == 0 then h(node + proof[0]) else h(proof[0] + node), proof[1..], index / 2)
  }

  method ComputeRoot(h: Hash, txids: seq<Bytes>) returns (r: Result<Bytes, Error>)
    ensures r == if txids == [] then Err(NoTransactions) else Ok(Root(h, txids))
  {
    if txids == [] {
      return Err(NoTransactions);
    }
    var hashes := txids;
    while |hashes| > 1
      invariant hashes != [] && Root(h, hashes) == Root(h, txids)
      decreases |hashes|
    {
      hashes := HashPairs(h, hashes);
    }
    r := Ok(hashes[0]);
  }

  method HashPairs(h: Hash, level: seq<Bytes>) returns (above: seq<Bytes>)
    requires level != []
    ensures above == Above(h, level)
  {
    var hashes := level;
    if |hashes| % 2 == 1 {
      hashes := hashes + [hashes[|hashes| - 1]];
    }
    above := [];
    for k := 0 to |hashes| / 2
      invariant above == Above(h, level)[..k]
    {
      above := above + [h(hashes[2 * k] + hashes[2 * k + 1])];
    }
  }

  /** One level of a proof. */
  lemma ProofStep(h: Hash, level: seq<Bytes>, index: nat, done: seq<Bytes>)
    requires index < |level| && |level| > 1
    ensures Root(h, level) == Root(h, Above(h, level))
    ensures Proof(h, level, index) == [Neighbour(level, index)] + Proof(h, Above(h, level), index / 2)
    ensures done + Proof(h, level, index) == done + [Neighbour(level, index)] + Proof(h, Above(h, level), index / 2)
  {
  }

  lemma ProofEnd(h: Hash, level: seq<Bytes>, index: nat, done: seq<Bytes>)
    requires index < |level| == 1
    ensures Root(h, level) == level[0] && Proof(h, level, index) == [] && done + Proof(h, level, index) == done
  {
  }

  method FindSibling(level: seq<Bytes>, index: nat) returns (node: Bytes)
    requires index < |level|
    ensures node == Neighbour(level, index)
  {
    var hashes := level;
    if |hashes| % 2 == 1 {
      hashes := hashes + [hashes[|hashes| - 1]];
    }
    node := hashes[if index % 2 == 0 then index + 1 else index - 1];
  }

  method GenerateProof(h: Hash, txids: seq<Bytes>, txIndex: int) returns (r: Result<(seq<Bytes>, Bytes), Error>)
    ensures r == ProverResult(h, txids, txIndex)
  {
    if txids == [] {
      return Err(NoTransactions);
    }
    if txIndex < 0 || txIndex >= |txids| {
      return Err(IndexOutOfRange);
    }
    hide Root, Proof, Above, Neighbour;
    var proof, hashes, index := [], txids, txIndex;
    assert proof + Proof(h, txids, txIndex) == Proof(h, txids, txIndex);
    while |hashes| > 1
      invariant 0 <= index < |hashes|
      invariant Root(h, hashes) == Root(h, txids)
      invariant proof + Proof(h, hashes, index) == Proof(h, txids, txIndex)
      decreases |hashes|
    {
      ProofStep(h, hashes, index, proof);
      var sibling := FindSibling(hashes, index);
      proof := proof + [sibling];
      hashes := HashPairs(h, hashes);
      index := index / 2;
    }
    ProofEnd(h, hashes, index, proof);
    r := Ok((proof, hashes[0]));
  }

  method VerifyProof(h: Hash, txid: Bytes, root: Bytes, proof: seq<Bytes>, txIndex: int) returns (ok: bool)
    ensures ok <==> Climb(h, txid, proof, txIndex) == root
  {
    var current, index := txid, txIndex;
    for k := 0 to |proof|
      invariant Climb(h, current, proof[k..], index) == Climb(h, txid, proof, txIndex)
    {
      if index % 2 == 0 {
        current := h(current + proof[k]);
      } else {
        current := h(proof[k] + current);
      }
      index := index / 2;
    }
    ok := current == root;
  }

  // ---- the tree, seen from the top

  /** How many nodes a level has. */
  function Width(n: nat, height: nat): nat {
    if height == 0 then n else (Width(n, height - 1) + 1) / 2
  }

  /** Node `k` of a level: its children hashed, the last child of an odd level standing in for a missing one. */
  function Node(h: Hash, leaves: seq<Bytes>, height: nat, k: nat): Bytes
    requires leaves != [] && k < Width(|leaves|, height)
    decreases height
  {
    if height == 0 then leaves[k]
    else h(Node(h, leaves, height - 1, 2 * k)
      + Node(h, leaves, height - 1, Partner(2 * k, Width(|leaves|, height - 1))))
  }

  /** A node's partner under the same parent, or the node itself when it has none. */
  function Partner(k: nat, width: nat): nat {
    if k % 2 == 1 then k - 1 else if k + 1 < width then k + 1 else k
  }

  /** The tree's height: the first level of one node. */
  function Height(n: nat): nat
    requires n > 0
  {
    if n == 1 then 0 else 1 + Height((n + 1) / 2)
  }

  lemma {:induction false} WidthAbove(n: nat, height: nat)
    ensures Width((n + 1) / 2, height) == Width(n, height + 1)
  {
    if height > 0 {
      WidthAbove(n, height - 1);
    }
  }

  lemma WidthStep(n: nat, height: nat)
    ensures Width(n, 0) == n && Width(n, height + 1) == (Width(n, height) + 1) / 2
  {
  }

  lemma NodeStep(h: Hash, leaves: seq<Bytes>, height: nat, k: nat)
    requires leaves != [] && k < Width(|leaves|, height + 1)
    ensures var width := Width(|leaves|, height);
      && 2 * k < width && Partner(2 * k, width) < width
      && Node(h, leaves, height + 1, k)
        == h(Node(h, leaves, height, 2 * k) + Node(h, leaves, height, Partner(2 * k, width)))
  {
  }

  lemma NodeAboveLeaves(h: Hash, leaves: seq<Bytes>, k: nat)
    requires leaves != [] && k < Width(|leaves|, 1)
    ensures k < |Above(h, leaves)| && Node(h, Above(h, leaves), 0, k) == Node(h, leaves, 1, k)
  {
    WidthStep(|leaves|, 0);
    NodeStep(h, leaves, 0, k);
    assert Padded(leaves)[2 * k] == leaves[2 * k];
    assert Padded(leaves)[2 * k + 1] == leaves[Partner(2 * k, |leaves|)];
  }

  lemma {:induction false} NodeAbove(h: Hash, leaves: seq<Bytes>, height: nat, k: nat)
    requires leaves != [] && k < Width(|leaves|, height + 1)
    ensures Width(|Above(h, leaves)|, height) == Width(|leaves|, height + 1)
    ensures Node(h, Above(h, leaves), height, k) == Node(h, leaves, height + 1, k)
    decreases height
  {
    hide Node, Width, Partner;
    WidthAbove(|leaves|, height);
    if height == 0 {
      NodeAboveLeaves(h, leaves, k);
    } else {
      var width := Width(|leaves|, height);
      WidthAbove(|leaves|, height - 1);
      NodeStep(h, leaves, height, k);
      NodeStep(h, Above(h, leaves), height - 1, k);
      NodeAbove(h, leaves, height - 1, 2 * k);
      NodeAbove(h, leaves, height - 1, Partner(2 * k, width));
    }
  }

  lemma RootStep(h: Hash, leaves: seq<Bytes>)
    requires leaves != []
    ensures Root(h, leaves) == if |leaves| == 1 then Node(h, leaves, 0, 0) else Root(h, Above(h, leaves))
  {
  }

  /** The loop's root is the tree's top node. */
  lemma {:induction false} RootIsTheTop(h: Hash, leaves: seq<Bytes>)
    requires leaves != []
    ensures Width(|leaves|, Height(|leaves|)) == 1 && Root(h, leaves) == Node(h, leaves, Height(|leaves|), 0)
    decreases |leaves|
  {
    RootStep(h, leaves);
    hide Node, Above, Root;
    if |leaves| > 1 {
      RootIsTheTop(h, Above(h, leaves));
      var height := Height(|leaves|) - 1;
      WidthAbove(|leaves|, height);
      NodeAbove(h, leaves, height, 0);
    }
  }

  /** Where the way up from `index` crosses a level. */
  function Ancestor(index: nat, height: nat): nat
    decreases height
  {
    if height == 0 then index else Ancestor(index / 2, height - 1)
  }

  /** The proof's entry for a level is the partner of the node where the way up crosses it. */
  ghost predicate HoldsPartner(h: Hash, leaves: seq<Bytes>, proof: seq<Bytes>, index: nat, height: nat)
    requires leaves != []
  {
    var k, width := Ancestor(index, height), Width(|leaves|, height);
    && height < |proof| && k < width && Partner(k, width) < width
    && proof[height] == Node(h, leaves, height, Partner(k, width))
  }

  /** A proof holds, level by level, the partners of the nodes on the way from the transaction to the top. */
  lemma {:induction false} ProofIsThePath(h: Hash, leaves: seq<Bytes>, index: nat, height: nat)
    requires index < |leaves| && height < Height(|leaves|)
    ensures |Proof(h, leaves, index)| == Height(|leaves|)
    ensures HoldsPartner(h, leaves, Proof(h, leaves, index), index, height)
    decreases height
  {
    hide HoldsPartner, Above, Proof;
    ProofLength(h, leaves, index);
    if height == 0 {
      PathStarts(h, leaves, index);
    } else {
      ProofLength(h, Above(h, leaves), index / 2);
      ProofIsThePath(h, Above(h, leaves), index / 2, height - 1);
      PathGoesUp(h, leaves, index, height);
    }
  }

  lemma {:induction false} PathStarts(h: Hash, leaves: seq<Bytes>, index: nat)
    requires index < |leaves| && |leaves| > 1
    ensures HoldsPartner(h, leaves, Proof(h, leaves, index), index, 0)
  {
    hide Above;
    assert Neighbour(leaves, index) == leaves[Partner(index, |leaves|)];
  }

  lemma {:induction false} PathGoesUp(h: Hash, leaves: seq<Bytes>, index: nat, height: nat)
    requires index < |leaves| && |leaves| > 1 && 0 < height < |Proof(h, leaves, index)|
    requires HoldsPartner(h, Above(h, leaves), Proof(h, Above(h, leaves), index / 2), index / 2, height - 1)
    ensures HoldsPartner(h, leaves, Proof(h, leaves, index), index, height)
  {
    hide Node, Width, Partner, Neighbour, Above, Proof;
    WidthAbove(|leaves|, height - 1);
    var k, width := Ancestor(index, height), Width(|leaves|, height);
    assert k == Ancestor(index / 2, height - 1);
    assert Width(|Above(h, leaves)|, height - 1) == width;
    NodeAbove(h, leaves, height - 1, Partner(k, width));
    ProofTail(h, leaves, index, height);
  }

  lemma {:induction false} ProofTail(h: Hash, leaves: seq<Bytes>, index: nat, height: nat)
    requires index < |leaves| && |leaves| > 1 && 0 < height < |Proof(h, leaves, index)|
    ensures height <= |Proof(h, Above(h, leaves), index / 2)|
    ensures Proof(h, leaves, index)[height] == Proof(h, Above(h, leaves), index / 2)[height - 1]
  {
    hide Neighbour, Above;
  }

  lemma {:induction false} ProofLength(h: Hash, leaves: seq<Bytes>, index: nat)
    requires index < |leaves|
    ensures |Proof(h, leaves, index)| == Height(|leaves|)
    decreases |leaves|
  {
    if |leaves| > 1 {
      ProofLength(h, Above(h, leaves), index / 2);
    }
  }

  /** The height is the least power of two that holds the leaves. */
  lemma {:induction false} HeightIsLogarithmic(n: nat)
    requires n > 0
    ensures n <= Pow2(Height(n))
    ensures n > 1 ==> Pow2(Height(n) - 1) < n
  {
    if n > 1 {
      HeightIsLogarithmic((n + 1) / 2);
    }
  }

  // ---- completeness and soundness

  lemma ParentOf(h: Hash, level: seq<Bytes>, index: nat)
    requires index < |level| && |level| > 1
    ensures Above(h, level)[index / 2] ==
      if index % 2 == 0 then h(level[index] + Neighbour(level, index)) else h(Neighbour(level, index) + level[index])
  {
    assert Padded(level)[index] == level[index];
  }

  /** Every generated proof verifies against the computed root. */
  lemma {:induction false} GeneratedProofVerifies(h: Hash, txids: seq<Bytes>, index: nat)
    requires index < |txids|
    ensures Climb(h, txids[index], Proof(h, txids, index), index) == Root(h, txids)
    decreases |txids|
  {
    if |txids| > 1 {
      ParentOf(h, txids, index);
      GeneratedProofVerifies(h, Above(h, txids), index / 2);
    }
  }

  ghost predicate AreNodes(nodes: seq<Bytes>) {
    forall i :: 0 <= i < |nodes| ==> |nodes[i]| == 32
  }

  ghost predicate HashesToNodes(h: Hash) {
    forall x :: |h(x)| == 32
  }

  /** Two different 64-byte strings with one hash. */
  ghost predicate Collides(h: Hash) {
    exists x, y :: IsCollision(h, x, y)
  }

  ghost predicate IsCollision(h: Hash, x: Bytes, y: Bytes) {
    x != y && |x| == 64 && |y| == 64 && h(x) == h(y)
  }

  lemma EqualPairsOrCollision(h: Hash, a: Bytes, b: Bytes, c: Bytes, d: Bytes)
    requires |a| == 32 && |b| == 32 && |c| == 32 && |d| == 32 && h(a + b) == h(c + d)
    ensures (a == c && b == d) || Collides(h)
  {
    if a + b == c + d {
      assert a == (a + b)[..32] && c == (c + d)[..32] && b == (a + b)[32..] && d == (c + d)[32..];
    } else {
      assert IsCollision(h, a + b, c + d);
    }
  }

  /** Above a level of nodes are nodes. */
  lemma AboveAreNodes(h: Hash, level: seq<Bytes>)
    requires HashesToNodes(h) && level != []
    ensures AreNodes(Above(h, level))
  {
  }

  /** A proof of the right length that verifies is the generated one and shows the very transaction at that index, or it
      exhibits a collision of the hash. */
  lemma {:induction false} VerifiedProofIsGenuine(h: Hash, txids: seq<Bytes>, index: nat, txid: Bytes,
                                                  proof: seq<Bytes>)
    requires HashesToNodes(h) && AreNodes(txids) && AreNodes(proof) && |txid| == 32
    requires index < |txids| && |proof| == Height(|txids|)
    requires Climb(h, txid, proof, index) == Root(h, txids)
    ensures (txid == txids[index] && proof == Proof(h, txids, index)) || Collides(h)
    decreases |txids|
  {
    hide Neighbour, Above, Collides, Root, Proof;
    if |txids| > 1 {
      var parent := if index % 2 == 0 then h(txid + proof[0]) else h(proof[0] + txid);
      AboveAreNodes(h, txids);
      ProofStep(h, txids, index, []);
      VerifiedProofIsGenuine(h, Above(h, txids), index / 2, parent, proof[1..]);
      if !Collides(h) {
        SameParentSameChildren(h, txids, index, txid, proof[0]);
        assert proof == [proof[0]] + proof[1..];
      }
    } else {
      ProofEnd(h, txids, index, []);
    }
  }

  /** Two pairs under one parent are the same pair. */
  lemma SameParentSameChildren(h: Hash, level: seq<Bytes>, index: nat, node: Bytes, sibling: Bytes)
    requires AreNodes(level) && index < |level| && |level| > 1 && |node| == 32 && |sibling| == 32
    requires Above(h, level)[index / 2] == if index % 2 == 0 then h(node + sibling) else h(sibling + node)
    ensures (node == level[index] && sibling == Neighbour(level, index)) || Collides(h)
  {
    hide Above, Collides;
    ParentOf(h, level, index);
    var other := Neighbour(level, index);
    if index % 2 == 0 {
      EqualPairsOrCollision(h, node, sibling, level[index], other);
    } else {
      EqualPairsOrCollision(h, sibling, node, other, level[index]);
    }
  }

  /** Without collisions, verification decides membership at an index. */
  lemma VerificationDecidesMembership(h: Hash, txids: seq<Bytes>, index: nat, txid: Bytes)
    requires HashesToNodes(h) && AreNodes(txids) && |txid| == 32 && index < |txids| && !Collides(h)
    ensures txid == txids[index] <==>
      exists proof :: AreNodes(proof) && |proof| == Height(|txids|) && Climb(h, txid, proof, index) == Root(h, txids)
  {
    if txid == txids[index] {
      GeneratedProofVerifies(h, txids, index);
      ProofLength(h, txids, index);
      ProofNodes(h, txids, index);
    } else {
      forall proof | AreNodes(proof) && |proof| == Height(|txids|) && Climb(h, txid, proof, index) == Root(h, txids)
        ensures false
      {
        VerifiedProofIsGenuine(h, txids, index, txid, proof);
      }
    }
  }

  lemma {:induction false} ProofNodes(h: Hash, txids: seq<Bytes>, index: nat)
    requires HashesToNodes(h) && AreNodes(txids) && index < |txids|
    ensures AreNodes(Proof(h, txids, index))
    decreases |txids|
  {
    if |txids| > 1 {
      AboveAreNodes(h, txids);
      ProofNodes(h, Above(h, txids), index / 2);
    }
  }

  // ---- the second copy

  /** A negative position counts from the end of the level, and raises when it reaches beyond its start; a sibling
      beyond the end of the level is left out. */
  function ServiceSibling(level: seq<Bytes>, index: int): Result<seq<Bytes>, Error>
    requires level != []
  {
    var padded, sibling := Padded(level), Sibling(index);
    if sibling >= |padded| then Ok([])
    else if sibling >= 0 then Ok([padded[sibling]])
    else if |padded| + sibling >= 0 then Ok([padded[|padded| + sibling]])
    else Err(IndexError)
  }

  /** The service's copy: no range check. */
  function ServiceProof(h: Hash, level: seq<Bytes>, index: int): Result<seq<Bytes>, Error>
    requires level != []
    decreases |level|
  {
    if |level| == 1 then Ok([])
    else Joined(ServiceSibling(level, index), ServiceProof(h, Above(h, level), index / 2))
  }

  function Joined(first: Result<seq<Bytes>, Error>, rest: Result<seq<Bytes>, Error>): Result<seq<Bytes>, Error> {
    if first.Err? then first else if rest.Err? then rest else Ok(first.value + rest.value)
  }

  lemma {:induction false} ServiceProofStep(h: Hash, level: seq<Bytes>, index: int, done: seq<Bytes>)
    requires |level| > 1
    ensures Root(h, level) == Root(h, Above(h, level))
    ensures var sibling := ServiceSibling(level, index);
      Joined(Ok(done), ServiceProof(h, level, index)) ==
        if sibling.Err? then Err(sibling.error)
        else Joined(Ok(done + sibling.value), ServiceProof(h, Above(h, level), index / 2))
  {
    hide Above, ServiceSibling;
    var sibling, rest := ServiceSibling(level, index), ServiceProof(h, Above(h, level), index / 2);
    if sibling.Ok? && rest.Ok? {
      assert done + (sibling.value + rest.value) == done + sibling.value + rest.value;
    }
  }

  lemma ServiceProofEnds(h: Hash, level: seq<Bytes>, index: int, done: seq<Bytes>)
    requires level != []
    ensures |level| == 1 ==> Root(h, level) == level[0] && Joined(Ok(done), ServiceProof(h, level, index)) == Ok(done)
    ensures Joined(Ok([]), ServiceProof(h, level, index)) == ServiceProof(h, level, index)
  {
    hide Above, ServiceSibling;
    assert done + [] == done;
    var proof := ServiceProof(h, level, index);
    if proof.Ok? {
      assert [] + proof.value == proof.value;
    }
  }

  method ServiceFindSibling(level: seq<Bytes>, index: int) returns (found: Result<seq<Bytes>, Error>)
    requires level != []
    ensures found == ServiceSibling(level, index)
  {
    var padded := if |level| % 2 == 1 then level + [level[|level| - 1]] else level;
    var sibling := if index % 2 == 0 then index + 1 else index - 1;
    if sibling >= |padded| {
      return Ok([]);
    }
    if sibling < 0 {
      sibling := |padded| + sibling;
    }
    found := if sibling < 0 then Err(IndexError) else Ok([padded[sibling]]);
  }

  function ServiceResult(h: Hash, txids: seq<Bytes>, txIndex: int): Result<(seq<Bytes>, Bytes), Error> {
    if txids == [] then Err(NoTransactions)
    else
      var proof := ServiceProof(h, txids, txIndex);
      if proof.Err? then Err(proof.error) else Ok((proof.value, Root(h, txids)))
  }

  method ServiceGenerateProof(h: Hash, txids: seq<Bytes>, txIndex: int) returns (r: Result<(seq<Bytes>, Bytes), Error>)
    ensures r == ServiceResult(h, txids, txIndex)
  {
    if txids == [] {
      return Err(NoTransactions);
    }
    hide Root, ServiceProof, Above, ServiceSibling;
    var proof, level, index := [], txids, txIndex;
    ServiceProofEnds(h, txids, txIndex, []);
    while |level| > 1
      invariant level != []
      invariant Root(h, level) == Root(h, txids)
      invariant Joined(Ok(proof), ServiceProof(h, level, index)) == ServiceProof(h, txids, txIndex)
      decreases |level|
    {
      ServiceProofStep(h, level, index, proof);
      var sibling := ServiceFindSibling(level, index);
      if sibling.Err? {
        return Err(sibling.error);
      }
      proof := proof + sibling.value;
      level := HashPairs(h, level);
      index := index / 2;
    }
    ServiceProofEnds(h, level, index, proof);
    r := Ok((proof, level[0]));
  }

  lemma {:induction false} InRangeProofsAgree(h: Hash, txids: seq<Bytes>, index: nat)
    requires index < |txids|
    ensures ServiceProof(h, txids, index) == Ok(Proof(h, txids, index))
    decreases |txids|
  {
    if |txids| > 1 {
      InRangeProofsAgree(h, Above(h, txids), index / 2);
    }
  }

  function ProverResult(h: Hash, txids: seq<Bytes>, txIndex: int): Result<(seq<Bytes>, Bytes), Error> {
    if txids == [] then Err(NoTransactions)
    else if 0 <= txIndex < |txids| then Ok((Proof(h, txids, txIndex), Root(h, txids)))
    else Err(IndexOutOfRange)
  }

  /** The two copies agree on an index exactly when it is in range, or there is nothing to index. */
  lemma CopiesAgreeExactlyInRange(h: Hash, txids: seq<Bytes>, txIndex: int)
    ensures ServiceResult(h, txids, txIndex) == ProverResult(h, txids, txIndex)
      <==> txids == [] || 0 <= txIndex < |txids|
  {
    hide Root, Proof;
    if 0 <= txIndex < |txids| {
      InRangeProofsAgree(h, txids, txIndex);
    }
    if txids != [] {
      ServiceRaisesBelowTheLevel(h, txids, txIndex);
    }
  }

  /** The service's copy raises exactly for an index further below zero than the padded list is long. */
  lemma {:induction false} ServiceRaisesBelowTheLevel(h: Hash, txids: seq<Bytes>, txIndex: int)
    requires txids != []
    ensures ServiceProof(h, txids, txIndex).Err? <==> |txids| > 1 && txIndex < -(|Padded(txids)| as int)
    ensures ServiceProof(h, txids, txIndex).Err? ==> ServiceProof(h, txids, txIndex).error == IndexError
    decreases |txids|
  {
    hide Above, ServiceSibling, Padded;
    if |txids| > 1 {
      var above := Above(h, txids);
      ServiceRaisesBelowTheLevel(h, above, txIndex / 2);
      SiblingRaises(txids, txIndex);
      SiblingRaises(above, txIndex / 2);
    }
  }

  lemma SiblingRaises(level: seq<Bytes>, index: int)
    requires level != []
    ensures ServiceSibling(level, index).Err? <==> index < -(|Padded(level)| as int)
    ensures ServiceSibling(level, index).Err? ==> ServiceSibling(level, index).error == IndexError
    ensures |Padded(level)| == (|level| + 1) / 2 * 2
  {
  }
}
