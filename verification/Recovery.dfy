/**
 Crash recovery of the consensus block tree: finding the committed root among the stored
 blocks, and pruning, in one pass over the sorted blocks, every block that does not
 descend from it.
 */
module Recovery {
  import opened Sequences
  import opened Wrappers

  type HashValue = nat

  datatype Block = Block(id: HashValue, parent: HashValue, epoch: nat, round: nat)

  /** What a commit says of a block; `executed` stands for the state after executing it. */
  datatype BlockInfo = BlockInfo(
    id: HashValue, epoch: nat, round: nat, timestamp: nat, reconfigures: bool, executed: nat)

  /** A quorum certificate: the block it certifies and what it says of the block it commits. */
  datatype QuorumCert = QuorumCert(certified: HashValue, commit: BlockInfo)

  datatype Vote = Vote(epoch: nat, round: nat)

  datatype TimeoutCert = TimeoutCert(epoch: nat, round: nat)

  // ----- Descent from the root -----

  /** `p` leads from its first block, parent by parent, to a child of `root`. */
  ghost predicate Chain(blocks: seq<Block>, root: HashValue, p: seq<Block>) {
    && p != []
    && (forall i :: 0 <= i < |p| ==> p[i] in blocks)
    && (forall i :: 0 <= i < |p| - 1 ==> p[i].parent == p[i + 1].id)
    && p[|p| - 1].parent == root
  }

  ghost predicate Descends(blocks: seq<Block>, root: HashValue, b: Block) {
    exists p :: Chain(blocks, root, p) && p[0] == b
  }

  // ----- The one-pass filter -----

  function Ids(blocks: seq<Block>): set<HashValue> {
    set b | b in blocks :: b.id
  }

  lemma IdsAppend(xs: seq<Block>, b: Block)
    ensures Ids(xs + [b]) == Ids(xs) + {b.id}
  {
    assert forall x :: x in xs + [b] <==> x == b || x in xs;
  }

  /** The blocks one pass keeps: those whose parent is the root or was kept before. */
  function Kept(root: HashValue, blocks: seq<Block>): seq<Block> {
    if blocks == [] then []
    else
      var n := |blocks| - 1;
      var before := Kept(root, blocks[..n]);
      if InTree(root, before, blocks[n].parent) then before + [blocks[n]] else before
  }

  predicate InTree(root: HashValue, kept: seq<Block>, id: HashValue) {
    id == root || id in Ids(kept)
  }

  /** The blocks one pass drops. */
  function Dropped(root: HashValue, blocks: seq<Block>): seq<Block> {
    if blocks == [] then []
    else
      var n := |blocks| - 1;
      Dropped(root, blocks[..n])
      + if InTree(root, Kept(root, blocks[..n]), blocks[n].parent) then [] else [blocks[n]]
  }

  function KeptCerts(root: HashValue, kept: seq<Block>, qcs: seq<QuorumCert>): seq<QuorumCert> {
    if qcs == [] then []
    else
      var n := |qcs| - 1;
      KeptCerts(root, kept, qcs[..n]) + if InTree(root, kept, qcs[n].certified) then [qcs[n]] else []
  }

  /** The ids reported for deletion: those of dropped blocks, and those certified by
      certificates outside the tree. */
  function Pruned(root: HashValue, blocks: seq<Block>, qcs: seq<QuorumCert>): set<HashValue> {
    Ids(Dropped(root, blocks)) + Outside(root, Kept(root, blocks), qcs)
  }

  method FindBlocksToPrune(root: HashValue, blocks: seq<Block>, qcs: seq<QuorumCert>)
    returns (keptBlocks: seq<Block>, keptCerts: seq<QuorumCert>, toRemove: set<HashValue>)
    ensures keptBlocks == Kept(root, blocks)
    ensures keptCerts == KeptCerts(root, Kept(root, blocks), qcs)
    ensures toRemove == Pruned(root, blocks, qcs)
  {
    var tree := {root};
    keptBlocks, toRemove := [], {};
    ghost var dropped := [];
    for i := 0 to |blocks|
      invariant keptBlocks == Kept(root, blocks[..i]) && tree == {root} + Ids(keptBlocks)
      invariant dropped == Dropped(root, blocks[..i]) && toRemove == Ids(dropped)
    {
      assert blocks[..i + 1][..i] == blocks[..i];
      if blocks[i].parent in tree {
        IdsAppend(keptBlocks, blocks[i]);
        tree := tree + {blocks[i].id};
        keptBlocks := keptBlocks + [blocks[i]];
      } else {
        IdsAppend(dropped, blocks[i]);
        toRemove := toRemove + {blocks[i].id};
        dropped := dropped + [blocks[i]];
      }
    }
    assert blocks[..|blocks|] == blocks;
    var untreed;
    keptCerts, untreed := RetainCerts(tree, qcs, root, keptBlocks);
    toRemove := toRemove + untreed;
  }

  /** The ids certified by certificates of blocks outside the tree. */
  function Outside(root: HashValue, kept: seq<Block>, qcs: seq<QuorumCert>): set<HashValue> {
    set q | q in qcs && !InTree(root, kept, q.certified) :: q.certified
  }

  lemma OutsideSnoc(root: HashValue, kept: seq<Block>, qcs: seq<QuorumCert>, q: QuorumCert)
    ensures Outside(root, kept, qcs + [q])
      == Outside(root, kept, qcs) + if InTree(root, kept, q.certified) then {} else {q.certified}
  {}

  /** The certificates of blocks in the tree, and the ids that the others certify. */
  method RetainCerts(tree: set<HashValue>, qcs: seq<QuorumCert>, ghost root: HashValue, ghost kept: seq<Block>)
    returns (certs: seq<QuorumCert>, untreed: set<HashValue>)
    requires tree == {root} + Ids(kept)
    ensures certs == KeptCerts(root, kept, qcs)
    ensures untreed == Outside(root, kept, qcs)
  {
    certs, untreed := [], {};
    for i := 0 to |qcs|
      invariant certs == KeptCerts(root, kept, qcs[..i])
      invariant untreed == Outside(root, kept, qcs[..i])
    {
      assert qcs[..i + 1] == qcs[..i] + [qcs[i]] && qcs[..i + 1][..i] == qcs[..i];
      OutsideSnoc(root, kept, qcs[..i], qcs[i]);
      if qcs[i].certified in tree {
        certs := certs + [qcs[i]];
      } else {
        untreed := untreed + {qcs[i].certified};
      }
    }
    assert qcs[..|qcs|] == qcs;
  }

  // ----- Pruning keeps only descendants -----

  lemma {:induction false} KeptDescends(root: HashValue, blocks: seq<Block>, b: Block)
    requires b in Kept(root, blocks)
    ensures b in blocks && Descends(blocks, root, b)
  {
    var n := |blocks| - 1;
    var before := Kept(root, blocks[..n]);
    if b in before {
      KeptDescends(root, blocks[..n], b);
      var p :| Chain(blocks[..n], root, p) && p[0] == b;
      assert Chain(blocks, root, p);
    } else if b.parent == root {
      assert Chain(blocks, root, [b]);
    } else {
      var c :| c in before && c.id == b.parent;
      KeptDescends(root, blocks[..n], c);
      var p :| Chain(blocks[..n], root, p) && p[0] == c;
      assert Chain(blocks, root, [b] + p);
    }
  }

  // ----- With parents below children it keeps all of them -----

  predicate Below(a: Block, b: Block) {
    a.epoch < b.epoch || (a.epoch == b.epoch && a.round < b.round)
  }

  ghost predicate Sorted(blocks: seq<Block>) {
    forall i, j :: 0 <= i < j < |blocks| ==> !Below(blocks[j], blocks[i])
  }

  ghost predicate ParentsBelow(blocks: seq<Block>) {
    forall b, p :: b in blocks && p in blocks && p.id == b.parent ==> Below(p, b)
  }

  /** In the fields themselves: epochs do not fall, and within an epoch rounds do not. */
  ghost predicate Ascending(blocks: seq<Block>) {
    forall i, j :: 0 <= i < j < |blocks| ==>
      || blocks[i].epoch < blocks[j].epoch
      || (blocks[i].epoch == blocks[j].epoch && blocks[i].round <= blocks[j].round)
  }

  /** In the fields themselves: a stored parent is of an earlier epoch, or of an earlier round
      of the same one. */
  ghost predicate ParentsEarlier(blocks: seq<Block>) {
    forall b, p :: b in blocks && p in blocks && p.id == b.parent ==>
      p.epoch < b.epoch || (p.epoch == b.epoch && p.round < b.round)
  }

  lemma OrderInFields(blocks: seq<Block>)
    ensures Sorted(blocks) <==> Ascending(blocks)
    ensures ParentsBelow(blocks) <==> ParentsEarlier(blocks)
  {
    if Sorted(blocks) {
      forall i, j | 0 <= i < j < |blocks|
        ensures blocks[i].epoch < blocks[j].epoch
          || (blocks[i].epoch == blocks[j].epoch && blocks[i].round <= blocks[j].round)
      {
        assert !Below(blocks[j], blocks[i]);
      }
    }
    if ParentsBelow(blocks) {
      forall b, p | b in blocks && p in blocks && p.id == b.parent
        ensures p.epoch < b.epoch || (p.epoch == b.epoch && p.round < b.round)
      {
        assert Below(p, b);
      }
    }
  }

  lemma {:induction false} KeptPrefix(root: HashValue, blocks: seq<Block>, n: nat)
    requires n <= |blocks|
    ensures Kept(root, blocks[..n]) <= Kept(root, blocks)
    decreases |blocks|
  {
    if n == |blocks| {
      assert blocks[..n] == blocks;
    } else {
      var m := |blocks| - 1;
      KeptPrefix(root, blocks[..m], n);
      assert blocks[..m][..n] == blocks[..n];
    }
  }

  /** A kept block was kept when the pass reached some occurrence of it. */
  lemma {:induction false} KeptAt(root: HashValue, blocks: seq<Block>, b: Block) returns (j: nat)
    requires b in Kept(root, blocks)
    ensures j < |blocks| && blocks[j] == b && b in Kept(root, blocks[..j + 1])
  {
    var n := |blocks| - 1;
    if b in Kept(root, blocks[..n]) {
      j := KeptAt(root, blocks[..n], b);
      assert blocks[..n][..j + 1] == blocks[..j + 1];
    } else {
      j := n;
      assert blocks[..n + 1] == blocks;
    }
  }

  lemma KeptWhenReached(root: HashValue, blocks: seq<Block>, i: nat)
    requires i < |blocks| && InTree(root, Kept(root, blocks[..i]), blocks[i].parent)
    ensures blocks[i] in Kept(root, blocks)
  {
    assert blocks[..i + 1][..i] == blocks[..i];
    KeptPrefix(root, blocks, i + 1);
  }

  lemma KeptByThen(root: HashValue, blocks: seq<Block>, j: nat, i: nat)
    requires j < i <= |blocks| && blocks[j] in Kept(root, blocks[..j + 1])
    ensures blocks[j] in Kept(root, blocks[..i])
  {
    assert blocks[..i][..j + 1] == blocks[..j + 1];
    KeptPrefix(root, blocks[..i], j + 1);
  }

  /** A child of a kept block is kept: in sorted order the parent was reached first. */
  lemma ChildKept(root: HashValue, blocks: seq<Block>, b: Block, parent: Block)
    requires Sorted(blocks) && ParentsBelow(blocks)
    requires b in blocks && parent in Kept(root, blocks) && b.parent == parent.id
    ensures b in Kept(root, blocks)
  {
    var i :| 0 <= i < |blocks| && blocks[i] == b;
    var j := KeptAt(root, blocks, parent);
    assert j < i by {
      assert Below(blocks[j], blocks[i]);
    }
    KeptByThen(root, blocks, j, i);
    assert parent.id in Ids(Kept(root, blocks[..i]));
    KeptWhenReached(root, blocks, i);
  }

  lemma {:induction false} ChainKept(root: HashValue, blocks: seq<Block>, p: seq<Block>)
    requires Sorted(blocks) && ParentsBelow(blocks) && Chain(blocks, root, p)
    ensures p[0] in Kept(root, blocks)
    decreases |p|
  {
    if |p| > 1 {
      assert Chain(blocks, root, p[1..]);
      ChainKept(root, blocks, p[1..]);
      ChildKept(root, blocks, p[0], p[1]);
    } else {
      var i :| 0 <= i < |blocks| && blocks[i] == p[0];
      KeptWhenReached(root, blocks, i);
    }
  }

  /** The one-pass result is exactly the set of descendants of the root. */
  lemma KeptIsDescendants(root: HashValue, blocks: seq<Block>, b: Block)
    requires Ascending(blocks) && ParentsEarlier(blocks)
    ensures b in Kept(root, blocks) <==> Descends(blocks, root, b)
  {
    OrderInFields(blocks);
    if b in Kept(root, blocks) {
      KeptDescends(root, blocks, b);
    }
    if Descends(blocks, root, b) {
      var p :| Chain(blocks, root, p) && p[0] == b;
      ChainKept(root, blocks, p);
    }
  }

  /** Every descendant that is not a child of the root is listed after a descendant that is
      its parent. */
  ghost predicate ParentsFirst(root: HashValue, blocks: seq<Block>) {
    forall i :: 0 <= i < |blocks| && blocks[i].parent != root && Descends(blocks, root, blocks[i]) ==>
      exists j :: 0 <= j < i && blocks[j].id == blocks[i].parent && Descends(blocks, root, blocks[j])
  }

  lemma {:induction false} ParentsFirstKept(root: HashValue, blocks: seq<Block>, i: nat)
    requires ParentsFirst(root, blocks) && i < |blocks| && Descends(blocks, root, blocks[i])
    ensures InTree(root, Kept(root, blocks[..i]), blocks[i].parent)
    decreases i
  {
    if blocks[i].parent != root {
      var j :| 0 <= j < i && blocks[j].id == blocks[i].parent && Descends(blocks, root, blocks[j]);
      ParentsFirstKept(root, blocks, j);
      assert blocks[..i][..j] == blocks[..j] && blocks[..i][j] == blocks[j];
      KeptWhenReached(root, blocks[..i], j);
      assert blocks[j].id in Ids(Kept(root, blocks[..i]));
    }
  }

  lemma KeptReached(root: HashValue, blocks: seq<Block>, i: nat)
    requires UniqueIds(blocks) && i < |blocks| && blocks[i] in Kept(root, blocks)
    ensures InTree(root, Kept(root, blocks[..i]), blocks[i].parent)
  {
    var j := KeptAt(root, blocks, blocks[i]);
    assert i == j;
    assert blocks[..i + 1][..i] == blocks[..i];
    if blocks[i] in Kept(root, blocks[..i]) {
      KeptDescends(root, blocks[..i], blocks[i]);
      assert false;
    }
  }

  /** Whatever the order, one pass keeps exactly the descendants if and only if no
      descendant is listed before its parent. */
  lemma OnePassExactly(root: HashValue, blocks: seq<Block>)
    requires UniqueIds(blocks)
    ensures (forall b :: b in Kept(root, blocks) <==> Descends(blocks, root, b)) <==> ParentsFirst(root, blocks)
  {
    if ParentsFirst(root, blocks) {
      forall b ensures b in Kept(root, blocks) <==> Descends(blocks, root, b) {
        if b in Kept(root, blocks) {
          KeptDescends(root, blocks, b);
        } else if Descends(blocks, root, b) {
          var p :| Chain(blocks, root, p) && p[0] == b;
          var i :| 0 <= i < |blocks| && blocks[i] == b;
          ParentsFirstKept(root, blocks, i);
          KeptWhenReached(root, blocks, i);
        }
      }
    }
    if forall b :: b in Kept(root, blocks) <==> Descends(blocks, root, b) {
      forall i | 0 <= i < |blocks| && blocks[i].parent != root && Descends(blocks, root, blocks[i])
        ensures exists j :: 0 <= j < i && blocks[j].id == blocks[i].parent && Descends(blocks, root, blocks[j])
      {
        KeptReached(root, blocks, i);
        var c :| c in Kept(root, blocks[..i]) && c.id == blocks[i].parent;
        KeptDescends(root, blocks[..i], c);
        KeptPrefix(root, blocks, i);
        var j :| 0 <= j < i && blocks[j] == c;
      }
    }
  }

  /** Out of order, a descendant can be dropped: a child listed before its parent. */
  lemma UnsortedCanDropDescendants()
    ensures var child, parent := Block(2, 1, 1, 2), Block(1, 0, 1, 1);
      Descends([child, parent], 0, child) && child !in Kept(0, [child, parent])
  {
    var child, parent := Block(2, 1, 1, 2), Block(1, 0, 1, 1);
    var blocks := [child, parent];
    assert Chain(blocks, 0, [child, parent]);
    assert blocks[..1] == [child] && blocks[..1][..0] == [];
    assert Kept(0, [child]) == [];
  }

  // ----- The result is well formed, complete and stable -----

  /** Every block's parent is the root or an earlier block. */
  ghost predicate Topological(root: HashValue, blocks: seq<Block>) {
    forall i :: 0 <= i < |blocks| ==> InTree(root, blocks[..i], blocks[i].parent)
  }

  lemma {:induction false} KeptTopological(root: HashValue, blocks: seq<Block>)
    ensures Topological(root, Kept(root, blocks))
  {
    if blocks != [] {
      var n := |blocks| - 1;
      KeptTopological(root, blocks[..n]);
      var before, after := Kept(root, blocks[..n]), Kept(root, blocks);
      forall i | 0 <= i < |after| ensures InTree(root, after[..i], after[i].parent) {
        if i < |before| {
          assert after[..i] == before[..i];
        } else {
          assert after[..i] == before;
        }
      }
    }
  }

  /** One pass takes nothing twice and leaves nothing out. */
  lemma {:induction false} KeptAndDroppedAll(root: HashValue, blocks: seq<Block>)
    ensures multiset(Kept(root, blocks)) + multiset(Dropped(root, blocks)) == multiset(blocks)
  {
    if blocks != [] {
      var n := |blocks| - 1;
      KeptAndDroppedAll(root, blocks[..n]);
      LastCounts(blocks);
      SnocCounts(Kept(root, blocks[..n]), blocks[n]);
      SnocCounts(Dropped(root, blocks[..n]), blocks[n]);
      assert Dropped(root, blocks[..n]) + [] == Dropped(root, blocks[..n]);
    }
  }

  lemma {:induction false} KeptAscending(root: HashValue, blocks: seq<Block>)
    requires Ascending(blocks)
    ensures Ascending(Kept(root, blocks)) && forall b :: b in Kept(root, blocks) ==> b in blocks
  {
    if blocks != [] {
      var n := |blocks| - 1;
      KeptAscending(root, blocks[..n]);
      forall b | b in Kept(root, blocks[..n])
        ensures b.epoch < blocks[n].epoch || (b.epoch == blocks[n].epoch && b.round <= blocks[n].round)
      {
        var i :| 0 <= i < n && blocks[..n][i] == b;
      }
    }
  }

  /** A certificate of a block in the tree is kept as often as it is stored, the others not. */
  lemma {:induction false} KeptCertsCounts(root: HashValue, kept: seq<Block>, qcs: seq<QuorumCert>, q: QuorumCert)
    ensures multiset(KeptCerts(root, kept, qcs))[q] == if InTree(root, kept, q.certified) then multiset(qcs)[q] else 0
  {
    if qcs != [] {
      var n := |qcs| - 1;
      KeptCertsCounts(root, kept, qcs[..n], q);
      LastCounts(qcs);
      SnocCounts(KeptCerts(root, kept, qcs[..n]), qcs[n]);
    }
  }

  lemma {:induction false} TopologicalIsKept(root: HashValue, blocks: seq<Block>)
    requires Topological(root, blocks)
    ensures Kept(root, blocks) == blocks && Dropped(root, blocks) == []
  {
    if blocks != [] {
      var n := |blocks| - 1;
      forall i | 0 <= i < n ensures InTree(root, blocks[..n][..i], blocks[..n][i].parent) {
        assert blocks[..n][..i] == blocks[..i];
      }
      TopologicalIsKept(root, blocks[..n]);
      assert blocks == blocks[..n] + [blocks[n]];
    }
  }

  lemma {:induction false} KeptCertsMember(root: HashValue, kept: seq<Block>, qcs: seq<QuorumCert>, q: QuorumCert)
    ensures q in KeptCerts(root, kept, qcs) <==> q in qcs && InTree(root, kept, q.certified)
  {
    if qcs != [] {
      var n := |qcs| - 1;
      KeptCertsMember(root, kept, qcs[..n], q);
      assert q in qcs <==> q in qcs[..n] || q == qcs[n];
    }
  }

  lemma {:induction false} KeptCertsStable(root: HashValue, kept: seq<Block>, qcs: seq<QuorumCert>)
    requires forall q :: q in qcs ==> InTree(root, kept, q.certified)
    ensures KeptCerts(root, kept, qcs) == qcs
  {
    if qcs != [] {
      var n := |qcs| - 1;
      KeptCertsStable(root, kept, qcs[..n]);
      assert qcs[n] in qcs;
    }
  }

  /** Pruning its own output removes nothing. */
  lemma PruningIsStable(root: HashValue, blocks: seq<Block>, qcs: seq<QuorumCert>)
    ensures var kept := Kept(root, blocks); var certs := KeptCerts(root, kept, qcs);
      && Kept(root, kept) == kept
      && KeptCerts(root, kept, certs) == certs
      && Pruned(root, kept, certs) == {}
  {
    var kept := Kept(root, blocks);
    KeptTopological(root, blocks);
    TopologicalIsKept(root, kept);
    var certs := KeptCerts(root, kept, qcs);
    forall q | q in certs ensures InTree(root, kept, q.certified) {
      KeptCertsMember(root, kept, qcs, q);
    }
    KeptCertsStable(root, kept, certs);
  }

  lemma {:induction false} KeptOrDropped(root: HashValue, blocks: seq<Block>, b: Block)
    ensures b in blocks <==> b in Kept(root, blocks) || b in Dropped(root, blocks)
  {
    if blocks != [] {
      var n := |blocks| - 1;
      KeptOrDropped(root, blocks[..n], b);
      assert b in blocks <==> b in blocks[..n] || b == blocks[n];
    }
  }

  ghost predicate UniqueIds(blocks: seq<Block>) {
    forall i, j :: 0 <= i < j < |blocks| ==> blocks[i].id != blocks[j].id
  }

  lemma {:induction false} UniqueIdsPrefix(blocks: seq<Block>)
    requires UniqueIds(blocks) && blocks != []
    ensures UniqueIds(blocks[..|blocks| - 1])
    ensures forall b :: b in blocks[..|blocks| - 1] ==> b.id != blocks[|blocks| - 1].id
  {}

  lemma {:induction false} KeptAndDroppedDisjoint(root: HashValue, blocks: seq<Block>)
    requires UniqueIds(blocks)
    ensures Ids(Kept(root, blocks)) !! Ids(Dropped(root, blocks))
  {
    if blocks != [] {
      var n := |blocks| - 1;
      UniqueIdsPrefix(blocks);
      KeptAndDroppedDisjoint(root, blocks[..n]);
      forall b | b in Kept(root, blocks[..n]) || b in Dropped(root, blocks[..n]) ensures b.id != blocks[n].id {
        KeptOrDropped(root, blocks[..n], b);
      }
      IdsAppend(Kept(root, blocks[..n]), blocks[n]);
      IdsAppend(Dropped(root, blocks[..n]), blocks[n]);
    }
  }

  function Certified(qcs: seq<QuorumCert>): set<HashValue> {
    set q | q in qcs :: q.certified
  }

  /** The ids reported for deletion are exactly those stored that are not left in the tree. */
  lemma PrunedExactly(root: HashValue, blocks: seq<Block>, qcs: seq<QuorumCert>)
    requires UniqueIds(blocks) && root !in Ids(blocks)
    ensures Pruned(root, blocks, qcs) == Ids(blocks) + Certified(qcs) - ({root} + Ids(Kept(root, blocks)))
  {
    KeptAndDroppedDisjoint(root, blocks);
    forall b | b in Dropped(root, blocks) ensures b in blocks && b.id != root {
      KeptOrDropped(root, blocks, b);
    }
    forall id | id in Ids(blocks) ensures id in Ids(Kept(root, blocks)) || id in Ids(Dropped(root, blocks)) {
      var b :| b in blocks && b.id == id;
      KeptOrDropped(root, blocks, b);
    }
  }

  // ----- Finding the root -----

  /** Stable insertion by (epoch, round). */
  function InsertSorted(xs: seq<Block>, b: Block): seq<Block> {
    if xs == [] then [b]
    else
      var n := |xs| - 1;
      if Below(b, xs[n]) then InsertSorted(xs[..n], b) + [xs[n]] else xs + [b]
  }

  function SortBlocks(blocks: seq<Block>): seq<Block> {
    if blocks == [] then []
    else InsertSorted(SortBlocks(blocks[..|blocks| - 1]), blocks[|blocks| - 1])
  }

  lemma {:induction false} InsertSortedContents(xs: seq<Block>, b: Block)
    ensures multiset(InsertSorted(xs, b)) == multiset(xs) + multiset{b}
  {
    if xs != [] {
      var n := |xs| - 1;
      assert xs == xs[..n] + [xs[n]];
      if Below(b, xs[n]) {
        InsertSortedContents(xs[..n], b);
      }
    }
  }

  lemma {:induction false} InsertSortedBounded(xs: seq<Block>, b: Block, top: Block)
    requires !Below(top, b) && forall x :: x in xs ==> !Below(top, x)
    ensures forall x :: x in InsertSorted(xs, b) ==> !Below(top, x)
  {
    if xs != [] {
      InsertSortedBounded(xs[..|xs| - 1], b, top);
    }
  }

  lemma {:induction false} InsertSortedOrdered(xs: seq<Block>, b: Block)
    requires Sorted(xs)
    ensures Sorted(InsertSorted(xs, b))
  {
    if xs != [] {
      var n := |xs| - 1;
      if Below(b, xs[n]) {
        InsertSortedOrdered(xs[..n], b);
        InsertSortedBounded(xs[..n], b, xs[n]);
      } else {
        forall i | 0 <= i < |xs| ensures !Below(b, xs[i]) {
          assert i == n || !Below(xs[n], xs[i]);
        }
      }
    }
  }

  lemma {:induction false} SortIsSorted(blocks: seq<Block>)
    ensures Sorted(SortBlocks(blocks))
    ensures multiset(SortBlocks(blocks)) == multiset(blocks)
  {
    if blocks != [] {
      var n := |blocks| - 1;
      SortIsSorted(blocks[..n]);
      InsertSortedOrdered(SortBlocks(blocks[..n]), blocks[n]);
      InsertSortedContents(SortBlocks(blocks[..n]), blocks[n]);
      LastCounts(blocks);
    }
  }

  /** The blocks of one epoch and round, in order. */
  function Peers(blocks: seq<Block>, epoch: nat, round: nat): seq<Block> {
    if blocks == [] then []
    else
      var n := |blocks| - 1;
      Peers(blocks[..n], epoch, round)
      + if blocks[n].epoch == epoch && blocks[n].round == round then [blocks[n]] else []
  }

  lemma {:induction false} InsertSortedStable(xs: seq<Block>, b: Block, epoch: nat, round: nat)
    ensures Peers(InsertSorted(xs, b), epoch, round) == Peers(xs + [b], epoch, round)
  {
    assert (xs + [b])[..|xs|] == xs;
    if xs != [] {
      var n := |xs| - 1;
      if Below(b, xs[n]) {
        InsertSortedStable(xs[..n], b, epoch, round);
        var ys := InsertSorted(xs[..n], b);
        assert (ys + [xs[n]])[..|ys|] == ys;
        assert (xs[..n] + [b])[..n] == xs[..n];
      }
    } else {
      assert InsertSorted(xs, b) == xs + [b];
    }
  }

  lemma {:induction false} SortIsStable(blocks: seq<Block>, epoch: nat, round: nat)
    ensures Peers(SortBlocks(blocks), epoch, round) == Peers(blocks, epoch, round)
  {
    if blocks != [] {
      var n := |blocks| - 1;
      var front := SortBlocks(blocks[..n]);
      SortIsStable(blocks[..n], epoch, round);
      InsertSortedStable(front, blocks[n], epoch, round);
      assert (front + [blocks[n]])[..|front|] == front;
    }
  }

  /** The sort is ascending by epoch and round, keeps every block as often as it was, and
      leaves blocks of one epoch and round in the order they had. */
  lemma SortBlocksCorrect(blocks: seq<Block>)
    ensures Ascending(SortBlocks(blocks))
    ensures multiset(SortBlocks(blocks)) == multiset(blocks)
    ensures forall epoch, round :: Peers(SortBlocks(blocks), epoch, round) == Peers(blocks, epoch, round)
  {
    SortIsSorted(blocks);
    OrderInFields(SortBlocks(blocks));
    forall epoch, round ensures Peers(SortBlocks(blocks), epoch, round) == Peers(blocks, epoch, round) {
      SortIsStable(blocks, epoch, round);
    }
  }

  function Position(blocks: seq<Block>, id: HashValue): (r: Option<nat>)
    ensures r.Some? ==> r.value < |blocks| && blocks[r.value].id == id
    ensures r.Some? ==> forall i :: 0 <= i < r.value ==> blocks[i].id != id
    ensures r.None? ==> id !in Ids(blocks)
  {
    if blocks == [] then None
    else if blocks[0].id == id then Some(0)
    else
      var r := Position(blocks[1..], id);
      assert forall b :: b in blocks <==> b == blocks[0] || b in blocks[1..];
      if r.Some? then Some(r.value + 1) else None
  }

  /** `q` is the first of `qcs` that certifies `id`, or that commits it. */
  ghost predicate FirstCertifying(qcs: seq<QuorumCert>, id: HashValue, q: QuorumCert) {
    exists i :: 0 <= i < |qcs| && qcs[i] == q && q.certified == id && forall j :: 0 <= j < i ==> qcs[j].certified != id
  }

  ghost predicate FirstCommitting(qcs: seq<QuorumCert>, id: HashValue, q: QuorumCert) {
    exists i :: 0 <= i < |qcs| && qcs[i] == q && q.commit.id == id && forall j :: 0 <= j < i ==> qcs[j].commit.id != id
  }

  function FindCertifying(qcs: seq<QuorumCert>, id: HashValue): (r: Option<QuorumCert>)
    ensures r.Some? ==> r.value in qcs && FirstCertifying(qcs, id, r.value)
    ensures r.None? ==> forall q :: q in qcs ==> q.certified != id
  {
    if qcs == [] then None
    else if qcs[0].certified == id then Some(qcs[0])
    else
      var r := FindCertifying(qcs[1..], id);
      assert r.Some? ==> FirstCertifying(qcs, id, r.value) by {
        if r.Some? {
          var i :| 0 <= i < |qcs[1..]| && qcs[1..][i] == r.value && r.value.certified == id
            && forall j :: 0 <= j < i ==> qcs[1..][j].certified != id;
          assert qcs[i + 1] == r.value && forall j :: 0 <= j < i + 1 ==> j == 0 || qcs[j] == qcs[1..][j - 1];
        }
      }
      r
  }

  function FindCommitting(qcs: seq<QuorumCert>, id: HashValue): (r: Option<QuorumCert>)
    ensures r.Some? ==> r.value in qcs && FirstCommitting(qcs, id, r.value)
    ensures r.None? ==> forall q :: q in qcs ==> q.commit.id != id
  {
    if qcs == [] then None
    else if qcs[0].commit.id == id then Some(qcs[0])
    else
      var r := FindCommitting(qcs[1..], id);
      assert r.Some? ==> FirstCommitting(qcs, id, r.value) by {
        if r.Some? {
          var i :| 0 <= i < |qcs[1..]| && qcs[1..][i] == r.value && r.value.commit.id == id
            && forall j :: 0 <= j < i ==> qcs[1..][j].commit.id != id;
          assert qcs[i + 1] == r.value && forall j :: 0 <= j < i + 1 ==> j == 0 || qcs[j] == qcs[1..][j - 1];
        }
      }
      r
  }

  /** The latest ledger info: the block it commits, or, at the end of an epoch, the virtual
      genesis block of the next one with its certificate. */
  datatype LedgerInfo =
    | Commits(commit: BlockInfo)
    | EndsEpoch(genesis: Block, genesisCert: QuorumCert)

  /** The root block, the certificate of it, the one that orders it, and the latter with the
      executed state of the latest ledger info. */
  datatype RootInfo = RootInfo(block: Block, cert: QuorumCert, orderedCert: QuorumCert, commitCert: QuorumCert)

  datatype Recovered = Recovered(
    root: RootInfo, blocks: seq<Block>, qcs: seq<QuorumCert>, toPrune: set<HashValue>,
    lastVote: Option<Vote>, highestTimeout: Option<TimeoutCert>)

  /** `Inconsistent` is the panic on a commit that does not match what was ordered. */
  datatype Error = RootMissing | RootCertMissing | RootLedgerInfoMissing | Inconsistent

  type Result<T> = Wrappers.Result<T, Error>

  function RootId(li: LedgerInfo): HashValue {
    match li
    case Commits(commit) => commit.id
    case EndsEpoch(genesis, _) => genesis.id
  }

  function LatestCommit(li: LedgerInfo): BlockInfo {
    match li
    case Commits(commit) => commit
    case EndsEpoch(_, cert) => cert.commit
  }

  function AllBlocks(li: LedgerInfo, blocks: seq<Block>): seq<Block> {
    if li.EndsEpoch? then blocks + [li.genesis] else blocks
  }

  function AllCerts(li: LedgerInfo, qcs: seq<QuorumCert>): seq<QuorumCert> {
    if li.EndsEpoch? then qcs + [li.genesisCert] else qcs
  }

  /** An ordered block and an executed one are the same; a reconfiguration may have moved its
      time back. */
  predicate MatchesOrdered(ordered: BlockInfo, executed: BlockInfo) {
    && ordered.epoch == executed.epoch && ordered.round == executed.round && ordered.id == executed.id
    && (ordered.timestamp == executed.timestamp
        || (ordered.timestamp > executed.timestamp && executed.reconfigures))
  }

  lemma FirstCommittingUnique(qcs: seq<QuorumCert>, id: HashValue, p: QuorumCert, q: QuorumCert)
    requires FirstCommitting(qcs, id, p) && FirstCommitting(qcs, id, q)
    ensures p == q
  {}

  /** There is a root: its block and a certificate of it are stored, and the first certificate
      that commits it names the same epoch, round and block as the latest commit, and the same
      time, or a later one if that commit reconfigures. */
  ghost predicate HasRoot(li: LedgerInfo, blocks: seq<Block>, qcs: seq<QuorumCert>) {
    var id, c := RootId(li), LatestCommit(li);
    && id in Ids(AllBlocks(li, blocks))
    && id in Certified(AllCerts(li, qcs))
    && exists q ::
         && FirstCommitting(AllCerts(li, qcs), id, q)
         && q.commit.epoch == c.epoch && q.commit.round == c.round && q.commit.id == c.id
         && (q.commit.timestamp == c.timestamp || (q.commit.timestamp > c.timestamp && c.reconfigures))
  }

  method FindRoot(li: LedgerInfo, blocks: seq<Block>, qcs: seq<QuorumCert>)
    returns (root: Result<RootInfo>, others: seq<Block>, certs: seq<QuorumCert>)
    ensures certs == if li.EndsEpoch? then qcs + [li.genesisCert] else qcs
    ensures root.Ok? <==> HasRoot(li, blocks, qcs)
    ensures root.Ok? ==> var all := if li.EndsEpoch? then blocks + [li.genesis] else blocks;
      && multiset(others) + multiset{root.value.block} == multiset(all) && Ascending(others)
    ensures root.Ok? ==> var id := if li.EndsEpoch? then li.genesis.id else li.commit.id;
      && root.value.block.id == id
      && FirstCertifying(certs, id, root.value.cert) && FirstCommitting(certs, id, root.value.orderedCert)
      && root.value.commitCert.certified == root.value.orderedCert.certified
      && root.value.commitCert.commit == if li.EndsEpoch? then li.genesisCert.commit else li.commit
  {
    var rootId := RootId(li);
    others, certs := AllBlocks(li, blocks), AllCerts(li, qcs);
    others := SortBlocks(others);
    SortBlocksCorrect(AllBlocks(li, blocks));
    SameMembers(others, AllBlocks(li, blocks));
    var at := Position(others, rootId);
    if at.None? {
      return Err(RootMissing), others, certs;
    }
    var i, sorted := at.value, others;
    others := sorted[..i] + sorted[i + 1..];
    RemoveAt(sorted, i);
    assert sorted[i] in AllBlocks(li, blocks) && sorted[i].id in Ids(AllBlocks(li, blocks));
    var cert := FindCertifying(certs, rootId);
    if cert.None? {
      return Err(RootCertMissing), others, certs;
    }
    var orderedCert := FindCommitting(certs, rootId);
    if orderedCert.None? {
      return Err(RootLedgerInfoMissing), others, certs;
    }
    forall q | FirstCommitting(certs, rootId, q) ensures q == orderedCert.value {
      FirstCommittingUnique(certs, rootId, q, orderedCert.value);
    }
    if !MatchesOrdered(orderedCert.value.commit, LatestCommit(li)) {
      return Err(Inconsistent), others, certs;
    }
    var commitCert := QuorumCert(orderedCert.value.certified, LatestCommit(li));
    return Ok(RootInfo(sorted[i], cert.value, orderedCert.value, commitCert)), others, certs;
  }

  lemma RemoveAt(xs: seq<Block>, i: nat)
    requires Ascending(xs) && i < |xs|
    ensures var ys := xs[..i] + xs[i + 1..];
      Ascending(ys) && multiset(ys) + multiset{xs[i]} == multiset(xs)
  {
    var ys := xs[..i] + xs[i + 1..];
    forall j, k | 0 <= j < k < |ys|
      ensures ys[j].epoch < ys[k].epoch || (ys[j].epoch == ys[k].epoch && ys[j].round <= ys[k].round)
    {
      var j', k' := if j < i then j else j + 1, if k < i then k else k + 1;
      assert ys[j] == xs[j'] && ys[k] == xs[k'];
    }
    assert xs == xs[..i] + [xs[i]] + xs[i + 1..];
  }

  lemma SameMembers(xs: seq<Block>, ys: seq<Block>)
    requires multiset(xs) == multiset(ys)
    ensures forall b :: b in xs <==> b in ys
    ensures Ids(xs) == Ids(ys)
  {
    forall b ensures b in xs <==> b in ys {
      assert b in xs <==> b in multiset(xs);
      assert b in ys <==> b in multiset(ys);
    }
  }

  // ----- Recovery end to end -----

  /** A path through the root block can be cut where it first meets the root. */
  lemma {:induction false} CutAtRoot(all: seq<Block>, rest: seq<Block>, root: HashValue, p: seq<Block>)
    requires Chain(all, root, p) && p[0].id != root
    requires forall b :: b in all && b.id != root ==> b in rest
    ensures Descends(rest, root, p[0])
    decreases |p|
  {
    if i :| 0 <= i < |p| && p[i].id == root {
      assert p[i - 1].parent == root;
      assert Chain(all, root, p[..i]);
      CutAtRoot(all, rest, root, p[..i]);
      assert p[..i][0] == p[0];
    } else {
      assert Chain(rest, root, p);
    }
  }

  lemma DescentIgnoresRoot(all: seq<Block>, rest: seq<Block>, root: HashValue, b: Block)
    requires forall x :: x in rest <==> x in all && x.id != root
    ensures Descends(rest, root, b) <==> b.id != root && Descends(all, root, b)
  {
    if Descends(rest, root, b) {
      var p :| Chain(rest, root, p) && p[0] == b;
      assert Chain(all, root, p);
    }
    if b.id != root && Descends(all, root, b) {
      var p :| Chain(all, root, p) && p[0] == b;
      CutAtRoot(all, rest, root, p);
    }
  }

  lemma {:induction false} UniqueMember(blocks: seq<Block>, rest: seq<Block>, root: Block)
    requires UniqueIds(blocks) && multiset(rest) + multiset{root} == multiset(blocks)
    ensures forall x :: x in rest <==> x in blocks && x.id != root.id
  {
    forall x ensures x in rest <==> x in blocks && x.id != root.id {
      UniqueCount(blocks, x);
      UniqueCount(blocks, root);
      assert root in multiset(blocks);
      assert x in rest <==> x in multiset(rest);
      assert x in blocks <==> x in multiset(blocks);
      if x in blocks && x != root {
        var i :| 0 <= i < |blocks| && blocks[i] == x;
        var j :| 0 <= j < |blocks| && blocks[j] == root;
        assert x.id != root.id;
      }
    }
  }

  lemma {:induction false} UniqueCount(blocks: seq<Block>, x: Block)
    requires UniqueIds(blocks)
    ensures multiset(blocks)[x] <= 1
  {
    if blocks != [] {
      var n := |blocks| - 1;
      UniqueIdsPrefix(blocks);
      UniqueCount(blocks[..n], x);
      assert blocks == blocks[..n] + [blocks[n]];
      if x == blocks[n] {
        assert x !in blocks[..n];
      }
    }
  }

  /** The recovery constructor: find the root, then prune against it, and keep the last vote
      and the timeout certificate only if they are of the root's epoch. Whatever is stored, the
      result ascends, is in topological order and its certificates belong to it; when ids are
      unique it prunes exactly the stored ids outside the tree; and when, besides, stored parents
      are of an earlier epoch, or of an earlier round of the same one, it keeps exactly the
      descendants of the root. */
  method Recover(lastVote: Option<Vote>, li: LedgerInfo, blocks: seq<Block>, qcs: seq<QuorumCert>,
    highestTimeout: Option<TimeoutCert>) returns (r: Result<Recovered>)
    ensures r.Ok? <==> HasRoot(li, blocks, qcs)
    ensures r.Ok? ==> var epoch := r.value.root.block.epoch;
      && (r.value.lastVote.Some? <==> lastVote.Some? && lastVote.value.epoch == epoch)
      && (r.value.lastVote.Some? ==> r.value.lastVote == lastVote)
      && (r.value.highestTimeout.Some? <==> highestTimeout.Some? && highestTimeout.value.epoch == epoch)
      && (r.value.highestTimeout.Some? ==> r.value.highestTimeout == highestTimeout)
    ensures r.Ok? ==> var id := if li.EndsEpoch? then li.genesis.id else li.commit.id;
      && r.value.root.block.id == id && Ascending(r.value.blocks) && Topological(id, r.value.blocks)
      && (forall q :: q in r.value.qcs <==> q in AllCerts(li, qcs) && InTree(id, r.value.blocks, q.certified))
    ensures r.Ok? && UniqueIds(AllBlocks(li, blocks)) ==>
      r.value.toPrune ==
        Ids(AllBlocks(li, blocks)) + Certified(AllCerts(li, qcs)) - ({r.value.root.block.id} + Ids(r.value.blocks))
    ensures r.Ok? && UniqueIds(AllBlocks(li, blocks)) && ParentsEarlier(AllBlocks(li, blocks)) ==>
      forall b :: b in r.value.blocks <==>
        b.id != r.value.root.block.id && Descends(AllBlocks(li, blocks), r.value.root.block.id, b)
  {
    var root, others, certs := FindRoot(li, blocks, qcs);
    if root.Err? {
      return Err(root.error);
    }
    var rootId := root.value.block.id;
    var keptBlocks, keptCerts, toPrune := FindBlocksToPrune(rootId, others, certs);
    KeptTopological(rootId, others);
    KeptAscending(rootId, others);
    forall q ensures q in keptCerts <==> q in certs && InTree(rootId, keptBlocks, q.certified) {
      KeptCertsMember(rootId, keptBlocks, certs, q);
    }
    if UniqueIds(AllBlocks(li, blocks)) {
      PrunesTheRest(AllBlocks(li, blocks), others, root.value.block, certs);
      if ParentsEarlier(AllBlocks(li, blocks)) {
        KeepsTheDescendants(AllBlocks(li, blocks), others, root.value.block);
      }
    }
    var epoch := root.value.block.epoch;
    var vote := if lastVote.Some? && lastVote.value.epoch == epoch then lastVote else None;
    var timeout := if highestTimeout.Some? && highestTimeout.value.epoch == epoch then highestTimeout else None;
    return Ok(Recovered(root.value, keptBlocks, keptCerts, toPrune, vote, timeout));
  }

  lemma PrunesTheRest(all: seq<Block>, rest: seq<Block>, root: Block, qcs: seq<QuorumCert>)
    requires UniqueIds(all) && multiset(rest) + multiset{root} == multiset(all)
    ensures Pruned(root.id, rest, qcs) == Ids(all) + Certified(qcs) - ({root.id} + Ids(Kept(root.id, rest)))
  {
    UniqueMember(all, rest, root);
    UniqueIdsRest(all, rest, root);
    PrunedExactly(root.id, rest, qcs);
    assert Ids(all) - {root.id} == Ids(rest);
  }

  lemma KeepsTheDescendants(all: seq<Block>, rest: seq<Block>, root: Block)
    requires UniqueIds(all) && ParentsEarlier(all)
    requires Ascending(rest) && multiset(rest) + multiset{root} == multiset(all)
    ensures forall b :: b in Kept(root.id, rest) <==> b.id != root.id && Descends(all, root.id, b)
  {
    UniqueMember(all, rest, root);
    forall b ensures b in Kept(root.id, rest) <==> b.id != root.id && Descends(all, root.id, b) {
      KeptIsDescendants(root.id, rest, b);
      DescentIgnoresRoot(all, rest, root.id, b);
    }
  }

  lemma OccursTwice(xs: seq<Block>, i: nat, j: nat)
    requires i < j < |xs| && xs[i] == xs[j]
    ensures multiset(xs)[xs[i]] >= 2
  {
    assert xs == xs[..j] + xs[j..];
    assert xs[..j][i] == xs[i] && xs[j..][0] == xs[i];
    assert xs[i] in multiset(xs[..j]) && xs[i] in multiset(xs[j..]);
  }

  lemma UniqueIdsRest(all: seq<Block>, rest: seq<Block>, root: Block)
    requires UniqueIds(all) && multiset(rest) + multiset{root} == multiset(all)
    ensures UniqueIds(rest)
  {
    forall i, j | 0 <= i < j < |rest| ensures rest[i].id != rest[j].id {
      var x, y := rest[i], rest[j];
      UniqueCount(all, x);
      if x == y {
        OccursTwice(rest, i, j);
        assert false;
      }
      assert x in multiset(rest) && y in multiset(rest);
      assert x in multiset(all) && y in multiset(all);
      var a :| 0 <= a < |all| && all[a] == x;
      var b :| 0 <= b < |all| && all[b] == y;
      assert all[a].id != all[b].id;
    }
  }
}
