/**
 * Walking a cluster chain through the file allocation table
 * (`follow_fat_chain`). The FAT is the sequence of 32-bit entries read from
 * disk; the callback is replaced by the list of cluster numbers it would be
 * called with, in order.
 */
module FatChain {
  import opened Bytes

  /** `& 0xFFFFFFF` keeps the low 28 bits of an entry, i.e. the value modulo 2^28. */
  const ENTRY_MODULUS: int := 0x1000_0000
  /** Masked entries at or above this value mark the end of a chain. */
  const END_OF_CHAIN: int := 0x0FFF_FFF8

  /** A FAT entry with its four upper bits cleared. */
  function Masked(entry: u32): (r: nat)
    ensures r < ENTRY_MODULUS
    ensures entry < ENTRY_MODULUS ==> r == entry
  {
    entry % ENTRY_MODULUS
  }

  /** Cluster `k` is inside the table and its masked entry is an end-of-chain marker. */
  predicate EndsChain(fat: seq<u32>, k: nat) {
    k < |fat| && Masked(fat[k]) >= END_OF_CHAIN
  }

  /**
   * What the loop as written visits: `start`, `start + 1`, ... up to and
   * including the first cluster whose masked entry ends a chain.
   */
  ghost predicate AsWrittenVisits(fat: seq<u32>, start: nat, visited: seq<nat>) {
    && |visited| >= 1
    && (forall i :: 0 <= i < |visited| ==> visited[i] == start + i)
    && (forall i :: 0 <= i < |visited| - 1 ==> visited[i] < |fat| && Masked(fat[visited[i]]) < END_OF_CHAIN)
    && EndsChain(fat, visited[|visited| - 1])
  }

  /**
   * `follow_fat_chain` as written: the do-while calls the callback before
   * testing, and advances with `offset++`. Some end marker must lie at or
   * after `start`, or the loop reads past the table.
   */
  method FollowFatChain(fat: seq<u32>, start: nat) returns (visited: seq<nat>)
    requires exists k :: start <= k && EndsChain(fat, k)
    ensures AsWrittenVisits(fat, start, visited)
  {
    ghost var last :| start <= last && EndsChain(fat, last);
    var offset := start;
    visited := [];
    while true
      invariant start <= offset <= last
      invariant |visited| == offset - start
      invariant forall i :: 0 <= i < |visited| ==> visited[i] == start + i
      invariant forall i :: 0 <= i < |visited| ==> visited[i] < |fat| && Masked(fat[visited[i]]) < END_OF_CHAIN
      decreases last - offset
    {
      var entry := Masked(fat[offset]);
      visited := visited + [offset];
      offset := offset + 1;
      if entry >= END_OF_CHAIN {
        break;
      }
    }
  }

  // ----- Following the links, as the FAT format defines chains -----

  /**
   * `clusters` follows the links from `start`: each cluster is in the table
   * and each next cluster is the masked entry of the previous one, which is
   * not an end-of-chain marker.
   */
  ghost predicate Walk(fat: seq<u32>, start: nat, clusters: seq<nat>) {
    && |clusters| >= 1
    && clusters[0] == start
    && (forall i :: 0 <= i < |clusters| ==> clusters[i] < |fat|)
    && (forall i :: 0 <= i < |clusters| - 1 ==>
          Masked(fat[clusters[i]]) < END_OF_CHAIN && clusters[i + 1] == Masked(fat[clusters[i]]))
  }

  /** `clusters` is the chain starting at `start`: a walk whose last entry ends the chain. */
  ghost predicate IsChain(fat: seq<u32>, start: nat, clusters: seq<nat>) {
    Walk(fat, start, clusters) && Masked(fat[clusters[|clusters| - 1]]) >= END_OF_CHAIN
  }

  /** Following one more link inside the table extends a walk. */
  lemma WalkStep(fat: seq<u32>, start: nat, visited: seq<nat>, next: seq<nat>)
    requires Walk(fat, start, visited)
    requires Masked(fat[visited[|visited| - 1]]) < END_OF_CHAIN
    requires Masked(fat[visited[|visited| - 1]]) < |fat|
    requires next == visited + [Masked(fat[visited[|visited| - 1]])]
    ensures Walk(fat, start, next)
  {
  }

  datatype ChainResult = Chain(clusters: seq<nat>) | CorruptChain

  /**
   * The walk as intended: follow each masked entry, and report a corrupt
   * chain instead of reading outside the table or looping forever.
   */
  method FollowChainIntended(fat: seq<u32>, start: nat) returns (r: ChainResult)
    ensures r.Chain? ==> IsChain(fat, start, r.clusters)
    ensures r.CorruptChain? ==> forall c :: !IsChain(fat, start, c)
  {
    if start >= |fat| {
      return CorruptChain;
    }
    var visited: seq<nat> := [start];
    var current := start;
    while true
      invariant Walk(fat, start, visited) && |visited| <= |fat|
      invariant current == visited[|visited| - 1]
      invariant forall c :: IsChain(fat, start, c) ==> |visited| <= |c| && visited == c[..|visited|]
      decreases |fat| - |visited|
    {
      var entry := Masked(fat[current]);
      if entry >= END_OF_CHAIN {
        return Chain(visited);
      }
      if entry >= |fat| || |visited| == |fat| {
        NoChainPastTable(fat, start, visited);
        return CorruptChain;
      }
      ChainsExtend(fat, start, visited);
      WalkStep(fat, start, visited, visited + [entry]);
      visited := visited + [entry];
      current := entry;
    }
  }

  /**
   * A walk that agrees with every chain so far and has not met an end
   * marker agrees with every chain one step further.
   */
  lemma ChainsExtend(fat: seq<u32>, start: nat, visited: seq<nat>)
    requires 1 <= |visited| && visited[|visited| - 1] < |fat|
    requires Masked(fat[visited[|visited| - 1]]) < END_OF_CHAIN
    requires forall c :: IsChain(fat, start, c) ==> |visited| <= |c| && visited == c[..|visited|]
    ensures var next := visited + [Masked(fat[visited[|visited| - 1]])];
      forall c :: IsChain(fat, start, c) ==> |next| <= |c| && next == c[..|next|]
  {
    forall c | IsChain(fat, start, c)
      ensures |visited| + 1 <= |c| && visited + [Masked(fat[visited[|visited| - 1]])] == c[..|visited| + 1]
    {
      ChainPrefixStep(fat, start, visited, c);
    }
  }

  /**
   * A walk that agrees with every chain so far cannot go on when the next
   * link leaves the table or the walk already has as many clusters as the
   * table: then there is no chain at all.
   */
  lemma NoChainPastTable(fat: seq<u32>, start: nat, visited: seq<nat>)
    requires 1 <= |visited| && visited[|visited| - 1] < |fat|
    requires Masked(fat[visited[|visited| - 1]]) < END_OF_CHAIN
    requires Masked(fat[visited[|visited| - 1]]) >= |fat| || |visited| == |fat|
    requires forall c :: IsChain(fat, start, c) ==> |visited| <= |c| && visited == c[..|visited|]
    ensures forall c :: !IsChain(fat, start, c)
  {
    forall c | IsChain(fat, start, c)
      ensures false
    {
      ChainPrefixStep(fat, start, visited, c);
      ChainBounded(fat, start, c);
    }
  }

  /** A walk that agrees with a chain so far and has not met its end goes on along it. */
  lemma ChainPrefixStep(fat: seq<u32>, start: nat, visited: seq<nat>, c: seq<nat>)
    requires IsChain(fat, start, c)
    requires 1 <= |visited| <= |c| && visited == c[..|visited|]
    requires Masked(fat[visited[|visited| - 1]]) < END_OF_CHAIN
    ensures |visited| < |c| && c[|visited|] == Masked(fat[visited[|visited| - 1]])
  {
    assert visited[|visited| - 1] == c[|visited| - 1];
  }

  /** A chain never visits a cluster twice: a repeated cluster would repeat forever. */
  lemma {:induction false} ChainDistinct(fat: seq<u32>, start: nat, c: seq<nat>, i: nat, j: nat)
    requires IsChain(fat, start, c)
    requires i < j < |c|
    ensures c[i] != c[j]
    decreases |c| - j
  {
    if c[i] == c[j] && j < |c| - 1 {
      assert c[i + 1] == c[j + 1];
      ChainDistinct(fat, start, c, i + 1, j + 1);
    }
  }

  /** A chain is no longer than the table it lives in. */
  lemma ChainBounded(fat: seq<u32>, start: nat, c: seq<nat>)
    requires IsChain(fat, start, c)
    ensures |c| <= |fat|
  {
    forall i, j | 0 <= i < j < |c|
      ensures c[i] != c[j]
    {
      ChainDistinct(fat, start, c, i, j);
    }
    DistinctBelow(c, |fat|);
  }

  /** Pigeonhole: distinct numbers below `n` are at most `n` of them. */
  lemma {:induction false} DistinctBelow(s: seq<nat>, n: nat)
    requires forall i :: 0 <= i < |s| ==> s[i] < n
    requires forall i, j :: 0 <= i < j < |s| ==> s[i] != s[j]
    ensures |s| <= n
    decreases |s|
  {
    if s != [] {
      var x := s[|s| - 1];
      var front := s[..|s| - 1];
      // Rename the value n - 1 to x: the front then lies below n - 1.
      var renamed := seq(|front|, i requires 0 <= i < |front| => if front[i] == n - 1 then x else front[i]);
      assert forall i :: 0 <= i < |front| ==> front[i] != x;
      DistinctBelow(renamed, n - 1);
    }
  }

  // ----- Counterexample: `offset++` does not follow links (see README, Findings) -----

  /** Cluster 2 links to cluster 5; clusters 3 and 5 are ends of chains. */
  const LinkedFat: seq<u32> := [0, 0, 5, 0x0FFF_FFFF, 0, 0x0FFF_FFFF]

  lemma OffsetIncrementSkipsLink(visited: seq<nat>)
    requires AsWrittenVisits(LinkedFat, 2, visited)
    ensures visited == [2, 3]
    ensures !IsChain(LinkedFat, 2, visited) && IsChain(LinkedFat, 2, [2, 5])
  {
    assert visited[0] == 2;
    if |visited| > 1 {
      assert visited[1] == 3;
      assert Masked(LinkedFat[3]) >= END_OF_CHAIN;
    }
  }
}
