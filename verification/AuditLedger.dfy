/**
 governance/audit_ledger.py: the hash-chained ledger. The file is a field holding the list of blocks as
 they are loaded from it, or None while it does not exist; the digest of a block without its own hash
 is a function that is a parameter of the model.
 */
module AuditLedger {
  import opened Prelude

  type Hash = string

  /** What is hashed: the block without its own hash. Timestamp and event are their JSON texts, with sorted
      keys. */
  datatype Content = Content(index: int, timestamp: string, event: string, prevHash: Hash)

  datatype Block = Block(content: Content, hash: Hash)

  const NO_HASH: Hash := seq(64, _ => '0')

  const GENESIS_EVENT := "{\"type\": \"GENESIS\"}"

  /** Block `i` names the hash of the one before and carries its own digest. */
  ghost predicate LinkAt(digest: Content -> Hash, ledger: seq<Block>, i: int)
    requires 0 < i < |ledger|
  {
    ledger[i].content.prevHash == ledger[i - 1].hash && ledger[i].hash == digest(ledger[i].content)
  }

  ghost predicate Chained(digest: Content -> Hash, ledger: seq<Block>) {
    forall i :: 0 < i < |ledger| ==> LinkAt(digest, ledger, i)
  }

  ghost predicate Indexed(ledger: seq<Block>) {
    forall i :: 0 <= i < |ledger| ==> ledger[i].content.index == i
  }

  function Genesis(digest: Content -> Hash, now: string): Block {
    var c := Content(0, now, GENESIS_EVENT, NO_HASH);
    Block(c, digest(c))
  }

  /** The block made for an event. */
  function NewBlock(digest: Content -> Hash, last: Block, event: string, now: string): Block {
    var c := Content(last.content.index + 1, now, event, last.hash);
    Block(c, digest(c))
  }

  /** The first block has index 0, names no block before it, holds the event of its kind, and carries its own
      digest. */
  lemma GenesisIs(digest: Content -> Hash, now: string)
    ensures var g := Genesis(digest, now);
            && g.content.index == 0 && g.content.timestamp == now
            && g.content.event == "{\"type\": \"GENESIS\"}"
            && |g.content.prevHash| == 64 && (forall i :: 0 <= i < 64 ==> g.content.prevHash[i] == '0')
            && g.hash == digest(g.content)
  {
  }

  /** What one call of `append_event` is given. `reloaded` is the text of the event as the file gives it back:
      keys of a nested dictionary that are not strings become strings, which sort differently. */
  datatype Append = Append(event: string, reloaded: string, now: string)

  /** The block that is loaded from the file afterwards. */
  function NextBlock(digest: Content -> Hash, last: Block, a: Append): Block {
    var b := NewBlock(digest, last, a.event, a.now);
    b.(content := b.content.(event := a.reloaded))
  }

  class ImmutableAuditLedger {
    const digest: Content -> Hash
    var file: Option<seq<Block>>

    /** The constructor finds a file or creates one with the genesis block. */
    constructor (digest: Content -> Hash, existing: Option<seq<Block>>, now: string)
      ensures this.digest == digest
      ensures file == if existing.Some? then existing else Some([Genesis(digest, now)])
    {
      this.digest := digest;
      file := existing;
      new;
      EnsureLedgerExists(now);
    }

    method EnsureLedgerExists(now: string)
      modifies this
      ensures file == if old(file).Some? then old(file) else Some([Genesis(digest, now)])
    {
      if file.None? {
        var genesis := Block(Content(0, now, GENESIS_EVENT, NO_HASH), "");
        genesis := genesis.(hash := digest(genesis.content));
        file := Some([genesis]);
      }
    }

    /** The error is a ledger file that is missing or holds an empty list. */
    method AppendEvent(event: string, reloaded: string, now: string) returns (r: Option<Block>)
      modifies this
      ensures old(file).None? || old(file).value == [] ==> r == None && file == old(file)
      ensures old(file).Some? && old(file).value != [] ==>
                var ledger := old(file).value;
                && r == Some(NewBlock(digest, ledger[|ledger| - 1], event, now))
                && file == Some(ledger + [NextBlock(digest, ledger[|ledger| - 1], Append(event, reloaded, now))])
      ensures r.Some? ==> r.value.hash == digest(r.value.content)
      ensures r.Some? ==> r.value.content.timestamp == now && r.value.content.event == event
      ensures r.Some? ==>
                && old(file).Some? && file.Some? && |file.value| == |old(file).value| + 1
                && file.value[|old(file).value|] == r.value.(content := r.value.content.(event := reloaded))
    {
      if file.None? || file.value == [] {
        return None;
      }
      var ledger := file.value;
      var lastBlock := ledger[|ledger| - 1];
      var newBlock := Block(Content(lastBlock.content.index + 1, now, event, lastBlock.hash), "");
      newBlock := newBlock.(hash := digest(newBlock.content));
      var stored := newBlock.(content := newBlock.content.(event := reloaded));
      ledger := ledger + [stored];
      file := Some(ledger);
      r := Some(newBlock);
    }

    method VerifyIntegrity() returns (valid: bool)
      ensures valid <==> file.None? || Chained(digest, file.value)
    {
      if file.None? {
        return true;
      }
      var ledger := file.value;
      var i := 1;
      while i < |ledger|
        invariant 1 <= i
        invariant forall j :: 0 < j < i && j < |ledger| ==> LinkAt(digest, ledger, j)
      {
        var currentBlock, prevBlock := ledger[i], ledger[i - 1];
        assert LinkAt(digest, ledger, i) <==>
               currentBlock.content.prevHash == prevBlock.hash && currentBlock.hash == digest(currentBlock.content);
        if currentBlock.content.prevHash != prevBlock.hash {
          return false;
        }
        if currentBlock.hash != digest(currentBlock.content) {
          return false;
        }
        i := i + 1;
      }
      return true;
    }
  }

  // ---------- any sequence of appends ----------

  ghost predicate CollisionFree(digest: Content -> Hash) {
    forall a, b :: digest(a) == digest(b) ==> a == b
  }

  /** The file gives every event back as it was hashed. */
  ghost predicate AllStable(appends: seq<Append>) {
    forall k :: 0 <= k < |appends| ==> appends[k].event == appends[k].reloaded
  }

  ghost function Run(digest: Content -> Hash, ledger: seq<Block>, appends: seq<Append>): seq<Block>
    requires ledger != []
    ensures Run(digest, ledger, appends) != []
  {
    if appends == [] then ledger
    else
      var n := |appends| - 1;
      var before := Run(digest, ledger, appends[..n]);
      before + [NextBlock(digest, before[|before| - 1], appends[n])]
  }

  lemma SameLink(digest: Content -> Hash, a: seq<Block>, b: seq<Block>, i: int)
    requires 0 < i < |a| && i < |b| && a[i] == b[i] && a[i - 1].hash == b[i - 1].hash
    ensures LinkAt(digest, a, i) <==> LinkAt(digest, b, i)
  {
  }

  /** The file gives the block back with the digest it was written with. */
  ghost predicate DigestKept(digest: Content -> Hash, last: Block, a: Append) {
    digest(NextBlock(digest, last, a).content) == digest(NewBlock(digest, last, a.event, a.now).content)
  }

  lemma AppendKeeps(digest: Content -> Hash, ledger: seq<Block>, a: Append)
    requires ledger != []
    ensures Chained(digest, ledger + [NextBlock(digest, ledger[|ledger| - 1], a)])
       <==> Chained(digest, ledger) && DigestKept(digest, ledger[|ledger| - 1], a)
    ensures Indexed(ledger) ==> Indexed(ledger + [NextBlock(digest, ledger[|ledger| - 1], a)])
  {
    var longer := ledger + [NextBlock(digest, ledger[|ledger| - 1], a)];
    assert LinkAt(digest, longer, |ledger|) <==> DigestKept(digest, ledger[|ledger| - 1], a);
    forall i | 0 < i < |ledger|
      ensures LinkAt(digest, ledger, i) <==> LinkAt(digest, longer, i)
    {
      SameLink(digest, ledger, longer, i);
    }
    assert Chained(digest, longer) ==> forall i :: 0 < i < |ledger| ==> LinkAt(digest, longer, i);
  }

  /** Appending keeps the old ledger as a prefix, and block i keeps index i. When the file gives every event
      back as it was hashed, an intact chain stays intact; a broken one is never mended. */
  lemma {:induction false} RunKeeps(digest: Content -> Hash, ledger: seq<Block>, appends: seq<Append>)
    requires ledger != []
    ensures ledger <= Run(digest, ledger, appends)
    ensures |Run(digest, ledger, appends)| == |ledger| + |appends|
    ensures Chained(digest, Run(digest, ledger, appends)) ==> Chained(digest, ledger)
    ensures AllStable(appends) && Chained(digest, ledger) ==> Chained(digest, Run(digest, ledger, appends))
    ensures Indexed(ledger) ==> Indexed(Run(digest, ledger, appends))
  {
    if appends != [] {
      var n := |appends| - 1;
      RunKeeps(digest, ledger, appends[..n]);
      hide Chained, Indexed;
      AppendKeeps(digest, Run(digest, ledger, appends[..n]), appends[n]);
    }
  }

  /** Block `i` holds what the call was given, and names the hash of the block before. */
  ghost predicate Holds(ledger: seq<Block>, i: int, a: Append) {
    && 0 < i < |ledger|
    && ledger[i].content.event == a.reloaded && ledger[i].content.timestamp == a.now
    && ledger[i].content.prevHash == ledger[i - 1].hash
  }

  /** Every call of a run has its block, in order. */
  lemma {:induction false} RunHolds(digest: Content -> Hash, ledger: seq<Block>, appends: seq<Append>, k: nat)
    requires ledger != [] && k < |appends|
    ensures Holds(Run(digest, ledger, appends), |ledger| + k, appends[k])
    decreases |appends|
  {
    var n := |appends| - 1;
    RunKeeps(digest, ledger, appends[..n]);
    if k < n {
      RunHolds(digest, ledger, appends[..n], k);
    }
  }

  /** From genesis any events that the file gives back as they were hashed verify, and block i has index i. */
  lemma FromGenesis(digest: Content -> Hash, now: string, appends: seq<Append>)
    ensures AllStable(appends) ==> Chained(digest, Run(digest, [Genesis(digest, now)], appends))
    ensures Indexed(Run(digest, [Genesis(digest, now)], appends))
  {
    RunKeeps(digest, [Genesis(digest, now)], appends);
  }

  lemma DigestKeptIff(digest: Content -> Hash, last: Block, a: Append)
    requires CollisionFree(digest)
    ensures DigestKept(digest, last, a) <==> a.event == a.reloaded
  {
  }

  /** With a collision-free digest the ledger verifies after any appends if and only if it did before and the
      file gives every event back as it was hashed. */
  lemma {:induction false} RunChainedIff(digest: Content -> Hash, ledger: seq<Block>, appends: seq<Append>)
    requires CollisionFree(digest) && ledger != []
    ensures Chained(digest, Run(digest, ledger, appends)) <==> Chained(digest, ledger) && AllStable(appends)
  {
    if appends != [] {
      var n := |appends| - 1;
      var before := Run(digest, ledger, appends[..n]);
      RunChainedIff(digest, ledger, appends[..n]);
      StableGrows(appends);
      hide Chained, CollisionFree, AllStable;
      AppendKeeps(digest, before, appends[n]);
      DigestKeptIff(digest, before[|before| - 1], appends[n]);
    }
  }

  lemma StableGrows(appends: seq<Append>)
    requires appends != []
    ensures var n := |appends| - 1;
            AllStable(appends) <==> AllStable(appends[..n]) && appends[n].event == appends[n].reloaded
  {
    var n := |appends| - 1;
    assert AllStable(appends[..n]) ==> forall k :: 0 <= k < n ==> appends[..n][k] == appends[k];
    if AllStable(appends) {
      assert forall k :: 0 <= k < n ==> appends[..n][k] == appends[k];
    }
  }

  // ---------- what a verified chain commits to ----------

  /** Two ledgers of one length that agree on every block from index 1 on, and on the hash of block 0. */
  ghost predicate AgreeAfterGenesis(a: seq<Block>, b: seq<Block>) {
    && |a| == |b| > 0
    && a[0].hash == b[0].hash
    && forall i :: 0 < i < |a| ==> a[i] == b[i]
  }

  /** The end of the ledger is not covered: cutting blocks off leaves an intact chain. */
  lemma TruncationIsNotNoticed(digest: Content -> Hash, ledger: seq<Block>, n: nat)
    requires Chained(digest, ledger) && n <= |ledger|
    ensures Chained(digest, ledger[..n])
  {
    forall i | 0 < i < n
      ensures LinkAt(digest, ledger[..n], i)
    {
      SameLink(digest, ledger, ledger[..n], i);
      assert LinkAt(digest, ledger, i);
    }
  }

  /** The two ledgers hold different contents with one digest at the same place. */
  ghost predicate CollideAt(digest: Content -> Hash, a: seq<Block>, b: seq<Block>, i: int) {
    0 < i < |a| && i < |b| && a[i].content != b[i].content && digest(a[i].content) == digest(b[i].content)
  }

  /** For any digest: two intact ledgers of one length and one last hash agree from block 1 on, or
      exhibit a collision of the digest. */
  lemma {:induction false} SameLastHash(digest: Content -> Hash, a: seq<Block>, b: seq<Block>)
    requires |a| == |b| > 0 && Chained(digest, a) && Chained(digest, b) && a[|a| - 1].hash == b[|b| - 1].hash
    ensures AgreeAfterGenesis(a, b) || exists i :: CollideAt(digest, a, b, i)
    decreases |a|
  {
    var n := |a| - 1;
    if n > 0 {
      assert LinkAt(digest, a, n) && LinkAt(digest, b, n);
      if a[n].content != b[n].content {
        assert CollideAt(digest, a, b, n);
      } else {
        TruncationIsNotNoticed(digest, a, n);
        TruncationIsNotNoticed(digest, b, n);
        SameLastHash(digest, a[..n], b[..n]);
        if AgreeAfterGenesis(a[..n], b[..n]) {
          AgreementGrows(a, b);
        } else {
          var i :| CollideAt(digest, a[..n], b[..n], i);
          assert CollideAt(digest, a, b, i);
        }
      }
    }
  }

  /** With a collision-free digest the last hash commits to everything from block 1 on, both ways. */
  lemma LastHashCommits(digest: Content -> Hash, a: seq<Block>, b: seq<Block>)
    requires CollisionFree(digest) && |a| == |b| > 0 && Chained(digest, a) && Chained(digest, b)
    ensures a[|a| - 1].hash == b[|b| - 1].hash <==> AgreeAfterGenesis(a, b)
  {
    if a[|a| - 1].hash == b[|b| - 1].hash {
      SameLastHash(digest, a, b);
    }
  }

  lemma AgreementGrows(a: seq<Block>, b: seq<Block>)
    requires |a| == |b| > 1 && AgreeAfterGenesis(a[..|a| - 1], b[..|b| - 1]) && a[|a| - 1] == b[|b| - 1]
    ensures AgreeAfterGenesis(a, b)
  {
    var n := |a| - 1;
    forall i | 0 < i < |a|
      ensures a[i] == b[i]
    {
      if i < n {
        assert a[..n][i] == b[..n][i];
      }
    }
  }

  /** The block names the hash of the last block of `front` and carries its own digest. */
  ghost predicate Continues(digest: Content -> Hash, front: seq<Block>, block: Block) {
    front == [] || (block.content.prevHash == front[|front| - 1].hash && block.hash == digest(block.content))
  }

  /** Replacing one block of an intact ledger by another is noticed if and only if: for a block in the
      middle, always; for a first block that others follow, when its hash changes; for the last
      block, when it does not continue the ledger before it. */
  lemma TamperNoticedIff(digest: Content -> Hash, ledger: seq<Block>, k: nat, block: Block)
    requires CollisionFree(digest) && Chained(digest, ledger) && k < |ledger| && block != ledger[k]
    ensures !Chained(digest, ledger[k := block]) <==>
            if k == |ledger| - 1 then !Continues(digest, ledger[..k], block)
            else k > 0 || block.hash != ledger[0].hash
  {
    if k == |ledger| - 1 {
      LastReplaced(digest, ledger, block);
    } else if k > 0 {
      MiddleReplaced(digest, ledger, k, block);
    } else {
      FirstReplaced(digest, ledger, block);
    }
  }

  lemma LastReplaced(digest: Content -> Hash, ledger: seq<Block>, block: Block)
    requires Chained(digest, ledger) && ledger != []
    ensures Chained(digest, ledger[|ledger| - 1 := block]) <==> Continues(digest, ledger[..|ledger| - 1], block)
  {
    var n := |ledger| - 1;
    var changed := ledger[n := block];
    if n > 0 {
      assert LinkAt(digest, changed, n) <==> Continues(digest, ledger[..n], block);
    }
    forall i | 0 < i < n
      ensures LinkAt(digest, changed, i)
    {
      assert LinkAt(digest, ledger, i);
      SameLink(digest, ledger, changed, i);
    }
  }

  lemma MiddleReplaced(digest: Content -> Hash, ledger: seq<Block>, k: nat, block: Block)
    requires CollisionFree(digest) && Chained(digest, ledger) && 0 < k < |ledger| - 1 && block != ledger[k]
    ensures !Chained(digest, ledger[k := block])
  {
    var changed := ledger[k := block];
    assert LinkAt(digest, ledger, k) && LinkAt(digest, ledger, k + 1);
    assert LinkAt(digest, changed, k + 1) ==> block.hash == ledger[k].hash;
    assert LinkAt(digest, changed, k) ==> block.hash == digest(block.content);
  }

  lemma FirstReplaced(digest: Content -> Hash, ledger: seq<Block>, block: Block)
    requires Chained(digest, ledger) && |ledger| > 1
    ensures Chained(digest, ledger[0 := block]) <==> block.hash == ledger[0].hash
  {
    var changed := ledger[0 := block];
    assert LinkAt(digest, ledger, 1);
    assert LinkAt(digest, changed, 1) <==> block.hash == ledger[0].hash;
    SameTail(digest, ledger, changed);
  }

  /** Everything from any index on can be cut off and written anew: whatever is appended to a prefix of an
      intact ledger verifies. */
  lemma RewrittenSuffixNotNoticed(digest: Content -> Hash, ledger: seq<Block>, k: nat, appends: seq<Append>)
    requires Chained(digest, ledger) && 0 < k <= |ledger| && AllStable(appends)
    ensures Chained(digest, Run(digest, ledger[..k], appends))
    ensures ledger[..k] <= Run(digest, ledger[..k], appends)
  {
    TruncationIsNotNoticed(digest, ledger, k);
    RunKeeps(digest, ledger[..k], appends);
  }

  /** The links from index 2 on do not look at block 0. */
  lemma SameTail(digest: Content -> Hash, a: seq<Block>, b: seq<Block>)
    requires Chained(digest, a) && |a| == |b| && forall i :: 0 < i < |a| ==> a[i] == b[i]
    ensures forall i :: 1 < i < |b| ==> LinkAt(digest, b, i)
  {
    forall i | 1 < i < |b|
      ensures LinkAt(digest, b, i)
    {
      SameLink(digest, a, b, i);
      assert LinkAt(digest, a, i);
    }
  }

  /** The content of block 0 is not covered: it can be rewritten under its old hash. */
  lemma GenesisIsNotCovered(digest: Content -> Hash, ledger: seq<Block>, content: Content)
    requires Chained(digest, ledger) && ledger != []
    ensures Chained(digest, ledger[0 := Block(content, ledger[0].hash)])
  {
    var changed := ledger[0 := Block(content, ledger[0].hash)];
    SameTail(digest, ledger, changed);
    if |ledger| > 1 {
      SameLink(digest, ledger, changed, 1);
      assert LinkAt(digest, ledger, 1);
    }
  }
}
