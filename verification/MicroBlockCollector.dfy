/** The directory node's collection state as it is updated in place. Every method is proved to take the
    step of `CollectionSpec`, so the facts about whole runs hold for the object. */
module MicroBlockCollector {
  import opened Wrappers
  import opened MultiSig
  import opened CollectionSpec

  /** Appending to a list that is not on record yet, or already partly written. */
  lemma WithRewardsAppend(r: Rewardees, epoch: nat, shardId: int, ps: seq<Point>, p: Point)
    requires !Recorded(r, epoch, shardId)
    ensures AppendReward(WithRewards(r, epoch, shardId, ps), epoch, shardId, p) == WithRewards(r, epoch, shardId, ps + [p])
  {
    var at := if epoch in r then r[epoch] else map[];
    assert at[shardId := ps][shardId := ps + [p]] == at[shardId := ps + [p]];
  }

  lemma RaiseAllAppend(rep: map<Point, nat>, ps: seq<Point>, p: Point)
    ensures RaiseAll(rep, ps + [p]) == Raise(RaiseAll(rep, ps), p)
  {
    assert (ps + [p])[..|ps|] == ps;
  }

  lemma SubmitAllAppend(n: Node, s: Store, arrivals: seq<Arrival>, k: nat)
    requires n.Valid() && k < |arrivals|
    ensures SubmitAll(n, s, arrivals[..k + 1]) == Submit(n, SubmitAll(n, s, arrivals[..k]), arrivals[k])
  {
    assert arrivals[..k + 1][..k] == arrivals[..k];
  }

  ghost function OnePerRound(p: Point, first: bool, second: bool): seq<Point> {
    (if first then [p] else []) + (if second then [p] else [])
  }

  /** `done` is what the members before number `i` earn. */
  ghost predicate Earned(keys: seq<Point>, b1: seq<bool>, b2: seq<bool>, i: nat, done: seq<Point>)
    requires |keys| == |b1| == |b2| && i <= |keys|
  {
    Rewards(keys, b1, b2) == done + Rewards(keys[i..], b1[i..], b2[i..])
  }

  lemma EarnedStep(keys: seq<Point>, b1: seq<bool>, b2: seq<bool>, i: nat, done: seq<Point>)
    requires |keys| == |b1| == |b2| && i < |keys| && Earned(keys, b1, b2, i, done)
    ensures Earned(keys, b1, b2, i + 1, done + OnePerRound(keys[i], b1[i], b2[i]))
  {
    assert keys[i..][1..] == keys[i + 1..] && b1[i..][1..] == b1[i + 1..] && b2[i..][1..] == b2[i + 1..];
    assert Rewards(keys[i..], b1[i..], b2[i..])
        == OnePerRound(keys[i], b1[i], b2[i]) + Rewards(keys[i + 1..], b1[i + 1..], b2[i + 1..]);
  }

  class Collector {
    const n: Node
    var epoch: nat
    var microBlocks: map<nat, seq<Block>>
    var coinbaseRewardees: Rewardees
    var nodeReputation: map<Point, nat>
    var missing: map<nat, seq<nat>>
    var buffer: map<nat, seq<Arrival>>
    var finalBlock: Option<seq<Info>>
    var stopRecv: bool

    function View(): Store
      reads this
    {
      Store(epoch, microBlocks, coinbaseRewardees, nodeReputation, missing, buffer, finalBlock, stopRecv)
    }

    constructor (n: Node, epoch: nat)
      ensures this.n == n && View() == Store(epoch, map[], map[], map[], map[], map[], Option.None, false)
    {
      this.n, this.epoch := n, epoch;
      microBlocks, coinbaseRewardees, nodeReputation := map[], map[], map[];
      missing, buffer, finalBlock, stopRecv := map[], map[], Option.None, false;
    }

    method RewardOnce(shardId: int, p: Point, ghost r: Rewardees, ghost rep: map<Point, nat>, ghost ps: seq<Point>)
      requires !Recorded(r, epoch, shardId)
      requires coinbaseRewardees == WithRewards(r, epoch, shardId, ps) && nodeReputation == RaiseAll(rep, ps)
      modifies this`coinbaseRewardees, this`nodeReputation
      ensures coinbaseRewardees == WithRewards(r, epoch, shardId, ps + [p]) && nodeReputation == RaiseAll(rep, ps + [p])
    {
      WithRewardsAppend(r, epoch, shardId, ps, p);
      RaiseAllAppend(rep, ps, p);
      coinbaseRewardees := AppendReward(coinbaseRewardees, epoch, shardId, p);
      if ReputationOf(nodeReputation, p) < MAX_REPUTATION {
        nodeReputation := nodeReputation[p := ReputationOf(nodeReputation, p) + 1];
      }
    }

    method RewardMember(shardId: int, p: Point, first: bool, second: bool,
                        ghost r: Rewardees, ghost rep: map<Point, nat>, ghost ps: seq<Point>)
      requires !Recorded(r, epoch, shardId)
      requires coinbaseRewardees == WithRewards(r, epoch, shardId, ps) && nodeReputation == RaiseAll(rep, ps)
      modifies this`coinbaseRewardees, this`nodeReputation
      ensures var ps' := ps + OnePerRound(p, first, second);
              coinbaseRewardees == WithRewards(r, epoch, shardId, ps') && nodeReputation == RaiseAll(rep, ps')
    {
      ghost var ps' := ps;
      if first {
        RewardOnce(shardId, p, r, rep, ps');
        ps' := ps' + [p];
      }
      if second {
        RewardOnce(shardId, p, r, rep, ps');
        ps' := ps' + [p];
      }
      assert ps' == ps + OnePerRound(p, first, second);
    }

    /** Walks the members and credits each for every round it signed. */
    method SaveCoinbaseCore(b1: seq<bool>, b2: seq<bool>, keys: seq<Point>, shardId: int) returns (ok: bool)
      modifies this`coinbaseRewardees, this`nodeReputation
      ensures ok == CoinbaseOk(old(coinbaseRewardees), keys, shardId, epoch, b1, b2)
      ensures View() == if ok then SaveCoinbase(old(View()), keys, shardId, b1, b2) else old(View())
    {
      if epoch in coinbaseRewardees && shardId in coinbaseRewardees[epoch] {
        return false;
      }
      if |keys| != |b1| || |keys| != |b2| {
        return false;
      }
      ghost var r, rep := coinbaseRewardees, nodeReputation;
      ghost var done: seq<Point> := [];
      var i := 0;
      while i < |keys|
        invariant 0 <= i <= |keys|
        invariant Earned(keys, b1, b2, i, done)
        invariant coinbaseRewardees == WithRewards(r, epoch, shardId, done) && nodeReputation == RaiseAll(rep, done)
      {
        EarnedStep(keys, b1, b2, i, done);
        RewardMember(shardId, keys[i], b1[i], b2[i], r, rep, done);
        done := done + OnePerRound(keys[i], b1[i], b2[i]);
        i := i + 1;
      }
      assert done == Rewards(keys, b1, b2);
      return true;
    }

    /** Puts a shard's block on record; the DS committee's is not rewarded here. */
    method SaveBlockCoinbase(b: Block) returns (ok: bool)
      requires b.shardId <= n.Shards()
      modifies this`coinbaseRewardees, this`nodeReputation
      ensures b.shardId == n.Shards() ==> ok && View() == old(View())
      ensures b.shardId < n.Shards() ==>
                && ok == CoinbaseOk(old(coinbaseRewardees), n.dir.shards[b.shardId], b.shardId, epoch, b.mb.cs1.bits, b.mb.cs2.bits)
                && View() == if ok then CoinbaseFor(n, old(View()), b) else old(View())
    {
      if b.shardId == n.Shards() {
        return true;
      }
      ok := SaveCoinbaseCore(b.mb.cs1.bits, b.mb.cs2.bits, n.dir.shards[b.shardId], b.shardId);
    }

    method Emplace(e: nat, b: Block)
      modifies this`microBlocks
      ensures View() == Insert(old(View()), e, b)
    {
      var at := if e in microBlocks then microBlocks[e] else [];
      var i := 0;
      while i < |at| && !at[i].SameAs(b)
        invariant 0 <= i <= |at| && microBlocks == old(microBlocks)
        invariant forall k :: 0 <= k < i ==> !at[k].SameAs(b)
      {
        i := i + 1;
      }
      microBlocks := microBlocks[e := if i < |at| then at else at + [b]];
    }

    method HasBlockOfShard(shardId: nat) returns (found: bool)
      ensures found == HasShard(View().Held(), shardId)
    {
      var at := if epoch in microBlocks then microBlocks[epoch] else [];
      var i := 0;
      while i < |at|
        invariant 0 <= i <= |at|
        invariant forall k :: 0 <= k < i ==> at[k].shardId != shardId
      {
        if at[i].shardId == shardId {
          return true;
        }
        i := i + 1;
      }
      return false;
    }

    method HasBlockWithHash(e: nat, hash: nat) returns (found: bool)
      ensures found == HasHash(View().HeldAt(e), hash)
    {
      var at := if e in microBlocks then microBlocks[e] else [];
      var i := 0;
      while i < |at|
        invariant 0 <= i <= |at|
        invariant forall k :: 0 <= k < i ==> at[k].hash != hash
      {
        if at[i].hash == hash {
          return true;
        }
        i := i + 1;
      }
      return false;
    }

    method ProcessMicroblockSubmissionFromShardCore(a: Arrival) returns (ok: bool)
      requires n.Valid()
      modifies this
      ensures View() == Submit(n, old(View()), a)
    {
      var b := a.block;
      if !a.checks.header || b.miner !in n.keyToShard || n.keyToShard[b.miner] != b.shardId {
        return false;
      }
      var verified := n.dir.VerifyMicroBlockCoSignature(b.mb, b.shardId);
      if !verified || stopRecv {
        return false;
      }
      var duplicate := HasBlockOfShard(b.shardId);
      if duplicate {
        return false;
      }
      var saved := SaveBlockCoinbase(b);
      if !saved || !a.checks.persisted || !a.checks.delta {
        return false;
      }
      Emplace(epoch, b);
      if |microBlocks[epoch]| == n.Shards() {
        stopRecv := true;
      }
      return true;
    }

    method ProcessBuffered(arrivals: seq<Arrival>)
      requires n.Valid()
      modifies this
      ensures View() == SubmitAll(n, old(View()), arrivals)
    {
      ghost var s := View();
      var k := 0;
      while k < |arrivals|
        invariant 0 <= k <= |arrivals| && View() == SubmitAll(n, s, arrivals[..k])
      {
        SubmitAllAppend(n, s, arrivals, k);
        var _ := ProcessMicroblockSubmissionFromShardCore(arrivals[k]);
        k := k + 1;
      }
      assert arrivals[..k] == arrivals;
    }

    /** Walks the buffered epochs in whatever order the hash map yields them: stale ones go, the
        current one is processed and ends the walk, later ones stay. */
    method CommitMBSubmissionMsgBuffer(order: seq<nat>) returns (ghost dropped: set<nat>)
      requires n.Valid()
      requires forall e :: e in buffer <==> e in order
      modifies this
      ensures Possible(n, old(View()), CommitBuffer(dropped))
      ensures View() == CommitBufferStep(n, old(View()), dropped)
    {
      ghost var s := View();
      dropped := {};
      var i := 0;
      while i < |order|
        invariant 0 <= i <= |order|
        invariant View() == s.(buffer := s.buffer - dropped)
        invariant forall e :: e in dropped ==> e < epoch
        invariant forall k :: 0 <= k < i ==> order[k] != epoch
      {
        if order[i] < epoch {
          buffer := buffer - {order[i]};
          dropped := dropped + {order[i]};
        } else if order[i] == epoch {
          CommitCurrent(s, dropped);
          return;
        }
        i := i + 1;
      }
      assert epoch !in s.buffer;
      assert s.buffer - dropped - {epoch} == s.buffer - dropped;
    }

    method CommitCurrent(ghost s: Store, ghost dropped: set<nat>)
      requires n.Valid() && epoch in buffer && epoch !in dropped
      requires View() == s.(buffer := s.buffer - dropped)
      modifies this
      ensures View() == CommitBufferStep(n, s, dropped)
    {
      var arrivals := buffer[epoch];
      var kept := buffer - {epoch};
      BufferPlaysNoPart(n, s, s.buffer - dropped, arrivals);
      ProcessBuffered(arrivals);
      buffer := kept;
    }

    method ProcessMicroblockSubmissionFromShard(e: nat, ready: bool, a: Arrival) returns (ok: bool)
      requires n.Valid()
      modifies this
      ensures View() == FromShardStep(n, old(View()), e, ready, a)
    {
      if epoch < e || (epoch == e && !ready) {
        buffer := buffer[e := (if e in buffer then buffer[e] else []) + [a]];
        return true;
      }
      if epoch == e {
        ok := ProcessMicroblockSubmissionFromShardCore(a);
        return;
      }
      return false;
    }

    /** The checks on a fetched block that precede the coinbase record. */
    method Acceptable(e: nat, b: Block) returns (ok: bool)
      requires n.Valid()
      ensures ok ==> b.shardId <= n.Shards()
      ensures FetchOk(n, View(), e, b) <==>
        && ok
        && (b.shardId < n.Shards() ==>
            CoinbaseOk(coinbaseRewardees, n.dir.shards[b.shardId], b.shardId, epoch, b.mb.cs1.bits, b.mb.cs2.bits))
    {
      if b.shardId == n.Shards() {
        if b.miner !in n.dir.dsCommittee {
          return false;
        }
      } else if !n.MinerIn(b) {
        return false;
      }
      if b.shardId != n.myShardId {
        var verified := n.dir.VerifyMicroBlockCoSignature(b.mb, b.shardId);
        if !verified {
          return false;
        }
      }
      if e !in missing || b.hash !in missing[e] {
        return false;
      }
      var have := HasBlockWithHash(e, b.hash);
      return !have;
    }

    /** One fetched block; `stop` ends the batch. */
    method FetchOne(e: nat, a: Arrival) returns (stop: bool)
      requires n.Valid() && a.checks.header
      modifies this
      ensures FetchOk(n, old(View()), e, a.block) ==>
                View() == Fetched(n, old(View()), e, a) && stop == (a.checks.delta && !a.checks.persisted)
      ensures !FetchOk(n, old(View()), e, a.block) ==> View() == old(View()) && !stop
    {
      var ok := Acceptable(e, a.block);
      if !ok {
        return false;
      }
      ok := SaveBlockCoinbase(a.block);
      if !ok || !a.checks.delta {
        return false;
      }
      if !a.checks.persisted {
        return true;
      }
      Emplace(e, a.block);
      return false;
    }

    /** Goes through the final block at hand and notes which shards' blocks are not held. */
    method CheckMicroBlocks() returns (ok: bool)
      modifies this`missing
      ensures View() == CollectionSpec.CheckMicroBlocks(n, old(View()))
      ensures finalBlock.Some? ==> ok == (View().MissingAt(epoch) == [])
    {
      if finalBlock.None? {
        return false;
      }
      var infos := finalBlock.value;
      var hashes: seq<nat> := [];
      var i := 0;
      while i < |infos|
        invariant 0 <= i <= |infos| && missing == old(missing)
        invariant hashes == MissingOf(n.Shards(), View().Held(), infos[..i])
      {
        assert infos[..i + 1][..i] == infos[..i];
        if infos[i].shardId != n.Shards() {
          var have := HasBlockWithHash(epoch, infos[i].hash);
          if !have {
            hashes := hashes + [infos[i].hash];
          }
        }
        i := i + 1;
      }
      assert infos[..i] == infos;
      missing := missing[epoch := hashes];
      return hashes == [];
    }

    /** Stores fetched blocks. An outdated block or a failure to persist cuts the batch short; otherwise
        the final block is checked again. */
    method ProcessMissingMicroblockSubmission(e: nat, arrivals: seq<Arrival>) returns (ok: bool)
      requires n.Valid()
      modifies this
      ensures View() == Fetch(n, old(View()), e, arrivals)
    {
      var done := FetchBatch(e, arrivals);
      if !done {
        return false;
      }
      ok := CheckMicroBlocks();
    }

    /** Takes the DS committee's own block back. */
    method RemoveDSMicroBlock()
      requires n.Valid()
      modifies this`microBlocks
      ensures View() == Next(n, old(View()), RemoveDSBlock)
    {
      var at := if epoch in microBlocks then microBlocks[epoch] else [];
      var i := 0;
      while i < |at| && at[i].shardId != n.Shards()
        invariant 0 <= i <= |at| && FindDS(n.Shards(), at) == i + FindDS(n.Shards(), at[i..]) && microBlocks == old(microBlocks)
      {
        assert at[i..][1..] == at[i + 1..];
        i := i + 1;
      }
      microBlocks := microBlocks[epoch := if i < |at| then at[..i] + at[i + 1..] else at];
    }

    method FetchBatch(e: nat, arrivals: seq<Arrival>) returns (done: bool)
      requires n.Valid()
      modifies this
      ensures View() == FetchFrom(n, old(View()), e, arrivals, 0)
      ensures done == BatchDone(n, old(View()), e, arrivals, 0)
    {
      ghost var s := View();
      var i := 0;
      while i < |arrivals|
        invariant 0 <= i <= |arrivals|
        invariant FetchFrom(n, View(), e, arrivals, i) == FetchFrom(n, s, e, arrivals, 0)
        invariant BatchDone(n, View(), e, arrivals, i) == BatchDone(n, s, e, arrivals, 0)
      {
        if !arrivals[i].checks.header {
          return false;
        }
        var stop := FetchOne(e, arrivals[i]);
        if stop {
          return false;
        }
        i := i + 1;
      }
      return true;
    }
  }

  lemma SubmitIgnoresBuffer(n: Node, s: Store, buffer: map<nat, seq<Arrival>>, a: Arrival)
    requires n.Valid()
    ensures Submit(n, s.(buffer := buffer), a) == Submit(n, s, a).(buffer := buffer)
    ensures Submit(n, s, a).epoch == s.epoch && Submit(n, s, a).buffer == s.buffer
  {
    SubmitOkIgnoresBuffer(n, s, buffer, a);
    if SubmitOk(n, s, a) {
      CoinbaseIgnoresBuffer(n, s, buffer, a.block);
      InsertIgnoresBuffer(CoinbaseFor(n, s, a.block), buffer, s.epoch, a.block);
    }
  }

  lemma SubmitOkIgnoresBuffer(n: Node, s: Store, buffer: map<nat, seq<Arrival>>, a: Arrival)
    requires n.Valid()
    ensures SubmitOk(n, s.(buffer := buffer), a) <==> SubmitOk(n, s, a)
  {
    assert s.(buffer := buffer).Held() == s.Held();
  }

  lemma CoinbaseIgnoresBuffer(n: Node, s: Store, buffer: map<nat, seq<Arrival>>, b: Block)
    requires b.shardId < n.Shards()
    requires CoinbaseOk(s.rewardees, n.dir.shards[b.shardId], b.shardId, s.epoch, b.mb.cs1.bits, b.mb.cs2.bits)
    ensures CoinbaseFor(n, s.(buffer := buffer), b) == CoinbaseFor(n, s, b).(buffer := buffer)
    ensures CoinbaseFor(n, s, b).epoch == s.epoch && CoinbaseFor(n, s, b).buffer == s.buffer
  {
  }

  lemma InsertIgnoresBuffer(s: Store, buffer: map<nat, seq<Arrival>>, e: nat, b: Block)
    ensures Insert(s.(buffer := buffer), e, b) == Insert(s, e, b).(buffer := buffer)
    ensures Insert(s.(buffer := buffer), e, b).Held() == Insert(s, e, b).Held()
    ensures Insert(s, e, b).epoch == s.epoch && Insert(s, e, b).buffer == s.buffer
  {
    assert s.(buffer := buffer).HeldAt(e) == s.HeldAt(e);
  }

  lemma {:induction false} BufferPlaysNoPart(n: Node, s: Store, buffer: map<nat, seq<Arrival>>, arrivals: seq<Arrival>)
    requires n.Valid()
    ensures SubmitAll(n, s.(buffer := buffer), arrivals) == SubmitAll(n, s, arrivals).(buffer := buffer)
    ensures SubmitAll(n, s, arrivals).epoch == s.epoch && SubmitAll(n, s, arrivals).buffer == s.buffer
  {
    if arrivals != [] {
      var init := arrivals[..|arrivals| - 1];
      BufferPlaysNoPart(n, s, buffer, init);
      SubmitIgnoresBuffer(n, SubmitAll(n, s, init), buffer, arrivals[|arrivals| - 1]);
    }
  }
}
