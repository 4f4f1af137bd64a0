/** Genuine blocks are not lost, and the collection ends. */
module CollectionProgress {
  import opened Wrappers
  import opened MultiSig
  import opened MicroBlocks
  import opened CollectionSpec
  import opened CollectionProof

  /** A current block by a miner of its shard, certified by a quorum of it, whose bitmaps fit; it can be
      persisted and its state delta applies. */
  ghost predicate Genuine(n: Node, a: Arrival)
    requires n.Valid()
  {
    var b := a.block;
    && a.checks == Checks(true, true, true)
    && n.MinerIn(b) && n.dir.Accepts(b.mb, b.shardId)
    && |b.mb.cs1.bits| == |b.mb.cs2.bits| == |n.dir.shards[b.shardId]|
  }

  ghost predicate SameBase(bs: seq<Block>, base: Base) { forall i :: 0 <= i < |bs| ==> bs[i].base == base }

  /** A block with the same base and a shard of its own is a new entry of the set. */
  lemma InsertNew(s: Store, e: nat, b: Block)
    requires SameBase(s.HeldAt(e), b.base) && !HasShard(s.HeldAt(e), b.shardId)
    ensures Insert(s, e, b).HeldAt(e) == s.HeldAt(e) + [b]
  {
    var at := s.HeldAt(e);
    forall i | 0 <= i < |at|
      ensures !at[i].SameAs(b)
    {
      assert at[i].shardId != b.shardId;
    }
  }

  /** What a submission does, exactly: a genuine block for a shard that is neither held nor on record is added
      while the collection runs, and it stops the collection when it is the last one. */
  lemma SubmitExactly(n: Node, s: Store, a: Arrival)
    requires n.Valid() && SameBase(s.Held(), a.block.base)
    ensures var s', taken := Submit(n, s, a),
                             Genuine(n, a) && !s.stop && !HasShard(s.Held(), a.block.shardId) && !Recorded(s.rewardees, s.epoch, a.block.shardId);
            && s'.Held() == (if taken then s.Held() + [a.block] else s.Held())
            && (s'.stop <==> s.stop || (taken && |s.Held()| + 1 == n.Shards()))
  {
    if SubmitOk(n, s, a) {
      AcceptedIsRecorded(n, s, a.block);
      var s1 := CoinbaseFor(n, s, a.block);
      assert s1.Held() == s.Held();
      InsertNew(s1, s.epoch, a.block);
    }
  }

  /** A submission leaves the records of all other shards as they were. */
  lemma SubmitRecords(n: Node, s: Store, a: Arrival, k: nat)
    requires n.Valid() && k != a.block.shardId
    ensures Recorded(Submit(n, s, a).rewardees, s.epoch, k) <==> Recorded(s.rewardees, s.epoch, k)
  {
    if SubmitOk(n, s, a) {
      var b := a.block;
      RecordsApart(s.rewardees, s.epoch, b.shardId, Rewards(n.dir.shards[b.shardId], b.mb.cs1.bits, b.mb.cs2.bits), k);
    }
  }

  lemma RecordsApart(r: Rewardees, epoch: nat, shardId: nat, ps: seq<Point>, k: nat)
    requires k != shardId
    ensures Recorded(WithRewards(r, epoch, shardId, ps), epoch, k) <==> Recorded(r, epoch, k)
  {
  }

  // ---------- buffered blocks

  /** The collection runs and still waits for shard `k`; no DS block is held. */
  ghost predicate Waiting(n: Node, s: Store, k: nat, base: Base)
    requires n.Valid()
  {
    && Inv(n, s) && !s.stop && k < n.Shards() && SameBase(s.Held(), base)
    && !HasShard(s.Held(), n.Shards()) && !HasShard(s.Held(), k) && !Recorded(s.rewardees, s.epoch, k)
  }

  /** While one shard is missing and no DS block is held, there are not as many blocks as shards. */
  lemma NotFull(shards: nat, bs: seq<Block>, k: nat)
    requires OnePerShard(shards, bs) && k < shards && !HasShard(bs, k) && !HasShard(bs, shards)
    ensures |bs| != shards
  {
    if |bs| == shards {
      Pigeonhole(shards, bs);
      assert false;
    }
  }

  lemma StillMissing(bs: seq<Block>, b: Block, k: nat)
    requires !HasShard(bs, k) && b.shardId != k
    ensures !HasShard(bs + [b], k)
  {
  }

  lemma StillWaiting(n: Node, s: Store, a: Arrival, k: nat, base: Base)
    requires n.Valid() && Waiting(n, s, k, base) && a.block.base == base && a.block.shardId != k
    ensures Waiting(n, Submit(n, s, a), k, base)
  {
    var s' := Submit(n, s, a);
    SubmitInv(n, s, a);
    SubmitExactly(n, s, a);
    SubmitRecords(n, s, a, k);
    SubmitDS(n, s, a);
    StillMissing(s.Held(), a.block, k);
    NotFull(n.Shards(), s'.Held(), k);
  }

  lemma {:induction false} WaitsThrough(n: Node, s: Store, arrivals: seq<Arrival>, k: nat, base: Base)
    requires n.Valid() && Waiting(n, s, k, base)
    requires forall i :: 0 <= i < |arrivals| ==> arrivals[i].block.base == base && arrivals[i].block.shardId != k
    ensures Waiting(n, SubmitAll(n, s, arrivals), k, base) && SubmitAll(n, s, arrivals).epoch == s.epoch
  {
    if arrivals != [] {
      var init := arrivals[..|arrivals| - 1];
      WaitsThrough(n, s, init, k, base);
      StillWaiting(n, SubmitAll(n, s, init), arrivals[|arrivals| - 1], k, base);
      SubmitKeeps(n, SubmitAll(n, s, init), arrivals[|arrivals| - 1]);
    }
  }

  lemma SubmitKeepsShard(n: Node, s: Store, a: Arrival, k: nat)
    requires n.Valid() && HasShard(s.Held(), k)
    ensures HasShard(Submit(n, s, a).Held(), k)
  {
    var s' := Submit(n, s, a);
    assert s'.Held() == s.Held() || s'.Held() == s.Held() + [a.block];
    var i :| 0 <= i < |s.Held()| && s.Held()[i].shardId == k;
    assert s'.Held()[i].shardId == k;
  }

  lemma {:induction false} SubmitAllFrom(n: Node, s: Store, first: seq<Arrival>, rest: seq<Arrival>, k: nat)
    requires n.Valid() && HasShard(SubmitAll(n, s, first).Held(), k)
    ensures HasShard(SubmitAll(n, s, first + rest).Held(), k)
  {
    if rest == [] {
      assert first + rest == first;
    } else {
      var init, last := rest[..|rest| - 1], rest[|rest| - 1];
      SubmitAllFrom(n, s, first, init, k);
      SubmitKeepsShard(n, SubmitAll(n, s, first + init), last, k);
      OneMore(n, s, first + init, last);
      assert first + rest == first + init + [last];
    }
  }

  lemma OneMore(n: Node, s: Store, arrivals: seq<Arrival>, a: Arrival)
    requires n.Valid()
    ensures SubmitAll(n, s, arrivals + [a]) == Submit(n, SubmitAll(n, s, arrivals), a)
  {
    assert (arrivals + [a])[..|arrivals|] == arrivals;
  }

  /** An early submission is kept for its epoch, and a late one dropped; nothing else changes. */
  lemma EarlyIsKept(n: Node, s: Store, e: nat, ready: bool, a: Arrival)
    requires n.Valid() && (e != s.epoch || !ready)
    ensures var s' := Next(n, s, FromShard(e, ready, a));
            && s' == s.(buffer := s'.buffer)
            && forall e' :: s'.BufferAt(e') == if e' == e >= s.epoch then s.BufferAt(e) + [a] else s.BufferAt(e')
  {
  }

  /** Block `i` of the list is of a shard of its own. */
  ghost predicate OnlyOne(arrivals: seq<Arrival>, i: nat)
    requires i < |arrivals|
  {
    && (forall j :: 0 <= j < |arrivals| ==> arrivals[j].block.base == arrivals[i].block.base)
    && (forall j :: 0 <= j < |arrivals| && j != i ==> arrivals[j].block.shardId != arrivals[i].block.shardId)
  }

  lemma TakenAtLast(n: Node, s: Store, first: seq<Arrival>, a: Arrival)
    requires n.Valid() && Genuine(n, a) && Waiting(n, s, a.block.shardId, a.block.base)
    requires forall i :: 0 <= i < |first| ==> first[i].block.base == a.block.base && first[i].block.shardId != a.block.shardId
    ensures HasShard(SubmitAll(n, s, first + [a]).Held(), a.block.shardId)
  {
    var s1 := SubmitAll(n, s, first);
    WaitsThrough(n, s, first, a.block.shardId, a.block.base);
    SubmitExactly(n, s1, a);
    OneMore(n, s, first, a);
    assert Submit(n, s1, a).Held()[|s1.Held()|].shardId == a.block.shardId;
  }

  lemma HeldAfterAll(n: Node, s: Store, all: seq<Arrival>, i: nat)
    requires n.Valid() && i < |all| && Genuine(n, all[i]) && OnlyOne(all, i) && Waiting(n, s, all[i].block.shardId, all[i].block.base)
    ensures HasShard(SubmitAll(n, s, all).Held(), all[i].block.shardId)
  {
    TakenAtLast(n, s, all[..i], all[i]);
    SubmitAllFrom(n, s, all[..i] + [all[i]], all[i + 1..], all[i].block.shardId);
    assert all == all[..i] + [all[i]] + all[i + 1..];
  }

  /** No genuine block is lost in the buffer: if the node waits for its shard and it is the only block of that
      shard in the buffer, it is held once the buffer is processed, whatever else the buffer holds. */
  lemma BufferedIsHeld(n: Node, s: Store, dropped: set<nat>, i: nat)
    requires n.Valid() && i < |s.BufferAt(s.epoch)| && Genuine(n, s.BufferAt(s.epoch)[i]) && OnlyOne(s.BufferAt(s.epoch), i)
    requires var b := s.BufferAt(s.epoch)[i].block; Waiting(n, s, b.shardId, b.base)
    ensures var s', k := Next(n, s, CommitBuffer(dropped)), s.BufferAt(s.epoch)[i].block.shardId;
            HasShard(s'.Held(), k) && s'.BufferAt(s.epoch) == []
  {
    HeldAfterAll(n, s, s.BufferAt(s.epoch), i);
    SubmitAllKeeps(n, s, s.BufferAt(s.epoch));
  }

  // ---------- the collection ends

  /** One genuine block for each shard. */
  ghost predicate OneEach(n: Node, arrivals: seq<Arrival>, base: Base)
    requires n.Valid()
  {
    && |arrivals| == n.Shards()
    && (forall i :: 0 <= i < |arrivals| ==> Genuine(n, arrivals[i]) && arrivals[i].block.base == base)
    && (forall i, j :: 0 <= i < j < |arrivals| ==> arrivals[i].block.shardId != arrivals[j].block.shardId)
  }

  /** The first `k` blocks have been taken. */
  ghost predicate Taken(n: Node, s0: Store, s: Store, arrivals: seq<Arrival>, k: nat)
    requires n.Valid() && k <= |arrivals|
  {
    && s.epoch == s0.epoch && |s.Held()| == k && (s.stop <==> k == n.Shards())
    && (forall i :: 0 <= i < k ==> s.Held()[i] == arrivals[i].block)
    && (forall i :: k <= i < |arrivals| ==> !Recorded(s.rewardees, s.epoch, arrivals[i].block.shardId))
  }

  lemma TakesNext(n: Node, s0: Store, s: Store, arrivals: seq<Arrival>, k: nat, base: Base)
    requires n.Valid() && OneEach(n, arrivals, base) && k < |arrivals| && Taken(n, s0, s, arrivals, k)
    ensures Next(n, s, FromShard(s0.epoch, true, arrivals[k])) == Submit(n, s, arrivals[k])
    ensures Taken(n, s0, Submit(n, s, arrivals[k]), arrivals, k + 1)
  {
    var a := arrivals[k];
    NewShard(n, s, arrivals, k, base);
    SubmitExactly(n, s, a);
    SubmitKeeps(n, s, a);
    OthersUnrecorded(n, s, arrivals, k, base);
  }

  lemma OthersUnrecorded(n: Node, s: Store, arrivals: seq<Arrival>, k: nat, base: Base)
    requires n.Valid() && OneEach(n, arrivals, base) && k < |arrivals|
    requires forall i :: k <= i < |arrivals| ==> !Recorded(s.rewardees, s.epoch, arrivals[i].block.shardId)
    ensures forall i :: k < i < |arrivals| ==> !Recorded(Submit(n, s, arrivals[k]).rewardees, s.epoch, arrivals[i].block.shardId)
  {
    forall i | k < i < |arrivals|
      ensures !Recorded(Submit(n, s, arrivals[k]).rewardees, s.epoch, arrivals[i].block.shardId)
    {
      SubmitRecords(n, s, arrivals[k], arrivals[i].block.shardId);
    }
  }

  lemma NewShard(n: Node, s: Store, arrivals: seq<Arrival>, k: nat, base: Base)
    requires n.Valid() && OneEach(n, arrivals, base) && k < |arrivals| == n.Shards() && |s.Held()| == k
    requires forall i :: 0 <= i < k ==> s.Held()[i] == arrivals[i].block
    ensures SameBase(s.Held(), base) && !HasShard(s.Held(), arrivals[k].block.shardId)
  {
  }

  lemma {:induction false} TakesAll(n: Node, s: Store, arrivals: seq<Arrival>, k: nat, base: Base)
    requires n.Valid() && OneEach(n, arrivals, base) && k <= |arrivals| && n.Shards() > 0
    requires !s.stop && s.Held() == [] && NoShardRecorded(s)
    ensures Taken(n, s, SubmitAll(n, s, arrivals[..k]), arrivals, k)
  {
    if k > 0 {
      TakesAll(n, s, arrivals, k - 1, base);
      assert arrivals[..k][..k - 1] == arrivals[..k - 1];
      TakesNext(n, s, SubmitAll(n, s, arrivals[..k - 1]), arrivals, k - 1, base);
    }
  }

  /** The stores of that run. */
  ghost function Stores(n: Node, s: Store, arrivals: seq<Arrival>): (ss: seq<Store>)
    requires n.Valid()
    ensures |ss| == |arrivals| + 1 && forall i :: 0 <= i <= |arrivals| ==> ss[i] == SubmitAll(n, s, arrivals[..i])
  {
    seq(|arrivals| + 1, i requires 0 <= i <= |arrivals| => SubmitAll(n, s, arrivals[..i]))
  }

  function Submissions(e: nat, arrivals: seq<Arrival>): (es: seq<Event>)
    ensures |es| == |arrivals| && forall i :: 0 <= i < |es| ==> es[i] == FromShard(e, true, arrivals[i])
  {
    seq(|arrivals|, i requires 0 <= i < |arrivals| => FromShard(e, true, arrivals[i]))
  }

  lemma SubmissionsRun(n: Node, s: Store, arrivals: seq<Arrival>, base: Base)
    requires n.Valid() && n.Shards() > 0 && OneEach(n, arrivals, base)
    requires !s.stop && s.Held() == [] && s.MissingAt(s.epoch) == [] && NoShardRecorded(s)
    ensures Run(n, Stores(n, s, arrivals), Submissions(s.epoch, arrivals))
  {
    var ss, es := Stores(n, s, arrivals), Submissions(s.epoch, arrivals);
    assert ss[0] == s;
    forall i | 0 <= i < |es|
      ensures Possible(n, ss[i], es[i]) && ss[i + 1] == Next(n, ss[i], es[i])
    {
      TakesAll(n, s, arrivals, i, base);
      TakesNext(n, s, ss[i], arrivals, i, base);
      assert arrivals[..i + 1][..i] == arrivals[..i];
    }
  }

  /** All the blocks are from shards, and there are as many as shards. */
  lemma AllTaken(n: Node, s0: Store, s: Store, arrivals: seq<Arrival>, base: Base)
    requires n.Valid() && OneEach(n, arrivals, base) && Taken(n, s0, s, arrivals, |arrivals|) && Inv(n, s)
    ensures AllPresent(n.Shards(), s.Held())
  {
    Pigeonhole(n.Shards(), s.Held());
  }

  /** The collection ends with every shard present: in whatever order the shards' genuine blocks arrive, the
      run from any start of an epoch stops exactly at the last one, with exactly these blocks held. */
  lemma CollectionCompletes(n: Node, s: Store, arrivals: seq<Arrival>, base: Base)
    requires n.Valid() && n.Shards() > 0 && OneEach(n, arrivals, base)
    requires !s.stop && s.Held() == [] && s.MissingAt(s.epoch) == [] && NoShardRecorded(s)
    ensures Run(n, Stores(n, s, arrivals), Submissions(s.epoch, arrivals))
    ensures forall i :: 0 <= i < |arrivals| ==> !Stores(n, s, arrivals)[i].stop
    ensures var end := Stores(n, s, arrivals)[|arrivals|];
            && end.stop && AllPresent(n.Shards(), end.Held()) && |end.Held()| == |arrivals|
            && forall i :: 0 <= i < |arrivals| ==> end.Held()[i] == arrivals[i].block
  {
    var ss := Stores(n, s, arrivals);
    SubmissionsRun(n, s, arrivals, base);
    forall i | 0 <= i <= |arrivals|
      ensures Taken(n, s, ss[i], arrivals, i)
    {
      TakesAll(n, s, arrivals, i, base);
    }
    RunInv(n, ss, Submissions(s.epoch, arrivals), |arrivals|);
    AllTaken(n, s, ss[|arrivals|], arrivals, base);
  }

  // ---------- fetched blocks

  /** A block the node asked for: on the missing list, not held, of a shard that is neither held nor on record. */
  ghost predicate Wanted(n: Node, s: Store, a: Arrival)
    requires n.Valid()
  {
    && Genuine(n, a) && SameBase(s.Held(), a.block.base)
    && a.block.hash in s.MissingAt(s.epoch) && !HasHash(s.Held(), a.block.hash)
    && !HasShard(s.Held(), a.block.shardId) && !Recorded(s.rewardees, s.epoch, a.block.shardId)
  }

  lemma FetchesOne(n: Node, s: Store, a: Arrival)
    requires n.Valid() && Wanted(n, s, a)
    ensures FetchOk(n, s, s.epoch, a.block)
    ensures var s' := Fetched(n, s, s.epoch, a);
            && s'.Held() == s.Held() + [a.block] && s'.epoch == s.epoch && s'.missing == s.missing
            && forall k: nat :: k != a.block.shardId && !Recorded(s.rewardees, s.epoch, k) ==> !Recorded(s'.rewardees, s.epoch, k)
  {
    AcceptedIsRecorded(n, s, a.block);
    var s1 := CoinbaseFor(n, s, a.block);
    assert s1.Held() == s.Held();
    InsertNew(s1, s.epoch, a.block);
  }

  /** Two wanted blocks of different shards. */
  predicate Apart(a: Block, b: Block) { a.shardId != b.shardId && a.hash != b.hash && a.base == b.base }

  lemma StillWanted(n: Node, s: Store, a: Arrival, other: Arrival)
    requires n.Valid() && Wanted(n, s, a) && Wanted(n, s, other) && Apart(a.block, other.block)
    ensures FetchOk(n, s, s.epoch, a.block) && Wanted(n, Fetched(n, s, s.epoch, a), other)
  {
    FetchesOne(n, s, a);
    StillMissing(s.Held(), a.block, other.block.shardId);
    var bs := s.Held() + [a.block];
    assert !HasHash(bs, other.block.hash);
  }

  /** Wanted blocks of different shards with different hashes, and one base. */
  ghost predicate AllWanted(n: Node, s: Store, arrivals: seq<Arrival>, i: nat)
    requires n.Valid() && i <= |arrivals|
  {
    && (forall j :: i <= j < |arrivals| ==> Wanted(n, s, arrivals[j]))
    && (forall j, k :: i <= j < k < |arrivals| ==> Apart(arrivals[j].block, arrivals[k].block))
  }

  function Blocks(arrivals: seq<Arrival>): (bs: seq<Block>)
    ensures |bs| == |arrivals| && forall i :: 0 <= i < |bs| ==> bs[i] == arrivals[i].block
  {
    seq(|arrivals|, i requires 0 <= i < |arrivals| => arrivals[i].block)
  }

  /** All the blocks from number `i` on have been added. */
  ghost predicate Added(s: Store, s': Store, arrivals: seq<Arrival>, i: nat)
    requires i <= |arrivals|
  {
    s'.epoch == s.epoch && s'.Held() == s.Held() + Blocks(arrivals[i..])
  }

  lemma {:induction false} FetchesFrom(n: Node, s: Store, arrivals: seq<Arrival>, i: nat)
    requires n.Valid() && i <= |arrivals| && AllWanted(n, s, arrivals, i)
    ensures Added(s, FetchFrom(n, s, s.epoch, arrivals, i), arrivals, i)
    decreases |arrivals| - i, 1
  {
    if i < |arrivals| {
      FetchesMore(n, s, arrivals, i);
    }
  }

  lemma {:induction false} FetchesMore(n: Node, s: Store, arrivals: seq<Arrival>, i: nat)
    requires n.Valid() && i < |arrivals| && AllWanted(n, s, arrivals, i)
    ensures Added(s, FetchFrom(n, s, s.epoch, arrivals, i), arrivals, i)
    decreases |arrivals| - i, 0
  {
    var s1 := FetchesNext(n, s, arrivals, i);
    FetchesFrom(n, s1, arrivals, i + 1);
    AddedBoth(s, s1, FetchFrom(n, s1, s1.epoch, arrivals, i + 1), arrivals, i);
  }

  lemma AddedBoth(s: Store, s1: Store, s': Store, arrivals: seq<Arrival>, i: nat)
    requires i < |arrivals| && s1.epoch == s.epoch && s1.Held() == s.Held() + [arrivals[i].block] && Added(s1, s', arrivals, i + 1)
    ensures Added(s, s', arrivals, i)
  {
    BlocksFrom(s.Held(), arrivals, i);
  }

  lemma BlocksFrom(bs: seq<Block>, arrivals: seq<Arrival>, i: nat)
    requires i < |arrivals|
    ensures bs + [arrivals[i].block] + Blocks(arrivals[i + 1..]) == bs + Blocks(arrivals[i..])
  {
    assert Blocks(arrivals[i..]) == [arrivals[i].block] + Blocks(arrivals[i + 1..]);
  }

  lemma FetchesNext(n: Node, s: Store, arrivals: seq<Arrival>, i: nat) returns (s': Store)
    requires n.Valid() && i < |arrivals| && AllWanted(n, s, arrivals, i)
    ensures s'.epoch == s.epoch && s'.Held() == s.Held() + [arrivals[i].block] && AllWanted(n, s', arrivals, i + 1)
    ensures FetchFrom(n, s, s.epoch, arrivals, i) == FetchFrom(n, s', s.epoch, arrivals, i + 1)
  {
    FetchesOne(n, s, arrivals[i]);
    s' := Fetched(n, s, s.epoch, arrivals[i]);
    forall j | i < j < |arrivals|
      ensures Wanted(n, s', arrivals[j])
    {
      StillWanted(n, s, arrivals[i], arrivals[j]);
    }
  }

  /** Missing blocks that are fetched are held afterwards, all of a batch. */
  lemma FetchedAreHeld(n: Node, s: Store, arrivals: seq<Arrival>)
    requires n.Valid() && AllWanted(n, s, arrivals, 0)
    ensures Next(n, s, FromDS(s.epoch, arrivals)).Held() == s.Held() + Blocks(arrivals)
  {
    FetchesFrom(n, s, arrivals, 0);
    assert arrivals[0..] == arrivals;
  }
}
