/** One microblock per shard in every run, and what the size-based trigger then means. */
module CollectionProof {
  import opened Wrappers
  import opened Bits
  import opened MultiSig
  import opened MicroBlocks
  import opened CollectionSpec

  /** Among the first `shards` ids no two blocks share one; the DS committee's id is not restricted. */
  ghost predicate OnePerShard(shards: nat, bs: seq<Block>) {
    && (forall i :: 0 <= i < |bs| ==> bs[i].shardId <= shards)
    && forall i, j :: 0 <= i < j < |bs| && bs[i].shardId == bs[j].shardId ==> bs[i].shardId == shards
  }

  /** A shard's block is genuine - sent by a miner of the shard and certified by a quorum of it - and the
      coinbase record credits exactly its signers. */
  ghost predicate BackedBy(n: Node, s: Store, b: Block)
    requires n.Valid()
  {
    && b.shardId < n.Shards() && n.MinerIn(b) && n.dir.Accepts(b.mb, b.shardId)
    && |n.dir.shards[b.shardId]| == |b.mb.cs1.bits| == |b.mb.cs2.bits|
    && Recorded(s.rewardees, s.epoch, b.shardId)
    && s.rewardees[s.epoch][b.shardId] == Rewards(n.dir.shards[b.shardId], b.mb.cs1.bits, b.mb.cs2.bits)
  }

  ghost predicate Backed(n: Node, s: Store)
    requires n.Valid()
  {
    forall i :: 0 <= i < |s.Held()| && s.Held()[i].shardId != n.Shards() ==> BackedBy(n, s, s.Held()[i])
  }

  ghost predicate Inv(n: Node, s: Store)
    requires n.Valid()
  {
    OnePerShard(n.Shards(), s.Held()) && Backed(n, s)
  }

  // ---------- the coinbase record

  lemma {:induction false} RewardsOf(keys: seq<Point>, b1: seq<bool>, b2: seq<bool>)
    requires |keys| == |b1| == |b2|
    ensures multiset(Rewards(keys, b1, b2)) == multiset(Select(b1, keys)) + multiset(Select(b2, keys))
    ensures |Rewards(keys, b1, b2)| == Count(b1) + Count(b2)
  {
    if keys != [] {
      RewardsOf(keys[1..], b1[1..], b2[1..]);
    }
  }

  /** A member's reputation grows by the number of its signatures and stops at the maximum. */
  lemma {:induction false} RaisedBy(rep: map<Point, nat>, ps: seq<Point>, p: Point)
    requires ReputationOf(rep, p) <= MAX_REPUTATION
    ensures var r := ReputationOf(rep, p) + multiset(ps)[p];
            ReputationOf(RaiseAll(rep, ps), p) == if r < MAX_REPUTATION then r else MAX_REPUTATION
  {
    if ps != [] {
      assert ps == ps[..|ps| - 1] + [ps[|ps| - 1]];
      RaisedBy(rep, ps[..|ps| - 1], p);
    }
  }

  /** An accepted block's signers leave a record. */
  lemma AcceptedIsRecorded(n: Node, s: Store, b: Block)
    requires n.Valid() && b.shardId < n.Shards() && n.dir.Accepts(b.mb, b.shardId)
    requires CoinbaseOk(s.rewardees, n.dir.shards[b.shardId], b.shardId, s.epoch, b.mb.cs1.bits, b.mb.cs2.bits)
    ensures var s' := CoinbaseFor(n, s, b);
            && s' == s.(rewardees := s'.rewardees, reputation := s'.reputation)
            && Recorded(s'.rewardees, s.epoch, b.shardId)
            && s'.rewardees[s.epoch][b.shardId] == Rewards(n.dir.shards[b.shardId], b.mb.cs1.bits, b.mb.cs2.bits)
            && forall k :: Recorded(s.rewardees, s.epoch, k) ==>
                 Recorded(s'.rewardees, s.epoch, k) && s'.rewardees[s.epoch][k] == s.rewardees[s.epoch][k]
  {
    RewardsOf(n.dir.shards[b.shardId], b.mb.cs1.bits, b.mb.cs2.bits);
    AcceptedBlocksOverlap(n.dir, b.shardId, b.mb, b.mb);
    CountBound(And(b.mb.cs2.bits, b.mb.cs2.bits));
    assert n.dir.Members(b.shardId).keys != [];
  }

  // ---------- one step

  lemma InsertInv(n: Node, s: Store, e: nat, b: Block)
    requires n.Valid() && Inv(n, s) && b.shardId <= n.Shards()
    requires b.shardId != n.Shards() ==> BackedBy(n, s, b)
    requires b.shardId != n.Shards() ==> !HasShard(s.Held(), b.shardId)
    ensures Inv(n, Insert(s, e, b))
  {
    var s' := Insert(s, e, b);
    assert s'.Held() == s.Held() || s'.Held() == s.Held() + [b];
    if s'.Held() == s.Held() + [b] {
      OneMoreShard(n.Shards(), s.Held(), b);
    }
    forall i | 0 <= i < |s'.Held()| && s'.Held()[i].shardId != n.Shards()
      ensures BackedBy(n, s', s'.Held()[i])
    {
      BackedAlike(n, s, s', if i < |s.Held()| then s.Held()[i] else b);
    }
  }

  lemma OneMoreShard(shards: nat, bs: seq<Block>, b: Block)
    requires OnePerShard(shards, bs) && b.shardId <= shards && (b.shardId != shards ==> !HasShard(bs, b.shardId))
    ensures OnePerShard(shards, bs + [b])
  {
  }

  /** Only the record matters. */
  lemma BackedAlike(n: Node, s: Store, s': Store, b: Block)
    requires n.Valid() && BackedBy(n, s, b) && s'.epoch == s.epoch && s'.rewardees == s.rewardees
    ensures BackedBy(n, s', b)
  {
  }

  /** The coinbase record refuses a second block for a shard, so nothing of that shard is held. */
  lemma NotHeld(n: Node, s: Store, shardId: nat)
    requires n.Valid() && Backed(n, s) && shardId != n.Shards() && !Recorded(s.rewardees, s.epoch, shardId)
    ensures !HasShard(s.Held(), shardId)
  {
  }

  lemma SubmitInv(n: Node, s: Store, a: Arrival)
    requires n.Valid() && Inv(n, s)
    ensures Inv(n, Submit(n, s, a)) && Submit(n, s, a).epoch == s.epoch
    ensures !s.stop && Submit(n, s, a).stop ==> |Submit(n, s, a).Held()| == n.Shards()
    ensures s.stop ==> Submit(n, s, a) == s
  {
    if SubmitOk(n, s, a) {
      StoreInv(n, s, s.epoch, a.block);
    }
  }

  /** Putting an accepted block on record and storing it, under whatever epoch. */
  lemma StoreInv(n: Node, s: Store, e: nat, b: Block)
    requires n.Valid() && Inv(n, s) && b.shardId < n.Shards() && n.MinerIn(b) && n.dir.Accepts(b.mb, b.shardId)
    requires CoinbaseOk(s.rewardees, n.dir.shards[b.shardId], b.shardId, s.epoch, b.mb.cs1.bits, b.mb.cs2.bits)
    ensures Inv(n, CoinbaseFor(n, s, b)) && Inv(n, Insert(CoinbaseFor(n, s, b), e, b))
    ensures var s' := CoinbaseFor(n, s, b);
            s' == s.(rewardees := s'.rewardees, reputation := s'.reputation)
  {
    AcceptedIsRecorded(n, s, b);
    NotHeld(n, s, b.shardId);
    assert CoinbaseFor(n, s, b).Held() == s.Held();
    InsertInv(n, CoinbaseFor(n, s, b), e, b);
  }

  lemma {:induction false} SubmitAllInv(n: Node, s: Store, arrivals: seq<Arrival>)
    requires n.Valid() && Inv(n, s)
    ensures var s' := SubmitAll(n, s, arrivals);
            && Inv(n, s') && s'.epoch == s.epoch
            && (!s.stop && s'.stop ==> |s'.Held()| == n.Shards())
            && (s.stop ==> s' == s)
  {
    if arrivals != [] {
      SubmitAllInv(n, s, arrivals[..|arrivals| - 1]);
      SubmitInv(n, SubmitAll(n, s, arrivals[..|arrivals| - 1]), arrivals[|arrivals| - 1]);
    }
  }

  lemma FetchedInv(n: Node, s: Store, e: nat, a: Arrival)
    requires n.Valid() && Inv(n, s) && FetchOk(n, s, e, a.block)
    ensures Inv(n, Fetched(n, s, e, a))
    ensures Fetched(n, s, e, a).epoch == s.epoch
    ensures Fetched(n, s, e, a).stop == s.stop && Fetched(n, s, e, a).missing == s.missing
    ensures Fetched(n, s, e, a).finalBlock == s.finalBlock
  {
    var b := a.block;
    if b.shardId == n.Shards() {
      InsertInv(n, s, e, b);
    } else {
      StoreInv(n, s, e, b);
    }
  }

  lemma {:induction false} FetchFromInv(n: Node, s: Store, e: nat, arrivals: seq<Arrival>, i: nat)
    requires n.Valid() && Inv(n, s) && i <= |arrivals|
    ensures var s' := FetchFrom(n, s, e, arrivals, i);
            && Inv(n, s') && s'.epoch == s.epoch
            && s'.stop == s.stop && s'.missing == s.missing && s'.finalBlock == s.finalBlock
    decreases |arrivals| - i
  {
    if i < |arrivals| && arrivals[i].checks.header {
      if FetchOk(n, s, e, arrivals[i].block) {
        FetchedInv(n, s, e, arrivals[i]);
        FetchFromInv(n, Fetched(n, s, e, arrivals[i]), e, arrivals, i + 1);
      } else {
        FetchFromInv(n, s, e, arrivals, i + 1);
      }
    }
  }

  lemma StepInv(n: Node, s: Store, ev: Event)
    requires n.Valid() && Inv(n, s) && Possible(n, s, ev)
    ensures Inv(n, Next(n, s, ev)) && Next(n, s, ev).epoch == s.epoch
    ensures s.stop ==> Next(n, s, ev).stop
  {
    var s' := Next(n, s, ev);
    match ev
    case FromShard(_, _, a) =>
      SubmitInv(n, s, a);
      InvAlike(n, s, s.(buffer := s'.buffer));
    case CommitBuffer(_) =>
      SubmitAllInv(n, s, s.BufferAt(s.epoch));
      InvAlike(n, SubmitAll(n, s, s.BufferAt(s.epoch)), s');
    case FromDS(e, arrivals) => FetchInv(n, s, e, arrivals);
    case OwnDSBlock(b) => InsertInv(n, s, s.epoch, b);
    case RemoveDSBlock => RemoveInv(n, s);
    case ExamineFinalBlock(_) => InvAlike(n, s, s');
    case ComposeFinalBlock(_) => InvAlike(n, s, s');
    case TimeOut => InvAlike(n, s, s');
  }

  /** Only blocks and records matter. */
  lemma InvAlike(n: Node, s: Store, s': Store)
    requires n.Valid() && Inv(n, s) && s'.epoch == s.epoch && s'.held == s.held && s'.rewardees == s.rewardees
    ensures Inv(n, s')
  {
    forall i | 0 <= i < |s'.Held()| && s'.Held()[i].shardId != n.Shards()
      ensures BackedBy(n, s', s'.Held()[i])
    {
      BackedAlike(n, s, s', s.Held()[i]);
    }
  }

  /** Checking the final block again changes the missing list and nothing else. */
  lemma FetchInv(n: Node, s: Store, e: nat, arrivals: seq<Arrival>)
    requires n.Valid() && Inv(n, s)
    ensures var s' := Fetch(n, s, e, arrivals);
            && Inv(n, s') && s'.epoch == s.epoch && s'.stop == s.stop && s'.finalBlock == s.finalBlock
            && s'.held == FetchFrom(n, s, e, arrivals, 0).held
  {
    FetchFromInv(n, s, e, arrivals, 0);
  }

  /** Where an entry of the shortened list was before. */
  function Before(i: nat, k: nat): nat { if k < i then k else k + 1 }

  lemma DropOf(shards: nat, bs: seq<Block>, k: nat)
    requires k < |DropDS(shards, bs)|
    ensures FindDS(shards, bs) < |bs| ==>
              Before(FindDS(shards, bs), k) < |bs| && DropDS(shards, bs)[k] == bs[Before(FindDS(shards, bs), k)]
    ensures FindDS(shards, bs) == |bs| ==> DropDS(shards, bs) == bs
  {
    if FindDS(shards, bs) < |bs| {
      WithoutOne(bs, FindDS(shards, bs), k);
    }
  }

  lemma WithoutOne(bs: seq<Block>, i: nat, k: nat)
    requires i < |bs| && k < |bs| - 1
    ensures (bs[..i] + bs[i + 1..])[k] == bs[Before(i, k)]
  {
  }

  /** Taking the DS block back removes the first one and nothing else. */
  lemma DropsOne(shards: nat, bs: seq<Block>, i: nat)
    requires i < |bs| && bs[i].shardId == shards && forall j :: 0 <= j < i ==> bs[j].shardId != shards
    ensures DropDS(shards, bs) == bs[..i] + bs[i + 1..]
  {
    assert FindDS(shards, bs) == i;
  }

  lemma DropOnePerShard(shards: nat, bs: seq<Block>)
    requires OnePerShard(shards, bs)
    ensures OnePerShard(shards, DropDS(shards, bs))
  {
    var r := DropDS(shards, bs);
    forall j | 0 <= j < |r|
      ensures r[j].shardId <= shards
    {
      DropOf(shards, bs, j);
    }
    forall j, k | 0 <= j < k < |r| && r[j].shardId == r[k].shardId
      ensures r[j].shardId == shards
    {
      DropOf(shards, bs, j);
      DropOf(shards, bs, k);
    }
  }

  lemma RemoveInv(n: Node, s: Store)
    requires n.Valid() && Inv(n, s)
    ensures Inv(n, s.(held := s.held[s.epoch := DropDS(n.Shards(), s.Held())]))
  {
    DropOnePerShard(n.Shards(), s.Held());
    var s' := s.(held := s.held[s.epoch := DropDS(n.Shards(), s.Held())]);
    forall k | 0 <= k < |s'.Held()| && s'.Held()[k].shardId != n.Shards()
      ensures BackedBy(n, s', s'.Held()[k])
    {
      DropOf(n.Shards(), s.Held(), k);
    }
  }

  // ---------- whole runs

  lemma {:induction false} RunInv(n: Node, ss: seq<Store>, es: seq<Event>, j: nat)
    requires n.Valid() && Run(n, ss, es) && j < |ss|
    ensures Inv(n, ss[j])
  {
    if j > 0 {
      RunInv(n, ss, es, j - 1);
      StepInv(n, ss[j - 1], es[j - 1]);
    }
  }

  /** At every point of every run through an epoch - direct, buffered and fetched arrivals in any
      order, own DS block, time-outs - no shard has two microblocks among those held. */
  lemma AtMostOnePerShard(n: Node, ss: seq<Store>, es: seq<Event>, j: nat)
    requires n.Valid() && Run(n, ss, es) && j < |ss|
    ensures OnePerShard(n.Shards(), ss[j].Held())
  {
    RunInv(n, ss, es, j);
  }

  /** ... and each held block of a shard was sent by one of its miners and certified by a quorum of it, and the
      record credits exactly the signers of that block, once for each round. */
  lemma HeldAreGenuine(n: Node, ss: seq<Store>, es: seq<Event>, j: nat, i: nat)
    requires n.Valid() && Run(n, ss, es) && j < |ss| && i < |ss[j].Held()| && ss[j].Held()[i].shardId != n.Shards()
    ensures BackedBy(n, ss[j], ss[j].Held()[i])
  {
    RunInv(n, ss, es, j);
  }

  ghost predicate AllPresent(shards: nat, bs: seq<Block>) { forall k :: 0 <= k < shards ==> HasShard(bs, k) }

  predicate IsArrival(ev: Event) { ev.FromShard? || ev.CommitBuffer? }

  /** A block that comes from its shard is no DS block. */
  lemma SubmitDS(n: Node, s: Store, a: Arrival)
    requires n.Valid()
    ensures HasShard(Submit(n, s, a).Held(), n.Shards()) <==> HasShard(s.Held(), n.Shards())
  {
    var s' := Submit(n, s, a);
    if s'.Held() != s.Held() {
      assert s'.Held() == s.Held() + [a.block];
      if HasShard(s.Held(), n.Shards()) {
        var i :| 0 <= i < |s.Held()| && s.Held()[i].shardId == n.Shards();
        assert s'.Held()[i].shardId == n.Shards();
      }
    }
  }

  lemma {:induction false} SubmitAllDS(n: Node, s: Store, arrivals: seq<Arrival>)
    requires n.Valid()
    ensures HasShard(SubmitAll(n, s, arrivals).Held(), n.Shards()) <==> HasShard(s.Held(), n.Shards())
  {
    if arrivals != [] {
      SubmitAllDS(n, s, arrivals[..|arrivals| - 1]);
      SubmitDS(n, SubmitAll(n, s, arrivals[..|arrivals| - 1]), arrivals[|arrivals| - 1]);
    }
  }

  lemma ArrivalDS(n: Node, s: Store, ev: Event)
    requires n.Valid() && IsArrival(ev)
    ensures HasShard(Next(n, s, ev).Held(), n.Shards()) <==> HasShard(s.Held(), n.Shards())
  {
    match ev {
      case FromShard(_, _, a) => SubmitDS(n, s, a);
      case CommitBuffer(_) => SubmitAllDS(n, s, s.BufferAt(s.epoch));
    }
  }

  /** The size-based trigger, exactly: when an arrival stops the collection, as many blocks as there
      are shards are held, and every shard is present if and only if no DS block was held before it. */
  lemma TriggerExactly(n: Node, ss: seq<Store>, es: seq<Event>, j: nat)
    requires n.Valid() && Run(n, ss, es) && j < |es|
    requires IsArrival(es[j]) && !ss[j].stop && ss[j + 1].stop
    ensures |ss[j + 1].Held()| == n.Shards()
    ensures AllPresent(n.Shards(), ss[j + 1].Held()) <==> !HasShard(ss[j].Held(), n.Shards())
  {
    RunInv(n, ss, es, j);
    RunInv(n, ss, es, j + 1);
    match es[j] {
      case FromShard(_, _, a) => SubmitInv(n, ss[j], a);
      case CommitBuffer(_) => SubmitAllInv(n, ss[j], ss[j].BufferAt(ss[j].epoch));
    }
    ArrivalDS(n, ss[j], es[j]);
    Pigeonhole(n.Shards(), ss[j + 1].Held());
  }

  // ---------- when no DS block can be held before the stop

  /** The hashes that a final block lists for shards. */
  ghost function Listed(shards: nat, finalBlock: Option<seq<Info>>): set<nat> {
    if finalBlock.None? then {} else set info | info in finalBlock.value && info.shardId != shards :: info.hash
  }

  lemma {:induction false} MissingIsListed(shards: nat, held: seq<Block>, infos: seq<Info>, h: nat)
    requires h in MissingOf(shards, held, infos)
    ensures h in Listed(shards, Some(infos))
  {
    var init, last := infos[..|infos| - 1], infos[|infos| - 1];
    assert last in infos && forall info :: info in init ==> info in infos;
    if h in MissingOf(shards, held, init) {
      MissingIsListed(shards, held, init, h);
    }
  }

  /** What is missing, exactly: the entries for shards with a hash that no held block has. */
  lemma {:induction false} MissingExactly(shards: nat, held: seq<Block>, infos: seq<Info>, h: nat)
    ensures h in MissingOf(shards, held, infos) <==>
              !HasHash(held, h) && exists i :: 0 <= i < |infos| && infos[i].shardId != shards && infos[i].hash == h
  {
    if infos != [] {
      var init, last := infos[..|infos| - 1], infos[|infos| - 1];
      MissingExactly(shards, held, init, h);
      if i :| 0 <= i < |infos| && infos[i].shardId != shards && infos[i].hash == h {
        assert i < |init| ==> init[i].hash == h;
      }
      assert infos == init + [last];
    }
  }

  /** While collecting, no DS block is held, and only listed hashes are missing. */
  ghost predicate Quiet(n: Node, s: Store, listed: set<nat>) {
    !s.stop ==>
      && !HasShard(s.Held(), n.Shards())
      && (forall h :: h in s.MissingAt(s.epoch) ==> h in listed)
      && Listed(n.Shards(), s.finalBlock) <= listed
  }

  /** No DS block among the fetched ones carries a listed hash. */
  ghost predicate NoneClaims(n: Node, arrivals: seq<Arrival>, listed: set<nat>) {
    forall i :: 0 <= i < |arrivals| && arrivals[i].block.shardId == n.Shards() ==> arrivals[i].block.hash !in listed
  }

  lemma FetchedQuiet(n: Node, s: Store, e: nat, a: Arrival, listed: set<nat>)
    requires n.Valid() && Inv(n, s) && !s.stop && Quiet(n, s, listed) && FetchOk(n, s, e, a.block)
    requires a.block.shardId == n.Shards() ==> a.block.hash !in listed
    ensures Quiet(n, Fetched(n, s, e, a), listed)
  {
    FetchedInv(n, s, e, a);
    FetchedAdds(n, s, e, a);
    NoDSBlockAdded(s.Held(), a.block, n.Shards());
  }

  lemma FetchedAdds(n: Node, s: Store, e: nat, a: Arrival)
    requires n.Valid() && FetchOk(n, s, e, a.block)
    ensures var s' := Fetched(n, s, e, a);
            s'.Held() == s.Held() || (e == s.epoch && s'.Held() == s.Held() + [a.block])
  {
  }

  lemma NoDSBlockAdded(bs: seq<Block>, b: Block, shards: nat)
    requires !HasShard(bs, shards)
    ensures b.shardId != shards ==> !HasShard(bs + [b], shards)
  {
  }

  lemma {:induction false} FetchFromQuiet(n: Node, s: Store, e: nat, arrivals: seq<Arrival>, i: nat, listed: set<nat>)
    requires n.Valid() && Inv(n, s) && !s.stop && Quiet(n, s, listed) && i <= |arrivals| && NoneClaims(n, arrivals, listed)
    ensures Quiet(n, FetchFrom(n, s, e, arrivals, i), listed)
    decreases |arrivals| - i
  {
    if i < |arrivals| && arrivals[i].checks.header {
      if FetchOk(n, s, e, arrivals[i].block) {
        FetchedInv(n, s, e, arrivals[i]);
        FetchedQuiet(n, s, e, arrivals[i], listed);
        FetchFromQuiet(n, Fetched(n, s, e, arrivals[i]), e, arrivals, i + 1, listed);
      } else {
        FetchFromQuiet(n, s, e, arrivals, i + 1, listed);
      }
    }
  }

  lemma FetchQuiet(n: Node, s: Store, e: nat, arrivals: seq<Arrival>, listed: set<nat>)
    requires n.Valid() && Inv(n, s) && !s.stop && Quiet(n, s, listed) && NoneClaims(n, arrivals, listed)
    ensures Quiet(n, Fetch(n, s, e, arrivals), listed)
  {
    FetchFromInv(n, s, e, arrivals, 0);
    FetchFromQuiet(n, s, e, arrivals, 0, listed);
    var s' := FetchFrom(n, s, e, arrivals, 0);
    if s'.finalBlock.Some? {
      forall h | h in MissingOf(n.Shards(), s'.Held(), s'.finalBlock.value)
        ensures h in listed
      {
        MissingIsListed(n.Shards(), s'.Held(), s'.finalBlock.value, h);
      }
    }
  }

  lemma StepQuiet(n: Node, s: Store, ev: Event, listed: set<nat>)
    requires n.Valid() && Inv(n, s) && Possible(n, s, ev) && Quiet(n, s, listed)
    requires ev.FromDS? ==> NoneClaims(n, ev.arrivals, listed)
    ensures Quiet(n, Next(n, s, ev), listed)
  {
    StepInv(n, s, ev);
    if !s.stop {
      if ev.FromDS? {
        FetchQuiet(n, s, ev.e, ev.arrivals, listed);
      } else if IsArrival(ev) {
        ArrivalDS(n, s, ev);
        ArrivalKeeps(n, s, ev);
      }
    }
  }

  lemma ArrivalKeeps(n: Node, s: Store, ev: Event)
    requires n.Valid() && IsArrival(ev)
    ensures Next(n, s, ev).missing == s.missing && Next(n, s, ev).finalBlock == s.finalBlock && Next(n, s, ev).epoch == s.epoch
  {
    match ev {
      case FromShard(_, _, a) => SubmitKeeps(n, s, a);
      case CommitBuffer(_) => SubmitAllKeeps(n, s, s.BufferAt(s.epoch));
    }
  }

  lemma SubmitKeeps(n: Node, s: Store, a: Arrival)
    requires n.Valid()
    ensures var s' := Submit(n, s, a);
            s'.missing == s.missing && s'.finalBlock == s.finalBlock && s'.epoch == s.epoch
  {
  }

  lemma {:induction false} SubmitAllKeeps(n: Node, s: Store, arrivals: seq<Arrival>)
    requires n.Valid()
    ensures var s' := SubmitAll(n, s, arrivals);
            s'.missing == s.missing && s'.finalBlock == s.finalBlock && s'.epoch == s.epoch
  {
    if arrivals != [] {
      SubmitAllKeeps(n, s, arrivals[..|arrivals| - 1]);
      SubmitKeeps(n, SubmitAll(n, s, arrivals[..|arrivals| - 1]), arrivals[|arrivals| - 1]);
    }
  }

  /** In the run up to `j`, no fetched DS block carries a hash that the final block at hand at the
      start of the epoch lists for a shard. */
  ghost predicate Unclaimed(n: Node, ss: seq<Store>, es: seq<Event>, j: nat)
    requires |ss| == |es| + 1 && j <= |es|
  {
    forall t :: 0 <= t < j && es[t].FromDS? ==> NoneClaims(n, es[t].arrivals, Listed(n.Shards(), ss[0].finalBlock))
  }

  lemma {:induction false} RunQuiet(n: Node, ss: seq<Store>, es: seq<Event>, j: nat)
    requires n.Valid() && Run(n, ss, es) && j < |ss| && Unclaimed(n, ss, es, j)
    ensures Quiet(n, ss[j], Listed(n.Shards(), ss[0].finalBlock))
  {
    if j > 0 {
      RunQuiet(n, ss, es, j - 1);
      RunInv(n, ss, es, j - 1);
      StepQuiet(n, ss[j - 1], es[j - 1], Listed(n.Shards(), ss[0].finalBlock));
    }
  }

  /** The trigger means that every shard is present, unless a fetched DS block has passed itself off as
      a shard's block of an earlier epoch. */
  lemma CompleteUnlessClaimed(n: Node, ss: seq<Store>, es: seq<Event>, j: nat)
    requires n.Valid() && Run(n, ss, es) && j < |es| && Unclaimed(n, ss, es, j)
    requires IsArrival(es[j]) && !ss[j].stop && ss[j + 1].stop
    ensures AllPresent(n.Shards(), ss[j + 1].Held())
  {
    RunQuiet(n, ss, es, j);
    TriggerExactly(n, ss, es, j);
  }

  /** Block hashes tell the shard: so they do in the final block at hand, and in every block fetched. */
  ghost predicate HashesTell(ss: seq<Store>, es: seq<Event>, shardOf: nat -> nat)
    requires |ss| == |es| + 1
  {
    && (ss[0].finalBlock.Some? ==>
          forall i :: 0 <= i < |ss[0].finalBlock.value| ==>
            ss[0].finalBlock.value[i].shardId == shardOf(ss[0].finalBlock.value[i].hash))
    && (forall t :: 0 <= t < |es| && es[t].FromDS? ==>
          forall i :: 0 <= i < |es[t].arrivals| ==>
            es[t].arrivals[i].block.shardId == shardOf(es[t].arrivals[i].block.hash))
  }

  /** In every run whose blocks carry their own hash the trigger fires only when every shard is present. */
  lemma TriggerMeansComplete(n: Node, ss: seq<Store>, es: seq<Event>, j: nat, shardOf: nat -> nat)
    requires n.Valid() && Run(n, ss, es) && j < |es| && HashesTell(ss, es, shardOf)
    requires IsArrival(es[j]) && !ss[j].stop && ss[j + 1].stop
    ensures AllPresent(n.Shards(), ss[j + 1].Held())
  {
    CompleteUnlessClaimed(n, ss, es, j);
  }

  /** It does so whatever hashes blocks carry when the final block at hand lists no shard, as in a node's
      first epoch, when there is none. */
  lemma FirstTriggerMeansComplete(n: Node, ss: seq<Store>, es: seq<Event>, j: nat)
    requires n.Valid() && Run(n, ss, es) && j < |es| && Listed(n.Shards(), ss[0].finalBlock) == {}
    requires IsArrival(es[j]) && !ss[j].stop && ss[j + 1].stop
    ensures AllPresent(n.Shards(), ss[j + 1].Held())
  {
    CompleteUnlessClaimed(n, ss, es, j);
  }

  /** A batch of fetched blocks, even an empty one, puts the listed hashes of an earlier final block on
      the missing list. */
  lemma EmptyBatch(n: Node, s: Store, h: nat)
    requires n.Valid() && s.Held() == [] && s.finalBlock == Some([Info(0, h)]) && n.Shards() > 0
    ensures Next(n, s, FromDS(s.epoch, [])) == s.(missing := s.missing[s.epoch := [h]])
  {
    assert MissingOf(n.Shards(), [], [Info(0, h)]) == [h] by {
      assert [Info(0, h)][..0] == [];
    }
  }

  lemma DSBlockStored(n: Node, s: Store, d: Arrival)
    requires n.Valid() && s.Held() == [] && s.MissingAt(s.epoch) == [d.block.hash] && s.finalBlock.Some?
    requires d.block.shardId == n.Shards() && d.block.miner in n.dir.dsCommittee && d.checks == Checks(true, true, true)
    ensures var s' := Next(n, s, FromDS(s.epoch, [d]));
            s'.Held() == [d.block] && s'.rewardees == s.rewardees && s'.epoch == s.epoch && s'.stop == s.stop
  {
    assert FetchOk(n, s, s.epoch, d.block);
    assert FetchFrom(n, s, s.epoch, [d], 0) == FetchFrom(n, Fetched(n, s, s.epoch, d), s.epoch, [d], 1);
  }

  lemma OnlyShardTriggers(n: Node, s: Store, d: Block, a: Arrival)
    requires n.Valid() && n.Shards() == 2 && !s.stop && s.Held() == [d] && NoShardRecorded(s)
    requires d.shardId == 2 && d.base == a.block.base && a.checks == Checks(true, true, true)
    requires a.block.shardId == 0 && n.MinerIn(a.block) && n.dir.Accepts(a.block.mb, 0)
    requires |a.block.mb.cs1.bits| == |a.block.mb.cs2.bits|
    ensures var s' := Next(n, s, FromShard(s.epoch, true, a));
            s'.stop && s'.Held() == [d, a.block]
  {
    assert !Recorded(s.rewardees, s.epoch, 0);
    assert Submit(n, s, a).Held() == [d, a.block];
  }

  /** Otherwise it need not be. With two shards and an earlier final block that lists hash `h` for shard
      0, this run stops the collection without a block of shard 1: an empty batch makes `h` missing, a DS
      block that carries `h` is fetched, and shard 0 submits. */
  lemma TriggerCanBeEarly(n: Node, s: Store, d: Arrival, a: Arrival) returns (ss: seq<Store>, es: seq<Event>)
    requires n.Valid() && n.Shards() == 2
    requires !s.stop && s.Held() == [] && NoShardRecorded(s) && s.MissingAt(s.epoch) == []
    requires s.finalBlock == Some([Info(0, d.block.hash)])
    requires d.block.shardId == 2 && d.block.miner in n.dir.dsCommittee && d.checks == Checks(true, true, true)
    requires a.block.shardId == 0 && n.MinerIn(a.block) && n.dir.Accepts(a.block.mb, 0) && a.checks == Checks(true, true, true)
    requires |a.block.mb.cs1.bits| == |a.block.mb.cs2.bits| && d.block.base == a.block.base
    ensures Run(n, ss, es) && |es| == 3 && ss[0] == s
    ensures IsArrival(es[2]) && !ss[2].stop && ss[3].stop && !HasShard(ss[3].Held(), 1)
  {
    var s1 := Next(n, s, FromDS(s.epoch, []));
    EmptyBatch(n, s, d.block.hash);
    var s2 := Next(n, s1, FromDS(s.epoch, [d]));
    DSBlockStored(n, s1, d);
    var s3 := Next(n, s2, FromShard(s.epoch, true, a));
    OnlyShardTriggers(n, s2, d.block, a);
    es := [FromDS(s.epoch, []), FromDS(s.epoch, [d]), FromShard(s.epoch, true, a)];
    ss := [s, s1, s2, s3];
    ThreeSteps(n, ss, es);
  }

  lemma ThreeSteps(n: Node, ss: seq<Store>, es: seq<Event>)
    requires n.Valid() && |ss| == 4 && |es| == 3
    requires !ss[0].stop && ss[0].Held() == [] && ss[0].MissingAt(ss[0].epoch) == [] && NoShardRecorded(ss[0])
    requires Possible(n, ss[0], es[0]) && Possible(n, ss[1], es[1]) && Possible(n, ss[2], es[2])
    requires ss[1] == Next(n, ss[0], es[0]) && ss[2] == Next(n, ss[1], es[1]) && ss[3] == Next(n, ss[2], es[2])
    ensures Run(n, ss, es)
  {
    forall j | 0 <= j < 3
      ensures Possible(n, ss[j], es[j]) && ss[j + 1] == Next(n, ss[j], es[j])
    {
      assert j == 0 || j == 1 || j == 2;
    }
  }

  // ---------- the pigeonhole argument

  function Ids(bs: seq<Block>): set<nat> {
    if bs == [] then {} else Ids(bs[..|bs| - 1]) + {bs[|bs| - 1].shardId}
  }

  lemma {:induction false} IdsOf(bs: seq<Block>, k: nat)
    ensures |Ids(bs)| <= |bs|
    ensures k in Ids(bs) <==> HasShard(bs, k)
  {
    if bs != [] {
      var init := bs[..|bs| - 1];
      IdsOf(init, k);
      assert HasShard(bs, k) <==> HasShard(init, k) || bs[|bs| - 1].shardId == k;
    }
  }

  lemma {:induction false} DistinctIds(bs: seq<Block>)
    requires forall i, j :: 0 <= i < j < |bs| ==> bs[i].shardId != bs[j].shardId
    ensures |Ids(bs)| == |bs|
  {
    if bs != [] {
      var last := |bs| - 1;
      DistinctIds(bs[..last]);
      IdsOf(bs[..last], bs[last].shardId);
    }
  }

  function UpTo(n: nat): (r: set<nat>)
    ensures |r| == n && forall k :: k in r <==> 0 <= k < n
  {
    if n == 0 then {} else UpTo(n - 1) + {n - 1}
  }

  lemma FullSubset(a: set<nat>, b: set<nat>)
    requires a <= b && |a| == |b|
    ensures a == b
  {
    assert b == (b - a) + a && |b| == |b - a| + |a|;
    assert b - a == {};
  }

  lemma CardSubset(a: set<nat>, b: set<nat>)
    requires a <= b
    ensures |a| <= |b|
  {
    assert b == (b - a) + a && |b| == |b - a| + |a|;
  }

  lemma Pigeonhole(shards: nat, bs: seq<Block>)
    requires OnePerShard(shards, bs) && |bs| == shards
    ensures AllPresent(shards, bs) <==> !HasShard(bs, shards)
  {
    forall k: nat {
      IdsOf(bs, k);
    }
    if HasShard(bs, shards) {
      if AllPresent(shards, bs) {
        CardSubset(UpTo(shards + 1), Ids(bs));
      }
    } else {
      DistinctIds(bs);
      FullSubset(Ids(bs), UpTo(shards));
      forall k | 0 <= k < shards
        ensures HasShard(bs, k)
      {
        assert k in UpTo(shards);
      }
    }
  }
}
