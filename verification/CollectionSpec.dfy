/** How a directory node gathers one microblock per shard: from the shards directly, from the buffer of
    early submissions, and from other directory nodes when some are missing. */
module CollectionSpec {
  import opened Wrappers
  import opened MultiSig
  import opened MicroBlocks

  /** The header fields that the order on headers requires to agree before it looks further. */
  datatype Base = Base(version: nat, prevHash: Bytes, epoch: nat, dsBlock: nat)

  /** A microblock as it arrives. Its block hash is a field of its own; only the direct path compares it
      with the header. */
  datatype Block = Block(base: Base, shardId: nat, miner: Point, mb: MicroBlock, tranHashes: Bytes, hash: nat) {
    /** Headers are ordered by shard id, and only if their bases agree. */
    predicate HeaderBefore(b: Block) { base == b.base && shardId < b.shardId }

    /** The set of held blocks takes two blocks for one when neither header comes before the other and
        their transaction hashes are equal. */
    predicate SameAs(b: Block) { !HeaderBefore(b) && !b.HeaderBefore(this) && tranHashes == b.tranHashes }
  }

  /** An entry of a final block: a microblock's hash and the shard it is said to come from. */
  datatype Info = Info(shardId: nat, hash: nat)

  datatype Node = Node(dir: Directory, keyToShard: map<Point, nat>, myShardId: nat) {
    /** A directory node; every known miner key belongs to a shard. */
    ghost predicate Valid() {
      && dir.scheme.group.Lawful()
      && myShardId == |dir.shards|
      && forall k :: k in keyToShard ==> keyToShard[k] < |dir.shards|
    }
    function Shards(): nat { |dir.shards| }

    predicate MinerIn(b: Block) { b.miner in keyToShard && keyToShard[b.miner] == b.shardId }
  }

  /** What the rest of the program says about one arriving block: its header fields are current, it can
      be persisted, and its state delta applies. */
  datatype Checks = Checks(header: bool, persisted: bool, delta: bool)

  /** One arriving block with the answers it will get. */
  datatype Arrival = Arrival(block: Block, checks: Checks)

  type Rewardees = map<nat, map<int, seq<Point>>>

  datatype Store = Store(
    epoch: nat,
    held: map<nat, seq<Block>>,      // by epoch
    rewardees: Rewardees,            // by epoch and shard
    reputation: map<Point, nat>,
    missing: map<nat, seq<nat>>,     // hashes by epoch
    buffer: map<nat, seq<Arrival>>,  // by epoch
    finalBlock: Option<seq<Info>>,   // the last final block composed or examined, of whatever epoch
    stop: bool)
  {
    function HeldAt(e: nat): seq<Block> { if e in held then held[e] else [] }
    function MissingAt(e: nat): seq<nat> { if e in missing then missing[e] else [] }
    function BufferAt(e: nat): seq<Arrival> { if e in buffer then buffer[e] else [] }
    function Held(): seq<Block> { HeldAt(epoch) }
  }

  // ---------- the coinbase record

  const MAX_REPUTATION: nat := 4096

  predicate Recorded(r: Rewardees, epoch: nat, shardId: int) { epoch in r && shardId in r[epoch] }

  /** Each member once for every round it signed. */
  function Rewards(keys: seq<Point>, b1: seq<bool>, b2: seq<bool>): seq<Point>
    requires |keys| == |b1| == |b2|
  {
    if keys == [] then []
    else (if b1[0] then [keys[0]] else []) + (if b2[0] then [keys[0]] else []) + Rewards(keys[1..], b1[1..], b2[1..])
  }

  function ReputationOf(rep: map<Point, nat>, p: Point): nat { if p in rep then rep[p] else 0 }

  /** One more signature, up to the maximum. */
  function Raise(rep: map<Point, nat>, p: Point): map<Point, nat> {
    if ReputationOf(rep, p) < MAX_REPUTATION then rep[p := ReputationOf(rep, p) + 1] else rep
  }

  function RaiseAll(rep: map<Point, nat>, ps: seq<Point>): map<Point, nat> {
    if ps == [] then rep else Raise(RaiseAll(rep, ps[..|ps| - 1]), ps[|ps| - 1])
  }

  function AppendReward(r: Rewardees, epoch: nat, shardId: int, p: Point): Rewardees {
    var at := if epoch in r then r[epoch] else map[];
    r[epoch := at[shardId := (if shardId in at then at[shardId] else []) + [p]]]
  }

  /** The record with a whole list; an empty list leaves no trace. */
  function WithRewards(r: Rewardees, epoch: nat, shardId: int, ps: seq<Point>): Rewardees {
    if ps == [] then r else r[epoch := (if epoch in r then r[epoch] else map[])[shardId := ps]]
  }

  /** Refused when the shard is already on record for the epoch or a bitmap does not fit. */
  predicate CoinbaseOk(r: Rewardees, keys: seq<Point>, shardId: int, epoch: nat, b1: seq<bool>, b2: seq<bool>) {
    !Recorded(r, epoch, shardId) && |keys| == |b1| == |b2|
  }

  /** Puts a shard's signers on record for the current epoch. */
  function SaveCoinbase(s: Store, keys: seq<Point>, shardId: int, b1: seq<bool>, b2: seq<bool>): Store
    requires CoinbaseOk(s.rewardees, keys, shardId, s.epoch, b1, b2)
  {
    var ps := Rewards(keys, b1, b2);
    s.(rewardees := WithRewards(s.rewardees, s.epoch, shardId, ps), reputation := RaiseAll(s.reputation, ps))
  }

  // ---------- blocks

  predicate HasShard(bs: seq<Block>, shardId: nat) { exists i :: 0 <= i < |bs| && bs[i].shardId == shardId }

  predicate HasHash(bs: seq<Block>, hash: nat) { exists i :: 0 <= i < |bs| && bs[i].hash == hash }

  /** Insertion into the set of an epoch. */
  function Insert(s: Store, e: nat, b: Block): Store {
    var at := s.HeldAt(e);
    s.(held := s.held[e := if exists i :: 0 <= i < |at| && at[i].SameAs(b) then at else at + [b]])
  }

  function CoinbaseFor(n: Node, s: Store, b: Block): Store
    requires b.shardId < n.Shards()
    requires CoinbaseOk(s.rewardees, n.dir.shards[b.shardId], b.shardId, s.epoch, b.mb.cs1.bits, b.mb.cs2.bits)
  {
    SaveCoinbase(s, n.dir.shards[b.shardId], b.shardId, b.mb.cs1.bits, b.mb.cs2.bits)
  }

  /** Whether a block from its shard passes everything up to the coinbase record. */
  predicate SubmitOk(n: Node, s: Store, a: Arrival)
    requires n.Valid()
  {
    var b := a.block;
    && a.checks.header && n.MinerIn(b) && n.dir.Accepts(b.mb, b.shardId) && !s.stop
    && !HasShard(s.Held(), b.shardId)
    && CoinbaseOk(s.rewardees, n.dir.shards[b.shardId], b.shardId, s.epoch, b.mb.cs1.bits, b.mb.cs2.bits)
  }

  /** A block straight from its shard, or out of the buffer. */
  function Submit(n: Node, s: Store, a: Arrival): Store
    requires n.Valid()
  {
    if !SubmitOk(n, s, a) then s
    else
      var s1 := CoinbaseFor(n, s, a.block);
      if !a.checks.persisted || !a.checks.delta then s1
      else
        var s2 := Insert(s1, s.epoch, a.block);
        if |s2.Held()| == n.Shards() then s2.(stop := true) else s2
  }

  /** Whether a fetched block passes everything up to the coinbase record. */
  predicate FetchOk(n: Node, s: Store, e: nat, b: Block)
    requires n.Valid()
  {
    && (if b.shardId == n.Shards() then b.miner in n.dir.dsCommittee else n.MinerIn(b))
    && (b.shardId != n.myShardId ==> n.dir.Accepts(b.mb, b.shardId))
    && b.hash in s.MissingAt(e)
    && !HasHash(s.HeldAt(e), b.hash)
    && (b.shardId != n.Shards() ==>
          CoinbaseOk(s.rewardees, n.dir.shards[b.shardId], b.shardId, s.epoch, b.mb.cs1.bits, b.mb.cs2.bits))
  }

  /** A fetched block after its coinbase record. */
  function Fetched(n: Node, s: Store, e: nat, a: Arrival): Store
    requires n.Valid() && FetchOk(n, s, e, a.block)
  {
    var s1 := if a.block.shardId == n.Shards() then s else CoinbaseFor(n, s, a.block);
    if a.checks.delta && a.checks.persisted then Insert(s1, e, a.block) else s1
  }

  /** The fetched blocks from number `i` on. An outdated one, or a failure to persist, ends the batch. */
  function FetchFrom(n: Node, s: Store, e: nat, arrivals: seq<Arrival>, i: nat): Store
    requires n.Valid() && i <= |arrivals|
    decreases |arrivals| - i
  {
    if i == |arrivals| || !arrivals[i].checks.header then s
    else if !FetchOk(n, s, e, arrivals[i].block) then FetchFrom(n, s, e, arrivals, i + 1)
    else
      var s1 := Fetched(n, s, e, arrivals[i]);
      if arrivals[i].checks.delta && !arrivals[i].checks.persisted then s1
      else FetchFrom(n, s1, e, arrivals, i + 1)
  }

  /** Whether the whole batch was gone through. */
  predicate BatchDone(n: Node, s: Store, e: nat, arrivals: seq<Arrival>, i: nat)
    requires n.Valid() && i <= |arrivals|
    decreases |arrivals| - i
  {
    if i == |arrivals| then true
    else if !arrivals[i].checks.header then false
    else if !FetchOk(n, s, e, arrivals[i].block) then BatchDone(n, s, e, arrivals, i + 1)
    else
      !(arrivals[i].checks.delta && !arrivals[i].checks.persisted)
      && BatchDone(n, Fetched(n, s, e, arrivals[i]), e, arrivals, i + 1)
  }

  // ---------- the final block

  /** The entries for shards whose blocks are not held; DS entries are passed over. */
  function MissingOf(shards: nat, held: seq<Block>, infos: seq<Info>): seq<nat> {
    if infos == [] then []
    else
      var last := infos[|infos| - 1];
      MissingOf(shards, held, infos[..|infos| - 1])
      + if last.shardId != shards && !HasHash(held, last.hash) then [last.hash] else []
  }

  /** Recomputes the current epoch's missing list from whichever final block is at hand. */
  function CheckMicroBlocks(n: Node, s: Store): Store {
    if s.finalBlock.None? then s
    else s.(missing := s.missing[s.epoch := MissingOf(n.Shards(), s.Held(), s.finalBlock.value)])
  }

  /** A batch of fetched blocks; unless it was cut short, the final block is checked again. */
  function Fetch(n: Node, s: Store, e: nat, arrivals: seq<Arrival>): Store
    requires n.Valid()
  {
    var s' := FetchFrom(n, s, e, arrivals, 0);
    if BatchDone(n, s, e, arrivals, 0) then CheckMicroBlocks(n, s') else s'
  }

  /** The place of the first DS block, or the length. */
  function FindDS(shards: nat, bs: seq<Block>): (i: nat)
    ensures i <= |bs| && (i < |bs| ==> bs[i].shardId == shards)
    ensures forall j :: 0 <= j < i ==> bs[j].shardId != shards
  {
    if bs == [] || bs[0].shardId == shards then 0 else 1 + FindDS(shards, bs[1..])
  }

  /** Takes the first DS block out. */
  function DropDS(shards: nat, bs: seq<Block>): seq<Block> {
    var i := FindDS(shards, bs);
    if i < |bs| then bs[..i] + bs[i + 1..] else bs
  }

  function SubmitAll(n: Node, s: Store, arrivals: seq<Arrival>): Store
    requires n.Valid()
  {
    if arrivals == [] then s else Submit(n, SubmitAll(n, s, arrivals[..|arrivals| - 1]), arrivals[|arrivals| - 1])
  }

  /** Everything that can happen to the collection during one epoch. */
  datatype Event =
    | FromShard(e: nat, ready: bool, a: Arrival)     // a submission for epoch `e`; `ready`: microblocks are awaited
    | CommitBuffer(dropped: set<nat>)                // stale epochs that happen to be visited first are dropped
    | FromDS(e: nat, arrivals: seq<Arrival>)         // blocks fetched as missing
    | ExamineFinalBlock(infos: seq<Info>)            // a backup is shown the leader's final block
    | ComposeFinalBlock(infos: seq<Info>)            // the leader builds its own
    | OwnDSBlock(b: Block)                           // the DS committee's own microblock
    | RemoveDSBlock                                  // ... is taken back for a view change
    | TimeOut

  function Buffered(s: Store, e: nat, a: Arrival): Store {
    s.(buffer := s.buffer[e := s.BufferAt(e) + [a]])
  }

  function FromShardStep(n: Node, s: Store, e: nat, ready: bool, a: Arrival): Store
    requires n.Valid()
  {
    if s.epoch < e || (s.epoch == e && !ready) then Buffered(s, e, a)
    else if s.epoch == e then Submit(n, s, a)
    else s
  }

  function CommitBufferStep(n: Node, s: Store, dropped: set<nat>): Store
    requires n.Valid()
  {
    var s' := SubmitAll(n, s, s.BufferAt(s.epoch));
    s'.(buffer := s.buffer - dropped - {s.epoch})
  }

  /** The final block is worked on only once collection has stopped. */
  predicate Possible(n: Node, s: Store, ev: Event) {
    match ev
    case CommitBuffer(dropped) => forall e :: e in dropped ==> e < s.epoch
    case ExamineFinalBlock(_) => s.stop
    case ComposeFinalBlock(_) => s.stop
    case OwnDSBlock(b) => s.stop && b.shardId == n.Shards()
    case RemoveDSBlock => s.stop
    case _ => true
  }

  function Next(n: Node, s: Store, ev: Event): Store
    requires n.Valid()
  {
    match ev
    case FromShard(e, ready, a) => FromShardStep(n, s, e, ready, a)
    case CommitBuffer(dropped) => CommitBufferStep(n, s, dropped)
    case FromDS(e, arrivals) => Fetch(n, s, e, arrivals)
    case ExamineFinalBlock(infos) => CheckMicroBlocks(n, s.(finalBlock := Some(infos)))
    case ComposeFinalBlock(infos) => s.(finalBlock := Some(infos))
    case OwnDSBlock(b) => Insert(s, s.epoch, b)
    case RemoveDSBlock => s.(held := s.held[s.epoch := DropDS(n.Shards(), s.Held())])
    case TimeOut => s.(stop := true)
  }

  /** A run through one epoch: it starts with nothing held or on record for that epoch, and with
      nothing known to be missing; the buffer may already hold submissions, and the final block at hand
      is the one of an earlier epoch, if there was one. */
  ghost predicate Run(n: Node, ss: seq<Store>, es: seq<Event>)
    requires n.Valid()
  {
    && |ss| == |es| + 1
    && !ss[0].stop && ss[0].Held() == [] && ss[0].MissingAt(ss[0].epoch) == [] && NoShardRecorded(ss[0])
    && forall j :: 0 <= j < |es| ==> Possible(n, ss[j], es[j]) && ss[j + 1] == Next(n, ss[j], es[j])
  }

  ghost predicate NoShardRecorded(s: Store) {
    forall k: nat :: !Recorded(s.rewardees, s.epoch, k)
  }
}
