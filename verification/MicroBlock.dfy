/** What a directory node accepts as a shard's certified microblock, and what that means for the
    consensus session that produced it. */
module MicroBlocks {
  import opened Bits
  import opened MultiSig
  import opened Consensus
  import Agreement

  /** A microblock: its serialised header and the two collective signatures with their bitmaps. */
  datatype MicroBlock = MicroBlock(header: Bytes, cs1: CoSig, cs2: CoSig)

  /** The member lists a directory node knows. */
  datatype Directory = Directory(scheme: Scheme, dsCommittee: seq<Point>, shards: seq<seq<Point>>) {
    /** The DS committee counts as the shard after the last one. */
    function Members(shardId: nat): Committee
      requires shardId <= |shards|
    {
      Committee(scheme, if shardId == |shards| then dsCommittee else shards[shardId])
    }

    /** A quorum of exactly q members signed the header together with the first-round certificate. */
    predicate Accepts(mb: MicroBlock, shardId: nat)
      requires scheme.group.order > 0 && shardId <= |shards|
    {
      var com := Members(shardId);
      com.Certifies(com.Extend(mb.header, mb.cs1), mb.cs2)
    }

    method VerifyMicroBlockCoSignature(mb: MicroBlock, shardId: nat) returns (ok: bool)
      requires scheme.group.Lawful() && shardId <= |shards|
      ensures ok <==> Accepts(mb, shardId)
    {
      var members := if shardId == |shards| then dsCommittee else shards[shardId];
      var b2 := mb.cs2.bits;
      if |members| != |b2| {
        return false;
      }
      var keys, count := SignerKeys(members, b2);
      if count != NumForConsensus(|b2|) {
        return false;
      }
      var key := AggregatePoints(scheme, keys);
      if key.None? {
        return false;
      }
      var message := mb.header + scheme.sigBytes(mb.cs1.sig) + scheme.bitBytes(mb.cs1.bits);
      return MultiSigVerify(scheme, message, mb.cs2.sig, key.value);
    }
  }

  /** The keys of the members whose bit is set, and how many there are. */
  method SignerKeys(members: seq<Point>, bits: seq<bool>) returns (keys: seq<Point>, count: nat)
    requires |members| == |bits|
    ensures keys == Select(bits, members) && count == Count(bits)
  {
    keys, count := [], 0;
    var index := 0;
    while index < |members|
      invariant 0 <= index <= |members|
      invariant Select(bits, members) == keys + Select(bits[index..], members[index..])
      invariant Count(bits) == count + Count(bits[index..])
    {
      assert bits[index..][1..] == bits[index + 1..] && members[index..][1..] == members[index + 1..];
      if bits[index] {
        keys := keys + [members[index]];
        count := count + 1;
      }
      index := index + 1;
    }
  }

  /** End to end: whenever in a run the leader is done, the microblock built from the message it
      announced and the two certificates it holds is accepted by every node with the same member
      list - however commits and responses arrived and whatever the other members sent. */
  lemma FinishedLeaderIsAccepted(w: Agreement.World, ss: seq<Agreement.System>, es: seq<Agreement.Event>, j: nat,
                                 dir: Directory, shardId: nat)
    requires w.Valid() && Agreement.Run(w, ss, es) && j < |ss| && ss[j].leader.state.Done?
    requires shardId <= |dir.shards| && dir.Members(shardId) == w.leader.com
    ensures var l := ss[j].leader;
            && l.cs1.Some? && l.cs2.Some?
            && dir.Accepts(MicroBlock(l.announced, l.cs1.value, l.cs2.value), shardId)
  {
    Agreement.RunInv(w, ss, es, j);
  }

  /** ... and so is the microblock any finished backup of that session builds. */
  lemma FinishedBackupIsAccepted(w: Agreement.World, ss: seq<Agreement.System>, es: seq<Agreement.Event>, j: nat, k: nat,
                                 dir: Directory, shardId: nat)
    requires w.Valid() && Agreement.Run(w, ss, es) && j < |ss| && k < |w.backups|
    requires |ss[j].backups| == |w.backups| && ss[j].backups[k].state.Done?
    requires shardId <= |dir.shards| && dir.Members(shardId) == w.leader.com
    ensures var b := ss[j].backups[k];
            && b.cs1.Some? && b.cs2.Some?
            && dir.Accepts(MicroBlock(ss[j].leader.announced, b.cs1.value, b.cs2.value), shardId)
  {
    Agreement.RunInv(w, ss, es, j);
    Agreement.AgreementInEveryRun(w, ss, es, j, k);
  }

  /** Two accepted microblocks of one member list share strictly more than a third of the members as
      second-round signers, so certifying two different headers takes that many double signers. */
  lemma AcceptedBlocksOverlap(dir: Directory, shardId: nat, a: MicroBlock, b: MicroBlock)
    requires dir.scheme.group.Lawful() && shardId <= |dir.shards|
    requires dir.Accepts(a, shardId) && dir.Accepts(b, shardId)
    ensures |a.cs2.bits| == |b.cs2.bits| == |dir.Members(shardId).keys|
    ensures 3 * Count(And(a.cs2.bits, b.cs2.bits)) > |dir.Members(shardId).keys|
  {
    QuorumsOverlap(|dir.Members(shardId).keys|, a.cs2.bits, b.cs2.bits);
  }
}
