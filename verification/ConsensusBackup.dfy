/** The backup as the program keeps it. Each handler is proved to be the reaction of `BackupSpec`, so
    that its safety against an arbitrary leader, and its part in the agreement, hold for the object. */
module BackupNode {
  import opened Wrappers
  import opened MultiSig
  import opened Consensus
  import opened BackupSpec

  class ConsensusBackup {
    const c: Config
    var state: State
    ghost var announced: Bytes
    var messageToCosign: Bytes
    var commitSecret: nat
    var cs1: Option<CoSig>
    var cs2: Option<CoSig>

    ghost function View(): Backup
      reads this
    {
      Backup(state, announced, messageToCosign, commitSecret, cs1, cs2)
    }

    ghost predicate Valid()
      reads this
    {
      c.com.Lawful() && BackupSpec.Inv(c, View())
    }

    constructor (c: Config)
      requires c.com.Lawful()
      ensures this.c == c && Valid() && View() == Init()
    {
      this.c := c;
      state := Initial;
      announced, messageToCosign := [], [];
      commitSecret := 0;
      cs1, cs2 := Option.None, Option.None;
    }

    /** The validator fills the message buffer; `nonce` is the secret it will commit with. */
    method ProcessMessageAnnounce(m: ToBackups, verdict: Verdict, nonce: nat) returns (ok: bool, sent: seq<ToLeader>)
      requires c.com.Lawful() && m.Announcement?
      modifies this
      ensures Reaction(View(), sent) == Receive(c, old(View()), m, verdict, nonce)
    {
      if state != Initial {
        return false, [];
      }
      match verdict {
        case RejectWithError(buffer, error) =>
          messageToCosign := buffer;
          state := Error;
          return true, [CommitFailure(c.myID, error)];
        case RejectSilently(buffer) =>
          messageToCosign := buffer;
          return false, [];
        case Accept =>
          announced, messageToCosign := m.msg, m.msg;
          commitSecret := nonce;
          state := CommitDone;
          return true, [CommitWith(c, First, commitSecret)];
      }
    }

    method ProcessMessageConsensusFailure() returns (ok: bool)
      modifies this`state
      ensures state == Initial && ok
    {
      state := Initial;
      return true;
    }

    /** Recomputes the challenge of every subset and answers each; the first mismatch is an error. */
    method ProcessMessageChallengeCore(m: ToBackups) returns (ok: bool, sent: seq<ToLeader>)
      requires c.com.Lawful() && m.Challenges?
      modifies this`state
      ensures forall verdict, nonce :: Reaction(View(), sent) == Receive(c, old(View()), m, verdict, nonce)
    {
      if !Allows(state, m) {
        return false, [];
      }
      ghost var secret, before := commitSecret, state;
      var responses: seq<nat> := [];
      var i := 0;
      while i < |m.infos|
        invariant 0 <= i <= |m.infos| && state == before
        invariant forall k :: 0 <= k < i ==> Matches(c, messageToCosign, m.infos[k])
        invariant responses == ResponsesTo(c, secret, m.infos)[..i]
      {
        var verif := Challenge(c.com.scheme, THIRD_DOMAIN, m.infos[i].commit, m.infos[i].key, messageToCosign);
        if verif != Some(m.infos[i].challenge) {
          assert !Matches(c, messageToCosign, m.infos[i]);
          state := Error;
          return false, [];
        }
        responses := responses + [Respond(c.com.scheme, commitSecret, m.infos[i].challenge, c.privKey)];
        i := i + 1;
      }
      assert responses == ResponsesTo(c, secret, m.infos);
      state := Responded(m.round);
      return true, [Responses(m.round, c.myID, responses)];
    }

    /** Verifies the collective signature. In the first round it extends the message with it and
        commits anew; in the second it is done. */
    method ProcessMessageCollectiveSigCore(m: ToBackups, nonce: nat) returns (ok: bool, sent: seq<ToLeader>)
      requires c.com.Lawful() && m.Collective? && |m.cosig.bits| <= c.com.Size()
      modifies this`state, this`messageToCosign, this`commitSecret, this`cs1, this`cs2
      ensures forall verdict :: Reaction(View(), sent) == Receive(c, old(View()), m, verdict, nonce)
    {
      if !Allows(state, m) {
        return false, [];
      }
      var key := c.com.AggregateKeys(m.cosig.bits);
      if !MultiSigVerify(c.com.scheme, messageToCosign, m.cosig.sig, key) {
        state := Error;
        return false, [];
      }
      if m.round.First? {
        messageToCosign := messageToCosign + c.com.scheme.sigBytes(m.cosig.sig) + c.com.scheme.bitBytes(m.cosig.bits);
        commitSecret := nonce;
        state := FinalCommitDone;
        cs1 := Some(m.cosig);
        return true, [CommitWith(c, Second, commitSecret)];
      }
      cs2 := Some(m.cosig);
      state := State.Done;
      return true, [];
    }

    /** The caller has fetched what the announcement lacked and will process it again. */
    method RecoveryAndProcessFromANewState()
      requires Valid()
      modifies this`state
      ensures Valid() && View() == Recover(old(View()))
    {
      state := Initial;
    }

    /** Dispatch behind the gate. Whatever arrives, the state keeps telling what has been verified. */
    method ProcessGated(m: ToBackups, verdict: Verdict, nonce: nat) returns (ok: bool, sent: seq<ToLeader>)
      requires Valid() && (m.Collective? ==> |m.cosig.bits| <= c.com.Size())
      modifies this
      ensures Valid()
      ensures Reaction(View(), sent) == GatedReceive(c, old(View()), m, verdict, nonce)
    {
      StepInv(c, View(), m, verdict, nonce);
      ok, sent := false, [];
      if !CanProcess(state, m) {
        return;
      }
      match m {
        case Announcement(_) => ok, sent := ProcessMessageAnnounce(m, verdict, nonce);
        case ConsensusFailure => ok := ProcessMessageConsensusFailure();
        case Challenges(_, _) => ok, sent := ProcessMessageChallengeCore(m);
        case Collective(_, _) => ok, sent := ProcessMessageCollectiveSigCore(m, nonce);
      }
    }
  }
}
