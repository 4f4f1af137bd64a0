/** What leader and backups of one consensus session share: states, rounds, messages, the quorum
    and the checks over a committee's bitmaps. */
module Consensus {
  import opened Wrappers
  import opened Bits
  import opened MultiSig

  datatype State =
    | Initial | AnnounceDone | CommitDone | ChallengeDone | ResponseDone | CollectiveSigDone
    | FinalCommitDone | FinalChallengeDone | FinalResponseDone | Done | Error
  {
    /** The numeric value of the state, which the subset bookkeeping compares. */
    function Rank(): nat {
      match this
      case Initial => 0 case AnnounceDone => 1 case CommitDone => 2 case ChallengeDone => 3
      case ResponseDone => 4 case CollectiveSigDone => 5 case FinalCommitDone => 6
      case FinalChallengeDone => 7 case FinalResponseDone => 8 case Done => 9 case Error => 10
    }
  }

  /** The two rounds: over the announced message, then over it extended with the first certificate. */
  datatype Round = First | Second {
    /** The leader state that accepts this round's commits. */
    function Collecting(): State { if First? then AnnounceDone else CollectiveSigDone }
    /** The leader state that accepts this round's responses. */
    function Challenged(): State { if First? then ChallengeDone else FinalChallengeDone }
    /** The leader state once this round's collective signature exists. */
    function Concluded(): State { if First? then CollectiveSigDone else State.Done }
  }

  /** A collective signature with the bitmap of its signers. */
  datatype CoSig = CoSig(sig: Signature, bits: seq<bool>)

  datatype ChallengeInfo = ChallengeInfo(commit: Point, key: Point, challenge: nat)

  /** Messages from the leader. */
  datatype ToBackups =
    | Announcement(msg: Bytes)
    | ConsensusFailure
    | Challenges(round: Round, infos: seq<ChallengeInfo>)
    | Collective(round: Round, cosig: CoSig)

  /** Messages to the leader. */
  datatype ToLeader =
    | Commit(round: Round, id: nat, point: Point, hash: Option<nat>)
    | Responses(round: Round, id: nat, responses: seq<nat>)
    | CommitFailure(id: nat, error: Bytes)

  /** The least number of members that is at least 667/1000 of the committee. */
  function NumForConsensus(n: nat): (q: nat)
    ensures 1000 * q >= 667 * n > 1000 * (q - 1)
    ensures q <= n && (n > 1 ==> q > 1)
  {
    (667 * n + 999) / 1000
  }

  /** The members, in the order that indexes every bitmap. */
  datatype Committee = Committee(scheme: Scheme, keys: seq<Point>) {

    ghost predicate Lawful() { scheme.group.Lawful() }

    function Size(): nat { |keys| }

    function Quorum(): nat { NumForConsensus(|keys|) }

    /** The aggregated key of the members in `bits`. */
    function KeySum(bits: seq<bool>): Point
      requires |bits| <= |keys|
    {
      scheme.group.Sum(Select(bits, keys))
    }

    /** The message of the second round: the first one, its collective signature and its bitmap. */
    function Extend(msg: Bytes, cs: CoSig): Bytes {
      msg + scheme.sigBytes(cs.sig) + scheme.bitBytes(cs.bits)
    }

    /** `cs` is a valid collective signature over `msg` by the members in its bitmap. */
    predicate Signs(msg: Bytes, cs: CoSig)
      requires scheme.group.order > 0
    {
      |cs.bits| <= |keys| && MultiSigVerify(scheme, msg, cs.sig, KeySum(cs.bits))
    }

    /** ... and these members, out of all, are exactly a quorum. */
    predicate Certifies(msg: Bytes, cs: CoSig)
      requires scheme.group.order > 0
    {
      Signs(msg, cs) && |cs.bits| == |keys| && Count(cs.bits) == Quorum()
    }

    /** Collects the selected keys and adds them up; a bitmap may be shorter than the committee. */
    method AggregateKeys(peerMap: seq<bool>) returns (key: Point)
      requires Lawful() && |peerMap| <= |keys|
      ensures key == KeySum(peerMap)
    {
      var selected: seq<Point> := [];
      var i := 0;
      while i < |peerMap|
        invariant 0 <= i <= |peerMap|
        invariant Select(peerMap, keys) == selected + Select(peerMap[i..], keys[i..])
      {
        assert peerMap[i..][1..] == peerMap[i + 1..] && keys[i..][1..] == keys[i + 1..];
        if peerMap[i] {
          selected := selected + [keys[i]];
        }
        i := i + 1;
      }
      assert selected == Select(peerMap, keys);
      var r := AggregatePoints(scheme, selected);
      key := r.GetOr(scheme.group.neutral);
    }
  }

  /** For every committee, two quorums share strictly more than a third of the members. */
  lemma QuorumsOverlap(n: nat, a: seq<bool>, b: seq<bool>)
    requires n > 0 && |a| == |b| == n
    requires Count(a) == Count(b) == NumForConsensus(n)
    ensures 3 * Count(And(a, b)) > n
  {
    Overlap(a, b);
  }
}
