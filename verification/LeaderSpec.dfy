/** The consensus leader, reduced to what its behaviour depends on. */
module LeaderSpec {
  import opened Wrappers
  import opened Bits
  import opened MultiSig
  import opened Consensus

  datatype Config = Config(
    com: Committee, leaderID: nat, privKey: nat, secret: nat, numOfSubsets: nat, guardFirst: bool, numDSGuard: nat)
  {
    ghost predicate Valid() {
      && com.Lawful()
      && leaderID < com.Size()
      && com.keys[leaderID] == com.scheme.group.Mul(privKey, com.scheme.base)
    }

    /** The leader's own commit point; it serves both rounds. */
    function CommitPoint(): Point { com.scheme.group.Mul(secret, com.scheme.base) }
  }

  /** One group of q committed members that is challenged on its own. */
  datatype Subset = Subset(
    commitMap: seq<bool>, commitPointMap: seq<Point>, challenge: nat,
    responseMap: seq<bool>, responseDataMap: seq<nat>, state: State)

  /** Bitmaps, points and responses by member index. No counters and no arrival-ordered lists; the class
      `ConsensusLeader` keeps those and is proved to behave like this. */
  datatype Leader = Leader(
    state: State,
    announced: Bytes,            // the message as announced
    message: Bytes,              // the message being signed: extended once round one is over
    commitMap: seq<bool>, commitPointMap: seq<Point>,
    subsets: seq<Subset>,
    cs1: Option<CoSig>, cs2: Option<CoSig>,
    failureCounter: nat, failures: map<nat, Bytes>,
    timer: bool)                 // a commit window is open and its timer has not fired

  /** A step's new state and the messages it multicasts. */
  datatype Outcome = Outcome(leader: Leader, sent: seq<ToBackups>)

  // ---------- shape

  predicate SubsetShape(c: Config, sub: Subset) {
    |sub.commitMap| == |sub.commitPointMap| == |sub.responseMap| == |sub.responseDataMap| == c.com.Size()
  }

  predicate IsCollecting(s: State) { s.Initial? || s.AnnounceDone? || s.CollectiveSigDone? }

  predicate Shape(c: Config, l: Leader) {
    && (IsCollecting(l.state) ==> |l.commitMap| == |l.commitPointMap| == c.com.Size())
    && forall k :: 0 <= k < |l.subsets| ==> SubsetShape(c, l.subsets[k])
  }

  // ---------- transitions

  function OnlyLeader(c: Config): seq<bool>
    requires c.leaderID < c.com.Size()
  {
    NoBits(c.com.Size())[c.leaderID := true]
  }

  function OnlyLeaderPoint(c: Config): seq<Point>
    requires c.leaderID < c.com.Size()
  {
    seq(c.com.Size(), _ => c.com.scheme.group.neutral)[c.leaderID := c.CommitPoint()]
  }

  function Init(c: Config): Leader
    requires c.leaderID < c.com.Size()
  {
    Leader(Initial, [], [], OnlyLeader(c), OnlyLeaderPoint(c), [], Option.None, Option.None, 0, map[], false)
  }

  /** Announces `msg`. */
  function Start(c: Config, l: Leader, msg: Bytes): Outcome {
    if !l.state.Initial? then Outcome(l, [])
    else Outcome(l.(state := AnnounceDone, announced := msg, message := msg, failureCounter := 0,
                    timer := c.numOfSubsets > 1),
                 [Announcement(msg)])
  }

  /** How many subsets are drawn from a commit map. */
  function SubsetCount(c: Config, commitMap: seq<bool>): nat {
    if Count(commitMap) <= c.com.Quorum() + 1 then 1 else c.numOfSubsets
  }

  /** The bitmaps that drawing one subset may produce. */
  predicate PickOk(c: Config, commitMap: seq<bool>, pick: seq<bool>) {
    && Within(pick, commitMap)
    && Count(pick) == c.com.Quorum()
    && c.leaderID < |pick| && pick[c.leaderID]
  }

  /** A non-guard peer is taken only when every committed guard is. */
  predicate GuardsFirst(c: Config, commitMap: seq<bool>, pick: seq<bool>) {
    |pick| == |commitMap| &&
    forall i, j ::
      0 <= i < |pick| && 0 <= j < |pick| && i != c.leaderID && j < c.numDSGuard <= i && pick[i] && commitMap[j] ==> pick[j]
  }

  predicate PicksOk(c: Config, commitMap: seq<bool>, picks: seq<seq<bool>>) {
    && |picks| == SubsetCount(c, commitMap)
    && (forall k :: 0 <= k < |picks| ==> PickOk(c, commitMap, picks[k]))
    && (c.guardFirst && picks != [] ==> GuardsFirst(c, commitMap, picks[0]))
  }

  /** A subset right after its challenge went out: the leader has already responded. */
  function NewSubset(c: Config, l: Leader, pick: seq<bool>, state: State): Subset
    requires c.com.scheme.group.order > 0 && c.leaderID < c.com.Size()
    requires |pick| == |l.commitPointMap| == c.com.Size()
  {
    var points := seq(|pick|, i requires 0 <= i < |pick| =>
                      if pick[i] then l.commitPointMap[i] else c.com.scheme.group.neutral);
    var challenge := ChallengeValue(c.com.scheme, c.com.scheme.group.Sum(Select(pick, points)), c.com.KeySum(pick), l.message);
    Subset(pick, points, challenge, OnlyLeader(c),
           seq(c.com.Size(), _ => 0)[c.leaderID := Respond(c.com.scheme, c.secret, challenge, c.privKey)], state)
  }

  function InfoOf(c: Config, sub: Subset): ChallengeInfo
    requires SubsetShape(c, sub)
  {
    ChallengeInfo(c.com.scheme.group.Sum(Select(sub.commitMap, sub.commitPointMap)), c.com.KeySum(sub.commitMap), sub.challenge)
  }

  function NewSubsets(c: Config, l: Leader, picks: seq<seq<bool>>, state: State): (subs: seq<Subset>)
    requires c.com.scheme.group.order > 0 && c.leaderID < c.com.Size() && |l.commitPointMap| == c.com.Size()
    requires forall k :: 0 <= k < |picks| ==> |picks[k]| == c.com.Size()
    ensures |subs| == |picks|
    ensures forall k :: 0 <= k < |subs| ==> subs[k] == NewSubset(c, l, picks[k], state) && SubsetShape(c, subs[k])
  {
    seq(|picks|, k requires 0 <= k < |picks| => NewSubset(c, l, picks[k], state))
  }

  function InfosOf(c: Config, subs: seq<Subset>): (infos: seq<ChallengeInfo>)
    requires forall k :: 0 <= k < |subs| ==> SubsetShape(c, subs[k])
    ensures |infos| == |subs|
    ensures forall k :: 0 <= k < |subs| ==> infos[k] == InfoOf(c, subs[k])
  {
    seq(|subs|, k requires 0 <= k < |subs| => InfoOf(c, subs[k]))
  }

  /** Challenges the drawn subsets of the round whose commits were being collected. */
  function ChallengeSubsets(c: Config, l: Leader, round: Round, picks: seq<seq<bool>>): Outcome
    requires c.com.scheme.group.order > 0 && c.leaderID < c.com.Size() && |l.commitPointMap| == c.com.Size()
    requires forall k :: 0 <= k < |picks| ==> |picks[k]| == c.com.Size()
  {
    var subs := NewSubsets(c, l, picks, round.Challenged());
    Outcome(l.(state := round.Challenged(), commitMap := [], commitPointMap := [], subsets := subs),
            [Challenges(round, InfosOf(c, subs))])
  }

  predicate CommitAccepted(c: Config, l: Leader, m: ToLeader)
    requires Shape(c, l) && m.Commit? && c.com.scheme.group.order > 0
  {
    && l.state == m.round.Collecting()
    && m.id < c.com.Size()
    && !l.commitMap[m.id]
    && m.hash.Some?
    && m.hash == PointHash(c.com.scheme, m.point)
  }

  function Record(l: Leader, id: nat, point: Point): Leader
    requires id < |l.commitMap| == |l.commitPointMap|
  {
    l.(commitMap := l.commitMap[id := true], commitPointMap := l.commitPointMap[id := point])
  }

  /** The commit that completes a quorum starts the challenge at once when only one subset is used. */
  predicate CommitCompletes(c: Config, l: Leader, m: ToLeader)
    requires Shape(c, l) && m.Commit? && c.com.scheme.group.order > 0
  {
    && CommitAccepted(c, l, m)
    && c.numOfSubsets <= 1
    && Count(Record(l, m.id, m.point).commitMap) == c.com.Quorum()
  }

  function ProcessCommit(c: Config, l: Leader, m: ToLeader, picks: seq<seq<bool>>): Outcome
    requires Shape(c, l) && m.Commit? && c.com.scheme.group.order > 0 && c.leaderID < c.com.Size()
    requires CommitCompletes(c, l, m) ==> PicksOk(c, Record(l, m.id, m.point).commitMap, picks)
  {
    if !CommitAccepted(c, l, m) then Outcome(l, [])
    else
      var l' := Record(l, m.id, m.point);
      if CommitCompletes(c, l, m) then ChallengeSubsets(c, l', m.round, picks) else Outcome(l', [])
  }

  /** The commit window closes. */
  function FireTimer(c: Config, l: Leader, round: Round, picks: seq<seq<bool>>): Outcome
    requires Shape(c, l) && c.com.scheme.group.order > 0 && c.leaderID < c.com.Size()
    requires l.state == round.Collecting()
    requires Count(l.commitMap) >= c.com.Quorum() ==> PicksOk(c, l.commitMap, picks)
  {
    var l' := l.(timer := false);
    if Count(l.commitMap) < c.com.Quorum() then Outcome(l'.(state := Error), []) else ChallengeSubsets(c, l', round, picks)
  }

  predicate ResponseAccepted(c: Config, sub: Subset, round: Round, id: nat, response: nat)
    requires SubsetShape(c, sub)
  {
    && sub.state == round.Challenged()
    && id < c.com.Size()
    && sub.commitMap[id]
    && !sub.responseMap[id]
    && VerifyResponse(c.com.scheme, response, sub.challenge, c.com.keys[id], sub.commitPointMap[id])
  }

  function AddResponse(sub: Subset, id: nat, response: nat): Subset
    requires id < |sub.responseMap| == |sub.responseDataMap|
  {
    sub.(responseMap := sub.responseMap[id := true], responseDataMap := sub.responseDataMap[id := response])
  }

  /** The subset's collective signature. */
  function CoSigOf(c: Config, sub: Subset): CoSig
    requires SubsetShape(c, sub) && c.com.scheme.group.order > 0
  {
    CoSig(Signature(sub.challenge, c.com.scheme.group.SumMod(Select(sub.responseMap, sub.responseDataMap))), sub.responseMap)
  }

  /** Subset `k` has produced the round's certificate; the others are shut down. */
  function Conclude(c: Config, l: Leader, round: Round, k: nat, sub: Subset): Outcome
    requires c.com.scheme.group.order > 0 && c.leaderID < c.com.Size()
    requires SubsetShape(c, sub) && k < |l.subsets|
  {
    var cs := CoSigOf(c, sub);
    var subs := seq(|l.subsets|, j requires 0 <= j < |l.subsets| =>
                    if j == k then sub.(state := round.Concluded()) else l.subsets[j].(state := Initial));
    var l' := l.(state := round.Concluded(), subsets := subs);
    Outcome(
      if round.First? then
        l'.(message := c.com.Extend(l.message, cs), cs1 := Some(cs), commitMap := OnlyLeader(c),
            commitPointMap := OnlyLeaderPoint(c), failureCounter := 0, failures := map[], timer := c.numOfSubsets > 1)
      else
        l'.(cs2 := Some(cs)),
      [Collective(round, cs)])
  }

  /** The response message from subset `k` onward. */
  function ProcessResponsesFrom(c: Config, l: Leader, m: ToLeader, k: nat): Outcome
    requires Shape(c, l) && m.Responses? && k <= |m.responses| <= |l.subsets|
    requires c.com.scheme.group.order > 0 && c.leaderID < c.com.Size()
    decreases |m.responses| - k
  {
    if k == |m.responses| then Outcome(l, [])
    else if !ResponseAccepted(c, l.subsets[k], m.round, m.id, m.responses[k]) then ProcessResponsesFrom(c, l, m, k + 1)
    else
      var sub := AddResponse(l.subsets[k], m.id, m.responses[k]);
      if Count(sub.responseMap) != c.com.Quorum() then
        ProcessResponsesFrom(c, l.(subsets := l.subsets[k := sub]), m, k + 1)
      else if c.com.Signs(l.message, CoSigOf(c, sub)) then Conclude(c, l, m.round, k, sub)
      else Outcome(l.(subsets := l.subsets[k := sub.(state := Error)]), [])
  }

  function ProcessResponses(c: Config, l: Leader, m: ToLeader): Outcome
    requires Shape(c, l) && m.Responses?
    requires c.com.scheme.group.order > 0 && c.leaderID < c.com.Size()
  {
    if l.state != m.round.Challenged() || m.id >= c.com.Size() || |m.responses| > |l.subsets| then Outcome(l, [])
    else ProcessResponsesFrom(c, l, m, 0)
  }

  predicate FailureAllowed(s: State) {
    s in {Initial, AnnounceDone, ChallengeDone, CollectiveSigDone, FinalChallengeDone, State.Done}
  }

  predicate FailureResets(c: Config, l: Leader, m: ToLeader)
    requires m.CommitFailure?
  {
    && FailureAllowed(l.state)
    && m.id < c.com.Size() && m.id !in l.failures
    && l.failureCounter + 1 == c.com.Size() - c.com.Quorum()
  }

  function ProcessFailure(c: Config, l: Leader, m: ToLeader): Outcome
    requires m.CommitFailure?
  {
    if !FailureAllowed(l.state) || m.id >= c.com.Size() || m.id in l.failures then Outcome(l, [])
    else
      var l' := l.(failureCounter := l.failureCounter + 1, failures := l.failures[m.id := m.error]);
      if FailureResets(c, l, m) then Outcome(l'.(state := Initial), [ConsensusFailure]) else Outcome(l', [])
  }
}
