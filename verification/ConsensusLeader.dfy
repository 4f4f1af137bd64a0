/** The leader as the program keeps it: counters and arrival-ordered lists beside the bitmaps. Each
    method is proved to take the step of `LeaderSpec`, and to keep the redundant data consistent, so
    the facts about every run hold for the object. */
module LeaderNode {
  import opened Wrappers
  import opened Bits
  import opened MultiSig
  import opened Consensus
  import opened LeaderSpec
  import opened SubsetGeneration
  import LeaderProof

  function Abstract(sub: ConsensusSubset): Subset {
    Subset(sub.commitMap, sub.commitPointMap, sub.challenge, sub.responseMap, sub.responseDataMap, sub.state)
  }

  function AbstractAll(subs: seq<ConsensusSubset>): (r: seq<Subset>)
    ensures |r| == |subs| && forall k :: 0 <= k < |subs| ==> r[k] == Abstract(subs[k])
  {
    seq(|subs|, k requires 0 <= k < |subs| => Abstract(subs[k]))
  }

  lemma ConsistentUpdate(c: Config, subs: seq<ConsensusSubset>, k: nat, sub: ConsensusSubset)
    requires k < |subs| && AllConsistent(c, subs) && Consistent(c, sub)
    ensures AllConsistent(c, subs[k := sub])
  {
  }

  lemma AbstractUpdate(subs: seq<ConsensusSubset>, k: nat, sub: ConsensusSubset)
    requires k < |subs|
    ensures AbstractAll(subs[k := sub]) == AbstractAll(subs)[k := Abstract(sub)]
  {
  }

  /** In a subset the lists hold exactly the entries of their bitmaps, and the counter counts. */
  ghost predicate Consistent(c: Config, sub: ConsensusSubset) {
    && |sub.commitMap| == |sub.commitPointMap| && |sub.responseMap| == |sub.responseDataMap|
    && multiset(sub.commitPoints) == multiset(Select(sub.commitMap, sub.commitPointMap))
    && sub.responseCounter == Count(sub.responseMap) == |sub.responseData| <= c.com.Quorum()
    && multiset(sub.responseData) == multiset(Select(sub.responseMap, sub.responseDataMap))
    && forall i :: 0 <= i < |sub.responseData| ==> sub.responseData[i] < c.com.scheme.group.order
  }

  /** A drawn subset before its challenge: committee-sized, its commit points listed in some order. */
  ghost predicate Ready(c: Config, sub: ConsensusSubset) {
    && |sub.commitMap| == |sub.commitPointMap| == |sub.responseMap| == |sub.responseDataMap| == c.com.Size()
    && sub.commitPoints != [] && multiset(sub.commitPoints) == multiset(Select(sub.commitMap, sub.commitPointMap))
  }

  ghost predicate AllReady(c: Config, subs: seq<ConsensusSubset>) {
    forall k :: 0 <= k < |subs| ==> Ready(c, subs[k])
  }

  // ---------- issuing the challenge

  ghost function WithChallenge(c: Config, msg: Bytes, sub: ConsensusSubset): (sub': ConsensusSubset)
    requires Ready(c, sub) && c.com.scheme.group.order > 0
    ensures Ready(c, sub')
  {
    sub.(challenge := ChallengeValue(c.com.scheme, c.com.scheme.group.Sum(Select(sub.commitMap, sub.commitPointMap)),
                                     c.com.KeySum(sub.commitMap), msg))
  }

  ghost function WithLeaderResponse(c: Config, sub: ConsensusSubset, state: State): ConsensusSubset
    requires Ready(c, sub) && c.leaderID < c.com.Size() && c.com.scheme.group.order > 0
  {
    var r := Respond(c.com.scheme, c.secret, sub.challenge, c.privKey);
    sub.(state := if state.Initial? || state.Rank() > sub.state.Rank() then state else sub.state,
         responseData := sub.responseData + [r],
         responseDataMap := sub.responseDataMap[c.leaderID := r],
         responseMap := sub.responseMap[c.leaderID := true],
         responseCounter := 1)
  }

  ghost function AllChallenged(c: Config, msg: Bytes, subs: seq<ConsensusSubset>): (r: seq<ConsensusSubset>)
    requires AllReady(c, subs) && c.com.scheme.group.order > 0
    ensures |r| == |subs| && AllReady(c, r)
    ensures forall k :: 0 <= k < |subs| ==> r[k] == WithChallenge(c, msg, subs[k])
  {
    seq(|subs|, k requires 0 <= k < |subs| => WithChallenge(c, msg, subs[k]))
  }

  ghost function AllAnswered(c: Config, subs: seq<ConsensusSubset>, state: State): (r: seq<ConsensusSubset>)
    requires AllReady(c, subs) && c.leaderID < c.com.Size() && c.com.scheme.group.order > 0
    ensures |r| == |subs|
    ensures forall k :: 0 <= k < |subs| ==> r[k] == WithLeaderResponse(c, subs[k], state)
  {
    seq(|subs|, k requires 0 <= k < |subs| => WithLeaderResponse(c, subs[k], state))
  }

  ghost function AllInfos(c: Config, subs: seq<ConsensusSubset>): (infos: seq<ChallengeInfo>)
    requires AllReady(c, subs)
    ensures |infos| == |subs|
    ensures forall k :: 0 <= k < |subs| ==> Ready(c, subs[k]) && infos[k] == InfoOf(c, Abstract(subs[k]))
  {
    seq(|subs|, k requires 0 <= k < |subs| => assert Ready(c, subs[k]); InfoOf(c, Abstract(subs[k])))
  }

  ghost predicate AllDrawn(c: Config, points: seq<Point>, subs: seq<ConsensusSubset>, state: State) {
    forall k :: 0 <= k < |subs| ==> Drawn(c, points, subs[k]) && Silent(c, subs[k], state)
  }

  ghost predicate AllConsistent(c: Config, subs: seq<ConsensusSubset>) {
    forall k :: 0 <= k < |subs| ==> Consistent(c, subs[k])
  }

  lemma DrawnIsReady(c: Config, points: seq<Point>, sub: ConsensusSubset, state: State)
    requires Drawn(c, points, sub) && Silent(c, sub, state)
    requires Count(sub.commitMap) > 0
    ensures Ready(c, sub)
  {
  }

  lemma AnsweredConsistent(c: Config, sub: ConsensusSubset, state: State)
    requires Ready(c, sub) && c.Valid()
    requires sub.responseMap == NoBits(c.com.Size()) && sub.responseDataMap == seq(c.com.Size(), _ => 0) && sub.responseData == []
    ensures Consistent(c, WithLeaderResponse(c, sub, state))
  {
    var n := c.com.Size();
    var r := Respond(c.com.scheme, c.secret, sub.challenge, c.privKey);
    CountNone(n);
    CountSet(NoBits(n), c.leaderID);
    SelectNone(sub.responseDataMap);
    SelectSet(NoBits(n), sub.responseDataMap, c.leaderID, r);
    assert WithLeaderResponse(c, sub, state).responseData == [r];
  }

  lemma ChallengedSubset(c: Config, l: Leader, sub: ConsensusSubset, round: Round)
    requires c.Valid() && LeaderProof.Collects(c, l)
    requires Drawn(c, l.commitPointMap, sub) && Silent(c, sub, round.Collecting()) && Ready(c, sub)
    ensures var half := WithChallenge(c, l.message, sub);
            var new' := NewSubset(c, l, sub.commitMap, round.Challenged());
            && Abstract(WithLeaderResponse(c, half, round.Challenged())) == new'
            && InfoOf(c, new') == InfoOf(c, Abstract(half))
            && Consistent(c, WithLeaderResponse(c, half, round.Challenged()))
  {
    DrawnPoints(c, l, sub, round.Challenged());
    AnsweredConsistent(c, WithChallenge(c, l.message, sub), round.Challenged());
  }

  lemma DrawnPoints(c: Config, l: Leader, sub: ConsensusSubset, state: State)
    requires c.Valid() && LeaderProof.Collects(c, l) && Drawn(c, l.commitPointMap, sub) && Ready(c, sub)
    ensures sub.commitPointMap == NewSubset(c, l, sub.commitMap, state).commitPointMap
  {
  }

  function Recorded(sub: ConsensusSubset, id: nat, response: nat): ConsensusSubset
    requires id < |sub.responseMap| == |sub.responseDataMap|
  {
    sub.(responseData := sub.responseData + [response],
         responseDataMap := sub.responseDataMap[id := response],
         responseMap := sub.responseMap[id := true],
         responseCounter := sub.responseCounter + 1)
  }

  lemma ResponseRecorded(c: Config, msg: Bytes, sub: ConsensusSubset, id: nat, response: nat)
    requires c.Valid() && Consistent(c, sub) && response < c.com.scheme.group.order
    requires id < |sub.responseMap| && !sub.responseMap[id]
    requires LeaderProof.SubsetInv(c, msg, AddResponse(Abstract(sub), id, response))
    ensures Abstract(Recorded(sub, id, response)) == AddResponse(Abstract(sub), id, response)
    ensures Consistent(c, Recorded(sub, id, response))
  {
    CountSet(sub.responseMap, id);
    SelectSet(sub.responseMap, sub.responseDataMap, id, response);
    WithinCount(sub.responseMap[id := true], sub.commitMap);
  }

  /** The subset has produced a collective signature. */
  predicate Ended(s: State) { s.CollectiveSigDone? || s.Done? }

  /** All subsets but number `k` back to the initial state. */
  ghost function OnlyRuns(subs: seq<ConsensusSubset>, k: nat): (r: seq<ConsensusSubset>)
    ensures |r| == |subs|
    ensures forall j :: 0 <= j < |subs| ==> r[j] == if j == k then subs[j] else subs[j].(state := Initial)
  {
    seq(|subs|, j requires 0 <= j < |subs| => if j == k then subs[j] else subs[j].(state := Initial))
  }

  /** One iteration over a response message. */
  lemma OneResponse(c: Config, l: Leader, m: ToLeader, k: nat)
    requires c.Valid() && Shape(c, l) && m.Responses? && k < |m.responses| <= |l.subsets|
    ensures var goal := ProcessResponsesFrom(c, l, m, k);
            if !ResponseAccepted(c, l.subsets[k], m.round, m.id, m.responses[k]) then
              goal == ProcessResponsesFrom(c, l, m, k + 1)
            else
              var l' := l.(subsets := l.subsets[k := AddResponse(l.subsets[k], m.id, m.responses[k])]);
              goal == if Count(l'.subsets[k].responseMap) != c.com.Quorum() then ProcessResponsesFrom(c, l', m, k + 1)
                      else LeaderProof.Completion(c, l', m.round, k, l'.subsets[k])
  {
    if ResponseAccepted(c, l.subsets[k], m.round, m.id, m.responses[k]) {
      ConcludeIgnoresOld(c, l, m.round, k, AddResponse(l.subsets[k], m.id, m.responses[k]));
    }
  }

  ghost function Answered(c: Config, sub: ConsensusSubset, state: State): ConsensusSubset
    requires c.leaderID < c.com.Size() && c.com.scheme.group.order > 0
  {
    if Ready(c, sub) then WithLeaderResponse(c, sub, state) else sub
  }

  /** The first `i` subsets answered, one after the other. */
  ghost function AnswerFirst(c: Config, subs: seq<ConsensusSubset>, state: State, i: nat): (r: seq<ConsensusSubset>)
    requires c.leaderID < c.com.Size() && c.com.scheme.group.order > 0 && i <= |subs|
    ensures |r| == |subs|
  {
    if i == 0 then subs
    else
      var before := AnswerFirst(c, subs, state, i - 1);
      before[i - 1 := Answered(c, before[i - 1], state)]
  }

  lemma {:induction false} AnswerFirstAt(c: Config, subs: seq<ConsensusSubset>, state: State, i: nat, k: nat)
    requires c.leaderID < c.com.Size() && c.com.scheme.group.order > 0 && i <= |subs| && k < |subs|
    ensures AnswerFirst(c, subs, state, i)[k] == if k < i then Answered(c, subs[k], state) else subs[k]
  {
    if i > 0 {
      AnswerFirstAt(c, subs, state, i - 1, k);
    }
  }

  lemma AnswerFirstAll(c: Config, subs: seq<ConsensusSubset>, state: State)
    requires c.leaderID < c.com.Size() && c.com.scheme.group.order > 0 && AllReady(c, subs)
    ensures AnswerFirst(c, subs, state, |subs|) == AllAnswered(c, subs, state)
  {
    forall k | 0 <= k < |subs|
      ensures AnswerFirst(c, subs, state, |subs|)[k] == AllAnswered(c, subs, state)[k]
    {
      AnswerFirstAt(c, subs, state, |subs|, k);
      assert Ready(c, subs[k]);
    }
  }

  ghost predicate CommitsAgree(counter: nat, bits: seq<bool>, pointMap: seq<Point>, points: seq<Point>) {
    && |bits| == |pointMap|
    && counter == Count(bits) == |points|
    && multiset(points) == multiset(Select(bits, pointMap))
  }

  lemma GivenUp(c: Config, subs: seq<ConsensusSubset>, k: nat)
    requires k < |subs| && AllConsistent(c, subs)
    ensures var subs' := subs[k := subs[k].(state := Error)];
            AllConsistent(c, subs') && AbstractAll(subs') == AbstractAll(subs)[k := AbstractAll(subs)[k].(state := Error)]
  {
    AbstractUpdate(subs, k, subs[k].(state := Error));
  }

  lemma BlankPoints(c: Config)
    requires c.leaderID < c.com.Size()
    ensures ([] + seq(c.com.Size(), _ => c.com.scheme.group.neutral))[c.leaderID := c.CommitPoint()] == OnlyLeaderPoint(c)
  {
  }

  lemma AloneConsistent(c: Config)
    requires c.leaderID < c.com.Size()
    ensures CommitsAgree(1, OnlyLeader(c), OnlyLeaderPoint(c), [c.CommitPoint()])
  {
    var n := c.com.Size();
    var blank := seq(n, _ => c.com.scheme.group.neutral);
    CountNone(n);
    CountSet(NoBits(n), c.leaderID);
    SelectNone(blank);
    SelectSet(NoBits(n), blank, c.leaderID, c.CommitPoint());
  }

  lemma DrawnAreReady(c: Config, l: Leader, subs: seq<ConsensusSubset>, state: State)
    requires c.Valid() && PicksOk(c, l.commitMap, Picks(subs))
    requires AllDrawn(c, l.commitPointMap, subs, state)
    ensures AllReady(c, subs)
  {
    forall k | 0 <= k < |subs| ensures Ready(c, subs[k]) {
      assert PickOk(c, l.commitMap, Picks(subs)[k]);
      DrawnIsReady(c, l.commitPointMap, subs[k], state);
    }
  }

  /** Answering the challenged subsets will be the specified step. */
  ghost predicate Foreseen(c: Config, l: Leader, round: Round, picks: seq<seq<bool>>, challenged: seq<ConsensusSubset>)
    requires c.Valid() && LeaderProof.Collects(c, l) && AllReady(c, challenged)
  {
    && (forall k :: 0 <= k < |picks| ==> |picks[k]| == c.com.Size())
    && var o := ChallengeSubsets(c, l, round, picks);
       var answered := AllAnswered(c, challenged, round.Challenged());
       && o.leader == l.(state := round.Challenged(), commitMap := [], commitPointMap := [], subsets := AbstractAll(answered))
       && o.sent == [Challenges(round, AllInfos(c, challenged))]
       && AllConsistent(c, answered)
  }

  lemma ChallengedSubsets(c: Config, l: Leader, subs: seq<ConsensusSubset>, round: Round)
    requires c.Valid() && LeaderProof.Collects(c, l) && l.state == round.Collecting()
    requires PicksOk(c, l.commitMap, Picks(subs))
    requires AllDrawn(c, l.commitPointMap, subs, l.state)
    ensures AllReady(c, subs) && Foreseen(c, l, round, Picks(subs), AllChallenged(c, l.message, subs))
  {
    DrawnAreReady(c, l, subs, l.state);
    assert forall k :: 0 <= k < |subs| ==> Drawn(c, l.commitPointMap, subs[k]);
    var o := ChallengeSubsets(c, l, round, Picks(subs));
    var challenged := AllChallenged(c, l.message, subs);
    var answered := AllAnswered(c, challenged, round.Challenged());
    forall k | 0 <= k < |subs| {
      ChallengedSubset(c, l, subs[k], round);
    }
    AnsweredAre(o.leader.subsets, answered);
    InfosAre(c, o.leader.subsets, challenged);
  }

  lemma AnsweredAre(subs: seq<Subset>, answered: seq<ConsensusSubset>)
    requires |subs| == |answered| && forall k :: 0 <= k < |subs| ==> subs[k] == Abstract(answered[k])
    ensures subs == AbstractAll(answered)
  {
  }

  lemma InfosAre(c: Config, subs: seq<Subset>, challenged: seq<ConsensusSubset>)
    requires AllReady(c, challenged) && |subs| == |challenged| && forall k :: 0 <= k < |subs| ==> SubsetShape(c, subs[k])
    requires forall k :: 0 <= k < |subs| ==> Ready(c, challenged[k]) && InfoOf(c, subs[k]) == InfoOf(c, Abstract(challenged[k]))
    ensures InfosOf(c, subs) == AllInfos(c, challenged)
  {
  }

  lemma ConcludedSubsets(c: Config, l: Leader, subs: seq<ConsensusSubset>, round: Round, k: nat)
    requires c.Valid() && l.subsets == AbstractAll(subs) && k < |subs| && AllConsistent(c, subs)
    requires SubsetShape(c, l.subsets[k]) && l.subsets[k].state == round.Challenged()
    ensures var ended := OnlyRuns(subs[k := subs[k].(state := round.Concluded())], k);
            AllConsistent(c, ended) && AbstractAll(ended) == Conclude(c, l, round, k, l.subsets[k]).leader.subsets
  {
    var ended := OnlyRuns(subs[k := subs[k].(state := round.Concluded())], k);
    assert AbstractAll(ended) == Conclude(c, l, round, k, l.subsets[k]).leader.subsets;
  }

  lemma ConcludeIgnoresOld(c: Config, l: Leader, round: Round, k: nat, sub: Subset)
    requires c.Valid() && k < |l.subsets| && SubsetShape(c, sub)
    ensures Conclude(c, l.(subsets := l.subsets[k := sub]), round, k, sub) == Conclude(c, l, round, k, sub)
  {
    assert Conclude(c, l.(subsets := l.subsets[k := sub]), round, k, sub).leader.subsets == Conclude(c, l, round, k, sub).leader.subsets;
  }

  class ConsensusLeader {
    const c: Config
    var state: State
    ghost var announced: Bytes
    var messageToCosign: Bytes
    var commitCounter: nat
    var commitMap: seq<bool>
    var commitPointMap: seq<Point>
    var commitPoints: seq<Point>
    var subsets: seq<ConsensusSubset>
    var cs1: Option<CoSig>
    var cs2: Option<CoSig>
    var commitFailureCounter: nat
    var commitFailureMap: map<nat, Bytes>
    var timer: bool
    var numSubsetsRunning: nat

    ghost function View(): Leader
      reads this
    {
      Leader(state, announced, messageToCosign, commitMap, commitPointMap, AbstractAll(subsets), cs1, cs2,
             commitFailureCounter, commitFailureMap, timer)
    }

    /** While commits are collected the counter, the bitmap and the list agree. */
    ghost predicate CommitsConsistent()
      reads this
    {
      CommitsAgree(commitCounter, commitMap, commitPointMap, commitPoints)
    }

    ghost predicate Valid()
      reads this
    {
      && c.Valid()
      && LeaderProof.Inv(c, View())
      && (IsCollecting(state) ==> CommitsConsistent())
      && AllConsistent(c, subsets)
      && commitFailureCounter <= |commitFailureMap|
    }

    constructor (c: Config)
      requires c.Valid()
      ensures this.c == c && Valid() && View() == Init(c)
    {
      this.c := c;
      state := Initial;
      announced := [];
      messageToCosign := [];
      commitMap := OnlyLeader(c);
      commitPointMap := OnlyLeaderPoint(c);
      commitPoints := [c.CommitPoint()];
      commitCounter := 1;
      subsets := [];
      cs1, cs2 := Option.None, Option.None;
      commitFailureCounter, commitFailureMap := 0, map[];
      timer := false;
      numSubsetsRunning := 0;
      new;
      AloneConsistent(c);
      LeaderProof.InitInv(c);
    }

    /** Announces the message and, when several subsets are used, opens the commit window. */
    method StartConsensus(msg: Bytes) returns (ok: bool, sent: seq<ToBackups>)
      requires Valid()
      modifies this
      ensures Valid() && Outcome(View(), sent) == Start(c, old(View()), msg) && ok == (old(state) == Initial)
    {
      ok, sent := false, [];
      if state == Initial {
        LeaderProof.StartInv(c, View(), msg);
        Announce(msg);
        ok, sent := true, [Announcement(msg)];
      }
    }

    method Announce(msg: Bytes)
      modifies this`announced, this`messageToCosign, this`state, this`commitFailureCounter, this`timer
      ensures View() == old(View()).(state := AnnounceDone, announced := msg, message := msg, failureCounter := 0,
                                     timer := c.numOfSubsets > 1)
    {
      announced := msg;
      messageToCosign := msg;
      state := AnnounceDone;
      commitFailureCounter := 0;
      timer := c.numOfSubsets > 1;
    }

    method GenerateConsensusSubsets()
      requires c.Valid() && LeaderProof.Collects(c, View()) && Count(commitMap) >= c.com.Quorum()
      modifies this`subsets, this`commitMap, this`commitPointMap, this`commitPoints
      ensures PicksOk(c, old(commitMap), Picks(subsets))
      ensures AllDrawn(c, old(commitPointMap), subsets, state)
      ensures commitMap == [] && commitPointMap == [] && commitPoints == []
    {
      subsets := GenerateSubsets(c, commitMap, commitPointMap, state);
      commitPointMap := [];
      commitPoints := [];
      commitMap := [];
    }

    /** Aggregates each subset's commits and keys and derives its challenge from them. */
    method GenerateChallengeMessage() returns (infos: seq<ChallengeInfo>)
      requires c.Valid() && AllReady(c, subsets)
      modifies this`subsets
      ensures subsets == AllChallenged(c, messageToCosign, old(subsets))
      ensures infos == AllInfos(c, subsets)
    {
      ghost var goal := AllChallenged(c, messageToCosign, subsets);
      ghost var before := subsets;
      infos := [];
      var i := 0;
      while i < |subsets|
        invariant 0 <= i <= |subsets| == |before| && |infos| == i
        invariant forall k :: 0 <= k < i ==> subsets[k] == goal[k] && infos[k] == AllInfos(c, goal)[k]
        invariant forall k :: i <= k < |subsets| ==> subsets[k] == before[k]
      {
        var sub := subsets[i];
        assert Ready(c, before[i]);
        var commit := AggregatePoints(c.com.scheme, sub.commitPoints);
        c.com.scheme.group.SumPermutation(sub.commitPoints, Select(sub.commitMap, sub.commitPointMap));
        var key := c.com.AggregateKeys(sub.commitMap);
        var challenge := ChallengeValue(c.com.scheme, commit.value, key, messageToCosign);
        subsets := subsets[i := sub.(challenge := challenge)];
        infos := infos + [ChallengeInfo(commit.value, key, challenge)];
        i := i + 1;
      }
      assert subsets == goal;
    }

    /** The leader's own response in one subset. */
    method AnswerOwnChallenge(i: nat)
      requires c.Valid() && i < |subsets| && Ready(c, subsets[i])
      modifies this`subsets
      ensures subsets == old(subsets)[i := WithLeaderResponse(c, old(subsets)[i], state)]
    {
      SetStateSubset(i, state);
      var sub := subsets[i];
      var r := Respond(c.com.scheme, c.secret, sub.challenge, c.privKey);
      subsets := subsets[i := sub.(responseData := sub.responseData + [r],
                                   responseDataMap := sub.responseDataMap[c.leaderID := r],
                                   responseMap := sub.responseMap[c.leaderID := true],
                                   responseCounter := 1)];
    }

    method AnswerOwnChallenges()
      requires c.Valid() && AllReady(c, subsets)
      modifies this`subsets
      ensures subsets == AllAnswered(c, old(subsets), state)
    {
      ghost var before := subsets;
      var i := 0;
      while i < |subsets|
        invariant 0 <= i <= |subsets| == |before| && subsets == AnswerFirst(c, before, state, i)
      {
        AnswerFirstAt(c, before, state, i, i);
        assert Ready(c, before[i]);
        AnswerOwnChallenge(i);
        i := i + 1;
      }
      AnswerFirstAll(c, before, state);
    }

    /** Moves to the challenge state, challenges every subset and adds the leader's own responses. */
    method StartConsensusSubsets(round: Round) returns (sent: seq<ToBackups>)
      requires c.Valid() && state == round.Collecting() && AllReady(c, subsets)
      modifies this`state, this`subsets, this`numSubsetsRunning
      ensures state == round.Challenged() && numSubsetsRunning == |subsets|
      ensures subsets == AllAnswered(c, AllChallenged(c, messageToCosign, old(subsets)), state)
      ensures sent == [Challenges(round, AllInfos(c, AllChallenged(c, messageToCosign, old(subsets))))]
    {
      state := if state == AnnounceDone then ChallengeDone else FinalChallengeDone;
      numSubsetsRunning := |subsets|;
      var infos := GenerateChallengeMessage();
      AnswerOwnChallenges();
      sent := [Challenges(round, infos)];
    }

    /** A subset's state only moves forward, except back to the initial one. */
    method SetStateSubset(k: nat, newState: State)
      requires k < |subsets|
      modifies this`subsets
      ensures subsets == old(subsets)[k := old(subsets)[k].(state :=
                if newState.Initial? || newState.Rank() > old(subsets)[k].state.Rank() then newState else old(subsets)[k].state)]
    {
      if newState == Initial || newState.Rank() > subsets[k].state.Rank() {
        subsets := subsets[k := subsets[k].(state := newState)];
      }
    }

    method DrawSubsets(round: Round) returns (ghost picks: seq<seq<bool>>)
      requires c.Valid() && LeaderProof.Collects(c, View()) && state == round.Collecting()
      requires Count(commitMap) >= c.com.Quorum()
      modifies this`subsets, this`commitMap, this`commitPointMap, this`commitPoints
      ensures PicksOk(c, old(commitMap), picks)
      ensures commitMap == [] && commitPointMap == [] && AllReady(c, subsets)
      ensures Foreseen(c, old(View()), round, picks, AllChallenged(c, messageToCosign, subsets))
    {
      ghost var l := View();
      GenerateConsensusSubsets();
      picks := Picks(subsets);
      ChallengedSubsets(c, l, subsets, round);
    }

    /** Draws the subsets and challenges them. */
    method ChallengeDrawnSubsets(round: Round) returns (sent: seq<ToBackups>, ghost picks: seq<seq<bool>>)
      requires c.Valid() && LeaderProof.Collects(c, View()) && state == round.Collecting()
      requires Count(commitMap) >= c.com.Quorum()
      modifies this`state, this`subsets, this`commitMap, this`commitPointMap, this`commitPoints, this`numSubsetsRunning
      ensures PicksOk(c, old(commitMap), picks)
      ensures View() == ChallengeSubsets(c, old(View()), round, picks).leader
      ensures sent == ChallengeSubsets(c, old(View()), round, picks).sent
      ensures AllConsistent(c, subsets)
    {
      picks := DrawSubsets(round);
      sent := StartConsensusSubsets(round);
    }

    /** A commit or final commit. */
    method ProcessMessageCommitCore(m: ToLeader) returns (ok: bool, sent: seq<ToBackups>, ghost picks: seq<seq<bool>>)
      requires Valid() && m.Commit?
      modifies this
      ensures LeaderProof.Enabled(c, old(View()), LeaderProof.Receive(m, picks))
      ensures Valid() && Outcome(View(), sent) == ProcessCommit(c, old(View()), m, picks)
      ensures ok == CommitAccepted(c, old(View()), m)
    {
      ok, sent, picks := false, [], [];
      if state != m.round.Collecting() || m.id >= c.com.Size() || commitMap[m.id] {
        return;
      }
      if m.hash.None? || m.hash != PointHash(c.com.scheme, m.point) {
        return;
      }
      ghost var l := View();
      ok := true;
      RecordCommit(m.id, m.point);
      if c.numOfSubsets <= 1 && commitCounter == c.com.Quorum() {
        sent, picks := ChallengeDrawnSubsets(m.round);
      }
      LeaderProof.CommitInv(c, l, m, picks);
    }

    method RecordCommit(id: nat, point: Point)
      requires CommitsConsistent() && id < |commitMap| && !commitMap[id]
      modifies this`commitPoints, this`commitPointMap, this`commitMap, this`commitCounter
      ensures CommitsConsistent() && View() == Record(old(View()), id, point)
    {
      CountSet(commitMap, id);
      SelectSet(commitMap, commitPointMap, id, point);
      commitPoints := commitPoints + [point];
      commitPointMap := commitPointMap[id := point];
      commitMap := commitMap[id := true];
      commitCounter := commitCounter + 1;
    }

    /** The commit window's timer: too few commits end the session, enough start the challenge. */
    method CommitWindowCloses(round: Round) returns (sent: seq<ToBackups>, ghost picks: seq<seq<bool>>)
      requires Valid() && timer && state == round.Collecting()
      modifies this
      ensures LeaderProof.Enabled(c, old(View()), LeaderProof.TimerFires(round, picks))
      ensures Valid() && Outcome(View(), sent) == FireTimer(c, old(View()), round, picks)
    {
      ghost var l := View();
      sent, picks := SettleCommits(round);
      LeaderProof.TimerInv(c, l, round, picks);
    }

    /** What the timer does once it has fired. */
    method SettleCommits(round: Round) returns (sent: seq<ToBackups>, ghost picks: seq<seq<bool>>)
      requires Valid() && timer && state == round.Collecting()
      modifies this`timer, this`state, this`subsets, this`commitMap, this`commitPointMap, this`commitPoints, this`numSubsetsRunning
      ensures LeaderProof.Enabled(c, old(View()), LeaderProof.TimerFires(round, picks))
      ensures Outcome(View(), sent) == FireTimer(c, old(View()), round, picks)
      ensures !IsCollecting(state) && AllConsistent(c, subsets)
    {
      sent, picks := [], [];
      timer := false;
      if commitCounter < c.com.Quorum() {
        state := Error;
      } else {
        sent, picks := ChallengeDrawnSubsets(round);
      }
    }

    /** Aggregates the responses of a complete subset and verifies the result before using it. */
    method GenerateCollectiveSigMessage(k: nat) returns (cs: Option<CoSig>)
      requires c.Valid() && k < |subsets| && Consistent(c, subsets[k]) && SubsetShape(c, Abstract(subsets[k]))
      requires subsets[k].responseData != []
      ensures var cosig := CoSigOf(c, Abstract(subsets[k]));
              cs == if c.com.Signs(messageToCosign, cosig) then Some(cosig) else Option.None
    {
      var sub := subsets[k];
      var response := AggregateResponses(c.com.scheme, sub.responseData);
      c.com.scheme.group.SumModPermutation(sub.responseData, Select(sub.responseMap, sub.responseDataMap));
      var key := c.com.AggregateKeys(sub.responseMap);
      var sig := Signature(sub.challenge, response.value);
      if !MultiSigVerify(c.com.scheme, messageToCosign, sig, key) {
        return Option.None;
      }
      return Some(CoSig(sig, sub.responseMap));
    }

    method RecordResponse(k: nat, round: Round, id: nat, response: nat)
      requires Valid() && k < |subsets| && state == round.Challenged()
      requires ResponseAccepted(c, Abstract(subsets[k]), round, id, response)
      modifies this`subsets
      ensures Valid() && View() == old(View()).(subsets := old(View()).subsets[k := AddResponse(old(View()).subsets[k], id, response)])
    {
      ghost var l := View();
      var sub := subsets[k];
      LeaderProof.RecordedInv(c, l, round, k, id, response);
      ResponseRecorded(c, messageToCosign, sub, id, response);
      ConsistentUpdate(c, subsets, k, Recorded(sub, id, response));
      ReplaceSubset(k, Recorded(sub, id, response));
    }

    method ReplaceSubset(k: nat, sub: ConsensusSubset)
      requires k < |subsets|
      modifies this`subsets
      ensures subsets == old(subsets)[k := sub]
      ensures View() == old(View()).(subsets := old(View()).subsets[k := Abstract(sub)])
    {
      AbstractUpdate(subsets, k, sub);
      subsets := subsets[k := sub];
    }

    /** A subset has ended. If it concluded, every other one is shut down and the session takes its
        state; if not, the session fails with the last subset still running. */
    method SubsetEnded(k: nat)
      requires k < |subsets| && (!Ended(subsets[k].state) ==> numSubsetsRunning > 0)
      modifies this`subsets, this`state, this`numSubsetsRunning
      ensures Ended(old(subsets)[k].state) ==>
                subsets == OnlyRuns(old(subsets), k) && state == old(subsets)[k].state
                && numSubsetsRunning == old(numSubsetsRunning)
      ensures !Ended(old(subsets)[k].state) ==>
                && subsets == old(subsets) && numSubsetsRunning == old(numSubsetsRunning) - 1
                && state == if numSubsetsRunning == 0 then Error else old(state)
    {
      if Ended(subsets[k].state) {
        ShutDownOthers(k);
        state := subsets[k].state;
      } else {
        numSubsetsRunning := numSubsetsRunning - 1;
        if numSubsetsRunning == 0 {
          state := Error;
        }
      }
    }

    method ShutDownOthers(k: nat)
      requires k < |subsets|
      modifies this`subsets
      ensures subsets == OnlyRuns(old(subsets), k)
    {
      ghost var before := subsets;
      var i := 0;
      while i < |subsets|
        invariant 0 <= i <= |subsets| == |before|
        invariant forall j :: 0 <= j < i ==> subsets[j] == OnlyRuns(before, k)[j]
        invariant forall j :: i <= j < |subsets| ==> subsets[j] == before[j]
      {
        if i != k {
          SetStateSubset(i, Initial);
        }
        i := i + 1;
      }
      assert subsets == OnlyRuns(before, k);
    }

    /** Marks the subset as concluded and shuts down the others. */
    method EndSubsets(round: Round, k: nat)
      requires c.Valid() && k < |subsets| && state == round.Challenged() == subsets[k].state
      requires SubsetShape(c, View().subsets[k]) && AllConsistent(c, subsets)
      modifies this`subsets, this`state, this`numSubsetsRunning
      ensures AllConsistent(c, subsets)
      ensures View() == old(View()).(state := round.Concluded(),
                subsets := Conclude(c, old(View()), round, k, old(View()).subsets[k]).leader.subsets)
    {
      ConcludedSubsets(c, View(), subsets, round, k);
      SetStateSubset(k, round.Concluded());
      SubsetEnded(k);
    }

    /** Keeps the first round's certificate, extends the message with it and starts collecting anew. */
    method SaveFirstCertificate(cs: CoSig)
      requires c.leaderID < c.com.Size() && commitPointMap == []
      modifies this`messageToCosign, this`cs1, this`timer, this`commitMap, this`commitPointMap, this`commitPoints,
               this`commitCounter, this`commitFailureCounter, this`commitFailureMap
      ensures CommitsConsistent()
      ensures View() == old(View()).(message := c.com.Extend(old(messageToCosign), cs), cs1 := Some(cs),
                commitMap := OnlyLeader(c), commitPointMap := OnlyLeaderPoint(c),
                failureCounter := 0, failures := map[], timer := c.numOfSubsets > 1)
    {
      messageToCosign := messageToCosign + c.com.scheme.sigBytes(cs.sig) + c.com.scheme.bitBytes(cs.bits);
      cs1 := Some(cs);
      commitFailureCounter, commitFailureMap := 0, map[];
      timer := c.numOfSubsets > 1;
      RestartCollection();
    }

    /** For the second round: again the leader alone has committed. */
    method RestartCollection()
      requires c.leaderID < c.com.Size() && commitPointMap == []
      modifies this`commitMap, this`commitPointMap, this`commitPoints, this`commitCounter
      ensures CommitsConsistent()
      ensures View() == old(View()).(commitMap := OnlyLeader(c), commitPointMap := OnlyLeaderPoint(c))
    {
      AloneConsistent(c);
      BlankPoints(c);
      commitMap := NoBits(c.com.Size())[c.leaderID := true];
      commitPointMap := (commitPointMap + seq(c.com.Size(), _ => c.com.scheme.group.neutral))[c.leaderID := c.CommitPoint()];
      commitPoints, commitCounter := [c.CommitPoint()], 1;
    }

    /** The round's certificate exists: record it and shut down the other subsets. */
    method ConcludeRound(round: Round, k: nat, cs: CoSig)
      requires c.Valid() && k < |subsets| && state == round.Challenged() == subsets[k].state
      requires SubsetShape(c, View().subsets[k]) && cs == CoSigOf(c, View().subsets[k]) && commitPointMap == []
      requires AllConsistent(c, subsets)
      modifies this
      ensures View() == Conclude(c, old(View()), round, k, old(View()).subsets[k]).leader
      ensures AllConsistent(c, subsets) && (round.First? ==> CommitsConsistent())
    {
      EndSubsets(round, k);
      if round.First? {
        SaveFirstCertificate(cs);
      } else {
        SaveSecondCertificate(cs);
      }
    }

    method SaveSecondCertificate(cs: CoSig)
      modifies this`cs2
      ensures View() == old(View()).(cs2 := Some(cs))
    {
      cs2 := Some(cs);
    }

    method GiveUpSubset(k: nat)
      requires k < |subsets| && AllConsistent(c, subsets) && !subsets[k].state.Error?
      modifies this`subsets
      ensures AllConsistent(c, subsets)
      ensures View() == old(View()).(subsets := old(View()).subsets[k := old(View()).subsets[k].(state := Error)])
    {
      GivenUp(c, subsets, k);
      MarkFailed(k);
    }

    method MarkFailed(k: nat)
      requires k < |subsets| && !subsets[k].state.Error?
      modifies this`subsets
      ensures subsets == old(subsets)[k := old(subsets)[k].(state := Error)]
    {
      SetStateSubset(k, Error);
    }

    /** The subset has a quorum of responses: sign and conclude, or give the subset up. */
    method CompleteSubset(round: Round, k: nat) returns (ok: bool, sent: seq<ToBackups>)
      requires Valid() && k < |subsets| && state == round.Challenged() == subsets[k].state
      requires subsets[k].responseCounter == c.com.Quorum()
      modifies this
      ensures Valid() && Outcome(View(), sent) == LeaderProof.Completion(c, old(View()), round, k, old(View()).subsets[k])
    {
      ghost var l := View();
      LeaderProof.CompletionInv(c, l, round, k, l.subsets[k]);
      assert Consistent(c, subsets[k]) && Abstract(subsets[k]) == l.subsets[k];
      var cs := GenerateCollectiveSigMessage(k);
      if cs.None? {
        GiveUpSubset(k);
        return false, [];
      }
      ConcludeRound(round, k, cs.value);
      return true, [Collective(round, cs.value)];
    }

    /** A response or final response, carrying one response per subset. */
    method ProcessMessageResponseCore(m: ToLeader) returns (ok: bool, sent: seq<ToBackups>)
      requires Valid() && m.Responses?
      modifies this
      ensures Valid() && Outcome(View(), sent) == ProcessResponses(c, old(View()), m)
    {
      ok, sent := false, [];
      if state != m.round.Challenged() || m.id >= c.com.Size() || |m.responses| > |subsets| {
        return;
      }
      ghost var goal := ProcessResponsesFrom(c, View(), m, 0);
      var k := 0;
      while k < |m.responses|
        invariant Valid() && state == m.round.Challenged()
        invariant 0 <= k <= |m.responses| <= |subsets|
        invariant ProcessResponsesFrom(c, View(), m, k) == goal
      {
        var done;
        done, ok, sent := ProcessOneResponse(m, k);
        if done {
          return;
        }
        k := k + 1;
      }
      return true, [];
    }

    method ProcessOneResponse(m: ToLeader, k: nat) returns (done: bool, ok: bool, sent: seq<ToBackups>)
      requires Valid() && m.Responses? && state == m.round.Challenged() && k < |m.responses| <= |subsets|
      modifies this
      ensures Valid()
      ensures done ==> Outcome(View(), sent) == ProcessResponsesFrom(c, old(View()), m, k)
      ensures !done ==> state == old(state) && |subsets| == |old(subsets)|
                        && ProcessResponsesFrom(c, View(), m, k + 1) == ProcessResponsesFrom(c, old(View()), m, k)
    {
      ghost var l := View();
      OneResponse(c, l, m, k);
      if !ResponseAccepted(c, Abstract(subsets[k]), m.round, m.id, m.responses[k]) {
        return false, true, [];
      }
      RecordResponse(k, m.round, m.id, m.responses[k]);
      if subsets[k].responseCounter != c.com.Quorum() {
        return false, true, [];
      }
      ok, sent := CompleteSubset(m.round, k);
      return true, ok, sent;
    }

    /** A member reports that it rejected the announcement. The report that brings the number to n - q
        sends everyone back to the start. */
    method ProcessMessageCommitFailure(m: ToLeader) returns (ok: bool, sent: seq<ToBackups>)
      requires Valid() && m.CommitFailure?
      modifies this`state, this`commitFailureCounter, this`commitFailureMap
      ensures Outcome(View(), sent) == ProcessFailure(c, old(View()), m)
      ensures commitFailureCounter <= |commitFailureMap|
      ensures !FailureResets(c, old(View()), m) ==> Valid()
    {
      ok, sent := false, [];
      if !FailureAllowed(state) || m.id >= c.com.Size() || m.id in commitFailureMap {
        return;
      }
      ok := true;
      ghost var l := View();
      RecordFailure(m.id, m.error);
      if commitFailureCounter == c.com.Size() - c.com.Quorum() {
        state := Initial;
        sent := [ConsensusFailure];
      } else {
        LeaderProof.FailureInv(c, l, commitFailureCounter, commitFailureMap);
      }
    }

    method RecordFailure(id: nat, error: Bytes)
      requires id !in commitFailureMap && commitFailureCounter <= |commitFailureMap|
      modifies this`commitFailureCounter, this`commitFailureMap
      ensures commitFailureCounter == old(commitFailureCounter) + 1 <= |commitFailureMap|
      ensures commitFailureMap == old(commitFailureMap)[id := error]
      ensures View() == old(View()).(failureCounter := commitFailureCounter, failures := commitFailureMap)
    {
      commitFailureCounter := commitFailureCounter + 1;
      commitFailureMap := commitFailureMap[id := error];
    }
  }
}
