/** What every leader step keeps, in runs without a commit-failure reset. */
module LeaderProof {
  import opened Wrappers
  import opened Bits
  import opened MultiSig
  import opened Consensus
  import opened LeaderSpec

  /** A challenged subset over `msg`: exactly a quorum including the leader, a challenge over its own
      commits and keys, and only responses that open their sender's commit. */
  ghost predicate SubsetInv(c: Config, msg: Bytes, sub: Subset)
    requires c.Valid()
  {
    && SubsetShape(c, sub)
    && Count(sub.commitMap) == c.com.Quorum()
    && sub.commitMap[c.leaderID] && sub.responseMap[c.leaderID]
    && Within(sub.responseMap, sub.commitMap)
    && sub.challenge == ChallengeValue(c.com.scheme, InfoOf(c, sub).commit, InfoOf(c, sub).key, msg)
    && forall i :: 0 <= i < c.com.Size() && sub.responseMap[i] ==> ResponseOpens(c, sub, i)
  }

  predicate ResponseOpens(c: Config, sub: Subset, i: nat)
    requires SubsetShape(c, sub) && i < c.com.Size()
  {
    && sub.responseDataMap[i] < c.com.scheme.group.order
    && Opening(c.com.scheme, sub.responseDataMap[i], sub.challenge, c.com.keys[i]) == sub.commitPointMap[i]
  }

  /** Subset `k` is the only one not shut down, and it is where the session is. */
  predicate Wins(l: Leader, k: nat) {
    k < |l.subsets| && l.subsets[k].state == l.state &&
    forall j :: 0 <= j < |l.subsets| && j != k ==> l.subsets[j].state.Initial?
  }

  ghost predicate Collects(c: Config, l: Leader)
    requires c.Valid()
  {
    && |l.commitMap| == |l.commitPointMap| == c.com.Size()
    && l.commitMap[c.leaderID] && l.commitPointMap[c.leaderID] == c.CommitPoint()
  }

  ghost predicate Runs(c: Config, l: Leader, round: Round)
    requires c.Valid()
  {
    && !l.timer
    && l.commitPointMap == []
    && l.subsets != []
    && forall k :: 0 <= k < |l.subsets| ==>
         && SubsetInv(c, l.message, l.subsets[k])
         && (l.subsets[k].state == round.Challenged() || l.subsets[k].state.Error?)
  }

  /** The first certificate, once there is one, is over the announced message, and what is signed
      since then is that message extended with it. */
  ghost predicate Certified(c: Config, l: Leader)
    requires c.Valid()
  {
    && l.message == (if l.cs1.None? then l.announced else c.com.Extend(l.announced, l.cs1.value))
    && (l.cs1.Some? ==> c.com.Certifies(l.announced, l.cs1.value))
    && (l.cs2.Some? ==> l.cs1.Some? && c.com.Certifies(l.message, l.cs2.value))
  }

  ghost predicate Inv(c: Config, l: Leader)
    requires c.Valid()
  {
    && Shape(c, l)
    && Certified(c, l)
    && (l.timer ==> c.numOfSubsets > 1)
    && match l.state {
         case Initial => l.cs1.None? && l.cs2.None? && l.subsets == [] && !l.timer && Collects(c, l)
         case AnnounceDone => l.cs1.None? && l.cs2.None? && l.subsets == [] && Collects(c, l)
         case ChallengeDone => l.cs1.None? && l.cs2.None? && Runs(c, l, First)
         case CollectiveSigDone => l.cs1.Some? && l.cs2.None? && Collects(c, l) && exists k :: Wins(l, k)
         case FinalChallengeDone => l.cs1.Some? && l.cs2.None? && Runs(c, l, Second)
         case Done => l.cs1.Some? && l.cs2.Some? && !l.timer && exists k :: Wins(l, k)
         case Error => !l.timer && l.cs2.None?
         case _ => false
       }
  }

  /** What the leader's other members may send it, and its own timer. */
  datatype Input =
    | DoStart(msg: Bytes)
    | Receive(m: ToLeader, picks: seq<seq<bool>>)
    | TimerFires(round: Round, picks: seq<seq<bool>>)

  /** The step is possible here, and does not reset the session. */
  ghost predicate Enabled(c: Config, l: Leader, i: Input)
    requires c.Valid() && Shape(c, l)
  {
    match i
    case DoStart(_) => true
    case Receive(m, picks) =>
      && (m.Commit? && CommitCompletes(c, l, m) ==> PicksOk(c, Record(l, m.id, m.point).commitMap, picks))
      && (m.CommitFailure? ==> !FailureResets(c, l, m))
    case TimerFires(round, picks) =>
      && l.timer && l.state == round.Collecting()
      && (Count(l.commitMap) >= c.com.Quorum() ==> PicksOk(c, l.commitMap, picks))
  }

  function Step(c: Config, l: Leader, i: Input): Outcome
    requires c.Valid() && Shape(c, l) && Enabled(c, l, i)
  {
    match i
    case DoStart(msg) => Start(c, l, msg)
    case Receive(m, picks) =>
      if m.Commit? then ProcessCommit(c, l, m, picks)
      else if m.Responses? then ProcessResponses(c, l, m)
      else ProcessFailure(c, l, m)
    case TimerFires(round, picks) => FireTimer(c, l, round, picks)
  }

  /** Leader completeness: once a quorum of individually checked responses is in, the signers are
      exactly the committed members, and the leader's own verification accepts the aggregate exactly
      when neither the challenge nor the summed response is zero. */
  lemma LeaderCompleteness(c: Config, msg: Bytes, sub: Subset)
    requires c.Valid() && SubsetInv(c, msg, sub)
    requires Count(sub.responseMap) == c.com.Quorum()
    ensures sub.responseMap == sub.commitMap
    ensures c.com.Signs(msg, CoSigOf(c, sub)) <==> CoSigOf(c, sub).sig.r != 0 && CoSigOf(c, sub).sig.s != 0
  {
    WithinCount(sub.responseMap, sub.commitMap);
    var bits := sub.commitMap;
    var responses, keys, points := Select(bits, sub.responseDataMap), Select(bits, c.com.keys), Select(bits, sub.commitPointMap);
    CountSelect(bits, sub.responseDataMap);
    CountSelect(bits, c.com.keys);
    CountSelect(bits, sub.commitPointMap);
    forall i | 0 <= i < |responses|
      ensures Opening(c.com.scheme, responses[i], sub.challenge, keys[i]) == points[i]
    {
      SelectNth(bits, sub.responseDataMap, i);
      SelectNth(bits, c.com.keys, i);
      SelectNth(bits, sub.commitPointMap, i);
      assert ResponseOpens(c, sub, Nth(bits, i));
    }
    CollectiveSignatureVerifies(c.com.scheme, msg, sub.challenge, responses, keys, points);
  }

  lemma InitInv(c: Config)
    requires c.Valid()
    ensures Inv(c, Init(c))
  {
  }

  lemma StartInv(c: Config, l: Leader, msg: Bytes)
    requires c.Valid() && Inv(c, l)
    ensures Inv(c, Start(c, l, msg).leader)
  {
  }

  lemma NewSubsetInv(c: Config, l: Leader, pick: seq<bool>, state: State)
    requires c.Valid() && Collects(c, l) && PickOk(c, l.commitMap, pick)
    ensures SubsetInv(c, l.message, NewSubset(c, l, pick, state))
  {
    var sub := NewSubset(c, l, pick, state);
    HonestResponseOpens(c.com.scheme, c.secret, sub.challenge, c.privKey);
    assert ResponseOpens(c, sub, c.leaderID);
  }

  lemma ChallengeInv(c: Config, l: Leader, round: Round, picks: seq<seq<bool>>)
    requires c.Valid() && Collects(c, l) && Certified(c, l) && !l.timer
    requires l.cs2.None? && (round.First? <==> l.cs1.None?)
    requires PicksOk(c, l.commitMap, picks) && |picks| > 0
    ensures Inv(c, ChallengeSubsets(c, l, round, picks).leader)
  {
    forall k | 0 <= k < |picks|
      ensures SubsetInv(c, l.message, NewSubset(c, l, picks[k], round.Challenged()))
    {
      NewSubsetInv(c, l, picks[k], round.Challenged());
    }
  }

  lemma CommitInv(c: Config, l: Leader, m: ToLeader, picks: seq<seq<bool>>)
    requires c.Valid() && Inv(c, l) && m.Commit?
    requires Enabled(c, l, Receive(m, picks))
    ensures Inv(c, ProcessCommit(c, l, m, picks).leader)
  {
    if CommitAccepted(c, l, m) {
      var l' := Record(l, m.id, m.point);
      if CommitCompletes(c, l, m) {
        ChallengeInv(c, l', m.round, picks);
      } else if l.state.CollectiveSigDone? {
        var k :| Wins(l, k);
        assert Wins(l', k);
      }
    }
  }

  lemma TimerInv(c: Config, l: Leader, round: Round, picks: seq<seq<bool>>)
    requires c.Valid() && Inv(c, l)
    requires Enabled(c, l, TimerFires(round, picks))
    ensures Inv(c, FireTimer(c, l, round, picks).leader)
  {
    if Count(l.commitMap) >= c.com.Quorum() {
      ChallengeInv(c, l.(timer := false), round, picks);
    }
  }

  lemma AddResponseInv(c: Config, msg: Bytes, sub: Subset, round: Round, id: nat, response: nat)
    requires c.Valid() && SubsetInv(c, msg, sub) && ResponseAccepted(c, sub, round, id, response)
    ensures SubsetInv(c, msg, AddResponse(sub, id, response))
  {
    var sub' := AddResponse(sub, id, response);
    assert InfoOf(c, sub') == InfoOf(c, sub);
    forall i | 0 <= i < c.com.Size() && sub'.responseMap[i]
      ensures ResponseOpens(c, sub', i)
    {
      assert i != id ==> ResponseOpens(c, sub, i);
    }
  }

  lemma ConcludeInv(c: Config, l: Leader, round: Round, k: nat, sub: Subset)
    requires c.Valid() && Inv(c, l) && l.state == round.Challenged() && k < |l.subsets|
    requires SubsetInv(c, l.message, sub) && Count(sub.responseMap) == c.com.Quorum()
    requires c.com.Signs(l.message, CoSigOf(c, sub))
    ensures Inv(c, Conclude(c, l, round, k, sub).leader)
  {
    var l' := Conclude(c, l, round, k, sub).leader;
    assert Wins(l', k);
  }

  /** Replacing one running subset by another that satisfies the subset invariant. */
  lemma ReplaceSubsetInv(c: Config, l: Leader, round: Round, k: nat, sub: Subset)
    requires c.Valid() && Inv(c, l) && l.state == round.Challenged() && k < |l.subsets|
    requires SubsetInv(c, l.message, sub) && (sub.state == round.Challenged() || sub.state.Error?)
    ensures Inv(c, l.(subsets := l.subsets[k := sub]))
  {
  }

  lemma FailSubsetInv(c: Config, msg: Bytes, sub: Subset)
    requires c.Valid() && SubsetInv(c, msg, sub)
    ensures SubsetInv(c, msg, sub.(state := Error))
  {
    var sub' := sub.(state := Error);
    assert InfoOf(c, sub') == InfoOf(c, sub);
    assert forall i :: 0 <= i < c.com.Size() && sub.responseMap[i] ==> ResponseOpens(c, sub, i) && ResponseOpens(c, sub', i);
  }

  /** Recording an accepted response. */
  lemma RecordedInv(c: Config, l: Leader, round: Round, k: nat, id: nat, response: nat)
    requires c.Valid() && Inv(c, l) && k < |l.subsets| && l.state == round.Challenged()
    requires ResponseAccepted(c, l.subsets[k], round, id, response)
    ensures var sub := AddResponse(l.subsets[k], id, response);
            SubsetInv(c, l.message, sub) && Inv(c, l.(subsets := l.subsets[k := sub]))
  {
    AddResponseInv(c, l.message, l.subsets[k], round, id, response);
    ReplaceSubsetInv(c, l, round, k, AddResponse(l.subsets[k], id, response));
  }

  /** The subset has a quorum of responses. */
  function Completion(c: Config, l: Leader, round: Round, k: nat, sub: Subset): Outcome
    requires c.com.scheme.group.order > 0 && c.leaderID < c.com.Size() && SubsetShape(c, sub) && k < |l.subsets|
  {
    if c.com.Signs(l.message, CoSigOf(c, sub)) then Conclude(c, l, round, k, sub)
    else Outcome(l.(subsets := l.subsets[k := sub.(state := Error)]), [])
  }

  lemma CompletionInv(c: Config, l: Leader, round: Round, k: nat, sub: Subset)
    requires c.Valid() && Inv(c, l) && l.state == round.Challenged() && k < |l.subsets|
    requires SubsetInv(c, l.message, sub) && Count(sub.responseMap) == c.com.Quorum()
    ensures Inv(c, Completion(c, l, round, k, sub).leader)
  {
    if c.com.Signs(l.message, CoSigOf(c, sub)) {
      ConcludeInv(c, l, round, k, sub);
    } else {
      FailSubsetInv(c, l.message, sub);
      ReplaceSubsetInv(c, l, round, k, sub.(state := Error));
    }
  }

  lemma CompletionFaithful(c: Config, l: Leader, round: Round, k: nat, sub: Subset)
    requires c.Valid() && Inv(c, l) && l.state == round.Challenged() && k < |l.subsets| && SubsetShape(c, sub)
    ensures AllFaithful(c, Completion(c, l, round, k, sub)) && Extends(l, Completion(c, l, round, k, sub).leader)
  {
    if c.com.Signs(l.message, CoSigOf(c, sub)) {
      ConcludeFaithful(c, l, round, k, sub);
    }
  }

  /** The step that the first of the remaining responses makes. */
  lemma FirstResponse(c: Config, l: Leader, m: ToLeader, k: nat)
    requires c.Valid() && Shape(c, l) && m.Responses? && k < |m.responses| <= |l.subsets|
    requires ResponseAccepted(c, l.subsets[k], m.round, m.id, m.responses[k])
    ensures var sub := AddResponse(l.subsets[k], m.id, m.responses[k]);
            && (Count(sub.responseMap) == c.com.Quorum() ==>
                  ProcessResponsesFrom(c, l, m, k) == Completion(c, l, m.round, k, sub))
            && (Count(sub.responseMap) != c.com.Quorum() ==>
                  && Shape(c, l.(subsets := l.subsets[k := sub]))
                  && ProcessResponsesFrom(c, l, m, k) == ProcessResponsesFrom(c, l.(subsets := l.subsets[k := sub]), m, k + 1))
  {
  }

  /** Response `k` is the one that fills its subset's quorum. */
  predicate Fills(c: Config, l: Leader, m: ToLeader, k: nat)
    requires Shape(c, l) && m.Responses? && k < |m.responses| <= |l.subsets|
  {
    && ResponseAccepted(c, l.subsets[k], m.round, m.id, m.responses[k])
    && Count(AddResponse(l.subsets[k], m.id, m.responses[k]).responseMap) == c.com.Quorum()
  }

  lemma LastResponseInv(c: Config, l: Leader, m: ToLeader, k: nat)
    requires c.Valid() && Inv(c, l) && m.Responses? && k < |m.responses| <= |l.subsets| && l.state == m.round.Challenged()
    requires Fills(c, l, m, k)
    ensures Inv(c, ProcessResponsesFrom(c, l, m, k).leader)
  {
    RecordedInv(c, l, m.round, k, m.id, m.responses[k]);
    FirstResponse(c, l, m, k);
    CompletionInv(c, l, m.round, k, AddResponse(l.subsets[k], m.id, m.responses[k]));
  }

  /** Any other response is recorded or passed over, and the next one follows. */
  lemma OtherResponse(c: Config, l: Leader, m: ToLeader, k: nat) returns (l': Leader)
    requires c.Valid() && Inv(c, l) && m.Responses? && k < |m.responses| <= |l.subsets| && l.state == m.round.Challenged()
    requires !Fills(c, l, m, k)
    ensures Inv(c, l') && l' == l.(subsets := l'.subsets) && |l'.subsets| == |l.subsets|
    ensures ProcessResponsesFrom(c, l, m, k) == ProcessResponsesFrom(c, l', m, k + 1)
  {
    l' := l;
    if ResponseAccepted(c, l.subsets[k], m.round, m.id, m.responses[k]) {
      RecordedInv(c, l, m.round, k, m.id, m.responses[k]);
      FirstResponse(c, l, m, k);
      l' := l.(subsets := l.subsets[k := AddResponse(l.subsets[k], m.id, m.responses[k])]);
    }
  }

  lemma {:induction false} ResponsesFromInv(c: Config, l: Leader, m: ToLeader, k: nat)
    requires c.Valid() && Inv(c, l) && m.Responses? && k <= |m.responses| <= |l.subsets|
    requires l.state == m.round.Challenged()
    ensures Inv(c, ProcessResponsesFrom(c, l, m, k).leader)
    decreases |m.responses| - k
  {
    if k < |m.responses| {
      if Fills(c, l, m, k) {
        LastResponseInv(c, l, m, k);
      } else {
        var l' := OtherResponse(c, l, m, k);
        ResponsesFromInv(c, l', m, k + 1);
      }
    }
  }

  predicate OnRecord(sub: Subset, id: nat, response: nat) {
    id < |sub.responseMap| == |sub.responseDataMap| && sub.responseMap[id] && sub.responseDataMap[id] == response
  }

  /** Enough for the responses to be gone through, whatever the session is about. */
  predicate Sized(c: Config, l: Leader, m: ToLeader) {
    && m.Responses? && |m.responses| <= |l.subsets| && Shape(c, l)
    && c.com.scheme.group.order > 0 && c.leaderID < c.com.Size()
  }

  /** Subset `k` with its response, if that is acceptable. */
  function WithResponse(c: Config, l: Leader, m: ToLeader, k: nat): Leader
    requires Sized(c, l, m) && k < |m.responses|
  {
    if !ResponseAccepted(c, l.subsets[k], m.round, m.id, m.responses[k]) then l
    else l.(subsets := l.subsets[k := AddResponse(l.subsets[k], m.id, m.responses[k])])
  }

  lemma OneByOne(c: Config, l: Leader, m: ToLeader, k: nat)
    requires Sized(c, l, m) && k < |m.responses|
    ensures Sized(c, WithResponse(c, l, m, k), m)
    ensures var o := ProcessResponsesFrom(c, l, m, k);
            if Fills(c, l, m, k) then
              || o.leader.state == m.round.Concluded()
              || o.leader.subsets == l.subsets[k := AddResponse(l.subsets[k], m.id, m.responses[k]).(state := Error)]
            else
              o == ProcessResponsesFrom(c, WithResponse(c, l, m, k), m, k + 1)
  {
  }

  /** Subset `n` is as it was, or the round is over. */
  predicate Kept(l: Leader, l': Leader, round: Round, n: nat)
    requires n < |l.subsets|
  {
    l'.state == round.Concluded() || (|l'.subsets| == |l.subsets| && l'.subsets[n] == l.subsets[n])
  }

  lemma {:induction false} LeavesEarlier(c: Config, l: Leader, m: ToLeader, k: nat, n: nat)
    requires Sized(c, l, m) && n < k <= |m.responses|
    ensures Kept(l, ProcessResponsesFrom(c, l, m, k).leader, m.round, n)
    decreases |m.responses| - k
  {
    if k < |m.responses| {
      OneByOne(c, l, m, k);
      if !Fills(c, l, m, k) {
        LeavesEarlier(c, WithResponse(c, l, m, k), m, k + 1, n);
      }
    }
  }

  /** A running subset's signature failed. */
  predicate FailedNow(l: Leader, l': Leader, f: nat)
    requires f < |l.subsets| == |l'.subsets|
  {
    !l.subsets[f].state.Error? && l'.subsets[f].state.Error?
  }

  /** What became of an acceptable response to subset `n`: it is on record, or the round is over, or the
      message was dropped because an earlier subset's signature failed. */
  ghost predicate Recorded(l: Leader, l': Leader, m: ToLeader, n: nat)
    requires m.Responses? && n < |m.responses| <= |l.subsets|
  {
    || l'.state == m.round.Concluded()
    || (|l'.subsets| == |l.subsets| &&
          (OnRecord(l'.subsets[n], m.id, m.responses[n]) || exists f :: 0 <= f < n && FailedNow(l, l', f)))
  }

  lemma RecordsNow(c: Config, l: Leader, m: ToLeader, k: nat, n: nat)
    requires Sized(c, l, m) && k <= n < |m.responses| && Fills(c, l, m, k)
    ensures Recorded(l, ProcessResponsesFrom(c, l, m, k).leader, m, n)
  {
    OneByOne(c, l, m, k);
    var l' := ProcessResponsesFrom(c, l, m, k).leader;
    if l'.state != m.round.Concluded() {
      assert FailedNow(l, l', k);
    }
  }

  lemma RecordsLater(l: Leader, l1: Leader, l': Leader, m: ToLeader, n: nat)
    requires m.Responses? && n < |m.responses| <= |l.subsets| == |l1.subsets|
    requires forall i :: 0 <= i < |l.subsets| ==> l1.subsets[i].state == l.subsets[i].state
    requires Recorded(l1, l', m, n)
    ensures Recorded(l, l', m, n)
  {
    if f :| |l'.subsets| == |l.subsets| && 0 <= f < n && FailedNow(l1, l', f) {
      assert FailedNow(l, l', f);
    }
  }

  lemma {:induction false} RecordsFrom(c: Config, l: Leader, m: ToLeader, k: nat, n: nat)
    requires Sized(c, l, m) && k <= n < |m.responses|
    requires ResponseAccepted(c, l.subsets[n], m.round, m.id, m.responses[n])
    ensures Recorded(l, ProcessResponsesFrom(c, l, m, k).leader, m, n)
    decreases n - k
  {
    if Fills(c, l, m, k) {
      RecordsNow(c, l, m, k, n);
    } else {
      OneByOne(c, l, m, k);
      var l1 := WithResponse(c, l, m, k);
      if k == n {
        LeavesEarlier(c, l1, m, k + 1, n);
      } else {
        RecordsFrom(c, l1, m, k + 1, n);
        RecordsLater(l, l1, ProcessResponsesFrom(c, l1, m, k + 1).leader, m, n);
      }
    }
  }

  /** No acceptable response is lost, for every message with at most as many responses as there are subsets. */
  lemma ResponsesRecorded(c: Config, l: Leader, m: ToLeader, picks: seq<seq<bool>>, n: nat)
    requires c.Valid() && Inv(c, l) && m.Responses? && n < |m.responses| <= |l.subsets|
    requires l.state == m.round.Challenged() && ResponseAccepted(c, l.subsets[n], m.round, m.id, m.responses[n])
    ensures Recorded(l, Step(c, l, Receive(m, picks)).leader, m, n)
  {
    RecordsFrom(c, l, m, 0, n);
  }

  /** Which commits count, exactly: while commits of the round are collected, the first one of each member
      whose point is not neutral and comes with its own hash. Any other message of this kind is ignored. */
  lemma CommitsExactly(c: Config, l: Leader, m: ToLeader, picks: seq<seq<bool>>)
    requires c.Valid() && Inv(c, l) && m.Commit? && Enabled(c, l, Receive(m, picks))
    ensures Step(c, l, Receive(m, picks)) != Outcome(l, []) <==>
              && l.state == m.round.Collecting() && m.id < c.com.Size() && m.id !in Members(l.commitMap)
              && m.point != c.com.scheme.group.neutral
              && m.hash == Some(c.com.scheme.pointHash(m.point) % c.com.scheme.group.order)
  {
  }

  // ---------- when a challenge goes out, and to how many

  /** With one subset in use, the challenge goes out at the commit that completes a quorum, and not before. */
  lemma ChallengeAtQuorum(c: Config, l: Leader, m: ToLeader, picks: seq<seq<bool>>)
    requires c.Valid() && Inv(c, l) && m.Commit? && Enabled(c, l, Receive(m, picks)) && CommitAccepted(c, l, m)
    ensures var l' := Step(c, l, Receive(m, picks)).leader;
            && (l'.state == m.round.Challenged() <==> c.numOfSubsets <= 1 && |Members(l.commitMap)| + 1 == c.com.Quorum())
            && (l'.state != m.round.Challenged() ==>
                  l'.state == l.state && l'.commitMap == l.commitMap[m.id := true] && l'.commitPointMap == l.commitPointMap[m.id := m.point])
  {
    CountMembers(l.commitMap);
    CountSet(l.commitMap, m.id);
  }

  /** With several, it goes out when the window closes on at least a quorum; fewer end the session. */
  lemma ChallengeAtTimer(c: Config, l: Leader, round: Round, picks: seq<seq<bool>>)
    requires c.Valid() && Inv(c, l) && Enabled(c, l, TimerFires(round, picks))
    ensures Step(c, l, TimerFires(round, picks)).leader.state ==
              if |Members(l.commitMap)| >= c.com.Quorum() then round.Challenged() else Error
  {
    CountMembers(l.commitMap);
  }

  /** With at most one commit to spare there is one subset, otherwise as many as configured; the message
      challenges each of them. */
  ghost predicate ChallengesSubsets(c: Config, o: Outcome, round: Round, commits: nat) {
    && |o.leader.subsets| == (if commits <= c.com.Quorum() + 1 then 1 else c.numOfSubsets)
    && (forall k :: 0 <= k < |o.leader.subsets| ==> SubsetShape(c, o.leader.subsets[k]))
    && o.sent == [Challenges(round, InfosOf(c, o.leader.subsets))]
  }

  lemma CommitChallenges(c: Config, l: Leader, m: ToLeader, picks: seq<seq<bool>>)
    requires c.Valid() && Inv(c, l) && m.Commit? && Enabled(c, l, Receive(m, picks)) && l.state == m.round.Collecting()
    ensures var o := Step(c, l, Receive(m, picks));
            o.leader.state == m.round.Challenged() ==> ChallengesSubsets(c, o, m.round, |Members(l.commitMap)| + 1)
  {
    CountMembers(l.commitMap);
    if CommitCompletes(c, l, m) {
      CountSet(l.commitMap, m.id);
    }
  }

  lemma TimerChallenges(c: Config, l: Leader, round: Round, picks: seq<seq<bool>>)
    requires c.Valid() && Inv(c, l) && Enabled(c, l, TimerFires(round, picks))
    ensures var o := Step(c, l, TimerFires(round, picks));
            o.leader.state == round.Challenged() ==> ChallengesSubsets(c, o, round, |Members(l.commitMap)|)
  {
    CountMembers(l.commitMap);
  }

  /** After the first certificate the leader starts over: only its own commit, no failure reports, and a new
      window if there are several subsets. */
  lemma SecondRoundStartsOver(c: Config, l: Leader, i: Input)
    requires c.Valid() && Inv(c, l) && Enabled(c, l, i) && l.state.ChallengeDone? && Step(c, l, i).leader.state.CollectiveSigDone?
    ensures var l' := Step(c, l, i).leader;
            && Members(l'.commitMap) == {c.leaderID}
            && |l'.commitPointMap| == c.com.Size() && l'.commitPointMap[c.leaderID] == c.CommitPoint()
            && l'.failureCounter == 0 && l'.failures == map[] && l'.timer == (c.numOfSubsets > 1)
  {
    EndsClean(c, l, i.m, 0);
  }

  lemma {:induction false} EndsClean(c: Config, l: Leader, m: ToLeader, k: nat)
    requires Sized(c, l, m) && k <= |m.responses| && l.state.ChallengeDone? && m.round.First?
    ensures var l' := ProcessResponsesFrom(c, l, m, k).leader;
            l'.state.CollectiveSigDone? ==>
              && l'.commitMap == OnlyLeader(c) && l'.commitPointMap == OnlyLeaderPoint(c)
              && l'.failureCounter == 0 && l'.failures == map[] && l'.timer == (c.numOfSubsets > 1)
    decreases |m.responses| - k
  {
    if k < |m.responses| {
      OneByOne(c, l, m, k);
      if !Fills(c, l, m, k) {
        EndsClean(c, WithResponse(c, l, m, k), m, k + 1);
      }
    }
  }

  // ---------- failure reports

  /** The leader after reports from these members, one after the other. */
  function AfterReports(c: Config, l: Leader, ids: seq<nat>, error: Bytes): Outcome {
    if ids == [] then Outcome(l, [])
    else ProcessFailure(c, AfterReports(c, l, ids[..|ids| - 1], error).leader, CommitFailure(ids[|ids| - 1], error))
  }

  /** `n` members have reported; the session is still on exactly if that leaves more than can be spared. */
  ghost predicate Reported(c: Config, l: Leader, o: Outcome, ids: seq<nat>) {
    var over := |ids| == c.com.Size() - c.com.Quorum();
    && o.leader.state == (if over then Initial else l.state)
    && o.sent == (if over then [ConsensusFailure] else [])
    && o.leader.failureCounter == |ids|
    && forall id :: id in o.leader.failures <==> id in l.failures || id in ids
  }

  lemma ReportCounts(c: Config, l: Leader, o: Outcome, ids: seq<nat>, id: nat, error: Bytes)
    requires FailureAllowed(l.state) && !l.state.Initial? && id < c.com.Size() && id !in l.failures && id !in ids
    requires |ids| < c.com.Size() - c.com.Quorum() && Reported(c, l, o, ids)
    ensures Reported(c, l, ProcessFailure(c, o.leader, CommitFailure(id, error)), ids + [id])
  {
  }

  /** A session survives the reports of fewer members than a quorum can spare; the next one sends
      everyone back to the start. */
  lemma {:induction false} FailuresReset(c: Config, l: Leader, ids: seq<nat>, error: Bytes)
    requires l.failureCounter == 0 && FailureAllowed(l.state) && !l.state.Initial?
    requires forall i :: 0 <= i < |ids| ==> ids[i] < c.com.Size() && ids[i] !in l.failures
    requires forall i, j :: 0 <= i < j < |ids| ==> ids[i] != ids[j]
    requires |ids| <= c.com.Size() - c.com.Quorum() && c.com.Size() > c.com.Quorum()
    ensures Reported(c, l, AfterReports(c, l, ids, error), ids)
  {
    if ids != [] {
      var init, last := ids[..|ids| - 1], ids[|ids| - 1];
      FailuresReset(c, l, init, error);
      ReportCounts(c, l, AfterReports(c, l, init, error), init, last, error);
      assert ids == init + [last];
    }
  }

  /** The failure counters play no part in anything else. */
  lemma FailureInv(c: Config, l: Leader, n: nat, failures: map<nat, Bytes>)
    requires c.Valid() && Inv(c, l)
    ensures Inv(c, l.(failureCounter := n, failures := failures))
  {
    if l.state.CollectiveSigDone? || l.state.Done? {
      var k :| Wins(l, k);
      assert Wins(l.(failureCounter := n, failures := failures), k);
    }
  }

  /** The leader run invariant is kept by every step. */
  lemma StepInv(c: Config, l: Leader, i: Input)
    requires c.Valid() && Inv(c, l) && Enabled(c, l, i)
    ensures Inv(c, Step(c, l, i).leader)
  {
    match i
    case DoStart(msg) => StartInv(c, l, msg);
    case Receive(m, picks) =>
      if m.Commit? {
        CommitInv(c, l, m, picks);
      } else if m.Responses? {
        if l.state == m.round.Challenged() && m.id < c.com.Size() && |m.responses| <= |l.subsets| {
          ResponsesFromInv(c, l, m, 0);
        }
      } else {
        FailureInv(c, l, l.failureCounter + 1, l.failures[m.id := m.error]);
      }
    case TimerFires(round, picks) =>
      TimerInv(c, l, round, picks);
  }

  /** What a multicast message says about the session it belongs to. */
  ghost predicate Faithful(c: Config, l: Leader, m: ToBackups)
    requires c.Valid()
  {
    match m
    case Announcement(msg) => !l.state.Initial? && msg == l.announced
    case ConsensusFailure => false
    case Challenges(First, infos) =>
      && !l.state.Initial?
      && forall k :: 0 <= k < |infos| ==> InfoOver(c, l.announced, infos[k])
    case Challenges(Second, infos) =>
      && l.cs1.Some?
      && forall k :: 0 <= k < |infos| ==> InfoOver(c, l.message, infos[k])
    case Collective(First, cs) => l.cs1 == Some(cs)
    case Collective(Second, cs) => l.cs2 == Some(cs)
  }

  predicate InfoOver(c: Config, msg: Bytes, info: ChallengeInfo)
    requires c.com.scheme.group.order > 0
  {
    info.challenge == ChallengeValue(c.com.scheme, info.commit, info.key, msg)
  }

  /** Nothing a session has fixed is ever changed: the announced message, then the first
      certificate, then the second. */
  ghost predicate Extends(l: Leader, l': Leader) {
    && (!l.state.Initial? ==> !l'.state.Initial? && l'.announced == l.announced)
    && (l.cs1.Some? ==> l'.cs1 == l.cs1)
    && (l.cs2.Some? ==> l'.cs2 == l.cs2)
  }

  ghost predicate AllFaithful(c: Config, o: Outcome)
    requires c.Valid()
  {
    forall j :: 0 <= j < |o.sent| ==> Faithful(c, o.leader, o.sent[j])
  }

  lemma ChallengeIsFaithful(c: Config, l: Leader, round: Round, picks: seq<seq<bool>>)
    requires c.Valid() && Collects(c, l) && Certified(c, l)
    requires round.First? <==> l.cs1.None?
    requires PicksOk(c, l.commitMap, picks)
    ensures AllFaithful(c, ChallengeSubsets(c, l, round, picks))
  {
    var o := ChallengeSubsets(c, l, round, picks);
    forall k | 0 <= k < |picks|
      ensures InfoOver(c, l.message, o.sent[0].infos[k])
    {
      NewSubsetInv(c, l, picks[k], round.Challenged());
    }
  }

  lemma ConcludeFaithful(c: Config, l: Leader, round: Round, k: nat, sub: Subset)
    requires c.Valid() && Inv(c, l) && l.state == round.Challenged() && k < |l.subsets| && SubsetShape(c, sub)
    ensures AllFaithful(c, Conclude(c, l, round, k, sub))
    ensures Extends(l, Conclude(c, l, round, k, sub).leader)
  {
  }

  lemma LastResponseFaithful(c: Config, l: Leader, m: ToLeader, k: nat)
    requires c.Valid() && Inv(c, l) && m.Responses? && k < |m.responses| <= |l.subsets| && l.state == m.round.Challenged()
    requires Fills(c, l, m, k)
    ensures AllFaithful(c, ProcessResponsesFrom(c, l, m, k)) && Extends(l, ProcessResponsesFrom(c, l, m, k).leader)
  {
    FirstResponse(c, l, m, k);
    CompletionFaithful(c, l, m.round, k, AddResponse(l.subsets[k], m.id, m.responses[k]));
  }

  lemma {:induction false} ResponsesFaithful(c: Config, l: Leader, m: ToLeader, k: nat)
    requires c.Valid() && Inv(c, l) && m.Responses? && k <= |m.responses| <= |l.subsets|
    requires l.state == m.round.Challenged()
    ensures AllFaithful(c, ProcessResponsesFrom(c, l, m, k))
    ensures Extends(l, ProcessResponsesFrom(c, l, m, k).leader)
    decreases |m.responses| - k, 1
  {
    if k < |m.responses| {
      if Fills(c, l, m, k) {
        LastResponseFaithful(c, l, m, k);
      } else {
        LaterResponsesFaithful(c, l, m, k);
      }
    }
  }

  lemma {:induction false} LaterResponsesFaithful(c: Config, l: Leader, m: ToLeader, k: nat)
    requires c.Valid() && Inv(c, l) && m.Responses? && k < |m.responses| <= |l.subsets|
    requires l.state == m.round.Challenged() && !Fills(c, l, m, k)
    ensures AllFaithful(c, ProcessResponsesFrom(c, l, m, k))
    ensures Extends(l, ProcessResponsesFrom(c, l, m, k).leader)
    decreases |m.responses| - k, 0
  {
    var l' := OtherResponse(c, l, m, k);
    ResponsesFaithful(c, l', m, k + 1);
  }

  /** Every step's messages agree with the state it leaves, and no step revokes anything. */
  lemma StepFaithful(c: Config, l: Leader, i: Input)
    requires c.Valid() && Inv(c, l) && Enabled(c, l, i)
    ensures AllFaithful(c, Step(c, l, i))
    ensures Extends(l, Step(c, l, i).leader)
  {
    match i
    case DoStart(msg) =>
    case Receive(m, picks) =>
      if m.Commit? {
        if CommitCompletes(c, l, m) {
          ChallengeIsFaithful(c, Record(l, m.id, m.point), m.round, picks);
        }
      } else if m.Responses? {
        if l.state == m.round.Challenged() && m.id < c.com.Size() && |m.responses| <= |l.subsets| {
          ResponsesFaithful(c, l, m, 0);
        }
      }
    case TimerFires(round, picks) =>
      if Count(l.commitMap) >= c.com.Quorum() {
        ChallengeIsFaithful(c, l.(timer := false), round, picks);
      }
  }

  /** A message that agreed with the session keeps agreeing with it. */
  lemma FaithfulStays(c: Config, l: Leader, l': Leader, m: ToBackups)
    requires c.Valid() && Inv(c, l) && Inv(c, l') && Extends(l, l') && Faithful(c, l, m)
    ensures Faithful(c, l', m)
  {
  }

  predicate Concluding(s: State) { s.CollectiveSigDone? || s.Done? }

  predicate OneWinner(l: Leader) {
    forall j, k ::
      0 <= j < |l.subsets| && 0 <= k < |l.subsets| && Concluding(l.subsets[j].state) && Concluding(l.subsets[k].state) ==>
        j == k && l.subsets[j].state == l.state
  }

  /** Single winner: outside the error state at most one subset has concluded a round, and it is
      where the session is. */
  lemma SingleWinner(c: Config, l: Leader)
    requires c.Valid() && Inv(c, l) && !l.state.Error?
    ensures OneWinner(l)
    ensures Concluding(l.state) ==> exists k :: 0 <= k < |l.subsets| && l.subsets[k].state == l.state
  {
    if Concluding(l.state) {
      var k :| Wins(l, k);
    }
  }
}
