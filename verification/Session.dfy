/** A session of correct nodes comes to its end. */
module Session {
  import opened Wrappers
  import opened Bits
  import opened MultiSig
  import opened Consensus
  import LeaderSpec
  import LeaderProof
  import BackupSpec
  import opened Agreement

  // ---------- the nodes and what they intend to do

  /** Backup `k` is member number ... */
  function MemberOf(w: World, k: nat): nat { if k < w.leader.leaderID then k else k + 1 }

  /** ... and member `i`, unless it is the leader, is backup number ... */
  function SeatOf(w: World, i: nat): nat
    requires i != w.leader.leaderID
  {
    if i < w.leader.leaderID then i else i - 1
  }

  /** Every member but the leader is a correct backup, with its own key. */
  ghost predicate Staffed(w: World) {
    && w.Valid() && |w.backups| + 1 == w.leader.com.Size()
    && forall k :: 0 <= k < |w.backups| ==> IsMember(w, k)
  }

  ghost predicate IsMember(w: World, k: nat)
    requires k < |w.backups|
  {
    var id := MemberOf(w, k);
    && w.backups[k].myID == id < w.leader.com.Size()
    && w.leader.com.keys[id] == w.leader.com.scheme.group.Mul(w.backups[k].privKey, w.leader.com.scheme.base)
  }

  /** One round: the message to sign, the signers, and the secrets they will commit with; the message as
      announced and, in the second round, the certificate of the first. */
  datatype Turn = Turn(round: Round, msg: Bytes, announced: Bytes, cs1: Option<CoSig>, bits: seq<bool>, secrets: seq<nat>) {
    /** The message on which a backup commits. */
    function Opener(): ToBackups
      requires round.Second? ==> cs1.Some?
    {
      if round.First? then Announcement(msg) else Collective(First, cs1.value)
    }
    function Committed(): State { if round.First? then CommitDone else FinalCommitDone }
  }

  function PrivKey(w: World, i: nat): nat
    requires |w.backups| + 1 == w.leader.com.Size() && w.leader.leaderID < w.leader.com.Size() && i < w.leader.com.Size()
  {
    if i == w.leader.leaderID then w.leader.privKey else w.backups[SeatOf(w, i)].privKey
  }

  ghost function PointsOf(w: World, t: Turn): seq<Point> {
    seq(|t.secrets|, i requires 0 <= i < |t.secrets| => w.leader.com.scheme.group.Mul(t.secrets[i], w.leader.com.scheme.base))
  }

  ghost predicate Fits(w: World, t: Turn) {
    Staffed(w) && |t.bits| == |t.secrets| == w.leader.com.Size() && (t.round.Second? ==> t.cs1.Some?)
  }

  /** What the signers are challenged with ... */
  ghost function InfoFor(w: World, t: Turn): ChallengeInfo
    requires Fits(w, t)
  {
    var com := w.leader.com;
    var commit, key := com.scheme.group.Sum(Select(t.bits, PointsOf(w, t))), com.KeySum(t.bits);
    ChallengeInfo(commit, key, ChallengeValue(com.scheme, commit, key, t.msg))
  }

  /** ... how each answers ... */
  ghost function AnswersOf(w: World, t: Turn): (r: seq<nat>)
    requires Fits(w, t)
    ensures |r| == |t.bits|
    ensures forall i :: 0 <= i < |r| ==> r[i] == Respond(w.leader.com.scheme, t.secrets[i], InfoFor(w, t).challenge, PrivKey(w, i))
  {
    seq(|t.bits|, i requires 0 <= i < |t.bits| =>
        Respond(w.leader.com.scheme, t.secrets[i], InfoFor(w, t).challenge, PrivKey(w, i)))
  }

  /** ... and the certificate that makes. */
  ghost function CertOf(w: World, t: Turn): CoSig
    requires Fits(w, t)
  {
    CoSig(Signature(InfoFor(w, t).challenge, w.leader.com.scheme.group.SumMod(Select(t.bits, AnswersOf(w, t)))), t.bits)
  }

  /** A quorum with the leader in it, and none of the numbers that the checks refuse. */
  ghost predicate Usable(w: World, t: Turn) {
    && Fits(w, t)
    && Count(t.bits) == w.leader.com.Quorum() && t.bits[w.leader.leaderID]
    && t.secrets[w.leader.leaderID] == w.leader.secret
    && Hashable(w.leader.com, t.msg, InfoFor(w, t))
    && CertOf(w, t).sig.r != 0 && CertOf(w, t).sig.s != 0
    && forall i :: 0 <= i < |t.bits| && t.bits[i] && i != w.leader.leaderID ==>
         PointsOf(w, t)[i] != w.leader.com.scheme.group.neutral && AnswersOf(w, t)[i] != 0
  }

  // ---------- runs of correct nodes only

  /** Some backup sent it. */
  ghost predicate WasSent(s: System, m: ToLeader) { exists k :: 0 <= k < |s.replies| && m in s.replies[k] }

  /** The leader receives only what a backup sent. */
  ghost predicate Honest(s: System, e: Event) {
    e.LeaderStep? && e.input.Receive? ==> WasSent(s, e.input.m)
  }

  ghost predicate HonestRun(w: World, ss: seq<System>, es: seq<Event>)
    requires w.Valid()
  {
    Run(w, ss, es) && forall j :: 0 <= j < |es| ==> Honest(ss[j], es[j])
  }

  ghost predicate Reached(w: World, s: System)
    requires w.Valid()
  {
    exists ss, es :: HonestRun(w, ss, es) && ss[|ss| - 1] == s
  }

  lemma ReachedStart(w: World)
    requires w.Valid()
    ensures Reached(w, Start(w))
  {
    assert HonestRun(w, [Start(w)], []);
  }

  lemma Reach(w: World, s: System, e: Event)
    requires w.Valid() && Reached(w, s) && Possible(w, s, e) && Honest(s, e)
    ensures Reached(w, Next(w, s, e))
  {
    var ss, es :| HonestRun(w, ss, es) && ss[|ss| - 1] == s;
    var ss', es' := ss + [Next(w, s, e)], es + [e];
    forall j | 0 <= j < |es'|
      ensures Possible(w, ss'[j], es'[j]) && ss'[j + 1] == Next(w, ss'[j], es'[j]) && Honest(ss'[j], es'[j])
    {
      if j < |es| {
        assert ss'[j] == ss[j] && ss'[j + 1] == ss[j + 1] && es'[j] == es[j];
      }
    }
    assert HonestRun(w, ss', es') && ss'[|ss'| - 1] == Next(w, s, e);
  }

  lemma ReachedInv(w: World, s: System)
    requires w.Valid() && Reached(w, s)
    ensures Inv(w, s)
  {
    var ss, es :| HonestRun(w, ss, es) && ss[|ss| - 1] == s;
    RunInv(w, ss, es, |ss| - 1);
  }

  lemma ReachedLeader(w: World, s: System)
    requires w.Valid() && Reached(w, s)
    ensures LeaderProof.Inv(w.leader, s.leader)
  {
    ReachedInv(w, s);
  }

  /** A step of the leader leaves the backups alone and adds to what it has sent. */
  lemma LeaderDoes(w: World, s: System, i: LeaderProof.Input) returns (s': System)
    requires w.Valid() && Reached(w, s) && LeaderSpec.Shape(w.leader, s.leader) && LeaderProof.Enabled(w.leader, s.leader, i)
    requires i.Receive? ==> WasSent(s, i.m)
    ensures Reached(w, s') && s'.backups == s.backups && s.sent <= s'.sent
    ensures var o := LeaderProof.Step(w.leader, s.leader, i);
            s'.leader == o.leader && forall m :: m in o.sent ==> m in s'.sent
  {
    Reach(w, s, LeaderStep(i));
    s' := Next(w, s, LeaderStep(i));
  }

  /** A message delivered to backup `k` changes nothing else, and its reply is sent. */
  lemma BackupDoes(w: World, s: System, k: nat, d: BackupSpec.Delivery) returns (s': System)
    requires w.Valid() && Reached(w, s) && k < |w.backups| == |s.backups| && d.m in s.sent
    ensures Reached(w, s') && s'.leader == s.leader && s'.sent == s.sent
    ensures var r := BackupSpec.GatedReceive(w.backups[k], s.backups[k], d.m, d.verdict, d.nonce);
            s'.backups == s.backups[k := r.backup] && forall m :: m in r.sent ==> WasSent(s', m)
  {
    ReachedInv(w, s);
    Reach(w, s, Deliver(k, d));
    s' := Next(w, s, Deliver(k, d));
    var r := BackupSpec.GatedReceive(w.backups[k], s.backups[k], d.m, d.verdict, d.nonce);
    forall m | m in r.sent
      ensures WasSent(s', m)
    {
      assert m in s'.replies[k];
    }
  }

  // ---------- the stages of a round

  /** About to commit to this round's message. */
  ghost predicate ReadyFor(w: World, t: Turn, b: BackupSpec.Backup)
    requires w.Valid()
  {
    match t.round
    case First => b.state.Initial?
    case Second =>
      && b.state.ResponseDone? && t.cs1.Some?
      && w.leader.com.Signs(b.message, t.cs1.value) && t.msg == w.leader.com.Extend(b.message, t.cs1.value)
  }

  predicate CommittedTo(t: Turn, b: BackupSpec.Backup, i: nat)
    requires i < |t.secrets|
  {
    b.state == t.Committed() && b.message == t.msg && b.secret == t.secrets[i]
  }

  predicate RespondedTo(t: Turn, b: BackupSpec.Backup) {
    b.state == BackupSpec.Responded(t.round) && b.message == t.msg
  }

  /** The round is at its beginning at the leader, which has these members' commits. */
  ghost predicate LeaderGathers(w: World, t: Turn, l: LeaderSpec.Leader, have: seq<bool>)
    requires Fits(w, t)
  {
    && l.state == t.round.Collecting() && l.message == t.msg && l.announced == t.announced && l.cs1 == t.cs1
    && l.commitMap == have && |l.commitPointMap| == |have| == |t.bits|
    && (forall i :: 0 <= i < |have| && have[i] ==> l.commitPointMap[i] == PointsOf(w, t)[i])
  }

  /** The signers among the backups: these members have committed, the others are about to. */
  ghost predicate Committing(w: World, t: Turn, bs: seq<BackupSpec.Backup>, have: seq<bool>)
    requires Fits(w, t)
  {
    && |bs| == |w.backups| && |have| == |t.bits|
    && forall k :: 0 <= k < |bs| && t.bits[MemberOf(w, k)] ==>
         if have[MemberOf(w, k)] then CommittedTo(t, bs[k], MemberOf(w, k)) else ReadyFor(w, t, bs[k])
  }

  /** ... these have responded, the others have committed. */
  ghost predicate Responding(w: World, t: Turn, bs: seq<BackupSpec.Backup>, have: seq<bool>)
    requires Fits(w, t)
  {
    && |bs| == |w.backups| && |have| == |t.bits|
    && forall k :: 0 <= k < |bs| && t.bits[MemberOf(w, k)] ==>
         if have[MemberOf(w, k)] then RespondedTo(t, bs[k]) else CommittedTo(t, bs[k], MemberOf(w, k))
  }

  ghost predicate Gathering(w: World, t: Turn, s: System, have: seq<bool>)
    requires Fits(w, t)
  {
    && Within(have, t.bits) && have[w.leader.leaderID]
    && LeaderGathers(w, t, s.leader, have) && s.leader.timer == (w.leader.numOfSubsets > 1)
    && t.Opener() in s.sent
    && Committing(w, t, s.backups, have)
  }

  /** The one subset has been challenged, and these members' responses are in. */
  ghost predicate LeaderAwaits(w: World, t: Turn, l: LeaderSpec.Leader, have: seq<bool>)
    requires Fits(w, t)
  {
    && l.state == t.round.Challenged() && l.message == t.msg && l.announced == t.announced && l.cs1 == t.cs1
    && |l.subsets| == 1
    && SubsetAwaits(w, t, l.subsets[0], have)
  }

  ghost predicate SubsetAwaits(w: World, t: Turn, sub: LeaderSpec.Subset, have: seq<bool>)
    requires Fits(w, t)
  {
    && LeaderSpec.SubsetShape(w.leader, sub)
    && sub.state == t.round.Challenged() && sub.commitMap == t.bits && sub.responseMap == have
    && LeaderSpec.InfoOf(w.leader, sub) == InfoFor(w, t)
    && (forall i :: 0 <= i < |t.bits| && t.bits[i] ==> sub.commitPointMap[i] == PointsOf(w, t)[i])
    && (forall i :: 0 <= i < |t.bits| && have[i] ==> sub.responseDataMap[i] == AnswersOf(w, t)[i])
  }

  ghost predicate Answering(w: World, t: Turn, s: System, have: seq<bool>)
    requires Fits(w, t)
  {
    && Within(have, t.bits) && have[w.leader.leaderID] && LeaderAwaits(w, t, s.leader, have)
    && Challenges(t.round, [InfoFor(w, t)]) in s.sent
    && Responding(w, t, s.backups, have)
  }

  /** The leader has the round's certificate, and after the first round collects commits anew. */
  ghost predicate LeaderConcluded(w: World, t: Turn, l: LeaderSpec.Leader)
    requires Fits(w, t)
  {
    var c, cs := w.leader, CertOf(w, t);
    && l.state == t.round.Concluded() && l.announced == t.announced
    && if t.round.First? then
         && l.cs1 == Some(cs) && l.message == c.com.Extend(t.msg, cs)
         && l.commitMap == LeaderSpec.OnlyLeader(c) && l.commitPointMap == LeaderSpec.OnlyLeaderPoint(c)
         && l.timer == (c.numOfSubsets > 1)
       else
         l.cs1 == t.cs1 && l.cs2 == Some(cs)
  }

  /** ... and everyone has been sent it. */
  ghost predicate Ended(w: World, t: Turn, s: System)
    requires Fits(w, t)
  {
    && LeaderConcluded(w, t, s.leader) && w.leader.com.Signs(t.msg, CertOf(w, t))
    && Collective(t.round, CertOf(w, t)) in s.sent
    && Responding(w, t, s.backups, t.bits)
  }

  // ---------- committing

  lemma SeatIs(w: World, i: nat) returns (k: nat)
    requires Staffed(w) && i < w.leader.com.Size() && i != w.leader.leaderID
    ensures k < |w.backups| && k == SeatOf(w, i) && MemberOf(w, k) == i && IsMember(w, k)
    ensures forall k' :: 0 <= k' < |w.backups| && k' != k ==> MemberOf(w, k') != i
  {
    k := SeatOf(w, i);
  }

  lemma BackupCommits(w: World, t: Turn, b: BackupSpec.Backup, k: nat)
    requires Fits(w, t) && k < |w.backups| && ReadyFor(w, t, b)
    ensures var i := MemberOf(w, k);
            var r := BackupSpec.GatedReceive(w.backups[k], b, t.Opener(), BackupSpec.Accept, t.secrets[i]);
            CommittedTo(t, r.backup, i) && r.sent == [BackupSpec.CommitWith(w.backups[k], t.round, t.secrets[i])]
  {
    assert IsMember(w, k);
  }

  /** The commit of member `i`, as its backup sends it. */
  ghost function CommitOf(w: World, t: Turn, i: nat): ToLeader
    requires Fits(w, t) && i < |t.bits|
  {
    Commit(t.round, i, PointsOf(w, t)[i], PointHash(w.leader.com.scheme, PointsOf(w, t)[i]))
  }

  lemma CommitDelivered(w: World, t: Turn, s: System, have: seq<bool>, i: nat) returns (s': System)
    requires Usable(w, t) && Reached(w, s) && Gathering(w, t, s, have) && i < |have| && t.bits[i] && !have[i]
    ensures Reached(w, s') && s'.leader == s.leader && s'.sent == s.sent && WasSent(s', CommitOf(w, t, i))
    ensures Committing(w, t, s'.backups, have[i := true])
  {
    var k := SeatIs(w, i);
    BackupCommits(w, t, s.backups[k], k);
    s' := BackupDoes(w, s, k, BackupSpec.Delivery(t.Opener(), BackupSpec.Accept, t.secrets[i]));
  }

  /** The permitted subset is exactly the signers. */
  lemma PickIsOk(w: World, t: Turn)
    requires Usable(w, t)
    ensures LeaderSpec.PicksOk(w.leader, t.bits, [t.bits])
  {
  }

  /** A leader that has all the signers' commits challenges them. */
  lemma Challenging(w: World, t: Turn, l: LeaderSpec.Leader)
    requires Usable(w, t) && LeaderGathers(w, t, l, t.bits)
    ensures var o := LeaderSpec.ChallengeSubsets(w.leader, l, t.round, [t.bits]);
            && LeaderAwaits(w, t, o.leader, LeaderSpec.OnlyLeader(w.leader))
            && o.sent == [Challenges(t.round, [InfoFor(w, t)])]
  {
    var c := w.leader;
    var o := LeaderSpec.ChallengeSubsets(c, l, t.round, [t.bits]);
    var sub := o.leader.subsets[0];
    assert sub == LeaderSpec.NewSubset(c, l, t.bits, t.round.Challenged());
    SelectAgrees(t.bits, sub.commitPointMap, PointsOf(w, t));
    assert LeaderSpec.InfoOf(c, sub) == InfoFor(w, t);
    assert AnswersOf(w, t)[c.leaderID] == sub.responseDataMap[c.leaderID];
    assert LeaderSpec.InfosOf(c, o.leader.subsets) == [InfoFor(w, t)];
  }

  /** The leader takes the commit; when it is the last, one of several subsets would still wait for the timer. */
  lemma CommitTaken(w: World, t: Turn, l: LeaderSpec.Leader, have: seq<bool>, i: nat)
    requires Usable(w, t) && LeaderGathers(w, t, l, have) && LeaderSpec.Shape(w.leader, l)
    requires i < |have| && t.bits[i] && !have[i] && i != w.leader.leaderID
    requires Count(have[i := true]) == Count(t.bits) <==> have[i := true] == t.bits
    ensures var c, l' := w.leader, LeaderSpec.Record(l, i, PointsOf(w, t)[i]);
            var receives := LeaderProof.Receive(CommitOf(w, t, i), [t.bits]);
            && LeaderGathers(w, t, l', have[i := true])
            && LeaderProof.Enabled(c, l, receives)
            && LeaderProof.Step(c, l, receives) ==
                 if have[i := true] == t.bits && c.numOfSubsets <= 1 then LeaderSpec.ChallengeSubsets(c, l', t.round, [t.bits])
                 else LeaderSpec.Outcome(l', [])
  {
    PickIsOk(w, t);
    assert LeaderSpec.CommitAccepted(w.leader, l, CommitOf(w, t, i));
  }

  /** The timer finds all the signers' commits. */
  lemma TimerTakes(w: World, t: Turn, l: LeaderSpec.Leader)
    requires Usable(w, t) && LeaderGathers(w, t, l, t.bits) && LeaderSpec.Shape(w.leader, l) && l.timer
    ensures var c, fires := w.leader, LeaderProof.TimerFires(t.round, [t.bits]);
            && LeaderProof.Enabled(c, l, fires)
            && LeaderProof.Step(c, l, fires) == LeaderSpec.ChallengeSubsets(c, l.(timer := false), t.round, [t.bits])
  {
    PickIsOk(w, t);
  }

  /** Once the commits are in, nobody has responded. */
  lemma AllCommitted(w: World, t: Turn, bs: seq<BackupSpec.Backup>)
    requires Usable(w, t) && Committing(w, t, bs, t.bits)
    ensures Responding(w, t, bs, LeaderSpec.OnlyLeader(w.leader))
  {
  }

  /** One more commit. */
  lemma OneCommit(w: World, t: Turn, s: System, have: seq<bool>, i: nat) returns (s': System)
    requires Usable(w, t) && Reached(w, s) && Gathering(w, t, s, have)
    requires i < |have| && t.bits[i] && !have[i] && Within(have[i := true], t.bits)
    requires Count(have[i := true]) != Count(t.bits) && have[i := true] != t.bits
    ensures Reached(w, s') && Gathering(w, t, s', have[i := true])
  {
    var s1 := CommitDelivered(w, t, s, have, i);
    ReachedLeader(w, s1);
    CommitTaken(w, t, s1.leader, have, i);
    s' := LeaderDoes(w, s1, LeaderProof.Receive(CommitOf(w, t, i), [t.bits]));
  }

  /** The last one, or the timer after it, starts the challenge. */
  lemma LastCommit(w: World, t: Turn, s: System, have: seq<bool>, i: nat) returns (s': System)
    requires Usable(w, t) && Reached(w, s) && Gathering(w, t, s, have)
    requires i < |have| && t.bits[i] && !have[i] && have[i := true] == t.bits
    ensures Reached(w, s') && Answering(w, t, s', LeaderSpec.OnlyLeader(w.leader))
  {
    var s1 := CommitDelivered(w, t, s, have, i);
    AllCommitted(w, t, s1.backups);
    s' := CommitsComplete(w, t, s1, have, i);
    if w.leader.numOfSubsets > 1 {
      s' := WindowCloses(w, t, s');
    }
  }

  lemma CommitsComplete(w: World, t: Turn, s: System, have: seq<bool>, i: nat) returns (s': System)
    requires Usable(w, t) && Reached(w, s) && LeaderGathers(w, t, s.leader, have)
    requires i < |have| && t.bits[i] && !have[i] && have[i := true] == t.bits && i != w.leader.leaderID
    requires WasSent(s, CommitOf(w, t, i))
    ensures Reached(w, s') && s'.backups == s.backups
    ensures w.leader.numOfSubsets <= 1 ==>
              && LeaderAwaits(w, t, s'.leader, LeaderSpec.OnlyLeader(w.leader))
              && Challenges(t.round, [InfoFor(w, t)]) in s'.sent
    ensures w.leader.numOfSubsets > 1 ==> LeaderGathers(w, t, s'.leader, t.bits) && s'.leader.timer == s.leader.timer
  {
    ReachedLeader(w, s);
    CommitTaken(w, t, s.leader, have, i);
    s' := LeaderDoes(w, s, LeaderProof.Receive(CommitOf(w, t, i), [t.bits]));
    if w.leader.numOfSubsets <= 1 {
      Challenging(w, t, LeaderSpec.Record(s.leader, i, PointsOf(w, t)[i]));
    }
  }

  lemma WindowCloses(w: World, t: Turn, s: System) returns (s': System)
    requires Usable(w, t) && Reached(w, s) && LeaderGathers(w, t, s.leader, t.bits) && s.leader.timer
    requires Responding(w, t, s.backups, LeaderSpec.OnlyLeader(w.leader))
    ensures Reached(w, s') && Answering(w, t, s', LeaderSpec.OnlyLeader(w.leader))
  {
    ReachedLeader(w, s);
    TimerTakes(w, t, s.leader);
    Challenging(w, t, s.leader.(timer := false));
    s' := LeaderDoes(w, s, LeaderProof.TimerFires(t.round, [t.bits]));
  }

  /** All commits, in whatever order. */
  lemma {:induction false} AllCommits(w: World, t: Turn, s: System, have: seq<bool>) returns (s': System)
    requires Usable(w, t) && Reached(w, s) && Gathering(w, t, s, have) && have != t.bits
    ensures Reached(w, s') && Answering(w, t, s', LeaderSpec.OnlyLeader(w.leader))
    decreases Count(t.bits) - Count(have)
  {
    var i := MissingMember(have, t.bits);
    if have[i := true] == t.bits {
      s' := LastCommit(w, t, s, have, i);
    } else {
      s' := OneCommit(w, t, s, have, i);
      s' := AllCommits(w, t, s', have[i := true]);
    }
  }

  // ---------- responding

  lemma BackupAnswers(w: World, t: Turn, b: BackupSpec.Backup, k: nat)
    requires Usable(w, t) && k < |w.backups| && CommittedTo(t, b, MemberOf(w, k))
    ensures var r := BackupSpec.GatedReceive(w.backups[k], b, Challenges(t.round, [InfoFor(w, t)]), BackupSpec.Accept, 0);
            RespondedTo(t, r.backup) && r.sent == [AnswerOf(w, t, MemberOf(w, k))]
  {
    assert IsMember(w, k);
    assert BackupSpec.Matches(w.backups[k], b.message, InfoFor(w, t));
    assert BackupSpec.ResponsesTo(w.backups[k], b.secret, [InfoFor(w, t)]) == [AnswersOf(w, t)[MemberOf(w, k)]];
  }

  ghost function AnswerOf(w: World, t: Turn, i: nat): ToLeader
    requires Fits(w, t) && i < |t.bits|
  {
    Responses(t.round, i, [AnswersOf(w, t)[i]])
  }

  lemma AnswerDelivered(w: World, t: Turn, s: System, have: seq<bool>, i: nat) returns (s': System)
    requires Usable(w, t) && Reached(w, s) && Answering(w, t, s, have) && i < |have| && t.bits[i] && !have[i]
    ensures Reached(w, s') && s'.leader == s.leader && s'.sent == s.sent && WasSent(s', AnswerOf(w, t, i))
    ensures Responding(w, t, s'.backups, have[i := true])
  {
    var k := SeatIs(w, i);
    BackupAnswers(w, t, s.backups[k], k);
    s' := BackupDoes(w, s, k, BackupSpec.Delivery(Challenges(t.round, [InfoFor(w, t)]), BackupSpec.Accept, 0));
  }

  lemma AnswerAccepted(w: World, t: Turn, sub: LeaderSpec.Subset, have: seq<bool>, i: nat)
    requires Usable(w, t) && SubsetAwaits(w, t, sub, have)
    requires i < |have| == |t.bits| && t.bits[i] && !have[i] && i != w.leader.leaderID
    ensures LeaderSpec.ResponseAccepted(w.leader, sub, t.round, i, AnswersOf(w, t)[i])
    ensures SubsetAwaits(w, t, LeaderSpec.AddResponse(sub, i, AnswersOf(w, t)[i]), have[i := true])
  {
    var k := SeatIs(w, i);
    MultiSig.HonestResponseAccepted(w.leader.com.scheme, t.secrets[i], InfoFor(w, t).challenge, PrivKey(w, i));
  }

  /** A subset with all responses has the certificate. */
  lemma CertificateIs(w: World, t: Turn, sub: LeaderSpec.Subset)
    requires Usable(w, t) && SubsetAwaits(w, t, sub, t.bits) && LeaderProof.SubsetInv(w.leader, t.msg, sub)
    ensures LeaderSpec.CoSigOf(w.leader, sub) == CertOf(w, t) && w.leader.com.Signs(t.msg, CertOf(w, t))
  {
    SelectAgrees(t.bits, sub.responseDataMap, AnswersOf(w, t));
    LeaderProof.LeaderCompleteness(w.leader, t.msg, sub);
  }

  /** The leader's step on an answer. */
  lemma AnswerTaken(w: World, t: Turn, l: LeaderSpec.Leader, have: seq<bool>, i: nat)
    requires Usable(w, t) && LeaderAwaits(w, t, l, have) && LeaderProof.Inv(w.leader, l) && |have| == |t.bits|
    requires i < |have| && t.bits[i] && !have[i] && i != w.leader.leaderID
    requires Count(have[i := true]) == Count(t.bits) <==> have[i := true] == t.bits
    ensures var o := LeaderProof.Step(w.leader, l, LeaderProof.Receive(AnswerOf(w, t, i), []));
            if have[i := true] == t.bits then
              && LeaderConcluded(w, t, o.leader) && w.leader.com.Signs(t.msg, CertOf(w, t))
              && o.sent == [Collective(t.round, CertOf(w, t))]
            else
              LeaderAwaits(w, t, o.leader, have[i := true])
  {
    var c, m := w.leader, AnswerOf(w, t, i);
    AnswerAccepted(w, t, l.subsets[0], have, i);
    LeaderProof.RecordedInv(c, l, t.round, 0, i, m.responses[0]);
    LeaderProof.FirstResponse(c, l, m, 0);
    var sub := LeaderSpec.AddResponse(l.subsets[0], i, m.responses[0]);
    if have[i := true] == t.bits {
      CertificateIs(w, t, sub);
    }
  }

  /** One more response. The last one ends the round. */
  lemma OneAnswer(w: World, t: Turn, s: System, have: seq<bool>, i: nat) returns (s': System)
    requires Usable(w, t) && Reached(w, s) && Answering(w, t, s, have)
    requires i < |have| && t.bits[i] && !have[i] && Within(have[i := true], t.bits)
    requires Count(have[i := true]) == Count(t.bits) <==> have[i := true] == t.bits
    ensures Reached(w, s')
    ensures if have[i := true] == t.bits then Ended(w, t, s') else Answering(w, t, s', have[i := true])
  {
    var s1 := AnswerDelivered(w, t, s, have, i);
    ReachedLeader(w, s1);
    AnswerTaken(w, t, s1.leader, have, i);
    s' := LeaderDoes(w, s1, LeaderProof.Receive(AnswerOf(w, t, i), []));
  }

  lemma {:induction false} AllAnswers(w: World, t: Turn, s: System, have: seq<bool>) returns (s': System)
    requires Usable(w, t) && Reached(w, s) && Answering(w, t, s, have) && have != t.bits
    ensures Reached(w, s') && Ended(w, t, s')
    decreases Count(t.bits) - Count(have)
  {
    var i := MissingMember(have, t.bits);
    s' := OneAnswer(w, t, s, have, i);
    if have[i := true] != t.bits {
      s' := AllAnswers(w, t, s', have[i := true]);
    }
  }

  /** More than one member is needed, so the leader alone is no quorum. */
  lemma NotAlone(w: World, t: Turn)
    requires Usable(w, t) && w.leader.com.Size() > 1
    ensures LeaderSpec.OnlyLeader(w.leader) != t.bits
    ensures Within(LeaderSpec.OnlyLeader(w.leader), t.bits)
  {
    CountNone(w.leader.com.Size());
    CountSet(NoBits(w.leader.com.Size()), w.leader.leaderID);
  }

  /** A whole round. */
  lemma WholeRound(w: World, t: Turn, s: System) returns (s': System)
    requires Usable(w, t) && w.leader.com.Size() > 1 && Reached(w, s) && Gathering(w, t, s, LeaderSpec.OnlyLeader(w.leader))
    ensures Reached(w, s') && Ended(w, t, s')
  {
    NotAlone(w, t);
    s' := AllCommits(w, t, s, LeaderSpec.OnlyLeader(w.leader));
    s' := AllAnswers(w, t, s', LeaderSpec.OnlyLeader(w.leader));
  }

  // ---------- the whole session

  function FirstTurn(msg: Bytes, bits: seq<bool>, secrets: seq<nat>): Turn { Turn(First, msg, msg, None, bits, secrets) }

  /** The second round is over the message extended with the first certificate. */
  ghost function SecondTurn(w: World, t: Turn, secrets: seq<nat>): Turn
    requires Fits(w, t)
  {
    Turn(Second, w.leader.com.Extend(t.msg, CertOf(w, t)), t.announced, Some(CertOf(w, t)), t.bits, secrets)
  }

  lemma Announcing(w: World, t: Turn) returns (s: System)
    requires Usable(w, t) && t == FirstTurn(t.msg, t.bits, t.secrets) && w.leader.com.Size() > 1
    ensures Reached(w, s) && Gathering(w, t, s, LeaderSpec.OnlyLeader(w.leader))
  {
    ReachedStart(w);
    NotAlone(w, t);
    ReachedLeader(w, Start(w));
    s := LeaderDoes(w, Start(w), LeaderProof.DoStart(t.msg));
  }

  lemma NextRound(w: World, t: Turn, u: Turn, s: System)
    requires Usable(w, t) && t.round.First? && Usable(w, u) && u == SecondTurn(w, t, u.secrets)
    requires w.leader.com.Size() > 1 && Ended(w, t, s)
    ensures Gathering(w, u, s, LeaderSpec.OnlyLeader(w.leader))
  {
    NotAlone(w, u);
  }

  /** The signers among these members have finished. */
  ghost predicate Finishing(w: World, t: Turn, s: System, n: nat)
    requires Fits(w, t)
  {
    && n <= |w.backups| == |s.backups|
    && LeaderConcluded(w, t, s.leader) && Collective(t.round, CertOf(w, t)) in s.sent
    && forall k :: 0 <= k < |w.backups| && t.bits[MemberOf(w, k)] ==>
         if k < n then s.backups[k].state.Done? else RespondedTo(t, s.backups[k])
  }

  lemma {:induction false} Finish(w: World, t: Turn, s: System, n: nat) returns (s': System)
    requires Usable(w, t) && t.round.Second? && Reached(w, s) && Finishing(w, t, s, n) && w.leader.com.Signs(t.msg, CertOf(w, t))
    ensures Reached(w, s') && Finishing(w, t, s', |w.backups|)
    decreases |w.backups| - n
  {
    s' := s;
    if n < |w.backups| {
      if t.bits[MemberOf(w, n)] {
        s' := OneFinishes(w, t, s, n);
      } else {
        NotASigner(w, t, s, n);
      }
      s' := Finish(w, t, s', n + 1);
    }
  }

  lemma NotASigner(w: World, t: Turn, s: System, n: nat)
    requires Fits(w, t) && n < |w.backups| && Finishing(w, t, s, n) && !t.bits[MemberOf(w, n)]
    ensures Finishing(w, t, s, n + 1)
  {
  }

  lemma OneFinishes(w: World, t: Turn, s: System, n: nat) returns (s': System)
    requires Usable(w, t) && t.round.Second? && Reached(w, s) && Finishing(w, t, s, n) && w.leader.com.Signs(t.msg, CertOf(w, t))
    requires n < |w.backups| && t.bits[MemberOf(w, n)]
    ensures Reached(w, s') && Finishing(w, t, s', n + 1)
  {
    assert IsMember(w, n);
    s' := BackupDoes(w, s, n, BackupSpec.Delivery(Collective(Second, CertOf(w, t)), BackupSpec.Accept, 0));
  }

  /** A session of correct nodes can always be brought to its end: for every committee of more than one
      member, every message and every quorum with the leader in it, there is a run in which the leader
      receives nothing but what the backups send, and at whose end the leader and the quorum are done, with
      certificates by exactly that quorum - provided only that none of the numbers drawn and hashed is one
      that the checks refuse. */
  lemma SessionCompletes(w: World, msg: Bytes, bits: seq<bool>, first: seq<nat>, second: seq<nat>)
    returns (ss: seq<System>, es: seq<Event>)
    requires Staffed(w) && w.leader.com.Size() > 1
    requires Usable(w, FirstTurn(msg, bits, first)) && Usable(w, SecondTurn(w, FirstTurn(msg, bits, first), second))
    ensures HonestRun(w, ss, es) && Complete(w, msg, bits, first, second, ss[|ss| - 1])
  {
    var t := FirstTurn(msg, bits, first);
    var u := SecondTurn(w, t, second);
    var s := BothRounds(w, t, u);
    s := Finish(w, u, s, 0);
    ss, es := RunTo(w, s);
  }

  ghost predicate Complete(w: World, msg: Bytes, bits: seq<bool>, first: seq<nat>, second: seq<nat>, end: System)
    requires Fits(w, FirstTurn(msg, bits, first)) && |second| == |bits|
  {
    var t := FirstTurn(msg, bits, first);
    && end.leader.state.Done? && end.leader.announced == msg
    && end.leader.cs1 == Some(CertOf(w, t)) && end.leader.cs2 == Some(CertOf(w, SecondTurn(w, t, second)))
    && |end.backups| == |w.backups|
    && forall k :: 0 <= k < |w.backups| && bits[MemberOf(w, k)] ==> end.backups[k].state.Done?
  }

  lemma RunTo(w: World, s: System) returns (ss: seq<System>, es: seq<Event>)
    requires w.Valid() && Reached(w, s)
    ensures HonestRun(w, ss, es) && ss[|ss| - 1] == s
  {
    ss, es :| HonestRun(w, ss, es) && ss[|ss| - 1] == s;
  }

  lemma BothRounds(w: World, t: Turn, u: Turn) returns (s: System)
    requires Usable(w, t) && t == FirstTurn(t.msg, t.bits, t.secrets) && Usable(w, u) && u == SecondTurn(w, t, u.secrets)
    requires w.leader.com.Size() > 1
    ensures Reached(w, s) && Ended(w, u, s) && Finishing(w, u, s, 0)
  {
    s := Announcing(w, t);
    s := WholeRound(w, t, s);
    NextRound(w, t, u, s);
    s := WholeRound(w, u, s);
  }

  // ---------- a committee of one

  lemma {:induction false} NothingAccepted(c: LeaderSpec.Config, l: LeaderSpec.Leader, m: ToLeader, k: nat)
    requires c.Valid() && LeaderSpec.Shape(c, l) && m.Responses? && k <= |m.responses| <= |l.subsets|
    requires forall n :: 0 <= n < |m.responses| ==> !LeaderSpec.ResponseAccepted(c, l.subsets[n], m.round, m.id, m.responses[n])
    ensures LeaderSpec.ProcessResponsesFrom(c, l, m, k) == LeaderSpec.Outcome(l, [])
    decreases |m.responses| - k
  {
    if k < |m.responses| {
      NothingAccepted(c, l, m, k + 1);
    }
  }

  lemma AloneStep(c: LeaderSpec.Config, l: LeaderSpec.Leader, i: LeaderProof.Input)
    requires c.Valid() && c.com.Size() == 1 && LeaderProof.Inv(c, l) && LeaderProof.Enabled(c, l, i) && l.cs1.None?
    ensures LeaderProof.Step(c, l, i).leader.cs1.None?
  {
    if i.Receive? && i.m.Responses? && l.state == i.m.round.Challenged() && i.m.id == 0 && |i.m.responses| <= |l.subsets| {
      NothingAccepted(c, l, i.m, 0);
    }
  }

  /** More than one member is needed: only another member's response ends a round. */
  lemma {:induction false} AloneNeverFinishes(w: World, ss: seq<System>, es: seq<Event>, j: nat)
    requires w.Valid() && w.leader.com.Size() == 1 && Run(w, ss, es) && j < |ss|
    ensures ss[j].leader.cs1.None? && !ss[j].leader.state.Done?
  {
    RunInv(w, ss, es, j);
    if j > 0 {
      AloneNeverFinishes(w, ss, es, j - 1);
      RunInv(w, ss, es, j - 1);
      if es[j - 1].LeaderStep? {
        AloneStep(w.leader, ss[j - 1].leader, es[j - 1].input);
      }
    }
  }
}
