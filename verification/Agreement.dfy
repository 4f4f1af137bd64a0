/** Agreement of the correct nodes in every run. */
module Agreement {
  import opened MultiSig
  import opened Consensus
  import LeaderSpec
  import LeaderProof
  import BackupSpec

  /** One correct leader and any number of correct, gated backups. The leader's incoming messages are
      unconstrained, so every other member may be faulty; a backup receives only what the leader sent, in any
      order, any number of times or never, and recovers from errors as it likes. No session reset. */
  datatype World = World(leader: LeaderSpec.Config, backups: seq<BackupSpec.Config>) {
    ghost predicate Valid() {
      && leader.Valid()
      && forall k :: 0 <= k < |backups| ==> backups[k].com == leader.com
    }
  }

  datatype System = System(
    leader: LeaderSpec.Leader, backups: seq<BackupSpec.Backup>,
    sent: set<ToBackups>,              // what the leader has sent
    replies: seq<seq<ToLeader>>)       // what each backup has sent, in order

  datatype Event =
    | LeaderStep(input: LeaderProof.Input)
    | Deliver(k: nat, d: BackupSpec.Delivery)
    | Recovers(k: nat)               // backup `k`, in error, is sent back to the start by its caller

  function Start(w: World): System
    requires w.leader.leaderID < w.leader.com.Size()
  {
    System(LeaderSpec.Init(w.leader), seq(|w.backups|, _ => BackupSpec.Init()), {}, seq(|w.backups|, _ => []))
  }

  ghost predicate Possible(w: World, s: System, e: Event)
    requires w.Valid()
  {
    match e
    case LeaderStep(i) => LeaderSpec.Shape(w.leader, s.leader) && LeaderProof.Enabled(w.leader, s.leader, i)
    case Deliver(k, d) => k < |s.backups| == |s.replies| == |w.backups| && d.m in s.sent
    case Recovers(k) => k < |s.backups| == |w.backups| && s.backups[k].state.Error?
  }

  function Next(w: World, s: System, e: Event): System
    requires w.Valid() && Possible(w, s, e)
  {
    match e
    case LeaderStep(i) =>
      var o := LeaderProof.Step(w.leader, s.leader, i);
      s.(leader := o.leader, sent := s.sent + set m | m in o.sent)
    case Deliver(k, d) =>
      var r := BackupSpec.GatedReceive(w.backups[k], s.backups[k], d.m, d.verdict, d.nonce);
      s.(backups := s.backups[k := r.backup], replies := s.replies[k := s.replies[k] + r.sent])
    case Recovers(k) => s.(backups := s.backups[k := BackupSpec.Recover(s.backups[k])])
  }

  ghost predicate Run(w: World, ss: seq<System>, es: seq<Event>)
    requires w.Valid()
  {
    && |ss| == |es| + 1
    && ss[0] == Start(w)
    && forall j :: 0 <= j < |es| ==> Possible(w, ss[j], es[j]) && ss[j + 1] == Next(w, ss[j], es[j])
  }

  // ---------- the invariant

  /** How far a backup has come is how much of the leader's outcome it holds. */
  ghost predicate Follows(l: LeaderSpec.Leader, b: BackupSpec.Backup) {
    match b.state
    case Initial => true
    case Error => true
    case CommitDone => !l.state.Initial? && b.message == l.announced
    case ResponseDone => !l.state.Initial? && b.message == l.announced
    case FinalCommitDone => b.cs1.Some? && b.cs1 == l.cs1 && b.message == l.message
    case FinalResponseDone => b.cs1.Some? && b.cs1 == l.cs1 && b.message == l.message
    case Done => b.cs1.Some? && b.cs1 == l.cs1 && b.message == l.message && b.cs2.Some? && b.cs2 == l.cs2
    case _ => false
  }

  ghost predicate Inv(w: World, s: System)
    requires w.Valid()
  {
    && LeaderProof.Inv(w.leader, s.leader)
    && |s.backups| == |s.replies| == |w.backups|
    && (forall m :: m in s.sent ==> LeaderProof.Faithful(w.leader, s.leader, m))
    && (forall k :: 0 <= k < |s.backups| ==> Follows(s.leader, s.backups[k]))
    && (forall k :: 0 <= k < |s.backups| ==> BackupSpec.KeepsWord(w.backups[k], s.backups[k], s.replies[k]))
  }

  lemma LeaderStepInv(w: World, s: System, i: LeaderProof.Input)
    requires w.Valid() && Inv(w, s) && Possible(w, s, LeaderStep(i))
    ensures Inv(w, Next(w, s, LeaderStep(i)))
  {
    var c, l := w.leader, s.leader;
    var o := LeaderProof.Step(c, l, i);
    LeaderProof.StepInv(c, l, i);
    LeaderProof.StepFaithful(c, l, i);
    forall m | m in s.sent
      ensures LeaderProof.Faithful(c, o.leader, m)
    {
      LeaderProof.FaithfulStays(c, l, o.leader, m);
    }
    forall k | 0 <= k < |s.backups|
      ensures Follows(o.leader, s.backups[k])
    {
      FollowsStays(c, l, o.leader, s.backups[k]);
    }
  }

  lemma FollowsStays(c: LeaderSpec.Config, l: LeaderSpec.Leader, l': LeaderSpec.Leader, b: BackupSpec.Backup)
    requires c.Valid() && LeaderProof.Inv(c, l) && LeaderProof.Inv(c, l') && LeaderProof.Extends(l, l') && Follows(l, b)
    ensures Follows(l', b)
  {
  }

  lemma DeliverFollows(w: World, s: System, k: nat, d: BackupSpec.Delivery)
    requires w.Valid() && Inv(w, s) && Possible(w, s, Deliver(k, d))
    ensures Follows(s.leader, Next(w, s, Deliver(k, d)).backups[k])
    ensures BackupSpec.KeepsWord(w.backups[k], Next(w, s, Deliver(k, d)).backups[k], Next(w, s, Deliver(k, d)).replies[k])
  {
    assert LeaderProof.Faithful(w.leader, s.leader, d.m);
    BackupSpec.StepKeepsWord(w.backups[k], s.backups[k], d.m, d.verdict, d.nonce, s.replies[k]);
  }

  lemma StepInv(w: World, s: System, e: Event)
    requires w.Valid() && Inv(w, s) && Possible(w, s, e)
    ensures Inv(w, Next(w, s, e))
  {
    match e
    case LeaderStep(i) => LeaderStepInv(w, s, i);
    case Deliver(k, d) => DeliverFollows(w, s, k, d);
    case Recovers(_) =>
  }

  lemma {:induction false} RunInv(w: World, ss: seq<System>, es: seq<Event>, j: nat)
    requires w.Valid() && Run(w, ss, es) && j < |ss|
    ensures Inv(w, ss[j])
  {
    if j > 0 {
      RunInv(w, ss, es, j - 1);
      StepInv(w, ss[j - 1], es[j - 1]);
    }
  }

  // ---------- agreement

  predicate HoldsRoundOne(s: State) { s.FinalCommitDone? || s.FinalResponseDone? || s.Done? }

  /** Agreement: at every point of every run, a backup past round one holds the leader's first
      certificate and extended message, and a finished backup its second certificate too. */
  lemma AgreementInEveryRun(w: World, ss: seq<System>, es: seq<Event>, j: nat, k: nat)
    requires w.Valid() && Run(w, ss, es) && j < |ss| && k < |w.backups|
    ensures |ss[j].backups| == |w.backups|
    ensures var l, b := ss[j].leader, ss[j].backups[k];
            && (HoldsRoundOne(b.state) ==> l.cs1.Some? && b.cs1 == l.cs1 && b.message == w.leader.com.Extend(l.announced, l.cs1.value))
            && (b.state.Done? ==> l.cs2.Some? && b.cs2 == l.cs2)
  {
    RunInv(w, ss, es, j);
    assert Follows(ss[j].leader, ss[j].backups[k]);
  }

  /** Two finished backups of one session finished with the same two certificates, at whatever
      points of the run they are looked at. */
  lemma FinishedBackupsAgree(w: World, ss: seq<System>, es: seq<Event>, i: nat, j: nat, a: nat, b: nat)
    requires w.Valid() && Run(w, ss, es) && i <= j < |ss| && a < |w.backups| && b < |w.backups|
    requires |ss[i].backups| == |ss[j].backups| == |w.backups|
    requires ss[i].backups[a].state.Done? && ss[j].backups[b].state.Done?
    ensures ss[i].backups[a].cs1 == ss[j].backups[b].cs1 && ss[i].backups[a].cs2 == ss[j].backups[b].cs2
  {
    AgreementInEveryRun(w, ss, es, i, a);
    AgreementInEveryRun(w, ss, es, j, b);
    NothingRevoked(w, ss, es, i, j);
  }

  /** Along every run the announced message and the two certificates are set once and for all. */
  lemma {:induction false} NothingRevoked(w: World, ss: seq<System>, es: seq<Event>, i: nat, j: nat)
    requires w.Valid() && Run(w, ss, es) && i <= j < |ss|
    ensures LeaderProof.Extends(ss[i].leader, ss[j].leader)
  {
    if i < j {
      NothingRevoked(w, ss, es, i, j - 1);
      RunExtends(w, ss, es, j - 1);
      ExtendsAll(ss[i].leader, ss[j - 1].leader, ss[j].leader);
    }
  }

  lemma RunExtends(w: World, ss: seq<System>, es: seq<Event>, j: nat)
    requires w.Valid() && Run(w, ss, es) && j < |es|
    ensures LeaderProof.Extends(ss[j].leader, ss[j + 1].leader)
  {
    RunInv(w, ss, es, j);
    StepExtends(w, ss[j], es[j]);
  }

  lemma StepExtends(w: World, s: System, e: Event)
    requires w.Valid() && Inv(w, s) && Possible(w, s, e)
    ensures LeaderProof.Extends(s.leader, Next(w, s, e).leader)
  {
    if e.LeaderStep? {
      LeaderProof.StepFaithful(w.leader, s.leader, e.input);
    }
  }

  lemma ExtendsAll(l0: LeaderSpec.Leader, l1: LeaderSpec.Leader, l2: LeaderSpec.Leader)
    requires LeaderProof.Extends(l0, l1) && LeaderProof.Extends(l1, l2)
    ensures LeaderProof.Extends(l0, l2)
  {
  }

  /** Single winner and second-after-first, at every point of every run. */
  lemma SingleWinnerInEveryRun(w: World, ss: seq<System>, es: seq<Event>, j: nat)
    requires w.Valid() && Run(w, ss, es) && j < |ss|
    ensures var l := ss[j].leader;
            && (l.cs2.Some? ==> l.cs1.Some?)
            && (!l.state.Error? ==> LeaderProof.OneWinner(l))
  {
    RunInv(w, ss, es, j);
    if !ss[j].leader.state.Error? {
      LeaderProof.SingleWinner(w.leader, ss[j].leader);
    }
  }

  // ---------- the two machines fit together

  /** A correct backup's commit is accepted by a leader that is collecting and has none from it yet,
      unless its secret happens to give the neutral point. */
  lemma HonestCommitAccepted(lc: LeaderSpec.Config, l: LeaderSpec.Leader, bc: BackupSpec.Config, round: Round, nonce: nat)
    requires lc.Valid() && LeaderSpec.Shape(lc, l) && bc.com == lc.com && bc.myID < lc.com.Size()
    requires l.state == round.Collecting() && !l.commitMap[bc.myID]
    ensures LeaderSpec.CommitAccepted(lc, l, BackupSpec.CommitWith(bc, round, nonce))
       <==> lc.com.scheme.group.Mul(nonce, lc.com.scheme.base) != lc.com.scheme.group.neutral
  {
  }

  /** A correct backup that committed with `secret` and answers a subset's challenge is accepted there,
      unless the answer happens to be zero. */
  lemma HonestResponseAccepted(lc: LeaderSpec.Config, sub: LeaderSpec.Subset, bc: BackupSpec.Config, round: Round, secret: nat,
                               infos: seq<ChallengeInfo>, k: nat)
    requires lc.Valid() && LeaderSpec.SubsetShape(lc, sub) && bc.com == lc.com && bc.myID < lc.com.Size()
    requires lc.com.keys[bc.myID] == lc.com.scheme.group.Mul(bc.privKey, lc.com.scheme.base)
    requires sub.state == round.Challenged() && sub.commitMap[bc.myID] && !sub.responseMap[bc.myID]
    requires sub.commitPointMap[bc.myID] == lc.com.scheme.group.Mul(secret, lc.com.scheme.base)
    requires k < |infos| && infos[k] == LeaderSpec.InfoOf(lc, sub)
    ensures var answer := BackupSpec.ResponsesTo(bc, secret, infos)[k];
            LeaderSpec.ResponseAccepted(lc, sub, round, bc.myID, answer) <==> answer != 0
  {
    MultiSig.HonestResponseAccepted(lc.com.scheme, secret, sub.challenge, bc.privKey);
  }

  /** In every run the commit a backup last sent is the one its state says, and its secret opens it. */
  lemma BackupsKeepWord(w: World, ss: seq<System>, es: seq<Event>, j: nat, k: nat)
    requires w.Valid() && Run(w, ss, es) && j < |ss| && k < |w.backups|
    ensures |ss[j].backups| == |ss[j].replies| == |w.backups|
    ensures BackupSpec.KeepsWord(w.backups[k], ss[j].backups[k], ss[j].replies[k])
  {
    RunInv(w, ss, es, j);
  }

  /** Subset `n` of the leader is running, and its challenge to the backup over the commit that the backup
      last sent is unanswered. */
  ghost predicate Awaits(w: World, s: System, k: nat, round: Round, n: nat)
    requires w.Valid() && LeaderSpec.Shape(w.leader, s.leader) && k < |w.backups| == |s.replies|
  {
    var id := w.backups[k].myID;
    && n < |s.leader.subsets| && id < w.leader.com.Size()
    && var sub, commit := s.leader.subsets[n], BackupSpec.LastCommit(s.replies[k]);
       && sub.state == round.Challenged() && sub.commitMap[id] && !sub.responseMap[id]
       && commit.Some? && commit.value.Commit? && sub.commitPointMap[id] == commit.value.point
  }

  /** A run's backup is given the leader's challenge and answers it: every answer that is not zero passes the
      check of the subset that awaits it, and the leader puts it on record, ends the round, or drops it with
      the rest of the message because an earlier subset's signature failed. */
  lemma AnswerReachesLeader(w: World, ss: seq<System>, es: seq<Event>, j: nat, k: nat, d: BackupSpec.Delivery, n: nat, picks: seq<seq<bool>>)
    requires w.Valid() && Run(w, ss, es) && j < |ss| && Possible(w, ss[j], Deliver(k, d))
    requires w.backups[k].myID < w.leader.com.Size()
    requires w.leader.com.keys[w.backups[k].myID] == w.leader.com.scheme.group.Mul(w.backups[k].privKey, w.leader.com.scheme.base)
    requires d.m.Challenges? && ss[j].leader.state == d.m.round.Challenged()
    requires LeaderSpec.Shape(w.leader, ss[j].leader) && d.m.infos == LeaderSpec.InfosOf(w.leader, ss[j].leader.subsets)
    requires Awaits(w, ss[j], k, d.m.round, n)
    requires BackupSpec.Allows(ss[j].backups[k].state, d.m) && !MeetsUnhashable(w.leader.com, ss[j].backups[k], d.m)
    ensures var s' := Next(w, ss[j], Deliver(k, d));
            && s'.replies[k] != [] && var m := s'.replies[k][|s'.replies[k]| - 1];
            && m.Responses? && m.round == d.m.round && m.id == w.backups[k].myID && |m.responses| == |d.m.infos|
            && (LeaderSpec.ResponseAccepted(w.leader, ss[j].leader.subsets[n], m.round, m.id, m.responses[n]) <==> m.responses[n] != 0)
            && (m.responses[n] != 0 ==>
                  LeaderProof.Recorded(s'.leader, LeaderProof.Step(w.leader, s'.leader, LeaderProof.Receive(m, picks)).leader, m, n))
  {
    var s, b, bc := ss[j], ss[j].backups[k], w.backups[k];
    RunInv(w, ss, es, j);
    ErrorExactly(w, ss, es, j, k, d);
    BackupsKeepWord(w, ss, es, j, k);
    var r := BackupSpec.GatedReceive(bc, b, d.m, d.verdict, d.nonce);
    assert r.sent == [Responses(d.m.round, bc.myID, BackupSpec.ResponsesTo(bc, b.secret, d.m.infos))];
    var m := r.sent[0];
    HonestResponseAccepted(w.leader, s.leader.subsets[n], bc, d.m.round, b.secret, d.m.infos, n);
    if m.responses[n] != 0 {
      LeaderProof.ResponsesRecorded(w.leader, s.leader, m, picks, n);
    }
  }

  /** A backup whose validator rejects the announcement with an error reports it, and the leader counts the
      report once for each member. */
  lemma RejectionIsCounted(lc: LeaderSpec.Config, l: LeaderSpec.Leader, bc: BackupSpec.Config, b: BackupSpec.Backup,
                           msg: Bytes, buffer: Bytes, error: Bytes, nonce: nat)
    requires lc.Valid() && bc.com == lc.com && bc.myID < lc.com.Size() && b.state.Initial?
    requires LeaderSpec.FailureAllowed(l.state) && bc.myID !in l.failures
    ensures var r := BackupSpec.GatedReceive(bc, b, Announcement(msg), BackupSpec.RejectWithError(buffer, error), nonce);
            && r.backup.state.Error? && |r.sent| == 1 && r.sent[0].CommitFailure?
            && var l' := LeaderSpec.ProcessFailure(lc, l, r.sent[0]).leader;
               && l'.failureCounter == l.failureCounter + 1 && l'.failures == l.failures[bc.myID := error]
               && LeaderSpec.ProcessFailure(lc, l', r.sent[0]) == LeaderSpec.Outcome(l', [])
  {
  }

  // ---------- no false error

  predicate PastCommit(s: State) {
    s.CommitDone? || s.ResponseDone? || s.FinalCommitDone? || s.FinalResponseDone? || s.Done?
  }

  /** The challenge hash exists: the message is not empty and neither aggregate is the neutral point. */
  predicate Hashable(com: Committee, msg: Bytes, info: ChallengeInfo) {
    msg != [] && info.commit != com.scheme.group.neutral && info.key != com.scheme.group.neutral
  }

  /** Whether delivering `m` makes the backup meet a challenge that could not be hashed. */
  predicate MeetsUnhashable(com: Committee, b: BackupSpec.Backup, m: ToBackups) {
    && m.Challenges? && BackupSpec.Allows(b.state, m)
    && exists i :: 0 <= i < |m.infos| && !Hashable(com, b.message, m.infos[i])
  }

  /** No false error, exactly: a backup that has committed enters the error state on a message of the
      correct leader if and only if the leader challenged it with an unhashable aggregate. */
  lemma ErrorExactly(w: World, ss: seq<System>, es: seq<Event>, j: nat, k: nat, d: BackupSpec.Delivery)
    requires w.Valid() && Run(w, ss, es) && j < |ss|
    requires Possible(w, ss[j], Deliver(k, d)) && PastCommit(ss[j].backups[k].state)
    ensures var b' := Next(w, ss[j], Deliver(k, d)).backups[k];
            && (b'.state.Error? <==> MeetsUnhashable(w.leader.com, ss[j].backups[k], d.m))
            && (!b'.state.Error? ==> PastCommit(b'.state))
  {
    RunInv(w, ss, es, j);
    var s := ss[j];
    var b := s.backups[k];
    assert LeaderProof.Faithful(w.leader, s.leader, d.m) && Follows(s.leader, b);
    if d.m.Challenges? && BackupSpec.Allows(b.state, d.m) {
      forall i | 0 <= i < |d.m.infos|
        ensures BackupSpec.Matches(w.backups[k], b.message, d.m.infos[i]) <==> Hashable(w.leader.com, b.message, d.m.infos[i])
      {
        assert LeaderProof.InfoOver(w.leader, b.message, d.m.infos[i]);
      }
    }
  }

  /** Every challenge among the messages could be hashed over the message of its round. */
  ghost predicate AllHashable(w: World, s: System) {
    forall m, i :: m in s.sent && m.Challenges? && 0 <= i < |m.infos| ==>
      Hashable(w.leader.com, if m.round.First? then s.leader.announced else s.leader.message, m.infos[i])
  }

  /** No false error over whole runs: if the leader's challenges were hashable, a backup that has
      once committed is never in the error state afterwards. */
  lemma {:induction false} NeverErrorAfterCommit(w: World, ss: seq<System>, es: seq<Event>, i: nat, j: nat, k: nat)
    requires w.Valid() && Run(w, ss, es) && i <= j < |ss| && k < |w.backups|
    requires |ss[i].backups| == |w.backups| && PastCommit(ss[i].backups[k].state)
    requires forall t :: i <= t < j ==> AllHashable(w, ss[t])
    ensures |ss[j].backups| == |w.backups| && PastCommit(ss[j].backups[k].state)
  {
    if i < j {
      NeverErrorAfterCommit(w, ss, es, i, j - 1, k);
      StaysPastCommit(w, ss, es, j - 1, k);
    }
  }

  lemma StaysPastCommit(w: World, ss: seq<System>, es: seq<Event>, j: nat, k: nat)
    requires w.Valid() && Run(w, ss, es) && j < |es| && k < |w.backups|
    requires |ss[j].backups| == |w.backups| && PastCommit(ss[j].backups[k].state) && AllHashable(w, ss[j])
    ensures |ss[j + 1].backups| == |w.backups| && PastCommit(ss[j + 1].backups[k].state)
  {
    match es[j]
    case LeaderStep(_) =>
    case Deliver(k', d) =>
      if k' == k {
        RunInv(w, ss, es, j);
        ErrorExactly(w, ss, es, j, k, d);
        MeetsNone(w, ss[j], k, d);
      }
    case Recovers(_) =>
  }

  lemma MeetsNone(w: World, s: System, k: nat, d: BackupSpec.Delivery)
    requires w.Valid() && Inv(w, s) && Possible(w, s, Deliver(k, d)) && AllHashable(w, s)
    ensures !MeetsUnhashable(w.leader.com, s.backups[k], d.m)
  {
    assert Follows(s.leader, s.backups[k]);
  }

  // ---------- a run in which a committed backup does end in error

  /** Two members in one subset, with commit secrets that add up to the order and so cancel out. */
  ghost predicate Cancelling(w: World, nonce: nat)
    requires w.Valid()
  {
    var g, base := w.leader.com.scheme.group, w.leader.com.scheme.base;
    && w.leader.com.Size() == 2 && w.leader.leaderID == 0 && w.leader.numOfSubsets <= 1
    && |w.backups| == 1 && w.backups[0].myID == 1
    && w.leader.secret + nonce == g.order && g.Mul(nonce, base) != g.neutral
  }

  const BOTH: seq<bool> := [true, true]

  lemma CommitsCancel(w: World, nonce: nat)
    requires w.Valid() && Cancelling(w, nonce)
    ensures var g, base := w.leader.com.scheme.group, w.leader.com.scheme.base;
            g.Sum([g.Mul(w.leader.secret, base), g.Mul(nonce, base)]) == g.neutral
  {
    var g, base := w.leader.com.scheme.group, w.leader.com.scheme.base;
    var p, q := g.Mul(w.leader.secret, base), g.Mul(nonce, base);
    assert [p, q][1..] == [q] && [q][1..] == [];
    assert g.Unit(q) && g.Commutes(q, g.neutral);
    assert g.Sum([q]) == g.add(q, g.Sum([])) == q;
    assert g.Sum([p, q]) == g.add(p, g.Sum([q]));
    g.MulAdd(w.leader.secret, nonce, base);
    assert g.Torsion(base);
  }

  /** The leader once it has announced `msg`, and once the backup's commit is in. */
  function Announced(w: World, msg: Bytes): LeaderSpec.Leader
    requires w.leader.leaderID < w.leader.com.Size()
  {
    LeaderSpec.Start(w.leader, LeaderSpec.Init(w.leader), msg).leader
  }

  lemma SelectBoth<T>(xs: seq<T>)
    requires |xs| == 2
    ensures Bits.Select(BOTH, xs) == xs && Bits.Count(BOTH) == 2
  {
    assert BOTH[1..] == [true] && xs[1..] == [xs[1]];
    assert Bits.Select([true], [xs[1]]) == [xs[1]] + Bits.Select([], []);
    assert Bits.Select(BOTH, xs) == [xs[0]] + Bits.Select([true], [xs[1]]);
    assert Bits.Count([true]) == 1 + Bits.Count([]);
  }

  /** The backup's commit completes the quorum, and the only permitted subset is both members. */
  lemma CommitCompletes(w: World, msg: Bytes, nonce: nat)
    requires w.Valid() && Cancelling(w, nonce)
    ensures var c, l := w.leader, Announced(w, msg);
            var m := BackupSpec.CommitWith(w.backups[0], First, nonce);
            && LeaderSpec.Shape(c, l) && LeaderSpec.CommitCompletes(c, l, m)
            && LeaderSpec.Record(l, 1, m.point).commitMap == BOTH
            && LeaderSpec.PicksOk(c, BOTH, [BOTH])
  {
    var c, l := w.leader, Announced(w, msg);
    assert LeaderSpec.OnlyLeader(c) == [true, false];
    var m := BackupSpec.CommitWith(w.backups[0], First, nonce);
    assert LeaderSpec.Record(l, 1, m.point).commitMap == BOTH;
    SelectBoth(c.com.keys);
  }

  /** The challenge that then goes out is over the neutral point. */
  lemma ChallengesNeutral(w: World, msg: Bytes, nonce: nat)
    requires w.Valid() && Cancelling(w, nonce)
    ensures var c, l := w.leader, Announced(w, msg);
            var m := BackupSpec.CommitWith(w.backups[0], First, nonce);
            && LeaderSpec.Shape(c, l) && LeaderProof.Enabled(c, l, LeaderProof.Receive(m, [BOTH]))
            && var o := LeaderProof.Step(c, l, LeaderProof.Receive(m, [BOTH]));
               && |o.sent| == 1 && o.sent[0].Challenges? && o.sent[0].round.First? && |o.sent[0].infos| == 1
               && o.sent[0].infos[0].commit == c.com.scheme.group.neutral
  {
    var c, l := w.leader, Announced(w, msg);
    var m := BackupSpec.CommitWith(w.backups[0], First, nonce);
    CommitCompletes(w, msg, nonce);
    CommitsCancel(w, nonce);
    var l' := LeaderSpec.Record(l, 1, m.point);
    var sub := LeaderSpec.NewSubset(c, l', BOTH, ChallengeDone);
    assert sub.commitPointMap == [c.CommitPoint(), m.point];
    SelectBoth(sub.commitPointMap);
    assert LeaderSpec.InfoOf(c, sub).commit == c.com.scheme.group.neutral;
  }

  /** The condition of `ErrorExactly` is met in a run of correct nodes: leader and backup commit with
      secrets that cancel out, the aggregate is neutral, and the committed backup ends in error. */
  lemma ErrorHappens(w: World, msg: Bytes, nonce: nat) returns (ss: seq<System>, es: seq<Event>)
    requires w.Valid() && Cancelling(w, nonce)
    ensures Run(w, ss, es) && |es| == 4
    ensures |ss[2].backups| == |ss[4].backups| == 1
    ensures PastCommit(ss[2].backups[0].state) && ss[4].backups[0].state.Error?
  {
    var announce := LeaderStep(LeaderProof.DoStart(msg));
    var accept := Deliver(0, BackupSpec.Delivery(Announcement(msg), BackupSpec.Accept, nonce));
    var m := BackupSpec.CommitWith(w.backups[0], First, nonce);
    var challenge := LeaderStep(LeaderProof.Receive(m, [BOTH]));
    ChallengesNeutral(w, msg, nonce);
    var s0 := Start(w);
    var s1 := Next(w, s0, announce);
    assert s1.leader == Announced(w, msg) && Announcement(msg) in s1.sent;
    var s2 := Next(w, s1, accept);
    var o := LeaderProof.Step(w.leader, s2.leader, LeaderProof.Receive(m, [BOTH]));
    var s3 := Next(w, s2, challenge);
    assert o.sent[0] in s3.sent;
    var answer := Deliver(0, BackupSpec.Delivery(o.sent[0], BackupSpec.Accept, nonce));
    assert !BackupSpec.Matches(w.backups[0], s3.backups[0].message, o.sent[0].infos[0]);
    var s4 := Next(w, s3, answer);
    ss, es := [s0, s1, s2, s3, s4], [announce, accept, challenge, answer];
  }
}
