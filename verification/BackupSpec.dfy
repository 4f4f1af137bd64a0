/** The consensus backup as a transition function over the messages its leader may send. */
module BackupSpec {
  import opened Wrappers
  import opened MultiSig
  import opened Consensus

  datatype Config = Config(com: Committee, myID: nat, privKey: nat)

  datatype Backup = Backup(
    state: State,
    announced: Bytes,     // the last accepted announcement
    message: Bytes,       // the message being signed
    secret: nat,
    cs1: Option<CoSig>, cs2: Option<CoSig>)

  /** What the announcement validator says. It writes the message buffer even when it rejects. */
  datatype Verdict =
    | Accept
    | RejectWithError(buffer: Bytes, error: Bytes)
    | RejectSilently(buffer: Bytes)

  datatype Reaction = Reaction(backup: Backup, sent: seq<ToLeader>)

  function Init(): Backup {
    Backup(Initial, [], [], 0, None, None)
  }

  /** The table of states in which a message of the leader is acted upon. */
  predicate Allows(s: State, m: ToBackups) {
    match m
    case Announcement(_) => s.Initial?
    case ConsensusFailure => true
    case Challenges(First, _) => s.CommitDone? || s.ResponseDone?
    case Challenges(Second, _) => s.FinalCommitDone? || s.FinalResponseDone?
    case Collective(First, _) => s.CommitDone? || s.ResponseDone?
    case Collective(Second, _) => s.CommitDone? || s.ResponseDone? || s.FinalCommitDone? || s.FinalResponseDone?
  }

  /** The gate the callers put in front of a consensus object. */
  predicate CanProcess(s: State, m: ToBackups) {
    match m
    case Collective(First, _) => !s.Initial?
    case Collective(Second, _) => !(s.Initial? || s.CommitDone? || s.ResponseDone?)
    case _ => true
  }

  function Responded(round: Round): State { if round.First? then ResponseDone else FinalResponseDone }

  function CommitWith(c: Config, round: Round, nonce: nat): ToLeader
    requires c.com.scheme.group.order > 0
  {
    var p := c.com.scheme.group.Mul(nonce, c.com.scheme.base);
    Commit(round, c.myID, p, PointHash(c.com.scheme, p))
  }

  /** The backup recomputes the challenge over its own message and finds the one it was given. */
  predicate Matches(c: Config, msg: Bytes, info: ChallengeInfo)
    requires c.com.scheme.group.order > 0
  {
    Challenge(c.com.scheme, THIRD_DOMAIN, info.commit, info.key, msg) == Some(info.challenge)
  }

  predicate AllMatch(c: Config, msg: Bytes, infos: seq<ChallengeInfo>)
    requires c.com.scheme.group.order > 0
  {
    forall k :: 0 <= k < |infos| ==> Matches(c, msg, infos[k])
  }

  function ResponsesTo(c: Config, secret: nat, infos: seq<ChallengeInfo>): (rs: seq<nat>)
    requires c.com.scheme.group.order > 0
  {
    seq(|infos|, k requires 0 <= k < |infos| => Respond(c.com.scheme, secret, infos[k].challenge, c.privKey))
  }

  /** One message, already through the gate. `nonce` is the fresh commit secret. */
  function Receive(c: Config, b: Backup, m: ToBackups, verdict: Verdict, nonce: nat): Reaction
    requires c.com.scheme.group.order > 0
  {
    if !Allows(b.state, m) then Reaction(b, [])
    else match m
      case Announcement(msg) =>
        (match verdict
         case Accept => Reaction(b.(state := CommitDone, announced := msg, message := msg, secret := nonce), [CommitWith(c, First, nonce)])
         case RejectWithError(buffer, error) => Reaction(b.(state := Error, message := buffer), [CommitFailure(c.myID, error)])
         case RejectSilently(buffer) => Reaction(b.(message := buffer), []))
      case ConsensusFailure => Reaction(b.(state := Initial), [])
      case Challenges(round, infos) =>
        if !AllMatch(c, b.message, infos) then Reaction(b.(state := Error), [])
        else Reaction(b.(state := Responded(round)), [Responses(round, c.myID, ResponsesTo(c, b.secret, infos))])
      case Collective(round, cs) =>
        if !c.com.Signs(b.message, cs) then Reaction(b.(state := Error), [])
        else if round.First? then
          Reaction(b.(state := FinalCommitDone, message := c.com.Extend(b.message, cs), cs1 := Some(cs), secret := nonce),
                   [CommitWith(c, Second, nonce)])
        else Reaction(b.(state := State.Done, cs2 := Some(cs)), [])
  }

  function GatedReceive(c: Config, b: Backup, m: ToBackups, verdict: Verdict, nonce: nat): Reaction
    requires c.com.scheme.group.order > 0
  {
    if CanProcess(b.state, m) then Receive(c, b, m, verdict, nonce) else Reaction(b, [])
  }

  // ---------- what a backup has told its leader

  /** The last commit among the messages sent. */
  function LastCommit(sent: seq<ToLeader>): Option<ToLeader> {
    if sent == [] then None
    else if sent[|sent| - 1].Commit? then Some(sent[|sent| - 1])
    else LastCommit(sent[..|sent| - 1])
  }

  /** The last commit sent was for this round, and the secret kept opens it. */
  predicate HoldsCommit(c: Config, b: Backup, round: Round, sent: seq<ToLeader>) {
    var commit := LastCommit(sent);
    && commit.Some? && commit.value.Commit?
    && commit.value.round == round && commit.value.id == c.myID
    && commit.value.point == c.com.scheme.group.Mul(b.secret, c.com.scheme.base)
  }

  /** The state tells which commit is outstanding. */
  predicate KeepsWord(c: Config, b: Backup, sent: seq<ToLeader>) {
    match b.state
    case CommitDone => HoldsCommit(c, b, First, sent)
    case ResponseDone => HoldsCommit(c, b, First, sent)
    case FinalCommitDone => HoldsCommit(c, b, Second, sent)
    case FinalResponseDone => HoldsCommit(c, b, Second, sent)
    case _ => true
  }

  lemma LastCommitAppend(sent: seq<ToLeader>, m: ToLeader)
    ensures LastCommit(sent + [m]) == if m.Commit? then Some(m) else LastCommit(sent)
  {
    assert (sent + [m])[..|sent|] == sent;
  }

  lemma StepKeepsWord(c: Config, b: Backup, m: ToBackups, verdict: Verdict, nonce: nat, sent: seq<ToLeader>)
    requires c.com.scheme.group.order > 0 && KeepsWord(c, b, sent)
    ensures var r := GatedReceive(c, b, m, verdict, nonce);
            KeepsWord(c, r.backup, sent + r.sent)
  {
    var r := GatedReceive(c, b, m, verdict, nonce);
    if r.sent == [] {
      assert sent + r.sent == sent;
    } else {
      ReplyKeepsWord(c, b, m, verdict, nonce, sent);
      assert r.sent == [r.sent[0]];
    }
  }

  lemma ReplyKeepsWord(c: Config, b: Backup, m: ToBackups, verdict: Verdict, nonce: nat, sent: seq<ToLeader>)
    requires c.com.scheme.group.order > 0 && KeepsWord(c, b, sent) && GatedReceive(c, b, m, verdict, nonce).sent != []
    ensures var r := GatedReceive(c, b, m, verdict, nonce);
            |r.sent| == 1 && KeepsWord(c, r.backup, sent + [r.sent[0]])
  {
    LastCommitAppend(sent, GatedReceive(c, b, m, verdict, nonce).sent[0]);
  }

  /** The round a backup is in, once it has committed. */
  function Awaiting(s: State): Option<Round> {
    match s
    case CommitDone => Some(First)
    case ResponseDone => Some(First)
    case FinalCommitDone => Some(Second)
    case FinalResponseDone => Some(Second)
    case _ => None
  }

  /** A challenge of its round is answered as often as it comes, each time with the same responses; a backup
      whose answer got lost does not hold up the leader. */
  lemma AnswersAgain(c: Config, b: Backup, infos: seq<ChallengeInfo>, round: Round, verdict: Verdict, nonce: nat)
    requires c.com.scheme.group.order > 0 && Awaiting(b.state) == Some(round) && AllMatch(c, b.message, infos)
    ensures var r := GatedReceive(c, b, Challenges(round, infos), verdict, nonce);
            && |r.sent| == 1 && r.sent[0].Responses? && |r.sent[0].responses| == |infos|
            && Awaiting(r.backup.state) == Some(round)
            && GatedReceive(c, r.backup, Challenges(round, infos), verdict, nonce).sent == r.sent
  {
  }

  /** A certificate of its round takes a backup on whether or not it was among the challenged: to the second
      round with a new commit, or to the end. One that does not verify puts it in error. */
  lemma CertificateTaken(c: Config, b: Backup, round: Round, cs: CoSig, verdict: Verdict, nonce: nat)
    requires c.com.scheme.group.order > 0 && Awaiting(b.state) == Some(round)
    ensures var r := GatedReceive(c, b, Collective(round, cs), verdict, nonce);
            if !c.com.Signs(b.message, cs) then r.backup.state.Error? && r.sent == []
            else if round.First? then
              Awaiting(r.backup.state) == Some(Second) && r.backup.cs1 == Some(cs) && |r.sent| == 1 && r.sent[0].Commit?
            else
              r.backup.state.Done? && r.backup.cs1 == b.cs1 && r.backup.cs2 == Some(cs)
  {
  }

  /** Wherever a backup is, the leader's failure message takes it back to where it commits to the next
      announcement; one that its validator silently rejects leaves it there. */
  lemma StartsAgain(c: Config, b: Backup, msg: Bytes, buffer: Bytes, verdict: Verdict, nonce: nat)
    requires c.com.scheme.group.order > 0
    ensures var r := GatedReceive(c, b, ConsensusFailure, verdict, nonce);
            && r.sent == []
            && var rejects := GatedReceive(c, r.backup, Announcement(msg), RejectSilently(buffer), nonce);
               var accepts := GatedReceive(c, rejects.backup, Announcement(msg), Accept, nonce);
               && rejects.sent == []
               && accepts.backup.state.CommitDone? && accepts.backup.message == msg
               && HoldsCommit(c, accepts.backup, First, accepts.sent)
  {
    var r := GatedReceive(c, b, ConsensusFailure, verdict, nonce);
    var accepts := GatedReceive(c, r.backup.(message := buffer), Announcement(msg), Accept, nonce);
    LastCommitAppend([], accepts.sent[0]);
    assert accepts.sent == [] + [accepts.sent[0]];
  }

  // ---------- against an arbitrary leader

  /** Whatever the leader sends, the state tells which signatures have been checked over what. */
  predicate Inv(c: Config, b: Backup)
    requires c.com.scheme.group.order > 0
  {
    match b.state
    case Initial => true
    case Error => true
    case CommitDone => b.message == b.announced
    case ResponseDone => b.message == b.announced
    case FinalCommitDone => RoundOneDone(c, b)
    case FinalResponseDone => RoundOneDone(c, b)
    case Done => RoundOneDone(c, b) && b.cs2.Some? && c.com.Signs(b.message, b.cs2.value)
    case _ => false
  }

  predicate RoundOneDone(c: Config, b: Backup)
    requires c.com.scheme.group.order > 0
  {
    && b.cs1.Some?
    && c.com.Signs(b.announced, b.cs1.value)
    && b.message == c.com.Extend(b.announced, b.cs1.value)
  }

  lemma StepInv(c: Config, b: Backup, m: ToBackups, verdict: Verdict, nonce: nat)
    requires c.com.scheme.group.order > 0 && Inv(c, b)
    ensures Inv(c, GatedReceive(c, b, m, verdict, nonce).backup)
  {
    match m
    case Collective(_, _) =>
    case _ =>
  }

  datatype Delivery = Delivery(m: ToBackups, verdict: Verdict, nonce: nat)

  /** The caller sends the backup back to the start, to process the announcement again. */
  function Recover(b: Backup): Backup { b.(state := Initial) }

  datatype Happening = Arrives(d: Delivery) | Recovers

  /** The backup after any sequence of messages and recoveries, resets included. */
  function AfterAll(c: Config, hs: seq<Happening>): Backup
    requires c.com.scheme.group.order > 0
  {
    if hs == [] then Init()
    else
      var before := AfterAll(c, hs[..|hs| - 1]);
      match hs[|hs| - 1]
      case Arrives(d) => GatedReceive(c, before, d.m, d.verdict, d.nonce).backup
      case Recovers => Recover(before)
  }

  lemma {:induction false} AfterAllInv(c: Config, hs: seq<Happening>)
    requires c.com.scheme.group.order > 0
    ensures Inv(c, AfterAll(c, hs))
  {
    if hs != [] {
      AfterAllInv(c, hs[..|hs| - 1]);
      match hs[|hs| - 1]
      case Arrives(d) => StepInv(c, AfterAll(c, hs[..|hs| - 1]), d.m, d.verdict, d.nonce);
      case Recovers =>
    }
  }

  /** Safety of a gated backup against an arbitrary leader: when it is done, the first collective
      signature verifies over the announcement it last accepted, and the second over that
      announcement extended with the first and its bitmap. */
  lemma DoneMeansBothRounds(c: Config, hs: seq<Happening>)
    requires c.com.scheme.group.order > 0
    ensures var b := AfterAll(c, hs);
            b.state.Done? ==>
              && b.cs1.Some? && b.cs2.Some?
              && c.com.Signs(b.announced, b.cs1.value)
              && c.com.Signs(c.com.Extend(b.announced, b.cs1.value), b.cs2.value)
  {
    AfterAllInv(c, hs);
  }

  /** ... and it got there through the state in which it had sent its final commit. */
  lemma {:induction false} DoneWentThroughFinalCommit(c: Config, hs: seq<Happening>)
    requires c.com.scheme.group.order > 0
    requires AfterAll(c, hs).state in {State.Done, FinalResponseDone, FinalCommitDone}
    ensures exists k :: 0 <= k <= |hs| && AfterAll(c, hs[..k]).state.FinalCommitDone?
  {
    var n := |hs|;
    assert hs[..n] == hs;
    if !AfterAll(c, hs[..n]).state.FinalCommitDone? {
      DoneWentThroughFinalCommit(c, hs[..n - 1]);
      var k :| 0 <= k <= n - 1 && AfterAll(c, hs[..n - 1][..k]).state.FinalCommitDone?;
      assert hs[..n - 1][..k] == hs[..k];
    }
  }

  /** Without the gate the table alone lets a backup finish straight from its first commit, with no
      first-round signature at all: any signature valid over the announcement will do. */
  lemma UngatedSkipsRoundOne(c: Config, msg: Bytes, nonce: nat, cs: CoSig)
    requires c.com.scheme.group.order > 0 && c.com.Signs(msg, cs)
    ensures var b1 := Receive(c, Init(), Announcement(msg), Accept, nonce).backup;
            var b2 := Receive(c, b1, Collective(Second, cs), Accept, nonce).backup;
            && b1.state.CommitDone? && b2.state.Done? && b2.cs1.None?
            && GatedReceive(c, b1, Collective(Second, cs), Accept, nonce).backup == b1
  {
  }
}
