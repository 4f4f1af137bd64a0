/** Rotating the DS committee at the end of a DS epoch: the deque is edited winner by winner, and each
    node tracks its own place in it by arithmetic alone. */
module CommitteeRotation {
  import opened Wrappers
  import opened MultiSig
  import opened Sharding

  datatype Mode = Idle | Primary | Backup

  /** The node itself, and how many guards hold the first seats for good (none outside guard mode). */
  datatype Config = Config(self: Point, guardMode: bool, numGuards: nat) {
    function Guards(): nat { if guardMode then numGuards else 0 }

    /** The node's own entry carries no address. */
    function Entry(winner: Member): Member {
      if winner.key == self then Member(self, BLANK_PEER) else winner
    }

    /** A guard in guard mode leads; without guards every member may. */
    function Leaders(committeeSize: nat): nat { if guardMode then numGuards else committeeSize }
  }

  datatype Node = Node(committee: seq<Member>, myID: nat, leaderID: nat, mode: Mode)

  // ---------- the committee

  /** One winner in behind the guards, the last member out. */
  function Admit(c: Config, com: seq<Member>, winner: Member): (r: seq<Member>)
    requires c.Guards() <= |com|
    ensures |r| == |com|
  {
    (com[..c.Guards()] + [c.Entry(winner)] + com[c.Guards()..])[..|com|]
  }

  function AdmitAll(c: Config, com: seq<Member>, winners: seq<Member>): (r: seq<Member>)
    requires c.Guards() <= |com|
    ensures |r| == |com|
  {
    if winners == [] then com else Admit(c, AdmitAll(c, com, winners[..|winners| - 1]), winners[|winners| - 1])
  }

  /** Who sits where: guards stay, winners follow in reverse order of admission, and the others are
      pushed back by the number of winners. */
  function Seat(c: Config, com: seq<Member>, winners: seq<Member>, i: nat): Member
    requires c.Guards() <= |com| && i < |com|
  {
    if i < c.Guards() then com[i]
    else if i - c.Guards() < |winners| then c.Entry(winners[|winners| - 1 - (i - c.Guards())])
    else com[i - |winners|]
  }

  lemma AdmitShifts(c: Config, com: seq<Member>, winner: Member, i: nat)
    requires c.Guards() <= |com| && i < |com|
    ensures Admit(c, com, winner)[i] ==
              if i < c.Guards() then com[i] else if i == c.Guards() then c.Entry(winner) else com[i - 1]
  {
  }

  lemma {:induction false} SeatOf(c: Config, com: seq<Member>, winners: seq<Member>, i: nat)
    requires c.Guards() <= |com| && i < |com|
    ensures AdmitAll(c, com, winners)[i] == Seat(c, com, winners, i)
  {
    if winners != [] {
      var init, last := winners[..|winners| - 1], winners[|winners| - 1];
      AdmitShifts(c, AdmitAll(c, com, init), last, i);
      if i < c.Guards() {
        SeatOf(c, com, init, i);
      } else if i > c.Guards() {
        SeatOf(c, com, init, i - 1);
      }
    }
  }

  predicate HasMember(com: seq<Member>, k: Point) { exists i :: 0 <= i < |com| && com[i].key == k }

  /** Winners new to the committee, and no two alike. */
  ghost predicate Newcomers(com: seq<Member>, winners: seq<Member>) {
    && DistinctMembers(winners)
    && forall i :: 0 <= i < |winners| ==> !HasMember(com, winners[i].key)
  }

  lemma SeatsDistinct(c: Config, com: seq<Member>, winners: seq<Member>, i: nat, j: nat)
    requires c.Guards() <= |com| && DistinctMembers(com) && Newcomers(com, winners) && i < j < |com|
    ensures Seat(c, com, winners, i).key != Seat(c, com, winners, j).key
  {
    var g, w := c.Guards(), |winners|;
    if g <= i && i - g < w {
      assert !HasMember(com, winners[w - 1 - (i - g)].key);
    } else if g <= j && j - g < w {
      assert !HasMember(com, winners[w - 1 - (j - g)].key);
    }
  }

  lemma RotatedDistinct(c: Config, com: seq<Member>, winners: seq<Member>)
    requires c.Guards() <= |com| && DistinctMembers(com) && Newcomers(com, winners)
    ensures DistinctMembers(AdmitAll(c, com, winners))
  {
    forall i, j | 0 <= i < j < |com|
      ensures AdmitAll(c, com, winners)[i].key != AdmitAll(c, com, winners)[j].key
    {
      SeatOf(c, com, winners, i);
      SeatOf(c, com, winners, j);
      SeatsDistinct(c, com, winners, i, j);
    }
  }

  /** Where the holder of seat `i` sits afterwards, if it still does. */
  function NewSeat(c: Config, w: nat, i: nat): nat { if i < c.Guards() then i else i + w }

  lemma KeepsSeat(c: Config, com: seq<Member>, winners: seq<Member>, i: nat)
    requires c.Guards() <= |com| && NewSeat(c, |winners|, i) < |com|
    ensures AdmitAll(c, com, winners)[NewSeat(c, |winners|, i)] == com[i]
  {
    SeatOf(c, com, winners, NewSeat(c, |winners|, i));
  }

  lemma SeatIsNot(c: Config, com: seq<Member>, winners: seq<Member>, i: nat, j: nat)
    requires c.Guards() <= |com| && DistinctMembers(com) && Newcomers(com, winners) && i < |com| && j < |com|
    requires NewSeat(c, |winners|, i) >= |com|
    ensures Seat(c, com, winners, j).key != com[i].key
  {
    var g, w := c.Guards(), |winners|;
    if g <= j && j - g < w {
      assert !HasMember(com, winners[w - 1 - (j - g)].key);
    }
  }

  /** A member keeps its seat exactly when its pushed-back place still exists. */
  lemma SeatedExactly(c: Config, com: seq<Member>, winners: seq<Member>, i: nat)
    requires c.Guards() <= |com| && DistinctMembers(com) && Newcomers(com, winners) && i < |com|
    ensures HasMember(AdmitAll(c, com, winners), com[i].key) <==> NewSeat(c, |winners|, i) < |com|
  {
    var r := AdmitAll(c, com, winners);
    if NewSeat(c, |winners|, i) < |com| {
      KeepsSeat(c, com, winners, i);
      assert r[NewSeat(c, |winners|, i)].key == com[i].key;
    } else {
      forall j | 0 <= j < |com|
        ensures r[j].key != com[i].key
      {
        SeatOf(c, com, winners, j);
        SeatIsNot(c, com, winners, i, j);
      }
    }
  }

  lemma OldestOf(com: seq<Member>, w: nat, i: nat)
    requires DistinctMembers(com) && w <= |com| && i < |com|
    ensures com[i] in Oldest(com, w) <==> i + w >= |com|
  {
    if i + w >= |com| {
      assert Oldest(com, w)[|com| - 1 - i] == com[i];
    }
  }

  /** The members that lose their seat are exactly those injected into the next sharding. */
  lemma PoppedAreInjected(c: Config, com: seq<Member>, winners: seq<Member>, i: nat)
    requires c.Guards() + |winners| <= |com| && DistinctMembers(com) && Newcomers(com, winners) && i < |com|
    ensures !HasMember(AdmitAll(c, com, winners), com[i].key) <==> com[i] in Oldest(com, |winners|)
  {
    SeatedExactly(c, com, winners, i);
    OldestOf(com, |winners|, i);
  }

  // ---------- one's own place

  /** The bookkeeping done after `w` winners came in; it never looks at who they are. */
  function UpdateMine(c: Config, n: Node, w: nat, lastBlockHash: nat): Node
    requires n.committee != [] && (c.guardMode ==> 0 < c.numGuards <= |n.committee|)
  {
    if n.myID + w >= |n.committee| then n.(mode := Idle)
    else
      var leader := lastBlockHash % c.Leaders(|n.committee|);
      Node(n.committee, if n.myID >= c.Guards() then n.myID + w else n.myID, leader,
           if n.committee[leader].key == c.self then Primary else Backup)
  }

  function NewEpoch(c: Config, n: Node, winners: seq<Member>, lastBlockHash: nat): Node
    requires n.committee != [] && (c.guardMode ==> 0 < c.numGuards <= |n.committee|)
  {
    UpdateMine(c, n.(committee := AdmitAll(c, n.committee, winners)), |winners|, lastBlockHash)
  }

  /** The index arithmetic declares a node idle exactly when it has lost its seat - for all members of
      the committee - if and only if the winners do not outnumber the seats without a guard. */
  lemma IdleExactlyWhenPopped(c: Config, com: seq<Member>, winners: seq<Member>)
    requires DistinctMembers(com) && Newcomers(com, winners) && com != []
    requires c.guardMode ==> 0 < c.numGuards <= |com|
    ensures (forall i :: 0 <= i < |com| ==>
               (i + |winners| >= |com| <==> !HasMember(AdmitAll(c, com, winners), com[i].key)))
       <==> (c.guardMode ==> c.numGuards + |winners| <= |com|)
  {
    forall i | 0 <= i < |com| {
      SeatedExactly(c, com, winners, i);
    }
    if c.guardMode && c.numGuards + |winners| > |com| {
      SeatedExactly(c, com, winners, c.numGuards - 1);
    }
  }

  // ---------- whole sequences of epochs

  datatype Epoch = Epoch(winners: seq<Member>, lastBlockHash: nat)

  /** The node knows its seat unless it is idle, and it is idle exactly when it has none. */
  ghost predicate InPlace(c: Config, n: Node) {
    && n.committee != [] && DistinctMembers(n.committee)
    && (c.guardMode ==> 0 < c.numGuards <= |n.committee|)
    && (n.mode.Idle? <==> !HasMember(n.committee, c.self))
    && (!n.mode.Idle? ==> n.myID < |n.committee| && n.committee[n.myID].key == c.self)
  }

  /** The seat an elected node gives itself: the last winner admitted sits first behind the guards. */
  function JoinIndex(c: Config, winners: seq<Member>): Option<nat> {
    JoinFrom(c, winners, c.Guards())
  }

  /** ... when the last of these winners takes `seat`. */
  function JoinFrom(c: Config, winners: seq<Member>, seat: nat): Option<nat>
    decreases |winners|
  {
    if winners == [] then None
    else if winners[|winners| - 1].key == c.self then Some(seat)
    else JoinFrom(c, winners[..|winners| - 1], seat + 1)
  }

  /** A shard node follows the committee, and takes its seat when it is elected. */
  function JoinEpoch(c: Config, n: Node, e: Epoch): Node
    requires n.committee != [] && (c.guardMode ==> 0 < c.numGuards <= |n.committee|)
  {
    var leader := e.lastBlockHash % c.Leaders(|n.committee|);
    var n' := n.(committee := AdmitAll(c, n.committee, e.winners), leaderID := leader);
    var seat := JoinIndex(c, e.winners);
    if seat.None? then n'
    else n'.(myID := seat.value, mode := if leader == seat.value then Primary else Backup)
  }

  function Step(c: Config, n: Node, e: Epoch): Node
    requires n.committee != [] && (c.guardMode ==> 0 < c.numGuards <= |n.committee|)
  {
    if n.mode.Idle? then JoinEpoch(c, n, e) else NewEpoch(c, n, e.winners, e.lastBlockHash)
  }

  lemma {:induction false} JoinFromOf(c: Config, winners: seq<Member>, seat: nat)
    ensures JoinFrom(c, winners, seat).None? <==> !HasMember(winners, c.self)
    ensures var r := JoinFrom(c, winners, seat);
            r.Some? ==> seat <= r.value < seat + |winners| && winners[|winners| - 1 - (r.value - seat)].key == c.self
    decreases |winners|
  {
    if winners != [] {
      var k := |winners| - 1;
      if winners[k].key == c.self {
        assert HasMember(winners, c.self);
      } else {
        JoinFromOf(c, winners[..k], seat + 1);
        assert HasMember(winners, c.self) <==> HasMember(winners[..k], c.self);
      }
    }
  }

  /** An elected node finds itself in the seat it computed. */
  lemma JoinsInPlace(c: Config, com: seq<Member>, winners: seq<Member>)
    requires c.Guards() + |winners| <= |com| && HasMember(winners, c.self)
    ensures var seat := JoinIndex(c, winners);
            seat.Some? && seat.value < |com| && AdmitAll(c, com, winners)[seat.value] == Member(c.self, BLANK_PEER)
  {
    JoinFromOf(c, winners, c.Guards());
    var seat := JoinIndex(c, winners).value;
    SeatOf(c, com, winners, seat);
    SeatOfWinner(c, com, winners, |winners| - 1 - (seat - c.Guards()));
  }

  lemma SeatOfWinner(c: Config, com: seq<Member>, winners: seq<Member>, t: nat)
    requires c.Guards() + |winners| <= |com| && t < |winners|
    ensures Seat(c, com, winners, c.Guards() + (|winners| - 1 - t))
         == if winners[t].key == c.self then Member(c.self, BLANK_PEER) else winners[t]
  {
  }

  function After(c: Config, n: Node, es: seq<Epoch>): (n': Node)
    requires n.committee != [] && (c.guardMode ==> 0 < c.numGuards <= |n.committee|)
    ensures |n'.committee| == |n.committee|
  {
    if es == [] then n else Step(c, After(c, n, es[..|es| - 1]), es[|es| - 1])
  }

  /** Every epoch brings newcomers, and not more than the seats to fill. */
  ghost predicate Plausible(c: Config, n: Node, es: seq<Epoch>)
    requires n.committee != [] && (c.guardMode ==> 0 < c.numGuards <= |n.committee|)
  {
    forall j :: 0 <= j < |es| ==>
      && c.Guards() + |es[j].winners| <= |n.committee|
      && Newcomers(After(c, n, es[..j]).committee, es[j].winners)
  }

  lemma StepInPlace(c: Config, n: Node, e: Epoch)
    requires InPlace(c, n) && c.Guards() + |e.winners| <= |n.committee| && Newcomers(n.committee, e.winners)
    ensures InPlace(c, Step(c, n, e))
    ensures Step(c, n, e).committee == AdmitAll(c, n.committee, e.winners)
  {
    RotatedDistinct(c, n.committee, e.winners);
    if n.mode.Idle? {
      JoinFromOf(c, e.winners, c.Guards());
      if HasMember(e.winners, c.self) {
        JoinsInPlace(c, n.committee, e.winners);
      } else {
        StaysOut(c, n.committee, e.winners);
      }
    } else {
      SeatedExactly(c, n.committee, e.winners, n.myID);
      if NewSeat(c, |e.winners|, n.myID) < |n.committee| {
        KeepsSeat(c, n.committee, e.winners, n.myID);
      }
    }
  }

  lemma StaysOut(c: Config, com: seq<Member>, winners: seq<Member>)
    requires c.Guards() <= |com| && !HasMember(com, c.self) && !HasMember(winners, c.self)
    ensures !HasMember(AdmitAll(c, com, winners), c.self)
  {
    forall j | 0 <= j < |com|
      ensures AdmitAll(c, com, winners)[j].key != c.self
    {
      SeatOf(c, com, winners, j);
    }
  }

  /** Committee rotation over every sequence of DS epochs: size and guard seats never change, and at
      each end the node is idle exactly if it has no seat - never elected, or pushed out again - and
      otherwise its recorded index is its seat. */
  lemma {:induction false} RotationKeepsPlace(c: Config, n: Node, es: seq<Epoch>)
    requires InPlace(c, n) && Plausible(c, n, es)
    ensures var n' := After(c, n, es);
            InPlace(c, n') && forall i :: 0 <= i < c.Guards() ==> n'.committee[i] == n.committee[i]
  {
    if es != [] {
      var init, last := es[..|es| - 1], es[|es| - 1];
      assert forall j :: 0 <= j < |init| ==> init[j] == es[j] && init[..j] == es[..j];
      RotationKeepsPlace(c, n, init);
      assert es[|es| - 1] == last;
      StepInPlace(c, After(c, n, init), last);
      forall i | 0 <= i < c.Guards() {
        SeatOf(c, After(c, n, init).committee, last.winners, i);
      }
    }
  }

  /** A seated node that has just updated is the primary exactly when its own index is the leader's. */
  lemma PrimaryIsLeader(c: Config, n: Node, e: Epoch)
    requires InPlace(c, n) && !Step(c, n, e).mode.Idle?
    requires c.Guards() + |e.winners| <= |n.committee| && Newcomers(n.committee, e.winners)
    ensures Step(c, n, e).mode.Primary? <==> Step(c, n, e).leaderID == Step(c, n, e).myID
  {
    StepInPlace(c, n, e);
  }

  /** Whose turn it is: the last block hash picks the leader among the guards in guard mode, and otherwise
      among all members, alike at members and at shard nodes. */
  lemma HashPicksLeader(c: Config, n: Node, e: Epoch)
    requires InPlace(c, n) && c.Guards() + |e.winners| <= |n.committee| && Newcomers(n.committee, e.winners)
    requires !Step(c, n, e).mode.Idle?
    ensures Step(c, n, e).leaderID == e.lastBlockHash % if c.guardMode then c.numGuards else |n.committee|
    ensures Step(c, n, e).mode == if Step(c, n, e).committee[Step(c, n, e).leaderID].key == c.self then Primary else Backup
  {
    StepInPlace(c, n, e);
    PrimaryIsLeader(c, n, e);
  }

  /** Two nodes see the same members in the same seats; each blanks only its own address. */
  ghost predicate SameMembers(a: seq<Member>, b: seq<Member>) {
    |a| == |b| && forall i :: 0 <= i < |a| ==> a[i].key == b[i].key
  }

  lemma RotationAgrees(c: Config, d: Config, a: seq<Member>, b: seq<Member>, winners: seq<Member>)
    requires c.guardMode == d.guardMode && c.numGuards == d.numGuards && c.Guards() <= |a| && SameMembers(a, b)
    ensures SameMembers(AdmitAll(c, a, winners), AdmitAll(d, b, winners))
  {
    forall i | 0 <= i < |a|
      ensures AdmitAll(c, a, winners)[i].key == AdmitAll(d, b, winners)[i].key
    {
      SeatOf(c, a, winners, i);
      SeatOf(d, b, winners, i);
      SeatAgrees(c, d, a, b, winners, i);
    }
  }

  lemma SeatAgrees(c: Config, d: Config, a: seq<Member>, b: seq<Member>, winners: seq<Member>, i: nat)
    requires c.guardMode == d.guardMode && c.numGuards == d.numGuards && c.Guards() <= |a| && SameMembers(a, b) && i < |a|
    ensures Seat(c, a, winners, i).key == Seat(d, b, winners, i).key
  {
  }

  /** All members agree on the next leader, who is a guard in guard mode, and at most one of them is primary. */
  lemma OnePrimary(c: Config, d: Config, n: Node, m: Node, e: Epoch)
    requires c.guardMode == d.guardMode && c.numGuards == d.numGuards
    requires InPlace(c, n) && InPlace(d, m) && SameMembers(n.committee, m.committee)
    requires c.Guards() + |e.winners| <= |n.committee| && Newcomers(n.committee, e.winners) && Newcomers(m.committee, e.winners)
    requires !Step(c, n, e).mode.Idle? && !Step(d, m, e).mode.Idle?
    ensures Step(c, n, e).leaderID == Step(d, m, e).leaderID < c.Leaders(|n.committee|)
    ensures Step(c, n, e).mode.Primary? && Step(d, m, e).mode.Primary? ==> c.self == d.self
  {
    RotationAgrees(c, d, n.committee, m.committee, e.winners);
    StepInPlace(c, n, e);
    StepInPlace(d, m, e);
    PrimaryIsLeader(c, n, e);
    PrimaryIsLeader(d, m, e);
  }

  class DSNode {
    const c: Config
    var committee: seq<Member>
    var allPoWConns: map<Point, nat>
    var consensusMyID: nat
    var consensusLeaderID: nat
    var mode: Mode

    function View(): Node
      reads this
    {
      Node(committee, consensusMyID, consensusLeaderID, mode)
    }

    constructor (c: Config, committee: seq<Member>, myID: nat, leaderID: nat, mode: Mode)
      ensures this.c == c && View() == Node(committee, myID, leaderID, mode) && allPoWConns == map[]
    {
      this.c, this.committee, this.mode := c, committee, mode;
      consensusMyID, consensusLeaderID, allPoWConns := myID, leaderID, map[];
    }

    method UpdateDSCommitteeComposition(winners: seq<Member>)
      requires c.Guards() <= |committee|
      modifies this`committee, this`allPoWConns
      ensures committee == AdmitAll(c, old(committee), winners)
      ensures allPoWConns == old(allPoWConns) - set m | m in winners :: m.key
    {
      var i := 0;
      while i < |winners|
        invariant 0 <= i <= |winners| && committee == old(committee)
        invariant allPoWConns == old(allPoWConns) - set m | m in winners[..i] :: m.key
      {
        assert winners[..i + 1] == winners[..i] + [winners[i]];
        allPoWConns := allPoWConns - {winners[i].key};
        i := i + 1;
      }
      assert winners[..i] == winners;
      RotateCommittee(winners);
    }

    /** The deque edits, done alike by committee members and shard nodes. */
    method RotateCommittee(winners: seq<Member>)
      requires c.Guards() <= |committee|
      modifies this`committee
      ensures committee == AdmitAll(c, old(committee), winners)
    {
      ghost var com := committee;
      var i := 0;
      while i < |winners|
        invariant 0 <= i <= |winners| && committee == AdmitAll(c, com, winners[..i])
      {
        assert winners[..i + 1][..i] == winners[..i];
        var entry := if winners[i].key == c.self then Member(c.self, BLANK_PEER) else winners[i];
        var longer := committee[..c.Guards()] + [entry] + committee[c.Guards()..];
        committee := longer[..|longer| - 1];
        i := i + 1;
      }
      assert winners[..i] == winners;
    }

    method UpdateMyDSModeAndConsensusId(numOfIncomingDs: nat, lastBlockHash: nat)
      requires committee != [] && (c.guardMode ==> 0 < c.numGuards <= |committee|)
      modifies this`consensusMyID, this`consensusLeaderID, this`mode
      ensures View() == UpdateMine(c, old(View()), numOfIncomingDs, lastBlockHash)
    {
      if consensusMyID + numOfIncomingDs >= |committee| {
        mode := Idle;
        return;
      }
      if !c.guardMode {
        consensusMyID := consensusMyID + numOfIncomingDs;
        consensusLeaderID := lastBlockHash % |committee|;
      } else {
        if consensusMyID >= c.numGuards {
          consensusMyID := consensusMyID + numOfIncomingDs;
        }
        consensusLeaderID := lastBlockHash % c.numGuards;
      }
      mode := if committee[consensusLeaderID].key == c.self then Primary else Backup;
    }

    /** The end of a DS epoch. The node keeps knowing its seat. */
    method FinishDSEpoch(e: Epoch)
      requires InPlace(c, View()) && !mode.Idle?
      requires c.Guards() + |e.winners| <= |committee| && Newcomers(committee, e.winners)
      modifies this
      ensures View() == Step(c, old(View()), e) && InPlace(c, View())
    {
      StepInPlace(c, View(), e);
      UpdateDSCommitteeComposition(e.winners);
      UpdateMyDSModeAndConsensusId(|e.winners|, e.lastBlockHash);
    }

    /** The same moment at a shard node, which may have been elected. */
    method ProcessDSBlockAsShardNode(e: Epoch)
      requires InPlace(c, View()) && mode.Idle?
      requires c.Guards() + |e.winners| <= |committee| && Newcomers(committee, e.winners)
      modifies this
      ensures View() == Step(c, old(View()), e) && InPlace(c, View())
    {
      StepInPlace(c, View(), e);
      RotateCommittee(e.winners);
      consensusLeaderID := e.lastBlockHash % (if c.guardMode then c.numGuards else |committee|);
      var seat := SeatWhenElected(e.winners);
      if seat.Some? {
        consensusMyID := seat.value;
        mode := if consensusLeaderID == consensusMyID then Primary else Backup;
      }
    }

    /** Counts the seats down as it walks the winners. */
    method SeatWhenElected(winners: seq<Member>) returns (seat: Option<nat>)
      ensures seat == JoinIndex(c, winners)
    {
      seat := None;
      var i := 0;
      while i < |winners|
        invariant 0 <= i <= |winners| && seat == JoinFrom(c, winners[..i], c.Guards() + (|winners| - i))
      {
        assert winners[..i + 1][..i] == winners[..i];
        if winners[i].key == c.self {
          seat := Some(c.Guards() + (|winners| - 1 - i));
        }
        i := i + 1;
      }
      assert winners[..i] == winners;
    }
  }
}
