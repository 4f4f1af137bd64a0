/** Replacing a faulty DS leader: who is recorded, who is next, and the committee's new order. */
module ViewChange {
  import opened Wrappers
  import opened MultiSig
  import opened Sharding

  datatype Config = Config(self: Point, selfPeer: nat, guardMode: bool, numGuards: nat) {
    /** Committee entries as other nodes know them: one's own gets its address. */
    function Public(m: Member): Member {
      if m.key == self && m.peer == BLANK_PEER then Member(self, selfPeer) else m
    }
    /** ... and back: the own address becomes the blank one of the own committee. */
    function Local(m: Member): Member {
      if m.peer == selfPeer then Member(m.key, BLANK_PEER) else m
    }
    /** How many of the first members may lead. */
    function Leaders(committeeSize: nat): nat { if guardMode then numGuards else committeeSize }

    /** The own entry, and no other, is blank; no other member has the own address. */
    ghost predicate WellFormed(com: seq<Member>) {
      && DistinctMembers(com) && Member(self, BLANK_PEER) in com && selfPeer != BLANK_PEER
      && (forall i :: 0 <= i < |com| ==> (com[i].peer == BLANK_PEER <==> com[i].key == self))
      && (forall i :: 0 <= i < |com| ==> com[i].peer != selfPeer)
      && (guardMode ==> numGuards <= |com|)
    }
  }

  datatype Node = Node(
    committee: seq<Member>, myID: nat, leaderID: nat,
    counter: nat, candidate: nat, faulty: seq<Member>)

  /** The part of a view change block that the committee acts on. */
  datatype VCBlock = VCBlock(candidate: Member, faulty: seq<Member>)

  // ---------- the next candidate

  /** The first hash in the chain that does not pick the current leader. */
  function Candidate(hashes: seq<nat>, modulus: nat, leaderID: nat): (r: Option<nat>)
    requires modulus > 0
    ensures r.Some? ==> r.value < modulus && r.value != leaderID
    ensures r.None? <==> forall i :: 0 <= i < |hashes| ==> hashes[i] % modulus == leaderID
  {
    if hashes == [] then None
    else if hashes[0] % modulus != leaderID then Some(hashes[0] % modulus)
    else Candidate(hashes[1..], modulus, leaderID)
  }

  /** The candidate is picked by the first hash that does not pick the leader again. */
  lemma {:induction false} CandidateIsFirst(hashes: seq<nat>, modulus: nat, leaderID: nat, i: nat)
    requires modulus > 0 && i < |hashes| && hashes[i] % modulus != leaderID
    requires forall j :: 0 <= j < i ==> hashes[j] % modulus == leaderID
    ensures Candidate(hashes, modulus, leaderID) == Some(hashes[i] % modulus)
  {
    if i > 0 {
      assert hashes[0] % modulus == leaderID;
      forall j | 0 <= j < i - 1
        ensures hashes[1..][j] % modulus == leaderID
      {
        assert hashes[1..][j] == hashes[j + 1];
      }
      CandidateIsFirst(hashes[1..], modulus, leaderID, i - 1);
    }
  }

  /** Re-hashes until the index differs from the leader's; `hashes` is the chain of hash values. */
  method CalculateNewLeaderIndex(c: Config, committeeSize: nat, leaderID: nat, hashes: seq<nat>) returns (r: Option<nat>)
    requires c.Leaders(committeeSize) > 0
    ensures r == Candidate(hashes, c.Leaders(committeeSize), leaderID)
    ensures r.Some? ==> r.value != leaderID && r.value < if c.guardMode then c.numGuards else committeeSize
  {
    var i := 0;
    while i < |hashes|
      invariant 0 <= i <= |hashes|
      invariant Candidate(hashes, c.Leaders(committeeSize), leaderID) == Candidate(hashes[i..], c.Leaders(committeeSize), leaderID)
    {
      var index := if !c.guardMode then hashes[i] % committeeSize else hashes[i] % c.numGuards;
      if index != leaderID {
        return Some(index);
      }
      assert hashes[i..][1..] == hashes[i + 1..];
      i := i + 1;
    }
    return None;
  }

  // ---------- reordering

  function RemoveFirst(com: seq<Member>, m: Member): seq<Member> {
    if com == [] then [] else if com[0] == m then com[1..] else [com[0]] + RemoveFirst(com[1..], m)
  }

  function MoveBack(com: seq<Member>, m: Member): seq<Member> { RemoveFirst(com, m) + [m] }

  function MoveAllBack(com: seq<Member>, ms: seq<Member>): seq<Member> {
    if ms == [] then com else MoveBack(MoveAllBack(com, ms[..|ms| - 1]), ms[|ms| - 1])
  }

  /** The members outside a set, in order. */
  function Without(com: seq<Member>, ms: seq<Member>): seq<Member> {
    if com == [] then [] else (if com[0] in ms then [] else [com[0]]) + Without(com[1..], ms)
  }

  /** Each member of a list once, in the order of last occurrences. */
  function LastOrder(ms: seq<Member>): seq<Member> {
    if ms == [] then [] else MoveBack(LastOrder(ms[..|ms| - 1]), ms[|ms| - 1])
  }

  lemma {:induction false} RemoveFirstMultiset(com: seq<Member>, m: Member)
    requires m in com
    ensures multiset(RemoveFirst(com, m)) == multiset(com) - multiset{m}
  {
    assert com == [com[0]] + com[1..];
    if com[0] != m {
      RemoveFirstMultiset(com[1..], m);
    }
  }

  lemma {:induction false} RemoveFirstAbsent(com: seq<Member>, m: Member)
    requires m !in com
    ensures RemoveFirst(com, m) == com
  {
    if com != [] {
      RemoveFirstAbsent(com[1..], m);
    }
  }

  lemma {:induction false} RemoveFirstLeft(a: seq<Member>, b: seq<Member>, m: Member)
    requires m in a
    ensures RemoveFirst(a + b, m) == RemoveFirst(a, m) + b
  {
    var x, rest := a[0], a[1..];
    assert a + b == [x] + (rest + b);
    RemoveFirstCons(x, rest + b, m);
    if x != m {
      RemoveFirstLeft(rest, b, m);
      assert [x] + (RemoveFirst(rest, m) + b) == ([x] + RemoveFirst(rest, m)) + b;
    }
  }

  lemma {:induction false} RemoveFirstRight(a: seq<Member>, b: seq<Member>, m: Member)
    requires m !in a
    ensures RemoveFirst(a + b, m) == a + RemoveFirst(b, m)
  {
    if a == [] {
      assert a + b == b && a + RemoveFirst(b, m) == RemoveFirst(b, m);
    } else {
      var x, rest := a[0], a[1..];
      assert a + b == [x] + (rest + b);
      RemoveFirstCons(x, rest + b, m);
      RemoveFirstRight(rest, b, m);
      assert [x] + (rest + RemoveFirst(b, m)) == a + RemoveFirst(b, m);
    }
  }

  lemma {:induction false} WithoutMember(com: seq<Member>, ms: seq<Member>, m: Member)
    ensures m in Without(com, ms) <==> m in com && m !in ms
  {
    if com != [] {
      assert com == [com[0]] + com[1..];
      WithoutMember(com[1..], ms, m);
    }
  }

  /** Leaving one more member out is removing it once, since no one is listed twice. */
  lemma {:induction false} WithoutOneMore(com: seq<Member>, ms: seq<Member>, m: Member)
    requires DistinctMembers(com)
    ensures Without(com, ms + [m]) == RemoveFirst(Without(com, ms), m)
  {
    if com != [] {
      WithoutOneMore(com[1..], ms, m);
      var rest := Without(com[1..], ms);
      RemoveFirstCons(com[0], rest, m);
      assert Without(com, ms) == if com[0] in ms then rest else [com[0]] + rest;
      assert Without(com, ms + [m]) ==
        if com[0] in ms || com[0] == m then Without(com[1..], ms + [m]) else [com[0]] + Without(com[1..], ms + [m]);
      if com[0] == m {
        assert m !in com[1..];
        WithoutMember(com[1..], ms, m);
        RemoveFirstAbsent(rest, m);
      }
    }
  }

  lemma RemoveFirstCons(x: Member, com: seq<Member>, m: Member)
    ensures RemoveFirst([x] + com, m) == if x == m then com else [x] + RemoveFirst(com, m)
  {
    assert ([x] + com)[1..] == com;
  }

  lemma {:induction false} WithoutNone(com: seq<Member>)
    ensures Without(com, []) == com
  {
    if com != [] {
      WithoutNone(com[1..]);
    }
  }

  lemma {:induction false} LastOrderMember(ms: seq<Member>, m: Member)
    ensures m in LastOrder(ms) <==> m in ms
  {
    if ms != [] {
      var init, last := ms[..|ms| - 1], ms[|ms| - 1];
      assert ms == init + [last];
      LastOrderMember(init, m);
      if m != last {
        RemoveFirstOther(LastOrder(init), last, m);
      }
    }
  }

  lemma {:induction false} RemoveFirstOther(com: seq<Member>, m: Member, o: Member)
    requires o != m
    ensures o in RemoveFirst(com, m) <==> o in com
  {
    if com != [] {
      assert com == [com[0]] + com[1..];
      RemoveFirstOther(com[1..], m, o);
    }
  }

  /** Moving one member behind two parts of which at most one holds it. */
  lemma MoveBackSplit(front: seq<Member>, back: seq<Member>, m: Member)
    requires m !in front || m !in back
    ensures MoveBack(front + back, m) == RemoveFirst(front, m) + MoveBack(back, m)
  {
    if m in front {
      RemoveFirstLeft(front, back, m);
      RemoveFirstAbsent(back, m);
    } else {
      RemoveFirstRight(front, back, m);
      RemoveFirstAbsent(front, m);
    }
    assert (RemoveFirst(front, m) + RemoveFirst(back, m)) + [m] == RemoveFirst(front, m) + (RemoveFirst(back, m) + [m]);
  }

  /** The reordered committee: those never recorded keep their order in front, and the recorded ones
      follow in the order of their last failure, however often each was recorded. */
  lemma {:induction false} Reordered(com: seq<Member>, ms: seq<Member>)
    requires DistinctMembers(com)
    ensures MoveAllBack(com, ms) == Without(com, ms) + LastOrder(ms)
  {
    if ms == [] {
      WithoutNone(com);
      assert Without(com, ms) + LastOrder(ms) == com;
    } else {
      var init, last := ms[..|ms| - 1], ms[|ms| - 1];
      assert ms == init + [last];
      Reordered(com, init);
      WithoutOneMore(com, init, last);
      WithoutMember(com, init, last);
      LastOrderMember(init, last);
      MoveBackSplit(Without(com, init), LastOrder(init), last);
    }
  }

  lemma {:induction false} ReorderingPermutes(com: seq<Member>, ms: seq<Member>)
    requires forall i :: 0 <= i < |ms| ==> ms[i] in com
    ensures multiset(MoveAllBack(com, ms)) == multiset(com)
  {
    if ms != [] {
      var before, last := MoveAllBack(com, ms[..|ms| - 1]), ms[|ms| - 1];
      ReorderingPermutes(com, ms[..|ms| - 1]);
      assert last in multiset(com);
      assert last in multiset(before);
      RemoveFirstMultiset(before, last);
    }
  }

  function IndexOf(com: seq<Member>, m: Member): (i: nat)
    ensures i <= |com| && (i == |com| <==> m !in com) && (i < |com| ==> com[i] == m)
  {
    if com == [] then 0 else if com[0] == m then 0 else 1 + IndexOf(com[1..], m)
  }

  method FindMember(com: seq<Member>, m: Member) returns (i: nat)
    ensures i == IndexOf(com, m)
  {
    i := 0;
    while i < |com| && com[i] != m
      invariant 0 <= i <= |com| && IndexOf(com, m) == i + IndexOf(com[i..], m)
    {
      assert com[i..][1..] == com[i + 1..];
      i := i + 1;
    }
  }

  // ---------- steps

  /** Who is recorded as faulty when an attempt starts: the leader on the first attempt of a block
      consensus, and otherwise whoever the candidate index names. */
  function FaultyIndex(n: Node): nat { if n.counter == 0 then n.leaderID else n.candidate }

  function Attempt(c: Config, n: Node, candidate: nat): Node
    requires FaultyIndex(n) < |n.committee|
  {
    n.(counter := n.counter + 1, candidate := candidate, faulty := n.faulty + [c.Public(n.committee[FaultyIndex(n)])])
  }

  function LocalAll(c: Config, ms: seq<Member>): (r: seq<Member>)
    ensures |r| == |ms| && forall i :: 0 <= i < |ms| ==> r[i] == c.Local(ms[i])
  {
    seq(|ms|, i requires 0 <= i < |ms| => c.Local(ms[i]))
  }

  /** The committee after a block, by which every index is recomputed. */
  function NewCommittee(c: Config, com: seq<Member>, vc: VCBlock): seq<Member> {
    if c.guardMode then com else MoveAllBack(com, LocalAll(c, vc.faulty))
  }

  /** The indices stay as they are when a search fails. */
  function Finish(c: Config, n: Node, vc: VCBlock): Node {
    var com := NewCommittee(c, n.committee, vc);
    var n0 := n.(committee := com, candidate := 0, faulty := []);
    var me := IndexOf(com, Member(c.self, BLANK_PEER));
    if me == |com| then n0
    else if vc.candidate == Member(c.self, c.selfPeer) then n0.(myID := me, leaderID := me)
    else
      var leader := IndexOf(com, vc.candidate);
      if leader == |com| then n0.(myID := me) else n0.(myID := me, leaderID := leader)
  }

  /** The block a candidate composes from its own record. */
  function Compose(c: Config, n: Node): VCBlock
    requires n.candidate < |n.committee|
  {
    VCBlock(c.Public(n.committee[n.candidate]), n.faulty)
  }

  // ---------- runs

  ghost predicate Recorded(c: Config, com: seq<Member>, ms: seq<Member>) {
    forall i :: 0 <= i < |ms| ==> exists j :: 0 <= j < |com| && ms[i] == c.Public(com[j])
  }

  /** Indices are right, everyone recorded is a member, and a pending candidate is not the leader. */
  ghost predicate Inv(c: Config, n: Node) {
    && c.WellFormed(n.committee)
    && n.myID < |n.committee| && n.committee[n.myID] == Member(c.self, BLANK_PEER)
    && n.leaderID < |n.committee| && n.candidate < |n.committee|
    && Recorded(c, n.committee, n.faulty)
    && (n.faulty != [] ==> n.counter > 0 && n.candidate != n.leaderID)
  }

  lemma LocalOfPublic(c: Config, com: seq<Member>, j: nat)
    requires c.WellFormed(com) && j < |com|
    ensures c.Local(c.Public(com[j])) == com[j]
  {
  }

  lemma AttemptInv(c: Config, n: Node, candidate: nat)
    requires Inv(c, n) && candidate < |n.committee| && candidate != n.leaderID
    ensures Inv(c, Attempt(c, n, candidate))
  {
    var n' := Attempt(c, n, candidate);
    forall i | 0 <= i < |n'.faulty|
      ensures exists j :: 0 <= j < |n.committee| && n'.faulty[i] == c.Public(n.committee[j])
    {
      if i == |n.faulty| {
        assert n'.faulty[i] == c.Public(n.committee[FaultyIndex(n)]);
      }
    }
  }

  lemma LocalsAreMembers(c: Config, com: seq<Member>, ms: seq<Member>)
    requires c.WellFormed(com) && Recorded(c, com, ms)
    ensures forall i :: 0 <= i < |ms| ==> LocalAll(c, ms)[i] in com
  {
    forall i | 0 <= i < |ms|
      ensures LocalAll(c, ms)[i] in com
    {
      var j :| 0 <= j < |com| && ms[i] == c.Public(com[j]);
      LocalOfPublic(c, com, j);
    }
  }

  /** A permutation of a well-formed committee is one. */
  lemma PermutedWellFormed(c: Config, com: seq<Member>, r: seq<Member>)
    requires c.WellFormed(com) && multiset(r) == multiset(com)
    ensures c.WellFormed(r)
  {
    assert |r| == |multiset(r)| == |multiset(com)| == |com|;
    assert Member(c.self, BLANK_PEER) in multiset(com);
    assert Member(c.self, BLANK_PEER) in multiset(r);
    forall i | 0 <= i < |r|
      ensures r[i] in com
    {
      assert r[i] in multiset(r);
      assert r[i] in multiset(com);
    }
    forall i, j | 0 <= i < j < |r|
      ensures r[i].key != r[j].key
    {
      if r[i] == r[j] {
        TwiceInMultiset(r, i, j);
        OnceInMultiset(com, r[i]);
      }
      var a :| 0 <= a < |com| && com[a] == r[i];
      var b :| 0 <= b < |com| && com[b] == r[j];
      assert a != b;
    }
  }

  lemma TwiceInMultiset(r: seq<Member>, i: nat, j: nat)
    requires i < j < |r| && r[i] == r[j]
    ensures multiset(r)[r[i]] >= 2
  {
    assert r == r[..i] + [r[i]] + r[i + 1..j] + [r[j]] + r[j + 1..];
  }

  lemma {:induction false} OnceInMultiset(com: seq<Member>, m: Member)
    requires DistinctMembers(com)
    ensures multiset(com)[m] <= 1
  {
    if com != [] {
      assert com == [com[0]] + com[1..];
      OnceInMultiset(com[1..], m);
      if com[0] == m {
        assert m !in com[1..];
        assert multiset(com[1..])[m] == 0;
      }
    }
  }

  /** A finished view change permutes the committee and leaves the others in order; afterwards the
      indices point at this node and at the candidate, who is not the member that led before. */
  lemma FinishInv(c: Config, n: Node)
    requires Inv(c, n) && n.faulty != []
    ensures var n' := Finish(c, n, Compose(c, n));
            && Inv(c, n')
            && multiset(n'.committee) == multiset(n.committee)
            && (!c.guardMode ==>
                  n'.committee == Without(n.committee, LocalAll(c, n.faulty)) + LastOrder(LocalAll(c, n.faulty)))
            && (c.guardMode ==> n'.committee == n.committee)
            && n'.committee[n'.leaderID] == n.committee[n.candidate]
            && n'.committee[n'.leaderID].key != n.committee[n.leaderID].key
  {
    var vc := Compose(c, n);
    var com := NewCommittee(c, n.committee, vc);
    if !c.guardMode {
      LocalsAreMembers(c, n.committee, n.faulty);
      Reordered(n.committee, LocalAll(c, n.faulty));
      ReorderingPermutes(n.committee, LocalAll(c, n.faulty));
    }
    PermutedWellFormed(c, n.committee, com);
    var cand := n.committee[n.candidate];
    assert cand in multiset(n.committee);
    assert cand in multiset(com);
    assert cand in com;
  }

  /** Exactly when the replaced leader is among those moved back: when the view change is the first of
      its block consensus, or the leader happens to hold seat 0. Otherwise the counter has survived an
      earlier view change whose clean-up set the candidate index to 0, and seat 0 is recorded instead. */
  lemma ReplacedLeaderRecorded(c: Config, start: Node, candidates: seq<nat>)
    requires Inv(c, start) && start.faulty == [] && start.candidate == 0 && candidates != []
    requires forall i :: 0 <= i < |candidates| ==> candidates[i] < |start.committee| && candidates[i] != start.leaderID
    ensures var n := AttemptAll(c, start, candidates);
            start.committee[start.leaderID] in LocalAll(c, n.faulty) <==> start.counter == 0 || start.leaderID == 0
  {
    AttemptsRecord(c, start, candidates);
    var n := AttemptAll(c, start, candidates);
    var ms := LocalAll(c, n.faulty);
    assert ms[0] == start.committee[FaultyIndex(start)];
    forall i | 0 < i < |ms|
      ensures ms[i] != start.committee[start.leaderID]
    {
      assert ms[i] == start.committee[candidates[i - 1]];
    }
  }

  /** Once the interrupted block is done, whoever leads next and fails is the one recorded. */
  lemma LeaderBlamedAfterBlock(c: Config, n: Node, candidate: nat)
    requires Inv(c, n) && Possible(n, BlockDone)
    ensures var n1 := Next(c, n, BlockDone);
            && n1.leaderID == n.leaderID && n1.committee == n.committee
            && FaultyIndex(n1) < |n1.committee| && Attempt(c, n1, candidate).faulty == [c.Public(n.committee[n.leaderID])]
  {
  }

  /** For example: the leader in seat 0 fails and seat 2 takes over; when that new leader fails too,
      it is not the new leader but the blameless former seat 1 that is recorded. */
  lemma SecondViewChangeBlamesSeatZero(c: Config, n: Node, next: nat)
    requires Inv(c, n) && !c.guardMode && n.counter == 0 && n.faulty == [] && n.leaderID == 0
    requires |n.committee| >= 3 && next < |n.committee| && next != 1
    ensures var n2 := Finish(c, Attempt(c, n, 2), Compose(c, Attempt(c, n, 2)));
            && n2.leaderID == 1 && n2.committee[1] == n.committee[2] && 0 < |n2.committee|
            && Attempt(c, n2, next).faulty == [c.Public(n.committee[1])]
  {
    var n1, com := Attempt(c, n, 2), n.committee;
    AttemptInv(c, n, 2);
    LocalOfPublic(c, com, 0);
    var n2 := Finish(c, n1, Compose(c, n1));
    FinishCommittee(c, n1, Compose(c, n1));
    FinishClears(c, n1, Compose(c, n1));
    FinishLeader(c, n1);
    assert LocalAll(c, n1.faulty) == [com[0]];
    FirstMovesBack(com);
    SecondMovesUp(com);
  }

  lemma SecondMovesUp(com: seq<Member>)
    requires |com| >= 3 && DistinctMembers(com)
    ensures IndexOf(com[1..] + [com[0]], com[2]) == 1
  {
    var r := com[1..] + [com[0]];
    assert DistinctMembers(r) && r[1] == com[2];
    IndexIs(r, 1);
  }

  lemma FirstMovesBack(com: seq<Member>)
    requires com != []
    ensures MoveAllBack(com, [com[0]]) == com[1..] + [com[0]]
  {
    assert [com[0]][..0] == [];
  }

  function AttemptAll(c: Config, n: Node, candidates: seq<nat>): (n': Node)
    requires Inv(c, n)
    requires forall i :: 0 <= i < |candidates| ==> candidates[i] < |n.committee| && candidates[i] != n.leaderID
    ensures Inv(c, n') && n'.committee == n.committee && n'.leaderID == n.leaderID
  {
    if candidates == [] then n
    else
      var init := AttemptAll(c, n, candidates[..|candidates| - 1]);
      AttemptInv(c, init, candidates[|candidates| - 1]);
      Attempt(c, init, candidates[|candidates| - 1])
  }

  lemma {:induction false} AttemptsRecord(c: Config, start: Node, candidates: seq<nat>)
    requires Inv(c, start) && start.faulty == []
    requires forall i :: 0 <= i < |candidates| ==> candidates[i] < |start.committee| && candidates[i] != start.leaderID
    ensures var n := AttemptAll(c, start, candidates);
            && |n.faulty| == |candidates| && n.counter == start.counter + |candidates|
            && (candidates != [] ==> n.candidate == candidates[|candidates| - 1])
            && (candidates == [] ==> n == start)
            && forall i :: 0 <= i < |candidates| ==>
                 LocalAll(c, n.faulty)[i] == start.committee[if i == 0 then FaultyIndex(start) else candidates[i - 1]]
  {
    if candidates != [] {
      var k := |candidates| - 1;
      var before := AttemptAll(c, start, candidates[..k]);
      AttemptsRecord(c, start, candidates[..k]);
      LocalOfPublic(c, start.committee, FaultyIndex(before));
      var n := AttemptAll(c, start, candidates);
      forall i | 0 <= i <= k
        ensures LocalAll(c, n.faulty)[i] == start.committee[if i == 0 then FaultyIndex(start) else candidates[i - 1]]
      {
        if i < k {
          assert n.faulty[i] == before.faulty[i];
          assert LocalAll(c, before.faulty)[i] == LocalAll(c, n.faulty)[i];
        }
      }
    }
  }

  datatype Event =
    | TimesOut(candidate: nat)    // the leader, or the last candidate, did not deliver: a new attempt
    | Agreed                      // a view change block is agreed on
    | BlockDone                   // the interrupted block consensus completes

  ghost predicate Possible(n: Node, ev: Event) {
    match ev
    case TimesOut(candidate) => FaultyIndex(n) < |n.committee| && candidate < |n.committee| && candidate != n.leaderID
    case Agreed => n.faulty != [] && n.candidate < |n.committee|
    case BlockDone => n.faulty == []
  }

  function Next(c: Config, n: Node, ev: Event): Node
    requires Possible(n, ev)
  {
    match ev
    case TimesOut(candidate) => Attempt(c, n, candidate)
    case Agreed => Finish(c, n, Compose(c, n))
    case BlockDone => n.(counter := 0)
  }

  ghost predicate Run(c: Config, ns: seq<Node>, evs: seq<Event>) {
    && |ns| == |evs| + 1 && Inv(c, ns[0])
    && forall j :: 0 <= j < |evs| ==> Possible(ns[j], evs[j]) && ns[j + 1] == Next(c, ns[j], evs[j])
  }

  /** Over every sequence of attempts, view changes and completed blocks the committee stays a
      permutation of what it was and the indices stay right. */
  lemma {:induction false} RunKeeps(c: Config, ns: seq<Node>, evs: seq<Event>, j: nat)
    requires Run(c, ns, evs) && j < |ns|
    ensures Inv(c, ns[j]) && multiset(ns[j].committee) == multiset(ns[0].committee)
  {
    if j > 0 {
      RunKeeps(c, ns, evs, j - 1);
      match evs[j - 1]
      case TimesOut(candidate) => AttemptInv(c, ns[j - 1], candidate);
      case Agreed => FinishInv(c, ns[j - 1]);
      case BlockDone =>
    }
  }

  // ---------- all nodes end up with the same view

  function PublicAll(c: Config, com: seq<Member>): (r: seq<Member>)
    ensures |r| == |com| && forall i :: 0 <= i < |com| ==> r[i] == c.Public(com[i])
  {
    seq(|com|, i requires 0 <= i < |com| => c.Public(com[i]))
  }

  /** Entries that survive the way to the public form and back. */
  ghost predicate Faithful(c: Config, com: seq<Member>) {
    forall i :: 0 <= i < |com| ==> c.Local(c.Public(com[i])) == com[i]
  }

  lemma {:induction false} RemoveFirstPublic(c: Config, com: seq<Member>, m: Member)
    requires Faithful(c, com) && c.Local(c.Public(m)) == m
    ensures PublicAll(c, RemoveFirst(com, m)) == RemoveFirst(PublicAll(c, com), c.Public(m))
    ensures Faithful(c, RemoveFirst(com, m))
  {
    if com != [] {
      assert PublicAll(c, com)[1..] == PublicAll(c, com[1..]);
      if com[0] != m {
        RemoveFirstPublic(c, com[1..], m);
        assert PublicAll(c, [com[0]] + RemoveFirst(com[1..], m)) == [c.Public(com[0])] + PublicAll(c, RemoveFirst(com[1..], m));
      }
    }
  }

  /** Reordering one's own committee is reordering the public one. */
  lemma {:induction false} ReorderingIsPublic(c: Config, com: seq<Member>, faulty: seq<Member>)
    requires Faithful(c, com) && forall i :: 0 <= i < |faulty| ==> c.Public(c.Local(faulty[i])) == faulty[i]
    ensures PublicAll(c, MoveAllBack(com, LocalAll(c, faulty))) == MoveAllBack(PublicAll(c, com), faulty)
    ensures Faithful(c, MoveAllBack(com, LocalAll(c, faulty)))
    decreases |faulty|
  {
    if faulty != [] {
      var init, last := faulty[..|faulty| - 1], faulty[|faulty| - 1];
      assert LocalAll(c, faulty)[..|faulty| - 1] == LocalAll(c, init);
      ReorderingIsPublic(c, com, init);
      var before := MoveAllBack(com, LocalAll(c, init));
      RemoveFirstPublic(c, before, c.Local(last));
      assert PublicAll(c, RemoveFirst(before, c.Local(last)) + [c.Local(last)])
          == PublicAll(c, RemoveFirst(before, c.Local(last))) + [last];
    }
  }

  lemma {:induction false} IndexIsPublic(c: Config, com: seq<Member>, m: Member)
    requires Faithful(c, com) && c.Local(c.Public(m)) == m
    ensures IndexOf(PublicAll(c, com), c.Public(m)) == IndexOf(com, m)
  {
    if com != [] {
      assert PublicAll(c, com)[1..] == PublicAll(c, com[1..]);
      if com[0] != m {
        IndexIsPublic(c, com[1..], m);
      }
    }
  }

  lemma RecordedIsPublic(c: Config, com: seq<Member>, ms: seq<Member>)
    requires c.WellFormed(com) && Recorded(c, com, ms)
    ensures Faithful(c, com) && forall i :: 0 <= i < |ms| ==> c.Public(c.Local(ms[i])) == ms[i]
  {
    forall i | 0 <= i < |ms|
      ensures c.Public(c.Local(ms[i])) == ms[i]
    {
      var j :| 0 <= j < |com| && ms[i] == c.Public(com[j]);
      LocalOfPublic(c, com, j);
    }
  }

  /** A finished view change in public terms: the reordered committee, and the candidate's place in it. */
  lemma FinishIsPublic(c: Config, n: Node)
    requires Inv(c, n) && n.faulty != []
    ensures var n', com := Finish(c, n, Compose(c, n)), PublicAll(c, n.committee);
            && PublicAll(c, n'.committee) == (if c.guardMode then com else MoveAllBack(com, n.faulty))
            && n'.leaderID == IndexOf(PublicAll(c, n'.committee), com[n.candidate])
  {
    RecordedIsPublic(c, n.committee, n.faulty);
    if !c.guardMode {
      ReorderingIsPublic(c, n.committee, n.faulty);
    }
    var n' := Finish(c, n, Compose(c, n));
    FinishCommittee(c, n, Compose(c, n));
    FinishLeader(c, n);
    IndexIsPublic(c, n'.committee, n.committee[n.candidate]);
  }

  lemma FinishCommittee(c: Config, n: Node, vc: VCBlock)
    ensures Finish(c, n, vc).committee == NewCommittee(c, n.committee, vc)
  {
  }

  lemma {:induction false} IndexIs(com: seq<Member>, i: nat)
    requires DistinctMembers(com) && i < |com|
    ensures IndexOf(com, com[i]) == i
  {
    if i > 0 {
      assert com[0].key != com[i].key;
      assert com[1..][i - 1] == com[i] && DistinctMembers(com[1..]);
      IndexIs(com[1..], i - 1);
    }
  }

  lemma FinishLeader(c: Config, n: Node)
    requires Inv(c, n) && n.faulty != []
    ensures var n' := Finish(c, n, Compose(c, n));
            n'.leaderID == IndexOf(n'.committee, n.committee[n.candidate])
  {
    FinishInv(c, n);
    var n' := Finish(c, n, Compose(c, n));
    IndexIs(n'.committee, n'.leaderID);
  }

  /** Two nodes have the same public view of the committee and of the view change under way. */
  ghost predicate SameView(c: Config, n: Node, d: Config, m: Node) {
    && c.guardMode == d.guardMode && c.numGuards == d.numGuards
    && PublicAll(c, n.committee) == PublicAll(d, m.committee)
    && n.leaderID == m.leaderID && n.counter == m.counter && n.candidate == m.candidate && n.faulty == m.faulty
  }

  /** Agreement on view changes: nodes that go through the same attempts, view changes and blocks keep
      the same view, although each stores its own entry differently. */
  lemma StepsAgree(c: Config, n: Node, d: Config, m: Node, ev: Event)
    requires Inv(c, n) && Inv(d, m) && SameView(c, n, d, m) && Possible(n, ev)
    ensures Possible(m, ev) && SameView(c, Next(c, n, ev), d, Next(d, m, ev))
  {
    assert |n.committee| == |PublicAll(c, n.committee)| == |m.committee|;
    match ev
    case TimesOut(candidate) => AttemptsAgree(c, n, d, m, candidate);
    case Agreed => FinishesAgree(c, n, d, m);
    case BlockDone =>
  }

  lemma AttemptsAgree(c: Config, n: Node, d: Config, m: Node, candidate: nat)
    requires SameView(c, n, d, m) && FaultyIndex(n) < |n.committee| && FaultyIndex(m) < |m.committee|
    ensures SameView(c, Attempt(c, n, candidate), d, Attempt(d, m, candidate))
  {
    var i := FaultyIndex(n);
    assert c.Public(n.committee[i]) == PublicAll(c, n.committee)[i] == PublicAll(d, m.committee)[i] == d.Public(m.committee[i]);
  }

  lemma FinishesAgree(c: Config, n: Node, d: Config, m: Node)
    requires Inv(c, n) && Inv(d, m) && SameView(c, n, d, m) && n.faulty != []
    ensures SameView(c, Finish(c, n, Compose(c, n)), d, Finish(d, m, Compose(d, m)))
  {
    FinishIsPublic(c, n);
    FinishIsPublic(d, m);
    FinishClears(c, n, Compose(c, n));
    FinishClears(d, m, Compose(d, m));
  }

  lemma FinishClears(c: Config, n: Node, vc: VCBlock)
    ensures var n' := Finish(c, n, vc);
            n'.counter == n.counter && n'.candidate == 0 && n'.faulty == []
  {
  }

  lemma RunStep(c: Config, ns: seq<Node>, evs: seq<Event>, j: nat)
    requires Run(c, ns, evs) && j < |evs|
    ensures Possible(ns[j], evs[j]) && ns[j + 1] == Next(c, ns[j], evs[j])
  {
  }

  lemma {:induction false} RunsAgree(c: Config, ns: seq<Node>, d: Config, ms: seq<Node>, evs: seq<Event>, j: nat)
    requires Run(c, ns, evs) && Run(d, ms, evs) && SameView(c, ns[0], d, ms[0]) && j < |ns|
    ensures SameView(c, ns[j], d, ms[j])
  {
    if j > 0 {
      RunsAgree(c, ns, d, ms, evs, j - 1);
      RunsStillAgree(c, ns, d, ms, evs, j - 1);
    }
  }

  lemma RunsStillAgree(c: Config, ns: seq<Node>, d: Config, ms: seq<Node>, evs: seq<Event>, j: nat)
    requires Run(c, ns, evs) && Run(d, ms, evs) && j < |evs| && SameView(c, ns[j], d, ms[j])
    ensures SameView(c, ns[j + 1], d, ms[j + 1])
  {
    RunKeeps(c, ns, evs, j);
    RunKeeps(d, ms, evs, j);
    RunStep(c, ns, evs, j);
    RunStep(d, ms, evs, j);
    StepsAgree(c, ns[j], d, ms[j], evs[j]);
  }

  class ViewChanger {
    const c: Config
    var committee: seq<Member>
    var consensusMyID: nat
    var consensusLeaderID: nat
    var viewChangeCounter: nat
    var candidateLeaderIndex: nat
    var cumulativeFaultyLeaders: seq<Member>

    function View(): Node
      reads this
    {
      Node(committee, consensusMyID, consensusLeaderID, viewChangeCounter, candidateLeaderIndex, cumulativeFaultyLeaders)
    }

    constructor (c: Config, committee: seq<Member>, myID: nat, leaderID: nat)
      ensures this.c == c && View() == Node(committee, myID, leaderID, 0, 0, [])
    {
      this.c, this.committee := c, committee;
      consensusMyID, consensusLeaderID := myID, leaderID;
      viewChangeCounter, candidateLeaderIndex, cumulativeFaultyLeaders := 0, 0, [];
    }

    /** Records the faulty leader and picks the next candidate. Without a usable hash the node would
        keep re-hashing. */
    method RunConsensusOnViewChange(hashes: seq<nat>) returns (ok: bool)
      requires Inv(c, View()) && c.Leaders(|committee|) > 0
      modifies this
      ensures var cand := Candidate(hashes, c.Leaders(|old(committee)|), old(consensusLeaderID));
              && ok == cand.Some?
              && (ok ==> View() == Attempt(c, old(View()), cand.value) && Inv(c, View()))
              && (!ok ==> View() == old(View()))
    {
      var r := CalculateNewLeaderIndex(c, |committee|, consensusLeaderID, hashes);
      if r.None? {
        return false;
      }
      AttemptInv(c, View(), r.value);
      viewChangeCounter := viewChangeCounter + 1;
      var faultyLeaderIndex := if viewChangeCounter == 1 then consensusLeaderID else candidateLeaderIndex;
      var faulty := committee[faultyLeaderIndex];
      if faulty.key == c.self && faulty.peer == BLANK_PEER {
        cumulativeFaultyLeaders := cumulativeFaultyLeaders + [Member(faulty.key, c.selfPeer)];
      } else {
        cumulativeFaultyLeaders := cumulativeFaultyLeaders + [faulty];
      }
      candidateLeaderIndex := r.value;
      return true;
    }

    method MoveFaultyLeadersBack(faulty: seq<Member>)
      modifies this`committee
      ensures committee == MoveAllBack(old(committee), LocalAll(c, faulty))
    {
      ghost var com, ms := committee, LocalAll(c, faulty);
      var i := 0;
      while i < |faulty|
        invariant 0 <= i <= |faulty| && committee == MoveAllBack(com, ms[..i])
      {
        assert ms[..i + 1][..i] == ms[..i];
        var entry := if faulty[i].peer == c.selfPeer then Member(faulty[i].key, BLANK_PEER) else faulty[i];
        MoveToBack(entry);
        i := i + 1;
      }
      assert ms[..i] == ms;
    }

    /** Takes the first such entry out, if there is one, and appends it. */
    method MoveToBack(entry: Member)
      modifies this`committee
      ensures committee == MoveBack(old(committee), entry)
    {
      var at := FindMember(committee, entry);
      RemoveFirstAt(committee, entry);
      if at < |committee| {
        committee := committee[..at] + committee[at + 1..];
      }
      committee := committee + [entry];
    }

    /** Acts on an agreed view change block: reorders the committee and recomputes both indices. */
    method ProcessViewChangeConsensusWhenDone(vc: VCBlock) returns (ok: bool)
      modifies this
      ensures View() == Finish(c, old(View()), vc)
    {
      candidateLeaderIndex, cumulativeFaultyLeaders := 0, [];
      if !c.guardMode {
        MoveFaultyLeadersBack(vc.faulty);
      }
      var me := FindMember(committee, Member(c.self, BLANK_PEER));
      if me == |committee| {
        return false;
      }
      consensusMyID := me;
      if vc.candidate.key == c.self && vc.candidate.peer == c.selfPeer {
        consensusLeaderID := consensusMyID;
        return true;
      }
      var leader := FindMember(committee, vc.candidate);
      if leader == |committee| {
        return false;
      }
      consensusLeaderID := leader;
      return true;
    }
  }

  lemma {:induction false} RemoveFirstAt(com: seq<Member>, m: Member)
    ensures var i := IndexOf(com, m);
            RemoveFirst(com, m) == if i < |com| then com[..i] + com[i + 1..] else com
  {
    if com != [] && com[0] != m {
      RemoveFirstAt(com[1..], m);
    }
  }
}
