/** Drawing consensus subsets from the members that committed: the scan of the commit map, the shuffle, the
    guards that go first, and the filling of each subset up to the quorum. Every subset drawn is one that
    the leader's specification permits. */
module SubsetGeneration {
  import opened Bits
  import opened MultiSig
  import opened Consensus
  import opened LeaderSpec

  /** The leader's bookkeeping for one subset: the bitmaps and, beside them, the lists in arrival
      order and the counter that the bitmaps make redundant. */
  datatype ConsensusSubset = ConsensusSubset(
    commitMap: seq<bool>, commitPointMap: seq<Point>, commitPoints: seq<Point>,
    challenge: nat,
    responseCounter: nat, responseMap: seq<bool>, responseDataMap: seq<nat>, responseData: seq<nat>,
    state: State)

  predicate Distinct(xs: seq<nat>) {
    forall i, j :: 0 <= i < j < |xs| ==> xs[i] != xs[j]
  }

  /** `peers` lists the members in `bits`, each once. */
  ghost predicate Enumerates(peers: seq<nat>, bits: seq<bool>) {
    Distinct(peers) && forall i: nat :: i in peers <==> i < |bits| && bits[i]
  }

  lemma {:induction false} EnumerationLength(peers: seq<nat>, bits: seq<bool>)
    requires Enumerates(peers, bits)
    ensures |peers| == Count(bits)
    decreases |peers|
  {
    if peers == [] {
      assert forall i :: 0 <= i < |bits| ==> !bits[i];
      assert bits == NoBits(|bits|);
      CountNone(|bits|);
    } else {
      var n := |peers| - 1;
      var x := peers[n];
      assert x in peers;
      var bits' := bits[x := false];
      forall i: nat ensures i in peers[..n] <==> i < |bits'| && bits'[i] {
        if i in peers && i != x {
          var j :| 0 <= j < |peers| && peers[j] == i;
          assert peers[..n][j] == i;
        }
      }
      EnumerationLength(peers[..n], bits');
      CountSet(bits', x);
      assert bits'[x := true] == bits;
    }
  }

  lemma {:induction false} CountOf(xs: seq<nat>, x: nat)
    requires Distinct(xs)
    ensures multiset(xs)[x] <= 1
  {
    if xs != [] {
      var n := |xs| - 1;
      assert xs == xs[..n] + [xs[n]];
      CountOf(xs[..n], x);
      assert xs[n] !in xs[..n];
    }
  }

  lemma PermutedDistinct(xs: seq<nat>, ys: seq<nat>)
    requires Distinct(xs) && multiset(xs) == multiset(ys)
    ensures Distinct(ys)
  {
    forall i, j | 0 <= i < j < |ys|
      ensures ys[i] != ys[j]
    {
      if ys[i] == ys[j] {
        var x := ys[i];
        assert ys == ys[..i] + [x] + ys[i + 1..j] + [x] + ys[j + 1..];
        assert multiset(ys)[x] >= 2;
        CountOf(xs, x);
      }
    }
  }

  lemma PermutedEnumeration(xs: seq<nat>, ys: seq<nat>, bits: seq<bool>)
    requires Enumerates(xs, bits) && multiset(xs) == multiset(ys)
    ensures Enumerates(ys, bits)
  {
    PermutedDistinct(xs, ys);
    forall i: nat ensures i in ys <==> i in xs {
      assert i in multiset(ys) <==> i in multiset(xs);
    }
  }

  lemma EnumeratedInRange(peers: seq<nat>, bits: seq<bool>)
    requires Enumerates(peers, bits)
    ensures InRange(peers, |bits|)
  {
    forall i | 0 <= i < |peers| ensures peers[i] < |bits| {
      assert peers[i] in peers;
    }
  }

  /** An arbitrary rearrangement, by exchanging each place with an earlier one. */
  method Shuffle(xs: seq<nat>) returns (ys: seq<nat>)
    ensures multiset(ys) == multiset(xs)
  {
    ys := xs;
    var i := 1;
    while i < |xs|
      invariant |ys| == |xs| && multiset(ys) == multiset(xs)
    {
      var j :| 0 <= j <= i;
      Exchange(ys, i, j);
      ys := ys[i := ys[j]][j := ys[i]];
      i := i + 1;
    }
  }

  lemma Exchange(ys: seq<nat>, i: nat, j: nat)
    requires i < |ys| && j < |ys|
    ensures multiset(ys[i := ys[j]][j := ys[i]]) == multiset(ys)
  {
  }

  method PeersWhoCommitted(commitMap: seq<bool>, myID: nat) returns (peers: seq<nat>)
    requires myID < |commitMap| && commitMap[myID]
    ensures Enumerates(peers, commitMap[myID := false])
    ensures |peers| == Count(commitMap) - 1
  {
    peers := [];
    var index := 0;
    while index < |commitMap|
      invariant 0 <= index <= |commitMap|
      invariant Distinct(peers)
      invariant forall i: nat :: i in peers <==> i < index && commitMap[i] && i != myID
    {
      if commitMap[index] && index != myID {
        peers := peers + [index];
      }
      index := index + 1;
    }
    EnumerationLength(peers, commitMap[myID := false]);
    CountSet(commitMap[myID := false], myID);
    assert commitMap[myID := false][myID := true] == commitMap;
  }

  // ---------- filling one subset

  /** A subset under construction: its points are those of its members, listed as they were added. */
  ghost predicate Drawn(c: Config, points: seq<Point>, sub: ConsensusSubset) {
    && |points| == |sub.commitMap| == |sub.commitPointMap| == c.com.Size()
    && c.leaderID < c.com.Size() && sub.commitMap[c.leaderID]
    && (forall i :: 0 <= i < |points| ==>
          sub.commitPointMap[i] == if sub.commitMap[i] then points[i] else c.com.scheme.group.neutral)
    && |sub.commitPoints| == Count(sub.commitMap)
    && multiset(sub.commitPoints) == multiset(Select(sub.commitMap, sub.commitPointMap))
  }

  /** No response yet, no challenge yet. */
  predicate Silent(c: Config, sub: ConsensusSubset, state: State) {
    && sub.challenge == 0 && sub.responseCounter == 0 && sub.responseData == []
    && sub.responseMap == NoBits(c.com.Size()) && sub.responseDataMap == seq(c.com.Size(), _ => 0)
    && sub.state == state
  }

  function AddMember(sub: ConsensusSubset, id: nat, point: Point): ConsensusSubset
    requires id < |sub.commitMap| == |sub.commitPointMap|
  {
    sub.(commitMap := sub.commitMap[id := true], commitPointMap := sub.commitPointMap[id := point],
         commitPoints := sub.commitPoints + [point])
  }

  lemma AddMemberDrawn(c: Config, points: seq<Point>, sub: ConsensusSubset, id: nat)
    requires Drawn(c, points, sub) && id < |points| && !sub.commitMap[id]
    ensures Drawn(c, points, AddMember(sub, id, points[id]))
    ensures Count(AddMember(sub, id, points[id]).commitMap) == Count(sub.commitMap) + 1
  {
    CountSet(sub.commitMap, id);
    SelectSet(sub.commitMap, sub.commitPointMap, id, points[id]);
  }

  method NewConsensusSubset(c: Config, points: seq<Point>, state: State) returns (sub: ConsensusSubset)
    requires c.leaderID < c.com.Size() == |points|
    ensures sub == Build(c, points, state, [])
  {
    var n := c.com.Size();
    var blank := seq(n, _ => c.com.scheme.group.neutral);
    var id := c.leaderID;
    sub := ConsensusSubset(NoBits(n)[id := true], blank[id := points[id]], [points[id]],
                           0, 0, NoBits(n), seq(n, _ => 0), [], state);
  }

  predicate InRange(ids: seq<nat>, n: nat) { forall i :: 0 <= i < |ids| ==> ids[i] < n }

  /** The subset of the leader and `members`, added in this order. */
  function Build(c: Config, points: seq<Point>, state: State, members: seq<nat>): (sub: ConsensusSubset)
    requires c.leaderID < c.com.Size() == |points| && InRange(members, c.com.Size())
    ensures |sub.commitMap| == |sub.commitPointMap| == |points|
  {
    if members == [] then
      var n := c.com.Size();
      ConsensusSubset(NoBits(n)[c.leaderID := true],
                      seq(n, _ => c.com.scheme.group.neutral)[c.leaderID := points[c.leaderID]], [points[c.leaderID]],
                      0, 0, NoBits(n), seq(n, _ => 0), [], state)
    else
      var k := |members| - 1;
      AddMember(Build(c, points, state, members[..k]), members[k], points[members[k]])
  }

  lemma AloneDrawn(c: Config, points: seq<Point>, state: State)
    requires c.leaderID < c.com.Size() == |points|
    ensures var sub := Build(c, points, state, []);
            Drawn(c, points, sub) && Silent(c, sub, state) && Count(sub.commitMap) == 1
  {
    var n := c.com.Size();
    var blank := seq(n, _ => c.com.scheme.group.neutral);
    CountNone(n);
    CountSet(NoBits(n), c.leaderID);
    SelectNone(blank);
    SelectSet(NoBits(n), blank, c.leaderID, points[c.leaderID]);
  }

  lemma {:induction false} BuildMembers(c: Config, points: seq<Point>, state: State, members: seq<nat>, i: nat)
    requires c.leaderID < c.com.Size() == |points| && InRange(members, c.com.Size()) && i < |points|
    ensures Build(c, points, state, members).commitMap[i] <==> i == c.leaderID || i in members
  {
    if members != [] {
      var k := |members| - 1;
      BuildMembers(c, points, state, members[..k], i);
      assert members == members[..k] + [members[k]];
    }
  }

  lemma {:induction false} BuildDrawn(c: Config, points: seq<Point>, state: State, members: seq<nat>)
    requires c.leaderID < c.com.Size() == |points| && InRange(members, c.com.Size())
    requires Distinct(members) && c.leaderID !in members
    ensures var sub := Build(c, points, state, members);
            Drawn(c, points, sub) && Silent(c, sub, state) && Count(sub.commitMap) == 1 + |members|
  {
    if members == [] {
      AloneDrawn(c, points, state);
    } else {
      var k := |members| - 1;
      BuildDrawn(c, points, state, members[..k]);
      BuildMembers(c, points, state, members[..k], members[k]);
      AddMemberDrawn(c, points, Build(c, points, state, members[..k]), members[k]);
    }
  }

  /** Adds the first members of `peers`, as many as complete the quorum. */
  method FillInOrder(c: Config, points: seq<Point>, state: State, sub0: ConsensusSubset, peers: seq<nat>)
    returns (sub: ConsensusSubset)
    requires c.leaderID < c.com.Size() == |points| && InRange(peers, c.com.Size())
    requires sub0 == Build(c, points, state, []) && |peers| >= c.com.Quorum() - 1
    ensures sub == Build(c, points, state, peers[..c.com.Quorum() - 1])
  {
    sub := sub0;
    var j := 0;
    while j < c.com.Quorum() - 1
      invariant 0 <= j <= c.com.Quorum() - 1
      invariant sub == Build(c, points, state, peers[..j])
    {
      var index := peers[j];
      sub := AddMember(sub, index, points[index]);
      assert peers[..j + 1][..j] == peers[..j];
      j := j + 1;
    }
  }

  function Guards(c: Config, peers: seq<nat>): seq<nat> {
    if peers == [] then []
    else
      var k := |peers| - 1;
      Guards(c, peers[..k]) + if peers[k] < c.numDSGuard then [peers[k]] else []
  }

  function Others(c: Config, peers: seq<nat>): seq<nat> {
    if peers == [] then []
    else
      var k := |peers| - 1;
      Others(c, peers[..k]) + if peers[k] < c.numDSGuard then [] else [peers[k]]
  }

  /** The peers with all guards moved to the front. */
  function GuardOrder(c: Config, peers: seq<nat>): seq<nat> { Guards(c, peers) + Others(c, peers) }

  lemma {:induction false} GuardOrderPermutes(c: Config, peers: seq<nat>)
    ensures multiset(Guards(c, peers)) + multiset(Others(c, peers)) == multiset(peers)
    ensures |Guards(c, peers)| + |Others(c, peers)| == |peers|
  {
    if peers != [] {
      var k := |peers| - 1;
      GuardOrderPermutes(c, peers[..k]);
      assert multiset(peers) == multiset(peers[..k]) + multiset{peers[k]} by {
        assert peers == peers[..k] + [peers[k]];
      }
    }
  }

  lemma {:induction false} GuardsPrefix(c: Config, peers: seq<nat>, i: nat)
    requires i <= |peers|
    ensures Guards(c, peers[..i]) <= Guards(c, peers)
    decreases |peers|
  {
    var k := |peers| - 1;
    if i < |peers| {
      GuardsPrefix(c, peers[..k], i);
      assert peers[..k][..i] == peers[..i];
    } else {
      assert peers[..i] == peers;
    }
  }

  lemma {:induction false} GuardsAndOthers(c: Config, peers: seq<nat>)
    ensures forall j :: 0 <= j < |Guards(c, peers)| ==> Guards(c, peers)[j] < c.numDSGuard
    ensures forall j :: 0 <= j < |Others(c, peers)| ==> Others(c, peers)[j] >= c.numDSGuard
  {
    if peers != [] {
      GuardsAndOthers(c, peers[..|peers| - 1]);
    }
  }

  /** Among the first `i` peers there are `taken` guards, and `others` are the rest. */
  ghost predicate Taking(c: Config, peers: seq<nat>, i: nat, taken: nat, others: seq<nat>) {
    i <= |peers| && taken == |Guards(c, peers[..i])| && others == Others(c, peers[..i])
  }

  /** A guard met at position `i` is the next one in guard order. */
  lemma NextGuard(c: Config, peers: seq<nat>, i: nat, taken: nat, others: seq<nat>)
    requires Taking(c, peers, i, taken, others) && i < |peers| && peers[i] < c.numDSGuard
    ensures Taking(c, peers, i + 1, taken + 1, others)
    ensures taken < |GuardOrder(c, peers)| && GuardOrder(c, peers)[taken] == peers[i]
  {
    GuardsPrefix(c, peers, i + 1);
    assert peers[..i + 1][..i] == peers[..i];
  }

  lemma NextOther(c: Config, peers: seq<nat>, i: nat, taken: nat, others: seq<nat>)
    requires Taking(c, peers, i, taken, others) && i < |peers| && peers[i] >= c.numDSGuard
    ensures Taking(c, peers, i + 1, taken, others + [peers[i]])
  {
    assert peers[..i + 1][..i] == peers[..i];
  }

  lemma AllTaken(c: Config, peers: seq<nat>, taken: nat, others: seq<nat>)
    requires Taking(c, peers, |peers|, taken, others)
    ensures taken == |Guards(c, peers)| <= |GuardOrder(c, peers)| && others == Others(c, peers)
  {
    assert peers[..|peers|] == peers;
  }

  /** The first `i` peers have been looked at: guards are in the subset, the others put aside. */
  ghost predicate Filling(c: Config, points: seq<Point>, state: State, peers: seq<nat>, i: nat,
                          sub: ConsensusSubset, subsetPeers: nat, others: seq<nat>)
  {
    && c.leaderID < c.com.Size() == |points| && InRange(GuardOrder(c, peers), c.com.Size())
    && 1 <= subsetPeers <= |GuardOrder(c, peers)| + 1
    && Taking(c, peers, i, subsetPeers - 1, others)
    && sub == Build(c, points, state, GuardOrder(c, peers)[..subsetPeers - 1])
  }

  datatype Picking = Picking(sub: ConsensusSubset, subsetPeers: nat, others: seq<nat>)

  predicate Sized(points: seq<Point>, sub: ConsensusSubset) {
    |sub.commitMap| == |sub.commitPointMap| == |points|
  }

  /** The loop over the peers from number `i` on, as a function; a full quorum ends it. */
  function TakeFrom(c: Config, points: seq<Point>, peers: seq<nat>, i: nat, p: Picking): Picking
    requires i <= |peers| && InRange(peers, |points|) && Sized(points, p.sub)
    decreases |peers| - i
  {
    if i == |peers| then p
    else if peers[i] < c.numDSGuard then
      var p' := Picking(AddMember(p.sub, peers[i], points[peers[i]]), p.subsetPeers + 1, p.others);
      if p'.subsetPeers == c.com.Quorum() then p' else TakeFrom(c, points, peers, i + 1, p')
    else TakeFrom(c, points, peers, i + 1, p.(others := p.others + [peers[i]]))
  }

  lemma FillingGuard(c: Config, points: seq<Point>, state: State, peers: seq<nat>, i: nat, p: Picking)
    requires i < |peers| && peers[i] < c.numDSGuard && InRange(peers, |points|) && Sized(points, p.sub)
    requires Filling(c, points, state, peers, i, p.sub, p.subsetPeers, p.others)
    ensures Filling(c, points, state, peers, i + 1, AddMember(p.sub, peers[i], points[peers[i]]), p.subsetPeers + 1, p.others)
  {
    NextGuard(c, peers, i, p.subsetPeers - 1, p.others);
    PrefixStep(c, points, state, GuardOrder(c, peers), p.subsetPeers - 1, peers[i]);
  }

  lemma FillingOther(c: Config, points: seq<Point>, state: State, peers: seq<nat>, i: nat, p: Picking)
    requires i < |peers| && peers[i] >= c.numDSGuard
    requires Filling(c, points, state, peers, i, p.sub, p.subsetPeers, p.others)
    ensures Filling(c, points, state, peers, i + 1, p.sub, p.subsetPeers, p.others + [peers[i]])
  {
    NextOther(c, peers, i, p.subsetPeers - 1, p.others);
  }

  /** What the loop leaves: the quorum is full, or all guards are in and all others aside. */
  lemma {:induction false} TakeFromOf(c: Config, points: seq<Point>, state: State, peers: seq<nat>, i: nat, p: Picking)
    returns (j: nat)
    requires i <= |peers| && InRange(peers, |points|) && Sized(points, p.sub)
    requires Filling(c, points, state, peers, i, p.sub, p.subsetPeers, p.others)
    requires p.subsetPeers < c.com.Quorum() || peers == []
    ensures var r := TakeFrom(c, points, peers, i, p);
            && j <= |peers| && Filling(c, points, state, peers, j, r.sub, r.subsetPeers, r.others)
            && (r.subsetPeers == c.com.Quorum() || j == |peers|) && (r.subsetPeers <= c.com.Quorum() || peers == [])
    decreases |peers| - i
  {
    j := i;
    if i < |peers| {
      if peers[i] < c.numDSGuard {
        FillingGuard(c, points, state, peers, i, p);
        var p' := Picking(AddMember(p.sub, peers[i], points[peers[i]]), p.subsetPeers + 1, p.others);
        j := i + 1;
        if p'.subsetPeers != c.com.Quorum() {
          j := TakeFromOf(c, points, state, peers, i + 1, p');
        }
      } else {
        FillingOther(c, points, state, peers, i, p);
        j := TakeFromOf(c, points, state, peers, i + 1, p.(others := p.others + [peers[i]]));
      }
    }
  }

  lemma FillingStarts(c: Config, points: seq<Point>, state: State, peers: seq<nat>)
    requires c.leaderID < c.com.Size() == |points| && InRange(GuardOrder(c, peers), c.com.Size())
    ensures Filling(c, points, state, peers, 0, Build(c, points, state, []), 1, [])
  {
    assert GuardOrder(c, peers)[..0] == [] && peers[..0] == [];
  }

  lemma FillingEnds(c: Config, points: seq<Point>, state: State, peers: seq<nat>, j: nat, p: Picking)
    requires j <= |peers| && Filling(c, points, state, peers, j, p.sub, p.subsetPeers, p.others)
    ensures 1 <= p.subsetPeers <= |GuardOrder(c, peers)| + 1
    ensures p.sub == Build(c, points, state, GuardOrder(c, peers)[..p.subsetPeers - 1])
    ensures j == |peers| ==> p.others == Others(c, peers) && p.subsetPeers == |Guards(c, peers)| + 1
  {
    if j == |peers| {
      AllTaken(c, peers, p.subsetPeers - 1, p.others);
    }
  }

  /** Adds committed guards until the quorum is full, and puts the other peers aside. */
  method TakeGuards(c: Config, points: seq<Point>, ghost state: State, sub0: ConsensusSubset, peers: seq<nat>)
    returns (sub: ConsensusSubset, subsetPeers: nat, others: seq<nat>)
    requires c.leaderID < c.com.Size() == |points| && InRange(peers, c.com.Size())
    requires InRange(GuardOrder(c, peers), c.com.Size())
    requires sub0 == Build(c, points, state, [])
    requires c.com.Quorum() > 1 || (c.com.Quorum() == 1 && peers == [])
    ensures 1 <= subsetPeers <= c.com.Quorum() && subsetPeers - 1 <= |GuardOrder(c, peers)|
    ensures sub == Build(c, points, state, GuardOrder(c, peers)[..subsetPeers - 1])
    ensures subsetPeers < c.com.Quorum() ==> others == Others(c, peers) && subsetPeers == |Guards(c, peers)| + 1
  {
    sub, subsetPeers, others := PickGuards(c, points, sub0, peers);
    GuardsTaken(c, points, state, peers);
  }

  /** The result of the loop, started on the leader alone. */
  lemma GuardsTaken(c: Config, points: seq<Point>, state: State, peers: seq<nat>)
    requires c.leaderID < c.com.Size() == |points| && InRange(peers, c.com.Size())
    requires InRange(GuardOrder(c, peers), c.com.Size())
    requires c.com.Quorum() > 1 || (c.com.Quorum() == 1 && peers == [])
    ensures var r := TakeFrom(c, points, peers, 0, Picking(Build(c, points, state, []), 1, []));
            && 1 <= r.subsetPeers <= c.com.Quorum() && r.subsetPeers - 1 <= |GuardOrder(c, peers)|
            && r.sub == Build(c, points, state, GuardOrder(c, peers)[..r.subsetPeers - 1])
            && (r.subsetPeers < c.com.Quorum() ==> r.others == Others(c, peers) && r.subsetPeers == |Guards(c, peers)| + 1)
  {
    var start := Picking(Build(c, points, state, []), 1, []);
    var r := TakeFrom(c, points, peers, 0, start);
    FillingStarts(c, points, state, peers);
    var j := TakeFromOf(c, points, state, peers, 0, start);
    FillingEnds(c, points, state, peers, j, r);
  }

  method PickGuards(c: Config, points: seq<Point>, sub0: ConsensusSubset, peers: seq<nat>)
    returns (sub: ConsensusSubset, subsetPeers: nat, others: seq<nat>)
    requires InRange(peers, |points|) && Sized(points, sub0)
    ensures Picking(sub, subsetPeers, others) == TakeFrom(c, points, peers, 0, Picking(sub0, 1, []))
  {
    sub, subsetPeers, others := sub0, 1, [];
    var i := 0;
    while i < |peers|
      invariant 0 <= i <= |peers| && Sized(points, sub)
      invariant TakeFrom(c, points, peers, i, Picking(sub, subsetPeers, others))
             == TakeFrom(c, points, peers, 0, Picking(sub0, 1, []))
    {
      var index := peers[i];
      if index < c.numDSGuard {
        sub := AddMember(sub, index, points[index]);
        subsetPeers := subsetPeers + 1;
        if subsetPeers == c.com.Quorum() {
          return;
        }
      } else {
        others := others + [index];
      }
      i := i + 1;
    }
  }

  lemma PrefixStep(c: Config, points: seq<Point>, state: State, order: seq<nat>, k: nat, index: nat)
    requires c.leaderID < c.com.Size() == |points| && InRange(order, c.com.Size())
    requires k < |order| && order[k] == index
    ensures Build(c, points, state, order[..k + 1]) == AddMember(Build(c, points, state, order[..k]), index, points[index])
  {
    assert order[..k + 1][..k] == order[..k];
  }

  /** Adds committed guards first, and other peers only if the guards do not fill the quorum. */
  method FillGuardsFirst(c: Config, points: seq<Point>, state: State, sub0: ConsensusSubset, peers: seq<nat>)
    returns (sub: ConsensusSubset)
    requires c.leaderID < c.com.Size() == |points| && InRange(peers, c.com.Size())
    requires InRange(GuardOrder(c, peers), c.com.Size())
    requires sub0 == Build(c, points, state, []) && |GuardOrder(c, peers)| == |peers| >= c.com.Quorum() - 1
    requires c.com.Quorum() > 1 || (c.com.Quorum() == 1 && peers == [])
    ensures sub == Build(c, points, state, GuardOrder(c, peers)[..c.com.Quorum() - 1])
  {
    ghost var order := GuardOrder(c, peers);
    var subsetPeers, others;
    sub, subsetPeers, others := TakeGuards(c, points, state, sub0, peers);
    if subsetPeers < c.com.Quorum() {
      assert order[subsetPeers - 1..] == others;
      sub := AddOthers(c, points, state, order, sub, subsetPeers, others);
    }
  }

  method AddOthers(c: Config, points: seq<Point>, ghost state: State, ghost order: seq<nat>, sub0: ConsensusSubset,
                   subsetPeers0: nat, others: seq<nat>)
    returns (sub: ConsensusSubset)
    requires c.leaderID < c.com.Size() == |points| && InRange(order, c.com.Size())
    requires 1 <= subsetPeers0 <= c.com.Quorum() <= |order| + 1 && order[subsetPeers0 - 1..] == others
    requires sub0 == Build(c, points, state, order[..subsetPeers0 - 1])
    ensures sub == Build(c, points, state, order[..c.com.Quorum() - 1])
  {
    sub := AddInOrder(points, sub0, others, c.com.Quorum() - subsetPeers0);
    AddedIsBuilt(c, points, state, order, subsetPeers0 - 1, c.com.Quorum() - subsetPeers0);
  }

  function AddAll(points: seq<Point>, sub: ConsensusSubset, ids: seq<nat>): (r: ConsensusSubset)
    requires Sized(points, sub) && InRange(ids, |points|)
    ensures Sized(points, r)
  {
    if ids == [] then sub
    else AddMember(AddAll(points, sub, ids[..|ids| - 1]), ids[|ids| - 1], points[ids[|ids| - 1]])
  }

  method AddInOrder(points: seq<Point>, sub0: ConsensusSubset, ids: seq<nat>, n: nat) returns (sub: ConsensusSubset)
    requires Sized(points, sub0) && InRange(ids, |points|) && n <= |ids|
    ensures sub == AddAll(points, sub0, ids[..n])
  {
    sub := sub0;
    var k := 0;
    while k < n
      invariant 0 <= k <= n && sub == AddAll(points, sub0, ids[..k])
    {
      assert ids[..k + 1][..k] == ids[..k];
      sub := AddMember(sub, ids[k], points[ids[k]]);
      k := k + 1;
    }
  }

  lemma {:induction false} AddedIsBuilt(c: Config, points: seq<Point>, state: State, order: seq<nat>, k: nat, n: nat)
    requires c.leaderID < c.com.Size() == |points| && InRange(order, |points|) && k + n <= |order|
    ensures AddAll(points, Build(c, points, state, order[..k]), order[k..][..n]) == Build(c, points, state, order[..k + n])
  {
    if n > 0 {
      assert order[k..][..n][..n - 1] == order[k..][..n - 1] && order[k..][n - 1] == order[k + n - 1];
      AddedIsBuilt(c, points, state, order, k, n - 1);
      PrefixStep(c, points, state, order, k + n - 1, order[k + n - 1]);
    }
  }

  /** The first members of any enumeration of the committed peers complete a quorum. */
  lemma BuiltIsPick(c: Config, commitMap: seq<bool>, points: seq<Point>, state: State, order: seq<nat>)
    requires c.leaderID < c.com.Size() == |points| == |commitMap| && commitMap[c.leaderID]
    requires Enumerates(order, commitMap[c.leaderID := false])
    requires InRange(order, c.com.Size()) && |order| >= c.com.Quorum() - 1
    ensures var sub := Build(c, points, state, order[..c.com.Quorum() - 1]);
            Drawn(c, points, sub) && Silent(c, sub, state) && PickOk(c, commitMap, sub.commitMap)
  {
    var members := order[..c.com.Quorum() - 1];
    assert forall i: nat :: i in members ==> i in order;
    BuildDrawn(c, points, state, members);
    var bits := Build(c, points, state, members).commitMap;
    forall i | 0 <= i < |bits| && bits[i]
      ensures commitMap[i]
    {
      BuildMembers(c, points, state, members, i);
    }
  }

  lemma GuardOrderIsGuardsFirst(c: Config, commitMap: seq<bool>, points: seq<Point>, state: State, peers: seq<nat>)
    requires c.leaderID < c.com.Size() == |points| == |commitMap| && commitMap[c.leaderID]
    requires Enumerates(GuardOrder(c, peers), commitMap[c.leaderID := false])
    requires InRange(GuardOrder(c, peers), c.com.Size()) && |GuardOrder(c, peers)| >= c.com.Quorum() - 1
    ensures GuardsFirst(c, commitMap, Build(c, points, state, GuardOrder(c, peers)[..c.com.Quorum() - 1]).commitMap)
  {
    var order := GuardOrder(c, peers);
    var members := order[..c.com.Quorum() - 1];
    var bits := Build(c, points, state, members).commitMap;
    forall i, j | 0 <= i < |bits| && 0 <= j < |bits| && i != c.leaderID && j < c.numDSGuard <= i && bits[i] && commitMap[j]
      ensures bits[j]
    {
      BuildMembers(c, points, state, members, i);
      BuildMembers(c, points, state, members, j);
      if j != c.leaderID {
        GuardComesFirst(c, peers, c.com.Quorum() - 1, i, j);
      }
    }
  }

  /** A prefix of the guard order that reaches a non-guard holds every guard. */
  lemma GuardComesFirst(c: Config, peers: seq<nat>, n: nat, i: nat, j: nat)
    requires n <= |GuardOrder(c, peers)| && i in GuardOrder(c, peers)[..n] && i >= c.numDSGuard
    requires j in GuardOrder(c, peers) && j < c.numDSGuard
    ensures j in GuardOrder(c, peers)[..n]
  {
    var order := GuardOrder(c, peers);
    GuardsAndOthers(c, peers);
    var a :| 0 <= a < n && order[..n][a] == i;
    var b :| 0 <= b < |order| && order[b] == j;
    assert order[a] == i && a >= |Guards(c, peers)| && b < |Guards(c, peers)|;
    assert order[..n][b] == j;
  }

  /** The subsets' bitmaps. */
  function Picks(subs: seq<ConsensusSubset>): (picks: seq<seq<bool>>)
    ensures |picks| == |subs| && forall k :: 0 <= k < |subs| ==> picks[k] == subs[k].commitMap
  {
    seq(|subs|, k requires 0 <= k < |subs| => subs[k].commitMap)
  }

  /** Subset generation: from any commit map with at least a quorum that includes the leader, and
      under any shuffles, every subset is exactly a quorum of committed members including the leader,
      carries exactly those members' points, and the first respects the guard preference. */
  method GenerateSubsets(c: Config, commitMap: seq<bool>, points: seq<Point>, state: State)
    returns (subs: seq<ConsensusSubset>)
    requires c.leaderID < c.com.Size() == |commitMap| == |points|
    requires commitMap[c.leaderID] && Count(commitMap) >= c.com.Quorum()
    ensures PicksOk(c, commitMap, Picks(subs))
    ensures forall k :: 0 <= k < |subs| ==> Drawn(c, points, subs[k]) && Silent(c, subs[k], state)
  {
    var peers := PeersWhoCommitted(commitMap, c.leaderID);
    var numSubsets := if |peers| <= c.com.Quorum() then 1 else c.numOfSubsets;
    subs := [];
    var i := 0;
    while i < numSubsets
      invariant 0 <= i == |subs| <= numSubsets
      invariant Enumerates(peers, commitMap[c.leaderID := false]) && |peers| == Count(commitMap) - 1
      invariant forall k :: 0 <= k < |subs| ==>
        Drawn(c, points, subs[k]) && Silent(c, subs[k], state) && PickOk(c, commitMap, subs[k].commitMap)
      invariant c.guardFirst && subs != [] ==> GuardsFirst(c, commitMap, subs[0].commitMap)
    {
      var sub := DrawOne(c, commitMap, points, state, peers, c.guardFirst && i == 0);
      subs := subs + [sub];
      var shuffled := Shuffle(peers);
      PermutedEnumeration(peers, shuffled, commitMap[c.leaderID := false]);
      assert |multiset(shuffled)| == |multiset(peers)|;
      peers := shuffled;
      i := i + 1;
    }
  }

  method DrawOne(c: Config, commitMap: seq<bool>, points: seq<Point>, state: State, peers: seq<nat>, guardsFirst: bool)
    returns (sub: ConsensusSubset)
    requires c.leaderID < c.com.Size() == |commitMap| == |points|
    requires commitMap[c.leaderID] && Count(commitMap) >= c.com.Quorum()
    requires Enumerates(peers, commitMap[c.leaderID := false]) && |peers| == Count(commitMap) - 1
    ensures Drawn(c, points, sub) && Silent(c, sub, state) && PickOk(c, commitMap, sub.commitMap)
    ensures guardsFirst ==> GuardsFirst(c, commitMap, sub.commitMap)
  {
    ghost var bits := commitMap[c.leaderID := false];
    EnumeratedInRange(peers, bits);
    CountBound(commitMap);
    sub := NewConsensusSubset(c, points, state);
    if guardsFirst {
      GuardOrderPermutes(c, peers);
      assert multiset(GuardOrder(c, peers)) == multiset(peers);
      PermutedEnumeration(peers, GuardOrder(c, peers), bits);
      EnumeratedInRange(GuardOrder(c, peers), bits);
      sub := FillGuardsFirst(c, points, state, sub, peers);
      BuiltIsPick(c, commitMap, points, state, GuardOrder(c, peers));
      GuardOrderIsGuardsFirst(c, commitMap, points, state, peers);
    } else {
      sub := FillInOrder(c, points, state, sub, peers);
      BuiltIsPick(c, commitMap, points, state, peers);
    }
  }
}
