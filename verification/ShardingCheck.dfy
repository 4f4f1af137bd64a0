/** The backup's re-check of a proposed sharding structure, and why it passes what a leader with the
    same view proposes. */
module ShardingCheck {
  import opened Wrappers
  import opened MultiSig
  import opened Numbers
  import opened PoWOrdering
  import opened Sharding

  /** What a backup knows: its own sorted list, every solution it received, and the solutions the leader
      attached, with those among them that it could verify. */
  datatype Validator = Validator(
    sorted: seq<Soln>, allPoWs: map<Point, nat>, fromLeader: map<Point, nat>, verified: set<Point>, mix: nat -> nat)
  {
    /** The solution of a proposed node, wherever it can be found. */
    function Result(k: Point): Option<nat> {
      var own := Find(sorted, k);
      if own.Some? then own
      else if k in allPoWs then Some(allPoWs[k])
      else if k in fromLeader && k in verified then Some(fromLeader[k])
      else None
    }
  }

  /** The first entry with a given key. */
  function Find(m: seq<Soln>, k: Point): Option<nat> {
    if m == [] then None else if m[0].key == k then Some(m[0].hash) else Find(m[1..], k)
  }

  lemma {:induction false} FindOf(m: seq<Soln>, i: nat)
    requires DistinctKeys(m) && i < |m|
    ensures Find(m, m[i].key) == Some(m[i].hash)
  {
    if i > 0 {
      assert m[0].key != m[i].key;
      assert m[1..][i - 1] == m[i];
      assert DistinctKeys(m[1..]);
      FindOf(m[1..], i - 1);
    }
  }

  /** Number of nodes counted as out of order, and whether the walk got to the end. */
  datatype Walk = Walk(misordered: nat, ok: bool)

  /** The walk over the proposed nodes: `vec` and `preVec` are the last hash in order and the one
      before it. An unknown or repeated key ends the walk. */
  function Scan(v: Validator, nodes: seq<Point>, seen: set<Point>, vec: nat, preVec: nat): Walk {
    if nodes == [] then Walk(0, true)
    else
      var result := v.Result(nodes[0]);
      if result.None? || nodes[0] in seen then Walk(0, false)
      else
        var hash := v.mix(result.value);
        if hash < vec then
          var rest := Scan(v, nodes[1..], seen + {nodes[0]}, preVec, preVec);
          rest.(misordered := rest.misordered + 1)
        else Scan(v, nodes[1..], seen + {nodes[0]}, hash, vec)
  }

  /** Every node is known, none repeats, and the mixed hashes do not descend. */
  ghost predicate InOrder(v: Validator, nodes: seq<Point>) {
    && (forall i :: 0 <= i < |nodes| ==> v.Result(nodes[i]).Some?)
    && (forall i, j :: 0 <= i < j < |nodes| ==>
          && v.Result(nodes[i]).Some? && v.Result(nodes[j]).Some?
          && nodes[i] != nodes[j] && v.mix(v.Result(nodes[i]).value) <= v.mix(v.Result(nodes[j]).value))
  }

  ghost predicate Fresh(v: Validator, nodes: seq<Point>, seen: set<Point>, vec: nat) {
    forall i :: 0 <= i < |nodes| ==> nodes[i] !in seen && v.Result(nodes[i]).Some? && vec <= v.mix(v.Result(nodes[i]).value)
  }

  lemma InOrderCons(v: Validator, nodes: seq<Point>, seen: set<Point>)
    requires nodes != [] && v.Result(nodes[0]).Some?
    ensures InOrder(v, nodes) && Fresh(v, nodes, seen, 0) <==>
              && nodes[0] !in seen && InOrder(v, nodes[1..])
              && Fresh(v, nodes[1..], seen + {nodes[0]}, v.mix(v.Result(nodes[0]).value))
  {
    var rest := nodes[1..];
    assert forall i :: 0 < i < |nodes| ==> nodes[i] == rest[i - 1];
    assert forall i :: 0 <= i < |rest| ==> rest[i] == nodes[i + 1];
  }

  /** The walk is clean, without a single misordered node, exactly for structures in order. */
  lemma {:induction false} CleanScan(v: Validator, nodes: seq<Point>, seen: set<Point>, vec: nat, preVec: nat)
    ensures Scan(v, nodes, seen, vec, preVec) == Walk(0, true) <==> InOrder(v, nodes) && Fresh(v, nodes, seen, vec)
    decreases |nodes|
  {
    if nodes != [] && v.Result(nodes[0]).Some? && nodes[0] !in seen {
      var hash := v.mix(v.Result(nodes[0]).value);
      if hash >= vec {
        CleanScan(v, nodes[1..], seen + {nodes[0]}, hash, vec);
        InOrderCons(v, nodes, seen);
      }
    }
  }

  // ---------- what a tolerated structure still guarantees

  /** All nodes known, none repeated and none seen before. */
  ghost predicate AllKnown(v: Validator, nodes: seq<Point>, seen: set<Point>) {
    && (forall i :: 0 <= i < |nodes| ==> v.Result(nodes[i]).Some? && nodes[i] !in seen)
    && (forall i, j :: 0 <= i < j < |nodes| ==> nodes[i] != nodes[j])
  }

  lemma {:induction false} ScanKnows(v: Validator, nodes: seq<Point>, seen: set<Point>, vec: nat, preVec: nat)
    requires Scan(v, nodes, seen, vec, preVec).ok
    ensures AllKnown(v, nodes, seen)
    decreases |nodes|
  {
    if nodes != [] {
      var hash := v.mix(v.Result(nodes[0]).value);
      if hash < vec {
        ScanKnows(v, nodes[1..], seen + {nodes[0]}, preVec, preVec);
      } else {
        ScanKnows(v, nodes[1..], seen + {nodes[0]}, hash, vec);
      }
      KnownCons(v, nodes, seen);
    }
  }

  lemma KnownCons(v: Validator, nodes: seq<Point>, seen: set<Point>)
    requires nodes != [] && v.Result(nodes[0]).Some? && nodes[0] !in seen && AllKnown(v, nodes[1..], seen + {nodes[0]})
    ensures AllKnown(v, nodes, seen)
  {
    assert forall i :: 0 < i < |nodes| ==> nodes[i] == nodes[1..][i - 1];
  }

  /** The part of a walk that stays in order. Each misordered node is left out, and so is the last node
      in order before it, to which the walk goes back; `last` tells whether the latter is kept. */
  datatype Kept = Kept(nodes: seq<Point>, last: bool)

  ghost function Keep(v: Validator, nodes: seq<Point>, vec: nat, preVec: nat): Kept
    requires forall i :: 0 <= i < |nodes| ==> v.Result(nodes[i]).Some?
  {
    if nodes == [] then Kept([], true)
    else
      var hash := v.mix(v.Result(nodes[0]).value);
      if hash < vec then Kept(Keep(v, nodes[1..], preVec, preVec).nodes, false)
      else
        var rest := Keep(v, nodes[1..], hash, vec);
        Kept((if rest.last then [nodes[0]] else []) + rest.nodes, true)
  }

  /** Hashes from `low` on that do not descend. */
  ghost predicate Climbs(v: Validator, nodes: seq<Point>, low: nat)
    decreases |nodes|
  {
    nodes == [] ||
    (v.Result(nodes[0]).Some? && low <= v.mix(v.Result(nodes[0]).value)
     && Climbs(v, nodes[1..], v.mix(v.Result(nodes[0]).value)))
  }

  lemma {:induction false} KeepClimbs(v: Validator, nodes: seq<Point>, seen: set<Point>, vec: nat, preVec: nat)
    requires Scan(v, nodes, seen, vec, preVec).ok && preVec <= vec
    requires forall i :: 0 <= i < |nodes| ==> v.Result(nodes[i]).Some?
    ensures var k := Keep(v, nodes, vec, preVec);
            && Climbs(v, k.nodes, if k.last then vec else preVec)
            && |k.nodes| + (if k.last then 1 else 0) + 2 * Scan(v, nodes, seen, vec, preVec).misordered >= |nodes| + 1
    decreases |nodes|
  {
    if nodes != [] {
      var hash := v.mix(v.Result(nodes[0]).value);
      if hash < vec {
        KeepClimbs(v, nodes[1..], seen + {nodes[0]}, preVec, preVec);
      } else {
        KeepClimbs(v, nodes[1..], seen + {nodes[0]}, hash, vec);
        var rest := Keep(v, nodes[1..], hash, vec);
        if rest.last {
          assert ([nodes[0]] + rest.nodes)[1..] == rest.nodes;
        } else {
          assert [] + rest.nodes == rest.nodes;
        }
      }
    }
  }

  lemma {:induction false} FindHas(m: seq<Soln>, k: Point)
    ensures Find(m, k).Some? <==> HasKey(m, k)
  {
    if m != [] {
      FindHas(m[1..], k);
      HasKeyCons(m[0], m[1..], k);
      assert m == [m[0]] + m[1..];
    }
  }

  /** Every node of a structure whose walk ends well is on this node's own list, or its solution was received, or
      it was attached by the leader and could be verified; and that solution is the one used. */
  lemma NodesAreGenuine(v: Validator, nodes: seq<Point>, i: nat)
    requires Scan(v, nodes, {}, 0, 0).ok && i < |nodes|
    ensures var k := nodes[i];
            || HasKey(v.sorted, k)
            || (k in v.allPoWs && v.Result(k) == Some(v.allPoWs[k]))
            || (k in v.fromLeader && k in v.verified && v.Result(k) == Some(v.fromLeader[k]))
  {
    ScanKnows(v, nodes, {}, 0, 0);
    FindHas(v.sorted, nodes[i]);
  }

  /** `part` is what is left of `nodes` when some are left out. */
  ghost predicate PartOf(part: seq<Point>, nodes: seq<Point>) {
    part == [] || (nodes != [] &&
      ((part[0] == nodes[0] && PartOf(part[1..], nodes[1..])) || PartOf(part, nodes[1..])))
  }

  lemma {:induction false} KeepIsPart(v: Validator, nodes: seq<Point>, vec: nat, preVec: nat)
    requires forall i :: 0 <= i < |nodes| ==> v.Result(nodes[i]).Some?
    ensures PartOf(Keep(v, nodes, vec, preVec).nodes, nodes)
    decreases |nodes|
  {
    if nodes != [] {
      var hash := v.mix(v.Result(nodes[0]).value);
      if hash < vec {
        KeepIsPart(v, nodes[1..], preVec, preVec);
      } else {
        KeepIsPart(v, nodes[1..], hash, vec);
        var rest := Keep(v, nodes[1..], hash, vec);
        if rest.last {
          assert ([nodes[0]] + rest.nodes)[1..] == rest.nodes;
        } else {
          assert [] + rest.nodes == rest.nodes;
        }
      }
    }
  }

  /** A structure whose walk ends well: all nodes are known and distinct, and leaving out at most two
      nodes for each misordered one leaves the rest in order. */
  ghost predicate NearlyInOrder(v: Validator, nodes: seq<Point>, misordered: nat) {
    AllKnown(v, nodes, {}) &&
    exists part :: PartOf(part, nodes) && Climbs(v, part, 0) && |part| + 2 * misordered >= |nodes|
  }

  lemma ToleratedScan(v: Validator, nodes: seq<Point>)
    requires Scan(v, nodes, {}, 0, 0).ok
    ensures NearlyInOrder(v, nodes, Scan(v, nodes, {}, 0, 0).misordered)
  {
    ScanKnows(v, nodes, {}, 0, 0);
    KeepClimbs(v, nodes, {}, 0, 0);
    KeepIsPart(v, nodes, 0, 0);
    var part := Keep(v, nodes, 0, 0).nodes;
    assert PartOf(part, nodes) && Climbs(v, part, 0);
  }

  lemma NearlyInOrderMore(v: Validator, nodes: seq<Point>, few: nat, many: nat)
    requires NearlyInOrder(v, nodes, few) && few <= many
    ensures NearlyInOrder(v, nodes, many)
  {
    var part :| PartOf(part, nodes) && Climbs(v, part, 0) && |part| + 2 * few >= |nodes|;
    assert |part| + 2 * many >= |nodes|;
  }

  /** Walks the shards one after the other. */
  method VerifyPoWOrdering(v: Validator, shards: seq<seq<Point>>, maxMisorder: nat) returns (ok: bool)
    ensures var w := Scan(v, Flatten(shards), {}, 0, 0);
            ok == (w.ok && w.misordered <= maxMisorder)
  {
    ghost var goal := Scan(v, Flatten(shards), {}, 0, 0);
    var vec, preVec, misordered: nat, ret := 0, 0, 0, true;
    var keyset: set<Point> := {};
    var i := 0;
    while i < |shards| && ret
      invariant 0 <= i <= |shards|
      invariant ret ==> Ahead(goal, misordered, Scan(v, Flatten(shards[i..]), keyset, vec, preVec))
      invariant !ret ==> goal == Walk(misordered, false)
    {
      assert shards[i..][1..] == shards[i + 1..];
      ret, vec, preVec, misordered, keyset :=
        VerifyShard(v, shards[i], Flatten(shards[i + 1..]), vec, preVec, misordered, keyset, goal);
      i := i + 1;
    }
    return ret && misordered <= maxMisorder;
  }

  /** The whole walk's outcome is what has been counted plus the outcome of the rest. */
  ghost predicate Ahead(goal: Walk, misordered: nat, rest: Walk) {
    goal == Walk(misordered + rest.misordered, rest.ok)
  }

  method VerifyShard(v: Validator, shard: seq<Point>, ghost later: seq<Point>, vec0: nat, preVec0: nat, misordered0: nat,
                     keyset0: set<Point>, ghost goal: Walk)
    returns (ret: bool, vec: nat, preVec: nat, misordered: nat, keyset: set<Point>)
    requires Ahead(goal, misordered0, Scan(v, shard + later, keyset0, vec0, preVec0))
    ensures ret ==> Ahead(goal, misordered, Scan(v, later, keyset, vec, preVec))
    ensures !ret ==> goal == Walk(misordered, false)
  {
    ret, vec, preVec, misordered, keyset := true, vec0, preVec0, misordered0, keyset0;
    var j := 0;
    assert shard[0..] == shard;
    while j < |shard|
      invariant 0 <= j <= |shard| && ret
      invariant Ahead(goal, misordered, Scan(v, shard[j..] + later, keyset, vec, preVec))
    {
      var k := shard[j];
      assert (shard[j..] + later)[0] == k && (shard[j..] + later)[1..] == shard[j + 1..] + later;
      var result := v.Result(k);
      if result.None? || k in keyset {
        ret := false;
        return;
      }
      keyset := keyset + {k};
      var hash := v.mix(result.value);
      if hash < vec {
        misordered := misordered + 1;
        vec := preVec;
      } else {
        preVec := vec;
        vec := hash;
      }
      j := j + 1;
    }
    assert shard[|shard|..] + later == later;
  }

  // ---------- leader and backup agree

  /** What determines a leader's proposal. */
  datatype View = View(
    pows: seq<Soln>, dsPows: seq<Soln>, trim: Trim, maxElected: nat,
    committee: seq<Member>, keyHash: Point -> nat, mix: nat -> nat)
  {
    ghost predicate Valid() {
      DistinctKeys(pows) && DistinctMembers(committee) && Outsiders(pows, committee)
    }
    function Winners(): seq<Soln> {
      var ds := Sorter(dsPows);
      ds[..Min(|ds|, maxElected)]
    }
    function Candidates(): seq<Soln> { Trimmed(Sorter(pows), trim) }

    /** The list the leader deals out: candidates without winners, plus the retiring members. */
    function LeaderList(): seq<Soln> {
      Inject(RemoveAll(Candidates(), Winners()), committee, |Winners()|, keyHash)
    }
    /** The list a backup with the same view looks nodes up in: it keeps the winners. */
    function BackupList(): seq<Soln> {
      Inject(Candidates(), committee, |Winners()|, keyHash)
    }
  }

  lemma CandidatesOf(w: View)
    requires w.Valid()
    ensures Ascending(w.Candidates()) && forall i :: 0 <= i < |w.Candidates()| ==> w.Candidates()[i] in w.pows
  {
    SorterAscending(w.pows);
    if w.Candidates() != [] {
      TrimmedOf(Sorter(w.pows), w.trim, w.Candidates()[0]);
    }
    forall i | 0 <= i < |w.Candidates()|
      ensures w.Candidates()[i] in w.pows
    {
      TrimmedOf(Sorter(w.pows), w.trim, w.Candidates()[i]);
      SorterOf(w.pows, w.Candidates()[i]);
    }
  }

  /** The two lists have distinct keys, and the backup's holds all of the leader's. */
  lemma ListsAgree(w: View)
    requires w.Valid()
    ensures DistinctKeys(w.LeaderList()) && DistinctKeys(w.BackupList())
    ensures forall i :: 0 <= i < |w.LeaderList()| ==> w.LeaderList()[i] in w.BackupList()
  {
    CandidatesOf(w);
    var all := w.Candidates();
    var rest := RemoveAll(all, w.Winners());
    if rest != [] {
      RemoveAllOf(all, w.Winners(), rest[0]);
    }
    forall i | 0 <= i < |rest|
      ensures rest[i] in all
    {
      RemoveAllOf(all, w.Winners(), rest[i]);
    }
    InjectDistinct(all, w.pows, w.committee, |w.Winners()|, w.keyHash);
    InjectDistinct(rest, w.pows, w.committee, |w.Winners()|, w.keyHash);
  }

  /** Each node of the leader's order is found by the backup with the hash it was ordered by. */
  lemma SameHash(w: View, v: Validator, i: nat)
    requires w.Valid() && v.sorted == w.BackupList() && v.mix == w.mix && i < |Mixed(w.LeaderList(), w.mix)|
    ensures var t := Mixed(w.LeaderList(), w.mix)[i];
            v.Result(t.key).Some? && v.mix(v.Result(t.key).value) == t.hash
  {
    ListsAgree(w);
    var t := Mixed(w.LeaderList(), w.mix)[i];
    MixedOf(w.LeaderList(), w.mix, t);
    var j :| 0 <= j < |w.LeaderList()| && t == Soln(w.mix(w.LeaderList()[j].hash), w.LeaderList()[j].key);
    assert w.LeaderList()[j] in w.BackupList();
    var k :| 0 <= k < |w.BackupList()| && w.BackupList()[k] == w.LeaderList()[j];
    FindOf(w.BackupList(), k);
  }

  /** Sharding agreement: for every set of solutions and all shard counts, a backup with the same
      solutions, committee and last block hash walks the leader's structure without one misordered,
      unknown or repeated node, whatever else it received. */
  lemma ShardingAgreement(w: View, v: Validator, counts: seq<nat>)
    requires w.Valid() && v.sorted == w.BackupList() && v.mix == w.mix
    ensures Scan(v, Flatten(Fill(Keys(Mixed(w.LeaderList(), w.mix)), counts)), {}, 0, 0) == Walk(0, true)
  {
    var sorted := Mixed(w.LeaderList(), w.mix);
    var nodes := Flatten(Fill(Keys(sorted), counts));
    FillIsPrefix(Keys(sorted), counts);
    ListsAgree(w);
    MixedDistinct(w.LeaderList(), w.mix);
    if sorted != [] {
      MixedOf(w.LeaderList(), w.mix, sorted[0]);
    }
    forall i | 0 <= i < |nodes| {
      SameHash(w, v, i);
    }
    assert forall i :: 0 <= i < |nodes| ==> nodes[i] == sorted[i].key;
    CleanScan(v, nodes, {}, 0, 0);
  }

  /** The elected are those with the smallest hashes, as many as may be elected. */
  lemma WinnersAreLeast(w: View, s: Soln, t: Soln)
    requires s in w.Winners() && Survives(w.dsPows, t) && t !in w.Winners()
    ensures Survives(w.dsPows, s) && s.hash < t.hash && |w.Winners()| == w.maxElected
  {
    SorterOf(w.dsPows, s);
    SorterOf(w.dsPows, t);
    SorterAscending(w.dsPows);
    PrefixIsLeast(Sorter(w.dsPows), |w.Winners()|, s, t);
  }

  /** A candidate is on the list that is dealt out exactly if it was not elected. */
  lemma OthersAreListed(w: View, s: Soln)
    requires w.Valid() && s in w.Candidates()
    ensures s in w.LeaderList() <==> s !in w.Winners()
  {
    CandidatesOf(w);
    var rest := RemoveAll(w.Candidates(), w.Winners());
    RemoveAllOf(w.Candidates(), w.Winners(), s);
    if s in rest {
      var i :| 0 <= i < |rest| && rest[i] == s;
      assert w.LeaderList()[i] == s;
    }
  }

  /** The retiring members are dealt out with the others: each is on the leader's list. */
  lemma RetiringAreListed(w: View, i: nat)
    requires w.Valid() && |w.Winners()| <= |w.committee| && i < |w.Winners()|
    ensures HasKey(w.LeaderList(), w.committee[|w.committee| - 1 - i].key)
  {
    var rest := RemoveAll(w.Candidates(), w.Winners());
    assert w.LeaderList()[|rest| + i].key == w.committee[|w.committee| - 1 - i].key;
  }

  // ---------- both sides as they are carried out

  /** The addresses of all submitters are known, and the own committee entry alone is blank. */
  ghost predicate Reachable(w: View, conns: map<Point, nat>, selfKey: Point) {
    && (forall i :: 0 <= i < |w.pows| ==> w.pows[i].key in conns)
    && (forall i :: 0 <= i < |w.committee| && w.committee[i].peer == BLANK_PEER ==> w.committee[i].key == selfKey)
  }

  lemma StillOutsiders(w: View, m: seq<Soln>)
    requires w.Valid() && forall i :: 0 <= i < |m| ==> m[i] in w.pows
    ensures Outsiders(m, w.committee)
  {
    forall i, j | 0 <= i < |m| && 0 <= j < |w.committee|
      ensures m[i].key != w.committee[j].key
    {
      var k :| 0 <= k < |w.pows| && w.pows[k] == m[i];
    }
  }

  lemma RestInPows(w: View)
    requires w.Valid()
    ensures var rest := RemoveAll(w.Candidates(), w.Winners());
            forall i :: 0 <= i < |rest| ==> rest[i] in w.pows
  {
    CandidatesOf(w);
    var rest := RemoveAll(w.Candidates(), w.Winners());
    forall i | 0 <= i < |rest|
      ensures rest[i] in w.pows
    {
      RemoveAllOf(w.Candidates(), w.Winners(), rest[i]);
      var k :| 0 <= k < |w.Candidates()| && w.Candidates()[k] == rest[i];
    }
  }

  /** The leader: sort, elect, inject the retiring members, deal out. */
  method ProposeSharding(w: View, st: ShardingStructure, size: ShardSize, maxNodes: nat, selfKey: Point, selfPeer: nat)
    returns (winners: seq<Soln>, ghost counts: seq<nat>)
    requires w.Valid() && Reachable(w, st.allPoWConns, selfKey) && size.Valid() && size.lo < size.target
    modifies st
    ensures winners == w.Winners()
    ensures st.shards == Fill(Keys(Mixed(w.LeaderList(), w.mix)), counts) && Inverse(st.shards, st.keyToShard)
  {
    var sortedDS := SortPoWSoln(w.dsPows, NoTrim);
    var sorted := SortPoWSoln(w.pows, w.trim);
    var rest;
    winners, rest := ElectWinners(sortedDS, sorted, w.maxElected);
    RestInPows(w);
    StillOutsiders(w, rest);
    ghost var conns := st.allPoWConns;
    var all := st.InjectPoWForDSNode(rest, w.committee, |winners|, w.keyHash, selfKey, selfPeer);
    ListsAgree(w);
    AllReachable(w, rest, all, conns, st.allPoWConns);
    counts := st.ComputeSharding(all, size, maxNodes, w.mix);
  }

  lemma AllReachable(w: View, rest: seq<Soln>, all: seq<Soln>, before: map<Point, nat>, after: map<Point, nat>)
    requires forall i :: 0 <= i < |w.pows| ==> w.pows[i].key in before
    requires forall k :: k in before ==> k in after
    requires |rest| <= |all| && (forall i :: 0 <= i < |rest| ==> rest[i] in w.pows && all[i] == rest[i])
    requires forall i :: |rest| <= i < |all| ==> all[i].key in after
    ensures forall i :: 0 <= i < |all| ==> all[i].key in after
  {
    forall i | 0 <= i < |rest|
      ensures all[i].key in after
    {
      assert rest[i] in w.pows;
      var k :| 0 <= k < |w.pows| && w.pows[k] == rest[i];
      assert w.pows[k].key in before;
    }
  }

  /** The backup: sort the same way, inject as many retiring members as the block names winners, walk.
      It accepts whatever a leader with its view proposes, with any tolerance. */
  method ValidateSharding(w: View, st: ShardingStructure, shards: seq<seq<Point>>, numWinners: nat, selfKey: Point, selfPeer: nat,
                          allPoWs: map<Point, nat>, fromLeader: map<Point, nat>, verified: set<Point>, maxMisorder: nat)
    returns (ok: bool)
    requires w.Valid() && Reachable(w, st.allPoWConns, selfKey) && numWinners == |w.Winners()|
    modifies st
    ensures (exists counts :: shards == Fill(Keys(Mixed(w.LeaderList(), w.mix)), counts)) ==> ok
    ensures ok && maxMisorder == 0 ==> InOrder(Validator(w.BackupList(), allPoWs, fromLeader, verified, w.mix), Flatten(shards))
    ensures ok ==> NearlyInOrder(Validator(w.BackupList(), allPoWs, fromLeader, verified, w.mix), Flatten(shards), maxMisorder)
  {
    var sorted := SortPoWSoln(w.pows, w.trim);
    CandidatesOf(w);
    StillOutsiders(w, sorted);
    var all := st.InjectPoWForDSNode(sorted, w.committee, numWinners, w.keyHash, selfKey, selfPeer);
    var v := Validator(all, allPoWs, fromLeader, verified, w.mix);
    ok := VerifyPoWOrdering(v, shards, maxMisorder);
    if counts :| shards == Fill(Keys(Mixed(w.LeaderList(), w.mix)), counts) {
      ShardingAgreement(w, v, counts);
    }
    CleanScan(v, Flatten(shards), {}, 0, 0);
    if ok {
      ToleratedScan(v, Flatten(shards));
      NearlyInOrderMore(v, Flatten(shards), Scan(v, Flatten(shards), {}, 0, 0).misordered, maxMisorder);
    }
  }
}
