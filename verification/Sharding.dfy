/** Building the shards of the next DS epoch from the ordered solutions, and the re-check of that
    structure by a backup. */
module Sharding {
  import opened MultiSig
  import opened Numbers
  import opened PoWOrdering

  /** A committee member and its address; the node's own entry carries the blank address. */
  datatype Member = Member(key: Point, peer: nat)
  const BLANK_PEER: nat := 0

  // ---------- key bookkeeping

  ghost predicate DistinctMembers(c: seq<Member>) {
    forall i, j :: 0 <= i < j < |c| ==> c[i].key != c[j].key
  }

  function Keys(m: seq<Soln>): (r: seq<Point>)
    ensures |r| == |m| && forall i :: 0 <= i < |m| ==> r[i] == m[i].key
  {
    seq(|m|, i requires 0 <= i < |m| => m[i].key)
  }

  /** In an ordered map a hash identifies its entry, so a part of a list with distinct keys has them too. */
  lemma PartDistinct(part: seq<Soln>, m: seq<Soln>)
    requires Ascending(part) && DistinctKeys(m) && forall i :: 0 <= i < |part| ==> part[i] in m
    ensures DistinctKeys(part)
  {
    forall i, j | 0 <= i < j < |part|
      ensures part[i].key != part[j].key
    {
      assert part[i] in m && part[j] in m && part[i].hash < part[j].hash;
    }
  }

  lemma {:induction false} PutKeys(m: seq<Soln>, s: Soln, replace: bool, k: Point)
    ensures HasKey(Put(m, s, replace), k) ==> HasKey(m, k) || s.key == k
  {
    if m == [] || s.hash < m[0].hash {
      HasKeyCons(s, m, k);
    } else if s.hash == m[0].hash {
      HasKeyCons(s, m[1..], k);
      HasKeyCons(m[0], m[1..], k);
      assert m == [m[0]] + m[1..];
    } else {
      PutKeys(m[1..], s, replace, k);
      HasKeyCons(m[0], Put(m[1..], s, replace), k);
      HasKeyCons(m[0], m[1..], k);
      assert m == [m[0]] + m[1..];
    }
  }

  lemma HasKeyCons(s: Soln, m: seq<Soln>, k: Point)
    ensures HasKey([s] + m, k) <==> s.key == k || HasKey(m, k)
  {
    if HasKey(m, k) {
      var i :| 0 <= i < |m| && m[i].key == k;
      assert ([s] + m)[i + 1].key == k;
    }
    if s.key == k {
      assert ([s] + m)[0].key == k;
    }
  }

  lemma DistinctCons(s: Soln, m: seq<Soln>)
    ensures DistinctKeys([s] + m) <==> !HasKey(m, s.key) && DistinctKeys(m)
  {
    var all := [s] + m;
    if DistinctKeys(all) {
      forall i | 0 <= i < |m|
        ensures m[i].key != s.key
      {
        assert all[0].key != all[i + 1].key;
      }
      forall i, j | 0 <= i < j < |m|
        ensures m[i].key != m[j].key
      {
        assert all[i + 1].key != all[j + 1].key;
      }
    }
  }

  lemma {:induction false} PutDistinct(m: seq<Soln>, s: Soln, replace: bool)
    requires DistinctKeys(m) && !HasKey(m, s.key)
    ensures DistinctKeys(Put(m, s, replace))
  {
    if m == [] || s.hash < m[0].hash {
      DistinctCons(s, m);
    } else {
      var rest := m[1..];
      assert m == [m[0]] + rest;
      DistinctCons(m[0], rest);
      HasKeyCons(m[0], rest, s.key);
      if s.hash == m[0].hash {
        DistinctCons(s, rest);
      } else {
        PutDistinct(rest, s, replace);
        PutKeys(rest, s, replace, m[0].key);
        DistinctCons(m[0], Put(rest, s, replace));
      }
    }
  }

  // ---------- the leader's list

  /** Takes every copy of one solution out. */
  function Remove(m: seq<Soln>, s: Soln): seq<Soln> {
    if m == [] then [] else (if m[0] == s then [] else [m[0]]) + Remove(m[1..], s)
  }

  function RemoveAll(m: seq<Soln>, winners: seq<Soln>): seq<Soln> {
    if winners == [] then m else Remove(RemoveAll(m, winners[..|winners| - 1]), winners[|winners| - 1])
  }

  lemma {:induction false} RemoveOf(m: seq<Soln>, s: Soln, t: Soln, h: nat)
    requires Ascending(m)
    ensures Ascending(Remove(m, s))
    ensures t in Remove(m, s) <==> t in m && t != s
    ensures Above(m, h) ==> Above(Remove(m, s), h)
    decreases m
  {
    if m != [] {
      AscendingRest(m);
      assert t in m <==> t == m[0] || t in m[1..];
      RemoveOf(m[1..], s, t, h);
      RemoveOf(m[1..], s, t, m[0].hash);
      Prepend(m[0], Remove(m[1..], s));
    }
  }

  lemma {:induction false} RemoveAllOf(m: seq<Soln>, winners: seq<Soln>, t: Soln)
    requires Ascending(m)
    ensures Ascending(RemoveAll(m, winners))
    ensures t in RemoveAll(m, winners) <==> t in m && t !in winners
  {
    if winners != [] {
      var init, last := winners[..|winners| - 1], winners[|winners| - 1];
      assert winners == init + [last];
      RemoveAllOf(m, init, t);
      RemoveOf(RemoveAll(m, init), last, t, 0);
    }
  }

  /** The first solutions by DS difficulty win a committee seat and leave the sharding list. */
  method ElectWinners(sortedDS: seq<Soln>, sorted: seq<Soln>, maxElected: nat) returns (winners: seq<Soln>, rest: seq<Soln>)
    ensures winners == sortedDS[..Min(|sortedDS|, maxElected)]
    ensures rest == RemoveAll(sorted, winners)
  {
    var elected := Min(|sortedDS|, maxElected);
    winners, rest := [], sorted;
    var counter := 0;
    while counter < |sortedDS| && counter < elected
      invariant 0 <= counter <= elected && winners == sortedDS[..counter]
      invariant rest == RemoveAll(sorted, winners)
    {
      assert (winners + [sortedDS[counter]])[..|winners|] == winners;
      winners := winners + [sortedDS[counter]];
      rest := Remove(rest, sortedDS[counter]);
      counter := counter + 1;
    }
  }

  /** The `w` members at the back of the committee, last one first. */
  function Oldest(c: seq<Member>, w: nat): (r: seq<Member>)
    requires w <= |c|
    ensures |r| == w && forall i :: 0 <= i < w ==> r[i] == c[|c| - 1 - i]
  {
    seq(w, i requires 0 <= i < w => c[|c| - 1 - i])
  }

  function Injected(ms: seq<Member>, keyHash: Point -> nat): (r: seq<Soln>)
    ensures |r| == |ms| && forall i :: 0 <= i < |ms| ==> r[i] == Soln(keyHash(ms[i].key), ms[i].key)
  {
    seq(|ms|, i requires 0 <= i < |ms| => Soln(keyHash(ms[i].key), ms[i].key))
  }

  function Inject(m: seq<Soln>, c: seq<Member>, w: nat, keyHash: Point -> nat): seq<Soln> {
    if w > |c| then m else m + Injected(Oldest(c, w), keyHash)
  }

  /** No committee member has submitted a solution. */
  ghost predicate Outsiders(pows: seq<Soln>, c: seq<Member>) {
    forall i, j :: 0 <= i < |pows| && 0 <= j < |c| ==> pows[i].key != c[j].key
  }

  lemma InjectDistinct(m: seq<Soln>, pows: seq<Soln>, c: seq<Member>, w: nat, keyHash: Point -> nat)
    requires Ascending(m) && DistinctKeys(pows) && (forall i :: 0 <= i < |m| ==> m[i] in pows)
    requires DistinctMembers(c) && Outsiders(pows, c)
    ensures DistinctKeys(Inject(m, c, w, keyHash))
  {
    PartDistinct(m, pows);
    if w <= |c| {
      var r := Inject(m, c, w, keyHash);
      forall i, j | 0 <= i < j < |r|
        ensures r[i].key != r[j].key
      {
        if i < |m| <= j {
          assert m[i] in pows;
          assert r[j].key == c[|c| - 1 - (j - |m|)].key;
        } else if |m| <= i {
          assert r[i].key == c[|c| - 1 - (i - |m|)].key && r[j].key == c[|c| - 1 - (j - |m|)].key;
        }
      }
    }
  }

  // ---------- distributing

  /** Ordered by the hash that mixes in the last block; of two equal hashes the first stays. */
  function Mixed(m: seq<Soln>, mix: nat -> nat): seq<Soln> {
    if m == [] then [] else Put(Mixed(m[..|m| - 1], mix), Soln(mix(m[|m| - 1].hash), m[|m| - 1].key), false)
  }

  lemma {:induction false} MixedOf(m: seq<Soln>, mix: nat -> nat, t: Soln)
    ensures Ascending(Mixed(m, mix))
    ensures t in Mixed(m, mix) ==> exists i :: 0 <= i < |m| && t == Soln(mix(m[i].hash), m[i].key)
  {
    if m != [] {
      var init, last := m[..|m| - 1], m[|m| - 1];
      MixedOf(init, mix, t);
      PutAscending(Mixed(init, mix), Soln(mix(last.hash), last.key), false);
      PutMember(Mixed(init, mix), Soln(mix(last.hash), last.key), false, t);
      if t in Mixed(init, mix) {
        var i :| 0 <= i < |init| && t == Soln(mix(init[i].hash), init[i].key);
        assert m[i] == init[i];
      }
    }
  }

  /** No entry before number `i` has its mixed hash. */
  ghost predicate FirstWithHash(m: seq<Soln>, mix: nat -> nat, i: nat)
    requires i < |m|
  {
    forall j :: 0 <= j < i ==> mix(m[j].hash) != mix(m[i].hash)
  }

  lemma {:induction false} MixedHash(m: seq<Soln>, mix: nat -> nat, h: nat)
    ensures HasHash(Mixed(m, mix), h) <==> exists i :: 0 <= i < |m| && mix(m[i].hash) == h
  {
    if m != [] {
      var init, last := m[..|m| - 1], m[|m| - 1];
      var s := Soln(mix(last.hash), last.key);
      MixedHash(init, mix, h);
      MixedHash(init, mix, s.hash);
      PutHashes(Mixed(init, mix), s, h);
      assert m == init + [last];
      if i :| 0 <= i < |init| && mix(init[i].hash) == h {
        assert mix(m[i].hash) == h;
      }
    }
  }

  lemma {:induction false} PutHashes(m: seq<Soln>, s: Soln, h: nat)
    ensures HasHash(Put(m, s, false), h) <==> HasHash(m, h) || s.hash == h
  {
    if m == [] || s.hash < m[0].hash {
      HasHashCons([s] + m, h);
      assert ([s] + m)[1..] == m;
    } else {
      HasHashCons(m, h);
      if s.hash != m[0].hash {
        PutHashes(m[1..], s, h);
        HasHashCons(Put(m, s, false), h);
        assert Put(m, s, false)[1..] == Put(m[1..], s, false);
      }
    }
  }

  /** Nobody is lost in the ordering: entry `i` is in the ordered list, under its own key, exactly if no
      earlier entry has the same mixed hash. */
  lemma {:induction false} MixedExactly(m: seq<Soln>, mix: nat -> nat, i: nat)
    requires DistinctKeys(m) && i < |m|
    ensures Soln(mix(m[i].hash), m[i].key) in Mixed(m, mix) <==> FirstWithHash(m, mix, i)
  {
    var n := |m| - 1;
    var init, last := m[..n], m[n];
    var s, t := Soln(mix(last.hash), last.key), Soln(mix(m[i].hash), m[i].key);
    MixedOf(init, mix, t);
    PutMember(Mixed(init, mix), s, false, t);
    if i < n {
      MixedExactly(init, mix, i);
      assert t != s && m[i] == init[i];
      assert FirstWithHash(init, mix, i) <==> FirstWithHash(m, mix, i);
    } else {
      MixedHash(init, mix, s.hash);
      assert forall j :: 0 <= j < n ==> init[j] == m[j];
      assert t !in Mixed(init, mix);
    }
  }

  lemma {:induction false} MixedDistinct(m: seq<Soln>, mix: nat -> nat)
    requires DistinctKeys(m)
    ensures DistinctKeys(Mixed(m, mix))
    ensures forall k :: HasKey(Mixed(m, mix), k) ==> HasKey(m, k)
  {
    if m != [] {
      var init, last := m[..|m| - 1], m[|m| - 1];
      MixedDistinct(init, mix);
      assert !HasKey(init, last.key);
      PutDistinct(Mixed(init, mix), Soln(mix(last.hash), last.key), false);
      forall k | HasKey(Mixed(m, mix), k)
        ensures HasKey(m, k)
      {
        PutKeys(Mixed(init, mix), Soln(mix(last.hash), last.key), false, k);
        if HasKey(init, k) {
          var i :| 0 <= i < |init| && init[i].key == k;
          assert m[i].key == k;
        } else {
          assert m[|m| - 1].key == k;
        }
      }
    }
  }

  /** First the first shard is filled up, then the second, and so on. */
  function Fill(keys: seq<Point>, counts: seq<nat>): (shards: seq<seq<Point>>)
    ensures |shards| == |counts|
    decreases counts
  {
    if counts == [] then []
    else [keys[..Min(counts[0], |keys|)]] + Fill(keys[Min(counts[0], |keys|)..], counts[1..])
  }

  function Flatten(shards: seq<seq<Point>>): seq<Point> {
    if shards == [] then [] else shards[0] + Flatten(shards[1..])
  }

  /** The shards, read in order, are a prefix of the list: all of it, or as much as there is room for. */
  lemma {:induction false} FillIsPrefix(keys: seq<Point>, counts: seq<nat>)
    ensures Flatten(Fill(keys, counts)) == keys[..Min(Sum(counts), |keys|)]
    decreases counts
  {
    if counts != [] {
      var n := Min(counts[0], |keys|);
      FillIsPrefix(keys[n..], counts[1..]);
      assert Fill(keys, counts)[1..] == Fill(keys[n..], counts[1..]);
      JoinPrefixes(keys, n, Min(Sum(counts[1..]), |keys| - n));
    }
  }

  lemma JoinPrefixes(keys: seq<Point>, n: nat, m: nat)
    requires n + m <= |keys|
    ensures keys[..n] + keys[n..][..m] == keys[..n + m]
  {
  }

  /** No shard exceeds its count, and a shard is begun only when all before it are full. */
  lemma {:induction false} FillSizes(keys: seq<Point>, counts: seq<nat>, i: nat, j: nat)
    requires i <= j < |counts|
    ensures |Fill(keys, counts)[j]| <= counts[j]
    ensures i < j && Fill(keys, counts)[j] != [] ==> |Fill(keys, counts)[i]| == counts[i]
    decreases counts
  {
    var n := Min(counts[0], |keys|);
    if j > 0 {
      FillSizes(keys[n..], counts[1..], if i > 0 then i - 1 else 0, j - 1);
      if i == 0 && n < counts[0] {
        FillNothing(counts[1..]);
      }
    }
  }

  lemma {:induction false} FillNothing(counts: seq<nat>)
    ensures forall i :: 0 <= i < |counts| ==> Fill([], counts)[i] == []
  {
    if counts != [] {
      FillNothing(counts[1..]);
    }
  }

  /** The place where the next node goes. */
  ghost predicate Frontier(shards: seq<seq<Point>>, counts: seq<nat>, idx: nat) {
    && |shards| == |counts| && idx < |counts| && |shards[idx]| <= counts[idx]
    && (forall i :: 0 <= i < idx ==> |shards[i]| == counts[i])
    && (forall i :: idx < i < |counts| ==> shards[i] == [])
  }

  lemma {:induction false} FillAppend(keys: seq<Point>, counts: seq<nat>, idx: nat, k: Point)
    requires Frontier(Fill(keys, counts), counts, idx) && |Fill(keys, counts)[idx]| < counts[idx]
    ensures Fill(keys + [k], counts) == Fill(keys, counts)[idx := Fill(keys, counts)[idx] + [k]]
    decreases counts
  {
    var n := Min(counts[0], |keys|);
    var shards := Fill(keys, counts);
    if idx == 0 {
      assert n == |keys| && Min(counts[0], |keys + [k]|) == n + 1;
      assert keys[..n] == keys && (keys + [k])[..n + 1] == keys + [k];
      assert keys[n..] == [] && (keys + [k])[n + 1..] == [];
      assert Fill(keys + [k], counts) == [keys + [k]] + Fill([], counts[1..]);
    } else {
      assert |shards[0]| == counts[0];
      assert (keys + [k])[..n] == keys[..n] && (keys + [k])[n..] == keys[n..] + [k];
      assert Frontier(Fill(keys[n..], counts[1..]), counts[1..], idx - 1) by {
        forall i | 0 <= i < |counts| - 1
          ensures Fill(keys[n..], counts[1..])[i] == shards[i + 1]
        {
        }
      }
      FillAppend(keys[n..], counts[1..], idx - 1, k);
    }
  }

  /** When every shard is full, further nodes change nothing. */
  lemma {:induction false} FillFull(keys: seq<Point>, more: seq<Point>, counts: seq<nat>)
    requires forall i :: 0 <= i < |counts| ==> |Fill(keys, counts)[i]| == counts[i]
    ensures Fill(keys + more, counts) == Fill(keys, counts)
    decreases counts
  {
    if counts != [] {
      var n := Min(counts[0], |keys|);
      assert |Fill(keys, counts)[0]| == counts[0];
      assert (keys + more)[..n] == keys[..n] && (keys + more)[n..] == keys[n..] + more;
      forall i | 0 <= i < |counts| - 1
        ensures |Fill(keys[n..], counts[1..])[i]| == counts[1..][i]
      {
        assert Fill(keys[n..], counts[1..])[i] == Fill(keys, counts)[i + 1];
      }
      FillFull(keys[n..], more, counts[1..]);
    }
  }

  // ---------- shard sizes

  /** The wanted shard size and how far a shard may fall short of it or exceed it. */
  datatype ShardSize = ShardSize(target: nat, lo: nat, hi: nat) {
    predicate Valid() { target > 0 && lo < MAX32 }

    /** The fewest nodes a shard may have, in unsigned 32-bit arithmetic. */
    function Least(): nat { if lo <= target then target - lo else (target - lo) % MAX32 }
  }

  /** No shard exceeds its tolerance or, unless that exceeds the target size, falls short of it; no more
      nodes are placed than there are; and there is no shard only when the nodes do not suffice for one. */
  ghost predicate CountsFit(counts: seq<nat>, size: ShardSize, n: nat) {
    && (forall i :: 0 <= i < |counts| ==> size.target - size.lo <= counts[i] <= size.target + size.hi)
    && Sum(counts) <= n
    && (counts == [] <==> n < size.Least())
    && (counts != [] ==> size.target > 0 && CountsUse(counts, size, n))
  }

  /** As many shards of the target size as the nodes fill, and one more if the rest suffices for it. Nodes are
      left out only when every shard is as large as it may be, and shards grow from the first on. */
  ghost predicate CountsUse(counts: seq<nat>, size: ShardSize, n: nat)
    requires size.target > 0
  {
    && |counts| == n / size.target + (if n % size.target >= size.Least() then 1 else 0)
    && (Sum(counts) < n ==> forall i :: 0 <= i < |counts| ==> counts[i] == size.target + size.hi)
    && (forall i, j :: 0 <= i < j < |counts| && counts[j] > size.target ==> counts[i] == size.target + size.hi)
    && (forall i :: 0 <= i < |counts| - 1 ==> counts[i] >= size.target)
  }

  lemma {:induction false} SumUpdate(counts: seq<nat>, i: nat, v: nat)
    requires i < |counts|
    ensures Sum(counts[i := v]) == Sum(counts) - counts[i] + v
  {
    if i == 0 {
      assert counts[i := v][1..] == counts[1..];
    } else {
      assert counts[i := v][1..] == counts[1..][i - 1 := v];
      SumUpdate(counts[1..], i - 1, v);
    }
  }

  lemma {:induction false} SumAppend(counts: seq<nat>, v: nat)
    ensures Sum(counts + [v]) == Sum(counts) + v
  {
    if counts != [] {
      assert (counts + [v])[1..] == counts[1..] + [v];
      SumAppend(counts[1..], v);
    } else {
      assert [v][1..] == [];
    }
  }

  lemma {:induction false} SumSame(k: nat, v: nat)
    ensures Sum(seq(k, _ => v)) == k * v
  {
    if k > 0 {
      assert seq(k, _ => v)[1..] == seq(k - 1, _ => v);
      SumSame(k - 1, v);
    }
  }

  /** Full shards first; what remains forms a shard of its own if large enough, and is otherwise
      spread over the full ones as far as they may grow. */
  method GenerateShardCounts(size: ShardSize, n: nat) returns (counts: seq<nat>)
    requires size.Valid()
    ensures CountsFit(counts, size, n)
  {
    var least := size.Least();
    if n < least {
      return [];
    }
    var complete, left := FullShards(size, n);
    if complete == 0 {
      SumAppend([], left);
      return [left];
    }
    counts := seq(complete, _ => size.target);
    if left < least {
      counts := SpreadOver(counts, left, size, n);
    } else {
      SumAppend(counts, left);
      counts := counts + [left];
    }
  }

  method FullShards(size: ShardSize, n: nat) returns (complete: nat, left: nat)
    requires size.target > 0
    ensures Sum(seq(complete, _ => size.target)) + left == n && left < size.target
    ensures complete == n / size.target && left == n % size.target
    ensures complete == 0 ==> left == n
    ensures complete > 0 ==> n >= size.target
  {
    complete := n / size.target;
    left := n - complete * size.target;
    SumSame(complete, size.target);
  }

  method SpreadOver(full: seq<nat>, unsharded: nat, size: ShardSize, ghost n: nat) returns (counts: seq<nat>)
    requires full != [] && Sum(full) + unsharded == n >= size.Least() && size.target > 0
    requires |full| == n / size.target && n % size.target < size.Least()
    requires forall i :: 0 <= i < |full| ==> full[i] == size.target
    ensures CountsFit(counts, size, n)
  {
    counts := full;
    var left := unsharded;
    var i := 0;
    while i < |counts| && left > 0
      invariant 0 <= i <= |counts| == |full| && Sum(counts) + left == n
      invariant forall j :: 0 <= j < |counts| ==> size.target <= counts[j] <= size.target + size.hi
      invariant forall j :: i <= j < |counts| ==> counts[j] == size.target
      invariant forall j :: 0 <= j < i - 1 || (0 <= j < i && left > 0) ==> counts[j] == size.target + size.hi
    {
      var add := Min(size.target + size.hi - counts[i], left);
      SumUpdate(counts, i, counts[i] + add);
      counts := counts[i := counts[i] + add];
      left := left - add;
      i := i + 1;
    }
  }

  /** The map gives a key's shard, for exactly the keys that are in one. */
  ghost predicate Inverse(shards: seq<seq<Point>>, keyToShard: map<Point, nat>) {
    && (forall i, k :: 0 <= i < |shards| && k in shards[i] ==> k in keyToShard && keyToShard[k] == i)
    && (forall k :: k in keyToShard ==> keyToShard[k] < |shards| && k in shards[keyToShard[k]])
  }

  lemma InverseAppend(shards: seq<seq<Point>>, keyToShard: map<Point, nat>, idx: nat, k: Point)
    requires Inverse(shards, keyToShard) && idx < |shards| && k !in keyToShard
    ensures Inverse(shards[idx := shards[idx] + [k]], keyToShard[k := idx])
  {
  }

  /** What is left of the current shard's count; earlier shards are full, later ones untouched. */
  ghost predicate Room(remaining: seq<nat>, shards: seq<seq<Point>>, counts: seq<nat>, idx: nat) {
    && Frontier(shards, counts, idx)
    && |remaining| == |counts| && remaining[idx] == counts[idx] - |shards[idx]|
    && forall j :: idx < j < |counts| ==> remaining[j] == counts[j]
  }

  /** Only keys before number `i` have been placed. */
  ghost predicate OnlyKeys(keyToShard: map<Point, nat>, keys: seq<Point>, i: nat) {
    i <= |keys| && forall k :: k in keyToShard ==> k in keys[..i]
  }

  /** The first `i` nodes have been dealt out. */
  ghost predicate Dealt(shards: seq<seq<Point>>, keyToShard: map<Point, nat>, keys: seq<Point>, i: nat, counts: seq<nat>) {
    && OnlyKeys(keyToShard, keys, i)
    && shards == Fill(keys[..i], counts)
    && Inverse(shards, keyToShard)
  }

  lemma DealtAll(shards: seq<seq<Point>>, keyToShard: map<Point, nat>, keys: seq<Point>, i: nat, counts: seq<nat>)
    requires Dealt(shards, keyToShard, keys, i, counts)
    requires i == |keys| || forall j :: 0 <= j < |counts| ==> |shards[j]| == counts[j]
    ensures shards == Fill(keys, counts) && Inverse(shards, keyToShard)
  {
    assert keys[..|keys|] == keys;
    if i < |keys| {
      FillFull(keys[..i], keys[i..], counts);
      assert keys[..i] + keys[i..] == keys;
    }
  }

  lemma NotYetPlaced(keyToShard: map<Point, nat>, keys: seq<Point>, i: nat, idx: nat)
    requires OnlyKeys(keyToShard, keys, i) && i < |keys|
    requires forall a, b :: 0 <= a < b < |keys| ==> keys[a] != keys[b]
    ensures keys[i] !in keyToShard && OnlyKeys(keyToShard[keys[i] := idx], keys, i + 1)
  {
    assert keys[..i + 1] == keys[..i] + [keys[i]];
  }

  class ShardingStructure {
    var shards: seq<seq<Point>>
    var keyToShard: map<Point, nat>
    var allPoWConns: map<Point, nat>

    constructor ()
      ensures shards == [] && keyToShard == map[] && allPoWConns == map[]
    {
      shards, keyToShard, allPoWConns := [], map[], map[];
    }

    /** Appends the committee's oldest members as if they had submitted solutions. */
    method InjectPoWForDSNode(m: seq<Soln>, c: seq<Member>, w: nat, keyHash: Point -> nat, selfKey: Point, selfPeer: nat)
      returns (r: seq<Soln>)
      requires DistinctMembers(c) && Outsiders(m, c)
      requires forall i :: 0 <= i < |c| && c[i].peer == BLANK_PEER ==> c[i].key == selfKey
      modifies this`allPoWConns
      ensures r == Inject(m, c, w, keyHash)
      ensures forall k :: k in old(allPoWConns) ==> k in allPoWConns && allPoWConns[k] == old(allPoWConns)[k]
      ensures forall i :: |m| <= i < |r| ==> r[i].key in allPoWConns
    {
      r := m;
      if w > |c| {
        return;
      }
      ghost var extra := Injected(Oldest(c, w), keyHash);
      var i := 0;
      while i < w
        invariant 0 <= i <= w && r == m + extra[..i]
        invariant forall k :: k in old(allPoWConns) ==> k in allPoWConns && allPoWConns[k] == old(allPoWConns)[k]
        invariant forall j :: 0 <= j < i ==> extra[j].key in allPoWConns
      {
        var member := c[|c| - 1 - i];
        r := r + [Soln(keyHash(member.key), member.key)];
        if member.peer == BLANK_PEER {
          AddConnection(selfKey, selfPeer);
        } else {
          AddConnection(member.key, member.peer);
        }
        i := i + 1;
      }
      assert extra[..w] == extra;
    }

    /** An address already known is kept. */
    method AddConnection(k: Point, peer: nat)
      modifies this`allPoWConns
      ensures allPoWConns == if k in old(allPoWConns) then old(allPoWConns) else old(allPoWConns)[k := peer]
    {
      if k !in allPoWConns {
        allPoWConns := allPoWConns[k := peer];
      }
    }

    method PlaceNode(idx: nat, ghost keys: seq<Point>, k: Point, ghost i: nat, ghost counts: seq<nat>)
      requires Dealt(shards, keyToShard, keys, i, counts) && i < |keys| && k == keys[i]
      requires forall a, b :: 0 <= a < b < |keys| ==> keys[a] != keys[b]
      requires Frontier(shards, counts, idx) && |shards[idx]| < counts[idx]
      modifies this`shards, this`keyToShard
      ensures Dealt(shards, keyToShard, keys, i + 1, counts)
      ensures shards == old(shards)[idx := old(shards)[idx] + [k]]
    {
      assert keys[..i + 1] == keys[..i] + [k];
      NotYetPlaced(keyToShard, keys, i, idx);
      FillAppend(keys[..i], counts, idx, k);
      InverseAppend(shards, keyToShard, idx, k);
      shards := shards[idx := shards[idx] + [k]];
      keyToShard := keyToShard[k := idx];
    }

    /** Orders the nodes by mixed hash and deals them out; every node placed has a known address. */
    method ComputeSharding(m: seq<Soln>, size: ShardSize, maxNodes: nat, mix: nat -> nat) returns (ghost counts: seq<nat>)
      requires DistinctKeys(m) && size.Valid() && size.lo < size.target
      requires forall i :: 0 <= i < |m| ==> m[i].key in allPoWConns
      modifies this`shards, this`keyToShard
      ensures CountsFit(counts, size, Min(|m|, maxNodes))
      ensures shards == Fill(Keys(Mixed(m, mix)), counts)
      ensures Inverse(shards, keyToShard)
    {
      var shardCounts := GenerateShardCounts(size, Min(|m|, maxNodes));
      counts := shardCounts;
      shards, keyToShard := seq(|shardCounts|, _ => []), map[];
      if |shardCounts| == 0 {
        return;
      }
      var sorted := SortMixed(m, mix);
      MixedDistinct(m, mix);
      forall i | 0 <= i < |sorted|
        ensures sorted[i].key in allPoWConns
      {
        assert HasKey(sorted, sorted[i].key);
      }
      Distribute(sorted, shardCounts);
    }

    method Distribute(sorted: seq<Soln>, counts: seq<nat>)
      requires counts != [] && (forall i :: 0 <= i < |counts| ==> counts[i] > 0) && DistinctKeys(sorted)
      requires forall i :: 0 <= i < |sorted| ==> sorted[i].key in allPoWConns
      requires shards == seq(|counts|, _ => []) && keyToShard == map[]
      modifies this`shards, this`keyToShard
      ensures shards == Fill(Keys(sorted), counts)
      ensures Inverse(shards, keyToShard)
    {
      ghost var keys := Keys(sorted);
      var remaining := counts;
      var idx, i := 0, 0;
      FillNothing(counts);
      assert shards == Fill(keys[..0], counts);
      while i < |sorted|
        invariant 0 <= i <= |sorted|
        invariant Dealt(shards, keyToShard, keys, i, counts) && Room(remaining, shards, counts, idx)
      {
        if remaining[idx] == 0 {
          idx := idx + 1;
          if idx == |counts| {
            DealtAll(shards, keyToShard, keys, i, counts);
            return;
          }
        }
        assert sorted[i].key in allPoWConns;
        PlaceNode(idx, keys, sorted[i].key, i, counts);
        remaining := remaining[idx := remaining[idx] - 1];
        i := i + 1;
      }
      DealtAll(shards, keyToShard, keys, i, counts);
    }
  }

  method SortMixed(m: seq<Soln>, mix: nat -> nat) returns (sorted: seq<Soln>)
    ensures sorted == Mixed(m, mix)
  {
    sorted := [];
    var i := 0;
    while i < |m|
      invariant 0 <= i <= |m| && sorted == Mixed(m[..i], mix)
    {
      assert m[..i + 1][..i] == m[..i];
      sorted := Put(sorted, Soln(mix(m[i].hash), m[i].key), false);
      i := i + 1;
    }
    assert m[..i] == m;
  }
}
