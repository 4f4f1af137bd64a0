/** Who spreads a finished block: co-signers are cut into clusters, clusters are assigned ranges of
    shards, and a window of co-signers informs the lookup nodes. */
module DataSender {
  import opened Wrappers
  import opened Bits
  import opened Numbers
  import opened Sharding

  datatype Params = Params(clusterSize: nat, lookupWindow: nat)

  /** Rounded up. */
  function Ceil(a: nat, b: nat): nat
    requires b > 0
  {
    a / b + if a % b > 0 then 1 else 0
  }

  datatype Range = Range(lo: nat, hi: nat) {
    predicate Has(s: nat) { lo <= s < hi }
  }

  /** How many shards fall to each cluster of `cosigners`. */
  function GroupSize(p: Params, cosigners: nat, shards: nat): nat
    requires p.clusterSize > 0
  {
    var clusters := Ceil(cosigners, p.clusterSize);
    if clusters == 0 then 0 else Ceil(shards, clusters)
  }

  /** A cluster's shards. For a late cluster the range may start beyond the last shard. */
  function ShardRange(p: Params, cosigners: nat, shards: nat, index: nat): Range
    requires p.clusterSize > 0
  {
    var group := GroupSize(p, cosigners, shards);
    var lo := (index / p.clusterSize) * group;
    Range(lo, Min(lo + group, shards))
  }

  /** The window of co-signers that inform the lookup nodes. */
  function LookupRange(p: Params, cosigners: nat, random: nat): Range {
    if cosigners <= p.lookupWindow then Range(0, cosigners)
    else
      var lo := random % (cosigners - p.lookupWindow);
      Range(lo, lo + p.lookupWindow)
  }

  method DetermineShardToSendDataTo(p: Params, shards: nat, cosigners: nat, indexB2: nat)
    returns (cluster: nat, lo: nat, hi: nat)
    requires p.clusterSize > 0
    ensures cluster == indexB2 / p.clusterSize && Range(lo, hi) == ShardRange(p, cosigners, shards, indexB2)
  {
    var groups := CountGroups(p, shards, cosigners);
    cluster := indexB2 / p.clusterSize;
    lo := cluster * groups;
    hi := lo + groups;
    if hi >= shards {
      hi := shards;
    }
  }

  method CountGroups(p: Params, shards: nat, cosigners: nat) returns (groups: nat)
    requires p.clusterSize > 0
    ensures groups == GroupSize(p, cosigners, shards)
  {
    var clusters := DivideUp(cosigners, p.clusterSize);
    groups := 0;
    if clusters != 0 {
      groups := DivideUp(shards, clusters);
    }
  }

  method DivideUp(a: nat, b: nat) returns (q: nat)
    requires b > 0
    ensures q == Ceil(a, b)
  {
    q := a / b;
    if a % b > 0 {
      q := q + 1;
    }
  }

  /** What a co-signer with a given index does. */
  datatype Duty = Duty(lookups: bool, shards: Option<Range>)

  /** The sender's guard: more clusters than shards leave the last ones without work. */
  function DutyOf(p: Params, cosigners: nat, shards: nat, random: nat, index: nat): Duty
    requires p.clusterSize > 0
  {
    Duty(LookupRange(p, cosigners, random).Has(index),
         if shards > 0 && index / p.clusterSize + 1 <= shards then Some(ShardRange(p, cosigners, shards, index)) else None)
  }

  /** A node's place among the co-signers: how many sign before it. */
  function Rank(bits: seq<bool>, me: nat): nat
    requires me <= |bits|
  {
    Count(bits[..me])
  }

  /** `me` is the position of the node's own entry, the one without an address. */
  ghost predicate OwnEntry(committee: seq<Member>, me: nat) {
    && me < |committee| && committee[me].peer == BLANK_PEER
    && forall i :: 0 <= i < |committee| && i != me ==> committee[i].peer != BLANK_PEER
  }

  /** Collects the co-signers and looks for the own entry among them. */
  method FindOwnIndex(bits: seq<bool>, committee: seq<Member>, ghost me: nat) returns (cosigners: nat, index: nat, inB2: bool)
    requires |bits| == |committee| && OwnEntry(committee, me)
    ensures cosigners == Count(bits) && inB2 == bits[me]
    ensures inB2 ==> index == Rank(bits, me) < cosigners
  {
    var tmp: seq<Member> := [];
    var i := 0;
    while i < |bits|
      invariant 0 <= i <= |bits| && |tmp| == Count(bits[..i])
      invariant me < i && bits[me] ==> Rank(bits, me) < |tmp| && tmp[Rank(bits, me)].peer == BLANK_PEER
      invariant forall j :: 0 <= j < |tmp| && tmp[j].peer == BLANK_PEER ==> me < i && bits[me] && j == Rank(bits, me)
    {
      CountSnoc(bits, i);
      if bits[i] {
        tmp := tmp + [committee[i]];
      }
      i := i + 1;
    }
    assert bits[..i] == bits;
    index := 0;
    inB2 := false;
    while index < |tmp| && tmp[index].peer != BLANK_PEER
      invariant 0 <= index <= |tmp|
      invariant forall j :: 0 <= j < index ==> tmp[j].peer != BLANK_PEER
    {
      index := index + 1;
    }
    inB2 := index < |tmp|;
    cosigners := |tmp|;
  }

  method SendDataToOthers(p: Params, bits: seq<bool>, committee: seq<Member>, shards: nat, random: nat, ghost me: nat)
    returns (r: Option<Duty>)
    requires p.clusterSize > 0 && OwnEntry(committee, me)
    ensures r.Some? <==> |bits| == |committee| && bits[me]
    ensures r.Some? ==> r.value == DutyOf(p, Count(bits), shards, random, Rank(bits, me))
  {
    if |bits| != |committee| {
      return None;
    }
    var cosigners, index, inB2 := FindOwnIndex(bits, committee, me);
    if !inB2 {
      return None;
    }
    var small := cosigners <= p.lookupWindow;
    var lookupLo := if small then 0 else random % (cosigners - p.lookupWindow);
    var lookupHi := if small then cosigners else lookupLo + p.lookupWindow;
    var toLookups := lookupLo <= index < lookupHi;
    var toShards := None;
    if shards > 0 {
      var cluster, lo, hi := DetermineShardToSendDataTo(p, shards, cosigners, index);
      if cluster + 1 <= shards {
        toShards := Some(Range(lo, hi));
      }
    }
    return Some(Duty(toLookups, toShards));
  }

  // ---------- coverage

  lemma {:induction false} CountSnoc(bits: seq<bool>, i: nat)
    requires i < |bits|
    ensures Count(bits[..i + 1]) == Count(bits[..i]) + if bits[i] then 1 else 0
  {
    if i == 0 {
      assert bits[..1] == [bits[0]] && bits[..0] == [];
    } else {
      CountSnoc(bits[1..], i - 1);
      assert bits[..i + 1][1..] == bits[1..][..i] && bits[..i][1..] == bits[1..][..i - 1];
      assert bits[1..][..i - 1 + 1] == bits[1..][..i];
    }
  }

  /** The quotient is the only multiple that fits. */
  lemma QuotientIs(s: nat, g: nat, c: nat)
    requires g > 0
    ensures c * g <= s < c * g + g <==> s / g == c
  {
    var q := s / g;
    assert q * g <= s < q * g + g;
    if c < q {
      MulLe(g, c + 1, q);
    } else if q < c {
      MulLe(g, q + 1, c);
    }
  }

  lemma CeilCovers(a: nat, b: nat)
    requires b > 0
    ensures Ceil(a, b) * b >= a
    ensures Ceil(a, b) > 0 ==> (Ceil(a, b) - 1) * b < a
  {
    var q := a / b;
    assert a == q * b + a % b;
  }

  /** A range that starts at a multiple of its length and is cut off at the end holds `s` exactly when
      it is the one at the quotient, and then its number is small enough for the guard. */
  lemma RangeHolds(c: nat, g: nat, s: nat, shards: nat)
    requires g > 0 && s < shards
    ensures c + 1 <= shards && Range(c * g, Min(c * g + g, shards)).Has(s) <==> s / g == c
  {
    QuotientIs(s, g, c);
    MulLe(c, 1, g);
  }

  lemma GroupsExist(p: Params, cosigners: nat, shards: nat)
    requires p.clusterSize > 0 && cosigners > 0 && shards > 0
    ensures Ceil(cosigners, p.clusterSize) > 0 && GroupSize(p, cosigners, shards) > 0
  {
    CeilCovers(cosigners, p.clusterSize);
    CeilCovers(shards, Ceil(cosigners, p.clusterSize));
  }

  /** Broadcast coverage: a co-signer sends to a shard exactly when its cluster is the shard's, so every
      shard has one cluster, ranges do not overlap, and no range is lost to the sender's guard. */
  lemma SendsExactly(p: Params, cosigners: nat, shards: nat, random: nat, index: nat, s: nat)
    requires p.clusterSize > 0 && index < cosigners && s < shards
    ensures GroupSize(p, cosigners, shards) > 0
    ensures var to := DutyOf(p, cosigners, shards, random, index).shards;
            to.Some? && to.value.Has(s) <==> index / p.clusterSize == s / GroupSize(p, cosigners, shards)
  {
    GroupsExist(p, cosigners, shards);
    RangeHolds(index / p.clusterSize, GroupSize(p, cosigners, shards), s, shards);
  }

  /** The work is shared evenly: no cluster serves more shards than the rounded-up quotient of shards and
      clusters of the configured size. */
  lemma RangesAreEven(p: Params, cosigners: nat, shards: nat, random: nat, index: nat, clusters: nat)
    requires p.clusterSize > 0 && index < cosigners && clusters > 0
    requires (clusters - 1) * p.clusterSize < cosigners <= clusters * p.clusterSize
    ensures var to := DutyOf(p, cosigners, shards, random, index).shards;
            to.Some? ==> to.value.hi - to.value.lo <= Ceil(shards, clusters) && (Ceil(shards, clusters) - 1) * clusters < shards
  {
    CeilIs(cosigners, p.clusterSize, clusters);
    CeilCovers(shards, clusters);
  }

  lemma CeilIs(a: nat, b: nat, q: nat)
    requires b > 0 && q > 0 && (q - 1) * b < a <= q * b
    ensures Ceil(a, b) == q
  {
    CeilCovers(a, b);
    var c := Ceil(a, b);
    if c < q {
      MulLe(b, c, q - 1);
    } else if c > q {
      MulLe(b, q, c - 1);
    }
  }

  /** ... and that cluster has a co-signer in it. */
  lemma EveryShardIsServed(p: Params, cosigners: nat, shards: nat, random: nat, s: nat) returns (index: nat)
    requires p.clusterSize > 0 && cosigners > 0 && s < shards
    ensures index < cosigners
    ensures DutyOf(p, cosigners, shards, random, index).shards.Some?
    ensures DutyOf(p, cosigners, shards, random, index).shards.value.Has(s)
  {
    GroupsExist(p, cosigners, shards);
    var clusters, g := Ceil(cosigners, p.clusterSize), GroupSize(p, cosigners, shards);
    var c := s / g;
    ClusterExists(shards, clusters, s);
    CeilCovers(cosigners, p.clusterSize);
    MulLe(p.clusterSize, c, clusters - 1);
    index := c * p.clusterSize;
    QuotientIs(index, p.clusterSize, c);
    SendsExactly(p, cosigners, shards, random, index, s);
  }

  /** No shard belongs to a cluster that does not exist. */
  lemma ClusterExists(shards: nat, clusters: nat, s: nat)
    requires clusters > 0 && s < shards && Ceil(shards, clusters) > 0
    ensures s / Ceil(shards, clusters) < clusters
  {
    var g := Ceil(shards, clusters);
    CeilCovers(shards, clusters);
    QuotientIs(s, g, s / g);
    if s / g >= clusters {
      MulLe(g, clusters, s / g);
    }
  }

  /** The member at position `j` signed and is in the window. */
  predicate InformsLookups(p: Params, bits: seq<bool>, random: nat, j: nat)
    requires j < |bits|
  {
    bits[j] && LookupRange(p, Count(bits), random).Has(Rank(bits, j))
  }

  function Informers(p: Params, bits: seq<bool>, random: nat, n: nat): nat
    requires n <= |bits|
  {
    if n == 0 then 0 else Informers(p, bits, random, n - 1) + if InformsLookups(p, bits, random, n - 1) then 1 else 0
  }

  lemma {:induction false} InformersOf(p: Params, bits: seq<bool>, random: nat, n: nat)
    requires n <= |bits|
    ensures var w, k := LookupRange(p, Count(bits), random), Rank(bits, n);
            Informers(p, bits, random, n) == if k <= w.lo then 0 else Min(k, w.hi) - w.lo
  {
    if n > 0 {
      InformersOf(p, bits, random, n - 1);
      CountSnoc(bits, n - 1);
      assert bits[..n - 1 + 1] == bits[..n];
    }
  }

  /** Over the whole committee exactly min(co-signers, window) members inform the lookup nodes. */
  lemma LookupSenders(p: Params, bits: seq<bool>, random: nat)
    ensures Informers(p, bits, random, |bits|) == Min(Count(bits), p.lookupWindow)
  {
    InformersOf(p, bits, random, |bits|);
    assert bits[..|bits|] == bits;
  }

  /** Which co-signers may come to inform the lookup nodes: with more co-signers than the window holds, all but
      the last one, for some random number; the last one never does. Otherwise all do, always. */
  lemma WhoMayInform(p: Params, cosigners: nat, shards: nat, index: nat)
    requires p.clusterSize > 0 && p.lookupWindow > 0 && index < cosigners
    ensures cosigners <= p.lookupWindow ==> forall random :: DutyOf(p, cosigners, shards, random, index).lookups
    ensures cosigners > p.lookupWindow ==>
              ((exists random :: DutyOf(p, cosigners, shards, random, index).lookups) <==> index + 1 < cosigners)
  {
    var starts := cosigners - p.lookupWindow;
    if starts > 0 && index + 1 < cosigners {
      var random := if index < starts then index else starts - 1;
      Remainder(random, starts);
      assert DutyOf(p, cosigners, shards, random, index).lookups;
    }
  }

  lemma Remainder(x: nat, d: nat)
    requires x < d
    ensures x % d == x
  {
  }
}
