/** Proof-of-work solutions, sorted and trimmed. */
module PoWOrdering {
  import opened MultiSig
  import opened Numbers

  // The ordered maps of the program are ascending lists here.

  /** A solution: its hash as a number, and the submitter's key. */
  datatype Soln = Soln(hash: nat, key: Point)

  ghost predicate Ascending(m: seq<Soln>) {
    forall i, j :: 0 <= i < j < |m| ==> m[i].hash < m[j].hash
  }

  ghost predicate DistinctKeys(m: seq<Soln>) {
    forall i, j :: 0 <= i < j < |m| ==> m[i].key != m[j].key
  }

  ghost predicate HasHash(m: seq<Soln>, h: nat) { exists i :: 0 <= i < |m| && m[i].hash == h }

  predicate HasKey(m: seq<Soln>, k: Point) { exists i :: 0 <= i < |m| && m[i].key == k }

  /** Insertion into an ordered map; on an equal hash the new key replaces the old one or is ignored. */
  function Put(m: seq<Soln>, s: Soln, replace: bool): seq<Soln> {
    if m == [] || s.hash < m[0].hash then [s] + m
    else if s.hash == m[0].hash then (if replace then [s] + m[1..] else m)
    else [m[0]] + Put(m[1..], s, replace)
  }

  ghost predicate Above(m: seq<Soln>, h: nat) { forall i :: 0 <= i < |m| ==> m[i].hash > h }

  ghost predicate Below(m: seq<Soln>, h: nat) { forall i :: 0 <= i < |m| ==> m[i].hash < h }

  lemma AscendingRest(m: seq<Soln>)
    requires Ascending(m) && m != []
    ensures Ascending(m[1..]) && Above(m[1..], m[0].hash)
  {
  }

  lemma Prepend(s: Soln, m: seq<Soln>)
    requires Ascending(m) && Above(m, s.hash)
    ensures Ascending([s] + m)
  {
  }

  lemma {:induction false} PutAbove(m: seq<Soln>, s: Soln, replace: bool, h: nat)
    requires Above(m, h) && s.hash > h
    ensures Above(Put(m, s, replace), h)
  {
    if m != [] {
      PutAbove(m[1..], s, replace, h);
    }
  }

  lemma {:induction false} PutAscending(m: seq<Soln>, s: Soln, replace: bool)
    requires Ascending(m)
    ensures Ascending(Put(m, s, replace))
  {
    if m != [] {
      AscendingRest(m);
      if s.hash < m[0].hash {
        Prepend(s, m);
      } else if s.hash > m[0].hash {
        PutAscending(m[1..], s, replace);
        PutAbove(m[1..], s, replace, m[0].hash);
        Prepend(m[0], Put(m[1..], s, replace));
      }
    }
  }

  lemma HasHashCons(m: seq<Soln>, h: nat)
    requires m != []
    ensures HasHash(m, h) <==> m[0].hash == h || HasHash(m[1..], h)
  {
    if HasHash(m, h) && m[0].hash != h {
      var i :| 0 <= i < |m| && m[i].hash == h;
      assert m[1..][i - 1].hash == h;
    }
  }

  lemma {:induction false} PutMember(m: seq<Soln>, s: Soln, replace: bool, t: Soln)
    requires Ascending(m)
    ensures t in Put(m, s, replace) <==>
              (t == s && (replace || !HasHash(m, s.hash))) || (t in m && (t.hash != s.hash || !replace))
  {
    if m != [] {
      AscendingRest(m);
      HasHashCons(m, s.hash);
      assert t in m <==> t == m[0] || t in m[1..];
      if s.hash > m[0].hash {
        PutMember(m[1..], s, replace, t);
      }
    }
  }

  lemma {:induction false} PutSize(m: seq<Soln>, s: Soln, replace: bool)
    requires Ascending(m)
    ensures |Put(m, s, replace)| == |m| + (if HasHash(m, s.hash) then 0 else 1)
  {
    if m != [] {
      AscendingRest(m);
      HasHashCons(m, s.hash);
      if s.hash > m[0].hash {
        PutSize(m[1..], s, replace);
      }
    }
  }

  /** The list appended to an ordered map whose hashes are all smaller. */
  lemma {:induction false} PutLast(m: seq<Soln>, s: Soln)
    requires forall i :: 0 <= i < |m| ==> m[i].hash < s.hash
    ensures Put(m, s, false) == m + [s]
  {
    if m != [] {
      PutLast(m[1..], s);
    }
  }

  // ---------- sorting

  /** All submissions by hash; of several with one hash the last wins. */
  function Sorter(pows: seq<Soln>): seq<Soln> {
    if pows == [] then [] else Put(Sorter(pows[..|pows| - 1]), pows[|pows| - 1], true)
  }

  lemma {:induction false} SorterAscending(pows: seq<Soln>)
    ensures Ascending(Sorter(pows))
  {
    if pows != [] {
      SorterAscending(pows[..|pows| - 1]);
      PutAscending(Sorter(pows[..|pows| - 1]), pows[|pows| - 1], true);
    }
  }

  /** A submission that no later one with the same hash replaces. */
  ghost predicate Survives(pows: seq<Soln>, s: Soln) {
    exists i :: LastWith(pows, s, i)
  }

  ghost predicate LastWith(pows: seq<Soln>, s: Soln, i: int) {
    0 <= i < |pows| && pows[i] == s && !HasHash(pows[i + 1..], s.hash)
  }

  lemma LastWithAppend(init: seq<Soln>, last: Soln, s: Soln)
    ensures Survives(init + [last], s) <==> s == last || (Survives(init, s) && s.hash != last.hash)
  {
    var pows, n := init + [last], |init|;
    if s == last {
      assert LastWith(pows, s, n);
    } else {
      forall i | 0 <= i < n
        ensures LastWith(pows, s, i) <==> LastWith(init, s, i) && s.hash != last.hash
      {
        HasHashAppend(init[i + 1..], last, s.hash);
        assert pows[i + 1..] == init[i + 1..] + [last];
      }
    }
  }

  /** The sorter holds exactly the surviving submissions. */
  lemma {:induction false} SorterOf(pows: seq<Soln>, s: Soln)
    ensures s in Sorter(pows) <==> Survives(pows, s)
    ensures s in Sorter(pows) ==> s in pows
  {
    if pows != [] {
      var init, last := pows[..|pows| - 1], pows[|pows| - 1];
      assert pows == init + [last];
      SorterOf(init, s);
      SorterAscending(init);
      PutMember(Sorter(init), last, true, s);
      LastWithAppend(init, last, s);
    }
  }

  lemma HasHashAppend(m: seq<Soln>, s: Soln, h: nat)
    ensures HasHash(m + [s], h) <==> HasHash(m, h) || s.hash == h
  {
    if HasHash(m, h) {
      var i :| 0 <= i < |m| && m[i].hash == h;
      assert (m + [s])[i].hash == h;
    }
    if s.hash == h {
      assert (m + [s])[|m|].hash == h;
    }
  }

  /** The first `k` guards in order ... */
  function FirstGuards(m: seq<Soln>, guards: set<Point>, k: nat): seq<Soln> {
    if m == [] || k == 0 then []
    else if m[0].key in guards then [m[0]] + FirstGuards(m[1..], guards, k - 1)
    else FirstGuards(m[1..], guards, k)
  }

  /** ... and everything else. */
  function AllBut(m: seq<Soln>, guards: set<Point>, k: nat): seq<Soln> {
    if m == [] || k == 0 then m
    else if m[0].key in guards then AllBut(m[1..], guards, k - 1)
    else [m[0]] + AllBut(m[1..], guards, k)
  }

  function PutAll(m: seq<Soln>, ss: seq<Soln>): seq<Soln> {
    if ss == [] then m else Put(PutAll(m, ss[..|ss| - 1]), ss[|ss| - 1], false)
  }

  /** How many to keep, and in guard mode how many guards may be put first. */
  datatype Trim = NoTrim | Plain(keep: nat) | GuardMode(keep: nat, guardCount: nat, guards: set<Point>)

  function Trimmed(m: seq<Soln>, t: Trim): seq<Soln> {
    match t
    case NoTrim => m
    case Plain(keep) => m[..Min(keep, |m|)]
    case GuardMode(keep, guardCount, guards) =>
      var first := FirstGuards(m, guards, Min(keep, guardCount));
      var others := AllBut(m, guards, Min(keep, guardCount));
      PutAll(first, others[..Min(if |first| <= keep then keep - |first| else 0, |others|)])
  }

  lemma {:induction false} SplitAscending(m: seq<Soln>, guards: set<Point>, k: nat, h: nat)
    requires Ascending(m)
    ensures Ascending(FirstGuards(m, guards, k)) && Ascending(AllBut(m, guards, k))
    ensures Above(m, h) ==> Above(FirstGuards(m, guards, k), h) && Above(AllBut(m, guards, k), h)
    decreases m
  {
    if m != [] && k != 0 {
      AscendingRest(m);
      var k' := if m[0].key in guards then k - 1 else k;
      SplitAscending(m[1..], guards, k', h);
      SplitAscending(m[1..], guards, k', m[0].hash);
      if m[0].key in guards {
        Prepend(m[0], FirstGuards(m[1..], guards, k'));
      } else {
        Prepend(m[0], AllBut(m[1..], guards, k'));
      }
    }
  }

  lemma {:induction false} SplitSizes(m: seq<Soln>, guards: set<Point>, k: nat)
    ensures |FirstGuards(m, guards, k)| + |AllBut(m, guards, k)| == |m|
    ensures |FirstGuards(m, guards, k)| <= k
  {
    if m != [] && k != 0 {
      SplitSizes(m[1..], guards, if m[0].key in guards then k - 1 else k);
    }
  }

  /** Every entry is on one side; guards stay behind only when the first part is full. */
  lemma {:induction false} SplitMember(m: seq<Soln>, guards: set<Point>, k: nat, s: Soln)
    ensures s in m <==> s in FirstGuards(m, guards, k) || s in AllBut(m, guards, k)
    ensures s in FirstGuards(m, guards, k) ==> s.key in guards
    ensures s in AllBut(m, guards, k) && s.key in guards ==> |FirstGuards(m, guards, k)| == k
  {
    if m != [] && k != 0 {
      assert s in m <==> s == m[0] || s in m[1..];
      SplitMember(m[1..], guards, if m[0].key in guards then k - 1 else k, s);
    }
  }

  lemma {:induction false} SplitApart(m: seq<Soln>, guards: set<Point>, k: nat, s: Soln, t: Soln)
    requires Ascending(m) && s in FirstGuards(m, guards, k) && t in AllBut(m, guards, k)
    ensures s.hash != t.hash
  {
    AscendingRest(m);
    var k' := if m[0].key in guards then k - 1 else k;
    SplitMember(m[1..], guards, k', s);
    SplitMember(m[1..], guards, k', t);
    if s != m[0] && t != m[0] {
      SplitApart(m[1..], guards, k', s, t);
    }
  }

  /** No entry of one list has the hash of an entry of the other. */
  ghost predicate Apart(m: seq<Soln>, ss: seq<Soln>) {
    forall i, j :: 0 <= i < |m| && 0 <= j < |ss| ==> m[i].hash != ss[j].hash
  }

  lemma {:induction false} PutAllOf(m: seq<Soln>, ss: seq<Soln>, t: Soln, h: nat)
    requires Ascending(m) && Ascending(ss) && Apart(m, ss)
    ensures Ascending(PutAll(m, ss)) && |PutAll(m, ss)| == |m| + |ss|
    ensures t in PutAll(m, ss) <==> t in m || t in ss
    ensures HasHash(PutAll(m, ss), h) ==> HasHash(m, h) || HasHash(ss, h)
    decreases ss
  {
    if ss != [] {
      var init, last := ss[..|ss| - 1], ss[|ss| - 1];
      assert ss == init + [last];
      PutAllOf(m, init, t, h);
      PutAllOf(m, init, t, last.hash);
      var r := PutAll(m, init);
      assert !HasHash(init, last.hash) && !HasHash(m, last.hash);
      PutAscending(r, last, false);
      PutMember(r, last, false, t);
      PutSize(r, last, false);
      PutHash(r, last, h);
      HasHashAppend(init, last, h);
    }
  }

  lemma {:induction false} PutHash(m: seq<Soln>, s: Soln, h: nat)
    ensures HasHash(Put(m, s, false), h) ==> HasHash(m, h) || s.hash == h
  {
    if m == [] || s.hash < m[0].hash {
      HasHashCons([s] + m, h);
      assert ([s] + m)[1..] == m;
    } else if s.hash != m[0].hash {
      PutHash(m[1..], s, h);
      HasHashCons(m, h);
      HasHashCons(Put(m, s, false), h);
    }
  }

  /** Trimming keeps the order and keeps as many as it may. */
  lemma TrimmedOf(m: seq<Soln>, t: Trim, s: Soln)
    requires Ascending(m)
    ensures Ascending(Trimmed(m, t)) && (s in Trimmed(m, t) ==> s in m)
    ensures |Trimmed(m, t)| == if t.NoTrim? then |m| else Min(t.keep, |m|)
  {
    if t.GuardMode? {
      GuardModeTrim(m, t.keep, t.guardCount, t.guards, s);
    }
  }

  /** In guard mode a guard is dropped only when guards already fill the share reserved for them. */
  lemma GuardModeTrim(m: seq<Soln>, keep: nat, guardCount: nat, guards: set<Point>, s: Soln)
    requires Ascending(m)
    ensures var r := Trimmed(m, GuardMode(keep, guardCount, guards));
            var first := FirstGuards(m, guards, Min(keep, guardCount));
            && Ascending(r) && |r| == Min(keep, |m|)
            && (s in r ==> s in m) && (s in first ==> s in r && s.key in guards)
            && (s in m && s.key in guards && s !in r ==> |first| == Min(keep, guardCount))
  {
    var k := Min(keep, guardCount);
    var n := TrimIsMerge(m, keep, guardCount, guards);
    SplitMember(m, guards, k, s);
    MergeBack(m, guards, k, n, s);
  }

  /** How many of the others are put back. */
  lemma TrimIsMerge(m: seq<Soln>, keep: nat, guardCount: nat, guards: set<Point>) returns (n: nat)
    ensures n <= |AllBut(m, guards, Min(keep, guardCount))|
    ensures |FirstGuards(m, guards, Min(keep, guardCount))| + n == Min(keep, |m|)
    ensures Trimmed(m, GuardMode(keep, guardCount, guards))
         == PutAll(FirstGuards(m, guards, Min(keep, guardCount)), AllBut(m, guards, Min(keep, guardCount))[..n])
  {
    var k := Min(keep, guardCount);
    SplitSizes(m, guards, k);
    n := Min(keep - |FirstGuards(m, guards, k)|, |AllBut(m, guards, k)|);
  }

  /** The guards put first, merged with some of the others. */
  lemma MergeBack(m: seq<Soln>, guards: set<Point>, k: nat, n: nat, s: Soln)
    requires Ascending(m) && n <= |AllBut(m, guards, k)|
    ensures var r := PutAll(FirstGuards(m, guards, k), AllBut(m, guards, k)[..n]);
            && Ascending(r) && |r| == |FirstGuards(m, guards, k)| + n
            && (s in FirstGuards(m, guards, k) ==> s in r)
            && (s in r ==> s in FirstGuards(m, guards, k) || s in AllBut(m, guards, k))
  {
    SplitAscending(m, guards, k, 0);
    PrefixApart(m, guards, k, n);
    PutAllOf(FirstGuards(m, guards, k), AllBut(m, guards, k)[..n], s, 0);
    assert s in AllBut(m, guards, k)[..n] ==> s in AllBut(m, guards, k);
  }

  lemma PrefixApart(m: seq<Soln>, guards: set<Point>, k: nat, n: nat)
    requires Ascending(m) && n <= |AllBut(m, guards, k)|
    ensures Apart(FirstGuards(m, guards, k), AllBut(m, guards, k)[..n])
    ensures Ascending(AllBut(m, guards, k)[..n])
  {
    var first, others := FirstGuards(m, guards, k), AllBut(m, guards, k);
    SplitAscending(m, guards, k, 0);
    forall i, j | 0 <= i < |first| && 0 <= j < n
      ensures first[i].hash != others[..n][j].hash
    {
      SplitApart(m, guards, k, first[i], others[j]);
    }
  }

  /** Plain trimming keeps the smallest: every surviving submission that is dropped has a larger hash than
      every one that is kept, and as many are kept as may be. */
  lemma TrimKeepsLeast(pows: seq<Soln>, keep: nat, s: Soln, t: Soln)
    requires s in Trimmed(Sorter(pows), Plain(keep))
    requires Survives(pows, t) && t !in Trimmed(Sorter(pows), Plain(keep))
    ensures Survives(pows, s) && s.hash < t.hash && |Trimmed(Sorter(pows), Plain(keep))| == keep
  {
    SorterOf(pows, s);
    SorterOf(pows, t);
    SorterAscending(pows);
    PrefixIsLeast(Sorter(pows), Min(keep, |Sorter(pows)|), s, t);
  }

  lemma PrefixIsLeast(m: seq<Soln>, n: nat, s: Soln, t: Soln)
    requires Ascending(m) && n <= |m| && s in m[..n] && t in m && t !in m[..n]
    ensures s.hash < t.hash && n < |m|
  {
    var i :| 0 <= i < n && m[i] == s;
    var j :| 0 <= j < |m| && m[j] == t;
    if j < n {
      assert m[..n][j] == t;
    }
  }

  /** The guards put first have smaller hashes than the guards that are not. */
  lemma {:induction false} FirstGuardsLeast(m: seq<Soln>, guards: set<Point>, k: nat, s: Soln, t: Soln)
    requires Ascending(m) && s in FirstGuards(m, guards, k) && t in AllBut(m, guards, k) && t.key in guards
    ensures s.hash < t.hash
  {
    AscendingRest(m);
    var k' := if m[0].key in guards then k - 1 else k;
    SplitMember(m[1..], guards, k', s);
    SplitMember(m[1..], guards, k', t);
    if s != m[0] {
      FirstGuardsLeast(m[1..], guards, k', s, t);
    } else {
      var j :| 0 <= j < |m[1..]| && m[1..][j] == t;
    }
  }

  /** Some of the guards among the surviving submissions: those with the smallest hashes, `k` of them if
      there are that many. */
  ghost predicate LeastGuards(pows: seq<Soln>, guards: set<Point>, k: nat, first: seq<Soln>) {
    && Ascending(first) && |first| <= k
    && (forall s :: s in first ==> Survives(pows, s) && s.key in guards)
    && (forall t :: Survives(pows, t) && t.key in guards && t !in first ==>
          |first| == k && forall s :: s in first ==> s.hash < t.hash)
  }

  /** Trimming in guard mode keeps the guards with the smallest hashes, as many as the guards' share allows,
      and of everything else again the smallest. */
  lemma GuardTrimKeepsLeast(pows: seq<Soln>, keep: nat, guardCount: nat, guards: set<Point>, s: Soln, t: Soln)
    ensures var first := FirstGuards(Sorter(pows), guards, Min(keep, guardCount));
            var r := Trimmed(Sorter(pows), GuardMode(keep, guardCount, guards));
            && LeastGuards(pows, guards, Min(keep, guardCount), first)
            && (s in first ==> s in r)
            && (s in r && s !in first && Survives(pows, t) && t !in r ==> Survives(pows, s) && s.hash < t.hash)
  {
    var k := Min(keep, guardCount);
    var n := TrimIsMerge(Sorter(pows), keep, guardCount, guards);
    FirstIsLeastGuards(pows, guards, k);
    SorterAscending(pows);
    InMerge(Sorter(pows), guards, k, n, s);
    if s in Trimmed(Sorter(pows), GuardMode(keep, guardCount, guards)) && s !in FirstGuards(Sorter(pows), guards, k)
       && Survives(pows, t) && t !in Trimmed(Sorter(pows), GuardMode(keep, guardCount, guards))
    {
      OthersAreLeast(pows, guards, k, n, s, t);
    }
  }

  lemma FirstIsLeastGuards(pows: seq<Soln>, guards: set<Point>, k: nat)
    ensures LeastGuards(pows, guards, k, FirstGuards(Sorter(pows), guards, k))
  {
    var m := Sorter(pows);
    SorterAscending(pows);
    SplitAscending(m, guards, k, 0);
    SplitSizes(m, guards, k);
    var first := FirstGuards(m, guards, k);
    forall s | s in first
      ensures Survives(pows, s) && s.key in guards
    {
      SplitMember(m, guards, k, s);
      SorterOf(pows, s);
    }
    forall t | Survives(pows, t) && t.key in guards && t !in first
      ensures |first| == k && forall s :: s in first ==> s.hash < t.hash
    {
      SorterOf(pows, t);
      SplitMember(m, guards, k, t);
      forall s | s in first
        ensures s.hash < t.hash
      {
        FirstGuardsLeast(m, guards, k, s, t);
      }
    }
  }

  lemma OthersAreLeast(pows: seq<Soln>, guards: set<Point>, k: nat, n: nat, s: Soln, t: Soln)
    requires n <= |AllBut(Sorter(pows), guards, k)| && Survives(pows, t)
    requires var r := PutAll(FirstGuards(Sorter(pows), guards, k), AllBut(Sorter(pows), guards, k)[..n]);
             s in r && s !in FirstGuards(Sorter(pows), guards, k) && t !in r
    ensures Survives(pows, s) && s.hash < t.hash
  {
    var m := Sorter(pows);
    SorterAscending(pows);
    SorterOf(pows, s);
    SorterOf(pows, t);
    InMerge(m, guards, k, n, s);
    InMerge(m, guards, k, n, t);
    SplitMember(m, guards, k, s);
    SplitMember(m, guards, k, t);
    SplitAscending(m, guards, k, 0);
    PrefixIsLeast(AllBut(m, guards, k), n, s, t);
  }

  /** What the merged list holds. */
  lemma InMerge(m: seq<Soln>, guards: set<Point>, k: nat, n: nat, s: Soln)
    requires Ascending(m) && n <= |AllBut(m, guards, k)|
    ensures s in PutAll(FirstGuards(m, guards, k), AllBut(m, guards, k)[..n])
       <==> s in FirstGuards(m, guards, k) || s in AllBut(m, guards, k)[..n]
    ensures s in AllBut(m, guards, k)[..n] ==> s in AllBut(m, guards, k)
  {
    SplitAscending(m, guards, k, 0);
    PrefixApart(m, guards, k, n);
    PutAllOf(FirstGuards(m, guards, k), AllBut(m, guards, k)[..n], s, 0);
  }

  /** Sorts by solution and optionally trims. */
  method SortPoWSoln(pows: seq<Soln>, t: Trim) returns (r: seq<Soln>)
    ensures r == Trimmed(Sorter(pows), t)
  {
    var sorter: seq<Soln> := [];
    var i := 0;
    while i < |pows|
      invariant 0 <= i <= |pows| && sorter == Sorter(pows[..i])
    {
      assert pows[..i + 1][..i] == pows[..i];
      sorter := Put(sorter, pows[i], true);
      i := i + 1;
    }
    assert pows[..i] == pows;
    SorterAscending(pows);
    match t {
      case NoTrim => r := sorter;
      case Plain(keep) => r := TakeFirst(sorter, keep);
      case GuardMode(keep, guardCount, guards) => r := TakeGuardsFirst(sorter, keep, guardCount, guards);
    }
  }

  method TakeFirst(m: seq<Soln>, keep: nat) returns (r: seq<Soln>)
    ensures r == m[..Min(keep, |m|)]
  {
    r := [];
    var count := 0;
    while count < |m| && count < keep
      invariant 0 <= count <= Min(keep, |m|) && r == m[..count]
    {
      r := r + [m[count]];
      count := count + 1;
    }
  }

  /** Erasing an entry of an ordered map by its hash. */
  function Erase(m: seq<Soln>, h: nat): seq<Soln> {
    if m == [] then [] else if m[0].hash == h then m[1..] else [m[0]] + Erase(m[1..], h)
  }

  lemma {:induction false} EraseAt(kept: seq<Soln>, s: Soln, rest: seq<Soln>)
    requires forall i :: 0 <= i < |kept| ==> kept[i].hash != s.hash
    ensures Erase(kept + [s] + rest, s.hash) == kept + rest
  {
    var all := kept + [s] + rest;
    if kept == [] {
      assert all[0] == s && all[1..] == rest;
    } else {
      EraseAt(kept[1..], s, rest);
      assert all[0] == kept[0] && all[1..] == kept[1..] + [s] + rest;
    }
  }

  /** State of the first pass in guard mode: `filtered` are the guards taken and `kept` the others
      passed over, out of the first `i`. */
  ghost predicate Splitting(m: seq<Soln>, guards: set<Point>, k: nat, i: nat, filtered: seq<Soln>, kept: seq<Soln>) {
    && i <= |m| && |filtered| <= k
    && FirstGuards(m, guards, k) == filtered + FirstGuards(m[i..], guards, k - |filtered|)
    && AllBut(m, guards, k) == kept + AllBut(m[i..], guards, k - |filtered|)
    && (i < |m| ==> Below(filtered, m[i].hash) && Below(kept, m[i].hash))
  }

  lemma TakeOne(m: seq<Soln>, guards: set<Point>, k: nat, i: nat, filtered: seq<Soln>, kept: seq<Soln>)
    requires Ascending(m) && Splitting(m, guards, k, i, filtered, kept)
    requires i < |m| && |filtered| < k && m[i].key in guards
    ensures Splitting(m, guards, k, i + 1, filtered + [m[i]], kept)
  {
    assert m[i..][1..] == m[i + 1..];
    var rest := FirstGuards(m[i + 1..], guards, k - |filtered| - 1);
    assert filtered + ([m[i]] + rest) == (filtered + [m[i]]) + rest;
  }

  lemma PassOne(m: seq<Soln>, guards: set<Point>, k: nat, i: nat, filtered: seq<Soln>, kept: seq<Soln>)
    requires Ascending(m) && Splitting(m, guards, k, i, filtered, kept) && i < |m| && m[i].key !in guards
    ensures Splitting(m, guards, k, i + 1, filtered, kept + [m[i]])
  {
    assert m[i..][1..] == m[i + 1..];
    var rest := AllBut(m[i + 1..], guards, k - |filtered|);
    assert AllBut(m[i..], guards, k - |filtered|) == [m[i]] + rest;
    assert kept + ([m[i]] + rest) == (kept + [m[i]]) + rest;
  }

  lemma SplittingDone(m: seq<Soln>, guards: set<Point>, k: nat, i: nat, filtered: seq<Soln>, kept: seq<Soln>)
    requires Splitting(m, guards, k, i, filtered, kept) && (i == |m| || |filtered| == k)
    ensures filtered == FirstGuards(m, guards, k) && kept + m[i..] == AllBut(m, guards, k)
  {
    assert m[|m|..] == [];
  }

  lemma MoveOut(m: seq<Soln>, i: nat, kept: seq<Soln>)
    requires i < |m| && Below(kept, m[i].hash)
    ensures Erase(kept + m[i..], m[i].hash) == kept + m[i + 1..]
  {
    EraseAt(kept, m[i], m[i + 1..]);
    assert kept + m[i..] == kept + [m[i]] + m[i + 1..];
  }

  /** ... and `shadow` is what has not been moved out. */
  ghost predicate MovingOut(m: seq<Soln>, guards: set<Point>, k: nat, i: nat, filtered: seq<Soln>, shadow: seq<Soln>) {
    exists kept :: Splitting(m, guards, k, i, filtered, kept) && shadow == kept + m[i..]
  }

  method MoveGuard(m: seq<Soln>, ghost guards: set<Point>, ghost k: nat, i: nat, filtered: seq<Soln>, shadow: seq<Soln>)
    returns (filtered': seq<Soln>, shadow': seq<Soln>)
    requires Ascending(m) && MovingOut(m, guards, k, i, filtered, shadow)
    requires i < |m| && |filtered| < k && m[i].key in guards
    ensures MovingOut(m, guards, k, i + 1, filtered', shadow') && |filtered'| == |filtered| + 1
  {
    ghost var kept :| Splitting(m, guards, k, i, filtered, kept) && shadow == kept + m[i..];
    TakeOne(m, guards, k, i, filtered, kept);
    PutLast(filtered, m[i]);
    MoveOut(m, i, kept);
    filtered' := Put(filtered, m[i], false);
    shadow' := Erase(shadow, m[i].hash);
  }

  lemma PassOther(m: seq<Soln>, guards: set<Point>, k: nat, i: nat, filtered: seq<Soln>, shadow: seq<Soln>)
    requires Ascending(m) && MovingOut(m, guards, k, i, filtered, shadow) && i < |m| && m[i].key !in guards
    ensures MovingOut(m, guards, k, i + 1, filtered, shadow)
  {
    var kept :| Splitting(m, guards, k, i, filtered, kept) && shadow == kept + m[i..];
    PassOne(m, guards, k, i, filtered, kept);
    assert shadow == (kept + [m[i]]) + m[i + 1..];
  }

  lemma MovingStarts(m: seq<Soln>, guards: set<Point>, k: nat)
    ensures MovingOut(m, guards, k, 0, [], m)
  {
    assert m[0..] == m;
    assert Splitting(m, guards, k, 0, [], []);
    assert m == [] + m[0..];
  }

  lemma MovingEnds(m: seq<Soln>, guards: set<Point>, k: nat, i: nat, filtered: seq<Soln>, shadow: seq<Soln>)
    requires MovingOut(m, guards, k, i, filtered, shadow) && (i == |m| || |filtered| == k)
    ensures filtered == FirstGuards(m, guards, k) && shadow == AllBut(m, guards, k)
  {
    var kept :| Splitting(m, guards, k, i, filtered, kept) && shadow == kept + m[i..];
    SplittingDone(m, guards, k, i, filtered, kept);
  }

  method TakeGuardsFirst(m: seq<Soln>, keep: nat, guardCount: nat, guards: set<Point>) returns (r: seq<Soln>)
    requires Ascending(m)
    ensures r == Trimmed(m, GuardMode(keep, guardCount, guards))
  {
    var shadow, count;
    ghost var k := Min(keep, guardCount);
    r, shadow := SplitGuards(m, keep, guardCount, guards);
    SplitSizes(m, guards, k);
    count := |r|;
    ghost var first := r;
    var i := 0;
    while i < |shadow| && count < keep
      invariant 0 <= i <= Min(keep - |first|, |shadow|) && count == |first| + i
      invariant r == PutAll(first, shadow[..i])
    {
      assert shadow[..i + 1][..i] == shadow[..i];
      r := Put(r, shadow[i], false);
      count := count + 1;
      i := i + 1;
    }
  }

  /** Moves guards out of a copy of the list, up to their share. */
  method SplitGuards(m: seq<Soln>, keep: nat, guardCount: nat, guards: set<Point>) returns (filtered: seq<Soln>, shadow: seq<Soln>)
    requires Ascending(m)
    ensures filtered == FirstGuards(m, guards, Min(keep, guardCount))
    ensures shadow == AllBut(m, guards, Min(keep, guardCount))
  {
    ghost var k := Min(keep, guardCount);
    filtered, shadow := [], m;
    MovingStarts(m, guards, k);
    var i, stop := 0, false;
    while i < |m| && |filtered| < keep && !stop
      invariant 0 <= i <= |m| && MovingOut(m, guards, k, i, filtered, shadow)
      invariant stop ==> |filtered| == k
      decreases |m| - i, !stop
    {
      filtered, shadow, i, stop := SplitStep(m, keep, guardCount, guards, i, filtered, shadow);
    }
    MovingEnds(m, guards, k, i, filtered, shadow);
  }

  /** Looks at entry `i`; a guard beyond the share ends the pass. */
  method SplitStep(m: seq<Soln>, ghost keep: nat, guardCount: nat, guards: set<Point>, i0: nat, filtered0: seq<Soln>, shadow0: seq<Soln>)
    returns (filtered: seq<Soln>, shadow: seq<Soln>, i: nat, stop: bool)
    requires Ascending(m) && MovingOut(m, guards, Min(keep, guardCount), i0, filtered0, shadow0)
    requires i0 < |m| && |filtered0| < keep
    ensures i <= |m| && MovingOut(m, guards, Min(keep, guardCount), i, filtered, shadow)
    ensures if stop then i == i0 && |filtered| == Min(keep, guardCount) else i == i0 + 1
  {
    filtered, shadow, i, stop := filtered0, shadow0, i0, false;
    if m[i].key in guards {
      if |filtered| == guardCount {
        stop := true;
        return;
      }
      filtered, shadow := MoveGuard(m, guards, Min(keep, guardCount), i, filtered, shadow);
    } else {
      PassOther(m, guards, Min(keep, guardCount), i, filtered, shadow);
    }
    i := i + 1;
  }
}
