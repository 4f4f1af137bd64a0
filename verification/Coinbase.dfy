/** Paying out the reward of a DS epoch. */
module Coinbase {
  import opened Wrappers
  import opened MultiSig
  import opened Numbers

  // Base rewards go to every node, signature and lookup rewards follow the record, and what rounding and failed
  // payments leave over goes to one winner of a draw.

  type Address = nat
  const COINBASE: Address := 0
  /** Addresses derived from keys; the coinbase account has none. */
  type Rewardee = a: nat | a != 0 witness 1

  type Balances = map<Address, nat>

  // ---------- accounts

  function BalanceOf(b: Balances, a: Address): nat { if a in b then b[a] else 0 }

  predicate CanMove(b: Balances, from: Address, to: Address, amount: nat) {
    amount == 0 || (amount <= BalanceOf(b, from) && (from == to || BalanceOf(b, to) + amount < MAX128))
  }

  /** All of the amount or nothing. */
  function Moved(b: Balances, from: Address, to: Address, amount: nat): Balances
    requires CanMove(b, from, to, amount)
  {
    if amount == 0 || from == to then b
    else b[from := BalanceOf(b, from) - amount][to := BalanceOf(b, to) + amount]
  }

  ghost function Total(b: Balances): nat { SumOver(b.Keys, b) }

  ghost function SumOver(accounts: set<Address>, b: Balances): nat
    requires accounts <= b.Keys
  {
    if accounts == {} then 0 else
      var a :| a in accounts;
      b[a] + SumOver(accounts - {a}, b)
  }

  lemma {:induction false} SumPick(accounts: set<Address>, b: Balances, a: Address)
    requires accounts <= b.Keys && a in accounts
    ensures SumOver(accounts, b) == b[a] + SumOver(accounts - {a}, b)
    decreases accounts
  {
    var x :| x in accounts && SumOver(accounts, b) == b[x] + SumOver(accounts - {x}, b);
    if x != a {
      assert accounts - {x} - {a} == accounts - {a} - {x};
      SumPick(accounts - {x}, b, a);
      SumPick(accounts - {a}, b, x);
    }
  }

  lemma {:induction false} SumAgrees(accounts: set<Address>, b: Balances, b': Balances)
    requires accounts <= b.Keys && accounts <= b'.Keys && forall a :: a in accounts ==> b[a] == b'[a]
    ensures SumOver(accounts, b) == SumOver(accounts, b')
    decreases accounts
  {
    if accounts != {} {
      var a :| a in accounts;
      SumPick(accounts, b, a);
      SumPick(accounts, b', a);
      SumAgrees(accounts - {a}, b, b');
    }
  }

  lemma TotalSet(b: Balances, a: Address, v: nat)
    ensures Total(b[a := v]) == Total(b) - BalanceOf(b, a) + v
  {
    var b' := b[a := v];
    SumPick(b'.Keys, b', a);
    SumAgrees(b.Keys - {a}, b, b');
    assert b'.Keys - {a} == b.Keys - {a};
    if a in b {
      SumPick(b.Keys, b, a);
    } else {
      assert b.Keys - {a} == b.Keys;
    }
  }

  /** A transfer creates and destroys nothing. */
  lemma MovedConserves(b: Balances, from: Address, to: Address, amount: nat)
    requires CanMove(b, from, to, amount)
    ensures Total(Moved(b, from, to, amount)) == Total(b)
  {
    if amount != 0 && from != to {
      TotalSet(b, from, BalanceOf(b, from) - amount);
      TotalSet(b[from := BalanceOf(b, from) - amount], to, BalanceOf(b, to) + amount);
    }
  }

  lemma CreditedTotal(b: Balances, fees: nat)
    ensures Total(Credited(b, fees)) == Total(b) + if BalanceOf(b, COINBASE) + fees < MAX128 then fees else 0
  {
    TotalSet(b, COINBASE, BalanceOf(b, COINBASE) + fees);
  }

  /** Enough in the coinbase account for `left`, and nobody so rich that receiving it would overflow. */
  ghost predicate Funded(b: Balances, left: nat) {
    BalanceOf(b, COINBASE) >= left && forall a :: a != COINBASE ==> BalanceOf(b, a) + left < MAX128
  }

  lemma FundedMove(b: Balances, left: nat, to: Address, amount: nat)
    requires Funded(b, left) && amount <= left
    ensures CanMove(b, COINBASE, to, amount) && Funded(Moved(b, COINBASE, to, amount), left - amount)
  {
    var b' := Moved(b, COINBASE, to, amount);
    forall a | a != COINBASE
      ensures BalanceOf(b', a) + (left - amount) < MAX128
    {
      assert BalanceOf(b, a) + left < MAX128;
    }
  }

  /** The gas fees go to the coinbase account first; an overflow there is only noted. */
  function Credited(b: Balances, fees: nat): Balances {
    if fees != 0 && BalanceOf(b, COINBASE) + fees < MAX128 then b[COINBASE := BalanceOf(b, COINBASE) + fees] else b
  }

  /** A payment out of the coinbase account: made in full or not at all. */
  function Pay(b: Balances, to: Rewardee, amount: nat): Balances {
    if CanMove(b, COINBASE, to, amount) then Moved(b, COINBASE, to, amount) else b
  }

  // ---------- the shares

  datatype Params = Params(
    coinbaseReward: nat, fees: nat, basePercent: nat, lookupPercent: nat,
    guardMode: bool, dsGuards: set<Point>, shardGuards: set<Point>, address: Point -> Rewardee)
  {
    function Total(): nat { coinbaseReward + fees }
    predicate Valid() { basePercent + lookupPercent <= 100 }
  }

  datatype Shares = Shares(total: nat, baseEach: nat, signatureEach: nat, lookupEach: nat)

  function Percent(total: nat, percent: nat): nat { total * percent / 100 }

  /** Every checked operation succeeds: no sum or product beyond 128 bits, no division by an empty count. */
  predicate Computable(p: Params, nodes: nat, signatures: nat, lookups: nat) {
    && p.Total() < MAX128
    && !Overflows(p.Total(), p.basePercent)
    && !Overflows(p.Total(), p.lookupPercent)
    && nodes > 0 && signatures > 0 && lookups > 0
  }

  /** The two cuts never exceed the whole, for every total, exactly when the percentages do not. */
  lemma CutsFitExactly(basePercent: nat, lookupPercent: nat)
    ensures (forall total :: Percent(total, basePercent) + Percent(total, lookupPercent) <= total)
       <==> basePercent + lookupPercent <= 100
  {
    if basePercent + lookupPercent <= 100 {
      forall total
        ensures Percent(total, basePercent) + Percent(total, lookupPercent) <= total
      {
        CutsFit(total, basePercent, lookupPercent);
      }
    } else {
      assert Percent(100, basePercent) + Percent(100, lookupPercent) > 100;
    }
  }

  lemma CutsFit(total: nat, basePercent: nat, lookupPercent: nat)
    requires basePercent + lookupPercent <= 100
    ensures Percent(total, basePercent) + Percent(total, lookupPercent) <= total
  {
    MulLe(total, basePercent + lookupPercent, 100);
    assert total * (basePercent + lookupPercent) == total * basePercent + total * lookupPercent;
  }

  /** Equal shares, rounded down, of the base cut, the lookup cut and what is left for signatures. */
  function SharesOf(p: Params, nodes: nat, signatures: nat, lookups: nat): Shares
    requires nodes > 0 && signatures > 0 && lookups > 0
  {
    var total := p.Total();
    var base, lookupReward := Percent(total, p.basePercent), Percent(total, p.lookupPercent);
    Shares(total, Share(base, nodes), Share(Wrap128(total - lookupReward - base), signatures), Share(lookupReward, lookups))
  }

  function Share(amount: nat, count: nat): nat
    requires count > 0
  {
    amount / count
  }

  predicate Overflows(total: nat, percent: nat) { total * percent >= MAX128 }

  method ComputeShares(p: Params, nodes: nat, signatures: nat, lookups: nat) returns (r: Option<Shares>)
    ensures r.Some? <==> Computable(p, nodes, signatures, lookups)
    ensures r.Some? ==> r.value == SharesOf(p, nodes, signatures, lookups)
  {
    var total := p.coinbaseReward + p.fees;
    if total >= MAX128 || Overflows(total, p.basePercent) || nodes == 0 {
      return None;
    }
    var base := Percent(total, p.basePercent);
    var baseEach := Share(base, nodes);
    if Overflows(total, p.lookupPercent) {
      return None;
    }
    var lookupReward := Percent(total, p.lookupPercent);
    var nodeReward := Wrap128(total - lookupReward - base);
    if signatures == 0 || lookups == 0 {
      return None;
    }
    return Some(Shares(total, baseEach, Share(nodeReward, signatures), Share(lookupReward, lookups)));
  }

  /** `n` equal shares, added up one by one. */
  ghost function Times(n: nat, each: nat): nat {
    if n == 0 then 0 else Times(n - 1, each) + each
  }

  lemma {:induction false} TimesIs(n: nat, each: nat)
    ensures Times(n, each) == n * each
  {
    if n > 0 {
      TimesIs(n - 1, each);
    }
  }

  lemma TimesAdd(m: nat, n: nat, each: nat)
    ensures Times(m + n, each) == Times(m, each) + Times(n, each)
  {
    TimesIs(m, each);
    TimesIs(n, each);
    TimesIs(m + n, each);
  }

  lemma TimesMono(m: nat, n: nat, each: nat)
    requires m <= n
    ensures Times(m, each) <= Times(n, each)
  {
    TimesAdd(m, n - m, each);
  }

  /** What is handed out in equal shares never exceeds what was to be shared. */
  lemma SharesFit(amount: nat, count: nat)
    requires count > 0
    ensures Times(count, Share(amount, count)) <= amount
  {
    TimesIs(count, amount / count);
  }

  /** What so many shares of each kind cost. */
  ghost function Cost(s: Shares, nodes: nat, signatures: nat, lookups: nat): nat {
    Times(nodes, s.baseEach) + Times(signatures, s.signatureEach) + Times(lookups, s.lookupEach)
  }

  lemma CostFits(p: Params, nodes: nat, signatures: nat, lookups: nat)
    requires p.Valid() && p.Total() < MAX128 && nodes > 0 && signatures > 0 && lookups > 0
    ensures Cost(SharesOf(p, nodes, signatures, lookups), nodes, signatures, lookups) <= p.Total()
  {
    var base, lookupReward := Percent(p.Total(), p.basePercent), Percent(p.Total(), p.lookupPercent);
    CutsFit(p.Total(), p.basePercent, p.lookupPercent);
    Wrap128Fits(p.Total() - lookupReward - base);
    SharesFit(base, nodes);
    SharesFit(p.Total() - lookupReward - base, signatures);
    SharesFit(lookupReward, lookups);
  }

  // ---------- base rewards

  /** Balances, those in line for the draw, and who is known to be a guard. */
  datatype Base = Base(b: Balances, nonGuard: seq<Point>, isGuard: map<Point, bool>)

  function PayNode(p: Params, st: Base, key: Point, guards: set<Point>, each: nat): Base {
    if p.guardMode && key in guards then st.(isGuard := st.isGuard[key := true])
    else
      Base(Pay(st.b, p.address(key), each), st.nonGuard + [key],
           if p.guardMode then st.isGuard[key := false] else st.isGuard)
  }

  function PayNodes(p: Params, st: Base, keys: seq<Point>, guards: set<Point>, each: nat): Base {
    if keys == [] then st else PayNode(p, PayNodes(p, st, keys[..|keys| - 1], guards, each), keys[|keys| - 1], guards, each)
  }

  function PayShards(p: Params, st: Base, shards: seq<seq<Point>>, each: nat): Base {
    if shards == [] then st
    else PayNodes(p, PayShards(p, st, shards[..|shards| - 1], each), shards[|shards| - 1], p.shardGuards, each)
  }

  // ---------- rewards by record

  /** One record: the lookup nodes of an epoch, or the signers of a shard's block. */
  datatype Batch = Lookups(keys: seq<Point>) | Signers(keys: seq<Point>)

  /** Balances, rewards given so far, and the lookup nodes that got theirs. */
  datatype Progress = Progress(b: Balances, signatures: nat, lookups: nat, rewarded: seq<Point>)

  function PayLookup(p: Params, pr: Progress, key: Point, each: nat): Progress {
    if CanMove(pr.b, COINBASE, p.address(key), each) then
      Progress(Pay(pr.b, p.address(key), each), pr.signatures, pr.lookups + 1, pr.rewarded + [key])
    else pr
  }

  /** A guard's signature counts as rewarded without being paid; a failed payment does not count. */
  function PaySigner(p: Params, isGuard: map<Point, bool>, pr: Progress, key: Point, each: nat): Progress {
    if p.guardMode && key in isGuard && isGuard[key] then pr.(signatures := pr.signatures + 1)
    else if CanMove(pr.b, COINBASE, p.address(key), each) then
      pr.(b := Pay(pr.b, p.address(key), each), signatures := pr.signatures + 1)
    else pr
  }

  function PayKeys(p: Params, isGuard: map<Point, bool>, s: Shares, pr: Progress, lookup: bool, keys: seq<Point>): Progress {
    if keys == [] then pr
    else
      var before := PayKeys(p, isGuard, s, pr, lookup, keys[..|keys| - 1]);
      if lookup then PayLookup(p, before, keys[|keys| - 1], s.lookupEach)
      else PaySigner(p, isGuard, before, keys[|keys| - 1], s.signatureEach)
  }

  function PayRecords(p: Params, isGuard: map<Point, bool>, s: Shares, pr: Progress, bs: seq<Batch>): Progress {
    if bs == [] then pr
    else
      var last := bs[|bs| - 1];
      PayKeys(p, isGuard, s, PayRecords(p, isGuard, s, pr, bs[..|bs| - 1]), last.Lookups?, last.keys)
  }

  function CountSigners(bs: seq<Batch>): nat {
    if bs == [] then 0 else CountSigners(bs[..|bs| - 1]) + if bs[|bs| - 1].Signers? then |bs[|bs| - 1].keys| else 0
  }

  function CountLookups(bs: seq<Batch>): nat {
    if bs == [] then 0 else CountLookups(bs[..|bs| - 1]) + if bs[|bs| - 1].Lookups? then |bs[|bs| - 1].keys| else 0
  }

  function CountNodes(shards: seq<seq<Point>>): nat {
    if shards == [] then 0 else CountNodes(shards[..|shards| - 1]) + |shards[|shards| - 1]|
  }

  // ---------- the whole payout

  datatype Epoch = Epoch(ds: seq<Point>, shards: seq<seq<Point>>, records: seq<Batch>, lastBlockHash: nat) {
    function Nodes(): nat { |ds| + CountNodes(shards) }
    function Signatures(): nat { CountSigners(records) }
    /** Counted in 32 bits. */
    function LookupEntries(): nat { CountLookups(records) % MAX32 }
  }

  predicate Payable(p: Params, e: Epoch) { Computable(p, e.Nodes(), e.Signatures(), e.LookupEntries()) }

  function AfterBase(p: Params, e: Epoch, s: Shares, b: Balances): Base {
    PayShards(p, PayNodes(p, Base(b, [], map[]), e.ds, p.dsGuards, s.baseEach), e.shards, s.baseEach)
  }

  function AfterRecords(p: Params, e: Epoch, s: Shares, b: Balances): Progress {
    PayRecords(p, AfterBase(p, e, s, b).isGuard, s, Progress(AfterBase(p, e, s, b).b, 0, 0, []), e.records)
  }

  function Candidates(p: Params, e: Epoch, s: Shares, b: Balances): seq<Point> {
    AfterBase(p, e, s, b).nonGuard + AfterRecords(p, e, s, b).rewarded
  }

  /** What the remainder is computed from: a base share for every node, and the rewards counted. */
  function Spent(e: Epoch, s: Shares, pr: Progress): nat {
    Deducted(s, e.Nodes(), pr.signatures, pr.lookups)
  }

  function Deducted(s: Shares, nodes: nat, signatures: nat, lookups: nat): nat {
    signatures * s.signatureEach + lookups * s.lookupEach + nodes * s.baseEach
  }

  /** The final balances; `left` goes to one of the candidates, if there are any. */
  function Drawn(p: Params, e: Epoch, candidates: seq<Point>, left: nat, b: Balances): Balances {
    if candidates == [] then b else Pay(b, p.address(candidates[e.lastBlockHash % |candidates|]), left)
  }

  class Treasury {
    var balances: Balances

    constructor (b: Balances)
      ensures balances == b
    {
      balances := b;
    }

    method UpdateCoinbase(to: Rewardee, amount: nat) returns (ok: bool)
      modifies this
      ensures ok == CanMove(old(balances), COINBASE, to, amount)
      ensures balances == Pay(old(balances), to, amount)
    {
      ok := CanMove(balances, COINBASE, to, amount);
      if ok {
        balances := Moved(balances, COINBASE, to, amount);
      }
    }

    /** The base reward for a list of nodes; guards are passed over in guard mode. */
    method PayBase(p: Params, nodes: seq<Point>, guards: set<Point>, each: nat, nonGuard0: seq<Point>, isGuard0: map<Point, bool>)
      returns (nonGuard: seq<Point>, isGuard: map<Point, bool>)
      modifies this
      ensures Base(balances, nonGuard, isGuard) == PayNodes(p, Base(old(balances), nonGuard0, isGuard0), nodes, guards, each)
    {
      nonGuard, isGuard := nonGuard0, isGuard0;
      ghost var start := Base(balances, nonGuard0, isGuard0);
      var i := 0;
      while i < |nodes|
        invariant 0 <= i <= |nodes| && Base(balances, nonGuard, isGuard) == PayNodes(p, start, nodes[..i], guards, each)
      {
        assert nodes[..i + 1][..i] == nodes[..i];
        if p.guardMode && nodes[i] in guards {
          isGuard := isGuard[nodes[i] := true];
        } else {
          if p.guardMode {
            isGuard := isGuard[nodes[i] := false];
          }
          nonGuard := nonGuard + [nodes[i]];
          var _ := UpdateCoinbase(p.address(nodes[i]), each);
        }
        i := i + 1;
      }
      assert nodes[..i] == nodes;
    }

    method PayAllNodes(p: Params, e: Epoch, s: Shares) returns (nonGuard: seq<Point>, isGuard: map<Point, bool>)
      modifies this
      ensures Base(balances, nonGuard, isGuard) == AfterBase(p, e, s, old(balances))
    {
      nonGuard, isGuard := PayBase(p, e.ds, p.dsGuards, s.baseEach, [], map[]);
      ghost var start := Base(balances, nonGuard, isGuard);
      var i := 0;
      while i < |e.shards|
        invariant 0 <= i <= |e.shards| && Base(balances, nonGuard, isGuard) == PayShards(p, start, e.shards[..i], s.baseEach)
      {
        assert e.shards[..i + 1][..i] == e.shards[..i];
        nonGuard, isGuard := PayBase(p, e.shards[i], p.shardGuards, s.baseEach, nonGuard, isGuard);
        i := i + 1;
      }
      assert e.shards[..i] == e.shards;
    }

    method PayRecord(p: Params, isGuard: map<Point, bool>, s: Shares, b: Batch, signatures0: nat, lookups0: nat, rewarded0: seq<Point>)
      returns (signatures: nat, lookups: nat, rewarded: seq<Point>)
      modifies this
      ensures Progress(balances, signatures, lookups, rewarded)
           == PayKeys(p, isGuard, s, Progress(old(balances), signatures0, lookups0, rewarded0), b.Lookups?, b.keys)
    {
      signatures, lookups, rewarded := signatures0, lookups0, rewarded0;
      ghost var start := Progress(balances, signatures, lookups, rewarded);
      var i := 0;
      while i < |b.keys|
        invariant 0 <= i <= |b.keys|
        invariant Progress(balances, signatures, lookups, rewarded) == PayKeys(p, isGuard, s, start, b.Lookups?, b.keys[..i])
      {
        assert b.keys[..i + 1][..i] == b.keys[..i];
        var key := b.keys[i];
        if b.Lookups? {
          var ok := UpdateCoinbase(p.address(key), s.lookupEach);
          if ok {
            rewarded := rewarded + [key];
            lookups := lookups + 1;
          }
        } else if p.guardMode && key in isGuard && isGuard[key] {
          signatures := signatures + 1;
        } else {
          var ok := UpdateCoinbase(p.address(key), s.signatureEach);
          if ok {
            signatures := signatures + 1;
          }
        }
        i := i + 1;
      }
      assert b.keys[..i] == b.keys;
    }

    method PayAllRecords(p: Params, isGuard: map<Point, bool>, s: Shares, bs: seq<Batch>)
      returns (signatures: nat, lookups: nat, rewarded: seq<Point>)
      modifies this
      ensures Progress(balances, signatures, lookups, rewarded)
           == PayRecords(p, isGuard, s, Progress(old(balances), 0, 0, []), bs)
    {
      signatures, lookups, rewarded := 0, 0, [];
      ghost var start := Progress(balances, 0, 0, []);
      var i := 0;
      while i < |bs|
        invariant 0 <= i <= |bs|
        invariant Progress(balances, signatures, lookups, rewarded) == PayRecords(p, isGuard, s, start, bs[..i])
      {
        assert bs[..i + 1][..i] == bs[..i];
        signatures, lookups, rewarded := PayRecord(p, isGuard, s, bs[i], signatures, lookups, rewarded);
        i := i + 1;
      }
      assert bs[..i] == bs;
    }

    /** The reward split. If the shares cannot be computed nothing changes. Otherwise the balances are
        those of the specified payout: fees credited, every node and record paid in order, the rest
        drawn. */
    method InitCoinbase(p: Params, e: Epoch) returns (ok: bool)
      modifies this
      ensures ok <==> Payable(p, e)
      ensures !ok ==> balances == old(balances)
      ensures ok ==> balances == Payout(p, e, old(balances))
    {
      var signatures, lookups := CountRecords(e.records);
      var nodes := CountAllNodes(e);
      var shares := ComputeShares(p, nodes, signatures, lookups);
      if shares.None? {
        return false;
      }
      CreditFees(p.fees);
      PayEverything(p, e, shares.value, nodes);
      return true;
    }

    method CreditFees(fees: nat)
      modifies this
      ensures balances == Credited(old(balances), fees)
    {
      if fees != 0 && BalanceOf(balances, COINBASE) + fees < MAX128 {
        balances := balances[COINBASE := BalanceOf(balances, COINBASE) + fees];
      }
    }

    /** Nodes, records, and the draw. */
    method PayEverything(p: Params, e: Epoch, s: Shares, nodes: nat)
      requires nodes == e.Nodes()
      modifies this
      ensures var b := old(balances);
              var pr := AfterRecords(p, e, s, b);
              balances == Drawn(p, e, Candidates(p, e, s, b), Wrap128(s.total - Spent(e, s, pr)), pr.b)
    {
      var nonGuard, isGuard := PayAllNodes(p, e, s);
      var signatures, lookups, rewarded := PayAllRecords(p, isGuard, s, e.records);
      var left := Wrap128(s.total - Deducted(s, nodes, signatures, lookups));
      var candidates := nonGuard + rewarded;
      if |candidates| != 0 {
        var _ := UpdateCoinbase(p.address(candidates[e.lastBlockHash % |candidates|]), left);
      }
    }
  }

  /** The totals of the records; the lookup total is a 32-bit number. */
  method CountRecords(bs: seq<Batch>) returns (signatures: nat, lookups: nat)
    ensures signatures == CountSigners(bs) && lookups == CountLookups(bs) % MAX32
  {
    signatures, lookups := 0, 0;
    var i := 0;
    while i < |bs|
      invariant 0 <= i <= |bs| && signatures == CountSigners(bs[..i]) && lookups == CountLookups(bs[..i]) % MAX32
    {
      assert bs[..i + 1][..i] == bs[..i];
      match bs[i] {
        case Lookups(keys) => lookups := (lookups + |keys|) % MAX32;
        case Signers(keys) => signatures := signatures + |keys|;
      }
      i := i + 1;
    }
    assert bs[..i] == bs;
  }

  method CountAllNodes(e: Epoch) returns (nodes: nat)
    ensures nodes == e.Nodes()
  {
    nodes := |e.ds|;
    var i := 0;
    while i < |e.shards|
      invariant 0 <= i <= |e.shards| && nodes == |e.ds| + CountNodes(e.shards[..i])
    {
      assert e.shards[..i + 1][..i] == e.shards[..i];
      nodes := nodes + |e.shards[i]|;
      i := i + 1;
    }
    assert e.shards[..i] == e.shards;
  }

  // ---------- what a payout does to the balances

  /** From `b` to `b'`: no coin created or lost, and at most `amount` has left the coinbase account. */
  ghost predicate Within(b: Balances, b': Balances, amount: nat) {
    Total(b') == Total(b) && BalanceOf(b', COINBASE) <= BalanceOf(b, COINBASE) <= BalanceOf(b', COINBASE) + amount
  }

  /** ... and if the funds suffice for `left`, exactly `amount` of them has. */
  ghost predicate Exactly(b: Balances, b': Balances, left: nat, amount: nat) {
    Funded(b, left) && amount <= left ==>
      Funded(b', left - amount) && BalanceOf(b', COINBASE) + amount == BalanceOf(b, COINBASE)
  }

  lemma PayWithin(b: Balances, to: Rewardee, amount: nat, left: nat)
    ensures Within(b, Pay(b, to, amount), amount)
    ensures Exactly(b, Pay(b, to, amount), left, amount)
    ensures Funded(b, left) && amount <= left ==> CanMove(b, COINBASE, to, amount)
    ensures !CanMove(b, COINBASE, to, amount) ==> Pay(b, to, amount) == b
  {
    if CanMove(b, COINBASE, to, amount) {
      MovedConserves(b, COINBASE, to, amount);
    }
    if Funded(b, left) && amount <= left {
      FundedMove(b, left, to, amount);
    }
  }

  lemma {:induction false} NodesWithin(p: Params, st: Base, keys: seq<Point>, guards: set<Point>, each: nat, left: nat)
    ensures var st' := PayNodes(p, st, keys, guards, each);
            && Within(st.b, st'.b, Times(|keys|, each))
            && (!p.guardMode ==> Exactly(st.b, st'.b, left, Times(|keys|, each)) && |st'.nonGuard| == |st.nonGuard| + |keys|)
  {
    if keys != [] {
      var init, key := keys[..|keys| - 1], keys[|keys| - 1];
      NodesWithin(p, st, init, guards, each, left);
      var before := PayNodes(p, st, init, guards, each);
      PayWithin(before.b, p.address(key), each, Less(left, Times(|init|, each)));
    }
  }

  ghost function Less(left: nat, used: nat): nat { if used <= left then left - used else 0 }

  lemma {:induction false} ShardsWithin(p: Params, st: Base, shards: seq<seq<Point>>, each: nat, left: nat)
    ensures var st' := PayShards(p, st, shards, each);
            && Within(st.b, st'.b, Times(CountNodes(shards), each))
            && (!p.guardMode ==>
                  && Exactly(st.b, st'.b, left, Times(CountNodes(shards), each))
                  && |st'.nonGuard| == |st.nonGuard| + CountNodes(shards))
  {
    if shards != [] {
      var init, last := shards[..|shards| - 1], shards[|shards| - 1];
      ShardsWithin(p, st, init, each, left);
      TimesAdd(CountNodes(init), |last|, each);
      NodesWithin(p, PayShards(p, st, init, each), last, p.shardGuards, each, Less(left, Times(CountNodes(init), each)));
    }
  }

  lemma BaseWithin(p: Params, e: Epoch, s: Shares, b: Balances, left: nat)
    ensures var st := AfterBase(p, e, s, b);
            && Within(b, st.b, Times(e.Nodes(), s.baseEach))
            && (!p.guardMode ==> Exactly(b, st.b, left, Times(e.Nodes(), s.baseEach)) && |st.nonGuard| == e.Nodes())
  {
    var start := Base(b, [], map[]);
    var st := PayNodes(p, start, e.ds, p.dsGuards, s.baseEach);
    TimesAdd(|e.ds|, CountNodes(e.shards), s.baseEach);
    NodesWithin(p, start, e.ds, p.dsGuards, s.baseEach, left);
    ShardsWithin(p, st, e.shards, s.baseEach, Less(left, Times(|e.ds|, s.baseEach)));
  }

  /** What the rewards given between two points cost. */
  ghost function RewardCost(s: Shares, pr: Progress): nat {
    Times(pr.signatures, s.signatureEach) + Times(pr.lookups, s.lookupEach)
  }

  /** From `b` on, the rewards counted cover what has left the account. */
  ghost predicate Covered(s: Shares, b: Balances, pr: Progress) {
    Within(b, pr.b, RewardCost(s, pr))
  }

  lemma {:induction false} KeysCovered(p: Params, isGuard: map<Point, bool>, s: Shares, b: Balances, pr: Progress, lookup: bool, keys: seq<Point>)
    requires Covered(s, b, pr)
    ensures var pr' := PayKeys(p, isGuard, s, pr, lookup, keys);
            && Covered(s, b, pr')
            && pr.signatures <= pr'.signatures <= pr.signatures + (if lookup then 0 else |keys|)
            && pr.lookups <= pr'.lookups <= pr.lookups + (if lookup then |keys| else 0)
  {
    if keys != [] {
      var init, key := keys[..|keys| - 1], keys[|keys| - 1];
      KeysCovered(p, isGuard, s, b, pr, lookup, init);
      var before := PayKeys(p, isGuard, s, pr, lookup, init);
      if lookup {
        LookupCovered(p, s, b, before, key);
      } else {
        SignerCovered(p, isGuard, s, b, before, key);
      }
    }
  }

  lemma LookupCovered(p: Params, s: Shares, b: Balances, pr: Progress, key: Point)
    requires Covered(s, b, pr)
    ensures var pr' := PayLookup(p, pr, key, s.lookupEach);
            Covered(s, b, pr') && pr'.signatures == pr.signatures && pr.lookups <= pr'.lookups <= pr.lookups + 1
  {
    PayWithin(pr.b, p.address(key), s.lookupEach, 0);
  }

  lemma SignerCovered(p: Params, isGuard: map<Point, bool>, s: Shares, b: Balances, pr: Progress, key: Point)
    requires Covered(s, b, pr)
    ensures var pr' := PaySigner(p, isGuard, pr, key, s.signatureEach);
            Covered(s, b, pr') && pr'.lookups == pr.lookups && pr.signatures <= pr'.signatures <= pr.signatures + 1
  {
    PayWithin(pr.b, p.address(key), s.signatureEach, 0);
  }

  lemma {:induction false} RecordsCovered(p: Params, isGuard: map<Point, bool>, s: Shares, b: Balances, bs: seq<Batch>)
    ensures var pr := PayRecords(p, isGuard, s, Progress(b, 0, 0, []), bs);
            Covered(s, b, pr) && pr.signatures <= CountSigners(bs) && pr.lookups <= CountLookups(bs)
  {
    if bs != [] {
      var init, last := bs[..|bs| - 1], bs[|bs| - 1];
      RecordsCovered(p, isGuard, s, b, init);
      KeysCovered(p, isGuard, s, b, PayRecords(p, isGuard, s, Progress(b, 0, 0, []), init), last.Lookups?, last.keys);
    }
  }

  /** With sufficient funds and no guards every reward is given and paid. */
  ghost predicate AllGiven(s: Shares, b: Balances, left: nat, pr: Progress) {
    && RewardCost(s, pr) <= left && Funded(pr.b, left - RewardCost(s, pr))
    && BalanceOf(pr.b, COINBASE) + RewardCost(s, pr) == BalanceOf(b, COINBASE)
  }

  lemma {:induction false} KeysGiven(p: Params, isGuard: map<Point, bool>, s: Shares, b: Balances, left: nat, pr: Progress, lookup: bool, keys: seq<Point>)
    requires !p.guardMode && AllGiven(s, b, left, pr)
    requires RewardCost(s, pr) + Times(|keys|, if lookup then s.lookupEach else s.signatureEach) <= left
    ensures var pr' := PayKeys(p, isGuard, s, pr, lookup, keys);
            && AllGiven(s, b, left, pr')
            && pr'.signatures == pr.signatures + (if lookup then 0 else |keys|)
            && pr'.lookups == pr.lookups + (if lookup then |keys| else 0)
            && RewardCost(s, pr') == RewardCost(s, pr) + Times(|keys|, if lookup then s.lookupEach else s.signatureEach)
  {
    if keys != [] {
      var init, key := keys[..|keys| - 1], keys[|keys| - 1];
      KeysGiven(p, isGuard, s, b, left, pr, lookup, init);
      var before := PayKeys(p, isGuard, s, pr, lookup, init);
      if lookup {
        LookupGiven(p, s, b, left, before, key);
      } else {
        SignerGiven(p, isGuard, s, b, left, before, key);
      }
    }
  }

  lemma LookupGiven(p: Params, s: Shares, b: Balances, left: nat, pr: Progress, key: Point)
    requires AllGiven(s, b, left, pr) && RewardCost(s, pr) + s.lookupEach <= left
    ensures var pr' := PayLookup(p, pr, key, s.lookupEach);
            && AllGiven(s, b, left, pr') && RewardCost(s, pr') == RewardCost(s, pr) + s.lookupEach
            && pr'.signatures == pr.signatures && pr'.lookups == pr.lookups + 1
  {
    PayWithin(pr.b, p.address(key), s.lookupEach, left - RewardCost(s, pr));
  }

  lemma SignerGiven(p: Params, isGuard: map<Point, bool>, s: Shares, b: Balances, left: nat, pr: Progress, key: Point)
    requires !p.guardMode && AllGiven(s, b, left, pr) && RewardCost(s, pr) + s.signatureEach <= left
    ensures var pr' := PaySigner(p, isGuard, pr, key, s.signatureEach);
            && AllGiven(s, b, left, pr') && RewardCost(s, pr') == RewardCost(s, pr) + s.signatureEach
            && pr'.signatures == pr.signatures + 1 && pr'.lookups == pr.lookups
  {
    PayWithin(pr.b, p.address(key), s.signatureEach, left - RewardCost(s, pr));
  }

  lemma {:induction false} RecordsGiven(p: Params, isGuard: map<Point, bool>, s: Shares, b: Balances, left: nat, bs: seq<Batch>)
    requires !p.guardMode && Funded(b, left)
    requires Times(CountSigners(bs), s.signatureEach) + Times(CountLookups(bs), s.lookupEach) <= left
    ensures var pr := PayRecords(p, isGuard, s, Progress(b, 0, 0, []), bs);
            AllGiven(s, b, left, pr) && pr.signatures == CountSigners(bs) && pr.lookups == CountLookups(bs)
  {
    if bs != [] {
      var init, last := bs[..|bs| - 1], bs[|bs| - 1];
      TimesAdd(CountSigners(init), if last.Signers? then |last.keys| else 0, s.signatureEach);
      TimesAdd(CountLookups(init), if last.Lookups? then |last.keys| else 0, s.lookupEach);
      RecordsGiven(p, isGuard, s, b, left, init);
      KeysGiven(p, isGuard, s, b, left, PayRecords(p, isGuard, s, Progress(b, 0, 0, []), init), last.Lookups?, last.keys);
    }
  }

  lemma SpentIs(e: Epoch, s: Shares, pr: Progress)
    ensures Spent(e, s, pr) == Cost(s, e.Nodes(), pr.signatures, pr.lookups)
  {
    TimesIs(pr.signatures, s.signatureEach);
    TimesIs(pr.lookups, s.lookupEach);
    TimesIs(e.Nodes(), s.baseEach);
  }

  lemma CostMono(s: Shares, nodes: nat, m: nat, n: nat, m': nat, n': nat)
    requires m <= m' && n <= n'
    ensures Cost(s, nodes, m, n) <= Cost(s, nodes, m', n')
  {
    TimesMono(m, m', s.signatureEach);
    TimesMono(n, n', s.lookupEach);
  }

  /** The shares of a payable epoch. */
  function EpochShares(p: Params, e: Epoch): Shares
    requires Payable(p, e)
  {
    SharesOf(p, e.Nodes(), e.Signatures(), e.LookupEntries())
  }

  /** Percentages of at most 100 together, and a number of lookup entries that fits its counter. */
  ghost predicate Sound(p: Params, e: Epoch) {
    Payable(p, e) && p.Valid() && CountLookups(e.records) < MAX32
  }

  /** The remainder is never negative, so nothing wraps around. */
  lemma SpentFits(p: Params, e: Epoch, b: Balances)
    requires Sound(p, e)
    ensures var s := EpochShares(p, e);
            Spent(e, s, AfterRecords(p, e, s, b)) <= s.total == p.Total()
  {
    var s := EpochShares(p, e);
    var base := AfterBase(p, e, s, b);
    RecordsCovered(p, base.isGuard, s, base.b, e.records);
    var pr := AfterRecords(p, e, s, b);
    SpentIs(e, s, pr);
    CostMono(s, e.Nodes(), pr.signatures, pr.lookups, e.Signatures(), e.LookupEntries());
    CostFits(p, e.Nodes(), e.Signatures(), e.LookupEntries());
  }

  /** The whole payout as a function of the balances before it. */
  function Payout(p: Params, e: Epoch, b0: Balances): Balances
    requires Payable(p, e)
  {
    var s, b := EpochShares(p, e), Credited(b0, p.fees);
    var pr := AfterRecords(p, e, s, b);
    Drawn(p, e, Candidates(p, e, s, b), Wrap128(s.total - Spent(e, s, pr)), pr.b)
  }

  lemma WithinAdds(b: Balances, b1: Balances, b2: Balances, m: nat, n: nat)
    requires Within(b, b1, m) && Within(b1, b2, n)
    ensures Within(b, b2, m + n)
  {
  }

  /** Conservation: whatever history is on record, whoever is a guard and whichever payments fail, the
      payout creates and loses no coin, and no more than the total reward leaves the coinbase account. */
  lemma PayoutConserves(p: Params, e: Epoch, b0: Balances)
    requires Sound(p, e)
    ensures Within(Credited(b0, p.fees), Payout(p, e, b0), p.Total())
  {
    var s, b := EpochShares(p, e), Credited(b0, p.fees);
    var spent, b1 := Spent(e, s, AfterRecords(p, e, s, b)), AfterRecords(p, e, s, b).b;
    BeforeDraw(p, e, s, b);
    SpentFits(p, e, b);
    Wrap128Fits(s.total - spent);
    DrawnWithin(p, e, Candidates(p, e, s, b), s.total - spent, b1);
    WithinAdds(b, b1, Payout(p, e, b0), spent, s.total - spent);
  }

  /** Even where the remainder wraps around, no coin is created or lost. */
  lemma PayoutKeepsTotal(p: Params, e: Epoch, b0: Balances)
    requires Payable(p, e)
    ensures Total(Payout(p, e, b0)) == Total(Credited(b0, p.fees))
  {
    var s, b := EpochShares(p, e), Credited(b0, p.fees);
    var pr := AfterRecords(p, e, s, b);
    BeforeDraw(p, e, s, b);
    DrawnWithin(p, e, Candidates(p, e, s, b), Wrap128(s.total - Spent(e, s, pr)), pr.b);
  }

  lemma BeforeDraw(p: Params, e: Epoch, s: Shares, b: Balances)
    ensures Within(b, AfterRecords(p, e, s, b).b, Spent(e, s, AfterRecords(p, e, s, b)))
  {
    var base, pr := AfterBase(p, e, s, b), AfterRecords(p, e, s, b);
    BaseWithin(p, e, s, b, 0);
    RecordsCovered(p, base.isGuard, s, base.b, e.records);
    WithinAdds(b, base.b, pr.b, Times(e.Nodes(), s.baseEach), RewardCost(s, pr));
    SpentIs(e, s, pr);
  }

  lemma DrawnWithin(p: Params, e: Epoch, candidates: seq<Point>, left: nat, b: Balances)
    ensures Within(b, Drawn(p, e, candidates, left, b), left)
    ensures candidates != [] ==> Exactly(b, Drawn(p, e, candidates, left, b), left, left)
  {
    if candidates != [] {
      PayWithin(b, p.address(candidates[e.lastBlockHash % |candidates|]), left, left);
    }
  }

  /** Before the draw, a funded account has paid exactly what the remainder is computed from. */
  lemma WholeBeforeDraw(p: Params, e: Epoch, b: Balances)
    requires Sound(p, e) && !p.guardMode && Funded(b, p.Total())
    ensures var s := EpochShares(p, e);
            var pr := AfterRecords(p, e, s, b);
            && Spent(e, s, pr) <= p.Total() && Funded(pr.b, p.Total() - Spent(e, s, pr))
            && BalanceOf(pr.b, COINBASE) + Spent(e, s, pr) == BalanceOf(b, COINBASE)
            && Candidates(p, e, s, b) != []
  {
    CostFits(p, e.Nodes(), e.Signatures(), e.LookupEntries());
    AllSpent(p, e, EpochShares(p, e), b, p.Total());
  }

  /** Without guards, funds that cover every share give every share. */
  lemma AllSpent(p: Params, e: Epoch, s: Shares, b: Balances, funds: nat)
    requires !p.guardMode && Funded(b, funds) && Cost(s, e.Nodes(), e.Signatures(), CountLookups(e.records)) <= funds
    ensures var pr := AfterRecords(p, e, s, b);
            && pr.signatures == e.Signatures() && pr.lookups == CountLookups(e.records)
            && Spent(e, s, pr) == Cost(s, e.Nodes(), pr.signatures, pr.lookups) <= funds
            && Funded(pr.b, funds - Spent(e, s, pr))
            && BalanceOf(pr.b, COINBASE) + Spent(e, s, pr) == BalanceOf(b, COINBASE)
            && |Candidates(p, e, s, b)| >= e.Nodes()
  {
    var base, pr := AfterBase(p, e, s, b), AfterRecords(p, e, s, b);
    BaseWithin(p, e, s, b, funds);
    RecordsGiven(p, base.isGuard, s, base.b, funds - Times(e.Nodes(), s.baseEach), e.records);
    SpentIs(e, s, pr);
  }

  /** Outside guard mode, an account that holds the total reward pays out exactly that. */
  lemma PayoutIsWhole(p: Params, e: Epoch, b0: Balances)
    requires Sound(p, e) && !p.guardMode && Funded(Credited(b0, p.fees), p.Total())
    ensures BalanceOf(Payout(p, e, b0), COINBASE) + p.Total() == BalanceOf(Credited(b0, p.fees), COINBASE)
  {
    var s, b := EpochShares(p, e), Credited(b0, p.fees);
    var pr := AfterRecords(p, e, s, b);
    WholeBeforeDraw(p, e, b);
    Wrap128Fits(s.total - Spent(e, s, pr));
    DrawnWithin(p, e, Candidates(p, e, s, b), s.total - Spent(e, s, pr), pr.b);
  }

  // ---------- exactly when the books balance

  /** The lookup entries fit their 32-bit counter, or some count is 0 and the payout never starts. */
  predicate CountsHold(e: Epoch) {
    CountLookups(e.records) < MAX32 || e.Nodes() == 0 || e.Signatures() == 0 || e.LookupEntries() == 0
  }

  /** Whatever the rewards and the balances, the remainder is not negative. */
  ghost predicate NeverNegative(e: Epoch) {
    forall p: Params, b: Balances | p.Valid() && Payable(p, e) ::
      Spent(e, EpochShares(p, e), AfterRecords(p, e, EpochShares(p, e), b)) <= p.Total()
  }

  /** ... no more than the total reward leaves the coinbase account. */
  ghost predicate NeverOverspends(e: Epoch) {
    forall p: Params, b: Balances | p.Valid() && Payable(p, e) ::
      BalanceOf(Credited(b, p.fees), COINBASE) <= BalanceOf(Payout(p, e, b), COINBASE) + p.Total()
  }

  /** ... and where there are no guards, a funded account pays out the total reward. */
  ghost predicate AlwaysWhole(e: Epoch) {
    forall p: Params, b: Balances | p.Valid() && Payable(p, e) && !p.guardMode && Funded(Credited(b, p.fees), p.Total()) ::
      BalanceOf(Payout(p, e, b), COINBASE) + p.Total() == BalanceOf(Credited(b, p.fees), COINBASE)
  }

  /** Each of the three guarantees of a payout holds exactly when the lookup count is right. */
  lemma PayoutSoundExactly(e: Epoch)
    ensures NeverNegative(e) <==> CountsHold(e)
    ensures NeverOverspends(e) <==> CountsHold(e)
    ensures AlwaysWhole(e) <==> CountsHold(e)
  {
    if CountsHold(e) {
      SoundWhenCounted(e);
    } else {
      var p, b := Overdrawn(e);
    }
  }

  lemma SoundWhenCounted(e: Epoch)
    requires CountsHold(e)
    ensures NeverNegative(e) && NeverOverspends(e) && AlwaysWhole(e)
  {
    forall p: Params, b: Balances | p.Valid() && Payable(p, e)
      ensures Spent(e, EpochShares(p, e), AfterRecords(p, e, EpochShares(p, e), b)) <= p.Total()
      ensures BalanceOf(Credited(b, p.fees), COINBASE) <= BalanceOf(Payout(p, e, b), COINBASE) + p.Total()
    {
      SpentFits(p, e, b);
      PayoutConserves(p, e, b);
    }
    forall p: Params, b: Balances | p.Valid() && Payable(p, e) && !p.guardMode && Funded(Credited(b, p.fees), p.Total())
      ensures BalanceOf(Payout(p, e, b), COINBASE) + p.Total() == BalanceOf(Credited(b, p.fees), COINBASE)
    {
      PayoutIsWhole(p, e, b);
    }
  }

  /** With the count wrapped around to `k > 0`: a reward of `k` coins, all of it for lookup nodes, out of an
      account that holds one coin more. Each entry gets one coin until all are gone. */
  lemma Overdrawn(e: Epoch) returns (p: Params, b: Balances)
    requires !CountsHold(e)
    ensures p.Valid() && Payable(p, e) && !p.guardMode && Funded(Credited(b, p.fees), p.Total())
    ensures var s := EpochShares(p, e);
            Spent(e, s, AfterRecords(p, e, s, b)) == p.Total() + 1
    ensures BalanceOf(Credited(b, p.fees), COINBASE) == p.Total() + 1
    ensures BalanceOf(Payout(p, e, b), COINBASE) == 0
  {
    var k := e.LookupEntries();
    p := Params(k, 0, 0, 100, false, {}, {}, _ => 1);
    b := map[COINBASE := k + 1];
    var s := EpochShares(p, e);
    assert s == Shares(k, 0, 0, 1);
    TimesIs(e.Nodes(), 0);
    BaseWithin(p, e, s, b, k + 1);
    var base, pr := AfterBase(p, e, s, b), AfterRecords(p, e, s, b);
    RecordsDrain(p, base.isGuard, s, base.b, k + 1, e.records);
    DrawnWithin(p, e, Candidates(p, e, s, b), Wrap128(s.total - Spent(e, s, pr)), pr.b);
  }

  /** Of `entries` lookup entries at one coin each, as many are paid as the funds allow. */
  ghost predicate Drained(funds: nat, entries: nat, pr: Progress) {
    && pr.lookups == Min(entries, funds)
    && BalanceOf(pr.b, COINBASE) == funds - pr.lookups
    && Funded(pr.b, funds - pr.lookups)
  }

  lemma {:induction false} KeysDrain(
    p: Params, isGuard: map<Point, bool>, s: Shares, funds: nat, entries: nat, pr: Progress, lookup: bool, keys: seq<Point>)
    requires s.lookupEach == 1 && s.signatureEach == 0 && Drained(funds, entries, pr)
    ensures Drained(funds, entries + if lookup then |keys| else 0, PayKeys(p, isGuard, s, pr, lookup, keys))
  {
    if keys != [] {
      var init, key := keys[..|keys| - 1], keys[|keys| - 1];
      KeysDrain(p, isGuard, s, funds, entries, pr, lookup, init);
      var before := PayKeys(p, isGuard, s, pr, lookup, init);
      if lookup && before.lookups < funds {
        FundedMove(before.b, funds - before.lookups, p.address(key), 1);
      }
    }
  }

  lemma {:induction false} RecordsDrain(p: Params, isGuard: map<Point, bool>, s: Shares, b: Balances, funds: nat, bs: seq<Batch>)
    requires s.lookupEach == 1 && s.signatureEach == 0 && Funded(b, funds) && BalanceOf(b, COINBASE) == funds
    ensures Drained(funds, CountLookups(bs), PayRecords(p, isGuard, s, Progress(b, 0, 0, []), bs))
  {
    if bs != [] {
      var init, last := bs[..|bs| - 1], bs[|bs| - 1];
      RecordsDrain(p, isGuard, s, b, funds, init);
      KeysDrain(p, isGuard, s, funds, CountLookups(init), PayRecords(p, isGuard, s, Progress(b, 0, 0, []), init), last.Lookups?, last.keys);
    }
  }

  /** With the given percentages no payout whose counts are right has a negative remainder. */
  ghost predicate PercentagesHold(basePercent: nat, lookupPercent: nat) {
    forall p: Params, e: Epoch, b: Balances |
      p.basePercent == basePercent && p.lookupPercent == lookupPercent && CountsHold(e) && Payable(p, e) ::
      Spent(e, EpochShares(p, e), AfterRecords(p, e, EpochShares(p, e), b)) <= p.Total()
  }

  /** The two constants of the configuration are 32-bit numbers. */
  lemma PercentagesExactly(basePercent: nat, lookupPercent: nat)
    requires basePercent < MAX32 && lookupPercent < MAX32
    ensures PercentagesHold(basePercent, lookupPercent) <==> basePercent + lookupPercent <= 100
  {
    if basePercent + lookupPercent <= 100 {
      forall p: Params, e: Epoch, b: Balances |
        p.basePercent == basePercent && p.lookupPercent == lookupPercent && CountsHold(e) && Payable(p, e)
        ensures Spent(e, EpochShares(p, e), AfterRecords(p, e, EpochShares(p, e), b)) <= p.Total()
      {
        SpentFits(p, e, b);
      }
    } else {
      var p, e, b := CutsTooLarge(basePercent, lookupPercent);
    }
  }

  /** One node, one signature and one lookup entry share a hundred coins: the base reward and the lookup reward
      alone are more than that. */
  lemma CutsTooLarge(basePercent: nat, lookupPercent: nat) returns (p: Params, e: Epoch, b: Balances)
    requires basePercent < MAX32 && lookupPercent < MAX32 && basePercent + lookupPercent > 100
    ensures p.basePercent == basePercent && p.lookupPercent == lookupPercent && CountsHold(e) && Payable(p, e)
    ensures Spent(e, EpochShares(p, e), AfterRecords(p, e, EpochShares(p, e), b)) > p.Total()
  {
    var key: Point := *;
    p := Params(100, 0, basePercent, lookupPercent, false, {}, {}, _ => 1);
    e := OneOfEach(key);
    b := map[COINBASE := basePercent + lookupPercent];
    CountsOfOne(key);
    OneShareEach(p, e);
    var s := EpochShares(p, e);
    LookupPaid(p, s, b, key);
    OneEachDeducted(s, AfterRecords(p, e, s, b).signatures);
  }

  lemma OneShareEach(p: Params, e: Epoch)
    requires p.Total() == 100 && Payable(p, e) && e.Nodes() == 1 && e.LookupEntries() == 1
    ensures EpochShares(p, e).baseEach == p.basePercent && EpochShares(p, e).lookupEach == p.lookupPercent
  {
  }

  lemma OneEachDeducted(s: Shares, signatures: nat)
    ensures Deducted(s, 1, signatures, 1) >= s.baseEach + s.lookupEach
  {
  }

  ghost function OneOfEach(key: Point): Epoch {
    Epoch([key], [], [Lookups([key]), Signers([key])], 0)
  }

  lemma CountsOfOne(key: Point)
    ensures var e := OneOfEach(key);
            e.Nodes() == 1 && e.Signatures() == 1 && CountLookups(e.records) == 1 == e.LookupEntries()
  {
    var lookups := Lookups([key]);
    assert OneOfEach(key).records[..1] == [lookups];
    assert CountLookups([lookups]) == 1 && CountSigners([lookups]) == 0;
  }

  lemma LookupPaid(p: Params, s: Shares, b: Balances, key: Point)
    requires !p.guardMode && Funded(b, s.baseEach + s.lookupEach)
    ensures AfterRecords(p, OneOfEach(key), s, b).lookups == 1
  {
    var e, lookups := OneOfEach(key), Lookups([key]);
    TimesIs(1, s.baseEach);
    BaseWithin(p, e, s, b, s.baseEach + s.lookupEach);
    var base := AfterBase(p, e, s, b);
    FirstLookupPaid(p, base.isGuard, s, base.b, key);
    assert e.records[..1] == [lookups];
    RecordsCovered(p, base.isGuard, s, base.b, [lookups]);
    KeysCovered(p, base.isGuard, s, base.b, PayRecords(p, base.isGuard, s, Progress(base.b, 0, 0, []), [lookups]), false, [key]);
  }

  lemma FirstLookupPaid(p: Params, isGuard: map<Point, bool>, s: Shares, b: Balances, key: Point)
    requires !p.guardMode && Funded(b, s.lookupEach)
    ensures PayRecords(p, isGuard, s, Progress(b, 0, 0, []), [Lookups([key])]).lookups == 1
  {
    TimesIs(0, s.signatureEach);
    TimesIs(1, s.lookupEach);
    RecordsGiven(p, isGuard, s, b, s.lookupEach, [Lookups([key])]);
  }

  // ---------- who gets what

  /** How many entries of a list, by position, meet a condition. */
  ghost function Hits(keys: seq<Point>, hit: Point -> bool): nat {
    |set i | 0 <= i < |keys| && hit(keys[i])|
  }

  lemma HitsAppend(keys: seq<Point>, k: Point, hit: Point -> bool)
    ensures Hits(keys + [k], hit) == Hits(keys, hit) + if hit(k) then 1 else 0
  {
    var before := set i | 0 <= i < |keys| && hit(keys[i]);
    var after := set i | 0 <= i < |keys + [k]| && hit((keys + [k])[i]);
    assert after == if hit(k) then before + {|keys|} else before;
  }

  lemma {:induction false} HitsConcat(a: seq<Point>, b: seq<Point>, hit: Point -> bool)
    ensures Hits(a + b, hit) == Hits(a, hit) + Hits(b, hit)
  {
    if b == [] {
      assert a + b == a;
    } else {
      var init, last := b[..|b| - 1], b[|b| - 1];
      HitsConcat(a, init, hit);
      HitsAppend(a + init, last, hit);
      HitsAppend(init, last, hit);
      assert a + b == a + init + [last] && b == init + [last];
    }
  }

  lemma HitsSame(keys: seq<Point>, hit: Point -> bool, hit': Point -> bool)
    requires forall k :: k in keys ==> hit(k) == hit'(k)
    ensures Hits(keys, hit) == Hits(keys, hit')
  {
    assert (set i | 0 <= i < |keys| && hit(keys[i])) == set i | 0 <= i < |keys| && hit'(keys[i]);
  }

  /** A key outside the guard list, with address `a`. */
  ghost function PaidTo(p: Params, guards: set<Point>, a: Address): Point -> bool {
    k => !(p.guardMode && k in guards) && p.address(k) == a
  }

  lemma FundedLess(b: Balances, left: nat, less: nat)
    requires Funded(b, left) && less <= left
    ensures Funded(b, less)
  {
    forall a | a != COINBASE
      ensures BalanceOf(b, a) + less < MAX128
    {
      assert BalanceOf(b, a) + left < MAX128;
    }
  }

  /** Out of sufficient funds every payment is made, and only to its rewardee. */
  lemma FundedPay(b: Balances, left: nat, to: Rewardee, amount: nat, a: Address)
    requires Funded(b, left) && amount <= left && a != COINBASE
    ensures CanMove(b, COINBASE, to, amount)
    ensures Funded(Pay(b, to, amount), left - amount)
    ensures BalanceOf(Pay(b, to, amount), a) == BalanceOf(b, a) + if to == a then amount else 0
  {
    FundedMove(b, left, to, amount);
  }

  /** From `b` to `b'`: at most `used` of the funds is gone, and `a` has gained `gain`. */
  ghost predicate Gives(b: Balances, b': Balances, left: nat, used: nat, a: Address, gain: nat) {
    used <= left && Funded(b', left - used) && BalanceOf(b', a) == BalanceOf(b, a) + gain
  }

  lemma {:induction false} NodesPaid(p: Params, st: Base, keys: seq<Point>, guards: set<Point>, each: nat, left: nat, a: Address)
    requires Funded(st.b, left) && Times(|keys|, each) <= left && a != COINBASE
    ensures Gives(st.b, PayNodes(p, st, keys, guards, each).b, left, Times(|keys|, each), a,
                  Times(Hits(keys, PaidTo(p, guards, a)), each))
  {
    if keys != [] {
      var init, key := keys[..|keys| - 1], keys[|keys| - 1];
      NodesPaid(p, st, init, guards, each, left, a);
      assert keys == init + [key];
      HitsAppend(init, key, PaidTo(p, guards, a));
      NodePaid(p, PayNodes(p, st, init, guards, each), key, guards, each, left - Times(|init|, each), a);
    }
  }

  lemma NodePaid(p: Params, st: Base, key: Point, guards: set<Point>, each: nat, left: nat, a: Address)
    requires Funded(st.b, left) && each <= left && a != COINBASE
    ensures Gives(st.b, PayNode(p, st, key, guards, each).b, left, each, a, if PaidTo(p, guards, a)(key) then each else 0)
  {
    if p.guardMode && key in guards {
      FundedLess(st.b, left, left - each);
    } else {
      FundedPay(st.b, left, p.address(key), each, a);
    }
  }

  /** The shards' members, one shard after the other. */
  function Flat(shards: seq<seq<Point>>): seq<Point> {
    if shards == [] then [] else Flat(shards[..|shards| - 1]) + shards[|shards| - 1]
  }

  lemma {:induction false} ShardsPaid(p: Params, st: Base, shards: seq<seq<Point>>, each: nat, left: nat, a: Address)
    requires Funded(st.b, left) && Times(CountNodes(shards), each) <= left && a != COINBASE
    ensures Gives(st.b, PayShards(p, st, shards, each).b, left, Times(CountNodes(shards), each), a,
                  Times(Hits(Flat(shards), PaidTo(p, p.shardGuards, a)), each))
  {
    if shards != [] {
      var init, last := shards[..|shards| - 1], shards[|shards| - 1];
      var hit := PaidTo(p, p.shardGuards, a);
      TimesAdd(CountNodes(init), |last|, each);
      ShardsPaid(p, st, init, each, left, a);
      NodesPaid(p, PayShards(p, st, init, each), last, p.shardGuards, each, left - Times(CountNodes(init), each), a);
      HitsConcat(Flat(init), last, hit);
      TimesAdd(Hits(Flat(init), hit), Hits(last, hit), each);
    }
  }

  /** The nodes outside the guard lists whose address is `a`. */
  ghost function NodesAt(p: Params, e: Epoch, a: Address): nat {
    Hits(e.ds, PaidTo(p, p.dsGuards, a)) + Hits(Flat(e.shards), PaidTo(p, p.shardGuards, a))
  }

  lemma BasePaid(p: Params, e: Epoch, s: Shares, b: Balances, left: nat, a: Address)
    requires Funded(b, left) && Times(e.Nodes(), s.baseEach) <= left && a != COINBASE
    ensures Gives(b, AfterBase(p, e, s, b).b, left, Times(e.Nodes(), s.baseEach), a, Times(NodesAt(p, e, a), s.baseEach))
  {
    var start, each := Base(b, [], map[]), s.baseEach;
    TimesAdd(|e.ds|, CountNodes(e.shards), each);
    NodesPaid(p, start, e.ds, p.dsGuards, each, left, a);
    ShardsPaid(p, PayNodes(p, start, e.ds, p.dsGuards, each), e.shards, each, left - Times(|e.ds|, each), a);
    TimesAdd(Hits(e.ds, PaidTo(p, p.dsGuards, a)), Hits(Flat(e.shards), PaidTo(p, p.shardGuards, a)), each);
  }

  // ---------- who counts as a guard, and who is in line for the draw

  /** The keys outside the guard list, in order. */
  function NonGuards(p: Params, keys: seq<Point>, guards: set<Point>): seq<Point> {
    if keys == [] then []
    else
      NonGuards(p, keys[..|keys| - 1], guards)
      + if p.guardMode && keys[|keys| - 1] in guards then [] else [keys[|keys| - 1]]
  }

  predicate Marked(isGuard: map<Point, bool>, k: Point) { k in isGuard && isGuard[k] }

  lemma {:induction false} NodesLine(p: Params, st: Base, keys: seq<Point>, guards: set<Point>, each: nat, k: Point)
    ensures var st' := PayNodes(p, st, keys, guards, each);
            && st'.nonGuard == st.nonGuard + NonGuards(p, keys, guards)
            && (p.guardMode ==> (Marked(st'.isGuard, k) <==> if k in keys then k in guards else Marked(st.isGuard, k)))
  {
    if keys != [] {
      var init, key := keys[..|keys| - 1], keys[|keys| - 1];
      NodesLine(p, st, init, guards, each, k);
      assert keys == init + [key];
    }
  }

  lemma {:induction false} ShardsLine(p: Params, st: Base, shards: seq<seq<Point>>, each: nat, k: Point)
    ensures var st' := PayShards(p, st, shards, each);
            && st'.nonGuard == st.nonGuard + NonGuards(p, Flat(shards), p.shardGuards)
            && (p.guardMode ==> (Marked(st'.isGuard, k) <==> if k in Flat(shards) then k in p.shardGuards else Marked(st.isGuard, k)))
  {
    if shards != [] {
      var init, last := shards[..|shards| - 1], shards[|shards| - 1];
      ShardsLine(p, st, init, each, k);
      NodesLine(p, PayShards(p, st, init, each), last, p.shardGuards, each, k);
      NonGuardsConcat(p, Flat(init), last, p.shardGuards);
    }
  }

  lemma {:induction false} NonGuardsConcat(p: Params, a: seq<Point>, b: seq<Point>, guards: set<Point>)
    ensures NonGuards(p, a + b, guards) == NonGuards(p, a, guards) + NonGuards(p, b, guards)
  {
    if b == [] {
      assert a + b == a;
    } else {
      var init := b[..|b| - 1];
      NonGuardsConcat(p, a, init, guards);
      assert (a + b)[..|a + b| - 1] == a + init;
    }
  }

  /** A signer counts as a guard by the list for shard nodes if it is one, else by the list for the DS
      committee if it belongs to that. */
  predicate Guarded(p: Params, e: Epoch, k: Point) {
    p.guardMode && if k in Flat(e.shards) then k in p.shardGuards else k in e.ds && k in p.dsGuards
  }

  lemma BaseLine(p: Params, e: Epoch, s: Shares, b: Balances, k: Point)
    ensures var st := AfterBase(p, e, s, b);
            && st.nonGuard == NonGuards(p, e.ds, p.dsGuards) + NonGuards(p, Flat(e.shards), p.shardGuards)
            && (p.guardMode && Marked(st.isGuard, k) <==> Guarded(p, e, k))
  {
    var start := Base(b, [], map[]);
    NodesLine(p, start, e.ds, p.dsGuards, s.baseEach, k);
    ShardsLine(p, PayNodes(p, start, e.ds, p.dsGuards, s.baseEach), e.shards, s.baseEach, k);
  }

  // ---------- the records

  /** The lookup entries and the signatures on record, in order. */
  function LookupKeys(bs: seq<Batch>): seq<Point> {
    if bs == [] then [] else LookupKeys(bs[..|bs| - 1]) + if bs[|bs| - 1].Lookups? then bs[|bs| - 1].keys else []
  }

  function SignerKeys(bs: seq<Batch>): seq<Point> {
    if bs == [] then [] else SignerKeys(bs[..|bs| - 1]) + if bs[|bs| - 1].Signers? then bs[|bs| - 1].keys else []
  }

  ghost function SignerPaid(p: Params, isGuard: map<Point, bool>, a: Address): Point -> bool {
    k => !(p.guardMode && Marked(isGuard, k)) && p.address(k) == a
  }

  ghost function LookupPaidTo(p: Params, a: Address): Point -> bool { k => p.address(k) == a }

  lemma {:induction false} LookupsPaid(p: Params, isGuard: map<Point, bool>, s: Shares, pr: Progress, keys: seq<Point>, left: nat, a: Address)
    requires Funded(pr.b, left) && Times(|keys|, s.lookupEach) <= left && a != COINBASE
    ensures var pr' := PayKeys(p, isGuard, s, pr, true, keys);
            && Gives(pr.b, pr'.b, left, Times(|keys|, s.lookupEach), a, Times(Hits(keys, LookupPaidTo(p, a)), s.lookupEach))
            && pr'.rewarded == pr.rewarded + keys && pr'.lookups == pr.lookups + |keys| && pr'.signatures == pr.signatures
  {
    if keys != [] {
      var init, key := keys[..|keys| - 1], keys[|keys| - 1];
      LookupsPaid(p, isGuard, s, pr, init, left, a);
      LookupPaidNext(p, s, PayKeys(p, isGuard, s, pr, true, init), key, left - Times(|init|, s.lookupEach), a);
      assert keys == init + [key];
      HitsAppend(init, key, LookupPaidTo(p, a));
    }
  }

  lemma LookupPaidNext(p: Params, s: Shares, pr: Progress, key: Point, left: nat, a: Address)
    requires Funded(pr.b, left) && s.lookupEach <= left && a != COINBASE
    ensures var pr' := PayLookup(p, pr, key, s.lookupEach);
            && Gives(pr.b, pr'.b, left, s.lookupEach, a, if LookupPaidTo(p, a)(key) then s.lookupEach else 0)
            && pr'.rewarded == pr.rewarded + [key] && pr'.lookups == pr.lookups + 1 && pr'.signatures == pr.signatures
  {
    FundedPay(pr.b, left, p.address(key), s.lookupEach, a);
  }

  lemma {:induction false} SignersPaid(p: Params, isGuard: map<Point, bool>, s: Shares, pr: Progress, keys: seq<Point>, left: nat, a: Address)
    requires Funded(pr.b, left) && Times(|keys|, s.signatureEach) <= left && a != COINBASE
    ensures var pr' := PayKeys(p, isGuard, s, pr, false, keys);
            && Gives(pr.b, pr'.b, left, Times(|keys|, s.signatureEach), a, Times(Hits(keys, SignerPaid(p, isGuard, a)), s.signatureEach))
            && pr'.rewarded == pr.rewarded && pr'.lookups == pr.lookups && pr'.signatures == pr.signatures + |keys|
  {
    if keys != [] {
      var init, key := keys[..|keys| - 1], keys[|keys| - 1];
      SignersPaid(p, isGuard, s, pr, init, left, a);
      SignerPaidNext(p, isGuard, s, PayKeys(p, isGuard, s, pr, false, init), key, left - Times(|init|, s.signatureEach), a);
      assert keys == init + [key];
      HitsAppend(init, key, SignerPaid(p, isGuard, a));
    }
  }

  lemma SignerPaidNext(p: Params, isGuard: map<Point, bool>, s: Shares, pr: Progress, key: Point, left: nat, a: Address)
    requires Funded(pr.b, left) && s.signatureEach <= left && a != COINBASE
    ensures var pr' := PaySigner(p, isGuard, pr, key, s.signatureEach);
            && Gives(pr.b, pr'.b, left, s.signatureEach, a, if SignerPaid(p, isGuard, a)(key) then s.signatureEach else 0)
            && pr'.rewarded == pr.rewarded && pr'.lookups == pr.lookups && pr'.signatures == pr.signatures + 1
  {
    FundedPay(pr.b, left, p.address(key), s.signatureEach, a);
    FundedLess(pr.b, left, left - s.signatureEach);
  }

  /** These signatures and lookup entries have been given their shares. */
  ghost predicate RecordsGive(p: Params, isGuard: map<Point, bool>, s: Shares, b: Balances, pr: Progress,
                              signers: seq<Point>, lookups: seq<Point>, left: nat, a: Address)
  {
    && Gives(b, pr.b, left, Times(|signers|, s.signatureEach) + Times(|lookups|, s.lookupEach), a,
             Times(Hits(signers, SignerPaid(p, isGuard, a)), s.signatureEach) + Times(Hits(lookups, LookupPaidTo(p, a)), s.lookupEach))
    && pr.signatures == |signers| && pr.lookups == |lookups| && pr.rewarded == lookups
  }

  lemma LookupRecordPaid(p: Params, isGuard: map<Point, bool>, s: Shares, b: Balances, pr: Progress,
                         signers: seq<Point>, lookups: seq<Point>, keys: seq<Point>, left: nat, a: Address)
    requires a != COINBASE && RecordsGive(p, isGuard, s, b, pr, signers, lookups, left, a)
    requires Times(|signers|, s.signatureEach) + Times(|lookups + keys|, s.lookupEach) <= left
    ensures RecordsGive(p, isGuard, s, b, PayKeys(p, isGuard, s, pr, true, keys), signers, lookups + keys, left, a)
  {
    var hit := LookupPaidTo(p, a);
    TimesAdd(|lookups|, |keys|, s.lookupEach);
    LookupsPaid(p, isGuard, s, pr, keys, left - Times(|signers|, s.signatureEach) - Times(|lookups|, s.lookupEach), a);
    HitsConcat(lookups, keys, hit);
    TimesAdd(Hits(lookups, hit), Hits(keys, hit), s.lookupEach);
  }

  lemma SignerRecordPaid(p: Params, isGuard: map<Point, bool>, s: Shares, b: Balances, pr: Progress,
                         signers: seq<Point>, lookups: seq<Point>, keys: seq<Point>, left: nat, a: Address)
    requires a != COINBASE && RecordsGive(p, isGuard, s, b, pr, signers, lookups, left, a)
    requires Times(|signers + keys|, s.signatureEach) + Times(|lookups|, s.lookupEach) <= left
    ensures RecordsGive(p, isGuard, s, b, PayKeys(p, isGuard, s, pr, false, keys), signers + keys, lookups, left, a)
  {
    var hit := SignerPaid(p, isGuard, a);
    TimesAdd(|signers|, |keys|, s.signatureEach);
    SignersPaid(p, isGuard, s, pr, keys, left - Times(|signers|, s.signatureEach) - Times(|lookups|, s.lookupEach), a);
    HitsConcat(signers, keys, hit);
    TimesAdd(Hits(signers, hit), Hits(keys, hit), s.signatureEach);
  }

  lemma {:induction false} RecordsPaid(p: Params, isGuard: map<Point, bool>, s: Shares, b: Balances, bs: seq<Batch>, left: nat, a: Address)
    requires Funded(b, left) && Times(|SignerKeys(bs)|, s.signatureEach) + Times(|LookupKeys(bs)|, s.lookupEach) <= left
    requires a != COINBASE
    ensures RecordsGive(p, isGuard, s, b, PayRecords(p, isGuard, s, Progress(b, 0, 0, []), bs), SignerKeys(bs), LookupKeys(bs), left, a)
  {
    if bs != [] {
      var init, last := bs[..|bs| - 1], bs[|bs| - 1];
      TimesMono(|SignerKeys(init)|, |SignerKeys(bs)|, s.signatureEach);
      TimesMono(|LookupKeys(init)|, |LookupKeys(bs)|, s.lookupEach);
      RecordsPaid(p, isGuard, s, b, init, left, a);
      var pr := PayRecords(p, isGuard, s, Progress(b, 0, 0, []), init);
      if last.Lookups? {
        assert SignerKeys(bs) == SignerKeys(init);
        LookupRecordPaid(p, isGuard, s, b, pr, SignerKeys(init), LookupKeys(init), last.keys, left, a);
      } else {
        assert LookupKeys(bs) == LookupKeys(init);
        SignerRecordPaid(p, isGuard, s, b, pr, SignerKeys(init), LookupKeys(init), last.keys, left, a);
      }
    }
  }

  lemma {:induction false} CountsAreLengths(bs: seq<Batch>)
    ensures CountSigners(bs) == |SignerKeys(bs)| && CountLookups(bs) == |LookupKeys(bs)|
  {
    if bs != [] {
      CountsAreLengths(bs[..|bs| - 1]);
    }
  }

  // ---------- the law for every account

  ghost function SignaturesAt(p: Params, e: Epoch, a: Address): nat {
    Hits(SignerKeys(e.records), k => !Guarded(p, e, k) && p.address(k) == a)
  }

  ghost function LookupsAt(p: Params, e: Epoch, a: Address): nat {
    Hits(LookupKeys(e.records), LookupPaidTo(p, a))
  }

  /** In line for the draw: the nodes outside the guard lists, then the lookup entries. */
  function InLine(p: Params, e: Epoch): seq<Point> {
    NonGuards(p, e.ds, p.dsGuards) + NonGuards(p, Flat(e.shards), p.shardGuards) + LookupKeys(e.records)
  }

  predicate IsDrawn(p: Params, e: Epoch, a: Address) {
    var line := InLine(p, e);
    line != [] && p.address(line[e.lastBlockHash % |line|]) == a
  }

  /** What is left for the draw when every share has been given. */
  function Remainder(p: Params, e: Epoch): nat
    requires Payable(p, e)
  {
    var s := EpochShares(p, e);
    Wrap128(p.Total() - Deducted(s, e.Nodes(), e.Signatures(), CountLookups(e.records)))
  }

  /** What account `a` earns in an epoch. */
  ghost function Earnings(p: Params, e: Epoch, a: Address): nat
    requires Payable(p, e)
  {
    Cost(EpochShares(p, e), NodesAt(p, e, a), SignaturesAt(p, e, a), LookupsAt(p, e, a))
  }

  lemma EarningsBeforeDraw(p: Params, e: Epoch, b: Balances, a: Address)
    requires Sound(p, e) && Funded(b, p.Total()) && a != COINBASE
    ensures var s := EpochShares(p, e);
            var pr := AfterRecords(p, e, s, b);
            && pr.signatures == e.Signatures() && pr.lookups == CountLookups(e.records)
            && Gives(b, pr.b, p.Total(), Cost(s, e.Nodes(), pr.signatures, pr.lookups), a, Earnings(p, e, a))
            && Candidates(p, e, s, b) == InLine(p, e)
  {
    var s, total := EpochShares(p, e), p.Total();
    var base := AfterBase(p, e, s, b);
    CostFits(p, e.Nodes(), e.Signatures(), e.LookupEntries());
    BasePaid(p, e, s, b, total, a);
    CountsAreLengths(e.records);
    RecordsPaid(p, base.isGuard, s, base.b, e.records, total - Times(e.Nodes(), s.baseEach), a);
    LineIs(p, e, s, b, a);
  }

  /** What is drawn is what is left. */
  lemma RemainderIs(p: Params, e: Epoch, b: Balances)
    requires Sound(p, e)
    requires var pr := AfterRecords(p, e, EpochShares(p, e), b);
             pr.signatures == e.Signatures() && pr.lookups == CountLookups(e.records)
    ensures var s := EpochShares(p, e);
            var pr := AfterRecords(p, e, s, b);
            && Remainder(p, e) == Wrap128(s.total - Spent(e, s, pr))
            && Remainder(p, e) + Cost(s, e.Nodes(), pr.signatures, pr.lookups) == p.Total()
  {
    var s := EpochShares(p, e);
    SpentFits(p, e, b);
    SpentIs(e, s, AfterRecords(p, e, s, b));
    Wrap128Fits(p.Total() - Spent(e, s, AfterRecords(p, e, s, b)));
  }

  lemma LineIs(p: Params, e: Epoch, s: Shares, b: Balances, a: Address)
    ensures var base := AfterBase(p, e, s, b);
            && base.nonGuard == NonGuards(p, e.ds, p.dsGuards) + NonGuards(p, Flat(e.shards), p.shardGuards)
            && Hits(SignerKeys(e.records), SignerPaid(p, base.isGuard, a)) == SignaturesAt(p, e, a)
  {
    var base := AfterBase(p, e, s, b);
    forall k
      ensures p.guardMode && Marked(base.isGuard, k) <==> Guarded(p, e, k)
    {
      BaseLine(p, e, s, b, k);
    }
    var any: Point := *;
    BaseLine(p, e, s, b, any);
    HitsSame(SignerKeys(e.records), SignerPaid(p, base.isGuard, a), k => !Guarded(p, e, k) && p.address(k) == a);
  }

  /** Who gets what: out of a funded account, with or without guards, every other account gains a base share for
      each of its nodes, a signature share for each of its signatures and a lookup share for each of its lookup
      entries, guards excepted, and the remainder if it is drawn. */
  lemma PayoutByAccount(p: Params, e: Epoch, b0: Balances, a: Address)
    requires Sound(p, e) && Funded(Credited(b0, p.fees), p.Total()) && a != COINBASE
    ensures BalanceOf(Payout(p, e, b0), a)
         == BalanceOf(b0, a) + Earnings(p, e, a) + if IsDrawn(p, e, a) then Remainder(p, e) else 0
  {
    var s, b := EpochShares(p, e), Credited(b0, p.fees);
    EarningsBeforeDraw(p, e, b, a);
    RemainderIs(p, e, b);
    DrawnGives(p, e, InLine(p, e), Remainder(p, e), AfterRecords(p, e, s, b).b, a);
  }

  lemma DrawnGives(p: Params, e: Epoch, line: seq<Point>, left: nat, b: Balances, a: Address)
    requires Funded(b, left) && a != COINBASE
    ensures BalanceOf(Drawn(p, e, line, left, b), a)
         == BalanceOf(b, a) + if line != [] && p.address(line[e.lastBlockHash % |line|]) == a then left else 0
  {
    if line != [] {
      FundedPay(b, left, p.address(line[e.lastBlockHash % |line|]), left, a);
    }
  }

  /** In particular an address held by guards only, and by no lookup entry, gains nothing. */
  lemma GuardsGainNothing(p: Params, e: Epoch, b0: Balances, a: Address)
    requires Sound(p, e) && Funded(Credited(b0, p.fees), p.Total()) && a != COINBASE && p.guardMode
    requires forall k :: k in e.ds && p.address(k) == a ==> k in p.dsGuards
    requires forall k :: k in Flat(e.shards) && p.address(k) == a ==> k in p.shardGuards
    requires forall k :: k in SignerKeys(e.records) && p.address(k) == a ==> Guarded(p, e, k)
    requires forall k :: k in LookupKeys(e.records) ==> p.address(k) != a
    ensures BalanceOf(Payout(p, e, b0), a) == BalanceOf(b0, a)
  {
    PayoutByAccount(p, e, b0, a);
    NoHits(e.ds, PaidTo(p, p.dsGuards, a));
    NoHits(Flat(e.shards), PaidTo(p, p.shardGuards, a));
    NoHits(SignerKeys(e.records), k => !Guarded(p, e, k) && p.address(k) == a);
    NoHits(LookupKeys(e.records), LookupPaidTo(p, a));
    forall k | k in InLine(p, e)
      ensures p.address(k) != a
    {
      NonGuardsOf(p, e.ds, p.dsGuards, k);
      NonGuardsOf(p, Flat(e.shards), p.shardGuards, k);
    }
  }

  lemma NoHits(keys: seq<Point>, hit: Point -> bool)
    requires forall k :: k in keys ==> !hit(k)
    ensures Hits(keys, hit) == 0
  {
    assert (set i | 0 <= i < |keys| && hit(keys[i])) == {};
  }

  lemma {:induction false} NonGuardsOf(p: Params, keys: seq<Point>, guards: set<Point>, k: Point)
    ensures k in NonGuards(p, keys, guards) <==> k in keys && !(p.guardMode && k in guards)
  {
    if keys != [] {
      NonGuardsOf(p, keys[..|keys| - 1], guards, k);
      assert keys == keys[..|keys| - 1] + [keys[|keys| - 1]];
    }
  }

  /** Each share is the largest that goes round: the base cut, the lookup cut and the rest are each handed
      out up to less than one coin per receiver. */
  lemma SharesAreLargest(p: Params, nodes: nat, signatures: nat, lookups: nat)
    requires p.Valid() && p.Total() < MAX128 && nodes > 0 && signatures > 0 && lookups > 0
    ensures var s := SharesOf(p, nodes, signatures, lookups);
            var base, lookup := p.Total() * p.basePercent / 100, p.Total() * p.lookupPercent / 100;
            && s.total == p.Total() && base + lookup <= p.Total()
            && nodes * s.baseEach <= base < nodes * (s.baseEach + 1)
            && lookups * s.lookupEach <= lookup < lookups * (s.lookupEach + 1)
            && signatures * s.signatureEach <= p.Total() - lookup - base < signatures * (s.signatureEach + 1)
  {
    var base, lookup := Percent(p.Total(), p.basePercent), Percent(p.Total(), p.lookupPercent);
    CutsFit(p.Total(), p.basePercent, p.lookupPercent);
    Wrap128Fits(p.Total() - lookup - base);
    ShareIsLargest(base, nodes);
    ShareIsLargest(lookup, lookups);
    ShareIsLargest(p.Total() - lookup - base, signatures);
  }

  lemma ShareIsLargest(amount: nat, count: nat)
    requires count > 0
    ensures count * Share(amount, count) <= amount < count * (Share(amount, count) + 1)
  {
  }
}
