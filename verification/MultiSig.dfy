/** The signature scheme of libCrypto over an abstract curve: challenges, responses, their
    aggregation, and verification of single and collective signatures. */
module MultiSig {
  import opened Wrappers
  import opened Curve

  /** A curve point. Nothing is known about its representation. */
  type Point(==, !new, 0)

  type Byte = x: int | 0 <= x < 256
  type Bytes = seq<Byte>

  datatype Signature = Signature(r: nat, s: nat)

  /** The curve and the foreign functions: hashing of a domain prefix, a commitment, a key and a
      message; hashing of one commitment; and the byte encodings of signatures and bitmaps. */
  datatype Scheme = Scheme(
    group: Group<Point>,
    base: Point,
    hash: (Bytes, Point, Point, Bytes) -> nat,
    pointHash: Point -> nat,
    sigBytes: Signature -> Bytes,
    bitBytes: seq<bool> -> Bytes)

  /** Separates collective signatures from plain ones, which use no prefix. */
  const THIRD_DOMAIN: Bytes := [0x11]
  const NO_DOMAIN: Bytes := []

  /** The challenge for an aggregated commit and key. Hashing fails on an empty message, and the
      neutral point has no 33-byte encoding. */
  function Challenge(sch: Scheme, domain: Bytes, commit: Point, key: Point, msg: Bytes): Option<nat>
    requires sch.group.order > 0
  {
    if msg == [] || commit == sch.group.neutral || key == sch.group.neutral then None
    else Some(sch.hash(domain, commit, key, msg) % sch.group.order)
  }

  /** The number a challenge object holds once it has been assigned: an unset one holds zero. */
  function ChallengeValue(sch: Scheme, commit: Point, key: Point, msg: Bytes): nat
    requires sch.group.order > 0
  {
    Challenge(sch, THIRD_DOMAIN, commit, key, msg).GetOr(0)
  }

  /** The hash published beside a commit point; the neutral point has none. */
  function PointHash(sch: Scheme, p: Point): Option<nat>
    requires sch.group.order > 0
  {
    if p == sch.group.neutral then None else Some(sch.pointHash(p) % sch.group.order)
  }

  /** A signer's response k - c * d modulo the order. */
  function Respond(sch: Scheme, secret: nat, challenge: nat, privKey: nat): nat
    requires sch.group.order > 0
  {
    (secret - (challenge * privKey) % sch.group.order) % sch.group.order
  }

  /** The point s * G + r * key. */
  function Opening(sch: Scheme, s: nat, r: nat, key: Point): Point {
    sch.group.add(sch.group.Mul(s, sch.base), sch.group.Mul(r, key))
  }

  predicate VerifyResponse(sch: Scheme, response: nat, challenge: nat, key: Point, commit: Point) {
    0 < response < sch.group.order && Opening(sch, response, challenge, key) == commit
  }

  predicate VerifyIn(sch: Scheme, domain: Bytes, msg: Bytes, sig: Signature, key: Point)
    requires sch.group.order > 0
  {
    && 0 < sig.r < sch.group.order
    && 0 < sig.s < sch.group.order
    && Challenge(sch, domain, Opening(sch, sig.s, sig.r, key), key, msg) == Some(sig.r)
  }

  predicate MultiSigVerify(sch: Scheme, msg: Bytes, sig: Signature, key: Point)
    requires sch.group.order > 0
  {
    VerifyIn(sch, THIRD_DOMAIN, msg, sig, key)
  }

  /** If `s` and the reduced product give the secret, so do `s` and the product, as points. */
  lemma ProductOpens(g: Group<Point>, base: Point, secret: nat, product: nat, s: nat)
    requires g.Lawful()
    ensures (s + product % g.order) % g.order == secret % g.order ==>
              g.add(g.Mul(s, base), g.Mul(product, base)) == g.Mul(secret, base)
  {
    ModFold(s, product, g.order);
    g.MulSplit(s, product, secret, base);
  }

  /** A response computed from one's own secret and key opens one's own commit point. */
  lemma HonestResponseOpens(sch: Scheme, secret: nat, challenge: nat, privKey: nat)
    requires sch.group.Lawful()
    ensures Opening(sch, Respond(sch, secret, challenge, privKey), challenge, sch.group.Mul(privKey, sch.base))
         == sch.group.Mul(secret, sch.base)
  {
    var n, product := sch.group.order, challenge * privKey;
    var taken := product % n;
    TakeAndGiveBack(secret, taken, n);
    sch.group.MulMul(challenge, privKey, sch.base);
    ProductOpens(sch.group, sch.base, secret, product, (secret - taken) % n);
  }

  /** An honest response is accepted by the leader exactly when it is not zero. */
  lemma HonestResponseAccepted(sch: Scheme, secret: nat, challenge: nat, privKey: nat)
    requires sch.group.Lawful()
    ensures VerifyResponse(sch, Respond(sch, secret, challenge, privKey), challenge,
                           sch.group.Mul(privKey, sch.base), sch.group.Mul(secret, sch.base))
       <==> Respond(sch, secret, challenge, privKey) != 0
  {
    HonestResponseOpens(sch, secret, challenge, privKey);
  }

  /** A signature assembled from responses that each open their signer's commit is valid exactly when
      neither of its two numbers is zero. In particular a failed challenge hash (empty message, neutral
      aggregate) leaves the challenge at zero and is caught here. */
  lemma CollectiveSignatureVerifies(
    sch: Scheme, msg: Bytes, c: nat, responses: seq<nat>, keys: seq<Point>, commits: seq<Point>)
    requires sch.group.Lawful()
    requires |responses| == |keys| == |commits|
    requires forall i :: 0 <= i < |responses| ==> Opening(sch, responses[i], c, keys[i]) == commits[i]
    requires c == ChallengeValue(sch, sch.group.Sum(commits), sch.group.Sum(keys), msg)
    ensures MultiSigVerify(sch, msg, Signature(c, sch.group.SumMod(responses)), sch.group.Sum(keys))
       <==> c != 0 && sch.group.SumMod(responses) != 0
  {
    sch.group.ResponsesAddUp(sch.base, c, responses, keys, commits);
    sch.group.SumModReduced(responses);
  }

  /** Left-to-right aggregation of keys, and likewise of commit points. */
  method AggregatePoints(sch: Scheme, ps: seq<Point>) returns (r: Option<Point>)
    requires sch.group.Lawful()
    ensures ps == [] ==> r == None
    ensures ps != [] ==> r == Some(sch.group.Sum(ps))
  {
    if |ps| == 0 {
      return None;
    }
    var acc := ps[0];
    var i := 1;
    assert ps[..1] == [ps[0]];
    assert sch.group.Commutes(ps[0], sch.group.neutral) && sch.group.Unit(ps[0]);
    assert sch.group.Sum([ps[0]]) == sch.group.add(ps[0], sch.group.Sum([]));
    while i < |ps|
      invariant 1 <= i <= |ps|
      invariant acc == sch.group.Sum(ps[..i])
    {
      assert ps[..i + 1] == ps[..i] + [ps[i]];
      sch.group.SumConcat(ps[..i], [ps[i]]);
      assert sch.group.Commutes(ps[i], sch.group.neutral) && sch.group.Unit(ps[i]);
      assert sch.group.Sum([ps[i]]) == sch.group.add(ps[i], sch.group.Sum([]));
      acc := sch.group.add(acc, ps[i]);
      i := i + 1;
    }
    assert ps[..|ps|] == ps;
    return Some(acc);
  }

  /** Left-to-right aggregation of responses modulo the order; each is already reduced. */
  method AggregateResponses(sch: Scheme, xs: seq<nat>) returns (r: Option<nat>)
    requires sch.group.order > 0
    requires forall i :: 0 <= i < |xs| ==> xs[i] < sch.group.order
    ensures xs == [] ==> r == None
    ensures xs != [] ==> r == Some(sch.group.SumMod(xs))
  {
    if |xs| == 0 {
      return None;
    }
    var acc := xs[0];
    var i := 1;
    assert xs[..1] == [xs[0]];
    SumModOne(sch.group, xs[0]);
    while i < |xs|
      invariant 1 <= i <= |xs|
      invariant acc == sch.group.SumMod(xs[..i])
    {
      assert xs[..i + 1] == xs[..i] + [xs[i]];
      sch.group.SumModConcat(xs[..i], [xs[i]]);
      SumModOne(sch.group, xs[i]);
      acc := (acc + xs[i]) % sch.group.order;
      i := i + 1;
    }
    assert xs[..|xs|] == xs;
    return Some(acc);
  }

  lemma SumModOne(g: Group<Point>, x: nat)
    requires x < g.order
    ensures g.SumMod([x]) == x
  {
    assert g.SumMod([x]) == (x + g.SumMod([])) % g.order;
    ModSmall(x, g.order);
  }
}
