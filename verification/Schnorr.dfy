/** Plain Schnorr signatures: the single-signer case of section 4.2.3 of BSI TR-03111. */
module Schnorr {
  import opened Wrappers
  import opened MultiSig

  /** The signature made with one nonce, before the test for zero. */
  function Attempt(sch: Scheme, msg: Bytes, privKey: nat, pubKey: Point, k: nat): Option<Signature>
    requires sch.group.order > 0
  {
    var c := Challenge(sch, NO_DOMAIN, sch.group.Mul(k, sch.base), pubKey, msg);
    if c.None? then None else Some(Signature(c.value, Respond(sch, k, c.value, privKey)))
  }

  predicate Retry(a: Option<Signature>) {
    a.Some? && (a.value.r == 0 || a.value.s == 0)
  }

  predicate Verify(sch: Scheme, msg: Bytes, sig: Signature, pubKey: Point)
    requires sch.group.order > 0
  {
    VerifyIn(sch, NO_DOMAIN, msg, sig, pubKey)
  }

  /** An attempt verifies under the matching public key exactly when signing would not retry it. */
  lemma AttemptVerifies(sch: Scheme, msg: Bytes, privKey: nat, k: nat)
    requires sch.group.Lawful()
    ensures var pub := sch.group.Mul(privKey, sch.base);
            var a := Attempt(sch, msg, privKey, pub, k);
            a.Some? ==> (Verify(sch, msg, a.value, pub) <==> !Retry(a))
  {
    var pub := sch.group.Mul(privKey, sch.base);
    var a := Attempt(sch, msg, privKey, pub, k);
    if a.Some? {
      HonestResponseOpens(sch, k, a.value.r, privKey);
    }
  }

  /** The attempt with the first usable nonce: not zero, and not to be retried. */
  function FirstUsable(sch: Scheme, msg: Bytes, privKey: nat, pubKey: Point, nonces: seq<nat>): Option<Signature>
    requires sch.group.order > 0
  {
    if nonces == [] then None
    else
      var a := Attempt(sch, msg, privKey, pubKey, nonces[0]);
      if nonces[0] == 0 || Retry(a) then FirstUsable(sch, msg, privKey, pubKey, nonces[1..]) else a
  }

  /** Signs with the random values of `nonces`, which stand for the nonce generator; running out of
      them is the generator failing. */
  method Sign(sch: Scheme, msg: Bytes, privKey: nat, pubKey: Point, nonces: seq<nat>)
    returns (ok: bool, sig: Signature)
    requires sch.group.Lawful() && pubKey == sch.group.Mul(privKey, sch.base)
    ensures ok ==> Verify(sch, msg, sig, pubKey)
    ensures ok == FirstUsable(sch, msg, privKey, pubKey, nonces).Some?
    ensures ok ==> FirstUsable(sch, msg, privKey, pubKey, nonces) == Some(sig)
  {
    sig := Signature(0, 0);
    if |msg| == 0 {
      EmptyMessage(sch, privKey, pubKey, nonces);
      return false, sig;
    }
    var i := 0;
    assert nonces[0..] == nonces;
    while i < |nonces|
      invariant 0 <= i <= |nonces|
      invariant FirstUsable(sch, msg, privKey, pubKey, nonces[i..]) == FirstUsable(sch, msg, privKey, pubKey, nonces)
    {
      var k := nonces[i];
      assert nonces[i..][1..] == nonces[i + 1..];
      if k != 0 {
        var commit := sch.group.Mul(k, sch.base);
        var c := Challenge(sch, NO_DOMAIN, commit, pubKey, msg);
        if c.None? {
          return false, sig;
        }
        sig := Signature(c.value, Respond(sch, k, c.value, privKey));
        if !(sig.r == 0 || sig.s == 0) {
          AttemptVerifies(sch, msg, privKey, k);
          return true, sig;
        }
      }
      i := i + 1;
    }
    return false, sig;
  }

  lemma {:induction false} EmptyMessage(sch: Scheme, privKey: nat, pubKey: Point, nonces: seq<nat>)
    requires sch.group.order > 0
    ensures FirstUsable(sch, [], privKey, pubKey, nonces) == None
  {
    if nonces != [] {
      EmptyMessage(sch, privKey, pubKey, nonces[1..]);
    }
  }
}
