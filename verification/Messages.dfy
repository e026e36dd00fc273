/**
 Round messages of the reliable broadcast and what a signature on one covers.

 Cryptography is symbolic: a signature value records who made it and the exact
 list of fields that was hashed, so it can neither be forged nor moved to
 another payload. `salt` leaves room for several valid signatures on one payload.
 */
module Messages {
  type Address = string

  /** A broadcast value: the nil pointer, or a value known by its HashString. */
  datatype Value = Nil | Val(hash: string)

  /** The key under which a value is stored in the accepted set. */
  function Key(v: Value): string {
    match v
    case Nil => ""
    case Val(h) => h
  }

  datatype SigBytes = Signed(author: Address, over: seq<Field>, salt: nat) | Junk(raw: nat)
  datatype Field = Text(text: string) | Raw(bytes: SigBytes)
  datatype Signature = Signature(signer: Address, value: SigBytes)

  datatype RoundMessage = RoundMessage(sessionId: string, value: Value, round: nat, signatures: seq<Signature>)

  /** The two fields that each signature of the chain contributes to the hash. */
  function ChainFields(sigs: seq<Signature>): (fields: seq<Field>)
    ensures |fields| == 2 * |sigs|
  {
    if sigs == [] then []
    else [Text(sigs[0].signer), Raw(sigs[0].value)] + ChainFields(sigs[1..])
  }

  /** The field list that is encoded and hashed before signing; a nil value contributes no field. */
  function SignFields(sessionId: string, value: Value, sigs: seq<Signature>): (fields: seq<Field>)
  {
    [Text(sessionId)] + (if value.Nil? then [] else [Text(value.hash)]) + ChainFields(sigs)
  }

  predicate SignatureValid(sessionId: string, value: Value, sigs: seq<Signature>, sig: Signature) {
    && sig.value.Signed?
    && sig.value.author == sig.signer
    && sig.value.over == SignFields(sessionId, value, sigs)
  }

  /** The signature a party itself produces. */
  function Sign(self: Address, sessionId: string, value: Value, sigs: seq<Signature>): (sig: Signature)
    ensures SignatureValid(sessionId, value, sigs, sig) && sig.signer == self
  {
    Signature(self, Signed(self, SignFields(sessionId, value, sigs), 0))
  }

  lemma {:induction false} ChainFieldsInjective(a: seq<Signature>, b: seq<Signature>)
    requires ChainFields(a) == ChainFields(b)
    ensures a == b
  {
    assert |a| == |b|;
    if a != [] {
      var fa, fb := ChainFields(a), ChainFields(b);
      assert fa[0] == Text(a[0].signer) && fa[1] == Raw(a[0].value);
      assert fb[0] == Text(b[0].signer) && fb[1] == Raw(b[0].value);
      assert fa[2..] == ChainFields(a[1..]) && fb[2..] == ChainFields(b[1..]);
      ChainFieldsInjective(a[1..], b[1..]);
      assert a == [a[0]] + a[1..] && b == [b[0]] + b[1..];
    }
  }

  /**
   Two payloads with the same field list are the same payload. The parity of the
   number of fields tells a nil value from any other one.
   */
  lemma SignFieldsInjective(s: string, v: Value, a: seq<Signature>, s': string, v': Value, b: seq<Signature>)
    requires SignFields(s, v, a) == SignFields(s', v', b)
    ensures s == s' && v == v' && a == b
  {
    var f, f' := SignFields(s, v, a), SignFields(s', v', b);
    assert f[0] == Text(s) && f'[0] == Text(s');
    assert |f| == 1 + (if v.Nil? then 0 else 1) + 2 * |a|;
    assert |f'| == 1 + (if v'.Nil? then 0 else 1) + 2 * |b|;
    assert v.Nil? == v'.Nil?;
    if v.Nil? {
      assert f[1..] == ChainFields(a) && f'[1..] == ChainFields(b);
    } else {
      assert f[1] == Text(v.hash) && f'[1] == Text(v'.hash);
      assert f[2..] == ChainFields(a) && f'[2..] == ChainFields(b);
    }
    ChainFieldsInjective(a, b);
  }
}
