/**
 * The per-request cache key of the frame loader. A signature is a token whose
 * identity is a UUID; the model replaces the random UUID by a counter, so a
 * fresh signature is one whose uuid has never been handed out before.
 */
module FrameSignatures {

  datatype FrameSignature = FrameSignature(uuid: nat)

  /** Any object a signature may be compared against. Only another frame
      signature can be equal to one. */
  datatype Key = SignatureKey(signature: FrameSignature) | OtherKey(name: string)

  /** `FrameSignature.equals`: equal exactly when the other object is a frame
      signature carrying the same UUID. */
  function Equals(a: FrameSignature, o: Key): (b: bool)
    ensures b <==> o == SignatureKey(a)
    ensures o.OtherKey? ==> !b
  {
    match o
    case SignatureKey(other) => other.uuid == a.uuid
    case OtherKey(_) => false
  }

  /** Signature equality is an equivalence relation on signatures. */
  lemma EqualsIsEquivalence(a: FrameSignature, b: FrameSignature, c: FrameSignature)
    ensures Equals(a, SignatureKey(a))
    ensures Equals(a, SignatureKey(b)) ==> Equals(b, SignatureKey(a))
    ensures Equals(a, SignatureKey(b)) && Equals(b, SignatureKey(c)) ==> Equals(a, SignatureKey(c))
  {
  }
}
