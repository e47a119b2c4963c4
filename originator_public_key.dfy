/**
 * OriginatorPublicKey (section 6.2.2 of RFC 5652):
 *
 *   OriginatorPublicKey ::= SEQUENCE {
 *     algorithm AlgorithmIdentifier,
 *     publicKey BIT STRING }
 *
 * Decoding reads the first two elements by position and ignores the rest.
 */
module CmsOriginatorPublicKey {
  import opened Asn1

  datatype OriginatorPublicKey = OriginatorPublicKey(algorithm: AlgorithmIdentifier, publicKey: DerBitString)

  /** What `getInstance(Object)` may be handed. */
  datatype Obj = Null | Instance(key: OriginatorPublicKey) | Encodable(value: Value)

  /** `new OriginatorPublicKey(algorithm, publicKey)`: the key octets wrapped as a bit string. */
  function FromComponents(algorithm: AlgorithmIdentifier, publicKey: seq<Byte>): (r: OriginatorPublicKey)
    ensures r.algorithm == algorithm
    ensures r.publicKey.data == publicKey && r.publicKey.padBits == 0
  {
    OriginatorPublicKey(algorithm, NewDerBitString(publicKey))
  }

  /**
   * `new OriginatorPublicKey(ASN1Sequence)`: the algorithm from element 0, the
   * bit string from element 1, or the exception raised first.
   */
  function FromSequence(s: seq<Value>): (r: Result<OriginatorPublicKey>)
    ensures r.Ok? <==> |s| >= 2 && s[0].AlgorithmIdentifierValue? && s[1].BitString?
    ensures r.Ok? ==> r.value.algorithm == s[0].alg && r.value.publicKey == s[1].bits
    ensures |s| == 0 ==> r == Err(IndexOutOfRange(0))
    ensures |s| >= 1 && !s[0].AlgorithmIdentifierValue? ==> r == Err(IllegalArgument)
    ensures |s| == 1 && s[0].AlgorithmIdentifierValue? ==> r == Err(IndexOutOfRange(1))
    ensures |s| >= 2 && s[0].AlgorithmIdentifierValue? && !s[1].BitString? ==> r == Err(ClassCast)
  {
    var first :- ObjectAt(s, 0);
    var algorithm :- AlgorithmIdentifierOf(first);
    var second :- ObjectAt(s, 1);
    var publicKey :- AsBitString(second);
    Ok(OriginatorPublicKey(algorithm, publicKey))
  }

  /** `toASN1Primitive`: the algorithm and the key, in a two-element sequence. */
  function Encoded(k: OriginatorPublicKey): (r: Value)
    ensures r.Sequence? && |r.elems| == 2
  {
    Sequence([AlgorithmIdentifierValue(k.algorithm), BitString(k.publicKey)])
  }

  /** Decoding undoes encoding. */
  lemma RoundTrip(k: OriginatorPublicKey)
    ensures FromSequence(Encoded(k).elems) == Ok(k)
  {
  }

  /** Only the first two elements are read; any further ones make no difference. */
  lemma FromSequenceIgnoresTrailing(s: seq<Value>)
    requires |s| >= 2
    ensures FromSequence(s) == FromSequence(s[..2])
  {
  }

  /** `getInstance(Object)`: null gives null, an OriginatorPublicKey itself, a sequence is decoded. */
  function GetInstance(o: Obj): (r: Result<Option<OriginatorPublicKey>>)
    ensures o.Null? ==> r == Ok(None)
    ensures o.Instance? ==> r == Ok(Some(o.key))
    ensures o.Encodable? && !o.value.Sequence? ==> r == Err(IllegalArgument)
    ensures o.Encodable? && o.value.Sequence? ==>
              (r.Ok? <==> FromSequence(o.value.elems).Ok?)
              && (r.Ok? ==> r.value == Some(FromSequence(o.value.elems).value))
  {
    match o
    case Null => Ok(None)
    case Instance(k) => Ok(Some(k))
    case Encodable(v) =>
      if v.Sequence? then
        var k :- FromSequence(v.elems);
        Ok(Some(k))
      else Err(IllegalArgument)
  }

  /** `getInstance(ASN1TaggedObject, boolean)`: the sequence the tag stands for, decoded. */
  function GetInstanceFromTagged(t: Value, explicit: bool): (r: Result<Option<OriginatorPublicKey>>)
    requires t.Tagged?
    ensures r.Ok? <==> t.obj.Sequence? && FromSequence(t.obj.elems).Ok?
    ensures r.Ok? ==> r.value == Some(FromSequence(t.obj.elems).value)
    ensures !t.obj.Sequence? ==> r == Err(IllegalArgument)
  {
    var s :- SequenceInTagged(t, explicit);
    GetInstance(Encodable(Sequence(s)))
  }

  /**
   * Both factories give back the key whose encoding they are handed, the
   * tagged one when the tag's mode is the one asked for.
   */
  lemma GetInstanceOfEncoding(k: OriginatorPublicKey, explicit: bool, tagNo: nat)
    ensures GetInstance(Encodable(Encoded(k))) == Ok(Some(k))
    ensures GetInstanceFromTagged(Tagged(explicit, tagNo, Encoded(k)), explicit) == Ok(Some(k))
  {
    RoundTrip(k);
  }
}
