/**
 * The ASN.1 values that the CMS structure classes consume and produce, at the
 * level of abstract value trees rather than encoded octets, together with the
 * library conversions those classes call (`getObjectAt`, the `getInstance`
 * factories of ASN1Set, ASN1Sequence and of the referenced CMS types).
 *
 * The referenced CMS types whose definitions are not part of this model
 * (OriginatorInfo, EncryptedContentInfo, RecipientInfo, AlgorithmIdentifier,
 * TimeStampTokenEvidence) are opaque leaves; a RecipientInfo exposes only
 * its version.
 */
module Asn1 {

  newtype Byte = x: int | 0 <= x < 256

  /** Opaque stand-ins for the referenced types, each identified by its content octets. */
  datatype AlgorithmIdentifier = AlgorithmIdentifier(content: seq<Byte>)
  datatype OriginatorInfo = OriginatorInfo(content: seq<Byte>)
  datatype EncryptedContentInfo = EncryptedContentInfo(content: seq<Byte>)
  datatype TimeStampTokenEvidence = TimeStampTokenEvidence(content: seq<Byte>)
  /** A RecipientInfo of any kind; only its CMSVersion is visible. */
  datatype RecipientInfo = RecipientInfo(version: int, content: seq<Byte>)

  /** A DER BIT STRING: its octets and the number of unused bits in the last one. */
  datatype DerBitString = DerBitString(data: seq<Byte>, padBits: nat)

  /** An ASN.1 value tree. */
  datatype Value =
    | Integer(value: int)
    | BitString(bits: DerBitString)
    | Sequence(elems: seq<Value>)
    | Set(elems: seq<Value>)
    | Tagged(explicit: bool, tagNo: nat, obj: Value)
    | AlgorithmIdentifierValue(alg: AlgorithmIdentifier)
    | OriginatorInfoValue(info: OriginatorInfo)
    | EncryptedContentInfoValue(eci: EncryptedContentInfo)
    | RecipientInfoValue(ri: RecipientInfo)
    | TimeStampTokenEvidenceValue(tst: TimeStampTokenEvidence)

  /** The exceptions a conversion can raise. */
  datatype Error =
    | IndexOutOfRange(index: nat)   // ArrayIndexOutOfBoundsException from getObjectAt
    | ClassCast                     // a Java cast to the wrong class
    | IllegalArgument               // a getInstance factory refusing its argument

  /** A Java reference that may be null. */
  datatype Option<+T> = None | Some(value: T)

  /** The outcome of a Java call that may throw. */
  datatype Result<+T> = Ok(value: T) | Err(error: Error) {
    predicate IsFailure() {
      Err?
    }

    function PropagateFailure<U>(): Result<U>
      requires Err?
    {
      Err(error)
    }

    function Extract(): T
      requires Ok?
    {
      value
    }
  }

  /** `BigInteger.intValue()`: the low 32 bits, read as a signed 32-bit integer. */
  function IntValue(v: int): (r: int)
    ensures -0x8000_0000 <= r < 0x8000_0000
    ensures r == 0 <==> v % 0x1_0000_0000 == 0
    ensures -0x8000_0000 <= v < 0x8000_0000 ==> r == v
  {
    var low := v % 0x1_0000_0000;
    if low < 0x8000_0000 then low else low - 0x1_0000_0000
  }

  /** `ASN1Sequence.getObjectAt(i)`: the element at `i`, or an exception past the end. */
  function ObjectAt(s: seq<Value>, i: nat): Result<Value>
  {
    if i < |s| then Ok(s[i]) else Err(IndexOutOfRange(i))
  }

  /** `(ASN1Integer) o` */
  function AsInteger(o: Value): Result<int>
  {
    if o.Integer? then Ok(o.value) else Err(ClassCast)
  }

  /** `(ASN1TaggedObject) o` */
  function AsTagged(o: Value): Result<Value>
  {
    if o.Tagged? then Ok(o) else Err(ClassCast)
  }

  /** `(DERBitString) o` */
  function AsBitString(o: Value): Result<DerBitString>
  {
    if o.BitString? then Ok(o.bits) else Err(ClassCast)
  }

  /** `new DERBitString(data)`: a bit string with no unused bits. */
  function NewDerBitString(data: seq<Byte>): DerBitString
  {
    DerBitString(data, 0)
  }

  /** `ASN1Set.getInstance(o)` */
  function SetOf(o: Value): Result<seq<Value>>
  {
    if o.Set? then Ok(o.elems) else Err(IllegalArgument)
  }

  /** `ASN1Sequence.getInstance(o)` */
  function SequenceOf(o: Value): Result<seq<Value>>
  {
    if o.Sequence? then Ok(o.elems) else Err(IllegalArgument)
  }

  /** `ASN1Set.getInstance(tagged, false)`: the set the tag stands for. */
  function SetInTagged(t: Value): Result<seq<Value>>
    requires t.Tagged?
  {
    SetOf(t.obj)
  }

  /** `ASN1Sequence.getInstance(tagged, explicit)`: the sequence the tag stands for. */
  function SequenceInTagged(t: Value, explicit: bool): Result<seq<Value>>
    requires t.Tagged?
  {
    SequenceOf(t.obj)
  }

  /** `AlgorithmIdentifier.getInstance(o)` */
  function AlgorithmIdentifierOf(o: Value): Result<AlgorithmIdentifier>
  {
    if o.AlgorithmIdentifierValue? then Ok(o.alg) else Err(IllegalArgument)
  }

  /** `OriginatorInfo.getInstance(tagged, false)` */
  function OriginatorInfoInTagged(t: Value): Result<OriginatorInfo>
    requires t.Tagged?
  {
    if t.obj.OriginatorInfoValue? then Ok(t.obj.info) else Err(IllegalArgument)
  }

  /** `EncryptedContentInfo.getInstance(o)` */
  function EncryptedContentInfoOf(o: Value): Result<EncryptedContentInfo>
  {
    if o.EncryptedContentInfoValue? then Ok(o.eci) else Err(IllegalArgument)
  }

  /** `RecipientInfo.getInstance(o)` */
  function RecipientInfoOf(o: Value): Result<RecipientInfo>
  {
    if o.RecipientInfoValue? then Ok(o.ri) else Err(IllegalArgument)
  }

  /** `TimeStampTokenEvidence.getInstance(tagged, false)` */
  function TimeStampTokenEvidenceInTagged(t: Value): Result<TimeStampTokenEvidence>
    requires t.Tagged?
  {
    if t.obj.TimeStampTokenEvidenceValue? then Ok(t.obj.tst) else Err(IllegalArgument)
  }
}
