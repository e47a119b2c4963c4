/**
 * EnvelopedData (section 6.1 of RFC 5652):
 *
 *   EnvelopedData ::= SEQUENCE {
 *     version CMSVersion,
 *     originatorInfo [0] IMPLICIT OriginatorInfo OPTIONAL,
 *     recipientInfos RecipientInfos,
 *     encryptedContentInfo EncryptedContentInfo,
 *     unprotectedAttrs [1] IMPLICIT UnprotectedAttributes OPTIONAL }
 *
 * Decoding is positional: any tagged object in second place is taken as the
 * originator info, whatever its tag number, and whatever follows the
 * encrypted content info is taken as the unprotected attributes. The version
 * is inferred only when the structure is built from its components, and by a
 * simpler rule than the RFC's: the result is always 0 or 2.
 */
module CmsEnvelopedData {
  import opened Asn1

  /** The fields of an EnvelopedData object; a field the object holds as null is `None`. */
  datatype EnvelopedData = EnvelopedData(
    version: int,
    originatorInfo: Option<OriginatorInfo>,
    recipientInfos: seq<Value>,
    encryptedContentInfo: EncryptedContentInfo,
    unprotectedAttrs: Option<seq<Value>>)

  /** What `getInstance(Object)` may be handed. */
  datatype Obj = Null | Instance(data: EnvelopedData) | Encodable(value: Value)

  // ---------------------------------------------------------------------------
  // Version inference

  /** A RecipientInfo whose version reads as 0 through `intValue()`. */
  predicate IsVersionZeroRecipient(o: Value)
  {
    o.RecipientInfoValue? && IntValue(o.ri.version) == 0
  }

  /** Every one of the first `k` recipient infos has version 0. */
  predicate VersionZeroBefore(ris: seq<Value>, k: int)
    requires k <= |ris|
  {
    forall i :: 0 <= i < k ==> IsVersionZeroRecipient(ris[i])
  }

  /**
   * The outcome of the recipient scan, starting from version 0: the first
   * recipient whose version is not 0 makes it 2 and stops the scan; an element
   * that is not a RecipientInfo, if reached, raises.
   */
  function ScanRecipients(ris: seq<Value>): (r: Result<int>)
    ensures r.Ok? ==> r.value == 0 || r.value == 2
    ensures r.Err? ==> r.error == IllegalArgument
  {
    if ris == [] then Ok(0)
    else
      var ri :- RecipientInfoOf(ris[0]);
      if IntValue(ri.version) != 0 then Ok(2) else ScanRecipients(ris[1..])
  }

  /** The version `calculateVersion` gives to an EnvelopedData built from components. */
  function InferredVersion(originatorInfo: Option<OriginatorInfo>, recipientInfos: seq<Value>,
                           unprotectedAttrs: Option<seq<Value>>): (r: Result<int>)
    ensures r.Ok? ==> r.value == 0 || r.value == 2
    ensures originatorInfo.Some? || unprotectedAttrs.Some? ==> r == Ok(2)
  {
    if originatorInfo.Some? || unprotectedAttrs.Some? then Ok(2)
    else ScanRecipients(recipientInfos)
  }

  /** `calculateVersion`, walking the recipient set and stopping at the first mismatch. */
  method CalculateVersion(originatorInfo: Option<OriginatorInfo>, recipientInfos: seq<Value>,
                          unprotectedAttrs: Option<seq<Value>>) returns (r: Result<int>)
    ensures r == InferredVersion(originatorInfo, recipientInfos, unprotectedAttrs)
  {
    var version: int;
    if originatorInfo.Some? || unprotectedAttrs.Some? {
      version := 2;
    } else {
      version := 0;
      var i := 0;
      while i < |recipientInfos|
        invariant 0 <= i <= |recipientInfos|
        invariant version == 0
        invariant ScanRecipients(recipientInfos[i..]) == ScanRecipients(recipientInfos)
      {
        assert recipientInfos[i..][1..] == recipientInfos[i + 1..];
        var ri := RecipientInfoOf(recipientInfos[i]);
        if ri.Err? {
          return Err(ri.error);
        }
        if IntValue(ri.value.version) != version {
          version := 2;
          break;
        }
        i := i + 1;
      }
    }
    r := Ok(version);
  }

  /** With no optional field, the version is 0 exactly when every recipient has version 0. */
  lemma {:induction false} VersionZeroIffAllVersionZero(ris: seq<Value>)
    ensures InferredVersion(None, ris, None) == Ok(0) <==> VersionZeroBefore(ris, |ris|)
  {
    if ris != [] {
      VersionZeroIffAllVersionZero(ris[1..]);
      assert forall i :: 1 <= i < |ris| ==> ris[1..][i - 1] == ris[i];
    }
  }

  /**
   * With no optional field, `calculateVersion` raises exactly when the scan
   * reaches an element that is not a RecipientInfo before any mismatch.
   */
  lemma {:induction false} VersionFailsIff(ris: seq<Value>)
    ensures InferredVersion(None, ris, None).Err? <==>
              exists k :: 0 <= k < |ris| && !ris[k].RecipientInfoValue? && VersionZeroBefore(ris, k)
  {
    if ris == [] {
    } else if !ris[0].RecipientInfoValue? {
      assert VersionZeroBefore(ris, 0);
    } else if IntValue(ris[0].ri.version) != 0 {
      assert forall k :: 0 < k <= |ris| ==> !VersionZeroBefore(ris, k);
    } else {
      var tail := ris[1..];
      VersionFailsIff(tail);
      if InferredVersion(None, ris, None).Err? {
        var k :| 0 <= k < |tail| && !tail[k].RecipientInfoValue? && VersionZeroBefore(tail, k);
        assert !ris[k + 1].RecipientInfoValue?;
        assert VersionZeroBefore(ris, k + 1) by {
          forall i | 0 <= i < k + 1 ensures IsVersionZeroRecipient(ris[i]) {
            if i > 0 { assert ris[i] == tail[i - 1]; }
          }
        }
      }
      if exists k :: 0 <= k < |ris| && !ris[k].RecipientInfoValue? && VersionZeroBefore(ris, k) {
        var k :| 0 <= k < |ris| && !ris[k].RecipientInfoValue? && VersionZeroBefore(ris, k);
        assert k > 0;
        assert !tail[k - 1].RecipientInfoValue?;
        assert VersionZeroBefore(tail, k - 1) by {
          forall i | 0 <= i < k - 1 ensures IsVersionZeroRecipient(tail[i]) {
            assert tail[i] == ris[i + 1];
          }
        }
      }
    }
  }

  /**
   * For a set made of RecipientInfos only and no optional field, the version is
   * 0 if every recipient has version 0 (an empty set included) and 2 otherwise.
   */
  lemma VersionOfRecipientInfos(ris: seq<Value>)
    requires forall i :: 0 <= i < |ris| ==> ris[i].RecipientInfoValue?
    ensures InferredVersion(None, ris, None) == if VersionZeroBefore(ris, |ris|) then Ok(0) else Ok(2)
  {
    VersionFailsIff(ris);
    VersionZeroIffAllVersionZero(ris);
  }

  /** An example of the `intValue()` comparison: a version of 2^32 reads as 0, a version of 1 does not. */
  lemma VersionComparesLow32Bits(content: seq<Byte>)
    ensures InferredVersion(None, [RecipientInfoValue(RecipientInfo(0x1_0000_0000, content))], None) == Ok(0)
    ensures InferredVersion(None, [RecipientInfoValue(RecipientInfo(1, content))], None) == Ok(2)
  {
    var wrapped := [RecipientInfoValue(RecipientInfo(0x1_0000_0000, content))];
    assert IntValue(0x1_0000_0000) == 0;
    assert wrapped[1..] == [];
    assert RecipientInfoOf(wrapped[0]) == Ok(RecipientInfo(0x1_0000_0000, content));
    assert ScanRecipients(wrapped) == ScanRecipients([]);
  }

  // ---------------------------------------------------------------------------
  // Construction from components

  /**
   * `new EnvelopedData(originatorInfo, recipientInfos, encryptedContentInfo,
   * unprotectedAttrs)`: the components are stored unchanged and the version is
   * inferred; the constructor raises when the inference does.
   */
  method Create(originatorInfo: Option<OriginatorInfo>, recipientInfos: seq<Value>,
                encryptedContentInfo: EncryptedContentInfo, unprotectedAttrs: Option<seq<Value>>)
    returns (r: Result<EnvelopedData>)
    ensures r.Ok? <==> InferredVersion(originatorInfo, recipientInfos, unprotectedAttrs).Ok?
    ensures r.Ok? ==> r.value == EnvelopedData(InferredVersion(originatorInfo, recipientInfos, unprotectedAttrs).value,
                                               originatorInfo, recipientInfos, encryptedContentInfo, unprotectedAttrs)
    ensures r.Ok? ==> r.value.version == 0 || r.value.version == 2
  {
    var version :- CalculateVersion(originatorInfo, recipientInfos, unprotectedAttrs);
    r := Ok(EnvelopedData(version, originatorInfo, recipientInfos, encryptedContentInfo, unprotectedAttrs));
  }

  // ---------------------------------------------------------------------------
  // Encoding

  /** The element list `toASN1Primitive` builds. */
  function Encoded(e: EnvelopedData): (r: Value)
    ensures r.Sequence? && 3 <= |r.elems| <= 5
  {
    Sequence([Integer(e.version)]
             + (if e.originatorInfo.Some? then [Tagged(false, 0, OriginatorInfoValue(e.originatorInfo.value))] else [])
             + [Set(e.recipientInfos), EncryptedContentInfoValue(e.encryptedContentInfo)]
             + (if e.unprotectedAttrs.Some? then [Tagged(false, 1, Set(e.unprotectedAttrs.value))] else []))
  }

  /** `toASN1Primitive`, appending to a vector field by field. */
  method ToAsn1Primitive(e: EnvelopedData) returns (r: Value)
    ensures r == Encoded(e)
  {
    var v: seq<Value> := [];
    v := v + [Integer(e.version)];
    if e.originatorInfo.Some? {
      v := v + [Tagged(false, 0, OriginatorInfoValue(e.originatorInfo.value))];
    }
    v := v + [Set(e.recipientInfos)];
    v := v + [EncryptedContentInfoValue(e.encryptedContentInfo)];
    if e.unprotectedAttrs.Some? {
      v := v + [Tagged(false, 1, Set(e.unprotectedAttrs.value))];
    }
    r := Sequence(v);
  }

  /** 1 when an originator info is present, shifting the later fields by one. */
  function Shift(e: EnvelopedData): nat
  {
    if e.originatorInfo.Some? then 1 else 0
  }

  /**
   * The encoding lists the version, `[0]` IMPLICIT originator info when present,
   * the recipient set, the encrypted content info and `[1]` IMPLICIT
   * unprotected attributes when present, in that order and nothing else.
   */
  lemma EncodedLayout(e: EnvelopedData)
    ensures var s := Encoded(e).elems;
            && |s| == 3 + Shift(e) + (if e.unprotectedAttrs.Some? then 1 else 0)
            && s[0] == Integer(e.version)
            && (e.originatorInfo.Some? ==> s[1] == Tagged(false, 0, OriginatorInfoValue(e.originatorInfo.value)))
            && s[1 + Shift(e)] == Set(e.recipientInfos)
            && s[2 + Shift(e)] == EncryptedContentInfoValue(e.encryptedContentInfo)
            && (e.unprotectedAttrs.Some? ==> s[3 + Shift(e)] == Tagged(false, 1, Set(e.unprotectedAttrs.value)))
  {
  }

  // ---------------------------------------------------------------------------
  // Decoding

  /** 1 when the second element is a tagged object (read as the originator info). */
  function ElementShift(s: seq<Value>): nat
    requires |s| >= 2
  {
    if s[1].Tagged? then 1 else 0
  }

  /** The originator info that a second element stands for, if it is tagged. */
  function OriginatorInfoField(o: Value): Result<Option<OriginatorInfo>>
  {
    if o.Tagged? then
      var info :- OriginatorInfoInTagged(o);
      Ok(Some(info))
    else Ok(None)
  }

  /** The unprotected attributes read from the element after the encrypted content info. */
  function UnprotectedAttrsField(o: Value): Result<Option<seq<Value>>>
  {
    var t :- AsTagged(o);
    var attrs :- SetInTagged(t);
    Ok(Some(attrs))
  }

  /**
   * What `new EnvelopedData(ASN1Sequence)` makes of the sequence elements `s`:
   * the fields, or the exception the constructor raises first.
   */
  function Decoded(s: seq<Value>): (r: Result<EnvelopedData>)
    ensures r.Ok? ==> |s| >= 3 && s[0].Integer? && r.value.version == s[0].value
    ensures r.Ok? ==> (r.value.originatorInfo.Some? <==> s[1].Tagged?)
    ensures r.Ok? ==> |s| >= 3 + ElementShift(s)
    ensures r.Ok? ==> (r.value.unprotectedAttrs.Some? <==> |s| > 3 + ElementShift(s))
    ensures |s| < 3 ==> r.Err?
    ensures r.Ok? <==>
              && |s| >= 3 && s[0].Integer?
              && (s[1].Tagged? ==> s[1].obj.OriginatorInfoValue?)
              && |s| >= 3 + ElementShift(s)
              && s[1 + ElementShift(s)].Set?
              && s[2 + ElementShift(s)].EncryptedContentInfoValue?
              && (|s| > 3 + ElementShift(s) ==> s[3 + ElementShift(s)].Tagged? && s[3 + ElementShift(s)].obj.Set?)
  {
    var first :- ObjectAt(s, 0);
    var version :- AsInteger(first);
    var second :- ObjectAt(s, 1);
    var originatorInfo :- OriginatorInfoField(second);
    var shift := ElementShift(s);
    var ris :- ObjectAt(s, 1 + shift);
    var recipientInfos :- SetOf(ris);
    var eci :- ObjectAt(s, 2 + shift);
    var encryptedContentInfo :- EncryptedContentInfoOf(eci);
    var unprotectedAttrs :- if |s| > 3 + shift then UnprotectedAttrsField(s[3 + shift]) else Ok(None);
    Ok(EnvelopedData(version, originatorInfo, recipientInfos, encryptedContentInfo, unprotectedAttrs))
  }

  /** `new EnvelopedData(ASN1Sequence)`, advancing an index through the elements. */
  method FromSequence(s: seq<Value>) returns (r: Result<EnvelopedData>)
    ensures r == Decoded(s)
  {
    var index := 0;
    var obj :- ObjectAt(s, index);
    index := index + 1;
    var version :- AsInteger(obj);

    var tmp :- ObjectAt(s, index);
    index := index + 1;

    var originatorInfo: Option<OriginatorInfo> := None;
    if tmp.Tagged? {
      var info :- OriginatorInfoInTagged(tmp);
      originatorInfo := Some(info);
      tmp :- ObjectAt(s, index);
      index := index + 1;
    }

    var recipientInfos :- SetOf(tmp);

    obj :- ObjectAt(s, index);
    index := index + 1;
    var encryptedContentInfo :- EncryptedContentInfoOf(obj);

    var unprotectedAttrs: Option<seq<Value>> := None;
    if |s| > index {
      var tagged :- AsTagged(s[index]);
      var attrs :- SetInTagged(tagged);
      unprotectedAttrs := Some(attrs);
    }

    r := Ok(EnvelopedData(version, originatorInfo, recipientInfos, encryptedContentInfo, unprotectedAttrs));
  }

  /** Decoding undoes encoding: every field comes back, the version verbatim. */
  lemma RoundTrip(e: EnvelopedData)
    ensures Decoded(Encoded(e).elems) == Ok(e)
  {
    EncodedLayout(e);
  }

  /** Elements after the one read as unprotected attributes are ignored. */
  lemma DecodedIgnoresTrailing(s: seq<Value>, extra: seq<Value>)
    requires |s| >= 2 && |s| >= 4 + ElementShift(s)
    ensures Decoded(s + extra) == Decoded(s)
  {
    var t := s + extra;
    assert t[0] == s[0] && t[1] == s[1];
    assert t[1 + ElementShift(s)] == s[1 + ElementShift(s)];
    assert t[2 + ElementShift(s)] == s[2 + ElementShift(s)];
    assert t[3 + ElementShift(s)] == s[3 + ElementShift(s)];
  }

  /**
   * Where each field of a decoded EnvelopedData comes from: the recipient set and
   * the encrypted content info sit one place later when element 1 is tagged, and
   * the unprotected attributes are the set inside the element after them.
   */
  lemma DecodedFields(s: seq<Value>)
    requires Decoded(s).Ok?
    ensures var d := Decoded(s).value; var k := ElementShift(s);
            && s[1 + k].Set? && d.recipientInfos == s[1 + k].elems
            && s[2 + k].EncryptedContentInfoValue? && d.encryptedContentInfo == s[2 + k].eci
            && (s[1].Tagged? ==> s[1].obj.OriginatorInfoValue? && d.originatorInfo == Some(s[1].obj.info))
            && (|s| > 3 + k ==> s[3 + k].Tagged? && s[3 + k].obj.Set?
                                && d.unprotectedAttrs == Some(s[3 + k].obj.elems))
  {
  }

  /** An implicitly tagged second element is read as originator info whatever its tag number. */
  lemma DecodedAcceptsAnyOriginatorTag(version: int, tagNo: nat, info: OriginatorInfo,
                                       ris: seq<Value>, eci: EncryptedContentInfo)
    ensures Decoded([Integer(version), Tagged(false, tagNo, OriginatorInfoValue(info)), Set(ris),
                     EncryptedContentInfoValue(eci)])
            == Ok(EnvelopedData(version, Some(info), ris, eci, None))
  {
  }

  /** The decoded version is kept as it is, even where inference would give another. */
  lemma DecodedKeepsVersion(eci: EncryptedContentInfo)
    ensures Decoded([Integer(7), Set([]), EncryptedContentInfoValue(eci)])
            == Ok(EnvelopedData(7, None, [], eci, None))
    ensures InferredVersion(None, [], None) == Ok(0)
  {
  }

  // ---------------------------------------------------------------------------
  // Factories

  /** `getInstance(Object)`: null gives null, an EnvelopedData itself, anything else is read as a sequence. */
  function GetInstance(o: Obj): (r: Result<Option<EnvelopedData>>)
    ensures o.Null? ==> r == Ok(None)
    ensures o.Instance? ==> r == Ok(Some(o.data))
    ensures o.Encodable? && !o.value.Sequence? ==> r == Err(IllegalArgument)
    ensures o.Encodable? && r.Ok? ==> o.value.Sequence? && |o.value.elems| >= 3 && r.value.Some?
    ensures o.Encodable? && o.value.Sequence? ==>
              (r.Ok? <==> Decoded(o.value.elems).Ok?)
              && (r.Ok? ==> r.value == Some(Decoded(o.value.elems).value))
  {
    match o
    case Null => Ok(None)
    case Instance(d) => Ok(Some(d))
    case Encodable(v) =>
      var s :- SequenceOf(v);
      var d :- Decoded(s);
      Ok(Some(d))
  }

  /** `getInstance(ASN1TaggedObject, boolean)`: the sequence the tag stands for, decoded. */
  function GetInstanceFromTagged(t: Value, explicit: bool): (r: Result<Option<EnvelopedData>>)
    requires t.Tagged?
    ensures r.Ok? <==> t.obj.Sequence? && Decoded(t.obj.elems).Ok?
    ensures r.Ok? ==> r.value == Some(Decoded(t.obj.elems).value)
    ensures !t.obj.Sequence? ==> r == Err(IllegalArgument)
  {
    var s :- SequenceInTagged(t, explicit);
    GetInstance(Encodable(Sequence(s)))
  }

  /**
   * Both factories give back the structure whose encoding they are handed,
   * the tagged one when the tag's mode is the one asked for.
   */
  lemma GetInstanceOfEncoding(e: EnvelopedData, explicit: bool, tagNo: nat)
    ensures GetInstance(Encodable(Encoded(e))) == Ok(Some(e))
    ensures GetInstanceFromTagged(Tagged(explicit, tagNo, Encoded(e)), explicit) == Ok(Some(e))
  {
    RoundTrip(e);
  }
}
