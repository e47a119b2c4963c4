/**
 * Evidence (section 2 of RFC 5544):
 *
 *   Evidence ::= CHOICE {
 *     tstEvidence [0] TimeStampTokenEvidence, ... }
 *
 * Only the `[0]` alternative is recognised. A tagged object with any other tag
 * number gives an Evidence with no alternative set, and no exception.
 */
module CmsEvidence {
  import opened Asn1

  /** `new Evidence(tstEvidence)`; the argument may be null (`None`). */
  datatype Evidence = Evidence(tstEvidence: Option<TimeStampTokenEvidence>)

  /** What `getInstance(Object)` may be handed. */
  datatype Obj = Null | Instance(evidence: Evidence) | Encodable(value: Value)

  /** The private constructor from a tagged object: tag 0 holds the time-stamp token evidence. */
  function FromTagged(t: Value): (r: Result<Evidence>)
    requires t.Tagged?
    ensures t.tagNo != 0 ==> r == Ok(Evidence(None))
    ensures t.tagNo == 0 ==> (r.Ok? <==> t.obj.TimeStampTokenEvidenceValue?)
    ensures t.tagNo == 0 && r.Ok? ==> r.value.tstEvidence == Some(t.obj.tst)
    ensures r.Err? ==> r.error == IllegalArgument
  {
    if t.tagNo == 0 then
      var tst :- TimeStampTokenEvidenceInTagged(t);
      Ok(Evidence(Some(tst)))
    else Ok(Evidence(None))
  }

  /** `toASN1Primitive`: `[0]` IMPLICIT tstEvidence when it is set, null otherwise. */
  function Encoded(e: Evidence): (r: Option<Value>)
    ensures r.Some? <==> e.tstEvidence.Some?
    ensures r.Some? ==> r.value.Tagged? && !r.value.explicit && r.value.tagNo == 0
  {
    if e.tstEvidence.Some? then Some(Tagged(false, 0, TimeStampTokenEvidenceValue(e.tstEvidence.value)))
    else None
  }

  /** Decoding undoes encoding: the time-stamp token evidence comes back. */
  lemma RoundTrip(tst: TimeStampTokenEvidence)
    ensures Encoded(Evidence(Some(tst))).Some?
    ensures FromTagged(Encoded(Evidence(Some(tst))).value) == Ok(Evidence(Some(tst)))
  {
  }

  /**
   * Re-encoding what an IMPLICIT tag-0 object decodes to gives that object back.
   */
  lemma ReencodeTagZero(t: Value)
    requires t.Tagged? && !t.explicit && t.tagNo == 0 && FromTagged(t).Ok?
    ensures Encoded(FromTagged(t).value) == Some(t)
  {
  }

  /** Re-encoding what an unrecognised tag decodes to gives nothing. */
  lemma ReencodeUnknownTag(t: Value)
    requires t.Tagged? && t.tagNo != 0
    ensures Encoded(FromTagged(t).value) == None
  {
  }

  /** `getInstance(Object)`: null gives null, an Evidence itself, a tagged object is decoded. */
  function GetInstance(o: Obj): (r: Result<Option<Evidence>>)
    ensures o.Null? ==> r == Ok(None)
    ensures o.Instance? ==> r == Ok(Some(o.evidence))
    ensures o.Encodable? && !o.value.Tagged? ==> r == Err(IllegalArgument)
    ensures o.Encodable? && o.value.Tagged? ==>
              (r.Ok? <==> FromTagged(o.value).Ok?)
              && (r.Ok? ==> r.value == Some(FromTagged(o.value).value))
  {
    match o
    case Null => Ok(None)
    case Instance(e) => Ok(Some(e))
    case Encodable(v) =>
      if v.Tagged? then
        var e :- FromTagged(v);
        Ok(Some(e))
      else Err(IllegalArgument)
  }

  /** `getInstance` gives back the evidence whose encoding it is handed. */
  lemma GetInstanceOfEncoding(tst: TimeStampTokenEvidence)
    ensures GetInstance(Encodable(Encoded(Evidence(Some(tst))).value)) == Ok(Some(Evidence(Some(tst))))
  {
    RoundTrip(tst);
  }
}
