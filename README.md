# CMS structure codecs (EnvelopedData, OriginatorPublicKey, Evidence)

This project models three CMS structure classes bundled with the iOS builder
plugin under `bouncycastle/asn1/cms`. Each class turns an ASN.1 value into a
typed structure and back:

- **EnvelopedData** (section 6.1 of RFC 5652): positional decoding with two
  optional fields, encoding with `[0]` and `[1]` IMPLICIT tags, and the
  version inference used when the structure is built from its components.
- **OriginatorPublicKey** (section 6.2.2 of RFC 5652): a fixed SEQUENCE of an
  algorithm identifier and a public-key BIT STRING.
- **Evidence** (section 2 of RFC 5544): a CHOICE of which only the `[0]`
  time-stamp token alternative is recognised.

ASN.1 values are abstract trees (`Asn1.Value`: integers, bit strings,
sequences, sets, tagged objects), not octets. The referenced CMS types are
opaque leaves: OriginatorInfo, EncryptedContentInfo, RecipientInfo,
AlgorithmIdentifier and TimeStampTokenEvidence. A RecipientInfo shows only its
version. Java exceptions become `Result` values. The error says which kind was
raised: `IndexOutOfRange` for a read past the end of a sequence, `ClassCast`
for a failed cast, `IllegalArgument` when a `getInstance` factory refuses its
argument. A reference that may be null becomes an `Option`. Each
`getInstance(Object)` takes an `Obj` value: null, an instance of the class
itself, or an ASN.1 value.

Module `Asn1` holds the value tree and small stand-ins for the library calls
the three classes make: `getObjectAt`, the casts, and the `getInstance`
factories of ASN1Set, ASN1Sequence and the referenced types. It also holds
`intValue()` as 32-bit two's complement. The accessors (`getVersion`,
`getOriginatorInfo`, `getRecipientInfos`, `getEncryptedContentInfo`,
`getUnprotectedAttrs`, `getAlgorithm`, `getPublicKey`, `getTstEvidence`) are the
fields of the datatypes. The public Evidence constructor is the datatype
constructor `CmsEvidence.Evidence`.

EnvelopedData keeps the imperative form of its source. `CalculateVersion` is a
loop with an early `break`. `FromSequence` moves an index through the elements.
`ToAsn1Primitive` appends to a vector. Each is proved equal to a function
(`InferredVersion`, `Decoded`, `Encoded`), and the lemmas are about those
functions.

The code differs from the RFCs in three places, and the model follows the code:
- Any tagged object in second place is read as the originator info, whatever
  its tag number. Section 6.1 of RFC 5652 reserves `[0]` for it.
- The version inference only ever gives 0 or 2. The rule in section 6.1 of
  RFC 5652 can also give 3 or 4.
- The inference gives 0 for an empty recipient set, which the RFC does not
  allow.

A decoded version is kept as it was encoded and is never checked against the
inference.

## Model

| member | source | states |
|---|---|---|
| `Asn1.IntValue` | src/main/java/org/jenkinsci/plugins/iosbuilder/bouncycastle/asn1/cms/EnvelopedData.java:172 | the recipient version as a signed 32-bit value: 0 exactly when the version is a multiple of 2^32, and unchanged when it fits in 32 bits |
| `CmsEnvelopedData.ScanRecipients` | src/main/java/org/jenkinsci/plugins/iosbuilder/bouncycastle/asn1/cms/EnvelopedData.java:166-177 | the recipient scan gives 0 or 2; when it fails, the error is IllegalArgument from `RecipientInfo.getInstance` |
| `CmsEnvelopedData.InferredVersion` | src/main/java/org/jenkinsci/plugins/iosbuilder/bouncycastle/asn1/cms/EnvelopedData.java:154-181 | the inferred version is always 0 or 2, and it is 2 whenever originatorInfo or unprotectedAttrs is present, whatever the recipients |
| `CmsEnvelopedData.CalculateVersion` | src/main/java/org/jenkinsci/plugins/iosbuilder/bouncycastle/asn1/cms/EnvelopedData.java:154-181 | the loop that stops at the first mismatch computes exactly `InferredVersion`, errors included |
| `CmsEnvelopedData.VersionZeroIffAllVersionZero` | src/main/java/org/jenkinsci/plugins/iosbuilder/bouncycastle/asn1/cms/EnvelopedData.java:162-178 | with both optionals absent, the version is 0 if and only if every element is a RecipientInfo whose version reads as 0 (an empty set included) |
| `CmsEnvelopedData.VersionFailsIff` | src/main/java/org/jenkinsci/plugins/iosbuilder/bouncycastle/asn1/cms/EnvelopedData.java:166-177 | with both optionals absent, the inference fails if and only if some non-RecipientInfo element comes before any recipient whose version is not 0; elements after the `break` are never examined |
| `CmsEnvelopedData.VersionOfRecipientInfos` | src/main/java/org/jenkinsci/plugins/iosbuilder/bouncycastle/asn1/cms/EnvelopedData.java:162-178 | for a set of RecipientInfos with both optionals absent, the version is 0 when all have version 0 and 2 otherwise; it never fails |
| `CmsEnvelopedData.VersionComparesLow32Bits` | src/main/java/org/jenkinsci/plugins/iosbuilder/bouncycastle/asn1/cms/EnvelopedData.java:172 | a recipient of version 2^32 counts as version 0, and one of version 1 makes the result 2 |
| `CmsEnvelopedData.Create` | src/main/java/org/jenkinsci/plugins/iosbuilder/bouncycastle/asn1/cms/EnvelopedData.java:18-30 | building from components stores the four components unchanged and sets the version to the inferred one (0 or 2); it fails exactly when the inference fails |
| `CmsEnvelopedData.Encoded` | src/main/java/org/jenkinsci/plugins/iosbuilder/bouncycastle/asn1/cms/EnvelopedData.java:132-152 | the encoding is a sequence of 3 to 5 elements |
| `CmsEnvelopedData.ToAsn1Primitive` | src/main/java/org/jenkinsci/plugins/iosbuilder/bouncycastle/asn1/cms/EnvelopedData.java:132-152 | appending field by field to the vector gives exactly `Encoded` |
| `CmsEnvelopedData.EncodedLayout` | src/main/java/org/jenkinsci/plugins/iosbuilder/bouncycastle/asn1/cms/EnvelopedData.java:134-151 | the element order is: version; `[0]` IMPLICIT originatorInfo, only when present; recipientInfos; encryptedContentInfo; `[1]` IMPLICIT unprotectedAttrs, only when present |
| `CmsEnvelopedData.Decoded` | src/main/java/org/jenkinsci/plugins/iosbuilder/bouncycastle/asn1/cms/EnvelopedData.java:32-55 | decoding succeeds if and only if element 0 is an integer, a tagged element 1 holds an OriginatorInfo, the next two elements are a set and an EncryptedContentInfo (so at least 3 elements, 4 when element 1 is tagged), and any element after them is a tagged object holding a set, whatever its tag number; a successful decode keeps element 0's integer as the version verbatim; originatorInfo is present if and only if element 1 is tagged; unprotectedAttrs is present if and only if an element follows encryptedContentInfo; fewer than 3 elements always fail |
| `CmsEnvelopedData.FromSequence` | src/main/java/org/jenkinsci/plugins/iosbuilder/bouncycastle/asn1/cms/EnvelopedData.java:32-55 | the constructor that advances an index through the sequence computes exactly `Decoded`, including which exception it raises first |
| `CmsEnvelopedData.RoundTrip` | src/main/java/org/jenkinsci/plugins/iosbuilder/bouncycastle/asn1/cms/EnvelopedData.java:32-152 | decoding the encoding of any EnvelopedData gives back the same version, originatorInfo, recipientInfos, encryptedContentInfo and unprotectedAttrs |
| `CmsEnvelopedData.DecodedIgnoresTrailing` | src/main/java/org/jenkinsci/plugins/iosbuilder/bouncycastle/asn1/cms/EnvelopedData.java:51-54 | at most one element after encryptedContentInfo is read; appending further elements does not change the outcome |
| `CmsEnvelopedData.DecodedFields` | src/main/java/org/jenkinsci/plugins/iosbuilder/bouncycastle/asn1/cms/EnvelopedData.java:37-54 | for every sequence that decodes: when element 1 is tagged, originatorInfo is the OriginatorInfo inside it; recipientInfos is the set at index 1, or at index 2 when element 1 is tagged; encryptedContentInfo is the element after that; unprotectedAttrs, when an element follows, is the set inside that tagged element |
| `CmsEnvelopedData.DecodedAcceptsAnyOriginatorTag` | src/main/java/org/jenkinsci/plugins/iosbuilder/bouncycastle/asn1/cms/EnvelopedData.java:39-45 | an IMPLICIT tagged element 1 becomes the originatorInfo whatever its tag number, and recipientInfos moves to the next index |
| `CmsEnvelopedData.DecodedKeepsVersion` | src/main/java/org/jenkinsci/plugins/iosbuilder/bouncycastle/asn1/cms/EnvelopedData.java:37 | a decoded version of 7 is kept even where the inference would give 0 |
| `CmsEnvelopedData.GetInstance` | src/main/java/org/jenkinsci/plugins/iosbuilder/bouncycastle/asn1/cms/EnvelopedData.java:79-93 | null gives null; an EnvelopedData is returned as it is; a value that is not a sequence raises IllegalArgument; a sequence succeeds exactly when `Decoded` accepts its elements and then gives that decoding, so success needs at least 3 elements (4 when element 1 is tagged) |
| `CmsEnvelopedData.GetInstanceFromTagged` | src/main/java/org/jenkinsci/plugins/iosbuilder/bouncycastle/asn1/cms/EnvelopedData.java:66-71 | succeeds if and only if the tagged object holds a sequence that `Decoded` accepts, and then gives that decoding; content that is not a sequence raises IllegalArgument |
| `CmsEnvelopedData.GetInstanceOfEncoding` | src/main/java/org/jenkinsci/plugins/iosbuilder/bouncycastle/asn1/cms/EnvelopedData.java:66-93 | both factories give back the EnvelopedData whose encoding they are handed, directly or inside a tagged object whose mode matches the `explicit` argument |
| `CmsOriginatorPublicKey.FromComponents` | src/main/java/org/jenkinsci/plugins/iosbuilder/bouncycastle/asn1/cms/OriginatorPublicKey.java:19-25 | the algorithm is stored unchanged, and the key octets become a bit string with no unused bits |
| `CmsOriginatorPublicKey.FromSequence` | src/main/java/org/jenkinsci/plugins/iosbuilder/bouncycastle/asn1/cms/OriginatorPublicKey.java:27-32 | decoding succeeds if and only if element 0 is an AlgorithmIdentifier and element 1 is a bit string, and it takes the fields from those two elements; otherwise it raises: IndexOutOfRange for a missing element, IllegalArgument for a bad algorithm, ClassCast for a non-bit-string key |
| `CmsOriginatorPublicKey.Encoded` | src/main/java/org/jenkinsci/plugins/iosbuilder/bouncycastle/asn1/cms/OriginatorPublicKey.java:91-99 | the encoding is a sequence of exactly two elements |
| `CmsOriginatorPublicKey.RoundTrip` | src/main/java/org/jenkinsci/plugins/iosbuilder/bouncycastle/asn1/cms/OriginatorPublicKey.java:27-99 | decoding the encoding gives back the same algorithm and public key, so the two elements are `[algorithm, publicKey]` in that order |
| `CmsOriginatorPublicKey.FromSequenceIgnoresTrailing` | src/main/java/org/jenkinsci/plugins/iosbuilder/bouncycastle/asn1/cms/OriginatorPublicKey.java:27-32 | elements past index 1 are ignored |
| `CmsOriginatorPublicKey.GetInstance` | src/main/java/org/jenkinsci/plugins/iosbuilder/bouncycastle/asn1/cms/OriginatorPublicKey.java:56-70 | null gives null; an OriginatorPublicKey is returned as it is; a sequence is decoded, and the factory succeeds exactly when decoding does; any other value raises IllegalArgument |
| `CmsOriginatorPublicKey.GetInstanceFromTagged` | src/main/java/org/jenkinsci/plugins/iosbuilder/bouncycastle/asn1/cms/OriginatorPublicKey.java:43-48 | succeeds if and only if the tagged object holds a sequence that decodes, and then gives that decoding; content that is not a sequence raises IllegalArgument |
| `CmsOriginatorPublicKey.GetInstanceOfEncoding` | src/main/java/org/jenkinsci/plugins/iosbuilder/bouncycastle/asn1/cms/OriginatorPublicKey.java:43-70 | both factories give back the key whose encoding they are handed, directly or inside a tagged object whose mode matches the `explicit` argument |
| `CmsEvidence.FromTagged` | src/main/java/org/jenkinsci/plugins/iosbuilder/bouncycastle/asn1/cms/Evidence.java:16-22 | tag 0 gives an Evidence whose tstEvidence is the tagged content, and fails (IllegalArgument) exactly when that content is not a TimeStampTokenEvidence; any other tag number gives, without error, an Evidence with no tstEvidence |
| `CmsEvidence.Encoded` | src/main/java/org/jenkinsci/plugins/iosbuilder/bouncycastle/asn1/cms/Evidence.java:43-51 | the encoding exists if and only if tstEvidence is set, and is then an IMPLICIT tag 0; otherwise it is null |
| `CmsEvidence.RoundTrip` | src/main/java/org/jenkinsci/plugins/iosbuilder/bouncycastle/asn1/cms/Evidence.java:11-51 | for a non-null time-stamp token evidence `t`, decoding the encoding of `Evidence(t)` gives back `t` |
| `CmsEvidence.ReencodeTagZero` | src/main/java/org/jenkinsci/plugins/iosbuilder/bouncycastle/asn1/cms/Evidence.java:16-51 | decoding and re-encoding an IMPLICIT tag-0 object gives the same object back |
| `CmsEvidence.ReencodeUnknownTag` | src/main/java/org/jenkinsci/plugins/iosbuilder/bouncycastle/asn1/cms/Evidence.java:16-51 | decoding and re-encoding an object with any tag other than 0 gives null |
| `CmsEvidence.GetInstance` | src/main/java/org/jenkinsci/plugins/iosbuilder/bouncycastle/asn1/cms/Evidence.java:24-36 | null gives null; an Evidence is returned as it is; a tagged object is decoded, and the factory succeeds exactly when decoding does; anything else raises IllegalArgument |
| `CmsEvidence.GetInstanceOfEncoding` | src/main/java/org/jenkinsci/plugins/iosbuilder/bouncycastle/asn1/cms/Evidence.java:24-51 | `getInstance` gives back the Evidence whose encoding it is handed |

## Left out

- The octet level of ASN.1 is not modelled: tag and length octets, BER indefinite lengths, truncated input and nesting limits. These live in ASN1Sequence, ASN1Set, ASN1TaggedObject, DERTaggedObject, BERSequence and DERSequence, which are not part of this model. Values are abstract trees instead.
- The model does not distinguish BER from DER output (`BERSequence` for EnvelopedData, `DERSequence` for OriginatorPublicKey). The two cannot be told apart as abstract values.
- The referenced types are opaque leaves, because their classes are not part of this model: OriginatorInfo, EncryptedContentInfo, RecipientInfo (apart from its version), AlgorithmIdentifier and TimeStampTokenEvidence. Their own `getInstance` factories accept only their own leaf. They do not convert other forms.
- In the stand-ins for `ASN1Set.getInstance(o)` and `ASN1Sequence.getInstance(o)`, only a set or a sequence value is accepted. The library's other conversions are left out: byte arrays, parsers, and encodables whose primitive form is a set or a sequence.
- In the stand-ins for `ASN1Sequence.getInstance(tagged, explicit)` and `ASN1Set.getInstance(tagged, false)`, the tagged object's content is read as the sequence or set. Neither the tagging mode nor the `explicit` argument is consulted. The library's handling of a mismatched mode is not modelled, and neither is its re-reading of an implicitly tagged sequence as a set.
- `CmsEnvelopedData.GetInstanceFromTagged` ignores its `explicit` argument, because the call it passes that argument to is not part of this model.
- `CmsOriginatorPublicKey.GetInstanceFromTagged` ignores its `explicit` argument for the same reason.
- The model also reads a tagged object the same way whatever its own mode, so it accepts an explicit tag where an implicit one is expected, and the reverse. That behaviour belongs to the stand-ins, not to the three classes. The lemmas therefore state the tagged round trips only for a tag whose mode matches the one asked for, and state the Evidence re-encoding only for an IMPLICIT tag.
- Null arguments are left out: a null recipient set or content info passed to the EnvelopedData constructor, and a null algorithm passed to OriginatorPublicKey. The source stores them or throws NullPointerException. Null optional fields and a null tstEvidence are modelled as `None`.
- Java object identity is modelled as value equality: "returned as the same object" becomes "returned equal".
- Cryptography is not modelled. Nothing here signs, verifies or derives keys.
- The Jenkins build step in `iOSBuilder.java` is not modelled. It runs external tools, binds form fields and uploads files, which is I/O with no codec logic.
