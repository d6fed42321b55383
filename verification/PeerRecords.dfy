/** The records exchanged by the peer-service hand-off and their validators.
    SHA-256 over canonical JSON is modelled by a free constructor per record kind: two
    digests are equal exactly when they were taken of the same record. */
module PeerRecords {
  import opened Common

  /** Queue provenance carried from the queue claim to the receipt. */
  datatype SourceRef = SourceRef(
    queueEntryId: int, sourceDmId: int, queueClaimFence: int, sourcePeer: Option<string>)

  /** The `delivery_ref` text of an envelope: either the canonical JSON of a source
      reference, or any other text together with what a JSON parser makes of it. */
  datatype DeliveryRef = Canonical(ref: SourceRef) | Foreign(text: string, decoded: Option<SourceRef>)

  datatype Job = Job(
    schemaVersion: int, jobId: string, sourceDmId: int, destinationPeer: string, deliveryRef: DeliveryRef)

  datatype Claim = Claim(jobId: string, destinationPeer: string, fencingToken: int, leaseExpiresAt: real)

  datatype Output = Output(
    jobId: string, sourceDmId: int, destinationPeer: string, fencingToken: int,
    text: string, outputDigest: Digest)

  datatype Receipt = Receipt(
    jobId: string, sourceDmId: int, destinationPeer: string, fencingToken: int,
    outputDigest: Digest, payloadDigest: Digest, envelopeDigest: Digest, sourceRef: SourceRef)

  datatype ReplyEnvelope = ReplyEnvelope(
    schemaVersion: int, jobId: string, receiptDigest: Digest, content: string)

  /** A digest field. `UnknownHex` is well-formed hexadecimal that is the digest of no
      record here; `Malformed` is text that is not 64 hexadecimal digits. */
  datatype Digest =
    | OfText(text: string)
    | OfJob(job: Job)
    | OfReceipt(receipt: Receipt)
    | OfReply(reply: ReplyEnvelope)
    | UnknownHex(hex: string)
    | Malformed(value: string)

  datatype RecordError =
    | BadId
    | BadSchemaVersion
    | BadDeliveryRef
    | BadDigest
    | BadSourceRef
    | BadReceipt

  const LEASE_SECONDS: real := 300.0

  // ---------------------------------------------------------------- names and text

  /** A non-empty string equal to its own POSIX file name. */
  predicate FilenameSafe(s: string) {
    s != "" && s != "." && '/' !in s
  }

  function HexDigit(n: nat): char
    requires n < 16
  {
    "0123456789abcdef"[n]
  }

  function UnicodeEscape(n: nat): string
    requires n < 0x10000
  {
    "\\u" + [HexDigit(n / 4096), HexDigit(n / 256 % 16), HexDigit(n / 16 % 16), HexDigit(n % 16)]
  }

  /** One character inside an ASCII-only JSON string. */
  function JsonChar(c: char): string {
    if c == '"' then "\\\""
    else if c == '\\' then "\\\\"
    else if c == '\n' then "\\n"
    else if c == '\r' then "\\r"
    else if c == '\t' then "\\t"
    else if c == 8 as char then "\\b"
    else if c == 12 as char then "\\f"
    else if ' ' <= c <= '~' then [c]
    else if c as int < 0x10000 then UnicodeEscape(c as int)
    else
      UnicodeEscape(0xD800 + (c as int - 0x10000) / 1024 % 1024) + UnicodeEscape(0xDC00 + (c as int - 0x10000) % 1024)
  }

  function JsonString(s: string): string {
    if s == "" then "" else JsonChar(s[0]) + JsonString(s[1..])
  }

  /** Canonical JSON of a source reference: sorted keys, no spaces. */
  function SourceRefText(ref: SourceRef): string {
    "{\"queue_claim_fence\":" + IntText(ref.queueClaimFence)
    + ",\"queue_entry_id\":" + IntText(ref.queueEntryId)
    + ",\"source_dm_id\":" + IntText(ref.sourceDmId)
    + (match ref.sourcePeer
       case None => ""
       case Some(peer) => ",\"source_peer\":\"" + JsonString(peer) + "\"")
    + "}"
  }

  // ---------------------------------------------------------------- validators

  predicate ShortSingleLine(text: string) {
    text != "" && |text| <= 256 && '\n' !in text && '\r' !in text
  }

  predicate ValidDeliveryRef(d: DeliveryRef) {
    match d
    case Canonical(ref) => |SourceRefText(ref)| <= 256
    case Foreign(text, _) => ShortSingleLine(text)
  }

  function ValidateJob(job: Job): Result<(), RecordError> {
    if job.schemaVersion != 1 then Err(BadSchemaVersion)
    else if !FilenameSafe(job.jobId) || !FilenameSafe(job.destinationPeer) then Err(BadId)
    else if !ValidDeliveryRef(job.deliveryRef) then Err(BadDeliveryRef)
    else Ok(())
  }

  predicate ValidJob(job: Job) {
    ValidateJob(job).Ok?
  }

  predicate ValidDigest(d: Digest) {
    !d.Malformed?
  }

  /** The provenance a receipt for `sourceDmId` may carry. */
  predicate ValidSourceRef(ref: SourceRef, sourceDmId: int) {
    && ref.queueEntryId >= 1 && ref.sourceDmId >= 1 && ref.queueClaimFence >= 1
    && ref.queueEntryId == ref.sourceDmId == sourceDmId
    && (ref.sourcePeer.Some? ==> FilenameSafe(ref.sourcePeer.value))
  }

  function ValidateReceipt(r: Receipt): Result<(), RecordError> {
    if !FilenameSafe(r.jobId) || !FilenameSafe(r.destinationPeer) then Err(BadId)
    else if r.fencingToken < 1 then Err(BadReceipt)
    else if !ValidDigest(r.outputDigest) then Err(BadDigest)
    else if !ValidSourceRef(r.sourceRef, r.sourceDmId) then Err(BadSourceRef)
    else if !ValidDigest(r.payloadDigest) || !ValidDigest(r.envelopeDigest) then Err(BadDigest)
    else Ok(())
  }

  predicate ValidReceipt(r: Receipt) {
    ValidateReceipt(r).Ok?
  }

  /** The queue provenance stored in a staged envelope, when it decodes. */
  function SourceRefFromDeliveryRef(job: Job): Result<SourceRef, RecordError> {
    match ValidateJob(job)
    case Err(e) => Err(e)
    case Ok(_) =>
      var decoded := match job.deliveryRef
        case Canonical(ref) => Some(ref)
        case Foreign(_, d) => d;
      if decoded.Some? && ValidSourceRef(decoded.value, job.sourceDmId)
      then Ok(decoded.value)
      else Err(BadSourceRef)
  }
}
