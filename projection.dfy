/**
 * The projection of a raw store record onto a Message at a detail level,
 * and the translation of the caller's level into the store's own.
 */
module Projection {
  import opened Wrappers
  import opened Strings
  import opened Models
  import opened MessageHeaders
  import opened Payload

  /**
   * A message record as the store returns it; every key may be missing.
   * `internalDate` is the store's epoch milliseconds, already read as an
   * integer.
   */
  datatype StoreRecord = StoreRecord(
    id: Option<string>,
    threadId: Option<string>,
    labelIds: Option<seq<string>>,
    snippet: Option<string>,
    historyId: Option<string>,
    internalDate: Option<int>,
    sizeEstimate: Option<int>,
    payload: Option<RawPart>,
    raw: Option<string>)

  /** Why a projection raises: a required key is absent, or a body does not decode. */
  datatype ParseError = MissingKey(key: string) | DecodeFailure

  /** The three shapes of the projection, chosen by the level string. */
  datatype Level = MinimalLevel | CompactLevel | FullLevel

  /** Any string other than "minimal" and "compact" takes the full branch. */
  function LevelOf(format: string): (l: Level)
    ensures l == MinimalLevel <==> format == "minimal"
    ensures l == CompactLevel <==> format == "compact"
  {
    if format == "minimal" then MinimalLevel
    else if format == "compact" then CompactLevel
    else FullLevel
  }

  /**
   * The level asked of the store: the caller's "compact" becomes the
   * store's "metadata", every other level is passed through.
   */
  function ApiFormat(format: string): (r: string)
    ensures r != "compact"
    ensures format == "compact" ==> r == "metadata"
    ensures format != "compact" ==> r == format
  {
    if format == "compact" then "metadata" else format
  }

  /** Every caller level the tools accept reaches the store as one of its native levels. */
  lemma ApiFormatIsNative(format: string)
    requires format in {"minimal", "compact", "full", "raw", "metadata"}
    ensures ParseFormat(ApiFormat(format)).Some?
  {
  }

  /** The identity fields every level carries. */
  datatype Base = Base(
    id: string, threadId: string, labelIds: seq<string>, snippet: Option<string>,
    historyId: Option<string>, internalDate: Option<Timestamp>, sizeEstimate: Option<int>)

  function DateOf(rec: StoreRecord): Option<Timestamp> {
    if rec.internalDate.Some? then Some(FromMillis(rec.internalDate.value)) else None
  }

  /** The base fields; a missing `id` or `threadId` raises, `id` checked first. */
  function BaseOf(rec: StoreRecord): (r: Result<Base, ParseError>)
    ensures rec.id.None? ==> r == Failure(MissingKey("id"))
    ensures rec.id.Some? && rec.threadId.None? ==> r == Failure(MissingKey("threadId"))
    ensures r.Success? <==> rec.id.Some? && rec.threadId.Some?
    ensures r.Success? ==> r.value.id == rec.id.value && r.value.threadId == rec.threadId.value
    ensures r.Success? ==> r.value.labelIds == rec.labelIds.GetOr([]) && r.value.internalDate == DateOf(rec)
  {
    if rec.id.None? then Failure(MissingKey("id"))
    else if rec.threadId.None? then Failure(MissingKey("threadId"))
    else Success(Base(rec.id.value, rec.threadId.value, rec.labelIds.GetOr([]), rec.snippet,
                      rec.historyId, DateOf(rec), rec.sizeEstimate))
  }

  function PayloadOf(rec: StoreRecord): RawPart {
    rec.payload.GetOr(EmptyPart)
  }

  /** The lower-cased map of the top-level payload headers. */
  function HeadersOf(rec: StoreRecord): map<string, string> {
    ParseMessageHeaders(PayloadOf(rec).headers.GetOr([]))
  }

  /** The minimal shape: identity and labels only. */
  function MinimalMessage(b: Base): Message {
    Message(b.id, b.threadId, b.labelIds, b.snippet, b.historyId, b.internalDate, None,
            b.sizeEstimate, None, None, None, None, b.internalDate, None, None, [])
  }

  /** The compact shape: header-derived fields and the plain text; no html, payload, raw or attachments. */
  function CompactMessage(b: Base, hs: map<string, string>, plain: string): Message {
    Message(b.id, b.threadId, b.labelIds, b.snippet, b.historyId, b.internalDate, None,
            b.sizeEstimate, None, Get(hs, "subject"), Get(hs, "from"), Get(hs, "to"),
            b.internalDate, Some(plain), None, [])
  }

  /** The full shape: everything, with the payload mirrored and `raw` taken from the record. */
  function FullMessage(b: Base, hs: map<string, string>, c: Extracted, payload: RawPart, raw: Option<string>): Message {
    Message(b.id, b.threadId, b.labelIds, b.snippet, b.historyId, b.internalDate, Some(Mirror(payload)),
            b.sizeEstimate, raw, Get(hs, "subject"), Get(hs, "from"), Get(hs, "to"),
            b.internalDate, Some(c.plain), Some(c.html), c.attachments)
  }

  /**
   * `_parse_message`. The compact branch only extracts content when the
   * payload is non-empty; since the empty payload extracts nothing, the
   * model extracts unconditionally and gets the same result.
   */
  function ParseMessage(rec: StoreRecord, format: string, decode: Decoder): (r: Result<Message, ParseError>)
    ensures rec.id.None? ==> r == Failure(MissingKey("id"))
    ensures rec.id.Some? && rec.threadId.None? ==> r == Failure(MissingKey("threadId"))
    ensures r.Success? ==> r.value.id == rec.id.value && r.value.threadId == rec.threadId.value
    ensures r.Success? ==> r.value.labelIds == rec.labelIds.GetOr([])
    ensures r.Success? ==> r.value.date == DateOf(rec) && r.value.internalDate == DateOf(rec)
    ensures r == Failure(DecodeFailure) ==> LevelOf(format) != MinimalLevel
  {
    var hs := HeadersOf(rec);
    match BaseOf(rec)
    case Failure(e) => Failure(e)
    case Success(b) =>
      match LevelOf(format)
      case MinimalLevel => Success(MinimalMessage(b))
      case CompactLevel =>
        (match ContentOf(PayloadOf(rec), decode)
         case None => Failure(DecodeFailure)
         case Some(c) => Success(CompactMessage(b, hs, c.plain)))
      case FullLevel =>
        (match ContentOf(PayloadOf(rec), decode)
         case None => Failure(DecodeFailure)
         case Some(c) => Success(FullMessage(b, hs, c, PayloadOf(rec), rec.raw)))
  }

  // ----- level by level -----

  /** The minimal level never decodes: it fails only on a missing key, and leaves every derived field empty. */
  lemma MinimalProjection(rec: StoreRecord, decode: Decoder)
    ensures var r := ParseMessage(rec, "minimal", decode);
      (r.Success? <==> rec.id.Some? && rec.threadId.Some?) &&
      (r.Success? ==>
        r.value.subject.None? && r.value.sender.None? && r.value.recipient.None? &&
        r.value.bodyText.None? && r.value.bodyHtml.None? && r.value.payload.None? &&
        r.value.raw.None? && r.value.attachments == [])
  {
  }

  /**
   * The compact level keeps the header-derived fields and the plain text of
   * the whole tree, and forces html, payload, raw and attachments empty.
   */
  lemma CompactProjection(rec: StoreRecord, decode: Decoder)
    requires rec.id.Some? && rec.threadId.Some?
    ensures var r := ParseMessage(rec, "compact", decode);
      (r.Success? <==> ContentOf(PayloadOf(rec), decode).Some?) &&
      (r.Success? ==>
        r.value.subject == Get(HeadersOf(rec), "subject") &&
        r.value.sender == Get(HeadersOf(rec), "from") &&
        r.value.recipient == Get(HeadersOf(rec), "to") &&
        r.value.bodyText == Some(ContentOf(PayloadOf(rec), decode).value.plain) &&
        r.value.bodyHtml.None? && r.value.payload.None? && r.value.raw.None? &&
        r.value.attachments == [])
  {
  }

  /** A record without a payload projects at the compact level to an empty plain text. */
  lemma CompactWithoutPayload(rec: StoreRecord, decode: Decoder)
    requires rec.id.Some? && rec.threadId.Some? && rec.payload.None?
    ensures ParseMessage(rec, "compact", decode).Success?
    ensures ParseMessage(rec, "compact", decode).value.bodyText == Some("")
    ensures ParseMessage(rec, "compact", decode).value.subject.None?
  {
    ContentUnfolds(EmptyPart, decode);
    assert ContentOf(EmptyPart, decode) == Some(NothingExtracted) by {
      ThenNothing(NothingExtracted);
    }
  }

  /**
   * Every other level runs the full branch: the extracted text, html and
   * attachments, `raw` passed through, and the mirror of the payload tree.
   */
  lemma FullProjection(rec: StoreRecord, format: string, decode: Decoder)
    requires rec.id.Some? && rec.threadId.Some?
    requires format != "minimal" && format != "compact"
    ensures var r := ParseMessage(rec, format, decode);
      var c := ContentOf(PayloadOf(rec), decode);
      (r.Success? <==> c.Some?) &&
      (r.Success? ==>
        r.value.bodyText == Some(c.value.plain) && r.value.bodyHtml == Some(c.value.html) &&
        r.value.attachments == c.value.attachments && r.value.raw == rec.raw &&
        r.value.payload == Some(Mirror(PayloadOf(rec))) &&
        r.value.subject == Get(HeadersOf(rec), "subject"))
  {
  }

  /** The fields of a message that hold something. */
  function Populated(m: Message): set<string> {
    (if m.snippet.Some? then {"snippet"} else {}) +
    (if m.historyId.Some? then {"history_id"} else {}) +
    (if m.internalDate.Some? then {"internal_date"} else {}) +
    (if m.payload.Some? then {"payload"} else {}) +
    (if m.sizeEstimate.Some? then {"size_estimate"} else {}) +
    (if m.raw.Some? then {"raw"} else {}) +
    (if m.subject.Some? then {"subject"} else {}) +
    (if m.sender.Some? then {"sender"} else {}) +
    (if m.recipient.Some? then {"recipient"} else {}) +
    (if m.date.Some? then {"date"} else {}) +
    (if m.bodyText.Some? then {"body_text"} else {}) +
    (if m.bodyHtml.Some? then {"body_html"} else {}) +
    (if m.labelIds != [] then {"label_ids"} else {}) +
    (if m.attachments != [] then {"attachments"} else {})
  }

  /**
   * Monotonic richness: on the same record, compact succeeds exactly when
   * full does, minimal whenever either does, and each richer level
   * populates a superset of the fields of the poorer one; compact agrees
   * with full on every field it populates.
   */
  lemma MonotonicRichness(rec: StoreRecord, decode: Decoder)
    ensures ParseMessage(rec, "compact", decode).Success? <==> ParseMessage(rec, "full", decode).Success?
    ensures ParseMessage(rec, "compact", decode).Success? ==> ParseMessage(rec, "minimal", decode).Success?
    ensures ParseMessage(rec, "compact", decode).Success? ==>
      Populated(ParseMessage(rec, "minimal", decode).value) <= Populated(ParseMessage(rec, "compact", decode).value) <=
      Populated(ParseMessage(rec, "full", decode).value)
    ensures ParseMessage(rec, "compact", decode).Success? ==>
      var c, f := ParseMessage(rec, "compact", decode).value, ParseMessage(rec, "full", decode).value;
      c.subject == f.subject && c.sender == f.sender && c.recipient == f.recipient && c.bodyText == f.bodyText
  {
  }

  /**
   * Although the compact level returns no html, it still decodes every
   * text/html body: one that does not decode makes it raise.
   */
  lemma CompactDecodesHtml(rec: StoreRecord, decode: Decoder, data: string)
    requires rec.id.Some? && rec.threadId.Some?
    requires rec.payload == Some(RawPart(None, Some("text/html"), None, None, Some(PartBody(Some(data), None, None)), []))
    requires decode(data).None?
    ensures ParseMessage(rec, "compact", decode) == Failure(DecodeFailure)
  {
    ContentUnfolds(rec.payload.value, decode);
  }

  /**
   * A single text/plain record with Subject and From headers, projected at
   * the compact level, where `data` decodes to "hello".
   */
  lemma CompactScenario(decode: Decoder, data: string)
    requires decode(data) == Some("hello")
    ensures
      var payload := RawPart(None, Some("text/plain"), None,
        Some([MessageHeader("Subject", "Hi"), MessageHeader("From", "a@x.com")]),
        Some(PartBody(Some(data), None, None)), []);
      var rec := StoreRecord(Some("m1"), Some("t1"), Some(["INBOX"]), None, None,
        Some(1700000000000), None, Some(payload), None);
      ParseMessage(rec, "compact", decode) == Success(Message(
        "m1", "t1", ["INBOX"], None, None, Some(FromMillis(1700000000000)), None, None, None,
        Some("Hi"), Some("a@x.com"), None, Some(FromMillis(1700000000000)), Some("hello"), None, []))
  {
    var hs := [MessageHeader("Subject", "Hi"), MessageHeader("From", "a@x.com")];
    var payload := RawPart(None, Some("text/plain"), None, Some(hs), Some(PartBody(Some(data), None, None)), []);
    var rec := StoreRecord(Some("m1"), Some("t1"), Some(["INBOX"]), None, None,
      Some(1700000000000), None, Some(payload), None);
    ScenarioContent(payload, decode, data);
    ScenarioHeaders(hs);
    var b := Base("m1", "t1", ["INBOX"], None, None, Some(FromMillis(1700000000000)), None);
    assert BaseOf(rec) == Success(b);
    assert LevelOf("compact") == CompactLevel;
    var m := map["subject" := "Hi", "from" := "a@x.com"];
    assert HeadersOf(rec) == m;
    assert Get(m, "subject") == Some("Hi") && Get(m, "from") == Some("a@x.com") && Get(m, "to") == None;
    assert ParseMessage(rec, "compact", decode) == Success(CompactMessage(b, m, "hello"));
  }

  lemma ScenarioContent(payload: RawPart, decode: Decoder, data: string)
    requires payload.mimeType == Some("text/plain") && payload.body == Some(PartBody(Some(data), None, None))
    requires payload.parts == [] && decode(data) == Some("hello")
    ensures ContentOf(payload, decode) == Some(Extracted("hello", "", []))
  {
    var hello := Extracted("hello", "", []);
    ContentUnfolds(payload, decode);
    assert NodeContribution(payload, decode) == Some(hello);
    assert ChildrenContent(payload, 0, decode) == Some(NothingExtracted);
    ThenNothing(hello);
  }

  lemma ScenarioHeaders(hs: seq<MessageHeader>)
    requires hs == [MessageHeader("Subject", "Hi"), MessageHeader("From", "a@x.com")]
    ensures ParseMessageHeaders(hs) == map["subject" := "Hi", "from" := "a@x.com"]
  {
    LowerNames();
    var first := hs[..1];
    assert first[..0] == [] && first[0] == MessageHeader("Subject", "Hi");
    assert ParseMessageHeaders(first) == map["subject" := "Hi"];
  }
}
