/**
 * The record types of the mail tools and the validation their constructors
 * apply: required fields, defaults, numeric bounds, and the refusal of any
 * field a record does not declare.
 */
module Models {
  import opened Wrappers

  /** The detail levels the store understands. There is no "compact" member. */
  datatype MessageFormat = Minimal | Full | Raw | Metadata

  function FormatValue(f: MessageFormat): string {
    match f
    case Minimal => "minimal"
    case Full => "full"
    case Raw => "raw"
    case Metadata => "metadata"
  }

  /** Enum lookup by value, `MessageFormat(s)`; an unknown value raises (None). */
  function ParseFormat(s: string): (r: Option<MessageFormat>)
    ensures r.Some? <==> s in {"minimal", "full", "raw", "metadata"}
    ensures r.Some? ==> FormatValue(r.value) == s
  {
    if s == "minimal" then Some(Minimal)
    else if s == "full" then Some(Full)
    else if s == "raw" then Some(Raw)
    else if s == "metadata" then Some(Metadata)
    else None
  }

  /** Every member is found again from its value, and "compact" is not one. */
  lemma FormatValuesRoundTrip(f: MessageFormat)
    ensures ParseFormat(FormatValue(f)) == Some(f)
    ensures FormatValue(f) != "compact" && ParseFormat("compact") == None
  {
  }

  /** Thread detail levels. */
  datatype ThreadFormat = ThreadMinimal | ThreadFull | ThreadMetadata

  datatype MessageHeader = MessageHeader(name: string, value: string)

  datatype AttachmentData = AttachmentData(attachmentId: string, size: int, data: Option<string>)

  /** The body object of a payload node, echoed as the store returns it. */
  datatype PartBody = PartBody(data: Option<string>, attachmentId: Option<string>, size: Option<int>)

  /** A node of the payload tree as surfaced to callers. */
  datatype MessagePart = MessagePart(
    partId: Option<string>,
    mimeType: string,
    filename: Option<string>,
    headers: seq<MessageHeader>,
    body: Option<PartBody>,
    parts: PartList)

  /**
   * The optional `parts` list of a MessagePart (`None` or a list). Kept as its
   * own datatype rather than an Option so that a sub-part is structurally
   * smaller than the part holding it.
   */
  datatype PartList = NoParts | PartsOf(items: seq<MessagePart>)

  /** A point in time, kept as the store's epoch milliseconds. */
  datatype Timestamp = FromMillis(millis: int)

  datatype Message = Message(
    id: string,
    threadId: string,
    labelIds: seq<string>,
    snippet: Option<string>,
    historyId: Option<string>,
    internalDate: Option<Timestamp>,
    payload: Option<MessagePart>,
    sizeEstimate: Option<int>,
    raw: Option<string>,
    subject: Option<string>,
    sender: Option<string>,
    recipient: Option<string>,
    date: Option<Timestamp>,
    bodyText: Option<string>,
    bodyHtml: Option<string>,
    attachments: seq<AttachmentData>)

  datatype SendEmailRequest = SendEmailRequest(
    to: seq<string>,
    cc: Option<seq<string>>,
    bcc: Option<seq<string>>,
    subject: string,
    bodyText: Option<string>,
    bodyHtml: Option<string>,
    threadId: Option<string>,
    inReplyTo: Option<string>,
    attachments: Option<seq<string>>)

  datatype SearchEmailsRequest = SearchEmailsRequest(
    query: string, maxResults: int, pageToken: Option<string>, includeSpamTrash: bool)

  datatype EmailListRequest = EmailListRequest(
    labelIds: Option<seq<string>>, q: Option<string>, maxResults: int,
    pageToken: Option<string>, includeSpamTrash: bool)

  datatype ModifyLabelsRequest = ModifyLabelsRequest(
    addLabelIds: Option<seq<string>>, removeLabelIds: Option<seq<string>>)

  datatype CreateLabelRequest = CreateLabelRequest(
    name: string, messageListVisibility: string, labelListVisibility: string)

  datatype ForwardEmailRequest = ForwardEmailRequest(
    to: seq<string>, cc: Option<seq<string>>, bcc: Option<seq<string>>,
    additionalMessage: Option<string>)

  datatype CreateDraftRequest = CreateDraftRequest(
    to: seq<string>,
    cc: Option<seq<string>>,
    bcc: Option<seq<string>>,
    subject: string,
    bodyText: Option<string>,
    bodyHtml: Option<string>,
    threadId: Option<string>,
    inReplyTo: Option<string>)

  datatype ThreadListRequest = ThreadListRequest(
    labelIds: Option<seq<string>>, q: Option<string>, maxResults: int,
    pageToken: Option<string>, includeSpamTrash: bool)

  // ----- validation -----

  datatype ValidationError =
    | ExtraField(name: string)
    | MissingField(name: string)
    | OutOfRange(name: string, value: int)

  /** The declared fields of a record and those without a default. */
  datatype Schema = Schema(fields: set<string>, required: set<string>)

  /**
   * Whether constructing a record from keyword arguments named `given` gets
   * past the field checks: every required field is given and, since every
   * record forbids extra fields, nothing undeclared is.
   */
  predicate Admits(schema: Schema, given: set<string>) {
    schema.required <= given && given <= schema.fields
  }

  const AttachmentDataSchema := Schema({"attachment_id", "size", "data"}, {"attachment_id", "size"})
  const MessagePartSchema :=
    Schema({"part_id", "mime_type", "filename", "headers", "body", "parts"}, {"mime_type"})
  const MessageSchema := Schema(
    {"id", "thread_id", "label_ids", "snippet", "history_id", "internal_date", "payload",
     "size_estimate", "raw", "subject", "sender", "recipient", "date", "body_text",
     "body_html", "attachments"},
    {"id", "thread_id"})
  const SearchEmailsSchema :=
    Schema({"query", "max_results", "page_token", "include_spam_trash"}, {"query"})
  const CreateLabelSchema :=
    Schema({"name", "message_list_visibility", "label_list_visibility"}, {"name"})

  /** Records refuse undeclared fields and missing required ones. */
  lemma SchemaChecks(given: set<string>)
    ensures "label_ids" in given ==> !Admits(SearchEmailsSchema, given)
    ensures !Admits(MessageSchema, given - {"id"}) && !Admits(MessageSchema, given - {"thread_id"})
    ensures Admits(MessageSchema, {"id", "thread_id"})
    ensures !Admits(AttachmentDataSchema, given - {"size"})
    ensures Admits(AttachmentDataSchema, {"attachment_id", "size"})
    ensures Admits(MessagePartSchema, {"mime_type"}) && !Admits(MessagePartSchema, given - {"mime_type"})
  {
    assert "query" in SearchEmailsSchema.required;
    assert "id" in MessageSchema.required && "thread_id" in MessageSchema.required;
    assert "size" in AttachmentDataSchema.required;
    assert "mime_type" in MessagePartSchema.required;
  }

  /** `max_results: int = Field(default=10, ge=1, le=500)`. */
  function ValidateMaxResults(given: Option<int>): (r: Result<int, ValidationError>)
    ensures r.Success? <==> (given.None? || 1 <= given.value <= 500)
    ensures given.None? ==> r == Success(10)
    ensures given.Some? && r.Success? ==> r.value == given.value
    ensures r.Success? ==> 1 <= r.value <= 500
    ensures r.Failure? ==> r.error == OutOfRange("max_results", given.value)
  {
    match given
    case None => Success(10)
    case Some(n) => if 1 <= n <= 500 then Success(n) else Failure(OutOfRange("max_results", n))
  }

  function NewSearchEmailsRequest(
    query: string, maxResults: Option<int>, pageToken: Option<string>, includeSpamTrash: Option<bool>)
    : (r: Result<SearchEmailsRequest, ValidationError>)
    ensures r.Success? <==> ValidateMaxResults(maxResults).Success?
    ensures r.Success? ==> 1 <= r.value.maxResults <= 500 && r.value.query == query
    ensures r.Success? ==> r.value.maxResults == maxResults.GetOr(10) && r.value.pageToken == pageToken
    ensures r.Success? ==> r.value.includeSpamTrash == includeSpamTrash.GetOr(false)
    ensures r.Failure? ==> r.error == OutOfRange("max_results", maxResults.value)
  {
    match ValidateMaxResults(maxResults)
    case Failure(e) => Failure(e)
    case Success(n) => Success(SearchEmailsRequest(query, n, pageToken, includeSpamTrash.GetOr(false)))
  }

  function NewEmailListRequest(
    labelIds: Option<seq<string>>, q: Option<string>, maxResults: Option<int>,
    pageToken: Option<string>, includeSpamTrash: Option<bool>)
    : (r: Result<EmailListRequest, ValidationError>)
    ensures r.Success? <==> ValidateMaxResults(maxResults).Success?
    ensures r.Success? ==> 1 <= r.value.maxResults <= 500
    ensures maxResults.None? ==> r.Success? && r.value.maxResults == 10
    ensures r.Success? ==> r.value.maxResults == maxResults.GetOr(10)
    ensures r.Success? ==> r.value.labelIds == labelIds && r.value.q == q && r.value.pageToken == pageToken
    ensures r.Success? ==> r.value.includeSpamTrash == includeSpamTrash.GetOr(false)
    ensures r.Failure? ==> r.error == OutOfRange("max_results", maxResults.value)
  {
    match ValidateMaxResults(maxResults)
    case Failure(e) => Failure(e)
    case Success(n) => Success(EmailListRequest(labelIds, q, n, pageToken, includeSpamTrash.GetOr(false)))
  }

  function NewThreadListRequest(
    labelIds: Option<seq<string>>, q: Option<string>, maxResults: Option<int>,
    pageToken: Option<string>, includeSpamTrash: Option<bool>)
    : (r: Result<ThreadListRequest, ValidationError>)
    ensures r.Success? <==> ValidateMaxResults(maxResults).Success?
    ensures r.Success? ==> 1 <= r.value.maxResults <= 500
    ensures maxResults.None? ==> r.Success? && r.value.maxResults == 10
    ensures r.Success? ==> r.value.maxResults == maxResults.GetOr(10)
    ensures r.Success? ==> r.value.labelIds == labelIds && r.value.q == q && r.value.pageToken == pageToken
    ensures r.Success? ==> r.value.includeSpamTrash == includeSpamTrash.GetOr(false)
    ensures r.Failure? ==> r.error == OutOfRange("max_results", maxResults.value)
  {
    match ValidateMaxResults(maxResults)
    case Failure(e) => Failure(e)
    case Success(n) => Success(ThreadListRequest(labelIds, q, n, pageToken, includeSpamTrash.GetOr(false)))
  }

  /** Label visibilities default to "show" and "labelShow". */
  function NewCreateLabelRequest(name: string, messageListVisibility: Option<string>, labelListVisibility: Option<string>)
    : (r: CreateLabelRequest)
    ensures r.name == name
    ensures messageListVisibility.None? ==> r.messageListVisibility == "show"
    ensures labelListVisibility.None? ==> r.labelListVisibility == "labelShow"
    ensures messageListVisibility.Some? ==> r.messageListVisibility == messageListVisibility.value
    ensures labelListVisibility.Some? ==> r.labelListVisibility == labelListVisibility.value
  {
    CreateLabelRequest(name, messageListVisibility.GetOr("show"), labelListVisibility.GetOr("labelShow"))
  }
}
