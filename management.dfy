/**
 * The management tools: the body precondition of sending, the composition
 * of a reply from the original message, the fixed label requests of
 * mark-as-read, mark-as-unread and archive, and what each tool answers when
 * the service fails.
 */
module Management {
  import opened Wrappers
  import opened Strings
  import opened Models
  import opened Compose
  import opened StoreRequests

  // ----- what a tool answers on failure -----

  /** The tools whose failures are answered. */
  datatype Tool =
    | SendEmail | ReplyToEmail | MarkAsRead | MarkAsUnread | ArchiveEmail | DeleteEmail
    | AddLabel | RemoveLabel | CreateLabel
    | ForwardEmail | MoveToFolder | GetThreads | CreateDraft | GetDrafts | SendDraft | GetAttachments

  /**
   * A failure answer: an HTTP error raised to the caller, or a JSON object
   * with an `error` text and, for most tools, `"success": false`.
   */
  datatype ErrorReply =
    | HttpError(status: int, detail: string)
    | ErrorPayload(error: string, success: Option<bool>)

  /** `send_email` raises HTTP 500; the listings answer `{"error"}`; every other tool adds `"success": false`. */
  function FailureReply(tool: Tool, detail: string): (r: ErrorReply)
    ensures r.HttpError? <==> tool == SendEmail
    ensures r.HttpError? ==> r.status == 500 && r.detail == "Failed to send email: " + detail
    ensures r.ErrorPayload? ==> r.error == detail
    ensures r.ErrorPayload? ==> (r.success.None? <==> tool == GetThreads || tool == GetDrafts)
    ensures r.ErrorPayload? && r.success.Some? ==> r.success.value == false
  {
    match tool
    case SendEmail => HttpError(500, "Failed to send email: " + detail)
    case GetThreads => ErrorPayload(detail, None)
    case GetDrafts => ErrorPayload(detail, None)
    case _ => ErrorPayload(detail, Some(false))
  }

  // ----- the body precondition -----

  const BodyRequired := "Either body_text or body_html must be provided"

  /** At least one of the bodies is truthy. */
  predicate HasBody(bodyText: Option<string>, bodyHtml: Option<string>) {
    Truthy(bodyText) || Truthy(bodyHtml)
  }

  /** The answer to a call without a body: an error object without a success key. */
  const MissingBody := ErrorPayload(BodyRequired, None)

  /** What a tool does before calling the service: answer an error, or go on with a request. */
  datatype Step<T> = Rejected(reply: ErrorReply) | Proceed(request: T)

  /**
   * The check is exactly the refusal of messages that would be one empty
   * text/plain part: with a body the message carries a non-empty text part
   * (the html part, when there is one, comes last).
   */
  lemma BodyPreconditionMeaning(bodyText: Option<string>, bodyHtml: Option<string>)
    ensures !HasBody(bodyText, bodyHtml) <==>
      (BodyOf(bodyText, bodyHtml).Text? && BodyOf(bodyText, bodyHtml).content == "")
    ensures var b := BodyOf(bodyText, bodyHtml);
      b.Multipart? ==>
        |b.parts| >= 1 && b.parts[|b.parts| - 1].Text? && b.parts[|b.parts| - 1].content != ""
  {
    BodyShape(bodyText, bodyHtml);
  }

  /** `send_email` before the service call. */
  function SendEmailStep(
    to: seq<string>, subject: string, bodyText: Option<string>, bodyHtml: Option<string>,
    cc: Option<seq<string>>, bcc: Option<seq<string>>, attachments: Option<seq<string>>)
    : (r: Step<SendEmailRequest>)
    ensures r.Rejected? <==> !HasBody(bodyText, bodyHtml)
    ensures r.Rejected? ==> r.reply == MissingBody
    ensures r.Proceed? ==>
      r.request.to == to && r.request.subject == subject && r.request.cc == cc && r.request.bcc == bcc &&
      r.request.bodyText == bodyText && r.request.bodyHtml == bodyHtml &&
      r.request.attachments == attachments && r.request.threadId.None? && r.request.inReplyTo.None?
  {
    if !HasBody(bodyText, bodyHtml) then Rejected(MissingBody)
    else Proceed(SendEmailRequest(to, cc, bcc, subject, bodyText, bodyHtml, None, None, attachments))
  }

  // ----- replies -----

  /** The reply goes to the original's sender when it has one, and to nobody otherwise. */
  function ReplyRecipients(sender: Option<string>): (r: seq<string>)
    ensures Truthy(sender) ==> r == [sender.value]
    ensures !Truthy(sender) ==> r == []
  {
    if Truthy(sender) then [sender.value] else []
  }

  /** `Re: ` is put in front unless the subject already starts with `Re:`. */
  function ReplySubject(subject: Option<string>): string {
    TaggedSubject("Re:", subject)
  }

  /**
   * `reply_to_email`: the body check comes before the original is fetched;
   * a failed fetch is answered as a failure; otherwise the reply request
   * goes to the sender in the original's thread, in reply to the given id.
   * `replyAll` has no effect.
   */
  function ReplyStep(
    messageId: string, bodyText: Option<string>, bodyHtml: Option<string>, replyAll: bool,
    original: Result<Message, string>)
    : (r: Step<SendEmailRequest>)
    ensures r.Rejected? <==> !HasBody(bodyText, bodyHtml) || original.Failure?
    ensures !HasBody(bodyText, bodyHtml) ==> r == Rejected(MissingBody)
    ensures HasBody(bodyText, bodyHtml) && original.Failure? ==>
      r == Rejected(FailureReply(ReplyToEmail, original.error))
    ensures r.Proceed? ==>
      var o := original.value;
      r.request.to == ReplyRecipients(o.sender) &&
      r.request.subject == ReplySubject(o.subject) &&
      r.request.threadId == Some(o.threadId) && r.request.inReplyTo == Some(messageId) &&
      r.request.bodyText == bodyText && r.request.bodyHtml == bodyHtml &&
      r.request.cc.None? && r.request.bcc.None? && r.request.attachments.None?
  {
    if !HasBody(bodyText, bodyHtml) then Rejected(MissingBody)
    else
      match original
      case Failure(e) => Rejected(FailureReply(ReplyToEmail, e))
      case Success(o) =>
        Proceed(SendEmailRequest(
          ReplyRecipients(o.sender), None, None, ReplySubject(o.subject),
          bodyText, bodyHtml, Some(o.threadId), Some(messageId), None))
  }

  /** Reply-all asks the service for exactly what a plain reply asks for. */
  lemma ReplyAllIgnored(
    messageId: string, bodyText: Option<string>, bodyHtml: Option<string>, original: Result<Message, string>)
    ensures ReplyStep(messageId, bodyText, bodyHtml, true, original) ==
      ReplyStep(messageId, bodyText, bodyHtml, false, original)
  {
  }

  /**
   * The message a reply sends: addressed to the sender (no To address when
   * there is none), with the `Re:` subject, In-Reply-To carrying the
   * replied-to id and References the original's thread id (each when
   * non-empty), in the original's thread.
   */
  lemma ReplyHeaders(
    messageId: string, bodyText: Option<string>, bodyHtml: Option<string>, replyAll: bool, o: Message)
    requires HasBody(bodyText, bodyHtml)
    ensures var r := ReplyStep(messageId, bodyText, bodyHtml, replyAll, Success(o));
      var hs := EnvelopeHeaders(SendEnvelope(r.request));
      HeaderValues(hs, To) == [if Truthy(o.sender) then o.sender.value else ""] &&
      HeaderValues(hs, Subject) == [ReplySubject(o.subject)] &&
      HeaderValues(hs, InReplyTo) == (if messageId != "" then [messageId] else []) &&
      HeaderValues(hs, References) == (if o.threadId != "" then [o.threadId] else []) &&
      HeaderValues(hs, Cc) == [] && HeaderValues(hs, Bcc) == []
    ensures var r := ReplyStep(messageId, bodyText, bodyHtml, replyAll, Success(o));
      ThreadField(r.request.threadId) == (if o.threadId != "" then Some(o.threadId) else None)
  {
    var r := ReplyStep(messageId, bodyText, bodyHtml, replyAll, Success(o));
    EnvelopeHeaderRules(SendEnvelope(r.request));
    if Truthy(o.sender) {
      assert Join([o.sender.value], ", ") == o.sender.value;
    }
  }

  // ----- fixed label requests -----

  /** `mark_as_read`, `mark_as_unread` and `archive_email`: fixed label changes. */
  const MarkAsReadRequest := ModifyLabelsRequest(None, Some(["UNREAD"]))
  const MarkAsUnreadRequest := ModifyLabelsRequest(Some(["UNREAD"]), None)
  const ArchiveRequest := ModifyLabelsRequest(None, Some(["INBOX"]))

  /**
   * Mark-as-read removes exactly UNREAD and mark-as-unread adds exactly the
   * same label; archive removes exactly INBOX. Each is the add or remove
   * request of that one label.
   */
  lemma FixedLabelBodies()
    ensures ModifyBodyOf(MarkAsReadRequest) == ModifyBody(None, Some(["UNREAD"]))
    ensures ModifyBodyOf(MarkAsUnreadRequest) == ModifyBody(Some(["UNREAD"]), None)
    ensures ModifyBodyOf(ArchiveRequest) == ModifyBody(None, Some(["INBOX"]))
    ensures MarkAsReadRequest == RemoveLabelRequest(["UNREAD"]) && MarkAsUnreadRequest == AddLabelRequest(["UNREAD"])
    ensures ArchiveRequest == RemoveLabelRequest(["INBOX"])
  {
  }

  /**
   * `add_label` and `remove_label` send the given ids on one side only; an
   * empty list sends an empty body.
   */
  function AddLabelRequest(labelIds: seq<string>): (r: ModifyLabelsRequest)
    ensures ModifyBodyOf(r).removeLabelIds.None?
    ensures ModifyBodyOf(r).addLabelIds == if labelIds == [] then None else Some(labelIds)
  {
    ModifyLabelsRequest(Some(labelIds), None)
  }

  function RemoveLabelRequest(labelIds: seq<string>): (r: ModifyLabelsRequest)
    ensures ModifyBodyOf(r).addLabelIds.None?
    ensures ModifyBodyOf(r).removeLabelIds == if labelIds == [] then None else Some(labelIds)
  {
    ModifyLabelsRequest(None, Some(labelIds))
  }

  /** `create_label` passes its arguments, whose defaults are those of the request record. */
  function CreateLabelStep(name: string, messageListVisibility: Option<string>, labelListVisibility: Option<string>)
    : (r: CreateLabelRequest)
    ensures r == NewCreateLabelRequest(name, messageListVisibility, labelListVisibility)
    ensures LabelObjectOf(r).messageListVisibility == messageListVisibility.GetOr("show")
  {
    NewCreateLabelRequest(name, Some(messageListVisibility.GetOr("show")), Some(labelListVisibility.GetOr("labelShow")))
  }
}
