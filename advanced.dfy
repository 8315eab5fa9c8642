/**
 * The advanced tools: the label request of moving a message to a folder,
 * the body precondition of creating a draft, and the two ways of answering
 * an attachment request.
 */
module Advanced {
  import opened Wrappers
  import opened Strings
  import opened Models
  import opened StoreRequests
  import Management

  // ----- moving to a folder -----

  /**
   * The labels a move changes: the folder is always added; INBOX is removed
   * when asked for and the folder is not INBOX itself; with nothing to
   * remove the removal list is left out rather than sent empty.
   */
  function MoveLabels(folder: string, removeInbox: bool): ModifyLabelsRequest {
    ModifyLabelsRequest(
      Some([folder]),
      if removeInbox && folder != "INBOX" then Some(["INBOX"]) else None)
  }

  /** `move_to_folder`: the two lists built by appending, as the source does. */
  method MoveToFolder(folder: string, removeInbox: bool) returns (req: ModifyLabelsRequest)
    ensures req == MoveLabels(folder, removeInbox)
  {
    var addLabels := [folder];
    var removeLabels: seq<string> := [];
    if removeInbox && folder !in ["INBOX"] {
      removeLabels := removeLabels + ["INBOX"];
      assert removeLabels == ["INBOX"];
    }
    assert folder in ["INBOX"] <==> folder == "INBOX";
    req := ModifyLabelsRequest(Some(addLabels), if removeLabels != [] then Some(removeLabels) else None);
  }

  /**
   * A move always adds exactly the folder, removes INBOX exactly when asked
   * to and the folder is another one, never removes anything else, and never
   * removes the label it adds; the store receives these lists unchanged.
   */
  lemma MoveLabelsRule(folder: string, removeInbox: bool)
    ensures var r := MoveLabels(folder, removeInbox);
      r.addLabelIds == Some([folder]) &&
      (r.removeLabelIds.Some? <==> removeInbox && folder != "INBOX") &&
      (r.removeLabelIds.Some? ==> r.removeLabelIds.value == ["INBOX"]) &&
      r.removeLabelIds != Some([])
    ensures var r := MoveLabels(folder, removeInbox);
      r.removeLabelIds.Some? ==> folder !in r.removeLabelIds.value
    ensures ModifyBodyOf(MoveLabels(folder, removeInbox)) ==
      ModifyBody(MoveLabels(folder, removeInbox).addLabelIds, MoveLabels(folder, removeInbox).removeLabelIds)
  {
  }

  /** Moving to INBOX only adds INBOX, whatever `remove_inbox` says. */
  lemma MoveToInbox(removeInbox: bool)
    ensures MoveLabels("INBOX", removeInbox) == ModifyLabelsRequest(Some(["INBOX"]), None)
    ensures MoveLabels("INBOX", removeInbox) == MoveLabels("INBOX", false)
  {
  }

  // ----- drafts -----

  /** `create_draft` before the service call: the same body check as sending. */
  function CreateDraftStep(
    to: seq<string>, subject: string, bodyText: Option<string>, bodyHtml: Option<string>,
    cc: Option<seq<string>>, bcc: Option<seq<string>>, threadId: Option<string>, inReplyTo: Option<string>)
    : (r: Management.Step<CreateDraftRequest>)
    ensures r.Rejected? <==> !Management.HasBody(bodyText, bodyHtml)
    ensures r.Rejected? ==> r.reply == Management.MissingBody
    ensures r.Proceed? ==>
      r.request == CreateDraftRequest(to, cc, bcc, subject, bodyText, bodyHtml, threadId, inReplyTo)
  {
    if !Management.HasBody(bodyText, bodyHtml) then Management.Rejected(Management.MissingBody)
    else Management.Proceed(CreateDraftRequest(to, cc, bcc, subject, bodyText, bodyHtml, threadId, inReplyTo))
  }

  /** A draft is refused exactly when sending the same bodies is refused, with the same answer. */
  lemma DraftAndSendAgree(
    to: seq<string>, subject: string, bodyText: Option<string>, bodyHtml: Option<string>,
    cc: Option<seq<string>>, bcc: Option<seq<string>>)
    ensures CreateDraftStep(to, subject, bodyText, bodyHtml, cc, bcc, None, None).Rejected? <==>
      Management.SendEmailStep(to, subject, bodyText, bodyHtml, cc, bcc, None).Rejected?
    ensures CreateDraftStep(to, subject, bodyText, bodyHtml, cc, bcc, None, None).Rejected? ==>
      CreateDraftStep(to, subject, bodyText, bodyHtml, cc, bcc, None, None).reply ==
      Management.SendEmailStep(to, subject, bodyText, bodyHtml, cc, bcc, None).reply
  {
  }

  // ----- attachments -----

  /** The two successful answers of `get_attachments`. */
  datatype AttachmentsReply =
    | OneAttachment(attachment: AttachmentData)
    | AttachmentList(messageId: string, attachments: seq<AttachmentData>, count: int)

  /**
   * `get_attachments`: with a truthy attachment id, that attachment is
   * fetched; otherwise the message is fetched (at the full level) and its
   * attachment descriptors are listed with their number. `fetchAttachment`
   * and `fetchMessage` stand for the service calls, a failure carrying the
   * error text.
   */
  function GetAttachments(
    messageId: string, attachmentId: Option<string>,
    fetchAttachment: (string, string) -> Result<StoreAttachment, string>,
    fetchMessage: string -> Result<Message, string>)
    : (r: Result<AttachmentsReply, Management.ErrorReply>)
    ensures Truthy(attachmentId) ==>
      (r.Success? <==> fetchAttachment(messageId, attachmentId.value).Success?)
    ensures !Truthy(attachmentId) ==> (r.Success? <==> fetchMessage(messageId).Success?)
    ensures r.Success? && Truthy(attachmentId) ==>
      r.value == OneAttachment(AttachmentOf(attachmentId.value, fetchAttachment(messageId, attachmentId.value).value))
    ensures r.Success? && !Truthy(attachmentId) ==>
      r.value.AttachmentList? && r.value.messageId == messageId &&
      r.value.attachments == fetchMessage(messageId).value.attachments &&
      r.value.count == |r.value.attachments|
    ensures r.Failure? ==> r.error.ErrorPayload? && r.error.success == Some(false)
  {
    if Truthy(attachmentId) then
      match fetchAttachment(messageId, attachmentId.value)
      case Failure(e) => Failure(Management.FailureReply(Management.GetAttachments, e))
      case Success(a) => Success(OneAttachment(AttachmentOf(attachmentId.value, a)))
    else
      match fetchMessage(messageId)
      case Failure(e) => Failure(Management.FailureReply(Management.GetAttachments, e))
      case Success(m) => Success(AttachmentList(messageId, m.attachments, |m.attachments|))
  }

  /** An empty attachment id is not an attachment id: the message's attachments are listed instead. */
  lemma EmptyAttachmentIdLists(
    messageId: string,
    fetchAttachment: (string, string) -> Result<StoreAttachment, string>,
    fetchMessage: string -> Result<Message, string>)
    ensures GetAttachments(messageId, Some(""), fetchAttachment, fetchMessage) ==
      GetAttachments(messageId, None, fetchAttachment, fetchMessage)
  {
  }
}
