/**
 * The request objects the mail service hands to the store besides the
 * MIME messages: list and search queries, the label-modification body, the
 * label-creation object, the fetch-and-parse loop of the listings, and the
 * attachment record built from the store's answer.
 */
module StoreRequests {
  import opened Wrappers
  import opened Strings
  import opened Models
  import opened Payload
  import opened Projection

  // ----- the optional keys of request bodies -----

  /** A list-valued key that is set only when the list is truthy. */
  function KeepList(xs: Option<seq<string>>): (r: Option<seq<string>>)
    ensures r.Some? <==> TruthyList(xs)
    ensures r.Some? ==> r == xs && r.value != []
  {
    if TruthyList(xs) then xs else None
  }

  /** A string-valued key that is set only when the string is truthy. */
  function KeepText(s: Option<string>): (r: Option<string>)
    ensures r.Some? <==> Truthy(s)
    ensures r.Some? ==> r == s && r.value != ""
  {
    if Truthy(s) then s else None
  }

  // ----- label modification -----

  /** The modify body: `addLabelIds` and `removeLabelIds`, each present only when non-empty. */
  datatype ModifyBody = ModifyBody(addLabelIds: Option<seq<string>>, removeLabelIds: Option<seq<string>>)

  function ModifyBodyOf(req: ModifyLabelsRequest): (r: ModifyBody)
    ensures r.addLabelIds.Some? <==> TruthyList(req.addLabelIds)
    ensures r.removeLabelIds.Some? <==> TruthyList(req.removeLabelIds)
    ensures r.addLabelIds.Some? ==> r.addLabelIds == req.addLabelIds
    ensures r.removeLabelIds.Some? ==> r.removeLabelIds == req.removeLabelIds
  {
    ModifyBody(KeepList(req.addLabelIds), KeepList(req.removeLabelIds))
  }

  /**
   * An empty list and a missing list give the same body, no key of the body
   * is ever an empty list, and building the body again from a body changes
   * nothing.
   */
  lemma ModifyBodyNormalised(add: Option<seq<string>>, remove: Option<seq<string>>)
    ensures ModifyBodyOf(ModifyLabelsRequest(Some([]), remove)) == ModifyBodyOf(ModifyLabelsRequest(None, remove))
    ensures ModifyBodyOf(ModifyLabelsRequest(add, Some([]))) == ModifyBodyOf(ModifyLabelsRequest(add, None))
    ensures var b := ModifyBodyOf(ModifyLabelsRequest(add, remove));
      b.addLabelIds != Some([]) && b.removeLabelIds != Some([]) &&
      ModifyBodyOf(ModifyLabelsRequest(b.addLabelIds, b.removeLabelIds)) == b
  {
  }

  // ----- label creation -----

  /** The label object sent to the store: name and both visibilities. */
  datatype LabelObject = LabelObject(name: string, messageListVisibility: string, labelListVisibility: string)

  function LabelObjectOf(req: CreateLabelRequest): (r: LabelObject)
    ensures r.name == req.name
    ensures r.messageListVisibility == req.messageListVisibility
    ensures r.labelListVisibility == req.labelListVisibility
  {
    LabelObject(req.name, req.messageListVisibility, req.labelListVisibility)
  }

  /** A label created without visibilities is shown in the message list and in the label list. */
  lemma DefaultLabelObject(name: string)
    ensures LabelObjectOf(NewCreateLabelRequest(name, None, None)) == LabelObject(name, "show", "labelShow")
    ensures LabelObjectOf(NewCreateLabelRequest(name, Some("show"), Some("labelShow"))) ==
      LabelObjectOf(NewCreateLabelRequest(name, None, None))
  {
  }

  // ----- list, search and thread queries -----

  /**
   * The query parameters of a listing (the user is always "me"): the page
   * size and spam flag always; labels, query text and page token only when
   * truthy.
   */
  datatype Query = Query(
    maxResults: int, includeSpamTrash: bool,
    labelIds: Option<seq<string>>, q: Option<string>, pageToken: Option<string>)

  function FilteredQuery(
    labelIds: Option<seq<string>>, q: Option<string>, maxResults: int,
    pageToken: Option<string>, includeSpamTrash: bool): (r: Query)
    ensures r.maxResults == maxResults && r.includeSpamTrash == includeSpamTrash
    ensures r.labelIds.Some? <==> TruthyList(labelIds)
    ensures r.q.Some? <==> Truthy(q)
    ensures r.pageToken.Some? <==> Truthy(pageToken)
    ensures r.labelIds.Some? ==> r.labelIds == labelIds
    ensures r.q.Some? ==> r.q == q
    ensures r.pageToken.Some? ==> r.pageToken == pageToken
  {
    Query(maxResults, includeSpamTrash, KeepList(labelIds), KeepText(q), KeepText(pageToken))
  }

  function ListQuery(req: EmailListRequest): Query {
    FilteredQuery(req.labelIds, req.q, req.maxResults, req.pageToken, req.includeSpamTrash)
  }

  function ThreadQuery(req: ThreadListRequest): Query {
    FilteredQuery(req.labelIds, req.q, req.maxResults, req.pageToken, req.includeSpamTrash)
  }

  /** A search always sends its query text, even an empty one, and never labels. */
  function SearchQuery(req: SearchEmailsRequest): (r: Query)
    ensures r.q == Some(req.query) && r.labelIds.None?
    ensures r.maxResults == req.maxResults && r.includeSpamTrash == req.includeSpamTrash
    ensures r.pageToken.Some? <==> Truthy(req.pageToken)
  {
    Query(req.maxResults, req.includeSpamTrash, None, Some(req.query), KeepText(req.pageToken))
  }

  /**
   * Every query built from a validated request asks for between 1 and 500
   * results, and a request with only defaults asks for 10, with no filter.
   */
  lemma QueryBounds(
    labelIds: Option<seq<string>>, q: Option<string>, maxResults: Option<int>,
    pageToken: Option<string>, includeSpamTrash: Option<bool>, query: string)
    ensures var r := NewEmailListRequest(labelIds, q, maxResults, pageToken, includeSpamTrash);
      r.Success? ==> 1 <= ListQuery(r.value).maxResults <= 500
    ensures var r := NewThreadListRequest(labelIds, q, maxResults, pageToken, includeSpamTrash);
      r.Success? ==> 1 <= ThreadQuery(r.value).maxResults <= 500
    ensures var r := NewSearchEmailsRequest(query, maxResults, pageToken, includeSpamTrash);
      r.Success? ==> 1 <= SearchQuery(r.value).maxResults <= 500
    ensures var r := NewEmailListRequest(None, None, None, None, None);
      r.Success? && ListQuery(r.value) == Query(10, false, None, None, None)
  {
  }

  // ----- fetching the listed messages -----

  /** The store's message lookup: a message id and a store format give the record. */
  type Store = (string, string) -> StoreRecord

  /** `get_message`: the record fetched under the store's format, parsed at the requested level. */
  function GetMessage(id: string, format: string, store: Store, decode: Decoder): (r: Result<Message, ParseError>)
    ensures r.Success? ==> store(id, ApiFormat(format)).id == Some(r.value.id)
  {
    ParseMessage(store(id, ApiFormat(format)), format, decode)
  }

  /**
   * The messages of a listing, fetched one by one in listing order; the
   * first record that cannot be parsed ends the listing with its error.
   */
  function FetchedMessages(ids: seq<string>, format: string, store: Store, decode: Decoder)
    : Result<seq<Message>, ParseError>
    decreases |ids|
  {
    if ids == [] then Success([])
    else
      match FetchedMessages(ids[..|ids| - 1], format, store, decode)
      case Failure(e) => Failure(e)
      case Success(ms) =>
        match GetMessage(ids[|ids| - 1], format, store, decode)
        case Failure(e) => Failure(e)
        case Success(m) => Success(ms + [m])
  }

  /** The loop of `list_messages` and `search_messages` over the listed ids. */
  method ListMessages(ids: seq<string>, format: string, store: Store, decode: Decoder)
    returns (r: Result<seq<Message>, ParseError>)
    ensures r == FetchedMessages(ids, format, store, decode)
  {
    var messages: seq<Message> := [];
    var i := 0;
    while i < |ids|
      invariant 0 <= i <= |ids|
      invariant FetchedMessages(ids[..i], format, store, decode) == Success(messages)
    {
      assert ids[..i + 1][..i] == ids[..i];
      var m := GetMessage(ids[i], format, store, decode);
      if m.Failure? {
        r := Failure(m.error);
        FetchedPrefixFails(ids, i + 1, format, store, decode);
        return;
      }
      messages := messages + [m.value];
      i := i + 1;
    }
    assert ids[..i] == ids;
    r := Success(messages);
  }

  /** Once a prefix of the listing fails, the whole listing fails with the same error. */
  lemma {:induction false} FetchedPrefixFails(ids: seq<string>, k: nat, format: string, store: Store, decode: Decoder)
    requires k <= |ids|
    requires FetchedMessages(ids[..k], format, store, decode).Failure?
    ensures FetchedMessages(ids, format, store, decode) == FetchedMessages(ids[..k], format, store, decode)
    decreases |ids| - k
  {
    if k < |ids| {
      assert ids[..k + 1][..k] == ids[..k];
      FetchedPrefixFails(ids, k + 1, format, store, decode);
    } else {
      assert ids[..k] == ids;
    }
  }

  /** A listing succeeds exactly when every listed record parses. */
  lemma {:induction false} FetchedMessagesSucceed(ids: seq<string>, format: string, store: Store, decode: Decoder)
    ensures FetchedMessages(ids, format, store, decode).Success? <==>
      forall i :: 0 <= i < |ids| ==> GetMessage(ids[i], format, store, decode).Success?
    decreases |ids|
  {
    if ids != [] {
      var init := ids[..|ids| - 1];
      FetchedMessagesSucceed(init, format, store, decode);
      assert forall i :: 0 <= i < |init| ==> init[i] == ids[i];
    }
  }

  /**
   * A successful listing holds one message per id, in order, each the parse
   * of the record the store returns for that id under the store's format,
   * which is never "compact".
   */
  lemma {:induction false} FetchedMessagesContents(ids: seq<string>, format: string, store: Store, decode: Decoder)
    requires FetchedMessages(ids, format, store, decode).Success?
    ensures var ms := FetchedMessages(ids, format, store, decode).value;
      |ms| == |ids| &&
      forall i :: 0 <= i < |ids| ==>
        GetMessage(ids[i], format, store, decode) == Success(ms[i]) &&
        ms[i] == ParseMessage(store(ids[i], ApiFormat(format)), format, decode).value
    ensures ApiFormat(format) != "compact"
    decreases |ids|
  {
    if ids != [] {
      var init := ids[..|ids| - 1];
      var p := FetchedMessages(init, format, store, decode);
      var g := GetMessage(ids[|ids| - 1], format, store, decode);
      assert p.Success? && g.Success?;
      FetchedMessagesContents(init, format, store, decode);
      var ms := p.value + [g.value];
      assert FetchedMessages(ids, format, store, decode).value == ms;
      forall i | 0 <= i < |ids|
        ensures GetMessage(ids[i], format, store, decode) == Success(ms[i])
      {
        if i < |init| {
          assert ids[i] == init[i];
        }
      }
    }
  }

  // ----- attachments -----

  /** The store's answer for one attachment: optional size and data. */
  datatype StoreAttachment = StoreAttachment(size: Option<int>, data: Option<string>)

  /** The attachment record of `get_attachment`: the requested id, the size or 0, and the data. */
  function AttachmentOf(attachmentId: string, a: StoreAttachment): (r: AttachmentData)
    ensures r.attachmentId == attachmentId && r.data == a.data
    ensures a.size.Some? ==> r.size == a.size.value
    ensures a.size.None? ==> r.size == 0
  {
    AttachmentData(attachmentId, a.size.GetOr(0), a.data)
  }
}
