# gmail_mcp, modelled in Dafny

A verified model of the core of gmail_mcp: a Model Context Protocol server whose tools read, send and organise Gmail messages for the holder of an OAuth bearer token. The model covers these parts:

- **Reading messages.** How the mail service turns a message record from the Gmail store into a `Message` at one of three levels of detail (minimal, compact, full):
  - header lookup by lower-cased name;
  - the depth-first extraction of plain text, HTML text and attachment descriptors from the payload tree;
  - the mirror of the payload as a tree of `MessagePart`s;
  - the mapping of the caller's "compact" level to the store's "metadata" level;
  - the fetch loop of the listings.
- **Building outbound messages.** The MIME messages and request bodies of `send_message`, `create_draft` and `forward_message`:
  - the body shape and its charset;
  - the order and values of the addressing headers;
  - the multipart/mixed wrapper and its copied headers;
  - the attachment parts;
  - the thread id of the send and draft bodies.
- **Label and query bodies.** The request bodies of label modification, label creation, listing, searching and thread listing.
- **The tool layer.**
  - the "either body_text or body_html" precondition;
  - reply composition;
  - the fixed label requests of mark-as-read, mark-as-unread, archive and move-to-folder;
  - the dispatch of `get_attachments`;
  - the failure answer of each tool.
- **Records and validation.** The request and response records, with their defaults and the `max_results` bounds.
- **Authentication.**
  - the two ways an access token is taken from an `Authorization` header (`extract_bearer_token` and the `get_access_token` dependency);
  - the gmail-scope test of the token validator;
  - the splitting of the scope string;
  - the token records.

Files, one module each:

| file | module | models |
|---|---|---|
| wrappers.dfy | Wrappers | `Option` and `Result` |
| strings.dfy | Strings | the Python string operations the code relies on: truthiness, `str.lower`, `str.split()`, `str.replace`, `os.path.basename`, `", ".join`, f-string rendering of `None` |
| models.dfy | Models | `gmail_mcp/models/__init__.py` |
| headers.dfy | MessageHeaders | `_parse_message_headers` |
| payload.dfy | Payload | `_extract_message_content` (a class whose three accumulators the walk updates in place) and `_extract_message_parts` |
| projection.dfy | Projection | `_parse_message` and the format mapping |
| storerequests.dfy | StoreRequests | query, modify and label bodies; the listing fetch loop; `get_attachment` |
| compose.dfy | Compose | MIME construction for `send_message` and `create_draft` |
| forward.dfy | Forward | `forward_message` |
| management.dfy | Management | `gmail_mcp/tools/management.py`, and the failure answers of every tool |
| advanced.dfy | Advanced | `move_to_folder`, `create_draft` and `get_attachments` in `gmail_mcp/tools/advanced.py` |
| auth.dfy | Auth | `gmail_mcp/auth/__init__.py` |
| dependencies.dfy | Dependencies | `gmail_mcp/dependencies.py` |

How external effects are modelled:

- **The store is a parameter.**
  - For message listings it is a function from `(id, format)` to the returned record.
  - For `get_attachments` it is two fetch functions whose failure carries the error text.
- **Serialisation and decoding are parameters.**
  - `encode: Mime -> string` stands for MIME serialisation followed by base64url.
  - `decode: string -> Option<string>` stands for base64url followed by UTF-8 decoding; `None` means the decoding raises.
  - `showDate` stands for the rendering of a `datetime`.
- **Files are a map.** The files that exist on disk are a map from path to contents.

## Model

| member | source | states |
|---|---|---|
| Models.ParseFormat | gmail_mcp/models/__init__.py:15-20 | A value names a format exactly when it is one of minimal, full, raw or metadata, and the member found carries that value. |
| Models.FormatValuesRoundTrip | gmail_mcp/models/__init__.py:15-20 | Every format is found again from its value, and "compact" is not a format of the enum. |
| Models.SchemaChecks | gmail_mcp/models/__init__.py:30-150 | Records refuse undeclared fields (for example `label_ids` on a search request) and missing required fields: `id` and `thread_id` of a message, `size` of an attachment, `mime_type` of a part. |
| Models.ValidateMaxResults | gmail_mcp/models/__init__.py:148 | `max_results` is accepted exactly when it is absent or within 1..500. An absent value gives 10, an accepted value is kept, and a refused one names the field and the value. |
| Models.NewSearchEmailsRequest | gmail_mcp/models/__init__.py:143-150 | Construction succeeds exactly when `max_results` validates, and a refusal is the range error of `max_results`. On success the query and page token are kept, the page size is the given value or 10 (so within 1..500), and the spam flag defaults to false. |
| Models.NewEmailListRequest | gmail_mcp/models/__init__.py:153-161 | Construction succeeds exactly when `max_results` validates, and a refusal is the range error of `max_results`. On success the label ids, query and page token are kept, the page size is the given value or 10 (so within 1..500), and the spam flag defaults to false. |
| Models.NewThreadListRequest | gmail_mcp/models/__init__.py:205-213 | Same as the list request: label ids, query and page token kept, the page size the given value or 10 within 1..500, the spam flag false by default, and the range error on a refusal. |
| Models.NewCreateLabelRequest | gmail_mcp/models/__init__.py:172-178 | The name is kept. Each visibility is the given value, or "show" and "labelShow" when absent. |
| MessageHeaders.ParsedHeadersAreLastValues | gmail_mcp/services/__init__.py:60-69 | A key is in the header map exactly when some header has that name once lower-cased, and its value is the value of the last such header. |
| MessageHeaders.LastHeaderWins | gmail_mcp/services/__init__.py:69 | After appending a header, its lower-cased name maps to its value. |
| MessageHeaders.SubjectCaseExample | gmail_mcp/services/__init__.py:69 | The headers "Subject: A" then "subject: B" give the single entry `subject -> B`. |
| Payload.NodeContributionRules | gmail_mcp/services/__init__.py:111-123 | The if/elif chain on one node, rule by rule. Only a text node's decode can fail. A text/plain or text/html node with data contributes exactly its decoded text. Any other node contributes no text. A descriptor (with size 0 when the size is absent) is contributed exactly for a node with a truthy filename and an attachmentId. |
| Payload.ContentUnfolds | gmail_mcp/services/__init__.py:109-128 | The content of a tree is the node's own contribution followed by the contents of its sub-parts in list order. Sub-parts are walked whether or not the node matched a rule. |
| Payload.AttachmentCount | gmail_mcp/services/__init__.py:119-126 | A successful extraction holds exactly one descriptor per attachment node of the walk, at any depth. |
| Payload.TextNodeWithFilename | gmail_mcp/services/__init__.py:115-121 | A text/plain node with data is decoded as text even when it has a filename and an attachmentId, and it yields no descriptor. |
| Payload.ContentAccumulator.constructor | gmail_mcp/services/__init__.py:105-107 | The three accumulators start empty. |
| Payload.ContentAccumulator.ExtractOwnBody | gmail_mcp/services/__init__.py:111-123 | Succeeds exactly when the node's contribution decodes. On success it appends that contribution to the accumulators. |
| Payload.ContentAccumulator.ExtractFromPart | gmail_mcp/services/__init__.py:109-127 | The recursive closure succeeds exactly when the subtree's content decodes. On success the accumulators become their old value followed by the pre-order content of the subtree. |
| Payload.ContentAccumulator.ExtractSubParts | gmail_mcp/services/__init__.py:125-127 | The loop over sub-parts succeeds exactly when every sub-tree decodes. On success it appends their contents in list order. |
| Payload.ChildrenContentFails | gmail_mcp/services/__init__.py:125-127 | Once one sub-tree fails to decode, every longer run of sub-trees fails. |
| Payload.ExtractMessageContent | gmail_mcp/services/__init__.py:94-130 | The (plain, html, attachments) triple is the pre-order content of the payload tree, or nothing when a body does not decode. |
| Payload.MirrorShape | gmail_mcp/services/__init__.py:71-92 | The mirror keeps the part id and filename. The MIME type defaults to "", the headers to `[]` and the body to `{}`. A part without sub-parts gets `None` rather than an empty list. Otherwise the k-th sub-part of the mirror is the mirror of the k-th sub-part, at every depth. |
| Payload.MirrorRoundTrip | gmail_mcp/services/__init__.py:71-92 | Every part of the mirror's shape is the mirror of the raw node it stands for. |
| Payload.ExtractMessageParts | gmail_mcp/services/__init__.py:71-92 | The loop that appends sub-part mirrors one by one builds exactly the mirror of the payload. |
| Projection.LevelOf | gmail_mcp/services/__init__.py:162-197 | "minimal" and "compact" select their branches. Every other string takes the full branch. |
| Projection.ApiFormat | gmail_mcp/services/__init__.py:294-296 | The caller's "compact" becomes the store's "metadata". Every other level is passed unchanged. The store is never asked for "compact". |
| Projection.ApiFormatIsNative | gmail_mcp/services/__init__.py:259-262 | Every level the tools accept reaches the store as a member of the format enum. |
| Projection.BaseOf | gmail_mcp/services/__init__.py:146-160 | A missing `id` raises first, then a missing `threadId`. Otherwise the base fields are taken from the record: labels default to [], and the date comes from `internalDate`. |
| Projection.ParseMessage | gmail_mcp/services/__init__.py:132-211 | Missing keys raise as above. Every successful level keeps id, thread id, labels and the date, which fills both `date` and `internal_date`. The minimal level never fails on decoding. |
| Projection.MinimalProjection | gmail_mcp/services/__init__.py:162-175 | The minimal level fails only on a missing key. It leaves payload, raw, subject, sender, recipient, both bodies and attachments empty. |
| Projection.CompactProjection | gmail_mcp/services/__init__.py:177-194 | The compact level takes subject, from and to from the headers and the plain text of the whole tree. It forces html, payload, raw and attachments empty, and fails exactly when the tree does not decode. |
| Projection.CompactWithoutPayload | gmail_mcp/services/__init__.py:179-181 | A record without a payload gives an empty plain text and no header fields. |
| Projection.FullProjection | gmail_mcp/services/__init__.py:196-211 | Every other level carries the extracted text, html and attachments, passes `raw` through, and mirrors the payload. |
| Projection.MonotonicRichness | gmail_mcp/services/__init__.py:162-211 | On one record, compact succeeds exactly when full does, and minimal succeeds whenever either does. Each richer level populates a superset of the fields of the poorer one. Compact agrees with full on every field it fills. |
| Projection.CompactDecodesHtml | gmail_mcp/services/__init__.py:179-181 | The compact level returns no html, yet an html body that does not decode makes it raise. |
| Projection.CompactScenario | gmail_mcp/services/__init__.py:177-194 | A text/plain record with Subject and From headers, at the compact level, gives that subject and sender, the decoded body, and no html or attachments. |
| StoreRequests.KeepList | gmail_mcp/services/__init__.py:248-249 | A list key is sent exactly when the list is truthy, and then unchanged. |
| StoreRequests.KeepText | gmail_mcp/services/__init__.py:250-253 | A text key is sent exactly when the text is truthy, and then unchanged. |
| StoreRequests.ModifyBodyOf | gmail_mcp/services/__init__.py:438-442 | `addLabelIds` and `removeLabelIds` are each present exactly when the request's list is truthy, and then equal to it. |
| StoreRequests.ModifyBodyNormalised | gmail_mcp/services/__init__.py:438-442 | An empty list and a missing list give the same body. No key is ever an empty list. Rebuilding a body from itself changes nothing. |
| StoreRequests.LabelObjectOf | gmail_mcp/services/__init__.py:511-515 | The label object carries the name and both visibilities of the request. |
| StoreRequests.DefaultLabelObject | gmail_mcp/services/__init__.py:511-515 | A label created without visibilities is sent as shown in both the message list and the label list. |
| StoreRequests.FilteredQuery | gmail_mcp/services/__init__.py:242-253 | Page size and spam flag are always sent. Labels, query and page token are sent exactly when truthy, and unchanged. |
| StoreRequests.SearchQuery | gmail_mcp/services/__init__.py:320-328 | A search always sends its query text, even an empty one, and never labels. The page token is sent exactly when truthy. |
| StoreRequests.QueryBounds | gmail_mcp/services/__init__.py:620-631 | Every list, thread and search query built from a validated request asks for 1..500 results. Defaults alone ask for 10, with no filter. |
| StoreRequests.GetMessage | gmail_mcp/services/__init__.py:282-304 | A fetched message has the id of the record the store returned for the mapped format. |
| StoreRequests.ListMessages | gmail_mcp/services/__init__.py:255-271 | The fetch loop returns the listing function: messages in listing order, or the first failure. |
| StoreRequests.FetchedPrefixFails | gmail_mcp/services/__init__.py:258-271 | Once a prefix of the listing fails, the whole listing fails with the same error. |
| StoreRequests.FetchedMessagesSucceed | gmail_mcp/services/__init__.py:258-271 | A listing succeeds exactly when every listed record parses. |
| StoreRequests.FetchedMessagesContents | gmail_mcp/services/__init__.py:258-271 | A successful listing holds one message per id, in order. Each is the parse of the record fetched under the mapped format, and that format is never "compact". |
| StoreRequests.AttachmentOf | gmail_mcp/services/__init__.py:796-800 | The attachment record keeps the requested id and the data. The size is 0 when the store gives none. |
| Compose.NewText | gmail_mcp/services/__init__.py:370-375 | A text part carries the text and subtype, with Content-Type first among its three headers. |
| Compose.WithHeader | gmail_mcp/services/__init__.py:378 | Assigning a header appends it and never replaces an earlier one. |
| Compose.Attach | gmail_mcp/services/__init__.py:371-373 | Attaching appends the child and leaves headers and subtype alone. |
| Compose.HeaderValuesAppend | gmail_mcp/services/__init__.py:378-388 | The values of a header name in two header lists in a row are the values in the first, then those in the second. |
| Compose.ComposeMessage | gmail_mcp/services/__init__.py:366-411 | The MIME construction is the body, then the addressing headers, then the attachment step. |
| Compose.SetEnvelopeHeaders | gmail_mcp/services/__init__.py:378-388 | The six header assignments, in source order, append exactly the envelope headers. |
| Compose.WrapInMixed | gmail_mcp/services/__init__.py:392-399 | The new multipart/mixed holds the original message, then a copy of each of its headers in order. |
| Compose.AttachFiles | gmail_mcp/services/__init__.py:401-411 | The attachment loop appends one part per existing path, in path order, and changes nothing else. |
| Compose.ThreadField | gmail_mcp/services/__init__.py:417-418 | `threadId` is present exactly when the thread id is truthy, and then unchanged. |
| Compose.SendAndDraftAgree | gmail_mcp/services/__init__.py:666-705 | A draft builds the same MIME message as a send of the same fields without attachments, and both bodies carry the thread id under the same rule. |
| Compose.SendMessage | gmail_mcp/services/__init__.py:356-420 | The send body is the encoding of the composed message. It carries the thread id exactly when the thread id is truthy. |
| Compose.CreateDraft | gmail_mcp/services/__init__.py:666-705 | The draft body wraps the encoding of the same message without attachments. It carries the thread id exactly when truthy. |
| Compose.BodyShape | gmail_mcp/services/__init__.py:367-375 | With a truthy html body: an alternative whose last child is the html part, and whose first child is text/plain exactly when the plain body is truthy. Otherwise one text/plain part with `body_text or ""`. |
| Compose.CharsetRule | gmail_mcp/services/__init__.py:370-375 | A text part's Content-Type is `text/<subtype>; charset="us-ascii"` with 7bit encoding exactly when every character is below 128, and `charset="utf-8"` with base64 encoding otherwise. |
| Compose.EnvelopeHeaderRules | gmail_mcp/services/__init__.py:378-388 | To is the ", "-join of the recipients. Cc and Bcc appear exactly when non-empty. Subject appears once. In-Reply-To appears exactly when given. References carries the thread id exactly when given. |
| Compose.NoAttachments | gmail_mcp/services/__init__.py:391 | With no attachment paths, or an empty list of them, the message is the addressed body. |
| Compose.WrappedIntoMixed | gmail_mcp/services/__init__.py:391-399 | With attachment paths and no html body, the text part becomes the first child of a multipart/mixed. That container carries its own headers followed by every header of the text part. |
| Compose.MixedHasTwoContentTypes | gmail_mcp/services/__init__.py:395-399 | The header copy leaves the mixed container with two Content-Type headers: multipart/mixed, then the text part's. |
| Compose.AlternativeNotWrapped | gmail_mcp/services/__init__.py:391-392 | With an html body the alternative itself gains the attachment parts, and it is not wrapped. |
| Compose.AttachmentPartsRules | gmail_mcp/services/__init__.py:401-411 | Missing paths add nothing. Every existing path yields its octet-stream part, there is at most one part per path, and every part is that of an existing path. |
| Compose.AttachmentPartsSnoc | gmail_mcp/services/__init__.py:401-411 | A path listed after the others adds its part (or nothing, when its file is missing) after theirs. |
| Compose.AttachmentPartsCons | gmail_mcp/services/__init__.py:401-411 | A path listed before the others adds its part (or nothing) before theirs. |
| Compose.AttachmentPartsInOrder | gmail_mcp/services/__init__.py:401-411 | When every file exists, there is one part per path and the k-th part is the k-th path's. |
| Compose.DispositionRule | gmail_mcp/services/__init__.py:407-410 | The disposition is `attachment; filename= ` followed by the basename, which holds no '/'. |
| Compose.MissingAttachmentSkipped | gmail_mcp/services/__init__.py:391-411 | A plain message whose only attachment path is missing is still moved into a multipart/mixed whose only child is the text part. |
| Forward.ForwardContent | gmail_mcp/services/__init__.py:548-557 | The `+=` construction yields the caller's message and a blank line (when given), then the marker line, then the From, Date, Subject and To lines, then a blank line. |
| Forward.ForwardBlockShape | gmail_mcp/services/__init__.py:548-557 | The block starts with the caller's message and a blank line when one is given, then the marker, and it ends with a blank line. |
| Compose.TaggedSubjectRule | gmail_mcp/services/__init__.py:590-593 | A subject is kept unchanged exactly when it already starts with the tag (`Fwd:` when forwarding, `Re:` when replying). Otherwise the tag and a space go in front. A missing subject becomes the tag and a space. |
| Compose.TaggedSubjectIdempotent | gmail_mcp/services/__init__.py:590-593 | Forwarding a forward, or replying to a reply, does not stack prefixes. |
| Forward.ForwardMessage | gmail_mcp/services/__init__.py:530-603 | The send body is the encoding of the forwarded message and never carries a thread id. |
| Forward.PlainForward | gmail_mcp/services/__init__.py:569-581 | An original without html gives one text/plain part: the block, then the original's plain body or "". |
| Forward.HtmlForward | gmail_mcp/services/__init__.py:545-568 | An html original gives an alternative of two parts. The first is the plain block and body. The second is the html part: the block with every newline turned into `<br>`, followed by the unchanged html body. |
| Forward.ForwardHeaders | gmail_mcp/services/__init__.py:584-593 | A forward's To is the ", "-join of the recipients and its Subject the `Fwd:` subject; it sets no In-Reply-To and no References. |
| Strings.Lower | gmail_mcp/services/__init__.py:69 | Lower-casing keeps the length and lower-cases each character. |
| Strings.Words | gmail_mcp/auth/__init__.py:101 | Splitting on whitespace gives only non-empty words without spaces. |
| Strings.WordsOfJoin | gmail_mcp/auth/__init__.py:101 | Splitting a space-joined list of words gives the list back. |
| Strings.NewlinesToBr | gmail_mcp/services/__init__.py:564 | The rewritten text has no newline. |
| Strings.NewlinesToBrAppend | gmail_mcp/services/__init__.py:564 | The rewrite distributes over concatenation. |
| Strings.NewlinesToBrNoNewline | gmail_mcp/services/__init__.py:564 | Text without newlines is left unchanged. |
| Strings.BasenameIsLastSegment | gmail_mcp/services/__init__.py:409 | The basename holds no '/', the path ends with it, and whatever precedes it ends in '/'. |
| Strings.RemoveAllAbsent | gmail_mcp/dependencies.py:33 | Removing a pattern that does not occur changes nothing. |
| Management.FailureReply | gmail_mcp/tools/management.py:81-83 | `send_email` raises HTTP 500 with "Failed to send email: " and the detail. `get_threads` and `get_drafts` answer the bare error. Every other tool adds `"success": false`. |
| Management.BodyPreconditionMeaning | gmail_mcp/tools/management.py:56-57 | The body check refuses exactly the messages whose body would be one empty text/plain part. With a body, a multipart's last part is non-empty text. |
| Management.SendEmailStep | gmail_mcp/tools/management.py:56-69 | The tool refuses exactly when neither body is truthy, with the body-required error. Otherwise it passes every argument through, with no thread id and no In-Reply-To. |
| Management.ReplyRecipients | gmail_mcp/tools/management.py:117 | The reply goes to `[sender]` when the sender is truthy, and to nobody otherwise. |
| Compose.TaggedSubject | gmail_mcp/tools/management.py:124-126 | The subject of a reply or forward always starts with its tag. |
| Management.ReplyStep | gmail_mcp/tools/management.py:108-150 | The body check comes before the fetch of the original. A failed fetch is answered with `"success": false`. Otherwise the request goes to the sender with the `Re:` subject, in the original's thread, in reply to the given id, without Cc, Bcc or attachments. |
| Management.ReplyAllIgnored | gmail_mcp/tools/management.py:119-122 | Reply-all produces exactly the plain reply. |
| Management.ReplyHeaders | gmail_mcp/tools/management.py:128-135 | The reply message has To set to the sender (or empty), the `Re:` subject, In-Reply-To set to the replied-to id and References set to the thread id (each when non-empty), and no Cc or Bcc. |
| Management.FixedLabelBodies | gmail_mcp/tools/management.py:171-235 | Mark-as-read removes exactly UNREAD and adds nothing. Mark-as-unread adds exactly UNREAD and removes nothing. Archive removes exactly INBOX and adds nothing. Each is the add or remove request of that one label. |
| Management.AddLabelRequest | gmail_mcp/tools/management.py:300 | Only labels to add are sent; an empty list sends none. |
| Management.RemoveLabelRequest | gmail_mcp/tools/management.py:332 | Only labels to remove are sent; an empty list sends none. |
| Management.CreateLabelStep | gmail_mcp/tools/management.py:350-374 | The tool builds the request record with the same defaults, "show" for the message list. |
| Advanced.MoveToFolder | gmail_mcp/tools/advanced.py:99-108 | The lists built by appending are the move's label request. |
| Advanced.MoveLabelsRule | gmail_mcp/tools/advanced.py:99-108 | A move always adds exactly the folder. It removes INBOX exactly when asked and the folder is another label, and never removes anything else or the label it adds. An empty removal list is never sent. |
| Advanced.MoveToInbox | gmail_mcp/tools/advanced.py:102 | Moving to INBOX only adds INBOX, whatever `remove_inbox` says. |
| Advanced.CreateDraftStep | gmail_mcp/tools/advanced.py:207-221 | The draft tool refuses exactly when neither body is truthy. Otherwise it passes every argument through. |
| Advanced.DraftAndSendAgree | gmail_mcp/tools/advanced.py:207-208 | A draft is refused exactly when sending the same bodies is refused, with the same answer. |
| Advanced.GetAttachments | gmail_mcp/tools/advanced.py:328-353 | With a truthy attachment id, that attachment is fetched and returned. Otherwise the message's attachment descriptors are listed with their number. Either fetch's failure is answered with `"success": false`. |
| Advanced.EmptyAttachmentIdLists | gmail_mcp/tools/advanced.py:328 | An empty attachment id lists the message's attachments. |
| Auth.ExtractBearerToken | gmail_mcp/auth/__init__.py:111-126 | A token is found exactly when the header is non-empty and starts with the case-sensitive `Bearer `, and the header is then the prefix followed by the token. |
| Auth.BearerRoundTrip | gmail_mcp/auth/__init__.py:123-126 | Every token, the empty one included, is found again behind the prefix. |
| Auth.BearerIsCaseSensitive | gmail_mcp/auth/__init__.py:120-124 | `bearer ` in lower case, the bare word `Bearer`, an empty header and a missing header give no token. |
| Auth.GmailScopeAnyCase | gmail_mcp/auth/__init__.py:52 | The scope test accepts exactly the scopes that hold "gmail" in any mixture of cases. |
| Auth.GmailScopeIgnoresCase | gmail_mcp/auth/__init__.py:52 | Lower-casing the scope first does not change the verdict. |
| Auth.Scopes | gmail_mcp/auth/__init__.py:101 | Every scope listed is a non-empty word without spaces. |
| Auth.ScopesRoundTrip | gmail_mcp/auth/__init__.py:101 | The emptiness guard only repeats what splitting does, and a space-joined list of scopes splits back into itself. |
| Auth.GmailScopeNotEmpty | gmail_mcp/auth/__init__.py:52 | A scope that passes the gmail test holds at least one scope. |
| Auth.ValidateToken | gmail_mcp/auth/__init__.py:45-60 | A token is valid exactly when the status is 200 and the scope (or "") mentions gmail in any case. The token info then carries the token, the email (or ""), the scope (or ""), the expiry and type "Bearer". |
| Auth.VerifyToken | gmail_mcp/auth/__init__.py:95-104 | An access token results exactly when validation does. It has the fixed client id "gmail_client", the split scopes, the expiry, and the email as resource. |
| Auth.VerifiedTokensHaveScopes | gmail_mcp/auth/__init__.py:45-104 | Every token the verifier accepts has a gmail scope and at least one scope. |
| Dependencies.GetAccessToken | gmail_mcp/dependencies.py:12-33 | A missing context or request context is 401 "No request context available". A header that is missing, empty or lacks `Bearer ` is 401 "No valid access token provided". Otherwise the result is the header with every `Bearer ` removed. |
| Dependencies.SameHeadersAccepted | gmail_mcp/dependencies.py:30 | The dependency and `extract_bearer_token` accept exactly the same headers. |
| Dependencies.AgreesWithExtractor | gmail_mcp/dependencies.py:33 | When the token holds no `Bearer `, both give the header without its first seven characters. |
| Dependencies.RemoveAllShortens | gmail_mcp/dependencies.py:33 | Removing occurrences never lengthens the text, and it shortens the text whenever there is one. |
| Dependencies.DisagreesWithExtractor | gmail_mcp/dependencies.py:33 | When the token holds `Bearer `, the dependency returns a strictly shorter token than `extract_bearer_token`. |
| Dependencies.DoubledPrefixExample | gmail_mcp/dependencies.py:33 | `Bearer Bearer x` gives `Bearer x` from the extractor and `x` from the dependency. |
| Dependencies.ServiceTokenInfo | gmail_mcp/dependencies.py:45-50 | The service's token info carries the token, an empty email and scope, no expiry and type "Bearer". |
| Dependencies.ServiceTokenHasNoScope | gmail_mcp/dependencies.py:45-50 | That token info would not itself pass the gmail scope test, and it lists no scopes. |

## Left out

- Network calls to the Gmail API and to Google's token-info endpoint are left out. The store is a function parameter, and the token-info answer is passed in as a `TokenResponse`. Exceptions raised by `googleapiclient` are modelled only as the failure text a fetch may return.
- MIME serialisation (`as_bytes`) and base64 encoding or decoding are left out. They are the `encode` and `decode` parameters. Line folding and validation of header values are not modelled.
- `datetime.fromtimestamp` and the `int(...) / 1000` conversion of `internalDate` are left out. The date is kept as the store's epoch milliseconds, already read as an integer, and the rendering of a date in the forward block is the `showDate` parameter.
- Only ASCII letters are lower-cased by `Strings.Lower`. Python's full Unicode case mapping is not modelled.
- A header without a `name` or `value` key raises `KeyError` in `_parse_message_headers`. This is not modelled: a `MessageHeader` always has both.
- Reading files (`os.path.exists`, `open`) is a map from existing paths to their bytes.
- The parsing of list responses is left out: listings start from the sequence of listed ids. So is the hydration of thread, draft and created-label answers into `Thread`, `Draft` and `Label` records.
- `get_profile`, `list_labels`, `delete_message`, `list_drafts`, `send_draft` and `list_threads` are service calls without request logic beyond the queries modelled above. Their response parsing is not modelled.
- Logging, and the human-readable `message` texts and echoed fields of successful tool results, are left out.
- Exceptions raised while building a request (for example a request record refusing an argument) are not distinguished from service failures. The tools catch both alike.
- A scope of JSON `null` in the token-info answer is treated like an absent one (`""`). In Python, `None.lower()` would raise, and the validator's exception handler would turn that into `None`.
- The 401 raised by `get_access_token` happens before any tool body runs. How the framework reports it is not modelled.
- The `ThreadFormat` enum and the response records carry no logic and appear only as data types or not at all.
- Concurrency (`async`) is not modelled. Each call is one sequential step.

## How the model reads the code

- When `get_access_token` strips the prefix, it removes every occurrence of `Bearer `, not only the leading one: `Dependencies.DisagreesWithExtractor` and `Dependencies.DoubledPrefixExample`. `extract_bearer_token` slices off the first seven characters.
- When a message with an html body gets attachments, the multipart/alternative itself receives the attachment parts and is not wrapped (`Compose.AlternativeNotWrapped`). Only a single text part is moved into multipart/mixed.
- The header copy gives the multipart/mixed container a second Content-Type header (`Compose.MixedHasTwoContentTypes`).
- A missing attachment file is skipped silently, yet the message is still moved into multipart/mixed (`Compose.MissingAttachmentSkipped`).
- The compact level returns no html but still decodes every html body, so a bad html body makes it raise (`Projection.CompactDecodesHtml`).
- `reply_all` has no effect on the request (`Management.ReplyAllIgnored`).
