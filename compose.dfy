/**
 * The outbound MIME tree of send, draft and forward, built the way the
 * email library's constructors and header assignment build it, and the
 * request bodies that carry it to the store.
 */
module Compose {
  import opened Wrappers
  import opened Strings
  import opened Models

  type Bytes = seq<bv8>

  /** The header names this code ever sets on an outbound message. */
  datatype FieldName =
    | ContentType | MimeVersion | TransferEncoding | Disposition
    | To | Cc | Bcc | Subject | InReplyTo | References

  /** The name as it appears on the wire. */
  function FieldText(f: FieldName): string {
    match f
    case ContentType => "Content-Type"
    case MimeVersion => "MIME-Version"
    case TransferEncoding => "Content-Transfer-Encoding"
    case Disposition => "Content-Disposition"
    case To => "To"
    case Cc => "Cc"
    case Bcc => "Bcc"
    case Subject => "Subject"
    case InReplyTo => "In-Reply-To"
    case References => "References"
  }

  datatype Header = Header(name: FieldName, value: string)

  /**
   * A MIME entity with its header list in insertion order. Assigning a
   * header appends to that list; it never replaces an earlier one.
   */
  datatype Mime =
    | Text(subtype: string, content: string, headers: seq<Header>)
    | Multipart(subtype: string, parts: seq<Mime>, headers: seq<Header>)
    | Octet(payload: Bytes, headers: seq<Header>)

  // ----- what the library constructors put in place -----

  predicate IsAscii(s: string) {
    forall i :: 0 <= i < |s| ==> s[i] as int < 128
  }

  /**
   * `MIMEText(text, subtype)`: us-ascii with a 7bit transfer encoding when
   * every character is below 128, otherwise utf-8 with base64.
   */
  function NewText(text: string, subtype: string): (m: Mime)
    ensures m.Text? && m.content == text && m.subtype == subtype
    ensures |m.headers| == 3 && m.headers[0].name == ContentType
  {
    var ascii := IsAscii(text);
    var charset := if ascii then "us-ascii" else "utf-8";
    Text(subtype, text, [
      Header(ContentType, "text/" + subtype + "; charset=\"" + charset + "\""),
      Header(MimeVersion, "1.0"),
      Header(TransferEncoding, if ascii then "7bit" else "base64")])
  }

  function MultipartHeaders(subtype: string): seq<Header> {
    [Header(ContentType, "multipart/" + subtype), Header(MimeVersion, "1.0")]
  }

  /** `MIMEMultipart(subtype)`: no children yet. */
  function NewMultipart(subtype: string): Mime {
    Multipart(subtype, [], MultipartHeaders(subtype))
  }

  /** `msg[name] = value`. */
  function WithHeader(m: Mime, name: FieldName, value: string): (r: Mime)
    ensures r.headers == m.headers + [Header(name, value)]
  {
    m.(headers := m.headers + [Header(name, value)])
  }

  /** Several header assignments in a row. */
  function AppendHeaders(m: Mime, hs: seq<Header>): (r: Mime)
    ensures r.headers == m.headers + hs
  {
    m.(headers := m.headers + hs)
  }

  /** `msg.attach(child)`. */
  function Attach(m: Mime, child: Mime): (r: Mime)
    requires m.Multipart?
    ensures r.Multipart? && r.parts == m.parts + [child] && r.headers == m.headers && r.subtype == m.subtype
  {
    m.(parts := m.parts + [child])
  }

  /**
   * The octet-stream part made for a file: base64 transfer encoding and an
   * `attachment; filename= <basename>` disposition.
   */
  function AttachmentPart(path: string, content: Bytes): Mime {
    Octet(content, [
      Header(ContentType, "application/octet-stream"),
      Header(MimeVersion, "1.0"),
      Header(TransferEncoding, "base64"),
      Header(Disposition, "attachment; filename= " + Basename(path))])
  }

  /** The values of the headers named `name`, in order. */
  function HeaderValues(hs: seq<Header>, name: FieldName): seq<string> {
    if hs == [] then []
    else (if hs[0].name == name then [hs[0].value] else []) + HeaderValues(hs[1..], name)
  }

  lemma HeaderValuesCons(h: Header, rest: seq<Header>, name: FieldName)
    ensures HeaderValues([h] + rest, name) == (if h.name == name then [h.value] else []) + HeaderValues(rest, name)
  {
    assert ([h] + rest)[1..] == rest;
  }

  lemma {:induction false} HeaderValuesAppend(a: seq<Header>, b: seq<Header>, name: FieldName)
    ensures HeaderValues(a + b, name) == HeaderValues(a, name) + HeaderValues(b, name)
  {
    if a == [] {
      assert a + b == b;
    } else {
      assert (a + b)[1..] == a[1..] + b;
      HeaderValuesAppend(a[1..], b, name);
    }
  }

  // ----- the message as specified -----

  /** The addressing fields shared by send, draft and forward. */
  datatype Envelope = Envelope(
    to: seq<string>, cc: Option<seq<string>>, bcc: Option<seq<string>>, subject: string,
    inReplyTo: Option<string>, threadId: Option<string>)

  /**
   * The body: with a truthy html body, a multipart/alternative holding a
   * text/plain part when the plain body is truthy, then the text/html part;
   * otherwise a single text/plain part with the plain body or "".
   */
  function BodyOf(bodyText: Option<string>, bodyHtml: Option<string>): Mime {
    if Truthy(bodyHtml) then
      var alt := NewMultipart("alternative");
      var withPlain := if Truthy(bodyText) then Attach(alt, NewText(bodyText.value, "plain")) else alt;
      Attach(withPlain, NewText(bodyHtml.value, "html"))
    else NewText(bodyText.GetOr(""), "plain")
  }

  /** A header that is set only when `present` holds. */
  function OptHeader(present: bool, name: FieldName, value: string): seq<Header> {
    if present then [Header(name, value)] else []
  }

  /**
   * The headers set after the body: To (joined with ", "), Cc and Bcc when
   * non-empty, Subject, In-Reply-To when given, and References carrying the
   * thread id when given.
   */
  function EnvelopeHeaders(e: Envelope): seq<Header> {
    OptHeader(true, To, Join(e.to, ", ")) +
    OptHeader(TruthyList(e.cc), Cc, if e.cc.Some? then Join(e.cc.value, ", ") else "") +
    OptHeader(TruthyList(e.bcc), Bcc, if e.bcc.Some? then Join(e.bcc.value, ", ") else "") +
    OptHeader(true, Subject, e.subject) +
    OptHeader(Truthy(e.inReplyTo), InReplyTo, e.inReplyTo.GetOr("")) +
    OptHeader(Truthy(e.threadId), References, e.threadId.GetOr(""))
  }

  /** The parts made for the paths that exist, in path order; the others are skipped. */
  function AttachmentParts(paths: seq<string>, files: map<string, Bytes>): seq<Mime> {
    if paths == [] then []
    else
      var last := paths[|paths| - 1];
      AttachmentParts(paths[..|paths| - 1], files) + (if last in files then [AttachmentPart(last, files[last])] else [])
  }

  /** A non-multipart message moved into a new multipart/mixed that also receives a copy of all its headers. */
  function MixedContainer(m: Mime): Mime {
    Multipart("mixed", [m], MultipartHeaders("mixed") + m.headers)
  }

  /** The attachment step: nothing without attachment paths; else the (wrapped) message gains the parts. */
  function WithAttachments(m: Mime, paths: Option<seq<string>>, files: map<string, Bytes>): Mime {
    if !TruthyList(paths) then m
    else
      var container := if m.Multipart? then m else MixedContainer(m);
      container.(parts := container.parts + AttachmentParts(paths.value, files))
  }

  function Addressed(bodyText: Option<string>, bodyHtml: Option<string>, e: Envelope): Mime {
    AppendHeaders(BodyOf(bodyText, bodyHtml), EnvelopeHeaders(e))
  }

  function ComposedMessage(
    bodyText: Option<string>, bodyHtml: Option<string>, e: Envelope,
    attachments: Option<seq<string>>, files: map<string, Bytes>): Mime
  {
    WithAttachments(Addressed(bodyText, bodyHtml, e), attachments, files)
  }

  // ----- the message as the source builds it -----

  /**
   * The MIME construction shared by `send_message` and `create_draft`:
   * the body, then each header assignment, then the attachment step with
   * its header-copy loop and its loop over the paths.
   */
  method ComposeMessage(
    bodyText: Option<string>, bodyHtml: Option<string>, e: Envelope,
    attachments: Option<seq<string>>, files: map<string, Bytes>) returns (msg: Mime)
    ensures msg == ComposedMessage(bodyText, bodyHtml, e, attachments, files)
  {
    if Truthy(bodyHtml) {
      msg := NewMultipart("alternative");
      if Truthy(bodyText) {
        msg := Attach(msg, NewText(bodyText.value, "plain"));
      }
      msg := Attach(msg, NewText(bodyHtml.value, "html"));
    } else {
      msg := NewText(bodyText.GetOr(""), "plain");
    }
    msg := SetEnvelopeHeaders(msg, e);
    if TruthyList(attachments) {
      if !msg.Multipart? {
        msg := WrapInMixed(msg);
      }
      msg := AttachFiles(msg, attachments.value, files);
    }
  }

  /**
   * The header assignments after the body, in source order. Each assignment
   * appends to the header list, so collecting them and appending once gives
   * the same list.
   */
  method SetEnvelopeHeaders(m: Mime, e: Envelope) returns (msg: Mime)
    ensures msg == AppendHeaders(m, EnvelopeHeaders(e))
  {
    ghost var h1 := OptHeader(true, To, Join(e.to, ", "));
    ghost var h2 := OptHeader(TruthyList(e.cc), Cc, if e.cc.Some? then Join(e.cc.value, ", ") else "");
    ghost var h3 := OptHeader(TruthyList(e.bcc), Bcc, if e.bcc.Some? then Join(e.bcc.value, ", ") else "");
    ghost var h4 := OptHeader(true, Subject, e.subject);
    ghost var h5 := OptHeader(Truthy(e.inReplyTo), InReplyTo, e.inReplyTo.GetOr(""));
    ghost var h6 := OptHeader(Truthy(e.threadId), References, e.threadId.GetOr(""));
    var added := [Header(To, Join(e.to, ", "))];
    if TruthyList(e.cc) {
      added := added + [Header(Cc, Join(e.cc.value, ", "))];
    }
    assert added == h1 + h2;
    if TruthyList(e.bcc) {
      added := added + [Header(Bcc, Join(e.bcc.value, ", "))];
    }
    assert added == h1 + h2 + h3;
    added := added + [Header(Subject, e.subject)];
    assert added == h1 + h2 + h3 + h4;
    if Truthy(e.inReplyTo) {
      added := added + [Header(InReplyTo, e.inReplyTo.value)];
    }
    assert added == h1 + h2 + h3 + h4 + h5;
    if Truthy(e.threadId) {
      added := added + [Header(References, e.threadId.value)];
    }
    msg := AppendHeaders(m, added);
  }

  /** A new multipart/mixed holding `original`, then a copy of each of its headers in order. */
  method WrapInMixed(original: Mime) returns (msg: Mime)
    ensures msg == MixedContainer(original)
  {
    msg := Attach(NewMultipart("mixed"), original);
    var i := 0;
    while i < |original.headers|
      invariant 0 <= i <= |original.headers|
      invariant msg == Multipart("mixed", [original], MultipartHeaders("mixed") + original.headers[..i])
    {
      msg := WithHeader(msg, original.headers[i].name, original.headers[i].value);
      assert original.headers[..i + 1] == original.headers[..i] + [original.headers[i]];
      i := i + 1;
    }
    assert original.headers[..i] == original.headers;
  }

  /** One octet-stream part per existing path, attached in path order. */
  method AttachFiles(m: Mime, paths: seq<string>, files: map<string, Bytes>) returns (msg: Mime)
    requires m.Multipart?
    ensures msg == m.(parts := m.parts + AttachmentParts(paths, files))
  {
    msg := m;
    var j := 0;
    while j < |paths|
      invariant 0 <= j <= |paths|
      invariant msg == m.(parts := m.parts + AttachmentParts(paths[..j], files))
    {
      if paths[j] in files {
        msg := Attach(msg, AttachmentPart(paths[j], files[paths[j]]));
      }
      assert paths[..j + 1][..j] == paths[..j];
      j := j + 1;
    }
    assert paths[..j] == paths;
  }

  // ----- the requests -----

  /** The send body `{"raw": ...}`, with `threadId` only when the thread id is truthy. */
  datatype SendBody = SendBody(raw: string, threadId: Option<string>)

  /** The draft body `{"message": {"raw": ..., "threadId"?: ...}}`. */
  datatype DraftBody = DraftBody(message: SendBody)

  function ThreadField(threadId: Option<string>): (r: Option<string>)
    ensures r.Some? <==> Truthy(threadId)
    ensures r.Some? ==> r == threadId
  {
    if Truthy(threadId) then threadId else None
  }

  /**
   * The subject of a reply or a forward: kept when it already starts with
   * `tag` (`Re:` or `Fwd:`), otherwise the tag, a space and the subject; a
   * missing subject counts as "".
   */
  function TaggedSubject(tag: string, subject: Option<string>): (r: string)
    ensures StartsWith(r, tag)
  {
    var s := subject.GetOr("");
    if StartsWith(s, tag) then s
    else
      assert (tag + " " + s)[..|tag|] == tag;
      tag + " " + s
  }

  /** Tagging a tagged subject changes nothing: prefixes do not stack. */
  lemma TaggedSubjectIdempotent(tag: string, subject: Option<string>)
    ensures TaggedSubject(tag, Some(TaggedSubject(tag, subject))) == TaggedSubject(tag, subject)
  {
  }

  /**
   * A subject is kept unchanged exactly when it already starts with the tag;
   * otherwise the tag and a space go in front, and a missing subject becomes
   * the tag and a space.
   */
  lemma TaggedSubjectRule(tag: string, subject: string)
    ensures TaggedSubject(tag, Some(subject)) == subject <==> StartsWith(subject, tag)
    ensures !StartsWith(subject, tag) ==> TaggedSubject(tag, Some(subject)) == tag + " " + subject
    ensures tag != "" ==> TaggedSubject(tag, None) == tag + " "
  {
    if !StartsWith(subject, tag) {
      assert |tag + " " + subject| > |subject|;
    }
    if tag != "" {
      assert !StartsWith("", tag);
      assert "" + tag + " " == tag + " ";
    }
  }

  function SendEnvelope(req: SendEmailRequest): Envelope {
    Envelope(req.to, req.cc, req.bcc, req.subject, req.inReplyTo, req.threadId)
  }

  function DraftEnvelope(req: CreateDraftRequest): Envelope {
    Envelope(req.to, req.cc, req.bcc, req.subject, req.inReplyTo, req.threadId)
  }

  /**
   * The request `send_message` hands to the store; `encode` stands for the
   * serialisation and base64url encoding of the MIME tree, and `files` for
   * the readable files by path.
   */
  method SendMessage(req: SendEmailRequest, files: map<string, Bytes>, encode: Mime -> string)
    returns (body: SendBody)
    ensures body.raw == encode(ComposedMessage(req.bodyText, req.bodyHtml, SendEnvelope(req), req.attachments, files))
    ensures body.threadId.Some? <==> Truthy(req.threadId)
    ensures body.threadId.Some? ==> body.threadId == req.threadId
  {
    var msg := ComposeMessage(req.bodyText, req.bodyHtml, SendEnvelope(req), req.attachments, files);
    body := SendBody(encode(msg), ThreadField(req.threadId));
  }

  /** The request `create_draft` hands to the store: the same message without attachments, wrapped in `message`. */
  method CreateDraft(req: CreateDraftRequest, encode: Mime -> string) returns (body: DraftBody)
    ensures body.message.raw == encode(ComposedMessage(req.bodyText, req.bodyHtml, DraftEnvelope(req), None, map[]))
    ensures body.message.threadId.Some? <==> Truthy(req.threadId)
    ensures body.message.threadId.Some? ==> body.message.threadId == req.threadId
  {
    var msg := ComposeMessage(req.bodyText, req.bodyHtml, DraftEnvelope(req), None, map[]);
    body := DraftBody(SendBody(encode(msg), ThreadField(req.threadId)));
  }

  // ----- properties of the composed message -----

  /**
   * With a truthy html body: a multipart/alternative whose last child is
   * the text/html part and whose first child is text/plain exactly when the
   * plain body is truthy. Otherwise one text/plain part with `body_text or ""`.
   */
  lemma BodyShape(bodyText: Option<string>, bodyHtml: Option<string>)
    ensures var b := BodyOf(bodyText, bodyHtml);
      Truthy(bodyHtml) ==>
        b.Multipart? && b.subtype == "alternative" &&
        |b.parts| == (if Truthy(bodyText) then 2 else 1) &&
        b.parts[|b.parts| - 1] == NewText(bodyHtml.value, "html") &&
        (b.parts[0].Text? && b.parts[0].subtype == "plain" <==> Truthy(bodyText)) &&
        (Truthy(bodyText) ==> b.parts[0].content == bodyText.value)
    ensures var b := BodyOf(bodyText, bodyHtml);
      !Truthy(bodyHtml) ==> b.Text? && b.subtype == "plain" && b.content == bodyText.GetOr("")
  {
  }

  /** The charset follows the text: us-ascii exactly when every character is below 128. */
  lemma CharsetRule(text: string, subtype: string)
    ensures NewText(text, subtype).headers[0].value ==
      "text/" + subtype + "; charset=\"" + (if IsAscii(text) then "us-ascii" else "utf-8") + "\""
    ensures IsAscii(text) ==> NewText(text, subtype).headers[2] == Header(TransferEncoding, "7bit")
    ensures !IsAscii(text) ==> NewText(text, subtype).headers[2] == Header(TransferEncoding, "base64")
  {
  }

  /** The values an optional header contributes under the name `key`. */
  function OptValue(present: bool, name: FieldName, value: string, key: FieldName): seq<string> {
    if present && name == key then [value] else []
  }

  lemma OptHeaderValues(present: bool, name: FieldName, value: string, key: FieldName)
    ensures HeaderValues(OptHeader(present, name, value), key) == OptValue(present, name, value, key)
  {
    if present {
      HeaderValuesCons(Header(name, value), [], key);
      assert [Header(name, value)] + [] == [Header(name, value)];
    }
  }

  lemma EnvelopeSum(e: Envelope, key: FieldName)
    ensures HeaderValues(EnvelopeHeaders(e), key) ==
      HeaderValues(OptHeader(true, To, Join(e.to, ", ")), key) +
      HeaderValues(OptHeader(TruthyList(e.cc), Cc, if e.cc.Some? then Join(e.cc.value, ", ") else ""), key) +
      HeaderValues(OptHeader(TruthyList(e.bcc), Bcc, if e.bcc.Some? then Join(e.bcc.value, ", ") else ""), key) +
      HeaderValues(OptHeader(true, Subject, e.subject), key) +
      HeaderValues(OptHeader(Truthy(e.inReplyTo), InReplyTo, e.inReplyTo.GetOr("")), key) +
      HeaderValues(OptHeader(Truthy(e.threadId), References, e.threadId.GetOr("")), key)
  {
    HeaderValuesOfSix(OptHeader(true, To, Join(e.to, ", ")),
      OptHeader(TruthyList(e.cc), Cc, if e.cc.Some? then Join(e.cc.value, ", ") else ""),
      OptHeader(TruthyList(e.bcc), Bcc, if e.bcc.Some? then Join(e.bcc.value, ", ") else ""),
      OptHeader(true, Subject, e.subject),
      OptHeader(Truthy(e.inReplyTo), InReplyTo, e.inReplyTo.GetOr("")),
      OptHeader(Truthy(e.threadId), References, e.threadId.GetOr("")), key);
  }

  /** The values of any header name in the envelope headers, header by header. */
  lemma EnvelopeValues(e: Envelope, key: FieldName)
    ensures HeaderValues(EnvelopeHeaders(e), key) ==
      OptValue(true, To, Join(e.to, ", "), key) +
      OptValue(TruthyList(e.cc), Cc, if e.cc.Some? then Join(e.cc.value, ", ") else "", key) +
      OptValue(TruthyList(e.bcc), Bcc, if e.bcc.Some? then Join(e.bcc.value, ", ") else "", key) +
      OptValue(true, Subject, e.subject, key) +
      OptValue(Truthy(e.inReplyTo), InReplyTo, e.inReplyTo.GetOr(""), key) +
      OptValue(Truthy(e.threadId), References, e.threadId.GetOr(""), key)
  {
    EnvelopeSum(e, key);
    OptHeaderValues(true, To, Join(e.to, ", "), key);
    OptHeaderValues(TruthyList(e.cc), Cc, if e.cc.Some? then Join(e.cc.value, ", ") else "", key);
    OptHeaderValues(TruthyList(e.bcc), Bcc, if e.bcc.Some? then Join(e.bcc.value, ", ") else "", key);
    OptHeaderValues(true, Subject, e.subject, key);
    OptHeaderValues(Truthy(e.inReplyTo), InReplyTo, e.inReplyTo.GetOr(""), key);
    OptHeaderValues(Truthy(e.threadId), References, e.threadId.GetOr(""), key);
  }

  lemma HeaderValuesOfSix(h1: seq<Header>, h2: seq<Header>, h3: seq<Header>, h4: seq<Header>, h5: seq<Header>, h6: seq<Header>, key: FieldName)
    ensures HeaderValues(h1 + h2 + h3 + h4 + h5 + h6, key) ==
      HeaderValues(h1, key) + HeaderValues(h2, key) + HeaderValues(h3, key) +
      HeaderValues(h4, key) + HeaderValues(h5, key) + HeaderValues(h6, key)
  {
    HeaderValuesAppend(h1, h2, key);
    HeaderValuesAppend(h1 + h2, h3, key);
    HeaderValuesAppend(h1 + h2 + h3, h4, key);
    HeaderValuesAppend(h1 + h2 + h3 + h4, h5, key);
    HeaderValuesAppend(h1 + h2 + h3 + h4 + h5, h6, key);
  }

  /**
   * The addressing headers, one by one: To is the ", "-join of the
   * recipients; Cc and Bcc appear only when non-empty; In-Reply-To only when
   * given; References carries the thread id exactly when it is given.
   */
  lemma EnvelopeHeaderRules(e: Envelope)
    ensures HeaderValues(EnvelopeHeaders(e), To) == [Join(e.to, ", ")]
    ensures HeaderValues(EnvelopeHeaders(e), Cc) == if TruthyList(e.cc) then [Join(e.cc.value, ", ")] else []
    ensures HeaderValues(EnvelopeHeaders(e), Bcc) == if TruthyList(e.bcc) then [Join(e.bcc.value, ", ")] else []
    ensures HeaderValues(EnvelopeHeaders(e), Subject) == [e.subject]
    ensures HeaderValues(EnvelopeHeaders(e), InReplyTo) == if Truthy(e.inReplyTo) then [e.inReplyTo.value] else []
    ensures HeaderValues(EnvelopeHeaders(e), References) == if Truthy(e.threadId) then [e.threadId.value] else []
  {
    EnvelopeValues(e, To);
    EnvelopeValues(e, Cc);
    EnvelopeValues(e, Bcc);
    EnvelopeValues(e, Subject);
    EnvelopeValues(e, InReplyTo);
    EnvelopeValues(e, References);
  }

  /** Without attachment paths the message is the addressed body itself. */
  lemma NoAttachments(bodyText: Option<string>, bodyHtml: Option<string>, e: Envelope, files: map<string, Bytes>)
    ensures ComposedMessage(bodyText, bodyHtml, e, None, files) == Addressed(bodyText, bodyHtml, e)
    ensures ComposedMessage(bodyText, bodyHtml, e, Some([]), files) == Addressed(bodyText, bodyHtml, e)
  {
  }

  /** A header list with no header of that name has no values for it. */
  lemma {:induction false} NoHeaderValues(hs: seq<Header>, key: FieldName)
    requires forall i :: 0 <= i < |hs| ==> hs[i].name != key
    ensures HeaderValues(hs, key) == []
  {
    if hs != [] {
      NoHeaderValues(hs[1..], key);
    }
  }

  /** The Content-Type values of a text part: its own, once. */
  lemma TextContentType(text: string, subtype: string)
    ensures HeaderValues(NewText(text, subtype).headers, ContentType) == [NewText(text, subtype).headers[0].value]
  {
    var hs := NewText(text, subtype).headers;
    NoHeaderValues(hs[1..], ContentType);
    HeaderValuesCons(hs[0], hs[1..], ContentType);
    assert hs == [hs[0]] + hs[1..];
  }

  /** The Content-Type values of a multipart container: its own, once. */
  lemma MultipartContentType(subtype: string)
    ensures HeaderValues(MultipartHeaders(subtype), ContentType) == ["multipart/" + subtype]
  {
    var hs := MultipartHeaders(subtype);
    NoHeaderValues(hs[1..], ContentType);
    HeaderValuesCons(hs[0], hs[1..], ContentType);
    assert hs == [hs[0]] + hs[1..];
  }

  /**
   * With attachment paths and no html body, the addressed text part becomes
   * the first child of a multipart/mixed, which then carries its own
   * Content-Type and MIME-Version followed by every header of the text part.
   */
  lemma WrappedIntoMixed(bodyText: Option<string>, e: Envelope, paths: seq<string>, files: map<string, Bytes>)
    requires paths != []
    ensures var a := Addressed(bodyText, None, e);
      var m := ComposedMessage(bodyText, None, e, Some(paths), files);
      m.Multipart? && m.subtype == "mixed" && m.parts == [a] + AttachmentParts(paths, files) &&
      m.headers == MultipartHeaders("mixed") + a.headers
  {
  }

  /** The addressed plain part has exactly one Content-Type, its own. */
  lemma AddressedContentType(bodyText: Option<string>, e: Envelope)
    ensures var a := Addressed(bodyText, None, e);
      HeaderValues(a.headers, ContentType) == [a.headers[0].value]
  {
    var t := NewText(bodyText.GetOr(""), "plain");
    var a := Addressed(bodyText, None, e);
    assert a.headers == t.headers + EnvelopeHeaders(e);
    EnvelopeValues(e, ContentType);
    TextContentType(bodyText.GetOr(""), "plain");
    HeaderValuesAppend(t.headers, EnvelopeHeaders(e), ContentType);
  }

  /**
   * The header copy gives the mixed container two Content-Type headers:
   * its own multipart/mixed, then the text part's.
   */
  lemma MixedHasTwoContentTypes(bodyText: Option<string>, e: Envelope, paths: seq<string>, files: map<string, Bytes>)
    requires paths != []
    ensures var a := Addressed(bodyText, None, e);
      var m := ComposedMessage(bodyText, None, e, Some(paths), files);
      HeaderValues(m.headers, ContentType) == ["multipart/mixed", a.headers[0].value]
  {
    var a := Addressed(bodyText, None, e);
    var m := ComposedMessage(bodyText, None, e, Some(paths), files);
    WrappedIntoMixed(bodyText, e, paths, files);
    assert m.headers == MultipartHeaders("mixed") + a.headers;
    AddressedContentType(bodyText, e);
    MultipartContentType("mixed");
    assert "multipart/" + "mixed" == "multipart/mixed";
    HeaderValuesAppend(MultipartHeaders("mixed"), a.headers, ContentType);
    assert ["multipart/mixed"] + [a.headers[0].value] == ["multipart/mixed", a.headers[0].value];
  }

  /** With attachment paths and an html body, the alternative itself gains the parts; it is not wrapped. */
  lemma AlternativeNotWrapped(bodyText: Option<string>, bodyHtml: Option<string>, e: Envelope, paths: seq<string>, files: map<string, Bytes>)
    requires Truthy(bodyHtml) && paths != []
    ensures var a := Addressed(bodyText, bodyHtml, e);
      var m := ComposedMessage(bodyText, bodyHtml, e, Some(paths), files);
      m.Multipart? && m.subtype == "alternative" && m.headers == a.headers &&
      m.parts == a.parts + AttachmentParts(paths, files)
  {
  }

  /** The part an attachment path contributes: its octet-stream part when the file exists, nothing otherwise. */
  function PartFor(p: string, files: map<string, Bytes>): seq<Mime> {
    if p in files then [AttachmentPart(p, files[p])] else []
  }

  /** One part per existing path, each named by the path's basename; missing paths add nothing. */
  lemma {:induction false} AttachmentPartsRules(paths: seq<string>, files: map<string, Bytes>)
    ensures |AttachmentParts(paths, files)| <= |paths|
    ensures (forall p | p in paths :: p !in files) ==> AttachmentParts(paths, files) == []
    ensures forall p | p in paths && p in files :: AttachmentPart(p, files[p]) in AttachmentParts(paths, files)
    ensures forall k :: 0 <= k < |AttachmentParts(paths, files)| ==>
      AttachmentParts(paths, files)[k].Octet? &&
      exists p | p in paths && p in files :: AttachmentParts(paths, files)[k] == AttachmentPart(p, files[p])
  {
    if paths != [] {
      var init := paths[..|paths| - 1];
      AttachmentPartsRules(init, files);
      forall p | p in init ensures p in paths { }
      assert paths == init + [paths[|paths| - 1]];
    }
  }

  /** A path added after the others contributes its part after theirs. */
  lemma AttachmentPartsSnoc(paths: seq<string>, p: string, files: map<string, Bytes>)
    ensures AttachmentParts(paths + [p], files) == AttachmentParts(paths, files) + PartFor(p, files)
  {
    assert (paths + [p])[..|paths|] == paths;
  }

  /** A path placed before the others contributes its part before theirs. */
  lemma {:induction false} AttachmentPartsCons(p: string, paths: seq<string>, files: map<string, Bytes>)
    ensures AttachmentParts([p] + paths, files) == PartFor(p, files) + AttachmentParts(paths, files)
  {
    if paths == [] {
      assert ([p] + paths)[..0] == [];
    } else {
      var init := paths[..|paths| - 1];
      var last := paths[|paths| - 1];
      AttachmentPartsCons(p, init, files);
      assert [p] + paths == ([p] + init) + [last];
      AttachmentPartsSnoc([p] + init, last, files);
      AttachmentPartsSnoc(init, last, files);
      assert paths == init + [last];
    }
  }

  /** When every path exists, the k-th part is the k-th path's: path order is kept. */
  lemma {:induction false} AttachmentPartsInOrder(paths: seq<string>, files: map<string, Bytes>)
    requires forall p | p in paths :: p in files
    ensures |AttachmentParts(paths, files)| == |paths|
    ensures forall k :: 0 <= k < |paths| ==> AttachmentParts(paths, files)[k] == AttachmentPart(paths[k], files[paths[k]])
  {
    if paths != [] {
      var init := paths[..|paths| - 1];
      forall p | p in init ensures p in files {
        assert p in paths;
      }
      AttachmentPartsInOrder(init, files);
    }
  }

  /** The attachment part's disposition names the file by its basename, whatever directory it was in. */
  lemma DispositionRule(path: string, content: Bytes)
    ensures HeaderValues(AttachmentPart(path, content).headers, Disposition) ==
      ["attachment; filename= " + Basename(path)]
    ensures '/' !in Basename(path)
  {
    BasenameIsLastSegment(path);
    var hs := AttachmentPart(path, content).headers;
    OctetHeaderValues(hs[0], hs[1], hs[2], hs[3]);
  }

  lemma OctetHeaderValues(a: Header, b: Header, c: Header, d: Header)
    requires a.name != Disposition && b.name != Disposition && c.name != Disposition && d.name == Disposition
    ensures HeaderValues([a, b, c, d], Disposition) == [d.value]
  {
    var key := Disposition;
    var hs := [a, b, c, d];
    HeaderValuesCons(a, [b, c, d], key);
    HeaderValuesCons(b, [c, d], key);
    HeaderValuesCons(c, [d], key);
    HeaderValuesCons(d, [], key);
    assert hs == [a] + [b, c, d] && [b, c, d] == [b] + [c, d] && [c, d] == [c] + [d] && [d] == [d] + [];
  }

  /**
   * The missing-file case: a plain message whose only attachment path does
   * not exist is still moved into a multipart/mixed, whose only child is
   * the text part; no attachment part is added and nothing fails.
   */
  lemma MissingAttachmentSkipped(files: map<string, Bytes>)
    requires "/missing/file" !in files
    ensures var e := Envelope(["b@x.com"], None, None, "S", None, None);
      var m := ComposedMessage(Some("hi"), None, e, Some(["/missing/file"]), files);
      m.Multipart? && m.subtype == "mixed" && m.parts == [Addressed(Some("hi"), None, e)] &&
      m.parts[0].Text? && m.parts[0].content == "hi"
  {
    var e := Envelope(["b@x.com"], None, None, "S", None, None);
    var paths := ["/missing/file"];
    assert paths[..0] == [];
    assert AttachmentParts(paths, files) == [];
    var a := Addressed(Some("hi"), None, e);
    assert a == AppendHeaders(NewText("hi", "plain"), EnvelopeHeaders(e));
    assert a.Text? && a.content == "hi";
  }

  /**
   * A draft builds the message a send of the same fields without attachments
   * builds, and both request bodies carry the thread id under the same rule.
   */
  lemma SendAndDraftAgree(send: SendEmailRequest, draft: CreateDraftRequest, files: map<string, Bytes>)
    requires send.to == draft.to && send.cc == draft.cc && send.bcc == draft.bcc && send.subject == draft.subject
    requires send.bodyText == draft.bodyText && send.bodyHtml == draft.bodyHtml
    requires send.threadId == draft.threadId && send.inReplyTo == draft.inReplyTo
    requires !TruthyList(send.attachments)
    ensures ComposedMessage(send.bodyText, send.bodyHtml, SendEnvelope(send), send.attachments, files) ==
      ComposedMessage(draft.bodyText, draft.bodyHtml, DraftEnvelope(draft), None, map[])
    ensures ThreadField(send.threadId) == ThreadField(draft.threadId)
  {
  }
}
