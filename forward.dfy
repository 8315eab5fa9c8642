/**
 * Forwarding: the quoted "Forwarded message" block, the `Fwd:` subject and
 * the message sent in place of the original.
 */
module Forward {
  import opened Wrappers
  import opened Strings
  import opened Models
  import opened Compose

  const ForwardMarker := "---------- Forwarded message ---------"

  /** f-string rendering of the original's date: "None" when absent; `showDate` renders a datetime. */
  function ShowDate(d: Option<Timestamp>, showDate: Timestamp -> string): string {
    match d
    case None => "None"
    case Some(t) => showDate(t)
  }

  /** A line of text and its newline. */
  function Line(s: string): string {
    s + "\n"
  }

  /** The quoted block: the marker line, the original's header lines, and a blank line. */
  function QuotedHeaders(original: Message, showDate: Timestamp -> string): string {
    Line(ForwardMarker) + HeaderLines(original, showDate) + Line("")
  }

  /** The From, Date, Subject and To lines of the original. */
  function HeaderLines(original: Message, showDate: Timestamp -> string): string {
    Line("From: " + Show(original.sender)) +
    Line("Date: " + ShowDate(original.date, showDate)) +
    Line("Subject: " + Show(original.subject)) +
    Line("To: " + Show(original.recipient))
  }

  /** The caller's message and a blank line, when one is given. */
  function Intro(additional: Option<string>): string {
    if Truthy(additional) then additional.value + "\n\n" else ""
  }

  /** The text put in front of the original body. */
  function ForwardBlock(additional: Option<string>, original: Message, showDate: Timestamp -> string): string {
    Intro(additional) + QuotedHeaders(original, showDate)
  }

  /** `forward_content`, built with `+=` as the source does. */
  method ForwardContent(additional: Option<string>, original: Message, showDate: Timestamp -> string)
    returns (content: string)
    ensures content == ForwardBlock(additional, original, showDate)
  {
    content := "";
    if Truthy(additional) {
      content := additional.value + "\n\n";
    }
    ghost var intro := content;
    content := content + (ForwardMarker + "\n");
    content := content + ("From: " + Show(original.sender) + "\n");
    content := content + ("Date: " + ShowDate(original.date, showDate) + "\n");
    content := content + ("Subject: " + Show(original.subject) + "\n");
    content := content + ("To: " + Show(original.recipient) + "\n\n");
    LastLine("To: " + Show(original.recipient));
    Regroup(intro, Line(ForwardMarker), Line("From: " + Show(original.sender)),
      Line("Date: " + ShowDate(original.date, showDate)), Line("Subject: " + Show(original.subject)),
      Line("To: " + Show(original.recipient)), Line(""));
  }

  /** A line ending in a blank line is the line followed by an empty one. */
  lemma LastLine(s: string)
    ensures s + "\n\n" == Line(s) + Line("")
  {
    assert Line("") == "\n";
  }

  lemma Regroup(i: string, a: string, b: string, c: string, d: string, e: string, f: string)
    ensures i + a + b + c + d + (e + f) == i + (a + (b + c + d + e) + f)
  {
  }

  /** `Fwd: ` is put in front unless the subject already starts with `Fwd:`. */
  function FwdSubject(subject: Option<string>): string {
    TaggedSubject("Fwd:", subject)
  }

  /** The addressing of a forward: To, Cc, Bcc and the `Fwd:` subject; no In-Reply-To or References. */
  function ForwardEnvelope(original: Message, req: ForwardEmailRequest): Envelope {
    Envelope(req.to, req.cc, req.bcc, FwdSubject(original.subject), None, None)
  }

  /**
   * The forward's body: with an html original, an alternative of the block
   * and the plain body, then the block with "<br>" for each newline and the
   * html body; otherwise one plain part of the block and the plain body.
   */
  function ForwardBody(original: Message, req: ForwardEmailRequest, showDate: Timestamp -> string): Mime {
    var block := ForwardBlock(req.additionalMessage, original, showDate);
    if Truthy(original.bodyHtml) then
      var alt := NewMultipart("alternative");
      var withPlain := Attach(alt, NewText(block + original.bodyText.GetOr(""), "plain"));
      Attach(withPlain, NewText(NewlinesToBr(block) + original.bodyHtml.value, "html"))
    else NewText(block + original.bodyText.GetOr(""), "plain")
  }

  function ForwardedMessage(original: Message, req: ForwardEmailRequest, showDate: Timestamp -> string): Mime {
    AppendHeaders(ForwardBody(original, req, showDate), EnvelopeHeaders(ForwardEnvelope(original, req)))
  }

  /**
   * `forward_message` once the original has been fetched: the send body
   * carries only the encoded message, never a thread id.
   */
  method ForwardMessage(original: Message, req: ForwardEmailRequest, showDate: Timestamp -> string, encode: Mime -> string)
    returns (body: SendBody)
    ensures body.raw == encode(ForwardedMessage(original, req, showDate))
    ensures body.threadId.None?
  {
    var msg: Mime;
    var forwardContent := ForwardContent(req.additionalMessage, original, showDate);
    if Truthy(original.bodyHtml) {
      msg := NewMultipart("alternative");
      msg := Attach(msg, NewText(forwardContent + original.bodyText.GetOr(""), "plain"));
      msg := Attach(msg, NewText(NewlinesToBr(forwardContent) + original.bodyHtml.value, "html"));
    } else {
      forwardContent := forwardContent + original.bodyText.GetOr("");
      msg := NewText(forwardContent, "plain");
    }
    msg := SetEnvelopeHeaders(msg, ForwardEnvelope(original, req));
    body := SendBody(encode(msg), None);
  }

  // ----- properties -----

  /**
   * The block is the caller's message (if any) and a blank line, then the
   * marker line, and it ends with a blank line.
   */
  lemma ForwardBlockShape(additional: Option<string>, original: Message, showDate: Timestamp -> string)
    ensures var b := ForwardBlock(additional, original, showDate);
      StartsWith(b, Intro(additional)) &&
      StartsWith(b[|Intro(additional)|..], Line(ForwardMarker)) &&
      |b| >= 2 && b[|b| - 2..] == "\n\n"
  {
    var fields := Line("From: " + Show(original.sender)) +
      Line("Date: " + ShowDate(original.date, showDate)) + Line("Subject: " + Show(original.subject));
    SplitBlock(Intro(additional), Line(ForwardMarker), fields, "To: " + Show(original.recipient));
  }

  /** The concatenation `i + (head + (fields + Line(x)) + Line(""))` starts with `i`, then `head`, and ends with two newlines. */
  lemma SplitBlock(i: string, head: string, fields: string, x: string)
    ensures var b := i + (head + (fields + Line(x)) + Line(""));
      StartsWith(b, i) && StartsWith(b[|i|..], head) && |b| >= 2 && b[|b| - 2..] == "\n\n"
  {
    var q := head + (fields + Line(x)) + Line("");
    var b := i + q;
    assert b[..|i|] == i;
    assert b[|i|..] == q;
    assert q[..|head|] == head;
    assert |q| >= 2 && q[|q| - 2] == '\n' && q[|q| - 1] == '\n';
    assert b[|b| - 2..] == [q[|q| - 2], q[|q| - 1]];
  }

  /**
   * A forward of a message without html is one text/plain part: the block
   * followed by the original plain body.
   */
  lemma PlainForward(original: Message, req: ForwardEmailRequest, showDate: Timestamp -> string)
    requires !Truthy(original.bodyHtml)
    ensures var m := ForwardedMessage(original, req, showDate);
      m.Text? && m.subtype == "plain" &&
      m.content == ForwardBlock(req.additionalMessage, original, showDate) + original.bodyText.GetOr("")
  {
  }

  /**
   * A forward of an html message is an alternative of two parts: the plain
   * block and body, then the html part whose block has no newline left
   * while the original html body follows unchanged.
   */
  lemma HtmlForward(original: Message, req: ForwardEmailRequest, showDate: Timestamp -> string)
    requires Truthy(original.bodyHtml)
    ensures var m := ForwardedMessage(original, req, showDate);
      var block := ForwardBlock(req.additionalMessage, original, showDate);
      m.Multipart? && m.subtype == "alternative" && |m.parts| == 2 &&
      m.parts[0].content == block + original.bodyText.GetOr("") && m.parts[0].subtype == "plain" &&
      m.parts[1].subtype == "html" &&
      m.parts[1].content == NewlinesToBr(block) + original.bodyHtml.value &&
      '\n' !in NewlinesToBr(block)
  {
  }

  /** A forward sets To, Cc, Bcc and Subject only: no In-Reply-To and no References. */
  lemma ForwardHeaders(original: Message, req: ForwardEmailRequest, showDate: Timestamp -> string)
    ensures var hs := EnvelopeHeaders(ForwardEnvelope(original, req));
      HeaderValues(hs, InReplyTo) == [] && HeaderValues(hs, References) == [] &&
      HeaderValues(hs, Subject) == [FwdSubject(original.subject)] &&
      HeaderValues(hs, To) == [Join(req.to, ", ")]
  {
    EnvelopeHeaderRules(ForwardEnvelope(original, req));
  }
}
