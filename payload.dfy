/**
 * The payload tree of a fetched message: the depth-first extraction of its
 * plain text, HTML text and attachment descriptors, and its mirror as a
 * tree of message parts.
 */
module Payload {
  import opened Wrappers
  import opened Strings
  import opened Models

  /**
   * A payload node as the store returns it; every key may be missing. Both
   * walkers read a missing `parts` key exactly as an empty list, so `parts`
   * is a plain sequence.
   */
  datatype RawPart = RawPart(
    partId: Option<string>,
    mimeType: Option<string>,
    filename: Option<string>,
    headers: Option<seq<MessageHeader>>,
    body: Option<PartBody>,
    parts: seq<RawPart>)

  /** The empty dictionary `{}`: the payload of a record that has none. */
  const EmptyPart := RawPart(None, None, None, None, None, [])
  const EmptyBody := PartBody(None, None, None)

  /** Decoding of a body's `data`: base64url then UTF-8; None when either step raises. */
  type Decoder = string -> Option<string>

  function Children(p: RawPart): (r: seq<RawPart>)
    ensures forall c | c in r :: c < p
  {
    p.parts
  }

  // ----- the walk order -----

  /** The nodes of the tree rooted at `p`, each before its children, children in list order. */
  function Preorder(p: RawPart): (r: seq<RawPart>)
    ensures r != [] && r[0] == p
    decreases p, 1, 0
  {
    [p] + PreorderPrefix(p, |Children(p)|)
  }

  /** The pre-order nodes of the first `n` children of `p`, one subtree after another. */
  function PreorderPrefix(p: RawPart, n: nat): seq<RawPart>
    requires n <= |Children(p)|
    decreases p, 0, n
  {
    if n == 0 then [] else PreorderPrefix(p, n - 1) + Preorder(Children(p)[n - 1])
  }

  // ----- what one node contributes -----

  datatype Extracted = Extracted(plain: string, html: string, attachments: seq<AttachmentData>)

  const NothingExtracted := Extracted("", "", [])

  function Then(a: Extracted, b: Extracted): Extracted {
    Extracted(a.plain + b.plain, a.html + b.html, a.attachments + b.attachments)
  }

  /** Both parts succeed, and their extracts are concatenated; otherwise the error propagates. */
  function Combine(a: Option<Extracted>, b: Option<Extracted>): Option<Extracted> {
    if a.Some? && b.Some? then Some(Then(a.value, b.value)) else None
  }

  predicate HasData(p: RawPart) {
    p.body.Some? && p.body.value.data.Some?
  }

  /** Nodes whose inline data is decoded as text: the first two rules. */
  predicate IsTextNode(p: RawPart) {
    (p.mimeType == Some("text/plain") || p.mimeType == Some("text/html")) && HasData(p)
  }

  /** Nodes recorded as attachments: a truthy filename and an attachmentId, and not a text node. */
  predicate IsAttachmentNode(p: RawPart) {
    !IsTextNode(p) && Truthy(p.filename) && p.body.Some? && p.body.value.attachmentId.Some?
  }

  /**
   * The if/elif chain applied to one node: text/plain data is decoded into
   * the plain text, else text/html data into the HTML text, else a truthy
   * filename with an attachmentId gives a descriptor (size 0 when absent).
   * A decoding failure is None.
   */
  function NodeContribution(p: RawPart, decode: Decoder): Option<Extracted>
  {
    var mime := p.mimeType.GetOr("");
    var body := p.body.GetOr(EmptyBody);
    if mime == "text/plain" && body.data.Some? then
      (match decode(body.data.value)
       case Some(s) => Some(Extracted(s, "", []))
       case None => None)
    else if mime == "text/html" && body.data.Some? then
      (match decode(body.data.value)
       case Some(s) => Some(Extracted("", s, []))
       case None => None)
    else if Truthy(p.filename) && body.attachmentId.Some? then
      Some(Extracted("", "", [AttachmentData(body.attachmentId.value, body.size.GetOr(0), None)]))
    else Some(NothingExtracted)
  }

  /**
   * The contribution of one node, rule by rule: only a text node's decode
   * can fail; a text/plain or text/html node contributes exactly its decoded
   * text; any other node contributes no text, and a descriptor exactly when
   * it is an attachment node.
   */
  lemma NodeContributionRules(p: RawPart, decode: Decoder)
    ensures NodeContribution(p, decode).None? <==> IsTextNode(p) && decode(p.body.value.data.value).None?
    ensures var r := NodeContribution(p, decode);
      r.Some? && p.mimeType == Some("text/plain") && HasData(p) ==>
        r.value == Extracted(decode(p.body.value.data.value).value, "", [])
    ensures var r := NodeContribution(p, decode);
      r.Some? && p.mimeType == Some("text/html") && HasData(p) ==>
        r.value == Extracted("", decode(p.body.value.data.value).value, [])
    ensures var r := NodeContribution(p, decode);
      r.Some? && !IsTextNode(p) ==> r.value.plain == "" && r.value.html == ""
    ensures var r := NodeContribution(p, decode);
      r.Some? ==> (r.value.attachments != [] <==> IsAttachmentNode(p))
    ensures var r := NodeContribution(p, decode);
      r.Some? && IsAttachmentNode(p) ==>
        r.value.attachments == [AttachmentData(p.body.value.attachmentId.value, p.body.value.size.GetOr(0), None)]
  {
  }

  /** The contributions of a node list, concatenated in list order. */
  function Collect(nodes: seq<RawPart>, decode: Decoder): Option<Extracted> {
    if nodes == [] then Some(NothingExtracted)
    else Combine(Collect(nodes[..|nodes| - 1], decode), NodeContribution(nodes[|nodes| - 1], decode))
  }

  /** What `_extract_message_content` returns for a payload: None when it raises. */
  function ContentOf(p: RawPart, decode: Decoder): Option<Extracted> {
    Collect(Preorder(p), decode)
  }

  /** The contents of the first `n` subtrees of `p`, one after another. */
  function ChildrenContent(p: RawPart, n: nat, decode: Decoder): Option<Extracted>
    requires n <= |Children(p)|
  {
    if n == 0 then Some(NothingExtracted)
    else Combine(ChildrenContent(p, n - 1, decode), ContentOf(Children(p)[n - 1], decode))
  }

  function CountAttachmentNodes(nodes: seq<RawPart>): nat {
    if nodes == [] then 0
    else CountAttachmentNodes(nodes[..|nodes| - 1]) + (if IsAttachmentNode(nodes[|nodes| - 1]) then 1 else 0)
  }

  // ----- properties of the walk -----

  lemma ThenNothing(a: Extracted)
    ensures Then(a, NothingExtracted) == a && Then(NothingExtracted, a) == a
  {
    assert a.plain + "" == a.plain && "" + a.plain == a.plain;
    assert a.html + "" == a.html && "" + a.html == a.html;
    assert a.attachments + [] == a.attachments && [] + a.attachments == a.attachments;
  }

  lemma ThenAssociative(x: Extracted, y: Extracted, z: Extracted)
    ensures Then(Then(x, y), z) == Then(x, Then(y, z))
  {
    assert (x.plain + y.plain) + z.plain == x.plain + (y.plain + z.plain);
    assert (x.html + y.html) + z.html == x.html + (y.html + z.html);
    assert (x.attachments + y.attachments) + z.attachments == x.attachments + (y.attachments + z.attachments);
  }

  lemma CombineAssociative(a: Option<Extracted>, b: Option<Extracted>, c: Option<Extracted>)
    ensures Combine(Combine(a, b), c) == Combine(a, Combine(b, c))
  {
    if a.Some? && b.Some? && c.Some? {
      ThenAssociative(a.value, b.value, c.value);
    }
  }

  /** Collecting over a concatenation collects each part and concatenates the results. */
  lemma {:induction false} CollectAppend(a: seq<RawPart>, b: seq<RawPart>, decode: Decoder)
    ensures Collect(a + b, decode) == Combine(Collect(a, decode), Collect(b, decode))
    decreases |b|
  {
    if b == [] {
      assert a + b == a;
      if Collect(a, decode).Some? {
        ThenNothing(Collect(a, decode).value);
      }
    } else {
      var b0, last := b[..|b| - 1], b[|b| - 1];
      assert (a + b)[..|a + b| - 1] == a + b0;
      assert (a + b)[|a + b| - 1] == last;
      CollectAppend(a, b0, decode);
      CombineAssociative(Collect(a, decode), Collect(b0, decode), NodeContribution(last, decode));
    }
  }

  lemma {:induction false} PreorderPrefixContent(p: RawPart, n: nat, decode: Decoder)
    requires n <= |Children(p)|
    ensures Collect(PreorderPrefix(p, n), decode) == ChildrenContent(p, n, decode)
  {
    if n > 0 {
      PreorderPrefixContent(p, n - 1, decode);
      CollectAppend(PreorderPrefix(p, n - 1), Preorder(Children(p)[n - 1]), decode);
    }
  }

  /**
   * Pre-order: the content of a tree is the node's own contribution, then
   * the content of each child subtree in list order; children are visited
   * whether or not the node itself matched a rule.
   */
  lemma ContentUnfolds(p: RawPart, decode: Decoder)
    ensures ContentOf(p, decode) ==
      Combine(NodeContribution(p, decode), ChildrenContent(p, |Children(p)|, decode))
  {
    var n := |Children(p)|;
    var rest := PreorderPrefix(p, n);
    assert Preorder(p) == [p] + rest;
    CollectAppend([p], rest, decode);
    PreorderPrefixContent(p, n, decode);
    assert Collect([p], decode) == NodeContribution(p, decode) by {
      assert [p][..0] == [];
      if NodeContribution(p, decode).Some? {
        ThenNothing(NodeContribution(p, decode).value);
      }
    }
  }

  /** One descriptor per attachment node of the walk, however deep. */
  lemma {:induction false} AttachmentCount(nodes: seq<RawPart>, decode: Decoder)
    requires Collect(nodes, decode).Some?
    ensures |Collect(nodes, decode).value.attachments| == CountAttachmentNodes(nodes)
  {
    if nodes != [] {
      AttachmentCount(nodes[..|nodes| - 1], decode);
      NodeContributionRules(nodes[|nodes| - 1], decode);
      var c := NodeContribution(nodes[|nodes| - 1], decode).value;
      assert |c.attachments| == if IsAttachmentNode(nodes[|nodes| - 1]) then 1 else 0;
    }
  }

  /** A text node is decoded even when it carries a filename: it is never an attachment. */
  lemma TextNodeWithFilename(p: RawPart, decode: Decoder)
    requires p.mimeType == Some("text/plain") && HasData(p) && Truthy(p.filename)
    requires p.body.value.attachmentId.Some?
    requires decode(p.body.value.data.value).Some?
    ensures NodeContribution(p, decode) == Some(Extracted(decode(p.body.value.data.value).value, "", []))
  {
  }

  // ----- the extraction as the source runs it -----

  /**
   * The three accumulators that the nested `extract_from_part` closure
   * updates in place.
   */
  class ContentAccumulator {
    var plainText: string
    var htmlText: string
    var attachments: seq<AttachmentData>

    function Accumulated(): Extracted
      reads this
    {
      Extracted(plainText, htmlText, attachments)
    }

    constructor ()
      ensures Accumulated() == NothingExtracted
    {
      plainText, htmlText, attachments := "", "", [];
    }

    /**
     * The if/elif chain of `extract_from_part` on one node's own body.
     * Returns false when the decode raises.
     */
    method ExtractOwnBody(part: RawPart, decode: Decoder) returns (ok: bool)
      modifies this
      ensures ok <==> NodeContribution(part, decode).Some?
      ensures ok ==> Accumulated() == Then(old(Accumulated()), NodeContribution(part, decode).value)
    {
      var mimeType := part.mimeType.GetOr("");
      var body := part.body.GetOr(EmptyBody);
      ok := true;
      if mimeType == "text/plain" && body.data.Some? {
        var text := decode(body.data.value);
        if text.None? {
          return false;
        }
        plainText := plainText + text.value;
      } else if mimeType == "text/html" && body.data.Some? {
        var text := decode(body.data.value);
        if text.None? {
          return false;
        }
        htmlText := htmlText + text.value;
      } else if Truthy(part.filename) && body.attachmentId.Some? {
        attachments := attachments + [AttachmentData(body.attachmentId.value, body.size.GetOr(0), None)];
      } else {
        ThenNothing(old(Accumulated()));
      }
    }

    /**
     * `extract_from_part`: this node's own body, then each sub-part in
     * order. Returns false when a decode raises (the exception propagates
     * and the accumulators are then discarded).
     */
    method ExtractFromPart(part: RawPart, decode: Decoder) returns (ok: bool)
      modifies this
      decreases part, 1
      ensures ok <==> ContentOf(part, decode).Some?
      ensures ok ==> Accumulated() == Then(old(Accumulated()), ContentOf(part, decode).value)
    {
      ContentUnfolds(part, decode);
      ok := ExtractOwnBody(part, decode);
      if !ok {
        return;
      }
      ghost var own := NodeContribution(part, decode).value;
      ok := ExtractSubParts(part, decode);
      if ok {
        ThenAssociative(old(Accumulated()), own, ChildrenContent(part, |Children(part)|, decode).value);
      }
    }

    /** The loop of `extract_from_part` over the node's sub-parts, in list order. */
    method ExtractSubParts(part: RawPart, decode: Decoder) returns (ok: bool)
      modifies this
      decreases part, 0
      ensures ok <==> ChildrenContent(part, |Children(part)|, decode).Some?
      ensures ok ==> Accumulated() == Then(old(Accumulated()), ChildrenContent(part, |Children(part)|, decode).value)
    {
      ghost var start := Accumulated();
      ThenNothing(start);
      var subparts := part.parts;
      var i := 0;
      while i < |subparts|
        invariant 0 <= i <= |subparts| && subparts == Children(part)
        invariant ChildrenContent(part, i, decode).Some?
        invariant Accumulated() == Then(start, ChildrenContent(part, i, decode).value)
      {
        var subOk := ExtractFromPart(subparts[i], decode);
        if !subOk {
          ChildrenContentStops(part, i, decode);
          return false;
        }
        ChildrenContentNext(start, part, i, decode);
        i := i + 1;
      }
      return true;
    }
  }

  /** One more subtree that decodes extends the run's content by that subtree's content. */
  lemma ChildrenContentNext(start: Extracted, p: RawPart, i: nat, decode: Decoder)
    requires i < |Children(p)|
    requires ChildrenContent(p, i, decode).Some? && ContentOf(Children(p)[i], decode).Some?
    ensures ChildrenContent(p, i + 1, decode).Some?
    ensures Then(start, ChildrenContent(p, i + 1, decode).value) ==
      Then(Then(start, ChildrenContent(p, i, decode).value), ContentOf(Children(p)[i], decode).value)
  {
    ThenAssociative(start, ChildrenContent(p, i, decode).value, ContentOf(Children(p)[i], decode).value);
  }

  /** A subtree that fails to decode makes the content of all the subtrees fail. */
  lemma ChildrenContentStops(p: RawPart, i: nat, decode: Decoder)
    requires i < |Children(p)| && ContentOf(Children(p)[i], decode).None?
    ensures ChildrenContent(p, |Children(p)|, decode).None?
  {
    var c := ContentOf(Children(p)[i], decode);
    assert ChildrenContent(p, i + 1, decode) == Combine(ChildrenContent(p, i, decode), c);
    ChildrenContentFails(p, i + 1, |Children(p)|, decode);
  }

  /** Once a subtree fails to decode, every longer run of subtrees fails too. */
  lemma {:induction false} ChildrenContentFails(p: RawPart, i: nat, n: nat, decode: Decoder)
    requires i <= n <= |Children(p)|
    requires ChildrenContent(p, i, decode).None?
    ensures ChildrenContent(p, n, decode).None?
    decreases n - i
  {
    if i < n {
      var c := ContentOf(Children(p)[i], decode);
      assert ChildrenContent(p, i + 1, decode) == Combine(ChildrenContent(p, i, decode), c);
      ChildrenContentFails(p, i + 1, n, decode);
    }
  }

  /** `_extract_message_content`: the (plain, html, attachments) triple, or None when it raises. */
  method ExtractMessageContent(payload: RawPart, decode: Decoder) returns (r: Option<Extracted>)
    ensures r == ContentOf(payload, decode)
  {
    var acc := new ContentAccumulator();
    var ok := acc.ExtractFromPart(payload, decode);
    if ok {
      ThenNothing(ContentOf(payload, decode).value);
      r := Some(acc.Accumulated());
    } else {
      r := None;
    }
  }

  // ----- the mirror of the tree -----

  /**
   * `_extract_message_parts`: the same node with defaults filled in
   * (mimeType "", headers [], body {}) and its sub-parts mirrored in order;
   * a node without sub-parts, or with an empty list, gets `parts=None`.
   */
  function Mirror(p: RawPart): (r: MessagePart)
    decreases p
  {
    var ch := Children(p);
    MessagePart(
      p.partId, p.mimeType.GetOr(""), p.filename, p.headers.GetOr([]), Some(p.body.GetOr(EmptyBody)),
      if ch == [] then NoParts else PartsOf(seq(|ch|, i requires 0 <= i < |ch| => Mirror(ch[i]))))
  }

  function SubParts(m: MessagePart): (r: seq<MessagePart>)
    ensures forall c | c in r :: c < m
  {
    if m.parts.PartsOf? then m.parts.items else []
  }

  /** The shape `Mirror` always produces: a body, and no empty sub-part list. */
  predicate IsMirror(m: MessagePart)
    decreases m
  {
    var ps := SubParts(m);
    m.body.Some? && (m.parts.PartsOf? ==> ps != []) && forall i :: 0 <= i < |ps| ==> IsMirror(ps[i])
  }

  /** The raw node a mirror part stands for, with every key present. */
  function Unmirror(m: MessagePart): RawPart
    decreases m
  {
    RawPart(
      m.partId, Some(m.mimeType), m.filename, Some(m.headers), m.body,
      var ps := SubParts(m); seq(|ps|, i requires 0 <= i < |ps| => Unmirror(ps[i])))
  }

  /** Mirroring keeps the tree's shape and node fields, with defaults for what is missing. */
  lemma {:induction false} MirrorShape(p: RawPart)
    ensures IsMirror(Mirror(p))
    ensures Mirror(p).partId == p.partId && Mirror(p).filename == p.filename
    ensures Mirror(p).mimeType == p.mimeType.GetOr("")
    ensures Mirror(p).headers == p.headers.GetOr([])
    ensures Mirror(p).body == Some(p.body.GetOr(EmptyBody))
    ensures Mirror(p).parts.NoParts? <==> Children(p) == []
    ensures |SubParts(Mirror(p))| == |Children(p)|
    ensures forall i :: 0 <= i < |Children(p)| ==> SubParts(Mirror(p))[i] == Mirror(Children(p)[i])
    decreases p
  {
    var ch := Children(p);
    forall i | 0 <= i < |ch| ensures IsMirror(Mirror(ch[i])) {
      MirrorShape(ch[i]);
    }
  }

  /** Every mirror-shaped part is the mirror of the raw node it stands for. */
  lemma {:induction false} MirrorRoundTrip(m: MessagePart)
    requires IsMirror(m)
    ensures Mirror(Unmirror(m)) == m
    decreases m
  {
    if m.parts.PartsOf? {
      var ps := SubParts(m);
      var ups := seq(|ps|, i requires 0 <= i < |ps| => Unmirror(ps[i]));
      assert Children(Unmirror(m)) == ups;
      forall i | 0 <= i < |ps| ensures Mirror(ups[i]) == ps[i] {
        MirrorRoundTrip(ps[i]);
      }
      assert seq(|ups|, i requires 0 <= i < |ups| => Mirror(ups[i])) == ps;
    }
  }

  /** `_extract_message_parts` as written: sub-part mirrors appended one by one. */
  method ExtractMessageParts(payload: RawPart) returns (r: MessagePart)
    ensures r == Mirror(payload)
    decreases payload
  {
    var parts: seq<MessagePart> := [];
    var subparts := payload.parts;
    var i := 0;
    while i < |subparts|
      invariant 0 <= i <= |subparts| && subparts == Children(payload)
      invariant |parts| == i && forall j :: 0 <= j < i ==> parts[j] == Mirror(subparts[j])
    {
      var sub := ExtractMessageParts(subparts[i]);
      parts := parts + [sub];
      i := i + 1;
    }
    ghost var ch := Children(payload);
    assert parts == [] <==> ch == [];
    assert ch != [] ==> parts == seq(|ch|, i requires 0 <= i < |ch| => Mirror(ch[i]));
    r := MessagePart(
      payload.partId, payload.mimeType.GetOr(""), payload.filename, payload.headers.GetOr([]),
      Some(payload.body.GetOr(EmptyBody)), if parts != [] then PartsOf(parts) else NoParts);
  }
}
