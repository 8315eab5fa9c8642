/** Folding a message's header list into a lookup keyed by lower-cased name. */
module MessageHeaders {
  import opened Wrappers
  import opened Strings
  import opened Models

  /**
   * `{h["name"].lower(): h["value"] for h in headers}`: the headers are
   * visited in order and a later one overwrites an earlier one.
   */
  function ParseMessageHeaders(hs: seq<MessageHeader>): map<string, string> {
    if hs == [] then map[]
    else ParseMessageHeaders(hs[..|hs| - 1])[Lower(hs[|hs| - 1].name) := hs[|hs| - 1].value]
  }

  /** `headers.get(key)`. */
  function Get(m: map<string, string>, key: string): Option<string> {
    if key in m then Some(m[key]) else None
  }

  /** Header `i` of `hs` has name `key` once lower-cased. */
  predicate NamedAt(hs: seq<MessageHeader>, key: string, i: int) {
    0 <= i < |hs| && Lower(hs[i].name) == key
  }

  /** Some header of `hs` has name `key` once lower-cased. */
  ghost predicate Named(hs: seq<MessageHeader>, key: string) {
    exists i :: NamedAt(hs, key, i)
  }

  /** `v` is the value of the last header of `hs` named `key` in any case. */
  ghost predicate LastValue(hs: seq<MessageHeader>, key: string, v: string) {
    exists i :: NamedAt(hs, key, i) && hs[i].value == v && !Named(hs[i + 1..], key)
  }

  /** A name occurs in a list with one more header iff it occurs before or is the new one's. */
  lemma NamedSnoc(init: seq<MessageHeader>, last: MessageHeader, key: string)
    ensures Named(init + [last], key) <==> Named(init, key) || Lower(last.name) == key
  {
    var hs := init + [last];
    if Named(hs, key) {
      var i :| NamedAt(hs, key, i);
      if i < |init| {
        assert NamedAt(init, key, i);
      }
    }
    if Named(init, key) {
      var i :| NamedAt(init, key, i);
      assert NamedAt(hs, key, i);
    }
    if Lower(last.name) == key {
      assert NamedAt(hs, key, |init|);
    }
  }

  /**
   * The lookup holds exactly the lower-cased names that occur, each with
   * the value of its last occurrence.
   */
  lemma {:induction false} ParsedHeadersAreLastValues(hs: seq<MessageHeader>, key: string)
    ensures key in ParseMessageHeaders(hs) <==> Named(hs, key)
    ensures key in ParseMessageHeaders(hs) ==> LastValue(hs, key, ParseMessageHeaders(hs)[key])
  {
    if hs != [] {
      var init, last := hs[..|hs| - 1], hs[|hs| - 1];
      assert hs == init + [last];
      ParsedHeadersAreLastValues(init, key);
      NamedSnoc(init, last, key);
      if Lower(last.name) == key {
        LastOccurrenceIsLast(init, last, key);
      } else if key in ParseMessageHeaders(init) {
        LaterOccurrenceKept(init, last, key, ParseMessageHeaders(init)[key]);
      }
    }
  }

  /** The header just appended is the last occurrence of its name. */
  lemma LastOccurrenceIsLast(init: seq<MessageHeader>, last: MessageHeader, key: string)
    requires Lower(last.name) == key
    ensures LastValue(init + [last], key, last.value)
  {
    var hs := init + [last];
    assert NamedAt(hs, key, |init|);
    assert hs[|init| + 1..] == [];
  }

  /** Appending a header of another name keeps the last occurrence where it was. */
  lemma LaterOccurrenceKept(init: seq<MessageHeader>, last: MessageHeader, key: string, v: string)
    requires Lower(last.name) != key && LastValue(init, key, v)
    ensures LastValue(init + [last], key, v)
  {
    var hs := init + [last];
    var i :| NamedAt(init, key, i) && init[i].value == v && !Named(init[i + 1..], key);
    assert NamedAt(hs, key, i);
    assert hs[i + 1..] == init[i + 1..] + [last];
    NamedSnoc(init[i + 1..], last, key);
  }

  /** Appending a header makes it the one found under its lower-cased name. */
  lemma {:induction false} LastHeaderWins(hs: seq<MessageHeader>, h: MessageHeader)
    ensures Get(ParseMessageHeaders(hs + [h]), Lower(h.name)) == Some(h.value)
  {
    assert (hs + [h])[..|hs + [h]| - 1] == hs;
  }

  /** "Subject" then "subject": one key, the later value. */
  lemma SubjectCaseExample()
    ensures ParseMessageHeaders([MessageHeader("Subject", "A"), MessageHeader("subject", "B")])
            == map["subject" := "B"]
  {
    var hs := [MessageHeader("Subject", "A"), MessageHeader("subject", "B")];
    LowerNames();
    var first := hs[..1];
    assert first[..0] == [] && first[0] == MessageHeader("Subject", "A");
    assert ParseMessageHeaders(first) == map["subject" := "A"];
  }

  /** The lower-cased forms of the header names used in the examples. */
  lemma LowerNames()
    ensures Lower("Subject") == "subject" && Lower("subject") == "subject" && Lower("From") == "from"
  {
    var s, t, f := Lower("Subject"), Lower("subject"), Lower("From");
    assert |s| == 7 && s[0] == 's' && s[1] == 'u' && s[2] == 'b' && s[3] == 'j' && s[4] == 'e' && s[5] == 'c' && s[6] == 't';
    assert |t| == 7 && t[0] == 's' && t[1] == 'u' && t[2] == 'b' && t[3] == 'j' && t[4] == 'e' && t[5] == 'c' && t[6] == 't';
    assert |f| == 4 && f[0] == 'f' && f[1] == 'r' && f[2] == 'o' && f[3] == 'm';
  }
}
