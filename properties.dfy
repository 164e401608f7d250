/**
 * Properties of the callback endpoint that relate several calls, or the
 * endpoint's results to the decrypted document.
 */
module Properties {
  import opened Wrappers
  import opened Xml
  import opened Crypto
  import opened Dispatch
  import opened WorkApi

  /** The tags `parse_xml_message` looks at. */
  const ReadTags: set<string> := {"FromUserName", "MsgType", "Content", "PicUrl"}

  lemma SameLookupAfterAppend(els: seq<Element>, more: seq<Element>, tag: string)
    requires forall j :: 0 <= j < |more| && more[j].tag == tag ==> !Absent(els, tag)
    ensures FirstText(Document(els + more), tag) == FirstText(Document(els), tag)
  {
    if Absent(els, tag) {
      FirstTextAbsentFromBoth(els, more, tag);
    } else {
      FirstTextIgnoresSuffix(els, more, tag);
    }
  }

  /** Elements appended after the document that only repeat tags already
      present, or carry tags the parser never reads, change nothing: the
      first occurrence of each tag is the one used. */
  lemma ReadMessageIgnoresLaterRepeats(els: seq<Element>, more: seq<Element>)
    requires forall j :: 0 <= j < |more| && more[j].tag in ReadTags ==> !Absent(els, more[j].tag)
    ensures ReadMessage(Document(els + more)) == ReadMessage(Document(els))
  {
    SameLookupAfterAppend(els, more, "FromUserName");
    SameLookupAfterAppend(els, more, "MsgType");
    SameLookupAfterAppend(els, more, "Content");
    SameLookupAfterAppend(els, more, "PicUrl");
  }

  /** An element whose tag the parser never reads may stand anywhere. */
  lemma ReadMessageIgnoresOtherTags(els: seq<Element>, k: nat, e: Element)
    requires k <= |els| && e.tag !in ReadTags
    ensures ReadMessage(Document(els[..k] + [e] + els[k..])) == ReadMessage(Document(els))
  {
    FirstTextIgnoresOtherTag(els, k, e, "FromUserName");
    FirstTextIgnoresOtherTag(els, k, e, "MsgType");
    FirstTextIgnoresOtherTag(els, k, e, "Content");
    FirstTextIgnoresOtherTag(els, k, e, "PicUrl");
  }

  /** A text message from "alice" saying "hi". */
  lemma ReadTextExample()
    ensures ReadMessage(Document([Element("ToUserName", Some("corp")), Element("FromUserName", Some("alice")),
                                  Element("MsgType", Some("text")), Element("Content", Some("hi"))]))
         == Parsed(Some("alice"), Some("hi"), None, Some("text"))
  {
  }

  /** A "text" message without Content fails as a whole; it is never
      read as empty content. */
  lemma ReadTextWithoutContentExample()
    ensures ReadMessage(Document([Element("FromUserName", Some("alice")), Element("MsgType", Some("text")),
                                  Element("PicUrl", Some("http://p"))]))
         == NoMessage
  {
  }

  /** An empty `<Content/>` has no child node, so it fails like a missing one. */
  lemma ReadEmptyContentElementExample()
    ensures ReadMessage(Document([Element("FromUserName", Some("alice")), Element("MsgType", Some("text")),
                                  Element("Content", None), Element("Content", Some("later"))]))
         == NoMessage
  {
  }

  /** Kinds are matched case-sensitively: "Text" is an unknown kind. */
  lemma ReadKindIsCaseSensitiveExample()
    ensures ReadMessage(Document([Element("FromUserName", Some("alice")), Element("MsgType", Some("Text")),
                                  Element("Content", Some("hi"))]))
         == Parsed(Some("alice"), None, None, Some("Text"))
  {
  }

  /** A cipher that accepts every POST and yields `plaintext`. */
  function Accepting(plaintext: string): MsgCrypt
  {
    MsgCrypt((a: string, b: string, c: string, d: string) => Reply(-40001, ""),
             (a: string, b: string, c: string, d: string) => Reply(0, plaintext))
  }

  /** A well-formed POST that decrypts to a text message from "bob" saying
      "hello" starts exactly that one job and answers "ok". */
  lemma EndToEndTextExample(decode: seq<byte> -> Option<string>, parse: string -> Option<Document>, req: Request)
    requires req.httpMethod == "POST"
    requires decode(req.data) == Some("<xml>..</xml>")
    requires parse("decrypted") == Some(Document([Element("FromUserName", Some("bob")),
                                                  Element("MsgType", Some("text")),
                                                  Element("Content", Some("hello"))]))
    ensures Webhook(Runtime(Accepting("decrypted"), decode, parse), req)
         == Outcome(Body("ok"), Some(DispatchJob("bob", "hello", 0, 0)))
  {
  }

  /** A "voice" message parses, answers "ok" and starts nothing. */
  lemma EndToEndUnknownKindExample(decode: seq<byte> -> Option<string>, parse: string -> Option<Document>, req: Request)
    requires req.httpMethod == "POST"
    requires decode(req.data).Some?
    requires parse("decrypted") == Some(Document([Element("FromUserName", Some("bob")),
                                                  Element("MsgType", Some("voice"))]))
    ensures Webhook(Runtime(Accepting("decrypted"), decode, parse), req) == Outcome(Body("ok"), None)
  {
  }

  /** A POST the cipher rejects never reaches the parser: its outcome is the
      same whatever parser is plugged in, and it is "failed" with no job. */
  lemma RejectedPostIgnoresParser(rt: Runtime, req: Request, otherParser: string -> Option<Document>)
    requires Decrypt(rt, req).Some? && Decrypt(rt, req).value.status != 0
    ensures HandleMessage(rt, req) == HandleMessage(rt.(parseXml := otherParser), req)
    ensures HandleMessage(rt, req) == Outcome(Body("failed"), None)
  {
  }

  /** GET and any method other than POST never dispatch. */
  lemma OnlyPostDispatches(rt: Runtime, req: Request)
    requires req.httpMethod != "POST"
    ensures Webhook(rt, req).job == None
  {
  }

  /** The dispatch that a successful decryption leads to, stated on the
      decrypted document: a job is started exactly when the document parses,
      its first FromUserName is non-empty and its first MsgType is "text"
      with a first Content, or "image" with a first PicUrl; the job carries
      that sender and that Content or PicUrl on channel 0. */
  predicate DispatchFor(doc: Document, job: DispatchJob)
  {
    && FirstText(doc, "FromUserName") == Some(job.sender)
    && job.sender != ""
    && job.channel == 0
    && (|| (FirstText(doc, "MsgType") == Some("text") && FirstText(doc, "Content") == Some(job.content)
            && job.msgType == 0)
        || (FirstText(doc, "MsgType") == Some("image") && FirstText(doc, "PicUrl") == Some(job.content)
            && job.msgType == 1))
  }

  lemma DispatchSound(rt: Runtime, req: Request)
    requires HandleMessage(rt, req).job.Some?
    ensures Decrypt(rt, req).Some? && Decrypt(rt, req).value.status == 0
    ensures var doc := rt.parseXml(Decrypt(rt, req).value.plaintext);
      doc.Some? && DispatchFor(doc.value, HandleMessage(rt, req).job.value)
    ensures HandleMessage(rt, req).response == Body("ok")
  {
  }

  lemma DispatchComplete(rt: Runtime, req: Request, doc: Document, job: DispatchJob)
    requires Decrypt(rt, req).Some? && Decrypt(rt, req).value.status == 0
    requires rt.parseXml(Decrypt(rt, req).value.plaintext) == Some(doc)
    requires DispatchFor(doc, job)
    ensures HandleMessage(rt, req) == Outcome(Body("ok"), Some(job))
  {
  }
}
