/**
 * The request-handling layer of the WeCom callback endpoint (`workapi.py`):
 * message field extraction, the GET verification reply, the POST decision
 * rule and the routing by HTTP method.
 *
 * Every call into foreign code is a field of `Runtime`: the configured
 * cipher `qy_api[0]`, `bytes.decode('utf-8')` and `xml.dom.minidom.parseString`.
 */
module WorkApi {
  import opened Wrappers
  import opened Xml
  import opened Crypto
  import opened Dispatch

  datatype Runtime = Runtime(
    crypt: MsgCrypt,
    /** `request.data.decode('utf-8')`; None when the body is not UTF-8. */
    decodeUtf8: seq<byte> -> Option<string>,
    /** `parseString(..)`; None when the text is not well-formed XML. */
    parseXml: string -> Option<Document>)

  /** The parts of a Flask request the handlers read. `args` maps each
      query parameter to its first value, as `request.args.get` sees it. */
  datatype Request = Request(httpMethod: string, args: map<string, string>, data: seq<byte>)

  /** What the endpoint answers: a 200 body, `abort(405)`, or the 500 that
      Flask sends for an exception no handler catches. */
  datatype Response = Body(text: string) | MethodNotAllowed | ServerError

  /** A response together with the dispatch it started, if any. */
  datatype Outcome = Outcome(response: Response, job: Option<DispatchJob>)

  /** The 4-tuple `(name, content, pic_url, msg_type)` of `parse_xml_message`. */
  datatype Parsed = Parsed(name: Option<string>, content: Option<string>, picUrl: Option<string>, msgType: Option<string>)

  const NoMessage := Parsed(None, None, None, None)

  /** The fields a complete parse needs: sender and kind always, then the
      body field the kind calls for. */
  predicate HasRequiredFields(doc: Document)
  {
    && FirstText(doc, "FromUserName").Some?
    && FirstText(doc, "MsgType").Some?
    && (FirstText(doc, "MsgType") == Some("text") ==> FirstText(doc, "Content").Some?)
    && (FirstText(doc, "MsgType") == Some("image") ==> FirstText(doc, "PicUrl").Some?)
  }

  /** `request.args.get(key, '')`. */
  function Param(args: map<string, string>, key: string): (v: string)
    ensures key in args ==> v == args[key]
    ensures key !in args ==> v == ""
  {
    if key in args then args[key] else ""
  }

  /** The body of the `try` in `parse_xml_message`, once the text has been
      parsed: the first FromUserName and MsgType, then the first Content
      for "text" or the first PicUrl for "image"; any missing element or
      text child turns the whole result into NoMessage. */
  function ReadMessage(doc: Document): (m: Parsed)
    ensures m == NoMessage <==> !HasRequiredFields(doc)
    ensures m != NoMessage ==>
      && m.name == FirstText(doc, "FromUserName")
      && m.msgType == FirstText(doc, "MsgType")
      && m.content == (if m.msgType == Some("text") then FirstText(doc, "Content") else None)
      && m.picUrl == (if m.msgType == Some("image") then FirstText(doc, "PicUrl") else None)
  {
    match (FirstText(doc, "FromUserName"), FirstText(doc, "MsgType"))
    case (Some(name), Some(kind)) =>
      if kind == "text" then
        match FirstText(doc, "Content")
        case Some(content) => Parsed(Some(name), Some(content), None, Some(kind))
        case None => NoMessage
      else if kind == "image" then
        match FirstText(doc, "PicUrl")
        case Some(url) => Parsed(Some(name), None, Some(url), Some(kind))
        case None => NoMessage
      else Parsed(Some(name), None, None, Some(kind))
    case _ => NoMessage
  }

  /** `parse_xml_message(xml_content)`: a text that does not parse gives
      NoMessage, like every other exception inside the `try`. */
  function ParseXmlMessage(parseXml: string -> Option<Document>, xml: string): (m: Parsed)
    ensures parseXml(xml).None? ==> m == NoMessage
    ensures parseXml(xml).Some? ==> m == ReadMessage(parseXml(xml).value)
    // no partial result: either nothing, or a sender and a kind together with
    // exactly the body field that kind calls for
    ensures m == NoMessage || (m.name.Some? && m.msgType.Some?
      && (m.content.Some? <==> m.msgType == Some("text"))
      && (m.picUrl.Some? <==> m.msgType == Some("image")))
  {
    match parseXml(xml)
    case None => NoMessage
    case Some(doc) => ReadMessage(doc)
  }

  /** `verify_url(request)`: the echo string the cipher recovers, verbatim,
      or "failed" when its status is non-zero. Absent parameters reach the
      cipher as empty strings. */
  function VerifyUrl(crypt: MsgCrypt, args: map<string, string>): (r: string)
    ensures var reply := crypt.verifyUrl(Param(args, "msg_signature"), Param(args, "timestamp"),
                                         Param(args, "nonce"), Param(args, "echostr"));
      && (reply.status != 0 ==> r == "failed")
      && (reply.status == 0 ==> r == reply.plaintext)
  {
    var reply := crypt.verifyUrl(Param(args, "msg_signature"), Param(args, "timestamp"),
                                 Param(args, "nonce"), Param(args, "echostr"));
    if reply.status != 0 then "failed" else reply.plaintext
  }

  /** The decryption step of `handle_message`: None when the body is not
      UTF-8 (the decode raises before the cipher is called). */
  function Decrypt(rt: Runtime, req: Request): (reply: Option<Reply>)
    ensures rt.decodeUtf8(req.data).None? <==> reply.None?
    ensures reply.Some? ==> reply.value == rt.crypt.decryptMsg(rt.decodeUtf8(req.data).value,
      Param(req.args, "msg_signature"), Param(req.args, "timestamp"), Param(req.args, "nonce"))
  {
    match rt.decodeUtf8(req.data)
    case None => None
    case Some(data) =>
      Some(rt.crypt.decryptMsg(data, Param(req.args, "msg_signature"),
                               Param(req.args, "timestamp"), Param(req.args, "nonce")))
  }

  /** `handle_message(request)`. */
  function HandleMessage(rt: Runtime, req: Request): (out: Outcome)
    // a body that is not UTF-8 is an uncaught exception
    ensures Decrypt(rt, req).None? ==> out == Outcome(ServerError, None)
    // a failed decryption answers "failed" and never reaches the parser
    ensures Decrypt(rt, req).Some? && Decrypt(rt, req).value.status != 0 ==>
      out == Outcome(Body("failed"), None)
    ensures Decrypt(rt, req).Some? && Decrypt(rt, req).value.status == 0 ==>
      var m := ParseXmlMessage(rt.parseXml, Decrypt(rt, req).value.plaintext);
      // no sender, or an empty one: "failed" and no dispatch
      && (m.name.None? || m.name == Some("") ==> out == Outcome(Body("failed"), None))
      // otherwise "ok", with one dispatch for text and for image only
      && (m.name.Some? && m.name != Some("") ==>
            && out.response == Body("ok")
            && (m.msgType == Some("text") ==>
                  out.job == Some(DispatchJob(m.name.value, m.content.value, 0, 0)))
            && (m.msgType == Some("image") ==>
                  out.job == Some(DispatchJob(m.name.value, m.picUrl.value, 0, 1)))
            && (m.msgType != Some("text") && m.msgType != Some("image") ==> out.job == None))
  {
    match Decrypt(rt, req)
    case None => Outcome(ServerError, None)
    case Some(reply) =>
      if reply.status != 0 then Outcome(Body("failed"), None)
      else
        var m := ParseXmlMessage(rt.parseXml, reply.plaintext);
        if m.name.None? || m.name.value == "" then Outcome(Body("failed"), None)
        else if m.msgType == Some("text") then
          Outcome(Body("ok"), Some(ProcessMessage(m.name.value, m.content.value, 0, 0)))
        else if m.msgType == Some("image") then
          Outcome(Body("ok"), Some(ProcessMessage(m.name.value, m.picUrl.value, 0, 1)))
        else Outcome(Body("ok"), None)
  }

  /** `webhook()`: GET verifies, POST handles, any other method is 405. */
  function Webhook(rt: Runtime, req: Request): (out: Outcome)
    ensures req.httpMethod == "GET" ==> out == Outcome(Body(VerifyUrl(rt.crypt, req.args)), None)
    ensures req.httpMethod == "POST" ==> out == HandleMessage(rt, req)
    ensures req.httpMethod != "GET" && req.httpMethod != "POST" ==> out == Outcome(MethodNotAllowed, None)
  {
    if req.httpMethod == "GET" then Outcome(Body(VerifyUrl(rt.crypt, req.args)), None)
    else if req.httpMethod == "POST" then HandleMessage(rt, req)
    else Outcome(MethodNotAllowed, None)
  }
}
