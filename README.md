# WeCom callback endpoint: request decisions

This project models the request-handling layer of a WeCom (enterprise WeChat)
callback endpoint, `workapi.py`, and proves what it answers and what it
dispatches.

- **Field extraction** (`parse_xml_message`). The endpoint reads the first
  `FromUserName` and the first `MsgType` of the decrypted document. It then
  reads the first `Content` for kind `"text"` or the first `PicUrl` for kind
  `"image"`. Any missing element or missing text child makes the whole result
  `(None, None, None, None)`.
- **GET** (`verify_url`). The endpoint passes the four query parameters to the
  cipher's `VerifyURL`. An absent parameter is passed as `""`. The reply is
  `"failed"` for a non-zero status, otherwise the recovered echo string,
  unchanged.
- **POST** (`handle_message`). The endpoint decodes the body as UTF-8 and calls
  the cipher's `DecryptMsg`. It answers `"failed"` for a non-zero status, for
  a failed parse (plaintext that is not XML, or that lacks the sender, the
  kind, or the body field its kind needs) and for an empty sender. Otherwise it answers `"ok"` and starts one
  job `(sender, content, 0, 0)` for text or `(sender, picture URL, 0, 1)` for an
  image. Other kinds start nothing.
- **Routing** (`webhook`). GET goes to verification, POST to message handling,
  and any other method that reaches `webhook` (HEAD, for one) gets 405.
- **Dispatch** (`process_message`). This is modelled as the job record it
  starts, plus the shell command line it builds for that job.

Modules, one per component:

- `Wrappers` (`wrappers.dfy`): `Option` and `byte`.
- `Xml` (`xml.dfy`): the parsed document and first-element lookup.
- `Crypto` (`crypto.dfy`): the cipher's two entry points, as uninterpreted functions.
- `Dispatch` (`dispatch.dfy`): the job record and Python's `str` of an int.
- `WorkApi` (`workapi.dfy`): parsing, the GET and POST handlers, and routing.
- `Properties` (`properties.dfy`): lemmas that span several calls.
- `Shell` (`shell.dfy`): how `/bin/sh` splits the command line, with a finding.

Foreign calls are parameters of the model, held in `WorkApi.Runtime`:

- `WXBizMsgCrypt.VerifyURL` and `DecryptMsg` are total functions returning
  `(status, plaintext)`. Every property holds whatever they return.
- `bytes.decode('utf-8')` returns `None` for a body that is not UTF-8.
- `xml.dom.minidom.parseString` returns `None` for text that is not well-formed.
  Otherwise it returns the descendants of the document element in document
  order. Each element has its tag and the character data of its first child
  node, if that child has any. `getElementsByTagName` on the document element
  searches exactly these descendants.

Behaviour of the code that the model keeps:

- `parse_xml_message` can return an empty sender. This happens when the first
  child of the first `FromUserName` is an empty comment `<!---->` or an empty
  processing instruction. `handle_message` then rejects it with `if not name`.
  An empty CDATA section `<![CDATA[]]>` produces no child node at all, so it
  fails the lookup like an empty element.
- A POST body that is not UTF-8 raises in `request.data.decode('utf-8')`
  outside any `try`, so Flask answers 500. The model returns `ServerError`.
- For a kind other than `"text"` and `"image"`, the parse result has neither
  content nor picture URL.
- Every parse failure gives the same all-`None` tuple (`NoMessage`), with no
  reason attached.
- The command line `process_message` builds does not always hand
  `command.py` exactly four arguments (see Findings).

## Model

| member | source | states |
|---|---|---|
| Xml.FirstIndex | workapi.py:64-65 | when some element has the tag, the result is the position of the first such element; otherwise None and no element has the tag (slot 0 of `getElementsByTagName`) |
| Xml.FirstText | workapi.py:64-65 | the result is the first-child data of the first element with the tag; it is None when no element has the tag or that element has no text child (the IndexError or AttributeError case) |
| Xml.FirstTextIgnoresSuffix | workapi.py:64-72 | once a tag occurs, nothing appended later changes its lookup, including later elements with the same tag |
| Xml.FirstTextAbsentFromBoth | workapi.py:64-72 | a tag missing from both halves of a document is missing from the whole |
| Xml.FirstTextIgnoresOtherTag | workapi.py:64-72 | inserting an element with a different tag at any position leaves the lookup unchanged |
| WorkApi.Param | workapi.py:90-93 | `args.get(key, '')`: the parameter's value when present, the empty string when absent |
| WorkApi.ReadMessage | workapi.py:64-74 | the result is NoMessage exactly when FromUserName or MsgType is missing, or the kind is "text" without Content, or "image" without PicUrl; otherwise it holds the first sender, the first kind, and the first Content only for "text" and the first PicUrl only for "image" |
| WorkApi.ParseXmlMessage | workapi.py:58-77 | text that does not parse gives NoMessage; otherwise the result is ReadMessage of the document; there is never a partial result: either nothing, or a sender and a kind with exactly the body field that kind calls for |
| WorkApi.VerifyUrl | workapi.py:88-99 | the four parameters reach VerifyURL, absent ones as ""; a non-zero status answers exactly "failed", status 0 answers the returned plaintext unchanged |
| WorkApi.Decrypt | workapi.py:103-108 | None exactly when the body is not UTF-8; otherwise the DecryptMsg reply for the decoded body and the three parameters, absent ones as "" |
| WorkApi.HandleMessage | workapi.py:101-125 | a non-UTF-8 body gives 500; a non-zero DecryptMsg status gives "failed" with no job; a failed parse (no XML, no FromUserName, no MsgType, or no Content under "text" / no PicUrl under "image") or an empty sender gives "failed" with no job; otherwise "ok", with job (sender, content, 0, 0) for "text", (sender, pic URL, 0, 1) for "image", and no job for any other kind |
| WorkApi.Webhook | workapi.py:80-86 | GET answers `verify_url` with no job, POST is `handle_message`, and any other method is 405 with no job |
| Dispatch.ProcessMessage | workapi.py:50-56 | the job started carries the command-line arguments name, content, `str(channel)`, `str(msg_type)` in that order |
| Dispatch.Digits | workapi.py:53 | the decimal form of a natural number is non-empty, is all digits, has no leading zero, and starts with "0" exactly for 0 |
| Dispatch.DigitsRoundTrip | workapi.py:53 | reading the decimal digits back gives the number |
| Dispatch.IntToString | workapi.py:53 | `str(n)` is non-empty, starts with "-" exactly when n is negative, and is decimal digits after that sign |
| Dispatch.IntToStringRoundTrip | workapi.py:53 | for every int, `str(n)` has the shape of `str`'s output (optional "-", at least one digit, no leading zero, no "-0") and `int` reads it back as n |
| Dispatch.SmallCodes | workapi.py:120-123 | the channel 0 and type codes 0 and 1 render as "0" and "1" |
| Properties.SameLookupAfterAppend | workapi.py:64-72 | appending elements never changes the lookup of a tag, as long as every appended element with that tag comes after an earlier one |
| Properties.ReadMessageIgnoresLaterRepeats | workapi.py:64-74 | appending elements that only repeat tags already present, or carry tags the parser never reads, leaves the parse unchanged, because the first occurrence is used |
| Properties.ReadMessageIgnoresOtherTags | workapi.py:64-74 | an element whose tag is none of FromUserName, MsgType, Content or PicUrl may be inserted anywhere without changing the parse |
| Properties.ReadTextExample | workapi.py:64-74 | a text message from "alice" saying "hi" parses to ("alice", "hi", None, "text") |
| Properties.ReadTextWithoutContentExample | workapi.py:69-70 | a "text" document without Content fails as a whole, even though it has a PicUrl; it never gets empty content |
| Properties.ReadEmptyContentElementExample | workapi.py:70 | when the first Content has no child node, the parse fails, even if a later Content has text |
| Properties.ReadKindIsCaseSensitiveExample | workapi.py:69-74 | "Text" is not "text": the parse succeeds with no content and the kind "Text" |
| Properties.EndToEndTextExample | workapi.py:80-125 | a POST that decrypts to a text message from "bob" saying "hello" starts exactly the job ("bob", "hello", 0, 0) and answers "ok" |
| Properties.EndToEndUnknownKindExample | workapi.py:113-125 | a "voice" message answers "ok" and starts no job |
| Properties.RejectedPostIgnoresParser | workapi.py:108-111 | when DecryptMsg rejects, the outcome does not depend on the parser at all, and is "failed" with no job |
| Properties.OnlyPostDispatches | workapi.py:80-99 | GET and every method other than POST start no job |
| Properties.DispatchSound | workapi.py:101-125 | a started job means decryption succeeded and the plaintext parsed; the job's sender is the first FromUserName and is non-empty; it is on channel 0; and it has type 0 with the first Content under kind "text", or type 1 with the first PicUrl under kind "image"; the answer is "ok" |
| Properties.DispatchComplete | workapi.py:101-125 | conversely, when decryption succeeds and the decrypted document has those fields, handling answers "ok" and starts exactly that job |
| Shell.ScanEscaped | workapi.py:53 | inside an open single quote, the escaped form of a string followed by the closing quote adds exactly that string to the current word |
| Shell.ScanQuoted | workapi.py:53 | a line of blank-separated quoted arguments splits into exactly those arguments |
| Shell.ScanPlain | workapi.py:53 | a run of ordinary characters extends the current word by itself |
| Shell.ScanPrefix | workapi.py:53 | `python3 command.py` yields the first two words |
| Shell.EscapeWithoutQuote | workapi.py:53 | escaping changes nothing in a string without a single quote |
| Shell.CommandAsWritten | workapi.py:53 | the line is the source's f-string: `python3 command.py` followed by the sender, the content, `str(channel)` and `str(msg_type)`, each between single quotes, separated by blanks, nothing escaped |
| Shell.Command | workapi.py:53 | the corrected line is the same f-string with every `'{..}'` replaced by the argument's Quote (the argument between single quotes, each `'` in it written `'\''`) |
| Shell.PastedWithoutQuotes | workapi.py:53 | pasting arguments between quotes is the same as quoting them properly when no argument contains a single quote |
| Shell.AsWrittenWithoutQuotes | workapi.py:53 | the command line as written equals the corrected one whenever no argument contains a single quote |
| Shell.PastedQuotePair | workapi.py:53 | an argument `p' 'q` pasted unescaped reads as the two properly quoted arguments `p` and `q` |
| Shell.AsWrittenSplitsQuotedContent | workapi.py:53 | as written, text content `a' 'b` from "bob" reaches the handler as seven words: two content arguments, with the channel pushed into the type slot |
| Shell.CommandRoundTrip | workapi.py:53 | the corrected command line splits into `python3`, `command.py` and exactly the job's four arguments, whatever characters they contain |

## Findings

| source | as written | input that shows it | evidently intended | confidence | as-written member | corrected member |
|---|---|---|---|---|---|---|
| workapi.py:53 | each argument is pasted between single quotes and nothing in it is escaped, then the line is run by `/bin/sh` | a text message whose content is `a' 'b` | the handler receives exactly four arguments: sender, content, channel and type | high for the argument split; not executed | Shell.AsWrittenSplitsQuotedContent | Shell.CommandRoundTrip |

A content with an odd number of quotes, such as `it's`, leaves a quote
unterminated, and sh refuses the whole line. Unquoted shell operators in the
content, such as `'; cmd; '`, let it run other commands. The model's
tokenizer does not assign words to such lines (`Split` gives `None`). The
corrected line, `Command`, quotes each argument in full and writes every
quote as `'\''`. `CommandRoundTrip` proves it delivers the four arguments for
every job.

## Left out

- Flask plumbing is not modelled: the app, the route decorator, `request`,
  `abort` and `app.run`. Methods are matched as the strings `request.method`
  carries. Requests that Flask answers itself before `webhook` runs are
  outside the model: methods the route does not list get Flask's own 405, and
  OPTIONS gets Flask's automatic reply. HEAD does reach `webhook`, which
  answers it with `abort(405)`.
- How Flask fills `request.data` is not modelled. For example, form-encoded
  bodies leave it empty. The model takes the body bytes as given.
- Environment loading, the log directory, logging configuration and
  `sys.path` are configuration and I/O. Logging calls have no effect on
  results, so they are not modelled either.
- SSL certificate detection and the port choice in the `__main__` block are
  filesystem and process configuration.
- The internals of `WXBizMsgCrypt` are not modelled: the SHA-1 signature, AES
  decryption, the corp ID check and its error codes. The cipher's module is not
  part of this model, and its two entry points are parameters. So the
  signature, round-trip and tenant properties of the cipher itself are not
  stated.
- XML text parsing by `xml.dom.minidom` is a foreign library, so it is a
  parameter. Namespaces and the node types of children are folded into
  "first child has character data or not".
- The thread started by `process_message` is not modelled, nor the run of
  `os.system`, nor the `except` around the thread start. They are concurrency
  and OS process I/O. The model returns the job record, and `Shell` models only
  how the command line splits into words.
- Shell.Split: covers blanks, single quotes and backslash escapes only. It
  gives `None` for any other character that is special to sh outside quotes,
  and for an unterminated quote. So it never claims a split that sh would not
  make, but it does not say what sh does with such lines.
