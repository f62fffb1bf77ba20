# Purely Homecare chat relay — a Dafny model

`api/chat.js` is a single HTTP handler. It proxies a website chat widget to a
streaming chat-completion API. The model covers its three parts:

- **The gate** (module `CorsGate`). Every response carries four CORS headers.
  `Access-Control-Allow-Origin` echoes the caller's `Origin` only when the
  origin is on the fixed allow-list; otherwise it is the literal `"null"`.
  The request then stops early in this order: `OPTIONS` gives 204, any
  other method than `POST` gives 405, and a missing or empty API key gives 500.
- **Message normalisation** (module `Messages`). The upstream conversation
  is the fixed system prompt followed by each caller message. A role is kept
  only when it is the string `"assistant"`; every other role becomes
  `"user"`. Falsy content becomes `""`; any other content becomes its
  JavaScript string form. A null entry, an object content whose string
  conversion throws, or a `messages` field that is not an array ends the
  request in the catch-all 500 "Server error", with no upstream call.
- **The relay loop** (module `Relay`, over the text primitives in module
  `Text`). Upstream chunks are appended to a buffer, and the buffer is split
  on newlines. The unterminated last piece is carried over. Each complete
  line is handled as follows:
  - It is trimmed.
  - Blank lines and the `data: [DONE]` sentinel are skipped.
  - An optional `data:` field name is stripped, and the rest is parsed.
  - A non-empty delta is written at once.
  - A line that does not parse is skipped silently.

Module `Handler` composes the three into one request/response step. The
upstream reply is an input of that step.

The central results are proved for any cutting of the stream into chunks:

- `Relay.RelayStream` writes exactly the deltas of the complete lines of
  the concatenated stream, in order.
- After each chunk, every complete line received so far has been relayed.
- `Relay.SplitAppend` and `Relay.LinesAppend` show why carrying the
  fragment over is sound: splitting after a concatenation is the same as
  splitting the first part and then splitting its last fragment joined to
  the rest.

## Model

| member | source | states |
|---|---|---|
| CorsGate.AllowOrigin | api/chat.js:31-33 | The allowed-origin header echoes the request origin if it is on the allow-list and is `"null"` otherwise; it is never an origin outside the list |
| CorsGate.MissingOriginRejected | api/chat.js:31-33 | A request with no `Origin` header (or an empty one) is answered with `"null"` |
| CorsGate.CorsHeaders | api/chat.js:32-35 | Four headers in the order they are set: `Vary: Origin`; the allowed origin as AllowOrigin decides it, so `"null"` or a listed origin; `POST, OPTIONS` as the allowed methods; `Content-Type` as the allowed headers |
| CorsGate.HasKey | api/chat.js:38 | The key counts as set exactly when it is neither missing nor empty |
| CorsGate.Admit | api/chat.js:36-38 | The early exits in order, each as an if-and-only-if: `OPTIONS` is a pre-flight; any other non-`POST` method is refused; a `POST` without a non-empty key fails; only a `POST` with a key proceeds |
| CorsGate.EarlyStatus | api/chat.js:36-38 | A pre-flight is answered with a success status, a refusal or missing key with an error status |
| Messages.Truthy | api/chat.js:46 | Exactly `undefined`, `null`, `false`, `0` and `""` are falsy; every object is truthy |
| Messages.Or | api/chat.js:46 | `a \|\| b` is one of its operands, and is truthy exactly when either operand is |
| Messages.Digits | api/chat.js:46 | The decimal rendering of a number is a non-empty run of digits without a leading zero, a single digit exactly for numbers below ten |
| Messages.LeadingDigitValue | api/chat.js:46 | Digits that do not start with zero have a value of at least one |
| Messages.CanonicalDigits | api/chat.js:46 | Every digit run without a leading zero is the rendering of its value, so the rendering of a number is the only such run with that value |
| Messages.DigitsRoundTrip | api/chat.js:46 | Reading the decimal rendering back gives the number |
| Messages.ToText | api/chat.js:46 | `String()` throws exactly for an object none of whose conversions yields a primitive; of a string it is that string; of a number it is the minus sign for a negative one followed by the digits of its magnitude without leading zeros; of `true`, `false`, `null` and `undefined` it is their names; of an object it is the object's own conversion (for an array, its elements joined by commas) |
| Messages.Normalize | api/chat.js:44-47 | Throws exactly for a null entry or content whose `String()` throws; otherwise the role is `"assistant"` exactly when the caller's role is that string and `"user"` exactly otherwise, falsy content becomes `""`, and truthy content becomes its string form |
| Messages.NormalizeIdempotent | api/chat.js:44-47 | Normalising an already normalised message again leaves it unchanged |
| Messages.ChatMessages | api/chat.js:42-48 | The list is built exactly when no caller message throws; it is then one longer than the caller's, starts with the system prompt, and its entry i+1 is caller message i normalised |
| Messages.OnlyFirstIsSystem | api/chat.js:42-48 | Every entry after the first has role `"assistant"` or `"user"`: a caller cannot inject a system message |
| Messages.OneBadEntryAborts | api/chat.js:42-48 | One throwing entry, wherever it stands, aborts the whole list |
| Handler.CallerMessages | api/chat.js:41 | A missing body or a body without `messages` gives no messages; an array is used as it is; any other `messages` value throws |
| Handler.Outbound | api/chat.js:41-48 | The upstream list exists exactly when the caller's messages are an array (or absent) and none of them throws, and it is then the normalised list |
| Handler.Handle | api/chat.js:30-96 | The CORS headers come first on every response; `OPTIONS` gives exactly an empty 204; 405 and 500 carry their error and make no upstream call; a conversation that throws gives the catch-all 500 "Server error" with no upstream call; the upstream call is made if and only if the method is `POST`, a key is set and the conversation is built, with the bearer key, the configured model, the normalised messages, temperature 0.3 and streaming on; a failed or bodiless reply gives 502 with its text; otherwise 200, plain-text content type, and the relayed deltas of the whole stream |
| Text.LeadingSpace | api/chat.js:83 | The length of the whitespace run at the front of a string, maximal |
| Text.TrailingSpace | api/chat.js:83 | The length of the whitespace run at the back of a string, maximal |
| Text.Trim | api/chat.js:83 | The trimmed text has no whitespace at either end, is no longer than the input, and is empty exactly when the input is all whitespace |
| Text.TrimPadded | api/chat.js:83-85 | Trimming removes exactly the whitespace padding around an already trimmed text |
| Text.TrimTrimmed | api/chat.js:83 | Trimming a trimmed text leaves it unchanged |
| Text.Split | api/chat.js:80 | Splitting on newlines always yields at least one piece |
| Text.SplitNoNewline | api/chat.js:80 | No piece of a split contains a newline |
| Text.JoinSplit | api/chat.js:80 | Joining the pieces with newlines gives back the text |
| Text.SplitJoin | api/chat.js:80 | Splitting the newline-join of newline-free pieces gives back the pieces |
| Text.NoNewlineSplit | api/chat.js:80 | A newline-free text splits into itself alone |
| Text.SplitPrefix | api/chat.js:80 | A text without a newline in front of another joins the other's first piece |
| Text.JoinAppend | api/chat.js:80 | The join of two non-empty lists is the two joins separated by a newline |
| Text.JoinLast | api/chat.js:80-81 | The join of a list is the join of all but its last piece, a newline, and the last piece |
| Text.IsSpace | api/chat.js:83 | The characters `trim()` removes: ECMAScript WhiteSpace and LineTerminator |
| Relay.Classify | api/chat.js:83-85 | A line is blank exactly when it is all whitespace; a payload is always trimmed |
| Relay.CompleteLines | api/chat.js:80-81 | The processed lines are all pieces of the split but the last, which is popped into the buffer |
| Relay.Pending | api/chat.js:80-81 | The popped fragment carried in the buffer never holds a newline |
| Relay.ClassifySpec | api/chat.js:83-85 | A line is blank exactly when it is all whitespace, is the sentinel exactly when it trims to it, and otherwise yields a trimmed payload no longer than the line, the trimmed line itself when it has no `data:` prefix |
| Relay.ClassifyDataField | api/chat.js:83-85 | A `data:` line with whitespace anywhere around the field name and the payload (none, several, before the line, after it) yields the trimmed payload unless it is the sentinel |
| Relay.ClassifyDataLine | api/chat.js:83-85 | A `data: ` line with a trimmed, non-empty, non-sentinel payload yields that payload |
| Relay.LineDelta | api/chat.js:83-90 | A line never writes an empty delta |
| Relay.LineDeltaSpec | api/chat.js:83-90 | Blank and sentinel lines write nothing; any other line writes exactly when its payload parses to a non-empty delta, and writes that delta |
| Relay.EmitSpec | api/chat.js:82-91 | The inner loop writes at most once per line and never an empty string |
| Relay.EmitAppend | api/chat.js:82-91 | The writes for two runs of lines are the writes for the first followed by those for the second |
| Relay.SilentLineSkipped | api/chat.js:84-90 | A line that writes nothing (blank, sentinel, unparsable, without delta) does not stop or alter the writes of the lines after it |
| Relay.WriteLines | api/chat.js:82-91 | The inner loop writes exactly the deltas of its lines, in order |
| Relay.FramingInvariant | api/chat.js:78-81 | The carried-over fragment has no newline, and the complete lines, a newline and the fragment rebuild the received text |
| Relay.SplitAppend | api/chat.js:78-81 | Splitting a concatenation equals the complete lines of the first part followed by the split of its fragment joined to the rest |
| Relay.JoinLinesAppend | api/chat.js:78-81 | The complete lines of the first part, a newline and the fragment joined to the rest rebuild the concatenation |
| Relay.LinesAppendNewlineFree | api/chat.js:78-81 | The complete lines of the first part and the pieces of its fragment joined to the rest are newline-free |
| Relay.LinesAppend | api/chat.js:78-81 | Receiving more text keeps the complete lines so far and adds those of the carried fragment plus the new text; the fragment is computed the same way |
| Relay.RelayAppend | api/chat.js:75-91 | The deltas of a concatenation are the deltas of the first part followed by those of its fragment joined to the rest |
| Relay.RelayPrefix | api/chat.js:75-91 | Receiving more text only appends writes: earlier writes are never changed or withdrawn |
| Relay.TailNeverEmitted | api/chat.js:75-93 | Appending text without a newline writes nothing more and only grows the buffer: a final event not followed by a newline is never written |
| Relay.WholeLines | api/chat.js:80-81 | Newline-terminated lines are exactly the complete lines of their text |
| Relay.RelayWholeLines | api/chat.js:75-91 | Newline-terminated lines are relayed line by line |
| Relay.MarkChunk | api/chat.js:75-91 | Writing more keeps every earlier chunk's mark, and the newly handled chunk is marked at the current end of the writes |
| Relay.RelayStream | api/chat.js:73-92 | For any chunking, the writes are the deltas of all complete lines of the concatenated stream; the leftover buffer is the newline-free fragment after the last newline; the lines the loop has processed are always the complete lines received so far; after each chunk the writes so far are the deltas of everything received so far |
| Relay.ExampleStream | api/chat.js:73-92 | A two-event stream with a keep-alive comment, a blank line and the sentinel writes exactly its two deltas, in order, however it is chunked |
| Relay.ExampleDeltas | api/chat.js:82-91 | The lines of that example stream write the two deltas |
| Relay.DataLineDelta | api/chat.js:83-89 | A `data: ` line whose payload parses to a non-empty delta writes that delta |
| Relay.BlankLineDelta | api/chat.js:84 | An empty line writes nothing |
| Relay.SentinelDelta | api/chat.js:84 | The sentinel line writes nothing |
| Relay.KeepAliveLine | api/chat.js:85-90 | A comment line that does not parse writes nothing |
| Relay.EmitTwoOfFive | api/chat.js:82-91 | Five lines of which only the first and third write yield exactly those two writes |

Proof steps about strings and sequences, with no row of their own:
`Relay.DataFieldShape`, `Relay.ClassifyPayload` and `Relay.DataSpaceLine`
(used by `Relay.ClassifyDataField` and `Relay.ClassifyDataLine`), and
`Relay.ExampleLinesNewlineFree` and `Relay.SentinelTrimmed` (used by the
example stream).

## Left out

- The network call (api/chat.js:50-62). Its reply is an input of `Handler.Handle`. This input records whether the reply is ok, whether it has a body, its error text and its body's chunks. The request the handler would send is recorded in the response.
- The body encoding (JSON) and the request headers of that call are not modelled.
- JSON parsing and the path to the delta (api/chat.js:87-89) are the parameter `extract`. For a payload it gives the string form of a truthy delta, and None when anything in the guarded block throws or the delta is falsy.
- LineDelta: a truthy delta whose string form is empty (an empty array) is a zero-byte write in the source; the model records no write, so the bytes sent are the same.
- The byte level: `TextDecoder` and `TextEncoder`. Chunks are already-decoded strings. A multi-byte character split across chunks is therefore not modelled.
- The decoder is never flushed after the last chunk; the model has no undecoded-byte state to carry that.
- The response object. It is a value: status, headers in the order they are set, and a body. For a stream, the body is the sequence of writes; `res.end()` closes it.
- The JSON content type and serialisation of error bodies are left out.
- Asynchrony. Exceptions from code that is not modelled (a network failure, a failing read of the upstream body) would also reach the catch-all 500 (api/chat.js:94-96); those are not modelled. The exceptions thrown while building the conversation are.
- Handle: a `messages` value that is not an array but has a `map` method of its own is treated like any other non-array, as throwing.
- Normalize: property getters on a message that throw or return different values on each read are not modelled; a message entry is its `role` and `content` values.
- Environment loading and the system prompt text (api/chat.js:4-28). The key, the model name and the prompt are fields of `Handler.Config`.
- Messages.ToText: numbers are the integers of magnitude below 2^53, which `String()` renders as their plain digits. Fractional numbers, `NaN`, infinities and integers of magnitude 2^53 or more (whose rendering rounds to shortest round-trip digits or uses an exponent) are not modelled.
- The allow-list is the fixed list at api/chat.js:8; it has no wildcard setting.
- Text after the last newline when the stream ends is dropped (api/chat.js:77, 93; see `Relay.TailNeverEmitted`).
