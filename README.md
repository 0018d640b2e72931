# jrpc core, modelled in Dafny

This project models the core of jrpc, a JSON-RPC 2.0 server framework written in C++.
It has four layers, each modelled as the source has it:

- **cppJson.** A streaming JSON reader and writer with string streams:
  - the reader is a set of methods over a read stream, proved equal to a positional specification;
  - the writer is a class with a stack of open levels;
  - the buffer is a class with a string field.
- **RPC engine.** The request validation, routing and batch handling of `RpcServer`, `Procedure` and `RpcService`:
  - the framing of `BaseServer`: a decimal length line, then the JSON body followed by CRLF;
  - the success-response builder of `util.h`.
- **Stub generator.** The text templates and generators of `ServiceStubGenerator`.
- **libnet.** The event-loop objects of the networking library:
  - `Timer` and `TimerQueue` (timers ordered by expiry, rearmed when they repeat);
  - `Channel` and `EPoller` (interest masks, `epoll_ctl` requests, callback dispatch);
  - `TcpConnection` (its state machine, output buffer, high-water mark and half-close);
  - `TcpServerSingle` and `TcpClient`.

System calls, the clock and the callbacks the user installs are parameters or logs:
- a `write` or `read` result is an argument of the method that makes the call;
- `epoll_ctl` calls are appended to the poller's `requests`;
- callbacks are recorded in `notices`, `fired` and `announced`.

The main properties proved are:
- **JSON.** The reader follows its specification on every input, and reading what the writer wrote gives the value back (`RoundTrip.ParseTextRoundTrip`).
- **Framing.** A framed response is decoded back to its body (`BaseServer.FrameRoundTrip`, `BaseServer.ResponseReadBack`).
- **Requests.** Every request gets exactly the error the source throws (`RpcServer.*`).
- **Stubs.** Every template placeholder is replaced except the one the source forgets. The generated stub keeps that `[NotifyName]` text, as the source does (see Findings).
- **Timers.** The timer queue stays ordered, and each expired timer fires once per expiry.
- **Connections.**
  - Unless the direct write fails with EPIPE or ECONNRESET, bytes handed to `send` reach the wire in order, with nothing lost (`Connections.Conserve` and the `SendInLoop` contract). On such a fault the unwritten bytes are dropped, as in the source.
  - The high-water callback fires at most once per crossing.

## Model

| member | source | states |
|---|---|---|
| ReadStreams.StringReadStream.constructor | include/cppJson/cppJson/StringReadStream.h:17-21 | the stream starts at the first byte of the given text |
| ReadStreams.StringReadStream.HasNext | include/cppJson/cppJson/StringReadStream.h:23-24 | true exactly while the cursor is before the end |
| ReadStreams.StringReadStream.Peek | include/cppJson/cppJson/StringReadStream.h:26-29 | the byte under the cursor, or NUL at the end |
| ReadStreams.StringReadStream.GetIter | include/cppJson/cppJson/StringReadStream.h:31-34 | the cursor position |
| ReadStreams.StringReadStream.Next | include/cppJson/cppJson/StringReadStream.h:36-44 | returns the byte under the cursor (NUL at the end) and advances by one unless at the end |
| ReadStreams.StringReadStream.AssertNext | include/cppJson/cppJson/StringReadStream.h:46-50 | consumes the expected byte: the cursor advances by one (or stays at the end for NUL) |
| ReadStreams.FirstEmpty | include/cppJson/cppJson/FileReadStream.h:56-65 | index of the first empty chunk: every chunk before it is non-empty |
| ReadStreams.FileReadStream.constructor | include/cppJson/cppJson/FileReadStream.h:19-25 | the buffer is every chunk read before the first empty read, concatenated; cursor at 0 |
| ReadStreams.FileReadStream.HasNext | include/cppJson/cppJson/FileReadStream.h:27-28 | true exactly while the cursor is before the end of the buffer |
| ReadStreams.FileReadStream.Next | include/cppJson/cppJson/FileReadStream.h:30-38 | returns the byte under the cursor (NUL at the end) and advances unless at the end |
| ReadStreams.FileReadStream.Peek | include/cppJson/cppJson/FileReadStream.h:40-43 | the byte under the cursor, or NUL at the end |
| ReadStreams.FileReadStream.GetIter | include/cppJson/cppJson/FileReadStream.h:45-46 | the cursor position |
| ReadStreams.FileReadStream.AssertNext | include/cppJson/cppJson/FileReadStream.h:48-52 | consumes the expected byte |
| WriteStream.StringWriteStream.constructor | include/cppJson/cppJson/StringWriteStream.h:29-30 | a new stream holds no bytes |
| WriteStream.StringWriteStream.PutChar | include/cppJson/cppJson/StringWriteStream.h:14-17 | appends exactly one byte |
| WriteStream.StringWriteStream.PutStr | include/cppJson/cppJson/StringWriteStream.h:19-22 | appends exactly the given bytes |
| WriteStream.StringWriteStream.Get | include/cppJson/cppJson/StringWriteStream.h:24-27 | the whole text written so far, which must be non-empty |
| Writer.JsonWriter.constructor | include/cppJson/cppJson/Writer.h:29-32 | a writer starts with no open level and no value seen |
| Writer.JsonWriter.Prefix | include/cppJson/cppJson/Writer.h:173-198 | writes the separator the open levels call for (none at the root; `,` between array elements and members; `:` after a key) and counts the item |
| Writer.JsonWriter.Null | include/cppJson/cppJson/Writer.h:34-39 | writes the separator, then `null` |
| Writer.JsonWriter.Bool | include/cppJson/cppJson/Writer.h:41-46 | writes the separator, then `true` or `false` |
| Writer.JsonWriter.Int32 | include/cppJson/cppJson/Writer.h:48-56 | writes the separator, then the decimal text of the number |
| Writer.JsonWriter.Int64 | include/cppJson/cppJson/Writer.h:58-66 | writes the separator, then the decimal text of the number |
| Writer.JsonWriter.Double | include/cppJson/cppJson/Writer.h:68-97 | writes the separator, then the given formatted text (formatting is a parameter) |
| Writer.JsonWriter.String | include/cppJson/cppJson/Writer.h:99-126 | writes the separator and the string quoted, with `"` and `\` and control bytes escaped |
| Writer.JsonWriter.Key | include/cppJson/cppJson/Writer.h:136-143 | writes the separator and the key quoted, without escaping |
| Writer.JsonWriter.StartObject | include/cppJson/cppJson/Writer.h:128-134 | writes the separator and `{` and opens an object level |
| Writer.JsonWriter.EndObject | include/cppJson/cppJson/Writer.h:145-152 | writes `}` and closes the innermost level, which must be an object |
| Writer.JsonWriter.StartArray | include/cppJson/cppJson/Writer.h:154-160 | writes the separator and `[` and opens an array level |
| Writer.JsonWriter.EndArray | include/cppJson/cppJson/Writer.h:162-169 | writes `]` and closes the innermost level, which must be an array |
| Writer.WriteValue | include/cppJson/cppJson/Writer.h:34-169 | driving the writer over a value appends exactly the value's JSON text `Text(v)` |
| Writer.WriteArray | include/cppJson/cppJson/Writer.h:154-169 | an array's events append `[`, its elements' texts joined by `,`, and `]` |
| Writer.WriteObject | include/cppJson/cppJson/Writer.h:128-152 | an object's events append `{`, its members joined by `,`, and `}` |
| Writer.ElementsTextSnoc | include/cppJson/cppJson/Writer.h:173-198 | one more element adds exactly a `,` (unless it is the first) and its text |
| Writer.MembersTextSnoc | include/cppJson/cppJson/Writer.h:173-198 | one more member adds exactly a `,` (unless it is the first) and its text |
| ReaderSpec.SkipWs | include/cppJson/cppJson/Reader.h:60-70 | whitespace skipping stops at the first byte that is not space, tab, CR or LF, or at the end |
| ReaderSpec.SkipWsSkipsWhitespace | include/cppJson/cppJson/Reader.h:60-70 | every skipped byte is whitespace |
| ReaderSpec.PLiteral | include/cppJson/cppJson/Reader.h:72-93 | a literal parses exactly when the whole word is present, and fails with BadValue otherwise |
| ReaderSpec.Clamp64 | include/cppJson/cppJson/Reader.h:189 | the `strtol` result is saturated to the 64-bit range and exact inside it |
| ReaderSpec.Hex4 | include/cppJson/cppJson/Reader.h:43-58 | four hex digits give a value below 0x10000 |
| ReaderSpec.PCodePoint | include/cppJson/cppJson/Reader.h:246-259 | a `\u` escape, surrogate pairs joined, gives a code point below 0x110000 |
| ReaderSpec.Utf8 | include/cppJson/cppJson/Reader.h:260 | a code point is encoded in one to four bytes, ASCII as itself |
| ReaderSpec.ParseText | include/cppJson/cppJson/Reader.h:24-37 | the document-level result; a failure never carries ParseOk |
| Reader.ParseWhitespace | include/cppJson/cppJson/Reader.h:60-70 | moves the stream cursor to `SkipWs` of where it was |
| Reader.ParseHex4 | include/cppJson/cppJson/Reader.h:43-58 | reads four hex digits and returns their value, or BadUnicodeHex, as `Hex4` says |
| Reader.ParseLiteral | include/cppJson/cppJson/Reader.h:72-93 | agrees with `PLiteral`: same error, same handler events, same end position |
| Reader.ParseNumber | include/cppJson/cppJson/Reader.h:95-129 | agrees with `PNumber` (sign, integer part, no leading zero, NaN and Infinity) |
| Reader.ParseFraction | include/cppJson/cppJson/Reader.h:133-141 | agrees with `PFraction` |
| Reader.ParseExponent | include/cppJson/cppJson/Reader.h:143-153 | agrees with `PExponent` |
| Reader.ParseSuffix | include/cppJson/cppJson/Reader.h:155-214 | agrees with `PSuffix`: the `i32`/`i64` suffixes, strtol conversion, Int32 when it fits |
| Reader.ParseCodePoint | include/cppJson/cppJson/Reader.h:246-259 | agrees with `PCodePoint` |
| Reader.ParseEscape | include/cppJson/cppJson/Reader.h:237-264 | agrees with `PEscape` |
| Reader.ParseString | include/cppJson/cppJson/Reader.h:217-270 | agrees with `PString` and reports a Key or a String event |
| Reader.ParseValue | include/cppJson/cppJson/Reader.h:345-360 | agrees with `PValue`: dispatch on the first byte, ExpectValue at the end |
| Reader.ParseArray | include/cppJson/cppJson/Reader.h:272-299 | agrees with `PArray`, events StartArray … EndArray |
| Reader.ParseElements | include/cppJson/cppJson/Reader.h:285-298 | the element loop agrees with `PElements` |
| Reader.ParseElement | include/cppJson/cppJson/Reader.h:286-297 | one element and its `,` or `]` advance `PElements` by one value |
| Reader.ParseObject | include/cppJson/cppJson/Reader.h:301-341 | agrees with `PObject`, events StartObject … EndObject |
| Reader.ParseMembers | include/cppJson/cppJson/Reader.h:314-340 | the member loop agrees with `PMembers` |
| Reader.ParseMemberTurn | include/cppJson/cppJson/Reader.h:314-339 | one member and its `,` or `}` advance `PMembers` by one member |
| Reader.ParseMember | include/cppJson/cppJson/Reader.h:316-328 | agrees with `PMember`: key, colon, value |
| Reader.Parse | include/cppJson/cppJson/Reader.h:24-37 | the whole document: ParseOk with the value's events and nothing left, or `ParseText`'s error |
| ReaderProperties.SkipWsToEnd | include/cppJson/cppJson/Reader.h:60-70 | skipping reaches the end exactly when only whitespace remains |
| ReaderProperties.BlankExpectsValue | include/cppJson/cppJson/Reader.h:348-349 | an empty or blank document fails with ExpectValue |
| ReaderProperties.ParseTextSingular | include/cppJson/cppJson/Reader.h:24-37 | a document parses exactly when one value is followed only by whitespace, and that value is the result |
| ReaderProperties.TrailingBytesNotSingular | include/cppJson/cppJson/Reader.h:30-32 | a non-blank byte after the value gives RootNotSingular |
| ReaderProperties.LeadingZeroRejected | include/cppJson/cppJson/Reader.h:116-121 | a zero followed by a digit is a bad value |
| ReaderProperties.IntegerPartRequired | include/cppJson/cppJson/Reader.h:122-129 | a `-` not followed by a digit is a bad value |
| ReaderProperties.FractionNeedsDigit | include/cppJson/cppJson/Reader.h:133-138 | a `.` must be followed by a digit |
| ReaderProperties.ExponentNeedsDigit | include/cppJson/cppJson/Reader.h:143-150 | an exponent, after its optional sign, must start with a digit |
| ReaderProperties.SuffixAfterDoubleRejected | include/cppJson/cppJson/Reader.h:156-159 | a double cannot carry an integer suffix |
| ReaderProperties.IntegerSuffixes | include/cppJson/cppJson/Reader.h:160-200 | `i32` gives Int32 or NumberTooBig, `i64` gives Int64, anything else after `i` is a bad value |
| ReaderProperties.UnsuffixedInteger | include/cppJson/cppJson/Reader.h:202-209 | an unsuffixed integer is Int32 when it fits and Int64 otherwise |
| ReaderProperties.ControlByteRejected | include/cppJson/cppJson/Reader.h:234-235 | a raw control byte in a string is BadStringChar |
| ReaderProperties.UnterminatedString | include/cppJson/cppJson/Reader.h:222-269 | a string that runs out is MissQuotationMark |
| ReaderProperties.EscapeLetters | include/cppJson/cppJson/Reader.h:237-263 | BadStringEscape exactly when the letter is not one of the nine escapes |
| ReaderProperties.BadHexRejected | include/cppJson/cppJson/Reader.h:43-58 | `\u` without four hex digits is BadUnicodeHex |
| ReaderProperties.LoneHighSurrogate | include/cppJson/cppJson/Reader.h:249-253 | a high surrogate not followed by `\u` is BadUnicodeSurrogate |
| ReaderProperties.SurrogatePair | include/cppJson/cppJson/Reader.h:254-258 | a high and a low surrogate combine to a code point in 0x10000..0x10FFFF; any other second half is BadUnicodeSurrogate |
| ReaderProperties.LiteralsInFull | include/cppJson/cppJson/Reader.h:351-354 | `null`, `true`, `false`, `NaN` and `Infinity` parse exactly when spelled in full |
| ReaderProperties.MemberNeedsKey | include/cppJson/cppJson/Reader.h:316-317 | a member that does not start with `"` is MissKey |
| ReaderProperties.EmptyContainers | include/cppJson/cppJson/Reader.h:277-283 | `[ ]` and `{ }` with inner whitespace parse as empty containers |
| RoundTrip.NumberRoundTrip | include/cppJson/cppJson/Writer.h:48-66 | the decimal text of any 64-bit integer is read back as that integer, in its narrowest type |
| RoundTrip.StringBodyRoundTrip | include/cppJson/cppJson/Writer.h:99-126 | the escaped body of any string is read back as that string |
| RoundTrip.StringRoundTrip | include/cppJson/cppJson/Writer.h:99-126 | a written string value is read back unchanged |
| RoundTrip.LiteralRoundTrip | include/cppJson/cppJson/Writer.h:34-46 | `null`, `true` and `false` read back as themselves |
| RoundTrip.IntegerRoundTrip | include/cppJson/cppJson/Writer.h:48-66 | a written integer value reads back as the narrowest integer value |
| RoundTrip.KeyRoundTrip | include/cppJson/cppJson/Writer.h:136-143 | a key without `"`, `\` or control bytes is read back unchanged |
| RoundTrip.MemberRoundTrip | include/cppJson/cppJson/Writer.h:136-143 | a written member reads back as the member |
| RoundTrip.ArrayRoundTrip | include/cppJson/cppJson/Writer.h:154-169 | a written array reads back element by element |
| RoundTrip.ElementsRoundTrip | include/cppJson/cppJson/Reader.h:285-298 | the comma-joined element texts are read back as the elements |
| RoundTrip.ObjectRoundTrip | include/cppJson/cppJson/Writer.h:128-152 | a written object reads back member by member, in order |
| RoundTrip.MembersRoundTrip | include/cppJson/cppJson/Reader.h:314-340 | the comma-joined member texts are read back as the members |
| RoundTrip.ValueRoundTrip | include/cppJson/cppJson/Reader.h:345-360 | any writable value's text, wherever it occurs, reads back as the value |
| RoundTrip.ParseTextRoundTrip | include/cppJson/cppJson/Reader.h:24-37 | parsing what the writer wrote gives the value back (integers narrowed) |
| RoundTrip.ParseTextThenCRLF | jrpc/server/BaseServer.cc:175-188 | the same holds with the trailing CRLF the server appends |
| RpcErrors.CodeInjective | jrpc/server/BaseServer.cc:163-173 | distinct error kinds are written with distinct codes |
| RpcErrors.NoIdError | jrpc/server/RpcServer.cc:14-36 | an exception thrown before the id is known carries a null id |
| Procedure.Pairs | jrpc/server/Procedure.h:34-51 | the constructor's name/type arguments become one parameter per pair, in order |
| Procedure.Procedure.constructor | jrpc/server/Procedure.h:17-27 | the procedure keeps its callback and the paired parameter list |
| Procedure.PositionalMatch | jrpc/server/Procedure.cc:65-70 | positional parameters match exactly when every element has the declared type |
| Procedure.NamedMatch | jrpc/server/Procedure.cc:71-78 | named parameters match exactly when every name is present with the declared type |
| Procedure.Procedure.ValidateGeneric | jrpc/server/Procedure.cc:51-83 | without `params` valid exactly when no parameter is declared; with them, valid exactly when the sizes agree, are non-zero, and every argument matches by position or name |
| Procedure.ValidateReturn | jrpc/server/Procedure.cc:14-30 | no exception exactly when the request is a container and the params validate; otherwise INVALID_PARAMS (or INVALID_REQUEST) with the request's id |
| Procedure.ValidateNotify | jrpc/server/Procedure.cc:32-46 | the same check for notifications, without id |
| Procedure.InvokeReturn | jrpc/server/Procedure.cc:85-93 | a valid request calls the callback once and its response is the one `done` gets; otherwise the validation error |
| Procedure.InvokeNotify | jrpc/server/Procedure.cc:95-100 | a valid notification is handed to the callback; nothing is answered |
| Procedure.NoParamsProcedure | jrpc/server/Procedure.cc:54-57 | a procedure without parameters accepts exactly the requests without `params` |
| RpcService.RpcService.constructor | jrpc/server/RpcService.h:38-39 | a service starts with no procedures |
| RpcService.RpcService.AddProcedureReturn | jrpc/server/RpcService.h:17-21 | registers one procedure under a new name, leaving notifications alone |
| RpcService.RpcService.AddProcedureNotify | jrpc/server/RpcService.h:23-27 | registers one notification under a new name, leaving procedures alone |
| RpcService.RpcService.CallReturn | jrpc/server/RpcService.cc:10-17 | an unknown name is METHOD_NOT_FOUND with the request's id; a known one invokes that procedure |
| RpcService.RpcService.CallNotify | jrpc/server/RpcService.cc:22-26 | an unknown name is METHOD_NOT_FOUND; a known one invokes that notification |
| RpcService.RegistriesIndependent | jrpc/server/RpcService.h:17-39 | a procedure and a notification may share a name without interfering |
| RpcUtil.UserDoneCallback.Respond | jrpc/util.h:53-61 | the response is `{"jsonrpc":"2.0","id":…,"result":…}` with the request's id, and carries no `error` |
| ServerWire.ErrorResponseEnvelope | jrpc/server/BaseServer.cc:163-173 | an error response holds `jsonrpc` 2.0, the error object and the id, and no `result` |
| ServerWire.ErrorObjectFields | jrpc/server/BaseServer.cc:167-170 | the error object holds the numeric code, the standard message and the detail |
| ServerWire.Frame | jrpc/server/BaseServer.cc:175-188 | a frame is the decimal length of body+CRLF, CRLF, the body and CRLF |
| RpcServer.CheckValueType | jrpc/server/RpcServer.cc:14-23 | accepts exactly the listed types; otherwise INVALID_REQUEST without id |
| RpcServer.FindValue | jrpc/server/RpcServer.cc:25-36 | the member's value when present with a listed type; a missing member is INVALID_REQUEST without id |
| RpcServer.FindValueWithId | jrpc/server/RpcServer.cc:39-67 | as `FindValue`, but the error carries the request's id |
| RpcServer.ValidateRequest | jrpc/server/RpcServer.cc:253-275 | valid exactly when the id is valid, `jsonrpc` is the string `2.0`, `method` is a string other than exactly `rpc.`, and the object has no member besides these and an optional `params` (only counted, not type-checked); an id-less failure has a null id; a method equal to `rpc.` is METHOD_NOT_FOUND |
| RpcServer.ValidateNotify | jrpc/server/RpcServer.cc:277-292 | valid exactly when the version and method are right; a bad version string is a notify error, a missing one a request error |
| RpcServer.FindChar | jrpc/server/RpcServer.cc:163-164 | the first position of the character, or none when it does not occur |
| RpcServer.FirstDotOfMethod | jrpc/server/RpcServer.cc:164-177 | `service.method` splits at the first dot into the service and the method name |
| RpcServer.RpcServer.AddService | jrpc/server/RpcServer.cc:120-124 | adds one service under a new name |
| RpcServer.RpcServer.HandleSingleRequest | jrpc/server/RpcServer.cc:157-184 | a request is answered with the procedure's response or fails with its own id (null when the id is bad) |
| RpcServer.RpcServer.HandleSingleNotify | jrpc/server/RpcServer.cc:227-248 | a notification is delivered or fails; no response is produced |
| RpcServer.RpcServer.RequestRouteErrors | jrpc/server/RpcServer.cc:163-179 | no dot, an unknown service and an empty method name give the source's three errors |
| RpcServer.RpcServer.NotifyRouteErrors | jrpc/server/RpcServer.cc:231-244 | the same three cases for notifications |
| RpcServer.RpcServer.RouteRequest | jrpc/server/RpcServer.cc:170-183 | a request is passed to the named service's procedure |
| RpcServer.RpcServer.RouteNotify | jrpc/server/RpcServer.cc:231-247 | a notification is passed to the named service |
| RpcServer.RpcServer.Batch | jrpc/server/RpcServer.cc:186-225 | a batch gives at most one response per element |
| RpcServer.RpcServer.BatchOutcome | jrpc/server/RpcServer.cc:186-225 | an empty batch fails; otherwise `done` gets one array of responses |
| RpcServer.RpcServer.BatchUnfold | jrpc/server/RpcServer.cc:194-224 | a request error becomes the response for that element and stops the batch; a notify error stops it silently; otherwise the element's output precedes the rest |
| RpcServer.RpcServer.HandleBatchRequests | jrpc/server/RpcServer.cc:186-225 | the loop computes exactly `BatchOutcome` |
| RpcServer.RpcServer.HandleRequestSpec | jrpc/server/RpcServer.cc:135-155 | a parse failure is PARSE_ERROR; a scalar document is INVALID_REQUEST; `done` is called at most once |
| RpcServer.RpcServer.HandleRequest | jrpc/server/RpcServer.cc:135-155 | the method computes exactly `HandleRequestSpec` |
| BaseServer.FindCRLF | jrpc/server/BaseServer.cc:108-110 | the first CRLF at or after the start, or none |
| BaseServer.Buffer.constructor | jrpc/server/BaseServer.cc:104 | the buffer holds the bytes received |
| BaseServer.Buffer.Retrieve | jrpc/server/BaseServer.cc:137 | drops exactly the first n bytes |
| BaseServer.Buffer.RetrieveAsString | jrpc/server/BaseServer.cc:139 | the taken bytes and the rest are the old buffer |
| BaseServer.NextFrame | jrpc/server/BaseServer.cc:108-139 | an empty line is a heartbeat; a bad length is one of the two length errors |
| BaseServer.FrameAfterHeader | jrpc/server/BaseServer.cc:119-139 | a complete frame has a positive length below the maximum, the header parses to that length, and the body is the bytes after the header |
| BaseServer.Outgoing | jrpc/server/BaseServer.cc:145-158 | null responses are not sent |
| BaseServer.HandleMessageSpec | jrpc/server/BaseServer.cc:103-160 | draining never grows the buffer |
| BaseServer.ReadFrame | jrpc/server/BaseServer.cc:108-139 | decodes `NextFrame` and consumes exactly its bytes |
| BaseServer.TakeFrame | jrpc/server/BaseServer.cc:119-139 | decodes `FrameAfterHeader` and consumes exactly its bytes |
| BaseServer.DrainTurn | jrpc/server/BaseServer.cc:106-158 | one turn of the loop either ends as `HandleMessageSpec` or shrinks the buffer and composes with the rest |
| BaseServer.HandleMessage | jrpc/server/BaseServer.cc:103-160 | the loop leaves exactly the bytes, sends exactly the frames and stops at exactly the exception `HandleMessageSpec` gives |
| BaseServer.OnMessage | jrpc/server/BaseServer.cc:53-76 | a request exception is answered with its error response and the connection shut down; a notify exception is dropped |
| BaseServer.HeaderRoundTrip | jrpc/server/BaseServer.cc:118-127 | a positive length line reads back as that Int32 |
| BaseServer.FrameRoundTrip | jrpc/server/BaseServer.cc:108-188 | a framed body, followed by anything, is decoded back to the body and CRLF |
| BaseServer.PartialFrameWaits | jrpc/server/BaseServer.cc:134-135 | any proper prefix of a frame waits for more bytes |
| BaseServer.PartialHeaderWaits | jrpc/server/BaseServer.cc:108-110 | a partial length line waits for more bytes |
| BaseServer.FrameDelivered | jrpc/server/BaseServer.cc:103-160 | one framed request is handled and its responses sent before the rest of the buffer |
| BaseServer.ResponseReadBack | jrpc/server/BaseServer.cc:175-188 | a sent response, decoded by the same framing and read back, is the response |
| BaseServer.NoLineWaits | jrpc/server/BaseServer.cc:108-111 | without a CRLF nothing is consumed or sent |
| BaseServer.HeartbeatStops | jrpc/server/BaseServer.cc:112-116 | a heartbeat line is consumed and ends the turn |
| StubGenerator.Replace | jrpc/stub/ServiceStubGenerator.cc:93-98 | replacing a placeholder changes exactly the places holding it |
| StubGenerator.FillWeave | jrpc/stub/ServiceStubGenerator.cc:93-98 | filling a template's placeholders with their values gives the template text with those values |
| StubGenerator.ServiceStubTemplateReplaces | jrpc/stub/ServiceStubGenerator.cc:37-99 | every placeholder of the service template is replaced by its value |
| StubGenerator.StubProcedureBindTemplateReplaces | jrpc/stub/ServiceStubGenerator.cc:114-134 | every placeholder of the procedure binding is replaced |
| StubGenerator.StubNotifyBindTemplateReplaces | jrpc/stub/ServiceStubGenerator.cc:136-155 | every placeholder of the notification binding is replaced |
| StubGenerator.StubProcedureDefineTemplateReplaces | jrpc/stub/ServiceStubGenerator.cc:183-210 | every placeholder of the procedure definition is replaced |
| StubGenerator.StubProcedureDefineShortTemplateReplaces | jrpc/stub/ServiceStubGenerator.cc:212-226 | every placeholder of the parameterless definition is replaced |
| StubGenerator.StubNotifyDefineTemplateAsWrittenReplaces | jrpc/stub/ServiceStubGenerator.cc:228-257 | as written, the notification definition keeps `[NotifyName]` |
| StubGenerator.StubNotifyDefineTemplateReplaces | jrpc/stub/ServiceStubGenerator.cc:228-257 | corrected, every placeholder of the notification definition is replaced |
| StubGenerator.StubNotifyDefineShortTemplateReplaces | jrpc/stub/ServiceStubGenerator.cc:259-273 | every placeholder of the parameterless notification is replaced |
| StubGenerator.ArgsDefineTemplateReplaces | jrpc/stub/ServiceStubGenerator.cc:275-305 | the argument line gets the name, the index and the accessor |
| StubGenerator.Accessor | jrpc/stub/ServiceStubGenerator.cc:280-300 | containers have no accessor; scalars a `.getX()` call |
| StubGenerator.TypeName | jrpc/stub/ServiceStubGenerator.cc:455-469 | every non-null type is spelled `json::TYPE_…` |
| StubGenerator.GenUserClassName | jrpc/stub/ServiceStubGenerator.cc:329-332 | the user class name is the service name and a fixed suffix |
| StubGenerator.GenStubClassName | jrpc/stub/ServiceStubGenerator.cc:334-337 | the stub class name is the user class name and `Stub` |
| StubGenerator.GenStubGenericName | jrpc/stub/ServiceStubGenerator.cc:443-446 | the stub member name is the procedure name and a fixed suffix |
| StubGenerator.ParamSpecsAppend | jrpc/stub/ServiceStubGenerator.cc:449-474 | the parameter list text of two parameter lists is the two texts joined |
| StubGenerator.ArrayLinesSnoc | jrpc/stub/ServiceStubGenerator.cc:490-504 | one more parameter adds its argument line with its index |
| StubGenerator.GenGenericParams | jrpc/stub/ServiceStubGenerator.cc:449-474 | the loop writes `, "name", json::TYPE_…` for each parameter, in order |
| StubGenerator.GenGenericArgs | jrpc/stub/ServiceStubGenerator.cc:477-487 | the loop writes each argument name followed by `, `, in order |
| StubGenerator.GenParamsFromJsonArray | jrpc/stub/ServiceStubGenerator.cc:490-504 | the loop writes one positional argument line per parameter, numbered from 0 |
| StubGenerator.GenParamsFromJsonObject | jrpc/stub/ServiceStubGenerator.cc:507-519 | the loop writes one named argument line per parameter |
| StubGenerator.GenStubProcedureBindings | jrpc/stub/ServiceStubGenerator.cc:340-357 | one binding line per procedure, in order |
| StubGenerator.GenStubNotifyBindings | jrpc/stub/ServiceStubGenerator.cc:390-407 | one binding line per notification, in order |
| StubGenerator.ProcedureDefine | jrpc/stub/ServiceStubGenerator.cc:364-385 | the long template when the procedure has parameters, the short one otherwise |
| StubGenerator.GenStubProcedureDefinitions | jrpc/stub/ServiceStubGenerator.cc:360-388 | one definition per procedure, in order |
| StubGenerator.NotifyDefine | jrpc/stub/ServiceStubGenerator.cc:413-437 | the long template as written (keeping `[NotifyName]`) when the notification has parameters, the short one otherwise |
| StubGenerator.GenStubNotifyDefinitions | jrpc/stub/ServiceStubGenerator.cc:409-440 | one definition per notification, as generated, in order |
| StubGenerator.GenStub | jrpc/stub/ServiceStubGenerator.cc:310-327 | the stub is the service template with the class names, the bindings (procedures then notifications) and the definitions, the notifications' as generated |
| StubGenerator.NotifyNameLeftInStub | jrpc/stub/ServiceStubGenerator.cc:241-251 | the as-written notification definition differs from the intended one for every real name |
| StubGenerator.GeneratedNotifyKeepsPlaceholder | jrpc/stub/ServiceStubGenerator.cc:241-251 | the definition the generator emits for a notification with parameters is not the intended one |
| Timers.Timer.constructor | include/libnet/libnet/Timer.h:15-21 | a timer repeats exactly when its interval is positive, and is not cancelled |
| Timers.Timer.Run | include/libnet/libnet/Timer.h:28-32 | the callback runs exactly when there is one |
| Timers.Timer.Restart | include/libnet/libnet/Timer.h:34-38 | a repeating timer's expiry moves on by its interval |
| Timers.Timer.Cancel | include/libnet/libnet/Timer.h:40-44 | a timer is cancelled once |
| TimerQueues.Insert | include/libnet/libnet/TimerQueue.h:33-34 | insertion into the ordered set adds exactly the entry |
| TimerQueues.InsertOrdered | include/libnet/libnet/TimerQueue.h:33-34 | insertion keeps the set ordered and its timers distinct |
| TimerQueues.InsertFirst | include/libnet/libnet/TimerQueue.cc:72-84 | the new entry comes first exactly when it precedes every other |
| TimerQueues.Remove | include/libnet/libnet/TimerQueue.cc:86-94 | erasure removes exactly the entry |
| TimerQueues.RemoveOrdered | include/libnet/libnet/TimerQueue.cc:86-94 | erasure keeps the set ordered and distinct |
| TimerQueues.Split | include/libnet/libnet/TimerQueue.cc:128-138 | the expired prefix is due, the next entry is not |
| TimerQueues.SplitRest | include/libnet/libnet/TimerQueue.cc:128-138 | in an ordered set nothing after the expired prefix is due |
| TimerQueues.CallbackIdsOnce | include/libnet/libnet/TimerQueue.cc:96-126 | every expired timer with a callback fires exactly once per expiry |
| TimerQueues.TruncDiv | include/libnet/libnet/TimerQueue.cc:34 | the duration cast truncates toward zero |
| TimerQueues.DelayMicros | include/libnet/libnet/TimerQueue.cc:34-35 | the delay is never shorter than one millisecond |
| TimerQueues.DurationFromNow | include/libnet/libnet/TimerQueue.cc:31-40 | corrected: the timespec has a normalised nanosecond part and equals the delay |
| TimerQueues.DurationFromNowMatches | include/libnet/libnet/TimerQueue.cc:31-40 | the timer is armed for the time to the expiry, to within a microsecond, but at least 1 ms |
| TimerQueues.DurationFromNowAsWrittenScale | include/libnet/libnet/TimerQueue.cc:37-38 | as written, the timespec holds the microsecond count as nanoseconds |
| TimerQueues.DurationFromNowAsWrittenExample | include/libnet/libnet/TimerQueue.cc:37-38 | a 1.5 s delay is armed as 1.5 ms as written, and as 1.5 s corrected |
| TimerQueues.TimerQueue.constructor | include/libnet/libnet/TimerQueue.cc:55-63 | a queue starts with no timers, unarmed |
| TimerQueues.TimerQueue.NextTimeout | include/libnet/libnet/TimerQueue.h:23-30 | 0 when empty; otherwise the time to the first expiry in whole milliseconds |
| TimerQueues.TimerQueue.AddTimer | include/libnet/libnet/TimerQueue.cc:72-84 | a fresh timer is inserted; the timerfd is re-armed exactly when it is the earliest, with `durationFromNow` as written |
| TimerQueues.TimerQueue.CancelTimer | include/libnet/libnet/TimerQueue.cc:86-94 | the timer is cancelled and removed, nothing else changes |
| TimerQueues.TimerQueue.GetExpired | include/libnet/libnet/TimerQueue.cc:128-138 | splits the set into the due prefix and the rest |
| TimerQueues.TimerQueue.HandleRead | include/libnet/libnet/TimerQueue.cc:96-126 | runs each expired timer once, re-inserts the repeating ones at their next expiry, drops the rest, and re-arms for the new first entry with `durationFromNow` as written |
| TimerQueues.TimerQueue.RunAll | include/libnet/libnet/TimerQueue.cc:104-122 | the loop over the expired entries keeps the set ordered and fires their callbacks in order |
| TimerQueues.TimerQueue.RunExpired | include/libnet/libnet/TimerQueue.cc:105-121 | one expired timer fires and is rearmed or dropped |
| Channels.DispatchMembers | include/libnet/libnet/Channel.cc:46-68 | close runs on hang-up without input, error on EPOLLERR, read on input/priority/read-hang-up, write on output, each only when installed |
| Channels.DispatchOrder | include/libnet/libnet/Channel.cc:46-68 | the callbacks run in the order close, error, read, write |
| Channels.EPoller.constructor | include/libnet/libnet/EPoller.cc:10-16 | the poller starts with room for 1024 events |
| Channels.EPoller.UpdateChannel | include/libnet/libnet/EPoller.cc:45-69 | an unpolled channel is added; a polled one is modified, or deleted when it has no events; the polling flag follows |
| Channels.EPoller.Poll | include/libnet/libnet/EPoller.cc:23-43 | every ready channel gets its events and is appended to the active list; the event array doubles when full |
| Channels.Channel.constructor | include/libnet/libnet/Channel.cc:8-20 | a channel starts with no events, unpolled and untied |
| Channels.Channel.IsNoneEvents | include/libnet/libnet/Channel.h:36 | true exactly when no event is wanted |
| Channels.Channel.IsReading | include/libnet/libnet/Channel.h:37 | true exactly when input is wanted |
| Channels.Channel.IsWriting | include/libnet/libnet/Channel.h:38 | true exactly when output is wanted |
| Channels.Channel.SetRevents | include/libnet/libnet/Channel.h:30 | sets only the received events |
| Channels.Channel.SetPollingState | include/libnet/libnet/Channel.h:31 | sets only the polling flag |
| Channels.Channel.SetCallbacks | include/libnet/libnet/Channel.h:25-28 | sets only the installed callbacks |
| Channels.Channel.Update | include/libnet/libnet/Channel.cc:76-79 | one `epoll_ctl` request for the current events |
| Channels.Channel.EnableRead | include/libnet/libnet/Channel.h:40 | adds input and priority interest, keeps the rest, and registers the channel |
| Channels.Channel.EnableWrite | include/libnet/libnet/Channel.h:41 | adds output interest, keeps the rest |
| Channels.Channel.DisableRead | include/libnet/libnet/Channel.h:42 | removes input interest, keeps the rest; deleted from epoll when nothing is left |
| Channels.Channel.DisableWrite | include/libnet/libnet/Channel.h:43 | removes output interest, keeps the rest |
| Channels.Channel.DisableAll | include/libnet/libnet/Channel.h:44 | removes every interest and deletes the channel from epoll |
| Channels.Channel.Remove | include/libnet/libnet/Channel.cc:81-85 | a polled channel with no interest left is deleted from epoll |
| Channels.Channel.Tie | include/libnet/libnet/Channel.cc:70-74 | ties the channel to its owner, nothing else changes |
| Channels.Channel.HandleEvents | include/libnet/libnet/Channel.cc:25-44 | a tied channel whose owner is gone runs nothing; otherwise the dispatch |
| Channels.Channel.HandleEventsWithGuard | include/libnet/libnet/Channel.cc:46-68 | runs exactly the dispatch of the received events |
| Connections.CrossingOnce | include/libnet/libnet/TcpConnection.cc:146-148 | once the backlog has crossed the mark, later sends do not cross it again |
| Connections.NoMarkNoCrossing | include/libnet/libnet/TcpConnection.cc:146-148 | a zero mark is never crossed |
| Connections.SendNoticesCases | include/libnet/libnet/TcpConnection.cc:120-154 | at most one notice per send: write-complete exactly when a direct write sent everything, high-water exactly when the kept rest crosses the mark |
| Connections.Conserve | include/libnet/libnet/TcpConnection.cc:109-163 | what reached the wire plus what is buffered is the old content followed by the data |
| Connections.Name | include/libnet/libnet/TcpConnection.h:43 | the name is the peer, ` -> `, and the local address |
| Connections.TcpConnection.constructor | include/libnet/libnet/TcpConnection.cc:37-57 | a new connection is connecting, with empty buffers and all four channel callbacks installed |
| Connections.TcpConnection.IsReading | include/libnet/libnet/TcpConnection.h:53-54 | the channel's read interest |
| Connections.TcpConnection.SetHighWaterMarkCallback | include/libnet/libnet/TcpConnection.h:29 | sets the callback and the mark, nothing else |
| Connections.TcpConnection.SetWriteCompleteCallback | include/libnet/libnet/TcpConnection.h:28 | sets the callback, nothing else |
| Connections.TcpConnection.ConnectEstablished | include/libnet/libnet/TcpConnection.cc:70-75 | a connecting connection becomes connected, tied and reading |
| Connections.TcpConnection.Send | include/libnet/libnet/TcpConnection.cc:83-107 | sending on a connection that is not connected changes nothing; otherwise the data is conserved |
| Connections.TcpConnection.SendBuffer | include/libnet/libnet/TcpConnection.cc:170-189 | the buffer is emptied exactly when connected, and its bytes conserved |
| Connections.TcpConnection.SendInLoop | include/libnet/libnet/TcpConnection.cc:109-163 | writes directly only when nothing is queued, keeps the rest, drops everything on a fatal error, queues write-complete and high-water as `SendNotices` says |
| Connections.TcpConnection.WriteDirect | include/libnet/libnet/TcpConnection.cc:118-141 | the direct write's bytes reach the wire; fatal faults are reported |
| Connections.TcpConnection.KeepRest | include/libnet/libnet/TcpConnection.cc:144-162 | the unwritten rest joins the output buffer and output interest is on |
| Connections.TcpConnection.Shutdown | include/libnet/libnet/TcpConnection.cc:191-208 | the state moves to disconnecting; the write side is closed at once when nothing is pending |
| Connections.TcpConnection.ShutdownInLoop | include/libnet/libnet/TcpConnection.cc:210-218 | the write side is closed exactly when the connection is up and not writing |
| Connections.TcpConnection.ForceClose | include/libnet/libnet/TcpConnection.cc:220-231 | a live connection is closed once, with one close notice; a closed one is untouched; the connection stays consistent (`Valid`) |
| Connections.TcpConnection.ForceCloseInLoop | include/libnet/libnet/TcpConnection.cc:233-239 | the same, on the loop; a consistent connection stays consistent |
| Connections.TcpConnection.StopRead | include/libnet/libnet/TcpConnection.cc:241-250 | read interest goes off, nothing else |
| Connections.TcpConnection.StartRead | include/libnet/libnet/TcpConnection.cc:252-261 | read interest goes on, nothing else |
| Connections.TcpConnection.HandleRead | include/libnet/libnet/TcpConnection.cc:263-283 | bytes join the input and the message callback runs; EOF closes; an error is reported; on data or error the channel's interest is unchanged, and the connection stays consistent, so sending, reading and writing may follow |
| Connections.TcpConnection.HandleWrite | include/libnet/libnet/TcpConnection.cc:285-320 | written bytes move from the buffer to the wire; when it empties, write-complete runs and a pending shutdown happens |
| Connections.TcpConnection.HandleClose | include/libnet/libnet/TcpConnection.cc:322-328 | the connection becomes disconnected and consistent, its channel disabled, and the close callback runs once |
| Connections.TcpConnection.Destroy | include/libnet/libnet/TcpConnection.cc:59-68 | a disconnected connection closes its descriptor |
| TcpServers.TcpServerSingle.constructor | include/libnet/libnet/TcpServerSingle.cc:8-16 | a server owns no connections |
| TcpServers.TcpServerSingle.SetWriteCompleteCallback | include/libnet/libnet/TcpServerSingle.h:19 | sets the callback new connections will get |
| TcpServers.TcpServerSingle.NewConnection | include/libnet/libnet/TcpServerSingle.cc:23-40 | a fresh connection joins the set, established and reading, and is announced as connected |
| TcpServers.TcpServerSingle.CloseConnection | include/libnet/libnet/TcpServerSingle.cc:42-47 | exactly one connection leaves the set |
| TcpServers.TcpServerSingle.ConnectionClosed | include/libnet/libnet/TcpServerSingle.cc:33-36 | a closing connection is disconnected and then leaves the set |
| TcpClients.TcpClient.constructor | include/libnet/libnet/TcpClient.cc:8-21 | a client starts unconnected, without timer or connection |
| TcpClients.TcpClient.Start | include/libnet/libnet/TcpClient.cc:32-37 | starts a connection attempt and files a repeating 3 s retry timer |
| TcpClients.TcpClient.Retry | include/libnet/libnet/TcpClient.cc:39-53 | when not connected, a new attempt replaces the old; when connected, nothing changes |
| TcpClients.TcpClient.NewConnection | include/libnet/libnet/TcpClient.cc:55-72 | the retry timer is cancelled and removed, and a fresh established connection is announced |
| TcpClients.TcpClient.CloseConnection | include/libnet/libnet/TcpClient.cc:74-80 | the connection is dropped and announced with its state |
| TcpClients.TcpClient.ConnectionClosed | include/libnet/libnet/TcpClient.cc:74-80 | the connection is closed and announced as down; no retry resumes |
| TcpClients.TcpClient.Destroy | include/libnet/libnet/TcpClient.cc:23-30 | a live connection is force-closed and a pending retry timer cancelled |

## Left out

- Exception.h, Value.h, Buffer, StubGenerator.h, encodeUtf8's body and Timestamp are not part of this model:
  - error codes and messages follow section 5.1 of the JSON-RPC 2.0 specification;
  - a value is the `JsonValue.Value` datatype;
  - a buffer is a string;
  - UTF-8 follows section 3 of RFC 3629.
- Writer.JsonWriter.Double: number formatting is a parameter (the formatted text), and `strtod` is not modelled. Doubles are left out of the round trip.
- Reader: a handler that stops parsing (PARSE_USER_STOPPED) is not modelled. The handler is the list of events it receives.
- The reader's number text is read by `strtol` with saturation. Its other locale-dependent behaviour is not modelled.
- FileWriteStream, the stub generator's `replaceAll` on raw strings (placeholders are template holes), and the `TYPE_NULL` debug assertion are not modelled.
- The event loop, threads and `runInLoop`/`queueInLoop`: queued tasks run at once, in order. The ThreadSafeBatchResponse mutex is not modelled.
- Callbacks are abstract: each is a notice, an id in `fired`, or an announcement. User code inside them is not modelled.
- RpcServer.RpcServer.HandleSingleRequest: a procedure's callback is a function from the request to its response (`Procedure.InvokeReturn`). The model thus takes the user procedure to call `done` exactly once, before it returns. The source hands `done` to user code, which may call it never, several times or later; a late answer also changes the order of a batch's responses.
- Assertions are taken as enabled. `connectEstablished` and `handleClose` change the state inside `assert(...)`, so `Connections.TcpConnection.ConnectEstablished` and `Connections.TcpConnection.HandleClose` model the debug build only. Built with NDEBUG, a connection would never become connected.
- A timer's address is a creation-order id that only breaks ties between timers due together. A callback that cancels its own timer (freed while still in use) is not modelled.
- System calls are parameters: `write`, `read`, `epoll_wait` and the clock.
  - `timerfd` arming is the `armed` field. The queue arms it with `durationFromNow` as written; the corrected split is `TimerQueues.DurationFromNow` (see Findings).
  - The queue's registration of its own channel is not modelled.
  - handleError's `getsockopt` is not modelled.
- Connections.TcpConnection.SendInLoop:
  - the high-water notice does not carry the length (the source captures a dangling reference);
  - the errno test that is always true is taken as written.
- Channel event masks are sets of event bits rather than a `uint32_t`.
- WriteStream.StringWriteStream.Get: requires a non-empty buffer, because the source dereferences `begin()` of the vector, which is undefined when it is empty.
- The message callback's consumption of input is not modelled; the input buffer only grows.
- Acceptor and Connector are not part of this model: a client's connection attempt is a generation number.
- TcpClients.TcpClient.Destroy: the source queues a forceClose whose close callback routes back to the destroyed client; the model closes the connection directly.
- TcpClients.TcpClient.Start: requires an attempt not started before. Calling `start` twice leaks the first timer in the source.
- BaseServer's onConnection, onHighWatermark and onWriteComplete callbacks are not modelled.

## Findings

| source | as written | input that shows it | evidently intended | confidence | as-written member | corrected member |
|---|---|---|---|---|---|---|
| jrpc/stub/ServiceStubGenerator.cc:241-251 | the notification definition calls `convert().[NotifyName](...)` but only `[notifyName]` is replaced, so the generated stub keeps the literal text `[NotifyName]` | any notification with parameters, e.g. name `ping` | the call uses the notification's name | high (not executed) | StubGenerator.NotifyNameLeftInStub | StubGenerator.StubNotifyDefineTemplateReplaces |
| include/libnet/libnet/TimerQueue.cc:31-40 | the delay in microseconds is divided by 10^9 and its remainder used as nanoseconds, so the timerfd fires 1000 times too early | a timer due in 1.5 s is armed for 1.5 ms | seconds and nanoseconds of the delay | high (not executed) | TimerQueues.DurationFromNowAsWrittenExample | TimerQueues.DurationFromNowMatches |
