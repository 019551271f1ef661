# Proofs about the sails base, net and crypto libraries

This project models, in Dafny, the parts of sails with the most state and arithmetic, and
proves what they are for. Every file is a module of its own; `dafny verify dfyconfig.toml`
checks them all.

- **Streaming HTTP parser** (`net/http_parser.cc`). `HttpSwitch` is one execution of the big
  switch as a function of the parser record, the byte and the bytes left in the buffer.
  `HttpInvariant` proves that no turn reaches a failing assertion and that `goto
  reexecute_byte` terminates. `HttpRun` iterates single bytes and proves split invariance.
  `HttpTape` holds the marks and callbacks, and `HttpExecute` is the loop of the source, with
  bulk skips and leftover callbacks; it refines the bytewise machine, for one buffer and for a
  whole connection cut into buffers.
  `HttpTrace`, `HttpChunked`, `HttpBounds`, `HttpMethod`, `HttpHeader` and `HttpUrl` prove what
  the owner of a parser observes: the grammar of the callbacks, for requests as for responses,
  the chunked coding, bounds and numbers, method names, the headers that are acted on, and the
  slices of a url. `HttpLine` and `HttpMessage` write down requests and responses without the
  parser, and show that it consumes every well-formed one and shows exactly what it says, message
  after message; `HttpExact` shows that nothing else passes, line by line; `HttpErrors` says what
  an error means; and `HttpUrlParts` shows that exactly the urls made of proper parts are accepted,
  the slices being where the parts are.
- **JSON** (`base/json.hpp`). `JsonEscape` fills the escape buffer, `JsonLexer` is the table
  of goto labels and the loop that runs it, `JsonNumber` compares the scanner with the number
  grammar, `JsonMeaning` says what a string means (escapes, surrogate pairs, UTF-8) without
  any parser, `JsonString` undoes escapes, `JsonValue` prints, `JsonParser` parses, and
  `JsonRoundTrip` shows that printing and parsing undo each other. `JsonGrammar` defines a
  grammar without the parser, with the strict rules of RFC 7159 and with lenient ones, and shows
  that the parser takes exactly the lenient texts and returns what they denote. `JsonStandard`
  says which of them are texts of RFC 7159, and `JsonLayout` how the lines of a printed value are
  laid out and by what its keys are ordered.
- **MD5** (`crypto/md5.cc`). `Md5` holds the definition of RFC 1321 and the streaming object, and
  `Md5Suite` derives a digest of appendix A.5 from the definition.
- **Free-list allocator** (`base/memory_pool.cc`). `MemoryPool`: the links live in the free
  blocks, in one memory shared with the clients.
- **Connection table and net thread** (`net/connector_list.cc`, `net/net_thread.h`).
  `ConnectorTable` and `NetThread`.
- **Concurrent protocols** (`base/rw_locker.h`, `base/thread_pool.cc`). `RwLock` and
  `ThreadPool` are step systems for any number of threads and any schedule.
- **Sliding buffer** (`base/buffer.h`, and the output side of `net/connector.cc`). `Buffer`.

Where the source updates objects in place the model has a class with the same fields, whose
methods are proved against functions; the theorems are lemmas about those functions. Integer
widths are written out wherever they matter: 64-bit lengths with their sentinel, the 32-bit
counters and loop variable of MD5, 32-bit ids, and conversions to `int`.

What comes from outside is a parameter: the bytes, the answer of `on_headers_complete`, the
addresses that `operator new` returns, what the kernel accepts from a send, whether the event
loop takes a descriptor, the clock, and every schedule.

Fifteen findings, each stated exactly by lemmas:

- `MD5::update` ends only when the buffered bytes and the input together stay below 2^32
  (`LoopEndsIff`): its loop variable has 32 bits. Up to 2^32 - 64 bytes per update are always fine.
- `MD5::digest` can be repeated and continued exactly when fewer than 56 bytes are buffered,
  or the buffered bytes happen to equal what `final` leaves there (`DigestKeepsIff`,
  `DigestLosesBuffer`). The flag `_finished` is cleared by the updates inside `final`, so
  every call computes anew.
- A free list exists exactly for the sizes from 1 to 256 (`IndexFits`): `allocate(0)` would
  read in front of the list heads. The constructor does not set the heads; what it makes is a
  pool exactly when all 32 are NULL already (`MemoryPoll.constructor`, `UnfilledHeads`).
- No task is dequeued after immediate shutdown, whatever the schedule, exactly when no worker
  stands between the test of the flag and taking its task (`ShutdownIsExact`): the flag is set
  without the lock. Otherwise at most one is (`ShutdownIsPunctual`, `LateTask`).
- The JSON scanner takes the control bytes 0x10 to 0x1f as they are inside strings, which
  section 7 of RFC 7159 wants escaped, and a NUL byte as the end of the text, so that everything
  behind it is accepted unread (`NulEndsText`): "null", NUL, "x" is parsed to null. An accepted
  text is a text of RFC 7159 exactly when it holds no byte of either kind (`AcceptedIsStandard`,
  `StandardIsExact`, with inputs in `ControlByteAccepted` and `NulHidesRest`).
- `get_string` throws exactly when a high-surrogate escape is not directly followed by a
  low-surrogate one (`UnescapeMeans`), so the parser rejects texts of RFC 7159, `"\uD800"` being
  one (`LoneHighRejected`); it rejects those and no others, numbers outside the model aside
  (`RejectedExactly`, `StandardRejects`). A low surrogate that stands alone is accepted; the value
  is well-formed UTF-8 exactly when there is none (`MeaningIsWellFormed`, `LoneLowAccepted`).
- A header value that began in an earlier line, even if only blanks follow, sets neither chunked,
  keep-alive nor close, whatever it says: `Transfer-Encoding: chunked` is then not acted on
  (`ValuesAreExact`), and a Content-Length that goes on in a further line is refused
  (`FoldedLengthIsRefused`). Blanks and blank lines in front of a value do no harm (`LeadIsDropped`).
- A response parser calls `message_begin` for every CR or LF in front of a response
  (`BreakBeginsResponse`), so only its last begin before a status line belongs to a message.
- A body is read for a response with the status 1xx, 204 or 304 whose headers announce one, though
  section 4.4 of RFC 2616 gives these none; exactly when is stated by `BodilessExactly`.
- The unhex table leaves its upper half 0, so that in a chunk size a byte above 127 passes for a
  digit 0 (`SizeLineExact`).
- A `Connection` header in the trailer of a chunked body counts for the verdict on the connection
  like one in the head (`MessageIsRead`, `VerdictIsExact`).
- The empty url is accepted, and a CONNECT target may have an empty user info in front of it, as in
  `@host:80`, and an empty query or fragment behind it (`UrlsAreExact`).
- `LastRefreshTime` is not set before the first renewal, so that whatever stands in it decides
  whether arrived bytes renew a deadline (`Renews`, `TickAfterRun`).
- The last reader unlocks a mutex that another thread locked exactly when it is not the one
  that raised `read_cnt` from 0 (`UnlockIsOwn`, with a schedule in `ForeignUnlock`); a
  `std::mutex` does not allow that. The model takes both mutexes as binary semaphores.
- Ids are used again, so a command for a closed connection can reach a later one, but only one
  that got the same id, address and port; in every other case it changes nothing (`StaleCommand`).
  A schedule in which the second of two close commands closes a later connection is `ReusedId`.

## Model

| member | source | states |
|---|---|---|
| HttpInvariant.TurnKeepsInvariant | net/http_parser.cc:660-1877 | no case of the switch reaches a failing assert(): matcher indices stay in range, nread is 1 at a chunk start, content_length in counted bodies is neither 0 nor the sentinel; and every case leaves a record of which the same holds |
| HttpInvariant.OtherMethodInRange | net/http_parser.cc:961-1025 | changing to another method keeps the index inside that method's name |
| HttpInvariant.MatchStepInRange | net/http_parser.cc:1315-1371 | a header matcher stays inside its pattern, falls back, or completes it |
| HttpInvariant.ReexecutionLowersRank | net/http_parser.cc:660-1756 | every goto reexecute_byte strictly lowers a rank of the state, so one byte is switched on finitely often |
| HttpRun.LoopKeepsInvariant | net/http_parser.cc:660-1877 | the re-executed switch ends with the invariant, a set errno, or the upgrade exit between messages |
| HttpRun.StepKeepsInvariant | net/http_parser.cc:640-1878 | the same for a whole pass of the loop, header count included |
| HttpRun.FeedKeepsInvariant | net/http_parser.cc:640-1894 | over any bytes in any number, the invariant holds and no assert() fails |
| HttpRun.SplitInvariance | net/http_parser.cc:576-1910 | executing a and then b gives the record, errno, total consumed and observations of executing both at once, unless a ended in the upgrade exit, which already did everything |
| HttpTape.TurnIsTidy | net/http_parser.cc:660-1877 | the only ways in which a case sets a mark, delivers one, notifies, or goes on; a failing case delivers nothing |
| HttpExecute.BulkTurn | net/http_parser.cc:1707-1748 | taking many body bytes at once is taking the last of them after the others were only counted |
| HttpExecute.TurnRefines | net/http_parser.cc:1707-1864 | one turn with a bulk skip delivers, under its mark, what the bytewise machine observes byte by byte |
| HttpExecute.EntryRenders | net/http_parser.cc:617-637 | the marks set on entry stand for no byte yet |
| HttpExecute.RestRenders | net/http_parser.cc:1880-1902 | when the buffer ends at most one mark is set, and delivering it renders everything observed |
| HttpExecute.HttpParser.constructor | net/http_parser.cc:1963-1972 | the initial record is at rest |
| HttpExecute.HttpParser.SwitchByte | net/http_parser.cc:660-1877 | the loop over the switch refines one byte of the bytewise machine |
| HttpExecute.HttpParser.Scan | net/http_parser.cc:617-1902 | on a nonempty buffer: the record and the count of the bytewise run, the callbacks holding exactly its bytes, or a prefix of them on an error |
| HttpExecute.HttpParser.Execute | net/http_parser.cc:576-1910 | the whole function, with the error and the zero-length call |
| HttpExecute.HttpParser.ExecuteInTwo | net/http_parser.cc:576-1910 | two calls on consecutive pieces leave and deliver what one call on the whole does |
| HttpExecute.FeedSettlesUpgrade | net/http_parser.cc:1629-1674 | the upgrade field tells the exit for an upgrade from a run that goes on |
| HttpExecute.HttpParser.ExecuteAll | net/http_parser.cc:576-1910 | a whole connection, executed piece by piece up to an error or an upgrade: record, count and callbacks are those of its bytes, however they are cut |
| HttpTrace.StatusPhaseKept | net/http_parser.cc:735-907 | each byte of a status line moves the automaton in step with the state |
| HttpTrace.TurnKeepsPhase | net/http_parser.cc:660-1877 | each observation of a parser of any kind moves an automaton of HTTP messages in step with the state |
| HttpTrace.FinishPhase | net/http_parser.cc:1750-1753 | message_complete leaves a further message possible exactly when the keep-alive verdict says so |
| HttpTrace.HeadersDonePhase | net/http_parser.cc:1664-1705 | the body read after the headers is the one that on_headers_complete could foresee (section 4.4 of RFC 2616) |
| HttpTrace.TraceIsGrammatical | net/http_parser.cc:640-1953 | every run of a parser for requests, responses or both is observed as begin, url or status text, header fields each with exactly one value, empty ones included, headers complete, a body of the announced length, a chunked one with optional trailer fields or one up to the end of the input, and message complete; an error only cuts this short |
| HttpTrace.ConnectionIsGrammatical | net/http_parser.cc:592-614 | so is a connection with its end, which completes a body that reaches to it |
| HttpTrace.CutShortIsAnError | net/http_parser.cc:592-614 | the end of the connection is an error of a request parser exactly if a message has begun that is not complete |
| HttpTrace.BreakBeginsResponse | net/http_parser.cc:712-733 | a response parser begins a message for every CR or LF in front of it |
| HttpTrace.BodilessExactly | net/http_parser.cc:1676-1702 | for the statuses 1xx, 204 and 304 no body is read exactly when the headers announce none, or the parser is told to skip it |
| HttpTrace.FailIsSilent | net/http_parser.cc:1904-1910 | a case that ends in an error makes nothing observable |
| HttpTrace.ServeConnection | net/http_parser.cc:576-1972 | over a whole connection, however it is cut into buffers and whether or not it is closed behind them, the callbacks follow that grammar, those before an error included, and are those of its bytes |
| HttpTrace.PrefixIsGrammatical | net/http_parser.cc:640-1902 | the same holds at every moment of the run |
| HttpTrace.NothingAfterClose | net/http_parser.cc:665-673 | after a message whose keep-alive verdict is 0 nothing is observed, in particular no further begin |
| HttpTrace.AnnouncedLength | net/http_parser.cc:1684-1741 | between headers complete and message complete exactly the announced number of body bytes is delivered |
| HttpChunked.FeedHex | net/http_parser.cc:1755-1806 | a size in hexadecimal is read to its value, without wrapping, in either letter case and with leading zeros |
| HttpChunked.OversizeIsRefused | net/http_parser.cc:1798-1802 | every larger size is refused with the content-length error: the test in front of the multiplication is exact |
| HttpChunked.FeedChunkData | net/http_parser.cc:1835-1856 | the data of a chunk is delivered, all of it and nothing else |
| HttpChunked.FeedTrailer | net/http_parser.cc:1616-1625 | an empty trailer ends the message with one message_complete |
| HttpChunked.DecodeInvertsEncode | net/http_parser.cc:1755-1871 | the chunked coding (section 3.6.1 of RFC 2616) of any nonempty chunks, with extensions and with sizes in either letter case and with leading zeros, is delivered as exactly their concatenation and then one message_complete, all of it being consumed |
| HttpBounds.TurnCounts | net/http_parser.cc:1668-1737 | a case leaves the header count alone or resets it |
| HttpBounds.StretchCounts | net/http_parser.cc:643-658 | between resets the count is the number of header bytes |
| HttpBounds.HeaderSectionIsBounded | net/http_parser.cc:643-658 | no error-free run takes more than HTTP_MAX_HEADER_SIZE header bytes since the last reset |
| HttpBounds.FirstDigit | net/http_parser.cc:1436-1443 | a Content-Length value starts with the value of its first digit |
| HttpBounds.NextDigit | net/http_parser.cc:1490-1513 | a further digit is added exactly or refused, exactly by the overflow test |
| HttpBounds.DigitFits | net/http_parser.cc:1503-1510 | the test in front of the multiplication admits a digit exactly when the value stays up to ULLONG_MAX - 6 |
| HttpBounds.ContentLengthIsExact | net/http_parser.cc:1436-1513 | a value up to ULLONG_MAX - 6 is held as the decimal value of its digits; every larger one is refused |
| HttpBounds.NumberGoesOn | net/http_parser.cc:766-852 | a further digit of a version number or of the status code is added, or refused beyond 999 |
| HttpBounds.NumbersAreExact | net/http_parser.cc:755-868 | version numbers and status code have the decimal value of their digits, and nothing else in the record changes; values beyond 999, and only those, are refused |
| HttpBounds.DecimalIsSpelled | net/http_parser.cc:755-868 | the value of digits is the number that they spell by the table of the ten digits, and no other text has one |
| HttpHeader.OnlyOne | net/http_parser.cc:1255-1311 | once a header matcher has chosen a name, the text read begins no other |
| HttpHeader.MatchLetter | net/http_parser.cc:1315-1371 | a matcher goes on, completes its name exactly at its last letter, or gives up when no known name begins with the text |
| HttpHeader.NameIsTracked | net/http_parser.cc:1229-1395 | the state of the matcher always reflects the lower-cased name read so far |
| HttpHeader.NamesAreExact | net/http_parser.cc:1229-1395 | the parser acts on exactly connection, proxy-connection, content-length, transfer-encoding and upgrade, in any letter case |
| HttpHeader.NextOfValue | net/http_parser.cc:1515-1558 | the same for the words chunked, keep-alive and close of a value |
| HttpHeader.ValueIsTracked | net/http_parser.cc:1397-1558 | the state of the value matcher always reflects the value read so far |
| HttpHeader.LeadIsDropped | net/http_parser.cc:1397-1407 | blanks and blank lines in front of a value leave nothing behind but the count of their bytes |
| HttpHeader.FoldedIsOther | net/http_parser.cc:1401-1593 | a value that goes on in further lines is none of the words, whatever its lines say, with CR LF or a bare LF at the end of any of them |
| HttpHeader.ValuesAreExact | net/http_parser.cc:1397-1593 | with CR LF or a bare LF at its ends of lines: a header value sets chunked, keep-alive and close exactly when it says so in one line, in any letter case, with blanks and blank lines in front of it and spaces behind the word, and upgrade always; continuation lines unset what was said |
| HttpMethod.OtherMethodPrefix | net/http_parser.cc:961-1025 | a change of mind keeps the text read so far a prefix of the method's name |
| HttpMethod.TextBeginsName | net/http_parser.cc:908-1032 | while a method is read, the text read so far begins the name of the method that is recorded |
| HttpMethod.NameIsRead | net/http_parser.cc:908-1032 | the name of each method is read through to its end |
| HttpMethod.MethodsAreExactlyTheNames | net/http_parser.cc:908-1032 | a token and a space are accepted exactly when the token is one of the 27 names, and then that method is recorded |
| HttpLine.TokenTable | net/http_parser.cc:145-177 | the tokens table lists exactly the token bytes of section 2.2 of RFC 2616, in lower case |
| HttpLine.NameSaid | net/http_parser.cc:1229-1395 | the matcher takes a name for a word exactly when it is that word in any letter case |
| HttpLine.ValueSaid | net/http_parser.cc:1515-1558 | the same for values, with spaces behind the word |
| HttpLine.UrlIsRead | net/http_parser.cc:1034-1105 | a url that the url machine takes is consumed and delivered byte by byte |
| HttpLine.VersionIsRead | net/http_parser.cc:1145-1190 | both numbers of a version are recorded |
| HttpLine.FirstLineIsRead | net/http_parser.cc:675-1227 | every well-formed request line or status line, with any number of spaces and CR LF or a bare LF at its end, is read, by a parser of its kind or of either kind: one begin, the bytes of the url or the reason, and the method, version and status that it says |
| HttpLine.SettledTakes | net/http_parser.cc:1569-1614 | what a value leaves to be done when the next line does not continue it |
| HttpLine.HeaderIsRead | net/http_parser.cc:1229-1614 | every well-formed header, with blanks and line ends in front of its value and further lines behind it or not, is read: the bytes of its name and value, an empty value being delivered as such, and the flags and length that it says |
| HttpLine.HeadersAreRead | net/http_parser.cc:1229-1614 | so are any headers: chunked, keep-alive, close and upgrade are set exactly if some header says so, and the length is that of the last Content-Length |
| HttpMessage.HeadEnds | net/http_parser.cc:1616-1705 | what the last byte of the head leads to |
| HttpMessage.FramingDecides | net/http_parser.cc:1668-1705 | upgrade, skip, chunked coding, length, method and status decide how the body is read, in this order |
| HttpMessage.VerdictIsExact | net/http_parser.cc:1914-1953 | the verdict on the connection: if neither number of the version is 0, as in HTTP/1.1, it stays open unless some header says close; otherwise, as in HTTP/1.0, only if some header says keep-alive; and never if the body reaches to the end |
| HttpMessage.SizedIsRead | net/http_parser.cc:1707-1753 | a body of announced length is delivered, and the message complete |
| HttpMessage.ChunksAreRead | net/http_parser.cc:1755-1871 | a chunked body is delivered, with the headers of its trailer, and the message complete |
| HttpMessage.MessageIsRead | net/http_parser.cc:576-1972 | every well-formed request or response, with any headers and the body that they announce, is consumed without an error and seen as exactly begin, url or reason, names and values, the head with its method, version, status, length and upgrade, the body, and complete; and the parser is left waiting for a further message exactly if the message keeps the connection alive |
| HttpMessage.MessageBehindBreaks | net/http_parser.cc:908-911 | line ends in front of a message are skipped by a parser that waits for a request or for either kind |
| HttpMessage.VersionsDecide | net/http_parser.cc:1938-1953 | HTTP/1.1 is persistent by default, HTTP/1.0 and a request without a version are not |
| HttpMessage.FurtherMessage | net/http_parser.cc:663-673 | behind a message a further one begins exactly if the version and the Connection headers, and for responses the framing, keep the connection alive; otherwise its first letter is refused |
| HttpMessage.NothingBehindClose | net/http_parser.cc:663-673 | behind a message that closes the connection any line ends are skipped, the first other byte is refused with HPE_CLOSED_CONNECTION, and nothing is seen of either |
| HttpMessage.ConversationIsRead | net/http_parser.cc:576-1972 | so is every sequence of well-formed messages of one kind, each but the last leaving the connection open |
| HttpMessage.ConnectionIsRead | net/http_parser.cc:592-614 | and the end of the connection delivers the complete of a body that reaches to it |
| HttpMessage.ServeMessages | net/http_parser.cc:576-1972 | the same for the callbacks, however the connection is cut into buffers |
| HttpMessage.GetSlash | net/http_parser.cc:576-1972 | the request GET / HTTP/1.1 without headers |
| HttpExact.NumberOnly | net/http_parser.cc:755-868 | a version number or a status code is digits up to 999 |
| HttpExact.RequestLineExact | net/http_parser.cc:890-1227 | a line begins a request without an error exactly if it is the name of a method, a space, a url that the url machine takes, and nothing or HTTP, a slash and two numbers, with any number of spaces in front of url and version, and CR LF or a bare LF behind |
| HttpExact.StatusLineExact | net/http_parser.cc:712-906 | a line begins a response exactly if it is HTTP, a slash, two numbers, a space, a status code, and nothing or a space and any text, with any number of spaces in front of the code |
| HttpExact.HeaderLineExact | net/http_parser.cc:1229-1614 | a header line is taken exactly if it is a token, a colon, and nothing or a value with blanks in front of it, a Content-Length having digits up to ULLONG_MAX - 6, with CR LF or a bare LF behind |
| HttpExact.FoldedLengthIsRefused | net/http_parser.cc:1409-1437 | a Content-Length that goes on in a further line is refused at the blank in front of that line |
| HttpExact.SizeLineExact | net/http_parser.cc:1755-1833 | a chunk-size line is taken exactly if it is a size, not too large, and nothing or an extension; a byte above 127 passes for a digit 0 |
| HttpExact.LfBehindCr | net/http_parser.cc:1218-1227 | behind the CR of a line nothing but a LF is taken |
| HttpExact.CrBehindData | net/http_parser.cc:1858-1871 | behind the data of a chunk nothing but a CR is taken |
| HttpErrors.ErrorsNameTheirPart | net/http_parser.cc:637-1871 | every failing run stops at its first refused byte, and the errno names the part of a message in which that byte was met |
| HttpUrl.FieldsInOrder | net/http_parser.cc:428-574 | the fields of a url begin in a fixed order and none begins twice |
| HttpUrl.HostFieldsInOrder | net/http_parser.cc:1986-2049 | the same for user info, host and port |
| HttpUrl.ReadNumber | net/http_parser.cc:2210-2210 | strtoul reads the digits up to the first byte that is none |
| HttpUrl.ParsedUrl.Count | net/http_parser.cc:2182-2192 | a byte prolongs the field that it continues, or begins one |
| HttpUrl.ParsedUrl.CountHostByte | net/http_parser.cc:2069-2102 | the same inside the server part |
| HttpUrl.ParsedUrl.SplitMain | net/http_parser.cc:2137-2193 | the first pass fails exactly on a refused byte; otherwise every slice holds exactly the bytes that belong to its field |
| HttpUrl.ParsedUrl.ParseHost | net/http_parser.cc:2051-2121 | the server part is refused exactly when the host machine ends outside its three final states; otherwise its slices hold exactly their bytes |
| HttpUrl.ParsedUrl.PortValue | net/http_parser.cc:2208-2218 | the port is the decimal value of the bytes of its slice |
| HttpUrl.OneServerPart | net/http_parser.cc:2137-2201 | whether a url is accepted depends on the url alone, not on where an empty server part is taken to be |
| HttpUrl.ParsedUrl.ParseUrl | net/http_parser.cc:2124-2221 | accepted exactly when both machines accept, a CONNECT target has host and port only, and the port is at most 65535; the server part is the bytes labelled so, and an accepted url is described exactly |
| HttpUrl.SlicesAreDisjoint | net/http_parser.cc:2124-2221 | slices are in bounds, and no byte is in two of them |
| HttpUrl.OutsideAreDelimiters | net/http_parser.cc:2124-2221 | every byte outside the slices is one of : / ? # @ [ ] |
| HttpUrl.ConnectTargets | net/http_parser.cc:2203-2218 | a CONNECT target has exactly host and port, and the port is the value of its slice |
| HttpUrlParts.Letters | net/http_parser.cc:366-388 | the character classes are letters, digits, host, address and user-info characters, and everything printable but the delimiters |
| HttpUrlParts.MainRun | net/http_parser.cc:428-574 | on the text of parts the url machine labels schema, server part, path, query and fragment, and skips the delimiters |
| HttpUrlParts.ServerHostRun | net/http_parser.cc:1986-2121 | on the text of a server part the host machine labels user info, host and port |
| HttpUrlParts.SlicesExact | net/http_parser.cc:2124-2221 | the slices of these labels are the positions of the parts |
| HttpUrlParts.PartsAreAccepted | net/http_parser.cc:2124-2221 | a text of parts that fit together is accepted exactly if its port is at most 65535 and, as a CONNECT target, it is a host and a port |
| HttpUrlParts.SlicesAreParts | net/http_parser.cc:2124-2221 | the slices of an accepted url are the positions of its parts, and its port is the number of that part |
| HttpUrlParts.ParseParts | net/http_parser.cc:2124-2221 | parsing the text of proper parts succeeds with exactly these slices and this port |
| HttpUrlParts.FrontIsText | net/http_parser.cc:428-574 | whatever the url machine has read is a text of parts that fit its state |
| HttpUrlParts.HostIsServer | net/http_parser.cc:1986-2121 | a text in which the host machine may end is user info, host and port |
| HttpUrlParts.UrlsAreExact | net/http_parser.cc:2124-2221 | a url is accepted if and only if it is the text of proper parts: a schema, ://, optional user info and @, a host or an address in brackets, an optional colon and port, a path, a question mark and query, hashes and a fragment; or without schema and server a path and what may follow it, or nothing; or, for CONNECT, the server part alone |
| HttpUrlParts.DelimitersInFront | net/http_parser.cc:508-561 | in front of a query stands a question mark, in front of a fragment a hash |
| HttpUrlParts.SlicesArePositions | net/http_parser.cc:2124-2221 | every accepted url is the text of proper parts, and its slices are their positions, a question mark in front of the query and a hash in front of the fragment |
| HttpUrlParts.UrlIsTaken | net/http_parser.cc:1034-1105 | every url of parts that fit together can stand in a request line |
| JsonEscape.ExtraSpace | base/json.hpp:4555-4593 | the extra space is computed per character |
| JsonEscape.EscapedLength | base/json.hpp:4555-4593 | the escaped string is longer by exactly the extra space |
| JsonEscape.NothingToEscape | base/json.hpp:4604-4610 | without extra space the string is its own escape, so returning it unchanged is right |
| JsonEscape.PrintControl | base/json.hpp:4678-4684 | sprintf writes six cells, the terminator being the sixth |
| JsonEscape.PutEscaped | base/json.hpp:4616-4692 | each character fills exactly its escape and keeps the backslashes ahead |
| JsonEscape.EscapeString | base/json.hpp:4604-4697 | the buffer is filled exactly, with the escape of the string |
| JsonLexer.TokenInText | base/json.hpp:5965-6725 | every token is nonempty and ends within the text; only the end of input takes the terminator |
| JsonLexer.RunOnce | base/json.hpp:6138-6725 | one byte of the table: a jump, a marked jump, a token, or the way back to the marker |
| JsonLexer.Lexer.ScanToken | base/json.hpp:5965-6725 | the loop with cursor and marker finds the token that the machine defines |
| JsonNumber.NumberIsLongestMatch | base/json.hpp:6216-6673 | when some prefix matches the number grammar of section 6 of RFC 7159, a number token ends with the longest such prefix, even after backtracking; and whatever is called a number is one |
| JsonNumber.ScanNumber | base/json.hpp:6216-6673 | where the token ends, part by part |
| JsonNumber.ScanFromStart | base/json.hpp:6138-6158 | white space in front of a token is skipped |
| JsonMeaning.EncodingIsExact | base/json.hpp:5855-5917 | the encoding of a code point is the well-formed sequence of section 3 of RFC 3629 that means it, except for surrogates, which have none |
| JsonMeaning.HexIsSpelled | base/json.hpp:6843-6844 | the value of hexadecimal digits is the number that they spell by the table of the sixteen digits, in either letter case |
| JsonMeaning.CodeIsSpelled | base/json.hpp:6843-6844 | the code unit of an escape is the number that its four digits spell |
| JsonMeaning.LoneFront | base/json.hpp:6841-6869 | lone surrogates can be told from the front, unit by unit |
| JsonMeaning.PairIsFirst | base/json.hpp:6841-6860 | a surrogate pair in front means one code point, and the rest is unaffected |
| JsonMeaning.MeaningIsWellFormed | base/json.hpp:6781-6882 | a string whose text is well-formed UTF-8 means well-formed UTF-8 exactly when no low surrogate stands alone |
| JsonString.Utf8IsEncoding | base/json.hpp:5885-5914 | the masks and shifts of to_unicode compute the encoding up to 0x10FFFF, and it throws beyond |
| JsonString.Utf8IsWellFormed | base/json.hpp:5855-5917 | every scalar value is encoded as the byte sequence that section 3 of RFC 3629 decodes to it |
| JsonString.PairsDecode | base/json.hpp:5861-5883 | a surrogate pair becomes the UTF-8 of the code point that it stands for |
| JsonString.HighRound | base/json.hpp:6841-6860 | at a high surrogate a round takes exactly a low one directly behind it, and throws otherwise |
| JsonString.OneRound | base/json.hpp:6788-6880 | one round appends what the units that it passes over mean |
| JsonString.RoundStaysInside | base/json.hpp:6841-6869 | a round ends in front of the closing quote or at it, at the start of a rest of the body, and depends on no byte behind that quote |
| JsonString.UnescapeMeans | base/json.hpp:6781-6882 | the rounds together return the meaning of the units, and throw exactly when some high surrogate is not directly followed by a low one |
| JsonString.GetString | base/json.hpp:6781-6882 | on a string token the loop returns what the text between the quotes means, and throws exactly when a high surrogate stands alone |
| JsonString.EscapedIsScanned | base/json.hpp:6260-6524 | inside a string the scanner passes over any escaped text and stops at the closing quote |
| JsonString.EscapedIsUnescaped | base/json.hpp:6781-6882 | unescaping undoes escaping |
| JsonString.StringRoundTrip | base/json.hpp:4604-6882 | wherever the quoted escape of a string stands, it is scanned as one string token up to its closing quote, and get_string returns the string |
| JsonValue.PutKeepsOrder | base/json.hpp:7034-7034 | assigning to a key keeps an object ordered, binds the key and leaves the others |
| JsonValue.PutAtEnd | base/json.hpp:7034-7034 | keys that come in order are appended, so parsing a dump rebuilds the object |
| JsonValue.DumpElems | base/json.hpp:4781-4789 | the loop over the elements writes exactly their text |
| JsonValue.DumpMembers | base/json.hpp:4741-4751 | the loop over the members writes exactly their text |
| JsonValue.Dump | base/json.hpp:4716-4841 | dump writes exactly the text of the value, with indents that wrap like unsigned int |
| JsonParser.ParsedIsTyped | base/json.hpp:6966-7179 | whatever is parsed is a value that the C++ types can hold: 64-bit integers, objects in key order |
| JsonParser.Parser.constructor | base/json.hpp:6937-6942 | the first token is read |
| JsonParser.Parser.GetToken | base/json.hpp:7182-7186 | last_token follows the scanner |
| JsonParser.Parser.ParseInternal | base/json.hpp:6966-7179 | the recursive parser returns or throws what the grammar function says, and leaves the token after it |
| JsonParser.Parser.ParseElemLoop | base/json.hpp:7076-7102 | the loop over the elements of an array does |
| JsonParser.Parser.ParseMemberLoop | base/json.hpp:6998-7047 | the loop over the members of an object does |
| JsonParser.Parser.ParseText | base/json.hpp:6953-6962 | parse accepts exactly a value followed by the end of input |
| JsonRoundTrip.IntegerParses | base/json.hpp:7136-7165 | a printed 64-bit integer is scanned to its end and parsed to itself |
| JsonRoundTrip.ElemsParse | base/json.hpp:7076-7102 | the text of any elements, in any style, is parsed to them |
| JsonRoundTrip.MembersParse | base/json.hpp:6998-7047 | the text of any members, in any style, is parsed to them |
| JsonRoundTrip.ValueParses | base/json.hpp:6966-7179 | wherever the text of a value stands in front of a byte that ends it, the parser returns the value and the token behind it |
| JsonRoundTrip.DumpThenParse | base/json.hpp:1733-1747 | for every value, and compact text as well as every indent, parsing the dump returns the value |
| JsonRoundTrip.ParseThenDumpThenParse | base/json.hpp:4427-4430 | whatever was parsed from any text is parsed again from any dump of it |
| JsonGrammar.TokenShape | base/json.hpp:5965-6725 | every token is the text that it stands for, with nothing but white space in front of it |
| JsonGrammar.StringRun | base/json.hpp:6260-6524 | what the scanner takes as a string is quoted, and every escape in it is complete |
| JsonGrammar.BodyScans | base/json.hpp:6260-6524 | every such string is taken, up to its closing quote |
| JsonGrammar.NumberScans | base/json.hpp:6216-6673 | a number in front of a byte that can follow a value is one token |
| JsonGrammar.ValueSound | base/json.hpp:6966-7179 | whatever the parser returns is what the consumed text denotes, read by the lenient grammar as a document |
| JsonGrammar.ElemsSound | base/json.hpp:7076-7102 | the same for the elements of an array |
| JsonGrammar.MembersSound | base/json.hpp:6998-7047 | the same for the members of an object, a later one replacing an earlier one of the same key |
| JsonGrammar.ValueComplete | base/json.hpp:6966-7179 | every text of a value in the lenient grammar is parsed to what it denotes: a value, a rejection, or a number that is no 64-bit integer, whichever comes first |
| JsonGrammar.ElemsComplete | base/json.hpp:7076-7102 | the same for elements |
| JsonGrammar.MembersComplete | base/json.hpp:6998-7047 | the same for members |
| JsonGrammar.DenotesExactly | base/json.hpp:6781-7165 | a document denotes a value exactly when none of its strings and keys has a high surrogate that stands alone and its numbers are 64-bit integers |
| JsonGrammar.TextsAreParsed | base/json.hpp:6953-7179 | every text of the lenient grammar is parsed to exactly what it denotes |
| JsonGrammar.AcceptedIsText | base/json.hpp:6953-7179 | every accepted text is a text of the lenient grammar that denotes the result |
| JsonGrammar.ParserIsExact | base/json.hpp:6953-7179 | parse returns a value if and only if the text is a text of the lenient grammar that denotes this value; that grammar is the one of RFC 7159, except that strings may hold the bytes 0x10 to 0x1f as they are and a NUL byte ends the text, whatever stands behind it |
| JsonGrammar.RejectedExactly | base/json.hpp:6846-6853 | among the texts of the lenient grammar with 64-bit integers, exactly those with a high surrogate that stands alone are rejected |
| JsonGrammar.GrammarIsUnambiguous | base/json.hpp:6953-7179 | however a text is read by the lenient grammar, it denotes the same |
| JsonStandard.TextRules | base/json.hpp:5965-6725 | a stretch is a value by the rules of RFC 7159 exactly when it is one by the lenient rules and holds neither NUL nor a byte from 0x10 to 0x1f |
| JsonStandard.StrictExactly | base/json.hpp:6953-7179 | the same for whole texts, which by the strict rules end where their bytes do |
| JsonStandard.AcceptedIsStandard | base/json.hpp:6953-7179 | an accepted text is a text of RFC 7159 if and only if no byte of it is NUL or from 0x10 to 0x1f |
| JsonStandard.StandardIsExact | base/json.hpp:6953-7179 | for texts without such bytes, parse returns a value if and only if the text is one of RFC 7159 that denotes it |
| JsonStandard.StandardRejects | base/json.hpp:6846-6853 | a text of RFC 7159 is parsed to what it denotes, and with 64-bit integers rejected exactly when it has a high surrogate that stands alone |
| JsonStandard.SameValue | base/json.hpp:6966-7179 | from any place in front of a NUL byte the parser behaves as if the text ended there |
| JsonStandard.NulEndsText | base/json.hpp:6268-6272 | parsing a text is parsing what stands in front of any NUL byte in it |
| JsonStandard.NulHidesRest | base/json.hpp:6953-6957 | null and a NUL byte are parsed to null whatever follows, which is never a text of RFC 7159 |
| JsonStandard.ControlByteAccepted | base/json.hpp:5981-5982 | a control byte from 0x10 on is accepted unescaped in a string, which is no text of RFC 7159 |
| JsonStandard.LettersAreStandard | base/json.hpp:5973-6014 | white space, digits, hexadecimal digits, exponent and escape letters are those of RFC 7159 |
| JsonStandard.LetterIsParsed | base/json.hpp:6796-6840 | each of the eight letters behind a backslash is parsed to the character that RFC 7159 gives it, and but for the solidus that character is printed so |
| JsonStandard.NaturalIsSpelled | base/json.hpp:6901-6911 | digits have the number that they spell, and no other text spells one |
| JsonStandard.IntegerIsSpelled | base/json.hpp:6901-6911 | an integer is printed and read as what its text spells, sign included |
| JsonStandard.NumberIsExact | base/json.hpp:7136-7165 | a number denotes the integer of 64 bits that it spells and nothing else; one with a fraction or an exponent, or beyond 64 bits, is told apart from these |
| JsonStandard.EscapeIsParsed | base/json.hpp:6841-6869 | a string of one escape is parsed to the UTF-8 of the code unit that its digits spell, in either letter case, and rejected exactly if that is a high surrogate |
| JsonStandard.PairIsParsed | base/json.hpp:6846-6860 | a string of two escapes that are a surrogate pair is parsed to the UTF-8 of their code point |
| JsonStandard.LoneHighRejected | base/json.hpp:6846-6853 | the text "\uD800" is a text of RFC 7159, and is rejected |
| JsonStandard.LoneLowAccepted | base/json.hpp:6862-6869 | the text "\uDC00" is one of RFC 7159 and accepted, with a value that is no well-formed UTF-8 |
| JsonStandard.DumpIsStandard | base/json.hpp:4716-4841 | what dump prints is a text of RFC 7159 that denotes the printed value |
| JsonLayout.TextIsLayout | base/json.hpp:4716-4841 | a value is printed as its lines, each with its depth, brackets opening and closing them and commas between them |
| JsonLayout.DumpIsLayout | base/json.hpp:4716-4841 | with an indent every line of a dump begins with that many spaces per open bracket, counted like unsigned int; without one there are neither line breaks nor spaces |
| JsonLayout.LessIsByFirstDifference | base/json.hpp:7034-7034 | keys are ordered by the first byte at which they differ |
| Md5.BytesOfJoin | crypto/md5.cc:306-325 | decode and encode undo each other on a word |
| Md5.WordsOfBytes | crypto/md5.cc:306-325 | decoding inverts encoding |
| Md5.BytesOfWords | crypto/md5.cc:306-325 | encoding inverts decoding |
| Md5.Encode | crypto/md5.cc:306-314 | the loop of encode writes the words, low-order bytes first |
| Md5.Decode | crypto/md5.cc:319-325 | the loop of decode reads them |
| Md5.RotatesBits | crypto/md5.cc:40-40 | for each amount in use the macro is a rotation |
| Md5.Selects | crypto/md5.cc:33-34 | F selects between its last arguments by the bits of the first, and G is F with its arguments turned |
| Md5.Round1Op | crypto/md5.cc:226-241 | the words that round 1 reads, by their pattern |
| Md5.Round2Op | crypto/md5.cc:244-259 | the words that round 2 reads, by their pattern |
| Md5.Round3Op | crypto/md5.cc:262-277 | the words that round 3 reads, by their pattern |
| Md5.Round4Op | crypto/md5.cc:280-295 | the words that round 4 reads, by their pattern |
| Md5.FourSteps | crypto/md5.cc:45-64 | four macros in a row are four operations of section 3.4 of RFC 1321, in which the registers change roles |
| Md5.Round1 | crypto/md5.cc:225-241 | the unrolled round 1 is the first 16 operations |
| Md5.Round2 | crypto/md5.cc:243-259 | the unrolled round 2 is the next 16 |
| Md5.Round3 | crypto/md5.cc:261-277 | the unrolled round 3 is the next 16 |
| Md5.Round4 | crypto/md5.cc:279-295 | the unrolled round 4 is the last 16 |
| Md5.PadLength | crypto/md5.cc:202-205 | between 1 and 64 bytes bring the length to 56 modulo 64 (section 3.1 of RFC 1321) |
| Md5.CounterAdds | crypto/md5.cc:160-163 | the two counter words with the source's carries are 8 times the byte count modulo 2^64 |
| Md5.CounterIndex | crypto/md5.cc:157-158 | the low word gives the number of buffered bytes |
| Md5.LoopEndsIff | crypto/md5.cc:165-175 | the 32-bit loop of update ends exactly when the buffered bytes and the input are below 2^32 |
| Md5.TwoCopies | crypto/md5.cc:170-182 | what the two memcpy calls leave in the buffer |
| Md5.BufferHolds | crypto/md5.cc:165-183 | the used part of the buffer is the unprocessed end of the message |
| Md5.PadParts | crypto/md5.cc:202-208 | the two updates of final append the padding and the length |
| Md5.BufferAfterFinal | crypto/md5.cc:202-208 | what the two updates of final leave in the buffer |
| Md5.DigestKeepsIff | crypto/md5.cc:99-105 | the object stands for the same message after digest if and only if fewer than 56 bytes are buffered, or they equal what final leaves |
| Md5.DigestSettles | crypto/md5.cc:99-105 | what the first digest changes, further ones leave alone |
| Md5.DigestLosesBuffer | crypto/md5.cc:188-216 | a message of 56 bytes that is lost |
| Md5.MD5.constructor | crypto/md5.cc:75-78 | the empty message |
| Md5.MD5.Reset | crypto/md5.cc:107-118 | back to the empty message, whatever was fed |
| Md5.MD5.Transform | crypto/md5.cc:219-301 | the registers after a block are those of the compression function |
| Md5.MD5.CountBits | crypto/md5.cc:160-163 | the counter after an update |
| Md5.MD5.TransformBlocks | crypto/md5.cc:173-174 | the loop takes every whole block of the input |
| Md5.MD5.Absorb | crypto/md5.cc:165-182 | registers and buffer after an update |
| Md5.MD5.Update | crypto/md5.cc:151-183 | the message grows by the input, however it was split before |
| Md5.MD5.Final | crypto/md5.cc:188-216 | the digest is that of the padded message, and the registers and the counter are restored |
| Md5.MD5.Digest | crypto/md5.cc:99-105 | digest returns the one-shot digest of the message so far |
| Md5.DigestOfParts | crypto/md5.cc:99-183 | for any split into updates of at most 2^32 - 64 bytes the digest is that of the whole |
| Md5Suite.AbcBlock | crypto/md5.cc:188-216 | the padded message abc, word by word |
| Md5Suite.DigestOfAbc | crypto/md5.cc:26-300 | the digest of abc is the one of appendix A.5 of RFC 1321, so that every constant of the algorithm is the right one |
| MemoryPool.IndexFits | base/memory_pool.h:44-51 | a list exists exactly for the sizes 1 to 256, and its blocks are the tightest fit |
| MemoryPool.EmptyIsGood | base/memory_pool.cc:17-20 | the pool with NULL heads satisfies the invariant |
| MemoryPool.UnfilledHeads | base/memory_pool.cc:17-20 | heads describe some pool that was not refilled yet exactly when they all are NULL |
| MemoryPool.WalkIsList | base/memory_pool.h:37-40 | following the links from a head visits the blocks of its list, one after the other |
| MemoryPool.ListIsAcyclic | base/memory_pool.cc:55-78 | no address comes up twice on the way, and the list ends with NULL |
| MemoryPool.TakeKeepsGood | base/memory_pool.cc:72-77 | unlinking the first block keeps the invariant |
| MemoryPool.GiveKeepsGood | base/memory_pool.cc:55-60 | linking a block in front keeps it |
| MemoryPool.RowIsSpread | base/memory_pool.cc:101-107 | the blocks of a chunk do not overlap and stay inside it |
| MemoryPool.FillKeepsGood | base/memory_pool.cc:81-112 | carving a fresh chunk keeps it |
| MemoryPool.StoreKeepsGood | base/memory_pool.h:37-40 | a client that stores only outside free blocks cannot break a list |
| MemoryPool.NextKeepsGood | base/memory_pool.cc:38-112 | every call keeps live and free blocks disjoint, each block live or in the list of its size, once, and free plus live blocks of a size at 20 times its refills |
| MemoryPool.AllocatedIsSeparate | base/memory_pool.cc:38-79 | an allocated block is aligned, large enough, was not live, and overlaps no live block; NULL changes nothing |
| MemoryPool.LiveBlockIsKept | base/memory_pool.cc:38-112 | the pool never writes into a live block |
| MemoryPool.RunIsGood | base/memory_pool.cc:38-112 | the invariant holds after every run of allocations, matching deallocations and client stores |
| MemoryPool.RunKeepsData | base/memory_pool.cc:38-112 | what a client keeps in a block stays over every run until the client overwrites it or gives the block back |
| MemoryPool.NextLink | base/memory_pool.cc:101-107 | one round of the linking loop |
| MemoryPool.MemoryPoll.constructor | base/memory_pool.cc:17-20 | the constructor leaves the heads alone; what it makes is an empty pool exactly when they all are NULL |
| MemoryPool.MemoryPoll.AppendChunk | base/memory_pool.cc:86-96 | the chunk chain grows at its end |
| MemoryPool.MemoryPoll.LinkBlocks | base/memory_pool.cc:97-107 | the loop writes exactly the links of the chunk |
| MemoryPool.MemoryPoll.Refill | base/memory_pool.cc:81-112 | chain and links after a refill; NULL changes nothing |
| MemoryPool.MemoryPoll.AllocateChunk | base/memory_pool.cc:63-79 | heads and memory after taking a block, refilling first if the list is empty |
| MemoryPool.MemoryPoll.Allocate | base/memory_pool.cc:38-44 | small sizes come from the lists, larger ones from the system |
| MemoryPool.MemoryPoll.Deallocate | base/memory_pool.cc:46-61 | the block becomes the head of its list; NULL and large blocks leave the lists alone |
| MemoryPool.MemoryPoll.ReleaseMemory | base/memory_pool.cc:26-36 | every chunk is deleted once, in the order of the chain |
| ConnectorTable.MasksAreArithmetic | net/connector_list.cc:40-67 | the masks and the bitwise or of ids are quotient, remainder and sum |
| ConnectorTable.MagicParts | net/connector_list.cc:40-43 | the magic number holds the time modulo 256 and the list index |
| ConnectorTable.IdsAreApart | net/connector_list.cc:63-70 | an id leads back to its slot in its own list and is refused by a list with another index |
| ConnectorTable.InsertKeeps | net/connector_list.cc:82-84 | insertion keeps the multimap ordered, with one more entry |
| ConnectorTable.InsertIsStable | net/connector_list.cc:82-84 | the new entry comes behind all entries with an earlier deadline or the same one, and in front of the others |
| ConnectorTable.EraseKeeps | net/connector_list.cc:102-102 | erasing an iterator removes exactly its entry |
| ConnectorTable.InitIsGood | net/connector_list.cc:28-52 | the invariant after init |
| ConnectorTable.IssueKeepsInv | net/connector_list.cc:54-61 | issuing reserves the first free id, whose slot is empty |
| ConnectorTable.EnterKeepsInv | net/connector_list.cc:72-85 | adding a reserved id keeps slots and entries in bijection and the partition of the ids |
| ConnectorTable.PostponeKeepsInv | net/connector_list.cc:87-105 | so does refreshing |
| ConnectorTable.RemoveKeepsInv | net/connector_list.cc:178-188 | so does deleting |
| ConnectorTable.DeadlineIsUnique | net/connector_list.cc:72-105 | each connection has one deadline |
| ConnectorTable.IssuedInOrder | net/connector_list.cc:54-61 | the next n ids are the first n free ones, in order |
| ConnectorTable.IdsAreReusedInOrder | net/connector_list.cc:178-188 | after del with k ids free, the next k ids are exactly those k in order, and the deleted one comes after them |
| ConnectorTable.GetMeansListed | net/connector_list.cc:63-70 | get finds a connection exactly when the assertion of del and refresh holds |
| ConnectorTable.OverdueIsExact | net/connector_list.cc:107-140 | although it stops at the first later key, checkTimeout times out exactly the connections with a deadline at most now and a listen descriptor other than -1 |
| ConnectorTable.OverdueOnce | net/connector_list.cc:119-139 | and none of them twice |
| ConnectorTable.MarksExactly | net/connector_list.cc:119-139 | exactly their connectors are marked, and nothing else about them changes |
| ConnectorTable.ConnectorList.constructor | net/connector_list.cc:20-52 | constructor and init: ids 1 to size are free, in order |
| ConnectorTable.ConnectorList.GetUniqId | net/connector_list.cc:54-61 | the next free id, with the magic number |
| ConnectorTable.ConnectorList.GetConn | net/connector_list.cc:63-70 | the connector of an id, or NULL |
| ConnectorTable.ConnectorList.Add | net/connector_list.cc:72-85 | slot and entry of the new connection; the assertion holds |
| ConnectorTable.ConnectorList.Refresh | net/connector_list.cc:87-105 | the deadline moves only to a time later than the last refresh |
| ConnectorTable.ConnectorList.TimeOutDue | net/connector_list.cc:117-139 | the loop over the multimap |
| ConnectorTable.ConnectorList.CheckTimeout | net/connector_list.cc:107-140 | at most one pass per second, over exactly the overdue connections |
| ConnectorTable.ConnectorList.Del | net/connector_list.cc:164-176 | the slot is emptied and the id goes to the end of the free list |
| ConnectorTable.ConnectorList.DelSlot | net/connector_list.cc:178-188 | the same, by slot |
| ConnectorTable.ConnectorList.Size | net/connector_list.cc:190-193 | the number of ids that are not free |
| NetThread.AddIsListed | net/net_thread.h:404-412 | the assertion in add holds: the id is reserved and its slot empty |
| NetThread.RefusedIsListed | net/net_thread.h:421-423 | the assertion in del holds when the event loop refused the descriptor |
| NetThread.CloseKeepsInv | net/net_thread.h:558-576 | the assertion in del holds when a close command is drained, and the connection was not reported closed before |
| NetThread.NextKeepsInv | net/net_thread.h:404-607 | every step keeps the table in agreement with the connectors, every id one that the table issued, the pending ids distinct and the reports free of repetitions |
| NetThread.RunKeepsInv | net/net_thread.h:404-607 | so does every interleaving |
| NetThread.ClosedAtMostOnce | net/net_thread.h:558-576 | over every interleaving of accepts, timeouts, reads and posted commands, ClosedConnectCB fires at most once per connector, and only for added ones |
| NetThread.StepFreezesClosed | net/net_thread.h:404-607 | no step changes a connector that was reported closed |
| NetThread.RunFreezesClosed | net/net_thread.h:404-607 | nor does any run |
| NetThread.OthersUntouched | net/net_thread.h:548-588 | a command touches only the connection that it is addressed to |
| NetThread.NextFollows | net/net_thread.h:404-607 | a step keeps the magic number and size of the table, the address, descriptors and timeout of a connector, its id once it has one, and gives no slot to a connector that was added before |
| NetThread.RunFollows | net/net_thread.h:404-607 | so does every run |
| NetThread.HeldIdsStayReadable | net/net_thread.h:548-556 | an id that a connector ever had can be looked up after every run, so that a command with it can be posted at any time |
| NetThread.HolderIsLater | net/net_thread.h:404-412 | whoever holds the slot of a closed connection was made, or got its id, after that connection |
| NetThread.StaleCommand | net/net_thread.h:548-588 | over every run: a command for a connection that comes after its close never touches that connection; it changes nothing unless its id now belongs to a later connection with the same address and port, and then it touches only that one |
| NetThread.ReusedId | net/net_thread.h:548-588 | a schedule in which two close commands are posted for one connection and the second closes a later one with the same id |
| NetThread.AddSetsDeadline | net/net_thread.h:404-410 | an added connector is due its timeout after it was added |
| NetThread.ReadSetsDeadline | net/net_thread.h:515-518 | bytes that renew a connection make it due its timeout after they arrived |
| NetThread.StepKeepsDue | net/net_thread.h:404-607 | every step keeps the deadline of a connection its timeout after its add or its last renewal |
| NetThread.RunKeepsDue | net/net_thread.h:404-607 | so does every run |
| NetThread.SendsKeepOrder | net/connector.cc:214-237 | what the kernel has taken of an open connection, followed by what is buffered, is all that was sent, in order; a closed one drops it |
| NetThread.CloseTakesEffect | net/net_thread.h:558-576 | a close command that reaches its connection reports it, closes it, empties its slot and frees its id |
| NetThread.CommandsTakeEffect | net/net_thread.h:548-588 | a send that reaches its connection adds its bytes to the output, a change of data sets it, and neither changes anything else |
| NetThread.TickIsExact | net/net_thread.h:132-139 | a tick marks exactly the late connections and posts their close commands |
| NetThread.TickPosts | net/net_thread.h:132-139 | a tick appends to the queue close commands, for a timeout, of exactly the late connections that have an address and a descriptor |
| NetThread.RunIsTimed | net/connector_list.cc:108-114 | over every run, the check time is that of the last tick that came at least a second after the one before |
| NetThread.TickAfterRun | net/net_thread.h:132-139 | over every run, a tick within a second of the last one that passed does nothing, and a later one newly marks a connection exactly if it is in the table, does not listen, and its timeout has passed since it was added or last renewed |
| NetThread.NetThread.constructor | net/net_thread.h:211-229 | an empty table and queue |
| NetThread.NetThread.MakeConnector | net/net_thread.h:372-384 | a new connector, its id issued before it is added |
| NetThread.NetThread.AddConnector | net/net_thread.h:404-424 | the table after add_connector, the refused descriptor included |
| NetThread.NetThread.CloseConnector | net/net_thread.h:675-700 | the command that is posted, or none for an empty address or descriptor |
| NetThread.NetThread.PostCommand | net/net_thread.h:647-664 | send and SetConnectorData drop their command when the queue is full |
| NetThread.NetThread.TickTimer | net/net_thread.h:132-139 | the tick with its timeout callbacks |
| NetThread.NetThread.DrainOne | net/net_thread.h:541-592 | one drained command |
| NetThread.NetThread.ReadPipe | net/net_thread.h:523-594 | the loop drains the queue, command by command, until it is empty |
| NetThread.NetThread.ReadDone | net/net_thread.h:515-518 | bytes that arrived refresh the deadline of their connection |
| RwLock.StepKeepsInv | base/rw_locker.h:27-48 | every step of every thread keeps the counts of threads, the semaphores and read_cnt in agreement |
| RwLock.RunKeepsInv | base/rw_locker.h:27-48 | so does every schedule |
| RwLock.MutualExclusion | base/rw_locker.h:27-48 | while a thread writes, no other thread writes or reads |
| RwLock.CountIsExact | base/rw_locker.h:27-40 | read_cnt is the number of threads between their increment and their decrement |
| RwLock.SomeoneCanStep | base/rw_locker.h:27-48 | unless all threads are idle, some thread that is not idle can step |
| RwLock.StepKeepsOpenerLocked | base/rw_locker.h:27-40 | while the readers hold the write mutex, the thread that locked it is the one that raised read_cnt from 0 |
| RwLock.UnlockIsOwn | base/rw_locker.h:27-48 | over every schedule: read_mtx is unlocked by the thread that locked it, so is write_mtx by a writer, and by the last reader exactly if it also raised read_cnt from 0 |
| RwLock.ForeignUnlock | base/rw_locker.h:27-40 | a schedule of two readers in which the second unlocks what the first locked |
| ThreadPool.NextKeepsInv | base/thread_pool.cc:64-108 | every step keeps the lock exclusive, the room right, and each task in one place |
| ThreadPool.RunKeepsInv | base/thread_pool.cc:64-108 | so does every schedule |
| ThreadPool.TasksAreKept | base/thread_pool.cc:64-108 | every accepted task is exactly one of queued, running and done, tasks are dequeued in the order of acceptance, and available room and queue length add up to the configured size |
| ThreadPool.QueueIsBounded | base/thread_pool.cc:64-75 | the queue never exceeds its configured size |
| ThreadPool.AcceptedExactly | base/thread_pool.cc:64-75 | over every schedule a task is accepted exactly while the queue is shorter than its size |
| ThreadPool.FirstTaskCanBeTaken | base/thread_pool.cc:77-108 | whenever a task is queued and no shutdown was asked for, some worker, left alone, takes it |
| ThreadPool.ShutdownIsPunctual | base/thread_pool.cc:89-103 | after immediate shutdown at most one task is dequeued |
| ThreadPool.ShutdownIsExact | base/thread_pool.cc:48-103 | no schedule dequeues a task after immediate shutdown exactly when no worker has passed the test of the flag and not yet taken its task |
| ThreadPool.LateTask | base/thread_pool.cc:48-50 | one is possible |
| ThreadPool.GracefulDrains | base/thread_pool.cc:86-98 | under a graceful shutdown, which no caller asks for, workers leave only an empty queue |
| Buffer.IntRoundTrip | base/buffer.h:72-94 | ntohl undoes htonl on signed integers |
| Buffer.BytesRoundTrip | base/buffer.h:72-94 | and the other way round |
| Buffer.NetworkOrder | base/buffer.h:72-94 | the first byte counts most: of two integers with the same sign the smaller one has the smaller bytes |
| Buffer.QueueOrder | base/buffer.h:80-121 | over every run, the bytes taken out and those left are the bytes there were and those put in, in order |
| Buffer.Buffer.constructor | base/buffer.h:28-31 | an empty buffer of the initial size |
| Buffer.Buffer.MoveToFront | base/buffer.h:54-54 | the overlapping copy moves the readable bytes unharmed |
| Buffer.Buffer.MakeSpace | base/buffer.h:48-59 | growing or compacting keeps the contents and makes the room |
| Buffer.Buffer.EnsureWriteable | base/buffer.h:41-46 | afterwards there is room, and the contents are the same |
| Buffer.Buffer.Append | base/buffer.h:117-121 | the bytes go behind the contents |
| Buffer.Buffer.Retrieve | base/buffer.h:80-86 | the front is dropped, or everything if more is asked for |
| Buffer.Buffer.RetrieveAll | base/buffer.h:88-88 | everything is dropped |
| Buffer.Buffer.AppendInt32 | base/buffer.h:125-128 | four bytes in network order |
| Buffer.Buffer.PeekInt32 | base/buffer.h:73-78 | the integer in front, which stays |
| Buffer.Buffer.ReadInt32 | base/buffer.h:90-94 | the integer in front, which is dropped |
| Buffer.Perform | base/buffer.h:80-121 | the object follows the queue over any run of appends and retrieves |
| Buffer.AppendThenRead | base/buffer.h:90-128 | integers come back as they went in, in order |
| Buffer.Output.Write | net/connector.cc:214-220 | a positive length of data is appended, anything else ignored |
| Buffer.Output.Send | net/connector.cc:222-237 | while open, the bytes that the kernel accepted followed by those buffered are all the bytes written; a closed connection drops them |

## Left out

- Sockets, epoll and kqueue, timers, clocks, logging, files, the HTTP server and the example servers: input, output or thin wrappers.
- HTTP parser, non-strict mode and pausing: the model is of strict mode, which is what the header selects.
- HTTP parser, failing callbacks: callbacks return 0, except that on_headers_complete may return 1 to skip a body.
- HTTP parser, the zero-length call after which the parser is used again: the call itself is modelled, but an end of file leaves the record in the state of the body it ended.
- HttpMessage.ConversationIsRead: no line ends stand between its messages; HttpMessage.MessageBehindBreaks and HttpTrace.BreakBeginsResponse say what becomes of them.
- HttpHeader.ValuesAreExact: Content-Length values are left to HttpBounds.ContentLengthIsExact and HttpExact.FoldedLengthIsRefused.
- HttpChunked.DecodeInvertsEncode: ranges over what an encoder writes; bytes above 127, which the unhex table maps to 0, are decoded by the model (HttpExact.SizeLineExact) but not part of an encoding.
- HttpUrl.ParsedUrl.ParseUrl: the url has at most 65535 bytes, ends where its text does, and the result starts zeroed, as the 16-bit slice fields and strtoul need; the assertion on unexpected states is proved by the case analysis not having such a case.
- JSON values with floating-point numbers: text conversion of 64-bit integers is exact in the model; a number token with a fraction, an exponent or a larger value ends parsing with an outcome of its own.
- JSON callbacks, iterators, allocators and refilling from a stream.
- JsonEscape.EscapeString: the buffer has one more cell than the string, for the terminator that the control-character branch can write over.
- MD5 of files and the hexadecimal text of a digest: loops over what is modelled. Input memory is a sequence, and the four registers are one record.
- Md5.MD5.Update: requires the buffered bytes and the input to stay below 2^32; beyond that LoopEndsIff shows that the loop does not end.
- MemoryPool.MemoryPoll.Allocate: size 0 is left to the caller, because its list does not exist. The mutex of the pool is not modelled: each call is one step. Memory is a map from addresses to words.
- The pool after release_memory: its lists still point into the released chunks.
- ConnectorTable.ConnectorList.GetUniqId: an empty free list is left to the caller, as in the source, which reads the front of an empty list.
- ConnectorTable.ConnectorList.GetConn: an id whose slot lies beyond the table is left to the caller; the source does not check the bound.
- ConnectorTable.ConnectorList.constructor: the table has fewer than 2^20 slots and an index below 16, the sizes that the id layout has room for. A second init and getConnStatus are not modelled. A shared_ptr is the number of its connector, and the iterator of an entry is a number of its own.
- NetThread.NetThread.CloseConnector: waiting for room in a full queue is a precondition; a tick that finds the queue full waits in the source, for itself.
- NetThread.NetThread.PostCommand: a command's id has a slot inside the table, which NetThread.HeldIdsStayReadable proves for every id ever issued; the source does not check ids that nobody was given.
- Several net threads: a connector lives in the one whose list it was added to; the thread that its descriptor selects is taken to be that one.
- ThreadQueue::swap, Buffer::shrink and Buffer::read_string, which do not keep what is proved here.
- Liveness of the thread pool's shutdown: a worker that goes to sleep after the notification is not woken.
- event_loop.cc, MD5Checksum.cc, hash.cc, string.cc, constant_ptr_list.h and list.h: mostly kernel calls, or variants of what is modelled.
