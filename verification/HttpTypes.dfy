/**
 The data of net/http_parser.h: the parser record, its enumerations and the
 character classes of strict mode.  A byte is a char below 256; every function
 here is total on char, so each statement about chars covers all bytes.
 */
module HttpTypes {
  const MAX_HEADER_SIZE := 80 * 1024
  const U64 := 0x1_0000_0000_0000_0000

  /** The value content_length holds while no length is known. */
  const ULLONG_MAX := U64 - 1

  const CRLF := "\r\n"

  type u64 = n: nat | n < U64

  datatype ParserType = Request | Response | Both

  datatype Method =
    | DELETE | GET | HEAD | POST | PUT | CONNECT | OPTIONS | TRACE
    | COPY | LOCK | MKCOL | MOVE | PROPFIND | PROPPATCH | SEARCH | UNLOCK
    | REPORT | MKACTIVITY | CHECKOUT | MERGE
    | MSEARCH | NOTIFY | SUBSCRIBE | UNSUBSCRIBE
    | PATCH | PURGE | MKCALENDAR

  datatype Errno =
    | OK
    | InvalidEofState | HeaderOverflow | ClosedConnection | InvalidVersion
    | InvalidStatus | InvalidMethod | InvalidUrl | LfExpected
    | InvalidHeaderToken | InvalidContentLength | InvalidChunkSize
    | InvalidConstant | StrictCheck

  /** The states of a response's first line. */
  datatype StatusState =
    | ResH | ResHT | ResHTT | ResHTTP
    | ResFirstHttpMajor | ResHttpMajor | ResFirstHttpMinor | ResHttpMinor
    | ResFirstStatusCode | ResStatusCode | ResStatusStart | ResStatus | ResLineAlmostDone

  /** The states of a request's url. */
  datatype UrlState =
    | SpacesBeforeUrl
    | Schema | SchemaSlash | SchemaSlashSlash
    | ServerStart | Server | ServerWithAt
    | Path | QueryStringStart | QueryString | FragmentStart | Fragment

  /** The states of the rest of a request's first line. */
  datatype VersionState =
    | ReqHttpStart | ReqHttpH | ReqHttpHT | ReqHttpHTT | ReqHttpHTTP
    | ReqFirstHttpMajor | ReqHttpMajor | ReqFirstHttpMinor | ReqHttpMinor | ReqLineAlmostDone

  /** The states of a header value. */
  datatype ValueState =
    | DiscardWs | DiscardWsAlmostDone | DiscardLws
    | ValueStart | ValueText | ValueLws | ValueAlmostDone

  /** The states of a chunked body. */
  datatype ChunkState =
    | SizeStart | Size | Parameters | SizeAlmostDone
    | Data | DataAlmostDone | DataDone

  /** enum state, its runs of neighbouring states grouped under one constructor each. */
  datatype State =
    | Dead
    | StartReqOrRes | ResOrRespH | StartRes
    | Status(status: StatusState)
    | StartReq
    | ReqMethod
    | Url(url: UrlState)
    | Version(version: VersionState)
    | HeaderFieldStart | HeaderField
    | Value(value: ValueState)
    | Chunk(chunk: ChunkState)
    | HeadersAlmostDone | HeadersDone
    | BodyIdentity | BodyIdentityEof | MessageDone

  datatype HeaderState =
    | General | HC | HCO | HCON
    | MatchingConnection | MatchingProxyConnection | MatchingContentLength
    | MatchingTransferEncoding | MatchingUpgrade
    | Connection | ContentLength | TransferEncoding | Upgrade
    | MatchingChunked | MatchingKeepAlive | MatchingClose
    | Chunked | KeepAlive | Close

  datatype Flags = Flags(chunked: bool, keepAlive: bool, close: bool,
                         trailing: bool, upgrade: bool, skipBody: bool)

  const NO_FLAGS := Flags(false, false, false, false, false, false)

  /** struct http_parser, without the client's own data pointer. */
  datatype Parser = Parser(
    kind: ParserType, flags: Flags, state: State, headerState: HeaderState, index: nat,
    nread: nat, contentLength: u64,
    httpMajor: nat, httpMinor: nat, statusCode: nat, verb: Method, errno: Errno,
    upgrade: bool)

  /** The text before the first space of a request, per method. */
  function MethodString(m: Method): (s: string)
    ensures |s| >= 3
  {
    match m
    case DELETE => "DELETE"
    case GET => "GET"
    case HEAD => "HEAD"
    case POST => "POST"
    case PUT => "PUT"
    case CONNECT => "CONNECT"
    case OPTIONS => "OPTIONS"
    case TRACE => "TRACE"
    case COPY => "COPY"
    case LOCK => "LOCK"
    case MKCOL => "MKCOL"
    case MOVE => "MOVE"
    case PROPFIND => "PROPFIND"
    case PROPPATCH => "PROPPATCH"
    case SEARCH => "SEARCH"
    case UNLOCK => "UNLOCK"
    case REPORT => "REPORT"
    case MKACTIVITY => "MKACTIVITY"
    case CHECKOUT => "CHECKOUT"
    case MERGE => "MERGE"
    case MSEARCH => "M-SEARCH"
    case NOTIFY => "NOTIFY"
    case SUBSCRIBE => "SUBSCRIBE"
    case UNSUBSCRIBE => "UNSUBSCRIBE"
    case PATCH => "PATCH"
    case PURGE => "PURGE"
    case MKCALENDAR => "MKCALENDAR"
  }

  /** The states in which bytes count against MAX_HEADER_SIZE. */
  predicate ParsingHeader(s: State) {
    match s
    case Chunk(c) => !c.Data? && !c.DataAlmostDone? && !c.DataDone?
    case BodyIdentity | BodyIdentityEof | MessageDone => false
    case _ => true
  }

  /** Indexing a NUL-terminated C string; reads past the terminator give NUL too. */
  function At(s: string, i: nat): char {
    if i < |s| then s[i] else '\0'
  }

  // ---- character classes ----

  /** LOWER: sets bit 5. */
  function Lower(c: char): char
  {
    if (c as int / 32) % 2 == 0 && c as int < 256 then (c as int + 32) as char else c
  }

  predicate IsAlpha(c: char) { 'a' <= c <= 'z' || 'A' <= c <= 'Z' }

  predicate IsNum(c: char) { '0' <= c <= '9' }

  predicate IsAlphaNum(c: char) { IsAlpha(c) || IsNum(c) }

  predicate IsHex(c: char) { IsNum(c) || 'a' <= c <= 'f' || 'A' <= c <= 'F' }

  predicate IsMark(c: char) {
    c == '-' || c == '_' || c == '.' || c == '!' || c == '~' || c == '*' || c == '\'' ||
    c == '(' || c == ')'
  }

  predicate IsUserinfoChar(c: char) {
    IsAlphaNum(c) || IsMark(c) || c == '%' || c == ';' || c == ':' || c == '&' || c == '=' ||
    c == '+' || c == '$' || c == ','
  }

  predicate IsHostChar(c: char) { IsAlphaNum(c) || c == '.' || c == '-' }

  /** The bits set in normal_url_char: printable ASCII without space, '#' and '?'. */
  predicate IsUrlChar(c: char) {
    '!' <= c <= '~' && c != '#' && c != '?'
  }

  /** The tokens table: the lower-cased token character, or NUL. */
  function Token(c: char): char {
    if 'A' <= c <= 'Z' then (c as int + 32) as char
    else if 'a' <= c <= 'z' || IsNum(c) then c
    else if c == '!' || c == '#' || c == '$' || c == '%' || c == '&' || c == '\'' || c == '*' ||
            c == '+' || c == '-' || c == '.' || c == '^' || c == '_' || c == '`' || c == '|' ||
            c == '~' then c
    else '\0'
  }

  /** The unhex table; its 128 unwritten entries are zero. */
  function Unhex(c: char): (v: int)
    ensures -1 <= v < 16
  {
    if IsNum(c) then c as int - '0' as int
    else if 'a' <= c <= 'f' then c as int - 'a' as int + 10
    else if 'A' <= c <= 'F' then c as int - 'A' as int + 10
    else if c as int < 128 then -1
    else 0
  }

  function Digit(c: char): nat
    requires IsNum(c)
  {
    c as int - '0' as int
  }

  // ---- what the callbacks observe ----

  /** The kinds of byte ranges handed to data callbacks. */
  datatype Kind = UrlData | StatusData | FieldData | ValueData | BodyData

  /** A notification callback, with the record it is given. */
  datatype Notice =
    | Begin(p: Parser)
    | HeadersComplete(p: Parser, skip: bool)
    | Complete(p: Parser)

  /** One observable unit: a byte delivered as data of some kind, data without a byte, or a notification. */
  datatype Ev = Byte(kind: Kind, ch: char) | Empty(kind: Kind) | Notify(notice: Notice)

  /** skipBody(p) is true when on_headers_complete, called on p, returns 1. */
  datatype Settings = Settings(skipBody: Parser -> bool)
}
