/** Classification of fetch outcomes: the feed-specific negative status
    codes, their names, which of them call for a proxy or count as permanent,
    and the immutable response holder. */
module Response {
  import opened Wrappers
  import opened Text

  /** The members of `FeedResponseStatus`; HTTP statuses are plain positive
      integers beside them. */
  datatype FeedResponseStatus =
    | UNKNOWN_ERROR | CONNECTION_ERROR | PROXY_ERROR | RSS_PROXY_ERROR
    | RESPONSE_ERROR | DNS_ERROR | PRIVATE_ADDRESS_ERROR | CONNECTION_TIMEOUT
    | SSL_ERROR | READ_TIMEOUT | CONNECTION_RESET | TOO_MANY_REDIRECT_ERROR
    | CHUNKED_ENCODING_ERROR | CONTENT_DECODING_ERROR | CONTENT_TOO_LARGE_ERROR
    | REFERER_DENY | REFERER_NOT_ALLOWED | CONTENT_TYPE_NOT_SUPPORT_ERROR

  function Value(s: FeedResponseStatus): (v: int)
    ensures -500 < v < 0
  {
    match s
    case UNKNOWN_ERROR => -100
    case CONNECTION_ERROR => -200
    case PROXY_ERROR => -300
    case RSS_PROXY_ERROR => -301
    case RESPONSE_ERROR => -400
    case DNS_ERROR => -201
    case PRIVATE_ADDRESS_ERROR => -202
    case CONNECTION_TIMEOUT => -203
    case SSL_ERROR => -204
    case READ_TIMEOUT => -205
    case CONNECTION_RESET => -206
    case TOO_MANY_REDIRECT_ERROR => -401
    case CHUNKED_ENCODING_ERROR => -402
    case CONTENT_DECODING_ERROR => -403
    case CONTENT_TOO_LARGE_ERROR => -404
    case REFERER_DENY => -405
    case REFERER_NOT_ALLOWED => -406
    case CONTENT_TYPE_NOT_SUPPORT_ERROR => -407
  }

  /** The member's `.name`. */
  function MemberName(s: FeedResponseStatus): (n: string)
    ensures n != [] && n[0] != 'E'
  {
    match s
    case UNKNOWN_ERROR => "UNKNOWN_ERROR"
    case CONNECTION_ERROR => "CONNECTION_ERROR"
    case PROXY_ERROR => "PROXY_ERROR"
    case RSS_PROXY_ERROR => "RSS_PROXY_ERROR"
    case RESPONSE_ERROR => "RESPONSE_ERROR"
    case DNS_ERROR => "DNS_ERROR"
    case PRIVATE_ADDRESS_ERROR => "PRIVATE_ADDRESS_ERROR"
    case CONNECTION_TIMEOUT => "CONNECTION_TIMEOUT"
    case SSL_ERROR => "SSL_ERROR"
    case READ_TIMEOUT => "READ_TIMEOUT"
    case CONNECTION_RESET => "CONNECTION_RESET"
    case TOO_MANY_REDIRECT_ERROR => "TOO_MANY_REDIRECT_ERROR"
    case CHUNKED_ENCODING_ERROR => "CHUNKED_ENCODING_ERROR"
    case CONTENT_DECODING_ERROR => "CONTENT_DECODING_ERROR"
    case CONTENT_TOO_LARGE_ERROR => "CONTENT_TOO_LARGE_ERROR"
    case REFERER_DENY => "REFERER_DENY"
    case REFERER_NOT_ALLOWED => "REFERER_NOT_ALLOWED"
    case CONTENT_TYPE_NOT_SUPPORT_ERROR => "CONTENT_TYPE_NOT_SUPPORT_ERROR"
  }

  /** `FeedResponseStatus(value)`: the member with that value, or the
      `ValueError` case. */
  function StatusOf(v: int): (r: Option<FeedResponseStatus>)
    ensures r.Some? ==> Value(r.value) == v
  {
    if v == -100 then Some(UNKNOWN_ERROR)
    else if v == -200 then Some(CONNECTION_ERROR)
    else if v == -300 then Some(PROXY_ERROR)
    else if v == -301 then Some(RSS_PROXY_ERROR)
    else if v == -400 then Some(RESPONSE_ERROR)
    else if v == -201 then Some(DNS_ERROR)
    else if v == -202 then Some(PRIVATE_ADDRESS_ERROR)
    else if v == -203 then Some(CONNECTION_TIMEOUT)
    else if v == -204 then Some(SSL_ERROR)
    else if v == -205 then Some(READ_TIMEOUT)
    else if v == -206 then Some(CONNECTION_RESET)
    else if v == -401 then Some(TOO_MANY_REDIRECT_ERROR)
    else if v == -402 then Some(CHUNKED_ENCODING_ERROR)
    else if v == -403 then Some(CONTENT_DECODING_ERROR)
    else if v == -404 then Some(CONTENT_TOO_LARGE_ERROR)
    else if v == -405 then Some(REFERER_DENY)
    else if v == -406 then Some(REFERER_NOT_ALLOWED)
    else if v == -407 then Some(CONTENT_TYPE_NOT_SUPPORT_ERROR)
    else None
  }

  /** Every member is found again from its value, so no two members share a
      value. */
  lemma {:induction false} StatusOfValue(s: FeedResponseStatus)
    ensures StatusOf(Value(s)) == Some(s)
  {
  }

  /** `name_of(value)`: the HTTP status name (looked up with `httpName`, the
      standard library's `HTTPStatus` table) or `HTTP_<value>` for positive
      values, `FEED_<member>` or `FEED_E<|value|>` otherwise. */
  function NameOf(v: int, httpName: int -> Option<string>): (r: string)
    ensures v > 0 && httpName(v).Some? ==> r == httpName(v).value
    ensures v > 0 && httpName(v).None? ==> r == "HTTP_" + DecimalString(v)
    ensures v <= 0 && StatusOf(v).Some? ==> r == "FEED_" + MemberName(StatusOf(v).value)
    ensures v <= 0 && StatusOf(v).None? ==> r == "FEED_E" + DecimalString(-v)
  {
    if v > 0 then
      match httpName(v)
      case Some(n) => n
      case None => "HTTP_" + DecimalString(v)
    else
      match StatusOf(v)
      case Some(s) => "FEED_" + MemberName(s)
      case None => "FEED_E" + DecimalString(-v)
  }

  lemma {:induction false} MemberNameInjective(s: FeedResponseStatus, t: FeedResponseStatus)
    requires MemberName(s) == MemberName(t)
    ensures s == t
  {
    match s
    case UNKNOWN_ERROR =>
    case CONNECTION_ERROR =>
    case PROXY_ERROR =>
    case RSS_PROXY_ERROR =>
    case RESPONSE_ERROR =>
    case DNS_ERROR =>
    case PRIVATE_ADDRESS_ERROR =>
    case CONNECTION_TIMEOUT =>
    case SSL_ERROR =>
    case READ_TIMEOUT =>
    case CONNECTION_RESET =>
    case TOO_MANY_REDIRECT_ERROR =>
    case CHUNKED_ENCODING_ERROR =>
    case CONTENT_DECODING_ERROR =>
    case CONTENT_TOO_LARGE_ERROR =>
    case REFERER_DENY =>
    case REFERER_NOT_ALLOWED =>
    case CONTENT_TYPE_NOT_SUPPORT_ERROR =>
  }

  /** Non-positive codes have distinct names: a member's name never starts
      with `E`, and the decimal rendering of an unknown code reads back as
      that code. */
  lemma {:induction false} NameOfInjective(v: int, w: int, httpName: int -> Option<string>)
    requires v <= 0 && w <= 0
    requires NameOf(v, httpName) == NameOf(w, httpName)
    ensures v == w
  {
    var a, b := StatusOf(v), StatusOf(w);
    if a.Some? && b.Some? {
      KnownNamesDistinct(a.value, b.value);
    } else if a.None? && b.None? {
      UnknownNamesDistinct(-v, -w);
    } else if a.Some? {
      KnownNotUnknown(a.value, -w);
    } else {
      KnownNotUnknown(b.value, -v);
    }
  }

  lemma {:induction false} KnownNamesDistinct(s: FeedResponseStatus, t: FeedResponseStatus)
    ensures "FEED_" + MemberName(s) == "FEED_" + MemberName(t) ==> s == t
  {
    SamePrefixSameRest("FEED_", MemberName(s), MemberName(t));
    if MemberName(s) == MemberName(t) {
      MemberNameInjective(s, t);
    }
  }

  lemma {:induction false} UnknownNamesDistinct(a: int, b: int)
    ensures "FEED_E" + DecimalString(a) == "FEED_E" + DecimalString(b) ==> a == b
  {
    SamePrefixSameRest("FEED_E", DecimalString(a), DecimalString(b));
    if DecimalString(a) == DecimalString(b) {
      ParseDecimalString(a);
      ParseDecimalString(b);
    }
  }

  lemma {:induction false} KnownNotUnknown(s: FeedResponseStatus, a: int)
    ensures "FEED_" + MemberName(s) != "FEED_E" + DecimalString(a)
  {
    NotLetterE(MemberName(s), DecimalString(a));
  }

  lemma {:induction false} SamePrefixSameRest(p: string, x: string, y: string)
    ensures p + x == p + y ==> x == y
  {
    if p + x == p + y {
      assert x == (p + x)[|p|..];
    }
  }

  lemma {:induction false} NotLetterE(x: string, y: string)
    requires x != [] && x[0] != 'E'
    ensures "FEED_" + x != "FEED_E" + y
  {
    assert ("FEED_" + x)[5] == x[0];
    assert ("FEED_E" + y)[5] == 'E';
  }

  /** The doctests, with an HTTP table that knows 200 as `OK`. */
  lemma {:induction false} NameOfDoctest(httpName: int -> Option<string>)
    requires httpName(200) == Some("OK")
    ensures NameOf(200, httpName) == "OK"
    ensures NameOf(-200, httpName) == "FEED_CONNECTION_ERROR"
    ensures NameOf(-999, httpName) == "FEED_E" + DecimalString(999)
  {
  }

  /** `_NEED_PROXY_STATUS_SET`: the connection-level failures and HTTP 401
      and 403. */
  const NeedProxyStatusSet: set<int> :=
    {Value(CONNECTION_ERROR), Value(DNS_ERROR), Value(CONNECTION_TIMEOUT), Value(READ_TIMEOUT),
     Value(CONNECTION_RESET), Value(PRIVATE_ADDRESS_ERROR), 401, 403}

  /** `_IMAGE_REFERER_DENY_STATUS`. */
  const RefererDenyStatusSet: set<int> :=
    {400, 401, 403, 404, Value(REFERER_DENY), Value(REFERER_NOT_ALLOWED)}

  predicate IsNeedProxy(v: int) {
    v in NeedProxyStatusSet
  }

  /** `is_permanent_failure`: a negative code in the hundreds 2 or 3. */
  predicate IsPermanentFailure(v: int) {
    v < 0 && (-v) / 100 in {2, 3}
  }

  predicate IsReferrerDeny(v: int) {
    v in RefererDenyStatusSet
  }

  /** Permanent failures are exactly the codes from -399 to -200. */
  lemma {:induction false} PermanentFailureRange(v: int)
    ensures IsPermanentFailure(v) <==> -400 < v <= -200
  {
  }

  /** Which members are permanent failures: the connection, DNS, address,
      timeout, TLS, reset and proxy errors. */
  lemma {:induction false} PermanentMembers(s: FeedResponseStatus)
    ensures IsPermanentFailure(Value(s)) <==>
      s in {CONNECTION_ERROR, PROXY_ERROR, RSS_PROXY_ERROR, DNS_ERROR, PRIVATE_ADDRESS_ERROR,
            CONNECTION_TIMEOUT, SSL_ERROR, READ_TIMEOUT, CONNECTION_RESET}
  {
  }

  /** The statuses that call for a proxy are the positive 401 and 403, and
      otherwise feed codes that are all permanent failures. */
  lemma {:induction false} NeedProxyShape(v: int)
    ensures IsNeedProxy(v) && v > 0 <==> v == 401 || v == 403
    ensures IsNeedProxy(v) && v < 0 ==> IsPermanentFailure(v) && StatusOf(v).Some?
  {
  }

  /** Statuses that are both a referrer denial and a reason for a proxy:
      exactly 401 and 403. */
  lemma {:induction false} NeedProxyAndDeny(v: int)
    ensures IsNeedProxy(v) && IsReferrerDeny(v) <==> v == 401 || v == 403
  {
  }

  /** The doctests of the three predicates. */
  lemma {:induction false} ClassifierDoctests()
    ensures IsNeedProxy(Value(CONNECTION_TIMEOUT)) && IsNeedProxy(403) && !IsNeedProxy(404)
    ensures IsPermanentFailure(Value(CONNECTION_TIMEOUT)) && IsPermanentFailure(Value(RSS_PROXY_ERROR))
    ensures !IsPermanentFailure(404)
    ensures IsReferrerDeny(403) && !IsReferrerDeny(500)
  {
  }

  /** `FeedContentType`. */
  datatype FeedContentType = HTML | JSON | XML | OTHER

  /** The fields of a `FeedResponse`; content is bytes, absent ones are None. */
  datatype FeedResponse = FeedResponse(
    content: Option<seq<int>>,
    status: int,
    url: Option<string>,
    encoding: Option<string>,
    etag: Option<string>,
    lastModified: Option<string>,
    mimeType: Option<string>,
    feedType: FeedContentType,
    useProxy: Option<bool>)
  {
    /** `ok`: the status is HTTP 200. */
    predicate Ok() {
      status == 200
    }

    predicate NeedProxy() {
      IsNeedProxy(status)
    }
  }

  /** `FeedResponse(...)`: status defaults to 200 and the feed type to OTHER;
      every other field is kept as given. */
  function NewFeedResponse(
    content: Option<seq<int>>, status: Option<int>, url: Option<string>,
    etag: Option<string>, lastModified: Option<string>, encoding: Option<string>,
    mimeType: Option<string>, feedType: Option<FeedContentType>, useProxy: Option<bool>): (r: FeedResponse)
    ensures status.None? ==> r.status == 200 && r.Ok()
    ensures status.Some? ==> r.status == status.value
    ensures r.Ok() <==> status.None? || status.value == 200
    ensures feedType.None? ==> r.feedType == OTHER
    ensures feedType.Some? ==> r.feedType == feedType.value
    ensures r.content == content && r.url == url && r.etag == etag && r.lastModified == lastModified
    ensures r.encoding == encoding && r.mimeType == mimeType && r.useProxy == useProxy
  {
    FeedResponse(content, if status.None? then 200 else status.value, url, encoding, etag,
      lastModified, mimeType, if feedType.None? then OTHER else feedType.value, useProxy)
  }
}
