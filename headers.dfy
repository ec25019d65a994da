/**
 * The header injection policy of PlexClient: the identity and content
 * negotiation headers stamped on every request, the optional token, and the
 * pagination window headers.
 */
module PlexHeaders {
  import opened Wrappers
  import opened Text
  import opened Requests

  /** The process-wide client identity (ClientOptions). */
  datatype ClientOptions = ClientOptions(
    applicationName: string,
    deviceName: string,
    clientId: string)  // the client GUID already in its hyphen-less "N" form

  const TokenKey := "X-Plex-Token"
  const StartKey := "X-Plex-Container-Start"
  const SizeKey := "X-Plex-Container-Size"

  /** The identity and negotiation headers AddHeaders writes through AddHeader. */
  function IdentityHeaders(options: ClientOptions): (r: map<string, string>)
    ensures TokenKey !in r && StartKey !in r && SizeKey !in r
  {
    map[
      "X-Plex-Client-Identifier" := options.clientId,
      "X-Plex-Product" := options.applicationName,
      "X-Plex-Version" := "3",
      "X-Plex-Device" := options.deviceName,
      "X-Plex-Platform" := "Web",
      "Accept" := "application/json"]
  }

  /** Writing the identity headers one key at a time, in the source's order, gives the same map. */
  lemma IdentityHeadersInOrder(options: ClientOptions, h: map<string, string>)
    ensures h + IdentityHeaders(options)
         == h["X-Plex-Client-Identifier" := options.clientId]
             ["X-Plex-Product" := options.applicationName]
             ["X-Plex-Version" := "3"]
             ["X-Plex-Device" := options.deviceName]
             ["X-Plex-Platform" := "Web"]
             ["Accept" := "application/json"]
  {
  }

  /** The Content-Type value AddHeaders writes through AddContentHeader. */
  function ContentTypeValue(contentType: ContentType): (r: string)
    ensures r == "application/json" <==> contentType == Json
    ensures r == "application/xml" <==> contentType == Xml
  {
    assert "application/json"[12] != "application/xml"[12];
    match contentType
    case Json => "application/json"
    case Xml => "application/xml"
  }

  /** The headers AddLimitHeaders writes for the window (from, to). */
  function LimitHeaders(from: int, to: int): (r: map<string, string>)
    ensures r.Keys == {StartKey, SizeKey}
    ensures |r[StartKey]| > 0 && |r[SizeKey]| > 0
  {
    map[StartKey := DecimalString(from), SizeKey := DecimalString(to)]
  }

  /**
   * Accept is JSON whatever the request's content type, so the request
   * declares the same media type it accepts exactly when it is a JSON request.
   */
  lemma ContentNegotiation(options: ClientOptions, contentType: ContentType)
    ensures IdentityHeaders(options)["Accept"] == "application/json"
    ensures ContentTypeValue(contentType) == IdentityHeaders(options)["Accept"] <==> contentType == Json
  {
  }

  /** Without a token, stamping the identity headers never introduces X-Plex-Token. */
  lemma IdentityHeadersCarryNoToken(options: ClientOptions, h: map<string, string>)
    ensures TokenKey !in IdentityHeaders(options)
    ensures TokenKey in h + IdentityHeaders(options) <==> TokenKey in h
  {
  }

  /** A token written before the identity headers survives them, with the value supplied. */
  lemma TokenSurvivesIdentityHeaders(options: ClientOptions, h: map<string, string>, token: string)
    ensures TokenKey in h[TokenKey := token] + IdentityHeaders(options)
    ensures (h[TokenKey := token] + IdentityHeaders(options))[TokenKey] == token
  {
    IdentityHeadersCarryNoToken(options, h);
  }

  /** Stamping the identity headers a second time changes nothing. */
  lemma IdentityHeadersIdempotent(options: ClientOptions, h: map<string, string>)
    ensures (h + IdentityHeaders(options)) + IdentityHeaders(options) == h + IdentityHeaders(options)
  {
  }

  /**
   * The window headers share no key with the identity headers or the token,
   * so the order in which an endpoint applies window, token and identity
   * headers does not matter.
   */
  lemma LimitAndIdentityHeadersCommute(options: ClientOptions, h: map<string, string>, token: string, from: int, to: int)
    ensures TokenKey !in LimitHeaders(from, to)
    ensures (h + LimitHeaders(from, to))[TokenKey := token] + IdentityHeaders(options)
         == (h[TokenKey := token] + IdentityHeaders(options)) + LimitHeaders(from, to)
  {
  }

  /** The window headers hold the exact integers: each parses back, with no range check on either. */
  lemma LimitHeadersRoundTrip(from: int, to: int)
    ensures ParseDecimal(LimitHeaders(from, to)[StartKey]) == Some(from)
    ensures ParseDecimal(LimitHeaders(from, to)[SizeKey]) == Some(to)
  {
    DecimalStringRoundTrip(from);
    DecimalStringRoundTrip(to);
  }
}
