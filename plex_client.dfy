/**
 * PlexClient: the request decoration done before dispatch (AddHeaders with
 * and without a token, AddLimitHeaders), the endpoints that call it in the
 * ways worth distinguishing, the OAuth linking URL and the AddUser response
 * selection. Dispatch itself (IApi) is not modelled: an endpoint returns the
 * request it would dispatch, and AddUser takes the response body as input.
 */
module Plex {
  import opened Wrappers
  import opened Text
  import opened Requests
  import opened PlexHeaders
  import Uris
  import OAuthLink
  import AddUserResponse

  newtype int32 = x: int | -0x8000_0000 <= x < 0x8000_0000

  class PlexClient {
    const options: ClientOptions

    constructor (options: ClientOptions)
      ensures this.options == options
    {
      this.options := options;
    }

    /** AddHeaders(Request): stamps the identity and content negotiation headers. */
    method AddHeaders(request: Request)
      modifies request
      ensures request.headers == old(request.headers) + IdentityHeaders(options)
      ensures request.contentHeaders == old(request.contentHeaders)["Content-Type" := ContentTypeValue(request.contentType)]
      ensures request.query == old(request.query) && request.uriOverride == old(request.uriOverride)
    {
      request.AddHeader("X-Plex-Client-Identifier", options.clientId);
      request.AddHeader("X-Plex-Product", options.applicationName);
      request.AddHeader("X-Plex-Version", "3");
      request.AddHeader("X-Plex-Device", options.deviceName);
      request.AddHeader("X-Plex-Platform", "Web");
      request.AddContentHeader("Content-Type", if request.contentType == Json then "application/json" else "application/xml");
      request.AddHeader("Accept", "application/json");
      IdentityHeadersInOrder(options, old(request.headers));
    }

    /** AddHeaders(Request, string): the token, exactly as given, then the identity headers. */
    method AddHeadersWithToken(request: Request, authToken: string)
      modifies request
      ensures request.headers == old(request.headers)[TokenKey := authToken] + IdentityHeaders(options)
      ensures request.headers[TokenKey] == authToken
      ensures request.contentHeaders == old(request.contentHeaders)["Content-Type" := ContentTypeValue(request.contentType)]
      ensures request.query == old(request.query) && request.uriOverride == old(request.uriOverride)
    {
      request.AddHeader(TokenKey, authToken);
      AddHeaders(request);
      TokenSurvivesIdentityHeaders(options, old(request.headers), authToken);
    }

    /** AddLimitHeaders: the window as decimal strings, without a range check. */
    method AddLimitHeaders(request: Request, from: int32, to: int32)
      modifies request
      ensures request.headers == old(request.headers) + LimitHeaders(from as int, to as int)
      ensures request.contentHeaders == old(request.contentHeaders)
      ensures request.query == old(request.query) && request.uriOverride == old(request.uriOverride)
    {
      request.AddHeader(StartKey, DecimalString(from as int));
      request.AddHeader(SizeKey, DecimalString(to as int));
    }

    /** GetPin: an anonymous request on plex.tv, so it carries no token. */
    method GetPin(pinId: int32) returns (sent: Request)
      ensures sent.path == "api/v2/pins/" + DecimalString(pinId as int) && sent.host == "https://plex.tv/"
      ensures sent.httpMethod == Get && sent.contentType == Json
      ensures sent.headers == IdentityHeaders(options) && TokenKey !in sent.headers
      ensures sent.contentHeaders == map["Content-Type" := "application/json"]
      ensures sent.query == [] && sent.uriOverride == None
    {
      sent := new Request("api/v2/pins/" + DecimalString(pinId as int), "https://plex.tv/", Get);
      AddHeaders(sent);
      IdentityHeadersCarryNoToken(options, map[]);
    }

    /** GetAllEpisodes: the type filter, the caller's window, then the token and identity headers. */
    method GetAllEpisodes(authToken: string, host: string, section: string, start: int32, retCount: int32)
      returns (sent: Request)
      ensures sent.path == "/library/sections/" + section + "/all" && sent.host == host
      ensures sent.httpMethod == Get && sent.contentType == Json
      ensures sent.headers
           == LimitHeaders(start as int, retCount as int)[TokenKey := authToken] + IdentityHeaders(options)
      ensures sent.headers[TokenKey] == authToken
      ensures sent.contentHeaders == map["Content-Type" := "application/json"]
      ensures sent.query == [("type", "4")] && sent.uriOverride == None
    {
      sent := new Request("/library/sections/" + section + "/all", host, Get);
      sent.AddQueryString("type", "4");
      AddLimitHeaders(sent, start, retCount);
      AddHeadersWithToken(sent, authToken);
    }

    /** GetRecentlyAdded: the token and identity headers, then always the window (0, 50). */
    method GetRecentlyAdded(authToken: string, uri: string, sectionId: string) returns (sent: Request)
      ensures sent.path == "library/sections/" + sectionId + "/recentlyAdded" && sent.host == uri
      ensures sent.httpMethod == Get && sent.contentType == Json
      ensures sent.headers
           == (map[TokenKey := authToken] + IdentityHeaders(options)) + LimitHeaders(0, 50)
      ensures sent.headers[TokenKey] == authToken
      ensures sent.headers[StartKey] == "0" && sent.headers[SizeKey] == "50"
      ensures sent.contentHeaders == map["Content-Type" := "application/json"]
      ensures sent.query == [] && sent.uriOverride == None
    {
      sent := new Request("library/sections/" + sectionId + "/recentlyAdded", uri, Get);
      AddHeadersWithToken(sent, authToken);
      AddLimitHeaders(sent, 0, 50);
    }

    /**
     * GetOAuthUrl: the linking URL for pin `code`. `authUri` is the absolute
     * URI that the request's path "auth#" resolves to on https://app.plex.tv.
     * `applicationUrl` is accepted and not used.
     */
    method GetOAuthUrl(code: string, applicationUrl: string, authUri: string)
      returns (r: Result<string, Exception>)
      ensures r == OAuthLink.LinkingUri(Uris.WithQuery(authUri, OAuthLink.OAuthQuery(code, options)))
    {
      var request := new Request("auth#", "https://app.plex.tv", Get);
      AddHeaders(request);

      request.AddQueryString("code", code);
      request.AddQueryString("context[device][product]", options.applicationName);
      request.AddQueryString("context[device][environment]", "bundled");
      request.AddQueryString("context[device][layout]", "desktop");
      request.AddQueryString("context[device][platform]", "Web");
      request.AddQueryString("context[device][device]", options.deviceName);

      request.AddQueryString("clientID", options.clientId);

      assert request.query == OAuthLink.OAuthQuery(code, options);
      var uri := request.FullUri(authUri);
      assert uri == Uris.WithQuery(authUri, OAuthLink.OAuthQuery(code, options));
      if Uris.Fragment(uri) == "#" {
        var better :- OAuthLink.FixFragment(uri);
        request.SetFullUri(better);
        assert request.FullUri(authUri) == better;
      }

      r := Ok(request.FullUri(authUri));
    }

    /**
     * AddUser: share a server with `emailAddress`. The XML request is built
     * and decorated with the token; `content` is the raw response body, which
     * is parsed as the success schema and, on InvalidOperationException, as
     * the error schema. `libs` is None for a null array: reading its Length
     * while building the body throws before anything is sent.
     */
    method AddUser<A, E>(emailAddress: string, serverId: string, authToken: string, libs: Option<seq<int32>>,
                         content: string, parseAdd: string -> AddUserResponse.Parse<A>,
                         parseError: string -> AddUserResponse.Parse<E>)
      returns (sent: Request, r: Result<AddUserResponse.PlexAddWrapper<A, E>, Exception>)
      ensures sent.path == "" && sent.host == "https://plex.tv/api/servers/" + serverId + "/shared_servers"
      ensures sent.httpMethod == Post && sent.contentType == Xml
      ensures sent.headers == map[TokenKey := authToken] + IdentityHeaders(options)
      ensures sent.contentHeaders == map["Content-Type" := "application/xml"]
      ensures sent.query == [] && sent.uriOverride == None
      ensures libs.None? ==> r == Err(NullReference)
      ensures libs.Some? ==> r == AddUserResponse.SelectAddResult(content, parseAdd, parseError)
      ensures r.Ok? ==> (r.value.add.Some? <==> r.value.error.None?)
    {
      sent := new Request("", "https://plex.tv/api/servers/" + serverId + "/shared_servers", Post, Xml);
      AddHeadersWithToken(sent, authToken);
      if libs.None? {
        return sent, Err(NullReference);
      }
      r := AddUserResponse.SelectAddResult(content, parseAdd, parseError);
    }
  }
}
