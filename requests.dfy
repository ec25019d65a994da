/**
 * The pending-request descriptor the client decorates before dispatch
 * (Plex.Api.Helpers.Request). Only the members the client uses are modelled:
 * the content type fixed at construction, the header and content-header
 * maps, the query list and the full URI.
 */
module Requests {
  import opened Wrappers
  import Uris

  datatype ContentType = Json | Xml

  datatype HttpMethod = Get | Post

  class Request {
    const path: string
    const host: string
    const httpMethod: HttpMethod
    const contentType: ContentType

    /** Message headers: one value per key, the last write wins. */
    var headers: map<string, string>
    /** Headers written through AddContentHeader, kept apart from `headers`. */
    var contentHeaders: map<string, string>
    /** Query parameters in the order they were added. */
    var query: Uris.Query
    /** A full URI assigned by the caller, replacing the one derived from the request. */
    var uriOverride: Option<string>

    constructor (path: string, host: string, httpMethod: HttpMethod, contentType: ContentType := Json)
      ensures this.path == path && this.host == host
      ensures this.httpMethod == httpMethod && this.contentType == contentType
      ensures headers == map[] && contentHeaders == map[] && query == [] && uriOverride == None
    {
      this.path := path;
      this.host := host;
      this.httpMethod := httpMethod;
      this.contentType := contentType;
      headers := map[];
      contentHeaders := map[];
      query := [];
      uriOverride := None;
    }

    /**
     * The request's full URI, given the absolute URI `resolved` that its host
     * and path resolve to: the assigned URI if there is one, otherwise
     * `resolved` with the query list rendered before its fragment.
     */
    function FullUri(resolved: string): string
      reads this
    {
      match uriOverride
      case Some(u) => u
      case None => Uris.WithQuery(resolved, query)
    }

    method AddHeader(key: string, value: string)
      modifies this
      ensures headers == old(headers)[key := value]
      ensures contentHeaders == old(contentHeaders) && query == old(query) && uriOverride == old(uriOverride)
    {
      headers := headers[key := value];
    }

    method AddContentHeader(key: string, value: string)
      modifies this
      ensures contentHeaders == old(contentHeaders)[key := value]
      ensures headers == old(headers) && query == old(query) && uriOverride == old(uriOverride)
    {
      contentHeaders := contentHeaders[key := value];
    }

    method AddQueryString(key: string, value: string)
      modifies this
      ensures query == old(query) + [(key, value)]
      ensures headers == old(headers) && contentHeaders == old(contentHeaders) && uriOverride == old(uriOverride)
    {
      query := query + [(key, value)];
    }

    /** The `FullUri` setter. */
    method SetFullUri(u: string)
      modifies this
      ensures uriOverride == Some(u)
      ensures headers == old(headers) && contentHeaders == old(contentHeaders) && query == old(query)
    {
      uriOverride := Some(u);
    }
  }
}
