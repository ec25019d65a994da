# Plex API client: request decoration, OAuth linking URL and AddUser response selection

This project models the logic of `PlexClient` in the Plex API client library
that goes beyond building a request and dispatching it:

- the header injection policy: `AddHeaders(Request)` stamps the client
  identity headers and the content negotiation headers on every request;
  `AddHeaders(Request, string)` first writes `X-Plex-Token`;
  `AddLimitHeaders` writes the pagination window as decimal strings;
- the endpoints that use these in the ways worth telling apart: `GetPin`
  (no token), `GetAllEpisodes` (a query parameter, the caller's window, then
  the token) and `GetRecentlyAdded` (the token, then always the window with
  start 0 and size 50);
- `GetOAuthUrl`: the seven query parameters of the device-linking URL, in
  order, and the string fix-up that turns `https://app.plex.tv/auth?...#` into
  `https://app.plex.tv/auth#?...` (Remove the last character, IndexOf the
  first `?`, Insert `#` there);
- `AddUser`: the dual-schema response selection, which parses the body as the
  success schema and, only on `InvalidOperationException`, as the error
  schema.

Layout:

- `wrappers.dfy` (`Wrappers`): `Option`, `Result` and the .NET exceptions
  that matter here.
- `text.dfy` (`Text`): the .NET string operations the fix-up uses
  (`IndexOf`, `Remove`, `Insert`, with their `ArgumentOutOfRangeException`
  cases) and `Int32.ToString()` as `DecimalString`, with its parser.
- `uris.dfy` (`Uris`): `System.Uri.Fragment` on a URI string, and the text a
  request's query list contributes to its full URI.
- `requests.dfy` (`Requests`): the mutable `Request` object, with its header
  map, content header map, query list and URI override. The source of
  `Request` is not part of this model. Its methods are modelled as
  `AddHeader` (set or overwrite one key), `AddContentHeader`,
  `AddQueryString` (append a pair) and setting `FullUri`.
- `headers.dfy` (`PlexHeaders`): the header maps `AddHeaders` and
  `AddLimitHeaders` write, and the lemmas about them.
- `oauth.dfy` (`OAuthLink`): the OAuth query, the fragment fix-up and
  what is proved about it.
- `add_user.dfy` (`AddUserResponse`): the success-else-error selection.
- `plex_client.dfy` (`Plex`): the `PlexClient` class. Its methods change a
  `Request` step by step, as the source does. Each method's contract ties the
  new request state, or its result, to the functions above.

## Model

| member | source | states |
|---|---|---|
| Plex.PlexClient.AddHeaders | src/Plex.Api/PlexClient.cs:284-293 | The request gains exactly the six identity and negotiation headers (client id, product, version "3", device, platform "Web", Accept JSON), over whatever it held. Content-Type is set from its content type. Query and URI are untouched. |
| Plex.PlexClient.AddHeadersWithToken | src/Plex.Api/PlexClient.cs:274-278 | X-Plex-Token is written with exactly the supplied value, with no empty check, and then the identity headers. The token is still there, unchanged, when the method returns. |
| Plex.PlexClient.AddLimitHeaders | src/Plex.Api/PlexClient.cs:295-299 | X-Plex-Container-Start and X-Plex-Container-Size are set to the decimal strings of `from` and `to`, with no range check. No other header changes. |
| Plex.PlexClient.GetPin | src/Plex.Api/PlexClient.cs:207-213 | The anonymous pin request on plex.tv carries exactly the identity headers and no X-Plex-Token. |
| Plex.PlexClient.GetAllEpisodes | src/Plex.Api/PlexClient.cs:173-182 | The request carries the query `type=4`. Its headers are the caller's window, the supplied token and the identity headers. |
| Plex.PlexClient.GetRecentlyAdded | src/Plex.Api/PlexClient.cs:198-205 | The request carries the token and identity headers, and always the window start "0" and size "50". |
| Plex.PlexClient.GetOAuthUrl | src/Plex.Api/PlexClient.cs:215-239 | The result is the full URI with the seven OAuth parameters in source order, fixed up exactly when its fragment is "#". A failing fix-up is the exception that escapes. |
| Plex.PlexClient.AddUser | src/Plex.Api/PlexClient.cs:241-266 | The XML POST goes to the server's shared_servers URI with the token and identity headers, no query and no URI override. A null `libs` throws NullReferenceException while the body is built. Otherwise the returned wrapper, or the exception, is the success-else-error selection on the response body. Add and Error are never both set, and never both unset. |
| PlexHeaders.IdentityHeaders | src/Plex.Api/PlexClient.cs:286-292 | The identity headers hold neither X-Plex-Token nor either window key. |
| PlexHeaders.ContentTypeValue | src/Plex.Api/PlexClient.cs:291 | Content-Type is "application/json" iff the request is JSON, and "application/xml" iff it is XML. |
| PlexHeaders.LimitHeaders | src/Plex.Api/PlexClient.cs:297-298 | The window writes exactly the keys X-Plex-Container-Start and X-Plex-Container-Size, each with a non-empty value. |
| PlexHeaders.IdentityHeadersInOrder | src/Plex.Api/PlexClient.cs:286-292 | Writing the six headers one at a time in source order equals overlaying the identity header map. |
| PlexHeaders.ContentNegotiation | src/Plex.Api/PlexClient.cs:291-292 | Accept is "application/json" whatever the content type. Content-Type equals Accept iff the request is JSON. |
| PlexHeaders.IdentityHeadersCarryNoToken | src/Plex.Api/PlexClient.cs:284-293 | The identity headers never hold X-Plex-Token. After them, a token is present iff it was present before. |
| PlexHeaders.TokenSurvivesIdentityHeaders | src/Plex.Api/PlexClient.cs:274-278 | A token written before the identity headers is still present afterwards, with the supplied value. |
| PlexHeaders.IdentityHeadersIdempotent | src/Plex.Api/PlexClient.cs:284-293 | Stamping the identity headers twice gives the same headers as stamping them once. |
| PlexHeaders.LimitAndIdentityHeadersCommute | src/Plex.Api/PlexClient.cs:178-179 | The window headers hold no token. Window-then-token-and-identity gives the same headers as token-and-identity-then-window. |
| PlexHeaders.LimitHeadersRoundTrip | src/Plex.Api/PlexClient.cs:297-298 | Each window header parses back to exactly the integer given, negative values included. |
| Text.IndexOf | src/Plex.Api/PlexClient.cs:233 | The result is -1 iff the character is absent. Otherwise it is the position of the character's first occurrence. |
| Text.IndexOfUnique | src/Plex.Api/PlexClient.cs:233 | A position holding the character with no earlier occurrence is the one IndexOf returns. |
| Text.Remove | src/Plex.Api/PlexClient.cs:232 | String.Remove throws ArgumentOutOfRange iff the range leaves the string. Otherwise it drops exactly that range and keeps the text on both sides. |
| Text.Insert | src/Plex.Api/PlexClient.cs:234 | String.Insert throws ArgumentOutOfRange iff the index is negative or past the end. Otherwise the value is placed at that index. |
| Text.RemoveUndoesInsert | src/Plex.Api/PlexClient.cs:232-234 | Removing what was just inserted gives back the original string. |
| Text.Digits | src/Plex.Api/PlexClient.cs:297-298 | A natural number's decimal text is non-empty and starts with a digit. |
| Text.DecimalString | src/Plex.Api/PlexClient.cs:297-298 | Int32.ToString is non-empty and starts with '-' iff the number is negative. |
| Text.DigitsRoundTrip | src/Plex.Api/PlexClient.cs:297-298 | Parsing a natural number's decimal text gives the number back. |
| Text.DecimalStringRoundTrip | src/Plex.Api/PlexClient.cs:297-298 | Parsing Int32.ToString's text gives the integer back. |
| Text.DecimalStringInjective | src/Plex.Api/PlexClient.cs:297-298 | Distinct integers give distinct header values. |
| Uris.Fragment | src/Plex.Api/PlexClient.cs:229 | The fragment is empty iff there is no '#'. Otherwise it is the suffix that starts at the first '#'. |
| Uris.BareFragment | src/Plex.Api/PlexClient.cs:229 | The fragment is exactly "#" iff the URI ends in '#' and has no other '#'. |
| Uris.QueryText | src/Plex.Api/PlexClient.cs:220-227 | Assumed `Request` behaviour: the query text is empty iff there are no parameters. |
| Uris.WithQuery | src/Plex.Api/PlexClient.cs:220-229 | Assumed `Request` behaviour: with no parameters the URI is the resolved base. Otherwise it is one character longer than the base plus the query text. |
| Uris.WithQueryParts | src/Plex.Api/PlexClient.cs:220-229 | Assumed `Request` behaviour: with parameters, the full URI keeps the text before the base's fragment. Then comes one separator ('&' if that text already holds a '?', otherwise '?'), then the query text, and the base's fragment comes last. |
| Uris.QueryTextFreeOf | src/Plex.Api/PlexClient.cs:220-227 | The query text holds no character other than '=' and '&' that none of its keys and values holds. |
| Uris.QueryTextAppend | src/Plex.Api/PlexClient.cs:220-227 | Appending a parameter appends its `key=value` text after an '&' (with no '&' when it is the first), so the parameters appear in the order added. |
| Uris.WithQueryBareFragment | src/Plex.Api/PlexClient.cs:217-227 | On a base `prefix#` with no '?' in the prefix, any non-empty query goes where the '#' was, after a '?', and the '#' ends up last. |
| Uris.WithQueryMarksQuery | src/Plex.Api/PlexClient.cs:220-233 | A request with at least one query parameter has a '?' before the last character of its full URI. |
| OAuthLink.OAuthQuery | src/Plex.Api/PlexClient.cs:220-227 | There are seven parameters, the first `code` with the pin code and the last `clientID` with the client id. |
| OAuthLink.OAuthQueryKeysDistinct | src/Plex.Api/PlexClient.cs:220-227 | No parameter name of the OAuth query repeats. |
| OAuthLink.FixFragment | src/Plex.Api/PlexClient.cs:231-234 | The Remove/IndexOf/Insert surgery either throws ArgumentOutOfRange or returns a string of the same length that holds a '#'. |
| OAuthLink.LinkingUri | src/Plex.Api/PlexClient.cs:229-238 | Only a URI whose fragment is exactly "#" can make GetOAuthUrl throw, and then with ArgumentOutOfRange. A returned URI has the original length. |
| OAuthLink.FixFragmentFails | src/Plex.Api/PlexClient.cs:231-234 | On a URI ending in '#', the fix-up throws iff there is no '?' before that '#'. What it throws is ArgumentOutOfRange, from String.Insert at index -1. |
| OAuthLink.SplitAtFirstQuestionMark | src/Plex.Api/PlexClient.cs:231-233 | Every URI ending in '#' that holds a '?' is `p?q#` with no '?' in `p`. |
| OAuthLink.FixFragmentOfShape | src/Plex.Api/PlexClient.cs:231-234 | The fix-up takes `p?q#` (no '?' in `p`) to `p#?q`. The prefix is unchanged, and the query text follows without its trailing '#'. |
| OAuthLink.FixedUpMarkerPrecedesQuery | src/Plex.Api/PlexClient.cs:231-234 | In the output, the first '?' is one place later than in the input, and the character just before it is '#'. The length is unchanged. |
| OAuthLink.FixFragmentPermutes | src/Plex.Api/PlexClient.cs:231-234 | The fix-up succeeds, and its output is a rearrangement of its input. |
| OAuthLink.FixFragmentInvertible | src/Plex.Api/PlexClient.cs:231-234 | Moving the '#' from before the first '?' back to the end recovers the original URI, so the fix-up loses nothing. |
| OAuthLink.RestoreFixedUp | src/Plex.Api/PlexClient.cs:231-234 | The inverse maps `p#?q` back to `p?q#`. |
| OAuthLink.LinkingUriUnchanged | src/Plex.Api/PlexClient.cs:229-238 | A URI whose fragment is not exactly "#" is returned unchanged. |
| OAuthLink.LinkingUriOfShape | src/Plex.Api/PlexClient.cs:229-236 | A URI `p?q#` with no other '#' has a bare fragment and is returned as `p#?q`. |
| OAuthLink.LinkingUriOfBareFragment | src/Plex.Api/PlexClient.cs:217-238 | A base `prefix#` decorated with a query free of '#' yields `prefix#?` followed by the query text. |
| OAuthLink.AppPlexLinkingUri | src/Plex.Api/PlexClient.cs:215-238 | When the pin code, application name, device name and client id hold no '#', the linking URL for https://app.plex.tv/auth# is `https://app.plex.tv/auth#?` followed by the seven OAuth parameters in source order. |
| OAuthLink.OAuthQueryFreeOfMarker | src/Plex.Api/PlexClient.cs:220-227 | When the code, names and client id hold no '#', no key or value of the OAuth query does. |
| OAuthLink.LinkingUriOk | src/Plex.Api/PlexClient.cs:229-236 | The fix-up cannot throw on a URI with a '?' before its last character. |
| OAuthLink.LinkingUriWithQueryNeverFails | src/Plex.Api/PlexClient.cs:220-236 | Under the assumed `Request` rendering, a request with query parameters never makes the fix-up throw, whatever the base URI resolves to. |
| AddUserResponse.SelectAddResult | src/Plex.Api/PlexClient.cs:256-265 | A returned wrapper has exactly one of Add and Error set. |
| AddUserResponse.AddSelected | src/Plex.Api/PlexClient.cs:256-260 | Add is set iff the success parse returns, and then it holds that value and Error is unset. |
| AddUserResponse.ErrorSelected | src/Plex.Api/PlexClient.cs:261-265 | Error is set iff the success parse throws InvalidOperationException and the error parse returns. Error then holds the error parse's value, and Add is unset. |
| AddUserResponse.FailurePropagates | src/Plex.Api/PlexClient.cs:256-265 | No wrapper is returned iff the success parse throws another exception, or the error parse throws too. The last exception thrown is the one that escapes. |
| AddUserResponse.ErrorParserOnlyOnInvalidOperation | src/Plex.Api/PlexClient.cs:256-263 | Unless the success parse throws InvalidOperationException, the error parser does not affect the outcome. |

## Left out

- HTTP dispatch and async plumbing (`Api.Request<T>`, `Api.RequestContent`)
  are network I/O behind an interface. An endpoint method returns the request
  it would dispatch. `AddUser` takes the response body as a parameter.
- XML deserialisation is foreign library code. The two parsers of `AddUser`
  are function parameters that return a value or an exception.
- `AddJsonBody` and its payload are serialisation. `AddUser` reads `libs`
  only to decide whether it is null (`libs.Length` at line 250 throws
  NullReferenceException then). The contents of `libs` and `emailAddress`
  go only into the body, which is not modelled.
- Null arguments other than `libs` are not modelled. The strings are Dafny
  strings, which are never null. The XML parsers are taken never to return
  null. A null parse result would leave both `Add` and `Error` unset, which
  the contracts of `AddUserResponse.SelectAddResult` and
  `Plex.PlexClient.AddUser` exclude.
- OAuthLink.AppPlexLinkingUri: holds only when the pin code, application
  name, device name and client id contain no '#'. The query is rendered
  unescaped, so a raw '#' in a value would start the fragment early. The
  fragment would then not be exactly "#", and the URI would be returned
  without the fix-up. A client id in the "N" form is hexadecimal and never
  holds '#'.
- `System.Uri` parsing, normalisation and escaping are library code. URIs are
  plain strings. Query keys and values are written unescaped.
  `new Uri(better)` is taken to keep the string as it is.
- Host and path joining happens inside `Request`, whose source is not part of
  this model. `Plex.PlexClient.GetOAuthUrl` takes the absolute URI that
  `"auth#"` resolves to on `https://app.plex.tv` as its parameter `authUri`.
  The request's full URI is that base with the query placed before the
  fragment.
- `Guid.ToString("N")` is library code. The client id is the string it
  produces.
- `Int32.ToString()` is modelled with an invariant culture (ASCII digits, a
  leading '-').
- `GetOAuthUrl`'s `applicationUrl` parameter is accepted and not used, as in
  the source.
- The other per-endpoint methods (`SignIn`, `GetSessions`, `GetLibrary`,
  `GetUsers` and the rest) are each a string template plus the header calls
  modelled here. The three modelled endpoints cover the distinct ways they
  combine `AddHeaders` and `AddLimitHeaders`.
- The token is written exactly as given, with no empty or null check. An
  empty token is sent as an empty `X-Plex-Token` header.
- The interface, model and mapping classes around `PlexClient` declare
  signatures, serialisation attributes or library wiring only.
