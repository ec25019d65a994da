/**
 * The device-linking URL of GetOAuthUrl: its query parameters and the
 * fix-up that moves a bare trailing fragment marker in front of the query
 * (".../auth?code=...#" becomes ".../auth#?code=...").
 */
module OAuthLink {
  import opened Wrappers
  import opened Text
  import opened Uris
  import opened PlexHeaders

  /** The assumed resolved base of the OAuth request, without its '#'. */
  const AuthUri := "https://app.plex.tv/auth"

  /** The query parameters GetOAuthUrl adds, in the order it adds them. */
  function OAuthQuery(code: string, options: ClientOptions): (r: Query)
    ensures |r| == 7 && r[0] == ("code", code) && r[6] == ("clientID", options.clientId)
  {
    [("code", code),
     ("context[device][product]", options.applicationName),
     ("context[device][environment]", "bundled"),
     ("context[device][layout]", "desktop"),
     ("context[device][platform]", "Web"),
     ("context[device][device]", options.deviceName),
     ("clientID", options.clientId)]
  }

  /** No parameter name repeats, so each of the seven reaches the server as a single value. */
  lemma OAuthQueryKeysDistinct(code: string, options: ClientOptions)
    ensures var q := OAuthQuery(code, options);
            forall i, j :: 0 <= i < j < |q| ==> q[i].0 != q[j].0
  {
  }

  /**
   * The string surgery on the URI text: drop the last character, find the
   * first '?' and insert '#' there. String.Insert throws when there is no '?'.
   */
  function FixFragment(uri: string): (r: Result<string, Exception>)
    ensures r.Err? ==> r.error == ArgumentOutOfRange
    ensures r.Ok? ==> |r.value| == |uri| && '#' in r.value
  {
    var withoutEnd :- Remove(uri, |uri| - 1, 1);
    var startOfQueryLocation := IndexOf(withoutEnd, '?');
    Insert(withoutEnd, startOfQueryLocation, "#")
  }

  /** The URI GetOAuthUrl returns for a full URI `uri`: fixed up only when its fragment is exactly "#". */
  function LinkingUri(uri: string): (r: Result<string, Exception>)
    ensures r.Err? ==> r.error == ArgumentOutOfRange && Fragment(uri) == "#"
    ensures r.Ok? ==> |r.value| == |uri|
  {
    if Fragment(uri) == "#" then FixFragment(uri) else Ok(uri)
  }

  /**
   * On a URI ending in '#', the fix-up fails exactly when there is no '?'
   * before that '#', and the failure is ArgumentOutOfRange.
   */
  lemma FixFragmentFails(uri: string)
    requires |uri| > 0 && uri[|uri| - 1] == '#'
    ensures FixFragment(uri).Err? <==> '?' !in uri[..|uri| - 1]
    ensures FixFragment(uri).Err? ==> FixFragment(uri).error == ArgumentOutOfRange
  {
  }

  /**
   * Every URI that ends in '#' and contains a '?' has the shape `p?q#` with
   * no '?' in `p`: `p` is the text before its first '?'.
   */
  lemma SplitAtFirstQuestionMark(uri: string)
    requires |uri| > 0 && uri[|uri| - 1] == '#' && '?' in uri
    ensures var i := IndexOf(uri, '?');
            && '?' !in uri[..i]
            && uri == uri[..i] + "?" + uri[i + 1..|uri| - 1] + "#"
  {
    var i := IndexOf(uri, '?');
    SplitAround(uri, i);
  }

  lemma SplitAround(s: string, i: nat)
    requires i < |s| - 1
    ensures s == s[..i] + [s[i]] + s[i + 1..|s| - 1] + [s[|s| - 1]]
  {
    assert s[..|s| - 1] == s[..i] + [s[i]] + s[i + 1..|s| - 1];
    assert s == s[..|s| - 1] + [s[|s| - 1]];
  }

  /**
   * The fix-up on a URI `p?q#` whose first '?' follows `p`: the result `p#?q`
   * has the same length, keeps `p`, puts '#' immediately before the first
   * '?', and keeps the query text `q` without the trailing '#'.
   */
  lemma FixFragmentOfShape(p: string, q: string)
    requires '?' !in p
    ensures FixFragment(p + "?" + q + "#") == Ok(p + "#?" + q)
  {
    var u := p + "?" + q + "#";
    assert u[|u|..] == [];
    var withoutEnd := p + "?" + q;
    assert u[..|u| - 1] + u[|u|..] == withoutEnd;
    assert withoutEnd[..|p|] == p;
    IndexOfUnique(withoutEnd, '?', |p|);
    assert withoutEnd[..|p|] + "#" + withoutEnd[|p|..] == p + "#?" + q;
  }

  /** In the fixed-up URI the first '?' sits right after the marker, at the old position plus one. */
  lemma FixedUpMarkerPrecedesQuery(p: string, q: string)
    requires '?' !in p
    ensures var r := p + "#?" + q;
            && IndexOf(p + "?" + q + "#", '?') == |p|
            && IndexOf(r, '?') == |p| + 1
            && r[IndexOf(r, '?') - 1] == '#'
            && |r| == |p + "?" + q + "#"|
  {
    var u := p + "?" + q + "#";
    var r := p + "#?" + q;
    assert u[..|p|] == p;
    IndexOfUnique(u, '?', |p|);
    assert r[..|p| + 1] == p + "#";
    IndexOfUnique(r, '?', |p| + 1);
  }

  /** The fix-up only moves the marker: the result is a rearrangement of the input. */
  lemma FixFragmentPermutes(p: string, q: string)
    requires '?' !in p
    ensures FixFragment(p + "?" + q + "#").Ok?
    ensures multiset(FixFragment(p + "?" + q + "#").value) == multiset(p + "?" + q + "#")
  {
    FixFragmentOfShape(p, q);
    calc {
      multiset(p + "#?" + q);
      multiset(p) + multiset("#") + multiset("?") + multiset(q);
      multiset(p + "?" + q + "#");
    }
  }

  /**
   * The inverse of the fix-up, reading only its output: take the '#' from
   * just before the first '?' and put it back at the end.
   */
  function RestoreFragment(r: string): string {
    var j := IndexOf(r, '?');
    if j > 0 && r[j - 1] == '#' then r[..j - 1] + r[j..] + "#" else r
  }

  /** The fix-up loses nothing: restoring the fragment gives the original URI back. */
  lemma FixFragmentInvertible(p: string, q: string)
    requires '?' !in p
    ensures FixFragment(p + "?" + q + "#").Ok?
    ensures RestoreFragment(FixFragment(p + "?" + q + "#").value) == p + "?" + q + "#"
  {
    FixFragmentOfShape(p, q);
    RestoreFixedUp(p, q);
  }

  lemma RestoreFixedUp(p: string, q: string)
    requires '?' !in p
    ensures RestoreFragment(p + "#?" + q) == p + "?" + q + "#"
  {
    var r := p + "#?" + q;
    var j := |p| + 1;
    assert r[..j] == p + "#";
    IndexOfUnique(r, '?', j);
    assert r[j - 1] == '#';
    assert r[..j - 1] == p;
    assert r[j..] == "?" + q;
  }

  /** A URI whose fragment is not exactly "#" is returned as it is. */
  lemma LinkingUriUnchanged(uri: string)
    requires Fragment(uri) != "#"
    ensures LinkingUri(uri) == Ok(uri)
  {
  }

  /** A URI of the shape `p?q#` with no '#' in `p` or `q` has a bare fragment and is fixed up to `p#?q`. */
  lemma LinkingUriOfShape(p: string, q: string)
    requires '?' !in p && '#' !in p && '#' !in q
    ensures LinkingUri(p + "?" + q + "#") == Ok(p + "#?" + q)
  {
    var u := p + "?" + q + "#";
    assert Fragment(u) == "#" by {
      assert u[..|u| - 1] == p + "?" + q;
      BareFragment(u);
    }
    FixFragmentOfShape(p, q);
  }

  /**
   * A base URI `prefix + "#"` with a bare fragment and no query, decorated
   * with a non-empty query, yields `prefix + "#?" + query text`: the marker
   * immediately before the first '?', the parameters after it in order.
   */
  lemma LinkingUriOfBareFragment(prefix: string, q: Query)
    requires '#' !in prefix && '?' !in prefix
    requires |q| > 0 && FreeOf(q, '#')
    ensures LinkingUri(WithQuery(prefix + "#", q)) == Ok(prefix + "#?" + QueryText(q))
  {
    WithQueryBareFragment(prefix, q);
    QueryTextFreeOf(q, '#');
    LinkingUriOfShape(prefix, QueryText(q));
  }

  /**
   * The linking URL built on https://app.plex.tv/auth# for pin `code`: the
   * marker, then the seven parameters in the order GetOAuthUrl adds them.
   */
  lemma AppPlexLinkingUri(code: string, options: ClientOptions)
    requires '#' !in code && '#' !in options.applicationName
    requires '#' !in options.deviceName && '#' !in options.clientId
    ensures LinkingUri(WithQuery(AuthUri + "#", OAuthQuery(code, options)))
         == Ok(AuthUri + "#?" + QueryText(OAuthQuery(code, options)))
  {
    OAuthQueryFreeOfMarker(code, options);
    assert '#' !in AuthUri && '?' !in AuthUri;
    LinkingUriOfBareFragment(AuthUri, OAuthQuery(code, options));
  }

  /** The fixed keys and values of the OAuth query hold no '#'. */
  lemma OAuthQueryFreeOfMarker(code: string, options: ClientOptions)
    requires '#' !in code && '#' !in options.applicationName
    requires '#' !in options.deviceName && '#' !in options.clientId
    ensures FreeOf(OAuthQuery(code, options), '#')
  {
    var q := OAuthQuery(code, options);
    forall i | 0 <= i < |q|
      ensures '#' !in q[i].0 && '#' !in q[i].1
    {
    }
  }

  /** The fix-up cannot throw on a URI that has a '?' before its last character. */
  lemma LinkingUriOk(u: string)
    requires |u| > 0 && '?' in u[..|u| - 1]
    ensures LinkingUri(u).Ok?
  {
    if Fragment(u) == "#" {
      BareFragment(u);
      FixFragmentFails(u);
    }
  }

  /** Whatever the base URI, the fix-up never throws on a request carrying a query. */
  lemma LinkingUriWithQueryNeverFails(resolved: string, q: Query)
    requires |q| > 0
    ensures LinkingUri(WithQuery(resolved, q)).Ok?
  {
    WithQueryMarksQuery(resolved, q);
    LinkingUriOk(WithQuery(resolved, q));
  }
}
