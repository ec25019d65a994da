/**
 * URIs as plain strings: the fragment as System.Uri reports it, and the text
 * a request's query list contributes to its full URI.
 */
module Uris {
  import opened Text

  /** Query parameters in the order they were added; repeated keys allowed. */
  type Query = seq<(string, string)>

  /**
   * System.Uri.Fragment: the text from the first '#' to the end, marker
   * included; empty when the URI has no '#'.
   */
  function Fragment(u: string): (r: string)
    ensures '#' !in u ==> r == ""
    ensures '#' in u ==> |r| > 0 && r[0] == '#' && |r| <= |u| && r == u[|u| - |r|..]
                         && '#' !in u[..|u| - |r|]
  {
    var i := IndexOf(u, '#');
    if i < 0 then "" else u[i..]
  }

  /** The fragment is exactly "#" iff the URI ends in '#' and has no other '#'. */
  lemma BareFragment(u: string)
    ensures Fragment(u) == "#" <==> |u| > 0 && u[|u| - 1] == '#' && '#' !in u[..|u| - 1]
  {
    if |u| > 0 && u[|u| - 1] == '#' && '#' !in u[..|u| - 1] {
      IndexOfUnique(u, '#', |u| - 1);
    }
  }

  /** One `key=value` pair of a query string; percent-escaping is not modelled. */
  function Pair(p: (string, string)): string {
    p.0 + "=" + p.1
  }

  /** The query text of `q`: its pairs in order, separated by '&'. */
  function QueryText(q: Query): (r: string)
    ensures |r| == 0 <==> |q| == 0
  {
    if |q| == 0 then ""
    else if |q| == 1 then Pair(q[0])
    else Pair(q[0]) + "&" + QueryText(q[1..])
  }

  /** No key or value of `q` contains `c`. */
  predicate FreeOf(q: Query, c: char) {
    forall i :: 0 <= i < |q| ==> c !in q[i].0 && c !in q[i].1
  }

  /** Query text contains no character that none of its keys and values holds, other than '=' and '&'. */
  lemma {:induction false} QueryTextFreeOf(q: Query, c: char)
    requires FreeOf(q, c) && c != '=' && c != '&'
    ensures c !in QueryText(q)
  {
    if |q| > 1 {
      QueryTextFreeOf(q[1..], c);
    }
  }

  /** Query text lists its pairs in order: appending a pair appends its text. */
  lemma {:induction false} QueryTextAppend(q: Query, p: (string, string))
    ensures QueryText(q + [p]) == if |q| == 0 then Pair(p) else QueryText(q) + "&" + Pair(p)
  {
    if |q| == 0 {
      assert q + [p] == [p];
    } else if |q| == 1 {
      assert (q + [p])[0] == q[0] && (q + [p])[1..] == [p];
    } else {
      assert (q + [p])[0] == q[0] && (q + [p])[1..] == q[1..] + [p];
      QueryTextAppend(q[1..], p);
      var head := Pair(q[0]) + "&";
      calc {
        QueryText(q + [p]);
        head + QueryText(q[1..] + [p]);
        head + (QueryText(q[1..]) + "&" + Pair(p));
        (head + QueryText(q[1..])) + "&" + Pair(p);
        QueryText(q) + "&" + Pair(p);
      }
    }
  }

  /**
   * The full URI of a request whose host and path resolve to `base` and
   * whose query list is `q`: the query goes before the fragment, after a
   * '?' (or after an '&' when the base already carries a query). This is
   * the rendering assumed of Request; its source is not part of this model.
   */
  function WithQuery(base: string, q: Query): (r: string)
    ensures |q| == 0 ==> r == base
    ensures |q| > 0 ==> |r| == |base| + 1 + |QueryText(q)|
  {
    if |q| == 0 then base
    else
      var fragment := Fragment(base);
      var beforeFragment := base[..|base| - |fragment|];
      var separator := if '?' in beforeFragment then '&' else '?';
      SplicedAt(beforeFragment, separator, QueryText(q), fragment);
      beforeFragment + [separator] + QueryText(q) + fragment
  }

  /**
   * With a non-empty query the full URI keeps the text before the fragment,
   * then holds one separator ('&' when that text already has a '?', '?'
   * otherwise), then the query text, and ends with the fragment.
   */
  lemma WithQueryParts(base: string, q: Query)
    requires |q| > 0
    ensures var r := WithQuery(base, q);
            var k := |base| - |Fragment(base)|;
            && r[..k] == base[..k]
            && r[k] == (if '?' in base[..k] then '&' else '?')
            && r[k + 1..|r| - |Fragment(base)|] == QueryText(q)
            && r[|r| - |Fragment(base)|..] == Fragment(base)
  {
    var fragment := Fragment(base);
    var beforeFragment := base[..|base| - |fragment|];
    var separator := if '?' in beforeFragment then '&' else '?';
    SplicedAt(beforeFragment, separator, QueryText(q), fragment);
  }

  /** Where each part of `front + [separator] + middle + back` sits. */
  lemma SplicedAt(front: string, separator: char, middle: string, back: string)
    ensures var u := front + [separator] + middle + back;
            && |u| == |front| + 1 + |middle| + |back|
            && u[..|front|] == front
            && u[|front|] == separator
            && u[|front| + 1..|u| - |back|] == middle
            && u[|u| - |back|..] == back
  {
  }

  /**
   * A base with a bare fragment and no query keeps its fragment last and
   * gains '?' where the fragment was.
   */
  lemma WithQueryBareFragment(prefix: string, q: Query)
    requires '#' !in prefix && '?' !in prefix
    requires |q| > 0
    ensures WithQuery(prefix + "#", q) == prefix + "?" + QueryText(q) + "#"
  {
    var base := prefix + "#";
    assert base[..|prefix|] == prefix;
    IndexOfUnique(base, '#', |prefix|);
  }

  /** A non-empty query always leaves a '?' before the last character of the full URI. */
  lemma WithQueryMarksQuery(base: string, q: Query)
    requires |q| > 0
    ensures var u := WithQuery(base, q); |u| > 0 && '?' in u[..|u| - 1]
  {
    var u := WithQuery(base, q);
    var k := |base| - |Fragment(base)|;
    WithQueryParts(base, q);
    if '?' in base[..k] {
      var j := IndexOf(base[..k], '?');
      assert u[..|u| - 1][j] == u[..k][j] == '?';
    } else {
      assert u[..|u| - 1][k] == '?';
    }
  }
}
