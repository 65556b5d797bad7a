/** `search(searchTerm, searchLimit, sortBy)`: build the request URL, fetch it,
    and project the listing's children onto their post records. The network
    is a parameter: it maps a URL to the parsed response or to a failure. */
module Fetcher {
  import opened Wrappers
  import opened Strings
  import opened Posts

  /** One entry of `data.children`; only its `data` payload is read. */
  datatype Child = Child(data: Post)

  datatype Listing = Listing(children: seq<Child>)

  /** The parsed JSON body `{ data: { children: [...] } }`. */
  datatype Response = Response(data: Listing)

  /** What the network delivers for a URL: a parsed body, or a failure of the
      request, of `res.json()` or of the shape (all caught alike). */
  datatype FetchOutcome = Received(body: Response) | Failed

  const Endpoint: string := "http://www.reddit.com/search.json"

  /** `children.map(d => d.data)`. */
  function Project(children: seq<Child>): (posts: seq<Post>)
    ensures |posts| == |children|
    ensures forall i :: 0 <= i < |children| ==> posts[i] == children[i].data
    decreases |children|
  {
    if |children| == 0 then [] else [children[0].data] + Project(children[1..])
  }

  /** `data.data.children.map(d => d.data)`: same length, same order. */
  function Unwrap(response: Response): (posts: seq<Post>)
    ensures |posts| == |response.data.children|
    ensures forall i :: 0 <= i < |posts| ==> posts[i] == response.data.children[i].data
  {
    Project(response.data.children)
  }

  /** The response whose children carry exactly `posts`. */
  function Wrap(posts: seq<Post>): Response
  {
    Response(Listing(seq(|posts|, i requires 0 <= i < |posts| => Child(posts[i]))))
  }

  /** Unwrapping loses nothing and invents nothing. */
  lemma UnwrapRoundTrip(posts: seq<Post>, response: Response)
    ensures Unwrap(Wrap(posts)) == posts
    ensures Wrap(Unwrap(response)) == response
  {
  }

  /** The request URL: term, sort and limit pasted in verbatim, with no
      percent-encoding. It is the endpoint, `?`, and the three `name=value`
      pairs joined by `&`. */
  function SearchUrl(term: string, limit: string, sortBy: string): (url: string)
    ensures url == Endpoint + "?" + Join([Pair("q", term), Pair("sort", sortBy), Pair("limit", limit)], '&')
  {
    assert "?q=" == "?" + ("q" + "=");
    assert "&sort=" == "&" + ("sort" + "=");
    assert "&limit=" == "&" + ("limit" + "=");
    Join3(Pair("q", term), Pair("sort", sortBy), Pair("limit", limit), '&');
    Reassociate(Endpoint, "?", "q" + "=", term, "&", "sort" + "=", sortBy, "&", "limit" + "=", limit);
    Endpoint + "?q=" + term + "&sort=" + sortBy + "&limit=" + limit
  }

  /** `name=value`, cut at the first `=`; a piece without `=` is a bare name. */
  function Param(piece: string): (string, string)
  {
    var i := IndexOf(piece, '=', 0);
    if i == -1 then (piece, "") else (piece[..i], piece[i + 1..])
  }

  function Params(pieces: seq<string>): seq<(string, string)>
  {
    seq(|pieces|, i requires 0 <= i < |pieces| => Param(pieces[i]))
  }

  /** How a server reads the query string of a URL on the endpoint: split at
      every `&`, then each piece at its first `=`. */
  function ParseQuery(url: string): Option<seq<(string, string)>>
  {
    var prefix := Endpoint + "?";
    if |prefix| <= |url| && url[..|prefix|] == prefix
    then Some(Params(Split(url[|prefix|..], '&')))
    else None
  }

  /** The piece `name=value`. */
  function Pair(name: string, value: string): string
  {
    name + "=" + value
  }

  lemma ParamOfPair(name: string, value: string)
    requires '=' !in name
    ensures Param(Pair(name, value)) == (name, value)
  {
    var piece := Pair(name, value);
    assert piece[|name|] == '=';
    assert NoneIn(piece, '=', 0, |name|);
    assert piece[..|name|] == name;
    assert piece[|name| + 1..] == value;
  }

  /** The query string of a URL is everything after the endpoint and `?`. */
  lemma QueryOf(url: string, query: string)
    requires url == Endpoint + "?" + query
    ensures ParseQuery(url) == Some(Params(Split(query, '&')))
  {
  }

  /** Pieces free of `&`, joined into a query, are read back one by one. */
  lemma ParseJoined(pieces: seq<string>)
    requires |pieces| >= 1
    requires forall i :: 0 <= i < |pieces| ==> '&' !in pieces[i]
    ensures ParseQuery(Endpoint + "?" + Join(pieces, '&')) == Some(Params(pieces))
  {
    QueryOf(Endpoint + "?" + Join(pieces, '&'), Join(pieces, '&'));
    SplitJoin(pieces, '&');
  }

  lemma Join3(x: string, y: string, z: string, sep: char)
    ensures Join([x, y, z], sep) == x + [sep] + (y + [sep] + z)
  {
    assert [x, y, z][1..] == [y, z];
    assert [y, z][1..] == [z];
    assert Join([z], sep) == z;
    assert Join([y, z], sep) == y + [sep] + z;
  }

  lemma Reassociate(e: string, a: string, b: string, t: string, c: string, d: string,
                    s: string, f: string, g: string, l: string)
    ensures e + (a + b) + t + (c + d) + s + (f + g) + l
         == e + a + (b + t + c + (d + s + f + (g + l)))
  {
  }

  /** When no value contains `&`, the server reads back exactly the term, the
      sort order and the limit. */
  lemma SearchUrlRoundTrip(term: string, limit: string, sortBy: string)
    requires '&' !in term && '&' !in sortBy && '&' !in limit
    ensures ParseQuery(SearchUrl(term, limit, sortBy))
         == Some([("q", term), ("sort", sortBy), ("limit", limit)])
  {
    var pieces := [Pair("q", term), Pair("sort", sortBy), Pair("limit", limit)];
    ParseJoined(pieces);
    ParamOfPair("q", term);
    ParamOfPair("sort", sortBy);
    ParamOfPair("limit", limit);
    assert Params(pieces) == [Param(pieces[0]), Param(pieces[1]), Param(pieces[2])];
  }

  /** Because nothing is encoded, an `&` in the term ends the `q` value early
      and the rest of the term is read as a parameter of its own, placed
      before the real sort order. */
  lemma AmpersandInTermSplitsIt(a: string, b: string, limit: string, sortBy: string)
    requires '&' !in a && '&' !in b && '&' !in sortBy && '&' !in limit
    ensures ParseQuery(SearchUrl(a + "&" + b, limit, sortBy))
         == Some([("q", a), Param(b), ("sort", sortBy), ("limit", limit)])
  {
    var three := [Pair("q", a + "&" + b), Pair("sort", sortBy), Pair("limit", limit)];
    var four := [Pair("q", a), b, Pair("sort", sortBy), Pair("limit", limit)];
    assert Join(four, '&') == Join(three, '&') by {
      assert four[1..] == [b] + three[1..];
      assert Join(four[1..], '&') == b + "&" + Join(three[1..], '&');
      assert Pair("q", a + "&" + b) == Pair("q", a) + "&" + b;
    }
    ParseJoined(four);
    ParamOfPair("q", a);
    ParamOfPair("sort", sortBy);
    ParamOfPair("limit", limit);
    assert Params(four) == [Param(four[0]), Param(four[1]), Param(four[2]), Param(four[3])];
  }

  /** The promise `search` returns: the posts of the response, or `undefined`
      (`None`) when anything failed, since the `.catch` only logs. */
  function Search(term: string, limit: string, sortBy: string, network: string -> FetchOutcome)
    : (results: Option<seq<Post>>)
    ensures results.None? <==> network(SearchUrl(term, limit, sortBy)).Failed?
    ensures results.Some? ==> results.value == Unwrap(network(SearchUrl(term, limit, sortBy)).body)
  {
    match network(SearchUrl(term, limit, sortBy))
    case Received(body) => Some(Unwrap(body))
    case Failed => None
  }

  /** A failed request and a search with no hits are told apart only by
      `None` versus an empty sequence. */
  lemma EmptyIsNotFailure(term: string, limit: string, sortBy: string, network: string -> FetchOutcome)
    requires network(SearchUrl(term, limit, sortBy)).Received?
    requires network(SearchUrl(term, limit, sortBy)).body.data.children == []
    ensures Search(term, limit, sortBy, network) == Some([])
  {
  }
}
