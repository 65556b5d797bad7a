/** The `.then` handler of the submit listener: folds the list of posts into
    one HTML string of cards wrapped in a `card-columns` container. */
module Render {
  import opened Wrappers
  import opened Strings
  import opened Decimal
  import opened Truncate
  import opened Posts

  /** Image shown when a post carries no preview. */
  const Placeholder: string := "https://cdn.comparitech.com/wp-content/uploads/2017/08/reddit-1.jpg"

  const Open: string := "<div class=\"card-columns\">"
  const Close: string := "</div>"

  /** Characters of card text kept before truncation looks for a space. */
  const CardTextLimit: nat := 100

  const Indent16: string := "                "
  const Indent20: string := "                    "

  /** The literal text of the card template between its six holes. */
  const CardTemplate: seq<string> := [
    "\n" + Indent16 + "<div class=\"card\">\n"
      + Indent16 + "<img class=\"card-img-top\" src=\"",
    "\" alt=\"Card image cap\">\n"
      + Indent16 + "<div class=\"card-body\">\n"
      + Indent20 + "<h5 class=\"card-title\">",
    "</h5>\n"
      + Indent20 + "<p class=\"card-text\">",
    "</p>\n"
      + Indent20 + "<a href=\"",
    "\" target=\"_blank\" class=\"btn btn-primary\">Read More..</a>\n"
      + Indent20 + "<hr>\n"
      + Indent20 + "<span class=\"badge badge-secondary\">Subreddit: ",
    "</span>\n"
      + Indent20 + "<span class=\"badge badge-secondary\">Score: ",
    "</span>\n"
      + Indent16 + "</div>\n"
      + Indent16 + "</div>\n"
      + Indent16
  ]

  /** Why the handler stops before writing any output. */
  datatype RenderError =
    | ResultsUndefined                  // `results.forEach` on `undefined`
    | PreviewWithoutImages(index: nat)  // `post.preview.images[0].source` on an empty list

  /** The image chosen for a card; `None` when reading it would throw. */
  function ImageUrl(p: Post): (r: Option<string>)
    ensures p.preview.None? ==> r == Some(Placeholder)
    ensures p.preview.Some? ==> (r.Some? <==> |p.preview.value.images| > 0)
    ensures p.preview.Some? && r.Some? ==> r.value == p.preview.value.images[0].source.url
  {
    match p.preview
    case None => Some(Placeholder)
    case Some(preview) =>
      if |preview.images| == 0 then None else Some(preview.images[0].source.url)
  }

  predicate HasImage(p: Post)
  {
    ImageUrl(p).Some?
  }

  predicate AllHaveImages(posts: seq<Post>)
  {
    forall i :: 0 <= i < |posts| ==> HasImage(posts[i])
  }

  /** The values filling the card template's holes, in template order. */
  function CardFields(p: Post, image: string): seq<string>
  {
    [image, p.title, TruncateText(p.selftext, CardTextLimit), p.url, p.subreddit, IntToString(p.score)]
  }

  /** One card fragment: the card template with the post's fields in its
      holes, in order: image, title, truncated text, link, subreddit, score. */
  function Card(p: Post, image: string): (r: string)
    ensures r == Interleave(CardTemplate, CardFields(p, image))
  {
    Interleave6(CardTemplate, CardFields(p, image));
    var t := CardTemplate;
    t[0] + image + (
    t[1] + p.title + (
    t[2] + TruncateText(p.selftext, CardTextLimit) + (
    t[3] + p.url + (
    t[4] + p.subreddit + (
    t[5] + IntToString(p.score) + t[6])))))
  }

  /** The card of a post whose image can be read. */
  function CardOf(p: Post): string
    requires HasImage(p)
  {
    Card(p, ImageUrl(p).value)
  }

  /** The card fragments of `posts`, one per post, in input order. */
  function Fragments(posts: seq<Post>): seq<string>
    requires AllHaveImages(posts)
  {
    MapSeq(posts, CardOf)
  }

  lemma PrefixHasImages(posts: seq<Post>, i: nat)
    requires AllHaveImages(posts)
    requires i <= |posts|
    ensures AllHaveImages(posts[..i])
  {
    forall j | 0 <= j < i ensures HasImage(posts[..i][j]) { assert posts[..i][j] == posts[j]; }
  }

  /** The `forEach` accumulation `output += card`: the cards of all posts but
      the last, then the last post's card. It equals the fragments of the
      posts, one per post and in input order, glued together. */
  function Cards(posts: seq<Post>): (r: string)
    requires AllHaveImages(posts)
    ensures r == Concat(Fragments(posts))
    decreases |posts|
  {
    if |posts| == 0 then ""
    else
      var n := |posts| - 1;
      PrefixHasImages(posts, n);
      FragmentsSnoc(posts, n);
      assert posts[..n + 1] == posts;
      ConcatSnoc(Fragments(posts[..n]), CardOf(posts[n]));
      Cards(posts[..n]) + CardOf(posts[n])
  }

  /** Each card shows its image, the title, the body text cut at the first
      space from position 100, the link, the subreddit and the score, each
      inserted verbatim (no escaping); the score reads back as the number. */
  lemma CardShowsFields(p: Post, image: string)
    ensures Occurs(image, Card(p, image))
    ensures Occurs(p.title, Card(p, image))
    ensures Occurs(TruncateText(p.selftext, 100), Card(p, image))
    ensures Occurs(p.url, Card(p, image))
    ensures Occurs(p.subreddit, Card(p, image))
    ensures Occurs(IntToString(p.score), Card(p, image))
    ensures ParseInt(CardFields(p, image)[5]) == p.score
  {
    var fields := CardFields(p, image);
    InterleaveShowsField(CardTemplate, fields, 0);
    InterleaveShowsField(CardTemplate, fields, 1);
    InterleaveShowsField(CardTemplate, fields, 2);
    InterleaveShowsField(CardTemplate, fields, 3);
    InterleaveShowsField(CardTemplate, fields, 4);
    InterleaveShowsField(CardTemplate, fields, 5);
    IntRoundTrip(p.score);
  }

  lemma SuffixHasImages(posts: seq<Post>, i: nat)
    requires AllHaveImages(posts)
    requires i <= |posts|
    ensures AllHaveImages(posts[i..])
  {
    var suffix := posts[i..];
    forall j | 0 <= j < |suffix| ensures HasImage(suffix[j]) { assert suffix[j] == posts[i + j]; }
  }

  /** The fragments before post `i`, post `i`'s card, the fragments after. */
  lemma FragmentsAt(posts: seq<Post>, i: nat)
    requires AllHaveImages(posts)
    requires i < |posts|
    requires AllHaveImages(posts[..i]) && AllHaveImages(posts[i + 1..])
    ensures Concat(Fragments(posts))
         == Concat(Fragments(posts[..i])) + CardOf(posts[i]) + Concat(Fragments(posts[i + 1..]))
  {
    var fs := Fragments(posts);
    FragmentsPrefix(posts, i);
    FragmentsSuffix(posts, i + 1);
    ConcatAt(fs, i);
  }

  lemma FragmentsPrefix(posts: seq<Post>, i: nat)
    requires AllHaveImages(posts) && i <= |posts| && AllHaveImages(posts[..i])
    ensures Fragments(posts)[..i] == Fragments(posts[..i])
  {
    MapSeqSlice(posts, CardOf, 0, i);
    assert posts[0..i] == posts[..i];
  }

  lemma FragmentsSuffix(posts: seq<Post>, i: nat)
    requires AllHaveImages(posts) && i <= |posts| && AllHaveImages(posts[i..])
    ensures Fragments(posts)[i..] == Fragments(posts[i..])
  {
    MapSeqSlice(posts, CardOf, i, |posts|);
    assert posts[i..|posts|] == posts[i..];
  }

  /** Exactly one card per post, in input order: the output for `posts` is
      the cards before post `i`, then the card of post `i`, then the rest. */
  lemma CardsInOrder(posts: seq<Post>, i: nat)
    requires AllHaveImages(posts)
    requires i < |posts|
    ensures HasImage(posts[i])
    ensures AllHaveImages(posts[..i]) && AllHaveImages(posts[i + 1..])
    ensures Cards(posts) == Cards(posts[..i]) + CardOf(posts[i]) + Cards(posts[i + 1..])
  {
    PrefixHasImages(posts, i);
    SuffixHasImages(posts, i + 1);
    FragmentsAt(posts, i);
  }

  /** One more post contributes one more fragment, at the end. */
  lemma FragmentsSnoc(posts: seq<Post>, i: nat)
    requires i < |posts|
    requires AllHaveImages(posts[..i]) && HasImage(posts[i])
    ensures AllHaveImages(posts[..i + 1])
    ensures Fragments(posts[..i + 1]) == Fragments(posts[..i]) + [CardOf(posts[i])]
  {
    assert AllHaveImages(posts[..i + 1]) by {
      var pre := posts[..i + 1];
      forall j | 0 <= j < |pre| ensures HasImage(pre[j]) {
        if j < i { assert pre[j] == posts[..i][j]; }
      }
    }
    MapSeqSnoc(posts, CardOf, i);
  }

  /** The handler body: start with the container, append one card per post,
      close the container. `results` is `None` when the search failed and
      resolved to `undefined`. The first post whose preview has no image
      throws, and nothing is written. */
  method RenderResults(results: Option<seq<Post>>) returns (r: Result<string, RenderError>)
    ensures results.None? ==> r == Failure(ResultsUndefined)
    ensures results.Some? ==> (r.Success? <==> AllHaveImages(results.value))
    ensures results.Some? && r.Success? ==> r.value == Open + Cards(results.value) + Close
    ensures results.Some? && r.Failure? ==>
      && r.error.PreviewWithoutImages?
      && r.error.index < |results.value|
      && !HasImage(results.value[r.error.index])
      && AllHaveImages(results.value[..r.error.index])
  {
    if results.None? {
      return Failure(ResultsUndefined);
    }
    var posts := results.value;
    var output := Open;
    ghost var cards: seq<string> := [];
    var i := 0;
    while i < |posts|
      invariant 0 <= i <= |posts|
      invariant AllHaveImages(posts[..i])
      invariant cards == Fragments(posts[..i])
      invariant output == Open + Concat(cards)
    {
      var image := ImageUrl(posts[i]);
      if image.None? {
        return Failure(PreviewWithoutImages(i));
      }
      var card := Card(posts[i], image.value);
      FragmentsSnoc(posts, i);
      ConcatSnoc(cards, card);
      AppendAssoc(Open, Concat(cards), card);
      output := output + card;
      cards := cards + [card];
      i := i + 1;
    }
    assert posts[..i] == posts;
    output := output + Close;
    r := Success(output);
  }

  /** The rendered page is framed by the container's opening and closing tags. */
  lemma RenderedIsFramed(posts: seq<Post>)
    requires AllHaveImages(posts)
    ensures var page := Open + Cards(posts) + Close;
      && page[..|Open|] == Open
      && page[|page| - |Close|..] == Close
  {
    FramedBy(Open, Cards(posts), Close);
  }
}
