/** The submit listener: read the form, warn on an empty term, search anyway,
    and render whatever the search resolves to. */
module Submit {
  import opened Wrappers
  import opened Posts
  import opened Fetcher
  import opened Render

  /** The raw form values at submit time; none is trimmed or normalised. */
  datatype Form = Form(term: string, sortBy: string, limit: string)

  /** The `div` inserted by `showMessage`: its text and its class attribute. */
  datatype Alert = Alert(message: string, className: string)

  const EmptyTermMessage: string := "Please input a search term"

  /** `showMessage(message, className)` gives the element the classes
      `alert` and `className`. */
  function MessageElement(message: string, className: string): (a: Alert)
    ensures a.message == message
    ensures |a.className| == |className| + 6
    ensures a.className[..6] == "alert " && a.className[6..] == className
  {
    Alert(message, "alert " + className)
  }

  /** What one submission does before the network answers: the alert shown,
      if any, and the URL requested. */
  datatype Request = Request(alert: Option<Alert>, url: string)

  /** The empty-term check does not stop the request: the URL is built from
      the form for every submission, an alert added only for an empty term. */
  function Prepare(form: Form): (r: Request)
    ensures r.alert.Some? <==> form.term == ""
    ensures r.alert.Some? ==> r.alert.value == Alert(EmptyTermMessage, "alert alert-danger")
    ensures r.url == SearchUrl(form.term, form.limit, form.sortBy)
  {
    var alert := if form.term == "" then Some(MessageElement(EmptyTermMessage, "alert-danger")) else None;
    Request(alert, SearchUrl(form.term, form.limit, form.sortBy))
  }

  /** An empty term is warned about and still sent, as `q=`. */
  lemma EmptyTermStillSearches(sortBy: string, limit: string)
    requires '&' !in sortBy && '&' !in limit
    ensures Prepare(Form("", sortBy, limit)).alert.Some?
    ensures ParseQuery(Prepare(Form("", sortBy, limit)).url)
         == Some([("q", ""), ("sort", sortBy), ("limit", limit)])
  {
    SearchUrlRoundTrip("", limit, sortBy);
  }

  /** The whole listener for one submission: the alert it shows and what the
      results container ends up holding (or why the handler threw before
      writing to it). */
  method HandleSubmit(form: Form, network: string -> FetchOutcome)
    returns (alert: Option<Alert>, page: Result<string, RenderError>)
    ensures alert.Some? <==> form.term == ""
    ensures network(SearchUrl(form.term, form.limit, form.sortBy)).Failed? ==>
      page == Failure(ResultsUndefined)
    ensures network(SearchUrl(form.term, form.limit, form.sortBy)).Received? ==>
      var posts := Unwrap(network(SearchUrl(form.term, form.limit, form.sortBy)).body);
      && (page.Success? <==> AllHaveImages(posts))
      && (page.Success? ==> page.value == Open + Cards(posts) + Close)
  {
    var request := Prepare(form);
    alert := request.alert;
    var results := Search(form.term, form.limit, form.sortBy, network);
    page := RenderResults(results);
  }
}
