/**
 * The project-list hook of app/hooks/useProjects.ts: its local fetcher, and
 * the `projects`/`loading`/`error` view it derives from the state the data
 * cache reports (`data`, `error`, `isValidating`).
 */
module ProjectsHook {
  import opened Wrappers
  import opened JsValues
  import Session

  const FetchFailed := "Failed to fetch projects"

  /**
   * The local fetcher: a thrown `fetch` propagates, a non-2xx status rejects
   * with a fixed message, and anything else resolves to the parsed body (a
   * body that does not parse rejects with the parser's `SyntaxError`).
   */
  function FetchProjects(reply: Session.Reply): (r: Completion<Json>)
    ensures r.Normal? <==> reply.Responded? && Session.Ok(reply.status) && reply.body.Some?
    ensures r.Normal? ==> r.value == reply.body.value
    ensures reply.Responded? && !Session.Ok(reply.status) ==> r == Abrupt(ErrorWith(FetchFailed))
    ensures reply.Threw? ==> r == Abrupt(reply.error)
  {
    match reply
    case Threw(e) => Abrupt(e)
    case Responded(status, body) =>
      if !Session.Ok(status) then Abrupt(ErrorWith(FetchFailed))
      else if body.None? then Abrupt(JsonSyntaxError)
      else Normal(body.value)
  }

  /** What the hook returns (without `refresh`, which only asks the cache to revalidate). */
  datatype ProjectsView = ProjectsView(projects: Json, loading: bool, error: Option<Thrown>)

  /**
   * The view of a cache state; `data` is `undefined` as `None`. Every value
   * the fetcher can throw is an object, so a present `error` is truthy.
   */
  function View(data: Option<Json>, error: Option<Thrown>, isValidating: bool): (r: ProjectsView)
    ensures r.error == error
  {
    ProjectsView(
      Coalesce(data, JArr([])),
      ((data.None? || !Truthy(data.value)) && error.None?) || isValidating,
      error)
  }

  /** `projects` is the data when it is defined (and not `null`), else the empty list. */
  lemma ProjectsDefault(data: Option<Json>, error: Option<Thrown>, isValidating: bool)
    ensures View(data, error, isValidating).projects == if data.Some? && data.value != JNull then data.value else JArr([])
  {
  }

  /** A revalidation in flight always reads as loading, whatever is cached. */
  lemma LoadingWhileValidating(data: Option<Json>, error: Option<Thrown>)
    ensures View(data, error, true).loading
  {
  }

  /** Cached data (even an empty list, which is truthy) with no revalidation in flight is never loading. */
  lemma LoadedWhenDataPresent(elems: seq<Json>, error: Option<Thrown>)
    ensures !View(Some(JArr(elems)), error, false).loading
  {
  }

  /** Without data, loading lasts exactly until an error arrives or a revalidation starts. */
  lemma LoadingWithoutData(error: Option<Thrown>, isValidating: bool)
    ensures View(None, error, isValidating).loading <==> error.None? || isValidating
    ensures View(None, error, isValidating).projects == JArr([])
  {
  }
}
