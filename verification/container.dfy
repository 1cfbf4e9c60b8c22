/**
 * docker/container.go: the decision of `basicActionHandler`, the listing with
 * its `results` envelope, and the three steps of `rmContainer`.
 * Calls into the Docker client are function parameters.
 */
module Container {
  import opened Wrappers
  import opened Auth
  import Json
  import Filters

  const InspectErrorPrefix := "Error while inspecting containers: "
  const RemoveErrorPrefix := "Error while removing containers: "

  // ---- basicActionHandler -------------------------------------------------

  /** What `basicActionHandler` writes. */
  datatype ActionReply = Forbidden | ActionError(error: string) | EmptyBody

  /** The reply, and the ids the action was invoked with. */
  datatype ActionRun = ActionRun(reply: ActionReply, invoked: seq<string>)

  /**
   * `basicActionHandler`. `allowed` and `permissionError` are the two results of
   * `isAllowed(loggedUser, id)`; `handle(id)` is the action's error, None on success.
   */
  function BasicAction(id: string, allowed: bool, permissionError: Option<string>,
                       handle: string -> Option<string>): (r: ActionRun)
    // a refused user is forbidden even when the check also errored
    ensures !allowed ==> r.reply == Forbidden
    ensures allowed && permissionError.Some? ==> r.reply == ActionError(permissionError.value)
    // the action runs at most once, and only when both checks pass
    ensures r.invoked != [] <==> allowed && permissionError.None?
    ensures r.invoked != [] ==> r.invoked == [id]
    ensures r.invoked != [] ==> (r.reply == EmptyBody <==> handle(id).None?)
    ensures r.invoked != [] && handle(id).Some? ==> r.reply == ActionError(handle(id).value)
  {
    if !allowed then ActionRun(Forbidden, [])
    else if permissionError.Some? then ActionRun(ActionError(permissionError.value), [])
    else
      match handle(id)
      case Some(e) => ActionRun(ActionError(e), [id])
      case None => ActionRun(EmptyBody, [id])
  }

  // ---- listing ------------------------------------------------------------

  /** `types.ContainerListOptions` */
  datatype ListOptions = ListOptions(all: bool, filters: Filters.Args)

  /** The query sent to the Docker client, if any, and what the listing returns. */
  datatype Listing = Listing(query: Option<ListOptions>, result: Result<seq<Json.Value>, string>)

  /**
   * `listContainers`: every container, filtered by label; a filter error is
   * returned before anything is listed. `list` stands for `docker.ContainerList`.
   */
  function ListContainers(user: User, appName: Option<string>,
                          list: ListOptions -> Result<seq<Json.Value>, string>): (l: Listing)
    ensures l.query.Some? ==> l.query.value.all
    ensures Filters.LabelFilters([], user, appName).Failure? ==>
              l == Listing(None, Failure(Filters.LabelFilters([], user, appName).error))
    ensures Filters.LabelFilters([], user, appName).Success? ==>
              && l.query == Some(ListOptions(true, Filters.LabelFilters([], user, appName).value))
              && l.result == list(l.query.value)
  {
    match Filters.LabelFilters([], user, appName)
    case Failure(e) => Listing(None, Failure(e))
    case Success(filters) =>
      var options := ListOptions(true, filters);
      Listing(Some(options), list(options))
  }

  /** The `results` struct, as serialised to JSON. */
  function ResultsEnvelope(items: seq<Json.Value>): (v: Json.Value)
    ensures v.Object? && v.fields.Keys == {"results"}
    ensures v.fields["results"] == Json.Array(items)
  {
    Json.Object(map["results" := Json.Array(items)])
  }

  /** What `listContainersHandler` writes. */
  datatype ListReply = ListError(error: string) | ListJson(body: Json.Value)

  /** `listContainersHandler`: lists without an app name and wraps the result in the envelope. */
  function ListContainersHandler(user: User, list: ListOptions -> Result<seq<Json.Value>, string>): (r: ListReply)
    ensures r.ListJson? <==> ListContainers(user, None, list).result.Success?
    ensures r.ListJson? ==> r.body == ResultsEnvelope(ListContainers(user, None, list).result.value)
  {
    match ListContainers(user, None, list).result
    case Failure(e) => ListError(e)
    case Success(containers) => ListJson(ResultsEnvelope(containers))
  }

  /** The listing handler asks for all containers, filtered to the owner unless the user is an admin. */
  lemma ListHandlerQuery(user: User, list: ListOptions -> Result<seq<Json.Value>, string>)
    ensures ListContainers(user, None, list).query.Some?
    ensures var q := ListContainers(user, None, list).query.value;
            q.all && (q.filters == [] <==> user.admin)
  {
    Filters.LabelFiltersScope([], user, None);
  }

  // ---- rmContainer --------------------------------------------------------

  /** The part of `types.ContainerJSON` that removal uses. */
  datatype Inspection = Inspection(image: string)

  /** One call into the Docker client. */
  datatype Step = InspectStep(id: string) | RemoveStep(id: string) | RemoveImageStep(image: string)

  /** The three calls of a removal that goes through. */
  function FullPlan(id: string, image: string): seq<Step> {
    [InspectStep(id), RemoveStep(id), RemoveImageStep(image)]
  }

  /** The calls made, in order, and the error returned (None on success). */
  datatype Removal = Removal(steps: seq<Step>, error: Option<string>)

  /**
   * `rmContainer` with `rmImages`: inspect, remove the container, then remove the
   * image the inspection recorded; the first failure ends it.
   */
  function RmContainer(id: string, inspect: string -> Result<Inspection, string>,
                       remove: string -> Option<string>, removeImage: string -> Option<string>): (r: Removal)
    ensures 1 <= |r.steps| <= 3 && r.steps[0] == InspectStep(id)
    // the calls made are always a prefix of the plan, with the image the inspection recorded
    ensures inspect(id).Success? ==> r.steps <= FullPlan(id, inspect(id).value.image)
    ensures inspect(id).Failure? ==> r == Removal([InspectStep(id)], Some(InspectErrorPrefix + inspect(id).error))
    ensures inspect(id).Success? ==> |r.steps| >= 2 && r.steps[1] == RemoveStep(id)
    ensures inspect(id).Success? && remove(id).Some? ==> r == Removal(r.steps[..2], Some(RemoveErrorPrefix + remove(id).value))
    ensures |r.steps| == 3 <==> inspect(id).Success? && remove(id).None?
    ensures |r.steps| == 3 ==> r.steps[2] == RemoveImageStep(inspect(id).value.image)
                               && r.error == removeImage(inspect(id).value.image)
    ensures r.error.None? <==> |r.steps| == 3 && removeImage(r.steps[2].image).None?
  {
    match inspect(id)
    case Failure(e) => Removal([InspectStep(id)], Some(InspectErrorPrefix + e))
    case Success(container) =>
      match remove(id)
      case Some(e) => Removal([InspectStep(id), RemoveStep(id)], Some(RemoveErrorPrefix + e))
      case None =>
        Removal([InspectStep(id), RemoveStep(id), RemoveImageStep(container.image)], removeImage(container.image))
  }
}
