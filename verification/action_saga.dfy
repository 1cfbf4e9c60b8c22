/**
 * `actionContainerSaga`, as app/Container/sagas/actionContainer.test.jsx pins
 * it: call the service method named by the action, report success, then
 * refresh the container, or after a delete refresh the list and go home.
 * The saga is a generator; the model gives both its effect list and its
 * step-by-step behaviour under `next()` and `throw()`.
 */
module ActionSaga {
  import opened Wrappers

  const DeleteAction := "delete"
  const HomePath := "/"

  /** The actions the saga puts. */
  datatype UiAction =
    | ActionContainerSucceeded
    | ActionContainerFailed(error: string)
    | FetchContainer(id: string)
    | FetchContainers
    | Push(path: string)

  /** The effects the saga yields: a service call, one put, or several puts at once. */
  datatype Effect = CallService(name: string, id: string) | Put(action: UiAction) | PutAll(actions: seq<UiAction>)

  /** The effect that follows the success report. */
  function Refresh(action: string, id: string): Effect {
    if action == DeleteAction then PutAll([FetchContainers, Push(HomePath)]) else Put(FetchContainer(id))
  }

  /** The effects in order, for a call that returns (None) or throws an error with `content`. */
  function Effects(action: string, id: string, failure: Option<string>): (effects: seq<Effect>)
    ensures |effects| >= 2 && effects[0] == CallService(action, id)
    ensures failure.Some? ==> effects == [CallService(action, id), Put(ActionContainerFailed(failure.value))]
    ensures failure.None? ==> |effects| == 3 && effects[1] == Put(ActionContainerSucceeded)
    ensures failure.None? && action != DeleteAction ==> effects[2] == Put(FetchContainer(id))
    ensures failure.None? && action == DeleteAction ==> effects[2] == PutAll([FetchContainers, Push(HomePath)])
  {
    match failure
    case Some(e) => [CallService(action, id), Put(ActionContainerFailed(e))]
    case None => [CallService(action, id), Put(ActionContainerSucceeded), Refresh(action, id)]
  }

  /** Where the generator is suspended. */
  datatype Phase = NotStarted | AtCall | AtSuccess | AtRefresh | Finished

  /** How the generator is resumed: `next(value)` or `throw(error)`. */
  datatype Resume = Next | Throw(content: string)

  /**
   * One resumption: the effect yielded (None once the generator is done) and
   * the new phase. The tests throw only at the service call; for a `throw`
   * anywhere else the model chooses to end the generator, which is what an
   * uncaught throw does to a JavaScript generator.
   */
  function Step(action: string, id: string, phase: Phase, input: Resume): (Option<Effect>, Phase) {
    match (phase, input)
    case (NotStarted, Next) => (Some(CallService(action, id)), AtCall)
    case (AtCall, Throw(e)) => (Some(Put(ActionContainerFailed(e))), Finished)
    case (AtCall, Next) => (Some(Put(ActionContainerSucceeded)), AtSuccess)
    case (AtSuccess, Next) => (Some(Refresh(action, id)), AtRefresh)
    case (_, _) => (None, Finished)
  }

  /** The effects yielded by a sequence of resumptions, stopping at the first that yields none. */
  function Drive(action: string, id: string, phase: Phase, inputs: seq<Resume>): seq<Effect>
    decreases |inputs|
  {
    if inputs == [] then []
    else
      var (effect, next) := Step(action, id, phase, inputs[0]);
      match effect
      case None => []
      case Some(e) => [e] + Drive(action, id, next, inputs[1..])
  }

  /**
   * Driving the generator as the tests do, with `next()` until it is done (or a
   * `throw` at the call), yields exactly the effect list.
   */
  lemma GeneratorYieldsEffects(action: string, id: string, content: string, more: seq<Resume>)
    ensures Drive(action, id, NotStarted, [Next, Next, Next, Next] + more) == Effects(action, id, None)
    ensures Drive(action, id, NotStarted, [Next, Throw(content), Next] + more) == Effects(action, id, Some(content))
  {
    var ok := [Next, Next, Next, Next] + more;
    assert ok[1..][1..][1..][1..] == more;
    assert Drive(action, id, AtRefresh, ok[1..][1..][1..]) == [];
    assert Drive(action, id, AtSuccess, ok[1..][1..]) == [Refresh(action, id)];
    assert Drive(action, id, AtCall, ok[1..]) == [Put(ActionContainerSucceeded), Refresh(action, id)];
    var failed := [Next, Throw(content), Next] + more;
    assert Drive(action, id, Finished, failed[1..][1..]) == [];
    assert Drive(action, id, AtCall, failed[1..]) == [Put(ActionContainerFailed(content))];
  }
}
