/**
 * src/reducers/error.js: the single error slot of the UI state, set by any
 * action whose type ends in `_FAILED` (or is `SET_ERROR`) and cleared by any
 * whose type ends in `_SUCCEEDED`.
 */
module ErrorReducer {
  import opened Wrappers
  import opened Text

  const InitialState := ""
  const SetError := "SET_ERROR"
  const FailedSuffix := "_FAILED"
  const SucceededSuffix := "_SUCCEEDED"

  /**
   * The `error` field of an action, as far as `String(...)` can tell values
   * apart. An error object carries its `name` (`"Error"`, `"TypeError"`, ...)
   * and its `message`.
   */
  datatype ErrorValue = Undefined | Text(text: string) | ErrorObject(name: string, message: string)

  const ErrorSeparator := ": "

  /**
   * JavaScript's `String(value)` on those values; for an error object that is
   * `Error.prototype.toString`, which leaves out the separator when either part is empty.
   */
  function Stringify(e: ErrorValue): string {
    match e
    case Undefined => "undefined"
    case Text(s) => s
    case ErrorObject(n, m) =>
      if n == [] then m
      else if m == [] then n
      else n + ErrorSeparator + m
  }

  /**
   * What a failure stores for an error object: its name and message, with the
   * separator only when both are present.
   */
  lemma {:induction false} ErrorObjectText(name: string, message: string)
    ensures message == [] ==> Stringify(ErrorObject(name, message)) == name
    ensures name == [] ==> Stringify(ErrorObject(name, message)) == message
    ensures name != [] && message != [] ==>
              && StartsWith(Stringify(ErrorObject(name, message)), name + ErrorSeparator)
              && EndsWith(Stringify(ErrorObject(name, message)), ErrorSeparator + message)
              && |Stringify(ErrorObject(name, message))| == |name| + |ErrorSeparator| + |message|
  {
    if name != [] && message != [] {
      var s := name + ErrorSeparator + message;
      assert s[..|name + ErrorSeparator|] == name + ErrorSeparator;
      assert s[|s| - |ErrorSeparator + message|..] == ErrorSeparator + message;
    }
  }

  /** `new Error('')` is stored as `"Error"`, not `"Error: "`. */
  lemma EmptyMessageStoresName(state: Option<string>)
    ensures Reduce(state, Action(SetError, ErrorObject("Error", ""))) == "Error"
  {
  }

  datatype Action = Action(kind: string, error: ErrorValue)

  /** The three effects an action type can have on the slot. */
  datatype Effect = Sets | Clears | Keeps

  /** How an action type affects the slot: the reference the reducer is checked against. */
  function EffectOf(kind: string): (e: Effect)
    ensures e == Clears ==> EndsWith(kind, SucceededSuffix)
    ensures e == Sets <==> kind == SetError || EndsWith(kind, FailedSuffix)
  {
    if kind == SetError || EndsWith(kind, FailedSuffix) then Sets
    else if EndsWith(kind, SucceededSuffix) then Clears
    else Keeps
  }

  /** The default export: `state` is None when the store passes `undefined`. */
  function Reduce(state: Option<string>, action: Action): (next: string)
    ensures action.kind == SetError || EndsWith(action.kind, FailedSuffix) ==> next == Stringify(action.error)
    ensures EndsWith(action.kind, SucceededSuffix) ==> next == InitialState
    ensures EffectOf(action.kind) == Keeps ==> next == state.GetOr(InitialState)
  {
    SuffixesExclusive(action.kind);
    SetErrorIsNotASuccessType();
    var current := state.GetOr(InitialState);
    if action.kind == SetError || EndsWith(action.kind, FailedSuffix) then Stringify(action.error)
    else if EndsWith(action.kind, SucceededSuffix) then InitialState
    else current
  }

  /** The character `i` places into the suffix a string ends with. */
  lemma SuffixChar(s: string, suffix: string, i: nat)
    requires i < |suffix|
    ensures EndsWith(s, suffix) ==> s[|s| - |suffix| + i] == suffix[i]
  {
    if EndsWith(s, suffix) {
      assert s[|s| - |suffix|..][i] == suffix[i];
    }
  }

  /** No type ends in both suffixes, so the order of the two tests never matters for them. */
  lemma SuffixesExclusive(kind: string)
    ensures !(EndsWith(kind, FailedSuffix) && EndsWith(kind, SucceededSuffix))
  {
    SuffixChar(kind, FailedSuffix, 4);
    SuffixChar(kind, SucceededSuffix, 7);
  }

  lemma SetErrorIsNotASuccessType()
    ensures !EndsWith(SetError, SucceededSuffix)
  {
  }

  /** `SET_ERROR` sets the slot, though it does not end in `_FAILED`. */
  lemma SetErrorIsNotAFailureType()
    ensures !EndsWith(SetError, FailedSuffix) && EffectOf(SetError) == Sets
  {
    SuffixChar(SetError, FailedSuffix, 6);
  }

  /** Only the exact suffix clears: `..._SUCCEED` leaves the error in place. */
  lemma SucceedWithoutEdKeepsError(stem: string, state: string, e: ErrorValue)
    ensures EffectOf(stem + "_SUCCEED") == Keeps
    ensures Reduce(Some(state), Action(stem + "_SUCCEED", e)) == state
  {
    var kind := stem + "_SUCCEED";
    assert kind[|kind| - 3] == 'E' && kind[|kind| - 1] == 'D';
    SuffixChar(kind, FailedSuffix, 4);
    SuffixChar(kind, SucceededSuffix, 7);
  }

  /** The slot after a sequence of actions. */
  function Run(state: Option<string>, actions: seq<Action>): string
    decreases |actions|
  {
    if actions == [] then state.GetOr(InitialState)
    else Run(Some(Reduce(state, actions[0])), actions[1..])
  }

  /** The index of the last action that sets or clears the slot, if any. */
  function LastEffective(actions: seq<Action>): (k: Option<nat>)
    ensures k.Some? ==> k.value < |actions| && EffectOf(actions[k.value].kind) != Keeps
    ensures k.Some? ==> forall i :: k.value < i < |actions| ==> EffectOf(actions[i].kind) == Keeps
    ensures k.None? ==> forall i :: 0 <= i < |actions| ==> EffectOf(actions[i].kind) == Keeps
  {
    if actions == [] then None
    else if EffectOf(actions[|actions| - 1].kind) != Keeps then Some(|actions| - 1)
    else LastEffective(actions[..|actions| - 1])
  }

  /**
   * The slot is decided by the last action that sets or clears it: its message
   * if it set it, `''` if it cleared it, and the starting state if there is none.
   */
  lemma {:induction false} RunIsDecidedByLastEffective(state: Option<string>, actions: seq<Action>)
    ensures LastEffective(actions).None? ==> Run(state, actions) == state.GetOr(InitialState)
    ensures LastEffective(actions).Some? ==>
              var a := actions[LastEffective(actions).value];
              Run(state, actions) == (if EffectOf(a.kind) == Sets then Stringify(a.error) else InitialState)
    decreases |actions|
  {
    if actions != [] {
      var last := actions[|actions| - 1];
      var init := actions[..|actions| - 1];
      RunSnoc(state, init, last);
      assert init + [last] == actions;
      RunIsDecidedByLastEffective(state, init);
      if EffectOf(last.kind) == Keeps {
        assert LastEffective(actions) == LastEffective(init);
        if LastEffective(init).Some? {
          assert actions[LastEffective(init).value] == init[LastEffective(init).value];
        }
      }
    }
  }

  /** Running one more action is reducing the slot reached so far. */
  lemma {:induction false} RunSnoc(state: Option<string>, actions: seq<Action>, last: Action)
    ensures Run(state, actions + [last]) == Reduce(Some(Run(state, actions)), last)
    decreases |actions|
  {
    if actions == [] {
      assert [] + [last] == [last];
      assert [last][1..] == [];
    } else {
      assert (actions + [last])[1..] == actions[1..] + [last];
      RunSnoc(Some(Reduce(state, actions[0])), actions[1..], last);
    }
  }
}
