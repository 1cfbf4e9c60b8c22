/**
 * docker/docker.go: `labelFilters` and `eventFilters`. A Docker filter set is
 * modelled as the sequence of `name=value` arguments parsed into it, in order.
 */
module Filters {
  import opened Wrappers
  import opened Text
  import opened Auth

  const OwnerLabel := "owner"
  const AppLabel := "app"

  /** The message of Docker's `filters.ErrBadFormat`. */
  const BadFormat := "bad format of filter (expected name=value)"
  /** The prefix both functions put before a parse error. */
  const ParseErrorPrefix := "Error while parsing label for user: "

  /** The event filters a dashboard listens to, in the order they are added. */
  const EventFlags: seq<string> :=
    ["event=create", "event=start", "event=stop", "event=restart", "event=rename",
     "event=update", "event=destroy", "event=die", "event=kill"]

  type Args = seq<string>

  /**
   * Docker's `filters.ParseFlag`: an empty argument is ignored, one without `=`
   * is a format error, anything else is added.
   */
  function ParseFlag(arg: string, args: Args): (r: Result<Args, string>)
    ensures r.Failure? <==> arg != [] && '=' !in arg
    ensures r.Success? && arg != [] ==> r.value == args + [arg]
    ensures r.Success? && arg == [] ==> r.value == args
  {
    if arg == [] then Success(args)
    else if '=' !in arg then Failure(BadFormat)
    else Success(args + [arg])
  }

  /** Parses `flags` one after the other, stopping at the first failure with its wrapped error. */
  function AddFlags(args: Args, flags: seq<string>): Result<Args, string>
    decreases |flags|
  {
    if flags == [] then Success(args)
    else
      match ParseFlag(flags[0], args)
      case Failure(e) => Failure(ParseErrorPrefix + e)
      case Success(next) => AddFlags(next, flags[1..])
  }

  predicate WellFormedFlag(f: string) {
    f != [] && '=' in f
  }

  /**
   * The chain of `if _, err := filters.ParseFlag(...); err != nil { return ... }`:
   * it fails exactly when some flag is malformed, with the wrapped error of the
   * first malformed one, and otherwise adds every flag in order.
   */
  lemma {:induction false} AddFlagsStopsAtFirstFailure(args: Args, flags: seq<string>)
    requires forall i :: 0 <= i < |flags| ==> flags[i] != []
    ensures AddFlags(args, flags).Success? <==> forall i :: 0 <= i < |flags| ==> WellFormedFlag(flags[i])
    ensures AddFlags(args, flags).Success? ==> AddFlags(args, flags).value == args + flags
    ensures AddFlags(args, flags).Failure? ==> AddFlags(args, flags).error == ParseErrorPrefix + BadFormat
    decreases |flags|
  {
    if flags != [] {
      if WellFormedFlag(flags[0]) {
        AddFlagsStopsAtFirstFailure(args + [flags[0]], flags[1..]);
        assert args + [flags[0]] + flags[1..] == args + flags;
        if AddFlags(args, flags).Success? {
          forall i | 0 <= i < |flags| ensures WellFormedFlag(flags[i]) {
            if i > 0 { assert flags[i] == flags[1..][i - 1]; }
          }
        }
      }
    }
  }

  /** `eventFilters` */
  function EventFilters(args: Args): Result<Args, string> {
    AddFlags(args, EventFlags)
  }

  /** `eventFilters` never fails and appends the nine event filters, in order. */
  lemma EventFiltersAddsNineEvents(args: Args)
    ensures EventFilters(args).Success?
    ensures EventFilters(args).value == args + EventFlags
    ensures |EventFilters(args).value| == |args| + 9
    ensures forall i :: |args| <= i < |args| + 9 ==> StartsWith(EventFilters(args).value[i], "event=")
  {
    forall i | 0 <= i < |EventFlags| ensures WellFormedFlag(EventFlags[i]) && StartsWith(EventFlags[i], "event=") {
      assert EventFlags[i][5] == '=';
    }
    AddFlagsStopsAtFirstFailure(args, EventFlags);
  }

  /** The app name applies when it is given, not empty, and the user is a multi-app user. */
  predicate AppNameApplies(user: User, appName: Option<string>) {
    appName.Some? && appName.value != "" && user.multiApp
  }

  /** `labelFilters` */
  function LabelFilters(args: Args, user: User, appName: Option<string>): Result<Args, string> {
    if AppNameApplies(user, appName) then
      match ParseFlag("label=" + AppLabel + "=" + appName.value, args)
      case Failure(e) => Failure(ParseErrorPrefix + e)
      case Success(next) => Success(next)
    else if !user.admin then
      match ParseFlag("label=" + OwnerLabel + "=" + user.username, args)
      case Failure(e) => Failure(ParseErrorPrefix + e)
      case Success(next) => Success(next)
    else Success(args)
  }

  /** Which containers a filter set admits, as read back from the label filter it holds. */
  datatype Scope = AppContainers(app: string) | OwnedBy(owner: string) | AllContainers

  /** Reads the scope back from the label filters added to a filter set. */
  function ScopeOf(added: Args): Scope {
    if |added| == 1 && StartsWith(added[0], "label=app=") then AppContainers(added[0][10..])
    else if |added| == 1 && StartsWith(added[0], "label=owner=") then OwnedBy(added[0][12..])
    else AllContainers
  }

  /**
   * `labelFilters` never fails, keeps the filters already present, adds at most
   * one label filter, and that filter restricts to the app for a multi-app user
   * naming one, to the owner for any other non-admin, and to nothing for an admin.
   */
  lemma LabelFiltersScope(args: Args, user: User, appName: Option<string>)
    ensures LabelFilters(args, user, appName).Success?
    ensures var r := LabelFilters(args, user, appName).value;
            && |args| <= |r| <= |args| + 1
            && r[..|args|] == args
            && ScopeOf(r[|args|..]) ==
                 if AppNameApplies(user, appName) then AppContainers(appName.value)
                 else if !user.admin then OwnedBy(user.username)
                 else AllContainers
    ensures AppNameApplies(user, appName) ==>
              LabelFilters(args, user, appName).value == args + ["label=" + AppLabel + "=" + appName.value]
    ensures !AppNameApplies(user, appName) && !user.admin ==>
              LabelFilters(args, user, appName).value == args + ["label=" + OwnerLabel + "=" + user.username]
    ensures !AppNameApplies(user, appName) && user.admin ==> LabelFilters(args, user, appName).value == args
  {
    if AppNameApplies(user, appName) {
      var flag := "label=" + AppLabel + "=" + appName.value;
      assert flag[5] == '=';
      var r := LabelFilters(args, user, appName).value;
      assert r == args + [flag];
      assert r[|args|..] == [flag];
      assert flag[..10] == "label=app=";
    } else if !user.admin {
      var flag := "label=" + OwnerLabel + "=" + user.username;
      assert flag[5] == '=';
      var r := LabelFilters(args, user, appName).value;
      assert r == args + [flag];
      assert r[|args|..] == [flag];
      assert flag[..12] == "label=owner=";
      assert flag[6] == 'o';
    }
  }
}
