/**
 * The REST router of docker/api.go: `ServeHTTP`, `containersHandler`,
 * `servicesHandler`, `healthHandler` and `CanBeGracefullyClosed`.
 * Each regular expression of the file is a hand-written matcher here, with a
 * declarative description of the paths it accepts.
 */
module Api {
  import opened Wrappers
  import opened Text
  import opened Http
  import opened Auth

  const StatusOk := 200
  const StatusServiceUnavailable := 503

  /** A request as the REST router sees it: the path has lost its leading `/`. */
  datatype Request = Request(
    verb: Method,
    path: string,
    authorization: string,
    body: Result<string, string>)  // what reading the body yields

  /** What the router hands the request to. */
  datatype Handler =
    | EmptyReply                                        // OPTIONS: `w.Write(nil)`
    | Health(status: int)
    | Unauthorized(error: string)
    | Info
    | ListContainers(user: User)
    | InspectContainer(id: string)
    | ContainerAction(user: User, id: string, action: string)
    | DeleteContainer(user: User, id: string)
    | Compose(user: User, id: string, body: string)
    | BodyReadError(error: string)                      // `httputils.InternalServer`
    | ListServices(user: User)
    | NoHandler                                         // nothing is written

  // ---- the patterns ------------------------------------------------------

  /** `^health$` */
  predicate IsHealthPath(p: string) {
    p == "health"
  }

  /** `info/?$`: anchored at the end only. */
  predicate IsInfoPath(p: string) {
    EndsWith(p, "info") || EndsWith(p, "info/")
  }

  /** `^containers` */
  predicate IsContainersPath(p: string) {
    StartsWith(p, "containers")
  }

  /** `^containers/?$` */
  predicate IsContainerListPath(p: string) {
    p == "containers" || p == "containers/"
  }

  /** `^services` */
  predicate IsServicesPath(p: string) {
    StartsWith(p, "services")
  }

  /** `^services/?$` */
  predicate IsServiceListPath(p: string) {
    p == "services" || p == "services/"
  }

  const ContainersSlash := "containers/"

  /** `p` matches `^containers/([^/]+)/?$` with `id` as the captured group. */
  ghost predicate ContainerPathOf(p: string, id: string) {
    && id != []
    && SlashFree(id)
    && (p == ContainersSlash + id || p == ContainersSlash + id + "/")
  }

  /** `p` matches `^containers/([^/]+)/([^/]+)` with groups `id` and `name`. */
  ghost predicate ActionPathOf(p: string, id: string, name: string) {
    && id != [] && SlashFree(id)
    && name != [] && SlashFree(name)
    && StartsWith(p, ContainersSlash + id + "/" + name)
    && var k := |ContainersSlash + id + "/" + name|;
       (k == |p| || p[k] == '/')
  }

  /** `containerRequest.FindSubmatch(urlPath)[1]`, or None when it does not match. */
  function MatchContainer(p: string): (r: Option<string>)
    ensures r.Some? ==> ContainerPathOf(p, r.value)
    ensures forall id :: ContainerPathOf(p, id) ==> r == Some(id)
  {
    if !StartsWith(p, ContainersSlash) then None
    else
      var rest := p[|ContainersSlash|..];
      assert p == ContainersSlash + rest;
      var id := if EndsWith(rest, "/") then rest[..|rest| - 1] else rest;
      assert forall id' :: ContainerPathOf(p, id') ==> id' == id by {
        forall id' | ContainerPathOf(p, id') ensures id' == id {
          if p == ContainersSlash + id' {
            assert rest == id';
            assert rest[|rest| - 1] != '/';
          } else {
            assert rest == id' + "/";
          }
        }
      }
      if id != [] && SlashFree(id) then
        assert rest == id + "/" || rest == id;
        Some(id)
      else
        None
  }

  /** `containerActionRequest.FindSubmatch(urlPath)[1:3]`, or None when it does not match. */
  function MatchAction(p: string): Option<(string, string)> {
    if !StartsWith(p, ContainersSlash) then None
    else
      var rest := p[|ContainersSlash|..];
      var n := SlashRun(rest);
      if n == 0 || n == |rest| then None
      else
        var after := rest[n + 1..];
        var m := SlashRun(after);
        if m == 0 then None else Some((rest[..n], after[..m]))
  }

  /** Whatever `MatchAction` captures is a decomposition of the path the pattern describes. */
  lemma MatchActionSound(p: string)
    ensures MatchAction(p).Some? ==> ActionPathOf(p, MatchAction(p).value.0, MatchAction(p).value.1)
  {
    if MatchAction(p).Some? {
      var rest := p[|ContainersSlash|..];
      var n := SlashRun(rest);
      var m := SlashRun(rest[n + 1..]);
      TwoSegmentPrefix(p, ContainersSlash, n, m);
    }
  }

  /**
   * Cutting the text after `pre` at a `/` at offset `n` and again `m` further on
   * gives a prefix `pre + id + "/" + name` followed by the end or a `/`.
   */
  lemma TwoSegmentPrefix(p: string, pre: string, n: nat, m: nat)
    requires StartsWith(p, pre)
    requires n < |p| - |pre| && p[|pre| + n] == '/'
    requires |pre| + n + 1 + m <= |p|
    requires |pre| + n + 1 + m == |p| || p[|pre| + n + 1 + m] == '/'
    ensures var rest := p[|pre|..];
            var w := pre + rest[..n] + "/" + rest[n + 1..][..m];
            && StartsWith(p, w)
            && (|w| == |p| || p[|w|] == '/')
  {
    var rest := p[|pre|..];
    var id, name := rest[..n], rest[n + 1..][..m];
    var w := pre + id + "/" + name;
    var k := |pre| + n + 1 + m;
    assert |w| == k;
    forall i | 0 <= i < k ensures p[i] == w[i] {
      if i < |pre| {
        assert p[..|pre|][i] == pre[i];
      } else if i < |pre| + n {
        assert id[i - |pre|] == rest[i - |pre|];
      } else if i > |pre| + n {
        assert name[i - |pre| - n - 1] == rest[i - |pre|];
      }
    }
    assert p[..k] == w;
  }

  /** Splits a path the action pattern describes back into its parts. */
  lemma ActionPathDecomposition(p: string, id: string, name: string)
    requires ActionPathOf(p, id, name)
    ensures StartsWith(p, ContainersSlash)
    ensures var rest := p[|ContainersSlash|..];
            && SlashRun(rest) == |id|
            && rest[..|id|] == id
            && |id| < |rest|
            && SlashRun(rest[|id| + 1..]) == |name|
            && rest[|id| + 1..][..|name|] == name
  {
    var k := |ContainersSlash + id + "/" + name|;
    var tail := p[k..];
    assert p == ContainersSlash + id + "/" + name + tail;
    var rest := p[|ContainersSlash|..];
    assert rest == id + ("/" + name + tail);
    SlashRunOfSplit(id, "/" + name + tail);
    assert rest[|id| + 1..] == name + tail;
    SlashRunOfSplit(name, tail);
  }

  /** Every path the action pattern describes is matched, with exactly its own groups. */
  lemma MatchActionComplete(p: string, id: string, name: string)
    requires ActionPathOf(p, id, name)
    ensures MatchAction(p) == Some((id, name))
  {
    ActionPathDecomposition(p, id, name);
  }

  // ---- the handlers ------------------------------------------------------

  /** `healthHandler`: 200 when the Docker client exists, 503 otherwise. */
  function HealthStatus(dockerPresent: bool): (status: int)
    ensures status == StatusOk <==> dockerPresent
    ensures status == StatusServiceUnavailable <==> !dockerPresent
  {
    if dockerPresent then StatusOk else StatusServiceUnavailable
  }

  /** `containersHandler`: the first matching branch wins, none matching writes nothing. */
  function ContainersHandler(r: Request, user: User): Handler {
    var p := r.path;
    if IsContainerListPath(p) && r.verb == Get then ListContainers(user)
    else if MatchContainer(p).Some? && r.verb == Get then InspectContainer(MatchContainer(p).value)
    else if MatchAction(p).Some? && r.verb == Post then
      ContainerAction(user, MatchAction(p).value.0, MatchAction(p).value.1)
    else if MatchContainer(p).Some? && r.verb == Delete then DeleteContainer(user, MatchContainer(p).value)
    else if MatchContainer(p).Some? && r.verb == Post then
      match r.body
      case Failure(e) => BodyReadError(e)
      case Success(b) => Compose(user, MatchContainer(p).value, b)
    else NoHandler
  }

  /** `servicesHandler` */
  function ServicesHandler(r: Request, user: User): Handler {
    if IsServiceListPath(r.path) && r.verb == Get then ListServices(user) else NoHandler
  }

  /** Whether a handler is one of those reached only after authentication. */
  predicate Authenticated(h: Handler) {
    !(h.EmptyReply? || h.Health? || h.Unauthorized?)
  }

  /**
   * `Handler.ServeHTTP`. `authenticate` stands for `auth.IsAuthenticatedByAuth`
   * applied to the `Authorization` header; `dockerPresent` for `docker != nil`.
   */
  function ServeHttp(r: Request, authenticate: string -> Result<User, string>, dockerPresent: bool): (h: Handler)
    // OPTIONS is answered before anything else
    ensures r.verb == Options <==> h == EmptyReply
    // health is the only route served without credentials
    ensures h.Health? <==> r.verb == Get && r.path == "health"
    ensures h.Health? ==> (h.status == StatusOk <==> dockerPresent)
    // a failed authentication dispatches nothing
    ensures h.Unauthorized? <==>
              r.verb != Options && !(r.verb == Get && r.path == "health")
              && authenticate(r.authorization).Failure?
    ensures h.Unauthorized? ==> h.error == authenticate(r.authorization).error
    ensures Authenticated(h) ==> authenticate(r.authorization).Success?
    // the info pattern is tried before the containers prefix
    ensures h == Info <==> Authenticated(h) && r.verb == Get && IsInfoPath(r.path)
  {
    if r.verb == Options then EmptyReply
    else if IsHealthPath(r.path) && r.verb == Get then Health(HealthStatus(dockerPresent))
    else
      match authenticate(r.authorization)
      case Failure(e) => Unauthorized(e)
      case Success(user) =>
        if IsInfoPath(r.path) && r.verb == Get then Info
        else if IsContainersPath(r.path) then ContainersHandler(r, user)
        else if IsServicesPath(r.path) then ServicesHandler(r, user)
        else NoHandler
  }

  // ---- the routing table -------------------------------------------------

  /** The paths of the inspect, delete and compose routes and of the action route never overlap. */
  lemma ActionAndContainerPathsDisjoint(p: string)
    ensures !(MatchAction(p).Some? && MatchContainer(p).Some?)
  {
    if MatchAction(p).Some? {
      MatchActionSound(p);
      var (id, name) := MatchAction(p).value;
      var rest := p[|ContainersSlash|..];
      assert p[..|ContainersSlash + id + "/" + name|] == ContainersSlash + id + "/" + name;
      assert rest[|id|] == '/' && |id| + 1 < |rest|;
    }
  }

  /** The captured id of any container route never holds a `/`. */
  lemma CapturedIdsAreSlashFree(p: string)
    ensures MatchContainer(p).Some? ==> SlashFree(MatchContainer(p).value)
    ensures MatchAction(p).Some? ==> SlashFree(MatchAction(p).value.0) && SlashFree(MatchAction(p).value.1)
  {
    MatchActionSound(p);
  }

  /** GET `containers` or `containers/` lists. */
  lemma {:induction false} ListRoute(r: Request, user: User)
    requires r.verb == Get && IsContainerListPath(r.path)
    ensures ContainersHandler(r, user) == ListContainers(user)
  {
  }

  /** GET `containers/{id}` with or without a trailing slash inspects `id`. */
  lemma {:induction false} InspectRoute(r: Request, user: User, id: string)
    requires id != [] && SlashFree(id)
    requires r.path == ContainersSlash + id || r.path == ContainersSlash + id + "/"
    requires r.verb == Get
    ensures ContainersHandler(r, user) == InspectContainer(id)
  {
    assert ContainerPathOf(r.path, id);
  }

  /** POST `containers/{id}/{name}…` runs action `name` on `id`. */
  lemma {:induction false} ActionRoute(r: Request, user: User, id: string, name: string, tail: string)
    requires id != [] && SlashFree(id) && name != [] && SlashFree(name)
    requires tail == [] || tail[0] == '/'
    requires r.path == ContainersSlash + id + "/" + name + tail
    requires r.verb == Post
    ensures ContainersHandler(r, user) == ContainerAction(user, id, name)
  {
    assert r.path[..|ContainersSlash + id + "/" + name|] == ContainersSlash + id + "/" + name;
    MatchActionComplete(r.path, id, name);
  }

  /** DELETE `containers/{id}` with or without a trailing slash deletes `id`. */
  lemma {:induction false} DeleteRoute(r: Request, user: User, id: string)
    requires id != [] && SlashFree(id)
    requires r.path == ContainersSlash + id || r.path == ContainersSlash + id + "/"
    requires r.verb == Delete
    ensures ContainersHandler(r, user) == DeleteContainer(user, id)
  {
    assert ContainerPathOf(r.path, id);
  }

  /** POST `containers/{id}` with or without a trailing slash composes `id` from the body read. */
  lemma {:induction false} ComposeRoute(r: Request, user: User, id: string)
    requires id != [] && SlashFree(id)
    requires r.path == ContainersSlash + id || r.path == ContainersSlash + id + "/"
    requires r.verb == Post
    ensures r.body.Success? ==> ContainersHandler(r, user) == Compose(user, id, r.body.value)
    ensures r.body.Failure? ==> ContainersHandler(r, user) == BodyReadError(r.body.error)
  {
    assert ContainerPathOf(r.path, id);
    ActionAndContainerPathsDisjoint(r.path);
  }

  /** A request no branch of `containersHandler` claims dispatches nothing. */
  lemma {:induction false} UnmatchedContainersRequest(r: Request, user: User)
    requires !(IsContainerListPath(r.path) && r.verb == Get)
    requires MatchContainer(r.path).None? || r.verb !in {Get, Post, Delete}
    requires MatchAction(r.path).None? || r.verb != Post
    ensures ContainersHandler(r, user) == NoHandler
  {
  }

  /** A path starts with at most one of two prefixes that begin with different characters. */
  lemma PrefixesExclusive(p: string, a: string, b: string)
    requires a != [] && b != [] && a[0] != b[0]
    ensures StartsWith(p, a) ==> !StartsWith(p, b)
  {
    if StartsWith(p, a) && |p| >= |b| {
      assert p[..|a|][0] == a[0] && p[..|b|][0] == p[0];
    }
  }

  /** Neither `services` nor `services/` ends in `info`, so the info route never takes the listing. */
  lemma ServiceListIsNoInfoPath(p: string)
    requires IsServiceListPath(p)
    ensures !IsInfoPath(p)
  {
    assert p[|p| - 1] in {'s', '/'};
    if p == "services/" {
      assert p[|p| - 2] == 's';
    }
  }

  /**
   * An authenticated request under `services` that the info route does not
   * take: GET `services` or `services/` lists the services, and anything else
   * under that prefix dispatches nothing.
   */
  lemma {:induction false} ServicesRoute(r: Request, authenticate: string -> Result<User, string>, dockerPresent: bool, user: User)
    requires authenticate(r.authorization) == Success(user)
    requires r.verb != Options && IsServicesPath(r.path)
    requires !(r.verb == Get && IsInfoPath(r.path))
    ensures r.verb == Get && IsServiceListPath(r.path) ==> ServeHttp(r, authenticate, dockerPresent) == ListServices(user)
    ensures !(r.verb == Get && IsServiceListPath(r.path)) ==> ServeHttp(r, authenticate, dockerPresent) == NoHandler
  {
    PrefixesExclusive(r.path, "services", "containers");
  }

  /** GET `services` or `services/` with accepted credentials reaches the services listing. */
  lemma {:induction false} ServiceListRoute(r: Request, authenticate: string -> Result<User, string>, dockerPresent: bool, user: User)
    requires authenticate(r.authorization) == Success(user)
    requires r.verb == Get && IsServiceListPath(r.path)
    ensures ServeHttp(r, authenticate, dockerPresent) == ListServices(user)
  {
    ServiceListIsNoInfoPath(r.path);
    assert StartsWith(r.path, "services");
    ServicesRoute(r, authenticate, dockerPresent, user);
  }

  /**
   * An authenticated request that is not OPTIONS, not health, not info and
   * under neither `containers` nor `services` dispatches nothing.
   */
  lemma {:induction false} AuthenticatedFallThrough(r: Request, authenticate: string -> Result<User, string>, dockerPresent: bool)
    requires authenticate(r.authorization).Success?
    requires r.verb != Options && !(r.verb == Get && r.path == "health")
    requires !(r.verb == Get && IsInfoPath(r.path))
    requires !IsContainersPath(r.path) && !IsServicesPath(r.path)
    ensures ServeHttp(r, authenticate, dockerPresent) == NoHandler
  {
  }

  // ---- graceful close ----------------------------------------------------

  /**
   * `CanBeGracefullyClosed`: walks the background tasks and answers false at the
   * first one still flagged running.
   */
  method CanBeGracefullyClosed(tasks: map<string, bool>) returns (ok: bool)
    ensures ok <==> forall name :: name in tasks ==> !tasks[name]
  {
    var pending := tasks.Keys;
    while pending != {}
      invariant pending <= tasks.Keys
      invariant forall name :: name in tasks && name !in pending ==> !tasks[name]
      decreases pending
    {
      var name :| name in pending;
      if tasks[name] {
        return false;
      }
      pending := pending - {name};
    }
    return true;
  }
}
