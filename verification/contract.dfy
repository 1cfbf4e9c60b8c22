/**
 * The client and the server together: every request DockerService sends
 * reaches the server handler it is meant for, and the envelope the server
 * wraps the container list in is the one the client unwraps.
 */
module Contract {
  import opened Wrappers
  import opened Text
  import opened Auth
  import Http
  import Json
  import Api
  import Dashboard
  import Container
  import DockerService

  /** The base URL the client prefixes its paths with: the server's root. */
  const ApiBase := "/"

  /**
   * What the server receives for a client request: the path under the base
   * URL, the stored credential (empty when there is none) and the body sent.
   */
  function ToServer(c: DockerService.ClientRequest): (r: Dashboard.Request)
    ensures r.verb == c.verb && r.path == ApiBase + c.path
    ensures r.body == Success(c.body.GetOr(""))
    ensures r.authorization == c.authorization.GetOr("")
  {
    Dashboard.Request(c.verb, ApiBase + c.path, c.authorization.GetOr(""), Success(c.body.GetOr("")))
  }

  /** The server handler each client action is meant for. */
  function Intended(action: DockerService.ContainerAction, user: User, id: string): Api.Handler {
    match action
    case Infos => Api.InspectContainer(id)
    case Create(content) => Api.Compose(user, id, content)
    case Start => Api.ContainerAction(user, id, "start")
    case Stop => Api.ContainerAction(user, id, "stop")
    case Restart => Api.ContainerAction(user, id, "restart")
    case Delete => Api.DeleteContainer(user, id)
  }

  /** A path under `containers` goes, unchanged, to the REST router. */
  lemma RestRoute(p: string)
    requires StartsWith(p, "containers")
    ensures Dashboard.Route(ApiBase + p) == Dashboard.ToRest(p)
  {
    var path := ApiBase + p;
    assert path[1] == 'c';
    var t := Dashboard.Route(path);
    assert (ApiBase + t.path)[1..] == t.path;
    assert path[1..] == p;
  }

  /** The inspect path ends in "info/" only when the id ends in "info". */
  lemma InfoSlashEnding(id: string)
    ensures EndsWith(Api.ContainersSlash + id + "/", "info/") ==> EndsWith(id, "info")
  {
    var s := Api.ContainersSlash + id + "/";
    if |id| >= 4 {
      assert s[|s| - 5..|s| - 1] == id[|id| - 4..];
      assert s[|s| - 5..][..4] == s[|s| - 5..|s| - 1];
    } else {
      assert s[|s| - 5..][3 - |id|] == s[10] == '/';
    }
  }

  lemma EndingCharRulesOut(p: string, c: char)
    requires |p| > 0 && p[|p| - 1] == c
    ensures c != 'o' ==> !EndsWith(p, "info")
    ensures c != '/' ==> !EndsWith(p, "info/")
  {
  }

  /** The path of a container action under the REST router, and what it does not end with. */
  lemma ActionPath(st: DockerService.Storage, key: string, action: DockerService.ContainerAction, id: string)
    ensures var p := DockerService.ActionRequest(st, key, action, id).path;
            && p == Api.ContainersSlash + id + "/" + DockerService.ActionSuffix(action)
            && Dashboard.Route(ApiBase + p) == Dashboard.ToRest(p)
            && p != "health"
            && !EndsWith(p, "info")
            && (DockerService.ActionSuffix(action) != [] ==> !EndsWith(p, "info/"))
  {
    var p := DockerService.ActionRequest(st, key, action, id).path;
    assert p[..10] == "containers";
    RestRoute(p);
    assert p[0] == 'c';
    var suffix := DockerService.ActionSuffix(action);
    if suffix == [] {
      assert p[|p| - 1] == '/';
      EndingCharRulesOut(p, '/');
    } else {
      assert p[|p| - 1] == suffix[|suffix| - 1];
      EndingCharRulesOut(p, suffix[|suffix| - 1]);
    }
  }

  /** The API request the server's router sees for a client request under the base URL. */
  function Inner(c: DockerService.ClientRequest): Api.Request {
    Api.Request(c.verb, c.path, c.authorization.GetOr(""), Success(c.body.GetOr("")))
  }

  /** An authenticated request under `containers` that is not an info request goes to the containers handler. */
  lemma ToContainersHandler(r: Api.Request, user: User,
                            authenticate: string -> Result<User, string>, dockerPresent: bool)
    requires r.verb != Http.Options && r.path != "health" && StartsWith(r.path, "containers")
    requires !(r.verb == Http.Get && Api.IsInfoPath(r.path))
    requires authenticate(r.authorization) == Success(user)
    ensures Api.ServeHttp(r, authenticate, dockerPresent) == Api.ContainersHandler(r, user)
  {
  }

  /** POST `containers/{id}/start`, `/stop` or `/restart` runs that action. */
  lemma RunRoute(r: Api.Request, user: User, id: string, name: string)
    requires id != [] && SlashFree(id) && name in {"start", "stop", "restart"}
    requires r.path == Api.ContainersSlash + id + "/" + name && r.verb == Http.Post
    ensures Api.ContainersHandler(r, user) == Api.ContainerAction(user, id, name)
  {
    assert name != [] && SlashFree(name);
    assert r.path == Api.ContainersSlash + id + "/" + name + [];
    Api.ActionRoute(r, user, id, name, []);
  }

  /** Past the prefix dispatch, the API router sends a container action to its intended handler. */
  lemma RouterHandlesAction(st: DockerService.Storage, key: string, action: DockerService.ContainerAction,
                            id: string, user: User,
                            authenticate: string -> Result<User, string>, dockerPresent: bool)
    requires id != [] && SlashFree(id)
    requires action.Infos? ==> !EndsWith(id, "info")
    requires authenticate(DockerService.GetItem(st, key).GetOr("")) == Success(user)
    ensures Api.ServeHttp(Inner(DockerService.ActionRequest(st, key, action, id)), authenticate, dockerPresent)
         == Intended(action, user, id)
  {
    var r := Inner(DockerService.ActionRequest(st, key, action, id));
    ActionPath(st, key, action, id);
    if action.Infos? {
      InfoSlashEnding(id);
    }
    ToContainersHandler(r, user, authenticate, dockerPresent);
    match action
    case Infos => Api.InspectRoute(r, user, id);
    case Create(_) => Api.ComposeRoute(r, user, id);
    case Delete => Api.DeleteRoute(r, user, id);
    case _ => RunRoute(r, user, id, DockerService.ActionSuffix(action));
  }

  /**
   * Every container action the client sends, once its credential is accepted,
   * reaches the server handler meant for it, with the same id and body. The
   * id must be a single path segment; the inspect request additionally needs
   * an id not ending in "info" (see `InfoShadowsInspect`).
   */
  lemma ActionReachesIntendedHandler(st: DockerService.Storage, key: string, action: DockerService.ContainerAction,
                                     id: string, user: User,
                                     authenticate: string -> Result<User, string>, dockerPresent: bool)
    requires id != [] && SlashFree(id)
    requires action.Infos? ==> !EndsWith(id, "info")
    requires authenticate(DockerService.GetItem(st, key).GetOr("")) == Success(user)
    ensures Dashboard.Serve(ToServer(DockerService.ActionRequest(st, key, action, id)), authenticate, dockerPresent)
         == Dashboard.Rest(Intended(action, user, id))
  {
    ActionPath(st, key, action, id);
    RouterHandlesAction(st, key, action, id, user, authenticate, dockerPresent);
  }

  /** Listing from the client reaches the listing handler. */
  lemma ListingReachesListHandler(st: DockerService.Storage, key: string, user: User,
                                  authenticate: string -> Result<User, string>, dockerPresent: bool)
    requires authenticate(DockerService.GetItem(st, key).GetOr("")) == Success(user)
    ensures Dashboard.Serve(ToServer(DockerService.ContainersRequest(st, key)), authenticate, dockerPresent)
         == Dashboard.Rest(Api.ListContainers(user))
  {
    var c := DockerService.ContainersRequest(st, key);
    RestRoute(c.path);
  }

  /**
   * The info route is matched before the containers routes and is anchored at
   * the end only: inspecting an id that ends in "info" is answered by the info
   * handler instead.
   */
  lemma InfoShadowsInspect(st: DockerService.Storage, key: string, id: string, user: User,
                           authenticate: string -> Result<User, string>, dockerPresent: bool)
    requires EndsWith(id, "info")
    requires authenticate(DockerService.GetItem(st, key).GetOr("")) == Success(user)
    ensures Dashboard.Serve(ToServer(DockerService.ActionRequest(st, key, DockerService.Infos, id)), authenticate, dockerPresent)
         == Dashboard.Rest(Api.Info)
  {
    var p := DockerService.ActionRequest(st, key, DockerService.Infos, id).path;
    assert p == Api.ContainersSlash + id + "/";
    assert p[..10] == "containers";
    RestRoute(p);
    assert p[|p| - 5..] == id[|id| - 4..] + "/";
  }

  /** The client's `containers()` resolves to exactly the list the server enveloped. */
  lemma EnvelopeRoundTrip(items: seq<Json.Value>)
    ensures DockerService.UnwrapResults(Container.ResultsEnvelope(items)) == Json.Array(items)
  {
  }

  /** End to end: a successful listing reaches the client as the listed containers. */
  lemma ListingRoundTrip(user: User, list: Container.ListOptions -> Result<seq<Json.Value>, string>)
    ensures var reply := Container.ListContainersHandler(user, list);
            reply.ListJson? ==>
              DockerService.UnwrapResults(reply.body)
              == Json.Array(Container.ListContainers(user, None, list).result.value)
  {
  }
}
