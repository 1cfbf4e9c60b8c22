/**
 * dashboard.go: `dashboardHandler` chooses between the websocket handler and the
 * REST handler by path prefix, each wrapped in `http.StripPrefix`.
 */
module Dashboard {
  import opened Wrappers
  import opened Text
  import opened Http
  import opened Auth
  import Api
  import Websocket

  const RestPrefix := "/"
  const WebsocketPrefix := "/ws/"

  /** Where `dashboardHandler` sends a path, and the path the chosen handler sees. */
  datatype Target = ToWebsocket(path: string) | ToRest(path: string) | NotFound

  /** `dashboardHandler` followed by the `StripPrefix` of the chosen handler. */
  function Route(path: string): (t: Target)
    ensures t.ToWebsocket? <==> StartsWith(path, WebsocketPrefix)
    ensures t.ToRest? <==> !StartsWith(path, WebsocketPrefix) && StartsWith(path, RestPrefix)
    ensures t.NotFound? <==> !StartsWith(path, RestPrefix)
    ensures t.ToWebsocket? ==> WebsocketPrefix + t.path == path
    ensures t.ToRest? ==> RestPrefix + t.path == path
  {
    if StartsWith(path, WebsocketPrefix) then
      assert path[..|RestPrefix|] == path[..|WebsocketPrefix|][..|RestPrefix|];
      assert WebsocketPrefix + path[|WebsocketPrefix|..] == path;
      ToWebsocket(path[|WebsocketPrefix|..])
    else if StartsWith(path, RestPrefix) then
      assert RestPrefix + path[|RestPrefix|..] == path;
      ToRest(path[|RestPrefix|..])
    else NotFound
  }

  /** Every websocket path is also a REST path: the order of the two tests decides. */
  lemma WebsocketPathsAreRestPaths(path: string)
    requires StartsWith(path, WebsocketPrefix)
    ensures StartsWith(path, RestPrefix)
    ensures Route(path).ToWebsocket?
  {
    assert path[..|RestPrefix|] == path[..|WebsocketPrefix|][..|RestPrefix|];
  }

  /** A request as the server receives it. */
  datatype Request = Request(
    verb: Method,
    path: string,
    authorization: string,
    body: Result<string, string>)

  /** What the whole server does with a request. */
  datatype Outcome = Ws(dispatch: Websocket.Dispatch) | Rest(handler: Api.Handler) | Status404

  /** The server end to end: prefix dispatch, prefix stripping, then the chosen router. */
  function Serve(r: Request, authenticate: string -> Result<User, string>, dockerPresent: bool): (o: Outcome)
    ensures o.Status404? <==> !StartsWith(r.path, RestPrefix)
    ensures o.Ws? <==> StartsWith(r.path, WebsocketPrefix)
  {
    match Route(r.path)
    case ToWebsocket(p) => Ws(Websocket.HandleWebsocket(p))
    case ToRest(p) =>
      Rest(Api.ServeHttp(Api.Request(r.verb, p, r.authorization, r.body), authenticate, dockerPresent))
    case NotFound => Status404
  }

  /** An occurrence of the logs pattern puts a `/` at three distinct offsets. */
  lemma SlashesOfLogsPath(p: string, i: nat, id: string)
    requires Websocket.LogsPathAt(p, i, id)
    ensures i + 12 + |id| < |p|
    ensures p[i] == '/' && p[i + 11] == '/' && p[i + 12 + |id|] == '/'
  {
    var w := Websocket.LogsStart + id + Websocket.LogsEnd;
    assert p[i..][..|w|] == w;
    assert p[i] == w[0];
    assert p[i + 11] == w[11];
    assert p[i + 12 + |id|] == w[12 + |id|];
  }

  /**
   * The logs pattern of docker/websocket.go expects a `/` before `containers`,
   * but stripping `/ws/` removes it: `/ws/containers/{id}/logs` is ignored.
   * This takes the handler dashboard.go mounts as `docker.WebsocketHandler{}`
   * to be `handleWebsocket`; docker/websocket.go defines no such type.
   */
  lemma {:induction false} StrippedLogsPathIsIgnored(r: Request, id: string, authenticate: string -> Result<User, string>, dockerPresent: bool)
    requires id != [] && SlashFree(id)
    requires r.path == WebsocketPrefix + "containers/" + id + "/logs"
    ensures Serve(r, authenticate, dockerPresent) == Ws(Websocket.Ignore)
  {
    var p := "containers/" + id + "/logs";
    assert r.path[..|WebsocketPrefix|] == WebsocketPrefix;
    assert Route(r.path) == ToWebsocket(p);
    // `p` holds two slashes, an occurrence of the pattern needs three
    forall k | 0 <= k < |p| && k != 10 && k != 11 + |id| ensures p[k] != '/' {
      if k < 10 {
        assert p[k] == "containers"[k];
      } else if k < 11 + |id| {
        assert p[k] == id[k - 11];
      } else {
        assert p[k] == "logs"[k - 12 - |id|];
      }
    }
    forall i: nat, id' ensures !Websocket.LogsPathAt(p, i, id') {
      if Websocket.LogsPathAt(p, i, id') {
        SlashesOfLogsPath(p, i, id');
      }
    }
  }
}
