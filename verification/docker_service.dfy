/**
 * The client service of the web application, as its test file pins it: the
 * Basic credential and its storage, the request each container action sends,
 * the unwrapping of the `results` envelope, the redirect on 401, and the
 * credential handshake of the logs and events sockets.
 * Browser storage, `fetch`, navigation and sockets are values passed in and out.
 */
module DockerService {
  import opened Wrappers
  import opened Text
  import Http
  import Json
  import Base64

  const BasicScheme := "Basic "
  const AuthPath := "auth"
  const LoginPath := "/login"
  const StatusUnauthorized := 401

  // ---- the credential -----------------------------------------------------

  /** Characters as single bytes, the way `btoa` reads them; None if one does not fit. */
  function Latin1(s: string): (r: Option<seq<Base64.Byte>>)
    ensures r.Some? <==> forall i :: 0 <= i < |s| ==> s[i] as int < 256
    ensures r.Some? ==> |r.value| == |s| && forall i :: 0 <= i < |s| ==> r.value[i] == s[i] as int
  {
    if forall i :: 0 <= i < |s| ==> s[i] as int < 256 then
      Some(seq(|s|, i requires 0 <= i < |s| => s[i] as int))
    else None
  }

  /** Bytes back to characters. */
  function FromLatin1(b: seq<Base64.Byte>): (s: string)
    ensures |s| == |b| && forall i :: 0 <= i < |b| ==> s[i] as int == b[i]
  {
    seq(|b|, i requires 0 <= i < |b| => b[i] as char)
  }

  /**
   * `Basic ` followed by the base64 of `user:password`, as section 2 of RFC 7617
   * builds it; None when a character does not fit in a byte.
   */
  function BasicCredential(user: string, password: string): Option<string> {
    match Latin1(user + ":" + password)
    case None => None
    case Some(bytes) => Some(BasicScheme + Base64.Encode(bytes))
  }

  /** How a server reads a Basic credential back: decode, then split at the first `:`. */
  function ParseBasic(header: string): Option<(string, string)> {
    if !StartsWith(header, BasicScheme) then None
    else
      match Base64.Decode(header[|BasicScheme|..])
      case None => None
      case Some(bytes) =>
        var pair := FromLatin1(bytes);
        var k := IndexOf(pair, ':');
        if k == |pair| then None else Some((pair[..k], pair[k + 1..]))
  }

  /** `admin:password` as bytes. */
  const AdminBytes: seq<Base64.Byte> := [97, 100, 109, 105, 110, 58, 112, 97, 115, 115, 119, 111, 114, 100]

  lemma AdminText()
    ensures Latin1("admin" + ":" + "password") == Some(AdminBytes)
  {
    var text := "admin" + ":" + "password";
    assert forall i :: 0 <= i < |text| ==> text[i] as int < 256 && text[i] as int == AdminBytes[i];
    assert Latin1(text).value == AdminBytes;
  }

  /** One group of three bytes, then the encoding of the rest. */
  lemma {:induction false} EncodeFront(b: seq<Base64.Byte>, group: string, rest: string)
    requires |b| >= 3
    requires Base64.EncodeGroup(b[0], b[1], b[2]) == group && Base64.Encode(b[3..]) == rest
    ensures Base64.Encode(b) == group + rest
  {
  }

  /** `admin:password` encodes group by group. */
  lemma AdminEncoding()
    ensures Base64.Encode(AdminBytes) == "YWRt" + ("aW46" + ("cGFz" + ("c3dv" + "cmQ=")))
  {
    var b := AdminBytes;
    assert b[3..][3..][3..][3..] == [114, 100];
    assert Base64.Encode([114, 100]) == "cmQ=";
    EncodeFront(b[3..][3..][3..], "c3dv", "cmQ=");
    EncodeFront(b[3..][3..], "cGFz", "c3dv" + "cmQ=");
    EncodeFront(b[3..], "aW46", "cGFz" + ("c3dv" + "cmQ="));
    EncodeFront(b, "YWRt", "aW46" + ("cGFz" + ("c3dv" + "cmQ=")));
  }

  /** The credential is the scheme and the encoding of whatever bytes `user:password` becomes. */
  lemma {:induction false} CredentialOf(user: string, password: string, bytes: seq<Base64.Byte>, encoded: string)
    requires Latin1(user + ":" + password) == Some(bytes) && Base64.Encode(bytes) == encoded
    ensures BasicCredential(user, password) == Some(BasicScheme + encoded)
  {
  }

  lemma AdminLiteral()
    ensures BasicScheme + ("YWRt" + ("aW46" + ("cGFz" + ("c3dv" + "cmQ=")))) == "Basic YWRtaW46cGFzc3dvcmQ="
  {
  }

  /** The credential the login test expects for `admin` and `password`. */
  lemma AdminCredential()
    ensures BasicCredential("admin", "password") == Some("Basic YWRtaW46cGFzc3dvcmQ=")
  {
    AdminText();
    AdminEncoding();
    CredentialOf("admin", "password", AdminBytes, "YWRt" + ("aW46" + ("cGFz" + ("c3dv" + "cmQ="))));
    AdminLiteral();
  }

  /**
   * The credential carries the pair: reading it back gives the user and the
   * password, as long as the user holds no `:` (which RFC 7617 forbids).
   */
  lemma BasicCredentialRoundTrip(user: string, password: string)
    requires ':' !in user
    requires forall i :: 0 <= i < |user + ":" + password| ==> (user + ":" + password)[i] as int < 256
    ensures BasicCredential(user, password).Some?
    ensures StartsWith(BasicCredential(user, password).value, BasicScheme)
    ensures ParseBasic(BasicCredential(user, password).value) == Some((user, password))
  {
    var pair := user + ":" + password;
    var bytes := Latin1(pair).value;
    var header := BasicScheme + Base64.Encode(bytes);
    assert header[..|BasicScheme|] == BasicScheme;
    assert header[|BasicScheme|..] == Base64.Encode(bytes);
    Base64.DecodeEncode(bytes);
    assert FromLatin1(bytes) == pair;
    assert pair[|user|] == ':';
    assert forall i :: 0 <= i < |user| ==> pair[i] == user[i];
    assert IndexOf(pair, ':') == |user|;
    assert pair[..|user|] == user && pair[|user| + 1..] == password;
  }

  // ---- the session --------------------------------------------------------

  /** The browser's key-value storage. */
  type Storage = map<string, string>

  /** `getItem`: None for a missing key. */
  function GetItem(st: Storage, key: string): Option<string> {
    if key in st then Some(st[key]) else None
  }

  /** `isLogged`: a credential is stored and it is not empty. */
  function IsLogged(st: Storage, key: string): (b: bool)
    ensures b <==> GetItem(st, key).Some? && GetItem(st, key).value != ""
  {
    key in st && st[key] != ""
  }

  /** The authentication probe `login` sends. */
  datatype Probe = Probe(path: string, authorization: string)

  /** What `login` sent, what the storage holds afterwards, and whether it resolved. */
  datatype LoginOutcome = LoginOutcome(probe: Option<Probe>, storage: Storage, succeeded: bool)

  /**
   * `login(user, password)` with the credential stored under `key`:
   * `accepted(credential)` stands for the server's answer to the probe.
   */
  function Login(st: Storage, key: string, user: string, password: string,
                 accepted: string -> bool): (l: LoginOutcome)
    ensures l.probe.Some? <==> BasicCredential(user, password).Some?
    ensures l.probe.Some? ==> l.probe.value == Probe(AuthPath, BasicCredential(user, password).value)
    ensures l.succeeded <==> l.probe.Some? && accepted(l.probe.value.authorization)
    // the credential is stored exactly when the probe succeeded, and nothing else changes
    ensures l.succeeded ==> l.storage == st[key := l.probe.value.authorization]
    ensures !l.succeeded ==> l.storage == st
  {
    match BasicCredential(user, password)
    case None => LoginOutcome(None, st, false)
    case Some(credential) =>
      if accepted(credential) then LoginOutcome(Some(Probe(AuthPath, credential)), st[key := credential], true)
      else LoginOutcome(Some(Probe(AuthPath, credential)), st, false)
  }

  /** `logout`: the credential is gone whatever the network says; nothing else changes. */
  function Logout(st: Storage, key: string): (st': Storage)
    ensures key !in st'
    ensures forall k :: k != key ==> GetItem(st', k) == GetItem(st, k)
  {
    st - {key}
  }

  /** A successful login logs in, with the probe's credential; a logout logs out. */
  lemma LoginLogoutSession(st: Storage, key: string, user: string, password: string, accepted: string -> bool)
    ensures Login(st, key, user, password, accepted).succeeded ==>
              && IsLogged(Login(st, key, user, password, accepted).storage, key)
              && GetItem(Login(st, key, user, password, accepted).storage, key)
                 == Some(Login(st, key, user, password, accepted).probe.value.authorization)
    ensures !IsLogged(Logout(st, key), key)
  {
    var l := Login(st, key, user, password, accepted);
    if l.succeeded {
      assert StartsWith(l.probe.value.authorization, BasicScheme);
    }
  }

  // ---- requests -----------------------------------------------------------

  /** The container methods of the service. */
  datatype ContainerAction = Infos | Create(content: string) | Start | Stop | Restart | Delete

  /** A request as the client sends it; the path is relative to the API base URL. */
  datatype ClientRequest = ClientRequest(verb: Http.Method, path: string, authorization: Option<string>, body: Option<string>)

  /** The path suffix an action adds after `containers/{id}/`. */
  function ActionSuffix(action: ContainerAction): string {
    match action
    case Start => "start"
    case Stop => "stop"
    case Restart => "restart"
    case _ => ""
  }

  /** The verb of an action's request. */
  function ActionVerb(action: ContainerAction): Http.Method {
    match action
    case Infos => Http.Get
    case Delete => Http.Delete
    case _ => Http.Post
  }

  /** The request an action sends, with the credential stored at call time. */
  function ActionRequest(st: Storage, key: string, action: ContainerAction, id: string): (r: ClientRequest)
    ensures r.authorization == GetItem(st, key)
    ensures r.path == "containers/" + id + "/" + ActionSuffix(action)
    ensures r.body.Some? <==> action.Create?
    ensures action.Create? ==> r.body == Some(action.content)
  {
    ClientRequest(ActionVerb(action), "containers/" + id + "/" + ActionSuffix(action), GetItem(st, key),
                  if action.Create? then Some(action.content) else None)
  }

  /** The action table of the tests: verb and path ending for every action. */
  lemma ActionTable(st: Storage, key: string, id: string, content: string)
    ensures ActionRequest(st, key, Infos, id).verb == Http.Get
    ensures EndsWith(ActionRequest(st, key, Infos, id).path, "containers/" + id + "/")
    ensures ActionRequest(st, key, Create(content), id).verb == Http.Post
    ensures ActionRequest(st, key, Create(content), id).body == Some(content)
    ensures EndsWith(ActionRequest(st, key, Create(content), id).path, "containers/" + id + "/")
    ensures forall a :: a in {Start, Stop, Restart} ==>
              ActionRequest(st, key, a, id).verb == Http.Post
              && EndsWith(ActionRequest(st, key, a, id).path, "containers/" + id + "/" + ActionSuffix(a))
    ensures ActionSuffix(Start) == "start" && ActionSuffix(Stop) == "stop" && ActionSuffix(Restart) == "restart"
    ensures ActionRequest(st, key, Delete, id).verb == Http.Delete
    ensures EndsWith(ActionRequest(st, key, Delete, id).path, "containers/" + id + "/")
  {
    var base := "containers/" + id + "/";
    assert base + "" == base;
    assert (base + "")[|base + ""| - |base|..] == base;
  }

  /** `containers()`: the listing request. */
  function ContainersRequest(st: Storage, key: string): (r: ClientRequest)
    ensures r.verb == Http.Get && r.authorization == GetItem(st, key)
  {
    ClientRequest(Http.Get, "containers", GetItem(st, key), None)
  }

  /** What `containers()` resolves to: the `results` of an envelope, any other body as is. */
  function UnwrapResults(body: Json.Value): (v: Json.Value)
    ensures body.Object? && "results" in body.fields ==> v == body.fields["results"]
    ensures !(body.Object? && "results" in body.fields) ==> v == body
  {
    if body.Object? && "results" in body.fields then body.fields["results"] else body
  }

  // ---- the 401 redirect ---------------------------------------------------

  /**
   * `authRedirect`: the navigations a response causes. They depend on the
   * status alone; the body is never consulted, so an unreadable one changes nothing.
   */
  function AuthRedirect(status: int): (pushes: seq<string>)
    ensures status == StatusUnauthorized ==> pushes == [LoginPath]
    ensures status != StatusUnauthorized ==> pushes == []
  {
    if status == StatusUnauthorized then [LoginPath] else []
  }

  /** The navigations a sequence of responses causes. */
  function Redirects(statuses: seq<int>): seq<string> {
    if statuses == [] then []
    else AuthRedirect(statuses[0]) + Redirects(statuses[1..])
  }

  function CountUnauthorized(statuses: seq<int>): nat {
    if statuses == [] then 0
    else (if statuses[0] == StatusUnauthorized then 1 else 0) + CountUnauthorized(statuses[1..])
  }

  /** Exactly one navigation, always to the login view, per 401 response; none for any other status. */
  lemma {:induction false} OneLoginPerUnauthorized(statuses: seq<int>)
    ensures |Redirects(statuses)| == CountUnauthorized(statuses)
    ensures forall i :: 0 <= i < |Redirects(statuses)| ==> Redirects(statuses)[i] == LoginPath
  {
    if statuses != [] {
      OneLoginPerUnauthorized(statuses[1..]);
    }
  }

  // ---- sockets ------------------------------------------------------------

  /** The two streams the service opens. */
  datatype Stream = Logs(id: string) | Events

  /** A socket: the stream it reads, what it sent, what it handed to the callback. */
  datatype Socket = Socket(stream: Stream, sent: seq<string>, delivered: seq<string>)

  datatype SocketEvent = Opened | Received(data: string)

  /** What `WebSocket.send` transmits for a stored credential, `null` when there is none. */
  function Token(st: Storage, key: string): string {
    GetItem(st, key).GetOr("null")
  }

  /** `onopen` sends the credential stored now; `onmessage` passes the `data` on. */
  function OnEvent(s: Socket, e: SocketEvent, st: Storage, key: string): Socket {
    match e
    case Opened => s.(sent := s.sent + [Token(st, key)])
    case Received(d) => s.(delivered := s.delivered + [d])
  }

  function RunSocket(s: Socket, events: seq<SocketEvent>, st: Storage, key: string): Socket
    decreases |events|
  {
    if events == [] then s
    else RunSocket(OnEvent(s, events[0], st, key), events[1..], st, key)
  }

  /** The payloads of the messages received, in order. */
  function Payloads(events: seq<SocketEvent>): seq<string> {
    if events == [] then []
    else (if events[0].Received? then [events[0].data] else []) + Payloads(events[1..])
  }

  function CountOpened(events: seq<SocketEvent>): nat {
    if events == [] then 0
    else (if events[0].Opened? then 1 else 0) + CountOpened(events[1..])
  }

  /**
   * A socket sends the stored credential once per opening and nothing else, and
   * hands every message's payload to the callback exactly once, in order.
   */
  lemma {:induction false} SocketHandshake(s: Socket, events: seq<SocketEvent>, st: Storage, key: string)
    ensures RunSocket(s, events, st, key).stream == s.stream
    ensures RunSocket(s, events, st, key).delivered == s.delivered + Payloads(events)
    ensures |RunSocket(s, events, st, key).sent| == |s.sent| + CountOpened(events)
    ensures RunSocket(s, events, st, key).sent[..|s.sent|] == s.sent
    ensures forall i :: |s.sent| <= i < |RunSocket(s, events, st, key).sent| ==>
              RunSocket(s, events, st, key).sent[i] == Token(st, key)
    decreases |events|
  {
    if events != [] {
      var s' := OnEvent(s, events[0], st, key);
      SocketHandshake(s', events[1..], st, key);
      var r := RunSocket(s', events[1..], st, key);
      assert r.sent[..|s.sent|] == r.sent[..|s'.sent|][..|s.sent|];
      if events[0].Received? {
        assert s.delivered + [events[0].data] + Payloads(events[1..]) == s.delivered + Payloads(events);
      } else {
        assert s.delivered + [] + Payloads(events[1..]) == s.delivered + Payloads(events);
        assert r.sent[|s.sent|] == r.sent[..|s'.sent|][|s.sent|];
      }
    }
  }
}
