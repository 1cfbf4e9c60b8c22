# Dashboard: a Dafny model of the request routing and container API

The dashboard is a Go server and a browser client for managing Docker
containers. This project models the server's request dispatch, its REST
router and handlers, its log websocket and its label filters. On the client
side it models the error reducer, the DockerService client, the container
action saga and the full-text search pattern. It also proves properties that
span both sides:

- every request the client sends reaches the server handler meant for it;
- the `results` envelope the server wraps the container list in is the one
  the client unwraps.

Models, one module per component:

- `Dashboard` (dashboard.dfy): the prefix dispatch between `/ws/` and `/`, with prefix stripping.
- `Api` (api.dfy): the REST router.
  - health, authentication, info, containers and services;
  - the container routes;
  - `CanBeGracefullyClosed`.
- `Websocket` (websocket.dfy): the log websocket.
  - the logs path pattern;
  - the origin check;
  - the log forwarding, which strips the 8-byte frame header.
- `Filters` (filters.dfy): `labelFilters` and `eventFilters`.
- `Container` (container.dfy): the container handlers.
  - `basicActionHandler`;
  - the container listing and its `results` envelope;
  - `rmContainer`.
- `Compose` (compose.dfy): the compose derivation that docker/compose_test.go
  pins.
  - service naming;
  - `getConfig`, `getHostConfig` and `getNetworkConfig`;
  - the default tag of `pullImage`.
- `ErrorReducer` (error_reducer.dfy): the error reducer of the client.
- `DockerService` (docker_service.dfy) and `Base64` (base64.dfy): the client
  service.
  - the Basic credential;
  - the login session;
  - the request table;
  - the 401 redirect;
  - the websocket handshake.
- `ActionSaga` (action_saga.dfy): the container action saga.
- `FullTextRegex` (full_text.dfy): the full-text search pattern.
- `Contract` (contract.dfy): the client and the server together.

Helper modules:

- `Wrappers`: `Option` and `Result`.
- `Text`: prefix and suffix tests, slash runs, joining, decimal digits.
- `Http`, `Auth`, `Json`: verbs, users and JSON values.

Go regular expressions become hand-written matchers. Each matcher is proved
equal, in both directions, to a declarative description of the paths it
accepts.

These become function parameters:

- calls into the Docker client;
- the authentication service;
- duration parsing;
- the image pull;
- websocket writes.

## Model

| member | source | states |
|---|---|---|
| `Dashboard.Route` | dashboard.go:22-38 | `/ws/` paths go to the websocket handler, other `/` paths go to the REST handler, anything else is 404; the handler gets the path with its prefix removed. |
| `Dashboard.Serve` | dashboard.go:25-38 | End to end, a request is 404 exactly when its path lacks the leading `/`, and goes to the websocket side exactly when it starts with `/ws/`. |
| `Dashboard.WebsocketPathsAreRestPaths` | dashboard.go:31-34 | Every `/ws/` path also has the REST prefix, so the websocket test has to come first. |
| `Dashboard.StrippedLogsPathIsIgnored` | dashboard.go:23-32 | `/ws/containers/{id}/logs` reaches the websocket handler as `containers/{id}/logs`. The model takes that handler to be `handleWebsocket` of docker/websocket.go. Under that assumption, its logs pattern (which needs a leading `/`) never matches, so no log stream is opened. |
| `Api.MatchContainer` | docker/api.go:25 | `^containers/([^/]+)/?$` matches exactly the paths `containers/{id}` and `containers/{id}/` with a non-empty slash-free id, and captures that id. |
| `Api.MatchActionSound` | docker/api.go:26 | What `^containers/([^/]+)/([^/]+)` captures is a non-empty slash-free id and action that the path starts with, followed by the end of the path or a `/`. |
| `Api.MatchActionComplete` | docker/api.go:26 | Every path of that shape is matched, and the captures are the id and the action. |
| `Api.HealthStatus` | docker/api.go:45-51 | Health is 200 exactly when the Docker client exists, 503 otherwise. |
| `Api.ServeHttp` | docker/api.go:90-116 | OPTIONS gets an empty reply; GET `health` is served without credentials; any other request with failed authentication is refused with the authentication error; only an authenticated request reaches a handler; info is answered exactly for an authenticated GET whose path ends in `info` or `info/`. |
| `Api.ActionAndContainerPathsDisjoint` | docker/api.go:25-26 | No path matches both the single-container pattern and the action pattern. |
| `Api.CapturedIdsAreSlashFree` | docker/api.go:25-26 | Captured ids and action names never contain `/`. |
| `Api.ListRoute` | docker/api.go:62-63 | GET `containers` or `containers/` lists the containers. |
| `Api.InspectRoute` | docker/api.go:64-65 | GET `containers/{id}` (optional trailing slash) inspects `id`. |
| `Api.ActionRoute` | docker/api.go:66-68 | POST `containers/{id}/{action}…` runs `action` on `id` for the user. |
| `Api.DeleteRoute` | docker/api.go:69-70 | DELETE `containers/{id}` deletes `id` for the user. |
| `Api.ComposeRoute` | docker/api.go:71-76 | POST `containers/{id}` composes `id` from the body, or reports the body read error. |
| `Api.UnmatchedContainersRequest` | docker/api.go:61-78 | A containers request that fits no route gets no handler. |
| `Api.ServicesRoute` | docker/api.go:80-84 | An authenticated request under `services` that info does not take lists the services for the user exactly when it is a GET of `services` or `services/`; any other such request gets no handler. |
| `Api.ServiceListRoute` | docker/api.go:28-29 | An authenticated GET of `services` or `services/` reaches the services listing, because neither path ends in `info`. |
| `Api.AuthenticatedFallThrough` | docker/api.go:109-115 | An authenticated request that is not info and falls under neither `containers` nor `services` gets no handler. |
| `Api.CanBeGracefullyClosed` | docker/api.go:32-43 | The server may stop exactly when no background task is still running. |
| `Websocket.LogsMatchAtSound` | docker/websocket.go:13 | A match of `/containers/([^/]+)/logs` at a position is a real occurrence of that shape there. |
| `Websocket.LogsMatchAtComplete` | docker/websocket.go:13 | Every occurrence of that shape at a position is matched, with its id. |
| `Websocket.FirstLogsMatch` | docker/websocket.go:13 | The search returns the leftmost occurrence, and none exists when it returns nothing. |
| `Websocket.HandleWebsocket` | docker/websocket.go:50-56 | The logs handler is invoked exactly when the path contains `/containers/{id}/logs` somewhere. It is invoked with the id of the leftmost such occurrence, which is non-empty and slash-free. |
| `Websocket.LogsPathStreams` | docker/websocket.go:50-56 | A path starting `/containers/{id}/logs` streams the logs of `id`, whatever follows. |
| `Websocket.OriginCheckIsSuffixOnly` | docker/websocket.go:14-21 | A websocket upgrade is allowed exactly when the host ends in `vibioh.fr`; any prefix is accepted. |
| `Websocket.ForwardLogs` | docker/websocket.go:41-47 | Each log line is sent without its first 8 bytes, in order. Forwarding stops at the end of the logs, at the first failed write, or at a line shorter than 8 bytes, where the slice would panic. |
| `Filters.ParseFlag` | docker/docker.go:36 | An empty argument is ignored; an argument without `=` is a format error; otherwise the argument is added. |
| `Filters.AddFlagsStopsAtFirstFailure` | docker/docker.go:48-78 | Adding several filters succeeds exactly when each is well formed, and then appends them all in order; otherwise the error carries the parse-error prefix. |
| `Filters.EventFiltersAddsNineEvents` | docker/docker.go:48-78 | The event filters always succeed, adding the nine `event=` filters in order. |
| `Filters.LabelFiltersScope` | docker/docker.go:34-46 | A multi-app user with a non-empty app name gets exactly `label=app={app}` appended. Otherwise a non-admin gets exactly `label=owner={username}`, and an admin gets the filters back unchanged. |
| `Container.BasicAction` | docker/container.go:76-91 | A forbidden user is refused before anything runs; a permission error is reported; otherwise the action runs exactly once on the id, and an empty reply means it succeeded. |
| `Container.ListContainers` | docker/container.go:20-30 | A filter error is returned before anything is listed; otherwise all containers are listed through the user's label filters. |
| `Container.ResultsEnvelope` | docker/container.go:16-18 | The list is wrapped in an object whose only key is `results`. |
| `Container.ListContainersHandler` | docker/container.go:93-99 | The handler replies with the envelope exactly when the listing succeeds. |
| `Container.ListHandlerQuery` | docker/container.go:20-30 | The list handler always asks for all containers, and filters them exactly when the user is not an admin. |
| `Container.RmContainer` | docker/container.go:48-66 | Removal inspects, then removes the container, then removes the image found by the inspection. It stops at the first failure and prefixes the inspect and remove errors. It succeeds exactly when all three steps succeed. |
| `Compose.FinalName` | docker/compose_test.go:353-373 | The `_deploy` suffix is removed when present; a name without it is unchanged. |
| `Compose.FinalNameOfFullName` | docker/compose_test.go:333-373 | The final name of a deployed service name is `{app}_{service}`. |
| `Compose.EnvEntryRoundTrip` | docker/compose_test.go:57-85 | An environment entry `key=value` splits back into its key and value. |
| `Compose.Environment` | docker/compose_test.go:57-85 | One entry per variable, in the order given: the key, then `=`, then the value. Each entry splits back into its pair when the key holds no `=`. |
| `Compose.Labels` | docker/compose_test.go:47-85 | The service's labels are kept; `owner` and `app` are set to the user and the app. |
| `Compose.GetConfig` | docker/compose_test.go:16-109 | The interval is parsed before the timeout, and the first failure is reported with its prefix. The config exists exactly when both parse, and carries the image, command, labels, environment and healthcheck. |
| `Compose.GetHostConfig` | docker/compose_test.go:111-178 | The host config uses the pinned log driver, restart policy and security option, plus the service's read-only flag, 128 CPU shares by default, and the clamped memory. |
| `Compose.MemoryClamp` | docker/compose_test.go:116-170 | Unset memory gets the minimum, memory in range is kept, and memory above the maximum is capped. |
| `Compose.RewriteLinkCases` | docker/compose_test.go:186-233 | A link's alias defaults to its target, a deployed target becomes the deployed final name, and an explicit alias is kept. |
| `Compose.GetNetworkConfig` | docker/compose_test.go:180-241 | A single endpoint named by the network mode carries one rewritten link per compose link. |
| `Compose.PullTargetDefaultsTag` | docker/compose_test.go:243-286 | An image without a tag is pulled as `latest`; `name:tag` is pulled as that name and tag. |
| `Compose.PullImage` | docker/compose_test.go:243-286 | A pull failure is reported with its prefix; the pull succeeds exactly when the client's pull does. |
| `ErrorReducer.EffectOf` | src/reducers/error.js:7-41 | `SET_ERROR` and `_FAILED` action types set the error. Only `_SUCCEEDED` types clear it. |
| `ErrorReducer.Reduce` | src/reducers/error.js:27-41 | A failure sets `String(action.error)`, where an error object reads as `ErrorObjectText` describes; a success clears it to the initial empty state; anything else keeps the state, and a missing state is the initial one. |
| `ErrorReducer.ErrorObjectText` | src/reducers/error.js:33 | `String` of an error object gives its name when the message is empty, and its message when the name is empty. Otherwise it gives the name, then `: `, then the message. |
| `ErrorReducer.EmptyMessageStoresName` | src/reducers/error.js:28-33 | `SET_ERROR` with `new Error('')` stores `Error`, with no trailing separator. |
| `ErrorReducer.SuffixesExclusive` | src/reducers/error.js:7-13 | No action type is both a failure and a success. |
| `ErrorReducer.SetErrorIsNotAFailureType` | src/reducers/error.js:28 | `SET_ERROR` sets the error through its own test, not through the suffix. |
| `ErrorReducer.SucceedWithoutEdKeepsError` | src/reducers/error.js:13 | A type ending in `_SUCCEED` (not `_SUCCEEDED`) leaves the error unchanged. |
| `ErrorReducer.LastEffective` | src/reducers/error.js:27-41 | Finds the last action of a sequence that changes the error, if any. |
| `ErrorReducer.RunIsDecidedByLastEffective` | src/reducers/error.js:27-41 | After a sequence of actions, the error is decided by the last action that sets or clears it, or is the starting state when there is none. |
| `ErrorReducer.RunSnoc` | src/reducers/error.js:27-41 | Reducing a sequence and then one more action equals reducing the extended sequence. |
| `Base64.Encode` | app/Service/DockerService.test.js:65-69 | The encoding of n bytes has 4·⌈n/3⌉ characters. |
| `Base64.DecodeEncode` | app/Service/DockerService.test.js:65-69 | Decoding an encoding gives the bytes back. |
| `DockerService.Latin1` | app/Service/DockerService.test.js:68 | A string has a byte form exactly when every character is below 256, and then it is those codes. |
| `DockerService.AdminCredential` | app/Service/DockerService.test.js:65-69 | The credential for `admin` and `password` is `Basic YWRtaW46cGFzc3dvcmQ=`, the value `btoa('admin:password')` gives. |
| `DockerService.BasicCredentialRoundTrip` | app/Service/DockerService.test.js:65-69 | The credential sent on login is `Basic ` plus the encoding, and it decodes back to the user and password (user without `:`). |
| `DockerService.IsLogged` | app/Service/DockerService.test.js:51-63 | The user is logged in exactly when a non-empty token is stored. |
| `DockerService.Login` | app/Service/DockerService.test.js:65-78 | Login probes `auth` with the Basic credential, and stores it under the storage key exactly when it is accepted. |
| `DockerService.Logout` | app/Service/DockerService.test.js:80-87 | Logout drops the stored token and nothing else. |
| `DockerService.LoginLogoutSession` | app/Service/DockerService.test.js:51-87 | After a successful login the user is logged in with the credential; after logout they are not. |
| `DockerService.ActionRequest` | app/Service/DockerService.test.js:145-180 | Every action request carries the stored credential and the path `containers/{id}/{suffix}`. Only create carries a body, the compose file. |
| `DockerService.ActionTable` | app/Service/DockerService.test.js:156-170 | The test table: infos is GET, create is POST with the content, start/stop/restart are POST to their own path, delete is DELETE. |
| `DockerService.ContainersRequest` | app/Service/DockerService.test.js:89-96 | Listing is a GET sent with the stored credential. |
| `DockerService.UnwrapResults` | app/Service/DockerService.test.js:98-106 | The listing resolves to the `results` field of an envelope, and to any other body unchanged. |
| `DockerService.AuthRedirect` | app/Service/DockerService.test.js:115-143 | A 401 navigates to `/login` and any other status navigates nowhere; the status alone decides, so an unreadable body makes no difference. |
| `DockerService.OneLoginPerUnauthorized` | app/Service/DockerService.test.js:115-143 | Over many responses, there is one `/login` navigation per 401 and no other navigation. |
| `DockerService.SocketHandshake` | app/Service/DockerService.test.js:182-246 | A log or event socket keeps its stream, and sends the stored token once each time it opens. Every message is delivered to the callback, in order. |
| `ActionSaga.Effects` | app/Container/sagas/actionContainer.test.jsx:11-76 | The saga calls the named service method with the id, then reports success. It then refreshes the container, or after a delete refreshes the list and goes home. On a failed call it reports the error content instead. |
| `ActionSaga.GeneratorYieldsEffects` | app/Container/sagas/actionContainer.test.jsx:11-76 | Resuming the generator as the tests do yields exactly that effect list, for both success and failure. |
| `FullTextRegex.Words` | app/Search/buildFullTextRegex.test.js:4-10 | The value is split into non-empty words without whitespace. |
| `FullTextRegex.BuildFullTextRegex` | app/Search/buildFullTextRegex.test.js:4-10 | The pattern has the flags `gimy` and starts with the wildcard. |
| `FullTextRegex.NoWordsIffBlank` | app/Search/buildFullTextRegex.test.js:4-6 | A value has no words exactly when it is all whitespace. |
| `FullTextRegex.WordsOfJoin` | app/Search/buildFullTextRegex.test.js:8-10 | Splitting words joined by spaces gives the words back. |
| `FullTextRegex.BlankValueIsWildcard` | app/Search/buildFullTextRegex.test.js:4-6 | A blank value gives the bare wildcard `[\s\S]*`. |
| `FullTextRegex.CaptureGroupCount` | app/Search/buildFullTextRegex.test.js:8-10 | n words make exactly n capturing groups, so every back-reference in a lookahead names an earlier group. |
| `FullTextRegex.ThreeWords` | app/Search/buildFullTextRegex.test.js:8-10 | `unit test dashboard` gives the documented pattern, piece by piece. |
| `Contract.ToServer` | app/Service/DockerService.test.js:17-43 | The server receives the client's verb and body, the stored credential (empty when there is none), and the path under the root base URL. |
| `Contract.ActionReachesIntendedHandler` | docker/api.go:90-116 | Every client action with an accepted credential reaches its handler with the same id: inspect, compose (with the body), start/stop/restart, or delete. Inspect additionally needs an id not ending in `info`. |
| `Contract.ListingReachesListHandler` | docker/api.go:109-112 | The client's listing request reaches the listing handler. |
| `Contract.InfoShadowsInspect` | docker/api.go:21 | Because `info/?$` is tried first and anchored only at the end, inspecting an id ending in `info` is answered by the info handler. |
| `Contract.EnvelopeRoundTrip` | docker/container.go:16-18 | The client unwraps exactly the list the server enveloped. |
| `Contract.ListingRoundTrip` | docker/container.go:93-99 | A successful listing reaches the client as the listed containers. |

## Left out

- Server start-up and shutdown are left out: flag parsing, `init`, `main`, the SIGTERM handler and its timers. They are process control and clocks. `CanBeGracefullyClosed` itself is modelled.
- The Docker client calls, the authentication service and the HTTP response writing are function parameters or outcome values. Their own behaviour is outside this core.
- Api.ServeHttp: info and listing replies are outcome tags; the JSON bodies Docker returns are not modelled.
- Websocket.ForwardLogs: concurrency and the scanner's buffering are not modelled. A line shorter than 8 bytes is the `LineTooShort` outcome, where the Go slice would panic.
- Websocket.OriginCheckIsSuffixOnly: docker/docker.go:31 replaces the origin pattern with the `ws` flag (default `^dashboard`) at start-up. The model follows the `vibioh\.fr$` pattern of docker/websocket.go:14.
- `Container.ListContainers` calls `labelFilter`, which is not part of this model. It is modelled as `labelFilters` of docker/docker.go with an empty filter set.
- The implementation file of the compose derivation is not part of this model. Where docker/compose_test.go leaves a choice open, the model picks one:
  - a memory request between zero and the minimum is kept as given;
  - a `target:alias` link is split at its first `:`, and a deployed target is renamed as in the unaliased case;
  - `networkMode`, `minMemory` and `maxMemory` are parameters, because their values are not part of this model.
- Compose.GetConfig: Go duration parsing is a parameter.
- Filters.ParseFlag: Docker's `filters.ParseFlag` lowercases and trims the name, trims the value, and stores the pair in a map of value sets. The model appends the argument verbatim to a sequence. The names the dashboard passes (`label`, `event`) are already lower case with no surrounding space.
- Compose.Environment: it takes the environment as a sequence of pairs. Go's map iteration order is unspecified, so the order of entries is not modelled.
- `renameDeployedContainers` and the deploy/rollback flow of compose are left out. They are orchestration over the Docker client.
- The JavaScript `Rollbar` error report in the error reducer is left out. It is a side channel that does not affect the state.
- DockerService.Login: the value of the storage key `authStorage` is not part of this model, so it is a parameter. `btoa` is modelled as Latin-1 bytes plus the Base64 alphabet of section 4 of RFC 4648.
- Contract.ToServer: the API base URL and websocket URLs are deployment constants. The base URL is modelled as the server root `/`, and a missing credential as an empty header.
- Contract.ToServer: the browser's URL parsing is not modelled. The path reaches the server verbatim. In a real URL, `?` and `#` would start a query or fragment, `%` escapes would be decoded, and `.` and `..` segments would be normalised. `Contract.ActionReachesIntendedHandler` holds for ids that contain none of these, as Docker's container names and hex ids do not.
- Dashboard.StrippedLogsPathIsIgnored: dashboard.go:26 mounts `docker.WebsocketHandler{}`, a type docker/websocket.go does not define. The model assumes this handler is `handleWebsocket` of docker/websocket.go. The lemma, and `Dashboard.Serve`'s websocket branch, hold only under that assumption.
- ActionSaga.Effects: the failure path comes from a test that the suite disables. That test throws into a generator that has not started. The model throws at the service call, which is the only point where a failure can be observed.
- FullTextRegex.Words: only ASCII whitespace separates words. The escaping of regex metacharacters inside words is not pinned by the tests, so words are inserted verbatim. `CaptureGroupCount` assumes words contain neither `(` nor `?`.
- The UI components (React containers and presentational components) are left out. They only render.
