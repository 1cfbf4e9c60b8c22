/**
 * docker/websocket.go: the websocket path match, the Origin check and the
 * forwarding of log lines with Docker's 8-byte frame header cut off.
 */
module Websocket {
  import opened Wrappers
  import opened Text

  type Byte = b: int | 0 <= b < 256

  /** Length of the stream frame header Docker puts before every log line. */
  const HeaderLength := 8

  const LogsStart := "/containers/"
  const LogsEnd := "/logs"
  const AllowedHostSuffix := "vibioh.fr"

  /** `/containers/([^/]+)/logs` matches at offset `i` of `p`, capturing `id`. */
  ghost predicate LogsPathAt(p: string, i: nat, id: string) {
    && i <= |p|
    && id != [] && SlashFree(id)
    && StartsWith(p[i..], LogsStart + id + LogsEnd)
  }

  /** The match attempt anchored at offset `i`: a greedy `[^/]+` must be followed by `/logs`. */
  function LogsMatchAt(p: string, i: nat): Option<string>
    requires i <= |p|
  {
    var s := p[i..];
    if !StartsWith(s, LogsStart) then None
    else
      var rest := s[|LogsStart|..];
      var n := SlashRun(rest);
      if n > 0 && StartsWith(rest[n..], LogsEnd) then Some(rest[..n]) else None
  }

  /** What the anchored attempt captures is an occurrence of the pattern. */
  lemma LogsMatchAtSound(p: string, i: nat)
    requires i <= |p|
    ensures LogsMatchAt(p, i).Some? ==> LogsPathAt(p, i, LogsMatchAt(p, i).value)
  {
    if LogsMatchAt(p, i).Some? {
      var s := p[i..];
      var rest := s[|LogsStart|..];
      var n := SlashRun(rest);
      var id := rest[..n];
      assert s == LogsStart + rest;
      assert rest == id + rest[n..];
      assert s[..|LogsStart + id + LogsEnd|] == LogsStart + id + LogsEnd;
    }
  }

  /** Every occurrence of the pattern at offset `i` is found there, with its own id. */
  lemma LogsMatchAtComplete(p: string, i: nat, id: string)
    requires LogsPathAt(p, i, id)
    ensures LogsMatchAt(p, i) == Some(id)
  {
    CaptureBetween(p[i..], LogsStart, id, LogsEnd);
  }

  /**
   * When `s` starts with `pre + id + post`, a slash-free `id` and a `post` that
   * opens with `/`, a greedy `[^/]+` after `pre` captures exactly `id`.
   */
  lemma CaptureBetween(s: string, pre: string, id: string, post: string)
    requires SlashFree(id) && post != [] && post[0] == '/'
    requires StartsWith(s, pre + id + post)
    ensures StartsWith(s, pre)
    ensures var rest := s[|pre|..];
            && SlashRun(rest) == |id|
            && rest[..|id|] == id
            && StartsWith(rest[|id|..], post)
  {
    var w := pre + id + post;
    var rest := s[|pre|..];
    assert s[..|pre|] == w[..|pre|] == pre;
    assert rest[..|id| + |post|] == id + post by {
      forall k | 0 <= k < |id| + |post| ensures rest[k] == (id + post)[k] {
        assert rest[k] == s[|pre| + k] == w[|pre| + k];
      }
    }
    assert rest == (id + post) + rest[|id| + |post|..];
    assert rest == id + (post + rest[|id| + |post|..]);
    SlashRunOfSplit(id, post + rest[|id| + |post|..]);
  }

  /** Go's leftmost match: the first offset at or after `from` where the pattern matches. */
  function FirstLogsMatch(p: string, from: nat): (r: Option<(nat, string)>)
    requires from <= |p|
    ensures r.Some? ==> from <= r.value.0 && LogsPathAt(p, r.value.0, r.value.1)
    ensures r.Some? ==> forall j, id :: from <= j < r.value.0 ==> !LogsPathAt(p, j, id)
    ensures r.None? ==> forall j, id :: from <= j ==> !LogsPathAt(p, j, id)
    decreases |p| - from
  {
    LogsMatchAtSound(p, from);
    forall id | LogsPathAt(p, from, id) {
      LogsMatchAtComplete(p, from, id);
    }
    match LogsMatchAt(p, from)
    case Some(id) => Some((from, id))
    case None =>
      if from == |p| then None else FirstLogsMatch(p, from + 1)
  }

  /** What `handleWebsocket` does with a request path. */
  datatype Dispatch = StreamLogs(id: string) | Ignore

  /** `handleWebsocket`: stream the logs of the leftmost captured id, or do nothing. */
  function HandleWebsocket(path: string): (d: Dispatch)
    ensures d.StreamLogs? ==> d.id != [] && SlashFree(d.id)
    ensures d.StreamLogs? <==> exists i: nat, id :: LogsPathAt(path, i, id)
    ensures d.StreamLogs? ==>
              exists i: nat :: LogsPathAt(path, i, d.id) && forall j: nat, id' :: j < i ==> !LogsPathAt(path, j, id')
  {
    match FirstLogsMatch(path, 0)
    case Some((i, id)) => StreamLogs(id)
    case None => Ignore
  }

  /** A path that begins with a logs path streams exactly that container. */
  lemma {:induction false} LogsPathStreams(id: string, suffix: string)
    requires id != [] && SlashFree(id)
    ensures HandleWebsocket(LogsStart + id + LogsEnd + suffix) == StreamLogs(id)
  {
    var p := LogsStart + id + LogsEnd + suffix;
    assert p[0..] == p;
    assert p[..|LogsStart + id + LogsEnd|] == LogsStart + id + LogsEnd;
    LogsMatchAtComplete(p, 0, id);
  }

  /** `CheckOrigin`: `vibioh\.fr$` is anchored at the end only. */
  predicate OriginAllowed(host: string) {
    EndsWith(host, AllowedHostSuffix)
  }

  /** Any host ending in the allowed suffix passes, whatever comes before it. */
  lemma OriginCheckIsSuffixOnly(host: string)
    ensures OriginAllowed(host) <==> exists prefix :: host == prefix + AllowedHostSuffix
  {
    if OriginAllowed(host) {
      assert host == host[..|host| - |AllowedHostSuffix|] + AllowedHostSuffix;
    }
    forall prefix | host == prefix + AllowedHostSuffix ensures OriginAllowed(host) {
      assert host[|host| - |AllowedHostSuffix|..] == AllowedHostSuffix;
    }
  }

  /** Why a forwarding loop ended. */
  datatype Stop =
    | EndOfLogs       // the scanner ran dry
    | WriteFailed     // `ws.WriteMessage` returned an error
    | LineTooShort    // `scanner.Bytes()[8:]` is out of range: the handler panics

  /**
   * The scanner loop of `logsContainerWebsocketHandler`. `writeFails(k)` tells
   * whether the k-th write attempt fails. Returns the messages written and why
   * the loop ended.
   */
  method ForwardLogs(lines: seq<seq<Byte>>, writeFails: nat -> bool) returns (sent: seq<seq<Byte>>, stop: Stop)
    ensures |sent| <= |lines|
    ensures forall k :: 0 <= k < |sent| ==> |lines[k]| >= HeaderLength && sent[k] == lines[k][HeaderLength..]
    ensures forall k :: 0 <= k < |sent| ==> !writeFails(k)
    ensures stop == EndOfLogs <==> |sent| == |lines|
    ensures stop == WriteFailed ==> |lines[|sent|]| >= HeaderLength && writeFails(|sent|)
    ensures stop == LineTooShort ==> |lines[|sent|]| < HeaderLength
  {
    sent := [];
    var k := 0;
    while k < |lines|
      invariant k == |sent| <= |lines|
      invariant forall j :: 0 <= j < k ==> |lines[j]| >= HeaderLength && sent[j] == lines[j][HeaderLength..]
      invariant forall j :: 0 <= j < k ==> !writeFails(j)
    {
      var line := lines[k];
      if |line| < HeaderLength {
        return sent, LineTooShort;
      }
      if writeFails(k) {
        return sent, WriteFailed;
      }
      sent := sent + [line[HeaderLength..]];
      k := k + 1;
    }
    return sent, EndOfLogs;
  }
}
