/** The decision path of the embedded web-chat file server: how a GET or HEAD
    request, named by its path relative to the server's base URL, is answered
    from a directory tree (200, 403 or 404 with `Content-Length` and body), the
    listener's lifecycle as seen through `baseURL()`, and the caller's loop
    that polls `baseURL()` until the server is ready. */
module WebChatServer {
  import opened Wrappers
  import opened PathSegments
  import Decimal

  type Byte = b: int | 0 <= b < 256

  /** Every regular file the process can see, keyed by its canonical absolute
      path (the segments below the filesystem's top directory). */
  type FileSystem = map<Path, seq<Byte>>

  datatype Method = Get | Head

  const StatusOk: nat := 200
  const StatusForbidden: nat := 403
  const StatusNotFound: nat := 404

  /** The file served for a request of the base URL itself. */
  const IndexFile: Segment := "index.html"

  /** What the server sends back: the status code, the `Content-Length`
      header's text, and the body bytes. */
  datatype Response = Response(status: nat, contentLength: string, body: seq<Byte>)

  /** The served directory, resolved once from the configured path. */
  function RootPath(root: string): (p: Path)
    ensures Canonical(p)
  {
    Resolve([], Split(root))
  }

  /** The base URL itself, with or without a trailing slash. */
  predicate IsIndexRequest(target: string) {
    target == "" || target == "/"
  }

  function RequestSegments(target: string): (segs: seq<Segment>)
    ensures forall i :: 0 <= i < |segs| ==> NoSlash(segs[i])
  {
    if IsIndexRequest(target) then [IndexFile] else Split(target)
  }

  /** The location a request names: its segments resolved from the root,
      with every `..` applied before anything is looked up. */
  function Located(root: string, target: string): (p: Path)
    ensures Canonical(p)
  {
    Resolve(RootPath(root), RequestSegments(target))
  }

  /** `p` lies strictly below the directory `dir`, segment by segment (so a
      sibling whose name merely starts with the root's name is not inside). */
  predicate Within(dir: Path, p: Path) {
    dir < p
  }

  function FileResponse(verb: Method, contents: seq<Byte>): Response {
    Response(StatusOk, Decimal.Render(|contents|), if verb == Get then contents else [])
  }

  /** Answers one request. A request whose resolved location climbs out of
      the root is refused with 403 before the filesystem is consulted; the root
      directory itself and absent files give 404; a file inside the root gives
      200 with its length, and its bytes for GET only. */
  function Serve(verb: Method, fs: FileSystem, root: string, target: string): (r: Response)
    ensures r.status == StatusOk || r.status == StatusForbidden || r.status == StatusNotFound
    ensures r.status == StatusForbidden <==> !(RootPath(root) <= Located(root, target))
    ensures r.status == StatusOk <==> Within(RootPath(root), Located(root, target)) && Located(root, target) in fs
    ensures r.status == StatusOk && verb == Get ==> r.body == fs[Located(root, target)]
    ensures verb == Head || r.status != StatusOk ==> r.body == []
    ensures Decimal.Parse(r.contentLength)
         == Some(if r.status == StatusOk then |fs[Located(root, target)]| else 0)
  {
    var dir := RootPath(root);
    var path := Located(root, target);
    Decimal.ParseRender(0);
    if !(dir <= path) then
      Response(StatusForbidden, Decimal.Render(0), [])
    else if path == dir || path !in fs then
      Response(StatusNotFound, Decimal.Render(0), [])
    else
      Decimal.ParseRender(|fs[path]|);
      FileResponse(verb, fs[path])
  }

  /** GET of the base URL answers with the bytes of `index.html` in the root. */
  lemma ServesIndexAtRoot(fs: FileSystem, root: string, target: string)
    requires IsIndexRequest(target)
    requires RootPath(root) + [IndexFile] in fs
    ensures Serve(Get, fs, root, target).status == StatusOk
    ensures Serve(Get, fs, root, target).body == fs[RootPath(root) + [IndexFile]]
  {
    ResolveCanonical(RootPath(root), [IndexFile]);
  }

  /** HEAD answers exactly as GET does, status and `Content-Length` included,
      except that it never carries a body. */
  lemma HeadMatchesGet(fs: FileSystem, root: string, target: string)
    ensures Serve(Head, fs, root, target) == Serve(Get, fs, root, target).(body := [])
  {
  }

  /** HEAD of a file in the root: 200, no body, and a `Content-Length` that
      reads back as the file's byte count. */
  lemma {:induction false} HeadOfFileInRoot(fs: FileSystem, root: string, name: Segment)
    requires NoSlash(name) && !IsDotSegment(name)
    requires RootPath(root) + [name] in fs
    ensures Serve(Head, fs, root, name).status == StatusOk
    ensures Serve(Head, fs, root, name).body == []
    ensures Decimal.Parse(Serve(Head, fs, root, name).contentLength)
         == Some(|fs[RootPath(root) + [name]]|)
  {
    assert Join([name]) == name;
    SplitJoin([name]);
    ResolveCanonical(RootPath(root), [name]);
  }

  /** A name that is not in the root gives 404, whatever the method. */
  lemma {:induction false} MissingFileIsNotFound(verb: Method, fs: FileSystem, root: string, name: Segment)
    requires NoSlash(name) && !IsDotSegment(name)
    requires RootPath(root) + [name] !in fs
    ensures Serve(verb, fs, root, name).status == StatusNotFound
    ensures Serve(verb, fs, root, name).body == []
  {
    assert Join([name]) == name;
    SplitJoin([name]);
    ResolveCanonical(RootPath(root), [name]);
  }

  /** `../<sibling>/<file>` climbs out of the root into a sibling directory
      and is refused with 403 on every filesystem, in particular on one where
      the sibling's file exists. */
  lemma {:induction false} TraversalIsForbidden(verb: Method, fs: FileSystem, root: string, sibling: Segment, file: Segment)
    requires |RootPath(root)| >= 1
    requires NoSlash(sibling) && !IsDotSegment(sibling)
    requires NoSlash(file) && !IsDotSegment(file)
    requires sibling != RootPath(root)[|RootPath(root)| - 1]
    ensures Serve(verb, fs, root, "../" + sibling + "/" + file).status == StatusForbidden
    ensures Serve(verb, fs, root, "../" + sibling + "/" + file).body == []
  {
    var dir := RootPath(root);
    var target := "../" + sibling + "/" + file;
    assert Join([sibling, file]) == sibling + "/" + file;
    assert Join(["..", sibling, file]) == ".." + "/" + (sibling + "/" + file);
    assert Join(["..", sibling, file]) == target;
    SplitJoin(["..", sibling, file]);
    var parent := dir[..|dir| - 1];
    assert Step(dir, "..") == parent;
    assert ["..", sibling, file][1..] == [sibling, file];
    ResolveCanonical(parent, [sibling, file]);
    assert Located(root, target) == parent + [sibling, file];
    assert (parent + [sibling, file])[|dir| - 1] == sibling;
  }

  /** The absolute path text of a canonical directory: '/' before each segment. */
  function AbsolutePath(dir: Path): string {
    Join([""] + dir)
  }

  /** A root configured by the absolute path text of a canonical directory
      resolves to that directory. */
  lemma {:induction false} RootOfAbsolutePath(dir: Path)
    requires Canonical(dir)
    ensures RootPath(AbsolutePath(dir)) == dir
  {
    var segs := [""] + dir;
    assert forall i :: 0 <= i < |segs| ==> NoSlash(segs[i]) by {
      forall i | 0 <= i < |segs| ensures NoSlash(segs[i]) {
        if i > 0 { assert segs[i] == dir[i - 1]; }
      }
    }
    SplitJoin(segs);
    assert Step([], "") == [];
    assert segs[1..] == dir;
    ResolveCanonical([], dir);
  }

  /** The traversal scenario end to end: a root `<tmp>/<rootName>` holding
      `index.html`, where `<tmp>` is any directory, a sibling directory
      `<outsideName>` holding `secret.txt`, and GET of
      `../<outsideName>/secret.txt`, which is refused with 403 rather than
      answered with 200 or 404. */
  lemma ForbidsTraversalOutsideRoot(fs: FileSystem, tmp: Path, rootName: Segment, outsideName: Segment)
    requires Canonical(tmp)
    requires NoSlash(rootName) && !IsDotSegment(rootName)
    requires NoSlash(outsideName) && !IsDotSegment(outsideName)
    requires rootName != outsideName
    requires tmp + [rootName, IndexFile] in fs
    requires tmp + [outsideName, "secret.txt"] in fs
    ensures Serve(Get, fs, AbsolutePath(tmp + [rootName]), "../" + outsideName + "/secret.txt").status
         == StatusForbidden
  {
    var root := AbsolutePath(tmp + [rootName]);
    RootOfChild(tmp, rootName);
    assert "../" + outsideName + "/" + "secret.txt" == "../" + outsideName + "/secret.txt";
    TraversalIsForbidden(Get, fs, root, outsideName, "secret.txt");
  }

  /** A root at `<tmp>/<name>` resolves to that directory. */
  lemma RootOfChild(tmp: Path, name: Segment)
    requires Canonical(tmp)
    requires NoSlash(name) && !IsDotSegment(name)
    ensures RootPath(AbsolutePath(tmp + [name])) == tmp + [name]
    ensures RootPath(AbsolutePath(tmp + [name]))[|tmp|] == name
  {
    var dir := tmp + [name];
    assert Canonical(dir) by {
      forall i | 0 <= i < |dir| ensures !IsDotSegment(dir[i]) && NoSlash(dir[i]) {
        if i < |tmp| { assert dir[i] == tmp[i]; }
      }
    }
    RootOfAbsolutePath(dir);
  }

  /** The HEAD scenario: `asset.txt` holding the five bytes of "hello" is
      answered with 200, an empty body and `Content-Length: 5`. */
  lemma HeadOfFiveByteAsset(fs: FileSystem, root: string)
    requires RootPath(root) + ["asset.txt"] in fs
    requires fs[RootPath(root) + ["asset.txt"]] == [104, 101, 108, 108, 111]
    ensures Serve(Head, fs, root, "asset.txt").status == StatusOk
    ensures Serve(Head, fs, root, "asset.txt").body == []
    ensures Serve(Head, fs, root, "asset.txt").contentLength == "5"
  {
    HeadOfFileInRoot(fs, root, "asset.txt");
  }

  /** Files outside the root are never read: two filesystems that agree on
      everything below the root get the same answer to every request. */
  lemma EscapedLocationsNeverRead(verb: Method, fs1: FileSystem, fs2: FileSystem, root: string, target: string)
    requires forall p :: Within(RootPath(root), p) ==> (p in fs1 <==> p in fs2)
    requires forall p :: Within(RootPath(root), p) && p in fs1 && p in fs2 ==> fs1[p] == fs2[p]
    ensures Serve(verb, fs1, root, target) == Serve(verb, fs2, root, target)
  {
  }

  /** A request without a `..` segment stays below the root, so it is never
      refused with 403. */
  lemma {:induction false} NoDotDotNeverForbidden(verb: Method, fs: FileSystem, root: string, target: string)
    requires forall i :: 0 <= i < |RequestSegments(target)| ==> RequestSegments(target)[i] != ".."
    ensures Serve(verb, fs, root, target).status != StatusForbidden
  {
    ResolveWithoutDotDot(RootPath(root), RequestSegments(target));
  }

  // ---------------------------------------------------------------------
  // Lifecycle and readiness

  type Port = p: int | 1 <= p <= 65535 witness 1

  /** The listener's state: `Ready` once the accept loop is running on `port`;
      a stopped server is never restarted. */
  datatype Listening = NotStarted | Starting | Ready(port: Port) | Stopped

  /** What can happen to the listener: `start` is called, the accept loop
      comes up on a bound port, or `stop` is called. */
  datatype Event = StartRequested | AcceptLoopReady(port: Port) | StopRequested

  const LoopbackHost: string := "127.0.0.1"

  datatype BaseUrl = BaseUrl(host: string, port: Port)

  /** `baseURL()`: a loopback URL while the accept loop runs, nothing otherwise. */
  function BaseURL(s: Listening): (u: Option<BaseUrl>)
    ensures u.Some? <==> s.Ready?
    ensures u.Some? ==> u.value == BaseUrl(LoopbackHost, s.port)
  {
    if s.Ready? then Some(BaseUrl(LoopbackHost, s.port)) else None
  }

  /** How far along its lifecycle a listener is; transitions never go back. */
  function Stage(s: Listening): nat {
    match s
    case NotStarted => 0
    case Starting => 1
    case Ready(_) => 2
    case Stopped => 3
  }

  /** One lifecycle step: `start()` moves a fresh server to `Starting`; the
      accept loop coming up makes a starting server `Ready` on its port;
      `stop()` stops a started server and is a no-op on a never-started one.
      Every other combination changes nothing. */
  function Next(s: Listening, e: Event): (r: Listening)
    ensures Stage(s) <= Stage(r)
    ensures s.Stopped? ==> r.Stopped?
    ensures s.NotStarted? && e == StartRequested ==> r == Starting
    ensures s.Starting? && e.AcceptLoopReady? ==> r == Ready(e.port)
    ensures r.Starting? ==> s.Starting? || (s.NotStarted? && e == StartRequested)
    ensures r.Ready? ==> r == s || (s.Starting? && e == AcceptLoopReady(r.port))
    ensures e == StopRequested ==> BaseURL(r).None? && (r.Stopped? <==> !s.NotStarted?)
    ensures e == StopRequested && s.NotStarted? ==> r == s
    ensures e != StopRequested && !s.Stopped? ==> !r.Stopped?
  {
    match e
    case StartRequested => if s.NotStarted? then Starting else s
    case AcceptLoopReady(port) => if s.Starting? then Ready(port) else s
    case StopRequested => if s.NotStarted? then s else Stopped
  }

  function Run(s: Listening, events: seq<Event>): Listening
    decreases |events|
  {
    if |events| == 0 then s else Run(Next(s, events[0]), events[1..])
  }

  /** `stop()` is idempotent: a second call changes nothing. */
  lemma StopIsIdempotent(s: Listening)
    ensures Next(Next(s, StopRequested), StopRequested) == Next(s, StopRequested)
    ensures BaseURL(Next(s, StopRequested)).None?
  {
  }

  /** A stopped server stays stopped, and `baseURL()` stays nil, whatever follows. */
  lemma {:induction false} StoppedIsFinal(events: seq<Event>)
    ensures Run(Stopped, events) == Stopped
    ensures BaseURL(Run(Stopped, events)).None?
    decreases |events|
  {
    if |events| > 0 {
      StoppedIsFinal(events[1..]);
    }
  }

  /** Once ready, `baseURL()` is stable until `stop()` is called. */
  lemma {:induction false} ReadyIsStable(port: Port, events: seq<Event>)
    requires forall i :: 0 <= i < |events| ==> events[i] != StopRequested
    ensures BaseURL(Run(Ready(port), events)) == Some(BaseUrl(LoopbackHost, port))
    decreases |events|
  {
    if |events| > 0 {
      ReadyIsStable(port, events[1..]);
    }
  }

  /** Running `a` then `b` is running `a + b`. */
  lemma {:induction false} RunAppend(s: Listening, a: seq<Event>, b: seq<Event>)
    ensures Run(s, a + b) == Run(Run(s, a), b)
    decreases |a|
  {
    if |a| == 0 {
      assert a + b == b;
    } else {
      assert (a + b)[0] == a[0];
      assert (a + b)[1..] == a[1..] + b;
      RunAppend(Next(s, a[0]), a[1..], b);
    }
  }

  /** Until `start()` is called a server stays not started. */
  lemma {:induction false} NotStartedUntilStart(events: seq<Event>)
    requires forall i :: 0 <= i < |events| ==> events[i] != StartRequested
    ensures Run(NotStarted, events) == NotStarted
    decreases |events|
  {
    if |events| > 0 {
      NotStartedUntilStart(events[1..]);
    }
  }

  /** A starting server stays starting until its accept loop comes up or it is stopped. */
  lemma {:induction false} StartingUntilAcceptLoop(events: seq<Event>)
    requires forall i :: 0 <= i < |events| ==> !events[i].AcceptLoopReady? && events[i] != StopRequested
    ensures Run(Starting, events) == Starting
    decreases |events|
  {
    if |events| > 0 {
      StartingUntilAcceptLoop(events[1..]);
    }
  }

  /** A started server becomes ready: after the first `start()`, the first
      time the accept loop comes up on `port`, `baseURL()` returns the
      loopback URL on `port`, and keeps returning it while no `stop()` follows. */
  lemma {:induction false} StartedServerBecomesReady(pre: seq<Event>, mid: seq<Event>, post: seq<Event>, port: Port)
    requires forall i :: 0 <= i < |pre| ==> pre[i] != StartRequested
    requires forall i :: 0 <= i < |mid| ==> !mid[i].AcceptLoopReady? && mid[i] != StopRequested
    requires forall i :: 0 <= i < |post| ==> post[i] != StopRequested
    ensures BaseURL(Run(NotStarted, pre + [StartRequested] + mid + [AcceptLoopReady(port)] + post))
         == Some(BaseUrl(LoopbackHost, port))
  {
    var events := pre + [StartRequested] + mid + [AcceptLoopReady(port)] + post;
    RunAppend(NotStarted, pre + [StartRequested] + mid + [AcceptLoopReady(port)], post);
    RunAppend(NotStarted, pre + [StartRequested] + mid, [AcceptLoopReady(port)]);
    RunAppend(NotStarted, pre + [StartRequested], mid);
    RunAppend(NotStarted, pre, [StartRequested]);
    NotStartedUntilStart(pre);
    assert Run(NotStarted, pre + [StartRequested]) == Starting;
    StartingUntilAcceptLoop(mid);
    assert Run(NotStarted, pre + [StartRequested] + mid + [AcceptLoopReady(port)]) == Ready(port);
    ReadyIsStable(port, post);
  }

  /** `baseURL()` is nil for anyone looking before the accept loop is up: a
      fresh server reports a URL only after an `AcceptLoopReady` event, and
      then with that event's port. */
  lemma {:induction false} ReadyOnlyAfterAcceptLoop(s: Listening, events: seq<Event>)
    requires !s.Ready?
    requires BaseURL(Run(s, events)).Some?
    ensures exists i :: 0 <= i < |events| && events[i] == AcceptLoopReady(Run(s, events).port)
    decreases |events|
  {
    var s' := Next(s, events[0]);
    if s'.Ready? {
      assert events[0] == AcceptLoopReady(s'.port);
      if |events| > 1 {
        if StopRequested in events[1..] {
          var j :| 0 <= j < |events[1..]| && events[1..][j] == StopRequested;
          RunThroughStop(s', events[1..], j);
          assert false;
        }
        ReadyIsStable(s'.port, events[1..]);
      }
    } else {
      ReadyOnlyAfterAcceptLoop(s', events[1..]);
      var i :| 0 <= i < |events[1..]| && events[1..][i] == AcceptLoopReady(Run(s', events[1..]).port);
      assert events[i + 1] == events[1..][i];
    }
  }

  /** A `stop()` anywhere in the history of a server that has been started
      leaves it stopped. */
  lemma {:induction false} RunThroughStop(s: Listening, events: seq<Event>, j: nat)
    requires !s.NotStarted?
    requires j < |events| && events[j] == StopRequested
    ensures Run(s, events) == Stopped
    decreases |events|
  {
    if j == 0 {
      StoppedIsFinal(events[1..]);
    } else {
      RunThroughStop(Next(s, events[0]), events[1..], j - 1);
    }
  }

  const PollIntervalMs: nat := 25
  const ReadyTimeoutMs: nat := 2000
  const NotReadyMessage: string := "server did not become ready"

  /** The moment of the `k`-th poll, in milliseconds after polling began. */
  function PollTime(k: nat): nat {
    k * PollIntervalMs
  }

  /** What the `k`-th poll of `baseURL()` sees, given the listener's state at
      every millisecond. */
  function Observe(stateAt: nat -> Listening, k: nat): Option<BaseUrl> {
    BaseURL(stateAt(PollTime(k)))
  }

  /** A caller's wait for readiness: poll `baseURL()` every 25 ms until it is
      non-nil, giving up once 2 seconds have passed. Returns the first URL
      observed, or fails having seen nil at every poll before the deadline. */
  method WaitForBaseURL(stateAt: nat -> Listening) returns (r: Result<BaseUrl, string>)
    ensures r.Success? ==>
      exists k: nat :: PollTime(k) < ReadyTimeoutMs && Observe(stateAt, k) == Some(r.value)
        && forall j: nat :: j < k ==> Observe(stateAt, j).None?
    ensures r.Failure? ==>
      r.error == NotReadyMessage
      && forall k: nat :: PollTime(k) < ReadyTimeoutMs ==> Observe(stateAt, k).None?
  {
    var k: nat := 0;
    while PollTime(k) < ReadyTimeoutMs
      invariant forall j: nat :: j < k ==> Observe(stateAt, j).None?
      decreases ReadyTimeoutMs - PollTime(k)
    {
      var url := BaseURL(stateAt(PollTime(k)));
      if url.Some? {
        assert Observe(stateAt, k) == Some(url.value);
        return Success(url.value);
      }
      k := k + 1;
    }
    return Failure(NotReadyMessage);
  }
}
