# Clawdis macOS companion: web-chat server routing, overlay token gate, pause gate, workspace helpers

A Dafny model of four small pieces of the Clawdis macOS app, stated at the
level of their contracts. The Swift implementations are not part of this model.
The behaviour modelled is what the app's test suite in
`apps/macos/Tests/ClawdisIPCTests` pins down.

- **WebChatServer** (`webchat_server.dfy`, with `path_segments.dfy` and
  `decimal.dfy`) covers three things. First, it decides how a GET or HEAD
  request is answered from the served directory. A location that climbs out
  of the root gives 403. This holds whether or not a file exists there, and
  files outside the root are never read. A missing file gives 404. An existing
  file gives 200 with its exact `Content-Length`. GET carries the file's bytes
  and HEAD carries no body. A request for the base URL serves `index.html`.
  Second, it models the listener lifecycle
  (`NotStarted → Starting → Ready(port) → Stopped`) as seen through
  `baseURL()`. Third, it models the caller's loop that polls `baseURL()`
  every 25 ms for up to 2 s.
- **VoiceWakeOverlay** (`voice_wake_overlay.dfy`) covers `evaluateToken`
  and the overlay snapshot. `startSession`, `updatePartial`, `updateLevel`
  (clamped to [0, 1]) and `dismiss` change that snapshot. Every call that
  names a session is gated by its token.
- **ControlRequestHandler** (`control_request_handler.dfy`) covers
  `process`. While paused, every request gets `(false, "clawdis paused")`
  before any dispatch. When not paused, `status` gets `(true, "ready")`.
- **AgentWorkspace** (`agent_workspace.dfy`) covers four helpers.
  `displayPath` abbreviates the home directory to `~`.
  `resolveWorkspaceURL` expands a leading `~`. `agentsURL` appends
  `AGENTS.md`. `bootstrap` creates the AGENTS file once and is idempotent.

Some parts of the real program become explicit inputs here:

- The filesystem is a map from canonical segment paths to bytes (or to text,
  for the workspace).
- The home directory is a string parameter.
- The persisted pause flag is a boolean parameter.
- New session UUIDs are a token parameter.
- The listener's state over time is a function from milliseconds to state.

Model choices where the tests leave the behaviour open:

- A request is named by its path **relative to the server's base URL**.
  The traversal test writes `/webchat/../<outside>/secret.txt` as the
  request path (WebChatServerTests.swift:105-107). The model assumes the
  base URL's path is `/webchat/`, so that the relative target is
  `../<outside>/secret.txt`. The tests do not show what `baseURL()`
  returns, so this is an assumption; "## Left out" says what depends on it.
- `.` and `..` segments are resolved lexically from the root, in the manner
  of section 5.2.4 of RFC 3986. The result must lie segment by segment under
  the root, or the answer is 403. The model proves that a request with no
  `..` segment is never refused.
- The 403 and 404 answers have an empty body and `Content-Length: 0`.
- `startSession` starts the level at 0. `dismiss` returns the overlay to its
  idle state (no token, hidden, empty text, level 0). The tests only observe
  the token and visibility after `dismiss`.

## Model

| member | source | states |
|---|---|---|
| WebChatServer.Serve | apps/macos/Tests/ClawdisIPCTests/WebChatServerTests.swift:33-111 | every answer is 200, 403 or 404; 403 exactly when the resolved location is not under the root; 200 exactly when it is strictly under the root and a file is there; GET carries that file's bytes; HEAD and error answers carry no body; `Content-Length` reads back as the file's byte count (0 for errors) |
| WebChatServer.ServesIndexAtRoot | apps/macos/Tests/ClawdisIPCTests/WebChatServerTests.swift:38-47 | GET of the base URL answers 200 with the bytes of `index.html` in the root |
| WebChatServer.HeadMatchesGet | apps/macos/Tests/ClawdisIPCTests/WebChatServerTests.swift:63-66 | HEAD's answer equals GET's answer with the body removed: same status, same `Content-Length` |
| WebChatServer.HeadOfFileInRoot | apps/macos/Tests/ClawdisIPCTests/WebChatServerTests.swift:55-66 | HEAD of a file in the root gives 200, an empty body, and a `Content-Length` equal to the file's byte count |
| WebChatServer.HeadOfFiveByteAsset | apps/macos/Tests/ClawdisIPCTests/WebChatServerTests.swift:55-66 | HEAD of `asset.txt` holding "hello" gives 200, an empty body and `Content-Length` "5" |
| WebChatServer.MissingFileIsNotFound | apps/macos/Tests/ClawdisIPCTests/WebChatServerTests.swift:74-83 | a name absent from the root gives 404 with no body |
| WebChatServer.TraversalIsForbidden | apps/macos/Tests/ClawdisIPCTests/WebChatServerTests.swift:105-110 | `../<sibling>/<file>` escapes the root and gives 403 on every filesystem, including one where the escaped file exists |
| WebChatServer.RootOfAbsolutePath | apps/macos/Tests/ClawdisIPCTests/WebChatServerTests.swift:87-88 | a root configured by the absolute path of a directory, such as `<temporaryDirectory>/<name>`, is that directory |
| WebChatServer.ForbidsTraversalOutsideRoot | apps/macos/Tests/ClawdisIPCTests/WebChatServerTests.swift:86-111 | the traversal scenario, for a temporary directory of any depth: on every filesystem where the root holds `index.html` and a sibling directory holds `secret.txt`, GET of `../<sibling>/secret.txt` gives 403, not 200 or 404 |
| WebChatServer.EscapedLocationsNeverRead | apps/macos/Tests/ClawdisIPCTests/WebChatServerTests.swift:89-98 | filesystems that agree below the root get identical answers to every request, so nothing outside the root is ever read |
| WebChatServer.NoDotDotNeverForbidden | apps/macos/Tests/ClawdisIPCTests/WebChatServerTests.swift:62-63 | a request without a `..` segment resolves under the root and is never refused with 403 |
| WebChatServer.BaseURL | apps/macos/Tests/ClawdisIPCTests/WebChatServerTests.swift:7-16 | `baseURL()` is non-nil exactly while the server is ready, and then names the loopback host and the bound port |
| WebChatServer.Next | apps/macos/Tests/ClawdisIPCTests/WebChatServerTests.swift:40-42 | the lifecycle only moves forward (not started, starting, ready, stopped); a stopped server is never restarted; `start()` on a fresh server makes it starting, and nothing else does; the accept loop coming up on a starting server makes it ready on that loop's port, and nothing else does; `stop()` on a started server stops it and on a never-started one changes nothing; `baseURL()` is nil after `stop()` |
| WebChatServer.StartedServerBecomesReady | apps/macos/Tests/ClawdisIPCTests/WebChatServerTests.swift:40-45 | after the first `start()`, once the accept loop comes up on a port with no `stop()` in between, `baseURL()` returns the loopback URL on that port and keeps returning it while no `stop()` follows |
| WebChatServer.StopIsIdempotent | apps/macos/Tests/ClawdisIPCTests/WebChatServerTests.swift:42 | a second `stop()` changes nothing, and `baseURL()` is nil after `stop()` |
| WebChatServer.StoppedIsFinal | apps/macos/Tests/ClawdisIPCTests/WebChatServerTests.swift:40-42 | a stopped server stays stopped, with `baseURL()` nil, whatever happens next |
| WebChatServer.ReadyIsStable | apps/macos/Tests/ClawdisIPCTests/WebChatServerTests.swift:44-45 | once ready, `baseURL()` keeps returning the same URL until `stop()` |
| WebChatServer.ReadyOnlyAfterAcceptLoop | apps/macos/Tests/ClawdisIPCTests/WebChatServerTests.swift:7-16 | a server that is not yet ready reports a URL only after its accept loop came up, and only with that loop's port |
| WebChatServer.RunThroughStop | apps/macos/Tests/ClawdisIPCTests/WebChatServerTests.swift:42 | a `stop()` anywhere in the history of a server that has been started leaves it stopped |
| WebChatServer.WaitForBaseURL | apps/macos/Tests/ClawdisIPCTests/WebChatServerTests.swift:7-16 | polling every 25 ms before the 2 s deadline returns the first non-nil URL observed, or fails with "server did not become ready" after seeing nil at every poll |
| PathSegments.JoinSplit | apps/macos/Tests/ClawdisIPCTests/WebChatServerTests.swift:107 | joining the segments of a request path gives back the path |
| PathSegments.SplitJoin | apps/macos/Tests/ClawdisIPCTests/WebChatServerTests.swift:107 | splitting joined slash-free segments gives back the segments |
| PathSegments.ResolveWithoutDotDot | apps/macos/Tests/ClawdisIPCTests/WebChatServerTests.swift:62 | resolution without `..` only descends from its starting directory |
| PathSegments.Resolve | apps/macos/Tests/ClawdisIPCTests/WebChatServerTests.swift:105-107 | resolving from a canonical directory yields a canonical location, with no `.`, `..` or empty segment left |
| Decimal.ParseRender | apps/macos/Tests/ClawdisIPCTests/WebChatServerTests.swift:66 | the `Content-Length` text reads back as the number it was written from |
| VoiceWakeOverlay.EvaluateToken | apps/macos/Tests/ClawdisIPCTests/VoiceWakeOverlayControllerTests.swift:33-39 | no active session gives dropNoActive; a different incoming token gives dropMismatch; an equal or absent incoming token gives accept; each outcome holds exactly in its case |
| VoiceWakeOverlay.StartSession | apps/macos/Tests/ClawdisIPCTests/VoiceWakeOverlayControllerTests.swift:10-18 | the snapshot's token is the returned token, the overlay is visible and shows the transcript |
| VoiceWakeOverlay.UpdatePartial | apps/macos/Tests/ClawdisIPCTests/VoiceWakeOverlayControllerTests.swift:20-21 | with the active token, only the text changes, to the new transcript; any other token changes nothing |
| VoiceWakeOverlay.Clamp | apps/macos/Tests/ClawdisIPCTests/VoiceWakeOverlayControllerTests.swift:23-26 | the level is in [0, 1]: below 0 gives 0, above 1 gives 1, in range is kept |
| VoiceWakeOverlay.UpdateLevel | apps/macos/Tests/ClawdisIPCTests/VoiceWakeOverlayControllerTests.swift:23-26 | with the active token, only the level changes, to the clamped value; the overlay stays valid |
| VoiceWakeOverlay.Dismiss | apps/macos/Tests/ClawdisIPCTests/VoiceWakeOverlayControllerTests.swift:28-30 | with the active token, the overlay ends hidden with no token; any other token changes nothing |
| VoiceWakeOverlay.ReplayKeepsValid | apps/macos/Tests/ClawdisIPCTests/VoiceWakeOverlayControllerTests.swift:8-31 | after any sequence of calls, the overlay is visible exactly while a session is active and its level stays in [0, 1] |
| VoiceWakeOverlay.StaleTokenIgnored | apps/macos/Tests/ClawdisIPCTests/VoiceWakeOverlayControllerTests.swift:28-35 | after `dismiss`, the old token meets dropNoActive and later updates with it change nothing |
| VoiceWakeOverlay.ForeignTokensIgnored | apps/macos/Tests/ClawdisIPCTests/VoiceWakeOverlayControllerTests.swift:36 | calls naming a token other than the active one, in any number, leave the overlay unchanged |
| VoiceWakeOverlay.SessionLifecycle | apps/macos/Tests/ClawdisIPCTests/VoiceWakeOverlayControllerTests.swift:8-31 | the test's sequence: start shows the token; the partial replaces the text; levels -0.5 and 2.0 become 0 and 1; dismiss hides it and clears the token |
| ControlRequestHandler.Process | apps/macos/Tests/ClawdisIPCTests/ControlRequestHandlerTests.swift:8-60 | paused gives `ok == false`, "clawdis paused" for every request; unpaused `status` gives `ok == true`, "ready"; other unpaused requests go to their handler |
| ControlRequestHandler.PausedIgnoresRequest | apps/macos/Tests/ClawdisIPCTests/ControlRequestHandlerTests.swift:39-59 | while paused the answer to `status` and `rpcStatus` is the same, whatever the handler: the pause check comes before dispatch |
| ControlRequestHandler.StatusOkIffNotPaused | apps/macos/Tests/ClawdisIPCTests/ControlRequestHandlerTests.swift:21-41 | `status` succeeds exactly when not paused, with "ready" or "clawdis paused" accordingly |
| AgentWorkspace.DisplayPath | apps/macos/Tests/ClawdisIPCTests/AgentWorkspaceTests.swift:8-14 | home displays as "~"; a path inside home displays starting with "~/"; a path outside home is shown unchanged |
| AgentWorkspace.ResolveWorkspace | apps/macos/Tests/ClawdisIPCTests/AgentWorkspaceTests.swift:17-19 | "~" expands to home; "~/rest" expands to home followed by "/rest"; paths not starting with "~" are kept |
| AgentWorkspace.ResolveDisplayPath | apps/macos/Tests/ClawdisIPCTests/AgentWorkspaceTests.swift:8-19 | expanding a displayed path gives back the original path, for any path not starting with "~" |
| AgentWorkspace.DisplayResolvedPath | apps/macos/Tests/ClawdisIPCTests/AgentWorkspaceTests.swift:8-19 | displaying an expanded "~" or "~/..." path gives back the tilde form |
| AgentWorkspace.ResolvedTildeEndsWithRest | apps/macos/Tests/ClawdisIPCTests/AgentWorkspaceTests.swift:18-19 | expanding "~/rest" gives a path ending in "/rest", so "~/tmp" ends in "/tmp" |
| AgentWorkspace.AgentsPath | apps/macos/Tests/ClawdisIPCTests/AgentWorkspaceTests.swift:23-26 | the AGENTS file's path is the workspace (up to a trailing '/') followed by "/AGENTS.md": it starts with the workspace, ends in "/AGENTS.md", and removing that ending gives back the workspace |
| AgentWorkspace.AgentsPathNamesAgentsFile | apps/macos/Tests/ClawdisIPCTests/AgentWorkspaceTests.swift:24-26 | the AGENTS file path's last component is the AGENTS file name |
| AgentWorkspace.Bootstrap | apps/macos/Tests/ClawdisIPCTests/AgentWorkspaceTests.swift:35-36 | the workspace directory and the AGENTS file exist afterwards; an existing file is never overwritten; a missing one gets the template; no other file changes |
| AgentWorkspace.BootstrapCreatesHeading | apps/macos/Tests/ClawdisIPCTests/AgentWorkspaceTests.swift:38-39 | a newly created AGENTS file contains "# AGENTS.md" |
| AgentWorkspace.BootstrapIdempotent | apps/macos/Tests/ClawdisIPCTests/AgentWorkspaceTests.swift:41-42 | a second bootstrap returns the same path and leaves the disk as the first left it |

## Left out

- TCP binding, the accept loop, HTTP parsing and serialisation, `URLSession` requests, `Task.sleep` and `stop()` socket teardown are I/O and concurrency. The listener appears only as the `Listening` state and its events. The bound port (preferred or OS-assigned) is an input to the `AcceptLoopReady` event. Bind failures are not modelled.
- Percent-decoding of the request path, query strings, and symlink canonicalisation are not modelled. Only literal segment handling is. The model makes no claim about symlink safety.
- `Content-Type` by file extension and 405 for methods other than GET and HEAD are not modelled: `Method` has only GET and HEAD.
- WebChatServer.Serve: takes the request path relative to the base URL and assumes that base is mounted at `/webchat/`. The tests never show the path part of `baseURL()`. The 403 for the traversal test depends on this assumption: with a base at `/`, the target `webchat/../<outside>/secret.txt` resolves inside the root and the model answers 404. How a path outside the base is routed is not part of this model.
- WebChatServer.Serve: a `..` segment whose resolution stays inside the root is served (for example `sub/../asset.txt` gives the root's `asset.txt` with 200). It is not rejected before resolution. A stricter rule that refuses every `..` segment would also satisfy the tests.
- WebChatServer.BaseURL: returns the host and port, not the URL text. The URL's path part (assumed `/webchat/` above) is not visible in the tests.
- WebChatServer.WaitForBaseURL: the k-th poll happens at exactly 25·k ms. The real loop reads the clock, and each round takes the 25 ms sleep plus the poll itself. So it polls at most 80 times, at instants that drift later; the model takes the idealised schedule, in which the deadline leaves room for exactly 80 polls.
- `UserDefaults` reads and writes, and their snapshot and restore, are persistence plumbing. The pause flag is a parameter.
- ControlRequestHandler.Process: the handling of non-status requests when not paused (the gateway call) is a function parameter. Only the `status` and `rpcStatus` request kinds are modelled, because no other kind appears in the tests.
- The overlay's UI, the session source, attributed text, forwarding and the final-transcript flag of `startSession`, and the dismissal reason and outcome are not modelled. None of them affects the snapshot the tests observe.
- Home-directory lookup and the real filesystem are not modelled. Home is a parameter, and the disk is a set of directories plus a map of files.
- AgentWorkspace.Bootstrap: I/O errors from creating the directory or writing the file are not modelled. The template's text beyond its "# AGENTS.md" heading is not modelled.
- AgentWorkspace.ResolveWorkspace: `~user` forms, whitespace trimming and any default for an empty input are not modelled.
- The AppKit/SwiftUI window, panel, onboarding and discovery-menu smoke tests, and the OS privacy permission queries, are not modelled. They are UI and foreign calls with no stated behaviour.
