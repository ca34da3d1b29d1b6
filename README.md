# Camera stream relay: catalog, stream table and player state in Dafny

The system relays live camera feeds to a web page. A Node.js server
(`server.js`) reads a catalog of cameras (one `name;address` per line). It
starts one ffmpeg command per camera that writes an HLS playlist under
`public/hls/cam<id>/`. It lists the cameras at `GET /api/cameras` and
restarts a command 5 seconds after it reports an error. On SIGINT it kills
every command. The page (`public/app.js`) shows two cameras: one in a main
container and one in a picture-in-picture (pip) container. A single click
is meant to toggle a video's sound; as written it never changes the clicked
video's own `muted` flag (see Findings). A double click on the
main-role container minimizes the pip; a double click on the pip-role
container swaps the two roles.

This project models the logic of those two files, without I/O, DOM or
timing, and proves what it promises:

- `text.dfy`, module `Text`: JavaScript's `trim`, `split` with one separator
  character, and the decimal rendering of an id. Includes the split/join
  round trips and the fact that decimal rendering is injective.
- `catalog.dfy`, module `Catalog`: the parsing done by `loadCameras`, the
  `/api/cameras` response, and the output paths. It shows that each
  advertised URL is served from exactly the playlist the camera's worker
  writes.
- `server.dfy`, module `Server`: the module-level `cameras` and `streams`
  state, as a class with one method per event. The events are start-up,
  `error`, `end`, a retry timer firing, and SIGINT. An ffmpeg command is an
  opaque object.
- `player.dfy`, module `Player`: the closure state of the page as a class.
  That state is the `muted` flags, `isSwapped`, `isPipMinimized`, the
  `main`/`pip`/`hidden` classes of the two containers, and the pending
  single-click timer. The functions `ToggleAsWritten` and `DoubleClick`
  specify it; `Toggle` is the toggle the code evidently intends.
- `wrappers.dfy`: an `Option` type. It stands for `undefined` and for a
  catalog read that throws.

`server.js` has no freshness watchdog, no de-duplication of restarts and no
generation counter, and the model adds none. A retry timer re-checks
`streams[camera.id]`, but no entry is ever deleted, so the check always
passes (`Server.Server.OnRetryTimer`). fluent-ffmpeg reports exactly one of
`error` or `end` per command. Given that, the code still keeps at most one
running command or one pending retry per camera, never both. This is the
invariant `Server.Server.Valid`, which every event preserves.

Notes on the parser as written:

- The `name && url` test looks at the untrimmed fields. So a line such as
  `" ; "` is kept, with an empty name and address
  (`Catalog.SpaceFieldsAccepted`).
- Ids are 1 + the line's index among the non-blank lines. A rejected line
  therefore leaves a gap in the ids.

## Model

| member | source | states |
|---|---|---|
| `Text.TrimStart` | server.js:28 | the result is a suffix of the input; everything removed is whitespace; the result does not start with whitespace |
| `Text.TrimEnd` | server.js:28 | the result is a prefix of the input; everything removed is whitespace; the result does not end with whitespace |
| `Text.Trim` | server.js:34-35 | `trim()` gives the part of the text that follows an all-whitespace prefix and precedes an all-whitespace suffix (whitespace is JS WhiteSpace or LineTerminator); it is empty exactly when the text is all whitespace, and otherwise neither starts nor ends with whitespace |
| `Text.TrimKeeps` | server.js:34-35 | every character of a trimmed field occurs in the untrimmed one, so trimming cannot introduce a `;` |
| `Text.Split` | server.js:30 | `split(sep)` gives at least one piece, and no piece contains the separator |
| `Text.JoinSplit` | server.js:28 | joining the pieces of `split` with the separator gives back the text (no character is lost when splitting the file into lines) |
| `Text.SplitJoin` | server.js:11 | splitting a join of separator-free pieces gives back the pieces |
| `Text.SplitHead` | server.js:30 | the first piece is the text before the first separator; a second piece exists exactly when the text contains the separator; the remaining pieces are those of the text after the first separator |
| `Text.Decimal` | server.js:93 | an id renders as a non-empty string of digits with no leading zero |
| `Text.DecimalRoundTrip` | server.js:93 | reading a rendered id back gives the id |
| `Text.DecimalInjective` | server.js:46 | distinct ids render differently |
| `Catalog.NonBlank` | server.js:28 | the filter keeps no blank line and never lengthens the list |
| `Catalog.NonBlankMembers` | server.js:28 | a line survives the filter exactly when it occurs in the file and is not blank |
| `Catalog.NonBlankAppend` | server.js:28 | the filter distributes over concatenation, so it keeps the file order |
| `Catalog.BlankLineShiftsNoId` | server.js:28-33 | inserting a blank line anywhere changes no loaded camera, because blank lines are removed before numbering |
| `Catalog.EntryClean` | server.js:30-36 | the camera `EntryOf` builds for an accepted line has the given id, and its name and address contain no `;` and have no whitespace at either end |
| `Catalog.Numbered` | server.js:29-37 | the `forEach` pushes at most one camera per non-blank line; what it pushes is stated by `NumberedSound` and `NumberedIds` |
| `Catalog.ParseSound` | server.js:28-38 | every camera parsed from the file text is the one the accepted non-blank line at index `id - 1` yields, and ids strictly increase |
| `Catalog.NumberedSound` | server.js:29-37 | each loaded camera comes from the accepted line at index `id - 1`, with name and address trimmed; ids strictly increase in file order |
| `Catalog.NumberedIds` | server.js:29-37 | the set of ids equals `AcceptedIds`, the set `{k + 1 : line k is accepted}`, so a skipped line leaves a gap |
| `Catalog.AcceptsIff` | server.js:30-31 | `Accepts` (the `name && url` test): a line is kept exactly when the text before its first `;` and the text between its first and second `;` (or the end of the line) are both non-empty; those two texts are the name and address fields |
| `Catalog.ExtraFieldsIgnored` | server.js:30 | fields after the second `;` change neither acceptance nor the camera |
| `Catalog.SpaceFieldsAccepted` | server.js:30-36 | the emptiness test is made on the untrimmed fields: `" ; "` is kept as a camera with an empty name and address |
| `Catalog.StreamUrl` | server.js:93 | the URL `/hls/cam<id>/index.m3u8` carries the id in decimal between `/hls/cam` and `/index.m3u8`, and reading those digits back gives the id |
| `Catalog.ServedFile` | server.js:11 | the model's resolution of a URL path by the static handler of `public`: a path starting with `/` resolves to a file below `public` whose segments hold no `/`, and any other path resolves to nothing |
| `Catalog.ServedJoin` | server.js:11 | in the model's resolution, a URL path made of `/`-free segments joined by `/` resolves to exactly those segments below `public` |
| `Catalog.UrlJoinsOutput` | server.js:46-51 | the URL of a camera is `/` followed by the segments of its output path below `public` (`hls`, `cam<id>`, `index.m3u8`), joined by `/`; no segment holds a `/`, is empty or starts with `.` |
| `Catalog.ApiCameras` | server.js:89-95 | the response has one entry per loaded camera, in order, carrying its id and name and the URL `/hls/cam<id>/index.m3u8` |
| `Catalog.ApiUrlIsOutput` | server.js:90-94 | each entry's `streamUrl` is served by the static handler from exactly the playlist that camera's worker writes |
| `Catalog.UrlIsOutput` | server.js:46-51 | with `hlsDir = public/hls` (line 14) and `public` served statically (line 11), URL `/hls/cam<id>/index.m3u8` names file `public/hls/cam<id>/index.m3u8` |
| `Catalog.DistinctIdsDistinctTargets` | server.js:46-51 | cameras with different ids get different URLs and different output files |
| `Server.Command.constructor` | server.js:55-66 | a command reads the camera's address and writes the camera's playlist |
| `Server.Server.constructor` | server.js:22-23 | at start-up `cameras` and `streams` are empty, and no timer or kill is pending |
| `Server.Server.LoadCameras` | server.js:25-43 | appends exactly the cameras parsed from the file text; when the read throws, the error is swallowed and nothing is appended |
| `Server.Server.StartStream` | server.js:45-86 | runs a fresh command that reads the camera's `url` and writes `OutputPath(id)`; `streams[id]` becomes that command and no other key changes |
| `Server.Server.Listen` | server.js:98-102 | after loading and starting, the table holds exactly the loaded ids, each with a running command for that camera, and the invariant holds |
| `Server.Server.StartAll` | server.js:101 | `forEach(startStream)` over cameras with distinct ids leaves one running command per camera |
| `Server.Server.OnError` | server.js:70-79 | an `error` appends exactly one retry, for the same camera, and leaves `streams` untouched |
| `Server.Server.OnEnd` | server.js:80-82 | an `end` schedules nothing and leaves `streams` untouched |
| `Server.Server.OnRetryTimer` | server.js:73-78 | the earliest retry fires; its guard always holds, so the camera is restarted with a fresh command recorded in `streams`; the invariant is kept |
| `Server.AscendingIds` | server.js:107 | the integer keys, listed in ascending order, each exactly once (the order of `Object.values`) |
| `Server.Server.CommandsInIdOrder` | server.js:107 | `Object.values(streams)` lists each command of the table exactly once, in ascending id order |
| `Server.Server.OnSigint` | server.js:105-109 | every command of `streams`, and so every running command, receives `kill('SIGKILL')` in ascending id order; then the process exits |
| `Player.ToggleAsWritten` | public/app.js:81-96 | as written, the other video always ends up muted, so at most one video is unmuted |
| `Player.ToggleAsWrittenKeepsTarget` | public/app.js:82-95 | as written, the target video's own `muted` flag never changes |
| `Player.ToggleAsWrittenCounterexample` | public/app.js:82-95 | with both videos muted, clicking the main video leaves it muted, where the intended toggle would give it sound |
| `Player.Toggle` | public/app.js:81-96 | intended toggle: at most one video is unmuted; the other video is muted; the target is unmuted afterwards exactly when it was muted before |
| `Player.ToggleTwice` | public/app.js:81-96 | toggling the same video twice: if it was muted, both end muted; if it was unmuted, it ends as the only video with sound |
| `Player.PipRole` | public/app.js:131 | the pip-role container (`isSwapped ? mainContainer : pipContainer`) is never the main-role one |
| `Player.IsMainTarget` | public/app.js:161-165 | a container's click counts as main-role exactly when it is the main-role container, so exactly one container is the main-role target |
| `Player.DoubleClick` | public/app.js:125-157 | main-role: `isSwapped` is unchanged, `isPipMinimized` flips, and the pip-role container is hidden exactly when minimized, with nothing else changed; pip-role: `isSwapped` flips, `isPipMinimized` becomes false, nothing is hidden, exactly the new main-role container has `main` and the other has `pip`, and other classes are kept |
| `Player.DoubleClickKeepsConsistent` | public/app.js:125-157 | both kinds of double click keep the layout consistent: the main-role container is `main` and visible, and the pip-role container is `pip` and hidden exactly when minimized |
| `Player.SwapTwice` | public/app.js:138-155 | two swaps restore `isSwapped` and the role classes; the pip ends up shown |
| `Player.MinimizeTwice` | public/app.js:126-136 | two minimize toggles restore the layout |
| `Player.Player.constructor` | public/app.js:13-14 | the page starts unswapped and not minimized, the containers carry `main` and `pip` besides the other class names given, and no click is pending |
| `Player.Player.ToggleMute` | public/app.js:81-96 | the new `muted` flags are `ToggleAsWritten` of the old ones: the other video is muted, at most one video is unmuted, and the target's own flag is unchanged (see Findings) |
| `Player.Player.HandleDoubleClick` | public/app.js:125-157 | the class-by-class updates produce exactly `DoubleClick` of the old layout and keep it consistent |
| `Player.Player.HandleClick` | public/app.js:112-123 | with no click pending, only arms the timer for the clicked container's video; with one pending, clears it and runs the double click with the flag of the container clicked now; the audio never changes |
| `Player.Player.OnClickTimer` | public/app.js:118-121 | when the timer fires, the pending click is cleared and `toggleMute` runs, as written, on the armed video; the layout does not change |

## Left out

- ffmpeg process spawning, its option strings, the `start` listener and all
  console logging (server.js:53-69, 84). A command is an opaque object
  carrying its input address and output path.
- Express, CORS, the port and `app.listen` (server.js:7-10, 98).
- Catalog.ServedFile resolves every path that starts with `/` by splitting
  it at `/` under `public`. It leaves out what `express.static` does
  besides: URL decoding, answering 403 for a path that escapes `public`
  through `..`, ignoring dotfiles, collapsing empty segments, the directory
  index, and serving only files that exist, on GET and HEAD.
- Catalog.ServedJoin therefore speaks of the model's resolution only. The
  segments it is applied to in `Catalog.UrlIsOutput` (`hls`, `cam<id>`,
  `index.m3u8`) are non-empty and none starts with `.`
  (`Catalog.UrlJoinsOutput`), so none of the differences above touches that
  result.
- The static root `public` resolves against the working directory, while
  `hlsDir` resolves against the script's directory. The model assumes they
  are the same directory.
- Creating and cleaning up directories (server.js:15-20, 47-49). Reading the
  catalog is an `Option<string>` input: the file text, or `None` when the
  read throws.
- Wall-clock timing: timers are events. The delays appear only as the
  constants `RetryDelayMs` (5000) and `ClickDelayMs` (300). All retry timers
  share one delay, so they fire in the order they were scheduled.
- Events after `process.exit()`. A killed command would report `error`, but
  the process has already exited, so no event is accepted once `exited` is
  set.
- Server.Server.OnError and Server.Server.OnEnd require the command to be
  running. They rely on fluent-ffmpeg reporting exactly one of `error` or
  `end` per command; that library is not part of this model.
- Server.Server.StartStream requires that the camera has no running command
  and no pending retry. `startStream` itself checks nothing. The requirement
  holds at both of its call sites (start-up and the retry timer), and
  `Valid` carries it between events.
- Strings are sequences of Unicode scalar values, not UTF-16 code units.
  `trim` uses the ECMAScript whitespace set.
- hls.js playback, `initPlayer` and the fetch of the camera list
  (public/app.js:16-78). Also out: the `showIcon` animation (98-106) and
  pinch-zoom and pan (168-233), which use floating point and touch
  coordinates.
- `index.html` is not part of this model. The constructor assumes the main
  container starts with class `main`, the pip container with `pip`, and
  neither is hidden. The videos' initial `muted` flags and any other class
  names of the two containers are constructor parameters; no handler
  touches those other names.
- A click reaches exactly one container. The pip listener's
  `stopPropagation` exists to ensure this.

## Findings

| source | as written | input that shows it | evidently intended | confidence | as-written member | corrected member |
|---|---|---|---|---|---|---|
| public/app.js:82 | `isMuted = !videoEl.muted`, and the target is unmuted only when `isMuted` holds, that is when it already had sound; the target's own flag never changes | both videos muted, single click on the main video: it stays muted, so no video can ever be given sound | as the comment at line 88 says, "unmute target if it was muted": read `videoEl.muted` itself | high (not executed) | `Player.ToggleAsWrittenCounterexample` | `Player.Toggle` |

The page class (`Player.Player.ToggleMute`, `Player.Player.OnClickTimer`)
follows the code as written. `Player.Toggle` is the corrected toggle, and its
intended properties are proved about it (`Player.Toggle`, `Player.ToggleTwice`).
