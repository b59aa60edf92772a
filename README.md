# vlckickoff control logic in Dafny

vlckickoff serves a list of configured live streams. One of them at a time is
"active"; a single external player process (VLC) is kept running for the active
stream's URL, and a GStreamer-based handler fans the encoded output of a capture
pipeline out to any number of HTTP clients by handing duplicated socket
descriptors to a multi-descriptor sink.

This project models the control logic around those external pieces:

- `Streams` (streams.dfy): the `stream` records and the global settings. The
  `streamPostHandler` walk is `Settings.PostStream`, specified by the pure
  `Posted`/`DownstreamUrl` functions. The settings POST field copy is
  `Settings.ApplySettingsPost`. The two bookkeeping steps of
  `fillInPlayingTitles` are `CollectChanIds` and `ApplyProgramRow`.
- `Supervision` (supervisor.dfy): the `runVlc` loop as a class with the two loop
  variables (`running` for "vlc holds a started process", `currentUrl`) and a log of `Kill`,
  `Wait` and `Start` events. A replay of the log (`After`, `Disciplined`) states
  that a process is only started when none exists, only a live one is killed,
  and only a killed one is waited for.
- `Kickoff` (kickoff.dfy): the channels read as calls handled one at a time in
  arrival order. A stream POST runs the walk and then one supervisor iteration. A
  settings POST copies five fields, sends `""` to the supervisor, then sends the
  recompute post `stream{}` through the walk.
- `Video` (video.dfy): `VideoHandler`. It holds the derived pipeline
  properties (pids default, target bitrate), the NULL/PLAYING state and the
  `conns` table. `ServeHTTP` and `RemoveFd` fill and empty the table.
  Hijack, File, Dup and the header write are outside calls whose outcomes are
  parameters. What the handler does to connections, descriptors and the sink
  is recorded in a trace.

Behaviour of the code that the model keeps as written:

- The supervisor compares URL strings only. Changed settings reach the player
  only because a settings POST sends `""` first, which stops it, and then the
  recompute restarts it.
- A stream POST with `Active = true` whose (Name, Url) matches no record leaves
  every record inactive and stops the player (`ActivatePostWithoutMatchStops`).
  Renaming the active stream through a POST therefore does not keep it running.
- `ServeHTTP` does not check whether the pipeline is playing before registering
  a client.
- Nothing sends the initially active stream's URL to the supervisor at startup;
  it starts idle (`Server.constructor`).

## Model

| member | source | states |
|---|---|---|
| `Streams.Settings.PostStream` | vlckickoff.go:130-148 | every record is rewritten by the match / force-inactive rule and nothing else changes; the URL returned is that of the last active record after the walk, or "" |
| `Streams.LastActive` | vlckickoff.go:139-147 | the record `activeStream` ends on is active and no later one is; there is none exactly when no record is active |
| `Streams.ActivePostSelectsMatches` | vlckickoff.go:133-138 | after an active post a record is active exactly when its (Name, Url) equals the post's |
| `Streams.InactivePostClearsMatches` | vlckickoff.go:134-138 | after an inactive post matching records are inactive and every other record is unchanged |
| `Streams.PostChangesOnlyActive` | vlckickoff.go:133-142 | a post changes Active flags only: every other field, the length and the order stay |
| `Streams.PostKeepsAtMostOne` | vlckickoff.go:133-142 | with distinct (Name, Url) pairs, at most one record is active after a post that is active or that follows a state with at most one active |
| `Streams.ActivePostDownstream` | vlckickoff.go:133-147 | after an active post the URL sent is the posted URL if some record matches, and "" if none does |
| `Streams.InactivePostDownstream` | vlckickoff.go:133-147 | with at most one active record, deactivating it sends "", deactivating anything else re-sends the current URL |
| `Streams.RecomputeKeepsDownstream` | vlckickoff.go:133-147 | the empty recompute post re-sends the same URL whenever that URL is not "" |
| `Streams.Settings.ApplySettingsPost` | vlckickoff.go:232-236 | VideoWidth, VideoHeight, VideoBitrate, AudioBitrate and CaptureCacheMs take the posted values; every other field and the stream list are unchanged |
| `Streams.Settings.CollectChanIds` | vlckickoff.go:155-160 | the list is the non-zero channel ids in stream order, and holds an id exactly when it is non-zero and some stream has it |
| `Streams.NonZeroChanIdsExact` | vlckickoff.go:155-160 | the collected list is no longer than the stream list and holds exactly the non-zero ids that occur |
| `Streams.NonZeroChanIdsAppend` | vlckickoff.go:155-160 | collecting over two runs of streams concatenates their lists, so stream order is kept |
| `Streams.FirstWithChanId` | vlckickoff.go:180-186 | the index found has the row's channel id and no earlier stream has it; there is none exactly when no stream has it |
| `Streams.Settings.ApplyProgramRow` | vlckickoff.go:180-186 | the first stream with the row's channel id gets its title and subtitle; everything else is unchanged |
| `Streams.ProgramRowKeepsSelection` | vlckickoff.go:180-186 | a program row changes only the titles of that one stream, so Active flags and the URL sent downstream stay |
| `Supervision.Supervisor.constructor` | vlckickoff.go:85-86 | the loop starts with no process, an empty current URL and an empty log |
| `Supervision.Supervisor.Feed` | vlckickoff.go:87-124 | one loop iteration: the current URL changes nothing; any other URL becomes current, a running process is killed and reaped first, then one Start follows unless the URL is "", and a failed Start leaves nothing running; the log stays disciplined |
| `Supervision.Supervisor.Run` | vlckickoff.go:87-125 | the loop over received URLs applies the iterations in delivery order and keeps the log disciplined |
| `Supervision.StepIgnoresCurrent` | vlckickoff.go:88-90 | a URL equal to the current one leaves the loop variables unchanged and causes no event |
| `Supervision.StepKeepsDisciplined` | vlckickoff.go:91-124 | one iteration never starts a process while another exists, kills only the live one and reaps only a killed one, and leaves the variables describing the process that runs |
| `Supervision.RepeatIsNoOp` | vlckickoff.go:87-91 | the same URL twice in a row: the second causes nothing |
| `Supervision.RunKeepsDisciplined` | vlckickoff.go:87-125 | over any sequence of URLs two processes never overlap |
| `Supervision.StepAsWritten` | vlckickoff.go:87-124 | the loop body as written: the current URL changes nothing; another URL panics exactly when `vlc` holds a command whose Start failed, and otherwise becomes current with a command (started iff Start succeeded) unless it is "" |
| `Supervision.FailedStartThenChangePanics` | vlckickoff.go:93-124 | as written, a URL whose Start fails followed by any other URL reaches Kill on a nil process |
| `Supervision.CorrectedAgreesUnlessStartFails` | vlckickoff.go:93-124 | the corrected iteration agrees with the code as written whenever no Start fails |
| `Kickoff.Server.constructor` | vlckickoff.go:262-265 | the selector and the supervisor start from the loaded settings with no URL sent yet |
| `Kickoff.Server.PostStream` | vlckickoff.go:130-148 | a stream POST updates the records as the walk does and feeds its URL to the supervisor, which ends with that URL as current |
| `Kickoff.Server.PostSettings` | vlckickoff.go:232-238 | a settings POST copies the five fields, sends "" then the recompute; when the supervisor was on the selected non-empty URL, the log gains exactly one Kill and Wait (if a process ran) and one Start of the same URL |
| `Kickoff.ActivatePostEffect` | vlckickoff.go:133-147 | activating an existing stream causes nothing if its URL is current, otherwise a stop of the running process and then exactly one Start of the posted URL when it is non-empty, and no Start when it is empty |
| `Kickoff.ActivatePostWithoutMatchStops` | vlckickoff.go:133-147 | activating a (Name, Url) no record has stops the process and starts none |
| `Kickoff.SettingsPostRestartsOnce` | vlckickoff.go:232-238 | a settings POST while the selected URL runs gives exactly one stop and one Start of the same URL |
| `Kickoff.SettingsPostIdleIsQuiet` | vlckickoff.go:237-238 | a settings POST with no stream active and nothing running causes no event |
| `Video.EffectivePids` | video/videohandler.go:119-123 | the pids property is the given pids when non-empty, otherwise "8192", and never empty |
| `Video.TargetBitrate` | video/videohandler.go:142 | the encoder's target bitrate is the option times 1000: a multiple of 1000 from which the option is recovered by dividing by 1000 |
| `Video.Int32` | video/videohandler.go:104-105 | Go's `int32(x)`: a value in the signed 32-bit range that differs from x by a multiple of 2^32, and x itself when x is already in range |
| `Video.Props` | video/videohandler.go:104-142 | the derived properties keep the frequency, carry width and height as Go's `int32` conversion leaves them (the value in the signed 32-bit range congruent modulo 2^32), carry non-empty pids equal to the given ones when those are non-empty, and a target bitrate that is the option times 1000 |
| `Video.PropsEquivalence` | video/videohandler.go:104-142 | two option values give the same pipeline properties exactly when frequency and bitrate agree, width and height agree after the `int32` conversion, and the defaulted pids agree; sizes 2^32 apart configure the same pipeline |
| `Video.VideoHandler.constructor` | video/videohandler.go:87-89 | a new handler has the derived properties, a pipeline in NULL and an empty table |
| `Video.VideoHandler.Start` | video/videohandler.go:29-31 | the pipeline is PLAYING afterwards, whatever it was, so a second call changes nothing |
| `Video.VideoHandler.Stop` | video/videohandler.go:33-35 | the pipeline is NULL afterwards, whatever it was, so a second call changes nothing |
| `Video.VideoHandler.ServeHTTP` | video/videohandler.go:37-62 | given a duplicated descriptor that is not registered, a failed Hijack, File, Dup or header write leaves table and trace untouched; success writes exactly the WebM preamble, closes the file, maps the duplicated descriptor to the connection leaving other entries alone, then hands it to the sink |
| `Video.VideoHandler.RemoveFd` | video/videohandler.go:79-85 | requires the descriptor to be registered; closes its connection and the descriptor and removes exactly that entry; the table stays equal to the set of open descriptors and none is closed twice |
| `Video.RegisterThenRemoveRestores` | video/videohandler.go:59-84 | registering a fresh descriptor and then removing it restores the table and the set of open descriptors |

## Left out

- Process spawning, `Kill`, `Wait` and `Start` are events in a log; their outcomes are parameters (`startOk`). Kill and Wait errors are only logged by the code and are not modelled.
- The transcode template (`text/template`), the codec choice between the ogg and ts profiles, and the VLC command line are not modelled: they only build strings for the external process.
- The MySQL query, row scanning and the `mythDB == nil` early return of `fillInPlayingTitles` are database I/O. Channel ids are kept as integers; their decimal rendering and the comma join are not modelled.
- JSON encoding and decoding, HTTP method and path dispatch, basic authentication, the static file server and `main`'s startup are HTTP plumbing. A malformed POST body never reaches the modelled code.
- Goroutines and channels are read as sequential calls in arrival order. The shared `*stream` records read concurrently by HTTP handlers are not modelled, and neither is the unguarded access to `conns` from HTTP goroutines and the sink callback.
- GStreamer pipeline construction, caps filters, element linking and the `padAdded` caps matching belong to the external library. The model keeps the option-derived values the pipeline receives: the frequency, the `int32` width and height of the low-resolution caps filter, the pids with their default, and the bitrate scaling (`Video.Props`).
- `Video.Props` and `Video.PropsEquivalence`: the frequency is an unbounded integer; its conversion into the `dvbsrc` element's property type by `SetProperty` is not modelled, so two frequencies that the property type would make equal count as different here.
- `Video.TargetBitrate`: the property value is an unbounded integer; the conversion of the Go `int` to the element's property type, and any overflow there, is not modelled.
- Hijack, File, `syscall.Dup` and `syscall.Close` are abstract: their outcomes are parameters and descriptors are natural numbers (the `int32` argument of `removeFd` is not modelled).
- `Video.VideoHandler.ServeHTTP` assumes that Dup returns a descriptor not currently registered, as the kernel guarantees for a descriptor that is still open; a reused descriptor is not modelled.
- The type assertions `wr.(http.Hijacker)` and `conn.(*net.TCPConn)` in ServeHTTP panic when the writer cannot be hijacked or the hijacked connection is not TCP (net/http recovers such a panic in the request goroutine). The model treats every writer as a Hijacker and every hijacked connection as TCP; `HijackFailed` stands only for an error returned by Hijack, and neither panic is modelled.
- `Video.VideoHandler.Start` and `Video.VideoHandler.Stop`: the result of `SetState` is ignored by the code, so `state` is the state last requested, not necessarily the pipeline's actual state; a failed or asynchronous state change is not modelled.
- When File, Dup or the header write fails, the code leaves the hijacked connection, the file or the duplicated descriptor open. The model records no action for these paths, so the leaks are not visible in the trace.
- The log lines written with `log.Print` are not modelled.
- static/js/app.js is a browser UI controller and is not part of this model.

## Findings

| source | as written | input that shows it | evidently intended | confidence | as-written member | corrected member |
|---|---|---|---|---|---|---|
| vlckickoff.go:93-124 | When `vlc.Start()` fails, `vlc` stays non-nil with a nil `Process`. On the next different URL, `vlc.Process.Kill()` dereferences that nil process and the supervisor goroutine panics. | A URL whose Start fails (e.g. the player binary is missing), followed by any other URL, including "" | A failed Start leaves nothing running, so the next URL simply starts afresh | not executed; high | `Supervision.StepAsWritten`, `Supervision.FailedStartThenChangePanics` | `Supervision.Supervisor.Feed`, `Supervision.StepKeepsDisciplined` |
