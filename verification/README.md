# Proton-GE manager: install pipeline model

A Dafny model of the install controller of the Proton-GE manager (`src/app.rs`).
Clicking Install on a selected release starts one download thread per asset whose
content type is `application/gzip`. Each download stages its archive under `/tmp/`
and sends `StartInstall(path)` over an mpsc channel. On every repaint the window
receives at most one message with `try_recv` and updates its `InstallStatus`
(`Ready | Downloading | Installing | Error(text)`). A `StartInstall` spawns an
install thread. That thread unpacks the archive into
`~/.steam/root/compatibilitytools.d/`, removes the staged file and sends
`InstallSuccess`.

Modules:

- `Protocol` (protocol.dfy): `Message` and the `Result` the channel carries.
  An `anyhow` error is kept as its text.
- `Chain` (chain.dfy): a chain of fallible foreign calls. A failure handled by `?`
  returns `Err(text)`. A failure handled by `.unwrap()` panics, and the thread then
  sends nothing. `Run` runs the chain.
- `Workers` (workers.dfy): `download` and `install` as chains of abstract
  operations (`HttpGet`, `ReadBody`, `WriteFile`, `CreateDirAll`, `OpenFile`,
  `Unpack`, `RemoveFile`). A `World` supplies the outcome of each call.
- `Controller` (controller.dfy): asset selection, the Install click, `try_recv`
  dispatch and one repaint (`Tick`). The channel is a FIFO `inbox`. Every thread
  spawn is a `Work` record appended to `pending`.
- `Pipeline` (pipeline.dfy): the whole system as a sequence of events. An event is
  either a repaint or "pending worker `i` finished in world `w`". The module holds
  an invariant about staged files and the concrete v8-20 scenarios.

Parameters standing in for the outside world:

- The HTTP response or transport error, the body read and every file-system call
  are `World` fields.
- The home directory is `World.home`. It is `None` when `dirs::home_dir()` or
  `to_str()` yields nothing; both are unwrapped, so the thread panics.
- Which pending worker finishes next is the `index` of a `WorkerDone` event.

### Behaviour worth knowing

- A click on a release with no gzip asset still sets `Downloading` and spawns
  nothing. Suppose the channel is empty and no worker is running. Then the status
  stays `Downloading` until Install is clicked again
  (`Controller.NoMatchStillDownloading`, `Pipeline.NoMatchClickStuck`).
- No transition is guarded by the current status. `StartInstall` moves `Ready` or
  `Error` to `Installing` just as it moves `Downloading`
  (`Controller.ReceiveIgnoresStatus`).
- `reqwest::blocking::get` does not fail on an HTTP error status. A 404 page is
  staged and announced with `StartInstall`. The failure appears only when `unpack`
  rejects the file, and the staged page is left in place
  (`Workers.DownloadIgnoresStatus`, `Pipeline.NotFoundPath`).
- The receive happens only while a release is selected (src/app.rs:100).
  It runs in the same repaint as the click and after it, so a message left in the
  channel can replace `Downloading` at once (`Controller.StaleErrorReplacesClick`).
- The status label is drawn (src/app.rs:125-130) before the receive
  (src/app.rs:132) in each repaint. The label therefore lags a received message by
  one repaint: the repaint that receives a message still displays the status from
  before it.
- A failed body read (`copy_to(..).unwrap()`) or a missing home directory panics
  the worker thread. No message is sent, and the status stays where it was.

## Model

| member | source | states |
|---|---|---|
| Chain.Run | src/app.rs:192-201 | the tried calls are a prefix of the chain; the chain completes exactly when every call succeeds; otherwise the last tried call is the first failure and decides between `Err(text)` (`?`) and a panic (`unwrap`) |
| Chain.AttemptedIffEarlierPass | src/app.rs:192-199 | a call is made exactly when every call before it succeeded |
| Workers.StagingPath | src/app.rs:171 | the staging path of an asset is `/tmp/` followed by the asset's name |
| Workers.StagingRoundTrip | src/app.rs:171 | the staging path `/tmp/` + name gives back the asset name, so distinct names give distinct path strings |
| Workers.StagedNameRoundTrip | src/app.rs:171 | any path recognised as staged is the staging path of the name read from it |
| Workers.InstallTarget | src/app.rs:188-191 | the install target is the home directory followed by `/.steam/root/compatibilitytools.d/` |
| Workers.InstallTargetRoundTrip | src/app.rs:188-191 | the install target is the home directory followed by `/.steam/root/compatibilitytools.d/`, and the home directory can be read back from it |
| Workers.TargetHomeRoundTrip | src/app.rs:188-191 | any directory recognised as an install target is the target of the home directory read from it |
| Workers.Settle | src/app.rs:179 | what a worker thread sends when its chain ends: `Ok` of its success message when every call succeeded, `Err(text)` when a `?` call failed, nothing when an `unwrap` panicked |
| Workers.DownloadChain | src/app.rs:173-177 | the download's calls in order: GET the url (`?`), read the body (`unwrap`), write the body to the staging path (`?`) |
| Workers.Download | src/app.rs:170-180 | the calls made are a prefix of GET, read body, write body to `/tmp/` + name, in that order; sends `StartInstall("/tmp/" + name)` exactly when the request, the read and the write succeed; a transport error or failed write is sent as `Err` with its text; a failed read panics and sends nothing; the file is written only after request and read succeeded, and it holds the response body |
| Workers.DownloadIgnoresStatus | src/app.rs:173 | the HTTP status of the response does not change what the download does or sends |
| Workers.InstallChain | src/app.rs:192-199 | the install's calls in order, all handled by `?`: create the target directory, open the staged file, unpack it into the target, remove it |
| Workers.InstallChainRun | src/app.rs:192-201 | the install calls are tried in order create-dir, open, unpack, remove; the first failing call ends the chain with its own error text, and the chain completes only if all four succeed |
| Workers.Install | src/app.rs:182-202 | panics without a home directory; otherwise makes create-dir, open, unpack, remove in that order, stops at the first failure and sends its text; `InstallSuccess` exactly when all four succeed; the staged file is removed only after create, open and unpack succeeded |
| Controller.SelectAssets | src/app.rs:109-121 | the selected assets all have content type `application/gzip`, each gzip asset occurs as often as in the release, and they keep release order (a subsequence) |
| Controller.SelectKeepsEveryInstallable | src/app.rs:111-121 | every gzip asset of the release is selected |
| Controller.ClickInstall | src/app.rs:108-123 | the click sets the status to `Downloading` from any status and spawns exactly one download per selected asset, in order, with that asset's name and url; the inbox is untouched |
| Controller.ClickIgnoresStatus | src/app.rs:108-123 | the click's effect does not depend on the prior status; an old error text is dropped |
| Controller.NoMatchStillDownloading | src/app.rs:111-122 | with no gzip asset the click still sets the status to `Downloading` and spawns nothing |
| Controller.Receive | src/app.rs:132-147 | an empty inbox changes nothing; otherwise the first message leaves: `StartInstall(f)` sets the status to `Installing` and spawns one install of exactly `f`; `InstallSuccess` sets it to `Ready` and spawns nothing; `Err(e)` sets it to `Error(e)` verbatim |
| Controller.ReceiveIgnoresStatus | src/app.rs:132-147 | the received message alone decides the next state; the prior status plays no part |
| Controller.Tick | src/app.rs:100-148 | with no selected release nothing happens; otherwise the click is handled before the single receive, and at most one message leaves the front of the inbox |
| Controller.IdleLastWriteWins | src/app.rs:132-147 | receiving k messages takes them in send order, leaves the status the last one sets (an error text is replaced, never appended) and spawns one install per `StartInstall` among them, in order |
| Controller.IdleWhenEmpty | src/app.rs:132 | repaints with an empty inbox change nothing |
| Controller.IdleBeyondInbox | src/app.rs:132 | more repaints than queued messages receive all of them and then change nothing more |
| Controller.StaleErrorReplacesClick | src/app.rs:108-147 | an error still queued when Install is clicked replaces `Downloading` in the same repaint; the label drawn in that repaint still reads `Downloading` |
| Pipeline.Step | src/app.rs:114-119 | a finishing worker leaves the pending set and only appends its message to the back of the inbox; the status is written only by the window |
| Pipeline.RepaintsDrain | src/app.rs:125-148 | k repaints of a selected release without a click are the controller receiving once per repaint, so the last-write-wins result applies to the running window |
| Pipeline.Perform | src/app.rs:114-119 | a spawned thread runs its worker: a download can only announce the staging path of its own asset, an install can only report `InstallSuccess` |
| Pipeline.PerformAnnouncesStaged | src/app.rs:170-180 | a worker only ever announces a path that begins with `/tmp/` |
| Pipeline.StepKeepsStagedOnly | src/app.rs:134-140 | every spawned install, and every queued `StartInstall`, names a path that begins with `/tmp/`, and each event keeps it so |
| Pipeline.RunKeepsStagedOnly | src/app.rs:134-140 | the staged-file invariant holds after any sequence of events |
| Pipeline.InitialStagedOnly | src/app.rs:30-43 | the initial state (`Ready`, empty channel, no threads) satisfies the staged-file invariant |
| Pipeline.QuietStaysPut | src/app.rs:108-148 | with an empty channel and no worker running, any events without an Install click leave the state as it is |
| Pipeline.NoMatchClickStuck | src/app.rs:108-123 | a click on a release without gzip assets, from an empty channel and no running worker, leaves the status `Downloading` for good unless Install is clicked again |
| Pipeline.DownloadThenReceive | src/app.rs:134-140 | a successful download received on the next repaint sets the status to `Installing` and spawns one install of that asset's staging path |
| Pipeline.FailedRequestNoInstall | src/app.rs:173 | a download whose request fails sets the status to its error text on the next repaint and no install is spawned |
| Pipeline.ClickV820 | src/app.rs:108-123 | clicking Install on v8-20 (a gzip archive and a checksum file) spawns one download, for the archive |
| Pipeline.DownloadV820 | src/app.rs:170-180 | the v8-20 download announces `/tmp/proton-ge-8-20.tar.gz` whatever the HTTP status |
| Pipeline.ReceiveAnnounced | src/app.rs:134-140 | receiving that announcement sets the status to `Installing` and spawns its install |
| Pipeline.ClickDownloadReceive | src/app.rs:108-140 | click, download and receive end in `Installing` with one install of the staged archive pending |
| Pipeline.InstallAllGood | src/app.rs:182-202 | with every call succeeding, the v8-20 install creates the target, opens, unpacks into the target and removes the staged archive, then reports success |
| Pipeline.HappyPath | src/app.rs:141-143 | after the install succeeds the next repaint sets the status to `Ready` with nothing left running |
| Pipeline.NotFoundPath | src/app.rs:194-197 | when unpacking the staged 404 page fails, the status is set to the unpack error's text and the staged file is not removed |

## Left out

- Rendering: the egui panels, the filter box, the release list, the status label
  and the scroll arithmetic (src/app.rs:68-99, 125-130, 151-165). This is UI work
  and floating-point arithmetic.
- Real threads and `std::sync::mpsc`. The channel is an ordered inbox and spawns
  are pending records. Any pending worker may finish next. No finer interleaving
  is modelled.
- The ignored result of `send.send`. The receiver lives as long as the window, so
  a send never fails while the model runs.
- `reqwest`, gzip/tar decoding, the file system and `dirs::home_dir`. These are
  foreign libraries, so each call is an abstract outcome. The archive's contents
  and the files unpacked are not modelled.
- `Release::fetch_metadata` and the `api` module. They are not part of this
  model, and a `Release` is a plain value here.
- src/main.rs, which only starts the window.
- Path normalisation. Paths are plain strings, so `.`, `..` and repeated `/` are
  not resolved. An asset name such as `../x` gives a path string that begins with
  `/tmp/` but names a file outside it (src/app.rs:171 does not check the name).
- Pipeline.Step: a `WorkerDone` event whose index names no pending worker changes
  nothing. That case is an artefact of the event encoding and has no counterpart
  in the code.
