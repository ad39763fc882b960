/**
 The whole install pipeline of src/app.rs as one sequential system: repaints of
 the window drive the controller, and a spawned worker thread finishing appends
 what it sent to the end of the inbox. Thread scheduling is the choice of which
 pending worker finishes next; the outcomes of its foreign calls are the `World`.
 */
module Pipeline {
  import opened Protocol
  import opened Chain
  import opened Workers
  import opened Controller

  datatype Event =
    | Ui(frame: Frame)                       // one repaint of the window
    | WorkerDone(index: nat, world: World)   // pending worker `index` ran to its end

  /**
   Runs the function a spawned thread was given. A download can only announce the
   staging path of its own asset, and an install can only report success.
   */
  function Perform(work: Work, w: World): (r: WorkerRun)
    ensures work.DownloadJob? && r.reply.Some? && r.reply.value.Ok? ==>
              r.reply.value.value == StartInstall(StagingPath(work.name))
    ensures work.InstallJob? && r.reply.Some? && r.reply.value.Ok? ==>
              r.reply.value.value == InstallSuccess
  {
    match work
    case DownloadJob(name, url) => Download(name, url, w)
    case InstallJob(filename) => Install(filename, w)
  }

  /** What lands in the channel: the one message sent, or nothing after a panic. */
  function Sent(reply: Option<Result<Message>>): seq<Result<Message>>
  {
    match reply
    case Some(m) => [m]
    case None => []
  }

  /**
   One event. A finishing worker leaves `pending`, its message (if any) joins the
   back of the inbox, and the status is untouched: only the controller writes it.
   An index naming no pending worker changes nothing.
   */
  function Step(app: App, e: Event): (next: App)
    ensures e.Ui? ==> next == Tick(app, e.frame)
    ensures e.WorkerDone? ==> next.status == app.status
    ensures e.WorkerDone? && e.index < |app.pending| ==>
              && next.inbox == app.inbox + Sent(Perform(app.pending[e.index], e.world).reply)
              && next.pending == app.pending[..e.index] + app.pending[e.index + 1..]
  {
    match e
    case Ui(frame) => Tick(app, frame)
    case WorkerDone(i, w) =>
      if i < |app.pending| then
        App(app.status, app.inbox + Sent(Perform(app.pending[i], w).reply), app.pending[..i] + app.pending[i + 1..])
      else app
  }

  function RunEvents(app: App, events: seq<Event>): App
    decreases |events|
  {
    if |events| == 0 then app else RunEvents(Step(app, events[0]), events[1..])
  }

  lemma RunTwo(app: App, e1: Event, e2: Event)
    ensures RunEvents(app, [e1, e2]) == Step(Step(app, e1), e2)
  {
    var a1 := Step(app, e1);
    assert [e1, e2][1..] == [e2];
    assert RunEvents(app, [e1, e2]) == RunEvents(a1, [e2]);
    assert [e2][1..] == [];
    assert RunEvents(a1, [e2]) == RunEvents(Step(a1, e2), []);
  }

  lemma RunThree(app: App, e1: Event, e2: Event, e3: Event)
    ensures RunEvents(app, [e1, e2, e3]) == Step(Step(Step(app, e1), e2), e3)
  {
    assert [e1, e2, e3][1..] == [e2, e3];
    RunTwo(Step(app, e1), e2, e3);
  }

  /** `k` repaints of the selected release `release` without a click. */
  function Repaints(release: Release, k: nat): seq<Event>
  {
    seq(k, _ => Ui(Selected(release, false)))
  }

  /**
   Repainting with a release selected is exactly the controller draining its
   inbox one message per repaint, so the last-write-wins result about `Idle`
   holds of the running system.
   */
  lemma {:induction false} RepaintsDrain(app: App, release: Release, k: nat)
    decreases k
    ensures RunEvents(app, Repaints(release, k)) == Idle(app, k)
  {
    if k > 0 {
      assert Repaints(release, k)[0] == Ui(Selected(release, false));
      assert Repaints(release, k)[1..] == Repaints(release, k - 1);
      assert Step(app, Ui(Selected(release, false))) == Receive(app);
      RepaintsDrain(Receive(app), release, k - 1);
    }
  }

  /**
   Every install the pipeline has spawned, and every `StartInstall` waiting in the
   inbox, names a path that begins with `/tmp/`.
   */
  ghost predicate StagedOnly(app: App)
  {
    && (forall i :: 0 <= i < |app.pending| && app.pending[i].InstallJob? ==>
          StagedName(app.pending[i].filename).Some?)
    && (forall i :: 0 <= i < |app.inbox| && app.inbox[i].Ok? && app.inbox[i].value.StartInstall? ==>
          StagedName(app.inbox[i].value.filename).Some?)
  }

  /** A worker only ever announces a path that begins with `/tmp/`. */
  lemma PerformAnnouncesStaged(work: Work, w: World)
    ensures forall m :: m in Sent(Perform(work, w).reply) && m.Ok? && m.value.StartInstall? ==>
              StagedName(m.value.filename).Some?
  {
    if work.DownloadJob? {
      StagingRoundTrip(work.name);
    }
  }

  lemma ClickKeepsStagedOnly(app: App, release: Release)
    requires StagedOnly(app)
    ensures StagedOnly(ClickInstall(app, release))
  {
    var next := ClickInstall(app, release);
    forall i | |app.pending| <= i < |next.pending|
      ensures next.pending[i].DownloadJob?
    {
    }
    forall i | 0 <= i < |app.pending|
      ensures next.pending[i] == app.pending[i]
    {
      assert next.pending[..|app.pending|][i] == next.pending[i];
    }
  }

  lemma ReceiveKeepsStagedOnly(app: App)
    requires StagedOnly(app)
    ensures StagedOnly(Receive(app))
  {
    if |app.inbox| > 0 {
      assert app.inbox[0] in app.inbox;
    }
  }

  lemma FinishKeepsStagedOnly(app: App, i: nat, w: World)
    requires StagedOnly(app) && i < |app.pending|
    ensures StagedOnly(Step(app, WorkerDone(i, w)))
  {
    var sent := Sent(Perform(app.pending[i], w).reply);
    PerformAnnouncesStaged(app.pending[i], w);
    var next := Step(app, WorkerDone(i, w));
    assert next.inbox == app.inbox + sent;
    forall j | 0 <= j < |next.inbox| && next.inbox[j].Ok? && next.inbox[j].value.StartInstall?
      ensures StagedName(next.inbox[j].value.filename).Some?
    {
      if j >= |app.inbox| {
        assert next.inbox[j] == sent[j - |app.inbox|];
      }
    }
    forall k | 0 <= k < |next.pending| && next.pending[k].InstallJob?
      ensures StagedName(next.pending[k].filename).Some?
    {
      if k < i {
        assert next.pending[k] == app.pending[k];
      } else {
        assert next.pending[k] == app.pending[k + 1];
      }
    }
  }

  lemma StepKeepsStagedOnly(app: App, e: Event)
    requires StagedOnly(app)
    ensures StagedOnly(Step(app, e))
  {
    match e
    case Ui(frame) =>
      if frame.Selected? {
        if frame.installClicked {
          ClickKeepsStagedOnly(app, frame.release);
          ReceiveKeepsStagedOnly(ClickInstall(app, frame.release));
        } else {
          ReceiveKeepsStagedOnly(app);
        }
      }
    case WorkerDone(i, w) =>
      if i < |app.pending| {
        FinishKeepsStagedOnly(app, i, w);
      }
  }

  /**
   From any state satisfying the invariant (the initial one among them), every
   install spawned by any run of events names a path that begins with `/tmp/`.
   */
  lemma {:induction false} RunKeepsStagedOnly(app: App, events: seq<Event>)
    requires StagedOnly(app)
    decreases |events|
    ensures StagedOnly(RunEvents(app, events))
  {
    if |events| > 0 {
      StepKeepsStagedOnly(app, events[0]);
      RunKeepsStagedOnly(Step(app, events[0]), events[1..]);
    }
  }

  lemma InitialStagedOnly()
    ensures StagedOnly(Initial)
  {
  }

  /** The event is not a click on Install. */
  predicate NoClick(e: Event)
  {
    !(e.Ui? && e.frame.Selected? && e.frame.installClicked)
  }

  /** With nothing queued and nothing running, events without a click change nothing. */
  lemma {:induction false} QuietStaysPut(status: InstallStatus, events: seq<Event>)
    requires forall i :: 0 <= i < |events| ==> NoClick(events[i])
    decreases |events|
    ensures RunEvents(App(status, [], []), events) == App(status, [], [])
  {
    if |events| > 0 {
      assert NoClick(events[0]);
      assert Step(App(status, [], []), events[0]) == App(status, [], []);
      QuietStaysPut(status, events[1..]);
    }
  }

  /**
   Clicking Install on a release without gzip assets, with nothing queued and
   nothing running, leaves the status `Downloading` for good unless Install is
   clicked again.
   */
  lemma NoMatchClickStuck(status: InstallStatus, release: Release, events: seq<Event>)
    requires forall a :: a in release.assets ==> !Installable(a)
    requires forall i :: 0 <= i < |events| ==> NoClick(events[i])
    ensures RunEvents(App(status, [], []), [Ui(Selected(release, true))] + events) == App(Downloading, [], [])
  {
    NoMatchStillDownloading(App(status, [], []), release);
    assert Step(App(status, [], []), Ui(Selected(release, true))) == App(Downloading, [], []);
    assert ([Ui(Selected(release, true))] + events)[1..] == events;
    QuietStaysPut(Downloading, events);
  }

  /**
   A download that succeeds, received on the next repaint with nothing queued
   before it, sets the status to `Installing` and spawns exactly one install of the staging
   path of that asset.
   */
  lemma DownloadThenReceive(app: App, i: nat, w: World, release: Release)
    requires |app.inbox| == 0 && i < |app.pending| && app.pending[i].DownloadJob?
    requires w.fetch.Response? && w.readBody.Pass? && w.write.Pass?
    ensures var next := Step(Step(app, WorkerDone(i, w)), Ui(Selected(release, false)));
            && next.status == Installing
            && next.inbox == []
            && next.pending == app.pending[..i] + app.pending[i + 1..] + [InstallJob(StagingPath(app.pending[i].name))]
  {
  }

  /** A download whose request fails is reported as an error and no install is ever spawned for it. */
  lemma FailedRequestNoInstall(app: App, i: nat, w: World, release: Release)
    requires |app.inbox| == 0 && i < |app.pending| && app.pending[i].DownloadJob?
    requires w.fetch.TransportError?
    ensures var next := Step(Step(app, WorkerDone(i, w)), Ui(Selected(release, false)));
            && next.status == Error(w.fetch.reason)
            && next.pending == app.pending[..i] + app.pending[i + 1..]
  {
  }

  const Archive: Asset := Asset("proton-ge-8-20.tar.gz", "https://example.invalid/proton-ge-8-20.tar.gz", "application/gzip")
  const Checksum: Asset := Asset("proton-ge-8-20.sha512sum", "https://example.invalid/proton-ge-8-20.sha512sum", "application/octet-stream")
  const V820: Release := Release("v8-20", "release notes", "https://example.invalid/v8-20", [Archive, Checksum])
  const Home: string := "/home/user"

  const AllGood: World :=
    World(Response(200, [31, 139]), Pass, Pass, Some(Home), Pass, Pass, Pass, Pass)

  const Staged: string := "/tmp/proton-ge-8-20.tar.gz"
  const Target: string := "/home/user/.steam/root/compatibilitytools.d/"
  const Clicked: App := App(Downloading, [], [DownloadJob(Archive.name, Archive.browserDownloadUrl)])
  const Announced: App := App(Downloading, [Ok(StartInstall(Staged))], [])
  const Unpacking: App := App(Installing, [], [InstallJob(Staged)])

  /** Clicking Install on v8-20 spawns one download, for the archive only. */
  lemma ClickV820()
    ensures Step(Initial, Ui(Selected(V820, true))) == Clicked
  {
    assert SelectAssets(V820.assets) == [Archive] by {
      assert V820.assets[1..] == [Checksum];
      assert SelectAssets([Checksum]) == [];
    }
  }

  /** Whatever status code the server answers with, a completed download announces the staged archive. */
  lemma DownloadV820(w: World)
    requires w.fetch.Response? && w.readBody.Pass? && w.write.Pass?
    ensures Step(Clicked, WorkerDone(0, w)) == Announced
  {
    ArchiveStaged();
    var reply := Perform(Clicked.pending[0], w).reply;
    assert reply == Some(Ok(StartInstall(Staged)));
    assert Sent(reply) == [Ok(StartInstall(Staged))];
  }

  lemma ArchiveStaged()
    ensures StagingPath(Archive.name) == Staged
  {
  }

  lemma ReceiveAnnounced()
    ensures Step(Announced, Ui(Selected(V820, false))) == Unpacking
  {
  }

  /** Click, download (with any status code), receive: the archive is being installed. */
  lemma ClickDownloadReceive(w: World)
    requires w.fetch.Response? && w.readBody.Pass? && w.write.Pass?
    ensures RunEvents(Initial, [Ui(Selected(V820, true)), WorkerDone(0, w), Ui(Selected(V820, false))]) == Unpacking
  {
    ClickV820();
    DownloadV820(w);
    ReceiveAnnounced();
    RunThree(Initial, Ui(Selected(V820, true)), WorkerDone(0, w), Ui(Selected(V820, false)));
  }

  lemma HomeTarget()
    ensures InstallTarget(Home) == Target
  {
    assert Target == Home + CompatToolsDir;
  }

  /** With every call succeeding, the install makes its four calls in order and reports success. */
  lemma InstallAllGood()
    ensures Install(Staged, AllGood).attempted == InstallOps(Staged, Target)
    ensures Install(Staged, AllGood).reply == Some(Ok(InstallSuccess))
  {
    HomeTarget();
  }

  /** After the install succeeds, the next repaint sets the status to `Ready` and nothing is left running. */
  lemma HappyPath()
    ensures RunEvents(Unpacking, [WorkerDone(0, AllGood), Ui(Selected(V820, false))]) == App(Ready, [], [])
  {
    InstallAllGood();
    assert Step(Unpacking, WorkerDone(0, AllGood)) == App(Installing, [Ok(InstallSuccess)], []);
    RunTwo(Unpacking, WorkerDone(0, AllGood), Ui(Selected(V820, false)));
  }

  /**
   The server answers 404. The request itself does not fail, so the error page is
   staged and an install is spawned (`ClickDownloadReceive` holds of this world).
   When unpacking the staged page then fails, the status is set to the unpack
   error's text and the staged page is not removed.
   */
  const NotFound: World :=
    World(Response(404, [78, 111, 116]), Pass, Pass, Some(Home), Pass, Pass, Fail("invalid gzip header"), Pass)

  lemma NotFoundPath()
    ensures RunEvents(Unpacking, [WorkerDone(0, NotFound), Ui(Selected(V820, false))]) == App(Error("invalid gzip header"), [], [])
    ensures RemoveFile(Staged) !in Install(Staged, NotFound).attempted
  {
    assert Install(Staged, NotFound).reply == Some(Err("invalid gzip header"));
    assert Step(Unpacking, WorkerDone(0, NotFound)) == App(Installing, [Err("invalid gzip header")], []);
    RunTwo(Unpacking, WorkerDone(0, NotFound), Ui(Selected(V820, false)));
  }
}
