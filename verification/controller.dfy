/**
 The install controller inside `ProtonGEManager::update` (src/app.rs): the status
 the window displays, the Install click that starts one download per gzip asset, and
 the once-per-frame `try_recv` that moves the status on. The channel is a FIFO
 inbox and every thread spawn is a `Work` record appended to `pending`.
 */
module Controller {
  import opened Protocol

  datatype Asset = Asset(name: string, browserDownloadUrl: string, contentType: string)

  datatype Release = Release(tagName: string, body: string, htmlUrl: string, assets: seq<Asset>)

  datatype InstallStatus = Ready | Downloading | Installing | Error(message: string)

  /** A spawned worker thread, by the function it runs and its arguments. */
  datatype Work = DownloadJob(name: string, url: string) | InstallJob(filename: string)

  /**
   The controller's state: the status, the messages sent but not yet received, in
   send order, and the worker threads spawned and not yet finished.
   */
  datatype App = App(status: InstallStatus, inbox: seq<Result<Message>>, pending: seq<Work>)

  /**
   What one repaint sees: no selected release (the Install button and the receive
   are not reached), or a selected release and whether Install was clicked.
   */
  datatype Frame = NoSelection | Selected(release: Release, installClicked: bool)

  const GzipContentType: string := "application/gzip"

  const Initial: App := App(Ready, [], [])

  predicate Installable(a: Asset)
  {
    a.contentType == GzipContentType
  }

  /** `xs` can be obtained from `ys` by deleting elements. */
  predicate IsSubsequence<T(==)>(xs: seq<T>, ys: seq<T>)
    decreases |ys|
  {
    if |xs| == 0 then true
    else if |ys| == 0 then false
    else if xs[0] == ys[0] then IsSubsequence(xs[1..], ys[1..])
    else IsSubsequence(xs, ys[1..])
  }

  /**
   The assets the Install click downloads: exactly the gzip ones, each as often as
   it occurs in the release, in release order.
   */
  function SelectAssets(assets: seq<Asset>): (selected: seq<Asset>)
    ensures forall a :: a in selected ==> Installable(a)
    ensures forall a :: multiset(selected)[a] == if Installable(a) then multiset(assets)[a] else 0
    ensures IsSubsequence(selected, assets)
  {
    if |assets| == 0 then []
    else
      var rest := SelectAssets(assets[1..]);
      assert assets == [assets[0]] + assets[1..];
      if Installable(assets[0]) then [assets[0]] + rest else rest
  }

  /** Every gzip asset of the release is downloaded. */
  lemma SelectKeepsEveryInstallable(assets: seq<Asset>, a: Asset)
    requires a in assets && Installable(a)
    ensures a in SelectAssets(assets)
  {
    assert multiset(assets)[a] > 0;
  }

  function DownloadJobs(selected: seq<Asset>): seq<Work>
  {
    seq(|selected|, i requires 0 <= i < |selected| => DownloadJob(selected[i].name, selected[i].browserDownloadUrl))
  }

  /**
   The Install click: one download thread per selected asset, in release order,
   and the status becomes `Downloading` whatever it was and however many assets
   matched. The inbox is not touched.
   */
  function ClickInstall(app: App, release: Release): (next: App)
    ensures next.status == Downloading
    ensures next.inbox == app.inbox
    ensures |next.pending| == |app.pending| + |SelectAssets(release.assets)|
    ensures next.pending[..|app.pending|] == app.pending
    ensures forall i :: 0 <= i < |SelectAssets(release.assets)| ==>
              var a := SelectAssets(release.assets)[i];
              next.pending[|app.pending| + i] == DownloadJob(a.name, a.browserDownloadUrl)
  {
    App(Downloading, app.inbox, app.pending + DownloadJobs(SelectAssets(release.assets)))
  }

  /**
   `try_recv`: with an empty inbox nothing changes; otherwise the first message is
   removed and decides the status on its own: `StartInstall(f)` spawns one install
   of `f` and sets the status to `Installing`, `InstallSuccess` sets it to `Ready`,
   and an error sets it to `Error` with the error's text verbatim.
   */
  function Receive(app: App): (next: App)
    ensures |app.inbox| == 0 ==> next == app
    ensures |app.inbox| > 0 ==> next.inbox == app.inbox[1..]
    ensures |app.inbox| > 0 && app.inbox[0].Ok? && app.inbox[0].value.StartInstall? ==>
              next.status == Installing && next.pending == app.pending + [InstallJob(app.inbox[0].value.filename)]
    ensures |app.inbox| > 0 && app.inbox[0] == Ok(InstallSuccess) ==>
              next.status == Ready && next.pending == app.pending
    ensures |app.inbox| > 0 && app.inbox[0].Err? ==>
              next.status == Error(app.inbox[0].error) && next.pending == app.pending
  {
    if |app.inbox| == 0 then app
    else
      var rest := app.inbox[1..];
      match app.inbox[0]
      case Ok(StartInstall(filename)) => App(Installing, rest, app.pending + [InstallJob(filename)])
      case Ok(InstallSuccess) => App(Ready, rest, app.pending)
      case Err(e) => App(Error(e), rest, app.pending)
  }

  /**
   One repaint. Without a selected release nothing happens; with one, the click
   (if any) is handled before the single receive, and at most one message leaves
   the front of the inbox.
   */
  function Tick(app: App, frame: Frame): (next: App)
    ensures frame.NoSelection? ==> next == app
    ensures frame.Selected? ==> next == Receive(if frame.installClicked then ClickInstall(app, frame.release) else app)
    ensures next.inbox == app.inbox || (|app.inbox| > 0 && next.inbox == app.inbox[1..])
  {
    match frame
    case NoSelection => app
    case Selected(release, clicked) =>
      Receive(if clicked then ClickInstall(app, release) else app)
  }

  /** The status a message leaves behind, whatever the status was before. */
  function StatusAfter(m: Result<Message>): InstallStatus
  {
    match m
    case Ok(StartInstall(_)) => Installing
    case Ok(InstallSuccess) => Ready
    case Err(e) => Error(e)
  }

  /** The install thread one message spawns, if any. */
  function InstallJobsOf(m: Result<Message>): seq<Work>
  {
    match m
    case Ok(StartInstall(f)) => [InstallJob(f)]
    case _ => []
  }

  /** The install threads a run of messages spawns: one per `StartInstall`, in order. */
  function InstallJobsFor(msgs: seq<Result<Message>>): seq<Work>
  {
    if |msgs| == 0 then [] else InstallJobsOf(msgs[0]) + InstallJobsFor(msgs[1..])
  }

  /** `k` repaints with a release selected and no click. */
  function Idle(app: App, k: nat): App
    decreases k
  {
    if k == 0 then app else Idle(Receive(app), k - 1)
  }

  /** No transition looks at the current status: only the message decides. */
  lemma ReceiveIgnoresStatus(app: App, s: InstallStatus)
    requires |app.inbox| > 0
    ensures Receive(app) == Receive(app.(status := s))
    ensures Receive(app) == App(StatusAfter(app.inbox[0]), app.inbox[1..], app.pending + InstallJobsOf(app.inbox[0]))
  {
  }

  /** The click does not look at the current status either; an old error is dropped. */
  lemma ClickIgnoresStatus(app: App, s: InstallStatus, release: Release)
    ensures ClickInstall(app, release) == ClickInstall(app.(status := s), release)
  {
  }

  /**
   A click on a release without gzip assets still sets the status to `Downloading`
   and spawns nothing. Afterwards only a message already queued, a message from a
   worker spawned earlier, or another Install click can move the status on.
   */
  lemma NoMatchStillDownloading(app: App, release: Release)
    requires forall a :: a in release.assets ==> !Installable(a)
    ensures ClickInstall(app, release).status == Downloading
    ensures ClickInstall(app, release).pending == app.pending
  {
  }

  /**
   Draining `k` messages by repainting: they leave in send order, the status is
   the one the last of them sets (last write wins, an error text is replaced and
   never appended), and one install is spawned per `StartInstall` among them.
   */
  lemma {:induction false} IdleLastWriteWins(app: App, k: nat)
    requires 0 < k <= |app.inbox|
    decreases k
    ensures Idle(app, k) == App(StatusAfter(app.inbox[k - 1]), app.inbox[k..], app.pending + InstallJobsFor(app.inbox[..k]))
  {
    var next := Receive(app);
    ReceiveFirst(app);
    assert Idle(app, k) == Idle(next, k - 1);
    if k == 1 {
      InstallJobsForOne(app.inbox);
      assert Idle(next, 0) == next;
    } else {
      IdleLastWriteWins(next, k - 1);
      assert next.inbox[k - 2] == app.inbox[k - 1];
      assert next.inbox[k - 1..] == app.inbox[k..];
      InstallJobsForStep(app, k);
    }
  }

  /** What receiving the first message does, as one value. */
  lemma ReceiveFirst(app: App)
    requires |app.inbox| > 0
    ensures Receive(app) == App(StatusAfter(app.inbox[0]), app.inbox[1..], app.pending + InstallJobsOf(app.inbox[0]))
  {
  }

  lemma InstallJobsForOne(msgs: seq<Result<Message>>)
    requires 0 < |msgs|
    ensures InstallJobsFor(msgs[..1]) == InstallJobsOf(msgs[0])
  {
    assert msgs[..1][1..] == [];
  }

  /** The installs spawned by the first `k` messages: the first one's, then those of the next `k - 1`. */
  lemma InstallJobsForStep(app: App, k: nat)
    requires 1 < k <= |app.inbox|
    ensures app.pending + InstallJobsFor(app.inbox[..k])
            == Receive(app).pending + InstallJobsFor(Receive(app).inbox[..k - 1])
  {
    var next := Receive(app);
    ReceiveFirst(app);
    InstallJobsForOne(app.inbox);
    assert app.inbox[..k] == app.inbox[..1] + next.inbox[..k - 1];
    InstallJobsForAppend(app.inbox[..1], next.inbox[..k - 1]);
  }

  lemma {:induction false} InstallJobsForAppend(xs: seq<Result<Message>>, ys: seq<Result<Message>>)
    ensures InstallJobsFor(xs + ys) == InstallJobsFor(xs) + InstallJobsFor(ys)
  {
    if |xs| > 0 {
      assert (xs + ys)[1..] == xs[1..] + ys;
      InstallJobsForAppend(xs[1..], ys);
    } else {
      assert xs + ys == ys;
    }
  }

  /** Repainting with an empty inbox changes nothing. */
  lemma {:induction false} IdleWhenEmpty(app: App, k: nat)
    requires |app.inbox| == 0
    decreases k
    ensures Idle(app, k) == app
  {
    if k > 0 {
      IdleWhenEmpty(Receive(app), k - 1);
    }
  }

  /** Repainting `a` times and then `b` times is repainting `a + b` times. */
  lemma {:induction false} IdleSplit(app: App, a: nat, b: nat)
    decreases a
    ensures Idle(app, a + b) == Idle(Idle(app, a), b)
  {
    if a > 0 {
      IdleSplit(Receive(app), a - 1, b);
    }
  }

  /**
   Repainting more often than there are messages receives all of them and then
   changes nothing more.
   */
  lemma IdleBeyondInbox(app: App, k: nat)
    requires |app.inbox| <= k
    ensures Idle(app, k) == Idle(app, |app.inbox|)
    ensures Idle(app, k).inbox == []
  {
    var n := |app.inbox|;
    IdleSplit(app, n, k - n);
    if n > 0 {
      IdleLastWriteWins(app, n);
    }
    IdleWhenEmpty(Idle(app, n), k - n);
  }

  /**
   A message still in the inbox when Install is clicked is received in the same
   repaint, so the click's `Downloading` is replaced before that repaint ends. The
   label drawn in that repaint (before the receive) still reads `Downloading`.
   */
  lemma StaleErrorReplacesClick(app: App, release: Release, e: string)
    requires |app.inbox| > 0 && app.inbox[0] == Err(e)
    ensures Tick(app, Selected(release, true)).status == Error(e)
  {
  }
}
