/**
 The two worker functions of src/app.rs, `download` and `install`. Each foreign
 call (the HTTP request, reading the body, the file-system calls) is an abstract
 operation whose outcome the `World` supplies; the worker is the fallible chain of
 those operations, and the message it sends is read off how the chain ends.
 */
module Workers {
  import opened Protocol
  import opened Chain

  /** The foreign calls the workers make, with the arguments they pass. */
  datatype Op =
    | HttpGet(url: string)
    | ReadBody
    | WriteFile(path: string, contents: seq<byte>)
    | CreateDirAll(path: string)
    | OpenFile(path: string)
    | Unpack(archive: string, into: string)
    | RemoveFile(path: string)

  /**
   What the blocking HTTP GET gives back: a response with whatever status the
   server chose, or a transport error. The status is never inspected.
   */
  datatype Fetch = Response(status: nat, body: seq<byte>) | TransportError(reason: string)

  /**
   The outcome of every foreign call a worker may make. `home` is the user's home
   directory as UTF-8 text, or `None` when either `dirs::home_dir()` or
   `to_str()` yields nothing (both are unwrapped).
   */
  datatype World = World(
    fetch: Fetch,
    readBody: Outcome,
    write: Outcome,
    home: Option<string>,
    createDir: Outcome,
    open: Outcome,
    unpack: Outcome,
    remove: Outcome)

  /** The calls a worker made, in order, and what it sent on the channel (`None`: it panicked). */
  datatype WorkerRun = WorkerRun(attempted: seq<Op>, reply: Option<Result<Message>>)

  const StagingDir: string := "/tmp/"
  const CompatToolsDir: string := "/.steam/root/compatibilitytools.d/"

  /** Where a downloaded asset is staged: the temporary directory followed by the asset's name. */
  function StagingPath(name: string): string
  {
    StagingDir + name
  }

  /** The asset name a staging path stands for, if it is one. */
  function StagedName(path: string): Option<string>
  {
    if |StagingDir| <= |path| && path[..|StagingDir|] == StagingDir
    then Some(path[|StagingDir|..])
    else None
  }

  lemma StagingRoundTrip(name: string)
    ensures StagedName(StagingPath(name)) == Some(name)
  {
    assert StagingPath(name)[..|StagingDir|] == StagingDir;
  }

  lemma StagedNameRoundTrip(path: string)
    ensures StagedName(path).Some? ==> StagingPath(StagedName(path).value) == path
  {
    if StagedName(path).Some? {
      assert path == path[..|StagingDir|] + path[|StagingDir|..];
    }
  }

  /** The directory Proton-GE is unpacked into, below the user's home directory. */
  function InstallTarget(home: string): string
  {
    home + CompatToolsDir
  }

  /** The home directory an install target belongs to, if it is one. */
  function TargetHome(dir: string): Option<string>
  {
    if |CompatToolsDir| <= |dir| && dir[|dir| - |CompatToolsDir|..] == CompatToolsDir
    then Some(dir[..|dir| - |CompatToolsDir|])
    else None
  }

  lemma InstallTargetRoundTrip(home: string)
    ensures TargetHome(InstallTarget(home)) == Some(home)
  {
    var dir := InstallTarget(home);
    assert dir[|dir| - |CompatToolsDir|..] == CompatToolsDir;
    assert dir[..|dir| - |CompatToolsDir|] == home;
  }

  lemma TargetHomeRoundTrip(dir: string)
    ensures TargetHome(dir).Some? ==> InstallTarget(TargetHome(dir).value) == dir
  {
    if TargetHome(dir).Some? {
      assert dir == dir[..|dir| - |CompatToolsDir|] + dir[|dir| - |CompatToolsDir|..];
    }
  }

  /** What the worker thread sends once its chain has ended. */
  function Settle(exit: Exit, success: Message): Option<Result<Message>>
  {
    match exit
    case Completed => Some(Ok(success))
    case Returned(reason) => Some(Err(reason))
    case Panicked => None
  }

  /** The bytes a response carries; a transport error carries none. */
  function Body(fetch: Fetch): seq<byte>
  {
    if fetch.Response? then fetch.body else []
  }

  function GetOutcome(fetch: Fetch): Outcome
  {
    if fetch.TransportError? then Fail(fetch.reason) else Pass
  }

  /** Every call `download` makes when nothing fails, in order. */
  function DownloadOps(name: string, url: string, body: seq<byte>): seq<Op>
  {
    [HttpGet(url), ReadBody, WriteFile(StagingPath(name), body)]
  }

  /** `download`: GET the url (`?`), read the whole body (`unwrap`), write it to the staging path (`?`). */
  function DownloadChain(name: string, url: string, w: World): seq<Attempt<Op>>
  {
    [ Attempt(HttpGet(url), Propagate, GetOutcome(w.fetch)),
      Attempt(ReadBody, Unwrap, w.readBody),
      Attempt(WriteFile(StagingPath(name), Body(w.fetch)), Propagate, w.write) ]
  }

  /**
   The download worker for the asset `name` at `url`. It sends `StartInstall` with
   the staging path exactly when the request, the read and the write all succeed;
   a transport error or a failed write is sent as `Err` with its text; a failed
   read panics and sends nothing. The staged file is written only after the
   request and the read succeeded, and it holds the response body.
   */
  function Download(name: string, url: string, w: World): (r: WorkerRun)
    ensures 0 < |r.attempted| <= 3 && r.attempted == DownloadOps(name, url, Body(w.fetch))[..|r.attempted|]
    ensures r.reply == Some(Ok(StartInstall(StagingPath(name)))) <==>
              w.fetch.Response? && w.readBody.Pass? && w.write.Pass?
    ensures r.reply.Some? && r.reply.value.Ok? ==> r.reply.value.value == StartInstall(StagingPath(name))
    ensures w.fetch.TransportError? ==> r.attempted == [HttpGet(url)] && r.reply == Some(Err(w.fetch.reason))
    ensures w.fetch.Response? && w.readBody.Fail? ==> r.reply.None?
    ensures w.fetch.Response? && w.readBody.Pass? && w.write.Fail? ==> r.reply == Some(Err(w.write.reason))
    ensures (exists op :: op in r.attempted && op.WriteFile?) <==> w.fetch.Response? && w.readBody.Pass?
    ensures forall op :: op in r.attempted && op.WriteFile? ==>
              op == WriteFile(StagingPath(name), w.fetch.body)
  {
    var chain := DownloadChain(name, url, w);
    var t := Run(chain);
    assert PassBefore(chain, 2) <==> chain[0].outcome.Pass? && chain[1].outcome.Pass?;
    assert PassBefore(chain, 3) <==> PassBefore(chain, 2) && chain[2].outcome.Pass?;
    AttemptedIffEarlierPass(chain, 2);
    assert 2 < |t.attempted| ==> t.attempted[2] in t.attempted && t.attempted[2].WriteFile?;
    assert |t.attempted| <= 2 ==> forall i :: 0 <= i < |t.attempted| ==> !t.attempted[i].WriteFile?;
    var ops := DownloadOps(name, url, Body(w.fetch));
    forall i | 0 <= i < |t.attempted|
      ensures t.attempted[i] == ops[i]
    {
      assert chain[i].op == ops[i];
    }
    assert t.attempted == ops[..|t.attempted|];
    WorkerRun(t.attempted, Settle(t.exit, StartInstall(StagingPath(name))))
  }

  /** Every call `install` makes when nothing fails, in order. */
  function InstallOps(filename: string, target: string): seq<Op>
  {
    [CreateDirAll(target), OpenFile(filename), Unpack(filename, target), RemoveFile(filename)]
  }

  /**
   `install`: create the target directory (`?`), open the staged file (`?`), unpack
   the gzip-compressed tar into the target (`?`), remove the staged file (`?`).
   */
  function InstallChain(filename: string, target: string, w: World): seq<Attempt<Op>>
  {
    [ Attempt(CreateDirAll(target), Propagate, w.createDir),
      Attempt(OpenFile(filename), Propagate, w.open),
      Attempt(Unpack(filename, target), Propagate, w.unpack),
      Attempt(RemoveFile(filename), Propagate, w.remove) ]
  }

  /** How the install chain runs, step by step: it stops at the first failing call. */
  lemma InstallChainRun(filename: string, target: string, w: World)
    ensures var t := Run(InstallChain(filename, target, w));
            && 0 < |t.attempted| <= 4
            && t.attempted == InstallOps(filename, target)[..|t.attempted|]
            && (RemoveFile(filename) in t.attempted <==> |t.attempted| == 4)
            && (w.createDir.Fail? ==> |t.attempted| == 1 && t.exit == Returned(w.createDir.reason))
            && (w.createDir.Pass? && w.open.Fail? ==> |t.attempted| == 2 && t.exit == Returned(w.open.reason))
            && (w.createDir.Pass? && w.open.Pass? && w.unpack.Fail? ==>
                  |t.attempted| == 3 && t.exit == Returned(w.unpack.reason))
            && (w.createDir.Pass? && w.open.Pass? && w.unpack.Pass? && w.remove.Fail? ==>
                  |t.attempted| == 4 && t.exit == Returned(w.remove.reason))
            && (w.createDir.Pass? && w.open.Pass? && w.unpack.Pass? && w.remove.Pass? ==>
                  |t.attempted| == 4 && t.exit == Completed)
  {
    var chain := InstallChain(filename, target, w);
    var t := Run(chain);
    var ops := InstallOps(filename, target);
    assert chain[0].outcome == w.createDir && chain[1].outcome == w.open;
    assert chain[2].outcome == w.unpack && chain[3].outcome == w.remove;
    if w.createDir.Pass? && w.open.Pass? && w.unpack.Pass? && w.remove.Pass? {
      forall i | 0 <= i < 4
        ensures chain[i].outcome.Pass?
      {
        if i == 0 {} else if i == 1 {} else if i == 2 {} else {}
      }
      assert t.exit.Completed?;
    } else {
      assert !PassBefore(chain, 4);
      var last := |t.attempted| - 1;
      assert chain[last].outcome.Fail?;
      if last >= 1 { assert chain[0].outcome.Pass?; }
      if last >= 2 { assert chain[1].outcome.Pass?; }
      if last >= 3 { assert chain[2].outcome.Pass?; }
    }
    forall i | 0 <= i < |t.attempted|
      ensures t.attempted[i] == ops[i]
    {
      assert chain[i].op == ops[i];
    }
    assert t.attempted == ops[..|t.attempted|];
    assert RemoveFile(filename) in t.attempted ==> t.attempted[|t.attempted| - 1] == ops[3];
  }

  /**
   The install worker for the staged file `filename`. Without a home directory it
   panics before touching the file system. Otherwise it tries the steps in order,
   stops at the first failure and sends that step's error text; it sends
   `InstallSuccess` exactly when all four steps succeed. The staged file is
   removed only after the directory, the open and the unpack all succeeded.
   */
  function Install(filename: string, w: World): (r: WorkerRun)
    ensures r.reply.None? <==> w.home.None?
    ensures w.home.None? ==> r.attempted == []
    ensures w.home.Some? ==>
              0 < |r.attempted| <= 4 && r.attempted == InstallOps(filename, InstallTarget(w.home.value))[..|r.attempted|]
    ensures r.reply == Some(Ok(InstallSuccess)) <==>
              w.home.Some? && w.createDir.Pass? && w.open.Pass? && w.unpack.Pass? && w.remove.Pass?
    ensures r.reply.Some? && r.reply.value.Ok? ==> r.reply.value.value == InstallSuccess
    ensures RemoveFile(filename) in r.attempted <==>
              w.home.Some? && w.createDir.Pass? && w.open.Pass? && w.unpack.Pass?
    ensures w.home.Some? && w.createDir.Fail? ==>
              |r.attempted| == 1 && r.reply == Some(Err(w.createDir.reason))
    ensures w.home.Some? && w.createDir.Pass? && w.open.Fail? ==>
              |r.attempted| == 2 && r.reply == Some(Err(w.open.reason))
    ensures w.home.Some? && w.createDir.Pass? && w.open.Pass? && w.unpack.Fail? ==>
              |r.attempted| == 3 && r.reply == Some(Err(w.unpack.reason))
    ensures w.home.Some? && w.createDir.Pass? && w.open.Pass? && w.unpack.Pass? && w.remove.Fail? ==>
              |r.attempted| == 4 && r.reply == Some(Err(w.remove.reason))
    ensures w.home.Some? && w.createDir.Pass? && w.open.Pass? && w.unpack.Pass? && w.remove.Pass? ==>
              r.attempted == InstallOps(filename, InstallTarget(w.home.value))
  {
    match w.home
    case None => WorkerRun([], None)
    case Some(home) =>
      InstallChainRun(filename, InstallTarget(home), w);
      var t := Run(InstallChain(filename, InstallTarget(home), w));
      WorkerRun(t.attempted, Settle(t.exit, InstallSuccess))
  }

  /**
   The HTTP status of a response plays no part in a download: a 404 page is
   staged and announced like an archive.
   */
  lemma DownloadIgnoresStatus(name: string, url: string, w: World, status: nat)
    requires w.fetch.Response?
    ensures Download(name, url, w) == Download(name, url, w.(fetch := Response(status, w.fetch.body)))
  {
  }
}
