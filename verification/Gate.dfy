// `exec` before the runner: resolve the bytes, check the policy, and only then
// hand them over.
module Gate {
  import opened Prelude
  import opened Json
  import opened Errors
  import opened Execution
  import opened FileTree
  import opened PathSafety
  import opened Digest
  import opened StableSort
  import Store
  import Download

  datatype VerifyPolicy = VerifyPolicy(allowUnverified: bool, requiredDigests: map<string, string>)

  datatype Artifact = Artifact(bytes: seq<byte>, digest: string)

  // The outcome of `exec`, and the bytes the runner was given, if any.
  datatype Executed = Executed(result: Result<Value, ExecError>, ran: Option<seq<byte>>)

  // The digest recorded by the store is used if there is one.
  function ResolveFetched<S(!new)>(sha: Sha<S>, fetched: Result<Store.Listed, Store.StoreError>,
                                   bytes: Option<seq<byte>>): Result<Artifact, ResolveError>
  {
    match fetched
    case Err(ToolNotFound) => Err(Missing)
    case Err(_) => Err(ResolveError.Store("store error"))
    case Ok(item) =>
      match bytes
      case None => Err(Io)
      case Some(content) =>
        Ok(Artifact(content, match item.item.sha256 case Some(d) => d case None => OneShot(sha, content)))
  }

  function Verify(component: string, artifact: Artifact, policy: VerifyPolicy): Result<Artifact, VerificationError> {
    if component in policy.requiredDigests then
      if artifact.digest != policy.requiredDigests[component] then
        Err(DigestMismatch(policy.requiredDigests[component], artifact.digest))
      else Ok(artifact)
    else if !policy.allowUnverified then Err(UnsignedRejected)
    else Ok(artifact)
  }

  function Exec(req: ExecRequest, resolved: Result<Artifact, ResolveError>, policy: VerifyPolicy,
                engine: Option<RunnerError>, run: seq<byte> -> RunResult): Executed
  {
    match resolved
    case Err(e) => Executed(Err(Resolve(req.component, e)), None)
    case Ok(artifact) =>
      match Verify(req.component, artifact, policy)
      case Err(e) => Executed(Err(Verification(req.component, e)), None)
      case Ok(verified) =>
        match engine
        case Some(e) => Executed(Err(Runner(req.component, e)), None)
        case None => Executed(FinishExec(req, run(verified.bytes)), Some(verified.bytes))
  }

  // What a policy lets a component run: a pinned component only the bytes of
  // its digest, whatever `allow_unverified` says; an unpinned one anything, if
  // and only if unverified artifacts are allowed.
  ghost predicate Permitted<S(!new)>(sha: Sha<S>, policy: VerifyPolicy, component: string, bytes: seq<byte>) {
    if component in policy.requiredDigests then OneShot(sha, bytes) == policy.requiredDigests[component]
    else policy.allowUnverified
  }

  // What the caller is told when nothing runs.
  ghost predicate IsRefused<S(!new)>(sha: Sha<S>, req: ExecRequest, resolved: Result<Artifact, ResolveError>,
                                     policy: VerifyPolicy, engine: Option<RunnerError>, executed: Executed)
  {
    match resolved
    case Err(e) => executed.result == Err(Resolve(req.component, e))
    case Ok(artifact) =>
      var pinned := req.component in policy.requiredDigests;
      if pinned && policy.requiredDigests[req.component] != OneShot(sha, artifact.bytes) then
        executed.result == Err(Verification(req.component,
          DigestMismatch(policy.requiredDigests[req.component], OneShot(sha, artifact.bytes))))
      else if !pinned && !policy.allowUnverified then
        executed.result == Err(Verification(req.component, UnsignedRejected))
      else engine.Some? ==> executed.result == Err(Runner(req.component, engine.value))
  }

  lemma {:induction false} RunsOnlyWhatIsPermitted<S(!new)>(sha: Sha<S>, req: ExecRequest,
                                                            resolved: Result<Artifact, ResolveError>,
                                                            policy: VerifyPolicy, engine: Option<RunnerError>,
                                                            run: seq<byte> -> RunResult)
    requires resolved.Ok? ==> resolved.value.digest == OneShot(sha, resolved.value.bytes)
    ensures
      var executed := Exec(req, resolved, policy, engine, run);
      && (forall b :: executed.ran == Some(b) <==>
            resolved.Ok? && resolved.value.bytes == b && Permitted(sha, policy, req.component, b) && engine.None?)
      && (executed.ran.Some? ==> executed.result == FinishExec(req, run(executed.ran.value)))
      && (executed.ran.None? ==>
            executed.result.Err? && !executed.result.error.Tool? && !executed.result.error.NotFound?)
      && (resolved.Ok? && !Permitted(sha, policy, req.component, resolved.value.bytes) <==>
            executed.result.Err? && executed.result.error.Verification?)
    ensures IsRefused(sha, req, resolved, policy, engine, Exec(req, resolved, policy, engine, run))
  {
  }

  // The whole pipeline on a local store and an unchanged tree, through listing,
  // sorting, links and the streaming digest. Whatever runs is the content of
  // the first entry of that name, and is permitted.
  method ExecLocal<S(!new)>(fs: FileSystem, sha: Sha<S>, readable: Loc -> bool, root: Path,
                            readDir: Loc -> Option<seq<string>>, req: ExecRequest, policy: VerifyPolicy,
                            engine: Option<RunnerError>, run: seq<byte> -> RunResult)
    returns (executed: Executed)
    requires fs.Valid() && sha.Lawful()
    ensures executed.ran.Some? ==>
              && Permitted(sha, policy, req.component, executed.ran.value)
              && fs.Exists(root) && fs.Canonicalize(root).Some? && readDir(fs.Canonicalize(root).value).Some?
              && var rootLoc := fs.Canonicalize(root).value;
                 var first := Store.FirstNamed(Store.KeptNames(fs, rootLoc, readDir(rootLoc).value), req.component);
                 && first.Some?
                 && fs.Read(Store.Join(root, first.value)) == executed.ran
                 && Store.Safe(fs, rootLoc, first.value).Ok? && rootLoc <= Store.Safe(fs, rootLoc, first.value).value
    ensures executed.ran.Some? ==> executed.result == FinishExec(req, run(executed.ran.value))
    ensures executed.ran.None? ==> executed.result.Err?
    ensures Store.ListingFails(fs, root, readDir) ==>
              executed.result.Err? && executed.result.error.Resolve? && executed.result.error.resolveSource.Store?
    ensures !fs.Exists(root) ==> executed.result == Err(Resolve(req.component, Missing))
    ensures !Store.ListingFails(fs, root, readDir) && fs.Exists(root) && engine.None? ==>
              var rootLoc := fs.Canonicalize(root).value;
              match Store.FirstNamed(Store.KeptNames(fs, rootLoc, readDir(rootLoc).value), req.component)
              case None => executed.result == Err(Resolve(req.component, Missing))
              case Some(n) =>
                match fs.Read(Store.Join(root, n))
                case None => executed.result == Err(Resolve(req.component, Io))
                case Some(b) => executed.ran == (if Permitted(sha, policy, req.component, b) then Some(b) else None)
  {
    var fetched := Store.FetchLocal(fs, sha, readable, root, readDir, req.component);
    var bytes := None;
    if fetched.Ok? {
      bytes := fs.Read(fetched.value.item.path);
      ghost var rootLoc := fs.Canonicalize(root).value;
      ghost var kept := Store.KeptNames(fs, rootLoc, readDir(rootLoc).value);
      ghost var n := Store.FirstNamed(kept, req.component).value;
      FirstIsKept(kept, req.component);
      ResolveReachesCanonical(fs, root, fs.realpathLinks);
      LiteralPath(fs, rootLoc, fs.realpathLinks);
      ResultIsUnderRoot(fs, AsPath(rootLoc), Path(false, [Name(n)]));
      if bytes.Some? {
        Store.DigestIsOfBytesRead(fs, sha, readable, root, n, fetched.value);
      }
    }
    var resolved := ResolveFetched(sha, fetched, bytes);
    RunsOnlyWhatIsPermitted(sha, req, resolved, policy, engine, run);
    executed := Exec(req, resolved, policy, engine, run);
  }

  lemma {:induction false} FirstIsKept(kept: seq<string>, name: string)
    ensures Store.FirstNamed(kept, name).Some? ==> Store.FirstNamed(kept, name).value in kept
  {
    if kept != [] {
      FirstIsKept(kept[1..], name);
    }
  }

  // The same pipeline on the HTTP store, from the download cache through the
  // streaming digest. Whatever runs is the cached file, and is permitted.
  method ExecHttp<S(!new)>(sha: Sha<S>, store: Download.HttpStore, call: Download.Call, readable: bool,
                           req: ExecRequest, policy: VerifyPolicy, engine: Option<RunnerError>,
                           run: seq<byte> -> RunResult)
    returns (executed: Executed)
    requires sha.Lawful() && call.name == req.component
    modifies store
    ensures (store.dir, store.requests - old(store.requests)) ==
              (var r := Download.Fetch(old(store.dir), store.expected, call); (r.0, r.2))
    ensures executed.ran.Some? ==>
              && req.component == store.expected
              && Download.Dest(store.expected) in store.dir
              && executed.ran.value == store.dir[Download.Dest(store.expected)]
              && Permitted(sha, policy, req.component, executed.ran.value)
              && executed.result == FinishExec(req, run(executed.ran.value))
    ensures executed.ran.None? ==> executed.result.Err?
    ensures forall content :: executed.ran == Some(content) <==>
              && Download.Serves(old(store.dir), store.expected, call, content) && readable && engine.None?
              && Permitted(sha, policy, req.component, content)
    ensures call.name != store.expected ==> executed.result == Err(Resolve(req.component, Missing))
  {
    var end := store.FetchHttp(call);
    ghost var before := old(store.dir);
    Download.OneFetch(before, store.expected, call);
    Download.FetchEnds(before, store.expected, call);
    var fetched: Result<Store.Listed, Store.StoreError> := Err(Store.ListingFailed);
    var bytes := None;
    match end {
      case Fetched(content) =>
        var file := new Reader(content, readable);
        var digest := ComputeSha256(sha, file);
        var sha256 := match digest case Ok(d) => Some(d) case Err(_) => None;
        fetched := Ok(Named(store.expected, Store.ToolInfo(Path(true, [Name(Download.Dest(store.expected))]), sha256)));
        bytes := if readable then Some(content) else None;
      case NotServed => fetched := Err(Store.ToolNotFound);
      case _ =>
    }
    var resolved := ResolveFetched(sha, fetched, bytes);
    RunsOnlyWhatIsPermitted(sha, req, resolved, policy, engine, run);
    executed := Exec(req, resolved, policy, engine, run);
  }
}
