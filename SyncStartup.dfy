/**
 * The decisions `Client.sync` takes before it hands the directory to the
 * background sync handler (cmscloud_client/client.py:331-458): which
 * sitename to sync, whether the directory already belongs to another site,
 * whether the repository must be created, what to do when the directory is
 * locked, how the bundle response is classified, what is written and which
 * git commands are issued. `StartSync` puts them together; `Client.Sync` is
 * the same start-up written as steps on a `LocalFiles.Directory`.
 *
 * What git prints (`git remote`, `git branch`, `git rev-parse`), the answer
 * to the confirmation prompt, the HTTP response and its body chunks are
 * inputs (`SyncEnv`). Git commands are recorded, not run.
 */
module SyncStartup {
  import opened Common
  import Text
  import Session
  import opened LocalFiles

  const BundleRemote := "develop_bundle"
  const DevelopBranch := "develop"
  const UpstreamRef := "develop_bundle/develop"
  const SyncBotName := "Git Sync by"
  const IgnorePatterns := [".*", "!.gitignore", "/db_dumps/"]

  /** The repository-changing git commands `sync` issues, in order. */
  datatype GitCommand =
    | Init
    | SetUser(name: string, email: Option<string>)
    | AddRemote(remote: string, url: string)
    | FetchRemote(remote: string)
    | CheckoutNewBranch(branch: string, start: string)
    | Merge(first: string, second: string)  // `git merge first second`: both into the checked-out branch
    | UpdateGitignore(patterns: seq<string>)

  /** What the outside world answers during one start-up. */
  datatype SyncEnv = SyncEnv(
    confirmed: bool,          // the answer to "start syncing anyway?"
    revParse: string,         // output of `git rev-parse develop_bundle/develop`
    reply: Session.HttpReply, // the response to the bundle request
    chunks: seq<string>,      // the response body as `iter_content` yields it
    remotes: seq<string>,     // `git remote` output, split into words
    branches: seq<string>,    // `git branch` output, split into words
    upstreamCommit: string)   // the commit `develop_bundle/develop` points at after a fetch

  /** What the sync handler is started with; protected files are always empty. */
  datatype SyncSession = SyncSession(sitename: string, relpath: string,
                                     lastSyncedCommit: string, protectedFiles: seq<string>)

  /**
   * `Raised`: `sync` does not return but raises, either in `shutil.move`
   * when the backup would land inside the directory, or at
   * `repo.remotes.develop_bundle` for a repository that has no such remote.
   */
  datatype SyncResult = Started(session: SyncSession) | Failed(message: string) | Raised

  /** The GET for the bundle: its path and its `last_synced_commit` parameter. */
  datatype BundleRequest = BundleRequest(url: string, lastSyncedCommit: Option<string>)

  datatype SyncStep = SyncStep(result: SyncResult, dir: DirState,
                               commands: seq<GitCommand>, request: Option<BundleRequest>)

  function DotFileContents(d: DirState): Option<string> {
    if DotFile in d.files then Some(d.files[DotFile]) else None
  }

  // ---------------------------------------------------------------------
  // Sitename (cmscloud_client/client.py:335-349)
  // ---------------------------------------------------------------------

  /**
   * The sitename to sync: the argument when it is non-empty, otherwise the
   * stripped contents of `.cmscloud`; cut at its first dot.
   */
  function ResolveSitename(arg: string, dotFile: Option<string>): (r: Result<string>)
    ensures arg != "" ==> r == Ok(Text.BeforeFirstDot(arg))
    ensures arg == "" && dotFile.Some? && Text.Strip(dotFile.value) != "" ==>
              r == Ok(Text.BeforeFirstDot(Text.Strip(dotFile.value)))
    ensures arg == "" && (dotFile.None? || Text.Strip(dotFile.value) == "") ==>
              r == Err(MissingSitenameMessage)
    ensures r.Ok? ==> '.' !in r.value
  {
    var raw := if arg != "" then arg else if dotFile.Some? then Text.Strip(dotFile.value) else "";
    if raw == "" then Err(MissingSitenameMessage)
    else Ok(if '.' in raw then Text.BeforeFirstDot(raw) else raw)
  }

  /**
   * The emptiness test comes before the cut, so a sitename that starts with
   * a dot resolves to the empty name.
   */
  lemma LeadingDotResolvesToEmpty(rest: string, dotFile: Option<string>)
    ensures ResolveSitename("." + rest, dotFile) == Ok("")
  {
  }

  /** The same holds for a `.cmscloud` alone whose stripped contents start with a dot. */
  lemma DottedDotFileResolvesToEmpty(contents: string)
    requires Text.Strip(contents) != "" && Text.Strip(contents)[0] == '.'
    ensures ResolveSitename("", Some(contents)) == Ok("")
  {
    var raw := Text.Strip(contents);
    assert raw[0] in raw;
  }

  /** The error when `.cmscloud` names a site other than the one resolved. */
  function CheckDirSitename(sitename: string, dotFile: Option<string>): (r: Option<string>)
    ensures r.Some? <==> dotFile.Some? && Text.Strip(dotFile.value) != sitename
    ensures r.Some? ==> r.value == MismatchMessage(Text.Strip(dotFile.value))
  {
    if dotFile.Some? && sitename != Text.Strip(dotFile.value) then
      Some(MismatchMessage(Text.Strip(dotFile.value)))
    else None
  }

  /**
   * A `.cmscloud` whose contents hold a dot can never be synced: whatever
   * sitename is resolved, it has no dot and so differs from the recorded one.
   */
  lemma DottedDotFileAlwaysMismatches(arg: string, contents: string)
    requires '.' in Text.Strip(contents)
    ensures var r := ResolveSitename(arg, Some(contents));
      r.Ok? ==> CheckDirSitename(r.value, Some(contents)) == Some(MismatchMessage(Text.Strip(contents)))
  {
  }

  /** Resolving from `.cmscloud` alone always agrees with `.cmscloud` when it has no dot. */
  lemma DotFileSitenameAgrees(contents: string)
    requires Text.Strip(contents) != "" && '.' !in Text.Strip(contents)
    ensures ResolveSitename("", Some(contents)) == Ok(Text.Strip(contents))
    ensures CheckDirSitename(Text.Strip(contents), Some(contents)).None?
  {
  }

  // ---------------------------------------------------------------------
  // Repository (cmscloud_client/client.py:350-374)
  // ---------------------------------------------------------------------

  datatype Prepared = Prepared(dir: DirState, commands: seq<GitCommand>, lastSyncedCommit: Option<string>)

  /** An existing synced checkout has both `.git` and `.cmscloud`. */
  predicate IsSyncedCheckout(d: DirState) {
    GitDir in d.files && DotFile in d.files
  }

  /**
   * An existing synced checkout is used as it is, and the request will carry
   * its last synced commit. Otherwise a non-empty directory is moved aside
   * whole, a missing one is created, and a fresh repository is initialised
   * with the sync author.
   */
  function PrepareRepository(d: DirState, login: Option<string>, revParse: string): (r: Prepared)
    requires WellFormed(d)
    ensures r.dir.present && GitDir in r.dir.files
    ensures IsSyncedCheckout(d) ==> r == Prepared(d, [], Some(revParse))
    ensures !IsSyncedCheckout(d) ==>
      && r.dir.files == map[GitDir := ""]
      && r.dir.backups == (if d.present && d.files != map[] then d.backups + [d.files] else d.backups)
      && r.commands == [Init, SetUser(SyncBotName, login)]
      && r.lastSyncedCommit.None?
  {
    if IsSyncedCheckout(d) then Prepared(d, [], Some(revParse))
    else
      var emptied :=
        if d.present then
          if d.files != map[] then DirState(true, map[], d.backups + [d.files]) else d
        else DirState(true, map[], d.backups);
      assert emptied.files == map[];
      Prepared(emptied.(files := map[GitDir := ""]), [Init, SetUser(SyncBotName, login)], None)
  }

  /**
   * The backup `path + " - <now>.backup"` lies inside `path` when `path`
   * ends in `/` or names the directory as `.` or `..`; `shutil.move` then
   * refuses to move the directory into itself and raises.
   */
  predicate BackupInsideItself(path: string) {
    var b := Text.Basename(path);
    b == "" || b == "." || b == ".."
  }

  /** The repository step would back the directory up, and the move raises. */
  predicate BackupRefused(d: DirState, path: string) {
    !IsSyncedCheckout(d) && d.present && d.files != map[] && BackupInsideItself(path)
  }

  /** A path joined onto a directory by a plain name never has its backup inside itself. */
  lemma JoinedPathBacksUpBeside(dir: string, name: string)
    requires '/' !in name && name != "" && name != "." && name != ".."
    ensures !BackupInsideItself(Text.PathJoin(dir, name))
  {
    Text.BasenameOfJoin(dir, name);
  }

  // ---------------------------------------------------------------------
  // Lock policy (cmscloud_client/client.py:376-387)
  // ---------------------------------------------------------------------

  /**
   * When the lock is already held: interactively, the confirmation decides
   * and `force` plays no part; otherwise only `force` lets the start-up go
   * on. `None` means go on.
   */
  function OnLockHeld(interactive: bool, confirmed: bool, force: bool): (r: Option<string>)
    ensures r.None? <==> (if interactive then confirmed else force)
    ensures r.Some? ==> r.value == (if interactive then AbortedMessage else DirectoryAlreadySyncingMessage)
  {
    if interactive then
      if !confirmed then Some(AbortedMessage) else None
    else if force then None
    else Some(DirectoryAlreadySyncingMessage)
  }

  // ---------------------------------------------------------------------
  // Bundle response (cmscloud_client/client.py:389-415)
  // ---------------------------------------------------------------------

  datatype BundleFetch = NotModified | Modified | FetchFailed(message: string)

  function ClassifyBundleReply(reply: Session.HttpReply): (r: BundleFetch)
    ensures r == NotModified <==> reply.Reply? && reply.status == 304
    ensures r == Modified <==> reply.Reply? && reply.status == 200
    ensures reply.NetworkFailure? ==> r == FetchFailed(NetworkErrorMessage)
    ensures reply.Reply? && reply.status != 200 && reply.status != 304 ==>
              r == FetchFailed(UnexpectedResponseMessage(reply.status, reply.content))
  {
    match reply
    case NetworkFailure => FetchFailed(NetworkErrorMessage)
    case Reply(status, content) =>
      if status == 304 then NotModified
      else if status != 200 then FetchFailed(UnexpectedResponseMessage(status, content))
      else Modified
  }

  /** The body of an error response is shown exactly when the status is below 500. */
  lemma ErrorBodyShownBelow500(status: nat, content: string)
    requires status != 200 && status != 304
    ensures var m := ClassifyBundleReply(Session.Reply(status, content)).message;
      var line := UnexpectedResponsePrefix + Text.NatToDecimal(status);
      && |line| <= |m| && m[..|line|] == line
      && (status < 500 ==> m[|line|..] == "\n" + content)
      && (status >= 500 ==> m == line)
  {
    var m := ClassifyBundleReply(Session.Reply(status, content)).message;
    var line := UnexpectedResponsePrefix + Text.NatToDecimal(status);
    assert m == UnexpectedResponseMessage(status, content);
    if status < 500 {
      assert m == line + ("\n" + content);
      assert m[..|line|] == line;
    } else {
      assert m == line;
    }
  }

  /** The index of the first empty chunk, or the number of chunks when none is empty. */
  function FirstEmpty(chunks: seq<string>): (n: nat)
    ensures n <= |chunks|
    ensures forall i :: 0 <= i < n ==> chunks[i] != ""
    ensures n < |chunks| ==> chunks[n] == ""
  {
    if chunks == [] || chunks[0] == "" then 0 else 1 + FirstEmpty(chunks[1..])
  }

  function Concat(chunks: seq<string>): string {
    if chunks == [] then "" else Concat(chunks[..|chunks| - 1]) + chunks[|chunks| - 1]
  }

  /** What ends up in `.develop.bundle`: the chunks before the first empty one. */
  function BundlePayload(chunks: seq<string>): string {
    Concat(chunks[..FirstEmpty(chunks)])
  }

  /**
   * The copy loop: writes chunk after chunk and stops at the first empty
   * one; `written` is how many chunks it wrote.
   */
  method CopyChunks(chunks: seq<string>) returns (data: string, written: nat)
    ensures written == FirstEmpty(chunks)
    ensures data == Concat(chunks[..written])
  {
    data, written := "", 0;
    while written < |chunks|
      invariant written <= FirstEmpty(chunks)
      invariant data == Concat(chunks[..written])
    {
      var chunk := chunks[written];
      if chunk == "" {
        break;
      }
      assert chunks[..written + 1][..written] == chunks[..written];
      data := data + chunk;
      written := written + 1;
    }
  }

  /** Chunks after an empty one never reach the file. */
  lemma {:induction false} ChunksAfterEmptyIgnored(before: seq<string>, after: seq<string>)
    requires forall i :: 0 <= i < |before| ==> before[i] != ""
    ensures BundlePayload(before + [""] + after) == Concat(before)
  {
    var all := before + [""] + after;
    var n := FirstEmpty(all);
    assert all[|before|] == "";
    assert forall i :: 0 <= i < |before| ==> all[i] == before[i];
    assert n == |before|;
    assert all[..n] == before;
  }

  /** Without an empty chunk the whole body is written. */
  lemma AllChunksWritten(chunks: seq<string>)
    requires forall i :: 0 <= i < |chunks| ==> chunks[i] != ""
    ensures BundlePayload(chunks) == Concat(chunks)
  {
    assert chunks[..|chunks|] == chunks;
  }

  // ---------------------------------------------------------------------
  // Git checks (cmscloud_client/client.py:416-430)
  // ---------------------------------------------------------------------

  /** `git remote add` only when `git remote` does not list the bundle remote. */
  function RegisterRemote(remotes: seq<string>, bundlePath: string): (r: seq<GitCommand>)
    ensures r == [] <==> BundleRemote in remotes
    ensures BundleRemote !in remotes ==> r == [AddRemote(BundleRemote, bundlePath)]
  {
    if BundleRemote !in remotes then [AddRemote(BundleRemote, bundlePath)] else []
  }

  /** `git checkout -b develop` only when `git branch` does not list it. */
  function EnsureDevelopBranch(branches: seq<string>): (r: seq<GitCommand>)
    ensures r == [] <==> DevelopBranch in branches
    ensures DevelopBranch !in branches ==> r == [CheckoutNewBranch(DevelopBranch, UpstreamRef)]
  {
    if DevelopBranch !in branches then [CheckoutNewBranch(DevelopBranch, UpstreamRef)] else []
  }

  /** Registering the remote a second time, once git lists it, issues nothing. */
  lemma RegisterRemoteIdempotent(remotes: seq<string>, bundlePath: string)
    ensures var added := if RegisterRemote(remotes, bundlePath) == [] then [] else [BundleRemote];
      RegisterRemote(remotes + added, bundlePath) == []
  {
    var added := if RegisterRemote(remotes, bundlePath) == [] then [] else [BundleRemote];
    assert added != [] ==> (remotes + added)[|remotes|] == BundleRemote;
  }

  /** The commands after a bundle was fetched: remote, fetch, branch, merge. */
  function UpdateFromBundle(path: string, remotes: seq<string>, branches: seq<string>): seq<GitCommand> {
    RegisterRemote(remotes, Text.PathJoin(path, BundleFile))
      + [FetchRemote(BundleRemote)]
      + EnsureDevelopBranch(branches)
      + [Merge(UpstreamRef, DevelopBranch)]
  }

  function GitSyncUrl(sitename: string): string {
    "/api/v1/git-sync/" + sitename + "/"
  }

  // ---------------------------------------------------------------------
  // The whole start-up
  // ---------------------------------------------------------------------

  /**
   * `sync` up to starting the handler, for a directory in state `d`, a
   * client whose mode is `interactive` and whose login is `login`. Each
   * failure is returned with the directory as it stands at that point.
   */
  function StartSync(d: DirState, path: string, interactive: bool, login: Option<string>,
                     sitename: string, force: bool, env: SyncEnv): SyncStep
    requires WellFormed(d)
  {
    var dot := DotFileContents(d);
    var resolved := ResolveSitename(sitename, dot);
    if resolved.Err? then SyncStep(Failed(resolved.message), d, [], None)
    else
      var mismatch := CheckDirSitename(resolved.value, dot);
      if mismatch.Some? then SyncStep(Failed(mismatch.value), d, [], None)
      else if BackupRefused(d, path) then SyncStep(Raised, d, [], None)
      else StartLocked(PrepareRepository(d, login, env.revParse), resolved.value, path, interactive, force, env)
  }

  /** From a prepared repository: take the lock, or apply the held-lock policy. */
  function StartLocked(prep: Prepared, name: string, path: string, interactive: bool,
                       force: bool, env: SyncEnv): SyncStep
  {
    var lock := CreateIn(prep.dir, LockFile);
    var stop := if lock.ok then None else OnLockHeld(interactive, env.confirmed, force);
    if stop.Some? then SyncStep(Failed(stop.value), lock.dir, prep.commands, None)
    else StartFetched(lock.dir, prep, name, path, env)
  }

  /** From the locked directory: request the bundle and act on the response. */
  function StartFetched(locked: DirState, prep: Prepared, name: string, path: string,
                        env: SyncEnv): SyncStep
  {
    var request := Some(BundleRequest(GitSyncUrl(name), prep.lastSyncedCommit));
    var fetch := ClassifyBundleReply(env.reply);
    if fetch.FetchFailed? then
      SyncStep(Failed(fetch.message), RemoveFrom(locked, LockFile), prep.commands, request)
    else
      var fetched :=
        if fetch.Modified? then locked.(files := locked.files[BundleFile := BundlePayload(env.chunks)])
        else locked;
      var commands :=
        prep.commands
        + (if fetch.Modified? then UpdateFromBundle(path, env.remotes, env.branches) else [])
        + [UpdateGitignore(IgnorePatterns)];
      var done := fetched.(files := fetched.files[DotFile := name]);
      if fetch.NotModified? && prep.lastSyncedCommit.None? then
        // A fresh repository answered 304 never got the bundle remote.
        SyncStep(Raised, done, commands, request)
      else
        var commit := if fetch.NotModified? then prep.lastSyncedCommit.value else env.upstreamCommit;
        SyncStep(Started(SyncSession(name, path, commit, [])), done, commands, request)
  }

  /** The route a start-up that succeeds has taken. */
  lemma StartedPath(d: DirState, path: string, interactive: bool, login: Option<string>,
                    sitename: string, force: bool, env: SyncEnv)
    requires WellFormed(d)
    requires StartSync(d, path, interactive, login, sitename, force, env).result.Started?
    ensures var r := ResolveSitename(sitename, DotFileContents(d));
      && r.Ok? && CheckDirSitename(r.value, DotFileContents(d)).None?
      && !BackupRefused(d, path)
      && var prep := PrepareRepository(d, login, env.revParse);
         var lock := CreateIn(prep.dir, LockFile);
         && (lock.ok || OnLockHeld(interactive, env.confirmed, force).None?)
         && !ClassifyBundleReply(env.reply).FetchFailed?
         && StartSync(d, path, interactive, login, sitename, force, env)
            == StartFetched(lock.dir, prep, r.value, path, env)
  {
  }

  /** Past the sitename checks and the backup check, the start-up goes on to the lock step. */
  lemma StartSyncPrepares(d: DirState, path: string, interactive: bool, login: Option<string>,
                          sitename: string, force: bool, env: SyncEnv)
    requires WellFormed(d)
    requires var r := ResolveSitename(sitename, DotFileContents(d));
      r.Ok? && CheckDirSitename(r.value, DotFileContents(d)).None?
    requires !BackupRefused(d, path)
    ensures StartSync(d, path, interactive, login, sitename, force, env)
         == StartLocked(PrepareRepository(d, login, env.revParse),
                        ResolveSitename(sitename, DotFileContents(d)).value, path, interactive, force, env)
  {
  }

  /** The lock step and what follows never touch the backups. */
  lemma LockedKeepsBackups(prep: Prepared, name: string, path: string, interactive: bool,
                           force: bool, env: SyncEnv)
    ensures StartLocked(prep, name, path, interactive, force, env).dir.backups == prep.dir.backups
  {
    var lock := CreateIn(prep.dir, LockFile);
    assert lock.dir.backups == prep.dir.backups;
    var f := StartFetched(lock.dir, prep, name, path, env);
    assert f.dir.backups == lock.dir.backups;
  }

  /** Without a sitename from either source, nothing happens. */
  lemma MissingSitenameChangesNothing(d: DirState, path: string, interactive: bool, login: Option<string>,
                                      force: bool, env: SyncEnv)
    requires WellFormed(d)
    requires DotFile !in d.files || Text.Strip(d.files[DotFile]) == ""
    ensures StartSync(d, path, interactive, login, "", force, env)
         == SyncStep(Failed(MissingSitenameMessage), d, [], None)
  {
  }

  /**
   * A sitename that differs from the one in `.cmscloud` is a hard error,
   * reported before the repository, the lock or the network is touched.
   */
  lemma MismatchChangesNothing(d: DirState, path: string, interactive: bool, login: Option<string>,
                               sitename: string, force: bool, env: SyncEnv)
    requires WellFormed(d)
    requires DotFile in d.files
    requires var r := ResolveSitename(sitename, Some(d.files[DotFile]));
      r.Ok? && r.value != Text.Strip(d.files[DotFile])
    ensures StartSync(d, path, interactive, login, sitename, force, env)
         == SyncStep(Failed(MismatchMessage(Text.Strip(d.files[DotFile]))), d, [], None)
  {
    var dot := DotFileContents(d);
    assert dot == Some(d.files[DotFile]);
    var r := ResolveSitename(sitename, dot);
    assert CheckDirSitename(r.value, dot) == Some(MismatchMessage(Text.Strip(d.files[DotFile])));
  }

  /**
   * A started sync runs under a dot-free sitename, which is the explicit one
   * when given, which `.cmscloud` now records, and with the lock present.
   */
  lemma StartedSession(d: DirState, path: string, interactive: bool, login: Option<string>,
                       sitename: string, force: bool, env: SyncEnv)
    requires WellFormed(d)
    ensures var s := StartSync(d, path, interactive, login, sitename, force, env);
      s.result.Started? ==>
        var name := s.result.session.sitename;
        && '.' !in name
        && (sitename != "" ==> name == Text.BeforeFirstDot(sitename))
        && s.dir.present && DotFile in s.dir.files && s.dir.files[DotFile] == name && LockFile in s.dir.files
        && GitDir in s.dir.files
        && (DotFile in d.files ==> Text.Strip(d.files[DotFile]) == name)
  {
    var s := StartSync(d, path, interactive, login, sitename, force, env);
    if s.result.Started? {
      StartedPath(d, path, interactive, login, sitename, force, env);
      var dot := DotFileContents(d);
      var name := ResolveSitename(sitename, dot).value;
      assert DotFile in d.files ==> Text.Strip(d.files[DotFile]) == name by {
        assert CheckDirSitename(name, dot).None?;
      }
      var prep := PrepareRepository(d, login, env.revParse);
      var lock := CreateIn(prep.dir, LockFile);
      assert LockFile in lock.dir.files && GitDir in lock.dir.files && lock.dir.present;
      FetchedFacts(lock.dir, prep, name, path, env);
      assert s.result.session.sitename == name;
    }
  }

  /**
   * A start-up that returns a failure never leaves behind a lock it
   * created: any lock left was already in the directory once the repository
   * was prepared, and after a failed fetch there is none at all.
   */
  lemma FailureLeavesNoOwnLock(d: DirState, path: string, interactive: bool, login: Option<string>,
                               sitename: string, force: bool, env: SyncEnv)
    requires WellFormed(d)
    ensures var s := StartSync(d, path, interactive, login, sitename, force, env);
      s.result.Failed? ==>
        && (LockFile in s.dir.files ==>
              (s.request.None? && (s.dir == d || LockFile in PrepareRepository(d, login, env.revParse).dir.files)))
        && (s.request.Some? ==> LockFile !in s.dir.files)
  {
    var dot := DotFileContents(d);
    var res := ResolveSitename(sitename, dot);
    if res.Ok? && CheckDirSitename(res.value, dot).None? && !BackupRefused(d, path) {
      var prep := PrepareRepository(d, login, env.revParse);
      var lock := CreateIn(prep.dir, LockFile);
      assert StartSync(d, path, interactive, login, sitename, force, env)
          == StartLocked(prep, res.value, path, interactive, force, env);
      assert !lock.ok ==> lock.dir == prep.dir;
      FetchedFacts(lock.dir, prep, res.value, path, env);
    }
  }

  /** What the last stage does to the locked directory. */
  lemma FetchedFacts(locked: DirState, prep: Prepared, name: string, path: string, env: SyncEnv)
    ensures var s := StartFetched(locked, prep, name, path, env);
      && s.request.Some?
      && (s.result.Failed? ==> s.dir == RemoveFrom(locked, LockFile))
      && (!s.result.Failed? ==>
            && (s.result.Started? ==> s.result.session.sitename == name)
            && s.dir.present == locked.present
            && DotFile in s.dir.files && s.dir.files[DotFile] == name
            && (forall k :: k in locked.files ==> k in s.dir.files))
  {
  }

  /** A failed fetch reports the network message or the unexpected-status message. */
  lemma FetchFailureMessage(reply: Session.HttpReply)
    requires ClassifyBundleReply(reply).FetchFailed?
    ensures var m := ClassifyBundleReply(reply).message;
      m != AbortedMessage && m != DirectoryAlreadySyncingMessage
  {
    match reply
    case NetworkFailure =>
      assert NetworkErrorMessage != AbortedMessage && NetworkErrorMessage != DirectoryAlreadySyncingMessage;
    case Reply(status, content) =>
      var m := UnexpectedResponseMessage(status, content);
      assert m[0] == UnexpectedResponsePrefix[0] == 'U';
  }

  /**
   * When the lock is already held, an interactive start-up stops with
   * "Aborted" exactly when the operator declines, and a non-interactive one
   * stops with "Directory already syncing." exactly when `force` is unset.
   */
  lemma HeldLockPolicy(d: DirState, path: string, interactive: bool, login: Option<string>,
                       sitename: string, force: bool, env: SyncEnv)
    requires WellFormed(d)
    requires var r := ResolveSitename(sitename, DotFileContents(d));
      r.Ok? && CheckDirSitename(r.value, DotFileContents(d)).None?
    requires LockFile in PrepareRepository(d, login, env.revParse).dir.files
    ensures var s := StartSync(d, path, interactive, login, sitename, force, env);
      && (interactive ==> (s.result == Failed(AbortedMessage) <==> !env.confirmed))
      && (!interactive ==> (s.result == Failed(DirectoryAlreadySyncingMessage) <==> !force))
  {
    var name := ResolveSitename(sitename, DotFileContents(d)).value;
    var prep := PrepareRepository(d, login, env.revParse);
    var lock := CreateIn(prep.dir, LockFile);
    assert !lock.ok && lock.dir == prep.dir;
    assert StartSync(d, path, interactive, login, sitename, force, env)
        == StartLocked(prep, name, path, interactive, force, env);
    var f := StartFetched(lock.dir, prep, name, path, env);
    assert f.result.Failed? ==>
      ClassifyBundleReply(env.reply).FetchFailed? && f.result.message == ClassifyBundleReply(env.reply).message;
    if ClassifyBundleReply(env.reply).FetchFailed? {
      FetchFailureMessage(env.reply);
    }
  }

  /**
   * The code releases the lock after a failed fetch without asking whether
   * this call created it: a forced start-up in a directory another session
   * has locked removes that session's lock when the network fails.
   */
  lemma ForcedStartRemovesForeignLock(d: DirState, path: string, login: Option<string>,
                                      sitename: string, env: SyncEnv)
    requires WellFormed(d)
    requires var r := ResolveSitename(sitename, DotFileContents(d));
      r.Ok? && CheckDirSitename(r.value, DotFileContents(d)).None?
    requires LockFile in PrepareRepository(d, login, env.revParse).dir.files
    requires env.reply.NetworkFailure?
    ensures var s := StartSync(d, path, false, login, sitename, true, env);
      s.result == Failed(NetworkErrorMessage) && LockFile !in s.dir.files
  {
  }

  /**
   * On 304 nothing is fetched: no bundle is written, no remote, fetch or
   * merge is issued, and the session goes on from the commit the request
   * named as last synced, which only a synced checkout has.
   */
  lemma NotModifiedFetchesNothing(d: DirState, path: string, interactive: bool, login: Option<string>,
                                  sitename: string, force: bool, env: SyncEnv)
    requires WellFormed(d)
    requires env.reply.Reply? && env.reply.status == 304
    ensures var s := StartSync(d, path, interactive, login, sitename, force, env);
      var prep := PrepareRepository(d, login, env.revParse);
      s.result.Started? ==>
        && (BundleFile in s.dir.files <==> BundleFile in prep.dir.files)
        && (BundleFile in s.dir.files ==> s.dir.files[BundleFile] == prep.dir.files[BundleFile])
        && s.commands == prep.commands + [UpdateGitignore(IgnorePatterns)]
        && IsSyncedCheckout(d)
        && s.request == Some(BundleRequest(GitSyncUrl(s.result.session.sitename), Some(env.revParse)))
        && s.result.session.lastSyncedCommit == env.revParse
  {
    if StartSync(d, path, interactive, login, sitename, force, env).result.Started? {
      StartedPath(d, path, interactive, login, sitename, force, env);
    }
  }

  /**
   * A directory that is not a synced checkout, answered 304, makes `sync`
   * raise: `git init` created no bundle remote and none is added without a
   * bundle. By then `.cmscloud` is written and the lock this call took is
   * still there, and no session is started.
   */
  lemma FreshCheckoutNotModifiedRaises(d: DirState, path: string, interactive: bool, login: Option<string>,
                                       sitename: string, force: bool, env: SyncEnv)
    requires WellFormed(d)
    requires var r := ResolveSitename(sitename, DotFileContents(d));
      r.Ok? && CheckDirSitename(r.value, DotFileContents(d)).None?
    requires !IsSyncedCheckout(d) && !BackupRefused(d, path)
    requires env.reply.Reply? && env.reply.status == 304
    ensures var s := StartSync(d, path, interactive, login, sitename, force, env);
      && s.result == Raised
      && LockFile in s.dir.files
      && DotFile in s.dir.files && s.dir.files[DotFile] == ResolveSitename(sitename, DotFileContents(d)).value
  {
    var name := ResolveSitename(sitename, DotFileContents(d)).value;
    var prep := PrepareRepository(d, login, env.revParse);
    var lock := CreateIn(prep.dir, LockFile);
    assert LockFile !in prep.dir.files;
    assert lock.ok;
    assert StartSync(d, path, interactive, login, sitename, force, env)
        == StartFetched(lock.dir, prep, name, path, env);
  }

  /**
   * On 200 the bundle file holds the chunks before the first empty one, and
   * the upstream branch is fetched and merged into `develop`; the remote is
   * added exactly when `git remote` does not list it yet.
   */
  lemma ModifiedFetchesBundle(d: DirState, path: string, interactive: bool, login: Option<string>,
                              sitename: string, force: bool, env: SyncEnv)
    requires WellFormed(d)
    requires env.reply.Reply? && env.reply.status == 200
    ensures var s := StartSync(d, path, interactive, login, sitename, force, env);
      s.result.Started? ==>
        && BundleFile in s.dir.files && s.dir.files[BundleFile] == BundlePayload(env.chunks)
        && FetchRemote(BundleRemote) in s.commands
        && Merge(UpstreamRef, DevelopBranch) in s.commands
        && (BundleRemote in env.remotes <==> forall c :: c in s.commands ==> !c.AddRemote?)
        && s.result.session.lastSyncedCommit == env.upstreamCommit
  {
    var s := StartSync(d, path, interactive, login, sitename, force, env);
    if s.result.Started? {
      StartedPath(d, path, interactive, login, sitename, force, env);
      var prep := PrepareRepository(d, login, env.revParse);
      var lock := CreateIn(prep.dir, LockFile);
      ModifiedFetched(lock.dir, prep, ResolveSitename(sitename, DotFileContents(d)).value, path, env);
    }
  }

  /** The last stage on a 200 response. */
  lemma ModifiedFetched(locked: DirState, prep: Prepared, name: string, path: string, env: SyncEnv)
    requires env.reply.Reply? && env.reply.status == 200
    requires forall c :: c in prep.commands ==> !c.AddRemote?
    ensures var s := StartFetched(locked, prep, name, path, env);
      && s.result == Started(SyncSession(name, path, env.upstreamCommit, []))
      && BundleFile in s.dir.files && s.dir.files[BundleFile] == BundlePayload(env.chunks)
      && FetchRemote(BundleRemote) in s.commands
      && Merge(UpstreamRef, DevelopBranch) in s.commands
      && (BundleRemote in env.remotes <==> forall c :: c in s.commands ==> !c.AddRemote?)
  {
    var s := StartFetched(locked, prep, name, path, env);
    var u := UpdateFromBundle(path, env.remotes, env.branches);
    var g := [UpdateGitignore(IgnorePatterns)];
    assert s.commands == prep.commands + u + g;
    assert FetchRemote(BundleRemote) in u;
    assert Merge(UpstreamRef, DevelopBranch) in u;
    var reg := RegisterRemote(env.remotes, Text.PathJoin(path, BundleFile));
    assert forall c :: c in u ==> c in reg || !c.AddRemote?;
    assert BundleRemote !in env.remotes ==> s.commands[|prep.commands|] == u[0] == reg[0];
  }

  /**
   * A directory that is not yet a synced checkout keeps every file: its
   * whole contents become the newest backup before the repository is made.
   */
  lemma UnsyncedContentsBackedUp(d: DirState, path: string, interactive: bool, login: Option<string>,
                                 sitename: string, force: bool, env: SyncEnv)
    requires WellFormed(d)
    requires d.present && d.files != map[] && !IsSyncedCheckout(d) && !BackupInsideItself(path)
    requires var r := ResolveSitename(sitename, DotFileContents(d));
      r.Ok? && CheckDirSitename(r.value, DotFileContents(d)).None?
    ensures var s := StartSync(d, path, interactive, login, sitename, force, env);
      s.dir.backups == d.backups + [d.files]
  {
    var name := ResolveSitename(sitename, DotFileContents(d)).value;
    var prep := PrepareRepository(d, login, env.revParse);
    assert prep.dir.backups == d.backups + [d.files];
    StartSyncPrepares(d, path, interactive, login, sitename, force, env);
    LockedKeepsBackups(prep, name, path, interactive, force, env);
  }

  /**
   * When the backup would land inside the directory, `sync` raises before
   * anything changes: no backup, no repository, no lock and no request.
   */
  lemma BackupIntoItselfRaises(d: DirState, path: string, interactive: bool, login: Option<string>,
                               sitename: string, force: bool, env: SyncEnv)
    requires WellFormed(d)
    requires d.present && d.files != map[] && !IsSyncedCheckout(d) && BackupInsideItself(path)
    requires var r := ResolveSitename(sitename, DotFileContents(d));
      r.Ok? && CheckDirSitename(r.value, DotFileContents(d)).None?
    ensures StartSync(d, path, interactive, login, sitename, force, env) == SyncStep(Raised, d, [], None)
  {
  }

  /**
   * The converse of `StartedPath`: a start-up whose name resolves and
   * matches, whose backup can be made, that gets past the lock and is
   * answered 200, or 304 in a synced checkout, starts a session under that
   * name, from the last synced commit on 304 and from the fetched one on 200.
   */
  lemma StartSucceeds(d: DirState, path: string, interactive: bool, login: Option<string>,
                      sitename: string, force: bool, env: SyncEnv)
    requires WellFormed(d)
    requires var r := ResolveSitename(sitename, DotFileContents(d));
      r.Ok? && CheckDirSitename(r.value, DotFileContents(d)).None?
    requires !BackupRefused(d, path)
    requires CreateIn(PrepareRepository(d, login, env.revParse).dir, LockFile).ok
             || OnLockHeld(interactive, env.confirmed, force).None?
    requires !ClassifyBundleReply(env.reply).FetchFailed?
    requires ClassifyBundleReply(env.reply).NotModified? ==> IsSyncedCheckout(d)
    ensures StartSync(d, path, interactive, login, sitename, force, env).result
         == Started(SyncSession(ResolveSitename(sitename, DotFileContents(d)).value, path,
                                if ClassifyBundleReply(env.reply).NotModified? then env.revParse
                                else env.upstreamCommit, []))
  {
    var name := ResolveSitename(sitename, DotFileContents(d)).value;
    var prep := PrepareRepository(d, login, env.revParse);
    assert StartSync(d, path, interactive, login, sitename, force, env)
        == StartLocked(prep, name, path, interactive, force, env);
  }
}
