/**
 * `Client` (cmscloud_client/client.py:78-492): the command-line client of
 * the Aldryn control panel. It keeps the netrc credentials for its host, a
 * session bound to that host, and the sync handlers it has started.
 *
 * The HTTP exchange is given as a `Session.HttpReply`, the answers typed
 * at a prompt as a sequence of strings, and the `~/.netrc` file as the text
 * last written to it (`savedNetrc`).
 */
module CmsCloudClient {
  import opened Common
  import Text
  import NetRC
  import Session
  import opened LocalFiles
  import opened SyncStartup

  const LoginPath := "/api/v1/login/"
  const SitesPath := "/api/v1/sites/"
  const AuthorizationHeader := "Authorization"
  const InvalidCredentialsMessage := "Could not log in, invalid email or password"
  const LoginProblemMessage := "There was a problem logging in, please try again later."

  /** The value of the `Authorization` header for a token. */
  function BasicAuth(token: string): string {
    "Basic " + token
  }

  function LoggedInMessage(email: string): string {
    "Logged in as " + email
  }

  // ---------------------------------------------------------------------
  // Login response (cmscloud_client/client.py:150-176)
  // ---------------------------------------------------------------------

  datatype LoginOutcome = Accepted(token: string, message: string) | Refused(message: string)

  /**
   * How `login` reads the response: a successful status hands over the
   * token, 403 reports the body or a fixed message, and any other failure
   * puts the body (below 500 when it is non-empty) above a fixed line.
   */
  function ClassifyLogin(email: string, reply: Session.HttpReply): (r: LoginOutcome)
    ensures reply.NetworkFailure? ==> r == Refused(NetworkErrorMessage)
    ensures r.Accepted? <==> reply.Reply? && Session.IsOk(reply.status)
    ensures r.Accepted? ==> r.token == reply.content && r.message == LoggedInMessage(email)
    ensures reply.Reply? && reply.status == 403 ==>
              r == Refused(if reply.content != "" then reply.content else InvalidCredentialsMessage)
    ensures reply.Reply? && !Session.IsOk(reply.status) && reply.status != 403 ==>
              r == Refused(if reply.content != "" && reply.status < 500
                           then reply.content + "\n" + LoginProblemMessage
                           else LoginProblemMessage)
  {
    match reply
    case NetworkFailure => Refused(NetworkErrorMessage)
    case Reply(status, content) =>
      if Session.IsOk(status) then Accepted(content, LoggedInMessage(email))
      else if status == 403 then
        Refused(if content != "" then content else InvalidCredentialsMessage)
      else
        var shown := content != "" && status < 500;
        var msgs := (if shown then [content] else []) + [LoginProblemMessage];
        assert shown ==> msgs == [content, LoginProblemMessage] && msgs[1..] == [LoginProblemMessage];
        assert !shown ==> msgs == [LoginProblemMessage];
        assert shown ==> Text.JoinNewline(msgs) == content + "\n" + Text.JoinNewline([LoginProblemMessage]);
        Refused(Text.JoinNewline(msgs))
  }

  // ---------------------------------------------------------------------
  // Sites response (cmscloud_client/client.py:474-492)
  // ---------------------------------------------------------------------

  /**
   * How `sites` reads the response: 200 hands over the body, any other
   * status reports it the way `sync` reports an unexpected status.
   */
  function ClassifySites(reply: Session.HttpReply): (r: Result<string>)
    ensures reply.NetworkFailure? ==> r == Err(NetworkErrorMessage)
    ensures r.Ok? <==> reply.Reply? && reply.status == 200
    ensures r.Ok? ==> r.value == reply.content
    ensures reply.Reply? && reply.status != 200 ==>
              r == Err(UnexpectedResponseMessage(reply.status, reply.content))
  {
    match reply
    case NetworkFailure => Err(NetworkErrorMessage)
    case Reply(status, content) =>
      if status != 200 then Err(UnexpectedResponseMessage(status, content))
      else Ok(content)
  }

  /**
   * `sites` and `sync` report a failed request in the same words, except
   * that on 304 `sites` fails where `sync` goes on without fetching.
   */
  lemma SitesFailsLikeSync(reply: Session.HttpReply)
    ensures reply.Reply? && reply.status == 304 ==>
              ClassifySites(reply) == Err(UnexpectedResponseMessage(304, reply.content))
              && ClassifyBundleReply(reply) == NotModified
    ensures !(reply.Reply? && reply.status == 304) ==>
              (ClassifySites(reply).Err? <==> ClassifyBundleReply(reply).FetchFailed?)
    ensures !(reply.Reply? && reply.status == 304) && ClassifySites(reply).Err? ==>
              ClassifySites(reply).message == ClassifyBundleReply(reply).message
  {
  }

  // ---------------------------------------------------------------------
  // Confirmation prompt (cmscloud_client/client.py:133-141)
  // ---------------------------------------------------------------------

  /** What the operator's answers amount to; `NoAnswer` when the input ends first. */
  datatype Decision = Proceed | Abort | NoAnswer

  /** An empty answer, or `n` in either case, declines. */
  predicate Declines(answer: string) {
    answer == "" || Text.LowersTo(answer, 'n')
  }

  /** `y` in either case accepts. */
  predicate Accepts(answer: string) {
    Text.LowersTo(answer, 'y')
  }

  /** The position of the first answer that decides, or `|answers|` when none does. */
  function FirstDecisive(answers: seq<string>): (i: nat)
    ensures i <= |answers|
    ensures forall j :: 0 <= j < i ==> !Declines(answers[j]) && !Accepts(answers[j])
    ensures i < |answers| ==> Declines(answers[i]) || Accepts(answers[i])
  {
    if answers == [] || Declines(answers[0]) || Accepts(answers[0]) then 0
    else 1 + FirstDecisive(answers[1..])
  }

  /** The decision the first decisive answer makes. */
  function Confirmation(answers: seq<string>): Decision {
    var i := FirstDecisive(answers);
    if i == |answers| then NoAnswer
    else if Declines(answers[i]) then Abort
    else Proceed
  }

  /**
   * The prompt loop: reads answers until one decides; `used` is how many it
   * read.
   */
  method AskToContinue(answers: seq<string>) returns (d: Decision, used: nat)
    ensures d == Confirmation(answers)
    ensures d.NoAnswer? ==> used == |answers|
    ensures !d.NoAnswer? ==> used == FirstDecisive(answers) + 1
  {
    used := 0;
    d := NoAnswer;
    while used < |answers|
      invariant used <= FirstDecisive(answers)
      invariant d == NoAnswer
    {
      var answer := answers[used];
      used := used + 1;
      if Declines(answer) {
        d := Abort;
        return;
      } else if Accepts(answer) {
        d := Proceed;
        return;
      }
    }
  }

  /** No answer both declines and accepts. */
  lemma DeclineExcludesAccept(answer: string)
    ensures !(Declines(answer) && Accepts(answer))
  {
  }

  /** Invalid answers before the decisive one are asked again and change nothing. */
  lemma {:induction false} InvalidAnswersIgnored(invalid: seq<string>, rest: seq<string>)
    requires forall j :: 0 <= j < |invalid| ==> !Declines(invalid[j]) && !Accepts(invalid[j])
    ensures Confirmation(invalid + rest) == Confirmation(rest)
    ensures FirstDecisive(invalid + rest) == |invalid| + FirstDecisive(rest)
  {
    var all := invalid + rest;
    if invalid == [] {
      assert all == rest;
    } else {
      assert all[1..] == invalid[1..] + rest;
      InvalidAnswersIgnored(invalid[1..], rest);
      assert all[0] == invalid[0];
    }
    var i := FirstDecisive(rest);
    assert i < |rest| ==> all[|invalid| + i] == rest[i];
  }

  /** The answer is read case-insensitively, and an empty one is a no. */
  lemma AnswersIgnoreCase(rest: seq<string>)
    ensures Confirmation(["Y"] + rest) == Proceed && Confirmation(["y"] + rest) == Proceed
    ensures Confirmation(["N"] + rest) == Abort && Confirmation(["n"] + rest) == Abort
    ensures Confirmation([""] + rest) == Abort
  {
    assert Text.LowerChar('Y') == 'y' && Text.LowerChar('N') == 'n';
  }

  // ---------------------------------------------------------------------
  // The client
  // ---------------------------------------------------------------------

  class Client {
    /** `self.host`: the network location of the control panel's address. */
    const host: string
    const interactive: bool
    const netrc: NetRC.WritableNetRC
    const session: Session.SingleHostSession
    /** The contents of `~/.netrc` as last written. */
    var savedNetrc: string
    /** `_sync_handlers_cache`: the sessions started, by sitename. */
    var syncHandlers: map<string, SyncSession>

    ghost predicate Valid() {
      session.Valid()
    }

    /**
     * `Client(host, interactive)`: `address` is the address given, `netloc`
     * its network location, `stored` the table `~/.netrc` held. When that
     * table has credentials for the host, the session sends their token.
     */
    constructor (address: string, netloc: string, interactive0: bool,
                 stored: NetRC.Hosts, savedText: string)
      ensures Valid()
      ensures host == netloc && interactive == interactive0
      ensures fresh(netrc) && netrc.hosts == stored
      ensures fresh(session) && session.address == address
      ensures netloc in stored ==> session.headers == map[AuthorizationHeader := BasicAuth(stored[netloc].password)]
      ensures netloc !in stored ==> session.headers == map[]
      ensures savedNetrc == savedText && syncHandlers == map[]
    {
      host := netloc;
      interactive := interactive0;
      netrc := new NetRC.WritableNetRC(stored);
      var headers := if netloc in stored then map[AuthorizationHeader := BasicAuth(stored[netloc].password)]
                     else map[];
      session := new Session.SingleHostSession(address, headers);
      savedNetrc := savedText;
      syncHandlers := map[];
    }

    /** `get_auth_data`: the netrc record for the host, if any. */
    function GetAuthData(): (r: Option<NetRC.Entry>)
      reads netrc
      ensures r.Some? <==> host in netrc.hosts
      ensures r.Some? ==> r.value == netrc.hosts[host]
    {
      if host in netrc.hosts then Some(netrc.hosts[host]) else None
    }

    /** `is_logged_in`: a record is a non-empty tuple, so any record counts. */
    predicate IsLoggedIn()
      reads netrc
    {
      GetAuthData().Some?
    }

    /** `get_login`: the login of the host's record, or nothing when logged out. */
    function GetLogin(): (r: Option<string>)
      reads netrc
      ensures r.Some? <==> host in netrc.hosts
      ensures r.Some? ==> r.value == netrc.hosts[host].login
    {
      if IsLoggedIn() then Some(GetAuthData().value.login) else None
    }

    /** Writes the netrc table to `~/.netrc`. */
    method SaveNetrc()
      modifies this`savedNetrc
      ensures exists order :: NetRC.EnumeratesKeys(netrc.hosts, order) && savedNetrc == NetRC.Render(netrc.hosts, order)
      ensures NetRC.SingleLine(netrc.hosts) ==> NetRC.ReadNetrc(savedNetrc) == netrc.hosts
    {
      var text, order := netrc.Write();
      savedNetrc := text;
      if NetRC.SingleLine(netrc.hosts) {
        NetRC.WriteReadsBack(netrc.hosts, order);
      }
    }

    /**
     * `logout`: an interactive client asks first and leaves everything as it
     * was unless the answer is yes; then the host's record is deleted and
     * the file rewritten.
     */
    method Logout(answers: seq<string>) returns (d: Decision)
      modifies netrc, this`savedNetrc
      ensures d == (if interactive then Confirmation(answers) else Proceed)
      ensures d.Proceed? ==> netrc.hosts == old(netrc.hosts) - {host} && !IsLoggedIn()
      ensures d.Proceed? ==> exists order :: NetRC.EnumeratesKeys(netrc.hosts, order)
                                             && savedNetrc == NetRC.Render(netrc.hosts, order)
      ensures d.Proceed? && NetRC.SingleLine(old(netrc.hosts)) ==> NetRC.ReadNetrc(savedNetrc) == netrc.hosts
      ensures !d.Proceed? ==> netrc.hosts == old(netrc.hosts) && savedNetrc == old(savedNetrc)
    {
      d := Proceed;
      if interactive {
        var used;
        d, used := AskToContinue(answers);
        if !d.Proceed? {
          return;
        }
      }
      netrc.Remove(host);
      assert forall h :: h in netrc.hosts ==> h in old(netrc.hosts) && netrc.hosts[h] == old(netrc.hosts)[h];
      SaveNetrc();
    }

    /**
     * `login`: posts to the login path of the session's host. On success the
     * session sends the new token, the host's record holds the email and the
     * token, and the file is rewritten; otherwise nothing changes.
     */
    method Login(email: string, reply: Session.HttpReply) returns (ok: bool, message: string, url: string)
      requires Valid()
      modifies session, netrc, this`savedNetrc
      ensures url == Session.JoinUrl(session.address, LoginPath)
      ensures var c := ClassifyLogin(email, reply); ok == c.Accepted? && message == c.message
      ensures ok ==> var token := ClassifyLogin(email, reply).token;
        && session.headers == map[AuthorizationHeader := BasicAuth(token)]
        && netrc.hosts == old(netrc.hosts)[host := NetRC.Entry(email, "", token)]
        && GetLogin() == Some(email)
        && (exists order :: NetRC.EnumeratesKeys(netrc.hosts, order) && savedNetrc == NetRC.Render(netrc.hosts, order))
        && (NetRC.SingleLine(netrc.hosts) ==> NetRC.ReadNetrc(savedNetrc) == netrc.hosts)
      ensures !ok ==> session.headers == old(session.headers) && netrc.hosts == old(netrc.hosts)
                      && savedNetrc == old(savedNetrc)
    {
      url := session.RequestUrl(LoginPath);
      var c := ClassifyLogin(email, reply);
      ok, message := c.Accepted?, c.message;
      if ok {
        session.headers := map[AuthorizationHeader := BasicAuth(c.token)];
        netrc.Add(host, email, "", c.token);
        SaveNetrc();
      }
    }

    /** `sites`: requests the site list from the session's host. */
    method Sites(reply: Session.HttpReply) returns (r: Result<string>, url: string)
      requires Valid()
      ensures url == Session.JoinUrl(session.address, SitesPath)
      ensures r == ClassifySites(reply)
    {
      url := session.RequestUrl(SitesPath);
      r := ClassifySites(reply);
    }

    /** `_acquire_sync_lock`: creates the lock file unless it exists already. */
    method AcquireSyncLock(dir: Directory) returns (ok: bool)
      requires dir.Valid()
      modifies dir
      ensures dir.Valid()
      ensures Created(ok, dir.State()) == CreateIn(old(dir.State()), LockFile)
    {
      ok := dir.CreateExclusive(LockFile);
    }

    /** `_remove_sync_lock`: deletes the lock file when there is one. */
    method RemoveSyncLock(dir: Directory)
      requires dir.Valid()
      modifies dir
      ensures dir.Valid()
      ensures dir.State() == RemoveFrom(old(dir.State()), LockFile)
    {
      dir.RemoveIfExists(LockFile);
    }

    /**
     * The repository step of `sync`: an existing synced checkout is kept;
     * otherwise the directory is emptied into a backup or created, and the
     * repository initialised with the sync author.
     */
    method PrepareCheckout(dir: Directory, revParse: string)
      returns (commands: seq<GitCommand>, lastSynced: Option<string>)
      requires dir.Valid()
      modifies dir
      ensures dir.Valid()
      ensures Prepared(dir.State(), commands, lastSynced) == PrepareRepository(old(dir.State()), GetLogin(), revParse)
    {
      if GitDir in dir.files && DotFile in dir.files {
        return [], Some(revParse);
      }
      if dir.present {
        if dir.files != map[] {
          dir.MoveToBackup();
        }
      } else {
        dir.MakeDirs();
      }
      dir.WriteFile(GitDir, "");
      commands := [Init, SetUser(SyncBotName, GetLogin())];
      lastSynced := None;
    }

    /**
     * The steps of `sync` after a 200: the bundle file receives the body,
     * and the remote and the branch are created only when git does not list
     * them.
     */
    method UpdateCheckout(dir: Directory, path: string, env: SyncEnv) returns (update: seq<GitCommand>)
      requires dir.Valid() && dir.present
      modifies dir
      ensures dir.Valid()
      ensures dir.State() == old(dir.State()).(files := old(dir.files)[BundleFile := BundlePayload(env.chunks)])
      ensures update == UpdateFromBundle(path, env.remotes, env.branches)
    {
      var data, written := CopyChunks(env.chunks);
      dir.WriteFile(BundleFile, data);
      update := [];
      if BundleRemote !in env.remotes {
        update := [AddRemote(BundleRemote, Text.PathJoin(path, BundleFile))];
      }
      update := update + [FetchRemote(BundleRemote)];
      if DevelopBranch !in env.branches {
        update := update + [CheckoutNewBranch(DevelopBranch, UpstreamRef)];
      }
      update := update + [Merge(UpstreamRef, DevelopBranch)];
    }

    /** `_is_syncing`. */
    predicate IsSyncing(sitename: string)
      reads this
    {
      sitename in syncHandlers
    }

    /**
     * `sync` up to starting the handler, step by step on `dir`: it does
     * what `StartSync` describes, and a started session is recorded under
     * its sitename.
     */
    method Sync(dir: Directory, path: string, sitename: string, force: bool, env: SyncEnv)
      returns (result: SyncResult, commands: seq<GitCommand>, request: Option<BundleRequest>)
      requires dir.Valid()
      modifies dir, this`syncHandlers
      ensures dir.Valid()
      ensures SyncStep(result, dir.State(), commands, request)
           == StartSync(old(dir.State()), path, interactive, GetLogin(), sitename, force, env)
      ensures result.Started? ==> syncHandlers == old(syncHandlers)[result.session.sitename := result.session]
                                  && IsSyncing(result.session.sitename)
      ensures !result.Started? ==> syncHandlers == old(syncHandlers)
    {
      ghost var d0 := dir.State();
      var dot := if DotFile in dir.files then Some(dir.files[DotFile]) else None;
      assert dot == DotFileContents(d0);
      var resolved := ResolveSitename(sitename, dot);
      if resolved.Err? {
        return Failed(resolved.message), [], None;
      }
      var name := resolved.value;
      var mismatch := CheckDirSitename(name, dot);
      if mismatch.Some? {
        return Failed(mismatch.value), [], None;
      }

      if BackupRefused(dir.State(), path) {
        return Raised, [], None;
      }
      var lastSynced;
      commands, lastSynced := PrepareCheckout(dir, env.revParse);
      var prep := Prepared(dir.State(), commands, lastSynced);
      assert StartSync(d0, path, interactive, GetLogin(), sitename, force, env)
          == StartLocked(prep, name, path, interactive, force, env);
      result, commands, request := LockAndFetch(dir, prep, name, path, force, env);
    }

    /** The lock step of `sync`, then the request. */
    method LockAndFetch(dir: Directory, prep: Prepared, name: string, path: string, force: bool, env: SyncEnv)
      returns (result: SyncResult, commands: seq<GitCommand>, request: Option<BundleRequest>)
      requires dir.Valid() && dir.State() == prep.dir && dir.present
      modifies dir, this`syncHandlers
      ensures dir.Valid()
      ensures SyncStep(result, dir.State(), commands, request) == StartLocked(prep, name, path, interactive, force, env)
      ensures result.Started? ==> syncHandlers == old(syncHandlers)[result.session.sitename := result.session]
      ensures !result.Started? ==> syncHandlers == old(syncHandlers)
    {
      var locked := AcquireSyncLock(dir);
      if !locked {
        var stop := OnLockHeld(interactive, env.confirmed, force);
        if stop.Some? {
          return Failed(stop.value), prep.commands, None;
        }
      }
      result, commands, request := Fetch(dir, prep, name, path, env);
    }

    /** The request step of `sync`, then the checkout update and the handler. */
    method Fetch(dir: Directory, prep: Prepared, name: string, path: string, env: SyncEnv)
      returns (result: SyncResult, commands: seq<GitCommand>, request: Option<BundleRequest>)
      requires dir.Valid() && dir.present
      modifies dir, this`syncHandlers
      ensures dir.Valid()
      ensures SyncStep(result, dir.State(), commands, request) == StartFetched(old(dir.State()), prep, name, path, env)
      ensures result.Started? ==> syncHandlers == old(syncHandlers)[result.session.sitename := result.session]
      ensures !result.Started? ==> syncHandlers == old(syncHandlers)
    {
      commands := prep.commands;
      request := Some(BundleRequest(GitSyncUrl(name), prep.lastSyncedCommit));
      var fetch := ClassifyBundleReply(env.reply);
      if fetch.FetchFailed? {
        RemoveSyncLock(dir);
        return Failed(fetch.message), commands, request;
      }
      if fetch.Modified? {
        var update := UpdateCheckout(dir, path, env);
        commands := commands + update;
      }
      commands := commands + [UpdateGitignore(IgnorePatterns)];
      dir.WriteFile(DotFile, name);
      if fetch.NotModified? && prep.lastSyncedCommit.None? {
        return Raised, commands, request;
      }
      var commit := if fetch.NotModified? then prep.lastSyncedCommit.value else env.upstreamCommit;
      var session := SyncSession(name, path, commit, []);
      syncHandlers := syncHandlers[name := session];
      result := Started(session);
    }
  }
}
