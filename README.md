# cmscloud client: verified model of its decision logic

`cmscloud_client/client.py` is the command-line client of the Aldryn (django CMS cloud)
control panel. Under its HTTP, git and filesystem glue sit a credential table and a handful of
decision procedures. This project models them in Dafny and proves what they promise.

- **NetRC.dfy**: the credential table `WritableNetRC`.
  - It is a class whose `hosts` map `add` and `remove` update in place.
  - `write` is a loop that builds the netrc text host by host.
  - A line-level reader (`ReadNetrc`) shows that the text carries the whole table back.
- **Session.dfy**: `SingleHostSession`, which joins every request path onto `host.rstrip('/')`.
- **ConfigFiles.dfy**: the choice between the JSON and YAML config files in
  `_load_boilerplate` and `_load_app`.
- **LocalFiles.dfy**: a sync directory as a map of entry names, with a presence flag and the
  backups made of it. This covers the exclusive-create lock file and its idempotent removal.
- **SyncStartup.dfy**: the start-up decisions of `sync`, as functions.
  - They cover sitename resolution and truncation, the mismatch error and repository
    preparation.
  - They also cover the held-lock policy, the bundle response classification, the chunk-copy
    loop and the "only if missing" git checks.
  - `StartSync` describes the whole start-up; the lemmas about it state the promised properties.
- **Client.dfy**: the `Client` class.
  - It covers the constructor, `get_auth_data` and `get_login`, and `login` with its response
    classification.
  - It covers `logout` with its confirmation loop, `sites`, and the two lock helpers.
  - `Sync` performs the start-up step by step on a `Directory` object. It is proved equal to
    `StartSync` and records the started session in the handler cache.
- **Text.dfy** and **Common.dfy**: the Python string built-ins used
  (`strip`, `rstrip('/')`, `split('.')[0]`, `'%s' % n`, `lower`, `os.path.join`), plus `Option`,
  `Result` and the client's fixed messages.

The outside world is modelled as inputs:

- an HTTP exchange is a `Session.HttpReply`, which is either a connection failure or a status
  code and a body;
- the answers typed at a prompt are a sequence of strings;
- what git prints is a list of words;
- the response body is the list of chunks `iter_content` yields.

Git commands are recorded as `GitCommand` values, not run.

## Model

| member | source | states |
|---|---|---|
| NetRC.WritableNetRC.constructor | cmscloud_client/client.py:28-36 | the table starts as the one parsed from `~/.netrc` |
| NetRC.WritableNetRC.Add | cmscloud_client/client.py:42-43 | `host` maps to `(login, account, password)` afterwards; every other host keeps its record and no host appears or disappears |
| NetRC.WritableNetRC.Remove | cmscloud_client/client.py:45-47 | exactly `host` is deleted; removing an absent host leaves the table as it was |
| NetRC.WritableNetRC.Write | cmscloud_client/client.py:49-61 | the text is the blocks of all hosts, each host exactly once, in the order the loop visits them |
| NetRC.FieldLines | cmscloud_client/client.py:56-61 | the tab-indented `login`, `account` and `password` lines of one record, in that order, each only when its field is non-empty |
| NetRC.BlockLines | cmscloud_client/client.py:53-61 | one host's block: its `machine` line, then its field lines |
| NetRC.RenderLines | cmscloud_client/client.py:53-61 | the blocks of the hosts in the order the loop visits them, one after the other |
| NetRC.Render | cmscloud_client/client.py:49-61 | the file text: every rendered line followed by a newline |
| NetRC.WriteMachine | cmscloud_client/client.py:53-61 | one host's writes are its `machine` line, then a tab-indented line for each non-empty field, in the order login, account, password |
| NetRC.EveryHostWritten | cmscloud_client/client.py:53-55 | every host of the table gets a `machine <host>` line |
| NetRC.MachineLinesListed | cmscloud_client/client.py:53-55 | every host in the visiting order gets its `machine` line |
| NetRC.NoEmptyFieldLines | cmscloud_client/client.py:56-61 | no bare `login`, `account` or `password` line is written: empty fields produce no line |
| NetRC.BlockLinesCarryValues | cmscloud_client/client.py:55-61 | within one host's block, every field line carries a value after its keyword |
| NetRC.WriteReadsBack | cmscloud_client/client.py:49-61 | when no name or field contains a newline, reading the written text gives back exactly the table, whatever the visiting order |
| NetRC.JoinLinesAppend | cmscloud_client/client.py:52-61 | writing two runs of lines one after the other is writing their concatenation |
| NetRC.RenderLinesAppend | cmscloud_client/client.py:53 | visiting one more host appends that host's block |
| NetRC.ReadMachineLine | cmscloud_client/client.py:53-61 | a `machine` line followed by indented field lines and further blocks reads as that host's fields over what the rest yields |
| NetRC.ReadBlock | cmscloud_client/client.py:53-61 | reading one written block then further blocks yields that host's record over what the rest yields |
| NetRC.ReadFieldsOfFieldLines | cmscloud_client/client.py:56-61 | the field lines read back as the record with its empty fields empty |
| NetRC.SplitJoin | cmscloud_client/client.py:55-61 | newline-terminated lines without newlines split back into the same lines |
| NetRC.RenderLinesSingleLine | cmscloud_client/client.py:55-61 | the written lines contain no newline when the table's names and fields contain none |
| Session.JoinUrl | cmscloud_client/client.py:67-72 | the URL is the address up to its trailing slashes, followed by the path |
| Session.JoinUrlIgnoresTrailingSlash | cmscloud_client/client.py:67 | an extra trailing slash on the address changes no URL |
| Session.IsOk | cmscloud_client/client.py:156 | `response.ok`: false exactly for the client and server error codes 400 to 599 |
| Session.SingleHostSession.constructor | cmscloud_client/client.py:65-69 | the session remembers the address, its slash-stripped host and the given headers |
| Session.SingleHostSession.RequestUrl | cmscloud_client/client.py:71-72 | each request goes to `JoinUrl(address, url)` |
| Text.Strip | cmscloud_client/client.py:338 | `str.strip()`: the result is the input with its leading and trailing whitespace cut off; it neither starts nor ends with whitespace, and everything cut is whitespace |
| Text.StripUntrimmed | cmscloud_client/client.py:346 | stripping a string with no surrounding whitespace gives it back |
| Text.TrimRightChar | cmscloud_client/client.py:67 | `rstrip('/')`: a prefix, followed in the input only by slashes, and not ending in one |
| Text.BeforeFirstDot | cmscloud_client/client.py:342-343 | `split('.')[0]`: a dot-free prefix that is followed by a dot or is all of the input |
| Text.NatToDecimal | cmscloud_client/client.py:403 | `'%s' % code`: non-empty decimal digits that read back to the code, starting with `0` only for the code 0, which gives exactly `0` |
| Text.PathJoin | cmscloud_client/client.py:179-180 | `os.path.join(dir, name)`: an absolute `name` alone; for a relative `name`, `name` alone when `dir` is empty, `dir + name` when `dir` ends in `/`, and `dir + "/" + name` otherwise; the result always ends in `name` |
| Text.Basename | cmscloud_client/client.py:361-362 | `os.path.basename`: the slash-free end of the path that follows its last `/`, or all of it |
| Text.BasenameOfJoin | cmscloud_client/client.py:361-362 | the basename of `os.path.join(dir, name)` is `name` when `name` has no `/` |
| Text.LowerChar | cmscloud_client/client.py:135-138 | Python 2 `str.lower()` on one byte: an ASCII capital moves 32 code points up to its small letter; every other character is kept |
| Text.LowersTo | cmscloud_client/client.py:135-138 | `answer.lower() == c`: the answer is one character that lowers to `c` |
| Text.JoinNewline | cmscloud_client/client.py:402-407 | `'\n'.join(parts)`: the parts with one newline between neighbours and none at the end |
| ConfigFiles.SelectConfig | cmscloud_client/client.py:181-197 | only YAML gives YAML with json false; only JSON gives JSON with json true; both give "Please provide only one config file"; neither gives "Neither file ... nor ... were found." |
| ConfigFiles.LoadBoilerplate | cmscloud_client/client.py:178-197 | the four cases for `boilerplate.json` / `boilerplate.yaml` joined onto the path |
| ConfigFiles.LoadApp | cmscloud_client/client.py:243-262 | the four cases for `app.json` / `app.yaml` joined onto the path |
| Common.UnexpectedResponseMessage | cmscloud_client/client.py:401-407 | "Unexpected HTTP Response <code>", with the body on a second line only when the code is below 500 |
| LocalFiles.CreateIn | cmscloud_client/client.py:314-323 | an exclusive create succeeds exactly when the directory exists and the name is absent; afterwards the name is present; a failure changes nothing |
| LocalFiles.RemoveFrom | cmscloud_client/client.py:325-329 | afterwards the name is absent, whether or not it was present; nothing else changes |
| LocalFiles.CreateTwiceFails | cmscloud_client/client.py:318 | a second exclusive create of the same name fails |
| LocalFiles.RemoveTwice | cmscloud_client/client.py:328-329 | removing twice is removing once |
| LocalFiles.CreateAfterRemove | cmscloud_client/client.py:314-329 | after a removal, an exclusive create in an existing directory succeeds again |
| LocalFiles.Directory.constructor | cmscloud_client/client.py:331-333 | the directory object holds the given state of `sync`'s `path` |
| LocalFiles.Directory.CreateExclusive | cmscloud_client/client.py:318-319 | the in-place create does what `CreateIn` describes |
| LocalFiles.Directory.RemoveIfExists | cmscloud_client/client.py:328-329 | the in-place removal does what `RemoveFrom` describes |
| LocalFiles.Directory.WriteFile | cmscloud_client/client.py:446-447 | the entry holds exactly the written contents afterwards; nothing else changes |
| LocalFiles.Directory.MoveToBackup | cmscloud_client/client.py:361-363 | the old contents become the newest backup and the directory is empty |
| LocalFiles.Directory.MakeDirs | cmscloud_client/client.py:365 | a missing directory now exists and is empty |
| SyncStartup.ResolveSitename | cmscloud_client/client.py:335-343 | a non-empty argument wins over `.cmscloud`; with neither, "Please specify a sitename using --sitename."; the result is cut at its first dot and has none |
| SyncStartup.LeadingDotResolvesToEmpty | cmscloud_client/client.py:339-343 | the emptiness test comes before the cut, so a name starting with a dot resolves to the empty name |
| SyncStartup.DottedDotFileResolvesToEmpty | cmscloud_client/client.py:337-343 | with no argument, a `.cmscloud` whose stripped contents start with a dot also resolves to the empty name |
| SyncStartup.CheckDirSitename | cmscloud_client/client.py:344-349 | an error exactly when `.cmscloud` exists and its stripped contents differ from the resolved name, and the error names the recorded site |
| SyncStartup.DottedDotFileAlwaysMismatches | cmscloud_client/client.py:342-349 | a `.cmscloud` whose contents hold a dot always mismatches |
| SyncStartup.DotFileSitenameAgrees | cmscloud_client/client.py:335-349 | a dot-free `.cmscloud` alone resolves to its contents and never mismatches |
| SyncStartup.PrepareRepository | cmscloud_client/client.py:350-374 | a synced checkout is kept and the request carries its last synced commit; otherwise a non-empty directory is backed up whole, a missing one created, and `git init` plus the sync author issued (the start-up applies it only once `BackupRefused` is ruled out) |
| SyncStartup.BackupInsideItself | cmscloud_client/client.py:361-362 | the backup name `path - <now>.backup` lies inside `path` exactly when the basename of `path` is empty, `.` or `..` |
| SyncStartup.BackupRefused | cmscloud_client/client.py:358-362 | the repository step would move a non-empty, unsynced directory into a backup inside itself, which `shutil.move` refuses |
| SyncStartup.JoinedPathBacksUpBeside | cmscloud_client/client.py:361-362 | a path that ends in a plain name joined onto any directory has its backup beside it, so the move is not refused |
| SyncStartup.BackupIntoItselfRaises | cmscloud_client/client.py:358-362 | a refused backup makes `sync` raise before any backup, repository, lock or request, with the directory unchanged |
| SyncStartup.IsSyncedCheckout | cmscloud_client/client.py:352 | an existing synced checkout is one with both `.git` and `.cmscloud` |
| SyncStartup.OnLockHeld | cmscloud_client/client.py:376-387 | with the lock held, an interactive start-up goes on exactly when confirmed and otherwise fails with "Aborted"; a non-interactive one goes on exactly with `force` and otherwise fails with "Directory already syncing." |
| SyncStartup.ClassifyBundleReply | cmscloud_client/client.py:389-407 | 304 is not modified and 200 modified; a network failure gives the network message; any other status gives the unexpected-response message |
| SyncStartup.ErrorBodyShownBelow500 | cmscloud_client/client.py:401-407 | the error message begins with the status line, and the body follows on a new line exactly when the code is below 500 |
| SyncStartup.FirstEmpty | cmscloud_client/client.py:412-414 | the position of the first empty chunk, or the number of chunks |
| SyncStartup.CopyChunks | cmscloud_client/client.py:410-415 | the loop writes exactly the chunks before the first empty one, concatenated |
| SyncStartup.ChunksAfterEmptyIgnored | cmscloud_client/client.py:412-415 | chunks after an empty one never reach the bundle file |
| SyncStartup.AllChunksWritten | cmscloud_client/client.py:412-415 | without an empty chunk the whole body is written |
| SyncStartup.RegisterRemote | cmscloud_client/client.py:416-420 | when `git remote` does not list `develop_bundle`, the one command is `git remote add develop_bundle <bundle path>`; otherwise nothing is issued |
| SyncStartup.RegisterRemoteIdempotent | cmscloud_client/client.py:416-420 | once the remote is listed, the check issues nothing |
| SyncStartup.EnsureDevelopBranch | cmscloud_client/client.py:423-427 | when `git branch` does not list `develop`, the one command is `git checkout -b develop develop_bundle/develop`; otherwise nothing is issued |
| SyncStartup.UpdateFromBundle | cmscloud_client/client.py:416-429 | after a fetched bundle: the remote when missing, `git fetch develop_bundle`, the `develop` branch when missing, then the merge of `develop_bundle/develop` |
| SyncStartup.StartSync | cmscloud_client/client.py:335-458 | the whole start-up: the sitename and mismatch checks, which change nothing when they fail, the refused backup, which raises and changes nothing, then the repository step and the lock step |
| SyncStartup.StartLocked | cmscloud_client/client.py:376-388 | take the lock; when it is held, stop with the held-lock policy's message or go on to the request step |
| SyncStartup.StartFetched | cmscloud_client/client.py:389-458 | the request step: a failed request removes the lock; otherwise the bundle is applied, `.cmscloud` written, and a session started, except that a 304 for a repository that was not a synced checkout raises |
| SyncStartup.StartedPath | cmscloud_client/client.py:335-458 | a start-up that succeeds resolved a matching name, had its backup possible, took or was allowed past the lock, and got 200 or 304 |
| SyncStartup.StartSucceeds | cmscloud_client/client.py:335-458 | conversely, a matching name, a possible backup, passing the lock and a 200 reply, or a 304 in a synced checkout, start a session under that name, from the `git rev-parse` commit on 304 and the fetched commit on 200 |
| SyncStartup.StartSyncPrepares | cmscloud_client/client.py:335-388 | past the sitename, mismatch and backup checks, the start-up is the lock step on the prepared repository |
| SyncStartup.LockedKeepsBackups | cmscloud_client/client.py:376-458 | the lock, request and update steps never change the backups |
| SyncStartup.MissingSitenameChangesNothing | cmscloud_client/client.py:335-341 | without a sitename, the start-up fails with the missing-sitename message and changes nothing |
| SyncStartup.MismatchChangesNothing | cmscloud_client/client.py:344-349 | on a mismatch, the start-up fails before any repository, lock or network step and changes nothing |
| SyncStartup.StartedSession | cmscloud_client/client.py:335-458 | a started sync runs under a dot-free name, the explicit one when given; `.cmscloud` records it; the lock and `.git` are present |
| SyncStartup.FailureLeavesNoOwnLock | cmscloud_client/client.py:376-407 | a start-up that returns a failure leaves a lock only when it stopped at the lock step and the lock was already there; after a failed request there is no lock |
| SyncStartup.FetchedFacts | cmscloud_client/client.py:389-458 | after the request, a failure removes the lock; otherwise every entry and the lock are kept, `.cmscloud` records the sitename, and a started session carries it |
| SyncStartup.FetchFailureMessage | cmscloud_client/client.py:393-407 | a failed request's message is never "Aborted" or "Directory already syncing." |
| SyncStartup.HeldLockPolicy | cmscloud_client/client.py:376-387 | with the lock already held, the whole start-up fails with "Aborted" exactly when an interactive operator declines, and with "Directory already syncing." exactly when a non-interactive one lacks `force` |
| SyncStartup.ForcedStartRemovesForeignLock | cmscloud_client/client.py:384-396 | a forced start-up past a held lock removes that lock when the network fails |
| SyncStartup.NotModifiedFetchesNothing | cmscloud_client/client.py:350-458 | a start-up answered 304 that starts writes no bundle, issues only the `.gitignore` update after the preparation, and happens only in a synced checkout; the request named its `git rev-parse` commit and the session goes on from that commit |
| SyncStartup.FreshCheckoutNotModifiedRaises | cmscloud_client/client.py:350-449 | a 304 for a directory that was not a synced checkout raises, with `.cmscloud` already written and the lock this call took left behind |
| SyncStartup.ModifiedFetchesBundle | cmscloud_client/client.py:409-450 | on 200 the bundle holds the payload, fetch and merge are issued, the remote is added exactly when it is not listed, and the session goes on from the fetched upstream commit |
| SyncStartup.ModifiedFetched | cmscloud_client/client.py:409-450 | the same for the request step on its own, which starts the session at the upstream commit |
| SyncStartup.UnsyncedContentsBackedUp | cmscloud_client/client.py:358-363 | a non-empty directory that is not a synced checkout, and whose backup lies outside it, becomes the newest backup with all its files |
| CmsCloudClient.ClassifyLogin | cmscloud_client/client.py:150-176 | a network failure gives the network message; an ok status gives the token and "Logged in as <email>"; 403 gives the body or "Could not log in, invalid email or password"; any other failure gives the fixed line, below the body when the body is non-empty and the code below 500 |
| CmsCloudClient.ClassifySites | cmscloud_client/client.py:474-492 | 200 gives the body; a network failure gives the network message; any other status gives the unexpected-response message for that status and body |
| CmsCloudClient.SitesFailsLikeSync | cmscloud_client/client.py:474-485 | apart from 304, `sites` fails exactly when the bundle request fails, and with the same message; 304 is an error for `sites` but not for the bundle request |
| CmsCloudClient.FirstDecisive | cmscloud_client/client.py:133-141 | the position of the first answer that is empty, `n` or `y` in either case, or the number of answers |
| CmsCloudClient.Declines | cmscloud_client/client.py:135 | an empty answer, `n` or `N` declines |
| CmsCloudClient.Accepts | cmscloud_client/client.py:138 | `y` or `Y` accepts |
| CmsCloudClient.Confirmation | cmscloud_client/client.py:133-141 | the first decisive answer decides: a declining one aborts, an accepting one proceeds, and none decides nothing |
| CmsCloudClient.AskToContinue | cmscloud_client/client.py:133-141 | the loop stops at the first decisive answer: yes proceeds, no or empty aborts, running out of answers decides nothing; `used` counts the answers read |
| CmsCloudClient.DeclineExcludesAccept | cmscloud_client/client.py:135-138 | no answer both aborts and proceeds |
| CmsCloudClient.InvalidAnswersIgnored | cmscloud_client/client.py:140-141 | invalid answers are asked again and do not change the decision |
| CmsCloudClient.AnswersIgnoreCase | cmscloud_client/client.py:135-138 | `Y` and `y` proceed; `N`, `n` and the empty answer abort |
| CmsCloudClient.Client.constructor | cmscloud_client/client.py:103-118 | the session sends `Basic <password>` exactly when the table has a record for the host; the handler cache starts empty |
| CmsCloudClient.Client.GetAuthData | cmscloud_client/client.py:120-121 | the host's record, present exactly when the table has the host |
| CmsCloudClient.Client.IsLoggedIn | cmscloud_client/client.py:123-125 | logged in exactly when the table has a record for the host |
| CmsCloudClient.Client.GetLogin | cmscloud_client/client.py:123-130 | the login of the host's record, present exactly when logged in |
| CmsCloudClient.Client.SaveNetrc | cmscloud_client/client.py:143 | `~/.netrc` now holds the table rendered in some order that lists each host once; it reads back as the table when no value holds a newline |
| CmsCloudClient.Client.Logout | cmscloud_client/client.py:132-143 | an interactive client changes nothing unless the answers say yes; otherwise the host's record is gone, the client is logged out, the file is the rendered new table, and it reads back as that table when no value holds a newline |
| CmsCloudClient.Client.Login | cmscloud_client/client.py:145-176 | the login is posted to the host's login path; on success the session sends the token, the host's record holds the email and token, the login is the email, the file is the rendered table, and it reads back as the table when no value holds a newline; otherwise nothing changes |
| CmsCloudClient.Client.Sites | cmscloud_client/client.py:474-492 | the site list is requested from the host's sites path and the reply classified |
| CmsCloudClient.Client.AcquireSyncLock | cmscloud_client/client.py:314-323 | the lock is created exactly as `CreateIn` describes |
| CmsCloudClient.Client.RemoveSyncLock | cmscloud_client/client.py:325-329 | the lock is removed exactly as `RemoveFrom` describes |
| CmsCloudClient.Client.PrepareCheckout | cmscloud_client/client.py:350-374 | the in-place repository step does what `PrepareRepository` describes, with the client's login as the author's email |
| CmsCloudClient.Client.UpdateCheckout | cmscloud_client/client.py:409-429 | the bundle file receives the payload, and the git commands are the "only if missing" sequence |
| CmsCloudClient.Client.IsSyncing | cmscloud_client/client.py:471-472 | a sitename is syncing exactly when the handler cache has it |
| CmsCloudClient.Client.LockAndFetch | cmscloud_client/client.py:376-458 | the lock step and what follows do what `StartLocked` describes |
| CmsCloudClient.Client.Fetch | cmscloud_client/client.py:389-458 | the request step and what follows do what `StartFetched` describes; a started session is cached under its sitename, and a failure or a raise caches nothing |
| CmsCloudClient.Client.Sync | cmscloud_client/client.py:331-458 | the in-place start-up ends in the state, result, commands and request `StartSync` gives (the bundle request recorded by its path, which the session joins onto its address like every other request); a started session replaces any cached one under its sitename, and `_is_syncing` then holds; a failure or a raise caches nothing |

## Left out

- The standard-library netrc parser: it is foreign code.
  - The table is a constructor argument.
  - `ReadNetrc` is a reader of the text `write` produces, not of every netrc file.
- Creating `~/.netrc`, `os.chmod` and the `HOME` lookup (lines 29-40): these are filesystem side
  effects.
- `requests` and `urlparse`:
  - a response is a status and a body, or a network failure;
  - the host's network location is a constructor argument;
  - headers other than the `Authorization` header, `trust_env` and the certificate path are not
    modelled.
- YAML and JSON parsing, and the upload, validation and bundling paths (lines 199-241, 263-312):
  these are foreign code.
  - `LoadBoilerplate` and `LoadApp` stop at the chosen file.
  - `ClassifySites` returns the body instead of the decoded and re-dumped site list.
- Git execution:
  - `git init`, the config writer's `user` section and `git_update_gitignore` are recorded as the
    `Init`, `SetUser` and `UpdateGitignore` commands, and git's remote, fetch, checkout and merge
    calls as the other `GitCommand`s; every recorded command is taken to succeed;
  - opening the repository with `git.Repo` has no command of its own;
  - `git rev-parse`, `git remote`, `git branch` and the upstream commit are inputs;
  - `git init` is modelled only as the `.git` entry it creates.
- `GitSyncHandler` and the background sync: its code is not part of this model. A started sync
  is the `SyncSession` value it would be created with.
- The backup directory's `datetime.now()` name (line 361): the model keeps only that the old
  contents become the newest backup.
- The interactive wait loop with `time.sleep`, `KeyboardInterrupt` and `print` (lines 459-467), and
  the two return values that follow it: they are clock and terminal I/O.
- Prompting:
  - `logout` prints "Aborted" or "Invalid answer, please type either y or n" and returns `True`
    on abort (lines 136-141); the model's `Logout` returns the `Decision` instead, and the prints
    are left out as terminal output;
  - `raw_input`, `getpass` and `cli_confirm` are replaced by given answers;
  - a prompt that reaches the end of input is the `NoAnswer` decision, where Python would raise
    `EOFError`;
  - the password sent with the login is not modelled.
- SyncStartup.FailureLeavesNoOwnLock: it covers only start-ups that return a failure. The model
  takes git fetch, checkout and merge (lines 421-429), `git_update_gitignore` (line 430) and the
  handler start (lines 452-457) to succeed. The body chunks are also taken to be the complete
  body: `iter_content` (line 412) runs outside the `try` of lines 389-396, so a connection
  failure or timeout while the body streams raises out of `sync`, not as the network message,
  with the lock held and part of `.develop.bundle` written. In the code an exception from any of
  these leaves the lock this call created, as does the raise on a 304 for a fresh repository
  (line 449).
- SyncStartup.BackupInsideItself: it decides from the spelling of the path, as `shutil.move`'s
  test does after `abspath`. A path that reaches the directory itself through a symbolic link is
  not modelled. Neither is the empty path: there `os.path.exists('')` is false, and
  `os.makedirs('')` raises whatever the directory holds.
- SyncStartup.StartFetched: `Raised` records only that the code raises. It stands for the raise on a
  304 for a directory that was not a synced checkout, and, from `StartSync`, for the refused backup.
  The exception itself is not modelled.
- NetRC.ReadNetrc: it is more lenient than the Python 2.7 `netrc` parser. That parser rejects a
  `machine` entry without a password and splits values at whitespace. A `Login` with an empty token,
  or any value that contains a space or tab, therefore reads back through `WriteReadsBack`, but not
  through the next `WritableNetRC()`.
- The protected-files block (lines 432-443): it is commented out, so the list stays empty.
- CmsCloudClient.Client.Sync: a second `sync` for a sitename already in the handler cache is not
  rejected: the code overwrites the cached handler, and the model follows the code.
- SyncStartup.ForcedStartRemovesForeignLock: the code removes the lock after a failed request even
  when this call did not create it (a forced or confirmed start-up past a held lock). The model
  follows the code and states this behaviour as a lemma.
