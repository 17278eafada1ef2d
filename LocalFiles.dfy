/**
 * The directory being synced, as far as `sync` and the lock helpers look at
 * it (cmscloud_client/client.py:314-374, 410-415 and 446-447): whether it
 * exists, and its entries by name with their contents. A directory entry
 * such as `.git` is an entry with empty contents. `backups` records the
 * contents of every earlier directory that was moved aside.
 */
module LocalFiles {

  const DotFile := ".cmscloud"
  const LockFile := ".cmscloud-sync-lock"
  const GitDir := ".git"
  const BundleFile := ".develop.bundle"

  datatype DirState = DirState(present: bool, files: map<string, string>, backups: seq<map<string, string>>)

  /** A directory that does not exist has no entries. */
  predicate WellFormed(d: DirState) {
    !d.present ==> d.files == map[]
  }

  datatype Created = Created(ok: bool, dir: DirState)

  /**
   * `os.open(name, os.O_CREAT | os.O_EXCL)`: creates an empty entry and
   * succeeds exactly when the directory exists and has no entry of that
   * name; otherwise nothing changes.
   */
  function CreateIn(d: DirState, name: string): (r: Created)
    ensures r.ok <==> d.present && name !in d.files
    ensures r.ok ==> name !in d.files && r.dir.files == d.files[name := ""]
    ensures r.dir.present == d.present && r.dir.backups == d.backups
    ensures !r.ok ==> r.dir == d
    ensures d.present ==> name in r.dir.files
  {
    if d.present && name !in d.files then Created(true, d.(files := d.files[name := ""]))
    else Created(false, d)
  }

  /**
   * `if os.path.exists(name): os.remove(name)`: afterwards there is no
   * entry of that name, and nothing else changed.
   */
  function RemoveFrom(d: DirState, name: string): (r: DirState)
    ensures name !in r.files
    ensures forall n :: n != name ==> (n in r.files <==> n in d.files)
    ensures forall n :: n != name && n in r.files ==> r.files[n] == d.files[n]
    ensures r.present == d.present && r.backups == d.backups
  {
    if name in d.files then d.(files := d.files - {name}) else d
  }

  /** Two exclusive creations in a row: the second one fails and changes nothing. */
  lemma CreateTwiceFails(d: DirState, name: string)
    ensures var second := CreateIn(CreateIn(d, name).dir, name);
      !second.ok && second.dir == CreateIn(d, name).dir
  {
  }

  /** Removal is idempotent. */
  lemma RemoveTwice(d: DirState, name: string)
    ensures RemoveFrom(RemoveFrom(d, name), name) == RemoveFrom(d, name)
  {
  }

  /** After a removal, creation succeeds again in an existing directory. */
  lemma CreateAfterRemove(d: DirState, name: string)
    requires d.present
    ensures CreateIn(RemoveFrom(d, name), name).ok
  {
  }

  /** The directory as the filesystem holds it, changed in place. */
  class Directory {
    var present: bool
    var files: map<string, string>
    var backups: seq<map<string, string>>

    function State(): DirState
      reads this
    {
      DirState(present, files, backups)
    }

    predicate Valid()
      reads this
    {
      WellFormed(State())
    }

    constructor (d: DirState)
      requires WellFormed(d)
      ensures Valid() && State() == d
    {
      present, files, backups := d.present, d.files, d.backups;
    }

    method CreateExclusive(name: string) returns (ok: bool)
      requires Valid()
      modifies this
      ensures Valid()
      ensures Created(ok, State()) == CreateIn(old(State()), name)
    {
      ok := present && name !in files;
      if ok {
        files := files[name := ""];
      }
    }

    method RemoveIfExists(name: string)
      requires Valid()
      modifies this
      ensures Valid()
      ensures State() == RemoveFrom(old(State()), name)
    {
      if name in files {
        files := files - {name};
      }
    }

    /** `open(name, 'w').write(contents)`: the entry now holds exactly `contents`. */
    method WriteFile(name: string, contents: string)
      requires Valid() && present
      modifies this
      ensures Valid()
      ensures State() == old(State()).(files := old(files)[name := contents])
    {
      files := files[name := contents];
    }

    /**
     * `shutil.move(path, backup)` followed by `os.mkdir(path)`: the old
     * contents go to a fresh backup and the directory is empty.
     */
    method MoveToBackup()
      requires Valid() && present
      modifies this
      ensures Valid()
      ensures State() == DirState(true, map[], old(backups) + [old(files)])
    {
      backups := backups + [files];
      files := map[];
    }

    /** `os.makedirs(path)` for a directory that does not exist yet. */
    method MakeDirs()
      requires Valid() && !present
      modifies this
      ensures Valid()
      ensures State() == DirState(true, map[], old(backups))
    {
      present := true;
    }
  }
}
