/** The pinned `.git` directory that the credential job works in: directory entries
    naming inodes, changed one system call at a time.  Every call may fail. */
module PinnedDirectory {
  import opened Options

  type Ino = nat

  datatype Kind = Regular | Symlink | Directory | Special

  /** What a file holds, as far as the job or git interprets it. */
  datatype Content =
    | CredentialLine(token: string)
    | ConfigText(helpers: seq<string>, rest: string)
    | Raw(bytes: string)

  datatype Inode = Inode(kind: Kind, uid: nat, mode: nat, content: Content)

  datatype Name =
    | Credential
    | Staged(n: nat)
    | Rollback(n: nat)
    | Config
    | ConfigLock
    | ConfigLockLock
    | Restore(n: nat)
    | Other(s: string)

  /** The names under which a credential file can be found again. */
  predicate CredentialName(n: Name) {
    n.Credential? || n.Rollback?
  }

  datatype Fs = Fs(dir: map<Name, Ino>, inodes: map<Ino, Inode>, next: Ino)

  ghost predicate WellFormed(fs: Fs) {
    && (forall n :: n in fs.dir ==> fs.dir[n] in fs.inodes)
    && (forall i :: i in fs.inodes ==> i < fs.next)
  }

  function Lookup(fs: Fs, n: Name): Option<Inode> {
    if n in fs.dir && fs.dir[n] in fs.inodes then Some(fs.inodes[fs.dir[n]]) else None
  }

  // ---------------------------------------------------------------- the system calls

  function Unlinked(fs: Fs, n: Name): Fs {
    fs.(dir := fs.dir - {n})
  }

  function Linked(fs: Fs, from: Name, to: Name): Fs
    requires from in fs.dir
  {
    fs.(dir := fs.dir[to := fs.dir[from]])
  }

  /** rename(2): two names of one file are both left in place. */
  function Renamed(fs: Fs, from: Name, to: Name): Fs
    requires from in fs.dir
  {
    if to in fs.dir && fs.dir[to] == fs.dir[from] then fs
    else fs.(dir := (fs.dir - {from})[to := fs.dir[from]])
  }

  function Created(fs: Fs, n: Name, inode: Inode): Fs {
    Fs(fs.dir[n := fs.next], fs.inodes[fs.next := inode], fs.next + 1)
  }

  function Changed(fs: Fs, i: Ino, inode: Inode): Fs {
    fs.(inodes := fs.inodes[i := inode])
  }

  // ---------------------------------------------------------------- comparing states

  ghost predicate SameName(a: Fs, b: Fs, n: Name) {
    (n in a.dir <==> n in b.dir) && (n in a.dir ==> a.dir[n] == b.dir[n])
  }

  /** All names outside `except` name the same inodes. */
  ghost predicate SameNames(a: Fs, b: Fs, except: set<Name>) {
    forall n {:trigger n in a.dir} {:trigger n in b.dir} :: n !in except ==>
      (n in a.dir <==> n in b.dir) && (n in a.dir ==> a.dir[n] == b.dir[n])
  }

  /** No inode of `a` has been altered in `b`. */
  ghost predicate OldInodesKept(a: Fs, b: Fs) {
    a.next <= b.next && forall i :: i in a.inodes ==> i in b.inodes && b.inodes[i] == a.inodes[i]
  }

  /** The entry is absent in both, or holds the same bytes under the same mode. */
  ghost predicate SameFile(a: Fs, b: Fs, n: Name) {
    match (Lookup(a, n), Lookup(b, n))
    case (None, None) => true
    case (Some(x), Some(y)) => x.kind == y.kind && x.mode == y.mode && x.content == y.content
    case _ => false
  }

  /** The watched inode still has its own name or a rollback link. */
  ghost predicate Kept(fs: Fs, w: Option<Ino>) {
    w.Some? ==> exists n :: n in fs.dir && CredentialName(n) && fs.dir[n] == w.value
  }

  lemma RenamedKeeps(fs: Fs, from: Name, to: Name, w: Option<Ino>)
    requires from in fs.dir
    ensures Kept(fs, w) && !CredentialName(from) && !CredentialName(to) ==> Kept(Renamed(fs, from, to), w)
  {
    if w.Some? && Kept(fs, w) && !CredentialName(from) && !CredentialName(to) {
      var n :| n in fs.dir && CredentialName(n) && fs.dir[n] == w.value;
      assert n in Renamed(fs, from, to).dir;
    }
  }

  datatype Outcome = Done | Missing | Failed

  class PinnedDir {
    const owner: nat
    var fs: Fs
    /** A recovery step has failed since the directory was descriptors. */
    ghost var recoveryFault: bool
    /** The inode that must never lose its last name, while there is one. */
    ghost var watched: Option<Ino>
    /** Some state reached so far left the watched inode without a name. */
    ghost var lost: bool
    /** New files whose descriptor could not be closed outside of any recovery. */
    ghost var unclosed: set<Name>
    /** Names that were to go for good and whose unlink failed. */
    ghost var undiscarded: set<Name>
    /** Some call whose failure is not swallowed has failed for a reason of its own, or found
        a random name taken. */
    ghost var broken: bool
    /** The state in which the credential, and the helper list, were last looked at. */
    ghost var looked: Option<Fs>
    ghost var listed: Option<Fs>
    /** The new files whose descriptor is open. */
    ghost var descriptors: set<Name>

    ghost predicate Valid()
      reads this
    {
      WellFormed(fs) && Kept(fs, watched) && !lost
    }

    constructor (owner: nat, fs: Fs)
      requires WellFormed(fs)
      ensures Valid() && this.fs == fs && this.owner == owner && watched == None && !recoveryFault && unclosed == {} && undiscarded == {} && !broken && descriptors == {}
    {
      this.owner := owner;
      this.fs := fs;
      recoveryFault, watched, lost, unclosed, undiscarded, broken, looked, listed, descriptors := false, None, false, {}, {}, false, None, None, {};
    }

    /** A system call without effect here (fsync, fstat, chdir, opening to read), which may fail. */
    method Probe(ghost recovering: bool) returns (ok: bool)
      modifies this`broken, this`recoveryFault
      ensures recoveryFault == (old(recoveryFault) || (recovering && !ok))
      ensures old(broken) ==> broken
      ensures !broken ==> ok
      ensures ok ==> broken == old(broken)
    {
      ok := *;
      broken := broken || !ok;
      recoveryFault := recoveryFault || (recovering && !ok);
    }

    method Lstat(n: Name, ghost recovering: bool) returns (ok: bool, st: Option<Inode>)
      requires WellFormed(fs)
      modifies this`broken, this`looked, this`recoveryFault
      ensures ok ==> st == Lookup(fs, n)
      ensures recoveryFault == (old(recoveryFault) || (recovering && !ok))
      ensures old(broken) ==> broken
      ensures !broken ==> ok
      ensures looked == if ok && n == Credential then Some(fs) else old(looked)
      ensures ok ==> broken == old(broken)
    {
      ok := Probe(recovering);
      st := Lookup(fs, n);
      if ok && n == Credential { looked := Some(fs); }
    }

    /** open(O_CREAT | O_EXCL): refused when the name exists. */
    method Create(n: Name, mode: nat, ghost recovering: bool) returns (ok: bool)
      requires WellFormed(fs)
      modifies this`broken, this`descriptors, this`fs, this`recoveryFault, this`lost
      ensures WellFormed(fs)
      ensures ok ==> n !in old(fs).dir && fs == Created(old(fs), n, Inode(Regular, owner, mode, Raw("")))
      ensures !ok ==> fs == old(fs)
      ensures recoveryFault == (old(recoveryFault) || (recovering && !ok))
      ensures lost == (old(lost) || !Kept(fs, watched))
      ensures old(Valid()) && !CredentialName(n) ==> Valid()
      ensures old(broken) ==> broken
      ensures !broken ==> (n !in old(fs).dir || n != ConfigLock ==> ok)
      ensures descriptors == if ok then old(descriptors) + {n} else old(descriptors)
      ensures ok ==> broken == old(broken)
    {
      ok := *;
      broken := broken || !ok || (n in fs.dir && n != ConfigLock);
      if n in fs.dir { ok := false; }
      if ok { descriptors := descriptors + {n}; }
      if ok { fs := Created(fs, n, Inode(Regular, owner, mode, Raw(""))); }
      recoveryFault := recoveryFault || (recovering && !ok);
      lost := lost || !Kept(fs, watched);
    }

    /** write(2) through an open descriptor; a failed write may leave anything behind. */
    method Write(i: Ino, content: Content, ghost recovering: bool) returns (ok: bool)
      requires WellFormed(fs) && i in fs.inodes
      modifies this`broken, this`fs, this`recoveryFault
      ensures WellFormed(fs)
      ensures fs.dir == old(fs).dir && fs.next == old(fs).next
      ensures exists c :: fs == Changed(old(fs), i, old(fs).inodes[i].(content := c)) && (ok ==> c == content)
      ensures recoveryFault == (old(recoveryFault) || (recovering && !ok))
      ensures old(Valid()) ==> Valid()
      ensures old(broken) ==> broken
      ensures !broken ==> ok
      ensures ok ==> broken == old(broken)
    {
      ok := *;
      broken := broken || !ok;
      var garbage: Content := *;
      var c := if ok then content else garbage;
      fs := Changed(fs, i, fs.inodes[i].(content := c));
      recoveryFault := recoveryFault || (recovering && !ok);
    }

    method Chmod(i: Ino, mode: nat, ghost recovering: bool) returns (ok: bool)
      requires WellFormed(fs) && i in fs.inodes
      modifies this`broken, this`fs, this`recoveryFault
      ensures WellFormed(fs)
      ensures fs == if ok then Changed(old(fs), i, old(fs).inodes[i].(mode := mode)) else old(fs)
      ensures recoveryFault == (old(recoveryFault) || (recovering && !ok))
      ensures old(Valid()) ==> Valid()
      ensures old(broken) ==> broken
      ensures !broken ==> ok
      ensures ok ==> broken == old(broken)
    {
      ok := *;
      broken := broken || !ok;
      if ok { fs := Changed(fs, i, fs.inodes[i].(mode := mode)); }
      recoveryFault := recoveryFault || (recovering && !ok);
    }

    /** close(2) of a file just written: it has its content, whatever the answer is. */
    method Close(name: Name, ghost recovering: bool) returns (ok: bool)
      modifies this`broken, this`descriptors, this`recoveryFault, this`unclosed
      ensures recoveryFault == (old(recoveryFault) || (recovering && !ok))
      ensures unclosed == if ok || recovering then old(unclosed) else old(unclosed) + {name}
      ensures old(Valid()) ==> Valid()
      ensures old(broken) ==> broken
      ensures !broken ==> ok
      ensures descriptors == old(descriptors) - {name}
      ensures ok ==> broken == old(broken)
    {
      ok := *;
      descriptors := descriptors - {name};
      broken := broken || !ok;
      recoveryFault := recoveryFault || (recovering && !ok);
      if !ok && !recovering { unclosed := unclosed + {name}; }
    }

    /** close(2) of a file about to be removed: a failure is swallowed. */
    method CloseQuietly(name: Name)
      modifies this`descriptors
      ensures descriptors == old(descriptors) - {name}
      ensures old(Valid()) ==> Valid()
    {
      descriptors := descriptors - {name};
    }

    /** unlink(2): removes the entry and never follows it; refuses a directory. */
    method Unlink(n: Name, ghost recovering: bool) returns (r: Outcome)
      requires WellFormed(fs)
      modifies this`broken, this`fs, this`recoveryFault, this`lost
      ensures WellFormed(fs)
      ensures r.Done? ==> n in old(fs).dir && fs == Unlinked(old(fs), n)
      ensures r.Missing? ==> n !in old(fs).dir
      ensures !r.Done? ==> fs == old(fs)
      ensures recoveryFault == (old(recoveryFault) || (recovering && r.Failed?))
      ensures lost == (old(lost) || !Kept(fs, watched))
      ensures old(Valid()) && !CredentialName(n) ==> Valid()
      ensures old(broken) ==> broken
      ensures !broken ==> ((n in old(fs).dir ==> !old(fs).inodes[old(fs).dir[n]].kind.Directory?) ==> !r.Failed?)
      ensures !r.Failed? ==> broken == old(broken)
    {
      var fault := *;
      broken := broken || fault;
      if fault || (n in fs.dir && fs.inodes[fs.dir[n]].kind.Directory?) {
        r := Failed;
      } else if n !in fs.dir {
        r := Missing;
      } else {
        fs := Unlinked(fs, n);
        r := Done;
      }
      recoveryFault := recoveryFault || (recovering && r.Failed?);
      lost := lost || !Kept(fs, watched);
    }

    /** unlink(2) of a name no longer needed: a failure is swallowed. */
    method Discard(n: Name)
      requires WellFormed(fs)
      modifies this`fs, this`lost, this`undiscarded
      ensures WellFormed(fs)
      ensures fs == old(fs) || (n in old(fs).dir && fs == Unlinked(old(fs), n))
      ensures undiscarded == old(undiscarded) || undiscarded == old(undiscarded) + {n}
      ensures n in fs.dir ==> undiscarded == old(undiscarded) + {n}
      ensures lost == (old(lost) || !Kept(fs, watched))
    {
      var fault := *;
      if n in fs.dir {
        if fault || fs.inodes[fs.dir[n]].kind.Directory? { undiscarded := undiscarded + {n}; } else { fs := Unlinked(fs, n); }
      }
      lost := lost || !Kept(fs, watched);
    }

    /** link(2): refused when the new name exists. */
    method Link(from: Name, to: Name) returns (ok: bool)
      requires WellFormed(fs)
      modifies this`broken, this`fs, this`lost
      ensures WellFormed(fs)
      ensures ok ==> from in old(fs).dir && to !in old(fs).dir && fs == Linked(old(fs), from, to)
      ensures !ok ==> fs == old(fs)
      ensures lost == (old(lost) || !Kept(fs, watched))
      ensures old(broken) ==> broken
      ensures !broken ==> (from in old(fs).dir ==> ok)
      ensures ok ==> broken == old(broken)
    {
      hide Kept;
      ok := *;
      broken := broken || !ok || to in fs.dir;
      if from !in fs.dir || to in fs.dir { ok := false; }
      if ok { fs := Linked(fs, from, to); }
      lost := lost || !Kept(fs, watched);
    }

    /** rename(2): refused onto a directory; a no-op between two names of one file. */
    method Rename(from: Name, to: Name, ghost recovering: bool) returns (ok: bool)
      requires WellFormed(fs) && from != to
      modifies this`broken, this`fs, this`recoveryFault, this`lost
      ensures WellFormed(fs)
      ensures ok ==> from in old(fs).dir && fs == Renamed(old(fs), from, to)
      ensures !ok ==> fs == old(fs)
      ensures recoveryFault == (old(recoveryFault) || (recovering && !ok))
      ensures lost == (old(lost) || !Kept(fs, watched))
      ensures old(Valid()) && !CredentialName(from) && !CredentialName(to) ==> Valid()
      ensures old(broken) ==> broken
      ensures !broken ==> (from in old(fs).dir && (to in old(fs).dir ==> !old(fs).inodes[old(fs).dir[to]].kind.Directory?) ==> ok)
      ensures ok ==> broken == old(broken)
    {
      hide Kept;
      if from in fs.dir { RenamedKeeps(fs, from, to, watched); }
      ok := *;
      broken := broken || !ok;
      if from !in fs.dir || (to in fs.dir && fs.inodes[fs.dir[to]].kind.Directory?) { ok := false; }
      if ok { fs := Renamed(fs, from, to); }
      recoveryFault := recoveryFault || (recovering && !ok);
      lost := lost || !Kept(fs, watched);
    }

    /** `git config --file config.lock` with one edit of the helper list: git writes
        config.lock.lock and renames it over; a killed git may leave that file behind. */
    method GitEdit(edit: seq<string> -> seq<string>, ghost recovering: bool) returns (ok: bool)
      requires WellFormed(fs)
      modifies this`broken, this`fs, this`recoveryFault, this`lost
      ensures WellFormed(fs)
      ensures ok ==>
        && ConfigLockLock !in old(fs).dir
        && (var st := Lookup(old(fs), ConfigLock);
            && st.Some? && st.value.content.ConfigText?
            && fs == Created(old(fs), ConfigLock,
                 st.value.(uid := owner, content := ConfigText(edit(st.value.content.helpers), st.value.content.rest))))
      ensures !ok ==> OldInodesKept(old(fs), fs) && SameNames(old(fs), fs, {ConfigLockLock})
      ensures recoveryFault == (old(recoveryFault) || (recovering && !ok))
      ensures lost == (old(lost) || !Kept(fs, watched))
      ensures old(Valid()) ==> Valid()
      ensures old(broken) ==> broken
      ensures !broken ==> (ConfigLockLock !in old(fs).dir && Lookup(old(fs), ConfigLock).Some? && Lookup(old(fs), ConfigLock).value.content.ConfigText? ==> ok)
      ensures ok ==> broken == old(broken)
    {
      ok := *;
      broken := broken || !ok;
      var litter := *;
      var st := Lookup(fs, ConfigLock);
      if ConfigLockLock in fs.dir || st.None? || !st.value.content.ConfigText? { ok := false; }
      if ok {
        var c := ConfigText(edit(st.value.content.helpers), st.value.content.rest);
        fs := Created(fs, ConfigLock, st.value.(uid := owner, content := c));
      } else if litter && ConfigLockLock !in fs.dir {
        fs := Created(fs, ConfigLockLock, Inode(Regular, owner, 0x1B6, Raw("")));
      }
      recoveryFault := recoveryFault || (recovering && !ok);
      lost := lost || !Kept(fs, watched);
    }

    /** `git config --get-all credential.helper` on the published config. */
    method GitGetHelpers() returns (ok: bool, helpers: seq<string>)
      requires WellFormed(fs)
      modifies this`broken, this`listed
      ensures ok ==> match Lookup(fs, Config)
                     case None => helpers == []
                     case Some(st) => st.content.ConfigText? && helpers == st.content.helpers
      ensures old(broken) ==> broken
      ensures !broken ==> (Lookup(fs, Config).None? || Lookup(fs, Config).value.content.ConfigText? ==> ok)
      ensures ok ==> listed == Some(fs)
      ensures ok ==> broken == old(broken)
    {
      ok := *;
      broken := broken || !ok;
      var st := Lookup(fs, Config);
      helpers := [];
      if st.Some? {
        if st.value.content.ConfigText? { helpers := st.value.content.helpers; } else { ok := false; }
      }
      listed := Some(fs);
    }
  }
}
