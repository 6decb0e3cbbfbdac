/** Create, rotate and revoke a project's git credential (app/git-credentials.js).

    A parameter `recovering` marks the calls made while undoing a failed operation. */
module GitCredentials {
  import opened Options
  import opened PinnedDirectory

  const CREDENTIAL_MODE: nat := 0x180 // 0600

  predicate ValidToken(token: string) {
    token != "" && forall c :: c in token ==> '!' <= c <= '~' && c !in "@:/\\#?"
  }

  /** By character codes: printable ASCII without a space, and nothing that separates the
      parts of a URL. */
  lemma ValidTokenIff(token: string)
    ensures ValidToken(token) <==>
            token != "" && forall i :: 0 <= i < |token| ==> 33 <= token[i] as int <= 126 && token[i] as int !in {64, 58, 47, 92, 35, 63}
  {
    forall i | 0 <= i < |token| && ValidToken(token) ensures 33 <= token[i] as int <= 126 && token[i] as int !in {64, 58, 47, 92, 35, 63} {
      assert token[i] in token;
      SeparatorCodes(token[i]);
    }
    forall c | c in token && !('!' <= c <= '~' && c !in "@:/\\#?")
      ensures exists i :: 0 <= i < |token| && !(33 <= token[i] as int <= 126 && token[i] as int !in {64, 58, 47, 92, 35, 63})
    {
      var i :| 0 <= i < |token| && token[i] == c;
      SeparatorCodes(c);
    }
  }

  lemma SeparatorCodes(c: char)
    ensures c in "@:/\\#?" <==> c as int in {64, 58, 47, 92, 35, 63}
  {
    var s := "@:/\\#?";
    assert s[0] == '@' && s[1] == ':' && s[2] == '/' && s[3] == '\\' && s[4] == '#' && s[5] == '?';
  }

  /** .git/config as found before an update. */
  datatype Captured = Absent | Present(content: Content, mode: nat) {
    function Bytes(): Content {
      if Absent? then ConfigText([], "") else content
    }
    function Mode(): nat {
      if Absent? then 0x1A4 else mode
    }
  }

  ghost predicate CapturedFrom(c: Captured, fs: Fs) {
    match Lookup(fs, Config)
    case None => c.Absent?
    case Some(st) => st.kind.Regular? && c == Present(st.content, st.mode)
  }

  ghost predicate Undisturbed(a: Fs, b: Fs, except: set<Name>) {
    WellFormed(b) && OldInodesKept(a, b) && SameNames(a, b, except)
  }

  /** The close of a new file failed: the file stays, complete, under its name, and nobody
      removes it. */
  ghost predicate LeftOpen(was: Fs, now: Fs, before: set<Name>, after: set<Name>, name: Name) {
    after == before + {name} && name !in was.dir && name in now.dir
  }

  /** Create a file under a name nobody has, fill it and fix its mode; remove it again
      when that fails; close it, outside of what removes it.  All three writers of the
      module go through these steps. */
  method CreateFilled(d: PinnedDir, name: Name, content: Content, mode: nat, sync: bool, ghost recovering: bool) returns (ok: bool)
    requires d.Valid() && !CredentialName(name) && (recovering || name !in d.unclosed)
    modifies d`broken, d`looked, d`listed, d`descriptors, d`fs, d`recoveryFault, d`lost, d`unclosed
    ensures d.Valid() && Undisturbed(old(d.fs), d.fs, {name})
    ensures old(d.recoveryFault) ==> d.recoveryFault
    ensures ok ==> name !in old(d.fs).dir && name in d.fs.dir && d.fs.dir[name] >= old(d.fs).next
    ensures ok ==> Lookup(d.fs, name) == Some(Inode(Regular, d.owner, mode, content))
    ensures name in old(d.fs).dir ==> !ok && d.fs == old(d.fs)
    ensures d.unclosed == old(d.unclosed) || (!ok && !recovering && LeftOpen(old(d.fs), d.fs, old(d.unclosed), d.unclosed, name))
    ensures d.unclosed != old(d.unclosed) ==> Lookup(d.fs, name) == Some(Inode(Regular, d.owner, mode, content))
    ensures ok || recovering ==> d.unclosed == old(d.unclosed)
    ensures !ok && !d.recoveryFault && d.unclosed == old(d.unclosed) ==> SameName(old(d.fs), d.fs, name)
    ensures !ok && recovering ==> d.recoveryFault
    ensures old(d.broken) ==> d.broken
    ensures !d.broken ==> (name !in old(d.fs).dir || name != ConfigLock ==> ok)
    ensures ok ==> d.broken == old(d.broken)
    ensures name !in old(d.descriptors) ==> d.descriptors == old(d.descriptors)
  {
    hide Kept;
    ok := d.Create(name, mode, recovering);
    if !ok { return; }
    ok := FillOrRemove(d, name, content, mode, sync, recovering, old(d.fs));
    if ok { ok := d.Close(name, recovering); }
  }

  /** The rest, once the name has its new inode. */
  method FillOrRemove(d: PinnedDir, name: Name, content: Content, mode: nat, sync: bool, ghost recovering: bool, ghost was: Fs) returns (ok: bool)
    requires d.Valid() && !CredentialName(name) && Undisturbed(was, d.fs, {name})
    requires name !in was.dir && name in d.fs.dir && d.fs.dir[name] >= was.next && d.fs.dir[name] !in was.inodes
    requires d.fs.inodes[d.fs.dir[name]].kind.Regular? && d.fs.inodes[d.fs.dir[name]].uid == d.owner
    modifies d`broken, d`looked, d`listed, d`descriptors, d`fs, d`recoveryFault, d`lost
    ensures d.Valid() && Undisturbed(was, d.fs, {name})
    ensures old(d.recoveryFault) ==> d.recoveryFault
    ensures ok ==> name in d.fs.dir && d.fs.dir[name] >= was.next && Lookup(d.fs, name) == Some(Inode(Regular, d.owner, mode, content))
    ensures !ok && !d.recoveryFault ==> name !in d.fs.dir
    ensures !ok && recovering ==> d.recoveryFault
    ensures old(d.broken) ==> d.broken
    ensures !d.broken ==> ok
    ensures ok ==> d.broken == old(d.broken)
    ensures d.descriptors == if ok then old(d.descriptors) else old(d.descriptors) - {name}
  {
    hide Kept;
    ok := Fill(d, d.fs.dir[name], content, mode, sync, recovering);
    if !ok {
      d.CloseQuietly(name);
      var _ := d.Unlink(name, true);
    }
  }

  /** Write through the descriptor of a new file, then fix its mode. */
  method Fill(d: PinnedDir, i: Ino, content: Content, mode: nat, sync: bool, ghost recovering: bool) returns (ok: bool)
    requires d.Valid() && i in d.fs.inodes
    modifies d`broken, d`looked, d`listed, d`descriptors, d`fs, d`recoveryFault
    ensures d.Valid() && d.fs.dir == old(d.fs).dir && d.fs.next == old(d.fs).next
    ensures old(d.recoveryFault) ==> d.recoveryFault
    ensures d.fs.inodes.Keys == old(d.fs).inodes.Keys
    ensures forall j :: j in old(d.fs).inodes && j != i ==> d.fs.inodes[j] == old(d.fs).inodes[j]
    ensures d.fs.inodes[i].kind == old(d.fs).inodes[i].kind
    ensures ok ==> d.fs.inodes[i] == old(d.fs).inodes[i].(content := content, mode := mode)
    ensures !ok && recovering ==> d.recoveryFault
    ensures old(d.broken) ==> d.broken
    ensures !d.broken ==> ok
    ensures ok ==> d.broken == old(d.broken)
    ensures d.descriptors == old(d.descriptors)
  {
    hide Kept;
    ok := d.Write(i, content, recovering);
    if ok { ok := d.Chmod(i, mode, recovering); }
    if ok && sync { ok := d.Probe(recovering); }
  }

  // ---------------------------------------------------------------- .git/config

  lemma CapturedSince(c: Captured, was: Fs, now: Fs)
    requires CapturedFrom(c, now) && Lookup(was, Config) == Lookup(now, Config)
    ensures CapturedFrom(c, was) && (Lookup(was, Config).None? || Lookup(was, Config).value.kind.Regular?)
  {
  }

  method CaptureGitConfig(d: PinnedDir, ghost recovering: bool) returns (ok: bool, c: Captured)
    requires d.Valid()
    modifies d`broken, d`looked, d`listed, d`descriptors, d`recoveryFault
    ensures d.Valid()
    ensures ok ==> CapturedFrom(c, d.fs)
    ensures old(d.recoveryFault) ==> d.recoveryFault
    ensures !recovering ==> d.recoveryFault == old(d.recoveryFault)
    ensures !ok && recovering && !d.recoveryFault ==> Config in d.fs.dir && !d.fs.inodes[d.fs.dir[Config]].kind.Regular?
    ensures old(d.broken) ==> d.broken
    ensures !d.broken ==> (ok || (Lookup(d.fs, Config).Some? && !Lookup(d.fs, Config).value.kind.Regular?))
    ensures ok ==> d.broken == old(d.broken)
  {
    hide Kept;
    c := Absent;
    var st;
    ok, st := d.Lstat(Config, recovering);
    if !ok { return; }
    if st.None? { return; }
    if !st.value.kind.Regular? { ok := false; return; }
    ok := d.Probe(recovering);
    c := Present(st.value.content, st.value.mode);
  }

  /** Take git's own lock file and copy the config into it. */
  method StageGitConfig(d: PinnedDir, c: Captured, ghost recovering: bool) returns (ok: bool)
    requires d.Valid() && (recovering || ConfigLock !in d.unclosed)
    modifies d`broken, d`looked, d`listed, d`descriptors, d`fs, d`recoveryFault, d`lost, d`unclosed
    ensures d.Valid() && Undisturbed(old(d.fs), d.fs, {ConfigLock})
    ensures old(d.recoveryFault) ==> d.recoveryFault
    ensures ok ==> ConfigLock !in old(d.fs).dir && Lookup(d.fs, ConfigLock) == Some(Inode(Regular, d.owner, c.Mode(), c.Bytes()))
    ensures ok ==> d.fs.dir[ConfigLock] >= old(d.fs).next
    ensures ConfigLock in old(d.fs).dir ==> d.fs == old(d.fs) && d.unclosed == old(d.unclosed)
    ensures d.unclosed == old(d.unclosed) || (!ok && !recovering && LeftOpen(old(d.fs), d.fs, old(d.unclosed), d.unclosed, ConfigLock))
    ensures ok || recovering ==> d.unclosed == old(d.unclosed)
    ensures !ok && !d.recoveryFault && d.unclosed == old(d.unclosed) ==> SameName(old(d.fs), d.fs, ConfigLock)
    ensures !ok && recovering ==> d.recoveryFault || ConfigLock in old(d.fs).dir
    ensures old(d.broken) ==> d.broken
    ensures !d.broken ==> (ok || ConfigLock in old(d.fs).dir)
    ensures ok ==> d.broken == old(d.broken)
  {
    hide Kept;
    if ConfigLock in d.fs.dir { return false; } // EEXIST: another writer's lock, or one left open
    ok := CreateFilled(d, ConfigLock, c.Bytes(), c.Mode(), false, recovering);
  }

  /** Publish the staged config with one rename. */
  method CommitGitConfig(d: PinnedDir, mode: nat, ghost recovering: bool) returns (ok: bool)
    requires d.Valid() && ConfigLock in d.fs.dir
    modifies d`broken, d`looked, d`listed, d`descriptors, d`fs, d`recoveryFault, d`lost
    ensures d.Valid() && old(d.fs).next == d.fs.next
    ensures old(d.recoveryFault) ==> d.recoveryFault
    ensures forall i :: i in old(d.fs).inodes && i != old(d.fs).dir[ConfigLock] ==>
              i in d.fs.inodes && d.fs.inodes[i] == old(d.fs).inodes[i]
    ensures ok ==> SameNames(old(d.fs), d.fs, {Config, ConfigLock})
    ensures ok ==> Lookup(d.fs, Config) == Some(Lookup(old(d.fs), ConfigLock).value.(mode := mode))
    ensures ok && (Config in old(d.fs).dir ==> old(d.fs).dir[Config] != old(d.fs).dir[ConfigLock]) ==> ConfigLock !in d.fs.dir
    ensures ok ==> Config in d.fs.dir && d.fs.dir[Config] == old(d.fs).dir[ConfigLock]
    ensures !ok ==> SameNames(old(d.fs), d.fs, {})
    ensures !ok && recovering ==> d.recoveryFault
    ensures old(d.broken) ==> d.broken
    ensures !d.broken ==> ((Config in old(d.fs).dir ==> !old(d.fs).inodes[old(d.fs).dir[Config]].kind.Directory?) ==> ok)
    ensures ok ==> d.broken == old(d.broken)
  {
    hide Kept;
    ok := d.Probe(recovering);
    if !ok { return; }
    ok := d.Chmod(d.fs.dir[ConfigLock], mode, recovering);
    if !ok { return; }
    ok := d.Probe(recovering);
    if !ok { return; }
    ok := d.Rename(ConfigLock, Config, recovering);
  }

  /** Drop the staged config. */
  method AbortGitConfig(d: PinnedDir)
    requires d.Valid()
    modifies d`broken, d`looked, d`listed, d`descriptors, d`fs, d`recoveryFault, d`lost
    ensures d.Valid() && Undisturbed(old(d.fs), d.fs, {ConfigLock, ConfigLockLock})
    ensures old(d.recoveryFault) ==> d.recoveryFault
    ensures !d.recoveryFault ==> ConfigLock !in d.fs.dir && ConfigLockLock !in d.fs.dir
    ensures old(d.broken) ==> d.broken
  {
    hide Kept;
    var _ := d.Unlink(ConfigLockLock, true);
    var _ := d.Unlink(ConfigLock, true);
  }

  /** The staged config differs from `was` in its helper list only. */
  ghost predicate StagedHelpers(was: Fs, now: Fs, helpers: seq<string>) {
    && Lookup(was, ConfigLock).Some? && Lookup(now, ConfigLock).Some?
    && (var a, b := Lookup(was, ConfigLock).value, Lookup(now, ConfigLock).value;
        a.content.ConfigText? && b.kind == a.kind && b.content == ConfigText(helpers, a.content.rest))
    && now.dir[ConfigLock] >= was.next
  }

  /** One `git config` run on the staged file. */
  method GitConfigStep(d: PinnedDir, ghost was: Fs, ghost helpers: seq<string>, edit: seq<string> -> seq<string>, ghost recovering: bool)
    returns (ok: bool)
    requires d.Valid() && Undisturbed(was, d.fs, {ConfigLock, ConfigLockLock})
    requires StagedHelpers(was, d.fs, helpers)
    modifies d`broken, d`looked, d`listed, d`descriptors, d`fs, d`recoveryFault, d`lost
    ensures d.Valid() && Undisturbed(was, d.fs, {ConfigLock, ConfigLockLock})
    ensures old(d.recoveryFault) ==> d.recoveryFault
    ensures ok ==> StagedHelpers(was, d.fs, edit(helpers)) && ConfigLockLock !in d.fs.dir
    ensures !ok && recovering ==> d.recoveryFault
    ensures old(d.broken) ==> d.broken
    ensures !d.broken ==> (ConfigLockLock !in old(d.fs).dir ==> ok)
    ensures ok ==> d.broken == old(d.broken)
  {
    hide Kept;
    ok := d.GitEdit(edit, recovering);
  }

  /** git cannot edit the staged config: its own lock exists, or the text is no config. */
  ghost predicate EditRefused(fs: Fs) {
    ConfigLockLock in fs.dir || Lookup(fs, ConfigLock).None? || !Lookup(fs, ConfigLock).value.content.ConfigText?
  }

  /** The config edits: clear the helper list, then add each value. */
  method EditStagedConfig(d: PinnedDir, values: seq<string>, ghost recovering: bool) returns (ok: bool)
    requires d.Valid() && Lookup(d.fs, ConfigLock).Some?
    modifies d`broken, d`looked, d`listed, d`descriptors, d`fs, d`recoveryFault, d`lost
    ensures d.Valid() && Undisturbed(old(d.fs), d.fs, {ConfigLock, ConfigLockLock})
    ensures old(d.recoveryFault) ==> d.recoveryFault
    ensures ok ==> StagedHelpers(old(d.fs), d.fs, values) && ConfigLockLock !in d.fs.dir
    ensures !ok && recovering ==> d.recoveryFault || EditRefused(old(d.fs))
    ensures old(d.broken) ==> d.broken
    ensures !d.broken ==> (ok || EditRefused(old(d.fs)))
    ensures ok ==> d.broken == old(d.broken)
  {
    hide Kept;
    ok := d.GitEdit(h => [], recovering && !EditRefused(d.fs));
    if !ok { return; }
    ghost var was := old(d.fs);
    assert StagedHelpers(was, d.fs, []);
    assert values[..0] == [];
    for i := 0 to |values|
      invariant d.Valid() && Undisturbed(was, d.fs, {ConfigLock, ConfigLockLock})
      invariant (old(d.recoveryFault) ==> d.recoveryFault) && d.broken == old(d.broken)
      invariant StagedHelpers(was, d.fs, values[..i]) && ConfigLockLock !in d.fs.dir
    {
      hide Lookup, StagedHelpers;
      var v := values[i];
      ok := GitConfigStep(d, was, values[..i], h => h + [v], recovering);
      if !ok { return; }
      assert values[..i + 1] == values[..i] + [v];
    }
    assert values[..|values|] == values;
  }

  /** No inode but the staged one has been altered. */
  ghost predicate OnlyStagedAltered(a: Fs, b: Fs)
    requires ConfigLock in a.dir
  {
    && a.next <= b.next
    && forall i :: i in a.inodes && i != a.dir[ConfigLock] ==> i in b.inodes && b.inodes[i] == a.inodes[i]
  }

  /** Edit the staged config and publish it, or drop it. */
  method UpdateStaged(d: PinnedDir, values: seq<string>, mode: nat, ghost recovering: bool) returns (ok: bool)
    requires d.Valid() && Lookup(d.fs, ConfigLock).Some?
    requires Config in d.fs.dir ==> d.fs.dir[Config] != d.fs.dir[ConfigLock]
    modifies d`broken, d`looked, d`listed, d`descriptors, d`fs, d`recoveryFault, d`lost
    ensures d.Valid() && OnlyStagedAltered(old(d.fs), d.fs)
    ensures SameNames(old(d.fs), d.fs, {Config, ConfigLock, ConfigLockLock})
    ensures old(d.recoveryFault) ==> d.recoveryFault
    ensures ok ==> ConfigLock !in d.fs.dir && Lookup(old(d.fs), ConfigLock).value.content.ConfigText?
    ensures ok ==>
      var was := Lookup(old(d.fs), ConfigLock).value;
      var st := Lookup(d.fs, Config);
      st.Some? && st.value.kind == was.kind && st.value.mode == mode && st.value.content == ConfigText(values, was.content.rest)
    ensures ok ==> Config in d.fs.dir && d.fs.dir[Config] >= old(d.fs).next
    ensures !ok ==> SameName(old(d.fs), d.fs, Config)
    ensures !ok && !d.recoveryFault ==> ConfigLock !in d.fs.dir
    ensures ok || !d.recoveryFault ==> ConfigLockLock !in d.fs.dir
    ensures !ok && recovering ==> d.recoveryFault || EditRefused(old(d.fs))
    ensures old(d.broken) ==> d.broken
    ensures !d.broken ==> (ok || EditRefused(old(d.fs)) || (Config in old(d.fs).dir && old(d.fs).inodes[old(d.fs).dir[Config]].kind.Directory?))
    ensures ok ==> d.broken == old(d.broken)
  {
    hide Kept;
    ok := EditStagedConfig(d, values, recovering);
    if ok {
      assert SameName(old(d.fs), d.fs, Config);
      ok := CommitGitConfig(d, mode, recovering);
    }
    if !ok {
      assert SameName(old(d.fs), d.fs, Config);
      AbortGitConfig(d);
    }
  }

  /** The helper list cannot be changed: config.lock exists, or the config is none. */
  ghost predicate HelperBlocked(fs: Fs) {
    || ConfigLock in fs.dir
    || (Lookup(fs, Config).Some? && !(Lookup(fs, Config).value.kind.Regular? && Lookup(fs, Config).value.content.ConfigText?))
  }

  /** What stands in the way of a change of the helper list that nothing else disturbs. */
  ghost predicate HelperStuck(fs: Fs) {
    HelperBlocked(fs) || ConfigLockLock in fs.dir
  }

  /** Every name outside `except` is as it was or leads to a new file. */
  ghost predicate NoNewNames(a: Fs, b: Fs, except: set<Name>) {
    forall n :: n in b.dir && n !in except ==> (n in a.dir && b.dir[n] == a.dir[n]) || b.dir[n] >= a.next
  }

  lemma NoNewNamesTwice(a: Fs, b: Fs, c: Fs, names: set<Name>)
    requires NoNewNames(a, b, names) && NoNewNames(b, c, {}) && a.next <= b.next
    ensures NoNewNames(a, c, names)
  {
  }

  /** The only names there may be to an old file are its names of before and the rollback link. */
  lemma OldFileNames(was: Fs, now: Fs, link: Option<Name>, w: Ino)
    requires NoNewNames(was, now, LinkName(link)) && w < was.next && (link.Some? ==> link.value !in now.dir)
    ensures forall n :: n in now.dir && now.dir[n] == w ==> n in was.dir && was.dir[n] == w
  {
  }

  lemma NewLink(was: Fs, armed: Fs, snapshot: Option<Name>)
    requires SameNames(was, armed, LinkName(snapshot))
    ensures NoNewNames(was, armed, LinkName(snapshot))
  {
    forall n | n in armed.dir && n !in LinkName(snapshot) ensures n in was.dir && armed.dir[n] == was.dir[n] {
      assert n in was.dir <==> n in armed.dir;
    }
  }

  /** With the config captured: stage it, edit it and publish it. */
  method ReplaceGitConfig(d: PinnedDir, c: Captured, values: seq<string>, ghost recovering: bool) returns (ok: bool)
    requires d.Valid() && CapturedFrom(c, d.fs) && (recovering || ConfigLock !in d.unclosed)
    modifies d`broken, d`looked, d`listed, d`descriptors, d`fs, d`recoveryFault, d`lost, d`unclosed
    ensures d.Valid()
    ensures Undisturbed(old(d.fs), d.fs, {Config, ConfigLock, ConfigLockLock})
    ensures old(d.recoveryFault) ==> d.recoveryFault
    ensures ok ==> HelpersSet(old(d.fs), d.fs, values)
    ensures ok ==> SameName(old(d.fs), d.fs, ConfigLock)
    ensures ok ==> NoNewNames(old(d.fs), d.fs, {})
    ensures !ok ==> SameName(old(d.fs), d.fs, Config)
    ensures d.unclosed == old(d.unclosed) || (!ok && !recovering && LeftOpen(old(d.fs), d.fs, old(d.unclosed), d.unclosed, ConfigLock))
    ensures ok || recovering ==> d.unclosed == old(d.unclosed)
    ensures !ok && !d.recoveryFault && d.unclosed == old(d.unclosed) ==> SameName(old(d.fs), d.fs, ConfigLock)
    ensures ConfigLock in old(d.fs).dir ==> !ok && d.fs == old(d.fs) && d.unclosed == old(d.unclosed)
    ensures ok ==> ConfigLock !in d.fs.dir && ConfigLockLock !in d.fs.dir
    ensures !ok && !d.recoveryFault ==> ConfigLockLock in d.fs.dir ==> ConfigLockLock in old(d.fs).dir
    ensures HelperBlocked(old(d.fs)) ==> !ok
    ensures !ok && recovering && !d.recoveryFault ==> HelperBlocked(old(d.fs)) || ConfigLockLock in old(d.fs).dir
    ensures old(d.broken) ==> d.broken
    ensures !d.broken ==> (ok || HelperStuck(old(d.fs)))
    ensures ok ==> d.broken == old(d.broken)
  {
    hide Kept;
    ok := StageGitConfig(d, c, recovering);
    if !ok { return; }
    assert Config in old(d.fs).dir ==> old(d.fs).dir[Config] < old(d.fs).next <= d.fs.dir[ConfigLock];
    ok := UpdateStaged(d, values, c.Mode(), recovering);
  }

  /** Set the helper list to exactly `values`: the whole new config is published or
      none of it is. */
  method SetLocalCredentialHelpers(d: PinnedDir, values: seq<string>, ghost recovering: bool) returns (ok: bool)
    requires d.Valid() && (recovering || ConfigLock !in d.unclosed)
    modifies d`broken, d`looked, d`listed, d`descriptors, d`fs, d`recoveryFault, d`lost, d`unclosed
    ensures d.Valid()
    ensures Undisturbed(old(d.fs), d.fs, {Config, ConfigLock, ConfigLockLock})
    ensures old(d.recoveryFault) ==> d.recoveryFault
    ensures ok ==> HelpersSet(old(d.fs), d.fs, values)
    ensures ok ==> SameName(old(d.fs), d.fs, ConfigLock)
    ensures ok ==> NoNewNames(old(d.fs), d.fs, {})
    ensures !ok ==> SameName(old(d.fs), d.fs, Config)
    ensures d.unclosed == old(d.unclosed) || (!ok && !recovering && LeftOpen(old(d.fs), d.fs, old(d.unclosed), d.unclosed, ConfigLock))
    ensures ok || recovering ==> d.unclosed == old(d.unclosed)
    ensures !ok && !d.recoveryFault && d.unclosed == old(d.unclosed) ==> SameName(old(d.fs), d.fs, ConfigLock)
    ensures ConfigLock in old(d.fs).dir ==> !ok && d.fs == old(d.fs) && d.unclosed == old(d.unclosed)
    ensures ok ==> ConfigLock !in d.fs.dir && ConfigLockLock !in d.fs.dir
    ensures !ok && !d.recoveryFault ==> ConfigLockLock in d.fs.dir ==> ConfigLockLock in old(d.fs).dir
    ensures HelperBlocked(old(d.fs)) ==> !ok
    ensures !ok && recovering && !d.recoveryFault ==> HelperBlocked(old(d.fs)) || ConfigLockLock in old(d.fs).dir
    ensures old(d.broken) ==> d.broken
    ensures !d.broken ==> (ok || HelperStuck(old(d.fs)))
    ensures ok ==> d.broken == old(d.broken)
  {
    hide Kept;
    ok := d.Probe(recovering); // the pinned directory is still the one validated
    if !ok { return; }
    ok := d.Probe(recovering); // the working directory is anchored in it
    if !ok { return; }
    var c;
    ok, c := CaptureGitConfig(d, recovering);
    if !ok { return; }
    ok := ReplaceGitConfig(d, c, values, recovering);
  }

  /** The config carries exactly these helpers; everything else in it is unchanged. */
  ghost predicate HelpersSet(before: Fs, after: Fs, values: seq<string>) {
    && Lookup(after, Config).Some?
    && (var st := Lookup(after, Config).value;
        match Lookup(before, Config)
        case None => st.kind.Regular? && st.mode == 0x1A4 && st.content == ConfigText(values, "")
        case Some(was) =>
          && was.kind.Regular? && st.kind.Regular? && st.mode == was.mode
          && was.content.ConfigText? && st.content == ConfigText(values, was.content.rest))
  }

  /** Put the captured config back. */
  method RestoreGitConfig(d: PinnedDir, c: Captured) returns (ghost k: nat)
    requires d.Valid()
    modifies d`broken, d`looked, d`listed, d`descriptors, d`fs, d`recoveryFault, d`lost, d`unclosed
    ensures d.Valid() && Undisturbed(old(d.fs), d.fs, {Config, Restore(k)})
    ensures d.unclosed == old(d.unclosed) && (old(d.recoveryFault) ==> d.recoveryFault)
    ensures !d.recoveryFault ==> SameName(old(d.fs), d.fs, Restore(k))
    ensures !d.recoveryFault ==>
      match c
      case Absent => Config !in d.fs.dir
      case Present(content, mode) => Lookup(d.fs, Config) == Some(Inode(Regular, d.owner, mode, content))
    ensures old(d.broken) ==> d.broken
  {
    hide Kept;
    k := 0;
    if c.Absent? {
      var _ := d.Unlink(Config, true);
      return;
    }
    var n: nat := *;
    k := n;
    var ok := CreateFilled(d, Restore(n), c.content, c.mode, true, true);
    if !ok { return; }
    assert Config in d.fs.dir ==> d.fs.dir[Config] == old(d.fs).dir[Config] < old(d.fs).next;
    ok := d.Rename(Restore(n), Config, true);
  }

  // ---------------------------------------------------------------- the credential file

  predicate IsOwnRegular(fs: Fs, owner: nat) {
    Lookup(fs, Credential).Some? && Lookup(fs, Credential).value.kind.Regular? && Lookup(fs, Credential).value.uid == owner
  }

  /** The inode of a credential that must survive until its replacement is verified. */
  function OwnedCredential(fs: Fs, owner: nat): Option<Ino> {
    if IsOwnRegular(fs, owner) then Some(fs.dir[Credential]) else None
  }

  /** Write the new credential under a fresh name. */
  method WriteStagedCredential(d: PinnedDir, token: string) returns (staged: Option<Name>, ghost name: Name)
    requires d.Valid() && d.unclosed == {}
    modifies d`broken, d`looked, d`listed, d`descriptors, d`fs, d`recoveryFault, d`lost, d`unclosed
    ensures d.Valid() && name.Staged? && Undisturbed(old(d.fs), d.fs, {name})
    ensures old(d.recoveryFault) ==> d.recoveryFault
    ensures staged.Some? ==>
      && staged.value == name && name !in old(d.fs).dir && ValidToken(token)
      && Lookup(d.fs, name) == Some(Inode(Regular, d.owner, CREDENTIAL_MODE, CredentialLine(token)))
      && d.fs.dir[name] >= old(d.fs).next
    ensures d.unclosed == {} || (d.unclosed == {name} && staged.None? && name !in old(d.fs).dir)
    ensures d.unclosed == {name} ==> Lookup(d.fs, name) == Some(Inode(Regular, d.owner, CREDENTIAL_MODE, CredentialLine(token)))
    ensures staged.None? && !d.recoveryFault && d.unclosed == {} ==> SameName(old(d.fs), d.fs, name)
    ensures old(d.broken) ==> d.broken
    ensures !d.broken ==> (ValidToken(token) ==> staged.Some?)
    ensures staged.Some? ==> d.broken == old(d.broken)
  {
    hide Kept;
    var n: nat := *;
    name := Staged(n);
    staged := None;
    if !ValidToken(token) { return; }
    var ok := CreateFilled(d, Staged(n), CredentialLine(token), CREDENTIAL_MODE, true, false);
    if ok { staged := Some(Staged(n)); }
  }

  /** Hard-link an owned regular credential to a second name. */
  method SnapshotArtifact(d: PinnedDir) returns (ok: bool, snapshot: Option<Name>)
    requires d.Valid()
    modifies d`broken, d`looked, d`listed, d`descriptors, d`fs, d`recoveryFault, d`lost
    ensures d.Valid() && d.recoveryFault == old(d.recoveryFault)
    ensures !ok ==> d.fs == old(d.fs)
    ensures ok && snapshot.None? ==> d.fs == old(d.fs) && !IsOwnRegular(d.fs, d.owner)
    ensures ok && snapshot.Some? ==>
      && IsOwnRegular(old(d.fs), d.owner)
      && snapshot.value.Rollback? && snapshot.value !in old(d.fs).dir
      && d.fs == Linked(old(d.fs), Credential, snapshot.value)
    ensures old(d.broken) ==> d.broken
    ensures !d.broken ==> ok
    ensures ok ==> d.broken == old(d.broken)
  {
    snapshot := None;
    var st;
    ok, st := d.Lstat(Credential, false);
    if !ok || st.None? || !st.value.kind.Regular? || st.value.uid != d.owner { return; }
    var n: nat := *;
    ok := d.Link(Credential, Rollback(n));
    if ok { snapshot := Some(Rollback(n)); }
  }

  /** Rename the snapshot back over the credential.  When nothing had been published
      both names are one file and the rename does nothing, so the link is removed too. */
  method RestoreSnapshot(d: PinnedDir, snapshot: Name)
    requires d.Valid() && snapshot.Rollback? && snapshot in d.fs.dir
    requires d.watched.Some? ==> d.watched.value == d.fs.dir[snapshot]
    modifies d`broken, d`looked, d`listed, d`descriptors, d`fs, d`recoveryFault, d`lost
    ensures d.Valid() && Undisturbed(old(d.fs), d.fs, {Credential, snapshot})
    ensures old(d.recoveryFault) ==> d.recoveryFault
    ensures !d.recoveryFault ==>
      && snapshot !in d.fs.dir
      && Credential in d.fs.dir && d.fs.dir[Credential] == old(d.fs).dir[snapshot]
    ensures old(d.broken) ==> d.broken
  {
    var ok := d.Rename(snapshot, Credential, true);
    if !ok { return; }
    assert Credential in d.fs.dir && d.fs.dir[Credential] == old(d.fs).dir[snapshot];
    var _ := d.Unlink(snapshot, true);
    assert Credential in d.fs.dir && d.fs.dir[Credential] == old(d.fs).dir[snapshot];
  }

  method DiscardSnapshot(d: PinnedDir, snapshot: Option<Name>)
    requires d.Valid()
    requires snapshot.Some? ==> snapshot.value.Rollback?
    requires snapshot.Some? && d.watched.Some? ==> Kept(Unlinked(d.fs, snapshot.value), d.watched)
    modifies d`broken, d`looked, d`listed, d`descriptors, d`fs, d`recoveryFault, d`lost
    ensures d.Valid() && OldInodesKept(old(d.fs), d.fs)
    ensures SameNames(old(d.fs), d.fs, if snapshot.Some? then {snapshot.value} else {})
    ensures old(d.recoveryFault) ==> d.recoveryFault
    ensures !d.recoveryFault && snapshot.Some? ==> snapshot.value !in d.fs.dir
    ensures old(d.broken) ==> d.broken
  {
    if snapshot.Some? { var _ := d.Unlink(snapshot.value, true); }
  }

  /** After a success the snapshot goes: no name but the ones it leaves leads to the old
      credential, unless its unlink fails. */
  method RetireSnapshot(d: PinnedDir, snapshot: Option<Name>)
    requires d.Valid() && d.watched.None?
    modifies d`fs, d`lost, d`undiscarded
    ensures d.Valid() && OldInodesKept(old(d.fs), d.fs)
    ensures SameNames(old(d.fs), d.fs, LinkName(snapshot)) && NoNewNames(old(d.fs), d.fs, {})
    ensures d.undiscarded == old(d.undiscarded) || d.undiscarded == old(d.undiscarded) + LinkName(snapshot)
    ensures snapshot.Some? && snapshot.value in d.fs.dir ==> snapshot.value in d.undiscarded
    ensures d.fs == old(d.fs) || (snapshot.Some? && d.fs == Unlinked(old(d.fs), snapshot.value))
  {
    if snapshot.Some? { d.Discard(snapshot.value); }
  }

  // ---------------------------------------------------------------- create or rotate

  function ExpectedHelperValues(path: string): seq<string> {
    ["", "store --file=" + path]
  }

  /** The state a successful apply promises. */
  ghost predicate Applied(was: Fs, now: Fs, owner: nat, token: string, path: string) {
    && ValidToken(token)
    && Lookup(now, Credential) == Some(Inode(Regular, owner, 0x180, CredentialLine(token)))
    && HelpersSet(was, now, ExpectedHelperValues(path))
  }

  ghost predicate SnapshotHeld(d: PinnedDir, snapshot: Option<Name>)
    reads d
  {
    && (snapshot.Some? ==> snapshot.value.Rollback? && snapshot.value in d.fs.dir)
    && (d.watched.Some? ==> snapshot.Some? && d.fs.dir[snapshot.value] == d.watched.value)
  }

  /** The name of the rollback link, if there is one. */
  function LinkName(snapshot: Option<Name>): set<Name> {
    if snapshot.Some? then {snapshot.value} else {}
  }

  /** Stage the credential and give it its name with one rename. */
  method PublishCredential(d: PinnedDir, token: string, ghost snapshot: Option<Name>)
    returns (staged: Option<Name>, published: bool, ghost name: Name)
    requires d.Valid() && SnapshotHeld(d, snapshot) && d.unclosed == {}
    modifies d`broken, d`looked, d`listed, d`descriptors, d`fs, d`recoveryFault, d`lost, d`unclosed
    ensures d.Valid() && OldInodesKept(old(d.fs), d.fs) && name.Staged? && SnapshotHeld(d, snapshot)
    ensures old(d.recoveryFault) ==> d.recoveryFault
    ensures SameNames(old(d.fs), d.fs, {Credential, name})
    ensures !published ==> SameName(old(d.fs), d.fs, Credential)
    ensures staged.Some? ==> staged.value == name && name !in old(d.fs).dir
    ensures d.unclosed == {} || (d.unclosed == {name} && staged.None? && name !in old(d.fs).dir)
    ensures d.unclosed == {name} ==> Lookup(d.fs, name) == Some(Inode(Regular, d.owner, CREDENTIAL_MODE, CredentialLine(token)))
    ensures staged.None? && !d.recoveryFault && d.unclosed == {} ==> SameName(old(d.fs), d.fs, name)
    ensures published ==> staged.Some? && name !in d.fs.dir && ValidToken(token)
    ensures published ==> NoNewNames(old(d.fs), d.fs, {}) && Credential in d.fs.dir && d.fs.dir[Credential] >= old(d.fs).next
    ensures published ==> Lookup(d.fs, Credential) == Some(Inode(Regular, d.owner, CREDENTIAL_MODE, CredentialLine(token)))
    ensures old(d.broken) ==> d.broken
    ensures !d.broken ==> (ValidToken(token) && (Lookup(old(d.fs), Credential).Some? ==> !Lookup(old(d.fs), Credential).value.kind.Directory?) ==> published)
    ensures published ==> d.broken == old(d.broken)
  {
    published := false;
    staged, name := WriteStagedCredential(d, token);
    if staged.None? { return; }
    assert Credential in d.fs.dir ==> d.fs.dir[Credential] == old(d.fs).dir[Credential] < old(d.fs).next;
    assert snapshot.Some? ==> snapshot.value in d.fs.dir && d.fs.dir[snapshot.value] == old(d.fs).dir[snapshot.value];
    published := d.Rename(staged.value, Credential, false);
    assert snapshot.Some? ==> snapshot.value in d.fs.dir && d.fs.dir[snapshot.value] == old(d.fs).dir[snapshot.value];
  }

  /** A credential file as it must be: regular, ours and private. */
  predicate Private(st: Inode, owner: nat) {
    st.kind.Regular? && st.uid == owner && st.mode == 0x180
  }

  /** git reads exactly these helpers in the config. */
  ghost predicate HasHelpers(fs: Fs, values: seq<string>) {
    match Lookup(fs, Config)
    case None => values == []
    case Some(st) => st.content.ConfigText? && st.content.helpers == values
  }

  /** The credential is absent, or something that can be unlinked as one. */
  ghost predicate Removable(fs: Fs) {
    Lookup(fs, Credential).Some? ==> !Lookup(fs, Credential).value.kind.Directory? && !Lookup(fs, Credential).value.kind.Special?
  }

  /** What was looked at is what is there now, but for the rollback link. */
  ghost predicate ReadBack(x: Option<Fs>, now: Fs, link: Option<Name>) {
    x.Some? && (now == x.value || (link.Some? && now == Unlinked(x.value, link.value)))
  }

  /** Read the credential's properties and the helper list back. */
  method VerifyPublished(d: PinnedDir, path: string) returns (ok: bool)
    requires d.Valid()
    modifies d`broken, d`looked, d`listed, d`descriptors, d`recoveryFault
    ensures d.Valid() && d.recoveryFault == old(d.recoveryFault)
    ensures ok ==> Lookup(d.fs, Credential).Some? && Lookup(d.fs, Credential).value.mode == CREDENTIAL_MODE && Lookup(d.fs, Credential).value.uid == d.owner
    ensures old(d.broken) ==> d.broken
    ensures !d.broken ==> (Lookup(d.fs, Credential).Some? && Private(Lookup(d.fs, Credential).value, d.owner) && HasHelpers(d.fs, ExpectedHelperValues(path)) ==> ok)
    ensures ok ==> d.broken == old(d.broken)
    ensures ok ==> d.looked == d.listed == Some(d.fs)
    ensures ok ==> Lookup(d.fs, Credential).Some? && Private(Lookup(d.fs, Credential).value, d.owner) && HasHelpers(d.fs, ExpectedHelperValues(path))
  {
    hide Kept;
    var st;
    ok, st := d.Lstat(Credential, false); // open the published artifact without following a link
    if !ok { return; }
    if st.None? || !st.value.kind.Regular? || st.value.mode != CREDENTIAL_MODE || st.value.uid != d.owner { ok := false; return; }
    ok := d.Probe(false); // re-anchor the working directory
    if !ok { return; }
    var helpers;
    ok, helpers := d.GitGetHelpers();
    if !ok { return; }
    if helpers != ExpectedHelperValues(path) { ok := false; return; }
  }

  /** A config that was just set can be set again. */
  lemma SetIsNotStuck(now: Fs, values: seq<string>, was: Fs)
    requires HelpersSet(was, now, values) && ConfigLock !in now.dir && ConfigLockLock !in now.dir
    ensures !HelperStuck(now)
  {
  }

  /** Once both are read back as they should be, the previous credential may go. */
  method VerifyAndRetire(d: PinnedDir, path: string, snapshot: Option<Name>) returns (ok: bool)
    requires d.Valid() && SnapshotHeld(d, snapshot)
    modifies d`broken, d`looked, d`listed, d`descriptors, d`fs, d`recoveryFault, d`lost, d`watched, d`undiscarded
    ensures d.Valid() && OldInodesKept(old(d.fs), d.fs) && d.recoveryFault == old(d.recoveryFault)
    ensures SameName(old(d.fs), d.fs, Config) && SameName(old(d.fs), d.fs, Credential)
    ensures ok ==> d.watched == None && NoNewNames(old(d.fs), d.fs, {}) && SameNames(old(d.fs), d.fs, LinkName(snapshot))
    ensures d.undiscarded == old(d.undiscarded) || (ok && d.undiscarded == old(d.undiscarded) + LinkName(snapshot))
    ensures ok && snapshot.Some? && snapshot.value in d.fs.dir ==> snapshot.value in d.undiscarded
    ensures !ok ==> d.fs == old(d.fs) && d.watched == old(d.watched)
    ensures old(d.broken) ==> d.broken
    ensures !d.broken ==> (Lookup(old(d.fs), Credential).Some? && Private(Lookup(old(d.fs), Credential).value, d.owner) && HasHelpers(old(d.fs), ExpectedHelperValues(path)) ==> ok)
    ensures ok ==> d.broken == old(d.broken)
    ensures ok ==> ReadBack(d.looked, d.fs, snapshot) && ReadBack(d.listed, d.fs, snapshot)
  {
    ok := VerifyPublished(d, path);
    if !ok { return; }
    d.watched := None; // verified: the previous credential may go
    RetireSnapshot(d, snapshot);
    assert Config in old(d.fs).dir <==> Config in d.fs.dir;
    assert Credential in old(d.fs).dir <==> Credential in d.fs.dir;
  }

  /** Point git at the published credential and check both by reading them back. */
  method ConfigureAndVerify(d: PinnedDir, path: string, snapshot: Option<Name>) returns (ok: bool)
    requires d.Valid() && SnapshotHeld(d, snapshot) && d.unclosed == {} && d.undiscarded == {}
    modifies d
    ensures d.Valid() && OldInodesKept(old(d.fs), d.fs)
    ensures old(d.recoveryFault) ==> d.recoveryFault
    ensures SameName(old(d.fs), d.fs, Credential)
    ensures ok ==> HelpersSet(old(d.fs), d.fs, ExpectedHelperValues(path)) && d.watched == None
    ensures ok ==> SameNames(old(d.fs), d.fs, {Config, ConfigLockLock} + LinkName(snapshot))
    ensures ok ==> NoNewNames(old(d.fs), d.fs, {})
    ensures d.undiscarded <= LinkName(snapshot) && (!ok ==> d.undiscarded == {})
    ensures ok && snapshot.Some? && snapshot.value in d.fs.dir ==> snapshot.value in d.undiscarded
    ensures !ok ==> d.watched == old(d.watched) && SnapshotHeld(d, snapshot)
    ensures !ok ==> SameNames(old(d.fs), d.fs, {Config, ConfigLock, ConfigLockLock})
    ensures !ok ==> SameName(old(d.fs), d.fs, Config) || (HelpersSet(old(d.fs), d.fs, ExpectedHelperValues(path)) && !HelperStuck(d.fs))
    ensures d.unclosed == {} || (!ok && LeftOpen(old(d.fs), d.fs, {}, d.unclosed, ConfigLock) && SameName(old(d.fs), d.fs, Config))
    ensures !ok && !d.recoveryFault && d.unclosed == {} ==> SameName(old(d.fs), d.fs, ConfigLock)
    ensures !ok && !d.recoveryFault ==> ConfigLockLock in d.fs.dir ==> ConfigLockLock in old(d.fs).dir
    ensures HelperBlocked(old(d.fs)) ==> !ok && SameName(old(d.fs), d.fs, Config)
    ensures old(d.broken) ==> d.broken
    ensures !d.broken ==> (Lookup(old(d.fs), Credential).Some? && Private(Lookup(old(d.fs), Credential).value, d.owner) && !HelperStuck(old(d.fs)) ==> ok)
    ensures ok ==> d.broken == old(d.broken)
    ensures ok ==> ReadBack(d.looked, d.fs, snapshot) && ReadBack(d.listed, d.fs, snapshot)
  {
    hide HelperStuck, HelperBlocked, HelpersSet, NoNewNames, HasHelpers, Kept;
    ok := SetLocalCredentialHelpers(d, ExpectedHelperValues(path), false);
    ghost var mid := d.fs;
    assert snapshot.Some? ==> snapshot.value in mid.dir && mid.dir[snapshot.value] == old(d.fs).dir[snapshot.value];
    assert SameName(old(d.fs), mid, Credential) by { assert Credential in mid.dir <==> Credential in old(d.fs).dir; }
    if !ok { return; }
    HelpersAre(old(d.fs), mid, ExpectedHelperValues(path));
    SetIsNotStuck(mid, ExpectedHelperValues(path), old(d.fs));
    ok := VerifyAndRetire(d, path, snapshot);
    ClearedStill(old(d.fs), mid, d.fs, ExpectedHelperValues(path));
    if ok {
      NoNewNamesTwice(old(d.fs), mid, d.fs, {});
      NamesTwice(old(d.fs), mid, d.fs, snapshot);
    }
  }

  lemma NamesTwice(a: Fs, b: Fs, c: Fs, snapshot: Option<Name>)
    requires SameNames(a, b, {Config, ConfigLock, ConfigLockLock}) && SameName(a, b, ConfigLock)
    requires SameNames(b, c, LinkName(snapshot))
    ensures SameNames(a, c, {Config, ConfigLockLock} + LinkName(snapshot))
  {
    forall n: Name | n !in {Config, ConfigLockLock} + LinkName(snapshot)
      ensures (n in a.dir <==> n in c.dir) && (n in a.dir ==> a.dir[n] == c.dir[n])
    {
      assert n in b.dir <==> n in c.dir;
      if n != ConfigLock { assert n in a.dir <==> n in b.dir; }
    }
  }

  /** The one file a failed apply may have left open: the staged credential, before it was
      published, or config.lock, after. */
  ghost predicate LeftOpenBy(was: Fs, now: Fs, unclosed: set<Name>, name: Name, staged: Option<Name>, published: bool) {
    || (LeftOpen(was, now, {}, unclosed, name) && staged.None? && !published)
    || (LeftOpen(was, now, {}, unclosed, ConfigLock) && published)
  }

  /** A staged credential that was left open is complete: it holds the token. */
  ghost predicate StaysStaged(fs: Fs, owner: nat, open: set<Name>, token: string) {
    forall n :: n in open && n.Staged? ==> Lookup(fs, n) == Some(Inode(Regular, owner, CREDENTIAL_MODE, CredentialLine(token)))
  }

  lemma OnlyThisStaged(fs: Fs, owner: nat, open: set<Name>, name: Name, token: string)
    requires open <= {name, ConfigLock}
    requires name in open ==> Lookup(fs, name) == Some(Inode(Regular, owner, CREDENTIAL_MODE, CredentialLine(token)))
    ensures StaysStaged(fs, owner, open, token)
  {
  }

  lemma StillStaged(a: Fs, b: Fs, owner: nat, open: set<Name>, token: string)
    requires StaysStaged(a, owner, open, token) && OldInodesKept(a, b)
    requires forall n :: n in open && n.Staged? ==> SameName(a, b, n)
    ensures StaysStaged(b, owner, open, token)
  {
    forall n: Name | n in open && n.Staged? ensures Lookup(b, n) == Some(Inode(Regular, owner, CREDENTIAL_MODE, CredentialLine(token))) {
      assert Lookup(a, n).Some? && SameName(a, b, n);
    }
  }

  /** The names are as found exactly when nothing was left open. */
  lemma OpenShows(was: Fs, now: Fs, names: set<Name>, open: set<Name>)
    requires SameNames(was, now, names + open)
    requires forall n :: n in open ==> n !in names && n !in was.dir && n in now.dir
    ensures SameNames(was, now, names) <==> open == {}
  {
    if open == {} {
      assert names + open == names;
    } else {
      var n: Name :| n in open;
      assert n !in was.dir && n in now.dir;
    }
  }

  /** The forward steps.  `published` says whether the new credential has its name. */
  method ApplySteps(d: PinnedDir, token: string, path: string, snapshot: Option<Name>)
    returns (ok: bool, staged: Option<Name>, published: bool, ghost name: Name)
    requires d.Valid() && SnapshotHeld(d, snapshot) && d.unclosed == {} && d.undiscarded == {}
    modifies d
    ensures d.Valid() && OldInodesKept(old(d.fs), d.fs) && name.Staged?
    ensures old(d.recoveryFault) ==> d.recoveryFault
    ensures ok ==> Applied(old(d.fs), d.fs, d.owner, token, path) && d.watched == None
    ensures ok ==> SameNames(old(d.fs), d.fs, {Credential, Config, ConfigLockLock} + LinkName(snapshot))
    ensures ok ==> NoNewNames(old(d.fs), d.fs, {}) && Credential in d.fs.dir && d.fs.dir[Credential] >= old(d.fs).next
    ensures d.undiscarded <= LinkName(snapshot) && (!ok ==> d.undiscarded == {})
    ensures ok && snapshot.Some? && snapshot.value in d.fs.dir ==> snapshot.value in d.undiscarded
    ensures !ok ==> d.watched == old(d.watched) && SnapshotHeld(d, snapshot)
    ensures !ok ==> SameNames(old(d.fs), d.fs, {Credential, name, Config, ConfigLock, ConfigLockLock})
    ensures staged.Some? ==> staged.value == name && name !in old(d.fs).dir
    ensures !ok && !published ==> SameName(old(d.fs), d.fs, Credential) && SameName(old(d.fs), d.fs, Config)
    ensures !ok && published ==> staged.Some? && name !in d.fs.dir && Lookup(d.fs, Credential).Some? && Lookup(d.fs, Credential).value.kind.Regular?
    ensures !ok && published ==> SameName(old(d.fs), d.fs, Config) || (HelpersSet(old(d.fs), d.fs, ExpectedHelperValues(path)) && !HelperStuck(d.fs))
    ensures d.unclosed == {} || (!ok && LeftOpenBy(old(d.fs), d.fs, d.unclosed, name, staged, published))
    ensures !ok && !d.recoveryFault && ConfigLock !in d.unclosed ==> SameName(old(d.fs), d.fs, ConfigLock)
    ensures StaysStaged(d.fs, d.owner, d.unclosed, token)
    ensures !ok && staged.None? && !d.recoveryFault && name !in d.unclosed ==> SameName(old(d.fs), d.fs, name)
    ensures !ok && !d.recoveryFault ==> ConfigLockLock in d.fs.dir ==> ConfigLockLock in old(d.fs).dir
    ensures HelperBlocked(old(d.fs)) || ConfigLock in d.unclosed ==> !ok && SameName(old(d.fs), d.fs, Config)
    ensures old(d.broken) ==> d.broken
    ensures !d.broken ==> (ValidToken(token) && (Lookup(old(d.fs), Credential).Some? ==> !Lookup(old(d.fs), Credential).value.kind.Directory?) && !HelperStuck(old(d.fs)) ==> ok)
    ensures ok ==> d.broken == old(d.broken)
    ensures ok ==> ReadBack(d.looked, d.fs, snapshot) && ReadBack(d.listed, d.fs, snapshot)
  {
    hide NoNewNames, Kept, HelperStuck, HelperBlocked, StaysStaged, SameNames, HelpersSet, ReadBack;
    staged, published, name := PublishCredential(d, token, snapshot);
    PublishedNames(old(d.fs), d.fs, name);
    OnlyThisStaged(d.fs, d.owner, d.unclosed, name, token);
    if !published { ok := false; return; }
    ghost var mid := d.fs;
    BlockedStill(old(d.fs), mid);
    ok := ConfigureAndVerify(d, path, snapshot);
    OnlyThisStaged(d.fs, d.owner, d.unclosed, name, token);
    SteppedNames(old(d.fs), mid, d.fs, name, ok);
    if Lookup(old(d.fs), Config) == Lookup(mid, Config) && (ok || HelpersSet(mid, d.fs, ExpectedHelperValues(path))) {
      HelpersCompose(old(d.fs), mid, d.fs, ExpectedHelperValues(path));
    }
    if ok {
      NoNewNamesTwice(old(d.fs), mid, d.fs, {});
      AppliedNames(old(d.fs), mid, d.fs, name, snapshot);
    }
  }

  lemma BlockedStill(a: Fs, b: Fs)
    requires WellFormed(a) && OldInodesKept(a, b) && SameName(a, b, Config) && SameName(a, b, ConfigLock)
    ensures HelperBlocked(a) <==> HelperBlocked(b)
    ensures SameName(a, b, ConfigLockLock) ==> (HelperStuck(a) <==> HelperStuck(b))
    ensures Lookup(a, Config) == Lookup(b, Config)
  {
  }

  /** Publishing touches the credential and the staged name only. */
  lemma PublishedNames(a: Fs, b: Fs, name: Name)
    requires name.Staged? && SameNames(a, b, {Credential, name})
    ensures SameName(a, b, Config) && SameName(a, b, ConfigLock) && SameName(a, b, ConfigLockLock)
    ensures SameNames(a, b, {Credential, name, Config, ConfigLock, ConfigLockLock})
  {
    assert Config in a.dir <==> Config in b.dir;
    assert ConfigLock in a.dir <==> ConfigLock in b.dir;
    assert ConfigLockLock in a.dir <==> ConfigLockLock in b.dir;
  }

  lemma SteppedNames(a: Fs, b: Fs, c: Fs, name: Name, ok: bool)
    requires name.Staged? && SameNames(a, b, {Credential, name})
    requires !ok ==> SameNames(b, c, {Config, ConfigLock, ConfigLockLock})
    ensures !ok ==> SameNames(a, c, {Credential, name, Config, ConfigLock, ConfigLockLock}) && SameName(b, c, name)
    ensures SameName(b, c, Config) ==> SameName(a, c, Config)
    ensures SameName(b, c, ConfigLock) ==> SameName(a, c, ConfigLock)
  {
    PublishedNames(a, b, name);
    if !ok {
      assert name in b.dir <==> name in c.dir;
      forall n: Name | n !in {Credential, name, Config, ConfigLock, ConfigLockLock}
        ensures (n in a.dir <==> n in c.dir) && (n in a.dir ==> a.dir[n] == c.dir[n])
      {
        assert n in a.dir <==> n in b.dir;
        assert n in b.dir <==> n in c.dir;
      }
    }
  }

  lemma AppliedNames(a: Fs, b: Fs, c: Fs, name: Name, snapshot: Option<Name>)
    requires SameNames(a, b, {Credential, name}) && name !in a.dir && name !in b.dir
    requires SameNames(b, c, {Config, ConfigLockLock} + LinkName(snapshot))
    ensures SameNames(a, c, {Credential, Config, ConfigLockLock} + LinkName(snapshot))
  {
    forall n: Name | n !in {Credential, Config, ConfigLockLock} + LinkName(snapshot)
      ensures (n in a.dir <==> n in c.dir) && (n in a.dir ==> a.dir[n] == c.dir[n])
    {
      assert n in b.dir <==> n in c.dir;
      if n != name { assert n in a.dir <==> n in b.dir; }
    }
  }

  /** Credential and config are what they were. */
  ghost predicate AsFound(was: Fs, now: Fs) {
    SameName(was, now, Credential) && SameFile(was, now, Config)
  }

  /** The explicit safe state when the old credential could not be preserved. */
  ghost predicate Withdrawn(was: Fs, now: Fs) {
    Credential !in now.dir && HelpersSet(was, now, [])
  }

  /** From `at` on, the credential was removed and the helper list cleared, or left alone
      because it could not be changed. */
  ghost predicate Emptied(was: Fs, at: Fs, now: Fs) {
    && Credential !in now.dir
    && (Withdrawn(was, now) || (SameName(at, now, Config) && HelperStuck(at)))
    && (HelperBlocked(at) ==> SameName(at, now, Config))
  }

  lemma RestoredConfig(c: Captured, was: Fs, now: Fs, owner: nat)
    requires CapturedFrom(c, was)
    requires c.Absent? ==> Config !in now.dir
    requires c.Present? ==> Lookup(now, Config) == Some(Inode(Regular, owner, c.mode, c.content))
    ensures SameFile(was, now, Config)
  {
  }

  /** Rolling back with a snapshot in hand: the old inode gets its name back. */
  method RollbackToSnapshot(d: PinnedDir, snapshot: Name, c: Captured, ghost was: Fs) returns (ghost k: nat)
    requires d.Valid() && snapshot.Rollback? && snapshot in d.fs.dir
    requires d.watched.Some? ==> d.watched.value == d.fs.dir[snapshot]
    requires CapturedFrom(c, was) && Credential in was.dir && d.fs.dir[snapshot] == was.dir[Credential]
    modifies d`broken, d`looked, d`listed, d`descriptors, d`fs, d`recoveryFault, d`lost, d`unclosed
    ensures d.Valid() && Undisturbed(old(d.fs), d.fs, {Credential, snapshot, Config, Restore(k)})
    ensures d.unclosed == old(d.unclosed) && (old(d.recoveryFault) ==> d.recoveryFault)
    ensures !d.recoveryFault ==> SameName(old(d.fs), d.fs, Restore(k)) && snapshot !in d.fs.dir && AsFound(was, d.fs)
    ensures old(d.broken) ==> d.broken
  {
    RestoreSnapshot(d, snapshot);
    ghost var mid := d.fs;
    k := RestoreGitConfig(d, c);
    assert Credential in mid.dir <==> Credential in d.fs.dir;
    assert snapshot in mid.dir <==> snapshot in d.fs.dir;
    assert Restore(k) in mid.dir <==> Restore(k) in old(d.fs).dir;
    if !d.recoveryFault { RestoredConfig(c, was, d.fs, d.owner); }
  }

  lemma HelpersCompose(was: Fs, a: Fs, b: Fs, v: seq<string>)
    requires HelpersSet(a, b, v)
    requires Lookup(was, Config) == Lookup(a, Config) || exists u :: HelpersSet(was, a, u)
    ensures HelpersSet(was, b, v)
  {
    if Lookup(was, Config) != Lookup(a, Config) {
      var u :| HelpersSet(was, a, u);
    }
  }

  /** Rolling back over a credential that was not ours: nothing usable remains. */
  method RollbackWithdraw(d: PinnedDir, ghost was: Fs)
    requires d.Valid() && d.watched.None?
    requires Lookup(d.fs, Credential).Some? && Lookup(d.fs, Credential).value.kind.Regular?
    requires Lookup(d.fs, Config).Some? ==> Lookup(d.fs, Config).value.kind.Regular?
    requires Lookup(was, Config) == Lookup(d.fs, Config) || exists v :: HelpersSet(was, d.fs, v)
    modifies d`broken, d`looked, d`listed, d`descriptors, d`fs, d`recoveryFault, d`lost, d`unclosed
    ensures d.Valid() && Undisturbed(old(d.fs), d.fs, {Credential, Config, ConfigLock, ConfigLockLock})
    ensures d.unclosed == old(d.unclosed) && (old(d.recoveryFault) ==> d.recoveryFault)
    ensures !d.recoveryFault ==> SameName(old(d.fs), d.fs, ConfigLock) && Emptied(was, old(d.fs), d.fs)
    ensures old(d.broken) ==> d.broken
  {
    var _ := d.Unlink(Credential, true);
    ghost var mid := d.fs;
    assert Lookup(mid, Config) == Lookup(old(d.fs), Config);
    assert ConfigLock in mid.dir <==> ConfigLock in old(d.fs).dir;
    if Lookup(was, Config) != Lookup(mid, Config) {
      ghost var v :| HelpersSet(was, old(d.fs), v);
      assert HelpersSet(was, mid, v);
    }
    assert HelperStuck(mid) <==> HelperStuck(old(d.fs));
    assert HelperBlocked(mid) <==> HelperBlocked(old(d.fs));
    var cleared := SetLocalCredentialHelpers(d, [], true);
    assert Credential in mid.dir <==> Credential in d.fs.dir;
    if cleared { HelpersCompose(was, mid, d.fs, []); }
  }

  lemma PlainNames(a: Fs, b: Fs, c: Fs, snapshot: Option<Name>, k: nat)
    requires SameNames(a, b, {Credential} + LinkName(snapshot)) && SameNames(b, c, {Config, Restore(k)})
    ensures SameNames(a, c, {Credential, Config, Restore(k)} + LinkName(snapshot))
  {
    forall n: Name | n !in {Credential, Config, Restore(k)} + LinkName(snapshot)
      ensures (n in a.dir <==> n in c.dir) && (n in a.dir ==> a.dir[n] == c.dir[n])
    {
      assert n in a.dir <==> n in b.dir;
      assert n in b.dir <==> n in c.dir;
    }
  }

  /** Rolling back to an absent credential, or before anything was published. */
  method RollbackPlain(d: PinnedDir, snapshot: Option<Name>, c: Captured, published: bool, ghost was: Fs) returns (ghost k: nat)
    requires d.Valid() && SnapshotHeld(d, snapshot)
    requires CapturedFrom(c, was)
    requires published ==> snapshot.None? && Credential !in was.dir
    requires snapshot.Some? ==> Credential in was.dir && d.fs.dir[snapshot.value] == was.dir[Credential]
    requires !published ==> SameName(was, d.fs, Credential)
    requires published ==> Lookup(d.fs, Credential).Some? && Lookup(d.fs, Credential).value.kind.Regular?
    modifies d`broken, d`looked, d`listed, d`descriptors, d`fs, d`recoveryFault, d`lost, d`unclosed
    ensures d.Valid() && OldInodesKept(old(d.fs), d.fs)
    ensures SameNames(old(d.fs), d.fs, {Credential, Config, Restore(k)} + (if snapshot.Some? then {snapshot.value} else {}))
    ensures d.unclosed == old(d.unclosed) && (old(d.recoveryFault) ==> d.recoveryFault)
    ensures !d.recoveryFault ==>
      && SameName(old(d.fs), d.fs, Restore(k))
      && (snapshot.Some? ==> snapshot.value !in d.fs.dir)
      && AsFound(was, d.fs)
    ensures old(d.broken) ==> d.broken
  {
    if published {
      var _ := d.Unlink(Credential, true);
    } else if snapshot.Some? {
      assert Credential in Unlinked(d.fs, snapshot.value).dir;
      DiscardSnapshot(d, snapshot);
    }
    ghost var mid := d.fs;
    assert snapshot.Some? ==> (snapshot.value in mid.dir ==> d.recoveryFault);
    assert !d.recoveryFault ==> SameName(was, mid, Credential);
    k := RestoreGitConfig(d, c);
    PlainNames(old(d.fs), mid, d.fs, snapshot, k);
    assert Credential in mid.dir <==> Credential in d.fs.dir;
    assert snapshot.Some? ==> (snapshot.value in mid.dir <==> snapshot.value in d.fs.dir);
    assert Restore(k) in mid.dir <==> Restore(k) in old(d.fs).dir;
    if !d.recoveryFault { RestoredConfig(c, was, d.fs, d.owner); }
  }

  /** Undo everything an apply managed to do. */
  method RollbackApply(d: PinnedDir, snapshot: Option<Name>, c: Captured, published: bool, hadArtifact: bool, ghost was: Fs)
    returns (ghost k: nat)
    requires d.Valid() && SnapshotHeld(d, snapshot)
    requires CapturedFrom(c, was)
    requires hadArtifact <==> Credential in was.dir
    requires snapshot.Some? ==> Credential in was.dir && d.fs.dir[snapshot.value] == was.dir[Credential]
    requires !published ==> SameName(was, d.fs, Credential)
    requires published ==> Lookup(d.fs, Credential).Some? && Lookup(d.fs, Credential).value.kind.Regular?
    requires Lookup(was, Config) == Lookup(d.fs, Config) || exists v :: HelpersSet(was, d.fs, v)
    modifies d`broken, d`looked, d`listed, d`descriptors, d`fs, d`recoveryFault, d`lost, d`unclosed
    ensures d.Valid() && OldInodesKept(old(d.fs), d.fs)
    ensures d.unclosed == old(d.unclosed) && (old(d.recoveryFault) ==> d.recoveryFault)
    ensures SameNames(old(d.fs), d.fs, {Credential, Config, ConfigLock, ConfigLockLock, Restore(k)} +
                                       (if snapshot.Some? then {snapshot.value} else {}))
    ensures !d.recoveryFault ==>
      && SameName(old(d.fs), d.fs, ConfigLock) && SameName(old(d.fs), d.fs, Restore(k))
      && (snapshot.Some? ==> snapshot.value !in d.fs.dir)
      && (if published && snapshot.None? && hadArtifact then Emptied(was, old(d.fs), d.fs) else AsFound(was, d.fs))
    ensures old(d.broken) ==> d.broken
  {
    hide CapturedFrom, HelpersSet, AsFound, Withdrawn, Emptied;
    k := 0;
    assert CapturedFrom(c, was);
    if published && snapshot.Some? {
      k := RollbackToSnapshot(d, snapshot.value, c, was);
      assert ConfigLock in old(d.fs).dir <==> ConfigLock in d.fs.dir;
    } else if published && hadArtifact {
      ConfigIsRegular(c, was, d.fs);
      RollbackWithdraw(d, was);
      assert Restore(k) in old(d.fs).dir <==> Restore(k) in d.fs.dir;
    } else {
      k := RollbackPlain(d, snapshot, c, published, was);
      assert ConfigLock in old(d.fs).dir <==> ConfigLock in d.fs.dir;
    }
  }

  lemma ConfigIsRegular(c: Captured, was: Fs, now: Fs)
    requires CapturedFrom(c, was)
    requires Lookup(was, Config) == Lookup(now, Config) || exists v :: HelpersSet(was, now, v)
    ensures Lookup(now, Config).Some? ==> Lookup(now, Config).value.kind.Regular?
  {
    if Lookup(was, Config) != Lookup(now, Config) {
      var v :| HelpersSet(was, now, v);
    }
  }

  /** The names after snapshot, steps, rollback and the removal of the staged file: as they
      were, but for a file left open. */
  lemma NoLitter(was: Fs, armed: Fs, stepped: Fs, undone: Fs, now: Fs, snapshot: Option<Name>, name: Name, staged: bool, k: nat, open: set<Name>)
    requires SameNames(was, armed, if snapshot.Some? then {snapshot.value} else {})
    requires snapshot.Some? ==> snapshot.value.Rollback? && snapshot.value !in was.dir && snapshot.value !in undone.dir
    requires name.Staged? && SameNames(armed, stepped, {Credential, name, Config, ConfigLock, ConfigLockLock})
    requires ConfigLock !in open ==> SameName(armed, stepped, ConfigLock)
    requires SameName(stepped, undone, ConfigLock) && SameName(stepped, undone, Restore(k))
    requires SameNames(stepped, undone, {Credential, Config, ConfigLock, ConfigLockLock, Restore(k)} +
                                        (if snapshot.Some? then {snapshot.value} else {}))
    requires if staged then name !in armed.dir && name !in now.dir && SameNames(undone, now, {name})
             else now == undone && (name !in open ==> SameName(armed, stepped, name))
    requires open <= {name, ConfigLock} && (staged ==> name !in open) && forall n :: n in open ==> n !in armed.dir && n in stepped.dir
    ensures SameNames(was, now, {Credential, Config, ConfigLockLock} + open)
    ensures forall n :: n in open ==> n !in was.dir && n in now.dir
  {
    forall n: Name | n !in {Credential, Config, ConfigLockLock} + open
      ensures (n in was.dir <==> n in now.dir) && (n in was.dir ==> was.dir[n] == now.dir[n])
    {
      if snapshot.Some? && n == snapshot.value {
        assert n !in now.dir;
      } else if n == name {
        if !staged { assert n in stepped.dir <==> n in undone.dir; }
        assert n in was.dir <==> n in armed.dir;
      } else {
        assert n in was.dir <==> n in armed.dir;
        if n != ConfigLock { assert n in armed.dir <==> n in stepped.dir; }
        if n != ConfigLock && n != Restore(k) { assert n in stepped.dir <==> n in undone.dir; }
        if staged { assert n in undone.dir <==> n in now.dir; }
      }
    }
    forall n | n in open ensures n !in was.dir && n in now.dir {
      assert n in was.dir <==> n in armed.dir;
      if n == name { assert n in stepped.dir <==> n in undone.dir; }
      if staged { assert n in undone.dir <==> n in now.dir; }
    }
  }

  /** What a failed apply leaves when a credential that was not ours had been replaced: no
      credential, and no helper either unless the helper list could not be changed, because
      of the config found, of a lock found, or of a config.lock this very operation left. */
  ghost predicate WithdrawnUnlessStuck(was: Fs, now: Fs, open: set<Name>) {
    && Credential !in now.dir
    && (Withdrawn(was, now) || (SameFile(was, now, Config) && (HelperStuck(was) || ConfigLock in open)))
    && (HelperBlocked(was) || ConfigLock in open ==> SameFile(was, now, Config))
  }

  lemma EmptiedMeans(was: Fs, armed: Fs, stepped: Fs, undone: Fs, values: seq<string>, open: set<Name>)
    requires Lookup(was, Config) == Lookup(armed, Config) && (ConfigLock in was.dir <==> ConfigLock in armed.dir)
    requires ConfigLockLock in was.dir <==> ConfigLockLock in armed.dir
    requires OldInodesKept(armed, stepped) && OldInodesKept(stepped, undone) && WellFormed(armed) && WellFormed(stepped)
    requires SameName(armed, stepped, Config) || (HelpersSet(armed, stepped, values) && !HelperStuck(stepped))
    requires ConfigLock !in open ==> SameName(armed, stepped, ConfigLock)
    requires ConfigLock in open ==> ConfigLock in stepped.dir
    requires ConfigLockLock in stepped.dir ==> ConfigLockLock in armed.dir
    requires HelperBlocked(armed) || ConfigLock in open ==> SameName(armed, stepped, Config)
    requires Emptied(was, stepped, undone)
    ensures WithdrawnUnlessStuck(was, undone, open)
  {
    hide Withdrawn;
    assert SameName(armed, stepped, Config) ==> Lookup(armed, Config) == Lookup(stepped, Config);
    assert SameName(stepped, undone, Config) ==> Lookup(stepped, Config) == Lookup(undone, Config);
  }

  /** The catch block: roll back, then remove the staged file. */
  method UndoApply(d: PinnedDir, snapshot: Option<Name>, c: Captured, staged: Option<Name>, published: bool, hadArtifact: bool,
                   ghost was: Fs, ghost armed: Fs, ghost name: Name, ghost values: seq<string>)
    requires d.Valid() && SnapshotHeld(d, snapshot) && CapturedFrom(c, was)
    requires hadArtifact <==> Credential in was.dir
    requires snapshot.Some? ==> Credential in was.dir && d.fs.dir[snapshot.value] == was.dir[Credential]
    requires SteppedFrom(was, armed, d.fs, snapshot, name, published, values)
    requires !published ==> SameName(was, d.fs, Credential)
    requires published ==> Lookup(d.fs, Credential).Some? && Lookup(d.fs, Credential).value.kind.Regular?
    requires staged.Some? ==> staged.value == name && name !in armed.dir
    requires d.unclosed == {} || LeftOpenBy(armed, d.fs, d.unclosed, name, staged, published)
    requires !d.recoveryFault ==> Traceless(armed, d.fs, name, staged, d.unclosed)
    requires HelperBlocked(armed) || ConfigLock in d.unclosed ==> SameName(armed, d.fs, Config)
    requires d.watched.Some? ==> hadArtifact && was.dir[Credential] == d.watched.value
    modifies d`broken, d`looked, d`listed, d`descriptors, d`fs, d`recoveryFault, d`lost, d`unclosed
    ensures d.Valid() && OldInodesKept(old(d.fs), d.fs)
    ensures d.unclosed == old(d.unclosed) && (old(d.recoveryFault) ==> d.recoveryFault)
    ensures !d.recoveryFault ==> SameNames(was, d.fs, {Credential, Config, ConfigLockLock} + d.unclosed)
    ensures !d.recoveryFault ==> forall n :: n in d.unclosed ==> n !in was.dir && n in d.fs.dir
    ensures !d.recoveryFault ==> SameName(old(d.fs), d.fs, name) || name !in d.unclosed
    ensures !d.recoveryFault ==>
      if published && snapshot.None? && hadArtifact then WithdrawnUnlessStuck(was, d.fs, d.unclosed) else AsFound(was, d.fs)
    ensures old(d.broken) ==> d.broken
  {
    hide CapturedFrom, HelpersSet, Emptied, Withdrawn, WithdrawnUnlessStuck, AsFound, HelperBlocked, HelperStuck, Kept, LeftOpenBy, Traceless;
    ghost var stepped := d.fs;
    ConfigSince(was, armed, stepped, snapshot, name, published, values);
    ghost var k := RollbackApply(d, snapshot, c, published, hadArtifact, was);
    ghost var undone := d.fs;
    DiscardStaged(d, staged, name);
    if !d.recoveryFault {
      Undone(was, armed, stepped, undone, d.fs, snapshot, name, staged, published, hadArtifact, k, d.unclosed, values);
    }
  }

  /** What the catch block has come to when each of its steps was done. */
  lemma Undone(was: Fs, armed: Fs, stepped: Fs, undone: Fs, now: Fs, snapshot: Option<Name>, name: Name, staged: Option<Name>,
               published: bool, hadArtifact: bool, k: nat, open: set<Name>, values: seq<string>)
    requires SteppedFrom(was, armed, stepped, snapshot, name, published, values) && WellFormed(stepped) && WellFormed(undone)
    requires Traceless(armed, stepped, name, staged, open)
    requires open == {} || LeftOpenBy(armed, stepped, open, name, staged, published)
    requires staged.Some? ==> staged.value == name && name !in armed.dir && name !in now.dir
    requires HelperBlocked(armed) || ConfigLock in open ==> SameName(armed, stepped, Config)
    requires OldInodesKept(stepped, undone) && OldInodesKept(undone, now)
    requires SameName(stepped, undone, ConfigLock) && SameName(stepped, undone, Restore(k))
    requires SameNames(stepped, undone, {Credential, Config, ConfigLock, ConfigLockLock, Restore(k)} +
                                        (if snapshot.Some? then {snapshot.value} else {}))
    requires snapshot.Some? ==> snapshot.value !in undone.dir
    requires if staged.Some? then SameNames(undone, now, {name}) else undone == now
    requires if published && snapshot.None? && hadArtifact then Emptied(was, stepped, undone) else AsFound(was, undone)
    ensures SameNames(was, now, {Credential, Config, ConfigLockLock} + open)
    ensures forall n :: n in open ==> n !in was.dir && n in now.dir
    ensures name in open ==> SameName(stepped, now, name)
    ensures if published && snapshot.None? && hadArtifact then WithdrawnUnlessStuck(was, now, open) else AsFound(was, now)
  {
    hide HelpersSet, Emptied, Withdrawn, WithdrawnUnlessStuck, AsFound, HelperBlocked, HelperStuck, Lookup;
    ConfigSince(was, armed, stepped, snapshot, name, published, values);
    if published && snapshot.None? && hadArtifact { EmptiedMeans(was, armed, stepped, undone, values, open); }
    NoLitter(was, armed, stepped, undone, now, snapshot, name, staged.Some?, k, open);
    StagedAside(was, undone, now, name, open);
    assert name in open ==> (name in stepped.dir <==> name in undone.dir);
  }

  /** Where the forward steps of an apply may have come to. */
  ghost predicate SteppedFrom(was: Fs, armed: Fs, stepped: Fs, snapshot: Option<Name>, name: Name, published: bool, values: seq<string>) {
    && WellFormed(armed) && OldInodesKept(armed, stepped)
    && SameNames(was, armed, if snapshot.Some? then {snapshot.value} else {})
    && (snapshot.Some? ==> snapshot.value.Rollback? && snapshot.value !in was.dir)
    && Lookup(was, Config) == Lookup(armed, Config)
    && name.Staged? && SameNames(armed, stepped, {Credential, name, Config, ConfigLock, ConfigLockLock})
    && (SameName(armed, stepped, Config) || (published && HelpersSet(armed, stepped, values) && !HelperStuck(stepped)))
  }

  lemma ConfigSince(was: Fs, armed: Fs, stepped: Fs, snapshot: Option<Name>, name: Name, published: bool, values: seq<string>)
    requires SteppedFrom(was, armed, stepped, snapshot, name, published, values)
    ensures Lookup(was, Config) == Lookup(stepped, Config) || exists v :: HelpersSet(was, stepped, v)
    ensures ConfigLock in was.dir <==> ConfigLock in armed.dir
    ensures ConfigLockLock in was.dir <==> ConfigLockLock in armed.dir
  {
    if SameName(armed, stepped, Config) {
      assert Lookup(armed, Config) == Lookup(stepped, Config);
    } else {
      assert HelpersSet(was, stepped, values);
    }
  }

  /** No step has left a lock or the staged file, but for what was left open. */
  ghost predicate Traceless(armed: Fs, stepped: Fs, name: Name, staged: Option<Name>, open: set<Name>) {
    && (ConfigLock !in open ==> SameName(armed, stepped, ConfigLock))
    && (staged.None? && name !in open ==> SameName(armed, stepped, name))
    && (ConfigLockLock in stepped.dir ==> ConfigLockLock in armed.dir)
  }

  method DiscardStaged(d: PinnedDir, staged: Option<Name>, ghost name: Name)
    requires d.Valid() && name.Staged? && (staged.Some? ==> staged.value == name)
    modifies d`broken, d`looked, d`listed, d`descriptors, d`fs, d`recoveryFault, d`lost
    ensures d.Valid() && OldInodesKept(old(d.fs), d.fs)
    ensures old(d.recoveryFault) ==> d.recoveryFault
    ensures staged.None? ==> d.fs == old(d.fs)
    ensures SameNames(old(d.fs), d.fs, {name})
    ensures staged.Some? && !d.recoveryFault ==> name !in d.fs.dir
    ensures old(d.broken) ==> d.broken
  {
    if staged.Some? {
      KeptWithoutStaged(d, name);
      var _ := d.Unlink(staged.value, true);
    }
  }

  lemma StagedAside(was: Fs, undone: Fs, now: Fs, name: Name, open: set<Name>)
    requires name.Staged? && SameNames(undone, now, {name}) && OldInodesKept(undone, now) && WellFormed(undone)
    ensures AsFound(was, undone) ==> AsFound(was, now)
    ensures WithdrawnUnlessStuck(was, undone, open) ==> WithdrawnUnlessStuck(was, now, open)
  {
    assert Credential in undone.dir <==> Credential in now.dir;
    assert Config in undone.dir <==> Config in now.dir;
    assert Lookup(undone, Config) == Lookup(now, Config);
  }

  /** Removing a staged file never takes the last name of the watched credential. */
  lemma KeptWithoutStaged(d: PinnedDir, name: Name)
    requires d.Valid() && name.Staged?
    ensures Kept(Unlinked(d.fs, name), d.watched)
  {
  }

  /** A credential that may be replaced: a regular file, or for a revocation a link as well. */
  ghost predicate Replaceable(fs: Fs, links: bool) {
    Lookup(fs, Credential).Some? ==>
      var kind := Lookup(fs, Credential).value.kind;
      kind.Regular? || (links && kind.Symlink?)
  }

  /** Before the try: look at the credential, link an owned one, capture the config. */
  method Arm(d: PinnedDir, links: bool) returns (ok: bool, present: bool, snapshot: Option<Name>, c: Captured, ghost link: Option<Name>)
    requires d.Valid() && d.watched == OwnedCredential(d.fs, d.owner)
    modifies d`broken, d`looked, d`listed, d`descriptors, d`fs, d`recoveryFault, d`lost
    ensures d.Valid() && d.recoveryFault == old(d.recoveryFault)
    ensures link.Some? ==> d.watched.Some? && link.value.Rollback? && link.value !in old(d.fs).dir && Credential in old(d.fs).dir
    ensures d.fs == if link.Some? then Linked(old(d.fs), Credential, link.value) else old(d.fs)
    ensures ok ==> snapshot == link && (link.Some? <==> d.watched.Some?) && (present <==> Credential in old(d.fs).dir)
    ensures ok ==> CapturedFrom(c, old(d.fs)) && (Lookup(old(d.fs), Config).None? || Lookup(old(d.fs), Config).value.kind.Regular?)
    ensures ok ==> Replaceable(old(d.fs), links)
    ensures (old(d.broken) ==> d.broken) && (ok ==> d.broken == old(d.broken))
    ensures !d.broken && Replaceable(old(d.fs), links) && !HelperStuck(old(d.fs)) ==> ok
  {
    hide HelperStuck, CapturedFrom;
    ghost var was := d.fs;
    link, snapshot, c := None, None, Absent;
    var before;
    ok, before := d.Lstat(Credential, false);
    present := ok && before.Some?;
    if !ok { return; }
    if before.Some? && !(before.value.kind.Regular? || (links && before.value.kind.Symlink?)) { ok := false; return; }
    ok, snapshot := SnapshotArtifact(d);
    NotEntered(was, d.fs, if snapshot.Some? then snapshot.value else Rollback(0), d.owner, "");
    if !ok { return; }
    link := snapshot;
    ok, c := CaptureGitConfig(d, false);
    if ok { CapturedSince(c, was, d.fs); } else if !d.broken { IrregularIsStuck(was, d.fs); }
  }

  /** Create or rotate the credential.
      Success: the new credential, private, with exactly the reset-and-store helpers.
      Failure with every recovery step done: as found, unless a credential that was not
      ours had been replaced, which is withdrawn instead; the names are as found exactly
      when no close of a new file failed.  Whatever fails, the previous
      owned credential has a name in every state before success was verified. */
  method ApplyCredential(d: PinnedDir, token: string, path: string) returns (ok: bool, ghost entered: bool, ghost link: Option<Name>)
    requires d.Valid() && !d.recoveryFault && d.unclosed == {} && d.undiscarded == {} && d.watched == OwnedCredential(d.fs, d.owner)
    modifies d
    ensures d.Valid() && OldInodesKept(old(d.fs), d.fs)
    ensures ok ==> Applied(old(d.fs), d.fs, d.owner, token, path)
    ensures ok ==> SameNames(old(d.fs), d.fs, {Credential, Config, ConfigLockLock} + LinkName(link))
    ensures d.undiscarded <= LinkName(link) && (!ok ==> d.undiscarded == {})
    ensures ok && link.Some? && link.value in d.fs.dir ==> link.value in d.undiscarded
    ensures ok && d.undiscarded == {} && old(d.watched).Some? ==> forall n :: n in d.fs.dir && d.fs.dir[n] == old(d.watched).value ==>
              n != Credential && n in old(d.fs).dir && old(d.fs).dir[n] == old(d.watched).value
    ensures link.Some? ==> old(d.watched).Some? && link.value.Rollback? && link.value !in old(d.fs).dir
    ensures entered ==> (link.Some? <==> old(d.watched).Some?)
    ensures !entered ==> !ok && d.fs == if link.Some? then Linked(old(d.fs), Credential, link.value) else old(d.fs)
    ensures entered ==> Lookup(old(d.fs), Config).None? || Lookup(old(d.fs), Config).value.kind.Regular?
    ensures !ok ==> d.watched == old(d.watched)
    ensures !ok && !d.recoveryFault ==>
      || AsFound(old(d.fs), d.fs)
      || (old(d.watched).None? && Credential in old(d.fs).dir && WithdrawnUnlessStuck(old(d.fs), d.fs, d.unclosed))
    ensures !ok && entered && !d.recoveryFault ==> SameNames(old(d.fs), d.fs, {Credential, Config, ConfigLockLock} + d.unclosed)
    ensures !ok && entered && !d.recoveryFault ==> (SameNames(old(d.fs), d.fs, {Credential, Config, ConfigLockLock}) <==> d.unclosed == {})
    ensures !ok && !d.recoveryFault ==> StaysStaged(d.fs, d.owner, d.unclosed, token)
    ensures ok || !entered ==> d.unclosed == {}
    ensures forall n :: n in d.unclosed ==> n.Staged? || n == ConfigLock
    ensures old(d.broken) ==> d.broken
    ensures !d.broken ==> (ValidToken(token) && (Lookup(old(d.fs), Credential).Some? ==> Lookup(old(d.fs), Credential).value.kind.Regular?) && !HelperStuck(old(d.fs)) ==> ok)
    ensures ok ==> d.broken == old(d.broken)
    ensures ok ==> ReadBack(d.looked, d.fs, link) && ReadBack(d.listed, d.fs, link)
    ensures Lookup(old(d.fs), Credential).Some? && !Lookup(old(d.fs), Credential).value.kind.Regular? ==> !entered
  {
    hide Applied, AsFound, WithdrawnUnlessStuck, StaysStaged, ReadBack, HelpersSet, HelperStuck, SameFile, CapturedFrom;
    ghost var was := d.fs;
    entered, link := false, None;
    var present, snapshot, c;
    ok, present, snapshot, c, link := Arm(d, false);
    NotEntered(was, d.fs, if link.Some? then link.value else Rollback(0), d.owner, token);
    if !ok { return; }
    entered := true;
    ok := ApplyOrUndo(d, token, path, snapshot, c, present, was);
    if ok && d.undiscarded == {} && old(d.watched).Some? { OldFileNames(was, d.fs, link, old(d.watched).value); }
    if !ok && !d.recoveryFault { OpenShows(was, d.fs, {Credential, Config, ConfigLockLock}, d.unclosed); }
  }

  /** One failed close, no failed recovery.  Whatever the repository holds, a staged file
      whose close fails stays there with the token in it.  And when a credential that is not
      ours has been replaced before the close of config.lock fails, the catch block removes
      the new credential, meets the lock this very operation left, and ends with the old
      helpers, no credential and a lock that stops every later update. */
  lemma CloseLeavesFile(fs: Fs, owner: nat, token: string)
    requires WellFormed(fs) && Staged(0) !in fs.dir && ConfigLock !in fs.dir && Lookup(fs, Credential).Some?
    requires Lookup(fs, Config).Some? && Lookup(fs, Config).value.content.ConfigText? && Lookup(fs, Config).value.content.helpers != []
    ensures
      var staged := Created(fs, Staged(0), Inode(Regular, owner, CREDENTIAL_MODE, CredentialLine(token)));
      var published := Renamed(staged, Staged(0), Credential);
      var locked := Created(published, ConfigLock, Lookup(fs, Config).value.(uid := owner));
      var undone := Unlinked(locked, Credential);
      && Lookup(staged, Staged(0)).value.content == CredentialLine(token) && !SameNames(fs, staged, {Credential, Config, ConfigLockLock})
      && Lookup(published, Credential).value.content == CredentialLine(token)
      && HelperBlocked(undone) && SameName(fs, undone, Config) && Credential !in undone.dir
      && !AsFound(fs, undone) && !Withdrawn(fs, undone) && !SameNames(fs, undone, {Credential, Config, ConfigLockLock})
      && WithdrawnUnlessStuck(fs, undone, {ConfigLock})
  {
    var staged := Created(fs, Staged(0), Inode(Regular, owner, CREDENTIAL_MODE, CredentialLine(token)));
    var published := Renamed(staged, Staged(0), Credential);
    var undone := Unlinked(Created(published, ConfigLock, Lookup(fs, Config).value.(uid := owner)), Credential);
    assert Staged(0) in staged.dir;
    assert ConfigLock in undone.dir;
    assert Lookup(undone, Config) == Lookup(fs, Config);
  }

  lemma ArmedNames(was: Fs, armed: Fs, snapshot: Option<Name>)
    requires WellFormed(was) && OldInodesKept(was, armed) && SameNames(was, armed, LinkName(snapshot)) && (snapshot.Some? ==> snapshot.value.Rollback?)
    ensures SameName(was, armed, Credential) && Lookup(was, Config) == Lookup(armed, Config)
    ensures Lookup(was, Credential) == Lookup(armed, Credential) && (HelperStuck(was) <==> HelperStuck(armed))
  {
    assert Credential in was.dir <==> Credential in armed.dir;
    assert Config in was.dir <==> Config in armed.dir;
    assert ConfigLock in was.dir <==> ConfigLock in armed.dir;
    assert ConfigLockLock in was.dir <==> ConfigLockLock in armed.dir;
  }

  lemma LinkStays(armed: Fs, stepped: Fs, snapshot: Option<Name>, name: Name)
    requires name.Staged? && SameNames(armed, stepped, {Credential, name, Config, ConfigLock, ConfigLockLock})
    ensures snapshot.Some? && snapshot.value.Rollback? ==> SameName(armed, stepped, snapshot.value)
  {
    if snapshot.Some? && snapshot.value.Rollback? { assert snapshot.value in armed.dir <==> snapshot.value in stepped.dir; }
  }

  lemma AppliedSince(was: Fs, armed: Fs, now: Fs, owner: nat, token: string, path: string)
    requires Lookup(was, Config) == Lookup(armed, Config) && Applied(armed, now, owner, token, path)
    ensures Applied(was, now, owner, token, path)
  {
  }

  /** Before the try: nothing has changed but a new link to the credential. */
  lemma NotEntered(was: Fs, now: Fs, link: Name, owner: nat, token: string)
    requires now == was || (Credential in was.dir && link.Rollback? && now == Linked(was, Credential, link))
    ensures AsFound(was, now) && SameFile(was, now, Config) && StaysStaged(now, owner, {}, token)
    ensures Lookup(was, Config) == Lookup(now, Config)
  {
  }

  lemma IrregularIsStuck(was: Fs, now: Fs)
    requires Lookup(was, Config) == Lookup(now, Config) && Lookup(now, Config).Some? && !Lookup(now, Config).value.kind.Regular?
    ensures HelperStuck(was)
  {
  }

  lemma LinkedNames(a: Fs, b: Fs, c: Fs, snapshot: Option<Name>, names: set<Name>)
    requires SameNames(a, b, LinkName(snapshot)) && SameNames(b, c, names + LinkName(snapshot))
    ensures SameNames(a, c, names + LinkName(snapshot))
  {
    forall n: Name | n !in names + LinkName(snapshot)
      ensures (n in a.dir <==> n in c.dir) && (n in a.dir ==> a.dir[n] == c.dir[n])
    {
      assert n in a.dir <==> n in b.dir;
      assert n in b.dir <==> n in c.dir;
    }
  }

  /** The try statement: the forward steps, undone when one of them fails. */
  method ApplyOrUndo(d: PinnedDir, token: string, path: string, snapshot: Option<Name>, c: Captured, hadArtifact: bool, ghost was: Fs)
    returns (ok: bool)
    requires d.Valid() && SnapshotHeld(d, snapshot) && CapturedFrom(c, was) && OldInodesKept(was, d.fs)
    requires hadArtifact <==> Credential in was.dir
    requires SameNames(was, d.fs, if snapshot.Some? then {snapshot.value} else {}) && WellFormed(was)
    requires snapshot.Some? ==> snapshot.value !in was.dir && Credential in was.dir && d.fs.dir[snapshot.value] == was.dir[Credential]
    requires d.watched.Some? ==> hadArtifact && was.dir[Credential] == d.watched.value
    requires (!hadArtifact || snapshot.Some? || d.watched.None?) && d.unclosed == {} && d.undiscarded == {}
    modifies d
    ensures d.Valid() && OldInodesKept(old(d.fs), d.fs)
    ensures old(d.recoveryFault) ==> d.recoveryFault
    ensures ok ==> Applied(was, d.fs, d.owner, token, path)
    ensures ok ==> SameNames(was, d.fs, {Credential, Config, ConfigLockLock} + LinkName(snapshot))
    ensures ok ==> NoNewNames(was, d.fs, LinkName(snapshot)) && Credential in d.fs.dir && d.fs.dir[Credential] >= old(d.fs).next
    ensures d.undiscarded <= LinkName(snapshot) && (!ok ==> d.undiscarded == {})
    ensures ok && snapshot.Some? && snapshot.value in d.fs.dir ==> snapshot.value in d.undiscarded
    ensures !ok ==> d.watched == old(d.watched)
    ensures !ok && !d.recoveryFault ==>
      || AsFound(was, d.fs)
      || (snapshot.None? && hadArtifact && WithdrawnUnlessStuck(was, d.fs, d.unclosed))
    ensures !ok && !d.recoveryFault ==> SameNames(was, d.fs, {Credential, Config, ConfigLockLock} + d.unclosed)
    ensures !ok && !d.recoveryFault ==> forall n :: n in d.unclosed ==> n !in was.dir && n in d.fs.dir
    ensures !ok && !d.recoveryFault ==> StaysStaged(d.fs, d.owner, d.unclosed, token)
    ensures ok ==> d.unclosed == {}
    ensures forall n :: n in d.unclosed ==> n.Staged? || n == ConfigLock
    ensures old(d.broken) ==> d.broken
    ensures !d.broken ==> (ValidToken(token) && (Lookup(was, Credential).Some? ==> Lookup(was, Credential).value.kind.Regular?) && !HelperStuck(was) ==> ok)
    ensures ok ==> d.broken == old(d.broken)
    ensures ok ==> ReadBack(d.looked, d.fs, snapshot) && ReadBack(d.listed, d.fs, snapshot)
  {
    hide NoNewNames, Kept, CapturedFrom, HelperStuck, HelperBlocked, AsFound, WithdrawnUnlessStuck, Applied, HelpersSet, SameNames, Lookup, StaysStaged, ReadBack;
    ghost var armed := d.fs;
    ArmedNames(was, armed, snapshot);
    NewLink(was, armed, snapshot);
    var staged, published;
    ghost var name;
    ok, staged, published, name := ApplySteps(d, token, path, snapshot);
    if ok {
      AppliedSince(was, armed, d.fs, d.owner, token, path);
      NoNewNamesTwice(was, armed, d.fs, LinkName(snapshot));
      LinkedNames(was, armed, d.fs, snapshot, {Credential, Config, ConfigLockLock});
      return;
    }
    LinkStays(armed, d.fs, snapshot, name);
    ghost var stepped := d.fs;
    UndoApply(d, snapshot, c, staged, published, hadArtifact, was, armed, name, ExpectedHelperValues(path));
    if !d.recoveryFault { StillStaged(stepped, d.fs, d.owner, d.unclosed, token); }
  }

  // ---------------------------------------------------------------- revoke

  /** Remove the credential's entry; a directory or special file is refused. */
  method RemoveArtifact(d: PinnedDir) returns (ok: bool)
    requires d.Valid()
    requires d.watched.Some? ==> exists n: Name :: n.Rollback? && n in d.fs.dir && d.fs.dir[n] == d.watched.value
    modifies d`broken, d`looked, d`listed, d`descriptors, d`fs, d`recoveryFault, d`lost
    ensures d.Valid() && d.recoveryFault == old(d.recoveryFault)
    ensures Undisturbed(old(d.fs), d.fs, {Credential})
    ensures ok ==> Credential !in d.fs.dir
    ensures !ok ==> d.fs == old(d.fs)
    ensures old(d.broken) ==> d.broken
    ensures !d.broken ==> (ok || (Lookup(d.fs, Credential).Some? && (Lookup(d.fs, Credential).value.kind.Directory? || Lookup(d.fs, Credential).value.kind.Special?)))
    ensures ok ==> d.broken == old(d.broken)
    ensures !Removable(old(d.fs)) ==> !ok
  {
    ghost var link: Name :| d.watched.Some? ==> link.Rollback? && link in d.fs.dir && d.fs.dir[link] == d.watched.value;
    var st;
    ok, st := d.Lstat(Credential, false);
    if !ok || st.None? { return; }
    if st.value.kind.Directory? || st.value.kind.Special? { ok := false; return; }
    assert d.watched.Some? ==> link in Unlinked(d.fs, Credential).dir;
    var r := d.Unlink(Credential, false);
    ok := !r.Failed?;
  }

  /** Absence is confirmed, not assumed. */
  method ConfirmRevoked(d: PinnedDir) returns (ok: bool)
    requires d.Valid()
    modifies d`broken, d`looked, d`listed, d`descriptors, d`recoveryFault
    ensures d.Valid() && d.recoveryFault == old(d.recoveryFault)
    ensures ok ==> Credential !in d.fs.dir
    ensures ok && Lookup(d.fs, Config).Some? ==> Lookup(d.fs, Config).value.content.ConfigText? && Lookup(d.fs, Config).value.content.helpers == []
    ensures old(d.broken) ==> d.broken
    ensures !d.broken ==> (Credential !in d.fs.dir && HasHelpers(d.fs, []) ==> ok)
    ensures ok ==> d.broken == old(d.broken)
    ensures ok ==> d.looked == d.listed == Some(d.fs)
  {
    hide Kept;
    var st;
    ok, st := d.Lstat(Credential, false);
    if !ok { return; }
    if st.Some? { ok := false; return; }
    ok := d.Probe(false);
    if !ok { return; }
    var helpers;
    ok, helpers := d.GitGetHelpers();
    if ok && helpers != [] { ok := false; }
  }

  /** Once the helper is gone: remove the credential, confirm, and let the snapshot go. */
  method RemoveAndConfirm(d: PinnedDir, snapshot: Option<Name>) returns (ok: bool)
    requires d.Valid() && SnapshotHeld(d, snapshot)
    modifies d`broken, d`looked, d`listed, d`descriptors, d`fs, d`recoveryFault, d`lost, d`watched, d`undiscarded
    ensures d.Valid() && OldInodesKept(old(d.fs), d.fs) && (old(d.recoveryFault) ==> d.recoveryFault)
    ensures SameName(old(d.fs), d.fs, Config)
    ensures ok ==> Credential !in d.fs.dir && d.watched == None
    ensures ok ==> SameNames(old(d.fs), d.fs, {Credential} + LinkName(snapshot))
    ensures ok ==> NoNewNames(old(d.fs), d.fs, {})
    ensures d.undiscarded == old(d.undiscarded) || (ok && d.undiscarded == old(d.undiscarded) + LinkName(snapshot))
    ensures ok && snapshot.Some? && snapshot.value in d.fs.dir ==> snapshot.value in d.undiscarded
    ensures !ok ==> d.watched == old(d.watched) && SnapshotHeld(d, snapshot) && SameNames(old(d.fs), d.fs, {Credential})
    ensures !ok && Credential in d.fs.dir ==> SameName(old(d.fs), d.fs, Credential)
    ensures old(d.broken) ==> d.broken
    ensures !d.broken ==> (HasHelpers(old(d.fs), []) && Removable(old(d.fs)) ==> ok)
    ensures ok ==> d.broken == old(d.broken)
    ensures ok ==> ReadBack(d.looked, d.fs, snapshot) && ReadBack(d.listed, d.fs, snapshot)
  {
    ok := RemoveArtifact(d);
    assert Config in old(d.fs).dir <==> Config in d.fs.dir;
    assert snapshot.Some? ==> (snapshot.value in d.fs.dir && d.fs.dir[snapshot.value] == old(d.fs).dir[snapshot.value]);
    if !ok { return; }
    ok := ConfirmRevoked(d);
    if !ok { return; }
    d.watched := None; // verified: the previous credential may go
    ghost var verified := d.fs;
    RetireSnapshot(d, snapshot);
    assert Credential in verified.dir <==> Credential in d.fs.dir;
    assert Config in verified.dir <==> Config in d.fs.dir;
    forall n: Name | n !in {Credential} + LinkName(snapshot)
      ensures (n in old(d.fs).dir <==> n in d.fs.dir) && (n in d.fs.dir ==> old(d.fs).dir[n] == d.fs.dir[n])
    {
      assert n in old(d.fs).dir <==> n in verified.dir;
      assert n in verified.dir <==> n in d.fs.dir;
    }
  }

  /** The forward steps: the helper goes first, so git never points at a missing file. */
  method RevokeSteps(d: PinnedDir, snapshot: Option<Name>) returns (ok: bool, cleared: bool)
    requires d.Valid() && SnapshotHeld(d, snapshot) && d.unclosed == {} && d.undiscarded == {}
    modifies d
    ensures d.Valid() && OldInodesKept(old(d.fs), d.fs)
    ensures old(d.recoveryFault) ==> d.recoveryFault
    ensures ok ==> Credential !in d.fs.dir && HelpersSet(old(d.fs), d.fs, []) && d.watched == None
    ensures ok ==> SameNames(old(d.fs), d.fs, {Credential, Config, ConfigLockLock} + LinkName(snapshot))
    ensures ok ==> NoNewNames(old(d.fs), d.fs, {})
    ensures d.undiscarded <= LinkName(snapshot) && (!ok ==> d.undiscarded == {})
    ensures ok && snapshot.Some? && snapshot.value in d.fs.dir ==> snapshot.value in d.undiscarded
    ensures !ok ==> d.watched == old(d.watched) && SnapshotHeld(d, snapshot)
    ensures !ok ==> SameNames(old(d.fs), d.fs, {Credential, Config, ConfigLock, ConfigLockLock})
    ensures !ok ==> Credential in d.fs.dir ==> SameName(old(d.fs), d.fs, Credential)
    ensures !cleared ==> SameName(old(d.fs), d.fs, Config) && SameName(old(d.fs), d.fs, Credential)
    ensures d.unclosed == {} || (!ok && LeftOpen(old(d.fs), d.fs, {}, d.unclosed, ConfigLock))
    ensures !ok && !d.recoveryFault && d.unclosed == {} ==> SameName(old(d.fs), d.fs, ConfigLock)
    ensures old(d.broken) ==> d.broken
    ensures !d.broken ==> (!HelperStuck(old(d.fs)) && Removable(old(d.fs)) ==> ok)
    ensures ok ==> d.broken == old(d.broken)
    ensures ok ==> ReadBack(d.looked, d.fs, snapshot) && ReadBack(d.listed, d.fs, snapshot)
  {
    hide HelpersSet, Kept, HelperStuck, HasHelpers, ReadBack;
    cleared := SetLocalCredentialHelpers(d, [], false);
    ghost var mid := d.fs;
    assert SameName(old(d.fs), mid, Credential) by { assert Credential in mid.dir <==> Credential in old(d.fs).dir; }
    assert snapshot.Some? ==> (snapshot.value in mid.dir && mid.dir[snapshot.value] == old(d.fs).dir[snapshot.value]);
    ok := cleared;
    if !ok { return; }
    HelpersAre(old(d.fs), mid, []);
    assert Removable(old(d.fs)) ==> Removable(mid);
    ok := RemoveAndConfirm(d, snapshot);
    ClearedStill(old(d.fs), mid, d.fs, []);
    if ok {
      RevokedNames(old(d.fs), mid, d.fs, snapshot);
    } else {
      NamesBoth(old(d.fs), mid, d.fs);
    }
  }

  lemma RevokedNames(a: Fs, b: Fs, c: Fs, snapshot: Option<Name>)
    requires SameNames(a, b, {Config, ConfigLock, ConfigLockLock}) && SameName(a, b, ConfigLock)
    requires SameNames(b, c, {Credential} + LinkName(snapshot))
    ensures SameNames(a, c, {Credential, Config, ConfigLockLock} + LinkName(snapshot))
  {
    forall n: Name | n !in {Credential, Config, ConfigLockLock} + LinkName(snapshot)
      ensures (n in a.dir <==> n in c.dir) && (n in a.dir ==> a.dir[n] == c.dir[n])
    {
      assert n in b.dir <==> n in c.dir;
      if n != ConfigLock { assert n in a.dir <==> n in b.dir; }
    }
  }

  lemma NamesBoth(a: Fs, b: Fs, c: Fs)
    requires SameNames(a, b, {Config, ConfigLock, ConfigLockLock}) && SameNames(b, c, {Credential})
    ensures SameNames(a, c, {Credential, Config, ConfigLock, ConfigLockLock})
    ensures SameName(a, b, ConfigLock) ==> SameName(a, c, ConfigLock)
  {
    assert ConfigLock in b.dir <==> ConfigLock in c.dir;
    forall n: Name | n !in {Credential, Config, ConfigLock, ConfigLockLock}
      ensures (n in a.dir <==> n in c.dir) && (n in a.dir ==> a.dir[n] == c.dir[n])
    {
      assert n in a.dir <==> n in b.dir;
      assert n in b.dir <==> n in c.dir;
    }
  }

  lemma HelpersAre(a: Fs, b: Fs, values: seq<string>)
    requires HelpersSet(a, b, values)
    ensures HasHelpers(b, values)
  {
  }

  lemma ClearedStill(a: Fs, b: Fs, c: Fs, values: seq<string>)
    requires WellFormed(b) && OldInodesKept(b, c) && SameName(b, c, Config) && HelpersSet(a, b, values)
    ensures HelpersSet(a, c, values)
  {
    assert Lookup(b, Config) == Lookup(c, Config);
  }

  /** The catch block of a revocation. */
  method UndoRevoke(d: PinnedDir, snapshot: Option<Name>, c: Captured, cleared: bool, ghost was: Fs, ghost armed: Fs)
    requires d.Valid() && SnapshotHeld(d, snapshot) && CapturedFrom(c, was)
    requires SameNames(was, armed, if snapshot.Some? then {snapshot.value} else {})
    requires Lookup(was, Config) == Lookup(armed, Config) && OldInodesKept(armed, d.fs) && WellFormed(armed)
    requires SameNames(armed, d.fs, {Credential, Config, ConfigLock, ConfigLockLock})
    requires d.unclosed == {} || LeftOpen(armed, d.fs, {}, d.unclosed, ConfigLock)
    requires !d.recoveryFault && d.unclosed == {} ==> SameName(armed, d.fs, ConfigLock)
    requires snapshot.Some? ==> snapshot.value !in was.dir && Credential in was.dir && d.fs.dir[snapshot.value] == was.dir[Credential]
    requires Credential in d.fs.dir ==> SameName(was, d.fs, Credential)
    requires !cleared ==> SameName(armed, d.fs, Config) && SameName(was, d.fs, Credential)
    modifies d`broken, d`looked, d`listed, d`descriptors, d`fs, d`recoveryFault, d`lost, d`unclosed
    ensures d.Valid() && OldInodesKept(old(d.fs), d.fs)
    ensures d.unclosed == old(d.unclosed) && (old(d.recoveryFault) ==> d.recoveryFault)
    ensures !d.recoveryFault ==> SameNames(was, d.fs, {Credential, Config, ConfigLockLock} + d.unclosed) && SameFile(was, d.fs, Config)
    ensures !d.recoveryFault ==> forall n :: n in d.unclosed ==> n !in was.dir && n in d.fs.dir
    ensures !d.recoveryFault ==> SameName(was, d.fs, Credential) || (snapshot.None? && Credential !in d.fs.dir)
    ensures old(d.broken) ==> d.broken
  {
    hide CapturedFrom, SameFile, Kept;
    ghost var stepped := d.fs;
    if snapshot.Some? { RestoreSnapshot(d, snapshot.value); }
    ghost var mid := d.fs;
    assert Config in mid.dir <==> Config in stepped.dir;
    assert !cleared ==> Lookup(mid, Config) == Lookup(was, Config);
    RestoreIfCleared(d, c, cleared, was);
    if !d.recoveryFault {
      assert SameName(mid, d.fs, Credential);
      assert snapshot.Some? ==> SameName(mid, d.fs, snapshot.value);
      NoLitterRevoked(was, armed, stepped, mid, d.fs, snapshot, d.unclosed);
    }
  }

  /** The config is put back only when the helper had been removed from it. */
  method RestoreIfCleared(d: PinnedDir, c: Captured, cleared: bool, ghost was: Fs)
    requires d.Valid() && CapturedFrom(c, was)
    requires !cleared ==> Lookup(d.fs, Config) == Lookup(was, Config)
    modifies d`broken, d`looked, d`listed, d`descriptors, d`fs, d`recoveryFault, d`lost, d`unclosed
    ensures d.Valid() && OldInodesKept(old(d.fs), d.fs)
    ensures d.unclosed == old(d.unclosed) && (old(d.recoveryFault) ==> d.recoveryFault)
    ensures !d.recoveryFault ==> SameFile(was, d.fs, Config)
    ensures !d.recoveryFault ==> forall n :: n != Config ==> SameName(old(d.fs), d.fs, n)
    ensures old(d.broken) ==> d.broken
    ensures !cleared ==> d.fs == old(d.fs)
  {
    if cleared {
      ghost var k := RestoreGitConfig(d, c);
      if !d.recoveryFault {
        RestoredConfig(c, was, d.fs, d.owner);
        forall n: Name | n != Config ensures SameName(old(d.fs), d.fs, n) {
          assert n in old(d.fs).dir <==> n in d.fs.dir;
        }
      }
    }
  }

  lemma NoLitterRevoked(was: Fs, armed: Fs, stepped: Fs, mid: Fs, now: Fs, snapshot: Option<Name>, open: set<Name>)
    requires SameNames(was, armed, if snapshot.Some? then {snapshot.value} else {})
    requires snapshot.Some? ==> snapshot.value.Rollback? && snapshot.value !in was.dir && snapshot.value !in now.dir
    requires SameNames(armed, stepped, {Credential, Config, ConfigLock, ConfigLockLock})
    requires open == {} ==> SameName(armed, stepped, ConfigLock)
    requires open == {} || LeftOpen(armed, stepped, {}, open, ConfigLock)
    requires SameNames(stepped, mid, if snapshot.Some? then {Credential, snapshot.value} else {})
    requires forall n :: n != Config ==> SameName(mid, now, n)
    ensures SameNames(was, now, {Credential, Config, ConfigLockLock} + open)
    ensures forall n :: n in open ==> n !in was.dir && n in now.dir
  {
    forall n: Name | n !in {Credential, Config, ConfigLockLock} + open
      ensures (n in was.dir <==> n in now.dir) && (n in was.dir ==> was.dir[n] == now.dir[n])
    {
      if snapshot.Some? && n == snapshot.value {
        assert n !in was.dir && n !in now.dir;
      } else {
        assert SameName(was, armed, n);
        assert SameName(armed, stepped, n);
        assert SameName(stepped, mid, n);
        assert SameName(mid, now, n);
      }
    }
    forall n | n in open ensures n !in was.dir && n in now.dir {
      assert n == ConfigLock;
      assert SameName(was, armed, n) && SameName(stepped, mid, n) && SameName(mid, now, n);
    }
  }

  /** The try statement: the forward steps, undone when one of them fails. */
  method RevokeOrUndo(d: PinnedDir, snapshot: Option<Name>, c: Captured, ghost was: Fs) returns (ok: bool)
    requires d.Valid() && SnapshotHeld(d, snapshot) && CapturedFrom(c, was) && WellFormed(was) && OldInodesKept(was, d.fs)
    requires d.fs == was || (snapshot.Some? && Credential in was.dir && snapshot.value !in was.dir && d.fs == Linked(was, Credential, snapshot.value))
    requires snapshot.Some? ==> snapshot.value !in was.dir && Credential in was.dir && d.fs.dir[snapshot.value] == was.dir[Credential]
    requires d.unclosed == {} && d.undiscarded == {}
    modifies d
    ensures d.Valid() && OldInodesKept(old(d.fs), d.fs)
    ensures ok ==> Credential !in d.fs.dir && HelpersSet(was, d.fs, [])
    ensures ok ==> SameNames(was, d.fs, {Credential, Config, ConfigLockLock} + LinkName(snapshot))
    ensures ok ==> NoNewNames(was, d.fs, LinkName(snapshot))
    ensures d.undiscarded <= LinkName(snapshot) && (!ok ==> d.undiscarded == {})
    ensures ok && snapshot.Some? && snapshot.value in d.fs.dir ==> snapshot.value in d.undiscarded
    ensures !ok ==> d.watched == old(d.watched)
    ensures !ok && !d.recoveryFault ==> SameFile(was, d.fs, Config)
    ensures !ok && !d.recoveryFault ==> SameName(was, d.fs, Credential) || (snapshot.None? && Credential !in d.fs.dir)
    ensures !ok && !d.recoveryFault ==> SameNames(was, d.fs, {Credential, Config, ConfigLockLock} + d.unclosed)
    ensures !ok && !d.recoveryFault ==> forall n :: n in d.unclosed ==> n !in was.dir && n in d.fs.dir
    ensures d.unclosed <= {ConfigLock} && (ok ==> d.unclosed == {})
    ensures old(d.broken) ==> d.broken
    ensures !d.broken ==> (!HelperStuck(was) && Removable(was) ==> ok)
    ensures ok ==> d.broken == old(d.broken)
    ensures ok ==> ReadBack(d.looked, d.fs, snapshot) && ReadBack(d.listed, d.fs, snapshot)
  {
    hide NoNewNames, SameFile, Kept, CapturedFrom, ReadBack;
    ghost var armed := d.fs;
    assert Lookup(was, Config) == Lookup(armed, Config);
    NewLink(was, armed, snapshot);
    var cleared;
    ok, cleared := RevokeSteps(d, snapshot);
    if ok {
      assert HelpersSet(was, d.fs, []);
      LinkedNames(was, armed, d.fs, snapshot, {Credential, Config, ConfigLockLock});
      NoNewNamesTwice(was, armed, d.fs, LinkName(snapshot));
      return;
    }
    assert snapshot.Some? ==> (snapshot.value in armed.dir <==> snapshot.value in d.fs.dir);
    UndoRevoke(d, snapshot, c, cleared, was, armed);
  }

  /** Revoke the credential.
      Success: proven absent, with no helper left.  Failure with every recovery step
      done: as found when the old credential was absent or our own; otherwise the config
      is as found and the credential as found or gone.  config.lock stays exactly when its
      close failed. */
  method RevokeCredential(d: PinnedDir) returns (ok: bool, ghost entered: bool, ghost link: Option<Name>)
    requires d.Valid() && !d.recoveryFault && d.unclosed == {} && d.undiscarded == {} && d.watched == OwnedCredential(d.fs, d.owner)
    modifies d
    ensures d.Valid() && OldInodesKept(old(d.fs), d.fs)
    ensures ok ==> Credential !in d.fs.dir && HelpersSet(old(d.fs), d.fs, [])
    ensures ok ==> SameNames(old(d.fs), d.fs, {Credential, Config, ConfigLockLock} + LinkName(link))
    ensures d.undiscarded <= LinkName(link) && (!ok ==> d.undiscarded == {})
    ensures ok && link.Some? && link.value in d.fs.dir ==> link.value in d.undiscarded
    ensures ok && d.undiscarded == {} && old(d.watched).Some? ==> forall n :: n in d.fs.dir && d.fs.dir[n] == old(d.watched).value ==>
              n != Credential && n in old(d.fs).dir && old(d.fs).dir[n] == old(d.watched).value
    ensures link.Some? ==> old(d.watched).Some? && link.value.Rollback? && link.value !in old(d.fs).dir
    ensures entered ==> (link.Some? <==> old(d.watched).Some?)
    ensures !entered ==> !ok && d.fs == if link.Some? then Linked(old(d.fs), Credential, link.value) else old(d.fs)
    ensures entered ==> Lookup(old(d.fs), Config).None? || Lookup(old(d.fs), Config).value.kind.Regular?
    ensures !ok ==> d.watched == old(d.watched)
    ensures !ok && !d.recoveryFault ==> SameFile(old(d.fs), d.fs, Config)
    ensures !ok && !d.recoveryFault ==> SameName(old(d.fs), d.fs, Credential) || (old(d.watched).None? && Credential !in d.fs.dir)
    ensures !ok && entered && !d.recoveryFault ==> SameNames(old(d.fs), d.fs, {Credential, Config, ConfigLockLock} + d.unclosed)
    ensures !ok && entered && !d.recoveryFault ==> (SameNames(old(d.fs), d.fs, {Credential, Config, ConfigLockLock}) <==> d.unclosed == {})
    ensures d.unclosed <= {ConfigLock} && (ok || !entered ==> d.unclosed == {})
    ensures old(d.broken) ==> d.broken
    ensures !d.broken ==> (!HelperStuck(old(d.fs)) && Removable(old(d.fs)) ==> ok)
    ensures ok ==> d.broken == old(d.broken)
    ensures ok ==> ReadBack(d.looked, d.fs, link) && ReadBack(d.listed, d.fs, link)
    ensures !Removable(old(d.fs)) ==> !entered
  {
    hide Applied, AsFound, ReadBack, HelpersSet, HelperStuck, SameFile, CapturedFrom;
    ghost var was := d.fs;
    entered, link := false, None;
    var present, snapshot, c;
    ok, present, snapshot, c, link := Arm(d, true);
    NotEntered(was, d.fs, if link.Some? then link.value else Rollback(0), d.owner, "");
    if !ok { return; }
    entered := true;
    ok := RevokeOrUndo(d, snapshot, c, was);
    if ok && d.undiscarded == {} && old(d.watched).Some? { OldFileNames(was, d.fs, link, old(d.watched).value); }
    if !ok && !d.recoveryFault { OpenShows(was, d.fs, {Credential, Config, ConfigLockLock}, d.unclosed); }
  }

  // ---------------------------------------------------------------- the two together

  /** A revocation after an apply leaves no credential and no helper, and the rest of
      the config as it was before both. */
  lemma ApplyThenRevoke(was: Fs, mid: Fs, now: Fs, owner: nat, token: string, path: string)
    requires Applied(was, mid, owner, token, path)
    requires Credential !in now.dir && HelpersSet(mid, now, [])
    ensures Withdrawn(was, now)
  {
    HelpersCompose(was, mid, now, []);
  }

  /** Applying again replaces the token and nothing else of the config. */
  lemma RotationKeepsConfig(was: Fs, mid: Fs, now: Fs, owner: nat, t1: string, t2: string, path: string)
    requires Applied(was, mid, owner, t1, path) && Applied(mid, now, owner, t2, path)
    ensures Applied(was, now, owner, t2, path) && SameFile(mid, now, Config)
  {
    HelpersCompose(was, mid, now, ExpectedHelperValues(path));
  }

  /** An unpublished snapshot is a second name of the live file: renaming it back changes
      nothing and would leave the link, which is why it is unlinked as well. */
  lemma RenameBackIsNoOp(fs: Fs, snapshot: Name)
    requires Credential in fs.dir && snapshot.Rollback? && snapshot !in fs.dir
    ensures var linked := Linked(fs, Credential, snapshot);
      && Renamed(linked, snapshot, Credential) == linked && snapshot in linked.dir
      && Unlinked(Renamed(linked, snapshot, Credential), snapshot) == fs
  {
    assert (fs.dir[snapshot := fs.dir[Credential]] - {snapshot}) == fs.dir;
  }
}
