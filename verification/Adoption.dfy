/** Adopting a site on the config directory: every file that defines the domain is
    renamed to a backup, the generated config is written, and any failure before
    the final store write renames everything back. */
module Adoption {
  import opened Common

  function BackupSuffix(): (s: string)
    ensures |s| == 25 && s[24] == 'l'
  {
    ".disabled-by-openpropanel"
  }

  function TargetSuffix(): (s: string)
    ensures |s| == 21 && s[20] == 'k'
  {
    ".pre-openpropanel.bak"
  }

  function Backup(f: string): (b: string)
    ensures |b| == |f| + 25 && b[..|f|] == f && b[|b| - 1] == 'l'
  {
    f + BackupSuffix()
  }

  function TargetBackup(f: string): (b: string)
    ensures |b| > |f| && b[|b| - 1] == 'k'
  {
    f + TargetSuffix()
  }

  predicate IsConf(f: string) {
    |f| >= 5 && f[|f| - 5..] == ".conf"
  }

  lemma NotConf(p: string)
    requires p != "" && p[|p| - 1] != 'f'
    ensures !IsConf(p)
  {
    if |p| >= 5 { assert p[|p| - 5..][4] == p[|p| - 1]; }
  }

  lemma BackupNames(f: string, g: string)
    ensures !IsConf(Backup(f)) && !IsConf(TargetBackup(f)) && Backup(f) != TargetBackup(g)
    ensures Backup(f) == Backup(g) ==> f == g
  {
    NotConf(Backup(f));
    NotConf(TargetBackup(f));
    if Backup(f) == Backup(g) {
      assert |f| == |g|;
      assert f == Backup(f)[..|f|] == Backup(g)[..|g|] == g;
    }
  }

  function BackupsOf(gone: set<string>): set<string> {
    set f | f in gone :: Backup(f)
  }

  /** `files` is the directory `m` with the files in `gone` under their backup names. */
  ghost predicate Away(m: map<string, string>, files: map<string, string>, gone: set<string>) {
    && gone <= m.Keys && files.Keys == m.Keys - gone + BackupsOf(gone)
    && (forall f | f in gone :: Backup(f) in files && files[Backup(f)] == m[f])
    && (forall p | p in m && p !in gone :: p in files && files[p] == m[p])
  }

  /** Config files end in .conf and no backup name is taken. */
  ghost predicate Fresh(m: map<string, string>, names: set<string>, target: string) {
    && IsConf(target) && TargetBackup(target) !in m
    && (forall f | f in names :: IsConf(f) && Backup(f) !in m)
  }

  /** Backups and originals of different files are different names. */
  lemma OtherNames(m: map<string, string>, gone: set<string>, names: set<string>, target: string, f: string)
    requires Fresh(m, names, target) && gone <= names && f in names
    ensures Backup(f) != f && Backup(f) !in names && f !in BackupsOf(gone)
    ensures forall g | g in gone && g != f :: Backup(g) != Backup(f)
    ensures BackupsOf(gone + {f}) == BackupsOf(gone) + {Backup(f)}
    ensures f in gone ==> BackupsOf(gone - {f}) == BackupsOf(gone) - {Backup(f)}
  {
    forall g | g in gone ensures Backup(g) != f && (g != f ==> Backup(g) != Backup(f)) {
      BackupNames(g, f);
    }
    BackupNames(f, f);
  }

  lemma DisableOne(m: map<string, string>, files: map<string, string>, gone: set<string>, f: string, names: set<string>, target: string)
    requires Away(m, files, gone) && gone <= names && f in names && f in files && Fresh(m, names, target)
    ensures f in m && f !in gone && Away(m, files - {f} + map[Backup(f) := files[f]], gone + {f})
  {
    OtherNames(m, gone, names, target, f);
    var t := files - {f} + map[Backup(f) := files[f]];
    assert t.Keys == m.Keys - (gone + {f}) + BackupsOf(gone + {f});
  }

  lemma RestoredKeys(m: map<string, string>, files: map<string, string>, gone: set<string>, f: string, names: set<string>, target: string)
    requires Away(m, files, gone) && gone <= names && f in gone && Fresh(m, names, target)
    ensures Backup(f) in files
    ensures files.Keys - {Backup(f)} + {f} == m.Keys - (gone - {f}) + BackupsOf(gone - {f})
  {
    OtherNames(m, gone, names, target, f);
  }

  lemma RestoreOne(m: map<string, string>, files: map<string, string>, gone: set<string>, f: string, names: set<string>, target: string)
    requires Away(m, files, gone) && gone <= names && f in gone && Fresh(m, names, target)
    ensures Backup(f) in files && Away(m, files - {Backup(f)} + map[f := files[Backup(f)]], gone - {f})
  {
    RestoredKeys(m, files, gone, f, names, target);
    var t := files - {Backup(f)} + map[f := files[Backup(f)]];
    assert t.Keys == files.Keys - {Backup(f)} + {f};
    forall g | g in gone - {f} ensures Backup(g) in t && t[Backup(g)] == m[g] {
      BackupNames(g, f);
    }
    forall p | p in m && p !in gone - {f} ensures p in t && t[p] == m[p] {
      assert p != f ==> p in files && p != Backup(f);
    }
  }

  lemma NothingAway(m: map<string, string>, files: map<string, string>)
    requires Away(m, files, {})
    ensures files == m
  {
    assert files.Keys == m.Keys;
  }

  lemma NotAway(m: map<string, string>, files: map<string, string>, gone: set<string>, f: string)
    requires Away(m, files, gone) && f !in files
    ensures f in gone || f !in m
  {
  }

  lemma Dropped(s: seq<string>, k: nat)
    requires NoRepeats(s) && k < |s|
    ensures s[k] in NamesOf(s[k..]) && NamesOf(s[k + 1..]) == NamesOf(s[k..]) - {s[k]}
  {
    assert s[k..] == [s[k]] + s[k + 1..];
  }

  lemma DisableStep(m: map<string, string>, files: map<string, string>, disabled: seq<string>, f: string, names: set<string>, target: string)
    requires NoRepeats(disabled) && Away(m, files, NamesOf(disabled)) && NamesOf(disabled) <= names
    requires f in names && f in files && Fresh(m, names, target)
    ensures f in m && NoRepeats(disabled + [f]) && NamesOf(disabled + [f]) == NamesOf(disabled) + {f}
    ensures Away(m, Moved(files, f, Backup(f)), NamesOf(disabled + [f]))
  {
    DisableOne(m, files, NamesOf(disabled), f, names, target);
    OneMoreName(disabled, f);
  }

  lemma RestoreStep(m: map<string, string>, files: map<string, string>, left: set<string>, disabled: seq<string>, k: nat,
                    names: set<string>, target: string)
    requires NoRepeats(disabled) && k < |disabled| && NamesOf(disabled) <= names && Fresh(m, names, target)
    requires left <= NamesOf(disabled[k..]) && Away(m, files - left, NamesOf(disabled[k..]))
    ensures var f := disabled[k];
      && Backup(f) in files && left - {f} <= NamesOf(disabled[k + 1..])
      && Away(m, Moved(files, Backup(f), f) - (left - {f}), NamesOf(disabled[k + 1..]))
  {
    var f := disabled[k];
    Dropped(disabled, k);
    forall g | g in NamesOf(disabled[k..]) ensures g in names {
      assert g in disabled;
    }
    RestoreOne(m, files - left, NamesOf(disabled[k..]), f, names, target);
    assert Moved(files, Backup(f), f) - (left - {f}) == Moved(files - left, Backup(f), f);
  }

  lemma AllRestored(m: map<string, string>, files: map<string, string>, left: set<string>, disabled: seq<string>)
    requires left <= NamesOf(disabled[|disabled|..]) && Away(m, files - left, NamesOf(disabled[|disabled|..]))
    ensures files == m
  {
    assert NamesOf(disabled[|disabled|..]) == {} && files - {} == files;
    NothingAway(m, files);
  }

  // ----- The directory -----------------------------------------------------------

  function Moved(m: map<string, string>, src: string, dst: string): map<string, string>
    requires src in m
  {
    m - {src} + map[dst := m[src]]
  }

  /** What became of an adoption. A failed write may leave part of the config. */
  datatype Outcome =
    | Shared
    | BackupFailed
    | PoolFailed
    | WriteFailed(junk: Option<string>)
    | Rejected
    | Adopted

  /** The target's original content is not in any backup: it is the recorded config
      file itself, and not among the files that are backed up. */
  ghost predicate Unprotected(m: map<string, string>, names: set<string>, orig: string, target: string) {
    target == orig && target in m && target !in names
  }

  /** The directory after an adoption, for each outcome. */
  ghost predicate After(m: map<string, string>, files: map<string, string>, names: set<string>, orig: string,
                        target: string, content: string, o: Outcome) {
    match o
    case Adopted =>
      var gone := names * m.Keys;
      var replaced := target in m && target !in names && target != orig;
      && Away(if target in gone then m else m - {target}, files - {target, TargetBackup(target)}, gone)
      && target in files && files[target] == content
      && (if replaced then TargetBackup(target) in files && files[TargetBackup(target)] == m[target]
          else TargetBackup(target) !in files)
    case Rejected => files == if Unprotected(m, names, orig, target) then m - {target} else m
    case WriteFailed(junk) =>
      files == if junk.Some? && (target !in m || Unprotected(m, names, orig, target)) then m[target := junk.value] else m
    case _ => files == m
  }

  class ConfigDir {
    var files: map<string, string>

    method Rename(src: string, dst: string) returns (ok: bool)
      modifies this
      ensures ok ==> src in old(files) && files == Moved(old(files), src, dst)
      ensures !ok ==> files == old(files)
    {
      var refused: bool := *;
      if refused || src !in files {
        return false;
      }
      files := Moved(files, src, dst);
      return true;
    }

    /** A rename of the rollback, taken to succeed. */
    method RenameBack(src: string, dst: string)
      requires src in files
      modifies this
      ensures files == Moved(old(files), src, dst)
    {
      files := Moved(files, src, dst);
    }

    /** Writing is not atomic: a failure may leave some content at the target. */
    method Write(target: string, content: string) returns (ok: bool, junk: Option<string>)
      modifies this
      ensures ok ==> files == old(files)[target := content] && junk == None
      ensures !ok ==> files == if junk.Some? then old(files)[target := junk.value] else old(files)
    {
      var failed: bool, partial: string := *, *;
      if !failed {
        files := files[target := content];
        return true, None;
      }
      var left: bool := *;
      if left {
        files := files[target := partial];
        return false, Some(partial);
      }
      return false, None;
    }

    /** Renames every existing original to its backup, stopping at a refusal. */
    method DisableAll(origFiles: seq<string>, ghost target: string) returns (ok: bool, disabled: seq<string>)
      requires Fresh(files, NamesOf(origFiles), target)
      modifies this
      ensures NoRepeats(disabled) && NamesOf(disabled) <= NamesOf(origFiles) && Away(old(files), files, NamesOf(disabled))
      ensures ok ==> NamesOf(disabled) == NamesOf(origFiles) * old(files).Keys
    {
      disabled := [];
      for k := 0 to |origFiles|
        invariant NoRepeats(disabled) && Away(old(files), files, NamesOf(disabled))
        invariant NamesOf(disabled) == NamesOf(origFiles[..k]) * old(files).Keys
      {
        var f := origFiles[k];
        TakenNames(origFiles, k);
        if f in files {
          DisableStep(old(files), files, disabled, f, NamesOf(origFiles), target);
          ok := Rename(f, Backup(f));
          if !ok {
            return;
          }
          disabled := disabled + [f];
        } else {
          NotAway(old(files), files, NamesOf(disabled), f);
        }
      }
      assert origFiles[..|origFiles|] == origFiles;
      ok := true;
    }

    /** Renames every backup back. `junk` may sit on names about to be restored. */
    method RestoreAll(disabled: seq<string>, ghost m: map<string, string>, ghost names: set<string>, ghost target: string, ghost junk: set<string>)
      requires NoRepeats(disabled) && NamesOf(disabled) <= names && junk <= NamesOf(disabled)
      requires Fresh(m, names, target) && Away(m, files - junk, NamesOf(disabled))
      modifies this
      ensures files == m
    {
      ghost var left := junk;
      for k := 0 to |disabled|
        invariant left <= NamesOf(disabled[k..]) && Away(m, files - left, NamesOf(disabled[k..]))
      {
        RestoreStep(m, files, left, disabled, k, names, target);
        RenameBack(Backup(disabled[k]), disabled[k]);
        left := left - {disabled[k]};
      }
      AllRestored(m, files, left, disabled);
    }

    /** The rollback: the written config goes, the replaced file comes back, and so
        does every original. `base` is the directory this leads to. */
    method Restore(wrote: bool, replaced: bool, disabled: seq<string>, target: string,
                   ghost base: map<string, string>, ghost names: set<string>, ghost junk: set<string>)
      requires replaced ==> TargetBackup(target) in files && TargetBackup(target) != target
      requires NoRepeats(disabled) && NamesOf(disabled) <= names && junk <= NamesOf(disabled) && Fresh(base, names, target)
      requires Away(base, TargetRestored(files, wrote, replaced, target) - junk, NamesOf(disabled))
      modifies this
      ensures files == base
    {
      if wrote {
        files := files - {target};
      }
      if replaced {
        RenameBack(TargetBackup(target), target);
      }
      RestoreAll(disabled, base, names, target, junk);
    }
  }

  function TargetRestored(files: map<string, string>, wrote: bool, replaced: bool, target: string): map<string, string>
    requires replaced ==> TargetBackup(target) in files && TargetBackup(target) != target
  {
    var kept := if wrote then files - {target} else files;
    if replaced then Moved(kept, TargetBackup(target), target) else kept
  }

  lemma DropTarget(m: map<string, string>, files: map<string, string>, gone: set<string>, target: string)
    requires Away(m, files, gone) && target !in gone && IsConf(target)
    ensures Away(m - {target}, files - {target}, gone)
  {
    forall f | f in gone ensures Backup(f) != target {
      BackupNames(f, f);
    }
  }

  lemma PutTarget(m: map<string, string>, files: map<string, string>, gone: set<string>, target: string, v: string)
    requires Away(m, files, gone) && target !in gone && IsConf(target)
    ensures Away(m[target := v], files[target := v], gone)
  {
    forall f | f in gone ensures Backup(f) != target {
      BackupNames(f, f);
    }
  }

  /** Where the target and its backup name stand once the originals are away. */
  lemma TargetState(m: map<string, string>, files: map<string, string>, gone: set<string>, target: string)
    requires Away(m, files, gone) && IsConf(target) && TargetBackup(target) !in m
    ensures target in files <==> target in m && target !in gone
    ensures target in files ==> files[target] == m[target]
    ensures TargetBackup(target) !in files && TargetBackup(target) != target
  {
    BackupNames(target, target);
    forall f | f in gone ensures Backup(f) != target && Backup(f) != TargetBackup(target) {
      BackupNames(f, target);
    }
  }

  /** The files to back up: those that define the domain, or the recorded one. */
  function OrigFiles(orig: string, definers: seq<string>): seq<string> {
    if orig == "" then [] else if definers == [] then [orig] else definers
  }

  /** The target goes to its own backup when it is in the way. */
  method SetTargetAside(dir: ConfigDir, disabled: seq<string>, orig: string, target: string,
                        ghost m: map<string, string>, ghost names: set<string>)
    returns (ok: bool, replaced: bool)
    requires Fresh(m, names, target) && NoRepeats(disabled) && NamesOf(disabled) <= names && Away(m, dir.files, NamesOf(disabled))
    modifies dir
    ensures if ok then
              && (replaced <==> target != orig && target in old(dir.files))
              && dir.files == if replaced then Moved(old(dir.files), target, TargetBackup(target)) else old(dir.files)
            else dir.files == m
  {
    if target != orig && target in dir.files {
      replaced := dir.Rename(target, TargetBackup(target));
      if !replaced {
        assert dir.files - {} == dir.files;
        dir.Restore(false, false, disabled, target, m, names, {});
        return false, false;
      }
      return true, true;
    }
    return true, false;
  }

  /** Every original and the target go to their backups, or everything stays. */
  method BackUp(dir: ConfigDir, origFiles: seq<string>, orig: string, target: string)
    returns (ok: bool, disabled: seq<string>, replaced: bool, ghost away: map<string, string>)
    requires Fresh(dir.files, NamesOf(origFiles), target)
    modifies dir
    ensures if ok then
              && NoRepeats(disabled) && NamesOf(disabled) == NamesOf(origFiles) * old(dir.files).Keys
              && Away(old(dir.files), away, NamesOf(disabled))
              && (replaced <==> target != orig && target in away)
              && dir.files == if replaced then Moved(away, target, TargetBackup(target)) else away
            else dir.files == old(dir.files)
  {
    ghost var m, names := dir.files, NamesOf(origFiles);
    replaced := false;
    ok, disabled := dir.DisableAll(origFiles, target);
    away := dir.files;
    if !ok {
      assert away - {} == away;
      dir.Restore(false, false, disabled, target, m, names, {});
      return;
    }
    ok, replaced := SetTargetAside(dir, disabled, orig, target, m, names);
  }

  /** The failure leaves nothing behind: a rejected config had its target protected by a backup, and a torn
      write left no fragment where there was no backup to put over it. */
  ghost predicate LeavesNothing(m: map<string, string>, names: set<string>, orig: string, target: string, o: Outcome) {
    match o
    case Rejected => !Unprotected(m, names, orig, target)
    case WriteFailed(junk) =>
      junk.None? || (target in m && (Unprotected(m, names, orig, target) ==> junk.value == m[target]))
    case _ => true
  }

  lemma AllOrNothing(m: map<string, string>, files: map<string, string>, names: set<string>, orig: string,
                     target: string, content: string, o: Outcome)
    requires After(m, files, names, orig, target, content, o) && !o.Adopted?
    ensures files == m <==> LeavesNothing(m, names, orig, target, o)
  {
  }

  /** The file is under its backup name, and its own name is gone unless the new config has it. */
  ghost predicate BackedUp(m: map<string, string>, files: map<string, string>, target: string, f: string) {
    f in m && Backup(f) in files && files[Backup(f)] == m[f] && (f != target ==> f !in files)
  }

  /** Adopts a site. `definers` are the config files that define the domain and
      `shared` those that define other sites too. A failure restores every path exactly
      when it leaves nothing behind. */
  method AdoptSite(dir: ConfigDir, orig: string, definers: seq<string>, shared: set<string>, target: string, content: string)
    returns (o: Outcome)
    requires Fresh(dir.files, NamesOf(OrigFiles(orig, definers)), target)
    modifies dir
    ensures After(old(dir.files), dir.files, NamesOf(OrigFiles(orig, definers)), orig, target, content, o)
    ensures !o.Adopted? ==>
              (dir.files == old(dir.files) <==> LeavesNothing(old(dir.files), NamesOf(OrigFiles(orig, definers)), orig, target, o))
    ensures o.Adopted? ==> target in dir.files && dir.files[target] == content
    ensures o.Adopted? && orig != "" ==>
              forall f | f in old(dir.files) && (if definers == [] then f == orig else f in definers) ::
                BackedUp(old(dir.files), dir.files, target, f)
    ensures o.Adopted? ==>
              forall p | p in old(dir.files) && p != target
                         && (orig == "" || if definers == [] then p != orig else p !in definers) ::
                p in dir.files && dir.files[p] == old(dir.files)[p]
    ensures o.Adopted? && target in old(dir.files) && target != orig && (orig == "" || target !in definers) ==>
              TargetBackup(target) in dir.files && dir.files[TargetBackup(target)] == old(dir.files)[target]
    ensures o.Shared? <==> orig != "" && exists f :: f in shared && if definers == [] then f == orig else f in definers
  {
    var origFiles := OrigFiles(orig, definers);
    if exists f :: f in origFiles && f in shared {
      return Shared;
    }
    assert orig != "" ==> !exists f :: f in shared && if definers == [] then f == orig else f in definers;
    ghost var m, names := dir.files, NamesOf(origFiles);
    var ok, disabled, replaced, away := BackUp(dir, origFiles, orig, target);
    if !ok {
      return BackupFailed;
    }
    var poolOk: bool := *;
    if !poolOk {
      PoolUndone(m, away, dir.files, replaced, NamesOf(disabled), target);
      dir.Restore(false, replaced, disabled, target, m, names, {});
      return PoolFailed;
    }
    o := WriteAndReload(dir, replaced, disabled, orig, target, content, m, away, names);
    if o.Adopted? {
      AdoptedKeepsOriginals(m, dir.files, names, orig, target, content);
    } else {
      AllOrNothing(m, dir.files, names, orig, target, content, o);
    }
  }

  lemma PoolUndone(m: map<string, string>, away: map<string, string>, files: map<string, string>, replaced: bool, gone: set<string>, target: string)
    requires Away(m, away, gone) && IsConf(target) && TargetBackup(target) !in m && (replaced ==> target in away)
    requires files == if replaced then Moved(away, target, TargetBackup(target)) else away
    ensures TargetBackup(target) != target && (replaced ==> TargetBackup(target) in files)
    ensures TargetRestored(files, false, replaced, target) - {} == away
  {
    TargetState(m, away, gone, target);
  }

  /** Undoing a write, whole or torn, by removing it or by moving the old file over it. */
  lemma Undone(away: map<string, string>, files: map<string, string>, replaced: bool, target: string, content: string)
    requires TargetBackup(target) !in away && TargetBackup(target) != target && (replaced ==> target in away)
    requires files == (if replaced then Moved(away, target, TargetBackup(target)) else away)[target := content]
    ensures TargetRestored(files, true, replaced, target) == if replaced then away else away - {target}
    ensures TargetRestored(files, false, replaced, target) == if replaced then away else away[target := content]
    ensures files - {target, TargetBackup(target)} == away - {target}
  {
  }

  /** What the rollback of a torn write leads to, and what it leaves to overwrite. */
  lemma TornWrite(m: map<string, string>, away: map<string, string>, files: map<string, string>, replaced: bool, gone: set<string>,
                  target: string, junk: string, names: set<string>)
    returns (base: map<string, string>, over: set<string>)
    requires Fresh(m, names, target) && Away(m, away, gone) && gone == names * m.Keys && (replaced ==> target in away)
    requires files == (if replaced then Moved(away, target, TargetBackup(target)) else away)[target := junk]
    ensures base == if replaced || target in gone then m else m[target := junk]
    ensures over <= gone && Fresh(base, names, target) && TargetBackup(target) != target
    ensures replaced ==> TargetBackup(target) in files
    ensures Away(base, TargetRestored(files, false, replaced, target) - over, gone)
  {
    TargetState(m, away, gone, target);
    Undone(away, files, replaced, target, junk);
    base, over := m, {};
    if !replaced && target in gone {
      over := {target};
      assert away[target := junk] - {target} == away;
    } else if !replaced {
      base := m[target := junk];
      PutTarget(m, away, gone, target, junk);
      forall f | f in names ensures Backup(f) != target {
        BackupNames(f, f);
      }
      assert away[target := junk] - {} == away[target := junk];
    } else {
      assert away - {} == away;
    }
  }

  /** What the rollback of a whole write leads to. */
  lemma WholeWrite(m: map<string, string>, away: map<string, string>, files: map<string, string>, replaced: bool, gone: set<string>,
                   orig: string, target: string, content: string, names: set<string>)
    returns (base: map<string, string>)
    requires Fresh(m, names, target) && Away(m, away, gone) && gone == names * m.Keys
    requires replaced <==> target != orig && target in away
    requires files == (if replaced then Moved(away, target, TargetBackup(target)) else away)[target := content]
    ensures base == if Unprotected(m, names, orig, target) then m - {target} else m
    ensures Fresh(base, names, target) && TargetBackup(target) != target && (replaced ==> TargetBackup(target) in files)
    ensures Away(base, TargetRestored(files, true, replaced, target) - {}, gone)
  {
    TargetState(m, away, gone, target);
    Undone(away, files, replaced, target, content);
    base := if Unprotected(m, names, orig, target) then m - {target} else m;
    if Unprotected(m, names, orig, target) {
      DropTarget(m, away, gone, target);
    } else {
      assert !replaced ==> away - {target} == away;
    }
    assert TargetRestored(files, true, replaced, target) - {} == TargetRestored(files, true, replaced, target);
  }

  lemma AdoptedState(m: map<string, string>, away: map<string, string>, files: map<string, string>, replaced: bool, gone: set<string>,
                     orig: string, target: string, content: string, names: set<string>)
    requires Fresh(m, names, target) && Away(m, away, gone) && gone == names * m.Keys
    requires replaced <==> target != orig && target in away
    requires files == (if replaced then Moved(away, target, TargetBackup(target)) else away)[target := content]
    ensures After(m, files, names, orig, target, content, Adopted)
  {
    TargetState(m, away, gone, target);
    Undone(away, files, replaced, target, content);
    if target !in gone {
      DropTarget(m, away, gone, target);
    } else {
      assert away - {target} == away;
    }
  }

  /** Everything that existed is at its backup, and the files are as `away` but for the target. */
  ghost predicate SetAside(m: map<string, string>, away: map<string, string>, replaced: bool, disabled: seq<string>,
                           orig: string, target: string, names: set<string>) {
    && Fresh(m, names, target) && NoRepeats(disabled) && NamesOf(disabled) == names * m.Keys
    && Away(m, away, NamesOf(disabled)) && (replaced <==> target != orig && target in away)
  }

  function Aside(away: map<string, string>, replaced: bool, target: string): map<string, string>
    requires replaced ==> target in away
  {
    if replaced then Moved(away, target, TargetBackup(target)) else away
  }

  /** The rollback of a failed write, which may have left a part of the config. */
  method UndoTornWrite(dir: ConfigDir, replaced: bool, disabled: seq<string>, orig: string, target: string, content: string,
                       junk: Option<string>, ghost m: map<string, string>, ghost away: map<string, string>, ghost names: set<string>)
    requires SetAside(m, away, replaced, disabled, orig, target, names)
    requires dir.files == if junk.Some? then Aside(away, replaced, target)[target := junk.value] else Aside(away, replaced, target)
    modifies dir
    ensures After(m, dir.files, names, orig, target, content, WriteFailed(junk))
  {
    ghost var gone := NamesOf(disabled);
    TargetState(m, away, gone, target);
    ghost var base: map<string, string>, over: set<string> := m, {};
    if junk.Some? {
      base, over := TornWrite(m, away, dir.files, replaced, gone, target, junk.value, names);
    } else {
      assert TargetRestored(dir.files, false, replaced, target) - {} == away;
    }
    dir.Restore(false, replaced, disabled, target, base, names, over);
  }

  /** The second half: write the config, validate it and reload. */
  method WriteAndReload(dir: ConfigDir, replaced: bool, disabled: seq<string>, orig: string, target: string, content: string,
                        ghost m: map<string, string>, ghost away: map<string, string>, ghost names: set<string>)
    returns (o: Outcome)
    requires SetAside(m, away, replaced, disabled, orig, target, names)
    requires dir.files == Aside(away, replaced, target)
    modifies dir
    ensures After(m, dir.files, names, orig, target, content, o)
    ensures o.WriteFailed? || o.Rejected? || o.Adopted?
  {
    ghost var gone := NamesOf(disabled);
    var wrote, junk := dir.Write(target, content);
    if !wrote {
      UndoTornWrite(dir, replaced, disabled, orig, target, content, junk, m, away, names);
      return WriteFailed(junk);
    }
    var valid: bool, reloaded: bool := *, *;
    if !valid || !reloaded {
      ghost var base := WholeWrite(m, away, dir.files, replaced, gone, orig, target, content, names);
      dir.Restore(true, replaced, disabled, target, base, names, {});
      return Rejected;
    }
    AdoptedState(m, away, dir.files, replaced, gone, orig, target, content, names);
    return Adopted;
  }

  lemma OriginalGone(m: map<string, string>, names: set<string>, target: string, rest: map<string, string>,
                     base: map<string, string>, gone: set<string>, f: string)
    requires Fresh(m, names, target) && gone == names * m.Keys && f in gone && f != target
    requires Away(base, rest, gone)
    ensures f !in rest && f != TargetBackup(target)
  {
    OtherNames(m, gone, names, target, f);
    NotConf(TargetBackup(target));
  }

  /** An adopted site: the target holds the generated config, every file that
      defined the domain survives under its backup name, nothing else changed. */
  lemma AdoptedKeepsOriginals(m: map<string, string>, files: map<string, string>, names: set<string>, orig: string,
                              target: string, content: string)
    requires Fresh(m, names, target) && After(m, files, names, orig, target, content, Adopted)
    ensures target in files && files[target] == content
    ensures forall f | f in names && f in m :: BackedUp(m, files, target, f)
    ensures forall p | p in m && p !in names && p != target :: p in files && files[p] == m[p]
    ensures target in m && target !in names && target != orig ==>
              TargetBackup(target) in files && files[TargetBackup(target)] == m[target]
  {
    var gone, rest := names * m.Keys, files - {target, TargetBackup(target)};
    var base := if target in gone then m else m - {target};
    forall f | f in gone ensures BackedUp(m, files, target, f) {
      assert Backup(f) in rest && rest[Backup(f)] == base[f];
      if f != target { OriginalGone(m, names, target, rest, base, gone, f); }
    }
    forall p | p in m && p !in names && p != target ensures p in files && files[p] == m[p] {
      assert p in rest && rest[p] == base[p];
    }
  }

  /** The recorded file a.conf no longer defines the domain, b.conf does; both are
      in the directory. A rejected config removes a.conf for good. */
  lemma RecordedFileLost()
    ensures var m: map<string, string> := map["a.conf" := "x", "b.conf" := "y"];
      Fresh(m, {"b.conf"}, "a.conf") && Unprotected(m, {"b.conf"}, "a.conf", "a.conf")
      && forall files, content :: After(m, files, {"b.conf"}, "a.conf", "a.conf", content, Rejected) ==> "a.conf" !in files
  {
    assert "a.conf"[0] == 'a' && "b.conf"[0] == 'b';
    assert "a.conf"[1..] == ".conf" && "b.conf"[1..] == ".conf";
    assert |Backup("b.conf")| == 31 && |TargetBackup("a.conf")| == 27;
  }
}
