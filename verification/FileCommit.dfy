/**
 * internal/specsync/transaction.go: several files replaced together, all or
 * none of them.
 */
module FileCommit {
  import opened Common

  /** Contents and permission bits. */
  datatype File = File(data: string, mode: nat)

  type Files = map<string, File>

  const PRIVATE_MODE := 0x180

  function At(files: Files, path: string): Option<File> {
    if path in files then Some(files[path]) else None
  }

  datatype Update = Update(path: string, data: string, mode: nat)

  datatype Staged = Staged(path: string, data: string, mode: nat, temporary: string, original: Option<File>)

  /** The files with the first of the staged updates made. */
  function Overlay(files: Files, staged: seq<Staged>): Files {
    if staged == [] then files
    else
      var last := staged[|staged| - 1];
      Overlay(files, staged[..|staged| - 1])[last.path := File(last.data, last.mode)]
  }

  /** Each of the staged updates is for another path. */
  predicate Distinct(staged: seq<Staged>) {
    forall i, j :: 0 <= i < j < |staged| ==> staged[i].path != staged[j].path
  }

  predicate IsTarget(staged: seq<Staged>, path: string) {
    exists i :: 0 <= i < |staged| && staged[i].path == path
  }

  lemma {:induction false} OverlayAt(files: Files, staged: seq<Staged>, path: string)
    requires Distinct(staged)
    ensures !IsTarget(staged, path) ==> At(Overlay(files, staged), path) == At(files, path)
    ensures forall i :: 0 <= i < |staged| && staged[i].path == path ==>
              At(Overlay(files, staged), path) == Some(File(staged[i].data, staged[i].mode))
    decreases |staged|
  {
    if staged != [] {
      OverlayAt(files, staged[..|staged| - 1], path);
    }
  }

  predicate IsTemporary(staged: seq<Staged>, path: string) {
    exists i :: 0 <= i < |staged| && staged[i].temporary == path
  }

  lemma TemporariesMore(staged: seq<Staged>, item: Staged)
    ensures IsTemporary(staged + [item], item.temporary)
    ensures forall path :: IsTemporary(staged, path) ==> IsTemporary(staged + [item], path)
  {
    assert (staged + [item])[|staged|] == item;
    forall path | IsTemporary(staged, path)
      ensures IsTemporary(staged + [item], path)
    {
      var i :| 0 <= i < |staged| && staged[i].temporary == path;
      assert (staged + [item])[i].temporary == path;
    }
  }

  /** The two agree on every path that is no temporary. */
  ghost predicate Agree(a: Files, b: Files, temps: set<string>) {
    forall path :: path !in temps ==> At(a, path) == At(b, path)
  }

  /** The two agree on every path that is neither a temporary nor a target. */
  ghost predicate AgreeElsewhere(a: Files, b: Files, temps: set<string>, staged: seq<Staged>) {
    forall path :: path !in temps && !IsTarget(staged, path) ==> At(a, path) == At(b, path)
  }

  /** What staging leaves for the commit: where the old contents are known and the new ones wait. */
  ghost predicate Ready(before: Files, files: Files, staged: seq<Staged>, temps: set<string>, k: nat) {
    && Distinct(staged)
    && (forall i :: 0 <= i < |staged| ==> staged[i].temporary in temps && staged[i].path !in temps)
    && (forall i :: 0 <= i < |staged| ==> staged[i].original == At(before, staged[i].path))
    && (forall i, j :: 0 <= i < j < |staged| ==> staged[i].temporary != staged[j].temporary)
    && (forall i :: k <= i < |staged| ==> At(files, staged[i].temporary) == Some(File(staged[i].data, staged[i].mode)))
  }

  lemma OverlayElsewhere(before: Files, files: Files, temps: set<string>, staged: seq<Staged>, k: nat)
    requires k <= |staged| && Distinct(staged) && Agree(files, Overlay(before, staged[..k]), temps)
    ensures AgreeElsewhere(files, before, temps, staged)
  {
    hide Overlay;
    forall path | path !in temps && !IsTarget(staged, path)
      ensures At(files, path) == At(before, path)
    {
      assert IsTarget(staged[..k], path) ==> IsTarget(staged, path);
      OverlayAt(before, staged[..k], path);
    }
  }

  /** One update more, and one update less. */
  lemma OverlayStep(before: Files, staged: seq<Staged>, k: nat, path: string)
    requires k < |staged| && Distinct(staged)
    ensures
      var update := staged[k];
      && At(Overlay(before, staged[..k + 1]), path) ==
         (if path == update.path then Some(File(update.data, update.mode)) else At(Overlay(before, staged[..k]), path))
      && At(Overlay(before, staged[..k]), update.path) == At(before, update.path)
  {
    assert staged[..k + 1][..k] == staged[..k];
    OverlayAt(before, staged[..k], staged[k].path);
  }

  lemma Undone(before: Files, files: Files, after: Files, staged: seq<Staged>, k: nat, temps: set<string>)
    requires k < |staged| && Distinct(staged) && staged[k].original == At(before, staged[k].path)
    requires Agree(files, Overlay(before, staged[..k + 1]), temps)
    requires forall path :: path !in temps ==>
               At(after, path) == if path == staged[k].path then staged[k].original else At(files, path)
    ensures Agree(after, Overlay(before, staged[..k]), temps)
  {
    hide Overlay, At;
    forall path | path !in temps
      ensures At(after, path) == At(Overlay(before, staged[..k]), path)
    {
      OverlayStep(before, staged, k, path);
    }
  }

  lemma Done(before: Files, files: Files, after: Files, staged: seq<Staged>, k: nat, temps: set<string>)
    requires k < |staged| && Distinct(staged) && Agree(files, Overlay(before, staged[..k]), temps)
    requires forall path :: path !in temps ==>
               At(after, path) ==
               if path == staged[k].path then Some(File(staged[k].data, staged[k].mode)) else At(files, path)
    ensures Agree(after, Overlay(before, staged[..k + 1]), temps)
  {
    hide Overlay, At;
    forall path | path !in temps
      ensures At(after, path) == At(Overlay(before, staged[..k + 1]), path)
    {
      OverlayStep(before, staged, k, path);
    }
  }

  lemma ReadyMore(before: Files, files: Files, after: Files, staged: seq<Staged>, temps: set<string>, item: Staged)
    requires Ready(before, files, staged, temps, 0)
    requires item.temporary !in temps && item.original == At(before, item.path) && item.path !in temps
    requires item.path != item.temporary
    requires forall i :: 0 <= i < |staged| ==> staged[i].path != item.path && staged[i].path != item.temporary
    requires after == files[item.temporary := File(item.data, item.mode)]
    ensures Ready(before, after, staged + [item], temps + {item.temporary}, 0)
  {
  }

  datatype Result = Committed | NotStaged | RolledBack | RollbackFailed

  class FileSystem {
    var files: Files
    /** No system call fails. */
    const healthy: bool
    /** How many system calls have failed, and the files that could not be removed. */
    ghost var faults: nat
    ghost var stuck: set<string>

    constructor (files: Files, healthy: bool)
      ensures this.files == files && this.healthy == healthy && faults == 0 && stuck == {}
    {
      this.files, this.healthy, faults, stuck := files, healthy, 0, {};
    }

    /** Whether the next system call succeeds. */
    method SystemCall() returns (ok: bool)
      modifies this`faults
      ensures healthy ==> ok
      ensures faults == old(faults) + if ok then 0 else 1
    {
      ok := *;
      if healthy { ok := true; }
      if !ok { faults := faults + 1; }
    }

    /** The temporary is gone, unless removing it failed. */
    ghost predicate Cleared(temporary: string)
      reads this
    {
      temporary in files ==> temporary in stuck
    }

    /** os.Rename: takes the file from one path to the other, or fails and changes nothing. */
    method Rename(from: string, path: string) returns (ok: bool)
      requires from in files && from != path
      modifies this`files, this`faults
      ensures files == if ok then old(files)[path := old(files)[from]] - {from} else old(files)
      ensures healthy ==> ok
      ensures faults == old(faults) + if ok then 0 else 1
    {
      ok := SystemCall();
      if ok { files := files[path := files[from]] - {from}; }
    }

    /** os.Remove; a file that is not there counts as removed where the caller says so. */
    method Remove(path: string) returns (ok: bool)
      modifies this
      ensures files == if ok then old(files) - {path} else old(files)
      ensures healthy ==> ok
      ensures faults == old(faults) + if ok then 0 else 1
      ensures stuck == old(stuck) + if ok then {} else {path}
    {
      ok := SystemCall();
      if ok { files := files - {path}; } else { stuck := stuck + {path}; }
    }

    /** writeSiblingTemp: a new file of a name that is nobody's; on failure nothing is left unless removing it fails. */
    method WriteSiblingTemp(data: string, mode: nat, avoid: set<string>) returns (ok: bool, temporary: string)
      modifies this
      ensures temporary !in old(files) && temporary !in avoid
      ensures ok ==> files == old(files)[temporary := File(data, mode)]
      ensures !ok ==> Agree(files, old(files), {temporary}) && Cleared(temporary)
      ensures healthy ==> ok
      ensures old(stuck) <= stuck && if ok then faults == old(faults) && stuck == old(stuck) else faults > old(faults)
      ensures forall path :: path != temporary && old(Cleared(path)) ==> Cleared(path)
    {
      temporary := FreshName(files.Keys + avoid);
      ok := SystemCall();
      if !ok { return; }
      files := files[temporary := File("", PRIVATE_MODE)];
      ok := SystemCall();
      if !ok {
        var _ := Remove(temporary);
        return;
      }
      files := files[temporary := File(data, mode)];
    }

    /** os.Remove of every temporary, whatever it says. */
    method CleanupStagedUpdates(staged: seq<Staged>, ghost temps: set<string>)
      requires forall i :: 0 <= i < |staged| ==> staged[i].temporary in temps
      modifies this
      ensures Agree(files, old(files), temps)
      ensures forall path :: IsTemporary(staged, path) ==> Cleared(path)
      ensures forall path :: old(Cleared(path)) ==> Cleared(path)
      ensures old(faults) <= faults && old(stuck) <= stuck
    {
      for i := 0 to |staged|
        invariant Agree(files, old(files), temps) && files.Keys <= old(files).Keys
        invariant old(faults) <= faults && old(stuck) <= stuck
        invariant forall k :: 0 <= k < i ==> Cleared(staged[k].temporary)
      {
        var _ := Remove(staged[i].temporary);
      }
    }

    /** The part of stageFileUpdates that reads one old file and writes one new one. */
    method StageOne(path: string, update: Update, avoid: set<string>) returns (ok: bool, item: Staged)
      requires path in avoid
      modifies this
      ensures item.temporary !in old(files) && item.temporary !in avoid
      ensures Agree(files, old(files), {item.temporary})
      ensures ok ==>
                && item == Staged(path, update.data, update.mode, item.temporary, At(old(files), path))
                && files == old(files)[item.temporary := File(update.data, update.mode)]
      ensures !ok ==> Cleared(item.temporary)
      ensures healthy ==> ok
      ensures old(stuck) <= stuck && if ok then faults == old(faults) && stuck == old(stuck) else faults > old(faults)
    {
      var readable := SystemCall();
      var original := At(files, path);
      var written, temporary := false, "";
      if readable {
        written, temporary := WriteSiblingTemp(update.data, update.mode, avoid);
      } else {
        temporary := FreshName(files.Keys + avoid);
      }
      ok, item := written, Staged(path, update.data, update.mode, temporary, original);
    }

    /** os.SameFile with one of the outputs seen before. */
    method SeenAs(path: string, seenFiles: seq<string>, same: (string, string) -> bool) returns (seen: bool)
      ensures seen <==> exists k :: 0 <= k < |seenFiles| && same(seenFiles[k], path)
    {
      seen := false;
      for i := 0 to |seenFiles|
        invariant seen <==> exists k :: 0 <= k < i && same(seenFiles[k], path)
      {
        if same(seenFiles[i], path) { seen := true; }
      }
    }

    /** stageFileUpdates; `canonical` and `same` stand for the path resolution and os.SameFile. */
    method StageFileUpdates(updates: seq<Update>, canonical: string -> Option<string>, same: (string, string) -> bool,
                            avoid: set<string>)
      returns (ok: bool, staged: seq<Staged>, ghost temps: set<string>)
      requires avoid == Targets(updates, canonical)
      modifies this
      ensures Agree(files, old(files), temps)
      ensures forall path :: path in temps ==> path !in old(files) && path !in avoid
      ensures ok ==> Ready(old(files), files, staged, temps, 0) && Stages(staged, updates, canonical)
      ensures healthy && DistinctTargets(updates, canonical) && Apart(updates, canonical, same) ==> ok
      // Refused means a fault or the same file twice, and then no temporary is left that could be removed.
      ensures !ok && DistinctTargets(updates, canonical) && Apart(updates, canonical, same) ==> faults > old(faults)
      ensures old(faults) <= faults && old(stuck) <= stuck
      ensures !ok ==> forall path :: path in temps ==> Cleared(path)
      ensures ok ==> NoneTwice(old(files), staged, same)
      ensures ok ==>
        && faults == old(faults) && stuck == old(stuck)
        && forall path :: path in temps ==> IsTemporary(staged, path)
    {
      hide Ready, Stages, IsTemporary, Cleared, NoneTwice, Noted, Agree, At;
      staged, temps := [], {};
      NothingStaged(files, canonical);
      AgreeSelf(files);
      assert updates[..0] == [];
      var seenPaths: set<string>, seenFiles: seq<string> := {}, [];
      for n := 0 to |updates|
        invariant Agree(files, old(files), temps)
        invariant forall path :: path in temps ==> path !in old(files) && path !in avoid && path in files
        invariant |staged| == n && Ready(old(files), files, staged, temps, 0) && Stages(staged, updates[..n], canonical)
        invariant forall i :: 0 <= i < n ==>
          staged[i].path in seenPaths && staged[i].path in avoid && staged[i].temporary in temps
        invariant forall path :: path in seenPaths ==>
          exists i :: 0 <= i < n && canonical(updates[i].path) == Some(path)
        invariant forall i :: 0 <= i < |seenFiles| ==> seenFiles[i] in seenPaths
        invariant faults == old(faults) && stuck == old(stuck)
        invariant forall path :: path in temps ==> IsTemporary(staged, path)
        invariant old(files).Keys <= files.Keys
        invariant NoneTwice(old(files), staged, same) && Noted(old(files), staged, seenFiles)
      {
        var resolved := canonical(updates[n].path);
        var duplicate := resolved.Some? && resolved.value in seenPaths;
        if resolved.Some? && resolved.value in files {
          var linked := SeenAs(resolved.value, seenFiles, same);
          duplicate := duplicate || linked;
        }
        if resolved == None || duplicate {
          ghost var found := files;
          CleanupStagedUpdates(staged, temps);
          AgreeBoth(files, found, old(files), temps, temps);
          return false, staged, temps;
        }
        var path := resolved.value;
        TargetsHold(updates, canonical, n);
        SameThere(files, old(files), temps, path);
        ghost var noted := seenFiles;
        seenPaths := seenPaths + {path};
        if path in files { seenFiles := seenFiles + [path]; }
        ghost var here := files;
        var written, item := StageOne(path, updates[n], avoid);
        AgreeBoth(files, here, old(files), {item.temporary}, temps);
        if !written {
          temps := temps + {item.temporary};
          here := files;
          CleanupStagedUpdates(staged, temps);
          AgreeBoth(files, here, old(files), temps, temps);
          return false, staged, temps;
        }
        ReadyMore(old(files), here, files, staged, temps, item);
        TemporariesMore(staged, item);
        StagesMore(staged, item, updates, n, canonical);
        NoneTwiceMore(old(files), staged, item, noted, same);
        temps := temps + {item.temporary};
        staged := staged + [item];
      }
      assert updates[..|updates|] == updates;
      ok := true;
    }

    /** One round of rollbackFileUpdates: the old file put back, or the new one removed. */
    method PutBack(update: Staged, avoid: set<string>) returns (ok: bool, temporary: string)
      requires update.path in avoid
      modifies this
      ensures temporary !in old(files) && temporary !in avoid
      ensures forall path :: path != temporary && path != update.path ==> At(files, path) == At(old(files), path)
      ensures ok ==> At(files, update.path) == update.original
      ensures healthy ==> ok
      ensures Cleared(temporary)
      ensures forall path :: old(Cleared(path)) && path != update.path ==> Cleared(path)
      ensures old(faults) <= faults && old(stuck) <= stuck && (!ok ==> faults > old(faults))
    {
      if update.original == None {
        temporary := FreshName(files.Keys + avoid);
        var removed := Remove(update.path);
        return removed || update.path !in files, temporary;
      }
      ok, temporary := WriteSiblingTemp(update.original.value.data, update.original.value.mode, avoid);
      if !ok { return; }
      ok := Rename(temporary, update.path);
      if !ok { var _ := Remove(temporary); }
    }

    /** rollbackFileUpdates: the committed updates undone, the last one first. */
    method RollbackFileUpdates(ghost before: Files, staged: seq<Staged>, committed: nat, ghost earlier: set<string>,
                               avoid: set<string>)
      returns (ok: bool, ghost temps: set<string>)
      requires committed <= |staged| && Distinct(staged)
      requires Agree(files, Overlay(before, staged[..committed]), earlier)
      requires forall i :: 0 <= i < |staged| ==>
        staged[i].path in avoid && staged[i].original == At(before, staged[i].path)
      requires forall path :: path in earlier ==> path !in before && path !in avoid
      modifies this
      ensures earlier <= temps && forall path :: path in temps ==> path !in before && path !in avoid
      ensures ok ==> Agree(files, before, temps)
      ensures AgreeElsewhere(files, before, temps, staged)
      ensures healthy ==> ok
      ensures old(faults) <= faults && old(stuck) <= stuck && (!ok ==> faults > old(faults))
      ensures forall path :: path in temps ==> path in earlier || Cleared(path)
    {
      hide Overlay;
      ok, temps := true, earlier;
      OverlayElsewhere(before, files, temps, staged, committed);
      var index := committed;
      while index > 0
        invariant 0 <= index <= committed && earlier <= temps
        invariant forall path :: path in temps ==> path !in before && path !in avoid
        invariant healthy ==> ok
        invariant ok ==> Agree(files, Overlay(before, staged[..index]), temps)
        invariant AgreeElsewhere(files, before, temps, staged)
        invariant old(faults) <= faults && old(stuck) <= stuck && (!ok ==> faults > old(faults))
        invariant forall path :: path in temps ==> path in earlier || Cleared(path)
      {
        index := index - 1;
        ghost var here := files;
        var done, temporary := PutBack(staged[index], avoid);
        assert temporary !in before by {
          assert IsTarget(staged, temporary) ==> temporary in avoid;
          assert temporary !in temps ==> At(here, temporary) == At(before, temporary);
        }
        temps := temps + {temporary};
        assert IsTarget(staged, staged[index].path);
        if !done {
          ok := false;
        } else if ok {
          Undone(before, here, files, staged, index, temps);
        }
      }
      assert staged[..0] == [];
      NoOverlay(before);
    }

    /**
     * commitFileUpdates: success gives every target its new file; a failure
     * gives each of them its old one again, unless the rollback says otherwise.
     * No other file changes; only temporaries may be left.
     */
    method CommitFileUpdates(updates: seq<Update>, canonical: string -> Option<string>, same: (string, string) -> bool)
      returns (r: Result, ghost temps: set<string>)
      modifies this
      ensures forall path :: path in temps ==> path !in old(files) && path !in Targets(updates, canonical)
      ensures !DistinctTargets(updates, canonical) ==> r.NotStaged?
      ensures healthy && DistinctTargets(updates, canonical) && Apart(updates, canonical, same) ==> r.Committed?
      // Short of a commit something failed, and the old files are missing only if something
      // else failed too; a temporary is left only where removing it failed.
      ensures !r.Committed? && DistinctTargets(updates, canonical) && Apart(updates, canonical, same) ==>
                faults >= old(faults) + if r.RollbackFailed? then 2 else 1
      ensures r.RollbackFailed? ==> faults >= old(faults) + 2
      ensures forall path :: path in temps ==> Cleared(path)
      ensures r.Committed? ==>
                forall i :: 0 <= i < |updates| ==>
                  && canonical(updates[i].path).Some?
                  && At(files, canonical(updates[i].path).value) == Some(File(updates[i].data, updates[i].mode))
      ensures !r.NotStaged? ==> NoFileTwice(old(files), updates, canonical, same)
      ensures r.NotStaged? || r.RolledBack? ==> Agree(files, old(files), temps)
      ensures forall path :: path !in temps && path !in Targets(updates, canonical) ==>
                At(files, path) == At(old(files), path)
    {
      hide Overlay, NoneTwice, NoFileTwice, IsTemporary, Cleared;
      var avoid := Targets(updates, canonical);
      var ok, staged;
      ok, staged, temps := StageFileUpdates(updates, canonical, same, avoid);
      if !ok { return NotStaged, temps; }
      ghost var before := old(files);
      StagedTargets(staged, updates, canonical);
      StagedOnce(before, staged, updates, canonical, same);
      NoOverlay(before);
      assert staged[..0] == [];
      for k := 0 to |staged|
        invariant Ready(before, files, staged, temps, k)
        invariant Agree(files, Overlay(before, staged[..k]), temps)
        invariant faults == old(faults) && stuck == old(stuck)
      {
        ghost var here := files;
        var renamed := Rename(staged[k].temporary, staged[k].path);
        if !renamed {
          ok, temps := RollbackFileUpdates(before, staged, k, temps, avoid);
          CleanupStagedUpdates(staged, temps);
          r := if ok then RolledBack else RollbackFailed;
          return;
        }
        Done(before, here, files, staged, k, temps);
      }
      OverlayElsewhere(before, files, temps, staged, |staged|);
      assert staged[..|staged|] == staged;
      AllWritten(before, files, staged, updates, canonical, temps);
      CleanupStagedUpdates(staged, temps);
      r := Committed;
    }
  }

  /** No two of the outputs that are there already are the same file under two names. */
  ghost predicate NoFileTwice(files: Files, updates: seq<Update>, canonical: string -> Option<string>,
                              same: (string, string) -> bool)
  {
    forall i, j ::
      0 <= i < j < |updates| && BothThere(files, canonical(updates[i].path), canonical(updates[j].path)) ==>
        !same(canonical(updates[i].path).value, canonical(updates[j].path).value)
  }

  lemma StagedOnce(before: Files, staged: seq<Staged>, updates: seq<Update>, canonical: string -> Option<string>,
                   same: (string, string) -> bool)
    requires Stages(staged, updates, canonical) && NoneTwice(before, staged, same)
    ensures NoFileTwice(before, updates, canonical, same)
  {
  }

  predicate BothThere(files: Files, a: Option<string>, b: Option<string>) {
    a.Some? && b.Some? && a.value in files && b.value in files
  }

  ghost predicate Stages(staged: seq<Staged>, updates: seq<Update>, canonical: string -> Option<string>) {
    && |staged| == |updates|
    && forall i :: 0 <= i < |updates| ==>
         && canonical(updates[i].path) == Some(staged[i].path)
         && staged[i].data == updates[i].data && staged[i].mode == updates[i].mode
  }

  ghost predicate DistinctTargets(updates: seq<Update>, canonical: string -> Option<string>) {
    && (forall i :: 0 <= i < |updates| ==> canonical(updates[i].path).Some?)
    && forall i, j :: 0 <= i < j < |updates| ==> canonical(updates[i].path) != canonical(updates[j].path)
  }

  /** No two targets are the same file under other names. */
  ghost predicate Apart(updates: seq<Update>, canonical: string -> Option<string>, same: (string, string) -> bool) {
    forall i, j :: 0 <= i < j < |updates| && canonical(updates[i].path).Some? && canonical(updates[j].path).Some? ==>
      !same(canonical(updates[i].path).value, canonical(updates[j].path).value)
  }

  lemma NothingStaged(files: Files, canonical: string -> Option<string>)
    ensures Ready(files, files, [], {}, 0) && Stages([], [], canonical) && Noted(files, [], [])
    ensures forall same :: NoneTwice(files, [], same)
  {}

  /** No two outputs that are there already are one file. */
  ghost predicate NoneTwice(before: Files, staged: seq<Staged>, same: (string, string) -> bool) {
    forall i, j :: 0 <= i < j < |staged| && staged[i].path in before && staged[j].path in before ==>
      !same(staged[i].path, staged[j].path)
  }

  ghost predicate Noted(before: Files, staged: seq<Staged>, seenFiles: seq<string>) {
    forall i :: 0 <= i < |staged| && staged[i].path in before ==> staged[i].path in seenFiles
  }

  lemma NoneTwiceMore(before: Files, staged: seq<Staged>, item: Staged, seenFiles: seq<string>,
                      same: (string, string) -> bool)
    requires NoneTwice(before, staged, same) && Noted(before, staged, seenFiles)
    requires item.path in before ==> forall k :: 0 <= k < |seenFiles| ==> !same(seenFiles[k], item.path)
    ensures NoneTwice(before, staged + [item], same)
    ensures Noted(before, staged + [item], if item.path in before then seenFiles + [item.path] else seenFiles)
  {
    var all := staged + [item];
    forall i, j | 0 <= i < j < |all| && all[i].path in before && all[j].path in before
      ensures !same(all[i].path, all[j].path)
    {
      if j == |staged| {
        var k :| 0 <= k < |seenFiles| && seenFiles[k] == staged[i].path;
        assert all[j] == item && all[i] == staged[i];
      }
    }
  }

  lemma AllWritten(before: Files, files: Files, staged: seq<Staged>, updates: seq<Update>,
                   canonical: string -> Option<string>, temps: set<string>)
    requires Distinct(staged) && Stages(staged, updates, canonical) && Agree(files, Overlay(before, staged), temps)
    requires forall i :: 0 <= i < |staged| ==> staged[i].path !in temps
    ensures forall i :: 0 <= i < |updates| ==>
              && canonical(updates[i].path).Some?
              && At(files, canonical(updates[i].path).value) == Some(File(updates[i].data, updates[i].mode))
  {
    hide Overlay, At;
    forall i | 0 <= i < |updates|
      ensures canonical(updates[i].path).Some?
      ensures At(files, canonical(updates[i].path).value) == Some(File(updates[i].data, updates[i].mode))
    {
      OverlayAt(before, staged, staged[i].path);
    }
  }

  lemma AgreeSelf(files: Files)
    ensures Agree(files, files, {})
  {}

  lemma AgreeBoth(a: Files, b: Files, c: Files, s: set<string>, t: set<string>)
    requires Agree(a, b, s) && Agree(b, c, t)
    ensures Agree(a, c, t + s)
    ensures s == t ==> Agree(a, c, t)
  {}

  lemma SameThere(a: Files, b: Files, temps: set<string>, path: string)
    requires Agree(a, b, temps) && path !in temps
    ensures path in a <==> path in b
    ensures At(a, path) == At(b, path)
  {}

  lemma StagesMore(staged: seq<Staged>, item: Staged, updates: seq<Update>, n: nat, canonical: string -> Option<string>)
    requires n < |updates| && Stages(staged, updates[..n], canonical)
    requires canonical(updates[n].path) == Some(item.path)
    requires item.data == updates[n].data && item.mode == updates[n].mode
    ensures Stages(staged + [item], updates[..n + 1], canonical)
  {}

  lemma StagedTargets(staged: seq<Staged>, updates: seq<Update>, canonical: string -> Option<string>)
    requires Stages(staged, updates, canonical) && Distinct(staged)
    ensures DistinctTargets(updates, canonical)
    ensures forall path :: path in Targets(updates, canonical) <==> IsTarget(staged, path)
  {}

  lemma NoOverlay(before: Files)
    ensures Overlay(before, []) == before
  {}

  function Targets(updates: seq<Update>, canonical: string -> Option<string>): set<string> {
    set i | 0 <= i < |updates| && canonical(updates[i].path).Some? :: canonical(updates[i].path).value
  }

  lemma TargetsHold(updates: seq<Update>, canonical: string -> Option<string>, n: nat)
    requires n < |updates| && canonical(updates[n].path).Some?
    ensures canonical(updates[n].path).value in Targets(updates, canonical)
  {}

  /** A name that is not among the given ones, as os.CreateTemp finds it. */
  method FreshName(taken: set<string>) returns (name: string)
    ensures name !in taken
  {
    name := "";
    ghost var left := taken;
    while name in taken
      invariant left <= taken && forall s :: s in taken && |s| >= |name| ==> s in left
      decreases |left|
    {
      left := left - {name};
      name := name + "x";
    }
  }
}
