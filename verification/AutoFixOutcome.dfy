/**
 When an auto-fix batch fails and when its revert succeeds, said of the patches, the tree
 they were written against and the calls that fail.
 */
module AutoFixOutcome {
  import opened Basics
  import opened Orders
  import opened AutoFix

  /** No trouble beyond the patches themselves. */
  ghost predicate Untroubled(faults: int -> Fault) {
    forall i :: faults(i).what == Fine && (forall q :: !faults(i).stuck(q))
  }

  /** The patch suits the file it was written against: a new file is absent and parsed, a change applies, a removal always does. */
  predicate Suits(t: Tree, p: string, edit: Edit) {
    match edit
    case Removes => true
    case Creates(content) => p !in t && content.Some?
    case Modifies(patch) => p in t && patch(t[p]).Some?
  }

  /** An entry lands only if its patch suits; without trouble it then does. */
  lemma LandsIff(h: Host, t: Tree, p: string, edit: Edit, fault: Fault)
    requires !Scratch(h, p, p)
    ensures ApplyOne(h, t, p, edit, fault).landed.Some? ==> Suits(t, p, edit)
    ensures fault.what == Fine && (forall q :: !fault.stuck(q)) && Suits(t, p, edit) ==> ApplyOne(h, t, p, edit, fault).landed.Some?
  {
  }

  lemma SuitsAlike(t: Tree, t0: Tree, p: string, edit: Edit)
    requires At(t, p) == At(t0, p)
    ensures Suits(t, p, edit) == Suits(t0, p, edit)
  {
  }

  /** The last entry of a batch finds its file as the run found it. */
  lemma LastFindsOriginal(h: Host, t0: Tree, entries: seq<FileEntry>, faults: int -> Fault)
    requires entries != [] && Separate(h, entries)
    ensures var n := |entries| - 1;
            var p := Target(h, entries[n]);
            Separate(h, entries[..n]) && !Scratch(h, p, p) && At(ApplyAll(h, t0, entries[..n], faults).tree, p) == At(t0, p)
  {
    var n := |entries| - 1;
    var pre, p := entries[..n], Target(h, entries[n]);
    assert forall k :: 0 <= k < n ==> pre[k] == entries[k];
    assert !IsScratch(h, pre, p) && !IsTarget(h, pre, p);
    ApplyIsAccounted(h, t0, pre, faults, p);
  }

  ghost predicate AllSuit(h: Host, t0: Tree, entries: seq<FileEntry>) {
    forall i :: 0 <= i < |entries| ==> Suits(t0, Target(h, entries[i]), entries[i].edit)
  }

  lemma AllSuitSnoc(h: Host, t0: Tree, entries: seq<FileEntry>)
    requires entries != []
    ensures var n := |entries| - 1;
            AllSuit(h, t0, entries) <==> AllSuit(h, t0, entries[..n]) && Suits(t0, Target(h, entries[n]), entries[n].edit)
  {
    assert forall k :: 0 <= k < |entries| - 1 ==> entries[..|entries| - 1][k] == entries[k];
  }

  /** One more entry: what the batch makes of it. */
  lemma LastLandsIff(h: Host, t0: Tree, entries: seq<FileEntry>, faults: int -> Fault)
    requires entries != [] && Separate(h, entries)
    ensures var n := |entries| - 1;
            var before, after := ApplyAll(h, t0, entries[..n], faults).failed, ApplyAll(h, t0, entries, faults).failed;
            var suits := Suits(t0, Target(h, entries[n]), entries[n].edit);
            && (before ==> after) && (!after ==> suits) && (Untroubled(faults) && suits ==> after == before)
  {
    var n := |entries| - 1;
    var p := Target(h, entries[n]);
    LastFindsOriginal(h, t0, entries, faults);
    var st := ApplyAll(h, t0, entries[..n], faults);
    LandsIff(h, st.tree, p, entries[n].edit, faults(n));
    SuitsAlike(st.tree, t0, p, entries[n].edit);
  }

  /** A batch that does not fail had only patches that suit the original tree; without trouble the converse holds. */
  lemma {:induction false} BatchFailsIff(h: Host, t0: Tree, entries: seq<FileEntry>, faults: int -> Fault)
    requires Separate(h, entries)
    ensures !ApplyAll(h, t0, entries, faults).failed ==> AllSuit(h, t0, entries)
    ensures Untroubled(faults) ==> (ApplyAll(h, t0, entries, faults).failed <==> !AllSuit(h, t0, entries))
  {
    if entries != [] {
      LastFindsOriginal(h, t0, entries, faults);
      BatchFailsIff(h, t0, entries[..|entries| - 1], faults);
      LastLandsIff(h, t0, entries, faults);
      AllSuitSnoc(h, t0, entries);
    }
  }

  /** One file can be undone: the new file deleted, or the backup there and restorable. */
  predicate Undoable(t: Tree, p: string, bak: Option<string>, f: RevertFaults) {
    if bak.None? then p in t ==> !f.removeFails(p) else bak.value in t && !f.restoreFails(p)
  }

  /** Reverting some files leaves the others and their backups as they were. */
  lemma {:induction false} RevertKeepsOthers(t: Tree, backups: map<string, Option<string>>, order: seq<string>, f: RevertFaults, x: string)
    requires (forall p :: p in order ==> p in backups) && CleanBackups(backups)
    requires x in backups && x !in order
    ensures var after := RevertAll(t, backups, order, f).0; At(after, x) == At(t, x) && At(after, Bak(x)) == At(t, Bak(x))
  {
    if order != [] {
      var n := |order| - 1;
      var p := order[n];
      RevertKeepsOthers(t, backups, order[..n], f, x);
      var before := RevertAll(t, backups, order[..n], f).0;
      assert order == order[..n] + [p];
      BakNames(x, p);
      RevertOneTouches(before, p, backups[p], f, x);
      RevertOneTouches(before, p, backups[p], f, Bak(x));
    }
  }

  /** In any order, the revert reports success iff every listed file can be undone as the tree stands. */
  lemma {:induction false} RevertSucceedsIff(t: Tree, backups: map<string, Option<string>>, order: seq<string>, f: RevertFaults)
    requires (forall p :: p in order ==> p in backups) && Distinct(order) && CleanBackups(backups)
    ensures RevertAll(t, backups, order, f).1 <==> forall p :: p in order ==> Undoable(t, p, backups[p], f)
  {
    if order != [] {
      var n := |order| - 1;
      var p := order[n];
      assert order == order[..n] + [p] && p !in order[..n];
      RevertSucceedsIff(t, backups, order[..n], f);
      RevertKeepsOthers(t, backups, order[..n], f, p);
    }
  }

  /** After a run that published, the backups are gone where they could be removed, and nothing else changed. */
  lemma CleanupDropsBackups(h: Host, t0: Tree, entries: seq<FileEntry>, faults: int -> Fault, now: Tree, f: RevertFaults, x: string)
    requires Separate(h, entries)
    ensures var backups := ApplyAll(h, t0, entries, faults).backups;
            At(Cleanup(now, backups, f), x) ==
            if (exists p :: p in backups && p in t0 && Bak(p) == x) && !f.removeFails(x) then None else At(now, x)
  {
    var backups := ApplyAll(h, t0, entries, faults).backups;
    forall p | p in backups ensures backups[p] == BackupName(t0, p) {
      BackupKeysAreTargets(h, t0, entries, faults, p);
      ApplyIsAccounted(h, t0, entries, faults, p);
    }
  }
  /** What a path holds once `p` is backed up: the copy under its `.bak`, the backup before it under `.bak.old` if that stays, no leftover that could be deleted. */
  lemma BackupPlaces(h: Host, t: Tree, p: string, fault: Fault, x: string)
    requires p in t && !fault.what.BackupFails? && !Scratch(h, p, p)
    ensures var (after, made) := Backup(h, t, p, fault);
            && made
            && (x == Bak(p) ==> At(after, x) == At(t, p))
            && (x == Old(p) ==> At(after, x) == if fault.oldStays && Bak(p) in t && !(h.litter(p, Bak(p)) && !fault.stuck(Bak(p))) then At(t, Bak(p)) else None)
            && (x != Bak(p) && x != Old(p) ==> At(after, x) == if h.litter(p, x) && !fault.stuck(x) then None else At(t, x))
  {
    BakNames(p, p);
    OldNames(p, p);
  }
  /** A write that fails leaves the file as it was and takes the backup away again where it can. */
  lemma FailedWrite(h: Host, t: Tree, p: string, edit: Edit, fault: Fault)
    requires fault.what.WriteFails? && Suits(t, p, edit) && !Scratch(h, p, p)
    ensures var one := ApplyOne(h, t, p, edit, fault);
            && (p in t ==>
                  && one.landed.None? && At(one.tree, p) == At(t, p)
                  && At(one.tree, Bak(p)) == if fault.what.backupRemoved then None else At(t, p))
            && (p !in t ==> one.tree == t && (one.landed.None? <==> edit.Creates?))
  {
    BakNames(p, p);
    OldNames(p, p);
  }

  /** The backup that stood before survives the sweep. */
  predicate BackupSurvives(h: Host, t: Tree, p: string, stuck: string -> bool) {
    Bak(p) in t && !(h.litter(p, Bak(p)) && !stuck(Bak(p)))
  }

  /** A backup that fails leaves the file as it was; the backup before it stays, moved aside or not. */
  lemma FailedBackup(h: Host, t: Tree, p: string, edit: Edit, fault: Fault)
    requires p in t && fault.what.BackupFails? && Suits(t, p, edit) && !Scratch(h, p, p)
    ensures var one, stays := ApplyOne(h, t, p, edit, fault), BackupSurvives(h, t, p, fault.stuck);
            && one.landed.None? && At(one.tree, p) == At(t, p)
            && At(one.tree, Bak(p)) == (if stays && !fault.what.moved then At(t, Bak(p)) else None)
            && At(one.tree, Old(p)) == (if stays && fault.what.moved then At(t, Bak(p)) else if fault.stuck(Old(p)) then At(t, Old(p)) else None)
  {
    BakNames(p, p);
    OldNames(p, p);
  }
}
