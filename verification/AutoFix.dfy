/**
 `--auto-fix`: apply model-written patches to the working tree, validate, then either
 revert or publish a branch, a commit and a pull request (`ApplyPatch`, `RevertPatch`).

 The tree maps cleaned paths to contents. Every file-system and GitHub call may fail.
 */
module AutoFix {
  import opened Basics
  import opened Orders

  type Bytes = string

  type Tree = map<string, Bytes>

  function At(t: Tree, p: string): Option<Bytes> { if p in t then Some(t[p]) else None }

  /** The one backup name a file has. */
  function Bak(p: string): string { p + ['.', 'b', 'a', 'k'] }

  /** Where a previous backup is kept while the new one takes its place. */
  function Old(p: string): string { p + ['.', 'b', 'a', 'k', '.', 'o', 'l', 'd'] }

  lemma BakNames(p: string, q: string)
    ensures Bak(p) != p
    ensures Bak(p) == Bak(q) ==> p == q
  {
    assert |Bak(p)| == |p| + 4;
    if Bak(p) == Bak(q) { assert p == Bak(p)[..|Bak(p)| - 4] && q == Bak(q)[..|Bak(q)| - 4]; }
  }

  lemma OldNames(p: string, q: string)
    ensures Old(p) != p && Old(p) != Bak(q)
    ensures Old(p) == Old(q) ==> p == q
  {
    assert |Old(p)| == |p| + 8;
    assert Old(p)[|Old(p)| - 1] == 'd' && Bak(q)[|Bak(q)| - 1] == 'k';
    if Old(p) == Old(q) { assert p == Old(p)[..|Old(p)| - 8] && q == Old(q)[..|Old(q)| - 8]; }
  }

  /**
   What the host decides about names: path cleaning, and which paths count as leftovers of
   an earlier backup of a file, beside its `.bak.old` (the staging names its pattern
   matches, and whatever lies inside such a directory).
   */
  datatype Host = Host(clean: string -> string, litter: (string, string) -> bool)

  /** A backup of `p` deletes `q` first. */
  predicate Clears(h: Host, p: string, q: string) { q == Old(p) || h.litter(p, q) }

  // ------------------------------------------------------------------- apply

  /** What a per-file diff does, once parsed. */
  datatype Edit = Removes | Creates(content: Option<Bytes>) | Modifies(patch: Bytes -> Option<Bytes>)

  datatype FileEntry = FileEntry(path: string, edit: Edit)

  /**
   How an entry fares beyond its own diff: fine, turned away before any write, failing in
   the backup (with the previous backup moved aside or not), or failing at the write.
   */
  datatype Trouble = Fine | TurnedAway | BackupFails(moved: bool) | WriteFails(backupRemoved: bool)

  /** The trouble, which leftovers cannot be deleted, and whether the superseded backup stays behind. */
  datatype Fault = Fault(what: Trouble, stuck: string -> bool, oldStays: bool)

  /** The tree after one entry; `landed` names its backup, or none for a file that was absent. */
  datatype Applied = Applied(tree: Tree, landed: Option<Option<string>>)

  function BackupName(t: Tree, p: string): Option<string> { if p in t then Some(Bak(p)) else None }

  /** The leftovers of earlier backups of `p` are deleted, as far as they can be. */
  function Swept(h: Host, t: Tree, p: string, stuck: string -> bool): Tree {
    t - (set q | q in t && Clears(h, p, q) && !stuck(q))
  }

  /** A stale `.bak.old` that cannot be deleted fails the backup; other leftovers do not. */
  function StuckButOld(p: string, stuck: string -> bool): string -> bool { (q: string) => stuck(q) && q != Old(p) }

  /** The copy takes the backup name; the backup it replaces is moved aside, then deleted. */
  function Swapped(t: Tree, p: string, copy: Bytes, oldStays: bool): Tree {
    if oldStays && Bak(p) in t then t[Old(p) := t[Bak(p)]][Bak(p) := copy] else t[Bak(p) := copy]
  }

  function SwapFailed(t: Tree, p: string, moved: bool): Tree {
    if moved && Bak(p) in t then (t - {Bak(p)})[Old(p) := t[Bak(p)]] else t
  }

  /** `BackupToDotBak`: the tree, and whether the backup was made; an absent file needs none. */
  function Backup(h: Host, t: Tree, p: string, fault: Fault): (Tree, bool) {
    if p !in t then (t, true)
    else if fault.what.BackupFails? then (SwapFailed(Swept(h, t, p, fault.stuck), p, fault.what.moved), false)
    else
      var swept := Swept(h, t, p, StuckButOld(p, fault.stuck));
      if p !in swept then (swept, false) else (Swapped(swept, p, t[p], fault.oldStays), true)
  }

  /** Back up, then write or remove; a failed write takes its backup away again. */
  function Land(h: Host, t: Tree, p: string, after: Option<Bytes>, fault: Fault): Applied {
    var (staged, ok) := Backup(h, t, p, fault);
    if !ok then Applied(staged, None)
    else if fault.what.WriteFails? then Applied(if p in t && fault.what.backupRemoved then staged - {Bak(p)} else staged, None)
    else if after.Some? then Applied(staged[p := after.value], Some(BackupName(t, p)))
    else Applied(staged - {p}, Some(BackupName(t, p)))
  }

  /** `applyOne` at cleaned path `p`. */
  function ApplyOne(h: Host, t: Tree, p: string, edit: Edit, fault: Fault): Applied {
    if fault.what.TurnedAway? then Applied(t, None)
    else
      match edit
      case Removes =>
        if p in t then Land(h, t, p, None, fault) else Applied(t, Some(None))
      case Creates(content) =>
        if p in t || content.None? then Applied(t, None) else Land(h, t, p, content, fault)
      case Modifies(patch) =>
        if p !in t || patch(t[p]).None? then Applied(t, None) else Land(h, t, p, patch(t[p]), fault)
  }

  datatype ApplyState = ApplyState(tree: Tree, backups: map<string, Option<string>>, failed: bool)

  /** `ApplyPatch`: entries are independent, and a failure does not stop the batch. */
  function ApplyAll(h: Host, t: Tree, entries: seq<FileEntry>, faults: int -> Fault): ApplyState {
    if entries == [] then ApplyState(t, map[], false)
    else
      var n := |entries| - 1;
      var st, p := ApplyAll(h, t, entries[..n], faults), h.clean(entries[n].path);
      var one := ApplyOne(h, st.tree, p, entries[n].edit, faults(n));
      if one.landed.None? then ApplyState(one.tree, st.backups, true)
      else ApplyState(one.tree, st.backups[p := one.landed.value], st.failed)
  }

  // ------------------------------------------------------------------ revert

  datatype RevertFaults = RevertFaults(restoreFails: string -> bool, removeFails: string -> bool)

  /** Undo one file; the second part says whether that succeeded. */
  function RevertOne(t: Tree, p: string, bak: Option<string>, f: RevertFaults): (Tree, bool) {
    if bak.None? then (if p in t && f.removeFails(p) then (t, false) else (t - {p}, true))
    else if bak.value !in t || f.restoreFails(p) then (t, false)
    else
      var restored := t[p := t[bak.value]];
      (if f.removeFails(bak.value) then restored else restored - {bak.value}, true)
  }

  /** `RevertPatch` in some order of the backup map; every file is attempted. */
  function RevertAll(t: Tree, backups: map<string, Option<string>>, order: seq<string>, f: RevertFaults): (Tree, bool)
    requires forall p :: p in order ==> p in backups
  {
    if order == [] then (t, true)
    else
      var n := |order| - 1;
      var (before, ok) := RevertAll(t, backups, order[..n], f);
      var (after, one) := RevertOne(before, order[n], backups[order[n]], f);
      (after, ok && one)
  }

  /** `CleanupBackups`: best effort. */
  function Cleanup(t: Tree, backups: map<string, Option<string>>, f: RevertFaults): Tree {
    t - (set p | p in backups && backups[p].Some? && !f.removeFails(backups[p].value) :: backups[p].value)
  }

  // -------------------------------------------------- when a revert is a revert

  function Target(h: Host, e: FileEntry): string { h.clean(e.path) }

  ghost predicate OneTouchEach(h: Host, es: seq<FileEntry>) {
    forall i, j :: 0 <= i < j < |es| ==> Target(h, es[i]) != Target(h, es[j])
  }

  /** `q` is the backup of `p` or a leftover that backing up `p` deletes. */
  predicate Scratch(h: Host, p: string, q: string) { q == Bak(p) || Clears(h, p, q) }

  /** Each file is touched once, and no touched file is scratch space of a touched file. */
  ghost predicate Separate(h: Host, entries: seq<FileEntry>) {
    && OneTouchEach(h, entries)
    && (forall i, j :: 0 <= i < |entries| && 0 <= j < |entries| ==> !Scratch(h, Target(h, entries[j]), Target(h, entries[i])))
  }

  ghost predicate IsTarget(h: Host, entries: seq<FileEntry>, x: string) {
    exists i :: 0 <= i < |entries| && Target(h, entries[i]) == x
  }

  ghost predicate IsScratch(h: Host, entries: seq<FileEntry>, x: string) {
    exists i :: 0 <= i < |entries| && Scratch(h, Target(h, entries[i]), x)
  }

  /** What a path holds after an apply, against what it held before. */
  ghost predicate Accounted(h: Host, entries: seq<FileEntry>, t0: Tree, st: ApplyState, x: string) {
    if x in st.backups then
      && st.backups[x] == BackupName(t0, x)
      && (x in t0 ==> At(st.tree, Bak(x)) == Some(t0[x]) || (At(st.tree, Bak(x)) == None && BackupIsLitter(h, entries, x)))
    else At(st.tree, x) == At(t0, x)
  }

  /** Another touched file's backup deletes the backup of `x`. */
  ghost predicate BackupIsLitter(h: Host, entries: seq<FileEntry>, x: string) {
    exists i :: 0 <= i < |entries| && Target(h, entries[i]) != x && Clears(h, Target(h, entries[i]), Bak(x))
  }

  /** An entry changes its own file, its backup name and the leftovers of its backups. */
  lemma ApplyOneTouches(h: Host, t: Tree, p: string, edit: Edit, fault: Fault, x: string)
    ensures var one := ApplyOne(h, t, p, edit, fault);
            && (x != p && !Scratch(h, p, x) ==> At(one.tree, x) == At(t, x))
            && (one.landed.None? && !Scratch(h, p, p) ==> At(one.tree, p) == At(t, p))
            && (one.landed.Some? ==> one.landed.value == BackupName(t, p) && (p in t ==> At(one.tree, Bak(p)) == Some(t[p])))
  {
    BakNames(p, p);
    OldNames(p, p);
  }

  /** What an entry does to another file's backup: nothing, unless it deletes it as a leftover. */
  lemma ApplyOneKeepsBackups(h: Host, t: Tree, p: string, edit: Edit, fault: Fault, x: string)
    requires x != p && Bak(x) != p
    ensures var one := ApplyOne(h, t, p, edit, fault);
            At(one.tree, Bak(x)) == At(t, Bak(x)) || (At(one.tree, Bak(x)) == None && Clears(h, p, Bak(x)))
  {
    BakNames(x, p);
    OldNames(p, x);
    var swept := Swept(h, t, p, StuckButOld(p, fault.stuck));
  }

  /** Until a revert, every path outside the scratch names is as it was or can be restored. */
  lemma {:induction false} ApplyIsAccounted(h: Host, t0: Tree, entries: seq<FileEntry>, faults: int -> Fault, x: string)
    requires Separate(h, entries) && !IsScratch(h, entries, x)
    ensures var st := ApplyAll(h, t0, entries, faults);
            Accounted(h, entries, t0, st, x) && (x in st.backups ==> IsTarget(h, entries, x))
  {
    if entries != [] {
      var n := |entries| - 1;
      var pre, p := entries[..n], Target(h, entries[n]);
      assert forall i :: 0 <= i < n ==> pre[i] == entries[i];
      assert !IsScratch(h, pre, x) by { if IsScratch(h, pre, x) { assert IsScratch(h, entries, x); } }
      assert !IsScratch(h, pre, p);
      ApplyIsAccounted(h, t0, pre, faults, x);
      ApplyIsAccounted(h, t0, pre, faults, p);
      var st := ApplyAll(h, t0, pre, faults);
      assert !IsTarget(h, pre, p);
      AccountedNext(h, t0, entries, st, faults(n), x);
    }
  }

  /** One more entry. */
  lemma AccountedNext(h: Host, t0: Tree, entries: seq<FileEntry>, st: ApplyState, fault: Fault, x: string)
    requires entries != [] && Separate(h, entries) && !IsScratch(h, entries, x)
    requires var n := |entries| - 1;
             var pre, p := entries[..n], Target(h, entries[n]);
             && Accounted(h, pre, t0, st, x) && (x in st.backups ==> IsTarget(h, pre, x))
             && At(st.tree, p) == At(t0, p) && p !in st.backups
    ensures var n := |entries| - 1;
            var p := Target(h, entries[n]);
            var one := ApplyOne(h, st.tree, p, entries[n].edit, fault);
            var next := if one.landed.None? then ApplyState(one.tree, st.backups, true) else ApplyState(one.tree, st.backups[p := one.landed.value], st.failed);
            Accounted(h, entries, t0, next, x) && (x in next.backups ==> IsTarget(h, entries, x))
  {
    var n := |entries| - 1;
    var pre, p := entries[..n], Target(h, entries[n]);
    ApplyOneTouches(h, st.tree, p, entries[n].edit, fault, x);
    assert !Scratch(h, p, p) && !Scratch(h, p, x);
    if x in st.backups {
      var i :| 0 <= i < n && Target(h, pre[i]) == x;
      assert Target(h, entries[i]) == x && !Scratch(h, x, p);
      ApplyOneKeepsBackups(h, st.tree, p, entries[n].edit, fault, x);
      LitterGrows(h, entries, x);
    }
  }

  lemma LitterGrows(h: Host, entries: seq<FileEntry>, x: string)
    requires entries != []
    ensures BackupIsLitter(h, entries[..|entries| - 1], x) ==> BackupIsLitter(h, entries, x)
    ensures var p := Target(h, entries[|entries| - 1]); p != x && Clears(h, p, Bak(x)) ==> BackupIsLitter(h, entries, x)
  {
    var pre := entries[..|entries| - 1];
    if i :| 0 <= i < |pre| && Target(h, pre[i]) != x && Clears(h, Target(h, pre[i]), Bak(x)) { assert pre[i] == entries[i]; }
  }

  lemma RevertOneTouches(t: Tree, p: string, bak: Option<string>, f: RevertFaults, x: string)
    requires bak.Some? ==> bak.value == Bak(p)
    ensures var (after, ok) := RevertOne(t, p, bak, f);
            && (x != p && x != Bak(p) ==> At(after, x) == At(t, x))
            && (ok ==> At(after, p) == if bak.Some? then At(t, Bak(p)) else None)
            && (ok && bak.Some? ==> Bak(p) in t)
            && (ok && bak.Some? && !f.removeFails(Bak(p)) ==> At(after, Bak(p)) == None)
            && (bak.None? && x == Bak(p) ==> At(after, x) == At(t, x))
  {
    BakNames(p, p);
  }

  /** No touched file is a backup name, and each backup is the file's own. */
  ghost predicate CleanBackups(backups: map<string, Option<string>>) {
    && (forall p :: p in backups && backups[p].Some? ==> backups[p].value == Bak(p))
    && (forall p, q :: p in backups && q in backups ==> p != Bak(q))
  }

  /** In whatever order it runs, a revert that succeeds restores each file it is given and touches nothing else. */
  lemma {:induction false} RevertRestores(t: Tree, backups: map<string, Option<string>>, order: seq<string>, f: RevertFaults, x: string)
    requires (forall p :: p in order ==> p in backups) && Distinct(order) && CleanBackups(backups)
    requires forall q :: q in backups ==> x != Bak(q)
    requires RevertAll(t, backups, order, f).1
    ensures At(RevertAll(t, backups, order, f).0, x) ==
            if x !in order then At(t, x) else if backups[x].Some? then At(t, Bak(x)) else None
    ensures x in order && backups[x].Some? ==> Bak(x) in t
    ensures x in backups && x !in order ==> At(RevertAll(t, backups, order, f).0, Bak(x)) == At(t, Bak(x))
  {
    if order != [] {
      var n := |order| - 1;
      var p := order[n];
      RevertRestores(t, backups, order[..n], f, x);
      var before := RevertAll(t, backups, order[..n], f).0;
      RevertOneTouches(before, p, backups[p], f, x);
      RevertOneTouches(before, p, backups[p], f, Bak(x));
      assert order == order[..n] + [p] && p !in order[..n];
      BakNames(x, p);
      assert x in backups ==> p != Bak(x);
    }
  }

  /** The order in which Go happens to range over the backup map. */
  ghost predicate IsOrderOf(backups: map<string, Option<string>>, order: seq<string>) {
    Distinct(order) && ToSet(order) == backups.Keys
  }

  lemma {:induction false} BackupsAreClean(h: Host, t0: Tree, entries: seq<FileEntry>, faults: int -> Fault)
    requires Separate(h, entries)
    ensures CleanBackups(ApplyAll(h, t0, entries, faults).backups)
  {
    var st := ApplyAll(h, t0, entries, faults);
    forall p | p in st.backups ensures IsTarget(h, entries, p) && st.backups[p] == BackupName(t0, p) {
      BackupKeysAreTargets(h, t0, entries, faults, p);
      ApplyIsAccounted(h, t0, entries, faults, p);
    }
  }

  lemma {:induction false} BackupKeysAreTargets(h: Host, t0: Tree, entries: seq<FileEntry>, faults: int -> Fault, p: string)
    requires p in ApplyAll(h, t0, entries, faults).backups
    ensures IsTarget(h, entries, p)
  {
    var n := |entries| - 1;
    if p in ApplyAll(h, t0, entries[..n], faults).backups {
      BackupKeysAreTargets(h, t0, entries[..n], faults, p);
      var i :| 0 <= i < n && Target(h, entries[..n][i]) == p;
      assert Target(h, entries[i]) == p;
    } else {
      assert Target(h, entries[n]) == p;
    }
  }

  /** The backups still hold what apply put there. */
  ghost predicate BackupsIntact(st: ApplyState, now: Tree) {
    forall p :: p in st.backups && st.backups[p].Some? ==> At(now, Bak(p)) == At(st.tree, Bak(p))
  }

  /**
   Revert safety: whatever failed during apply, and whatever validation did beside the
   backups, a revert that reports success restores every patched file and changes nothing
   else; so if validation left the tree alone, every path but the scratch names is as it was.
   */
  lemma RevertUndoesApply(h: Host, t0: Tree, entries: seq<FileEntry>, faults: int -> Fault, now: Tree, order: seq<string>, f: RevertFaults, x: string)
    requires Separate(h, entries) && !IsScratch(h, entries, x)
    requires var st := ApplyAll(h, t0, entries, faults);
             BackupsIntact(st, now) && IsOrderOf(st.backups, order) && RevertAll(now, st.backups, order, f).1
    ensures var st := ApplyAll(h, t0, entries, faults);
            At(RevertAll(now, st.backups, order, f).0, x) == if x in st.backups then At(t0, x) else At(now, x)
    ensures now == ApplyAll(h, t0, entries, faults).tree ==>
              At(RevertAll(now, ApplyAll(h, t0, entries, faults).backups, order, f).0, x) == At(t0, x)
  {
    var st := ApplyAll(h, t0, entries, faults);
    BackupsAreClean(h, t0, entries, faults);
    ApplyIsAccounted(h, t0, entries, faults, x);
    forall q | q in st.backups ensures x != Bak(q) {
      BackupKeysAreTargets(h, t0, entries, faults, q);
    }
    assert x in order <==> x in ToSet(order);
    RevertRestores(now, st.backups, order, f, x);
  }

  /** The price: a file that already had the backup name of a restored file is gone afterwards. */
  lemma {:induction false} PriorBackupIsLost(h: Host, t0: Tree, entries: seq<FileEntry>, faults: int -> Fault, order: seq<string>, f: RevertFaults, p: string)
    requires Separate(h, entries) && forall x :: !f.removeFails(x)
    requires var st := ApplyAll(h, t0, entries, faults);
             IsOrderOf(st.backups, order) && RevertAll(st.tree, st.backups, order, f).1 && p in st.backups && p in t0
    ensures var st := ApplyAll(h, t0, entries, faults);
            At(RevertAll(st.tree, st.backups, order, f).0, Bak(p)) == At(t0, Bak(p)) <==> Bak(p) !in t0
  {
    var st := ApplyAll(h, t0, entries, faults);
    BackupKeysAreTargets(h, t0, entries, faults, p);
    ApplyIsAccounted(h, t0, entries, faults, p);
    BackupsAreClean(h, t0, entries, faults);
    assert p in ToSet(order);
    BackupIsRemoved(st.tree, st.backups, order, f, p);
  }

  lemma {:induction false} BackupIsRemoved(t: Tree, backups: map<string, Option<string>>, order: seq<string>, f: RevertFaults, p: string)
    requires (forall q :: q in order ==> q in backups) && Distinct(order) && CleanBackups(backups)
    requires p in order && backups[p].Some? && !f.removeFails(Bak(p)) && RevertAll(t, backups, order, f).1
    ensures At(RevertAll(t, backups, order, f).0, Bak(p)) == None
  {
    var n := |order| - 1;
    var last := order[n];
    var before := RevertAll(t, backups, order[..n], f).0;
    RevertOneTouches(before, last, backups[last], f, Bak(p));
    BakNames(p, last);
    if last != p {
      assert order == order[..n] + [last];
      BackupIsRemoved(t, backups, order[..n], f, p);
      assert last != Bak(p);
    }
  }

  /** An entry puts something new only at its own path and its two backup names. */
  lemma ApplyOneAdds(h: Host, t: Tree, p: string, edit: Edit, fault: Fault, x: string)
    requires x != p && x != Bak(p) && x != Old(p) && x !in t
    ensures x !in ApplyOne(h, t, p, edit, fault).tree
  {
  }

  lemma LandedClearsOld(h: Host, t: Tree, p: string, edit: Edit, fault: Fault)
    requires p in t && ApplyOne(h, t, p, edit, fault).landed.Some? && !fault.oldStays
    ensures Old(p) !in ApplyOne(h, t, p, edit, fault).tree
  {
    OldNames(p, p);
  }

  lemma {:induction false} OldIsGone(h: Host, t0: Tree, entries: seq<FileEntry>, faults: int -> Fault, p: string)
    requires Separate(h, entries) && forall i :: !faults(i).oldStays
    requires p in ApplyAll(h, t0, entries, faults).backups && p in t0
    ensures Old(p) !in ApplyAll(h, t0, entries, faults).tree
  {
    var n := |entries| - 1;
    var pre, q := entries[..n], Target(h, entries[n]);
    assert forall i :: 0 <= i < n ==> pre[i] == entries[i];
    var st := ApplyAll(h, t0, pre, faults);
    assert !IsScratch(h, pre, q) && !IsTarget(h, pre, q);
    ApplyIsAccounted(h, t0, pre, faults, q);
    if q == p {
      LandedClearsOld(h, st.tree, p, entries[n].edit, faults(n));
    } else {
      OldIsGone(h, t0, pre, faults, p);
      BackupKeysAreTargets(h, t0, pre, faults, p);
      var i :| 0 <= i < n && Target(h, pre[i]) == p;
      assert !Scratch(h, Target(h, entries[i]), q);
      OldNames(p, q);
      ApplyOneAdds(h, st.tree, q, entries[n].edit, faults(n), Old(p));
    }
  }

  /** And so is its `.bak.old`: a backup deletes it, and nothing brings it back. */
  lemma PriorOldIsLost(h: Host, t0: Tree, entries: seq<FileEntry>, faults: int -> Fault, order: seq<string>, f: RevertFaults, p: string)
    requires Separate(h, entries) && forall i :: !faults(i).oldStays
    requires var st := ApplyAll(h, t0, entries, faults);
             IsOrderOf(st.backups, order) && RevertAll(st.tree, st.backups, order, f).1 && p in st.backups && p in t0
    ensures var st := ApplyAll(h, t0, entries, faults);
            At(RevertAll(st.tree, st.backups, order, f).0, Old(p)) == At(t0, Old(p)) <==> Old(p) !in t0
  {
    var st := ApplyAll(h, t0, entries, faults);
    OldIsGone(h, t0, entries, faults, p);
    BackupsAreClean(h, t0, entries, faults);
    BackupKeysAreTargets(h, t0, entries, faults, p);
    forall q | q in st.backups ensures Old(p) != Bak(q) && Old(p) != q {
      OldNames(p, q);
      BackupKeysAreTargets(h, t0, entries, faults, q);
    }
    RevertRestores(st.tree, st.backups, order, f, Old(p));
  }

  // -------------------------------------------------------------- what was written

  /** What the patch makes of the file it was written against. */
  function Patched(t0: Tree, p: string, edit: Edit): Option<Bytes> {
    match edit
    case Removes => None
    case Creates(content) => content
    case Modifies(patch) => if p in t0 then patch(t0[p]) else None
  }

  /** An entry that lands leaves its own patch of what it found. */
  lemma LandedIsPatched(h: Host, t: Tree, t0: Tree, p: string, edit: Edit, fault: Fault)
    requires ApplyOne(h, t, p, edit, fault).landed.Some? && At(t, p) == At(t0, p)
    ensures At(ApplyOne(h, t, p, edit, fault).tree, p) == Patched(t0, p, edit)
  {
  }

  lemma LastIsPatched(h: Host, t0: Tree, entries: seq<FileEntry>, faults: int -> Fault)
    requires entries != [] && Separate(h, entries) && !ApplyAll(h, t0, entries, faults).failed
    ensures var e := entries[|entries| - 1];
            At(ApplyAll(h, t0, entries, faults).tree, Target(h, e)) == Patched(t0, Target(h, e), e.edit)
  {
    var n := |entries| - 1;
    var pre, p := entries[..n], Target(h, entries[n]);
    assert forall k :: 0 <= k < n ==> pre[k] == entries[k];
    assert !IsScratch(h, pre, p) && !IsTarget(h, pre, p);
    ApplyIsAccounted(h, t0, pre, faults, p);
    LandedIsPatched(h, ApplyAll(h, t0, pre, faults).tree, t0, p, entries[n].edit, faults(n));
  }

  /** When every entry landed, each file holds its own patch of its original content. */
  lemma {:induction false} ApplyWritesPatches(h: Host, t0: Tree, entries: seq<FileEntry>, faults: int -> Fault, i: nat)
    requires Separate(h, entries) && i < |entries| && !ApplyAll(h, t0, entries, faults).failed
    ensures At(ApplyAll(h, t0, entries, faults).tree, Target(h, entries[i])) == Patched(t0, Target(h, entries[i]), entries[i].edit)
  {
    var n := |entries| - 1;
    if i == n {
      LastIsPatched(h, t0, entries, faults);
    } else {
      var pre, p, x := entries[..n], Target(h, entries[n]), Target(h, entries[i]);
      assert forall k :: 0 <= k < n ==> pre[k] == entries[k];
      assert x != p && !Scratch(h, p, x);
      ApplyWritesPatches(h, t0, pre, faults, i);
      ApplyOneTouches(h, ApplyAll(h, t0, pre, faults).tree, p, entries[n].edit, faults(n), x);
    }
  }

  /** Dropping the backups afterwards leaves the patched files alone. */
  lemma CleanupKeepsTargets(h: Host, t0: Tree, entries: seq<FileEntry>, faults: int -> Fault, now: Tree, f: RevertFaults, i: nat)
    requires Separate(h, entries) && i < |entries|
    ensures At(Cleanup(now, ApplyAll(h, t0, entries, faults).backups, f), Target(h, entries[i])) == At(now, Target(h, entries[i]))
  {
    var st, x := ApplyAll(h, t0, entries, faults), Target(h, entries[i]);
    BackupsAreClean(h, t0, entries, faults);
    forall p | p in st.backups && st.backups[p].Some? ensures st.backups[p].value != x {
      BackupKeysAreTargets(h, t0, entries, faults, p);
    }
  }
}
