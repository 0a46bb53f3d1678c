/**
 The gated pipeline `runAutoFix`: apply, validate, then revert or publish. No call that
 changes GitHub is reachable before validation passed; every earlier exit reverts.
 */
module AutoFixRun {
  import opened Basics
  import opened Orders
  import opened AutoFix
  import opened AutoFixSafety

  datatype Backend = Sandboxed | HostByOptOut | NoBackend

  datatype Verdict = CannotRun | Fails | Passes

  datatype CommitFile = CommitFile(path: string, content: Option<Bytes>)

  datatype Call = CreateBranch | CreateCommit(files: seq<CommitFile>) | FindPull | UpdatePull | CreatePull

  /** Everything around one run: the patches, the validation, and which outside calls fail. */
  datatype Job = Job(
    host: Host,
    entries: seq<FileEntry>,
    faults: int -> Fault,
    backend: Backend,
    verdict: Verdict,
    validate: Tree -> Tree,
    revert: RevertFaults,
    base: string,
    unreadable: string -> bool,
    branchFails: bool,
    commitFails: bool,
    findFails: bool,
    pullFound: bool,
    pullFails: bool)

  datatype Ending =
    | Reverted
    | RevertFailed
    | NoBase
    | Unreadable
    | RemoteFailed
    | Published

  // ------------------------------------------------------------------ remote

  /** `commitFilesFrom`: an entry whose file is gone is a deletion. */
  function CommitFiles(h: Host, t: Tree, entries: seq<FileEntry>): (fs: seq<CommitFile>)
    ensures |fs| == |entries|
    ensures forall i :: 0 <= i < |entries| ==> fs[i] == CommitFile(entries[i].path, At(t, Target(h, entries[i])))
  {
    Map((e: FileEntry) => CommitFile(e.path, At(t, Target(h, e))), entries)
  }

  /** The remote calls of a run that reached them, and how it ended. */
  function Remote(j: Job, files: seq<CommitFile>): (seq<Call>, Ending) {
    if j.branchFails then ([CreateBranch], RemoteFailed)
    else if j.commitFails then ([CreateBranch, CreateCommit(files)], RemoteFailed)
    else if j.findFails then ([CreateBranch, CreateCommit(files), FindPull], RemoteFailed)
    else
      var last := if j.pullFound then UpdatePull else CreatePull;
      ([CreateBranch, CreateCommit(files), FindPull, last], if j.pullFails then RemoteFailed else Published)
  }

  /** The files the commit is to carry: each entry's path with what its file holds in the tree. */
  ghost predicate CarriesTree(h: Host, t: Tree, entries: seq<FileEntry>, fs: seq<CommitFile>) {
    |fs| == |entries| && forall i :: 0 <= i < |entries| ==> fs[i] == CommitFile(entries[i].path, At(t, h.clean(entries[i].path)))
  }

  /**
   The calls, in order, each made iff none before it failed: a branch, a commit of the files,
   a look for the pull request, and its update iff one was found, else its creation.
   */
  ghost predicate RemoteStands(j: Job, files: seq<CommitFile>, log: seq<Call>, ending: Ending) {
    && 1 <= |log| <= 4 && log[0] == CreateBranch
    && (|log| >= 2 <==> !j.branchFails) && (|log| >= 2 ==> log[1] == CreateCommit(files))
    && (|log| >= 3 <==> !j.branchFails && !j.commitFails) && (|log| >= 3 ==> log[2] == FindPull)
    && (|log| == 4 <==> !j.branchFails && !j.commitFails && !j.findFails)
    && (|log| == 4 ==> (j.pullFound && log[3] == UpdatePull) || (!j.pullFound && log[3] == CreatePull))
    && ((ending == Published && |log| == 4 && !j.pullFails) || (ending == RemoteFailed && (|log| < 4 || j.pullFails)))
  }

  lemma RemoteIsAsStated(j: Job, t: Tree, files: seq<CommitFile>)
    requires files == CommitFiles(j.host, t, j.entries)
    ensures CarriesTree(j.host, t, j.entries, files) && RemoteStands(j, files, Remote(j, files).0, Remote(j, files).1)
  {
  }

  /** The run gets as far as GitHub: all applied, validated on an allowed backend, a base branch, every file readable. */
  ghost predicate MayPublish(j: Job, t0: Tree) {
    PassedGate(j, t0) && !Blank(j.base) && !UnreadableEntry(j)
  }

  /** Applied in full and passed by an allowed backend. */
  ghost predicate PassedGate(j: Job, t0: Tree) {
    !ApplyAll(j.host, t0, j.entries, j.faults).failed && (j.backend == Sandboxed || j.backend == HostByOptOut) && j.verdict == Passes
  }

  ghost predicate UnreadableEntry(j: Job) { exists i :: 0 <= i < |j.entries| && j.unreadable(j.entries[i].path) }

  /** How the run ends, exit by exit. */
  ghost predicate EndsAs(j: Job, t0: Tree, log: seq<Call>, ending: Ending) {
    && (log != [] <==> MayPublish(j, t0))
    && (ending == Reverted || ending == RevertFailed <==> !PassedGate(j, t0))
    && (ending == NoBase <==> PassedGate(j, t0) && Blank(j.base))
    && (ending == Unreadable <==> PassedGate(j, t0) && !Blank(j.base) && UnreadableEntry(j))
  }

  // ------------------------------------------------------------- imperatively

  class WorkTree {
    var files: Tree

    constructor (t: Tree)
      ensures files == t
    {
      files := t;
    }
  }

  method ApplyPatch(tree: WorkTree, h: Host, entries: seq<FileEntry>, faults: int -> Fault)
    returns (backups: map<string, Option<string>>, failed: bool)
    modifies tree
    ensures ApplyState(tree.files, backups, failed) == ApplyAll(h, old(tree.files), entries, faults)
  {
    backups, failed := map[], false;
    for i := 0 to |entries|
      invariant ApplyState(tree.files, backups, failed) == ApplyAll(h, old(tree.files), entries[..i], faults)
    {
      assert entries[..i + 1][..i] == entries[..i];
      var p := h.clean(entries[i].path);
      var one := ApplyOne(h, tree.files, p, entries[i].edit, faults(i));
      tree.files := one.tree;
      if one.landed.None? {
        failed := true;
      } else {
        backups := backups[p := one.landed.value];
      }
    }
    assert entries[..|entries|] == entries;
  }

  /** The map is ranged over in no particular order. */
  method RevertPatch(tree: WorkTree, backups: map<string, Option<string>>, f: RevertFaults) returns (ok: bool, ghost order: seq<string>)
    modifies tree
    ensures IsOrderOf(backups, order)
    ensures (tree.files, ok) == RevertAll(old(tree.files), backups, order, f)
  {
    ok, order := true, [];
    var left := backups.Keys;
    while left != {}
      invariant Distinct(order) && left !! ToSet(order) && left + ToSet(order) == backups.Keys
      invariant forall p :: p in order ==> p in ToSet(order)
      invariant (tree.files, ok) == RevertAll(old(tree.files), backups, order, f)
      decreases left
    {
      var p :| p in left;
      var (after, one) := RevertOne(tree.files, p, backups[p], f);
      DistinctSnoc(order, p);
      assert (order + [p])[..|order|] == order;
      tree.files, ok := after, ok && one;
      order := order + [p];
      left := left - {p};
    }
  }

  /** Every patched file is restored, and every path but the scratch names holds what it held or what validation left. */
  ghost predicate Restored(j: Job, t0: Tree, now: Tree, after: Tree) {
    var st := ApplyAll(j.host, t0, j.entries, j.faults);
    forall x :: !IsScratch(j.host, j.entries, x) ==> At(after, x) == if x in st.backups then At(t0, x) else At(now, x)
  }

  ghost predicate Untouched(j: Job, t0: Tree, after: Tree) {
    forall x :: !IsScratch(j.host, j.entries, x) ==> At(after, x) == At(t0, x)
  }

  method RevertOrFail(tree: WorkTree, j: Job, backups: map<string, Option<string>>, ghost t0: Tree) returns (ending: Ending)
    requires ApplyAll(j.host, t0, j.entries, j.faults).backups == backups
    modifies tree
    ensures ending == Reverted || ending == RevertFailed
    ensures exists order :: IsOrderOf(backups, order) && (tree.files, ending == Reverted) == RevertAll(old(tree.files), backups, order, j.revert)
    ensures var st := ApplyAll(j.host, t0, j.entries, j.faults);
            ending == Reverted && Separate(j.host, j.entries) && BackupsIntact(st, old(tree.files)) ==>
              && Restored(j, t0, old(tree.files), tree.files)
              && (old(tree.files) == st.tree ==> Untouched(j, t0, tree.files))
  {
    ghost var st, now := ApplyAll(j.host, t0, j.entries, j.faults), tree.files;
    var ok;
    ghost var order;
    ok, order := RevertPatch(tree, backups, j.revert);
    if ok && Separate(j.host, j.entries) && BackupsIntact(st, now) {
      forall x | !IsScratch(j.host, j.entries, x)
        ensures At(tree.files, x) == (if x in st.backups then At(t0, x) else At(now, x)) && (now == st.tree ==> At(tree.files, x) == At(t0, x))
      {
        RevertUndoesApply(j.host, t0, j.entries, j.faults, now, order, j.revert, x);
      }
    }
    return if ok then Reverted else RevertFailed;
  }

  method ReadCommitFiles(tree: WorkTree, j: Job) returns (r: Result<seq<CommitFile>>)
    ensures r.Ok? ==> r.value == CommitFiles(j.host, tree.files, j.entries)
    ensures r.Err? <==> exists i :: 0 <= i < |j.entries| && j.unreadable(j.entries[i].path)
  {
    var files: seq<CommitFile> := [];
    for i := 0 to |j.entries|
      invariant forall k :: 0 <= k < i ==> !j.unreadable(j.entries[k].path)
      invariant files == CommitFiles(j.host, tree.files, j.entries)[..i]
    {
      var e := j.entries[i];
      if j.unreadable(e.path) {
        return Err;
      }
      files := files + [CommitFile(e.path, At(tree.files, j.host.clean(e.path)))];
    }
    return Ok(files);
  }

  /** The tree validation leaves behind; the two early exits never validate. */
  function AfterValidation(j: Job, t0: Tree): Tree {
    var st := ApplyAll(j.host, t0, j.entries, j.faults);
    if st.failed || j.backend == NoBackend then st.tree else j.validate(st.tree)
  }

  /**
   `runAutoFix`. The log lists every GitHub call. A run that logs anything applied every
   entry, passed validation on an allowed backend and has a base branch; a run that says
   it reverted restored what it patched; a commit holds the validated tree's contents. The
   two exits between validation and the first call leave the validated tree as it is.
   */
  method RunAutoFix(tree: WorkTree, j: Job) returns (log: seq<Call>, ending: Ending)
    modifies tree
    ensures log != [] ==>
              && !ApplyAll(j.host, old(tree.files), j.entries, j.faults).failed
              && j.backend != NoBackend && j.verdict == Passes && !Blank(j.base)
    ensures var st, now := ApplyAll(j.host, old(tree.files), j.entries, j.faults), AfterValidation(j, old(tree.files));
            ending == Reverted ==>
              && log == []
              && (Separate(j.host, j.entries) && BackupsIntact(st, now) ==> Restored(j, old(tree.files), now, tree.files))
              && (Separate(j.host, j.entries) && now == st.tree ==> Untouched(j, old(tree.files), tree.files))
    ensures EndsAs(j, old(tree.files), log, ending)
    ensures log != [] ==> exists files :: CarriesTree(j.host, tree.files, j.entries, files) && RemoteStands(j, files, log, ending)
    ensures ending == Reverted || ending == RevertFailed ==>
              exists order ::
                && IsOrderOf(ApplyAll(j.host, old(tree.files), j.entries, j.faults).backups, order)
                && (tree.files, ending == Reverted) ==
                   RevertAll(AfterValidation(j, old(tree.files)), ApplyAll(j.host, old(tree.files), j.entries, j.faults).backups, order, j.revert)
    ensures log != [] || ending == NoBase || ending == Unreadable ==>
              var st := ApplyAll(j.host, old(tree.files), j.entries, j.faults);
              tree.files == Cleanup(j.validate(st.tree), st.backups, j.revert)
  {
    ghost var t0 := tree.files;
    var backups, failed := ApplyPatch(tree, j.host, j.entries, j.faults);
    log := [];
    if failed || j.backend == NoBackend {
      ending := RevertOrFail(tree, j, backups, t0);
      return;
    }
    tree.files := j.validate(tree.files);
    if j.verdict != Passes {
      ending := RevertOrFail(tree, j, backups, t0);
      return;
    }
    tree.files := Cleanup(tree.files, backups, j.revert);
    if Blank(j.base) {
      return [], NoBase;
    }
    var files := ReadCommitFiles(tree, j);
    if files.Err? {
      return [], Unreadable;
    }
    var (calls, end) := Remote(j, files.value);
    RemoteIsAsStated(j, tree.files, files.value);
    return calls, end;
  }

  /** If validation left the tree alone, the commit carries exactly each entry's patch of the original file. */
  lemma CommitCarriesThePatches(j: Job, t0: Tree, i: nat)
    requires Separate(j.host, j.entries) && i < |j.entries|
    requires var st := ApplyAll(j.host, t0, j.entries, j.faults); !st.failed && j.validate(st.tree) == st.tree
    ensures var st := ApplyAll(j.host, t0, j.entries, j.faults);
            CommitFiles(j.host, Cleanup(j.validate(st.tree), st.backups, j.revert), j.entries)[i] ==
            CommitFile(j.entries[i].path, Patched(t0, Target(j.host, j.entries[i]), j.entries[i].edit))
  {
    var st := ApplyAll(j.host, t0, j.entries, j.faults);
    ApplyWritesPatches(j.host, t0, j.entries, j.faults, i);
    CleanupKeepsTargets(j.host, t0, j.entries, j.faults, st.tree, j.revert, i);
  }

  /**
   A `.bak.old` file patched before the file it belongs to: both patches land, the second
   backup deletes the first file, and the commit records it as deleted.
   */
  lemma OldTargetIsCommittedAsDeleted(h: Host, a: string, b: string)
    requires h.clean(b) == Old(h.clean(a)) && !h.litter(h.clean(a), h.clean(a))
    requires !h.litter(h.clean(b), h.clean(b)) && !h.litter(h.clean(b), h.clean(a))
    ensures var p, x, es := h.clean(a), h.clean(b), [FileEntry(b, Replaces("B", "2")), FileEntry(a, Replaces("0", "1"))];
            var t0: Tree := map[p := "0", x := "B"];
            var st := ApplyAll(h, t0, es, NO_FAULTS);
            && Selected([Fixing(es)]) == es && !st.failed
            && Patched(t0, x, es[0].edit) == Some("2")
            && CommitFiles(h, Cleanup(st.tree, st.backups, NO_REVERT_FAULTS), es)[0] == CommitFile(b, None)
  {
    var p, x := h.clean(a), h.clean(b);
    var t0: Tree := map[p := "0", x := "B"];
    var e, f := FileEntry(b, Replaces("B", "2")), FileEntry(a, Replaces("0", "1"));
    OldNames(p, x);
    OldNames(x, x);
    BakNames(x, x);
    assert |Old(x)| > |p|;
    SelectsTwo(e, f);
    var t1 := Cleared(h, t0, x)[Bak(x) := "B"][x := "2"];
    assert p in Cleared(h, t0, x) && p != Bak(x);
    ApplyTwo(h, t0, e, f, t1, "B", "2", "0", "1");
    var t2 := Cleared(h, t1, p)[Bak(p) := "0"][p := "1"];
    OldNames(p, p);
    assert x !in t2;
  }
}
