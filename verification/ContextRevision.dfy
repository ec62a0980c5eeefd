/**
 Reversible updates of the shared company context. The inventory of a directory maps each file
 name to the digest of its content; digests are injective, so here it maps to the content. A file
 is written beside its place under a temporary name and then renamed, so a process that dies
 leaves whole files behind, and perhaps one temporary file.
 */
module ContextRevision {
  import opened Wrappers

  type Name = string
  type Content = string
  type Files = map<Name, Content>

  datatype Doc = Doc(name: Name, content: Content)
  datatype Receipt = Receipt(root: string, before: Files, after: Files, changes: seq<Name>)
  datatype Revision = Revision(receipt: Receipt, backup: Files)
  datatype Plan = Plan(root: string, before: Files, proposed: seq<Doc>)

  datatype Outcome = Planned(changes: seq<Name>) | Unchanged | Verified | Interrupted(writes: nat) | Refused(reason: string)

  /** Whether the process dies: after so many writes, and inside the next one if it leaves a temporary file. */
  datatype Fate = Lives | Dies(writes: nat, torn: Option<Doc>)

  function Get(files: Files, name: Name): Option<Content> {
    if name in files then Some(files[name]) else None
  }

  predicate EndsWith(s: string, suffix: string) {
    |s| >= |suffix| && s[|s| - |suffix|..] == suffix
  }

  /** Markdown documents only, never the permissions file, each once. */
  predicate BundleAcceptable(proposed: seq<Doc>) {
    && 1 <= |proposed| <= 128
    && (forall d :: d in proposed ==> EndsWith(d.name, ".md") && d.name != "PERMISSIONS.md" && !EndsWith(d.name, "/PERMISSIONS.md"))
    && (forall i, j :: 0 <= i < j < |proposed| ==> proposed[i].name != proposed[j].name)
  }

  function Merged(before: Files, proposed: seq<Doc>): Files {
    if proposed == [] then before
    else Merged(before, proposed[..|proposed| - 1])[proposed[|proposed| - 1].name := proposed[|proposed| - 1].content]
  }

  function Changes(before: Files, proposed: seq<Doc>): seq<Name> {
    if proposed == [] then []
    else
      var d := proposed[|proposed| - 1];
      Changes(before, proposed[..|proposed| - 1]) + if Get(before, d.name) == Some(d.content) then [] else [d.name]
  }

  // ---------------------------------------------------------------- writes, and how far they got

  /** After the first `n` replacements of an update. */
  function Updated(files: Files, r: Receipt, n: nat): Files
    requires n <= |r.changes| && forall c :: c in r.changes ==> c in r.after
  {
    if n == 0 then files else Updated(files, r, n - 1)[r.changes[n - 1] := r.after[r.changes[n - 1]]]
  }

  /** What a write leaves that dies before it renames its temporary file. */
  function Left(files: Files, torn: Option<Doc>): Files {
    if torn.None? then files else files[torn.value.name := torn.value.content]
  }

  function Restored(files: Files, r: Receipt, name: Name): Files {
    if name in r.before then files[name := r.before[name]] else files - {name}
  }

  /** After the first `n` restorations of a rollback, which goes through the changes backwards. */
  function RolledBack(files: Files, r: Receipt, n: nat): Files
    requires n <= |r.changes|
  {
    if n == 0 then files else Restored(RolledBack(files, r, n - 1), r, r.changes[|r.changes| - n])
  }

  /** A receipt as an update writes it. */
  ghost predicate Sound(r: Receipt) {
    && r.before.Keys <= r.after.Keys
    && (forall c :: c in r.changes ==> c in r.after)
    && (forall n :: n in r.after && n !in r.changes ==> Get(r.before, n) == Some(r.after[n]))
  }

  /** What a rollback accepts: no file but the update's own, each as it was before or as it was after. */
  predicate Recoverable(files: Files, r: Receipt) {
    && files.Keys <= r.after.Keys
    && forall n :: n in r.after ==> Get(files, n) == Get(r.before, n) || Get(files, n) == Some(r.after[n])
  }

  // One run of either program on a revision, dead after some number of its writes or inside the
  // next one; or an operator removes a file.
  datatype Attempt =
    | UpdateRun(writes: nat, torn: Option<Doc>)
    | RollbackRun(writes: nat, torn: Option<Doc>)
    | Cleanup(name: Name)

  /** Temporary names are new, and only files that are none of the revision's are removed. */
  predicate Foreign(r: Receipt, a: Attempt) {
    match a
    case Cleanup(name) => name !in r.after
    case _ => a.torn.Some? ==> a.torn.value.name !in r.after
  }

  predicate ForeignNames(r: Receipt, attempts: seq<Attempt>) {
    forall a :: a in attempts ==> Foreign(r, a)
  }

  function Capped(n: nat, r: Receipt): nat {
    if n < |r.changes| then n else |r.changes|
  }

  /** The attempt runs, and dies inside a write: restoring a file that was not there before writes nothing. */
  predicate Torn(files: Files, r: Receipt, a: Attempt) {
    match a
    case UpdateRun(n, torn) => torn.Some? && n < |r.changes| && files == r.before
    case RollbackRun(n, torn) =>
      torn.Some? && n < |r.changes| && Recoverable(files, r) && r.changes[|r.changes| - 1 - n] in r.before
    case Cleanup(_) => false
  }

  predicate TornOver(files: Files, r: Receipt, a: Attempt, name: Name) {
    Torn(files, r, a) && a.torn.value.name == name
  }

  /** A rollback only runs where it is accepted; an update only runs from the state it planned for. */
  function Progress(files: Files, r: Receipt, a: Attempt): Files
    requires forall c :: c in r.changes ==> c in r.after
  {
    match a
    case UpdateRun(n, _) => if files == r.before then Updated(files, r, Capped(n, r)) else files
    case RollbackRun(n, _) => if Recoverable(files, r) then RolledBack(files, r, Capped(n, r)) else files
    case Cleanup(_) => files
  }

  function After(files: Files, r: Receipt, a: Attempt): Files
    requires forall c :: c in r.changes ==> c in r.after
  {
    if a.Cleanup? then files - {a.name}
    else if Torn(files, r, a) then Left(Progress(files, r, a), a.torn)
    else Progress(files, r, a)
  }

  function AfterAll(files: Files, r: Receipt, attempts: seq<Attempt>): Files
    requires forall c :: c in r.changes ==> c in r.after
  {
    if attempts == [] then files else After(AfterAll(files, r, attempts[..|attempts| - 1]), r, attempts[|attempts| - 1])
  }

  function Leftovers(files: Files, r: Receipt): set<Name> {
    files.Keys - r.after.Keys
  }

  /** Nothing stops the writes of an update. */
  ghost predicate Undisturbed(r: Receipt, source: Files, fate: Fate) {
    && (fate.Dies? ==> fate.writes >= |r.changes|)
    && (forall c :: c in r.changes ==> c in r.after && Get(source, c) == Some(r.after[c]))
  }

  /** An update that stopped after `n` writes, why, and what it left: a death, or a document no longer as reviewed. */
  ghost predicate Halted(files: Files, r: Receipt, source: Files, fate: Fate, n: nat, result: Files) {
    && files == r.before && n < |r.changes| && (forall c :: c in r.changes ==> c in r.after)
    && ((fate.Dies? && fate.writes == n && result == After(files, r, UpdateRun(n, fate.torn)))
        || (Get(source, r.changes[n]) != Some(r.after[r.changes[n]]) && result == After(files, r, UpdateRun(n, None))))
  }

  // ---------------------------------------------------------------- what a plan and a stop come to, name by name

  /** The last document of this name in the bundle. */
  predicate LastOfName(proposed: seq<Doc>, i: nat) {
    i < |proposed| && forall j :: i < j < |proposed| ==> proposed[j].name != proposed[i].name
  }

  /** Each name has its last document's content, and every other name what it had. */
  ghost predicate MergedAs(before: Files, proposed: seq<Doc>, after: Files) {
    && (forall i: nat :: LastOfName(proposed, i) ==> Get(after, proposed[i].name) == Some(proposed[i].content))
    && (forall n :: (forall i :: 0 <= i < |proposed| ==> proposed[i].name != n) ==> Get(after, n) == Get(before, n))
  }

  /** The names of the documents that are new or different, in their order. */
  ghost predicate ChangesAt(before: Files, proposed: seq<Doc>, changes: seq<Name>, picks: seq<nat>) {
    && |picks| == |changes|
    && (forall j :: 0 <= j < |picks| ==> picks[j] < |proposed| && changes[j] == proposed[picks[j]].name)
    && (forall j, k :: 0 <= j < k < |picks| ==> picks[j] < picks[k])
    && (forall i :: 0 <= i < |proposed| ==> (i in picks <==> !(proposed[i].name in before && before[proposed[i].name] == proposed[i].content)))
  }

  lemma {:induction false} MergeEffect(before: Files, proposed: seq<Doc>)
    ensures MergedAs(before, proposed, Merged(before, proposed))
  {
    if proposed != [] {
      var n := |proposed| - 1;
      MergeEffect(before, proposed[..n]);
      forall i: nat | LastOfName(proposed, i) ensures Get(Merged(before, proposed), proposed[i].name) == Some(proposed[i].content) {
        if i < n { assert LastOfName(proposed[..n], i) && proposed[n].name != proposed[i].name; }
      }
      forall m: Name | forall i :: 0 <= i < |proposed| ==> proposed[i].name != m ensures Get(Merged(before, proposed), m) == Get(before, m) {
        assert forall i :: 0 <= i < n ==> proposed[..n][i].name != m;
      }
    }
  }

  lemma {:induction false} ChangesEffect(before: Files, proposed: seq<Doc>) returns (picks: seq<nat>)
    ensures ChangesAt(before, proposed, Changes(before, proposed), picks)
  {
    hide ChangesAt;
    if proposed == [] {
      picks := [];
      NoChanges(before);
    } else {
      var n := |proposed| - 1;
      picks := ChangesEffect(before, proposed[..n]);
      OneMoreChange(before, proposed, Changes(before, proposed[..n]), picks);
      if Get(before, proposed[n].name) != Some(proposed[n].content) {
        picks := picks + [n];
      } else {
        assert Changes(before, proposed[..n]) + [] == Changes(before, proposed[..n]);
      }
    }
  }

  lemma {:induction false} NoChanges(before: Files)
    ensures ChangesAt(before, [], Changes(before, []), [])
  {
  }

  lemma OneMoreChange(before: Files, proposed: seq<Doc>, changes: seq<Name>, picks: seq<nat>)
    requires proposed != [] && ChangesAt(before, proposed[..|proposed| - 1], changes, picks)
    ensures var n := |proposed| - 1;
      if Get(before, proposed[n].name) == Some(proposed[n].content) then ChangesAt(before, proposed, changes, picks)
      else ChangesAt(before, proposed, changes + [proposed[n].name], picks + [n])
  {
    var n := |proposed| - 1;
    assert n !in picks;
    forall i | 0 <= i < n
      ensures proposed[i] == proposed[..n][i] && (i in picks <==> !(proposed[i].name in before && before[proposed[i].name] == proposed[i].content))
    {
    }
  }

  lemma {:induction false} NothingChanges(before: Files, proposed: seq<Doc>, picks: seq<nat>)
    requires ChangesAt(before, proposed, Changes(before, proposed), picks)
    ensures Changes(before, proposed) == [] <==> forall i :: 0 <= i < |proposed| ==> Get(before, proposed[i].name) == Some(proposed[i].content)
  {
    if picks != [] { assert picks[0] in picks; }
  }

  /** The first `n` files are as planned and the others as before, beside a temporary file if one was left. */
  ghost predicate WrittenSoFar(before: Files, r: Receipt, n: nat, torn: Option<Doc>, files: Files)
    requires n <= |r.changes| && forall c :: c in r.changes ==> c in r.after
  {
    forall m: Name :: Get(files, m) == if torn.Some? && torn.value.name == m then Some(torn.value.content)
                                       else if m in r.changes[..n] then Some(r.after[m])
                                       else Get(before, m)
  }

  lemma {:induction false} UpdatedByName(r: Receipt, n: nat, torn: Option<Doc>)
    requires Sound(r) && n <= |r.changes|
    ensures WrittenSoFar(r.before, r, n, torn, Left(Updated(r.before, r, n), torn))
  {
    hide Updated;
    forall m: Name ensures Get(Updated(r.before, r, n), m) == if m in r.changes[..n] then Some(r.after[m]) else Get(r.before, m) {
      UpdatedSoFar(r.before, r, n, m);
    }
  }

  /** The last `n` files are as before the update and the others as they were found, beside a temporary file if one was left. */
  ghost predicate RestoredSoFar(found: Files, r: Receipt, n: nat, torn: Option<Doc>, files: Files)
    requires n <= |r.changes|
  {
    forall m: Name :: Get(files, m) == if torn.Some? && torn.value.name == m then Some(torn.value.content)
                                       else if m in r.changes[|r.changes| - n..] then Get(r.before, m)
                                       else Get(found, m)
  }

  lemma {:induction false} RolledBackByName(found: Files, r: Receipt, n: nat, torn: Option<Doc>)
    requires n <= |r.changes|
    ensures RestoredSoFar(found, r, n, torn, Left(RolledBack(found, r, n), torn))
  {
    hide RolledBack;
    forall m: Name ensures Get(RolledBack(found, r, n), m) == if m in r.changes[|r.changes| - n..] then Get(r.before, m) else Get(found, m) {
      RolledBackSoFar(found, r, n, m);
    }
  }

  // ---------------------------------------------------------------- the program

  class Context {
    const root: string
    var files: Files
    var revisions: map<string, Revision>

    constructor (root: string, files: Files)
      ensures this.root == root && this.files == files && revisions == map[]
    {
      this.root, this.files, this.revisions := root, files, map[];
    }

    /** The names that change, and the inventory expected afterwards. */
    static method PlanChanges(before: Files, proposed: seq<Doc>) returns (changes: seq<Name>, after: Files)
      ensures changes == Changes(before, proposed) && after == Merged(before, proposed)
      ensures MergedAs(before, proposed, after) && exists picks :: ChangesAt(before, proposed, changes, picks)
    {
      hide MergedAs, ChangesAt;
      MergeEffect(before, proposed);
      ghost var picks := ChangesEffect(before, proposed);
      changes, after := [], before;
      for i := 0 to |proposed|
        invariant changes == Changes(before, proposed[..i]) && after == Merged(before, proposed[..i])
      {
        assert proposed[..i + 1][..i] == proposed[..i];
        if Get(before, proposed[i].name) != Some(proposed[i].content) { changes := changes + [proposed[i].name]; }
        after := after[proposed[i].name := proposed[i].content];
      }
      assert proposed[..|proposed|] == proposed;
    }

    /**
     A dry run, or an update of exactly the plan that was reviewed. Backup and receipt are there
     before the first write. `same` tells whether the bundle as it is read again then is still the one
     planned for, and `source` what it holds when its files are read for writing.
     */
    method Update(proposed: seq<Doc>, apply: bool, expected: Option<Plan>, revision: string, same: bool,
                  source: Files, fate: Fate) returns (o: Outcome)
      requires revision !in revisions
      modifies this
      ensures o == Refused("bundle") <==> !BundleAcceptable(proposed)
      ensures o != Refused("bundle") <==>
        && 1 <= |proposed| <= 128
        && (forall i :: 0 <= i < |proposed| ==>
              && EndsWith(proposed[i].name, ".md") && proposed[i].name != "PERMISSIONS.md" && !EndsWith(proposed[i].name, "/PERMISSIONS.md")
              && LastOfName(proposed, i))
      ensures o == Refused("plan") <==> BundleAcceptable(proposed) && apply && expected != Some(Plan(root, old(files), proposed))
      ensures o.Refused? ==> o == Refused("bundle") || o == Refused("plan")
      ensures o.Planned? <==> BundleAcceptable(proposed) && !apply
      ensures o.Planned? ==> o.changes == Changes(files, proposed)
      ensures o.Unchanged? ==> Merged(files, proposed) == files
      ensures o.Refused? || o.Planned? || o.Unchanged? ==> files == old(files) && revisions == old(revisions)
      ensures o.Verified? || o.Interrupted? ==>
        && revision in revisions && revisions == old(revisions)[revision := revisions[revision]]
        && revisions[revision] == Revision(Receipt(root, old(files), Merged(old(files), proposed), Changes(old(files), proposed)), old(files))
        && Sound(revisions[revision].receipt)
      ensures o.Verified? ==> files == Merged(old(files), proposed)
      ensures o.Unchanged? <==>
        && BundleAcceptable(proposed) && apply && expected == Some(Plan(root, old(files), proposed))
        && forall i :: 0 <= i < |proposed| ==> Get(old(files), proposed[i].name) == Some(proposed[i].content)
      ensures o.Verified? ==> MergedAs(old(files), proposed, files)
      ensures BundleAcceptable(proposed) && apply && expected == Some(Plan(root, old(files), proposed)) && same
              && Undisturbed(Receipt(root, old(files), Merged(old(files), proposed), Changes(old(files), proposed)), source, fate)
              ==> o.Verified? || o.Unchanged?
      ensures o.Verified? ==> same && Undisturbed(revisions[revision].receipt, source, fate)
      ensures o.Interrupted? ==> if same then Halted(old(files), revisions[revision].receipt, source, fate, o.writes, files)
                                 else o.writes == 0 && files == old(files)
    {
      hide EndsWith, Merged, Changes, Updated, Undisturbed, MergedAs, ChangesAt;
      if !BundleAcceptable(proposed) { return Refused("bundle"); }
      var changes, after := PlanChanges(files, proposed);
      if !apply { return Planned(changes); }
      if expected != Some(Plan(root, files, proposed)) { return Refused("plan"); }
      ghost var picks :| ChangesAt(files, proposed, changes, picks);
      NothingChanges(files, proposed, picks);
      var receipt := Receipt(root, files, after, changes);
      PlanSound(receipt, proposed);
      if changes == [] { return Unchanged; }
      revisions := revisions[revision := Revision(receipt, files)];
      if !same { return Interrupted(0); }
      o := WriteChanges(receipt, source, fate);
    }

    /** Stops where the process dies, or at the first document that is no longer what was reviewed. */
    method WriteChanges(receipt: Receipt, source: Files, fate: Fate) returns (o: Outcome)
      requires Sound(receipt) && receipt.before == files
      modifies this`files
      ensures o.Verified? || o.Interrupted?
      ensures o.Verified? <==> Undisturbed(receipt, source, fate)
      ensures o.Verified? ==> files == receipt.after
      ensures o.Interrupted? ==> Halted(old(files), receipt, source, fate, o.writes, files)
      // The first files are as planned, the others as before; a death inside a write leaves its temporary file.
      ensures o.Interrupted? ==>
        WrittenSoFar(old(files), receipt, o.writes,
                     if fate.Dies? && fate.writes == o.writes && Get(source, receipt.changes[o.writes]) == Some(receipt.after[receipt.changes[o.writes]])
                     then fate.torn else None, files)
    {
      hide WrittenSoFar;
      for i := 0 to |receipt.changes|
        invariant files == Updated(receipt.before, receipt, i)
        invariant fate.Dies? ==> i <= fate.writes
        invariant forall j :: 0 <= j < i ==> Get(source, receipt.changes[j]) == Some(receipt.after[receipt.changes[j]])
      {
        var name := receipt.changes[i];
        UpdatedByName(receipt, i, None);
        if fate.Dies? { UpdatedByName(receipt, i, fate.torn); }
        if fate == Dies(i, None) { return Interrupted(i); }
        if Get(source, name) != Some(receipt.after[name]) { return Interrupted(i); }
        if fate.Dies? && fate.writes == i {
          files := files[fate.torn.value.name := fate.torn.value.content];
          return Interrupted(i);
        }
        files := files[name := source[name]];
      }
      FullyUpdated(receipt);
      return Verified;
    }

    /** A rollback checks everything before it writes, and reads everything back at the end. */
    method Rollback(revision: string, apply: bool, fate: Fate) returns (o: Outcome)
      requires revision in revisions
      modifies this`files
      ensures var v := revisions[revision];
        var accepted := v.backup == v.receipt.before && v.receipt.root == root && Recoverable(old(files), v.receipt);
        && (o == Refused("backup") || o == Refused("conflict") <==> !accepted)
        && (!accepted || !apply ==> files == old(files))
        && (accepted && !apply ==> o == Planned(v.receipt.changes))
        && (o.Interrupted? ==> fate.Dies? && o.writes == fate.writes < |v.receipt.changes|
                               && files == Left(RolledBack(old(files), v.receipt, o.writes),
                                                if Torn(old(files), v.receipt, RollbackRun(o.writes, fate.torn)) then fate.torn else None))
        && (o.Verified? ==> files == v.receipt.before)
        && (accepted && apply && fate.Lives? && Sound(v.receipt) ==> o.Verified?)
      ensures var v := revisions[revision];
        o == Refused("backup") || o == Refused("conflict") <==>
          || v.backup != v.receipt.before || v.receipt.root != root
          || (exists n :: n in old(files) && n !in v.receipt.after)
          || (exists n :: n in v.receipt.after && Get(old(files), n) != Get(v.receipt.before, n) && Get(old(files), n) != Some(v.receipt.after[n]))
      // The last files are as they were before the update, the others as they were found.
      ensures o.Interrupted? ==>
        var r := revisions[revision].receipt;
        && o.writes < |r.changes|
        && RestoredSoFar(old(files), r, o.writes, if r.changes[|r.changes| - 1 - o.writes] in r.before then fate.torn else None, files)
    {
      hide RestoredSoFar;
      var v := revisions[revision];
      var r := v.receipt;
      if v.backup != r.before { return Refused("backup"); }
      if r.root != root || !Recoverable(files, r) { return Refused("conflict"); }
      if !apply { return Planned(r.changes); }
      ghost var start := files;
      var i := 0;
      while i < |r.changes|
        invariant 0 <= i <= |r.changes| && files == RolledBack(start, r, i)
        invariant fate.Dies? ==> i <= fate.writes
      {
        var name := r.changes[|r.changes| - 1 - i];
        RolledBackByName(start, r, i, None);
        if fate.Dies? { RolledBackByName(start, r, i, fate.torn); }
        if fate.Dies? && fate.writes == i {
          if fate.torn.Some? && name in r.before { files := files[fate.torn.value.name := fate.torn.value.content]; }
          return Interrupted(i);
        }
        if name in r.before { files := files[name := v.backup[name]]; } else { files := files - {name}; }
        i := i + 1;
      }
      if Sound(r) { RollbackRestores(start, r); }
      if files != r.before { return Refused("readback"); }
      return Verified;
    }
  }

  // ---------------------------------------------------------------- what a plan promises

  lemma {:induction false} MergeByName(before: Files, proposed: seq<Doc>, n: Name)
    ensures n in before || n in Changes(before, proposed) ==> n in Merged(before, proposed)
    ensures n in Merged(before, proposed) && n !in Changes(before, proposed) ==> Get(before, n) == Some(Merged(before, proposed)[n])
  {
    if proposed != [] {
      MergeByName(before, proposed[..|proposed| - 1], n);
    }
  }

  /** The receipt of a plan names every file that will differ, and only files the update leaves behind. */
  lemma {:induction false} PlanSound(r: Receipt, proposed: seq<Doc>)
    requires r.after == Merged(r.before, proposed) && r.changes == Changes(r.before, proposed)
    ensures Sound(r)
    ensures r.changes == [] ==> r.after == r.before
  {
    hide Merged, Changes;
    forall n: Name ensures (n in r.before || n in r.changes ==> n in r.after)
                           && (n in r.after && n !in r.changes ==> Get(r.before, n) == Some(r.after[n])) {
      MergeByName(r.before, proposed, n);
    }
    if r.changes == [] { SameFiles(r.after, r.before); }
  }

  // ---------------------------------------------------------------- stopping anywhere, and going back

  lemma {:induction false} UpdateRecoverable(files: Files, r: Receipt, n: nat)
    requires Sound(r) && Recoverable(files, r) && n <= |r.changes|
    ensures Recoverable(Updated(files, r, n), r)
  {
    if n > 0 {
      UpdateRecoverable(files, r, n - 1);
    }
  }

  lemma {:induction false} RollbackRecoverable(files: Files, r: Receipt, n: nat)
    requires Sound(r) && Recoverable(files, r) && n <= |r.changes|
    ensures Recoverable(RolledBack(files, r, n), r)
  {
    if n > 0 {
      RollbackRecoverable(files, r, n - 1);
    }
  }

  lemma RestoredAt(files: Files, r: Receipt, restored: Name, name: Name)
    ensures Get(Restored(files, r, restored), name) == if name == restored then Get(r.before, name) else Get(files, name)
  {
  }

  /** After `n` restorations, the last `n` changed names are as they were before. */
  lemma {:induction false} RolledBackSoFar(files: Files, r: Receipt, n: nat, name: Name)
    requires n <= |r.changes|
    ensures name in r.changes[|r.changes| - n..] ==> Get(RolledBack(files, r, n), name) == Get(r.before, name)
    ensures name !in r.changes[|r.changes| - n..] ==> Get(RolledBack(files, r, n), name) == Get(files, name)
  {
    hide Restored, Get;
    if n > 0 {
      var k := |r.changes| - n;
      RolledBackSoFar(files, r, n - 1, name);
      assert r.changes[k..] == [r.changes[k]] + r.changes[k + 1..];
      RestoredAt(RolledBack(files, r, n - 1), r, r.changes[k], name);
    }
  }

  lemma SameFiles(a: Files, b: Files)
    requires forall n: Name :: Get(a, n) == Get(b, n)
    ensures a == b
  {
    forall n: Name ensures n in a <==> n in b {
      assert Get(a, n) == Get(b, n);
    }
    forall n: Name | n in a ensures a[n] == b[n] {
      assert Get(a, n) == Get(b, n);
    }
  }

  /** From any state it accepts, a rollback that is not interrupted ends with the files as they were before. */
  lemma {:induction false} RollbackRestores(files: Files, r: Receipt)
    requires Sound(r) && Recoverable(files, r)
    ensures RolledBack(files, r, |r.changes|) == r.before
  {
    var done := RolledBack(files, r, |r.changes|);
    forall n: Name ensures Get(done, n) == Get(r.before, n) {
      RolledBackSoFar(files, r, |r.changes|, n);
      assert r.changes[0..] == r.changes;
    }
    SameFiles(done, r.before);
  }

  lemma {:induction false} UpdatedSoFar(files: Files, r: Receipt, n: nat, name: Name)
    requires Sound(r) && n <= |r.changes|
    ensures Get(Updated(files, r, n), name) == if name in r.changes[..n] then Some(r.after[name]) else Get(files, name)
  {
    if n > 0 {
      UpdatedSoFar(files, r, n - 1, name);
      assert r.changes[..n] == r.changes[..n - 1] + [r.changes[n - 1]];
    }
  }

  lemma {:induction false} FullyUpdated(r: Receipt)
    requires Sound(r)
    ensures Updated(r.before, r, |r.changes|) == r.after
  {
    var done := Updated(r.before, r, |r.changes|);
    forall n: Name ensures Get(done, n) == Get(r.after, n) {
      UpdatedSoFar(r.before, r, |r.changes|, n);
      assert r.changes[..|r.changes|] == r.changes;
    }
    SameFiles(done, r.after);
  }

  // ---------------------------------------------------------------- any number of attempts

  /** No update runs over a temporary file, and no rollback: it has to be removed first. */
  lemma {:induction false} OneLeftover(r: Receipt, attempts: seq<Attempt>)
    requires Sound(r) && ForeignNames(r, attempts)
    ensures var files := AfterAll(r.before, r, attempts);
      Recoverable(files - Leftovers(files, r), r) && |Leftovers(files, r)| <= 1
  {
    hide Leftovers, Recoverable, After;
    if attempts == [] {
      StartRecoverable(r);
      NoLeftovers(r.before, r);
    } else {
      var last := attempts[|attempts| - 1];
      var so := AfterAll(r.before, r, attempts[..|attempts| - 1]);
      OneLeftover(r, attempts[..|attempts| - 1]);
      AttemptKeeps(so, r, last);
    }
  }

  lemma StartRecoverable(r: Receipt)
    requires Sound(r)
    ensures Recoverable(r.before, r)
  {
  }

  lemma AttemptKeeps(files: Files, r: Receipt, a: Attempt)
    requires Sound(r) && Foreign(r, a)
    requires Recoverable(files - Leftovers(files, r), r) && |Leftovers(files, r)| <= 1
    ensures var u := After(files, r, a);
      Recoverable(u - Leftovers(u, r), r) && |Leftovers(u, r)| <= 1
  {
    hide Leftovers, Recoverable;
    if a.Cleanup? {
      RemovalLeaves(files, r, a.name);
    } else if Recoverable(files, r) {
      AttemptLeaves(files, r, a);
    } else {
      NothingRuns(files, r, a);
    }
  }

  lemma NothingRuns(files: Files, r: Receipt, a: Attempt)
    requires Sound(r) && !Recoverable(files, r) && !a.Cleanup?
    ensures !Torn(files, r, a) && After(files, r, a) == files
  {
    hide Updated, RolledBack, Recoverable;
    StartRecoverable(r);
  }

  lemma RemovalLeaves(files: Files, r: Receipt, name: Name)
    requires name !in r.after
    ensures var u := files - {name};
      Leftovers(u, r) == Leftovers(files, r) - {name} && u - Leftovers(u, r) == files - Leftovers(files, r)
  {
    var u := files - {name};
    assert Leftovers(u, r) == Leftovers(files, r) - {name};
    forall n: Name ensures Get(u - Leftovers(u, r), n) == Get(files - Leftovers(files, r), n) {
    }
    SameFiles(u - Leftovers(u, r), files - Leftovers(files, r));
  }

  lemma NoLeftovers(files: Files, r: Receipt)
    ensures Leftovers(files, r) == {} ==> files - Leftovers(files, r) == files
    ensures Recoverable(files, r) ==> Leftovers(files, r) == {}
  {
    if Leftovers(files, r) == {} { assert files - {} == files; }
  }

  /** From a recoverable state, an attempt leaves a recoverable state and what a torn write left beside it. */
  lemma AttemptLeaves(files: Files, r: Receipt, a: Attempt)
    requires Sound(r) && Recoverable(files, r) && Foreign(r, a) && !a.Cleanup?
    ensures var u := After(files, r, a);
      && Leftovers(u, r) == (if Torn(files, r, a) then {a.torn.value.name} else {})
      && Recoverable(u - Leftovers(u, r), r)
  {
    hide Progress;
    var written := Progress(files, r, a);
    ProgressRecoverable(files, r, a);
    if Torn(files, r, a) { TornLeaves(written, r, a.torn.value); } else { NoLeftovers(written, r); }
  }

  lemma TornLeaves(files: Files, r: Receipt, temporary: Doc)
    requires Recoverable(files, r) && temporary.name !in r.after
    ensures var u := Left(files, Some(temporary));
      Leftovers(u, r) == {temporary.name} && u - Leftovers(u, r) == files
  {
    var u := Left(files, Some(temporary));
    assert Leftovers(u, r) == {temporary.name};
    forall n: Name ensures Get(u - {temporary.name}, n) == Get(files, n) {
    }
    SameFiles(u - {temporary.name}, files);
  }

  lemma ProgressRecoverable(files: Files, r: Receipt, a: Attempt)
    requires Sound(r) && Recoverable(files, r)
    ensures Recoverable(Progress(files, r, a), r)
  {
    hide Updated, RolledBack;
    match a
    case UpdateRun(n, _) => UpdateRecoverable(files, r, Capped(n, r));
    case RollbackRun(n, _) => RollbackRecoverable(files, r, Capped(n, r));
    case Cleanup(_) =>
  }

  /**
   Whatever mixture of updates, rollbacks, deaths between and inside writes, and removals of
   temporary files came before, a rollback is accepted exactly when no temporary file is left. At
   most one ever is; without it, a rollback that is not interrupted ends with exactly the files
   from before.
   */
  lemma {:induction false} CrashSafeRollback(r: Receipt, attempts: seq<Attempt>)
    requires Sound(r) && ForeignNames(r, attempts)
    ensures var files := AfterAll(r.before, r, attempts);
      var known := files - Leftovers(files, r);
      && (Recoverable(files, r) <==> Leftovers(files, r) == {})
      && |Leftovers(files, r)| <= 1
      && Recoverable(known, r)
      && RolledBack(known, r, |r.changes|) == r.before
  {
    hide RolledBack, After, Leftovers, Recoverable;
    var files := AfterAll(r.before, r, attempts);
    OneLeftover(r, attempts);
    NoLeftovers(files, r);
    RollbackRestores(files - Leftovers(files, r), r);
  }

  lemma {:induction false} OneMoreAttempt(r: Receipt, attempts: seq<Attempt>, a: Attempt)
    requires Sound(r)
    ensures AfterAll(r.before, r, attempts + [a]) == After(AfterAll(r.before, r, attempts), r, a)
  {
    hide After;
    assert (attempts + [a])[..|attempts|] == attempts;
  }

  /** It happens: the first write of any update dies half-way, and the rollback is refused until the file is removed. */
  lemma {:induction false} TornUpdateBlocks(r: Receipt, temporary: Doc)
    requires Sound(r) && r.changes != [] && temporary.name !in r.after
    ensures !Recoverable(AfterAll(r.before, r, [UpdateRun(0, Some(temporary))]), r)
    ensures Recoverable(AfterAll(r.before, r, [UpdateRun(0, Some(temporary)), Cleanup(temporary.name)]), r)
  {
    hide Recoverable, Left, Leftovers;
    var torn, removed := UpdateRun(0, Some(temporary)), Cleanup(temporary.name);
    assert [] + [torn] == [torn] && [torn] + [removed] == [torn, removed];
    OneMoreAttempt(r, [], torn);
    OneMoreAttempt(r, [torn], removed);
    StartRecoverable(r);
    var files := AfterAll(r.before, r, [torn]);
    assert After(r.before, r, torn) == Left(r.before, Some(temporary)) by { assert Updated(r.before, r, 0) == r.before; }
    assert files == Left(r.before, Some(temporary));
    TornLeaves(r.before, r, temporary);
    NoLeftovers(files, r);
    RemovalLeaves(files, r, temporary.name);
    var cleared := AfterAll(r.before, r, [torn, removed]);
    assert cleared == files - {temporary.name};
    NoLeftovers(cleared, r);
  }

  /** Attempt `i` died inside a write over the temporary `name`, and nobody has removed it since. */
  ghost predicate LeftBy(r: Receipt, attempts: seq<Attempt>, i: nat, name: Name)
    requires Sound(r) && i < |attempts|
  {
    && TornOver(AfterAll(r.before, r, attempts[..i]), r, attempts[i], name)
    && Cleanup(name) !in attempts[i + 1..]
  }

  /** A temporary file is there exactly when an attempt died inside a write and left it, and it was not removed. */
  lemma {:induction false} LeftoverExactly(r: Receipt, attempts: seq<Attempt>, name: Name)
    requires Sound(r) && ForeignNames(r, attempts)
    ensures name in Leftovers(AfterAll(r.before, r, attempts), r)
            <==> exists i: nat :: i < |attempts| && LeftBy(r, attempts, i, name)
  {
    hide Leftovers, Recoverable, After, TornOver;
    if attempts == [] {
      StartRecoverable(r);
      NoLeftovers(r.before, r);
    } else {
      var n := |attempts| - 1;
      LeftoverExactly(r, attempts[..n], name);
      LeftBefore(r, attempts, name);
      OneLeftover(r, attempts[..n]);
      LeftoverStep(AfterAll(r.before, r, attempts[..n]), r, attempts[n], name);
      assert LeftBy(r, attempts, n, name) <==> TornOver(AfterAll(r.before, r, attempts[..n]), r, attempts[n], name);
      assert forall i: nat :: i < n && LeftBy(r, attempts[..n], i, name) && attempts[n] != Cleanup(name) ==> LeftBy(r, attempts, i, name);
    }
  }

  lemma LeftoverStep(files: Files, r: Receipt, a: Attempt, name: Name)
    requires Sound(r) && Foreign(r, a) && Recoverable(files - Leftovers(files, r), r)
    ensures name in Leftovers(After(files, r, a), r)
            <==> TornOver(files, r, a, name) || (name in Leftovers(files, r) && a != Cleanup(name))
  {
    hide Leftovers, Recoverable;
    NoLeftovers(files, r);
    if a.Cleanup? {
      RemovalLeaves(files, r, a.name);
    } else if Recoverable(files, r) {
      AttemptLeaves(files, r, a);
    } else {
      NothingRuns(files, r, a);
    }
  }

  /** One more attempt keeps what the earlier ones left, unless it is the removal. */
  lemma LeftBefore(r: Receipt, attempts: seq<Attempt>, name: Name)
    requires Sound(r) && attempts != []
    ensures forall i: nat :: i < |attempts| - 1 ==>
      (LeftBy(r, attempts, i, name) <==> LeftBy(r, attempts[..|attempts| - 1], i, name) && attempts[|attempts| - 1] != Cleanup(name))
  {
    hide TornOver, AfterAll;
    var n := |attempts| - 1;
    forall i: nat | i < n
      ensures LeftBy(r, attempts, i, name) <==> LeftBy(r, attempts[..n], i, name) && attempts[n] != Cleanup(name)
    {
      assert attempts[..n][..i] == attempts[..i];
      assert attempts[i + 1..] == attempts[..n][i + 1..] + [attempts[n]];
    }
  }
}
