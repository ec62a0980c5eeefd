/**
 The resumable scan of the source: one row per folder with a durable cursor, pages recorded in
 order, failures counted. A folder is named by its source key, a lower-case Windows path.
 */
module ScanJournal {
  import opened Wrappers
  import K = KnowledgeStore
  import R = KnowledgeRuns
  import Catalogue
  import SourceEffects

  type ScanId = string

  // ---------------------------------------------------------------- source keys

  /** A drive, a backslash, and components between single backslashes. */
  predicate WellFormed(k: string) {
    && |k| >= 3 && k[1] == ':' && k[2] == '\\'
    && forall i :: 2 < i < |k| && k[i] == '\\' ==> i + 1 < |k| && k[i - 1] != '\\'
  }

  /** The key without the backslash that only a drive root ends in. */
  function Stem(k: string): string
    requires WellFormed(k)
  {
    if |k| == 3 then k[..2] else k
  }

  predicate Beneath(k: string, folder: string)
    requires WellFormed(folder)
  {
    Stem(folder) + "\\" <= k
  }

  function LastSeparator(k: string): (i: nat)
    requires '\\' in k
    ensures i < |k| && k[i] == '\\' && forall j :: i < j < |k| ==> k[j] != '\\'
  {
    if k[|k| - 1] == '\\' then |k| - 1
    else
      assert k == k[..|k| - 1] + [k[|k| - 1]];
      LastSeparator(k[..|k| - 1])
  }

  predicate ChildOf(k: string, folder: string)
    requires WellFormed(k) && WellFormed(folder)
  {
    k[..LastSeparator(k)] == Stem(folder)
  }

  // ---------------------------------------------------------------- rows and pages

  datatype DirState = Waiting | Complete | Incomplete
  datatype Reason = Unstable | Failed(code: string)
  datatype Directory = Directory(offset: nat, state: DirState, attempts: nat, reason: Option<Reason>)
  datatype Phase = Running | ObservedAll | ObservedPart
  datatype Scan = Scan(phase: Phase, directories: map<string, Directory>, seen: map<(string, string), K.Fingerprint>)

  const NewRow := Directory(0, Waiting, 0, None)
  const CODES := {"SOURCE_UNAVAILABLE", "SOURCE_ACCESS_DENIED", "INVALID_SOURCE_PAGE", "SOURCE_POLICY_DENIED", "SOURCE_PATH_UNAVAILABLE",
                  "SOURCE_COMMAND_TOO_LARGE", "SOURCE_CONNECTION_LOST", "SOURCE_READBACK_UNCONFIRMED", "SOURCE_CONNECTION_FAILED",
                  "SOURCE_TIMEOUT", "SOURCE_PROCESS_FAILED"}

  datatype Item = Item(entry: K.Entry, directory: bool)

  // `transport` counts what the source sent when some of it was withheld.
  datatype Page = Page(dir: string, offset: int, items: seq<Item>, next: Option<int>, limited: bool, transport: Option<int>)

  predicate RootsAcceptable(roots: seq<string>) {
    && 0 < |roots| <= 26
    && (forall a :: a in roots ==> WellFormed(a))
    && (forall i, j :: 0 <= i < j < |roots| ==> roots[i] != roots[j])
    && (forall a, b :: a in roots && b in roots && a != b ==> !Beneath(b, a))
  }

  function Opened(roots: seq<string>): Scan {
    Scan(Running, map r | r in roots :: NewRow, map[])
  }

  function Count(p: Page): int {
    if p.transport.Some? then p.transport.value else |p.items|
  }

  predicate ItemsAcceptable(dir: string, items: seq<Item>) {
    && WellFormed(dir)
    && (forall i :: 0 <= i < |items| ==> WellFormed(items[i].entry.key) && ChildOf(items[i].entry.key, dir))
    && (forall i, j :: 0 <= i < j < |items| ==> items[i].entry.key != items[j].entry.key)
  }

  predicate PageAcceptable(p: Page) {
    && p.offset >= 0 && |p.items| <= 50
    && |p.items| <= Count(p) <= 50 && (Count(p) == |p.items| || p.limited)
    && (p.next.Some? ==> p.next.value == p.offset + Count(p) && Count(p) > 0)
    && ItemsAcceptable(p.dir, p.items)
  }

  /** Only the page that starts where the last one ended is taken. */
  predicate Takes(s: Scan, p: Page) {
    PageAcceptable(p) && p.dir in s.directories && s.directories[p.dir].state.Waiting? && s.directories[p.dir].offset == p.offset
  }

  /** The listing of the folder changed under the scan, or something of it was withheld. */
  predicate Limits(s: Scan, p: Page) {
    p.limited || SeenBefore(s.seen, p.dir, p.items)
  }

  predicate SeenBefore(seen: map<(string, string), K.Fingerprint>, dir: string, items: seq<Item>) {
    exists item :: item in items && (dir, item.entry.key) in seen
  }

  function Advanced(row: Directory, p: Page, limited: bool): Directory
    requires PageAcceptable(p)
  {
    var reason := if limited || row.reason == Some(Unstable) then Some(Unstable) else None;
    row.(offset := p.offset + Count(p), reason := reason,
         state := if p.next.Some? then Waiting else if reason.Some? then Incomplete else Complete)
  }

  function Folders(items: seq<Item>): set<string> {
    set item | item in items && item.directory :: item.entry.key
  }

  function WithFolders(directories: map<string, Directory>, folders: set<string>): map<string, Directory> {
    (map d | d in folders :: NewRow) + directories
  }

  function Sightings(dir: string, items: seq<Item>): map<(string, string), K.Fingerprint> {
    if items == [] then map[]
    else
      var e := items[|items| - 1].entry;
      Sightings(dir, items[..|items| - 1])[(dir, e.key) := K.Fingerprint(e.bytes, e.modified)]
  }

  function Paged(s: Scan, p: Page): Scan
    requires Takes(s, p)
  {
    var row := Advanced(s.directories[p.dir], p, Limits(s, p));
    s.(directories := WithFolders(s.directories, Folders(p.items))[p.dir := row], seen := s.seen + Sightings(p.dir, p.items))
  }

  predicate FailureAcceptable(s: Scan, dir: string, code: string, retryLimit: int) {
    code in CODES && 1 <= retryLimit <= 10 && dir in s.directories && s.directories[dir].state.Waiting?
  }

  function Blamed(row: Directory, code: string, retryLimit: int): Directory {
    row.(attempts := row.attempts + 1, state := if row.attempts + 1 >= retryLimit then Incomplete else Waiting, reason := Some(Failed(code)))
  }

  predicate Settled(s: Scan) {
    forall d :: d in s.directories ==> !s.directories[d].state.Waiting?
  }

  function Finished(s: Scan): Scan {
    s.(phase := if exists d :: d in s.directories && s.directories[d].state.Incomplete? then ObservedPart else ObservedAll)
  }

  /** What a recorded page does to the document rows: each of its files is observed, in order. */
  function FilesObserved(t: K.Tables, items: seq<Item>, scan: ScanId, maxBytes: nat, now: K.Time): K.Tables {
    if items == [] then t
    else
      var before, item := FilesObserved(t, items[..|items| - 1], scan, maxBytes, now), items[|items| - 1];
      if item.directory then before else R.Perform(before, R.Step(R.Observe(item.entry, scan, maxBytes), now))
  }

  // What one more item of a page adds; no item of an acceptable page repeats.

  lemma {:induction false} OneMoreSighting(seen: map<(string, string), K.Fingerprint>, dir: string, items: seq<Item>,
                                           i: nat)
    requires i < |items| && ItemsAcceptable(dir, items)
    ensures var e := items[i].entry;
      && seen + Sightings(dir, items[..i + 1]) == (seen + Sightings(dir, items[..i]))[(dir, e.key) := K.Fingerprint(e.bytes, e.modified)]
      && ((dir, e.key) in seen + Sightings(dir, items[..i]) <==> (dir, e.key) in seen)
  {
    hide WellFormed, ChildOf;
    assert items[..i + 1][..i] == items[..i];
    SightingsKeys(dir, items[..i], items[i].entry.key);
  }

  lemma {:induction false} SightingsKeys(dir: string, items: seq<Item>, key: string)
    requires forall j :: 0 <= j < |items| ==> items[j].entry.key != key
    ensures (dir, key) !in Sightings(dir, items)
  {
    if items != [] {
      SightingsKeys(dir, items[..|items| - 1], key);
    }
  }

  lemma OneMoreFolder(directories: map<string, Directory>, items: seq<Item>, i: nat)
    requires i < |items|
    ensures var before, key := WithFolders(directories, Folders(items[..i])), items[i].entry.key;
      WithFolders(directories, Folders(items[..i + 1])) == if items[i].directory && key !in before then before[key := NewRow] else before
  {
    MoreFolders(items, i);
    hide Folders;
  }

  lemma MoreFolders(items: seq<Item>, i: nat)
    requires i < |items|
    ensures Folders(items[..i + 1]) == if items[i].directory then Folders(items[..i]) + {items[i].entry.key} else Folders(items[..i])
  {
    assert items[..i + 1] == items[..i] + [items[i]];
    if items[i].directory { assert items[i] in items[..i + 1]; }
  }

  lemma {:induction false} OneMoreFile(t: K.Tables, items: seq<Item>, i: nat, scan: ScanId, maxBytes: nat, now: K.Time)
    requires i < |items|
    ensures var before := FilesObserved(t, items[..i], scan, maxBytes, now);
      FilesObserved(t, items[..i + 1], scan, maxBytes, now)
      == if items[i].directory then before else R.Perform(before, R.Step(R.Observe(items[i].entry, scan, maxBytes), now))
  {
    hide R.Perform;
    assert items[..i + 1][..i] == items[..i];
  }

  // ---------------------------------------------------------------- from a source's reply to a page

  // What the source lists, with the verdicts of the path rules.
  datatype Listed = Listed(item: Item, reparse: bool, inScope: bool)
  datatype Reply = Reply(ok: bool, entries: seq<Listed>, truncated: bool, denied: bool, next: Option<int>)

  predicate ReplyAcceptable(offset: nat, r: Reply) {
    && r.ok && |r.entries| <= 50
    && (if r.truncated then r.next == Some(offset + |r.entries|) && |r.entries| > 0 else r.next.None?)
  }

  predicate Withheld(l: Listed) {
    l.reparse || !l.inScope
  }

  function Admitted(entries: seq<Listed>): seq<Item> {
    if entries == [] then []
    else Admitted(entries[..|entries| - 1]) + if Withheld(entries[|entries| - 1]) then [] else [entries[|entries| - 1].item]
  }

  /** The items of exactly these entries, in ascending order. */
  ghost predicate ItemsAt(items: seq<Item>, entries: seq<Listed>, picks: seq<nat>) {
    && |picks| == |items|
    && (forall j :: 0 <= j < |picks| ==> picks[j] < |entries| && items[j] == entries[picks[j]].item)
    && (forall j, k :: 0 <= j < k < |picks| ==> picks[j] < picks[k])
  }

  /** The positions of what is in scope and no reparse point. */
  ghost predicate InScopeAt(entries: seq<Listed>, picks: seq<nat>) {
    forall i :: 0 <= i < |entries| ==> (i in picks <==> !entries[i].reparse && entries[i].inScope)
  }

  /** What is admitted is what is in scope and no reparse point, in order. */
  lemma {:induction false} AdmittedExactly(entries: seq<Listed>) returns (picks: seq<nat>)
    ensures ItemsAt(Admitted(entries), entries, picks) && InScopeAt(entries, picks)
  {
    hide ItemsAt, InScopeAt;
    if entries == [] {
      picks := [];
      NoneAdmitted();
    } else {
      var last := |entries| - 1;
      var before := AdmittedExactly(entries[..last]);
      picks := if Withheld(entries[last]) then before else before + [last];
      OneMoreAdmitted(Admitted(entries[..last]), entries, before);
      OneMorePosition(Admitted(entries[..last]), entries, before);
      assert Admitted(entries[..last]) + [] == Admitted(entries[..last]);
    }
  }

  lemma NoneAdmitted()
    ensures ItemsAt(Admitted([]), [], []) && InScopeAt([], [])
  {
  }

  lemma OneMoreAdmitted(items: seq<Item>, entries: seq<Listed>, before: seq<nat>)
    requires entries != [] && ItemsAt(items, entries[..|entries| - 1], before)
    ensures ItemsAt(items, entries, before) && ItemsAt(items + [entries[|entries| - 1].item], entries, before + [|entries| - 1])
  {
  }

  lemma OneMorePosition(items: seq<Item>, entries: seq<Listed>, before: seq<nat>)
    requires entries != [] && ItemsAt(items, entries[..|entries| - 1], before) && InScopeAt(entries[..|entries| - 1], before)
    ensures var last := |entries| - 1; InScopeAt(entries, if Withheld(entries[last]) then before else before + [last])
  {
    var last := |entries| - 1;
    assert last !in before;
    forall i | 0 <= i < last ensures i in before <==> !entries[i].reparse && entries[i].inScope {
      assert entries[i] == entries[..last][i];
    }
  }

  /**
   The page recorded for a reply: what the rules admit, in order, with the cursor moved over all
   that was sent. It is a limited page exactly when access was denied or something was withheld.
   */
  method PageFor(dir: string, offset: nat, r: Reply) returns (page: Option<Page>)
    ensures page.Some? <==> ReplyAcceptable(offset, r)
    ensures page.Some? <==>
      && r.ok && |r.entries| <= 50 && (!r.truncated ==> r.next.None?)
      && (r.truncated ==> r.next == Some(offset + |r.entries|) && |r.entries| > 0)
    ensures page.Some? ==> exists picks :: ItemsAt(page.value.items, r.entries, picks) && InScopeAt(r.entries, picks)
    ensures page.Some? ==>
      var p := page.value;
      && p.dir == dir && p.offset == offset && p.items == Admitted(r.entries) && Count(p) == |r.entries| && p.next == r.next
      && (p.limited <==> r.denied || exists l :: l in r.entries && Withheld(l))
      && (p.limited <==> r.denied || exists l :: l in r.entries && (l.reparse || !l.inScope))
      && (WellFormed(dir) && ItemsAcceptable(dir, p.items) ==> PageAcceptable(p))
  {
    hide ItemsAt, InScopeAt;
    if !ReplyAcceptable(offset, r) { return None; }
    var items: seq<Item>, withheld: nat := [], 0;
    for i := 0 to |r.entries|
      invariant items == Admitted(r.entries[..i])
      invariant withheld + |items| == i
      invariant withheld > 0 <==> exists l :: l in r.entries[..i] && Withheld(l)
    {
      assert r.entries[..i + 1][..i] == r.entries[..i] && r.entries[..i + 1] == r.entries[..i] + [r.entries[i]];
      if Withheld(r.entries[i]) { withheld := withheld + 1; } else { items := items + [r.entries[i].item]; }
    }
    assert r.entries[..|r.entries|] == r.entries;
    ghost var picks := AdmittedExactly(r.entries);
    return Some(Page(dir, offset, items, r.next, r.denied || withheld > 0, Some(|r.entries|)));
  }

  // ---------------------------------------------------------------- what a recorded page does

  /** Well-formed, all different, and none inside another. */
  predicate ApartFromEachOther(roots: seq<string>) {
    && (forall i :: 0 <= i < |roots| ==> WellFormed(roots[i]))
    && (forall i, j :: 0 <= i < |roots| && 0 <= j < |roots| && i != j ==> roots[i] != roots[j] && !(Stem(roots[j]) + "\\" <= roots[i]))
  }

  lemma RootsExactly(roots: seq<string>)
    ensures RootsAcceptable(roots) <==> 1 <= |roots| <= 26 && ApartFromEachOther(roots)
  {
    hide WellFormed, Stem;
    if RootsAcceptable(roots) {
      forall i, j | 0 <= i < |roots| && 0 <= j < |roots| && i != j ensures roots[i] != roots[j] && !(Stem(roots[j]) + "\\" <= roots[i]) {
        assert roots[i] in roots && roots[j] in roots;
        assert i < j || j < i;
        assert !Beneath(roots[i], roots[j]);
      }
    }
    if ApartFromEachOther(roots) {
      forall a, b | a in roots && b in roots && a != b ensures WellFormed(a) && !Beneath(b, a) {
        var i :| 0 <= i < |roots| && roots[i] == b;
        var j :| 0 <= j < |roots| && roots[j] == a;
      }
    }
  }

  function Sent(p: Page): int {
    if p.transport.Some? then p.transport.value else |p.items|
  }

  /** A page that is taken: it lists direct children of a waiting folder, each once, from the cursor on, and counts what was sent. */
  predicate Takable(s: Scan, p: Page) {
    && 0 <= p.offset && |p.items| <= Sent(p) <= 50 && (|p.items| < Sent(p) ==> p.limited)
    && (p.next.Some? ==> Sent(p) > 0 && p.next.value == p.offset + Sent(p))
    && WellFormed(p.dir) && p.dir in s.directories && s.directories[p.dir].state.Waiting? && s.directories[p.dir].offset == p.offset
    && (forall i :: 0 <= i < |p.items| ==> WellFormed(p.items[i].entry.key) && ChildOf(p.items[i].entry.key, p.dir))
    && (forall i, j :: 0 <= i < j < |p.items| ==> p.items[i].entry.key != p.items[j].entry.key)
  }

  lemma TakableExactly(s: Scan, p: Page)
    ensures Takes(s, p) <==> Takable(s, p)
  {
    hide WellFormed, ChildOf;
  }

  ghost predicate Lists(items: seq<Item>, key: string) {
    exists i :: 0 <= i < |items| && items[i].entry.key == key
  }

  ghost predicate ListsFolder(items: seq<Item>, key: string) {
    exists i :: 0 <= i < |items| && items[i].directory && items[i].entry.key == key
  }

  /**
   The folder's cursor moves over what was sent. It is unstable from now on if the page was limited or
   repeats an item, or if it was before; with the last page it is complete, or incomplete if unstable.
   Each folder listed for the first time waits from its start, and each item is remembered as seen.
   */
  ghost predicate PagedAs(s: Scan, u: Scan, p: Page)
    requires p.dir in s.directories
  {
    var unstable := p.limited || (exists i :: 0 <= i < |p.items| && (p.dir, p.items[i].entry.key) in s.seen)
                    || s.directories[p.dir].reason == Some(Unstable);
    && u.phase == s.phase && p.dir in u.directories
    && u.directories[p.dir].offset == p.offset + Sent(p) && u.directories[p.dir].attempts == s.directories[p.dir].attempts
    && u.directories[p.dir].state == (if p.next.Some? then Waiting else if unstable then Incomplete else Complete)
    && u.directories[p.dir].reason == (if unstable then Some(Unstable) else None)
    && (forall d :: d in u.directories <==> d in s.directories || ListsFolder(p.items, d))
    && (forall d :: d in u.directories && d != p.dir ==>
          u.directories[d] == if d in s.directories then s.directories[d] else Directory(0, Waiting, 0, None))
    && (forall d, k :: (d, k) in u.seen <==> (d, k) in s.seen || (d == p.dir && Lists(p.items, k)))
    && (forall i :: 0 <= i < |p.items| ==>
          && (p.dir, p.items[i].entry.key) in u.seen
          && u.seen[(p.dir, p.items[i].entry.key)] == K.Fingerprint(p.items[i].entry.bytes, p.items[i].entry.modified))
    && (forall d, k :: (d, k) in s.seen && !(d == p.dir && Lists(p.items, k)) ==> (d, k) in u.seen && u.seen[(d, k)] == s.seen[(d, k)])
  }

  lemma {:induction false} SightingsExactly(dir: string, items: seq<Item>)
    requires forall i, j :: 0 <= i < j < |items| ==> items[i].entry.key != items[j].entry.key
    ensures forall d, k :: (d, k) in Sightings(dir, items) <==> d == dir && Lists(items, k)
    ensures forall i :: 0 <= i < |items| ==>
      && (dir, items[i].entry.key) in Sightings(dir, items)
      && Sightings(dir, items)[(dir, items[i].entry.key)] == K.Fingerprint(items[i].entry.bytes, items[i].entry.modified)
  {
    if items != [] {
      var init := items[..|items| - 1];
      SightingsExactly(dir, init);
      forall d, k ensures (d, k) in Sightings(dir, items) <==> d == dir && Lists(items, k) {
        if Lists(items, k) && k != items[|items| - 1].entry.key {
          var i :| 0 <= i < |items| && items[i].entry.key == k;
          assert init[i].entry.key == k;
        }
      }
      forall i | 0 <= i < |items|
        ensures (dir, items[i].entry.key) in Sightings(dir, items)
                && Sightings(dir, items)[(dir, items[i].entry.key)] == K.Fingerprint(items[i].entry.bytes, items[i].entry.modified)
      {
        if i < |items| - 1 { assert items[i] == init[i] && Lists(init, items[i].entry.key); }
      }
    }
  }

  lemma FoldersExactly(items: seq<Item>)
    ensures forall d :: d in Folders(items) <==> ListsFolder(items, d)
  {
    forall d | ListsFolder(items, d) ensures d in Folders(items) {
      var i :| 0 <= i < |items| && items[i].directory && items[i].entry.key == d;
      assert items[i] in items;
    }
  }

  lemma {:induction false} PageEffect(s: Scan, p: Page)
    requires Takes(s, p)
    ensures PagedAs(s, Paged(s, p), p)
  {
    hide WellFormed, ChildOf, Sightings, Folders, Lists, ListsFolder;
    SightingsExactly(p.dir, p.items);
    FoldersExactly(p.items);
    assert SeenBefore(s.seen, p.dir, p.items) <==> exists i :: 0 <= i < |p.items| && (p.dir, p.items[i].entry.key) in s.seen by {
      if i :| 0 <= i < |p.items| && (p.dir, p.items[i].entry.key) in s.seen { assert p.items[i] in p.items; }
    }
    forall i | 0 <= i < |p.items| ensures Lists(p.items, p.items[i].entry.key) { ListsItself(p.items, i); }
  }

  lemma ListsItself(items: seq<Item>, i: nat)
    requires i < |items|
    ensures Lists(items, items[i].entry.key)
  {
  }

  /** Each file of the page has its row brought up to what was seen; no other row changes. */
  ghost predicate FilesSeen(t: K.Tables, u: K.Tables, items: seq<Item>, scan: ScanId, now: K.Time) {
    && (forall i :: 0 <= i < |items| && !items[i].directory ==> RowSeen(u, items[i].entry, scan, now))
    && (forall k :: k in t.documents ==> k in u.documents)
    && (forall k :: k in u.documents && !ListsFile(items, k) ==> k in t.documents && u.documents[k] == t.documents[k])
  }

  ghost predicate ListsFile(items: seq<Item>, key: string) {
    exists i :: 0 <= i < |items| && !items[i].directory && items[i].entry.key == key
  }

  lemma {:induction false} FilesAreSeen(t: K.Tables, items: seq<Item>, scan: ScanId, maxBytes: nat, now: K.Time)
    requires forall i, j :: 0 <= i < j < |items| ==> items[i].entry.key != items[j].entry.key
    ensures FilesSeen(t, FilesObserved(t, items, scan, maxBytes, now), items, scan, now)
  {
    hide R.Perform, FilesSeen, SourceEffects.SeenAs;
    if items == [] {
      NoFileSeen(t, scan, now);
    } else {
      var init, last := items[..|items| - 1], items[|items| - 1];
      var before := FilesObserved(t, init, scan, maxBytes, now);
      FilesAreSeen(t, init, scan, maxBytes, now);
      if !last.directory {
        SourceEffects.ObservedEffect(before, last.entry, scan, now, maxBytes);
        ObserveIsPerformed(before, last.entry, scan, maxBytes, now);
        SeenRow(before, K.Observed(before, last.entry, scan, now, maxBytes), last.entry, scan, now, maxBytes);
      }
      OneMoreFileSeen(t, before, FilesObserved(t, items, scan, maxBytes, now), items, scan, now);
    }
  }

  lemma NoFileSeen(t: K.Tables, scan: ScanId, now: K.Time)
    ensures FilesSeen(t, t, [], scan, now)
  {
  }

  predicate RowSeen(u: K.Tables, e: K.Entry, scan: ScanId, now: K.Time) {
    && e.key in u.documents && u.documents[e.key].seenScan == scan && u.documents[e.key].lastSeen == now
    && u.documents[e.key].fingerprint == K.Fingerprint(e.bytes, e.modified) && u.documents[e.key].source == e.source
  }

  lemma SeenRow(t: K.Tables, u: K.Tables, e: K.Entry, scan: ScanId, now: K.Time, maxBytes: nat)
    requires SourceEffects.SeenAs(t, u, e, scan, now, maxBytes)
    ensures RowSeen(u, e, scan, now) && u.documents.Keys == t.documents.Keys + {e.key}
    ensures forall k :: k in t.documents && k != e.key ==> u.documents[k] == t.documents[k]
  {
    hide SourceEffects.Gone, SourceEffects.Untouched, SourceEffects.Held;
  }

  lemma OneMoreFileSeen(t: K.Tables, before: K.Tables, u: K.Tables, items: seq<Item>, scan: ScanId, now: K.Time)
    requires items != [] && FilesSeen(t, before, items[..|items| - 1], scan, now)
    requires forall i, j :: 0 <= i < j < |items| ==> items[i].entry.key != items[j].entry.key
    requires var last := items[|items| - 1];
      if last.directory then u == before
      else RowSeen(u, last.entry, scan, now) && u.documents.Keys == before.documents.Keys + {last.entry.key}
           && forall k :: k in before.documents && k != last.entry.key ==> u.documents[k] == before.documents[k]
    ensures FilesSeen(t, u, items, scan, now)
  {
    var init, last := items[..|items| - 1], items[|items| - 1];
    forall i | 0 <= i < |items| && !items[i].directory ensures RowSeen(u, items[i].entry, scan, now) {
      if i < |init| { assert init[i] == items[i] && RowSeen(before, init[i].entry, scan, now); }
    }
    forall k | ListsFile(init, k) ensures ListsFile(items, k) {
      var i :| 0 <= i < |init| && !init[i].directory && init[i].entry.key == k;
      assert items[i] == init[i];
    }
    if !last.directory { assert ListsFile(items, items[|items| - 1].entry.key); }
  }

  lemma ObserveIsPerformed(t: K.Tables, e: K.Entry, scan: ScanId, maxBytes: nat, now: K.Time)
    ensures R.Perform(t, R.Step(R.Observe(e, scan, maxBytes), now)) == K.Observed(t, e, scan, now, maxBytes)
  {
  }

  // ---------------------------------------------------------------- the scans the program updates

  class Journal {
    const store: Catalogue.Store
    var scans: map<ScanId, Scan>

    constructor (store: Catalogue.Store)
      ensures this.store == store && scans == map[]
    {
      this.store := store;
      scans := map[];
    }

    method StartScan(scan: ScanId, roots: seq<string>) returns (ok: bool)
      requires scan !in scans
      modifies this`scans
      ensures ok <==> RootsAcceptable(roots) && forall s :: s in old(scans) ==> !old(scans)[s].phase.Running?
      ensures scans == if ok then old(scans)[scan := Opened(roots)] else old(scans)
      ensures ok <==>
        && 1 <= |roots| <= 26 && ApartFromEachOther(roots)
        && (forall s :: s in old(scans) ==> !old(scans)[s].phase.Running?)
      ensures ok ==>
        && scan in scans && scans[scan].phase.Running? && scans[scan].seen == map[]
        && (forall d :: d in scans[scan].directories <==> d in roots)
        && (forall d :: d in roots ==> scans[scan].directories[d] == Directory(0, Waiting, 0, None))
    {
      hide WellFormed, Stem, Beneath;
      RootsExactly(roots);
      if !RootsAcceptable(roots) { return false; }
      if exists s :: s in scans && scans[s].phase.Running? { return false; }
      var rows: map<string, Directory> := map[];
      for i := 0 to |roots|
        invariant rows == map r | r in roots[..i] :: NewRow
      {
        rows := rows[roots[i] := NewRow];
      }
      assert roots[..|roots|] == roots;
      scans := scans[scan := Scan(Running, rows, map[])];
      return true;
    }

    /** Entries and cursor commit together; a page that does not start at the cursor is refused. */
    method RecordPage(scan: ScanId, p: Page, now: K.Time) returns (ok: bool)
      requires scan in scans
      modifies this`scans, store
      ensures ok <==> Takes(old(scans)[scan], p)
      ensures scans == if ok then old(scans)[scan := Paged(old(scans)[scan], p)] else old(scans)
      ensures store.Value() == if ok then FilesObserved(old(store.Value()), p.items, scan, store.maxFileBytes, now) else old(store.Value())
      ensures ok <==> Takable(old(scans)[scan], p)
      ensures ok ==>
        && scan in scans && scans == old(scans)[scan := scans[scan]] && PagedAs(old(scans)[scan], scans[scan], p)
        && FilesSeen(old(store.Value()), store.Value(), p.items, scan, now)
    {
      TakableExactly(scans[scan], p);
      if Takes(scans[scan], p) {
        PageEffect(scans[scan], p);
        FilesAreSeen(store.Value(), p.items, scan, store.maxFileBytes, now);
      }
      hide Takable, PagedAs, FilesSeen, Catalogue.Store.Value;
      hide ItemsAcceptable, SeenBefore, Sightings, Folders, WithFolders, FilesObserved;
      var s := scans[scan];
      if !Takes(s, p) { return false; }
      var limited, seen, folders := RecordItems(scan, s, p, now);
      var reason := if limited || s.directories[p.dir].reason == Some(Unstable) then Some(Unstable) else None;
      var state := if p.next.Some? then Waiting else if reason.Some? then Incomplete else Complete;
      var row := s.directories[p.dir].(offset := p.offset + Count(p), state := state, reason := reason);
      assert row == Advanced(s.directories[p.dir], p, Limits(s, p));
      scans := scans[scan := Scan(s.phase, folders[p.dir := row], seen)];
      return true;
    }

    /** The items of a page one by one: a sighting each, a row for a new folder, the document row of a file. */
    method RecordItems(scan: ScanId, s: Scan, p: Page, now: K.Time)
      returns (limited: bool, seen: map<(string, string), K.Fingerprint>, folders: map<string, Directory>)
      requires PageAcceptable(p)
      modifies store
      ensures limited <==> Limits(s, p)
      ensures seen == s.seen + Sightings(p.dir, p.items) && folders == WithFolders(s.directories, Folders(p.items))
      ensures store.Value() == FilesObserved(old(store.Value()), p.items, scan, store.maxFileBytes, now)
    {
      hide R.Perform, SourceEffects.SeenAs, Catalogue.Store.Value, ChildOf, WellFormed;
      limited, seen, folders := p.limited, s.seen, s.directories;
      ghost var t := store.Value();
      assert p.items[..0] == [];
      for i := 0 to |p.items|
        invariant limited <==> p.limited || SeenBefore(s.seen, p.dir, p.items[..i])
        invariant seen == s.seen + Sightings(p.dir, p.items[..i])
        invariant folders == WithFolders(s.directories, Folders(p.items[..i]))
        invariant store.Value() == FilesObserved(t, p.items[..i], scan, store.maxFileBytes, now)
      {
        var item := p.items[i];
        OneMoreSighting(s.seen, p.dir, p.items, i);
        OneMoreFolder(s.directories, p.items, i);
        OneMoreFile(t, p.items, i, scan, store.maxFileBytes, now);
        if (p.dir, item.entry.key) in seen { limited := true; }
        seen := seen[(p.dir, item.entry.key) := K.Fingerprint(item.entry.bytes, item.entry.modified)];
        if item.directory {
          if item.entry.key !in folders { folders := folders[item.entry.key := NewRow]; }
        } else {
          store.ObserveFile(item.entry, scan, now);
        }
      }
      assert p.items[..|p.items|] == p.items;
    }

    method DirectoryFailed(scan: ScanId, dir: string, code: string, retryLimit: int) returns (ok: bool)
      requires scan in scans
      modifies this`scans
      ensures ok <==> FailureAcceptable(old(scans)[scan], dir, code, retryLimit)
      ensures scans == if ok then
                old(scans)[scan := old(scans)[scan].(directories := old(scans)[scan].directories[dir :=
                                     Blamed(old(scans)[scan].directories[dir], code, retryLimit)])]
              else old(scans)
      ensures ok <==>
        && code in CODES && 1 <= retryLimit <= 10
        && dir in old(scans)[scan].directories && old(scans)[scan].directories[dir].state.Waiting?
      ensures ok ==>
        var s, row := old(scans)[scan], old(scans)[scan].directories[dir];
        scans == old(scans)[scan := Scan(s.phase,
                                         s.directories[dir := Directory(row.offset, if row.attempts + 1 < retryLimit then Waiting else Incomplete,
                                                                        row.attempts + 1, Some(Failed(code)))],
                                         s.seen)]
    {
      var s := scans[scan];
      if code !in CODES || !(1 <= retryLimit <= 10) { return false; }
      if dir !in s.directories || !s.directories[dir].state.Waiting? { return false; }
      var attempts := s.directories[dir].attempts + 1;
      var state := if attempts >= retryLimit then Incomplete else Waiting;
      var row := s.directories[dir].(attempts := attempts, state := state, reason := Some(Failed(code)));
      scans := scans[scan := s.(directories := s.directories[dir := row])];
      return true;
    }

    method FinishScan(scan: ScanId) returns (ok: bool)
      requires scan in scans
      modifies this`scans
      ensures ok <==> old(scans)[scan].phase.Running? && Settled(old(scans)[scan])
      ensures scans == if ok then old(scans)[scan := Finished(old(scans)[scan])] else old(scans)
      ensures ok <==> old(scans)[scan].phase.Running?
                      && forall d :: d in old(scans)[scan].directories ==> !old(scans)[scan].directories[d].state.Waiting?
      ensures ok ==>
        var s := old(scans)[scan];
        scans == old(scans)[scan := Scan(if forall d :: d in s.directories ==> s.directories[d].state.Complete? then ObservedAll else ObservedPart,
                                         s.directories, s.seen)]
    {
      var s := scans[scan];
      if !Settled(s) || !s.phase.Running? { return false; }
      var incomplete := set d | d in s.directories && s.directories[d].state.Incomplete?;
      assert incomplete != {} <==> exists d :: d in s.directories && s.directories[d].state.Incomplete? by {
        if d :| d in s.directories && s.directories[d].state.Incomplete? { assert d in incomplete; }
        if incomplete != {} { var d :| d in incomplete; assert d in s.directories && s.directories[d].state.Incomplete?; }
      }
      scans := scans[scan := s.(phase := if incomplete != {} then ObservedPart else ObservedAll)];
      return true;
    }
  }
}
