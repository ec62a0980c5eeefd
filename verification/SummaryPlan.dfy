/**
 The plan of a whole-document summary: every extracted passage is cut into units of at
 most 3000 characters, and consecutive units are packed into bounded parts.
 */
module SummaryPlan {
  import opened Wrappers
  import opened SourceText

  const BLOCK := 3000

  datatype Passage = Passage(locator: string, content: string)
  datatype Unit = Unit(id: nat, locator: string, offset: nat, content: string)
  datatype Part = Part(id: nat, units: seq<Unit>)
  datatype Error = InvalidPartSize | NoPassages | PlanTooLarge

  // ---------------------------------------------------------------- what the plan must contain

  /** The passages that count: the first occurrence of each one that is not blank. */
  function Kept(passages: seq<Passage>): seq<Passage> {
    if passages == [] then []
    else
      var last := passages[|passages| - 1];
      var before := Kept(passages[..|passages| - 1]);
      if Blank(last.content) || last in before then before else before + [last]
  }

  function Block(p: Passage, offset: nat): string
    requires offset < |p.content|
  {
    if offset + BLOCK <= |p.content| then p.content[offset..offset + BLOCK] else p.content[offset..]
  }

  /** The units of one passage from `offset` on, numbered after `count` earlier ones. */
  function UnitsOf(p: Passage, offset: nat, count: nat): seq<Unit>
    decreases |p.content| - offset
  {
    if offset >= |p.content| then []
    else if Blank(Block(p, offset)) then UnitsOf(p, offset + BLOCK, count)
    else [Unit(count + 1, p.locator, offset, Block(p, offset))] + UnitsOf(p, offset + BLOCK, count + 1)
  }

  function AllUnits(kept: seq<Passage>): seq<Unit> {
    if kept == [] then []
    else
      var before := AllUnits(kept[..|kept| - 1]);
      before + UnitsOf(kept[|kept| - 1], 0, |before|)
  }

  function Size(units: seq<Unit>): nat {
    if units == [] then 0 else Size(units[..|units| - 1]) + |units[|units| - 1].content|
  }

  function Flatten(parts: seq<Part>): seq<Unit> {
    if parts == [] then [] else Flatten(parts[..|parts| - 1]) + parts[|parts| - 1].units
  }

  /** Parts are numbered from 1, never empty, never too large, and never split earlier than they must be. */
  ghost predicate WellPacked(parts: seq<Part>, limit: nat) {
    && (forall i :: 0 <= i < |parts| ==> parts[i].id == i + 1 && parts[i].units != [] && Size(parts[i].units) <= limit)
    && (forall i, j :: 0 <= i < j < |parts| && j == i + 1 ==> Size(parts[i].units) + |parts[j].units[0].content| > limit)
  }

  /** Units numbered on from `count`, each visible and of bounded size. */
  predicate BoundedUnits(units: seq<Unit>, count: nat) {
    forall i :: 0 <= i < |units| ==>
      units[i].id == count + i + 1 && 0 < |units[i].content| <= BLOCK && !Blank(units[i].content)
  }

  // ---------------------------------------------------------------- prepare

  lemma KeptStep(passages: seq<Passage>, n: nat)
    requires n < |passages|
    ensures var p, before := passages[n], Kept(passages[..n]);
            Kept(passages[..n + 1]) == if Blank(p.content) || p in before then before else before + [p]
  {
    assert passages[..n + 1][..n] == passages[..n];
  }

  lemma UnitsOfStep(p: Passage, offset: nat, units: seq<Unit>)
    requires offset < |p.content|
    ensures var block := Block(p, offset);
            var more := if Blank(block) then units else units + [Unit(|units| + 1, p.locator, offset, block)];
            units + UnitsOf(p, offset, |units|) == more + UnitsOf(p, offset + BLOCK, |more|)
  {
    var block := Block(p, offset);
    if !Blank(block) {
      var unit := Unit(|units| + 1, p.locator, offset, block);
      var rest := UnitsOf(p, offset + BLOCK, |units| + 1);
      assert units + ([unit] + rest) == (units + [unit]) + rest;
    }
  }

  method CutPassages(passages: seq<Passage>) returns (units: seq<Unit>)
    ensures units == AllUnits(Kept(passages))
  {
    units := [];
    var seen: set<Passage> := {};
    for n := 0 to |passages|
      invariant units == AllUnits(Kept(passages[..n]))
      invariant forall p :: p in seen <==> p in Kept(passages[..n])
    {
      var p := passages[n];
      KeptStep(passages, n);
      if Blank(p.content) || p in seen { continue; }
      seen := seen + {p};
      units := CutPassage(p, units);
    }
    assert passages[..|passages|] == passages;
  }

  method CutPassage(p: Passage, before: seq<Unit>) returns (units: seq<Unit>)
    ensures units == before + UnitsOf(p, 0, |before|)
  {
    units := before;
    var offset := 0;
    while offset < |p.content|
      invariant before + UnitsOf(p, 0, |before|) == units + UnitsOf(p, offset, |units|)
      decreases |p.content| - offset
    {
      UnitsOfStep(p, offset, units);
      var block := Block(p, offset);
      if !Blank(block) {
        units := units + [Unit(|units| + 1, p.locator, offset, block)];
      }
      offset := offset + BLOCK;
    }
    assert units + [] == units;
  }

  lemma AppendPart(parts: seq<Part>, group: seq<Unit>, limit: nat)
    requires WellPacked(parts, limit) && group != [] && Size(group) <= limit
    requires parts != [] ==> Size(parts[|parts| - 1].units) + |group[0].content| > limit
    ensures var more := parts + [Part(|parts| + 1, group)];
            WellPacked(more, limit) && Flatten(more) == Flatten(parts) + group
  {
    var more := parts + [Part(|parts| + 1, group)];
    assert more[..|parts|] == parts;
    forall i, j | 0 <= i < j < |more| && j == i + 1 ensures Size(more[i].units) + |more[j].units[0].content| > limit {
      if j < |parts| {
        assert more[i] == parts[i] && more[j] == parts[j];
      }
    }
  }

  /** The closed parts and the open group of the packing loop. */
  ghost predicate Packing(parts: seq<Part>, group: seq<Unit>, limit: nat) {
    && WellPacked(parts, limit)
    && Size(group) <= limit
    && (group == [] ==> parts == [])
    && (parts != [] && group != [] ==> Size(parts[|parts| - 1].units) + |group[0].content| > limit)
  }

  lemma {:induction false} GrowGroup(parts: seq<Part>, group: seq<Unit>, unit: Unit, limit: nat)
    requires Packing(parts, group, limit) && (group == [] || Size(group) + |unit.content| <= limit) && |unit.content| <= limit
    ensures Packing(parts, group + [unit], limit)
    ensures Size(group + [unit]) == Size(group) + |unit.content|
  {
    assert (group + [unit])[..|group|] == group;
  }

  lemma StartGroup(parts: seq<Part>, group: seq<Unit>, unit: Unit, limit: nat)
    requires Packing(parts, group, limit) && group != [] && |unit.content| <= limit < Size(group) + |unit.content|
    ensures var more := parts + [Part(|parts| + 1, group)];
            Packing(more, [unit], limit) && Flatten(more) == Flatten(parts) + group
    ensures Size([unit]) == |unit.content|
  {
    AppendPart(parts, group, limit);
    assert [unit][..0] == [];
  }

  lemma PackingStarts(limit: nat)
    ensures Packing([], [], limit) && Flatten([]) == [] && Size([]) == 0
  {
  }

  /** Closing the last group, if any is open. */
  lemma PackingEnds(parts: seq<Part>, group: seq<Unit>, limit: nat)
    requires Packing(parts, group, limit)
    ensures var all := if group == [] then parts else parts + [Part(|parts| + 1, group)];
            WellPacked(all, limit) && Flatten(all) == Flatten(parts) + group
  {
    if group != [] {
      AppendPart(parts, group, limit);
    }
  }

  method Pack(units: seq<Unit>, limit: nat) returns (parts: seq<Part>)
    requires BoundedUnits(units, 0) && limit >= BLOCK
    ensures Flatten(parts) == units
    ensures WellPacked(parts, limit)
  {
    hide Flatten;
    hide WellPacked;
    hide Packing;
    hide Size;
    parts := [];
    var group: seq<Unit> := [];
    var size := 0;
    ghost var start := 0;
    PackingStarts(limit);
    for n := 0 to |units|
      invariant start <= n && group == units[start..n]
      invariant Flatten(parts) == units[..start]
      invariant size == Size(group)
      invariant Packing(parts, group, limit)
    {
      var unit := units[n];
      assert |unit.content| <= BLOCK;
      if group != [] && size + |unit.content| > limit {
        StartGroup(parts, group, unit, limit);
        parts := parts + [Part(|parts| + 1, group)];
        group, size, start := [unit], |unit.content|, n;
      } else {
        GrowGroup(parts, group, unit, limit);
        group := group + [unit];
        size := size + |unit.content|;
      }
    }
    PackingEnds(parts, group, limit);
    if group != [] {
      parts := parts + [Part(|parts| + 1, group)];
    }
  }

  // ---------------------------------------------------------------- there is one plan

  /** The parts, put end to end, are exactly the units of the kept passages, packed greedily. */
  ghost predicate PlanOf(parts: seq<Part>, passages: seq<Passage>, limit: nat) {
    Flatten(parts) == AllUnits(Kept(passages)) && WellPacked(parts, limit)
  }

  predicate TooLarge(parts: seq<Part>, encoded: seq<Part> -> nat) {
    |parts| > 2048 || encoded(parts) > 16 * 1024 * 1024
  }

  lemma {:induction false} FlattenTo(parts: seq<Part>, i: nat)
    requires i < |parts|
    ensures Flatten(parts[..i + 1]) == Flatten(parts[..i]) + parts[i].units
  {
    assert parts[..i + 1][..i] == parts[..i];
  }

  lemma {:induction false} FlattenPrefix(parts: seq<Part>, i: nat)
    requires i <= |parts|
    ensures Flatten(parts[..i]) <= Flatten(parts)
    decreases |parts| - i
  {
    if i == |parts| {
      assert parts[..i] == parts;
    } else {
      FlattenTo(parts, i);
      FlattenPrefix(parts, i + 1);
    }
  }

  lemma {:induction false} SizeGrows(units: seq<Unit>, start: nat, a: nat, b: nat)
    requires start <= a <= b <= |units|
    ensures Size(units[start..a]) <= Size(units[start..b])
  {
    if a < b {
      SizeGrows(units, start, a, b - 1);
      assert units[start..b][..b - 1 - start] == units[start..b - 1];
    }
  }

  lemma {:induction false} SizeOneMore(units: seq<Unit>, u: Unit)
    ensures Size(units + [u]) == Size(units) + |u.content|
  {
    assert (units + [u])[..|units|] == units;
  }

  lemma PartsPacked(parts: seq<Part>, limit: nat)
    requires WellPacked(parts, limit)
    ensures forall i :: 0 <= i < |parts| ==>
      && parts[i].id == i + 1 && parts[i].units != [] && Size(parts[i].units) <= limit
      && (i + 1 < |parts| ==> Size(parts[i].units) + |parts[i + 1].units[0].content| > limit)
  {
    hide Size;
  }

  /** Where part `i` stands among the units, and that one unit more would not fit into it. */
  lemma {:induction false} PartPlaced(parts: seq<Part>, i: nat, limit: nat) returns (start: nat, end: nat)
    requires WellPacked(parts, limit) && i < |parts|
    ensures start == |Flatten(parts[..i])| && end == start + |parts[i].units| <= |Flatten(parts)|
    ensures Flatten(parts)[start..end] == parts[i].units && Size(parts[i].units) <= limit
    ensures end < |Flatten(parts)| ==> Size(Flatten(parts)[start..end + 1]) > limit
  {
    hide Size, Flatten;
    var all := Flatten(parts);
    start := |Flatten(parts[..i])|;
    end := start + |parts[i].units|;
    FlattenTo(parts, i);
    FlattenPrefix(parts, i + 1);
    if i + 1 < |parts| {
      FlattenTo(parts, i + 1);
      FlattenPrefix(parts, i + 2);
      SizeOneMore(parts[i].units, parts[i + 1].units[0]);
      assert all[start..end + 1] == parts[i].units + [parts[i + 1].units[0]];
    } else {
      assert parts[..i + 1] == parts;
    }
  }

  /** Of two greedy packings that agree so far, neither closes the next part earlier than the other. */
  lemma {:induction false} NotEarlier(a: seq<Part>, b: seq<Part>, i: nat, limit: nat)
    requires WellPacked(a, limit) && WellPacked(b, limit) && Flatten(a) == Flatten(b)
    requires i < |a| && i < |b| && a[..i] == b[..i]
    ensures |a[i].units| >= |b[i].units|
    ensures |a[i].units| == |b[i].units| ==> a[i].units == b[i].units
  {
    hide Size, Flatten, WellPacked;
    var start, m := PartPlaced(a, i, limit);
    var start', n := PartPlaced(b, i, limit);
    if m < n { SizeGrows(Flatten(a), start, m + 1, n); }
  }

  lemma {:induction false} SameStart(a: seq<Part>, b: seq<Part>, i: nat, limit: nat)
    requires WellPacked(a, limit) && WellPacked(b, limit) && Flatten(a) == Flatten(b) && i <= |a| && i <= |b|
    ensures a[..i] == b[..i]
  {
    hide Flatten;
    if i > 0 {
      var k := i - 1;
      SameStart(a, b, k, limit);
      NotEarlier(a, b, k, limit);
      NotEarlier(b, a, k, limit);
      assert a[..i] == a[..k] + [a[k]] && b[..i] == b[..k] + [b[k]];
    }
  }

  lemma {:induction false} NoneLeft(short: seq<Part>, long: seq<Part>, limit: nat)
    requires WellPacked(long, limit) && Flatten(short) == Flatten(long) && |short| <= |long| && long[..|short|] == short
    ensures short == long
  {
    hide Flatten;
    if |short| < |long| {
      FlattenTo(long, |short|);
      FlattenPrefix(long, |short| + 1);
    } else {
      assert long[..|short|] == long;
    }
  }

  /** The units and the limit leave only one greedy packing. */
  lemma {:induction false} PackedOneWay(a: seq<Part>, b: seq<Part>, limit: nat)
    requires WellPacked(a, limit) && WellPacked(b, limit) && Flatten(a) == Flatten(b)
    ensures a == b
  {
    hide Flatten, WellPacked;
    var n := if |a| <= |b| then |a| else |b|;
    SameStart(a, b, n, limit);
    if |a| <= |b| {
      assert a[..n] == a;
      NoneLeft(a, b, limit);
    } else {
      assert b[..n] == b;
      NoneLeft(b, a, limit);
    }
  }

  // ---------------------------------------------------------------- where each passage stands in the plan

  /** The unit is a block of 3000 characters of the passage, or what is left of it, and not blank. */
  ghost predicate BlockOf(u: Unit, p: Passage) {
    && u.locator == p.locator && u.offset % 3000 == 0 && u.offset < |p.content|
    && u.content == (if u.offset + 3000 <= |p.content| then p.content[u.offset..u.offset + 3000] else p.content[u.offset..])
    && exists i :: 0 <= i < |u.content| && !IsSpace(u.content[i])
  }

  /** The blocks of a passage in order, without the blank ones and with no visible character left out. */
  ghost predicate CutOf(units: seq<Unit>, p: Passage) {
    && (forall j :: 0 <= j < |units| ==> BlockOf(units[j], p))
    && (forall j, k :: 0 <= j < k < |units| ==> units[j].offset < units[k].offset)
    && (forall at :: 0 <= at < |p.content| && !IsSpace(p.content[at]) ==>
          exists j :: 0 <= j < |units| && units[j].offset <= at < units[j].offset + |units[j].content|)
  }

  /** Between these two positions stand the blocks of a passage, and nothing if it is blank or was there before. */
  ghost predicate Placed(units: seq<Unit>, passages: seq<Passage>, i: nat, from: nat, to: nat)
    requires i < |passages|
  {
    && from <= to <= |units|
    && if passages[i] in passages[..i] || (forall k :: 0 <= k < |passages[i].content| ==> IsSpace(passages[i].content[k]))
       then from == to
       else CutOf(units[from..to], passages[i])
  }

  /** The units stand passage by passage. */
  ghost predicate LaidOut(units: seq<Unit>, passages: seq<Passage>, starts: seq<nat>) {
    && |starts| == |passages| + 1 && starts[0] == 0 && starts[|passages|] == |units|
    && forall i :: 0 <= i < |passages| ==> Placed(units, passages, i, starts[i], starts[i + 1])
  }

  lemma {:induction false} PassagesLaidOut(passages: seq<Passage>) returns (starts: seq<nat>)
    ensures LaidOut(AllUnits(Kept(passages)), passages, starts)
  {
    hide Placed, AllUnits, Kept;
    if passages == [] {
      starts := [0];
      NothingKept();
    } else {
      var n := |passages| - 1;
      var before := passages[..n];
      var starts' := PassagesLaidOut(before);
      LastPlaced(passages);
      starts := starts' + [|AllUnits(Kept(passages))|];
      forall i | 0 <= i < n ensures Placed(AllUnits(Kept(passages)), passages, i, starts[i], starts[i + 1]) {
        assert starts[i] == starts'[i] && starts[i + 1] == starts'[i + 1];
        StillPlaced(AllUnits(Kept(before)), AllUnits(Kept(passages)), before, passages, i, starts[i], starts[i + 1]);
      }
    }
  }

  lemma NothingKept()
    ensures AllUnits(Kept([])) == []
  {
  }

  lemma StillPlaced(a: seq<Unit>, b: seq<Unit>, before: seq<Passage>, passages: seq<Passage>, i: nat, from: nat, to: nat)
    requires a <= b && before <= passages && i < |before| && Placed(a, before, i, from, to)
    ensures Placed(b, passages, i, from, to)
  {
    hide CutOf;
    assert before[..i] == passages[..i] && a[from..to] == b[from..to];
  }

  lemma {:induction false} LastPlaced(passages: seq<Passage>)
    requires passages != []
    ensures var n := |passages| - 1;
      var units, earlier := AllUnits(Kept(passages)), AllUnits(Kept(passages[..n]));
      earlier <= units && Placed(units, passages, n, |earlier|, |units|)
  {
    hide CutOf, UnitsOf;
    var n := |passages| - 1;
    var units, earlier := AllUnits(Kept(passages)), AllUnits(Kept(passages[..n]));
    KeptIsComplete(passages[..n]);
    if !Blank(passages[n].content) && passages[n] !in Kept(passages[..n]) {
      assert Kept(passages)[..|Kept(passages)| - 1] == Kept(passages[..n]);
      UnitsAreCut(passages[n], |earlier|);
      assert units[|earlier|..|units|] == UnitsOf(passages[n], 0, |earlier|);
    } else {
      assert units == earlier;
      assert passages[n] in passages[..n] || (forall k :: 0 <= k < |passages[n].content| ==> IsSpace(passages[n].content[k]));
    }
  }

  lemma {:induction false} UnitsAreCut(p: Passage, count: nat)
    ensures CutOf(UnitsOf(p, 0, count), p)
  {
    hide IsSpace, BlockOf;
    var units := UnitsOf(p, 0, count);
    UnitsAreBlocks(p, 0, count);
    forall at | 0 <= at < |p.content| && !IsSpace(p.content[at])
      ensures exists j :: 0 <= j < |units| && units[j].offset <= at < units[j].offset + |units[j].content|
    {
      var j := VisibleShownOnce(p, 0, count, at);
    }
  }

  /** Blocks from `offset` on, in ascending order. */
  ghost predicate BlocksFrom(units: seq<Unit>, p: Passage, offset: nat) {
    && (forall j :: 0 <= j < |units| ==> BlockOf(units[j], p) && units[j].offset >= offset)
    && (forall j, k :: 0 <= j < k < |units| ==> units[j].offset < units[k].offset)
  }

  lemma OneBlockMore(u: Unit, rest: seq<Unit>, p: Passage)
    requires BlockOf(u, p) && BlocksFrom(rest, p, u.offset + BLOCK)
    ensures BlocksFrom([u] + rest, p, u.offset)
  {
    hide BlockOf;
  }

  lemma {:induction false} UnitsAreBlocks(p: Passage, offset: nat, count: nat)
    requires offset % 3000 == 0
    ensures BlocksFrom(UnitsOf(p, offset, count), p, offset)
    decreases |p.content| - offset
  {
    hide IsSpace, BlockOf;
    if offset < |p.content| {
      if Blank(Block(p, offset)) {
        UnitsAreBlocks(p, offset + BLOCK, count);
      } else {
        UnitsAreBlocks(p, offset + BLOCK, count + 1);
        FirstBlock(p, offset, count);
        OneBlockMore(Unit(count + 1, p.locator, offset, Block(p, offset)), UnitsOf(p, offset + BLOCK, count + 1), p);
      }
    }
  }

  lemma {:induction false} FirstBlock(p: Passage, offset: nat, count: nat)
    requires offset % 3000 == 0 && offset < |p.content| && !Blank(Block(p, offset))
    ensures BlockOf(Unit(count + 1, p.locator, offset, Block(p, offset)), p)
  {
    hide IsSpace;
  }

  /**
   The prepared parts, put end to end, are exactly the units of the kept passages in
   their order; every part is within the requested size and none is closed early. A plan of more
   than 2048 parts, or of more than 16 MB as it is written, is refused, and no other.
   */
  method Prepare(passages: seq<Passage>, partChars: int, encoded: seq<Part> -> nat) returns (r: Result<seq<Part>, Error>)
    ensures r == Err(InvalidPartSize) <==> !(4000 <= partChars <= 32000)
    ensures r == Err(NoPassages) <==> 4000 <= partChars <= 32000 && AllUnits(Kept(passages)) == []
    ensures r == Err(PlanTooLarge) <==>
              && 4000 <= partChars <= 32000 && AllUnits(Kept(passages)) != []
              && exists parts :: PlanOf(parts, passages, partChars) && TooLarge(parts, encoded)
    ensures r.Ok? ==>
              && 4000 <= partChars <= 32000
              && PlanOf(r.value, passages, partChars) && 1 <= |r.value| && !TooLarge(r.value, encoded)
    ensures r.Ok? ==>
              && (exists starts :: LaidOut(Flatten(r.value), passages, starts))
              && (forall i :: 0 <= i < |Flatten(r.value)| ==> Flatten(r.value)[i].id == i + 1)
              && |r.value| <= 2048 && encoded(r.value) <= 16777216
    ensures r.Ok? ==> forall i :: 0 <= i < |r.value| ==>
              && r.value[i].id == i + 1 && r.value[i].units != [] && Size(r.value[i].units) <= partChars
              && (i + 1 < |r.value| ==> Size(r.value[i].units) + |r.value[i + 1].units[0].content| > partChars)
  {
    hide WellPacked, AllUnits, Kept, LaidOut;
    if !(4000 <= partChars <= 32000) { return Err(InvalidPartSize); }
    var units := CutPassages(passages);
    if units == [] { return Err(NoPassages); }
    AllUnitsBounded(Kept(passages));
    var parts := Pack(units, partChars);
    forall other | PlanOf(other, passages, partChars) ensures other == parts {
      PackedOneWay(other, parts, partChars);
    }
    if TooLarge(parts, encoded) { return Err(PlanTooLarge); }
    ghost var starts := PassagesLaidOut(passages);
    PartsPacked(parts, partChars);
    return Ok(parts);
  }

  // ---------------------------------------------------------------- nothing is lost

  lemma {:induction false} UnitsOfBounded(p: Passage, offset: nat, count: nat)
    ensures BoundedUnits(UnitsOf(p, offset, count), count)
    decreases |p.content| - offset
  {
    if offset < |p.content| {
      UnitsOfBounded(p, offset + BLOCK, count);
      UnitsOfBounded(p, offset + BLOCK, count + 1);
    }
  }

  lemma {:induction false} AllUnitsBounded(kept: seq<Passage>)
    ensures BoundedUnits(AllUnits(kept), 0)
  {
    if kept != [] {
      var before := AllUnits(kept[..|kept| - 1]);
      AllUnitsBounded(kept[..|kept| - 1]);
      UnitsOfBounded(kept[|kept| - 1], 0, |before|);
    }
  }

  /** Unit `u` shows position `at` of passage `p`. */
  predicate Shows(u: Unit, p: Passage, at: nat)
    requires at < |p.content|
  {
    u.locator == p.locator && u.offset <= at < u.offset + |u.content| && u.content[at - u.offset] == p.content[at]
  }

  lemma {:induction false} LaterUnitsStartLater(p: Passage, offset: nat, count: nat)
    ensures forall u :: u in UnitsOf(p, offset, count) ==> u.offset >= offset
    decreases |p.content| - offset
  {
    if offset < |p.content| {
      LaterUnitsStartLater(p, offset + BLOCK, count);
      LaterUnitsStartLater(p, offset + BLOCK, count + 1);
    }
  }

  /** Every visible character of a passage is shown by exactly one of its units. */
  lemma {:induction false} VisibleShownOnce(p: Passage, offset: nat, count: nat, at: nat) returns (k: nat)
    requires offset <= at < |p.content| && !IsSpace(p.content[at])
    ensures var units := UnitsOf(p, offset, count);
            && k < |units| && Shows(units[k], p, at)
            && forall i :: 0 <= i < |units| && Shows(units[i], p, at) ==> i == k
    decreases |p.content| - offset
  {
    var block := Block(p, offset);
    var next := if Blank(block) then count else count + 1;
    var units, rest := UnitsOf(p, offset, count), UnitsOf(p, offset + BLOCK, next);
    if at < offset + BLOCK {
      assert block[at - offset] == p.content[at];
      assert !Blank(block);
      LaterUnitsStartLater(p, offset + BLOCK, next);
      k := 0;
      forall i | 0 < i < |units| ensures units[i].offset > at {
        assert units[i] == rest[i - 1] && rest[i - 1] in rest;
      }
    } else {
      var j := VisibleShownOnce(p, offset + BLOCK, next, at);
      k := if Blank(block) then j else j + 1;
      forall i | 0 <= i < |units| && Shows(units[i], p, at) ensures i == k {
        if !Blank(block) && i > 0 {
          assert units[i] == rest[i - 1];
        }
      }
    }
  }

  /** The kept passages are pairwise different, and every passage that is not blank is among them. */
  lemma {:induction false} KeptIsComplete(passages: seq<Passage>)
    ensures forall p :: p in Kept(passages) <==> p in passages && !Blank(p.content)
    ensures forall i, j :: 0 <= i < j < |Kept(passages)| ==> Kept(passages)[i] != Kept(passages)[j]
  {
    if passages != [] {
      var init := passages[..|passages| - 1];
      KeptIsComplete(init);
      var last := passages[|passages| - 1];
      assert passages == init + [last];
    }
  }
}
