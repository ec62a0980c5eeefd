/**
 The bounded preview of a spreadsheet: column labels, the bytes a value takes in JSON, and the
 sharing of one byte budget among the sheets. A cell comes here with its text already read.
 */
module SheetPreview {
  import opened Wrappers

  const MAX_PREVIEW_BYTES := 60_000
  const MAX_CELLS_PER_SHEET := 2_000
  const MAX_SHEETS := 100

  // ---------------------------------------------------------------- column labels

  predicate IsLabel(s: string) {
    forall i :: 0 <= i < |s| ==> 'A' <= s[i] <= 'Z'
  }

  function NumberOf(label': string): nat
    requires IsLabel(label')
  {
    if label' == "" then 0 else NumberOf(label'[..|label'| - 1]) * 26 + (label'[|label'| - 1] as nat - 64)
  }

  function LabelOf(n: nat): (s: string)
    ensures IsLabel(s)
  {
    if n == 0 then "" else LabelOf((n - 1) / 26) + [(65 + (n - 1) % 26) as char]
  }

  method ColumnNumber(letters: string) returns (value: nat)
    requires IsLabel(letters)
    ensures value == NumberOf(letters)
  {
    value := 0;
    for i := 0 to |letters|
      invariant value == NumberOf(letters[..i])
    {
      assert letters[..i + 1][..i] == letters[..i];
      value := value * 26 + (letters[i] as nat) - 64;
    }
    assert letters[..|letters|] == letters;
  }

  method ColumnLabel(number: nat) returns (letters: string)
    ensures letters == LabelOf(number)
  {
    letters := "";
    var left := number;
    while left > 0
      invariant LabelOf(left) + letters == LabelOf(number)
    {
      var remainder := (left - 1) % 26;
      ghost var before := left;
      left := (left - 1) / 26;
      assert LabelOf(before) == LabelOf(left) + [(65 + remainder) as char];
      letters := [(65 + remainder) as char] + letters;
    }
  }

  /** Labels and column numbers correspond one to one. */
  lemma {:induction false} LabelNumberRoundTrip(n: nat)
    ensures NumberOf(LabelOf(n)) == n
  {
    if n > 0 {
      LabelNumberRoundTrip((n - 1) / 26);
      var prefix, last := LabelOf((n - 1) / 26), (65 + (n - 1) % 26) as char;
      assert (prefix + [last])[..|prefix + [last]| - 1] == prefix;
    }
  }

  lemma {:induction false} NumberLabelRoundTrip(letters: string)
    requires IsLabel(letters)
    ensures LabelOf(NumberOf(letters)) == letters
  {
    if letters != "" {
      var prefix, digit := letters[..|letters| - 1], letters[|letters| - 1] as nat - 64;
      NumberLabelRoundTrip(prefix);
      var n := NumberOf(letters);
      assert n - 1 == NumberOf(prefix) * 26 + (digit - 1);
      assert (n - 1) / 26 == NumberOf(prefix) && (n - 1) % 26 == digit - 1;
      assert letters == prefix + [letters[|letters| - 1]];
    }
  }

  /** One letter more is one digit more in base 26, with A for 1 and Z for 26. */
  lemma {:induction false} NumberOfLonger(label': string, c: char)
    requires IsLabel(label') && 'A' <= c <= 'Z'
    ensures NumberOf("") == 0 && NumberOf(label' + [c]) == 26 * NumberOf(label') + (c as int - 'A' as int + 1)
  {
    assert (label' + [c])[..|label'|] == label';
  }

  // ---------------------------------------------------------------- bytes on the wire

  function CharBytes(c: char): nat {
    var n := c as int;
    if n < 0x80 then 1 else if n < 0x800 then 2 else if n < 0x10000 then 3 else 4
  }

  /** A character inside a JSON string: short escapes, the six bytes of \u00XX, or the character itself. */
  function EscapedBytes(c: char): nat {
    var n := c as int;
    if c == '"' || c == '\\' || (8 <= n <= 10) || n == 12 || n == 13 then 2 else if n < 32 then 6 else CharBytes(c)
  }

  function TextBytes(s: string): nat {
    if s == "" then 0 else TextBytes(s[..|s| - 1]) + CharBytes(s[|s| - 1])
  }

  function JsonString(s: string): nat {
    2 + JsonInner(s)
  }

  function JsonInner(s: string): nat {
    if s == "" then 0 else JsonInner(s[..|s| - 1]) + EscapedBytes(s[|s| - 1])
  }

  // A cell as it is listed; no text when reading it raises.
  datatype Cell = Cell(address: string, value: Option<string>)
  datatype Sheet = Sheet(name: string, hidden: bool, rows: seq<seq<Cell>>)
  datatype Item = Item(address: string, value: string)
  datatype Entry = Entry(name: string, hidden: bool, cells: seq<Item>, truncated: bool)
  datatype Preview = Preview(sheets: seq<Entry>, truncated: bool)

  function Flag(b: bool): nat {
    if b then 4 else 5
  }

  // Sizes of json.dumps: `gap` is 1 for the default separators, with a blank after each comma and
  // colon, and 0 for the compact ones.

  /** {"address":…,"value":…} */
  function ItemBytes(item: Item, gap: nat): nat {
    21 + JsonString(item.address) + JsonString(item.value) + 3 * gap
  }

  /** The elements of a list, with a comma between them. */
  function ItemsBytes(items: seq<Item>, gap: nat): nat {
    if items == [] then 0
    else if |items| == 1 then ItemBytes(items[0], gap)
    else ItemsBytes(items[..|items| - 1], gap) + 1 + gap + ItemBytes(items[|items| - 1], gap)
  }

  /** {"name":…,"hidden":…,"cells":[…],"truncated":…} */
  function EntryBytes(e: Entry, gap: nat): nat {
    43 + JsonString(e.name) + Flag(e.hidden) + ItemsBytes(e.cells, gap) + Flag(e.truncated) + 7 * gap
  }

  function EntriesBytes(entries: seq<Entry>, gap: nat): nat {
    if entries == [] then 0
    else if |entries| == 1 then EntryBytes(entries[0], gap)
    else EntriesBytes(entries[..|entries| - 1], gap) + 1 + gap + EntryBytes(entries[|entries| - 1], gap)
  }

  /** {"schemaVersion":1,"kind":"spreadsheet","sheets":[…],"truncated":…} */
  function PreviewBytes(p: Preview, gap: nat): nat {
    65 + EntriesBytes(p.sheets, gap) + Flag(p.truncated) + 7 * gap
  }

  // ---------------------------------------------------------------- the text that these sizes measure

  /** A character of a JSON string, as json.dumps writes it without escaping what is not ASCII. */
  function Escape(c: char): string {
    match c
    case '"' => "\\\""
    case '\\' => "\\\\"
    case '\n' => "\\n"
    case '\r' => "\\r"
    case '\t' => "\\t"
    case _ =>
      if c as int == 8 then "\\b" else if c as int == 12 then "\\f"
      else if c as int < 32 then "\\u00" + [HEX[c as int / 16], HEX[c as int % 16]] else [c]
  }

  const HEX := "0123456789abcdef"

  function Escaped(s: string): string {
    if s == "" then "" else Escaped(s[..|s| - 1]) + Escape(s[|s| - 1])
  }

  function Quoted(s: string): string {
    "\"" + Escaped(s) + "\""
  }

  function Blanks(gap: nat): string {
    seq(gap, i => ' ')
  }

  function Pair(key: string, value: string, gap: nat): string {
    "\"" + key + "\":" + Blanks(gap) + value
  }

  function Listed(a: string, b: string, gap: nat): string {
    a + "," + Blanks(gap) + b
  }

  function Word(b: bool): string {
    if b then "true" else "false"
  }

  function ItemText(item: Item, gap: nat): string {
    "{" + Listed(Pair("address", Quoted(item.address), gap), Pair("value", Quoted(item.value), gap), gap) + "}"
  }

  function ItemsText(items: seq<Item>, gap: nat): string {
    if items == [] then ""
    else if |items| == 1 then ItemText(items[0], gap)
    else Listed(ItemsText(items[..|items| - 1], gap), ItemText(items[|items| - 1], gap), gap)
  }

  function EntryText(e: Entry, gap: nat): string {
    "{" + Listed(Pair("name", Quoted(e.name), gap),
                 Listed(Pair("hidden", Word(e.hidden), gap),
                        Listed(Pair("cells", "[" + ItemsText(e.cells, gap) + "]", gap), Pair("truncated", Word(e.truncated), gap), gap), gap), gap)
    + "}"
  }

  function EntriesText(entries: seq<Entry>, gap: nat): string {
    if entries == [] then ""
    else if |entries| == 1 then EntryText(entries[0], gap)
    else Listed(EntriesText(entries[..|entries| - 1], gap), EntryText(entries[|entries| - 1], gap), gap)
  }

  function PreviewText(p: Preview, gap: nat): string {
    "{" + Listed(Pair("schemaVersion", "1", gap),
                 Listed(Pair("kind", "\"spreadsheet\"", gap),
                        Listed(Pair("sheets", "[" + EntriesText(p.sheets, gap) + "]", gap),
                               Pair("truncated", Word(p.truncated), gap), gap), gap), gap)
    + "}"
  }

  lemma {:induction false} BytesJoin(a: string, b: string)
    ensures TextBytes(a + b) == TextBytes(a) + TextBytes(b)
  {
    if b == "" {
      assert a + b == a;
    } else {
      BytesJoin(a, b[..|b| - 1]);
      assert (a + b)[..|a + b| - 1] == a + b[..|b| - 1];
    }
  }

  lemma {:induction false} PlainBytes(s: string)
    requires forall i :: 0 <= i < |s| ==> s[i] as int < 128
    ensures TextBytes(s) == |s|
  {
    if s != "" { PlainBytes(s[..|s| - 1]); }
  }

  lemma {:induction false} EscapeLength(c: char)
    ensures TextBytes(Escape(c)) == EscapedBytes(c)
  {
    if Escape(c) == [c] {
      assert [c][..0] == "";
      assert TextBytes([c]) == CharBytes(c);
    } else {
      PlainBytes(Escape(c));
    }
  }

  lemma {:induction false} EscapedLength(s: string)
    ensures TextBytes(Escaped(s)) == JsonInner(s)
  {
    hide Escape, EscapedBytes;
    if s != "" {
      EscapedLength(s[..|s| - 1]);
      EscapeLength(s[|s| - 1]);
      BytesJoin(Escaped(s[..|s| - 1]), Escape(s[|s| - 1]));
    }
  }

  lemma {:induction false} QuotedLength(s: string)
    ensures TextBytes(Quoted(s)) == JsonString(s)
  {
    hide Escaped, TextBytes;
    EscapedLength(s);
    PlainBytes("\"");
    BytesJoin("\"", Escaped(s));
    BytesJoin("\"" + Escaped(s), "\"");
  }

  lemma {:induction false} Around(open: string, s: string, close: string)
    requires |open| == |close| == 1 && open[0] as int < 128 && close[0] as int < 128
    ensures TextBytes(open + s + close) == 2 + TextBytes(s)
  {
    hide TextBytes;
    PlainBytes(open);
    PlainBytes(close);
    BytesJoin(open, s);
    BytesJoin(open + s, close);
  }

  lemma {:induction false} PairLength(key: string, value: string, gap: nat)
    requires forall i :: 0 <= i < |key| ==> key[i] as int < 128
    ensures TextBytes(Pair(key, value, gap)) == |key| + 3 + gap + TextBytes(value)
  {
    hide TextBytes;
    var head := "\"" + key + "\":" + Blanks(gap);
    PlainBytes(head);
    BytesJoin(head, value);
  }

  lemma {:induction false} ListedLength(a: string, b: string, gap: nat)
    ensures TextBytes(Listed(a, b, gap)) == TextBytes(a) + 1 + gap + TextBytes(b)
  {
    hide TextBytes;
    var middle := "," + Blanks(gap);
    PlainBytes(middle);
    BytesJoin(a, middle);
    BytesJoin(a + middle, b);
    assert a + middle == a + "," + Blanks(gap);
  }

  lemma {:induction false} ItemLength(item: Item, gap: nat)
    ensures TextBytes(ItemText(item, gap)) == ItemBytes(item, gap)
  {
    hide TextBytes, Pair, Quoted, Listed, JsonString;
    QuotedLength(item.address);
    QuotedLength(item.value);
    var a, v := Pair("address", Quoted(item.address), gap), Pair("value", Quoted(item.value), gap);
    PairLength("address", Quoted(item.address), gap);
    PairLength("value", Quoted(item.value), gap);
    ListedLength(a, v, gap);
    Around("{", Listed(a, v, gap), "}");
  }

  lemma {:induction false} ItemsLength(items: seq<Item>, gap: nat)
    ensures TextBytes(ItemsText(items, gap)) == ItemsBytes(items, gap)
  {
    hide ItemText, ItemBytes, Listed;
    if |items| == 1 {
      ItemLength(items[0], gap);
    } else if items != [] {
      ItemsLength(items[..|items| - 1], gap);
      ItemLength(items[|items| - 1], gap);
      ListedLength(ItemsText(items[..|items| - 1], gap), ItemText(items[|items| - 1], gap), gap);
    }
  }

  lemma WordLength(b: bool)
    ensures TextBytes(Word(b)) == Flag(b)
  {
    PlainBytes(Word(b));
  }

  lemma {:induction false} EntryLength(e: Entry, gap: nat)
    ensures TextBytes(EntryText(e, gap)) == EntryBytes(e, gap)
  {
    hide TextBytes, Pair, Quoted, Listed, JsonString, ItemsText, ItemsBytes, Word, Flag;
    var cells := "[" + ItemsText(e.cells, gap) + "]";
    var n, h, c, t := Pair("name", Quoted(e.name), gap), Pair("hidden", Word(e.hidden), gap), Pair("cells", cells, gap),
                      Pair("truncated", Word(e.truncated), gap);
    QuotedLength(e.name);
    ItemsLength(e.cells, gap);
    Around("[", ItemsText(e.cells, gap), "]");
    WordLength(e.hidden);
    WordLength(e.truncated);
    PairLength("name", Quoted(e.name), gap);
    PairLength("hidden", Word(e.hidden), gap);
    PairLength("cells", cells, gap);
    PairLength("truncated", Word(e.truncated), gap);
    ListedLength(c, t, gap);
    ListedLength(h, Listed(c, t, gap), gap);
    ListedLength(n, Listed(h, Listed(c, t, gap), gap), gap);
    Around("{", Listed(n, Listed(h, Listed(c, t, gap), gap), gap), "}");
  }

  lemma {:induction false} EntriesLength(entries: seq<Entry>, gap: nat)
    ensures TextBytes(EntriesText(entries, gap)) == EntriesBytes(entries, gap)
  {
    hide EntryText, EntryBytes, Listed;
    if |entries| == 1 {
      EntryLength(entries[0], gap);
    } else if entries != [] {
      EntriesLength(entries[..|entries| - 1], gap);
      EntryLength(entries[|entries| - 1], gap);
      ListedLength(EntriesText(entries[..|entries| - 1], gap), EntryText(entries[|entries| - 1], gap), gap);
    }
  }

  /** The size that is computed is the length in bytes of the text that is written. */
  lemma {:induction false} PreviewLength(p: Preview, gap: nat)
    ensures TextBytes(PreviewText(p, gap)) == PreviewBytes(p, gap)
  {
    hide TextBytes, Pair, Listed, EntriesText, EntriesBytes, Word, Flag;
    var sheets := "[" + EntriesText(p.sheets, gap) + "]";
    var v, k, s, t := Pair("schemaVersion", "1", gap), Pair("kind", "\"spreadsheet\"", gap), Pair("sheets", sheets, gap),
                      Pair("truncated", Word(p.truncated), gap);
    PlainBytes("1");
    PlainBytes("\"spreadsheet\"");
    EntriesLength(p.sheets, gap);
    Around("[", EntriesText(p.sheets, gap), "]");
    WordLength(p.truncated);
    PairLength("schemaVersion", "1", gap);
    PairLength("kind", "\"spreadsheet\"", gap);
    PairLength("sheets", sheets, gap);
    PairLength("truncated", Word(p.truncated), gap);
    ListedLength(s, t, gap);
    ListedLength(k, Listed(s, t, gap), gap);
    ListedLength(v, Listed(k, Listed(s, t, gap), gap), gap);
    Around("{", Listed(v, Listed(k, Listed(s, t, gap), gap), gap), "}");
  }

  // ---------------------------------------------------------------- sharing the budget

  /** What a kept cell costs: its default encoding and a separator. */
  function Cost(item: Item): nat {
    ItemBytes(item, 1) + 2
  }

  function Costs(items: seq<Item>): nat {
    if items == [] then 0 else Costs(items[..|items| - 1]) + Cost(items[|items| - 1])
  }

  // What filling one sheet has come to: the cells kept, the bytes left of its share, whether
  // something was left out, and whether the cell limit ended the sheet.
  datatype Fill = Fill(cells: seq<Item>, left: int, truncated: bool, full: bool)

  /** One more cell. A cell too large for what is left is passed over; later, smaller ones may still fit. */
  function Offered(f: Fill, c: Cell): Fill
    requires c.value.Some?
  {
    if f.full || c.value.value == "" then f
    else
      var item := Item(c.address, c.value.value);
      if |f.cells| >= MAX_CELLS_PER_SHEET then f.(truncated := true, full := true)
      else if Cost(item) > f.left then f.(truncated := true)
      else f.(cells := f.cells + [item], left := f.left - Cost(item))
  }

  /** Cells in order, until one cannot be read or the limit is reached. */
  function Filled(f: Fill, cells: seq<Cell>): Option<Fill>
    decreases |cells|
  {
    if cells == [] || f.full then Some(f)
    else if cells[0].value.None? then None
    else Filled(Offered(f, cells[0]), cells[1..])
  }

  function FilledRows(f: Fill, rows: seq<seq<Cell>>): Option<Fill>
    decreases |rows|
  {
    if rows == [] || f.full then Some(f)
    else
      var g := Filled(f, rows[0]);
      if g.None? then None else FilledRows(g.value, rows[1..])
  }

  function Shared(share: nat): Fill {
    Fill([], share, false, false)
  }

  /** A sheet stays within its share and its cell limit, and what it keeps is exactly what it has used. */
  predicate Within(f: Fill, share: nat) {
    |f.cells| <= MAX_CELLS_PER_SHEET && f.left >= 0 && f.left + Costs(f.cells) == share
  }

  lemma OfferedWithin(f: Fill, c: Cell, share: nat)
    requires Within(f, share) && c.value.Some?
    ensures Within(Offered(f, c), share)
  {
    var item := Item(c.address, c.value.value);
    assert (f.cells + [item])[..|f.cells|] == f.cells;
  }

  lemma {:induction false} FilledWithin(f: Fill, cells: seq<Cell>, share: nat)
    requires Within(f, share) && Filled(f, cells).Some?
    ensures Within(Filled(f, cells).value, share)
    decreases |cells|
  {
    hide Within;
    if cells != [] && !f.full {
      OfferedWithin(f, cells[0], share);
      FilledWithin(Offered(f, cells[0]), cells[1..], share);
    }
  }

  lemma {:induction false} FilledRowsWithin(f: Fill, rows: seq<seq<Cell>>, share: nat)
    requires Within(f, share) && FilledRows(f, rows).Some?
    ensures Within(FilledRows(f, rows).value, share)
    decreases |rows|
  {
    hide Within;
    if rows != [] && !f.full {
      FilledWithin(f, rows[0], share);
      FilledRowsWithin(Filled(f, rows[0]).value, rows[1..], share);
    }
  }

  // ---------------------------------------------------------------- the preview the program builds

  function Named(s: Sheet): string {
    if |s.name| <= 100 then s.name else s.name[..100]
  }

  function Bare(s: Sheet): Entry {
    Entry(Named(s), s.hidden, [], false)
  }

  function Bares(sheets: seq<Sheet>): seq<Entry> {
    seq(|sheets|, i requires 0 <= i < |sheets| => Bare(sheets[i]))
  }

  function ValidationBytes(entries: seq<Entry>): nat {
    if entries == [] then 0 else ValidationBytes(entries[..|entries| - 1]) + TextBytes(entries[|entries| - 1].name) + 100
  }

  function InitialBudget(sheets: seq<Sheet>): int {
    var wire, validation := PreviewBytes(Preview(Bares(sheets), false), 1), ValidationBytes(Bares(sheets));
    MAX_PREVIEW_BYTES - (if wire >= validation then wire else validation) - 1_000
  }

  /** The cells of one row; `true` when the cell limit ended the sheet. */
  method FillRow(start: Fill, row: seq<Cell>) returns (r: Option<Fill>)
    requires !start.full
    ensures r == Filled(start, row)
  {
    var f := start;
    assert row[0..] == row;
    for j := 0 to |row|
      invariant Filled(f, row[j..]) == Filled(start, row) && !f.full
    {
      assert row[j..][0] == row[j] && row[j..][1..] == row[j + 1..];
      var c := row[j];
      if c.value.None? { return None; }
      if c.value.value != "" {
        var item := Item(c.address, c.value.value);
        if |f.cells| >= MAX_CELLS_PER_SHEET { return Some(f.(truncated := true, full := true)); }
        if Cost(item) > f.left {
          f := f.(truncated := true);
        } else {
          f := f.(cells := f.cells + [item], left := f.left - Cost(item));
        }
      }
    }
    return Some(f);
  }

  /** The cells of one sheet, row by row, under its share. */
  method FillSheet(rows: seq<seq<Cell>>, share: nat) returns (r: Option<Fill>)
    ensures r == FilledRows(Shared(share), rows)
    ensures (forall row :: row in rows ==> Readable(row)) ==> r.Some? && Chosen(r.value, RowItems(rows), share)
  {
    hide Chosen;
    if forall row :: row in rows ==> Readable(row) { ShownIsChosen(share, rows); }
    var f := Shared(share);
    assert rows[0..] == rows;
    for i := 0 to |rows|
      invariant FilledRows(f, rows[i..]) == FilledRows(Shared(share), rows) && !f.full
    {
      assert rows[i..][0] == rows[i] && rows[i..][1..] == rows[i + 1..];
      var g := FillRow(f, rows[i]);
      if g.None? { return None; }
      f := g.value;
      if f.full { return Some(f); }
    }
    return Some(f);
  }

  // ---------------------------------------------------------------- the whole workbook

  /** Each sheet gets an equal part of what is left, by the sheets not yet read. */
  function Previewed(sheets: seq<Sheet>, budget: nat): Option<(seq<Fill>, seq<nat>)> {
    if sheets == [] then Some(([], []))
    else
      var share := budget / |sheets|;
      var f := FilledRows(Shared(share), sheets[0].rows);
      if f.None? then None
      else
        var used := Costs(f.value.cells);
        var rest := Previewed(sheets[1..], if used <= budget then budget - used else 0);
        if rest.None? then None else Some(([f.value] + rest.value.0, [share] + rest.value.1))
  }

  function Shown(s: Sheet, f: Fill): Entry {
    Entry(Named(s), s.hidden, f.cells, f.truncated)
  }

  predicate AnyTruncated(fills: seq<Fill>) {
    exists f :: f in fills && f.truncated
  }

  /** The first sheets are filled; the others are as bare as they were listed. */
  predicate FilledSoFar(entries: seq<Entry>, sheets: seq<Sheet>, fills: seq<Fill>) {
    && |fills| <= |entries| == |sheets|
    && (forall i :: 0 <= i < |fills| ==> entries[i] == Shown(sheets[i], fills[i]))
    && (forall i :: |fills| <= i < |sheets| ==> entries[i] == Bare(sheets[i]))
  }

  lemma FilledOneMore(entries: seq<Entry>, sheets: seq<Sheet>, fills: seq<Fill>, f: Fill)
    requires FilledSoFar(entries, sheets, fills) && |fills| < |sheets|
    ensures FilledSoFar(entries[|fills| := entries[|fills|].(cells := f.cells, truncated := f.truncated)], sheets, fills + [f])
    ensures AnyTruncated(fills + [f]) <==> AnyTruncated(fills) || f.truncated
  {
    if f.truncated { assert f in fills + [f]; }
    if AnyTruncated(fills) {
      var g :| g in fills && g.truncated;
      assert g in fills + [f];
    }
  }

  datatype Error = SheetCount | TooLarge | InvalidCell

  predicate AllReadable(s: Sheet) {
    forall row :: row in s.rows ==> Readable(row)
  }

  /** The entry shows the greedy choice of these values under this share: all of them, unless it is marked as truncated. */
  ghost predicate ShowsChoice(e: Entry, all: seq<Item>, share: nat) {
    && (exists f: Fill :: Chosen(f, all, share) && e.cells == f.cells && e.truncated == f.truncated)
    && (!e.truncated ==> e.cells == all)
  }

  /** What the cells of these entries cost. */
  function CellCosts(entries: seq<Entry>): nat {
    if entries == [] then 0 else CellCosts(entries[..|entries| - 1]) + Costs(entries[|entries| - 1].cells)
  }

  lemma {:induction false} UsedIsCellCosts(entries: seq<Entry>, fills: seq<Fill>)
    requires |entries| == |fills| && forall i :: 0 <= i < |fills| ==> entries[i].cells == fills[i].cells
    ensures CellCosts(entries) == Used(fills)
  {
    hide Costs;
    if fills != [] {
      UsedLast(fills);
      UsedIsCellCosts(entries[..|entries| - 1], fills[..|fills| - 1]);
    }
  }

  lemma {:induction false} EntriesAsChosen(sheets: seq<Sheet>, fills: seq<Fill>, shares: seq<nat>, entries: seq<Entry>, budget: nat)
    requires Previewed(sheets, budget) == Some((fills, shares)) && sheets != [] && FilledSoFar(entries, sheets, fills)
    ensures |entries| == |shares| == |sheets|
    ensures forall i :: 0 <= i < |sheets| ==>
      && entries[i].name == (if |sheets[i].name| <= 100 then sheets[i].name else sheets[i].name[..100])
      && entries[i].hidden == sheets[i].hidden
      && (AllReadable(sheets[i]) ==> ShowsChoice(entries[i], RowItems(sheets[i].rows), shares[i]))
      && CellCosts(entries[..i]) <= budget && shares[i] == (budget - CellCosts(entries[..i])) / (|sheets| - i)
  {
    hide Previewed, FilledRows, Costs, Used, CellCosts, Chosen, RowItems, Readable;
    ShareOfEach(sheets, budget, 0);
    forall i | 0 <= i < |sheets|
      ensures entries[i].name == (if |sheets[i].name| <= 100 then sheets[i].name else sheets[i].name[..100])
      ensures entries[i].hidden == sheets[i].hidden
      ensures AllReadable(sheets[i]) ==> ShowsChoice(entries[i], RowItems(sheets[i].rows), shares[i])
      ensures CellCosts(entries[..i]) <= budget && shares[i] == (budget - CellCosts(entries[..i])) / (|sheets| - i)
    {
      assert entries[i] == Shown(sheets[i], fills[i]);
      ShareOfEach(sheets, budget, i);
      UsedIsCellCosts(entries[..i], fills[..i]);
      if AllReadable(sheets[i]) {
        ShownIsChosen(shares[i], sheets[i].rows);
        if !fills[i].truncated { UnmarkedIsWhole(fills[i], RowItems(sheets[i].rows), shares[i]); }
      }
    }
  }

  lemma {:induction false} UnreadableSomewhere(sheets: seq<Sheet>, budget: nat)
    requires Previewed(sheets, budget).None?
    ensures exists s :: s in sheets && !AllReadable(s)
    decreases |sheets|
  {
    hide FilledRows, Costs, Chosen, AllReadable;
    var share := budget / |sheets|;
    if AllReadable(sheets[0]) {
      assert forall row :: row in sheets[0].rows ==> Readable(row) by { RowsReadable(sheets[0]); }
      ShownIsChosen(share, sheets[0].rows);
      var used := Costs(FilledRows(Shared(share), sheets[0].rows).value.cells);
      UnreadableSomewhere(sheets[1..], if used <= budget then budget - used else 0);
    }
  }

  lemma RowsReadable(s: Sheet)
    requires AllReadable(s)
    ensures forall row :: row in s.rows ==> Readable(row)
  {
  }

  lemma {:induction false} TruncatedSomewhere(sheets: seq<Sheet>, fills: seq<Fill>, entries: seq<Entry>)
    requires |fills| == |sheets| && FilledSoFar(entries, sheets, fills)
    ensures AnyTruncated(fills) <==> exists i :: 0 <= i < |sheets| && entries[i].truncated
  {
    if i :| 0 <= i < |sheets| && entries[i].truncated {
      assert fills[i] in fills;
    }
    if AnyTruncated(fills) {
      var f :| f in fills && f.truncated;
      var i :| 0 <= i < |fills| && fills[i] == f;
      assert entries[i].truncated;
    }
  }

  method WorkbookPreview(sheets: seq<Sheet>) returns (r: Result<Preview, Error>, shares: seq<nat>)
    ensures !(1 <= |sheets| <= MAX_SHEETS) <==> r == Err(SheetCount)
    ensures 1 <= |sheets| <= MAX_SHEETS && InitialBudget(sheets) < 0 <==> r == Err(TooLarge)
    ensures r == Err(InvalidCell) ==> InitialBudget(sheets) >= 0 && Previewed(sheets, InitialBudget(sheets)).None?
    ensures r.Ok? ==>
      var p := Previewed(sheets, InitialBudget(sheets));
      && p.Some? && |p.value.0| == |sheets| && shares == p.value.1
      && FilledSoFar(r.value.sheets, sheets, p.value.0) && (r.value.truncated <==> AnyTruncated(p.value.0))
    ensures r.Ok? ==> PreviewBytes(r.value, 0) <= MAX_PREVIEW_BYTES - 1_000
    // What is written is short enough, and each sheet shows of its values what its share allows.
    ensures r.Ok? ==> TextBytes(PreviewText(r.value, 0)) <= 59000
    ensures 1 <= |sheets| <= 100 && InitialBudget(sheets) >= 0 && (forall s :: s in sheets ==> AllReadable(s)) ==> r.Ok?
    ensures r.Ok? ==> |r.value.sheets| == |shares| == |sheets| && forall i :: 0 <= i < |sheets| ==>
      && r.value.sheets[i].name == (if |sheets[i].name| <= 100 then sheets[i].name else sheets[i].name[..100])
      && r.value.sheets[i].hidden == sheets[i].hidden
      && (AllReadable(sheets[i]) ==> ShowsChoice(r.value.sheets[i], RowItems(sheets[i].rows), shares[i]))
    ensures r.Ok? ==> (r.value.truncated <==> exists i :: 0 <= i < |sheets| && r.value.sheets[i].truncated)
    ensures r.Ok? ==> forall i :: 0 <= i < |sheets| ==>
      CellCosts(r.value.sheets[..i]) <= InitialBudget(sheets)
      && shares[i] == (InitialBudget(sheets) - CellCosts(r.value.sheets[..i])) / (|sheets| - i)
  {
    hide InitialBudget, FilledSoFar, AnyTruncated, Previewed, PreviewBytes, PreviewText, TextBytes, Used, AllReadable, ShowsChoice, CellCosts;
    shares := [];
    if !(1 <= |sheets| <= MAX_SHEETS) { return Err(SheetCount), []; }
    var initial := InitialBudget(sheets);
    if initial < 0 { return Err(TooLarge), []; }
    var preview;
    ghost var fills;
    preview, shares, fills := ShareOut(sheets, initial);
    if preview.None? {
      UnreadableSomewhere(sheets, initial);
      return Err(InvalidCell), shares;
    }
    PreviewLength(preview.value, 0);
    EntriesAsChosen(sheets, fills, shares, preview.value.sheets, initial);
    TruncatedSomewhere(sheets, fills, preview.value.sheets);
    PreviewFits(sheets, fills, shares, preview.value.sheets, preview.value.truncated);
    return Ok(preview.value), shares;
  }

  method ShareOut(sheets: seq<Sheet>, initial: nat) returns (r: Option<Preview>, shares: seq<nat>,
                  ghost fills: seq<Fill>)
    ensures r.None? ==> Previewed(sheets, initial).None?
    ensures r.Some? ==>
      && Previewed(sheets, initial) == Some((fills, shares)) && |fills| == |sheets|
      && FilledSoFar(r.value.sheets, sheets, fills) && (r.value.truncated <==> AnyTruncated(fills))
  {
    hide FilledRows, Costs, FilledSoFar, AnyTruncated, Previewed, Joined, Bares, Shared;
    shares, fills := [], [];
    var budget: nat, entries, truncated := initial, Bares(sheets), false;
    assert sheets[0..] == sheets;
    JoinedNothing(Previewed(sheets, initial));
    NothingFilled(sheets);
    for i := 0 to |sheets|
      invariant |fills| == |shares| == i && |entries| == |sheets|
      invariant FilledSoFar(entries, sheets, fills) && (truncated <==> AnyTruncated(fills))
      invariant Joined(fills, shares, Previewed(sheets[i..], budget)) == Previewed(sheets, initial)
    {
      PreviewedStep(sheets, i, budget);
      var share := budget / (|sheets| - i);
      var f := FillSheet(sheets[i].rows, share);
      if f.None? {
        NothingJoined(fills, shares);
        return None, shares, fills;
      }
      SheetWithin(sheets[i].rows, share, budget, |sheets| - i);
      JoinedStep(fills, shares, f.value, share, Previewed(sheets[i + 1..], budget - Costs(f.value.cells)));
      FilledOneMore(entries, sheets, fills, f.value);
      entries := entries[i := entries[i].(cells := f.value.cells, truncated := f.value.truncated)];
      shares := shares + [share];
      fills := fills + [f.value];
      truncated := truncated || f.value.truncated;
      budget := budget - Costs(f.value.cells);
    }
    PreviewedAll(sheets[|sheets|..], budget, fills, shares);
    return Some(Preview(entries, truncated)), shares, fills;
  }

  lemma {:induction false} PreviewedStep(sheets: seq<Sheet>, i: nat, budget: nat)
    requires i < |sheets|
    ensures var share := budget / (|sheets| - i);
      var f := FilledRows(Shared(share), sheets[i].rows);
      Previewed(sheets[i..], budget)
      == if f.None? then None
         else Joined([f.value], [share], Previewed(sheets[i + 1..], if Costs(f.value.cells) <= budget then budget - Costs(f.value.cells) else 0))
  {
    assert sheets[i..][0] == sheets[i] && sheets[i..][1..] == sheets[i + 1..];
  }

  lemma {:induction false} PreviewedAll(sheets: seq<Sheet>, budget: nat, fills: seq<Fill>, shares: seq<nat>)
    requires sheets == []
    ensures Joined(fills, shares, Previewed(sheets, budget)) == Some((fills, shares))
  {
    assert fills + [] == fills && shares + [] == shares;
  }

  lemma NothingJoined(fills: seq<Fill>, shares: seq<nat>)
    ensures Joined(fills, shares, None) == None
  {
  }

  lemma NothingFilled(sheets: seq<Sheet>)
    ensures FilledSoFar(Bares(sheets), sheets, []) && !AnyTruncated([])
  {
  }

  lemma {:induction false} SheetWithin(rows: seq<seq<Cell>>, share: nat, budget: nat, n: nat)
    requires n > 0 && share == budget / n && FilledRows(Shared(share), rows).Some?
    ensures Costs(FilledRows(Shared(share), rows).value.cells) <= share <= budget
  {
    FilledRowsWithin(Shared(share), rows, share);
    ShareFits(budget, n);
  }

  function Joined(fills: seq<Fill>, shares: seq<nat>, rest: Option<(seq<Fill>, seq<nat>)>): Option<(seq<Fill>,
                  seq<nat>)> {
    if rest.None? then None else Some((fills + rest.value.0, shares + rest.value.1))
  }

  lemma JoinedNothing(rest: Option<(seq<Fill>, seq<nat>)>)
    ensures Joined([], [], rest) == rest
  {
    if rest.Some? { assert [] + rest.value.0 == rest.value.0 && [] + rest.value.1 == rest.value.1; }
  }

  lemma JoinedStep(fills: seq<Fill>, shares: seq<nat>, f: Fill, share: nat, rest: Option<(seq<Fill>, seq<nat>)>)
    ensures Joined(fills, shares, Joined([f], [share], rest)) == Joined(fills + [f], shares + [share], rest)
  {
    if rest.Some? {
      assert fills + ([f] + rest.value.0) == (fills + [f]) + rest.value.0;
      assert shares + ([share] + rest.value.1) == (shares + [share]) + rest.value.1;
    }
  }

  lemma ShareFits(budget: nat, n: nat)
    requires n > 0
    ensures (budget / n) * n <= budget && budget / n <= budget
  {
    assert budget == (budget / n) * n + budget % n;
    if n >= 2 { assert (budget / n) * n == (budget / n) * (n - 1) + budget / n; }
  }

  // ---------------------------------------------------------------- what the sharing guarantees

  function Used(fills: seq<Fill>): nat {
    if fills == [] then 0 else Costs(fills[0].cells) + Used(fills[1..])
  }

  lemma NextShare(budget: nat, n: nat, used: nat)
    requires n >= 2 && used <= budget / n
    ensures used <= budget && (budget - used) / (n - 1) >= budget / n
  {
    var share, left := budget / n, budget - used;
    ShareFits(budget, n);
    assert share * n == share * (n - 1) + share;
    assert left >= share * (n - 1);
    var q := left / (n - 1);
    assert left == q * (n - 1) + left % (n - 1);
    if q + 1 <= share { assert (q + 1) * (n - 1) <= share * (n - 1) by { Monotone(q + 1, share, n - 1); } }
  }

  lemma Monotone(a: nat, b: nat, n: nat)
    requires a <= b
    ensures a * n <= b * n
  {
  }

  /**
   The shares offered to the sheets never decrease, so each of n sheets is offered at least the
   n-th part of the budget, and all sheets together use no more than the budget.
   */
  lemma {:induction false} FairShares(sheets: seq<Sheet>, budget: nat)
    requires sheets != [] && Previewed(sheets, budget).Some?
    ensures var (fills, shares) := Previewed(sheets, budget).value;
      && |fills| == |shares| == |sheets| && Used(fills) <= budget
      && shares[0] == budget / |sheets|
      && (forall i, j :: 0 <= i <= j < |shares| ==> shares[i] <= shares[j])
    decreases |sheets|
  {
    hide FilledRows, Costs;
    var share := budget / |sheets|;
    SheetWithin(sheets[0].rows, share, budget, |sheets|);
    var f := FilledRows(Shared(share), sheets[0].rows).value;
    var left := budget - Costs(f.cells);
    var (rest, shares) := Previewed(sheets[1..], left).value;
    assert ([f] + rest)[1..] == rest;
    if |sheets| == 1 {
      assert rest == [] && shares == [];
    } else {
      FairShares(sheets[1..], left);
      NextShare(budget, |sheets|, Costs(f.cells));
      assert forall i :: 0 <= i < |shares| ==> shares[0] <= shares[i];
    }
  }

  lemma {:induction false} ItemsCost(items: seq<Item>)
    ensures ItemsBytes(items, 0) <= Costs(items)
  {
    if |items| == 1 {
      assert items[..0] == [];
    } else if items != [] {
      ItemsCost(items[..|items| - 1]);
    }
  }

  /** Entry by entry, the compact output is no longer than the bare listing with its blanks plus what the cells cost. */
  lemma {:induction false} EntriesCost(entries: seq<Entry>, bares: seq<Entry>, fills: seq<Fill>)
    requires |entries| == |bares| == |fills|
    requires forall i :: 0 <= i < |entries| ==>
      bares[i] == Entry(entries[i].name, entries[i].hidden, [], false) && entries[i].cells == fills[i].cells
    ensures EntriesBytes(entries, 0) <= EntriesBytes(bares, 1) + Used(fills)
  {
    if |entries| == 1 {
      ItemsCost(entries[0].cells);
      assert fills[1..] == [];
    } else if entries != [] {
      var last := |entries| - 1;
      EntriesCost(entries[..last], bares[..last], fills[..last]);
      ItemsCost(entries[last].cells);
      UsedLast(fills);
    }
  }

  lemma {:induction false} UsedLast(fills: seq<Fill>)
    requires fills != []
    ensures Used(fills) == Used(fills[..|fills| - 1]) + Costs(fills[|fills| - 1].cells)
  {
    if |fills| == 1 {
      assert fills[1..] == [] && fills[..0] == [];
    } else {
      UsedLast(fills[1..]);
      assert fills[1..][..|fills| - 2] == fills[..|fills| - 1][1..];
    }
  }

  /** For every workbook that gets a preview, the output stays a thousand bytes below the limit checked at the end. */
  lemma {:induction false} PreviewFits(sheets: seq<Sheet>, fills: seq<Fill>, shares: seq<nat>, entries: seq<Entry>,
                                       truncated: bool)
    requires sheets != [] && InitialBudget(sheets) >= 0 && Previewed(sheets, InitialBudget(sheets)) == Some((fills, shares))
    requires |fills| == |sheets| && FilledSoFar(entries, sheets, fills)
    ensures PreviewBytes(Preview(entries, truncated), 0) <= MAX_PREVIEW_BYTES - 1_000
  {
    FairShares(sheets, InitialBudget(sheets));
    EntriesCost(entries, Bares(sheets), fills);
  }

  /** The budget: the limit, less a reserve and the longer of the two measures of the listing without cells. */
  lemma {:induction false} BudgetWritten(sheets: seq<Sheet>, bares: seq<Entry>)
    requires |bares| == |sheets| && forall i :: 0 <= i < |sheets| ==>
      bares[i] == Entry(if |sheets[i].name| <= 100 then sheets[i].name else sheets[i].name[..100], sheets[i].hidden, [], false)
    ensures var wire, names := TextBytes(PreviewText(Preview(bares, false), 1)), ValidationBytes(bares);
      InitialBudget(sheets) == 60000 - (if wire >= names then wire else names) - 1000
  {
    hide PreviewText, PreviewBytes, ValidationBytes;
    PreviewLength(Preview(bares, false), 1);
    assert bares == Bares(sheets);
  }

  // ---------------------------------------------------------------- nothing is left out without need

  function ItemsOf(cells: seq<Cell>): seq<Item> {
    if cells == [] then []
    else
      var shown := cells[0].value.Some? && cells[0].value.value != "";
      (if shown then [Item(cells[0].address, cells[0].value.value)] else []) + ItemsOf(cells[1..])
  }

  function RowItems(rows: seq<seq<Cell>>): seq<Item> {
    if rows == [] then [] else ItemsOf(rows[0]) + RowItems(rows[1..])
  }

  predicate Readable(cells: seq<Cell>) {
    forall i :: 0 <= i < |cells| ==> cells[i].value.Some?
  }

  lemma {:induction false} CostsJoin(a: seq<Item>, b: seq<Item>)
    ensures Costs(a + b) == Costs(a) + Costs(b)
  {
    if b == [] {
      assert a + b == a;
    } else {
      CostsJoin(a, b[..|b| - 1]);
      assert (a + b)[..|a + b| - 1] == a + b[..|b| - 1];
    }
  }

  lemma NoCosts()
    ensures Costs([]) == 0
  {
  }

  function Extended(f: Fill, items: seq<Item>): Fill {
    f.(cells := f.cells + items, left := f.left - Costs(items))
  }

  lemma {:induction false} FilledWhole(f: Fill, cells: seq<Cell>)
    requires !f.full && Readable(cells) && Costs(ItemsOf(cells)) <= f.left && |f.cells| + |ItemsOf(cells)| <= MAX_CELLS_PER_SHEET
    ensures Filled(f, cells) == Some(Extended(f, ItemsOf(cells)))
    decreases |cells|
  {
    hide ItemBytes;
    if cells == [] {
      assert f.cells + [] == f.cells;
    } else if cells[0].value.value == "" {
      assert [] + ItemsOf(cells[1..]) == ItemsOf(cells[1..]);
      FilledWhole(f, cells[1..]);
    } else {
      var item, rest := Item(cells[0].address, cells[0].value.value), ItemsOf(cells[1..]);
      CostsJoin([item], rest);
      assert [item][..0] == [] && Costs([item]) == Cost(item);
      FilledWhole(Offered(f, cells[0]), cells[1..]);
      assert f.cells + ([item] + rest) == (f.cells + [item]) + rest;
    }
  }

  /** A sheet whose values fit its share and the cell limit is shown whole, in order, and not marked truncated. */
  lemma {:induction false} WholeSheetShown(f: Fill, rows: seq<seq<Cell>>)
    requires !f.full && (forall r :: r in rows ==> Readable(r))
    requires Costs(RowItems(rows)) <= f.left && |f.cells| + |RowItems(rows)| <= MAX_CELLS_PER_SHEET
    ensures FilledRows(f, rows) == Some(Extended(f, RowItems(rows)))
    decreases |rows|
  {
    hide Costs, Filled, ItemsOf, Readable;
    if rows == [] {
      assert f.cells + [] == f.cells && Costs([]) == 0 by { NoCosts(); }
    } else {
      var first, rest := ItemsOf(rows[0]), RowItems(rows[1..]);
      CostsJoin(first, rest);
      FilledWhole(f, rows[0]);
      WholeSheetShown(Extended(f, first), rows[1..]);
      assert f.cells + (first + rest) == (f.cells + first) + rest;
    }
  }

  // ---------------------------------------------------------------- which values are shown

  /** The first `n` values without those that are not taken. */
  function Selected(all: seq<Item>, taken: seq<bool>, n: nat): seq<Item>
    requires n <= |all| == |taken|
  {
    if n == 0 then [] else Selected(all, taken, n - 1) + if taken[n - 1] then [all[n - 1]] else []
  }

  predicate TakenIfItFits(all: seq<Item>, share: nat, taken: seq<bool>, i: nat)
    requires i < |all| == |taken|
  {
    taken[i] <==> |Selected(all, taken, i)| < 2000 && Cost(all[i]) <= share - Costs(Selected(all, taken, i))
  }

  /**
   A value is shown exactly if fewer than 2000 are shown before it and it costs no more than those
   have left of the share. The sheet is marked as truncated exactly if a value is not shown.
   */
  ghost predicate ChosenBy(f: Fill, all: seq<Item>, share: nat, taken: seq<bool>) {
    && |taken| == |all| && f.cells == Selected(all, taken, |all|) && f.left == share - Costs(f.cells)
    && (forall i :: 0 <= i < |all| ==> TakenIfItFits(all, share, taken, i))
    && (f.truncated <==> exists i :: 0 <= i < |all| && !taken[i])
  }

  ghost predicate Chosen(f: Fill, all: seq<Item>, share: nat) {
    exists taken :: ChosenBy(f, all, share, taken)
  }

  /** Values offered one after the other. */
  function Offers(f: Fill, items: seq<Item>): Fill {
    if items == [] then f
    else Offered(Offers(f, items[..|items| - 1]), Cell(items[|items| - 1].address, Some(items[|items| - 1].value)))
  }

  lemma {:induction false} OffersJoin(f: Fill, a: seq<Item>, b: seq<Item>)
    ensures Offers(f, a + b) == Offers(Offers(f, a), b)
  {
    hide Offered;
    if b == [] {
      assert a + b == a;
    } else {
      assert (a + b)[..|a + b| - 1] == a + b[..|b| - 1];
      OffersJoin(f, a, b[..|b| - 1]);
    }
  }

  lemma {:induction false} FullStays(f: Fill, items: seq<Item>)
    requires f.full
    ensures Offers(f, items) == f
  {
    if items != [] { FullStays(f, items[..|items| - 1]); }
  }

  lemma {:induction false} OneOffer(f: Fill, item: Item)
    ensures Offers(f, [item]) == Offered(f, Cell(item.address, Some(item.value)))
  {
    assert [item][..0] == [];
  }

  lemma {:induction false} RowOffers(f: Fill, cells: seq<Cell>)
    requires Readable(cells)
    ensures Filled(f, cells) == Some(Offers(f, ItemsOf(cells)))
    decreases |cells|
  {
    hide Offered;
    if f.full {
      FullStays(f, ItemsOf(cells));
    } else if cells != [] {
      var c := cells[0];
      RowOffers(Offered(f, c), cells[1..]);
      var item := Item(c.address, c.value.value);
      if c.value.value == "" {
        assert [] + ItemsOf(cells[1..]) == ItemsOf(cells[1..]);
        EmptyOffer(f, c);
      } else {
        OneOffer(f, item);
        OffersJoin(f, [item], ItemsOf(cells[1..]));
      }
    }
  }

  lemma EmptyOffer(f: Fill, c: Cell)
    requires c.value == Some("")
    ensures Offered(f, c) == f
  {
  }

  lemma {:induction false} SheetOffers(f: Fill, rows: seq<seq<Cell>>)
    requires forall r :: r in rows ==> Readable(r)
    ensures FilledRows(f, rows) == Some(Offers(f, RowItems(rows)))
    decreases |rows|
  {
    hide Offered, Filled, ItemsOf, Readable;
    if f.full {
      FullStays(f, RowItems(rows));
    } else if rows != [] {
      RowOffers(f, rows[0]);
      SheetOffers(Offers(f, ItemsOf(rows[0])), rows[1..]);
      OffersJoin(f, ItemsOf(rows[0]), RowItems(rows[1..]));
    }
  }

  lemma {:induction false} SelectedPrefix(all: seq<Item>, taken: seq<bool>, x: Item, b: bool, n: nat)
    requires n <= |all| == |taken|
    ensures Selected(all + [x], taken + [b], n) == Selected(all, taken, n)
  {
    if n > 0 { SelectedPrefix(all, taken, x, b, n - 1); }
  }

  lemma {:induction false} StillFits(all: seq<Item>, share: nat, taken: seq<bool>, x: Item, b: bool, i: nat)
    requires i < |all| == |taken| && TakenIfItFits(all, share, taken, i)
    ensures TakenIfItFits(all + [x], share, taken + [b], i)
  {
    hide Cost, Costs, Selected;
    SelectedPrefix(all, taken, x, b, i);
  }

  lemma {:induction false} LastFits(all: seq<Item>, share: nat, taken: seq<bool>, x: Item, b: bool)
    requires |all| == |taken|
    requires b <==> |Selected(all, taken, |all|)| < 2000 && Cost(x) <= share - Costs(Selected(all, taken, |all|))
    ensures TakenIfItFits(all + [x], share, taken + [b], |all|)
    ensures Selected(all + [x], taken + [b], |all| + 1) == Selected(all, taken, |all|) + if b then [x] else []
  {
    hide Cost, Costs;
    SelectedPrefix(all, taken, x, b, |all|);
  }

  lemma {:induction false} OneMoreCost(items: seq<Item>, x: Item)
    ensures Costs(items + [x]) == Costs(items) + Cost(x)
  {
    hide Cost;
    assert (items + [x])[..|items|] == items;
  }

  /** What one more value adds to a greedy choice; a sheet that is full stays as it is. */
  lemma {:induction false} ChosenOneMore(f: Fill, all: seq<Item>, share: nat, taken: seq<bool>, x: Item) returns (more: seq<bool>)
    requires ChosenBy(f, all, share, taken) && x.value != "" && (f.full ==> |f.cells| >= 2000 && f.truncated)
    ensures var g := Offered(f, Cell(x.address, Some(x.value)));
      ChosenBy(g, all + [x], share, more) && (g.full ==> |g.cells| >= 2000 && g.truncated)
  {
    hide Cost, Costs, Selected, TakenIfItFits;
    var b := |f.cells| < 2000 && Cost(x) <= f.left;
    more := taken + [b];
    LastFits(all, share, taken, x, b);
    OneMoreCost(f.cells, x);
    forall i | 0 <= i < |all + [x]| ensures TakenIfItFits(all + [x], share, more, i) {
      if i < |all| { StillFits(all, share, taken, x, b, i); }
    }
    assert Item(x.address, x.value) == x;
    if exists i :: 0 <= i < |all| && !taken[i] {
      var i :| 0 <= i < |all| && !taken[i];
      assert !more[i];
    }
    assert more[|all|] == b;
  }

  lemma {:induction false} OffersChosen(share: nat, all: seq<Item>) returns (taken: seq<bool>)
    requires forall i :: 0 <= i < |all| ==> all[i].value != ""
    ensures var f := Offers(Shared(share), all); ChosenBy(f, all, share, taken) && (f.full ==> |f.cells| >= 2000 && f.truncated)
  {
    hide Offered, Cost;
    if all == [] {
      taken := [];
    } else {
      var init, x := all[..|all| - 1], all[|all| - 1];
      taken := OffersChosen(share, init);
      taken := ChosenOneMore(Offers(Shared(share), init), init, share, taken, x);
      assert init + [x] == all;
    }
  }

  lemma {:induction false} ItemsNotEmpty(rows: seq<seq<Cell>>)
    ensures forall i :: 0 <= i < |RowItems(rows)| ==> RowItems(rows)[i].value != ""
  {
    if rows != [] {
      RowNotEmpty(rows[0]);
      ItemsNotEmpty(rows[1..]);
    }
  }

  lemma {:induction false} RowNotEmpty(cells: seq<Cell>)
    ensures forall i :: 0 <= i < |ItemsOf(cells)| ==> ItemsOf(cells)[i].value != ""
  {
    if cells != [] { RowNotEmpty(cells[1..]); }
  }

  /** Of a sheet that can be read, the values shown are the greedy choice among all that are not empty, in their order. */
  lemma {:induction false} ShownIsChosen(share: nat, rows: seq<seq<Cell>>)
    requires forall r :: r in rows ==> Readable(r)
    ensures FilledRows(Shared(share), rows).Some? && Chosen(FilledRows(Shared(share), rows).value, RowItems(rows), share)
  {
    hide Readable, Offers, ChosenBy;
    SheetOffers(Shared(share), rows);
    ItemsNotEmpty(rows);
    var taken := OffersChosen(share, RowItems(rows));
  }

  /** A sheet that is not marked as truncated shows all its values. */
  lemma {:induction false} UnmarkedIsWhole(f: Fill, all: seq<Item>, share: nat)
    requires Chosen(f, all, share) && !f.truncated
    ensures f.cells == all
  {
    hide TakenIfItFits;
    var taken :| ChosenBy(f, all, share, taken);
    AllSelected(all, taken, |all|);
    assert all[..|all|] == all;
  }

  lemma {:induction false} AllSelected(all: seq<Item>, taken: seq<bool>, n: nat)
    requires n <= |all| == |taken| && forall i :: 0 <= i < |all| ==> taken[i]
    ensures Selected(all, taken, n) == all[..n]
  {
    if n > 0 { AllSelected(all, taken, n - 1); }
  }

  /** The shares: what the sheets before have left, divided by the sheets to come. */
  lemma {:induction false} ShareOfEach(sheets: seq<Sheet>, budget: nat, i: nat)
    requires Previewed(sheets, budget).Some? && i < |sheets|
    ensures var (fills, shares) := Previewed(sheets, budget).value;
      && |fills| == |shares| == |sheets| && Used(fills[..i]) <= budget
      && shares[i] == (budget - Used(fills[..i])) / (|sheets| - i)
      && Some(fills[i]) == FilledRows(Shared(shares[i]), sheets[i].rows)
    decreases |sheets|
  {
    hide FilledRows, Costs;
    FairShares(sheets, budget);
    var (fills, shares) := Previewed(sheets, budget).value;
    SheetWithin(sheets[0].rows, budget / |sheets|, budget, |sheets|);
    if i == 0 {
      assert fills[..0] == [];
    } else {
      ShareOfEach(sheets[1..], budget - Costs(fills[0].cells), i - 1);
      assert fills[1..][..i - 1] == fills[..i][1..];
    }
  }
}
