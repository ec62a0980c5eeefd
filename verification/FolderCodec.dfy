/**
 Mailbox names on the wire: the modified UTF-7 of section 5.1.3 of RFC 3501 and the
 quoted strings of its section 4.3. Names are sequences of code points, because the
 program's strings may hold lone surrogates.
 */
module FolderCodec {
  import opened Wrappers

  type CodePoint = n: int | 0 <= n < 0x11_0000
  type Byte = n: int | 0 <= n < 256
  type Sextet = n: int | 0 <= n < 64

  datatype Error = InvalidInput | NotEncodable

  // ---------------------------------------------------------------- UTF-16, big endian

  predicate Surrogate(c: CodePoint) {
    0xD800 <= c < 0xE000
  }

  function UnitBytes(unit: int): seq<Byte>
    requires 0 <= unit < 0x1_0000
  {
    [unit / 256, unit % 256]
  }

  function Utf16(name: seq<CodePoint>): seq<Byte> {
    if name == [] then []
    else if name[0] < 0x1_0000 then UnitBytes(name[0]) + Utf16(name[1..])
    else
      var v := name[0] - 0x1_0000;
      UnitBytes(0xD800 + v / 1024) + UnitBytes(0xDC00 + v % 1024) + Utf16(name[1..])
  }

  function UnitAt(bytes: seq<Byte>, at: nat): int
    requires at + 1 < |bytes|
  {
    bytes[at] as int * 256 + bytes[at + 1] as int
  }

  /** Strict decoding: an odd byte or an unpaired surrogate is an error. */
  function FromUtf16(bytes: seq<Byte>): Option<seq<CodePoint>> {
    if bytes == [] then Some([])
    else if |bytes| == 1 then None
    else
      var unit := UnitAt(bytes, 0);
      if unit < 0xD800 || unit >= 0xE000 then
        var rest := FromUtf16(bytes[2..]);
        if rest.None? then None else Some([unit] + rest.value)
      else if unit >= 0xDC00 || |bytes| < 4 then None
      else
        var low := UnitAt(bytes, 2);
        if !(0xDC00 <= low < 0xE000) then None
        else
          var rest := FromUtf16(bytes[4..]);
          if rest.None? then None else Some([0x1_0000 + (unit - 0xD800) * 1024 + (low - 0xDC00)] + rest.value)
  }

  // ---------------------------------------------------------------- base64

  function Letter(v: Sextet): char {
    if v < 26 then 'A' + v as char
    else if v < 52 then 'a' + (v - 26) as char
    else if v < 62 then '0' + (v - 52) as char
    else if v == 62 then '+' else '/'
  }

  function Value(c: char): Option<Sextet> {
    if 'A' <= c <= 'Z' then Some(c as int - 65)
    else if 'a' <= c <= 'z' then Some(c as int - 71)
    else if '0' <= c <= '9' then Some(c as int + 4)
    else if c == '+' then Some(62) else if c == '/' then Some(63) else None
  }

  function Three(a: Byte, b: Byte, c: Byte): string {
    [Letter(a / 4), Letter(a % 4 * 16 + b / 16), Letter(b % 16 * 4 + c / 64), Letter(c % 64)]
  }

  /** The letters of the encoding, without its padding. */
  function Letters(bytes: seq<Byte>): string {
    if bytes == [] then []
    else if |bytes| == 1 then [Letter(bytes[0] / 4), Letter(bytes[0] % 4 * 16)]
    else if |bytes| == 2 then [Letter(bytes[0] / 4), Letter(bytes[0] % 4 * 16 + bytes[1] / 16), Letter(bytes[1] % 16 * 4)]
    else Three(bytes[0], bytes[1], bytes[2]) + Letters(bytes[3..])
  }

  function Repeat(c: char, n: nat): string {
    seq(n, i => c)
  }

  function Base64(bytes: seq<Byte>): string {
    Letters(bytes) + Repeat('=', (3 - |bytes| % 3) % 3)
  }

  /**
   The lenient decoder: characters outside the alphabet are skipped, and enough padding
   ends the input. `quad` letters of the current group were read, `left` holds their
   bits not yet written, `pads` counts padding characters since the last letter.
   */
  function Decode64(s: string, quad: nat, left: nat, pads: nat): Option<seq<Byte>>
    requires quad < 4
    requires left < (if quad == 0 then 1 else if quad == 1 then 64 else if quad == 2 then 16 else 4)
    decreases |s|
  {
    if s == [] then (if quad == 0 then Some([]) else None)
    else if s[0] == '=' then
      if quad >= 2 && quad + pads + 1 >= 4 then Some([])
      else Decode64(s[1..], quad, left, if quad >= 2 then pads + 1 else pads)
    else
      var v := Value(s[0]);
      if v.None? then Decode64(s[1..], quad, left, pads)
      else if quad == 0 then Decode64(s[1..], 1, v.value, 0)
      else if quad == 1 then Emit(left * 4 + v.value / 16, Decode64(s[1..], 2, v.value % 16, 0))
      else if quad == 2 then Emit(left * 16 + v.value / 4, Decode64(s[1..], 3, v.value % 4, 0))
      else Emit(left * 64 + v.value, Decode64(s[1..], 0, 0, 0))
  }

  function Emit(b: Byte, rest: Option<seq<Byte>>): Option<seq<Byte>> {
    if rest.None? then None else Some([b] + rest.value)
  }

  // ---------------------------------------------------------------- string operations

  function Replace(s: string, from: char, to: string): string {
    if s == [] then [] else (if s[0] == from then to else [s[0]]) + Replace(s[1..], from, to)
  }

  function StripRight(s: string, c: char): string {
    if s != [] && s[|s| - 1] == c then StripRight(s[..|s| - 1], c) else s
  }

  /** The position of the first `c`, or the length. */
  function Find(s: string, c: char): (i: nat)
    ensures i <= |s| && (i < |s| ==> s[i] == c) && forall j :: 0 <= j < i ==> s[j] != c
  {
    if s == [] || s[0] == c then 0 else 1 + Find(s[1..], c)
  }

  // ---------------------------------------------------------------- encode_folder

  predicate Printable(c: CodePoint) {
    0x20 <= c <= 0x7E
  }

  function Shifted(run: seq<CodePoint>): string {
    "&" + Replace(StripRight(Base64(Utf16(run)), '='), '/', ",") + "-"
  }

  function Flushed(pending: seq<CodePoint>): string {
    if pending == [] then "" else Shifted(pending)
  }

  function Literal(c: CodePoint): string
    requires Printable(c)
  {
    if c == '&' as int then "&-" else [c as char]
  }

  /** The wire form of `name` after a run of characters that is still pending. */
  function Wire(pending: seq<CodePoint>, name: seq<CodePoint>): string
    decreases |name|
  {
    if name == [] then Flushed(pending)
    else if Printable(name[0]) then Flushed(pending) + Literal(name[0]) + Wire([], name[1..])
    else Wire(pending + [name[0]], name[1..])
  }

  predicate AcceptedInput(name: seq<CodePoint>) {
    0 < |name| <= 500 && forall i :: 0 <= i < |name| ==> name[i] != 13 && name[i] != 10 && name[i] != 0
  }

  predicate Encodable(name: seq<CodePoint>) {
    forall i :: 0 <= i < |name| ==> !Surrogate(name[i])
  }

  method EncodeFolder(name: seq<CodePoint>) returns (r: Result<string, Error>)
    ensures r.Ok? <==>
      0 < |name| <= 500 && forall i :: 0 <= i < |name| ==> name[i] !in {0, 10, 13} && !(0xD800 <= name[i] <= 0xDFFF)
    ensures r.Ok? ==> r.value == Wire([], name)
    ensures r.Err? ==> r.error == if AcceptedInput(name) then NotEncodable else InvalidInput
  {
    hide Shifted;
    hide Literal;
    if !AcceptedInput(name) { return Err(InvalidInput); }
    var chunks := "";
    var pending: seq<CodePoint> := [];
    assert name[0..] == name && chunks + Wire(pending, name[0..]) == Wire([], name);
    for n := 0 to |name|
      invariant Wire([], name) == chunks + Wire(pending, name[n..])
      invariant |pending| <= n
      invariant pending == name[n - |pending|..n]
      invariant forall i :: 0 <= i < n - |pending| ==> !Surrogate(name[i])
    {
      var c := name[n];
      if Printable(c) {
        if pending != [] {
          if !Encodable(pending) { return Err(NotEncodable); }
          PendingEncodable(name, pending, n);
          chunks := chunks + Shifted(pending);
        } else {
          assert chunks + Flushed(pending) == chunks;
        }
        chunks := chunks + Literal(c);
        pending := [];
      } else {
        pending := pending + [c];
      }
    }
    assert name[|name|..] == [];
    if pending != [] {
      if !Encodable(pending) { return Err(NotEncodable); }
      PendingEncodable(name, pending, |name|);
      chunks := chunks + Shifted(pending);
    } else {
      assert chunks + "" == chunks;
    }
    return Ok(chunks);
  }

  lemma PendingEncodable(name: seq<CodePoint>, pending: seq<CodePoint>, n: nat)
    requires |pending| <= n <= |name| && pending == name[n - |pending|..n] && Encodable(pending)
    ensures forall i :: n - |pending| <= i < n ==> !Surrogate(name[i])
  {
    forall i | n - |pending| <= i < n ensures !Surrogate(name[i]) {
      assert name[i] == pending[i - (n - |pending|)];
    }
  }

  // ---------------------------------------------------------------- decode_folder

  function Unshift(value: string): Option<seq<CodePoint>> {
    if value == "" then Some(['&' as int])
    else if exists i :: 0 <= i < |value| && value[i] as int >= 128 then None
    else
      var bytes := Decode64(Replace(value, ',', "/") + Repeat('=', (4 - |value| % 4) % 4), 0, 0, 0);
      if bytes.None? then None else FromUtf16(bytes.value)
  }

  /** Every `&` with a later `-` opens a shifted run up to the first such `-`; any other character stands for itself. */
  function Decode(wire: string): Option<seq<CodePoint>>
    decreases |wire|
  {
    if wire == [] then Some([])
    else
      var end := Find(wire[1..], '-');
      if wire[0] == '&' && end < |wire[1..]| then
        var run := Unshift(wire[1..][..end]);
        var rest := Decode(wire[1..][end + 1..]);
        if run.None? || rest.None? then None else Some(run.value + rest.value)
      else
        var rest := Decode(wire[1..]);
        if rest.None? then None else Some([wire[0] as int] + rest.value)
  }

  // ---------------------------------------------------------------- quoted strings

  function Quote(s: string): string {
    "\"" + Replace(Replace(s, '\\', "\\\\"), '"', "\\\"") + "\""
  }

  /** A backslash before any character but a line feed is dropped. */
  function Unescape(s: string): string {
    if s == [] then []
    else if s[0] == '\\' && |s| > 1 && s[1] != '\n' then [s[1]] + Unescape(s[2..])
    else [s[0]] + Unescape(s[1..])
  }

  /** A folder name as it is read back from a LIST row. */
  function ReadName(field: string): Option<seq<CodePoint>> {
    if field != [] && field[0] == '"' && field[|field| - 1] == '"'
    then Decode(Unescape(if |field| < 2 then "" else field[1..|field| - 1]))
    else Decode(field)
  }
}
