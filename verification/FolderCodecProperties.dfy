/** Names survive the trip to the wire and back, and what is sent is printable and well formed. */
module FolderCodecProperties {
  import opened Wrappers
  import opened FolderCodec

  lemma UnitBytesAt(unit: int, rest: seq<Byte>)
    requires 0 <= unit < 0x1_0000
    ensures UnitAt(UnitBytes(unit) + rest, 0) == unit && (UnitBytes(unit) + rest)[2..] == rest
  {
  }

  lemma PairArithmetic(c: CodePoint)
    requires c >= 0x1_0000
    ensures var v := c - 0x1_0000;
            && 0xD800 <= 0xD800 + v / 1024 < 0xDC00
            && 0xDC00 <= 0xDC00 + v % 1024 < 0xE000
            && 0x1_0000 + (0xD800 + v / 1024 - 0xD800) * 1024 + (0xDC00 + v % 1024 - 0xDC00) == c
  {
  }

  lemma {:induction false} DecodePair(high: int, low: int, rest: seq<Byte>)
    requires 0xD800 <= high < 0xDC00 <= low < 0xE000 && FromUtf16(rest).Some?
    ensures FromUtf16(UnitBytes(high) + UnitBytes(low) + rest) ==
            Some([0x1_0000 + (high - 0xD800) * 1024 + (low - 0xDC00)] + FromUtf16(rest).value)
  {
    var tail := UnitBytes(low) + rest;
    var bytes := UnitBytes(high) + UnitBytes(low) + rest;
    assert bytes == UnitBytes(high) + tail;
    UnitBytesAt(high, tail);
    UnitBytesAt(low, rest);
    assert UnitAt(bytes, 2) == UnitAt(tail, 0);
    assert bytes[4..] == rest;
  }

  lemma {:induction false} Utf16RoundTrip(name: seq<CodePoint>)
    requires Encodable(name)
    ensures FromUtf16(Utf16(name)) == Some(name)
  {
    if name != [] {
      Utf16RoundTrip(name[1..]);
      var c, rest := name[0], Utf16(name[1..]);
      if c < 0x1_0000 {
        UnitBytesAt(c, rest);
      } else {
        PairArithmetic(c);
        DecodePair(0xD800 + (c - 0x1_0000) / 1024, 0xDC00 + (c - 0x1_0000) % 1024, rest);
      }
      assert [c] + name[1..] == name;
    }
  }

  lemma LetterValue(v: Sextet)
    ensures Value(Letter(v)) == Some(v) && Letter(v) != '=' && Letter(v) != ',' && Letter(v) != '-' && Letter(v) != '&'
    ensures Letter(v) as int < 128
  {
  }

  lemma Bits(a: Byte, b: Byte, c: Byte)
    ensures a / 4 * 4 + (a % 4 * 16 + b / 16) / 16 == a
    ensures (a % 4 * 16 + b / 16) % 16 * 16 + (b % 16 * 4 + c / 64) / 4 == b
    ensures (b % 16 * 4 + c / 64) % 4 * 64 + c % 64 == c
  {
    assert (a % 4 * 16 + b / 16) / 16 == a % 4;
    assert (a % 4 * 16 + b / 16) % 16 == b / 16;
    assert (b % 16 * 4 + c / 64) / 4 == b % 16;
    assert (b % 16 * 4 + c / 64) % 4 == c / 64;
  }

  lemma {:induction false} DecodeLetter(v: Sextet, s: string, quad: nat, left: nat, pads: nat)
    requires quad < 4
    requires left < (if quad == 0 then 1 else if quad == 1 then 64 else if quad == 2 then 16 else 4)
    ensures Decode64([Letter(v)] + s, quad, left, pads) ==
            if quad == 0 then Decode64(s, 1, v, 0)
            else if quad == 1 then Emit(left * 4 + v / 16, Decode64(s, 2, v % 16, 0))
            else if quad == 2 then Emit(left * 16 + v / 4, Decode64(s, 3, v % 4, 0))
            else Emit(left * 64 + v, Decode64(s, 0, 0, 0))
  {
    LetterValue(v);
    assert ([Letter(v)] + s)[1..] == s;
  }

  lemma {:induction false} DecodeThree(a: Byte, b: Byte, c: Byte, s: string)
    requires Decode64(s, 0, 0, 0).Some?
    ensures Decode64(Three(a, b, c) + s, 0, 0, 0) == Some([a, b, c] + Decode64(s, 0, 0, 0).value)
  {
    hide Decode64;
    hide Letter;
    var v0, v1, v2, v3 := a / 4, a % 4 * 16 + b / 16, b % 16 * 4 + c / 64, c % 64;
    Bits(a, b, c);
    var s3 := [Letter(v3)] + s;
    var s2 := [Letter(v2)] + s3;
    var s1 := [Letter(v1)] + s2;
    assert Three(a, b, c) + s == [Letter(v0)] + s1;
    DecodeLetter(v0, s1, 0, 0, 0);
    DecodeLetter(v1, s2, 1, v0, 0);
    DecodeLetter(v2, s3, 2, v1 % 16, 0);
    DecodeLetter(v3, s, 3, v2 % 4, 0);
    var rest := Decode64(s, 0, 0, 0).value;
    assert [a] + ([b] + ([c] + rest)) == [a, b, c] + rest;
  }

  lemma DecodeOne(a: Byte)
    ensures Decode64([Letter(a / 4), Letter(a % 4 * 16), '=', '='], 0, 0, 0) == Some([a])
  {
    Bits(a, 0, 0);
    var s1 := [Letter(a % 4 * 16)] + "==";
    assert [Letter(a / 4), Letter(a % 4 * 16), '=', '='] == [Letter(a / 4)] + s1;
    DecodeLetter(a / 4, s1, 0, 0, 0);
    DecodeLetter(a % 4 * 16, "==", 1, a / 4, 0);
    assert "=="[1..] == "=";
    assert Decode64("==", 2, 0, 0) == Some([]);
    assert [a] + [] == [a];
  }

  lemma DecodeTwo(a: Byte, b: Byte)
    ensures Decode64([Letter(a / 4), Letter(a % 4 * 16 + b / 16), Letter(b % 16 * 4), '='], 0, 0, 0) == Some([a, b])
  {
    Bits(a, b, 0);
    var v1, v2 := a % 4 * 16 + b / 16, b % 16 * 4;
    var s2 := [Letter(v2)] + "=";
    var s1 := [Letter(v1)] + s2;
    assert [Letter(a / 4), Letter(v1), Letter(v2), '='] == [Letter(a / 4)] + s1;
    DecodeLetter(a / 4, s1, 0, 0, 0);
    DecodeLetter(v1, s2, 1, a / 4, 0);
    DecodeLetter(v2, "=", 2, v1 % 16, 0);
    assert Decode64("=", 3, 0, 0) == Some([]);
    assert [a] + ([b] + []) == [a, b];
  }

  function Padding(bytes: seq<Byte>): string {
    Repeat('=', (3 - |bytes| % 3) % 3)
  }

  /** Decoding what was encoded, with its padding, gives the bytes back. */
  lemma {:induction false} Base64RoundTrip(bytes: seq<Byte>)
    ensures Decode64(Letters(bytes) + Padding(bytes), 0, 0, 0) == Some(bytes)
  {
    hide Decode64;
    hide Letter;
    if bytes == [] {
      EmptyDecodes();
      assert Letters(bytes) + Padding(bytes) == "";
    } else if |bytes| == 1 {
      DecodeOne(bytes[0]);
      assert bytes == [bytes[0]];
      assert Letters(bytes) + Padding(bytes) == [Letter(bytes[0] / 4), Letter(bytes[0] % 4 * 16), '=', '='];
    } else if |bytes| == 2 {
      var a, b := bytes[0], bytes[1];
      DecodeTwo(a, b);
      assert Letters(bytes) + Padding(bytes) == [Letter(a / 4), Letter(a % 4 * 16 + b / 16), Letter(b % 16 * 4), '='];
      assert bytes == [a, b];
    } else {
      var rest := bytes[3..];
      Base64RoundTrip(rest);
      var head, tail := Three(bytes[0], bytes[1], bytes[2]), Letters(rest) + Padding(rest);
      assert Padding(bytes) == Padding(rest);
      assert Letters(bytes) + Padding(bytes) == head + tail;
      DecodeThree(bytes[0], bytes[1], bytes[2], tail);
      assert Decode64(tail, 0, 0, 0) == Some(rest);
      assert Decode64(head + tail, 0, 0, 0) == Some([bytes[0], bytes[1], bytes[2]] + rest);
      assert bytes == [bytes[0], bytes[1], bytes[2]] + rest;
    }
  }

  lemma EmptyDecodes()
    ensures Decode64("", 0, 0, 0) == Some([])
  {
  }

  lemma {:induction false} LettersShape(bytes: seq<Byte>)
    ensures |Letters(bytes)| == |bytes| / 3 * 4 + (if |bytes| % 3 == 0 then 0 else |bytes| % 3 + 1)
    ensures forall i :: 0 <= i < |Letters(bytes)| ==> Value(Letters(bytes)[i]).Some?
  {
    if |bytes| >= 3 {
      LettersShape(bytes[3..]);
      var head, tail := Three(bytes[0], bytes[1], bytes[2]), Letters(bytes[3..]);
      LetterValue(bytes[0] / 4);
      LetterValue(bytes[0] % 4 * 16 + bytes[1] / 16);
      LetterValue(bytes[1] % 16 * 4 + bytes[2] / 64);
      LetterValue(bytes[2] % 64);
      forall i | 0 <= i < |Letters(bytes)| ensures Value(Letters(bytes)[i]).Some? {
        assert Letters(bytes)[i] == if i < 4 then head[i] else tail[i - 4];
      }
    } else if |bytes| == 1 {
      LetterValue(bytes[0] / 4);
      LetterValue(bytes[0] % 4 * 16);
    } else if |bytes| == 2 {
      LetterValue(bytes[0] / 4);
      LetterValue(bytes[0] % 4 * 16 + bytes[1] / 16);
      LetterValue(bytes[1] % 16 * 4);
    }
  }

  lemma {:induction false} StripPadding(s: string, n: nat)
    requires s == [] || s[|s| - 1] != '='
    ensures StripRight(s + Repeat('=', n), '=') == s
  {
    var all := s + Repeat('=', n);
    if n == 0 {
      assert all == s;
    } else {
      StripPadding(s, n - 1);
      assert all[..|all| - 1] == s + Repeat('=', n - 1);
    }
  }

  lemma {:induction false} ReplaceSame(s: string, a: char, b: char)
    ensures |Replace(s, a, [b])| == |s|
    ensures forall i :: 0 <= i < |s| ==> Replace(s, a, [b])[i] == if s[i] == a then b else s[i]
  {
    if s != [] {
      ReplaceSame(s[1..], a, b);
    }
  }

  predicate ShiftedLetter(c: char) {
    c == ',' || (Value(c).Some? && c != '/')
  }

  /** The letters of the modified alphabet that stand for some bytes. */
  function Inside(bytes: seq<Byte>): string {
    Replace(Letters(bytes), '/', ",")
  }

  lemma {:induction false} InsideLetters(bytes: seq<Byte>)
    ensures var inside := Inside(bytes);
            && |inside| == |Letters(bytes)|
            && (forall i :: 0 <= i < |inside| ==> ShiftedLetter(inside[i]) && inside[i] as int < 128)
            && Replace(inside, ',', "/") == Letters(bytes)
  {
    var letters, inside := Letters(bytes), Inside(bytes);
    LettersShape(bytes);
    ReplaceSame(letters, '/', ',');
    ReplaceSame(inside, ',', '/');
    var back := Replace(inside, ',', "/");
    forall i | 0 <= i < |letters|
      ensures back[i] == letters[i] && ShiftedLetter(inside[i]) && inside[i] as int < 128
    {
      assert Value(letters[i]).Some?;
    }
    assert back == letters;
  }

  lemma {:induction false} ShiftedIs(run: seq<CodePoint>)
    ensures Shifted(run) == "&" + Inside(Utf16(run)) + "-"
  {
    hide Utf16;
    hide Letters;
    var bytes := Utf16(run);
    LettersShape(bytes);
    StripPadding(Letters(bytes), (3 - |bytes| % 3) % 3);
  }

  lemma {:induction false} PaddingRestored(bytes: seq<Byte>)
    ensures Repeat('=', (4 - |Letters(bytes)| % 4) % 4) == Padding(bytes)
  {
    hide Letters;
    LettersShape(bytes);
    var q, r := |bytes| / 3, |bytes| % 3;
    var n := q * 4 + if r == 0 then 0 else r + 1;
    assert n % 4 == if r == 0 then 0 else r + 1;
  }

  /** A shifted run is decoded back to the run it was made from. */
  lemma {:induction false} UnshiftInside(run: seq<CodePoint>)
    requires run != [] && Encodable(run)
    ensures Inside(Utf16(run)) != "" && Unshift(Inside(Utf16(run))) == Some(run)
  {
    hide Decode64;
    hide Letters;
    hide Inside;
    hide Padding;
    hide FromUtf16;
    hide Utf16;
    var bytes := Utf16(run);
    InsideLetters(bytes);
    PaddingRestored(bytes);
    Base64RoundTrip(bytes);
    Utf16RoundTrip(run);
    SomeLetters(run);
  }

  lemma {:induction false} SomeLetters(run: seq<CodePoint>)
    requires run != []
    ensures Letters(Utf16(run)) != []
  {
    LettersShape(Utf16(run));
    assert |Utf16(run)| >= 2;
  }

  lemma {:induction false} FindAt(s: string, c: char, i: nat)
    requires i < |s| && s[i] == c && forall j :: 0 <= j < i ==> s[j] != c
    ensures Find(s, c) == i
  {
  }

  lemma SplitRun(inside: string, rest: string)
    requires forall i :: 0 <= i < |inside| ==> inside[i] != '-'
    ensures var wire := "&" + inside + "-" + rest;
            && wire != [] && wire[0] == '&'
            && Find(wire[1..], '-') == |inside| < |wire[1..]|
            && wire[1..][..|inside|] == inside && wire[1..][|inside| + 1..] == rest
  {
    hide Find;
    var wire := "&" + inside + "-" + rest;
    assert wire[1..] == inside + "-" + rest;
    FindAt(wire[1..], '-', |inside|);
  }

  lemma {:induction false} DecodeShifted(run: seq<CodePoint>, rest: string)
    requires run != [] && Encodable(run) && Decode(rest).Some?
    ensures Decode(Shifted(run) + rest) == Some(run + Decode(rest).value)
  {
    hide Shifted;
    hide Inside;
    hide Unshift;
    hide Find;
    hide Utf16;
    ShiftedIs(run);
    UnshiftInside(run);
    InsideLetters(Utf16(run));
    SplitRun(Inside(Utf16(run)), rest);
  }

  lemma {:induction false} DecodeLiteral(c: CodePoint, rest: string)
    requires Printable(c) && Decode(rest).Some?
    ensures Decode(Literal(c) + rest) == Some([c] + Decode(rest).value)
  {
    hide FromUtf16;
    hide Decode64;
    hide Find;
    var wire := Literal(c) + rest;
    if c == '&' as int {
      assert wire[1..] == "-" + rest;
      FindAt(wire[1..], '-', 0);
      assert wire[1..][..0] == "" && wire[1..][1..] == rest;
    } else {
      assert wire[1..] == rest && wire[0] as int == c;
    }
  }

  lemma EmptyWire()
    ensures Decode("") == Some([]) && WellFormed("")
  {
  }

  lemma {:induction false} WireDecodes(pending: seq<CodePoint>, name: seq<CodePoint>)
    requires Encodable(pending) && Encodable(name)
    ensures Decode(Wire(pending, name)) == Some(pending + name)
    decreases |name|
  {
    hide Shifted;
    hide Decode;
    hide Literal;
    EmptyWire();
    if name == [] {
      if pending != [] {
        DecodeShifted(pending, "");
        assert Shifted(pending) + "" == Shifted(pending) && pending + [] == pending;
      }
    } else if Printable(name[0]) {
      WireDecodes([], name[1..]);
      var tail := Wire([], name[1..]);
      DecodeLiteral(name[0], tail);
      assert [name[0]] + ([] + name[1..]) == name;
      if pending == [] {
        assert Flushed(pending) + Literal(name[0]) + tail == Literal(name[0]) + tail && pending + name == name;
      } else {
        DecodeShifted(pending, Literal(name[0]) + tail);
        assert Flushed(pending) + Literal(name[0]) + tail == Shifted(pending) + (Literal(name[0]) + tail);
      }
    } else {
      WireDecodes(pending + [name[0]], name[1..]);
      assert (pending + [name[0]]) + name[1..] == pending + name;
    }
  }

  /** Every name that can be encoded is read back unchanged. */
  lemma {:induction false} FolderRoundTrip(name: seq<CodePoint>)
    requires Encodable(name)
    ensures Decode(Wire([], name)) == Some(name)
  {
    WireDecodes([], name);
    assert [] + name == name;
  }

  /** Different names never share a wire form. */
  lemma {:induction false} WireIsInjective(a: seq<CodePoint>, b: seq<CodePoint>)
    requires Encodable(a) && Encodable(b) && Wire([], a) == Wire([], b)
    ensures a == b
  {
    FolderRoundTrip(a);
    FolderRoundTrip(b);
  }

  // ---------------------------------------------------------------- the form on the wire

  /** Printable characters, with every `&` opening a run of the modified alphabet that a `-` closes. */
  predicate WellFormed(wire: string)
    decreases |wire|
  {
    wire == []
    || (if wire[0] == '&' then
          var end := Find(wire[1..], '-');
          end < |wire[1..]| && (forall i :: 0 <= i < end ==> ShiftedLetter(wire[1..][i])) && WellFormed(wire[1..][end + 1..])
        else ' ' <= wire[0] <= '~' && WellFormed(wire[1..]))
  }

  lemma {:induction false} ShiftedWellFormed(run: seq<CodePoint>, rest: string)
    requires run != [] && Encodable(run) && WellFormed(rest)
    ensures WellFormed(Shifted(run) + rest)
  {
    hide Shifted;
    hide Inside;
    hide Find;
    hide Utf16;
    ShiftedIs(run);
    var inside := Inside(Utf16(run));
    InsideLetters(Utf16(run));
    SplitRun(inside, rest);
    var wire := "&" + inside + "-" + rest;
    assert forall i :: 0 <= i < |inside| ==> wire[1..][i] == inside[i];
  }

  lemma {:induction false} LiteralWellFormed(c: CodePoint, rest: string)
    requires Printable(c) && WellFormed(rest)
    ensures WellFormed(Literal(c) + rest)
  {
    var wire := Literal(c) + rest;
    if c == '&' as int {
      assert wire[1..] == "-" + rest;
      FindAt(wire[1..], '-', 0);
      assert wire[1..][1..] == rest;
    } else {
      assert wire[1..] == rest;
    }
  }

  /** What is sent is well formed. */
  lemma {:induction false} WireWellFormed(pending: seq<CodePoint>, name: seq<CodePoint>)
    requires Encodable(pending) && Encodable(name)
    ensures WellFormed(Wire(pending, name))
    decreases |name|
  {
    hide Shifted;
    hide WellFormed;
    hide Literal;
    EmptyWire();
    if name == [] {
      if pending != [] {
        ShiftedWellFormed(pending, "");
        assert Shifted(pending) + "" == Shifted(pending);
      }
    } else if Printable(name[0]) {
      WireWellFormed([], name[1..]);
      var tail := Wire([], name[1..]);
      LiteralWellFormed(name[0], tail);
      if pending == [] {
        assert Flushed(pending) + Literal(name[0]) + tail == Literal(name[0]) + tail;
      } else {
        ShiftedWellFormed(pending, Literal(name[0]) + tail);
        assert Flushed(pending) + Literal(name[0]) + tail == Shifted(pending) + (Literal(name[0]) + tail);
      }
    } else {
      WireWellFormed(pending + [name[0]], name[1..]);
    }
  }

  // ---------------------------------------------------------------- the form written out

  /** The alphabet: A to Z, a to z, 0 to 9, plus and slash, in this order. */
  lemma LetterTable(v: Sextet)
    ensures Letter(0) == 'A' && Letter(25) == 'Z' && Letter(26) == 'a' && Letter(51) == 'z' && Letter(52) == '0' && Letter(61) == '9'
    ensures Letter(62) == '+' && Letter(63) == '/'
    ensures v !in {25, 51, 61, 62, 63} ==> Letter(v + 1) as int == Letter(v) as int + 1
  {
  }

  /** A single code point in UTF-16 with the high byte first, and a longer name piece by piece. */
  lemma {:induction false} Utf16Written(c: CodePoint, rest: seq<CodePoint>)
    ensures Utf16([c] + rest) == (if c < 0x1_0000 then [c / 256, c % 256]
                                  else [216 + (c - 0x1_0000) / 262144, (c - 0x1_0000) / 1024 % 256, 220 + (c - 0x1_0000) % 1024 / 256, c % 256])
                                 + Utf16(rest)
  {
    assert ([c] + rest)[1..] == rest;
    if c >= 0x1_0000 { PairBytes(c); }
  }

  lemma PairBytes(c: CodePoint)
    requires c >= 0x1_0000
    ensures var v := c - 0x1_0000;
      && (0xD800 + v / 1024) / 256 == 216 + v / 262144 && (0xD800 + v / 1024) % 256 == v / 1024 % 256
      && (0xDC00 + v % 1024) / 256 == 220 + v % 1024 / 256 && (0xDC00 + v % 1024) % 256 == c % 256
  {
    var v := c - 0x1_0000;
    assert v / 1024 / 256 == v / 262144;
    assert v % 1024 % 256 == v % 256;
  }

  /** Bit `k` of a byte or of the value of a letter, counted from the lowest. */
  function Bit(v: int, k: nat): int
    requires 0 <= v < 256 && k < 8
  {
    (if k == 0 then v else if k == 1 then v / 2 else if k == 2 then v / 4 else if k == 3 then v / 8
     else if k == 4 then v / 16 else if k == 5 then v / 32 else if k == 6 then v / 64 else v / 128) % 2
  }

  /** Bit `n` of a string of bytes, counted from the front; past its end all bits are zero. */
  function BitAt(bytes: seq<Byte>, n: nat): int {
    if n / 8 < |bytes| then Bit(bytes[n / 8], 7 - n % 8) else 0
  }

  /** Each letter stands for the next six bits. */
  lemma {:induction false} LettersAreBits(bytes: seq<Byte>, i: nat, j: nat)
    requires i < |Letters(bytes)| && j < 6
    ensures Value(Letters(bytes)[i]).Some? && Bit(Value(Letters(bytes)[i]).value, 5 - j) == BitAt(bytes, 6 * i + j)
  {
    hide Letter, Value, Bit;
    if i >= 4 {
      assert Letters(bytes)[i] == Letters(bytes[3..])[i - 4];
      LettersAreBits(bytes[3..], i - 4, j);
      LaterBits(bytes, 6 * (i - 4) + j);
    } else {
      FirstLetters(bytes, i, j);
    }
  }

  lemma LaterBits(bytes: seq<Byte>, m: nat)
    requires |bytes| >= 3
    ensures BitAt(bytes[3..], m) == BitAt(bytes, m + 24)
  {
    hide Bit;
    assert (m + 24) / 8 == m / 8 + 3 && (m + 24) % 8 == m % 8;
  }

  lemma {:induction false} FirstLetters(bytes: seq<Byte>, i: nat, j: nat)
    requires i < |Letters(bytes)| && i < 4 && j < 6
    ensures Value(Letters(bytes)[i]).Some? && Bit(Value(Letters(bytes)[i]).value, 5 - j) == BitAt(bytes, 6 * i + j)
  {
    hide Letter, Value, Bit;
    var a, b, c := bytes[0], if |bytes| > 1 then bytes[1] else 0, if |bytes| > 2 then bytes[2] else 0;
    var v := if i == 0 then a / 4 else if i == 1 then a % 4 * 16 + b / 16 else if i == 2 then b % 16 * 4 + c / 64 else c % 64;
    assert Letters(bytes)[i] == Letter(v);
    LetterValue(v);
    NoBits(7 - (6 * i + j) % 8);
    if i == 0 { FirstSix(a, j); } else if i == 1 { SecondSix(a, b, j); } else if i == 2 { ThirdSix(b, c, j); } else { LastSix(c, j); }
  }

  lemma NoBits(k: nat)
    requires k < 8
    ensures Bit(0, k) == 0
  {
  }

  /** What a multiple of two, and of a power of two, adds below it. */
  lemma Below(m: int, x: int)
    ensures (2 * m + x) % 2 == x % 2
    ensures (2 * m + x) / 2 == m + x / 2 && (4 * m + x) / 4 == m + x / 4 && (8 * m + x) / 8 == m + x / 8
    ensures (16 * m + x) / 16 == m + x / 16 && (32 * m + x) / 32 == m + x / 32 && (64 * m + x) / 64 == m + x / 64
  {
  }

  lemma Quarters(x: int)
    ensures x / 8 == x / 4 / 2 && x / 16 == x / 4 / 4 && x / 32 == x / 4 / 8 && x / 64 == x / 4 / 16 && x / 128 == x / 4 / 32
  {
  }

  /** Bits of a value put together of a high part and a low part of two, four or six bits. */
  lemma JoinTwo(h: int, l: int, k: nat)
    requires 0 <= h < 64 && 0 <= l < 4 && k < 8
    ensures Bit(4 * h + l, k) == if k >= 2 then Bit(h, k - 2) else Bit(l, k)
  {
    if k == 0 { Below(2 * h, l); } else if k == 1 { Below(2 * h, l); Below(h, l / 2); } else { Below(h, l); Quarters(4 * h + l); }
  }

  lemma JoinFour(h: int, l: int, k: nat)
    requires 0 <= h < 16 && 0 <= l < 16 && k < 8
    ensures Bit(16 * h + l, k) == if k >= 4 then Bit(h, k - 4) else Bit(l, k)
  {
    hide Bit;
    JoinTwo(4 * h + l / 4, l % 4, k);
    JoinTwo(l / 4, l % 4, k);
    if k >= 2 { JoinTwo(h, l / 4, k - 2); }
  }

  lemma JoinSix(h: int, l: int, k: nat)
    requires 0 <= h < 4 && 0 <= l < 64 && k < 8
    ensures Bit(64 * h + l, k) == if k >= 6 then Bit(h, k - 6) else Bit(l, k)
  {
    hide Bit;
    JoinTwo(16 * h + l / 4, l % 4, k);
    JoinTwo(l / 4, l % 4, k);
    if k >= 2 { JoinFour(h, l / 4, k - 2); }
  }

  lemma FirstSix(a: Byte, j: nat)
    requires j < 6
    ensures Bit(a / 4, 5 - j) == Bit(a, 7 - j)
  {
    hide Bit;
    JoinTwo(a / 4, a % 4, 7 - j);
  }

  lemma SecondSix(a: Byte, b: Byte, j: nat)
    requires j < 6
    ensures Bit(a % 4 * 16 + b / 16, 5 - j) == if j < 2 then Bit(a, 1 - j) else Bit(b, 9 - j)
  {
    hide Bit;
    JoinFour(a % 4, b / 16, 5 - j);
    if j < 2 { JoinTwo(a / 4, a % 4, 1 - j); } else { JoinFour(b / 16, b % 16, 9 - j); }
  }

  lemma ThirdSix(b: Byte, c: Byte, j: nat)
    requires j < 6
    ensures Bit(b % 16 * 4 + c / 64, 5 - j) == if j < 4 then Bit(b, 3 - j) else Bit(c, 11 - j)
  {
    hide Bit;
    JoinTwo(b % 16, c / 64, 5 - j);
    if j < 4 { JoinFour(b / 16, b % 16, 3 - j); } else { JoinSix(c / 64, c % 64, 11 - j); }
  }

  lemma LastSix(c: Byte, j: nat)
    requires j < 6
    ensures Bit(c % 64, 5 - j) == Bit(c, 5 - j)
  {
    hide Bit;
    JoinSix(c / 64, c % 64, 5 - j);
  }

  /** A printable character stands for itself on the wire, and `&` for `&-`. */
  lemma {:induction false} WireOfPrintable(c: CodePoint, rest: seq<CodePoint>)
    requires 0x20 <= c <= 0x7E
    ensures Wire([], [c] + rest) == (if c == 0x26 then "&-" else [c as char]) + Wire([], rest)
  {
    assert ([c] + rest)[1..] == rest;
    assert Flushed([]) + Literal(c) == Literal(c);
  }

  /** A printable name without `&` is its own wire form. */
  lemma {:induction false} PrintableIsItsOwnForm(name: seq<CodePoint>)
    requires forall i :: 0 <= i < |name| ==> 0x20 <= name[i] <= 0x7E && name[i] != 0x26
    ensures |Wire([], name)| == |name| && forall i :: 0 <= i < |name| ==> Wire([], name)[i] as int == name[i]
  {
    if name != [] {
      assert [name[0]] + name[1..] == name;
      WireOfPrintable(name[0], name[1..]);
      PrintableIsItsOwnForm(name[1..]);
    }
  }

  /** A run of other characters, as long as it is, stands between `&` and `-` in modified base64, with `,` for `/`. */
  lemma {:induction false} WireOfRun(run: seq<CodePoint>, rest: seq<CodePoint>) returns (inside: string)
    requires run != [] && (forall i :: 0 <= i < |run| ==> !(0x20 <= run[i] <= 0x7E)) && (rest == [] || 0x20 <= rest[0] <= 0x7E)
    ensures Wire([], run + rest) == "&" + inside + "-" + Wire([], rest)
    ensures |inside| == |Letters(Utf16(run))|
    ensures forall i :: 0 <= i < |inside| ==> inside[i] == if Letters(Utf16(run))[i] == '/' then ',' else Letters(Utf16(run))[i]
  {
    hide Shifted, Utf16, Letters, Wire, Inside;
    inside := Inside(Utf16(run));
    ShiftedIs(run);
    assert inside == Replace(Letters(Utf16(run)), '/', ",") by { InsideIs(Utf16(run)); }
    ReplaceSame(Letters(Utf16(run)), '/', ',');
    RunPends([], run, rest);
    assert [] + run == run;
    PendingEnds(run, rest);
  }

  lemma {:induction false} InsideIs(bytes: seq<Byte>)
    ensures Inside(bytes) == Replace(Letters(bytes), '/', ",")
  {
  }

  /** A pending run ends before a printable character and at the end of the name. */
  lemma {:induction false} PendingEnds(run: seq<CodePoint>, rest: seq<CodePoint>)
    requires run != [] && (rest == [] || 0x20 <= rest[0] <= 0x7E)
    ensures Wire(run, rest) == Shifted(run) + Wire([], rest)
  {
    hide Shifted, Literal;
    if rest == [] {
      assert Shifted(run) + "" == Shifted(run);
    } else {
      var tail := Wire([], rest[1..]);
      assert Flushed([]) + Literal(rest[0]) == Literal(rest[0]);
      assert Shifted(run) + Literal(rest[0]) + tail == Shifted(run) + (Literal(rest[0]) + tail);
    }
  }

  lemma {:induction false} RunPends(pending: seq<CodePoint>, run: seq<CodePoint>, rest: seq<CodePoint>)
    requires forall i :: 0 <= i < |run| ==> !(0x20 <= run[i] <= 0x7E)
    ensures Wire(pending, run + rest) == Wire(pending + run, rest)
    decreases |run|
  {
    hide Flushed, Literal;
    if run == [] {
      assert run + rest == rest && pending + run == pending;
    } else {
      assert (run + rest)[1..] == run[1..] + rest;
      RunPends(pending + [run[0]], run[1..], rest);
      assert pending + [run[0]] + run[1..] == pending + run;
    }
  }

  /** The example of section 5.1.3 of RFC 3501. */
  lemma {:induction false} TaipeiOnTheWire()
    ensures Wire([], [0x53F0, 0x5317]) == "&U,BTFw-"
  {
    hide Wire, Inside;
    var run: seq<CodePoint> := [0x53F0, 0x5317];
    var inside := WireOfRun(run, []);
    assert run + [] == run && Wire([], []) == "" by { EmptyForm(); }
    Utf16Written(0x53F0, [0x5317]);
    Utf16Written(0x5317, []);
    assert [0x53F0] + [0x5317] == run && [0x5317] + [] == [0x5317];
    hide Letters;
    assert Utf16(run) == [0x53, 0xF0, 0x53, 0x17];
    TaipeiLetters();
  }

  lemma {:induction false} TaipeiLetters()
    ensures Letters([0x53, 0xF0, 0x53, 0x17]) == "U/BTFw"
  {
    assert [0x53, 0xF0, 0x53, 0x17][3..] == [0x17];
  }

  lemma EmptyForm()
    ensures Wire([], []) == ""
  {
  }

  /** Text without `&`, and text without `-`, is read as it stands. */
  lemma {:induction false} PlainTextDecodes(s: string)
    requires '&' !in s || '-' !in s
    ensures Decode(s).Some? && |Decode(s).value| == |s| && forall i :: 0 <= i < |s| ==> Decode(s).value[i] == s[i] as int
  {
    if s != [] {
      PlainTextDecodes(s[1..]);
    }
  }

  // ---------------------------------------------------------------- quoting

  function Escape(s: string): string {
    Replace(Replace(s, '\\', "\\\\"), '"', "\\\"")
  }

  lemma {:induction false} ReplaceConcat(a: string, b: string, from: char, to: string)
    ensures Replace(a + b, from, to) == Replace(a, from, to) + Replace(b, from, to)
  {
    if a == [] {
      assert a + b == b;
    } else {
      ReplaceConcat(a[1..], b, from, to);
      assert (a + b)[1..] == a[1..] + b && (a + b)[0] == a[0];
      var head := if a[0] == from then to else [a[0]];
      assert head + (Replace(a[1..], from, to) + Replace(b, from, to)) == (head + Replace(a[1..], from, to)) + Replace(b, from, to);
    }
  }

  lemma EscapeStep(s: string)
    requires s != []
    ensures Escape(s) == (if s[0] == '\\' then "\\\\" else if s[0] == '"' then "\\\"" else [s[0]]) + Escape(s[1..])
  {
    var head := if s[0] == '\\' then "\\\\" else [s[0]];
    ReplaceConcat(head, Replace(s[1..], '\\', "\\\\"), '"', "\\\"");
    if s[0] == '\\' {
      assert head[1..] == "\\";
      assert Replace("\\", '"', "\\\"") == "\\";
      assert Replace(head, '"', "\\\"") == "\\\\";
    } else {
      assert Replace(head, '"', "\\\"") == if s[0] == '"' then "\\\"" else [s[0]];
    }
  }

  /** Between the quotes stands each character, with a backslash before each quote and backslash. */
  function Quoting(s: string): string {
    if s == [] then [] else (if s[0] == '"' || s[0] == '\\' then ['\\', s[0]] else [s[0]]) + Quoting(s[1..])
  }

  lemma {:induction false} QuotedExactly(s: string)
    ensures Quote(s) == "\"" + Quoting(s) + "\"" && Escape(s) == Quoting(s)
  {
    if s != [] {
      EscapeStep(s);
      QuotedExactly(s[1..]);
    }
  }

  lemma {:induction false} UnescapeEscape(s: string)
    ensures Unescape(Escape(s)) == s
  {
    if s != [] {
      EscapeStep(s);
      UnescapeEscape(s[1..]);
      var e, rest := Escape(s), Escape(s[1..]);
      if s[0] == '\\' || s[0] == '"' {
        assert e[0] == '\\' && e[1] == s[0] && e[2..] == rest;
      } else {
        assert e[0] == s[0] && e[1..] == rest;
      }
      assert [s[0]] + s[1..] == s;
    }
  }

  /** A quoted field is read back as the name whose wire form was quoted, whatever that is. */
  lemma {:induction false} QuotedNameReadsBack(name: seq<CodePoint>)
    requires Encodable(name)
    ensures ReadName(Quote(Wire([], name))) == Some(name)
  {
    var wire := Wire([], name);
    var field := Quote(wire);
    assert field[1..|field| - 1] == Escape(wire);
    UnescapeEscape(wire);
    FolderRoundTrip(name);
  }

  /** Quoting never changes what a string means, including strings with quotes, backslashes and line feeds. */
  lemma QuoteRoundTrip(s: string)
    ensures var q := Quote(s); |q| >= 2 && q[0] == '"' && q[|q| - 1] == '"' && Unescape(q[1..|q| - 1]) == s
  {
    var q := Quote(s);
    assert q[1..|q| - 1] == Escape(s);
    UnescapeEscape(s);
  }
}
