/**
 Free text as the knowledge modules accept it: trimmed, bounded, without control
 characters and without anything shaped like a credential. The credential patterns
 are regular expressions; here their verdict is part of the value.
 */
module SourceText {
  import opened Wrappers

  datatype Text = Text(body: string, secretShaped: bool)

  // The characters that Python's `strip` removes.
  predicate IsSpace(c: char) {
    var n := c as int;
    0x09 <= n <= 0x0D || 0x1C <= n <= 0x20 || n == 0x85 || n == 0xA0 || n == 0x1680 || 0x2000 <= n <= 0x200A
    || n == 0x2028 || n == 0x2029 || n == 0x202F || n == 0x205F || n == 0x3000
  }

  predicate Blank(s: string) {
    forall i :: 0 <= i < |s| ==> IsSpace(s[i])
  }

  function TrimLeft(s: string): string {
    if s != [] && IsSpace(s[0]) then TrimLeft(s[1..]) else s
  }

  function TrimRight(s: string): string {
    if s != [] && IsSpace(s[|s| - 1]) then TrimRight(s[..|s| - 1]) else s
  }

  function Trim(s: string): string {
    TrimRight(TrimLeft(s))
  }

  lemma {:induction false} LeftTrimmed(s: string) returns (i: nat)
    ensures i <= |s| && TrimLeft(s) == s[i..] && Blank(s[..i]) && (i < |s| ==> !IsSpace(s[i]))
  {
    hide IsSpace;
    i := 0;
    if s != [] && IsSpace(s[0]) {
      var rest := LeftTrimmed(s[1..]);
      i := rest + 1;
      assert s[1..][rest..] == s[i..];
      assert forall k :: 0 < k < i ==> s[k] == s[1..][..rest][k - 1];
    }
  }

  lemma {:induction false} RightTrimmed(s: string) returns (n: nat)
    ensures n <= |s| && TrimRight(s) == s[..n] && Blank(s[n..]) && (0 < n ==> !IsSpace(s[n - 1]))
  {
    hide IsSpace;
    n := |s|;
    if s != [] && IsSpace(s[|s| - 1]) {
      var init := s[..|s| - 1];
      n := RightTrimmed(init);
      assert init[..n] == s[..n];
      forall k | n <= k < |s| ensures IsSpace(s[k]) {
        if k < |s| - 1 { assert s[k] == init[n..][k - n]; }
      }
    }
  }

  predicate HasControl(s: string) {
    exists i :: 0 <= i < |s| && s[i] as int < 32 && s[i] != '\n' && s[i] != '\t'
  }

  /** The trimmed text, or nothing where the program raises INVALID_KNOWLEDGE_TEXT. */
  function Accept(t: Text, limit: nat): Option<string> {
    var trimmed := Trim(t.body);
    if 0 < |trimmed| <= limit && !t.secretShaped && !HasControl(t.body) then Some(trimmed) else None
  }

  /**
   What is accepted of a text: all of it but the white space around it, if that is neither empty nor too
   long, and nothing in the text looks like a secret or is a control character other than tab and line feed.
   */
  lemma {:induction false} AcceptedExactly(t: Text, limit: nat) returns (i: nat, j: nat)
    ensures i <= j <= |t.body| && Blank(t.body[..i]) && Blank(t.body[j..])
    ensures i < j ==> !IsSpace(t.body[i]) && !IsSpace(t.body[j - 1])
    ensures Accept(t, limit) ==
      if 0 < j - i <= limit && !t.secretShaped && (forall k :: 0 <= k < |t.body| ==> t.body[k] >= ' ' || t.body[k] in {'\n', '\t'})
      then Some(t.body[i..j]) else None
  {
    hide IsSpace;
    i := LeftTrimmed(t.body);
    var n := RightTrimmed(t.body[i..]);
    j := i + n;
    assert t.body[i..][..n] == t.body[i..j] && t.body[i..][n..] == t.body[j..];
    assert 0 < n ==> t.body[i..][0] == t.body[i] && t.body[i..][n - 1] == t.body[j - 1];
  }
}
