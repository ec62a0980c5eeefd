/**
 Which audience a source is published to. A rule names a source root as the operator wrote it
 and by its key, the lower-case form; a null audience excludes what lies below it.
 */
module AudienceRules {
  import opened Wrappers
  import ScanJournal
  import ScanProperties

  datatype Audience = Company | Department(id: string) | Project(id: string) | Private(id: string)
  datatype Rule = Rule(root: string, key: string, audience: Option<Audience>)

  /** What the bindings are checked for: bounded, every root a path, no root bound twice. */
  predicate Valid(rules: seq<Rule>) {
    && |rules| <= 256
    && (forall i :: 0 <= i < |rules| ==> ScanJournal.WellFormed(rules[i].key))
    && (forall i, j :: 0 <= i < j < |rules| ==> rules[i].key != rules[j].key)
  }

  predicate Covers(root: string, source: string)
    requires ScanJournal.WellFormed(root)
  {
    source == root || ScanJournal.Beneath(source, root)
  }

  predicate Candidate(rules: seq<Rule>, source: string, i: int)
    requires Valid(rules)
  {
    0 <= i < |rules| && Covers(rules[i].key, source)
  }

  /** The candidate with the longest root as written, and of those the first. */
  ghost predicate Chosen(rules: seq<Rule>, source: string, i: int)
    requires Valid(rules)
  {
    && Candidate(rules, source, i)
    && forall j :: Candidate(rules, source, j) ==>
         |rules[j].root| < |rules[i].root| || (|rules[j].root| == |rules[i].root| && i <= j)
  }

  /** The candidate that all others lie above. */
  ghost predicate Nearest(rules: seq<Rule>, source: string, i: int)
    requires Valid(rules)
  {
    Candidate(rules, source, i) && forall j :: Candidate(rules, source, j) ==> Covers(rules[j].key, rules[i].key)
  }

  function Pick(rules: seq<Rule>, source: string, n: nat): (best: Option<nat>)
    requires Valid(rules) && n <= |rules|
    ensures best.None? ==> forall j :: j < n ==> !Candidate(rules, source, j)
    ensures best.Some? ==>
      && best.value < n && Candidate(rules, source, best.value)
      && forall j :: j < n && Candidate(rules, source, j) ==>
           |rules[j].root| < |rules[best.value].root| || (|rules[j].root| == |rules[best.value].root| && best.value <= j)
  {
    if n == 0 then None
    else
      var best := Pick(rules, source, n - 1);
      if Candidate(rules, source, n - 1) && (best.None? || |rules[n - 1].root| > |rules[best.value].root|) then Some(n - 1) else best
  }

  function Resolve(rules: seq<Rule>, source: string): Option<Audience>
    requires Valid(rules)
  {
    var best := Pick(rules, source, |rules|);
    if best.Some? then rules[best.value].audience else None
  }

  /** The program's own search: the candidates, then the first of the longest. */
  method ResolveAudience(rules: seq<Rule>, source: string) returns (audience: Option<Audience>, rule: Option<nat>)
    requires Valid(rules)
    ensures rule.Some? ==> Chosen(rules, source, rule.value) && audience == rules[rule.value].audience
    ensures rule.None? ==> audience.None? && forall j :: !Candidate(rules, source, j)
    ensures audience == Resolve(rules, source)
  {
    var candidates: seq<nat> := [];
    for i := 0 to |rules|
      invariant forall c :: 0 <= c < |candidates| ==> candidates[c] < i && Candidate(rules, source, candidates[c])
      invariant forall c, d :: 0 <= c < d < |candidates| ==> candidates[c] < candidates[d]
      invariant forall j :: 0 <= j < i && Candidate(rules, source, j) ==> j in candidates
    {
      if Covers(rules[i].key, source) { candidates := candidates + [i]; }
    }
    if candidates == [] { return None, None; }
    var best := Longest(rules, candidates);
    assert Chosen(rules, source, best) by {
      forall j | Candidate(rules, source, j)
        ensures |rules[j].root| < |rules[best].root| || (|rules[j].root| == |rules[best].root| && best <= j)
      {
        assert j in candidates;
      }
    }
    OneChosen(rules, source, best, Pick(rules, source, |rules|).value);
    return rules[best].audience, Some(best);
  }

  /** The first rule with the longest root, of a list of rules in their order. */
  method Longest(rules: seq<Rule>, candidates: seq<nat>) returns (best: nat)
    requires candidates != [] && forall c :: 0 <= c < |candidates| ==> candidates[c] < |rules|
    requires forall c, d :: 0 <= c < d < |candidates| ==> candidates[c] < candidates[d]
    ensures best in candidates
    ensures forall j :: j in candidates ==> |rules[j].root| < |rules[best].root| || (|rules[j].root| == |rules[best].root| && best <= j)
  {
    var at := 0;
    for c := 1 to |candidates|
      invariant 0 <= at < |candidates|
      invariant forall d :: 0 <= d < c ==> |rules[candidates[d]].root| <= |rules[candidates[at]].root|
      invariant forall d :: 0 <= d < at ==> |rules[candidates[d]].root| < |rules[candidates[at]].root|
    {
      if |rules[candidates[c]].root| > |rules[candidates[at]].root| { at := c; }
    }
    best := candidates[at];
  }

  lemma OneChosen(rules: seq<Rule>, source: string, i: int, j: int)
    requires Valid(rules) && Chosen(rules, source, i) && Chosen(rules, source, j)
    ensures i == j
  {
  }

  // ---------------------------------------------------------------- choosing by length, or by nesting

  /** Of two roots that both cover a source, one covers the other. */
  lemma CoversNested(source: string, a: string, b: string)
    requires ScanJournal.WellFormed(source) && ScanJournal.WellFormed(a) && ScanJournal.WellFormed(b)
    requires Covers(a, source) && Covers(b, source)
    ensures Covers(a, b) || Covers(b, a)
  {
    ScanProperties.Nested(source, a, b);
  }

  /** A rule's root as written is longer than every root above it; at equal length the nested rule comes first. */
  ghost predicate LengthsFollowNesting(rules: seq<Rule>)
    requires Valid(rules)
  {
    forall i, j :: 0 <= i < |rules| && 0 <= j < |rules| && i != j && Covers(rules[i].key, rules[j].key) ==>
      |rules[i].root| < |rules[j].root| || (|rules[i].root| == |rules[j].root| && j < i)
  }

  lemma ChosenIsNearest(rules: seq<Rule>, source: string, i: int)
    requires Valid(rules) && LengthsFollowNesting(rules) && ScanJournal.WellFormed(source) && Chosen(rules, source, i)
    ensures Nearest(rules, source, i)
  {
    forall j | Candidate(rules, source, j) ensures Covers(rules[j].key, rules[i].key) {
      CoversNested(source, rules[i].key, rules[j].key);
    }
  }

  ghost predicate AlwaysNearest(rules: seq<Rule>)
    requires Valid(rules)
  {
    forall source, i :: ScanJournal.WellFormed(source) && Chosen(rules, source, i) ==> Nearest(rules, source, i)
  }

  /**
   The program picks by the length of the root as written. That is the nearest root for every
   source if and only if those lengths follow the nesting of the rules' keys.
   */
  lemma NearestExactly(rules: seq<Rule>)
    requires Valid(rules)
    ensures AlwaysNearest(rules) <==> LengthsFollowNesting(rules)
  {
    hide Covers;
    if LengthsFollowNesting(rules) {
      forall source, i | ScanJournal.WellFormed(source) && Chosen(rules, source, i) ensures Nearest(rules, source, i) {
        ChosenIsNearest(rules, source, i);
      }
    }
    if AlwaysNearest(rules) {
      forall i, j | 0 <= i < |rules| && 0 <= j < |rules| && i != j && Covers(rules[i].key, rules[j].key)
        ensures |rules[i].root| < |rules[j].root| || (|rules[i].root| == |rules[j].root| && j < i)
      {
        AtTheNestedRoot(rules, i, j);
      }
    }
  }

  /** At the root of a nested rule, only that rule is nearest, so it must also be the one chosen. */
  lemma AtTheNestedRoot(rules: seq<Rule>, i: int, j: int)
    requires Valid(rules) && AlwaysNearest(rules) && 0 <= i < |rules| && 0 <= j < |rules| && i != j && Covers(rules[i].key, rules[j].key)
    ensures |rules[i].root| < |rules[j].root| || (|rules[i].root| == |rules[j].root| && j < i)
  {
    var source := rules[j].key;
    assert Candidate(rules, source, i) && Candidate(rules, source, j);
    var c := Pick(rules, source, |rules|).value;
    assert Chosen(rules, source, c);
    assert Nearest(rules, source, c);
    assert c == j;
  }

  // The lower case of one character, as far as the witness needs it: U+0130 becomes two characters.
  function LowerChar(c: char): string {
    if 'A' <= c <= 'Z' then [(c as int + 32) as char] else if c == '\U{0130}' then ['i', '\U{0307}'] else [c]
  }

  function Lower(s: string): string {
    if s == [] then [] else LowerChar(s[0]) + Lower(s[1..])
  }

  const OUTER := Rule("C:\\i\U{0307}i\U{0307}i\U{0307}", "c:\\i\U{0307}i\U{0307}i\U{0307}", Some(Company))
  const EXCLUDED := Rule("C:\\\U{0130}\U{0130}\U{0130}\\a", "c:\\i\U{0307}i\U{0307}i\U{0307}\\a", None)

  lemma OuterKey()
    ensures OUTER.key == Lower(OUTER.root)
  {
    assert Lower("C:\\i\U{0307}i\U{0307}i\U{0307}") == "c:\\i\U{0307}i\U{0307}i\U{0307}";
  }

  lemma ExcludedKey()
    ensures EXCLUDED.key == Lower(EXCLUDED.root)
  {
    assert Lower("C:\\\U{0130}\U{0130}\U{0130}\\a") == "c:\\i\U{0307}i\U{0307}i\U{0307}\\a";
  }

  lemma WitnessRules()
    ensures Valid([OUTER, EXCLUDED]) && OUTER.key <= EXCLUDED.key && |OUTER.root| == 9 && |EXCLUDED.root| == 8
    ensures |OUTER.key| == 9 && |EXCLUDED.key| == 11 && EXCLUDED.key == OUTER.key + "\\a"
  {
    assert ScanJournal.WellFormed(OUTER.key);
    assert ScanJournal.WellFormed(EXCLUDED.key);
  }

  /** Two rules, keyed by their lower case, where what lies below the excluded root gets the outer audience. */
  lemma NestedRuleMissed(source: string)
    requires ScanJournal.WellFormed(source) && ScanJournal.Beneath(source, EXCLUDED.key)
    ensures OUTER.key == Lower(OUTER.root) && EXCLUDED.key == Lower(EXCLUDED.root)
    ensures Valid([OUTER, EXCLUDED]) && Nearest([OUTER, EXCLUDED], source, 1) && Resolve([OUTER, EXCLUDED], source) == Some(Company)
  {
    hide Valid, Lower, ScanJournal.WellFormed;
    OuterKey();
    ExcludedKey();
    WitnessRules();
    var rules := [OUTER, EXCLUDED];
    assert Candidate(rules, source, 0) && Candidate(rules, source, 1);
    assert Pick(rules, source, 1) == Some(0);
    assert Pick(rules, source, 2) == Some(0);
  }

  // ---------------------------------------------------------------- the order of the rules

  /** The ordinary case: no root grows or shrinks when it is lower-cased. */
  predicate EvenlyKeyed(rules: seq<Rule>) {
    forall i :: 0 <= i < |rules| ==> |rules[i].root| == |rules[i].key|
  }

  /** Each rule's root is strictly longer than every root above it. */
  ghost predicate StrictlyNested(rules: seq<Rule>)
    requires Valid(rules)
  {
    forall i, j :: 0 <= i < |rules| && 0 <= j < |rules| && i != j && Covers(rules[i].key, rules[j].key) ==>
      |rules[i].root| < |rules[j].root|
  }

  /** Where no key differs in length from its root, the choice by length is always the nearest, in any order of the rules. */
  lemma EvenlyKeyedNests(rules: seq<Rule>)
    requires Valid(rules) && EvenlyKeyed(rules)
    ensures StrictlyNested(rules) && LengthsFollowNesting(rules) && AlwaysNearest(rules)
  {
    hide AlwaysNearest;
    forall i, j | 0 <= i < |rules| && 0 <= j < |rules| && i != j && Covers(rules[i].key, rules[j].key)
      ensures |rules[i].root| < |rules[j].root|
    {
      assert rules[if i < j then i else j].key != rules[if i < j then j else i].key;
    }
    NearestExactly(rules);
  }

  /** With lengths that follow the nesting strictly, the order of the rules does not matter. */
  lemma OrderDoesNotMatter(rules: seq<Rule>, others: seq<Rule>, source: string)
    requires Valid(rules) && Valid(others) && StrictlyNested(rules) && ScanJournal.WellFormed(source)
    requires forall r :: r in rules <==> r in others
    ensures Resolve(rules, source) == Resolve(others, source)
  {
    hide Covers;
    SameNesting(rules, others);
    var a, b := Pick(rules, source, |rules|), Pick(others, source, |others|);
    if a.Some? {
      assert rules[a.value] in others;
      var i :| 0 <= i < |others| && others[i] == rules[a.value];
      assert Candidate(others, source, i);
    }
    if b.Some? {
      assert others[b.value] in rules;
      var j :| 0 <= j < |rules| && rules[j] == others[b.value];
      assert Candidate(rules, source, j);
      ChosenIsNearest(rules, source, a.value);
      ChosenIsNearest(others, source, b.value);
      var i :| 0 <= i < |others| && others[i] == rules[a.value];
      assert Candidate(others, source, i);
    }
  }

  lemma SameNesting(rules: seq<Rule>, others: seq<Rule>)
    requires Valid(rules) && Valid(others) && StrictlyNested(rules) && forall r :: r in rules <==> r in others
    ensures LengthsFollowNesting(rules) && LengthsFollowNesting(others)
  {
    forall i, j | 0 <= i < |others| && 0 <= j < |others| && i != j && Covers(others[i].key, others[j].key)
      ensures |others[i].root| < |others[j].root|
    {
      assert others[i] in rules && others[j] in rules;
      var a :| 0 <= a < |rules| && rules[a] == others[i];
      var b :| 0 <= b < |rules| && rules[b] == others[j];
      assert a != b;
    }
  }

  /** A nested rule without an audience excludes what lies nearest to it. */
  lemma NullExcludes(rules: seq<Rule>, source: string, i: int)
    requires Valid(rules) && LengthsFollowNesting(rules) && ScanJournal.WellFormed(source)
    requires Nearest(rules, source, i) && rules[i].audience.None?
    ensures Resolve(rules, source).None?
  {
    var best := Pick(rules, source, |rules|);
    ChosenIsNearest(rules, source, best.value);
  }
}
