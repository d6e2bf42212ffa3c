/** Which words of a prompt a negator covers. */
module Negation {
  import opened Prelude

  const MAX_SCOPE := 12

  /** The word lists of the router. */
  datatype Vocabulary = Vocabulary(negators: set<string>, breakers: set<string>, modifiers: set<string>, readTerms: set<string>, writeTerms: set<string>)

  const ENGLISH := Vocabulary(
    {"avoid", "dont", "never", "no", "not", "without"},
    {"although", "but", "except", "however", "instead", "then", "though", "yet"},
    {"accidentally", "actually", "any", "at", "automatically", "directly", "ever", "even", "immediately", "intentionally",
     "just", "only", "permanently", "please", "possibly", "really", "simply", "still", "to", "under"},
    {"find", "get", "inspect", "list", "read", "search", "show"},
    {"add", "admin", "archive", "create", "delete", "edit", "merge", "move", "publish", "remove", "send", "update", "write"})

  /* ---------- words and punctuation ---------- */

  predicate Alnum(c: char) { 'a' <= c <= 'z' || '0' <= c <= '9' }

  predicate Punctuation(c: char) { c == ',' || c == '.' || c == ';' || c == ':' || c == '!' || c == '?' }

  /** The length of the leading run of characters that are all alphanumeric, or all punctuation. */
  function RunLength(s: string, alnum: bool): (n: nat)
    ensures n <= |s| && forall k | 0 <= k < n :: if alnum then Alnum(s[k]) else Punctuation(s[k])
    ensures n < |s| ==> if alnum then !Alnum(s[n]) else !Punctuation(s[n])
  {
    if s == "" || (if alnum then !Alnum(s[0]) else !Punctuation(s[0])) then 0 else 1 + RunLength(s[1..], alnum)
  }

  /** `re.findall("[a-z0-9]+|[,.;:!?]+", s)`. */
  function Units(s: string): (units: seq<string>)
    ensures forall u | u in units :: u != "" && (Alnum(u[0]) || Punctuation(u[0]))
    decreases |s|
  {
    if s == "" then []
    else if Alnum(s[0]) then var n := RunLength(s, true); [s[..n]] + Units(s[n..])
    else if Punctuation(s[0]) then var n := RunLength(s, false); [s[..n]] + Units(s[n..])
    else Units(s[1..])
  }

  predicate IsWord(u: string) { u != "" && Alnum(u[0]) }

  /** `re.findall("[a-z0-9]+", s)`. */
  function Tokens(s: string): seq<string> {
    Words(Units(s))
  }

  function Words(units: seq<string>): seq<string> {
    if units == [] then [] else (if IsWord(units[0]) then [units[0]] else []) + Words(units[1..])
  }

  /* ---------- the scope of a negator, as a definition ---------- */

  predicate Operation(v: Vocabulary, u: string) { u in v.readTerms || u in v.writeTerms }

  /** The number of words among the first `n` units after the negator at `i`. */
  function WordCount(units: seq<string>, i: nat, n: nat): nat
    requires i + n < |units|
  {
    if n == 0 then 0 else WordCount(units, i, n - 1) + if IsWord(units[i + n]) then 1 else 0
  }

  predicate OperationBetween(v: Vocabulary, units: seq<string>, first: nat, end: nat)
    requires end <= |units|
  {
    exists k | first <= k < end :: IsWord(units[k]) && Operation(v, units[k])
  }

  /** Unit `k` does not end the scope of a negator at `i`: a word that is no breaker and within the first
      twelve, or a lone comma before any operation. */
  predicate Continues(v: Vocabulary, units: seq<string>, i: nat, k: nat)
    requires i < k < |units|
  {
    if IsWord(units[k]) then units[k] !in v.breakers && WordCount(units, i, k - i) <= MAX_SCOPE
    else units[k] == "," && !OperationBetween(v, units, i + 1, k)
  }

  predicate Reached(v: Vocabulary, units: seq<string>, i: nat, j: nat)
    requires i < |units|
  {
    i < j < |units| && forall k | i < k <= j :: Continues(v, units, i, k)
  }

  /** The scope contains an operation. */
  predicate Operates(v: Vocabulary, units: seq<string>, i: nat)
    requires i < |units|
  {
    exists j: nat | i < j < |units| :: Reached(v, units, i, j) && IsWord(units[j]) && Operation(v, units[j])
  }

  /** Unit `j` is the first word after `i` that is no modifier. */
  predicate FirstPlain(v: Vocabulary, units: seq<string>, i: nat, j: nat)
    requires i < j < |units|
  {
    IsWord(units[j]) && units[j] !in v.modifiers && forall k | i < k < j && IsWord(units[k]) :: units[k] in v.modifiers
  }

  /** The negator at `i` covers unit `j`: every operation in its scope, or without one the first plain word. */
  predicate Covers(v: Vocabulary, units: seq<string>, i: nat, j: nat)
    requires i < |units|
  {
    && Reached(v, units, i, j) && IsWord(units[j])
    && (Operation(v, units[j]) || (!Operates(v, units, i) && FirstPlain(v, units, i, j)))
  }

  predicate Negator(v: Vocabulary, units: seq<string>, i: nat) {
    i + 1 < |units| && units[i] in v.negators
  }

  predicate Negated(v: Vocabulary, units: seq<string>, term: string) {
    exists i: nat | 0 <= i < |units| :: Negator(v, units, i) && CoversTerm(v, units, i, term)
  }

  predicate CoversTerm(v: Vocabulary, units: seq<string>, i: nat, term: string)
    requires i < |units|
  {
    exists j: nat | i < j < |units| :: units[j] == term && Covers(v, units, i, j)
  }

  /* ---------- the loop ---------- */

  /** What the scan has seen between the negator and the next candidate. */
  ghost predicate Seen(v: Vocabulary, units: seq<string>, i: nat, j: nat, fallback: Option<string>, operationFound: bool, words: nat, found: set<string>)
    requires i < j <= |units|
  {
    && (forall k | i < k < j :: Continues(v, units, i, k))
    && words == WordCount(units, i, j - i - 1)
    && (operationFound <==> OperationBetween(v, units, i + 1, j))
    && (fallback.None? ==> forall k | i < k < j && IsWord(units[k]) :: units[k] in v.modifiers)
    && (fallback.Some? ==> exists k: nat | i < k < j :: units[k] == fallback.value && FirstPlain(v, units, i, k))
    && (forall t :: t in found <==> exists k: nat | i < k < j :: units[k] == t && IsWord(units[k]) && Operation(v, units[k]))
  }

  /** The scan stopped: at the end, or at a unit that does not continue the scope. */
  ghost predicate Stopped(v: Vocabulary, units: seq<string>, i: nat, j: nat)
    requires i < j <= |units|
  {
    j < |units| ==> !Continues(v, units, i, j)
  }

  lemma ScanFindsCovered(v: Vocabulary, units: seq<string>, i: nat, j: nat, fallback: Option<string>, operationFound: bool, words: nat, found: set<string>)
    requires i < j <= |units| && Seen(v, units, i, j, fallback, operationFound, words, found) && Stopped(v, units, i, j)
    ensures var terms := found + if !operationFound && fallback.Some? then {fallback.value} else {};
            forall t :: t in terms <==> CoversTerm(v, units, i, t)
  {
    forall k | i < k < |units| ensures Reached(v, units, i, k) <==> k < j {
    }
    assert Operates(v, units, i) <==> operationFound;
    var terms := found + if !operationFound && fallback.Some? then {fallback.value} else {};
    forall t ensures t in terms <==> CoversTerm(v, units, i, t) {
      if t in found {
        var k: nat :| i < k < j && units[k] == t && IsWord(units[k]) && Operation(v, units[k]);
        assert Covers(v, units, i, k);
      } else if t in terms {
        var k: nat :| i < k < j && units[k] == fallback.value && FirstPlain(v, units, i, k);
        assert Covers(v, units, i, k);
      }
      if CoversTerm(v, units, i, t) {
        var k: nat :| i < k < |units| && units[k] == t && Covers(v, units, i, k);
        assert k < j;
      }
    }
  }

  /** The terms one negator covers. */
  method ScanScope(v: Vocabulary, units: seq<string>, i: nat) returns (terms: set<string>)
    requires i < |units|
    ensures forall t :: t in terms <==> CoversTerm(v, units, i, t)
  {
    var fallback: Option<string> := None;
    var operationFound := false;
    var wordsSeen := 0;
    terms := {};
    var j := i + 1;
    while j < |units|
      invariant i < j <= |units|
      invariant Seen(v, units, i, j, fallback, operationFound, wordsSeen, terms)
    {
      var candidate := units[j];
      if !IsWord(candidate) {
        if candidate != "," || operationFound { break; }
        j := j + 1;
        continue;
      }
      if candidate in v.breakers { break; }
      if wordsSeen + 1 > MAX_SCOPE { break; }
      wordsSeen := wordsSeen + 1;
      if fallback.None? && candidate !in v.modifiers {
        assert FirstPlain(v, units, i, j);
        fallback := Some(candidate);
      }
      if Operation(v, candidate) {
        terms := terms + {candidate};
        operationFound := true;
      }
      j := j + 1;
    }
    ScanFindsCovered(v, units, i, j, fallback, operationFound, wordsSeen, terms);
    if !operationFound && fallback.Some? {
      terms := terms + {fallback.value};
    }
  }

  /** `_negated_terms`: exactly the terms that some negator covers. */
  method NegatedTerms(v: Vocabulary, surface: string) returns (negated: set<string>)
    ensures forall t :: t in negated <==> Negated(v, Units(surface), t)
  {
    var units := Units(surface);
    negated := {};
    for i := 0 to |units|
      invariant forall t :: t in negated <==> exists k: nat | 0 <= k < i :: Negator(v, units, k) && CoversTerm(v, units, k, t)
    {
      if i + 1 < |units| && units[i] in v.negators {
        var terms := ScanScope(v, units, i);
        negated := negated + terms;
      }
    }
  }

  /* ---------- what scopes mean ---------- */

  /** An operation right after a negator is negated. */
  lemma NextOperationIsNegated(v: Vocabulary, units: seq<string>, i: nat)
    requires i + 1 < |units| && units[i] in v.negators && IsWord(units[i + 1]) && units[i + 1] !in v.breakers && Operation(v, units[i + 1])
    ensures Negated(v, units, units[i + 1])
  {
    assert WordCount(units, i, 1) == WordCount(units, i, 0) + 1 == 1;
    assert Continues(v, units, i, i + 1) && Covers(v, units, i, i + 1);
    assert Negator(v, units, i) && CoversTerm(v, units, i, units[i + 1]);
  }

  /** A scope never reaches past a breaker, or past a mark that is no comma, or past a comma after an operation. */
  lemma ScopesEnd(v: Vocabulary, units: seq<string>, i: nat, k: nat, term: string)
    requires i < k < |units| && CoversTerm(v, units, i, term)
    requires if IsWord(units[k]) then units[k] in v.breakers
             else units[k] != "," || exists o :: i < o < k && IsWord(units[o]) && Operation(v, units[o])
    ensures exists j :: i < j < k && units[j] == term
  {
    assert !Continues(v, units, i, k);
    var j: nat :| i < j < |units| && units[j] == term && Covers(v, units, i, j);
  }

  /** A scope holds at most twelve words. */
  lemma ScopesAreShort(v: Vocabulary, units: seq<string>, i: nat, term: string)
    requires i < |units| && CoversTerm(v, units, i, term)
    ensures exists j: nat :: i < j < |units| && units[j] == term && WordCount(units, i, j - i) <= 12
  {
    var j: nat :| i < j < |units| && units[j] == term && Covers(v, units, i, j);
    assert Continues(v, units, i, j);
  }

  /** Where the scope has an operation, nothing but operations is negated; elsewhere its first word that is no modifier is. */
  lemma PlainWordsAreNegatedAlone(v: Vocabulary, units: seq<string>, i: nat, j: nat)
    requires i < j < |units| && Reached(v, units, i, j) && IsWord(units[j]) && !Operation(v, units[j])
    ensures Covers(v, units, i, j) <==>
              && (forall k :: i < k < j && IsWord(units[k]) ==> units[k] in v.modifiers) && units[j] !in v.modifiers
              && forall k :: i < k < |units| && Reached(v, units, i, k) && IsWord(units[k]) ==> !Operation(v, units[k])
  {
    assert forall k: nat :: i < k < |units| ==> (Reached(v, units, i, k) && IsWord(units[k]) && Operation(v, units[k]) ==> Operates(v, units, i));
  }
}
