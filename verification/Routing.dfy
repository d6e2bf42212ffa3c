/** Choosing the capabilities for a prompt: policy first, then the best matches. */
module Routing {
  import opened Prelude
  import opened Negation

  datatype Risk = ReadOnly | LocalGeneration | Higher

  datatype Card = Card(id: string, version: string, risk: Risk, intents: seq<string>, negativeIntents: seq<string>)

  /** Unicode normalization and casefolding of a text (nothing where it raises), and the skeleton of a name. */
  datatype Unicode = Unicode(surface: string -> Option<string>, skeleton: string -> string)

  function JoinWords(words: seq<string>): string {
    if words == [] then "" else if |words| == 1 then words[0] else words[0] + " " + JoinWords(words[1..])
  }

  function NormalizeSurface(surface: string): string { JoinWords(Tokens(surface)) }

  /** What the prompt asks for. */
  datatype Query = Query(normalized: string, tokens: set<string>, negated: set<string>, reading: bool, writing: bool)

  /** The normalized phrases of a card; nothing if one of them raises. */
  function Phrases(texts: seq<string>, u: Unicode): Option<seq<string>> {
    if texts == [] then Some([])
    else
      var first, others := u.surface(texts[0]), Phrases(texts[1..], u);
      if first.None? || others.None? then None else Some([NormalizeSurface(first.value)] + others.value)
  }

  function TermsOf(phrases: seq<string>): set<string> {
    if phrases == [] then {} else (set t | t in Tokens(phrases[0])) + TermsOf(phrases[1..])
  }

  function Bonus(phrases: seq<string>, text: string): nat {
    if phrases == [] then 0 else (if Occurs(text, phrases[0]) then 4 else 0) + Bonus(phrases[1..], text)
  }

  /** Reading prompts skip cards with effects, writing prompts skip cards without. */
  predicate RiskFits(q: Query, risk: Risk) {
    if risk == Higher then !(q.reading && !q.writing) else !(q.writing && !q.reading)
  }

  predicate Excluded(q: Query, negative: seq<string>) {
    exists p | p in negative :: p != "" && Occurs(q.normalized, p)
  }

  datatype Score = Raises | Skipped | Points(n: nat)

  /** One round of the scoring loop. */
  function ScoreOf(q: Query, card: Card, u: Unicode): Score {
    if !RiskFits(q, card.risk) then Skipped
    else
      var phrases, negative := Phrases(card.intents, u), Phrases(card.negativeIntents, u);
      if phrases.None? || negative.None? then Raises else PointsOf(q, phrases.value, negative.value)
  }

  function PointsOf(q: Query, phrases: seq<string>, negative: seq<string>): Score {
    if Excluded(q, negative) || TermsOf(phrases) * q.negated != {} then Skipped
    else Points(|TermsOf(phrases) * q.tokens| + Bonus(phrases, q.normalized))
  }

  predicate Eligible(q: Query, card: Card, u: Unicode) {
    var s := ScoreOf(q, card, u); s.Points? && s.n > 0
  }

  /* ---------- ranking ---------- */

  predicate LexLess(a: string, b: string) {
    b != "" && (a == "" || a[0] < b[0] || (a[0] == b[0] && LexLess(a[1..], b[1..])))
  }

  datatype Scored = Scored(points: nat, card: Card)

  /** More points first, then the smaller ID, then the smaller version. */
  predicate Better(a: Scored, b: Scored) {
    a.points > b.points || (a.points == b.points
                            && (LexLess(a.card.id, b.card.id) || (a.card.id == b.card.id && LexLess(a.card.version, b.card.version))))
  }

  /** A stable sort: a new item goes after the ones it is not better than. */
  function Insert(x: Scored, sorted: seq<Scored>): seq<Scored> {
    if sorted == [] then [x] else if Better(x, sorted[0]) then [x] + sorted else [sorted[0]] + Insert(x, sorted[1..])
  }

  function Sort(xs: seq<Scored>): seq<Scored>
    decreases |xs|
  {
    if xs == [] then [] else Insert(xs[|xs| - 1], Sort(xs[..|xs| - 1]))
  }

  function Item(score: Score, card: Card): seq<Scored> {
    if score.Points? && score.n > 0 then [Scored(score.n, card)] else []
  }

  /** The eligible cards with their points, in catalog order; nothing if a text raises. */
  function ScoreAll(q: Query, cards: seq<Card>, u: Unicode): Option<seq<Scored>>
    decreases |cards|
  {
    if cards == [] then Some([])
    else
      var earlier := ScoreAll(q, cards[..|cards| - 1], u);
      var score := ScoreOf(q, cards[|cards| - 1], u);
      if earlier.None? || score.Raises? then None else Some(earlier.value + Item(score, cards[|cards| - 1]))
  }

  function Allowed(cards: seq<Card>, policy: Card -> bool): seq<Card>
    decreases |cards|
  {
    if cards == [] then []
    else Allowed(cards[..|cards| - 1], policy) + if policy(cards[|cards| - 1]) then [cards[|cards| - 1]] else []
  }

  predicate Confusable(cards: seq<Card>, u: Unicode) {
    exists a, b | a in cards && b in cards :: a.id != b.id && u.skeleton(a.id) == u.skeleton(b.id)
  }

  function CardsOf(xs: seq<Scored>): seq<Card> {
    seq(|xs|, i requires 0 <= i < |xs| => xs[i].card)
  }

  datatype Decision = BadLimit | BadText | NoTerms | AreConfusable | NoMatch | Selected(cards: seq<Card>)

  ghost predicate IsQuery(v: Vocabulary, surface: string, q: Query) {
    && q.normalized == NormalizeSurface(surface) && (forall t :: t in q.tokens <==> t in Tokens(q.normalized))
    && (forall t :: t in q.negated <==> Negated(v, Units(surface), t))
    && q.reading == (q.tokens * v.readTerms != {}) && q.writing == (q.tokens * v.writeTerms - q.negated != {})
  }

  /* ---------- the router ---------- */

  /** `_reject_confusable_cards`. */
  method FindConfusable(cards: seq<Card>, u: Unicode) returns (found: bool)
    ensures found <==> Confusable(cards, u)
  {
    var bySkeleton: map<string, string> := map[];
    for i := 0 to |cards|
      invariant forall k | 0 <= k < i :: u.skeleton(cards[k].id) in bySkeleton && bySkeleton[u.skeleton(cards[k].id)] == cards[k].id
      invariant forall s | s in bySkeleton :: exists k | 0 <= k < i :: u.skeleton(cards[k].id) == s && cards[k].id == bySkeleton[s]
    {
      var skeleton := u.skeleton(cards[i].id);
      if skeleton in bySkeleton && bySkeleton[skeleton] != cards[i].id {
        var k :| 0 <= k < i && u.skeleton(cards[k].id) == skeleton && cards[k].id == bySkeleton[skeleton];
        assert cards[k] in cards && cards[i] in cards;
        return true;
      }
      bySkeleton := bySkeleton[skeleton := cards[i].id];
    }
    return false;
  }

  method ScoreCards(q: Query, cards: seq<Card>, u: Unicode) returns (scored: Option<seq<Scored>>)
    ensures scored == ScoreAll(q, cards, u)
  {
    var items: seq<Scored> := [];
    for i := 0 to |cards|
      invariant ScoreAll(q, cards[..i], u) == Some(items)
    {
      var score := ScoreOf(q, cards[i], u);
      ScoreStep(q, cards, u, i, score);
      if score.Raises? {
        StaysNone(q, cards, u, i + 1);
        return None;
      }
      items := items + Item(score, cards[i]);
    }
    assert cards[..|cards|] == cards;
    return Some(items);
  }

  lemma ScoreStep(q: Query, cards: seq<Card>, u: Unicode, i: nat, score: Score)
    requires i < |cards| && score == ScoreOf(q, cards[i], u) && ScoreAll(q, cards[..i], u).Some?
    ensures ScoreAll(q, cards[..i + 1], u) == if score.Raises? then None else Some(ScoreAll(q, cards[..i], u).value + Item(score, cards[i]))
  {
    assert cards[..i + 1][..i] == cards[..i];
  }

  lemma {:induction false} StaysNone(q: Query, cards: seq<Card>, u: Unicode, n: nat)
    requires n <= |cards| && ScoreAll(q, cards[..n], u).None?
    ensures ScoreAll(q, cards, u).None?
    decreases |cards|
  {
    if n < |cards| {
      assert cards[..|cards| - 1][..n] == cards[..n];
      StaysNone(q, cards[..|cards| - 1], u, n);
    } else {
      assert cards[..n] == cards;
    }
  }

  /** The outcome as a function of the policy-permitted cards. */
  function Choose(q: Query, allowed: seq<Card>, u: Unicode, maximum: nat): Decision {
    if Confusable(allowed, u) then AreConfusable
    else
      var scored := ScoreAll(q, allowed, u);
      if scored.None? then BadText
      else
        var sorted := Sort(scored.value);
        var best := CardsOf(if |sorted| <= maximum then sorted else sorted[..maximum]);
        if best == [] then NoMatch else Selected(best)
  }

  method Resolve(prompt: string, cards: seq<Card>, policy: Card -> bool, maximum: int, u: Unicode, v: Vocabulary)
    returns (d: Decision, ghost q: Query)
    ensures d == BadLimit <==> !(1 <= maximum <= 8)
    ensures 1 <= maximum <= 8 ==> (if u.surface(prompt).None? then d == BadText
                                   else if Tokens(NormalizeSurface(u.surface(prompt).value)) == [] then d == NoTerms
                                   else IsQuery(v, u.surface(prompt).value, q) && d == Choose(q, Allowed(cards, policy), u, maximum))
  {
    q := Query("", {}, {}, false, false);
    if !(1 <= maximum <= 8) { return BadLimit, q; }
    var surface := u.surface(prompt);
    if surface.None? { return BadText, q; }
    var normalized := NormalizeSurface(surface.value);
    var tokens := Tokens(normalized);
    if tokens == [] { return NoTerms, q; }
    var allowed := Allowed(cards, policy);
    var negated := NegatedTerms(v, surface.value);
    var terms := set t | t in tokens;
    var query := Query(normalized, terms, negated, terms * v.readTerms != {}, terms * v.writeTerms - negated != {});
    q := query;
    var confusable := FindConfusable(allowed, u);
    if confusable { return AreConfusable, q; }
    var scored := ScoreCards(query, allowed, u);
    if scored.None? { return BadText, q; }
    var sorted := Sort(scored.value);
    var best := CardsOf(if |sorted| <= maximum then sorted else sorted[..maximum]);
    return if best == [] then NoMatch else Selected(best), q;
  }

  /* ---------- the ranking is a strict order ---------- */

  lemma {:induction false} LexTotal(a: string, b: string)
    ensures LexLess(a, b) || LexLess(b, a) || a == b
    ensures !(LexLess(a, b) && LexLess(b, a)) && !LexLess(a, a)
  {
    if a != "" {
      LexTotal(a[1..], a[1..]);
      if b != "" {
        LexTotal(a[1..], b[1..]);
        assert a == [a[0]] + a[1..] && b == [b[0]] + b[1..];
      }
    }
  }

  lemma {:induction false} LexTransitive(a: string, b: string, c: string)
    requires LexLess(a, b) && LexLess(b, c)
    ensures LexLess(a, c)
  {
    if a != "" && a[0] == b[0] == c[0] {
      LexTransitive(a[1..], b[1..], c[1..]);
    }
  }

  predicate SameKey(a: Scored, b: Scored) {
    a.points == b.points && a.card.id == b.card.id && a.card.version == b.card.version
  }

  lemma BetterIsTotal(a: Scored, b: Scored)
    ensures Better(a, b) || Better(b, a) || SameKey(a, b)
    ensures !(Better(a, b) && Better(b, a)) && (SameKey(a, b) ==> !Better(a, b))
  {
    LexTotal(a.card.id, b.card.id);
    LexTotal(a.card.version, b.card.version);
  }

  lemma BetterIsTransitive(a: Scored, b: Scored, c: Scored)
    requires Better(a, b) && Better(b, c)
    ensures Better(a, c)
  {
    if LexLess(a.card.id, b.card.id) && LexLess(b.card.id, c.card.id) {
      LexTransitive(a.card.id, b.card.id, c.card.id);
    }
    if LexLess(a.card.version, b.card.version) && LexLess(b.card.version, c.card.version) {
      LexTransitive(a.card.version, b.card.version, c.card.version);
    }
  }

  /** If `c` is not better than `b` and `b` not better than `a`, `c` is not better than `a`. */
  lemma NotBetterChain(a: Scored, b: Scored, c: Scored)
    requires !Better(b, a) && !Better(c, b)
    ensures !Better(c, a)
  {
    BetterIsTotal(a, b);
    BetterIsTotal(b, c);
    BetterIsTotal(a, c);
    if Better(a, b) && Better(b, c) {
      BetterIsTransitive(a, b, c);
    }
  }

  ghost predicate Ranked(xs: seq<Scored>) {
    forall i, j :: 0 <= i < j < |xs| ==> !Better(xs[j], xs[i])
  }

  /** Dictionary order: a proper prefix, or the smaller character at the first difference. */
  ghost predicate Precedes(a: string, b: string) {
    a < b || exists k :: 0 <= k < |a| && k < |b| && a[..k] == b[..k] && a[k] < b[k]
  }

  lemma {:induction false} LexIsDictionaryOrder(a: string, b: string)
    ensures LexLess(a, b) <==> Precedes(a, b)
  {
    if a != "" && b != "" {
      LexIsDictionaryOrder(a[1..], b[1..]);
      if a[0] == b[0] {
        SameHead(a, b);
      } else {
        assert a[..0] == b[..0];
        assert forall k :: 0 < k < |a| && k < |b| && a[..k] == b[..k] ==> a[..k][0] == b[..k][0];
      }
    }
  }

  lemma SameHead(a: string, b: string)
    requires a != "" && b != "" && a[0] == b[0]
    ensures Precedes(a, b) <==> Precedes(a[1..], b[1..])
  {
    assert a == [a[0]] + a[1..] && b == [b[0]] + b[1..];
    if k :| 0 <= k < |a| && k < |b| && a[..k] == b[..k] && a[k] < b[k] {
      assert a[1..][..k - 1] == a[..k][1..] && b[1..][..k - 1] == b[..k][1..];
      assert a[1..][k - 1] == a[k];
    }
    if k :| 0 <= k < |a[1..]| && k < |b[1..]| && a[1..][..k] == b[1..][..k] && a[1..][k] < b[1..][k] {
      assert a[..k + 1] == [a[0]] + a[1..][..k] && b[..k + 1] == [b[0]] + b[1..][..k];
      assert a[k + 1] < b[k + 1];
    }
  }

  /** In a ranked list points do not grow; among equal points the IDs are in dictionary order, and the versions of one ID. */
  lemma RankedMeans(xs: seq<Scored>, i: nat, j: nat)
    requires Ranked(xs) && i < j < |xs|
    ensures xs[i].points >= xs[j].points
    ensures xs[i].points == xs[j].points ==> xs[i].card.id == xs[j].card.id || Precedes(xs[i].card.id, xs[j].card.id)
    ensures xs[i].points == xs[j].points && xs[i].card.id == xs[j].card.id ==>
              xs[i].card.version == xs[j].card.version || Precedes(xs[i].card.version, xs[j].card.version)
  {
    LexTotal(xs[i].card.id, xs[j].card.id);
    LexTotal(xs[i].card.version, xs[j].card.version);
    LexIsDictionaryOrder(xs[i].card.id, xs[j].card.id);
    LexIsDictionaryOrder(xs[i].card.version, xs[j].card.version);
  }

  lemma {:induction false} InsertKeeps(x: Scored, sorted: seq<Scored>)
    ensures multiset(Insert(x, sorted)) == multiset(sorted) + multiset{x} && |Insert(x, sorted)| == |sorted| + 1
    ensures forall y :: y in Insert(x, sorted) ==> y == x || y in sorted
  {
    if sorted != [] {
      InsertKeeps(x, sorted[1..]);
      assert sorted == [sorted[0]] + sorted[1..];
    }
  }

  lemma {:induction false} InsertRanks(x: Scored, sorted: seq<Scored>)
    requires Ranked(sorted)
    ensures Ranked(Insert(x, sorted))
  {
    if sorted != [] {
      if Better(x, sorted[0]) {
        forall j | 0 <= j < |sorted| ensures !Better(sorted[j], x) {
          BetterIsTotal(x, sorted[0]);
          if j > 0 {
            NotBetterChain(x, sorted[0], sorted[j]);
          }
        }
        PrependRanks(x, sorted);
      } else {
        InsertRanks(x, sorted[1..]);
        InsertKeeps(x, sorted[1..]);
        forall y | y in Insert(x, sorted[1..]) ensures !Better(y, sorted[0]) {
        }
        PrependRanks(sorted[0], Insert(x, sorted[1..]));
      }
    }
  }

  lemma PrependRanks(x: Scored, rest: seq<Scored>)
    requires Ranked(rest) && forall j :: 0 <= j < |rest| ==> !Better(rest[j], x)
    ensures Ranked([x] + rest)
  {
    var all := [x] + rest;
    forall i, j | 0 <= i < j < |all| ensures !Better(all[j], all[i]) {
      assert all[j] == rest[j - 1] && (i > 0 ==> all[i] == rest[i - 1]);
    }
  }

  lemma {:induction false} SortRanks(xs: seq<Scored>)
    ensures Ranked(Sort(xs)) && multiset(Sort(xs)) == multiset(xs) && |Sort(xs)| == |xs|
    decreases |xs|
  {
    if xs != [] {
      var n := |xs| - 1;
      SortRanks(xs[..n]);
      InsertRanks(xs[n], Sort(xs[..n]));
      InsertKeeps(xs[n], Sort(xs[..n]));
      assert xs == xs[..n] + [xs[n]];
    }
  }

  ghost predicate DistinctKeys(xs: multiset<Scored>) {
    && (forall x :: x in xs ==> xs[x] == 1)
    && forall x, y :: x in xs && y in xs && x.card.id == y.card.id && x.card.version == y.card.version ==> x == y
  }

  lemma SameFirst(a: seq<Scored>, b: seq<Scored>)
    requires Ranked(a) && Ranked(b) && a != [] && multiset(a) == multiset(b) && DistinctKeys(multiset(a))
    ensures b != [] && a[0] == b[0]
  {
    assert a[0] in multiset(b);
    var j :| 0 <= j < |b| && b[j] == a[0];
    assert b[0] in multiset(a);
    var i :| 0 <= i < |a| && a[i] == b[0];
    BetterIsTotal(a[0], b[0]);
  }

  lemma Rejoin(a: seq<Scored>, b: seq<Scored>)
    requires a != [] && b != [] && a[0] == b[0] && a[1..] == b[1..]
    ensures a == b
  {
    assert a == [a[0]] + a[1..] && b == [b[0]] + b[1..];
  }

  /** A ranked list is determined by its items when no two share ID and version. */
  lemma {:induction false} RankingIsUnique(a: seq<Scored>, b: seq<Scored>)
    requires Ranked(a) && Ranked(b) && multiset(a) == multiset(b) && DistinctKeys(multiset(a))
    ensures a == b
  {
    if a == [] {
      assert |multiset(a)| == 0 && |multiset(b)| == |b|;
    } else {
      SameFirst(a, b);
      RestOfRanked(a);
      RestOfRanked(b);
      RankingIsUnique(a[1..], b[1..]);
      Rejoin(a, b);
    }
  }

  lemma RestOfRanked(a: seq<Scored>)
    requires Ranked(a) && a != []
    ensures Ranked(a[1..]) && multiset(a[1..]) == multiset(a) - multiset{a[0]}
    ensures DistinctKeys(multiset(a)) ==> DistinctKeys(multiset(a[1..]))
  {
    assert a == [a[0]] + a[1..];
  }

  /* ---------- what is selected ---------- */

  lemma {:induction false} BonusMeansPhrase(phrases: seq<string>, text: string)
    ensures Bonus(phrases, text) > 0 <==> exists p :: p in phrases && Occurs(text, p)
  {
    if phrases != [] {
      BonusMeansPhrase(phrases[1..], text);
      assert phrases == [phrases[0]] + phrases[1..];
    }
  }

  /** None of the negative phrases occurs, no intent term is negated, and some term or phrase is in the prompt. */
  ghost predicate Matching(q: Query, phrases: seq<string>, negative: seq<string>) {
    && (forall p :: p in negative && p != "" ==> !Occurs(q.normalized, p))
    && (forall t :: t in TermsOf(phrases) ==> t !in q.negated)
    && ((exists t :: t in TermsOf(phrases) && t in q.tokens) || exists p :: p in phrases && Occurs(q.normalized, p))
  }

  lemma PointsMeanMatching(q: Query, phrases: seq<string>, negative: seq<string>)
    ensures (PointsOf(q, phrases, negative).Points? && PointsOf(q, phrases, negative).n > 0) <==> Matching(q, phrases, negative)
  {
    BonusMeansPhrase(phrases, q.normalized);
    var terms := TermsOf(phrases);
    assert terms * q.negated == {} <==> forall t :: t in terms ==> t !in q.negated by {
      assert forall t :: t in terms * q.negated <==> t in terms && t in q.negated;
    }
    assert |terms * q.tokens| > 0 <==> exists t :: t in terms && t in q.tokens by {
      if t :| t in terms && t in q.tokens {
        assert t in terms * q.tokens;
      }
      if |terms * q.tokens| > 0 {
        var t :| t in terms * q.tokens;
      }
    }
  }

  /** A card is eligible exactly when its risk fits the prompt and its phrases match it. */
  lemma EligibleExactly(q: Query, card: Card, u: Unicode)
    ensures var phrases, negative := Phrases(card.intents, u), Phrases(card.negativeIntents, u);
            Eligible(q, card, u)
            <==> RiskFits(q, card.risk) && phrases.Some? && negative.Some? && Matching(q, phrases.value, negative.value)
  {
    var phrases, negative := Phrases(card.intents, u), Phrases(card.negativeIntents, u);
    if phrases.Some? && negative.Some? {
      PointsMeanMatching(q, phrases.value, negative.value);
    }
  }

  lemma EmptyPhraseOccurs(text: string)
    ensures Occurs(text, "")
  {
    assert OccursAt(text, "", 0);
  }

  /* ---------- normalizing keeps the tokens ---------- */

  predicate AllAlnum(w: string) {
    w != "" && forall k :: 0 <= k < |w| ==> Alnum(w[k])
  }

  lemma {:induction false} UnitsAreRuns(s: string)
    ensures forall w :: w in Units(s) && IsWord(w) ==> AllAlnum(w)
    decreases |s|
  {
    if s != "" {
      UnitsAreRuns(s[if Alnum(s[0]) then RunLength(s, true) else if Punctuation(s[0]) then RunLength(s, false) else 1..]);
    }
  }

  lemma {:induction false} WordsOfWords(words: seq<string>)
    requires forall w :: w in words ==> AllAlnum(w)
    ensures Words(words) == words
  {
    if words != [] {
      assert words == [words[0]] + words[1..] && AllAlnum(words[0]);
      WordsOfWords(words[1..]);
    }
  }

  lemma FirstUnit(w: string, rest: string)
    requires AllAlnum(w) && (rest == "" || rest[0] == ' ')
    ensures Units(w + rest) == [w] + Units(rest)
  {
    var s := w + rest;
    assert forall k :: 0 <= k < |w| ==> s[k] == w[k];
    assert rest != "" ==> s[|w|] == ' ';
    assert RunLength(s, true) == |w| && s[..|w|] == w && s[|w|..] == rest;
  }

  lemma {:induction false} JoinedUnits(words: seq<string>)
    requires forall w :: w in words ==> AllAlnum(w)
    ensures Units(JoinWords(words)) == words
  {
    if words != [] {
      assert words == [words[0]] + words[1..] && AllAlnum(words[0]);
      if |words| == 1 {
        FirstUnit(words[0], "");
        assert words[0] + "" == words[0];
      } else {
        var rest := JoinWords(words[1..]);
        FirstUnit(words[0], " " + rest);
        assert words[0] + (" " + rest) == words[0] + " " + rest && (" " + rest)[1..] == rest;
        JoinedUnits(words[1..]);
      }
    }
  }

  /** Normalizing a text keeps its tokens, so it changes nothing when it is done again. */
  lemma NormalizingKeepsTokens(surface: string)
    ensures Tokens(NormalizeSurface(surface)) == Tokens(surface)
    ensures NormalizeSurface(NormalizeSurface(surface)) == NormalizeSurface(surface)
  {
    UnitsAreRuns(surface);
    WordsAreUnits(Units(surface));
    WordsAreWords(Units(surface));
    JoinedUnits(Tokens(surface));
    WordsOfWords(Tokens(surface));
  }

  lemma {:induction false} WordsAreWords(units: seq<string>)
    ensures forall w :: w in Words(units) ==> IsWord(w)
  {
    if units != [] {
      WordsAreWords(units[1..]);
    }
  }

  /* ---------- the points of a card, counted ---------- */

  /** The normalized form of a text, if normalization does not raise. */
  function Phrase(text: string, u: Unicode): string {
    if u.surface(text).Some? then NormalizeSurface(u.surface(text).value) else ""
  }

  /** The terms of the prompt that some intent of the card has. */
  ghost function SharedTerms(q: Query, card: Card, u: Unicode): set<string> {
    set t | t in q.tokens && exists i :: 0 <= i < |card.intents| && t in Tokens(Phrase(card.intents[i], u))
  }

  /** The intents whose phrase occurs in the prompt, by index from `k` on. */
  ghost function Hits(text: string, phrases: seq<string>, k: nat): set<int> {
    set i | k <= i < |phrases| && Occurs(text, phrases[i])
  }

  function PhrasesOf(texts: seq<string>, u: Unicode): seq<string> {
    seq(|texts|, i requires 0 <= i < |texts| => Phrase(texts[i], u))
  }

  /** One point for each distinct shared term, four for each intent whose phrase occurs. */
  ghost function Worth(q: Query, card: Card, u: Unicode): nat {
    |SharedTerms(q, card, u)| + 4 * |Hits(q.normalized, PhrasesOf(card.intents, u), 0)|
  }

  /** Effects are wanted or not by the prompt, as the card's risk requires. */
  predicate Asked(q: Query, card: Card) {
    if card.risk == Higher then q.writing || !q.reading else q.reading || !q.writing
  }

  /** A text of the card raises when it is normalized. */
  predicate Unreadable(card: Card, u: Unicode) {
    exists t :: t in card.intents + card.negativeIntents && u.surface(t).None?
  }

  /** No negative phrase occurs in the prompt, and no term of an intent is negated. */
  ghost predicate Unopposed(q: Query, card: Card, u: Unicode) {
    && (forall n :: n in card.negativeIntents && Phrase(n, u) != "" ==> !Occurs(q.normalized, Phrase(n, u)))
    && (forall n, t :: n in card.intents && t in Tokens(Phrase(n, u)) ==> t !in q.negated)
  }

  lemma {:induction false} PhrasesExactly(texts: seq<string>, u: Unicode)
    ensures Phrases(texts, u) == if exists t :: t in texts && u.surface(t).None? then None else Some(PhrasesOf(texts, u))
  {
    if texts != [] {
      PhrasesExactly(texts[1..], u);
      assert texts == [texts[0]] + texts[1..];
      assert (exists t :: t in texts && u.surface(t).None?) <==> u.surface(texts[0]).None? || exists t :: t in texts[1..] && u.surface(t).None?;
      assert PhrasesOf(texts, u) == [Phrase(texts[0], u)] + PhrasesOf(texts[1..], u);
      if Phrases(texts, u).Some? {
        assert Phrases(texts, u).value == PhrasesOf(texts, u);
      }
    } else {
      assert PhrasesOf(texts, u) == [];
    }
  }

  lemma {:induction false} TermsExactly(phrases: seq<string>, t: string)
    ensures t in TermsOf(phrases) <==> exists i :: 0 <= i < |phrases| && t in Tokens(phrases[i])
  {
    if phrases != [] {
      TermsExactly(phrases[1..], t);
      if i :| 0 <= i < |phrases| && t in Tokens(phrases[i]) {
        assert i > 0 ==> phrases[1..][i - 1] == phrases[i];
      }
      if i :| 0 <= i < |phrases[1..]| && t in Tokens(phrases[1..][i]) {
        assert phrases[i + 1] == phrases[1..][i];
      }
    }
  }

  lemma {:induction false} BonusCountsHits(text: string, phrases: seq<string>, k: nat)
    requires k <= |phrases|
    ensures Bonus(phrases[k..], text) == 4 * |Hits(text, phrases, k)|
    decreases |phrases| - k
  {
    if k < |phrases| {
      BonusCountsHits(text, phrases, k + 1);
      assert phrases[k..][1..] == phrases[k + 1..] && phrases[k..][0] == phrases[k];
      assert Hits(text, phrases, k) == (if Occurs(text, phrases[k]) then {k} else {}) + Hits(text, phrases, k + 1);
    } else {
      assert Hits(text, phrases, k) == {};
    }
  }

  lemma PointsAreWorth(q: Query, card: Card, u: Unicode)
    requires !Unreadable(card, u)
    ensures PointsOf(q, PhrasesOf(card.intents, u), PhrasesOf(card.negativeIntents, u))
            == if Unopposed(q, card, u) then Points(Worth(q, card, u)) else Skipped
  {
    var phrases, negative := PhrasesOf(card.intents, u), PhrasesOf(card.negativeIntents, u);
    forall t ensures t in TermsOf(phrases) <==> exists i :: 0 <= i < |card.intents| && t in Tokens(Phrase(card.intents[i], u)) {
      TermsExactly(phrases, t);
      assert forall i :: 0 <= i < |phrases| ==> phrases[i] == Phrase(card.intents[i], u);
    }
    assert TermsOf(phrases) * q.tokens == SharedTerms(q, card, u);
    BonusCountsHits(q.normalized, phrases, 0);
    assert phrases[0..] == phrases;
    Opposition(q, card, u);
  }

  lemma Opposition(q: Query, card: Card, u: Unicode)
    ensures Unopposed(q, card, u) <==> !Excluded(q, PhrasesOf(card.negativeIntents, u)) && TermsOf(PhrasesOf(card.intents, u)) * q.negated == {}
  {
    var phrases, negative := PhrasesOf(card.intents, u), PhrasesOf(card.negativeIntents, u);
    forall n | n in card.negativeIntents ensures Phrase(n, u) in negative {
      var i :| 0 <= i < |card.negativeIntents| && card.negativeIntents[i] == n;
      assert negative[i] == Phrase(n, u);
    }
    forall t ensures t in TermsOf(phrases) <==> exists n :: n in card.intents && t in Tokens(Phrase(n, u)) {
      TermsExactly(phrases, t);
      if n :| n in card.intents && t in Tokens(Phrase(n, u)) {
        var i :| 0 <= i < |card.intents| && card.intents[i] == n;
        assert phrases[i] == Phrase(n, u);
      }
    }
    assert TermsOf(phrases) * q.negated == {} <==> forall t :: t in TermsOf(phrases) ==> t !in q.negated by {
      assert forall t :: t in TermsOf(phrases) * q.negated <==> t in TermsOf(phrases) && t in q.negated;
    }
  }

  /** A card is skipped if the prompt asks for the other kind, or something opposes it; it raises if a text of a card that
      was asked for does; otherwise its points are what it is worth. */
  lemma ScoreIsWorth(q: Query, card: Card, u: Unicode)
    ensures ScoreOf(q, card, u) == if !Asked(q, card) then Skipped
                                   else if Unreadable(card, u) then Raises
                                   else if Unopposed(q, card, u) then Points(Worth(q, card, u)) else Skipped
  {
    PhrasesExactly(card.intents, u);
    PhrasesExactly(card.negativeIntents, u);
    if Asked(q, card) && !Unreadable(card, u) {
      PointsAreWorth(q, card, u);
    }
  }

  /* ---------- intents without letters or digits ---------- */

  /** No filter excludes the card from the prompt. */
  ghost predicate Unfiltered(q: Query, card: Card, u: Unicode) {
    && RiskFits(q, card.risk) && Phrases(card.intents, u).Some? && Phrases(card.negativeIntents, u).Some?
    && (forall p :: p in Phrases(card.negativeIntents, u).value && p != "" ==> !Occurs(q.normalized, p))
    && (forall t :: t in TermsOf(Phrases(card.intents, u).value) ==> t !in q.negated)
  }

  /** The prompt has a term of the card, or contains one of its phrases that is not empty. */
  ghost predicate Shares(q: Query, card: Card, u: Unicode)
    requires Phrases(card.intents, u).Some?
  {
    var phrases := Phrases(card.intents, u).value;
    (exists t :: t in TermsOf(phrases) && t in q.tokens) || exists p :: p in phrases && p != "" && Occurs(q.normalized, p)
  }

  /** The intent has no letter or digit once it is normalized. */
  predicate Tokenless(text: string, u: Unicode) {
    u.surface(text).Some? && Tokens(u.surface(text).value) == []
  }

  lemma {:induction false} WordsAreNotEmpty(units: seq<string>)
    ensures forall w :: w in Words(units) ==> w != ""
  {
    if units != [] {
      WordsAreNotEmpty(units[1..]);
    }
  }

  /** A text normalizes to the empty phrase exactly if it has no token. */
  lemma EmptyPhraseIsTokenless(surface: string)
    ensures NormalizeSurface(surface) == "" <==> Tokens(surface) == []
  {
    WordsAreNotEmpty(Units(surface));
    if Tokens(surface) != [] {
      assert Tokens(surface)[0] in Tokens(surface);
    }
  }

  lemma {:induction false} EmptyPhrases(texts: seq<string>, u: Unicode)
    requires Phrases(texts, u).Some?
    ensures "" in Phrases(texts, u).value <==> exists t :: t in texts && Tokenless(t, u)
  {
    if texts != [] {
      var phrase, others := NormalizeSurface(u.surface(texts[0]).value), Phrases(texts[1..], u).value;
      EmptyPhraseIsTokenless(u.surface(texts[0]).value);
      EmptyPhrases(texts[1..], u);
      assert Phrases(texts, u).value == [phrase] + others && (phrase == "" <==> Tokenless(texts[0], u));
      assert "" in [phrase] + others <==> phrase == "" || "" in others;
      assert texts == [texts[0]] + texts[1..];
    }
  }

  /** A card that no filter excludes is eligible exactly if it shares a term or a nonempty phrase with the prompt,
      or one of its intents has no letter or digit: such an intent makes it match prompts it shares nothing with. */
  lemma TokenlessIntentsMatchAnything(q: Query, card: Card, u: Unicode)
    requires Unfiltered(q, card, u)
    ensures Eligible(q, card, u) <==> Shares(q, card, u) || exists t :: t in card.intents && Tokenless(t, u)
  {
    EligibleExactly(q, card, u);
    EmptyPhrases(card.intents, u);
    EmptyPhraseOccurs(q.normalized);
  }

  lemma OneTokenlessIntent(q: Query, card: Card, u: Unicode)
    requires |card.intents| == 1 && Tokenless(card.intents[0], u) && card.negativeIntents == [] && RiskFits(q, card.risk)
    ensures ScoreOf(q, card, u) == Points(4)
  {
    var text := card.intents[0];
    EmptyPhraseIsTokenless(u.surface(text).value);
    assert card.intents[1..] == [] && Phrases(card.intents[1..], u) == Some([]);
    var phrase := NormalizeSurface(u.surface(text).value);
    assert phrase == "" && [phrase] + [] == [phrase];
    assert Phrases(card.intents, u) == Some([phrase]) && Phrases(card.negativeIntents, u) == Some([]);
    EmptyPhrasePoints(q, [phrase]);
  }

  lemma EmptyPhrasePoints(q: Query, phrases: seq<string>)
    requires phrases == [""]
    ensures PointsOf(q, phrases, []) == Points(4)
  {
    assert Units(phrases[0]) == [] && Tokens(phrases[0]) == [];
    assert phrases[1..] == [] && TermsOf(phrases[1..]) == {} && TermsOf(phrases) == {};
    EmptyPhraseOccurs(q.normalized);
    assert Bonus(phrases, q.normalized) == 4 + Bonus(phrases[1..], q.normalized);
  }

  lemma DashHasNoToken(text: string)
    requires |text| == 1 && !Alnum(text[0]) && !Punctuation(text[0])
    ensures Tokens(text) == []
  {
    assert text[1..] == "" && Units(text[1..]) == [];
  }

  /** The card with the single intent "—" gets four points on every prompt its risk fits. */
  lemma DashMatchesEveryPrompt(q: Query, u: Unicode) returns (card: Card)
    requires u.surface("—") == Some("—") && RiskFits(q, ReadOnly)
    ensures card == Card("notes.read", "1.0.0", ReadOnly, ["—"], []) && ScoreOf(q, card, u) == Points(4)
  {
    card := Card("notes.read", "1.0.0", ReadOnly, ["—"], []);
    DashHasNoToken(card.intents[0]);
    OneTokenlessIntent(q, card, u);
  }

  /* ---------- which cards match every prompt ---------- */

  /** Some prompt text gives this query. */
  ghost predicate FromPrompt(v: Vocabulary, q: Query) {
    exists surface :: IsQuery(v, surface, q) && Tokens(q.normalized) != []
  }

  /** A letter or digit that the phrases of a card do not use. */
  predicate Unused(c: char, phrases: seq<string>) {
    forall p | p in phrases :: c !in p
  }

  lemma OneLetter(v: Vocabulary, c: char)
    requires Alnum(c)
    ensures Units([c]) == [[c]] && Tokens([c]) == [[c]] && NormalizeSurface([c]) == [c]
    ensures forall t :: !Negated(v, Units([c]), t)
  {
    assert RunLength([c], true) == 1 by {
      assert [c][1..] == "";
    }
    assert [c][..1] == [c] && [c][1..] == "";
    assert Units("") == [];
    assert Words([[c]][1..]) == [];
    assert Words([[c]]) == [[c]];
  }

  lemma LetterOccurs(c: char, p: string)
    requires Occurs([c], p) && p != ""
    ensures c in p
  {
    var i: nat :| 0 <= i <= 1 && OccursAt([c], p, i);
    assert p[0] == [c][i..i + |p|][0];
  }

  /** The terms of the phrases of a text use only its own letters. */
  lemma {:induction false} UnusedIsNoTerm(c: char, phrases: seq<string>)
    requires Unused(c, phrases)
    ensures [c] !in TermsOf(phrases)
  {
    if phrases != [] {
      assert phrases[0] in phrases;
      assert forall p :: p in phrases[1..] ==> p in phrases;
      UnusedIsNoTerm(c, phrases[1..]);
      TokenLetters(phrases[0], c);
    }
  }

  lemma {:induction false} TokenLetters(s: string, c: char)
    requires c !in s
    ensures [c] !in Tokens(s)
    decreases |s|
  {
    UnitsLetters(s, c);
    WordsAreUnits(Units(s));
  }

  lemma {:induction false} WordsAreUnits(units: seq<string>)
    ensures forall w :: w in Words(units) ==> w in units
  {
    if units != [] {
      WordsAreUnits(units[1..]);
      assert units == [units[0]] + units[1..];
    }
  }

  lemma {:induction false} UnitsLetters(s: string, c: char)
    requires c !in s
    ensures [c] !in Units(s)
    decreases |s|
  {
    if s != "" {
      var n := if Alnum(s[0]) then RunLength(s, true) else if Punctuation(s[0]) then RunLength(s, false) else 1;
      assert s[0] in s && s[..n][0] == s[0];
      UnitsLetters(s[n..], c);
    }
  }

  /** For a card whose phrases leave some letter or digit unused: it is eligible for every prompt that no filter
      keeps from it exactly if one of its intents has no letter or digit. */
  lemma MatchesEveryPromptExactly(card: Card, u: Unicode, c: char)
    requires Phrases(card.intents, u).Some? && Phrases(card.negativeIntents, u).Some? && Alnum(c)
    requires Unused(c, Phrases(card.intents, u).value) && Unused(c, Phrases(card.negativeIntents, u).value)
    ensures (forall q :: FromPrompt(ENGLISH, q) && Unfiltered(q, card, u) ==> Eligible(q, card, u))
            <==> exists t :: t in card.intents && Tokenless(t, u)
  {
    if exists t :: t in card.intents && Tokenless(t, u) {
      forall q | FromPrompt(ENGLISH, q) && Unfiltered(q, card, u) ensures Eligible(q, card, u) {
        TokenlessIntentsMatchAnything(q, card, u);
      }
    } else {
      var q := Query([c], {[c]}, {}, false, false);
      StrangePrompt(card, u, c, q);
      TokenlessIntentsMatchAnything(q, card, u);
    }
  }

  lemma NoOneLetterRead(w: string)
    requires |w| == 1
    ensures w !in ENGLISH.readTerms
  {
  }

  lemma NoOneLetterWrite(w: string)
    requires |w| == 1
    ensures w !in ENGLISH.writeTerms
  {
  }

  lemma StrangePrompt(card: Card, u: Unicode, c: char, q: Query)
    requires Phrases(card.intents, u).Some? && Phrases(card.negativeIntents, u).Some? && Alnum(c)
    requires Unused(c, Phrases(card.intents, u).value) && Unused(c, Phrases(card.negativeIntents, u).value)
    requires q == Query([c], {[c]}, {}, false, false)
    ensures FromPrompt(ENGLISH, q) && Unfiltered(q, card, u) && !Shares(q, card, u)
  {
    OneLetter(ENGLISH, c);
    NoOneLetterRead([c]);
    NoOneLetterWrite([c]);
    assert q.tokens * ENGLISH.readTerms == {} && q.tokens * ENGLISH.writeTerms == {};
    assert IsQuery(ENGLISH, [c], q);
    UnusedIsNoTerm(c, Phrases(card.intents, u).value);
    forall p | (p in Phrases(card.intents, u).value || p in Phrases(card.negativeIntents, u).value) && p != "" ensures !Occurs(q.normalized, p) {
      if Occurs([c], p) {
        LetterOccurs(c, p);
        assert false;
      }
    }
  }

  /** Without an unused letter the condition is not the only one: a card with every letter and digit as an intent
      also matches every prompt. */
  lemma SingleLettersMatchEveryPrompt(q: Query, card: Card, u: Unicode)
    requires FromPrompt(ENGLISH, q) && Unfiltered(q, card, u)
    requires forall c :: Alnum(c) ==> [c] in Phrases(card.intents, u).value
    ensures Eligible(q, card, u)
  {
    var surface :| IsQuery(ENGLISH, surface, q) && Tokens(q.normalized) != [];
    SomeLetter(q.normalized);
    var i :| 0 <= i < |q.normalized| && Alnum(q.normalized[i]);
    LetterIsShared(q, Phrases(card.intents, u).value, i);
    TokenlessIntentsMatchAnything(q, card, u);
  }

  lemma LetterIsShared(q: Query, phrases: seq<string>, i: nat)
    requires i < |q.normalized| && [q.normalized[i]] in phrases
    ensures exists p :: p in phrases && p != "" && Occurs(q.normalized, p)
  {
    var p := [q.normalized[i]];
    assert OccursAt(q.normalized, p, i);
  }

  lemma {:induction false} SomeLetter(s: string)
    requires Tokens(s) != []
    ensures exists i :: 0 <= i < |s| && Alnum(s[i])
    decreases |s|
  {
    if !Alnum(s[0]) {
      var n := if Punctuation(s[0]) then RunLength(s, false) else 1;
      assert Punctuation(s[0]) ==> n > 0;
      assert Punctuation(s[0]) ==> Words(Units(s)) == Words(Units(s[n..])) by {
        if Punctuation(s[0]) {
          assert Units(s)[1..] == Units(s[n..]) && s[..n][0] == s[0];
        }
      }
      SomeLetter(s[n..]);
      var i :| 0 <= i < |s[n..]| && Alnum(s[n..][i]);
      assert Alnum(s[n + i]);
    }
  }

  lemma {:induction false} AllowedCount(cards: seq<Card>, policy: Card -> bool, c: Card)
    ensures multiset(Allowed(cards, policy))[c] == if policy(c) then multiset(cards)[c] else 0
    decreases |cards|
  {
    if cards != [] {
      AllowedCount(cards[..|cards| - 1], policy, c);
      CardCount(cards, c);
    }
  }

  /** The card was asked for, nothing opposes it, and its points are what it is worth, and count. */
  ghost predicate Earned(q: Query, x: Scored, u: Unicode) {
    Asked(q, x.card) && !Unreadable(x.card, u) && Unopposed(q, x.card, u) && 0 < x.points == Worth(q, x.card, u)
  }

  lemma ItemCount(q: Query, card: Card, u: Unicode, x: Scored)
    ensures multiset(Item(ScoreOf(q, card, u), card))[x] == if Earned(q, x, u) && x.card == card then 1 else 0
  {
    ScoreIsWorth(q, card, u);
  }

  lemma LastCard(q: Query, cards: seq<Card>, u: Unicode)
    requires cards != [] && ScoreAll(q, cards, u).Some?
    ensures var n := |cards| - 1;
            ScoreAll(q, cards[..n], u).Some?
            && ScoreAll(q, cards, u).value == ScoreAll(q, cards[..n], u).value + Item(ScoreOf(q, cards[n], u), cards[n])
  {
  }

  lemma CountIn(a: seq<Scored>, b: seq<Scored>, x: Scored)
    ensures multiset(a + b)[x] == multiset(a)[x] + multiset(b)[x]
  {
  }

  lemma CardCount(cards: seq<Card>, c: Card)
    requires cards != []
    ensures multiset(cards)[c] == multiset(cards[..|cards| - 1])[c] + if cards[|cards| - 1] == c then 1 else 0
  {
    assert cards == cards[..|cards| - 1] + [cards[|cards| - 1]];
  }

  lemma {:induction false} ScoredCount(q: Query, cards: seq<Card>, u: Unicode, x: Scored)
    requires ScoreAll(q, cards, u).Some?
    ensures multiset(ScoreAll(q, cards, u).value)[x] == if Earned(q, x, u) then multiset(cards)[x.card] else 0
    decreases |cards|
  {
    if cards != [] {
      var n := |cards| - 1;
      LastCard(q, cards, u);
      ScoredCount(q, cards[..n], u, x);
      ItemCount(q, cards[n], u, x);
      CountIn(ScoreAll(q, cards[..n], u).value, Item(ScoreOf(q, cards[n], u), cards[n]), x);
      CardCount(cards, x.card);
    }
  }

  lemma LastRaises(q: Query, cards: seq<Card>, u: Unicode)
    requires cards != []
    ensures var n := |cards| - 1; ScoreAll(q, cards, u).None? <==> ScoreAll(q, cards[..n], u).None? || ScoreOf(q, cards[n], u).Raises?
    ensures var n := |cards| - 1; forall c :: c in cards <==> c in cards[..n] || c == cards[n]
  {
    assert cards == cards[..|cards| - 1] + [cards[|cards| - 1]];
  }

  lemma {:induction false} RaisesSomewhere(q: Query, cards: seq<Card>, u: Unicode)
    ensures ScoreAll(q, cards, u).None? <==> exists c :: c in cards && ScoreOf(q, c, u).Raises?
    decreases |cards|
  {
    if cards != [] {
      LastRaises(q, cards, u);
      RaisesSomewhere(q, cards[..|cards| - 1], u);
    }
  }

  /** A ranked list of exactly the eligible cards that the policy allows, each as often as in the catalog. */
  ghost predicate Ranking(ranking: seq<Scored>, q: Query, cards: seq<Card>, policy: Card -> bool, u: Unicode) {
    Ranked(ranking) && forall x :: multiset(ranking)[x] == if policy(x.card) && Earned(q, x, u) then multiset(cards)[x.card] else 0
  }

  lemma RankingOf(q: Query, cards: seq<Card>, policy: Card -> bool, u: Unicode)
    requires ScoreAll(q, Allowed(cards, policy), u).Some?
    ensures Ranking(Sort(ScoreAll(q, Allowed(cards, policy), u).value), q, cards, policy, u)
  {
    var allowed := Allowed(cards, policy);
    var scored := ScoreAll(q, allowed, u).value;
    SortRanks(scored);
    forall x ensures multiset(Sort(scored))[x] == if policy(x.card) && Earned(q, x, u) then multiset(cards)[x.card] else 0 {
      ScoredCount(q, allowed, u, x);
      AllowedCount(cards, policy, x.card);
    }
  }

  /** The selection is a prefix of that ranking, shorter than the limit only if it is all of it; nothing is
      selected only if no card is eligible. */
  lemma SelectedAreTheBest(q: Query, cards: seq<Card>, policy: Card -> bool, u: Unicode, maximum: nat) returns (ranking: seq<Scored>)
    requires maximum > 0 && (Choose(q, Allowed(cards, policy), u, maximum).NoMatch? || Choose(q, Allowed(cards, policy), u, maximum).Selected?)
    ensures Ranking(ranking, q, cards, policy, u)
    ensures match Choose(q, Allowed(cards, policy), u, maximum)
            case Selected(best) => 0 < |best| <= maximum && |best| <= |ranking| && best == CardsOf(ranking[..|best|]) && (|best| < maximum ==> |best| == |ranking|)
            case _ => ranking == []
  {
    RankingOf(q, cards, policy, u);
    ranking := Sort(ScoreAll(q, Allowed(cards, policy), u).value);
    assert ranking[..|ranking|] == ranking;
  }

  /** Every ranked card is in the catalog, allowed by the policy and eligible. */
  lemma RankedAreEligible(ranking: seq<Scored>, q: Query, cards: seq<Card>, policy: Card -> bool, u: Unicode, i: nat)
    requires Ranking(ranking, q, cards, policy, u) && i < |ranking|
    ensures ranking[i].card in cards && policy(ranking[i].card) && Eligible(q, ranking[i].card, u)
  {
    assert multiset(ranking)[ranking[i]] > 0;
    assert multiset(cards)[ranking[i].card] > 0;
    ScoreIsWorth(q, ranking[i].card, u);
  }

  ghost predicate DistinctVersions(cards: seq<Card>) {
    forall i, j :: 0 <= i < j < |cards| ==> cards[i].id != cards[j].id || cards[i].version != cards[j].version
  }

  lemma DistinctCounts(cards: seq<Card>, c: Card)
    requires DistinctVersions(cards)
    ensures multiset(cards)[c] <= 1
    decreases |cards|
  {
    if cards != [] {
      var n := |cards| - 1;
      DistinctCounts(cards[..n], c);
      assert cards == cards[..n] + [cards[n]];
      assert c == cards[n] ==> c !in cards[..n];
    }
  }

  lemma ScoredKeysDiffer(q: Query, cards: seq<Card>, policy: Card -> bool, u: Unicode)
    requires DistinctVersions(cards) && ScoreAll(q, Allowed(cards, policy), u).Some?
    ensures DistinctKeys(multiset(ScoreAll(q, Allowed(cards, policy), u).value))
  {
    var allowed := Allowed(cards, policy);
    var xs := multiset(ScoreAll(q, allowed, u).value);
    forall x | x in xs ensures xs[x] == 1 && x.card in cards && Earned(q, x, u) {
      ScoredCount(q, allowed, u, x);
      AllowedCount(cards, policy, x.card);
      DistinctCounts(cards, x.card);
      assert multiset(cards)[x.card] > 0;
    }
    forall x, y | x in xs && y in xs && x.card.id == y.card.id && x.card.version == y.card.version ensures x == y {
      var i :| 0 <= i < |cards| && cards[i] == x.card;
      var j :| 0 <= j < |cards| && cards[j] == y.card;
      assert i == j;
    }
  }

  lemma SameMembers(a: seq<Card>, b: seq<Card>)
    requires multiset(a) == multiset(b)
    ensures forall c :: c in a <==> c in b
  {
    assert forall c :: c in a <==> c in multiset(a);
    assert forall c :: c in b <==> c in multiset(b);
  }

  lemma SameAllowed(a: seq<Card>, b: seq<Card>, policy: Card -> bool)
    requires multiset(a) == multiset(b)
    ensures multiset(Allowed(a, policy)) == multiset(Allowed(b, policy))
  {
    forall c ensures multiset(Allowed(a, policy))[c] == multiset(Allowed(b, policy))[c] {
      AllowedCount(a, policy, c);
      AllowedCount(b, policy, c);
    }
  }

  lemma SameScored(q: Query, a: seq<Card>, b: seq<Card>, u: Unicode)
    requires multiset(a) == multiset(b)
    ensures ScoreAll(q, a, u).None? <==> ScoreAll(q, b, u).None?
    ensures ScoreAll(q, a, u).Some? ==> multiset(ScoreAll(q, a, u).value) == multiset(ScoreAll(q, b, u).value)
  {
    SameMembers(a, b);
    RaisesSomewhere(q, a, u);
    RaisesSomewhere(q, b, u);
    if ScoreAll(q, a, u).Some? {
      var xs, ys := multiset(ScoreAll(q, a, u).value), multiset(ScoreAll(q, b, u).value);
      forall x ensures xs[x] == ys[x] {
        ScoredCount(q, a, u, x);
        ScoredCount(q, b, u, x);
      }
    }
  }

  lemma SameSorted(q: Query, a: seq<Card>, b: seq<Card>, policy: Card -> bool, u: Unicode)
    requires multiset(a) == multiset(b) && DistinctVersions(a) && ScoreAll(q, Allowed(a, policy), u).Some?
    ensures ScoreAll(q, Allowed(b, policy), u).Some?
    ensures Sort(ScoreAll(q, Allowed(a, policy), u).value) == Sort(ScoreAll(q, Allowed(b, policy), u).value)
  {
    SameAllowed(a, b, policy);
    SameScored(q, Allowed(a, policy), Allowed(b, policy), u);
    var xs, ys := ScoreAll(q, Allowed(a, policy), u).value, ScoreAll(q, Allowed(b, policy), u).value;
    ScoredKeysDiffer(q, a, policy, u);
    SortRanks(xs);
    SortRanks(ys);
    RankingIsUnique(Sort(xs), Sort(ys));
  }

  lemma SameChoice(q: Query, x: seq<Card>, y: seq<Card>, u: Unicode, maximum: nat)
    requires (Confusable(x, u) <==> Confusable(y, u)) && (ScoreAll(q, x, u).None? <==> ScoreAll(q, y, u).None?)
    requires ScoreAll(q, x, u).Some? ==> Sort(ScoreAll(q, x, u).value) == Sort(ScoreAll(q, y, u).value)
    ensures Choose(q, x, u, maximum) == Choose(q, y, u, maximum)
  {
  }

  lemma SameConfusable(x: seq<Card>, y: seq<Card>, u: Unicode)
    requires forall c :: c in x <==> c in y
    ensures Confusable(x, u) <==> Confusable(y, u)
  {
  }

  /** With distinct (ID, version) pairs the outcome does not depend on the order of the catalog. */
  lemma CatalogOrderDoesNotMatter(q: Query, a: seq<Card>, b: seq<Card>, policy: Card -> bool, u: Unicode, maximum: nat)
    requires multiset(a) == multiset(b) && DistinctVersions(a)
    ensures Choose(q, Allowed(a, policy), u, maximum) == Choose(q, Allowed(b, policy), u, maximum)
  {
    var x, y := Allowed(a, policy), Allowed(b, policy);
    SameAllowed(a, b, policy);
    SameMembers(x, y);
    SameConfusable(x, y, u);
    SameScored(q, x, y, u);
    if ScoreAll(q, x, u).Some? {
      SameSorted(q, a, b, policy, u);
    }
    SameChoice(q, x, y, u, maximum);
  }

  /** Why nothing is selected: two permitted cards with different IDs look alike, a permitted card that was asked for
      cannot be read, or no permitted card earns points. */
  lemma ChoosesExactly(q: Query, cards: seq<Card>, policy: Card -> bool, u: Unicode, maximum: nat)
    requires maximum > 0
    ensures var d := Choose(q, Allowed(cards, policy), u, maximum);
            var alike := exists a, b :: a in cards && b in cards && policy(a) && policy(b) && a.id != b.id && u.skeleton(a.id) == u.skeleton(b.id);
            var unreadable := exists c :: c in cards && policy(c) && Asked(q, c) && Unreadable(c, u);
            && (d == AreConfusable <==> alike) && (d == BadText <==> !alike && unreadable)
            && (d == NoMatch <==> !alike && !unreadable && forall c, n :: c in cards && policy(c) ==> !Earned(q, Scored(n, c), u))
            && (d.Selected? || d in {AreConfusable, BadText, NoMatch})
  {
    var allowed := Allowed(cards, policy);
    forall c ensures c in allowed <==> c in cards && policy(c) {
      AllowedCount(cards, policy, c);
    }
    ChooseCases(q, allowed, u, maximum);
    RaisesSomewhere(q, allowed, u);
    forall c ensures ScoreOf(q, c, u).Raises? <==> Asked(q, c) && Unreadable(c, u) {
      ScoreIsWorth(q, c, u);
    }
    if ScoreAll(q, allowed, u).Some? {
      RankingOf(q, cards, policy, u);
      EmptyRanking(Sort(ScoreAll(q, allowed, u).value), q, cards, policy, u);
    }
  }

  lemma ChooseCases(q: Query, allowed: seq<Card>, u: Unicode, maximum: nat)
    requires maximum > 0
    ensures var d, scored := Choose(q, allowed, u, maximum), ScoreAll(q, allowed, u);
            && (d == AreConfusable <==> Confusable(allowed, u)) && (d == BadText <==> !Confusable(allowed, u) && scored.None?)
            && (d == NoMatch <==> !Confusable(allowed, u) && scored.Some? && Sort(scored.value) == [])
            && (d.Selected? || d in {AreConfusable, BadText, NoMatch})
  {
  }

  lemma EmptyRanking(ranking: seq<Scored>, q: Query, cards: seq<Card>, policy: Card -> bool, u: Unicode)
    requires Ranking(ranking, q, cards, policy, u)
    ensures ranking == [] <==> forall c, n :: c in cards && policy(c) ==> !Earned(q, Scored(n, c), u)
  {
    if ranking != [] {
      assert multiset(ranking)[ranking[0]] > 0;
      assert ranking[0] == Scored(ranking[0].points, ranking[0].card) && multiset(cards)[ranking[0].card] > 0;
    } else {
      forall c, n | c in cards && policy(c) ensures !Earned(q, Scored(n, c), u) {
        assert multiset(ranking)[Scored(n, c)] == 0;
      }
    }
  }
}
