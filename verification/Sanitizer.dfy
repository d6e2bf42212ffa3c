/** The recursive check of delegated payloads, which counts nodes in one shared counter. */
module Sanitizer {
  import opened Prelude

  const MAX_DEPTH := 8
  const MAX_ITEMS := 256
  const MAX_TEXT := 16 * 1024
  const MAX_BYTES := 64 * 1024

  /** A Python value.  `Other` is any other type, such as a float or bytes; a mapping key may be no string. */
  datatype Value =
    | Nil | Boolean(b: bool) | Integer(n: int) | Str(s: string)
    | Mapping(entries: seq<Entry>)
    | Sequence(isTuple: bool, items: seq<Value>)
    | Other

  datatype Entry = Entry(key: Option<string>, value: Value)

  /** The secret patterns and the forbidden parts of casefolded keys. */
  datatype Rules = Rules(textAllowed: string -> bool, keyAllowed: string -> bool)

  /* ---------- the recursion ---------- */

  predicate KeyOk(key: Option<string>, rules: Rules) {
    key.Some? && key.value != "" && rules.keyAllowed(key.value)
  }

  predicate TextOk(s: string, rules: Rules) {
    |s| <= MAX_TEXT && rules.textAllowed(s)
  }

  /** The immutable copy and the counter after it, or nothing if the payload is rejected. */
  function Sanitize(v: Value, depth: nat, count: nat, rules: Rules): Option<(Value, nat)> {
    if depth > MAX_DEPTH || count + 1 > MAX_ITEMS then None
    else match v
         case Other => None
         case Str(s) => if TextOk(s, rules) then Some((v, count + 1)) else None
         case Mapping(entries) =>
           var r := SanitizeEntries(entries, depth + 1, count + 1, rules);
           if r.None? then None else Some((Mapping(r.value.0), r.value.1))
         case Sequence(_, items) =>
           var r := SanitizeItems(items, depth + 1, count + 1, rules);
           if r.None? then None else Some((Sequence(true, r.value.0), r.value.1))
         case _ => Some((v, count + 1))
  }

  function SanitizeItems(items: seq<Value>, depth: nat, count: nat, rules: Rules): Option<(seq<Value>, nat)> {
    if items == [] then Some(([], count))
    else
      var first := Sanitize(items[0], depth, count, rules);
      if first.None? then None
      else
        var others := SanitizeItems(items[1..], depth, first.value.1, rules);
        if others.None? then None else Some(([first.value.0] + others.value.0, others.value.1))
  }

  function SanitizeEntries(entries: seq<Entry>, depth: nat, count: nat, rules: Rules): Option<(seq<Entry>, nat)> {
    if entries == [] then Some(([], count))
    else
      var first := SanitizeEntry(entries[0], depth, count, rules);
      if first.None? then None
      else
        var others := SanitizeEntries(entries[1..], depth, first.value.1, rules);
        if others.None? then None else Some(([first.value.0] + others.value.0, others.value.1))
  }

  function SanitizeEntry(e: Entry, depth: nat, count: nat, rules: Rules): Option<(Entry, nat)> {
    if !KeyOk(e.key, rules) then None
    else
      var item := Sanitize(e.value, depth, count, rules);
      if item.None? then None else Some((Entry(e.key, item.value.0), item.value.1))
  }

  class Counter {
    var n: nat

    constructor ()
      ensures n == 0
    {
      n := 0;
    }
  }

  method SanitizeValue(v: Value, depth: nat, counter: Counter, rules: Rules) returns (r: Option<Value>)
    modifies counter
    ensures var spec := old(Sanitize(v, depth, counter.n, rules));
            if spec.None? then r.None? else r == Some(spec.value.0) && counter.n == spec.value.1
    decreases v
  {
    if depth > MAX_DEPTH { return None; }
    counter.n := counter.n + 1;
    if counter.n > MAX_ITEMS { return None; }
    match v
    case Nil => return Some(v);
    case Boolean(_) => return Some(v);
    case Integer(_) => return Some(v);
    case Str(s) =>
      if |s| > MAX_TEXT || !rules.textAllowed(s) { return None; }
      return Some(v);
    case Mapping(entries) =>
      var result := CopyEntries(v, entries, depth + 1, counter, rules);
      return if result.None? then None else Some(Mapping(result.value));
    case Sequence(_, items) =>
      var result := CopyItems(v, items, depth + 1, counter, rules);
      return if result.None? then None else Some(Sequence(true, result.value));
    case Other => return None;
  }

  method CopyItems(ghost v: Value, items: seq<Value>, depth: nat, counter: Counter, rules: Rules) returns (r: Option<seq<Value>>)
    requires v.Sequence? && v.items == items
    modifies counter
    ensures var spec := old(SanitizeItems(items, depth, counter.n, rules));
            if spec.None? then r.None? else r == Some(spec.value.0) && counter.n == spec.value.1
    decreases v, 0
  {
    var copies: seq<Value> := [];
    ghost var start := counter.n;
    assert items[0..] == items;
    PrefixedEnds(copies, SanitizeItems(items, depth, start, rules), start);
    for i := 0 to |items|
      invariant Prefixed(copies, SanitizeItems(items[i..], depth, counter.n, rules)) == SanitizeItems(items, depth, start, rules)
    {
      assert items[i..][0] == items[i] && items[i..][1..] == items[i + 1..];
      ghost var before := counter.n;
      var copy := SanitizeValue(items[i], depth, counter, rules);
      if copy.None? { return None; }
      StepItems(copies, items[i..], depth, before, rules);
      copies := copies + [copy.value];
    }
    PrefixedEnds(copies, None, counter.n);
    return Some(copies);
  }

  method CopyEntries(ghost v: Value, entries: seq<Entry>, depth: nat, counter: Counter, rules: Rules) returns (r: Option<seq<Entry>>)
    requires v.Mapping? && v.entries == entries
    modifies counter
    ensures var spec := old(SanitizeEntries(entries, depth, counter.n, rules));
            if spec.None? then r.None? else r == Some(spec.value.0) && counter.n == spec.value.1
    decreases v, 0
  {
    var copies: seq<Entry> := [];
    ghost var start := counter.n;
    assert entries[0..] == entries;
    PrefixedEnds(copies, SanitizeEntries(entries, depth, start, rules), start);
    for i := 0 to |entries|
      invariant Prefixed(copies, SanitizeEntries(entries[i..], depth, counter.n, rules)) == SanitizeEntries(entries, depth, start, rules)
    {
      assert entries[i..][0] == entries[i] && entries[i..][1..] == entries[i + 1..];
      ghost var before := counter.n;
      var key := entries[i].key;
      if key.None? || key.value == "" || !rules.keyAllowed(key.value) { return None; }
      var copy := SanitizeValue(entries[i].value, depth, counter, rules);
      if copy.None? { return None; }
      StepEntries(copies, entries[i..], depth, before, rules);
      copies := copies + [Entry(key, copy.value)];
    }
    PrefixedEnds(copies, None, counter.n);
    return Some(copies);
  }

  function Prefixed<T>(done: seq<T>, rest: Option<(seq<T>, nat)>): Option<(seq<T>, nat)> {
    if rest.None? then None else Some((done + rest.value.0, rest.value.1))
  }

  lemma PrefixedEnds<T>(done: seq<T>, rest: Option<(seq<T>, nat)>, count: nat)
    ensures Prefixed([], rest) == rest && Prefixed(done, Some(([], count))) == Some((done, count))
  {
    if rest.Some? {
      assert [] + rest.value.0 == rest.value.0;
    }
    assert done + [] == done;
  }

  lemma StepItems(done: seq<Value>, items: seq<Value>, depth: nat, count: nat, rules: Rules)
    requires items != [] && Sanitize(items[0], depth, count, rules).Some?
    ensures var (copy, next) := Sanitize(items[0], depth, count, rules).value;
            Prefixed(done, SanitizeItems(items, depth, count, rules)) == Prefixed(done + [copy], SanitizeItems(items[1..], depth, next, rules))
  {
    var (copy, next) := Sanitize(items[0], depth, count, rules).value;
    var others := SanitizeItems(items[1..], depth, next, rules);
    if others.Some? {
      assert done + ([copy] + others.value.0) == done + [copy] + others.value.0;
    }
  }

  lemma StepEntries(done: seq<Entry>, entries: seq<Entry>, depth: nat, count: nat, rules: Rules)
    requires entries != [] && SanitizeEntry(entries[0], depth, count, rules).Some?
    ensures var (copy, next) := SanitizeEntry(entries[0], depth, count, rules).value;
            Prefixed(done, SanitizeEntries(entries, depth, count, rules)) == Prefixed(done + [copy], SanitizeEntries(entries[1..], depth, next, rules))
  {
    var (copy, next) := SanitizeEntry(entries[0], depth, count, rules).value;
    var others := SanitizeEntries(entries[1..], depth, next, rules);
    if others.Some? {
      assert done + ([copy] + others.value.0) == done + [copy] + others.value.0;
    }
  }

  /* ---------- what is accepted, and what comes out ---------- */

  /** All the values inside a payload, counting itself. */
  function Nodes(v: Value): nat {
    match v
    case Mapping(entries) => 1 + EntryNodes(entries)
    case Sequence(_, items) => 1 + ItemNodes(items)
    case _ => 1
  }

  function ItemNodes(items: seq<Value>): nat {
    if items == [] then 0 else Nodes(items[0]) + ItemNodes(items[1..])
  }

  function EntryNodes(entries: seq<Entry>): nat {
    if entries == [] then 0 else EntryNode(entries[0]) + EntryNodes(entries[1..])
  }

  function EntryNode(e: Entry): nat { Nodes(e.value) }

  /** Every key, string and type is allowed and nothing lies deeper than the limit. */
  predicate Permitted(v: Value, depth: nat, rules: Rules) {
    && depth <= 8
    && match v
       case Other => false
       case Str(s) => |s| <= 16 * 1024 && rules.textAllowed(s)
       case Mapping(entries) => forall e | e in entries :: EntryPermitted(e, depth + 1, rules)
       case Sequence(_, items) => forall x | x in items :: Permitted(x, depth + 1, rules)
       case _ => true
  }

  predicate EntryPermitted(e: Entry, depth: nat, rules: Rules) {
    e.key.Some? && e.key.value != "" && rules.keyAllowed(e.key.value) && Permitted(e.value, depth, rules)
  }

  /** The same value with every sequence as a tuple, or as a list. */
  function As(v: Value, isTuple: bool): Value {
    match v
    case Mapping(entries) => Mapping(EntriesAs(entries, isTuple))
    case Sequence(_, items) => Sequence(isTuple, ItemsAs(items, isTuple))
    case _ => v
  }

  function ItemsAs(items: seq<Value>, isTuple: bool): seq<Value> {
    if items == [] then [] else [As(items[0], isTuple)] + ItemsAs(items[1..], isTuple)
  }

  function EntriesAs(entries: seq<Entry>, isTuple: bool): seq<Entry> {
    if entries == [] then [] else [EntryAs(entries[0], isTuple)] + EntriesAs(entries[1..], isTuple)
  }

  function EntryAs(e: Entry, isTuple: bool): Entry { Entry(e.key, As(e.value, isTuple)) }

  /** `_thaw`: only tuples are rebuilt, lists stay as they are. */
  function Thaw(v: Value): Value {
    match v
    case Mapping(entries) => Mapping(ThawEntries(entries))
    case Sequence(true, items) => Sequence(false, ThawItems(items))
    case _ => v
  }

  function ThawItems(items: seq<Value>): seq<Value> {
    if items == [] then [] else [Thaw(items[0])] + ThawItems(items[1..])
  }

  function ThawEntries(entries: seq<Entry>): seq<Entry> {
    if entries == [] then [] else [ThawEntry(entries[0])] + ThawEntries(entries[1..])
  }

  function ThawEntry(e: Entry): Entry { Entry(e.key, Thaw(e.value)) }

  /** Accepted are exactly the permitted values whose nodes still fit the counter; the counter ends at the sum,
      and the copy differs only in that sequences are tuples. */
  lemma {:induction false} SanitizeIsExact(v: Value, depth: nat, count: nat, rules: Rules)
    requires count <= MAX_ITEMS
    ensures Sanitize(v, depth, count, rules)
            == if Permitted(v, depth, rules) && count + Nodes(v) <= MAX_ITEMS then Some((As(v, true), count + Nodes(v))) else None
    decreases v
  {
    if depth <= MAX_DEPTH && count + 1 <= MAX_ITEMS {
      match v
      case Mapping(entries) => EntriesAreExact(entries, depth + 1, count + 1, rules);
      case Sequence(_, items) => ItemsAreExact(items, depth + 1, count + 1, rules);
      case _ =>
    }
  }

  lemma {:induction false} ItemsAreExact(items: seq<Value>, depth: nat, count: nat, rules: Rules)
    requires count <= MAX_ITEMS
    ensures SanitizeItems(items, depth, count, rules)
            == if (forall x | x in items :: Permitted(x, depth, rules)) && count + ItemNodes(items) <= MAX_ITEMS
               then Some((ItemsAs(items, true), count + ItemNodes(items))) else None
    decreases items
  {
    if items != [] {
      assert items == [items[0]] + items[1..];
      SanitizeIsExact(items[0], depth, count, rules);
      if count + Nodes(items[0]) <= MAX_ITEMS {
        ItemsAreExact(items[1..], depth, count + Nodes(items[0]), rules);
      }
    }
  }

  lemma {:induction false} EntriesAreExact(entries: seq<Entry>, depth: nat, count: nat, rules: Rules)
    requires count <= MAX_ITEMS
    ensures SanitizeEntries(entries, depth, count, rules)
            == if (forall e | e in entries :: EntryPermitted(e, depth, rules)) && count + EntryNodes(entries) <= MAX_ITEMS
               then Some((EntriesAs(entries, true), count + EntryNodes(entries))) else None
    decreases entries
  {
    if entries != [] {
      assert entries == [entries[0]] + entries[1..];
      EntryIsExact(entries[0], depth, count, rules);
      if count + EntryNode(entries[0]) <= MAX_ITEMS {
        EntriesAreExact(entries[1..], depth, count + EntryNode(entries[0]), rules);
      }
    }
  }

  lemma {:induction false} EntryIsExact(e: Entry, depth: nat, count: nat, rules: Rules)
    requires count <= MAX_ITEMS
    ensures SanitizeEntry(e, depth, count, rules)
            == if EntryPermitted(e, depth, rules) && count + EntryNode(e) <= MAX_ITEMS then Some((EntryAs(e, true), count + EntryNode(e))) else None
    decreases e
  {
    SanitizeIsExact(e.value, depth, count, rules);
  }

  /** The copy has as many nodes and is as permitted as the payload; thawing it gives the payload with lists;
      copying it again gives the same copy. */
  lemma {:induction false} CopyIsFaithful(v: Value, depth: nat, rules: Rules)
    ensures var copy := As(v, true);
            && Nodes(copy) == Nodes(v) && (Permitted(copy, depth, rules) <==> Permitted(v, depth, rules))
            && Thaw(copy) == As(v, false) && As(copy, true) == copy
    decreases v
  {
    match v
    case Mapping(entries) => EntryCopies(entries, depth + 1, rules);
    case Sequence(_, items) => ItemCopies(items, depth + 1, rules);
    case _ =>
  }

  lemma {:induction false} ItemCopies(items: seq<Value>, depth: nat, rules: Rules)
    ensures var copies := ItemsAs(items, true);
            && ItemNodes(copies) == ItemNodes(items)
            && ((forall x | x in copies :: Permitted(x, depth, rules)) <==> (forall x | x in items :: Permitted(x, depth, rules)))
            && ThawItems(copies) == ItemsAs(items, false) && ItemsAs(copies, true) == copies
    decreases items
  {
    if items != [] {
      var first, others := As(items[0], true), ItemsAs(items[1..], true);
      assert items == [items[0]] + items[1..];
      CopyIsFaithful(items[0], depth, rules);
      ItemCopies(items[1..], depth, rules);
      assert ([first] + others)[1..] == others;
    }
  }

  lemma {:induction false} EntryCopies(entries: seq<Entry>, depth: nat, rules: Rules)
    ensures var copies := EntriesAs(entries, true);
            && EntryNodes(copies) == EntryNodes(entries)
            && ((forall e | e in copies :: EntryPermitted(e, depth, rules))
                <==> (forall e | e in entries :: EntryPermitted(e, depth, rules)))
            && ThawEntries(copies) == EntriesAs(entries, false) && EntriesAs(copies, true) == copies
    decreases entries
  {
    if entries != [] {
      var first, others := EntryAs(entries[0], true), EntriesAs(entries[1..], true);
      assert entries == [entries[0]] + entries[1..];
      EntryCopy(entries[0], depth, rules);
      EntryCopies(entries[1..], depth, rules);
      assert ([first] + others)[1..] == others;
    }
  }

  lemma {:induction false} EntryCopy(e: Entry, depth: nat, rules: Rules)
    ensures var copy := EntryAs(e, true);
            && EntryNode(copy) == EntryNode(e) && (EntryPermitted(copy, depth, rules) <==> EntryPermitted(e, depth, rules))
            && ThawEntry(copy) == EntryAs(e, false) && EntryAs(copy, true) == copy
    decreases e
  {
    CopyIsFaithful(e.value, depth, rules);
  }

  /* ---------- the payload check ---------- */

  /** `sanitize_payload`; `bytes` is the length of the compact JSON text. */
  function SanitizePayload(v: Value, rules: Rules, bytes: Value -> nat): Option<Value> {
    var r := Sanitize(v, 0, 0, rules);
    if r.None? || !r.value.0.Mapping? || bytes(Thaw(r.value.0)) > MAX_BYTES then None else Some(r.value.0)
  }

  method CheckPayload(v: Value, rules: Rules, bytes: Value -> nat) returns (r: Option<Value>)
    ensures r == SanitizePayload(v, rules, bytes)
  {
    var counter := new Counter();
    r := SanitizeValue(v, 0, counter, rules);
    if r.None? || !r.value.Mapping? || bytes(Thaw(r.value)) > MAX_BYTES { return None; }
  }

  /** A payload passes exactly if it is a permitted mapping of at most 256 nodes and its JSON is short enough. */
  lemma PayloadIsAccepted(v: Value, rules: Rules, bytes: Value -> nat)
    ensures SanitizePayload(v, rules, bytes)
            == if v.Mapping? && Permitted(v, 0, rules) && Nodes(v) <= MAX_ITEMS && bytes(As(v, false)) <= MAX_BYTES
               then Some(As(v, true)) else None
  {
    SanitizeIsExact(v, 0, 0, rules);
    CopyIsFaithful(v, 0, rules);
  }

  /** What passed once passes again unchanged. */
  lemma SanitizingIsIdempotent(v: Value, rules: Rules, bytes: Value -> nat)
    requires SanitizePayload(v, rules, bytes).Some?
    ensures SanitizePayload(SanitizePayload(v, rules, bytes).value, rules, bytes) == SanitizePayload(v, rules, bytes)
  {
    var copy := As(v, true);
    PayloadIsAccepted(v, rules, bytes);
    PayloadIsAccepted(copy, rules, bytes);
    CopyIsFaithful(v, 0, rules);
    ListsOfTuples(v);
  }

  lemma {:induction false} ListsOfTuples(v: Value)
    ensures As(As(v, true), false) == As(v, false)
    decreases v
  {
    match v
    case Mapping(entries) => ListsOfTupleEntries(entries);
    case Sequence(_, items) => ListsOfTupleItems(items);
    case _ =>
  }

  lemma {:induction false} ListsOfTupleItems(items: seq<Value>)
    ensures ItemsAs(ItemsAs(items, true), false) == ItemsAs(items, false)
    decreases items
  {
    if items != [] {
      ListsOfTuples(items[0]);
      ListsOfTupleItems(items[1..]);
      assert ItemsAs(items, true)[1..] == ItemsAs(items[1..], true);
    }
  }

  lemma {:induction false} ListsOfTupleEntries(entries: seq<Entry>)
    ensures EntriesAs(EntriesAs(entries, true), false) == EntriesAs(entries, false)
    decreases entries
  {
    if entries != [] {
      ListsOfTupleEntry(entries[0]);
      ListsOfTupleEntries(entries[1..]);
      assert EntriesAs(entries, true)[1..] == EntriesAs(entries[1..], true);
    }
  }

  lemma {:induction false} ListsOfTupleEntry(e: Entry)
    ensures EntryAs(EntryAs(e, true), false) == EntryAs(e, false)
    decreases e
  {
    ListsOfTuples(e.value);
  }
}
