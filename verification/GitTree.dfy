/** Parsing raw Git trees, and walking them from a root tree to one regular file. */
module GitTree {
  import opened Prelude

  type byte = b: int | 0 <= b < 256

  const MAX_ENTRIES := 50_000
  const SPACE: byte := 32
  const NUL: byte := 0
  const SLASH: byte := 47
  const DOT: byte := 46
  const TREE: seq<byte> := [52, 48, 48, 48, 48]                 // "40000"
  const REGULAR: seq<byte> := [49, 48, 48, 54, 52, 52]          // "100644"
  const EXECUTABLE: seq<byte> := [49, 48, 48, 55, 53, 53]       // "100755"
  const SYMLINK: seq<byte> := [49, 50, 48, 48, 48, 48]          // "120000"
  const SUBMODULE: seq<byte> := [49, 54, 48, 48, 48, 48]        // "160000"

  /** One dictionary item, in insertion order; `id` is in hexadecimal. */
  datatype Entry = Entry(name: seq<byte>, mode: seq<byte>, id: string)

  predicate ModeOk(mode: seq<byte>) {
    mode == TREE || mode == REGULAR || mode == EXECUTABLE || mode == SYMLINK || mode == SUBMODULE
  }

  predicate NameOk(name: seq<byte>) {
    name != [] && SLASH !in name && name != [DOT] && name != [DOT, DOT]
  }

  function HexDigit(d: int): char
    requires 0 <= d < 16
  {
    if d < 10 then (d + 48) as char else (d + 87) as char
  }

  predicate IsHexDigit(c: char) { '0' <= c <= '9' || 'a' <= c <= 'f' }

  function DigitValue(c: char): (d: int)
    ensures 0 <= d < 16 && (IsHexDigit(c) ==> HexDigit(d) == c)
  {
    if '0' <= c <= '9' then c as int - 48 else if 'a' <= c <= 'f' then c as int - 87 else 0
  }

  predicate IsHex(s: string) { forall c | c in s :: IsHexDigit(c) }

  /** `bytes.hex()`. */
  function Hex(raw: seq<byte>): (s: string)
    ensures |s| == 2 * |raw| && IsHex(s)
  {
    if raw == [] then [] else [HexDigit(raw[0] / 16), HexDigit(raw[0] % 16)] + Hex(raw[1..])
  }

  function Unhex(s: string): (raw: seq<byte>)
    ensures |raw| == |s| / 2
  {
    if |s| < 2 then [] else [DigitValue(s[0]) * 16 + DigitValue(s[1])] + Unhex(s[2..])
  }

  lemma {:induction false} HexInverse(raw: seq<byte>)
    ensures Unhex(Hex(raw)) == raw
  {
    if raw != [] {
      HexInverse(raw[1..]);
      assert Hex(raw)[2..] == Hex(raw[1..]);
      assert raw == [raw[0]] + raw[1..];
    }
  }

  lemma {:induction false} UnhexInverse(s: string)
    requires IsHex(s) && |s| % 2 == 0
    ensures Hex(Unhex(s)) == s
  {
    if s != [] {
      var rest := Unhex(s[2..]);
      UnhexInverse(s[2..]);
      assert IsHexDigit(s[0]) && IsHexDigit(s[1]);
      var b := DigitValue(s[0]) * 16 + DigitValue(s[1]);
      assert b / 16 == DigitValue(s[0]) && b % 16 == DigitValue(s[1]);
      assert ([b] + rest)[1..] == rest;
      assert s == [s[0], s[1]] + s[2..];
    }
  }

  /* ---------- the serialization ---------- */

  predicate EntryOk(e: Entry, idBytes: nat) {
    ModeOk(e.mode) && NameOk(e.name) && NUL !in e.name && IsHex(e.id) && |e.id| == 2 * idBytes
  }

  function Record(mode: seq<byte>, name: seq<byte>, raw: seq<byte>): seq<byte> {
    mode + [SPACE] + name + [NUL] + raw
  }

  function EntryBytes(e: Entry): seq<byte> {
    Record(e.mode, e.name, Unhex(e.id))
  }

  predicate AllOk(es: seq<Entry>, idBytes: nat) {
    forall e | e in es :: EntryOk(e, idBytes)
  }

  predicate Named(es: seq<Entry>, name: seq<byte>) {
    exists e | e in es :: e.name == name
  }

  predicate UniqueNames(es: seq<Entry>) {
    forall i, j | 0 <= i < j < |es| :: es[i].name != es[j].name
  }

  ghost predicate ValidTree(es: seq<Entry>, idBytes: nat) {
    AllOk(es, idBytes) && UniqueNames(es) && |es| <= MAX_ENTRIES
  }

  function Records(es: seq<Entry>): seq<seq<byte>> {
    seq(|es|, i requires 0 <= i < |es| => EntryBytes(es[i]))
  }

  function Concat(parts: seq<seq<byte>>): seq<byte> {
    if parts == [] then [] else parts[0] + Concat(parts[1..])
  }

  function Serialize(es: seq<Entry>): seq<byte> {
    Concat(Records(es))
  }

  /* ---------- the parser ---------- */

  /** `payload.find(b, start)`. */
  function Find(payload: seq<byte>, b: byte, start: nat): (i: int)
    ensures i == -1 || start <= i < |payload|
    ensures i == -1 ==> forall k | start <= k < |payload| :: payload[k] != b
    ensures i != -1 ==> payload[i] == b && forall k | start <= k < i :: payload[k] != b
    decreases |payload| - start
  {
    if start >= |payload| then -1 else if payload[start] == b then start else Find(payload, b, start + 1)
  }

  /** Where the space, the NUL and the end of the entry at the cursor are. */
  function Spans(payload: seq<byte>, cursor: nat, idBytes: nat): (r: Option<(nat, nat, nat)>)
    ensures r.Some? ==> cursor < r.value.0 && r.value.0 + 1 < r.value.1 && r.value.1 + 1 + idBytes == r.value.2 <= |payload|
    ensures r.Some? ==> payload[r.value.0] == SPACE && payload[r.value.1] == NUL && NUL !in payload[r.value.0 + 1..r.value.1]
  {
    var space := Find(payload, SPACE, cursor);
    var nul := if space >= 0 then Find(payload, NUL, space + 1) else -1;
    var end := nul + 1 + idBytes;
    if space <= cursor || nul <= space + 1 || end > |payload| then None else Some((space, nul, end))
  }

  function Decode(mode: seq<byte>, name: seq<byte>, raw: seq<byte>): Option<Entry> {
    if ModeOk(mode) && NameOk(name) then Some(Entry(name, mode, Hex(raw))) else None
  }

  /** The entry that starts at the cursor, and where it ends. */
  function EntryAt(payload: seq<byte>, cursor: nat, idBytes: nat): (r: Option<(Entry, nat)>)
    ensures r.Some? ==> cursor < r.value.1 <= |payload|
  {
    var spans := Spans(payload, cursor, idBytes);
    if spans.None? then None
    else
      var (space, nul, end) := spans.value;
      var e := Decode(payload[cursor..space], payload[space + 1..nul], payload[nul + 1..end]);
      if e.None? then None else Some((e.value, end))
  }

  function Parse(payload: seq<byte>, cursor: nat, entries: seq<Entry>, idBytes: nat): Option<seq<Entry>>
    decreases |payload| - cursor
  {
    if cursor >= |payload| then Some(entries)
    else if |entries| >= MAX_ENTRIES then None
    else
      var next := EntryAt(payload, cursor, idBytes);
      if next.None? || Named(entries, next.value.0.name) then None
      else Parse(payload, next.value.1, entries + [next.value.0], idBytes)
  }

  method TreeEntries(payload: seq<byte>, idBytes: nat) returns (r: Option<seq<Entry>>)
    ensures r == Parse(payload, 0, [], idBytes)
  {
    var entries: seq<Entry> := [];
    var cursor := 0;
    while cursor < |payload|
      invariant Parse(payload, cursor, entries, idBytes) == Parse(payload, 0, [], idBytes)
      decreases |payload| - cursor
    {
      var next := EntryAt(payload, cursor, idBytes);
      if next.None? || |entries| >= MAX_ENTRIES { return None; }
      var (entry, objectEnd) := next.value;
      if Named(entries, entry.name) { return None; }
      entries := entries + [entry];
      cursor := objectEnd;
    }
    return Some(entries);
  }

  /* ---------- parsing is exact ---------- */

  lemma FiveParts(payload: seq<byte>, start: nat, space: nat, nul: nat, end: nat)
    requires start <= space < nul < end <= |payload| && payload[space] == SPACE && payload[nul] == NUL
    ensures payload[start..end] == Record(payload[start..space], payload[space + 1..nul], payload[nul + 1..end])
  {
  }

  lemma DecodedIsOk(mode: seq<byte>, name: seq<byte>, raw: seq<byte>)
    requires NUL !in name && Decode(mode, name, raw).Some?
    ensures var e := Decode(mode, name, raw).value; EntryOk(e, |raw|) && EntryBytes(e) == Record(mode, name, raw)
  {
    HexInverse(raw);
  }

  lemma FoundEntryIsOk(payload: seq<byte>, cursor: nat, idBytes: nat)
    requires EntryAt(payload, cursor, idBytes).Some?
    ensures var (e, end) := EntryAt(payload, cursor, idBytes).value;
            EntryOk(e, idBytes) && payload[cursor..end] == EntryBytes(e)
  {
    var (space, nul, end) := Spans(payload, cursor, idBytes).value;
    DecodedIsOk(payload[cursor..space], payload[space + 1..nul], payload[nul + 1..end]);
    FiveParts(payload, cursor, space, nul, end);
  }

  lemma ModesHaveNoSpace(mode: seq<byte>)
    requires ModeOk(mode)
    ensures |mode| > 0 && SPACE !in mode
  {
  }

  lemma FindIs(payload: seq<byte>, b: byte, start: nat, part: seq<byte>)
    requires start + |part| < |payload| && payload[start..start + |part|] == part && b !in part && payload[start + |part|] == b
    ensures Find(payload, b, start) == start + |part|
  {
    forall k | start <= k < start + |part| ensures payload[k] != b {
      assert payload[k] == payload[start..start + |part|][k - start] == part[k - start];
    }
  }

  lemma Parts(before: seq<byte>, mode: seq<byte>, name: seq<byte>, raw: seq<byte>, after: seq<byte>)
    ensures var payload := before + Record(mode, name, raw) + after;
            var space := |before| + |mode|;
            var nul := space + 1 + |name|;
            && |payload| == nul + 1 + |raw| + |after|
            && payload[|before|..space] == mode && payload[space] == SPACE
            && payload[space + 1..nul] == name && payload[nul] == NUL && payload[nul + 1..nul + 1 + |raw|] == raw
  {
  }

  lemma FindsParts(payload: seq<byte>, cursor: nat, mode: seq<byte>, name: seq<byte>, idBytes: nat)
    requires mode != [] && SPACE !in mode && name != [] && NUL !in name
    requires var space := cursor + |mode|; var nul := space + 1 + |name|;
             && nul + 1 + idBytes <= |payload| && payload[cursor..space] == mode && payload[space] == SPACE
             && payload[space + 1..nul] == name && payload[nul] == NUL
    ensures Spans(payload, cursor, idBytes) == Some((cursor + |mode|, cursor + |mode| + 1 + |name|, cursor + |mode| + |name| + 2 + idBytes))
  {
    FindIs(payload, SPACE, cursor, mode);
    FindIs(payload, NUL, cursor + |mode| + 1, name);
  }

  lemma DecodesBack(e: Entry, idBytes: nat)
    requires EntryOk(e, idBytes)
    ensures Decode(e.mode, e.name, Unhex(e.id)) == Some(e) && |Unhex(e.id)| == idBytes
    ensures |EntryBytes(e)| == |e.mode| + |e.name| + 2 + idBytes
  {
    UnhexInverse(e.id);
  }

  lemma WrittenPartsAreFound(before: seq<byte>, mode: seq<byte>, name: seq<byte>, raw: seq<byte>, after: seq<byte>)
    requires mode != [] && SPACE !in mode && name != [] && NUL !in name
    ensures var e := Decode(mode, name, raw);
            EntryAt(before + Record(mode, name, raw) + after, |before|, |raw|)
            == if e.None? then None else Some((e.value, |before| + |Record(mode, name, raw)|))
  {
    var payload := before + Record(mode, name, raw) + after;
    Parts(before, mode, name, raw, after);
    FindsParts(payload, |before|, mode, name, |raw|);
    SpansAreDecoded(payload, |before|, mode, name, raw);
  }

  lemma SpansAreDecoded(payload: seq<byte>, cursor: nat, mode: seq<byte>, name: seq<byte>, raw: seq<byte>)
    requires var space := cursor + |mode|; var nul := space + 1 + |name|; var end := nul + 1 + |raw|;
             && Spans(payload, cursor, |raw|) == Some((space, nul, end)) && end <= |payload|
             && payload[cursor..space] == mode && payload[space + 1..nul] == name && payload[nul + 1..end] == raw
    ensures var e := Decode(mode, name, raw);
            EntryAt(payload, cursor, |raw|) == if e.None? then None else Some((e.value, cursor + |mode| + |name| + |raw| + 2))
  {
  }

  /** An entry written at the cursor is found there. */
  lemma WrittenEntryIsFound(before: seq<byte>, e: Entry, after: seq<byte>, idBytes: nat)
    requires EntryOk(e, idBytes)
    ensures EntryAt(before + EntryBytes(e) + after, |before|, idBytes) == Some((e, |before| + |EntryBytes(e)|))
  {
    ModesHaveNoSpace(e.mode);
    DecodesBack(e, idBytes);
    WrittenPartsAreFound(before, e.mode, e.name, Unhex(e.id), after);
  }

  lemma Associates(a: seq<byte>, b: seq<byte>, c: seq<byte>)
    ensures a + (b + c) == a + b + c
  {
  }

  lemma {:induction false} ConcatAppend(a: seq<seq<byte>>, b: seq<seq<byte>>)
    ensures Concat(a + b) == Concat(a) + Concat(b)
  {
    if a == [] {
      assert a + b == b;
    } else {
      ConcatAppend(a[1..], b);
      assert (a + b)[0] == a[0] && (a + b)[1..] == a[1..] + b;
      Associates(a[0], Concat(a[1..]), Concat(b));
    }
  }

  lemma SerializeOneMore(es: seq<Entry>, e: Entry)
    ensures Serialize(es + [e]) == Serialize(es) + EntryBytes(e)
  {
    var bytes := EntryBytes(e);
    assert Records(es + [e]) == Records(es) + [bytes];
    ConcatAppend(Records(es), [bytes]);
    assert Concat([bytes]) == bytes + Concat([]) == bytes;
  }

  lemma SerializeFirst(es: seq<Entry>)
    requires es != []
    ensures Serialize(es) == EntryBytes(es[0]) + Serialize(es[1..])
  {
    assert Records(es)[1..] == Records(es[1..]);
  }

  lemma ExtendValid(entries: seq<Entry>, e: Entry, idBytes: nat)
    requires ValidTree(entries, idBytes) && EntryOk(e, idBytes) && !Named(entries, e.name) && |entries| < MAX_ENTRIES
    ensures ValidTree(entries + [e], idBytes)
  {
  }

  /** Whatever is parsed writes back to the payload. */
  lemma {:induction false} ParsedWritesBack(payload: seq<byte>, cursor: nat, entries: seq<Entry>, idBytes: nat)
    requires cursor <= |payload| && ValidTree(entries, idBytes) && Serialize(entries) == payload[..cursor]
    ensures var r := Parse(payload, cursor, entries, idBytes);
            r.Some? ==> ValidTree(r.value, idBytes) && Serialize(r.value) == payload
    decreases |payload| - cursor
  {
    if cursor < |payload| {
      var next := EntryAt(payload, cursor, idBytes);
      if |entries| < MAX_ENTRIES && next.Some? && !Named(entries, next.value.0.name) {
        var (e, end) := next.value;
        FoundEntryIsOk(payload, cursor, idBytes);
        ExtendValid(entries, e, idBytes);
        SerializeOneMore(entries, e);
        assert payload[..end] == payload[..cursor] + payload[cursor..end];
        ParsedWritesBack(payload, end, entries + [e], idBytes);
      }
    }
    assert payload[..|payload|] == payload;
  }

  /** The rest of a valid list is parsed where its serialization starts. */
  lemma {:induction false} WrittenIsParsed(payload: seq<byte>, done: seq<Entry>, rest: seq<Entry>, idBytes: nat)
    requires ValidTree(done + rest, idBytes) && payload == Serialize(done) + Serialize(rest)
    ensures Parse(payload, |Serialize(done)|, done, idBytes) == Some(done + rest)
    decreases |rest|
  {
    if rest == [] {
      assert done + rest == done && Serialize(rest) == [];
    } else {
      var more := done + [rest[0]];
      WrittenIsNext(payload, done, rest, idBytes);
      WrittenIsParsed(payload, more, rest[1..], idBytes);
    }
  }

  lemma WrittenIsNext(payload: seq<byte>, done: seq<Entry>, rest: seq<Entry>, idBytes: nat)
    requires ValidTree(done + rest, idBytes) && payload == Serialize(done) + Serialize(rest) && rest != []
    ensures var more := done + [rest[0]];
            && Parse(payload, |Serialize(done)|, done, idBytes) == Parse(payload, |Serialize(more)|, more, idBytes)
            && payload == Serialize(more) + Serialize(rest[1..]) && more + rest[1..] == done + rest
  {
    Shift(done, rest);
    NextIsFound(payload, done, rest, idBytes);
    NotNamedBefore(done, rest, idBytes);
    ParseStep(payload, |Serialize(done)|, done, idBytes);
  }

  lemma Shift(done: seq<Entry>, rest: seq<Entry>)
    requires rest != []
    ensures done + [rest[0]] + rest[1..] == done + rest
  {
  }

  lemma ParseStep(payload: seq<byte>, cursor: nat, entries: seq<Entry>, idBytes: nat)
    requires EntryAt(payload, cursor, idBytes).Some? && |entries| < MAX_ENTRIES
    requires !Named(entries, EntryAt(payload, cursor, idBytes).value.0.name)
    ensures var (e, end) := EntryAt(payload, cursor, idBytes).value;
            Parse(payload, cursor, entries, idBytes) == Parse(payload, end, entries + [e], idBytes)
  {
  }

  lemma NextIsFound(payload: seq<byte>, done: seq<Entry>, rest: seq<Entry>, idBytes: nat)
    requires ValidTree(done + rest, idBytes) && payload == Serialize(done) + Serialize(rest) && rest != []
    ensures EntryAt(payload, |Serialize(done)|, idBytes) == Some((rest[0], |Serialize(done + [rest[0]])|))
    ensures payload == Serialize(done + [rest[0]]) + Serialize(rest[1..])
  {
    var before, bytes, after := Serialize(done), EntryBytes(rest[0]), Serialize(rest[1..]);
    assert (done + rest)[|done|] == rest[0] && rest[0] in done + rest;
    SerializeFirst(rest);
    SerializeOneMore(done, rest[0]);
    assert payload == before + bytes + after;
    WrittenEntryIsFound(before, rest[0], after, idBytes);
  }

  lemma NotNamedBefore(done: seq<Entry>, rest: seq<Entry>, idBytes: nat)
    requires ValidTree(done + rest, idBytes) && rest != []
    ensures !Named(done, rest[0].name) && |done| < MAX_ENTRIES
  {
    var all := done + rest;
    forall d | d in done ensures d.name != rest[0].name {
      var i :| 0 <= i < |done| && done[i] == d;
      assert all[i] == d && all[|done|] == rest[0];
    }
  }

  /** The bytes of a text. */
  function Ascii(text: string): seq<byte> {
    seq(|text|, i requires 0 <= i < |text| => (text[i] as int % 256) as byte)
  }

  /** An entry as Git writes it: one of the five modes, a name that is no path and no dot name, and an ID of that many bytes. */
  ghost predicate GitEntry(e: Entry, idBytes: nat) {
    && e.mode in {Ascii("40000"), Ascii("100644"), Ascii("100755"), Ascii("120000"), Ascii("160000")}
    && |e.name| > 0 && e.name != Ascii(".") && e.name != Ascii("..") && (forall k :: 0 <= k < |e.name| ==> e.name[k] != 0 && e.name[k] as int != '/' as int)
    && |e.id| == 2 * idBytes && forall k :: 0 <= k < |e.id| ==> '0' <= e.id[k] <= '9' || 'a' <= e.id[k] <= 'f'
  }

  ghost predicate GitList(es: seq<Entry>, idBytes: nat) {
    && |es| <= 50_000 && (forall k :: 0 <= k < |es| ==> GitEntry(es[k], idBytes))
    && forall j, k :: 0 <= j < k < |es| ==> es[j].name != es[k].name
  }

  lemma GitModes()
    ensures TREE == Ascii("40000") && REGULAR == Ascii("100644") && EXECUTABLE == Ascii("100755")
    ensures SYMLINK == Ascii("120000") && SUBMODULE == Ascii("160000") && [DOT] == Ascii(".") && [DOT, DOT] == Ascii("..")
  {
  }

  lemma GitEntriesAreOk(e: Entry, idBytes: nat)
    ensures EntryOk(e, idBytes) <==> GitEntry(e, idBytes)
  {
    GitModes();
    assert forall k :: 0 <= k < |e.name| ==> e.name[k] in e.name;
    assert forall k :: 0 <= k < |e.id| ==> e.id[k] in e.id;
  }

  lemma GitListsAreValid(es: seq<Entry>, idBytes: nat)
    ensures ValidTree(es, idBytes) <==> GitList(es, idBytes)
  {
    forall k | 0 <= k < |es| ensures EntryOk(es[k], idBytes) <==> GitEntry(es[k], idBytes) {
      GitEntriesAreOk(es[k], idBytes);
    }
    assert AllOk(es, idBytes) <==> forall k :: 0 <= k < |es| ==> EntryOk(es[k], idBytes) by {
      assert forall k :: 0 <= k < |es| ==> es[k] in es;
    }
  }

  /** A payload parses to a list exactly when Git could have written that list and it serializes to the payload. */
  lemma ParsingIsExact(payload: seq<byte>, es: seq<Entry>, idBytes: nat)
    ensures Parse(payload, 0, [], idBytes) == Some(es) <==> GitList(es, idBytes) && Serialize(es) == payload
  {
    ValidListsParse(payload, es, idBytes);
    GitListsAreValid(es, idBytes);
  }

  /** An entry is written as mode, space, name, NUL and the raw ID. */
  lemma EntryIsWritten(e: Entry, raw: seq<byte>)
    requires e.id == Hex(raw)
    ensures EntryBytes(e) == e.mode + Ascii(" ") + e.name + [0] + raw
  {
    HexInverse(raw);
  }

  lemma ValidListsParse(payload: seq<byte>, es: seq<Entry>, idBytes: nat)
    ensures Parse(payload, 0, [], idBytes) == Some(es) <==> ValidTree(es, idBytes) && Serialize(es) == payload
  {
    ParsedWritesBack(payload, 0, [], idBytes);
    if ValidTree(es, idBytes) && Serialize(es) == payload {
      assert [] + es == es && Serialize([]) + Serialize(es) == payload;
      WrittenIsParsed(payload, [], es, idBytes);
    }
  }

  /* ---------- walking to a file ---------- */

  /** The verified objects of a repository; absent means unreadable or not matching its ID. */
  datatype Objects = Objects(trees: map<string, seq<byte>>, blobs: map<string, seq<byte>>)

  datatype File = File(mode: seq<byte>, id: string, content: seq<byte>)

  function Lookup(es: seq<Entry>, name: seq<byte>): (r: Option<Entry>)
    ensures r.None? ==> forall e :: e in es ==> e.name != name
    ensures r.Some? ==> r.value in es && r.value.name == name
  {
    if es == [] then None else if es[0].name == name then Some(es[0]) else Lookup(es[1..], name)
  }

  /** The entry of a readable tree under a name. */
  function EntryOf(objects: Objects, tree: string, name: seq<byte>): Option<Entry> {
    if tree !in objects.trees then None
    else
      var es := Parse(objects.trees[tree], 0, [], |tree| / 2);
      if es.None? then None else Lookup(es.value, name)
  }

  function FileOf(objects: Objects, e: Entry): Option<File> {
    if (e.mode == REGULAR || e.mode == EXECUTABLE) && e.id in objects.blobs then Some(File(e.mode, e.id, objects.blobs[e.id])) else None
  }

  function Resolve(objects: Objects, tree: string, parts: seq<seq<byte>>): Option<File>
    decreases |parts|
  {
    if parts == [] then None
    else
      var e := EntryOf(objects, tree, parts[0]);
      if e.None? then None
      else if |parts| == 1 then FileOf(objects, e.value)
      else if e.value.mode != TREE then None
      else Resolve(objects, e.value.id, parts[1..])
  }

  method BlobAtPath(objects: Objects, root: string, parts: seq<seq<byte>>) returns (r: Option<File>)
    ensures r == Resolve(objects, root, parts)
  {
    var tree := root;
    for index := 0 to |parts|
      invariant Resolve(objects, tree, parts[index..]) == Resolve(objects, root, parts)
    {
      if tree !in objects.trees { return None; }
      var entries := TreeEntries(objects.trees[tree], |tree| / 2);
      if entries.None? { return None; }
      var selected := Lookup(entries.value, parts[index]);
      if selected.None? { return None; }
      var e := selected.value;
      assert parts[index..][0] == parts[index] && parts[index..][1..] == parts[index + 1..];
      if index == |parts| - 1 {
        if e.mode != REGULAR && e.mode != EXECUTABLE { return None; }
        if e.id !in objects.blobs { return None; }
        return Some(File(e.mode, e.id, objects.blobs[e.id]));
      }
      if e.mode != TREE { return None; }
      tree := e.id;
    }
    return None;
  }

  /** Each tree on the way is the serialization of a valid list that holds the next component. */
  ghost predicate Leads(objects: Objects, tree: string, parts: seq<seq<byte>>, file: File)
    decreases |parts|
  {
    && parts != [] && tree in objects.trees
    && exists es: seq<Entry>, e: Entry ::
         && GitList(es, |tree| / 2) && Serialize(es) == objects.trees[tree] && e in es && e.name == parts[0]
         && if |parts| == 1 then IsFile(objects, e, file) else e.mode == Ascii("40000") && Leads(objects, e.id, parts[1..], file)
  }

  /** The entry is the regular or executable file. */
  ghost predicate IsFile(objects: Objects, e: Entry, file: File) {
    (e.mode == Ascii("100644") || e.mode == Ascii("100755")) && e.id in objects.blobs && file == File(e.mode, e.id, objects.blobs[e.id])
  }

  lemma EntryIsTheOne(objects: Objects, tree: string, name: seq<byte>, es: seq<Entry>, e: Entry)
    requires tree in objects.trees && GitList(es, |tree| / 2) && Serialize(es) == objects.trees[tree] && e in es && e.name == name
    ensures EntryOf(objects, tree, name) == Some(e)
  {
    ParsingIsExact(objects.trees[tree], es, |tree| / 2);
    var other := Lookup(es, name).value;
    var i :| 0 <= i < |es| && es[i] == e;
    var j :| 0 <= j < |es| && es[j] == other;
    assert i == j;
  }

  lemma {:induction false} WalkLeads(objects: Objects, tree: string, parts: seq<seq<byte>>, file: File)
    requires Resolve(objects, tree, parts) == Some(file)
    ensures Leads(objects, tree, parts, file)
    decreases |parts|
  {
    GitModes();
    var e := EntryOf(objects, tree, parts[0]).value;
    var es := Parse(objects.trees[tree], 0, [], |tree| / 2).value;
    ParsingIsExact(objects.trees[tree], es, |tree| / 2);
    if |parts| > 1 {
      WalkLeads(objects, e.id, parts[1..], file);
    }
    assert GitList(es, |tree| / 2) && Serialize(es) == objects.trees[tree] && e in es && e.name == parts[0];
  }

  lemma {:induction false} LedThere(objects: Objects, tree: string, parts: seq<seq<byte>>, file: File)
    requires Leads(objects, tree, parts, file)
    ensures Resolve(objects, tree, parts) == Some(file)
    decreases |parts|
  {
    GitModes();
    var es: seq<Entry>, e: Entry :| GitList(es, |tree| / 2) && Serialize(es) == objects.trees[tree] && e in es && e.name == parts[0]
                 && if |parts| == 1 then IsFile(objects, e, file) else e.mode == Ascii("40000") && Leads(objects, e.id, parts[1..], file);
    EntryIsTheOne(objects, tree, parts[0], es, e);
    if |parts| > 1 {
      LedThere(objects, e.id, parts[1..], file);
    }
  }

  /** The walk returns a file exactly when the path leads there through valid trees, down to a regular file. */
  lemma WalkIsExact(objects: Objects, tree: string, parts: seq<seq<byte>>, file: File)
    ensures Resolve(objects, tree, parts) == Some(file) <==> Leads(objects, tree, parts, file)
  {
    if Resolve(objects, tree, parts) == Some(file) {
      WalkLeads(objects, tree, parts, file);
    }
    if Leads(objects, tree, parts, file) {
      LedThere(objects, tree, parts, file);
    }
  }
}
