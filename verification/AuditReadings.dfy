/** How far the checkpoint of an audit log determines its events: exactly which accepted logs can be read in
    another way, and why two logs written by `record` never can. */
module AuditReadings {
  import opened Prelude
  import opened AuditChain

  /* ---------- exactly when the accepted log is the only one ---------- */

  /** As hexadecimal digests are. */
  ghost predicate BarlessDigest(digest: string -> string) {
    forall text :: NoBar(digest(text))
  }

  /** No recorded field holds the separator. */
  predicate BarFree(row: Row) {
    NoBar(row.timestamp) && NoBar(row.runId) && NoBar(row.planId) && NoBar(ActionText(row.actionId)) && NoBar(row.eventType) && NoBar(row.payload)
  }

  /** Another accepted log with different events and the same checkpoint, without any collision. */
  ghost predicate Twin(digest: string -> string, a: Log, b: Log) {
    && Accepted(digest, b) && b.checkpoint == a.checkpoint && |b.rows| == |a.rows| && !SameRows(a.rows, b.rows)
    && forall i :: 0 <= i < |a.rows| ==> !Collision(digest, a.rows[i], b.rows[i])
  }

  lemma {:induction false} JoinAppend(a: seq<string>, b: seq<string>)
    requires a != [] && b != []
    ensures Join(a + b) == Join(a) + "|" + Join(b)
  {
    assert (a + b)[0] == a[0] && (a + b)[1..] == a[1..] + b;
    if |a| > 1 {
      JoinAppend(a[1..], b);
    } else {
      assert a[1..] + b == b;
    }
  }

  function Bars(text: string): nat {
    if text == "" then 0 else (if text[0] == '|' then 1 else 0) + Bars(text[1..])
  }

  function AllBars(parts: seq<string>): nat {
    if parts == [] then 0 else Bars(parts[0]) + AllBars(parts[1..])
  }

  lemma {:induction false} BarsConcat(a: string, b: string)
    ensures Bars(a + b) == Bars(a) + Bars(b)
  {
    if a == "" {
      assert a + b == b;
    } else {
      BarsConcat(a[1..], b);
      assert (a + b)[0] == a[0] && (a + b)[1..] == a[1..] + b;
    }
  }

  lemma {:induction false} BarsCount(text: string)
    ensures Bars(text) == 0 <==> NoBar(text)
  {
    if text != "" {
      BarsCount(text[1..]);
      assert text == [text[0]] + text[1..];
    }
  }

  /** The bars of the joined text are those of the parts and one between each two. */
  lemma {:induction false} BarsOfJoin(parts: seq<string>)
    requires parts != []
    ensures Bars(Join(parts)) == |parts| - 1 + AllBars(parts)
  {
    if |parts| == 1 {
      assert AllBars(parts[1..]) == 0;
    } else {
      BarsOfJoin(parts[1..]);
      BarsConcat(parts[0] + "|", Join(parts[1..]));
      BarsConcat(parts[0], "|");
      assert Bars("|") == 1 + Bars("|"[1..]);
    }
  }

  lemma {:induction false} AllBarsCount(parts: seq<string>)
    ensures AllBars(parts) == 0 <==> forall p :: p in parts ==> NoBar(p)
  {
    if parts != [] {
      BarsCount(parts[0]);
      AllBarsCount(parts[1..]);
      assert parts == [parts[0]] + parts[1..];
    }
  }

  /** Counting bars: if no part of `a` holds one, equally many parts with the same joined text are the same parts. */
  lemma BarFreeDecides(a: seq<string>, b: seq<string>)
    requires |a| == |b| && a != [] && Join(a) == Join(b) && forall p :: p in a ==> NoBar(p)
    ensures a == b
  {
    BarsOfJoin(a);
    BarsOfJoin(b);
    AllBarsCount(a);
    AllBarsCount(b);
    var n := |a| - 1;
    JoinSplits(a, b, n);
    assert a == a[..n] + [a[n]] && b == b[..n] + [b[n]] && a[n..] == [a[n]] && b[n..] == [b[n]];
  }

  lemma TipHasNoBar(digest: string -> string, rows: seq<Row>)
    requires BarlessDigest(digest) && Chained(digest, rows)
    ensures NoBar(Tip(rows))
  {
    if rows != [] {
      assert Hashed(digest, rows[|rows| - 1]);
    }
  }

  lemma PartsHaveNoBar(digest: string -> string, rows: seq<Row>, i: nat)
    requires BarlessDigest(digest) && Chained(digest, rows) && i < |rows| && BarFree(rows[i])
    ensures forall p :: p in Parts(rows[i]) ==> NoBar(p)
  {
    PrefixChained(digest, rows, i);
    TipHasNoBar(digest, rows[..i]);
    assert Linked(rows, i);
  }

  lemma WithoutBarsNoTwin(digest: string -> string, a: Log, b: Log)
    requires BarlessDigest(digest) && Accepted(digest, a) && forall i :: 0 <= i < |a.rows| ==> BarFree(a.rows[i])
    ensures !Twin(digest, a, b)
  {
    if Accepted(digest, b) && b.checkpoint == a.checkpoint && forall i :: 0 <= i < |a.rows| ==> !Collision(digest, a.rows[i], b.rows[i]) {
      forall i | 0 <= i < |a.rows| ensures Decided(a.rows[i], b.rows[i]) {
        if Material(a.rows[i]) == Material(b.rows[i]) {
          PartsHaveNoBar(digest, a.rows, i);
          BarFreeDecides(Parts(a.rows[i]), Parts(b.rows[i]));
          SameParts(a.rows[i], b.rows[i]);
        }
      }
      SameTipSameChain(digest, a.rows, b.rows);
    }
  }

  /** The text before and after the first bar. */
  function Cut(text: string): (r: (string, string))
    requires !NoBar(text)
    ensures r.0 + "|" + r.1 == text
  {
    if text[0] == '|' then assert text == "|" + text[1..]; ("", text[1..])
    else
      assert text == [text[0]] + text[1..];
      var (x, y) := Cut(text[1..]);
      ([text[0]] + x, y)
  }

  /** Another reading of the row's material: one bar inside a field becomes the end of that field, or, in the
      payload, the separator moves to it. */
  function Resplit(row: Row): Row {
    if !NoBar(row.timestamp) then var (x, y) := Cut(row.timestamp); row.(timestamp := x, runId := y + "|" + row.runId)
    else if !NoBar(row.runId) then var (x, y) := Cut(row.runId); row.(runId := x, planId := y + "|" + row.planId)
    else if !NoBar(row.planId) then var (x, y) := Cut(row.planId); row.(planId := x, actionId := Some(y + "|" + ActionText(row.actionId)))
    else if !NoBar(ActionText(row.actionId)) then
      var (x, y) := Cut(ActionText(row.actionId)); row.(actionId := Some(x), eventType := y + "|" + row.eventType)
    else if !NoBar(row.eventType) then var (x, y) := Cut(row.eventType); row.(eventType := x, payload := y + "|" + row.payload)
    else if !NoBar(row.payload) then var (x, y) := Cut(row.payload); row.(eventType := row.eventType + "|" + x, payload := y)
    else row
  }

  lemma JoinReplace(before: seq<string>, x: string, y: string, z: string, after: seq<string>)
    ensures Join(before + [x + "|" + y, z] + after) == Join(before + [x, y + "|" + z] + after)
  {
    var p, q := [x + "|" + y, z], [x, y + "|" + z];
    assert Join(p) == x + "|" + y + "|" + z == Join(q) by {
      assert p[1..] == [z] && q[1..] == [y + "|" + z];
    }
    if after != [] {
      JoinAppend(p, after);
      JoinAppend(q, after);
    } else {
      assert p + after == p && q + after == q;
    }
    if before != [] {
      JoinAppend(before, p + after);
      JoinAppend(before, q + after);
      assert before + p + after == before + (p + after) && before + q + after == before + (q + after);
    } else {
      assert before + p + after == p + after && before + q + after == q + after;
    }
  }

  lemma ResplitKeepsMaterial(row: Row)
    ensures Material(Resplit(row)) == Material(row)
    ensures Resplit(row).previousHash == row.previousHash && Resplit(row).eventHash == row.eventHash
  {
    var p, q := Parts(row), Parts(Resplit(row));
    if !NoBar(row.timestamp) {
      var (x, y) := Cut(row.timestamp);
      JoinReplace(p[..1], x, y, row.runId, p[3..]);
      assert p == p[..1] + [x + "|" + y, row.runId] + p[3..] && q == p[..1] + [x, y + "|" + row.runId] + p[3..];
    } else if !NoBar(row.runId) {
      var (x, y) := Cut(row.runId);
      JoinReplace(p[..2], x, y, row.planId, p[4..]);
      assert p == p[..2] + [x + "|" + y, row.planId] + p[4..] && q == p[..2] + [x, y + "|" + row.planId] + p[4..];
    } else if !NoBar(row.planId) {
      var (x, y) := Cut(row.planId);
      JoinReplace(p[..3], x, y, p[4], p[5..]);
      assert p == p[..3] + [x + "|" + y, p[4]] + p[5..] && q == p[..3] + [x, y + "|" + p[4]] + p[5..];
    } else {
      ResplitLateKeepsMaterial(row);
    }
  }

  lemma ResplitLateKeepsMaterial(row: Row)
    requires NoBar(row.timestamp) && NoBar(row.runId) && NoBar(row.planId)
    ensures Material(Resplit(row)) == Material(row)
  {
    var p, q := Parts(row), Parts(Resplit(row));
    if !NoBar(ActionText(row.actionId)) {
      var (x, y) := Cut(ActionText(row.actionId));
      JoinReplace(p[..4], x, y, row.eventType, p[6..]);
      assert p == p[..4] + [x + "|" + y, row.eventType] + p[6..] && q == p[..4] + [x, y + "|" + row.eventType] + p[6..];
    } else if !NoBar(row.eventType) {
      var (x, y) := Cut(row.eventType);
      JoinReplace(p[..5], x, y, row.payload, []);
      assert p == p[..5] + [x + "|" + y, row.payload] + [] && q == p[..5] + [x, y + "|" + row.payload] + [];
    } else if !NoBar(row.payload) {
      var (x, y) := Cut(row.payload);
      JoinReplace(p[..5], row.eventType, x, y, []);
      assert p == p[..5] + [row.eventType, x + "|" + y] + [] && q == p[..5] + [row.eventType + "|" + x, y] + [];
    }
  }

  lemma ResplitDiffers(row: Row)
    requires !BarFree(row)
    ensures !SameRow(row, Resplit(row))
  {
    var other := Resplit(row);
    assert |other.timestamp| != |row.timestamp| || |other.runId| != |row.runId| || |other.planId| != |row.planId|
           || |ActionText(other.actionId)| != |ActionText(row.actionId)| || |other.eventType| != |row.eventType|;
  }

  lemma ReplacedTip(rows: seq<Row>, i: nat, other: Row, k: nat)
    requires i < |rows| && k <= |rows| && other.eventHash == rows[i].eventHash
    ensures Tip(rows[i := other][..k]) == Tip(rows[..k])
  {
    if k > 0 {
      assert rows[i := other][..k][k - 1] == rows[i := other][k - 1] && rows[..k][k - 1] == rows[k - 1];
    }
  }

  lemma ReplacedRowIsChained(digest: string -> string, rows: seq<Row>, i: nat, other: Row)
    requires Chained(digest, rows) && i < |rows|
    requires other.previousHash == rows[i].previousHash && other.eventHash == rows[i].eventHash && Material(other) == Material(rows[i])
    ensures Chained(digest, rows[i := other]) && Tip(rows[i := other]) == Tip(rows)
  {
    var changed := rows[i := other];
    forall k | 0 <= k < |rows| ensures Linked(changed, k) && Hashed(digest, changed[k]) {
      assert Linked(rows, k) && Hashed(digest, rows[k]);
      ReplacedTip(rows, i, other, k);
    }
    ReplacedTip(rows, i, other, |rows|);
    assert rows[..|rows|] == rows && rows[i := other][..|rows|] == rows[i := other];
  }

  /** Every accepted log with a separator inside some field, the payload included, has a twin under every
      digest: the same hashes with one event read differently. */
  lemma SeparatorsMakeEventsAmbiguous(digest: string -> string, a: Log, i: nat)
    requires Accepted(digest, a) && i < |a.rows| && !BarFree(a.rows[i])
    ensures Twin(digest, a, Log(a.rows[i := Resplit(a.rows[i])], a.checkpoint))
  {
    var other := Resplit(a.rows[i]);
    ResplitKeepsMaterial(a.rows[i]);
    ResplitDiffers(a.rows[i]);
    ReplacedRowIsChained(digest, a.rows, i, other);
    assert !SameRow(a.rows[i], a.rows[i := other][i]);
  }

  /** An accepted log is the only one with its checkpoint, collisions apart, exactly when no field of any of its
      events holds the separator. */
  lemma UniqueExactlyWithoutBars(digest: string -> string, a: Log)
    requires BarlessDigest(digest) && Accepted(digest, a)
    ensures (forall b :: !Twin(digest, a, b)) <==> (forall i :: 0 <= i < |a.rows| ==> BarFree(a.rows[i]))
  {
    if forall i :: 0 <= i < |a.rows| ==> BarFree(a.rows[i]) {
      forall b ensures !Twin(digest, a, b) {
        WithoutBarsNoTwin(digest, a, b);
      }
    } else {
      var i: nat :| i < |a.rows| && !BarFree(a.rows[i]);
      SeparatorsMakeEventsAmbiguous(digest, a, i);
    }
  }

  /** Such a log is easily recorded: any event with a bar in some field will do. */
  lemma BarsCanBeRecorded(digest: string -> string, log: Log, event: Event)
    requires InStep(digest, log) && !BarFree(NewRow(digest, event, log.checkpoint.value.head))
    ensures var r := Recorded(digest, log, event); r.Ok? && Accepted(digest, r.value) && exists b :: Twin(digest, r.value, b)
  {
    RecordStaysInStep(digest, log, event);
    var a := Recorded(digest, log, event).value;
    assert a.rows[|log.rows|] == NewRow(digest, event, log.checkpoint.value.head);
    SeparatorsMakeEventsAmbiguous(digest, a, |log.rows|);
  }

  /* ---------- logs that `record` wrote ---------- */

  /** Where a reader of JSON is: outside strings, in one, after a backslash in one, or past an error. */
  datatype Place = Outside | Inside | Escaped | Bad

  function Advance(place: Place, c: char): Place {
    match place
    case Outside => if c == '"' then Inside else if c == '\\' || c == '|' then Bad else Outside
    case Inside => if c == '"' then Outside else if c == '\\' then Escaped else Inside
    case Escaped => if c in "\"\\/bfnrtu" then Inside else Bad
    case Bad => Bad
  }

  function Scan(place: Place, text: string): Place
    decreases |text|
  {
    if text == "" then place else Scan(Advance(place, text[0]), text[1..])
  }

  /** Strings are closed, and bars and backslashes occur only in strings: true of every JSON text (RFC 8259, section 7). */
  predicate JsonShaped(text: string) {
    Scan(Outside, text) == Outside
  }

  lemma {:induction false} ScanConcat(place: Place, a: string, b: string)
    ensures Scan(place, a + b) == Scan(Scan(place, a), b)
    decreases |a|
  {
    if a == "" {
      assert a + b == b;
    } else {
      ScanConcat(Advance(place, a[0]), a[1..], b);
      assert (a + b)[0] == a[0] && (a + b)[1..] == a[1..] + b;
    }
  }

  lemma {:induction false} BadStays(text: string)
    ensures Scan(Bad, text) == Bad
  {
    if text != "" {
      BadStays(text[1..]);
    }
  }

  /** Read from outside and from inside a string, one text cannot end outside both times: either reading flips at
      every quote, and a backslash spoils one of them. */
  lemma {:induction false} NotBothReadings(text: string)
    ensures !(Scan(Outside, text) == Outside && Scan(Inside, text) == Outside)
    ensures !(Scan(Outside, text) == Inside && Scan(Inside, text) == Inside)
  {
    if text != "" {
      BadStays(text[1..]);
      NotBothReadings(text[1..]);
    }
  }

  /** No character that means anything to `Scan` outside a string. */
  predicate Harmless(text: string) {
    forall i | 0 <= i < |text| :: text[i] != '"' && text[i] != '\\' && text[i] != '|'
  }

  /** A number, `true`, `false` or `null`. */
  type Scalar = text: string | Harmless(text) witness ""

  /** A payload as `json.dumps` walks it: mapping fields in their sorted order. */
  datatype Payload = Atom(scalar: Scalar) | Word(text: string) | Items(items: seq<Payload>) | Fields(fields: seq<Field>)

  datatype Field = Field(name: string, value: Payload)

  function HexDigit(n: nat): char
    requires n < 16
  {
    if n < 10 then (n + 48) as char else (n + 87) as char
  }

  /** How `json.dumps` writes one character when it keeps non-ASCII text. */
  function DumpChar(c: char): string {
    if c == '"' || c == '\\' then ['\\', c]
    else if c == '\n' then "\\n" else if c == '\r' then "\\r" else if c == '\t' then "\\t"
    else if c == '\U{08}' then "\\b" else if c == '\U{0c}' then "\\f"
    else if c < ' ' then "\\u00" + [HexDigit(c as int / 16), HexDigit(c as int % 16)]
    else [c]
  }

  function DumpChars(text: string): string {
    if text == "" then "" else DumpChar(text[0]) + DumpChars(text[1..])
  }

  function DumpText(text: string): string {
    "\"" + DumpChars(text) + "\""
  }

  function Dump(v: Payload): string {
    match v
    case Atom(scalar) => scalar
    case Word(text) => DumpText(text)
    case Items(items) => "[" + DumpItems(items) + "]"
    case Fields(fields) => "{" + DumpFields(fields) + "}"
  }

  function DumpItems(items: seq<Payload>): string {
    if items == [] then "" else if |items| == 1 then Dump(items[0]) else Dump(items[0]) + "," + DumpItems(items[1..])
  }

  function DumpFields(fields: seq<Field>): string {
    if fields == [] then "" else if |fields| == 1 then DumpField(fields[0]) else DumpField(fields[0]) + "," + DumpFields(fields[1..])
  }

  function DumpField(f: Field): string {
    DumpText(f.name) + ":" + Dump(f.value)
  }

  lemma {:induction false} PlainStaysOutside(text: string)
    requires Harmless(text)
    ensures Scan(Outside, text) == Outside
  {
    if text != "" {
      PlainStaysOutside(text[1..]);
    }
  }

  lemma ShapedConcat(a: string, b: string)
    requires JsonShaped(a) && JsonShaped(b)
    ensures JsonShaped(a + b)
  {
    ScanConcat(Outside, a, b);
  }

  lemma ScanTwo(place: Place, x: char, y: char)
    ensures Scan(place, [x, y]) == Advance(Advance(place, x), y)
    ensures Scan(place, [x]) == Advance(place, x)
  {
    assert [x, y][1..] == [y] && [y][1..] == "" && [x][1..] == "";
    assert Scan(Advance(place, x), [y]) == Scan(Advance(Advance(place, x), y), "");
    assert Scan(place, [x]) == Scan(Advance(place, x), "");
  }

  lemma CharStaysInside(c: char)
    ensures Scan(Inside, DumpChar(c)) == Inside
  {
    var text := DumpChar(c);
    if |text| == 1 {
      ScanTwo(Inside, text[0], text[0]);
      assert text == [text[0]];
    } else if |text| == 2 {
      ScanTwo(Inside, text[0], text[1]);
      assert text == [text[0], text[1]];
    } else {
      var high, low := HexDigit(c as int / 16), HexDigit(c as int % 16);
      assert text == ['\\', 'u'] + (['0', '0'] + [high, low]);
      ScanTwo(Inside, '\\', 'u');
      ScanTwo(Inside, '0', '0');
      ScanTwo(Inside, high, low);
      ScanConcat(Inside, ['0', '0'], [high, low]);
      ScanConcat(Inside, ['\\', 'u'], ['0', '0'] + [high, low]);
    }
  }

  lemma {:induction false} CharsStayInside(text: string)
    ensures Scan(Inside, DumpChars(text)) == Inside
  {
    if text != "" {
      CharStaysInside(text[0]);
      CharsStayInside(text[1..]);
      ScanConcat(Inside, DumpChar(text[0]), DumpChars(text[1..]));
    }
  }

  lemma TextIsShaped(text: string)
    ensures JsonShaped(DumpText(text))
  {
    CharsStayInside(text);
    ScanTwo(Outside, '"', '"');
    ScanTwo(Inside, '"', '"');
    ScanConcat(Outside, "\"", DumpChars(text));
    ScanConcat(Outside, "\"" + DumpChars(text), "\"");
  }

  lemma Wrapped(open: string, text: string, close: string)
    requires JsonShaped(text)
    requires Harmless(open) && Harmless(close)
    ensures JsonShaped(open + text + close)
  {
    PlainStaysOutside(open);
    PlainStaysOutside(close);
    ShapedConcat(open, text);
    ShapedConcat(open + text, close);
  }

  /** Every dumped payload is JSON-shaped, whatever its texts hold. */
  lemma {:induction false} DumpIsShaped(v: Payload)
    ensures JsonShaped(Dump(v))
    decreases v
  {
    match v
    case Atom(scalar) => PlainStaysOutside(scalar);
    case Word(text) => TextIsShaped(text);
    case Items(items) =>
      ItemsAreShaped(items);
      Wrapped("[", DumpItems(items), "]");
    case Fields(fields) =>
      FieldsAreShaped(fields);
      Wrapped("{", DumpFields(fields), "}");
  }

  lemma {:induction false} ItemsAreShaped(items: seq<Payload>)
    ensures JsonShaped(DumpItems(items))
    decreases items
  {
    if items != [] {
      DumpIsShaped(items[0]);
      ItemsAreShaped(items[1..]);
      Wrapped("", Dump(items[0]), ",");
      assert "" + Dump(items[0]) + "," == Dump(items[0]) + ",";
      ShapedConcat(Dump(items[0]) + ",", DumpItems(items[1..]));
    }
  }

  lemma {:induction false} FieldsAreShaped(fields: seq<Field>)
    ensures JsonShaped(DumpFields(fields))
    decreases fields
  {
    if fields != [] {
      FieldIsShaped(fields[0]);
      FieldsAreShaped(fields[1..]);
      Wrapped("", DumpField(fields[0]), ",");
      assert "" + DumpField(fields[0]) + "," == DumpField(fields[0]) + ",";
      ShapedConcat(DumpField(fields[0]) + ",", DumpFields(fields[1..]));
    }
  }

  lemma {:induction false} FieldIsShaped(f: Field)
    ensures JsonShaped(DumpField(f))
    decreases f
  {
    TextIsShaped(f.name);
    DumpIsShaped(f.value);
    Wrapped("", DumpText(f.name), ":");
    assert "" + DumpText(f.name) + ":" == DumpText(f.name) + ":";
    ShapedConcat(DumpText(f.name) + ":", Dump(f.value));
  }

  /** A JSON text is not what follows a bar in another one. */
  lemma NoJsonAfterBar(before: string, text: string)
    requires JsonShaped(text)
    ensures !JsonShaped(before + "|" + text)
  {
    ScanConcat(Outside, before + "|", text);
    ScanConcat(Outside, before, "|");
    var place := Scan(Outside, before);
    assert Scan(place, "|") == Advance(place, '|') by {
      assert "|"[1..] == "";
    }
    BadStays(text);
    NotBothReadings(text);
  }

  /** What `record` writes: time, run, plan and action are formatted values without bars, the payload is JSON;
      the event type is any text. */
  predicate Recordable(row: Row) {
    NoBar(row.timestamp) && NoBar(row.runId) && NoBar(row.planId) && NoBar(ActionText(row.actionId)) && JsonShaped(row.payload)
  }

  lemma TypeAndPayload(type1: string, payload1: string, type2: string, payload2: string)
    requires JsonShaped(payload1) && JsonShaped(payload2) && type1 + "|" + payload1 == type2 + "|" + payload2 && |type1| <= |type2|
    ensures type1 == type2 && payload1 == payload2
  {
    var text := type1 + "|" + payload1;
    if |type1| < |type2| {
      var x := type2[|type1| + 1..];
      assert payload1 == text[|type1| + 1..];
      assert payload1 == x + "|" + payload2 by {
        assert text == type2 + "|" + payload2 && text[|type1| + 1..] == type2[|type1| + 1..] + "|" + payload2;
      }
      NoJsonAfterBar(x, payload2);
    } else {
      assert type1 == text[..|type1|] && type2 == text[..|type2|];
      assert payload1 == text[|type1| + 1..] && payload2 == text[|type2| + 1..];
    }
  }

  lemma RecordableDecides(a: Row, b: Row)
    requires NoBar(a.previousHash) && NoBar(b.previousHash) && Recordable(a) && Recordable(b) && Material(a) == Material(b)
    ensures SameRow(a.(eventHash := b.eventHash), b)
  {
    var p, q := Parts(a), Parts(b);
    JoinSplits(p, q, 5);
    assert p[5..] == [a.eventType, a.payload] && q[5..] == [b.eventType, b.payload];
    assert Join([a.eventType, a.payload]) == a.eventType + "|" + a.payload by { assert [a.eventType, a.payload][1..] == [a.payload]; }
    assert Join([b.eventType, b.payload]) == b.eventType + "|" + b.payload by { assert [b.eventType, b.payload][1..] == [b.payload]; }
    if |a.eventType| <= |b.eventType| {
      TypeAndPayload(a.eventType, a.payload, b.eventType, b.payload);
    } else {
      TypeAndPayload(b.eventType, b.payload, a.eventType, a.payload);
    }
    assert p == p[..5] + p[5..] && q == q[..5] + q[5..];
    SameParts(a, b);
  }

  /** Between logs that `record` wrote the checkpoint decides, whatever bars event types and payloads hold: they
      hold the same events, or at some index a collision. */
  lemma RecordedChainsAreDetermined(digest: string -> string, a: Log, b: Log)
    requires BarlessDigest(digest) && Accepted(digest, a) && Accepted(digest, b) && a.checkpoint == b.checkpoint
    requires forall i :: 0 <= i < |a.rows| ==> Recordable(a.rows[i])
    requires forall i :: 0 <= i < |b.rows| ==> Recordable(b.rows[i])
    ensures |a.rows| == |b.rows|
    ensures || SameRows(a.rows, b.rows)
            || (exists i :: 0 <= i < |a.rows| && Collision(digest, a.rows[i], b.rows[i]))
  {
    if forall i :: 0 <= i < |a.rows| ==> !Collision(digest, a.rows[i], b.rows[i]) {
      forall i | 0 <= i < |a.rows| ensures Decided(a.rows[i], b.rows[i]) {
        if Material(a.rows[i]) == Material(b.rows[i]) {
          PreviousHasNoBar(digest, a.rows, i);
          PreviousHasNoBar(digest, b.rows, i);
          RecordableDecides(a.rows[i], b.rows[i]);
        }
      }
      SameTipSameChain(digest, a.rows, b.rows);
    }
  }

  lemma PreviousHasNoBar(digest: string -> string, rows: seq<Row>, i: nat)
    requires BarlessDigest(digest) && Chained(digest, rows) && i < |rows|
    ensures NoBar(rows[i].previousHash)
  {
    PrefixChained(digest, rows, i);
    TipHasNoBar(digest, rows[..i]);
    assert Linked(rows, i);
  }

  /** An event as callers of `record` give it. */
  ghost predicate Written(e: Event) {
    NoBar(e.timestamp) && NoBar(e.runId) && NoBar(e.planId) && NoBar(ActionText(e.actionId)) && exists v :: e.payload == Dump(v)
  }

  lemma HeldEventsAreRecordable(rows: seq<Row>, events: seq<Event>)
    requires HoldAll(rows, 0, events) && forall e :: e in events ==> Written(e)
    ensures forall i :: 0 <= i < |rows| ==> Recordable(rows[i])
  {
    forall i | 0 <= i < |rows| ensures Recordable(rows[i]) {
      assert Holds(rows[0 + i], events[i]) && Written(events[i]);
      var v :| events[i].payload == Dump(v);
      DumpIsShaped(v);
    }
  }

  /** Two runs of `record` from new databases that end at one checkpoint recorded the same events, or at some
      index two events with one hash. */
  lemma RunsWithOneCheckpoint(digest: string -> string, x: seq<Event>, y: seq<Event>)
    requires BarlessDigest(digest) && x != [] && y != []
    requires (forall e :: e in x ==> Written(e)) && (forall e :: e in y ==> Written(e))
    ensures var start := Log([], Some(Checkpoint(0, GENESIS)));
            var a, b := RecordAll(digest, start, x), RecordAll(digest, start, y);
            a.Ok? && b.Ok? &&
            (a.value.checkpoint == b.value.checkpoint ==>
               |a.value.rows| == |b.value.rows|
               && (SameRows(a.value.rows, b.value.rows)
                   || exists i :: 0 <= i < |a.value.rows| && Collision(digest, a.value.rows[i], b.value.rows[i])))
  {
    var start := Log([], Some(Checkpoint(0, GENESIS)));
    RecordedLogsAreAccepted(digest, x);
    RecordedLogsAreAccepted(digest, y);
    var a, b := RecordAll(digest, start, x).value, RecordAll(digest, start, y).value;
    HeldEventsAreRecordable(a.rows, x);
    HeldEventsAreRecordable(b.rows, y);
    if a.checkpoint == b.checkpoint {
      RecordedChainsAreDetermined(digest, a, b);
    }
  }
}
