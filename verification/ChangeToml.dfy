/** Writing change.toml and reading it back. */
module ChangeToml {
  import opened Prelude
  import opened Specifications

  const DEL := '\U{7f}'
  const SCHEMA := "master-agent/change@1"
  const MAX_DELTAS := 128

  /* ---------- escaping ---------- */

  /** `s.replace(c, with)` for one character. */
  function Replace(s: string, c: char, with: string): string {
    if s == [] then [] else (if s[0] == c then with else [s[0]]) + Replace(s[1..], c, with)
  }

  /** `_toml_escape`: two replacements, one after the other. */
  function TomlEscape(s: string): string {
    Replace(Replace(s, '\\', "\\\\"), '"', "\\\"")
  }

  /** One pass that puts a backslash before each backslash and quote. */
  function Escape(s: string): string {
    if s == [] then [] else (if s[0] == '\\' || s[0] == '"' then ['\\', s[0]] else [s[0]]) + Escape(s[1..])
  }

  lemma Associates(a: string, b: string, c: string)
    ensures a + (b + c) == a + b + c
  {
  }

  lemma {:induction false} ReplaceConcat(a: string, b: string, c: char, with: string)
    ensures Replace(a + b, c, with) == Replace(a, c, with) + Replace(b, c, with)
  {
    if a == [] {
      assert a + b == b;
    } else {
      ReplaceConcat(a[1..], b, c, with);
      assert (a + b)[0] == a[0] && (a + b)[1..] == a[1..] + b;
      Associates(if a[0] == c then with else [a[0]], Replace(a[1..], c, with), Replace(b, c, with));
    }
  }

  lemma {:induction false} EscapeIsOnePass(s: string)
    ensures TomlEscape(s) == Escape(s)
  {
    if s != [] {
      var first := if s[0] == '\\' then "\\\\" else [s[0]];
      ReplaceConcat(first, Replace(s[1..], '\\', "\\\\"), '"', "\\\"");
      EscapeIsOnePass(s[1..]);
      if s[0] == '\\' {
        assert first[1..] == "\\" && first[1..][1..] == [];
      } else {
        assert first[1..] == [];
      }
    }
  }

  /** A character a TOML basic string may hold as itself. */
  predicate Literal(c: char) {
    (c >= ' ' || c == '\t') && c != DEL
  }

  predicate Quotable(s: string) {
    forall c | c in s :: Literal(c)
  }

  /** The rest of a basic string after its opening quote, section "String" of TOML v1.0.0; the \u and \U
      escapes are not read. */
  function ReadString(s: string): (r: Option<(string, string)>)
    ensures r.Some? ==> |r.value.1| < |s|
  {
    if s == [] then None
    else if s[0] == '"' then Some(("", s[1..]))
    else if s[0] == '\\' then
      if |s| < 2 then None
      else match Unescape(s[1])
           case None => None
           case Some(c) => Cons(c, ReadString(s[2..]))
    else if !Literal(s[0]) then None
    else Cons(s[0], ReadString(s[1..]))
  }

  function Cons(c: char, read: Option<(string, string)>): Option<(string, string)> {
    if read.None? then None else Some(([c] + read.value.0, read.value.1))
  }

  function Unescape(c: char): Option<char> {
    match c
    case '"' => Some('"')
    case '\\' => Some('\\')
    case 'b' => Some('\U{08}')
    case 't' => Some('\t')
    case 'n' => Some('\n')
    case 'f' => Some('\U{0c}')
    case 'r' => Some('\r')
    case _ => None
  }

  lemma ReadsOne(c: char, tail: string)
    ensures c == '\\' || c == '"' ==> ReadString(['\\', c] + tail) == Cons(c, ReadString(tail))
    ensures c != '\\' && c != '"' ==> ReadString([c] + tail) == if Literal(c) then Cons(c, ReadString(tail)) else None
  {
    assert (['\\', c] + tail)[2..] == tail && ([c] + tail)[1..] == tail;
  }

  /** An escaped string reads back as itself, and one with a character TOML does not allow does not read at all. */
  lemma {:induction false} EscapedReadsBack(s: string, rest: string)
    ensures ReadString(Escape(s) + "\"" + rest) == if Quotable(s) then Some((s, rest)) else None
  {
    if s == [] {
      assert Escape(s) + "\"" + rest == "\"" + rest;
    } else {
      EscapedReadsBack(s[1..], rest);
      assert s == [s[0]] + s[1..];
      var tail := Escape(s[1..]) + "\"" + rest;
      ReadsOne(s[0], tail);
      assert Escape(s) + "\"" + rest == (if s[0] == '\\' || s[0] == '"' then ['\\', s[0]] else [s[0]]) + tail;
    }
  }

  /** Quotes, backslashes and control characters are absent: the pattern of an ID and the shape of a date say so. */
  predicate Plain(s: string) {
    forall c | c in s :: Literal(c) && c != '"' && c != '\\'
  }

  lemma {:induction false} PlainNeedsNoEscape(s: string)
    requires Plain(s)
    ensures Escape(s) == s && Quotable(s)
  {
    if s != [] {
      assert s == [s[0]] + s[1..] && s[0] in s;
      PlainNeedsNoEscape(s[1..]);
    }
  }

  /* ---------- numbers ---------- */

  function Decimal(n: nat): (s: string)
    ensures |s| > 0
  {
    if n < 10 then [(n + 48) as char] else Decimal(n / 10) + [(n % 10 + 48) as char]
  }

  predicate Digit(c: char) { '0' <= c <= '9' }

  function ReadDigits(s: string, value: nat): (r: (nat, string))
    ensures |r.1| <= |s|
    decreases |s|
  {
    if s == [] || !Digit(s[0]) then (value, s) else ReadDigits(s[1..], value * 10 + (s[0] as int - 48))
  }

  lemma {:induction false} DecimalReadsBack(n: nat, rest: string)
    ensures ReadDigits(Decimal(n) + rest, 0) == ReadDigits(rest, n)
    ensures Digit(Decimal(n)[0]) && (n > 0 ==> Decimal(n)[0] != '0')
  {
    var last := (n % 10 + 48) as char;
    if n < 10 {
      assert ([last] + rest)[1..] == rest;
    } else {
      DecimalReadsBack(n / 10, [last] + rest);
      assert Decimal(n) + rest == Decimal(n / 10) + ([last] + rest);
      assert ([last] + rest)[1..] == rest;
    }
  }

  /* ---------- statements ---------- */

  datatype Key = Schema | Id | Title | Status | GithubIssue | Created | Updated | DesignRequired | Deltas
               | OperationKey | RequirementId | Destination | Source

  datatype Value = Str(s: string) | Int(n: nat) | Flag(b: bool)

  datatype Statement = EmptyLine | TableHeader | Pair(key: Key, value: Value)

  function KeyText(k: Key): string {
    match k
    case Schema => "schema" case Id => "id" case Title => "title" case Status => "status"
    case GithubIssue => "github_issue" case Created => "created" case Updated => "updated"
    case DesignRequired => "design_required" case Deltas => "deltas" case OperationKey => "operation"
    case RequirementId => "requirement_id" case Destination => "destination" case Source => "source"
  }

  const KEYS := [Schema, Id, Title, Status, GithubIssue, Created, Updated, DesignRequired, Deltas, OperationKey, RequirementId, Destination, Source]

  /** The key with this text among the first `n`; other keys are "unsupported metadata fields". */
  function KeyOf(text: string, n: nat): Option<Key>
    requires n <= |KEYS|
  {
    if n == 0 then None else if KeyText(KEYS[n - 1]) == text then Some(KEYS[n - 1]) else KeyOf(text, n - 1)
  }

  function ValueText(v: Value): string {
    match v
    case Str(s) => "\"" + TomlEscape(s) + "\""
    case Int(n) => Decimal(n)
    case Flag(b) => if b then "true" else "false"
  }

  function StatementText(st: Statement): string {
    match st
    case EmptyLine => ""
    case TableHeader => "[[deltas]]"
    case Pair(k, v) => Line(k, ValueText(v))
  }

  predicate Bare(c: char) { 'a' <= c <= 'z' || c == '_' }

  function BareLength(s: string): (n: nat)
    ensures n <= |s|
  {
    if s == [] || !Bare(s[0]) then 0 else 1 + BareLength(s[1..])
  }

  function ReadValue(s: string): (r: Option<(Value, string)>)
    ensures r.Some? ==> |r.value.1| <= |s|
  {
    if s == [] then None
    else if s[0] == '"' then
      var read := ReadString(s[1..]);
      if read.None? then None else Some((Str(read.value.0), read.value.1))
    else if Digit(s[0]) then
      var (n, rest) := ReadDigits(s, 0);
      if s[0] == '0' && |s| - |rest| > 1 then None else Some((Int(n), rest))
    else if "true" <= s then Some((Flag(true), s[4..]))
    else if "false" <= s then Some((Flag(false), s[5..]))
    else None
  }

  function ReadPair(s: string): (r: Option<(Statement, string)>)
    ensures r.Some? ==> |r.value.1| < |s|
  {
    var n := BareLength(s);
    var key := KeyOf(s[..n], |KEYS|);
    if key.None? || !(" = " <= s[n..]) then None else EndPair(key.value, ReadValue(s[n..][3..]))
  }

  /** A value must be followed by the end of the line. */
  function EndPair(k: Key, value: Option<(Value, string)>): (r: Option<(Statement, string)>)
    ensures r.Some? ==> value.Some? && |r.value.1| < |value.value.1|
  {
    if value.None? || value.value.1 == [] || value.value.1[0] != '\n' then None
    else Some((Pair(k, value.value.0), value.value.1[1..]))
  }

  /** One statement and the text after its line end. */
  function ReadStatement(s: string): (r: Option<(Statement, string)>)
    ensures r.Some? ==> |r.value.1| < |s|
  {
    if s == [] then None
    else if s[0] == '\n' then Some((EmptyLine, s[1..]))
    else if "[[deltas]]\n" <= s then Some((TableHeader, s[11..]))
    else ReadPair(s)
  }

  lemma KeyTexts(k: Key)
    ensures forall i | 0 <= i < |KeyText(k)| :: Bare(KeyText(k)[i])
    ensures |KeyText(k)| > 0
  {
    match k
    case Schema => case Id => case Title => case Status => case GithubIssue => case Created => case Updated =>
    case DesignRequired => case Deltas => case OperationKey => case RequirementId => case Destination => case Source =>
  }

  lemma KeyTextsDiffer(a: Key, b: Key)
    requires KeyText(a) == KeyText(b)
    ensures a == b
  {
    if |KeyText(a)| == |KeyText(b)| {
      assert KeyText(a)[0] == KeyText(b)[0];
      assert KeyText(a)[1] == KeyText(b)[1];
    }
  }

  lemma {:induction false} KeyIsFound(k: Key, n: nat)
    requires n <= |KEYS| && k in KEYS[..n]
    ensures KeyOf(KeyText(k), n) == Some(k)
  {
    assert KEYS[..n] == KEYS[..n - 1] + [KEYS[n - 1]];
    if KeyText(KEYS[n - 1]) == KeyText(k) {
      KeyTextsDiffer(KEYS[n - 1], k);
    } else {
      KeyIsFound(k, n - 1);
    }
  }

  lemma {:induction false} BareStops(key: string, rest: string)
    requires (forall i | 0 <= i < |key| :: Bare(key[i])) && (rest == [] || !Bare(rest[0]))
    ensures BareLength(key + rest) == |key|
  {
    if key == [] {
      assert key + rest == rest;
    } else {
      assert (key + rest)[1..] == key[1..] + rest;
      BareStops(key[1..], rest);
    }
  }

  predicate Readable(st: Statement) {
    st.Pair? && st.value.Str? ==> Quotable(st.value.s)
  }

  lemma StringReadsBack(s: string, rest: string)
    ensures ReadValue("\"" + TomlEscape(s) + "\"" + rest) == if Quotable(s) then Some((Str(s), rest)) else None
  {
    EscapeIsOnePass(s);
    EscapedReadsBack(s, rest);
    assert ("\"" + TomlEscape(s) + "\"" + rest)[1..] == Escape(s) + "\"" + rest;
  }

  lemma NumberReadsBack(n: nat, rest: string)
    requires rest != [] && !Digit(rest[0])
    ensures ReadValue(Decimal(n) + rest) == Some((Int(n), rest))
  {
    DecimalReadsBack(n, rest);
    assert n == 0 ==> |Decimal(n)| == 1;
  }

  lemma FlagReadsBack(b: bool, rest: string)
    ensures ReadValue(ValueText(Flag(b)) + rest) == Some((Flag(b), rest))
  {
    assert (ValueText(Flag(b)) + rest)[|ValueText(Flag(b))|..] == rest;
  }

  lemma ValueReadsBack(v: Value, rest: string)
    requires rest != [] && !Digit(rest[0])
    ensures ReadValue(ValueText(v) + rest) == if v.Str? && !Quotable(v.s) then None else Some((v, rest))
  {
    match v
    case Str(s) => StringReadsBack(s, rest);
    case Int(n) => NumberReadsBack(n, rest);
    case Flag(b) => FlagReadsBack(b, rest);
  }

  /** A key is read up to the blank after it. */
  lemma KeyReadsBack(k: Key, tail: string)
    requires tail != [] && !Bare(tail[0])
    ensures var text := KeyText(k) + tail; var n := BareLength(text);
            KeyOf(text[..n], |KEYS|) == Some(k) && text[n..] == tail
    ensures KeyText(k) + tail != [] && (KeyText(k) + tail)[0] != '\n' && (KeyText(k) + tail)[0] != '['
  {
    KeyTexts(k);
    BareStops(KeyText(k), tail);
    assert KEYS[..|KEYS|] == KEYS;
    KeyIsFound(k, |KEYS|);
    assert (KeyText(k) + tail)[..|KeyText(k)|] == KeyText(k) && (KeyText(k) + tail)[|KeyText(k)|..] == tail;
    assert Bare(KeyText(k)[0]);
  }

  lemma Regroup(key: string, value: string, rest: string)
    ensures key + " = " + value + "\n" + rest == key + (" = " + (value + ("\n" + rest)))
  {
  }

  lemma PairReadsBack(k: Key, v: Value, rest: string)
    ensures ReadStatement(StatementText(Pair(k, v)) + "\n" + rest) == if Readable(Pair(k, v)) then Some((Pair(k, v), rest)) else None
  {
    var text := ValueText(v);
    var end := "\n" + rest;
    ValueReadsBack(v, end);
    PairIsRead(k, text + end);
    Regroup(KeyText(k), text, rest);
    assert end[1..] == rest;
  }

  lemma PairIsRead(k: Key, value: string)
    ensures ReadStatement(KeyText(k) + (" = " + value)) == EndPair(k, ReadValue(value))
  {
    KeyReadsBack(k, " = " + value);
    assert (" = " + value)[..3] == " = " && (" = " + value)[3..] == value;
  }

  lemma StatementReadsBack(st: Statement, rest: string)
    ensures ReadStatement(StatementText(st) + "\n" + rest) == if Readable(st) then Some((st, rest)) else None
  {
    var text := StatementText(st) + "\n" + rest;
    match st
    case EmptyLine => assert text[1..] == rest;
    case TableHeader => assert text[..11] == "[[deltas]]\n" && text[11..] == rest;
    case Pair(k, v) => PairReadsBack(k, v, rest);
  }

  /* ---------- documents ---------- */

  datatype Toml = Toml(top: map<Key, Value>, tables: seq<map<Key, Value>>)

  /** The table that pairs now go to. */
  function Current(d: Toml): map<Key, Value> {
    if d.tables == [] then d.top else d.tables[|d.tables| - 1]
  }

  function WithCurrent(d: Toml, t: map<Key, Value>): Toml {
    if d.tables == [] then d.(top := t) else d.(tables := d.tables[|d.tables| - 1 := t])
  }

  /** Keys must not repeat within a table. */
  function Feed(d: Toml, st: Statement): Option<Toml> {
    match st
    case EmptyLine => Some(d)
    case TableHeader => if Deltas in d.top then None else Some(d.(tables := d.tables + [map[]]))
    case Pair(k, v) => if k in Current(d) then None else Some(WithCurrent(d, Current(d)[k := v]))
  }

  function FeedAll(d: Toml, sts: seq<Statement>): Option<Toml>
    decreases |sts|
  {
    if sts == [] then Some(d)
    else
      var next := Feed(d, sts[0]);
      if next.None? then None else FeedAll(next.value, sts[1..])
  }

  function ReadDocument(s: string, d: Toml): Option<Toml>
    decreases |s|
  {
    if s == [] then Some(d)
    else
      var read := ReadStatement(s);
      if read.None? then None
      else
        var next := Feed(d, read.value.0);
        if next.None? then None else ReadDocument(read.value.1, next.value)
  }

  function Lines(sts: seq<Statement>): string {
    if sts == [] then "" else StatementText(sts[0]) + "\n" + Lines(sts[1..])
  }

  lemma {:induction false} LinesReadBack(sts: seq<Statement>, d: Toml)
    ensures ReadDocument(Lines(sts), d) == if forall st :: st in sts ==> Readable(st) then FeedAll(d, sts) else None
    decreases |sts|
  {
    if sts != [] {
      StatementReadsBack(sts[0], Lines(sts[1..]));
      assert sts == [sts[0]] + sts[1..];
      if Readable(sts[0]) && Feed(d, sts[0]).Some? {
        LinesReadBack(sts[1..], Feed(d, sts[0]).value);
      }
    }
  }

  /* ---------- the renderer ---------- */

  function StageName(stage: Stage): string {
    match stage
    case Draft => "draft" case Proposed => "proposed" case Accepted => "accepted" case Implementing => "implementing"
    case Verifying => "verifying" case Archived => "archived" case Rejected => "rejected" case Superseded => "superseded"
  }

  function OperationName(operation: Operation): string {
    match operation
    case Add => "add" case Modify => "modify" case Remove => "remove"
  }

  function Quoted(s: string): string { "\"" + s + "\"" }

  function Line(k: Key, text: string): string { KeyText(k) + " = " + text }

  /** Fields as keys with the text of their values. */
  function FieldLines(fields: seq<(Key, string)>): seq<string> {
    seq(|fields|, i requires 0 <= i < |fields| => Line(fields[i].0, fields[i].1))
  }

  function HeaderFields(m: Metadata, status: string): seq<(Key, string)> {
    [ (Schema, Quoted(m.schema)), (Id, Quoted(m.id)), (Title, Quoted(TomlEscape(m.title))), (Status, Quoted(status)),
      (GithubIssue, Decimal(m.issue)), (Created, Quoted(m.created)), (Updated, Quoted(m.updated)),
      (DesignRequired, if m.designRequired then "true" else "false") ]
  }

  function DeltaFields(d: Delta): seq<(Key, string)> {
    [ (OperationKey, Quoted(OperationName(d.operation))), (RequirementId, Quoted(d.requirement)), (Destination, Quoted(TomlEscape(d.destination))) ]
    + if d.source.Some? then [(Source, Quoted(TomlEscape(d.source.value)))] else []
  }

  function DeltaLines(d: Delta): seq<string> {
    ["", "[[deltas]]"] + FieldLines(DeltaFields(d))
  }

  function AllDeltaLines(deltas: seq<Delta>): seq<string> {
    if deltas == [] then [] else DeltaLines(deltas[0]) + AllDeltaLines(deltas[1..])
  }

  function Join(lines: seq<string>): string {
    if lines == [] then "" else if |lines| == 1 then lines[0] else lines[0] + "\n" + Join(lines[1..])
  }

  function Render(m: Metadata): string {
    Join(FieldLines(HeaderFields(m, StageName(m.stage))) + AllDeltaLines(m.deltas)) + "\n"
  }

  /* ---------- the loader ---------- */

  function StageOf(text: string): Option<Stage> {
    if text == "draft" then Some(Draft) else if text == "proposed" then Some(Proposed) else if text == "accepted" then Some(Accepted)
    else if text == "implementing" then Some(Implementing) else if text == "verifying" then Some(Verifying)
    else if text == "archived" then Some(Archived) else if text == "rejected" then Some(Rejected)
    else if text == "superseded" then Some(Superseded) else None
  }

  function OperationOf(text: string): Option<Operation> {
    if text == "add" then Some(Add) else if text == "modify" then Some(Modify) else if text == "remove" then Some(Remove) else None
  }

  /** `_required_string` accepts the value. */
  predicate SafeText(s: string) {
    !Blank(s) && |s| <= 512 && forall c | c in s :: c >= ' '
  }

  function RequiredString(t: map<Key, Value>, k: Key): Option<string> {
    if k in t && t[k].Str? && SafeText(t[k].s) then Some(t[k].s) else None
  }

  function LoadSource(t: map<Key, Value>, operation: Operation): Option<Option<string>> {
    if operation == Remove then if Source in t then None else Some(None)
    else if Source in t && t[Source].Str? && !Blank(t[Source].s) then Some(Some(t[Source].s))
    else None
  }

  function LoadDelta(t: map<Key, Value>): Option<Delta> {
    var operation := RequiredString(t, OperationKey);
    var requirement := RequiredString(t, RequirementId);
    var destination := RequiredString(t, Destination);
    if !(t.Keys <= {OperationKey, RequirementId, Destination, Source}) || operation.None? || requirement.None? || destination.None? then None
    else if OperationOf(operation.value).None? then None
    else
      var source := LoadSource(t, OperationOf(operation.value).value);
      if source.None? then None else Some(Delta(OperationOf(operation.value).value, requirement.value, destination.value, source.value))
  }

  function LoadDeltas(ts: seq<map<Key, Value>>): Option<seq<Delta>> {
    if ts == [] then Some([])
    else
      var first, others := LoadDelta(ts[0]), LoadDeltas(ts[1..]);
      if first.None? || others.None? then None else Some([first.value] + others.value)
  }

  /** `rules` stands for the loader's patterns, dates and relations between fields. */
  function Load(d: Toml, rules: Metadata -> bool): Option<Metadata> {
    var t := d.top;
    var schema, id, title := RequiredString(t, Schema), RequiredString(t, Id), RequiredString(t, Title);
    var status, created, updated := RequiredString(t, Status), RequiredString(t, Created), RequiredString(t, Updated);
    var deltas := LoadDeltas(d.tables);
    if !(t.Keys <= {Schema, Id, Title, Status, GithubIssue, Created, Updated, DesignRequired}) then None
    else if schema != Some(SCHEMA) || id.None? || title.None? || status.None? || created.None? || updated.None? then None
    else if |title.value| > 200 || StageOf(status.value).None? then None
    else if !(GithubIssue in t && t[GithubIssue].Int? && t[GithubIssue].n >= 1) then None
    else if !(DesignRequired in t && t[DesignRequired].Flag?) || deltas.None? || !(1 <= |deltas.value| <= MAX_DELTAS) then None
    else
      var m := Metadata(SCHEMA, id.value, title.value, StageOf(status.value).value, t[GithubIssue].n, created.value, updated.value,
                        t[DesignRequired].b, deltas.value);
      if rules(m) then Some(m) else None
  }

  function Read(text: string, rules: Metadata -> bool): Option<Metadata> {
    var d := ReadDocument(text, Toml(map[], []));
    if d.None? then None else Load(d.value, rules)
  }

  /* ---------- round trip ---------- */

  predicate DeltaLoadable(d: Delta) {
    && SafeText(d.requirement) && Plain(d.requirement) && SafeText(d.destination)
    && (d.source.None? <==> d.operation == Remove) && (d.source.Some? ==> !Blank(d.source.value))
  }

  /** What the loader guarantees of any metadata it returns; its patterns leave nothing to escape in IDs and dates. */
  predicate Loadable(m: Metadata, rules: Metadata -> bool) {
    && m.schema == SCHEMA && SafeText(m.id) && Plain(m.id) && SafeText(m.title) && |m.title| <= 200 && m.issue >= 1
    && SafeText(m.created) && Plain(m.created) && SafeText(m.updated) && Plain(m.updated)
    && 1 <= |m.deltas| <= MAX_DELTAS && (forall d | d in m.deltas :: DeltaLoadable(d)) && rules(m)
  }

  lemma {:induction false} DeltasAreLoadable(ts: seq<map<Key, Value>>)
    requires LoadDeltas(ts).Some? && forall d :: d in LoadDeltas(ts).value ==> Plain(d.requirement)
    ensures forall d :: d in LoadDeltas(ts).value ==> DeltaLoadable(d)
  {
    if ts != [] {
      assert LoadDeltas(ts).value == [LoadDelta(ts[0]).value] + LoadDeltas(ts[1..]).value;
      DeltasAreLoadable(ts[1..]);
    }
  }

  /** Nothing else is asked of metadata below: whatever the loader returns is loadable. */
  lemma LoadedIsLoadable(d: Toml, rules: Metadata -> bool, m: Metadata)
    requires Load(d, rules) == Some(m)
    requires Plain(m.id) && Plain(m.created) && Plain(m.updated) && forall x :: x in m.deltas ==> Plain(x.requirement)
    ensures Loadable(m, rules)
  {
    DeltasAreLoadable(d.tables);
  }

  predicate DeltaQuotable(d: Delta) {
    Quotable(d.destination) && (d.source.Some? ==> Quotable(d.source.value))
  }

  /** No title, destination or source holds a character that TOML wants escaped by name or number. */
  predicate AllQuotable(m: Metadata) {
    Quotable(m.title) && forall d | d in m.deltas :: DeltaQuotable(d)
  }

  function HeaderStatements(m: Metadata, status: string): seq<Statement> {
    [ Pair(Schema, Str(m.schema)), Pair(Id, Str(m.id)), Pair(Title, Str(m.title)), Pair(Status, Str(status)),
      Pair(GithubIssue, Int(m.issue)), Pair(Created, Str(m.created)), Pair(Updated, Str(m.updated)), Pair(DesignRequired, Flag(m.designRequired)) ]
  }

  function DeltaPairs(d: Delta): seq<Statement> {
    [ Pair(OperationKey, Str(OperationName(d.operation))), Pair(RequirementId, Str(d.requirement)), Pair(Destination, Str(d.destination)) ]
    + if d.source.Some? then [Pair(Source, Str(d.source.value))] else []
  }

  function DeltaStatements(d: Delta): seq<Statement> {
    [EmptyLine, TableHeader] + DeltaPairs(d)
  }

  function AllDeltaStatements(deltas: seq<Delta>): seq<Statement> {
    if deltas == [] then [] else DeltaStatements(deltas[0]) + AllDeltaStatements(deltas[1..])
  }

  function Texts(sts: seq<Statement>): seq<string> {
    seq(|sts|, i requires 0 <= i < |sts| => StatementText(sts[i]))
  }

  lemma PlainText(s: string)
    requires Plain(s)
    ensures TomlEscape(s) == s
  {
    EscapeIsOnePass(s);
    PlainNeedsNoEscape(s);
  }

  lemma TameText(s: string)
    requires 0 < |s| <= 512 && forall i | 0 <= i < |s| :: '-' <= s[i] <= 'z' && s[i] != '\\'
    ensures Plain(s) && SafeText(s)
  {
    assert !IsSpace(s[0]);
  }

  lemma NamesArePlain(stage: Stage, operation: Operation)
    ensures Plain(StageName(stage)) && SafeText(StageName(stage))
    ensures Plain(OperationName(operation)) && SafeText(OperationName(operation))
    ensures Plain(SCHEMA) && SafeText(SCHEMA)
  {
    TameText(SCHEMA);
    TameText(StageName(stage));
    TameText(OperationName(operation));
  }

  lemma NamesReadBack(stage: Stage, operation: Operation)
    ensures StageOf(StageName(stage)) == Some(stage) && OperationOf(OperationName(operation)) == Some(operation)
  {
  }

  lemma TextsConcat(a: seq<Statement>, b: seq<Statement>)
    ensures Texts(a + b) == Texts(a) + Texts(b)
  {
  }

  lemma FieldTexts(sts: seq<Statement>, fields: seq<(Key, string)>)
    requires |sts| == |fields|
    requires forall i :: 0 <= i < |sts| ==> sts[i].Pair? && sts[i].key == fields[i].0 && ValueText(sts[i].value) == fields[i].1
    ensures Texts(sts) == FieldLines(fields)
  {
  }

  lemma StagePlain(stage: Stage)
    ensures TomlEscape(StageName(stage)) == StageName(stage)
  {
    NamesArePlain(stage, Add);
    PlainText(StageName(stage));
  }

  lemma SchemaPlain()
    ensures TomlEscape(SCHEMA) == SCHEMA
  {
    NamesArePlain(Draft, Add);
    PlainText(SCHEMA);
  }

  lemma HeaderTexts(m: Metadata, status: string)
    requires TomlEscape(m.schema) == m.schema && TomlEscape(status) == status && Plain(m.id) && Plain(m.created) && Plain(m.updated)
    ensures Texts(HeaderStatements(m, status)) == FieldLines(HeaderFields(m, status))
  {
    PlainText(m.id);
    PlainText(m.created);
    PlainText(m.updated);
    FieldTexts(HeaderStatements(m, status), HeaderFields(m, status));
  }

  lemma DeltaTexts(d: Delta)
    requires DeltaLoadable(d)
    ensures Texts(DeltaStatements(d)) == DeltaLines(d)
  {
    NamesArePlain(Draft, d.operation);
    PlainText(OperationName(d.operation));
    PlainText(d.requirement);
    FieldTexts(DeltaPairs(d), DeltaFields(d));
    TextsConcat([EmptyLine, TableHeader], DeltaPairs(d));
    assert Texts([EmptyLine, TableHeader]) == ["", "[[deltas]]"];
  }

  lemma {:induction false} AllDeltaTexts(deltas: seq<Delta>)
    requires forall d :: d in deltas ==> DeltaLoadable(d)
    ensures Texts(AllDeltaStatements(deltas)) == AllDeltaLines(deltas)
  {
    if deltas != [] {
      DeltaTexts(deltas[0]);
      AllDeltaTexts(deltas[1..]);
      TextsConcat(DeltaStatements(deltas[0]), AllDeltaStatements(deltas[1..]));
    }
  }

  lemma {:induction false} JoinedLines(sts: seq<Statement>)
    requires sts != []
    ensures Join(Texts(sts)) + "\n" == Lines(sts)
  {
    assert Texts(sts)[1..] == Texts(sts[1..]);
    if |sts| > 1 {
      JoinedLines(sts[1..]);
      var first, rest := StatementText(sts[0]), Join(Texts(sts[1..]));
      assert Join(Texts(sts)) == first + "\n" + rest && Lines(sts) == first + "\n" + Lines(sts[1..]);
      Associates(first + "\n", rest, "\n");
    } else {
      assert Lines(sts[1..]) == "";
    }
  }

  lemma {:induction false} FeedConcat(d: Toml, a: seq<Statement>, b: seq<Statement>)
    ensures FeedAll(d, a + b) == if FeedAll(d, a).None? then None else FeedAll(FeedAll(d, a).value, b)
    decreases |a|
  {
    if a == [] {
      assert a + b == b;
    } else {
      assert (a + b)[1..] == a[1..] + b;
      if Feed(d, a[0]).Some? {
        FeedConcat(Feed(d, a[0]).value, a[1..], b);
      }
    }
  }

  ghost predicate DistinctPairs(sts: seq<Statement>) {
    && (forall i :: 0 <= i < |sts| ==> sts[i].Pair?)
    && forall i, j :: 0 <= i < j < |sts| ==> sts[i].key != sts[j].key
  }

  /** The table holds exactly these pairs besides the earlier ones. */
  ghost predicate Holds(t: map<Key, Value>, earlier: map<Key, Value>, sts: seq<Statement>)
    requires forall i :: 0 <= i < |sts| ==> sts[i].Pair?
  {
    && (forall k :: k in t ==> k in earlier || exists i :: 0 <= i < |sts| && sts[i].key == k)
    && (forall k :: k in earlier ==> k in t && t[k] == earlier[k])
    && (forall i :: 0 <= i < |sts| ==> sts[i].key in t && t[sts[i].key] == sts[i].value)
  }

  lemma HoldsMore(t: map<Key, Value>, earlier: map<Key, Value>, sts: seq<Statement>)
    requires sts != [] && DistinctPairs(sts) && sts[0].key !in earlier
    requires Holds(t, earlier[sts[0].key := sts[0].value], sts[1..])
    ensures Holds(t, earlier, sts)
  {
    assert forall i :: 0 < i < |sts| ==> sts[i] == sts[1..][i - 1];
    forall k | k in t ensures k in earlier || exists i :: 0 <= i < |sts| && sts[i].key == k {
      if k !in earlier && k != sts[0].key {
        var i :| 0 <= i < |sts[1..]| && sts[1..][i].key == k;
        assert sts[i + 1].key == k;
      }
    }
  }

  lemma {:induction false} PairsFeed(d: Toml, sts: seq<Statement>) returns (t: map<Key, Value>)
    requires DistinctPairs(sts) && forall i :: 0 <= i < |sts| ==> sts[i].key !in Current(d)
    ensures FeedAll(d, sts) == Some(WithCurrent(d, t)) && Holds(t, Current(d), sts)
    decreases |sts|
  {
    if sts == [] {
      t := Current(d);
      assert WithCurrent(d, t) == d;
    } else {
      var next := Feed(d, sts[0]).value;
      assert Current(next) == Current(d)[sts[0].key := sts[0].value];
      assert forall i :: 0 <= i < |sts[1..]| ==> sts[1..][i] == sts[i + 1];
      t := PairsFeed(next, sts[1..]);
      assert WithCurrent(next, t) == WithCurrent(d, t);
      HoldsMore(t, Current(d), sts);
    }
  }

  lemma DeltaKeys(t: map<Key, Value>, d: Delta)
    requires Holds(t, map[], DeltaPairs(d))
    ensures OperationKey in t && t[OperationKey] == Str(OperationName(d.operation)) && RequirementId in t && t[RequirementId] == Str(d.requirement)
    ensures Destination in t && t[Destination] == Str(d.destination)
    ensures if d.source.Some? then Source in t && t[Source] == Str(d.source.value) else Source !in t
    ensures t.Keys <= {OperationKey, RequirementId, Destination, Source}
  {
    var sts := DeltaPairs(d);
    assert t[sts[0].key] == sts[0].value && t[sts[1].key] == sts[1].value && t[sts[2].key] == sts[2].value;
    if d.source.Some? {
      assert t[sts[3].key] == sts[3].value;
    }
  }

  lemma OperationReads(operation: Operation)
    ensures SafeText(OperationName(operation)) && OperationOf(OperationName(operation)) == Some(operation)
  {
    NamesArePlain(Draft, operation);
    NamesReadBack(Draft, operation);
  }

  lemma DeltaLoads(t: map<Key, Value>, d: Delta)
    requires DeltaLoadable(d) && Holds(t, map[], DeltaPairs(d))
    ensures LoadDelta(t) == Some(d)
  {
    DeltaKeys(t, d);
    OperationReads(d.operation);
  }

  lemma TableOpens(top: map<Key, Value>, ts: seq<map<Key, Value>>)
    requires Deltas !in top
    ensures FeedAll(Toml(top, ts), [EmptyLine, TableHeader]) == Some(Toml(top, ts + [map[]]))
  {
    assert [EmptyLine, TableHeader][1..] == [TableHeader] && [TableHeader][1..] == [];
    assert Feed(Toml(top, ts), EmptyLine) == Some(Toml(top, ts));
  }

  lemma DeltaPairsDistinct(d: Delta)
    ensures DistinctPairs(DeltaPairs(d))
  {
  }

  lemma PairsFillTable(top: map<Key, Value>, ts: seq<map<Key, Value>>, sts: seq<Statement>) returns (t: map<Key, Value>)
    requires DistinctPairs(sts) && Deltas !in top
    ensures FeedAll(Toml(top, ts), [EmptyLine, TableHeader] + sts) == Some(Toml(top, ts + [t])) && Holds(t, map[], sts)
  {
    var started := Toml(top, ts + [map[]]);
    t := PairsFeed(started, sts);
    TableOpens(top, ts);
    FeedConcat(Toml(top, ts), [EmptyLine, TableHeader], sts);
    assert WithCurrent(started, t) == Toml(top, ts + [t]);
  }

  lemma DeltaFeeds(top: map<Key, Value>, ts: seq<map<Key, Value>>, d: Delta) returns (t: map<Key, Value>)
    requires DeltaLoadable(d) && Deltas !in top
    ensures FeedAll(Toml(top, ts), DeltaStatements(d)) == Some(Toml(top, ts + [t])) && LoadDelta(t) == Some(d)
  {
    DeltaPairsDistinct(d);
    t := PairsFillTable(top, ts, DeltaPairs(d));
    DeltaLoads(t, d);
  }

  lemma {:induction false} AllDeltasFeed(top: map<Key, Value>, ts: seq<map<Key, Value>>, deltas: seq<Delta>) returns (more: seq<map<Key, Value>>)
    requires (forall d :: d in deltas ==> DeltaLoadable(d)) && Deltas !in top
    ensures FeedAll(Toml(top, ts), AllDeltaStatements(deltas)) == Some(Toml(top, ts + more)) && LoadDeltas(more) == Some(deltas)
    decreases |deltas|
  {
    if deltas == [] {
      more := [];
      assert ts + more == ts;
    } else {
      var first, later := DeltaStatements(deltas[0]), AllDeltaStatements(deltas[1..]);
      var t := DeltaFeeds(top, ts, deltas[0]);
      var others := AllDeltasFeed(top, ts + [t], deltas[1..]);
      FeedConcat(Toml(top, ts), first, later);
      more := [t] + others;
      assert ts + more == ts + [t] + others;
      LoadsOneMore(t, others, deltas);
    }
  }

  lemma LoadsOneMore(t: map<Key, Value>, others: seq<map<Key, Value>>, deltas: seq<Delta>)
    requires deltas != [] && LoadDelta(t) == Some(deltas[0]) && LoadDeltas(others) == Some(deltas[1..])
    ensures LoadDeltas([t] + others) == Some(deltas)
  {
    assert ([t] + others)[1..] == others && [deltas[0]] + deltas[1..] == deltas;
  }

  lemma HeaderFeeds(m: Metadata, status: string) returns (top: map<Key, Value>)
    ensures FeedAll(Toml(map[], []), HeaderStatements(m, status)) == Some(Toml(top, [])) && Holds(top, map[], HeaderStatements(m, status))
    ensures Deltas !in top
  {
    top := PairsFeed(Toml(map[], []), HeaderStatements(m, status));
  }

  lemma HeaderStrings(t: map<Key, Value>, m: Metadata, status: string, rules: Metadata -> bool)
    requires Loadable(m, rules) && Holds(t, map[], HeaderStatements(m, status)) && SafeText(m.schema) && SafeText(status)
    ensures RequiredString(t, Schema) == Some(m.schema) && RequiredString(t, Id) == Some(m.id) && RequiredString(t, Title) == Some(m.title)
    ensures RequiredString(t, Status) == Some(status)
    ensures RequiredString(t, Created) == Some(m.created) && RequiredString(t, Updated) == Some(m.updated)
  {
    var sts := HeaderStatements(m, status);
    assert t[sts[0].key] == sts[0].value && t[sts[1].key] == sts[1].value && t[sts[2].key] == sts[2].value;
    assert t[sts[3].key] == sts[3].value && t[sts[5].key] == sts[5].value && t[sts[6].key] == sts[6].value;
  }

  lemma HeaderOthers(t: map<Key, Value>, m: Metadata, status: string)
    requires Holds(t, map[], HeaderStatements(m, status))
    ensures GithubIssue in t && t[GithubIssue] == Int(m.issue) && DesignRequired in t && t[DesignRequired] == Flag(m.designRequired)
    ensures t.Keys <= {Schema, Id, Title, Status, GithubIssue, Created, Updated, DesignRequired}
  {
    var sts := HeaderStatements(m, status);
    assert t[sts[4].key] == sts[4].value && t[sts[7].key] == sts[7].value;
  }

  lemma HeaderLoads(t: map<Key, Value>, ts: seq<map<Key, Value>>, m: Metadata, status: string, rules: Metadata -> bool)
    requires Loadable(m, rules) && Holds(t, map[], HeaderStatements(m, status)) && LoadDeltas(ts) == Some(m.deltas)
    requires SafeText(m.schema) && SafeText(status) && StageOf(status) == Some(m.stage)
    ensures Load(Toml(t, ts), rules) == Some(m)
  {
    HeaderStrings(t, m, status, rules);
    HeaderOthers(t, m, status);
  }

  lemma StatementsLoad(m: Metadata, status: string, rules: Metadata -> bool)
    requires Loadable(m, rules) && SafeText(m.schema) && SafeText(status) && StageOf(status) == Some(m.stage)
    ensures var d := FeedAll(Toml(map[], []), HeaderStatements(m, status) + AllDeltaStatements(m.deltas));
            d.Some? && Load(d.value, rules) == Some(m)
  {
    var header, deltas := HeaderStatements(m, status), AllDeltaStatements(m.deltas);
    var top := HeaderFeeds(m, status);
    var ts := AllDeltasFeed(top, [], m.deltas);
    FeedConcat(Toml(map[], []), header, deltas);
    assert [] + ts == ts;
    HeaderLoads(top, ts, m, status, rules);
  }

  lemma {:induction false} DeltasReadable(deltas: seq<Delta>)
    requires forall d :: d in deltas ==> DeltaLoadable(d)
    ensures (forall st :: st in AllDeltaStatements(deltas) ==> Readable(st)) <==> forall d :: d in deltas ==> DeltaQuotable(d)
  {
    if deltas != [] {
      DeltasReadable(deltas[1..]);
      DeltaReadable(deltas[0]);
      assert deltas == [deltas[0]] + deltas[1..];
      ghost var first, others := DeltaStatements(deltas[0]), AllDeltaStatements(deltas[1..]);
      InBoth(first, others);
    }
  }

  lemma InBoth(a: seq<Statement>, b: seq<Statement>)
    ensures (forall st :: st in a + b ==> Readable(st)) <==> (forall st :: st in a ==> Readable(st)) && (forall st :: st in b ==> Readable(st))
  {
    assert forall st :: st in a ==> st in a + b;
    assert forall st :: st in b ==> st in a + b;
  }

  lemma OperationQuotable(operation: Operation)
    ensures Quotable(OperationName(operation))
  {
    NamesArePlain(Draft, operation);
    PlainNeedsNoEscape(OperationName(operation));
  }

  lemma DeltaReadable(d: Delta)
    requires DeltaLoadable(d)
    ensures (forall st :: st in DeltaStatements(d) ==> Readable(st)) <==> DeltaQuotable(d)
  {
    OperationQuotable(d.operation);
    PlainNeedsNoEscape(d.requirement);
    var sts := DeltaStatements(d);
    assert sts[4] in sts;
    if d.source.Some? {
      assert sts[5] in sts;
    }
  }

  lemma HeaderReadable(m: Metadata, status: string)
    requires Quotable(m.schema) && Quotable(status) && Plain(m.id) && Plain(m.created) && Plain(m.updated)
    ensures (forall st :: st in HeaderStatements(m, status) ==> Readable(st)) <==> Quotable(m.title)
  {
    PlainNeedsNoEscape(m.id);
    PlainNeedsNoEscape(m.created);
    PlainNeedsNoEscape(m.updated);
    assert HeaderStatements(m, status)[2] in HeaderStatements(m, status);
  }

  /** Rendered metadata reads back as itself exactly when no title, destination or source holds a control
      character other than a tab, or DEL; with one, the file cannot be read at all. */
  lemma RenderReadsBack(m: Metadata, rules: Metadata -> bool)
    requires Loadable(m, rules)
    ensures Read(Render(m), rules) == if AllQuotable(m) then Some(m) else None
  {
    var status := StageName(m.stage);
    RenderIsLines(m, status, rules);
    HeaderAndStatus(m, status, rules);
    LinesReadBack(HeaderStatements(m, status) + AllDeltaStatements(m.deltas), Toml(map[], []));
    InBoth(HeaderStatements(m, status), AllDeltaStatements(m.deltas));
    HeaderReadable(m, status);
    DeltasReadable(m.deltas);
    StatementsLoad(m, status, rules);
  }

  lemma HeaderAndStatus(m: Metadata, status: string, rules: Metadata -> bool)
    requires Loadable(m, rules) && status == StageName(m.stage)
    ensures Quotable(m.schema) && Quotable(status) && SafeText(m.schema) && SafeText(status) && StageOf(status) == Some(m.stage)
    ensures TomlEscape(m.schema) == m.schema && TomlEscape(status) == status
  {
    NamesArePlain(m.stage, Add);
    NamesReadBack(m.stage, Add);
    PlainNeedsNoEscape(m.schema);
    PlainNeedsNoEscape(status);
    SchemaPlain();
    StagePlain(m.stage);
  }

  lemma RenderIsLines(m: Metadata, status: string, rules: Metadata -> bool)
    requires Loadable(m, rules) && status == StageName(m.stage)
    ensures Render(m) == Lines(HeaderStatements(m, status) + AllDeltaStatements(m.deltas))
  {
    HeaderAndStatus(m, status, rules);
    HeaderTexts(m, status);
    AllDeltaTexts(m.deltas);
    TextsConcat(HeaderStatements(m, status), AllDeltaStatements(m.deltas));
    JoinedLines(HeaderStatements(m, status) + AllDeltaStatements(m.deltas));
  }

  /** Whatever is loadable is what some parsed file loads to. */
  lemma SomeFileLoads(m: Metadata, rules: Metadata -> bool)
    requires Loadable(m, rules)
    ensures exists d :: Load(d, rules) == Some(m)
  {
    var status := StageName(m.stage);
    HeaderAndStatus(m, status, rules);
    StatementsLoad(m, status, rules);
    var d := FeedAll(Toml(map[], []), HeaderStatements(m, status) + AllDeltaStatements(m.deltas)).value;
    assert Load(d, rules) == Some(m);
  }

  lemma DelIsLoadable(rules: Metadata -> bool) returns (m: Metadata)
    requires forall x :: rules(x)
    ensures DEL in m.title && Loadable(m, rules)
  {
    var d := Delta(Remove, "MA-A-001", "MA-A-001.md", None);
    m := Metadata(SCHEMA, "0001-a", ['a', DEL], Verifying, 1, "2026-01-01", "2026-01-01", false, [d]);
    TameText(d.requirement);
    TameText(d.destination);
    TameText(m.id);
    TameText(m.created);
    assert !IsSpace(m.title[0]) && m.title[1] == DEL;
  }

  /** The loader lets DEL through and the renderer writes it as it is: such a change loads, and cannot be read
      again once it is written. */
  lemma DelIsNotEscaped(rules: Metadata -> bool) returns (m: Metadata)
    requires forall x :: rules(x)
    ensures DEL in m.title && (exists d :: Load(d, rules) == Some(m)) && Read(Render(m), rules) == None
  {
    m := DelIsLoadable(rules);
    DelCannotBeRead(m, rules);
    SomeFileLoads(m, rules);
  }

  lemma DelCannotBeRead(m: Metadata, rules: Metadata -> bool)
    requires Loadable(m, rules) && DEL in m.title
    ensures Read(Render(m), rules) == None
  {
    RenderReadsBack(m, rules);
  }

  /* ---------- which files load ---------- */

  /** The keys of a change, each with its value. */
  function Header(m: Metadata): map<Key, Value> {
    map[Schema := Str("master-agent/change@1"), Id := Str(m.id), Title := Str(m.title), Status := Str(StageName(m.stage)), GithubIssue := Int(m.issue),
        Created := Str(m.created), Updated := Str(m.updated), DesignRequired := Flag(m.designRequired)]
  }

  /** The keys of a delta; a removal has no source. */
  function Table(d: Delta): map<Key, Value> {
    var t := map[OperationKey := Str(OperationName(d.operation)), RequirementId := Str(d.requirement), Destination := Str(d.destination)];
    if d.source.Some? then t[Source := Str(d.source.value)] else t
  }

  /** A text that is not blank, at most 512 characters long, and without control characters before the space. */
  predicate Fine(s: string) {
    (exists i :: 0 <= i < |s| && !IsSpace(s[i])) && |s| < 513 && forall i :: 0 <= i < |s| ==> s[i] as int >= 32
  }

  predicate DeltaFine(d: Delta) {
    && Fine(d.requirement) && Fine(d.destination)
    && if d.operation == Remove then d.source.None? else d.source.Some? && exists i :: 0 <= i < |d.source.value| && !IsSpace(d.source.value[i])
  }

  lemma FineIsSafe(s: string)
    ensures Fine(s) <==> SafeText(s)
  {
    assert forall i :: 0 <= i < |s| ==> s[i] in s;
  }

  lemma StageNamesDiffer(text: string, stage: Stage)
    ensures StageOf(text) == Some(stage) <==> text == StageName(stage)
  {
    NamesReadBack(stage, Add);
  }

  lemma OperationNamesDiffer(text: string, operation: Operation)
    ensures OperationOf(text) == Some(operation) <==> text == OperationName(operation)
  {
    NamesReadBack(Draft, operation);
  }

  lemma DeltaLoadsExactly(t: map<Key, Value>, d: Delta)
    ensures LoadDelta(t) == Some(d) <==> t == Table(d) && DeltaFine(d)
  {
    FineIsSafe(d.requirement);
    FineIsSafe(d.destination);
    NamesArePlain(Draft, d.operation);
    OperationNamesDiffer(OperationName(d.operation), d.operation);
    if LoadDelta(t) == Some(d) {
      OperationNamesDiffer(t[OperationKey].s, d.operation);
      assert t.Keys == Table(d).Keys;
    }
  }

  lemma {:induction false} DeltasLoadExactly(ts: seq<map<Key, Value>>, deltas: seq<Delta>)
    ensures LoadDeltas(ts) == Some(deltas)
            <==> |ts| == |deltas| && forall i :: 0 <= i < |ts| ==> ts[i] == Table(deltas[i]) && DeltaFine(deltas[i])
    decreases |ts|
  {
    if ts != [] && deltas != [] {
      DeltaLoadsExactly(ts[0], deltas[0]);
      DeltasLoadExactly(ts[1..], deltas[1..]);
      assert deltas == [deltas[0]] + deltas[1..];
      if |ts| == |deltas| {
        OneMoreTable(ts, deltas);
      }
    }
  }

  lemma OneMoreTable(ts: seq<map<Key, Value>>, deltas: seq<Delta>)
    requires ts != [] && |ts| == |deltas|
    ensures (forall i :: 0 <= i < |ts| ==> ts[i] == Table(deltas[i]) && DeltaFine(deltas[i]))
            <==> ts[0] == Table(deltas[0]) && DeltaFine(deltas[0])
                 && forall i :: 0 <= i < |ts[1..]| ==> ts[1..][i] == Table(deltas[1..][i]) && DeltaFine(deltas[1..][i])
  {
    if forall i :: 0 <= i < |ts[1..]| ==> ts[1..][i] == Table(deltas[1..][i]) && DeltaFine(deltas[1..][i]) {
      forall i | 1 <= i < |ts| ensures ts[i] == Table(deltas[i]) && DeltaFine(deltas[i]) {
        assert ts[1..][i - 1] == Table(deltas[1..][i - 1]) && DeltaFine(deltas[1..][i - 1]);
      }
    }
  }

  /** The values of the keys, apart from the deltas. */
  predicate HeaderFine(m: Metadata) {
    && m.schema == "master-agent/change@1" && Fine(m.id) && Fine(m.title) && |m.title| <= 200 && m.issue >= 1
    && Fine(m.created) && Fine(m.updated) && 0 < |m.deltas| <= 128
  }

  lemma HeaderIsFine(m: Metadata)
    ensures HeaderFine(m) <==> && m.schema == SCHEMA && SafeText(m.id) && SafeText(m.title) && |m.title| <= 200 && m.issue >= 1
                               && SafeText(m.created) && SafeText(m.updated) && 1 <= |m.deltas| <= MAX_DELTAS
    ensures SafeText(SCHEMA) && SafeText(StageName(m.stage)) && StageOf(StageName(m.stage)) == Some(m.stage)
  {
    FineIsSafe(m.id);
    FineIsSafe(m.title);
    FineIsSafe(m.created);
    FineIsSafe(m.updated);
    SchemaPlain();
    NamesArePlain(m.stage, Add);
    StageNamesDiffer(StageName(m.stage), m.stage);
  }

  lemma LoadedHeader(d: Toml, rules: Metadata -> bool, m: Metadata)
    requires Load(d, rules) == Some(m)
    ensures d.top == Header(m) && HeaderFine(m) && rules(m) && LoadDeltas(d.tables) == Some(m.deltas)
  {
    HeaderIsFine(m);
    StageNamesDiffer(d.top[Status].s, m.stage);
    assert d.top.Keys == Header(m).Keys;
    forall k | k in d.top ensures d.top[k] == Header(m)[k] {
    }
  }

  lemma HeaderIsLoaded(d: Toml, rules: Metadata -> bool, m: Metadata)
    requires d.top == Header(m) && HeaderFine(m) && rules(m) && LoadDeltas(d.tables) == Some(m.deltas)
    ensures Load(d, rules) == Some(m)
  {
    HeaderIsFine(m);
  }

  /** A file loads to a change exactly if it has the keys of that change with its values and no others, a table with the
      keys of each delta in order, and the values are fine. */
  lemma LoadsExactly(d: Toml, rules: Metadata -> bool, m: Metadata)
    ensures Load(d, rules) == Some(m)
            <==> && d.top == Header(m) && |d.tables| == |m.deltas|
                 && (forall i :: 0 <= i < |d.tables| ==> d.tables[i] == Table(m.deltas[i]) && DeltaFine(m.deltas[i]))
                 && HeaderFine(m) && rules(m)
  {
    DeltasLoadExactly(d.tables, m.deltas);
    if Load(d, rules) == Some(m) {
      LoadedHeader(d, rules, m);
    }
    if d.top == Header(m) && HeaderFine(m) && rules(m) && LoadDeltas(d.tables) == Some(m.deltas) {
      HeaderIsLoaded(d, rules, m);
    }
  }
}
