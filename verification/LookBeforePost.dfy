/** Tools that look through the existing items before they create one: repeating them creates nothing new. */
module LookBeforePost {
  import opened Prelude
  import opened Pagination

  /* ---------- plain text of a Jira body ---------- */

  /** A key of an object, or the default. */
  function Get(v: Json, key: string, default: Json): Json
    requires v.Object?
  {
    if key in v.fields then v.fields[key] else default
  }

  predicate EndsLine(v: Json)
    requires v.Object?
  {
    var kind := Get(v, "type", Null);
    kind == Text("paragraph") || kind == Text("heading") || kind == Text("listItem") || kind == Text("hardBreak")
  }

  /** `_text`; `show` is `str` of values that are not text. */
  function TextOf(v: Json, show: Json -> string): string {
    match v
    case Text(text) => text
    case List(items) => TextsOf(items, show)
    case Object(fields) =>
      (if "text" in fields then if fields["text"].Text? then fields["text"].text else show(fields["text"]) else "")
      + (if "content" in fields then TextOf(fields["content"], show) else "")
      + (if EndsLine(v) then "\n" else "")
    case _ => ""
  }

  function TextsOf(items: seq<Json>, show: Json -> string): string {
    if items == [] then "" else TextOf(items[0], show) + TextsOf(items[1..], show)
  }

  /** `content.split("\n")`. */
  function SplitLines(content: string): (lines: seq<string>)
    ensures |lines| > 0
  {
    if content == "" then [""]
    else
      var rest := SplitLines(content[1..]);
      if content[0] == '\n' then [""] + rest else [[content[0]] + rest[0]] + rest[1..]
  }

  function Paragraph(line: string): Json {
    Object(map["type" := Text("paragraph"),
               "content" := List(if line != "" then [Object(map["type" := Text("text"), "text" := Text(line)])] else [])])
  }

  function Paragraphs(lines: seq<string>): seq<Json> {
    if lines == [] then [] else [Paragraph(lines[0])] + Paragraphs(lines[1..])
  }

  /** The document a Cloud comment is sent as. */
  function CloudDocument(content: string): Json {
    Object(map["type" := Text("doc"), "version" := Number(1), "content" := List(Paragraphs(SplitLines(content)))])
  }

  lemma KeysDiffer()
    ensures "text" != "type" && "content" != "text" && "content" != "type" && "version" != "content" && "version" != "text"
    ensures "text" != "paragraph" && "text" != "heading" && "text" != "listItem" && "text" != "hardBreak"
    ensures "doc" != "paragraph" && "doc" != "heading" && "doc" != "listItem" && "doc" != "hardBreak"
  {
    assert "text"[1] != "type"[1];
    assert "content"[0] != "version"[0];
  }

  lemma TextLeaf(line: string, show: Json -> string)
    ensures TextOf(Object(map["type" := Text("text"), "text" := Text(line)]), show) == line
  {
    KeysDiffer();
  }

  lemma ParagraphText(line: string, show: Json -> string)
    ensures TextOf(Paragraph(line), show) == line + "\n"
  {
    KeysDiffer();
    var inner := if line != "" then [Object(map["type" := Text("text"), "text" := Text(line)])] else [];
    if line != "" {
      TextLeaf(line, show);
      assert inner[1..] == [] && TextsOf(inner, show) == TextOf(inner[0], show) + TextsOf([], show);
    }
    assert TextOf(List(inner), show) == TextsOf(inner, show) == line;
  }

  /** Every line followed by a line end. */
  function Terminated(lines: seq<string>): string {
    if lines == [] then "" else lines[0] + "\n" + Terminated(lines[1..])
  }

  lemma {:induction false} ParagraphsText(lines: seq<string>, show: Json -> string)
    ensures TextsOf(Paragraphs(lines), show) == Terminated(lines)
  {
    if lines != [] {
      ParagraphText(lines[0], show);
      ParagraphsText(lines[1..], show);
      assert Paragraphs(lines)[1..] == Paragraphs(lines[1..]);
    }
  }

  lemma {:induction false} SplitInverse(content: string)
    ensures Terminated(SplitLines(content)) == content + "\n"
  {
    var lines := SplitLines(content);
    if content == "" {
      assert Terminated(lines[1..]) == "";
    } else {
      var rest := SplitLines(content[1..]);
      SplitInverse(content[1..]);
      assert content == [content[0]] + content[1..];
      if content[0] == '\n' {
        assert lines[1..] == rest;
      } else {
        assert lines[1..] == rest[1..] && lines[0] == [content[0]] + rest[0];
        assert Terminated(lines) == [content[0]] + Terminated(rest);
      }
    }
  }

  lemma DocText(items: seq<Json>, show: Json -> string)
    ensures TextOf(Object(map["type" := Text("doc"), "version" := Number(1), "content" := List(items)]), show) == TextsOf(items, show)
  {
    KeysDiffer();
    assert TextOf(List(items), show) == TextsOf(items, show);
  }

  /** Reading the Cloud document back gives the content and one line end. */
  lemma DocumentText(content: string, show: Json -> string)
    ensures TextOf(CloudDocument(content), show) == content + "\n"
  {
    var lines := SplitLines(content);
    SplitInverse(content);
    ParagraphsText(lines, show);
    DocText(Paragraphs(lines), show);
  }

  /* ---------- stamps ---------- */

  predicate MarkerChar(c: char) {
    'A' <= c <= 'Z' || 'a' <= c <= 'z' || '0' <= c <= '9' || c == '_' || c == '.' || c == ':' || c == '-'
  }

  predicate MarkerOk(marker: string) {
    1 <= |marker| <= 120 && forall c | c in marker :: MarkerChar(c)
  }

  function Stamp(marker: string): string {
    "[masteragent:" + marker + "]"
  }

  function RStrip(s: string): string {
    if s != "" && IsSpace(s[|s| - 1]) then RStrip(s[..|s| - 1]) else s
  }

  /** It cuts off white space at the end, and all of it. */
  lemma {:induction false} RStripCutsSpace(s: string)
    ensures RStrip(s) <= s && Blank(s[|RStrip(s)|..]) && (RStrip(s) != "" ==> !IsSpace(s[|RStrip(s)| - 1]))
  {
    if s != "" && IsSpace(s[|s| - 1]) {
      RStripCutsSpace(s[..|s| - 1]);
    }
  }

  function Content(body: string, marker: string): string {
    RStrip(body) + "\n\n" + Stamp(marker)
  }

  lemma StampShape(marker: string)
    requires MarkerOk(marker)
    ensures var s := Stamp(marker);
            |s| == 14 + |marker| && Bracketed(s) && s[13..|s| - 1] == marker && '\n' !in s
  {
    var head := "[masteragent:";
    assert |head| == 13 && forall k :: 0 < k < 13 ==> head[k] != '[' && head[k] != ']' && head[k] != '\n';
    var s := Stamp(marker);
    assert forall k :: 0 <= k < 13 ==> s[k] == head[k];
    forall k | 13 <= k < |s| - 1 ensures MarkerChar(s[k]) {
      assert s[k] == marker[k - 13] && marker[k - 13] in marker;
    }
  }

  /** An opening bracket at the start, a closing one at the end, and no others. */
  ghost predicate Bracketed(s: string) {
    && |s| >= 2 && s[0] == '[' && s[|s| - 1] == ']'
    && (forall k :: 0 < k < |s| ==> s[k] != '[') && (forall k :: 0 <= k < |s| - 1 ==> s[k] != ']')
  }

  lemma BracketedInBracketed(s: string, t: string)
    requires Bracketed(s) && Bracketed(t) && Occurs(s, t)
    ensures s == t
  {
    var i: nat :| 0 <= i <= |s| && OccursAt(s, t, i);
    var part := s[i..i + |t|];
    assert s[i] == part[0] && s[i + |t| - 1] == part[|t| - 1];
    assert s[0..|s|] == s;
  }

  /** Inside a stamp only that stamp itself occurs. */
  lemma StampInStamp(a: string, b: string)
    requires MarkerOk(a) && MarkerOk(b) && Occurs(Stamp(a), Stamp(b))
    ensures a == b
  {
    StampShape(a);
    StampShape(b);
    BracketedInBracketed(Stamp(a), Stamp(b));
  }

  lemma NotAcross(text: string, part: string, i: nat, end: nat)
    requires OccursAt(text, part, i) && '\n' !in part && end < |text| && text[end] == '\n'
    ensures end < i || i + |part| <= end
  {
    forall p | i <= p < i + |part| ensures text[p] != '\n' {
      assert text[p] == text[i..i + |part|][p - i] == part[p - i];
      assert part[p - i] in part;
    }
  }

  lemma OccursInLonger(before: string, text: string, after: string, part: string)
    requires Occurs(text, part)
    ensures Occurs(before + text + after, part)
  {
    var i: nat :| 0 <= i <= |text| && OccursAt(text, part, i);
    var whole, j := before + text + after, i + |before|;
    assert whole[j..j + |part|] == text[i..i + |part|];
    assert OccursAt(whole, part, j);
  }

  lemma OnOneSide(before: string, after: string, part: string)
    requires part != "" && '\n' !in part && Occurs(before + "\n" + after, part)
    ensures Occurs(before, part) || Occurs(after, part)
  {
    var text := before + "\n" + after;
    var i: nat :| 0 <= i <= |text| && OccursAt(text, part, i);
    NotAcross(text, part, i, |before|);
    if i + |part| <= |before| {
      assert before[i..i + |part|] == text[i..i + |part|];
      assert OccursAt(before, part, i);
    } else {
      var j := i - |before| - 1;
      assert after == text[|before| + 1..];
      assert text[|before| + 1..][j..j + |part|] == text[i..i + |part|];
      assert OccursAt(after, part, j);
    }
  }

  /** A part without line ends occurs around a line end only on one of its sides. */
  lemma OneSide(before: string, after: string, part: string)
    requires part != "" && '\n' !in part
    ensures Occurs(before + "\n" + after, part) <==> Occurs(before, part) || Occurs(after, part)
  {
    var text := before + "\n" + after;
    if Occurs(text, part) {
      OnOneSide(before, after, part);
    }
    if Occurs(before, part) {
      OccursInLonger("", before, "\n" + after, part);
      assert "" + before + ("\n" + after) == text;
    }
    if Occurs(after, part) {
      OccursInLonger(before + "\n", after, "", part);
      assert before + "\n" + after + "" == text;
    }
  }

  lemma OccursInItself(part: string)
    ensures Occurs(part, part)
  {
    assert part[0..|part|] == part;
    assert OccursAt(part, part, 0);
  }

  /** A comment carries a stamp exactly if it was posted under that marker or its text quotes the stamp. */
  lemma StampsInContent(body: string, a: string, b: string)
    requires MarkerOk(a) && MarkerOk(b)
    ensures Occurs(Content(body, a), Stamp(b)) <==> a == b || Occurs(RStrip(body), Stamp(b))
  {
    StampShape(b);
    var text, stamp, part := RStrip(body), Stamp(a), Stamp(b);
    OneSide(text, "\n" + stamp, part);
    OneSide("", stamp, part);
    assert text + "\n" + ("\n" + stamp) == text + "\n\n" + stamp && "" + "\n" + stamp == "\n" + stamp;
    assert !Occurs("", part);
    if Occurs(stamp, part) {
      StampInStamp(a, b);
    }
    OccursInItself(part);
  }

  /* ---------- look, then post ---------- */

  datatype Look = NotThere | Found(item: Json) | Unreadable

  /** The first decisive item; no verdict means that reading the item raises an error. */
  function LookFor(items: seq<Json>, judge: Json -> Option<bool>): Look {
    if items == [] then NotThere
    else match judge(items[0])
         case None => Unreadable
         case Some(wanted) => if wanted then Found(items[0]) else LookFor(items[1..], judge)
  }

  /** What becomes of the request: stored or not, and whether the caller gets a usable answer. */
  datatype Post = Stored(acknowledged: bool) | NotStored(uncertain: bool)

  datatype Reply = Refused | Existing(item: Json) | Blocked | Posted | Uncertain | Failed

  /** The server's collection, the part a query lists, and how it is paged. */
  datatype Remote = Remote(items: seq<Json>, size: nat, scheme: Scheme)

  function Listed(items: seq<Json>, query: Json -> bool): (r: seq<Json>)
    ensures forall x :: x in r <==> x in items && query(x)
  {
    if items == [] then [] else (if query(items[0]) then [items[0]] else []) + Listed(items[1..], query)
  }

  function Discover(remote: Remote, query: Json -> bool): Listing {
    Traverse(Honest(Listed(remote.items, query), remote.size, remote.scheme), First, [], [])
  }

  function Tool(remote: Remote, query: Json -> bool, judge: Json -> Option<bool>, created: Json, post: Post): (Remote, Reply) {
    var listing := Discover(remote, query);
    match LookFor(listing.items, judge)
    case Found(item) => (remote, Existing(item))
    case Unreadable => (remote, Blocked)
    case NotThere =>
      if !listing.complete then (remote, Blocked)
      else match post
           case Stored(acknowledged) => (remote.(items := remote.items + [created]), if acknowledged then Posted else Uncertain)
           case NotStored(uncertain) => (remote, if uncertain then Uncertain else Failed)
  }

  /* ---------- comments ---------- */

  function BodyText(c: Json, show: Json -> string): string {
    if c.Object? then TextOf(Get(c, "body", Null), show) else ""
  }

  predicate Stamped(c: Json, marker: string, show: Json -> string) {
    Occurs(BodyText(c, show), Stamp(marker))
  }

  predicate NumericId(c: Json) {
    c.Object? && "id" in c.fields
    && match c.fields["id"]
       case Number(n) => n >= 0
       case Text(t) => t != "" && forall x | x in t :: '0' <= x <= '9'
       case _ => false
  }

  function JudgeComment(marker: string, show: Json -> string): Json -> Option<bool> {
    c => if !Stamped(c, marker, show) then Some(false) else if NumericId(c) then Some(true) else None
  }

  function NewComment(cloud: bool, body: string, marker: string, id: nat): Json {
    Object(map["id" := Number(id), "body" := if cloud then CloudDocument(Content(body, marker)) else Text(Content(body, marker))])
  }

  function CommentTool(remote: Remote, cloud: bool, body: string, marker: string, id: nat, post: Post, show: Json -> string): (Remote, Reply) {
    if !MarkerOk(marker) || Blank(body) then (remote, Refused)
    else Tool(remote, _ => true, JudgeComment(marker, show), NewComment(cloud, body, marker, id), post)
  }

  /* ---------- pull requests ---------- */

  /** `dict.get` on something that may not be a dictionary. */
  function Dig(v: Option<Json>, key: string, default: Json): Option<Json> {
    if v.None? || !v.value.Object? then None else Some(Get(v.value, key, default))
  }

  const HEADS := "refs/heads/"

  function RemovePrefix(s: string, prefix: string): string {
    if prefix <= s then s[|prefix|..] else s
  }

  datatype Pair = Pair(owner: string, repository: string, source: string, target: string)

  /** The branch pair of a pull request as `_normalize_pr` reads it; `None` where it raises. */
  function CloudPair(data: Json, owner: string, repository: string): Option<(Json, Json, Json)> {
    var source, target := Dig(Some(data), "source", Object(map[])), Dig(Some(data), "destination", Object(map[]));
    var from := Dig(Dig(source, "branch", Object(map[])), "name", Text(""));
    var to := Dig(Dig(target, "branch", Object(map[])), "name", Text(""));
    var repo := Dig(Dig(source, "repository", Object(map[])), "full_name", Text(owner + "/" + repository));
    if !NumericId(data) || Dig(source, "commit", Object(map[])).None? || from.None? || to.None? || repo.None? then None
    else Some((from.value, to.value, repo.value))
  }

  /** How an f-string writes a value. */
  function Formatted(v: Json, show: Json -> string): string {
    if v.Text? then v.text else show(v)
  }

  function DataCenterPair(data: Json, owner: string, repository: string, show: Json -> string): Option<Pair> {
    var source, target := Dig(Some(data), "fromRef", Object(map[])), Dig(Some(data), "toRef", Object(map[]));
    var from, to := Dig(source, "id", Text("")), Dig(target, "id", Text(""));
    var repo := Dig(source, "repository", Object(map[]));
    var key, slug := Dig(Dig(repo, "project", Object(map[])), "key", Text(owner)), Dig(repo, "slug", Text(repository));
    if !NumericId(data) || from.None? || to.None? || key.None? || slug.None? then None
    else if !from.value.Text? || !to.value.Text? then None
    else Some(Pair(Formatted(key.value, show), Formatted(slug.value, show), RemovePrefix(from.value.text, HEADS), RemovePrefix(to.value.text, HEADS)))
  }

  predicate PartChar(c: char) {
    (MarkerChar(c) && c != ':') || c == '~'
  }

  /** One side of `workspace/repository`. */
  predicate PartOk(part: string) {
    part != "" && (forall c | c in part :: PartChar(c)) && part != "." && part != ".."
  }

  function UpperChar(c: char): char {
    if 'a' <= c <= 'z' then (c as int - 32) as char else c
  }

  function Upper(s: string): string {
    seq(|s|, i requires 0 <= i < |s| => UpperChar(s[i]))
  }

  /** The existing pull request is the wanted one; `None` where reading it raises. */
  function JudgePullRequest(cloud: bool, p: Pair, show: Json -> string): Json -> Option<bool> {
    data =>
      if cloud then
        var found := CloudPair(data, p.owner, p.repository);
        if found.None? then None
        else Some(found.value == (Text(p.source), Text(p.target), Text(p.owner + "/" + p.repository)))
      else
        var found := DataCenterPair(data, p.owner, p.repository, show);
        if found.None? then None
        else if found.value.source != p.source || found.value.target != p.target then Some(false)
        else if !PartOk(found.value.owner) || !PartOk(found.value.repository) then None
        else Some(Upper(found.value.owner) == Upper(p.owner) && found.value.repository == p.repository)
  }

  function CloudSide(branch: string): map<string, Json> {
    map["branch" := Object(map["name" := Text(branch)])]
  }

  /** What an honest server makes of the request: Cloud names the repository as asked, Data Center writes the
      project key in upper case. */
  function NewPullRequest(cloud: bool, p: Pair, id: nat): Json {
    if cloud then
      Object(map["id" := Number(id), "destination" := Object(CloudSide(p.target)),
                 "source" := Object(CloudSide(p.source)["repository" := Object(map["full_name" := Text(p.owner + "/" + p.repository)])])])
    else
      Object(map["id" := Number(id), "toRef" := Object(map["id" := Text(HEADS + p.target)]),
                 "fromRef" := Object(map["id" := Text(HEADS + p.source),
                                         "repository" := Object(map["slug" := Text(p.repository),
                                                                    "project" := Object(map["key" := Text(Upper(p.owner))])])])])
  }

  predicate PairOk(p: Pair) {
    PartOk(p.owner) && PartOk(p.repository) && p.source != "" && p.target != "" && p.source != p.target
  }

  function PullRequestTool(remote: Remote, query: Json -> bool, cloud: bool, p: Pair, title: string, id: nat, post: Post, show: Json -> string): (Remote, Reply) {
    if !PairOk(p) || Blank(title) then (remote, Refused)
    else Tool(remote, query, JudgePullRequest(cloud, p, show), NewPullRequest(cloud, p, id), post)
  }

  /* ---------- the tools ---------- */

  method Scan(items: seq<Json>, judge: Json -> Option<bool>) returns (look: Look)
    ensures look == LookFor(items, judge)
  {
    for i := 0 to |items|
      invariant LookFor(items[i..], judge) == LookFor(items, judge)
    {
      var verdict := judge(items[i]);
      if verdict.None? { return Unreadable; }
      if verdict.value { return Found(items[i]); }
      assert items[i..][1..] == items[i + 1..];
    }
    return NotThere;
  }

  class Providers {
    var remote: Remote

    constructor (remote: Remote)
      ensures this.remote == remote
    {
      this.remote := remote;
    }

    /** Discovery, and the request if nothing was found. */
    method LookThenPost(query: Json -> bool, judge: Json -> Option<bool>, created: Json, post: Post) returns (reply: Reply)
      modifies this
      ensures (remote, reply) == old(Tool(remote, query, judge, created, post))
    {
      var listing := Pages(Honest(Listed(remote.items, query), remote.size, remote.scheme));
      var look := Scan(listing.items, judge);
      match look {
        case Found(item) => return Existing(item);
        case Unreadable => return Blocked;
        case NotThere =>
      }
      if !listing.complete { return Blocked; }
      if post.Stored? { remote := remote.(items := remote.items + [created]); }
      return match post
        case Stored(acknowledged) => if acknowledged then Posted else Uncertain
        case NotStored(uncertain) => if uncertain then Uncertain else Failed;
    }

    method CommentIssue(cloud: bool, body: string, marker: string, id: nat, post: Post, show: Json -> string) returns (reply: Reply)
      modifies this
      ensures (remote, reply) == old(CommentTool(remote, cloud, body, marker, id, post, show))
    {
      if !MarkerOk(marker) || Blank(body) { return Refused; }
      var content := RStrip(body) + "\n\n" + Stamp(marker);
      var payload := if cloud then CloudDocument(content) else Text(content);
      reply := LookThenPost(_ => true, JudgeComment(marker, show), Object(map["id" := Number(id), "body" := payload]), post);
    }

    method CreatePullRequest(query: Json -> bool, cloud: bool, p: Pair, title: string, id: nat, post: Post, show: Json -> string) returns (reply: Reply)
      modifies this
      ensures (remote, reply) == old(PullRequestTool(remote, query, cloud, p, title, id, post, show))
    {
      if !PairOk(p) || Blank(title) { return Refused; }
      reply := LookThenPost(query, JudgePullRequest(cloud, p, show), NewPullRequest(cloud, p, id), post);
    }
  }

  /* ---------- repeating a call ---------- */

  predicate Wanted(judge: Json -> Option<bool>, item: Json) {
    judge(item) != Some(false)
  }

  lemma {:induction false} NotThereMeansNone(items: seq<Json>, judge: Json -> Option<bool>)
    requires LookFor(items, judge) == NotThere
    ensures forall x :: x in items ==> !Wanted(judge, x)
  {
    if items != [] {
      NotThereMeansNone(items[1..], judge);
      assert items == [items[0]] + items[1..];
    }
  }

  /** The server is honest: its items are objects, its pages hold at least one, and the query lists all wanted ones. */
  ghost predicate HonestRemote(remote: Remote, query: Json -> bool, judge: Json -> Option<bool>) {
    && remote.size > 0 && AllObjects(remote.items) && LinksOk(remote.scheme)
    && forall x :: x in remote.items && Wanted(judge, x) ==> query(x)
  }

  /** With a wanted item on the server nothing is posted, whether discovery ends or overflows. */
  lemma PostsOnlyTheFirst(remote: Remote, query: Json -> bool, judge: Json -> Option<bool>, created: Json, post: Post)
    requires HonestRemote(remote, query, judge)
    ensures var (after, reply) := Tool(remote, query, judge, created, post);
            && (after == remote || (post.Stored? && after == remote.(items := remote.items + [created])))
            && ((exists x :: x in remote.items && Wanted(judge, x)) ==> after == remote)
            && (|Listed(remote.items, query)| > MAX_PAGES * remote.size ==> after == remote)
  {
    var listed := Listed(remote.items, query);
    HonestListing(listed, remote.size, remote.scheme);
    var listing := Discover(remote, query);
    if LookFor(listing.items, judge) == NotThere {
      NotThereMeansNone(listing.items, judge);
    }
  }

  /* ---------- what one attempt does, exactly ---------- */

  /** The listed items that discovery can reach. */
  function Reach(remote: Remote, query: Json -> bool): seq<Json> {
    Take(Listed(remote.items, query), MAX_PAGES * remote.size)
  }

  /** The i-th item decides: it is wanted, or cannot be read, and none before it is either. */
  ghost predicate Decides(items: seq<Json>, judge: Json -> Option<bool>, i: nat) {
    i < |items| && Wanted(judge, items[i]) && forall k :: 0 <= k < i ==> !Wanted(judge, items[k])
  }

  lemma {:induction false} FirstDecides(items: seq<Json>, judge: Json -> Option<bool>, i: nat)
    requires Decides(items, judge, i)
    ensures LookFor(items, judge) == if judge(items[i]).Some? then Found(items[i]) else Unreadable
  {
    if i > 0 {
      assert !Wanted(judge, items[0]);
      assert forall k :: 0 <= k < i - 1 ==> items[1..][k] == items[k + 1];
      FirstDecides(items[1..], judge, i - 1);
    }
  }

  lemma {:induction false} NoneIsNotThere(items: seq<Json>, judge: Json -> Option<bool>)
    requires forall x :: x in items ==> !Wanted(judge, x)
    ensures LookFor(items, judge) == NotThere
  {
    if items != [] {
      assert items == [items[0]] + items[1..] && !Wanted(judge, items[0]);
      NoneIsNotThere(items[1..], judge);
    }
  }

  lemma {:induction false} SomethingDecides(items: seq<Json>, judge: Json -> Option<bool>) returns (i: nat)
    requires exists x :: x in items && Wanted(judge, x)
    ensures Decides(items, judge, i)
  {
    if Wanted(judge, items[0]) {
      i := 0;
    } else {
      assert items == [items[0]] + items[1..];
      i := SomethingDecides(items[1..], judge);
      assert forall k :: 0 < k < i + 1 ==> items[k] == items[1..][k - 1];
      i := i + 1;
    }
  }

  /** What the tool does, by what it sees of the items in reach. */
  lemma ToolLooksInReach(remote: Remote, query: Json -> bool, judge: Json -> Option<bool>, created: Json, post: Post)
    requires HonestRemote(remote, query, judge)
    ensures var look, (after, reply) := LookFor(Reach(remote, query), judge), Tool(remote, query, judge, created, post);
            && (look.Found? ==> after == remote && reply == Existing(look.item)) && (look.Unreadable? ==> after == remote && reply == Blocked)
            && (look.NotThere? && |Listed(remote.items, query)| > MAX_PAGES * remote.size ==> after == remote && reply == Blocked)
  {
    HonestListing(Listed(remote.items, query), remote.size, remote.scheme);
    assert Discover(remote, query).items == Reach(remote, query);
  }

  /** With a wanted or unreadable item in reach the first of them decides: it is returned, or blocks the request. */
  lemma DecisiveItemDecides(remote: Remote, query: Json -> bool, judge: Json -> Option<bool>, created: Json, post: Post, i: nat)
    requires HonestRemote(remote, query, judge) && Decides(Reach(remote, query), judge, i)
    ensures var item := Reach(remote, query)[i];
            Tool(remote, query, judge, created, post) == (remote, if judge(item).Some? then Existing(item) else Blocked)
  {
    ToolLooksInReach(remote, query, judge, created, post);
    FirstDecides(Reach(remote, query), judge, i);
  }

  /** Without one, the request is made exactly if discovery saw everything.  It then adds the item exactly if the server
      stored it, and the reply tells: posted if stored and acknowledged, failed if definitely not stored, uncertain
      otherwise. */
  lemma AttemptsExactly(remote: Remote, query: Json -> bool, judge: Json -> Option<bool>, created: Json, post: Post)
    requires HonestRemote(remote, query, judge) && forall x :: x in Reach(remote, query) ==> !Wanted(judge, x)
    ensures var (after, reply) := Tool(remote, query, judge, created, post);
            if |Listed(remote.items, query)| > MAX_PAGES * remote.size then after == remote && reply == Blocked
            else
              && after.items == remote.items + (if post.Stored? then [created] else []) && after.(items := remote.items) == remote
              && (reply == Posted <==> post.Stored? && post.acknowledged)
              && (reply == Failed <==> post.NotStored? && !post.uncertain)
              && (reply == Uncertain <==> (post.Stored? && !post.acknowledged) || (post.NotStored? && post.uncertain))
              && (forall x :: x in remote.items ==> !Wanted(judge, x))
  {
    HonestListing(Listed(remote.items, query), remote.size, remote.scheme);
    NoneIsNotThere(Reach(remote, query), judge);
    if |Listed(remote.items, query)| <= MAX_PAGES * remote.size {
      forall x | x in remote.items ensures !Wanted(judge, x) {
        assert Wanted(judge, x) ==> x in Reach(remote, query);
      }
    }
  }

  lemma WantedIsFound(items: seq<Json>, judge: Json -> Option<bool>)
    requires (forall x :: x in items ==> judge(x).Some?) && exists x :: x in items && judge(x) == Some(true)
    ensures var look := LookFor(items, judge); look.Found? && look.item in items && judge(look.item) == Some(true)
  {
    var x :| x in items && judge(x) == Some(true);
    assert Wanted(judge, x);
    var i := SomethingDecides(items, judge);
    assert Wanted(judge, items[i]) && items[i] in items;
    FirstDecides(items, judge, i);
  }

  /** If all items in reach can be read and one is wanted, a wanted one is returned and nothing is requested. */
  lemma WantedItemIsReturned(remote: Remote, query: Json -> bool, judge: Json -> Option<bool>, created: Json, post: Post)
    requires HonestRemote(remote, query, judge) && (forall x :: x in Reach(remote, query) ==> judge(x).Some?)
    requires exists x :: x in Reach(remote, query) && judge(x) == Some(true)
    ensures var (after, reply) := Tool(remote, query, judge, created, post);
            after == remote && reply.Existing? && reply.item in Reach(remote, query) && judge(reply.item) == Some(true)
  {
    var reach := Reach(remote, query);
    WantedIsFound(reach, judge);
    ToolLooksInReach(remote, query, judge, created, post);
  }

  /** Attempts by the tool, with any outcome, between things that others do to unwanted items or by removing. */
  datatype Event = Attempt(created: Json, post: Post) | Adds(item: Json) | Removes(i: nat)

  function Happen(remote: Remote, query: Json -> bool, judge: Json -> Option<bool>, e: Event): Remote {
    match e
    case Attempt(created, post) => Tool(remote, query, judge, created, post).0
    case Adds(item) => remote.(items := remote.items + [item])
    case Removes(i) => if i < |remote.items| then remote.(items := remote.items[..i] + remote.items[i + 1..]) else remote
  }

  function Run(remote: Remote, query: Json -> bool, judge: Json -> Option<bool>, events: seq<Event>): Remote
    decreases |events|
  {
    if events == [] then remote else Run(Happen(remote, query, judge, events[0]), query, judge, events[1..])
  }

  function CountWanted(items: seq<Json>, judge: Json -> Option<bool>): nat {
    if items == [] then 0 else (if Wanted(judge, items[0]) then 1 else 0) + CountWanted(items[1..], judge)
  }

  lemma {:induction false} CountConcat(a: seq<Json>, b: seq<Json>, judge: Json -> Option<bool>)
    ensures CountWanted(a + b, judge) == CountWanted(a, judge) + CountWanted(b, judge)
  {
    if a == [] {
      assert a + b == b;
    } else {
      CountConcat(a[1..], b, judge);
      assert (a + b)[1..] == a[1..] + b;
    }
  }

  lemma {:induction false} CountZero(items: seq<Json>, judge: Json -> Option<bool>)
    requires forall x :: x in items ==> !Wanted(judge, x)
    ensures CountWanted(items, judge) == 0
  {
    if items != [] {
      CountZero(items[1..], judge);
    }
  }

  ghost predicate Fair(query: Json -> bool, judge: Json -> Option<bool>, e: Event) {
    match e
    case Attempt(created, _) => created.Object? && query(created)
    case Adds(item) => item.Object? && !Wanted(judge, item)
    case Removes(_) => true
  }

  lemma RemovalCounts(items: seq<Json>, i: nat, judge: Json -> Option<bool>)
    requires i < |items|
    ensures CountWanted(items[..i] + items[i + 1..], judge) <= CountWanted(items, judge)
  {
    var before, after := items[..i], items[i..];
    assert items == before + after && after[1..] == items[i + 1..];
    CountConcat(before, after, judge);
    CountConcat(before, items[i + 1..], judge);
  }

  lemma AttemptCounts(remote: Remote, query: Json -> bool, judge: Json -> Option<bool>, created: Json, post: Post)
    requires HonestRemote(remote, query, judge) && created.Object? && query(created)
    ensures var after := Tool(remote, query, judge, created, post).0;
            HonestRemote(after, query, judge) && (after == remote || CountWanted(after.items, judge) <= 1)
  {
    PostsOnlyTheFirst(remote, query, judge, created, post);
    CountConcat(remote.items, [created], judge);
    if Tool(remote, query, judge, created, post).0 != remote {
      CountZero(remote.items, judge);
    }
  }

  lemma EventAddsAtMostTheFirst(remote: Remote, query: Json -> bool, judge: Json -> Option<bool>, e: Event)
    requires HonestRemote(remote, query, judge) && Fair(query, judge, e)
    ensures var after := Happen(remote, query, judge, e);
            HonestRemote(after, query, judge)
            && (CountWanted(after.items, judge) <= CountWanted(remote.items, judge) || CountWanted(after.items, judge) <= 1)
  {
    match e
    case Attempt(created, post) => AttemptCounts(remote, query, judge, created, post);
    case Adds(item) => CountConcat(remote.items, [item], judge);
    case Removes(i) =>
      if i < |remote.items| {
        RemovalCounts(remote.items, i, judge);
      }
  }

  /** Over any run the tool leaves at most one wanted item, unless more were there to begin with. */
  lemma {:induction false} RepeatsLeaveOne(remote: Remote, query: Json -> bool, judge: Json -> Option<bool>, events: seq<Event>)
    requires HonestRemote(remote, query, judge) && forall e :: e in events ==> Fair(query, judge, e)
    ensures CountWanted(Run(remote, query, judge, events).items, judge) <= if CountWanted(remote.items, judge) > 1 then CountWanted(remote.items, judge) else 1
    decreases |events|
  {
    if events != [] {
      EventAddsAtMostTheFirst(remote, query, judge, events[0]);
      RepeatsLeaveOne(Happen(remote, query, judge, events[0]), query, judge, events[1..]);
    }
  }

  /** A comment posted under `a` is found again under `b` exactly if `a` is `b` or its text quotes the stamp of
      `b`; a quoted stamp therefore suppresses another task's comment. */
  lemma PostedCommentIsFound(cloud: bool, body: string, a: string, b: string, id: nat, show: Json -> string)
    requires MarkerOk(a) && MarkerOk(b)
    ensures Wanted(JudgeComment(b, show), NewComment(cloud, body, a, id)) <==> a == b || Occurs(RStrip(body), Stamp(b))
  {
    StampsInContent(body, a, b);
    NewCommentText(cloud, body, a, id, show);
    LineEndHidesNothing(Content(body, a), b);
  }

  /** The text of a posted comment: what it was given, without trailing white space, an empty line and the stamp. */
  lemma NewCommentText(cloud: bool, body: string, marker: string, id: nat, show: Json -> string)
    ensures BodyText(NewComment(cloud, body, marker, id), show)
            == RStrip(body) + "\n\n" + ("[masteragent:" + marker + "]") + if cloud then "\n" else ""
    ensures NumericId(NewComment(cloud, body, marker, id))
  {
    DocumentText(Content(body, marker), show);
    assert "body" != "id";
    assert Content(body, marker) + "" == Content(body, marker);
  }

  lemma LineEndHidesNothing(content: string, marker: string)
    requires MarkerOk(marker)
    ensures Occurs(content + "\n", Stamp(marker)) <==> Occurs(content, Stamp(marker))
  {
    StampShape(marker);
    OneSide(content, "", Stamp(marker));
    assert content + "\n" + "" == content + "\n";
  }

  /** A created pull request is recognised later, so creating it again reuses it. */
  lemma CreatedPullRequestIsFound(cloud: bool, p: Pair, id: nat, show: Json -> string)
    requires PairOk(p)
    ensures JudgePullRequest(cloud, p, show)(NewPullRequest(cloud, p, id)) == Some(true)
  {
    PullRequestsAreToldApart(cloud, p, p, id, show);
  }

  lemma UpperTwice(s: string)
    requires PartOk(s)
    ensures Upper(Upper(s)) == Upper(s) && PartOk(Upper(s))
  {
    forall c | c in Upper(s) ensures PartChar(c) {
      var i :| 0 <= i < |s| && Upper(s)[i] == c;
      assert s[i] in s;
    }
    assert s[0] in s && Upper(s)[0] == UpperChar(s[0]);
    assert |s| > 1 ==> s[1] in s && Upper(s)[1] == UpperChar(s[1]);
    assert |s| == 1 ==> s == [s[0]];
    assert |s| == 2 ==> s == [s[0], s[1]];
  }

  /** Once a comment is stored, even with its answer lost, no later call under the marker stores another one,
      whatever text it is given and whatever comments of other people came in between. */
  lemma SecondCommentPostsNothing(before: Remote, after: Remote, cloud: bool, body: string, again: string, marker: string,
                                  id: nat, later: nat, acknowledged: bool, post: Post, show: Json -> string)
    requires CommentTool(before, cloud, body, marker, id, Stored(acknowledged), show).1 in {Posted, Uncertain}
    requires after.size > 0 && AllObjects(after.items) && LinksOk(after.scheme) && NewComment(cloud, body, marker, id) in after.items
    ensures NewComment(cloud, body, marker, id) in CommentTool(before, cloud, body, marker, id, Stored(acknowledged), show).0.items
    ensures CommentTool(after, cloud, again, marker, later, post, show).0 == after
  {
    PostedCommentIsFound(cloud, body, marker, marker, id, show);
    PostsOnlyTheFirst(after, _ => true, JudgeComment(marker, show), NewComment(cloud, again, marker, later), post);
  }

  /** The same for pull requests, as long as the first one stays open and the query lists it. */
  lemma SecondPullRequestPostsNothing(after: Remote, query: Json -> bool, cloud: bool, p: Pair, title: string, id: nat, later: nat,
                                      post: Post, show: Json -> string)
    requires PairOk(p) && HonestRemote(after, query, JudgePullRequest(cloud, p, show)) && NewPullRequest(cloud, p, id) in after.items
    ensures PullRequestTool(after, query, cloud, p, title, later, post, show).0 == after
  {
    CreatedPullRequestIsFound(cloud, p, id, show);
    PostsOnlyTheFirst(after, query, JudgePullRequest(cloud, p, show), NewPullRequest(cloud, p, later), post);
  }

  /* ---------- what a first call leaves, and what is told apart ---------- */

  lemma {:induction false} EverythingIsListed(items: seq<Json>)
    ensures Listed(items, _ => true) == items
  {
    if items != [] {
      EverythingIsListed(items[1..]);
      assert items == [items[0]] + items[1..];
    }
  }

  predicate WordChar(c: char) {
    c in "ABCDEFGHIJKLMNOPQRSTUVWXYZ" || c in "abcdefghijklmnopqrstuvwxyz" || c in "0123456789" || c == '_'
  }

  /** `[A-Za-z0-9_.:-]{1,120}`. */
  predicate Markable(marker: string) {
    0 < |marker| < 121 && forall k :: 0 <= k < |marker| ==> WordChar(marker[k]) || marker[k] in ".:-"
  }

  lemma WordChars(c: char)
    ensures WordChar(c) <==> 'A' <= c <= 'Z' || 'a' <= c <= 'z' || '0' <= c <= '9' || c == '_'
  {
    InRange("ABCDEFGHIJKLMNOPQRSTUVWXYZ", 'A', c);
    InRange("abcdefghijklmnopqrstuvwxyz", 'a', c);
    InRange("0123456789", '0', c);
  }

  /** A text of consecutive characters has exactly the characters of that range. */
  lemma InRange(text: string, first: char, c: char)
    requires forall k :: 0 <= k < |text| ==> text[k] as int == first as int + k
    ensures c in text <==> first as int <= c as int < first as int + |text|
  {
    if first as int <= c as int < first as int + |text| {
      assert text[c as int - first as int] == c;
    }
  }

  lemma MarkersAreMarkable(marker: string)
    ensures MarkerOk(marker) <==> Markable(marker)
  {
    forall k | 0 <= k < |marker| ensures MarkerChar(marker[k]) <==> WordChar(marker[k]) || marker[k] in ".:-" {
      WordChars(marker[k]);
    }
    assert forall k :: 0 <= k < |marker| ==> marker[k] in marker;
  }

  /** `[A-Za-z0-9_~.-]+`, and no dot name. */
  predicate Nameable(part: string) {
    |part| > 0 && part != "." && part != ".." && forall k :: 0 <= k < |part| ==> WordChar(part[k]) || part[k] in "~.-"
  }

  /** The repository can be named, and the branches are given and differ. */
  predicate Openable(p: Pair) {
    Nameable(p.owner) && Nameable(p.repository) && |p.source| > 0 && |p.target| > 0 && p.source != p.target
  }

  lemma PartsAreNameable(part: string)
    ensures PartOk(part) <==> Nameable(part)
  {
    forall k | 0 <= k < |part| ensures PartChar(part[k]) <==> WordChar(part[k]) || part[k] in "~.-" {
      WordChars(part[k]);
    }
    assert forall k :: 0 <= k < |part| ==> part[k] in part;
  }

  /** A call with a good marker and text that finds no comment with its stamp on at most ten pages posts one comment
      and says how that went; any other marker or text is refused. */
  lemma FirstCommentIsPosted(remote: Remote, cloud: bool, body: string, marker: string, id: nat, post: Post, show: Json -> string)
    requires remote.size > 0 && AllObjects(remote.items) && LinksOk(remote.scheme) && |remote.items| <= MAX_PAGES * remote.size
    requires forall x :: x in remote.items ==> !Occurs(BodyText(x, show), "[masteragent:" + marker + "]")
    ensures var (after, reply) := CommentTool(remote, cloud, body, marker, id, post, show);
            if Markable(marker) && exists i :: 0 <= i < |body| && !IsSpace(body[i]) then
              && after.items == remote.items + (if post.Stored? then [NewComment(cloud, body, marker, id)] else []) && after.(items := remote.items) == remote
              && (reply == Posted <==> post == Stored(true)) && (reply == Failed <==> post == NotStored(false))
              && (reply == Uncertain <==> post == Stored(false) || post == NotStored(true))
            else after == remote && reply == Refused
  {
    MarkersAreMarkable(marker);
    if MarkerOk(marker) && exists i :: 0 <= i < |body| && !IsSpace(body[i]) {
      var judge, created := JudgeComment(marker, show), NewComment(cloud, body, marker, id);
      EverythingIsListed(remote.items);
      forall x | x in remote.items ensures !Wanted(judge, x) {
        assert !Stamped(x, marker, show);
      }
      AttemptsExactly(remote, _ => true, judge, created, post);
    }
  }

  /** Two pairs name the same branches of one repository; Data Center does not distinguish the case of project keys. */
  predicate SamePair(cloud: bool, p: Pair, q: Pair) {
    && p.source == q.source && p.target == q.target && p.repository == q.repository
    && if cloud then p.owner == q.owner else Upper(p.owner) == Upper(q.owner)
  }

  lemma {:induction false} NoSlash(a: string, b: string, c: string, d: string)
    requires '/' !in a && '/' !in c && a + "/" + b == c + "/" + d
    ensures a == c && b == d
  {
    assert (a != "" ==> a[0] in a) && (c != "" ==> c[0] in c);
    assert (a + "/" + b)[0] == if a == "" then '/' else a[0];
    assert (c + "/" + d)[0] == if c == "" then '/' else c[0];
    if a == "" {
      assert c == "" && (a + "/" + b)[1..] == b && (c + "/" + d)[1..] == d;
    } else {
      assert (a + "/" + b)[1..] == a[1..] + "/" + b && (c + "/" + d)[1..] == c[1..] + "/" + d;
      NoSlash(a[1..], b, c[1..], d);
      assert a == [a[0]] + a[1..] && c == [c[0]] + c[1..];
    }
  }

  lemma CloudPairsApart(p: Pair, q: Pair, id: nat)
    ensures CloudPair(NewPullRequest(true, q, id), p.owner, p.repository) == Some((Text(q.source), Text(q.target), Text(q.owner + "/" + q.repository)))
  {
    assert "id"[0] != "source"[0];
    assert "repository"[0] != "branch"[0];
  }

  lemma DataCenterPairsApart(p: Pair, q: Pair, id: nat, show: Json -> string)
    ensures DataCenterPair(NewPullRequest(false, q, id), p.owner, p.repository, show) == Some(Pair(Upper(q.owner), q.repository, q.source, q.target))
  {
    assert "fromRef"[0] != "toRef"[0] && "slug"[0] != "project"[0];
    assert (HEADS + q.source)[|HEADS|..] == q.source && (HEADS + q.target)[|HEADS|..] == q.target;
  }

  /** A pull request is taken for the requested one exactly if it is one of the same pair. */
  lemma PullRequestsAreToldApart(cloud: bool, p: Pair, q: Pair, id: nat, show: Json -> string)
    requires PairOk(p) && PairOk(q)
    ensures JudgePullRequest(cloud, p, show)(NewPullRequest(cloud, q, id)) == Some(SamePair(cloud, p, q))
  {
    if cloud {
      CloudPairsApart(p, q, id);
      assert '/' !in p.owner && '/' !in q.owner by {
        assert !PartChar('/');
      }
      if p.owner + "/" + p.repository == q.owner + "/" + q.repository {
        NoSlash(p.owner, p.repository, q.owner, q.repository);
      }
    } else {
      DataCenterPairsApart(p, q, id, show);
      UpperTwice(q.owner);
    }
  }

  /** So on a server whose open pull requests are of other pairs, on at most ten pages, the first call posts. */
  lemma FirstPullRequestIsPosted(remote: Remote, query: Json -> bool, cloud: bool, p: Pair, title: string, id: nat, post: Post, show: Json -> string)
    requires HonestRemote(remote, query, JudgePullRequest(cloud, p, show)) && |Listed(remote.items, query)| <= MAX_PAGES * remote.size
    requires forall x :: x in remote.items ==> exists q, n: nat :: PairOk(q) && x == NewPullRequest(cloud, q, n) && !SamePair(cloud, p, q)
    ensures var (after, reply) := PullRequestTool(remote, query, cloud, p, title, id, post, show);
            if Openable(p) && exists i :: 0 <= i < |title| && !IsSpace(title[i]) then
              && after.items == remote.items + (if post.Stored? then [NewPullRequest(cloud, p, id)] else []) && after.(items := remote.items) == remote
              && (reply == Posted <==> post == Stored(true)) && (reply == Failed <==> post == NotStored(false))
              && (reply == Uncertain <==> post == Stored(false) || post == NotStored(true))
            else after == remote && reply == Refused
  {
    PartsAreNameable(p.owner);
    PartsAreNameable(p.repository);
    if PairOk(p) && exists i :: 0 <= i < |title| && !IsSpace(title[i]) {
      var judge := JudgePullRequest(cloud, p, show);
      forall x | x in remote.items ensures !Wanted(judge, x) {
        var q, n: nat :| PairOk(q) && x == NewPullRequest(cloud, q, n) && !SamePair(cloud, p, q);
        PullRequestsAreToldApart(cloud, p, q, n, show);
      }
      AttemptsExactly(remote, query, judge, NewPullRequest(cloud, p, id), post);
    }
  }

  /** A pull request whose ID is missing or not a number blocks the request, unless a matching one comes before it. */
  lemma PullRequestWithoutIdBlocks(remote: Remote, query: Json -> bool, cloud: bool, p: Pair, title: string, id: nat, post: Post, show: Json -> string, i: nat)
    requires HonestRemote(remote, query, JudgePullRequest(cloud, p, show)) && PairOk(p) && !Blank(title) && i < |Reach(remote, query)|
    requires forall k :: 0 <= k < i ==> !Wanted(JudgePullRequest(cloud, p, show), Reach(remote, query)[k])
    requires !("id" in Reach(remote, query)[i].fields) || (Reach(remote, query)[i].fields["id"].Number? && Reach(remote, query)[i].fields["id"].n < 0)
    ensures PullRequestTool(remote, query, cloud, p, title, id, post, show) == (remote, Blocked)
  {
    var judge := JudgePullRequest(cloud, p, show);
    assert judge(Reach(remote, query)[i]) == None;
    assert Decides(Reach(remote, query), judge, i);
    DecisiveItemDecides(remote, query, judge, NewPullRequest(cloud, p, id), post, i);
  }

  /** So does a comment that carries the stamp but no such ID. */
  lemma CommentWithoutIdBlocks(remote: Remote, cloud: bool, body: string, marker: string, id: nat, post: Post, show: Json -> string, i: nat)
    requires remote.size > 0 && AllObjects(remote.items) && LinksOk(remote.scheme) && MarkerOk(marker) && !Blank(body)
    requires i < |remote.items| && i < MAX_PAGES * remote.size
    requires forall k :: 0 <= k < i ==> !Occurs(BodyText(remote.items[k], show), Stamp(marker))
    requires Occurs(BodyText(remote.items[i], show), Stamp(marker)) && !("id" in remote.items[i].fields)
    ensures CommentTool(remote, cloud, body, marker, id, post, show) == (remote, Blocked)
  {
    var judge := JudgeComment(marker, show);
    EverythingIsListed(remote.items);
    assert forall k :: 0 <= k <= i ==> Reach(remote, _ => true)[k] == remote.items[k];
    forall k | 0 <= k < i ensures !Wanted(judge, remote.items[k]) {
      assert !Stamped(remote.items[k], marker, show);
    }
    assert judge(remote.items[i]) == None;
    assert Decides(Reach(remote, _ => true), judge, i);
    DecisiveItemDecides(remote, _ => true, judge, NewComment(cloud, body, marker, id), post, i);
  }
}
