/** The golden file of non-passing jobs (pkg/tc39/expect.go): loading, writing and comparing. */
module Expectations {
  import opened Types
  import opened Strings

  type Statuses = map<JobId, string>

  // ---------------------------------------------------------------- loading

  /** One line of the snapshot: the ID and its status, or nothing for a blank, a comment, or a line
      without a space. */
  function ParseLine(line: string): Option<(JobId, string)> {
    var t := Trim(line);
    if t == "" || t[0] == '#' then None
    else
      match Cut(t, ' ')
      case None => None
      case Some((status, id)) => Some((id, status))
  }

  function Load(lines: seq<string>): Statuses {
    if lines == [] then map[]
    else
      var n := |lines| - 1;
      match ParseLine(lines[n])
      case None => Load(lines[..n])
      case Some((id, status)) => Load(lines[..n])[id := status]
  }

  method LoadExpectations(data: Option<string>) returns (out: Statuses)
    ensures out == if data.Some? then Load(Split(data.value)) else map[]
  {
    out := map[];
    if data.None? { return; }
    var lines := Split(data.value);
    var i := 0;
    while i < |lines|
      invariant 0 <= i <= |lines| && out == Load(lines[..i])
    {
      assert lines[..i + 1][..i] == lines[..i];
      var line := Trim(lines[i]);
      i := i + 1;
      if line == "" || line[0] == '#' { continue; }
      var cut := Cut(line, ' ');
      if cut.None? { continue; }
      out := out[cut.value.1 := cut.value.0];
    }
    assert lines[..i] == lines;
  }

  // ---------------------------------------------------------------- one line

  /** What a status and an ID must look like for their line to read back. */
  predicate Plain(status: string, id: JobId) {
    status != "" && ' ' !in status && !IsSpace(status[0]) && status[0] != '#' && id != "" && !IsSpace(id[|id| - 1])
  }

  lemma {:induction false} CutAtFirst(a: string, b: string)
    ensures ' ' !in a ==> Cut(a + [' '] + b, ' ') == Some((a, b))
  {
    var s := a + [' '] + b;
    if a == "" {
      assert s[1..] == b;
    } else if ' ' !in a {
      assert s[1..] == a[1..] + [' '] + b;
      CutAtFirst(a[1..], b);
      assert [a[0]] + a[1..] == a;
    }
  }

  lemma {:induction false} CutShape(s: string)
    ensures match Cut(s, ' ')
            case None => ' ' !in s
            case Some((a, b)) => s == a + [' '] + b && ' ' !in a
  {
    if s != "" && s[0] != ' ' {
      CutShape(s[1..]);
      assert s == [s[0]] + s[1..];
    }
  }

  lemma {:induction false} TrimShape(s: string)
    ensures Trim(s) == s <==> s == "" || (!IsSpace(s[0]) && !IsSpace(s[|s| - 1]))
    ensures Trim(s) != s ==> |Trim(s)| < |s|
  {
    TrimLeftShape(s);
    TrimRightShape(TrimLeft(s));
  }

  lemma {:induction false} TrimLeftShape(s: string)
    ensures if s == "" || !IsSpace(s[0]) then TrimLeft(s) == s else |TrimLeft(s)| < |s|
  {
    if s != "" && IsSpace(s[0]) { TrimLeftShape(s[1..]); }
  }

  lemma {:induction false} TrimRightShape(s: string)
    ensures if s == "" || !IsSpace(s[|s| - 1]) then TrimRight(s) == s else |TrimRight(s)| < |s|
  {
    if s != "" && IsSpace(s[|s| - 1]) { TrimRightShape(s[..|s| - 1]); }
  }

  /** A line reads back as the status and ID it was written for exactly when they are plain. */
  lemma {:induction false} LineReadsBackIff(status: string, id: JobId)
    ensures ParseLine(status + [' '] + id) == Some((id, status)) <==> Plain(status, id)
  {
    var line := status + [' '] + id;
    TrimShape(line);
    CutAtFirst(status, id);
    var t := Trim(line);
    if t != line {
      // anything that reads back has the length of the line, which the trim made shorter
      assert |t| < |line|;
      CutShape(t);
    }
    if ' ' in status {
      CutShape(t);
    }
    if id != "" { assert line[|line| - 1] == id[|id| - 1]; } else { assert line[|line| - 1] == ' '; }
    if status != "" { assert line[0] == status[0]; } else { assert line[0] == ' '; }
  }

  // ---------------------------------------------------------------- the whole file

  predicate OneLine(s: string) {
    '\n' !in s
  }

  function Unlines(lines: seq<string>): string {
    if lines == [] then "" else lines[0] + (['\n'] + Unlines(lines[1..]))
  }

  lemma {:induction false} SplitFirst(line: string, rest: string)
    requires OneLine(line)
    ensures Split(line + (['\n'] + rest)) == [line] + Split(rest)
  {
    var s := line + (['\n'] + rest);
    if line == "" {
      assert s[1..] == rest;
    } else {
      assert s[1..] == line[1..] + (['\n'] + rest);
      SplitFirst(line[1..], rest);
      assert [line[0]] + line[1..] == line;
    }
  }

  lemma {:induction false} SplitUnlines(lines: seq<string>)
    requires forall k :: 0 <= k < |lines| ==> OneLine(lines[k])
    ensures Split(Unlines(lines)) == lines + [""]
  {
    if lines == [] {
    } else {
      SplitFirst(lines[0], Unlines(lines[1..]));
      SplitUnlines(lines[1..]);
      assert [lines[0]] + (lines[1..] + [""]) == lines + [""];
    }
  }

  const HEADER := ["# Non-passing jobs, one " + "\"<status> <job id>\" per line.",
                   "# Regenerate with bento262 run -update."]

  function BodyLines(ids: seq<JobId>, results: map<JobId, Result>): (lines: seq<string>)
    requires forall id :: id in ids ==> id in results
    ensures |lines| == |ids| && forall k :: 0 <= k < |ids| ==> lines[k] == results[ids[k]].status + [' '] + ids[k]
  {
    seq(|ids|, k requires 0 <= k < |ids| => results[ids[k]].status + [' '] + ids[k])
  }

  function Rendered(ids: seq<JobId>, results: map<JobId, Result>): string
    requires forall id :: id in ids ==> id in results
  {
    Unlines(HEADER + BodyLines(ids, results))
  }

  /** Byte-wise order of IDs. */
  predicate Less(a: string, b: string) {
    b != "" && (a == "" || a[0] < b[0] || (a[0] == b[0] && Less(a[1..], b[1..])))
  }

  /** The texts agree up to `k`, where `a` ends or holds the smaller byte. */
  predicate SmallerFrom(a: string, b: string, k: nat) {
    k <= |a| && k < |b| && a[..k] == b[..k] && (k == |a| || a[k] < b[k])
  }

  lemma {:induction false} FirstByteAgrees(a: string, b: string, k: nat)
    ensures SmallerFrom(a, b, k) && k > 0 ==> a[0] == b[0]
  {
    if SmallerFrom(a, b, k) && k > 0 { assert a[..k][0] == b[..k][0]; }
  }

  /** The order is that of the first byte in which the texts differ; a text comes before those it starts. */
  lemma {:induction false} LessMeans(a: string, b: string)
    ensures Less(a, b) <==> exists k: nat :: SmallerFrom(a, b, k)
  {
    if b != "" && a != "" && a[0] == b[0] {
      LessMeans(a[1..], b[1..]);
      if k: nat :| SmallerFrom(a, b, k) {
        assert k > 0;
        assert a[1..][..k - 1] == a[..k][1..] == b[..k][1..] == b[1..][..k - 1];
        assert SmallerFrom(a[1..], b[1..], k - 1);
      }
      if k: nat :| SmallerFrom(a[1..], b[1..], k) {
        assert a[..k + 1] == [a[0]] + a[1..][..k] && b[..k + 1] == [b[0]] + b[1..][..k];
        assert SmallerFrom(a, b, k + 1);
      }
    } else if b != "" && (a == "" || a[0] < b[0]) {
      assert SmallerFrom(a, b, 0);
    } else {
      forall k: nat ensures !SmallerFrom(a, b, k) { FirstByteAgrees(a, b, k); }
    }
  }

  lemma {:induction false} LessTotal(a: string, b: string)
    ensures !(Less(a, b) && Less(b, a)) && !Less(a, a) && (a != b ==> Less(a, b) || Less(b, a))
  {
    if a != "" { LessTotal(a[1..], a[1..]); }
    if a != "" && b != "" {
      LessTotal(a[1..], b[1..]);
      assert a == [a[0]] + a[1..] && b == [b[0]] + b[1..];
    }
  }

  lemma {:induction false} LessTransitive(a: string, b: string, c: string)
    requires Less(a, b) && Less(b, c)
    ensures Less(a, c)
  {
    if a != "" && a[0] == b[0] == c[0] { LessTransitive(a[1..], b[1..], c[1..]); }
  }

  ghost predicate Ascending(ids: seq<JobId>) {
    forall a, b :: 0 <= a < b < |ids| ==> Less(ids[a], ids[b])
  }

  function InsertId(id: JobId, ids: seq<JobId>): seq<JobId> {
    if ids == [] || Less(id, ids[0]) then [id] + ids else [ids[0]] + InsertId(id, ids[1..])
  }

  lemma {:induction false} InsertIdSorts(id: JobId, ids: seq<JobId>)
    requires Ascending(ids) && id !in ids
    ensures Ascending(InsertId(id, ids)) && forall x :: x in InsertId(id, ids) <==> x == id || x in ids
  {
    if ids == [] {
    } else {
      LessTotal(id, ids[0]);
      if Less(id, ids[0]) {
        forall k | 0 <= k < |ids| ensures Less(id, ids[k]) {
          if k > 0 { LessTransitive(id, ids[0], ids[k]); }
        }
      } else {
        InsertIdSorts(id, ids[1..]);
        var rest := InsertId(id, ids[1..]);
        forall k | 0 <= k < |rest| ensures Less(ids[0], rest[k]) {
          if rest[k] != id { assert rest[k] in ids[1..]; }
        }
      }
    }
  }

  /** The IDs of `results` with a property, sorted. */
  method SortedIds(results: map<JobId, Result>, pick: set<JobId>) returns (ids: seq<JobId>)
    ensures Ascending(ids) && forall id :: id in ids <==> id in results && id in pick
  {
    ids := [];
    var rest := results.Keys;
    while rest != {}
      invariant rest <= results.Keys
      invariant Ascending(ids) && forall id :: id in ids <==> id in results && id !in rest && id in pick
      decreases rest
    {
      var id :| id in rest;
      rest := rest - {id};
      if id in pick {
        InsertIdSorts(id, ids);
        ids := InsertId(id, ids);
      }
    }
  }

  function NonPassing(results: map<JobId, Result>): Statuses {
    map id | id in results && results[id].status != "pass" :: results[id].status
  }

  /** The snapshot of the results: the header, then a line for each non-passing job, in the order of IDs. */
  ghost predicate IsSnapshot(text: string, results: map<JobId, Result>) {
    exists ids :: Snapshots(ids, results) && text == Rendered(ids, results)
  }

  ghost predicate Snapshots(ids: seq<JobId>, results: map<JobId, Result>) {
    Ascending(ids) &&
    (forall id :: id in ids <==> id in NonPassing(results)) && forall id :: id in ids ==> id in results
  }

  method WriteExpectations(results: map<JobId, Result>) returns (text: string)
    ensures IsSnapshot(text, results)
  {
    var ids := SortedIds(results, set id | id in results && results[id].status != "pass");
    text := "";
    var lines := HEADER + BodyLines(ids, results);
    var i := |lines|;
    while i > 0
      invariant 0 <= i <= |lines| && text == Unlines(lines[i..])
    {
      i := i - 1;
      assert lines[i..][1..] == lines[i + 1..];
      text := lines[i] + (['\n'] + text);
    }
    assert lines[0..] == lines;
    assert Snapshots(ids, results);
  }

  /** What can be read back of the results: each non-passing one has a plain status and a plain ID, both
      on one line. */
  predicate Readable(results: map<JobId, Result>) {
    forall id :: id in results && results[id].status != "pass" ==>
      Plain(results[id].status, id) && OneLine(results[id].status) && OneLine(id)
  }

  lemma {:induction false} LoadOne(lines: seq<string>, l: string)
    ensures Load(lines + [l]) ==
            match ParseLine(l) case None => Load(lines) case Some((id, status)) => Load(lines)[id := status]
  {
    assert (lines + [l])[..|lines|] == lines;
  }

  function Picked(ids: seq<JobId>, results: map<JobId, Result>): Statuses
    requires forall id :: id in ids ==> id in results
  {
    map id | id in ids :: results[id].status
  }

  /** The lines read as the IDs with their statuses, one after the other. */
  ghost predicate Reads(body: seq<string>, ids: seq<JobId>, results: map<JobId, Result>) {
    |body| == |ids| &&
    forall k :: 0 <= k < |ids| ==> ids[k] in results && ReadsAs(body[k], ids[k], results[ids[k]].status)
  }

  ghost predicate ReadsAs(line: string, id: JobId, status: string) {
    ParseLine(line) == Some((id, status))
  }

  lemma {:induction false} LoadStep(lines: seq<string>, was: Statuses, l: string, id: JobId, status: string)
    requires Load(lines) == was && ReadsAs(l, id, status)
    ensures Load(lines + [l]) == was[id := status]
  {
    LoadOne(lines, l);
  }

  lemma {:induction false} ReadsLess(body: seq<string>, ids: seq<JobId>, results: map<JobId, Result>)
    requires ids != [] && Reads(body, ids, results)
    ensures var n := |ids| - 1; Reads(body[..n], ids[..n], results) && ReadsAs(body[n], ids[n], results[ids[n]].status)
    ensures forall id :: id in ids ==> id in results
    ensures body == body[..|ids| - 1] + [body[|ids| - 1]]
  {
  }

  lemma {:induction false} LoadBody(header: seq<string>, body: seq<string>, ids: seq<JobId>,
                                    results: map<JobId, Result>)
    requires Reads(body, ids, results) && (forall id :: id in ids ==> id in results) && Load(header) == map[]
    ensures Load(header + body) == Picked(ids, results)
  {
    if ids == [] {
      assert header + body == header;
    } else {
      var n := |ids| - 1;
      ReadsLess(body, ids, results);
      LoadBody(header, body[..n], ids[..n], results);
      LoadStep(header + body[..n], Picked(ids[..n], results), body[n], ids[n], results[ids[n]].status);
      assert header + body == header + body[..n] + [body[n]];
      PickedMore(ids, results);
    }
  }

  lemma {:induction false} PickedMore(ids: seq<JobId>, results: map<JobId, Result>)
    requires ids != [] && forall id :: id in ids ==> id in results
    ensures Picked(ids, results) == Picked(ids[..|ids| - 1], results)[ids[|ids| - 1] := results[ids[|ids| - 1]].status]
  {
    var n := |ids| - 1;
    assert ids == ids[..n] + [ids[n]];
    assert forall id :: id in ids <==> id in ids[..n] || id == ids[n];
  }

  lemma {:induction false} TrimRightKeepsFirst(s: string)
    requires s != "" && !IsSpace(s[0])
    ensures TrimRight(s) != "" && TrimRight(s)[0] == s[0]
  {
    if IsSpace(s[|s| - 1]) { TrimRightKeepsFirst(s[..|s| - 1]); }
  }

  /** Comments load as nothing. */
  lemma {:induction false} CommentSkipped(line: string)
    requires line != "" && line[0] == '#'
    ensures ParseLine(line).None?
  {
    TrimRightKeepsFirst(line);
  }

  lemma {:induction false} HeaderLoadsNothing()
    ensures Load(HEADER) == map[]
  {
    CommentSkipped(HEADER[0]);
    CommentSkipped(HEADER[1]);
    LoadOne([], HEADER[0]);
    LoadOne([HEADER[0]], HEADER[1]);
    assert [] + [HEADER[0]] == [HEADER[0]] && [HEADER[0]] + [HEADER[1]] == HEADER;
  }

  lemma {:induction false} HeaderOnOneLine()
    ensures OneLine(HEADER[0]) && OneLine(HEADER[1])
  {
  }

  lemma {:induction false} TrimLeftEnds(s: string)
    ensures TrimLeft(s) != "" ==> !IsSpace(TrimLeft(s)[0])
    ensures forall c :: c in TrimLeft(s) ==> c in s
  {
    if s != "" && IsSpace(s[0]) { TrimLeftEnds(s[1..]); }
  }

  lemma {:induction false} TrimRightEnds(s: string)
    ensures TrimRight(s) != "" ==> !IsSpace(TrimRight(s)[|TrimRight(s)| - 1]) && TrimRight(s)[0] == s[0]
    ensures forall c :: c in TrimRight(s) ==> c in s
  {
    if s != "" && IsSpace(s[|s| - 1]) { TrimRightEnds(s[..|s| - 1]); }
  }

  /** Whatever a line reads as is plain and on one line. */
  lemma {:induction false} ParsedIsPlain(line: string, id: JobId, status: string)
    requires OneLine(line) && ReadsAs(line, id, status)
    ensures Plain(status, id) && OneLine(status) && OneLine(id)
  {
    var t := Trim(line);
    TrimLeftEnds(line);
    TrimRightEnds(TrimLeft(line));
    CutShape(t);
    assert t == status + [' '] + id;
    assert t[|status|] == ' ';
    assert forall c :: c in status || c in id ==> c in t;
  }

  lemma {:induction false} SplitsToLines(s: string)
    ensures forall k :: 0 <= k < |Split(s)| ==> OneLine(Split(s)[k])
  {
    if s != "" { SplitsToLines(s[1..]); }
  }

  lemma {:induction false} LoadedFromLine(lines: seq<string>, id: JobId)
    requires id in Load(lines)
    ensures exists k :: 0 <= k < |lines| && ReadsAs(lines[k], id, Load(lines)[id])
  {
    var n := |lines| - 1;
    if ParseLine(lines[n]).None? || ParseLine(lines[n]).value.0 != id {
      LoadedFromLine(lines[..n], id);
      var k :| 0 <= k < n && ReadsAs(lines[..n][k], id, Load(lines[..n])[id]);
      assert lines[..n][k] == lines[k];
    } else {
      assert ReadsAs(lines[n], id, Load(lines)[id]);
    }
  }

  lemma {:induction false} LoadedIsReadable(text: string, results: map<JobId, Result>)
    requires Load(Split(text)) == NonPassing(results)
    ensures Readable(results)
  {
    SplitsToLines(text);
    var lines := Split(text);
    forall id | id in results && results[id].status != "pass"
      ensures Plain(results[id].status, id) && OneLine(results[id].status) && OneLine(id)
    {
      assert id in NonPassing(results);
      LoadedFromLine(lines, id);
      var k :| 0 <= k < |lines| && ReadsAs(lines[k], id, Load(lines)[id]);
      ParsedIsPlain(lines[k], id, results[id].status);
    }
  }

  /** Golden-file round trip: the snapshot loads as exactly the non-passing entries, if and only if their
      statuses and IDs are plain and on one line. */
  lemma {:induction false} RoundTrip(results: map<JobId, Result>, text: string)
    requires IsSnapshot(text, results)
    ensures Load(Split(text)) == NonPassing(results) <==> Readable(results)
  {
    if Load(Split(text)) == NonPassing(results) { LoadedIsReadable(text, results); }
    if Readable(results) {
      var ids :| Snapshots(ids, results) && text == Rendered(ids, results);
      RenderedSplits(ids, results);
      BodyReads(ids, results);
      HeaderLoadsNothing();
      LoadBody(HEADER, BodyLines(ids, results), ids, results);
      PicksNonPassing(ids, results);
    }
  }

  lemma {:induction false} RenderedSplits(ids: seq<JobId>, results: map<JobId, Result>)
    requires Snapshots(ids, results) && Readable(results)
    ensures Load(Split(Rendered(ids, results))) == Load(HEADER + BodyLines(ids, results))
  {
    var lines := HEADER + BodyLines(ids, results);
    BodyReads(ids, results);
    HeaderOnOneLine();
    forall k | 0 <= k < |lines| ensures OneLine(lines[k]) {
      if k >= 2 { assert lines[k] == BodyLines(ids, results)[k - 2]; }
    }
    SplitUnlines(lines);
    LoadOne(lines, "");
  }

  lemma {:induction false} PicksNonPassing(ids: seq<JobId>, results: map<JobId, Result>)
    requires Snapshots(ids, results)
    ensures Picked(ids, results) == NonPassing(results)
  {
  }

  lemma {:induction false} BodyReads(ids: seq<JobId>, results: map<JobId, Result>)
    requires Snapshots(ids, results) && Readable(results)
    ensures Reads(BodyLines(ids, results), ids, results)
    ensures forall k :: 0 <= k < |ids| ==> OneLine(BodyLines(ids, results)[k])
  {
    forall k | 0 <= k < |ids|
      ensures ReadsAs(BodyLines(ids, results)[k], ids[k], results[ids[k]].status) && OneLine(BodyLines(ids, results)[k])
    {
      assert ids[k] in ids;
      LineReadsBackIff(results[ids[k]].status, ids[k]);
    }
  }

  // ---------------------------------------------------------------- comparing

  datatype Change = Change(id: JobId, want: string, got: string)

  function Wanted(exp: Statuses, id: JobId): string {
    if id in exp then exp[id] else "pass"
  }

  /** The jobs whose status moved away from the snapshot. */
  function Drifted(results: map<JobId, Result>, exp: Statuses): set<JobId> {
    set id | id in results && results[id].status != Wanted(exp, id)
  }

  function Changes(ids: seq<JobId>, results: map<JobId, Result>, exp: Statuses): (cs: seq<Change>)
    requires forall k :: 0 <= k < |ids| ==> ids[k] in results
    ensures |cs| == |ids|
    ensures forall k :: 0 <= k < |ids| ==> cs[k] == ChangeOf(ids[k], results, exp)
  {
    seq(|ids|, k requires 0 <= k < |ids| => ChangeOf(ids[k], results, exp))
  }

  function ChangeOf(id: JobId, results: map<JobId, Result>, exp: Statuses): Change
    requires id in results
  {
    Change(id, Wanted(exp, id), results[id].status)
  }

  /** Both lists are sorted by ID; together they hold every drifted job once, the ones that now pass in
      the second. */
  method Diff(results: map<JobId, Result>, exp: Statuses) returns (regressions: seq<Change>, improvements: seq<Change>)
    ensures forall a, b :: 0 <= a < b < |regressions| ==> Less(regressions[a].id, regressions[b].id)
    ensures forall a, b :: 0 <= a < b < |improvements| ==> Less(improvements[a].id, improvements[b].id)
    ensures forall c :: c in regressions <==>
              c.id in Drifted(results, exp) && c.got != "pass" && c == ChangeOf(c.id, results, exp)
    ensures forall c :: c in improvements <==>
              c.id in Drifted(results, exp) && c.got == "pass" && c == ChangeOf(c.id, results, exp)
  {
    var worse, better: set<JobId> := {}, {};
    var rest := results.Keys;
    while rest != {}
      invariant rest <= results.Keys
      invariant forall id :: id in worse <==>
                  id in Drifted(results, exp) && id !in rest && results[id].status != "pass"
      invariant forall id :: id in better <==>
                  id in Drifted(results, exp) && id !in rest && results[id].status == "pass"
      decreases rest
    {
      var id :| id in rest;
      rest := rest - {id};
      var want := if id in exp then exp[id] else "pass";
      if results[id].status == want { continue; }
      if results[id].status == "pass" {
        better := better + {id};
      } else {
        worse := worse + {id};
      }
    }
    var ids := SortedIds(results, worse);
    assert forall k :: 0 <= k < |ids| ==> ids[k] in ids;
    regressions := Changes(ids, results, exp);
    ids := SortedIds(results, better);
    assert forall k :: 0 <= k < |ids| ==> ids[k] in ids;
    improvements := Changes(ids, results, exp);
  }

  /** A run drifts from the snapshot written from it nowhere. */
  lemma {:induction false} FreshSnapshotIsClean(results: map<JobId, Result>, text: string)
    requires IsSnapshot(text, results) && Readable(results)
    ensures Drifted(results, Load(Split(text))) == {}
  {
    RoundTrip(results, text);
  }
}
