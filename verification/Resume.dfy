/** Resumable runs (pkg/tc39/orchestrator.go, the cache branches of RunAll): a chain of runs that share
    one results cache, each stopped at any point of the run protocol. */
module Resume {
  import opened Types
  import opened RunProtocol
  import opened VerdictCache
  import opened CacheFile
  import Keys
  import opened Aot

  /** What executing a job under a compiler version yields. */
  type Judge = (Job, string) -> Verdict

  /** The jobs in play: in all of them the ID and the composed source fix the staged modules and names. */
  ghost predicate Pinned(corpus: set<Job>) {
    (forall j :: j in corpus ==> Keys.NulFreeJob(j)) &&
    forall j, k :: j in corpus && k in corpus && j.id == k.id && j.source == k.source ==>
      j.name == k.name && j.entryName == k.entryName && j.modules == k.modules
  }

  predicate DistinctIds(jobs: seq<Job>) {
    forall a, b :: 0 <= a < b < |jobs| ==> jobs[a].id != jobs[b].id
  }

  /** One run: its jobs and version, the options of its pool, whose list of jobs to do is not looked at,
      the state the pool was left in, and how many of the recorded results had reached the cache by then. */
  datatype Session = Session(jobs: seq<Job>, version: string, options: Config, end: Pool, puts: nat)

  function JobsOf(s: Session): set<Job> {
    set j | j in s.jobs
  }

  // ---------------------------------------------------------------- planning a run

  predicate Cached(entries: map<string, Entry>, version: string, j: Job) {
    Keys.JobPreimage(j, version) in entries
  }

  function CachedResult(entries: map<string, Entry>, version: string, j: Job): Result
    requires Cached(entries, version, j)
  {
    var e := entries[Keys.JobPreimage(j, version)];
    Result(j.id, e.status, e.error, "")
  }

  function Todo(entries: map<string, Entry>, version: string, jobs: seq<Job>): seq<Job> {
    if jobs == [] then []
    else if Cached(entries, version, jobs[0]) then Todo(entries, version, jobs[1..])
    else [jobs[0]] + Todo(entries, version, jobs[1..])
  }

  lemma {:induction false} TodoIs(entries: map<string, Entry>, version: string, jobs: seq<Job>, j: Job)
    ensures j in Todo(entries, version, jobs) <==> j in jobs && !Cached(entries, version, j)
  {
    if jobs == [] {
    } else {
      TodoIs(entries, version, jobs[1..], j);
    }
  }

  /** What is to do comes in the order of the jobs. */
  lemma {:induction false} TodoInOrder(entries: map<string, Entry>, version: string, jobs: seq<Job>, a: nat, b: nat)
    requires a < b < |Todo(entries, version, jobs)|
    ensures exists i: nat, j: nat :: i < j < |jobs| && jobs[i] == Todo(entries, version, jobs)[a] &&
              jobs[j] == Todo(entries, version, jobs)[b]
  {
    var rest := Todo(entries, version, jobs[1..]);
    if Cached(entries, version, jobs[0]) || a > 0 {
      var skipped := if Cached(entries, version, jobs[0]) then 0 else 1;
      var x, y := a - skipped, b - skipped;
      TodoInOrder(entries, version, jobs[1..], x, y);
      var i: nat, j: nat :| i < j < |jobs[1..]| && jobs[1..][i] == rest[x] && jobs[1..][j] == rest[y];
      assert jobs[i + 1] == Todo(entries, version, jobs)[a] && jobs[j + 1] == Todo(entries, version, jobs)[b];
    } else {
      TodoIs(entries, version, jobs[1..], rest[b - 1]);
      var j: nat :| j < |jobs[1..]| && jobs[1..][j] == rest[b - 1];
      assert jobs[j + 1] == Todo(entries, version, jobs)[b] && jobs[0] == Todo(entries, version, jobs)[a];
    }
  }

  /** The maps know exactly the first `n` jobs: each one's key, and the result of each hit. */
  ghost predicate Planned(entries: map<string, Entry>, version: string, jobs: seq<Job>, n: nat,
                          results: map<JobId, Result>, keys: map<JobId, string>)
    requires n <= |jobs|
  {
    (forall k :: 0 <= k < n ==> jobs[k].id in keys && keys[jobs[k].id] == Keys.JobPreimage(jobs[k], version)) &&
    (forall k :: 0 <= k < n ==>
       (jobs[k].id in results <==> Cached(entries, version, jobs[k])) &&
       (jobs[k].id in results ==> results[jobs[k].id] == CachedResult(entries, version, jobs[k]))) &&
    (forall id :: id in results ==> exists k :: 0 <= k < n && jobs[k].id == id)
  }

  lemma {:induction false} PlanOne(entries: map<string, Entry>, version: string, jobs: seq<Job>, n: nat,
                                   results: map<JobId, Result>, keys: map<JobId, string>)
    requires n < |jobs| && DistinctIds(jobs) && Planned(entries, version, jobs, n, results, keys)
    ensures var j := jobs[n];
            var more := keys[j.id := Keys.JobPreimage(j, version)];
            if Cached(entries, version, j) then
              Planned(entries, version, jobs, n + 1, results[j.id := CachedResult(entries, version, j)], more)
            else Planned(entries, version, jobs, n + 1, results, more)
  {
  }

  lemma {:induction false} TodoNext(entries: map<string, Entry>, version: string, jobs: seq<Job>, i: nat)
    requires i < |jobs|
    ensures Todo(entries, version, jobs[i..]) ==
            (if Cached(entries, version, jobs[i]) then [] else [jobs[i]]) + Todo(entries, version, jobs[i + 1..])
  {
    assert jobs[i..][1..] == jobs[i + 1..];
  }

  /** The first loop of RunAll: hits go straight to the results, the rest is to do. */
  method Plan(cache: Cache, version: string, jobs: seq<Job>)
    returns (results: map<JobId, Result>, keys: map<JobId, string>, todo: seq<Job>)
    requires DistinctIds(jobs)
    ensures todo == Todo(cache.entries, version, jobs)
    ensures Planned(cache.entries, version, jobs, |jobs|, results, keys)
  {
    results, keys, todo := map[], map[], [];
    var i := 0;
    assert jobs[0..] == jobs;
    while i < |jobs|
      invariant 0 <= i <= |jobs|
      invariant todo + Todo(cache.entries, version, jobs[i..]) == Todo(cache.entries, version, jobs)
      invariant Planned(cache.entries, version, jobs, i, results, keys)
    {
      var j := jobs[i];
      TodoNext(cache.entries, version, jobs, i);
      PlanOne(cache.entries, version, jobs, i, results, keys);
      var key := Keys.JobKey(j, version);
      keys := keys[j.id := key];
      var hit := cache.Get(key, j.id);
      if hit.Some? {
        results := results[j.id := hit.value];
      } else {
        todo := todo + [j];
      }
      i := i + 1;
    }
  }

  function Ids(jobs: seq<Job>): (ids: seq<JobId>)
    ensures |ids| == |jobs| && forall k :: 0 <= k < |jobs| ==> ids[k] == jobs[k].id
  {
    seq(|jobs|, k requires 0 <= k < |jobs| => jobs[k].id)
  }

  function ConfigOf(entries: map<string, Entry>, s: Session): Config {
    s.options.(todo := Ids(Todo(entries, s.version, s.jobs)))
  }

  // ---------------------------------------------------------------- one run

  /** A result says of the job with its ID what executing it says. */
  ghost predicate Right(judge: Judge, version: string, jobs: seq<Job>, r: Result) {
    exists k :: 0 <= k < |jobs| && jobs[k].id == r.id && Verdict(r.status, r.error) == judge(jobs[k], version)
  }

  ghost function RightOf(judge: Judge, s: Session): Result -> bool {
    r => Right(judge, s.version, s.jobs, r)
  }

  /** The run got from its start to its end with every subprocess answering right, or timing out or crashing
      over its job; it may end anywhere. */
  ghost predicate Happened(judge: Judge, entries: map<string, Entry>, s: Session) {
    DistinctIds(s.jobs) && Keys.NulFree(s.version) && s.options.workers > 0 && s.puts <= |s.end.record.log| &&
    RanTo(ConfigOf(entries, s), RightOf(judge, s), s.end)
  }

  function KeyOf(jobs: seq<Job>, version: string, id: JobId): string {
    if jobs == [] then ""
    else if jobs[0].id == id then Keys.JobPreimage(jobs[0], version)
    else KeyOf(jobs[1..], version, id)
  }

  lemma {:induction false} KeyOfJob(jobs: seq<Job>, version: string, k: nat)
    requires DistinctIds(jobs) && k < |jobs|
    ensures KeyOf(jobs, version, jobs[k].id) == Keys.JobPreimage(jobs[k], version)
  {
    if k == 0 {
    } else {
      KeyOfJob(jobs[1..], version, k - 1);
    }
  }

  /** What reached the cache: the recorded results in order, each under the key of its job. */
  function Recordings(s: Session, n: nat): (recs: seq<Recording>)
    requires n <= |s.end.record.log|
    ensures |recs| == n
    ensures forall k :: 0 <= k < n ==>
              recs[k] == Recording(KeyOf(s.jobs, s.version, s.end.record.log[k].id), s.end.record.log[k])
  {
    seq(n, k requires 0 <= k < n => Recording(KeyOf(s.jobs, s.version, s.end.record.log[k].id), s.end.record.log[k]))
  }

  lemma {:induction false} RecordingsPrefix(s: Session, n: nat, m: nat)
    requires m <= n <= |s.end.record.log|
    ensures Recordings(s, n)[..m] == Recordings(s, m)
  {
  }

  /** An entry says of the job behind its key what executing that job says. */
  ghost predicate EntryRight(corpus: set<Job>, judge: Judge, e: Entry) {
    forall j, v {:trigger Keys.JobPreimage(j, v)} ::
      j in corpus && Keys.NulFree(v) && Keys.JobPreimage(j, v) == e.key ==>
      Verdict(e.status, e.error) == judge(j, v)
  }

  ghost function Rightly(corpus: set<Job>, judge: Judge): Entry -> bool {
    e => EntryRight(corpus, judge, e)
  }

  /** Every entry is filed under its key and right. */
  ghost predicate SoundFor(corpus: set<Job>, judge: Judge, entries: map<string, Entry>) {
    FineMap(entries, Rightly(corpus, judge))
  }

  lemma {:induction false} EntrySound(corpus: set<Job>, judge: Judge, j: Job, version: string, r: Result)
    requires Pinned(corpus) && j in corpus && Keys.NulFree(version) && Verdict(r.status, r.error) == judge(j, version)
    ensures EntryRight(corpus, judge, EntryOf(Keys.JobPreimage(j, version), r))
  {
    forall k, v | k in corpus && Keys.NulFree(v) && Keys.JobPreimage(k, v) == Keys.JobPreimage(j, version)
      ensures k == j && v == version
    {
      Keys.JobKeyInjective(k, v, j, version);
    }
  }

  /** Recording a result that may be kept leaves the cache sound exactly when it is what executing the job
      under that version says. */
  lemma {:induction false} StaysSoundIff(corpus: set<Job>, judge: Judge, entries: map<string, Entry>, j: Job,
                                         version: string, r: Result)
    requires Pinned(corpus) && j in corpus && Keys.NulFree(version) && SoundFor(corpus, judge, entries)
    requires r.status != "timeout" && r.status != "crash" && !Cached(entries, version, j)
    ensures SoundFor(corpus, judge, WithResult(entries, Keys.JobPreimage(j, version), r)) <==>
            Verdict(r.status, r.error) == judge(j, version)
  {
    var key := Keys.JobPreimage(j, version);
    var more := WithResult(entries, key, r);
    assert more[key] == EntryOf(key, r);
    if Verdict(r.status, r.error) == judge(j, version) { EntrySound(corpus, judge, j, version, r); }
    if SoundFor(corpus, judge, more) { assert EntryRight(corpus, judge, more[key]); }
  }

  lemma {:induction false} KeysAreLong(j: Job, v: string)
    ensures Keys.JobPreimage(j, v) != ""
  {
  }

  lemma {:induction false} KeylessIsRight(corpus: set<Job>, judge: Judge)
    ensures forall e: Entry :: e.key == "" ==> Rightly(corpus, judge)(e)
  {
    forall j, v ensures Keys.JobPreimage(j, v) != "" { KeysAreLong(j, v); }
  }

  lemma {:induction false} HappenedIsHonest(judge: Judge, entries: map<string, Entry>, s: Session)
    requires Happened(judge, entries, s)
    ensures ValidConfig(ConfigOf(entries, s)) && Reachable(ConfigOf(entries, s), s.end)
    ensures HonestOk(s.end, RightOf(judge, s))
  {
    RanIsHonest(ConfigOf(entries, s), RightOf(judge, s), s.end);
    TodoDistinct(entries, s.version, s.jobs);
  }

  lemma {:induction false} LoggedWasTodo(c: Config, s: Pool, k: nat)
    requires ValidConfig(c) && Reachable(c, s) && k < |s.record.log|
    ensures s.record.log[k].id in c.todo
  {
    ReachableInv(c, s);
    InReplay(s.record.log);
  }

  lemma {:induction false} IdOfTodo(entries: map<string, Entry>, version: string, jobs: seq<Job>, id: JobId)
    returns (i: nat)
    requires id in Ids(Todo(entries, version, jobs))
    ensures i < |jobs| && jobs[i].id == id && jobs[i] in Todo(entries, version, jobs)
  {
    var todo := Todo(entries, version, jobs);
    var k :| 0 <= k < |Ids(todo)| && Ids(todo)[k] == id;
    TodoIs(entries, version, jobs, todo[k]);
    i :| 0 <= i < |jobs| && jobs[i] == todo[k];
  }

  /** In a run that happened, every recorded result is of a job of the run, and right or the machine's. */
  lemma {:induction false} RecordedRight(judge: Judge, entries: map<string, Entry>, s: Session, k: nat)
    requires Happened(judge, entries, s) && k < |s.end.record.log|
    ensures ValidConfig(ConfigOf(entries, s)) && Reachable(ConfigOf(entries, s), s.end)
    ensures exists i :: 0 <= i < |s.jobs| && s.jobs[i].id == s.end.record.log[k].id &&
              s.jobs[i] in Todo(entries, s.version, s.jobs)
    ensures Machine(s.end.record.log[k]) || Right(judge, s.version, s.jobs, s.end.record.log[k])
  {
    HappenedIsHonest(judge, entries, s);
    LoggedWasTodo(ConfigOf(entries, s), s.end, k);
    var i := IdOfTodo(entries, s.version, s.jobs, s.end.record.log[k].id);
  }

  lemma {:induction false} TodoDistinct(entries: map<string, Entry>, version: string, jobs: seq<Job>)
    requires DistinctIds(jobs)
    ensures DistinctIds(Todo(entries, version, jobs))
  {
    if jobs == [] {
    } else {
      var rest := Todo(entries, version, jobs[1..]);
      TodoDistinct(entries, version, jobs[1..]);
      forall k | 0 <= k < |rest| ensures rest[k].id != jobs[0].id {
        TodoIs(entries, version, jobs[1..], rest[k]);
      }
    }
  }

  lemma {:induction false} RightJob(judge: Judge, version: string, jobs: seq<Job>, i: nat, r: Result)
    requires DistinctIds(jobs) && i < |jobs| && jobs[i].id == r.id && Right(judge, version, jobs, r)
    ensures Verdict(r.status, r.error) == judge(jobs[i], version)
  {
  }

  /** The job behind the k-th recorded result, the key it is filed under, and what it must say. */
  lemma {:induction false} RecordedJob(judge: Judge, entries: map<string, Entry>, s: Session, k: nat) returns (i: nat)
    requires Happened(judge, entries, s) && k < |s.end.record.log|
    ensures i < |s.jobs| && s.jobs[i].id == s.end.record.log[k].id
    ensures KeyOf(s.jobs, s.version, s.end.record.log[k].id) == Keys.JobPreimage(s.jobs[i], s.version)
    ensures var r := s.end.record.log[k]; Cacheable(r) ==> Verdict(r.status, r.error) == judge(s.jobs[i], s.version)
  {
    RecordedRight(judge, entries, s, k);
    var r := s.end.record.log[k];
    i :| 0 <= i < |s.jobs| && s.jobs[i].id == r.id;
    KeyOfJob(s.jobs, s.version, i);
    if Cacheable(r) { RightJob(judge, s.version, s.jobs, i, r); }
  }

  lemma {:induction false} RecordingSound(corpus: set<Job>, judge: Judge, entries: map<string, Entry>, s: Session,
                                          k: nat)
    requires Pinned(corpus) && Happened(judge, entries, s) && k < |s.end.record.log| && Cacheable(s.end.record.log[k])
    requires JobsOf(s) <= corpus
    ensures EntryRight(corpus, judge, EntryOf(KeyOf(s.jobs, s.version, s.end.record.log[k].id), s.end.record.log[k]))
  {
    var i := RecordedJob(judge, entries, s, k);
    EntrySound(corpus, judge, s.jobs[i], s.version, s.end.record.log[k]);
  }

  lemma {:induction false} RecordingsFine(corpus: set<Job>, judge: Judge, entries: map<string, Entry>, s: Session,
                                          n: nat)
    requires Pinned(corpus) && Happened(judge, entries, s) && n <= |s.end.record.log| && JobsOf(s) <= corpus
    ensures FineRecordings(Recordings(s, n), Rightly(corpus, judge))
  {
    forall k | 0 <= k < n && Cacheable(Recordings(s, n)[k].r)
      ensures Rightly(corpus, judge)(EntryOf(Recordings(s, n)[k].key, Recordings(s, n)[k].r))
    {
      RecordingSound(corpus, judge, entries, s, k);
    }
  }

  /** Wherever a run stops, it leaves a sound cache sound. */
  lemma {:induction false} RunKeepsSound(corpus: set<Job>, judge: Judge, entries: map<string, Entry>, s: Session,
                                         n: nat)
    requires Pinned(corpus) && SoundFor(corpus, judge, entries) && Happened(judge, entries, s) && n <= s.puts
    requires JobsOf(s) <= corpus
    ensures SoundFor(corpus, judge, PutAll(entries, Recordings(s, n)))
  {
    RecordingsFine(corpus, judge, entries, s, n);
    PutAllFine(entries, Recordings(s, n), Rightly(corpus, judge));
  }

  lemma {:induction false} RecordingsKeyed(judge: Judge, entries: map<string, Entry>, s: Session, n: nat)
    requires Happened(judge, entries, s) && n <= |s.end.record.log|
    ensures forall k :: 0 <= k < n ==> Recordings(s, n)[k].key != ""
  {
    forall k | 0 <= k < n ensures Recordings(s, n)[k].key != "" {
      var i := RecordedJob(judge, entries, s, k);
    }
  }

  /** Killed at any point, a run on a whole file leaves one that the next run loads as exactly its entries. */
  lemma {:induction false} KilledRunReloads(judge: Judge, f: File, s: Session, n: nat)
    requires Happened(judge, Denote(f.lines), s) && n <= s.puts && !f.torn
    ensures Denote(Streamed(f, Recordings(s, n)).lines) == PutAll(Denote(f.lines), Recordings(s, n))
  {
    RecordingsKeyed(judge, Denote(f.lines), s, n);
    StreamRefines(f, Recordings(s, n));
  }

  // ---------------------------------------------------------------- a run that completes

  /** What a run returns for a job: the cached result, or the recorded one. */
  function Returned(entries: map<string, Entry>, s: Session, j: Job): Option<Result> {
    if Cached(entries, s.version, j) then Some(CachedResult(entries, s.version, j))
    else if j.id in s.end.record.results then Some(s.end.record.results[j.id])
    else None
  }

  /** The run went through: the collector exited, nobody aborted, and no result was the machine's fault. */
  ghost predicate Completed(judge: Judge, s: Session) {
    !s.end.chans.collecting && !s.end.aborted &&
    forall k :: 0 <= k < |s.end.record.log| ==> Right(judge, s.version, s.jobs, s.end.record.log[k])
  }

  lemma {:induction false} CompletedRecords(judge: Judge, entries: map<string, Entry>, s: Session, i: nat)
    requires Happened(judge, entries, s) && !s.end.chans.collecting && !s.end.aborted
    requires i < |s.jobs| && !Cached(entries, s.version, s.jobs[i])
    ensures s.jobs[i].id in s.end.record.results && s.end.record.results[s.jobs[i].id] in s.end.record.log
    ensures s.end.record.results[s.jobs[i].id].id == s.jobs[i].id
  {
    var c := ConfigOf(entries, s);
    var todo := Todo(entries, s.version, s.jobs);
    TodoIs(entries, s.version, s.jobs, s.jobs[i]);
    TodoDistinct(entries, s.version, s.jobs);
    var m :| 0 <= m < |todo| && todo[m] == s.jobs[i];
    assert c.todo[m] == s.jobs[i].id;
    assert ValidConfig(c) && Reachable(c, s.end);
    RunComplete(c, s.end);
    InReplay(s.end.record.log);
  }

  lemma {:induction false} CompletedReturns(corpus: set<Job>, judge: Judge, entries: map<string, Entry>, s: Session,
                                            i: nat)
    requires SoundFor(corpus, judge, entries) && Happened(judge, entries, s) && Completed(judge, s)
    requires i < |s.jobs| && s.jobs[i] in corpus
    ensures Returned(entries, s, s.jobs[i]).Some?
    ensures var r := Returned(entries, s, s.jobs[i]).value;
            r.id == s.jobs[i].id && Verdict(r.status, r.error) == judge(s.jobs[i], s.version)
  {
    var j := s.jobs[i];
    if !Cached(entries, s.version, j) {
      CompletedRecords(judge, entries, s, i);
      RightJob(judge, s.version, s.jobs, i, s.end.record.results[j.id]);
    }
  }

  // ---------------------------------------------------------------- chains of runs

  /** The recording a run was about to make when it stopped. */
  function NextOf(s: Session): Option<Recording> {
    if s.puts < |s.end.record.log| then
      var r := s.end.record.log[s.puts];
      Some(Recording(KeyOf(s.jobs, s.version, r.id), r))
    else None
  }

  /** One run and the file it leaves. */
  datatype Link = Link(s: Session, left: File)

  /** The run loaded file `f` and may have ended in any way. */
  ghost predicate GoodLink(corpus: set<Job>, judge: Judge, f: File, l: Link) {
    Proper(f) && Happened(judge, Denote(f.lines), l.s) && Leaves(f, Recordings(l.s, l.s.puts), NextOf(l.s), l.left) &&
    JobsOf(l.s) <= corpus
  }

  /** However a run ends, it leaves nothing on disk that is wrong. */
  lemma {:induction false} LeavesSound(corpus: set<Job>, judge: Judge, f: File, l: Link)
    requires Pinned(corpus) && AllFine(f.lines, Rightly(corpus, judge)) && GoodLink(corpus, judge, f, l)
    ensures AllFine(l.left.lines, Rightly(corpus, judge))
  {
    var s := l.s;
    RecordingsFine(corpus, judge, Denote(f.lines), s, s.puts);
    if NextOf(s).Some? && Cacheable(NextOf(s).value.r) { RecordingSound(corpus, judge, Denote(f.lines), s, s.puts); }
    KeylessIsRight(corpus, judge);
    LeavesFine(f, Recordings(s, s.puts), NextOf(s), l.left, Rightly(corpus, judge));
  }

  /** The file that run `n` of the chain loads. */
  function FileBefore(f: File, links: seq<Link>, n: nat): File
    requires n <= |links|
  {
    if n == 0 then f else links[n - 1].left
  }

  /** Each run loads the file the one before it left. */
  ghost predicate Chain(corpus: set<Job>, judge: Judge, f: File, links: seq<Link>) {
    forall n {:trigger FileBefore(f, links, n)} :: 0 <= n < |links| ==>
      GoodLink(corpus, judge, FileBefore(f, links, n), links[n])
  }

  function Final(f: File, links: seq<Link>): File {
    FileBefore(f, links, |links|)
  }

  lemma {:induction false} FinalRest(f: File, links: seq<Link>)
    requires links != []
    ensures Final(f, links) == Final(links[0].left, links[1..])
  {
  }

  lemma {:induction false} ChainParts(corpus: set<Job>, judge: Judge, f: File, links: seq<Link>)
    requires Chain(corpus, judge, f, links) && links != []
    ensures GoodLink(corpus, judge, f, links[0]) && Chain(corpus, judge, links[0].left, links[1..])
  {
    assert FileBefore(f, links, 0) == f;
    forall n | 0 <= n < |links[1..]|
      ensures GoodLink(corpus, judge, FileBefore(links[0].left, links[1..], n), links[1..][n])
    {
      assert FileBefore(f, links, n + 1) == FileBefore(links[0].left, links[1..], n);
    }
  }

  lemma {:induction false} ChainSound(corpus: set<Job>, judge: Judge, f: File, links: seq<Link>)
    requires Pinned(corpus) && AllFine(f.lines, Rightly(corpus, judge)) && Chain(corpus, judge, f, links)
    ensures AllFine(Final(f, links).lines, Rightly(corpus, judge))
    decreases |links|
  {
    if links == [] {
    } else {
      ChainParts(corpus, judge, f, links);
      FinalRest(f, links);
      LeavesSound(corpus, judge, f, links[0]);
      ChainSound(corpus, judge, links[0].left, links[1..]);
    }
  }

  /** After any chain of runs, aborted, killed between two writes or within one, or saved, a run that
      completes returns for each of its jobs the verdict of executing that job. */
  lemma {:induction false} ResumedIsRight(corpus: set<Job>, judge: Judge, links: seq<Link>, last: Session, i: nat)
    requires Pinned(corpus) && Chain(corpus, judge, EMPTY, links)
    requires Happened(judge, Denote(Final(EMPTY, links).lines), last) && Completed(judge, last)
    requires i < |last.jobs| && last.jobs[i] in corpus
    ensures var resumed := Returned(Denote(Final(EMPTY, links).lines), last, last.jobs[i]);
            resumed.Some? && resumed.value.id == last.jobs[i].id &&
            Verdict(resumed.value.status, resumed.value.error) == judge(last.jobs[i], last.version)
  {
    ChainSound(corpus, judge, EMPTY, links);
    LoadedFine(Final(EMPTY, links).lines, Rightly(corpus, judge));
    CompletedReturns(corpus, judge, Denote(Final(EMPTY, links).lines), last, i);
  }

  /** Resumability: what such a run returns for a job is what a completed run without a cache, under the
      same version, returns for it. */
  lemma {:induction false} ResumedEqualsPlain(corpus: set<Job>, judge: Judge, links: seq<Link>, last: Session,
                                              plain: Session, i: nat, k: nat)
    requires Pinned(corpus) && Chain(corpus, judge, EMPTY, links)
    requires Happened(judge, Denote(Final(EMPTY, links).lines), last) && Completed(judge, last)
    requires Happened(judge, map[], plain) && Completed(judge, plain)
    requires i < |last.jobs| && k < |plain.jobs| && last.jobs[i] == plain.jobs[k] && plain.jobs[k] in corpus
    requires last.version == plain.version
    ensures var resumed := Returned(Denote(Final(EMPTY, links).lines), last, last.jobs[i]);
            var uncached := Returned(map[], plain, plain.jobs[k]);
            resumed.Some? && uncached.Some? && resumed.value.id == uncached.value.id &&
            resumed.value.status == uncached.value.status && resumed.value.error == uncached.value.error
  {
    ResumedIsRight(corpus, judge, links, last, i);
    CompletedReturns(corpus, judge, map[], plain, k);
  }

  // ---------------------------------------------------------------- what is run again

  lemma {:induction false} HoldsFinal(corpus: set<Job>, judge: Judge, f: File, links: seq<Link>, key: string)
    requires OnFile(f, key) && Chain(corpus, judge, f, links)
    ensures OnFile(Final(f, links), key)
    decreases |links|
  {
    if links == [] {
    } else {
      ChainParts(corpus, judge, f, links);
      FinalRest(f, links);
      HeldStays(f, Recordings(links[0].s, links[0].s.puts), NextOf(links[0].s), links[0].left, key);
      HoldsFinal(corpus, judge, links[0].left, links[1..], key);
    }
  }

  /** Every cacheable result a run records is new to the cache it loaded, none sharing its key. */
  lemma {:induction false} RecordedIsNew(corpus: set<Job>, judge: Judge, f: File, s: Session, n: nat, k: nat)
    requires Pinned(corpus) && JobsOf(s) <= corpus && Happened(judge, Denote(f.lines), s) && k < n <= |s.end.record.log|
    ensures IsNew(f, Recordings(s, n), k) <==> Cacheable(s.end.record.log[k])
  {
    var key := KeyOf(s.jobs, s.version, s.end.record.log[k].id);
    RecordingsPrefix(s, n, k);
    RecordedUncached(judge, Denote(f.lines), s, k);
    forall m | 0 <= m < k ensures Recordings(s, k)[m].key != key {
      KeysDiffer(corpus, judge, Denote(f.lines), s, m, k);
    }
    NotPut(Denote(f.lines), Recordings(s, k), key);
  }

  lemma {:induction false} NotPut(entries: map<string, Entry>, recs: seq<Recording>, key: string)
    requires key !in entries && forall m :: 0 <= m < |recs| ==> recs[m].key != key
    ensures key !in PutAll(entries, recs)
  {
    if recs == [] {
    } else {
      NotPut(entries, recs[..|recs| - 1], key);
    }
  }

  lemma {:induction false} RecordedUncached(judge: Judge, entries: map<string, Entry>, s: Session, k: nat)
    requires Happened(judge, entries, s) && k < |s.end.record.log|
    ensures KeyOf(s.jobs, s.version, s.end.record.log[k].id) !in entries
  {
    RecordedRight(judge, entries, s, k);
    var i :| 0 <= i < |s.jobs| && s.jobs[i].id == s.end.record.log[k].id &&
      s.jobs[i] in Todo(entries, s.version, s.jobs);
    KeyOfJob(s.jobs, s.version, i);
    TodoIs(entries, s.version, s.jobs, s.jobs[i]);
  }

  lemma {:induction false} LogDistinct(judge: Judge, entries: map<string, Entry>, s: Session)
    requires Happened(judge, entries, s)
    ensures NoRepeat(s.end.record.log)
  {
    HappenedIsHonest(judge, entries, s);
    ReachableInv(ConfigOf(entries, s), s.end);
  }

  lemma {:induction false} KeysDiffer(corpus: set<Job>, judge: Judge, entries: map<string, Entry>, s: Session, m: nat,
                                      k: nat)
    requires Pinned(corpus) && JobsOf(s) <= corpus && Happened(judge, entries, s) && m < k < |s.end.record.log|
    ensures KeyOf(s.jobs, s.version, s.end.record.log[m].id) != KeyOf(s.jobs, s.version, s.end.record.log[k].id)
  {
    LogDistinct(judge, entries, s);
    var a := RecordedJob(judge, entries, s, m);
    var b := RecordedJob(judge, entries, s, k);
    Keys.JobKeyInjective(s.jobs[a], s.version, s.jobs[b], s.version);
  }

  /** A result was recorded before the k-th that is neither a timeout nor a crash. */
  ghost predicate CacheableBefore(s: Session, k: nat)
    requires k <= |s.end.record.log|
  {
    exists m :: 0 <= m < k && s.end.record.log[m].status != "timeout" && s.end.record.log[m].status != "crash"
  }

  lemma {:induction false} NewBeforeIff(corpus: set<Job>, judge: Judge, f: File, s: Session, n: nat, k: nat)
    requires Pinned(corpus) && JobsOf(s) <= corpus && Happened(judge, Denote(f.lines), s)
    requires k <= n <= |s.end.record.log|
    ensures NewBefore(f, Recordings(s, n), k) <==> CacheableBefore(s, k)
  {
    forall m | 0 <= m < k ensures IsNew(f, Recordings(s, n), m) <==> Cacheable(s.end.record.log[m]) {
      RecordedIsNew(corpus, judge, f, s, n, m);
    }
    if CacheableBefore(s, k) {
      var m :| 0 <= m < k && s.end.record.log[m].status != "timeout" && s.end.record.log[m].status != "crash";
      assert IsNew(f, Recordings(s, n), m);
    }
  }

  lemma {:induction false} StaysOnFile(corpus: set<Job>, judge: Judge, f: File, s: Session, n: nat, k: nat)
    requires Pinned(corpus) && JobsOf(s) <= corpus && Proper(f) && Happened(judge, Denote(f.lines), s)
    requires k < n <= s.puts && Cacheable(s.end.record.log[k])
    ensures var g, key := Streamed(f, Recordings(s, n)), KeyOf(s.jobs, s.version, s.end.record.log[k].id);
            (OnFile(g, key) <==> !f.torn || CacheableBefore(s, k)) &&
            (key in Denote(g.lines) <==> !f.torn || CacheableBefore(s, k))
  {
    RecordedIsNew(corpus, judge, f, s, n, k);
    NewBeforeIff(corpus, judge, f, s, n, k);
    RecordingsKeyed(judge, Denote(f.lines), s, n);
    FoundAgainIff(f, Recordings(s, n), k);
  }

  /** The job behind a result, neither a timeout nor a crash, that reached the cache of a run that is killed between two
      recordings, or ends without a Save, is handed to a worker again by the next run that lists it under
      the same version exactly if the file lacked its last newline and this was the first such result. */
  lemma {:induction false} RunsAgainIff(corpus: set<Job>, judge: Judge, f: File, s: Session, n: nat, k: nat, i: nat,
                                        jobs: seq<Job>)
    requires Pinned(corpus) && JobsOf(s) <= corpus && Proper(f) && Happened(judge, Denote(f.lines), s)
    requires k < n <= s.puts && s.end.record.log[k].status != "timeout" && s.end.record.log[k].status != "crash"
    requires i < |s.jobs| && s.jobs[i].id == s.end.record.log[k].id
    requires s.jobs[i] in jobs
    ensures s.jobs[i] in Todo(Denote(Streamed(f, Recordings(s, n)).lines), s.version, jobs) <==>
              f.torn && !CacheableBefore(s, k)
  {
    KeyOfJob(s.jobs, s.version, i);
    StaysOnFile(corpus, judge, f, s, n, k);
    TodoIs(Denote(Streamed(f, Recordings(s, n)).lines), s.version, jobs, s.jobs[i]);
  }

  lemma {:induction false} NewIsPut(f: File, recs: seq<Recording>, k: nat)
    requires Proper(f) && k < |recs| && IsNew(f, recs, k)
    ensures recs[k].key in PutAll(Denote(f.lines), recs)
  {
    assert recs[..k + 1][..k] == recs[..k];
    PutAllGrows(Denote(f.lines), recs, k + 1, recs[k].key);
  }

  lemma {:induction false} PutIsLeft(corpus: set<Job>, judge: Judge, f: File, l: Link, k: nat, key: string)
    requires Pinned(corpus) && GoodLink(corpus, judge, f, l) && k < l.s.puts && Cacheable(l.s.end.record.log[k])
    requires key == KeyOf(l.s.jobs, l.s.version, l.s.end.record.log[k].id) && (!f.torn || CacheableBefore(l.s, k))
    ensures OnFile(l.left, key)
  {
    var recs := Recordings(l.s, l.s.puts);
    StaysOnFile(corpus, judge, f, l.s, l.s.puts, k);
    RecordedIsNew(corpus, judge, f, l.s, l.s.puts, k);
    assert recs[k].key == key;
    NewIsPut(f, recs, k);
    HoldsLeft(f, recs, NextOf(l.s), l.left, key);
  }

  /** But for that one, a job whose cacheable result reached the cache is never handed to a worker again, by
      any later run that lists it under the same version, whatever way that run and the ones in between
      ended. */
  lemma {:induction false} NeverRunsAgain(corpus: set<Job>, judge: Judge, f: File, links: seq<Link>, k: nat, i: nat,
                                          jobs: seq<Job>)
    requires Pinned(corpus) && Chain(corpus, judge, f, links) && links != []
    requires var s := links[0].s;
             k < s.puts <= |s.end.record.log| &&
             s.end.record.log[k].status != "timeout" && s.end.record.log[k].status != "crash" &&
             i < |s.jobs| && s.jobs[i].id == s.end.record.log[k].id
    requires !f.torn || CacheableBefore(links[0].s, k)
    ensures links[0].s.jobs[i] !in Todo(Denote(Final(f, links).lines), links[0].s.version, jobs)
  {
    var s := links[0].s;
    var key := Keys.JobPreimage(s.jobs[i], s.version);
    ChainParts(corpus, judge, f, links);
    FinalRest(f, links);
    KeyOfJob(s.jobs, s.version, i);
    PutIsLeft(corpus, judge, f, links[0], k, key);
    HoldsFinal(corpus, judge, links[0].left, links[1..], key);
    HeldIsLoaded(Final(f, links), key);
    TodoIs(Denote(Final(f, links).lines), s.version, jobs, s.jobs[i]);
  }

  /** Behind the chain, a run that lists `jobs` hands out a job whose result, neither a timeout nor a crash, had
      reached the cache of the first run of the chain. */
  ghost predicate HandsOutAgain(f: File, links: seq<Link>, k: nat, i: nat, jobs: seq<Job>) {
    links != [] && k < links[0].s.puts <= |links[0].s.end.record.log| &&
    links[0].s.end.record.log[k].status != "timeout" && links[0].s.end.record.log[k].status != "crash" &&
    i < |links[0].s.jobs| && links[0].s.jobs[i].id == links[0].s.end.record.log[k].id &&
    links[0].s.jobs[i] in Todo(Denote(Final(f, links).lines), links[0].s.version, jobs)
  }

  /** No run started on the file, however it and the ones behind it end, loses a result that had reached
      its cache. */
  ghost predicate NothingRunsAgain(f: File) {
    forall corpus, judge, links, k, i, jobs :: Pinned(corpus) && Chain(corpus, judge, f, links) ==>
      !HandsOutAgain(f, links, k, i, jobs)
  }

  /** Nothing that reached the cache is ever run again exactly when the file a run starts on ends in a
      newline, which can be seen before the run. */
  lemma {:induction false} NothingRunsAgainIff(f: File)
    requires Proper(f)
    ensures NothingRunsAgain(f) <==> !f.torn
  {
    if f.torn {
      TornRunsAgain(f);
    } else {
      forall corpus, judge, links, k, i, jobs | Pinned(corpus) && Chain(corpus, judge, f, links)
        ensures !HandsOutAgain(f, links, k, i, jobs)
      {
        if HandsOutAgain(f, links, k, i, jobs) { NeverRunsAgain(corpus, judge, f, links, k, i, jobs); }
      }
    }
  }

  // ---------------------------------------------------------------- a run whose result is lost

  /** A NUL-free text longer than every key of the file. */
  lemma {:induction false} LongVersion(lines: seq<Line>) returns (v: string)
    ensures v != "" && Keys.NulFree(v) && forall k :: 0 <= k < |lines| && lines[k].Parsed? ==> |lines[k].e.key| < |v|
  {
    if lines == [] {
      v := "v";
    } else {
      var n := |lines| - 1;
      var before := LongVersion(lines[..n]);
      v := before + if lines[n].Parsed? then seq(|lines[n].e.key|, _ => 'v') else [];
      forall k | 0 <= k < |lines| && lines[k].Parsed? ensures |lines[k].e.key| < |v| {
        if k < n { assert lines[..n][k] == lines[k]; }
      }
    }
  }

  lemma {:induction false} LongKey(lines: seq<Line>, j: Job, v: string)
    requires forall k :: 0 <= k < |lines| && lines[k].Parsed? ==> |lines[k].e.key| < |v|
    ensures !Cached(Denote(lines), v, j)
  {
    var key := Keys.JobPreimage(j, v);
    assert |key| > |v|;
    if key in Denote(lines) { var k := DenotedLine(lines, key); }
  }

  const LOST := Job("j", "", "", "", [], false, "", "")
  const PASSED := Result("j", "pass", "", "")

  ghost function AllPass(): Judge {
    (_, _) => Verdict("pass", "")
  }

  ghost function LostSession(v: string, end: Pool): Session {
    Session([LOST], v, Config([], 1, 0, false, 1, _ => Some(1)), end, 1)
  }

  /** One job, whose result passes and is recorded, in a run killed right behind that. */
  lemma {:induction false} LostRun(f: File, v: string) returns (l: Link)
    requires Proper(f) && Keys.NulFree(v) && !Cached(Denote(f.lines), v, LOST)
    ensures IsLostRun(AllPass(), f, l)
  {
    var judge := AllPass();
    var s0 := LostSession(v, Init(Config([], 1, 0, false, 1, _ => Some(1))));
    var c := ConfigOf(Denote(f.lines), s0);
    assert Todo(Denote(f.lines), v, [LOST]) == [LOST];
    assert Right(judge, v, [LOST], PASSED) by { assert [LOST][0].id == PASSED.id; }
    var end := OneJobRecorded(c, RightOf(judge, s0), PASSED);
    var s := s0.(end := end);
    assert RightOf(judge, s) == RightOf(judge, s0);
    assert ConfigOf(Denote(f.lines), s) == c;
    l := Link(s, Streamed(f, Recordings(s, 1)));
  }

  lemma {:induction false} ChainOfOne(corpus: set<Job>, judge: Judge, f: File, l: Link)
    requires GoodLink(corpus, judge, f, l)
    ensures Chain(corpus, judge, f, [l]) && Final(f, [l]) == l.left
  {
  }

  /** One job, whose one result was recorded before the run was killed. */
  ghost predicate IsLostRun(judge: Judge, f: File, l: Link) {
    GoodLink({LOST}, judge, f, l) && l.s.jobs == [LOST] && l.s.puts == 1 && l.s.end.record.log == [PASSED] &&
    l.left == Streamed(f, Recordings(l.s, 1))
  }

  lemma {:induction false} LostIsAgain(judge: Judge, f: File, l: Link)
    requires f.torn && IsLostRun(judge, f, l)
    ensures LOST in Todo(Denote(l.left.lines), l.s.version, [LOST])
  {
    assert PASSED.status[0] == 'p';
    RunsAgainIff({LOST}, judge, f, l.s, 1, 0, 0, [LOST]);
  }

  lemma {:induction false} HandedOutBehindOne(judge: Judge, f: File, l: Link)
    requires IsLostRun(judge, f, l) && LOST in Todo(Denote(l.left.lines), l.s.version, [LOST])
    ensures HandsOutAgain(f, [l], 0, 0, [LOST])
  {
    assert PASSED.status[0] == 'p';
    ChainOfOne({LOST}, judge, f, l);
  }

  /** A run on a file that lacks its last newline, and the job it loses. */
  lemma {:induction false} TornRunLoses(f: File) returns (l: Link)
    requires Proper(f) && f.torn
    ensures Chain({LOST}, AllPass(), f, [l]) && HandsOutAgain(f, [l], 0, 0, [LOST])
  {
    var v := LongVersion(f.lines);
    LongKey(f.lines, LOST, v);
    l := LostRun(f, v);
    LostIsAgain(AllPass(), f, l);
    HandedOutBehindOne(AllPass(), f, l);
    ChainOfOne({LOST}, AllPass(), f, l);
  }

  lemma {:induction false} TornRunsAgain(f: File)
    requires Proper(f) && f.torn
    ensures !NothingRunsAgain(f)
  {
    var l := TornRunLoses(f);
    assert Pinned({LOST});
  }
}
