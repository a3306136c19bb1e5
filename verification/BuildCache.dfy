/** The Go build cache directory and what its janitors remove (pkg/tc39/cachejanitor.go): the trim under
    a ceiling, the pin to a baseline, and how often a run can trim. */
module BuildCache {

  /** A path below the cache root, component by component. */
  type Path = seq<string>

  datatype Info = Info(size: nat, modTime: nat)

  datatype Listed = Listed(path: Path, info: Info)

  predicate IsHexByte(s: string) {
    |s| == 2 && forall i :: 0 <= i < 2 ==> '0' <= s[i] <= '9' || 'a' <= s[i] <= 'f'
  }

  /** Entries live one level below the root in a directory named by two hex digits. */
  predicate IsCacheEntry(p: Path) {
    |p| == 2 && IsHexByte(p[0])
  }

  /** The names of the 256 directories the toolchain keeps entries in are two of these digits. */
  const DIGITS := "0123456789abcdef"

  /** An entry is a file right in a directory named by two such digits. */
  lemma {:induction false} EntriesAre(p: Path)
    ensures IsCacheEntry(p) <==> |p| == 2 && |p[0]| == 2 && p[0][0] in DIGITS && p[0][1] in DIGITS
  {
    if |p| == 2 && |p[0]| == 2 {
      DigitIs(p[0][0]);
      DigitIs(p[0][1]);
    }
  }

  lemma {:induction false} DigitIs(c: char)
    ensures c in DIGITS <==> '0' <= c <= '9' || 'a' <= c <= 'f'
  {
    if '0' <= c <= '9' { assert DIGITS[(c - '0') as int] == c; }
    if 'a' <= c <= 'f' { assert DIGITS[10 + (c - 'a') as int] == c; }
  }

  function Sum(es: seq<Listed>): nat {
    if es == [] then 0 else es[0].info.size + Sum(es[1..])
  }

  lemma {:induction false} SumConcat(a: seq<Listed>, b: seq<Listed>)
    ensures Sum(a + b) == Sum(a) + Sum(b)
  {
    if a == [] {
      assert a + b == b;
    } else {
      assert (a + b)[1..] == a[1..] + b;
      SumConcat(a[1..], b);
    }
  }

  predicate Oldest(es: seq<Listed>) {
    forall a, b :: 0 <= a < b < |es| ==> es[a].info.modTime <= es[b].info.modTime
  }

  function Insert(e: Listed, es: seq<Listed>): seq<Listed> {
    if es == [] || e.info.modTime <= es[0].info.modTime then [e] + es else [es[0]] + Insert(e, es[1..])
  }

  /** The listed entries, oldest first. */
  function OldestFirst(es: seq<Listed>): seq<Listed> {
    if es == [] then [] else Insert(es[0], OldestFirst(es[1..]))
  }

  /** Every file once. */
  ghost predicate Lists(es: seq<Listed>, files: map<Path, Info>) {
    (forall k :: 0 <= k < |es| ==> es[k].path in files && files[es[k].path] == es[k].info) &&
    (forall a, b :: 0 <= a < b < |es| ==> es[a].path != es[b].path) &&
    (forall p :: p in files ==> Listed(p, files[p]) in es)
  }

  lemma {:induction false} InsertHolds(e: Listed, es: seq<Listed>, x: Listed)
    ensures x in Insert(e, es) <==> x == e || x in es
  {
    if es == [] || e.info.modTime <= es[0].info.modTime {
    } else {
      InsertHolds(e, es[1..], x);
    }
  }

  lemma {:induction false} InsertSorts(e: Listed, es: seq<Listed>)
    requires Oldest(es)
    ensures Oldest(Insert(e, es))
  {
    if es == [] || e.info.modTime <= es[0].info.modTime {
    } else {
      var rest := Insert(e, es[1..]);
      InsertSorts(e, es[1..]);
      forall k | 0 <= k < |rest| ensures es[0].info.modTime <= rest[k].info.modTime {
        InsertHolds(e, es[1..], rest[k]);
      }
    }
  }

  lemma {:induction false} InsertCounts(e: Listed, es: seq<Listed>)
    ensures Sum(Insert(e, es)) == e.info.size + Sum(es) && |Insert(e, es)| == |es| + 1
  {
    if es == [] || e.info.modTime <= es[0].info.modTime {
      assert ([e] + es)[1..] == es;
    } else {
      InsertCounts(e, es[1..]);
      assert ([es[0]] + Insert(e, es[1..]))[1..] == Insert(e, es[1..]);
    }
  }

  lemma {:induction false} InsertDistinct(e: Listed, es: seq<Listed>, files: map<Path, Info>)
    requires Lists(es, files) && e.path !in files
    ensures Lists(Insert(e, es), files[e.path := e.info])
  {
    var all := Insert(e, es);
    forall k | 0 <= k < |all| ensures all[k] == e || all[k] in es { InsertHolds(e, es, all[k]); }
    var more := files[e.path := e.info];
    forall p | p in more ensures Listed(p, more[p]) in all { InsertHolds(e, es, Listed(p, more[p])); }
    forall a, b | 0 <= a < b < |all| ensures all[a].path != all[b].path { InsertNoRepeat(e, es, a, b); }
  }

  lemma {:induction false} InsertNoRepeat(e: Listed, es: seq<Listed>, a: nat, b: nat)
    requires forall i, k :: 0 <= i < k < |es| ==> es[i].path != es[k].path
    requires forall k :: 0 <= k < |es| ==> es[k].path != e.path
    requires a < b < |Insert(e, es)|
    ensures Insert(e, es)[a].path != Insert(e, es)[b].path
  {
    if es == [] || e.info.modTime <= es[0].info.modTime {
    } else {
      var rest := Insert(e, es[1..]);
      if a == 0 {
        InsertHolds(e, es[1..], rest[b - 1]);
      } else {
        InsertNoRepeat(e, es[1..], a - 1, b - 1);
      }
    }
  }

  /** The entries still there when the trim reaches them. */
  function Present(es: seq<Listed>, gone: set<Path>): seq<Listed> {
    if es == [] then []
    else
      var n := |es| - 1;
      Present(es[..n], gone) + if es[n].path in gone then [] else [es[n]]
  }

  lemma {:induction false} PresentStep(es: seq<Listed>, gone: set<Path>)
    requires es != []
    ensures var n := |es| - 1;
            Present(es, gone) == (if es[n].path in gone then Present(es[..n], gone)
                                  else Present(es[..n], gone) + [es[n]])
  {
  }

  lemma {:induction false} PresentSum(es: seq<Listed>, gone: set<Path>)
    ensures Sum(Present(es, gone)) <= Sum(es)
    ensures (forall k :: 0 <= k < |es| ==> es[k].path !in gone) ==> Present(es, gone) == es
  {
    if es == [] {
    } else {
      var n := |es| - 1;
      PresentStep(es, gone);
      PresentSum(es[..n], gone);
      SumSplit(es, n);
      SumConcat(Present(es[..n], gone), [es[n]]);
      assert es == es[..n] + [es[n]] && es[n..] == [es[n]];
    }
  }

  lemma {:induction false} SumSplit(es: seq<Listed>, k: nat)
    requires k <= |es|
    ensures Sum(es) == Sum(es[..k]) + Sum(es[k..])
  {
    assert es == es[..k] + es[k..];
    SumConcat(es[..k], es[k..]);
  }

  lemma {:induction false} PresentNext(es: seq<Listed>, k: nat, gone: set<Path>)
    requires k < |es|
    ensures Sum(Present(es[..k + 1], gone)) ==
            Sum(Present(es[..k], gone)) + if es[k].path in gone then 0 else es[k].info.size
    ensures Sum(Present(es[..k + 1], gone)) <= Sum(es[..k + 1]) <= Sum(es)
  {
    assert es[..k + 1][..k] == es[..k];
    PresentStep(es[..k + 1], gone);
    SumConcat(Present(es[..k], gone), [es[k]]);
    PresentSum(es[..k + 1], gone);
    SumSplit(es, k + 1);
  }

  /** What the removal loop's bounds say of the snapshot. */
  lemma {:induction false} TrimmedSums(es: seq<Listed>, k: nat, gone: set<Path>, target: nat)
    requires k <= |es|
    ensures Sum(es) - Sum(Present(es[..k], gone)) <= target || k == |es| ==> Sum(es[k..]) <= target
    ensures gone == {} && k > 0 && Sum(es) - Sum(Present(es[..k - 1], gone)) > target ==> Sum(es[k - 1..]) > target
  {
    SumSplit(es, k);
    PresentSum(es[..k], gone);
    if k > 0 {
      SumSplit(es, k - 1);
      PresentSum(es[..k - 1], gone);
    }
  }

  function Paths(es: seq<Listed>): (s: set<Path>)
    ensures forall p :: p in s <==> exists k :: 0 <= k < |es| && es[k].path == p
  {
    set k | 0 <= k < |es| :: es[k].path
  }

  lemma {:induction false} MapMinus(m: map<Path, Info>, s: set<Path>, p: Path)
    ensures m - s - {p} == m - (s + {p})
    ensures p !in m - s ==> m - s == m - (s + {p})
    ensures p !in s ==> (p in m - s <==> p in m)
  {
  }

  lemma {:induction false} PathsNext(es: seq<Listed>, k: nat)
    requires k < |es|
    ensures Paths(es[..k + 1]) == Paths(es[..k]) + {es[k].path}
    ensures (forall a, b :: 0 <= a < b < |es| ==> es[a].path != es[b].path) ==> es[k].path !in Paths(es[..k])
  {
    forall p | p in Paths(es[..k]) + {es[k].path} ensures p in Paths(es[..k + 1]) {
      if p == es[k].path {
        assert es[..k + 1][k].path == p;
      } else {
        var j :| 0 <= j < k && es[..k][j].path == p;
        assert es[..k + 1][j].path == p;
      }
    }
  }

  // ---------------------------------------------------------------- the ceiling janitor, step by step

  /** The ceiling, and what a trim goes down to. */
  datatype Ceiling = Ceiling(max: nat, target: nat)

  /** Where the janitor is: between two ticks, adding up the entries since there were `from` writes, found over
      the ceiling, listing the entries for a trim since there were `from` writes, or removing them oldest first. */
  datatype Stage =
    | Resting
    | Measuring(from: nat, seen: seq<Listed>)
    | Over
    | Listing(from: nat, seen: seq<Listed>)
    | Removing(from: nat, order: seq<Listed>, total: nat, reclaimed: nat, k: nat)

  /** The files, every write so far, and the janitor. The last three are history: how many trims finished,
      how many writes there had been when the last of them began to list, and what it left of its list. */
  datatype Disk = Disk(files: map<Path, Info>, log: seq<Listed>, stage: Stage, trims: nat, mark: nat, left: seq<Listed>)

  /** Others write and remove files at any time; the janitor's walks look at one entry at a time, and a trim
      removes one entry at a time. */
  datatype Tick =
    | Write(e: Listed) | Vanish(p: Path)
    | StartMeasure | See(p: Path) | EndMeasure
    | StartListing | EndListing | RemoveNext | Finish

  predicate Unseen(seen: seq<Listed>, p: Path) {
    forall k :: 0 <= k < |seen| ==> seen[k].path != p
  }

  /** Every entry there is comes from one of the two lists, as it is. */
  ghost predicate From(files: map<Path, Info>, base: seq<Listed>, written: seq<Listed>) {
    forall p :: p in files && IsCacheEntry(p) ==> Listed(p, files[p]) in base || Listed(p, files[p]) in written
  }

  /** A walk visits every entry that is there, unwritten, all the while. */
  ghost predicate WalkDone(d: Disk)
    requires d.stage.Measuring? || d.stage.Listing?
  {
    d.stage.from <= |d.log| && From(d.files, d.stage.seen, d.log[d.stage.from..])
  }

  ghost predicate May(c: Ceiling, d: Disk, t: Tick) {
    match t
    case Write(_) => true
    case Vanish(p) => p in d.files
    case StartMeasure => d.stage.Resting?
    case See(p) =>
      (d.stage.Measuring? || d.stage.Listing?) && p in d.files && IsCacheEntry(p) && Unseen(d.stage.seen, p)
    case EndMeasure => d.stage.Measuring? && WalkDone(d)
    case StartListing => d.stage.Over?
    case EndListing => d.stage.Listing? && WalkDone(d)
    case RemoveNext =>
      d.stage.Removing? && d.stage.k < |d.stage.order| && d.stage.reclaimed <= d.stage.total &&
      d.stage.total - d.stage.reclaimed > c.target
    case Finish =>
      d.stage.Removing? && d.stage.k <= |d.stage.order| &&
      (d.stage.k == |d.stage.order| || d.stage.total - d.stage.reclaimed <= c.target)
  }

  function Visited(files: map<Path, Info>, stage: Stage, p: Path): Stage
    requires p in files && (stage.Measuring? || stage.Listing?)
  {
    if stage.Measuring? then Measuring(stage.from, [Listed(p, files[p])] + stage.seen)
    else Listing(stage.from, [Listed(p, files[p])] + stage.seen)
  }

  ghost function Next(c: Ceiling, d: Disk, t: Tick): Disk
    requires May(c, d, t)
  {
    match t
    case Write(e) => d.(files := d.files[e.path := e.info], log := d.log + [e])
    case Vanish(p) => d.(files := d.files - {p})
    case StartMeasure => d.(stage := Measuring(|d.log|, []))
    case See(p) => d.(stage := Visited(d.files, d.stage, p))
    case EndMeasure => d.(stage := if Sum(d.stage.seen) > c.max then Over else Resting)
    case StartListing => d.(stage := Listing(|d.log|, []))
    case EndListing => d.(stage := Removing(d.stage.from, OldestFirst(d.stage.seen), Sum(d.stage.seen), 0, 0))
    case RemoveNext =>
      var st := d.stage;
      var e := st.order[st.k];
      if e.path in d.files then
        d.(files := d.files - {e.path}, stage := st.(k := st.k + 1, reclaimed := st.reclaimed + e.info.size))
      else d.(stage := st.(k := st.k + 1))
    case Finish => d.(stage := Resting, trims := d.trims + 1, mark := d.stage.from, left := d.stage.order[d.stage.k..])
  }

  ghost predicate Ticks(c: Ceiling, d: Disk, ts: seq<Tick>, v: Disk)
    decreases |ts|
  {
    if ts == [] then d == v else May(c, d, ts[0]) && Ticks(c, Next(c, d, ts[0]), ts[1..], v)
  }

  /** Some ticks lead from `d` to `v`. */
  ghost predicate LeadsTo(c: Ceiling, d: Disk, v: Disk) {
    exists ts :: Ticks(c, d, ts, v)
  }

  lemma {:induction false} TickBefore(c: Ceiling, d: Disk, t: Tick, ts: seq<Tick>, v: Disk)
    requires May(c, d, t) && Ticks(c, Next(c, d, t), ts, v)
    ensures Ticks(c, d, [t] + ts, v)
  {
    assert ([t] + ts)[1..] == ts;
  }

  lemma {:induction false} TickBehind(c: Ceiling, d: Disk, ts: seq<Tick>, v: Disk, t: Tick)
    requires Ticks(c, d, ts, v) && May(c, v, t)
    ensures Ticks(c, d, ts + [t], Next(c, v, t))
    decreases |ts|
  {
    if ts == [] {
      TickBefore(c, d, t, [], Next(c, v, t));
    } else {
      TickBehind(c, Next(c, d, ts[0]), ts[1..], v, t);
      TickBefore(c, d, ts[0], ts[1..] + [t], Next(c, v, t));
      assert [ts[0]] + (ts[1..] + [t]) == ts + [t];
    }
  }

  lemma {:induction false} Stays(c: Ceiling, d: Disk)
    ensures LeadsTo(c, d, d)
  {
    assert Ticks(c, d, [], d);
  }

  lemma {:induction false} LeadsOn(c: Ceiling, d: Disk, v: Disk, t: Tick)
    requires LeadsTo(c, d, v) && May(c, v, t)
    ensures LeadsTo(c, d, Next(c, v, t))
  {
    var ts :| Ticks(c, d, ts, v);
    TickBehind(c, d, ts, v, t);
  }

  /** The entries of `gone` vanish one by one. */
  lemma {:induction false} VanishAll(c: Ceiling, d: Disk, v: Disk, gone: set<Path>)
    requires LeadsTo(c, d, v)
    ensures LeadsTo(c, d, v.(files := v.files - gone))
  {
    if gone == {} {
      assert v.files - {} == v.files;
    } else {
      var p :| p in gone;
      VanishAll(c, d, v, gone - {p});
      var u := v.(files := v.files - (gone - {p}));
      if p in u.files {
        LeadsOn(c, d, u, Vanish(p));
        assert u.files - {p} == v.files - gone;
      } else {
        assert u.files == v.files - gone;
      }
    }
  }

  lemma {:induction false} TicksBehind(c: Ceiling, d: Disk, ts: seq<Tick>, v: Disk, more: seq<Tick>, w: Disk)
    requires Ticks(c, d, ts, v) && Ticks(c, v, more, w)
    ensures Ticks(c, d, ts + more, w)
    decreases |ts|
  {
    if ts == [] {
      assert ts + more == more;
    } else {
      TicksBehind(c, Next(c, d, ts[0]), ts[1..], v, more, w);
      TickBefore(c, d, ts[0], ts[1..] + more, w);
      assert [ts[0]] + (ts[1..] + more) == ts + more;
    }
  }

  /** One more look of a listing. */
  lemma {:induction false} SeeNext(c: Ceiling, d: Disk, seen: seq<Listed>, rest: set<Path>, e: Listed)
    requires d.stage.Listing? && LeadsTo(c, d, d.(stage := Listing(d.stage.from, seen)))
    requires Lists(seen, EntriesBut(d.files, rest)) && e.path in rest && e.path in d.files && e.info == d.files[e.path]
    requires IsCacheEntry(e.path)
    ensures LeadsTo(c, d, d.(stage := Listing(d.stage.from, [e] + seen)))
    ensures Lists([e] + seen, EntriesBut(d.files, rest - {e.path}))
    ensures OldestFirst([e] + seen) == Insert(e, OldestFirst(seen))
  {
    LeadsOn(c, d, d.(stage := Listing(d.stage.from, seen)), See(e.path));
    ListsMore(d.files, seen, rest, e);
    assert ([e] + seen)[1..] == seen;
  }

  lemma {:induction false} ListsMore(files: map<Path, Info>, seen: seq<Listed>, rest: set<Path>, e: Listed)
    requires Lists(seen, EntriesBut(files, rest)) && e.path in rest && e.path in files && e.info == files[e.path]
    requires IsCacheEntry(e.path)
    ensures Lists([e] + seen, EntriesBut(files, rest - {e.path}))
  {
    var all := [e] + seen;
    EntriesNext(files, rest, e.path);
    forall p | p in EntriesBut(files, rest - {e.path}) ensures Listed(p, files[p]) in all {
      if p == e.path { assert all[0] == e; } else { assert Listed(p, files[p]) in seen; }
    }
  }

  lemma {:induction false} ListingEnds(c: Ceiling, d: Disk, seen: seq<Listed>)
    requires d.stage.Listing? && d.stage.from <= |d.log| && LeadsTo(c, d, d.(stage := Listing(d.stage.from, seen)))
    requires Lists(seen, EntriesBut(d.files, {}))
    ensures LeadsTo(c, d, d.(stage := Removing(d.stage.from, OldestFirst(seen), Sum(seen), 0, 0)))
  {
    var v := d.(stage := Listing(d.stage.from, seen));
    forall p | p in v.files && IsCacheEntry(p) ensures Listed(p, v.files[p]) in seen {
      assert p in EntriesBut(d.files, {});
    }
    LeadsOn(c, d, v, EndListing);
  }

  /** The disk as a trim begins to list, and while it removes. */
  ghost function Begun(d: Disk): Disk {
    d.(stage := Listing(|d.log|, []))
  }

  ghost function Removes(d: Disk, files: map<Path, Info>, order: seq<Listed>, total: nat, reclaimed: nat,
                         k: nat): Disk {
    d.(files := files, stage := Removing(|d.log|, order, total, reclaimed, k))
  }

  lemma {:induction false} TrimBegins(c: Ceiling, d: Disk, order: seq<Listed>, total: nat, gone: set<Path>)
    requires d.stage.Over? && LeadsTo(c, Begun(d), Removes(d, d.files, order, total, 0, 0))
    ensures LeadsTo(c, d, Removes(d, d.files - gone, order, total, 0, 0))
  {
    var ts :| Ticks(c, Begun(d), ts, Removes(d, d.files, order, total, 0, 0));
    TickBefore(c, d, StartListing, ts, Removes(d, d.files, order, total, 0, 0));
    VanishAll(c, d, Removes(d, d.files, order, total, 0, 0), gone);
  }

  lemma {:induction false} RemovesNext(c: Ceiling, d: Disk, start: Disk, files: map<Path, Info>, order: seq<Listed>,
                                       total: nat, reclaimed: nat, k: nat)
    requires LeadsTo(c, start, Removes(d, files, order, total, reclaimed, k))
    requires k < |order| && reclaimed <= total && total - reclaimed > c.target
    ensures order[k].path in files ==> LeadsTo(c, start,
                                               Removes(d, files - {order[k].path}, order, total,
                                                       reclaimed + order[k].info.size, k + 1))
    ensures order[k].path !in files ==> LeadsTo(c, start, Removes(d, files, order, total, reclaimed, k + 1))
  {
    LeadsOn(c, start, Removes(d, files, order, total, reclaimed, k), RemoveNext);
  }

  /** The disk behind a trim of `d` that left `files` and the rest of its list. */
  ghost function Trimmed(d: Disk, files: map<Path, Info>, left: seq<Listed>): Disk {
    d.(files := files, stage := Resting, trims := d.trims + 1, mark := |d.log|, left := left)
  }

  lemma {:induction false} TrimEnds(c: Ceiling, d: Disk, listed: Disk, files: map<Path, Info>, order: seq<Listed>,
                                    total: nat, reclaimed: nat, k: nat)
    requires LeadsTo(c, d, listed) && LeadsTo(c, listed, Removes(d, files, order, total, reclaimed, k))
    requires k <= |order| && (k == |order| || total - reclaimed <= c.target)
    ensures LeadsTo(c, d, Trimmed(d, files, order[k..]))
  {
    var swept := Removes(d, files, order, total, reclaimed, k);
    var ts :| Ticks(c, d, ts, listed);
    var more :| Ticks(c, listed, more, swept);
    TicksBehind(c, d, ts, listed, more, swept);
    LeadsOn(c, d, swept, Finish);
  }

  lemma {:induction false} OldestFirstLists(seen: seq<Listed>, files: map<Path, Info>)
    requires Lists(seen, files)
    ensures Lists(OldestFirst(seen), files) && Oldest(OldestFirst(seen)) && Sum(OldestFirst(seen)) == Sum(seen)
  {
    var order := OldestFirst(seen);
    OldestFirstKeeps(seen);
    forall k | 0 <= k < |order| ensures order[k] in seen { OldestFirstHolds(seen, order[k]); }
    forall p | p in files ensures Listed(p, files[p]) in order { OldestFirstHolds(seen, Listed(p, files[p])); }
  }

  /** The cache entries but for the ones in `rest`. */
  ghost function EntriesBut(files: map<Path, Info>, rest: set<Path>): map<Path, Info> {
    map p | p in files && p !in rest && IsCacheEntry(p) :: files[p]
  }

  lemma {:induction false} EntriesNext(files: map<Path, Info>, rest: set<Path>, p: Path)
    requires p in rest && p in files
    ensures p !in EntriesBut(files, rest)
    ensures EntriesBut(files, rest - {p}) ==
            if IsCacheEntry(p) then EntriesBut(files, rest)[p := files[p]] else EntriesBut(files, rest)
  {
  }

  /** Where a trim is behind its k-th entry: which files went, and how much that reclaimed. */
  ghost predicate Progress(was: map<Path, Info>, es: seq<Listed>, target: nat, gone: set<Path>, files: map<Path, Info>,
                           reclaimed: nat, k: nat) {
    k <= |es| && files == was - Paths(es[..k]) && reclaimed == Sum(Present(es[..k], gone)) <= Sum(es) &&
    (k > 0 ==> Sum(es) - Sum(Present(es[..k - 1], gone)) > target)
  }

  lemma {:induction false} ProgressNext(was: map<Path, Info>, es: seq<Listed>, target: nat, gone: set<Path>,
                                        files: map<Path, Info>, reclaimed: nat, k: nat)
    requires Progress(was, es, target, gone, files, reclaimed, k) && k < |es| && Sum(es) - reclaimed > target
    requires forall a, b :: 0 <= a < b < |es| ==> es[a].path != es[b].path
    requires forall i :: 0 <= i < |es| ==> (es[i].path in was <==> es[i].path !in gone)
    ensures if es[k].path in files then Progress(was, es, target, gone, files - {es[k].path},
                                                 reclaimed + es[k].info.size, k + 1)
            else Progress(was, es, target, gone, files, reclaimed, k + 1)
  {
    PresentNext(es, k, gone);
    PathsNext(es, k);
    MapMinus(was, Paths(es[..k]), es[k].path);
  }

  /** The same, reached from `start` by nothing but removals. */
  ghost predicate Removal(c: Ceiling, d: Disk, start: Disk, was: map<Path, Info>, es: seq<Listed>, gone: set<Path>,
                          files: map<Path, Info>, reclaimed: nat, k: nat) {
    Progress(was, es, c.target, gone, files, reclaimed, k) &&
      LeadsTo(c, start, Removes(d, files, es, Sum(es), reclaimed, k))
  }

  lemma {:induction false} RemovalNext(c: Ceiling, d: Disk, start: Disk, was: map<Path, Info>, es: seq<Listed>,
                                       gone: set<Path>, files: map<Path, Info>, reclaimed: nat, k: nat,
                                       less: map<Path, Info>, more: nat)
    requires Removal(c, d, start, was, es, gone, files, reclaimed, k) && k < |es| && reclaimed <= Sum(es)
    requires Sum(es) - reclaimed > c.target
    requires forall a, b :: 0 <= a < b < |es| ==> es[a].path != es[b].path
    requires forall i :: 0 <= i < |es| ==> (es[i].path in was <==> es[i].path !in gone)
    requires if es[k].path in files then less == files - {es[k].path} && more == reclaimed + es[k].info.size
             else less == files && more == reclaimed
    ensures Removal(c, d, start, was, es, gone, less, more, k + 1) && more <= Sum(es)
  {
    ProgressNext(was, es, c.target, gone, files, reclaimed, k);
    RemovesNext(c, d, start, files, es, Sum(es), reclaimed, k);
  }

  lemma {:induction false} RemovalStarts(c: Ceiling, d: Disk, files: map<Path, Info>, es: seq<Listed>, gone: set<Path>)
    ensures Removal(c, d, Removes(d, files, es, Sum(es), 0, 0), files, es, gone, files, 0, 0)
  {
    assert Paths(es[..0]) == {};
    Stays(c, Removes(d, files, es, Sum(es), 0, 0));
  }

  lemma {:induction false} LeadsFarther(c: Ceiling, d: Disk, v: Disk, w: Disk)
    requires LeadsTo(c, d, v) && LeadsTo(c, v, w)
    ensures LeadsTo(c, d, w)
  {
    var ts :| Ticks(c, d, ts, v);
    var more :| Ticks(c, v, more, w);
    TicksBehind(c, d, ts, v, more, w);
  }

  lemma {:induction false} TrimBehindMeasure(c: Ceiling, d: Disk, total: nat, files: map<Path, Info>, left: seq<Listed>)
    requires LeadsTo(c, d, Measured(c, d, total))
    requires LeadsTo(c, Measured(c, d, total), Trimmed(Measured(c, d, total), files, left))
    ensures LeadsTo(c, d, Trimmed(d, files, left))
  {
    LeadsFarther(c, d, Measured(c, d, total), Trimmed(Measured(c, d, total), files, left));
  }

  /** Two lists of the same entries have the same size. */
  lemma {:induction false} SameSum(xs: seq<Listed>, ys: seq<Listed>, files: map<Path, Info>)
    requires Lists(xs, files) && Lists(ys, files)
    ensures Sum(xs) == Sum(ys)
  {
    forall k | 0 <= k < |xs| ensures xs[k] in ys { assert Listed(xs[k].path, files[xs[k].path]) in ys; }
    forall k | 0 <= k < |ys| ensures ys[k] in xs { assert Listed(ys[k].path, files[ys[k].path]) in xs; }
    SumWithin(xs, ys);
    SumWithin(ys, xs);
  }

  /** One more look of a measurement. */
  lemma {:induction false} CountNext(c: Ceiling, d: Disk, v: Disk, seen: seq<Listed>, rest: set<Path>, e: Listed)
    requires v.files == d.files && LeadsTo(c, d, v.(stage := Measuring(|v.log|, seen)))
    requires Lists(seen, EntriesBut(v.files, rest)) && e.path in rest && e.path in v.files && e.info == v.files[e.path]
    requires IsCacheEntry(e.path)
    ensures LeadsTo(c, d, v.(stage := Measuring(|v.log|, [e] + seen)))
    ensures Lists([e] + seen, EntriesBut(v.files, rest - {e.path}))
  {
    LeadsOn(c, d, v.(stage := Measuring(|v.log|, seen)), See(e.path));
    ListsMore(v.files, seen, rest, e);
  }

  lemma {:induction false} MeasureBegins(c: Ceiling, d: Disk)
    requires d.stage.Resting?
    ensures LeadsTo(c, d, d.(stage := Measuring(|d.log|, [])))
  {
    Stays(c, d);
    LeadsOn(c, d, d, StartMeasure);
  }

  /** The disk behind a measurement that found `total` bytes. */
  ghost function Measured(c: Ceiling, d: Disk, total: nat): Disk {
    d.(stage := if total > c.max then Over else Resting)
  }

  lemma {:induction false} MeasureEnds(c: Ceiling, d: Disk, seen: seq<Listed>)
    requires LeadsTo(c, d, d.(stage := Measuring(|d.log|, seen))) && Lists(seen, EntriesBut(d.files, {}))
    ensures LeadsTo(c, d, Measured(c, d, Sum(seen)))
  {
    var v := d.(stage := Measuring(|d.log|, seen));
    forall p | p in v.files && IsCacheEntry(p) ensures Listed(p, v.files[p]) in seen {
      assert p in EntriesBut(d.files, {});
    }
    LeadsOn(c, d, v, EndMeasure);
  }

  class Directory {
    var files: map<Path, Info>

    ghost function Entries(): map<Path, Info>
      reads this
    {
      map p | p in files && IsCacheEntry(p) :: files[p]
    }

    /** The walk over the directory: every cache entry once, oldest first, and their total size; on the
        disk `d`, a listing from its first look to its last. */
    method Snapshot(ghost c: Ceiling, ghost d: Disk) returns (entries: seq<Listed>, total: nat)
      requires d.files == files && d.stage.Listing? && d.stage.seen == [] && d.stage.from <= |d.log|
      ensures Lists(entries, Entries()) && Oldest(entries) && total == Sum(entries)
      ensures LeadsTo(c, d, d.(stage := Removing(d.stage.from, entries, total, 0, 0)))
    {
      entries, total := [], 0;
      var rest := files.Keys;
      ghost var seen: seq<Listed> := [];
      Stays(c, d);
      while rest != {}
        invariant rest <= files.Keys
        invariant entries == OldestFirst(seen) && total == Sum(seen) && Lists(seen, EntriesBut(files, rest))
        invariant LeadsTo(c, d, d.(stage := Listing(d.stage.from, seen)))
        decreases rest
      {
        var p :| p in rest;
        if IsCacheEntry(p) {
          var e := Listed(p, files[p]);
          SeeNext(c, d, seen, rest, e);
          seen := [e] + seen;
          entries := Insert(e, entries);
          total := total + files[p].size;
        } else {
          EntriesNext(files, rest, p);
        }
        rest := rest - {p};
      }
      assert EntriesBut(files, {}) == Entries();
      OldestFirstLists(seen, Entries());
      ListingEnds(c, d, seen);
    }

    /** The removal loop of a trim over the entries of a snapshot, oldest first; those in `gone` are no
        longer there. On the disk `d`, nothing but removals happens, until the trim may finish. */
    method RemoveOldest(entries: seq<Listed>, total: nat, target: nat, gone: set<Path>, ghost c: Ceiling, ghost d: Disk)
      returns (reclaimed: nat, k: nat)
      requires total == Sum(entries) && c.target == target
      requires forall a, b :: 0 <= a < b < |entries| ==> entries[a].path != entries[b].path
      requires forall i :: 0 <= i < |entries| ==> (entries[i].path in files <==> entries[i].path !in gone)
      modifies this
      ensures k <= |entries| && files == old(files) - Paths(entries[..k])
      ensures reclaimed == Sum(Present(entries[..k], gone)) <= total
      ensures total - reclaimed <= target || k == |entries|
      ensures k > 0 ==> total - Sum(Present(entries[..k - 1], gone)) > target
      ensures LeadsTo(c, Removes(d, old(files), entries, total, 0, 0), Removes(d, files, entries, total, reclaimed, k))
    {
      reclaimed, k := 0, 0;
      ghost var was, start := files, Removes(d, files, entries, total, 0, 0);
      RemovalStarts(c, d, files, entries, gone);
      while k < |entries|
        invariant k <= |entries| && reclaimed <= total
        invariant Removal(c, d, start, was, entries, gone, files, reclaimed, k)
      {
        var left: nat := total - reclaimed;
        if left <= target { break; }
        var e := entries[k];
        ghost var before, had := files, reclaimed;
        k := k + 1;
        if e.path !in files {
          RemovalNext(c, d, start, was, entries, gone, before, had, k - 1, files, reclaimed);
          continue;
        }
        files := files - {e.path};
        reclaimed := reclaimed + e.info.size;
        RemovalNext(c, d, start, was, entries, gone, before, had, k - 1, files, reclaimed);
      }
    }

    /** goBuildCacheBytes: the size of all cache entries together; on the disk `d`, a measurement from its
        first look to its last. */
    method Measure(ghost c: Ceiling, ghost d: Disk) returns (total: nat, ghost seen: seq<Listed>)
      requires d.files == files && d.stage.Resting?
      ensures Lists(seen, Entries()) && total == Sum(seen)
      ensures LeadsTo(c, d, Measured(c, d, total))
    {
      total, seen := 0, [];
      var rest := files.Keys;
      MeasureBegins(c, d);
      while rest != {}
        invariant rest <= files.Keys
        invariant total == Sum(seen) && Lists(seen, EntriesBut(files, rest))
        invariant LeadsTo(c, d, d.(stage := Measuring(|d.log|, seen)))
        decreases rest
      {
        var p :| p in rest;
        if IsCacheEntry(p) {
          var e := Listed(p, files[p]);
          CountNext(c, d, d, seen, rest, e);
          seen := [e] + seen;
          total := total + files[p].size;
        } else {
          EntriesNext(files, rest, p);
        }
        rest := rest - {p};
      }
      assert EntriesBut(files, {}) == Entries();
      MeasureEnds(c, d, seen);
    }

    /** One tick of watchCache: nothing happens up to the ceiling; beyond it the oldest entries go until the
        rest is at most three quarters of it. */
    method Watch(max: nat, gone: set<Path>, ghost d: Disk) returns (ghost order: seq<Listed>, ghost k: nat)
      requires d.files == files && d.stage.Resting?
      modifies this
      ensures Lists(order, old(Entries())) && k <= |order|
      ensures Sum(order) <= max ==> files == old(files) && LeadsTo(Watched(max), d, d)
      ensures Sum(order) > max ==>
                Oldest(order) && files == old(files) - gone - Paths(order[..k]) && Sum(order[k..]) <= max - max / 4 &&
                LeadsTo(Watched(max), d, Trimmed(d, files, order[k..]))
    {
      ghost var c := Watched(max);
      var size: nat;
      size, order := Measure(c, d);
      k := 0;
      if size <= max {
        assert Measured(c, d, size) == d;
      } else {
        ghost var seen := order;
        var reclaimed: nat;
        reclaimed, order, k := Trim(max - max / 4, gone, c, Measured(c, d, size));
        SameSum(order, seen, old(Entries()));
        TrimBehindMeasure(c, d, size, files, order[k..]);
      }
    }

    /** trimGoBuildCache. `gone` are the paths another process removes before the trim gets to them.
        Of the snapshot, oldest first, a prefix goes: what stays is at most `target` bytes and no older
        than anything removed; the prefix is as short as the bytes it reclaimed allow; and the amount
        subtracted from the total never exceeds it. On the disk `d`, it is one trim from begin to end. */
    method Trim(target: nat, gone: set<Path>, ghost c: Ceiling, ghost d: Disk)
      returns (reclaimed: nat, ghost order: seq<Listed>, ghost k: nat)
      requires c.target == target && d.files == files && d.stage.Over?
      modifies this
      ensures Lists(order, old(Entries())) && Oldest(order) && k <= |order|
      ensures files == old(files) - gone - Paths(order[..k])
      ensures Sum(order[k..]) <= target
      ensures reclaimed == Sum(Present(order[..k], gone)) <= Sum(order)
      ensures k > 0 ==> Sum(order) - Sum(Present(order[..k - 1], gone)) > target
      ensures gone == {} && k > 0 ==> Sum(order[k - 1..]) > target
      ensures LeadsTo(c, d, Trimmed(d, files, order[k..]))
    {
      var entries, total := Snapshot(c, Begun(d));
      TrimBegins(c, d, entries, total, gone);
      order, k := entries, 0;
      reclaimed := 0;
      files := files - gone;
      ghost var listed := Removes(d, files, entries, total, 0, 0);
      if total <= target {
        assert order[0..] == order && Paths(order[..0]) == {};
        Stays(c, listed);
        TrimEnds(c, d, listed, files, order, total, 0, 0);
        return;
      }
      var visited: nat;
      reclaimed, visited := RemoveOldest(entries, total, target, gone, c, d);
      k := visited;
      TrimmedSums(entries, k, gone, target);
      TrimEnds(c, d, listed, files, order, total, reclaimed, k);
    }

    /** pinToBaseline: exactly the entries outside the baseline and older than the cutoff go. */
    method PinToBaseline(baseline: set<Path>, cutoff: nat) returns (reclaimed: nat, ghost order: seq<Listed>)
      modifies this
      ensures files == old(files) - Residue(old(files), {}, baseline, cutoff).Keys
      ensures forall p :: p in files <==>
                p in old(files) && !(IsCacheEntry(p) && p !in baseline && old(files)[p].modTime < cutoff)
      ensures Lists(order, Residue(old(files), {}, baseline, cutoff)) && reclaimed == Sum(order)
    {
      reclaimed, order := 0, [];
      var all := files;
      var rest := files.Keys;
      assert Residue(all, rest, baseline, cutoff) == map[];
      while rest != {}
        invariant rest <= all.Keys
        invariant files == all - Residue(all, rest, baseline, cutoff).Keys
        invariant Lists(order, Residue(all, rest, baseline, cutoff)) && reclaimed == Sum(order)
        decreases rest
      {
        var p :| p in rest;
        PinNext(all, rest, baseline, cutoff, p, order);
        rest := rest - {p};
        if !IsCacheEntry(p) || p in baseline { continue; }
        var info := files[p];
        if !(info.modTime < cutoff) { continue; }
        files := files - {p};
        reclaimed := reclaimed + info.size;
        order := Insert(Listed(p, info), order);
      }
    }
  }

  /** The entries outside the baseline and older than the cutoff, but for the ones in `rest`. */
  function Residue(files: map<Path, Info>, rest: set<Path>, baseline: set<Path>, cutoff: nat): map<Path, Info> {
    map p | p in files && p !in rest && IsCacheEntry(p) && p !in baseline && files[p].modTime < cutoff :: files[p]
  }

  predicate Stale(files: map<Path, Info>, baseline: set<Path>, cutoff: nat, p: Path) {
    p in files && IsCacheEntry(p) && p !in baseline && files[p].modTime < cutoff
  }

  lemma {:induction false} ResidueNext(files: map<Path, Info>, rest: set<Path>, baseline: set<Path>, cutoff: nat,
                                       p: Path)
    requires p in rest && p in files
    ensures p !in Residue(files, rest, baseline, cutoff)
    ensures Residue(files, rest - {p}, baseline, cutoff) ==
            if Stale(files, baseline, cutoff, p) then Residue(files, rest, baseline, cutoff)[p := files[p]]
            else Residue(files, rest, baseline, cutoff)
  {
  }

  lemma {:induction false} MinusOne(files: map<Path, Info>, swept: map<Path, Info>, p: Path, info: Info)
    ensures files - swept[p := info].Keys == files - swept.Keys - {p}
  {
    assert swept[p := info].Keys == swept.Keys + {p};
  }

  /** What a sweep's visit of `p` makes of the files, of what it removed and of the bytes that was. */
  lemma {:induction false} PinNext(files: map<Path, Info>, rest: set<Path>, baseline: set<Path>, cutoff: nat, p: Path,
                                   order: seq<Listed>)
    requires p in rest && p in files && Lists(order, Residue(files, rest, baseline, cutoff))
    ensures var swept, next := Residue(files, rest, baseline, cutoff), Residue(files, rest - {p}, baseline, cutoff);
            p in files - swept.Keys &&
            if Stale(files, baseline, cutoff, p) then
              var e := Listed(p, files[p]);
              files - next.Keys == files - swept.Keys - {p} && Lists(Insert(e, order), next) &&
                Sum(Insert(e, order)) == Sum(order) + e.info.size
            else next == swept
  {
    var swept := Residue(files, rest, baseline, cutoff);
    ResidueNext(files, rest, baseline, cutoff, p);
    if Stale(files, baseline, cutoff, p) {
      MinusOne(files, swept, p, files[p]);
      InsertCounts(Listed(p, files[p]), order);
      InsertDistinct(Listed(p, files[p]), order, swept);
    }
  }

  // ---------------------------------------------------------------- the ceiling over a run

  ghost predicate DistinctPaths(es: seq<Listed>) {
    forall a, b :: 0 <= a < b < |es| ==> es[a].path != es[b].path
  }

  ghost predicate Within(es: seq<Listed>, base: seq<Listed>, written: seq<Listed>) {
    forall k :: 0 <= k < |es| ==> es[k] in base || es[k] in written
  }

  /** Taking an element out of a list takes its size off the sum, and leaves all others. */
  lemma {:induction false} SumWithout(xs: seq<Listed>, i: nat)
    requires i < |xs|
    ensures Sum(xs) == xs[i].info.size + Sum(xs[..i] + xs[i + 1..])
    ensures forall x :: x in xs && x != xs[i] ==> x in xs[..i] + xs[i + 1..]
  {
    SumSplit(xs, i);
    SumConcat(xs[..i], xs[i + 1..]);
    assert xs[i..][1..] == xs[i + 1..];
    forall x | x in xs && x != xs[i] ensures x in xs[..i] + xs[i + 1..] {
      var k :| 0 <= k < |xs| && xs[k] == x;
      assert k < i ==> xs[..i][k] == x;
      assert k > i ==> xs[i + 1..][k - i - 1] == x;
    }
  }

  /** Different entries, each from a list, are together no larger than the list. */
  lemma {:induction false} SumWithin(es: seq<Listed>, xs: seq<Listed>)
    requires DistinctPaths(es) && forall k :: 0 <= k < |es| ==> es[k] in xs
    ensures Sum(es) <= Sum(xs)
  {
    if es == [] {
    } else {
      var i :| 0 <= i < |xs| && xs[i] == es[0];
      SumWithout(xs, i);
      SumWithin(es[1..], xs[..i] + xs[i + 1..]);
    }
  }

  lemma {:induction false} SumOfTwo(es: seq<Listed>, base: seq<Listed>, written: seq<Listed>)
    requires DistinctPaths(es) && Within(es, base, written)
    ensures Sum(es) <= Sum(base) + Sum(written)
  {
    SumConcat(base, written);
    SumWithin(es, base + written);
  }

  lemma {:induction false} OldestFirstHolds(es: seq<Listed>, x: Listed)
    ensures x in OldestFirst(es) <==> x in es
  {
    if es == [] {
    } else {
      OldestFirstHolds(es[1..], x);
      InsertHolds(es[0], OldestFirst(es[1..]), x);
    }
  }

  lemma {:induction false} OldestFirstKeeps(es: seq<Listed>)
    requires DistinctPaths(es)
    ensures DistinctPaths(OldestFirst(es)) && Sum(OldestFirst(es)) == Sum(es) && Oldest(OldestFirst(es))
  {
    if es == [] {
    } else {
      var rest := OldestFirst(es[1..]);
      OldestFirstKeeps(es[1..]);
      InsertCounts(es[0], rest);
      InsertSorts(es[0], rest);
      forall k | 0 <= k < |rest| ensures rest[k].path != es[0].path {
        OldestFirstHolds(es[1..], rest[k]);
      }
      forall a, b | 0 <= a < b < |OldestFirst(es)| ensures OldestFirst(es)[a].path != OldestFirst(es)[b].path {
        InsertNoRepeat(es[0], rest, a, b);
      }
    }
  }

  /** Since the last trim: what is there is left over from its list or was written since it began, and its
      leftovers are at most the target. */
  ghost predicate TrimOk(c: Ceiling, d: Disk) {
    d.mark <= |d.log| &&
    (d.trims > 0 ==>
       Sum(d.left) <= c.target && From(d.files, d.left, d.log[d.mark..]) &&
       Sum(d.log[..d.mark]) >= (d.trims - 1) * (c.max - c.target + 1))
  }

  /** More than the difference between ceiling and target was written up to `to`. */
  ghost predicate Regrown(c: Ceiling, d: Disk, to: nat)
    requires c.target <= c.max
  {
    d.mark <= to <= |d.log| && (d.trims > 0 ==> Sum(d.log[d.mark..to]) > c.max - c.target)
  }

  ghost predicate StageOk(c: Ceiling, d: Disk)
    requires c.target <= c.max && d.mark <= |d.log|
  {
    match d.stage
    case Resting => true
    case Measuring(_, seen) => DistinctPaths(seen) && (d.trims > 0 ==> Within(seen, d.left, d.log[d.mark..]))
    case Over => Regrown(c, d, |d.log|)
    case Listing(from, seen) => Regrown(c, d, from) && DistinctPaths(seen)
    case Removing(from, order, total, reclaimed, k) =>
      Regrown(c, d, from) && DistinctPaths(order) && k <= |order| && total == Sum(order) &&
      reclaimed <= Sum(order[..k]) &&
      From(d.files, order[k..], d.log[from..])
  }

  ghost predicate DiskOk(c: Ceiling, d: Disk) {
    c.target <= c.max && TrimOk(c, d) && StageOk(c, d)
  }

  lemma {:induction false} LogMore(log: seq<Listed>, m: nat, e: Listed)
    requires m <= |log|
    ensures (log + [e])[m..] == log[m..] + [e] && (log + [e])[..m] == log[..m]
    ensures Sum((log + [e])[m..]) >= Sum(log[m..])
  {
    assert (log + [e])[m..] == log[m..] + [e];
    SumConcat(log[m..], [e]);
  }

  lemma {:induction false} WriteFrom(files: map<Path, Info>, base: seq<Listed>, log: seq<Listed>, m: nat, e: Listed)
    requires m <= |log| && From(files, base, log[m..])
    ensures From(files[e.path := e.info], base, (log + [e])[m..])
  {
    LogMore(log, m, e);
  }

  lemma {:induction false} WriteKeeps(c: Ceiling, d: Disk, e: Listed)
    requires DiskOk(c, d)
    ensures DiskOk(c, Next(c, d, Write(e)))
  {
    LogMore(d.log, d.mark, e);
    if d.trims > 0 { WriteFrom(d.files, d.left, d.log, d.mark, e); }
    match d.stage {
      case Over =>
        assert d.log[d.mark..|d.log|] == d.log[d.mark..] &&
               (d.log + [e])[d.mark..|d.log| + 1] == (d.log + [e])[d.mark..];
      case Listing(from, _) => assert (d.log + [e])[d.mark..from] == d.log[d.mark..from];
      case Removing(from, order, _, _, k) =>
        assert (d.log + [e])[d.mark..from] == d.log[d.mark..from];
        WriteFrom(d.files, order[k..], d.log, from, e);
      case _ =>
    }
  }

  lemma {:induction false} SeeKeeps(c: Ceiling, d: Disk, p: Path)
    requires DiskOk(c, d) && May(c, d, See(p))
    ensures DiskOk(c, Next(c, d, See(p)))
  {
  }

  /** A measurement beyond the ceiling has counted more than was left and regrown. */
  lemma {:induction false} MeasureKeeps(c: Ceiling, d: Disk)
    requires DiskOk(c, d) && May(c, d, EndMeasure)
    ensures DiskOk(c, Next(c, d, EndMeasure))
  {
    assert d.log[d.mark..|d.log|] == d.log[d.mark..];
    if d.trims > 0 { SumOfTwo(d.stage.seen, d.left, d.log[d.mark..]); }
  }

  lemma {:induction false} ListingKeeps(c: Ceiling, d: Disk)
    requires DiskOk(c, d) && May(c, d, EndListing)
    ensures DiskOk(c, Next(c, d, EndListing))
  {
    var order := OldestFirst(d.stage.seen);
    OldestFirstKeeps(d.stage.seen);
    assert order[0..] == order && order[..0] == [];
    forall x | x in d.stage.seen ensures x in order { OldestFirstHolds(d.stage.seen, x); }
  }

  lemma {:induction false} RemoveFrom(files: map<Path, Info>, order: seq<Listed>, k: nat, written: seq<Listed>)
    requires k < |order| && From(files, order[k..], written)
    ensures From(files - {order[k].path}, order[k + 1..], written)
  {
    forall p | p in files - {order[k].path} && IsCacheEntry(p) && Listed(p, files[p]) in order[k..]
      ensures Listed(p, files[p]) in order[k + 1..]
    {
      var i :| 0 <= i < |order[k..]| && order[k..][i] == Listed(p, files[p]);
      assert i > 0 && order[k + 1..][i - 1] == Listed(p, files[p]);
    }
  }

  lemma {:induction false} RemoveKeeps(c: Ceiling, d: Disk)
    requires DiskOk(c, d) && May(c, d, RemoveNext)
    ensures DiskOk(c, Next(c, d, RemoveNext))
  {
    var st := d.stage;
    RemoveFrom(d.files, st.order, st.k, d.log[st.from..]);
    assert st.order[..st.k + 1] == st.order[..st.k] + [st.order[st.k]];
    SumConcat(st.order[..st.k], [st.order[st.k]]);
    if st.order[st.k].path !in d.files { assert d.files - {st.order[st.k].path} == d.files; }
  }

  lemma {:induction false} FinishKeeps(c: Ceiling, d: Disk)
    requires DiskOk(c, d) && May(c, d, Finish)
    ensures DiskOk(c, Next(c, d, Finish))
  {
    var st := d.stage;
    SumSplit(st.order, st.k);
    assert d.log[..st.from] == d.log[..d.mark] + d.log[d.mark..st.from];
    SumConcat(d.log[..d.mark], d.log[d.mark..st.from]);
    OneTrimMore(d.trims, c.max - c.target + 1);
  }

  lemma {:induction false} OneTrimMore(trims: nat, bytes: nat)
    ensures trims * bytes == (trims - 1) * bytes + bytes
  {
  }

  lemma {:induction false} DiskKept(c: Ceiling, d: Disk, t: Tick)
    requires DiskOk(c, d) && May(c, d, t)
    ensures DiskOk(c, Next(c, d, t))
  {
    match t {
      case Write(e) => WriteKeeps(c, d, e);
      case See(p) => SeeKeeps(c, d, p);
      case EndMeasure => MeasureKeeps(c, d);
      case EndListing => ListingKeeps(c, d);
      case RemoveNext => RemoveKeeps(c, d);
      case Finish => FinishKeeps(c, d);
      case StartListing => assert d.log[d.mark..|d.log|] == d.log[d.mark..];
      case _ =>
    }
  }

  lemma {:induction false} TicksKeep(c: Ceiling, d: Disk, ts: seq<Tick>, v: Disk)
    requires DiskOk(c, d) && Ticks(c, d, ts, v)
    ensures DiskOk(c, v)
    decreases |ts|
  {
    if ts == [] {
    } else {
      DiskKept(c, d, ts[0]);
      TicksKeep(c, Next(c, d, ts[0]), ts[1..], v);
    }
  }

  /** The janitor of a run starts at rest, on whatever is there. */
  function AtRest(files: map<Path, Info>): Disk {
    Disk(files, [], Resting, 0, 0, [])
  }

  /** watchCache trims to three quarters of its ceiling. */
  function Watched(max: nat): Ceiling {
    Ceiling(max, max - max / 4)
  }

  /** From the end of a trim on, the entries are at most its target and what was written since it began to
      list them. */
  lemma {:induction false} TrimHolds(max: nat, files: map<Path, Info>, ts: seq<Tick>, v: Disk, es: seq<Listed>)
    requires Ticks(Watched(max), AtRest(files), ts, v) && v.trims > 0 && Lists(es, EntriesBut(v.files, {}))
    ensures v.mark <= |v.log| && Sum(es) <= max - max / 4 + Sum(v.log[v.mark..])
  {
    TicksKeep(Watched(max), AtRest(files), ts, v);
    SumOfTwo(es, v.left, v.log[v.mark..]);
  }

  /** When a measurement finds no more than the ceiling, the entries are at most the ceiling and what was written
      since it began. */
  lemma {:induction false} MeasureHolds(c: Ceiling, files: map<Path, Info>, ts: seq<Tick>, d: Disk, es: seq<Listed>)
    requires c.target <= c.max && Ticks(c, AtRest(files), ts, d) && d.stage.Measuring? && May(c, d, EndMeasure)
    requires Next(c, d, EndMeasure).stage.Resting? && Lists(es, EntriesBut(d.files, {}))
    ensures Sum(es) <= c.max + Sum(d.log[d.stage.from..])
  {
    TicksKeep(c, AtRest(files), ts, d);
    SumOfTwo(es, d.stage.seen, d.log[d.stage.from..]);
  }

  lemma {:induction false} AQuarterEach(n: nat, quarter: nat)
    requires n > 0
    ensures n * (quarter + 1) > n * quarter
  {
  }

  /** Over any run, k finished trims mean that more than k - 1 quarters of the ceiling were written, whatever
      else was written and removed, and whenever. */
  lemma {:induction false} TrimsAreRare(max: nat, files: map<Path, Info>, ts: seq<Tick>, v: Disk)
    requires Ticks(Watched(max), AtRest(files), ts, v) && v.trims >= 2
    ensures Sum(v.log) > (v.trims - 1) * (max / 4)
  {
    var c := Watched(max);
    TicksKeep(c, AtRest(files), ts, v);
    SumSplit(v.log, v.mark);
    assert c.max - c.target + 1 == max / 4 + 1;
    AQuarterEach(v.trims - 1, max / 4);
  }

  /** Someone else removes `p`, or writes it, or a trim has come to it. */
  predicate Touches(d: Disk, t: Tick, p: Path) {
    match t
    case Vanish(q) => q == p
    case Write(e) => e.path == p
    case RemoveNext => d.stage.Removing? && d.stage.k < |d.stage.order| && d.stage.order[d.stage.k].path == p
    case _ => false
  }

  ghost predicate Untouched(c: Ceiling, d: Disk, ts: seq<Tick>, p: Path)
    decreases |ts|
  {
    ts == [] || (May(c, d, ts[0]) && !Touches(d, ts[0], p) && Untouched(c, Next(c, d, ts[0]), ts[1..], p))
  }

  lemma {:induction false} TouchedOrNot(c: Ceiling, d: Disk, t: Tick, p: Path)
    requires May(c, d, t)
    ensures !Touches(d, t, p) ==> (p in Next(c, d, t).files <==> p in d.files)
    ensures !Touches(d, t, p) && p in d.files ==> Next(c, d, t).files[p] == d.files[p]
    ensures Touches(d, t, p) && !t.Write? ==> p !in Next(c, d, t).files
  {
  }

  lemma {:induction false} UntouchedStays(c: Ceiling, d: Disk, ts: seq<Tick>, v: Disk, p: Path)
    requires Ticks(c, d, ts, v) && Untouched(c, d, ts, p)
    ensures p in v.files <==> p in d.files
    ensures p in d.files ==> v.files[p] == d.files[p]
    decreases |ts|
  {
    if ts != [] {
      TouchedOrNot(c, d, ts[0], p);
      UntouchedStays(c, Next(c, d, ts[0]), ts[1..], v, p);
    }
  }

  /** In every run a file is what was last written there until someone else removes it or a trim comes to it, and
      then it is gone until written again. */
  lemma {:induction false} FilesAreWrites(c: Ceiling, d: Disk, t: Tick, ts: seq<Tick>, v: Disk, p: Path)
    requires May(c, d, t) && Touches(d, t, p) && Ticks(c, Next(c, d, t), ts, v) && Untouched(c, Next(c, d, t), ts, p)
    ensures p in v.files <==> t.Write?
    ensures t.Write? ==> v.files[p] == t.e.info
  {
    TouchedOrNot(c, d, t, p);
    UntouchedStays(c, Next(c, d, t), ts, v, p);
  }

  /** A trim has begun and is not finished. */
  predicate Trimming(d: Disk) {
    d.stage.Over? || d.stage.Listing? || d.stage.Removing?
  }

  lemma {:induction false} TrimmingStep(c: Ceiling, d: Disk, t: Tick)
    requires May(c, d, t)
    ensures d.trims <= Next(c, d, t).trims
    ensures Trimming(d) ==> Trimming(Next(c, d, t)) || Next(c, d, t).trims > d.trims
  {
  }

  lemma {:induction false} TrimmingGoesOn(c: Ceiling, d: Disk, ts: seq<Tick>, v: Disk)
    requires Ticks(c, d, ts, v)
    ensures d.trims <= v.trims && (Trimming(d) ==> Trimming(v) || v.trims > d.trims)
    decreases |ts|
  {
    if ts != [] {
      TrimmingStep(c, d, ts[0]);
      TrimmingGoesOn(c, Next(c, d, ts[0]), ts[1..], v);
    }
  }

  /** When a walk has added up more than the ceiling, and only then, a trim begins, and the janitor does not rest
      or measure again before it is finished. */
  lemma {:induction false} OverIsTrimmed(c: Ceiling, d: Disk, ts: seq<Tick>, v: Disk)
    requires d.stage.Measuring? && May(c, d, EndMeasure) && Ticks(c, Next(c, d, EndMeasure), ts, v)
    ensures Trimming(Next(c, d, EndMeasure)) <==> Sum(d.stage.seen) > c.max
    ensures Sum(d.stage.seen) > c.max && (v.stage.Resting? || v.stage.Measuring?) ==> v.trims > d.trims
  {
    TrimmingGoesOn(c, Next(c, d, EndMeasure), ts, v);
  }
}
