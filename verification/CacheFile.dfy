/** What a whole run makes of a cache file (pkg/tc39/cache.go): the lines it streams, the ways it can end,
    and which of its results are still there when the next run loads the file. */
module CacheFile {
  import opened Types
  import opened VerdictCache

  /** A result recorded under a key. */
  datatype Recording = Recording(key: string, r: Result)

  /** The entries after a sequence of recordings. */
  function PutAll(entries: map<string, Entry>, recs: seq<Recording>): map<string, Entry> {
    if recs == [] then entries
    else
      var n := |recs| - 1;
      WithResult(PutAll(entries, recs[..n]), recs[n].key, recs[n].r)
  }

  /** The file after a sequence of recordings into a cache that loaded it and streams to it. */
  function Streamed(f: File, recs: seq<Recording>): (g: File)
    requires Proper(f)
    ensures Proper(g)
  {
    if recs == [] then f
    else
      var n := |recs| - 1;
      var g := Streamed(f, recs[..n]);
      if IsNew(f, recs, n) then Append(g, EntryOf(recs[n].key, recs[n].r)) else g
  }

  /** The k-th recording is the one that enters its key into the cache. */
  predicate IsNew(f: File, recs: seq<Recording>, k: nat)
    requires k < |recs|
  {
    Cacheable(recs[k].r) && recs[k].key !in PutAll(Denote(f.lines), recs[..k])
  }

  lemma {:induction false} NewPrefix(f: File, recs: seq<Recording>, n: nat, k: nat)
    requires k < n <= |recs|
    ensures IsNew(f, recs[..n], k) <==> IsNew(f, recs, k)
  {
    assert recs[..n][..k] == recs[..k];
  }

  /** Killed behind any number of recordings, a run leaves a file that loads as exactly the entries it
      had, with one new line for each new key and no line for a timeout or a crash. */
  lemma {:induction false} StreamRefines(f: File, recs: seq<Recording>)
    requires !f.torn && forall k :: 0 <= k < |recs| ==> recs[k].key != ""
    ensures var g, entries := Streamed(f, recs), PutAll(Denote(f.lines), recs);
            !g.torn && Denote(g.lines) == entries &&
            f.lines <= g.lines &&
            (forall k :: |f.lines| <= k < |g.lines| ==>
             g.lines[k].Parsed? && g.lines[k].e.status != "timeout" && g.lines[k].e.status != "crash") &&
            (forall a, b :: |f.lines| <= b < |g.lines| && 0 <= a < b && g.lines[a].Parsed? ==>
             g.lines[a].e.key != g.lines[b].e.key)
  {
    if recs == [] {
    } else {
      var n := |recs| - 1;
      StreamRefines(f, recs[..n]);
      var g, had := Streamed(f, recs[..n]), PutAll(Denote(f.lines), recs[..n]);
      if Cacheable(recs[n].r) && recs[n].key !in had {
        DenoteAppended(g.lines, Parsed(EntryOf(recs[n].key, recs[n].r)));
        DenoteKeys(g.lines, recs[n].key);
      }
    }
  }

  // ---------------------------------------------------------------- how a run can end

  /** What the next recording would write, whole but for its newline, or a part of it that is no entry. */
  ghost predicate PartOfNext(next: Option<Recording>, l: Line) {
    l == Junk || (next.Some? && Cacheable(next.value.r) && l == Parsed(EntryOf(next.value.key, next.value.r)))
  }

  /** A write cut off within its line. */
  function Cut(f: File, l: Line): File
    requires Proper(f)
  {
    if f.torn then File(f.lines[..|f.lines| - 1] + [Junk], true) else File(f.lines + [l], true)
  }

  /** The file as it is between two recordings, or while the next one is being written. */
  ghost predicate Shows(f: File, recs: seq<Recording>, next: Option<Recording>, h: File)
    requires Proper(f)
  {
    h == Streamed(f, recs) || exists l :: PartOfNext(next, l) && h == Cut(Streamed(f, recs), l)
  }

  /** The file a run leaves behind: as it was when the run was killed, or one line per entry, if it went on
      to Save. */
  ghost predicate Leaves(f: File, recs: seq<Recording>, next: Option<Recording>, h: File)
    requires Proper(f)
  {
    Shows(f, recs, next, h) ||
    (!h.torn && OneLinePerKey(h.lines) && Denote(h.lines) == PutAll(Denote(f.lines), recs) - {""})
  }

  // ---------------------------------------------------------------- what every line says

  /** Every entry on a line of the file is fine. */
  ghost predicate AllFine(lines: seq<Line>, fine: Entry -> bool) {
    forall k :: 0 <= k < |lines| && lines[k].Parsed? ==> fine(lines[k].e)
  }

  /** The entries recorded are fine. */
  ghost predicate FineRecordings(recs: seq<Recording>, fine: Entry -> bool) {
    forall k :: 0 <= k < |recs| && Cacheable(recs[k].r) ==> fine(EntryOf(recs[k].key, recs[k].r))
  }

  ghost predicate FineMap(entries: map<string, Entry>, fine: Entry -> bool) {
    forall key :: key in entries ==> fine(entries[key]) && entries[key].key == key
  }

  lemma {:induction false} DenotedLine(lines: seq<Line>, key: string) returns (k: nat)
    requires key in Denote(lines)
    ensures k < |lines| && lines[k] == Parsed(Denote(lines)[key]) && Denote(lines)[key].key == key
  {
    var n := |lines| - 1;
    if lines[n].Parsed? && lines[n].e.key == key && key != "" {
      k := n;
    } else {
      k := DenotedLine(lines[..n], key);
    }
  }

  lemma {:induction false} LoadedFine(lines: seq<Line>, fine: Entry -> bool)
    requires AllFine(lines, fine)
    ensures FineMap(Denote(lines), fine)
  {
    forall key | key in Denote(lines) ensures fine(Denote(lines)[key]) && Denote(lines)[key].key == key {
      var k := DenotedLine(lines, key);
    }
  }

  lemma {:induction false} PutAllFine(entries: map<string, Entry>, recs: seq<Recording>, fine: Entry -> bool)
    requires FineMap(entries, fine) && FineRecordings(recs, fine)
    ensures FineMap(PutAll(entries, recs), fine)
  {
    if recs == [] {
    } else {
      PutAllFine(entries, recs[..|recs| - 1], fine);
    }
  }

  lemma {:induction false} AppendFine(g: File, e: Entry, fine: Entry -> bool)
    requires Proper(g) && AllFine(g.lines, fine) && fine(e)
    ensures AllFine(Append(g, e).lines, fine)
  {
  }

  lemma {:induction false} CutFine(g: File, l: Line, fine: Entry -> bool)
    requires Proper(g) && AllFine(g.lines, fine) && (l.Parsed? ==> fine(l.e))
    ensures AllFine(Cut(g, l).lines, fine)
  {
  }

  lemma {:induction false} StreamFine(f: File, recs: seq<Recording>, fine: Entry -> bool)
    requires Proper(f) && AllFine(f.lines, fine) && FineRecordings(recs, fine)
    ensures AllFine(Streamed(f, recs).lines, fine)
  {
    if recs == [] {
    } else {
      var n := |recs| - 1;
      StreamFine(f, recs[..n], fine);
      if IsNew(f, recs, n) { AppendFine(Streamed(f, recs[..n]), EntryOf(recs[n].key, recs[n].r), fine); }
    }
  }

  /** Whenever the file is looked at during a run, every entry on it is fine. */
  lemma {:induction false} ShowsFine(f: File, recs: seq<Recording>, next: Option<Recording>, h: File,
                                     fine: Entry -> bool)
    requires Proper(f) && AllFine(f.lines, fine) && FineRecordings(recs, fine) && Shows(f, recs, next, h)
    requires next.Some? && Cacheable(next.value.r) ==> fine(EntryOf(next.value.key, next.value.r))
    ensures AllFine(h.lines, fine)
  {
    StreamFine(f, recs, fine);
    if l :| PartOfNext(next, l) && h == Cut(Streamed(f, recs), l) {
      CutFine(Streamed(f, recs), l, fine);
    }
  }

  /** In a file with one line per key, every line with a key is what the file says under that key. */
  lemma {:induction false} LineIsDenoted(lines: seq<Line>, k: nat)
    requires OneLinePerKey(lines) && k < |lines| && lines[k].e.key != ""
    ensures lines[k].e.key in Denote(lines) && Denote(lines)[lines[k].e.key] == lines[k].e
  {
    DenoteKeys(lines, lines[k].e.key);
    var m := DenotedLine(lines, lines[k].e.key);
  }

  lemma {:induction false} CompactFine(lines: seq<Line>, entries: map<string, Entry>, fine: Entry -> bool)
    requires OneLinePerKey(lines) && Denote(lines) == entries - {""} && FineMap(entries, fine)
    requires forall e: Entry :: e.key == "" ==> fine(e)
    ensures AllFine(lines, fine)
  {
    forall k | 0 <= k < |lines| ensures fine(lines[k].e) {
      if lines[k].e.key != "" { LineIsDenoted(lines, k); }
    }
  }

  /** However a run ends, every entry on the file it leaves is fine, if those it loaded and recorded were. */
  lemma {:induction false} LeavesFine(f: File, recs: seq<Recording>, next: Option<Recording>, h: File,
                                      fine: Entry -> bool)
    requires Proper(f) && AllFine(f.lines, fine) && FineRecordings(recs, fine) && Leaves(f, recs, next, h)
    requires next.Some? && Cacheable(next.value.r) ==> fine(EntryOf(next.value.key, next.value.r))
    requires forall e: Entry :: e.key == "" ==> fine(e)
    ensures AllFine(h.lines, fine)
  {
    if Shows(f, recs, next, h) {
      ShowsFine(f, recs, next, h, fine);
    } else {
      LoadedFine(f.lines, fine);
      PutAllFine(Denote(f.lines), recs, fine);
      CompactFine(h.lines, PutAll(Denote(f.lines), recs), fine);
    }
  }

  // ---------------------------------------------------------------- what stays on file

  /** A whole line of the file, newline included, holds `key`. */
  ghost predicate OnFile(f: File, key: string) {
    key != "" &&
    exists k :: 0 <= k < |f.lines| && (f.torn ==> k < |f.lines| - 1) && f.lines[k].Parsed? && f.lines[k].e.key == key
  }

  lemma {:induction false} HoldsAppended(f: File, e: Entry, key: string)
    requires Proper(f) && (OnFile(f, key) || (!f.torn && key == e.key && key != ""))
    ensures OnFile(Append(f, e), key)
  {
    if OnFile(f, key) {
      var k :| 0 <= k < |f.lines| && (f.torn ==> k < |f.lines| - 1) && f.lines[k].Parsed? && f.lines[k].e.key == key;
      assert Append(f, e).lines[k] == f.lines[k];
    } else {
      assert Append(f, e).lines[|f.lines|] == Parsed(e);
    }
  }

  lemma {:induction false} HoldsCut(f: File, l: Line, key: string)
    requires Proper(f) && OnFile(f, key)
    ensures OnFile(Cut(f, l), key)
  {
    var k :| 0 <= k < |f.lines| && (f.torn ==> k < |f.lines| - 1) && f.lines[k].Parsed? && f.lines[k].e.key == key;
    assert Cut(f, l).lines[k] == f.lines[k];
  }

  /** What a prefix of the recordings left on a whole line, the others leave there. */
  lemma {:induction false} HoldsStreamed(f: File, recs: seq<Recording>, m: nat, key: string)
    requires Proper(f) && m <= |recs| && OnFile(Streamed(f, recs[..m]), key)
    ensures OnFile(Streamed(f, recs), key)
    decreases |recs|
  {
    if m == |recs| {
      assert recs[..m] == recs;
    } else {
      var n := |recs| - 1;
      assert recs[..n][..m] == recs[..m];
      HoldsStreamed(f, recs[..n], m, key);
      if IsNew(f, recs, n) { HoldsAppended(Streamed(f, recs[..n]), EntryOf(recs[n].key, recs[n].r), key); }
    }
  }

  lemma {:induction false} PutAllGrows(entries: map<string, Entry>, recs: seq<Recording>, m: nat, key: string)
    requires m <= |recs| && key in PutAll(entries, recs[..m])
    ensures key in PutAll(entries, recs)
    decreases |recs|
  {
    if m == |recs| {
      assert recs[..m] == recs;
    } else {
      assert recs[..|recs| - 1][..m] == recs[..m];
      PutAllGrows(entries, recs[..|recs| - 1], m, key);
    }
  }

  lemma {:induction false} HeldIsLoaded(f: File, key: string)
    requires OnFile(f, key)
    ensures key in Denote(f.lines)
  {
    DenoteKeys(f.lines, key);
  }

  lemma {:induction false} LoadedIsHeld(f: File, key: string)
    requires !f.torn && key in Denote(f.lines)
    ensures OnFile(f, key)
  {
    DenoteKeys(f.lines, key);
  }

  /** A key that the file holds once everything is recorded, the run leaves on a whole line. */
  lemma {:induction false} HoldsLeft(f: File, recs: seq<Recording>, next: Option<Recording>, h: File, key: string)
    requires Proper(f) && Leaves(f, recs, next, h) && OnFile(Streamed(f, recs), key)
    requires key in PutAll(Denote(f.lines), recs)
    ensures OnFile(h, key)
  {
    if h == Streamed(f, recs) {
    } else if l :| PartOfNext(next, l) && h == Cut(Streamed(f, recs), l) {
      HoldsCut(Streamed(f, recs), l, key);
    } else {
      LoadedIsHeld(h, key);
    }
  }

  /** A key on a whole line stays on a whole line, however the next run ends. */
  lemma {:induction false} HeldStays(f: File, recs: seq<Recording>, next: Option<Recording>, h: File, key: string)
    requires Proper(f) && Leaves(f, recs, next, h) && OnFile(f, key)
    ensures OnFile(h, key)
  {
    assert recs[..0] == [];
    HoldsStreamed(f, recs, 0, key);
    HeldIsLoaded(f, key);
    PutAllGrows(Denote(f.lines), recs, 0, key);
    HoldsLeft(f, recs, next, h, key);
  }

  // ---------------------------------------------------------------- which recording is lost

  /** Some recording before the k-th entered its key, so the file ends in a newline by then. */
  ghost predicate NewBefore(f: File, recs: seq<Recording>, k: nat)
    requires k <= |recs|
  {
    exists m :: 0 <= m < k && IsNew(f, recs, m)
  }

  /** The file lacks its last newline until the first new entry. */
  lemma {:induction false} TornUntilNew(f: File, recs: seq<Recording>, k: nat)
    requires Proper(f) && k <= |recs|
    ensures var g := Streamed(f, recs[..k]);
            if NewBefore(f, recs, k) then !g.torn else g == f
  {
    if k == 0 {
      assert recs[..0] == [];
    } else {
      TornUntilNew(f, recs, k - 1);
      assert recs[..k][..k - 1] == recs[..k - 1];
      NewPrefix(f, recs, k, k - 1);
      if m :| 0 <= m < k && IsNew(f, recs, m) {
        assert m == k - 1 || NewBefore(f, recs, k - 1);
      }
      if NewBefore(f, recs, k - 1) {
        var m :| 0 <= m < k - 1 && IsNew(f, recs, m);
        assert NewBefore(f, recs, k);
      }
    }
  }

  ghost predicate NoLineFor(lines: seq<Line>, key: string) {
    forall k :: 0 <= k < |lines| && lines[k].Parsed? ==> lines[k].e.key != key
  }

  lemma {:induction false} StaysLost(f: File, recs: seq<Recording>, m: nat, key: string)
    requires Proper(f) && m <= |recs| && NoLineFor(Streamed(f, recs[..m]).lines, key)
    requires key in PutAll(Denote(f.lines), recs[..m])
    ensures NoLineFor(Streamed(f, recs).lines, key)
    decreases |recs|
  {
    if m == |recs| {
      assert recs[..m] == recs;
    } else {
      var n := |recs| - 1;
      assert recs[..n][..m] == recs[..m];
      StaysLost(f, recs[..n], m, key);
      PutAllGrows(Denote(f.lines), recs[..n], m, key);
    }
  }

  lemma {:induction false} NotLoaded(lines: seq<Line>, key: string)
    requires key != ""
    ensures key !in Denote(lines) <==> NoLineFor(lines, key)
  {
    DenoteKeys(lines, key);
  }

  /** While a run streams, the next load finds the k-th recording, a new one, exactly if the file ended in
      a newline or another new one came before it: behind a torn line the first new recording is lost, and
      it alone. */
  lemma {:induction false} FoundAgainIff(f: File, recs: seq<Recording>, k: nat)
    requires Proper(f) && k < |recs| && IsNew(f, recs, k) && recs[k].key != ""
    ensures OnFile(Streamed(f, recs), recs[k].key) <==> !f.torn || NewBefore(f, recs, k)
    ensures recs[k].key in Denote(Streamed(f, recs).lines) <==> !f.torn || NewBefore(f, recs, k)
  {
    var key, e := recs[k].key, EntryOf(recs[k].key, recs[k].r);
    var g := Streamed(f, recs[..k]);
    TornUntilNew(f, recs, k);
    assert recs[..k + 1][..k] == recs[..k];
    NewPrefix(f, recs, k + 1, k);
    assert Streamed(f, recs[..k + 1]) == Append(g, e);
    if !f.torn || NewBefore(f, recs, k) {
      HoldsAppended(g, e, key);
      HoldsStreamed(f, recs, k + 1, key);
      HeldIsLoaded(Streamed(f, recs), key);
    } else {
      FirstIsLost(f, recs, k);
    }
  }

  lemma {:induction false} FirstIsLost(f: File, recs: seq<Recording>, k: nat)
    requires Proper(f) && k < |recs| && IsNew(f, recs, k) && recs[k].key != "" && f.torn && !NewBefore(f, recs, k)
    ensures !OnFile(Streamed(f, recs), recs[k].key) && recs[k].key !in Denote(Streamed(f, recs).lines)
  {
    var key := recs[k].key;
    TornUntilNew(f, recs, k);
    assert recs[..k + 1][..k] == recs[..k];
    NewPrefix(f, recs, k + 1, k);
    assert recs[..0] == [];
    if key in Denote(f.lines) { PutAllGrows(Denote(f.lines), recs[..k], 0, key); }
    NotLoaded(f.lines, key);
    StaysLost(f, recs, k + 1, key);
    NotLoaded(Streamed(f, recs).lines, key);
  }
}
