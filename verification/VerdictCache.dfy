/** The results cache (pkg/tc39/cache.go): an append-only log of JSON lines that denotes a map, last
    line wins, kept in step with the in-memory entries and compacted by an atomic rewrite. */
module VerdictCache {
  import opened Types

  datatype Entry = Entry(key: string, status: string, error: string)

  /** A line of the file: one entry, or bytes that do not decode. */
  datatype Line = Parsed(e: Entry) | Junk

  /** A file's lines; `torn` says that the last one lacks its newline. */
  datatype File = File(lines: seq<Line>, torn: bool)

  const EMPTY := File([], false)

  predicate Proper(f: File) {
    f.torn ==> f.lines != []
  }

  /** Appending a line: behind a torn line the new bytes join it, and the joined line does not decode. */
  function Append(f: File, e: Entry): File
    requires Proper(f)
  {
    if f.torn then File(f.lines[..|f.lines| - 1] + [Junk], false) else File(f.lines + [Parsed(e)], false)
  }

  /** The map a file denotes: the last decodable line with a key wins, lines without a key are skipped. */
  function Denote(lines: seq<Line>): map<string, Entry> {
    if lines == [] then map[]
    else
      var before, last := Denote(lines[..|lines| - 1]), lines[|lines| - 1];
      if last.Parsed? && last.e.key != "" then before[last.e.key := last.e] else before
  }

  /** The two statuses a machine can cause stay out. */
  predicate Cacheable(r: Result) {
    r.status != "timeout" && r.status != "crash"
  }

  function EntryOf(key: string, r: Result): Entry {
    Entry(key, r.status, r.error)
  }

  /** What recording `r` under `key` does to the entries: the first cacheable result stays. */
  function WithResult(entries: map<string, Entry>, key: string, r: Result): map<string, Entry> {
    if !Cacheable(r) || key in entries then entries else entries[key := EntryOf(key, r)]
  }

  lemma {:induction false} DenoteAppended(lines: seq<Line>, l: Line)
    ensures Denote(lines + [l]) == if l.Parsed? && l.e.key != "" then Denote(lines)[l.e.key := l.e] else Denote(lines)
  {
    assert (lines + [l])[..|lines|] == lines;
  }

  /** Every key of the denoted map comes from a line of the file, and every keyed line is denoted. */
  lemma {:induction false} DenoteKeys(lines: seq<Line>, key: string)
    ensures key in Denote(lines) <==>
            key != "" && exists k :: 0 <= k < |lines| && lines[k].Parsed? && lines[k].e.key == key
    ensures key in Denote(lines) ==> Denote(lines)[key].key == key
  {
    if lines == [] {
    } else {
      var n := |lines| - 1;
      DenoteKeys(lines[..n], key);
      if k :| 0 <= k < n && lines[..n][k].Parsed? && lines[..n][k].e.key == key {
        assert lines[k].Parsed? && lines[k].e.key == key;
      }
      if k :| 0 <= k < |lines| && lines[k].Parsed? && lines[k].e.key == key {
        if k < n { assert lines[..n][k] == lines[k]; }
      }
    }
  }

  /** Appending an entry under a new key extends the denoted map by it exactly when the key is not empty
      and the file ends in a newline. */
  lemma {:induction false} AppendExtendsIff(f: File, e: Entry)
    requires Proper(f) && e.key !in Denote(f.lines)
    ensures Denote(Append(f, e).lines) == Denote(f.lines)[e.key := e] <==> e.key != "" && !f.torn
  {
    if f.torn {
      var kept := f.lines[..|f.lines| - 1];
      DenoteAppended(kept, Junk);
    } else {
      DenoteAppended(f.lines, Parsed(e));
      DenoteKeys(f.lines, e.key);
    }
  }

  /** The directory entry of the cache file, and the temporary a rewrite goes through. */
  class Disk {
    var file: Option<File>
    var tmp: Option<File>

    constructor (file: Option<File>)
      ensures this.file == file && tmp == None
    {
      this.file := file;
      tmp := None;
    }
  }

  function Lines(file: Option<File>): seq<Line> {
    if file.Some? then file.value.lines else []
  }

  class Cache {
    const disk: Disk
    var entries: map<string, Entry>
    var added: nat
    var streaming: bool

    /** The file on disk denotes exactly the entries in memory. */
    ghost predicate Refines()
      reads this, disk
    {
      Denote(Lines(disk.file)) == entries
    }

    /** Entries are filed under their own keys. */
    ghost predicate Valid()
      reads this
    {
      forall k :: k in entries ==> entries[k].key == k
    }

    /** A file a streaming cache appends to: it is there, and ends in a newline. */
    ghost predicate Appendable()
      reads disk
    {
      disk.file.Some? && !disk.file.value.torn
    }

    /** LoadCache: a missing file is an empty cache. */
    constructor (disk: Disk)
      ensures this.disk == disk && added == 0 && !streaming
      ensures entries == Denote(Lines(disk.file)) && Refines() && Valid()
    {
      this.disk := disk;
      added := 0;
      streaming := false;
      entries := map[];
      new;
      if disk.file.Some? {
        var lines := disk.file.value.lines;
        var i := 0;
        while i < |lines|
          modifies `entries
          invariant 0 <= i <= |lines| && entries == Denote(lines[..i]) && Valid()
        {
          DenoteAppended(lines[..i], lines[i]);
          assert lines[..i] + [lines[i]] == lines[..i + 1];
          if lines[i].Parsed? && lines[i].e.key != "" {
            entries := entries[lines[i].e.key := lines[i].e];
          }
          i := i + 1;
        }
        assert lines[..|lines|] == lines;
      }
    }

    method BeginStream()
      modifies this`streaming, disk`file
      ensures streaming && disk.file == (if old(disk.file).Some? then old(disk.file) else Some(EMPTY))
      ensures old(Refines()) ==> Refines()
      ensures old(disk.file).None? ==> Appendable()
    {
      if disk.file.None? { disk.file := Some(EMPTY); }
      streaming := true;
    }

    method CloseStream()
      modifies this`streaming
      ensures !streaming
    {
      streaming := false;
    }

    method Get(key: string, id: JobId) returns (r: Option<Result>)
      ensures r == if key in entries then Some(Result(id, entries[key].status, entries[key].error, "")) else None
    {
      if key !in entries { return None; }
      return Some(Result(id, entries[key].status, entries[key].error, ""));
    }

    /** Records a result: entries gain at most this one, and the file gains its line at once when
        streaming, and only for a key it did not hold. The file keeps denoting the entries as long as
        keys are not empty and it ended in a newline. */
    method Put(key: string, r: Result)
      requires Valid()
      requires streaming ==> disk.file.Some? && Proper(disk.file.value)
      modifies this`entries, this`added, disk`file
      ensures Valid()
      ensures entries == WithResult(old(entries), key, r)
      ensures entries == old(entries) <==> key in old(entries) || r.status == "timeout" || r.status == "crash"
      ensures key !in old(entries) && r.status != "timeout" && r.status != "crash" ==>
                entries == old(entries)[key := Entry(key, r.status, r.error)]
      ensures added == old(added) + if entries == old(entries) then 0 else 1
      ensures disk.file ==
              if streaming && entries != old(entries) then Some(Append(old(disk.file).value, EntryOf(key, r)))
              else old(disk.file)
      ensures disk.tmp == old(disk.tmp)
      ensures streaming && old(Refines()) && old(Appendable()) && key != "" ==> Refines() && Appendable()
      ensures streaming && old(Refines()) && entries != old(entries) ==> (Refines() <==> key != "" && old(Appendable()))
    {
      if r.status == "timeout" || r.status == "crash" { return; }
      if key in entries { return; }
      var e := Entry(key, r.status, r.error);
      entries := entries[key := e];
      added := added + 1;
      if streaming {
        if key !in Denote(disk.file.value.lines) { AppendExtendsIff(disk.file.value, e); }
        disk.file := Some(Append(disk.file.value, e));
      }
    }

    /** Writes the entries, in any order, to the temporary; `stop` interrupts it after that many lines. */
    method Encode(stop: Option<nat>) returns (done: bool)
      requires Valid()
      modifies disk`tmp
      ensures stop.None? ==> done
      ensures done ==> disk.tmp.Some? && !disk.tmp.value.torn && Compacts(disk.tmp.value.lines, entries, {})
    {
      disk.tmp := Some(EMPTY);
      var rest := entries.Keys;
      StartCompact(entries);
      while rest != {}
        modifies disk`tmp
        invariant rest <= entries.Keys && disk.tmp.Some? && !disk.tmp.value.torn
        invariant Compacts(disk.tmp.value.lines, entries, rest)
        decreases rest
      {
        if stop.Some? && |disk.tmp.value.lines| >= stop.value { return false; }
        var k :| k in rest;
        CompactMore(disk.tmp.value.lines, entries, rest, k);
        disk.tmp := Some(Append(disk.tmp.value, entries[k]));
        rest := rest - {k};
      }
      return true;
    }

    /** Compacts the file to one line per key through a temporary and a rename. `stop` interrupts it
        before the rename. */
    method Save(stop: Option<nat>) returns (done: bool)
      requires Valid()
      modifies this`streaming, disk
      ensures Valid() && !streaming && entries == old(entries) && added == old(added)
      ensures !done || added == 0 ==> disk.file == old(disk.file)
      ensures done && added > 0 ==>
                Appendable() && OneLinePerKey(disk.file.value.lines) &&
                |disk.file.value.lines| == |entries|
      ensures done && added > 0 ==> Denote(disk.file.value.lines) == entries - {""}
      ensures old(Refines()) ==> Refines()
      ensures stop.None? ==> done
    {
      CloseStream();
      if added == 0 { return true; }
      var encoded := Encode(stop);
      if !encoded || stop.Some? { return false; }
      DenoteKeys(Lines(disk.file), "");
      assert entries - {} - {""} == entries - {""} && entries.Keys - {} == entries.Keys;
      assert old(Refines()) ==> entries - {""} == entries;
      disk.file := disk.tmp;
      disk.tmp := None;
      return true;
    }
  }

  ghost predicate OneLinePerKey(lines: seq<Line>) {
    (forall k :: 0 <= k < |lines| ==> lines[k].Parsed?) &&
    forall a, b :: 0 <= a < b < |lines| ==> lines[a].e.key != lines[b].e.key
  }

  /** The lines hold one line for each entry whose key is not in `rest`, and denote just those. */
  ghost predicate Compacts(lines: seq<Line>, entries: map<string, Entry>, rest: set<string>) {
    OneLinePerKey(lines) && Denote(lines) == entries - rest - {""} && |lines| == |entries.Keys - rest| &&
    forall k :: 0 <= k < |lines| ==> lines[k].e.key in entries && lines[k].e.key !in rest
  }

  lemma {:induction false} StartCompact(entries: map<string, Entry>)
    ensures Compacts([], entries, entries.Keys)
  {
    assert entries.Keys - entries.Keys == {};
  }

  lemma {:induction false} CompactMore(lines: seq<Line>, entries: map<string, Entry>, rest: set<string>, k: string)
    requires Compacts(lines, entries, rest) && rest <= entries.Keys && k in rest && entries[k].key == k
    ensures Compacts(lines + [Parsed(entries[k])], entries, rest - {k})
  {
    var more := lines + [Parsed(entries[k])];
    DenoteAppended(lines, Parsed(entries[k]));
    assert entries.Keys - (rest - {k}) == (entries.Keys - rest) + {k};
    assert Denote(more) == entries - (rest - {k}) - {""};
  }

  /** A file that does not end in a newline loses its last entry and the first new one. */
  lemma {:induction false} TornFileLosesEntry(e: Entry, first: Entry)
    requires first.key != "" && e.key != "" && e.key != first.key
    ensures var f := File([Parsed(first)], true);
            Denote(f.lines) == map[first.key := first] && Denote(Append(f, e).lines) == map[]
  {
    var f := File([Parsed(first)], true);
    assert f.lines[..0] == [];
    assert Append(f, e).lines == [Junk];
    DenoteAppended([], Parsed(first));
    DenoteAppended([], Junk);
  }
}
