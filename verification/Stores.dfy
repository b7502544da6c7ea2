/** pkg/catalog/store.go: MemoryStore and FSStore as objects. */
module Stores {
  import opened Common
  import opened Order
  import opened Lists
  import opened Entries
  import opened Store

  class MemoryStore {
    var entries: map<string, Entry>

    constructor ()
      ensures entries == map[]
    {
      entries := map[];
    }

    method Get(key: string) returns (got: Got)
      ensures got == GotFrom(entries, key)
    {
      if key !in entries {
        return NotFound;
      }
      return Found(entries[key]);
    }

    method Put(e: Entry) returns (err: Option<Invalid>)
      modifies this
      ensures err == Validate(e)
      ensures entries == if err.None? then old(entries)[KeyOf(e) := e] else old(entries)
    {
      err := Validate(e);
      if err.Some? {
        return;
      }
      entries := entries[KeyOf(e) := e];
    }

    method Delete(key: string)
      modifies this
      ensures entries == old(entries) - {key}
    {
      entries := entries - {key};
    }

    method Keys() returns (out: seq<string>)
      ensures out == SortedKeys(entries.Keys)
    {
      out := ComputeSortedKeys(entries.Keys);
    }
  }

  /** The files whose names are at least n long. */
  ghost function AtLeast(files: Files, n: nat): set<Path> { set p | p in files && |p.name| >= n }

  class FSStore {
    var files: Files

    constructor ()
      ensures files == map[] && FilesValid(files)
    {
      files := map[];
    }

    method Get(key: string) returns (got: Got)
      ensures got == GetFile(files, key)
      ensures FilesValid(files) ==> got == GotFrom(View(files), key)
    {
      if FilesValid(files) { GetIsView(files, key); }
      for i := 0 to |LANGUAGES|
        invariant forall k | 0 <= k < i :: ReadFile(files, EntryPath(LANGUAGES[k], key)) == NotFound
      {
        var e := ReadFile(files, EntryPath(LANGUAGES[i], key));
        if e == NotFound {
          continue;
        }
        assert LANGUAGES[0] == PROMQL && LANGUAGES[1] == LOGQL && LANGUAGES[2] == TRACEQL;
        return e;
      }
      assert LANGUAGES[0] == PROMQL && LANGUAGES[1] == LOGQL && LANGUAGES[2] == TRACEQL;
      return NotFound;
    }

    /** os.CreateTemp: tries names until one is free. */
    method CreateTemp(dir: string) returns (tmp: Path)
      modifies this
      ensures tmp !in old(files) && !IsEntryName(tmp.name) && files == old(files)[tmp := Partial]
    {
      var random := "";
      tmp := Path(dir, TempName(random));
      while tmp in files
        invariant tmp == Path(dir, TempName(random))
        decreases AtLeast(files, |tmp.name|)
      {
        ghost var was := tmp;
        random := random + "0";
        tmp := Path(dir, TempName(random));
        assert was in AtLeast(files, |was.name|) && was !in AtLeast(files, |tmp.name|);
      }
      TempNames(random);
      files := files[tmp := Partial];
    }

    method Put(e0: Entry) returns (err: Option<Invalid>)
      modifies this
      ensures err == Validate(WithSchema(e0))
      ensures files == if err.None? then PutFile(old(files), WithSchema(e0)) else old(files)
      ensures err.None? ==>
        files == old(files)[Path(e0.language, KeyOf(e0) + ".json") := Json(Written(WithSchema(e0)))]
      ensures old(FilesValid(files)) ==> FilesValid(files)
      ensures old(FilesValid(files)) ==>
        View(files) == if err.None? then old(View(files))[KeyOf(e0) := Written(WithSchema(e0))] else old(View(files))
    {
      var e := e0;
      if e.schemaVersion == 0 {
        e := e.(schemaVersion := SCHEMA_VERSION);
      }
      err := Validate(e);
      if err.Some? {
        return;
      }
      ghost var files0 := files;
      var dst := EntryPath(e.language, KeyOf(e));
      var tmp := CreateTemp(dst.dir);
      files := files[tmp := Json(Written(e))];
      EntryNames(KeyOf(e));
      assert tmp != dst;
      files := files[dst := files[tmp]] - {tmp};
      assert files == PutFile(files0, e);
      if FilesValid(files0) { PutView(files0, e); }
    }

    method Delete(key: string)
      modifies this
      ensures files == old(files) - {Path("promql", key + ".json"), Path("logql", key + ".json"),
                                     Path("traceql", key + ".json")}
      ensures files == DeleteFile(old(files), key)
      ensures old(FilesValid(files)) ==> FilesValid(files) && View(files) == old(View(files)) - {key}
    {
      if FilesValid(files) { DeleteView(files, key); }
      files := files - {EntryPath(PROMQL, key)};
      files := files - {EntryPath(LOGQL, key)};
      files := files - {EntryPath(TRACEQL, key)};
      assert files == DeleteFile(old(files), key);
    }

    method Keys() returns (out: seq<string>)
      ensures Sorted(Less, out) && forall k :: multiset(out)[k] == |FilesOf(files.Keys, k)|
      ensures FilesValid(files) ==> out == SortedKeys(View(files).Keys)
    {
      out := [];
      ghost var done: set<Path> := {};
      var rest := files.Keys;
      while rest != {}
        invariant rest <= files.Keys && done == files.Keys - rest
        invariant forall k :: multiset(out)[k] == |FilesOf(done, k)|
        decreases rest
      {
        var p :| p in rest;
        rest := rest - {p};
        if IsEntryName(p.name) {
          out := out + [Stem(p.name)];
        }
        forall k { OneMoreFile(done, p, k); }
        done := done + {p};
      }
      assert done == files.Keys;
      if FilesValid(files) { ListsView(files, out); }
      out := SortStrings(out);
    }
  }

  /** The entry files among some whose names say that they hold key. */
  ghost function FilesOf(ps: set<Path>, key: string): set<Path> {
    set p | p in ps && IsEntryName(p.name) && Stem(p.name) == key
  }

  lemma {:induction false} OneMoreFile(ps: set<Path>, p: Path, key: string)
    requires p !in ps
    ensures |FilesOf(ps + {p}, key)| == |FilesOf(ps, key)| + if IsEntryName(p.name) && Stem(p.name) == key then 1 else 0
  {
    if IsEntryName(p.name) && Stem(p.name) == key {
      assert FilesOf(ps + {p}, key) == FilesOf(ps, key) + {p};
    } else {
      assert FilesOf(ps + {p}, key) == FilesOf(ps, key);
    }
  }

  lemma {:induction false} AtMostOneFile(files: Files, key: string)
    requires FilesValid(files)
    ensures |FilesOf(files.Keys, key)| <= 1
    ensures |FilesOf(files.Keys, key)| > 0 <==> key in EntryKeys(files)
  {
    var s := FilesOf(files.Keys, key);
    if key in EntryKeys(files) {
      var p :| p in files && IsEntryName(p.name) && Stem(p.name) == key;
      forall q | q in s ensures q == p { SameStemSamePath(files, p, q); }
      assert s == {p};
    } else {
      assert s == {};
    }
  }

  lemma {:induction false} TwoCount(s: seq<string>, i: nat, j: nat)
    requires i < j < |s| && s[i] == s[j]
    ensures multiset(s)[s[i]] >= 2
  {
    assert s == s[..j] + s[j..] && s[i] in s[..j] && s[j] in s[j..];
  }

  /** Where every entry file is in its place, the listing is that of the view. */
  lemma {:induction false} ListsView(files: Files, list: seq<string>)
    requires FilesValid(files) && forall k :: multiset(list)[k] == |FilesOf(files.Keys, k)|
    ensures SortStrings(list) == SortedKeys(View(files).Keys)
  {
    forall i, j | 0 <= i < j < |list| ensures list[i] != list[j] {
      AtMostOneFile(files, list[i]);
      if list[i] == list[j] { TwoCount(list, i, j); }
    }
    forall k ensures k in list <==> k in View(files).Keys {
      assert k in list <==> multiset(list)[k] > 0;
      AtMostOneFile(files, k);
      GetIsView(files, k);
    }
    SortListing(View(files).Keys, list);
  }

  lemma {:induction false} SameStemSamePath(files: Files, p: Path, q: Path)
    requires FilesValid(files) && p in files && q in files
    requires IsEntryName(p.name) && IsEntryName(q.name) && Stem(p.name) == Stem(q.name)
    ensures p == q
  {
    var a, b := files[p].entry, files[q].entry;
    StemOf(KeyOf(a));
    StemOf(KeyOf(b));
    OneFilePerKey(files, a.language, b.language, KeyOf(a));
  }

  // ---------- one store refines the other ----------

  datatype Op = PutOp(e: Entry) | GetOp(key: string) | DeleteOp(key: string) | KeysOp
  datatype Reply = PutReply(err: Option<Invalid>) | GetReply(got: Got) | DeleteReply | KeysReply(keys: seq<string>)

  ghost function MemoryStep(m: map<string, Entry>, op: Op): (map<string, Entry>, Reply) {
    match op
    case PutOp(e) => (if Valid(e) then m[KeyOf(e) := e] else m, PutReply(Validate(e)))
    case GetOp(key) => (m, GetReply(GotFrom(m, key)))
    case DeleteOp(key) => (m - {key}, DeleteReply)
    case KeysOp => (m, KeysReply(SortedKeys(m.Keys)))
  }

  ghost function FileStep(files: Files, op: Op): (Files, Reply) {
    match op
    case PutOp(e0) =>
      var e := WithSchema(e0);
      (if Valid(e) then PutFile(files, e) else files, PutReply(Validate(e)))
    case GetOp(key) => (files, GetReply(GetFile(files, key)))
    case DeleteOp(key) => (DeleteFile(files, key), DeleteReply)
    case KeysOp => (files, KeysReply(SortedKeys(EntryKeys(files))))
  }

  /** The file store shows the memory store's entries as they read back. */
  ghost predicate Related(m: map<string, Entry>, files: Files) {
    FilesValid(files) && View(files) == AsRead(m)
  }

  ghost function AsRead(m: map<string, Entry>): map<string, Entry> { map k | k in m :: Written(m[k]) }

  lemma {:induction false} AsReadPut(m: map<string, Entry>, key: string, e: Entry)
    ensures AsRead(m[key := e]) == AsRead(m)[key := Written(e)]
  {
  }

  ghost predicate RepliesMatch(a: Reply, b: Reply) {
    if a.GetReply? && a.got.Found? then b == GetReply(Found(Written(a.got.entry))) else a == b
  }

  /** The two stores answer a put alike exactly when the schema version is set:
      only the file store fills in a missing one. */
  lemma {:induction false} SchemaDefault(e: Entry)
    ensures Validate(e) == Validate(WithSchema(e)) <==> e.schemaVersion != 0
  {
  }

  lemma {:induction false} RefinesPut(m: map<string, Entry>, files: Files, e: Entry)
    requires Related(m, files) && Valid(e)
    ensures Related(m[KeyOf(e) := e], PutFile(files, e))
  {
    PutView(files, e);
    AsReadPut(m, KeyOf(e), e);
  }

  lemma {:induction false} RefinesDelete(m: map<string, Entry>, files: Files, key: string)
    requires Related(m, files)
    ensures Related(m - {key}, DeleteFile(files, key))
  {
    DeleteView(files, key);
  }

  lemma {:induction false} RefinesReads(m: map<string, Entry>, files: Files, key: string)
    requires Related(m, files)
    ensures RepliesMatch(GetReply(GotFrom(m, key)), GetReply(GetFile(files, key)))
    ensures EntryKeys(files) == m.Keys
  {
    GetIsView(files, key);
    forall k ensures k in EntryKeys(files) <==> k in m.Keys { GetIsView(files, k); }
  }

  lemma {:induction false} RefinesStep(m: map<string, Entry>, files: Files, op: Op)
    requires Related(m, files) && (op.PutOp? ==> op.e.schemaVersion != 0)
    ensures Related(MemoryStep(m, op).0, FileStep(files, op).0)
    ensures RepliesMatch(MemoryStep(m, op).1, FileStep(files, op).1)
  {
    match op
    case PutOp(e) =>
      if Valid(e) { RefinesPut(m, files, e); }
    case GetOp(key) => RefinesReads(m, files, key);
    case DeleteOp(key) => RefinesDelete(m, files, key);
    case KeysOp => RefinesReads(m, files, "");
  }

  ghost function MemoryRun(m: map<string, Entry>, ops: seq<Op>): seq<Reply>
    decreases |ops|
  {
    if ops == [] then [] else var (m', r) := MemoryStep(m, ops[0]); [r] + MemoryRun(m', ops[1..])
  }

  ghost function FileRun(files: Files, ops: seq<Op>): seq<Reply>
    decreases |ops|
  {
    if ops == [] then [] else var (files', r) := FileStep(files, ops[0]); [r] + FileRun(files', ops[1..])
  }

  /** Over any sequence of operations whose puts carry a schema version, the file
      store gives the replies of the memory store, entries as they read back. */
  lemma {:induction false} FileStoreRefinesMemoryStore(m: map<string, Entry>, files: Files, ops: seq<Op>)
    requires Related(m, files) && forall i | 0 <= i < |ops| && ops[i].PutOp? :: ops[i].e.schemaVersion != 0
    ensures |MemoryRun(m, ops)| == |FileRun(files, ops)| == |ops|
    ensures forall i | 0 <= i < |ops| :: RepliesMatch(MemoryRun(m, ops)[i], FileRun(files, ops)[i])
    decreases |ops|
  {
    if ops != [] {
      RefinesStep(m, files, ops[0]);
      FileStoreRefinesMemoryStore(MemoryStep(m, ops[0]).0, FileStep(files, ops[0]).0, ops[1..]);
    }
  }

  method PerformMemory(m: MemoryStore, op: Op) returns (a: Reply)
    modifies m
    ensures (m.entries, a) == MemoryStep(old(m.entries), op)
  {
    match op {
      case PutOp(e) =>
        var err := m.Put(e);
        return PutReply(err);
      case GetOp(key) =>
        var got := m.Get(key);
        return GetReply(got);
      case DeleteOp(key) =>
        m.Delete(key);
        return DeleteReply;
      case KeysOp =>
        var keys := m.Keys();
        return KeysReply(keys);
    }
  }

  lemma {:induction false} ListedIsViewed(files: Files)
    requires FilesValid(files)
    ensures View(files).Keys == EntryKeys(files)
  {
    forall k ensures k in EntryKeys(files) <==> k in View(files).Keys { GetIsView(files, k); }
  }

  method PerformFile(f: FSStore, op: Op) returns (b: Reply)
    requires FilesValid(f.files)
    modifies f
    ensures (f.files, b) == FileStep(old(f.files), op)
  {
    match op {
      case PutOp(e) =>
        var err := f.Put(e);
        return PutReply(err);
      case GetOp(key) =>
        var got := f.Get(key);
        return GetReply(got);
      case DeleteOp(key) =>
        f.Delete(key);
        return DeleteReply;
      case KeysOp =>
        ListedIsViewed(f.files);
        var keys := f.Keys();
        return KeysReply(keys);
    }
  }

  /** One operation on both stores. */
  method Perform(m: MemoryStore, f: FSStore, op: Op) returns (a: Reply, b: Reply)
    requires Related(m.entries, f.files) && (op.PutOp? ==> op.e.schemaVersion != 0)
    modifies m, f
    ensures (m.entries, a) == MemoryStep(old(m.entries), op) && (f.files, b) == FileStep(old(f.files), op)
    ensures Related(m.entries, f.files) && RepliesMatch(a, b)
  {
    RefinesStep(m.entries, f.files, op);
    a := PerformMemory(m, op);
    b := PerformFile(f, op);
  }

  lemma {:induction false} RunsNext(m: map<string, Entry>, files: Files, ops: seq<Op>, i: nat)
    requires i < |ops|
    ensures MemoryRun(m, ops[i..]) == [MemoryStep(m, ops[i]).1] + MemoryRun(MemoryStep(m, ops[i]).0, ops[i + 1..])
    ensures FileRun(files, ops[i..]) == [FileStep(files, ops[i]).1] + FileRun(FileStep(files, ops[i]).0, ops[i + 1..])
  {
    assert ops[i..][0] == ops[i] && ops[i..][1..] == ops[i + 1..];
  }

  /** Any sequence of them, from stores that show the same entries. */
  method PerformAll(m: MemoryStore, f: FSStore, ops: seq<Op>) returns (memory: seq<Reply>, disk: seq<Reply>)
    requires Related(m.entries, f.files) && forall i | 0 <= i < |ops| && ops[i].PutOp? :: ops[i].e.schemaVersion != 0
    modifies m, f
    ensures memory == MemoryRun(old(m.entries), ops) && disk == FileRun(old(f.files), ops)
    ensures |memory| == |disk| == |ops| && forall i | 0 <= i < |ops| :: RepliesMatch(memory[i], disk[i])
  {
    memory, disk := [], [];
    ghost var m0, f0 := m.entries, f.files;
    assert ops[0..] == ops;
    FileStoreRefinesMemoryStore(m0, f0, ops);
    for i := 0 to |ops|
      invariant Related(m.entries, f.files)
      invariant MemoryRun(m0, ops) == memory + MemoryRun(m.entries, ops[i..])
      invariant FileRun(f0, ops) == disk + FileRun(f.files, ops[i..])
    {
      RunsNext(m.entries, f.files, ops, i);
      var a, b := Perform(m, f, ops[i]);
      Regroup(memory, [a], MemoryRun(m.entries, ops[i + 1..]));
      Regroup(disk, [b], FileRun(f.files, ops[i + 1..]));
      memory, disk := memory + [a], disk + [b];
    }
    assert ops[|ops|..] == [];
  }
}
