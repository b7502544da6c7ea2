/** pkg/catalog/store.go: the in-memory store and the file store. Both are proved
    against the view a reader has: the entry Get finds for each key. */
module Store {
  import opened Common
  import opened Order
  import opened Lists
  import opened Entries
  import opened Paths

  datatype Got = Found(entry: Entry) | NotFound | Unreadable

  function GotFrom(view: map<string, Entry>, key: string): Got {
    if key in view then Found(view[key]) else NotFound
  }

  // ---------- normalised results ----------

  function NormaliseList(l: List): List {
    if l.Present? then Present(SortedUnique(l.items)) else l
  }

  function Normalise(r: Result): Result {
    r.(metricNames := NormaliseList(r.metricNames), labelNames := NormaliseList(r.labelNames),
       labelValues := map k | k in r.labelValues :: NormaliseList(r.labelValues[k]))
  }

  /** The JSON encoding omits an empty name list, which then reads back as nil. */
  function OmitEmpty(l: List): List { if l == Present([]) then Absent else l }

  function OnDisk(r: Result): Result {
    var n := Normalise(r);
    n.(metricNames := OmitEmpty(n.metricNames), labelNames := OmitEmpty(n.labelNames))
  }

  /** What reading back an entry gives after writing e. */
  function Written(e: Entry): Entry {
    if e.result.None? then e else e.(result := Some(OnDisk(e.result.value)))
  }

  /** A list reads back sorted and without repetitions. */
  ghost predicate ReadsBackAs(l: List, m: List) {
    if l.Absent? then m.Absent?
    else m.Present? && StrictlySorted(Less, m.items) && forall x :: x in m.items <==> x in l.items
  }

  /** An empty list of names reads back as none. */
  ghost predicate NamesReadBackAs(l: List, m: List) { if l == Present([]) then m.Absent? else ReadsBackAs(l, m) }

  /** What reading back an entry changes: its lists alone. */
  lemma {:induction false} WrittenExactly(e: Entry)
    ensures Written(e).(result := e.result) == e && Written(e).result.Some? == e.result.Some?
    ensures e.result.Some? ==>
      var a, b := e.result.value, Written(e).result.value;
      && NamesReadBackAs(a.metricNames, b.metricNames) && NamesReadBackAs(a.labelNames, b.labelNames)
      && b.labelValues.Keys == a.labelValues.Keys && b.seriesCount == a.seriesCount
      && forall k | k in a.labelValues :: ReadsBackAs(a.labelValues[k], b.labelValues[k])
  {
    forall l: List ensures ReadsBackAs(l, NormaliseList(l)) && NamesReadBackAs(l, OmitEmpty(NormaliseList(l))) {
      NormalisedReads(l);
    }
  }

  lemma {:induction false} NormalisedReads(l: List)
    ensures ReadsBackAs(l, NormaliseList(l)) && NamesReadBackAs(l, OmitEmpty(NormaliseList(l)))
  {
    if l.Present? {
      SortedUniqueIs(l.items);
      if l.items != [] { assert l.items[0] in SortedUnique(l.items); }
    }
  }

  function WithSchema(e: Entry): Entry {
    if e.schemaVersion == 0 then e.(schemaVersion := SCHEMA_VERSION) else e
  }

  predicate Valid(e: Entry) { Validate(e) == None }

  // ---------- files ----------

  datatype Path = Path(dir: string, name: string)

  /** A file being written may hold anything; otherwise one encoded entry. */
  datatype Content = Partial | Json(entry: Entry)

  type Files = map<Path, Content>

  function EntryName(key: string): string { key + ".json" }

  function EntryPath(language: string, key: string): Path { Path(language, EntryName(key)) }

  function TempName(random: string): string { ".entry-" + random + ".json.tmp" }

  predicate IsEntryName(name: string) { Ext(name) == ".json" }

  function Stem(name: string): string { if |name| < 5 then "" else name[..|name| - 5] }

  lemma {:induction false} EntryNames(key: string)
    ensures IsEntryName(EntryName(key))
  {
    ExtOf(key, "json");
    assert key + "." + "json" == EntryName(key);
  }

  lemma {:induction false} TempNames(random: string)
    ensures !IsEntryName(TempName(random))
  {
    ExtOf(".entry-" + random + ".json", "tmp");
    assert ".entry-" + random + ".json" + "." + "tmp" == TempName(random);
  }

  /** Exactly which names are entry names, and what key they hold. */
  lemma {:induction false} EntryNameExactly(name: string, key: string)
    ensures IsEntryName(name) && Stem(name) == key <==> name == key + ".json"
  {
    if IsEntryName(name) {
      ExtExactly(name, ".json");
      var stem: string, letters: string :| name == stem + ".json" && ".json" == "." + letters;
      assert name[..|name| - 5] == stem;
    }
    if name == key + ".json" {
      EntryNames(key);
      assert name[..|name| - 5] == key;
    }
  }

  function ReadFile(files: Files, p: Path): Got {
    if p !in files then NotFound
    else if files[p].Partial? || !Valid(files[p].entry) then Unreadable
    else Found(files[p].entry)
  }

  /** Get probes every language directory in order. */
  function GetFile(files: Files, key: string): Got {
    var a := ReadFile(files, EntryPath(PROMQL, key));
    if a != NotFound then a
    else
      var b := ReadFile(files, EntryPath(LOGQL, key));
      if b != NotFound then b else ReadFile(files, EntryPath(TRACEQL, key))
  }

  /** dir is the first of the three directories with a file of the key. */
  ghost predicate FirstHolds(files: Files, dir: string, key: string) {
    var name := key + ".json";
    && (dir == "promql" || dir == "logql" || dir == "traceql") && Path(dir, name) in files
    && (dir != "promql" ==> Path("promql", name) !in files) && (dir == "traceql" ==> Path("logql", name) !in files)
  }

  /** Get answers with the first file there is: the entry it holds, if that is whole and
      nothing is wrong with it. */
  lemma {:induction false} GetExactly(files: Files, key: string)
    ensures forall dir | FirstHolds(files, dir, key) ::
      var c := files[Path(dir, key + ".json")];
      GetFile(files, key) == if c.Json? && forall w :: !Wrong(c.entry, w) then Found(c.entry) else Unreadable
    ensures (forall dir :: !FirstHolds(files, dir, key)) ==> GetFile(files, key) == NotFound
  {
    forall e: Entry ensures Valid(e) <==> forall w :: !Wrong(e, w) { ValidExactly(e, NoQuery); }
    if Path("promql", key + ".json") in files {
      assert FirstHolds(files, "promql", key);
    } else if Path("logql", key + ".json") in files {
      assert FirstHolds(files, "logql", key);
    } else if Path("traceql", key + ".json") in files {
      assert FirstHolds(files, "traceql", key);
    }
  }

  /** An entry file sits where its own key says, and holds a whole valid entry. */
  predicate Proper(p: Path, c: Content) {
    c.Json? && Valid(c.entry) && p == EntryPath(c.entry.language, KeyOf(c.entry))
  }

  ghost predicate FilesValid(files: Files) {
    forall p | p in files && IsEntryName(p.name) :: Proper(p, files[p])
  }

  /** What Keys lists: the stems of the entry files. */
  ghost function EntryKeys(files: Files): set<string> {
    set p | p in files && IsEntryName(p.name) :: Stem(p.name)
  }

  /** For each key the entry a reader finds. */
  ghost function View(files: Files): map<string, Entry> {
    map key | key in EntryKeys(files) && GetFile(files, key).Found? :: GetFile(files, key).entry
  }

  lemma {:induction false} StemOf(key: string)
    ensures Stem(EntryName(key)) == key
  {
    assert EntryName(key)[..|EntryName(key)| - 5] == key;
  }

  lemma {:induction false} ReadProper(files: Files, language: string, key: string)
    requires FilesValid(files)
    ensures var got, p := ReadFile(files, EntryPath(language, key)), EntryPath(language, key);
      if p !in files then got == NotFound
      else got.Found? && files[p] == Json(got.entry) && Valid(got.entry) &&
           KeyOf(got.entry) == key && got.entry.language == language && key in EntryKeys(files)
  {
    var p := EntryPath(language, key);
    EntryNames(key);
    StemOf(key);
    if p in files {
      assert Proper(p, files[p]);
      StemOf(KeyOf(files[p].entry));
    }
  }

  ghost predicate Sound(key: string, e: Entry) { Valid(e) && KeyOf(e) == key }

  lemma {:induction false} ListedPath(files: Files, key: string)
    requires FilesValid(files) && key in EntryKeys(files)
    ensures EntryPath(PROMQL, key) in files || EntryPath(LOGQL, key) in files || EntryPath(TRACEQL, key) in files
  {
    var p :| p in files && IsEntryName(p.name) && Stem(p.name) == key;
    assert Proper(p, files[p]);
    ProperPath(p, files[p], key);
  }

  lemma {:induction false} ProperPath(p: Path, c: Content, key: string)
    requires Proper(p, c) && Stem(p.name) == key
    ensures p == EntryPath(PROMQL, key) || p == EntryPath(LOGQL, key) || p == EntryPath(TRACEQL, key)
  {
    StemOf(KeyOf(c.entry));
    assert ValidLanguage(c.entry.language);
  }

  /** A key is listed exactly if Get finds an entry, which is then sound. */
  lemma {:induction false} GetListed(files: Files, key: string)
    requires FilesValid(files)
    ensures GetFile(files, key).Found? <==> key in EntryKeys(files)
    ensures GetFile(files, key) != Unreadable
    ensures GetFile(files, key).Found? ==> Sound(key, GetFile(files, key).entry)
  {
    ReadProper(files, PROMQL, key);
    ReadProper(files, LOGQL, key);
    ReadProper(files, TRACEQL, key);
    if key in EntryKeys(files) { ListedPath(files, key); }
  }

  /** Get finds exactly what the view holds: valid entries under their own keys,
      one for every key listed. */
  lemma {:induction false} GetIsView(files: Files, key: string)
    requires FilesValid(files)
    ensures GetFile(files, key) == GotFrom(View(files), key)
    ensures key in EntryKeys(files) <==> key in View(files)
    ensures key in View(files) ==> Sound(key, View(files)[key])
  {
    GetListed(files, key);
  }

  /** Two entry files never share a key. */
  lemma {:induction false} OneFilePerKey(files: Files, language: string, language': string, key: string)
    requires FilesValid(files) && EntryPath(language, key) in files && EntryPath(language', key) in files
    requires ValidLanguage(language) && ValidLanguage(language')
    ensures language == language'
  {
    ReadProper(files, language, key);
    ReadProper(files, language', key);
    var a, b := files[EntryPath(language, key)].entry, files[EntryPath(language', key)].entry;
    KeyDetermines(a.language, a.source, a.query, b.language, b.source, b.query);
  }

  // ---------- what a change of files does to the view ----------

  function PutFile(files: Files, e: Entry): Files {
    files[EntryPath(e.language, KeyOf(e)) := Json(Written(e))]
  }

  function DeleteFile(files: Files, key: string): Files {
    files - {EntryPath(PROMQL, key), EntryPath(LOGQL, key), EntryPath(TRACEQL, key)}
  }

  /** At every other path the files agree. */
  lemma {:induction false} GetUnchanged(files: Files, files': Files, key: string)
    requires forall l | ValidLanguage(l) :: EntryPath(l, key) in files <==> EntryPath(l, key) in files'
    requires forall l | ValidLanguage(l)
        && EntryPath(l, key) in files :: files[EntryPath(l, key)] == files'[EntryPath(l, key)]
    ensures GetFile(files, key) == GetFile(files', key)
  {
    assert ValidLanguage(PROMQL) && ValidLanguage(LOGQL) && ValidLanguage(TRACEQL);
  }

  lemma {:induction false} EntryPathInjective(l: string, key: string, l': string, key': string)
    requires EntryPath(l, key) == EntryPath(l', key')
    ensures l == l' && key == key'
  {
    StemOf(key);
    StemOf(key');
  }

  lemma {:induction false} PutGet(files: Files, e: Entry, key: string)
    requires FilesValid(files) && Valid(e)
    ensures FilesValid(PutFile(files, e))
    ensures GetFile(PutFile(files, e), key) == if key == KeyOf(e) then Found(Written(e)) else GetFile(files, key)
  {
    var p, files' := EntryPath(e.language, KeyOf(e)), PutFile(files, e);
    EntryNames(KeyOf(e));
    assert Proper(p, Json(Written(e)));
    if key == KeyOf(e) {
      ReadProper(files', PROMQL, key);
      ReadProper(files', LOGQL, key);
      ReadProper(files', TRACEQL, key);
      forall l | ValidLanguage(l) && EntryPath(l, key) in files' ensures l == e.language {
        OneFilePerKey(files', l, e.language, key);
      }
    } else {
      forall l ensures EntryPath(l, key) != p {
        if EntryPath(l, key) == p { EntryPathInjective(l, key, e.language, KeyOf(e)); }
      }
      GetUnchanged(files, files', key);
    }
  }

  /** A file under the key in a directory that Get probes before that of the language. */
  predicate ShadowedKey(files: Files, language: string, key: string) {
    (language != PROMQL && EntryPath(PROMQL, key) in files) || (language == TRACEQL && EntryPath(LOGQL, key) in files)
  }

  predicate Shadowed(files: Files, e: Entry) { ShadowedKey(files, e.language, KeyOf(e)) }

  /** Into any files, damaged or foreign ones among them: an entry just put is the one
      found for its key exactly if no file shadows it, and no other key is affected. */
  lemma {:induction false} PutReadsBack(files: Files, e: Entry, key: string)
    requires Valid(e)
    ensures GetFile(PutFile(files, e), key) ==
      if key == KeyOf(e) && !Shadowed(files, e) then Found(Written(e)) else GetFile(files, key)
  {
    var p, files' := EntryPath(e.language, KeyOf(e)), PutFile(files, e);
    forall l | EntryPath(l, key) == p ensures l == e.language && key == KeyOf(e) {
      EntryPathInjective(l, key, e.language, KeyOf(e));
    }
    assert ReadFile(files', p) == Found(Written(e));
    if key != KeyOf(e) { GetUnchanged(files, files', key); }
  }

  lemma {:induction false} FoundIsListed(files: Files, key: string)
    requires GetFile(files, key).Found?
    ensures key in EntryKeys(files)
  {
    EntryNames(key);
    StemOf(key);
    if EntryPath(PROMQL, key) in files {
    } else if EntryPath(LOGQL, key) in files {
    } else {
      assert EntryPath(TRACEQL, key) in files;
    }
  }

  /** Whatever files there are, the view holds the entries that Get finds. */
  lemma {:induction false} ViewIsFound(files: Files, key: string)
    ensures key in View(files) <==> GetFile(files, key).Found?
    ensures key in View(files) ==> View(files)[key] == GetFile(files, key).entry
  {
    if GetFile(files, key).Found? { FoundIsListed(files, key); }
  }

  /** A put that nothing shadows changes the view at one key, whatever files there are. */
  lemma {:induction false} UnshadowedPutView(files: Files, e: Entry)
    requires Valid(e) && !Shadowed(files, e)
    ensures View(PutFile(files, e)) == View(files)[KeyOf(e) := Written(e)]
  {
    var view, view' := View(files), View(PutFile(files, e));
    forall key
      ensures key in view' <==> key in view || key == KeyOf(e)
      ensures key in view' ==> view'[key] == if key == KeyOf(e) then Written(e) else view[key]
    {
      PutReadsBack(files, e, key);
      ViewIsFound(files, key);
      ViewIsFound(PutFile(files, e), key);
    }
    Updated(view, view', KeyOf(e), Written(e));
  }

  lemma {:induction false} DeleteGet(files: Files, gone: string, key: string)
    requires FilesValid(files)
    ensures FilesValid(DeleteFile(files, gone))
    ensures GetFile(DeleteFile(files, gone), key) == if key == gone then NotFound else GetFile(files, key)
  {
    if key != gone {
      forall l, l' ensures EntryPath(l, key) != EntryPath(l', gone) {
        if EntryPath(l, key) == EntryPath(l', gone) { EntryPathInjective(l, key, l', gone); }
      }
      GetUnchanged(files, DeleteFile(files, gone), key);
    }
  }

  /** Files whose names are not entry names are invisible. */
  ghost predicate SameEntries(files: Files, files': Files) {
    && (forall p: Path | IsEntryName(p.name) :: p in files <==> p in files')
    && (forall p: Path | IsEntryName(p.name) && p in files :: files[p] == files'[p])
  }

  lemma {:induction false} SameEntriesSameView(files: Files, files': Files)
    requires FilesValid(files) && SameEntries(files, files')
    ensures FilesValid(files') && View(files') == View(files) && EntryKeys(files') == EntryKeys(files)
  {
    forall key ensures GetFile(files', key) == GetFile(files, key) {
      EntryNames(key);
      GetUnchanged(files, files', key);
    }
    forall key ensures key in EntryKeys(files) <==> key in EntryKeys(files') {
      if key in EntryKeys(files) {
        var p :| p in files && IsEntryName(p.name) && Stem(p.name) == key;
        assert p in files';
      }
      if key in EntryKeys(files') {
        var p :| p in files' && IsEntryName(p.name) && Stem(p.name) == key;
        assert p in files;
      }
    }
  }

  lemma {:induction false} PutViewAt(files: Files, e: Entry, key: string)
    requires FilesValid(files) && Valid(e)
    ensures var view, view' := View(files), View(PutFile(files, e));
      && (key in view' <==> key in view || key == KeyOf(e))
      && (key in view' ==> view'[key] == if key == KeyOf(e) then Written(e) else view[key])
  {
    PutGet(files, e, key);
    GetIsView(files, key);
    GetIsView(PutFile(files, e), key);
  }

  /** A put changes the view at one key. */
  lemma {:induction false} PutView(files: Files, e: Entry)
    requires FilesValid(files) && Valid(e)
    ensures FilesValid(PutFile(files, e)) && View(PutFile(files, e)) == View(files)[KeyOf(e) := Written(e)]
  {
    PutGet(files, e, KeyOf(e));
    forall key { PutViewAt(files, e, key); }
    Updated(View(files), View(PutFile(files, e)), KeyOf(e), Written(e));
  }

  lemma {:induction false} Updated<K, V>(m: map<K, V>, m': map<K, V>, k: K, v: V)
    requires forall key ::
      (key in m' <==> key in m || key == k) && (key in m' ==> m'[key] == if key == k then v else m[key])
    ensures m' == m[k := v]
  {
  }

  lemma {:induction false} Removed<K, V>(m: map<K, V>, m': map<K, V>, k: K)
    requires forall key :: (key in m' <==> key in m && key != k) && (key in m' ==> m'[key] == m[key])
    ensures m' == m - {k}
  {
  }

  lemma {:induction false} DeleteViewAt(files: Files, gone: string, key: string)
    requires FilesValid(files)
    ensures var view, view' := View(files), View(DeleteFile(files, gone));
      (key in view' <==> key in view && key != gone) && (key in view' ==> view'[key] == view[key])
  {
    DeleteGet(files, gone, key);
    GetIsView(files, key);
    GetIsView(DeleteFile(files, gone), key);
  }

  /** A delete takes one key out of the view. */
  lemma {:induction false} DeleteView(files: Files, gone: string)
    requires FilesValid(files)
    ensures FilesValid(DeleteFile(files, gone)) && View(DeleteFile(files, gone)) == View(files) - {gone}
  {
    DeleteGet(files, gone, gone);
    forall key { DeleteViewAt(files, gone, key); }
    Removed(View(files), View(DeleteFile(files, gone)), gone);
  }
}
