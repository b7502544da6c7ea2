/** pkg/catalog/store.go, FSStore.Put under concurrency and crashes: every step of
    every writer, interleaved in any way, with any writer stopping at any point. */
module StoreCrash {
  import opened Entries
  import opened Store

  /** Where a writer stands in Put: not begun, temp file created, entry encoded
      into it, renamed into place; or stopped, leaving its temp file behind or
      having removed it. */
  datatype Phase = Idle | Created(tmp: Path) | Encoded(tmp: Path) | Renamed | Stopped

  /** Each writer puts one entry. */
  datatype State = State(files: Files, phases: seq<Phase>)

  datatype Step =
    | Create(w: nat, tmp: Path)
    | Scribble(w: nat)                 // some of the encoding has reached the file
    | Encode(w: nat)
    | Rename(w: nat)
    | Crash(w: nat)
    | GiveUp(w: nat)                   // an error path, whose deferred cleanup removes the temp file

  ghost predicate Enabled(entries: seq<Entry>, s: State, a: Step) {
    && a.w < |s.phases| == |entries|
    && match a
       case Create(w, tmp) => s.phases[w].Idle? && tmp !in s.files && !IsEntryName(tmp.name)
       case Scribble(w) => s.phases[w].Created?
       case Encode(w) => s.phases[w].Created?
       case Rename(w) => s.phases[w].Encoded? && s.phases[w].tmp in s.files
       case Crash(w) => !s.phases[w].Renamed?
       case GiveUp(w) => s.phases[w].Created? || s.phases[w].Encoded?
  }

  function Place(s: State, w: nat, files: Files, phase: Phase): State
    requires w < |s.phases|
  {
    State(files, s.phases[w := phase])
  }

  ghost function Do(entries: seq<Entry>, s: State, a: Step): State
    requires Enabled(entries, s, a)
  {
    match a
    case Create(w, tmp) => Place(s, w, s.files[tmp := Partial], Created(tmp))
    case Scribble(w) => Place(s, w, s.files[s.phases[w].tmp := Partial], s.phases[w])
    case Encode(w) => Place(s, w, s.files[s.phases[w].tmp := Json(Written(entries[w]))], Encoded(s.phases[w].tmp))
    case Rename(w) =>
      var tmp, e := s.phases[w].tmp, entries[w];
      Place(s, w, s.files[EntryPath(e.language, KeyOf(e)) := s.files[tmp]] - {tmp}, Renamed)
    case Crash(w) => Place(s, w, s.files, Stopped)
    case GiveUp(w) => Place(s, w, s.files - {s.phases[w].tmp}, Stopped)
  }

  ghost predicate Run(entries: seq<Entry>, s: State, steps: seq<Step>, s': State)
    decreases |steps|
  {
    if steps == [] then s == s'
    else Enabled(entries, s, steps[0]) && Run(entries, Do(entries, s, steps[0]), steps[1..], s')
  }

  predicate HasTemp(p: Phase) { p.Created? || p.Encoded? }

  /** A writer's temp file is there, hidden, and holds what was written to it. */
  ghost predicate TempFine(e: Entry, files: Files, p: Phase) {
    HasTemp(p) ==>
      && !IsEntryName(p.tmp.name) && p.tmp in files
      && (p.Encoded? ==> files[p.tmp] == Json(Written(e)))
  }

  ghost predicate Apart(p: Phase, q: Phase) { HasTemp(p) && HasTemp(q) ==> p.tmp != q.tmp }

  ghost predicate Inv(entries: seq<Entry>, s: State) {
    && |s.phases| == |entries| && FilesValid(s.files)
    && (forall w | 0 <= w < |entries| :: Valid(entries[w]) && TempFine(entries[w], s.files, s.phases[w]))
    && (forall v, w | 0 <= v < |entries| && 0 <= w < |entries| && v != w :: Apart(s.phases[v], s.phases[w]))
  }

  /** A step of one writer that leaves every other writer's temp file alone. */
  lemma {:induction false} OthersKept(entries: seq<Entry>, s: State, w: nat, files: Files, phase: Phase)
    requires Inv(entries, s) && w < |entries| && FilesValid(files)
    requires TempFine(entries[w], files, phase)
    requires forall v | 0 <= v < |entries| && v != w :: Apart(s.phases[v], phase) && Apart(phase, s.phases[v])
    requires forall v | 0 <= v < |entries| && v != w && HasTemp(s.phases[v]) ::
      s.phases[v].tmp in files && files[s.phases[v].tmp] == s.files[s.phases[v].tmp]
    ensures Inv(entries, Place(s, w, files, phase))
  {
    var s' := Place(s, w, files, phase);
    forall v | 0 <= v < |entries| ensures TempFine(entries[v], s'.files, s'.phases[v]) {
      if v != w { assert TempFine(entries[v], s.files, s.phases[v]); }
    }
  }

  lemma {:induction false} StepKeeps(entries: seq<Entry>, s: State, a: Step)
    requires Inv(entries, s) && Enabled(entries, s, a)
    ensures Inv(entries, Do(entries, s, a))
    ensures View(Do(entries, s, a).files) ==
            if a.Rename? then View(s.files)[KeyOf(entries[a.w]) := Written(entries[a.w])] else View(s.files)
  {
    var s', w := Do(entries, s, a), a.w;
    assert TempFine(entries[w], s.files, s.phases[w]);
    forall v | 0 <= v < |entries| && v != w
      ensures TempFine(entries[v], s.files, s.phases[v]) && Apart(s.phases[v], s.phases[w])
    {
    }
    if a.Rename? {
      RenameKeeps(entries, s, w);
    } else {
      SameEntriesSameView(s.files, s'.files);
      OthersKept(entries, s, w, s'.files, s'.phases[w]);
    }
  }

  lemma {:induction false} RenameKeeps(entries: seq<Entry>, s: State, w: nat)
    requires Inv(entries, s) && Enabled(entries, s, Rename(w))
    ensures Inv(entries, Do(entries, s, Rename(w)))
    ensures View(Do(entries, s, Rename(w)).files) == View(s.files)[KeyOf(entries[w]) := Written(entries[w])]
  {
    var e, tmp, s' := entries[w], s.phases[w].tmp, Do(entries, s, Rename(w));
    assert TempFine(e, s.files, s.phases[w]);
    PutView(s.files, e);
    EntryNames(KeyOf(e));
    SameEntriesSameView(PutFile(s.files, e), s'.files);
    forall v | 0 <= v < |entries| && v != w
      ensures TempFine(entries[v], s.files, s.phases[v]) && Apart(s.phases[v], s.phases[w])
    {
    }
    OthersKept(entries, s, w, s'.files, Renamed);
  }

  /** Before or after the writers' puts: at each key a reader sees the entry that
      was there at the start, or the whole entry some writer put. */
  ghost predicate WholeEntries(entries: seq<Entry>, view0: map<string, Entry>, s: State) {
    forall key ::
      if key in View(s.files) then
        (key in view0 && View(s.files)[key] == view0[key]) || PutBySome(entries, s, key, View(s.files)[key])
      else key !in view0
  }

  ghost predicate PutBySome(entries: seq<Entry>, s: State, key: string, e: Entry)
  {
    exists w :: 0 <= w < |entries| && w < |s.phases| && s.phases[w].Renamed? && KeyOf(entries[w]) == key
        && Written(entries[w]) == e
  }

  lemma {:induction false} StepWhole(entries: seq<Entry>, view0: map<string, Entry>, s: State, a: Step)
    requires Inv(entries, s) && Enabled(entries, s, a) && WholeEntries(entries, view0, s)
    ensures WholeEntries(entries, view0, Do(entries, s, a))
  {
    var s' := Do(entries, s, a);
    StepKeeps(entries, s, a);
    forall key, e | PutBySome(entries, s, key, e) ensures PutBySome(entries, s', key, e) {
      var w :| 0 <= w < |entries| && w < |s.phases| && s.phases[w].Renamed? && KeyOf(entries[w]) == key
          && Written(entries[w]) == e;
      assert s'.phases[w].Renamed?;
    }
    if a.Rename? {
      assert s'.phases[a.w].Renamed?;
      assert PutBySome(entries, s', KeyOf(entries[a.w]), Written(entries[a.w]));
    }
  }

  /** In every interleaving of any number of puts, with crashes anywhere: each
      file a reader opens holds one whole valid entry under its own key, old or
      new, and what Keys lists never includes a temp file. */
  lemma {:induction false} PutsAreAtomic(entries: seq<Entry>, view0: map<string, Entry>, s: State, steps: seq<Step>,
      s': State)
    requires Inv(entries, s) && WholeEntries(entries, view0, s) && Run(entries, s, steps, s')
    ensures Inv(entries, s') && WholeEntries(entries, view0, s')
    ensures forall key :: GetFile(s'.files, key) == GotFrom(View(s'.files), key)
    ensures EntryKeys(s'.files) == View(s'.files).Keys
    decreases |steps|
  {
    if steps != [] {
      StepKeeps(entries, s, steps[0]);
      StepWhole(entries, view0, s, steps[0]);
      PutsAreAtomic(entries, view0, Do(entries, s, steps[0]), steps[1..], s');
    } else {
      forall key
        ensures GetFile(s'.files, key) == GotFrom(View(s'.files), key)
        ensures key in EntryKeys(s'.files) <==> key in View(s'.files).Keys
      {
        GetIsView(s'.files, key);
      }
    }
  }

  /** A run starts with any valid files and no writer begun. */
  lemma {:induction false} Start(entries: seq<Entry>, files: Files)
    requires FilesValid(files) && forall w | 0 <= w < |entries| :: Valid(entries[w])
    ensures var s := State(files, seq(|entries|, _ => Idle));
      Inv(entries, s) && WholeEntries(entries, View(files), s)
  {
  }
}
