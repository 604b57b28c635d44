/** Scopes that only ever see `remember` and `forget`: lines and active entries correspond one to one. */
module NoteRuns {
  import opened Options
  import opened Seqs
  import opened FactRegistry
  import opened RegistryLaws
  import opened RegistryHistory
  import opened ScopeStore
  import opened ScopeTheorems
  import opened Provenance

  predicate DistinctLines(lex: Lexicon, lines: seq<string>) {
    forall m, n :: 0 <= m < n < |lines| ==> lex.canon(lines[m]) != lex.canon(lines[n])
  }

  predicate DistinctActive(lex: Lexicon, r: seq<Entry>) {
    forall i, j :: 0 <= i < j < |r| && Active(r[i]) && Active(r[j]) ==> lex.canon(r[i].content) != lex.canon(r[j].content)
  }

  /** A line is the content of an active entry. */
  predicate Backed(r: seq<Entry>, line: string) {
    exists i :: 0 <= i < |r| && Active(r[i]) && r[i].content == line
  }

  /** Notes are pairwise distinct and correspond one to one to the active entries, all of them notes. */
  predicate Paired(lex: Lexicon, s: Ledger) {
    var lines := Lines(s, NOTES);
    && (forall i :: 0 <= i < |s.registry| ==> s.registry[i].facet == Some(NOTES))
    && "" !in lines
    && DistinctLines(lex, lines)
    && DistinctActive(lex, s.registry)
    && (forall t :: t in lines ==> Backed(s.registry, t))
    && (forall i :: 0 <= i < |s.registry| && Active(s.registry[i]) ==> s.registry[i].content in lines)
  }

  lemma {:induction false} FilterDistinct(lex: Lexicon, lines: seq<string>, p: string -> bool)
    requires DistinctLines(lex, lines)
    ensures DistinctLines(lex, Filter(lines, p))
  {
    if lines != [] {
      var n := |lines| - 1;
      FilterDistinct(lex, lines[..n], p);
      var f := Filter(lines[..n], p);
      forall m | 0 <= m < |f| ensures lex.canon(f[m]) != lex.canon(lines[n]) {
        assert f[m] in lines[..n];
      }
    }
  }

  lemma ForgettingKeepsPaired(env: Env, s: Ledger, keys: set<Key>, now: nat)
    requires Paired(env.lex, s)
    ensures Paired(env.lex, RetireForgotten(env, s, keys, now).0)
  {
    if keys != {} && env.pack.group(NOTES).Some? {
      var s' := RetireForgotten(env, s, keys, now).0;
      FilterDistinct(env.lex, Lines(s, NOTES), t => !NoteForgotten(env, keys, t));
      forall t | t in Lines(s', NOTES) ensures Backed(s'.registry, t) {
        assert t in Lines(s, NOTES);
        var i :| 0 <= i < |s.registry| && Active(s.registry[i]) && s.registry[i].content == t;
        assert s'.registry[i] == s.registry[i];
      }
      forall i | 0 <= i < |s'.registry| && Active(s'.registry[i]) ensures s'.registry[i].content in Lines(s', NOTES) {
        assert s'.registry[i] == s.registry[i];
      }
    }
  }

  /** In a paired ledger the cap retires the very entry behind the oldest line. */
  lemma EvictedEntry(lex: Lexicon, s: Ledger, now: nat) returns (i: nat)
    requires Paired(lex, s) && Lines(s, NOTES) != []
    ensures i < |s.registry| && Active(s.registry[i]) && s.registry[i].content == Lines(s, NOTES)[0]
    ensures EvictNote(lex, s, 0, now).registry == Retire(s.registry, i, now, CapEvicted)
    ensures Lines(EvictNote(lex, s, 0, now), NOTES) == Lines(s, NOTES)[1..]
  {
    var lines := Lines(s, NOTES);
    assert lines[0] in lines;
    i :| 0 <= i < |s.registry| && Active(s.registry[i]) && s.registry[i].content == lines[0];
    assert Retirable(lex, s.registry, lines[0], NOTES, true, false, s.registry[i]);
    assert RetireTarget(lex, s.registry, lines[0], NOTES, true, false) == i;
  }

  lemma EvictionKeepsPaired(lex: Lexicon, s: Ledger, now: nat)
    requires Paired(lex, s) && Lines(s, NOTES) != []
    ensures Paired(lex, EvictNote(lex, s, 0, now))
  {
    var i := EvictedEntry(lex, s, now);
    OldestLineLeaves(lex, s, EvictNote(lex, s, 0, now), i, now);
  }

  lemma OldestLineLeaves(lex: Lexicon, s: Ledger, s': Ledger, i0: nat, now: nat)
    requires Paired(lex, s) && Lines(s, NOTES) != []
    requires i0 < |s.registry| && Active(s.registry[i0]) && s.registry[i0].content == Lines(s, NOTES)[0]
    requires s'.registry == Retire(s.registry, i0, now, CapEvicted) && Lines(s', NOTES) == Lines(s, NOTES)[1..]
    ensures Paired(lex, s')
  {
    var lines := Lines(s, NOTES);
    forall t | t in lines[1..] ensures t != "" && Backed(s'.registry, t) {
      var n :| 0 <= n < |lines[1..]| && lines[1..][n] == t;
      assert lines[n + 1] == t && t in lines;
      var i :| 0 <= i < |s.registry| && Active(s.registry[i]) && s.registry[i].content == t;
      assert lex.canon(lines[0]) != lex.canon(lines[n + 1]);
      assert s'.registry[i] == s.registry[i];
    }
    forall i | 0 <= i < |s'.registry| && Active(s'.registry[i]) ensures s'.registry[i].content in lines[1..] {
      assert s'.registry[i] == s.registry[i];
      var n :| 0 <= n < |lines| && lines[n] == s.registry[i].content;
      assert n != 0;
      assert lines[1..][n - 1] == lines[n];
    }
  }

  lemma AppendedDistinct(lex: Lexicon, lines: seq<string>, value: string)
    requires DistinctLines(lex, lines) && !HasLine(lex, lines, value)
    ensures DistinctLines(lex, lines + [value])
  {
    assert forall n :: 0 <= n < |lines| ==> lines[n] in lines;
  }

  /** The entries after a note is registered: an inactive one may be linked, one is new. */
  lemma RegisteredEntries(s: Ledger, value: string, stamp: Stamp, prior: nat)
    requires prior < |s.registry| ==> !Active(s.registry[prior])
    ensures var r' := Register(s, value, stamp, prior).registry;
            && |r'| == |s.registry| + 1 && r'[|s.registry|] == NoteEntry(value, stamp)
            && (forall i :: 0 <= i < |s.registry| ==> r'[i].content == s.registry[i].content && r'[i].facet == s.registry[i].facet)
            && (forall i :: 0 <= i < |s.registry| ==> (Active(r'[i]) <==> Active(s.registry[i])))
    ensures Register(s, value, stamp, prior).profile == s.profile
  {
  }

  /** Appending a note with its line to a paired ledger that holds no such line. */
  lemma RegisterKeepsPaired(lex: Lexicon, s: Ledger, value: string, stamp: Stamp, prior: nat)
    requires Paired(lex, s) && value != "" && !HasLine(lex, Lines(s, NOTES), value)
    requires prior < |s.registry| ==> !Active(s.registry[prior])
    ensures Paired(lex, Register(SetLines(s, NOTES, Lines(s, NOTES) + [value]), value, stamp, prior))
  {
    hide Register, Active, DistinctLines, HasLine;
    var lines := Lines(s, NOTES) + [value];
    var s' := Register(SetLines(s, NOTES, lines), value, stamp, prior);
    RegisteredEntries(SetLines(s, NOTES, lines), value, stamp, prior);
    assert Lines(s', NOTES) == lines;
    AppendedDistinct(lex, Lines(s, NOTES), value);
    forall t | t in lines ensures Backed(s'.registry, t) {
      if t in Lines(s, NOTES) {
        var i :| 0 <= i < |s.registry| && Active(s.registry[i]) && s.registry[i].content == t;
        assert s'.registry[i].content == t;
      } else {
        NewNoteActive(value, stamp);
        assert s'.registry[|s.registry|].content == t;
      }
    }
    assert lines[|lines| - 1] == value;
    forall i | 0 <= i < |s'.registry| && Active(s'.registry[i]) ensures s'.registry[i].content in lines {
      if i < |s.registry| { assert s.registry[i].content in Lines(s, NOTES); }
    }
    forall i | 0 <= i < |s.registry| && Active(s.registry[i]) ensures lex.canon(s.registry[i].content) != lex.canon(value) {
      OtherText(lex, Lines(s, NOTES), s.registry[i].content, value);
    }
  }

  lemma NewNoteActive(value: string, stamp: Stamp)
    ensures Active(NoteEntry(value, stamp))
  {
  }

  lemma OtherText(lex: Lexicon, lines: seq<string>, text: string, value: string)
    requires text in lines && !HasLine(lex, lines, value)
    ensures lex.canon(text) != lex.canon(value)
  {
  }

  lemma AccumulateKeepsPaired(env: Env, s: Ledger, value: string, stamp: Stamp)
    requires Paired(env.lex, s) && value != "" && !HasLine(env.lex, Lines(s, NOTES), value)
    ensures Paired(env.lex, Accumulate(env, s, value, stamp).state)
  {
    var room := MakeRoom(env, s, stamp.now);
    var held := Held(env, s, value, stamp.now);
    var prior := ForgottenPrior(env.lex, s.registry, value);
    if |Lines(s, NOTES)| >= env.pack.cap(NOTES) && Lines(s, NOTES) != [] { EvictionKeepsPaired(env.lex, s, stamp.now); }
    assert Paired(env.lex, room);
    assert forall t :: t in Lines(room, NOTES) ==> t in Lines(s, NOTES);
    MakeRoomGrows(env, s, stamp.now);
    if prior < |s.registry| {
      InactiveForGood(s.registry, room.registry, {}, prior);
      RegisterKeepsPaired(env.lex, room, value, stamp, prior);
    } else {
      var i := ActiveNoteIndex(env.lex, held.registry, value);
      assert i == |room.registry|;
      RegisterKeepsPaired(env.lex, room, value, stamp, |room.registry|);
    }
  }

  lemma ReviseKeepsPaired(lex: Lexicon, s: Ledger, m: nat, value: string, stamp: Stamp)
    requires Paired(lex, s) && value != "" && !HasLine(lex, Lines(s, NOTES), value) && m < |Lines(s, NOTES)|
    ensures Paired(lex, Revise(lex, s, m, value, stamp).state)
  {
    var lines := Lines(s, NOTES);
    var s' := Revise(lex, s, m, value, stamp).state;
    var prior := ActiveNoteIndex(lex, s.registry, lines[m]);
    assert lines[m] in lines;
    var i0 :| 0 <= i0 < |s.registry| && Active(s.registry[i0]) && s.registry[i0].content == lines[m];
    assert ActiveNote(lex, lines[m], s.registry[i0]);
    assert prior == i0;
    hide Paired;
    LineReplaced(lex, s, s', m, i0, NoteEntry(value, stamp));
  }

  /** A line and the entry behind it give way to a new line with its entry. */
  lemma LineReplaced(lex: Lexicon, s: Ledger, s': Ledger, m: nat, i0: nat, e: Entry)
    requires Paired(lex, s) && m < |Lines(s, NOTES)| && i0 < |s.registry|
    requires Active(s.registry[i0]) && s.registry[i0].content == Lines(s, NOTES)[m]
    requires e.content != "" && Active(e) && e.facet == Some(NOTES) && !HasLine(lex, Lines(s, NOTES), e.content)
    requires s'.registry == s.registry[i0 := s.registry[i0].(supersededBy := Some(e.id))] + [e]
    requires Lines(s', NOTES) == Lines(s, NOTES)[m := e.content]
    ensures Paired(lex, s')
  {
    var lines, revised := Lines(s, NOTES), Lines(s', NOTES);
    forall t | t in revised ensures t != "" && Backed(s'.registry, t) {
      var n :| 0 <= n < |revised| && revised[n] == t;
      if n == m {
        assert s'.registry[|s.registry|] == e;
      } else {
        assert t in lines;
        var i :| 0 <= i < |s.registry| && Active(s.registry[i]) && s.registry[i].content == t;
        assert lex.canon(lines[n]) != lex.canon(lines[m]);
        assert s'.registry[i] == s.registry[i];
      }
    }
    forall i | 0 <= i < |s'.registry| && Active(s'.registry[i]) ensures s'.registry[i].content in revised {
      if i < |s.registry| {
        assert s'.registry[i] == s.registry[i];
        var n :| 0 <= n < |lines| && lines[n] == s.registry[i].content;
        assert n != m;
        assert revised[n] == lines[n];
      } else {
        assert revised[m] == e.content;
      }
    }
    ReplacedDistinct(lex, lines, m, e.content);
    ReplacedActiveDistinct(lex, s, s', i0, e);
  }

  lemma ReplacedDistinct(lex: Lexicon, lines: seq<string>, m: nat, value: string)
    requires DistinctLines(lex, lines) && m < |lines| && !HasLine(lex, lines, value)
    ensures DistinctLines(lex, lines[m := value])
  {
    forall n | 0 <= n < |lines| ensures lex.canon(lines[n]) != lex.canon(value) {
      assert lines[n] in lines;
    }
  }

  lemma ReplacedActiveDistinct(lex: Lexicon, s: Ledger, s': Ledger, i0: nat, e: Entry)
    requires i0 < |s.registry| && DistinctActive(lex, s.registry)
    requires forall i :: 0 <= i < |s.registry| && Active(s.registry[i]) ==> s.registry[i].content in Lines(s, NOTES)
    requires !HasLine(lex, Lines(s, NOTES), e.content)
    requires s'.registry == s.registry[i0 := s.registry[i0].(supersededBy := Some(e.id))] + [e]
    ensures DistinctActive(lex, s'.registry)
  {
    var r, r' := s.registry, s'.registry;
    forall i | 0 <= i < |r| && Active(r'[i]) ensures r'[i] == r[i] && lex.canon(r[i].content) != lex.canon(e.content) {
      assert r[i].content in Lines(s, NOTES);
    }
  }

  lemma NoteKeepsPaired(env: Env, s: Ledger, text: string, stamp: Stamp, keys: set<Key>)
    requires Paired(env.lex, s)
    ensures Paired(env.lex, AddNote(env, s, text, stamp, keys).state)
  {
    var value := env.lex.trim(text);
    if value != "" {
      var healed := RetireForgotten(env, s, keys, stamp.now).0;
      ForgettingKeepsPaired(env, s, keys, stamp.now);
      var lines := Lines(healed, NOTES);
      if !HasLine(env.lex, lines, value) {
        var m := RevisedLine(env.lex, lines, value);
        if m < |lines| {
          ReviseKeepsPaired(env.lex, healed, m, value, stamp);
        }
        AccumulateKeepsPaired(env, healed, value, stamp);
      }
    }
  }

  // ---------------------------------------------------------------- chains

  lemma ChainedUnderStatus(r: seq<Entry>, r': seq<Entry>)
    requires Chained(r) && SameLinks(r, r')
    ensures Chained(r') && Names(r') == Names(r)
  {
    forall i | 0 <= i < |r'| && r'[i].supersededBy.Some? ensures ForwardLink(r', i) {
      assert ForwardLink(r, i);
      var j :| i < j < |r| && r[i].supersededBy == Some(r[j].id);
      assert r'[i].supersededBy == Some(r'[j].id);
    }
    forall x ensures x in Names(r') <==> x in Names(r) {
      if x in Names(r') {
        var i :| 0 <= i < |r'| && (r'[i].id == x || r'[i].supersededBy == Some(x));
        assert r[i] in r;
      }
      if x in Names(r) {
        var i :| 0 <= i < |r| && (r[i].id == x || r[i].supersededBy == Some(x));
        assert r'[i] in r';
      }
    }
  }

  lemma RegisterKeepsChained(s: Ledger, value: string, stamp: Stamp, prior: nat)
    requires Chained(s.registry) && stamp.id !in Names(s.registry)
    requires prior < |s.registry| ==> s.registry[prior].supersededBy.None?
    ensures Chained(Register(s, value, stamp, prior).registry)
  {
    hide Names;
    var r, r' := s.registry, Register(s, value, stamp, prior).registry;
    Unnamed(r, stamp.id);
    forall i | 0 <= i < |r'| && r'[i].supersededBy.Some? ensures ForwardLink(r', i) {
      if i == prior {
        assert r'[i].supersededBy == Some(r'[|r|].id);
      } else {
        assert ForwardLink(r, i);
        var j :| i < j < |r| && r[i].supersededBy == Some(r[j].id);
        assert r'[i].supersededBy == Some(r'[j].id);
      }
    }
  }

  lemma Unnamed(r: seq<Entry>, id: Id)
    requires id !in Names(r)
    ensures forall i :: 0 <= i < |r| ==> r[i].id != id && r[i].supersededBy != Some(id)
  {
    forall i | 0 <= i < |r| ensures r[i].id != id && r[i].supersededBy != Some(id) {
      assert r[i] in r;
    }
  }

  lemma AccumulateKeepsChained(env: Env, s: Ledger, value: string, stamp: Stamp)
    requires Chained(s.registry) && stamp.id !in Names(s.registry)
    ensures Chained(Accumulate(env, s, value, stamp).state.registry)
  {
    hide Chained, Names, Register;
    var prior := ForgottenPrior(env.lex, s.registry, value);
    var held := Held(env, s, value, stamp.now);
    assert SameLinks(s.registry, held.registry);
    ChainedUnderStatus(s.registry, held.registry);
    RegisterKeepsChained(held, value, stamp, if prior < |s.registry| then prior else |held.registry|);
  }

  lemma ReviseKeepsChained(lex: Lexicon, s: Ledger, m: nat, value: string, stamp: Stamp)
    requires Chained(s.registry) && stamp.id !in Names(s.registry) && m < |Lines(s, NOTES)|
    ensures Chained(Revise(lex, s, m, value, stamp).state.registry)
  {
    var lines := Lines(s, NOTES);
    RegisterKeepsChained(SetLines(s, NOTES, lines[m := value]), value, stamp, ActiveNoteIndex(lex, s.registry, lines[m]));
  }

  lemma NoteKeepsChained(env: Env, s: Ledger, text: string, stamp: Stamp, keys: set<Key>)
    requires Chained(s.registry) && stamp.id !in Names(s.registry)
    ensures Chained(AddNote(env, s, text, stamp, keys).state.registry)
  {
    var value := env.lex.trim(text);
    var healed := RetireForgotten(env, s, keys, stamp.now).0;
    assert SameLinks(s.registry, healed.registry);
    ChainedUnderStatus(s.registry, healed.registry);
    var lines := Lines(healed, NOTES);
    var result := AddNote(env, s, text, stamp, keys).state;
    if value != "" && !NoteForgotten(env, keys, value) && !HasLine(env.lex, lines, value) {
      var m := RevisedLine(env.lex, lines, value);
      if m < |lines| {
        assert result == Revise(env.lex, healed, m, value, stamp).state;
        ReviseKeepsChained(env.lex, healed, m, value, stamp);
      } else {
        assert result == Accumulate(env, healed, value, stamp).state;
        AccumulateKeepsChained(env, healed, value, stamp);
      }
    } else {
      assert result == s || result == healed;
    }
  }

  // ---------------------------------------------------------------- whole runs

  predicate NoteStep(step: Step) {
    step.Remember? || step.Forget?
  }

  const FRESH := World(None, {}, None, {})

  /** The ledger part of the invariant, for a registry whose names are all in `issued`. */
  predicate SoundNotes(env: Env, s: Ledger, issued: set<Id>) {
    Paired(env.lex, s) && Chained(s.registry) && Names(s.registry) <= issued && |Lines(s, NOTES)| <= env.pack.cap(NOTES)
  }

  predicate NoteLedger(env: Env, w: World) {
    SoundNotes(env, Latest(w), w.issued)
  }

  lemma RememberKeepsNotes(env: Env, s: Ledger, text: string, stamp: Stamp, keys: set<Key>, issued: set<Id>)
    requires env.pack.cap(NOTES) >= 1 && SoundNotes(env, s, issued) && stamp.id !in issued
    ensures SoundNotes(env, AddNote(env, s, text, stamp, keys).state, issued + {stamp.id})
  {
    hide Paired, AddNote;
    assert forall e :: e in s.registry ==> e.id in Names(s.registry);
    AddNoteGrows(env, s, text, stamp, keys);
    NamesAfterGrowth(s.registry, AddNote(env, s, text, stamp, keys).state.registry, {stamp.id});
    NoteKeepsPaired(env, s, text, stamp, keys);
    NoteKeepsChained(env, s, text, stamp, keys);
    NoteWithinCap(env, s, text, stamp, keys);
  }

  lemma ForgetKeepsNotes(env: Env, s: Ledger, keys: set<Key>, now: nat, issued: set<Id>)
    requires SoundNotes(env, s, issued)
    ensures SoundNotes(env, RetireForgotten(env, s, keys, now).0, issued)
  {
    hide Paired, Chained, Names;
    ForgettingKeepsPaired(env, s, keys, now);
    ChainedUnderStatus(s.registry, RetireForgotten(env, s, keys, now).0.registry);
  }

  lemma NoteLedgerStep(env: Env, w: World, step: Step)
    requires env.pack.cap(NOTES) >= 1 && NoteLedger(env, w) && NoteStep(step) && Lawful(w, step)
    ensures NoteLedger(env, Apply(env, w, step))
  {
    hide Paired, Chained, AddNote, RetireForgotten, Names;
    var s := Latest(w);
    match step {
      case Remember(text, stamp) =>
        var keys := if w.snapshot.None? then {} else w.forgotten;
        RememberKeepsNotes(env, s, text, stamp, keys, w.issued);
      case Forget(key, now) =>
        ForgetKeepsNotes(env, s, {key}, now, w.issued);
    }
  }

  /**
   * From an empty scope, after any sequence of remember and forget: notes are distinct, number at
   * most the cap, correspond one to one to the active entries, and form chains without branches.
   */
  lemma {:induction false} NoteLedgerInvariant(env: Env, steps: seq<Step>)
    requires env.pack.cap(NOTES) >= 1
    requires forall n :: 0 <= n < |steps| ==> NoteStep(steps[n])
    requires LawfulRun(env, FRESH, steps)
    ensures NoteLedger(env, Run(env, FRESH, steps))
  {
    hide Lawful, Apply;
    if steps != [] {
      var n := |steps| - 1;
      LawfulPrefix(env, FRESH, steps, n);
      NoteLedgerInvariant(env, steps[..n]);
      assert Lawful(Run(env, FRESH, steps[..n]), steps[n]);
      NoteLedgerStep(env, Run(env, FRESH, steps[..n]), steps[n]);
    }
  }

  /** Asking for the history of a note gives the same chain whichever version is asked for. */
  lemma OneAnswerPerNote(r: seq<Entry>, id: Id, k: nat)
    requires Chained(r) && BuildProvenance(r, id).Some? && k < |BuildProvenance(r, id).value.chain|
    ensures var chain := BuildProvenance(r, id).value.chain;
            BuildProvenance(r, chain[k].id).Some? && BuildProvenance(r, chain[k].id).value.chain == chain
  {
    hide Forward, Ancestry, ChainAt;
    var i := FindFact(r, id);
    var j := ChainAt(r, i)[k];
    FoundHere(r, j);
    SameChainFromAnyVersion(r, i, k);
  }

  lemma FoundHere(r: seq<Entry>, j: nat)
    requires UniqueIds(r) && j < |r|
    ensures FindFact(r, r[j].id) == j
  {
  }

  lemma TruncatedAnswer(r: seq<Entry>, id: Id)
    requires Chained(r) && BuildProvenance(Normalize(r), id).Some?
    ensures BuildProvenance(r, id).Some?
    ensures SuffixOf(BuildProvenance(Normalize(r), id).value.chain, BuildProvenance(r, id).value.chain)
  {
    hide Forward, Ancestry, ChainAt, Normalize;
    var r' := Normalize(r);
    var i' := FindFact(r', id);
    NormalizeKeepsActive(r);
    assert r'[i'] in r;
    var i :| 0 <= i < |r| && r[i] == r'[i'];
    FoundHere(r, i);
    TruncationKeepsASuffix(r, i, i');
  }

  /**
   * After any sequence of remember and forget, the history of a note is one chain from every version
   * of it, and a digest that starts then sees the newest part of that chain.
   */
  lemma NoteHistories(env: Env, steps: seq<Step>, id: Id, k: nat)
    requires env.pack.cap(NOTES) >= 1
    requires forall n :: 0 <= n < |steps| ==> NoteStep(steps[n])
    requires LawfulRun(env, FRESH, steps)
    ensures var r := Latest(Run(env, FRESH, steps)).registry;
            var whole, kept := BuildProvenance(r, id), BuildProvenance(Normalize(r), id);
            && (whole.Some? && k < |whole.value.chain| ==>
                  var version := BuildProvenance(r, whole.value.chain[k].id);
                  version.Some? && version.value.chain == whole.value.chain)
            && (kept.Some? ==> whole.Some? && SuffixOf(kept.value.chain, whole.value.chain))
  {
    hide Paired, Chained, BuildProvenance, Normalize, SuffixOf, Run, LawfulRun;
    var r := Latest(Run(env, FRESH, steps)).registry;
    NoteLedgerInvariant(env, steps);
    if BuildProvenance(r, id).Some? && k < |BuildProvenance(r, id).value.chain| { OneAnswerPerNote(r, id, k); }
    if BuildProvenance(Normalize(r), id).Some? { TruncatedAnswer(r, id); }
  }
}
