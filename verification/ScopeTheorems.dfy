/** What holds over whole runs of a scope's store, whatever the interleaving and the model output. */
module ScopeTheorems {
  import opened Options
  import opened FactRegistry
  import opened RegistryLaws
  import opened RegistryHistory
  import opened DigestWork
  import opened Handoff
  import opened HandoffLaws
  import opened ScopeStore
  import DigestFacts
  import MemoryFacts

  // ---------------------------------------------------------------- no note is lost

  /** At a commit: every caller's note that is active and not forgotten survives, and the notes fit. */
  lemma CommitLosesNoNote(env: Env, w: World, now: nat)
    requires Sound(env, w) && w.flight.Some? && w.snapshot.Some?
    ensures var s := w.snapshot.value.registry;
            var s' := Apply(env, w, DigestCommit(now)).snapshot.value;
            && (forall i :: 0 <= i < |s| && HeldNote(s, i) && !NoteForgotten(env, w.forgotten, s[i].content)
                  ==> Survives(s[i], s'.registry, Crowded(env, Carried(env, w, now)), now))
            && |Lines(s', NOTES)| <= env.pack.cap(NOTES)
  {
    var s := w.snapshot.value.registry;
    var carried := Carried(env, w, now);
    var s' := Apply(env, w, DigestCommit(now)).snapshot.value;
    assert s' == HoldToCap(env, carried, now);
    HoldToCapEntries(env, carried, now);
    forall i | 0 <= i < |s| && HeldNote(s, i) && !NoteForgotten(env, w.forgotten, s[i].content)
      ensures Survives(s[i], s'.registry, Crowded(env, carried), now)
    {
      var k := CarriedHolds(env, w, now, i);
      CrowdedOut(env, carried, now, k);
      assert KeptOrEvicted(carried.registry, s'.registry, k, now);
    }
  }

  /** A run that ends by committing. */
  lemma CommitRun(env: Env, w: World, steps: seq<Step>, now: nat)
    ensures var before := Run(env, w, steps);
            var after := Run(env, w, steps + [DigestCommit(now)]);
            && after == Apply(env, before, DigestCommit(now))
            && (before.flight.Some? ==> after.snapshot == Some(Committed(env, before, before.flight.value.state, now)))
  {
    hide Committed;
    assert (steps + [DigestCommit(now)])[..|steps|] == steps;
  }

  /** The same in every run: whenever a digest commits, no caller's note is lost. */
  lemma NoNoteIsLost(env: Env, w: World, steps: seq<Step>, now: nat)
    requires PackFits(env) && Start(w) && LawfulRun(env, w, steps)
    ensures var before, after := Run(env, w, steps), Run(env, w, steps + [DigestCommit(now)]);
            before.flight.Some? && before.snapshot.Some? ==>
              && after.snapshot.Some?
              && var s, s' := before.snapshot.value.registry, after.snapshot.value;
                 && (forall i :: 0 <= i < |s| && HeldNote(s, i) && !NoteForgotten(env, before.forgotten, s[i].content)
                       ==> Survives(s[i], s'.registry, Crowded(env, Carried(env, before, now)), now))
                 && |Lines(s', NOTES)| <= env.pack.cap(NOTES)
  {
    hide Run, Apply, Survives, Crowded, Carried, Tracks, LinksTrack, HeldNote, Lines;
    var before := Run(env, w, steps);
    SoundRun(env, w, steps);
    CommitRun(env, w, steps, now);
    if before.flight.Some? && before.snapshot.Some? {
      CommitLosesNoNote(env, before, now);
    }
  }

  // ---------------------------------------------------------------- forgotten stays forgotten

  /** No forgotten text holds a line or backs an active note. */
  predicate Clean(env: Env, s: Ledger, keys: set<Key>) {
    && (forall t :: t in Lines(s, NOTES) ==> !NoteForgotten(env, keys, t))
    && (forall i :: 0 <= i < |s.registry| ==> !ForgottenHere(env, keys, s.registry[i]))
  }

  predicate CleanWorld(env: Env, w: World) {
    Clean(env, Latest(w), w.forgotten)
  }

  lemma RetiringCleans(env: Env, s: Ledger, keys: set<Key>, now: nat)
    ensures Clean(env, RetireForgotten(env, s, keys, now).0, keys)
  {
  }

  lemma RetiringKeepsClean(env: Env, s: Ledger, keys: set<Key>, more: set<Key>, now: nat)
    requires Clean(env, s, keys)
    ensures Clean(env, RetireForgotten(env, s, more, now).0, keys + more)
  {
    RetiringCleans(env, s, more, now);
    var s' := RetireForgotten(env, s, more, now).0;
    RetireForgottenGrows(env, s, more, now);
    forall t | t in Lines(s', NOTES) ensures !NoteForgotten(env, keys + more, t) {
      assert t in Lines(s, NOTES);
    }
    forall i | 0 <= i < |s'.registry| ensures !ForgottenHere(env, keys + more, s'.registry[i]) {
      assert Evolves(s.registry[i], s'.registry[i]);
      assert !ForgottenHere(env, keys, s.registry[i]) && !ForgottenHere(env, more, s'.registry[i]);
    }
  }

  /** A ledger whose registry only grew statuses and whose lines are among the old ones stays clean. */
  lemma CleanUnderLoss(env: Env, s: Ledger, s': Ledger, keys: set<Key>)
    requires Clean(env, s, keys) && Grows(s.registry, s'.registry, {}) && |s'.registry| == |s.registry|
    requires forall t :: t in Lines(s', NOTES) ==> t in Lines(s, NOTES)
    ensures Clean(env, s', keys)
  {
    forall i | 0 <= i < |s'.registry| ensures !ForgottenHere(env, keys, s'.registry[i]) {
      assert Evolves(s.registry[i], s'.registry[i]);
      assert !ForgottenHere(env, keys, s.registry[i]);
    }
  }

  lemma MakeRoomKeepsClean(env: Env, s: Ledger, keys: set<Key>, now: nat)
    requires Clean(env, s, keys)
    ensures Clean(env, MakeRoom(env, s, now), keys)
  {
    MakeRoomGrows(env, s, now);
    CleanUnderLoss(env, s, MakeRoom(env, s, now), keys);
  }

  lemma RegisterKeepsClean(env: Env, s: Ledger, value: string, stamp: Stamp, prior: nat, keys: set<Key>)
    requires Clean(env, s, keys) && !NoteForgotten(env, keys, value)
    ensures Clean(env, Register(s, value, stamp, prior), keys)
  {
    var s' := Register(s, value, stamp, prior);
    forall i | 0 <= i < |s'.registry| ensures !ForgottenHere(env, keys, s'.registry[i]) {
      if i < |s.registry| { assert !ForgottenHere(env, keys, s.registry[i]); }
    }
  }

  lemma AccumulateKeepsClean(env: Env, s: Ledger, value: string, stamp: Stamp, keys: set<Key>)
    requires Clean(env, s, keys) && !NoteForgotten(env, keys, value)
    ensures Clean(env, Accumulate(env, s, value, stamp).state, keys)
  {
    var prior := ForgottenPrior(env.lex, s.registry, value);
    var held := Held(env, s, value, stamp.now);
    MakeRoomKeepsClean(env, s, keys, stamp.now);
    assert Clean(env, held, keys);
    RegisterKeepsClean(env, held, value, stamp, prior, keys);
    RegisterKeepsClean(env, held, value, stamp, |held.registry|, keys);
  }

  lemma ReviseKeepsClean(env: Env, s: Ledger, i: nat, value: string, stamp: Stamp, keys: set<Key>)
    requires i < |Lines(s, NOTES)| && Clean(env, s, keys) && !NoteForgotten(env, keys, value)
    ensures Clean(env, Revise(env.lex, s, i, value, stamp).state, keys)
  {
    var lines := Lines(s, NOTES);
    var revised := SetLines(s, NOTES, lines[i := value]);
    forall t | t in Lines(revised, NOTES) ensures !NoteForgotten(env, keys, t) {
      var k :| 0 <= k < |lines| && lines[i := value][k] == t;
      assert t == value || t in lines;
    }
    RegisterKeepsClean(env, revised, value, stamp, ActiveNoteIndex(env.lex, s.registry, lines[i]), keys);
  }

  /** Writing any note that is not blank heals the ledger: nothing forgotten is left, or comes back. */
  lemma WritingHeals(env: Env, s: Ledger, text: string, stamp: Stamp, keys: set<Key>)
    requires env.lex.trim(text) != ""
    ensures Clean(env, AddNote(env, s, text, stamp, keys).state, keys)
  {
    hide Clean, Revise, Accumulate, HasLine, RevisedLine, StampAll;
    var value := env.lex.trim(text);
    var healed := RetireForgotten(env, s, keys, stamp.now).0;
    RetiringCleans(env, s, keys, stamp.now);
    var lines := Lines(healed, NOTES);
    if !NoteForgotten(env, keys, value) {
      var i := RevisedLine(env.lex, lines, value);
      if i < |lines| {
        ReviseKeepsClean(env, healed, i, value, stamp, keys);
      }
      AccumulateKeepsClean(env, healed, value, stamp, keys);
    }
  }

  lemma {:induction false} CapKeepsLines(env: Env, s: Ledger, now: nat)
    ensures forall t :: t in Lines(HoldToCap(env, s, now), NOTES) ==> t in Lines(s, NOTES)
    decreases |Lines(s, NOTES)|
  {
    if |Lines(s, NOTES)| > env.pack.cap(NOTES) {
      CapKeepsLines(env, EvictNote(env.lex, s, Surplus(env.lex, s), now), now);
    }
  }

  /** A commit with a snapshot to carry from writes a clean state, whatever the digest did. */
  lemma CommittingCleans(env: Env, p: Ledger, latest: Ledger, keys: set<Key>, now: nat)
    ensures Clean(env, CarryOver(env, p, latest, keys, now), keys)
  {
    var c := CarryAll(env, p, latest.registry, keys);
    var cleaned := RetireForgotten(env, c, keys, now).0;
    RetiringCleans(env, c, keys, now);
    HoldToCapEntries(env, cleaned, now);
    CapKeepsLines(env, cleaned, now);
    CleanUnderLoss(env, cleaned, HoldToCap(env, cleaned, now), keys);
  }

  /** A notes line or an active note of `s` has this key. */
  predicate Stands(env: Env, s: Ledger, key: Key) {
    || (exists t :: t in Lines(s, NOTES) && NoteForgotten(env, {key}, t))
    || (exists i :: 0 <= i < |s.registry| && ForgottenHere(env, {key}, s.registry[i]))
  }

  lemma CleanByKey(env: Env, s: Ledger, keys: set<Key>)
    ensures Clean(env, s, keys) <==> forall key :: key in keys ==> !Stands(env, s, key)
  {
    if group :| env.pack.group(NOTES) == Some(group) {
      forall t | t in Lines(s, NOTES) && NoteForgotten(env, keys, t) ensures exists key :: key in keys && Stands(env, s, key) {
        assert Stands(env, s, FactKey(env.lex, group, t));
      }
      forall i | 0 <= i < |s.registry| && ForgottenHere(env, keys, s.registry[i]) ensures exists key :: key in keys && Stands(env, s, key) {
        assert Stands(env, s, FactKey(env.lex, group, s.registry[i].content));
      }
      forall key | key in keys && Clean(env, s, keys) ensures !Stands(env, s, key) {
        forall i | 0 <= i < |s.registry| ensures !ForgottenHere(env, {key}, s.registry[i]) {
          assert !ForgottenHere(env, keys, s.registry[i]);
        }
      }
    }
  }

  /**
   * Pruning leaves nothing of the keys the digest read, in any facet, and takes nothing else; it is
   * the last thing every digest does.
   */
  lemma PruningCleans(env: Env, s: Ledger, keys: set<Key>, now: nat)
    ensures var s' := Perform(env, keys, s, Pruned(now));
            var forgets := (f, t) => MemoryFacts.GroupForgets(env.lex, env.defaultPack.group(f), keys, t);
            && (forall f, t :: t in Lines(s', f) <==> t in Lines(s, f) && !forgets(f, t))
            && (forall e :: e in s'.registry && Active(e) && e.facet.Some? ==> !forgets(e.facet.value, e.content))
            && (forall i :: 0 <= i < |s.registry| && Active(s.registry[i]) ==>
                  i < |s'.registry| && (Active(s'.registry[i]) <==> !(s.registry[i].facet.Some? && forgets(s.registry[i].facet.value, s.registry[i].content))))
            && (PackFits(env) ==> Clean(env, s', keys))
  {
    hide MemoryFacts.PruneForgotten;
    var s' := Perform(env, keys, s, Pruned(now));
    MemoryFacts.PruningIs(env, env.defaultPack, s, keys, now);
    forall e | e in s'.registry && Active(e) && e.facet.Some?
      ensures !MemoryFacts.GroupForgets(env.lex, env.defaultPack.group(e.facet.value), keys, e.content)
    {
      var i :| 0 <= i < |s'.registry| && s'.registry[i] == e;
      assert SameStatement(s.registry[i], e);
    }
    if PackFits(env) { PrunedIsClean(env, s', keys); }
  }

  lemma PrunedIsClean(env: Env, s: Ledger, keys: set<Key>)
    requires PackFits(env)
    requires forall t :: t in Lines(s, NOTES) ==> !MemoryFacts.GroupForgets(env.lex, env.defaultPack.group(NOTES), keys, t)
    requires forall e :: e in s.registry && Active(e) && e.facet.Some? ==>
               !MemoryFacts.GroupForgets(env.lex, env.defaultPack.group(e.facet.value), keys, e.content)
    ensures Clean(env, s, keys)
  {
    forall i | 0 <= i < |s.registry| ensures !ForgottenHere(env, keys, s.registry[i]) {
      assert s.registry[i] in s.registry;
    }
  }

  /** A first commit finds the digest's copy pruned by the keys the digest read. */
  predicate EndsPruned(env: Env, w: World, step: Step) {
    step.DigestCommit? && w.snapshot.None? && w.flight.Some? ==> Clean(env, w.flight.value.state, w.flight.value.keys)
  }

  /**
   * The steps that put a forgotten text back: those taken while the scope has no snapshot yet. The
   * first note is not checked against the forgotten keys, and the first digest not against the
   * keys forgotten since it began.
   */
  ghost predicate Leaks(env: Env, w: World, step: Step) {
    w.snapshot.None? &&
    match step
    case Remember(text, _) => env.lex.trim(text) != "" && NoteForgotten(env, w.forgotten, env.lex.trim(text))
    case DigestCommit(_) =>
      w.flight.Some? && exists key :: key in w.forgotten - w.flight.value.keys && Stands(env, w.flight.value.state, key)
    case _ => false
  }

  /** The very first note is written as it stands. */
  lemma FirstNote(env: Env, text: string, stamp: Stamp)
    requires env.lex.trim(text) != ""
    ensures var s := AddNote(env, EMPTY, text, stamp, {}).state;
            s.registry == [NoteEntry(env.lex.trim(text), stamp)] && Lines(s, NOTES) == [env.lex.trim(text)]
  {
  }

  /** From a clean store, a step leaves it clean if and only if it is not a leak. */
  lemma StaysCleanIffNoLeak(env: Env, w: World, step: Step)
    requires CleanWorld(env, w) && EndsPruned(env, w, step)
    ensures CleanWorld(env, Apply(env, w, step)) <==> !Leaks(env, w, step)
  {
    match step {
      case Remember(text, stamp) => RememberingStaysClean(env, w, text, stamp);
      case Forget(key, now) =>
        if w.snapshot.Some? {
          ForgettingReports(env, w.snapshot.value, {key}, now);
          RetiringKeepsClean(env, w.snapshot.value, w.forgotten, {key}, now);
        }
      case DigestBegin | RebuildBegin(_) =>
      case DigestStep(_) =>
      case DigestCommit(now) => CommittingStaysClean(env, w, now);
      case DigestAbort =>
    }
  }

  lemma RememberingStaysClean(env: Env, w: World, text: string, stamp: Stamp)
    requires CleanWorld(env, w)
    ensures CleanWorld(env, Apply(env, w, Remember(text, stamp))) <==> !Leaks(env, w, Remember(text, stamp))
  {
    if w.snapshot.Some? {
      NoteReports(env, w.snapshot.value, text, stamp, w.forgotten);
      if env.lex.trim(text) != "" { WritingHeals(env, w.snapshot.value, text, stamp, w.forgotten); }
    } else if env.lex.trim(text) != "" {
      FirstNote(env, text, stamp);
      var s := AddNote(env, EMPTY, text, stamp, {}).state;
      assert env.lex.trim(text) in Lines(s, NOTES);
    }
  }

  lemma CommittingStaysClean(env: Env, w: World, now: nat)
    requires CleanWorld(env, w) && EndsPruned(env, w, DigestCommit(now))
    ensures CleanWorld(env, Apply(env, w, DigestCommit(now))) <==> !Leaks(env, w, DigestCommit(now))
  {
    hide Clean, Stands, CarryOver;
    if w.flight.Some? {
      var f := w.flight.value;
      if w.snapshot.Some? {
        CommittingCleans(env, f.state, w.snapshot.value, w.forgotten, now);
      } else {
        CleanByKey(env, f.state, w.forgotten);
        CleanByKey(env, f.state, f.keys);
      }
    }
  }

  /** A scope that has a snapshot keeps one. */
  lemma SnapshotStays(env: Env, w: World, step: Step)
    requires w.snapshot.Some?
    ensures Apply(env, w, step).snapshot.Some?
  {
  }

  /** Forgotten stays forgotten: from any clean scope with a snapshot, after any steps at all. */
  lemma {:induction false} ForgottenStaysForgotten(env: Env, w: World, steps: seq<Step>)
    requires w.snapshot.Some? && CleanWorld(env, w)
    ensures Run(env, w, steps).snapshot.Some? && CleanWorld(env, Run(env, w, steps))
  {
    hide CleanWorld, Apply;
    if steps != [] {
      var n := |steps| - 1;
      ForgottenStaysForgotten(env, w, steps[..n]);
      SnapshotStays(env, Run(env, w, steps[..n]), steps[n]);
      StaysCleanIffNoLeak(env, Run(env, w, steps[..n]), steps[n]);
    }
  }

  /** The leak is real: forgetting a key before the scope's first note, then writing that note. */
  lemma FirstNoteLeaks(env: Env, text: string, stamp: Stamp, now: nat)
    requires env.pack.group(NOTES).Some? && env.lex.trim(text) != ""
    ensures var key := FactKey(env.lex, env.pack.group(NOTES).value, env.lex.trim(text));
            !CleanWorld(env, Run(env, World(None, {}, None, {}), [Forget(key, now), Remember(text, stamp)]))
  {
    var key := FactKey(env.lex, env.pack.group(NOTES).value, env.lex.trim(text));
    var start := World(None, {}, None, {});
    var steps := [Forget(key, now), Remember(text, stamp)];
    var first := [Forget(key, now)];
    assert steps[..1] == first && first[..0] == [];
    var after := Run(env, start, first);
    assert after == Apply(env, Run(env, start, first[..0]), first[0]);
    StaysCleanIffNoLeak(env, after, Remember(text, stamp));
  }

  predicate AllForget(steps: seq<Step>) {
    forall n :: 0 <= n < |steps| ==> steps[n].Forget?
  }

  function KeysOf(steps: seq<Step>): set<Key> {
    set n | 0 <= n < |steps| && steps[n].Forget? :: steps[n].key
  }

  lemma {:induction false} ForgetsOnly(env: Env, w: World, steps: seq<Step>)
    requires w.snapshot.None? && AllForget(steps)
    ensures var w' := Run(env, w, steps);
            w'.snapshot == None && w'.flight == w.flight && w'.forgotten == w.forgotten + KeysOf(steps)
  {
    if steps != [] {
      var n := |steps| - 1;
      ForgetsOnly(env, w, steps[..n]);
      assert KeysOf(steps) == KeysOf(steps[..n]) + {steps[n].key} by {
        forall k | k in KeysOf(steps) ensures k in KeysOf(steps[..n]) + {steps[n].key} {
          var m :| 0 <= m < |steps| && steps[m].key == k;
          if m < n { assert steps[..n][m] == steps[m]; }
        }
        forall k | k in KeysOf(steps[..n]) ensures k in KeysOf(steps) {
          var m :| 0 <= m < n && steps[..n][m].key == k;
          assert steps[m].key == k;
        }
        assert steps[n].key in KeysOf(steps);
      }
    }
  }

  /**
   * A scope's first digest ends by pruning, keys may be forgotten while it waits to write, and it
   * commits: the store is clean if and only if nothing it holds was forgotten since it began.
   */
  lemma FirstDigestCleanIff(env: Env, w: World, pruned: nat, forgets: seq<Step>, now: nat)
    requires PackFits(env) && w.snapshot.None? && w.flight.Some? && AllForget(forgets)
    ensures var f := w.flight.value;
            var committed := Perform(env, f.keys, f.state, Pruned(pruned));
            CleanWorld(env, Run(env, w, [DigestStep(Pruned(pruned))] + forgets + [DigestCommit(now)]))
            <==> forall key :: key in w.forgotten + KeysOf(forgets) - f.keys ==> !Stands(env, committed, key)
  {
    hide Clean, Stands, Perform;
    var f := w.flight.value;
    var steps := [DigestStep(Pruned(pruned))] + forgets;
    var w1 := Apply(env, w, DigestStep(Pruned(pruned)));
    RunOne(env, w, DigestStep(Pruned(pruned)));
    RunMore(env, w, [DigestStep(Pruned(pruned))], forgets);
    ForgetsOnly(env, w1, forgets);
    PruningCleans(env, f.state, f.keys, pruned);
    var w2 := Run(env, w, steps);
    assert (steps + [DigestCommit(now)])[..|steps|] == steps;
    EmptyIsClean(env, w2.forgotten);
    CommittingStaysClean(env, w2, now);
  }

  lemma EmptyIsClean(env: Env, keys: set<Key>)
    ensures Clean(env, EMPTY, keys)
  {
  }

  lemma RunOne(env: Env, w: World, step: Step)
    ensures Run(env, w, [step]) == Apply(env, w, step)
  {
    assert [step][..0] == [];
  }

  lemma {:induction false} RunMore(env: Env, w: World, a: seq<Step>, b: seq<Step>)
    ensures Run(env, w, a + b) == Run(env, Run(env, w, a), b)
  {
    if b == [] {
      assert a + b == a;
    } else {
      assert (a + b)[..|a + b| - 1] == a + b[..|b| - 1];
      RunMore(env, w, a, b[..|b| - 1]);
    }
  }

  const BLANK := World(None, {}, None, {})

  /** The fact a model proposes for the notes, on the evidence of a stream event. */
  function Proposal(text: string): Step {
    DigestStep(Extracted(DigestFacts.ProposedFact(NOTES, text, []), DigestFacts.Sources(None, Some("event")), "fact", 0))
  }

  /** The notes facet takes facts from the stream, and this text reads as it stands. */
  predicate Takes(env: Env, text: string) {
    && env.pack.registered(NOTES) && !env.pack.documentAuthority(NOTES) && env.pack.cap(NOTES) >= 1
    && env.lex.trim(NOTES) == NOTES && env.lex.trim(text) == text && env.lex.stripIds(text) == text
    && text != "" && FactSized(env.lex, text)
  }

  lemma ProposalTaken(env: Env, text: string)
    requires Takes(env, text)
    ensures var work := Proposal(text).work;
            Lines(Perform(env, {}, EMPTY, work), NOTES) == [text]
  {
  }

  lemma FirstDigestAtWork(env: Env, text: string)
    ensures Run(env, BLANK, [DigestBegin, Proposal(text)])
         == World(None, {}, Some(Flight({}, Perform(env, {}, EMPTY, Proposal(text).work))), {"fact"})
  {
    hide Perform, Run, NormalizeLedger;
    assert [DigestBegin, Proposal(text)] == [DigestBegin] + [Proposal(text)];
    RunMore(env, BLANK, [DigestBegin], [Proposal(text)]);
    RunOne(env, BLANK, DigestBegin);
    RunOne(env, Run(env, BLANK, [DigestBegin]), Proposal(text));
    NothingToLoad();
  }

  lemma NothingToLoad()
    ensures NormalizeLedger(EMPTY) == EMPTY
  {
  }

  /**
   * The second leak is real: a scope's first digest extracts a note, prunes, and the note is
   * forgotten before the digest commits it.
   */
  lemma FirstDigestLeaks(env: Env, text: string, now: nat)
    requires PackFits(env) && env.pack.group(NOTES).Some? && Takes(env, text)
    ensures var key := FactKey(env.lex, env.pack.group(NOTES).value, text);
            var steps := [DigestBegin, Proposal(text), DigestStep(Pruned(now)), Forget(key, now), DigestCommit(now)];
            !CleanWorld(env, Run(env, BLANK, steps))
  {
    hide Run, CleanWorld, Stands, Perform;
    var key := FactKey(env.lex, env.pack.group(NOTES).value, text);
    var begun := [DigestBegin, Proposal(text)];
    var rest := [DigestStep(Pruned(now))] + [Forget(key, now)] + [DigestCommit(now)];
    var w := Run(env, BLANK, begun);
    assert [DigestBegin, Proposal(text), DigestStep(Pruned(now)), Forget(key, now), DigestCommit(now)] == begun + rest;
    RunMore(env, BLANK, begun, rest);
    FirstDigestAtWork(env, text);
    FirstDigestCleanIff(env, w, now, [Forget(key, now)], now);
    assert [Forget(key, now)][0].key in KeysOf([Forget(key, now)]);
    ProposalStands(env, text, now);
  }

  lemma ProposalStands(env: Env, text: string, now: nat)
    requires env.pack.group(NOTES).Some? && Takes(env, text)
    ensures var p := Perform(env, {}, EMPTY, Proposal(text).work);
            Stands(env, Perform(env, {}, p, Pruned(now)), FactKey(env.lex, env.pack.group(NOTES).value, text))
  {
    ProposalTaken(env, text);
    assert text in Lines(Perform(env, {}, EMPTY, Proposal(text).work), NOTES);
  }

  // ---------------------------------------------------------------- nothing comes back, changes or vanishes

  predicate InactiveNote(r: seq<Entry>, id: Id) {
    exists i :: 0 <= i < |r| && r[i].id == id && r[i].facet == Some(NOTES) && !Active(r[i])
  }

  predicate NoneActive(r: seq<Entry>, id: Id) {
    forall i :: 0 <= i < |r| && r[i].id == id ==> !Active(r[i])
  }

  /** The note is out of the active set, and a digest under way that still holds it active will find that out. */
  predicate Gone(w: World, id: Id) {
    && id in w.issued
    && NoneActive(Latest(w).registry, id)
    && (w.flight.Some? && !NoneActive(w.flight.value.state.registry, id) ==> InactiveNote(Latest(w).registry, id))
  }

  lemma GoneUnderGrowth(r: seq<Entry>, r': seq<Entry>, issued: set<Id>, id: Id)
    requires Grows(r, r', issued) && id !in issued
    ensures NoneActive(r, id) ==> NoneActive(r', id)
    ensures InactiveNote(r, id) ==> InactiveNote(r', id)
  {
    if NoneActive(r, id) {
      forall i | 0 <= i < |r'| && r'[i].id == id ensures !Active(r'[i]) {
        assert i < |r|;
        assert Evolves(r[i], r'[i]);
      }
    }
    if InactiveNote(r, id) {
      var i :| 0 <= i < |r| && r[i].id == id && r[i].facet == Some(NOTES) && !Active(r[i]);
      assert Evolves(r[i], r'[i]);
    }
  }

  /** A commit never undoes a concurrent retirement or revision. */
  lemma CommitUndoesNothing(env: Env, p: Ledger, latest: Ledger, keys: set<Key>, now: nat, id: Id)
    requires UniqueIds(p.registry) && NoneActive(latest.registry, id)
    requires !NoneActive(p.registry, id) ==> InactiveNote(latest.registry, id)
    ensures NoneActive(CarryOver(env, p, latest, keys, now).registry, id)
  {
    var c := CarryAll(env, p, latest.registry, keys).registry;
    CarriedRegistry(env, p, latest.registry, keys);
    forall k | 0 <= k < |c| && c[k].id == id ensures !Active(c[k]) {
      CarriedOrigin(env, p, latest.registry, keys, k);
      if k < |p.registry| && Active(p.registry[k]) {
        var i :| 0 <= i < |latest.registry| && latest.registry[i].id == id && latest.registry[i].facet == Some(NOTES) && !Active(latest.registry[i]);
        SettleRetires(p.registry[k], latest.registry, i);
      }
    }
    CarryOverGrows(env, p, latest, keys, now);
    GoneUnderGrowth(c, CarryOver(env, p, latest, keys, now).registry, {}, id);
  }

  lemma GoneStep(env: Env, w: World, step: Step, id: Id)
    requires PackFits(env) && Sound(env, w) && Lawful(w, step) && Gone(w, id)
    ensures Gone(Apply(env, w, step), id)
  {
    var s := Latest(w).registry;
    match step {
      case Remember(text, stamp) =>
        RememberedGrows(env, w, text, stamp);
        GoneUnderGrowth(s, Remembered(env, w, text, stamp).registry, {stamp.id}, id);
      case Forget(key, now) =>
        ForgetGrows(env, w, key, now);
        GoneUnderGrowth(s, Latest(Effect(env, w, step)).registry, {}, id);
      case DigestBegin | RebuildBegin(_) =>
        NormalizeKeepsActive(s);
        forall i | 0 <= i < |Normalize(s)| && Normalize(s)[i].id == id ensures !Active(Normalize(s)[i]) {
          assert Normalize(s)[i] in s;
        }
      case DigestStep(work) =>
        if w.flight.Some? {
          var f := w.flight.value;
          WorkGrows(env, f.keys, f.state, work);
          GoneUnderGrowth(f.state.registry, Perform(env, f.keys, f.state, work).registry, WorkIds(work), id);
        }
      case DigestCommit(now) =>
        if w.flight.Some? && w.snapshot.Some? {
          CommitUndoesNothing(env, w.flight.value.state, w.snapshot.value, w.forgotten, now, id);
        }
      case DigestAbort =>
    }
  }

  /** In every run, a note that left the active set, by whatever step, never becomes active again. */
  lemma {:induction false} NoNoteComesBack(env: Env, w: World, steps: seq<Step>, id: Id)
    requires PackFits(env) && Sound(env, w) && LawfulRun(env, w, steps)
    requires InactiveNote(Latest(w).registry, id)
    ensures NoneActive(Latest(Run(env, w, steps)).registry, id)
    ensures Gone(Run(env, w, steps), id)
  {
    hide Lawful, Apply, Tracks;
    if steps == [] {
      var s := Latest(w).registry;
      var i :| 0 <= i < |s| && s[i].id == id && s[i].facet == Some(NOTES) && !Active(s[i]);
      assert s[i] in s;
      forall j | 0 <= j < |s| && s[j].id == id ensures !Active(s[j]) { assert i == j; }
    } else {
      var n := |steps| - 1;
      LawfulPrefix(env, w, steps, n);
      NoNoteComesBack(env, w, steps[..n], id);
      SoundRun(env, w, steps[..n]);
      assert Lawful(Run(env, w, steps[..n]), steps[n]);
      GoneStep(env, Run(env, w, steps[..n]), steps[n], id);
    }
  }

  /** Every copy of the entry, in the snapshot or in a digest under way, makes the same statement. */
  predicate Fixed(w: World, e: Entry) {
    && e.id in w.issued
    && FixedIn(Latest(w).registry, e)
    && (w.flight.Some? ==> FixedIn(w.flight.value.state.registry, e))
  }

  predicate FixedIn(r: seq<Entry>, e: Entry) {
    forall i :: 0 <= i < |r| && r[i].id == e.id ==> SameStatement(e, r[i])
  }

  lemma FixedUnderGrowth(r: seq<Entry>, r': seq<Entry>, issued: set<Id>, e: Entry)
    requires Grows(r, r', issued) && e.id !in issued && FixedIn(r, e)
    ensures FixedIn(r', e)
  {
    forall i | 0 <= i < |r'| && r'[i].id == e.id ensures SameStatement(e, r'[i]) {
      assert i < |r|;
      assert Evolves(r[i], r'[i]);
    }
  }

  lemma FixedStep(env: Env, w: World, step: Step, e: Entry)
    requires PackFits(env) && Sound(env, w) && Lawful(w, step) && Fixed(w, e)
    ensures Fixed(Apply(env, w, step), e)
  {
    var s := Latest(w).registry;
    match step {
      case Remember(text, stamp) =>
        RememberedGrows(env, w, text, stamp);
        FixedUnderGrowth(s, Remembered(env, w, text, stamp).registry, {stamp.id}, e);
      case Forget(key, now) =>
        ForgetGrows(env, w, key, now);
        FixedUnderGrowth(s, Latest(Effect(env, w, step)).registry, {}, e);
      case DigestBegin | RebuildBegin(_) =>
        NormalizeKeepsActive(s);
        forall i | 0 <= i < |Normalize(s)| && Normalize(s)[i].id == e.id ensures SameStatement(e, Normalize(s)[i]) {
          assert Normalize(s)[i] in s;
        }
      case DigestStep(work) =>
        if w.flight.Some? {
          var f := w.flight.value;
          WorkGrows(env, f.keys, f.state, work);
          FixedUnderGrowth(f.state.registry, Perform(env, f.keys, f.state, work).registry, WorkIds(work), e);
        }
      case DigestCommit(now) =>
        if w.flight.Some? && w.snapshot.Some? {
          var p := w.flight.value.state;
          var c := CarryAll(env, p, s, w.forgotten).registry;
          forall k | 0 <= k < |c| && c[k].id == e.id ensures SameStatement(e, c[k]) {
            CarriedOrigin(env, p, s, w.forgotten, k);
          }
          CarryOverGrows(env, p, w.snapshot.value, w.forgotten, now);
          FixedUnderGrowth(c, CarryOver(env, p, w.snapshot.value, w.forgotten, now).registry, {}, e);
        }
      case DigestAbort =>
    }
  }

  /** In every run, an entry keeps its statement: content, date, evidence, facet and origin never change. */
  lemma {:induction false} StatementsNeverChange(env: Env, w: World, steps: seq<Step>, i: nat)
    requires PackFits(env) && Sound(env, w) && LawfulRun(env, w, steps)
    requires i < |Latest(w).registry|
    ensures Fixed(Run(env, w, steps), Latest(w).registry[i])
  {
    hide Lawful, Apply;
    var s := Latest(w).registry;
    if steps == [] {
      assert s[i] in s;
      forall j | 0 <= j < |s| && s[j].id == s[i].id ensures SameStatement(s[i], s[j]) { assert i == j; }
      if w.flight.Some? {
        var p := w.flight.value.state.registry;
        forall j | 0 <= j < |p| && p[j].id == s[i].id ensures SameStatement(s[i], p[j]) { assert TracksAt(env, w.forgotten, s, p, i, j); }
      }
    } else {
      var n := |steps| - 1;
      LawfulPrefix(env, w, steps, n);
      StatementsNeverChange(env, w, steps[..n], i);
      SoundRun(env, w, steps[..n]);
      assert Lawful(Run(env, w, steps[..n]), steps[n]);
      FixedStep(env, Run(env, w, steps[..n]), steps[n], s[i]);
    }
  }

  /** The note, active or not, is on the record, or its text has been forgotten. */
  predicate OnRecord(env: Env, w: World, e: Entry) {
    NoteForgotten(env, w.forgotten, e.content) || e.id in Ids(Latest(w).registry)
  }

  lemma RecordStep(env: Env, w: World, step: Step, e: Entry)
    requires PackFits(env) && Sound(env, w) && Lawful(w, step) && w.snapshot.Some?
    requires e.facet == Some(NOTES) && Fixed(w, e) && OnRecord(env, w, e)
    ensures OnRecord(env, Apply(env, w, step), e)
  {
    var s := Latest(w).registry;
    match step {
      case Remember(text, stamp) =>
        RememberedGrows(env, w, text, stamp);
        if e.id in Ids(s) { GrowthKeepsId(s, Remembered(env, w, text, stamp).registry, {stamp.id}, e.id); }
      case Forget(key, now) =>
        ForgetGrows(env, w, key, now);
        if e.id in Ids(s) { GrowthKeepsId(s, Latest(Effect(env, w, step)).registry, {}, e.id); }
      case DigestCommit(now) =>
        if w.flight.Some? && !NoteForgotten(env, w.forgotten, e.content) {
          CommitRecords(env, w.flight.value.state, w.snapshot.value, w.forgotten, now, e);
        }
      case _ =>
    }
  }

  /** A commit holds an entry with the id of every unforgotten note of the snapshot. */
  lemma CommitRecords(env: Env, p: Ledger, latest: Ledger, keys: set<Key>, now: nat, e: Entry)
    requires UniqueIds(p.registry) && UniqueIds(latest.registry)
    requires e.facet == Some(NOTES) && FixedIn(latest.registry, e) && e.id in Ids(latest.registry) && !NoteForgotten(env, keys, e.content)
    ensures e.id in Ids(CarryOver(env, p, latest, keys, now).registry)
  {
    hide CarryAll, CarryOver, Adopted;
    var s := latest.registry;
    var c := CarryAll(env, p, s, keys).registry;
    CarriedRegistry(env, p, s, keys);
    if e.id in Ids(p.registry) {
      var j :| 0 <= j < |p.registry| && p.registry[j].id == e.id;
      SettleEvolves(p.registry[j], s);
      assert c[j] in c;
    } else {
      var i :| 0 <= i < |s| && s[i].id == e.id;
      assert SameStatement(e, s[i]);
      AdoptedHas(env, Ids(p.registry), keys, s, s[i]);
      assert s[i] in c[|p.registry|..];
      assert s[i] in c;
    }
    CarryOverGrows(env, p, latest, keys, now);
    GrowthKeepsId(c, CarryOver(env, p, latest, keys, now).registry, {}, e.id);
  }

  lemma GrowthKeepsId(r: seq<Entry>, r': seq<Entry>, issued: set<Id>, id: Id)
    requires Grows(r, r', issued) && id in Ids(r)
    ensures id in Ids(r')
  {
    var i :| 0 <= i < |r| && r[i].id == id;
    assert Evolves(r[i], r'[i]) && r'[i] in r';
  }

  /** In every run, a note once on the record stays on it until its text is forgotten, although digests drop old history. */
  lemma {:induction false} NotesStayOnRecord(env: Env, w: World, steps: seq<Step>, i: nat)
    requires PackFits(env) && Sound(env, w) && LawfulRun(env, w, steps) && w.snapshot.Some?
    requires i < |Latest(w).registry| && Latest(w).registry[i].facet == Some(NOTES)
    ensures Run(env, w, steps).snapshot.Some?
    ensures OnRecord(env, Run(env, w, steps), Latest(w).registry[i])
  {
    hide Lawful, Apply, Sound, Fixed;
    var s := Latest(w).registry;
    if steps == [] {
      assert s[i] in s;
    } else {
      var n := |steps| - 1;
      LawfulPrefix(env, w, steps, n);
      NotesStayOnRecord(env, w, steps[..n], i);
      StatementsNeverChange(env, w, steps[..n], i);
      SoundRun(env, w, steps[..n]);
      assert Lawful(Run(env, w, steps[..n]), steps[n]);
      SnapshotStays(env, Run(env, w, steps[..n]), steps[n]);
      RecordStep(env, Run(env, w, steps[..n]), steps[n], s[i]);
    }
  }

  // ---------------------------------------------------------------- the cap

  lemma NoteWithinCap(env: Env, s: Ledger, text: string, stamp: Stamp, keys: set<Key>)
    requires env.pack.cap(NOTES) >= 1 && |Lines(s, NOTES)| <= env.pack.cap(NOTES)
    ensures |Lines(AddNote(env, s, text, stamp, keys).state, NOTES)| <= env.pack.cap(NOTES)
  {
    hide ActiveNoteIndex, ForgottenPrior, HasLine, RevisedLine, StampAll, MakeRoom, Accumulate;
    var healed := RetireForgotten(env, s, keys, stamp.now).0;
    assert |Lines(healed, NOTES)| <= |Lines(s, NOTES)|;
    AccumulatedWithinCap(env, healed, env.lex.trim(text), stamp);
  }

  lemma AccumulatedWithinCap(env: Env, s: Ledger, value: string, stamp: Stamp)
    requires env.pack.cap(NOTES) >= 1 && |Lines(s, NOTES)| <= env.pack.cap(NOTES)
    ensures |Lines(Accumulate(env, s, value, stamp).state, NOTES)| <= env.pack.cap(NOTES)
  {
    hide RetireTarget, ActiveNoteIndex, ForgottenPrior;
    assert |Lines(MakeRoom(env, s, stamp.now), NOTES)| < env.pack.cap(NOTES);
  }

  /** In every run of a scope that has a snapshot, the notes never exceed their cap. */
  lemma {:induction false} NotesWithinCap(env: Env, w: World, steps: seq<Step>)
    requires env.pack.cap(NOTES) >= 1
    requires w.snapshot.Some? && |Lines(Latest(w), NOTES)| <= env.pack.cap(NOTES)
    ensures Run(env, w, steps).snapshot.Some?
    ensures |Lines(Latest(Run(env, w, steps)), NOTES)| <= env.pack.cap(NOTES)
  {
    hide Apply, Lines;
    if steps != [] {
      var n := |steps| - 1;
      NotesWithinCap(env, w, steps[..n]);
      StepWithinCap(env, Run(env, w, steps[..n]), steps[n]);
    }
  }

  lemma StepWithinCap(env: Env, w: World, step: Step)
    requires env.pack.cap(NOTES) >= 1
    requires w.snapshot.Some? && |Lines(Latest(w), NOTES)| <= env.pack.cap(NOTES)
    ensures Apply(env, w, step).snapshot.Some?
    ensures |Lines(Latest(Apply(env, w, step)), NOTES)| <= env.pack.cap(NOTES)
  {
    hide AddNote, StampAll;
    match step {
      case Remember(text, stamp) => NoteWithinCap(env, w.snapshot.value, text, stamp, w.forgotten);
      case _ =>
    }
  }
}
