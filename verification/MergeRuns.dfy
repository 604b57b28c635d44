/**
 * The merge as a run (packages/core/src/digest/merge.ts:634-961): the loaded state, the goal a
 * document states, one step for each delta, and the routed events and deduplication that close it.
 */
module MergeRuns {
  import opened Options
  import opened Seqs
  import opened FactRegistry
  import opened RegistryLaws
  import opened RegistryHistory
  import opened DigestFacts
  import opened FactOutcomes
  import opened StateMerge
  import opened MergeOutcomes

  /** The previous state without duplicates, its lists and history bounded, with nothing logged yet. */
  ghost predicate Loads(prev: State, l: State) {
    && l.goal == prev.goal
    && l.constraints == LastN(Dedupe(prev.constraints), 100) && l.decisions == LastN(Dedupe(prev.decisions), 100)
    && l.todos == Dedupe(prev.todos) && l.volatileContext == LastTen(Dedupe(prev.volatileContext))
    && l.openQuestions == LastTen(Dedupe(prev.openQuestions)) && l.risks == LastTen(Dedupe(prev.risks))
    && l.ledger == Ledger(Normalize(prev.ledger.registry), prev.ledger.profile)
    && l.log == [] && l.resolvedQuestions == {} && l.resolvedRisks == {}
  }

  /** A document's goal is taken in before the stream. */
  ghost predicate Begins(rd: Reader, lex: Lexicon, l: State, doc: Option<DocumentGoal>, s: State) {
    if doc.None? then s == l
    else
      && GoalOutcome(rd, lex, l.goal, LogOf(l, Goal), s.goal, LogOf(s, Goal), doc.value.goal, doc.value.evidence, true, doc.value.cited)
      && Spares(l, s, {Goal})
  }

  ghost predicate Steps(env: Env, rd: Reader, deltas: seq<Delta>, previous: set<Id>, cites: Cites, now: nat, states: seq<State>) {
    && |states| == |deltas| + 1
    && forall i :: 0 <= i < |deltas| ==> DeltaLaws(env, rd, states[i], states[i + 1], deltas[i], env.lex.trim(deltas[i].content), previous, cites, i, now)
  }

  /** The events are routed to the profile and the lists deduplicated. */
  ghost predicate Closes(env: Env, s: State, end: State, events: seq<RoutedEvent>, previous: set<Id>, ids: seq<Id>, now: nat)
    requires |events| == |ids|
  {
    && end.goal == s.goal && end.log == s.log && end.openQuestions == s.openQuestions && end.risks == s.risks
    && end.decisions == Dedupe(s.decisions) && end.constraints == Dedupe(s.constraints) && end.todos == Dedupe(s.todos)
    && end.volatileContext == LastTen(Dedupe(s.volatileContext))
    && exists results: seq<FactResult> ::
         RoutedRun(env, s.ledger, events, previous, ids, now, results) && end.ledger == results[|events|].state
  }

  ghost predicate IsRun(env: Env, rd: Reader, prev: State, doc: Option<DocumentGoal>, deltas: seq<Delta>, cites: Cites,
                        events: seq<RoutedEvent>, ids: seq<Id>, now: nat, end: State, loaded: State, states: seq<State>)
    requires |events| == |ids|
  {
    var previous := set e | e in loaded.ledger.registry :: e.id;
    && Loads(prev, loaded)
    && Steps(env, rd, deltas, previous, cites, now, states)
    && Begins(rd, env.lex, loaded, doc, states[0])
    && Closes(env, states[|deltas|], end, events, previous, ids, now)
  }

  /** The state after the first `i` deltas. */
  function After(env: Env, rd: Reader, start: State, deltas: seq<Delta>, previous: set<Id>, cites: Cites, now: nat, i: nat): State
    requires i <= |deltas|
  {
    MergeDeltas(env, rd, start, deltas[..i], previous, cites, now)
  }

  lemma OneStep(env: Env, rd: Reader, start: State, deltas: seq<Delta>, previous: set<Id>, cites: Cites, now: nat, i: nat)
    requires i < |deltas|
    ensures After(env, rd, start, deltas, previous, cites, now, i + 1)
         == MergeDelta(env, rd, After(env, rd, start, deltas, previous, cites, now, i), deltas[i], previous, cites, i, now)
  {
    hide MergeDelta;
    PrefixStep(deltas, i);
  }

  lemma RunSteps(env: Env, rd: Reader, start: State, deltas: seq<Delta>, previous: set<Id>, cites: Cites, now: nat) returns (states: seq<State>)
    ensures Steps(env, rd, deltas, previous, cites, now, states)
    ensures states[0] == start && states[|deltas|] == MergeDeltas(env, rd, start, deltas, previous, cites, now)
  {
    hide MergeDelta, DeltaLaws, MergeDeltas, After;
    states := seq(|deltas| + 1, i requires 0 <= i <= |deltas| => After(env, rd, start, deltas, previous, cites, now, i));
    forall i | 0 <= i < |deltas|
      ensures DeltaLaws(env, rd, states[i], states[i + 1], deltas[i], env.lex.trim(deltas[i].content), previous, cites, i, now)
    {
      OneStep(env, rd, start, deltas, previous, cites, now, i);
      DeltaIs(env, rd, states[i], deltas[i], previous, cites, i, now);
    }
    RunEnds(env, rd, start, deltas, previous, cites, now);
  }

  lemma RunEnds(env: Env, rd: Reader, start: State, deltas: seq<Delta>, previous: set<Id>, cites: Cites, now: nat)
    ensures After(env, rd, start, deltas, previous, cites, now, 0) == start
    ensures After(env, rd, start, deltas, previous, cites, now, |deltas|) == MergeDeltas(env, rd, start, deltas, previous, cites, now)
  {
    hide MergeDelta;
    assert deltas[..0] == [] && deltas[..|deltas|] == deltas;
  }

  lemma LoadIs(prev: State)
    ensures Loads(prev, Load(prev))
  {
    hide Normalize, Dedupe;
    LastTenIs(Dedupe(prev.volatileContext));
    LastTenIs(Dedupe(prev.openQuestions));
    LastTenIs(Dedupe(prev.risks));
  }

  lemma FinishIs(env: Env, s: State, events: seq<RoutedEvent>, previous: set<Id>, ids: seq<Id>, now: nat)
    requires |events| == |ids|
    ensures Closes(env, s, Finish(env, s, events, previous, ids, now), events, previous, ids, now)
  {
    hide RouteEvents, RoutedRun, Dedupe;
    var results := RoutedEventsAre(env, s.ledger, events, previous, ids, now);
    assert |results| == |events| + 1 by { RunLength(env, s.ledger, events, previous, ids, now, results); }
    LastTenIs(Dedupe(s.volatileContext));
  }

  lemma RunLength(env: Env, s: Ledger, events: seq<RoutedEvent>, previous: set<Id>, ids: seq<Id>, now: nat, results: seq<FactResult>)
    requires |events| == |ids| && RoutedRun(env, s, events, previous, ids, now, results)
    ensures |results| == |events| + 1
  {
  }

  /** The merge is such a run: every delta of the stream, in order, does what it should to every field. */
  lemma MergeIsRun(env: Env, rd: Reader, prev: State, doc: Option<DocumentGoal>, deltas: seq<Delta>, cites: Cites, events: seq<RoutedEvent>, ids: seq<Id>, now: nat)
    requires |events| == |ids|
    ensures exists loaded: State, states: seq<State> ::
              IsRun(env, rd, prev, doc, deltas, cites, events, ids, now, Merge(env, rd, prev, doc, deltas, cites, events, ids, now), loaded, states)
  {
    hide Load, Loads, MergeDeltas, Steps, GoalOutcome, Closes, Finish, LogOf, MergeGoal;
    var l := Load(prev);
    var previous := Ids(l.ledger.registry);
    var start := DocumentPhase(rd, env.lex, l, doc);
    LoadIs(prev);
    if doc.Some? { GoalIs(rd, env.lex, l, doc.value.goal, doc.value.evidence, true, doc.value.cited); }
    var states := RunSteps(env, rd, start, deltas, previous, cites, now);
    assert |states| == |deltas| + 1 by { StepsLength(env, rd, deltas, previous, cites, now, states); }
    FinishIs(env, states[|deltas|], events, previous, ids, now);
    assert IsRun(env, rd, prev, doc, deltas, cites, events, ids, now, Merge(env, rd, prev, doc, deltas, cites, events, ids, now), l, states);
  }

  lemma StepsLength(env: Env, rd: Reader, deltas: seq<Delta>, previous: set<Id>, cites: Cites, now: nat, states: seq<State>)
    requires Steps(env, rd, deltas, previous, cites, now, states)
    ensures |states| == |deltas| + 1
  {
  }

  // ---------------------------------------------------------------- a decision nothing matches

  /** An unsuperseded entry states the text. */
  predicate OnRegister(lex: Lexicon, r: seq<Entry>, text: string) {
    exists e :: e in r && e.supersededBy.None? && (e.content == text || lex.sameFact(e.content, text))
  }

  /**
   * A decision of the size of a fact that no comparable decision matches, once those it conflicts
   * with have left, is the last of the decisions and of their log, and at importance 0.7 or more on
   * the registry.
   */
  lemma DecisionTakenIn(env: Env, rd: Reader, s: State, d: Delta, previous: set<Id>, cites: Cites, k: nat, now: nat)
    requires d.kind == DecisionEvent && !rd.revokes(env.lex.trim(d.content)) && |env.lex.trim(env.lex.trim(d.content))| <= 500
    requires var text := env.lex.trim(d.content);
             var left := Filter(s.decisions, v => !rd.conflicts(v, text) || LoadedStates(env.lex, s.ledger.registry, previous, v));
             forall v :: v in left ==> !FindsDecision(rd, left, text, 0.8, v)
    ensures var text := env.lex.trim(d.content);
            var left := Filter(s.decisions, v => !rd.conflicts(v, text) || LoadedStates(env.lex, s.ledger.registry, previous, v));
            var s' := MergeDelta(env, rd, s, d, previous, cites, k, now);
            && s'.decisions == left + [text]
            && Change(Decisions, Add, text, d.eventId) in s'.log
            && (d.importance >= 0.7 ==> OnRegister(env.lex, s'.ledger.registry, text))
  {
    hide MergeDelta, GoalLaw, ConstraintsLaw, TodosLaw, QuestionsLaw, VolatileLaw, RisksLaw, FindsDecision, Removals, LoadedStates, Stated;
    var text := env.lex.trim(d.content);
    var r := s.ledger.registry;
    var held := (v: string) => LoadedStates(env.lex, r, previous, v);
    var left := Filter(s.decisions, v => !rd.conflicts(v, text) || LoadedStates(env.lex, r, previous, v));
    var s' := MergeDelta(env, rd, s, d, previous, cites, k, now);
    DeltaIs(env, rd, s, d, previous, cites, k, now);
    FilterSame(s.decisions, v => !rd.conflicts(v, text) || LoadedStates(env.lex, r, previous, v), v => !rd.conflicts(v, text) || held(v));
    var gone := Filter(s.decisions, v => rd.conflicts(v, text) && !held(v));
    assert DecisionEnters(env, rd, left, LogOf(s, Decisions) + Removals(gone, d.eventId), s.ledger,
                          s'.decisions, LogOf(s', Decisions), s'.ledger, d, text, cites, k, now);
    var log := LogOf(s', Decisions);
    assert log[|log| - 1] == Change(Decisions, Add, text, d.eventId) && log[|log| - 1] in log;
    if d.importance >= 0.7 { StatedOnRegister(env, s.ledger, s'.ledger, text, d, now); }
  }

  lemma StatedOnRegister(env: Env, before: Ledger, after: Ledger, text: string, d: Delta, now: nat)
    requires Stated(env, before, after, text, Decision, d, now)
    ensures OnRegister(env.lex, after.registry, text)
  {
    if after != before {
      var e := after.registry[|before.registry|];
      assert e in after.registry && e.content == text;
    }
  }

  /** A decision that is all a merge has to go on is what it comes to. */
  lemma LoneDecisionIsKept(env: Env, rd: Reader, prev: State, d: Delta, cites: Cites, now: nat)
    requires prev.decisions == [] && d.kind == DecisionEvent && !rd.revokes(env.lex.trim(d.content)) && |env.lex.trim(env.lex.trim(d.content))| <= 500
    ensures var text, end := env.lex.trim(d.content), Merge(env, rd, prev, None, [d], cites, [], [], now);
            && end.decisions == [text] && Change(Decisions, Add, text, d.eventId) in end.log
            && (d.importance >= 0.7 ==> OnRegister(env.lex, end.ledger.registry, text))
  {
    hide MergeDelta, Normalize, OnRegister, LoadedStates, FindsDecision;
    var l := Load(prev);
    var previous := Ids(l.ledger.registry);
    assert [d][..0] == [];
    assert MergeDeltas(env, rd, l, [d], previous, cites, now) == MergeDelta(env, rd, l, d, previous, cites, 0, now);
    assert l.decisions == [];
    DecisionTakenIn(env, rd, l, d, previous, cites, 0, now);
    assert [env.lex.trim(d.content)][..0] == [];
  }
}
