/** The merge as it runs: one state object updated in place, proved to compute the functions of module StateMerge. */
module StateMergeWrites {
  import opened Options
  import opened Seqs
  import opened FactRegistry
  import opened RegistryLaws
  import opened RegistryHistory
  import opened DigestFacts
  import opened LedgerWrites
  import opened DigestWrites
  import opened StateMerge

  /** The state under merge. `log` is ghost: the object itself keeps only a window and a count of it. */
  class Merging {
    var goal: string
    var constraints: seq<string>
    var decisions: seq<string>
    var todos: seq<string>
    var volatileContext: seq<string>
    var openQuestions: seq<string>
    var risks: seq<string>
    var resolvedQuestions: set<string>
    var resolvedRisks: set<string>
    var recentChanges: seq<Change>
    var transitionSummary: map<(Field, Action), nat>
    const facts: DigestState
    ghost var log: seq<Change>

    ghost predicate Valid()
      reads this
    {
      recentChanges == Recent(log) && transitionSummary == Summary(log)
    }

    ghost function Value(): State
      reads this, facts
    {
      State(goal, constraints, decisions, todos, volatileContext, openQuestions, risks,
            facts.Value(), log, resolvedQuestions, resolvedRisks)
    }

    /** A normalised copy of the previous state, with an empty log. */
    constructor (prev: State)
      ensures Valid() && Value() == Load(prev) && fresh(facts)
    {
      goal := prev.goal;
      constraints := LastN(Dedupe(prev.constraints), LIST_LIMIT);
      decisions := LastN(Dedupe(prev.decisions), LIST_LIMIT);
      todos := Dedupe(prev.todos);
      volatileContext := LastN(Dedupe(prev.volatileContext), WINDOW);
      openQuestions := LastN(Dedupe(prev.openQuestions), WINDOW);
      risks := LastN(Dedupe(prev.risks), WINDOW);
      resolvedQuestions, resolvedRisks := {}, {};
      recentChanges, transitionSummary, log := [], map[], [];
      facts := new DigestState(NormalizeLedger(prev.ledger));
    }

    /** `pushRecentChange`: the window stays the tail of the log and the counts stay the log's. */
    method PushRecentChange(field: Field, action: Action, value: string, evidence: Id)
      requires Valid()
      modifies this`recentChanges, this`transitionSummary, this`log
      ensures Valid() && log == old(log) + [Change(field, action, value, evidence)]
    {
      var change := Change(field, action, value, evidence);
      LastNOfLastN(log, change, RECENT_LIMIT);
      assert (log + [change])[..|log|] == log;
      log := log + [change];
      transitionSummary := Bump(transitionSummary, change);
      recentChanges := LastN(recentChanges + [change], RECENT_LIMIT);
    }

    /** `mergeGoalUpdate`. */
    method MergeGoalUpdate(rd: Reader, lex: Lexicon, incoming: string, evidence: Id, isDocument: bool, cited: bool)
      requires Valid()
      modifies this
      ensures Valid() && Value() == MergeGoal(rd, lex, old(Value()), incoming, evidence, isDocument, cited)
    {
      hide Recent, Summary;
      var previous := lex.trim(goal);
      if previous == "" {
        goal := incoming;
        PushRecentChange(Goal, Set, incoming, evidence);
        return;
      }
      if rd.sameGoal(previous, incoming, isDocument) {
        if !cited { PushRecentChange(Goal, Reaffirm, previous, evidence); }
        return;
      }
      if !isDocument {
        if rd.relatedGoal(previous, incoming) { PushRecentChange(Goal, Reaffirm, previous, evidence); }
        return;
      }
      PushRecentChange(Goal, Remove, previous, evidence);
      goal := incoming;
      PushRecentChange(Goal, Set, incoming, evidence);
    }

    method DropDecision(lex: Lexicon, previous: set<Id>, decision: string, evidence: Id)
      requires Valid()
      modifies this
      ensures Valid() && Value() == RemoveDecision(lex, old(Value()), previous, decision, evidence)
    {
      if !ProtectedDecision(lex, facts.registry, previous, decision) {
        decisions := Without(decisions, decision);
        PushRecentChange(Decisions, Remove, decision, evidence);
      }
    }

    /** The loop over the decisions a new one conflicts with. */
    method DropConflicting(lex: Lexicon, previous: set<Id>, conflicting: seq<string>, evidence: Id)
      requires Valid()
      modifies this
      ensures Valid() && Value() == RemoveDecisions(lex, old(Value()), previous, conflicting, evidence)
    {
      for k := 0 to |conflicting|
        invariant Valid() && Value() == RemoveDecisions(lex, old(Value()), previous, conflicting[..k], evidence)
      {
        PrefixStep(conflicting, k);
        DropDecision(lex, previous, conflicting[k], evidence);
      }
      assert conflicting[..|conflicting|] == conflicting;
    }

    method AddDecision(env: Env, existing: Option<string>, d: Delta, text: string, cites: Cites, k: nat, now: nat)
      requires Valid()
      modifies this, facts
      ensures Valid() && Value() == Decide(env, old(Value()), existing, d, text, cites, k, now)
    {
      hide Recent, Summary;
      if existing.None? {
        decisions := decisions + [text];
        PushRecentChange(Decisions, Add, text, d.eventId);
        if d.importance >= 0.7 {
          PromoteToFactRegistry(env.lex, facts, text, Decision, d.importance, Evidence(d.eventId, EventSource), d.newId, None, now, []);
        }
      } else if !cites(k, Decisions, existing.value) {
        PushRecentChange(Decisions, Reaffirm, existing.value, d.eventId);
      }
    }

    method DecisionDelta(env: Env, rd: Reader, d: Delta, text: string, previous: set<Id>, cites: Cites, k: nat, now: nat)
      requires Valid()
      modifies this, facts
      ensures Valid() && Value() == DecidePhase(env, rd, old(Value()), d, text, previous, cites, k, now)
    {
      if rd.revokes(text) {
        var matched := DecisionMatch(rd, decisions, rd.stripRevocation(text), 0.45);
        if matched.Some? { DropDecision(env.lex, previous, matched.value, d.eventId); }
      } else if FactSized(env.lex, text) {
        DropConflicting(env.lex, previous, Conflicting(rd, decisions, text), d.eventId);
        var existing := DecisionMatch(rd, decisions, text, 0.8);
        AddDecision(env, existing, d, text, cites, k, now);
      }
    }

    method ResolveQuestion(rd: Reader, d: Delta, text: string)
      requires Valid()
      modifies this
      ensures Valid() && Value() == ResolveQuestionPhase(rd, old(Value()), d, text)
    {
      var matched := FindBestWorkingNoteMatch(rd, openQuestions, Resolution(rd, text), 0.35);
      DropQuestion(rd, matched, d);
    }

    method DropQuestion(rd: Reader, matched: Option<string>, d: Delta)
      requires Valid()
      modifies this
      ensures Valid() && Value() == CloseQuestion(rd, old(Value()), matched, d)
    {
      hide Without, NoteKey, LastN, Recent, Summary;
      if matched.Some? {
        PushRecentChange(OpenQuestions, Remove, matched.value, d.eventId);
        resolvedQuestions := resolvedQuestions + {NoteKey(rd, matched.value)};
        openQuestions := Without(openQuestions, matched.value);
      }
      openQuestions := LastN(openQuestions, WINDOW);
    }

    method ConstraintDelta(env: Env, rd: Reader, d: Delta, text: string, cites: Cites, k: nat, now: nat)
      requires Valid()
      modifies this, facts
      ensures Valid() && Value() == ConstraintPhase(env, rd, old(Value()), d, text, cites, k, now)
    {
      hide Recent, Summary;
      var constraint := rd.constraintText(text);
      if !FactSized(env.lex, constraint) { return; }
      var existing := FindBestSemanticMatch(rd, constraints, constraint, 0.8);
      if existing.None? {
        constraints := constraints + [constraint];
        PushRecentChange(Constraints, Add, constraint, d.eventId);
        PromoteToFactRegistry(env.lex, facts, constraint, Constraint, d.importance, Evidence(d.eventId, EventSource), d.newId, None, now, []);
      } else if !cites(k, Constraints, existing.value) {
        PushRecentChange(Constraints, Reaffirm, existing.value, d.eventId);
      }
    }

    method CloseOneTodo(matched: Option<string>, d: Delta)
      requires Valid()
      modifies this
      ensures Valid() && Value() == CloseTodo(old(Value()), matched, d)
    {
      if matched.Some? {
        todos := Without(todos, matched.value);
        PushRecentChange(Todos, Remove, matched.value, d.eventId);
      }
    }

    method OpenOneTodo(existing: Option<string>, d: Delta, text: string, cites: Cites, k: nat)
      requires Valid()
      modifies this
      ensures Valid() && Value() == OpenTodo(old(Value()), existing, d, text, cites, k)
    {
      if existing.None? {
        todos := todos + [text];
        PushRecentChange(Todos, Add, text, d.eventId);
      } else if !cites(k, Todos, existing.value) {
        PushRecentChange(Todos, Reaffirm, existing.value, d.eventId);
      }
    }

    method TodoDelta(rd: Reader, d: Delta, text: string, cites: Cites, k: nat)
      requires Valid()
      modifies this
      ensures Valid() && Value() == TodoPhase(rd, old(Value()), d, text, cites, k)
    {
      if rd.closesTodo(text) {
        CloseOneTodo(TodoMatch(rd, todos, rd.stripTodoRemoval(text), 0.45), d);
      } else {
        OpenOneTodo(TodoMatch(rd, todos, text, 0.8), d, text, cites, k);
      }
    }

    method QuestionDelta(rd: Reader, d: Delta, text: string, cites: Cites, k: nat)
      requires Valid()
      modifies this
      ensures Valid() && Value() == QuestionPhase(rd, old(Value()), d, text, cites, k)
    {
      var existing := FindBestSemanticMatch(rd, openQuestions, text, 0.7);
      if existing.None? {
        openQuestions := LastN(openQuestions + [text], WINDOW);
        PushRecentChange(OpenQuestions, Add, text, d.eventId);
      } else if !cites(k, OpenQuestions, existing.value) {
        PushRecentChange(OpenQuestions, Reaffirm, existing.value, d.eventId);
      }
    }

    method VolatileDelta(rd: Reader, d: Delta, text: string, cites: Cites, k: nat)
      requires Valid()
      modifies this
      ensures Valid() && Value() == VolatilePhase(rd, old(Value()), d, text, cites, k)
    {
      var existing := FindBestSemanticMatch(rd, volatileContext, text, 0.7);
      if existing.None? {
        volatileContext := LastN(volatileContext + [text], WINDOW);
        PushRecentChange(VolatileContext, Add, text, d.eventId);
      } else if !cites(k, VolatileContext, existing.value) {
        PushRecentChange(VolatileContext, Reaffirm, existing.value, d.eventId);
      }
    }

    method ResolveRisk(rd: Reader, d: Delta, text: string)
      requires Valid()
      modifies this
      ensures Valid() && Value() == ResolveRiskPhase(rd, old(Value()), d, text)
    {
      var matched := FindBestWorkingNoteMatch(rd, risks, Resolution(rd, text), 0.35);
      if matched.None? {
        risks := LastN(risks, WINDOW);
        return;
      }
      var line := FindBestWorkingNoteMatch(rd, volatileContext, matched.value, 0.35);
      DropRisk(rd, matched.value, line, d);
    }

    method DropRisk(rd: Reader, risk: string, line: Option<string>, d: Delta)
      requires Valid()
      modifies this
      ensures Valid() && Value() == CloseRisk(rd, old(Value()), risk, line, d)
    {
      hide Without, NoteKey, LastN, Recent, Summary;
      PushRecentChange(Risks, Remove, risk, d.eventId);
      risks := LastN(Without(risks, risk), WINDOW);
      resolvedRisks := resolvedRisks + {NoteKey(rd, risk)};
      ForgetLine(line);
    }

    /** `removeVolatileContextValue`: nothing is logged. */
    method ForgetLine(line: Option<string>)
      modifies this`volatileContext
      ensures volatileContext == LastN(if line.Some? then Without(old(volatileContext), line.value) else old(volatileContext), WINDOW)
    {
      if line.Some? { volatileContext := Without(volatileContext, line.value); }
      volatileContext := LastN(volatileContext, WINDOW);
    }

    method RiskDelta(rd: Reader, d: Delta, text: string, cites: Cites, k: nat)
      requires Valid()
      modifies this
      ensures Valid() && Value() == RiskPhase(rd, old(Value()), d, text, cites, k)
    {
      var existing := FindBestSemanticMatch(rd, risks, text, 0.7);
      if existing.None? {
        risks := LastN(risks + [text], WINDOW);
        PushRecentChange(Risks, Add, text, d.eventId);
      } else if !cites(k, Risks, existing.value) {
        PushRecentChange(Risks, Reaffirm, existing.value, d.eventId);
      }
    }

    /** The body of the loop over the deltas. */
    method MergeOne(env: Env, rd: Reader, d: Delta, previous: set<Id>, cites: Cites, k: nat, now: nat)
      requires Valid()
      modifies this, facts
      ensures Valid() && Value() == MergeDelta(env, rd, old(Value()), d, previous, cites, k, now)
    {
      var text := env.lex.trim(d.content);
      var mentionedGoal := rd.goalOf(text);
      if mentionedGoal.Some? && d.kind != NoiseEvent {
        MergeGoalUpdate(rd, env.lex, mentionedGoal.value, d.eventId, false, cites(k, Goal, mentionedGoal.value));
      }
      assert Value() == GoalPhase(rd, env.lex, old(Value()), d, text, cites, k);
      match d.kind {
        case DecisionEvent =>
          DecisionDelta(env, rd, d, text, previous, cites, k, now);
          ResolveQuestion(rd, d, text);
        case ConstraintEvent =>
          if d.importance >= 0.75 { ConstraintDelta(env, rd, d, text, cites, k, now); }
        case TodoEvent =>
          TodoDelta(rd, d, text, cites, k);
        case _ =>
      }
      assert Value() == FirstHalf(env, rd, old(Value()), d, text, previous, cites, k, now);
      Rest(rd, d, text, cites, k);
    }

    /** The working notes of a delta: its question or volatile line, then its risks. */
    method Rest(rd: Reader, d: Delta, text: string, cites: Cites, k: nat)
      requires Valid()
      modifies this
      ensures Valid()
      ensures Value() == if AlreadyResolved(rd, old(Value()), d, text) then old(Value())
                         else RisksPart(rd, BeforeRisks(rd, old(Value()), d, text, cites, k), d, text, cites, k)
    {
      if d.kind == QuestionEvent {
        if NoteKey(rd, text) in resolvedQuestions { return; }
        QuestionDelta(rd, d, text, cites, k);
      }
      if IsVolatile(rd, d, text) {
        if NoteKey(rd, text) in resolvedRisks { return; }
        VolatileDelta(rd, d, text, cites, k);
      }
      assert Value() == BeforeRisks(rd, old(Value()), d, text, cites, k);
      if Resolves(rd, d, text) { ResolveRisk(rd, d, text); }
      if rd.mentionsRisk(text) {
        if NoteKey(rd, text) in resolvedRisks { return; }
        RiskDelta(rd, d, text, cites, k);
      }
    }

    method MergeAll(env: Env, rd: Reader, deltas: seq<Delta>, previous: set<Id>, cites: Cites, now: nat)
      requires Valid()
      modifies this, facts
      ensures Valid() && Value() == MergeDeltas(env, rd, old(Value()), deltas, previous, cites, now)
    {
      for k := 0 to |deltas|
        invariant Valid() && Value() == MergeDeltas(env, rd, old(Value()), deltas[..k], previous, cites, now)
      {
        PrefixStep(deltas, k);
        MergeOne(env, rd, deltas[k], previous, cites, k, now);
      }
      assert deltas[..|deltas|] == deltas;
    }

    /** What follows the stream: the profile routing and the final deduplication. */
    method Close(env: Env, events: seq<RoutedEvent>, previous: set<Id>, ids: seq<Id>, now: nat)
      requires Valid() && |events| == |ids|
      modifies this, facts
      ensures Valid() && Value() == Finish(env, old(Value()), events, previous, ids, now)
    {
      var drops := MergeProfileFacets(env, facts, events, previous, ids, now);
      decisions := Dedupe(decisions);
      constraints := Dedupe(constraints);
      todos := Dedupe(todos);
      volatileContext := LastN(Dedupe(volatileContext), WINDOW);
    }
  }

  /** The scan for the best match, the first of equals. */
  method FindBest(rd: Reader, values: seq<string>, texts: seq<string>, candidate: string, threshold: real) returns (m: Option<string>)
    requires |texts| == |values|
    ensures m == Match(rd, values, texts, candidate, threshold)
  {
    if values == [] { return None; }
    var best := 0;
    for k := 1 to |values|
      invariant best < k && best == BestIndex(rd, values[..k], texts[..k], candidate)
    {
      PrefixStep(values, k);
      PrefixStep(texts, k);
      if rd.score(texts[k], candidate) > rd.score(texts[best], candidate) { best := k; }
    }
    assert values[..|values|] == values && texts[..|texts|] == texts;
    return if rd.same(texts[best], candidate, threshold) && values[best] != "" then Some(values[best]) else None;
  }

  method FindBestSemanticMatch(rd: Reader, values: seq<string>, candidate: string, threshold: real) returns (m: Option<string>)
    ensures m == SemanticMatch(rd, values, candidate, threshold)
  {
    m := FindBest(rd, values, values, candidate, threshold);
  }

  method FindBestWorkingNoteMatch(rd: Reader, values: seq<string>, candidate: string, threshold: real) returns (m: Option<string>)
    ensures m == WorkingNoteMatch(rd, values, candidate, threshold)
  {
    m := FindBest(rd, values, Mapped(values, rd.stripResolution), rd.stripResolution(candidate), threshold);
  }

  /** `protectedStateMerge`. */
  method ProtectedStateMerge(env: Env, rd: Reader, prev: State, doc: Option<DocumentGoal>, deltas: seq<Delta>, cites: Cites, events: seq<RoutedEvent>, ids: seq<Id>, now: nat) returns (next: Merging)
    requires |events| == |ids|
    ensures fresh(next) && fresh(next.facts) && next.Valid()
    ensures next.Value() == Merge(env, rd, prev, doc, deltas, cites, events, ids, now)
  {
    next := new Merging(prev);
    ghost var start := next.Value();
    if doc.Some? {
      next.MergeGoalUpdate(rd, env.lex, doc.value.goal, doc.value.evidence, true, doc.value.cited);
    }
    var previous := set e | e in next.facts.registry :: e.id;
    assert previous == Ids(start.ledger.registry);
    next.MergeAll(env, rd, deltas, previous, cites, now);
    next.Close(env, events, previous, ids, now);
  }
}
