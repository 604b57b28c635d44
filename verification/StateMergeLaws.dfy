/**
 * What the deterministic merge promises: its change log accounts for every list, protected
 * decisions survive any stream, and a goal that is set is not changed by one.
 */
module StateMergeLaws {
  import opened Options
  import opened Seqs
  import opened FactRegistry
  import opened RegistryLaws
  import opened RegistryHistory
  import opened DigestFacts
  import opened DigestWork
  import opened StateMerge

  // ---------------------------------------------------------------- replaying a log

  /** The value of a field; the goal is a list of one. */
  function Content(s: State, field: Field): seq<string> {
    match field
    case Goal => [s.goal]
    case Constraints => s.constraints
    case Decisions => s.decisions
    case Todos => s.todos
    case VolatileContext => s.volatileContext
    case OpenQuestions => s.openQuestions
    case Risks => s.risks
  }

  /** The working-note fields keep only their last ten values. */
  function Windowed(field: Field, values: seq<string>): seq<string> {
    match field
    case VolatileContext => LastN(values, WINDOW)
    case OpenQuestions => LastN(values, WINDOW)
    case Risks => LastN(values, WINDOW)
    case _ => values
  }

  /** Apply one change to the values of `field`. */
  function Redo(field: Field, values: seq<string>, c: Change): seq<string> {
    if c.field != field then values
    else match c.action
      case Set => [c.value]
      case Add => Windowed(field, values + [c.value])
      case Remove => Without(values, c.value)
      case Reaffirm => values
  }

  function Replay(field: Field, values: seq<string>, log: seq<Change>): seq<string> {
    if log == [] then values
    else Redo(field, Replay(field, values, log[..|log| - 1]), log[|log| - 1])
  }

  lemma {:induction false} ReplayConcat(field: Field, values: seq<string>, a: seq<Change>, b: seq<Change>)
    ensures Replay(field, values, a + b) == Replay(field, Replay(field, values, a), b)
  {
    if b == [] {
      assert a + b == a;
    } else {
      var n := |b| - 1;
      assert (a + b)[..|a + b| - 1] == a + b[..n];
      ReplayConcat(field, values, a, b[..n]);
    }
  }

  // ---------------------------------------------------------------- one step against its log

  predicate Bounded(s: State) {
    |s.openQuestions| <= WINDOW && |s.risks| <= WINDOW && |s.volatileContext| <= WINDOW
  }

  /** What was logged between two states of a run. */
  function Logged(s: State, s': State): seq<Change>
    requires s.log <= s'.log
  {
    s'.log[|s.log|..]
  }

  predicate Explains(s: State, s': State, field: Field)
    requires s.log <= s'.log
  {
    Content(s', field) == Replay(field, Content(s, field), Logged(s, s'))
  }

  /** The log explains every field, the volatile context only when `all`, and the windows hold. */
  predicate Accounted(s: State, s': State, all: bool) {
    && s.log <= s'.log
    && (Bounded(s) ==> Bounded(s'))
    && forall field :: (all || field != VolatileContext) && Bounded(s) ==> Explains(s, s', field)
  }

  lemma AccountedTwice(a: State, b: State, c: State, all: bool)
    requires Accounted(a, b, all) && Accounted(b, c, all)
    ensures Accounted(a, c, all)
    ensures Logged(a, c) == Logged(a, b) + Logged(b, c)
  {
    assert c.log[|a.log|..] == b.log[|a.log|..] + c.log[|b.log|..];
    forall field | (all || field != VolatileContext) && Bounded(a) ensures Explains(a, c, field) {
      assert Explains(a, b, field) && Explains(b, c, field);
      ReplayConcat(field, Content(a, field), Logged(a, b), Logged(b, c));
    }
  }

  /** One change logged, and the fields changed as it says. */
  lemma AccountedOne(s: State, s': State, c: Change)
    requires s'.log == s.log + [c]
    requires Bounded(s) ==> Bounded(s')
    requires forall field :: Bounded(s) ==> Content(s', field) == Redo(field, Content(s, field), c)
    ensures Accounted(s, s', true)
  {
    assert s'.log[|s.log|..] == [c];
    forall field | Bounded(s) ensures Explains(s, s', field) {
      assert Replay(field, Content(s, field), [c]) == Redo(field, Replay(field, Content(s, field), []), c);
    }
  }

  lemma AccountedNone(s: State, s': State)
    requires s'.log == s.log
    requires Bounded(s) ==> Bounded(s')
    requires forall field :: Bounded(s) ==> Content(s', field) == Content(s, field)
    ensures Accounted(s, s', true)
  {
    assert s'.log[|s.log|..] == [];
  }

  // ---------------------------------------------------------------- the phases, each against its log

  lemma GoalAccounted(rd: Reader, lex: Lexicon, s: State, goal: string, evidence: Id, isDocument: bool, cited: bool)
    ensures Accounted(s, MergeGoal(rd, lex, s, goal, evidence, isDocument, cited), true)
  {
    var s' := MergeGoal(rd, lex, s, goal, evidence, isDocument, cited);
    var previous := lex.trim(s.goal);
    if previous == "" {
      AccountedOne(s, s', Change(Goal, Set, goal, evidence));
    } else if s' == s {
      AccountedNone(s, s);
    } else if rd.sameGoal(previous, goal, isDocument) || !isDocument {
      AccountedOne(s, s', Change(Goal, Reaffirm, previous, evidence));
    } else {
      Replaced(s, s', Change(Goal, Remove, previous, evidence), Change(Goal, Set, goal, evidence));
    }
  }

  /** A goal replaced in one go: the removal and the new goal are both logged. */
  lemma Replaced(s: State, s': State, c: Change, d: Change)
    requires c.field == d.field == Goal && d.action == Set
    requires s' == s.(goal := d.value, log := s.log + [c] + [d])
    ensures Accounted(s, s', true)
  {
    assert s'.log[|s.log|..] == [c, d] && [c, d][..1] == [c];
    forall field | Bounded(s) ensures Explains(s, s', field) {
      assert Replay(field, Content(s, field), [c, d]) == Redo(field, Replay(field, Content(s, field), [c]), d);
      assert Replay(field, Content(s, field), [c]) == Redo(field, Replay(field, Content(s, field), []), c);
    }
  }

  lemma {:induction false} RemovalsAccounted(lex: Lexicon, s: State, previous: set<Id>, decisions: seq<string>, evidence: Id)
    ensures Accounted(s, RemoveDecisions(lex, s, previous, decisions, evidence), true)
  {
    if decisions == [] {
      AccountedNone(s, s);
    } else {
      var n := |decisions| - 1;
      var before := RemoveDecisions(lex, s, previous, decisions[..n], evidence);
      RemovalsAccounted(lex, s, previous, decisions[..n], evidence);
      RemovalAccounted(lex, before, previous, decisions[n], evidence);
      AccountedTwice(s, before, RemoveDecision(lex, before, previous, decisions[n], evidence), true);
    }
  }

  lemma RemovalAccounted(lex: Lexicon, s: State, previous: set<Id>, decision: string, evidence: Id)
    ensures Accounted(s, RemoveDecision(lex, s, previous, decision, evidence), true)
  {
    if ProtectedDecision(lex, s.ledger.registry, previous, decision) {
      AccountedNone(s, s);
    } else {
      AccountedOne(s, RemoveDecision(lex, s, previous, decision, evidence), Change(Decisions, Remove, decision, evidence));
    }
  }

  lemma PromotionAccounted(env: Env, s: State, content: string, kind: Kind, d: Delta, now: nat)
    ensures Accounted(s, PromoteIn(env, s, content, kind, d, now), true)
    ensures Logged(s, PromoteIn(env, s, content, kind, d, now)) == []
  {
    AccountedNone(s, PromoteIn(env, s, content, kind, d, now));
  }

  lemma DecideAccounted(env: Env, s: State, existing: Option<string>, d: Delta, text: string, cites: Cites, k: nat, now: nat)
    ensures Accounted(s, Decide(env, s, existing, d, text, cites, k, now), true)
  {
    var s' := Decide(env, s, existing, d, text, cites, k, now);
    if existing.None? {
      var added := Record(s.(decisions := s.decisions + [text]), Decisions, Add, text, d.eventId);
      AccountedOne(s, added, Change(Decisions, Add, text, d.eventId));
      PromotionAccounted(env, added, text, Decision, d, now);
      AccountedTwice(s, added, PromoteIn(env, added, text, Decision, d, now), true);
    } else if s' == s {
      AccountedNone(s, s);
    } else {
      AccountedOne(s, s', Change(Decisions, Reaffirm, existing.value, d.eventId));
    }
  }

  lemma DecidePhaseAccounted(env: Env, rd: Reader, s: State, d: Delta, text: string, previous: set<Id>, cites: Cites, k: nat, now: nat)
    ensures Accounted(s, DecidePhase(env, rd, s, d, text, previous, cites, k, now), true)
  {
    AccountedNone(s, s);
    if rd.revokes(text) {
      var matched := DecisionMatch(rd, s.decisions, rd.stripRevocation(text), 0.45);
      if matched.Some? { RemovalAccounted(env.lex, s, previous, matched.value, d.eventId); }
    } else if FactSized(env.lex, text) {
      var conflicts := Conflicting(rd, s.decisions, text);
      var s1 := RemoveDecisions(env.lex, s, previous, conflicts, d.eventId);
      var existing := DecisionMatch(rd, s1.decisions, text, 0.8);
      RemovalsAccounted(env.lex, s, previous, conflicts, d.eventId);
      DecideAccounted(env, s1, existing, d, text, cites, k, now);
      AccountedTwice(s, s1, Decide(env, s1, existing, d, text, cites, k, now), true);
    }
  }

  lemma QuestionResolutionAccounted(rd: Reader, s: State, d: Delta, text: string)
    ensures Accounted(s, ResolveQuestionPhase(rd, s, d, text), true)
  {
    var s' := ResolveQuestionPhase(rd, s, d, text);
    var matched := WorkingNoteMatch(rd, s.openQuestions, Resolution(rd, text), 0.35);
    if matched.None? {
      AccountedNone(s, s');
    } else {
      AccountedOne(s, s', Change(OpenQuestions, Remove, matched.value, d.eventId));
    }
  }

  lemma ConstraintAccounted(env: Env, rd: Reader, s: State, d: Delta, text: string, cites: Cites, k: nat, now: nat)
    ensures Accounted(s, ConstraintPhase(env, rd, s, d, text, cites, k, now), true)
  {
    var s' := ConstraintPhase(env, rd, s, d, text, cites, k, now);
    var constraint := rd.constraintText(text);
    var existing := SemanticMatch(rd, s.constraints, constraint, 0.8);
    if s' == s {
      AccountedNone(s, s);
    } else if existing.None? {
      var s1 := Record(s.(constraints := s.constraints + [constraint]), Constraints, Add, constraint, d.eventId);
      AccountedOne(s, s1, Change(Constraints, Add, constraint, d.eventId));
      PromotionAccounted(env, s1, constraint, Constraint, d, now);
      AccountedTwice(s, s1, s', true);
    } else {
      AccountedOne(s, s', Change(Constraints, Reaffirm, existing.value, d.eventId));
    }
  }

  lemma CloseAccounted(s: State, matched: Option<string>, d: Delta)
    ensures Accounted(s, CloseTodo(s, matched, d), true)
  {
    if matched.None? {
      AccountedNone(s, s);
    } else {
      AccountedOne(s, CloseTodo(s, matched, d), Change(Todos, Remove, matched.value, d.eventId));
    }
  }

  lemma OpenAccounted(s: State, existing: Option<string>, d: Delta, text: string, cites: Cites, k: nat)
    ensures Accounted(s, OpenTodo(s, existing, d, text, cites, k), true)
  {
    var s' := OpenTodo(s, existing, d, text, cites, k);
    if s' == s {
      AccountedNone(s, s);
    } else {
      AccountedOne(s, s', s'.log[|s.log|]);
    }
  }

  lemma TodoAccounted(rd: Reader, s: State, d: Delta, text: string, cites: Cites, k: nat)
    ensures Accounted(s, TodoPhase(rd, s, d, text, cites, k), true)
  {
    CloseAccounted(s, TodoMatch(rd, s.todos, rd.stripTodoRemoval(text), 0.45), d);
    OpenAccounted(s, TodoMatch(rd, s.todos, text, 0.8), d, text, cites, k);
  }

  lemma QuestionAccounted(rd: Reader, s: State, d: Delta, text: string, cites: Cites, k: nat)
    ensures Accounted(s, QuestionPhase(rd, s, d, text, cites, k), true)
  {
    var s' := QuestionPhase(rd, s, d, text, cites, k);
    if s' == s {
      AccountedNone(s, s);
    } else {
      assert |s'.log| == |s.log| + 1;
      AccountedOne(s, s', s'.log[|s.log|]);
    }
  }

  lemma VolatileAccounted(rd: Reader, s: State, d: Delta, text: string, cites: Cites, k: nat)
    ensures Accounted(s, VolatilePhase(rd, s, d, text, cites, k), true)
    ensures Explains(s, VolatilePhase(rd, s, d, text, cites, k), VolatileContext)
  {
    var s' := VolatilePhase(rd, s, d, text, cites, k);
    if s' == s {
      AccountedNone(s, s);
    } else {
      assert |s'.log| == |s.log| + 1;
      AccountedOne(s, s', s'.log[|s.log|]);
      VolatileReplays(s, s');
    }
  }

  lemma RiskAccounted(rd: Reader, s: State, d: Delta, text: string, cites: Cites, k: nat)
    ensures Accounted(s, RiskPhase(rd, s, d, text, cites, k), true)
  {
    var s' := RiskPhase(rd, s, d, text, cites, k);
    if s' == s {
      AccountedNone(s, s);
    } else {
      assert |s'.log| == |s.log| + 1;
      AccountedOne(s, s', s'.log[|s.log|]);
    }
  }

  /** Resolving a risk with this text also takes a volatile line away. */
  predicate DropsLine(rd: Reader, s: State, text: string) {
    var matched := WorkingNoteMatch(rd, s.risks, Resolution(rd, text), 0.35);
    matched.Some? && WorkingNoteMatch(rd, s.volatileContext, matched.value, 0.35).Some?
  }

  lemma RiskResolutionAccounted(rd: Reader, s: State, d: Delta, text: string)
    ensures Accounted(s, ResolveRiskPhase(rd, s, d, text), !DropsLine(rd, s, text))
  {
    var s' := ResolveRiskPhase(rd, s, d, text);
    var matched := WorkingNoteMatch(rd, s.risks, Resolution(rd, text), 0.35);
    if matched.None? {
      AccountedNone(s, s');
    } else {
      var shown := s'.(volatileContext := s.volatileContext);
      AccountedOne(s, shown, Change(Risks, Remove, matched.value, d.eventId));
      assert Logged(s, s') == Logged(s, shown);
      forall field | (!DropsLine(rd, s, text) || field != VolatileContext) && Bounded(s) ensures Explains(s, s', field) {
        assert Explains(s, shown, field);
        assert Content(s', field) == Content(shown, field);
      }
    }
  }

  lemma VolatileReplays(s: State, s': State)
    requires |s'.log| == |s.log| + 1 && s.log <= s'.log
    ensures Replay(VolatileContext, s.volatileContext, Logged(s, s')) == Redo(VolatileContext, s.volatileContext, s'.log[|s.log|])
  {
    assert Logged(s, s') == [s'.log[|s.log|]];
    assert Replay(VolatileContext, s.volatileContext, []) == s.volatileContext;
  }

  // ---------------------------------------------------------------- a delta, a stream, a merge

  lemma FirstHalfAccounted(env: Env, rd: Reader, s: State, d: Delta, text: string, previous: set<Id>, cites: Cites, k: nat, now: nat)
    ensures Accounted(s, FirstHalf(env, rd, s, d, text, previous, cites, k, now), true)
  {
    var s1 := GoalPhase(rd, env.lex, s, d, text, cites, k);
    GoalPhaseAccounted(rd, env.lex, s, d, text, cites, k);
    match d.kind
    case DecisionEvent =>
      var s2 := DecidePhase(env, rd, s1, d, text, previous, cites, k, now);
      DecidePhaseAccounted(env, rd, s1, d, text, previous, cites, k, now);
      AccountedTwice(s, s1, s2, true);
      QuestionResolutionAccounted(rd, s2, d, text);
      AccountedTwice(s, s2, ResolveQuestionPhase(rd, s2, d, text), true);
    case ConstraintEvent =>
      if d.importance >= 0.75 {
        ConstraintAccounted(env, rd, s1, d, text, cites, k, now);
        AccountedTwice(s, s1, ConstraintPhase(env, rd, s1, d, text, cites, k, now), true);
      }
    case TodoEvent =>
      TodoAccounted(rd, s1, d, text, cites, k);
      AccountedTwice(s, s1, TodoPhase(rd, s1, d, text, cites, k), true);
    case _ =>
  }

  lemma GoalPhaseAccounted(rd: Reader, lex: Lexicon, s: State, d: Delta, text: string, cites: Cites, k: nat)
    ensures Accounted(s, GoalPhase(rd, lex, s, d, text, cites, k), true)
  {
    var goal := rd.goalOf(text);
    if goal.Some? && d.kind != NoiseEvent {
      GoalAccounted(rd, lex, s, goal.value, d.eventId, false, cites(k, Goal, goal.value));
    } else {
      AccountedNone(s, s);
    }
  }

  lemma RisksPartAccounted(rd: Reader, s: State, d: Delta, text: string, cites: Cites, k: nat)
    ensures Accounted(s, RisksPart(rd, s, d, text, cites, k), !(Resolves(rd, d, text) && DropsLine(rd, s, text)))
  {
    var all := !(Resolves(rd, d, text) && DropsLine(rd, s, text));
    AccountedNone(s, s);
    RiskResolutionAccounted(rd, s, d, text);
    var s1 := if Resolves(rd, d, text) then ResolveRiskPhase(rd, s, d, text) else s;
    RiskAccounted(rd, s1, d, text, cites, k);
    AccountedTwice(s, s1, RiskPhase(rd, s1, d, text, cites, k), all);
  }

  /** Merging this delta takes a volatile line away without logging it. */
  predicate Omits(env: Env, rd: Reader, s: State, d: Delta, previous: set<Id>, cites: Cites, k: nat, now: nat) {
    var text := env.lex.trim(d.content);
    var s1 := FirstHalf(env, rd, s, d, text, previous, cites, k, now);
    !AlreadyResolved(rd, s1, d, text) && Resolves(rd, d, text) && DropsLine(rd, BeforeRisks(rd, s1, d, text, cites, k), text)
  }

  lemma DeltaAccounted(env: Env, rd: Reader, s: State, d: Delta, previous: set<Id>, cites: Cites, k: nat, now: nat)
    ensures Accounted(s, MergeDelta(env, rd, s, d, previous, cites, k, now), !Omits(env, rd, s, d, previous, cites, k, now))
  {
    var all := !Omits(env, rd, s, d, previous, cites, k, now);
    var text := env.lex.trim(d.content);
    var s1 := FirstHalf(env, rd, s, d, text, previous, cites, k, now);
    FirstHalfAccounted(env, rd, s, d, text, previous, cites, k, now);
    if !AlreadyResolved(rd, s1, d, text) {
      var s2 := BeforeRisks(rd, s1, d, text, cites, k);
      BeforeRisksAccounted(rd, s1, d, text, cites, k);
      AccountedTwice(s, s1, s2, true);
      RisksPartAccounted(rd, s2, d, text, cites, k);
      AccountedTwice(s, s2, RisksPart(rd, s2, d, text, cites, k), all);
    }
  }

  lemma BeforeRisksAccounted(rd: Reader, s: State, d: Delta, text: string, cites: Cites, k: nat)
    ensures Accounted(s, BeforeRisks(rd, s, d, text, cites, k), true)
  {
    AccountedNone(s, s);
    QuestionAccounted(rd, s, d, text, cites, k);
    VolatileAccounted(rd, s, d, text, cites, k);
  }

  /** Some delta of the stream takes a volatile line away unlogged. */
  predicate OmitsSome(env: Env, rd: Reader, s: State, deltas: seq<Delta>, previous: set<Id>, cites: Cites, now: nat) {
    deltas != [] &&
    (var n := |deltas| - 1;
     || OmitsSome(env, rd, s, deltas[..n], previous, cites, now)
     || Omits(env, rd, MergeDeltas(env, rd, s, deltas[..n], previous, cites, now), deltas[n], previous, cites, n, now))
  }

  lemma {:induction false} DeltasAccounted(env: Env, rd: Reader, s: State, deltas: seq<Delta>, previous: set<Id>, cites: Cites, now: nat)
    ensures Accounted(s, MergeDeltas(env, rd, s, deltas, previous, cites, now), !OmitsSome(env, rd, s, deltas, previous, cites, now))
  {
    if deltas == [] {
      AccountedNone(s, s);
    } else {
      var n := |deltas| - 1;
      var before := MergeDeltas(env, rd, s, deltas[..n], previous, cites, now);
      DeltasAccounted(env, rd, s, deltas[..n], previous, cites, now);
      DeltaAccounted(env, rd, before, deltas[n], previous, cites, n, now);
      AccountedTwice(s, before, MergeDelta(env, rd, before, deltas[n], previous, cites, n, now),
                     !OmitsSome(env, rd, s, deltas, previous, cites, now));
    }
  }

  // ---------------------------------------------------------------- the volatile context, exactly

  /** A delta's log explains the volatile context exactly when the delta omits no removal. */
  lemma VolatileExplainedIff(env: Env, rd: Reader, s: State, d: Delta, previous: set<Id>, cites: Cites, k: nat, now: nat)
    requires Bounded(s)
    ensures var s' := MergeDelta(env, rd, s, d, previous, cites, k, now);
            && s.log <= s'.log
            && (Explains(s, s', VolatileContext) <==> !Omits(env, rd, s, d, previous, cites, k, now))
  {
    DeltaAccounted(env, rd, s, d, previous, cites, k, now);
    if Omits(env, rd, s, d, previous, cites, k, now) {
      var text := env.lex.trim(d.content);
      var s1 := FirstHalf(env, rd, s, d, text, previous, cites, k, now);
      var s2 := BeforeRisks(rd, s1, d, text, cites, k);
      FirstHalfAccounted(env, rd, s, d, text, previous, cites, k, now);
      BeforeRisksAccounted(rd, s1, d, text, cites, k);
      AccountedTwice(s, s1, s2, true);
      OmissionShows(rd, s2, d, text, cites, k);
      NotExplained(s, s2, MergeDelta(env, rd, s, d, previous, cites, k, now));
    }
  }

  lemma NotExplained(a: State, b: State, c: State)
    requires Bounded(a) && Accounted(a, b, true) && b.log <= c.log
    requires Replay(VolatileContext, b.volatileContext, Logged(b, c)) != c.volatileContext
    ensures a.log <= c.log && !Explains(a, c, VolatileContext)
  {
    assert Logged(a, c) == Logged(a, b) + Logged(b, c);
    ReplayConcat(VolatileContext, a.volatileContext, Logged(a, b), Logged(b, c));
    assert Explains(a, b, VolatileContext);
  }

  lemma OmissionShows(rd: Reader, s: State, d: Delta, text: string, cites: Cites, k: nat)
    requires Bounded(s) && Resolves(rd, d, text) && DropsLine(rd, s, text)
    ensures var s' := RisksPart(rd, s, d, text, cites, k);
            s.log <= s'.log && Replay(VolatileContext, s.volatileContext, Logged(s, s')) != s'.volatileContext
  {
    hide ResolveRiskPhase, RiskPhase, DropsLine;
    var s1 := ResolveRiskPhase(rd, s, d, text);
    LineDropped(rd, s, d, text);
    NoVolatileRisk(rd, s1, d, text, cites, k);
    var s' := RisksPart(rd, s, d, text, cites, k);
    if s' != s1 {
      assert Logged(s, s') == Logged(s, s1) + Logged(s1, s');
      ReplayConcat(VolatileContext, s.volatileContext, Logged(s, s1), Logged(s1, s'));
    }
  }

  /** The resolution logs nothing about the volatile context but shortens it. */
  lemma LineDropped(rd: Reader, s: State, d: Delta, text: string)
    requires Bounded(s) && DropsLine(rd, s, text)
    ensures var s' := ResolveRiskPhase(rd, s, d, text);
            && s.log <= s'.log
            && Replay(VolatileContext, s.volatileContext, Logged(s, s')) == s.volatileContext
            && |s'.volatileContext| < |s.volatileContext|
  {
    var s' := ResolveRiskPhase(rd, s, d, text);
    VolatileReplays(s, s');
    var matched := WorkingNoteMatch(rd, s.risks, Resolution(rd, text), 0.35);
    var line := WorkingNoteMatch(rd, s.volatileContext, matched.value, 0.35);
    FilterAll(s.volatileContext, v => v != line.value);
  }

  lemma NoVolatileRisk(rd: Reader, s: State, d: Delta, text: string, cites: Cites, k: nat)
    ensures var s' := RiskPhase(rd, s, d, text, cites, k);
            && s.log <= s'.log
            && s'.volatileContext == s.volatileContext
            && forall v :: Replay(VolatileContext, v, Logged(s, s')) == v
  {
    var s' := RiskPhase(rd, s, d, text, cites, k);
    if s' == s {
      assert Logged(s, s') == [];
    } else {
      assert Logged(s, s') == [s'.log[|s.log|]];
      assert forall v :: Replay(VolatileContext, v, []) == v;
    }
  }

  // ---------------------------------------------------------------- the merge

  /**
   * The log of a merge, replayed over the lists it started from, gives the lists it ended with:
   * the three fact lists up to duplicates, the open questions and risks with their windows, the
   * goal, and the volatile context unless some delta took a line from it unlogged.
   */
  lemma LogReplays(env: Env, rd: Reader, prev: State, doc: Option<DocumentGoal>, deltas: seq<Delta>, cites: Cites, events: seq<RoutedEvent>, ids: seq<Id>, now: nat)
    requires |events| == |ids|
    ensures var start := Load(prev); var end := Merge(env, rd, prev, doc, deltas, cites, events, ids, now);
            && end.decisions == Dedupe(Replay(Decisions, start.decisions, end.log))
            && end.constraints == Dedupe(Replay(Constraints, start.constraints, end.log))
            && end.todos == Dedupe(Replay(Todos, start.todos, end.log))
            && end.openQuestions == Replay(OpenQuestions, start.openQuestions, end.log)
            && end.risks == Replay(Risks, start.risks, end.log)
            && [end.goal] == Replay(Goal, [start.goal], end.log)
            && (!OmitsSome(env, rd, DocumentPhase(rd, env.lex, start, doc), deltas, Ids(start.ledger.registry), cites, now)
                ==> end.volatileContext == LastN(Dedupe(Replay(VolatileContext, start.volatileContext, end.log)), WINDOW))
  {
    var start := Load(prev);
    var s := DocumentPhase(rd, env.lex, start, doc);
    var previous := Ids(start.ledger.registry);
    var end := MergeDeltas(env, rd, s, deltas, previous, cites, now);
    var all := !OmitsSome(env, rd, s, deltas, previous, cites, now);
    StreamAccounted(env, rd, start, doc, deltas, previous, cites, now);
    Read(start, end, all);
  }

  lemma StreamAccounted(env: Env, rd: Reader, start: State, doc: Option<DocumentGoal>, deltas: seq<Delta>, previous: set<Id>, cites: Cites, now: nat)
    ensures var s := DocumentPhase(rd, env.lex, start, doc);
            Accounted(start, MergeDeltas(env, rd, s, deltas, previous, cites, now), !OmitsSome(env, rd, s, deltas, previous, cites, now))
  {
    var s := DocumentPhase(rd, env.lex, start, doc);
    if doc.Some? {
      GoalAccounted(rd, env.lex, start, doc.value.goal, doc.value.evidence, true, doc.value.cited);
    } else {
      AccountedNone(start, start);
    }
    DeltasAccounted(env, rd, s, deltas, previous, cites, now);
    AccountedTwice(start, s, MergeDeltas(env, rd, s, deltas, previous, cites, now), !OmitsSome(env, rd, s, deltas, previous, cites, now));
  }

  /** Reading an account of a whole run, whose log started empty. */
  lemma Read(start: State, end: State, all: bool)
    requires Bounded(start) && start.log == [] && Accounted(start, end, all)
    ensures end.decisions == Replay(Decisions, start.decisions, end.log)
    ensures end.constraints == Replay(Constraints, start.constraints, end.log)
    ensures end.todos == Replay(Todos, start.todos, end.log)
    ensures end.openQuestions == Replay(OpenQuestions, start.openQuestions, end.log)
    ensures end.risks == Replay(Risks, start.risks, end.log)
    ensures [end.goal] == Replay(Goal, [start.goal], end.log)
    ensures all ==> end.volatileContext == Replay(VolatileContext, start.volatileContext, end.log)
  {
    assert Logged(start, end) == end.log;
    assert Explains(start, end, Decisions) && Explains(start, end, Constraints) && Explains(start, end, Todos);
    assert Explains(start, end, OpenQuestions) && Explains(start, end, Risks) && Explains(start, end, Goal);
    assert all ==> Explains(start, end, VolatileContext);
  }

  // ---------------------------------------------------------------- what is reported of the log

  predicate Is(c: Change, field: Field, action: Action) {
    c.field == field && c.action == action
  }

  /** `transitionSummary` counts the whole log: an absent key is a transition that never happened. */
  lemma {:induction false} SummaryCounts(log: seq<Change>, field: Field, action: Action)
    ensures (if (field, action) in Summary(log) then Summary(log)[(field, action)] else 0) == Count(log, c => Is(c, field, action))
    ensures (field, action) in Summary(log) <==> exists c :: c in log && Is(c, field, action)
  {
    if log != [] {
      var n := |log| - 1;
      assert log == log[..n] + [log[n]];
      SummaryCounts(log[..n], field, action);
    }
  }

  // ---------------------------------------------------------------- what no stream can do

  predicate IsRemoval(c: Change) {
    c.field == Decisions && c.action == Remove
  }

  /** Between two states of a run no protected decision was removed and a goal that was set stands. */
  ghost predicate Guards(lex: Lexicon, previous: set<Id>, s: State, s': State) {
    && s.log <= s'.log && s.ledger.registry <= s'.ledger.registry && s.ledger.profile == s'.ledger.profile
    && (lex.trim(s.goal) != "" ==> s'.goal == s.goal)
    && (forall x :: x in s.decisions && ProtectedDecision(lex, s.ledger.registry, previous, x) ==> x in s'.decisions)
    && (forall i :: |s.log| <= i < |s'.log| && IsRemoval(s'.log[i]) ==> !ProtectedDecision(lex, s.ledger.registry, previous, s'.log[i].value))
  }

  lemma ProtectionStays(lex: Lexicon, r: seq<Entry>, r': seq<Entry>, previous: set<Id>, x: string)
    requires r <= r' && ProtectedDecision(lex, r, previous, x)
    ensures ProtectedDecision(lex, r', previous, x)
  {
    var e :| e in r && e.id in previous && e.supersededBy.None? && lex.sameFact(e.content, x);
    assert e in r';
  }

  lemma GuardsTwice(lex: Lexicon, previous: set<Id>, a: State, b: State, c: State)
    requires Guards(lex, previous, a, b) && Guards(lex, previous, b, c)
    ensures Guards(lex, previous, a, c)
  {
    forall x | ProtectedDecision(lex, a.ledger.registry, previous, x)
      ensures ProtectedDecision(lex, b.ledger.registry, previous, x)
    {
      ProtectionStays(lex, a.ledger.registry, b.ledger.registry, previous, x);
    }
    forall i | |a.log| <= i < |b.log| ensures c.log[i] == b.log[i] {
    }
  }

  /** A step that leaves goal, decisions and registry alone and logs no removal of a decision. */
  predicate Quiet(s: State, s': State) {
    && s.log <= s'.log && s'.ledger == s.ledger && s'.goal == s.goal && s'.decisions == s.decisions
    && forall i :: |s.log| <= i < |s'.log| ==> !IsRemoval(s'.log[i])
  }

  lemma {:induction false} RemovalsGuard(lex: Lexicon, s: State, previous: set<Id>, decisions: seq<string>, evidence: Id)
    ensures Guards(lex, previous, s, RemoveDecisions(lex, s, previous, decisions, evidence))
    ensures RemoveDecisions(lex, s, previous, decisions, evidence).ledger == s.ledger
  {
    if decisions != [] {
      var n := |decisions| - 1;
      var before := RemoveDecisions(lex, s, previous, decisions[..n], evidence);
      RemovalsGuard(lex, s, previous, decisions[..n], evidence);
      GuardsTwice(lex, previous, s, before, RemoveDecision(lex, before, previous, decisions[n], evidence));
    }
  }

  lemma PromotionGuards(env: Env, s: State, content: string, kind: Kind, d: Delta, previous: set<Id>, now: nat)
    ensures Guards(env.lex, previous, s, PromoteIn(env, s, content, kind, d, now))
  {
  }

  lemma DecideGuards(env: Env, s: State, existing: Option<string>, d: Delta, text: string, previous: set<Id>, cites: Cites, k: nat, now: nat)
    ensures Guards(env.lex, previous, s, Decide(env, s, existing, d, text, cites, k, now))
  {
    var added := Record(s.(decisions := s.decisions + [text]), Decisions, Add, text, d.eventId);
    assert Guards(env.lex, previous, s, added);
    PromotionGuards(env, added, text, Decision, d, previous, now);
    GuardsTwice(env.lex, previous, s, added, PromoteIn(env, added, text, Decision, d, now));
  }

  lemma DecidePhaseGuards(env: Env, rd: Reader, s: State, d: Delta, text: string, previous: set<Id>, cites: Cites, k: nat, now: nat)
    ensures Guards(env.lex, previous, s, DecidePhase(env, rd, s, d, text, previous, cites, k, now))
  {
    if !rd.revokes(text) && FactSized(env.lex, text) {
      var conflicts := Conflicting(rd, s.decisions, text);
      var s1 := RemoveDecisions(env.lex, s, previous, conflicts, d.eventId);
      var existing := DecisionMatch(rd, s1.decisions, text, 0.8);
      RemovalsGuard(env.lex, s, previous, conflicts, d.eventId);
      DecideGuards(env, s1, existing, d, text, previous, cites, k, now);
      GuardsTwice(env.lex, previous, s, s1, Decide(env, s1, existing, d, text, cites, k, now));
    }
  }

  lemma ConstraintGuards(env: Env, rd: Reader, s: State, d: Delta, text: string, previous: set<Id>, cites: Cites, k: nat, now: nat)
    ensures Guards(env.lex, previous, s, ConstraintPhase(env, rd, s, d, text, cites, k, now))
  {
    var constraint := rd.constraintText(text);
    var s1 := Record(s.(constraints := s.constraints + [constraint]), Constraints, Add, constraint, d.eventId);
    assert Quiet(s, s1);
    PromotionGuards(env, s1, constraint, Constraint, d, previous, now);
    GuardsTwice(env.lex, previous, s, s1, PromoteIn(env, s1, constraint, Constraint, d, now));
  }

  lemma CloseQuiet(s: State, matched: Option<string>, d: Delta)
    ensures Quiet(s, CloseTodo(s, matched, d))
  {
  }

  lemma OpenQuiet(s: State, existing: Option<string>, d: Delta, text: string, cites: Cites, k: nat)
    ensures Quiet(s, OpenTodo(s, existing, d, text, cites, k))
  {
  }

  lemma TodoQuiet(rd: Reader, s: State, d: Delta, text: string, cites: Cites, k: nat)
    ensures Quiet(s, TodoPhase(rd, s, d, text, cites, k))
  {
    CloseQuiet(s, TodoMatch(rd, s.todos, rd.stripTodoRemoval(text), 0.45), d);
    OpenQuiet(s, TodoMatch(rd, s.todos, text, 0.8), d, text, cites, k);
  }

  lemma GoalGuards(rd: Reader, lex: Lexicon, s: State, d: Delta, text: string, previous: set<Id>, cites: Cites, k: nat)
    ensures Guards(lex, previous, s, GoalPhase(rd, lex, s, d, text, cites, k))
  {
  }

  lemma QuestionResolutionQuiet(rd: Reader, s: State, d: Delta, text: string)
    ensures Quiet(s, ResolveQuestionPhase(rd, s, d, text))
  {
    hide WorkingNoteMatch, Without, NoteKey, LastN;
  }

  lemma QuietGuards(lex: Lexicon, previous: set<Id>, s: State, s': State)
    requires Quiet(s, s')
    ensures Guards(lex, previous, s, s')
  {
  }

  lemma FirstHalfGuards(env: Env, rd: Reader, s: State, d: Delta, text: string, previous: set<Id>, cites: Cites, k: nat, now: nat)
    ensures Guards(env.lex, previous, s, FirstHalf(env, rd, s, d, text, previous, cites, k, now))
  {
    hide GoalPhase, DecidePhase, ResolveQuestionPhase, ConstraintPhase, TodoPhase, Guards, Quiet;
    var s1 := GoalPhase(rd, env.lex, s, d, text, cites, k);
    GoalGuards(rd, env.lex, s, d, text, previous, cites, k);
    match d.kind
    case DecisionEvent =>
      var s2 := DecidePhase(env, rd, s1, d, text, previous, cites, k, now);
      DecidePhaseGuards(env, rd, s1, d, text, previous, cites, k, now);
      GuardsTwice(env.lex, previous, s, s1, s2);
      QuestionResolutionQuiet(rd, s2, d, text);
      QuietGuards(env.lex, previous, s2, ResolveQuestionPhase(rd, s2, d, text));
      GuardsTwice(env.lex, previous, s, s2, ResolveQuestionPhase(rd, s2, d, text));
    case ConstraintEvent =>
      ConstraintGuards(env, rd, s1, d, text, previous, cites, k, now);
      GuardsTwice(env.lex, previous, s, s1, ConstraintPhase(env, rd, s1, d, text, cites, k, now));
    case TodoEvent =>
      TodoQuiet(rd, s1, d, text, cites, k);
      QuietGuards(env.lex, previous, s1, TodoPhase(rd, s1, d, text, cites, k));
      GuardsTwice(env.lex, previous, s, s1, TodoPhase(rd, s1, d, text, cites, k));
    case _ =>
  }

  lemma BeforeRisksQuiet(rd: Reader, s: State, d: Delta, text: string, cites: Cites, k: nat)
    ensures Quiet(s, BeforeRisks(rd, s, d, text, cites, k))
  {
    hide SemanticMatch, LastN;
  }

  lemma DeltaGuards(env: Env, rd: Reader, s: State, d: Delta, previous: set<Id>, cites: Cites, k: nat, now: nat)
    ensures Guards(env.lex, previous, s, MergeDelta(env, rd, s, d, previous, cites, k, now))
  {
    hide FirstHalf, BeforeRisks, RisksPart, Guards, Quiet;
    var text := env.lex.trim(d.content);
    var s1 := FirstHalf(env, rd, s, d, text, previous, cites, k, now);
    var s2 := BeforeRisks(rd, s1, d, text, cites, k);
    FirstHalfGuards(env, rd, s, d, text, previous, cites, k, now);
    BeforeRisksQuiet(rd, s1, d, text, cites, k);
    QuietGuards(env.lex, previous, s1, s2);
    GuardsTwice(env.lex, previous, s, s1, s2);
    RisksQuiet(rd, s2, d, text, cites, k);
    QuietGuards(env.lex, previous, s2, RisksPart(rd, s2, d, text, cites, k));
    GuardsTwice(env.lex, previous, s, s2, RisksPart(rd, s2, d, text, cites, k));
  }

  lemma RiskQuiet(rd: Reader, s: State, d: Delta, text: string, cites: Cites, k: nat)
    ensures Quiet(s, RiskPhase(rd, s, d, text, cites, k))
  {
  }

  lemma RiskResolutionQuiet(rd: Reader, s: State, d: Delta, text: string)
    ensures Quiet(s, ResolveRiskPhase(rd, s, d, text))
  {
  }

  lemma RisksQuiet(rd: Reader, s: State, d: Delta, text: string, cites: Cites, k: nat)
    ensures Quiet(s, RisksPart(rd, s, d, text, cites, k))
  {
    var s1 := if Resolves(rd, d, text) then ResolveRiskPhase(rd, s, d, text) else s;
    RiskResolutionQuiet(rd, s, d, text);
    RiskQuiet(rd, s1, d, text, cites, k);
  }

  lemma {:induction false} DeltasGuard(env: Env, rd: Reader, s: State, deltas: seq<Delta>, previous: set<Id>, cites: Cites, now: nat)
    ensures Guards(env.lex, previous, s, MergeDeltas(env, rd, s, deltas, previous, cites, now))
  {
    if deltas != [] {
      var n := |deltas| - 1;
      var before := MergeDeltas(env, rd, s, deltas[..n], previous, cites, now);
      DeltasGuard(env, rd, s, deltas[..n], previous, cites, now);
      DeltaGuards(env, rd, before, deltas[n], previous, cites, n, now);
      GuardsTwice(env.lex, previous, s, before, MergeDelta(env, rd, before, deltas[n], previous, cites, n, now));
    }
  }

  /**
   * A decision the run started with that an unsuperseded entry of the loaded registry states is in
   * the result, whatever the stream said, and its removal is never logged; a goal that was set
   * when the stream began is the goal of the result.
   */
  lemma ProtectedBeliefsSurvive(env: Env, rd: Reader, prev: State, doc: Option<DocumentGoal>, deltas: seq<Delta>, cites: Cites, events: seq<RoutedEvent>, ids: seq<Id>, now: nat, decision: string)
    requires |events| == |ids|
    ensures var start := DocumentPhase(rd, env.lex, Load(prev), doc);
            var end := Merge(env, rd, prev, doc, deltas, cites, events, ids, now);
            var stated := ProtectedDecision(env.lex, start.ledger.registry, Ids(start.ledger.registry), decision);
            && start.log <= end.log
            && (stated && decision in start.decisions ==> decision in end.decisions)
            && (stated ==> forall c :: c in end.log[|start.log|..] && IsRemoval(c) ==> c.value != decision)
            && (env.lex.trim(start.goal) != "" ==> end.goal == start.goal)
  {
    hide MergeDeltas, RouteEvents, Normalize, LastN, Dedupe, ProtectedDecision, IsRemoval;
    var start := DocumentPhase(rd, env.lex, Load(prev), doc);
    assert start.ledger == Load(prev).ledger;
    var previous := Ids(start.ledger.registry);
    DeltasGuard(env, rd, start, deltas, previous, cites, now);
    DedupeKeeps(MergeDeltas(env, rd, start, deltas, previous, cites, now).decisions);
  }

  // ---------------------------------------------------------------- what a delta may touch

  /** A delta touches only what its kind and its words entitle it to. */
  predicate Entitled(rd: Reader, s: State, s': State, d: Delta, text: string) {
    && (s'.goal != s.goal ==> rd.goalOf(text).Some? && d.kind != NoiseEvent)
    && (s'.decisions != s.decisions ==> d.kind == DecisionEvent)
    && (s'.constraints != s.constraints ==> d.kind == ConstraintEvent && d.importance >= 0.75)
    && (s'.todos != s.todos ==> d.kind == TodoEvent)
    && (s'.openQuestions != s.openQuestions ==> d.kind == QuestionEvent || d.kind == DecisionEvent)
    && (s'.volatileContext != s.volatileContext ==> IsVolatile(rd, d, text) || Resolves(rd, d, text))
    && (s'.risks != s.risks ==> Resolves(rd, d, text) || rd.mentionsRisk(text))
    && (s'.ledger != s.ledger ==> d.kind == DecisionEvent || d.kind == ConstraintEvent)
  }

  lemma EntitledTwice(rd: Reader, a: State, b: State, c: State, d: Delta, text: string)
    requires Entitled(rd, a, b, d, text) && Entitled(rd, b, c, d, text)
    ensures Entitled(rd, a, c, d, text)
  {
  }

  lemma DecideEntitled(env: Env, rd: Reader, s: State, d: Delta, text: string, previous: set<Id>, cites: Cites, k: nat, now: nat)
    requires d.kind == DecisionEvent
    ensures Entitled(rd, s, DecidePhase(env, rd, s, d, text, previous, cites, k, now), d, text)
  {
    hide DecisionMatch, Conflicting, Without, Promote;
    RemovalsOnlyDecisions(env.lex, s, previous, Conflicting(rd, s.decisions, text), d.eventId);
  }

  lemma OthersEntitled(env: Env, rd: Reader, s: State, d: Delta, text: string, cites: Cites, k: nat, now: nat)
    ensures Entitled(rd, s, GoalPhase(rd, env.lex, s, d, text, cites, k), d, text)
    ensures d.kind == DecisionEvent ==> Entitled(rd, s, ResolveQuestionPhase(rd, s, d, text), d, text)
    ensures d.kind == ConstraintEvent && d.importance >= 0.75 ==> Entitled(rd, s, ConstraintPhase(env, rd, s, d, text, cites, k, now), d, text)
    ensures d.kind == TodoEvent ==> Entitled(rd, s, TodoPhase(rd, s, d, text, cites, k), d, text)
  {
    hide GoalPhase, ResolveQuestionPhase, ConstraintPhase, TodoPhase, Entitled;
    GoalEntitled(rd, env.lex, s, d, text, cites, k);
    if d.kind == DecisionEvent { QuestionEntitled(rd, s, d, text); }
    if d.kind == ConstraintEvent && d.importance >= 0.75 { ConstraintEntitled(env, rd, s, d, text, cites, k, now); }
    if d.kind == TodoEvent { TodoEntitled(rd, s, d, text, cites, k); }
  }

  lemma GoalEntitled(rd: Reader, lex: Lexicon, s: State, d: Delta, text: string, cites: Cites, k: nat)
    ensures Entitled(rd, s, GoalPhase(rd, lex, s, d, text, cites, k), d, text)
  {
  }

  lemma QuestionEntitled(rd: Reader, s: State, d: Delta, text: string)
    requires d.kind == DecisionEvent
    ensures Entitled(rd, s, ResolveQuestionPhase(rd, s, d, text), d, text)
  {
    hide WorkingNoteMatch, Without, NoteKey, LastN;
  }

  lemma ConstraintEntitled(env: Env, rd: Reader, s: State, d: Delta, text: string, cites: Cites, k: nat, now: nat)
    requires d.kind == ConstraintEvent && d.importance >= 0.75
    ensures Entitled(rd, s, ConstraintPhase(env, rd, s, d, text, cites, k, now), d, text)
  {
    hide SemanticMatch, Promote;
  }

  lemma TodoEntitled(rd: Reader, s: State, d: Delta, text: string, cites: Cites, k: nat)
    requires d.kind == TodoEvent
    ensures Entitled(rd, s, TodoPhase(rd, s, d, text, cites, k), d, text)
  {
    hide TodoMatch, Without;
  }

  lemma FirstHalfEntitled(env: Env, rd: Reader, s: State, d: Delta, text: string, previous: set<Id>, cites: Cites, k: nat, now: nat)
    ensures Entitled(rd, s, FirstHalf(env, rd, s, d, text, previous, cites, k, now), d, text)
  {
    hide GoalPhase, DecidePhase, ResolveQuestionPhase, ConstraintPhase, TodoPhase, Entitled;
    var s1 := GoalPhase(rd, env.lex, s, d, text, cites, k);
    OthersEntitled(env, rd, s, d, text, cites, k, now);
    OthersEntitled(env, rd, s1, d, text, cites, k, now);
    match d.kind
    case DecisionEvent =>
      var s2 := DecidePhase(env, rd, s1, d, text, previous, cites, k, now);
      DecideEntitled(env, rd, s1, d, text, previous, cites, k, now);
      OthersEntitled(env, rd, s2, d, text, cites, k, now);
      EntitledTwice(rd, s, s1, s2, d, text);
      EntitledTwice(rd, s, s2, ResolveQuestionPhase(rd, s2, d, text), d, text);
    case ConstraintEvent =>
      if d.importance >= 0.75 { EntitledTwice(rd, s, s1, ConstraintPhase(env, rd, s1, d, text, cites, k, now), d, text); }
    case TodoEvent =>
      EntitledTwice(rd, s, s1, TodoPhase(rd, s1, d, text, cites, k), d, text);
    case _ =>
  }

  lemma {:induction false} RemovalsOnlyDecisions(lex: Lexicon, s: State, previous: set<Id>, decisions: seq<string>, evidence: Id)
    ensures var s' := RemoveDecisions(lex, s, previous, decisions, evidence);
            s' == s.(decisions := s'.decisions, log := s'.log)
  {
    if decisions != [] {
      RemovalsOnlyDecisions(lex, s, previous, decisions[..|decisions| - 1], evidence);
    }
  }

  lemma BeforeRisksEntitled(rd: Reader, s: State, d: Delta, text: string, cites: Cites, k: nat)
    ensures Entitled(rd, s, BeforeRisks(rd, s, d, text, cites, k), d, text)
  {
    hide SemanticMatch, Without, NoteKey;
  }

  lemma RisksEntitled(rd: Reader, s: State, d: Delta, text: string, cites: Cites, k: nat)
    ensures Entitled(rd, s, RisksPart(rd, s, d, text, cites, k), d, text)
  {
    hide SemanticMatch, WorkingNoteMatch, Without, NoteKey;
  }

  lemma RestEntitled(rd: Reader, s: State, d: Delta, text: string, cites: Cites, k: nat)
    ensures Entitled(rd, s, RisksPart(rd, BeforeRisks(rd, s, d, text, cites, k), d, text, cites, k), d, text)
  {
    hide Entitled, BeforeRisks, RisksPart;
    var s1 := BeforeRisks(rd, s, d, text, cites, k);
    BeforeRisksEntitled(rd, s, d, text, cites, k);
    RisksEntitled(rd, s1, d, text, cites, k);
    EntitledTwice(rd, s, s1, RisksPart(rd, s1, d, text, cites, k), d, text);
  }

  lemma DeltaTouchesItsKind(env: Env, rd: Reader, s: State, d: Delta, previous: set<Id>, cites: Cites, k: nat, now: nat)
    ensures Entitled(rd, s, MergeDelta(env, rd, s, d, previous, cites, k, now), d, env.lex.trim(d.content))
  {
    hide Entitled, FirstHalf, BeforeRisks, RisksPart;
    var text := env.lex.trim(d.content);
    var s1 := FirstHalf(env, rd, s, d, text, previous, cites, k, now);
    FirstHalfEntitled(env, rd, s, d, text, previous, cites, k, now);
    RestEntitled(rd, s1, d, text, cites, k);
    EntitledTwice(rd, s, s1, RisksPart(rd, BeforeRisks(rd, s1, d, text, cites, k), d, text, cites, k), d, text);
  }

  // ---------------------------------------------------------------- the merge as digest work

  lemma {:induction false} PerformMore(env: Env, keys: set<Key>, s: Ledger, a: seq<Work>, b: seq<Work>)
    ensures PerformAll(env, keys, s, a + b) == PerformAll(env, keys, PerformAll(env, keys, s, a), b)
  {
    if b == [] {
      assert a + b == a;
    } else {
      assert (a + b)[..|a + b| - 1] == a + b[..|b| - 1];
      PerformMore(env, keys, s, a, b[..|b| - 1]);
    }
  }

  lemma DeltaWork(env: Env, rd: Reader, s: State, d: Delta, previous: set<Id>, cites: Cites, k: nat, now: nat, keys: set<Key>) returns (works: seq<Work>)
    ensures PerformAll(env, keys, s.ledger, works) == MergeDelta(env, rd, s, d, previous, cites, k, now).ledger
    ensures forall w :: w in works ==> w.Promoted? && w.id == d.newId
  {
    var text := env.lex.trim(d.content);
    var s1 := FirstHalf(env, rd, s, d, text, previous, cites, k, now);
    var s2 := BeforeRisks(rd, s1, d, text, cites, k);
    BeforeRisksQuiet(rd, s1, d, text, cites, k);
    RisksQuiet(rd, s2, d, text, cites, k);
    var promoted := (content, kind) => Promoted(content, kind, d.importance, Evidence(d.eventId, EventSource), d.newId, now);
    var constraint := rd.constraintText(text);
    works := [];
    if s1.ledger != s.ledger {
      FirstHalfLedger(env, rd, s, d, text, previous, cites, k, now);
      works := if d.kind == DecisionEvent then [promoted(text, Decision)] else [promoted(constraint, Constraint)];
      assert works[..|works| - 1] == [];
    }
  }

  lemma DecideLedger(env: Env, rd: Reader, s: State, d: Delta, text: string, previous: set<Id>, cites: Cites, k: nat, now: nat)
    ensures var s' := DecidePhase(env, rd, s, d, text, previous, cites, k, now);
            s'.ledger == s.ledger || s'.ledger == PromoteIn(env, s, text, Decision, d, now).ledger
  {
    hide RemoveDecisions, Decide, Revoke, Conflicting, DecisionMatch, PromoteIn, FactSized;
    var s1 := RemoveDecisions(env.lex, s, previous, Conflicting(rd, s.decisions, text), d.eventId);
    if rd.revokes(text) {
      RevokeLedger(env.lex, s, DecisionMatch(rd, s.decisions, rd.stripRevocation(text), 0.45), previous, d);
    } else if FactSized(env.lex, text) {
      RemovalsGuard(env.lex, s, previous, Conflicting(rd, s.decisions, text), d.eventId);
      DecidedLedger(env, s1, DecisionMatch(rd, s1.decisions, text, 0.8), d, text, cites, k, now);
      PromotedLedger(env, s, s1, text, Decision, d, now);
    }
  }

  lemma RevokeLedger(lex: Lexicon, s: State, matched: Option<string>, previous: set<Id>, d: Delta)
    ensures Revoke(lex, s, matched, previous, d).ledger == s.ledger
  {
  }

  lemma DecidedLedger(env: Env, s: State, existing: Option<string>, d: Delta, text: string, cites: Cites, k: nat, now: nat)
    ensures var s' := Decide(env, s, existing, d, text, cites, k, now);
            s'.ledger == s.ledger || s'.ledger == PromoteIn(env, s, text, Decision, d, now).ledger
  {
    hide Promote;
  }

  /** What a promotion does depends on the ledger alone. */
  lemma PromotedLedger(env: Env, s: State, s': State, content: string, kind: Kind, d: Delta, now: nat)
    requires s.ledger == s'.ledger
    ensures PromoteIn(env, s, content, kind, d, now).ledger == PromoteIn(env, s', content, kind, d, now).ledger
  {
  }

  lemma FirstHalfLedger(env: Env, rd: Reader, s: State, d: Delta, text: string, previous: set<Id>, cites: Cites, k: nat, now: nat)
    ensures var s' := FirstHalf(env, rd, s, d, text, previous, cites, k, now);
            || s'.ledger == s.ledger
            || (d.kind == DecisionEvent && s'.ledger == PromoteIn(env, s, text, Decision, d, now).ledger)
            || (d.kind == ConstraintEvent && s'.ledger == PromoteIn(env, s, rd.constraintText(text), Constraint, d, now).ledger)
  {
    var s1 := GoalPhase(rd, env.lex, s, d, text, cites, k);
    assert s1.ledger == s.ledger;
    match d.kind
    case DecisionEvent =>
      DecideLedger(env, rd, s1, d, text, previous, cites, k, now);
    case TodoEvent =>
      TodoQuiet(rd, s1, d, text, cites, k);
    case _ =>
  }

  function DrawnBy(deltas: seq<Delta>): set<Id> {
    set d | d in deltas :: d.newId
  }

  lemma {:induction false} DeltasWork(env: Env, rd: Reader, s: State, deltas: seq<Delta>, previous: set<Id>, cites: Cites, now: nat, keys: set<Key>) returns (works: seq<Work>)
    ensures PerformAll(env, keys, s.ledger, works) == MergeDeltas(env, rd, s, deltas, previous, cites, now).ledger
    ensures forall w :: w in works ==> w.Promoted? && w.id in DrawnBy(deltas)
  {
    works := [];
    if deltas != [] {
      var n := |deltas| - 1;
      works := DeltasWork(env, rd, s, deltas[..n], previous, cites, now, keys);
      var more := DeltaWork(env, rd, MergeDeltas(env, rd, s, deltas[..n], previous, cites, now), deltas[n], previous, cites, n, now, keys);
      PerformMore(env, keys, s.ledger, works, more);
      works := works + more;
    }
  }

  lemma {:induction false} EventsWork(env: Env, s: Ledger, events: seq<RoutedEvent>, previous: set<Id>, ids: seq<Id>, now: nat, keys: set<Key>) returns (works: seq<Work>)
    requires |events| == |ids|
    ensures PerformAll(env, keys, s, works) == RouteEvents(env, s, events, previous, ids, now).state
    ensures forall w :: w in works ==> w.Routed? && w.id in ids
  {
    works := [];
    if events != [] {
      var n := |events| - 1;
      works := EventsWork(env, s, events[..n], previous, ids[..n], now, keys);
      var more := [Routed(events[n], previous, ids[n], now)];
      assert more[..|more| - 1] == [];
      PerformMore(env, keys, s, works, more);
      works := works + more;
    }
  }

  /**
   * On the ledger a merge does what some list of promotions and routed events does, so every
   * theorem about digest work covers it.
   */
  lemma MergeIsWork(env: Env, rd: Reader, prev: State, doc: Option<DocumentGoal>, deltas: seq<Delta>, cites: Cites, events: seq<RoutedEvent>, ids: seq<Id>, now: nat, keys: set<Key>) returns (works: seq<Work>)
    requires |events| == |ids|
    ensures PerformAll(env, keys, NormalizeLedger(prev.ledger), works) == Merge(env, rd, prev, doc, deltas, cites, events, ids, now).ledger
    ensures forall w :: w in works ==> (w.Promoted? && w.id in DrawnBy(deltas)) || (w.Routed? && w.id in ids)
  {
    var start := DocumentPhase(rd, env.lex, Load(prev), doc);
    var previous := Ids(start.ledger.registry);
    var promoted := DeltasWork(env, rd, start, deltas, previous, cites, now, keys);
    var routed := EventsWork(env, MergeDeltas(env, rd, start, deltas, previous, cites, now).ledger, events, previous, ids, now, keys);
    works := promoted + routed;
    PerformMore(env, keys, start.ledger, promoted, routed);
    MergedLedger(env, rd, prev, doc, deltas, cites, events, ids, now);
  }

  lemma MergedLedger(env: Env, rd: Reader, prev: State, doc: Option<DocumentGoal>, deltas: seq<Delta>, cites: Cites, events: seq<RoutedEvent>, ids: seq<Id>, now: nat)
    requires |events| == |ids|
    ensures var start := DocumentPhase(rd, env.lex, Load(prev), doc);
            var previous := Ids(start.ledger.registry);
            && start.ledger == NormalizeLedger(prev.ledger)
            && Merge(env, rd, prev, doc, deltas, cites, events, ids, now).ledger
               == RouteEvents(env, MergeDeltas(env, rd, start, deltas, previous, cites, now).ledger, events, previous, ids, now).state
  {
    hide MergeDeltas, RouteEvents, Normalize, LastN, Dedupe;
  }

  // ---------------------------------------------------------------- an omission

  const BLOCKED := "api blocked"
  const FIXED := "fixed: api blocked"
  const AFFECTED := State("", [], [], [], [BLOCKED], [], [BLOCKED], Ledger([], map[]), [], {}, {})
  const FIX := Delta("e1", FIXED, NoteEvent, 0.5, "f1")

  /**
   * How the two texts read: the prefix goes and nothing else does, the report resolves something and
   * states no goal, a text is the same as itself, and two words out of three are less than 0.7 alike.
   */
  predicate ReadsTexts(env: Env, rd: Reader) {
    && env.lex.trim(FIXED) == FIXED
    && rd.goalOf(FIXED).None? && rd.resolves(FIXED)
    && rd.stripResolution(FIXED) == BLOCKED && rd.stripResolution(BLOCKED) == BLOCKED
    && rd.same(BLOCKED, BLOCKED, 0.35) && !rd.same(BLOCKED, FIXED, 0.7)
  }

  /** The report is taken in as a line of its own, since the old line is not alike enough. */
  lemma ReportIsTakenIn(env: Env, rd: Reader, cites: Cites)
    requires ReadsTexts(env, rd)
    ensures FirstHalf(env, rd, AFFECTED, FIX, FIXED, {}, cites, 0, 0) == AFFECTED
    ensures BeforeRisks(rd, AFFECTED, FIX, FIXED, cites, 0).volatileContext == [BLOCKED, FIXED]
    ensures BeforeRisks(rd, AFFECTED, FIX, FIXED, cites, 0).risks == [BLOCKED]
  {
    assert SemanticMatch(rd, [BLOCKED], FIXED, 0.7) == None;
    assert [BLOCKED] + [FIXED] == [BLOCKED, FIXED];
  }

  /** Both lines read the same without the prefix, and the older one is matched. */
  lemma OldLineIsMatched(rd: Reader)
    requires rd.stripResolution(FIXED) == BLOCKED && rd.stripResolution(BLOCKED) == BLOCKED && rd.same(BLOCKED, BLOCKED, 0.35)
    ensures WorkingNoteMatch(rd, [BLOCKED], Resolution(rd, FIXED), 0.35) == Some(BLOCKED)
    ensures WorkingNoteMatch(rd, [BLOCKED, FIXED], BLOCKED, 0.35) == Some(BLOCKED)
  {
    var texts := Mapped([BLOCKED, FIXED], rd.stripResolution);
    assert texts[0] == BLOCKED && texts[1] == BLOCKED;
    assert BestIndex(rd, [BLOCKED, FIXED], texts, BLOCKED) == 0;
    assert Mapped([BLOCKED], rd.stripResolution)[0] == BLOCKED;
  }

  /** The report that the blocked API is fixed takes the line about it from the volatile context and does not log that. */
  lemma OmissionHappens(env: Env, rd: Reader, cites: Cites, now: nat)
    requires ReadsTexts(env, rd)
    ensures Omits(env, rd, AFFECTED, FIX, {}, cites, 0, now)
    ensures AFFECTED.log <= MergeDelta(env, rd, AFFECTED, FIX, {}, cites, 0, now).log
    ensures !Explains(AFFECTED, MergeDelta(env, rd, AFFECTED, FIX, {}, cites, 0, now), VolatileContext)
  {
    hide WorkingNoteMatch, Resolution, BeforeRisks;
    ReportIsTakenIn(env, rd, cites);
    OldLineIsMatched(rd);
    VolatileExplainedIff(env, rd, AFFECTED, FIX, {}, cites, 0, now);
  }
}
