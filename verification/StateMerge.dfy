/**
 * The deterministic merge of event deltas into the protected state (`protectedStateMerge`,
 * packages/core/src/digest/merge.ts), over the lists and the change log it keeps.
 */
module StateMerge {
  import opened Options
  import opened Seqs
  import opened FactRegistry
  import opened RegistryLaws
  import opened RegistryHistory
  import opened DigestFacts
  import opened DigestWork

  datatype EventKind = DecisionEvent | ConstraintEvent | TodoEvent | NoteEvent | StatusEvent | QuestionEvent | NoiseEvent

  /** One delta, in the order the merge visits them; `newId` is the id a promotion would draw. */
  datatype Delta = Delta(eventId: Id, content: string, kind: EventKind, importance: real, newId: Id)

  datatype Field = Goal | Constraints | Decisions | Todos | VolatileContext | OpenQuestions | Risks
  datatype Action = Set | Add | Remove | Reaffirm
  datatype Change = Change(field: Field, action: Action, value: string, evidence: Id)

  /** What the merge reads off a text: prefixes, patterns and similarities. */
  datatype Reader = Reader(
    normalize: string -> string,
    goalOf: string -> Option<string>,
    revokes: string -> bool,
    closesTodo: string -> bool,
    resolves: string -> bool,
    mentionsRisk: string -> bool,
    stripRevocation: string -> string,
    stripTodoRemoval: string -> string,
    stripResolution: string -> string,
    constraintText: string -> string,
    todoText: string -> string,
    comparable: (string, string) -> bool,
    conflicts: (string, string) -> bool,
    score: (string, string) -> real,
    same: (string, string, real) -> bool,
    sameGoal: (string, string, bool) -> bool,
    relatedGoal: (string, string) -> bool)

  /**
   * The state being merged. `log` is every change recorded so far; the source keeps its last 25
   * entries and a count per field and action.
   */
  datatype State = State(
    goal: string,
    constraints: seq<string>,
    decisions: seq<string>,
    todos: seq<string>,
    volatileContext: seq<string>,
    openQuestions: seq<string>,
    risks: seq<string>,
    ledger: Ledger,
    log: seq<Change>,
    resolvedQuestions: set<string>,
    resolvedRisks: set<string>)

  const WINDOW := 10
  const RECENT_LIMIT := 25
  const LIST_LIMIT := 100

  /** `carries(k, field, value)`: whether the provenance of a value already cites delta k's event. */
  type Cites = (nat, Field, string) -> bool

  function Record(s: State, field: Field, action: Action, value: string, evidence: Id): State {
    s.(log := s.log + [Change(field, action, value, evidence)])
  }

  // ---------------------------------------------------------------- matching

  /** The first index with the highest score. */
  function BestIndex(rd: Reader, values: seq<string>, texts: seq<string>, candidate: string): (i: nat)
    requires values != [] && |texts| == |values|
    ensures i < |values|
    ensures forall j :: 0 <= j < |values| ==> rd.score(texts[j], candidate) <= rd.score(texts[i], candidate)
    ensures forall j :: 0 <= j < i ==> rd.score(texts[j], candidate) < rd.score(texts[i], candidate)
  {
    var n := |values| - 1;
    if n == 0 then 0
    else
      var i := BestIndex(rd, values[..n], texts[..n], candidate);
      if rd.score(texts[n], candidate) > rd.score(texts[i], candidate) then n else i
  }

  /** A match that is the empty string reads as no match. */
  function Match(rd: Reader, values: seq<string>, texts: seq<string>, candidate: string, threshold: real): (m: Option<string>)
    requires |texts| == |values|
    ensures m.Some? ==> m.value in values && m.value != ""
  {
    if values == [] then None
    else
      var i := BestIndex(rd, values, texts, candidate);
      if rd.same(texts[i], candidate, threshold) && values[i] != "" then Some(values[i]) else None
  }

  function SemanticMatch(rd: Reader, values: seq<string>, candidate: string, threshold: real): (m: Option<string>)
    ensures m.Some? ==> m.value in values && m.value != ""
  {
    Match(rd, values, values, candidate, threshold)
  }

  function DecisionMatch(rd: Reader, values: seq<string>, candidate: string, threshold: real): (m: Option<string>)
    ensures m.Some? ==> m.value in values && m.value != ""
  {
    SemanticMatch(rd, Filter(values, v => rd.comparable(v, candidate)), candidate, threshold)
  }

  function Mapped(values: seq<string>, f: string -> string): (r: seq<string>)
    ensures |r| == |values| && forall i :: 0 <= i < |values| ==> r[i] == f(values[i])
  {
    seq(|values|, i requires 0 <= i < |values| => f(values[i]))
  }

  function TodoMatch(rd: Reader, values: seq<string>, candidate: string, threshold: real): (m: Option<string>)
    ensures m.Some? ==> m.value in values && m.value != ""
  {
    var text := rd.todoText(candidate);
    var texts := Mapped(Filter(values, v => rd.comparable(rd.todoText(v), text)), rd.todoText);
    var best := SemanticMatch(rd, texts, text, threshold);
    if best.None? then None
    else
      var i := First(values, v => rd.normalize(rd.todoText(v)) == rd.normalize(best.value));
      if i < |values| && values[i] != "" then Some(values[i]) else None
  }

  function WorkingNoteMatch(rd: Reader, values: seq<string>, candidate: string, threshold: real): (m: Option<string>)
    ensures m.Some? ==> m.value in values && m.value != ""
  {
    Match(rd, values, Mapped(values, rd.stripResolution), rd.stripResolution(candidate), threshold)
  }

  /** The text without its resolution prefix, unless nothing else is left. */
  function Resolution(rd: Reader, text: string): string {
    if rd.stripResolution(text) != "" then rd.stripResolution(text) else text
  }

  function NoteKey(rd: Reader, text: string): string {
    rd.normalize(Resolution(rd, text))
  }

  function Without(values: seq<string>, value: string): seq<string> {
    Filter(values, v => v != value)
  }

  // ---------------------------------------------------------------- the phases of one delta

  /** `mergeGoalUpdate`. */
  function MergeGoal(rd: Reader, lex: Lexicon, s: State, goal: string, evidence: Id, isDocument: bool, cited: bool): State {
    var previous := lex.trim(s.goal);
    if previous == "" then Record(s.(goal := goal), Goal, Set, goal, evidence)
    else if rd.sameGoal(previous, goal, isDocument) then
      if cited then s else Record(s, Goal, Reaffirm, previous, evidence)
    else if !isDocument then
      if rd.relatedGoal(previous, goal) then Record(s, Goal, Reaffirm, previous, evidence) else s
    else Record(Record(s, Goal, Remove, previous, evidence).(goal := goal), Goal, Set, goal, evidence)
  }

  /** A decision backed by an unsuperseded entry the run started with. */
  predicate ProtectedDecision(lex: Lexicon, r: seq<Entry>, previous: set<Id>, decision: string) {
    exists e :: e in r && e.id in previous && e.supersededBy.None? && lex.sameFact(e.content, decision)
  }

  function RemoveDecision(lex: Lexicon, s: State, previous: set<Id>, decision: string, evidence: Id): State {
    if ProtectedDecision(lex, s.ledger.registry, previous, decision) then s
    else Record(s.(decisions := Without(s.decisions, decision)), Decisions, Remove, decision, evidence)
  }

  function RemoveDecisions(lex: Lexicon, s: State, previous: set<Id>, decisions: seq<string>, evidence: Id): State {
    if decisions == [] then s
    else
      var n := |decisions| - 1;
      RemoveDecision(lex, RemoveDecisions(lex, s, previous, decisions[..n], evidence), previous, decisions[n], evidence)
  }

  function PromoteIn(env: Env, s: State, content: string, kind: Kind, d: Delta, now: nat): State {
    s.(ledger := Perform(env, {}, s.ledger, Promoted(content, kind, d.importance, Evidence(d.eventId, EventSource), d.newId, now)))
  }

  function DecidePhase(env: Env, rd: Reader, s: State, d: Delta, text: string, previous: set<Id>, cites: Cites, k: nat, now: nat): State {
    if rd.revokes(text) then
      Revoke(env.lex, s, DecisionMatch(rd, s.decisions, rd.stripRevocation(text), 0.45), previous, d)
    else if !FactSized(env.lex, text) then s
    else
      var s1 := RemoveDecisions(env.lex, s, previous, Conflicting(rd, s.decisions, text), d.eventId);
      Decide(env, s1, DecisionMatch(rd, s1.decisions, text, 0.8), d, text, cites, k, now)
  }

  function Conflicting(rd: Reader, decisions: seq<string>, text: string): seq<string> {
    Filter(decisions, v => rd.conflicts(v, text))
  }

  function Revoke(lex: Lexicon, s: State, matched: Option<string>, previous: set<Id>, d: Delta): State {
    if matched.None? then s else RemoveDecision(lex, s, previous, matched.value, d.eventId)
  }

  function Decide(env: Env, s: State, existing: Option<string>, d: Delta, text: string, cites: Cites, k: nat, now: nat): State {
    if existing.None? then
      var added := Record(s.(decisions := s.decisions + [text]), Decisions, Add, text, d.eventId);
      if d.importance >= 0.7 then PromoteIn(env, added, text, Decision, d, now) else added
    else if !cites(k, Decisions, existing.value) then Record(s, Decisions, Reaffirm, existing.value, d.eventId)
    else s
  }

  function ResolveQuestionPhase(rd: Reader, s: State, d: Delta, text: string): State {
    CloseQuestion(rd, s, WorkingNoteMatch(rd, s.openQuestions, Resolution(rd, text), 0.35), d)
  }

  function CloseQuestion(rd: Reader, s: State, matched: Option<string>, d: Delta): State {
    if matched.None? then s.(openQuestions := LastN(s.openQuestions, WINDOW))
    else
      Record(s, OpenQuestions, Remove, matched.value, d.eventId)
        .(openQuestions := LastN(Without(s.openQuestions, matched.value), WINDOW),
          resolvedQuestions := s.resolvedQuestions + {NoteKey(rd, matched.value)})
  }

  function ConstraintPhase(env: Env, rd: Reader, s: State, d: Delta, text: string, cites: Cites, k: nat, now: nat): State {
    var constraint := rd.constraintText(text);
    if !FactSized(env.lex, constraint) then s
    else
      var existing := SemanticMatch(rd, s.constraints, constraint, 0.8);
      if existing.None? then
        PromoteIn(env, Record(s.(constraints := s.constraints + [constraint]), Constraints, Add, constraint, d.eventId), constraint, Constraint, d, now)
      else if !cites(k, Constraints, existing.value) then Record(s, Constraints, Reaffirm, existing.value, d.eventId)
      else s
  }

  function TodoPhase(rd: Reader, s: State, d: Delta, text: string, cites: Cites, k: nat): State {
    if rd.closesTodo(text) then CloseTodo(s, TodoMatch(rd, s.todos, rd.stripTodoRemoval(text), 0.45), d)
    else OpenTodo(s, TodoMatch(rd, s.todos, text, 0.8), d, text, cites, k)
  }

  function CloseTodo(s: State, matched: Option<string>, d: Delta): State {
    if matched.None? then s
    else Record(s.(todos := Without(s.todos, matched.value)), Todos, Remove, matched.value, d.eventId)
  }

  function OpenTodo(s: State, existing: Option<string>, d: Delta, text: string, cites: Cites, k: nat): State {
    if existing.None? then Record(s.(todos := s.todos + [text]), Todos, Add, text, d.eventId)
    else if !cites(k, Todos, existing.value) then Record(s, Todos, Reaffirm, existing.value, d.eventId)
    else s
  }

  function QuestionPhase(rd: Reader, s: State, d: Delta, text: string, cites: Cites, k: nat): State {
    var existing := SemanticMatch(rd, s.openQuestions, text, 0.7);
    if existing.None? then
      Record(s.(openQuestions := LastN(s.openQuestions + [text], WINDOW)), OpenQuestions, Add, text, d.eventId)
    else if !cites(k, OpenQuestions, existing.value) then Record(s, OpenQuestions, Reaffirm, existing.value, d.eventId)
    else s
  }

  function VolatilePhase(rd: Reader, s: State, d: Delta, text: string, cites: Cites, k: nat): State {
    var existing := SemanticMatch(rd, s.volatileContext, text, 0.7);
    if existing.None? then
      Record(s.(volatileContext := LastN(s.volatileContext + [text], WINDOW)), VolatileContext, Add, text, d.eventId)
    else if !cites(k, VolatileContext, existing.value) then Record(s, VolatileContext, Reaffirm, existing.value, d.eventId)
    else s
  }

  /** A resolved risk is removed and logged; a volatile line about it goes too, unlogged. */
  function ResolveRiskPhase(rd: Reader, s: State, d: Delta, text: string): State {
    var matched := WorkingNoteMatch(rd, s.risks, Resolution(rd, text), 0.35);
    if matched.None? then s.(risks := LastN(s.risks, WINDOW))
    else CloseRisk(rd, s, matched.value, WorkingNoteMatch(rd, s.volatileContext, matched.value, 0.35), d)
  }

  function CloseRisk(rd: Reader, s: State, risk: string, line: Option<string>, d: Delta): State {
    Record(s, Risks, Remove, risk, d.eventId)
      .(risks := LastN(Without(s.risks, risk), WINDOW),
        resolvedRisks := s.resolvedRisks + {NoteKey(rd, risk)},
        volatileContext := LastN(if line.Some? then Without(s.volatileContext, line.value) else s.volatileContext, WINDOW))
  }

  function RiskPhase(rd: Reader, s: State, d: Delta, text: string, cites: Cites, k: nat): State {
    var existing := SemanticMatch(rd, s.risks, text, 0.7);
    if existing.None? then
      Record(s.(risks := LastN(s.risks + [text], WINDOW)), Risks, Add, text, d.eventId)
    else if !cites(k, Risks, existing.value) then Record(s, Risks, Reaffirm, existing.value, d.eventId)
    else s
  }

  function GoalPhase(rd: Reader, lex: Lexicon, s: State, d: Delta, text: string, cites: Cites, k: nat): State {
    var goal := rd.goalOf(text);
    if goal.Some? && d.kind != NoiseEvent
    then MergeGoal(rd, lex, s, goal.value, d.eventId, false, cites(k, Goal, goal.value))
    else s
  }

  /** Everything up to the questions. */
  function FirstHalf(env: Env, rd: Reader, s: State, d: Delta, text: string, previous: set<Id>, cites: Cites, k: nat, now: nat): State {
    var s1 := GoalPhase(rd, env.lex, s, d, text, cites, k);
    match d.kind
    case DecisionEvent => ResolveQuestionPhase(rd, DecidePhase(env, rd, s1, d, text, previous, cites, k, now), d, text)
    case ConstraintEvent => if d.importance >= 0.75 then ConstraintPhase(env, rd, s1, d, text, cites, k, now) else s1
    case TodoEvent => TodoPhase(rd, s1, d, text, cites, k)
    case _ => s1
  }

  /** The delta reports that something was resolved. */
  predicate Resolves(rd: Reader, d: Delta, text: string) {
    (d.kind == DecisionEvent || d.kind == StatusEvent || d.kind == NoteEvent) && rd.resolves(text)
  }

  /** Risks: resolved ones leave, newly mentioned ones enter unless already resolved in this run. */
  function RisksPart(rd: Reader, s: State, d: Delta, text: string, cites: Cites, k: nat): State {
    var s1 := if Resolves(rd, d, text) then ResolveRiskPhase(rd, s, d, text) else s;
    if rd.mentionsRisk(text) && NoteKey(rd, text) !in s1.resolvedRisks then RiskPhase(rd, s1, d, text, cites, k) else s1
  }

  predicate IsVolatile(rd: Reader, d: Delta, text: string) {
    (d.kind == StatusEvent || d.kind == NoteEvent) && rd.goalOf(text).None?
  }

  /** The question or the volatile line a delta carries. */
  function BeforeRisks(rd: Reader, s: State, d: Delta, text: string, cites: Cites, k: nat): State {
    if d.kind == QuestionEvent then QuestionPhase(rd, s, d, text, cites, k)
    else if IsVolatile(rd, d, text) then VolatilePhase(rd, s, d, text, cites, k)
    else s
  }

  /** A question, or a status or note, about something resolved earlier in the run ends its delta. */
  predicate AlreadyResolved(rd: Reader, s: State, d: Delta, text: string) {
    || (d.kind == QuestionEvent && NoteKey(rd, text) in s.resolvedQuestions)
    || (IsVolatile(rd, d, text) && NoteKey(rd, text) in s.resolvedRisks)
  }

  /** One delta. */
  function MergeDelta(env: Env, rd: Reader, s: State, d: Delta, previous: set<Id>, cites: Cites, k: nat, now: nat): State {
    var text := env.lex.trim(d.content);
    var s1 := FirstHalf(env, rd, s, d, text, previous, cites, k, now);
    if AlreadyResolved(rd, s1, d, text) then s1
    else RisksPart(rd, BeforeRisks(rd, s1, d, text, cites, k), d, text, cites, k)
  }

  function MergeDeltas(env: Env, rd: Reader, s: State, deltas: seq<Delta>, previous: set<Id>, cites: Cites, now: nat): State {
    if deltas == [] then s
    else
      var n := |deltas| - 1;
      MergeDelta(env, rd, MergeDeltas(env, rd, s, deltas[..n], previous, cites, now), deltas[n], previous, cites, n, now)
  }

  /** The goal a document states, and whether the goal's provenance already cites that document. */
  datatype DocumentGoal = DocumentGoal(goal: string, evidence: Id, cited: bool)

  /** Loading the previous state: duplicates go, lists and history are bounded, the log starts empty. */
  function Load(prev: State): State {
    prev.(constraints := LastN(Dedupe(prev.constraints), LIST_LIMIT),
          decisions := LastN(Dedupe(prev.decisions), LIST_LIMIT),
          todos := Dedupe(prev.todos),
          volatileContext := LastN(Dedupe(prev.volatileContext), WINDOW),
          openQuestions := LastN(Dedupe(prev.openQuestions), WINDOW),
          risks := LastN(Dedupe(prev.risks), WINDOW),
          ledger := NormalizeLedger(prev.ledger),
          log := [], resolvedQuestions := {}, resolvedRisks := {})
  }

  function DocumentPhase(rd: Reader, lex: Lexicon, s: State, doc: Option<DocumentGoal>): State {
    if doc.None? then s
    else MergeGoal(rd, lex, s, doc.value.goal, doc.value.evidence, true, doc.value.cited)
  }

  /** Closing the merge: the events are routed to the profile and the lists are deduplicated. */
  function Finish(env: Env, s: State, events: seq<RoutedEvent>, previous: set<Id>, ids: seq<Id>, now: nat): State
    requires |events| == |ids|
  {
    s.(ledger := RouteEvents(env, s.ledger, events, previous, ids, now).state,
       decisions := Dedupe(s.decisions),
       constraints := Dedupe(s.constraints),
       todos := Dedupe(s.todos),
       volatileContext := LastN(Dedupe(s.volatileContext), WINDOW))
  }

  /** `protectedStateMerge`, whose documents state a goal at most. */
  function Merge(env: Env, rd: Reader, prev: State, doc: Option<DocumentGoal>, deltas: seq<Delta>, cites: Cites, events: seq<RoutedEvent>, ids: seq<Id>, now: nat): State
    requires |events| == |ids|
  {
    var s := Load(prev);
    var previous := Ids(s.ledger.registry);
    Finish(env, MergeDeltas(env, rd, DocumentPhase(rd, env.lex, s, doc), deltas, previous, cites, now), events, previous, ids, now)
  }

  // ---------------------------------------------------------------- what the log is reported as

  /** `recentChanges` while the merge runs. */
  function Recent(log: seq<Change>): seq<Change> {
    LastN(log, RECENT_LIMIT)
  }

  /** `transitionSummary`: how often each field saw each action. */
  function Summary(log: seq<Change>): map<(Field, Action), nat> {
    if log == [] then map[]
    else Bump(Summary(log[..|log| - 1]), log[|log| - 1])
  }

  function Bump(summary: map<(Field, Action), nat>, c: Change): map<(Field, Action), nat> {
    var key := (c.field, c.action);
    summary[key := (if key in summary then summary[key] else 0) + 1]
  }
}
