/**
 * What one delta does to each part of the state (packages/core/src/digest/merge.ts:737-943), field by
 * field: what enters a list, what leaves it, what is logged for it, and what the registry comes to state.
 */
module MergeOutcomes {
  import opened Options
  import opened Seqs
  import opened FactRegistry
  import opened StateMerge
  import opened StateMergeLaws

  // ---------------------------------------------------------------- matching

  /** The first of the texts that score highest against the candidate. */
  predicate Best(rd: Reader, texts: seq<string>, candidate: string, i: nat) {
    && i < |texts|
    && (forall j :: 0 <= j < |texts| ==> rd.score(texts[j], candidate) <= rd.score(texts[i], candidate))
    && (forall j :: 0 <= j < i ==> rd.score(texts[j], candidate) < rd.score(texts[i], candidate))
  }

  /** The best text is close enough to the candidate, and stands for the value `v`. */
  predicate Finds(rd: Reader, values: seq<string>, texts: seq<string>, candidate: string, threshold: real, v: string) {
    && |texts| == |values|
    && exists i :: 0 <= i < |values| && Best(rd, texts, candidate, i) && rd.same(texts[i], candidate, threshold) && values[i] == v && v != ""
  }

  predicate FindsValue(rd: Reader, values: seq<string>, candidate: string, threshold: real, v: string) {
    Finds(rd, values, values, candidate, threshold, v)
  }

  predicate FindsDecision(rd: Reader, values: seq<string>, candidate: string, threshold: real, v: string) {
    FindsValue(rd, Filter(values, x => rd.comparable(x, candidate)), candidate, threshold, v)
  }

  /** Working notes are compared without their resolution prefixes. */
  predicate FindsNote(rd: Reader, values: seq<string>, candidate: string, threshold: real, v: string) {
    Finds(rd, values, seq(|values|, i requires 0 <= i < |values| => rd.stripResolution(values[i])), rd.stripResolution(candidate), threshold, v)
  }

  /** The texts of the comparable todos. */
  function TodoTexts(rd: Reader, values: seq<string>, candidate: string): seq<string> {
    var near := Filter(values, x => rd.comparable(rd.todoText(x), rd.todoText(candidate)));
    seq(|near|, i requires 0 <= i < |near| => rd.todoText(near[i]))
  }

  /** The first todo whose text reads as the best text found. */
  predicate FindsTodo(rd: Reader, values: seq<string>, candidate: string, threshold: real, v: string) {
    exists t :: t in TodoTexts(rd, values, candidate)
      && FindsValue(rd, TodoTexts(rd, values, candidate), rd.todoText(candidate), threshold, t) && FirstReads(rd, values, t, v)
  }

  predicate FirstReads(rd: Reader, values: seq<string>, t: string, v: string) {
    exists i :: 0 <= i < |values| && values[i] == v && v != "" && rd.normalize(rd.todoText(v)) == rd.normalize(t)
      && forall j :: 0 <= j < i ==> rd.normalize(rd.todoText(values[j])) != rd.normalize(t)
  }

  lemma MatchIs(rd: Reader, values: seq<string>, texts: seq<string>, candidate: string, threshold: real, v: string)
    requires |texts| == |values|
    ensures Match(rd, values, texts, candidate, threshold) == Some(v) <==> Finds(rd, values, texts, candidate, threshold, v)
  {
    if values != [] {
      var i := BestIndex(rd, values, texts, candidate);
      assert Best(rd, texts, candidate, i);
      forall j | 0 <= j < |values| && Best(rd, texts, candidate, j) ensures j == i {
        assert rd.score(texts[j], candidate) == rd.score(texts[i], candidate);
      }
    }
  }

  lemma ValueMatchIs(rd: Reader, values: seq<string>, candidate: string, threshold: real, v: string)
    ensures SemanticMatch(rd, values, candidate, threshold) == Some(v) <==> FindsValue(rd, values, candidate, threshold, v)
  {
    MatchIs(rd, values, values, candidate, threshold, v);
  }

  lemma DecisionMatchIs(rd: Reader, values: seq<string>, candidate: string, threshold: real, v: string)
    ensures DecisionMatch(rd, values, candidate, threshold) == Some(v) <==> FindsDecision(rd, values, candidate, threshold, v)
  {
    ValueMatchIs(rd, Filter(values, x => rd.comparable(x, candidate)), candidate, threshold, v);
  }

  lemma NoteMatchIs(rd: Reader, values: seq<string>, candidate: string, threshold: real, v: string)
    ensures WorkingNoteMatch(rd, values, candidate, threshold) == Some(v) <==> FindsNote(rd, values, candidate, threshold, v)
  {
    assert Mapped(values, rd.stripResolution) == seq(|values|, i requires 0 <= i < |values| => rd.stripResolution(values[i]));
    MatchIs(rd, values, Mapped(values, rd.stripResolution), rd.stripResolution(candidate), threshold, v);
  }

  lemma TodoMatchIs(rd: Reader, values: seq<string>, candidate: string, threshold: real, v: string)
    ensures TodoMatch(rd, values, candidate, threshold) == Some(v) <==> FindsTodo(rd, values, candidate, threshold, v)
  {
    hide FindsValue, SemanticMatch, TodoTexts, FirstReads;
    var texts := TodoTexts(rd, values, candidate);
    TodoTextsAre(rd, values, candidate);
    var best := SemanticMatch(rd, texts, rd.todoText(candidate), threshold);
    forall t | t in texts ensures best == Some(t) <==> FindsValue(rd, texts, rd.todoText(candidate), threshold, t) {
      ValueMatchIs(rd, texts, rd.todoText(candidate), threshold, t);
    }
    if best.Some? { FirstReadsIs(rd, values, best.value, v); }
  }

  lemma FirstReadsIs(rd: Reader, values: seq<string>, t: string, v: string)
    ensures var i := First(values, x => rd.normalize(rd.todoText(x)) == rd.normalize(t));
            (i < |values| && values[i] != "" && values[i] == v) <==> FirstReads(rd, values, t, v)
  {
    var i := First(values, x => rd.normalize(rd.todoText(x)) == rd.normalize(t));
    if FirstReads(rd, values, t, v) {
      var j :| 0 <= j < |values| && values[j] == v && v != "" && rd.normalize(rd.todoText(v)) == rd.normalize(t)
        && forall n :: 0 <= n < j ==> rd.normalize(rd.todoText(values[n])) != rd.normalize(t);
      assert i == j;
    }
  }

  lemma TodoTextsAre(rd: Reader, values: seq<string>, candidate: string)
    ensures TodoTexts(rd, values, candidate) == Mapped(Filter(values, x => rd.comparable(rd.todoText(x), rd.todoText(candidate))), rd.todoText)
  {
  }

  // ---------------------------------------------------------------- what a list and its log show

  /** The changes logged for a field. */
  function LogOf(s: State, field: Field): seq<Change> {
    Filter(s.log, (c: Change) => c.field == field)
  }

  /** A value enters its list, unless a value of the list is found for it: that one is reaffirmed, unless it cites the event. */
  predicate Upserted(field: Field, values: seq<string>, log: seq<Change>, values': seq<string>, log': seq<Change>,
                     value: string, evidence: Id, found: string -> bool, cited: string -> bool) {
    if exists v :: v in values && found(v) then
      values' == values && exists v :: v in values && found(v) && log' == if cited(v) then log else log + [Change(field, Reaffirm, v, evidence)]
    else
      values' == Windowed(field, values + [value]) && log' == log + [Change(field, Add, value, evidence)]
  }

  /** The registry comes to state the content, with a new entry when no unsuperseded one states it. */
  predicate Stated(env: Env, before: Ledger, after: Ledger, content: string, kind: Kind, d: Delta, now: nat) {
    after == if exists e :: e in before.registry && e.supersededBy.None? && env.lex.sameFact(e.content, content) then before
             else before.(registry := before.registry + [Entry(d.newId, content, kind, d.importance, now, d.eventId, EventSource, None, [], None, None, None)])
  }

  lemma StatedIs(env: Env, s: State, content: string, kind: Kind, d: Delta, now: nat)
    requires |env.lex.trim(content)| <= 500
    ensures Stated(env, s.ledger, PromoteIn(env, s, content, kind, d, now).ledger, content, kind, d, now)
  {
  }

  lemma LogPushed(s: State, s': State, c: Change)
    requires s'.log == s.log + [c]
    ensures forall f :: LogOf(s', f) == LogOf(s, f) + if f == c.field then [c] else []
  {
    assert s'.log[..|s.log|] == s.log;
  }

  /** Every field but those named has its values and its log, and the run its sets and its ledger. */
  ghost predicate Spares(s: State, s': State, touched: set<Field>) {
    && (forall f :: f !in touched ==> Content(s', f) == Content(s, f) && LogOf(s', f) == LogOf(s, f))
    && (OpenQuestions !in touched ==> s'.resolvedQuestions == s.resolvedQuestions)
    && (Risks !in touched ==> s'.resolvedRisks == s.resolvedRisks)
    && (Decisions !in touched && Constraints !in touched ==> s'.ledger == s.ledger)
  }

  lemma SparesTwice(a: State, b: State, c: State, f: set<Field>, g: set<Field>)
    requires Spares(a, b, f) && Spares(b, c, g)
    ensures Spares(a, c, f + g)
  {
    hide LogOf, Content;
  }

  // ---------------------------------------------------------------- the goal

  /**
   * A first goal is set; one that says the same is reaffirmed unless it cites the event; another is
   * replaced by a document, reaffirmed by an event about it, and otherwise kept.
   */
  predicate GoalOutcome(rd: Reader, lex: Lexicon, before: string, log: seq<Change>, after: string, log': seq<Change>,
                        goal: string, evidence: Id, isDocument: bool, cited: bool) {
    var previous := lex.trim(before);
    if previous == "" then after == goal && log' == log + [Change(Goal, Set, goal, evidence)]
    else if rd.sameGoal(previous, goal, isDocument) then
      after == before && log' == if cited then log else log + [Change(Goal, Reaffirm, previous, evidence)]
    else if isDocument then
      after == goal && log' == log + [Change(Goal, Remove, previous, evidence), Change(Goal, Set, goal, evidence)]
    else
      after == before && log' == if rd.relatedGoal(previous, goal) then log + [Change(Goal, Reaffirm, previous, evidence)] else log
  }

  lemma GoalIs(rd: Reader, lex: Lexicon, s: State, goal: string, evidence: Id, isDocument: bool, cited: bool)
    ensures var s' := MergeGoal(rd, lex, s, goal, evidence, isDocument, cited);
            && GoalOutcome(rd, lex, s.goal, LogOf(s, Goal), s'.goal, LogOf(s', Goal), goal, evidence, isDocument, cited)
            && Spares(s, s', {Goal})
  {
    hide LogOf;
    var s' := MergeGoal(rd, lex, s, goal, evidence, isDocument, cited);
    var previous := lex.trim(s.goal);
    if previous == "" {
      LogPushed(s, s', Change(Goal, Set, goal, evidence));
    } else if s' == s {
      SameLog(s, s');
    } else if rd.sameGoal(previous, goal, isDocument) || !isDocument {
      LogPushed(s, s', Change(Goal, Reaffirm, previous, evidence));
    } else {
      var mid := Record(s, Goal, Remove, previous, evidence);
      LogPushed(s, mid, Change(Goal, Remove, previous, evidence));
      LogPushed(mid, s', Change(Goal, Set, goal, evidence));
      assert LogOf(s', Goal) == LogOf(s, Goal) + [Change(Goal, Remove, previous, evidence), Change(Goal, Set, goal, evidence)];
    }
  }

  lemma SameLog(s: State, s': State)
    requires s'.log == s.log
    ensures forall f :: LogOf(s', f) == LogOf(s, f)
  {
  }

  // ---------------------------------------------------------------- entering a list

  /** A phase that looks for the value in its list and adds it or reaffirms what it finds. */
  lemma UpsertIs(s: State, s': State, field: Field, value: string, evidence: Id, existing: Option<string>, found: string -> bool, cited: string -> bool)
    requires forall v :: existing == Some(v) <==> found(v)
    requires existing.Some? ==> existing.value in Content(s, field)
    requires existing.None? ==> s'.log == s.log + [Change(field, Add, value, evidence)] && Content(s', field) == Windowed(field, Content(s, field) + [value])
    requires existing.Some? && !cited(existing.value) ==>
               s'.log == s.log + [Change(field, Reaffirm, existing.value, evidence)] && Content(s', field) == Content(s, field)
    requires existing.Some? && cited(existing.value) ==> s' == s
    ensures Upserted(field, Content(s, field), LogOf(s, field), Content(s', field), LogOf(s', field), value, evidence, found, cited)
    ensures forall f :: f != field ==> LogOf(s', f) == LogOf(s, f)
  {
    hide LogOf;
    if existing.None? {
      LogPushed(s, s', Change(field, Add, value, evidence));
    } else if !cited(existing.value) {
      LogPushed(s, s', Change(field, Reaffirm, existing.value, evidence));
    }
  }

  // ---------------------------------------------------------------- decisions

  /** A decision of the loaded registry that has not been superseded states it. */
  predicate LoadedStates(lex: Lexicon, r: seq<Entry>, previous: set<Id>, decision: string) {
    exists e :: e in r && e.id in previous && e.supersededBy.None? && lex.sameFact(e.content, decision)
  }

  function Removals(values: seq<string>, evidence: Id): seq<Change> {
    seq(|values|, i requires 0 <= i < |values| => Change(Decisions, Remove, values[i], evidence))
  }

  /**
   * A revocation takes out the decision it finds; a decision of the size of a fact takes out those
   * it conflicts with and enters, or reaffirms the one it finds; nothing the loaded registry states
   * is taken out. At importance 0.7 or more the registry states what entered.
   */
  predicate DecisionOutcome(env: Env, rd: Reader, values: seq<string>, log: seq<Change>, ledger: Ledger,
                            values': seq<string>, log': seq<Change>, ledger': Ledger,
                            d: Delta, text: string, previous: set<Id>, cites: Cites, k: nat, now: nat) {
    var held := (v: string) => LoadedStates(env.lex, ledger.registry, previous, v);
    if rd.revokes(text) then
      && ledger' == ledger
      && if exists v :: v in values && FindsDecision(rd, values, rd.stripRevocation(text), 0.45, v) && !held(v) then
           exists v :: v in values && FindsDecision(rd, values, rd.stripRevocation(text), 0.45, v) && !held(v)
             && values' == Filter(values, x => x != v) && log' == log + [Change(Decisions, Remove, v, d.eventId)]
         else values' == values && log' == log
    else if |env.lex.trim(text)| > 500 then values' == values && log' == log && ledger' == ledger
    else
      var left := Filter(values, v => !rd.conflicts(v, text) || held(v));
      var gone := Filter(values, v => rd.conflicts(v, text) && !held(v));
      DecisionEnters(env, rd, left, log + Removals(gone, d.eventId), ledger, values', log', ledger', d, text, cites, k, now)
  }

  predicate DecisionEnters(env: Env, rd: Reader, values: seq<string>, log: seq<Change>, ledger: Ledger,
                           values': seq<string>, log': seq<Change>, ledger': Ledger,
                           d: Delta, text: string, cites: Cites, k: nat, now: nat) {
    && Upserted(Decisions, values, log, values', log', text, d.eventId,
                v => FindsDecision(rd, values, text, 0.8, v), v => cites(k, Decisions, v))
    && if values' == values || d.importance < 0.7 then ledger' == ledger else Stated(env, ledger, ledger', text, Decision, d, now)
  }

  lemma RemovalsMore(values: seq<string>, v: string, evidence: Id)
    ensures Removals(values + [v], evidence) == Removals(values, evidence) + [Change(Decisions, Remove, v, evidence)]
  {
  }

  /** Those of the decisions that may be taken out. */
  function Unheld(lex: Lexicon, r: seq<Entry>, previous: set<Id>, ds: seq<string>): seq<string> {
    Filter(ds, v => !LoadedStates(lex, r, previous, v))
  }

  lemma UnheldMore(lex: Lexicon, r: seq<Entry>, previous: set<Id>, ds: seq<string>)
    requires ds != []
    ensures var n := |ds| - 1;
            Unheld(lex, r, previous, ds) == Unheld(lex, r, previous, ds[..n]) + if LoadedStates(lex, r, previous, ds[n]) then [] else [ds[n]]
  {
    hide LoadedStates;
  }

  function Left(values: seq<string>, gone: seq<string>): seq<string> {
    Filter(values, v => v !in gone)
  }

  lemma WithoutMore(values: seq<string>, gone: seq<string>, v: string)
    ensures Without(Left(values, gone), v) == Left(values, gone + [v])
  {
    FilterTwice(values, x => x !in gone, x => x != v, x => x !in gone + [v]);
  }

  lemma NoneTaken(values: seq<string>, evidence: Id)
    ensures Left(values, []) == values && Removals([], evidence) == []
  {
    FilterAll(values, v => v !in []);
  }

  /** Taking a list of decisions out, one after another. */
  lemma {:induction false} RemovedDecisions(lex: Lexicon, s: State, previous: set<Id>, ds: seq<string>, evidence: Id)
    ensures var s' := RemoveDecisions(lex, s, previous, ds, evidence);
            var gone := Unheld(lex, s.ledger.registry, previous, ds);
            && s' == s.(decisions := s'.decisions, log := s'.log)
            && s'.decisions == Left(s.decisions, gone)
            && s'.log == s.log + Removals(gone, evidence)
  {
    hide LoadedStates, ProtectedDecision, Filter, Without, Removals, Unheld, Left;
    if ds == [] {
      NoneTaken(s.decisions, evidence);
      assert Unheld(lex, s.ledger.registry, previous, []) == [] by { NothingUnheld(lex, s.ledger.registry, previous); }
    } else {
      var n := |ds| - 1;
      RemovedDecisions(lex, s, previous, ds[..n], evidence);
      var gone := Unheld(lex, s.ledger.registry, previous, ds[..n]);
      ProtectionIs(lex, s.ledger.registry, previous, ds[n]);
      UnheldMore(lex, s.ledger.registry, previous, ds);
      if !LoadedStates(lex, s.ledger.registry, previous, ds[n]) {
        WithoutMore(s.decisions, gone, ds[n]);
        RemovalsMore(gone, ds[n], evidence);
        assert (s.log + Removals(gone, evidence)) + [Change(Decisions, Remove, ds[n], evidence)] == s.log + Removals(gone + [ds[n]], evidence);
      } else {
        assert gone + [] == gone;
      }
    }
  }

  lemma NothingUnheld(lex: Lexicon, r: seq<Entry>, previous: set<Id>)
    ensures Unheld(lex, r, previous, []) == []
  {
  }

  lemma ProtectionIs(lex: Lexicon, r: seq<Entry>, previous: set<Id>, decision: string)
    ensures ProtectedDecision(lex, r, previous, decision) <==> LoadedStates(lex, r, previous, decision)
  {
  }

  lemma LogRemovals(s: State, s': State, gone: seq<string>, evidence: Id)
    requires s'.log == s.log + Removals(gone, evidence)
    ensures LogOf(s', Decisions) == LogOf(s, Decisions) + Removals(gone, evidence)
    ensures forall f :: f != Decisions ==> LogOf(s', f) == LogOf(s, f)
  {
    var more := Removals(gone, evidence);
    forall f ensures LogOf(s', f) == LogOf(s, f) + if f == Decisions then more else [] {
      FilterConcat(s.log, more, (c: Change) => c.field == f);
      if f == Decisions { FilterAll(more, (c: Change) => c.field == f); } else { FilterNone(more, (c: Change) => c.field == f); }
    }
  }

  lemma ConflictsGone(lex: Lexicon, rd: Reader, s: State, previous: set<Id>, text: string, evidence: Id)
    ensures var s' := RemoveDecisions(lex, s, previous, Conflicting(rd, s.decisions, text), evidence);
            var held := (v: string) => LoadedStates(lex, s.ledger.registry, previous, v);
            && s' == s.(decisions := s'.decisions, log := s'.log)
            && s'.decisions == Filter(s.decisions, v => !rd.conflicts(v, text) || held(v))
            && s'.log == s.log + Removals(Filter(s.decisions, v => rd.conflicts(v, text) && !held(v)), evidence)
  {
    hide LoadedStates, RemoveDecisions, Conflicting, Removals, Unheld;
    var r := s.ledger.registry;
    var held := (v: string) => LoadedStates(lex, r, previous, v);
    var gone := Unheld(lex, r, previous, Conflicting(rd, s.decisions, text));
    RemovedDecisions(lex, s, previous, Conflicting(rd, s.decisions, text), evidence);
    UnheldConflicts(lex, rd, s.ledger.registry, previous, s.decisions, text);
    FilterSame(s.decisions, v => rd.conflicts(v, text) && !LoadedStates(lex, r, previous, v), v => rd.conflicts(v, text) && !held(v));
    FilterSame(s.decisions, v => v !in gone, v => !rd.conflicts(v, text) || held(v));
  }

  lemma UnheldConflicts(lex: Lexicon, rd: Reader, r: seq<Entry>, previous: set<Id>, ds: seq<string>, text: string)
    ensures Unheld(lex, r, previous, Conflicting(rd, ds, text)) == Filter(ds, v => rd.conflicts(v, text) && !LoadedStates(lex, r, previous, v))
  {
    hide LoadedStates;
    FilterTwice(ds, v => rd.conflicts(v, text), v => !LoadedStates(lex, r, previous, v), v => rd.conflicts(v, text) && !LoadedStates(lex, r, previous, v));
  }

  lemma RevokeIs(env: Env, rd: Reader, s: State, d: Delta, text: string, previous: set<Id>, cites: Cites, k: nat, now: nat)
    requires rd.revokes(text)
    ensures var s' := DecidePhase(env, rd, s, d, text, previous, cites, k, now);
            && DecisionOutcome(env, rd, s.decisions, LogOf(s, Decisions), s.ledger, s'.decisions, LogOf(s', Decisions), s'.ledger, d, text, previous, cites, k, now)
            && Spares(s, s', {Decisions})
  {
    hide LogOf, FindsDecision, LoadedStates, ProtectedDecision;
    var target := rd.stripRevocation(text);
    var matched := DecisionMatch(rd, s.decisions, target, 0.45);
    var s' := DecidePhase(env, rd, s, d, text, previous, cites, k, now);
    forall v ensures matched == Some(v) <==> FindsDecision(rd, s.decisions, target, 0.45, v) {
      DecisionMatchIs(rd, s.decisions, target, 0.45, v);
    }
    SameLog(s, s);
    if matched.Some? {
      ProtectionIs(env.lex, s.ledger.registry, previous, matched.value);
      if !LoadedStates(env.lex, s.ledger.registry, previous, matched.value) {
        LogPushed(s, s', Change(Decisions, Remove, matched.value, d.eventId));
      }
    }
  }

  lemma DecisionIs(env: Env, rd: Reader, s: State, d: Delta, text: string, previous: set<Id>, cites: Cites, k: nat, now: nat)
    ensures var s' := DecidePhase(env, rd, s, d, text, previous, cites, k, now);
            && DecisionOutcome(env, rd, s.decisions, LogOf(s, Decisions), s.ledger, s'.decisions, LogOf(s', Decisions), s'.ledger, d, text, previous, cites, k, now)
            && Spares(s, s', {Decisions})
  {
    if rd.revokes(text) {
      RevokeIs(env, rd, s, d, text, previous, cites, k, now);
    } else if FactSized(env.lex, text) {
      DecidedIs(env, rd, s, d, text, previous, cites, k, now);
    }
  }

  lemma DecidedIs(env: Env, rd: Reader, s: State, d: Delta, text: string, previous: set<Id>, cites: Cites, k: nat, now: nat)
    requires !rd.revokes(text) && FactSized(env.lex, text)
    ensures var s' := DecidePhase(env, rd, s, d, text, previous, cites, k, now);
            && DecisionOutcome(env, rd, s.decisions, LogOf(s, Decisions), s.ledger, s'.decisions, LogOf(s', Decisions), s'.ledger, d, text, previous, cites, k, now)
            && Spares(s, s', {Decisions})
  {
    hide LogOf, LoadedStates, Conflicting, RemoveDecisions, Decide, DecisionEnters, Removals, Filter;
    var s1 := RemoveDecisions(env.lex, s, previous, Conflicting(rd, s.decisions, text), d.eventId);
    var s' := DecidePhase(env, rd, s, d, text, previous, cites, k, now);
    var held := (v: string) => LoadedStates(env.lex, s.ledger.registry, previous, v);
    ConflictsGone(env.lex, rd, s, previous, text, d.eventId);
    LogRemovals(s, s1, Filter(s.decisions, v => rd.conflicts(v, text) && !held(v)), d.eventId);
    EnteredIs(env, rd, s1, d, text, cites, k, now);
  }

  /** What the branch changes: the decisions, the log and, for an important addition, the ledger. */
  lemma DecideFields(env: Env, s: State, existing: Option<string>, d: Delta, text: string, cites: Cites, k: nat, now: nat)
    requires FactSized(env.lex, text)
    ensures var s' := Decide(env, s, existing, d, text, cites, k, now);
            && s' == s.(decisions := s'.decisions, log := s'.log, ledger := s'.ledger)
            && s'.decisions == (if existing.None? then s.decisions + [text] else s.decisions)
            && s'.log == s.log + (if existing.None? then [Change(Decisions, Add, text, d.eventId)]
                                  else if cites(k, Decisions, existing.value) then []
                                  else [Change(Decisions, Reaffirm, existing.value, d.eventId)])
            && if existing.None? && d.importance >= 0.7 then Stated(env, s.ledger, s'.ledger, text, Decision, d, now) else s'.ledger == s.ledger
  {
    hide Stated;
    StatedIs(env, Record(s.(decisions := s.decisions + [text]), Decisions, Add, text, d.eventId), text, Decision, d, now);
  }

  lemma EnteredIs(env: Env, rd: Reader, s: State, d: Delta, text: string, cites: Cites, k: nat, now: nat)
    requires FactSized(env.lex, text)
    ensures var s' := Decide(env, s, DecisionMatch(rd, s.decisions, text, 0.8), d, text, cites, k, now);
            && DecisionEnters(env, rd, s.decisions, LogOf(s, Decisions), s.ledger, s'.decisions, LogOf(s', Decisions), s'.ledger, d, text, cites, k, now)
            && Spares(s, s', {Decisions})
  {
    hide LogOf, FindsDecision, Stated, Upserted, Decide, DecisionMatch;
    var existing := DecisionMatch(rd, s.decisions, text, 0.8);
    var s' := Decide(env, s, existing, d, text, cites, k, now);
    forall v ensures existing == Some(v) <==> FindsDecision(rd, s.decisions, text, 0.8, v) {
      DecisionMatchIs(rd, s.decisions, text, 0.8, v);
    }
    DecideFields(env, s, existing, d, text, cites, k, now);
    UpsertIs(s, s', Decisions, text, d.eventId, existing, v => FindsDecision(rd, s.decisions, text, 0.8, v), v => cites(k, Decisions, v));
  }

  // ---------------------------------------------------------------- constraints and todos

  /** A constraint of importance 0.75 or more enters, and the registry states it, or the one it finds is reaffirmed. */
  predicate ConstraintOutcome(env: Env, rd: Reader, values: seq<string>, log: seq<Change>, ledger: Ledger,
                              values': seq<string>, log': seq<Change>, ledger': Ledger,
                              d: Delta, text: string, cites: Cites, k: nat, now: nat) {
    var constraint := rd.constraintText(text);
    if d.importance < 0.75 || |env.lex.trim(constraint)| > 500 then values' == values && log' == log && ledger' == ledger
    else
      && Upserted(Constraints, values, log, values', log', constraint, d.eventId,
                  v => FindsValue(rd, values, constraint, 0.8, v), v => cites(k, Constraints, v))
      && if values' == values then ledger' == ledger else Stated(env, ledger, ledger', constraint, Constraint, d, now)
  }

  lemma ConstraintIs(env: Env, rd: Reader, s: State, d: Delta, text: string, cites: Cites, k: nat, now: nat)
    requires d.importance >= 0.75
    ensures var s' := ConstraintPhase(env, rd, s, d, text, cites, k, now);
            && ConstraintOutcome(env, rd, s.constraints, LogOf(s, Constraints), s.ledger, s'.constraints, LogOf(s', Constraints), s'.ledger, d, text, cites, k, now)
            && Spares(s, s', {Constraints})
  {
    hide LogOf, FindsValue, Stated, Upserted;
    var constraint := rd.constraintText(text);
    if FactSized(env.lex, constraint) {
      var existing := SemanticMatch(rd, s.constraints, constraint, 0.8);
      var s' := ConstraintPhase(env, rd, s, d, text, cites, k, now);
      forall v ensures existing == Some(v) <==> FindsValue(rd, s.constraints, constraint, 0.8, v) {
        ValueMatchIs(rd, s.constraints, constraint, 0.8, v);
      }
      var added := Record(s.(constraints := s.constraints + [constraint]), Constraints, Add, constraint, d.eventId);
      StatedIs(env, added, constraint, Constraint, d, now);
      UpsertIs(s, s', Constraints, constraint, d.eventId, existing, v => FindsValue(rd, s.constraints, constraint, 0.8, v), v => cites(k, Constraints, v));
    }
  }

  /** A todo said to be closed leaves when it is found; another enters, or the one it finds is reaffirmed. */
  predicate TodoOutcome(rd: Reader, values: seq<string>, log: seq<Change>, values': seq<string>, log': seq<Change>, d: Delta, text: string, cites: Cites, k: nat) {
    if rd.closesTodo(text) then
      var target := rd.stripTodoRemoval(text);
      if exists v :: v in values && FindsTodo(rd, values, target, 0.45, v) then
        exists v :: v in values && FindsTodo(rd, values, target, 0.45, v)
          && values' == Filter(values, x => x != v) && log' == log + [Change(Todos, Remove, v, d.eventId)]
      else values' == values && log' == log
    else
      Upserted(Todos, values, log, values', log', text, d.eventId, v => FindsTodo(rd, values, text, 0.8, v), v => cites(k, Todos, v))
  }

  lemma TodoIs(rd: Reader, s: State, d: Delta, text: string, cites: Cites, k: nat)
    ensures var s' := TodoPhase(rd, s, d, text, cites, k);
            && TodoOutcome(rd, s.todos, LogOf(s, Todos), s'.todos, LogOf(s', Todos), d, text, cites, k)
            && Spares(s, s', {Todos})
  {
    if rd.closesTodo(text) { CloseTodoIs(rd, s, d, text, cites, k); } else { OpenTodoIs(rd, s, d, text, cites, k); }
  }

  lemma CloseTodoIs(rd: Reader, s: State, d: Delta, text: string, cites: Cites, k: nat)
    requires rd.closesTodo(text)
    ensures var s' := TodoPhase(rd, s, d, text, cites, k);
            && TodoOutcome(rd, s.todos, LogOf(s, Todos), s'.todos, LogOf(s', Todos), d, text, cites, k)
            && Spares(s, s', {Todos})
  {
    hide LogOf, FindsTodo, TodoMatch;
    var s' := TodoPhase(rd, s, d, text, cites, k);
    var target := rd.stripTodoRemoval(text);
    var matched := TodoMatch(rd, s.todos, target, 0.45);
    forall v ensures matched == Some(v) <==> FindsTodo(rd, s.todos, target, 0.45, v) {
      TodoMatchIs(rd, s.todos, target, 0.45, v);
    }
    if matched.Some? { LogPushed(s, s', Change(Todos, Remove, matched.value, d.eventId)); }
  }

  lemma OpenTodoIs(rd: Reader, s: State, d: Delta, text: string, cites: Cites, k: nat)
    requires !rd.closesTodo(text)
    ensures var s' := TodoPhase(rd, s, d, text, cites, k);
            && TodoOutcome(rd, s.todos, LogOf(s, Todos), s'.todos, LogOf(s', Todos), d, text, cites, k)
            && Spares(s, s', {Todos})
  {
    hide LogOf, FindsTodo, TodoMatch, Upserted;
    var existing := TodoMatch(rd, s.todos, text, 0.8);
    forall v ensures existing == Some(v) <==> FindsTodo(rd, s.todos, text, 0.8, v) {
      TodoMatchIs(rd, s.todos, text, 0.8, v);
    }
    UpsertIs(s, TodoPhase(rd, s, d, text, cites, k), Todos, text, d.eventId, existing, v => FindsTodo(rd, s.todos, text, 0.8, v), v => cites(k, Todos, v));
  }

  // ---------------------------------------------------------------- questions

  /** A working note without its resolution prefix, unless that is all it is. */
  function Bare(rd: Reader, text: string): string {
    if rd.stripResolution(text) == "" then text else rd.stripResolution(text)
  }

  function LastTen(values: seq<string>): seq<string> {
    if |values| <= 10 then values else values[|values| - 10..]
  }

  /** A decision resolves the open question it finds. */
  predicate QuestionResolved(rd: Reader, values: seq<string>, log: seq<Change>, resolved: set<string>,
                             values': seq<string>, log': seq<Change>, resolved': set<string>, d: Delta, text: string) {
    if exists v :: v in values && FindsNote(rd, values, Bare(rd, text), 0.35, v) then
      exists v :: v in values && FindsNote(rd, values, Bare(rd, text), 0.35, v)
        && values' == LastTen(Filter(values, x => x != v)) && log' == log + [Change(OpenQuestions, Remove, v, d.eventId)]
        && resolved' == resolved + {rd.normalize(Bare(rd, v))}
    else values' == LastTen(values) && log' == log && resolved' == resolved
  }

  lemma QuestionResolvedIs(rd: Reader, s: State, d: Delta, text: string)
    ensures var s' := ResolveQuestionPhase(rd, s, d, text);
            && QuestionResolved(rd, s.openQuestions, LogOf(s, OpenQuestions), s.resolvedQuestions,
                                s'.openQuestions, LogOf(s', OpenQuestions), s'.resolvedQuestions, d, text)
            && Spares(s, s', {OpenQuestions})
  {
    hide LogOf, FindsNote, WorkingNoteMatch;
    var s' := ResolveQuestionPhase(rd, s, d, text);
    var matched := WorkingNoteMatch(rd, s.openQuestions, Bare(rd, text), 0.35);
    forall v ensures matched == Some(v) <==> FindsNote(rd, s.openQuestions, Bare(rd, text), 0.35, v) {
      NoteMatchIs(rd, s.openQuestions, Bare(rd, text), 0.35, v);
    }
    if matched.Some? {
      LogPushed(s, s', Change(OpenQuestions, Remove, matched.value, d.eventId));
    } else {
      SameLog(s, s');
    }
  }

  /** A question enters, or the one it finds is reaffirmed. */
  lemma QuestionIs(rd: Reader, s: State, d: Delta, text: string, cites: Cites, k: nat)
    ensures var s' := QuestionPhase(rd, s, d, text, cites, k);
            && Upserted(OpenQuestions, s.openQuestions, LogOf(s, OpenQuestions), s'.openQuestions, LogOf(s', OpenQuestions), text, d.eventId,
                        v => FindsValue(rd, s.openQuestions, text, 0.7, v), v => cites(k, OpenQuestions, v))
            && Spares(s, s', {OpenQuestions}) && s'.resolvedQuestions == s.resolvedQuestions
  {
    hide LogOf, FindsValue, SemanticMatch, Upserted;
    var existing := SemanticMatch(rd, s.openQuestions, text, 0.7);
    forall v ensures existing == Some(v) <==> FindsValue(rd, s.openQuestions, text, 0.7, v) {
      ValueMatchIs(rd, s.openQuestions, text, 0.7, v);
    }
    UpsertIs(s, QuestionPhase(rd, s, d, text, cites, k), OpenQuestions, text, d.eventId, existing,
             v => FindsValue(rd, s.openQuestions, text, 0.7, v), v => cites(k, OpenQuestions, v));
  }

  // ---------------------------------------------------------------- volatile lines and risks

  lemma VolatileIs(rd: Reader, s: State, d: Delta, text: string, cites: Cites, k: nat)
    ensures var s' := VolatilePhase(rd, s, d, text, cites, k);
            && Upserted(VolatileContext, s.volatileContext, LogOf(s, VolatileContext), s'.volatileContext, LogOf(s', VolatileContext), text, d.eventId,
                        v => FindsValue(rd, s.volatileContext, text, 0.7, v), v => cites(k, VolatileContext, v))
            && Spares(s, s', {VolatileContext})
  {
    hide LogOf, FindsValue, SemanticMatch, Upserted;
    var existing := SemanticMatch(rd, s.volatileContext, text, 0.7);
    forall v ensures existing == Some(v) <==> FindsValue(rd, s.volatileContext, text, 0.7, v) {
      ValueMatchIs(rd, s.volatileContext, text, 0.7, v);
    }
    UpsertIs(s, VolatilePhase(rd, s, d, text, cites, k), VolatileContext, text, d.eventId, existing,
             v => FindsValue(rd, s.volatileContext, text, 0.7, v), v => cites(k, VolatileContext, v));
  }

  lemma RiskIs(rd: Reader, s: State, d: Delta, text: string, cites: Cites, k: nat)
    ensures var s' := RiskPhase(rd, s, d, text, cites, k);
            && Upserted(Risks, s.risks, LogOf(s, Risks), s'.risks, LogOf(s', Risks), text, d.eventId,
                        v => FindsValue(rd, s.risks, text, 0.7, v), v => cites(k, Risks, v))
            && Spares(s, s', {Risks}) && s'.resolvedRisks == s.resolvedRisks
  {
    hide LogOf, FindsValue, SemanticMatch, Upserted;
    var existing := SemanticMatch(rd, s.risks, text, 0.7);
    forall v ensures existing == Some(v) <==> FindsValue(rd, s.risks, text, 0.7, v) {
      ValueMatchIs(rd, s.risks, text, 0.7, v);
    }
    UpsertIs(s, RiskPhase(rd, s, d, text, cites, k), Risks, text, d.eventId, existing,
             v => FindsValue(rd, s.risks, text, 0.7, v), v => cites(k, Risks, v));
  }

  /** What is reported resolved takes out the risk it finds. */
  predicate RiskResolved(rd: Reader, values: seq<string>, log: seq<Change>, resolved: set<string>,
                         values': seq<string>, log': seq<Change>, resolved': set<string>, d: Delta, text: string) {
    if exists v :: v in values && FindsNote(rd, values, Bare(rd, text), 0.35, v) then
      exists v :: v in values && FindsNote(rd, values, Bare(rd, text), 0.35, v)
        && values' == LastTen(Filter(values, x => x != v)) && log' == log + [Change(Risks, Remove, v, d.eventId)]
        && resolved' == resolved + {rd.normalize(Bare(rd, v))}
    else values' == LastTen(values) && log' == log && resolved' == resolved
  }

  /** The volatile line found for the risk taken out goes with it. */
  predicate LineCleared(rd: Reader, risks: seq<string>, lines: seq<string>, lines': seq<string>, text: string) {
    if exists v :: v in risks && FindsNote(rd, risks, Bare(rd, text), 0.35, v) then
      exists v :: v in risks && FindsNote(rd, risks, Bare(rd, text), 0.35, v)
        && if exists t :: t in lines && FindsNote(rd, lines, v, 0.35, t) then
             exists t :: t in lines && FindsNote(rd, lines, v, 0.35, t) && lines' == LastTen(Filter(lines, x => x != t))
           else lines' == LastTen(lines)
    else lines' == lines
  }

  lemma LineClearedIs(rd: Reader, s: State, d: Delta, text: string)
    ensures LineCleared(rd, s.risks, s.volatileContext, ResolveRiskPhase(rd, s, d, text).volatileContext, text)
  {
    hide FindsNote, WorkingNoteMatch;
    var matched := WorkingNoteMatch(rd, s.risks, Bare(rd, text), 0.35);
    forall v ensures matched == Some(v) <==> FindsNote(rd, s.risks, Bare(rd, text), 0.35, v) {
      NoteMatchIs(rd, s.risks, Bare(rd, text), 0.35, v);
    }
    if matched.Some? {
      var line := WorkingNoteMatch(rd, s.volatileContext, matched.value, 0.35);
      forall t ensures line == Some(t) <==> FindsNote(rd, s.volatileContext, matched.value, 0.35, t) {
        NoteMatchIs(rd, s.volatileContext, matched.value, 0.35, t);
      }
    }
  }

  lemma CloseRiskIs(rd: Reader, s: State, risk: string, line: Option<string>, d: Delta)
    ensures var s' := CloseRisk(rd, s, risk, line, d);
            && s'.risks == LastTen(Filter(s.risks, x => x != risk)) && s'.resolvedRisks == s.resolvedRisks + {rd.normalize(Bare(rd, risk))}
            && LogOf(s', Risks) == LogOf(s, Risks) + [Change(Risks, Remove, risk, d.eventId)]
            && Spares(s, s', {Risks, VolatileContext}) && LogOf(s', VolatileContext) == LogOf(s, VolatileContext)
  {
    hide LogOf, Filter, LastN, LastTen, Bare, NoteKey;
    CloseRiskKeeps(rd, s, risk, line, d);
    BareIs(rd, risk);
    LastTenIs(Without(s.risks, risk));
    LogPushed(s, CloseRisk(rd, s, risk, line, d), Change(Risks, Remove, risk, d.eventId));
  }

  lemma LastTenIs(values: seq<string>)
    ensures LastN(values, WINDOW) == LastTen(values)
  {
  }

  lemma CloseRiskKeeps(rd: Reader, s: State, risk: string, line: Option<string>, d: Delta)
    ensures var s' := CloseRisk(rd, s, risk, line, d);
            && s' == s.(risks := s'.risks, resolvedRisks := s'.resolvedRisks, volatileContext := s'.volatileContext, log := s'.log)
            && s'.log == s.log + [Change(Risks, Remove, risk, d.eventId)]
  {
    hide LastN, Without, NoteKey;
  }

  lemma RisksTrimmed(s: State)
    ensures var s' := s.(risks := LastN(s.risks, WINDOW));
            && s'.risks == LastTen(s.risks) && LogOf(s', Risks) == LogOf(s, Risks)
            && Spares(s, s', {Risks, VolatileContext}) && LogOf(s', VolatileContext) == LogOf(s, VolatileContext)
  {
  }

  lemma RiskResolvedIs(rd: Reader, s: State, d: Delta, text: string)
    ensures var s' := ResolveRiskPhase(rd, s, d, text);
            && RiskResolved(rd, s.risks, LogOf(s, Risks), s.resolvedRisks, s'.risks, LogOf(s', Risks), s'.resolvedRisks, d, text)
            && Spares(s, s', {Risks, VolatileContext}) && LogOf(s', VolatileContext) == LogOf(s, VolatileContext)
  {
    hide LogOf, FindsNote, WorkingNoteMatch, CloseRisk, Spares, LastTen, Bare;
    var matched := WorkingNoteMatch(rd, s.risks, Bare(rd, text), 0.35);
    BareIs(rd, text);
    forall v ensures matched == Some(v) <==> FindsNote(rd, s.risks, Bare(rd, text), 0.35, v) {
      NoteMatchIs(rd, s.risks, Bare(rd, text), 0.35, v);
    }
    if matched.Some? {
      CloseRiskIs(rd, s, matched.value, WorkingNoteMatch(rd, s.volatileContext, matched.value, 0.35), d);
    } else {
      RisksTrimmed(s);
    }
  }

  lemma BareIs(rd: Reader, text: string)
    ensures Bare(rd, text) == Resolution(rd, text) && rd.normalize(Bare(rd, text)) == NoteKey(rd, text)
  {
  }

  // ---------------------------------------------------------------- one delta

  /** The delta is a status or a note that states no goal. */
  predicate CarriesLine(rd: Reader, d: Delta, text: string) {
    (d.kind == StatusEvent || d.kind == NoteEvent) && rd.goalOf(text).None?
  }

  predicate ReportsResolved(rd: Reader, d: Delta, text: string) {
    (d.kind == DecisionEvent || d.kind == StatusEvent || d.kind == NoteEvent) && rd.resolves(text)
  }

  /** A question, or a volatile line, about something this run resolved: the delta ends before it is taken in. */
  predicate Stale(rd: Reader, s: State, d: Delta, text: string) {
    || (d.kind == QuestionEvent && rd.normalize(Bare(rd, text)) in s.resolvedQuestions)
    || (CarriesLine(rd, d, text) && rd.normalize(Bare(rd, text)) in s.resolvedRisks)
  }

  ghost predicate GoalLaw(env: Env, rd: Reader, s: State, s': State, d: Delta, text: string, cites: Cites, k: nat) {
    if rd.goalOf(text).None? || d.kind == NoiseEvent then s'.goal == s.goal && LogOf(s', Goal) == LogOf(s, Goal)
    else
      var goal := rd.goalOf(text).value;
      GoalOutcome(rd, env.lex, s.goal, LogOf(s, Goal), s'.goal, LogOf(s', Goal), goal, d.eventId, false, cites(k, Goal, goal))
  }

  ghost predicate DecisionsLaw(env: Env, rd: Reader, s: State, s': State, d: Delta, text: string, previous: set<Id>, cites: Cites, k: nat, now: nat) {
    if d.kind == DecisionEvent then
      DecisionOutcome(env, rd, s.decisions, LogOf(s, Decisions), s.ledger, s'.decisions, LogOf(s', Decisions), s'.ledger, d, text, previous, cites, k, now)
    else s'.decisions == s.decisions && LogOf(s', Decisions) == LogOf(s, Decisions)
  }

  ghost predicate ConstraintsLaw(env: Env, rd: Reader, s: State, s': State, d: Delta, text: string, cites: Cites, k: nat, now: nat) {
    if d.kind == ConstraintEvent then
      ConstraintOutcome(env, rd, s.constraints, LogOf(s, Constraints), s.ledger, s'.constraints, LogOf(s', Constraints), s'.ledger, d, text, cites, k, now)
    else
      s'.constraints == s.constraints && LogOf(s', Constraints) == LogOf(s, Constraints) && (d.kind != DecisionEvent ==> s'.ledger == s.ledger)
  }

  ghost predicate TodosLaw(rd: Reader, s: State, s': State, d: Delta, text: string, cites: Cites, k: nat) {
    if d.kind == TodoEvent then TodoOutcome(rd, s.todos, LogOf(s, Todos), s'.todos, LogOf(s', Todos), d, text, cites, k)
    else s'.todos == s.todos && LogOf(s', Todos) == LogOf(s, Todos)
  }

  ghost predicate QuestionsLaw(rd: Reader, s: State, s': State, d: Delta, text: string, cites: Cites, k: nat) {
    if d.kind == DecisionEvent then
      QuestionResolved(rd, s.openQuestions, LogOf(s, OpenQuestions), s.resolvedQuestions,
                       s'.openQuestions, LogOf(s', OpenQuestions), s'.resolvedQuestions, d, text)
    else
      && s'.resolvedQuestions == s.resolvedQuestions
      && if d.kind == QuestionEvent && !Stale(rd, s, d, text) then
           Upserted(OpenQuestions, s.openQuestions, LogOf(s, OpenQuestions), s'.openQuestions, LogOf(s', OpenQuestions), text, d.eventId,
                    v => FindsValue(rd, s.openQuestions, text, 0.7, v), v => cites(k, OpenQuestions, v))
         else s'.openQuestions == s.openQuestions && LogOf(s', OpenQuestions) == LogOf(s, OpenQuestions)
  }

  /** The volatile lines once the delta's own is taken in, before a resolved risk takes one out. */
  ghost predicate LineTakenIn(rd: Reader, s: State, lines: seq<string>, log: seq<Change>, d: Delta, text: string, cites: Cites, k: nat) {
    if CarriesLine(rd, d, text) then
      Upserted(VolatileContext, s.volatileContext, LogOf(s, VolatileContext), lines, log, text, d.eventId,
               v => FindsValue(rd, s.volatileContext, text, 0.7, v), v => cites(k, VolatileContext, v))
    else lines == s.volatileContext && log == LogOf(s, VolatileContext)
  }

  ghost predicate VolatileLaw(rd: Reader, s: State, s': State, d: Delta, text: string, cites: Cites, k: nat) {
    if Stale(rd, s, d, text) then s'.volatileContext == s.volatileContext && LogOf(s', VolatileContext) == LogOf(s, VolatileContext)
    else
      exists lines: seq<string> :: LineTakenIn(rd, s, lines, LogOf(s', VolatileContext), d, text, cites, k)
        && if ReportsResolved(rd, d, text) then LineCleared(rd, s.risks, lines, s'.volatileContext, text) else s'.volatileContext == lines
  }

  ghost predicate RisksAfter(rd: Reader, s: State, risks: seq<string>, log: seq<Change>, resolved: set<string>, d: Delta, text: string) {
    if ReportsResolved(rd, d, text) then RiskResolved(rd, s.risks, LogOf(s, Risks), s.resolvedRisks, risks, log, resolved, d, text)
    else risks == s.risks && log == LogOf(s, Risks) && resolved == s.resolvedRisks
  }

  /** First what is resolved leaves, then a risk mentioned enters, unless this run resolved it. */
  ghost predicate RisksLaw(rd: Reader, s: State, s': State, d: Delta, text: string, cites: Cites, k: nat) {
    if Stale(rd, s, d, text) then s'.risks == s.risks && LogOf(s', Risks) == LogOf(s, Risks) && s'.resolvedRisks == s.resolvedRisks
    else
      exists risks: seq<string>, log: seq<Change> :: RisksAfter(rd, s, risks, log, s'.resolvedRisks, d, text)
        && if rd.mentionsRisk(text) && rd.normalize(Bare(rd, text)) !in s'.resolvedRisks then
             Upserted(Risks, risks, log, s'.risks, LogOf(s', Risks), text, d.eventId,
                      v => FindsValue(rd, risks, text, 0.7, v), v => cites(k, Risks, v))
           else s'.risks == risks && LogOf(s', Risks) == log
  }

  lemma Spared(s: State, s': State, touched: set<Field>)
    requires Spares(s, s', touched)
    ensures Goal !in touched ==> s'.goal == s.goal && LogOf(s', Goal) == LogOf(s, Goal)
    ensures Constraints !in touched ==> s'.constraints == s.constraints && LogOf(s', Constraints) == LogOf(s, Constraints)
    ensures Decisions !in touched ==> s'.decisions == s.decisions && LogOf(s', Decisions) == LogOf(s, Decisions)
    ensures Todos !in touched ==> s'.todos == s.todos && LogOf(s', Todos) == LogOf(s, Todos)
    ensures VolatileContext !in touched ==> s'.volatileContext == s.volatileContext && LogOf(s', VolatileContext) == LogOf(s, VolatileContext)
    ensures OpenQuestions !in touched ==> s'.openQuestions == s.openQuestions && LogOf(s', OpenQuestions) == LogOf(s, OpenQuestions)
    ensures Risks !in touched ==> s'.risks == s.risks && LogOf(s', Risks) == LogOf(s, Risks)
  {
    hide LogOf;
    assert Content(s', Goal) == [s'.goal] && Content(s, Goal) == [s.goal];
    assert Content(s', Constraints) == s'.constraints && Content(s', Decisions) == s'.decisions && Content(s', Todos) == s'.todos;
    assert Content(s', VolatileContext) == s'.volatileContext && Content(s', OpenQuestions) == s'.openQuestions && Content(s', Risks) == s'.risks;
  }

  // ---------------------------------------------------------------- the phases in turn

  lemma GoalPhaseIs(env: Env, rd: Reader, s: State, d: Delta, text: string, cites: Cites, k: nat)
    ensures var s' := GoalPhase(rd, env.lex, s, d, text, cites, k);
            GoalLaw(env, rd, s, s', d, text, cites, k) && Spares(s, s', {Goal})
  {
    hide LogOf, GoalOutcome, MergeGoal;
    if rd.goalOf(text).Some? && d.kind != NoiseEvent {
      var goal := rd.goalOf(text).value;
      GoalIs(rd, env.lex, s, goal, d.eventId, false, cites(k, Goal, goal));
    }
  }

  /** What the kind of a delta touches in the first half. */
  function FirstTouched(d: Delta): set<Field> {
    match d.kind
    case DecisionEvent => {Decisions, OpenQuestions}
    case ConstraintEvent => {Constraints}
    case TodoEvent => {Todos}
    case _ => {}
  }

  /** The first half but for the goal. */
  ghost predicate FirstLaws(env: Env, rd: Reader, s: State, s': State, d: Delta, text: string, previous: set<Id>, cites: Cites, k: nat, now: nat) {
    && DecisionsLaw(env, rd, s, s', d, text, previous, cites, k, now)
    && ConstraintsLaw(env, rd, s, s', d, text, cites, k, now)
    && TodosLaw(rd, s, s', d, text, cites, k)
    && (d.kind == DecisionEvent ==> QuestionsLaw(rd, s, s', d, text, cites, k))
    && Spares(s, s', FirstTouched(d))
  }

  lemma DecisionHalf(env: Env, rd: Reader, s: State, d: Delta, text: string, previous: set<Id>, cites: Cites, k: nat, now: nat)
    requires d.kind == DecisionEvent
    ensures FirstLaws(env, rd, s, ResolveQuestionPhase(rd, DecidePhase(env, rd, s, d, text, previous, cites, k, now), d, text), d, text, previous, cites, k, now)
  {
    hide LogOf, DecisionOutcome, QuestionResolved, DecidePhase, ResolveQuestionPhase, TodoOutcome, ConstraintOutcome;
    var s1 := DecidePhase(env, rd, s, d, text, previous, cites, k, now);
    DecisionIs(env, rd, s, d, text, previous, cites, k, now);
    QuestionResolvedIs(rd, s1, d, text);
    Spared(s, s1, {Decisions});
    Spared(s1, ResolveQuestionPhase(rd, s1, d, text), {OpenQuestions});
    SparesTwice(s, s1, ResolveQuestionPhase(rd, s1, d, text), {Decisions}, {OpenQuestions});
  }

  lemma ConstraintHalf(env: Env, rd: Reader, s: State, d: Delta, text: string, previous: set<Id>, cites: Cites, k: nat, now: nat)
    requires d.kind == ConstraintEvent
    ensures FirstLaws(env, rd, s, if d.importance >= 0.75 then ConstraintPhase(env, rd, s, d, text, cites, k, now) else s, d, text, previous, cites, k, now)
  {
    hide LogOf, ConstraintPhase, Upserted, Stated;
    if d.importance >= 0.75 {
      ConstraintIs(env, rd, s, d, text, cites, k, now);
      Spared(s, ConstraintPhase(env, rd, s, d, text, cites, k, now), {Constraints});
    }
  }

  lemma TodoHalf(env: Env, rd: Reader, s: State, d: Delta, text: string, previous: set<Id>, cites: Cites, k: nat, now: nat)
    requires d.kind == TodoEvent
    ensures FirstLaws(env, rd, s, TodoPhase(rd, s, d, text, cites, k), d, text, previous, cites, k, now)
  {
    hide LogOf, TodoPhase, TodoOutcome;
    TodoIs(rd, s, d, text, cites, k);
    Spared(s, TodoPhase(rd, s, d, text, cites, k), {Todos});
  }

  /** The first half after the goal. */
  function KindPhase(env: Env, rd: Reader, s: State, d: Delta, text: string, previous: set<Id>, cites: Cites, k: nat, now: nat): State {
    match d.kind
    case DecisionEvent => ResolveQuestionPhase(rd, DecidePhase(env, rd, s, d, text, previous, cites, k, now), d, text)
    case ConstraintEvent => if d.importance >= 0.75 then ConstraintPhase(env, rd, s, d, text, cites, k, now) else s
    case TodoEvent => TodoPhase(rd, s, d, text, cites, k)
    case _ => s
  }

  lemma KindPhaseIs(env: Env, rd: Reader, s: State, d: Delta, text: string, previous: set<Id>, cites: Cites, k: nat, now: nat)
    ensures FirstLaws(env, rd, s, KindPhase(env, rd, s, d, text, previous, cites, k, now), d, text, previous, cites, k, now)
  {
    hide FirstLaws, TodoPhase, ConstraintPhase, DecidePhase, ResolveQuestionPhase;
    match d.kind
    case DecisionEvent => DecisionHalf(env, rd, s, d, text, previous, cites, k, now);
    case ConstraintEvent => ConstraintHalf(env, rd, s, d, text, previous, cites, k, now);
    case TodoEvent => TodoHalf(env, rd, s, d, text, previous, cites, k, now);
    case _ => OtherHalf(env, rd, s, d, text, previous, cites, k, now);
  }

  lemma OtherHalf(env: Env, rd: Reader, s: State, d: Delta, text: string, previous: set<Id>, cites: Cites, k: nat, now: nat)
    requires d.kind != DecisionEvent && d.kind != ConstraintEvent && d.kind != TodoEvent
    ensures FirstLaws(env, rd, s, s, d, text, previous, cites, k, now)
  {
    hide LogOf;
  }

  /** The second half, from a state the first one has left. */
  ghost predicate SecondLaws(rd: Reader, s: State, s': State, d: Delta, text: string, cites: Cites, k: nat) {
    && (d.kind != DecisionEvent ==> QuestionsLaw(rd, s, s', d, text, cites, k))
    && VolatileLaw(rd, s, s', d, text, cites, k)
    && RisksLaw(rd, s, s', d, text, cites, k)
    && Spares(s, s', (if d.kind == QuestionEvent then {OpenQuestions} else {}) + {VolatileContext, Risks})
  }

  lemma TakenInIs(rd: Reader, s: State, d: Delta, text: string, cites: Cites, k: nat)
    requires !Stale(rd, s, d, text)
    ensures var s' := BeforeRisks(rd, s, d, text, cites, k);
            && (d.kind != DecisionEvent ==> QuestionsLaw(rd, s, s', d, text, cites, k))
            && LineTakenIn(rd, s, s'.volatileContext, LogOf(s', VolatileContext), d, text, cites, k)
            && Spares(s, s', if d.kind == QuestionEvent then {OpenQuestions} else if CarriesLine(rd, d, text) then {VolatileContext} else {})
  {
    hide LogOf, Upserted, QuestionPhase, VolatilePhase, Bare;
    if d.kind == QuestionEvent {
      QuestionIs(rd, s, d, text, cites, k);
      Spared(s, QuestionPhase(rd, s, d, text, cites, k), {OpenQuestions});
    } else if CarriesLine(rd, d, text) {
      VolatileIs(rd, s, d, text, cites, k);
      Spared(s, VolatilePhase(rd, s, d, text, cites, k), {VolatileContext});
    }
  }

  lemma RisksPartIs(rd: Reader, s: State, d: Delta, text: string, cites: Cites, k: nat)
    ensures var s' := RisksPart(rd, s, d, text, cites, k);
            && Spares(s, s', {VolatileContext, Risks}) && LogOf(s', VolatileContext) == LogOf(s, VolatileContext)
            && (if ReportsResolved(rd, d, text) then LineCleared(rd, s.risks, s.volatileContext, s'.volatileContext, text) else s'.volatileContext == s.volatileContext)
            && exists risks: seq<string>, log: seq<Change> :: RisksAfter(rd, s, risks, log, s'.resolvedRisks, d, text)
                 && if rd.mentionsRisk(text) && rd.normalize(Bare(rd, text)) !in s'.resolvedRisks then
                      Upserted(Risks, risks, log, s'.risks, LogOf(s', Risks), text, d.eventId,
                               v => FindsValue(rd, risks, text, 0.7, v), v => cites(k, Risks, v))
                    else s'.risks == risks && LogOf(s', Risks) == log
  {
    hide LogOf, Upserted, LineCleared, RiskResolved, ResolveRiskPhase, RiskPhase, Bare, NoteKey;
    var s1 := if Resolves(rd, d, text) then ResolveRiskPhase(rd, s, d, text) else s;
    BareIs(rd, text);
    if Resolves(rd, d, text) {
      RiskResolvedIs(rd, s, d, text);
      LineClearedIs(rd, s, d, text);
    }
    RiskIs(rd, s1, d, text, cites, k);
    assert RisksAfter(rd, s, s1.risks, LogOf(s1, Risks), s1.resolvedRisks, d, text);
  }

  /** What follows the first half. */
  function Rest(rd: Reader, s: State, d: Delta, text: string, cites: Cites, k: nat): State {
    if AlreadyResolved(rd, s, d, text) then s else RisksPart(rd, BeforeRisks(rd, s, d, text, cites, k), d, text, cites, k)
  }

  lemma StaleIs(rd: Reader, s: State, d: Delta, text: string)
    ensures AlreadyResolved(rd, s, d, text) <==> Stale(rd, s, d, text)
  {
    BareIs(rd, text);
  }

  lemma RestIs(rd: Reader, s: State, d: Delta, text: string, cites: Cites, k: nat)
    ensures SecondLaws(rd, s, Rest(rd, s, d, text, cites, k), d, text, cites, k)
  {
    hide LogOf, Upserted, LineCleared, LineTakenIn, RisksAfter, BeforeRisks, RisksPart, AlreadyResolved, Stale, CarriesLine, ReportsResolved, QuestionsLaw, Content;
    StaleIs(rd, s, d, text);
    if Stale(rd, s, d, text) {
      StaleQuestion(rd, s, d, text, cites, k);
    } else {
      var s1, s' := BeforeRisks(rd, s, d, text, cites, k), Rest(rd, s, d, text, cites, k);
      var touched := if d.kind == QuestionEvent then {OpenQuestions} else if CarriesLine(rd, d, text) then {VolatileContext} else {};
      TakenInIs(rd, s, d, text, cites, k);
      RisksPartIs(rd, s1, d, text, cites, k);
      Spared(s, s1, touched);
      Spared(s1, s', {VolatileContext, Risks});
      SparesTwice(s, s1, s', touched, {VolatileContext, Risks});
      QuestionsStay(rd, s, s1, s', d, text, cites, k);
      RisksFrom(rd, s, s1, d, text);
      assert LineTakenIn(rd, s, s1.volatileContext, LogOf(s', VolatileContext), d, text, cites, k);
    }
  }

  lemma StaleQuestion(rd: Reader, s: State, d: Delta, text: string, cites: Cites, k: nat)
    requires Stale(rd, s, d, text)
    ensures d.kind != DecisionEvent ==> QuestionsLaw(rd, s, s, d, text, cites, k)
  {
  }

  lemma QuestionsStay(rd: Reader, s: State, s1: State, s': State, d: Delta, text: string, cites: Cites, k: nat)
    requires s'.openQuestions == s1.openQuestions && LogOf(s', OpenQuestions) == LogOf(s1, OpenQuestions) && s'.resolvedQuestions == s1.resolvedQuestions
    ensures QuestionsLaw(rd, s, s1, d, text, cites, k) ==> QuestionsLaw(rd, s, s', d, text, cites, k)
  {
    hide LogOf, Upserted, QuestionResolved, Stale;
  }

  lemma RisksFrom(rd: Reader, s: State, s1: State, d: Delta, text: string)
    requires s1.risks == s.risks && LogOf(s1, Risks) == LogOf(s, Risks) && s1.resolvedRisks == s.resolvedRisks
    ensures forall risks: seq<string>, log: seq<Change>, resolved: set<string> ::
              RisksAfter(rd, s1, risks, log, resolved, d, text) <==> RisksAfter(rd, s, risks, log, resolved, d, text)
  {
    hide LogOf, RiskResolved, ReportsResolved;
  }

  // ---------------------------------------------------------------- what a delta does, field by field

  /** The part of a state one law speaks of. */
  ghost predicate Alike(s: State, s0: State, field: Field) {
    Content(s0, field) == Content(s, field) && LogOf(s0, field) == LogOf(s, field)
  }

  lemma GoalStays(env: Env, rd: Reader, s: State, s0: State, s': State, d: Delta, text: string, cites: Cites, k: nat)
    requires Alike(s0, s', Goal) && GoalLaw(env, rd, s, s0, d, text, cites, k)
    ensures GoalLaw(env, rd, s, s', d, text, cites, k)
  {
    hide LogOf, GoalOutcome;
    assert [s0.goal][0] == [s'.goal][0];
  }

  lemma DecisionsStay(env: Env, rd: Reader, s: State, s0: State, s1: State, s': State, d: Delta, text: string, previous: set<Id>, cites: Cites, k: nat, now: nat)
    requires Alike(s, s0, Decisions) && Alike(s1, s', Decisions) && s0.ledger == s.ledger && s'.ledger == s1.ledger
    requires DecisionsLaw(env, rd, s0, s1, d, text, previous, cites, k, now)
    ensures DecisionsLaw(env, rd, s, s', d, text, previous, cites, k, now)
  {
    hide LogOf, DecisionOutcome;
  }

  lemma ConstraintsStay(env: Env, rd: Reader, s: State, s0: State, s1: State, s': State, d: Delta, text: string, cites: Cites, k: nat, now: nat)
    requires Alike(s, s0, Constraints) && Alike(s1, s', Constraints) && s0.ledger == s.ledger && s'.ledger == s1.ledger
    requires ConstraintsLaw(env, rd, s0, s1, d, text, cites, k, now)
    ensures ConstraintsLaw(env, rd, s, s', d, text, cites, k, now)
  {
    hide LogOf, ConstraintOutcome;
  }

  lemma TodosStay(rd: Reader, s: State, s0: State, s1: State, s': State, d: Delta, text: string, cites: Cites, k: nat)
    requires Alike(s, s0, Todos) && Alike(s1, s', Todos) && TodosLaw(rd, s0, s1, d, text, cites, k)
    ensures TodosLaw(rd, s, s', d, text, cites, k)
  {
    hide LogOf, TodoOutcome;
  }

  lemma QuestionsAre(rd: Reader, s: State, s0: State, s1: State, s': State, d: Delta, text: string, cites: Cites, k: nat)
    requires Alike(s, s0, OpenQuestions) && Alike(s1, s', OpenQuestions)
    requires s0.resolvedQuestions == s.resolvedQuestions && s'.resolvedQuestions == s1.resolvedQuestions
    requires Stale(rd, s0, d, text) == Stale(rd, s, d, text) && QuestionsLaw(rd, s0, s1, d, text, cites, k)
    ensures QuestionsLaw(rd, s, s', d, text, cites, k)
  {
    hide LogOf, QuestionResolved, Upserted, Stale;
  }

  lemma NotesStay(rd: Reader, s: State, s1: State, s': State, d: Delta, text: string, cites: Cites, k: nat)
    requires Alike(s, s1, VolatileContext) && Alike(s, s1, Risks) && s1.resolvedRisks == s.resolvedRisks
    requires Stale(rd, s1, d, text) == Stale(rd, s, d, text) && VolatileLaw(rd, s1, s', d, text, cites, k) && RisksLaw(rd, s1, s', d, text, cites, k)
    ensures VolatileLaw(rd, s, s', d, text, cites, k) && RisksLaw(rd, s, s', d, text, cites, k)
  {
    hide LogOf, Upserted, LineCleared, RiskResolved, Stale, CarriesLine, ReportsResolved, Bare, RisksAfter, LineTakenIn;
    RisksFrom(rd, s, s1, d, text);
    LinesFrom(rd, s, s1, d, text, cites, k);
  }

  lemma LinesFrom(rd: Reader, s: State, s1: State, d: Delta, text: string, cites: Cites, k: nat)
    requires Alike(s, s1, VolatileContext)
    ensures forall lines: seq<string>, log: seq<Change> :: LineTakenIn(rd, s1, lines, log, d, text, cites, k) <==> LineTakenIn(rd, s, lines, log, d, text, cites, k)
  {
    hide LogOf, Upserted, CarriesLine;
  }

  lemma StaleStays(rd: Reader, s: State, s1: State, d: Delta, text: string)
    requires (d.kind == QuestionEvent ==> s1.resolvedQuestions == s.resolvedQuestions) && s1.resolvedRisks == s.resolvedRisks
    ensures Stale(rd, s1, d, text) == Stale(rd, s, d, text)
  {
  }

  /** The delta's phases: the goal, what its kind touches, the rest. */
  lemma InPhases(env: Env, rd: Reader, s: State, d: Delta, previous: set<Id>, cites: Cites, k: nat, now: nat)
    ensures var text := env.lex.trim(d.content);
            MergeDelta(env, rd, s, d, previous, cites, k, now)
              == Rest(rd, KindPhase(env, rd, GoalPhase(rd, env.lex, s, d, text, cites, k), d, text, previous, cites, k, now), d, text, cites, k)
  {
    hide GoalPhase, DecidePhase, ResolveQuestionPhase, ConstraintPhase, TodoPhase, AlreadyResolved, RisksPart, BeforeRisks;
  }

  /** Every law of the delta, at its two ends. */
  ghost predicate DeltaLaws(env: Env, rd: Reader, s: State, s': State, d: Delta, text: string, previous: set<Id>, cites: Cites, k: nat, now: nat) {
    && GoalLaw(env, rd, s, s', d, text, cites, k)
    && DecisionsLaw(env, rd, s, s', d, text, previous, cites, k, now)
    && ConstraintsLaw(env, rd, s, s', d, text, cites, k, now)
    && TodosLaw(rd, s, s', d, text, cites, k)
    && QuestionsLaw(rd, s, s', d, text, cites, k)
    && VolatileLaw(rd, s, s', d, text, cites, k)
    && RisksLaw(rd, s, s', d, text, cites, k)
  }

  /** What one delta does to the goal, to each list with its log, and to the registry. */
  lemma DeltaIs(env: Env, rd: Reader, s: State, d: Delta, previous: set<Id>, cites: Cites, k: nat, now: nat)
    ensures DeltaLaws(env, rd, s, MergeDelta(env, rd, s, d, previous, cites, k, now), d, env.lex.trim(d.content), previous, cites, k, now)
  {
    hide GoalPhase, KindPhase, Rest, MergeDelta, GoalLaw, DecisionsLaw, ConstraintsLaw, TodosLaw, QuestionsLaw, VolatileLaw, RisksLaw, Stale, LogOf;
    var text := env.lex.trim(d.content);
    var s0 := GoalPhase(rd, env.lex, s, d, text, cites, k);
    var s1 := KindPhase(env, rd, s0, d, text, previous, cites, k, now);
    var s' := Rest(rd, s1, d, text, cites, k);
    InPhases(env, rd, s, d, previous, cites, k, now);
    GoalPhaseIs(env, rd, s, d, text, cites, k);
    KindPhaseIs(env, rd, s0, d, text, previous, cites, k, now);
    RestIs(rd, s1, d, text, cites, k);
    StaleStays(rd, s, s0, d, text);
    StaleStays(rd, s0, s1, d, text);
    GoalStays(env, rd, s, s0, s', d, text, cites, k);
    DecisionsStay(env, rd, s, s0, s1, s', d, text, previous, cites, k, now);
    ConstraintsStay(env, rd, s, s0, s1, s', d, text, cites, k, now);
    TodosStay(rd, s, s0, s1, s', d, text, cites, k);
    if d.kind == DecisionEvent {
      QuestionsAre(rd, s, s0, s1, s', d, text, cites, k);
    } else {
      QuestionsAre(rd, s, s1, s', s', d, text, cites, k);
    }
    NotesStay(rd, s, s1, s', d, text, cites, k);
  }
}
