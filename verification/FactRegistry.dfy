/**
 * The fact registry and the note write path (packages/core/src/digest/fact-registry.ts).
 *
 * A ledger is an append-only registry of facts plus the per-facet lists of lines shown to the
 * reader. The functions below say what each mutator computes; the methods of module LedgerWrites
 * perform it in place.
 */
module FactRegistry {
  import opened Options
  import opened Seqs

  type Id = string
  type Key = string

  datatype Kind = Decision | Constraint | Profile
  datatype SourceType = EventSource | DocumentSource
  datatype Reason = CapEvicted | Forgotten | ConsolidationDropped
  datatype Retirement = Retirement(at: nat, reason: Reason)
  datatype Origin = NoteOrigin | OtherOrigin(name: string)

  datatype Entry = Entry(
    id: Id,
    content: string,
    kind: Kind,
    confidence: real,
    addedAt: nat,
    evidenceId: Id,
    evidenceType: SourceType,
    facet: Option<string>,
    entities: seq<string>,
    origin: Option<Origin>,
    supersededBy: Option<Id>,
    retired: Option<Retirement>)

  datatype Ledger = Ledger(registry: seq<Entry>, profile: map<string, seq<string>>)

  const NOTES := "notes"

  /** The text functions: trimming, canonical form, the display-key hash, the two fuzzy matchers. */
  datatype Lexicon = Lexicon(
    trim: string -> string,
    canon: string -> string,
    hash: (string, string) -> Key,
    sameFact: (string, string) -> bool,
    isRevision: (string, string) -> bool,
    stripIds: string -> string)

  /** A facet pack, seen through the accessors the engine reads it with. */
  datatype Pack = Pack(
    cap: string -> nat,
    group: string -> Option<string>,
    writeProtected: string -> bool,
    documentAuthority: string -> bool,
    registered: string -> bool,
    route: string -> Option<string>)

  /** The tenant's pack, and the deployment's default one (which pruning falls back to). */
  datatype Env = Env(lex: Lexicon, pack: Pack, defaultPack: Pack)

  // ---------------------------------------------------------------- reading

  predicate Active(e: Entry) {
    e.supersededBy.None? && e.retired.None?
  }

  function Lines(s: Ledger, facet: string): seq<string> {
    if facet in s.profile then s.profile[facet] else []
  }

  function SetLines(s: Ledger, facet: string, lines: seq<string>): Ledger {
    s.(profile := s.profile[facet := lines])
  }

  function FactKey(lex: Lexicon, group: string, text: string): Key {
    lex.hash(lex.canon(group), lex.canon(text))
  }

  predicate KeyedIn(lex: Lexicon, group: Option<string>, keys: set<Key>, text: string) {
    group.Some? && FactKey(lex, group.value, text) in keys
  }

  /** Whether a note's text is among the forgotten ones, under the tenant's display group. */
  predicate NoteForgotten(env: Env, keys: set<Key>, text: string) {
    KeyedIn(env.lex, env.pack.group(NOTES), keys, text)
  }

  /** The last entry of `r` with the id, as a `Map` built from the registry holds it. */
  function ById(r: seq<Entry>, id: Id): (i: nat)
    ensures i <= |r|
    ensures i < |r| ==> r[i].id == id
    ensures i == |r| ==> forall j :: 0 <= j < |r| ==> r[j].id != id
  {
    Last(r, (e: Entry) => e.id == id)
  }

  /** How many entries name `id` as their replacement. */
  function Pointers(r: seq<Entry>, id: Id): nat {
    if r == [] then 0
    else Pointers(r[..|r| - 1], id) + if r[|r| - 1].supersededBy == Some(id) then 1 else 0
  }

  predicate CallerShape(e: Entry) {
    e.kind == Profile && e.facet == Some(NOTES) && e.confidence == 0.9
  }

  predicate IsCallerNote(e: Entry, r: seq<Entry>) {
    if e.origin.Some? then e.origin.value == NoteOrigin
    else CallerShape(e) && Pointers(r, e.id) <= 1
  }

  /** Index `i` holds an active note a caller wrote. */
  predicate HeldNote(r: seq<Entry>, i: nat) {
    i < |r| && Active(r[i]) && r[i].facet == Some(NOTES) && IsCallerNote(r[i], r)
  }

  predicate BackedByCaller(lex: Lexicon, r: seq<Entry>, facet: string, text: string, i: nat) {
    i < |r| && Active(r[i]) && r[i].facet == Some(facet)
    && lex.canon(r[i].content) == lex.canon(text) && IsCallerNote(r[i], r)
  }

  predicate IsCallerNoteText(lex: Lexicon, r: seq<Entry>, facet: string, text: string) {
    exists i :: 0 <= i < |r| && BackedByCaller(lex, r, facet, text, i)
  }

  /** The lines of a facet that caller notes back. */
  function CallerLines(lex: Lexicon, r: seq<Entry>, facet: string, lines: seq<string>): seq<string> {
    Filter(lines, t => IsCallerNoteText(lex, r, facet, t))
  }

  predicate InRegistry(lex: Lexicon, r: seq<Entry>, content: string) {
    exists e :: e in r && e.supersededBy.None? && lex.sameFact(e.content, content)
  }

  const MAX_FACT_CHARS := 500

  predicate FactSized(lex: Lexicon, content: string) {
    |lex.trim(content)| <= MAX_FACT_CHARS
  }

  // ---------------------------------------------------------------- retiring and superseding

  /** The entry `retireFact` picks: the first active one of the facet, or of no facet, that matches. */
  function RetireTarget(lex: Lexicon, r: seq<Entry>, content: string, facet: string, exact: bool, spareCallers: bool): (i: nat)
    ensures i <= |r|
    ensures i < |r| ==> Retirable(lex, r, content, facet, exact, spareCallers, r[i])
    ensures forall j :: 0 <= j < i ==> !Retirable(lex, r, content, facet, exact, spareCallers, r[j])
  {
    First(r, e => Retirable(lex, r, content, facet, exact, spareCallers, e))
  }

  predicate Retirable(lex: Lexicon, r: seq<Entry>, content: string, facet: string, exact: bool, spareCallers: bool, e: Entry) {
    && Active(e)
    && (e.facet.None? || e.facet == Some(facet))
    && !(spareCallers && IsCallerNote(e, r))
    && if exact then lex.canon(e.content) == lex.canon(content) else lex.sameFact(e.content, content)
  }

  function Retire(r: seq<Entry>, i: nat, now: nat, reason: Reason): (r': seq<Entry>)
    ensures |r'| == |r|
  {
    if i < |r| then r[i := r[i].(retired := Some(Retirement(now, reason)))] else r
  }

  function RetireFact(lex: Lexicon, s: Ledger, content: string, reason: Reason, now: nat, facet: string, exact: bool, spareCallers: bool): Ledger {
    s.(registry := Retire(s.registry, RetireTarget(lex, s.registry, content, facet, exact, spareCallers), now, reason))
  }

  datatype Evidence = Evidence(id: Id, source: SourceType)

  function NewEntry(id: Id, content: string, kind: Kind, confidence: real, now: nat, ev: Evidence, facet: Option<string>, entities: seq<string>): Entry {
    Entry(id, content, kind, confidence, now, ev.id, ev.source, facet, entities, None, None, None)
  }

  function Promote(lex: Lexicon, s: Ledger, content: string, kind: Kind, confidence: real, ev: Evidence, id: Id, facet: Option<string>, now: nat, entities: seq<string>): Ledger {
    if InRegistry(lex, s.registry, content) || !FactSized(lex, content) then s
    else s.(registry := s.registry + [NewEntry(id, content, kind, confidence, now, ev, facet, entities)])
  }

  /** The entry `supersedeFact` picks when told to leave caller notes alone. */
  function SupersedeTarget(lex: Lexicon, r: seq<Entry>, content: string): (i: nat)
    ensures i <= |r|
    ensures i < |r| ==> Supersedable(lex, r, content, r[i])
    ensures forall j :: 0 <= j < i ==> !Supersedable(lex, r, content, r[j])
  {
    First(r, e => Supersedable(lex, r, content, e))
  }

  predicate Supersedable(lex: Lexicon, r: seq<Entry>, content: string, e: Entry) {
    e.supersededBy.None? && !IsCallerNote(e, r) && lex.sameFact(e.content, content)
  }

  function Supersede(lex: Lexicon, s: Ledger, content: string, newContent: string, ev: Evidence, id: Id, facet: string, confidence: real, entities: seq<string>, now: nat): Ledger {
    var i := SupersedeTarget(lex, s.registry, content);
    if i == |s.registry| then s
    else s.(registry := s.registry[i := s.registry[i].(supersededBy := Some(id))]
                        + [NewEntry(id, newContent, Profile, confidence, now, ev, Some(facet), entities)])
  }

  // ---------------------------------------------------------------- forgetting notes

  predicate ForgottenHere(env: Env, keys: set<Key>, e: Entry) {
    Active(e) && e.facet == Some(NOTES) && NoteForgotten(env, keys, e.content)
  }

  function StampForgotten(env: Env, keys: set<Key>, now: nat, e: Entry): Entry {
    if ForgottenHere(env, keys, e) then e.(retired := Some(Retirement(now, Forgotten))) else e
  }

  function StampAll(env: Env, keys: set<Key>, now: nat, r: seq<Entry>): (r': seq<Entry>)
    ensures |r'| == |r|
    ensures forall i :: 0 <= i < |r| ==> r'[i] == StampForgotten(env, keys, now, r[i])
  {
    seq(|r|, i requires 0 <= i < |r| => StampForgotten(env, keys, now, r[i]))
  }

  function KeptNotes(env: Env, keys: set<Key>, lines: seq<string>): seq<string> {
    Filter(lines, t => !NoteForgotten(env, keys, t))
  }

  /** `retireForgottenNotes`: the new ledger, and how many lines and entries it took out. */
  function RetireForgotten(env: Env, s: Ledger, keys: set<Key>, now: nat): (Ledger, nat) {
    if keys == {} || env.pack.group(NOTES).None? then (s, 0)
    else
      var kept := KeptNotes(env, keys, Lines(s, NOTES));
      var profile := if NOTES in s.profile then s.profile[NOTES := kept] else s.profile;
      (Ledger(StampAll(env, keys, now, s.registry), profile),
       |Lines(s, NOTES)| - |kept| + Count(s.registry, e => ForgottenHere(env, keys, e)))
  }

  // ---------------------------------------------------------------- writing a note

  datatype Stamp = Stamp(id: Id, evidenceId: Id, now: nat)
  datatype NoteResult = NoteResult(state: Ledger, changed: bool, superseded: Option<string>)

  predicate HasLine(lex: Lexicon, lines: seq<string>, text: string) {
    exists t :: t in lines && lex.canon(t) == lex.canon(text)
  }

  function NoteEntry(value: string, stamp: Stamp): Entry {
    Entry(stamp.id, value, Profile, 0.9, stamp.now, stamp.evidenceId, EventSource, Some(NOTES), [], Some(NoteOrigin), None, None)
  }

  /** `registerNote`: append the note and, when `prior` is an index, link that entry to it. */
  function Register(s: Ledger, value: string, stamp: Stamp, prior: nat): Ledger {
    var linked := if prior < |s.registry| then s.registry[prior := s.registry[prior].(supersededBy := Some(stamp.id))] else s.registry;
    s.(registry := linked + [NoteEntry(value, stamp)])
  }

  predicate ActiveNote(lex: Lexicon, text: string, e: Entry) {
    Active(e) && e.facet == Some(NOTES) && lex.canon(e.content) == lex.canon(text)
  }

  function ActiveNoteIndex(lex: Lexicon, r: seq<Entry>, text: string): (i: nat)
    ensures i <= |r|
    ensures i < |r| ==> ActiveNote(lex, text, r[i])
    ensures forall j :: 0 <= j < i ==> !ActiveNote(lex, text, r[j])
  {
    First(r, e => ActiveNote(lex, text, e))
  }

  predicate ForgottenVersion(lex: Lexicon, value: string, e: Entry) {
    e.retired.Some? && e.retired.value.reason == Forgotten && e.supersededBy.None?
    && e.facet == Some(NOTES) && lex.isRevision(e.content, value)
  }

  /** The newest note retired as forgotten that `value` revises. */
  function ForgottenPrior(lex: Lexicon, r: seq<Entry>, value: string): (i: nat)
    ensures i <= |r|
    ensures i < |r| ==> ForgottenVersion(lex, value, r[i])
  {
    Last(r, e => ForgottenVersion(lex, value, e))
  }

  function RevisedLine(lex: Lexicon, lines: seq<string>, value: string): (i: nat)
    ensures i <= |lines|
    ensures i < |lines| ==> lex.isRevision(lines[i], value)
    ensures forall j :: 0 <= j < i ==> !lex.isRevision(lines[j], value)
  {
    First(lines, t => lex.isRevision(t, value))
  }

  /** Evict line `i` of the notes and retire the entry behind it. */
  function EvictNote(lex: Lexicon, s: Ledger, i: nat, now: nat): Ledger
    requires i < |Lines(s, NOTES)|
  {
    var lines := Lines(s, NOTES);
    RetireFact(lex, SetLines(s, NOTES, RemoveAt(lines, i)), lines[i], CapEvicted, now, NOTES, true, false)
  }

  /** Make room for one more note: the oldest line goes when the facet is full. */
  function MakeRoom(env: Env, s: Ledger, now: nat): Ledger {
    var lines := Lines(s, NOTES);
    if |lines| < env.pack.cap(NOTES) || lines == [] then s
    else if lines[0] == "" then SetLines(s, NOTES, lines[1..])
    else EvictNote(env.lex, s, 0, now)
  }

  /** The note replaces line `i`, which it revises, and the registry links the old version to it. */
  function Revise(lex: Lexicon, s: Ledger, i: nat, value: string, stamp: Stamp): NoteResult
    requires i < |Lines(s, NOTES)|
  {
    var lines := Lines(s, NOTES);
    var prior := ActiveNoteIndex(lex, s.registry, lines[i]);
    NoteResult(Register(SetLines(s, NOTES, lines[i := value]), value, stamp, prior), true, Some(lines[i]))
  }

  /** The ledger with `value` as its newest line, an older one evicted when the facet is full. */
  function Held(env: Env, s: Ledger, value: string, now: nat): Ledger {
    var room := MakeRoom(env, s, now);
    SetLines(room, NOTES, Lines(room, NOTES) + [value])
  }

  /** The note takes a slot of its own. */
  function Accumulate(env: Env, s: Ledger, value: string, stamp: Stamp): NoteResult {
    var prior := ForgottenPrior(env.lex, s.registry, value);
    var held := Held(env, s, value, stamp.now);
    if prior < |s.registry| then
      NoteResult(Register(held, value, stamp, prior), true, Some(s.registry[prior].content))
    else if ActiveNoteIndex(env.lex, held.registry, value) < |held.registry| then
      NoteResult(held, true, None)
    else
      NoteResult(Register(held, value, stamp, |held.registry|), true, None)
  }

  /** `addNoteFact` once the text is trimmed and forgotten notes are out of the way. */
  function WriteNote(env: Env, s: Ledger, healed: bool, value: string, stamp: Stamp, keys: set<Key>): NoteResult {
    var lines := Lines(s, NOTES);
    if NoteForgotten(env, keys, value) || HasLine(env.lex, lines, value) then NoteResult(s, healed, None)
    else
      var i := RevisedLine(env.lex, lines, value);
      if i < |lines| then Revise(env.lex, s, i, value, stamp) else Accumulate(env, s, value, stamp)
  }

  /** `addNoteFact`. No forgotten keys and an empty set of them behave alike. */
  function AddNote(env: Env, s: Ledger, text: string, stamp: Stamp, keys: set<Key>): NoteResult {
    var value := env.lex.trim(text);
    if value == "" then NoteResult(s, false, None)
    else
      var (healed, count) := RetireForgotten(env, s, keys, stamp.now);
      WriteNote(env, healed, count > 0, value, stamp, keys)
  }
}
