/**
 * What every registry mutator keeps: the registry is append-only, a fact's statement never
 * changes, its two status fields are written at most once, and whether an entry is a caller's
 * note does not depend on links to newly issued ids.
 */
module RegistryLaws {
  import opened Options
  import opened Seqs
  import opened FactRegistry

  /** The same statement, whatever became of it. */
  predicate SameStatement(e: Entry, e': Entry) {
    e' == e.(supersededBy := e'.supersededBy, retired := e'.retired)
  }

  /** The same statement, with each status field written at most once. */
  predicate Evolves(e: Entry, e': Entry) {
    && SameStatement(e, e')
    && (e.supersededBy.Some? ==> e'.supersededBy == e.supersededBy)
    && (e.retired.Some? ==> e'.retired == e.retired)
  }

  /** `r'` extends `r`; everything new in it, entries and links alike, uses ids from `issued`. */
  predicate Grows(r: seq<Entry>, r': seq<Entry>, issued: set<Id>) {
    && |r| <= |r'|
    && (forall i :: 0 <= i < |r| ==> Evolves(r[i], r'[i]))
    && (forall i :: 0 <= i < |r| && r'[i].supersededBy.Some? && r[i].supersededBy.None? ==> r'[i].supersededBy.value in issued)
    && (forall i :: |r| <= i < |r'| ==> r'[i].id in issued)
    && (forall i :: |r| <= i < |r'| && r'[i].supersededBy.Some? ==> r'[i].supersededBy.value in issued)
  }

  /** Only statements and retirements may differ. */
  predicate SameLinks(r: seq<Entry>, r': seq<Entry>) {
    |r'| == |r| && forall i :: 0 <= i < |r| ==> r'[i].id == r[i].id && r'[i].supersededBy == r[i].supersededBy
  }

  predicate UniqueIds(r: seq<Entry>) {
    forall i, j :: 0 <= i < j < |r| ==> r[i].id != r[j].id
  }

  function Ids(r: seq<Entry>): set<Id> {
    set e | e in r :: e.id
  }

  /** Every id the registry mentions, as an entry's own or as a link's target. */
  function Names(r: seq<Entry>): set<Id> {
    Ids(r) + set e | e in r && e.supersededBy.Some? :: e.supersededBy.value
  }

  lemma GrowsTwice(a: seq<Entry>, b: seq<Entry>, c: seq<Entry>, f: set<Id>, g: set<Id>)
    requires Grows(a, b, f) && Grows(b, c, g)
    ensures Grows(a, c, f + g)
  {
    forall i | 0 <= i < |a| ensures Evolves(a[i], c[i]) {
      assert Evolves(a[i], b[i]) && Evolves(b[i], c[i]);
    }
    forall i | |a| <= i < |c| ensures c[i].id in f + g {
      if i < |b| { assert Evolves(b[i], c[i]); }
    }
    forall i | |a| <= i < |c| && c[i].supersededBy.Some? ensures c[i].supersededBy.value in f + g {
      if i < |b| { assert Evolves(b[i], c[i]); }
    }
  }

  /** An entry that left the active set stays out of it. */
  lemma InactiveForGood(r: seq<Entry>, r': seq<Entry>, issued: set<Id>, i: nat)
    requires Grows(r, r', issued) && i < |r|
    ensures Active(r'[i]) ==> Active(r[i])
  {
    assert Evolves(r[i], r'[i]);
  }

  lemma {:induction false} PointersOfUnused(r: seq<Entry>, r': seq<Entry>, id: Id)
    requires |r| <= |r'|
    requires forall i :: 0 <= i < |r| ==> (r'[i].supersededBy == Some(id) <==> r[i].supersededBy == Some(id))
    requires forall i :: |r| <= i < |r'| ==> r'[i].supersededBy != Some(id)
    ensures Pointers(r', id) == Pointers(r, id)
    decreases |r'|
  {
    if |r'| > 0 {
      var n := |r'| - 1;
      if |r'| == |r| {
        PointersOfUnused(r[..n], r'[..n], id);
      } else {
        PointersOfUnused(r, r'[..n], id);
      }
    }
  }

  /** Caller status is stable under growth that links to fresh ids only. */
  lemma CallerStable(r: seq<Entry>, r': seq<Entry>, issued: set<Id>, e: Entry)
    requires Grows(r, r', issued) && e.id !in issued
    ensures IsCallerNote(e, r') == IsCallerNote(e, r)
  {
    forall i | 0 <= i < |r| ensures r'[i].supersededBy == Some(e.id) <==> r[i].supersededBy == Some(e.id) {
      assert Evolves(r[i], r'[i]);
    }
    PointersOfUnused(r, r', e.id);
  }

  lemma IdsNamed(r: seq<Entry>)
    ensures Ids(r) <= Names(r)
  {
  }

  /** What is an active caller's note after growth was one before. */
  lemma HeldBefore(r: seq<Entry>, r': seq<Entry>, issued: set<Id>, i: nat)
    requires Grows(r, r', issued) && Ids(r) !! issued && i < |r| && HeldNote(r', i)
    ensures HeldNote(r, i) && r[i].content == r'[i].content
  {
    assert Evolves(r[i], r'[i]) && r[i] in r && r[i].id in Ids(r);
    CallerStable(r, r', issued, r'[i]);
    PointersKept(r, r', issued, i);
  }

  lemma PointersKept(r: seq<Entry>, r': seq<Entry>, issued: set<Id>, i: nat)
    requires Grows(r, r', issued) && i < |r|
    ensures IsCallerNote(r'[i], r) == IsCallerNote(r[i], r)
  {
    assert Evolves(r[i], r'[i]);
  }

  /** An entry growth left alone is an active caller's note after it if and only if it was one. */
  lemma HeldStable(r: seq<Entry>, r': seq<Entry>, issued: set<Id>, i: nat)
    requires Grows(r, r', issued) && i < |r| && r[i].id !in issued && r'[i] == r[i]
    ensures HeldNote(r', i) <==> HeldNote(r, i)
  {
    CallerStable(r, r', issued, r[i]);
  }

  lemma UniqueAfterGrowth(r: seq<Entry>, r': seq<Entry>, issued: set<Id>)
    requires UniqueIds(r) && Grows(r, r', issued) && Ids(r) !! issued
    requires forall i, j :: |r| <= i < j < |r'| ==> r'[i].id != r'[j].id
    ensures UniqueIds(r')
  {
    forall i, j | 0 <= i < j < |r'| ensures r'[i].id != r'[j].id {
      if i < |r| {
        assert Evolves(r[i], r'[i]);
        assert r[i] in r && r[i].id in Ids(r);
        if j < |r| { assert Evolves(r[j], r'[j]); }
      }
    }
  }

  lemma NamesAfterGrowth(r: seq<Entry>, r': seq<Entry>, issued: set<Id>)
    requires Grows(r, r', issued)
    ensures Ids(r) <= Ids(r') && Names(r') <= Names(r) + issued
  {
    forall x | x in Ids(r) ensures x in Ids(r') {
      var i :| 0 <= i < |r| && r[i].id == x;
      assert Evolves(r[i], r'[i]) && r'[i] in r';
    }
    forall x | x in Names(r') ensures x in Names(r) + issued {
      var i :| 0 <= i < |r'| && (r'[i].id == x || r'[i].supersededBy == Some(x));
      if i < |r| { assert Evolves(r[i], r'[i]) && r[i] in r; }
    }
  }

  /** The ids of the entries that name `id` as their replacement. */
  function PointerIds(r: seq<Entry>, id: Id): set<Id> {
    set e | e in r && e.supersededBy == Some(id) :: e.id
  }

  lemma PointerIdsMore(r: seq<Entry>, e: Entry, id: Id)
    ensures PointerIds(r + [e], id) == PointerIds(r, id) + if e.supersededBy == Some(id) then {e.id} else {}
    ensures PointerIds(r, id) <= Ids(r)
  {
  }

  lemma LastIdIsNew(r: seq<Entry>)
    requires UniqueIds(r) && r != []
    ensures UniqueIds(r[..|r| - 1]) && r[|r| - 1].id !in Ids(r[..|r| - 1])
  {
  }

  lemma {:induction false} PointersCounted(r: seq<Entry>, id: Id)
    requires UniqueIds(r)
    ensures |PointerIds(r, id)| == Pointers(r, id)
  {
    hide UniqueIds, Ids;
    if r == [] {
      assert PointerIds(r, id) == {};
    } else {
      var n := |r| - 1;
      assert r == r[..n] + [r[n]];
      LastIdIsNew(r);
      PointersCounted(r[..n], id);
      PointerIdsMore(r[..n], r[n], id);
    }
  }

  lemma {:induction false} PointersAtMostOne(r: seq<Entry>, id: Id)
    ensures Pointers(r, id) == 0 <==> forall i :: 0 <= i < |r| ==> r[i].supersededBy != Some(id)
    ensures Pointers(r, id) <= 1 <==> forall i, j :: 0 <= i < j < |r| ==> !(r[i].supersededBy == Some(id) && r[j].supersededBy == Some(id))
  {
    if r != [] {
      var n := |r| - 1;
      PointersAtMostOne(r[..n], id);
      if r[n].supersededBy == Some(id) && Pointers(r[..n], id) > 0 {
        var i :| 0 <= i < n && r[..n][i].supersededBy == Some(id);
        assert r[i].supersededBy == Some(id);
      }
      if i, j :| 0 <= i < j < n && r[..n][i].supersededBy == Some(id) && r[..n][j].supersededBy == Some(id) {
        assert r[i].supersededBy == Some(id) && r[j].supersededBy == Some(id);
      }
    }
  }

  /**
   * A caller's note says so; an entry that says nothing of its origin is taken for one when it looks
   * like one and replaced at most one other, since what merges several is a digest's.
   */
  lemma CallerNoteIs(e: Entry, r: seq<Entry>)
    ensures IsCallerNote(e, r) <==>
      if e.origin.Some? then e.origin == Some(NoteOrigin)
      else
        && e.kind == Profile && e.facet == Some("notes") && e.confidence == 0.9
        && forall i, j :: 0 <= i < j < |r| ==> !(r[i].supersededBy == Some(e.id) && r[j].supersededBy == Some(e.id))
  {
    PointersAtMostOne(r, e.id);
  }

  lemma SubsetSize<T>(a: set<T>, b: set<T>)
    requires a <= b
    ensures |a| <= |b|
  {
    if a != {} {
      var x :| x in a;
      SubsetSize(a - {x}, b - {x});
    }
  }

  // ---------------------------------------------------------------- each mutator grows the registry

  lemma RetireForgottenGrows(env: Env, s: Ledger, keys: set<Key>, now: nat)
    ensures Grows(s.registry, RetireForgotten(env, s, keys, now).0.registry, {})
    ensures |RetireForgotten(env, s, keys, now).0.registry| == |s.registry|
  {
  }

  lemma MakeRoomGrows(env: Env, s: Ledger, now: nat)
    ensures Grows(s.registry, MakeRoom(env, s, now).registry, {})
    ensures |MakeRoom(env, s, now).registry| == |s.registry|
  {
  }

  lemma RegisterGrows(s: Ledger, value: string, stamp: Stamp, prior: nat)
    requires prior < |s.registry| ==> s.registry[prior].supersededBy.None?
    ensures Grows(s.registry, Register(s, value, stamp, prior).registry, {stamp.id})
  {
  }

  lemma ReviseGrows(lex: Lexicon, s: Ledger, i: nat, value: string, stamp: Stamp)
    requires i < |Lines(s, NOTES)|
    ensures Grows(s.registry, Revise(lex, s, i, value, stamp).state.registry, {stamp.id})
  {
    var lines := Lines(s, NOTES);
    RegisterGrows(SetLines(s, NOTES, lines[i := value]), value, stamp, ActiveNoteIndex(lex, s.registry, lines[i]));
  }

  lemma AccumulateGrows(env: Env, s: Ledger, value: string, stamp: Stamp)
    ensures Grows(s.registry, Accumulate(env, s, value, stamp).state.registry, {stamp.id})
  {
    var prior := ForgottenPrior(env.lex, s.registry, value);
    var held := Held(env, s, value, stamp.now);
    MakeRoomGrows(env, s, stamp.now);
    assert Grows(s.registry, held.registry, {});
    var r := Accumulate(env, s, value, stamp).state.registry;
    assert Grows(held.registry, r, {stamp.id}) by {
      if prior < |s.registry| {
        assert Evolves(s.registry[prior], held.registry[prior]);
        PriorStaysUnlinked(env, s, prior, stamp.now);
        RegisterGrows(held, value, stamp, prior);
      } else {
        RegisterGrows(held, value, stamp, |held.registry|);
      }
    }
    GrowsTwice(s.registry, held.registry, r, {}, {stamp.id});
    assert {} + {stamp.id} == {stamp.id};
  }

  /** Making room links nothing. */
  lemma PriorStaysUnlinked(env: Env, s: Ledger, i: nat, now: nat)
    requires i < |s.registry|
    ensures |MakeRoom(env, s, now).registry| == |s.registry|
    ensures MakeRoom(env, s, now).registry[i].supersededBy == s.registry[i].supersededBy
  {
  }

  lemma AddNoteGrows(env: Env, s: Ledger, text: string, stamp: Stamp, keys: set<Key>)
    ensures Grows(s.registry, AddNote(env, s, text, stamp, keys).state.registry, {stamp.id})
  {
    var value := env.lex.trim(text);
    if value != "" {
      var healed := RetireForgotten(env, s, keys, stamp.now).0;
      RetireForgottenGrows(env, s, keys, stamp.now);
      var lines := Lines(healed, NOTES);
      var r := AddNote(env, s, text, stamp, keys).state.registry;
      assert Grows(healed.registry, r, {stamp.id}) by {
        var i := RevisedLine(env.lex, lines, value);
        if i < |lines| {
          ReviseGrows(env.lex, healed, i, value, stamp);
        } else {
          AccumulateGrows(env, healed, value, stamp);
        }
      }
      GrowsTwice(s.registry, healed.registry, r, {}, {stamp.id});
      assert {} + {stamp.id} == {stamp.id};
    }
  }

  lemma AddNoteAddsOne(env: Env, s: Ledger, text: string, stamp: Stamp, keys: set<Key>)
    ensures |AddNote(env, s, text, stamp, keys).state.registry| <= |s.registry| + 1
  {
    hide MakeRoom, ActiveNoteIndex, ForgottenPrior, HasLine, RevisedLine, NoteForgotten;
    var healed := RetireForgotten(env, s, keys, stamp.now).0;
    RetireForgottenGrows(env, s, keys, stamp.now);
    MakeRoomGrows(env, healed, stamp.now);
  }

  /** Growth by at most one entry with a new id keeps ids unique. */
  lemma UniqueAfterOne(r: seq<Entry>, r': seq<Entry>, issued: set<Id>)
    requires UniqueIds(r) && Grows(r, r', issued) && Ids(r) !! issued && |r'| <= |r| + 1
    ensures UniqueIds(r')
  {
    UniqueAfterGrowth(r, r', issued);
  }

  // ---------------------------------------------------------------- reporting a change

  /** `retireForgottenNotes` reports 0 exactly when it changed nothing. */
  lemma ForgettingReports(env: Env, s: Ledger, keys: set<Key>, now: nat)
    ensures RetireForgotten(env, s, keys, now).1 == 0 <==> RetireForgotten(env, s, keys, now).0 == s
  {
    if keys != {} && env.pack.group(NOTES).Some? {
      var lines := Lines(s, NOTES);
      var (s', count) := RetireForgotten(env, s, keys, now);
      FilterAll(lines, t => !NoteForgotten(env, keys, t));
      CountBound(s.registry, e => ForgottenHere(env, keys, e));
      if count == 0 {
        assert KeptNotes(env, keys, lines) == lines;
        assert s'.profile == s.profile;
        assert forall e :: e in s.registry ==> !ForgottenHere(env, keys, e);
        assert s'.registry == s.registry;
      }
    }
  }

  lemma WritingAddsALine(env: Env, s: Ledger, value: string, stamp: Stamp)
    requires !HasLine(env.lex, Lines(s, NOTES), value)
    ensures value in Lines(Accumulate(env, s, value, stamp).state, NOTES)
    ensures forall i :: 0 <= i < |Lines(s, NOTES)| ==> value in Lines(Revise(env.lex, s, i, value, stamp).state, NOTES)
  {
    var lines := Lines(s, NOTES);
    var held := Held(env, s, value, stamp.now);
    assert Lines(held, NOTES)[|Lines(held, NOTES)| - 1] == value;
    forall i | 0 <= i < |lines| ensures value in Lines(Revise(env.lex, s, i, value, stamp).state, NOTES) {
      assert lines[i := value][i] == value;
    }
  }

  /** `changed` is reported exactly when the ledger changed, so a write may be skipped when it is not. */
  lemma NoteReports(env: Env, s: Ledger, text: string, stamp: Stamp, keys: set<Key>)
    ensures AddNote(env, s, text, stamp, keys).changed <==> AddNote(env, s, text, stamp, keys).state != s
  {
    var value := env.lex.trim(text);
    if value != "" {
      var (healed, count) := RetireForgotten(env, s, keys, stamp.now);
      ForgettingReports(env, s, keys, stamp.now);
      if !NoteForgotten(env, keys, value) && !HasLine(env.lex, Lines(healed, NOTES), value) {
        WritingAddsALine(env, healed, value, stamp);
        assert value in Lines(AddNote(env, s, text, stamp, keys).state, NOTES);
        assert value !in Lines(healed, NOTES);
      }
    }
  }
}
