/** The character budget on the events a digest reads (`applyCharBudget`, packages/core/src/digest/selection.ts). */
module CharBudget {
  import opened Seqs

  datatype Event = Event(id: string, content: string, pinned: bool)

  datatype Rationale =
    | PinnedBudgetExceeded(chars: nat, budget: int)
    | BudgetApplied(chars: nat, budget: int)
    | BudgetDropped(dropped: int)
    | BudgetTruncated(truncated: nat)

  const TRUNCATION_MARKER := "\n…[truncated for digest budget]"

  function Total(events: seq<Event>): nat {
    if events == [] then 0 else Total(events[..|events| - 1]) + |events[|events| - 1].content|
  }

  function Pinned(events: seq<Event>): seq<Event> {
    Filter(events, (e: Event) => e.pinned)
  }

  function Unpinned(events: seq<Event>): seq<Event> {
    Filter(events, (e: Event) => !e.pinned)
  }

  /** Pinned events first, each group in its own order. */
  function PinnedFirst(events: seq<Event>): seq<Event> {
    if Pinned(events) == [] then events else Pinned(events) + Unpinned(events)
  }

  /** The event cut to the room there is, with the marker; one character survives at least. */
  function Truncated(e: Event, remaining: int): Event {
    var room := if remaining - |TRUNCATION_MARKER| < 1 then 1 else remaining - |TRUNCATION_MARKER|;
    e.(content := (if room < |e.content| then e.content[..room] else e.content) + TRUNCATION_MARKER)
  }

  /** Keep events while they fit; the first that does not is cut, and ends the list. */
  function Cut(events: seq<Event>, remaining: int, first: bool): seq<Event> {
    if events == [] || (remaining <= 0 && !first) then []
    else if |events[0].content| <= remaining then [events[0]] + Cut(events[1..], remaining - |events[0].content|, false)
    else [Truncated(events[0], remaining)]
  }

  predicate Binds(events: seq<Event>, budget: int) {
    budget > 0 && Total(events) > budget
  }

  function ApplyCharBudget(events: seq<Event>, budget: int): seq<Event> {
    if Binds(events, budget) then Cut(PinnedFirst(events), budget, true) else events
  }

  // ---------------------------------------------------------------- sums

  lemma {:induction false} TotalConcat(a: seq<Event>, b: seq<Event>)
    ensures Total(a + b) == Total(a) + Total(b)
  {
    if b == [] {
      assert a + b == a;
    } else {
      assert (a + b)[..|a + b| - 1] == a + b[..|b| - 1];
      TotalConcat(a, b[..|b| - 1]);
    }
  }

  lemma TotalFirst(events: seq<Event>)
    requires events != []
    ensures Total(events) == |events[0].content| + Total(events[1..])
  {
    assert events == [events[0]] + events[1..];
    assert Total([events[0]]) == Total([]) + |events[0].content| by {
      assert [events[0]][..0] == [];
    }
    TotalConcat([events[0]], events[1..]);
  }

  lemma {:induction false} TotalPrefix(events: seq<Event>, k: nat)
    requires k <= |events|
    ensures Total(events[..k]) <= Total(events)
  {
    assert events == events[..k] + events[k..];
    TotalConcat(events[..k], events[k..]);
  }

  lemma PartitionStep(before: seq<Event>, e: Event)
    ensures Pinned(before + [e]) == if e.pinned then Pinned(before) + [e] else Pinned(before)
    ensures Unpinned(before + [e]) == if e.pinned then Unpinned(before) else Unpinned(before) + [e]
  {
    assert (before + [e])[..|before|] == before;
  }

  lemma {:induction false} PartitionTotal(events: seq<Event>)
    ensures Total(Pinned(events)) + Total(Unpinned(events)) == Total(events)
  {
    hide Pinned, Unpinned, Total;
    if events == [] {
      PartitionNone();
    } else {
      var n := |events| - 1;
      PartitionTotal(events[..n]);
      PartitionTotalMore(events[..n], events[n]);
      assert events == events[..n] + [events[n]];
    }
  }

  lemma PartitionNone()
    ensures Pinned([]) == Unpinned([]) == []
    ensures Total([]) == 0
  {
  }

  lemma PartitionTotalMore(before: seq<Event>, e: Event)
    requires Total(Pinned(before)) + Total(Unpinned(before)) == Total(before)
    ensures Total(Pinned(before + [e])) + Total(Unpinned(before + [e])) == Total(before + [e])
  {
    hide Pinned, Unpinned, Total;
    PartitionStep(before, e);
    TotalMore(Pinned(before), e);
    TotalMore(Unpinned(before), e);
    TotalMore(before, e);
  }

  lemma {:induction false} PartitionPermutes(events: seq<Event>)
    ensures multiset(Pinned(events)) + multiset(Unpinned(events)) == multiset(events)
  {
    hide Pinned, Unpinned;
    if events == [] {
      PartitionNone();
    } else {
      var n := |events| - 1;
      PartitionPermutes(events[..n]);
      PartitionPermutesMore(events[..n], events[n]);
      assert events == events[..n] + [events[n]];
    }
  }

  lemma PartitionPermutesMore(before: seq<Event>, e: Event)
    requires multiset(Pinned(before)) + multiset(Unpinned(before)) == multiset(before)
    ensures multiset(Pinned(before + [e])) + multiset(Unpinned(before + [e])) == multiset(before + [e])
  {
    hide Pinned, Unpinned;
    PartitionStep(before, e);
  }

  lemma TotalMore(events: seq<Event>, e: Event)
    ensures Total(events + [e]) == Total(events) + |e.content|
  {
    assert (events + [e])[..|events|] == events;
  }

  /** Putting the pinned first reorders, and changes no total. */
  lemma PinnedFirstKeeps(events: seq<Event>)
    ensures multiset(PinnedFirst(events)) == multiset(events) && Total(PinnedFirst(events)) == Total(events)
  {
    PartitionTotal(events);
    PartitionPermutes(events);
    TotalConcat(Pinned(events), Unpinned(events));
    assert multiset(Pinned(events) + Unpinned(events)) == multiset(Pinned(events)) + multiset(Unpinned(events));
  }

  // ---------------------------------------------------------------- what is kept

  /** `kept` is the first events of `events`, all whole but perhaps the last. */
  predicate CutsOnlyLast(events: seq<Event>, kept: seq<Event>) {
    && |kept| <= |events|
    && (forall i :: 0 <= i < |kept| - 1 ==> kept[i] == events[i])
    && (kept != [] ==>
          var last := |kept| - 1;
          || kept[last] == events[last]
          || exists room :: 0 <= room < |events[last].content| && kept[last] == events[last].(content := events[last].content[..room] + TRUNCATION_MARKER))
  }

  /** A cut list is a prefix of the input that fits with one marker to spare, and is not empty. */
  lemma {:induction false} CutShape(events: seq<Event>, remaining: int, first: bool)
    requires remaining > 0
    ensures CutsOnlyLast(events, Cut(events, remaining, first))
    ensures Total(Cut(events, remaining, first)) <= remaining + |TRUNCATION_MARKER|
    ensures events != [] ==> Cut(events, remaining, first) != []
    decreases |events|
  {
    if events != [] {
      var e := events[0];
      var kept := Cut(events, remaining, first);
      if |e.content| <= remaining {
        var rest := Cut(events[1..], remaining - |e.content|, false);
        if remaining - |e.content| > 0 {
          CutShape(events[1..], remaining - |e.content|, false);
          assert kept == [e] + rest;
          if rest != [] { assert kept[|kept| - 1] == rest[|rest| - 1] && events[|kept| - 1] == events[1..][|rest| - 1]; }
        } else {
          assert kept == [e];
        }
        TotalFirst(kept);
        assert kept[1..] == rest;
      } else {
        OneCut(e, remaining);
        TotalFirst(kept);
      }
    }
  }

  lemma OneCut(e: Event, remaining: int)
    requires 0 < remaining < |e.content|
    ensures var cut := Truncated(e, remaining);
            && |cut.content| <= remaining + |TRUNCATION_MARKER|
            && exists room :: 0 <= room < |e.content| && cut == e.(content := e.content[..room] + TRUNCATION_MARKER)
  {
    var room := if remaining - |TRUNCATION_MARKER| < 1 then 1 else remaining - |TRUNCATION_MARKER|;
    assert Truncated(e, remaining) == e.(content := e.content[..room] + TRUNCATION_MARKER);
  }

  /** Of a leading group that fits, every event with content is kept whole. */
  lemma {:induction false} GroupKept(events: seq<Event>, group: nat, remaining: int, first: bool, i: nat)
    requires remaining > 0 && i < group <= |events| && Total(events[..group]) <= remaining && events[i].content != ""
    ensures i < |Cut(events, remaining, first)| && Cut(events, remaining, first)[i] == events[i]
    decreases |events|
  {
    TotalFirst(events[..group]);
    assert events[..group][1..] == events[1..][..group - 1];
    if i > 0 {
      assert events[i] == events[1..][i - 1];
      SomeTotal(events[1..][..group - 1], i - 1);
      GroupKept(events[1..], group - 1, remaining - |events[0].content|, false, i - 1);
    }
  }

  lemma SomeTotal(events: seq<Event>, i: nat)
    requires i < |events| && events[i].content != ""
    ensures Total(events) > 0
  {
    TotalPrefix(events, i + 1);
    assert events[..i + 1][..i] == events[..i];
  }

  /** As much as fits: every leading group smaller than the room is kept whole. */
  lemma {:induction false} CutIsLongest(events: seq<Event>, remaining: int, first: bool, k: nat)
    requires remaining > 0 && k <= |events| && Total(events[..k]) < remaining
    ensures k <= |Cut(events, remaining, first)| && Cut(events, remaining, first)[..k] == events[..k]
    decreases |events|
  {
    if k > 0 {
      TotalFirst(events[..k]);
      assert events[..k][1..] == events[1..][..k - 1];
      var left := remaining - |events[0].content|;
      CutIsLongest(events[1..], left, false, k - 1);
      var rest := Cut(events[1..], left, false);
      assert Cut(events, remaining, first) == [events[0]] + rest;
      assert events[..k] == [events[0]] + events[1..][..k - 1];
    }
  }

  // ---------------------------------------------------------------- what the budget promises

  /**
   * Under a budget the prompt holds at most the budget and one marker; at least one event
   * survives; only the last one kept is ever cut; nothing changes when everything fits.
   */
  lemma BudgetIsExact(events: seq<Event>, budget: int)
    ensures var kept := ApplyCharBudget(events, budget);
            && (budget > 0 ==> Total(kept) <= budget + |TRUNCATION_MARKER|)
            && (events != [] ==> kept != [])
            && (!Binds(events, budget) ==> kept == events)
            && (Binds(events, budget) ==> CutsOnlyLast(PinnedFirst(events), kept))
            && multiset(PinnedFirst(events)) == multiset(events)
  {
    PinnedFirstKeeps(events);
    if Binds(events, budget) {
      assert multiset(PinnedFirst(events)) != multiset{};
      CutShape(PinnedFirst(events), budget, true);
    }
  }

  /** Pinned events that fit together are all kept whole; only empty ones may be left behind. */
  lemma PinnedSurvive(events: seq<Event>, budget: int, e: Event)
    requires e in events && e.pinned && e.content != "" && Total(Pinned(events)) <= budget
    ensures e in ApplyCharBudget(events, budget)
  {
    var pinned := Pinned(events);
    var i :| 0 <= i < |pinned| && pinned[i] == e;
    if Binds(events, budget) {
      assert PinnedFirst(events)[..|pinned|] == pinned && PinnedFirst(events)[i] == e;
      GroupKept(PinnedFirst(events), |pinned|, budget, true, i);
    }
  }

  /** Every leading group below the budget is kept whole: nothing is cut before it has to be. */
  lemma NothingCutEarly(events: seq<Event>, budget: int, k: nat)
    requires Binds(events, budget) && k <= |PinnedFirst(events)| && Total(PinnedFirst(events)[..k]) < budget
    ensures k <= |ApplyCharBudget(events, budget)| && ApplyCharBudget(events, budget)[..k] == PinnedFirst(events)[..k]
  {
    CutIsLongest(PinnedFirst(events), budget, true, k);
  }

  // ---------------------------------------------------------------- what exactly is kept

  /**
   * The first `k` events, the last at which the room is not used up before, whole; and of the next,
   * when some room is left, what fits beside the marker, or one character.
   */
  predicate CutLaw(events: seq<Event>, room: int, k: nat, kept: seq<Event>) {
    && k <= |events| && Total(events[..k]) <= room
    && (forall j :: 0 <= j < k ==> Total(events[..j]) < room)
    && if k == |events| || Total(events[..k]) == room then kept == events[..k]
       else
         var left := room - Total(events[..k]);
         var chars := if left <= |TRUNCATION_MARKER| + 1 then 1 else left - |TRUNCATION_MARKER|;
         && left < |events[k].content| && chars < |events[k].content|
         && kept == events[..k] + [Event(events[k].id, events[k].content[..chars] + TRUNCATION_MARKER, events[k].pinned)]
  }

  lemma WholeFirst(events: seq<Event>, j: nat)
    requires 0 < j <= |events|
    ensures events[..j] == [events[0]] + events[1..][..j - 1]
    ensures Total(events[..j]) == |events[0].content| + Total(events[1..][..j - 1])
  {
    TotalFirst(events[..j]);
    assert events[..j][1..] == events[1..][..j - 1];
  }

  lemma {:induction false} CutIs(events: seq<Event>, room: int, first: bool) returns (k: nat)
    requires room > 0
    ensures CutLaw(events, room, k, Cut(events, room, first))
    decreases |events|
  {
    k := 0;
    if events != [] && |events[0].content| <= room {
      var left := room - |events[0].content|;
      if left > 0 {
        var m := CutIs(events[1..], left, false);
        CutMore(events, room, first, m);
        k := m + 1;
      } else {
        WholeFirst(events, 1);
        assert events[1..][..0] == [];
        k := 1;
      }
    }
  }

  lemma CutMore(events: seq<Event>, room: int, first: bool, m: nat)
    requires events != [] && 0 < room && |events[0].content| < room
    requires CutLaw(events[1..], room - |events[0].content|, m, Cut(events[1..], room - |events[0].content|, false))
    ensures CutLaw(events, room, m + 1, Cut(events, room, first))
  {
    hide Total;
    var rest := events[1..];
    forall j | 0 < j <= m + 1
      ensures events[..j] == [events[0]] + rest[..j - 1] && Total(events[..j]) == |events[0].content| + Total(rest[..j - 1])
    {
      WholeFirst(events, j);
    }
    assert Total(events[..0]) < room by { NothingTotal(events); }
  }

  lemma NothingTotal(events: seq<Event>)
    ensures Total(events[..0]) == 0
  {
  }

  /** A budget that binds keeps, of the pinned events and then the others, what the law says. */
  lemma BudgetedIs(events: seq<Event>, budget: int)
    requires budget > 0 && Total(events) > budget
    ensures var ordered := Filter(events, (e: Event) => e.pinned) + Filter(events, (e: Event) => !e.pinned);
            exists k: nat :: CutLaw(ordered, budget, k, ApplyCharBudget(events, budget))
  {
    hide Cut, CutLaw, Filter;
    var ordered := Filter(events, (e: Event) => e.pinned) + Filter(events, (e: Event) => !e.pinned);
    OrderIs(events);
    var k := CutIs(ordered, budget, true);
    assert CutLaw(ordered, budget, k, ApplyCharBudget(events, budget));
  }

  lemma OrderIs(events: seq<Event>)
    ensures PinnedFirst(events) == Filter(events, (e: Event) => e.pinned) + Filter(events, (e: Event) => !e.pinned)
  {
    FilterAll(events, (e: Event) => !e.pinned);
    if Pinned(events) == [] {
      forall e | e in events ensures !e.pinned {
        assert e.pinned ==> e in Pinned(events);
      }
      assert [] + events == events;
    }
  }

  // ---------------------------------------------------------------- the loop

  method Fill(ordered: seq<Event>, charBudget: int) returns (kept: seq<Event>, truncated: nat)
    ensures kept == Cut(ordered, charBudget, true)
  {
    kept, truncated := [], 0;
    var used, k := 0, 0;
    while k < |ordered|
      invariant k <= |ordered| && |kept| == k
      invariant kept + Cut(ordered[k..], charBudget - used, k == 0) == Cut(ordered, charBudget, true)
    {
      var remaining := charBudget - used;
      if remaining <= 0 && |kept| > 0 { break; }
      CutNext(kept, ordered, k, remaining);
      var len := |ordered[k].content|;
      if len <= remaining {
        kept := kept + [ordered[k]];
        used := used + len;
        k := k + 1;
      } else {
        kept := kept + [Truncated(ordered[k], remaining)];
        truncated := 1;
        return;
      }
    }
  }

  lemma CutNext(kept: seq<Event>, ordered: seq<Event>, k: nat, remaining: int)
    requires k < |ordered| && |kept| == k && (remaining > 0 || k == 0)
    ensures kept + Cut(ordered[k..], remaining, k == 0)
         == if |ordered[k].content| <= remaining
            then kept + [ordered[k]] + Cut(ordered[k + 1..], remaining - |ordered[k].content|, false)
            else kept + [Truncated(ordered[k], remaining)]
  {
    assert ordered[k..][0] == ordered[k] && ordered[k..][1..] == ordered[k + 1..];
    var rest := Cut(ordered[k + 1..], remaining - |ordered[k].content|, false);
    assert kept + ([ordered[k]] + rest) == kept + [ordered[k]] + rest;
  }

  /** `applyCharBudget`; the rationale is appended to. */
  method Apply(events: seq<Event>, charBudget: int, rationale: seq<Rationale>) returns (kept: seq<Event>, why: seq<Rationale>)
    ensures kept == ApplyCharBudget(events, charBudget)
    ensures rationale <= why
    ensures why == rationale <==> !Binds(events, charBudget)
    ensures PinnedBudgetExceeded(Total(Pinned(events)), charBudget) in why[|rationale|..]
       <==> Binds(events, charBudget) && Total(Pinned(events)) > charBudget
    ensures Binds(events, charBudget) ==> BudgetDropped(|events| - |kept|) in why[|rationale|..]
  {
    why := rationale;
    if charBudget <= 0 { return events, why; }
    var total := Total(events);
    if total <= charBudget { return events, why; }
    var pinnedChars := Total(Pinned(events));
    var truncated;
    kept, truncated := Fill(PinnedFirst(events), charBudget);
    var exceeded := if pinnedChars > charBudget then [PinnedBudgetExceeded(pinnedChars, charBudget)] else [];
    var applied := [BudgetApplied(total, charBudget), BudgetDropped(|events| - |kept|)];
    var cut := if truncated > 0 then [BudgetTruncated(truncated)] else [];
    var added := exceeded + applied + cut;
    assert applied[1] in added;
    why := why + added;
    assert why[|rationale|..] == added;
  }
}
