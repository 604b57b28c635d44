/**
 * The order in which the cap evicts lines at a commit (packages/core/src/handoff.ts:188-194), read off
 * the lines and entries it starts from. A line is evicted as soon as no caller's note backs its text
 * any more, and otherwise when it is the oldest: each line of a text evicted takes one entry with it,
 * so a line outlasts as many lines of its text as entries come before the last caller's note with it.
 */
module CapOrder {
  import opened Seqs
  import opened FactRegistry
  import opened RegistryLaws
  import opened Handoff
  import opened HandoffLaws
  import opened NoteLines
  import opened CapLines

  /** A caller's note still backs line `j` when all lines before it are gone. */
  predicate Firm(lex: Lexicon, r: seq<Entry>, lines: seq<string>, j: nat)
    requires j < |lines|
  {
    Outlasts(lex, r, lines[..j], lines[j])
  }

  /** The lines evicted once only the lines from `j` on are left to choose from: those before, and those then unbacked. */
  function GoneBy(lex: Lexicon, r: seq<Entry>, lines: seq<string>, j: nat): nat
    requires j <= |lines|
  {
    j + Count(lines[j..], t => !Outlasts(lex, r, lines[..j], t))
  }

  predicate AnchorsAt(lex: Lexicon, r: seq<Entry>, lines: seq<string>, j: nat, a: nat)
    requires j < |lines|
  {
    a < j && lex.canon(lines[a]) == lex.canon(lines[j]) && Firm(lex, r, lines, a)
  }

  /** The last firm line of the same text before line `j`, or `j`: evicting it leaves the text unbacked. */
  function Anchor(lex: Lexicon, r: seq<Entry>, lines: seq<string>, j: nat, upTo: nat): (a: nat)
    requires upTo <= j < |lines|
    ensures a == j || (a < upTo && AnchorsAt(lex, r, lines, j, a))
    ensures forall b :: (if a == j then 0 else a + 1) <= b < upTo ==> !AnchorsAt(lex, r, lines, j, b)
  {
    if upTo == 0 then j
    else if AnchorsAt(lex, r, lines, j, upTo - 1) then upTo - 1
    else Anchor(lex, r, lines, j, upTo - 1)
  }

  /** How many lines are evicted before line `j`, if the evictions go on that long. */
  function Before(lex: Lexicon, r: seq<Entry>, lines: seq<string>, j: nat): nat
    requires j < |lines|
  {
    if Firm(lex, r, lines, j) then GoneBy(lex, r, lines, j)
    else
      var a := Anchor(lex, r, lines, j, j);
      if a < j then GoneBy(lex, r, lines, a) + 1 + LinesOf(lex, lines[a + 1..j], lines[j])
      else Count(lines[..j], t => !Outlasts(lex, r, [], t))
  }

  // ---------------------------------------------------------------- what one eviction does to the order

  /** Where line `j` is once line `gone` has left. */
  function After(j: nat, gone: nat): nat
    requires j != gone
  {
    if j < gone then j else j - 1
  }

  /** The line the cap takes first: no caller's note backs it, or every line is backed and it is the oldest. */
  predicate TakenFirst(lex: Lexicon, r: seq<Entry>, lines: seq<string>, g: nat) {
    && g < |lines|
    && if Outlasts(lex, r, [], lines[g]) then g == 0 && forall n :: 0 <= n < |lines| ==> Outlasts(lex, r, [], lines[n])
       else forall n :: 0 <= n < g ==> Outlasts(lex, r, [], lines[n])
  }

  lemma BackedIsOutlasting(lex: Lexicon, r: seq<Entry>, text: string)
    ensures Outlasts(lex, r, [], text) <==> IsCallerNoteText(lex, r, NOTES, text)
  {
    hide Ahead;
    if IsCallerNoteText(lex, r, NOTES, text) {
      var k :| 0 <= k < |r| && BackedByCaller(lex, r, NOTES, text, k);
      assert Ahead(lex, r, text, k) >= 0;
    }
  }

  lemma SurplusTakenFirst(lex: Lexicon, s: Ledger)
    requires Lines(s, NOTES) != []
    ensures TakenFirst(lex, s.registry, Lines(s, NOTES), Surplus(lex, s))
  {
    hide IsCallerNoteText, Outlasts;
    forall n | 0 <= n < |Lines(s, NOTES)|
      ensures Outlasts(lex, s.registry, [], Lines(s, NOTES)[n]) <==> IsCallerNoteText(lex, s.registry, NOTES, Lines(s, NOTES)[n])
    {
      BackedIsOutlasting(lex, s.registry, Lines(s, NOTES)[n]);
    }
  }

  /** An unbacked text outlasts nothing. */
  lemma NeverOutlasts(lex: Lexicon, r: seq<Entry>, gone: seq<string>, text: string)
    requires !Outlasts(lex, r, [], text)
    ensures !Outlasts(lex, r, gone, text)
  {
    hide Ahead, LinesOf;
    assert LinesOf(lex, [], text) == 0 by { NoLines(lex, text); }
    forall k | 0 <= k < |r| ensures !BackedByCaller(lex, r, NOTES, text, k) {
      assert Ahead(lex, r, text, k) >= LinesOf(lex, [], text);
    }
  }

  lemma NoLines(lex: Lexicon, text: string)
    ensures LinesOf(lex, [], text) == 0
  {
  }

  /** Lines of the same text outlast alike, and only the number of lines gone counts. */
  lemma OutlastsAlike(lex: Lexicon, r: seq<Entry>, gone: seq<string>, gone': seq<string>, t: string, u: string)
    requires lex.canon(t) == lex.canon(u) && LinesOf(lex, gone, t) == LinesOf(lex, gone', t)
    ensures Outlasts(lex, r, gone, t) <==> Outlasts(lex, r, gone', u)
  {
    hide Ahead, LinesOf;
    SameTextSame(lex, gone', t, u);
    forall k | 0 <= k < |r| ensures Ahead(lex, r, t, k) == Ahead(lex, r, u, k) {
      AheadSame(lex, r, t, u, k);
    }
  }

  lemma SameTextSame(lex: Lexicon, lines: seq<string>, t: string, u: string)
    requires lex.canon(t) == lex.canon(u)
    ensures LinesOf(lex, lines, t) == LinesOf(lex, lines, u)
  {
    CountSame(lines, x => lex.canon(x) == lex.canon(t), x => lex.canon(x) == lex.canon(u));
  }

  lemma AheadSame(lex: Lexicon, r: seq<Entry>, t: string, u: string, k: nat)
    requires lex.canon(t) == lex.canon(u) && k <= |r|
    ensures Ahead(lex, r, t, k) == Ahead(lex, r, u, k)
  {
    CountSame(r[..k], e => Evictable(lex, t, e), e => Evictable(lex, u, e));
  }

  /** Whether a text outlasts the lines gone, before and after the first eviction, which is among them. */
  lemma OutlastsAfter(lex: Lexicon, r: seq<Entry>, lines: seq<string>, g: nat, now: nat, n: nat, text: string)
    requires TakenFirst(lex, r, lines, g) && g < n <= |lines|
    ensures Outlasts(lex, r, lines[..n], text)
       <==> Outlasts(lex, WithoutEvicted(lex, r, lines[g], now), RemoveAt(lines, g)[..n - 1], text)
  {
    hide Outlasts, LinesOf, WithoutEvicted;
    var gone, gone' := lines[..n], RemoveAt(lines, g)[..n - 1];
    assert gone' == RemoveAt(gone, g);
    LinesOfRemoveAt(lex, gone, g, text);
    OutlastsStill(lex, r, lines[g], now, gone, gone', text);
  }

  /** The same when the line is not among those gone, because nothing backed it. */
  lemma OutlastsApart(lex: Lexicon, r: seq<Entry>, lines: seq<string>, g: nat, now: nat, gone: seq<string>, text: string)
    requires g < |lines| && !Outlasts(lex, r, [], lines[g])
    ensures Outlasts(lex, r, gone, text) <==> Outlasts(lex, WithoutEvicted(lex, r, lines[g], now), gone, text)
  {
    hide Outlasts, WithoutEvicted, IsCallerNoteText;
    BackedIsOutlasting(lex, r, lines[g]);
    OutlastsUnbacked(lex, r, lines[g], now, gone, text);
  }

  lemma FirmAfter(lex: Lexicon, r: seq<Entry>, lines: seq<string>, g: nat, now: nat, j: nat)
    requires TakenFirst(lex, r, lines, g) && j < |lines| && j != g
    ensures Firm(lex, r, lines, j) <==> Firm(lex, WithoutEvicted(lex, r, lines[g], now), RemoveAt(lines, g), After(j, g))
  {
    hide Outlasts, WithoutEvicted;
    var lines' := RemoveAt(lines, g);
    assert lines'[After(j, g)] == lines[j];
    if g < j {
      OutlastsAfter(lex, r, lines, g, now, j, lines[j]);
    } else {
      assert lines'[..j] == lines[..j];
      OutlastsApart(lex, r, lines, g, now, lines[..j], lines[j]);
    }
  }

  /** The lines gone once `j` is reached, one fewer after the first eviction. */
  lemma GoneByAfter(lex: Lexicon, r: seq<Entry>, lines: seq<string>, g: nat, now: nat, j: nat)
    requires TakenFirst(lex, r, lines, g) && j < |lines| && j != g
    ensures GoneBy(lex, WithoutEvicted(lex, r, lines[g], now), RemoveAt(lines, g), After(j, g)) + 1 == GoneBy(lex, r, lines, j)
  {
    if g < j { GoneByLater(lex, r, lines, g, now, j); } else { GoneByEarlier(lex, r, lines, g, now, j); }
  }

  lemma GoneByLater(lex: Lexicon, r: seq<Entry>, lines: seq<string>, g: nat, now: nat, j: nat)
    requires TakenFirst(lex, r, lines, g) && g < j < |lines|
    ensures GoneBy(lex, WithoutEvicted(lex, r, lines[g], now), RemoveAt(lines, g), j - 1) + 1 == GoneBy(lex, r, lines, j)
  {
    hide Outlasts, WithoutEvicted, TakenFirst;
    var r', lines' := WithoutEvicted(lex, r, lines[g], now), RemoveAt(lines, g);
    var rest := lines[j..];
    assert lines'[j - 1..] == rest;
    forall n | 0 <= n < |rest| ensures Outlasts(lex, r, lines[..j], rest[n]) == Outlasts(lex, r', lines'[..j - 1], rest[n]) {
      OutlastsAfter(lex, r, lines, g, now, j, rest[n]);
    }
    CountSame(rest, t => !Outlasts(lex, r, lines[..j], t), t => !Outlasts(lex, r', lines'[..j - 1], t));
  }

  lemma GoneByEarlier(lex: Lexicon, r: seq<Entry>, lines: seq<string>, g: nat, now: nat, j: nat)
    requires TakenFirst(lex, r, lines, g) && j < g
    ensures GoneBy(lex, WithoutEvicted(lex, r, lines[g], now), RemoveAt(lines, g), j) + 1 == GoneBy(lex, r, lines, j)
  {
    hide Outlasts, WithoutEvicted;
    var r', lines' := WithoutEvicted(lex, r, lines[g], now), RemoveAt(lines, g);
    var gone, rest, rest' := lines[..j], lines[j..], lines'[j..];
    assert lines'[..j] == gone;
    assert rest' == RemoveAt(rest, g - j);
    NeverOutlasts(lex, r, gone, lines[g]);
    CountRemoveAt(rest, g - j, t => !Outlasts(lex, r, gone, t));
    forall n | 0 <= n < |rest'| ensures Outlasts(lex, r, gone, rest'[n]) == Outlasts(lex, r', gone, rest'[n]) {
      OutlastsApart(lex, r, lines, g, now, gone, rest'[n]);
    }
    CountSame(rest', t => !Outlasts(lex, r, gone, t), t => !Outlasts(lex, r', gone, t));
  }

  // ---------------------------------------------------------------- anchors

  lemma AnchorIs(lex: Lexicon, r: seq<Entry>, lines: seq<string>, j: nat, a: nat)
    requires j < |lines| && AnchorsAt(lex, r, lines, j, a) && forall b :: a < b < j ==> !AnchorsAt(lex, r, lines, j, b)
    ensures Anchor(lex, r, lines, j, j) == a
  {
    hide Firm;
  }

  lemma NoAnchor(lex: Lexicon, r: seq<Entry>, lines: seq<string>, j: nat)
    requires j < |lines| && forall b :: 0 <= b < j ==> !AnchorsAt(lex, r, lines, j, b)
    ensures Anchor(lex, r, lines, j, j) == j
  {
    hide Firm;
  }

  lemma AnchorsAfter(lex: Lexicon, r: seq<Entry>, lines: seq<string>, g: nat, now: nat, j: nat, b: nat)
    requires TakenFirst(lex, r, lines, g) && j < |lines| && j != g && b < j && b != g
    ensures AnchorsAt(lex, r, lines, j, b)
       <==> AnchorsAt(lex, WithoutEvicted(lex, r, lines[g], now), RemoveAt(lines, g), After(j, g), After(b, g))
  {
    hide Firm, WithoutEvicted, Outlasts;
    var lines' := RemoveAt(lines, g);
    assert lines'[After(j, g)] == lines[j] && lines'[After(b, g)] == lines[b];
    FirmAfter(lex, r, lines, g, now, b);
  }

  /** The line a place holds once line `g` has left. */
  function Origin(i: nat, g: nat): nat {
    if i < g then i else i + 1
  }

  /** An anchor other than the line that leaves stays the anchor. */
  lemma AnchorStays(lex: Lexicon, r: seq<Entry>, lines: seq<string>, g: nat, now: nat, j: nat)
    requires TakenFirst(lex, r, lines, g) && j < |lines| && j != g
    requires Anchor(lex, r, lines, j, j) < j && Anchor(lex, r, lines, j, j) != g
    ensures Anchor(lex, WithoutEvicted(lex, r, lines[g], now), RemoveAt(lines, g), After(j, g), After(j, g)) == After(Anchor(lex, r, lines, j, j), g)
  {
    hide AnchorsAt, WithoutEvicted, Outlasts;
    var r', lines', a := WithoutEvicted(lex, r, lines[g], now), RemoveAt(lines, g), Anchor(lex, r, lines, j, j);
    AnchorsAfter(lex, r, lines, g, now, j, a);
    forall b | After(a, g) < b < After(j, g) ensures !AnchorsAt(lex, r', lines', After(j, g), b) {
      AnchorsAfter(lex, r, lines, g, now, j, Origin(b, g));
    }
    AnchorIs(lex, r', lines', After(j, g), After(a, g));
  }

  /** No anchor appears. */
  lemma AnchorGone(lex: Lexicon, r: seq<Entry>, lines: seq<string>, g: nat, now: nat, j: nat)
    requires TakenFirst(lex, r, lines, g) && j < |lines| && j != g
    requires forall b :: 0 <= b < j && b != g ==> !AnchorsAt(lex, r, lines, j, b)
    ensures Anchor(lex, WithoutEvicted(lex, r, lines[g], now), RemoveAt(lines, g), After(j, g), After(j, g)) == After(j, g)
  {
    hide AnchorsAt, WithoutEvicted, Outlasts;
    forall b | 0 <= b < After(j, g) ensures !AnchorsAt(lex, WithoutEvicted(lex, r, lines[g], now), RemoveAt(lines, g), After(j, g), b) {
      AnchorsAfter(lex, r, lines, g, now, j, Origin(b, g));
    }
    NoAnchor(lex, WithoutEvicted(lex, r, lines[g], now), RemoveAt(lines, g), After(j, g));
  }

  /** The first line of a backed text is firm, so a loose one has an anchor. */
  lemma BackedHasAnchor(lex: Lexicon, r: seq<Entry>, lines: seq<string>, j: nat)
    requires j < |lines| && Outlasts(lex, r, [], lines[j]) && !Firm(lex, r, lines, j)
    ensures Anchor(lex, r, lines, j, j) < j
  {
    hide Outlasts, LinesOf;
    var f := First(lines[..j], t => lex.canon(t) == lex.canon(lines[j]));
    var text := lines[j];
    LinesOfSome(lex, lines[..f], text);
    assert forall n :: 0 <= n < f ==> lines[n] == lines[..j][n];
    NoLines(lex, text);
    if f < j {
      assert lines[f] == lines[..j][f];
      OutlastsAlike(lex, r, [], lines[..f], text, lines[f]);
      assert AnchorsAt(lex, r, lines, j, f);
    } else {
      OutlastsAlike(lex, r, [], lines[..j], text, text);
    }
  }

  /** What outlasts anything is backed. */
  lemma OutlastingIsBacked(lex: Lexicon, r: seq<Entry>, gone: seq<string>, text: string)
    requires Outlasts(lex, r, gone, text)
    ensures Outlasts(lex, r, [], text)
  {
    hide Outlasts;
    if !Outlasts(lex, r, [], text) { NeverOutlasts(lex, r, gone, text); }
  }

  lemma OutlastsSameText(lex: Lexicon, r: seq<Entry>, t: string, u: string)
    requires lex.canon(t) == lex.canon(u)
    ensures Outlasts(lex, r, [], t) <==> Outlasts(lex, r, [], u)
  {
    hide Outlasts;
    OutlastsAlike(lex, r, [], [], t, u);
  }

  // ---------------------------------------------------------------- one place up

  lemma FirstComesFirst(lex: Lexicon, r: seq<Entry>, lines: seq<string>, g: nat)
    requires TakenFirst(lex, r, lines, g)
    ensures Before(lex, r, lines, g) == 0
  {
    hide Outlasts;
    if Outlasts(lex, r, [], lines[g]) {
      assert lines[..0] == [] && lines[0..] == lines;
      CountBound(lines, t => !Outlasts(lex, r, [], t));
    } else {
      NeverOutlasts(lex, r, lines[..g], lines[g]);
      forall b | 0 <= b < g ensures !AnchorsAt(lex, r, lines, g, b) {
        if lex.canon(lines[b]) == lex.canon(lines[g]) { OutlastsSameText(lex, r, lines[b], lines[g]); }
      }
      NoAnchor(lex, r, lines, g);
      CountBound(lines[..g], t => !Outlasts(lex, r, [], t));
    }
  }

  lemma RemovedAt<T(!new)>(s: seq<T>, g: nat, n: nat)
    requires g < |s| && n < |s| - 1
    ensures RemoveAt(s, g)[n] == s[if n < g then n else n + 1]
  {
  }

  lemma SliceWithout(lines: seq<string>, g: nat, lo: nat, hi: nat)
    requires lo <= g < hi <= |lines|
    ensures RemoveAt(lines, g)[lo..hi - 1] == RemoveAt(lines[lo..hi], g - lo)
  {
    hide RemoveAt;
    var slice := lines[lo..hi];
    var left, right := RemoveAt(lines, g)[lo..hi - 1], RemoveAt(slice, g - lo);
    forall n | 0 <= n < |left| ensures left[n] == right[n] {
      RemovedAt(lines, g, lo + n);
      RemovedAt(slice, g - lo, n);
      assert left[n] == RemoveAt(lines, g)[lo + n];
    }
  }

  lemma BetweenAfter(lex: Lexicon, lines: seq<string>, g: nat, a: nat, j: nat, text: string)
    requires a < j < |lines| && g < |lines| && a != g && j != g && (a < g < j ==> lex.canon(lines[g]) != lex.canon(text))
    ensures LinesOf(lex, RemoveAt(lines, g)[After(a, g) + 1..After(j, g)], text) == LinesOf(lex, lines[a + 1..j], text)
  {
    hide LinesOf;
    var lines' := RemoveAt(lines, g);
    if a < g < j {
      SliceWithout(lines, g, a + 1, j);
      LinesOfRemoveAt(lex, lines[a + 1..j], g - a - 1, text);
    } else if g < a {
      assert lines'[a..j - 1] == lines[a + 1..j];
    } else {
      assert lines'[a + 1..j] == lines[a + 1..j];
    }
  }

  /** A loose line whose anchor stays. */
  lemma BeforeAnchored(lex: Lexicon, r: seq<Entry>, lines: seq<string>, g: nat, now: nat, j: nat)
    requires TakenFirst(lex, r, lines, g) && j < |lines| && j != g && !Firm(lex, r, lines, j)
    requires Anchor(lex, r, lines, j, j) < j && Anchor(lex, r, lines, j, j) != g
    ensures Before(lex, WithoutEvicted(lex, r, lines[g], now), RemoveAt(lines, g), After(j, g)) + 1 == Before(lex, r, lines, j)
  {
    hide WithoutEvicted, GoneBy, Anchor, Outlasts, LinesOf;
    var a := Anchor(lex, r, lines, j, j);
    assert RemoveAt(lines, g)[After(j, g)] == lines[j];
    FirmAfter(lex, r, lines, g, now, j);
    AnchorStays(lex, r, lines, g, now, j);
    GoneByAfter(lex, r, lines, g, now, a);
    OutlastingIsBacked(lex, r, lines[..a], lines[a]);
    if a < g < j && lex.canon(lines[g]) == lex.canon(lines[j]) { OutlastsSameText(lex, r, lines[a], lines[g]); }
    BetweenAfter(lex, lines, g, a, j, lines[j]);
  }

  /** A loose line whose text nothing backs. */
  lemma BeforeUnbacked(lex: Lexicon, r: seq<Entry>, lines: seq<string>, g: nat, now: nat, j: nat)
    requires TakenFirst(lex, r, lines, g) && j < |lines| && j != g && !Firm(lex, r, lines, j) && Anchor(lex, r, lines, j, j) == j
    ensures Before(lex, WithoutEvicted(lex, r, lines[g], now), RemoveAt(lines, g), After(j, g)) + 1 == Before(lex, r, lines, j)
  {
    hide WithoutEvicted, GoneBy, Anchor, Outlasts, LinesOf;
    var r', lines' := WithoutEvicted(lex, r, lines[g], now), RemoveAt(lines, g);
    if Outlasts(lex, r, [], lines[j]) { BackedHasAnchor(lex, r, lines, j); }
    assert g < j && !Outlasts(lex, r, [], lines[g]);
    FirmAfter(lex, r, lines, g, now, j);
    AnchorGone(lex, r, lines, g, now, j);
    var front := lines[..j];
    assert lines'[..j - 1] == RemoveAt(front, g);
    CountRemoveAt(front, g, t => !Outlasts(lex, r, [], t));
    var front' := RemoveAt(front, g);
    forall n | 0 <= n < |front'| ensures Outlasts(lex, r, [], front'[n]) == Outlasts(lex, r', [], front'[n]) {
      OutlastsApart(lex, r, lines, g, now, [], front'[n]);
    }
    CountSame(front', t => !Outlasts(lex, r, [], t), t => !Outlasts(lex, r', [], t));
  }

  /** The line after the last firm one of its text finds the text unbacked. */
  lemma LastBacking(lex: Lexicon, r: seq<Entry>, lines: seq<string>, j: nat)
    requires 0 < j < |lines| && !Firm(lex, r, lines, j) && lex.canon(lines[0]) == lex.canon(lines[j])
    requires forall b :: 0 < b < j ==> !AnchorsAt(lex, r, lines, j, b)
    ensures !Outlasts(lex, r, lines[..1], lines[j])
  {
    hide Outlasts, LinesOf;
    var text := lines[j];
    var b := NextOfText(lex, lines, j);
    assert b < j ==> !AnchorsAt(lex, r, lines, j, b);
    assert !Firm(lex, r, lines, b);
    LinesUpTo(lex, lines, b, text);
    OutlastsAlike(lex, r, lines[..1], lines[..b], text, lines[b]);
  }

  /** The first line after the oldest with the text of line `j`. */
  lemma NextOfText(lex: Lexicon, lines: seq<string>, j: nat) returns (b: nat)
    requires 0 < j < |lines|
    ensures 0 < b <= j && lex.canon(lines[b]) == lex.canon(lines[j])
    ensures forall n :: 1 <= n < b ==> lex.canon(lines[n]) != lex.canon(lines[j])
  {
    b := 1;
    while lex.canon(lines[b]) != lex.canon(lines[j])
      invariant 0 < b <= j
      invariant forall n :: 1 <= n < b ==> lex.canon(lines[n]) != lex.canon(lines[j])
      decreases j - b
    {
      b := b + 1;
    }
  }

  lemma LinesUpTo(lex: Lexicon, lines: seq<string>, b: nat, text: string)
    requires 0 < b <= |lines| && forall n :: 1 <= n < b ==> lex.canon(lines[n]) != lex.canon(text)
    ensures LinesOf(lex, lines[..b], text) == LinesOf(lex, lines[..1], text)
  {
    assert lines[..b] == lines[..1] + lines[1..b];
    CountConcat(lines[..1], lines[1..b], t => lex.canon(t) == lex.canon(text));
    CountBound(lines[1..b], t => lex.canon(t) == lex.canon(text));
  }

  lemma NoneGone(lex: Lexicon, r: seq<Entry>, lines: seq<string>)
    requires forall n :: 0 <= n < |lines| ==> Outlasts(lex, r, [], lines[n])
    ensures GoneBy(lex, r, lines, 0) == 0
  {
    hide Outlasts;
    assert lines[..0] == [] && lines[0..] == lines;
    CountBound(lines, t => !Outlasts(lex, r, [], t));
  }

  /** Once the last entry behind a text is gone, its lines alone are unbacked. */
  lemma OnlyItsLines(lex: Lexicon, r: seq<Entry>, lines: seq<string>, now: nat, text: string, j: nat)
    requires TakenFirst(lex, r, lines, 0) && Outlasts(lex, r, [], lines[0]) && lex.canon(lines[0]) == lex.canon(text)
    requires !Outlasts(lex, WithoutEvicted(lex, r, lines[0], now), [], text) && 0 < j <= |lines|
    ensures Count(lines[1..j], t => !Outlasts(lex, WithoutEvicted(lex, r, lines[0], now), [], t)) == LinesOf(lex, lines[1..j], text)
  {
    hide WithoutEvicted, Outlasts, LinesOf;
    var r', front := WithoutEvicted(lex, r, lines[0], now), lines[1..j];
    forall n | 0 <= n < |front| ensures (!Outlasts(lex, r', [], front[n])) == (lex.canon(front[n]) == lex.canon(text)) {
      assert front[n] == lines[n + 1];
      if lex.canon(front[n]) == lex.canon(text) {
        OutlastsSameText(lex, r', front[n], text);
      } else {
        NoLines(lex, front[n]);
        OutlastsStill(lex, r, lines[0], now, [], [], front[n]);
      }
    }
    CountLines(lex, front, text, t => !Outlasts(lex, r', [], t));
  }

  /** A loose line whose anchor is the line that leaves: its text is unbacked from then on. */
  lemma BeforeUnanchored(lex: Lexicon, r: seq<Entry>, lines: seq<string>, g: nat, now: nat, j: nat)
    requires TakenFirst(lex, r, lines, g) && j < |lines| && j != g && !Firm(lex, r, lines, j) && Anchor(lex, r, lines, j, j) == g < j
    ensures Before(lex, WithoutEvicted(lex, r, lines[g], now), RemoveAt(lines, g), After(j, g)) + 1 == Before(lex, r, lines, j)
  {
    hide WithoutEvicted, Anchor, Outlasts, LinesOf, GoneBy, Count, Before, Firm, RemoveAt;
    var r', lines' := WithoutEvicted(lex, r, lines[g], now), RemoveAt(lines, g);
    AnchorIsBacked(lex, r, lines, j);
    NoneGone(lex, r, lines);
    FirmAfter(lex, r, lines, g, now, j);
    AnchorGone(lex, r, lines, g, now, j);
    LastBacking(lex, r, lines, j);
    OutlastsAfter(lex, r, lines, 0, now, 1, lines[j]);
    WithoutFirst(lines, j);
    OnlyItsLines(lex, r, lines, now, lines[j], j);
    BeforeIs(lex, r, lines, j);
    BeforeIs(lex, r', lines', j - 1);
  }

  lemma AnchorIsBacked(lex: Lexicon, r: seq<Entry>, lines: seq<string>, j: nat)
    requires j < |lines| && Anchor(lex, r, lines, j, j) < j
    ensures Outlasts(lex, r, [], lines[Anchor(lex, r, lines, j, j)])
  {
    hide Outlasts;
    var a := Anchor(lex, r, lines, j, j);
    OutlastingIsBacked(lex, r, lines[..a], lines[a]);
  }

  lemma WithoutFirst(lines: seq<string>, j: nat)
    requires 0 < j < |lines|
    ensures RemoveAt(lines, 0)[..0] == [] && RemoveAt(lines, 0)[..j - 1] == lines[1..j] && RemoveAt(lines, 0)[j - 1] == lines[j]
  {
  }

  lemma BeforeIs(lex: Lexicon, r: seq<Entry>, lines: seq<string>, j: nat)
    requires j < |lines| && !Firm(lex, r, lines, j)
    ensures var a := Anchor(lex, r, lines, j, j);
            Before(lex, r, lines, j) == if a < j then GoneBy(lex, r, lines, a) + 1 + LinesOf(lex, lines[a + 1..j], lines[j])
                                        else Count(lines[..j], t => !Outlasts(lex, r, [], t))
  {
    hide Anchor, GoneBy, LinesOf, Outlasts, Count, Firm;
  }

  lemma CountLines(lex: Lexicon, lines: seq<string>, text: string, p: string -> bool)
    requires forall n :: 0 <= n < |lines| ==> p(lines[n]) == (lex.canon(lines[n]) == lex.canon(text))
    ensures Count(lines, p) == LinesOf(lex, lines, text)
  {
    CountSame(lines, p, t => lex.canon(t) == lex.canon(text));
  }

  /** After the first eviction every line is one place nearer to its own. */
  lemma OnePlaceUp(lex: Lexicon, r: seq<Entry>, lines: seq<string>, g: nat, now: nat, j: nat)
    requires TakenFirst(lex, r, lines, g) && j < |lines| && j != g
    ensures Before(lex, WithoutEvicted(lex, r, lines[g], now), RemoveAt(lines, g), After(j, g)) + 1 == Before(lex, r, lines, j)
  {
    hide WithoutEvicted, Anchor, TakenFirst, GoneBy, LinesOf, Outlasts;
    var a := Anchor(lex, r, lines, j, j);
    if Firm(lex, r, lines, j) {
      FirmAfter(lex, r, lines, g, now, j);
      GoneByAfter(lex, r, lines, g, now, j);
    } else if a == j {
      BeforeUnbacked(lex, r, lines, g, now, j);
    } else if a == g {
      BeforeUnanchored(lex, r, lines, g, now, j);
    } else {
      BeforeAnchored(lex, r, lines, g, now, j);
    }
  }

  // ---------------------------------------------------------------- the whole cap

  /** Line `j` is among those the cap takes. */
  predicate Leaves(lex: Lexicon, cap: nat, r: seq<Entry>, lines: seq<string>, j: nat)
    requires j < |lines|
  {
    Before(lex, r, lines, j) + cap < |lines|
  }

  /** The first `n` lines without those the cap takes. */
  function Kept(lex: Lexicon, cap: nat, r: seq<Entry>, lines: seq<string>, n: nat): seq<string>
    requires n <= |lines|
  {
    if n == 0 then []
    else Kept(lex, cap, r, lines, n - 1) + if Leaves(lex, cap, r, lines, n - 1) then [] else [lines[n - 1]]
  }

  lemma LeavesAfter(lex: Lexicon, cap: nat, r: seq<Entry>, lines: seq<string>, g: nat, now: nat, j: nat)
    requires TakenFirst(lex, r, lines, g) && j < |lines| && j != g
    ensures Leaves(lex, cap, r, lines, j) <==> Leaves(lex, cap, WithoutEvicted(lex, r, lines[g], now), RemoveAt(lines, g), After(j, g))
  {
    hide Before, WithoutEvicted, Outlasts;
    OnePlaceUp(lex, r, lines, g, now, j);
  }

  lemma {:induction false} KeptAfter(lex: Lexicon, cap: nat, r: seq<Entry>, lines: seq<string>, g: nat, now: nat, n: nat)
    requires TakenFirst(lex, r, lines, g) && cap < |lines| && n <= |lines|
    ensures Kept(lex, cap, r, lines, n)
         == Kept(lex, cap, WithoutEvicted(lex, r, lines[g], now), RemoveAt(lines, g), if n <= g then n else n - 1)
  {
    hide Before, WithoutEvicted, Outlasts;
    if n > 0 {
      KeptAfter(lex, cap, r, lines, g, now, n - 1);
      if n - 1 == g {
        FirstComesFirst(lex, r, lines, g);
      } else {
        LeavesAfter(lex, cap, r, lines, g, now, n - 1);
        assert RemoveAt(lines, g)[After(n - 1, g)] == lines[n - 1];
      }
    }
  }

  lemma {:induction false} NothingLeaves(lex: Lexicon, cap: nat, r: seq<Entry>, lines: seq<string>, n: nat)
    requires |lines| <= cap && n <= |lines|
    ensures Kept(lex, cap, r, lines, n) == lines[..n]
  {
    hide Before;
    if n > 0 {
      NothingLeaves(lex, cap, r, lines, n - 1);
      assert lines[..n] == lines[..n - 1] + [lines[n - 1]];
    }
  }

  /** The whole loop: the cap leaves exactly the lines whose place in the order is beyond those it has to take. */
  lemma {:induction false} CapKeeps(env: Env, s: Ledger, now: nat)
    ensures Lines(HoldToCap(env, s, now), NOTES) == Kept(env.lex, env.pack.cap(NOTES), s.registry, Lines(s, NOTES), |Lines(s, NOTES)|)
    decreases |Lines(s, NOTES)|
  {
    hide Kept, TakenFirst, Surplus, EvictNote, Lines, RemoveAt, WithoutEvicted;
    var lex, cap, lines := env.lex, env.pack.cap(NOTES), Lines(s, NOTES);
    if |lines| > cap {
      var g := Surplus(lex, s);
      EvictionIs(lex, s, g, now);
      SurplusTakenFirst(lex, s);
      KeptAfter(lex, cap, s.registry, lines, g, now, |lines|);
      CapKeeps(env, EvictNote(lex, s, g, now), now);
    } else {
      NothingLeaves(lex, cap, s.registry, lines, |lines|);
      assert lines[..|lines|] == lines;
    }
  }

  // ---------------------------------------------------------------- the entries that go with them

  /** As many lines of the entry's text come before line `j` as entries come before it: they leave together. */
  predicate GoesWith(lex: Lexicon, r: seq<Entry>, lines: seq<string>, k: nat, j: nat)
    requires k < |r| && j < |lines|
  {
    lex.canon(lines[j]) == lex.canon(r[k].content) && LinesOf(lex, lines[..j], r[k].content) == Ahead(lex, r, r[k].content, k)
  }

  /** The line the entry goes with leaves. */
  predicate TurnComes(lex: Lexicon, cap: nat, r: seq<Entry>, lines: seq<string>, k: nat)
    requires k < |r|
  {
    exists j :: 0 <= j < |lines| && GoesWith(lex, r, lines, k, j) && Leaves(lex, cap, r, lines, j)
  }

  lemma FirstOfItsText(lex: Lexicon, r: seq<Entry>, lines: seq<string>, g: nat, text: string)
    requires TakenFirst(lex, r, lines, g) && lex.canon(lines[g]) == lex.canon(text)
    ensures LinesOf(lex, lines[..g], text) == 0
  {
    hide Outlasts;
    forall n | 0 <= n < g ensures lex.canon(lines[..g][n]) != lex.canon(text) {
      if lex.canon(lines[n]) == lex.canon(text) { OutlastsSameText(lex, r, lines[n], lines[g]); }
    }
    CountBound(lines[..g], t => lex.canon(t) == lex.canon(text));
  }

  lemma GoesWithAfter(lex: Lexicon, r: seq<Entry>, lines: seq<string>, g: nat, now: nat, k: nat, j: nat)
    requires TakenFirst(lex, r, lines, g) && j < |lines| && j != g && k < |r| && Evictable(lex, r[k].content, r[k]) && Evicted(lex, r, lines[g]) != k
    ensures var r' := WithoutEvicted(lex, r, lines[g], now);
            r'[k] == r[k] && (GoesWith(lex, r, lines, k, j) <==> GoesWith(lex, r', RemoveAt(lines, g), k, After(j, g)))
  {
    hide LinesOf, Ahead, Outlasts, Evicted;
    var text, lines' := r[k].content, RemoveAt(lines, g);
    EvictedAt(lex, r, lines[g], now, k);
    AheadAfterEviction(lex, r, lines[g], now, text, k);
    assert lines'[After(j, g)] == lines[j];
    if g < j {
      assert lines'[..j - 1] == RemoveAt(lines[..j], g);
      LinesOfRemoveAt(lex, lines[..j], g, text);
    } else {
      assert lines'[..j] == lines[..j];
      if lex.canon(lines[g]) == lex.canon(text) && lex.canon(lines[j]) == lex.canon(text) { OutlastsSameText(lex, r, lines[j], lines[g]); }
    }
  }

  /** The eviction of one line, seen from an entry that may go with it. */
  lemma EvictedAt(lex: Lexicon, r: seq<Entry>, line: string, now: nat, k: nat)
    requires k < |r| && Evictable(lex, r[k].content, r[k])
    ensures Evicted(lex, r, line) == k ==> lex.canon(line) == lex.canon(r[k].content) && !Active(WithoutEvicted(lex, r, line, now)[k])
    ensures Evicted(lex, r, line) != k ==> WithoutEvicted(lex, r, line, now)[k] == r[k]
    ensures lex.canon(line) == lex.canon(r[k].content) ==> Evicted(lex, r, line) <= k
  {
    if lex.canon(line) == lex.canon(r[k].content) { assert Evictable(lex, line, r[k]); }
  }

  /** The first line to leave is not the entry's, unless the entry is the one that goes. */
  lemma NotItsTurnYet(lex: Lexicon, r: seq<Entry>, lines: seq<string>, g: nat, k: nat)
    requires TakenFirst(lex, r, lines, g) && k < |r| && Evictable(lex, r[k].content, r[k])
    ensures GoesWith(lex, r, lines, k, g) <==> Evicted(lex, r, lines[g]) == k
  {
    hide LinesOf, Ahead, Outlasts, Evicted;
    var text := r[k].content;
    EvictedAt(lex, r, lines[g], 0, k);
    if lex.canon(lines[g]) == lex.canon(text) {
      FirstOfItsText(lex, r, lines, g, text);
      if Evicted(lex, r, lines[g]) == k { NoneAhead(lex, r, text, k); } else { AheadAfterEviction(lex, r, lines[g], 0, text, k); }
    }
  }

  lemma TurnAfter(lex: Lexicon, cap: nat, r: seq<Entry>, lines: seq<string>, g: nat, now: nat, k: nat)
    requires TakenFirst(lex, r, lines, g) && k < |r| && Evictable(lex, r[k].content, r[k]) && Evicted(lex, r, lines[g]) != k
    ensures TurnComes(lex, cap, r, lines, k) <==> TurnComes(lex, cap, WithoutEvicted(lex, r, lines[g], now), RemoveAt(lines, g), k)
  {
    hide GoesWith, Leaves, Outlasts, WithoutEvicted, Evicted;
    var r', lines' := WithoutEvicted(lex, r, lines[g], now), RemoveAt(lines, g);
    if TurnComes(lex, cap, r, lines, k) {
      var j :| 0 <= j < |lines| && GoesWith(lex, r, lines, k, j) && Leaves(lex, cap, r, lines, j);
      NotItsTurnYet(lex, r, lines, g, k);
      GoesWithAfter(lex, r, lines, g, now, k, j);
      LeavesAfter(lex, cap, r, lines, g, now, j);
      assert GoesWith(lex, r', lines', k, After(j, g));
    }
    if TurnComes(lex, cap, r', lines', k) {
      var i :| 0 <= i < |lines'| && GoesWith(lex, r', lines', k, i) && Leaves(lex, cap, r', lines', i);
      var j := Origin(i, g);
      GoesWithAfter(lex, r, lines, g, now, k, j);
      LeavesAfter(lex, cap, r, lines, g, now, j);
      assert GoesWith(lex, r, lines, k, j);
    }
  }

  /** The whole loop: an entry that may go with a line goes exactly when the line it goes with leaves. */
  lemma {:induction false} CapTakesIff(env: Env, s: Ledger, now: nat, k: nat)
    requires k < |s.registry| && Evictable(env.lex, s.registry[k].content, s.registry[k])
    ensures var s' := HoldToCap(env, s, now);
            && |s'.registry| == |s.registry|
            && (Active(s'.registry[k]) <==> !TurnComes(env.lex, env.pack.cap(NOTES), s.registry, Lines(s, NOTES), k))
    decreases |Lines(s, NOTES)|
  {
    hide GoesWith, Leaves, TakenFirst, Surplus, EvictNote, Lines, RemoveAt, Evicted, WithoutEvicted;
    var lex, cap, r, lines := env.lex, env.pack.cap(NOTES), s.registry, Lines(s, NOTES);
    CapKeepsLength(env, s, now);
    if |lines| > cap {
      var g := Surplus(lex, s);
      var s1 := EvictNote(lex, s, g, now);
      EvictionIs(lex, s, g, now);
      SurplusTakenFirst(lex, s);
      EvictedAt(lex, r, lines[g], now, k);
      if Evicted(lex, r, lines[g]) == k {
        NotItsTurnYet(lex, r, lines, g, k);
        FirstLeaves(lex, cap, r, lines, g);
        HoldToCapEntries(env, s1, now);
        InactiveForGood(s1.registry, HoldToCap(env, s1, now).registry, {}, k);
      } else {
        TurnAfter(lex, cap, r, lines, g, now, k);
        CapTakesIff(env, s1, now, k);
      }
    } else {
      NoneLeave(lex, cap, r, lines);
    }
  }

  lemma FirstLeaves(lex: Lexicon, cap: nat, r: seq<Entry>, lines: seq<string>, g: nat)
    requires TakenFirst(lex, r, lines, g) && cap < |lines|
    ensures Leaves(lex, cap, r, lines, g)
  {
    hide Before, TakenFirst;
    FirstComesFirst(lex, r, lines, g);
  }

  lemma NoneLeave(lex: Lexicon, cap: nat, r: seq<Entry>, lines: seq<string>)
    requires |lines| <= cap
    ensures forall j :: 0 <= j < |lines| ==> !Leaves(lex, cap, r, lines, j)
  {
    hide Before;
  }
}
