/** A run and the run resumed from one of its bookmarks, together. */
module EventTwoRuns {
  import opened Wrappers
  import opened EventSegments
  import opened EventCursors
  import opened EventResume

  /** What a run resumed from a bookmark starts from. */
  ghost function Resuming(w: World, b: Bookmark): World {
    w.(seed := map rel | rel in w.segments :: Position(b.tracker, rel))
  }

  ghost predicate BookmarkOf(w: World, actions: seq<Action>, b: Bookmark) {
    After(w, actions).Some? && b in After(w, actions).value.bookmarks
  }

  /** A run, one of its bookmarks, and a run resumed from that. */
  ghost predicate TwoRuns(w: World, actions: seq<Action>, b: Bookmark, again: seq<Action>) {
    BookmarkOf(w, actions, b) && After(Resuming(w, b), again).Some?
  }

  /** The resumed run goes on with the records of a segment that its bookmark named. */
  lemma ResumedWorld(w: World, b: Bookmark, rel: Rel)
    requires rel in w.segments
    ensures rel in Resuming(w, b).segments && StartOf(Resuming(w, b), rel) == Position(b.tracker, rel)
    ensures Everything(Resuming(w, b), rel) == MatchingFrom(w, rel, Position(b.tracker, rel))
    ensures forall from :: MatchingFrom(Resuming(w, b), rel, from) == MatchingFrom(w, rel, from)
  {
  }

  /** What a run printed of a segment is among all there is of it. */
  lemma {:induction false} PrintedIsThere(w: World, actions: seq<Action>, rel: Rel, x: OutRecord)
    requires rel in w.segments && After(w, actions).Some?
    requires x in After(w, actions).value.printed && x.Stored? && x.rel == rel
    ensures x in Everything(w, rel)
  {
    hide After, OfRel, Everything, MatchingFrom, ReadSoFar, InKeyOrder, ReadsOn, Unconsumed;
    var r := After(w, actions).value;
    RunTracks(w, actions, rel);
    EverythingSplits(w, r, rel);
    PrintedIsConsumed(w, actions, x);
    InOfRel(rel, r.consumed, x);
    assert x in multiset(OfRel(rel, r.consumed));
    assert x in multiset(ReadSoFar(w, r, rel));
  }

  // ---------------------------------------------------------------- printed twice

  /** A record of a segment printed before the bookmark and by the run resumed from it. */
  ghost predicate PrintedTwice(w: World, rel: Rel, actions: seq<Action>, b: Bookmark, again: seq<Action>, x: OutRecord) {
    && TwoRuns(w, actions, b, again)
    && x.Stored? && x.rel == rel && x in b.printed && x in After(Resuming(w, b), again).value.printed
  }

  /** Anything a run could print, some run prints. */
  lemma {:induction false} SomeRunPrints(w: World, rel: Rel, x: OutRecord) returns (actions: seq<Action>)
    requires rel in w.segments && x in Everything(w, rel)
    ensures After(w, actions).Some? && x in After(w, actions).value.printed
  {
    hide After, StableSort, Everything;
    var all := Everything(w, rel);
    var sorted := StableSort(all);
    var b;
    actions, b := CutRun(w, rel, |all| - 1);
    assert x in multiset(all) && multiset(all) == multiset(sorted);
    assert sorted[..|all|] == sorted;
  }

  lemma {:induction false} TwiceIsRepeated(w: World, rel: Rel, actions: seq<Action>, b: Bookmark, again: seq<Action>, x: OutRecord)
    requires rel in w.segments && PrintedTwice(w, rel, actions, b, again, x)
    ensures Repeats(w, b, rel, x)
  {
    hide After, Everything, MatchingFrom, Position;
    ResumedWorld(w, b, rel);
    PrintedIsThere(Resuming(w, b), again, rel, x);
  }

  /**
   Some run, one of its bookmarks and a run resumed from it print a record of a segment twice, if and only if the
   segment's matching lines are out of merge-key order.
   */
  lemma {:induction false} RepeatsIffDisordered(w: World, rel: Rel)
    requires rel in w.segments
    ensures (exists actions, b, again, x :: PrintedTwice(w, rel, actions, b, again, x))
            <==> !InKeyOrder(Everything(w, rel))
  {
    hide After, InKeyOrder, Everything, MatchingFrom, Repeats;
    if InKeyOrder(Everything(w, rel)) {
      forall actions, b, again, x ensures !PrintedTwice(w, rel, actions, b, again, x) {
        if PrintedTwice(w, rel, actions, b, again, x) {
          TwiceIsRepeated(w, rel, actions, b, again, x);
          OrderedBookmark(w, actions, rel, b);
        }
      }
    } else {
      var actions, b, x := OutOfTurn(w, rel);
      RepeatedIsThere(w, rel, b, x);
      var again := SomeRunPrints(Resuming(w, b), rel, x);
      assert PrintedTwice(w, rel, actions, b, again, x);
    }
  }

  lemma RepeatedIsThere(w: World, rel: Rel, b: Bookmark, x: OutRecord)
    requires rel in w.segments && Repeats(w, b, rel, x)
    ensures rel in Resuming(w, b).segments && x in Everything(Resuming(w, b), rel) && x.Stored? && x.rel == rel && x in b.printed
  {
    hide Everything, MatchingFrom, Position;
    ResumedWorld(w, b, rel);
    AllStored(Resuming(w, b), rel);
  }

  // ---------------------------------------------------------------- two runs in all

  /** What both runs consumed of a segment, and what the second leaves, are all its matching records in order. */
  ghost predicate Seamless(w: World, rel: Rel, b: Bookmark, again: seq<Action>)
    requires rel in w.segments && After(Resuming(w, b), again).Some?
  {
    var second := After(Resuming(w, b), again).value;
    OfRel(rel, b.consumed) + OfRel(rel, second.consumed) + Resumed(Resuming(w, b), second, rel) == Everything(w, rel)
  }

  lemma {:induction false} RestInOrder(a: seq<OutRecord>, b: seq<OutRecord>)
    requires InKeyOrder(a + b)
    ensures InKeyOrder(b)
  {
    forall i, j | 0 <= i < j < |b| ensures KeyAtMost(SortKey(b[i]), SortKey(b[j])) {
      assert (a + b)[|a| + i] == b[i] && (a + b)[|a| + j] == b[j];
    }
  }

  lemma {:induction false} OrderedIsSeamless(w: World, rel: Rel, actions: seq<Action>, b: Bookmark, again: seq<Action>)
    requires rel in w.segments && TwoRuns(w, actions, b, again) && InKeyOrder(Everything(w, rel))
    ensures Seamless(w, rel, b, again)
  {
    hide After, InKeyOrder, OfRel, Everything, MatchingFrom, Position;
    var j := BookmarkMoment(w, actions, b);
    OrderedIsExact(w, actions[..j], rel);
    ResumedWorld(w, b, rel);
    var (c, rest) := (OfRel(rel, b.consumed), Everything(Resuming(w, b), rel));
    RestInOrder(c, rest);
    OrderedIsExact(Resuming(w, b), again, rel);
    var second := After(Resuming(w, b), again).value;
    Grouped(c, OfRel(rel, second.consumed), Resumed(Resuming(w, b), second, rel));
  }

  lemma Grouped<T>(a: seq<T>, b: seq<T>, c: seq<T>)
    ensures a + b + c == a + (b + c)
  {
  }

  /** A resumed run that has done nothing leaves all that its bookmark left. */
  lemma {:induction false} NothingDone(w: World, rel: Rel, b: Bookmark)
    requires rel in w.segments && After(Resuming(w, b), []).Some? && Seamless(w, rel, b, [])
    ensures Exact(w, b, rel)
  {
    hide Everything, MatchingFrom;
    ResumedWorld(w, b, rel);
    var begin := Begin(Resuming(w, b));
    assert After(Resuming(w, b), []).value == begin && begin.consumed == [];
    NoOfRel(rel);
    var (c, rest) := (OfRel(rel, b.consumed), MatchingFrom(w, rel, Position(b.tracker, rel)));
    assert Position(begin.tracker, rel) == Position(b.tracker, rel);
    assert c + [] + rest == c + rest;
  }

  /** Any run and any run resumed from any of its bookmarks are seamless, if and only if the lines are in order. */
  lemma {:induction false} SeamlessIffOrdered(w: World, rel: Rel)
    requires rel in w.segments
    ensures (forall actions, b, again | TwoRuns(w, actions, b, again) :: Seamless(w, rel, b, again))
            <==> InKeyOrder(Everything(w, rel))
  {
    hide After, InKeyOrder, Everything, MatchingFrom, Exact, Seamless, Resuming;
    if InKeyOrder(Everything(w, rel)) {
      forall actions, b, again | TwoRuns(w, actions, b, again) ensures Seamless(w, rel, b, again) {
        OrderedIsSeamless(w, rel, actions, b, again);
      }
    } else {
      var actions, b, x := OutOfTurn(w, rel);
      NothingYet(Resuming(w, b));
      assert TwoRuns(w, actions, b, []);
      if Seamless(w, rel, b, []) {
        NothingDone(w, rel, b);
      }
    }
  }
}
