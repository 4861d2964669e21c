/** A cursor never loses an event, and accounts for each once exactly when the lines are in merge-key order. */
module EventResume {
  import opened Wrappers
  import opened Bytes
  import opened EventSegments
  import opened EventCursors

  function StartOf(w: World, rel: Rel): nat {
    if rel in w.seed then w.seed[rel] else 0
  }

  /** The records of a segment from a position to its end. */
  function RecordsFrom(w: World, rel: Rel, from: nat): seq<SegmentRecord>
    requires rel in w.segments
  {
    ReadFrom(w.segments[rel], from, w.parse).records
  }

  /** Those of them that pass the filters. */
  function MatchingFrom(w: World, rel: Rel, from: nat): seq<OutRecord>
    requires rel in w.segments
  {
    Matching(rel, RecordsFrom(w, rel, from), w.passes)
  }

  /** Everything a run could print of a segment. */
  function Everything(w: World, rel: Rel): seq<OutRecord>
    requires rel in w.segments
  {
    MatchingFrom(w, rel, StartOf(w, rel))
  }

  /** What a run resumed from a cursor taken now reads of a segment. */
  ghost function Resumed(w: World, r: Reader, rel: Rel): seq<OutRecord>
    requires rel in w.segments
  {
    MatchingFrom(w, rel, Position(r.tracker, rel))
  }

  predicate EndsWith<T(==)>(s: seq<T>, tail: seq<T>) {
    |tail| <= |s| && s[|s| - |tail|..] == tail
  }

  /** The records read so far, given those left to read. */
  function Early<T>(s: seq<T>, tail: seq<T>): seq<T>
    requires |tail| <= |s|
  {
    s[..|s| - |tail|]
  }

  function ReadSoFar(w: World, r: Reader, rel: Rel): seq<OutRecord>
    requires rel in w.segments && ReadsOn(w, r, rel)
  {
    Matching(rel, Early(RecordsFrom(w, rel, StartOf(w, rel)), RecordsFrom(w, rel, ReadToOf(r.tracker, rel))), w.passes)
  }

  /** What is left to read is the rest of the segment. */
  predicate ReadsOn(w: World, r: Reader, rel: Rel)
    requires rel in w.segments
  {
    EndsWith(RecordsFrom(w, rel, StartOf(w, rel)), RecordsFrom(w, rel, ReadToOf(r.tracker, rel)))
  }

  function Unconsumed(r: Reader, rel: Rel): seq<OutRecord> {
    OfRel(rel, r.queue) + OfRel(rel, r.collected)
  }

  ghost predicate Tracks(w: World, r: Reader, rel: Rel)
    requires rel in w.segments
  {
    && ReadsOn(w, r, rel)
    && multiset(ReadSoFar(w, r, rel)) == multiset(OfRel(rel, r.consumed)) + multiset(Unconsumed(r, rel))
    && PendingOf(r.tracker, rel) == Starts(Unconsumed(r, rel))
    && (InKeyOrder(Everything(w, rel)) ==> OfRel(rel, r.consumed) + Unconsumed(r, rel) == ReadSoFar(w, r, rel))
  }

  predicate Shape(r: Reader) {
    (!r.emitting ==> r.queue == []) && (r.emitting ==> r.collected == [])
  }

  // ---------------------------------------------------------------- matching records

  lemma {:induction false} MatchingAt(rel: Rel, records: seq<SegmentRecord>, passes: Event -> bool, k: nat) returns (j: nat)
    requires k < |Matching(rel, records, passes)|
    ensures j < |records| && Matching(rel, records, passes)[k] == Stored(records[j].event, rel, records[j].start)
    ensures |Matching(rel, records[..j], passes)| == k
  {
    var n := |records| - 1;
    if k < |Matching(rel, records[..n], passes)| {
      j := MatchingAt(rel, records[..n], passes, k);
      assert records[..n][..j] == records[..j];
    } else {
      j := n;
    }
  }

  lemma {:induction false} MatchingIsOfRel(rel: Rel, other: Rel, records: seq<SegmentRecord>, passes: Event -> bool)
    ensures OfRel(other, Matching(rel, records, passes)) == if other == rel then Matching(rel, records, passes) else []
    ensures forall x :: x in Matching(rel, records, passes) ==> x.Stored? && x.rel == rel
  {
    hide OfRel;
    if records == [] {
      OfRelSplit(other, [], []);
      NoOfRel(other);
    } else {
      var n := |records| - 1;
      var m := Matching(rel, records[..n], passes);
      var last := Stored(records[n].event, rel, records[n].start);
      MatchingIsOfRel(rel, other, records[..n], passes);
      OfRelSplit(other, m, [last]);
      OfRelOne(other, last);
      assert m + [] == m;
    }
  }

  lemma NoOfRel(rel: Rel)
    ensures OfRel(rel, []) == []
  {
  }

  predicate StartsBefore(a: OutRecord, b: OutRecord) {
    a.Stored? && b.Stored? && a.start < b.start
  }

  predicate DistinctStarts(rs: seq<OutRecord>) {
    forall i, j :: 0 <= i < j < |rs| ==> StartsBefore(rs[i], rs[j])
  }

  lemma {:induction false} MatchingGrows(w: World, rel: Rel, from: nat)
    requires rel in w.segments
    ensures DistinctStarts(MatchingFrom(w, rel, from))
  {
    var records := RecordsFrom(w, rel, from);
    forall i, j | 0 <= i < j < |records| ensures records[i].start < records[j].start {
      StartsGrow(w.segments[rel], from, w.parse, i, j);
    }
    GrowingMatches(rel, records, w.passes, MatchingFrom(w, rel, from));
  }

  lemma {:induction false} GrowingPair(rel: Rel, records: seq<SegmentRecord>, passes: Event -> bool, i: nat, j: nat)
    requires forall i, j :: 0 <= i < j < |records| ==> records[i].start < records[j].start
    requires i < j < |Matching(rel, records, passes)|
    ensures StartsBefore(Matching(rel, records, passes)[i], Matching(rel, records, passes)[j])
  {
    hide Matching;
    var a := MatchingAt(rel, records, passes, i);
    var b := MatchingAt(rel, records, passes, j);
    if b <= a {
      FewerMatch(rel, records, passes, b, a);
    }
    assert records[a].start < records[b].start;
  }

  lemma {:induction false} GrowingMatches(rel: Rel, records: seq<SegmentRecord>, passes: Event -> bool, ms: seq<OutRecord>)
    requires forall i, j :: 0 <= i < j < |records| ==> records[i].start < records[j].start
    requires ms == Matching(rel, records, passes)
    ensures DistinctStarts(ms)
  {
    forall i, j | 0 <= i < j < |ms| ensures StartsBefore(ms[i], ms[j]) {
      GrowingPair(rel, records, passes, i, j);
    }
  }

  lemma {:induction false} FewerMatch(rel: Rel, records: seq<SegmentRecord>, passes: Event -> bool, b: nat, a: nat)
    requires b <= a <= |records|
    ensures |Matching(rel, records[..b], passes)| <= |Matching(rel, records[..a], passes)|
  {
    hide Matching;
    assert records[..a] == records[..b] + records[b..a];
    MatchingSplit(rel, records[..b], records[b..a], passes);
  }

  /** Records with distinct starts each occur once. */
  lemma {:induction false} OnceEach(rs: seq<OutRecord>, x: OutRecord)
    requires DistinctStarts(rs) && (|rs| == 1 ==> rs[0].Stored?)
    ensures multiset(rs)[x] <= 1
  {
    if |rs| > 1 {
      var n := |rs| - 1;
      assert rs == rs[..n] + [rs[n]];
      if |rs[..n]| == 1 {
        assert rs[0].Stored?;
      }
      OnceEach(rs[..n], x);
      if x == rs[n] {
        assert x !in rs[..n];
      }
    } else if |rs| == 1 {
      assert rs == [rs[0]];
    }
  }

  // ---------------------------------------------------------------- multisets and starts

  lemma {:induction false} OfRelCounts(rel: Rel, rs: seq<OutRecord>, x: OutRecord)
    ensures multiset(OfRel(rel, rs))[x] == if x.Stored? && x.rel == rel then multiset(rs)[x] else 0
  {
    hide OfRel;
    if rs == [] {
      NoOfRel(rel);
    } else {
      var n := |rs| - 1;
      OfRelCounts(rel, rs[..n], x);
      assert rs == rs[..n] + [rs[n]];
      OfRelSplit(rel, rs[..n], [rs[n]]);
      OfRelOne(rel, rs[n]);
    }
  }

  lemma {:induction false} SameOfRel(rel: Rel, a: seq<OutRecord>, b: seq<OutRecord>)
    requires multiset(a) == multiset(b)
    ensures multiset(OfRel(rel, a)) == multiset(OfRel(rel, b))
  {
    hide OfRel;
    forall x ensures multiset(OfRel(rel, a))[x] == multiset(OfRel(rel, b))[x] {
      OfRelCounts(rel, a, x);
      OfRelCounts(rel, b, x);
    }
  }

  lemma {:induction false} DifferentStarts(all: seq<OutRecord>, a: seq<OutRecord>, b: seq<OutRecord>, x: OutRecord, y: OutRecord)
    requires DistinctStarts(all) && (|all| == 1 ==> all[0].Stored?)
    requires multiset(a) + multiset(b) <= multiset(all)
    requires x in a && x.Stored? && y in b && y.Stored?
    ensures x.start != y.start
  {
    assert multiset(a)[x] >= 1 && multiset(b)[y] >= 1;
    assert x in multiset(all) && y in multiset(all);
    OnceEach(all, x);
    assert x.start == y.start ==> x == y;
    assert x == y ==> (multiset(a) + multiset(b))[x] >= 2;
  }

  /** Parts of a sequence of records with distinct starts have no start in common. */
  lemma {:induction false} PartsApart(all: seq<OutRecord>, a: seq<OutRecord>, b: seq<OutRecord>)
    requires DistinctStarts(all) && (|all| == 1 ==> all[0].Stored?)
    requires multiset(a) + multiset(b) <= multiset(all)
    ensures Starts(a) !! Starts(b)
  {
    forall x, y | x in a && x.Stored? && y in b && y.Stored? ensures x.start != y.start {
      DifferentStarts(all, a, b, x, y);
    }
  }

  lemma {:induction false} StartsSplit(a: seq<OutRecord>, b: seq<OutRecord>)
    ensures Starts(a + b) == Starts(a) + Starts(b)
  {
    forall s ensures s in Starts(a + b) <==> s in Starts(a) + Starts(b) {
      if s in Starts(a) {
        var x :| x in a && x.Stored? && x.start == s;
        assert x in a + b;
      }
      if s in Starts(b) {
        var x :| x in b && x.Stored? && x.start == s;
        assert x in a + b;
      }
    }
  }

  // ---------------------------------------------------------------- the tracker over sequences

  lemma {:induction false} PendingAfter(t: Tracker, rs: seq<OutRecord>, rel: Rel)
    ensures PendingOf(ConsumedAll(t, rs), rel) == PendingOf(t, rel) - Starts(OfRel(rel, rs))
    ensures ConsumedAll(t, rs).readTo == t.readTo
  {
    hide OfRel;
    if rs == [] {
      NoOfRel(rel);
    } else {
      var n := |rs| - 1;
      PendingAfter(t, rs[..n], rel);
      PendingOne(ConsumedAll(t, rs[..n]), rs[n], rel);
      OfRelSplit(rel, rs[..n], [rs[n]]);
      assert rs == rs[..n] + [rs[n]];
      StartsSplit(OfRel(rel, rs[..n]), OfRel(rel, [rs[n]]));
    }
  }

  lemma {:induction false} PendingOne(t: Tracker, x: OutRecord, rel: Rel)
    ensures PendingOf(Consumed(t, x), rel) == PendingOf(t, rel) - Starts(OfRel(rel, [x]))
    ensures Consumed(t, x).readTo == t.readTo
  {
    OfRelOne(rel, x);
    if x.Stored? && x.rel == rel {
      assert Starts([x]) == {x.start};
    } else {
      assert Starts([]) == {};
    }
  }

  lemma {:induction false} PendingNoted(t: Tracker, rs: seq<OutRecord>, rel: Rel)
    ensures PendingOf(NoteAll(t, rs), rel) == PendingOf(t, rel) + Starts(OfRel(rel, rs))
    ensures NoteAll(t, rs).readTo == t.readTo
  {
    hide OfRel;
    if rs == [] {
      NoOfRel(rel);
    } else {
      var n := |rs| - 1;
      PendingNoted(t, rs[..n], rel);
      OfRelSplit(rel, rs[..n], [rs[n]]);
      OfRelOne(rel, rs[n]);
      assert rs == rs[..n] + [rs[n]];
      StartsSplit(OfRel(rel, rs[..n]), OfRel(rel, [rs[n]]));
      if rs[n].Stored? && rs[n].rel == rel {
        assert Starts([rs[n]]) == {rs[n].start};
      } else {
        assert Starts([]) == {};
      }
    }
  }

  // ---------------------------------------------------------------- each action keeps track

  /** What was read so far is a start of everything. */
  lemma {:induction false} EverythingSplits(w: World, r: Reader, rel: Rel)
    requires rel in w.segments && ReadsOn(w, r, rel)
    ensures Everything(w, rel) == ReadSoFar(w, r, rel) + MatchingFrom(w, rel, ReadToOf(r.tracker, rel))
    ensures DistinctStarts(Everything(w, rel)) && DistinctStarts(ReadSoFar(w, r, rel))
    ensures forall x :: x in ReadSoFar(w, r, rel) ==> x.Stored? && x.rel == rel
    ensures |ReadSoFar(w, r, rel)| == 1 ==> ReadSoFar(w, r, rel)[0].Stored?
  {
    hide Matching, DistinctStarts;
    var all, rest := RecordsFrom(w, rel, StartOf(w, rel)), RecordsFrom(w, rel, ReadToOf(r.tracker, rel));
    assert all == Early(all, rest) + rest;
    MatchingSplit(rel, Early(all, rest), rest, w.passes);
    MatchingGrows(w, rel, StartOf(w, rel));
    StartOfDistinct(ReadSoFar(w, r, rel), MatchingFrom(w, rel, ReadToOf(r.tracker, rel)));
    MatchingIsOfRel(rel, rel, Early(all, rest), w.passes);
  }

  lemma {:induction false} StartOfDistinct(a: seq<OutRecord>, b: seq<OutRecord>)
    requires DistinctStarts(a + b)
    ensures DistinctStarts(a)
  {
    forall i, j | 0 <= i < j < |a| ensures StartsBefore(a[i], a[j]) {
      assert (a + b)[i] == a[i] && (a + b)[j] == a[j];
    }
  }

  lemma TakenOver<T>(all: seq<T>, rest: seq<T>, taken: seq<T>, rest': seq<T>)
    requires EndsWith(all, rest) && rest == taken + rest'
    ensures EndsWith(all, rest') && Early(all, rest') == Early(all, rest) + taken
  {
    assert all == Early(all, rest) + (taken + rest');
    assert all == (Early(all, rest) + taken) + rest';
  }

  /** One read of a segment takes over the next part of it. */
  lemma {:induction false} PolledReadsOn(w: World, r: Reader, rel: Rel, snapshot: seq<byte>)
    requires rel in w.segments && snapshot <= w.segments[rel] && ReadsOn(w, r, rel)
    ensures var from := ReadToOf(r.tracker, rel);
      var outcome := ReadFrom(snapshot, from, w.parse);
      var t := Polled(w, r, rel, snapshot);
      && ReadToOf(t.tracker, rel) == outcome.consumedTo
      && ReadsOn(w, t, rel)
      && ReadSoFar(w, t, rel) == ReadSoFar(w, r, rel) + Matching(rel, outcome.records, w.passes)
  {
    hide Matching, ReadFrom, NoteAll;
    var content, from := w.segments[rel], ReadToOf(r.tracker, rel);
    var outcome := ReadFrom(snapshot, from, w.parse);
    var t := Polled(w, r, rel, snapshot);
    PendingNoted(NoteReadTo(r.tracker, rel, outcome.consumedTo), Matching(rel, outcome.records, w.passes), rel);
    assert snapshot + content[|snapshot|..] == content;
    ReadAgain(snapshot, content[|snapshot|..], from, w.parse);
    var all, rest, rest' := RecordsFrom(w, rel, StartOf(w, rel)), RecordsFrom(w, rel, from), RecordsFrom(w, rel, outcome.consumedTo);
    TakenOver(all, rest, outcome.records, rest');
    MatchingSplit(rel, Early(all, rest), outcome.records, w.passes);
  }

  lemma {:induction false} PollSame(w: World, r: Reader, rel: Rel, snapshot: seq<byte>)
    requires rel in w.segments && snapshot <= w.segments[rel] && !r.emitting && Shape(r) && Tracks(w, r, rel)
    ensures Tracks(w, Polled(w, r, rel, snapshot), rel)
  {
    hide Matching, ReadFrom, ReadSoFar, NoteAll, ReadsOn, OfRel, Everything, InKeyOrder, Starts;
    var outcome := ReadFrom(snapshot, ReadToOf(r.tracker, rel), w.parse);
    var matched := Matching(rel, outcome.records, w.passes);
    PolledReadsOn(w, r, rel, snapshot);
    PendingNoted(NoteReadTo(r.tracker, rel, outcome.consumedTo), matched, rel);
    MatchingIsOfRel(rel, rel, outcome.records, w.passes);
    OfRelSplit(rel, r.collected, matched);
    var (c, q, k) := (OfRel(rel, r.consumed), OfRel(rel, r.queue), OfRel(rel, r.collected));
    assert q + (k + matched) == (q + k) + matched;
    assert c + ((q + k) + matched) == (c + (q + k)) + matched;
    StartsSplit(q + k, matched);
  }

  /** Reading another segment, or nothing, changes nothing for this one. */
  lemma {:induction false} SameTracks(w: World, r: Reader, t: Reader, rel: Rel)
    requires rel in w.segments && Tracks(w, r, rel)
    requires ReadToOf(t.tracker, rel) == ReadToOf(r.tracker, rel) && PendingOf(t.tracker, rel) == PendingOf(r.tracker, rel)
    requires OfRel(rel, t.consumed) == OfRel(rel, r.consumed) && Unconsumed(t, rel) == Unconsumed(r, rel)
    ensures Tracks(w, t, rel)
  {
    hide OfRel, Matching, InKeyOrder, Starts;
  }

  lemma {:induction false} PollOther(w: World, r: Reader, rel: Rel, other: Rel, snapshot: seq<byte>)
    requires rel in w.segments && other in w.segments && other != rel && Tracks(w, r, rel)
    ensures Tracks(w, Polled(w, r, other, snapshot), rel)
  {
    hide Matching, ReadFrom, NoteAll, OfRel, Tracks;
    var outcome := ReadFrom(snapshot, ReadToOf(r.tracker, other), w.parse);
    var matched := Matching(other, outcome.records, w.passes);
    PendingNoted(NoteReadTo(r.tracker, other, outcome.consumedTo), matched, rel);
    MatchingIsOfRel(other, rel, outcome.records, w.passes);
    OfRelSplit(rel, r.collected, matched);
    assert OfRel(rel, r.collected) + [] == OfRel(rel, r.collected);
    assert Starts([]) == {};
    SameTracks(w, r, Polled(w, r, other, snapshot), rel);
  }

  lemma {:induction false} DerivedOfRel(rel: Rel, keys: seq<MergeKey>)
    ensures OfRel(rel, DerivedRecords(keys)) == []
  {
    if keys != [] {
      var n := |keys| - 1;
      assert DerivedRecords(keys)[..n] == DerivedRecords(keys[..n]);
      DerivedOfRel(rel, keys[..n]);
    }
  }

  /** Consuming some of what is unconsumed, in any order, with `left` still to go. */
  lemma {:induction false} ConsumeTracks(w: World, r: Reader, t: Reader, rel: Rel, gone: seq<OutRecord>)
    requires rel in w.segments && Tracks(w, r, rel)
    requires t.tracker == ConsumedAll(r.tracker, gone) && t.consumed == r.consumed + gone
    requires multiset(OfRel(rel, gone)) + multiset(Unconsumed(t, rel)) == multiset(Unconsumed(r, rel))
    requires InKeyOrder(Everything(w, rel)) ==> OfRel(rel, gone) + Unconsumed(t, rel) == Unconsumed(r, rel)
    ensures Tracks(w, t, rel)
  {
    hide OfRel, Matching, InKeyOrder, Starts, Everything, ReadsOn, ReadSoFar, ConsumedAll, Unconsumed;
    PendingAfter(r.tracker, gone, rel);
    OfRelSplit(rel, r.consumed, gone);
    EverythingSplits(w, r, rel);
    var (c, g, u, v) := (OfRel(rel, r.consumed), OfRel(rel, gone), Unconsumed(t, rel), Unconsumed(r, rel));
    assert multiset(g) + multiset(u) <= multiset(ReadSoFar(w, r, rel));
    PartsApart(ReadSoFar(w, r, rel), g, u);
    StartsByMultiset(g + u, v);
    StartsSplit(g, u);
    assert multiset(c + g) == multiset(c) + multiset(g);
    assert c + (g + u) == (c + g) + u;
    ReadSame(w, r, t, rel);
  }

  lemma ReadSame(w: World, r: Reader, t: Reader, rel: Rel)
    requires rel in w.segments && ReadsOn(w, r, rel) && ReadToOf(r.tracker, rel) == ReadToOf(t.tracker, rel)
    ensures ReadsOn(w, t, rel) && ReadSoFar(w, t, rel) == ReadSoFar(w, r, rel)
  {
  }

  lemma {:induction false} StartsByMultiset(a: seq<OutRecord>, b: seq<OutRecord>)
    requires multiset(a) == multiset(b)
    ensures Starts(a) == Starts(b)
  {
    forall x ensures x in a <==> x in b {
      assert x in multiset(a) <==> x in multiset(b);
    }
  }

  lemma {:induction false} EmitTracks(w: World, r: Reader, limit: Option<nat>, rel: Rel)
    requires rel in w.segments && Tracks(w, r, rel) && !r.emitting && Shape(r)
    ensures Tracks(w, Emitting(r, limit), rel)
  {
    hide OfRel, Matching, InKeyOrder, Starts, Everything, ReadsOn, ReadSoFar, ConsumedAll, StableSort, Dropped;
    var sorted := StableSort(r.collected);
    var d := Dropped(|sorted|, limit);
    var t := Emitting(r, limit);
    assert d <= |sorted| by { DropsSome(|sorted|, limit); }
    assert sorted == sorted[..d] + sorted[d..];
    OfRelSplit(rel, sorted[..d], sorted[d..]);
    SameOfRel(rel, sorted, r.collected);
    NoOfRel(rel);
    var k := OfRel(rel, r.collected);
    assert Unconsumed(r, rel) == [] + k == k;
    assert Unconsumed(t, rel) == OfRel(rel, sorted[d..]) + [] == OfRel(rel, sorted[d..]);
    if InKeyOrder(Everything(w, rel)) {
      EverythingSplits(w, r, rel);
      CollectedInOrder(Everything(w, rel), OfRel(rel, r.consumed), k, MatchingFrom(w, rel, ReadToOf(r.tracker, rel)));
      SortOfRel(rel, r.collected);
    }
    ConsumeTracks(w, r, t, rel, sorted[..d]);
  }

  lemma DropsSome(n: nat, limit: Option<nat>)
    ensures Dropped(n, limit) <= n
  {
  }

  lemma {:induction false} CollectedInOrder(all: seq<OutRecord>, before: seq<OutRecord>, collected: seq<OutRecord>, after: seq<OutRecord>)
    requires InKeyOrder(all) && all == (before + collected) + after
    ensures InKeyOrder(collected)
  {
    hide KeyAtMost;
    forall i, j | 0 <= i < j < |collected| ensures KeyAtMost(SortKey(collected[i]), SortKey(collected[j])) {
      assert all[|before| + i] == collected[i] && all[|before| + j] == collected[j];
    }
  }

  lemma {:induction false} PrintTracks(w: World, r: Reader, rel: Rel)
    requires rel in w.segments && Tracks(w, r, rel) && r.emitting && r.queue != [] && Shape(r)
    ensures Tracks(w, Do(w, r, PrintNext), rel)
  {
    hide OfRel, Matching, InKeyOrder, Starts, Everything, ReadsOn, ReadSoFar;
    var t := Do(w, r, PrintNext);
    var first := [r.queue[0]];
    assert r.queue == first + r.queue[1..];
    OfRelSplit(rel, first, r.queue[1..]);
    NoOfRel(rel);
    assert first[..0] == [];
    assert ConsumedAll(r.tracker, first) == Consumed(ConsumedAll(r.tracker, first[..0]), first[0]);
    assert Unconsumed(r, rel) == OfRel(rel, r.queue) && Unconsumed(t, rel) == OfRel(rel, t.queue);
    ConsumeTracks(w, r, t, rel, first);
  }

  lemma {:induction false} DiscardTracks(w: World, r: Reader, rel: Rel)
    requires rel in w.segments && Tracks(w, r, rel) && !r.emitting && Shape(r)
    ensures Tracks(w, Do(w, r, Discard), rel)
  {
    hide OfRel, Matching, InKeyOrder, Starts, Everything, ReadsOn, ReadSoFar, ConsumedAll;
    var t := Do(w, r, Discard);
    NoOfRel(rel);
    assert Unconsumed(r, rel) == OfRel(rel, r.collected) && Unconsumed(t, rel) == [];
    assert OfRel(rel, r.collected) + [] == OfRel(rel, r.collected);
    ConsumeTracks(w, r, t, rel, r.collected);
  }

  lemma {:induction false} DoTracks(w: World, r: Reader, a: Action, rel: Rel)
    requires rel in w.segments && Tracks(w, r, rel) && Shape(r) && Possible(w, r, a)
    ensures Tracks(w, Do(w, r, a), rel) && Shape(Do(w, r, a))
  {
    hide Tracks, OfRel, Polled, ConsumedAll, StableSort;
    match a
    case PollSegment(other, snapshot) =>
      PolledShape(w, r, other, snapshot);
      if other == rel {
        PollSame(w, r, rel, snapshot);
      } else {
        PollOther(w, r, rel, other, snapshot);
      }
    case PollLog(derived) =>
      OfRelSplit(rel, r.collected, DerivedRecords(derived));
      DerivedOfRel(rel, derived);
      assert OfRel(rel, r.collected) + [] == OfRel(rel, r.collected);
      SameTracks(w, r, Do(w, r, a), rel);
    case StartEmitting(limit) => EmitTracks(w, r, limit, rel);
    case PrintNext => PrintTracks(w, r, rel);
    case EndEmitting => SameTracks(w, r, Do(w, r, a), rel);
    case IdleBookmark => SameTracks(w, r, Do(w, r, a), rel);
    case Discard => DiscardTracks(w, r, rel);
  }

  lemma PolledShape(w: World, r: Reader, rel: Rel, snapshot: seq<byte>)
    requires Shape(r) && !r.emitting
    ensures Shape(Polled(w, r, rel, snapshot))
  {
  }

  lemma {:induction false} BeginTracks(w: World, rel: Rel)
    requires rel in w.segments
    ensures Tracks(w, Begin(w), rel) && Shape(Begin(w))
  {
    var r := Begin(w);
    var all := RecordsFrom(w, rel, StartOf(w, rel));
    assert ReadToOf(r.tracker, rel) == StartOf(w, rel);
    assert all[0..] == all && Early(all, all) == [];
    assert Starts([]) == {};
  }

  lemma {:induction false} RunTracks(w: World, actions: seq<Action>, rel: Rel)
    requires rel in w.segments && After(w, actions).Some?
    ensures Tracks(w, After(w, actions).value, rel) && Shape(After(w, actions).value)
  {
    hide Tracks, Shape, Do, Possible;
    if actions == [] {
      BeginTracks(w, rel);
    } else {
      var n := |actions| - 1;
      RunTracks(w, actions[..n], rel);
      DoTracks(w, After(w, actions[..n]).value, actions[n], rel);
    }
  }

  // ---------------------------------------------------------------- resuming

  /** A cursor resumes at a record of the run, everything before it consumed. */
  lemma {:induction false} ResumesAt(w: World, r: Reader, rel: Rel) returns (k: nat)
    requires rel in w.segments && Tracks(w, r, rel)
    ensures k <= |Everything(w, rel)| && Resumed(w, r, rel) == Everything(w, rel)[k..]
    ensures forall i :: 0 <= i < k ==> Everything(w, rel)[i] in OfRel(rel, r.consumed)
    ensures Unconsumed(r, rel) != [] ==>
      && k < |ReadSoFar(w, r, rel)| <= |Everything(w, rel)| && ReadSoFar(w, r, rel)[k] == Everything(w, rel)[k]
      && Everything(w, rel)[k] in Unconsumed(r, rel) && Everything(w, rel)[k].Stored?
      && forall x :: x in Unconsumed(r, rel) ==> x.Stored? && Everything(w, rel)[k].start <= x.start
    ensures Unconsumed(r, rel) == [] ==> k == |ReadSoFar(w, r, rel)|
  {
    hide Matching, OfRel, ReadFrom, InKeyOrder, ReadsOn, Everything, MatchingFrom, Unconsumed;
    EverythingSplits(w, r, rel);
    var all, sofar := Everything(w, rel), ReadSoFar(w, r, rel);
    var waiting := Unconsumed(r, rel);
    if waiting == [] {
      k := |sofar|;
      assert PendingOf(r.tracker, rel) == {};
      assert all[k..] == MatchingFrom(w, rel, ReadToOf(r.tracker, rel));
      assert multiset(waiting) == multiset{};
    } else {
      FirstIsPending(waiting, sofar);
      var p := Position(r.tracker, rel);
      var x :| x in waiting && x.Stored? && x.start == p;
      assert x in multiset(sofar);
      k :| 0 <= k < |sofar| && sofar[k] == x;
      assert all[k] == x;
      ResumedSuffix(w, rel, k);
      forall y | y in waiting ensures y.Stored? && p <= y.start {
        assert y in multiset(sofar);
        assert y.start in PendingOf(r.tracker, rel);
      }
    }
    forall i | 0 <= i < k ensures all[i] in OfRel(rel, r.consumed) {
      assert all[i] == sofar[i];
      assert sofar[i] in multiset(sofar);
      if waiting != [] {
        NotWaiting(sofar, waiting, k, i);
      }
    }
  }

  lemma {:induction false} NotWaiting(sofar: seq<OutRecord>, waiting: seq<OutRecord>, k: nat, i: nat)
    requires DistinctStarts(sofar) && i < k < |sofar|
    requires sofar[k].Stored? && forall y :: y in waiting ==> y.Stored? && sofar[k].start <= y.start
    ensures sofar[i] !in waiting
  {
  }

  lemma {:induction false} FirstIsPending(waiting: seq<OutRecord>, sofar: seq<OutRecord>)
    requires waiting != [] && multiset(waiting) <= multiset(sofar) && forall x :: x in sofar ==> x.Stored?
    ensures Starts(waiting) != {}
  {
    assert waiting[0] in multiset(waiting);
    assert waiting[0] in sofar;
    assert waiting[0].start in Starts(waiting);
  }

  /** Reading from the start of a matching record gives it and the matching records after it. */
  lemma {:induction false} ResumedSuffix(w: World, rel: Rel, k: nat)
    requires rel in w.segments && k < |Everything(w, rel)|
    ensures Everything(w, rel)[k].Stored?
    ensures MatchingFrom(w, rel, Everything(w, rel)[k].start) == Everything(w, rel)[k..]
  {
    hide Matching, ReadFrom;
    var records := RecordsFrom(w, rel, StartOf(w, rel));
    var j := MatchingAt(rel, records, w.passes, k);
    ReadFromRecord(w.segments[rel], StartOf(w, rel), w.parse, j);
    assert records == records[..j] + records[j..];
    MatchingSplit(rel, records[..j], records[j..], w.passes);
  }

  /**
   Whatever was read and printed when, a cursor taken at any moment resumes at a point of the segment before
   which every matching record was consumed: no unprinted record is skipped.
   */
  lemma {:induction false} CursorNeverSkips(w: World, actions: seq<Action>, rel: Rel) returns (k: nat)
    requires rel in w.segments && After(w, actions).Some?
    ensures var r := After(w, actions).value;
      && k <= |Everything(w, rel)| && Resumed(w, r, rel) == Everything(w, rel)[k..]
      && forall i :: 0 <= i < k ==> Everything(w, rel)[i] in r.consumed
  {
    hide After, Tracks, Everything, Resumed;
    RunTracks(w, actions, rel);
    var r := After(w, actions).value;
    k := ResumesAt(w, r, rel);
    forall i | 0 <= i < k ensures Everything(w, rel)[i] in r.consumed {
      OfRelIn(rel, r.consumed, Everything(w, rel)[i]);
    }
  }

  lemma {:induction false} OfRelIn(rel: Rel, rs: seq<OutRecord>, x: OutRecord)
    requires x in OfRel(rel, rs)
    ensures x in rs
  {
    OfRelCounts(rel, rs, x);
    assert x in multiset(OfRel(rel, rs));
    assert x in multiset(rs);
  }

  // ---------------------------------------------------------------- exactness

  /** Consumed by then, and resumed from the cursor, are together each matching record once. */
  ghost predicate Exact(w: World, b: Bookmark, rel: Rel)
    requires rel in w.segments
  {
    multiset(OfRel(rel, b.consumed)) + multiset(MatchingFrom(w, rel, Position(b.tracker, rel)))
    == multiset(Everything(w, rel))
  }

  /** A printed record that a run resumed from the cursor prints again. */
  ghost predicate Repeats(w: World, b: Bookmark, rel: Rel, x: OutRecord)
    requires rel in w.segments
  {
    x in b.printed && x in MatchingFrom(w, rel, Position(b.tracker, rel))
  }

  /** The cursor that could be taken now. */
  function Now(r: Reader): Bookmark {
    Bookmark(r.tracker, r.printed, r.consumed)
  }

  lemma {:induction false} OrderedIsExact(w: World, actions: seq<Action>, rel: Rel)
    requires rel in w.segments && After(w, actions).Some? && InKeyOrder(Everything(w, rel))
    ensures OfRel(rel, After(w, actions).value.consumed) + Resumed(w, After(w, actions).value, rel) == Everything(w, rel)
  {
    hide After, InKeyOrder, OfRel, Matching, Everything, Resumed, Unconsumed, DistinctStarts, MatchingFrom, ReadSoFar, ReadsOn;
    RunTracks(w, actions, rel);
    var r := After(w, actions).value;
    EverythingSplits(w, r, rel);
    var k := ResumesAt(w, r, rel);
    ConsumedThenRest(Everything(w, rel), OfRel(rel, r.consumed), Unconsumed(r, rel), ReadSoFar(w, r, rel),
                     MatchingFrom(w, rel, ReadToOf(r.tracker, rel)), k);
  }

  /** In key order what is consumed is what is before the resume point. */
  lemma {:induction false} ConsumedThenRest(all: seq<OutRecord>, c: seq<OutRecord>, u: seq<OutRecord>, sofar: seq<OutRecord>,
                                            rest: seq<OutRecord>, k: nat)
    requires all == sofar + rest && c + u == sofar && DistinctStarts(sofar)
    requires u == [] ==> k == |sofar|
    requires u != [] ==> k < |sofar| && sofar[k] in u && sofar[k].Stored?
    requires u != [] ==> forall x :: x in u ==> x.Stored? && sofar[k].start <= x.start
    ensures k <= |all| && c + all[k..] == all
  {
    if u != [] {
      WaitingFirst(c, u, sofar, k);
    }
    assert all[..k] == c;
    assert all == all[..k] + all[k..];
  }

  lemma {:induction false} WaitingFirst(c: seq<OutRecord>, u: seq<OutRecord>, sofar: seq<OutRecord>, k: nat)
    requires c + u == sofar && u != [] && DistinctStarts(sofar) && k < |sofar| && sofar[k] in u
    requires forall x :: x in u ==> x.Stored? && sofar[k].Stored? && sofar[k].start <= x.start
    ensures k == |c|
  {
    var i :| 0 <= i < |u| && u[i] == sofar[k];
    assert sofar[|c| + i] == u[i] && sofar[|c|] == u[0];
    assert u[0] in u;
  }

  // ---------------------------------------------------------------- bookmarks are moments of the run

  /** Every bookmark is the cursor of some moment of the run; what was printed was consumed. */
  lemma {:induction false} BookmarkMoment(w: World, actions: seq<Action>, b: Bookmark) returns (j: nat)
    requires After(w, actions).Some? && b in After(w, actions).value.bookmarks
    ensures j <= |actions| && After(w, actions[..j]).Some? && b == Now(After(w, actions[..j]).value)
  {
    hide Polled, Emitting;
    var n := |actions| - 1;
    var before := After(w, actions[..n]).value;
    if b in before.bookmarks {
      j := BookmarkMoment(w, actions[..n], b);
      assert actions[..n][..j] == actions[..j];
    } else {
      j := |actions|;
      assert actions[..j] == actions;
      SameBookmarks(w, before, actions[n]);
    }
  }

  lemma SameBookmarks(w: World, r: Reader, a: Action)
    requires Possible(w, r, a)
    ensures a.PollSegment? || a.StartEmitting? ==> Do(w, r, a).bookmarks == r.bookmarks
  {
  }

  lemma {:induction false} PrintedIsConsumed(w: World, actions: seq<Action>, x: OutRecord)
    requires After(w, actions).Some? && x in After(w, actions).value.printed
    ensures x in After(w, actions).value.consumed
  {
    hide StableSort, ConsumedAll, ReadFrom, NoteAll, Matching;
    var n := |actions| - 1;
    if x in After(w, actions[..n]).value.printed {
      PrintedIsConsumed(w, actions[..n], x);
    }
  }

  /** In key order every bookmark of every run is exact and repeats nothing. */
  lemma {:induction false} OrderedBookmark(w: World, actions: seq<Action>, rel: Rel, b: Bookmark)
    requires rel in w.segments && After(w, actions).Some? && b in After(w, actions).value.bookmarks
    requires InKeyOrder(Everything(w, rel))
    ensures Exact(w, b, rel) && forall x :: !Repeats(w, b, rel, x)
  {
    hide After, InKeyOrder, OfRel, Matching, Everything;
    var j := BookmarkMoment(w, actions, b);
    OrderedMoment(w, actions[..j], rel);
  }

  lemma {:induction false} OrderedMoment(w: World, actions: seq<Action>, rel: Rel)
    requires rel in w.segments && After(w, actions).Some? && InKeyOrder(Everything(w, rel))
    ensures Exact(w, Now(After(w, actions).value), rel)
    ensures forall x :: !Repeats(w, Now(After(w, actions).value), rel, x)
  {
    hide After, InKeyOrder, OfRel, Matching, Everything, MatchingFrom, Position;
    var r := After(w, actions).value;
    OrderedIsExact(w, actions, rel);
    var (c, again) := (OfRel(rel, r.consumed), Resumed(w, r, rel));
    EverythingGrows(w, rel);
    AllStored(w, rel);
    forall x ensures !Repeats(w, Now(r), rel, x) {
      if x in r.printed && x in again {
        PrintedIsConsumed(w, actions, x);
        assert x in Everything(w, rel);
        InOfRel(rel, r.consumed, x);
        NotInBoth(c, again, x);
      }
    }
  }

  lemma {:induction false} NotInBoth(c: seq<OutRecord>, again: seq<OutRecord>, x: OutRecord)
    requires DistinctStarts(c + again) && x in c
    ensures x !in again
  {
    forall i, j | 0 <= i < |c| && 0 <= j < |again| ensures c[i] != again[j] {
      assert (c + again)[i] == c[i] && (c + again)[|c| + j] == again[j];
      assert StartsBefore((c + again)[i], (c + again)[|c| + j]);
    }
  }

  lemma {:induction false} InOfRel(rel: Rel, rs: seq<OutRecord>, x: OutRecord)
    requires x in rs && x.Stored? && x.rel == rel
    ensures x in OfRel(rel, rs)
  {
    OfRelCounts(rel, rs, x);
    assert x in multiset(rs);
    assert x in multiset(OfRel(rel, rs));
  }

  lemma EverythingGrows(w: World, rel: Rel)
    requires rel in w.segments
    ensures DistinctStarts(Everything(w, rel))
  {
    MatchingGrows(w, rel, StartOf(w, rel));
  }

  lemma AllStored(w: World, rel: Rel)
    requires rel in w.segments
    ensures forall x :: x in Everything(w, rel) ==> x.Stored? && x.rel == rel
  {
    hide Matching, ReadFrom;
    MatchingIsOfRel(rel, rel, RecordsFrom(w, rel, StartOf(w, rel)), w.passes);
  }

  // ---------------------------------------------------------------- out of key order

  /** Where the sort first moves a record of a segment. */
  lemma {:induction false} FirstMoved(a: seq<OutRecord>, b: seq<OutRecord>) returns (p: nat)
    requires |a| == |b| && a != b
    ensures p < |a| && a[p] != b[p] && a[..p] == b[..p]
  {
    p := 0;
    while p < |a| && a[p] == b[p]
      invariant p <= |a| && a[..p] == b[..p]
    {
      p := p + 1;
    }
    assert a[..|a|] == a && b[..|b|] == b;
  }

  lemma {:induction false} OneMore(w: World, actions: seq<Action>, a: Action)
    requires After(w, actions).Some? && Possible(w, After(w, actions).value, a)
    ensures After(w, actions + [a]) == Some(Do(w, After(w, actions).value, a))
  {
    hide Do, Possible;
    assert (actions + [a])[..|actions|] == actions;
  }

  /** Printing some of a batch, one action for each record. */
  lemma {:induction false} PrintMore(w: World, actions: seq<Action>, n: nat) returns (more: seq<Action>)
    requires After(w, actions).Some? && After(w, actions).value.emitting && n <= |After(w, actions).value.queue|
    ensures After(w, more) == Some(PrintingSome(After(w, actions).value, n))
  {
    hide After, Printing;
    var r := After(w, actions).value;
    if n == 0 {
      more := actions;
    } else {
      more := PrintMore(w, actions, n - 1);
      OneMore(w, more, PrintNext);
      more := more + [PrintNext];
    }
  }

  /** One print: counted, and bookmarked if it is the hundredth. */
  lemma {:induction false} PrintedOne(r: Reader)
    requires r.queue != [] && r.sinceMark < BOOKMARK_EVERY_RECORDS
    ensures var t := Printing(r);
      && t.tracker == Consumed(r.tracker, r.queue[0])
      && t.consumed == r.consumed + [r.queue[0]] && t.printed == r.printed + [r.queue[0]]
      && t.sinceMark == (if r.sinceMark + 1 == BOOKMARK_EVERY_RECORDS then 0 else r.sinceMark + 1)
      && (t.sinceMark == 0 ==> Now(t) in t.bookmarks)
  {
    hide Consumed;
  }

  /** What printing some records leaves, and the bookmark after the last of them when it is a hundredth. */
  lemma {:induction false} PrintedSome(r: Reader, n: nat)
    requires n <= |r.queue| && r.sinceMark < BOOKMARK_EVERY_RECORDS
    ensures var t := PrintingSome(r, n);
      && t.tracker == ConsumedAll(r.tracker, r.queue[..n])
      && t.consumed == r.consumed + r.queue[..n] && t.printed == r.printed + r.queue[..n]
      && t.sinceMark == (r.sinceMark + n) % BOOKMARK_EVERY_RECORDS
      && (n > 0 && t.sinceMark == 0 ==> Now(t) in t.bookmarks)
  {
    hide Consumed, Printing, ConsumedAll, Now;
    ConsumedStep(r.tracker, r.queue, n);
    if n == 0 {
      assert r.queue[..0] == [] && r.consumed + [] == r.consumed && r.printed + [] == r.printed;
    } else {
      PrintedSome(r, n - 1);
      var before := PrintingSome(r, n - 1);
      PrintedOne(before);
      FirstOnes(r.queue, r.consumed, n);
      FirstOnes(r.queue, r.printed, n);
      CountsOn(r.sinceMark, n);
    }
  }

  lemma ConsumedStep(t: Tracker, queue: seq<OutRecord>, n: nat)
    requires n <= |queue|
    ensures ConsumedAll(t, queue[..n]) == if n == 0 then t else Consumed(ConsumedAll(t, queue[..n - 1]), queue[n - 1])
  {
    hide Consumed;
    if n > 0 {
      assert queue[..n][..n - 1] == queue[..n - 1];
    }
  }

  lemma CountsOn(mark: nat, n: nat)
    requires n > 0
    ensures var before := (mark + (n - 1)) % BOOKMARK_EVERY_RECORDS;
      (mark + n) % BOOKMARK_EVERY_RECORDS == if before + 1 == BOOKMARK_EVERY_RECORDS then 0 else before + 1
  {
  }

  lemma FirstOnes(queue: seq<OutRecord>, done: seq<OutRecord>, n: nat)
    requires 0 < n <= |queue|
    ensures queue[..n][..n - 1] == queue[..n - 1] && queue[n - 1..][0] == queue[n - 1]
    ensures (done + queue[..n - 1]) + [queue[n - 1]] == done + queue[..n]
  {
  }

  function Pads(n: nat): seq<MergeKey> {
    seq(n, i requires 0 <= i => MergeKey(0, 0, i))
  }

  /** A first batch of `n` log lines, about to be printed. */
  lemma {:induction false} EmittingLog(w: World, n: nat) returns (actions: seq<Action>)
    ensures After(w, actions).Some?
    ensures var r := After(w, actions).value;
      && r.emitting && r.collected == [] && |r.queue| == n && r.sinceMark == 0 && r.consumed == []
      && r.tracker == Begin(w).tracker && forall x :: x in r.queue ==> x.Derived?
  {
    hide After, StableSort, Emitting;
    var logs := DerivedRecords(Pads(n));
    NothingYet(w);
    OneMore(w, [], PollLog(Pads(n)));
    actions := [] + [PollLog(Pads(n))];
    var polled := After(w, actions).value;
    assert polled.collected == [] + logs == logs;
    OneMore(w, actions, StartEmitting(None));
    actions := actions + [StartEmitting(None)];
    NothingDropped(polled);
    SortedDerived(logs);
  }

  /** All printed: the count since the last bookmark can be anything. */
  lemma {:induction false} PrintedLog(w: World, n: nat) returns (actions: seq<Action>)
    requires n < BOOKMARK_EVERY_RECORDS
    ensures After(w, actions).Some?
    ensures var r := After(w, actions).value;
      && !r.emitting && r.collected == [] && r.queue == [] && r.sinceMark == n
      && r.tracker == Begin(w).tracker && forall x :: x in r.consumed ==> x.Derived?
  {
    hide After, StableSort, PrintingSome, Emitting, Polled, ConsumedAll;
    actions := EmittingLog(w, n);
    var start := After(w, actions).value;
    actions := PrintMore(w, actions, n);
    PrintedSome(start, n);
    assert start.queue[..n] == start.queue && [] + start.queue == start.queue;
    DerivedUntracked(start.tracker, start.queue);
    OneMore(w, actions, EndEmitting);
    actions := actions + [EndEmitting];
  }

  lemma NothingYet(w: World)
    ensures After(w, []) == Some(Begin(w))
  {
  }

  lemma NothingDropped(r: Reader)
    ensures Emitting(r, None)
            == r.(collected := [], queue := StableSort(r.collected), emitting := true)
  {
    var sorted := StableSort(r.collected);
    assert sorted[..0] == [] && sorted[0..] == sorted;
    assert r.consumed + [] == r.consumed;
  }

  lemma {:induction false} SortedDerived(logs: seq<OutRecord>)
    requires forall x :: x in logs ==> x.Derived?
    ensures forall x :: x in StableSort(logs) ==> x.Derived?
  {
    hide StableSort;
    forall x | x in StableSort(logs) ensures x.Derived? {
      assert x in multiset(StableSort(logs));
      assert x in logs;
    }
  }

  lemma {:induction false} DerivedUntracked(t: Tracker, rs: seq<OutRecord>)
    requires forall x :: x in rs ==> x.Derived?
    ensures ConsumedAll(t, rs) == t
  {
    if rs != [] {
      assert rs[|rs| - 1] in rs;
      DerivedUntracked(t, rs[..|rs| - 1]);
    }
  }

  lemma {:induction false} DerivedOfNone(rel: Rel, rs: seq<OutRecord>)
    requires forall x :: x in rs ==> x.Derived?
    ensures OfRel(rel, rs) == []
  {
    if rs != [] {
      assert rs[|rs| - 1] in rs;
      DerivedOfNone(rel, rs[..|rs| - 1]);
    }
  }

  /** Polling a whole segment for the first time, with nothing else collected. */
  lemma {:induction false} PolledWhole(w: World, r: Reader, rel: Rel)
    requires rel in w.segments && r.collected == [] && r.tracker == Begin(w).tracker
    ensures Polled(w, r, rel, w.segments[rel]).collected == Everything(w, rel)
    ensures var t := Polled(w, r, rel, w.segments[rel]);
      t.consumed == r.consumed && t.printed == r.printed && t.emitting == r.emitting && t.sinceMark == r.sinceMark
  {
    hide Matching, ReadFrom, NoteAll;
    var all := Everything(w, rel);
    assert [] + all == all;
  }

  /** Some log lines printed, then the whole segment about to be printed in key order. */
  lemma {:induction false} EmittingSegment(w: World, rel: Rel, n: nat) returns (actions: seq<Action>)
    requires rel in w.segments && n < BOOKMARK_EVERY_RECORDS
    ensures After(w, actions).Some?
    ensures var r := After(w, actions).value;
      && r.emitting && r.queue == StableSort(Everything(w, rel)) && r.sinceMark == n
      && forall x :: x in r.consumed ==> x.Derived?
  {
    hide After, StableSort, Everything, Polled, PrintingSome, Emitting;
    actions := PrintedLog(w, n);
    var idle := After(w, actions).value;
    OneMore(w, actions, PollSegment(rel, w.segments[rel]));
    actions := actions + [PollSegment(rel, w.segments[rel])];
    var polled := After(w, actions).value;
    PolledWhole(w, idle, rel);
    OneMore(w, actions, StartEmitting(None));
    actions := actions + [StartEmitting(None)];
    NothingDropped(polled);
  }

  /** Printed up to its `p + 1`st record: a bookmark is due there. */
  lemma {:induction false} CutRun(w: World, rel: Rel, p: nat) returns (actions: seq<Action>, b: Bookmark)
    requires rel in w.segments && p < |Everything(w, rel)|
    ensures After(w, actions).Some? && b in After(w, actions).value.bookmarks && b == Now(After(w, actions).value)
    ensures OfRel(rel, b.consumed) == StableSort(Everything(w, rel))[..p + 1]
    ensures forall x :: x in StableSort(Everything(w, rel))[..p + 1] ==> x in b.printed
  {
    hide After, StableSort, Everything, PrintingSome, OfRel;
    var n := BOOKMARK_EVERY_RECORDS - 1 - p % BOOKMARK_EVERY_RECORDS;
    actions := EmittingSegment(w, rel, n);
    var start := After(w, actions).value;
    actions := PrintMore(w, actions, p + 1);
    PrintedSome(start, p + 1);
    DueThere(n, p);
    b := Now(After(w, actions).value);
    FirstStored(w, rel, p + 1);
    AfterLogs(rel, start.consumed, StableSort(Everything(w, rel))[..p + 1]);
  }

  lemma {:induction false} AfterLogs(rel: Rel, logs: seq<OutRecord>, first: seq<OutRecord>)
    requires forall x :: x in logs ==> x.Derived?
    requires forall x :: x in first ==> x.Stored? && x.rel == rel
    ensures OfRel(rel, logs + first) == first
  {
    hide OfRel;
    AllOfRel(rel, first);
    OfRelSplit(rel, logs, first);
    DerivedOfNone(rel, logs);
    assert [] + first == first;
  }

  lemma DueThere(n: nat, p: nat)
    requires n == BOOKMARK_EVERY_RECORDS - 1 - p % BOOKMARK_EVERY_RECORDS
    ensures (n + (p + 1)) % BOOKMARK_EVERY_RECORDS == 0
  {
  }

  lemma {:induction false} FirstStored(w: World, rel: Rel, n: nat)
    requires rel in w.segments && n <= |Everything(w, rel)|
    ensures forall x :: x in StableSort(Everything(w, rel))[..n] ==> x.Stored? && x.rel == rel
  {
    hide StableSort, Everything;
    var sorted := StableSort(Everything(w, rel));
    AllStored(w, rel);
    forall x | x in sorted[..n] ensures x.Stored? && x.rel == rel {
      assert x in multiset(sorted);
      assert x in Everything(w, rel);
    }
  }

  lemma {:induction false} AllOfRel(rel: Rel, rs: seq<OutRecord>)
    requires forall x :: x in rs ==> x.Stored? && x.rel == rel
    ensures OfRel(rel, rs) == rs
  {
    if rs != [] {
      AllOfRel(rel, rs[..|rs| - 1]);
      assert rs == rs[..|rs| - 1] + [rs[|rs| - 1]];
    }
  }

  /** The record printed out of turn is after the first one left unprinted. */
  lemma {:induction false} MovedAhead(all: seq<OutRecord>, sorted: seq<OutRecord>, p: nat, k: nat)
    requires |sorted| == |all| && p < |all| && sorted[..p] == all[..p] && sorted[p] != all[p]
    requires DistinctStarts(all) && (|all| == 1 ==> all[0].Stored?) && multiset(sorted) == multiset(all) && k <= |all|
    requires forall i :: 0 <= i < k ==> all[i] in sorted[..p + 1]
    ensures sorted[p] in all[k..]
  {
    NotBefore(all, sorted, p);
    assert sorted[p] in multiset(sorted);
    var q :| 0 <= q < |all| && all[q] == sorted[p];
    NotAhead(all, sorted, p, q);
    assert all[k..][q - k] == all[q];
  }

  lemma {:induction false} NotBefore(all: seq<OutRecord>, sorted: seq<OutRecord>, p: nat)
    requires |sorted| == |all| && p < |all| && sorted[..p] == all[..p] && sorted[p] != all[p]
    requires DistinctStarts(all)
    ensures all[p] !in sorted[..p + 1]
  {
    assert sorted[..p + 1] == all[..p] + [sorted[p]];
  }

  lemma {:induction false} NotAhead(all: seq<OutRecord>, sorted: seq<OutRecord>, p: nat, q: nat)
    requires |sorted| == |all| && p < |all| && q < |all| && sorted[..p] == all[..p] && all[q] == sorted[p]
    requires DistinctStarts(all) && (|all| == 1 ==> all[0].Stored?) && multiset(sorted) == multiset(all)
    ensures q >= p
  {
    OnceEach(all, sorted[p]);
    if q < p {
      assert sorted[..p][q] == all[..p][q];
      InTwoPlaces(sorted, q, p);
    }
  }

  lemma {:induction false} InTwoPlaces(s: seq<OutRecord>, q: nat, p: nat)
    requires q < p < |s| && s[q] == s[p]
    ensures multiset(s)[s[p]] >= 2
  {
    assert s == s[..p] + [s[p]] + s[p + 1..];
    assert s[..p][q] == s[p];
    assert s[p] in multiset(s[..p]);
  }

  /** Out of key order, a run that prints one record after another takes a bookmark that repeats one of them. */
  lemma {:induction false} OutOfTurn(w: World, rel: Rel) returns (actions: seq<Action>, b: Bookmark, x: OutRecord)
    requires rel in w.segments && !InKeyOrder(Everything(w, rel))
    ensures After(w, actions).Some? && b in After(w, actions).value.bookmarks
    ensures Repeats(w, b, rel, x) && !Exact(w, b, rel)
  {
    hide InKeyOrder, Matching, OfRel, StableSort, ReadFrom, Everything, Tracks, ConsumedAll, NoteAll, After;
    var all := Everything(w, rel);
    var sorted := StableSort(all);
    SortSorts(all);
    var p := FirstMoved(sorted, all);
    actions, b := CutRun(w, rel, p);
    var r := After(w, actions).value;
    RunTracks(w, actions, rel);
    var k := ResumesAt(w, r, rel);
    x := sorted[p];
    EverythingGrows(w, rel);
    AllStored(w, rel);
    assert OfRel(rel, r.consumed) == sorted[..p + 1];
    assert |all| == 1 ==> all[0] in all;
    MovedAhead(all, sorted, p, k);
    assert x in sorted[..p + 1] by {
      assert sorted[..p + 1][p] == x;
    }
    assert x in OfRel(rel, b.consumed);
    TwiceCounted(OfRel(rel, b.consumed), all[k..], all, x);
  }

  lemma {:induction false} TwiceCounted(c: seq<OutRecord>, again: seq<OutRecord>, all: seq<OutRecord>, x: OutRecord)
    requires x in c && x in again && DistinctStarts(all) && (|all| == 1 ==> all[0].Stored?)
    ensures multiset(c) + multiset(again) != multiset(all)
  {
    OnceEach(all, x);
    assert x in multiset(c) && x in multiset(again);
    assert (multiset(c) + multiset(again))[x] >= 2;
  }

  /**
   Over every run, resumed from a cursor or not: every bookmark accounts for each matching record of a segment
   once, printed or dropped before it or read after it, if and only if the segment's matching lines are in
   merge-key order.
   */
  lemma {:induction false} ExactIffOrdered(w: World, rel: Rel)
    requires rel in w.segments
    ensures (forall actions, b | After(w, actions).Some? && b in After(w, actions).value.bookmarks :: Exact(w, b, rel))
            <==> InKeyOrder(Everything(w, rel))
  {
    hide After, Exact, InKeyOrder, Everything, Repeats;
    if InKeyOrder(Everything(w, rel)) {
      forall actions: seq<Action>, b | After(w, actions).Some? && b in After(w, actions).value.bookmarks
        ensures Exact(w, b, rel)
      {
        OrderedBookmark(w, actions, rel, b);
      }
    } else {
      var actions, b, x := OutOfTurn(w, rel);
    }
  }
}
