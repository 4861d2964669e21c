/** Exact-resume cursors over event segments: what a cursor taken at any moment of printing lets a later run read. */
module EventCursors {
  import opened Wrappers
  import opened Bytes
  import opened EventSegments

  type Rel = string

  /** A record of the output stream: a stored event, or one derived from a log. */
  datatype OutRecord = Stored(event: Event, rel: Rel, start: nat) | Derived(key: MergeKey)

  function SortKey(r: OutRecord): MergeKey {
    match r
    case Stored(event, _, _) => event.key
    case Derived(key) => key
  }

  predicate KeyAtMost(a: MergeKey, b: MergeKey) {
    a.ts < b.ts || (a.ts == b.ts && (a.writer < b.writer || (a.writer == b.writer && a.seqNo <= b.seqNo)))
  }

  // ---------------------------------------------------------------- the tracker

  /** How far each segment was read, and the starts of records read but not consumed. */
  datatype Tracker = Tracker(readTo: map<Rel, nat>, pending: map<Rel, set<nat>>)

  function PendingOf(t: Tracker, rel: Rel): set<nat> {
    if rel in t.pending then t.pending[rel] else {}
  }

  function ReadToOf(t: Tracker, rel: Rel): nat {
    if rel in t.readTo then t.readTo[rel] else 0
  }

  function NoteReadTo(t: Tracker, rel: Rel, to: nat): Tracker {
    t.(readTo := t.readTo[rel := to])
  }

  function NotePending(t: Tracker, rel: Rel, start: nat): Tracker {
    t.(pending := t.pending[rel := PendingOf(t, rel) + {start}])
  }

  function NoteConsumed(t: Tracker, rel: Rel, start: nat): Tracker {
    if rel !in t.pending then t
    else
      var left := t.pending[rel] - {start};
      t.(pending := if left == {} then t.pending - {rel} else t.pending[rel := left])
  }

  function Consumed(t: Tracker, r: OutRecord): Tracker {
    if r.Stored? then NoteConsumed(t, r.rel, r.start) else t
  }

  ghost function Least(s: set<nat>): (m: nat)
    requires s != {}
    ensures m in s && forall x :: x in s ==> m <= x
  {
    var x :| x in s;
    if s == {x} then x
    else
      assert s == (s - {x}) + {x};
      var m := Least(s - {x});
      if x < m then x else m
  }

  /** Where a cursor taken now resumes a segment. */
  ghost function Position(t: Tracker, rel: Rel): nat {
    if PendingOf(t, rel) != {} then Least(PendingOf(t, rel)) else ReadToOf(t, rel)
  }

  // ---------------------------------------------------------------- merging

  function Insert(sorted: seq<OutRecord>, r: OutRecord): (s: seq<OutRecord>)
    ensures |s| == |sorted| + 1 && multiset(s) == multiset(sorted) + multiset{r}
  {
    if sorted == [] then [r]
    else
      var n := |sorted| - 1;
      assert sorted == sorted[..n] + [sorted[n]];
      if KeyAtMost(SortKey(sorted[n]), SortKey(r)) then sorted + [r]
      else Insert(sorted[..n], r) + [sorted[n]]
  }

  /** The stable sort by merge key. */
  function StableSort(rs: seq<OutRecord>): (s: seq<OutRecord>)
    ensures |s| == |rs| && multiset(s) == multiset(rs)
  {
    if rs == [] then []
    else
      var n := |rs| - 1;
      assert rs == rs[..n] + [rs[n]];
      Insert(StableSort(rs[..n]), rs[n])
  }

  predicate InKeyOrder(rs: seq<OutRecord>) {
    forall i, j :: 0 <= i < j < |rs| ==> KeyAtMost(SortKey(rs[i]), SortKey(rs[j]))
  }

  lemma {:induction false} InsertSorts(sorted: seq<OutRecord>, r: OutRecord)
    requires InKeyOrder(sorted)
    ensures InKeyOrder(Insert(sorted, r))
    ensures forall x :: x in Insert(sorted, r) ==> x == r || x in sorted
  {
    hide KeyAtMost;
    if sorted != [] {
      var n := |sorted| - 1;
      var last := SortKey(sorted[n]);
      if KeyAtMost(last, SortKey(r)) {
        forall i | 0 <= i < n ensures KeyAtMost(SortKey(sorted[i]), SortKey(r)) {
          KeysInTurn(SortKey(sorted[i]), last, SortKey(r));
        }
      } else {
        var less := Insert(sorted[..n], r);
        InsertSorts(sorted[..n], r);
        KeysInTurn(SortKey(r), last, last);
        forall i | 0 <= i < |less| ensures KeyAtMost(SortKey(less[i]), last) {
          assert less[i] == r || less[i] in sorted[..n];
        }
      }
    }
  }

  lemma KeysInTurn(a: MergeKey, b: MergeKey, c: MergeKey)
    ensures KeyAtMost(a, b) || KeyAtMost(b, a)
    ensures KeyAtMost(a, b) && KeyAtMost(b, c) ==> KeyAtMost(a, c)
  {
  }

  /** What is printed is in merge-key order. */
  lemma {:induction false} SortSorts(rs: seq<OutRecord>)
    ensures InKeyOrder(StableSort(rs))
  {
    if rs != [] {
      SortSorts(rs[..|rs| - 1]);
      InsertSorts(StableSort(rs[..|rs| - 1]), rs[|rs| - 1]);
    }
  }

  /** The records of one segment. */
  function OfRel(rel: Rel, rs: seq<OutRecord>): seq<OutRecord> {
    if rs == [] then []
    else
      var last := rs[|rs| - 1];
      OfRel(rel, rs[..|rs| - 1]) + if last.Stored? && last.rel == rel then [last] else []
  }

  lemma {:induction false} OfRelSplit(rel: Rel, a: seq<OutRecord>, b: seq<OutRecord>)
    ensures OfRel(rel, a + b) == OfRel(rel, a) + OfRel(rel, b)
  {
    if b == [] {
      assert a + b == a;
    } else {
      var n := |b| - 1;
      assert (a + b)[..|a + b| - 1] == a + b[..n];
      OfRelSplit(rel, a, b[..n]);
    }
  }

  lemma {:induction false} OfRelOne(rel: Rel, r: OutRecord)
    ensures OfRel(rel, [r]) == if r.Stored? && r.rel == rel then [r] else []
  {
    assert [r][..0] == [];
    assert OfRel(rel, [r][..0]) == [];
  }

  lemma LastOfRel(rel: Rel, rs: seq<OutRecord>)
    requires rs != []
    ensures var last := rs[|rs| - 1]; last.Stored? && last.rel == rel ==> last in OfRel(rel, rs)
  {
  }

  /** Inserting a record after the others of its segment, or one of another segment. */
  lemma {:induction false} InsertOfRel(rel: Rel, sorted: seq<OutRecord>, r: OutRecord)
    requires r.Stored? && r.rel == rel ==>
      forall x :: x in OfRel(rel, sorted) ==> KeyAtMost(SortKey(x), SortKey(r))
    ensures OfRel(rel, Insert(sorted, r)) == OfRel(rel, sorted) + OfRel(rel, [r])
  {
    hide OfRel, KeyAtMost, SortKey;
    if sorted == [] {
      OfRelSplit(rel, [], [r]);
      assert [] + [r] == [r];
    } else {
      var n := |sorted| - 1;
      var before, last := sorted[..n], sorted[n];
      assert sorted == before + [last];
      if KeyAtMost(SortKey(last), SortKey(r)) {
        OfRelSplit(rel, sorted, [r]);
      } else {
        LastOfRel(rel, sorted);
        OfRelSplit(rel, before, [last]);
        OfRelOne(rel, last);
        OfRelOne(rel, r);
        InsertOfRel(rel, before, r);
        OfRelSplit(rel, Insert(before, r), [last]);
        Swapped(OfRel(rel, before), OfRel(rel, [r]), OfRel(rel, [last]));
      }
    }
  }

  lemma Swapped<T>(a: seq<T>, b: seq<T>, c: seq<T>)
    requires b == [] || c == []
    ensures (a + b) + c == (a + c) + b
  {
  }

  /** A segment whose records are collected in key order keeps their order when batches are merged. */
  lemma {:induction false} SortOfRel(rel: Rel, rs: seq<OutRecord>)
    requires InKeyOrder(OfRel(rel, rs))
    ensures OfRel(rel, StableSort(rs)) == OfRel(rel, rs)
  {
    hide OfRel, KeyAtMost;
    if rs == [] {
    } else {
      var n := |rs| - 1;
      var last := rs[n];
      OfRelSplit(rel, rs[..n], [last]);
      OfRelOne(rel, last);
      assert rs == rs[..n] + [last];
      var before := OfRel(rel, rs[..n]);
      assert forall i :: 0 <= i < |before| ==> before[i] == OfRel(rel, rs)[i];
      SortOfRel(rel, rs[..n]);
      if last.Stored? && last.rel == rel {
        forall x | x in before ensures KeyAtMost(SortKey(x), SortKey(last)) {
          var i :| 0 <= i < |before| && before[i] == x;
          assert OfRel(rel, rs)[|before|] == last;
        }
      }
      InsertOfRel(rel, StableSort(rs[..n]), last);
    }
  }

  // ---------------------------------------------------------------- collecting

  /** The records of a read that pass the filters. */
  function Matching(rel: Rel, records: seq<SegmentRecord>, passes: Event -> bool): seq<OutRecord> {
    if records == [] then []
    else
      var last := records[|records| - 1];
      Matching(rel, records[..|records| - 1], passes) + if passes(last.event) then [Stored(last.event, rel, last.start)] else []
  }

  lemma {:induction false} MatchingSplit(rel: Rel, a: seq<SegmentRecord>, b: seq<SegmentRecord>, passes: Event -> bool)
    ensures Matching(rel, a + b, passes) == Matching(rel, a, passes) + Matching(rel, b, passes)
  {
    if b == [] {
      assert a + b == a;
    } else {
      var n := |b| - 1;
      assert (a + b)[..|a + b| - 1] == a + b[..n];
      MatchingSplit(rel, a, b[..n], passes);
    }
  }

  function NoteAll(t: Tracker, rs: seq<OutRecord>): Tracker {
    if rs == [] then t
    else
      var last := rs[|rs| - 1];
      var before := NoteAll(t, rs[..|rs| - 1]);
      if last.Stored? then NotePending(before, last.rel, last.start) else before
  }

  function ConsumedAll(t: Tracker, rs: seq<OutRecord>): Tracker {
    if rs == [] then t else Consumed(ConsumedAll(t, rs[..|rs| - 1]), rs[|rs| - 1])
  }

  function Starts(rs: seq<OutRecord>): set<nat> {
    set r | r in rs && r.Stored? :: r.start
  }

  // ---------------------------------------------------------------- a run

  /** The segments as they will be in the end, where a resumed run starts, how lines parse and which events pass. */
  datatype World = World(segments: map<Rel, seq<byte>>, seed: map<Rel, nat>, parse: LineParser, passes: Event -> bool)

  const BOOKMARK_EVERY_RECORDS := 100

  /** A cursor handed to the consumer, with what had been printed, and consumed in any way, when it was taken. */
  datatype Bookmark = Bookmark(tracker: Tracker, printed: seq<OutRecord>, consumed: seq<OutRecord>)

  /** Consumed records are those printed and those dropped unprinted by request, in the order they went. */
  datatype Reader = Reader(
    tracker: Tracker, collected: seq<OutRecord>, queue: seq<OutRecord>, emitting: bool,
    consumed: seq<OutRecord>, printed: seq<OutRecord>, sinceMark: nat, bookmarks: seq<Bookmark>)

  datatype Action =
    | PollSegment(rel: Rel, snapshot: seq<byte>)
    | PollLog(derived: seq<MergeKey>)
    | StartEmitting(limit: Option<nat>)
    | PrintNext
    | EndEmitting
    | IdleBookmark
    | Discard

  function Begin(w: World): Reader {
    Reader(Tracker(w.seed, map[]), [], [], false, [], [], 0, [])
  }

  function Marked(r: Reader): Reader {
    r.(sinceMark := 0, bookmarks := r.bookmarks + [Bookmark(r.tracker, r.printed, r.consumed)])
  }

  function DerivedRecords(keys: seq<MergeKey>): seq<OutRecord> {
    seq(|keys|, i requires 0 <= i < |keys| => Derived(keys[i]))
  }

  /** A snapshot is what the file is at the time of a read: some start of what it becomes. */
  predicate Possible(w: World, r: Reader, a: Action) {
    match a
    case PollSegment(rel, snapshot) => !r.emitting && rel in w.segments && snapshot <= w.segments[rel]
    case PollLog(_) => !r.emitting
    case StartEmitting(_) => !r.emitting
    case PrintNext => r.emitting && r.queue != []
    case EndEmitting => r.emitting && r.queue == []
    case IdleBookmark => !r.emitting && r.collected == []
    case Discard => !r.emitting
  }

  function Polled(w: World, r: Reader, rel: Rel, snapshot: seq<byte>): Reader {
    var outcome := ReadFrom(snapshot, ReadToOf(r.tracker, rel), w.parse);
    var matched := Matching(rel, outcome.records, w.passes);
    r.(tracker := NoteAll(NoteReadTo(r.tracker, rel, outcome.consumedTo), matched), collected := r.collected + matched)
  }

  /** All but the last `limit` records are consumed unprinted. */
  function Dropped(n: nat, limit: Option<nat>): nat {
    if limit.Some? && limit.value < n then n - limit.value else 0
  }

  function Emitting(r: Reader, limit: Option<nat>): Reader {
    var sorted := StableSort(r.collected);
    var d := Dropped(|sorted|, limit);
    r.(tracker := ConsumedAll(r.tracker, sorted[..d]), collected := [], queue := sorted[d..], emitting := true,
       consumed := r.consumed + sorted[..d])
  }

  /** The next record is printed; every hundredth since the last bookmark is followed by one. */
  function Printing(r: Reader): Reader
    requires r.queue != []
  {
    var first := r.queue[0];
    var t := r.(tracker := Consumed(r.tracker, first), queue := r.queue[1..],
                consumed := r.consumed + [first], printed := r.printed + [first], sinceMark := r.sinceMark + 1);
    if t.sinceMark >= BOOKMARK_EVERY_RECORDS then Marked(t) else t
  }

  function PrintingSome(r: Reader, n: nat): (t: Reader)
    requires n <= |r.queue|
    ensures t.queue == r.queue[n..] && t.emitting == r.emitting && t.collected == r.collected
  {
    if n == 0 then r else Printing(PrintingSome(r, n - 1))
  }

  function Do(w: World, r: Reader, a: Action): Reader
    requires Possible(w, r, a)
  {
    match a
    case PollSegment(rel, snapshot) => Polled(w, r, rel, snapshot)
    case PollLog(derived) => r.(collected := r.collected + DerivedRecords(derived))
    case StartEmitting(limit) => Emitting(r, limit)
    case PrintNext => Printing(r)
    case EndEmitting => r.(emitting := false)
    case IdleBookmark => Marked(r)
    case Discard =>
      r.(tracker := ConsumedAll(r.tracker, r.collected), collected := [], consumed := r.consumed + r.collected)
  }

  function After(w: World, actions: seq<Action>): Option<Reader> {
    if actions == [] then Some(Begin(w))
    else
      var before := After(w, actions[..|actions| - 1]);
      if before.None? || !Possible(w, before.value, actions[|actions| - 1]) then None
      else Some(Do(w, before.value, actions[|actions| - 1]))
  }
}
