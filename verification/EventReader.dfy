/** The follow reader in place: a tracker updated as segments are polled and batches are printed. */
module EventReader {
  import opened Wrappers
  import opened Bytes
  import opened EventSegments
  import opened EventCursors

  class CursorTracker {
    var readTo: map<Rel, nat>
    var pending: map<Rel, set<nat>>

    function View(): Tracker
      reads this
    {
      Tracker(readTo, pending)
    }

    constructor (seed: map<Rel, nat>)
      ensures View() == Tracker(seed, map[])
    {
      readTo, pending := seed, map[];
    }

    method RecordReadTo(rel: Rel, to: nat)
      modifies this
      ensures View() == NoteReadTo(old(View()), rel, to)
    {
      readTo := readTo[rel := to];
    }

    method AddPending(rel: Rel, start: nat)
      modifies this
      ensures View() == NotePending(old(View()), rel, start)
    {
      var starts := if rel in pending then pending[rel] else {};
      pending := pending[rel := starts + {start}];
    }

    method Consume(rel: Rel, start: nat)
      modifies this
      ensures View() == NoteConsumed(old(View()), rel, start)
    {
      if rel in pending {
        var starts := pending[rel] - {start};
        pending := if starts == {} then pending - {rel} else pending[rel := starts];
      }
    }

    /** What a cursor says: for each segment its earliest unconsumed record, or how far it was read. */
    method Token() returns (streams: map<Rel, nat>)
      requires forall rel :: rel in pending ==> pending[rel] != {}
      ensures streams.Keys == readTo.Keys + pending.Keys
      ensures forall rel :: rel in streams ==> streams[rel] == Position(View(), rel)
    {
      hide Least;
      streams := readTo;
      var overlay := Earliest(pending);
      streams := streams + overlay;
    }
  }

  /** The earliest unconsumed record of each segment that has one. */
  method Earliest(pending: map<Rel, set<nat>>) returns (first: map<Rel, nat>)
    requires forall rel :: rel in pending ==> pending[rel] != {}
    ensures first.Keys == pending.Keys
    ensures forall rel :: rel in pending ==> first[rel] == Least(pending[rel])
  {
    hide Least;
    first := map[];
    var left := pending.Keys;
    while left != {}
      invariant left <= pending.Keys
      invariant forall rel :: rel in first <==> rel in pending && rel !in left
      invariant forall rel :: rel in first ==> rel in pending && first[rel] == Least(pending[rel])
      decreases left
    {
      var rel :| rel in left;
      var m := First(pending[rel]);
      first := first[rel := m];
      left := left - {rel};
    }
  }

  method First(starts: set<nat>) returns (m: nat)
    requires starts != {}
    ensures m == Least(starts)
  {
    hide Least;
    var left := starts;
    m :| m in left;
    left := left - {m};
    while left != {}
      invariant left <= starts && m in starts && forall x :: x in starts && x !in left ==> m <= x
      decreases |left|
    {
      var x :| x in left;
      if x < m {
        m := x;
      }
      left := left - {x};
    }
  }

  class StreamReader {
    const tracker: CursorTracker
    const parse: LineParser
    const passes: Event -> bool
    var collected: seq<OutRecord>
    var consumed: seq<OutRecord>
    var printed: seq<OutRecord>
    var sinceMark: nat
    var bookmarks: seq<Bookmark>

    /** The reader between batches, or while printing `queue`. */
    function View(queue: seq<OutRecord>, emitting: bool): Reader
      reads this, tracker
    {
      Reader(tracker.View(), collected, queue, emitting, consumed, printed, sinceMark, bookmarks)
    }

    constructor (w: World)
      ensures fresh(tracker) && parse == w.parse && passes == w.passes
      ensures View([], false) == Begin(w)
    {
      tracker := new CursorTracker(w.seed);
      parse, passes := w.parse, w.passes;
      collected, consumed, printed, sinceMark, bookmarks := [], [], [], 0, [];
    }

    /** Reads what a segment gained and notes every record that passes the filters. */
    method Poll(w: World, rel: Rel, snapshot: seq<byte>) returns (skipped: nat)
      requires parse == w.parse && passes == w.passes
      modifies this`collected, tracker
      ensures View([], false) == Polled(w, old(View([], false)), rel, snapshot)
      ensures skipped == ReadFrom(snapshot, old(ReadToOf(tracker.View(), rel)), parse).skipped
    {
      hide ReadFrom;
      var from := if rel in tracker.readTo then tracker.readTo[rel] else 0;
      var outcome := ReadSegmentRecords(snapshot, from, parse);
      skipped := outcome.skipped;
      tracker.RecordReadTo(rel, outcome.consumedTo);
      ghost var noted := tracker.View();
      var i := 0;
      ghost var matched: seq<OutRecord> := [];
      while i < |outcome.records|
        invariant i <= |outcome.records|
        invariant matched == Matching(rel, outcome.records[..i], passes)
        invariant collected == old(collected) + matched
        invariant tracker.View() == NoteAll(noted, matched)
      {
        assert outcome.records[..i + 1][..i] == outcome.records[..i];
        var record := outcome.records[i];
        if passes(record.event) {
          tracker.AddPending(rel, record.start);
          var stored := Stored(record.event, rel, record.start);
          assert (matched + [stored])[..|matched|] == matched;
          matched := matched + [stored];
          collected := collected + [stored];
        }
        i := i + 1;
      }
      assert outcome.records[..i] == outcome.records;
    }

    /** Consumes some records one by one, printed or not. */
    method ConsumeEach(records: seq<OutRecord>)
      modifies this`consumed, tracker
      ensures tracker.View() == ConsumedAll(old(tracker.View()), records)
      ensures consumed == old(consumed) + records
    {
      var i := 0;
      assert old(consumed) + [] == old(consumed);
      while i < |records|
        invariant i <= |records|
        invariant tracker.View() == ConsumedAll(old(tracker.View()), records[..i])
        invariant consumed == old(consumed) + records[..i]
      {
        assert records[..i + 1][..i] == records[..i];
        if records[i].Stored? {
          tracker.Consume(records[i].rel, records[i].start);
        }
        consumed := consumed + [records[i]];
        i := i + 1;
      }
      assert records[..i] == records;
    }

    /** A cursor record: where each segment resumes now. */
    method WriteBookmark(ghost queue: seq<OutRecord>, ghost emitting: bool)
      modifies this`sinceMark, this`bookmarks
      ensures View(queue, emitting) == Marked(old(View(queue, emitting)))
    {
      sinceMark, bookmarks := 0, bookmarks + [Bookmark(tracker.View(), printed, consumed)];
    }

    /** Merges the collected records and prints them until the output takes no more. */
    method EmitBatch(limit: Option<nat>, accepts: nat) returns (count: nat)
      modifies this, tracker
      ensures var start := Emitting(old(View([], false)), limit);
        && count == (if accepts < |start.queue| then accepts else |start.queue|)
        && View(start.queue[count..], true) == PrintingSome(start, count)
    {
      hide StableSort, ConsumedAll;
      var sorted := StableSort(collected);
      collected := [];
      var dropped := Dropped(|sorted|, limit);
      ConsumeEach(sorted[..dropped]);
      var queue := sorted[dropped..];
      ghost var start := View(queue, true);
      count := 0;
      while count < |queue| && count < accepts
        invariant count <= |queue| && count <= accepts
        invariant View(queue[count..], true) == PrintingSome(start, count)
      {
        PrintOne(queue[count], queue[count..]);
        count := count + 1;
      }
    }

    method PrintOne(record: OutRecord, ghost queue: seq<OutRecord>)
      requires queue != [] && queue[0] == record
      modifies this`consumed, this`printed, this`sinceMark, this`bookmarks, tracker
      ensures View(queue[1..], true) == Printing(old(View(queue, true)))
    {
      printed := printed + [record];
      if record.Stored? {
        tracker.Consume(record.rel, record.start);
      }
      consumed, sinceMark := consumed + [record], sinceMark + 1;
      if sinceMark >= BOOKMARK_EVERY_RECORDS {
        WriteBookmark(queue[1..], true);
      }
    }
  }
}
