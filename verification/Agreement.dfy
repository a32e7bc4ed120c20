/**
 * The index against the log it mirrors: for any run of appends, commits and updates, whatever the
 * disk returns when it is read.
 */
module Agreement {
  import opened Integrity
  import opened Index
  import opened Wrappers

  /** An entry as its writer wrote it, and the offset behind it. */
  datatype Line = Line(entry: Entry, end: nat)

  /** What was written to each segment. */
  type Log = map<string, seq<Line>>

  function Entries(lines: seq<Line>): (entries: seq<Entry>)
    ensures |entries| == |lines| && forall k :: 0 <= k < |lines| ==> entries[k] == lines[k].entry
  {
    seq(|lines|, k requires 0 <= k < |lines| => lines[k].entry)
  }

  predicate Written(log: Log, segment: string, k: int) {
    segment in log && 0 <= k < |log[segment]|
  }

  function IdAt(log: Log, segment: string, k: int): string
    requires Written(log, segment, k)
  {
    log[segment][k].entry.payload.body.id
  }

  ghost predicate UniqueIds(log: Log) {
    forall s, k, t, j :: Written(log, s, k) && Written(log, t, j) && IdAt(log, s, k) == IdAt(log, t, j) ==>
        s == t && k == j
  }

  ghost predicate Growing(lines: seq<Line>) {
    forall j, k :: 0 <= j < k < |lines| ==> lines[j].end < lines[k].end
  }

  /** Each segment is one hash chain, offsets grow, and no id is used twice. */
  ghost predicate IsLog(digest: Digest<Item>, log: Log) {
    && (forall s :: s in log ==> IsChain(digest, Entries(log[s])) && Growing(log[s]))
    && UniqueIds(log)
  }

  /** `(offset, hash)` is where entry `k` of the segment ends. */
  predicate EndsAt(log: Log, segment: string, k: int, offset: int, hash: Option<string>) {
    Written(log, segment, k) && log[segment][k].end == offset && log[segment][k].entry.hash == hash
  }

  /** A catalog says of a segment only what its writer wrote. */
  ghost predicate IsCommit(log: Log, p: Prefix) {
    exists k :: EndsAt(log, p.segment, k, p.offset, Some(p.hash))
  }

  /** Entry `k` of the segment lies before the cursor. */
  predicate Behind(log: Log, cursors: map<string, Cursor>, segment: string, k: int) {
    segment in cursors && Written(log, segment, k) && log[segment][k].end <= cursors[segment].offset
  }

  /** A table holds exactly the entries its cursors have passed. */
  ghost predicate Mirrors(log: Log, rows: map<string, Entry>, cursors: map<string, Cursor>) {
    && (forall s, k :: Behind(log, cursors, s, k) ==> HasRow(log, rows, s, k))
    && (forall id :: id in rows ==> exists s, k :: Behind(log, cursors, s, k) && IdAt(log, s, k) == id)
    && (forall s :: s in cursors ==> exists k :: EndsAt(log, s, k, cursors[s].offset, cursors[s].hash))
  }

  predicate HasRow(log: Log, rows: map<string, Entry>, s: string, k: int) {
    Written(log, s, k) && IdAt(log, s, k) in rows && rows[IdAt(log, s, k)] == log[s][k].entry
  }

  // ---- one round ----

  /** Whatever the disk returned, an accepted prefix is what the writer wrote. */
  lemma AcceptedIsWritten(digest: Digest<Item>, log: Log, p: Prefix, disk: Disk, k: nat)
    requires Injective(digest) && IsLog(digest, log) && EndsAt(log, p.segment, k, p.offset, Some(p.hash))
    requires Refusal(digest, disk, p).None?
    ensures disk(p).entries == Entries(log[p.segment][..k + 1])
  {
    var written := Entries(log[p.segment]);
    PrefixOfChain(digest, written, k + 1);
    assert written[..k + 1] == Entries(log[p.segment][..k + 1]);
    FinalHashPinsChain(digest, disk(p).entries, written[..k + 1]);
  }

  lemma {:induction false} InsertedMeaning(rows: map<string, Entry>, entries: seq<Entry>, id: string)
    ensures id in rows ==> id in Inserted(rows, entries) && Inserted(rows, entries)[id] == rows[id]
    ensures id !in rows && id in Inserted(rows, entries) ==>
              exists j :: 0 <= j < |entries| && entries[j].payload.body.id == id
                && Inserted(rows, entries)[id] == entries[j]
    ensures (exists j :: 0 <= j < |entries| && entries[j].payload.body.id == id) ==> id in Inserted(rows, entries)
  {
    if entries != [] {
      var n := |entries| - 1;
      InsertedMeaning(rows, entries[..n], id);
      assert forall j :: 0 <= j < n ==> entries[..n][j] == entries[j];
    }
  }

  lemma EndsAreOrdered(log: Log, segment: string, j: nat, k: nat)
    requires Written(log, segment, j) && Written(log, segment, k) && Growing(log[segment])
    ensures log[segment][j].end <= log[segment][k].end <==> j <= k
  {
  }

  /** Taking in a prefix: the rows of the first `k + 1` entries join the table. */
  lemma TakeInKeepsRows(digest: Digest<Item>, log: Log, rows: map<string, Entry>, cursors: map<string, Cursor>,
    p: Prefix, k: nat, s: string, j: int)
    requires IsLog(digest, log) && Mirrors(log, rows, cursors) && EndsAt(log, p.segment, k, p.offset, Some(p.hash))
    requires Behind(log, cursors[p.segment := Cursor(p.offset, Some(p.hash))], s, j)
    ensures HasRow(log, Inserted(rows, Entries(log[p.segment][..k + 1])), s, j)
  {
    var entries, id := Entries(log[p.segment][..k + 1]), IdAt(log, s, j);
    InsertedMeaning(rows, entries, id);
    if id in rows {
      MirroredHasRow(log, rows, cursors, s, j);
    } else {
      assert s == p.segment by {
        assert Behind(log, cursors, s, j) ==> HasRow(log, rows, s, j);
      }
      EndsAreOrdered(log, s, j, k);
      assert entries[j] == log[s][j].entry;
      var i :| 0 <= i < |entries| && entries[i].payload.body.id == id && Inserted(rows, entries)[id] == entries[i];
      assert Written(log, s, i) && IdAt(log, s, i) == id;
    }
  }

  /** A row under the id of an entry is the entry's. */
  lemma MirroredHasRow(log: Log, rows: map<string, Entry>, cursors: map<string, Cursor>, s: string, j: int)
    requires UniqueIds(log) && Mirrors(log, rows, cursors) && Written(log, s, j) && IdAt(log, s, j) in rows
    ensures HasRow(log, rows, s, j)
  {
    var t, i :| Behind(log, cursors, t, i) && IdAt(log, t, i) == IdAt(log, s, j);
    assert HasRow(log, rows, t, i);
  }

  lemma TakeInAddsNothingElse(digest: Digest<Item>, log: Log, rows: map<string, Entry>, cursors: map<string, Cursor>,
    p: Prefix, k: nat, id: string)
    requires IsLog(digest, log) && Mirrors(log, rows, cursors) && EndsAt(log, p.segment, k, p.offset, Some(p.hash))
    requires CursorOf(cursors, p.segment).offset <= p.offset
    requires id in Inserted(rows, Entries(log[p.segment][..k + 1]))
    ensures exists s, j ::
              Behind(log, cursors[p.segment := Cursor(p.offset, Some(p.hash))], s, j) && IdAt(log, s, j) == id
  {
    var entries, after := Entries(log[p.segment][..k + 1]), cursors[p.segment := Cursor(p.offset, Some(p.hash))];
    InsertedMeaning(rows, entries, id);
    if id in rows {
      OldIsBehind(log, rows, cursors, p, id);
    } else {
      var i :| 0 <= i < |entries| && entries[i].payload.body.id == id;
      NewIsBehind(log, cursors, p, k, i);
      assert Behind(log, after, p.segment, i) && entries[i] == log[p.segment][i].entry;
      assert IdAt(log, p.segment, i) == id;
    }
  }

  /** What lay before the cursors still does when one of them moves on. */
  lemma OldIsBehind(log: Log, rows: map<string, Entry>, cursors: map<string, Cursor>, p: Prefix, id: string)
    requires Mirrors(log, rows, cursors) && id in rows && CursorOf(cursors, p.segment).offset <= p.offset
    ensures exists s, j ::
              Behind(log, cursors[p.segment := Cursor(p.offset, Some(p.hash))], s, j) && IdAt(log, s, j) == id
  {
    var s, j :| Behind(log, cursors, s, j) && IdAt(log, s, j) == id;
    assert Behind(log, cursors[p.segment := Cursor(p.offset, Some(p.hash))], s, j);
  }

  lemma NewIsBehind(log: Log, cursors: map<string, Cursor>, p: Prefix, k: nat, i: nat)
    requires EndsAt(log, p.segment, k, p.offset, Some(p.hash)) && i <= k && Growing(log[p.segment])
    ensures Behind(log, cursors[p.segment := Cursor(p.offset, Some(p.hash))], p.segment, i)
  {
    EndsAreOrdered(log, p.segment, i, k);
  }

  lemma TakeInKeepsMirror(digest: Digest<Item>, log: Log, rows: map<string, Entry>, cursors: map<string, Cursor>,
    p: Prefix, k: nat)
    requires IsLog(digest, log) && Mirrors(log, rows, cursors) && EndsAt(log, p.segment, k, p.offset, Some(p.hash))
    requires CursorOf(cursors, p.segment).offset <= p.offset
    ensures Mirrors(log, Inserted(rows, Entries(log[p.segment][..k + 1])),
              cursors[p.segment := Cursor(p.offset, Some(p.hash))])
  {
    var grown, after :=
      Inserted(rows, Entries(log[p.segment][..k + 1])), cursors[p.segment := Cursor(p.offset, Some(p.hash))];
    forall s, j | Behind(log, after, s, j) ensures HasRow(log, grown, s, j) {
      TakeInKeepsRows(digest, log, rows, cursors, p, k, s, j);
    }
    forall id | id in grown ensures exists s, j :: Behind(log, after, s, j) && IdAt(log, s, j) == id {
      TakeInAddsNothingElse(digest, log, rows, cursors, p, k, id);
    }
    forall s | s in after ensures exists j :: EndsAt(log, s, j, after[s].offset, after[s].hash) {
      if s == p.segment {
        assert EndsAt(log, s, k, after[s].offset, after[s].hash);
      }
    }
  }

  lemma StepKeepsMirror(digest: Digest<Item>, log: Log, disk: Disk, s: Scan, p: Prefix)
    requires Injective(digest) && IsLog(digest, log) && Mirrors(log, s.rows, s.cursors)
    requires IsCommit(log, p) && !Moved(s, p)
    ensures Mirrors(log, Step(digest, disk, s, p).rows, Step(digest, disk, s, p).cursors)
  {
    var k :| EndsAt(log, p.segment, k, p.offset, Some(p.hash));
    if p.process !in s.blocked && !Reached(s.cursors, p) && Refusal(digest, disk, p).None? {
      AcceptedIsWritten(digest, log, p, disk, k);
      TakeInKeepsMirror(digest, log, s.rows, s.cursors, p, k);
    }
  }

  // ---- the whole loop ----

  ghost predicate AreCommits(log: Log, prefixes: seq<Prefix>) {
    && (forall p :: p in prefixes ==> IsCommit(log, p))
    && forall i, j :: 0 <= i < j < |prefixes| ==> prefixes[i].segment != prefixes[j].segment
  }

  /** Every segment with a cursor is still named, and no commit lies behind its cursor. */
  ghost predicate Covers(prefixes: seq<Prefix>, cursors: map<string, Cursor>) {
    && (forall s :: s in cursors ==> exists i :: 0 <= i < |prefixes| && prefixes[i].segment == s)
    && forall i :: 0 <= i < |prefixes| ==> CursorOf(cursors, prefixes[i].segment).offset <= prefixes[i].offset
  }

  /** Whatever the disk returned, and whether or not a prefix was refused, the table mirrors the log. */
  lemma {:induction false} ScanKeepsMirror(digest: Digest<Item>, log: Log, disk: Disk, s: Scan, prefixes: seq<Prefix>)
    requires Injective(digest) && IsLog(digest, log) && Mirrors(log, s.rows, s.cursors)
    requires forall p :: p in prefixes ==> IsCommit(log, p)
    requires ScanAll(digest, disk, s, prefixes).Some?
    ensures var t := ScanAll(digest, disk, s, prefixes).value; Mirrors(log, t.rows, t.cursors)
  {
    if prefixes != [] {
      var n := |prefixes| - 1;
      ScanKeepsMirror(digest, log, disk, s, prefixes[..n]);
      StepKeepsMirror(digest, log, disk, ScanAll(digest, disk, s, prefixes[..n]).value, prefixes[n]);
    }
  }

  /** The loop touches only the cursors of the prefixes it is given. */
  lemma {:induction false} OtherCursorsStay(digest: Digest<Item>, disk: Disk, s: Scan, prefixes: seq<Prefix>,
    segment: string)
    requires forall i :: 0 <= i < |prefixes| ==> prefixes[i].segment != segment
    requires ScanAll(digest, disk, s, prefixes).Some?
    ensures var t := ScanAll(digest, disk, s, prefixes).value;
            (segment in t.cursors <==> segment in s.cursors)
              && CursorOf(t.cursors, segment) == CursorOf(s.cursors, segment)
  {
    if prefixes != [] {
      OtherCursorsStay(digest, disk, s, prefixes[..|prefixes| - 1], segment);
    }
  }

  /** A scan never raises when no commit lies behind its cursor. */
  lemma {:induction false} ScanNeverRaises(digest: Digest<Item>, log: Log, disk: Disk, s: Scan, prefixes: seq<Prefix>)
    requires AreCommits(log, prefixes)
    requires forall i :: 0 <= i < |prefixes| ==> CursorOf(s.cursors, prefixes[i].segment).offset <= prefixes[i].offset
    ensures ScanAll(digest, disk, s, prefixes).Some?
  {
    if prefixes != [] {
      var n := |prefixes| - 1;
      ScanNeverRaises(digest, log, disk, s, prefixes[..n]);
      OtherCursorsStay(digest, disk, s, prefixes[..n], prefixes[n].segment);
    }
  }

  /** Only a new failure blocks a process. */
  lemma {:induction false} OnlyFailuresBlock(digest: Digest<Item>, disk: Disk, s: Scan, prefixes: seq<Prefix>)
    requires ScanAll(digest, disk, s, prefixes).Some?
    ensures var t := ScanAll(digest, disk, s, prefixes).value;
            |s.failures| <= |t.failures| && (|t.failures| == |s.failures| ==> t.blocked == s.blocked)
  {
    if prefixes != [] {
      OnlyFailuresBlock(digest, disk, s, prefixes[..|prefixes| - 1]);
    }
  }

  /** Every segment of a process that is not blocked ends up at its commit. */
  lemma {:induction false} UnblockedIsCurrent(digest: Digest<Item>, log: Log, disk: Disk, s: Scan,
    prefixes: seq<Prefix>, i: nat)
    requires AreCommits(log, prefixes) && ScanAll(digest, disk, s, prefixes).Some? && i < |prefixes|
    requires prefixes[i].process !in ScanAll(digest, disk, s, prefixes).value.blocked
    ensures Reached(ScanAll(digest, disk, s, prefixes).value.cursors, prefixes[i])
  {
    var n := |prefixes| - 1;
    if i < n {
      UnblockedIsCurrent(digest, log, disk, s, prefixes[..n], i);
      assert prefixes[i].segment != prefixes[n].segment;
    }
  }

  lemma {:induction false} CursorsAreNamed(digest: Digest<Item>, disk: Disk, s: Scan, prefixes: seq<Prefix>)
    requires ScanAll(digest, disk, s, prefixes).Some?
    ensures forall g :: g in ScanAll(digest, disk, s, prefixes).value.cursors ==>
              g in s.cursors || exists i :: 0 <= i < |prefixes| && prefixes[i].segment == g
  {
    forall g | g in ScanAll(digest, disk, s, prefixes).value.cursors && g !in s.cursors
      ensures exists i :: 0 <= i < |prefixes| && prefixes[i].segment == g
    {
      if forall i :: 0 <= i < |prefixes| ==> prefixes[i].segment != g {
        OtherCursorsStay(digest, disk, s, prefixes, g);
      }
    }
  }

  /** Entry `k` of the segment is committed. */
  predicate Committed(log: Log, p: Prefix, k: int) {
    Written(log, p.segment, k) && log[p.segment][k].end <= p.offset
  }

  /** The table holds every committed entry of every segment and nothing else. */
  ghost predicate HoldsAllCommitted(log: Log, prefixes: seq<Prefix>, rows: map<string, Entry>) {
    && (forall i, k :: 0 <= i < |prefixes| && Committed(log, prefixes[i], k) ==>
           HasRow(log, rows, prefixes[i].segment, k))
    && forall id :: id in rows ==>
         exists i, k :: 0 <= i < |prefixes| && Committed(log, prefixes[i], k) && IdAt(log, prefixes[i].segment, k) == id
  }

  lemma MirrorAtCommitsHoldsAll(log: Log, s: Scan, prefixes: seq<Prefix>)
    requires Mirrors(log, s.rows, s.cursors) && Covers(prefixes, s.cursors)
    requires forall i :: 0 <= i < |prefixes| ==> Reached(s.cursors, prefixes[i]) && prefixes[i].segment in s.cursors
    ensures HoldsAllCommitted(log, prefixes, s.rows)
  {
    forall i, k | 0 <= i < |prefixes| && Committed(log, prefixes[i], k)
      ensures HasRow(log, s.rows, prefixes[i].segment, k)
    {
      assert Behind(log, s.cursors, prefixes[i].segment, k);
    }
    forall id | id in s.rows
      ensures exists i, k ::
                0 <= i < |prefixes| && Committed(log, prefixes[i], k) && IdAt(log, prefixes[i].segment, k) == id
    {
      var g, k :| Behind(log, s.cursors, g, k) && IdAt(log, g, k) == id;
      var i :| 0 <= i < |prefixes| && prefixes[i].segment == g;
      assert Committed(log, prefixes[i], k);
    }
  }

  /**
   * An update without failures leaves in the table exactly the committed entries of all segments,
   * whatever earlier updates saw and whatever the disk returned.
   */
  lemma CleanUpdateHoldsAll(digest: Digest<Item>, log: Log, disk: Disk, s: Scan, prefixes: seq<Prefix>)
    requires Injective(digest) && IsLog(digest, log) && Mirrors(log, s.rows, s.cursors)
    requires AreCommits(log, prefixes) && Covers(prefixes, s.cursors) && s.blocked == {}
    requires ScanAll(digest, disk, s, prefixes).Some? && ScanAll(digest, disk, s, prefixes).value.failures == s.failures
    ensures HoldsAllCommitted(log, prefixes, ScanAll(digest, disk, s, prefixes).value.rows)
  {
    var t := ScanAll(digest, disk, s, prefixes).value;
    ScanKeepsMirror(digest, log, disk, s, prefixes);
    CursorsAreNamed(digest, disk, s, prefixes);
    CleanUpdateReachesCommits(digest, log, disk, s, prefixes);
    MirrorAtCommitsHoldsAll(log, t, prefixes);
  }

  lemma CleanUpdateReachesCommits(digest: Digest<Item>, log: Log, disk: Disk, s: Scan, prefixes: seq<Prefix>)
    requires AreCommits(log, prefixes) && s.blocked == {}
    requires ScanAll(digest, disk, s, prefixes).Some? && ScanAll(digest, disk, s, prefixes).value.failures == s.failures
    ensures var t := ScanAll(digest, disk, s, prefixes).value;
            forall i :: 0 <= i < |prefixes| ==> Reached(t.cursors, prefixes[i]) && prefixes[i].segment in t.cursors
  {
    OnlyFailuresBlock(digest, disk, s, prefixes);
    forall i | 0 <= i < |prefixes|
      ensures Reached(ScanAll(digest, disk, s, prefixes).value.cursors, prefixes[i])
    {
      UnblockedIsCurrent(digest, log, disk, s, prefixes, i);
    }
  }

  lemma AllCommittedIsUnique(log: Log, prefixes: seq<Prefix>, a: map<string, Entry>, b: map<string, Entry>)
    requires HoldsAllCommitted(log, prefixes, a) && HoldsAllCommitted(log, prefixes, b)
    ensures a == b
  {
    forall id ensures id in a ==> id in b && b[id] == a[id] {
      if id in a {
        var i, k :| 0 <= i < |prefixes| && Committed(log, prefixes[i], k) && IdAt(log, prefixes[i].segment, k) == id;
        assert HasRow(log, a, prefixes[i].segment, k) && HasRow(log, b, prefixes[i].segment, k);
      }
    }
    forall id | id in b ensures id in a {
      var i, k :| 0 <= i < |prefixes| && Committed(log, prefixes[i], k) && IdAt(log, prefixes[i].segment, k) == id;
      assert HasRow(log, a, prefixes[i].segment, k);
    }
    assert a.Keys == b.Keys;
  }

  lemma RebuildHoldsAll(digest: Digest<Item>, log: Log, disk: Disk, empty: Scan, prefixes: seq<Prefix>)
    requires Injective(digest) && IsLog(digest, log) && AreCommits(log, prefixes)
    requires empty == Scan(map[], map[], 0, 0, [], {}, {})
    requires ScanAll(digest, disk, empty, prefixes).Some? && ScanAll(digest, disk, empty, prefixes).value.failures == []
    ensures HoldsAllCommitted(log, prefixes, ScanAll(digest, disk, empty, prefixes).value.rows)
  {
    forall i | 0 <= i < |prefixes| ensures prefixes[i].offset >= 0 {
      CommitIsNotNegative(log, prefixes[i]);
    }
    CleanUpdateHoldsAll(digest, log, disk, empty, prefixes);
  }

  /** So it equals the table a rebuild from nothing makes, from another reading of the disk. */
  lemma UpdateEqualsRebuild(digest: Digest<Item>, log: Log, disk: Disk, s: Scan, prefixes: seq<Prefix>,
    later: Disk, empty: Scan)
    requires Injective(digest) && IsLog(digest, log) && Mirrors(log, s.rows, s.cursors)
    requires AreCommits(log, prefixes) && Covers(prefixes, s.cursors) && s.blocked == {}
    requires empty == Scan(map[], map[], 0, 0, [], {}, {})
    requires ScanAll(digest, disk, s, prefixes).Some? && ScanAll(digest, disk, s, prefixes).value.failures == s.failures
    requires ScanAll(digest, later, empty, prefixes).Some?
             && ScanAll(digest, later, empty, prefixes).value.failures == []
    ensures ScanAll(digest, disk, s, prefixes).value.rows == ScanAll(digest, later, empty, prefixes).value.rows
  {
    CleanUpdateHoldsAll(digest, log, disk, s, prefixes);
    RebuildHoldsAll(digest, log, later, empty, prefixes);
    AllCommittedIsUnique(log, prefixes, ScanAll(digest, disk, s, prefixes).value.rows,
      ScanAll(digest, later, empty, prefixes).value.rows);
  }

  // ---- any interleaving ----

  /** One of the two streams: its log, the commits of the catalogs, and its table with its cursors. */
  datatype Side = Side(log: Log, prefixes: seq<Prefix>, rows: map<string, Entry>, cursors: map<string, Cursor>)

  /** The events and their payloads. */
  datatype World = World(events: Side, payloads: Side)

  ghost predicate Extends(a: Log, b: Log) {
    forall s :: s in a ==> s in b && a[s] <= b[s]
  }

  /** No segment leaves the catalogs and no commit goes back. */
  ghost predicate CommitsAdvance(a: seq<Prefix>, b: seq<Prefix>) {
    forall i :: 0 <= i < |a| ==> IsReached(b, a[i])
  }

  ghost predicate IsReached(b: seq<Prefix>, p: Prefix) {
    exists j :: 0 <= j < |b| && b[j].segment == p.segment && p.offset <= b[j].offset
  }

  /** Writers append to segments and commit; the index is not touched. */
  ghost predicate Grows(digest: Digest<Item>, a: Side, b: Side) {
    && b == a.(log := b.log, prefixes := b.prefixes) && Extends(a.log, b.log) && IsLog(digest, b.log)
    && AreCommits(b.log, b.prefixes) && CommitsAdvance(a.prefixes, b.prefixes)
  }

  ghost function EventLoop(digest: Digest<Item>, disk: Disk, w: World): Option<Scan> {
    ScanAll(digest, disk, Scan(w.events.rows, w.events.cursors, 0, 0, [], {}, {}), w.events.prefixes)
  }

  /** The payload loop starts with the failures and blocked processes of the event loop. */
  ghost function PayloadLoop(digest: Digest<Item>, disk: Disk, w: World, after: Scan): Option<Scan> {
    ScanAll(digest, disk, after.(rows := w.payloads.rows, cursors := w.payloads.cursors), w.payloads.prefixes)
  }

  /** What both loops leave, unless one of them raises. */
  ghost function Loops(digest: Digest<Item>, disk: Disk, w: World): Option<(Scan, Scan)> {
    match EventLoop(digest, disk, w)
    case None => None
    case Some(e) =>
      match PayloadLoop(digest, disk, w, e)
      case None => None
      case Some(p) => Some((e, p))
  }

  function After(w: World, e: Scan, p: Scan): World {
    World(w.events.(rows := e.rows, cursors := e.cursors), w.payloads.(rows := p.rows, cursors := p.cursors))
  }

  /** An update keeps what both loops leave, or is undone as a whole. */
  ghost predicate Updates(digest: Digest<Item>, disk: Disk, a: World, b: World) {
    match Loops(digest, disk, a)
    case None => b == a
    case Some((e, p)) => b == After(a, e, p)
  }

  ghost predicate Next(digest: Digest<Item>, a: World, b: World) {
    || (Grows(digest, a.events, b.events) && Grows(digest, a.payloads, b.payloads))
    || exists disk :: Updates(digest, disk, a, b)
  }

  ghost predicate GoodSide(digest: Digest<Item>, s: Side) {
    && IsLog(digest, s.log) && AreCommits(s.log, s.prefixes)
    && Mirrors(s.log, s.rows, s.cursors) && Covers(s.prefixes, s.cursors)
  }

  ghost predicate Good(digest: Digest<Item>, w: World) {
    GoodSide(digest, w.events) && GoodSide(digest, w.payloads)
  }

  lemma NothingNewIsBehind(digest: Digest<Item>, a: Log, b: Log, rows: map<string, Entry>, cursors: map<string, Cursor>,
    s: string, k: int)
    requires Mirrors(a, rows, cursors) && Extends(a, b) && IsLog(digest, b) && Behind(b, cursors, s, k)
    ensures Behind(a, cursors, s, k)
  {
    var j :| EndsAt(a, s, j, cursors[s].offset, cursors[s].hash);
    EndsAreOrdered(b, s, k, j);
  }

  lemma NothingIsLost(a: Log, b: Log, rows: map<string, Entry>, cursors: map<string, Cursor>, id: string)
    requires Mirrors(a, rows, cursors) && Extends(a, b) && id in rows
    ensures exists s, k :: Behind(b, cursors, s, k) && IdAt(b, s, k) == id
  {
    var s, k :| Behind(a, cursors, s, k) && IdAt(a, s, k) == id;
    assert Behind(b, cursors, s, k) && IdAt(b, s, k) == id;
  }

  lemma GrowthKeepsMirror(digest: Digest<Item>, a: Log, b: Log, rows: map<string, Entry>, cursors: map<string, Cursor>)
    requires Mirrors(a, rows, cursors) && Extends(a, b) && IsLog(digest, b)
    ensures Mirrors(b, rows, cursors)
  {
    forall s, k | Behind(b, cursors, s, k) ensures HasRow(b, rows, s, k) {
      NothingNewIsBehind(digest, a, b, rows, cursors, s, k);
      assert HasRow(a, rows, s, k);
    }
    forall id | id in rows ensures exists s, k :: Behind(b, cursors, s, k) && IdAt(b, s, k) == id {
      NothingIsLost(a, b, rows, cursors, id);
    }
    forall s | s in cursors ensures exists k :: EndsAt(b, s, k, cursors[s].offset, cursors[s].hash) {
      var k :| EndsAt(a, s, k, cursors[s].offset, cursors[s].hash);
      assert EndsAt(b, s, k, cursors[s].offset, cursors[s].hash);
    }
  }

  lemma AdvanceKeepsCover(log: Log, a: seq<Prefix>, b: seq<Prefix>, cursors: map<string, Cursor>)
    requires Covers(a, cursors) && CommitsAdvance(a, b) && AreCommits(log, b)
    ensures Covers(b, cursors)
  {
    forall s | s in cursors
      ensures exists j :: 0 <= j < |b| && b[j].segment == s && cursors[s].offset <= b[j].offset
    {
      var i :| 0 <= i < |a| && a[i].segment == s;
    }
    forall j | 0 <= j < |b| ensures CursorOf(cursors, b[j].segment).offset <= b[j].offset {
      CommitIsNotNegative(log, b[j]);
    }
  }

  lemma CommitIsNotNegative(log: Log, p: Prefix)
    requires IsCommit(log, p)
    ensures p.offset >= 0
  {
  }

  lemma GrowthKeepsGood(digest: Digest<Item>, a: Side, b: Side)
    requires GoodSide(digest, a) && Grows(digest, a, b)
    ensures GoodSide(digest, b)
  {
    GrowthKeepsMirror(digest, a.log, b.log, a.rows, a.cursors);
    AdvanceKeepsCover(b.log, a.prefixes, b.prefixes, a.cursors);
  }

  /** After a round the cursors of unblocked segments are at the commits, the others where they were. */
  lemma {:induction false} ScanKeepsCover(digest: Digest<Item>, log: Log, disk: Disk, s: Scan, prefixes: seq<Prefix>,
    i: nat)
    requires AreCommits(log, prefixes) && ScanAll(digest, disk, s, prefixes).Some? && i < |prefixes|
    requires CursorOf(s.cursors, prefixes[i].segment).offset <= prefixes[i].offset
    ensures CursorOf(ScanAll(digest, disk, s, prefixes).value.cursors, prefixes[i].segment).offset <= prefixes[i].offset
  {
    var n := |prefixes| - 1;
    if i < n {
      ScanKeepsCover(digest, log, disk, s, prefixes[..n], i);
      assert prefixes[i].segment != prefixes[n].segment;
    } else {
      OtherCursorsStay(digest, disk, s, prefixes[..n], prefixes[n].segment);
    }
  }

  /** A loop over a good side does not raise and keeps it good, whatever its process failed before. */
  lemma LoopKeepsGood(digest: Digest<Item>, disk: Disk, s: Scan, side: Side)
    requires Injective(digest) && GoodSide(digest, side) && s.rows == side.rows && s.cursors == side.cursors
    ensures ScanAll(digest, disk, s, side.prefixes).Some?
    ensures var t := ScanAll(digest, disk, s, side.prefixes).value;
            GoodSide(digest, side.(rows := t.rows, cursors := t.cursors))
  {
    ScanNeverRaises(digest, side.log, disk, s, side.prefixes);
    ScanKeepsMirror(digest, side.log, disk, s, side.prefixes);
    CursorsAreNamed(digest, disk, s, side.prefixes);
    forall i | 0 <= i < |side.prefixes|
      ensures CursorOf(ScanAll(digest, disk, s, side.prefixes).value.cursors, side.prefixes[i].segment).offset
              <= side.prefixes[i].offset
    {
      ScanKeepsCover(digest, side.log, disk, s, side.prefixes, i);
    }
  }

  lemma UpdateKeepsGood(digest: Digest<Item>, disk: Disk, w: World)
    requires Injective(digest) && Good(digest, w)
    ensures Loops(digest, disk, w).Some?
    ensures var (e, p) := Loops(digest, disk, w).value; Good(digest, After(w, e, p))
  {
    LoopKeepsGood(digest, disk, Scan(w.events.rows, w.events.cursors, 0, 0, [], {}, {}), w.events);
    var e := EventLoop(digest, disk, w).value;
    LoopKeepsGood(digest, disk, e.(rows := w.payloads.rows, cursors := w.payloads.cursors), w.payloads);
  }

  ghost predicate IsRun(digest: Digest<Item>, run: seq<World>) {
    && run != [] && run[0] == World(Side(map[], [], map[], map[]), Side(map[], [], map[], map[]))
    && forall i :: 0 <= i < |run| - 1 ==> Next(digest, run[i], run[i + 1])
  }

  /** Every world of every run is good, so no update of a run raises. */
  lemma {:induction false} RunsStayGood(digest: Digest<Item>, run: seq<World>, n: nat)
    requires Injective(digest) && IsRun(digest, run) && n < |run|
    ensures Good(digest, run[n])
  {
    if n > 0 {
      RunsStayGood(digest, run, n - 1);
      assert Next(digest, run[n - 1], run[n - 1 + 1]);
      NextKeepsGood(digest, run[n - 1], run[n]);
    }
  }

  lemma NextKeepsGood(digest: Digest<Item>, a: World, b: World)
    requires Injective(digest) && Good(digest, a) && Next(digest, a, b)
    ensures Good(digest, b)
  {
    if exists disk :: Updates(digest, disk, a, b) {
      var disk :| Updates(digest, disk, a, b);
      UpdateKeepsGood(digest, disk, a);
    } else {
      GrowthKeepsGood(digest, a.events, b.events);
      GrowthKeepsGood(digest, a.payloads, b.payloads);
    }
  }

  /** Both tables hold exactly what is committed of their stream. */
  ghost predicate AgreesWithLog(w: World) {
    && HoldsAllCommitted(w.events.log, w.events.prefixes, w.events.rows)
    && HoldsAllCommitted(w.payloads.log, w.payloads.prefixes, w.payloads.rows)
  }

  /** Without a failure nothing was blocked in either loop, so both tables hold all that is committed. */
  lemma CleanUpdateAgrees(digest: Digest<Item>, disk: Disk, w: World)
    requires Injective(digest) && Good(digest, w)
    requires Loops(digest, disk, w).Some? && Loops(digest, disk, w).value.1.failures == []
    ensures var (e, p) := Loops(digest, disk, w).value;
            AgreesWithLog(After(w, e, p)) && IsCurrent(e.cursors, w.events.prefixes)
              && IsCurrent(p.cursors, w.payloads.prefixes)
  {
    var (e, p) := Loops(digest, disk, w).value;
    var first, second := Scan(w.events.rows, w.events.cursors, 0, 0, [], {}, {}),
    e.(rows := w.payloads.rows, cursors := w.payloads.cursors);
    OnlyFailuresBlock(digest, disk, first, w.events.prefixes);
    OnlyFailuresBlock(digest, disk, second, w.payloads.prefixes);
    CleanUpdateHoldsAll(digest, w.events.log, disk, first, w.events.prefixes);
    CleanUpdateReachesCommits(digest, w.events.log, disk, first, w.events.prefixes);
    CleanUpdateHoldsAll(digest, w.payloads.log, disk, second, w.payloads.prefixes);
    CleanUpdateReachesCommits(digest, w.payloads.log, disk, second, w.payloads.prefixes);
  }

  /**
   * In any run, an update never raises; when it reports no failure both tables are what a rebuild
   * would give, and a second update straight after it changes nothing.
   */
  lemma UpdatesAgreeWithTheLog(digest: Digest<Item>, run: seq<World>, disk: Disk, again: Disk)
    requires Injective(digest) && IsRun(digest, run)
    ensures Loops(digest, disk, run[|run| - 1]).Some?
    ensures var w := run[|run| - 1];
            var (e, p) := Loops(digest, disk, w).value;
            p.failures == [] ==>
              && AgreesWithLog(After(w, e, p))
              && Updates(digest, again, After(w, e, p), After(w, e, p))
  {
    RunsStayGood(digest, run, |run| - 1);
    var w := run[|run| - 1];
    UpdateKeepsGood(digest, disk, w);
    var (e, p) := Loops(digest, disk, w).value;
    if p.failures == [] {
      CleanUpdateAgrees(digest, disk, w);
      CurrentIsIdle(digest, again, After(w, e, p));
    }
  }

  lemma CurrentIsIdle(digest: Digest<Item>, disk: Disk, w: World)
    requires IsCurrent(w.events.cursors, w.events.prefixes) && IsCurrent(w.payloads.cursors, w.payloads.prefixes)
    ensures Updates(digest, disk, w, w)
  {
    var first := Scan(w.events.rows, w.events.cursors, 0, 0, [], {}, {});
    NothingNewChangesNothing(digest, disk, first, w.events.prefixes);
    NothingNewChangesNothing(digest, disk, first.(rows := w.payloads.rows, cursors := w.payloads.cursors),
      w.payloads.prefixes);
  }

  /** The index object is the world's. */
  ghost predicate Shows(index: AuditIndex, w: World)
    reads index
  {
    && index.events == w.events.rows && index.eventCursors == w.events.cursors
    && index.payloads == w.payloads.rows && index.payloadCursors == w.payloads.cursors
  }

  /** `update` is the update step of a run, and complete coverage means that both tables agree with the log. */
  method UpdateIndex(index: AuditIndex, digest: Digest<Item>, disk: Disk, events: seq<Prefix>, payloads: seq<Prefix>,
    ghost w: World) returns (report: Report, ghost after: World)
    requires Injective(digest) && Good(digest, w) && Shows(index, w)
    requires events == w.events.prefixes && payloads == w.payloads.prefixes
    modifies index
    ensures report.Updated? && Updates(digest, disk, w, after) && Good(digest, after) && Shows(index, after)
    ensures index.complete ==> report.complete && AgreesWithLog(after)
  {
    UpdateKeepsGood(digest, disk, w);
    var (e, p) := Loops(digest, disk, w).value;
    if p.failures == [] {
      CleanUpdateAgrees(digest, disk, w);
    }
    after := After(w, e, p);
    report := index.Update(digest, disk, events, payloads);
  }
}
