/** The disposable index: an update reads only what was committed since the last one. */
module Index {
  import opened Integrity
  import opened Wrappers

  /** An event or payload; `rest` stands for every column but its id. */
  datatype Item = Item(id: string, rest: string)

  type Entry = Record<Item>

  /** What a process catalog says of a segment: how far it is committed, and the hash it ends in there. */
  datatype Prefix = Prefix(process: string, segment: string, offset: int, hash: string)

  datatype Cursor = Cursor(offset: int, hash: Option<string>)

  datatype Error = Unread(name: string) | ValueError

  datatype Failure = Failure(process: string, segment: string, error: Error)

  /** Reading and parsing a committed prefix: it may raise, and it may give anything. */
  datatype Content = Raises(name: string) | Parsed(entries: seq<Entry>)

  type Disk = Prefix -> Content

  /** The state of one of the two loops of `update`. */
  datatype Scan = Scan(rows: map<string, Entry>, cursors: map<string, Cursor>, inserted: nat, segments: nat,
    failures: seq<Failure>, blocked: set<string>, changed: set<string>)

  function CursorOf(cursors: map<string, Cursor>, segment: string): Cursor {
    if segment in cursors then cursors[segment] else Cursor(0, None)
  }

  predicate Moved(s: Scan, p: Prefix) {
    p.process !in s.blocked && CursorOf(s.cursors, p.segment).offset > p.offset
  }

  /** The index has taken in the segment up to this very commit. */
  predicate Reached(cursors: map<string, Cursor>, p: Prefix) {
    CursorOf(cursors, p.segment) == Cursor(p.offset, Some(p.hash))
  }

  predicate IsCurrent(cursors: map<string, Cursor>, prefixes: seq<Prefix>) {
    forall i :: 0 <= i < |prefixes| ==> Reached(cursors, prefixes[i])
  }

  /** `INSERT OR IGNORE` of some entries, in order. */
  function Inserted(rows: map<string, Entry>, entries: seq<Entry>): (grown: map<string, Entry>)
    ensures |grown| >= |rows|
  {
    if entries == [] then rows
    else
      var before, last := Inserted(rows, entries[..|entries| - 1]), entries[|entries| - 1];
      assert before[last.payload.body.id := last].Keys == before.Keys + {last.payload.body.id};
      if last.payload.body.id in before then before else before[last.payload.body.id := last]
  }

  /** Why a prefix is refused, if it is. */
  ghost function Refusal(digest: Digest<Item>, disk: Disk, p: Prefix): Option<Error> {
    match disk(p)
    case Raises(name) => Some(Unread(name))
    case Parsed(entries) =>
      if entries == [] || entries[|entries| - 1].hash != Some(p.hash) || !IsChain(digest, entries) then Some(ValueError)
      else None
  }

  /** One round of the loop, for a prefix that has not moved backwards. */
  ghost function Step(digest: Digest<Item>, disk: Disk, s: Scan, p: Prefix): Scan {
    if p.process in s.blocked || Reached(s.cursors, p) then s
    else
      match Refusal(digest, disk, p)
      case Some(error) =>
        s.(failures := s.failures + [Failure(p.process, p.segment, error)], blocked := s.blocked + {p.process})
      case None =>
        var rows := Inserted(s.rows, disk(p).entries);
        s.(rows := rows, cursors := s.cursors[p.segment := Cursor(p.offset, Some(p.hash))],
           inserted := s.inserted + |rows| - |s.rows|, segments := s.segments + 1,
           changed := s.changed + {p.process})
  }

  /** The loop over all prefixes; it raises at the first one that has moved backwards. */
  ghost function ScanAll(digest: Digest<Item>, disk: Disk, s: Scan, prefixes: seq<Prefix>): Option<Scan> {
    if prefixes == [] then Some(s)
    else
      match ScanAll(digest, disk, s, prefixes[..|prefixes| - 1])
      case None => None
      case Some(t) =>
        var p := prefixes[|prefixes| - 1];
        if Moved(t, p) then None else Some(Step(digest, disk, t, p))
  }

  // ---- what a round and a whole loop do, field by field ----

  /** Entry `i` is the first with this id. */
  ghost predicate IsFirst(entries: seq<Entry>, i: int, id: string) {
    && 0 <= i < |entries| && entries[i].payload.body.id == id
    && forall j :: 0 <= j < i ==> entries[j].payload.body.id != id
  }

  /** Rows are never overwritten; beside them there is a row for each new id, the first entry with it. */
  ghost predicate AreRows(rows: map<string, Entry>, entries: seq<Entry>, grown: map<string, Entry>) {
    && (forall id :: id in rows ==> id in grown && grown[id] == rows[id])
    && (forall i :: 0 <= i < |entries| ==> entries[i].payload.body.id in grown)
    && forall id :: id in grown && id !in rows ==> exists i :: IsFirst(entries, i, id) && grown[id] == entries[i]
  }

  lemma FirstStays(entries: seq<Entry>, last: Entry, i: int, id: string)
    requires IsFirst(entries, i, id)
    ensures IsFirst(entries + [last], i, id) && (entries + [last])[i] == entries[i]
  {
  }

  lemma NewIsFirst(entries: seq<Entry>, last: Entry, id: string)
    requires id == last.payload.body.id && forall i :: 0 <= i < |entries| ==> entries[i].payload.body.id != id
    ensures IsFirst(entries + [last], |entries|, id) && (entries + [last])[|entries|] == last
  {
  }

  lemma OneMoreRow(rows: map<string, Entry>, entries: seq<Entry>, grown: map<string, Entry>, last: Entry)
    requires AreRows(rows, entries, grown)
    ensures var id := last.payload.body.id;
            AreRows(rows, entries + [last], if id in grown then grown else grown[id := last])
  {
    var key, all := last.payload.body.id, entries + [last];
    var now := if key in grown then grown else grown[key := last];
    forall i | 0 <= i < |all| ensures all[i].payload.body.id in now {
      assert i < |entries| ==> all[i] == entries[i];
    }
    forall id | id in now && id !in rows ensures exists i :: IsFirst(all, i, id) && now[id] == all[i] {
      if id in grown {
        var i :| IsFirst(entries, i, id) && grown[id] == entries[i];
        FirstStays(entries, last, i, id);
      } else {
        NewIsFirst(entries, last, id);
      }
    }
  }

  lemma {:induction false} InsertedMeaning(rows: map<string, Entry>, entries: seq<Entry>)
    ensures AreRows(rows, entries, Inserted(rows, entries))
  {
    if entries != [] {
      var n := |entries| - 1;
      InsertedMeaning(rows, entries[..n]);
      OneMoreRow(rows, entries[..n], Inserted(rows, entries[..n]), entries[n]);
      assert entries == entries[..n] + [entries[n]];
    }
  }

  /** Numbered from one, each entry naming the hash of the one before it and carrying its own digest. */
  ghost predicate AreChained(digest: Digest<Item>, entries: seq<Entry>) {
    && (forall i :: 0 <= i < |entries| ==>
          entries[i].payload.sequence == Some(i + 1) && entries[i].hash == Some(digest(entries[i].payload)))
    && (entries != [] ==> entries[0].payload.previous == None)
    && forall i, j :: 0 <= i < j < |entries| && j == i + 1 ==> entries[j].payload.previous == entries[i].hash
  }

  lemma ChainedIsChain(digest: Digest<Item>, entries: seq<Entry>)
    requires AreChained(digest, entries)
    ensures IsChain(digest, entries)
  {
    forall i | 0 <= i < |entries| ensures Links(digest, entries, i) {
      var before := if i > 0 then entries[i - 1].hash else None;
      assert entries[i].payload.previous == before;
    }
  }

  lemma ChainIsChained(digest: Digest<Item>, entries: seq<Entry>)
    requires IsChain(digest, entries)
    ensures AreChained(digest, entries)
  {
    if entries != [] {
      assert Links(digest, entries, 0);
    }
    forall i | 0 <= i < |entries|
      ensures entries[i].payload.sequence == Some(i + 1) && entries[i].hash == Some(digest(entries[i].payload))
    {
      assert Links(digest, entries, i);
    }
    forall i, j | 0 <= i < j < |entries| && j == i + 1 ensures entries[j].payload.previous == entries[i].hash {
      assert Links(digest, entries, j);
    }
  }

  /** A prefix is sound: it reads as a chain that is not empty and ends in the hash committed. */
  ghost predicate IsSound(digest: Digest<Item>, disk: Disk, p: Prefix) {
    && disk(p).Parsed? && disk(p).entries != []
    && disk(p).entries[|disk(p).entries| - 1].hash == Some(p.hash) && AreChained(digest, disk(p).entries)
  }

  lemma SoundIsNotRefused(digest: Digest<Item>, disk: Disk, p: Prefix)
    ensures IsSound(digest, disk, p) <==> Refusal(digest, disk, p).None?
    ensures Refusal(digest, disk, p).Some? ==>
              Refusal(digest, disk, p).value == if disk(p).Raises? then Unread(disk(p).name) else ValueError
  {
    if disk(p).Parsed? {
      if IsChain(digest, disk(p).entries) {
        ChainIsChained(digest, disk(p).entries);
      } else if AreChained(digest, disk(p).entries) {
        ChainedIsChain(digest, disk(p).entries);
      }
    }
  }

  /** One round: skipped because its process is blocked or nothing is new, refused, or taken in. */
  ghost predicate IsRound(digest: Digest<Item>, disk: Disk, s: Scan, p: Prefix, t: Scan) {
    var known := p.segment in s.cursors && s.cursors[p.segment] == Cursor(p.offset, Some(p.hash));
    if p.process in s.blocked || known then t == s
    else if IsSound(digest, disk, p) then
      && AreRows(s.rows, disk(p).entries, t.rows) && t.inserted == s.inserted + |t.rows| - |s.rows|
      && t.cursors == s.cursors[p.segment := Cursor(p.offset, Some(p.hash))] && t.segments == s.segments + 1
      && t.changed == s.changed + {p.process} && t.failures == s.failures && t.blocked == s.blocked
    else
      && t.rows == s.rows && t.cursors == s.cursors && t.inserted == s.inserted && t.segments == s.segments
      && t.changed == s.changed && t.blocked == s.blocked + {p.process}
      && t.failures == s.failures + [Failure(p.process, p.segment,
                                             if disk(p).Raises? then Unread(disk(p).name) else ValueError)]
  }

  /** The prefix lies in front of what the index has taken in, and its process is not blocked. */
  predicate IsBehind(s: Scan, p: Prefix) {
    p.process !in s.blocked && (if p.segment in s.cursors then s.cursors[p.segment].offset else 0) > p.offset
  }

  /** The states the loop goes through before and after each of its rounds. */
  ghost predicate AreRounds(digest: Digest<Item>, disk: Disk, prefixes: seq<Prefix>, states: seq<Scan>) {
    && 0 < |states| <= |prefixes| + 1
    && forall i :: 0 <= i < |states| - 1 ==>
         !IsBehind(states[i], prefixes[i]) && IsRound(digest, disk, states[i], prefixes[i], states[i + 1])
  }

  lemma StepIsRound(digest: Digest<Item>, disk: Disk, s: Scan, p: Prefix)
    ensures IsRound(digest, disk, s, p, Step(digest, disk, s, p))
    ensures Moved(s, p) <==> IsBehind(s, p)
  {
    SoundIsNotRefused(digest, disk, p);
    if disk(p).Parsed? {
      InsertedMeaning(s.rows, disk(p).entries);
    }
  }

  lemma RoundsStay(digest: Digest<Item>, disk: Disk, prefixes: seq<Prefix>, n: nat, states: seq<Scan>)
    requires n <= |prefixes| && AreRounds(digest, disk, prefixes[..n], states)
    ensures AreRounds(digest, disk, prefixes, states)
  {
    assert forall i :: 0 <= i < n ==> prefixes[..n][i] == prefixes[i];
  }

  lemma OneMoreRound(digest: Digest<Item>, disk: Disk, prefixes: seq<Prefix>, states: seq<Scan>, next: Scan)
    requires AreRounds(digest, disk, prefixes, states) && |states| <= |prefixes|
    requires !IsBehind(states[|states| - 1], prefixes[|states| - 1])
    requires IsRound(digest, disk, states[|states| - 1], prefixes[|states| - 1], next)
    ensures AreRounds(digest, disk, prefixes, states + [next])
  {
    var grown := states + [next];
    forall i | 0 <= i < |grown| - 1
      ensures !IsBehind(grown[i], prefixes[i]) && IsRound(digest, disk, grown[i], prefixes[i], grown[i + 1])
    {
      assert grown[i] == states[i] && (i < |states| - 1 ==> grown[i + 1] == states[i + 1]);
    }
  }

  /** The loop goes through one round for each prefix, and raises exactly at the first that has moved back. */
  lemma {:induction false} ScanIsRounds(digest: Digest<Item>, disk: Disk, s: Scan, prefixes: seq<Prefix>)
    returns (states: seq<Scan>)
    ensures AreRounds(digest, disk, prefixes, states) && states[0] == s
    ensures match ScanAll(digest, disk, s, prefixes)
            case Some(t) => |states| == |prefixes| + 1 && states[|prefixes|] == t
            case None => |states| <= |prefixes| && IsBehind(states[|states| - 1], prefixes[|states| - 1])
  {
    if prefixes == [] {
      states := [s];
    } else {
      var n := |prefixes| - 1;
      states := ScanIsRounds(digest, disk, s, prefixes[..n]);
      RoundsStay(digest, disk, prefixes, n, states);
      match ScanAll(digest, disk, s, prefixes[..n])
      case None =>
      case Some(t) =>
        StepIsRound(digest, disk, t, prefixes[n]);
        if !Moved(t, prefixes[n]) {
          OneMoreRound(digest, disk, prefixes, states, Step(digest, disk, t, prefixes[n]));
          states := states + [Step(digest, disk, t, prefixes[n])];
        }
    }
  }

  /** Something changed exactly if a segment was taken in. */
  ghost predicate IsCounted(s: Scan, t: Scan) {
    && s.segments <= t.segments && s.changed <= t.changed && (s.segments < t.segments ==> t.changed != {})
    && (s.segments == t.segments ==>
          t.rows == s.rows && t.cursors == s.cursors && t.inserted == s.inserted && t.changed == s.changed)
  }

  lemma RoundCounts(digest: Digest<Item>, disk: Disk, s: Scan, p: Prefix, t: Scan)
    requires IsRound(digest, disk, s, p, t)
    ensures IsCounted(s, t)
  {
  }

  lemma {:induction false} ScanCounts(digest: Digest<Item>, disk: Disk, s: Scan, prefixes: seq<Prefix>)
    ensures ScanAll(digest, disk, s, prefixes).Some? ==> IsCounted(s, ScanAll(digest, disk, s, prefixes).value)
  {
    if prefixes != [] {
      ScanCounts(digest, disk, s, prefixes[..|prefixes| - 1]);
      match ScanAll(digest, disk, s, prefixes[..|prefixes| - 1])
      case None =>
      case Some(t) => StepCounts(digest, disk, t, prefixes[|prefixes| - 1]);
    }
  }

  lemma StepCounts(digest: Digest<Item>, disk: Disk, s: Scan, p: Prefix)
    ensures IsCounted(s, Step(digest, disk, s, p))
  {
    StepIsRound(digest, disk, s, p);
    RoundCounts(digest, disk, s, p, Step(digest, disk, s, p));
  }

  // ---- the code ----

  method InsertAll(rows: map<string, Entry>, entries: seq<Entry>) returns (grown: map<string, Entry>, inserted: nat)
    ensures grown == Inserted(rows, entries) && inserted == |grown| - |rows|
  {
    grown, inserted := rows, 0;
    for i := 0 to |entries|
      invariant grown == Inserted(rows, entries[..i]) && inserted == |grown| - |rows|
    {
      assert entries[..i + 1][..i] == entries[..i];
      var id := entries[i].payload.body.id;
      if id !in grown {
        assert grown[id := entries[i]].Keys == grown.Keys + {id};
        assert |grown[id := entries[i]]| == |grown| + 1;
        grown := grown[id := entries[i]];
        inserted := inserted + 1;
      }
    }
    assert entries[..|entries|] == entries;
  }

  method Check(digest: Digest<Item>, disk: Disk, p: Prefix) returns (refusal: Option<Error>)
    ensures refusal == Refusal(digest, disk, p)
  {
    var content := disk(p);
    if content.Raises? {
      return Some(Unread(content.name));
    }
    var entries := content.entries;
    if entries == [] || entries[|entries| - 1].hash != Some(p.hash) {
      return Some(ValueError);
    }
    var chain := VerifyChain(digest, entries);
    refusal := if chain.Accepted? then None else Some(ValueError);
  }

  lemma ScanGoesOn(digest: Digest<Item>, disk: Disk, start: Scan, prefixes: seq<Prefix>, i: nat, s: Scan)
    requires i < |prefixes| && ScanAll(digest, disk, start, prefixes[..i]) == Some(s)
    ensures ScanAll(digest, disk, start, prefixes[..i + 1])
            == if Moved(s, prefixes[i]) then None else Some(Step(digest, disk, s, prefixes[i]))
  {
    assert prefixes[..i + 1][..i] == prefixes[..i];
  }

  method ScanPrefixes(digest: Digest<Item>, disk: Disk, start: Scan, prefixes: seq<Prefix>) returns (r: Option<Scan>)
    ensures r == ScanAll(digest, disk, start, prefixes)
  {
    var rows, cursors, inserted, segments := start.rows, start.cursors, start.inserted, start.segments;
    var failures, blocked, changed := start.failures, start.blocked, start.changed;
    for i := 0 to |prefixes|
      invariant ScanAll(digest, disk, start, prefixes[..i])
                == Some(Scan(rows, cursors, inserted, segments, failures, blocked, changed))
    {
      ScanGoesOn(digest, disk, start, prefixes, i, Scan(rows, cursors, inserted, segments, failures, blocked, changed));
      ScanIsPrefixClosed(digest, disk, start, prefixes, i + 1);
      var p := prefixes[i];
      if p.process in blocked {
        continue;
      }
      var cursor := CursorOf(cursors, p.segment);
      if cursor.offset > p.offset {
        return None;
      }
      if cursor.offset == p.offset && cursor.hash == Some(p.hash) {
        continue;
      }
      var refusal := Check(digest, disk, p);
      if refusal.Some? {
        failures := failures + [Failure(p.process, p.segment, refusal.value)];
        blocked := blocked + {p.process};
        continue;
      }
      var more;
      rows, more := InsertAll(rows, disk(p).entries);
      inserted := inserted + more;
      cursors := cursors[p.segment := Cursor(p.offset, Some(p.hash))];
      segments := segments + 1;
      changed := changed + {p.process};
    }
    assert prefixes[..|prefixes|] == prefixes;
    r := Some(Scan(rows, cursors, inserted, segments, failures, blocked, changed));
  }

  lemma {:induction false} ScanIsPrefixClosed(digest: Digest<Item>, disk: Disk, s: Scan, prefixes: seq<Prefix>, n: nat)
    requires n <= |prefixes|
    ensures ScanAll(digest, disk, s, prefixes[..n]).None? ==> ScanAll(digest, disk, s, prefixes).None?
  {
    if n == |prefixes| {
      assert prefixes[..n] == prefixes;
    } else {
      assert prefixes[..|prefixes| - 1][..n] == prefixes[..n];
      ScanIsPrefixClosed(digest, disk, s, prefixes[..|prefixes| - 1], n);
    }
  }

  /** With nothing new committed the loop changes nothing: no row, no cursor, no count. */
  lemma {:induction false} NothingNewChangesNothing(digest: Digest<Item>, disk: Disk, s: Scan, prefixes: seq<Prefix>)
    requires IsCurrent(s.cursors, prefixes)
    ensures ScanAll(digest, disk, s, prefixes) == Some(s)
  {
    if prefixes != [] {
      NothingNewChangesNothing(digest, disk, s, prefixes[..|prefixes| - 1]);
    }
  }

  datatype Report = Updated(inserted: nat, segments: nat, complete: bool, failures: seq<Failure>) | RebuildRequired

  class AuditIndex {
    var events: map<string, Entry>
    var payloads: map<string, Entry>
    var eventCursors: map<string, Cursor>
    var payloadCursors: map<string, Cursor>
    var revision: nat
    var complete: bool
    var failures: seq<Failure>
    /** The first failure of the last update, and the revision each process was last verified at. */
    var lastError: Option<Failure>
    var verifiedAt: map<string, nat>

    constructor ()
      ensures events == map[] && payloads == map[] && eventCursors == map[] && payloadCursors == map[]
      ensures revision == 0 && !complete && failures == [] && lastError == None && verifiedAt == map[]
    {
      events, payloads, eventCursors, payloadCursors := map[], map[], map[], map[];
      revision, complete, failures, lastError, verifiedAt := 0, false, [], None, map[];
    }

    ghost function EventScan(digest: Digest<Item>, disk: Disk, prefixes: seq<Prefix>): Option<Scan>
      reads this
    {
      ScanAll(digest, disk, Scan(events, eventCursors, 0, 0, [], {}, {}), prefixes)
    }

    /** The payload loop goes on with the counters, failures and blocked processes of the event loop. */
    ghost function PayloadScan(digest: Digest<Item>, disk: Disk, after: Scan, prefixes: seq<Prefix>): Option<Scan>
      reads this
    {
      ScanAll(digest, disk, after.(rows := payloads, cursors := payloadCursors), prefixes)
    }

    /**
     * `update`: one transaction over both loops, undone as a whole when a prefix has moved backwards. The
     * revision moves by one exactly if a segment was taken in, or the coverage or the failures changed.
     */
    method Update(digest: Digest<Item>, disk: Disk, eventPrefixes: seq<Prefix>, payloadPrefixes: seq<Prefix>)
      returns (report: Report)
      modifies this
      ensures report.RebuildRequired? <==>
                || old(EventScan(digest, disk, eventPrefixes)).None?
                || old(PayloadScan(digest, disk, EventScan(digest, disk, eventPrefixes).value, payloadPrefixes)).None?
      ensures report.RebuildRequired? ==>
                && events == old(events) && payloads == old(payloads) && eventCursors == old(eventCursors)
                && payloadCursors == old(payloadCursors) && revision == old(revision) && complete == old(complete)
                && failures == old(failures) && lastError == old(lastError) && verifiedAt == old(verifiedAt)
      ensures report.Updated? ==>
                && var e := old(EventScan(digest, disk, eventPrefixes)).value;
                   var p := old(PayloadScan(digest, disk, e, payloadPrefixes)).value;
                   && events == e.rows && eventCursors == e.cursors && payloads == p.rows && payloadCursors == p.cursors
                   && report == Updated(e.inserted, p.segments, p.failures == [], p.failures)
                   && failures == p.failures && complete == (p.failures == [])
                   && lastError == (if p.failures == [] then None else Some(p.failures[0]))
                   && (forall x :: x in verifiedAt <==> x in old(verifiedAt) || x in p.changed)
                   && (forall x :: x in verifiedAt ==>
                         verifiedAt[x] == if x in p.changed then revision else old(verifiedAt)[x])
      ensures report.Updated? ==>
                && old(revision) <= revision <= old(revision) + 1
                && (revision > old(revision) <==>
                      report.segments > 0 || complete != old(complete) || failures != old(failures))
                && complete == report.complete == (failures == []) && failures == report.failures
      ensures report.Updated? && report.segments == 0 ==>
                && report.inserted == 0 && events == old(events) && payloads == old(payloads)
                && eventCursors == old(eventCursors) && payloadCursors == old(payloadCursors)
                && verifiedAt == old(verifiedAt)
      ensures old(IsCurrent(eventCursors, eventPrefixes) && IsCurrent(payloadCursors, payloadPrefixes)
                  && complete && failures == []) ==>
                && report == Updated(0, 0, true, []) && revision == old(revision)
                && events == old(events) && payloads == old(payloads)
                && eventCursors == old(eventCursors) && payloadCursors == old(payloadCursors)
    {
      if IsCurrent(eventCursors, eventPrefixes) && IsCurrent(payloadCursors, payloadPrefixes) {
        NothingNewChangesNothing(digest, disk, Scan(events, eventCursors, 0, 0, [], {}, {}), eventPrefixes);
        NothingNewChangesNothing(digest, disk, Scan(payloads, payloadCursors, 0, 0, [], {}, {}), payloadPrefixes);
      }
      var first := ScanPrefixes(digest, disk, Scan(events, eventCursors, 0, 0, [], {}, {}), eventPrefixes);
      if first.None? {
        return RebuildRequired;
      }
      var e := first.value;
      var second := ScanPrefixes(digest, disk, e.(rows := payloads, cursors := payloadCursors), payloadPrefixes);
      if second.None? {
        return RebuildRequired;
      }
      ScanCounts(digest, disk, Scan(events, eventCursors, 0, 0, [], {}, {}), eventPrefixes);
      ScanCounts(digest, disk, e.(rows := payloads, cursors := payloadCursors), payloadPrefixes);
      report := Keep(e, second.value);
    }

    /** The revision moves if there is news, and the changed processes are verified at it. */
    method Verify(news: bool, changed: set<string>)
      modifies this`revision, this`verifiedAt
      ensures revision == old(revision) + if news then 1 else 0
      ensures forall x :: x in verifiedAt <==> x in old(verifiedAt) || x in changed
      ensures forall x :: x in verifiedAt ==> verifiedAt[x] == if x in changed then revision else old(verifiedAt)[x]
    {
      if news {
        revision := revision + 1;
      }
      verifiedAt := VerifiedAfter(verifiedAt, changed, revision);
    }

    /** What the transaction writes once both loops have come to their end. */
    method Keep(e: Scan, p: Scan) returns (report: Report)
      modifies this
      ensures events == e.rows && eventCursors == e.cursors && payloads == p.rows && payloadCursors == p.cursors
      ensures report == Updated(e.inserted, p.segments, p.failures == [], p.failures)
      ensures failures == p.failures && complete == (p.failures == [])
      ensures lastError == if p.failures == [] then None else Some(p.failures[0])
      ensures revision == old(revision) +
                          if p.changed != {} || complete != old(complete) || failures != old(failures) then 1 else 0
      ensures forall x :: x in verifiedAt <==> x in old(verifiedAt) || x in p.changed
      ensures forall x :: x in verifiedAt ==> verifiedAt[x] == if x in p.changed then revision else old(verifiedAt)[x]
    {
      Verify(IsNews(p, complete, failures), p.changed);
      events, eventCursors, payloads, payloadCursors := e.rows, e.cursors, p.rows, p.cursors;
      failures, complete := p.failures, p.failures == [];
      lastError := if failures == [] then None else Some(failures[0]);
      report := Updated(e.inserted, p.segments, complete, failures);
    }
  }

  /** Some process changed, or the coverage or the list of failures did. */
  predicate IsNews(p: Scan, complete: bool, failures: seq<Failure>) {
    p.changed != {} || complete != (p.failures == []) || failures != p.failures
  }

  /** The processes whose evidence changed are verified again, the others keep their revision. */
  function VerifiedAfter(verifiedAt: map<string, nat>, changed: set<string>, revision: nat): (now: map<string, nat>)
    ensures forall x :: x in now <==> x in verifiedAt || x in changed
    ensures forall x :: x in now ==> now[x] == if x in changed then revision else verifiedAt[x]
  {
    verifiedAt + map x | x in changed :: revision
  }
}
