/**
 * Reading a process catalog back: every line of every file is sorted by the hash it names as its
 * predecessor, and the records are then followed from the unique `process_started` root.
 */
module Reader {
  import opened Integrity
  import opened Wrappers

  datatype EpochCommit = EpochCommit(epoch: int, eventSegment: string, eventOffset: int, eventHash: string,
    eventCount: int, payloadSegment: Option<string>, payloadOffset: int, payloadHash: Option<string>, payloadCount: int)

  datatype Kind =
    | ProcessStarted
    | SegmentRegistered(stream: string, segment: string, path: string, previousSegment: Option<string>,
        previousHash: Option<string>, previousCount: Option<int>)
    | SegmentClosed(stream: string, segment: string, finalOffset: int, finalHash: string, recordCount: int, size: int)
    | SegmentAbandoned(stream: string, segment: string, lastOffset: int, lastHash: Option<string>, reason: string)
    | EpochCommitted(commit: EpochCommit)
    | ProcessClosed(lastEpoch: int, reason: string, eventHead: Option<string>, payloadHead: Option<string>)

  /** The fields of a catalog record that are neither chain fields nor timestamps. */
  datatype Body = Body(kind: Kind, id: string, segment: string)

  datatype CatalogRecord = CatalogRecord(payload: Payload<Body>, hash: string)

  /** A line of a catalog file: a record, something that does not parse as one, or bytes that are no text. */
  datatype Line = Unreadable | Undecodable | Readable(record: CatalogRecord)

  datatype Diagnostic = InvalidCatalogRecord | CatalogHashMismatch | CatalogRootInvalid | CatalogFork | UnlinkedRecords

  function Filter<T>(p: T -> bool, s: seq<T>): (r: seq<T>)
    ensures forall x :: x in r ==> p(x) && x in s
  {
    if s == [] then []
    else if p(s[|s| - 1]) then Filter(p, s[..|s| - 1]) + [s[|s| - 1]]
    else Filter(p, s[..|s| - 1])
  }

  predicate Sound(digest: Digest<Body>, line: Line) {
    line.Readable? && line.record.hash == digest(line.record.payload)
  }

  /** The records whose own digest is right, in the order they are met. */
  function Trusted(digest: Digest<Body>, lines: seq<Line>): seq<CatalogRecord> {
    if lines == [] then []
    else
      var rest, last := Trusted(digest, lines[..|lines| - 1]), lines[|lines| - 1];
      if Sound(digest, last) then rest + [last.record] else rest
  }

  /** One diagnostic for every line that is not trusted. */
  function LineProblems(digest: Digest<Body>, lines: seq<Line>): seq<Diagnostic> {
    if lines == [] then []
    else
      var rest, last := LineProblems(digest, lines[..|lines| - 1]), lines[|lines| - 1];
      if Sound(digest, last) then rest
      else rest + [if last.Readable? then CatalogHashMismatch else InvalidCatalogRecord]
  }

  function Follows(h: Option<string>): CatalogRecord -> bool {
    (r: CatalogRecord) => r.payload.previous == h
  }

  function StartsProcess(): CatalogRecord -> bool {
    (r: CatalogRecord) => r.payload.body.kind.ProcessStarted?
  }

  function HashNotIn(seen: set<string>): CatalogRecord -> bool {
    (r: CatalogRecord) => r.hash !in seen
  }

  function Hashes(records: seq<CatalogRecord>): set<string> {
    set r | r in records :: r.hash
  }

  /** The records that could start the process. */
  function Roots(records: seq<CatalogRecord>): seq<CatalogRecord> {
    Filter(StartsProcess(), Filter(Follows(None), records))
  }

  /** The records that could come next after `walked`. */
  function Candidates(records: seq<CatalogRecord>, walked: seq<CatalogRecord>): seq<CatalogRecord>
    requires walked != []
  {
    Filter(HashNotIn(Hashes(walked)), Filter(Follows(Some(walked[|walked| - 1].hash)), records))
  }

  /** Each record of the walk was the only one that could stand where it stands. */
  ghost predicate IsWalk(records: seq<CatalogRecord>, walked: seq<CatalogRecord>) {
    && walked != [] && Roots(records) == [walked[0]]
    && forall i {:trigger walked[..i]} :: 1 <= i < |walked| ==> Candidates(records, walked[..i]) == [walked[i]]
  }

  /** The diagnostics about the catalog as a whole. */
  function ChainProblems(records: seq<CatalogRecord>, ordered: seq<CatalogRecord>): seq<Diagnostic> {
    if ordered == [] then [CatalogRootInvalid]
    else
      (if |Candidates(records, ordered)| > 1 then [CatalogFork] else [])
      + (if |Hashes(ordered)| != |Hashes(records)| then [UnlinkedRecords] else [])
  }

  /** What `_read_catalog` promises of its two results: they are a function of the lines it met. */
  ghost predicate ReadsAs(digest: Digest<Body>, lines: seq<Line>, ordered: seq<CatalogRecord>,
    diagnostics: seq<Diagnostic>)
  {
    var records := Trusted(digest, lines);
    && (ordered == [] <==> |Roots(records)| != 1)
    && (ordered != [] ==> IsWalk(records, ordered) && |Candidates(records, ordered)| != 1)
    && diagnostics == LineProblems(digest, lines) + ChainProblems(records, ordered)
  }

  /** A read raises, or it gives records and diagnostics. */
  datatype Read = Raised | Read(ordered: seq<CatalogRecord>, diagnostics: seq<Diagnostic>)

  /** What a read of these lines gives: it raises exactly if some line is no text. */
  ghost predicate IsRead(digest: Digest<Body>, lines: seq<Line>, read: Read) {
    match read
    case Raised => Undecodable in lines
    case Read(ordered, diagnostics) => Undecodable !in lines && ReadsAs(digest, lines, ordered, diagnostics)
  }

  // ---- the loops ----

  /** The dictionaries `_read_catalog` has filled after meeting `lines`. */
  ghost predicate Indexes(digest: Digest<Body>, lines: seq<Line>, byHash: map<string, CatalogRecord>,
    successors: map<Option<string>, seq<CatalogRecord>>)
  {
    && byHash.Keys == Hashes(Trusted(digest, lines))
    && forall h :: Lookup(successors, h) == Filter(Follows(h), Trusted(digest, lines))
  }

  function Lookup(successors: map<Option<string>, seq<CatalogRecord>>, h: Option<string>): seq<CatalogRecord> {
    if h in successors then successors[h] else []
  }

  lemma TrustedStep(digest: Digest<Body>, lines: seq<Line>, line: Line)
    ensures Trusted(digest, lines + [line]) ==
            Trusted(digest, lines) + (if Sound(digest, line) then [line.record] else [])
    ensures LineProblems(digest, lines + [line]) ==
            LineProblems(digest, lines)
            + (if Sound(digest, line) then []
              else [if line.Readable? then CatalogHashMismatch else InvalidCatalogRecord])
  {
    assert (lines + [line])[..|lines|] == lines;
  }

  lemma FilterStep<T>(p: T -> bool, s: seq<T>, x: T)
    ensures Filter(p, s + [x]) == Filter(p, s) + (if p(x) then [x] else [])
  {
    assert (s + [x])[..|s|] == s;
  }

  lemma IndexesStep(digest: Digest<Body>, lines: seq<Line>, r: CatalogRecord, byHash: map<string, CatalogRecord>,
    successors: map<Option<string>, seq<CatalogRecord>>)
    requires Indexes(digest, lines, byHash, successors) && Sound(digest, Readable(r))
    ensures Indexes(digest, lines + [Readable(r)], byHash[r.hash := r],
              successors[r.payload.previous := Lookup(successors, r.payload.previous) + [r]])
  {
    TrustedStep(digest, lines, Readable(r));
    var before := Trusted(digest, lines);
    var grown := successors[r.payload.previous := Lookup(successors, r.payload.previous) + [r]];
    forall h ensures Lookup(grown, h) == Filter(Follows(h), before + [r]) {
      FilterStep(Follows(h), before, r);
      assert Lookup(successors, h) == Filter(Follows(h), before);
    }
    HashesStep(before, r);
  }

  lemma HashesStep(records: seq<CatalogRecord>, r: CatalogRecord)
    ensures Hashes(records + [r]) == Hashes(records) + {r.hash}
  {
    forall h | h in Hashes(records) + {r.hash} ensures h in Hashes(records + [r]) {
      if h == r.hash {
        assert r in records + [r];
      } else {
        var x :| x in records && x.hash == h;
        assert x in records + [r];
      }
    }
  }

  method Collect(digest: Digest<Body>, files: seq<seq<Line>>)
    returns (byHash: map<string, CatalogRecord>, successors: map<Option<string>, seq<CatalogRecord>>,
             diagnostics: seq<Diagnostic>, raised: bool)
    ensures raised <==> Undecodable in Concat(files)
    ensures !raised ==> Indexes(digest, Concat(files), byHash, successors)
    ensures !raised ==> diagnostics == LineProblems(digest, Concat(files))
  {
    byHash, successors, diagnostics, raised := map[], map[], [], false;
    ghost var met: seq<Line> := [];
    for f := 0 to |files|
      invariant met == Concat(files[..f]) && Undecodable !in met
      invariant Indexes(digest, met, byHash, successors) && diagnostics == LineProblems(digest, met)
    {
      ghost var start := met;
      for k := 0 to |files[f]|
        invariant met == start + files[f][..k] && Undecodable !in met
        invariant Indexes(digest, met, byHash, successors) && diagnostics == LineProblems(digest, met)
      {
        var line := files[f][k];
        if line.Undecodable? {
          LineIsInFiles(files, f, k);
          return byHash, successors, diagnostics, true;
        }
        TrustedStep(digest, met, line);
        if line.Unreadable? {
          diagnostics := diagnostics + [InvalidCatalogRecord];
        } else if line.record.hash != digest(line.record.payload) {
          diagnostics := diagnostics + [CatalogHashMismatch];
        } else {
          var r := line.record;
          IndexesStep(digest, met, r, byHash, successors);
          byHash := byHash[r.hash := r];
          successors := successors[r.payload.previous := Lookup(successors, r.payload.previous) + [r]];
        }
        assert start + files[f][..k + 1] == met + [line];
        met := met + [line];
      }
      assert files[..f + 1][..f] == files[..f] && files[f][..|files[f]|] == files[f];
    }
    assert files[..|files|] == files;
  }

  lemma {:induction false} LineIsInFiles(files: seq<seq<Line>>, f: nat, k: nat)
    requires f < |files| && k < |files[f]|
    ensures files[f][k] in Concat(files)
  {
    if f < |files| - 1 {
      LineIsInFiles(files[..|files| - 1], f, k);
    }
  }

  /** `_read_catalog` on the files in whatever order they are visited. */
  method ReadCatalog(digest: Digest<Body>, files: seq<seq<Line>>) returns (read: Read)
    ensures IsRead(digest, Concat(files), read)
  {
    var byHash, successors, diagnostics, raised := Collect(digest, files);
    if raised {
      return Raised;
    }
    ghost var records := Trusted(digest, Concat(files));
    var roots := Filter(StartsProcess(), Lookup(successors, None));
    if |roots| != 1 {
      return Read([], diagnostics + [CatalogRootInvalid]);
    }
    var ordered, seen, forked := Walk(roots[0], successors, byHash.Keys, records);
    diagnostics := diagnostics + (if forked then [CatalogFork] else [])
                   + (if |seen| != |byHash.Keys| then [UnlinkedRecords] else []);
    read := Read(ordered, diagnostics);
  }

  /** Following unique successors from the root. */
  method Walk(root: CatalogRecord, successors: map<Option<string>, seq<CatalogRecord>>, ghost known: set<string>,
    ghost records: seq<CatalogRecord>) returns (ordered: seq<CatalogRecord>, seen: set<string>, forked: bool)
    requires Roots(records) == [root] && known == Hashes(records)
    requires forall h :: Lookup(successors, h) == Filter(Follows(h), records)
    ensures IsWalk(records, ordered) && seen == Hashes(ordered) && |Candidates(records, ordered)| != 1
    ensures forked <==> |Candidates(records, ordered)| > 1
  {
    assert root in Roots(records);
    ordered, seen, forked := [root], {root.hash}, false;
    while !forked
      invariant IsWalk(records, ordered) && seen == Hashes(ordered) && seen <= known
      invariant forked ==> |Candidates(records, ordered)| > 1
      decreases !forked, known - seen
    {
      var candidates := Filter(HashNotIn(seen), Lookup(successors, Some(ordered[|ordered| - 1].hash)));
      assert candidates == Candidates(records, ordered);
      if candidates == [] {
        break;
      }
      if |candidates| != 1 {
        forked := true;
      } else {
        WalkStep(records, ordered, candidates[0]);
        ordered := ordered + [candidates[0]];
        seen := seen + {candidates[0].hash};
      }
    }
  }

  lemma WalkStep(records: seq<CatalogRecord>, walked: seq<CatalogRecord>, next: CatalogRecord)
    requires IsWalk(records, walked) && Candidates(records, walked) == [next]
    ensures IsWalk(records, walked + [next]) && Hashes(walked + [next]) == Hashes(walked) + {next.hash}
    ensures next.hash !in Hashes(walked) && next.hash in Hashes(records)
  {
    HashesStep(walked, next);
    assert next in Candidates(records, walked);
    forall i | 1 <= i <= |walked| ensures Candidates(records, (walked + [next])[..i]) == [(walked + [next])[i]] {
      assert (walked + [next])[..i] == walked[..i];
      assert i == |walked| ==> walked[..i] == walked;
    }
  }
}
