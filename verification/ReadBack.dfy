/** What a catalog read returns: on arbitrary contents, and on what a catalog writer left behind. */
module ReadBack {
  import opened Integrity
  import opened Reader
  import opened Wrappers

  // ---- arbitrary contents ----

  /**
   * Whatever the directory holds, a read that returns records returns a chain: it starts at the
   * only root, each record names its predecessor's hash, no hash occurs twice, and every record
   * stands in some file under its right digest.
   */
  lemma WalkIsRepeatFreeChain(digest: Digest<Body>, lines: seq<Line>, ordered: seq<CatalogRecord>,
    diagnostics: seq<Diagnostic>)
    requires ReadsAs(digest, lines, ordered, diagnostics) && ordered != []
    ensures ordered[0].payload.previous.None? && ordered[0].payload.body.kind.ProcessStarted?
    ensures forall r ::
              r in Trusted(digest, lines) && r.payload.previous.None? && r.payload.body.kind.ProcessStarted? ==>
                r == ordered[0]
    ensures forall i :: 1 <= i < |ordered| ==> ordered[i].payload.previous == Some(ordered[i - 1].hash)
    ensures forall i, j :: 0 <= i < j < |ordered| ==> ordered[i].hash != ordered[j].hash
    ensures forall r :: r in ordered ==> Readable(r) in lines && r.hash == digest(r.payload)
  {
    var records := Trusted(digest, lines);
    assert ordered[0] in Roots(records);
    RootIsUnique(records, ordered[0]);
    WalkNamesPredecessors(records, ordered);
    TrustedAreSound(digest, lines);
  }

  lemma WalkNamesPredecessors(records: seq<CatalogRecord>, ordered: seq<CatalogRecord>)
    requires IsWalk(records, ordered)
    ensures forall i :: 1 <= i < |ordered| ==> ordered[i].payload.previous == Some(ordered[i - 1].hash)
    ensures forall i, j :: 0 <= i < j < |ordered| ==> ordered[i].hash != ordered[j].hash
    ensures forall i :: 0 <= i < |ordered| ==> ordered[i] in records
  {
    assert ordered[0] in Roots(records);
    forall i | 1 <= i < |ordered|
      ensures ordered[i].payload.previous == Some(ordered[i - 1].hash) && ordered[i] in records
    {
      StepOfWalk(records, ordered, i);
    }
    forall i, j | 0 <= i < j < |ordered| ensures ordered[i].hash != ordered[j].hash {
      StepOfWalk(records, ordered, j);
      assert ordered[i] in ordered[..j];
    }
  }

  lemma StepOfWalk(records: seq<CatalogRecord>, ordered: seq<CatalogRecord>, i: nat)
    requires IsWalk(records, ordered) && 1 <= i < |ordered|
    ensures ordered[i].payload.previous == Some(ordered[i - 1].hash) && ordered[i] in records
    ensures ordered[i].hash !in Hashes(ordered[..i])
  {
    assert ordered[i] in Candidates(records, ordered[..i]);
    assert ordered[..i][i - 1] == ordered[i - 1];
  }

  lemma RootIsUnique(records: seq<CatalogRecord>, root: CatalogRecord)
    requires Roots(records) == [root]
    ensures forall r :: r in records && r.payload.previous.None? && r.payload.body.kind.ProcessStarted? ==> r == root
  {
    forall r | r in records && r.payload.previous.None? && r.payload.body.kind.ProcessStarted? ensures r == root {
      FilterKeeps(Follows(None), records, r);
      FilterKeeps(StartsProcess(), Filter(Follows(None), records), r);
    }
  }

  lemma {:induction false} FilterKeeps<T>(p: T -> bool, s: seq<T>, x: T)
    requires x in s && p(x)
    ensures x in Filter(p, s)
  {
    if x != s[|s| - 1] {
      FilterKeeps(p, s[..|s| - 1], x);
    }
  }

  lemma {:induction false} TrustedAreSound(digest: Digest<Body>, lines: seq<Line>)
    ensures forall r :: r in Trusted(digest, lines) <==> Readable(r) in lines && r.hash == digest(r.payload)
  {
    if lines != [] {
      TrustedAreSound(digest, lines[..|lines| - 1]);
      assert lines == lines[..|lines| - 1] + [lines[|lines| - 1]];
    }
  }

  // ---- what counts as a root, a follower and a problem ----

  lemma {:induction false} FilterSelects<T>(p: T -> bool, s: seq<T>)
    ensures IsSelection(s, Filter(p, s), p)
  {
    if s != [] {
      FilterSelects(p, s[..|s| - 1]);
    }
  }

  /** Selecting from a selection is selecting by both. */
  lemma {:induction false} FilterTwice<T>(p: T -> bool, q: T -> bool, both: T -> bool, s: seq<T>)
    requires forall x :: x in s ==> (both(x) <==> p(x) && q(x))
    ensures Filter(q, Filter(p, s)) == Filter(both, s)
  {
    if s != [] {
      var front, last := s[..|s| - 1], s[|s| - 1];
      FilterTwice(p, q, both, front);
      FilterStep(q, Filter(p, front), last);
      assert last in s;
    }
  }

  function OpensProcess(): CatalogRecord -> bool {
    (r: CatalogRecord) => r.payload.previous.None? && r.payload.body.kind == ProcessStarted
  }

  function ComesNext(walked: seq<CatalogRecord>): CatalogRecord -> bool
    requires walked != []
  {
    (r: CatalogRecord) => r.payload.previous == Some(walked[|walked| - 1].hash)
                          && forall i :: 0 <= i < |walked| ==> walked[i].hash != r.hash
  }

  /** The roots name no predecessor and start the process; a follower names the last hash and repeats none. */
  lemma CandidatesMeaning(records: seq<CatalogRecord>, walked: seq<CatalogRecord>)
    ensures IsSelection(records, Roots(records), OpensProcess())
    ensures walked != [] ==> IsSelection(records, Candidates(records, walked), ComesNext(walked))
  {
    FilterTwice(Follows(None), StartsProcess(), OpensProcess(), records);
    FilterSelects(OpensProcess(), records);
    if walked != [] {
      forall r | r in records
        ensures ComesNext(walked)(r) <==>
                  Follows(Some(walked[|walked| - 1].hash))(r) && HashNotIn(Hashes(walked))(r)
      {
        HashesMeaning(walked, r.hash);
      }
      FilterTwice(Follows(Some(walked[|walked| - 1].hash)), HashNotIn(Hashes(walked)), ComesNext(walked), records);
      FilterSelects(ComesNext(walked), records);
    }
  }

  lemma HashesMeaning(records: seq<CatalogRecord>, hash: string)
    ensures hash in Hashes(records) <==> exists i :: 0 <= i < |records| && records[i].hash == hash
  {
    if hash in Hashes(records) {
      var r :| r in records && r.hash == hash;
      var i :| 0 <= i < |records| && records[i] == r;
    }
  }

  /** What the diagnostics of some lines come to. */
  ghost predicate IsCount(problems: multiset<Diagnostic>, unreadable: nat, trusted: nat, total: nat) {
    && problems[InvalidCatalogRecord] == unreadable
    && problems[InvalidCatalogRecord] + problems[CatalogHashMismatch] + trusted == total
    && problems[CatalogRootInvalid] == problems[CatalogFork] == problems[UnlinkedRecords] == 0
  }

  ghost predicate AreCounted(digest: Digest<Body>, lines: seq<Line>) {
    IsCount(multiset(LineProblems(digest, lines)), multiset(lines)[Unreadable], |Trusted(digest, lines)|, |lines|)
  }

  lemma OneMoreLine(digest: Digest<Body>, lines: seq<Line>, line: Line)
    requires AreCounted(digest, lines) && !line.Undecodable?
    ensures AreCounted(digest, lines + [line])
  {
    LineCounts(digest, lines, line);
    var problems := multiset(LineProblems(digest, lines));
    var more := if Sound(digest, line) then problems else problems + multiset{ProblemOfLine(line)};
    assert IsCount(more, multiset(lines)[Unreadable] + (if line.Unreadable? then 1 else 0),
        |Trusted(digest, lines)| + (if Sound(digest, line) then 1 else 0), |lines| + 1);
  }

  function ProblemOfLine(line: Line): Diagnostic {
    if line.Readable? then CatalogHashMismatch else InvalidCatalogRecord
  }

  lemma LineCounts(digest: Digest<Body>, lines: seq<Line>, line: Line)
    ensures multiset(LineProblems(digest, lines + [line]))
            == if Sound(digest, line) then multiset(LineProblems(digest, lines))
               else multiset(LineProblems(digest, lines)) + multiset{ProblemOfLine(line)}
    ensures |Trusted(digest, lines + [line])| == |Trusted(digest, lines)| + if Sound(digest, line) then 1 else 0
    ensures multiset(lines + [line])[Unreadable] == multiset(lines)[Unreadable] + if line.Unreadable? then 1 else 0
  {
    TrustedStep(digest, lines, line);
    OneMoreProblem(LineProblems(digest, lines), ProblemOfLine(line));
    assert multiset(lines + [line]) == multiset(lines) + multiset{line};
    assert Sound(digest, line) ==> LineProblems(digest, lines + [line]) == LineProblems(digest, lines);
  }

  lemma OneMoreProblem(problems: seq<Diagnostic>, d: Diagnostic)
    ensures multiset(problems + [d]) == multiset(problems) + multiset{d}
  {
  }

  lemma {:induction false} ProblemsOfLines(digest: Digest<Body>, lines: seq<Line>)
    requires Undecodable !in lines
    ensures AreCounted(digest, lines)
  {
    if lines != [] {
      var front, last := lines[..|lines| - 1], lines[|lines| - 1];
      assert lines == front + [last] && last in lines;
      ProblemsOfLines(digest, front);
      OneMoreLine(digest, front, last);
    }
  }

  /**
   * Which diagnostics a read gives: one for each line that does not parse, one for each record with a wrong
   * digest, and one each for a root that is missing or not the only one, for a fork at the end of what is
   * returned, and for records that are not reached.
   */
  lemma DiagnosticsMeaning(digest: Digest<Body>, lines: seq<Line>, ordered: seq<CatalogRecord>,
    diagnostics: seq<Diagnostic>)
    requires ReadsAs(digest, lines, ordered, diagnostics) && Undecodable !in lines
    ensures var records, all := Trusted(digest, lines), multiset(diagnostics);
            && all[InvalidCatalogRecord] == multiset(lines)[Unreadable]
            && all[CatalogHashMismatch] == |lines| - |records| - multiset(lines)[Unreadable]
            && (all[CatalogRootInvalid] == if ordered == [] then 1 else 0)
            && all[CatalogFork] == (if ordered != [] && |Candidates(records, ordered)| > 1 then 1 else 0)
            && (UnlinkedRecords in diagnostics <==>
                  ordered != []
                  && exists r :: r in records && forall i :: 0 <= i < |ordered| ==> ordered[i].hash != r.hash)
  {
    var records := Trusted(digest, lines);
    var problems, chain := LineProblems(digest, lines), ChainProblems(records, ordered);
    ProblemsOfLines(digest, lines);
    ChainProblemsMeaning(records, ordered);
    assert multiset(diagnostics) == multiset(problems) + multiset(chain);
    if ordered != [] {
      UnlinkedMeaning(records, ordered);
    }
  }

  lemma ChainProblemsMeaning(records: seq<CatalogRecord>, ordered: seq<CatalogRecord>)
    ensures var all := multiset(ChainProblems(records, ordered));
            && all[CatalogRootInvalid] == (if ordered == [] then 1 else 0)
            && all[CatalogFork] == (if ordered != [] && |Candidates(records, ordered)| > 1 then 1 else 0)
            && all[UnlinkedRecords] == (if ordered != [] && |Hashes(ordered)| != |Hashes(records)| then 1 else 0)
            && all[InvalidCatalogRecord] == all[CatalogHashMismatch] == 0
  {
  }

  lemma UnlinkedMeaning(records: seq<CatalogRecord>, ordered: seq<CatalogRecord>)
    requires IsWalk(records, ordered)
    ensures |Hashes(ordered)| != |Hashes(records)| <==>
              exists r :: r in records && forall i :: 0 <= i < |ordered| ==> ordered[i].hash != r.hash
  {
    WalkedHashesAreKnown(records, ordered);
    if |Hashes(ordered)| == |Hashes(records)| {
      SameSizeSubset(Hashes(ordered), Hashes(records));
      forall r | r in records ensures exists i :: 0 <= i < |ordered| && ordered[i].hash == r.hash {
        HashesMeaning(ordered, r.hash);
      }
    } else {
      assert Hashes(ordered) != Hashes(records);
      var h :| h in Hashes(records) && h !in Hashes(ordered);
      var r :| r in records && r.hash == h;
      HashesMeaning(ordered, h);
    }
  }

  lemma WalkedHashesAreKnown(records: seq<CatalogRecord>, ordered: seq<CatalogRecord>)
    requires IsWalk(records, ordered)
    ensures Hashes(ordered) <= Hashes(records)
  {
    WalkNamesPredecessors(records, ordered);
    forall h | h in Hashes(ordered) ensures h in Hashes(records) {
      var r :| r in ordered && r.hash == h;
      var i :| 0 <= i < |ordered| && ordered[i] == r;
    }
  }

  lemma SameSizeSubset<T>(a: set<T>, b: set<T>)
    requires a <= b && |a| == |b|
    ensures a == b
  {
    assert b == a + (b - a) && |b| == |a| + |b - a|;
  }

  // ---- the order of the files ----

  lemma {:induction false} FilterCounts<T>(p: T -> bool, s: seq<T>, x: T)
    ensures multiset(Filter(p, s))[x] == if p(x) then multiset(s)[x] else 0
  {
    if s != [] {
      FilterCounts(p, s[..|s| - 1], x);
      assert s == s[..|s| - 1] + [s[|s| - 1]];
    }
  }

  lemma FilterPermutes<T(!new)>(p: T -> bool, s: seq<T>, t: seq<T>)
    requires multiset(s) == multiset(t)
    ensures multiset(Filter(p, s)) == multiset(Filter(p, t))
    ensures |Filter(p, s)| == |Filter(p, t)|
    ensures |Filter(p, s)| == 1 ==> Filter(p, s) == Filter(p, t)
  {
    forall x ensures multiset(Filter(p, s))[x] == multiset(Filter(p, t))[x] {
      FilterCounts(p, s, x);
      FilterCounts(p, t, x);
    }
    assert |multiset(Filter(p, s))| == |Filter(p, s)| && |multiset(Filter(p, t))| == |Filter(p, t)|;
    if |Filter(p, s)| == 1 {
      SingletonsPermute(Filter(p, s), Filter(p, t));
    }
  }

  lemma SingletonsPermute<T>(s: seq<T>, t: seq<T>)
    requires multiset(s) == multiset(t) && |s| == 1 && |t| == 1
    ensures s == t
  {
    assert s[0] in multiset(s) && s[0] in multiset(t);
    assert s[0] in t;
  }

  lemma {:induction false} TrustedCounts(digest: Digest<Body>, lines: seq<Line>, r: CatalogRecord)
    ensures multiset(Trusted(digest, lines))[r]
            == if Sound(digest, Readable(r)) then multiset(lines)[Readable(r)] else 0
  {
    if lines != [] {
      TrustedCounts(digest, lines[..|lines| - 1], r);
      assert lines == lines[..|lines| - 1] + [lines[|lines| - 1]];
    }
  }

  lemma TrustedPermutes(digest: Digest<Body>, a: seq<Line>, b: seq<Line>)
    requires multiset(a) == multiset(b)
    ensures multiset(Trusted(digest, a)) == multiset(Trusted(digest, b))
  {
    forall r ensures multiset(Trusted(digest, a))[r] == multiset(Trusted(digest, b))[r] {
      TrustedCounts(digest, a, r);
      TrustedCounts(digest, b, r);
    }
  }

  lemma RootsPermute(a: seq<CatalogRecord>, b: seq<CatalogRecord>)
    requires multiset(a) == multiset(b)
    ensures |Roots(a)| == |Roots(b)| && (|Roots(a)| == 1 ==> Roots(a) == Roots(b))
  {
    FilterPermutes(Follows(None), a, b);
    FilterPermutes(StartsProcess(), Filter(Follows(None), a), Filter(Follows(None), b));
  }

  lemma CandidatesPermute(a: seq<CatalogRecord>, b: seq<CatalogRecord>, walked: seq<CatalogRecord>)
    requires multiset(a) == multiset(b) && walked != []
    ensures |Candidates(a, walked)| == |Candidates(b, walked)|
    ensures |Candidates(a, walked)| == 1 ==> Candidates(a, walked) == Candidates(b, walked)
  {
    var p := Follows(Some(walked[|walked| - 1].hash));
    FilterPermutes(p, a, b);
    FilterPermutes(HashNotIn(Hashes(walked)), Filter(p, a), Filter(p, b));
  }

  lemma RootsAgree(a: seq<CatalogRecord>, b: seq<CatalogRecord>, v: seq<CatalogRecord>, w: seq<CatalogRecord>)
    requires multiset(a) == multiset(b) && IsWalk(a, v) && IsWalk(b, w)
    ensures v[0] == w[0]
  {
    RootsPermute(a, b);
    assert Roots(a) == [v[0]] && Roots(b) == [w[0]];
  }

  lemma NextAgrees(a: seq<CatalogRecord>, b: seq<CatalogRecord>, v: seq<CatalogRecord>, w: seq<CatalogRecord>, n: nat)
    requires multiset(a) == multiset(b) && IsWalk(a, v) && IsWalk(b, w) && 1 <= n < |v| && n < |w|
    requires forall i :: 0 <= i < n ==> v[i] == w[i]
    ensures v[n] == w[n]
  {
    assert v[..n] == w[..n];
    CandidatesPermute(a, b, v[..n]);
    assert Candidates(a, v[..n]) == [v[n]] && Candidates(b, w[..n]) == [w[n]];
  }

  /** Two walks over the same records agree as far as both go. */
  lemma {:induction false} WalksAgree(a: seq<CatalogRecord>, b: seq<CatalogRecord>, v: seq<CatalogRecord>,
    w: seq<CatalogRecord>, n: nat)
    requires multiset(a) == multiset(b) && IsWalk(a, v) && IsWalk(b, w) && 1 <= n <= |v| && n <= |w|
    ensures forall i :: 0 <= i < n ==> v[i] == w[i]
  {
    if n == 1 {
      RootsAgree(a, b, v, w);
    } else {
      WalksAgree(a, b, v, w, n - 1);
      NextAgrees(a, b, v, w, n - 1);
    }
  }

  lemma WalkStopsWhereTheOtherDoes(a: seq<CatalogRecord>, b: seq<CatalogRecord>, v: seq<CatalogRecord>,
    w: seq<CatalogRecord>)
    requires multiset(a) == multiset(b) && IsWalk(a, v) && IsWalk(b, w) && |Candidates(a, v)| != 1
    ensures |w| <= |v|
  {
    assert |v| < |w| ==> Candidates(b, w[..|v|]) == [w[|v|]];
    if |v| < |w| {
      WalksAgree(a, b, v, w, |v|);
      assert w[..|v|] == v;
      CandidatesPermute(a, b, v);
    }
  }

  lemma OrderIsTheSame(digest: Digest<Body>, a: seq<Line>, b: seq<Line>, v: seq<CatalogRecord>,
    w: seq<CatalogRecord>, d: seq<Diagnostic>, e: seq<Diagnostic>)
    requires multiset(a) == multiset(b) && ReadsAs(digest, a, v, d) && ReadsAs(digest, b, w, e)
    ensures v == w && multiset(d) == multiset(e)
  {
    var s, t := Trusted(digest, a), Trusted(digest, b);
    TrustedPermutes(digest, a, b);
    RootsPermute(s, t);
    if v != [] {
      WalkStopsWhereTheOtherDoes(s, t, v, w);
      WalkStopsWhereTheOtherDoes(t, s, w, v);
      WalksAgree(s, t, v, w, |v|);
      assert v == w;
      CandidatesPermute(s, t, v);
    }
    HashesPermute(s, t);
    LineProblemsPermute(digest, a, b);
  }

  /** A read depends on which lines the directory holds, not on the order it meets them in. */
  lemma VisitingOrderDoesNotMatter(digest: Digest<Body>, a: seq<Line>, b: seq<Line>, r: Read, s: Read)
    requires multiset(a) == multiset(b) && IsRead(digest, a, r) && IsRead(digest, b, s)
    ensures r.Raised? <==> s.Raised?
    ensures r.Read? && s.Read? ==> r.ordered == s.ordered && multiset(r.diagnostics) == multiset(s.diagnostics)
  {
    assert Undecodable in a <==> Undecodable in multiset(a);
    assert Undecodable in b <==> Undecodable in multiset(b);
    if r.Read? && s.Read? {
      OrderIsTheSame(digest, a, b, r.ordered, s.ordered, r.diagnostics, s.diagnostics);
    }
  }

  lemma HashesPermute(s: seq<CatalogRecord>, t: seq<CatalogRecord>)
    requires multiset(s) == multiset(t)
    ensures Hashes(s) == Hashes(t)
  {
    assert forall r :: r in s <==> r in multiset(s);
    assert forall r :: r in t <==> r in multiset(t);
  }

  function ProblemsWith(digest: Digest<Body>, d: Diagnostic): Line -> bool {
    (l: Line) => !Sound(digest, l) && d == if l.Readable? then CatalogHashMismatch else InvalidCatalogRecord
  }

  lemma {:induction false} LineProblemsCount(digest: Digest<Body>, lines: seq<Line>, d: Diagnostic)
    ensures multiset(LineProblems(digest, lines))[d] == |Filter(ProblemsWith(digest, d), lines)|
  {
    if lines != [] {
      LineProblemsCount(digest, lines[..|lines| - 1], d);
    }
  }

  lemma LineProblemsPermute(digest: Digest<Body>, a: seq<Line>, b: seq<Line>)
    requires multiset(a) == multiset(b)
    ensures multiset(LineProblems(digest, a)) == multiset(LineProblems(digest, b))
  {
    forall d ensures multiset(LineProblems(digest, a))[d] == multiset(LineProblems(digest, b))[d] {
      LineProblemsCount(digest, a, d);
      LineProblemsCount(digest, b, d);
      FilterPermutes(ProblemsWith(digest, d), a, b);
    }
  }

  // ---- what a catalog writer left behind ----

  /** A process catalog: it starts with `process_started` and every record names the one before it. */
  ghost predicate IsCatalog(digest: Digest<Body>, records: seq<CatalogRecord>) {
    && records != [] && records[0].payload.body.kind.ProcessStarted? && records[0].payload.previous.None?
    && (forall i {:trigger records[i].hash} :: 0 <= i < |records| ==> records[i].hash == digest(records[i].payload))
    && forall i, j {:trigger records[i].payload.previous, records[j].hash} ::
         0 <= j < i < |records| && i == j + 1 ==> records[i].payload.previous == Some(records[j].hash)
  }

  /** A record that follows a written one; an append that was reported as uncertain may have left it. */
  ghost predicate IsStray(digest: Digest<Body>, records: seq<CatalogRecord>, r: CatalogRecord) {
    r.hash == digest(r.payload) && exists k :: 0 <= k < |records| && r.payload.previous == Some(records[k].hash)
  }

  /** The directory holds the written records and what uncertain appends left. */
  ghost predicate Holds(digest: Digest<Body>, lines: seq<Line>, records: seq<CatalogRecord>, strays: seq<Line>) {
    && IsCatalog(digest, records)
    && multiset(lines) == multiset(AsLines(records)) + multiset(strays)
    && forall s :: s in strays && s.Readable? ==> IsStray(digest, records, s.record)
  }

  function AsLines(records: seq<CatalogRecord>): (lines: seq<Line>)
    ensures |lines| == |records| && forall i :: 0 <= i < |records| ==> lines[i] == Readable(records[i])
  {
    seq(|records|, i requires 0 <= i < |records| => Readable(records[i]))
  }

  /**
   * If the record behind `records[k]` had the hash of `records[j]`, `records[k]` would have that of
   * `records[j - 1]`.
   */
  lemma CollisionMovesBack(digest: Digest<Body>, records: seq<CatalogRecord>, r: CatalogRecord, k: nat, j: nat)
    requires Injective(digest) && IsCatalog(digest, records) && j <= k < |records|
    requires r.hash == digest(r.payload) && r.payload.previous == Some(records[k].hash) && r.hash == records[j].hash
    ensures j > 0 && records[k].hash == records[j - 1].hash
    ensures records[k].hash == digest(records[k].payload) && records[k].payload.previous == Some(records[k - 1].hash)
  {
    SameHashSamePayload(digest, r, records[j]);
    assert j > 0;
    assert records[j].payload.previous == Some(records[j - 1].hash);
  }

  /** With an injective digest, a record that follows `records[k]` is no record up to `k`. */
  lemma {:induction false} FollowerIsNew(digest: Digest<Body>, records: seq<CatalogRecord>, r: CatalogRecord, k: nat,
    j: nat)
    requires Injective(digest) && IsCatalog(digest, records) && j <= k < |records|
    requires r.hash == digest(r.payload) && r.payload.previous == Some(records[k].hash)
    ensures r.hash != records[j].hash
    decreases j
  {
    if r.hash == records[j].hash {
      CollisionMovesBack(digest, records, r, k, j);
      FollowerIsNew(digest, records, records[k], k - 1, j - 1);
    }
  }

  lemma SameHashSamePayload(digest: Digest<Body>, a: CatalogRecord, b: CatalogRecord)
    requires Injective(digest) && a.hash == digest(a.payload) && b.hash == digest(b.payload) && a.hash == b.hash
    ensures a.payload == b.payload
  {
  }

  lemma HashesAreDistinct(digest: Digest<Body>, records: seq<CatalogRecord>, i: nat, j: nat)
    requires Injective(digest) && IsCatalog(digest, records) && i < j < |records|
    ensures records[i].hash != records[j].hash
  {
    FollowerIsNew(digest, records, records[j], j - 1, i);
  }

  lemma {:induction false} FilterFindsOnly<T>(p: T -> bool, s: seq<T>, i: nat)
    requires i < |s| && p(s[i]) && forall j :: 0 <= j < |s| && j != i ==> !p(s[j])
    ensures Filter(p, s) == [s[i]]
  {
    if i == |s| - 1 {
      FilterFindsNone(p, s[..|s| - 1]);
    } else {
      FilterFindsOnly(p, s[..|s| - 1], i);
    }
  }

  lemma {:induction false} FilterFindsNone<T>(p: T -> bool, s: seq<T>)
    requires forall j :: 0 <= j < |s| ==> !p(s[j])
    ensures Filter(p, s) == []
  {
    if s != [] {
      FilterFindsNone(p, s[..|s| - 1]);
    }
  }

  lemma NoOtherFollows(digest: Digest<Body>, records: seq<CatalogRecord>, i: nat, j: nat)
    requires Injective(digest) && IsCatalog(digest, records) && 1 <= i <= |records| && j < |records| && i != j
    ensures records[j].payload.previous != Some(records[i - 1].hash)
  {
    if j > 0 {
      assert records[j].payload.previous == Some(records[j - 1].hash);
      HashesAreDistinct(digest, records, if i < j then i - 1 else j - 1, if i < j then j - 1 else i - 1);
    }
  }

  /** Record `i` is the only one that follows record `i - 1`. */
  lemma OnlyOneFollows(digest: Digest<Body>, records: seq<CatalogRecord>, i: nat)
    requires Injective(digest) && IsCatalog(digest, records) && 1 <= i <= |records|
    ensures Filter(Follows(Some(records[i - 1].hash)), records) == if i == |records| then [] else [records[i]]
  {
    var p := Follows(Some(records[i - 1].hash));
    forall j | 0 <= j < |records| && j != i ensures !p(records[j]) {
      NoOtherFollows(digest, records, i, j);
    }
    if i == |records| {
      FilterFindsNone(p, records);
    } else {
      FilterFindsOnly(p, records, i);
    }
  }

  lemma CandidateAt(digest: Digest<Body>, records: seq<CatalogRecord>, i: nat)
    requires Injective(digest) && IsCatalog(digest, records) && 1 <= i <= |records|
    ensures Candidates(records, records[..i]) == if i == |records| then [] else [records[i]]
  {
    OnlyOneFollows(digest, records, i);
    if i < |records| {
      NextIsNew(digest, records, i);
    }
    SoleFollowerOf(records, i);
  }

  lemma SoleFollowerOf(records: seq<CatalogRecord>, i: nat)
    requires 1 <= i <= |records| && (i < |records| ==> records[i].hash !in Hashes(records[..i]))
    requires Filter(Follows(Some(records[i - 1].hash)), records) == if i == |records| then [] else [records[i]]
    ensures Candidates(records, records[..i]) == if i == |records| then [] else [records[i]]
  {
    SoleFollower(records, records[..i], if i == |records| then [] else [records[i]]);
  }

  lemma SoleFollower(records: seq<CatalogRecord>, walked: seq<CatalogRecord>, next: seq<CatalogRecord>)
    requires walked != [] && |next| <= 1
    requires Filter(Follows(Some(walked[|walked| - 1].hash)), records) == next
    requires forall r :: r in next ==> r.hash !in Hashes(walked)
    ensures Candidates(records, walked) == next
  {
    if |next| == 1 {
      FilterFindsOnly(HashNotIn(Hashes(walked)), next, 0);
    }
  }

  lemma NextIsNew(digest: Digest<Body>, records: seq<CatalogRecord>, i: nat)
    requires Injective(digest) && IsCatalog(digest, records) && i < |records|
    ensures records[i].hash !in Hashes(records[..i])
  {
    forall r | r in records[..i] ensures r.hash != records[i].hash {
      var j :| 0 <= j < i && records[j] == r;
      HashesAreDistinct(digest, records, j, i);
    }
  }

  lemma CatalogHasRoot(digest: Digest<Body>, records: seq<CatalogRecord>)
    requires IsCatalog(digest, records)
    ensures Roots(records) == [records[0]]
  {
    forall j | 1 <= j < |records| ensures records[j].payload.previous != None {
      assert records[j].payload.previous == Some(records[j - 1].hash);
    }
    FilterFindsOnly(Follows(None), records, 0);
    FilterFindsOnly(StartsProcess(), [records[0]], 0);
  }

  lemma CatalogIsWalk(digest: Digest<Body>, records: seq<CatalogRecord>)
    requires Injective(digest) && IsCatalog(digest, records)
    ensures IsWalk(records, records) && Candidates(records, records) == []
  {
    CatalogHasRoot(digest, records);
    forall i | 1 <= i < |records| ensures Candidates(records, records[..i]) == [records[i]] {
      CandidateAt(digest, records, i);
    }
    CandidateAt(digest, records, |records|);
    assert records[..|records|] == records;
  }

  lemma {:induction false} WrittenLinesAreTrusted(digest: Digest<Body>, records: seq<CatalogRecord>)
    requires forall i :: 0 <= i < |records| ==> records[i].hash == digest(records[i].payload)
    ensures Trusted(digest, AsLines(records)) == records
  {
    if records == [] {
      assert AsLines(records) == [];
    } else {
      var n := |records| - 1;
      WrittenLinesAreTrusted(digest, records[..n]);
      assert AsLines(records)[..n] == AsLines(records[..n]);
      assert records == records[..n] + [records[n]];
    }
  }

  lemma {:induction false} SoundLinesGiveNoProblem(digest: Digest<Body>, lines: seq<Line>)
    ensures LineProblems(digest, lines) == [] <==> forall l :: l in lines ==> Sound(digest, l)
  {
    if lines != [] {
      SoundLinesGiveNoProblem(digest, lines[..|lines| - 1]);
      assert lines == lines[..|lines| - 1] + [lines[|lines| - 1]];
    }
  }

  lemma WrittenLinesGiveNoProblem(digest: Digest<Body>, lines: seq<Line>, records: seq<CatalogRecord>)
    requires IsCatalog(digest, records) && multiset(lines) == multiset(AsLines(records))
    ensures LineProblems(digest, lines) == []
  {
    forall l | l in lines ensures Sound(digest, l) {
      assert l in multiset(lines);
      assert l in AsLines(records);
    }
    SoundLinesGiveNoProblem(digest, lines);
  }

  lemma CleanDirectoryReadsBack(digest: Digest<Body>, lines: seq<Line>, records: seq<CatalogRecord>,
    ordered: seq<CatalogRecord>, diagnostics: seq<Diagnostic>)
    requires Injective(digest) && IsCatalog(digest, records) && multiset(lines) == multiset(AsLines(records))
    requires ReadsAs(digest, lines, ordered, diagnostics)
    ensures ordered == records && diagnostics == []
  {
    var found := Trusted(digest, lines);
    TrustedPermutes(digest, lines, AsLines(records));
    WrittenLinesAreTrusted(digest, records);
    CatalogIsWalk(digest, records);
    RootsPermute(found, records);
    WalkOfPermutation(found, records, ordered);
    CandidatesPermute(found, records, records);
    HashesPermute(found, records);
    WrittenLinesGiveNoProblem(digest, lines, records);
  }

  lemma WalkOfPermutation(found: seq<CatalogRecord>, records: seq<CatalogRecord>, ordered: seq<CatalogRecord>)
    requires multiset(found) == multiset(records) && IsWalk(records, records) && Candidates(records, records) == []
    requires IsWalk(found, ordered) && |Candidates(found, ordered)| != 1
    ensures ordered == records
  {
    WalkStopsWhereTheOtherDoes(found, records, ordered, records);
    WalkStopsWhereTheOtherDoes(records, found, records, ordered);
    WalksAgree(found, records, ordered, records, |records|);
  }

  lemma CandidatesCount(records: seq<CatalogRecord>, walked: seq<CatalogRecord>, r: CatalogRecord)
    requires walked != [] && r.payload.previous == Some(walked[|walked| - 1].hash) && r.hash !in Hashes(walked)
    ensures multiset(Candidates(records, walked))[r] == multiset(records)[r]
  {
    var p := Follows(Some(walked[|walked| - 1].hash));
    FilterCounts(p, records, r);
    FilterCounts(HashNotIn(Hashes(walked)), Filter(p, records), r);
  }

  lemma CountsInSequence<T>(s: seq<T>, x: T, y: T)
    requires multiset(s)[x] > 0 && multiset(s)[y] > 0 && (x == y ==> multiset(s)[x] > 1)
    ensures |s| > 1
  {
    assert multiset{x, y} <= multiset(s);
    assert multiset(s) == multiset(s) - multiset{x, y} + multiset{x, y};
  }

  lemma StrayCounts(digest: Digest<Body>, lines: seq<Line>, records: seq<CatalogRecord>, strays: seq<Line>,
    r: CatalogRecord)
    requires Holds(digest, lines, records, strays) && r.hash == digest(r.payload)
    ensures multiset(Trusted(digest, lines))[r]
            == multiset(AsLines(records))[Readable(r)] + multiset(strays)[Readable(r)]
  {
    TrustedCounts(digest, lines, r);
  }

  /** A stray behind `records[k]` competes with whatever follows `records[k]`. */
  lemma StrayCompetes(digest: Digest<Body>, lines: seq<Line>, records: seq<CatalogRecord>, strays: seq<Line>,
    r: CatalogRecord, k: nat)
    requires Injective(digest) && Holds(digest, lines, records, strays) && k < |records| && Readable(r) in strays
    requires r.hash == digest(r.payload) && r.payload.previous == Some(records[k].hash)
    ensures Candidates(Trusted(digest, lines), records[..k + 1]) != []
    ensures k + 1 < |records| ==> |Candidates(Trusted(digest, lines), records[..k + 1])| > 1
  {
    var found, walked := Trusted(digest, lines), records[..k + 1];
    forall j | 0 <= j <= k ensures records[j].hash != r.hash {
      FollowerIsNew(digest, records, r, k, j);
    }
    CandidatesCount(found, walked, r);
    StrayCounts(digest, lines, records, strays, r);
    if k + 1 < |records| {
      var next := records[k + 1];
      forall j | 0 <= j <= k ensures records[j].hash != next.hash {
        FollowerIsNew(digest, records, next, k, j);
      }
      CandidatesCount(found, walked, next);
      StrayCounts(digest, lines, records, strays, next);
      assert AsLines(records)[k + 1] == Readable(next);
      CountsInSequence(Candidates(found, walked), r, next);
    }
  }

  lemma UnreadableIsNoticed(digest: Digest<Body>, lines: seq<Line>, ordered: seq<CatalogRecord>,
    diagnostics: seq<Diagnostic>)
    requires (Unreadable in lines || Undecodable in lines) && ReadsAs(digest, lines, ordered, diagnostics)
    ensures diagnostics != []
  {
    SoundLinesGiveNoProblem(digest, lines);
  }

  lemma CompetitorIsNoticed(digest: Digest<Body>, lines: seq<Line>, records: seq<CatalogRecord>, k: nat,
    diagnostics: seq<Diagnostic>)
    requires ReadsAs(digest, lines, records, diagnostics) && k < |records|
    requires Candidates(Trusted(digest, lines), records[..k + 1]) != []
    requires k + 1 < |records| ==> |Candidates(Trusted(digest, lines), records[..k + 1])| > 1
    ensures diagnostics != []
  {
    var found := Trusted(digest, lines);
    if k + 1 == |records| {
      assert records[..k + 1] == records;
      assert CatalogFork in ChainProblems(found, records);
    }
  }

  lemma StrayIsNoticed(digest: Digest<Body>, lines: seq<Line>, records: seq<CatalogRecord>, strays: seq<Line>,
    stray: Line, diagnostics: seq<Diagnostic>)
    requires Injective(digest) && Holds(digest, lines, records, strays) && stray in strays
    requires ReadsAs(digest, lines, records, diagnostics)
    ensures diagnostics != []
  {
    if !stray.Readable? {
      assert stray in multiset(lines);
      UnreadableIsNoticed(digest, lines, records, diagnostics);
    } else {
      assert IsStray(digest, records, stray.record);
      var k: nat :| k < |records| && stray.record.payload.previous == Some(records[k].hash);
      StrayCompetes(digest, lines, records, strays, stray.record, k);
      CompetitorIsNoticed(digest, lines, records, k, diagnostics);
    }
  }

  lemma StraysAreExtraLines(digest: Digest<Body>, lines: seq<Line>, records: seq<CatalogRecord>, strays: seq<Line>)
    requires Holds(digest, lines, records, strays)
    ensures |lines| == |records| + |strays|
  {
    assert |multiset(lines)| == |lines| && |multiset(AsLines(records)) + multiset(strays)| == |records| + |strays|;
  }

  /**
   * The round trip: a read, in any visiting order, gives exactly the written records and no
   * diagnostic if and only if no uncertain append left anything behind, that is, if and only if
   * there are as many lines as records.
   */
  lemma ReadsBackUnlessStrays(digest: Digest<Body>, lines: seq<Line>, records: seq<CatalogRecord>, strays: seq<Line>,
    read: Read)
    requires Injective(digest) && Holds(digest, lines, records, strays) && IsRead(digest, lines, read)
    ensures read == Read(records, []) <==> strays == []
    ensures read == Read(records, []) <==> |lines| == |records|
  {
    StraysAreExtraLines(digest, lines, records, strays);
    if read.Read? {
      if strays == [] {
        CleanDirectoryReadsBack(digest, lines, records, read.ordered, read.diagnostics);
      } else if read.ordered == records {
        StrayIsNoticed(digest, lines, records, strays, strays[0], read.diagnostics);
      }
    } else {
      assert Undecodable in multiset(lines);
      assert strays == [] ==> Undecodable in AsLines(records);
    }
  }

  // ---- what is read when something is left ----

  lemma RootIsFound(digest: Digest<Body>, lines: seq<Line>, records: seq<CatalogRecord>, strays: seq<Line>,
    ordered: seq<CatalogRecord>, diagnostics: seq<Diagnostic>)
    requires Injective(digest) && Holds(digest, lines, records, strays) && ReadsAs(digest, lines, ordered, diagnostics)
    ensures ordered != [] && ordered[0] == records[0]
  {
    var found, root := Trusted(digest, lines), records[0];
    forall r | r in found && r.payload.previous.None? ensures r == root {
      LineIsRecordOrStray(digest, lines, records, strays, r);
    }
    StrayCounts(digest, lines, records, strays, root);
    assert AsLines(records)[0] == Readable(root);
    assert Readable(root) !in strays;
    OccursOnce(digest, records, 0);
    FilterCounts(Follows(None), found, root);
    OnlyElement(Filter(Follows(None), found), root);
    FilterFindsOnly(StartsProcess(), [root], 0);
  }

  lemma OnlyElement<T>(s: seq<T>, x: T)
    requires multiset(s)[x] == 1 && forall y :: y in s ==> y == x
    ensures s == [x]
  {
    assert x in s && s[0] in s && s == [s[0]] + s[1..];
    assert multiset(s) == multiset{x} + multiset(s[1..]) && x !in s[1..];
    assert forall k :: 0 <= k < |s[1..]| ==> s[1..][k] in s;
    assert s[1..] == [];
  }

  lemma OccursOnce(digest: Digest<Body>, records: seq<CatalogRecord>, i: nat)
    requires Injective(digest) && IsCatalog(digest, records) && i < |records|
    ensures multiset(AsLines(records))[Readable(records[i])] == 1
  {
    var lines := AsLines(records);
    forall j | 0 <= j < |records| && j != i ensures lines[j] != lines[i] {
      HashesAreDistinct(digest, records, if i < j then i else j, if i < j then j else i);
    }
    assert lines == lines[..i] + [lines[i]] + lines[i + 1..];
    assert lines[i] !in lines[..i] && lines[i] !in lines[i + 1..];
  }

  lemma LineIsRecordOrStray(digest: Digest<Body>, lines: seq<Line>, records: seq<CatalogRecord>, strays: seq<Line>,
    r: CatalogRecord)
    requires Holds(digest, lines, records, strays) && r in Trusted(digest, lines)
    ensures (r.payload.previous.None? && r == records[0])
            || exists k :: 0 <= k < |records| && r.payload.previous == Some(records[k].hash)
                           && ((k + 1 < |records| && r == records[k + 1]) || Readable(r) in strays)
  {
    TrustedAreSound(digest, lines);
    assert Readable(r) in multiset(lines);
    if Readable(r) in strays {
      assert IsStray(digest, records, r);
    } else {
      assert Readable(r) in AsLines(records);
      var j :| 0 <= j < |records| && records[j] == r;
      if j > 0 {
        assert records[j].payload.previous == Some(records[j - 1].hash);
      }
    }
  }

  lemma CandidateMeans(records: seq<CatalogRecord>, walked: seq<CatalogRecord>, next: CatalogRecord)
    requires walked != [] && Candidates(records, walked) == [next]
    ensures next in records && next.payload.previous == Some(walked[|walked| - 1].hash) && next.hash !in Hashes(walked)
  {
    assert next in Candidates(records, walked);
  }

  /** The record is there and could stand behind `walked`. */
  ghost predicate CouldFollow(found: seq<CatalogRecord>, walked: seq<CatalogRecord>, r: CatalogRecord) {
    && walked != [] && r.payload.previous == Some(walked[|walked| - 1].hash)
    && r.hash !in Hashes(walked) && multiset(found)[r] > 0
  }

  lemma OnlyFollower(found: seq<CatalogRecord>, walked: seq<CatalogRecord>, r: CatalogRecord, next: CatalogRecord)
    requires CouldFollow(found, walked, r) && Candidates(found, walked) == [next]
    ensures next == r
  {
    CandidatesCount(found, walked, r);
  }

  lemma NextRecordCouldFollow(digest: Digest<Body>, lines: seq<Line>, records: seq<CatalogRecord>, strays: seq<Line>,
    n: nat)
    requires Injective(digest) && Holds(digest, lines, records, strays) && 1 <= n < |records|
    ensures CouldFollow(Trusted(digest, lines), records[..n], records[n])
  {
    NextIsNew(digest, records, n);
    NextNamesPrefix(digest, records, n);
    RecordIsFound(digest, lines, records, strays, n);
  }

  lemma NextNamesPrefix(digest: Digest<Body>, records: seq<CatalogRecord>, n: nat)
    requires IsCatalog(digest, records) && 1 <= n < |records|
    ensures records[n].payload.previous == Some(records[..n][n - 1].hash)
  {
  }

  lemma RecordIsFound(digest: Digest<Body>, lines: seq<Line>, records: seq<CatalogRecord>, strays: seq<Line>, n: nat)
    requires Holds(digest, lines, records, strays) && n < |records|
    ensures multiset(Trusted(digest, lines))[records[n]] > 0
  {
    StrayCounts(digest, lines, records, strays, records[n]);
    assert AsLines(records)[n] == Readable(records[n]);
  }

  /** Behind all records it can only go on with a stray. */
  lemma OnlyStrayFollows(digest: Digest<Body>, lines: seq<Line>, records: seq<CatalogRecord>, strays: seq<Line>,
    next: CatalogRecord)
    requires Injective(digest) && Holds(digest, lines, records, strays)
    requires Candidates(Trusted(digest, lines), records) == [next]
    ensures Readable(next) in strays && next.hash == digest(next.payload)
    ensures next.payload.previous == Some(records[|records| - 1].hash)
  {
    CandidateMeans(Trusted(digest, lines), records, next);
    TrustedAreSound(digest, lines);
    assert Readable(next) in multiset(lines);
    assert next !in records;
    assert Readable(next) !in AsLines(records);
  }

  /** Nothing follows a stray behind the last record. */
  lemma NothingFollowsStray(digest: Digest<Body>, lines: seq<Line>, records: seq<CatalogRecord>, strays: seq<Line>,
    stray: CatalogRecord, next: CatalogRecord)
    requires Injective(digest) && Holds(digest, lines, records, strays)
    requires stray.hash == digest(stray.payload) && stray.payload.previous == Some(records[|records| - 1].hash)
    requires next in Trusted(digest, lines)
    ensures next.payload.previous != Some(stray.hash)
  {
    LineIsRecordOrStray(digest, lines, records, strays, next);
    if next.payload.previous.Some? {
      var k :| 0 <= k < |records| && next.payload.previous == Some(records[k].hash);
      FollowerIsNew(digest, records, stray, |records| - 1, k);
    }
  }

  /** The first of the written records in order, and behind all of them at most one stray. */
  ghost predicate IsUpToFork(records: seq<CatalogRecord>, strays: seq<Line>, ordered: seq<CatalogRecord>) {
    ordered <= records
    || (|ordered| == |records| + 1 && records <= ordered && Readable(ordered[|records|]) in strays)
  }

  /** Behind its first records a walk can only go on with the next record. */
  lemma {:induction false} WalkAgreesWithRecords(found: seq<CatalogRecord>, records: seq<CatalogRecord>,
    ordered: seq<CatalogRecord>, n: nat)
    requires forall i {:trigger records[..i]} :: 1 <= i < |records| ==> CouldFollow(found, records[..i], records[i])
    requires IsWalk(found, ordered) && records != [] && ordered[0] == records[0]
    requires 1 <= n <= |ordered| && n <= |records|
    ensures ordered[..n] == records[..n]
  {
    if n > 1 {
      WalkAgreesWithRecords(found, records, ordered, n - 1);
      WalkHasCandidate(found, ordered, n - 1);
      OnlyFollower(found, records[..n - 1], records[n - 1], ordered[n - 1]);
      PrefixGrows(ordered, records, n);
    }
  }

  lemma WalkHasCandidate(found: seq<CatalogRecord>, ordered: seq<CatalogRecord>, i: nat)
    requires IsWalk(found, ordered) && 1 <= i < |ordered|
    ensures Candidates(found, ordered[..i]) == [ordered[i]]
  {
  }

  lemma PrefixGrows<T>(a: seq<T>, b: seq<T>, n: nat)
    requires 0 < n <= |a| && n <= |b| && a[..n - 1] == b[..n - 1] && a[n - 1] == b[n - 1]
    ensures a[..n] == b[..n]
  {
    assert a[..n] == a[..n - 1] + [a[n - 1]] && b[..n] == b[..n - 1] + [b[n - 1]];
  }

  lemma WalkEndsBehindStray(digest: Digest<Body>, lines: seq<Line>, records: seq<CatalogRecord>, strays: seq<Line>,
    ordered: seq<CatalogRecord>)
    requires Injective(digest) && Holds(digest, lines, records, strays)
    requires IsWalk(Trusted(digest, lines), ordered) && |ordered| > |records| && ordered[..|records|] == records
    ensures |ordered| == |records| + 1 && Readable(ordered[|records|]) in strays
  {
    var found, n := Trusted(digest, lines), |records|;
    assert Candidates(found, ordered[..n]) == [ordered[n]];
    OnlyStrayFollows(digest, lines, records, strays, ordered[n]);
    if |ordered| > n + 1 {
      StepOfWalk(found, ordered, n + 1);
      NothingFollowsStray(digest, lines, records, strays, ordered[n], ordered[n + 1]);
    }
  }

  /** Whatever failed appends left, a read that does not raise gives the written records up to the first fork. */
  lemma ReadsUpToFork(digest: Digest<Body>, lines: seq<Line>, records: seq<CatalogRecord>, strays: seq<Line>,
    ordered: seq<CatalogRecord>, diagnostics: seq<Diagnostic>)
    requires Injective(digest) && Holds(digest, lines, records, strays) && ReadsAs(digest, lines, ordered, diagnostics)
    ensures ordered != [] && IsUpToFork(records, strays, ordered)
  {
    RootIsFound(digest, lines, records, strays, ordered, diagnostics);
    forall i | 1 <= i < |records| ensures CouldFollow(Trusted(digest, lines), records[..i], records[i]) {
      NextRecordCouldFollow(digest, lines, records, strays, i);
    }
    if |ordered| <= |records| {
      WalkAgreesWithRecords(Trusted(digest, lines), records, ordered, |ordered|);
      assert ordered[..|ordered|] == ordered;
    } else {
      WalkAgreesWithRecords(Trusted(digest, lines), records, ordered, |records|);
      assert records[..|records|] == records;
      WalkEndsBehindStray(digest, lines, records, strays, ordered);
    }
  }
}
