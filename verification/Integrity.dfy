/** Hash chains: what `verify_chain` accepts, how far it gets, and what a final hash pins. */
module Integrity {
  import opened Wrappers

  /** What a record's hash covers: everything but the hash itself. */
  datatype Payload<B> = Payload(body: B, sequence: Option<int>, previous: Option<string>)

  /** A record; a sequence that is not an integer and a missing hash are None. */
  datatype Record<B> = Record(payload: Payload<B>, hash: Option<string>)

  /** The digest is an arbitrary function; where it matters it is assumed injective. */
  type Digest<!B> = Payload<B> -> string

  ghost predicate Injective<B(!new)>(digest: Digest<B>) {
    forall p, q :: digest(p) == digest(q) ==> p == q
  }

  datatype Code = InvalidSequence | DuplicateSequence | SequenceGap | PreviousHashMismatch | RecordHashMismatch

  datatype Problem = Problem(code: Code, sequence: Option<int>)

  datatype ChainVerification = Accepted(checked: nat) | Rejected(checked: nat, problem: Problem)

  function HashBefore<B>(records: seq<Record<B>>, i: nat): Option<string>
    requires i <= |records|
  {
    if i == 0 then None else records[i - 1].hash
  }

  /** Record `i` is numbered `i + 1`, names its predecessor's hash and carries its own digest. */
  predicate Links<B(==)>(digest: Digest<B>, records: seq<Record<B>>, i: nat)
    requires i < |records|
  {
    var p := records[i].payload;
    p.sequence == Some(i + 1) && p.previous == HashBefore(records, i) && records[i].hash == Some(digest(p))
  }

  ghost predicate IsChain<B>(digest: Digest<B>, records: seq<Record<B>>) {
    forall i :: 0 <= i < |records| ==> Links(digest, records, i)
  }

  /** The first thing wrong with record `i` behind an accepted prefix. */
  function ProblemOf<B(==)>(digest: Digest<B>, records: seq<Record<B>>, i: nat): Option<Problem>
    requires i < |records|
  {
    var p := records[i].payload;
    if p.sequence.None? then Some(Problem(InvalidSequence, None))
    else if 1 <= p.sequence.value <= i then Some(Problem(DuplicateSequence, p.sequence))
    else if p.sequence.value != i + 1 then Some(Problem(SequenceGap, p.sequence))
    else if p.previous != HashBefore(records, i) then Some(Problem(PreviousHashMismatch, p.sequence))
    else if records[i].hash != Some(digest(p)) then Some(Problem(RecordHashMismatch, p.sequence))
    else None
  }

  /**
   * `verify_chain`: accepts exactly the chains, and on rejection has checked the longest accepted
   * prefix and names the first problem behind it.
   */
  method VerifyChain<B(==)>(digest: Digest<B>, records: seq<Record<B>>) returns (v: ChainVerification)
    ensures v.Accepted? <==> IsChain(digest, records)
    ensures v.Accepted? ==> v.checked == |records|
    ensures v.Rejected? ==>
              && v.checked < |records| && IsChain(digest, records[..v.checked])
              && !IsChain(digest, records[..v.checked + 1])
              && ProblemOf(digest, records, v.checked) == Some(v.problem)
    ensures v.Rejected? ==>
              var r, n := records[v.checked], v.checked + 1;
              && v.problem.sequence == r.payload.sequence
              && (v.problem.code.InvalidSequence? <==> r.payload.sequence.None?)
              && (v.problem.code.DuplicateSequence? <==> exists i :: 1 <= i < n && r.payload.sequence == Some(i))
              && (v.problem.code in {PreviousHashMismatch, RecordHashMismatch} <==> r.payload.sequence == Some(n))
              && (v.problem.code.PreviousHashMismatch? ==>
                    r.payload.previous != if n == 1 then None else records[n - 2].hash)
              && (v.problem.code.RecordHashMismatch? ==>
                    r.hash != Some(digest(r.payload))
                    && r.payload.previous == if n == 1 then None else records[n - 2].hash)
  {
    var previousHash: Option<string> := None;
    var expected, checked := 1, 0;
    var seen: set<int> := {};
    for i := 0 to |records|
      invariant checked == i && expected == i + 1 && previousHash == HashBefore(records, i)
      invariant forall n :: n in seen <==> 1 <= n <= i
      invariant forall j :: 0 <= j < i ==> Links(digest, records, j)
    {
      var p := records[i].payload;
      var problem: Option<Code> := None;
      if p.sequence.None? {
        problem := Some(InvalidSequence);
      } else if p.sequence.value in seen {
        problem := Some(DuplicateSequence);
      } else if p.sequence.value != expected {
        problem := Some(SequenceGap);
      } else if p.previous != previousHash {
        problem := Some(PreviousHashMismatch);
      } else if records[i].hash != Some(digest(p)) {
        problem := Some(RecordHashMismatch);
      }
      if problem.Some? {
        assert !Links(digest, records, i);
        PrefixLinks(digest, records, i);
        return Rejected(checked, Problem(problem.value, p.sequence));
      }
      seen := seen + {p.sequence.value};
      previousHash := records[i].hash;
      expected := expected + 1;
      checked := checked + 1;
    }
    return Accepted(checked);
  }

  lemma PrefixLinks<B>(digest: Digest<B>, records: seq<Record<B>>, i: nat)
    requires i < |records| && forall j :: 0 <= j < i ==> Links(digest, records, j)
    ensures IsChain(digest, records[..i])
    ensures Links(digest, records[..i + 1], i) <==> Links(digest, records, i)
  {
    forall j | 0 <= j < i ensures Links(digest, records[..i], j) {
      assert Links(digest, records, j);
    }
  }

  /** With an injective digest the last hash determines the whole chain. */
  lemma {:induction false} FinalHashPinsChain<B(!new)>(digest: Digest<B>, a: seq<Record<B>>, b: seq<Record<B>>)
    requires Injective(digest) && IsChain(digest, a) && IsChain(digest, b)
    requires |a| > 0 && |b| > 0 && a[|a| - 1].hash == b[|b| - 1].hash
    ensures a == b
  {
    var m, n := |a| - 1, |b| - 1;
    assert Links(digest, a, m) && Links(digest, b, n);
    assert a[m].payload == b[n].payload && m == n;
    if m > 0 {
      PrefixOfChain(digest, a, m);
      PrefixOfChain(digest, b, m);
      assert Links(digest, a, m - 1) && Links(digest, b, m - 1);
      FinalHashPinsChain(digest, a[..m], b[..m]);
    }
    assert a == a[..m] + [a[m]] && b == b[..m] + [b[m]];
  }

  lemma PrefixOfChain<B>(digest: Digest<B>, records: seq<Record<B>>, n: nat)
    requires n <= |records| && IsChain(digest, records)
    ensures IsChain(digest, records[..n])
  {
    forall j | 0 <= j < n ensures Links(digest, records[..n], j) {
      assert Links(digest, records, j);
    }
  }

  /**
   * So a chain that extends another one and ends in the same hash adds nothing: an index that
   * has seen this hash may skip the segment.
   */
  lemma SameFinalHashAddsNothing<B(!new)>(digest: Digest<B>, indexed: seq<Record<B>>, now: seq<Record<B>>)
    requires Injective(digest) && IsChain(digest, now) && 0 < |indexed| <= |now| && indexed == now[..|indexed|]
    requires indexed[|indexed| - 1].hash == now[|now| - 1].hash
    ensures indexed == now
  {
    PrefixOfChain(digest, now, |indexed|);
    FinalHashPinsChain(digest, indexed, now);
  }
}
