/**
 * The two repairs that pair tool calls with results in the model-facing copy, as functions
 * on message values, and what they guarantee.
 */
module Repair {
  import opened Messages
  import opened Wrappers

  const BACKFILL_CONTENT := "[Tool result unavailable — call was interrupted or lost]"

  // ---- Dropping orphan results ----

  function DeclaredUpTo(ms: seq<Msg>, n: nat): set<string>
    requires n <= |ms|
  {
    if n == 0 then {} else DeclaredUpTo(ms, n - 1) + DeclaredBy(ms[n - 1])
  }

  predicate IsOrphan(m: Msg, declared: set<string>) {
    m.role.Tool? && m.toolCallId != "" && m.toolCallId !in declared
  }

  function WithoutOrphansUpTo(ms: seq<Msg>, n: nat): seq<Msg>
    requires n <= |ms|
  {
    if n == 0 then []
    else
      WithoutOrphansUpTo(ms, n - 1)
      + if IsOrphan(ms[n - 1], DeclaredUpTo(ms, n - 1)) then [] else [ms[n - 1]]
  }

  function WithoutOrphans(ms: seq<Msg>): seq<Msg> {
    WithoutOrphansUpTo(ms, |ms|)
  }

  lemma {:induction false} DeclaredUpToMeaning(ms: seq<Msg>, n: nat, id: string)
    requires n <= |ms|
    ensures id in DeclaredUpTo(ms, n) <==> exists i :: 0 <= i < n && id in DeclaredBy(ms[i])
  {
    if n > 0 {
      DeclaredUpToMeaning(ms, n - 1, id);
    }
  }

  /** Dropping a result never drops a declaration. */
  lemma {:induction false} DroppingKeepsDeclarations(ms: seq<Msg>, n: nat)
    requires n <= |ms|
    ensures var kept := WithoutOrphansUpTo(ms, n);
            DeclaredUpTo(kept, |kept|) == DeclaredUpTo(ms, n)
  {
    if n > 0 {
      DroppingKeepsDeclarations(ms, n - 1);
      var before, kept := WithoutOrphansUpTo(ms, n - 1), WithoutOrphansUpTo(ms, n);
      if IsOrphan(ms[n - 1], DeclaredUpTo(ms, n - 1)) {
        assert kept == before && DeclaredBy(ms[n - 1]) == {};
      } else {
        assert kept == before + [ms[n - 1]];
        DeclaredUpToPrefix(before, kept, |before|);
      }
    }
  }

  lemma {:induction false} DeclaredUpToPrefix(a: seq<Msg>, b: seq<Msg>, n: nat)
    requires n <= |a| && n <= |b| && a[..n] == b[..n]
    ensures DeclaredUpTo(a, n) == DeclaredUpTo(b, n)
  {
    if n > 0 {
      assert a[..n - 1] == a[..n][..n - 1] && b[..n - 1] == b[..n][..n - 1];
      DeclaredUpToPrefix(a, b, n - 1);
      assert a[n - 1] == a[..n][n - 1] && b[n - 1] == b[..n][n - 1];
    }
  }

  /** After dropping, no result is an orphan. */
  lemma {:induction false} DroppingLeavesNoOrphans(ms: seq<Msg>, n: nat)
    requires n <= |ms|
    ensures NoOrphans(WithoutOrphansUpTo(ms, n))
  {
    if n > 0 {
      DroppingLeavesNoOrphans(ms, n - 1);
      var before, kept := WithoutOrphansUpTo(ms, n - 1), WithoutOrphansUpTo(ms, n);
      DroppingKeepsDeclarations(ms, n - 1);
      forall j | 0 <= j < |kept| && kept[j].role.Tool? && kept[j].toolCallId != ""
        ensures exists i :: 0 <= i < j && kept[j].toolCallId in DeclaredBy(kept[i])
      {
        if j < |before| {
          assert kept[j] == before[j];
          var i :| 0 <= i < j && before[j].toolCallId in DeclaredBy(before[i]);
          assert kept[i] == before[i];
        } else {
          DeclaredUpToMeaning(before, |before|, kept[j].toolCallId);
          var i :| 0 <= i < |before| && kept[j].toolCallId in DeclaredBy(before[i]);
          assert kept[i] == before[i];
        }
      }
    }
  }

  /** Only orphans are dropped: a history without any is returned as it is. */
  lemma {:induction false} DroppingKeepsLegalHistory(ms: seq<Msg>, n: nat)
    requires n <= |ms| && NoOrphans(ms)
    ensures WithoutOrphansUpTo(ms, n) == ms[..n]
  {
    if n > 0 {
      DroppingKeepsLegalHistory(ms, n - 1);
      DeclaredUpToMeaning(ms, n - 1, ms[n - 1].toolCallId);
      assert ms[..n] == ms[..n - 1] + [ms[n - 1]];
    }
  }

  /** If message `j` is a result with an id, an earlier assistant message makes a call with that id. */
  ghost predicate HasItsCall(ms: seq<Msg>, j: nat)
    requires j < |ms|
  {
    ms[j].role.Tool? && ms[j].toolCallId != "" ==>
      exists i, k :: 0 <= i < j && 0 <= k < |ms[i].calls| && ms[i].role.Assistant? && ms[i].calls[k].Call?
                     && ms[i].calls[k].id == ms[j].toolCallId
  }

  lemma OrphanHasNoCall(ms: seq<Msg>, j: nat)
    requires j < |ms|
    ensures IsOrphan(ms[j], DeclaredUpTo(ms, j)) <==> !HasItsCall(ms, j)
  {
    DeclaredUpToMeaning(ms, j, ms[j].toolCallId);
  }

  /** The positions of the messages among the first `n` that are no orphans. */
  ghost predicate AreCalledFor(ms: seq<Msg>, n: nat, at: seq<nat>) {
    && n <= |ms| && (forall k :: 0 <= k < |at| ==> at[k] < n)
    && forall j :: 0 <= j < n ==> (j in at <==> HasItsCall(ms, j))
  }

  lemma CalledForStep(ms: seq<Msg>, n: nat, at: seq<nat>)
    requires n < |ms| && AreCalledFor(ms, n, at)
    ensures AreCalledFor(ms, n + 1, if HasItsCall(ms, n) then at + [n] else at)
  {
  }

  lemma KeptWithoutOrphans(ms: seq<Msg>, n: nat, at: seq<nat>)
    requires n < |ms| && Keeps(ms[..n], at, WithoutOrphansUpTo(ms, n))
    ensures Keeps(ms[..n + 1], if HasItsCall(ms, n) then at + [n] else at, WithoutOrphansUpTo(ms, n + 1))
  {
    OrphanHasNoCall(ms, n);
    KeepsStep(ms[..n], at, WithoutOrphansUpTo(ms, n), ms[n], HasItsCall(ms, n));
    assert ms[..n + 1] == ms[..n] + [ms[n]];
  }

  /** The positions of what is left of the first `n` messages. */
  ghost predicate IsDropping(ms: seq<Msg>, n: nat, at: seq<nat>) {
    AreCalledFor(ms, n, at) && Keeps(ms[..n], at, WithoutOrphansUpTo(ms, n))
  }

  lemma DroppingStep(ms: seq<Msg>, n: nat, at: seq<nat>) returns (next: seq<nat>)
    requires n < |ms| && IsDropping(ms, n, at)
    ensures IsDropping(ms, n + 1, next)
  {
    next := if HasItsCall(ms, n) then at + [n] else at;
    KeptWithoutOrphans(ms, n, at);
    CalledForStep(ms, n, at);
  }

  lemma NothingDropped(ms: seq<Msg>)
    ensures IsDropping(ms, 0, [])
  {
  }

  /** What dropping keeps, and in which order: all but the results whose id no earlier message calls. */
  lemma {:induction false} DroppingIsExact(ms: seq<Msg>, n: nat) returns (at: seq<nat>)
    requires n <= |ms|
    ensures IsDropping(ms, n, at)
  {
    if n == 0 {
      at := [];
      NothingDropped(ms);
    } else {
      at := DroppingIsExact(ms, n - 1);
      at := DroppingStep(ms, n - 1, at);
    }
  }

  // ---- Inserting results for calls that have none ----

  /** A call to backfill: which message makes it, its place in that message's list, its id and its name. */
  datatype Missing = Missing(at: nat, call: nat, id: string, name: Name)

  /** `func.get("name", "")`, or "" when the call has no function dictionary. */
  function FillerName(c: Call): Name
    requires c.Call?
  {
    if c.fn.Callee? && !c.fn.name.NoName? then c.fn.name else Named("")
  }

  /** Calls of one message with an id, up to position `k` of its list. */
  function CallsOf(at: nat, calls: seq<Call>, k: nat): seq<Missing>
    requires k <= |calls|
  {
    if k == 0 then []
    else
      CallsOf(at, calls, k - 1)
      + if calls[k - 1].Call? && calls[k - 1].id != ""
        then [Missing(at, k - 1, calls[k - 1].id, FillerName(calls[k - 1]))] else []
  }

  function Declarations(ms: seq<Msg>, n: nat): seq<Missing>
    requires n <= |ms|
  {
    if n == 0 then []
    else
      Declarations(ms, n - 1)
      + if ms[n - 1].role.Assistant? then CallsOf(n - 1, ms[n - 1].calls, |ms[n - 1].calls|) else []
  }

  function FulfilledUpTo(ms: seq<Msg>, n: nat): set<string>
    requires n <= |ms|
  {
    if n == 0 then {}
    else
      FulfilledUpTo(ms, n - 1)
      + if ms[n - 1].role.Tool? && ms[n - 1].toolCallId != "" then {ms[n - 1].toolCallId} else {}
  }

  function Unfulfilled(calls: seq<Missing>, fulfilled: set<string>, n: nat): seq<Missing>
    requires n <= |calls|
  {
    if n == 0 then []
    else
      Unfulfilled(calls, fulfilled, n - 1)
      + if calls[n - 1].id in fulfilled then [] else [calls[n - 1]]
  }

  function MissingCalls(ms: seq<Msg>): seq<Missing> {
    var declared := Declarations(ms, |ms|);
    Unfulfilled(declared, FulfilledUpTo(ms, |ms|), |declared|)
  }

  function FillerMessage(c: Missing): Msg {
    Msg(Tool, Text(BACKFILL_CONTENT), [], c.id, c.name, "", map[])
  }

  /** An output position: a message of the input, or an inserted result. */
  datatype Slot = Original(index: nat) | Filler(call: Missing)

  /** The last position before `n` that does not hold a tool message, or -1. */
  function Head(ms: seq<Msg>, n: nat): (h: int)
    requires n <= |ms|
    ensures -1 <= h < n
    ensures h >= 0 ==> !ms[h].role.Tool?
    ensures forall i :: h < i < n ==> ms[i].role.Tool?
  {
    if n == 0 then -1 else if ms[n - 1].role.Tool? then Head(ms, n - 1) else n - 1
  }

  /** A run of tool messages cannot be extended at `n`. */
  predicate BlockEnds(ms: seq<Msg>, n: nat)
    requires n <= |ms|
  {
    n == |ms| || !ms[n].role.Tool?
  }

  function FillersOf(missing: seq<Missing>, at: int): seq<Slot> {
    if missing == [] then []
    else
      FillersOf(missing[..|missing| - 1], at)
      + if missing[|missing| - 1].at == at then [Filler(missing[|missing| - 1])] else []
  }

  function FillersAt(ms: seq<Msg>, n: nat, missing: seq<Missing>): seq<Slot>
    requires n <= |ms|
  {
    if BlockEnds(ms, n) then FillersOf(missing, Head(ms, n)) else []
  }

  /**
   * Where everything goes: the messages in order, and at the end of the tool block behind
   * an assistant message the results that message lacks.
   */
  function Layout(ms: seq<Msg>, n: nat, missing: seq<Missing>): seq<Slot>
    requires n <= |ms|
  {
    if n == 0 then []
    else Layout(ms, n - 1, missing) + [Original(n - 1)] + FillersAt(ms, n, missing)
  }

  function RenderSlot(ms: seq<Msg>, s: Slot): Msg {
    match s
    case Original(i) => if i < |ms| then ms[i] else Msg(OtherRole, NoContent, [], "", NoName, "", map[])
    case Filler(c) => FillerMessage(c)
  }

  function Render(ms: seq<Msg>, slots: seq<Slot>): (out: seq<Msg>)
    ensures |out| == |slots|
    ensures forall k :: 0 <= k < |slots| ==> out[k] == RenderSlot(ms, slots[k])
  {
    seq(|slots|, k requires 0 <= k < |slots| => RenderSlot(ms, slots[k]))
  }

  function BackfillLayout(ms: seq<Msg>): seq<Slot> {
    Layout(ms, |ms|, MissingCalls(ms))
  }

  function Backfilled(ms: seq<Msg>): seq<Msg> {
    Render(ms, BackfillLayout(ms))
  }

  // ---- The missing calls are the declared, unanswered ones, in order ----

  predicate CallIn(m: Msg, c: Missing) {
    m.role.Assistant? && c.call < |m.calls| && IsCall(m.calls[c.call], c)
  }

  predicate IsCall(call: Call, c: Missing) {
    call.Call? && call.id != "" && call.id == c.id && FillerName(call) == c.name
  }

  lemma {:induction false} CallsOfMeaning(at: nat, calls: seq<Call>, k: nat, c: Missing)
    requires k <= |calls|
    ensures c in CallsOf(at, calls, k) <==>
            c.at == at && c.call < k && IsCall(calls[c.call], c)
  {
    if k > 0 {
      CallsOfMeaning(at, calls, k - 1, c);
    }
  }

  lemma {:induction false} DeclarationsMeaning(ms: seq<Msg>, n: nat, c: Missing)
    requires n <= |ms|
    ensures c in Declarations(ms, n) <==> c.at < n && CallIn(ms[c.at], c)
  {
    if n > 0 {
      DeclarationsMeaning(ms, n - 1, c);
      CallsOfMeaning(n - 1, ms[n - 1].calls, |ms[n - 1].calls|, c);
      assert c in Declarations(ms, n) <==>
               || c in Declarations(ms, n - 1)
               || (ms[n - 1].role.Assistant? && c in CallsOf(n - 1, ms[n - 1].calls, |ms[n - 1].calls|));
    }
  }

  lemma {:induction false} FulfilledMeaning(ms: seq<Msg>, n: nat, id: string)
    requires n <= |ms|
    ensures id in FulfilledUpTo(ms, n) <==> exists i :: 0 <= i < n && IsResult(ms[i], id)
  {
    if n > 0 {
      FulfilledMeaning(ms, n - 1, id);
    }
  }

  lemma {:induction false} UnfulfilledMeaning(calls: seq<Missing>, fulfilled: set<string>, n: nat, c: Missing)
    requires n <= |calls|
    ensures c in Unfulfilled(calls, fulfilled, n) <==> c in calls[..n] && c.id !in fulfilled
  {
    if n > 0 {
      UnfulfilledMeaning(calls, fulfilled, n - 1, c);
      assert calls[..n] == calls[..n - 1] + [calls[n - 1]];
    }
  }

  /** A call is backfilled exactly when it is declared with an id that no result carries. */
  lemma MissingCallsMeaning(ms: seq<Msg>, c: Missing)
    ensures c in MissingCalls(ms) <==>
            && c.at < |ms| && CallIn(ms[c.at], c)
            && !exists i :: 0 <= i < |ms| && IsResult(ms[i], c.id)
  {
    var declared := Declarations(ms, |ms|);
    DeclarationsMeaning(ms, |ms|, c);
    FulfilledMeaning(ms, |ms|, c.id);
    UnfulfilledMeaning(declared, FulfilledUpTo(ms, |ms|), |declared|, c);
    assert declared[..|declared|] == declared;
  }

  /** The order of the messages, and in one message that of its calls. */
  ghost predicate Ordered(missing: seq<Missing>) {
    forall i, j :: 0 <= i < j < |missing| ==>
      missing[i].at < missing[j].at || (missing[i].at == missing[j].at && missing[i].call < missing[j].call)
  }

  lemma {:induction false} CallsOrdered(at: nat, calls: seq<Call>, k: nat)
    requires k <= |calls|
    ensures Ordered(CallsOf(at, calls, k))
  {
    if k > 0 {
      CallsOrdered(at, calls, k - 1);
      forall c | c in CallsOf(at, calls, k - 1) ensures c.at == at && c.call < k - 1 {
        CallsOfMeaning(at, calls, k - 1, c);
      }
    }
  }

  lemma DeclaredBelow(ms: seq<Msg>, n: nat)
    requires n <= |ms|
    ensures forall c :: c in Declarations(ms, n) ==> c.at < n
  {
    forall c | c in Declarations(ms, n) ensures c.at < n {
      DeclarationsMeaning(ms, n, c);
    }
  }

  lemma CallsAt(at: nat, calls: seq<Call>)
    ensures Ordered(CallsOf(at, calls, |calls|)) && forall c :: c in CallsOf(at, calls, |calls|) ==> c.at == at
  {
    CallsOrdered(at, calls, |calls|);
    forall c | c in CallsOf(at, calls, |calls|) ensures c.at == at {
      CallsOfMeaning(at, calls, |calls|, c);
    }
  }

  lemma {:induction false} DeclarationsOrdered(ms: seq<Msg>, n: nat)
    requires n <= |ms|
    ensures Ordered(Declarations(ms, n))
  {
    if n > 0 {
      DeclarationsOrdered(ms, n - 1);
      DeclaredBelow(ms, n - 1);
      CallsAt(n - 1, ms[n - 1].calls);
      OrderedAppend(Declarations(ms, n - 1), CallsOf(n - 1, ms[n - 1].calls, |ms[n - 1].calls|), n - 1);
    }
  }

  lemma OrderedAppend(front: seq<Missing>, more: seq<Missing>, at: nat)
    requires Ordered(front) && (forall c :: c in front ==> c.at < at)
    requires Ordered(more) && forall c :: c in more ==> c.at == at
    ensures Ordered(front + more)
  {
    assert forall k :: 0 <= k < |front| ==> front[k] in front;
    assert forall k :: 0 <= k < |more| ==> more[k] in more;
  }

  predicate IsBefore(c: Missing, d: Missing) {
    c.at < d.at || (c.at == d.at && c.call < d.call)
  }

  lemma OrderedOneMore(front: seq<Missing>, c: Missing)
    requires Ordered(front) && forall d :: d in front ==> IsBefore(d, c)
    ensures Ordered(front + [c])
  {
    assert forall k :: 0 <= k < |front| ==> front[k] in front;
  }

  lemma UnfulfilledPrecede(calls: seq<Missing>, fulfilled: set<string>, n: nat, c: Missing)
    requires n < |calls| && Ordered(calls) && c in Unfulfilled(calls, fulfilled, n)
    ensures IsBefore(c, calls[n])
  {
    UnfulfilledMeaning(calls, fulfilled, n, c);
    var j :| 0 <= j < n && calls[..n][j] == c;
    assert calls[j] == c;
  }

  lemma {:induction false} UnfulfilledOrdered(calls: seq<Missing>, fulfilled: set<string>, n: nat)
    requires n <= |calls| && Ordered(calls)
    ensures Ordered(Unfulfilled(calls, fulfilled, n))
  {
    if n > 0 {
      UnfulfilledOrdered(calls, fulfilled, n - 1);
      var front, last := Unfulfilled(calls, fulfilled, n - 1), calls[n - 1];
      forall c | c in front ensures IsBefore(c, last) {
        UnfulfilledPrecede(calls, fulfilled, n - 1, c);
      }
      OrderedOneMore(front, last);
    }
  }

  /** What the insertion loop needs to know about the list it walks. */
  ghost predicate Fits(ms: seq<Msg>, missing: seq<Missing>) {
    && Ordered(missing)
    && forall c :: c in missing ==> c.at < |ms| && ms[c.at].role.Assistant?
  }

  lemma MissingCallsFit(ms: seq<Msg>)
    ensures Fits(ms, MissingCalls(ms))
  {
    DeclarationsOrdered(ms, |ms|);
    var declared := Declarations(ms, |ms|);
    UnfulfilledOrdered(declared, FulfilledUpTo(ms, |ms|), |declared|);
    forall c | c in MissingCalls(ms) ensures c.at < |ms| && ms[c.at].role.Assistant? {
      MissingCallsMeaning(ms, c);
    }
  }

  // ---- One insertion at the scanned position extends the layout by one filler ----

  function BlockEnd(ms: seq<Msg>, n: nat): (e: nat)
    requires n <= |ms|
    ensures n <= e <= |ms| && BlockEnds(ms, e)
    ensures forall i :: n <= i < e ==> ms[i].role.Tool?
    decreases |ms| - n
  {
    if BlockEnds(ms, n) then n else BlockEnd(ms, n + 1)
  }

  lemma {:induction false} NoFillersElsewhere(missing: seq<Missing>, at: int)
    requires forall c :: c in missing ==> c.at != at
    ensures FillersOf(missing, at) == []
  {
    if missing != [] {
      NoFillersElsewhere(missing[..|missing| - 1], at);
    }
  }

  /** Behind the last filled block the layout is the rest of the input. */
  lemma {:induction false} LayoutTail(ms: seq<Msg>, e: nat, n: nat, missing: seq<Missing>)
    requires e <= n <= |ms| && BlockEnds(ms, e)
    requires forall c :: c in missing ==> c.at < e
    ensures Layout(ms, n, missing) == Layout(ms, e, missing) + Originals(e, n)
  {
    if n > e {
      LayoutTail(ms, e, n - 1, missing);
      NoFillersElsewhere(missing, Head(ms, n));
    }
  }

  function Originals(lo: nat, hi: nat): (s: seq<Slot>)
    requires lo <= hi
    ensures |s| == hi - lo
    ensures forall k :: 0 <= k < |s| ==> s[k] == Original(lo + k)
  {
    seq(hi - lo, k requires 0 <= k < hi - lo => Original(lo + k))
  }

  /** Inside a tool block nothing is inserted. */
  lemma {:induction false} LayoutInsideBlock(ms: seq<Msg>, a: nat, n: nat, missing: seq<Missing>)
    requires a < n <= |ms| && !ms[a].role.Tool?
    requires forall i :: a < i < n ==> ms[i].role.Tool?
    ensures Layout(ms, n, missing)
         == Layout(ms, a, missing) + [Original(a)] + Originals(a + 1, n) + FillersAt(ms, n, missing)
  {
    if n > a + 1 {
      LayoutInsideBlock(ms, a, n - 1, missing);
    }
  }

  /** Adding a call of message `a` changes nothing before the end of `a`'s block. */
  lemma {:induction false} LayoutBeforeUnchanged(ms: seq<Msg>, n: nat, missing: seq<Missing>, c: Missing)
    requires n <= c.at < |ms|
    ensures Layout(ms, n, missing + [c]) == Layout(ms, n, missing)
  {
    if n > 0 {
      LayoutBeforeUnchanged(ms, n - 1, missing, c);
      FillersAtUnchanged(ms, n, missing, c);
    }
  }

  lemma FillersOfOthers(missing: seq<Missing>, c: Missing, at: int)
    requires at != c.at
    ensures FillersOf(missing + [c], at) == FillersOf(missing, at)
  {
    assert (missing + [c])[..|missing|] == missing;
  }

  lemma FillersAtUnchanged(ms: seq<Msg>, n: nat, missing: seq<Missing>, c: Missing)
    requires n <= c.at < |ms|
    ensures FillersAt(ms, n, missing + [c]) == FillersAt(ms, n, missing)
  {
    FillersOfOthers(missing, c, Head(ms, n));
  }

  lemma FillersOfOneMore(missing: seq<Missing>, c: Missing)
    ensures FillersOf(missing + [c], c.at) == FillersOf(missing, c.at) + [Filler(c)]
  {
    assert (missing + [c])[..|missing|] == missing;
  }

  /** The layout up to the end of a block. */
  lemma BlockLayoutOf(ms: seq<Msg>, a: nat, e: nat, missing: seq<Missing>)
    requires a < e <= |ms| && BlockEnds(ms, e)
    requires ms[a].role.Assistant? && forall i :: a < i < e ==> ms[i].role.Tool?
    ensures Layout(ms, e, missing) == Layout(ms, a, missing) + [Original(a)] + BlockSlots(a, e, missing)
  {
    LayoutInsideBlock(ms, a, e, missing);
    FillersAtBlockEnd(ms, a, e, missing);
    Associate(Layout(ms, a, missing) + [Original(a)], Originals(a + 1, e), FillersOf(missing, a));
  }

  lemma FillersAtBlockEnd(ms: seq<Msg>, a: nat, e: nat, missing: seq<Missing>)
    requires a < e <= |ms| && BlockEnds(ms, e)
    requires ms[a].role.Assistant? && forall i :: a < i < e ==> ms[i].role.Tool?
    ensures FillersAt(ms, e, missing) == FillersOf(missing, a)
  {
    assert Head(ms, e) == a;
  }

  lemma Associate<T>(a: seq<T>, b: seq<T>, c: seq<T>)
    ensures a + b + c == a + (b + c)
  {
  }

  /** A result for `c` goes to the end of `c`'s block. */
  lemma BlockLayout(ms: seq<Msg>, e: nat, missing: seq<Missing>, c: Missing)
    requires c.at < e <= |ms| && BlockEnds(ms, e)
    requires ms[c.at].role.Assistant? && forall i :: c.at < i < e ==> ms[i].role.Tool?
    ensures Layout(ms, e, missing + [c]) == Layout(ms, e, missing) + [Filler(c)]
  {
    BlockLayoutOf(ms, c.at, e, missing);
    BlockLayoutOf(ms, c.at, e, missing + [c]);
    LayoutBeforeUnchanged(ms, c.at, missing, c);
    SlotsOfOneMore(e, missing, c);
    Associate(Layout(ms, c.at, missing) + [Original(c.at)], BlockSlots(c.at, e, missing), [Filler(c)]);
  }

  lemma SlotsOfOneMore(e: nat, missing: seq<Missing>, c: Missing)
    requires c.at < e
    ensures BlockSlots(c.at, e, missing + [c]) == BlockSlots(c.at, e, missing) + [Filler(c)]
  {
    FillersOfOneMore(missing, c);
    Associate(Originals(c.at + 1, e), FillersOf(missing, c.at), [Filler(c)]);
  }

  function BlockSlots(a: nat, e: nat, missing: seq<Missing>): seq<Slot>
    requires a < e
  {
    Originals(a + 1, e) + FillersOf(missing, a)
  }

  lemma LastIsBehind(ms: seq<Msg>, missing: seq<Missing>, c: Missing)
    requires Fits(ms, missing + [c])
    ensures c.at < |ms| && ms[c.at].role.Assistant? && forall d :: d in missing + [c] ==> d.at <= c.at
  {
    assert (missing + [c])[|missing|] == c;
  }

  lemma LayoutAroundBlockEnd(ms: seq<Msg>, missing: seq<Missing>, c: Missing)
    requires Fits(ms, missing + [c])
    ensures var e := BlockEnd(ms, c.at + 1);
            var head := Layout(ms, e, missing);
            && Layout(ms, |ms|, missing) == head + Originals(e, |ms|)
            && Layout(ms, |ms|, missing + [c]) == head + [Filler(c)] + Originals(e, |ms|)
  {
    LastIsBehind(ms, missing, c);
    var e, more := BlockEnd(ms, c.at + 1), missing + [c];
    BlockLayout(ms, e, missing, c);
    LayoutTail(ms, e, |ms|, missing);
    LayoutTail(ms, e, |ms|, more);
  }

  /**
   * The offset arithmetic: with `k` results in place, the scan starts at `a + 1 + k` and sees
   * only tool messages up to `e + k`.
   */
  lemma ScanSeesTools(ms: seq<Msg>, missing: seq<Missing>, c: Missing, q: nat)
    requires Fits(ms, missing + [c])
    requires |Layout(ms, |ms|, missing)| == |ms| + |missing|
    requires c.at + 1 + |missing| <= q < BlockEnd(ms, c.at + 1) + |missing|
    ensures q < |Layout(ms, |ms|, missing)| && RenderSlot(ms, Layout(ms, |ms|, missing)[q]).role.Tool?
  {
    var e := BlockEnd(ms, c.at + 1);
    LayoutAroundBlockEnd(ms, missing, c);
    assert (missing + [c])[|missing|] == c;
    BlockLayoutOf(ms, c.at, e, missing);
    BlockIsTools(ms, c.at, e, missing);
    LiesInMiddle(Layout(ms, |ms|, missing), Layout(ms, c.at, missing) + [Original(c.at)], BlockSlots(c.at, e, missing),
      Originals(e, |ms|), q);
  }

  lemma LiesInMiddle<T>(all: seq<T>, front: seq<T>, middle: seq<T>, rest: seq<T>, q: nat)
    requires all == front + middle + rest && |front| <= q < |front| + |middle|
    ensures all[q] in middle
  {
    assert all[q] == middle[q - |front|];
  }

  /** `after` is `before` with `x` put in at `p`. */
  predicate IsInsertion<T(==)>(before: seq<T>, after: seq<T>, p: nat, x: T)
    requires p <= |before|
  {
    && |after| == |before| + 1 && after[p] == x
    && (forall i :: 0 <= i < p ==> after[i] == before[i])
    && forall i :: p < i < |after| ==> after[i] == before[i - 1]
  }

  lemma PutBetween<T>(head: seq<T>, rest: seq<T>, x: T)
    ensures IsInsertion(head + rest, head + [x] + rest, |head|, x)
  {
  }

  lemma InsertionMeaning<T>(before: seq<T>, after: seq<T>, p: nat, x: T)
    requires p <= |before| && IsInsertion(before, after, p, x)
    ensures after == before[..p] + [x] + before[p..]
  {
  }

  /** The scan stops at `e + k`, and inserting there is the next layout. */
  lemma InsertStep(ms: seq<Msg>, missing: seq<Missing>, c: Missing)
    requires Fits(ms, missing + [c])
    requires |Layout(ms, |ms|, missing)| == |ms| + |missing|
    ensures var e := BlockEnd(ms, c.at + 1);
            var before, after := Layout(ms, |ms|, missing), Layout(ms, |ms|, missing + [c]);
            var p := e + |missing|;
            && c.at + 1 <= e && p <= |before|
            && IsInsertion(before, after, p, Filler(c))
            && (p < |before| ==> !RenderSlot(ms, before[p]).role.Tool?)
  {
    var e := BlockEnd(ms, c.at + 1);
    var before, head := Layout(ms, |ms|, missing), Layout(ms, e, missing);
    LastIsBehind(ms, missing, c);
    LayoutAroundBlockEnd(ms, missing, c);
    assert |head| == e + |missing|;
    PutBetween(head, Originals(e, |ms|), Filler(c));
    if |head| < |before| {
      assert before[|head|] == Original(e);
    }
  }

  /** A scan from `start` passes tool messages only and stops at `p`. */
  predicate StopsAt(list: seq<Msg>, start: nat, p: nat) {
    && start <= p <= |list| && (p < |list| ==> !list[p].role.Tool?)
    && forall q :: start <= q < p ==> list[q].role.Tool?
  }

  /** A scan that passes tool messages only and stops at the first other slot stops at `e + k`. */
  lemma ScanStops(ms: seq<Msg>, missing: seq<Missing>, c: Missing, p: nat)
    requires Fits(ms, missing + [c])
    requires |Layout(ms, |ms|, missing)| == |ms| + |missing|
    requires StopsAt(Render(ms, Layout(ms, |ms|, missing)), c.at + 1 + |missing|, p)
    ensures p == BlockEnd(ms, c.at + 1) + |missing|
  {
    var slots, stop := Layout(ms, |ms|, missing), BlockEnd(ms, c.at + 1) + |missing|;
    InsertStep(ms, missing, c);
    assert forall q :: 0 <= q < |slots| ==> Render(ms, slots)[q] == RenderSlot(ms, slots[q]);
    if p < stop {
      ScanSeesTools(ms, missing, c, p);
    }
  }

  /** The list after the first `k` insertions. */
  function BackfilledUpTo(ms: seq<Msg>, missing: seq<Missing>, k: nat): seq<Msg>
    requires k <= |missing|
  {
    Render(ms, Layout(ms, |ms|, missing[..k]))
  }

  lemma InsertionIsNextBackfill(ms: seq<Msg>, missing: seq<Missing>, k: nat, p: nat)
    requires Fits(ms, missing) && k < |missing|
    requires |BackfilledUpTo(ms, missing, k)| == |ms| + k
    requires StopsAt(BackfilledUpTo(ms, missing, k), missing[k].at + 1 + k, p)
    ensures var now := BackfilledUpTo(ms, missing, k);
            BackfilledUpTo(ms, missing, k + 1) == now[..p] + [FillerMessage(missing[k])] + now[p..]
  {
    assert missing[..k + 1] == missing[..k] + [missing[k]];
    assert Fits(ms, missing[..k + 1]);
    ScanInsertsNext(ms, missing[..k], missing[k], p);
    InsertionMeaning(BackfilledUpTo(ms, missing, k), BackfilledUpTo(ms, missing, k + 1), p, FillerMessage(missing[k]));
  }

  lemma ScanInsertsNext(ms: seq<Msg>, done: seq<Missing>, c: Missing, p: nat)
    requires Fits(ms, done + [c])
    requires |Layout(ms, |ms|, done)| == |ms| + |done|
    requires StopsAt(Render(ms, Layout(ms, |ms|, done)), c.at + 1 + |done|, p)
    ensures IsInsertion(Render(ms, Layout(ms, |ms|, done)), Render(ms, Layout(ms, |ms|, done + [c])), p,
            FillerMessage(c))
  {
    ScanStops(ms, done, c, p);
    InsertAtBlockEnd(ms, done, c, p);
  }

  lemma InsertAtBlockEnd(ms: seq<Msg>, done: seq<Missing>, c: Missing, p: nat)
    requires Fits(ms, done + [c]) && |Layout(ms, |ms|, done)| == |ms| + |done|
    requires p == BlockEnd(ms, c.at + 1) + |done| && p <= |ms| + |done|
    ensures IsInsertion(Render(ms, Layout(ms, |ms|, done)), Render(ms, Layout(ms, |ms|, done + [c])), p,
            FillerMessage(c))
  {
    InsertStep(ms, done, c);
    RenderInserted(ms, Layout(ms, |ms|, done), Layout(ms, |ms|, done + [c]), p, c);
  }

  lemma RenderInserted(ms: seq<Msg>, before: seq<Slot>, after: seq<Slot>, p: nat, c: Missing)
    requires p <= |before| && IsInsertion(before, after, p, Filler(c))
    ensures IsInsertion(Render(ms, before), Render(ms, after), p, FillerMessage(c))
  {
  }

  /** Everything behind message `a` up to the end of its block is a tool message. */
  lemma BlockIsTools(ms: seq<Msg>, a: nat, e: nat, missing: seq<Missing>)
    requires a < e <= |ms|
    requires forall i :: a < i < e ==> ms[i].role.Tool?
    ensures forall s :: s in BlockSlots(a, e, missing) ==> RenderSlot(ms, s).role.Tool?
  {
    FillersAreTools(missing, a);
  }

  lemma {:induction false} FillersAreTools(missing: seq<Missing>, at: int)
    ensures forall s :: s in FillersOf(missing, at) ==> s.Filler? && s.call in missing && s.call.at == at
  {
    if missing != [] {
      FillersAreTools(missing[..|missing| - 1], at);
    }
  }

  lemma {:induction false} FillersComplete(missing: seq<Missing>, c: Missing)
    requires c in missing
    ensures Filler(c) in FillersOf(missing, c.at)
  {
    if missing[|missing| - 1] != c {
      FillersComplete(missing[..|missing| - 1], c);
    }
  }

  // ---- What a layout guarantees ----

  /** Position of an input message in the layout. */
  function Position(ms: seq<Msg>, i: nat, missing: seq<Missing>): nat
    requires i < |ms|
  {
    |Layout(ms, i, missing)|
  }

  lemma {:induction false} LayoutPrefix(ms: seq<Msg>, i: nat, n: nat, missing: seq<Missing>)
    requires i <= n <= |ms|
    ensures Layout(ms, i, missing) <= Layout(ms, n, missing)
  {
    if i < n {
      LayoutPrefix(ms, i, n - 1, missing);
    }
  }

  lemma PositionHoldsMessage(ms: seq<Msg>, i: nat, missing: seq<Missing>)
    requires i < |ms|
    ensures var slots := Layout(ms, |ms|, missing);
            Position(ms, i, missing) < |slots| && slots[Position(ms, i, missing)] == Original(i)
  {
    LayoutPrefix(ms, i + 1, |ms|, missing);
  }

  lemma PositionsIncrease(ms: seq<Msg>, i: nat, j: nat, missing: seq<Missing>)
    requires i < j < |ms|
    ensures Position(ms, i, missing) < Position(ms, j, missing)
  {
    LayoutPrefix(ms, i + 1, j, missing);
  }

  lemma {:induction false} OriginalsStayInPlace(ms: seq<Msg>, n: nat, missing: seq<Missing>, p: nat)
    requires n <= |ms| && p < |Layout(ms, n, missing)| && Layout(ms, n, missing)[p].Original?
    ensures var i := Layout(ms, n, missing)[p].index; i < n && p == Position(ms, i, missing)
  {
    var before, slots := Layout(ms, n - 1, missing), Layout(ms, n, missing);
    FillersAreTools(missing, Head(ms, n));
    assert forall r :: |before| < r < |slots| ==> slots[r] in FillersAt(ms, n, missing);
    if p < |before| {
      OriginalsStayInPlace(ms, n - 1, missing, p);
    }
  }

  /** An inserted result sits in the unbroken tool block right behind its declaring message. */
  ghost predicate BehindItsCall(ms: seq<Msg>, slots: seq<Slot>, p: nat)
    requires p < |slots| && slots[p].Filler?
  {
    exists q :: 0 <= q < p && slots[q] == Original(slots[p].call.at)
      && forall r :: q < r < p ==> RenderSlot(ms, slots[r]).role.Tool?
  }

  lemma {:induction false} FillersBehindTheirCalls(ms: seq<Msg>, n: nat, missing: seq<Missing>, p: nat)
    requires n <= |ms| && p < |Layout(ms, n, missing)| && Layout(ms, n, missing)[p].Filler?
    ensures BehindItsCall(ms, Layout(ms, n, missing), p)
    ensures Layout(ms, n, missing)[p].call in missing
  {
    var slots := Layout(ms, n, missing);
    var before := Layout(ms, n - 1, missing);
    if p < |before| {
      FillersBehindTheirCalls(ms, n - 1, missing, p);
      assert forall r :: 0 <= r < |before| ==> slots[r] == before[r];
      var q :| 0 <= q < p && before[q] == Original(before[p].call.at)
        && forall r :: q < r < p ==> RenderSlot(ms, before[r]).role.Tool?;
      assert slots[q] == Original(slots[p].call.at);
    } else {
      FillerBehindBlock(ms, n, missing, p);
    }
  }

  lemma FillerBehindBlock(ms: seq<Msg>, n: nat, missing: seq<Missing>, p: nat)
    requires 0 < n <= |ms| && |Layout(ms, n - 1, missing)| <= p < |Layout(ms, n, missing)|
    requires Layout(ms, n, missing)[p].Filler?
    ensures BehindItsCall(ms, Layout(ms, n, missing), p)
    ensures Layout(ms, n, missing)[p].call in missing
  {
    var slots := Layout(ms, n, missing);
    FillersAreTools(missing, Head(ms, n));
    assert slots[p] in FillersAt(ms, n, missing);
    var a := slots[p].call.at;
    assert Head(ms, n) == a;
    LayoutInsideBlock(ms, a, n, missing);
    var q := |Layout(ms, a, missing)|;
    assert slots[q] == Original(a);
    forall r | q < r < p ensures RenderSlot(ms, slots[r]).role.Tool? {
      if r <= q + (n - a - 1) {
        assert slots[r] == Original(a + (r - q));
      } else {
        assert slots[r] in FillersAt(ms, n, missing);
      }
    }
  }

  lemma EveryMissingCallIsFilled(ms: seq<Msg>, missing: seq<Missing>, c: Missing) returns (p: nat)
    requires Fits(ms, missing) && c in missing
    ensures var slots := Layout(ms, |ms|, missing);
            Position(ms, c.at, missing) < p < |slots| && slots[p] == Filler(c)
  {
    var a, e := c.at, BlockEnd(ms, c.at + 1);
    assert Head(ms, e) == a;
    LayoutInsideBlock(ms, a, e, missing);
    var block := Layout(ms, e, missing);
    FillersComplete(missing, c);
    var k :| 0 <= k < |FillersOf(missing, a)| && FillersOf(missing, a)[k] == Filler(c);
    p := |block| - |FillersOf(missing, a)| + k;
    assert block[p] == Filler(c);
    LayoutPrefix(ms, e, |ms|, missing);
  }

  /** The input messages among the slots. */
  function Kept(ms: seq<Msg>, slots: seq<Slot>): seq<Msg> {
    if slots == [] then []
    else
      var last := slots[|slots| - 1];
      Kept(ms, slots[..|slots| - 1]) + if last.Original? then [RenderSlot(ms, last)] else []
  }

  lemma {:induction false} KeptAppend(ms: seq<Msg>, a: seq<Slot>, fillers: seq<Slot>)
    requires forall s :: s in fillers ==> s.Filler?
    ensures Kept(ms, a + fillers) == Kept(ms, a)
  {
    if fillers == [] {
      assert a + fillers == a;
    } else {
      var most := fillers[..|fillers| - 1];
      KeptAppend(ms, a, most);
      assert (a + fillers)[..|a + fillers| - 1] == a + most;
      assert fillers[|fillers| - 1] in fillers;
    }
  }

  lemma KeptStep(ms: seq<Msg>, slots: seq<Slot>, i: nat)
    requires i < |ms|
    ensures Kept(ms, slots + [Original(i)]) == Kept(ms, slots) + [ms[i]]
  {
    assert (slots + [Original(i)])[..|slots|] == slots;
  }

  lemma FillersAtAreFillers(ms: seq<Msg>, n: nat, missing: seq<Missing>)
    requires n <= |ms|
    ensures forall s :: s in FillersAt(ms, n, missing) ==> s.Filler?
  {
    FillersAreTools(missing, Head(ms, n));
  }

  /** Deleting the inserted results gives the input back. */
  lemma {:induction false} DeletingFillersRestoresInput(ms: seq<Msg>, n: nat, missing: seq<Missing>)
    requires n <= |ms|
    ensures Kept(ms, Layout(ms, n, missing)) == ms[..n]
  {
    if n == 0 {
      assert ms[..0] == [];
    } else {
      DeletingFillersRestoresInput(ms, n - 1, missing);
      OneMoreRestored(ms, n - 1, missing);
    }
  }

  lemma OneMoreRestored(ms: seq<Msg>, n: nat, missing: seq<Missing>)
    requires n < |ms| && Kept(ms, Layout(ms, n, missing)) == ms[..n]
    ensures Kept(ms, Layout(ms, n + 1, missing)) == ms[..n + 1]
  {
    KeptOfLayout(ms, n, missing);
    OneMoreInFront(ms, n);
  }

  lemma OneMoreInFront<T>(s: seq<T>, n: nat)
    requires n < |s|
    ensures s[..n + 1] == s[..n] + [s[n]]
  {
  }

  lemma KeptOfLayout(ms: seq<Msg>, n: nat, missing: seq<Missing>)
    requires n < |ms|
    ensures Kept(ms, Layout(ms, n + 1, missing)) == Kept(ms, Layout(ms, n, missing)) + [ms[n]]
  {
    var before := Layout(ms, n, missing);
    FillersAtAreFillers(ms, n + 1, missing);
    KeptAppend(ms, before + [Original(n)], FillersAt(ms, n + 1, missing));
    KeptStep(ms, before, n);
  }

  // ---- What backfilling does, in terms of the messages alone ----

  /** Call `k` of message `i` is made with an id that no result in the list carries. */
  ghost predicate IsOwed(ms: seq<Msg>, i: nat, k: nat) {
    && i < |ms| && ms[i].role.Assistant? && k < |ms[i].calls| && ms[i].calls[k].Call? && ms[i].calls[k].id != ""
    && forall r :: 0 <= r < |ms| && ms[r].role.Tool? ==> ms[r].toolCallId != ms[i].calls[k].id
  }

  lemma MissingIsOwed(ms: seq<Msg>, c: Missing)
    ensures c in MissingCalls(ms) <==>
              && IsOwed(ms, c.at, c.call) && c.id == ms[c.at].calls[c.call].id
              && c.name == FillerName(ms[c.at].calls[c.call])
  {
    MissingCallsMeaning(ms, c);
    if c.at < |ms| && CallIn(ms[c.at], c) && forall i :: 0 <= i < |ms| ==> !IsResult(ms[i], c.id) {
      assert IsOwed(ms, c.at, c.call);
    }
  }

  /**
   * The order of the output: messages in theirs, results in that of their calls, and a result behind
   * its calling message and the tool messages that follow it, before anything else.
   */
  ghost predicate Precedes(ms: seq<Msg>, a: Slot, b: Slot) {
    match (a, b)
    case (Original(i), Original(j)) => i < j
    case (Filler(c), Filler(d)) => c.at < d.at || (c.at == d.at && c.call < d.call)
    case (Original(j), Filler(c)) => forall r :: c.at < r <= j ==> r < |ms| && ms[r].role.Tool?
    case (Filler(c), Original(j)) => exists r :: c.at < r <= j && r < |ms| && !ms[r].role.Tool?
  }

  ghost predicate InOrder(ms: seq<Msg>, slots: seq<Slot>) {
    forall p, q :: 0 <= p < q < |slots| ==> Precedes(ms, slots[p], slots[q])
  }

  lemma InOrderAppend(ms: seq<Msg>, a: seq<Slot>, b: seq<Slot>)
    requires InOrder(ms, a) && InOrder(ms, b)
    requires forall s, t :: s in a && t in b ==> Precedes(ms, s, t)
    ensures InOrder(ms, a + b)
  {
    forall p, q | 0 <= p < q < |a + b| ensures Precedes(ms, (a + b)[p], (a + b)[q]) {
      if p < |a| && q >= |a| {
        assert a[p] in a && b[q - |a|] in b;
      }
    }
  }

  lemma {:induction false} FillersInOrder(ms: seq<Msg>, missing: seq<Missing>, at: int)
    requires Ordered(missing)
    ensures InOrder(ms, FillersOf(missing, at))
  {
    if missing != [] {
      var front, last := missing[..|missing| - 1], missing[|missing| - 1];
      FillersInOrder(ms, front, at);
      FillersAreTools(front, at);
      forall s | s in FillersOf(front, at) && last.at == at ensures Precedes(ms, s, Filler(last)) {
        var i :| 0 <= i < |front| && front[i] == s.call;
      }
      InOrderAppend(ms, FillersOf(front, at), if last.at == at then [Filler(last)] else []);
    }
  }

  /** What stands in the layout of the first `n` messages: those, and results of blocks that end there. */
  ghost predicate Covers(ms: seq<Msg>, n: nat, s: Slot) {
    match s
    case Original(i) => i < n
    case Filler(c) => c.at < n && (n < |ms| ==> exists r :: c.at < r <= n && !ms[r].role.Tool?)
  }

  lemma {:induction false} LayoutInOrder(ms: seq<Msg>, n: nat, missing: seq<Missing>)
    requires n <= |ms| && Ordered(missing)
    ensures InOrder(ms, Layout(ms, n, missing))
    ensures forall s :: s in Layout(ms, n, missing) ==> Covers(ms, n, s)
  {
    if n > 0 {
      var before, fillers := Layout(ms, n - 1, missing), FillersAt(ms, n, missing);
      LayoutInOrder(ms, n - 1, missing);
      MessageFollows(ms, n, before);
      FillersInOrder(ms, missing, Head(ms, n));
      FillersFollow(ms, n, missing, before);
      InOrderAppend(ms, before + [Original(n - 1)], fillers);
    }
  }

  lemma MessageFollows(ms: seq<Msg>, n: nat, before: seq<Slot>)
    requires 0 < n <= |ms| && InOrder(ms, before) && forall s :: s in before ==> Covers(ms, n - 1, s)
    ensures InOrder(ms, before + [Original(n - 1)])
    ensures forall s :: s in before + [Original(n - 1)] ==> Covers(ms, n, s)
  {
    forall s | s in before ensures Precedes(ms, s, Original(n - 1)) && Covers(ms, n, s) {
      assert Covers(ms, n - 1, s);
      if s.Filler? {
        var r :| s.call.at < r <= n - 1 && !ms[r].role.Tool?;
      }
    }
    InOrderAppend(ms, before, [Original(n - 1)]);
  }

  lemma FillersFollow(ms: seq<Msg>, n: nat, missing: seq<Missing>, before: seq<Slot>)
    requires 0 < n <= |ms| && forall s :: s in before ==> Covers(ms, n - 1, s)
    ensures forall s, f :: s in before + [Original(n - 1)] && f in FillersAt(ms, n, missing) ==> Precedes(ms, s, f)
    ensures forall f :: f in FillersAt(ms, n, missing) ==> Covers(ms, n, f)
  {
    var h := Head(ms, n);
    FillersAreTools(missing, h);
    forall s, f | s in before + [Original(n - 1)] && f in FillersAt(ms, n, missing) ensures Precedes(ms, s, f) {
      if s.Filler? {
        assert Covers(ms, n - 1, s);
        var r :| s.call.at < r <= n - 1 && !ms[r].role.Tool?;
      }
    }
  }

  /**
   * `slots` says where each message of `out` comes from: every message of the input is there once and
   * unchanged, every call that is owed a result gets one result, nothing else is there, and the order
   * leaves no choice.
   */
  ghost predicate IsBackfill(ms: seq<Msg>, out: seq<Msg>, slots: seq<Slot>) {
    && |slots| == |out| && InOrder(ms, slots)
    && (forall p :: 0 <= p < |out| ==>
          match slots[p]
          case Original(i) => i < |ms| && out[p] == ms[i]
          case Filler(c) => IsOwed(ms, c.at, c.call) && IsErrorResult(ms[c.at].calls[c.call], out[p]))
    && (forall i :: 0 <= i < |ms| ==> exists p :: 0 <= p < |slots| && slots[p] == Original(i))
    && forall i: nat, k: nat :: IsOwed(ms, i, k) ==> exists p :: 0 <= p < |slots| && IsFor(slots[p], i, k)
  }

  predicate IsFor(s: Slot, i: nat, k: nat) {
    s.Filler? && s.call.at == i && s.call.call == k
  }

  /** The result put in for a call: an error text, under the call's id and the name of its function. */
  predicate IsErrorResult(c: Call, m: Msg) {
    && c.Call? && m.role.Tool? && m.toolCallId == c.id && m.calls == [] && m.reasoning == "" && m.extra == map[]
    && m.content == Text("[Tool result unavailable — call was interrupted or lost]")
    && m.name == if c.fn.NoCallee? || c.fn.name.NoName? then Named("") else c.fn.name
  }

  lemma BackfillIsExact(ms: seq<Msg>) returns (slots: seq<Slot>)
    ensures IsBackfill(ms, Backfilled(ms), slots)
  {
    var missing, out := MissingCalls(ms), Backfilled(ms);
    slots := BackfillLayout(ms);
    MissingCallsFit(ms);
    LayoutInOrder(ms, |ms|, missing);
    forall p | 0 <= p < |out|
      ensures match slots[p]
              case Original(i) => i < |ms| && out[p] == ms[i]
              case Filler(c) => IsOwed(ms, c.at, c.call) && IsErrorResult(ms[c.at].calls[c.call], out[p])
    {
      assert slots[p] in slots;
      if slots[p].Filler? {
        FillersBehindTheirCalls(ms, |ms|, missing, p);
        MissingIsOwed(ms, slots[p].call);
      }
    }
    forall i | 0 <= i < |ms| ensures exists p :: 0 <= p < |slots| && slots[p] == Original(i) {
      PositionHoldsMessage(ms, i, missing);
    }
    forall i: nat, k: nat | IsOwed(ms, i, k) ensures exists p :: 0 <= p < |slots| && IsFor(slots[p], i, k) {
      var c := Missing(i, k, ms[i].calls[k].id, FillerName(ms[i].calls[k]));
      MissingIsOwed(ms, c);
      var p := EveryMissingCallIsFilled(ms, missing, c);
    }
  }

  // ---- How many results each call gets ----

  /** How many results with the id there are. */
  function ResultsWith(ms: seq<Msg>, id: string): nat {
    if ms == [] then 0
    else
      var last := ms[|ms| - 1];
      ResultsWith(ms[..|ms| - 1], id) + if last.role.Tool? && last.toolCallId == id then 1 else 0
  }

  /** How many of the calls are made with the id. */
  function CallsAmong(calls: seq<Call>, id: string): nat {
    if calls == [] then 0
    else
      var last := calls[|calls| - 1];
      CallsAmong(calls[..|calls| - 1], id) + if last.Call? && last.id == id then 1 else 0
  }

  /** How many calls with the id the assistant messages make. */
  function CallsWith(ms: seq<Msg>, id: string): nat {
    if ms == [] then 0
    else
      var last := ms[|ms| - 1];
      CallsWith(ms[..|ms| - 1], id) + if last.role.Assistant? then CallsAmong(last.calls, id) else 0
  }

  function MissingWith(missing: seq<Missing>, id: string): nat {
    if missing == [] then 0
    else MissingWith(missing[..|missing| - 1], id) + if missing[|missing| - 1].id == id then 1 else 0
  }

  lemma {:induction false} ResultsOfBoth(a: seq<Msg>, b: seq<Msg>, id: string)
    ensures ResultsWith(a + b, id) == ResultsWith(a, id) + ResultsWith(b, id)
  {
    if b == [] {
      assert a + b == a;
    } else {
      assert (a + b)[..|a + b| - 1] == a + b[..|b| - 1];
      ResultsOfBoth(a, b[..|b| - 1], id);
    }
  }

  lemma ResultsOfOneMore(a: seq<Msg>, m: Msg, b: seq<Msg>, id: string)
    ensures ResultsWith(a + [m] + b, id) == ResultsWith(a + b, id) + if m.role.Tool? && m.toolCallId == id then 1 else 0
  {
    ResultsOfBoth(a, b, id);
    ResultsOfBoth(a + [m], b, id);
    assert (a + [m])[..|a|] == a;
  }

  lemma MissingOfOneMore(missing: seq<Missing>, c: Missing, id: string)
    ensures MissingWith(missing + [c], id) == MissingWith(missing, id) + if c.id == id then 1 else 0
    ensures MissingWith(missing + [], id) == MissingWith(missing, id)
  {
    assert (missing + [c])[..|missing|] == missing && missing + [] == missing;
  }

  lemma {:induction false} MissingOfBoth(a: seq<Missing>, b: seq<Missing>, id: string)
    ensures MissingWith(a + b, id) == MissingWith(a, id) + MissingWith(b, id)
  {
    if b == [] {
      assert a + b == a;
    } else {
      assert (a + b)[..|a + b| - 1] == a + b[..|b| - 1];
      MissingOfBoth(a, b[..|b| - 1], id);
    }
  }

  lemma {:induction false} NoneMissing(missing: seq<Missing>, id: string)
    requires forall c :: c in missing ==> c.id != id
    ensures MissingWith(missing, id) == 0
  {
    if missing != [] {
      NoneMissing(missing[..|missing| - 1], id);
    }
  }

  lemma MissingUpTo(missing: seq<Missing>, k: nat, id: string)
    requires k < |missing|
    ensures MissingWith(missing[..k + 1], id) == MissingWith(missing[..k], id) + if missing[k].id == id then 1 else 0
  {
    assert missing[..k + 1] == missing[..k] + [missing[k]];
    MissingOfOneMore(missing[..k], missing[k], id);
  }

  lemma NothingInserted(ms: seq<Msg>, missing: seq<Missing>)
    ensures BackfilledUpTo(ms, missing, 0) == ms
  {
    LayoutWithoutMissing(ms, |ms|);
    assert missing[..0] == [];
  }

  /** Each insertion adds one result with its id. */
  lemma {:induction false} InsertionsAddResults(ms: seq<Msg>, missing: seq<Missing>, k: nat, id: string)
    requires Fits(ms, missing) && k <= |missing|
    ensures |BackfilledUpTo(ms, missing, k)| == |ms| + k
    ensures ResultsWith(BackfilledUpTo(ms, missing, k), id) == ResultsWith(ms, id) + MissingWith(missing[..k], id)
  {
    if k == 0 {
      NothingInserted(ms, missing);
      assert missing[..0] == [];
    } else {
      InsertionsAddResults(ms, missing, k - 1, id);
      InsertionAddsResult(ms, missing, k - 1, id);
      MissingUpTo(missing, k - 1, id);
    }
  }

  lemma InsertionAddsResult(ms: seq<Msg>, missing: seq<Missing>, k: nat, id: string)
    requires Fits(ms, missing) && k < |missing| && |BackfilledUpTo(ms, missing, k)| == |ms| + k
    ensures |BackfilledUpTo(ms, missing, k + 1)| == |ms| + k + 1
    ensures ResultsWith(BackfilledUpTo(ms, missing, k + 1), id)
            == ResultsWith(BackfilledUpTo(ms, missing, k), id) + if missing[k].id == id then 1 else 0
  {
    var before, after := BackfilledUpTo(ms, missing, k), BackfilledUpTo(ms, missing, k + 1);
    var p := NextInsertion(ms, missing, k);
    ResultsOfInsertion(before, after, p, FillerMessage(missing[k]), id);
  }

  lemma ResultsOfInsertion(before: seq<Msg>, after: seq<Msg>, p: nat, m: Msg, id: string)
    requires p <= |before| && after == before[..p] + [m] + before[p..]
    ensures |after| == |before| + 1
    ensures ResultsWith(after, id) == ResultsWith(before, id) + if m.role.Tool? && m.toolCallId == id then 1 else 0
  {
    ResultsOfOneMore(before[..p], m, before[p..], id);
    assert before == before[..p] + before[p..];
  }

  /** Where the next result goes. */
  lemma NextInsertion(ms: seq<Msg>, missing: seq<Missing>, k: nat) returns (p: nat)
    requires Fits(ms, missing) && k < |missing| && |BackfilledUpTo(ms, missing, k)| == |ms| + k
    ensures var now := BackfilledUpTo(ms, missing, k);
            p <= |now| && BackfilledUpTo(ms, missing, k + 1) == now[..p] + [FillerMessage(missing[k])] + now[p..]
  {
    var done, c := missing[..k], missing[k];
    FitsUpTo(ms, missing, k);
    assert c in missing;
    p := BlockEnd(ms, c.at + 1) + k;
    InsertAtBlockEnd(ms, done, c, p);
    InsertionMeaning(Render(ms, Layout(ms, |ms|, done)), Render(ms, Layout(ms, |ms|, done + [c])), p, FillerMessage(c));
    assert missing[..k + 1] == done + [c];
  }

  lemma FitsUpTo(ms: seq<Msg>, missing: seq<Missing>, k: nat)
    requires Fits(ms, missing) && k < |missing|
    ensures Fits(ms, missing[..k] + [missing[k]])
  {
    assert missing[..k + 1] == missing[..k] + [missing[k]];
  }

  lemma OneMoreAmong(calls: seq<Call>, k: nat, id: string)
    requires k < |calls|
    ensures CallsAmong(calls[..k + 1], id)
            == CallsAmong(calls[..k], id) + if calls[k].Call? && calls[k].id == id then 1 else 0
  {
    assert calls[..k + 1][..k] == calls[..k];
  }

  lemma OneMoreMissing(at: nat, calls: seq<Call>, k: nat, id: string)
    requires k < |calls| && id != ""
    ensures MissingWith(CallsOf(at, calls, k + 1), id)
            == MissingWith(CallsOf(at, calls, k), id) + if calls[k].Call? && calls[k].id == id then 1 else 0
  {
    var front, more := CallsOf(at, calls, k), CallsOf(at, calls, k + 1);
    if calls[k].Call? && calls[k].id != "" {
      var c := Missing(at, k, calls[k].id, FillerName(calls[k]));
      assert more == front + [c];
      MissingOfOneMore(front, c, id);
    } else {
      assert more == front;
    }
  }

  lemma {:induction false} MissingOfCalls(at: nat, calls: seq<Call>, k: nat, id: string)
    requires k <= |calls| && id != ""
    ensures MissingWith(CallsOf(at, calls, k), id) == CallsAmong(calls[..k], id)
  {
    if k == 0 {
      assert calls[..0] == [];
    } else {
      MissingOfCalls(at, calls, k - 1, id);
      OneMoreAmong(calls, k - 1, id);
      OneMoreMissing(at, calls, k - 1, id);
    }
  }

  lemma {:induction false} MissingOfDeclarations(ms: seq<Msg>, n: nat, id: string)
    requires n <= |ms| && id != ""
    ensures MissingWith(Declarations(ms, n), id) == CallsWith(ms[..n], id)
  {
    if n > 0 {
      var m := ms[n - 1];
      MissingOfDeclarations(ms, n - 1, id);
      MissingOfCalls(n - 1, m.calls, |m.calls|, id);
      assert ms[..n][..n - 1] == ms[..n - 1] && m.calls[..|m.calls|] == m.calls;
      MissingOfBoth(Declarations(ms, n - 1), if m.role.Assistant? then CallsOf(n - 1, m.calls, |m.calls|) else [], id);
    }
  }

  lemma OneMoreUnfulfilled(calls: seq<Missing>, fulfilled: set<string>, n: nat, id: string)
    requires n < |calls|
    ensures MissingWith(Unfulfilled(calls, fulfilled, n + 1), id)
            == MissingWith(Unfulfilled(calls, fulfilled, n), id)
               + if calls[n].id == id && id !in fulfilled then 1 else 0
  {
    var front, more := Unfulfilled(calls, fulfilled, n), Unfulfilled(calls, fulfilled, n + 1);
    if calls[n].id in fulfilled {
      assert more == front;
    } else {
      assert more == front + [calls[n]];
      MissingOfOneMore(front, calls[n], id);
    }
  }

  lemma {:induction false} UnfulfilledMissing(calls: seq<Missing>, fulfilled: set<string>, n: nat, id: string)
    requires n <= |calls| && id !in fulfilled
    ensures MissingWith(Unfulfilled(calls, fulfilled, n), id) == MissingWith(calls[..n], id)
  {
    if n == 0 {
      assert calls[..0] == [];
    } else {
      UnfulfilledMissing(calls, fulfilled, n - 1, id);
      MissingUpTo(calls, n - 1, id);
      OneMoreUnfulfilled(calls, fulfilled, n - 1, id);
    }
  }

  lemma MissingOfUnfulfilled(calls: seq<Missing>, fulfilled: set<string>, n: nat, id: string)
    requires n <= |calls|
    ensures MissingWith(Unfulfilled(calls, fulfilled, n), id)
            == if id in fulfilled then 0 else MissingWith(calls[..n], id)
  {
    if id in fulfilled {
      forall c | c in Unfulfilled(calls, fulfilled, n) ensures c.id != id {
        UnfulfilledMeaning(calls, fulfilled, n, c);
      }
      NoneMissing(Unfulfilled(calls, fulfilled, n), id);
    } else {
      UnfulfilledMissing(calls, fulfilled, n, id);
    }
  }

  lemma {:induction false} ResultsMeaning(ms: seq<Msg>, id: string)
    ensures ResultsWith(ms, id) == 0 <==> forall i :: 0 <= i < |ms| && ms[i].role.Tool? ==> ms[i].toolCallId != id
  {
    if ms != [] {
      ResultsMeaning(ms[..|ms| - 1], id);
    }
  }

  /**
   * An id that no result carries gets as many results as there are calls with it; the number of
   * results with any other id stays as it is.
   */
  lemma BackfillCounts(ms: seq<Msg>, id: string)
    ensures ResultsWith(Backfilled(ms), id)
            == if id != "" && ResultsWith(ms, id) == 0 then CallsWith(ms, id) else ResultsWith(ms, id)
  {
    var missing := MissingCalls(ms);
    MissingCallsFit(ms);
    assert missing[..|missing|] == missing && BackfilledUpTo(ms, missing, |missing|) == Backfilled(ms);
    InsertionsAddResults(ms, missing, |missing|, id);
    MissingCount(ms, id);
  }

  lemma MissingCount(ms: seq<Msg>, id: string)
    ensures MissingWith(MissingCalls(ms), id) == if id != "" && ResultsWith(ms, id) == 0 then CallsWith(ms, id) else 0
  {
    var declared, fulfilled := Declarations(ms, |ms|), FulfilledUpTo(ms, |ms|);
    if id == "" {
      forall c | c in MissingCalls(ms) ensures c.id != "" {
        MissingCallsMeaning(ms, c);
      }
      NoneMissing(MissingCalls(ms), "");
    } else {
      assert ms[..|ms|] == ms && declared[..|declared|] == declared;
      MissingOfUnfulfilled(declared, fulfilled, |declared|, id);
      MissingOfDeclarations(ms, |ms|, id);
      FulfilledMeaning(ms, |ms|, id);
      ResultsMeaning(ms, id);
    }
  }

  // ---- Backfilling a history without orphans pairs it ----

  lemma BackfillKeepsNoOrphans(ms: seq<Msg>)
    requires NoOrphans(ms)
    ensures NoOrphans(Backfilled(ms))
  {
    var missing, slots, out := MissingCalls(ms), BackfillLayout(ms), Backfilled(ms);
    forall p | 0 <= p < |out| && out[p].role.Tool? && out[p].toolCallId != ""
      ensures exists q :: 0 <= q < p && out[p].toolCallId in DeclaredBy(out[q])
    {
      match slots[p]
      case Original(j) =>
        OriginalsStayInPlace(ms, |ms|, missing, p);
        var i :| 0 <= i < j && ms[j].toolCallId in DeclaredBy(ms[i]);
        PositionHoldsMessage(ms, i, missing);
        PositionsIncrease(ms, i, j, missing);
        assert out[p].toolCallId in DeclaredBy(out[Position(ms, i, missing)]);
      case Filler(c) =>
        FillersBehindTheirCalls(ms, |ms|, missing, p);
        MissingCallsMeaning(ms, c);
        var q :| 0 <= q < p && slots[q] == Original(c.at);
        DeclaredByCall(ms[c.at], c);
        assert out[p].toolCallId in DeclaredBy(out[q]);
    }
  }

  lemma DeclaredByCall(m: Msg, c: Missing)
    requires CallIn(m, c)
    ensures c.id in DeclaredBy(m)
  {
    assert m.calls[c.call] in m.calls;
  }

  lemma BackfillAnswersAll(ms: seq<Msg>)
    requires NoOrphans(ms)
    ensures AllAnswered(Backfilled(ms))
  {
    var missing, slots, out := MissingCalls(ms), BackfillLayout(ms), Backfilled(ms);
    forall p, id | 0 <= p < |out| && id in DeclaredBy(out[p])
      ensures Answered(out, id)
    {
      assert slots[p].Original?;
      var i := slots[p].index;
      OriginalsStayInPlace(ms, |ms|, missing, p);
      if r :| 0 <= r < |ms| && IsResult(ms[r], id) {
        var d :| 0 <= d < r && id in DeclaredBy(ms[d]);
        PositionHoldsMessage(ms, d, missing);
        PositionHoldsMessage(ms, r, missing);
        PositionsIncrease(ms, d, r, missing);
        var pd, pr := Position(ms, d, missing), Position(ms, r, missing);
        assert id in DeclaredBy(out[pd]) && IsResult(out[pr], id);
      } else {
        var call :| call in ms[i].calls && call.Call? && call.id == id && id != "";
        var k :| 0 <= k < |ms[i].calls| && ms[i].calls[k] == call;
        var c := Missing(i, k, id, FillerName(call));
        assert IsCall(ms[i].calls[k], c);
        MissingCallsMeaning(ms, c);
        MissingCallsFit(ms);
        var pf := EveryMissingCallIsFilled(ms, missing, c);
        PositionHoldsMessage(ms, i, missing);
        assert id in DeclaredBy(out[Position(ms, i, missing)]) && IsResult(out[pf], id);
      }
    }
  }

  function Repaired(ms: seq<Msg>): seq<Msg> {
    Backfilled(WithoutOrphans(ms))
  }

  /** The last two passes pair any list at all. */
  lemma RepairPairs(ms: seq<Msg>)
    ensures Paired(Repaired(ms))
  {
    DroppingLeavesNoOrphans(ms, |ms|);
    BackfillKeepsNoOrphans(WithoutOrphans(ms));
    BackfillAnswersAll(WithoutOrphans(ms));
  }

  /**
   * `out` is what the two repairs make of `ms`: `kept` is left of it without its orphan results, and `out`
   * is `kept` with a result for every call that is owed one, and nothing else.
   */
  ghost predicate IsRepair(ms: seq<Msg>, kept: seq<Msg>, out: seq<Msg>) {
    && (exists at: seq<nat> :: Keeps(ms, at, kept) && AreCalledFor(ms, |ms|, at))
    && exists slots :: IsBackfill(kept, out, slots)
  }

  lemma RepairIsExact(ms: seq<Msg>) returns (kept: seq<Msg>)
    ensures IsRepair(ms, kept, Repaired(ms))
    ensures forall id :: ResultsWith(Repaired(ms), id)
              == if id != "" && ResultsWith(kept, id) == 0 then CallsWith(kept, id) else ResultsWith(kept, id)
  {
    kept := WithoutOrphans(ms);
    var at := DroppingIsExact(ms, |ms|);
    assert ms[..|ms|] == ms;
    var slots := BackfillIsExact(kept);
    forall id ensures ResultsWith(Repaired(ms), id)
                      == if id != "" && ResultsWith(kept, id) == 0 then CallsWith(kept, id) else ResultsWith(kept, id)
    {
      BackfillCounts(kept, id);
    }
  }

  /** A paired history needs no repair and gets none. */
  lemma RepairKeepsPaired(ms: seq<Msg>)
    requires Paired(ms)
    ensures Repaired(ms) == ms
  {
    DroppingKeepsLegalHistory(ms, |ms|);
    assert ms[..|ms|] == ms && WithoutOrphans(ms) == ms;
    var declared := Declarations(ms, |ms|);
    forall c | c in declared ensures c.id in FulfilledUpTo(ms, |ms|) {
      DeclarationsMeaning(ms, |ms|, c);
      DeclaredByCall(ms[c.at], c);
      assert Answered(ms, c.id);
      FulfilledMeaning(ms, |ms|, c.id);
    }
    NothingUnfulfilled(declared, FulfilledUpTo(ms, |ms|), |declared|);
    LayoutWithoutMissing(ms, |ms|);
  }

  lemma {:induction false} NothingUnfulfilled(calls: seq<Missing>, fulfilled: set<string>, n: nat)
    requires n <= |calls| && forall c :: c in calls ==> c.id in fulfilled
    ensures Unfulfilled(calls, fulfilled, n) == []
  {
    if n > 0 {
      NothingUnfulfilled(calls, fulfilled, n - 1);
    }
  }

  lemma {:induction false} LayoutWithoutMissing(ms: seq<Msg>, n: nat)
    requires n <= |ms|
    ensures Layout(ms, n, []) == Originals(0, n)
  {
    if n > 0 {
      LayoutWithoutMissing(ms, n - 1);
    }
  }
}
