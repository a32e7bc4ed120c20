/** How a turn, or what is left of it after a crash, enters the persisted session history. */
module History {
  import opened Messages
  import opened Repair
  import opened Wrappers

  /** `runtime_checkpoint` metadata. List entries that are not dictionaries are None or NotDict. */
  datatype Checkpoint = Checkpoint(assistant: Option<Msg>, completed: seq<Option<Msg>>, pending: seq<Call>)

  /** Sanitizing and truncation of persisted content are arbitrary functions. */
  datatype SaveConfig = SaveConfig(
    maxToolResultChars: int,
    truncate: string -> string,
    sanitize: (seq<string>, bool) -> seq<string>
  )

  class Session {
    var messages: seq<Msg>
    var checkpoint: Option<Checkpoint>
    var pendingUserTurn: bool

    constructor ()
      ensures messages == [] && checkpoint.None? && !pendingUserTurn
    {
      messages, checkpoint, pendingUserTurn := [], None, false;
    }
  }

  /** `setdefault("timestamp", now)`. */
  function Stamped(m: Msg, now: string): Msg {
    if "timestamp" in m.extra then m else m.(extra := m.extra["timestamp" := now])
  }

  // ---- Restoring a checkpoint ----

  const INTERRUPTED := "Error: Task interrupted before this tool finished."

  function PendingName(c: Call): Name
    requires c.Call?
  {
    match c.fn
    case NoCallee => Named("tool")
    case Callee(name) =>
      if (name.Named? && name.text != "") || (name.NotText? && name.truthy) then name else Named("tool")
  }

  function CompletedMessages(completed: seq<Option<Msg>>, now: string): seq<Msg> {
    if completed == [] then []
    else
      (if completed[0].Some? then [Stamped(completed[0].value, now)] else [])
      + CompletedMessages(completed[1..], now)
  }

  function InterruptedMessages(pending: seq<Call>, now: string): seq<Msg> {
    if pending == [] then []
    else
      (if pending[0].Call?
       then [Msg(Tool, Text(INTERRUPTED), [], pending[0].id, PendingName(pending[0]), "", map["timestamp" := now])]
       else [])
      + InterruptedMessages(pending[1..], now)
  }

  function RestoredMessages(cp: Checkpoint, now: string): seq<Msg> {
    (if cp.assistant.Some? then [Stamped(cp.assistant.value, now)] else [])
    + CompletedMessages(cp.completed, now)
    + InterruptedMessages(cp.pending, now)
  }

  // ---- What a checkpoint restores, message by message ----

  /** The message with a time if it had none. */
  ghost predicate IsStamped(m: Msg, e: Msg, now: string) {
    && e == m.(extra := e.extra) && "timestamp" in e.extra && ("timestamp" !in m.extra ==> e.extra["timestamp"] == now)
    && (forall key :: key in m.extra ==> key in e.extra && e.extra[key] == m.extra[key])
    && forall key :: key in e.extra && key != "timestamp" ==> key in m.extra
  }

  /** A result that says that the call was interrupted, under its id and the name of its function. */
  predicate IsInterruption(c: Call, m: Msg, now: string) {
    && c.Call? && m.role.Tool? && m.toolCallId == c.id && m.calls == [] && m.reasoning == ""
    && m.content == Text("Error: Task interrupted before this tool finished.") && m.extra == map["timestamp" := now]
    && m.name == if c.fn.Callee? && c.fn.name.Named? && c.fn.name.text != "" then c.fn.name
                 else if c.fn.Callee? && c.fn.name.NotText? && c.fn.name.truthy then c.fn.name else Named("tool")
  }

  function IsThere(): Option<Msg> -> bool {
    (c: Option<Msg>) => c.Some?
  }

  function IsACall(): Call -> bool {
    (c: Call) => c.Call?
  }

  /** `out` are the results that are there, in order, with their times. */
  ghost predicate AreResults(completed: seq<Option<Msg>>, out: seq<Msg>, now: string) {
    AreImages(completed, out, IsThere(), (c: Option<Msg>, m: Msg) => c.Some? && IsStamped(c.value, m, now))
  }

  lemma {:induction false} CompletedMeaning(completed: seq<Option<Msg>>, now: string)
    ensures AreResults(completed, CompletedMessages(completed, now), now)
  {
    if completed != [] {
      var c := completed[0];
      CompletedMeaning(completed[1..], now);
      ImageInFront(completed, CompletedMessages(completed[1..], now), IsThere(),
        (c: Option<Msg>, m: Msg) => c.Some? && IsStamped(c.value, m, now),
        if c.Some? then Stamped(c.value, now) else Msg(OtherRole, NoContent, [], "", NoName, "", map[]));
    }
  }

  /** `out` are interruptions for the pending calls, in order. */
  ghost predicate AreInterruptions(pending: seq<Call>, out: seq<Msg>, now: string) {
    AreImages(pending, out, IsACall(), (c: Call, m: Msg) => IsInterruption(c, m, now))
  }

  lemma InterruptionInFront(pending: seq<Call>, now: string)
    requires pending != [] && AreInterruptions(pending[1..], InterruptedMessages(pending[1..], now), now)
    ensures AreInterruptions(pending, InterruptedMessages(pending, now), now)
  {
    var c := pending[0];
    var id, name := if c.Call? then c.id else "", if c.Call? then PendingName(c) else NoName;
    ImageInFront(pending, InterruptedMessages(pending[1..], now), IsACall(),
      (c: Call, m: Msg) => IsInterruption(c, m, now),
      Msg(Tool, Text(INTERRUPTED), [], id, name, "", map["timestamp" := now]));
  }

  lemma {:induction false} InterruptedMeaning(pending: seq<Call>, now: string)
    ensures AreInterruptions(pending, InterruptedMessages(pending, now), now)
  {
    if pending != [] {
      InterruptedMeaning(pending[1..], now);
      InterruptionInFront(pending, now);
    }
  }

  /** The calling message, the results that were there, and an interruption for each pending call, in this order. */
  lemma RestoredMeaning(cp: Checkpoint, now: string)
    returns (head: seq<Msg>, results: seq<Msg>, interruptions: seq<Msg>)
    ensures RestoredMessages(cp, now) == head + results + interruptions
    ensures |head| == (if cp.assistant.Some? then 1 else 0)
            && (cp.assistant.Some? ==> IsStamped(cp.assistant.value, head[0], now))
    ensures AreResults(cp.completed, results, now) && AreInterruptions(cp.pending, interruptions, now)
  {
    CompletedMeaning(cp.completed, now);
    InterruptedMeaning(cp.pending, now);
    head := if cp.assistant.Some? then [Stamped(cp.assistant.value, now)] else [];
    results, interruptions := CompletedMessages(cp.completed, now), InterruptedMessages(cp.pending, now);
  }

  /** `_checkpoint_message_key`: everything but timestamps and bookkeeping. */
  function Key(m: Msg): Msg {
    m.(extra := map[])
  }

  /** Messages are told apart by everything the provider sees, and by nothing else. */
  lemma KeyMeaning(a: Msg, b: Msg)
    ensures Key(a) == Key(b) <==>
              && a.role == b.role && a.content == b.content && a.toolCallId == b.toolCallId && a.name == b.name
              && a.calls == b.calls && a.reasoning == b.reasoning
  {
  }

  ghost predicate SameKeys(a: seq<Msg>, b: seq<Msg>) {
    |a| == |b| && forall i :: 0 <= i < |a| ==> Key(a[i]) == Key(b[i])
  }

  /** The last `size` messages of the session are the first `size` restored ones. */
  ghost predicate Overlaps(ms: seq<Msg>, rs: seq<Msg>, size: nat) {
    size <= |ms| && size <= |rs| && SameKeys(ms[|ms| - size..], rs[..size])
  }

  ghost predicate IsLargestOverlap(ms: seq<Msg>, rs: seq<Msg>, size: nat) {
    Overlaps(ms, rs, size) && NoneLarger(ms, rs, size)
  }

  ghost predicate NoneLarger(ms: seq<Msg>, rs: seq<Msg>, size: nat) {
    forall larger :: size < larger ==> !Overlaps(ms, rs, larger)
  }

  /** The comparison of one size. */
  predicate Matches(ms: seq<Msg>, rs: seq<Msg>, size: nat)
    requires size <= |ms| && size <= |rs|
  {
    var existing := ms[|ms| - size..];
    forall i :: 0 <= i < size ==> Key(existing[i]) == Key(rs[i])
  }

  lemma MatchesMeaning(ms: seq<Msg>, rs: seq<Msg>, size: nat)
    requires size <= |ms| && size <= |rs|
    ensures Matches(ms, rs, size) <==> Overlaps(ms, rs, size)
  {
    assert forall i :: 0 <= i < size ==> rs[..size][i] == rs[i];
  }

  lemma NoneBeyond(ms: seq<Msg>, rs: seq<Msg>, size: nat)
    requires size == |ms| || size == |rs|
    ensures NoneLarger(ms, rs, size)
  {
  }

  lemma OneSmaller(ms: seq<Msg>, rs: seq<Msg>, size: nat)
    requires size > 0 && NoneLarger(ms, rs, size) && !Overlaps(ms, rs, size)
    ensures NoneLarger(ms, rs, size - 1)
  {
  }

  method FindOverlap(ms: seq<Msg>, rs: seq<Msg>) returns (overlap: nat)
    ensures IsLargestOverlap(ms, rs, overlap)
  {
    overlap := if |ms| < |rs| then |ms| else |rs|;
    NoneBeyond(ms, rs, overlap);
    MatchesMeaning(ms, rs, overlap);
    while overlap > 0 && !Matches(ms, rs, overlap)
      invariant overlap <= |ms| && overlap <= |rs| && NoneLarger(ms, rs, overlap)
      invariant Matches(ms, rs, overlap) <==> Overlaps(ms, rs, overlap)
    {
      OneSmaller(ms, rs, overlap);
      overlap := overlap - 1;
      MatchesMeaning(ms, rs, overlap);
    }
  }

  /** The session after restoring: an overlap is not written twice. */
  ghost predicate IsRestored(ms: seq<Msg>, rs: seq<Msg>, out: seq<Msg>) {
    exists k: nat :: IsLargestOverlap(ms, rs, k) && out == ms + rs[k..]
  }

  method RestoreCheckpoint(session: Session, now: string) returns (restored: bool)
    modifies session
    ensures restored == old(session.checkpoint).Some?
    ensures if restored
            then
              IsRestored(old(session.messages), RestoredMessages(old(session.checkpoint).value, now), session.messages)
                 && session.checkpoint.None? && !session.pendingUserTurn
            else unchanged(session)
  {
    if session.checkpoint.None? {
      return false;
    }
    var rs := RestoredMessages(session.checkpoint.value, now);
    var overlap := FindOverlap(session.messages, rs);
    session.messages := session.messages + rs[overlap..];
    session.pendingUserTurn := false;
    session.checkpoint := None;
    return true;
  }

  ghost predicate EndsWithKeys(ms: seq<Msg>, rs: seq<Msg>) {
    |rs| <= |ms| && SameKeys(ms[|ms| - |rs|..], rs)
  }

  /** After restoring, the session ends in the restored messages. */
  lemma {:induction false} RestoredSessionEndsInCheckpoint(ms: seq<Msg>, rs: seq<Msg>, out: seq<Msg>)
    requires IsRestored(ms, rs, out)
    ensures ms <= out && EndsWithKeys(out, rs)
  {
    var k: nat :| IsLargestOverlap(ms, rs, k) && out == ms + rs[k..];
    assert out[|out| - |rs|..] == ms[|ms| - k..] + rs[k..];
    assert forall i :: 0 <= i < k ==> rs[i] == rs[..k][i];
  }

  lemma {:induction false} EndingInCheckpointOverlaps(ms: seq<Msg>, rs: seq<Msg>, other: seq<Msg>)
    requires EndsWithKeys(ms + other, rs) && |other| <= |rs|
    ensures Overlaps(ms, rs, |rs| - |other|)
  {
    var size := |rs| - |other|;
    assert ms[|ms| - size..] == (ms + other)[|ms + other| - |rs|..][..size];
    assert forall i :: 0 <= i < size ==> rs[..size][i] == rs[i];
  }

  /** No shorter extension of the session ends in the restored messages. */
  lemma {:induction false} RestoredSessionIsShortest(ms: seq<Msg>, rs: seq<Msg>, out: seq<Msg>, other: seq<Msg>)
    requires IsRestored(ms, rs, out) && EndsWithKeys(ms + other, rs)
    ensures |out| <= |ms + other|
  {
    if |other| <= |rs| {
      EndingInCheckpointOverlaps(ms, rs, other);
    }
  }

  /** Restoring the same checkpoint again, at whatever time, adds nothing. */
  lemma {:induction false} RestoringAgainAddsNothing(ms: seq<Msg>, rs: seq<Msg>, out: seq<Msg>, rs': seq<Msg>,
    again: seq<Msg>)
    requires IsRestored(ms, rs, out) && SameKeys(rs, rs') && IsRestored(out, rs', again)
    ensures again == out
  {
    RestoredSessionEndsInCheckpoint(ms, rs, out);
    var end := out[|out| - |rs|..];
    assert forall i :: 0 <= i < |rs| ==> Key(end[i]) == Key(rs[i]) == Key(rs'[i]);
    RestoredSessionIsShortest(out, rs', again, []) by {
      assert out + [] == out;
    }
    RestoredSessionEndsInCheckpoint(out, rs', again);
    assert out + [] == out;
  }

  // ---- Restoring keeps calls and results paired ----

  /** The checkpoints the runner writes: before the tools, after them, and for a final answer. */
  ghost predicate WrittenByRunner(cp: Checkpoint) {
    && cp.assistant.Some? && cp.assistant.value.role.Assistant?
    && var calls := cp.assistant.value.calls;
       || (cp.completed == [] && cp.pending == calls)
       || (cp.pending == [] && |cp.completed| == |calls|
           && forall i :: 0 <= i < |calls| ==> IsResultFor(cp.completed[i], calls[i]))
  }

  predicate IsResultFor(result: Option<Msg>, c: Call) {
    result.Some? && result.value.role.Tool? && c.Call? && result.value.toolCallId == c.id
  }

  /** A declaring message followed by results for exactly its ids. */
  ghost predicate IsExchange(rs: seq<Msg>) {
    && |rs| > 0 && rs[0].role.Assistant?
    && (forall i :: 0 < i < |rs| ==>
           rs[i].role.Tool? && (rs[i].toolCallId == "" || rs[i].toolCallId in DeclaredBy(rs[0])))
    && (forall id :: id in DeclaredBy(rs[0]) ==> exists i :: 0 < i < |rs| && IsResult(rs[i], id))
  }

  lemma {:induction false} InterruptedAnswer(pending: seq<Call>, now: string, id: string)
    ensures forall m :: m in InterruptedMessages(pending, now) ==>
              m.role.Tool? && exists c :: c in pending && c.Call? && c.id == m.toolCallId
    ensures (exists c :: c in pending && c.Call? && c.id == id) ==>
              exists m :: m in InterruptedMessages(pending, now) && m.role.Tool? && m.toolCallId == id
  {
    if pending != [] {
      InterruptedAnswer(pending[1..], now, id);
      assert pending == [pending[0]] + pending[1..];
      var rest := InterruptedMessages(pending[1..], now);
      if pending[0].Call? {
        var head := InterruptedMessages(pending, now)[0];
        assert head.role.Tool? && head.toolCallId == pending[0].id;
        assert InterruptedMessages(pending, now) == [head] + rest;
      } else {
        assert InterruptedMessages(pending, now) == rest;
      }
    }
  }

  lemma {:induction false} CompletedAnswer(completed: seq<Option<Msg>>, now: string)
    requires forall i :: 0 <= i < |completed| ==> completed[i].Some?
    ensures |CompletedMessages(completed, now)| == |completed|
    ensures forall i :: 0 <= i < |completed| ==>
              CompletedMessages(completed, now)[i] == Stamped(completed[i].value, now)
  {
    if completed != [] {
      CompletedAnswer(completed[1..], now);
    }
  }

  lemma {:induction false} FinishedExchange(m: Msg, completed: seq<Option<Msg>>, now: string)
    requires m.role.Assistant? && |completed| == |m.calls|
    requires forall i :: 0 <= i < |completed| ==> IsResultFor(completed[i], m.calls[i])
    ensures IsExchange([m] + CompletedMessages(completed, now))
  {
    CompletedAnswer(completed, now);
    var rs := [m] + CompletedMessages(completed, now);
    forall i | 0 < i < |rs| ensures rs[i].role.Tool? && (rs[i].toolCallId == "" || rs[i].toolCallId in DeclaredBy(m)) {
      assert IsResultFor(completed[i - 1], m.calls[i - 1]) && m.calls[i - 1] in m.calls;
    }
    forall id | id in DeclaredBy(m) ensures exists i :: 0 < i < |rs| && IsResult(rs[i], id) {
      var c :| c in m.calls && c.Call? && c.id == id && id != "";
      var i :| 0 <= i < |m.calls| && m.calls[i] == c;
      assert IsResultFor(completed[i], m.calls[i]) && IsResult(rs[i + 1], id);
    }
  }

  lemma {:induction false} InterruptedExchange(m: Msg, now: string)
    requires m.role.Assistant?
    ensures IsExchange([m] + InterruptedMessages(m.calls, now))
  {
    var tail := InterruptedMessages(m.calls, now);
    var rs := [m] + tail;
    forall i | 0 < i < |rs| ensures rs[i].role.Tool? && (rs[i].toolCallId == "" || rs[i].toolCallId in DeclaredBy(m)) {
      InterruptedAnswer(m.calls, now, "");
      assert rs[i] in tail;
    }
    forall id | id in DeclaredBy(m) ensures exists i :: 0 < i < |rs| && IsResult(rs[i], id) {
      InterruptedAnswer(m.calls, now, id);
      var r :| r in tail && r.role.Tool? && r.toolCallId == id;
      var k :| 0 <= k < |tail| && tail[k] == r;
      assert IsResult(rs[k + 1], id);
    }
  }

  lemma {:induction false} RunnerCheckpointIsExchange(cp: Checkpoint, now: string)
    requires WrittenByRunner(cp)
    ensures IsExchange(RestoredMessages(cp, now))
  {
    var m := Stamped(cp.assistant.value, now);
    if cp.completed == [] && cp.pending == m.calls {
      InterruptedExchange(m, now);
      assert RestoredMessages(cp, now) == [m] + InterruptedMessages(m.calls, now);
    } else {
      FinishedExchange(m, cp.completed, now);
      assert RestoredMessages(cp, now) == [m] + CompletedMessages(cp.completed, now);
    }
  }

  lemma {:induction false} AnsweredInExtension(ms: seq<Msg>, out: seq<Msg>, id: string)
    requires ms <= out && Answered(ms, id)
    ensures Answered(out, id)
  {
    var i, j :| 0 <= i < j < |ms| && id in DeclaredBy(ms[i]) && IsResult(ms[j], id);
    assert id in DeclaredBy(out[i]) && IsResult(out[j], id);
  }

  lemma {:induction false} RestoringExchangeKeepsPairing(ms: seq<Msg>, rs: seq<Msg>, out: seq<Msg>)
    requires Paired(ms) && IsExchange(rs) && IsRestored(ms, rs, out)
    ensures Paired(out)
  {
    var k: nat :| IsLargestOverlap(ms, rs, k) && out == ms + rs[k..];
    CallIsAtOverlap(ms, rs, k);
    RestoringLeavesNoOrphans(ms, rs, k);
    forall i, id | 0 <= i < |out| && id in DeclaredBy(out[i])
      ensures Answered(out, id)
    {
      if i < |ms| {
        assert Answered(ms, id);
        AnsweredInExtension(ms, out, id);
      } else {
        RestoredIsAnswered(ms, rs, k, i, id);
      }
    }
  }

  /** Where the restored messages begin, the session declares what their first message declares. */
  lemma CallIsAtOverlap(ms: seq<Msg>, rs: seq<Msg>, k: nat)
    requires rs != [] && Overlaps(ms, rs, k)
    ensures DeclaredBy((ms + rs[k..])[|ms| - k]) == DeclaredBy(rs[0])
  {
    var out, at := ms + rs[k..], |ms| - k;
    assert Key(out[at]) == Key(rs[0]) by {
      if k > 0 {
        assert ms[|ms| - k..][0] == ms[at] && rs[..k][0] == rs[0];
      }
    }
  }

  lemma RestoringLeavesNoOrphans(ms: seq<Msg>, rs: seq<Msg>, k: nat)
    requires NoOrphans(ms) && IsExchange(rs) && k <= |ms| && k <= |rs|
    requires DeclaredBy((ms + rs[k..])[|ms| - k]) == DeclaredBy(rs[0])
    ensures NoOrphans(ms + rs[k..])
  {
    var out := ms + rs[k..];
    forall j | 0 <= j < |out| && out[j].role.Tool? && out[j].toolCallId != ""
      ensures exists i :: 0 <= i < j && out[j].toolCallId in DeclaredBy(out[i])
    {
      if j < |ms| {
        var i :| 0 <= i < j && ms[j].toolCallId in DeclaredBy(ms[i]);
        assert out[i] == ms[i];
      } else {
        assert out[j] == rs[j - |ms| + k];
        assert |ms| - k < j;
      }
    }
  }

  lemma RestoredIsAnswered(ms: seq<Msg>, rs: seq<Msg>, k: nat, i: nat, id: string)
    requires IsExchange(rs) && k <= |ms| && k <= |rs| && |ms| <= i < |ms| + |rs| - k
    requires id in DeclaredBy((ms + rs[k..])[i])
    ensures Answered(ms + rs[k..], id)
  {
    var out := ms + rs[k..];
    assert out[i] == rs[i - |ms| + k] && k == 0 && i == |ms|;
    var r :| 0 < r < |rs| && IsResult(rs[r], id);
    assert IsResult(out[|ms| + r], id);
  }

  /** Crash recovery from any checkpoint the runner wrote leaves a paired session paired. */
  lemma {:induction false} RecoveryKeepsPairing(ms: seq<Msg>, cp: Checkpoint, now: string, out: seq<Msg>)
    requires Paired(ms) && WrittenByRunner(cp) && IsRestored(ms, RestoredMessages(cp, now), out)
    ensures Paired(out)
  {
    RunnerCheckpointIsExchange(cp, now);
    RestoringExchangeKeepsPairing(ms, RestoredMessages(cp, now), out);
  }

  method RestorePendingUserTurn(session: Session, now: string) returns (closed: bool)
    modifies session
    ensures closed == old(session.pendingUserTurn) && !session.pendingUserTurn
    ensures session.checkpoint == old(session.checkpoint)
    ensures old(session.messages) <= session.messages
    ensures closed && session.messages != [] ==> !session.messages[|session.messages| - 1].role.User?
    ensures var ms, n := old(session.messages), |old(session.messages)|;
            if closed && n > 0 && ms[n - 1].role.User? then
              && |session.messages| == n + 1 && session.messages[n].role.Assistant? && session.messages[n].calls == []
              && session.messages[n].content == Text("Error: Task interrupted before a response was generated.")
            else session.messages == ms
    ensures Paired(old(session.messages)) ==> Paired(session.messages)
  {
    if !session.pendingUserTurn {
      return false;
    }
    var n := |session.messages|;
    if n > 0 && session.messages[n - 1].role.User? {
      var note := Msg(Assistant, Text("Error: Task interrupted before a response was generated."), [], "",
                      NoName, "", map["timestamp" := now]);
      session.messages := session.messages + [note];
      PlainMessageKeepsPairing(old(session.messages), note);
    }
    session.pendingUserTurn := false;
    return true;
  }

  lemma {:induction false} PlainMessageKeepsPairing(ms: seq<Msg>, m: Msg)
    requires !m.role.Tool? && DeclaredBy(m) == {}
    ensures Paired(ms) ==> Paired(ms + [m])
  {
    var out := ms + [m];
    if Paired(ms) {
      forall j | 0 <= j < |out| && out[j].role.Tool? && out[j].toolCallId != ""
        ensures exists i :: 0 <= i < j && out[j].toolCallId in DeclaredBy(out[i])
      {
        var i :| 0 <= i < j && ms[j].toolCallId in DeclaredBy(ms[i]);
        assert out[i] == ms[i];
      }
      forall i, id | 0 <= i < |out| && id in DeclaredBy(out[i]) ensures Answered(out, id) {
        assert Answered(ms, id);
        AnsweredInExtension(ms, out, id);
      }
    }
  }

  // ---- Saving a turn ----

  function Persisted(config: SaveConfig, m: Msg): Option<Msg> {
    if m.role.Tool? then
      match m.content
      case Text(t) =>
        Some(if |t| > config.maxToolResultChars then m.(content := Text(config.truncate(t))) else m)
      case Blocks(b) =>
        var filtered := config.sanitize(b, true);
        Some(m.(content := Blocks(if filtered != [] then filtered else ["[tool result omitted during persistence]"])))
      case NoContent => Some(m)
    else if m.role.User? && m.content.Blocks? then
      var filtered := config.sanitize(m.content.blocks, false);
      if filtered == [] then None else Some(m.(content := Blocks(filtered)))
    else Some(m)
  }

  /** The entry saved for one message, given the ids declared so far; None when it is dropped. */
  function Entry(config: SaveConfig, m: Msg, declared: set<string>, now: string): (e: Option<Msg>)
    ensures e.Some? ==> e.value.role == m.role && e.value.calls == m.calls && e.value.toolCallId == m.toolCallId
  {
    var entry := m.(extra := SavedExtra(m));
    if m.role.Assistant? && !HasText(m.content) && m.calls == [] then None
    else if m.role.Tool? && m.toolCallId !in declared - {""} then None
    else
      var persisted := Persisted(config, entry);
      if persisted.None? then None else Some(Stamped(persisted.value, now))
  }

  /** `_meta` is dropped; its runtime context is kept under its own key on a user message. */
  function SavedExtra(m: Msg): map<string, string> {
    var kept := m.extra - {"_meta"};
    if m.role.User? && "_meta" in m.extra then kept["_runtime_context" := m.extra["_meta"]] else kept
  }

  /** Session messages after the first `n` messages of a turn. */
  function Saved(config: SaveConfig, ms: seq<Msg>, turn: seq<Msg>, now: string, n: nat): seq<Msg>
    requires n <= |turn|
  {
    if n == 0 then ms
    else
      var before := Saved(config, ms, turn, now, n - 1);
      var e := Entry(config, turn[n - 1], DeclaredUpTo(before, |before|), now);
      if e.Some? then before + [e.value] else before
  }

  /** The loop variables of `_save_turn` after `n` messages of the turn. */
  ghost predicate SavedSoFar(config: SaveConfig, ms: seq<Msg>, turn: seq<Msg>, now: string, n: nat,
                             messages: seq<Msg>, declared: set<string>, lastAssistant: int)
  {
    && n <= |turn| && messages == Saved(config, ms, turn, now, n) && |ms| <= |messages|
    && declared == DeclaredUpTo(messages, |messages|)
    && lastAssistant == LastAssistant(messages, |ms|)
  }

  lemma DroppedEntry(config: SaveConfig, ms: seq<Msg>, turn: seq<Msg>, now: string, n: nat,
                     messages: seq<Msg>, declared: set<string>, lastAssistant: int)
    requires SavedSoFar(config, ms, turn, now, n, messages, declared, lastAssistant) && n < |turn|
    requires Entry(config, turn[n], declared, now).None?
    ensures SavedSoFar(config, ms, turn, now, n + 1, messages, declared, lastAssistant)
  {
  }

  lemma KeptEntry(config: SaveConfig, ms: seq<Msg>, turn: seq<Msg>, now: string, n: nat,
                  messages: seq<Msg>, declared: set<string>, lastAssistant: int)
    requires SavedSoFar(config, ms, turn, now, n, messages, declared, lastAssistant) && n < |turn|
    requires Entry(config, turn[n], declared, now).Some?
    ensures var e := Entry(config, turn[n], declared, now).value;
            SavedSoFar(config, ms, turn, now, n + 1, messages + [e], declared + DeclaredBy(e),
              if e.role.Assistant? then |messages| else lastAssistant)
  {
    AppendedEntry(messages, |ms|, Entry(config, turn[n], declared, now).value);
  }

  method SaveTurn(config: SaveConfig, session: Session, messages: seq<Msg>, skip: nat,
                  latency: Option<string>, now: string)
    requires skip <= |messages|
    modifies session`messages
    ensures var saved := Saved(config, old(session.messages), messages[skip..], now, |messages| - skip);
            session.messages == WithLatency(saved, |old(session.messages)|, latency)
  {
    var lastAssistant := SaveMessages(config, session, messages[skip..], now);
    assert |messages[skip..]| == |messages| - skip;
    if latency.Some? && lastAssistant >= 0 {
      RecordLatency(session, lastAssistant, latency.value);
    }
  }

  /** The loop over the messages of the turn. */
  method SaveMessages(config: SaveConfig, session: Session, turn: seq<Msg>, now: string) returns (lastAssistant: int)
    modifies session`messages
    ensures |old(session.messages)| <= |session.messages|
    ensures session.messages == Saved(config, old(session.messages), turn, now, |turn|)
    ensures lastAssistant == LastAssistant(session.messages, |old(session.messages)|)
  {
    var declared := DeclaredUpTo(session.messages, |session.messages|);
    lastAssistant := -1;
    ghost var ms := session.messages;
    for i := 0 to |turn|
      invariant SavedSoFar(config, ms, turn, now, i, session.messages, declared, lastAssistant)
    {
      declared, lastAssistant :=
        SaveMessage(config, session, turn[i], declared, lastAssistant, now, ms, turn, i);
    }
  }

  /** One message of the turn joins the session, or is passed over. */
  method SaveMessage(config: SaveConfig, session: Session, m: Msg, declared: set<string>, lastAssistant: int,
    now: string, ghost ms: seq<Msg>, ghost turn: seq<Msg>, ghost n: nat) returns (known: set<string>, last: int)
    requires SavedSoFar(config, ms, turn, now, n, session.messages, declared, lastAssistant)
    requires n < |turn| && turn[n] == m
    modifies session`messages
    ensures SavedSoFar(config, ms, turn, now, n + 1, session.messages, known, last)
  {
    var entry := Entry(config, m, declared, now);
    known, last := declared, lastAssistant;
    if entry.None? {
      DroppedEntry(config, ms, turn, now, n, session.messages, declared, lastAssistant);
      return;
    }
    KeptEntry(config, ms, turn, now, n, session.messages, declared, lastAssistant);
    session.messages := session.messages + [entry.value];
    known := declared + DeclaredBy(entry.value);
    if entry.value.role.Assistant? {
      last := |session.messages| - 1;
    }
  }

  method RecordLatency(session: Session, i: nat, latency: string)
    requires i < |session.messages|
    modifies session`messages
    ensures session.messages == old(session.messages)[i := LatencyAdded(old(session.messages)[i], latency)]
  {
    session.messages := session.messages[i := LatencyAdded(session.messages[i], latency)];
  }

  function LatencyAdded(m: Msg, latency: string): Msg {
    m.(extra := m.extra["latency_ms" := latency])
  }

  lemma {:induction false} AppendedEntry(ms: seq<Msg>, lo: nat, m: Msg)
    requires lo <= |ms|
    ensures DeclaredUpTo(ms + [m], |ms| + 1) == DeclaredUpTo(ms, |ms|) + DeclaredBy(m)
    ensures LastAssistant(ms + [m], lo) == if m.role.Assistant? then |ms| else LastAssistant(ms, lo)
  {
    DeclaredUpToPrefix(ms, ms + [m], |ms|);
    assert (ms + [m])[..|ms|] == ms;
  }

  /** Position of the last assistant message at or behind `lo`, or -1. */
  function LastAssistant(ms: seq<Msg>, lo: nat): (i: int)
    requires lo <= |ms|
    ensures -1 <= i < |ms|
  {
    if |ms| == lo then -1
    else if ms[|ms| - 1].role.Assistant? then |ms| - 1
    else LastAssistant(ms[..|ms| - 1], lo)
  }

  /** The last assistant message that was saved, and no other, carries the latency. */
  lemma {:induction false} LatencyMeaning(ms: seq<Msg>, lo: nat, latency: string, i: nat)
    requires lo <= |ms| && i < |ms|
    ensures WithLatency(ms, lo, None) == ms
    ensures WithLatency(ms, lo, Some(latency))[i]
            == if lo <= i && ms[i].role.Assistant? && forall j :: i < j < |ms| ==> !ms[j].role.Assistant?
               then ms[i].(extra := ms[i].extra["latency_ms" := latency]) else ms[i]
  {
    LastAssistantMeaning(ms, lo);
  }

  lemma {:induction false} LastAssistantMeaning(ms: seq<Msg>, lo: nat)
    requires lo <= |ms|
    ensures var last := LastAssistant(ms, lo);
            && (last >= 0 ==> last >= lo && ms[last].role.Assistant?)
            && forall j :: lo <= j < |ms| && j > last ==> !ms[j].role.Assistant?
    decreases |ms|
  {
    if |ms| > lo && !ms[|ms| - 1].role.Assistant? {
      LastAssistantMeaning(ms[..|ms| - 1], lo);
    }
  }

  function WithLatency(ms: seq<Msg>, lo: nat, latency: Option<string>): (out: seq<Msg>)
    ensures |out| == |ms| && forall i :: 0 <= i < |ms| ==> Key(out[i]) == Key(ms[i])
  {
    var last := if lo <= |ms| then LastAssistant(ms, lo) else -1;
    if latency.Some? && last >= 0
    then ms[last := LatencyAdded(ms[last], latency.value)] else ms
  }

  /** Every call of the turn is answered in it, or was already declared in the session. */
  ghost predicate TurnAnswers(ms: seq<Msg>, turn: seq<Msg>) {
    forall i, id :: 0 <= i < |turn| && id in DeclaredBy(turn[i]) ==>
      id in DeclaredUpTo(ms, |ms|) || Answered(turn, id)
  }

  /** One message of a turn either joins the session, with its role, calls and id, or is dropped. */
  ghost predicate IsStep(before: seq<Msg>, saved: seq<Msg>, m: Msg) {
    var known := DeclaredUpTo(before, |before|) - {""};
    && before <= saved && |saved| <= |before| + 1
    && (saved == before ==> (m.role.Assistant? ==> m.calls == []) && (m.role.Tool? ==> m.toolCallId !in known))
    && (saved != before ==>
          var e := saved[|before|];
          e.role == m.role && e.calls == m.calls && e.toolCallId == m.toolCallId
            && (m.role.Tool? ==> m.toolCallId in known))
  }

  lemma SavedStep(config: SaveConfig, ms: seq<Msg>, turn: seq<Msg>, now: string, n: nat)
    requires 0 < n <= |turn|
    ensures IsStep(Saved(config, ms, turn, now, n - 1), Saved(config, ms, turn, now, n), turn[n - 1])
  {
  }

  /** What a message declares, the session declares in its place, and nothing else. */
  lemma StepDeclares(before: seq<Msg>, saved: seq<Msg>, m: Msg, id: string)
    requires IsStep(before, saved, m)
    ensures id in DeclaredBy(m) ==> saved != before
    ensures saved != before ==> (id in DeclaredBy(saved[|before|]) <==> id in DeclaredBy(m))
  {
  }

  lemma {:induction false} SavedExtends(config: SaveConfig, ms: seq<Msg>, turn: seq<Msg>, now: string, n: nat)
    requires n <= |turn|
    ensures ms <= Saved(config, ms, turn, now, n)
  {
    if n > 0 {
      SavedExtends(config, ms, turn, now, n - 1);
      SavedStep(config, ms, turn, now, n);
    }
  }

  lemma {:induction false} AppendKeepsNoOrphans(ms: seq<Msg>, m: Msg)
    requires NoOrphans(ms) && (m.role.Tool? ==> m.toolCallId in DeclaredUpTo(ms, |ms|))
    ensures NoOrphans(ms + [m])
  {
    var out := ms + [m];
    forall j | 0 <= j < |out| && out[j].role.Tool? && out[j].toolCallId != ""
      ensures exists i :: 0 <= i < j && out[j].toolCallId in DeclaredBy(out[i])
    {
      DeclaredUpToMeaning(ms, |ms|, out[j].toolCallId);
      var i :| 0 <= i < j && out[j].toolCallId in DeclaredBy(ms[i]);
      assert out[i] == ms[i];
    }
  }

  /** No orphan, and no result without an id from `lo` on. */
  ghost predicate IsClean(ms: seq<Msg>, lo: nat) {
    NoOrphans(ms) && forall j :: lo <= j < |ms| && ms[j].role.Tool? ==> ms[j].toolCallId != ""
  }

  /** Saving never lets an orphan, or a result without an id, into the session. */
  lemma {:induction false} SavingKeepsNoOrphans(config: SaveConfig, ms: seq<Msg>, turn: seq<Msg>, now: string, n: nat)
    requires n <= |turn| && NoOrphans(ms)
    ensures IsClean(Saved(config, ms, turn, now, n), |ms|)
  {
    if n > 0 {
      SavingKeepsNoOrphans(config, ms, turn, now, n - 1);
      SavedStep(config, ms, turn, now, n);
      StepKeepsClean(Saved(config, ms, turn, now, n - 1), Saved(config, ms, turn, now, n), turn[n - 1], |ms|);
    }
  }

  lemma StepKeepsClean(before: seq<Msg>, saved: seq<Msg>, m: Msg, lo: nat)
    requires IsStep(before, saved, m) && IsClean(before, lo)
    ensures IsClean(saved, lo)
  {
    if saved != before {
      AppendKeepsNoOrphans(before, saved[|before|]);
      assert saved == before + [saved[|before|]];
    }
  }

  ghost predicate IsDeclared(ms: seq<Msg>, id: string) {
    exists q :: 0 <= q < |ms| && id in DeclaredBy(ms[q])
  }

  lemma DeclaredInExtension(ms: seq<Msg>, out: seq<Msg>, id: string)
    requires ms <= out && IsDeclared(ms, id)
    ensures IsDeclared(out, id)
  {
    var q :| 0 <= q < |ms| && id in DeclaredBy(ms[q]);
    assert id in DeclaredBy(out[q]);
  }

  lemma {:induction false} SavedDeclares(
    config: SaveConfig, ms: seq<Msg>, turn: seq<Msg>, now: string, n: nat, i: nat, id: string)
    requires i < n <= |turn| && id in DeclaredBy(turn[i])
    ensures IsDeclared(Saved(config, ms, turn, now, n), id)
  {
    var before, saved := Saved(config, ms, turn, now, n - 1), Saved(config, ms, turn, now, n);
    SavedStep(config, ms, turn, now, n);
    if i < n - 1 {
      SavedDeclares(config, ms, turn, now, n - 1, i, id);
      DeclaredInExtension(before, saved, id);
    } else {
      StepDeclares(before, saved, turn[n - 1], id);
    }
  }

  /** A call and its result in the turn are a call and its result in the session. */
  lemma {:induction false} SavedAnswers(
    config: SaveConfig, ms: seq<Msg>, turn: seq<Msg>, now: string, n: nat, i: nat, j: nat, id: string)
    requires i < j < n <= |turn| && id in DeclaredBy(turn[i]) && IsResult(turn[j], id)
    ensures Answered(Saved(config, ms, turn, now, n), id)
  {
    var before, saved := Saved(config, ms, turn, now, n - 1), Saved(config, ms, turn, now, n);
    SavedStep(config, ms, turn, now, n);
    if j < n - 1 {
      SavedAnswers(config, ms, turn, now, n - 1, i, j, id);
      AnsweredInExtension(before, saved, id);
    } else {
      SavedDeclares(config, ms, turn, now, n - 1, i, id);
      StepAnswers(before, saved, turn[n - 1], id);
    }
  }

  lemma StepAnswers(before: seq<Msg>, saved: seq<Msg>, m: Msg, id: string)
    requires IsStep(before, saved, m) && IsDeclared(before, id) && IsResult(m, id)
    ensures Answered(saved, id)
  {
    DeclaredUpToMeaning(before, |before|, id);
    var q :| 0 <= q < |before| && id in DeclaredBy(before[q]);
    assert id in DeclaredBy(saved[q]) && IsResult(saved[|before|], id);
  }

  lemma {:induction false} SavedDeclaresOnlyTurn(
    config: SaveConfig, ms: seq<Msg>, turn: seq<Msg>, now: string, n: nat, p: nat, id: string)
    requires n <= |turn| && |ms| <= p < |Saved(config, ms, turn, now, n)|
    requires id in DeclaredBy(Saved(config, ms, turn, now, n)[p])
    ensures IsDeclared(turn[..n], id)
  {
    var before, saved := Saved(config, ms, turn, now, n - 1), Saved(config, ms, turn, now, n);
    SavedStep(config, ms, turn, now, n);
    if p < |before| {
      SavedDeclaresOnlyTurn(config, ms, turn, now, n - 1, p, id);
      DeclaredInExtension(turn[..n - 1], turn[..n], id);
    } else {
      StepDeclares(before, saved, turn[n - 1], id);
      assert turn[..n][n - 1] == turn[n - 1];
    }
  }

  /** Saving a turn whose calls are answered keeps both directions of pairing. */
  lemma {:induction false} SavingKeepsPairing(config: SaveConfig, ms: seq<Msg>, turn: seq<Msg>, now: string)
    requires Paired(ms) && TurnAnswers(ms, turn)
    ensures Paired(Saved(config, ms, turn, now, |turn|))
  {
    var saved := Saved(config, ms, turn, now, |turn|);
    SavingKeepsNoOrphans(config, ms, turn, now, |turn|);
    SavedExtends(config, ms, turn, now, |turn|);
    forall p, id | 0 <= p < |saved| && id in DeclaredBy(saved[p]) ensures Answered(saved, id) {
      DeclaredUpToMeaning(ms, |ms|, id);
      if id in DeclaredUpTo(ms, |ms|) {
        KnownStaysAnswered(ms, saved, id);
      } else {
        NewIsAnswered(config, ms, turn, now, p, id);
      }
    }
  }

  lemma KnownStaysAnswered(ms: seq<Msg>, saved: seq<Msg>, id: string)
    requires AllAnswered(ms) && ms <= saved && id in DeclaredUpTo(ms, |ms|)
    ensures Answered(saved, id)
  {
    DeclaredUpToMeaning(ms, |ms|, id);
    AnsweredInExtension(ms, saved, id);
  }

  lemma NewIsAnswered(config: SaveConfig, ms: seq<Msg>, turn: seq<Msg>, now: string, p: nat, id: string)
    requires TurnAnswers(ms, turn) && id !in DeclaredUpTo(ms, |ms|)
    requires |ms| <= p < |Saved(config, ms, turn, now, |turn|)|
    requires id in DeclaredBy(Saved(config, ms, turn, now, |turn|)[p])
    ensures Answered(Saved(config, ms, turn, now, |turn|), id)
  {
    SavedDeclaresOnlyTurn(config, ms, turn, now, |turn|, p, id);
    assert turn[..|turn|] == turn;
    var i, j :| 0 <= i < j < |turn| && id in DeclaredBy(turn[i]) && IsResult(turn[j], id);
    SavedAnswers(config, ms, turn, now, |turn|, i, j, id);
  }

  // ---- What saving makes of each message ----

  /** A message of the session, or one of the first `n` of the turn, calls with the id. */
  ghost predicate IsCalled(ms: seq<Msg>, turn: seq<Msg>, n: int, id: string) {
    (exists a, k :: Calls(ms, a, k, id)) || exists a, k :: a < n && Calls(turn, a, k, id)
  }

  /** Message `i` of the turn is saved: no empty answer, no result without a call, no user turn without content. */
  ghost predicate IsWorthSaving(config: SaveConfig, ms: seq<Msg>, turn: seq<Msg>, i: nat)
    requires i < |turn|
  {
    var m := turn[i];
    && !(m.role.Assistant? && m.calls == [] && m.content in {NoContent, Text(""), Blocks([])})
    && (m.role.Tool? ==> IsCalled(ms, turn, i, m.toolCallId))
    && !(m.role.User? && m.content.Blocks? && config.sanitize(m.content.blocks, false) == [])
  }

  /** The content saved for a message: results cut to size or sanitised, user blocks sanitised, others as they are. */
  predicate IsContentFor(config: SaveConfig, m: Msg, content: Content) {
    if m.role.Tool? && m.content.Text? && |m.content.text| > config.maxToolResultChars
    then content == Text(config.truncate(m.content.text))
    else if m.role.Tool? && m.content.Blocks?
    then
      var kept := config.sanitize(m.content.blocks, true);
      content == Blocks(if kept == [] then ["[tool result omitted during persistence]"] else kept)
    else if m.role.User? && m.content.Blocks? then content == Blocks(config.sanitize(m.content.blocks, false))
    else content == m.content
  }

  /** The other keys: a time if there was none, no `_meta`, and a user turn's runtime context under a key of its own. */
  ghost predicate IsExtraFor(m: Msg, extra: map<string, string>, now: string) {
    forall key ::
      if key == "timestamp" then key in extra && extra[key] == if key in m.extra then m.extra[key] else now
      else if key == "_meta" then key !in extra
      else if key == "_runtime_context" && m.role.User? && "_meta" in m.extra then
        key in extra && extra[key] == m.extra["_meta"]
      else (key in extra <==> key in m.extra) && (key in extra ==> extra[key] == m.extra[key])
  }

  ghost predicate IsEntryFor(config: SaveConfig, m: Msg, e: Msg, now: string) {
    e == m.(content := e.content, extra := e.extra) && IsContentFor(config, m, e.content) && IsExtraFor(m, e.extra, now)
  }

  lemma PersistedMeaning(config: SaveConfig, m: Msg)
    ensures Persisted(config, m).None? <==>
              m.role.User? && m.content.Blocks? && config.sanitize(m.content.blocks, false) == []
    ensures Persisted(config, m).Some? ==>
              var e := Persisted(config, m).value; e == m.(content := e.content) && IsContentFor(config, m, e.content)
  {
  }

  lemma ExtraMeaning(m: Msg, e: Msg, now: string)
    requires e.extra == SavedExtra(m)
    ensures IsExtraFor(m, Stamped(e, now).extra, now)
  {
  }

  lemma EntryMeaning(config: SaveConfig, m: Msg, declared: set<string>, now: string)
    ensures var e := Entry(config, m, declared, now);
            && (e.Some? ==> IsEntryFor(config, m, e.value, now))
            && (e.None? <==>
                  || (m.role.Assistant? && m.calls == [] && m.content in {NoContent, Text(""), Blocks([])})
                  || (m.role.Tool? && (m.toolCallId == "" || m.toolCallId !in declared))
                  || (m.role.User? && m.content.Blocks? && config.sanitize(m.content.blocks, false) == []))
  {
    var entry := m.(extra := SavedExtra(m));
    PersistedMeaning(config, entry);
    if Persisted(config, entry).Some? {
      ExtraMeaning(m, Persisted(config, entry).value, now);
    }
  }

  lemma DeclaredIsCalled(ms: seq<Msg>, id: string)
    requires id != ""
    ensures id in DeclaredUpTo(ms, |ms|) <==> exists a, k :: Calls(ms, a, k, id)
    ensures id in DeclaredUpTo(ms, |ms|) <==> IsDeclared(ms, id)
  {
    DeclaredUpToMeaning(ms, |ms|, id);
    if i :| 0 <= i < |ms| && id in DeclaredBy(ms[i]) {
      DeclaringIsCalling(ms, i, id);
    }
    if a, k :| Calls(ms, a, k, id) {
      DeclaringIsCalling(ms, a, id);
    }
  }

  /** Whatever the session knows after some messages of the turn was called in it or in them. */
  lemma KnownIsCalled(config: SaveConfig, ms: seq<Msg>, turn: seq<Msg>, now: string, n: nat, id: string)
    requires n <= |turn| && id != ""
    ensures var saved := Saved(config, ms, turn, now, n);
            id in DeclaredUpTo(saved, |saved|) <==> IsCalled(ms, turn, n, id)
  {
    var saved := Saved(config, ms, turn, now, n);
    SavedExtends(config, ms, turn, now, n);
    DeclaredIsCalled(saved, id);
    DeclaredIsCalled(ms, id);
    if IsDeclared(ms, id) {
      DeclaredInExtension(ms, saved, id);
    } else if IsDeclared(saved, id) {
      var p :| 0 <= p < |saved| && id in DeclaredBy(saved[p]);
      NewIsCalled(config, ms, turn, now, n, p, id);
    } else if a, k :| a < n && Calls(turn, a, k, id) {
      DeclaringIsCalling(turn, a, id);
      SavedDeclares(config, ms, turn, now, n, a, id);
    }
  }

  lemma NewIsCalled(config: SaveConfig, ms: seq<Msg>, turn: seq<Msg>, now: string, n: nat, p: nat, id: string)
    requires n <= |turn| && !IsDeclared(ms, id) && p < |Saved(config, ms, turn, now, n)|
    requires id in DeclaredBy(Saved(config, ms, turn, now, n)[p])
    ensures exists a, k :: a < n && Calls(turn, a, k, id)
  {
    SavedExtends(config, ms, turn, now, n);
    assert p >= |ms|;
    SavedDeclaresOnlyTurn(config, ms, turn, now, n, p, id);
    var a :| 0 <= a < n && id in DeclaredBy(turn[..n][a]);
    DeclaringIsCalling(turn, a, id);
  }

  /** `out` is the session with entries for the messages of the turn at the positions `at`. */
  ghost predicate AreEntries(config: SaveConfig, ms: seq<Msg>, turn: seq<Msg>, now: string, at: seq<nat>,
    out: seq<Msg>)
  {
    && |out| == |ms| + |at| && ms <= out
    && (forall k :: 0 <= k < |at| ==> at[k] < |turn| && IsEntryFor(config, turn[at[k]], out[|ms| + k], now))
    && forall j, k :: 0 <= j < k < |at| ==> at[j] < at[k]
  }

  lemma EntryJoins(config: SaveConfig, ms: seq<Msg>, turn: seq<Msg>, now: string, at: seq<nat>, out: seq<Msg>, n: nat,
    e: Msg)
    requires AreEntries(config, ms, turn, now, at, out) && n < |turn| && IsEntryFor(config, turn[n], e, now)
    requires forall k :: 0 <= k < |at| ==> at[k] < n
    ensures AreEntries(config, ms, turn, now, at + [n], out + [e])
  {
  }

  /** The positions of the messages worth saving among the first `n` of the turn. */
  ghost predicate AreWorth(config: SaveConfig, ms: seq<Msg>, turn: seq<Msg>, n: nat, at: seq<nat>) {
    && n <= |turn| && (forall k :: 0 <= k < |at| ==> at[k] < n)
    && forall i :: 0 <= i < n ==> (i in at <==> IsWorthSaving(config, ms, turn, i))
  }

  lemma WorthStep(config: SaveConfig, ms: seq<Msg>, turn: seq<Msg>, n: nat, at: seq<nat>)
    requires n < |turn| && AreWorth(config, ms, turn, n, at)
    ensures AreWorth(config, ms, turn, n + 1, if IsWorthSaving(config, ms, turn, n) then at + [n] else at)
  {
  }

  lemma ExactStep(config: SaveConfig, ms: seq<Msg>, turn: seq<Msg>, now: string, n: nat, at: seq<nat>)
    returns (next: seq<nat>)
    requires n < |turn| && AreWorth(config, ms, turn, n, at)
    requires AreEntries(config, ms, turn, now, at, Saved(config, ms, turn, now, n))
    ensures AreWorth(config, ms, turn, n + 1, next)
    ensures AreEntries(config, ms, turn, now, next, Saved(config, ms, turn, now, n + 1))
  {
    var e := NextSaved(config, ms, turn, now, n);
    var before := Saved(config, ms, turn, now, n);
    WorthStep(config, ms, turn, n, at);
    if IsWorthSaving(config, ms, turn, n) {
      EntryJoins(config, ms, turn, now, at, before, n, e);
      next := at + [n];
    } else {
      next := at;
    }
  }

  /** What is saved, in order: an entry for each message of the turn that is worth saving. */
  lemma {:induction false} SavedIsExact(config: SaveConfig, ms: seq<Msg>, turn: seq<Msg>, now: string, n: nat)
    returns (at: seq<nat>)
    requires n <= |turn|
    ensures AreEntries(config, ms, turn, now, at, Saved(config, ms, turn, now, n)) && AreWorth(config, ms, turn, n, at)
  {
    if n == 0 {
      at := [];
    } else {
      var before := SavedIsExact(config, ms, turn, now, n - 1);
      at := ExactStep(config, ms, turn, now, n - 1, before);
    }
  }

  lemma NextSaved(config: SaveConfig, ms: seq<Msg>, turn: seq<Msg>, now: string, n: nat) returns (e: Msg)
    requires n < |turn|
    ensures Saved(config, ms, turn, now, n + 1)
            == if IsWorthSaving(config, ms, turn, n) then Saved(config, ms, turn, now, n) + [e]
               else Saved(config, ms, turn, now, n)
    ensures IsWorthSaving(config, ms, turn, n) ==> IsEntryFor(config, turn[n], e, now)
  {
    var before := Saved(config, ms, turn, now, n);
    EntryIsWorth(config, ms, turn, now, n);
    var entry := Entry(config, turn[n], DeclaredUpTo(before, |before|), now);
    e := if entry.Some? then entry.value else turn[n];
  }

  lemma EntryIsWorth(config: SaveConfig, ms: seq<Msg>, turn: seq<Msg>, now: string, n: nat)
    requires n < |turn|
    ensures var before := Saved(config, ms, turn, now, n);
            var e := Entry(config, turn[n], DeclaredUpTo(before, |before|), now);
            && (e.Some? <==> IsWorthSaving(config, ms, turn, n))
            && (e.Some? ==> IsEntryFor(config, turn[n], e.value, now))
  {
    var before := Saved(config, ms, turn, now, n);
    EntryMeaning(config, turn[n], DeclaredUpTo(before, |before|), now);
    if turn[n].toolCallId != "" {
      KnownIsCalled(config, ms, turn, now, n, turn[n].toolCallId);
    }
  }
}
