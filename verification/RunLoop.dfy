/** The run loop: how many provider requests it makes, what it injects, and what it leaves in the history. */
module RunLoop {
  import opened Messages
  import Batches
  import History
  import Governance
  import Repair
  import opened Wrappers

  const MAX_EMPTY_RETRIES: nat := 2
  const MAX_LENGTH_RECOVERIES: nat := 3
  const MAX_INJECTIONS_PER_TURN: nat := 3
  const MAX_INJECTION_CYCLES: nat := 5

  datatype ToolCall = ToolCall(id: string, name: string, validName: bool)

  /** `tool_calls` and `function_call` are one reason here. */
  datatype Finish = ForTools | Stopped | Length | Failed | OtherReason

  /** A provider response; `blank` says that its cleaned content is empty. */
  datatype Response = Response(finish: Finish, calls: seq<ToolCall>, text: string, blank: bool)

  datatype ToolResult = ToolResult(content: string, fatal: bool)

  /** What the completion guard does: it may allow the end, refuse it with messages of its own, or raise. */
  datatype Guard = Allows | Refuses(added: seq<(Role, string)>) | Raises

  /** Everything outside the loop, by the number of the iteration, request, drain or guard call. */
  datatype World = World(
    governance: Governance.Config,
    provider: nat -> Response,
    injections: nat -> seq<Msg>,
    goalActive: nat -> bool,
    guard: nat -> Guard,
    tool: (nat, nat, ToolCall) -> ToolResult,
    safe: ToolCall -> bool,
    concurrent: bool,
    hidden: Msg -> bool,
    merge: (Content, Content) -> Content,
    notes: nat -> string
  )

  predicate Executes(r: Response) {
    r.calls != [] && (r.finish.ForTools? || r.finish.Stopped?)
  }

  predicate AllNamed(calls: seq<ToolCall>) {
    forall i :: 0 <= i < |calls| ==> calls[i].validName
  }

  function ValidCalls(calls: seq<ToolCall>): (valid: seq<ToolCall>)
    ensures |valid| <= |calls|
  {
    if calls == [] then []
    else
      var rest := ValidCalls(calls[..|calls| - 1]);
      if calls[|calls| - 1].validName then rest + [calls[|calls| - 1]] else rest
  }

  /** `_drop_malformed_tool_calls`: the cleaned response, and whether all of its calls were malformed. */
  function DropMalformed(r: Response): (Response, bool) {
    var valid := ValidCalls(r.calls);
    if |valid| == |r.calls| then (r, false)
    else (r.(calls := valid, finish := if valid == [] then Stopped else r.finish), valid == [])
  }

  // ---- messages ----

  function Plain(role: Role, text: string): Msg {
    Msg(role, Text(text), [], "", NoName, "", map[])
  }

  function CallOf(c: ToolCall): Call {
    Call(c.id, Callee(Named(c.name)), NoName)
  }

  function CallsOf(calls: seq<ToolCall>): (cs: seq<Call>)
    ensures |cs| == |calls| && forall i :: 0 <= i < |calls| ==> cs[i] == CallOf(calls[i])
  {
    seq(|calls|, i requires 0 <= i < |calls| => CallOf(calls[i]))
  }

  function CallingMessage(r: Response): Msg {
    Msg(Assistant, Text(r.text), CallsOf(r.calls), "", NoName, "", map[])
  }

  function ResultMessage(c: ToolCall, r: ToolResult): Msg {
    Msg(Tool, Text(r.content), [], c.id, Named(c.name), "", map[])
  }

  /** Neither declares a call nor answers one. */
  predicate IsNeutral(m: Msg) {
    (m.role.Assistant? ==> m.calls == []) && (m.role.Tool? ==> m.toolCallId == "")
  }

  lemma NeutralKeepsAnswered(ms: seq<Msg>, m: Msg)
    requires AllAnswered(ms) && IsNeutral(m)
    ensures AllAnswered(ms + [m])
  {
    var out := ms + [m];
    forall i, id | 0 <= i < |out| && id in DeclaredBy(out[i]) ensures Answered(out, id) {
      assert out[i] == ms[i];
      History.AnsweredInExtension(ms, out, id);
    }
  }

  lemma NeutralKeepsPairing(ms: seq<Msg>, m: Msg)
    requires Paired(ms) && IsNeutral(m)
    ensures Paired(ms + [m])
  {
    var out := ms + [m];
    forall j | 0 <= j < |out| && out[j].role.Tool? && out[j].toolCallId != ""
      ensures exists i :: 0 <= i < j && out[j].toolCallId in DeclaredBy(out[i])
    {
      var i :| 0 <= i < j && ms[j].toolCallId in DeclaredBy(ms[i]);
      assert out[i] == ms[i];
    }
    NeutralKeepsAnswered(ms, m);
  }

  lemma DroppingNeutralKeepsAnswered(ms: seq<Msg>)
    requires AllAnswered(ms) && ms != [] && IsNeutral(ms[|ms| - 1])
    ensures AllAnswered(ms[..|ms| - 1])
  {
    var out := ms[..|ms| - 1];
    forall i, id | 0 <= i < |out| && id in DeclaredBy(out[i]) ensures Answered(out, id) {
      assert ms[i] == out[i] && Answered(ms, id);
      assert !IsResult(ms[|ms| - 1], id);
      var a, b :| 0 <= a < b < |ms| && id in DeclaredBy(ms[a]) && IsResult(ms[b], id);
      assert id in DeclaredBy(out[a]) && IsResult(out[b], id);
    }
  }

  lemma DroppingNeutralKeepsPairing(ms: seq<Msg>)
    requires Paired(ms) && ms != [] && IsNeutral(ms[|ms| - 1])
    ensures Paired(ms[..|ms| - 1])
  {
    var out := ms[..|ms| - 1];
    forall j | 0 <= j < |out| && out[j].role.Tool? && out[j].toolCallId != ""
      ensures exists i :: 0 <= i < j && out[j].toolCallId in DeclaredBy(out[i])
    {
      var i :| 0 <= i < j && ms[j].toolCallId in DeclaredBy(ms[i]);
      assert out[i] == ms[i];
    }
    DroppingNeutralKeepsAnswered(ms);
  }

  /** A note behind a list changes nothing about its pairing. */
  lemma NoteIsNeutral(ms: seq<Msg>, m: Msg)
    requires IsNeutral(m)
    ensures Paired(ms + [m]) <==> Paired(ms)
  {
    if Paired(ms) {
      NeutralKeepsPairing(ms, m);
    }
    if Paired(ms + [m]) {
      DroppingNeutralKeepsPairing(ms + [m]);
      assert (ms + [m])[..|ms|] == ms;
    }
  }

  lemma ReplacingNeutralKeepsPairing(ms: seq<Msg>, m: Msg)
    requires Paired(ms) && ms != [] && IsNeutral(ms[|ms| - 1]) && IsNeutral(m)
    ensures Paired(ms[..|ms| - 1] + [m])
  {
    DroppingNeutralKeepsPairing(ms);
    NeutralKeepsPairing(ms[..|ms| - 1], m);
  }

  /** A calling message and one result for each of its calls, in their order. */
  ghost predicate IsToolTurn(r: Response, turn: seq<Msg>) {
    && |turn| == |r.calls| + 1 && turn[0] == CallingMessage(r)
    && forall j :: 1 <= j < |turn| ==> turn[j].role.Tool? && turn[j].toolCallId == r.calls[j - 1].id
  }

  function ToolTurn(world: World, n: nat, r: Response): (turn: seq<Msg>)
    ensures |turn| == |r.calls| + 1
    ensures forall j :: 1 <= j < |turn| ==>
              turn[j] == ResultMessage(r.calls[j - 1], world.tool(n, j - 1, r.calls[j - 1]))
    ensures IsToolTurn(r, turn)
  {
    seq(|r.calls| + 1, j requires 0 <= j <= |r.calls| =>
      if j == 0 then CallingMessage(r) else ResultMessage(r.calls[j - 1], world.tool(n, j - 1, r.calls[j - 1])))
  }

  lemma ToolTurnNoOrphans(ms: seq<Msg>, r: Response, turn: seq<Msg>)
    requires NoOrphans(ms) && IsToolTurn(r, turn)
    ensures NoOrphans(ms + turn)
  {
    var out := ms + turn;
    assert turn[0].role.Assistant?;
    forall j | 0 <= j < |out| && out[j].role.Tool? && out[j].toolCallId != ""
      ensures exists i :: 0 <= i < j && out[j].toolCallId in DeclaredBy(out[i])
    {
      if j < |ms| {
        var i :| 0 <= i < j && ms[j].toolCallId in DeclaredBy(ms[i]);
        assert out[i] == ms[i];
      } else {
        assert out[j] == turn[j - |ms|] && out[|ms|] == turn[0];
        assert j > |ms| ==> CallsOf(r.calls)[j - |ms| - 1] in turn[0].calls;
      }
    }
  }

  lemma ToolTurnKeepsAnswered(ms: seq<Msg>, r: Response, turn: seq<Msg>)
    requires AllAnswered(ms) && IsToolTurn(r, turn)
    ensures AllAnswered(ms + turn)
  {
    var out := ms + turn;
    assert forall i :: |ms| < i < |out| ==> out[i] == turn[i - |ms|] && out[i].role.Tool?;
    forall i, id | 0 <= i < |out| && id in DeclaredBy(out[i]) ensures Answered(out, id) {
      if i < |ms| {
        assert out[i] == ms[i];
        History.AnsweredInExtension(ms, out, id);
      } else if i == |ms| {
        assert out[i] == turn[0];
        ToolTurnAnswers(ms, r, turn, id);
      }
    }
  }

  lemma ToolTurnKeepsPairing(ms: seq<Msg>, r: Response, turn: seq<Msg>)
    requires Paired(ms) && IsToolTurn(r, turn)
    ensures Paired(ms + turn)
  {
    ToolTurnNoOrphans(ms, r, turn);
    ToolTurnKeepsAnswered(ms, r, turn);
  }

  lemma ToolTurnAnswers(ms: seq<Msg>, r: Response, turn: seq<Msg>, id: string)
    requires IsToolTurn(r, turn) && id in DeclaredBy(turn[0])
    ensures Answered(ms + turn, id)
  {
    var out := ms + turn;
    assert out[|ms|] == turn[0];
    var c :| c in turn[0].calls && c.Call? && c.id == id;
    var k :| 0 <= k < |turn[0].calls| && turn[0].calls[k] == c;
    assert out[|ms| + k + 1] == turn[k + 1];
    assert IsResult(out[|ms| + k + 1], id);
  }

  predicate IsAnswer(m: Msg) {
    m.role.Assistant? && m.calls == []
  }

  /** The last message is the answer with this text. */
  predicate EndsWith(ms: seq<Msg>, text: string) {
    ms != [] && IsAnswer(ms[|ms| - 1]) && ms[|ms| - 1].content == Text(text)
  }

  /** The history ends in an assistant message that calls nothing. */
  predicate EndsInAnswer(ms: seq<Msg>) {
    ms != [] && ms[|ms| - 1].role.Assistant? && ms[|ms| - 1].calls == []
  }

  /** The fixed notes are texts, and a response that is not blank has one. */
  ghost predicate TextsAreReal(world: World) {
    (forall k :: world.notes(k) != "") && forall n :: world.provider(n).blank || world.provider(n).text != ""
  }

  ghost predicate ArePaired(sent: seq<seq<Msg>>) {
    forall i :: 0 <= i < |sent| ==> Paired(sent[i])
  }

  // ---- an orphan stays ----

  lemma OrphanStaysBehind(ms: seq<Msg>, more: seq<Msg>)
    ensures NoOrphans(ms + more) ==> NoOrphans(ms)
  {
    var out := ms + more;
    if NoOrphans(out) {
      forall j | 0 <= j < |ms| && ms[j].role.Tool? && ms[j].toolCallId != ""
        ensures exists i :: 0 <= i < j && ms[j].toolCallId in DeclaredBy(ms[i])
      {
        assert out[j] == ms[j];
        var i :| 0 <= i < j && out[j].toolCallId in DeclaredBy(out[i]);
        assert ms[i] == out[i];
      }
    }
  }

  lemma OrphanIsNotReplaced(ms: seq<Msg>, m: Msg)
    requires ms != [] && IsNeutral(ms[|ms| - 1])
    ensures NoOrphans(ms[..|ms| - 1] + [m]) ==> NoOrphans(ms)
  {
    var front, last := ms[..|ms| - 1], ms[|ms| - 1];
    OrphanStaysBehind(front, [m]);
    assert ms == front + [last];
    if NoOrphans(front) {
      forall j | 0 <= j < |ms| && ms[j].role.Tool? && ms[j].toolCallId != ""
        ensures exists i :: 0 <= i < j && ms[j].toolCallId in DeclaredBy(ms[i])
      {
        assert ms[j] == front[j];
        var i :| 0 <= i < j && front[j].toolCallId in DeclaredBy(front[i]);
        assert ms[i] == front[i];
      }
    }
  }

  // ---- what later steps leave alone ----

  /**
   * Behind `before` come only messages that call nothing and answer no call; before its end nothing
   * changes, and at its end only a message that is neither a call nor a result.
   */
  ghost predicate KeepsTurns(before: seq<Msg>, after: seq<Msg>) {
    && |before| <= |after|
    && (forall i :: 0 <= i < |before| - 1 ==> after[i] == before[i])
    && (before != [] ==> IsKept(before[|before| - 1], after[|before| - 1]))
    && forall i :: |before| <= i < |after| ==> IsNeutral(after[i])
  }

  predicate IsKept(m: Msg, now: Msg) {
    now == m || (!m.role.Tool? && IsNeutral(m) && !now.role.Tool? && IsNeutral(now))
  }

  lemma KeepsTurnsOnward(a: seq<Msg>, b: seq<Msg>, c: seq<Msg>)
    requires KeepsTurns(a, b) && KeepsTurns(b, c)
    ensures KeepsTurns(a, c)
  {
  }

  lemma AppendingKeepsTurns(ms: seq<Msg>, more: seq<Msg>)
    requires forall i :: 0 <= i < |more| ==> IsNeutral(more[i])
    ensures KeepsTurns(ms, ms + more)
  {
  }

  /** A tool turn ends in a result, or in a calling message without calls. */
  lemma TurnStands(ms: seq<Msg>, r: Response, turn: seq<Msg>, after: seq<Msg>)
    requires IsToolTurn(r, turn) && r.calls != [] && KeepsTurns(ms + turn, after)
    ensures ms + turn <= after
  {
  }

  // ---- what the run appended ----

  /** The messages from `start` on answer their own calls. */
  ghost predicate AnswersItself(messages: seq<Msg>, start: nat) {
    start <= |messages| && AllAnswered(messages[start..])
  }

  lemma AppendingKeepsAnswers(messages: seq<Msg>, start: nat, m: Msg)
    requires AnswersItself(messages, start) && IsNeutral(m)
    ensures AnswersItself(messages + [m], start)
  {
    NeutralKeepsAnswered(messages[start..], m);
    assert (messages + [m])[start..] == messages[start..] + [m];
  }

  lemma ReplacingKeepsAnswers(messages: seq<Msg>, start: nat, m: Msg)
    requires AnswersItself(messages, start) && messages != [] && IsNeutral(messages[|messages| - 1]) && IsNeutral(m)
    ensures AnswersItself(messages[..|messages| - 1] + [m], start)
  {
    var n := |messages| - 1;
    var out := messages[..n] + [m];
    if start <= n {
      DroppingNeutralKeepsAnswered(messages[start..]);
      assert messages[start..][..n - start] == messages[start..n];
      NeutralKeepsAnswered(messages[start..n], m);
      assert out[start..] == messages[start..n] + [m];
    } else {
      assert out[start..] == [];
    }
  }

  lemma ToolTurnKeepsAnswers(messages: seq<Msg>, start: nat, r: Response, turn: seq<Msg>)
    requires AnswersItself(messages, start) && IsToolTurn(r, turn)
    ensures AnswersItself(messages + turn, start)
  {
    ToolTurnKeepsAnswered(messages[start..], r, turn);
    assert (messages + turn)[start..] == messages[start..] + turn;
  }

  /** Messages in front that call nothing do not matter. */
  lemma NeutralFrontAnswers(front: seq<Msg>, turn: seq<Msg>)
    requires AllAnswered(turn) && forall i :: 0 <= i < |front| ==> IsNeutral(front[i])
    ensures AllAnswered(front + turn)
  {
    var out := front + turn;
    forall i, id | 0 <= i < |out| && id in DeclaredBy(out[i]) ensures Answered(out, id) {
      assert forall k :: 0 <= k < |front| ==> out[k] == front[k] && IsNeutral(out[k]);
      assert out[i] == turn[i - |front|] && id in DeclaredBy(turn[i - |front|]);
      assert Answered(turn, id);
      var a, b :| 0 <= a < b < |turn| && id in DeclaredBy(turn[a]) && IsResult(turn[b], id);
      assert out[|front| + a] == turn[a] && out[|front| + b] == turn[b];
    }
  }

  /**
   * What a run appended can be saved without breaking a session's pairing: from the end of its
   * initial messages, or from its own user message, which calls nothing.
   */
  lemma SavedRunIsPaired(config: History.SaveConfig, session: seq<Msg>, run: Run, skip: nat, now: string)
    requires Paired(session) && run.Valid() && skip <= run.start
    requires forall i :: skip <= i < run.start ==> IsNeutral(run.messages[i])
    ensures Paired(History.Saved(config, session, run.messages[skip..], now, |run.messages| - skip))
  {
    var front, turn := run.messages[skip..run.start], run.messages[run.start..];
    NeutralFrontAnswers(front, turn);
    assert run.messages[skip..] == front + turn;
    History.SavingKeepsPairing(config, session, run.messages[skip..], now);
  }

  // ---- the run ----

  /** The checkpoint in front of the tools: every call of the turn is pending. */
  function Before(turn: seq<Msg>): History.Checkpoint
    requires turn != []
  {
    History.Checkpoint(Some(turn[0]), [], turn[0].calls)
  }

  /** The checkpoint behind them: every result of the turn is there. */
  function Behind(turn: seq<Msg>): History.Checkpoint
    requires turn != []
  {
    History.Checkpoint(Some(turn[0]), Somes(turn[1..]), [])
  }

  function Somes(ms: seq<Msg>): (all: seq<Option<Msg>>)
    ensures |all| == |ms| && forall i :: 0 <= i < |ms| ==> all[i] == Some(ms[i])
  {
    seq(|ms|, i requires 0 <= i < |ms| => Some(ms[i]))
  }

  lemma ResultsAreForCalls(world: World, n: nat, r: Response)
    ensures History.WrittenByRunner(
              History.Checkpoint(Some(CallingMessage(r)), Somes(ToolTurn(world, n, r)[1..]), []))
  {
    var turn := ToolTurn(world, n, r);
    forall i | 0 <= i < |r.calls| ensures History.IsResultFor(Somes(turn[1..])[i], CallsOf(r.calls)[i]) {
      assert turn[1..][i] == turn[i + 1];
    }
  }

  /** The messages of a tool turn and the results its checkpoint keeps. */
  method TurnOf(world: World, n: nat, r: Response, results: seq<ToolResult>)
    returns (turn: seq<Msg>, completed: seq<Option<Msg>>, fatal: bool)
    requires |results| == |r.calls| && forall i :: 0 <= i < |results| ==> results[i] == world.tool(n, i, r.calls[i])
    ensures turn == ToolTurn(world, n, r) && completed == Somes(turn[1..])
    ensures fatal <==> exists i :: 0 <= i < |r.calls| && world.tool(n, i, r.calls[i]).fatal
  {
    turn, completed, fatal := [CallingMessage(r)], [], false;
    for k := 0 to |r.calls|
      invariant turn == ToolTurn(world, n, r)[..k + 1]
      invariant |completed| == k && forall i :: 0 <= i < k ==> completed[i] == Some(ToolTurn(world, n, r)[i + 1])
      invariant fatal <==> exists i :: 0 <= i < k && world.tool(n, i, r.calls[i]).fatal
    {
      var message := ResultMessage(r.calls[k], results[k]);
      assert message == ToolTurn(world, n, r)[k + 1];
      turn := turn + [message];
      completed := completed + [Some(message)];
      fatal := fatal || results[k].fatal;
    }
    assert completed == Somes(turn[1..]);
  }

  // ---- follow-ups and endings ----

  /** One follow-up: merged into a user message that ends the history, unless one of them is hidden. */
  function Joined(world: World, ms: seq<Msg>, item: Msg): seq<Msg> {
    var n := |ms| - 1;
    if ms != [] && ms[n].role.User? && !world.hidden(item) && !world.hidden(ms[n])
    then ms[..n] + [ms[n].(content := world.merge(ms[n].content, item.content))]
    else ms + [item]
  }

  function JoinedAll(world: World, ms: seq<Msg>, items: seq<Msg>): seq<Msg> {
    if items == [] then ms else Joined(world, JoinedAll(world, ms, items[..|items| - 1]), items[|items| - 1])
  }

  /** Follow-ups change nothing before the last message, keep its role, and end the history in a user message. */
  lemma {:induction false} JoiningKeepsHistory(world: World, ms: seq<Msg>, items: seq<Msg>)
    requires forall i :: 0 <= i < |items| ==> items[i].role.User?
    ensures var out := JoinedAll(world, ms, items);
            && |ms| <= |out| <= |ms| + |items|
            && (forall i :: 0 <= i < |ms| - 1 ==> out[i] == ms[i])
            && (ms != [] ==> out[|ms| - 1].(content := ms[|ms| - 1].content) == ms[|ms| - 1])
            && (ms != [] && !ms[|ms| - 1].role.User? ==> ms <= out)
            && (items != [] ==> out != [] && out[|out| - 1].role.User?)
  {
    if items != [] {
      JoiningKeepsHistory(world, ms, items[..|items| - 1]);
    }
  }

  /** One follow-up: merged into a user message at the end if neither is hidden, appended otherwise. */
  lemma JoiningOne(world: World, ms: seq<Msg>, item: Msg)
    ensures var n, out := |ms| - 1, JoinedAll(world, ms, [item]);
            if n >= 0 && ms[n].role.User? && !world.hidden(item) && !world.hidden(ms[n])
            then out == ms[n := ms[n].(content := world.merge(ms[n].content, item.content))]
            else out == ms + [item]
  {
    assert [item][..0] == [] && JoinedAll(world, ms, []) == ms;
    assert JoinedAll(world, ms, [item]) == Joined(world, ms, item);
  }

  lemma {:induction false} JoiningKeepsTurns(world: World, ms: seq<Msg>, items: seq<Msg>)
    requires forall i :: 0 <= i < |items| ==> items[i].role.User?
    ensures KeepsTurns(ms, JoinedAll(world, ms, items))
  {
    if items != [] {
      var before, item := JoinedAll(world, ms, items[..|items| - 1]), items[|items| - 1];
      JoiningKeepsTurns(world, ms, items[..|items| - 1]);
      assert KeepsTurns(before, Joined(world, before, item));
      KeepsTurnsOnward(ms, before, Joined(world, before, item));
    }
  }

  /** What a drain finds: at most three user messages, and nothing once the cycles are used up. */
  function Found(world: World, cycles: nat, drains: nat): (items: seq<Msg>)
    ensures |items| <= MAX_INJECTIONS_PER_TURN && forall i :: 0 <= i < |items| ==> items[i].role.User?
  {
    var users := AsUsers(world.injections(drains));
    if cycles >= MAX_INJECTION_CYCLES then []
    else if |users| > MAX_INJECTIONS_PER_TURN then users[..MAX_INJECTIONS_PER_TURN] else users
  }

  lemma FoundMeaning(world: World, cycles: nat, drains: nat)
    ensures var found, there := Found(world, cycles, drains), world.injections(drains);
            && |found| == (if cycles >= 5 then 0 else if |there| > 3 then 3 else |there|)
            && forall i :: 0 <= i < |found| ==> found[i] == there[i].(role := User)
  {
  }

  /** The history goes on with the answer and the follow-ups found, or else with a note while a goal is active. */
  predicate FollowUps(world: World, found: seq<Msg>, goal: bool, assistant: Option<Msg>, before: seq<Msg>,
    after: seq<Msg>, more: bool)
  {
    var noted := found == [] && goal && assistant.Some?;
    && more == (found != [] || noted)
    && after == if !more then before
                else JoinedAll(world, before + (if assistant.Some? then [assistant.value] else []),
                       if noted then [Plain(User, world.notes(0))] else found)
  }

  lemma FollowUpsAlone(world: World, found: seq<Msg>, before: seq<Msg>, after: seq<Msg>, more: bool)
    requires FollowUps(world, found, false, None, before, after, more)
    ensures after == JoinedAll(world, before, found)
  {
    assert before + [] == before;
  }

  lemma FollowUpsKeepTurns(world: World, found: seq<Msg>, goal: bool, assistant: Option<Msg>, before: seq<Msg>,
    after: seq<Msg>, more: bool)
    requires FollowUps(world, found, goal, assistant, before, after, more)
    requires forall i :: 0 <= i < |found| ==> found[i].role.User?
    requires assistant.Some? ==> assistant.value.role.Assistant? && assistant.value.calls == []
    ensures KeepsTurns(before, after)
  {
    if more {
      var answered := before + if assistant.Some? then [assistant.value] else [];
      AppendingKeepsTurns(before, if assistant.Some? then [assistant.value] else []);
      var items := if found == [] then [Plain(User, world.notes(0))] else found;
      JoiningKeepsTurns(world, answered, items);
      KeepsTurnsOnward(before, answered, after);
    }
  }

  /** What a refusal of the guard adds: its own messages and the barrier note. */
  function Refusal(world: World, added: seq<(Role, string)>): seq<Msg> {
    seq(|added|, i requires 0 <= i < |added| => Plain(added[i].0, added[i].1)) + [Plain(User, world.notes(1))]
  }

  lemma GuardKeepsTurns(world: World, ms: seq<Msg>, k: nat)
    ensures world.guard(k).Refuses? ==> KeepsTurns(ms, ms + Refusal(world, world.guard(k).added))
    ensures KeepsTurns(ms, ms + [])
  {
  }

  /** The history with `text` as its final answer. */
  function WithAnswer(ms: seq<Msg>, text: string): seq<Msg> {
    if text == "" then ms
    else if !EndsInAnswer(ms) then ms + [Plain(Assistant, text)]
    else if ms[|ms| - 1].content == Text(text) then ms
    else ms[..|ms| - 1] + [Plain(Assistant, text)]
  }

  lemma PlaceholderKeepsTurns(world: World, ms: seq<Msg>)
    ensures KeepsTurns(ms, ms + []) && KeepsTurns(ms, ms + [Plain(Assistant, world.notes(2))])
  {
  }

  lemma WithAnswerKeepsTurns(ms: seq<Msg>, text: string)
    ensures KeepsTurns(ms, WithAnswer(ms, text))
  {
  }

  /** The response of a model call that starts with request `n`, and the number of the request after it. */
  function ModelCall(world: World, n: nat): (Response, nat) {
    if !RetriesMalformed(world.provider(n)) then (DropMalformed(world.provider(n)).0, n + 1)
    else if !RetriesMalformed(world.provider(n + 1)) then (DropMalformed(world.provider(n + 1)).0, n + 2)
    else (world.provider(n + 2), n + 3)
  }

  /** A tool response all of whose calls lack a valid name. */
  predicate IsDegenerate(p: Response) {
    p.finish.ForTools? && p.calls != [] && forall i :: 0 <= i < |p.calls| ==> !p.calls[i].validName
  }

  /** `r` is the response `p` with its validly named calls, in their order; without any it has stopped. */
  ghost predicate IsCleaned(p: Response, r: Response) {
    && r.text == p.text && r.blank == p.blank
    && r.calls == Filtered((c: ToolCall) => c.validName, p.calls)
    && r.finish == if p.calls != [] && (forall i :: 0 <= i < |p.calls| ==> !p.calls[i].validName) then Stopped
                   else p.finish
  }

  /** The reply to a model call that starts with request `n` and ends in front of request `m`. */
  ghost predicate IsReply(world: World, n: nat, r: Response, m: nat) {
    if !IsDegenerate(world.provider(n)) then m == n + 1 && IsCleaned(world.provider(n), r)
    else if !IsDegenerate(world.provider(n + 1)) then m == n + 2 && IsCleaned(world.provider(n + 1), r)
    else m == n + 3 && r == world.provider(n + 2)
  }

  lemma {:induction false} ValidCallsMeaning(calls: seq<ToolCall>)
    ensures ValidCalls(calls) == Filtered((c: ToolCall) => c.validName, calls)
    ensures ValidCalls(calls) == [] <==> forall i :: 0 <= i < |calls| ==> !calls[i].validName
  {
    if calls != [] {
      ValidCallsMeaning(calls[..|calls| - 1]);
    }
  }

  lemma DropMalformedMeaning(p: Response)
    ensures IsCleaned(p, DropMalformed(p).0) && (RetriesMalformed(p) <==> IsDegenerate(p))
  {
    ValidCallsMeaning(p.calls);
    ValidCallsAreValid(p.calls);
  }

  lemma ModelCallMeaning(world: World, n: nat)
    ensures IsReply(world, n, ModelCall(world, n).0, ModelCall(world, n).1)
  {
    DropMalformedMeaning(world.provider(n));
    DropMalformedMeaning(world.provider(n + 1));
  }

  // ---- a whole run, iteration by iteration ----

  /** The calling message of a response and the results of its calls, in their order. */
  ghost predicate IsExecution(world: World, n: nat, r: Response, turn: seq<Msg>) {
    && |turn| == |r.calls| + 1
    && turn[0].role.Assistant? && turn[0].content == Text(r.text) && |turn[0].calls| == |r.calls|
    && forall j :: 0 <= j < |r.calls| ==>
         && turn[0].calls[j] == Call(r.calls[j].id, Callee(Name.Named(r.calls[j].name)), NoName)
         && turn[j + 1].role.Tool? && turn[j + 1].toolCallId == r.calls[j].id
         && turn[j + 1].name == Name.Named(r.calls[j].name)
         && turn[j + 1].content == Text(world.tool(n, j, r.calls[j]).content)
  }

  lemma ToolTurnIsExecution(world: World, n: nat, r: Response)
    ensures IsExecution(world, n, r, ToolTurn(world, n, r))
  {
    var turn := ToolTurn(world, n, r);
    forall j | 0 <= j < |r.calls|
      ensures turn[j + 1] == ResultMessage(r.calls[j], world.tool(n, j, r.calls[j]))
    {
    }
  }

  /** An iteration: the histories before and after it, its model call, and the reply. */
  datatype Step = Step(before: seq<Msg>, asked: nat, reply: Response, answered: nat, after: seq<Msg>)

  /** The reply's calls are executed exactly if it ends for tools or by itself. */
  predicate CallsTools(x: Step) {
    x.reply.calls != [] && x.reply.finish in {ForTools, Stopped}
  }

  /** The tools of the reply are run and its turn joins the history, or no call and no result does. */
  ghost predicate IsStep(world: World, x: Step) {
    && IsReply(world, x.asked, x.reply, x.answered)
    && if CallsTools(x) then
         exists turn :: IsExecution(world, x.answered, x.reply, turn) && x.before + turn <= x.after
                        && KeepsTurns(x.before + turn, x.after)
       else KeepsTurns(x.before, x.after)
  }

  lemma IterationIsStep(world: World, x: Step)
    requires (x.reply, x.answered) == ModelCall(world, x.asked)
    requires KeepsTurns(if Executes(x.reply) then x.before + ToolTurn(world, x.answered, x.reply) else x.before,
                        x.after)
    ensures IsStep(world, x)
  {
    ModelCallMeaning(world, x.asked);
    if Executes(x.reply) {
      ToolTurnIsExecution(world, x.answered, x.reply);
      TurnStands(x.before, x.reply, ToolTurn(world, x.answered, x.reply), x.after);
    }
  }

  /** The iterations of a run that began with `initial` and has come to the history `now`. */
  ghost predicate IsLog(world: World, initial: seq<Msg>, log: seq<Step>, now: seq<Msg>) {
    && (forall i :: 0 <= i < |log| ==> IsStep(world, log[i]))
    && (forall i, j :: 0 <= i < j < |log| && j == i + 1 ==>
          log[j].before == log[i].after && log[i].answered <= log[j].asked)
    && (log != [] ==> log[0].before == initial && log[0].asked == 0)
    && KeepsTurns(if log == [] then initial else log[|log| - 1].after, now)
  }

  /** The log ends in the history `now`, in front of request `n`. */
  ghost predicate IsLogTo(world: World, initial: seq<Msg>, log: seq<Step>, now: seq<Msg>, n: nat) {
    && IsLog(world, initial, log, now)
    && if log == [] then now == initial && n == 0 else now == log[|log| - 1].after && log[|log| - 1].answered <= n
  }

  lemma LogGrows(world: World, initial: seq<Msg>, log: seq<Step>, x: Step, n: nat)
    requires IsLogTo(world, initial, log, x.before, x.asked) && IsStep(world, x) && x.answered <= n
    ensures IsLogTo(world, initial, log + [x], x.after, n)
  {
    var grown := log + [x];
    forall i, j | 0 <= i < j < |grown| && j == i + 1
      ensures grown[j].before == grown[i].after && grown[i].answered <= grown[j].asked
    {
      assert j < |log| ==> log[j].before == log[i].after && log[i].answered <= log[j].asked;
    }
  }

  /** The history up to and with a tool result. */
  predicate EndsInResult(front: seq<Msg>) {
    front != [] && front[|front| - 1].role.Tool?
  }

  lemma FrontStays(front: seq<Msg>, ms: seq<Msg>, now: seq<Msg>)
    requires EndsInResult(front) && front <= ms && KeepsTurns(ms, now)
    ensures front <= now
  {
  }

  lemma FrontStaysInStep(world: World, front: seq<Msg>, x: Step)
    requires EndsInResult(front) && front <= x.before && IsStep(world, x)
    ensures front <= x.after
  {
    if CallsTools(x) {
      var turn :| IsExecution(world, x.answered, x.reply, turn) && x.before + turn <= x.after;
      assert front <= x.before + turn;
    } else {
      FrontStays(front, x.before, x.after);
    }
  }

  lemma {:induction false} FrontStaysToEnd(world: World, initial: seq<Msg>, log: seq<Step>, now: seq<Msg>, i: nat,
    front: seq<Msg>)
    requires IsLog(world, initial, log, now) && i < |log| && EndsInResult(front) && front <= log[i].after
    ensures front <= now
    decreases |log| - i
  {
    if i == |log| - 1 {
      FrontStays(front, log[i].after, now);
    } else {
      assert log[i + 1].before == log[i].after;
      FrontStaysInStep(world, front, log[i + 1]);
      FrontStaysToEnd(world, initial, log, now, i + 1, front);
    }
  }

  lemma TurnOfStep(world: World, x: Step) returns (turn: seq<Msg>)
    requires IsStep(world, x) && CallsTools(x)
    ensures IsExecution(world, x.answered, x.reply, turn) && x.before + turn <= x.after
    ensures EndsInResult(x.before + turn)
  {
    turn :| IsExecution(world, x.answered, x.reply, turn) && x.before + turn <= x.after;
    var last := |x.reply.calls| - 1;
    assert turn[last + 1].toolCallId == x.reply.calls[last].id;
  }

  /** The turn of an iteration whose reply calls tools stands in the history behind what was there before. */
  lemma TurnsStand(world: World, initial: seq<Msg>, log: seq<Step>, now: seq<Msg>, i: nat) returns (turn: seq<Msg>)
    requires IsLog(world, initial, log, now) && i < |log| && CallsTools(log[i])
    ensures IsExecution(world, log[i].answered, log[i].reply, turn) && log[i].before + turn <= now
  {
    turn := TurnOfStep(world, log[i]);
    FrontStaysToEnd(world, initial, log, now, i, log[i].before + turn);
  }

  /** Message `p` belongs to the turn of iteration `i`. */
  predicate InTurn(log: seq<Step>, i: int, p: int) {
    0 <= i < |log| && CallsTools(log[i]) && |log[i].before| <= p <= |log[i].before| + |log[i].reply.calls|
  }

  ghost predicate InSomeTurn(log: seq<Step>, p: int) {
    exists i :: InTurn(log, i, p)
  }

  lemma StaysInTurn(log: seq<Step>, p: int)
    requires log != [] && InSomeTurn(log[..|log| - 1], p)
    ensures InSomeTurn(log, p)
  {
    var i :| InTurn(log[..|log| - 1], i, p);
    assert InTurn(log, i, p);
  }

  /** Behind the initial messages nothing else calls a tool or answers a call. */
  lemma {:induction false} OnlyTurnsCall(world: World, initial: seq<Msg>, log: seq<Step>, now: seq<Msg>, p: nat)
    requires IsLog(world, initial, log, now) && |initial| <= p < |now|
    ensures IsNeutral(now[p]) || InSomeTurn(log, p)
  {
    if log != [] && p < |log[|log| - 1].after| {
      var last := log[|log| - 1];
      LastChangesNeutral(world, last, now, p);
      if p >= |last.before| {
        assert !IsNeutral(now[p]) ==> InTurn(log, |log| - 1, p);
      } else if !IsNeutral(now[p]) {
        EarlierLog(world, initial, log);
        OnlyTurnsCall(world, initial, log[..|log| - 1], last.before, p);
        StaysInTurn(log, p);
      }
    }
  }

  lemma EarlierLog(world: World, initial: seq<Msg>, log: seq<Step>)
    requires log != [] && IsLog(world, initial, log, log[|log| - 1].after)
    ensures IsLog(world, initial, log[..|log| - 1], log[|log| - 1].before)
  {
    var n := |log| - 1;
    var front := log[..n];
    forall i, j | 0 <= i < j < |front| && j == i + 1
      ensures front[j].before == front[i].after && front[i].answered <= front[j].asked
    {
      assert log[j].before == log[i].after && log[i].answered <= log[j].asked;
    }
    assert n > 0 ==> log[n].before == log[n - 1].after;
  }

  /** A message of the history before stays or was neutral and stays so; one behind it is neutral or of the turn. */
  lemma LastChangesNeutral(world: World, x: Step, now: seq<Msg>, p: nat)
    requires IsStep(world, x) && KeepsTurns(x.after, now) && p < |x.after|
    ensures p < |x.before| && !IsNeutral(now[p]) ==> now[p] == x.before[p]
    ensures p >= |x.before| && !IsNeutral(now[p]) ==> CallsTools(x) && p <= |x.before| + |x.reply.calls|
  {
    if CallsTools(x) {
      var turn :| IsExecution(world, x.answered, x.reply, turn) && x.before + turn <= x.after
        && KeepsTurns(x.before + turn, x.after);
    }
  }

  /** Every request fails, the guard raises, and nothing is injected. */
  ghost predicate Stalls(world: World) {
    && (forall n :: world.provider(n).finish.Failed? && world.provider(n).calls == [])
    && (forall n :: world.guard(n).Raises?) && forall n :: world.injections(n) == []
  }

  predicate RetriesMalformed(r: Response) {
    DropMalformed(r).1 && r.finish.ForTools?
  }

  class Run {
    const world: World
    var messages: seq<Msg>
    var requests: nat
    var cycles: nat
    var injected: nat
    var drains: nat
    var guards: nat
    var emptyRetries: nat
    var lengthRecoveries: nat
    var checkpoints: seq<History.Checkpoint>
    /** The length of the history the run began with, and whether it was paired and free of orphans. */
    const start: nat
    ghost const pairedAtStart: bool
    ghost const orphanFree: bool
    /** The lists handed to the provider. */
    ghost var sent: seq<seq<Msg>>

    ghost predicate Valid()
      reads this`messages, this`cycles, this`injected, this`checkpoints
    {
      && cycles <= MAX_INJECTION_CYCLES && injected <= MAX_INJECTIONS_PER_TURN * cycles
      && (pairedAtStart ==> Paired(messages)) && (NoOrphans(messages) ==> orphanFree)
      && AnswersItself(messages, start)
      && forall i :: 0 <= i < |checkpoints| ==> History.WrittenByRunner(checkpoints[i])
    }

    constructor (world: World, initial: seq<Msg>)
      ensures Valid() && this.world == world && messages == initial && requests == 0 && injected == 0
              && emptyRetries == 0
      ensures checkpoints == [] && pairedAtStart == Paired(initial) && cycles == 0 && drains == 0
      ensures start == |initial| && orphanFree == NoOrphans(initial) && sent == []
    {
      this.world, messages, requests, cycles, injected, drains, guards := world, initial, 0, 0, 0, 0, 0;
      emptyRetries, lengthRecoveries, checkpoints, pairedAtStart := 0, 0, [], Paired(initial);
      start, orphanFree, sent := |initial|, NoOrphans(initial), [];
      new;
      assert messages[start..] == [];
    }

    method AppendNeutral(m: Msg)
      requires Valid() && IsNeutral(m)
      modifies this`messages
      ensures Valid() && messages == old(messages) + [m]
    {
      if pairedAtStart {
        NeutralKeepsPairing(messages, m);
      }
      AppendingKeepsAnswers(messages, start, m);
      OrphanStaysBehind(messages, [m]);
      messages := messages + [m];
    }

    method ReplaceLast(m: Msg)
      requires Valid() && messages != [] && IsNeutral(messages[|messages| - 1]) && IsNeutral(m)
      modifies this`messages
      ensures Valid() && messages == old(messages)[..|old(messages)| - 1] + [m]
    {
      if pairedAtStart {
        ReplacingNeutralKeepsPairing(messages, m);
      }
      ReplacingKeepsAnswers(messages, start, m);
      OrphanIsNotReplaced(messages, m);
      messages := messages[..|messages| - 1] + [m];
    }

    /** One request with the list `asked`. */
    method Request(ghost asked: seq<Msg>) returns (r: Response)
      requires Valid()
      modifies this`requests, this`sent
      ensures Valid() && requests == old(requests) + 1 && r == world.provider(old(requests))
              && sent == old(sent) + [asked]
    {
      r := world.provider(requests);
      requests, sent := requests + 1, sent + [asked];
    }

    /**
     * `_request_model`: a second request when all tool calls of the first were malformed, and a
     * third, without tools, when it happens again; each adds a note to the list it was given.
     */
    method RequestModel(prepared: seq<Msg>) returns (r: Response)
      requires Valid()
      modifies this`requests, this`sent
      ensures Valid() && old(requests) < requests <= old(requests) + 3
      ensures (r, requests) == ModelCall(world, old(requests))
      ensures requests < old(requests) + 3 ==> AllNamed(r.calls)
      ensures Paired(prepared) && ArePaired(old(sent)) ==> ArePaired(sent)
      ensures old(sent) + [prepared] <= sent
      ensures var n := old(requests);
              var retry := prepared + [Plain(User, world.notes(7) + world.provider(n).text)];
              && (requests == n + 1 ==> sent == old(sent) + [prepared])
              && (requests == n + 2 ==> sent == old(sent) + [prepared] + [retry])
              && (requests == n + 3 ==>
                    sent == old(sent) + [prepared] + [retry]
                            + [retry + [Plain(User, world.notes(7) + world.provider(n + 1).text)]])
    {
      var first := Request(prepared);
      var (clean, allDropped) := DropMalformed(first);
      ValidCallsAreValid(first.calls);
      if !allDropped || !first.finish.ForTools? {
        return clean;
      }
      var retry := prepared + [Plain(User, world.notes(7) + first.text)];
      NoteIsNeutral(prepared, Plain(User, world.notes(7) + first.text));
      var second := Request(retry);
      var (again, allDroppedAgain) := DropMalformed(second);
      ValidCallsAreValid(second.calls);
      if !allDroppedAgain || !second.finish.ForTools? {
        return again;
      }
      NoteIsNeutral(retry, Plain(User, world.notes(7) + second.text));
      r := Request(retry + [Plain(User, world.notes(7) + second.text)]);
    }

    /** The governance of a run; results in flight begin behind its initial messages. */
    function Governed(): Governance.Config {
      world.governance.(inflightStart := start)
    }

    /**
     * The request of an iteration, with the list governance makes of the history: whatever the
     * history is, the lists sent are paired, and the history itself does not change.
     */
    method GovernedRequest(compacted: Governance.CompactedIds) returns (r: Response, prepared: seq<Msg>)
      requires Valid()
      modifies compacted, this`requests, this`sent
      ensures Valid() && old(requests) < requests <= old(requests) + 3
      ensures (r, requests) == ModelCall(world, old(requests))
      ensures Paired(prepared) && (ArePaired(old(sent)) ==> ArePaired(sent)) && old(sent) + [prepared] <= sent
      ensures var config := world.governance.(inflightStart := start);
              var i := Governance.Inflight(config, Governance.Shaped(config, messages), old(compacted.ids));
              prepared == Repair.Repaired(world.governance.snip(i.messages)) && compacted.ids == i.ids
    {
      var objects := Materialize(messages);
      var governed := Governance.PrepareForModel(Governed(), objects, compacted);
      prepared := Views(governed);
      r := RequestModel(prepared);
    }

    /** `_request_finalization_retry`: a request without tools, with a note behind the list. */
    method RequestAnswer(asked: seq<Msg>) returns (r: Response)
      requires Valid()
      modifies this`requests, this`sent
      ensures Valid() && requests == old(requests) + 1 && r == world.provider(old(requests))
      ensures sent == old(sent) + [asked + [Plain(User, world.notes(8))]]
      ensures ArePaired(old(sent)) ==> (ArePaired(sent) <==> Paired(asked))
    {
      NoteIsNeutral(asked, Plain(User, world.notes(8)));
      r := Request(asked + [Plain(User, world.notes(8))]);
      assert sent[|old(sent)|] == asked + [Plain(User, world.notes(8))];
      assert forall i :: 0 <= i < |old(sent)| ==> sent[i] == old(sent)[i];
    }

    /** `_append_injected_messages`: a follow-up is merged into a user message that ends the history. */
    method AppendInjected(items: seq<Msg>)
      requires Valid() && forall i :: 0 <= i < |items| ==> items[i].role.User?
      modifies this`messages
      ensures Valid() && messages == JoinedAll(world, old(messages), items)
    {
      for k := 0 to |items|
        invariant Valid() && messages == JoinedAll(world, old(messages), items[..k])
      {
        var item := items[k];
        assert items[..k + 1][..k] == items[..k];
        var n := |messages| - 1;
        if messages != [] && messages[n].role.User? && !world.hidden(item) && !world.hidden(messages[n]) {
          var last := messages[n];
          ReplaceLast(last.(content := world.merge(last.content, item.content)));
        } else {
          AppendNeutral(item);
        }
      }
      assert items[..|items|] == items;
    }

    /** `_drain_injections`: at most three user messages. */
    method Drain() returns (items: seq<Msg>)
      requires Valid() && cycles < MAX_INJECTION_CYCLES
      modifies this`drains
      ensures Valid() && drains == old(drains) + 1 && items == Found(world, cycles, old(drains))
    {
      items := AsUsers(world.injections(drains));
      drains := drains + 1;
      if |items| > MAX_INJECTIONS_PER_TURN {
        items := items[..MAX_INJECTIONS_PER_TURN];
      }
    }

    /**
     * `_try_drain_injections`: the answer, if there is one, and then the follow-ups found, or a note
     * to continue while a goal is active. Only real follow-ups use up a cycle.
     */
    method TryDrain(assistant: Option<Msg>, checkpoint: bool, allowGoal: bool) returns (more: bool)
      requires Valid() && (assistant.Some? ==> assistant.value.role.Assistant? && assistant.value.calls == [])
      modifies this`messages, this`cycles, this`injected, this`drains, this`checkpoints
      ensures Valid()
      ensures var found := Found(world, old(cycles), old(drains));
              && cycles == old(cycles) + (if found != [] then 1 else 0) && injected == old(injected) + |found|
              && FollowUps(world, found, allowGoal && world.goalActive(requests), assistant, old(messages), messages,
                   more)
      ensures !more ==> messages == old(messages)
      ensures checkpoints == old(checkpoints) + if more && checkpoint && assistant.Some?
                                                then [History.Checkpoint(assistant, [], [])] else []
      ensures KeepsTurns(old(messages), messages)
    {
      var items: seq<Msg> := [];
      var genuine := false;
      if cycles < MAX_INJECTION_CYCLES {
        items := Drain();
        genuine := items != [];
      }
      if items == [] && allowGoal && assistant.Some? && world.goalActive(requests) {
        items := [Plain(User, world.notes(0))];
      }
      if items == [] {
        return false;
      }
      ghost var found := Found(world, cycles, old(drains));
      if genuine {
        cycles, injected := cycles + 1, injected + |items|;
      }
      AppendAnswered(assistant, checkpoint, items);
      FollowUpsKeepTurns(world, found, allowGoal && world.goalActive(requests), assistant, old(messages), messages,
        true);
      return true;
    }

    /** The answer, if there is one, and the follow-ups behind it. */
    method AppendAnswered(assistant: Option<Msg>, checkpoint: bool, items: seq<Msg>)
      requires Valid() && (assistant.Some? ==> assistant.value.role.Assistant? && assistant.value.calls == [])
      requires forall i :: 0 <= i < |items| ==> items[i].role.User?
      modifies this`messages, this`checkpoints
      ensures Valid()
      ensures messages
              == JoinedAll(world, old(messages) + (if assistant.Some? then [assistant.value] else []), items)
      ensures checkpoints == old(checkpoints) + if checkpoint && assistant.Some?
                                                then [History.Checkpoint(assistant, [], [])] else []
    {
      assert assistant.None? ==> messages == old(messages) + [];
      if assistant.Some? {
        AppendNeutral(assistant.value);
        if checkpoint {
          Checkpoint(assistant.value, [], []);
        }
      }
      AppendInjected(items);
    }

    method Checkpoint(assistant: Msg, completed: seq<Option<Msg>>, pending: seq<Call>)
      requires Valid() && History.WrittenByRunner(History.Checkpoint(Some(assistant), completed, pending))
      modifies this`checkpoints
      ensures Valid() && checkpoints == old(checkpoints) + [History.Checkpoint(Some(assistant), completed, pending)]
    {
      checkpoints := checkpoints + [History.Checkpoint(Some(assistant), completed, pending)];
    }

    /**
     * `guard_final`: a refusal adds messages that declare and answer no call; a guard that raises
     * refuses without adding any.
     */
    method GuardFinal() returns (allowed: bool)
      requires Valid()
      modifies this`messages, this`guards
      ensures Valid() && guards == old(guards) + 1 && allowed == world.guard(old(guards)).Allows?
      ensures messages == old(messages) + match world.guard(old(guards))
                                          case Refuses(added) => Refusal(world, added)
                                          case _ => []
      ensures world.guard(old(guards)).Refuses? ==>
                var n, added := |old(messages)|, world.guard(old(guards)).added;
                && |messages| == n + |added| + 1 && messages[n + |added|] == Plain(User, world.notes(1))
                && forall k :: 0 <= k < |added| ==> messages[n + k] == Plain(added[k].0, added[k].1)
    {
      var decision := world.guard(guards);
      guards := guards + 1;
      if !decision.Refuses? {
        return decision.Allows?;
      }
      for k := 0 to |decision.added|
        invariant Valid() && guards == old(guards) + 1
        invariant messages == old(messages) + Refusal(world, decision.added)[..k]
      {
        AppendNeutral(Plain(decision.added[k].0, decision.added[k].1));
      }
      AppendNeutral(Plain(User, world.notes(1)));
      return false;
    }

    /** `_append_final_message`. */
    method AppendFinal(text: string)
      requires Valid()
      modifies this`messages
      ensures Valid() && messages == WithAnswer(old(messages), text)
      ensures text != "" ==> EndsWith(messages, text)
      ensures var ends := old(messages) != [] && IsAnswer(old(messages)[|old(messages)| - 1]);
              |messages| == |old(messages)| + if text == "" || ends then 0 else 1
      ensures text == "" ==> messages == old(messages)
    {
      if text == "" {
        return;
      }
      if EndsInAnswer(messages) {
        if messages[|messages| - 1].content == Text(text) {
          return;
        }
        ReplaceLast(Plain(Assistant, text));
        return;
      }
      AppendNeutral(Plain(Assistant, text));
    }

    /** `_append_model_error_placeholder`. */
    method AppendPlaceholder()
      requires Valid()
      modifies this`messages
      ensures Valid()
      ensures var answered := old(messages) != [] && IsAnswer(old(messages)[|old(messages)| - 1]);
              messages == old(messages) + if answered then [] else [Plain(Assistant, world.notes(2))]
    {
      if EndsInAnswer(messages) {
        return;
      }
      AppendNeutral(Plain(Assistant, world.notes(2)));
    }

    /** The tools of a response: the calling message, a checkpoint, and one result for each call. */
    method RunTools(r: Response) returns (fatal: bool, completed: seq<Option<Msg>>)
      requires Valid()
      modifies this`messages, this`checkpoints
      ensures Valid() && messages == old(messages) + ToolTurn(world, requests, r)
      ensures checkpoints == old(checkpoints) + [Before(ToolTurn(world, requests, r))]
      ensures completed == Somes(ToolTurn(world, requests, r)[1..])
      ensures fatal <==> exists i :: 0 <= i < |r.calls| && world.tool(requests, i, r.calls[i]).fatal
      ensures History.WrittenByRunner(History.Checkpoint(Some(CallingMessage(r)), completed, []))
    {
      Checkpoint(CallingMessage(r), [], CallsOf(r.calls));
      var n := requests;
      var results := Batches.Execute(world.concurrent, world.safe, (i, c) => world.tool(n, i, c), r.calls);
      var turn;
      turn, completed, fatal := TurnOf(world, n, r, results);
      ResultsAreForCalls(world, n, r);
      if pairedAtStart {
        ToolTurnKeepsPairing(messages, r, turn);
      }
      ToolTurnKeepsAnswers(messages, start, r, turn);
      OrphanStaysBehind(messages, turn);
      messages := messages + turn;
    }

    /** An iteration whose response calls tools; it ends the run only after a fatal tool error. */
    method ToolIteration(r: Response) returns (done: bool)
      requires Valid()
      modifies this`messages, this`checkpoints, this`cycles, this`injected, this`drains, this`guards,
               this`emptyRetries, this`lengthRecoveries
      ensures Valid() && (emptyRetries == old(emptyRetries) || emptyRetries == 0)
      ensures done ==> exists i :: 0 <= i < |r.calls| && world.tool(requests, i, r.calls[i]).fatal
      ensures done && world.notes(3) != "" ==> EndsInAnswer(messages)
      ensures (forall i :: 0 <= i < |r.calls| ==> !world.tool(requests, i, r.calls[i]).fatal) ==>
                && emptyRetries == 0 && lengthRecoveries == 0
                && var turn := ToolTurn(world, requests, r);
                   checkpoints == old(checkpoints) + [Before(turn)] + [Behind(turn)]
      ensures KeepsTurns(old(messages) + ToolTurn(world, requests, r), messages)
    {
      var fatal, completed := RunTools(r);
      done := AfterTools(r, fatal, completed);
    }

    /** A fatal tool error ends the run; otherwise there is a second checkpoint and a drain. */
    method AfterTools(r: Response, fatal: bool, completed: seq<Option<Msg>>) returns (done: bool)
      requires Valid() && History.WrittenByRunner(History.Checkpoint(Some(CallingMessage(r)), completed, []))
      modifies this`messages, this`checkpoints, this`cycles, this`injected, this`drains, this`guards,
               this`emptyRetries, this`lengthRecoveries
      ensures Valid() && (emptyRetries == old(emptyRetries) || emptyRetries == 0)
      ensures done ==> fatal && (world.notes(3) != "" ==> EndsInAnswer(messages))
      ensures !fatal ==>
                && emptyRetries == 0 && lengthRecoveries == 0
                && checkpoints == old(checkpoints) + [History.Checkpoint(Some(CallingMessage(r)), completed, [])]
      ensures KeepsTurns(old(messages), messages)
    {
      if fatal {
        done := Finish(false, world.notes(3));
        return;
      }
      Checkpoint(CallingMessage(r), completed, []);
      emptyRetries, lengthRecoveries := 0, 0;
      var _ := TryDrain(None, false, false);
      return false;
    }

    /**
     * The end of an iteration that would end the run: `text` is its last message unless the guard
     * or a follow-up goes on.
     */
    method Finish(failed: bool, text: string) returns (done: bool)
      requires Valid()
      modifies this`messages, this`checkpoints, this`cycles, this`injected, this`drains, this`guards
      ensures Valid()
      ensures done && (failed || text != "") ==> EndsInAnswer(messages)
      ensures done && !failed && text != "" ==> EndsWith(messages, text)
      ensures world.guard(old(guards)).Raises? ==> !done && messages == old(messages)
      ensures !world.guard(old(guards)).Allows? ==> !done
      ensures KeepsTurns(old(messages), messages)
    {
      var allowed := GuardFinal();
      if !allowed {
        GuardKeepsTurns(world, old(messages), old(guards));
        return false;
      }
      assert messages + [] == messages;
      CloseRun(failed, text);
      ghost var closed := messages;
      var more := TryDrain(None, false, false);
      KeepsTurnsOnward(old(messages), closed, messages);
      return !more;
    }

    /** The last message of a run that ends: a placeholder after an error, otherwise the text. */
    method CloseRun(failed: bool, text: string)
      requires Valid()
      modifies this`messages
      ensures Valid() && (failed || text != "" ==> EndsInAnswer(messages))
      ensures !failed && text != "" ==> EndsWith(messages, text)
      ensures KeepsTurns(old(messages), messages)
    {
      if failed {
        PlaceholderKeepsTurns(world, messages);
        AppendPlaceholder();
      } else {
        WithAnswerKeepsTurns(messages, text);
        AppendFinal(text);
      }
    }

    /** An iteration whose response is an answer, an empty answer, or an error. */
    method AnswerIteration(first: Response, prepared: seq<Msg>) returns (done: bool)
      requires Valid()
      modifies this
      ensures Valid()
      ensures requests == old(requests) + if !first.finish.Failed? && first.blank && old(emptyRetries) > 0 then 1 else 0
      ensures !first.finish.Failed? && first.blank && old(emptyRetries) == 0 ==>
                !done && messages == old(messages) && emptyRetries == 1
      ensures !first.finish.Failed? && first.blank && old(emptyRetries) > 0 ==>
                sent == old(sent) + [prepared + [Plain(User, world.notes(8))]]
      ensures first.finish.Length? && !first.blank && old(lengthRecoveries) < 3 ==>
                && !done && lengthRecoveries == old(lengthRecoveries) + 1
                && messages == old(messages) + [Plain(Assistant, first.text), Plain(User, world.notes(5))]
      ensures done && !first.finish.Failed? && !first.blank ==>
                && messages == old(messages) + [Plain(Assistant, first.text)]
                && (first.finish.Length? ==> old(lengthRecoveries) >= 3)
      ensures !first.finish.Failed? && !first.blank && !(first.finish.Length? && old(lengthRecoveries) < 3) ==>
                (done <==> Found(world, old(cycles), old(drains)) == [] && !world.goalActive(old(requests))
                           && world.guard(old(guards)).Allows?)
      ensures done && world.notes(4) != "" ==> EndsInAnswer(messages)
      ensures Stalls(world) && first.finish.Failed? ==> !done && messages == old(messages)
      ensures Paired(prepared) && ArePaired(old(sent)) ==> ArePaired(sent)
      ensures KeepsTurns(old(messages), messages) && old(requests) <= requests
    {
      var r := first;
      if !r.finish.Failed? && r.blank {
        emptyRetries := emptyRetries + 1;
        if emptyRetries < MAX_EMPTY_RETRIES {
          return false;
        }
        r := RequestAnswer(prepared);
      }
      done := GoOnOrConclude(r);
    }

    /** A truncated answer goes on; any other may end the run. */
    method GoOnOrConclude(r: Response) returns (done: bool)
      requires Valid()
      modifies this`messages, this`checkpoints, this`cycles, this`injected, this`drains, this`guards,
               this`lengthRecoveries
      ensures Valid()
      ensures r.finish.Length? && !r.blank && old(lengthRecoveries) < 3 ==>
                && !done && lengthRecoveries == old(lengthRecoveries) + 1
                && messages == old(messages) + [Plain(Assistant, r.text), Plain(User, world.notes(5))]
      ensures done && !r.finish.Failed? && !r.blank ==>
                && messages == old(messages) + [Plain(Assistant, r.text)]
                && (r.finish.Length? ==> old(lengthRecoveries) >= 3)
      ensures !r.finish.Failed? && !r.blank && !(r.finish.Length? && old(lengthRecoveries) < 3) ==>
                (done <==> Found(world, old(cycles), old(drains)) == [] && !world.goalActive(requests)
                           && world.guard(old(guards)).Allows?)
      ensures done && world.notes(4) != "" ==> EndsInAnswer(messages)
      ensures Stalls(world) && r.finish.Failed? ==> !done && messages == old(messages)
      ensures KeepsTurns(old(messages), messages)
    {
      if r.finish.Length? && !r.blank {
        lengthRecoveries := lengthRecoveries + 1;
        if lengthRecoveries <= MAX_LENGTH_RECOVERIES {
          AppendNeutral(Plain(Assistant, r.text));
          AppendNeutral(Plain(User, world.notes(5)));
          AppendingKeepsTurns(old(messages), [Plain(Assistant, r.text), Plain(User, world.notes(5))]);
          assert messages == old(messages) + [Plain(Assistant, r.text), Plain(User, world.notes(5))];
          return false;
        }
      }
      done := Conclude(r);
    }

    /** The response may end the run, unless a follow-up or the guard goes on. */
    method Conclude(r: Response) returns (done: bool)
      requires Valid()
      modifies this`messages, this`checkpoints, this`cycles, this`injected, this`drains, this`guards
      ensures Valid()
      ensures done && !r.finish.Failed? && !r.blank ==>
                && messages == old(messages) + [Plain(Assistant, r.text)]
                && checkpoints == old(checkpoints) + [History.Checkpoint(Some(Plain(Assistant, r.text)), [], [])]
      ensures !r.finish.Failed? && !r.blank ==>
                (done <==> Found(world, old(cycles), old(drains)) == [] && !world.goalActive(requests)
                           && world.guard(old(guards)).Allows?)
      ensures done && world.notes(4) != "" ==> EndsInAnswer(messages)
      ensures Stalls(world) && r.finish.Failed? ==> !done && messages == old(messages)
      ensures KeepsTurns(old(messages), messages)
    {
      var assistant := if !r.finish.Failed? && !r.blank then Some(Plain(Assistant, r.text)) else None;
      var more := TryDrain(assistant, true, true);
      if more {
        return false;
      }
      if r.finish.Failed? {
        done := Finish(true, "");
        return;
      }
      if r.blank {
        done := Finish(false, world.notes(4));
        return;
      }
      var allowed := GuardFinal();
      if !allowed {
        GuardKeepsTurns(world, old(messages), old(guards));
        return false;
      }
      AppendingKeepsTurns(old(messages), [assistant.value]);
      assert messages + [] == messages;
      AppendNeutral(assistant.value);
      Checkpoint(assistant.value, [], []);
      return true;
    }

    /**
     * `_run_core`. `raw` is what the request after the last iteration is made from, if it is made:
     * the history itself, which governance has not seen. All lists sent are paired if that request
     * is not asked for or the run began with a paired history.
     */
    method RunCore(maxIterations: nat, finalize: bool)
      returns (blocked: bool, ghost raw: Option<seq<Msg>>, ghost log: seq<Step>)
      requires Valid() && requests == 0 && emptyRetries == 0 && sent == []
      modifies this
      ensures Valid()
      ensures requests <= if maxIterations == 0 then 1 else 4 * maxIterations
      ensures IsLog(world, old(messages), log, messages) && |log| <= maxIterations
      ensures cycles <= 5 && injected <= 15
      ensures pairedAtStart ==> Paired(messages)
      ensures AnswersItself(messages, start)
      ensures !finalize || pairedAtStart ==> ArePaired(sent)
      ensures ArePaired(sent) <==> raw.None? || Paired(raw.value)
      ensures (raw.Some? ==> finalize) && (raw.Some? && !orphanFree ==> !ArePaired(sent))
      ensures raw.Some? ==> sent != [] && sent[|sent| - 1] == raw.value + [Plain(User, world.notes(8))]
      ensures Stalls(world) ==> raw == if finalize then Some(old(messages)) else None
      ensures !blocked && TextsAreReal(world) ==> EndsInAnswer(messages)
      ensures forall i :: 0 <= i < |checkpoints| ==> History.WrittenByRunner(checkpoints[i])
    {
      var done;
      done, log := Iterate(maxIterations);
      if done {
        return false, None, log;
      }
      ghost var last := messages;
      blocked, raw := FinishAfterMax(finalize);
      assert KeepsTurns(last, messages);
    }

    /** The iterations, until one ends the run or none is left. */
    method Iterate(maxIterations: nat) returns (done: bool, ghost log: seq<Step>)
      requires Valid() && requests == 0 && emptyRetries == 0 && ArePaired(sent)
      modifies this
      ensures Valid() && ArePaired(sent) && requests <= if maxIterations == 0 then 0 else 4 * maxIterations - 1
      ensures Stalls(world) ==> !done && messages == old(messages)
      ensures done && TextsAreReal(world) ==> EndsInAnswer(messages)
      ensures IsLogTo(world, old(messages), log, messages, requests) && |log| <= maxIterations
      ensures !done ==> |log| == maxIterations
    {
      var compacted := new Governance.CompactedIds();
      log := [];
      for i := 0 to maxIterations
        invariant Valid() && fresh(compacted)
        invariant if i == 0 then requests == 0 && emptyRetries == 0 else requests <= 4 * i - 1
        invariant ArePaired(sent)
        invariant Stalls(world) ==> messages == old(messages)
        invariant IsLogTo(world, old(messages), log, messages, requests) && |log| == i
      {
        ghost var step;
        done, step := Iteration(compacted);
        LogGrows(world, old(messages), log, step, requests);
        log := log + [step];
        if done {
          return;
        }
      }
      done := false;
    }

    /** One iteration: at most four requests, three unless an earlier answer was empty. */
    method Iteration(compacted: Governance.CompactedIds) returns (done: bool, ghost step: Step)
      requires Valid() && ArePaired(sent)
      modifies this, compacted
      ensures Valid() && ArePaired(sent)
      ensures requests <= old(requests) + if old(emptyRetries) == 0 then 3 else 4
      ensures Stalls(world) ==> !done && messages == old(messages)
      ensures done && TextsAreReal(world) ==> EndsInAnswer(messages)
      ensures step.before == old(messages) && step.asked == old(requests) && step.after == messages
      ensures IsStep(world, step) && step.answered <= requests
    {
      var r, prepared := GovernedRequest(compacted);
      ghost var n := requests;
      done := React(r, prepared);
      step := Step(old(messages), old(requests), r, n, messages);
      IterationIsStep(world, step);
    }

    /** Running the tools of a response, or taking it as an answer. */
    method React(r: Response, prepared: seq<Msg>) returns (done: bool)
      requires Valid() && Paired(prepared) && ArePaired(sent)
      modifies this
      ensures Valid() && ArePaired(sent)
      ensures old(requests) <= requests <= old(requests) + if old(emptyRetries) == 0 then 0 else 1
      ensures Stalls(world) && r.finish.Failed? && r.calls == [] ==> !done && messages == old(messages)
      ensures done && TextsAreReal(world) ==> EndsInAnswer(messages)
      ensures KeepsTurns(if Executes(r) then old(messages) + ToolTurn(world, old(requests), r) else old(messages),
                         messages)
    {
      if Executes(r) {
        done := ToolIteration(r);
      } else {
        done := AnswerIteration(r, prepared);
      }
    }

    method LastDrain()
      requires Valid()
      modifies this`messages, this`checkpoints, this`cycles, this`injected, this`drains
      ensures Valid() && messages == JoinedAll(world, old(messages), Found(world, old(cycles), old(drains)))
      ensures KeepsTurns(old(messages), messages)
    {
      var more := TryDrain(None, false, false);
      FollowUpsAlone(world, Found(world, old(cycles), old(drains)), old(messages), messages, more);
    }

    /** The end of a run that used up its iterations: one more drain, and one request without tools. */
    method FinishAfterMax(finalize: bool) returns (blocked: bool, ghost raw: Option<seq<Msg>>)
      requires Valid()
      modifies this
      ensures Valid() && requests == old(requests) + if finalize then 1 else 0
      ensures !blocked && TextsAreReal(world) ==> EndsInAnswer(messages)
      ensures raw.Some? == finalize && (finalize && pairedAtStart ==> Paired(raw.value))
      ensures finalize && !orphanFree ==> !Paired(raw.value)
      ensures finalize ==> sent == old(sent) + [raw.value + [Plain(User, world.notes(8))]]
      ensures finalize ==> raw.value == JoinedAll(world, old(messages), Found(world, old(cycles), old(drains)))
      ensures ArePaired(old(sent)) ==> (ArePaired(sent) <==> raw.None? || Paired(raw.value))
      ensures KeepsTurns(old(messages), messages)
      ensures blocked == !world.guard(old(guards)).Allows?
      ensures var r := world.provider(old(requests));
              var text := if finalize && !r.finish.Failed? && r.calls == [] && !r.blank then r.text else world.notes(6);
              !blocked && text != "" ==> EndsWith(messages, text)
    {
      LastDrain();
      ghost var drained := messages;
      var text := world.notes(6);
      raw := None;
      if finalize {
        raw := Some(messages);
        var r := RequestAnswer(messages);
        if !r.finish.Failed? && r.calls == [] && !r.blank {
          text := r.text;
        }
      }
      blocked := CloseWith(text);
      KeepsTurnsOnward(old(messages), drained, messages);
    }

    /** The guard and, if it allows the end, the final text. */
    method CloseWith(text: string) returns (blocked: bool)
      requires Valid()
      modifies this`messages, this`guards
      ensures Valid() && guards == old(guards) + 1 && blocked == !world.guard(old(guards)).Allows?
      ensures !blocked && text != "" ==> EndsWith(messages, text) && EndsInAnswer(messages)
      ensures KeepsTurns(old(messages), messages)
    {
      var allowed := GuardFinal();
      GuardKeepsTurns(world, old(messages), old(guards));
      if allowed {
        WithAnswerKeepsTurns(messages, text);
        assert messages == old(messages) + [] == old(messages);
        AppendFinal(text);
      }
      return !allowed;
    }
  }

  /** A world in which no iteration ends a run or changes its history. */
  function Stalled(governance: Governance.Config): World {
    World(governance, n => Response(Failed, [], "", true), n => [], n => false, n => Raises,
          (n, i, c) => ToolResult("", false), c => false, false, m => false, (a, b) => a, n => "note")
  }

  /**
   * The other half: for every history that is not paired, every governance and any number of
   * iterations there is a world in which the run sends it as it is.
   */
  method UngovernedRequest(governance: Governance.Config, initial: seq<Msg>, maxIterations: nat) returns (run: Run)
    requires !Paired(initial)
    ensures run.world.governance == governance && run.start == |initial|
    ensures run.sent != [] && run.sent[|run.sent| - 1] == initial + [Plain(User, run.world.notes(8))]
    ensures !ArePaired(run.sent)
  {
    run := new Run(Stalled(governance), initial);
    var blocked, raw, log := run.RunCore(maxIterations, true);
  }

  lemma {:induction false} ValidCallsAreValid(calls: seq<ToolCall>)
    ensures AllNamed(ValidCalls(calls))
    ensures |ValidCalls(calls)| == |calls| ==> ValidCalls(calls) == calls
  {
    if calls != [] {
      ValidCallsAreValid(calls[..|calls| - 1]);
    }
  }

  function AsUsers(items: seq<Msg>): (users: seq<Msg>)
    ensures |users| == |items| && forall i :: 0 <= i < |items| ==> users[i] == items[i].(role := User)
  {
    seq(|items|, i requires 0 <= i < |items| => items[i].(role := User))
  }
}
