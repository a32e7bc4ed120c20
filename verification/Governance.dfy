/**
 * `ContextGovernor`: the passes that shape the model-facing copy of a history. No method here
 * modifies a message it was given; only the caller's set of compacted ids is updated.
 */
module Governance {
  import opened Messages
  import opened Repair
  import opened Wrappers

  const SNIP_SAFETY_BUFFER := 1024
  const DEFAULT_MAX_TOKENS := 4096
  const MICROCOMPACT_KEEP_RECENT := 10
  const MICROCOMPACT_MIN_CHARS := 500
  const COMPACTABLE_TOOLS: set<string> := {
    "read_file", "exec", "grep", "find_files",
    "web_search", "web_fetch", "list_dir", "list_exec_sessions"
  }
  const OFFLOAD_EXEMPT_TOOLS: set<string> := {"read_file"}
  const PLACEHOLDER_TEXTS: set<string> := {"[Previous assistant message omitted.]"}

  /** The id handed to the result store: the message's own, or one made from its position. */
  datatype ResultId = OwnId(id: string) | AtPosition(index: nat)

  /**
   * Settings of one run. A missing limit is 0. The token estimator, the snipping step, the
   * result store (which may fail), the notice put in place of a compacted result (made from
   * the tool's name) and the string helpers are arbitrary functions.
   */
  datatype Config = Config(
    contextWindowTokens: int,
    contextBlockLimit: int,
    maxTokens: Option<int>,
    providerMaxTokens: Option<int>,
    inflightStart: nat,
    maxToolResultChars: int,
    estimate: seq<Msg> -> int,
    snip: seq<Msg> -> seq<Msg>,
    ensureNonempty: (string, Content) -> Content,
    persist: (ResultId, Content) -> Option<Content>,
    truncate: string -> string,
    notice: Name -> Content,
    strip: string -> string
  )

  /** `compacted_tool_call_ids`: the set that one run hands to every request it prepares. */
  class CompactedIds {
    var ids: set<string>

    constructor ()
      ensures ids == {}
    {
      ids := {};
    }
  }

  function InputBudget(config: Config): (budget: nat) {
    if config.contextWindowTokens == 0 then 0
    else
      var providerMax := if config.providerMaxTokens.Some? then config.providerMaxTokens.value else DEFAULT_MAX_TOKENS;
      var maxOutput := if config.maxTokens.Some? then config.maxTokens.value else providerMax;
      var budget :=
        if config.contextBlockLimit != 0 then config.contextBlockLimit
        else config.contextWindowTokens - maxOutput - SNIP_SAFETY_BUFFER;
      if budget > 0 then budget else 0
  }

  /** The limit set, or what the window leaves behind the output and a reserve; never negative. */
  lemma InputBudgetMeaning(config: Config)
    ensures var limit := config.contextBlockLimit;
            var output := if config.maxTokens.Some? then config.maxTokens.value
                          else if config.providerMaxTokens.Some? then config.providerMaxTokens.value else 4096;
            && (config.contextWindowTokens == 0 ==> InputBudget(config) == 0)
            && (config.contextWindowTokens != 0 && limit != 0 ==> InputBudget(config) == if limit > 0 then limit else 0)
            && (config.contextWindowTokens != 0 && limit == 0 ==>
                  InputBudget(config) == if config.contextWindowTokens > output + 1024
                                         then config.contextWindowTokens - output - 1024 else 0)
  {
  }

  // ---- Stripping placeholders and malformed calls ----

  predicate IsPlaceholder(config: Config, m: Msg) {
    && m.role.Assistant?
    && config.strip(if m.content.Text? then m.content.text else "") in PLACEHOLDER_TEXTS
    && m.calls == []
  }

  function WithoutPlaceholdersUpTo(config: Config, vs: seq<Msg>, n: nat): seq<Msg>
    requires n <= |vs|
  {
    if n == 0 then []
    else
      WithoutPlaceholdersUpTo(config, vs, n - 1) + if IsPlaceholder(config, vs[n - 1]) then [] else [vs[n - 1]]
  }

  /** Anything but an assistant message without calls that shows a placeholder. */
  function SaysSomething(config: Config): Msg -> bool {
    (m: Msg) => !m.role.Assistant? || m.calls != []
                || config.strip(if m.content.Text? then m.content.text else "") !in PLACEHOLDER_TEXTS
  }

  lemma PlaceholderStep(config: Config, vs: seq<Msg>, n: nat)
    requires n < |vs|
    ensures WithoutPlaceholdersUpTo(config, vs, n + 1)
            == if SaysSomething(config)(vs[n]) then WithoutPlaceholdersUpTo(config, vs, n) + [vs[n]]
               else WithoutPlaceholdersUpTo(config, vs, n)
    ensures vs[..n + 1] == vs[..n] + [vs[n]]
  {
    assert IsPlaceholder(config, vs[n]) <==> !SaysSomething(config)(vs[n]);
  }

  /** What stripping keeps, in order: all messages that say something. */
  lemma {:induction false} PlaceholdersAreDropped(config: Config, vs: seq<Msg>, n: nat)
    requires n <= |vs|
    ensures IsSelection(vs[..n], WithoutPlaceholdersUpTo(config, vs, n), SaysSomething(config))
  {
    if n == 0 {
      assert vs[..0] == [];
    } else {
      PlaceholdersAreDropped(config, vs, n - 1);
      PlaceholderStep(config, vs, n - 1);
      SelectionStep(vs[..n - 1], WithoutPlaceholdersUpTo(config, vs, n - 1), SaysSomething(config), vs[n - 1]);
    }
  }

  method StripPlaceholders(config: Config, messages: seq<Message>) returns (updated: seq<Message>)
    ensures Views(updated) == WithoutPlaceholdersUpTo(config, Views(messages), |messages|)
  {
    ghost var vs := Views(messages);
    var changed := false;
    updated := [];
    for i := 0 to |messages|
      invariant if changed then Shows(updated, WithoutPlaceholdersUpTo(config, vs, i))
                else WithoutPlaceholdersUpTo(config, vs, i) == vs[..i]
    {
      if IsPlaceholder(config, messages[i].value) {
        if !changed {
          changed, updated := true, messages[..i];
        }
      } else if changed {
        updated := updated + [messages[i]];
      }
    }
    if !changed {
      updated := messages;
    }
  }

  predicate HasValidName(c: Call) {
    c.Call? &&
    var name := if c.fn.Callee? then c.fn.name else c.topName;
    name.Named? && name.text != ""
  }

  function ValidCalls(calls: seq<Call>): (kept: seq<Call>)
    ensures |kept| <= |calls| && (|kept| == |calls| ==> kept == calls)
    ensures forall c :: c in kept <==> c in calls && HasValidName(c)
  {
    if calls == [] then []
    else
      var last := calls[|calls| - 1];
      var kept := ValidCalls(calls[..|calls| - 1]);
      assert calls == calls[..|calls| - 1] + [last];
      if HasValidName(last) then kept + [last] else kept
  }

  /** What becomes of one message: nothing, or the message with only its valid calls. */
  function Cleaned(m: Msg): seq<Msg> {
    if !m.role.Assistant? then [m]
    else
      var kept := ValidCalls(m.calls);
      if |kept| == |m.calls| || kept != [] || HasText(m.content) then [m.(calls := kept)] else []
  }

  function WithoutMalformedUpTo(vs: seq<Msg>, n: nat): seq<Msg>
    requires n <= |vs|
  {
    if n == 0 then [] else WithoutMalformedUpTo(vs, n - 1) + Cleaned(vs[n - 1])
  }

  /** The messages done so far: in a list of their own once one of them changed. */
  ghost predicate IsDone(changed: bool, updated: seq<Message>, done: seq<Msg>, front: seq<Msg>)
    reads updated
  {
    if changed then Shows(updated, done) else done == front
  }

  lemma CleanedMeaning(m: Msg)
    ensures Cleaned(m) == if !m.role.Assistant? || |ValidCalls(m.calls)| == |m.calls| then [m]
                          else if ValidCalls(m.calls) != [] || HasText(m.content)
                          then [m.(calls := ValidCalls(m.calls))]
                          else []
  {
  }

  lemma CleanedStep(vs: seq<Msg>, i: nat)
    requires i < |vs|
    ensures WithoutMalformedUpTo(vs, i + 1) == WithoutMalformedUpTo(vs, i) + Cleaned(vs[i])
            && vs[..i + 1] == vs[..i] + [vs[i]]
  {
  }

  lemma ShowsAppended(updated: seq<Message>, done: seq<Msg>, m: Message)
    requires Shows(updated, done)
    ensures Shows(updated + [m], done + [m.value])
  {
  }

  /** Copies of the first messages. */
  method CopyFront(messages: seq<Message>, ghost vs: seq<Msg>, i: nat) returns (copies: seq<Message>)
    requires Shows(messages, vs) && i <= |messages|
    ensures Shows(copies, vs[..i])
  {
    copies := CopyAll(messages[..i]);
    assert forall k :: 0 <= k < i ==> Views(copies)[k] == Views(messages[..i])[k];
  }

  /** One message: kept as it is, kept in a copy with its valid calls, or dropped. */
  method StripMessage(messages: seq<Message>, ghost vs: seq<Msg>, i: nat, changed: bool, list: seq<Message>)
    returns (now: bool, updated: seq<Message>)
    requires Shows(messages, vs) && i < |messages|
    requires IsDone(changed, list, WithoutMalformedUpTo(vs, i), vs[..i])
    ensures IsDone(now, updated, WithoutMalformedUpTo(vs, i + 1), vs[..i + 1])
  {
    var m := messages[i].value;
    var kept := ValidCalls(m.calls);
    CleanedMeaning(m);
    CleanedStep(vs, i);
    now, updated := changed, list;
    if !m.role.Assistant? || |kept| == |m.calls| {
      if changed {
        ShowsAppended(list, WithoutMalformedUpTo(vs, i), messages[i]);
        updated := list + [messages[i]];
      }
      return;
    }
    if !changed {
      now := true;
      updated := CopyFront(messages, vs, i);
    }
    if kept != [] || HasText(m.content) {
      var repaired := new Message(m.(calls := kept));
      ShowsAppended(updated, WithoutMalformedUpTo(vs, i), repaired);
      updated := updated + [repaired];
    }
  }

  method StripMalformedCalls(messages: seq<Message>) returns (updated: seq<Message>)
    ensures Views(updated) == WithoutMalformedUpTo(Views(messages), |messages|)
  {
    ghost var vs := Views(messages);
    var changed := false;
    updated := [];
    for i := 0 to |messages|
      invariant Shows(messages, vs)
      invariant IsDone(changed, updated, WithoutMalformedUpTo(vs, i), vs[..i])
    {
      changed, updated := StripMessage(messages, vs, i, changed, updated);
    }
    if !changed {
      updated := messages;
    }
  }

  /** The call names a function, in its function dictionary or else beside it. */
  predicate NamesFunction(c: Call) {
    && c.Call?
    && if c.fn.Callee? then c.fn.name.Named? && c.fn.name.text != "" else c.topName.Named? && c.topName.text != ""
  }

  function NamingFunction(): Call -> bool {
    (c: Call) => NamesFunction(c)
  }

  /** `out` is `m` with those of its calls that name a function, in their order. */
  predicate IsStripped(m: Msg, out: Msg) {
    out == if m.role.Assistant? then m.(calls := Filtered(NamingFunction(), m.calls)) else m
  }

  /** Anything but an assistant message with calls, none of which names a function, and without text. */
  function HasSubstance(): Msg -> bool {
    (m: Msg) => !(m.role.Assistant? && m.calls != [] && m.content in {NoContent, Text(""), Blocks([])}
                  && forall c :: c in m.calls ==> !NamesFunction(c))
  }

  lemma ValidCallsStep(calls: seq<Call>, c: Call)
    ensures ValidCalls(calls + [c]) == if NamesFunction(c) then ValidCalls(calls) + [c] else ValidCalls(calls)
  {
    assert (calls + [c])[..|calls|] == calls;
    assert HasValidName(c) <==> NamesFunction(c);
  }

  lemma {:induction false} ValidCallsMeaning(calls: seq<Call>)
    ensures ValidCalls(calls) == Filtered(NamingFunction(), calls)
  {
    if calls != [] {
      var front, last := calls[..|calls| - 1], calls[|calls| - 1];
      ValidCallsMeaning(front);
      assert calls == front + [last];
      ValidCallsStep(front, last);
    }
  }

  lemma CleanedIsStripped(m: Msg)
    ensures if HasSubstance()(m) then |Cleaned(m)| == 1 && IsStripped(m, Cleaned(m)[0]) else Cleaned(m) == []
  {
    ValidCallsMeaning(m.calls);
    var kept := ValidCalls(m.calls);
    assert forall c :: HasValidName(c) <==> NamesFunction(c);
    if kept != [] {
      assert kept[0] in kept;
    } else if m.calls != [] {
      assert forall c :: c in m.calls ==> !NamesFunction(c);
    }
  }

  /** `out` are the messages with substance, in order, with their named calls. */
  ghost predicate AreStripped(vs: seq<Msg>, out: seq<Msg>) {
    AreImages(vs, out, HasSubstance(), (m: Msg, o: Msg) => IsStripped(m, o))
  }

  lemma StrippedStep(vs: seq<Msg>, out: seq<Msg>, m: Msg)
    requires AreStripped(vs, out)
    ensures AreStripped(vs + [m], out + Cleaned(m))
  {
    CleanedIsStripped(m);
    assert (vs + [m])[..|vs|] == vs;
    if !HasSubstance()(m) {
      assert out + [] == out;
    }
  }

  /** What stripping keeps, in order: each message with substance, with its named calls. */
  lemma {:induction false} HollowMessagesAreDropped(vs: seq<Msg>, n: nat)
    requires n <= |vs|
    ensures AreStripped(vs[..n], WithoutMalformedUpTo(vs, n))
  {
    if n == 0 {
      assert vs[..0] == [];
    } else {
      HollowMessagesAreDropped(vs, n - 1);
      StrippedStep(vs[..n - 1], WithoutMalformedUpTo(vs, n - 1), vs[n - 1]);
      assert vs[..n] == vs[..n - 1] + [vs[n - 1]];
    }
  }

  /** No degenerate call is replayed to a provider. */
  lemma {:induction false} OnlyValidCallsRemain(vs: seq<Msg>, n: nat)
    requires n <= |vs|
    ensures forall m :: m in WithoutMalformedUpTo(vs, n) && m.role.Assistant? ==>
              forall c :: c in m.calls ==> HasValidName(c)
  {
    if n > 0 {
      OnlyValidCallsRemain(vs, n - 1);
    }
  }

  // ---- Pairing ----

  lemma OrphanStep(vs: seq<Msg>, i: nat)
    requires i < |vs|
    ensures var m := vs[i];
            WithoutOrphansUpTo(vs, i + 1)
            == WithoutOrphansUpTo(vs, i)
               + if m.role.Tool? && m.toolCallId != "" && m.toolCallId !in DeclaredUpTo(vs, i) then [] else [m]
    ensures vs[..i + 1] == vs[..i] + [vs[i]]
  {
  }

  method DropOrphanResults(messages: seq<Message>) returns (updated: seq<Message>)
    ensures Views(updated) == WithoutOrphans(Views(messages))
  {
    ghost var vs := Views(messages);
    var declared: set<string> := {};
    var changed := false;
    updated := [];
    for i := 0 to |messages|
      invariant Shows(messages, vs) && declared == DeclaredUpTo(vs, i)
      invariant IsDone(changed, updated, WithoutOrphansUpTo(vs, i), vs[..i])
    {
      var m := messages[i].value;
      OrphanStep(vs, i);
      if m.role.Tool? && m.toolCallId != "" && m.toolCallId !in declared {
        if !changed {
          changed := true;
          updated := CopyFront(messages, vs, i);
        }
      } else if changed {
        var copy := new Message(m);
        ShowsAppended(updated, WithoutOrphansUpTo(vs, i), copy);
        updated := updated + [copy];
      }
      declared := declared + DeclaredBy(m);
    }
    if !changed {
      updated := messages;
    }
  }

  method CollectMissing(messages: seq<Message>) returns (missing: seq<Missing>)
    ensures missing == MissingCalls(Views(messages))
  {
    var declared: seq<Missing> := [];
    var fulfilled: set<string> := {};
    for i := 0 to |messages|
      invariant declared == Declarations(Views(messages), i) && fulfilled == FulfilledUpTo(Views(messages), i)
    {
      var m := messages[i].value;
      if m.role.Assistant? {
        declared := declared + CallsOf(i, m.calls, |m.calls|);
      } else if m.role.Tool? && m.toolCallId != "" {
        fulfilled := fulfilled + {m.toolCallId};
      }
    }
    missing := Unfulfilled(declared, fulfilled, |declared|);
  }

  /** The inner scan of the insertion loop. */
  method SkipToolMessages(messages: seq<Message>, start: nat) returns (p: nat)
    requires start <= |messages|
    ensures start <= p <= |messages|
    ensures forall q :: start <= q < p ==> messages[q].value.role.Tool?
    ensures p < |messages| ==> !messages[p].value.role.Tool?
  {
    p := start;
    while p < |messages| && messages[p].value.role.Tool?
      invariant start <= p <= |messages|
      invariant forall q :: start <= q < p ==> messages[q].value.role.Tool?
    {
      p := p + 1;
    }
  }

  lemma StopIsShown(messages: seq<Message>, vs: seq<Msg>, start: nat, p: nat)
    requires Shows(messages, vs) && start <= p <= |messages|
    requires forall q :: start <= q < p ==> messages[q].value.role.Tool?
    requires p < |messages| ==> !messages[p].value.role.Tool?
    ensures StopsAt(vs, start, p)
  {
  }

  /** One round of the insertion loop. */
  method InsertNext(list: seq<Message>, ghost vs: seq<Msg>, missing: seq<Missing>, offset: nat)
    returns (updated: seq<Message>)
    requires offset < |missing| && Fits(vs, missing)
    requires |list| == |vs| + offset && Shows(list, BackfilledUpTo(vs, missing, offset))
    ensures |updated| == |list| + 1 && Shows(updated, BackfilledUpTo(vs, missing, offset + 1))
  {
    assert missing[offset] in missing;
    var insertAt := SkipToolMessages(list, missing[offset].at + 1 + offset);
    StopIsShown(list, BackfilledUpTo(vs, missing, offset), missing[offset].at + 1 + offset, insertAt);
    InsertionIsNextBackfill(vs, missing, offset, insertAt);
    var filler := new Message(FillerMessage(missing[offset]));
    ShowsInserted(list, BackfilledUpTo(vs, missing, offset), insertAt, filler);
    updated := list[..insertAt] + [filler] + list[insertAt..];
  }

  lemma NothingBackfilled(vs: seq<Msg>, missing: seq<Missing>)
    ensures BackfilledUpTo(vs, missing, 0) == vs
  {
    LayoutWithoutMissing(vs, |vs|);
    assert missing[..0] == [];
  }

  lemma AllBackfilled(vs: seq<Msg>)
    ensures BackfilledUpTo(vs, MissingCalls(vs), |MissingCalls(vs)|) == Backfilled(vs)
  {
    assert MissingCalls(vs)[..|MissingCalls(vs)|] == MissingCalls(vs);
  }

  lemma BackfillIsKnown(vs: seq<Msg>)
    ensures forall id :: ResultsWith(Backfilled(vs), id)
              == if id != "" && ResultsWith(vs, id) == 0 then CallsWith(vs, id) else ResultsWith(vs, id)
    ensures exists slots :: IsBackfill(vs, Backfilled(vs), slots)
  {
    var slots := BackfillIsExact(vs);
    forall id ensures ResultsWith(Backfilled(vs), id)
                      == if id != "" && ResultsWith(vs, id) == 0 then CallsWith(vs, id) else ResultsWith(vs, id)
    {
      BackfillCounts(vs, id);
    }
  }

  method BackfillMissingResults(messages: seq<Message>) returns (updated: seq<Message>)
    ensures Views(updated) == Backfilled(Views(messages))
    ensures forall id :: var had := ResultsWith(Views(messages), id);
              ResultsWith(Views(updated), id) == if id != "" && had == 0 then CallsWith(Views(messages), id) else had
    ensures exists slots :: IsBackfill(Views(messages), Views(updated), slots)
  {
    ghost var vs := Views(messages);
    var missing := CollectMissing(messages);
    MissingCallsFit(vs);
    NothingBackfilled(vs, missing);
    AllBackfilled(vs);
    updated := messages;
    for offset := 0 to |missing|
      invariant |updated| == |vs| + offset && Shows(updated, BackfilledUpTo(vs, missing, offset))
    {
      updated := InsertNext(updated, vs, missing, offset);
    }
    BackfillIsKnown(vs);
  }

  // ---- Normalizing tool results ----

  function TextName(name: Name): string {
    match name
    case Named(text) => if text != "" then text else "tool"
    case NotText(shown, truthy) => if truthy then shown else "tool"
    case NoName => "tool"
  }

  function Normalized(config: Config, m: Msg, index: nat): Content {
    var id := if m.toolCallId != "" then OwnId(m.toolCallId) else AtPosition(index);
    var name := TextName(m.name);
    var result := config.ensureNonempty(name, m.content);
    if name in OFFLOAD_EXEMPT_TOOLS then result
    else
      var stored := config.persist(id, result);
      var content := if stored.Some? then stored.value else result;
      if content.Text? && |content.text| > config.maxToolResultChars
      then Text(config.truncate(content.text)) else content
  }

  function WithinResultBudget(config: Config, vs: seq<Msg>): (out: seq<Msg>)
    ensures |out| == |vs|
  {
    seq(|vs|, i requires 0 <= i < |vs| =>
      if vs[i].role.Tool? then vs[i].(content := Normalized(config, vs[i], i)) else vs[i])
  }

  /** What becomes of a tool result: made non-empty, stored unless it is a file that was read, and cut to size. */
  lemma ResultBudgetMeaning(config: Config, vs: seq<Msg>, i: nat)
    requires i < |vs|
    ensures var m, out := vs[i], WithinResultBudget(config, vs)[i];
            var name := if m.name.Named? && m.name.text != "" then m.name.text
                        else if m.name.NotText? && m.name.truthy then m.name.shown else "tool";
            var result := config.ensureNonempty(name, m.content);
            var id := if m.toolCallId == "" then AtPosition(i) else OwnId(m.toolCallId);
            && out == m.(content := out.content)
            && (!m.role.Tool? ==> out == m)
            && (m.role.Tool? && name == "read_file" ==> out.content == result)
            && (m.role.Tool? && name != "read_file" ==>
                  var stored := config.persist(id, result);
                  var kept := if stored.None? then result else stored.value;
                  out.content == if kept.Text? && |kept.text| > config.maxToolResultChars
                                 then Text(config.truncate(kept.text)) else kept)
  {
  }

  /** `list[i]["content"] = content` on a list of the caller's own copies. */
  method SetContent(list: seq<Message>, i: nat, content: Content)
    requires i < |list| && Distinct(list)
    modifies list[i]
    ensures list[i].value == old(list[i].value).(content := content)
    ensures forall j :: 0 <= j < |list| && j != i ==> list[j].value == old(list[j].value)
  {
    list[i].value := list[i].value.(content := content);
  }

  method ApplyResultBudget(config: Config, messages: seq<Message>) returns (updated: seq<Message>)
    ensures Views(updated) == WithinResultBudget(config, Views(messages))
  {
    ghost var vs := Views(messages);
    ghost var target := WithinResultBudget(config, vs);
    updated := messages;
    var copied := false;
    for i := 0 to |messages|
      invariant Shows(messages, vs) && |updated| == |vs|
      invariant forall j :: 0 <= j < |vs| ==> updated[j].value == if j < i then target[j] else vs[j]
      invariant if copied then Distinct(updated) && (forall k :: 0 <= k < |updated| ==> fresh(updated[k]))
                else updated == messages
    {
      var m := messages[i].value;
      var normalized := Normalized(config, m, i);
      if m.role.Tool? && normalized != m.content {
        if !copied {
          copied := true;
          updated := CopyAll(messages);
        }
        SetContent(updated, i, normalized);
      }
    }
  }

  // ---- In-flight compaction ----

  predicate IsRecorded(m: Msg, ids: set<string>) {
    m.role.Tool? && m.toolCallId != "" && m.toolCallId in ids
  }

  function WithRecorded(config: Config, vs: seq<Msg>, ids: set<string>): (out: seq<Msg>)
    ensures |out| == |vs|
  {
    seq(|vs|, i requires 0 <= i < |vs| =>
      if IsRecorded(vs[i], ids) then vs[i].(content := config.notice(vs[i].name)) else vs[i])
  }

  /** Recorded results show the notice, everything else stays. */
  lemma WithRecordedMeaning(config: Config, vs: seq<Msg>, ids: set<string>, i: nat)
    requires i < |vs|
    ensures WithRecorded(config, vs, ids)[i]
            == if vs[i].role.Tool? && vs[i].toolCallId != "" && vs[i].toolCallId in ids
               then vs[i].(content := config.notice(vs[i].name)) else vs[i]
  {
  }

  method ApplyRecordedCompactions(config: Config, messages: seq<Message>, ids: set<string>)
    returns (updated: seq<Message>, copied: bool)
    ensures Views(updated) == WithRecorded(config, Views(messages), ids)
    ensures if copied then Distinct(updated) && (forall k :: 0 <= k < |updated| ==> fresh(updated[k]))
            else updated == messages
  {
    ghost var vs := Views(messages);
    ghost var target := WithRecorded(config, vs, ids);
    updated, copied := messages, false;
    for i := 0 to |messages|
      invariant Shows(messages, vs) && |updated| == |vs|
      invariant forall j :: 0 <= j < |vs| ==> updated[j].value == if j < i then target[j] else vs[j]
      invariant if copied then Distinct(updated) && (forall k :: 0 <= k < |updated| ==> fresh(updated[k]))
                else updated == messages
    {
      var m := messages[i].value;
      if IsRecorded(m, ids) && m.content != config.notice(m.name) {
        if !copied {
          copied := true;
          updated := CopyAll(messages);
        }
        SetContent(updated, i, config.notice(m.name));
      }
    }
  }

  datatype Candidate = Candidate(at: nat, id: string)

  predicate IsCandidate(config: Config, m: Msg, index: nat, ids: set<string>) {
    && config.inflightStart <= index
    && m.role.Tool? && m.name.Named? && m.name.text in COMPACTABLE_TOOLS
    && m.toolCallId != "" && m.toolCallId !in ids
    && m.content.Text? && |m.content.text| >= MICROCOMPACT_MIN_CHARS
  }

  function CandidatesUpTo(config: Config, vs: seq<Msg>, ids: set<string>, n: nat): (cs: seq<Candidate>)
    requires n <= |vs|
    ensures forall c :: c in cs ==> c.at < n && vs[c.at].role.Tool? && c.id == vs[c.at].toolCallId && c.id !in ids
  {
    if n == 0 then []
    else
      CandidatesUpTo(config, vs, ids, n - 1)
      + if IsCandidate(config, vs[n - 1], n - 1, ids) then [Candidate(n - 1, vs[n - 1].toolCallId)] else []
  }

  /** A long text result of one of the compactable tools, in flight and not recorded yet. */
  predicate IsLongResult(config: Config, m: Msg, index: nat, ids: set<string>) {
    && index >= config.inflightStart && m.role.Tool? && m.toolCallId != "" && m.toolCallId !in ids
    && m.content.Text? && |m.content.text| >= 500
    && m.name.Named?
    && m.name.text in {"read_file", "exec", "grep", "find_files", "web_search", "web_fetch", "list_dir",
                       "list_exec_sessions"}
  }

  /** Candidates in the order of their messages, each with its message's id. */
  ghost predicate AreOrdered(vs: seq<Msg>, cs: seq<Candidate>, n: nat)
    requires n <= |vs|
  {
    && (forall k :: 0 <= k < |cs| ==> cs[k].at < n && cs[k].id == vs[cs[k].at].toolCallId)
    && forall j, k :: 0 <= j < k < |cs| ==> cs[j].at < cs[k].at
  }

  ghost predicate IsListed(cs: seq<Candidate>, at: nat) {
    exists k :: 0 <= k < |cs| && cs[k].at == at
  }

  lemma CandidateStep(config: Config, vs: seq<Msg>, ids: set<string>, n: nat)
    requires n < |vs|
    ensures CandidatesUpTo(config, vs, ids, n + 1)
            == if IsLongResult(config, vs[n], n, ids)
               then CandidatesUpTo(config, vs, ids, n) + [Candidate(n, vs[n].toolCallId)]
               else CandidatesUpTo(config, vs, ids, n)
  {
    assert IsLongResult(config, vs[n], n, ids) <==> IsCandidate(config, vs[n], n, ids);
  }

  lemma OneMoreListed(cs: seq<Candidate>, c: Candidate, at: nat)
    ensures IsListed(cs + [c], at) <==> IsListed(cs, at) || c.at == at
  {
    assert (cs + [c])[|cs|] == c;
    if IsListed(cs, at) {
      var k :| 0 <= k < |cs| && cs[k].at == at;
      assert (cs + [c])[k].at == at;
    }
  }

  lemma CandidateJoins(vs: seq<Msg>, cs: seq<Candidate>, n: nat)
    requires n < |vs| && AreOrdered(vs, cs, n)
    ensures AreOrdered(vs, cs, n + 1) && AreOrdered(vs, cs + [Candidate(n, vs[n].toolCallId)], n + 1)
  {
  }

  lemma CandidatesStayOrdered(config: Config, vs: seq<Msg>, ids: set<string>, n: nat)
    requires n < |vs| && AreOrdered(vs, CandidatesUpTo(config, vs, ids, n), n)
    ensures AreOrdered(vs, CandidatesUpTo(config, vs, ids, n + 1), n + 1)
  {
    CandidateStep(config, vs, ids, n);
    CandidateJoins(vs, CandidatesUpTo(config, vs, ids, n), n);
  }

  lemma {:induction false} CandidatesAreOrdered(config: Config, vs: seq<Msg>, ids: set<string>, n: nat)
    requires n <= |vs|
    ensures AreOrdered(vs, CandidatesUpTo(config, vs, ids, n), n)
  {
    if n > 0 {
      CandidatesAreOrdered(config, vs, ids, n - 1);
      CandidatesStayOrdered(config, vs, ids, n - 1);
    }
  }

  /** The candidates are all long results, each once, from the oldest to the newest. */
  lemma {:induction false} CandidatesMeaning(config: Config, vs: seq<Msg>, ids: set<string>, n: nat, i: nat)
    requires i < n <= |vs|
    ensures AreOrdered(vs, CandidatesUpTo(config, vs, ids, n), n)
    ensures IsListed(CandidatesUpTo(config, vs, ids, n), i) <==> IsLongResult(config, vs[i], i, ids)
  {
    CandidatesAreOrdered(config, vs, ids, n);
    CandidateIsListed(config, vs, ids, n, i);
  }

  lemma ListedStep(config: Config, vs: seq<Msg>, ids: set<string>, n: nat, i: nat)
    requires n < |vs|
    ensures IsListed(CandidatesUpTo(config, vs, ids, n + 1), i) <==>
              IsListed(CandidatesUpTo(config, vs, ids, n), i) || (i == n && IsLongResult(config, vs[n], n, ids))
  {
    CandidateStep(config, vs, ids, n);
    OneMoreListed(CandidatesUpTo(config, vs, ids, n), Candidate(n, vs[n].toolCallId), i);
  }

  lemma {:induction false} CandidateIsListed(config: Config, vs: seq<Msg>, ids: set<string>, n: nat, i: nat)
    requires i < n <= |vs|
    ensures IsListed(CandidatesUpTo(config, vs, ids, n), i) <==> IsLongResult(config, vs[i], i, ids)
  {
    ListedStep(config, vs, ids, n - 1, i);
    if i < n - 1 {
      CandidateIsListed(config, vs, ids, n - 1, i);
    } else {
      CandidatesAreOrdered(config, vs, ids, n - 1);
    }
  }

  method InflightCandidates(config: Config, messages: seq<Message>, ids: set<string>)
    returns (cs: seq<Candidate>)
    ensures cs == CandidatesUpTo(config, Views(messages), ids, |messages|)
  {
    ghost var vs := Views(messages);
    var compactable: seq<Candidate> := [];
    for i := 0 to |messages|
      invariant compactable == CandidatesUpTo(config, vs, ids, i)
    {
      if IsCandidate(config, messages[i].value, i, ids) {
        compactable := compactable + [Candidate(i, messages[i].value.toolCallId)];
      }
    }
    var primaryCount := if |compactable| > MICROCOMPACT_KEEP_RECENT then |compactable| - MICROCOMPACT_KEEP_RECENT
      else 0;
    cs := compactable[..primaryCount] + compactable[primaryCount..];
  }

  function CompactedAt(config: Config, vs: seq<Msg>, i: nat): (out: seq<Msg>)
    ensures |out| == |vs|
  {
    if i < |vs| then vs[i := vs[i].(content := config.notice(vs[i].name))] else vs
  }

  /** How far compaction has come. */
  datatype Progress = Progress(messages: seq<Msg>, ids: set<string>, estimate: int)

  function CompactOne(config: Config, c: Candidate, vs: seq<Msg>, ids: set<string>): Progress {
    var ms := CompactedAt(config, vs, c.at);
    Progress(ms, ids + {c.id}, config.estimate(ms))
  }

  function Compacting(config: Config, budget: int, target: int, cs: seq<Candidate>, j: nat, s: Progress): Progress
    requires j <= |cs|
    decreases |cs| - j
  {
    if j == |cs| || (j == |cs| - 1 && s.estimate <= budget) then s
    else if cs[j].id in s.ids then Compacting(config, budget, target, cs, j + 1, s)
    else
      var next := CompactOne(config, cs[j], s.messages, s.ids);
      if next.estimate <= target then next else Compacting(config, budget, target, cs, j + 1, next)
  }

  function Target(budget: nat): nat {
    budget * 85 / 100
  }

  function InflightStart(config: Config, vs: seq<Msg>, ids: set<string>): Progress {
    var ms := WithRecorded(config, vs, ids);
    Progress(ms, ids, config.estimate(ms))
  }

  function InflightCandidatesOf(config: Config, vs: seq<Msg>, ids: set<string>): seq<Candidate> {
    CandidatesUpTo(config, WithRecorded(config, vs, ids), ids, |vs|)
  }

  function Inflight(config: Config, vs: seq<Msg>, ids: set<string>): Progress {
    var budget, s := InputBudget(config), InflightStart(config, vs, ids);
    if budget == 0 then Progress(vs, ids, 0)
    else if s.estimate <= budget then s
    else Compacting(config, budget, Target(budget), InflightCandidatesOf(config, vs, ids), 0, s)
  }

  /** Records an id and puts the notice in the caller's copy, then estimates again. */
  method CompactResult(config: Config, list: seq<Message>, compacted: CompactedIds, c: Candidate)
    returns (estimate: int)
    requires Distinct(list) && c.at < |list|
    modifies compacted, list[c.at]
    ensures Progress(Views(list), compacted.ids, estimate)
         == CompactOne(config, c, old(Views(list)), old(compacted.ids))
    ensures forall k :: 0 <= k < |list| ==> k == c.at || list[k].value == old(list[k].value)
  {
    compacted.ids := compacted.ids + {c.id};
    SetContent(list, c.at, config.notice(list[c.at].value.name));
    assert Views(list) == CompactedAt(config, old(Views(list)), c.at);
    estimate := config.estimate(Views(list));
  }

  lemma CompactingUnfolds(config: Config, budget: int, target: int, cs: seq<Candidate>, j: nat, s: Progress)
    requires j < |cs|
    ensures Compacting(config, budget, target, cs, j, s)
            == if j == |cs| - 1 && s.estimate <= budget then s
               else if cs[j].id in s.ids then Compacting(config, budget, target, cs, j + 1, s)
               else
                 var next := CompactOne(config, cs[j], s.messages, s.ids);
                 if next.estimate <= target then next else Compacting(config, budget, target, cs, j + 1, next)
  {
  }

  /** Compacts one result, in a copy of the list unless the list is the caller's own. */
  method CompactNext(config: Config, list: seq<Message>, owned: bool, compacted: CompactedIds, c: Candidate)
    returns (updated: seq<Message>, estimate: int)
    requires owned ==> Distinct(list)
    requires c.at < |list|
    modifies compacted, set m | owned && m in list
    ensures |updated| == |list| && Distinct(updated)
    ensures if owned then updated == list else forall k :: 0 <= k < |updated| ==> fresh(updated[k])
    ensures Progress(Views(updated), compacted.ids, estimate)
            == CompactOne(config, c, old(Views(list)), old(compacted.ids))
  {
    updated := list;
    if !owned {
      updated := CopyAll(list);
    }
    estimate := CompactResult(config, updated, compacted, c);
  }

  /** One round: it stops when it is done, and otherwise compacts the candidate unless it is recorded. */
  method CompactRound(config: Config, budget: int, target: int, cs: seq<Candidate>, j: nat, list: seq<Message>,
                      owned: bool, compacted: CompactedIds, estimate0: int)
    returns (updated: seq<Message>, own: bool, estimate: int, stop: bool)
    requires j < |cs| && cs[j].at < |list| && (owned ==> Distinct(list))
    modifies compacted, set m | owned && m in list
    ensures |updated| == |list| && (own ==> Distinct(updated)) && (owned ==> own)
    ensures if owned || !own then updated == list else forall k :: 0 <= k < |updated| ==> fresh(updated[k])
    ensures var now := Progress(Views(updated), compacted.ids, estimate);
            Compacting(config, budget, target, cs, j, Progress(old(Views(list)), old(compacted.ids), estimate0))
            == if stop then now else Compacting(config, budget, target, cs, j + 1, now)
  {
    CompactingUnfolds(config, budget, target, cs, j, Progress(Views(list), compacted.ids, estimate0));
    updated, own, estimate := list, owned, estimate0;
    if j == |cs| - 1 && estimate <= budget {
      return updated, own, estimate, true;
    }
    if cs[j].id in compacted.ids {
      return updated, own, estimate, false;
    }
    updated, estimate := CompactNext(config, list, owned, compacted, cs[j]);
    own, stop := true, estimate <= target;
  }

  /** The compaction loop: oldest candidate first, copying the list before the first change. */
  method CompactCandidates(config: Config, budget: nat, cs: seq<Candidate>, messages: seq<Message>,
                           copied: bool, compacted: CompactedIds, estimate0: int)
    returns (updated: seq<Message>)
    requires forall c :: c in cs ==> c.at < |messages|
    requires copied ==> Distinct(messages)
    modifies compacted, set m | copied && m in messages
    ensures var r := Compacting(config, budget, Target(budget), cs, 0,
                                Progress(old(Views(messages)), old(compacted.ids), estimate0));
            Views(updated) == r.messages && compacted.ids == r.ids
  {
    ghost var start := Progress(Views(messages), compacted.ids, estimate0);
    var target, estimate, owned, stop := Target(budget), estimate0, copied, false;
    updated := messages;
    var j := 0;
    while j < |cs| && !stop
      invariant j <= |cs| && |updated| == |messages| && (owned ==> Distinct(updated)) && (copied ==> owned)
      invariant if copied || !owned then updated == messages else forall k :: 0 <= k < |updated| ==> fresh(updated[k])
      invariant Compacting(config, budget, target, cs, 0, start)
                == var now := Progress(Views(updated), compacted.ids, estimate);
                   if stop then now else Compacting(config, budget, target, cs, j, now)
    {
      assert cs[j] in cs;
      updated, owned, estimate, stop :=
        CompactRound(config, budget, target, cs, j, updated, owned, compacted, estimate);
      j := j + 1;
    }
  }

  method CompactInflightOverflow(config: Config, messages: seq<Message>, compacted: CompactedIds)
    returns (updated: seq<Message>)
    modifies compacted
    ensures var r := Inflight(config, old(Views(messages)), old(compacted.ids));
            Views(updated) == r.messages && compacted.ids == r.ids
    ensures InputBudget(config) == 0 ==> updated == messages && compacted.ids == old(compacted.ids)
  {
    var budget := InputBudget(config);
    if budget == 0 {
      return messages;
    }
    var copied;
    updated, copied := ApplyRecordedCompactions(config, messages, compacted.ids);
    var estimate := config.estimate(Views(updated));
    if estimate <= budget {
      return;
    }
    var cs := InflightCandidates(config, updated, compacted.ids);
    updated := CompactCandidates(config, budget, cs, updated, copied, compacted, estimate);
  }

  // ---- What in-flight compaction guarantees ----

  lemma {:induction false} CompactingFitsOrExhausts(
    config: Config, budget: int, target: int, cs: seq<Candidate>, j: nat, s: Progress)
    requires j <= |cs| && target <= budget && s.estimate == config.estimate(s.messages)
    requires forall k :: 0 <= k < j ==> cs[k].id in s.ids
    ensures var r := Compacting(config, budget, target, cs, j, s);
            && s.ids <= r.ids && r.estimate == config.estimate(r.messages)
            && (r.estimate <= budget || forall c :: c in cs ==> c.id in r.ids)
    decreases |cs| - j
  {
    if j < |cs| && !(j == |cs| - 1 && s.estimate <= budget) {
      if cs[j].id in s.ids {
        CompactingFitsOrExhausts(config, budget, target, cs, j + 1, s);
      } else {
        var next := CompactOne(config, cs[j], s.messages, s.ids);
        if next.estimate > target {
          CompactingFitsOrExhausts(config, budget, target, cs, j + 1, next);
        }
      }
    }
  }

  /**
   * With a positive budget the request ends within it or with every candidate compacted, and
   * the recorded ids only grow.
   */
  lemma InflightFitsOrExhausts(config: Config, vs: seq<Msg>, ids: set<string>)
    requires InputBudget(config) > 0
    ensures var r := Inflight(config, vs, ids);
            && ids <= r.ids && r.estimate == config.estimate(r.messages)
            && (r.estimate <= InputBudget(config)
                || forall c :: c in InflightCandidatesOf(config, vs, ids) ==> c.id in r.ids)
  {
    var budget, s := InputBudget(config), InflightStart(config, vs, ids);
    if s.estimate > budget {
      CompactingFitsOrExhausts(config, budget, Target(budget), InflightCandidatesOf(config, vs, ids), 0, s);
    }
  }

  /** The state after the `k` oldest candidates: each is compacted unless its id is recorded by then. */
  function OldestCompacted(config: Config, cs: seq<Candidate>, k: nat, s: Progress): Progress
    requires k <= |cs|
  {
    if k == 0 then s
    else
      var older := OldestCompacted(config, cs, k - 1, s);
      if cs[k - 1].id in older.ids then older else CompactOne(config, cs[k - 1], older.messages, older.ids)
  }

  /** Reason to stop before candidate `k`: it is the newest and all fits, or the last one reached the target. */
  ghost predicate StopIsDue(config: Config, budget: int, target: int, cs: seq<Candidate>, k: nat, s: Progress)
    requires k <= |cs|
  {
    var now := OldestCompacted(config, cs, k, s);
    || k == |cs| || (k == |cs| - 1 && now.estimate <= budget)
    || (k > 0 && cs[k - 1].id !in OldestCompacted(config, cs, k - 1, s).ids && now.estimate <= target)
  }

  ghost predicate NotDueBefore(config: Config, budget: int, target: int, cs: seq<Candidate>, k: nat, s: Progress)
    requires k <= |cs|
  {
    forall i :: 0 <= i < k ==> !StopIsDue(config, budget, target, cs, i, s)
  }

  lemma {:induction false} OldestIds(config: Config, cs: seq<Candidate>, k: nat, s: Progress, id: string)
    requires k <= |cs|
    ensures id in OldestCompacted(config, cs, k, s).ids <==> id in s.ids || exists i :: 0 <= i < k && cs[i].id == id
  {
    if k > 0 {
      OldestIds(config, cs, k - 1, s, id);
    }
  }

  /** One of the first `k` candidates is message `at`, and none before it has its id. */
  ghost predicate IsAmong(cs: seq<Candidate>, k: nat, at: nat)
    requires k <= |cs|
  {
    exists j :: 0 <= j < k && cs[j].at == at && forall i :: 0 <= i < j ==> cs[i].id != cs[j].id
  }

  lemma OneMoreCandidate(cs: seq<Candidate>, k: nat, at: nat)
    requires k < |cs|
    ensures IsAmong(cs, k + 1, at) <==>
              IsAmong(cs, k, at) || (cs[k].at == at && forall i :: 0 <= i < k ==> cs[i].id != cs[k].id)
  {
    if IsAmong(cs, k, at) {
      var j :| 0 <= j < k && cs[j].at == at && forall i :: 0 <= i < j ==> cs[i].id != cs[j].id;
      assert j < k + 1;
    }
  }

  /** Their results show the notice, and no other message has changed. */
  lemma {:induction false} OldestMessages(config: Config, cs: seq<Candidate>, k: nat, s: Progress, i: nat)
    requires k <= |cs| && i < |s.messages| && forall c :: c in cs ==> c.id !in s.ids
    ensures var out := OldestCompacted(config, cs, k, s).messages;
            && |out| == |s.messages|
            && out[i] == if IsAmong(cs, k, i) then s.messages[i].(content := config.notice(s.messages[i].name))
                         else s.messages[i]
  {
    if k > 0 {
      OldestMessages(config, cs, k - 1, s, i);
      OldestIds(config, cs, k - 1, s, cs[k - 1].id);
      OneMoreCandidate(cs, k - 1, i);
      assert cs[k - 1] in cs;
    }
  }

  lemma CompactingStep(config: Config, budget: int, target: int, cs: seq<Candidate>, j: nat, s: Progress)
    requires j < |cs| && !(j == |cs| - 1 && OldestCompacted(config, cs, j, s).estimate <= budget)
    ensures var now, next := OldestCompacted(config, cs, j, s), OldestCompacted(config, cs, j + 1, s);
            Compacting(config, budget, target, cs, j, now)
            == if cs[j].id !in now.ids && next.estimate <= target then next
               else Compacting(config, budget, target, cs, j + 1, next)
  {
  }

  /** The loop stops where it first has reason to. */
  lemma {:induction false} CompactingStopsWhenDue(
    config: Config, budget: int, target: int, cs: seq<Candidate>, j: nat, s: Progress) returns (k: nat)
    requires j <= |cs| && NotDueBefore(config, budget, target, cs, j, s)
    requires j > 0 && cs[j - 1].id !in OldestCompacted(config, cs, j - 1, s).ids ==>
               OldestCompacted(config, cs, j, s).estimate > target
    ensures j <= k <= |cs| && StopIsDue(config, budget, target, cs, k, s)
    ensures NotDueBefore(config, budget, target, cs, k, s)
    ensures Compacting(config, budget, target, cs, j, OldestCompacted(config, cs, j, s))
         == OldestCompacted(config, cs, k, s)
    decreases |cs| - j
  {
    var now := OldestCompacted(config, cs, j, s);
    if j == |cs| || (j == |cs| - 1 && now.estimate <= budget) {
      return j;
    }
    CompactingStep(config, budget, target, cs, j, s);
    assert !StopIsDue(config, budget, target, cs, j, s);
    if cs[j].id !in now.ids && OldestCompacted(config, cs, j + 1, s).estimate <= target {
      k := j + 1;
    } else {
      k := CompactingStopsWhenDue(config, budget, target, cs, j + 1, s);
    }
  }

  /** Where in-flight compaction stops. */
  lemma InflightStops(config: Config, vs: seq<Msg>, ids: set<string>) returns (cs: seq<Candidate>, k: nat)
    requires InputBudget(config) > 0
    ensures cs == InflightCandidatesOf(config, vs, ids) && k <= |cs|
    ensures var s, budget := InflightStart(config, vs, ids), InputBudget(config);
            && Inflight(config, vs, ids) == OldestCompacted(config, cs, k, s)
            && (s.estimate <= budget ==> k == 0)
            && (s.estimate > budget ==>
                  StopIsDue(config, budget, budget * 85 / 100, cs, k, s)
                  && NotDueBefore(config, budget, budget * 85 / 100, cs, k, s))
  {
    var budget, s := InputBudget(config), InflightStart(config, vs, ids);
    cs, k := InflightCandidatesOf(config, vs, ids), 0;
    if s.estimate > budget {
      k := CompactingStopsWhenDue(config, budget, Target(budget), cs, 0, s);
    }
  }

  /**
   * Which results are compacted: those recorded before, and of the candidates the `k` oldest with a new
   * id, where `k` is the first place at which there is reason to stop. Their ids are recorded.
   */
  lemma InflightIsExact(config: Config, vs: seq<Msg>, ids: set<string>) returns (cs: seq<Candidate>, k: nat)
    requires InputBudget(config) > 0
    ensures cs == InflightCandidatesOf(config, vs, ids) && k <= |cs|
    ensures var s, budget := InflightStart(config, vs, ids), InputBudget(config);
            if s.estimate <= budget then k == 0
            else StopIsDue(config, budget, budget * 85 / 100, cs, k, s)
                 && NotDueBefore(config, budget, budget * 85 / 100, cs, k, s)
    ensures forall id :: id in Inflight(config, vs, ids).ids <==> id in ids || exists j :: 0 <= j < k && cs[j].id == id
    ensures var out := Inflight(config, vs, ids).messages;
            |out| == |vs| && forall i :: 0 <= i < |vs| ==> IsCompactedIn(config, vs, ids, cs, k, out, i)
  {
    cs, k := InflightStops(config, vs, ids);
    var s, out := InflightStart(config, vs, ids), Inflight(config, vs, ids).messages;
    forall id ensures id in Inflight(config, vs, ids).ids <==> id in ids || exists j :: 0 <= j < k && cs[j].id == id {
      OldestIds(config, cs, k, s, id);
    }
    assert |out| == |vs| by {
      if vs != [] {
        OldestMessages(config, cs, k, s, 0);
      } else {
        OldestKeepLength(config, cs, k, s);
      }
    }
    forall i: nat | i < |vs| ensures IsCompactedIn(config, vs, ids, cs, k, out, i) {
      OldestMessages(config, cs, k, s, i);
      WithRecordedMeaning(config, vs, ids, i);
    }
  }

  lemma {:induction false} OldestKeepLength(config: Config, cs: seq<Candidate>, k: nat, s: Progress)
    requires k <= |cs|
    ensures |OldestCompacted(config, cs, k, s).messages| == |s.messages|
  {
    if k > 0 {
      OldestKeepLength(config, cs, k - 1, s);
    }
  }

  /** Message `i` shows the notice if its result was recorded or is one of the first `k`, and is as it was if not. */
  ghost predicate IsCompactedIn(config: Config, vs: seq<Msg>, ids: set<string>, cs: seq<Candidate>, k: nat,
    out: seq<Msg>, i: int)
    requires k <= |cs| && |out| == |vs| && 0 <= i < |vs|
  {
    out[i] == if IsAmong(cs, k, i) || (vs[i].role.Tool? && vs[i].toolCallId != "" && vs[i].toolCallId in ids)
              then vs[i].(content := config.notice(vs[i].name)) else vs[i]
  }

  /**
   * The oldest candidates go first and no more of them than needed: the newest one, if no other has its
   * id, is compacted only if the request with all older ones compacted is still over the budget.
   */
  lemma InflightSparesNewest(config: Config, vs: seq<Msg>, ids: set<string>)
    requires InputBudget(config) > 0 && InflightCandidatesOf(config, vs, ids) != []
    requires var cs := InflightCandidatesOf(config, vs, ids);
             forall j :: 0 <= j < |cs| - 1 ==> cs[j].id != cs[|cs| - 1].id
    ensures var cs, r := InflightCandidatesOf(config, vs, ids), Inflight(config, vs, ids);
            var older := OldestCompacted(config, cs, |cs| - 1, InflightStart(config, vs, ids));
            cs[|cs| - 1].id in r.ids ==> older.estimate > InputBudget(config)
  {
    var cs, k := InflightStops(config, vs, ids);
    var s, last, budget := InflightStart(config, vs, ids), cs[|cs| - 1], InputBudget(config);
    assert last in cs && last.id !in ids;
    OldestIds(config, cs, k, s, last.id);
    if last.id in Inflight(config, vs, ids).ids {
      assert k == |cs|;
      assert !StopIsDue(config, budget, budget * 85 / 100, cs, |cs| - 1, s);
    }
  }

  /** Compaction only ever puts the notice in place of a tool result's content. */
  ghost predicate OnlyNotices(config: Config, vs: seq<Msg>, out: seq<Msg>) {
    && |out| == |vs|
    && forall i :: 0 <= i < |vs| ==>
         out[i] == vs[i] || (vs[i].role.Tool? && out[i] == vs[i].(content := config.notice(vs[i].name)))
  }

  lemma {:induction false} CompactingOnlyNotices(
    config: Config, vs: seq<Msg>, ids: set<string>, budget: int, target: int, cs: seq<Candidate>, j: nat, s: Progress)
    requires j <= |cs| && OnlyNotices(config, vs, s.messages)
    requires forall c :: c in cs ==> c.at < |vs| && vs[c.at].role.Tool?
    requires forall i :: 0 <= i < |vs| && IsRecorded(vs[i], ids) ==> s.messages[i].content == config.notice(vs[i].name)
    ensures var r := Compacting(config, budget, target, cs, j, s);
            && OnlyNotices(config, vs, r.messages)
            && forall i :: 0 <= i < |vs| && IsRecorded(vs[i], ids) ==>
                 r.messages[i].content == config.notice(vs[i].name)
    decreases |cs| - j
  {
    if j < |cs| && !(j == |cs| - 1 && s.estimate <= budget) {
      if cs[j].id in s.ids {
        CompactingOnlyNotices(config, vs, ids, budget, target, cs, j + 1, s);
      } else {
        var next := CompactOne(config, cs[j], s.messages, s.ids);
        assert cs[j] in cs;
        if next.estimate > target {
          CompactingOnlyNotices(config, vs, ids, budget, target, cs, j + 1, next);
        }
      }
    }
  }

  /**
   * With a positive budget a later request re-applies every recorded compaction, and nothing
   * but contents of tool results ever changes.
   */
  lemma InflightReappliesRecorded(config: Config, vs: seq<Msg>, ids: set<string>)
    requires InputBudget(config) > 0
    ensures var r := Inflight(config, vs, ids);
            && OnlyNotices(config, vs, r.messages)
            && forall i :: 0 <= i < |vs| && IsRecorded(vs[i], ids) ==>
                 r.messages[i].content == config.notice(vs[i].name)
  {
    var budget, s, cs := InputBudget(config), InflightStart(config, vs, ids), InflightCandidatesOf(config, vs, ids);
    CompactingOnlyNotices(config, vs, ids, budget, Target(budget), cs, 0, s);
  }

  // ---- The whole preparation ----

  /** The list in-flight compaction starts from. */
  function Shaped(config: Config, vs: seq<Msg>): seq<Msg> {
    var stripped := WithoutPlaceholdersUpTo(config, vs, |vs|);
    var cleaned := WithoutMalformedUpTo(stripped, |stripped|);
    WithinResultBudget(config, Repaired(cleaned))
  }

  /** The passes in front of compaction, one by one, each by what it does to the messages it gets. */
  lemma ShapedIsExact(config: Config, vs: seq<Msg>)
    returns (stripped: seq<Msg>, cleaned: seq<Msg>, kept: seq<Msg>, repaired: seq<Msg>)
    ensures IsSelection(vs, stripped, SaysSomething(config)) && AreStripped(stripped, cleaned)
    ensures IsRepair(cleaned, kept, repaired) && |Shaped(config, vs)| == |repaired|
    ensures forall i :: 0 <= i < |repaired| ==>
              Shaped(config, vs)[i] == if repaired[i].role.Tool?
                                       then repaired[i].(content := Normalized(config, repaired[i], i)) else repaired[i]
  {
    stripped := WithoutPlaceholdersUpTo(config, vs, |vs|);
    cleaned := WithoutMalformedUpTo(stripped, |stripped|);
    repaired := Repaired(cleaned);
    PlaceholdersAreDropped(config, vs, |vs|);
    HollowMessagesAreDropped(stripped, |stripped|);
    kept := RepairIsExact(cleaned);
    assert vs[..|vs|] == vs && stripped[..|stripped|] == stripped;
  }

  /**
   * `prepare_for_model`. The result is paired whatever the input and the snipping step are. The
   * input list's messages are not in the modifies clause, so they hold what they held before.
   */
  method PrepareForModel(config: Config, messages: seq<Message>, compacted: CompactedIds)
    returns (updated: seq<Message>)
    modifies compacted
    ensures Paired(Views(updated))
    ensures old(compacted.ids) <= compacted.ids
    ensures var r := Inflight(config, Shaped(config, old(Views(messages))), old(compacted.ids));
            exists kept :: IsRepair(config.snip(r.messages), kept, Views(updated))
    ensures var r := Inflight(config, Shaped(config, old(Views(messages))), old(compacted.ids));
            Views(updated) == Repaired(config.snip(r.messages)) && compacted.ids == r.ids
  {
    updated := StripPlaceholders(config, messages);
    updated := StripMalformedCalls(updated);
    updated := DropOrphanResults(updated);
    updated := BackfillMissingResults(updated);
    updated := ApplyResultBudget(config, updated);
    ghost var shaped := Views(updated);
    updated := CompactInflightOverflow(config, updated, compacted);
    var snipped := config.snip(Views(updated));
    updated := Materialize(snipped);
    updated := DropOrphanResults(updated);
    updated := BackfillMissingResults(updated);
    RepairPairs(snipped);
    ghost var kept := RepairIsExact(snipped);
    if InputBudget(config) > 0 {
      InflightFitsOrExhausts(config, shaped, old(compacted.ids));
    }
  }
}
