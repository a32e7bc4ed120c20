/** Chat messages as the session history and the model-facing copy hold them. */
module Messages {
  import opened Wrappers

  datatype Role = System | User | Assistant | Tool | OtherRole

  /** The value found under a "name" key. */
  datatype Name = NoName | Named(text: string) | NotText(shown: string, truthy: bool)

  datatype Callee = NoCallee | Callee(name: Name)

  /**
   * One entry of an assistant message's tool_calls list. An id that is missing or
   * falsy is the empty string, as the code only ever tests ids for truth.
   */
  datatype Call = NotDict | Call(id: string, fn: Callee, topName: Name)

  datatype Content = NoContent | Text(text: string) | Blocks(blocks: seq<string>)

  /** The value of a message dictionary at one moment. */
  datatype Msg = Msg(
    role: Role,
    content: Content,
    calls: seq<Call>,
    toolCallId: string,
    name: Name,
    reasoning: string,
    extra: map<string, string>
  )

  predicate HasText(c: Content) {
    match c
    case NoContent => false
    case Text(t) => t != ""
    case Blocks(b) => b != []
  }

  /** A message dictionary: an object that several lists can share, holding its current value. */
  class Message {
    var value: Msg

    constructor (value: Msg)
      ensures this.value == value
    {
      this.value := value;
    }
  }

  function Views(ms: seq<Message>): (vs: seq<Msg>)
    reads ms
    ensures |vs| == |ms|
    ensures forall i :: 0 <= i < |ms| ==> vs[i] == ms[i].value
  {
    seq(|ms|, i requires 0 <= i < |ms| reads ms => ms[i].value)
  }

  /** `ms` are messages that hold `vs`. */
  ghost predicate Shows(ms: seq<Message>, vs: seq<Msg>)
    reads ms
  {
    |ms| == |vs| && forall i :: 0 <= i < |ms| ==> ms[i].value == vs[i]
  }

  lemma ShowsInserted(ms: seq<Message>, vs: seq<Msg>, p: nat, m: Message)
    requires Shows(ms, vs) && p <= |ms|
    ensures Shows(ms[..p] + [m] + ms[p..], vs[..p] + [m.value] + vs[p..])
  {
  }

  /** `[dict(m) for m in ms]`: new objects with the same values. */
  method CopyAll(ms: seq<Message>) returns (copies: seq<Message>)
    ensures Views(copies) == Views(ms)
    ensures Distinct(copies) && forall k :: 0 <= k < |copies| ==> fresh(copies[k])
  {
    copies := Materialize(Views(ms));
  }

  method Materialize(vs: seq<Msg>) returns (copies: seq<Message>)
    ensures Views(copies) == vs
    ensures Distinct(copies) && forall k :: 0 <= k < |copies| ==> fresh(copies[k])
  {
    copies := [];
    for i := 0 to |vs|
      invariant |copies| == i && Distinct(copies)
      invariant forall k :: 0 <= k < |copies| ==> fresh(copies[k])
      invariant forall j :: 0 <= j < i ==> copies[j].value == vs[j]
    {
      var copy := new Message(vs[i]);
      copies := copies + [copy];
    }
    assert Views(copies) == vs;
  }

  /** Ids an assistant message declares. */
  function DeclaredBy(m: Msg): set<string> {
    if m.role.Assistant? then set c | c in m.calls && c.Call? && c.id != "" :: c.id else {}
  }

  predicate IsResult(m: Msg, id: string) {
    m.role.Tool? && m.toolCallId == id && id != ""
  }

  /** Every tool result with an id comes after a message that declares the id. */
  ghost predicate NoOrphans(ms: seq<Msg>) {
    forall j :: 0 <= j < |ms| && ms[j].role.Tool? && ms[j].toolCallId != "" ==>
      exists i :: 0 <= i < j && ms[j].toolCallId in DeclaredBy(ms[i])
  }

  /** `id` has a result after a message declaring it, so after its first declaration. */
  ghost predicate Answered(ms: seq<Msg>, id: string) {
    exists i, j :: 0 <= i < j < |ms| && id in DeclaredBy(ms[i]) && IsResult(ms[j], id)
  }

  ghost predicate AllAnswered(ms: seq<Msg>) {
    forall i, id :: 0 <= i < |ms| && id in DeclaredBy(ms[i]) ==> Answered(ms, id)
  }

  /** What providers ask of a history: both directions of call/result pairing. */
  ghost predicate Paired(ms: seq<Msg>) {
    NoOrphans(ms) && AllAnswered(ms)
  }

  /** Message `i` is an assistant message with a call `k` that has this id. */
  predicate Calls(ms: seq<Msg>, i: int, k: int, id: string) {
    && 0 <= i < |ms| && ms[i].role.Assistant? && 0 <= k < |ms[i].calls| && ms[i].calls[k].Call?
    && ms[i].calls[k].id == id && id != ""
  }

  lemma DeclaringIsCalling(ms: seq<Msg>, i: nat, id: string)
    requires i < |ms|
    ensures id in DeclaredBy(ms[i]) <==> exists k :: Calls(ms, i, k, id)
  {
    if id in DeclaredBy(ms[i]) {
      var c :| c in ms[i].calls && c.Call? && c.id == id;
      var k :| 0 <= k < |ms[i].calls| && ms[i].calls[k] == c;
      assert Calls(ms, i, k, id);
    }
  }

  /** A call with the id has a result behind it. */
  ghost predicate HasResult(ms: seq<Msg>, id: string) {
    exists a, b, j :: Calls(ms, a, b, id) && a < j < |ms| && ms[j].role.Tool? && ms[j].toolCallId == id
  }

  lemma AnsweredMeaning(ms: seq<Msg>, id: string)
    ensures Answered(ms, id) <==> HasResult(ms, id)
  {
    if Answered(ms, id) {
      var i, j :| 0 <= i < j < |ms| && id in DeclaredBy(ms[i]) && IsResult(ms[j], id);
      DeclaringIsCalling(ms, i, id);
    }
    if a, b, j :| Calls(ms, a, b, id) && a < j < |ms| && ms[j].role.Tool? && ms[j].toolCallId == id {
      DeclaringIsCalling(ms, a, id);
      assert IsResult(ms[j], id);
    }
  }

  /** Each result comes behind a call with its id, and each id that is called has a result behind such a call. */
  lemma PairedMeaning(ms: seq<Msg>)
    ensures NoOrphans(ms) <==>
              forall j :: 0 <= j < |ms| && ms[j].role.Tool? && ms[j].toolCallId != "" ==>
                exists i, k :: i < j && Calls(ms, i, k, ms[j].toolCallId)
    ensures AllAnswered(ms) <==> forall i, k, id :: Calls(ms, i, k, id) ==> HasResult(ms, id)
  {
    forall i: nat, id | i < |ms| ensures id in DeclaredBy(ms[i]) <==> exists k :: Calls(ms, i, k, id) {
      DeclaringIsCalling(ms, i, id);
    }
    forall id ensures Answered(ms, id) <==> HasResult(ms, id) {
      AnsweredMeaning(ms, id);
    }
    forall i, k, id | AllAnswered(ms) && Calls(ms, i, k, id) ensures HasResult(ms, id) {
      assert id in DeclaredBy(ms[i]);
    }
  }
}
