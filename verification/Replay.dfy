/** Where a replayed window of the history may start. */
module Replay {
  import opened Messages

  /** In the window that starts at `s`, message `j` is a tool result that no call before it declares. */
  ghost predicate OrphanFrom(ms: seq<Msg>, s: nat, j: nat) {
    && s <= j < |ms| && ms[j].role.Tool? && ms[j].toolCallId != ""
    && forall k :: s <= k < j ==> ms[j].toolCallId !in DeclaredBy(ms[k])
  }

  ghost predicate HasOrphanFrom(ms: seq<Msg>, s: nat) {
    exists j: nat :: OrphanFrom(ms, s, j)
  }

  lemma NoOrphansFrom(ms: seq<Msg>, s: nat)
    requires s <= |ms|
    ensures NoOrphans(ms[s..]) <==> !HasOrphanFrom(ms, s)
  {
    var w := ms[s..];
    assert forall i :: 0 <= i < |w| ==> w[i] == ms[s + i];
    if HasOrphanFrom(ms, s) {
      var j: nat :| OrphanFrom(ms, s, j);
      assert w[j - s] == ms[j];
      assert forall i :: 0 <= i < j - s ==> w[j - s].toolCallId !in DeclaredBy(w[i]);
    } else {
      forall j | 0 <= j < |w| && w[j].role.Tool? && w[j].toolCallId != ""
        ensures exists i :: 0 <= i < j && w[j].toolCallId in DeclaredBy(w[i])
      {
        assert !OrphanFrom(ms, s, s + j) && w[j] == ms[s + j];
        var k :| s <= k < s + j && w[j].toolCallId in DeclaredBy(ms[k]);
        assert w[k - s] == ms[k];
      }
    }
  }

  /**
   * `find_legal_message_start`: the window from the result on has no orphan result, and every
   * window that starts earlier has one.
   */
  method FindLegalStart(ms: seq<Msg>) returns (start: nat)
    ensures start <= |ms| && NoOrphans(ms[start..])
    ensures forall s :: 0 <= s < start ==> !NoOrphans(ms[s..])
  {
    var declared: set<string> := {};
    start := 0;
    for i := 0 to |ms|
      invariant start <= i
      invariant forall id :: id in declared <==> exists k :: start <= k < i && id in DeclaredBy(ms[k])
      invariant forall j: nat :: j < i ==> !OrphanFrom(ms, start, j)
      invariant forall s: nat :: s < start ==> HasOrphanFrom(ms, s)
    {
      var m := ms[i];
      if m.role.Assistant? {
        declared := declared + DeclaredBy(m);
      } else if m.role.Tool? && m.toolCallId != "" && m.toolCallId !in declared {
        forall s: nat | start <= s <= i ensures HasOrphanFrom(ms, s) {
          assert OrphanFrom(ms, s, i);
        }
        start := i + 1;
        declared := {};
      }
    }
    NoOrphansFrom(ms, start);
    forall s: nat | s < start ensures !NoOrphans(ms[s..]) {
      NoOrphansFrom(ms, s);
    }
  }

  predicate IsUser(m: Msg) {
    m.role.User?
  }

  /** A user turn and the channel delivery that may stand right before it. */
  predicate OpensTurn(ms: seq<Msg>, delivery: Msg -> bool, start: int) {
    0 <= start < |ms| && (IsUser(ms[start]) || (start + 1 < |ms| && IsUser(ms[start + 1]) && delivery(ms[start])))
  }

  /** Message `i` is the last user turn. */
  ghost predicate IsLastUser(ms: seq<Msg>, i: int) {
    0 <= i < |ms| && ms[i].role.User? && forall j :: i < j < |ms| ==> !ms[j].role.User?
  }

  /** Where the last `max` messages begin, or the last user turn before them, or the delivery before that. */
  ghost predicate IsRecentStart(ms: seq<Msg>, delivery: Msg -> bool, max: int, start: int)
    requires 0 < max < |ms|
  {
    if (forall i :: 0 <= i < |ms| - max ==> !ms[i].role.User?) || exists i :: |ms| - max <= i < |ms| && ms[i].role.User?
    then start == |ms| - max
    else exists i :: IsLastUser(ms, i) && start == if i > 0 && delivery(ms[i - 1]) then i - 1 else i
  }

  /**
   * `recent_message_start_index` with `extend_to_user`: the last `max` messages if a user turn is
   * among them; otherwise back to the last user turn before them, if there is one.
   */
  method RecentStart(ms: seq<Msg>, delivery: Msg -> bool, max: int) returns (start: nat)
    requires 0 < max < |ms|
    ensures start <= |ms| - max
    ensures (exists i :: |ms| - max <= i < |ms| && IsUser(ms[i])) ==> start == |ms| - max
    ensures (forall i :: 0 <= i < |ms| ==> !IsUser(ms[i])) ==> start == |ms| - max
    ensures start < |ms| - max ==>
              OpensTurn(ms, delivery, start) && forall i :: start + 2 <= i < |ms| ==> !IsUser(ms[i])
    ensures (exists i :: 0 <= i < |ms| && IsUser(ms[i])) ==> exists i :: start <= i < |ms| && IsUser(ms[i])
    ensures IsRecentStart(ms, delivery, max, start)
  {
    start := |ms| - max;
    for i := |ms| - max to |ms|
      invariant forall k :: |ms| - max <= k < i ==> !IsUser(ms[k])
    {
      if IsUser(ms[i]) {
        return;
      }
    }
    for i := |ms| - max downto 0
      invariant forall k :: i <= k < |ms| ==> !IsUser(ms[k])
    {
      if IsUser(ms[i]) {
        assert IsLastUser(ms, i);
        return if i > 0 && delivery(ms[i - 1]) then i - 1 else i;
      }
    }
  }
}
