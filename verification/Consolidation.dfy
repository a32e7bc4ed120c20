/**
 * Consolidation: old messages leave the prompt by moving `last_consolidated` forward, and every
 * message it passes is archived.
 */
module Consolidation {
  import opened Messages
  import opened Replay
  import opened Wrappers

  const MAX_ROUNDS: nat := 5

  // ---- the boundary of a token round ----

  /** Tokens of the messages `ms[lo..hi]`. */
  function Tokens(weight: Msg -> int, ms: seq<Msg>, lo: int, hi: int): int
    requires 0 <= lo <= hi <= |ms|
    decreases hi - lo
  {
    if lo == hi then 0 else Tokens(weight, ms, lo, hi - 1) + weight(ms[hi - 1])
  }

  /** There is no user turn behind `from`, so no place where a round may cut. */
  ghost predicate HasNoCut(ms: seq<Msg>, from: int) {
    forall k :: 0 <= from < k < |ms| ==> !ms[k].role.User?
  }

  /** The earliest user turn that removes enough, or the last user turn if none does. */
  ghost predicate IsBoundary(weight: Msg -> int, ms: seq<Msg>, from: int, cut: int, remove: int) {
    && 0 <= from < cut < |ms| && ms[cut].role.User?
    && (forall k :: from < k < cut && ms[k].role.User? ==> Tokens(weight, ms, from, k) < remove)
    && (Tokens(weight, ms, from, cut) >= remove || HasNoCut(ms, cut))
  }

  /**
   * `pick_consolidation_boundary`: the earliest user turn that removes enough tokens, or the last
   * user turn if none does; nothing only if there is no user turn to cut at.
   */
  method PickBoundary(weight: Msg -> int, ms: seq<Msg>, from: nat, remove: int) returns (cut: Option<(nat, int)>)
    ensures cut.None? <==> remove <= 0 || HasNoCut(ms, from)
    ensures cut.Some? ==> IsBoundary(weight, ms, from, cut.value.0, remove)
    ensures cut.Some? ==> cut.value.1 == Tokens(weight, ms, from, cut.value.0)
  {
    if from >= |ms| || remove <= 0 {
      return None;
    }
    var removed := 0;
    cut := None;
    for k := from to |ms|
      invariant removed == Tokens(weight, ms, from, k)
      invariant cut.None? ==> forall j :: from < j < k ==> !IsUser(ms[j])
      invariant cut.Some? ==> from < cut.value.0 < k && IsUser(ms[cut.value.0])
      invariant cut.Some? ==> cut.value.1 == Tokens(weight, ms, from, cut.value.0)
      invariant cut.Some? ==> forall j :: cut.value.0 < j < k ==> !IsUser(ms[j])
      invariant forall j :: from < j < k && IsUser(ms[j]) ==> Tokens(weight, ms, from, j) < remove
    {
      if k > from && IsUser(ms[k]) {
        cut := Some((k, removed));
        if removed >= remove {
          return;
        }
      }
      removed := removed + weight(ms[k]);
    }
  }

  // ---- the boundary of the replay window ----

  /** Message `i` is the first user turn at or behind `start`. */
  ghost predicate IsFirstUser(ms: seq<Msg>, start: int, i: int) {
    0 <= start <= i < |ms| && ms[i].role.User? && forall j :: start <= j < i ==> !ms[j].role.User?
  }

  /** The replay window, moved on to its first user turn or the delivery before it. */
  ghost predicate IsWindowStart(tail: seq<Msg>, delivery: Msg -> bool, max: int, cut: int)
    requires 0 < max < |tail|
  {
    exists start :: 0 <= start <= |tail| && IsRecentStart(tail, delivery, max, start) &&
      if forall i :: start <= i < |tail| ==> !tail[i].role.User? then cut == start
      else exists i :: IsFirstUser(tail, start, i) && cut == if i > start && delivery(tail[i - 1]) then i - 1 else i
  }

  /** Nothing before `legal` starts a window without orphans, and `legal` does. */
  ghost predicate IsLegalStart(ms: seq<Msg>, legal: nat) {
    legal <= |ms| && NoOrphans(ms[legal..]) && forall s :: 0 <= s < legal ==> !NoOrphans(ms[s..])
  }

  /** What replay hides behind `from`: everything in front of its window's legal start, unless that is nothing. */
  ghost predicate IsReplayEnd(ms: seq<Msg>, from: nat, delivery: Msg -> bool, max: int, end: Option<nat>)
    requires from <= |ms|
  {
    if max <= 0 || |ms| - from <= max then end.None?
    else
      exists cut: nat, legal: nat :: AreStarts(ms[from..], delivery, max, cut, legal)
        && end == if cut + legal == 0 then None else Some(from + cut + legal)
  }

  /** Where the window of the tail begins, and where a legal one begins in it. */
  ghost predicate AreStarts(tail: seq<Msg>, delivery: Msg -> bool, max: int, cut: nat, legal: nat)
    requires 0 < max < |tail|
  {
    IsWindowStart(tail, delivery, max, cut) && cut <= |tail| && IsLegalStart(tail[cut..], legal)
  }

  /**
   * `_replay_overflow_boundary`: where the window that replay would show begins, if it begins
   * behind `from`.
   */
  method ReplayBoundary(ms: seq<Msg>, from: nat, delivery: Msg -> bool, max: int) returns (end: Option<nat>)
    requires from <= |ms|
    ensures IsReplayEnd(ms, from, delivery, max, end)
  {
    if max <= 0 || |ms| - from <= max {
      return None;
    }
    var cut, legal := VisibleFrom(ms[from..], delivery, max);
    ReplayEndOf(ms, from, delivery, max, cut, legal);
    end := if cut + legal == 0 then None else Some(from + cut + legal);
  }

  /** Where the replay window of a long tail begins, and its legal start in it. */
  method VisibleFrom(tail: seq<Msg>, delivery: Msg -> bool, max: int) returns (cut: nat, legal: nat)
    requires 0 < max < |tail|
    ensures AreStarts(tail, delivery, max, cut, legal)
  {
    cut := WindowStart(tail, delivery, max);
    legal := FindLegalStart(tail[cut..]);
  }

  lemma ReplayEndOf(ms: seq<Msg>, from: nat, delivery: Msg -> bool, max: int, cut: nat, legal: nat)
    requires from <= |ms| && 0 < max < |ms| - from && AreStarts(ms[from..], delivery, max, cut, legal)
    ensures IsReplayEnd(ms, from, delivery, max, if cut + legal == 0 then None else Some(from + cut + legal))
  {
  }

  lemma StartsOfEnd(ms: seq<Msg>, from: nat, delivery: Msg -> bool, max: int, end: nat) returns (cut: nat, legal: nat)
    requires from <= |ms| && IsReplayEnd(ms, from, delivery, max, Some(end))
    ensures 0 < max < |ms| - from && AreStarts(ms[from..], delivery, max, cut, legal)
    ensures end == from + cut + legal && end > from
  {
    cut, legal :| AreStarts(ms[from..], delivery, max, cut, legal)
      && Some(end) == if cut + legal == 0 then None else Some(from + cut + legal);
  }

  lemma LegalRest(ms: seq<Msg>, from: nat, cut: nat, legal: nat, end: nat)
    requires from + cut <= |ms| && IsLegalStart(ms[from..][cut..], legal) && end == from + cut + legal
    ensures end <= |ms| && NoOrphans(ms[end..])
  {
    SliceOfSlices(ms, from, cut, legal);
  }

  /** It lies behind the cursor and not past the end, and what is behind it has no orphan result. */
  lemma ReplayEndIsLegal(ms: seq<Msg>, from: nat, delivery: Msg -> bool, max: int, end: nat)
    requires from <= |ms| && IsReplayEnd(ms, from, delivery, max, Some(end))
    ensures 0 < max < |ms| - from && from < end <= |ms| && NoOrphans(ms[end..])
  {
    var cut, legal := StartsOfEnd(ms, from, delivery, max, end);
    LegalRest(ms, from, cut, legal, end);
  }

  lemma SliceOfSlices(ms: seq<Msg>, a: nat, b: nat, c: nat)
    requires a + b + c <= |ms|
    ensures ms[a..][b..][c..] == ms[a + b + c..]
  {
  }

  /** The replay window of a long tail, moved on to its first user turn. */
  method WindowStart(tail: seq<Msg>, delivery: Msg -> bool, max: int) returns (cut: nat)
    requires 0 < max < |tail|
    ensures cut <= |tail|
    ensures if exists i :: 0 <= i < |tail| && IsUser(tail[i]) then OpensTurn(tail, delivery, cut)
            else cut == |tail| - max
    ensures IsWindowStart(tail, delivery, max, cut)
  {
    var start := RecentStart(tail, delivery, max);
    for i := start to |tail|
      invariant forall k :: start <= k < i ==> !IsUser(tail[k])
    {
      if IsUser(tail[i]) {
        assert IsFirstUser(tail, start, i);
        return if i > start && delivery(tail[i - 1]) then i - 1 else i;
      }
    }
    return start;
  }

  // ---- consolidation runs ----

  /** What happens while an archive call is awaited: its summary, if any, and the messages that arrive. */
  datatype Reply = Reply(summary: Option<string>, arrived: seq<Msg>)

  /** Everything a run does not control: the archive calls and the estimates, by round. */
  datatype World = World(replies: int -> Reply, estimates: int -> int)

  datatype Stop = Nothing | Idle | WithinTarget | NoCut | ArchiveFailed | Unestimated | OutOfRounds

  /** What a token round has to remove. */
  function ToRemove(world: World, target: int, round: int): int {
    if world.estimates(round) - target > 1 then world.estimates(round) - target else 1
  }

  /**
   * The token rounds: `cuts` is the cursor before the first round and after each, `sizes` the number
   * of messages there were when each round began. Each round cuts at the boundary of what it saw.
   */
  ghost predicate AreRounds(weight: Msg -> int, target: int, world: World, messages: seq<Msg>, cuts: seq<nat>,
    sizes: seq<nat>)
  {
    && |cuts| == |sizes| && cuts != [] && sizes[|sizes| - 1] == |messages|
    && forall r :: 0 <= r < |cuts| - 1 ==> IsRound(weight, target, world, messages, cuts, sizes, r)
  }

  ghost predicate IsRound(weight: Msg -> int, target: int, world: World, messages: seq<Msg>, cuts: seq<nat>,
    sizes: seq<nat>, r: int)
  {
    && 0 <= r < |cuts| - 1 && |sizes| == |cuts| && sizes[r] <= |messages|
    && IsBoundary(weight, messages[..sizes[r]], cuts[r], cuts[r + 1],
                  if world.estimates(r) > target + 1 then world.estimates(r) - target else 1)
    && messages[..sizes[r]] + world.replies(r + 1).arrived <= messages
    && sizes[r + 1] == sizes[r] + |world.replies(r + 1).arrived|
  }

  lemma RoundsGrow(weight: Msg -> int, target: int, world: World, messages: seq<Msg>, cuts: seq<nat>, sizes: seq<nat>,
    cut: nat)
    requires AreRounds(weight, target, world, messages, cuts, sizes)
    requires IsBoundary(weight, messages, cuts[|cuts| - 1], cut, ToRemove(world, target, |cuts| - 1))
    ensures var grown := messages + world.replies(|cuts|).arrived;
            AreRounds(weight, target, world, grown, cuts + [cut], sizes + [|grown|])
  {
    var n := |cuts|;
    var grown, after, lengths :=
      messages + world.replies(n).arrived, cuts + [cut], sizes + [|messages| + |world.replies(n).arrived|];
    assert messages[..sizes[n - 1]] == messages && grown[..lengths[n - 1]] == messages;
    assert IsRound(weight, target, world, grown, after, lengths, n - 1);
    forall r | 0 <= r < n - 1 ensures IsRound(weight, target, world, grown, after, lengths, r) {
      assert IsRound(weight, target, world, messages, cuts, sizes, r);
      assert grown[..sizes[r]] == messages[..sizes[r]];
    }
  }

  /** The reason a run gives for its end is true. */
  ghost predicate IsReason(world: World, target: int, stop: Stop, rounds: nat, messages: seq<Msg>, last: nat) {
    match stop
    case WithinTarget => world.estimates(rounds) <= target
    case NoCut => HasNoCut(messages, last)
    case ArchiveFailed => rounds > 0 && world.replies(rounds).summary.None?
    case Unestimated => world.estimates(rounds) <= 0
    case OutOfRounds => rounds == 5
    case _ => true
  }

  class Session {
    var messages: seq<Msg>
    var last: nat
    /** Everything that was archived, in order. */
    ghost var archived: seq<seq<Msg>>
    /** Where archiving began. */
    ghost const origin: nat

    /** The archived chunks are exactly the messages between the origin and the cursor. */
    ghost predicate Valid()
      reads this
    {
      origin <= last <= |messages| && Concat(archived) == messages[origin..last]
    }

    constructor (messages: seq<Msg>, last: nat)
      requires last <= |messages|
      ensures Valid() && this.messages == messages && this.last == last && archived == [] && origin == last
    {
      this.messages, this.last, archived, origin := messages, last, [], last;
    }

    method Append(more: seq<Msg>)
      requires Valid()
      modifies this`messages
      ensures Valid() && messages == old(messages) + more
    {
      messages := messages + more;
      assert messages[origin..last] == old(messages)[origin..last];
    }

    /** Archiving up to `end` while other messages arrive; a failed summary is dumped raw and counts as archived. */
    method ArchiveTo(end: nat, reply: Reply)
      requires Valid() && last < end <= |messages|
      modifies this
      ensures Valid() && last == end && messages == old(messages) + reply.arrived
      ensures archived == old(archived) + [old(messages)[old(last)..end]]
    {
      var chunk := messages[last..end];
      ConcatStep(archived, chunk);
      archived := archived + [chunk];
      messages := messages + reply.arrived;
      assert messages[origin..end] == old(messages)[origin..old(last)] + chunk;
      last := end;
    }

    /** `_consolidate_replay_overflow`. */
    method ConsolidateOverflow(delivery: Msg -> bool, max: int, reply: Reply) returns (moved: bool)
      requires Valid()
      modifies this
      ensures Valid() && old(last) <= last <= |old(messages)| && old(messages) <= messages
      ensures moved <==> last > old(last)
      ensures !moved ==> messages == old(messages) && archived == old(archived)
      ensures moved ==> archived == old(archived) + [old(messages)[old(last)..last]] && NoOrphans(old(messages)[last..])
      ensures moved ==> messages == old(messages) + reply.arrived
      ensures IsReplayEnd(old(messages), old(last), delivery, max, if moved then Some(last) else None)
    {
      var end := ReplayBoundary(messages, last, delivery, max);
      if end.None? {
        return false;
      }
      ReplayEndIsLegal(messages, last, delivery, max, end.value);
      ArchiveTo(end.value, reply);
      return true;
    }

    /** One round at the boundary found. */
    method Round(weight: Msg -> int, target: int, world: World, cut: nat, cuts: seq<nat>, ghost sizes: seq<nat>)
      returns (next: seq<nat>, ghost lengths: seq<nat>)
      requires Valid() && AreRounds(weight, target, world, messages, cuts, sizes) && cuts[|cuts| - 1] == last
      requires IsBoundary(weight, messages, last, cut, ToRemove(world, target, |cuts| - 1))
      modifies this
      ensures Valid() && last == cut > old(last) && next == cuts + [cut]
      ensures old(messages) <= messages && last < |messages| && IsUser(messages[last])
      ensures |archived| == |old(archived)| + 1 && old(archived) <= archived
      ensures AreRounds(weight, target, world, messages, next, lengths) && lengths[0] == sizes[0]
    {
      RoundsGrow(weight, target, world, messages, cuts, sizes, cut);
      next, lengths := cuts + [cut], sizes + [|messages + world.replies(|cuts|).arrived|];
      ArchiveTo(cut, world.replies(|cuts|));
    }

    /** The next round, if there is a user turn to cut at. */
    method NextRound(weight: Msg -> int, target: int, world: World, cuts: seq<nat>, ghost sizes: seq<nat>)
      returns (found: bool, next: seq<nat>, ghost lengths: seq<nat>)
      requires Valid() && AreRounds(weight, target, world, messages, cuts, sizes) && cuts[|cuts| - 1] == last
      modifies this
      ensures Valid() && AreRounds(weight, target, world, messages, next, lengths) && lengths[0] == sizes[0]
      ensures if found then
                && |next| == |cuts| + 1 && cuts <= next && next[|cuts|] == last > old(last)
                && old(messages) <= messages && last < |messages| && IsUser(messages[last])
                && |archived| == |old(archived)| + 1 && old(archived) <= archived
              else
                && next == cuts && lengths == sizes && HasNoCut(messages, last)
                && messages == old(messages) && last == old(last) && archived == old(archived)
    {
      var cut := PickBoundary(weight, messages, last, ToRemove(world, target, |cuts| - 1));
      if cut.None? {
        return false, cuts, sizes;
      }
      found := true;
      next, lengths := Round(weight, target, world, cut.value.0, cuts, sizes);
    }

    /** Up to five token rounds, each of which cuts at a user turn. */
    method TokenRounds(weight: Msg -> int, target: int, world: World)
      returns (stop: Stop, rounds: nat, cuts: seq<nat>, ghost sizes: seq<nat>)
      requires Valid()
      modifies this
      ensures Valid() && old(last) <= last && old(messages) <= messages
      ensures rounds <= MAX_ROUNDS && |archived| == |old(archived)| + rounds && old(archived) <= archived
      ensures rounds > 0 ==> last < |messages| && IsUser(messages[last])
      ensures |cuts| == rounds + 1 && cuts[0] == old(last) && cuts[rounds] == last && (rounds > 0 ==> last > old(last))
      ensures AreRounds(weight, target, world, messages, cuts, sizes) && sizes[0] == |old(messages)|
      ensures stop in {WithinTarget, NoCut, ArchiveFailed, Unestimated, OutOfRounds}
      ensures rounds == 0 ==> stop in {WithinTarget, NoCut}
      ensures IsReason(world, target, stop, rounds, messages, last)
    {
      rounds, cuts, sizes := 0, [last], [|messages|];
      var estimated := world.estimates(0);
      while rounds < MAX_ROUNDS
        invariant Valid() && old(last) <= last && old(messages) <= messages
        invariant rounds <= MAX_ROUNDS && |archived| == |old(archived)| + rounds && old(archived) <= archived
        invariant rounds > 0 ==> last < |messages| && IsUser(messages[last])
        invariant estimated == world.estimates(rounds)
        invariant |cuts| == rounds + 1 && cuts[0] == old(last) && cuts[rounds] == last
                  && (rounds > 0 ==> last > old(last))
        invariant AreRounds(weight, target, world, messages, cuts, sizes) && sizes[0] == |old(messages)|
      {
        if estimated <= target {
          return WithinTarget, rounds, cuts, sizes;
        }
        var found;
        found, cuts, sizes := NextRound(weight, target, world, cuts, sizes);
        if !found {
          return NoCut, rounds, cuts, sizes;
        }
        rounds := rounds + 1;
        if world.replies(rounds).summary.None? {
          return ArchiveFailed, rounds, cuts, sizes;
        }
        estimated := world.estimates(rounds);
        if estimated <= 0 {
          return Unestimated, rounds, cuts, sizes;
        }
      }
      return OutOfRounds, rounds, cuts, sizes;
    }

    /**
     * `maybe_consolidate_by_tokens`: the replay window first, then up to five token rounds, each of
     * which cuts at the boundary of the messages it sees.
     */
    method MaybeConsolidate(weight: Msg -> int, delivery: Msg -> bool, window: int, budget: int, target: int,
      replayMax: int, world: World) returns (stop: Stop, rounds: nat, cuts: seq<nat>, ghost sizes: seq<nat>)
      requires Valid()
      modifies this
      ensures Valid() && old(last) <= last && old(messages) <= messages
      ensures rounds <= MAX_ROUNDS && |old(archived)| <= |archived| <= |old(archived)| + rounds + 1
      ensures old(archived) <= archived
      ensures last == old(last) <==> archived == old(archived)
      ensures rounds > 0 ==> last < |messages| && IsUser(messages[last])
      ensures |cuts| == rounds + 1 && cuts[0] >= old(last) && cuts[rounds] == last
      ensures AreRounds(weight, target, world, messages, cuts, sizes)
      ensures sizes[0] == |old(messages)| + if cuts[0] > old(last) then |world.replies(0).arrived| else 0
      ensures stop.Nothing? <==> window <= 0 || old(messages) == []
      ensures stop.Nothing? ==> last == old(last)
      ensures !stop.Nothing? ==>
                IsReplayEnd(old(messages), old(last), delivery, replayMax,
                            if cuts[0] > old(last) then Some(cuts[0]) else None)
      ensures stop.Idle? <==> !(window <= 0 || old(messages) == []) && 0 < world.estimates(0) < budget
      ensures !stop.Nothing? && world.estimates(0) <= 0 ==> stop.Unestimated? && rounds == 0
      ensures rounds == 0 ==> stop in {Nothing, Idle, WithinTarget, NoCut, Unestimated}
      ensures IsReason(world, target, stop, rounds, messages, last)
    {
      if window <= 0 || messages == [] {
        return Nothing, 0, [last], [|messages|];
      }
      var moved := ConsolidateOverflow(delivery, replayMax, world.replies(0));
      stop, rounds, cuts, sizes := RoundsIfDue(weight, budget, target, world);
    }

    /** The token rounds, if the first estimate says that they are due. */
    method RoundsIfDue(weight: Msg -> int, budget: int, target: int, world: World)
      returns (stop: Stop, rounds: nat, cuts: seq<nat>, ghost sizes: seq<nat>)
      requires Valid()
      modifies this
      ensures Valid() && old(last) <= last && old(messages) <= messages
      ensures rounds <= MAX_ROUNDS && |archived| == |old(archived)| + rounds && old(archived) <= archived
      ensures rounds > 0 ==> last < |messages| && IsUser(messages[last])
      ensures |cuts| == rounds + 1 && cuts[0] == old(last) && cuts[rounds] == last && (rounds > 0 ==> last > old(last))
      ensures AreRounds(weight, target, world, messages, cuts, sizes) && sizes[0] == |old(messages)|
      ensures !stop.Nothing? && (stop.Idle? <==> 0 < world.estimates(0) < budget)
      ensures world.estimates(0) <= 0 ==> stop.Unestimated? && rounds == 0
      ensures rounds == 0 ==> stop in {Idle, WithinTarget, NoCut, Unestimated}
      ensures IsReason(world, target, stop, rounds, messages, last)
    {
      if world.estimates(0) <= 0 {
        return Unestimated, 0, [last], [|messages|];
      }
      if world.estimates(0) < budget {
        return Idle, 0, [last], [|messages|];
      }
      stop, rounds, cuts, sizes := TokenRounds(weight, target, world);
    }
  }
}
