/** The history file of the memory store: cursor allocation, compaction, and the batches Dream gets. */
module Memory {
  import opened Wrappers

  /** The `cursor` field of a parsed entry; it is valid if it is a non-negative integer. */
  datatype CursorField = Absent | Invalid | Valid(cursor: nat)

  /** A line of the history file; `wellFormed` says that its other fields have the right types. */
  datatype Line = Junk | Entry(field: CursorField, wellFormed: bool, content: string)

  /** `_iter_valid_entries` yields the line. */
  predicate Yields(line: Line) {
    line.Entry? && line.field.Valid? && line.wellFormed
  }

  function CursorIn(line: Line): int {
    if line.Entry? && line.field.Valid? then line.field.cursor else -1
  }

  function Max(a: nat, b: nat): nat {
    if a > b then a else b
  }

  /** The highest cursor of the valid entries, 0 if there is none. */
  function MaxCursor(lines: seq<Line>): nat {
    if lines == [] then 0
    else
      var rest, last := MaxCursor(lines[..|lines| - 1]), lines[|lines| - 1];
      if Yields(last) && last.field.cursor > rest then last.field.cursor else rest
  }

  /** The valid entries with a cursor above `since`, in file order. */
  function Unprocessed(lines: seq<Line>, since: int): seq<Line> {
    if lines == [] then []
    else
      var rest, last := Unprocessed(lines[..|lines| - 1], since), lines[|lines| - 1];
      if Yields(last) && last.field.cursor > since then rest + [last] else rest
  }

  /** The lines that parse. */
  function Entries(lines: seq<Line>): seq<Line> {
    if lines == [] then []
    else if lines[|lines| - 1].Entry? then Entries(lines[..|lines| - 1]) + [lines[|lines| - 1]]
    else Entries(lines[..|lines| - 1])
  }

  /** Entries with a cursor above `since` whose fields have the right types. */
  function LiesAbove(since: int): Line -> bool {
    (l: Line) => l.Entry? && l.wellFormed && l.field.Valid? && l.field.cursor > since
  }

  function Parses(): Line -> bool {
    (l: Line) => l.Entry?
  }

  lemma {:induction false} UnprocessedMeaning(lines: seq<Line>, since: int)
    ensures IsSelection(lines, Unprocessed(lines, since), LiesAbove(since))
  {
    if lines != [] {
      UnprocessedMeaning(lines[..|lines| - 1], since);
    }
  }

  lemma {:induction false} EntriesMeaning(lines: seq<Line>)
    ensures IsSelection(lines, Entries(lines), Parses())
  {
    if lines != [] {
      EntriesMeaning(lines[..|lines| - 1]);
    }
  }

  /** The highest cursor is that of some valid entry, or 0, and none lies above it. */
  lemma {:induction false} MaxCursorMeaning(lines: seq<Line>)
    ensures forall i :: 0 <= i < |lines| && lines[i].Entry? && lines[i].wellFormed && lines[i].field.Valid? ==>
              lines[i].field.cursor <= MaxCursor(lines)
    ensures MaxCursor(lines) > 0 ==>
              exists i :: 0 <= i < |lines| && lines[i].Entry? && lines[i].wellFormed
                          && lines[i].field == CursorField.Valid(MaxCursor(lines))
  {
    if lines != [] {
      var front := lines[..|lines| - 1];
      MaxCursorMeaning(front);
      assert forall i :: 0 <= i < |front| ==> lines[i] == front[i];
      if MaxCursor(lines) > 0 && MaxCursor(lines) == MaxCursor(front) {
        var i :| 0 <= i < |front| && front[i].Entry? && front[i].wellFormed
          && front[i].field == CursorField.Valid(MaxCursor(front));
        assert lines[i] == front[i];
      }
    }
  }

  // ---- cursor allocation on any file ----

  /** The cursor of the last line, if the tail of the file can be read and parsed. */
  function LastCursor(lines: seq<Line>, torn: bool, fits: bool): Option<nat> {
    if !torn && fits && lines != [] && lines[|lines| - 1].Entry? && lines[|lines| - 1].field.Valid?
    then Some(lines[|lines| - 1].field.cursor) else None
  }

  function OrZero(counter: Option<nat>): nat {
    if counter.Some? then counter.value else 0
  }

  /** `_next_cursor`; it trusts the tail, and without one it scans the file. */
  function NextCursor(lines: seq<Line>, torn: bool, fits: bool, counter: Option<nat>): nat {
    match LastCursor(lines, torn, fits)
    case Some(last) => Max(OrZero(counter), last) + 1
    case None => Max(OrZero(counter), MaxCursor(lines)) + 1
  }

  /** The cursor lies above every valid entry. */
  ghost predicate Exceeds(lines: seq<Line>, cursor: nat) {
    forall i :: 0 <= i < |lines| && Yields(lines[i]) ==> CursorIn(lines[i]) < cursor
  }

  /** No valid entry lies above the last line. */
  predicate TailIsHighest(lines: seq<Line>) {
    forall i :: 0 <= i < |lines| && Yields(lines[i]) ==> CursorIn(lines[i]) <= CursorIn(lines[|lines| - 1])
  }

  /** With a given counter: no entry may lie above both the tail and the counter. */
  lemma ExceedsUnlessAbove(lines: seq<Line>, torn: bool, fits: bool, counter: Option<nat>)
    ensures Exceeds(lines, NextCursor(lines, torn, fits, counter))
            <==> match LastCursor(lines, torn, fits)
                 case None => true
                 case Some(last) => forall i :: 0 <= i < |lines| && Yields(lines[i]) ==>
                     CursorIn(lines[i]) <= Max(OrZero(counter), last)
  {
    forall i | 0 <= i < |lines| && Yields(lines[i]) ensures CursorIn(lines[i]) <= MaxCursor(lines) {
      NoneAboveMax(lines, i);
    }
  }

  /**
   * On any file, the new cursor lies above every entry whatever the counter says, if and only if the
   * tail cannot be used or no entry lies above it.
   */
  lemma NextCursorExceedsAll(lines: seq<Line>, torn: bool, fits: bool)
    ensures (forall counter :: Exceeds(lines, NextCursor(lines, torn, fits, counter)))
            <==> torn || !fits || lines == [] || lines[|lines| - 1].Junk? || !lines[|lines| - 1].field.Valid?
                 || TailIsHighest(lines)
  {
    forall counter {
      ExceedsUnlessAbove(lines, torn, fits, counter);
    }
    ExceedsUnlessAbove(lines, torn, fits, None);
    assert LastCursor(lines, torn, fits).Some? && !TailIsHighest(lines) ==>
        !Exceeds(lines, NextCursor(lines, torn, fits, None));
  }

  /** Entries 5 and 3 in this order, without a counter: the new cursor is 4, and the one after it is 5 once more. */
  lemma DisorderRepeatsCursor(first: Line, second: Line, third: Line)
    requires first == Entry(CursorField.Valid(5), true, "a") && second == Entry(CursorField.Valid(3), true, "b")
    requires third == Entry(CursorField.Valid(4), true, "c")
    ensures !TailIsHighest([first, second]) && NextCursor([first, second], false, true, None) == 4
    ensures NextCursor([first, second, third], false, true, Some(4)) == 5 && !Exceeds([first, second, third], 5)
  {
    assert Yields([first, second][0]) && Yields([first, second, third][0]);
  }

  lemma {:induction false} NoneAboveMax(lines: seq<Line>, i: nat)
    requires i < |lines| && Yields(lines[i])
    ensures CursorIn(lines[i]) <= MaxCursor(lines)
  {
    if i < |lines| - 1 {
      NoneAboveMax(lines[..|lines| - 1], i);
    }
  }

  // ---- files the store wrote ----

  /** Entries are valid and their cursors grow along the file. */
  predicate Written(lines: seq<Line>) {
    lines == []
    || (Written(lines[..|lines| - 1])
        && (lines[|lines| - 1].Entry? ==>
               Yields(lines[|lines| - 1]) && CursorIn(lines[|lines| - 1]) > MaxCursor(lines[..|lines| - 1])))
  }

  /** Then the tail holds the highest cursor, and the fast path and the scan agree. */
  lemma NextIsAboveHighest(lines: seq<Line>, torn: bool, fits: bool, counter: Option<nat>)
    requires Written(lines)
    ensures NextCursor(lines, torn, fits, counter) == Max(OrZero(counter), MaxCursor(lines)) + 1
  {
  }

  lemma StepForward(lines: seq<Line>, line: Line, since: int)
    ensures Unprocessed(lines + [line], since)
            == Unprocessed(lines, since) + if Yields(line) && CursorIn(line) > since then [line] else []
    ensures MaxCursor(lines + [line])
            == if Yields(line) && CursorIn(line) > MaxCursor(lines) then CursorIn(line) else MaxCursor(lines)
    ensures Written(lines + [line]) <==>
              Written(lines) && (line.Entry? ==> Yields(line) && CursorIn(line) > MaxCursor(lines))
  {
    assert (lines + [line])[..|lines|] == lines;
  }

  /** Unprocessed entries lie between the cursor and the highest one. */
  lemma {:induction false} UnprocessedLieBetween(lines: seq<Line>, since: int, i: nat)
    requires Written(lines) && i < |Unprocessed(lines, since)|
    ensures var e := Unprocessed(lines, since)[i]; Yields(e) && since < CursorIn(e) <= MaxCursor(lines)
  {
    var rest := lines[..|lines| - 1];
    if i < |Unprocessed(rest, since)| {
      UnprocessedLieBetween(rest, since, i);
    }
  }

  lemma {:induction false} NothingAboveHighest(lines: seq<Line>, since: int)
    requires MaxCursor(lines) <= since
    ensures Unprocessed(lines, since) == []
  {
    if lines != [] {
      NothingAboveHighest(lines[..|lines| - 1], since);
    }
  }

  /** Handing out the first `n` entries and moving the cursor to the last of them leaves exactly the rest. */
  lemma {:induction false} BatchLeavesRest(lines: seq<Line>, since: int, n: nat)
    requires Written(lines) && 1 <= n <= |Unprocessed(lines, since)|
    ensures Unprocessed(lines, CursorIn(Unprocessed(lines, since)[n - 1])) == Unprocessed(lines, since)[n..]
  {
    var rest, last := lines[..|lines| - 1], lines[|lines| - 1];
    var before := Unprocessed(rest, since);
    if n <= |before| {
      BatchLeavesRest(rest, since, n);
      UnprocessedLieBetween(rest, since, n - 1);
      assert (before + [last])[n..] == before[n..] + [last];
    } else {
      NothingAboveHighest(rest, CursorIn(last));
    }
  }

  lemma {:induction false} UnprocessedIsWritten(lines: seq<Line>, since: nat)
    requires Written(lines)
    ensures Written(Unprocessed(lines, since)) && MaxCursor(Unprocessed(lines, since)) <= MaxCursor(lines)
  {
    if lines != [] {
      var rest, last := lines[..|lines| - 1], lines[|lines| - 1];
      UnprocessedIsWritten(rest, since);
      StepForward(Unprocessed(rest, since), last, since);
    }
  }

  /** `more` continues `handed` with higher cursors. */
  lemma {:induction false} JoinsWritten(handed: seq<Line>, more: seq<Line>, dream: nat)
    requires Written(handed) && Written(more) && MaxCursor(handed) <= dream
    requires forall i :: 0 <= i < |more| ==> CursorIn(more[i]) > dream
    ensures Written(handed + more)
    ensures MaxCursor(handed + more) == if more == [] then MaxCursor(handed) else MaxCursor(more)
  {
    if more == [] {
      assert handed + more == handed;
    } else {
      var n := |more| - 1;
      JoinsWritten(handed, more[..n], dream);
      assert handed + more == (handed + more[..n]) + [more[n]];
      StepForward(handed + more[..n], more[n], 0);
    }
  }

  lemma {:induction false} PrefixIsWritten(lines: seq<Line>, n: nat)
    requires Written(lines) && n <= |lines|
    ensures Written(lines[..n]) && MaxCursor(lines[..n]) <= MaxCursor(lines)
  {
    if n < |lines| {
      PrefixIsWritten(lines[..|lines| - 1], n);
      assert lines[..|lines| - 1][..n] == lines[..n];
    } else {
      assert lines[..n] == lines;
    }
  }

  // ---- the stream Dream works through ----

  /** What Dream was given so far and what it would still be given, in one list. */
  function Stream(handed: seq<Line>, lines: seq<Line>, dream: nat): seq<Line> {
    handed + Unprocessed(lines, dream)
  }

  /** `high` lies above every cursor in the file and what Dream has passed. */
  ghost predicate Consistent(lines: seq<Line>, dream: nat, handed: seq<Line>, high: nat) {
    && Written(lines) && MaxCursor(lines) <= high && dream <= high
    && Written(handed) && MaxCursor(handed) <= dream && forall e :: e in handed ==> Yields(e)
  }

  lemma JunkKeepsConsistent(lines: seq<Line>, dream: nat, handed: seq<Line>, high: nat)
    requires Consistent(lines, dream, handed, high)
    ensures Consistent(lines + [Junk], dream, handed, high) && MaxCursor(lines + [Junk]) == MaxCursor(lines)
    ensures Stream(handed, lines + [Junk], dream) == Stream(handed, lines, dream)
  {
    StepForward(lines, Junk, dream);
  }

  /** A new entry joins the stream at its end unless Dream has passed its cursor. */
  lemma EntryKeepsConsistent(lines: seq<Line>, dream: nat, handed: seq<Line>, high: nat, entry: Line)
    requires Consistent(lines, dream, handed, high) && Yields(entry) && CursorIn(entry) > MaxCursor(lines)
    ensures Consistent(lines + [entry], dream, handed, Max(high, CursorIn(entry)))
    ensures MaxCursor(lines + [entry]) == CursorIn(entry)
  {
    StepForward(lines, entry, dream);
  }

  lemma EntryJoinsStream(lines: seq<Line>, dream: nat, handed: seq<Line>, entry: Line)
    requires Yields(entry)
    ensures Stream(handed, lines + [entry], dream)
            == Stream(handed, lines, dream) + if CursorIn(entry) > dream then [entry] else []
  {
    StepForward(lines, entry, dream);
  }

  /** Handing out a batch and moving the cursor to its end only moves it across the stream. */
  lemma BatchKeepsStream(lines: seq<Line>, dream: nat, handed: seq<Line>, high: nat, n: nat)
    requires Consistent(lines, dream, handed, high) && 1 <= n <= |Unprocessed(lines, dream)|
    ensures var batch := Unprocessed(lines, dream)[..n];
            && Yields(batch[n - 1])
            && var next := batch[n - 1].field.cursor;
               Consistent(lines, next, handed + batch, high)
                 && Stream(handed + batch, lines, next) == Stream(handed, lines, dream)
  {
    UnprocessedLieBetween(lines, dream, n - 1);
    BatchMovesAcross(lines, dream, handed, n);
    BatchJoinsHanded(lines, dream, handed, n);
  }

  lemma BatchMovesAcross(lines: seq<Line>, dream: nat, handed: seq<Line>, n: nat)
    requires Written(lines) && 1 <= n <= |Unprocessed(lines, dream)| && Yields(Unprocessed(lines, dream)[n - 1])
    ensures Stream(handed + Unprocessed(lines, dream)[..n], lines, Unprocessed(lines, dream)[n - 1].field.cursor)
            == Stream(handed, lines, dream)
  {
    var all := Unprocessed(lines, dream);
    BatchLeavesRest(lines, dream, n);
    assert handed + all[..n] + all[n..] == handed + all;
  }

  lemma BatchJoinsHanded(lines: seq<Line>, dream: nat, handed: seq<Line>, n: nat)
    requires Written(lines) && 1 <= n <= |Unprocessed(lines, dream)|
    requires Written(handed) && MaxCursor(handed) <= dream && forall e :: e in handed ==> Yields(e)
    ensures var batch := Unprocessed(lines, dream)[..n];
            && Written(handed + batch) && MaxCursor(handed + batch) == CursorIn(batch[n - 1])
            && forall e :: e in handed + batch ==> Yields(e)
  {
    BatchIsWritten(lines, dream, n);
    forall i | 0 <= i < n ensures CursorIn(Unprocessed(lines, dream)[..n][i]) > dream {
      UnprocessedLieBetween(lines, dream, i);
    }
    JoinsWritten(handed, Unprocessed(lines, dream)[..n], dream);
    UnprocessedYield(lines, dream);
  }

  lemma {:induction false} UnprocessedYield(lines: seq<Line>, since: int)
    ensures forall e :: e in Unprocessed(lines, since) ==> Yields(e)
  {
    if lines != [] {
      UnprocessedYield(lines[..|lines| - 1], since);
    }
  }

  lemma BatchIsWritten(lines: seq<Line>, dream: nat, n: nat)
    requires Written(lines) && 1 <= n <= |Unprocessed(lines, dream)|
    ensures var batch := Unprocessed(lines, dream)[..n]; Written(batch) && MaxCursor(batch) == CursorIn(batch[n - 1])
  {
    var all := Unprocessed(lines, dream);
    UnprocessedIsWritten(lines, dream);
    PrefixIsWritten(all, n);
    UnprocessedLieBetween(lines, dream, n - 1);
  }

  /** Dropping the lines that do not parse loses nothing. */
  lemma {:induction false} EntriesKeepFile(lines: seq<Line>, since: int)
    requires Written(lines)
    ensures Written(Entries(lines)) && MaxCursor(Entries(lines)) == MaxCursor(lines)
    ensures Unprocessed(Entries(lines), since) == Unprocessed(lines, since)
    ensures forall e :: e in Entries(lines) ==> e.Entry?
  {
    if lines != [] {
      var n := |lines| - 1;
      EntriesKeepFile(lines[..n], since);
      StepForward(Entries(lines[..n]), lines[n], since);
    }
  }

  /** Dropping the oldest entries takes away a prefix of what is unprocessed. */
  lemma {:induction false} SuffixKeepsSuffix(lines: seq<Line>, k: nat, since: int)
    requires k <= |lines|
    ensures |Unprocessed(lines[k..], since)| <= |Unprocessed(lines, since)|
    ensures var all, kept := Unprocessed(lines, since), Unprocessed(lines[k..], since); kept == all[|all| - |kept|..]
  {
    if k < |lines| {
      var n := |lines| - 1;
      SuffixKeepsSuffix(lines[..n], k, since);
      assert lines[k..] == lines[..n][k..] + [lines[n]];
      StepForward(lines[..n][k..], lines[n], since);
    } else {
      assert lines[k..] == [];
    }
  }

  lemma {:induction false} SuffixIsWritten(lines: seq<Line>, k: nat)
    requires Written(lines) && k <= |lines|
    ensures Written(lines[k..]) && MaxCursor(lines[k..]) <= MaxCursor(lines)
    ensures k < |lines| && lines[|lines| - 1].Entry? ==> MaxCursor(lines[k..]) == MaxCursor(lines)
  {
    if k < |lines| {
      var n := |lines| - 1;
      SuffixIsWritten(lines[..n], k);
      assert lines[k..] == lines[..n][k..] + [lines[n]] && lines == lines[..n] + [lines[n]];
      StepForward(lines[..n][k..], lines[n], 0);
      StepForward(lines[..n], lines[n], 0);
    } else {
      assert lines[k..] == [];
    }
  }

  lemma CompactionKeeps(lines: seq<Line>, dream: nat, k: nat)
    requires Written(lines) && k < |Entries(lines)|
    ensures var kept := Entries(lines)[k..];
            && Written(kept) && MaxCursor(kept) == MaxCursor(lines)
            && var before, after := Unprocessed(lines, dream), Unprocessed(kept, dream);
               |after| <= |before| && after == before[|before| - |after|..]
  {
    var entries := Entries(lines);
    EntriesKeepFile(lines, dream);
    assert entries[|entries| - 1] in entries;
    SuffixIsWritten(entries, k);
    SuffixKeepsSuffix(entries, k, dream);
  }

  // ---- the store ----

  /** Where an append is cut off: inside its text, inside a character of it, or just before its newline. */
  datatype Crash = Never | BeforeHistory | InHistory | InCharacter | BeforeNewline | BeforeCounter

  /** How the file ends: with a newline, in a line that does not parse, in half a character, or in an entry. */
  datatype Tail = Ended | Cut | CutInCharacter | Unended

  datatype Appended = Returned(cursor: nat) | Crashed | Raised

  /** What a write leaves of the lines: it runs on in an entry without a newline, and then neither parses. */
  function Kept(lines: seq<Line>, tail: Tail): seq<Line> {
    if tail.Unended? && lines != [] then lines[..|lines| - 1] else lines
  }

  /** What an append that is not turned down leaves of the lines, what it adds, and how the file ends then. */
  function Front(lines: seq<Line>, tail: Tail, crash: Crash): seq<Line> {
    if crash.BeforeHistory? then lines else Kept(lines, tail)
  }

  function Added(tail: Tail, entry: Line, crash: Crash): seq<Line> {
    if IsAdded(tail, crash) then [entry] else if crash.Never? || crash.BeforeCounter? then [Junk] else []
  }

  function EndAfter(tail: Tail, crash: Crash): Tail {
    match crash
    case BeforeHistory => tail
    case InHistory => Cut
    case InCharacter => CutInCharacter
    case BeforeNewline => if tail.Ended? then Unended else Cut
    case _ => Ended
  }

  /** The append put its entry into the file. */
  predicate IsAdded(tail: Tail, crash: Crash) {
    tail.Ended? && (crash.Never? || crash.BeforeNewline? || crash.BeforeCounter?)
  }

  /**
   * What a write leaves in the file. At a line's end it adds the entry, whole, without its newline, or a
   * part of it; behind an unfinished line it finishes or lengthens a line that does not parse, and an entry
   * that only lacked its newline is lost to it.
   */
  lemma WriteMeaning(lines: seq<Line>, tail: Tail, entry: Line, crash: Crash)
    requires tail.Unended? ==> lines != []
    ensures var out, end := Front(lines, tail, crash) + Added(tail, entry, crash), EndAfter(tail, crash);
            var whole := if tail.Unended? then lines[..|lines| - 1] else lines;
            && (crash.BeforeHistory? ==> out == lines && end == tail)
            && (crash in {Never, BeforeCounter} ==>
                  out == whole + [if tail.Ended? then entry else Junk] && end == Ended)
            && (crash.InHistory? ==> out == whole && end == Cut)
            && (crash.InCharacter? ==> out == whole && end == CutInCharacter)
            && (crash.BeforeNewline? && tail.Ended? ==> out == lines + [entry] && end == Unended)
            && (crash.BeforeNewline? && !tail.Ended? ==> out == whole && end == Cut)
  {
    assert Kept(lines, tail) + [] == Kept(lines, tail) && lines + [] == lines;
  }

  /** The append took away an entry that had no newline, and left no counter behind. */
  predicate Destroys(tail: Tail, crash: Crash) {
    tail.Unended? && !crash.Never? && !crash.BeforeHistory?
  }

  /** An entry without a newline is the last line, and no counter was written after it. */
  predicate EndsAsWritten(lines: seq<Line>, tail: Tail, counter: Option<nat>) {
    tail.Unended? ==> lines != [] && Yields(lines[|lines| - 1]) && CursorIn(lines[|lines| - 1]) > OrZero(counter)
  }

  lemma KeptIsConsistent(lines: seq<Line>, tail: Tail, dream: nat, handed: seq<Line>, high: nat)
    requires Consistent(lines, dream, handed, high)
    ensures Consistent(Kept(lines, tail), dream, handed, high) && MaxCursor(Kept(lines, tail)) <= MaxCursor(lines)
  {
  }

  /** Without its last entry the file ends below that entry's cursor. */
  lemma KeptIsLower(lines: seq<Line>, counter: Option<nat>)
    requires Written(lines) && EndsAsWritten(lines, Unended, counter)
    ensures MaxCursor(Kept(lines, Unended)) < MaxCursor(lines) == CursorIn(lines[|lines| - 1])
  {
  }

  /** What may stand behind some lines: nothing, a line that does not parse, or an entry with a higher cursor. */
  predicate MayFollow(front: seq<Line>, more: seq<Line>) {
    more == [] || more == [Junk] || (|more| == 1 && Yields(more[0]) && CursorIn(more[0]) > MaxCursor(front))
  }

  function HighestOf(more: seq<Line>): nat {
    if |more| == 1 && Yields(more[0]) then more[0].field.cursor else 0
  }

  lemma MoreKeepsConsistent(front: seq<Line>, more: seq<Line>, dream: nat, handed: seq<Line>, high: nat)
    requires Consistent(front, dream, handed, high) && MayFollow(front, more)
    ensures Consistent(front + more, dream, handed, Max(high, HighestOf(more)))
    ensures MaxCursor(front + more) == Max(MaxCursor(front), HighestOf(more))
  {
    if more == [] {
      assert front + more == front;
    } else if more == [Junk] {
      JunkKeepsConsistent(front, dream, handed, high);
    } else {
      assert more == [more[0]];
      EntryKeepsConsistent(front, dream, handed, high, more[0]);
    }
  }

  lemma MoreJoinsStream(front: seq<Line>, more: seq<Line>, dream: nat, handed: seq<Line>, high: nat)
    requires Consistent(front, dream, handed, high) && MayFollow(front, more)
    ensures Stream(handed, front + more, dream)
            == Stream(handed, front, dream) + if HighestOf(more) > dream then more else []
  {
    if more == [] {
      assert front + more == front;
    } else if more == [Junk] {
      JunkKeepsConsistent(front, dream, handed, high);
    } else {
      assert more == [more[0]];
      EntryJoinsStream(front, dream, handed, more[0]);
    }
  }

  lemma FrontIsConsistent(lines: seq<Line>, tail: Tail, dream: nat, handed: seq<Line>, high: nat, entry: Line,
    crash: Crash)
    requires Consistent(lines, dream, handed, high) && Yields(entry) && CursorIn(entry) > MaxCursor(lines)
    ensures Consistent(Front(lines, tail, crash), dream, handed, high)
    ensures MayFollow(Front(lines, tail, crash), Added(tail, entry, crash))
    ensures HighestOf(Added(tail, entry, crash)) == if IsAdded(tail, crash) then entry.field.cursor else 0
    ensures MaxCursor(Front(lines, tail, crash)) <= MaxCursor(lines)
  {
    KeptIsConsistent(lines, tail, dream, handed, high);
  }

  /** One of the two bears witness to every cursor up to `high`. */
  predicate IsBacked(lines: seq<Line>, counter: Option<nat>, high: nat) {
    high <= Max(OrZero(counter), MaxCursor(lines))
  }

  /** The highest cursor issued and the counter after an append. */
  function IssuedAfter(high: nat, tail: Tail, c: nat, crash: Crash): nat {
    if IsAdded(tail, crash) || crash.Never? then Max(high, c) else high
  }

  function CounterAfter(counter: Option<nat>, c: nat, crash: Crash): Option<nat> {
    if crash.Never? then Some(c) else counter
  }

  /** An append keeps that witness unless it destroys an entry and leaves no counter behind. */
  lemma AppendBacks(lines: seq<Line>, tail: Tail, counter: Option<nat>, high: nat, c: nat, crash: Crash, highest: nat)
    requires Written(lines) && MaxCursor(lines) <= high && OrZero(counter) <= high
             && EndsAsWritten(lines, tail, counter)
    requires c == Max(OrZero(counter), MaxCursor(lines)) + 1 && IsBacked(lines, counter, high)
    requires highest == Max(MaxCursor(Front(lines, tail, crash)), if IsAdded(tail, crash) then c else 0)
    ensures IssuedAfter(high, tail, c, crash) <= Max(OrZero(CounterAfter(counter, c, crash)), highest)
            <==> !Destroys(tail, crash)
  {
    if tail.Unended? {
      KeptIsLower(lines, counter);
    }
  }

  lemma AppendEndsAsWritten(lines: seq<Line>, tail: Tail, counter: Option<nat>, entry: Line, crash: Crash)
    requires EndsAsWritten(lines, tail, counter) && Yields(entry) && CursorIn(entry) > OrZero(counter)
    ensures EndsAsWritten(Front(lines, tail, crash) + Added(tail, entry, crash), EndAfter(tail, crash),
              CounterAfter(counter, CursorIn(entry), crash))
  {
    if crash.BeforeHistory? {
      assert lines + [] == lines;
    }
  }

  /** What holds of every reachable store. */
  ghost predicate IsStore(lines: seq<Line>, tail: Tail, counter: Option<nat>, dream: nat, handed: seq<Line>,
    high: nat)
  {
    Consistent(lines, dream, handed, high) && OrZero(counter) <= high && EndsAsWritten(lines, tail, counter)
  }

  lemma AppendKeepsRest(lines: seq<Line>, tail: Tail, counter: Option<nat>, high: nat, entry: Line, crash: Crash,
    highest: nat)
    requires Written(lines) && MaxCursor(lines) <= high && OrZero(counter) <= high
             && EndsAsWritten(lines, tail, counter)
    requires Yields(entry) && entry.field.cursor == Max(OrZero(counter), MaxCursor(lines)) + 1
    requires highest
             == Max(MaxCursor(Front(lines, tail, crash)), if IsAdded(tail, crash) then entry.field.cursor else 0)
    ensures var c := entry.field.cursor;
            && EndsAsWritten(Front(lines, tail, crash) + Added(tail, entry, crash), EndAfter(tail, crash),
                 CounterAfter(counter, c, crash))
            && OrZero(CounterAfter(counter, c, crash)) <= IssuedAfter(high, tail, c, crash)
            && (IsBacked(lines, counter, high) ==>
                  (IssuedAfter(high, tail, c, crash) <= Max(OrZero(CounterAfter(counter, c, crash)), highest)
                   <==> !Destroys(tail, crash)))
  {
    AppendEndsAsWritten(lines, tail, counter, entry, crash);
    if IsBacked(lines, counter, high) {
      AppendBacks(lines, tail, counter, high, entry.field.cursor, crash, highest);
    }
  }

  lemma AppendKeepsConsistent(lines: seq<Line>, tail: Tail, dream: nat, handed: seq<Line>, high: nat, entry: Line,
    crash: Crash, after: seq<Line>)
    requires Consistent(lines, dream, handed, high) && Yields(entry) && CursorIn(entry) > MaxCursor(lines)
    requires after == Front(lines, tail, crash) + Added(tail, entry, crash)
    ensures var c, front := entry.field.cursor, Front(lines, tail, crash);
            && Consistent(after, dream, handed, IssuedAfter(high, tail, c, crash))
            && MaxCursor(after) == Max(MaxCursor(front), if IsAdded(tail, crash) then c else 0)
            && Stream(handed, after, dream)
               == Stream(handed, front, dream) + if IsAdded(tail, crash) && c > dream then [entry] else []
  {
    var front, more := Front(lines, tail, crash), Added(tail, entry, crash);
    FrontIsConsistent(lines, tail, dream, handed, high, entry, crash);
    MoreKeepsConsistent(front, more, dream, handed, high);
    MoreJoinsStream(front, more, dream, handed, high);
    HigherStaysConsistent(after, dream, handed, Max(high, HighestOf(more)),
      IssuedAfter(high, tail, entry.field.cursor, crash));
  }

  lemma HigherStaysConsistent(lines: seq<Line>, dream: nat, handed: seq<Line>, high: nat, higher: nat)
    requires Consistent(lines, dream, handed, high) && high <= higher
    ensures Consistent(lines, dream, handed, higher)
  {
  }

  lemma BatchKeepsStore(lines: seq<Line>, tail: Tail, counter: Option<nat>, dream: nat, handed: seq<Line>, high: nat,
    batch: seq<Line>)
    requires IsStore(lines, tail, counter, dream, handed, high) && batch != [] && batch <= Unprocessed(lines, dream)
    ensures var last := batch[|batch| - 1];
            && Yields(last) && IsStore(lines, tail, counter, last.field.cursor, handed + batch, high)
            && Stream(handed + batch, lines, last.field.cursor) == Stream(handed, lines, dream)
  {
    assert batch == Unprocessed(lines, dream)[..|batch|];
    BatchKeepsStream(lines, dream, handed, high, |batch|);
  }

  class MemoryStore {
    const maxEntries: int
    var lines: seq<Line>
    var tail: Tail
    var counter: Option<nat>
    var dream: nat
    /** The highest cursor that was returned or that has named an entry of the file. */
    ghost var issued: nat
    ghost var handed: seq<Line>

    ghost predicate Valid()
      reads this
    {
      IsStore(lines, tail, counter, dream, handed, issued)
    }

    /** The file bears witness to the counter. */
    predicate IsInStep()
      reads this
    {
      OrZero(counter) <= MaxCursor(lines)
    }

    /** The counter or the file still bears witness to every cursor that was issued. */
    ghost predicate Backed()
      reads this
    {
      IsBacked(lines, counter, issued)
    }

    constructor (maxEntries: int)
      ensures Valid() && Backed() && this.maxEntries == maxEntries
      ensures handed == [] && lines == [] && tail.Ended? && counter.None? && dream == 0 && issued == 0
    {
      this.maxEntries := maxEntries;
      lines, tail, counter, dream, issued, handed := [], Ended, None, 0, 0, [];
    }

    /** The cursor of the next entry, unless reading the file raises. */
    function Next(fits: bool): (c: nat)
      reads this
    {
      NextCursor(lines, !tail.Ended? && !tail.Unended?, fits, counter)
    }

    function NextEntry(fits: bool, content: string): Line
      reads this
    {
      EntryWith(Next(fits), content)
    }

    /**
     * `append_history`, up to a crash. Half a character at the end of the file makes it raise; behind
     * any other unfinished line the new entry is merged with that line into one that does not parse.
     */
    method AppendHistory(content: string, fits: bool, crash: Crash) returns (result: Appended)
      requires Valid()
      modifies this
      ensures Valid() && dream == old(dream) && handed == old(handed) && issued >= old(issued)
      ensures result == if old(tail).CutInCharacter? then Raised
                        else if crash.Never? then Returned(old(Next(fits))) else Crashed
      ensures result.Raised? ==> lines == old(lines) && tail == old(tail) && issued == old(issued)
      ensures !result.Raised? ==>
                && lines == Front(old(lines), old(tail), crash) + Added(old(tail), old(NextEntry(fits, content)), crash)
                && tail == EndAfter(old(tail), crash)
      ensures counter == if result.Returned? then Some(result.cursor) else old(counter)
      ensures result.Returned? ==>
                && result.cursor == 1 + Max(if old(counter).Some? then old(counter).value else 0, MaxCursor(old(lines)))
                && result.cursor > MaxCursor(old(lines)) && result.cursor > OrZero(old(counter))
                && (result.cursor > old(issued) <==> old(Backed()))
                && issued == Max(old(issued), result.cursor)
      ensures old(Backed()) ==> (Backed() <==> result.Raised? || !Destroys(old(tail), crash))
      ensures result.Returned? ==> (IsInStep() <==> old(tail).Ended?)
      ensures !result.Raised? ==>
                Stream(handed, lines, dream)
                == Stream(handed, Front(old(lines), old(tail), crash), dream)
                   + if IsAdded(old(tail), crash) && old(Next(fits)) > dream
                     then [old(NextEntry(fits, content))] else []
      ensures old(Backed()) ==> old(Next(fits)) > dream
    {
      NextIsAboveHighest(lines, !tail.Ended? && !tail.Unended?, fits, counter);
      if tail.CutInCharacter? {
        return Raised;
      }
      var c := Next(fits);
      WriteBoth(NextEntry(fits, content), crash);
      return if crash.Never? then Returned(c) else Crashed;
    }

    /** The entry's line and then the counter, up to a crash. */
    method WriteBoth(entry: Line, crash: Crash)
      requires Valid() && Yields(entry) && entry.field.cursor == Max(OrZero(counter), MaxCursor(lines)) + 1
      modifies this`lines, this`tail, this`counter, this`issued
      ensures Valid() && issued == IssuedAfter(old(issued), old(tail), entry.field.cursor, crash)
      ensures tail == EndAfter(old(tail), crash) && counter == CounterAfter(old(counter), entry.field.cursor, crash)
      ensures lines == Front(old(lines), old(tail), crash) + Added(old(tail), entry, crash)
      ensures MaxCursor(lines)
              == Max(MaxCursor(Front(old(lines), old(tail), crash)),
                   if IsAdded(old(tail), crash) then entry.field.cursor else 0)
      ensures old(Backed()) ==> (Backed() <==> !Destroys(old(tail), crash))
      ensures Stream(handed, lines, dream)
              == Stream(handed, Front(old(lines), old(tail), crash), dream)
                 + if IsAdded(old(tail), crash) && entry.field.cursor > dream then [entry] else []
    {
      ghost var after := Front(lines, tail, crash) + Added(tail, entry, crash);
      AppendKeepsConsistent(lines, tail, dream, handed, issued, entry, crash, after);
      AppendKeepsRest(lines, tail, counter, issued, entry, crash, MaxCursor(after));
      issued := IssuedAfter(issued, tail, entry.field.cursor, crash);
      Write(entry, crash);
      if crash.Never? {
        counter := Some(entry.field.cursor);
      }
    }

    /** Writing the line, as far as it gets. */
    method Write(entry: Line, crash: Crash)
      requires tail.Unended? ==> lines != []
      modifies this`lines, this`tail
      ensures lines == Front(old(lines), old(tail), crash) + Added(old(tail), entry, crash)
      ensures tail == EndAfter(old(tail), crash)
    {
      if crash.BeforeHistory? {
        return;
      }
      var joined := !tail.Ended?;
      if tail.Unended? {
        lines := lines[..|lines| - 1];
      }
      if crash.InHistory? {
        tail := Cut;
      } else if crash.InCharacter? {
        tail := CutInCharacter;
      } else if crash.BeforeNewline? {
        tail := if joined then Cut else Unended;
        lines := if joined then lines else lines + [entry];
      } else {
        lines, tail := lines + [if joined then Junk else entry], Ended;
      }
    }

    /**
     * `compact_history`: drops the oldest entries, so Dream may lose the first of those it has not
     * seen; with half a character at the end of the file it raises.
     */
    method CompactHistory() returns (raised: bool)
      requires Valid()
      modifies this
      ensures Valid() && (old(Backed()) ==> Backed()) && (IsInStep() <==> old(IsInStep()))
      ensures raised <==> maxEntries > 0 && old(tail).CutInCharacter?
      ensures dream == old(dream) && handed == old(handed) && counter == old(counter) && issued == old(issued)
      ensures var n := |Entries(old(lines))|;
              if raised || maxEntries <= 0 || n <= maxEntries then lines == old(lines) && tail == old(tail)
              else lines == Entries(old(lines))[n - maxEntries..] && tail.Ended?
      ensures var before, after := old(Unprocessed(lines, dream)), Unprocessed(lines, dream);
              |after| <= |before| && after == before[|before| - |after|..]
    {
      assert Unprocessed(lines, dream)[0..] == Unprocessed(lines, dream);
      if maxEntries <= 0 {
        return false;
      }
      if tail.CutInCharacter? {
        return true;
      }
      var entries := Entries(lines);
      if |entries| > maxEntries {
        CompactionKeeps(lines, dream, |entries| - maxEntries);
        lines, tail := entries[|entries| - maxEntries..], Ended;
      }
      return false;
    }

    /** The counter file is lost or garbled. */
    method LoseCounter()
      requires Valid()
      modifies this
      ensures Valid() && counter.None? && lines == old(lines) && dream == old(dream) && handed == old(handed)
      ensures issued == old(issued) && tail == old(tail)
      ensures old(Backed()) ==> (Backed() <==> old(IsInStep()))
    {
      counter := None;
    }

    /**
     * When losing the counter makes a cursor come again: exactly if the counter was ahead of the
     * file, which it is once an append has run on in an unfinished line.
     */
    method AppendWithoutCounter(content: string, fits: bool) returns (result: Appended)
      requires Valid() && Backed()
      modifies this
      ensures Valid() && (result.Raised? <==> old(tail).CutInCharacter?) && !result.Crashed?
      ensures result.Returned? ==> result.cursor == MaxCursor(old(lines)) + 1
      ensures result.Returned? ==>
                (result.cursor > old(issued) <==>
                   (if old(counter).Some? then old(counter).value else 0) <= MaxCursor(old(lines)))
    {
      LoseCounter();
      NextIsAboveHighest(lines, !tail.Ended? && !tail.Unended?, fits, counter);
      result := AppendHistory(content, fits, Never);
    }

    /** `build_dream_prompt`: the next entries in order, and the cursor of the last of them. */
    method BuildDreamBatch(max: nat) returns (raised: bool, batch: seq<Line>, cursor: nat)
      requires Valid() && max > 0
      ensures raised <==> tail.CutInCharacter?
      ensures var all := Unprocessed(lines, dream);
              batch == if raised then [] else if |all| <= max then all else all[..max]
      ensures batch != [] ==> Yields(batch[|batch| - 1]) && batch[|batch| - 1].field.cursor == cursor
    {
      if tail.CutInCharacter? {
        return true, [], 0;
      }
      var entries := Unprocessed(lines, dream);
      raised, batch, cursor := false, if |entries| <= max then entries else entries[..max], 0;
      if batch != [] {
        UnprocessedLieBetween(lines, dream, |batch| - 1);
        cursor := batch[|batch| - 1].field.cursor;
      }
    }

    /**
     * One Dream run that succeeds: it takes a batch and then moves the cursor to the end of it. What
     * was handed out and what is left to hand out make up the same list as before.
     */
    method Dream(max: nat) returns (raised: bool, batch: seq<Line>)
      requires Valid() && max > 0
      modifies this
      ensures Valid() && (old(Backed()) ==> Backed())
      ensures lines == old(lines) && tail == old(tail) && counter == old(counter) && issued == old(issued)
      ensures raised <==> old(tail).CutInCharacter?
      ensures handed == old(handed) + batch && (batch == [] <==> raised || old(Unprocessed(lines, dream)) == [])
      ensures var all := old(Unprocessed(lines, dream));
              batch == if raised then [] else if |all| <= max then all else all[..max]
      ensures dream == if batch == [] then old(dream) else CursorIn(batch[|batch| - 1])
      ensures Stream(handed, lines, dream) == old(Stream(handed, lines, dream))
    {
      var cursor;
      raised, batch, cursor := BuildDreamBatch(max);
      if batch != [] {
        BatchKeepsStore(lines, tail, counter, dream, handed, issued, batch);
        dream, handed := cursor, handed + batch;
      }
    }
  }

  // ---- runs that show what a crash can do ----

  datatype Operation = Append(content: string, fits: bool, crash: Crash) | Compact | DreamOver(max: nat) | LoseCount

  /**
   * Half a character at the end of the file stays there: whatever operations follow, every append
   * raises, Dream gets nothing, and the file does not change.
   */
  method HalfCharacterStays(store: MemoryStore, operations: seq<Operation>) returns (results: seq<Appended>)
    requires store.Valid() && store.tail.CutInCharacter?
    modifies store
    ensures store.Valid() && store.tail.CutInCharacter? && forall r :: r in results ==> r.Raised?
    ensures store.lines == old(store.lines) && store.handed == old(store.handed)
  {
    results := [];
    for k := 0 to |operations|
      invariant store.Valid() && store.tail.CutInCharacter? && forall r :: r in results ==> r.Raised?
      invariant store.lines == old(store.lines) && store.handed == old(store.handed)
    {
      match operations[k]
      case Append(content, fits, crash) =>
        var result := store.AppendHistory(content, fits, crash);
        results := results + [result];
      case Compact => var _ := store.CompactHistory();
      case DreamOver(max) =>
        if max > 0 {
          var _, _ := store.Dream(max);
        }
      case LoseCount => store.LoseCounter();
    }
  }

  function EntryWith(c: nat, content: string): Line {
    Entry(CursorField.Valid(c), true, content)
  }

  lemma MaxOfFew(content: string)
    ensures var e, f := EntryWith(1, content), EntryWith(2, content);
            MaxCursor([]) == 0 && MaxCursor([e]) == 1 && MaxCursor([e, Junk]) == 1 && MaxCursor([e, f]) == 2
  {
    var e, f := EntryWith(1, content), EntryWith(2, content);
    StepForward([], e, 0);
    StepForward([e], Junk, 0);
    StepForward([e], f, 0);
    assert [] + [e] == [e] && [e] + [Junk] == [e, Junk] && [e] + [f] == [e, f];
  }

  /** A store that has returned cursor 1. */
  method OneReturned(content: string) returns (store: MemoryStore)
    ensures fresh(store) && store.Valid() && store.Backed() && store.dream == 0
    ensures store.lines == [EntryWith(1, content)] && store.tail.Ended? && store.counter == Some(1)
  {
    FirstCursors(content);
    store := new MemoryStore(0);
    var first := store.AppendHistory(content, true, Never);
  }

  /** Cursors 1 and 2 are the first two, and an append adds just its line. */
  lemma FirstCursors(content: string)
    ensures NextCursor([], false, true, None) == 1
    ensures NextCursor([EntryWith(1, content)], false, true, Some(1)) == 2
    ensures Front([], Ended, Never) + Added(Ended, EntryWith(1, content), Never) == [EntryWith(1, content)]
  {
  }

  /** A crash tears the line of the second entry. */
  method TearSecond(content: string) returns (store: MemoryStore)
    ensures fresh(store) && store.Valid() && store.Backed()
    ensures store.lines == [EntryWith(1, content)] && store.tail.Cut? && store.counter == Some(1)
  {
    store := OneReturned(content);
    FirstCursors(content);
    var torn := store.AppendHistory(content, true, InHistory);
    assert store.lines == [EntryWith(1, content)] + [];
  }

  /** Then the next entry goes into the torn line and the counter is lost: cursor 2 is returned twice. */
  method TornLineRepeatsCursor(content: string) returns (cursor: nat, again: nat)
    ensures cursor == again == 2
  {
    MaxOfFew(content);
    var store := TearSecond(content);
    var second := store.AppendHistory(content, true, Never);
    assert store.lines == [EntryWith(1, content), Junk] && store.tail.Ended? && store.counter == Some(2);
    assert store.issued == 2 && store.Backed();
    var third := store.AppendWithoutCounter(content, true);
    return second.cursor, third.cursor;
  }

  lemma UnprocessedOfFew(content: string)
    ensures var e, f := EntryWith(1, content), EntryWith(2, content);
            Unprocessed([e, f], 0) == [e, f] && Unprocessed([e, Junk, f], 2) == []
  {
    var e, f := EntryWith(1, content), EntryWith(2, content);
    StepForward([], e, 0);
    StepForward([e], f, 0);
    StepForward([], e, 2);
    StepForward([e], Junk, 2);
    StepForward([e, Junk], f, 2);
    assert [] + [e] == [e] && [e] + [f] == [e, f] && [e] + [Junk] == [e, Junk] && [e, Junk] + [f] == [e, Junk, f];
  }

  /** The second entry is cut off at its newline. */
  method CutAtNewline(content: string) returns (store: MemoryStore)
    ensures fresh(store) && store.Valid() && store.tail.Unended? && store.counter == Some(1) && store.dream == 0
    ensures store.lines == [EntryWith(1, content), EntryWith(2, content)]
  {
    store := OneReturned(content);
    FirstCursors(content);
    var second := store.AppendHistory(content, true, BeforeNewline);
    assert store.lines == [EntryWith(1, content)] + [EntryWith(2, content)];
  }

  /** Dream takes both, and the next write destroys the second entry and crashes as well. */
  method DestroyTaken(content: string) returns (store: MemoryStore)
    ensures fresh(store) && store.Valid() && store.tail.Ended? && store.counter == Some(1) && store.dream == 2
    ensures store.lines == [EntryWith(1, content), Junk]
  {
    MaxOfFew(content);
    UnprocessedOfFew(content);
    store := CutAtNewline(content);
    var raised, batch := store.Dream(10);
    assert batch == [EntryWith(1, content), EntryWith(2, content)];
    var third := store.AppendHistory(content, true, BeforeCounter);
  }

  /** The entry after that gets the cursor Dream has passed, and Dream never sees it. */
  method CursorFallsBehindDream(content: string) returns (cursor: nat, batch: seq<Line>)
    ensures cursor == 2 && batch == []
  {
    MaxOfFew(content);
    UnprocessedOfFew(content);
    var store := DestroyTaken(content);
    var fourth := store.AppendHistory(content, true, Never);
    assert store.lines == [EntryWith(1, content), Junk, EntryWith(2, content)] && store.dream == 2;
    var raised;
    raised, batch := store.Dream(10);
    cursor := fourth.cursor;
  }

  /** In every reachable store, no entry is handed out twice, and entries come in the order of their cursors. */
  lemma HandedOutOnceInOrder(store: MemoryStore, i: nat, j: nat)
    requires store.Valid() && i < j < |store.handed|
    ensures Yields(store.handed[i]) && Yields(store.handed[j]) && CursorIn(store.handed[i]) < CursorIn(store.handed[j])
  {
    assert store.handed[i] in store.handed && store.handed[j] in store.handed;
    WrittenIsOrdered(store.handed, i, j);
  }

  lemma {:induction false} WrittenIsOrdered(lines: seq<Line>, i: nat, j: nat)
    requires Written(lines) && i < j < |lines| && Yields(lines[i]) && Yields(lines[j])
    ensures CursorIn(lines[i]) < CursorIn(lines[j])
  {
    PrefixIsWritten(lines, j + 1);
    assert lines[..j + 1][..j] == lines[..j];
    NoneAboveMax(lines[..j], i);
  }
}
