/**
  The bounded undo/redo log of the editor: a list of canvas snapshots and the
  index of the one on screen. Snapshots are opaque (the editor stores encoded
  PNG data); the type parameter `S` stands for them.
 */
module History {
  import opened Base

  /** Capacity of the log; pushing past it evicts the oldest entry. */
  const MaxHistory: nat := 30

  datatype Entry<S> = Entry(snapshot: S, tag: string)

  datatype Log<S> = Log(entries: seq<Entry<S>>, index: int)

  /** The invariant every reachable log keeps. */
  predicate Valid<S>(log: Log<S>) {
    && |log.entries| <= MaxHistory
    && -1 <= log.index < |log.entries|
    && (log.index == -1 <==> |log.entries| == 0)
  }

  /** Whether the undo button is enabled. */
  predicate CanUndo<S>(log: Log<S>) {
    !(log.index <= 0)
  }

  /** Whether the redo button is enabled. */
  predicate CanRedo<S>(log: Log<S>) {
    !(log.index >= |log.entries| - 1 || log.index == -1)
  }

  /** The log after an image is loaded (before its first checkpoint) or the editor is cleared. */
  function Cleared<S>(): (log: Log<S>)
    ensures Valid(log) && |log.entries| == 0
    ensures !CanUndo(log) && !CanRedo(log)
  {
    Log([], -1)
  }

  /** The last `n` elements of `s`, or all of them when there are fewer. */
  function Newest<T>(s: seq<T>, n: nat): (r: seq<T>)
    ensures |r| == MinNat(|s|, n)
    ensures forall i :: 0 <= i < |r| ==> r[i] == s[|s| - |r| + i]
  {
    s[|s| - MinNat(|s|, n)..]
  }

  /**
    Records a checkpoint. Nothing happens on a zero-sized canvas; otherwise the
    entries after the current index are dropped, the new entry is appended,
    the oldest entry is evicted when the capacity is exceeded, and the index
    moves to the new entry.
   */
  function Push<S>(log: Log<S>, canvasWidth: nat, canvasHeight: nat, snapshot: S, tag: string): (r: Log<S>)
    requires log.index >= -1
    ensures canvasWidth == 0 || canvasHeight == 0 ==> r == log
    ensures canvasWidth > 0 && canvasHeight > 0 ==>
              && |r.entries| > 0
              && r.index == |r.entries| - 1
              && r.entries[r.index] == Entry(snapshot, tag)
              && !CanRedo(r)
    ensures Valid(log) ==> Valid(r)
    ensures Valid(log) && canvasWidth > 0 && canvasHeight > 0 ==>
              r.entries == Newest(log.entries[..log.index + 1] + [Entry(snapshot, tag)], MaxHistory)
  {
    if canvasWidth == 0 || canvasHeight == 0 then log
    else
      var kept := if log.index < |log.entries| - 1 then log.entries[..log.index + 1] else log.entries;
      var grown := kept + [Entry(snapshot, tag)];
      var bounded := if |grown| > MaxHistory then grown[1..] else grown;
      Log(bounded, |bounded| - 1)
  }

  /** A checkpoint lands right after the entry that was current, which stays in the log. */
  lemma PushKeepsPrevious<S>(log: Log<S>, canvasWidth: nat, canvasHeight: nat, snapshot: S, tag: string)
    requires Valid(log) && log.index >= 0 && canvasWidth > 0 && canvasHeight > 0
    ensures var r := Push(log, canvasWidth, canvasHeight, snapshot, tag);
            r.index >= 1 && r.entries[r.index - 1] == log.entries[log.index]
  {
    var r := Push(log, canvasWidth, canvasHeight, snapshot, tag);
    var grown := log.entries[..log.index + 1] + [Entry(snapshot, tag)];
    assert grown[|grown| - 2] == log.entries[log.index];
    assert r.entries == Newest(grown, MaxHistory);
  }

  /** The undo button: step back one entry when there is one before the current. */
  function Undo<S>(log: Log<S>): (r: Log<S>)
    ensures r.entries == log.entries
    ensures CanUndo(log) ==> r.index == log.index - 1
    ensures !CanUndo(log) ==> r == log
    ensures Valid(log) ==> Valid(r)
  {
    if log.index > 0 then log.(index := log.index - 1) else log
  }

  /** The redo button: step forward one entry when there is one after the current. */
  function Redo<S>(log: Log<S>): (r: Log<S>)
    ensures r.entries == log.entries
    ensures log.index < |log.entries| - 1 ==> r.index == log.index + 1
    ensures log.index >= |log.entries| - 1 ==> r == log
    ensures Valid(log) ==> Valid(r)
  {
    if log.index < |log.entries| - 1 then log.(index := log.index + 1) else log
  }

  /** The snapshot the editor restores onto the canvas for the current index. */
  function Current<S>(log: Log<S>): (r: Option<S>)
    ensures r.Some? <==> 0 <= log.index < |log.entries|
    ensures r.Some? ==> r.value == log.entries[log.index].snapshot
  {
    if 0 <= log.index < |log.entries| then Some(log.entries[log.index].snapshot) else None
  }

  /** The enabled state of each button agrees with whether its handler acts. */
  lemma ButtonsMatchHandlers<S>(log: Log<S>)
    requires Valid(log)
    ensures CanUndo(log) <==> Undo(log) != log
    ensures CanRedo(log) <==> Redo(log) != log
  {
  }

  lemma UndoThenRedo<S>(log: Log<S>)
    requires Valid(log) && CanUndo(log)
    ensures Redo(Undo(log)) == log
    ensures Current(Redo(Undo(log))) == Current(log)
  {
  }

  lemma RedoThenUndo<S>(log: Log<S>)
    requires Valid(log) && CanRedo(log)
    ensures Undo(Redo(log)) == log
  {
  }

  /** Undoing twice and then checkpointing prunes the two undone entries for good. */
  lemma UndoTwiceThenPush<S>(log: Log<S>, canvasWidth: nat, canvasHeight: nat, snapshot: S, tag: string)
    requires Valid(log) && log.index >= 2
    requires canvasWidth > 0 && canvasHeight > 0
    ensures var r := Push(Undo(Undo(log)), canvasWidth, canvasHeight, snapshot, tag);
            && r.entries == log.entries[..log.index - 1] + [Entry(snapshot, tag)]
            && !CanRedo(r) && CanUndo(r)
  {
    var u := Undo(Undo(log));
    assert u.index == log.index - 2;
    var kept := u.entries[..u.index + 1] + [Entry(snapshot, tag)];
    assert |kept| <= MaxHistory;
    assert Newest(kept, MaxHistory) == kept;
  }

  /** Checkpoints a sequence of entries in order. */
  function PushAll<S>(log: Log<S>, canvasWidth: nat, canvasHeight: nat, items: seq<Entry<S>>): (r: Log<S>)
    requires Valid(log)
    ensures Valid(r)
    decreases |items|
  {
    if |items| == 0 then log
    else PushAll(Push(log, canvasWidth, canvasHeight, items[0].snapshot, items[0].tag), canvasWidth, canvasHeight, items[1..])
  }

  lemma NewestWhole<T>(s: seq<T>, n: nat)
    requires |s| <= n
    ensures Newest(s, n) == s
  {
  }

  lemma NewestOfNewest<T>(s: seq<T>, t: seq<T>, n: nat)
    ensures Newest(Newest(s, n) + t, n) == Newest(s + t, n)
  {
    var a := Newest(s, n) + t;
    var b := s + t;
    var la := Newest(a, n);
    var lb := Newest(b, n);
    assert |la| == |lb|;
    forall i | 0 <= i < |la|
      ensures la[i] == lb[i]
    {
      var k := |a| - |la| + i;
      if k < |Newest(s, n)| {
        assert a[k] == s[|s| - |Newest(s, n)| + k];
      } else {
        assert a[k] == t[k - |Newest(s, n)|];
      }
    }
  }

  lemma SplitFirst<T>(s: seq<T>, items: seq<T>)
    requires |items| > 0
    ensures s + [items[0]] + items[1..] == s + items
  {
    assert items == [items[0]] + items[1..];
  }

  /** A checkpoint taken at the newest entry appends to the whole log, evicting the oldest past capacity. */
  lemma PushFromNewest<S>(log: Log<S>, canvasWidth: nat, canvasHeight: nat, e: Entry<S>)
    requires Valid(log) && log.index == |log.entries| - 1
    requires canvasWidth > 0 && canvasHeight > 0
    ensures var r := Push(log, canvasWidth, canvasHeight, e.snapshot, e.tag);
            && Valid(r)
            && r.entries == Newest(log.entries + [e], MaxHistory)
            && r.index == |r.entries| - 1
  {
    assert log.entries[..log.index + 1] == log.entries;
  }

  /**
    Checkpointing from the newest entry keeps exactly the newest `MaxHistory`
    entries of the old log followed by the pushed ones, oldest evicted first.
   */
  lemma {:induction false} PushAllKeepsNewest<S>(log: Log<S>, canvasWidth: nat, canvasHeight: nat, items: seq<Entry<S>>)
    requires Valid(log) && log.index == |log.entries| - 1
    requires canvasWidth > 0 && canvasHeight > 0
    ensures var r := PushAll(log, canvasWidth, canvasHeight, items);
            && r.entries == Newest(log.entries + items, MaxHistory)
            && r.index == |r.entries| - 1
    decreases |items|
  {
    if |items| == 0 {
      assert log.entries + items == log.entries;
      NewestWhole(log.entries, MaxHistory);
    } else {
      var e := items[0];
      var rest := items[1..];
      var next := Push(log, canvasWidth, canvasHeight, e.snapshot, e.tag);
      PushFromNewest(log, canvasWidth, canvasHeight, e);
      assert PushAll(log, canvasWidth, canvasHeight, items) == PushAll(next, canvasWidth, canvasHeight, rest);
      PushAllKeepsNewest(next, canvasWidth, canvasHeight, rest);
      NewestOfNewest(log.entries + [e], rest, MaxHistory);
      SplitFirst(log.entries, items);
    }
  }

  /** Pushing `MaxHistory + 5` checkpoints onto a fresh log keeps the last `MaxHistory` of them. */
  lemma OverflowEvictsOldest<S>(canvasWidth: nat, canvasHeight: nat, items: seq<Entry<S>>)
    requires canvasWidth > 0 && canvasHeight > 0
    requires |items| == MaxHistory + 5
    ensures var r := PushAll(Cleared(), canvasWidth, canvasHeight, items);
            && |r.entries| == MaxHistory
            && r.entries == items[5..]
            && r.index == MaxHistory - 1
  {
    PushAllKeepsNewest(Cleared(), canvasWidth, canvasHeight, items);
    assert Cleared<S>().entries + items == items;
  }
}
