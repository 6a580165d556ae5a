/** The in-memory log window attached to heartbeats: a ring array with a cursor. */
module LogRing {

  const LEVEL_ERROR: int := 8

  datatype Entry = Entry(line: string, level: int, isConnection: bool)

  /** The last `size` entries, or all of them while there are fewer. */
  function LastOf(history: seq<Entry>, size: nat): (r: seq<Entry>) {
    if |history| <= size then history else history[|history| - size..]
  }

  datatype Tally = Tally(connections: nat, informative: nat, critical: nat)

  /** Connection events first, then errors, then the rest. */
  function Count(entries: seq<Entry>): (r: Tally) {
    if entries == [] then Tally(0, 0, 0) else
    var t, e := Count(entries[..|entries| - 1]), entries[|entries| - 1];
    if e.isConnection then t.(connections := t.connections + 1)
    else if e.level >= LEVEL_ERROR then t.(critical := t.critical + 1)
    else t.(informative := t.informative + 1)
  }

  function Where(entries: seq<Entry>, p: Entry -> bool): (r: nat) {
    if entries == [] then 0 else
    Where(entries[..|entries| - 1], p) + (if p(entries[|entries| - 1]) then 1 else 0)
  }

  /** The three counts partition the window. */
  lemma {:induction false} CountsPartition(entries: seq<Entry>)
    ensures var t := Count(entries);
      && t.connections + t.informative + t.critical == |entries|
      && t.connections == Where(entries, (e: Entry) => e.isConnection)
      && t.critical == Where(entries, (e: Entry) => !e.isConnection && e.level >= 8)
  {
    if entries == [] {
    } else {
      CountsPartition(entries[..|entries| - 1]);
    }
  }

  /** The ring read from its cursor. */
  function Unrolled(ring: seq<Entry>, next: nat): (r: seq<Entry>)
    requires next <= |ring|
  {
    ring[next..] + ring[..next]
  }

  /** The cursor after one step. */
  function Advanced(next: nat, size: nat): (r: nat) {
    if next + 1 == size then 0 else next + 1
  }

  lemma AdvancedIsModulo(next: nat, size: nat)
    requires next < size
    ensures (next + 1) % size == Advanced(next, size)
  {
    if next + 1 == size {
      assert size % size == 0;
    }
  }

  /** Writing at the cursor and moving it on drops the oldest entry and adds the new one. */
  lemma OverwriteShifts(ring: seq<Entry>, next: nat, entry: Entry)
    requires next < |ring|
    ensures Unrolled(ring[next := entry], Advanced(next, |ring|)) == Unrolled(ring, next)[1..] + [entry]
  {}

  class LogRingBuffer {
    const entries: array<Entry>
    var next: nat
    var full: bool
    /** Every entry handled so far. */
    ghost var history: seq<Entry>

    ghost predicate Valid()
      reads this, entries
    {
      && next < entries.Length
      && (if full then
            |history| >= entries.Length
            && Unrolled(entries[..], next) == history[|history| - entries.Length..]
          else next == |history| && entries[..next] == history)
    }

    constructor (size: nat)
      requires size > 0
      ensures Valid() && history == [] && entries.Length == size && fresh(entries)
    {
      entries := new Entry[size](_ => Entry("", 0, false));
      next, full, history := 0, false, [];
    }

    /** Stores an entry over the oldest one; errors are reported to the event queue. */
    method Handle(entry: Entry) returns (critical: bool)
      requires Valid()
      modifies this, entries
      ensures Valid() && history == old(history) + [entry]
      ensures critical <==> entry.level >= 8
    {
      OverwriteShifts(entries[..], next, entry);
      AdvancedIsModulo(next, entries.Length);
      ghost var after := entries[..][next := entry];
      ghost var filled := entries[..next] + [entry];
      entries[next] := entry;
      assert entries[..] == after;
      next := (next + 1) % entries.Length;
      history := history + [entry];
      if next == 0 {
        assert !full ==> Unrolled(after, 0) == filled == history;
        full := true;
      } else {
        assert !full ==> entries[..next] == filled;
      }
      return entry.level >= LEVEL_ERROR;
    }

    method Ordered() returns (out: seq<Entry>)
      requires Valid()
      ensures out == LastOf(history, entries.Length)
    {
      if !full {
        return entries[..next];
      }
      assert Unrolled(entries[..], next) == entries[next..] + entries[..next];
      return entries[next..] + entries[..next];
    }

    method Lines() returns (out: seq<string>)
      requires Valid()
      ensures var window := LastOf(history, entries.Length);
        |out| == |window| && forall i :: 0 <= i < |out| ==> out[i] == window[i].line
    {
      var window := Ordered();
      out := [];
      for i := 0 to |window|
        invariant |out| == i && forall j :: 0 <= j < i ==> out[j] == window[j].line
      {
        out := out + [window[i].line];
      }
    }

    method Counts() returns (connections: nat, informative: nat, critical: nat)
      requires Valid()
      ensures Tally(connections, informative, critical) == Count(LastOf(history, entries.Length))
    {
      var window := Ordered();
      connections, informative, critical := 0, 0, 0;
      for i := 0 to |window|
        invariant Tally(connections, informative, critical) == Count(window[..i])
      {
        assert window[..i + 1][..i] == window[..i];
        var e := window[i];
        if e.isConnection {
          connections := connections + 1;
        } else if e.level >= LEVEL_ERROR {
          critical := critical + 1;
        } else {
          informative := informative + 1;
        }
      }
      assert window[..|window|] == window;
    }
  }
}
