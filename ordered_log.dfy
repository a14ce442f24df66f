/** The ordered console output of one chunk in `buildIiifCollectionPages`
    (packages/lib/iiif.js): each task leaves its lines in `logs[idx]`, and
    `tryFlush` prints slots from `nextPrint` on while they are filled, so
    lines come out in task order whatever order the workers finish in. */
module OrderedLog {
  import opened Json

  /** The colour a line is printed in; `Plain` and `Warning` stand for
      `console.log` and `console.warn`. */
  datatype Color = Yellow | Red | Green | Cyan | Magenta | White | Plain | Warning

  datatype LogLine = LogLine(text: string, color: Color)

  /** The index of the first slot never filled (or the length). */
  function FirstMissing(given: seq<Option<seq<LogLine>>>): (r: nat)
    ensures r <= |given|
    ensures forall i :: 0 <= i < r ==> given[i].Some?
    ensures r < |given| ==> given[r].None?
  {
    if given == [] || given[0].None? then 0 else 1 + FirstMissing(given[1..])
  }

  /** The lines of the first `k` slots, in slot order. */
  function Done(given: seq<Option<seq<LogLine>>>, k: nat): seq<LogLine>
    requires k <= |given| && forall i :: 0 <= i < k ==> given[i].Some?
  {
    if k == 0 then [] else Done(given, k - 1) + given[k - 1].value
  }

  /** `Done` depends only on the slots it reads. */
  lemma {:induction false} DoneFrame(g1: seq<Option<seq<LogLine>>>, g2: seq<Option<seq<LogLine>>>, k: nat)
    requires k <= |g1| && k <= |g2| && g1[..k] == g2[..k]
    requires forall i :: 0 <= i < k ==> g1[i].Some?
    ensures forall i :: 0 <= i < k ==> g2[i].Some?
    ensures Done(g1, k) == Done(g2, k)
  {
    assert forall i :: 0 <= i < k ==> g1[i] == g1[..k][i] == g2[..k][i] == g2[i];
    if k > 0 {
      assert g1[..k - 1] == g1[..k][..k - 1];
      assert g2[..k - 1] == g2[..k][..k - 1];
      DoneFrame(g1, g2, k - 1);
    }
  }

  /** Concatenation of a list of line groups. */
  function Concat(groups: seq<seq<LogLine>>): seq<LogLine> {
    if groups == [] then [] else Concat(groups[..|groups| - 1]) + groups[|groups| - 1]
  }

  function Filled(groups: seq<seq<LogLine>>): (r: seq<Option<seq<LogLine>>>)
    ensures |r| == |groups|
    ensures forall i :: 0 <= i < |groups| ==> r[i] == Some(groups[i])
  {
    seq(|groups|, i requires 0 <= i < |groups| => Some(groups[i]))
  }

  lemma {:induction false} DoneFilled(groups: seq<seq<LogLine>>, k: nat)
    requires k <= |groups|
    ensures Done(Filled(groups), k) == Concat(groups[..k])
  {
    if k > 0 {
      DoneFilled(groups, k - 1);
      assert groups[..k][..k - 1] == groups[..k - 1];
    }
  }

  class LogBuffer {
    /** `logs`: one slot per task of the chunk. */
    const logs: array<Option<seq<LogLine>>>
    /** `nextPrint`: the first slot not yet printed. */
    var nextPrint: nat
    /** What `tryFlush` has printed so far. */
    var printed: seq<LogLine>
    /** Every slot's lines as handed in, kept after the slot is cleared. */
    ghost var given: seq<Option<seq<LogLine>>>

    /** Slots before `nextPrint` were filled, printed and cleared; the rest
        hold what was handed in; `printed` is the lines of the printed slots
        in slot order. */
    ghost predicate Inv()
      reads this, logs
    {
      |given| == logs.Length && nextPrint <= logs.Length
      && (forall i :: 0 <= i < nextPrint ==> given[i].Some? && logs[i].None?)
      && (forall i :: nextPrint <= i < logs.Length ==> logs[i] == given[i])
      && printed == Done(given, nextPrint)
    }

    /** Between calls, everything printable has been printed. */
    ghost predicate Valid()
      reads this, logs
    {
      Inv() && nextPrint == FirstMissing(given)
    }

    /** `new Array(chunk.length)` and `nextPrint = 0`. */
    constructor (n: nat)
      ensures Valid() && fresh(logs)
      ensures given == seq(n, i => None) && printed == []
    {
      logs := new Option<seq<LogLine>>[n](i => None);
      nextPrint := 0;
      printed := [];
      given := seq(n, i => None);
    }

    /** `tryFlush`: print filled slots from `nextPrint` on, clearing each. */
    method TryFlush()
      requires Inv()
      modifies this, logs
      ensures Valid() && given == old(given)
      ensures nextPrint >= old(nextPrint)
      ensures |old(printed)| <= |printed| && printed[..|old(printed)|] == old(printed)
    {
      ghost var start := printed;
      while nextPrint < logs.Length && logs[nextPrint].Some?
        invariant Inv() && given == old(given) && nextPrint >= old(nextPrint)
        invariant |start| <= |printed| && printed[..|start|] == start
        decreases logs.Length - nextPrint
      {
        printed := printed + logs[nextPrint].value;
        logs[nextPrint] := None;
        nextPrint := nextPrint + 1;
      }
    }

    /** `logs[idx] = lns; tryFlush()` for a task that finished. */
    method Complete(idx: nat, lns: seq<LogLine>)
      requires Valid() && idx < |given| && given[idx].None?
      modifies this, logs
      ensures Valid() && given == old(given)[idx := Some(lns)]
      ensures |old(printed)| <= |printed| && printed[..|old(printed)|] == old(printed)
    {
      assert idx >= nextPrint;
      logs[idx] := Some(lns);
      given := given[idx := Some(lns)];
      DoneFrame(old(given), given, nextPrint);
      TryFlush();
    }
  }

  /** The slots after the tasks listed in `seen` have handed in their lines. */
  function Placed(groups: seq<seq<LogLine>>, seen: seq<nat>): (r: seq<Option<seq<LogLine>>>)
    ensures |r| == |groups|
    ensures forall i :: 0 <= i < |groups| ==> r[i] == if i in seen then Some(groups[i]) else None
  {
    seq(|groups|, i requires 0 <= i < |groups| => if i in seen then Some(groups[i]) else None)
  }

  lemma PlacedNext(groups: seq<seq<LogLine>>, order: seq<nat>, k: nat)
    requires k < |order| && order[k] < |groups|
    requires forall j :: 0 <= j < k ==> order[j] != order[k]
    ensures Placed(groups, order[..k])[order[k]].None?
    ensures Placed(groups, order[..k])[order[k] := Some(groups[order[k]])] == Placed(groups, order[..k + 1])
  {
    assert order[..k + 1] == order[..k] + [order[k]];
  }

  lemma PlacedAll(groups: seq<seq<LogLine>>, order: seq<nat>)
    requires forall i :: 0 <= i < |groups| ==> i in order
    ensures Placed(groups, order) == Filled(groups)
  {
  }

  /** However the workers finish, once every task of the chunk has handed
      in its lines the output is all of them in task order. */
  method FlushInAnyOrder(groups: seq<seq<LogLine>>, order: seq<nat>) returns (out: seq<LogLine>)
    requires forall k :: 0 <= k < |order| ==> order[k] < |groups|
    requires forall i :: 0 <= i < |groups| ==> i in order
    requires forall j, k :: 0 <= j < k < |order| ==> order[j] != order[k]
    ensures out == Concat(groups)
  {
    var buf := new LogBuffer(|groups|);
    var k := 0;
    assert order[..0] == [];
    while k < |order|
      invariant 0 <= k <= |order| && buf.Valid() && fresh(buf.logs)
      invariant buf.given == Placed(groups, order[..k])
    {
      PlacedNext(groups, order, k);
      buf.Complete(order[k], groups[order[k]]);
      k := k + 1;
    }
    assert order[..k] == order;
    PlacedAll(groups, order);
    DoneFilled(groups, |groups|);
    assert groups[..|groups|] == groups;
    out := buf.printed;
  }

  /** What a chunk's buffer prints once the slots `given` are filled: the
      slots before the first one left empty. */
  function PrintedFor(given: seq<Option<seq<LogLine>>>): seq<LogLine> {
    Done(given, FirstMissing(given))
  }

  /** `rest` slots nobody has filled yet. */
  function Empty(rest: nat): (r: seq<Option<seq<LogLine>>>)
    ensures |r| == rest && forall i :: 0 <= i < rest ==> r[i].None?
  {
    seq(rest, i => None)
  }

  /** The buffer fed in slot order: each slot that gets lines is completed
      when its turn comes, the others are never completed. */
  method FeedInOrder(slots: seq<Option<seq<LogLine>>>) returns (out: seq<LogLine>)
    ensures out == PrintedFor(slots)
  {
    var buf := new LogBuffer(|slots|);
    var i := 0;
    while i < |slots|
      invariant 0 <= i <= |slots| && buf.Valid() && fresh(buf.logs)
      invariant buf.given == slots[..i] + Empty(|slots| - i)
    {
      FeedStep(slots, i);
      if slots[i].Some? {
        buf.Complete(i, slots[i].value);
      }
      i := i + 1;
    }
    assert slots[..i] + Empty(0) == slots;
    out := buf.printed;
  }

  /** Filling slot `i` as `slots` has it moves the boundary one slot on. */
  lemma FeedStep(slots: seq<Option<seq<LogLine>>>, i: nat)
    requires i < |slots|
    ensures (slots[..i] + Empty(|slots| - i))[i].None?
    ensures slots[i].Some? ==>
      (slots[..i] + Empty(|slots| - i))[i := slots[i]] == slots[..i + 1] + Empty(|slots| - (i + 1))
    ensures slots[i].None? ==>
      slots[..i] + Empty(|slots| - i) == slots[..i + 1] + Empty(|slots| - (i + 1))
  {
    assert slots[..i + 1] == slots[..i] + [slots[i]];
  }

  /** An empty slot holds back every later line for good. */
  lemma EmptySlotBlocksLater(given: seq<Option<seq<LogLine>>>, j: nat)
    requires j < |given| && given[j].None?
    ensures FirstMissing(given) <= j
  {
  }
}
