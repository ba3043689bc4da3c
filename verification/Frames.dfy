/** Cutting the events of one hand-out into frames under the SSE frame bound. */
module Frames {
  import opened Sequences

  const FRAME_BUDGET: nat := 1024 * 1024 - 4096
  const USIZE_MAX: nat := 0xffff_ffff_ffff_ffff

  function SaturatingAdd(a: nat, b: nat): nat {
    if a + b > USIZE_MAX then USIZE_MAX else a + b
  }

  function Total<T>(events: seq<T>, size: T -> nat): nat {
    if events == [] then 0 else Total(events[..|events| - 1], size) + size(events[|events| - 1])
  }

  /** A frame keeps within the budget unless it is a single event. */
  predicate Fits<T>(frame: seq<T>, size: T -> nat) {
    Total(frame, size) <= FRAME_BUDGET || |frame| == 1
  }

  /** The frames already closed and the one still open. */
  datatype Cutting<T> = Cutting(closed: seq<seq<T>>, open: seq<T>) {
    function Frames(): seq<seq<T>> { closed + [open] }
  }

  /** One event: into the open frame, or into a new one when it would exceed the budget. */
  function Put<T>(cut: Cutting<T>, event: T, size: T -> nat): Cutting<T> {
    if SaturatingAdd(Used(cut.open, size), size(event)) > FRAME_BUDGET && cut.open != []
    then Cutting(cut.closed + [cut.open], [event])
    else Cutting(cut.closed, cut.open + [event])
  }

  function CutUp<T>(events: seq<T>, size: T -> nat): Cutting<T> {
    if events == [] then Cutting([], [])
    else Put(CutUp(events[..|events| - 1], size), events[|events| - 1], size)
  }

  /** The frames cut from the events; always at least one. */
  function Cut<T>(events: seq<T>, size: T -> nat): seq<seq<T>> {
    CutUp(events, size).Frames()
  }

  /** The running size of a frame, kept in a saturating counter. */
  function Used<T>(frame: seq<T>, size: T -> nat): nat {
    if frame == [] then 0 else SaturatingAdd(Used(frame[..|frame| - 1], size), size(frame[|frame| - 1]))
  }

  lemma {:induction false} UsedIsTotal<T>(frame: seq<T>, size: T -> nat)
    ensures Used(frame, size) == if Total(frame, size) > USIZE_MAX then USIZE_MAX else Total(frame, size)
  {
    if frame != [] {
      UsedIsTotal(frame[..|frame| - 1], size);
    }
  }

  lemma UsedAppend<T>(frame: seq<T>, event: T, size: T -> nat)
    ensures Used(frame + [event], size) == SaturatingAdd(Used(frame, size), size(event))
    ensures Total(frame + [event], size) == Total(frame, size) + size(event)
  {
    assert (frame + [event])[..|frame|] == frame;
  }

  lemma ReplaceLast<T>(front: seq<T>, last: T, other: T)
    ensures (front + [last])[|front| := other] == front + [other]
  {
  }

  /** What putting an event does to the list of frames, as the loop does it. */
  lemma PutFrames<T>(cut: Cutting<T>, event: T, size: T -> nat)
    ensures var frames := cut.Frames();
            var grown := if SaturatingAdd(Used(cut.open, size), size(event)) > FRAME_BUDGET && cut.open != []
                          then frames + [[]] else frames;
            Put(cut, event, size).Frames() == grown[|grown| - 1 := grown[|grown| - 1] + [event]]
  {
    ReplaceLast(cut.closed, cut.open, cut.open + [event]);
    ReplaceLast(cut.closed + [cut.open], [], [event]);
    assert [] + [event] == [event];
  }

  method Chunk<T>(events: seq<T>, size: T -> nat) returns (frames: seq<seq<T>>)
    ensures frames == Cut(events, size)
  {
    frames := [[]];
    var used := 0;
    var n := 0;
    ghost var cut: Cutting<T> := Cutting([], []);
    while n < |events|
      invariant 0 <= n <= |events|
      invariant cut == CutUp(events[..n], size)
      invariant frames == cut.Frames()
      invariant used == Used(cut.open, size)
    {
      var event := events[n];
      CutUpStep(events, n, size);
      UsedAppend(cut.open, event, size);
      UsedAppend([], event, size);
      PutFrames(cut, event, size);
      if SaturatingAdd(used, size(event)) > FRAME_BUDGET && frames[|frames| - 1] != [] {
        frames := frames + [[]];
        used := 0;
      }
      used := SaturatingAdd(used, size(event));
      frames := frames[|frames| - 1 := frames[|frames| - 1] + [event]];
      cut := Put(cut, event, size);
      n := n + 1;
    }
    assert events[..n] == events;
  }

  lemma CutUpStep<T>(events: seq<T>, n: nat, size: T -> nat)
    requires n < |events|
    ensures CutUp(events[..n + 1], size) == Put(CutUp(events[..n], size), events[n], size)
  {
    assert events[..n + 1][..n] == events[..n];
  }

  /** Putting an event adds it at the end. */
  lemma PutConcat<T>(cut: Cutting<T>, event: T, size: T -> nat)
    ensures Flatten(Put(cut, event, size).Frames()) == Flatten(cut.Frames()) + [event]
  {
    FlattenAppend(cut.closed, cut.open);
    FlattenAppend(cut.closed + [cut.open], [event]);
    FlattenAppend(cut.closed, cut.open + [event]);
    Assoc(Flatten(cut.closed), cut.open, [event]);
  }

  /** Nothing is lost, repeated or reordered. */
  lemma {:induction false} CutKeepsEvents<T>(events: seq<T>, size: T -> nat)
    ensures Flatten(Cut(events, size)) == events
  {
    if events == [] {
      FlattenAppend<T>([], []);
    } else {
      CutKeepsEvents(events[..|events| - 1], size);
      PutConcat(CutUp(events[..|events| - 1], size), events[|events| - 1], size);
    }
  }

  /** Only the frame for no events at all is empty. */
  lemma {:induction false} CutNonEmpty<T>(events: seq<T>, size: T -> nat, i: nat)
    requires events != [] && i < |Cut(events, size)|
    ensures Cut(events, size)[i] != []
  {
    var before := events[..|events| - 1];
    if i < |CutUp(before, size).closed| {
      CutNonEmpty(before, size, i);
    }
  }

  ghost predicate AllFit<T(!new)>(frames: seq<seq<T>>, size: T -> nat) {
    forall f :: f in frames ==> Fits(f, size)
  }

  /** Every frame is within the budget or holds a single event. */
  lemma {:induction false} CutFits<T(!new)>(events: seq<T>, size: T -> nat)
    ensures AllFit(Cut(events, size), size)
  {
    if events != [] {
      var cut := CutUp(events[..|events| - 1], size);
      var event := events[|events| - 1];
      CutFits(events[..|events| - 1], size);
      assert forall f :: f in cut.closed ==> f in cut.Frames();
      assert cut.open in cut.Frames();
      UsedIsTotal(cut.open, size);
      UsedAppend(cut.open, event, size);
    }
  }

  /** How many frames the events take; none for no events. */
  function Count<T>(events: seq<T>, size: T -> nat): nat {
    if events == [] then 0 else |Cut(events, size)|
  }

  lemma {:induction false} TotalSuffix<T>(events: seq<T>, from: nat, size: T -> nat)
    requires from <= |events|
    ensures Total(events[from..], size) <= Total(events, size)
  {
    if from < |events| {
      var front := events[..|events| - 1];
      TotalSuffix(front, from, size);
      assert events[from..][..|events| - from - 1] == front[from..];
    }
  }

  /** The open frame is a suffix of the events. */
  lemma OpenIsSuffix<T>(events: seq<T>, size: T -> nat)
    ensures var open := CutUp(events, size).open;
            |open| <= |events| && open == events[|events| - |open|..]
  {
    var cut := CutUp(events, size);
    CutKeepsEvents(events, size);
    FlattenAppend(cut.closed, cut.open);
  }

  /** The greedy cut has not fallen behind a split of the same events whose last frame has this length. */
  predicate Ahead<T>(events: seq<T>, size: T -> nat, frames: nat, last: nat) {
    && Count(events, size) <= frames
    && (Count(events, size) == frames ==> |CutUp(events, size).open| <= last)
  }

  lemma CountStep<T>(events: seq<T>, size: T -> nat)
    requires events != []
    ensures var before := events[..|events| - 1];
            && Count(events, size) <= Count(before, size) + 1
            && (Count(events, size) > Count(before, size) ==> |CutUp(events, size).open| == 1)
  {
  }

  /** One more event goes into the open frame whenever it fits there in the other split. */
  lemma StepAhead<T>(events: seq<T>, size: T -> nat, rest: nat, total: nat, frames: nat)
    requires |events| > 1 && Ahead(events[..|events| - 1], size, frames, rest)
    requires var open := CutUp(events[..|events| - 1], size).open;
             |open| <= rest ==> Total(open, size) <= total
    requires 0 < rest && total + size(events[|events| - 1]) <= FRAME_BUDGET
    ensures Ahead(events, size, frames, rest + 1)
  {
    CountStep(events, size);
    UsedIsTotal(CutUp(events[..|events| - 1], size).open, size);
  }

  /** The open frame is no larger than a longer suffix. */
  lemma OpenTotal<T>(events: seq<T>, size: T -> nat, rest: nat)
    requires |CutUp(events, size).open| <= rest <= |events|
    ensures Total(CutUp(events, size).open, size) <= Total(events[|events| - rest..], size)
  {
    var open := CutUp(events, size).open;
    OpenIsSuffix(events, size);
    var longer := events[|events| - rest..];
    assert open == longer[rest - |open|..];
    TotalSuffix(longer, rest - |open|, size);
  }

  lemma DropLast<T>(front: seq<T>, last: seq<T>, events: seq<T>)
    requires front + last == events && last != []
    ensures events[..|events| - 1] == front + last[..|last| - 1]
    ensures events[|events| - 1] == last[|last| - 1]
    ensures last[..|last| - 1] == events[..|events| - 1][|front|..]
  {
  }

  /**
    Staying ahead: against any split of the same events into fitting frames, the greedy cut never
    uses more frames, and when it uses as many its open frame is no longer than the split's last.
   */
  lemma {:induction false} CutStaysAhead<T(!new)>(events: seq<T>, size: T -> nat, split: seq<seq<T>>)
    requires Flatten(split) == events && events != [] && AllFit(split, size)
    ensures split != [] && Ahead(events, size, |split|, |split[|split| - 1]|)
    decreases |events|, |split|, 0
  {
    var front := split[..|split| - 1];
    var last := split[|split| - 1];
    assert last in split && forall f :: f in front ==> f in split;
    if last == [] {
      CutStaysAhead(events, size, front);
    } else if |last| == 1 {
      SingleLast(events, size, front, last);
    } else {
      LongerLast(events, size, front, last);
    }
  }

  /** The case of a last frame with a single event. */
  lemma {:induction false} SingleLast<T(!new)>(events: seq<T>, size: T -> nat, front: seq<seq<T>>, last: seq<T>)
    requires Flatten(front) + last == events && |last| == 1 && AllFit(front, size)
    ensures Ahead(events, size, |front| + 1, 1)
    decreases |events|, |front|, 1
  {
    DropLast(Flatten(front), last, events);
    CountStep(events, size);
    if Flatten(front) != [] {
      CutStaysAhead(Flatten(front), size, front);
    }
  }

  /** The case of a last frame with more events: the split without its last event. */
  lemma {:induction false} LongerLast<T(!new)>(events: seq<T>, size: T -> nat, front: seq<seq<T>>, last: seq<T>)
    requires Flatten(front) + last == events && |last| > 1 && AllFit(front, size) && Fits(last, size)
    ensures Ahead(events, size, |front| + 1, |last|)
    decreases |events|, |front|, 1
  {
    var rest := last[..|last| - 1];
    DropLast(Flatten(front), last, events);
    FlattenAppend(front, rest);
    var before := events[..|events| - 1];
    CutStaysAhead(before, size, front + [rest]);
    if |CutUp(before, size).open| <= |rest| {
      OpenTotal(before, size, |rest|);
    }
    StepAhead(events, size, |rest|, Total(rest, size), |front| + 1);
  }

  /** No order-keeping split into fitting frames uses fewer frames. */
  lemma CutIsShortest<T(!new)>(events: seq<T>, size: T -> nat, split: seq<seq<T>>)
    requires events != [] && Flatten(split) == events && AllFit(split, size)
    ensures |Cut(events, size)| <= |split|
  {
    CutStaysAhead(events, size, split);
  }
}
