/** The background slideshow: an endless loop over two background slots. Each iteration shows
    slot 1, waits 10 s, pulls the next background into slot 2 hidden, waits 50 s, shows slot 2,
    waits 10 s, pulls the next background into slot 1 hidden and waits 50 s. A counter `zIndex`
    is written into every style and bumped after each hidden preparation. The waits are
    returned as labelled delays rather than taken. */
module Slideshow {
  import opened Backgrounds

  datatype Option<T> = None | Some(value: T)

  datatype Slot = First | Second

  /** The CSS written into a slot: `fadeIn` is the "fadein 3s" animation, `opacity` 0 or 1. */
  datatype Style = Style(background: Background, fadeIn: bool, opacity: nat, zIndex: int)

  /** One style update and the wait that follows it, in milliseconds. */
  datatype StyleWrite = StyleWrite(slot: Slot, style: Style, delay: nat)

  /** Where the loop body stands: the next style write to issue. */
  datatype Phase = ShowFirst | PrepareSecond | ShowSecond | PrepareFirst

  const ShowMillis: nat := 10000
  const HideMillis: nat := 50000

  function Other(s: Slot): Slot
  {
    if s == First then Second else First
  }

  /** How many style writes of the current iteration precede the write of phase `p`. */
  function PhaseIndex(p: Phase): (i: nat)
    ensures i < 4
  {
    match p
    case ShowFirst => 0
    case PrepareSecond => 1
    case ShowSecond => 2
    case PrepareFirst => 3
  }

  /** Reference schedule, independent of the counter: the `k`-th style write of the loop, given
      the backgrounds pulled so far (`pulled[0]` is the one pulled before the loop). Write `k`
      carries z-index `k / 2` and background number `(k + 1) / 2`; even writes fade a slot in,
      odd writes prepare a slot hidden. */
  function Scheduled(k: nat, pulled: seq<Background>): StyleWrite
    requires (k + 1) / 2 < |pulled|
  {
    var slot := if k % 4 == 0 || k % 4 == 3 then First else Second;
    var background := pulled[(k + 1) / 2];
    if k % 2 == 0 then StyleWrite(slot, Style(background, true, 1, k / 2), ShowMillis)
    else StyleWrite(slot, Style(background, false, 0, k / 2), HideMillis)
  }

  /** Position `i` of iteration `c` is write `4 * c + i`. */
  lemma IterationArith(c: nat, i: nat)
    requires i < 4
    ensures var k := 4 * c + i;
      && k % 4 == i && k % 2 == i % 2 && k / 2 == 2 * c + i / 2 && (k + 1) / 2 == 2 * c + (i + 1) / 2
  {
    var k := 4 * c + i;
    if i == 0 {
      assert k == 2 * (2 * c) && k + 1 == 2 * (2 * c) + 1;
    } else if i == 1 {
      assert k == 2 * (2 * c) + 1 && k + 1 == 2 * (2 * c + 1);
    } else if i == 2 {
      assert k == 2 * (2 * c + 1) && k + 1 == 2 * (2 * c + 1) + 1;
    } else {
      assert k == 2 * (2 * c + 1) + 1 && k + 1 == 2 * (2 * c + 2);
    }
  }

  /** The `log` is the beginning of the schedule for the backgrounds `pulled`. */
  ghost predicate FollowsSchedule(log: seq<StyleWrite>, pulled: seq<Background>)
  {
    && |log| / 2 < |pulled|
    && forall k :: 0 <= k < |log| ==> log[k] == Scheduled(k, pulled)
  }

  /** The style a slot currently has: the last one written to it, if any. */
  function LastStyle(log: seq<StyleWrite>, slot: Slot): Option<Style>
  {
    if log == [] then None
    else if log[|log| - 1].slot == slot then Some(log[|log| - 1].style)
    else LastStyle(log[..|log| - 1], slot)
  }

  lemma LastStyleAppend(log: seq<StyleWrite>, w: StyleWrite, slot: Slot)
    ensures LastStyle(log + [w], slot) == if w.slot == slot then Some(w.style) else LastStyle(log, slot)
  {
    assert (log + [w])[..|log|] == log;
  }

  /** A slot's current style was written by some earlier write to that slot. */
  lemma {:induction false} LastStyleWasWritten(log: seq<StyleWrite>, slot: Slot)
    requires LastStyle(log, slot).Some?
    ensures exists j :: 0 <= j < |log| && log[j].slot == slot && log[j].style == LastStyle(log, slot).value
  {
    var n := |log| - 1;
    if log[n].slot != slot {
      LastStyleWasWritten(log[..n], slot);
      var j :| 0 <= j < n && log[..n][j].slot == slot && log[..n][j].style == LastStyle(log[..n], slot).value;
      assert log[j] == log[..n][j];
    }
  }

  /** The z-index written never goes down. */
  lemma ZIndexNeverDecreases(j: nat, k: nat, pulled: seq<Background>)
    requires j <= k && (k + 1) / 2 < |pulled|
    ensures Scheduled(j, pulled).style.zIndex <= Scheduled(k, pulled).style.zIndex
  {
  }

  /** One loop iteration (four writes) raises the z-index by exactly two. */
  lemma IterationRaisesZIndexByTwo(k: nat, pulled: seq<Background>)
    requires (k + 5) / 2 < |pulled|
    ensures Scheduled(k + 4, pulled).style.zIndex == Scheduled(k, pulled).style.zIndex + 2
  {
  }

  /** A fade-in carries a z-index above every style written before it. */
  lemma FadeInPaintsAbove(j: nat, k: nat, pulled: seq<Background>)
    requires j < k && (k + 1) / 2 < |pulled|
    requires Scheduled(k, pulled).style.fadeIn
    ensures Scheduled(j, pulled).style.zIndex < Scheduled(k, pulled).style.zIndex
  {
  }

  /** A hidden preparation is followed at once by the fade-in of the same slot with the same
      background and a z-index one higher. */
  lemma PreparedSlotShownNext(k: nat, pulled: seq<Background>)
    requires (k + 2) / 2 < |pulled|
    requires !Scheduled(k, pulled).style.fadeIn
    ensures var prep, show := Scheduled(k, pulled), Scheduled(k + 1, pulled);
      && prep.style.opacity == 0 && show.style.opacity == 1 && show.style.fadeIn
      && show.slot == prep.slot && show.style.background == prep.style.background
      && show.style.zIndex == prep.style.zIndex + 1
  {
  }

  /** Every hidden preparation uses a background number that no earlier write used: exactly one
      background is pulled per half iteration, in the order the source yields them. */
  lemma PreparationPullsFresh(j: nat, k: nat, pulled: seq<Background>)
    requires j < k && (k + 1) / 2 < |pulled|
    requires !Scheduled(k, pulled).style.fadeIn
    ensures (j + 1) / 2 < (k + 1) / 2
    ensures Scheduled(k, pulled).style.background == pulled[(k + 1) / 2]
  {
  }

  /** Iteration `c` writes slot 1 shown with background `2c`, slot 2 hidden with background
      `2c + 1`, slot 2 shown with the same, slot 1 hidden with background `2c + 2`, at
      z-indexes `2c`, `2c`, `2c + 1`, `2c + 1` and with waits of 10 s, 50 s, 10 s and 50 s: two
      minutes in all. */
  lemma IterationSchedule(c: nat, pulled: seq<Background>)
    requires 2 * c + 2 < |pulled|
    ensures Scheduled(4 * c, pulled) == StyleWrite(First, Style(pulled[2 * c], true, 1, 2 * c), 10000)
    ensures Scheduled(4 * c + 1, pulled) == StyleWrite(Second, Style(pulled[2 * c + 1], false, 0, 2 * c), 50000)
    ensures Scheduled(4 * c + 2, pulled) == StyleWrite(Second, Style(pulled[2 * c + 1], true, 1, 2 * c + 1), 10000)
    ensures Scheduled(4 * c + 3, pulled) == StyleWrite(First, Style(pulled[2 * c + 2], false, 0, 2 * c + 1), 50000)
  {
    IterationArith(c, 0);
    IterationArith(c, 1);
    IterationArith(c, 2);
    IterationArith(c, 3);
  }

  /** Pulling more backgrounds does not change the writes already scheduled. */
  lemma ScheduleKeeps(log: seq<StyleWrite>, before: seq<Background>, after: seq<Background>)
    requires FollowsSchedule(log, before) && before <= after
    ensures FollowsSchedule(log, after)
  {
    forall k | 0 <= k < |log|
      ensures log[k] == Scheduled(k, after)
    {
      var w := log[k];
      assert (k + 1) / 2 < |before|;
      assert before[(k + 1) / 2] == after[(k + 1) / 2];
    }
  }

  /** Right after a fade-in, the slot faded in is above the other slot. */
  lemma FadeInOnTop(log: seq<StyleWrite>, pulled: seq<Background>)
    requires FollowsSchedule(log, pulled) && |log| > 0 && log[|log| - 1].style.fadeIn
    ensures LastStyle(log, log[|log| - 1].slot) == Some(log[|log| - 1].style)
    ensures var other := LastStyle(log, Other(log[|log| - 1].slot));
      other.Some? ==> other.value.zIndex < log[|log| - 1].style.zIndex
  {
    var k := |log| - 1;
    var shown := log[k];
    assert log[..k] + [shown] == log;
    LastStyleAppend(log[..k], shown, shown.slot);
    var other := LastStyle(log, Other(shown.slot));
    if other.Some? {
      LastStyleWasWritten(log, Other(shown.slot));
      var j :| 0 <= j < |log| && log[j].slot == Other(shown.slot) && log[j].style == other.value;
      assert j < k;
      assert log[j] == Scheduled(j, pulled) && shown == Scheduled(k, pulled);
      FadeInPaintsAbove(j, k, pulled);
    }
  }

  /** The controller's fields agree with the schedule after `cycles` whole iterations and the
      writes of the current one that precede `phase`, `pulled` being the backgrounds pulled so
      far: one pulled before the loop and one per preparation, the counter bumped once per
      preparation, each slot holding the last style written to it. */
  ghost predicate Consistent(log: seq<StyleWrite>, pulled: seq<Background>, cycles: nat, zIndex: int,
                             phase: Phase, slot1: Option<Style>, slot2: Option<Style>,
                             background1: Background, background2: Background)
  {
    && |log| == 4 * cycles + PhaseIndex(phase)
    && zIndex == 2 * cycles + PhaseIndex(phase) / 2
    && |pulled| == zIndex + 1
    && FollowsSchedule(log, pulled)
    && slot1 == LastStyle(log, First)
    && slot2 == LastStyle(log, Second)
    && (phase == ShowFirst ==> background1 == pulled[zIndex])
    && (phase == ShowSecond ==> background2 == pulled[zIndex])
  }

  /** Appending the next scheduled write keeps the log on schedule. */
  lemma ScheduleExtends(log: seq<StyleWrite>, pulled: seq<Background>, w: StyleWrite)
    requires FollowsSchedule(log, pulled)
    requires (|log| + 1) / 2 < |pulled| && w == Scheduled(|log|, pulled)
    ensures FollowsSchedule(log + [w], pulled)
  {
    forall k | 0 <= k < |log| + 1
      ensures (log + [w])[k] == Scheduled(k, pulled)
    {
      if k < |log| {
        var v := log[k];
        assert (log + [w])[k] == v;
      }
    }
  }

  /** Fading slot 1 in at the counter is the next scheduled write, keeps the fields consistent
      and puts slot 1 above slot 2. */
  lemma ShowFirstKeeps(log: seq<StyleWrite>, pulled: seq<Background>, c: nat, z: int,
                       s1: Option<Style>, s2: Option<Style>, b1: Background, b2: Background)
    requires Consistent(log, pulled, c, z, ShowFirst, s1, s2, b1, b2)
    ensures var w := StyleWrite(First, Style(b1, true, 1, z), ShowMillis);
      && w == Scheduled(|log|, pulled)
      && Consistent(log + [w], pulled, c, z, PrepareSecond, Some(w.style), s2, b1, b2)
      && (s2.None? || s2.value.zIndex < z)
  {
    var w := StyleWrite(First, Style(b1, true, 1, z), ShowMillis);
    IterationArith(c, 0);
    assert w == Scheduled(|log|, pulled);
    ScheduleExtends(log, pulled, w);
    LastStyleAppend(log, w, First);
    LastStyleAppend(log, w, Second);
    FadeInOnTop(log + [w], pulled);
  }

  /** Preparing slot 2 hidden with the newly pulled background `b` at the counter is the next
      scheduled write and keeps the fields consistent once the counter is bumped. */
  lemma PrepareSecondKeeps(log: seq<StyleWrite>, pulled: seq<Background>, b: Background, c: nat, z: int,
                           s1: Option<Style>, s2: Option<Style>, b1: Background, b2: Background)
    requires Consistent(log, pulled, c, z, PrepareSecond, s1, s2, b1, b2)
    ensures var w := StyleWrite(Second, Style(b, false, 0, z), HideMillis);
      && w == Scheduled(|log|, pulled + [b])
      && Consistent(log + [w], pulled + [b], c, z + 1, ShowSecond, s1, Some(w.style), b1, b)
  {
    var w := StyleWrite(Second, Style(b, false, 0, z), HideMillis);
    IterationArith(c, 1);
    assert (pulled + [b])[|pulled|] == b;
    assert w == Scheduled(|log|, pulled + [b]);
    ScheduleKeeps(log, pulled, pulled + [b]);
    ScheduleExtends(log, pulled + [b], w);
    LastStyleAppend(log, w, First);
    LastStyleAppend(log, w, Second);
  }

  /** Fading slot 2 in at the counter is the next scheduled write, keeps the fields consistent
      and puts slot 2 above slot 1. */
  lemma ShowSecondKeeps(log: seq<StyleWrite>, pulled: seq<Background>, c: nat, z: int,
                        s1: Option<Style>, s2: Option<Style>, b1: Background, b2: Background)
    requires Consistent(log, pulled, c, z, ShowSecond, s1, s2, b1, b2)
    ensures var w := StyleWrite(Second, Style(b2, true, 1, z), ShowMillis);
      && w == Scheduled(|log|, pulled)
      && Consistent(log + [w], pulled, c, z, PrepareFirst, s1, Some(w.style), b1, b2)
      && (s1.None? || s1.value.zIndex < z)
  {
    var w := StyleWrite(Second, Style(b2, true, 1, z), ShowMillis);
    IterationArith(c, 2);
    assert w == Scheduled(|log|, pulled);
    ScheduleExtends(log, pulled, w);
    LastStyleAppend(log, w, First);
    LastStyleAppend(log, w, Second);
    FadeInOnTop(log + [w], pulled);
  }

  /** Preparing slot 1 hidden with the newly pulled background `b` at the counter is the next
      scheduled write and keeps the fields consistent once the counter is bumped, completing
      an iteration. */
  lemma PrepareFirstKeeps(log: seq<StyleWrite>, pulled: seq<Background>, b: Background, c: nat, z: int,
                          s1: Option<Style>, s2: Option<Style>, b1: Background, b2: Background)
    requires Consistent(log, pulled, c, z, PrepareFirst, s1, s2, b1, b2)
    ensures var w := StyleWrite(First, Style(b, false, 0, z), HideMillis);
      && w == Scheduled(|log|, pulled + [b])
      && Consistent(log + [w], pulled + [b], c + 1, z + 1, ShowFirst, Some(w.style), s2, b, b2)
  {
    var w := StyleWrite(First, Style(b, false, 0, z), HideMillis);
    IterationArith(c, 3);
    assert (pulled + [b])[|pulled|] == b;
    assert w == Scheduled(|log|, pulled + [b]);
    ScheduleKeeps(log, pulled, pulled + [b]);
    ScheduleExtends(log, pulled + [b], w);
    LastStyleAppend(log, w, First);
    LastStyleAppend(log, w, Second);
  }

  class Controller {
    const backgrounds: Cursor
    var zIndex: int
    var background1: Background
    var background2: Background
    var slot1: Option<Style>
    var slot2: Option<Style>
    var phase: Phase
    /** Every style write so far, in order. */
    ghost var log: seq<StyleWrite>
    /** The number of loop iterations completed. */
    ghost var cycles: nat

    ghost predicate Valid()
      reads this, backgrounds
    {
      && backgrounds.Valid()
      && Consistent(log, backgrounds.Yielded, cycles, zIndex, phase, slot1, slot2, background1, background2)
    }

    /** The code before the loop: create the generator, start the counter at 0 and pull the
        first background. Both slots start without a style. */
    constructor (fetch: nat -> seq<Background>)
      requires Replenishes(fetch)
      ensures Valid() && fresh(backgrounds) && backgrounds.fetch == fetch
      ensures log == [] && phase == ShowFirst && zIndex == 0
      ensures slot1 == None && slot2 == None
      ensures |backgrounds.Yielded| == 1 && background1 == backgrounds.Yielded[0]
    {
      var cursor := new Cursor(fetch);
      var first := cursor.Next();
      backgrounds := cursor;
      zIndex := 0;
      background1, background2 := first, first;
      slot1, slot2 := None, None;
      phase := ShowFirst;
      log, cycles := [], 0;
    }

    /** `setBackground1Style` with a fade-in at the current counter; a 10 s wait follows. */
    method ShowFirstSlot() returns (delay: nat)
      requires Valid() && phase == ShowFirst
      modifies this
      ensures Valid() && phase == PrepareSecond
      ensures background1 == old(background1) && background2 == old(background2)
      ensures (|old(log)| + 1) / 2 < |backgrounds.Yielded|
      ensures log == old(log) + [Scheduled(|old(log)|, backgrounds.Yielded)]
      ensures delay == ShowMillis && zIndex == old(zIndex) && slot2 == old(slot2)
      ensures slot1 == Some(Style(background1, true, 1, zIndex))
      ensures slot2.None? || slot2.value.zIndex < slot1.value.zIndex
    {
      ShowFirstKeeps(log, backgrounds.Yielded, cycles, zIndex, slot1, slot2, background1, background2);
      var style := Style(background1, true, 1, zIndex);
      log := log + [StyleWrite(First, style, ShowMillis)];
      slot1 := Some(style);
      phase := PrepareSecond;
      delay := ShowMillis;
    }

    /** Pull the next background and `setBackground2Style` hidden at the current counter, then
        `zIndex++`; a 50 s wait follows. */
    method PrepareSecondSlot() returns (delay: nat)
      requires Valid() && phase == PrepareSecond
      modifies this, backgrounds
      ensures Valid() && phase == ShowSecond
      ensures background1 == old(background1)
      ensures backgrounds.Yielded == old(backgrounds.Yielded) + [background2]
      ensures log == old(log) + [Scheduled(|old(log)|, backgrounds.Yielded)]
      ensures delay == HideMillis && zIndex == old(zIndex) + 1 && slot1 == old(slot1)
      ensures slot2 == Some(Style(background2, false, 0, old(zIndex)))
    {
      ghost var pulled := backgrounds.Yielded;
      var b := backgrounds.Next();
      assert Pulled() == pulled;
      delay := HideSecond(b);
    }

    /** All backgrounds pulled before the one just pulled. */
    ghost function Pulled(): seq<Background>
      reads backgrounds
      requires |backgrounds.Yielded| > 0
    {
      backgrounds.Yielded[..|backgrounds.Yielded| - 1]
    }

    /** The rest of the second half iteration once `b` is pulled: `setBackground2Style` hidden
        with `b` at the current counter, then `zIndex++`. */
    method HideSecond(b: Background) returns (delay: nat)
      requires backgrounds.Valid() && phase == PrepareSecond
      requires |backgrounds.Yielded| > 0 && backgrounds.Yielded[|backgrounds.Yielded| - 1] == b
      requires Consistent(log, Pulled(), cycles, zIndex, phase, slot1, slot2, background1, background2)
      modifies this
      ensures Valid() && phase == ShowSecond && background2 == b
      ensures background1 == old(background1)
      ensures log == old(log) + [Scheduled(|old(log)|, backgrounds.Yielded)]
      ensures delay == HideMillis && zIndex == old(zIndex) + 1 && slot1 == old(slot1)
      ensures slot2 == Some(Style(b, false, 0, old(zIndex)))
    {
      PrepareSecondKeeps(log, Pulled(), b, cycles, zIndex, slot1, slot2, background1, background2);
      assert Pulled() + [b] == backgrounds.Yielded;
      var style := Style(b, false, 0, zIndex);
      log := log + [StyleWrite(Second, style, HideMillis)];
      background2, zIndex, slot2, phase := b, zIndex + 1, Some(style), ShowSecond;
      delay := HideMillis;
    }

    /** `setBackground2Style` with a fade-in at the counter just raised; a 10 s wait follows. */
    method ShowSecondSlot() returns (delay: nat)
      requires Valid() && phase == ShowSecond
      modifies this
      ensures Valid() && phase == PrepareFirst
      ensures background1 == old(background1) && background2 == old(background2)
      ensures (|old(log)| + 1) / 2 < |backgrounds.Yielded|
      ensures log == old(log) + [Scheduled(|old(log)|, backgrounds.Yielded)]
      ensures delay == ShowMillis && zIndex == old(zIndex) && slot1 == old(slot1)
      ensures slot2 == Some(Style(background2, true, 1, zIndex))
      ensures slot1.None? || slot1.value.zIndex < slot2.value.zIndex
    {
      ShowSecondKeeps(log, backgrounds.Yielded, cycles, zIndex, slot1, slot2, background1, background2);
      var style := Style(background2, true, 1, zIndex);
      log := log + [StyleWrite(Second, style, ShowMillis)];
      slot2 := Some(style);
      phase := PrepareFirst;
      delay := ShowMillis;
    }

    /** Pull the next background into `background1` and `setBackground1Style` hidden at the
        current counter, then `zIndex++`; a 50 s wait follows. */
    method PrepareFirstSlot() returns (delay: nat)
      requires Valid() && phase == PrepareFirst
      modifies this, backgrounds
      ensures Valid() && phase == ShowFirst
      ensures background2 == old(background2)
      ensures backgrounds.Yielded == old(backgrounds.Yielded) + [background1]
      ensures log == old(log) + [Scheduled(|old(log)|, backgrounds.Yielded)]
      ensures delay == HideMillis && zIndex == old(zIndex) + 1 && slot2 == old(slot2)
      ensures slot1 == Some(Style(background1, false, 0, old(zIndex)))
    {
      ghost var pulled := backgrounds.Yielded;
      var b := backgrounds.Next();
      assert Pulled() == pulled;
      delay := HideFirst(b);
    }

    /** The rest of the iteration once `b` is pulled: `setBackground1Style` hidden with `b` at
        the current counter, then `zIndex++`. */
    method HideFirst(b: Background) returns (delay: nat)
      requires backgrounds.Valid() && phase == PrepareFirst
      requires |backgrounds.Yielded| > 0 && backgrounds.Yielded[|backgrounds.Yielded| - 1] == b
      requires Consistent(log, Pulled(), cycles, zIndex, phase, slot1, slot2, background1, background2)
      modifies this
      ensures Valid() && phase == ShowFirst && background1 == b
      ensures background2 == old(background2)
      ensures log == old(log) + [Scheduled(|old(log)|, backgrounds.Yielded)]
      ensures delay == HideMillis && zIndex == old(zIndex) + 1 && slot2 == old(slot2)
      ensures slot1 == Some(Style(b, false, 0, old(zIndex)))
    {
      PrepareFirstKeeps(log, Pulled(), b, cycles, zIndex, slot1, slot2, background1, background2);
      assert Pulled() + [b] == backgrounds.Yielded;
      var style := Style(b, false, 0, zIndex);
      log, cycles := log + [StyleWrite(First, style, HideMillis)], cycles + 1;
      background1, zIndex, slot1, phase := b, zIndex + 1, Some(style), ShowFirst;
      delay := HideMillis;
    }

    /** Issue the next style write of the loop, whichever phase it is in. */
    method Step() returns (delay: nat)
      requires Valid()
      modifies this, backgrounds
      ensures Valid() && old(backgrounds.Yielded) <= backgrounds.Yielded
      ensures (|old(log)| + 1) / 2 < |backgrounds.Yielded|
      ensures log == old(log) + [Scheduled(|old(log)|, backgrounds.Yielded)]
      ensures delay == log[|log| - 1].delay
    {
      match phase {
        case ShowFirst => delay := ShowFirstSlot();
        case PrepareSecond => delay := PrepareSecondSlot();
        case ShowSecond => delay := ShowSecondSlot();
        case PrepareFirst => delay := PrepareFirstSlot();
      }
    }

    /** One round of the `while (true)` loop: fade slot 1 in, prepare slot 2, fade slot 2 in,
        prepare slot 1. */
    method Iteration() returns (elapsed: nat)
      requires Valid() && phase == ShowFirst
      modifies this, backgrounds
      ensures Valid() && phase == ShowFirst
      ensures zIndex == old(zIndex) + 2
      ensures |log| == |old(log)| + 4 && old(log) <= log
      ensures |backgrounds.Yielded| == |old(backgrounds.Yielded)| + 2 && old(backgrounds.Yielded) <= backgrounds.Yielded
      ensures elapsed == 120000
    {
      var wait := ShowFirstSlot();
      elapsed := wait;
      wait := PrepareSecondSlot();
      elapsed := elapsed + wait;
      wait := ShowSecondSlot();
      elapsed := elapsed + wait;
      wait := PrepareFirstSlot();
      elapsed := elapsed + wait;
    }

    /** `iterations` rounds of the `while (true)` loop: four style writes each, the counter up
        by two, two backgrounds pulled, two minutes of waiting. */
    method Run(iterations: nat) returns (elapsed: nat)
      requires Valid() && phase == ShowFirst
      modifies this, backgrounds
      ensures Valid() && phase == ShowFirst
      ensures zIndex == old(zIndex) + 2 * iterations
      ensures |log| == |old(log)| + 4 * iterations && old(log) <= log
      ensures |backgrounds.Yielded| == |old(backgrounds.Yielded)| + 2 * iterations
      ensures old(backgrounds.Yielded) <= backgrounds.Yielded
      ensures elapsed == 120000 * iterations
    {
      elapsed := 0;
      for n := 0 to iterations
        invariant Valid() && phase == ShowFirst
        invariant zIndex == old(zIndex) + 2 * n
        invariant |log| == |old(log)| + 4 * n && old(log) <= log
        invariant |backgrounds.Yielded| == |old(backgrounds.Yielded)| + 2 * n
        invariant old(backgrounds.Yielded) <= backgrounds.Yielded
        invariant elapsed == 120000 * n
      {
        var wait := Iteration();
        elapsed := elapsed + wait;
      }
    }
  }
}
