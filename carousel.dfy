/**
  The instructor carousel of the Instructors section: six state cells over a
  circular list of `n` members, a click handler that plans a step forward or
  backward and takes the animation lock, the timeline's completion callback
  that commits the plan and releases the lock, and the effect that recomputes
  the two off-screen buffers once the carousel is at rest.

  The pure functions below (AfterNav, AfterComplete, AfterSettle) are the
  specification of the three state-changing methods of class Navigator; the
  lemmas state what the component promises about them.
*/
module Carousel {
  import opened Wrappers

  /** Which half of the window the pointer was last seen in. */
  datatype Side = Left | Right

  /**
    What the click handler hands to its animation timeline: the direction and
    the two indices the completion callback will commit.
  */
  datatype Plan = Plan(forward: bool, newMain: nat, newSecondary: nat)

  /** The six state cells of the component, as one value. */
  datatype View = View(
    current: nat,      // main slot
    secondary: nat,    // side slot
    nextBuffer: nat,   // comes in on a forward step
    prevBuffer: nat,   // comes in on a backward step
    animating: bool,   // the transition lock
    side: Side)        // last known cursor side

  /** The cursor side for pointer abscissa `x` in a window `width` wide:
      left exactly when `x` lies strictly before the middle. */
  function SideOf(x: int, width: int): (s: Side)
    ensures s == Left <==> (x as real) < (width as real) / 2.0
  {
    if 2 * x < width then Left else Right
  }

  /** Every index names a member. */
  ghost predicate InRange(v: View, n: nat)
  {
    v.current < n && v.secondary < n && v.nextBuffer < n && v.prevBuffer < n
  }

  /** The state right after mounting with `n` members. */
  function Initial(n: nat): (v: View)
    requires n >= 1
    ensures InRange(v, n) && !v.animating && v.side == Right
    ensures v.current == 0 && (n >= 2 ==> v.secondary == 1) && (n == 1 ==> v.secondary == 0)
  {
    var secondary := if n > 1 then 1 else 0;
    View(0, secondary, (secondary + 1) % n, (0 - 1 + n) % n, false, Right)
  }

  /** A click is acted on only when no transition is running and there are
      at least two members. */
  predicate Accepts(v: View, n: nat)
  {
    !v.animating && n >= 2
  }

  /** The plan a click makes from state `v`. */
  function PlanOf(v: View): Plan
  {
    if v.side == Right then Plan(true, v.secondary, v.nextBuffer)
    else Plan(false, v.prevBuffer, v.current)
  }

  /** The plan handed to the timeline, if the click is acted on. */
  function NavPlan(v: View, n: nat): Option<Plan>
  {
    if Accepts(v, n) then Some(PlanOf(v)) else None
  }

  /** The state after a click: only the lock changes. */
  function AfterNav(v: View, n: nat): View
  {
    if Accepts(v, n) then v.(animating := true) else v
  }

  /** The state after the timeline's completion callback for plan `p`. */
  function AfterComplete(v: View, p: Plan): View
  {
    v.(current := p.newMain, secondary := p.newSecondary, animating := false)
  }

  /** The state after the buffer effect has run. */
  function AfterSettle(v: View, n: nat): View
    requires n >= 1
  {
    if v.animating then v
    else v.(nextBuffer := (v.secondary + 1) % n, prevBuffer := (v.current - 1 + n) % n)
  }

  // ---------------------------------------------------------------------
  // Settled steps: a pointer position, a click, the completion callback and
  // the buffer effect, in that order.
  // ---------------------------------------------------------------------

  /** The state at rest with member `c` in the main slot: the side slot shows
      the member after it and both buffers are up to date. */
  function Rest(c: nat, n: nat, side: Side): (v: View)
    requires c < n
    ensures InRange(v, n) && !v.animating && v.current == c
    ensures v.secondary == (c + 1) % n && v.nextBuffer == (v.secondary + 1) % n
    ensures v.prevBuffer == (c - 1 + n) % n && v.side == side
  {
    View(c, (c + 1) % n, ((c + 1) % n + 1) % n, (c - 1 + n) % n, false, side)
  }

  /** One click with the pointer on `side`, run to completion and settled. */
  function Step(v: View, n: nat, side: Side): View
    requires n >= 1
  {
    var moved := v.(side := side);
    match NavPlan(moved, n)
    case None => AfterNav(moved, n)
    case Some(p) => AfterSettle(AfterComplete(AfterNav(moved, n), p), n)
  }

  /** Settled steps, one per pointer side in `sides`. */
  function Steps(v: View, n: nat, sides: seq<Side>): View
    requires n >= 1
    decreases |sides|
  {
    if sides == [] then v else Steps(Step(v, n, sides[0]), n, sides[1..])
  }

  /** Forward steps minus backward steps. */
  function Net(sides: seq<Side>): int
    decreases |sides|
  {
    if sides == [] then 0
    else (if sides[0] == Right then 1 else -1) + Net(sides[1..])
  }

  /** The side of the last step, or `side` when there is none. */
  function LastSide(side: Side, sides: seq<Side>): Side
  {
    if sides == [] then side else sides[|sides| - 1]
  }

  /** A click while a transition runs, or with fewer than two members, is
      swallowed: no plan and no change at all. */
  lemma RejectedClickChangesNothing(v: View, n: nat)
    requires v.animating || n < 2
    ensures NavPlan(v, n) == None && AfterNav(v, n) == v
  {
  }

  /** An accepted click takes the lock and changes nothing else; the
      completion commits the plan and releases the lock. */
  lemma AcceptedClickLocks(v: View, n: nat)
    requires !v.animating && n >= 2
    ensures NavPlan(v, n).Some? && AfterNav(v, n) == v.(animating := true)
    ensures AfterComplete(AfterNav(v, n), PlanOf(v)).animating == false
    ensures AfterComplete(AfterNav(v, n), PlanOf(v)).current == PlanOf(v).newMain
    ensures AfterComplete(AfterNav(v, n), PlanOf(v)).secondary == PlanOf(v).newSecondary
  {
  }

  /** Forward promotes the side slot and the next buffer; backward promotes
      the previous buffer and demotes the main slot. */
  lemma PlanByDirection(v: View)
    ensures v.side == Right ==> PlanOf(v) == Plan(true, v.secondary, v.nextBuffer)
    ensures v.side == Left ==> PlanOf(v) == Plan(false, v.prevBuffer, v.current)
  {
  }

  /** The pointer exactly on the middle of the window counts as the right
      half, so the click goes forward. */
  lemma MidpointGoesForward(v: View, x: int, width: int)
    requires 2 * x == width
    ensures SideOf(x, width) == Right
    ensures PlanOf(v.(side := SideOf(x, width))).forward
  {
  }

  /** A click, its completion and the effect keep every index in range. */
  lemma StepsKeepRange(v: View, n: nat, p: Plan)
    requires n >= 1 && InRange(v, n)
    ensures InRange(AfterNav(v, n), n)
    ensures InRange(AfterSettle(v, n), n)
    ensures NavPlan(v, n).Some? ==> NavPlan(v, n).value.newMain < n && NavPlan(v, n).value.newSecondary < n
    ensures p.newMain < n && p.newSecondary < n ==> InRange(AfterComplete(v, p), n)
  {
  }

  /** Mounting yields the rest state of member 0, with the cursor on the right. */
  lemma {:induction false} InitialIsAtRest(n: nat)
    requires n >= 1
    ensures Initial(n) == Rest(0, n, Right)
  {
    if n == 1 {
      assert (0 + 1) % 1 == 0;
    } else {
      assert (0 + 1) % n == 1;
    }
  }

  /** A forward step from rest is the rest state of the following member. */
  lemma ForwardFromRest(c: nat, n: nat, side: Side)
    requires n >= 2 && c < n
    ensures Step(Rest(c, n, side), n, Right) == Rest((c + 1) % n, n, Right)
  {
  }

  /** A backward step from rest is the rest state of the preceding member:
      the old main member becomes the side member. */
  lemma {:induction false} BackwardFromRest(c: nat, n: nat, side: Side)
    requires n >= 2 && c < n
    ensures Step(Rest(c, n, side), n, Left) == Rest((c - 1 + n) % n, n, Left)
  {
    var c' := (c - 1 + n) % n;
    if c == 0 {
      ModUnique(c - 1 + n, n, 0, n - 1);
      ModUnique(c' + 1, n, 1, 0);
    } else {
      ModUnique(c - 1 + n, n, 1, c - 1);
      ModUnique(c' + 1, n, 0, c);
    }
    assert (c' + 1) % n == c;
  }

  /** Two settled steps in a row. */
  lemma TwoSteps(v: View, n: nat, a: Side, b: Side)
    requires n >= 1
    ensures Steps(v, n, [a, b]) == Step(Step(v, n, a), n, b)
  {
    assert [a, b][1..] == [b];
    assert Steps(v, n, [a, b]) == Steps(Step(v, n, a), n, [b]);
    assert [b][1..] == [];
    assert Steps(Step(v, n, a), n, [b]) == Steps(Step(Step(v, n, a), n, b), n, []);
  }

  /** Forward then backward returns to the same main and side members. */
  lemma {:induction false} ForwardThenBackward(c: nat, n: nat, side: Side)
    requires n >= 2 && c < n
    ensures Steps(Rest(c, n, side), n, [Right, Left]) == Rest(c, n, Left)
  {
    TwoSteps(Rest(c, n, side), n, Right, Left);
    ForwardFromRest(c, n, side);
    var c' := (c + 1) % n;
    BackwardFromRest(c', n, Right);
    assert (c' - 1 + n) % n == c by {
      ModShift(c + 1, n - 1, n);
      ModAddN(c, n);
      ModUnique(c, n, 0, c);
    }
  }

  /** Backward then forward returns to the same main and side members. */
  lemma {:induction false} BackwardThenForward(c: nat, n: nat, side: Side)
    requires n >= 2 && c < n
    ensures Steps(Rest(c, n, side), n, [Left, Right]) == Rest(c, n, Right)
  {
    TwoSteps(Rest(c, n, side), n, Left, Right);
    BackwardFromRest(c, n, side);
    var c' := (c - 1 + n) % n;
    ForwardFromRest(c', n, Left);
    assert (c' + 1) % n == c by {
      ModShift(c - 1 + n, 1, n);
      ModAddN(c, n);
      ModUnique(c, n, 0, c);
    }
  }

  /** The main member after one settled step from rest on member `c`. */
  function Moved(c: nat, n: nat, side: Side): (m: nat)
    requires c < n
    ensures m < n
  {
    if side == Right then (c + 1) % n else (c - 1 + n) % n
  }

  /** One settled step from rest, in either direction, is again at rest. */
  lemma StepFromRest(c: nat, n: nat, from: Side, side: Side)
    requires n >= 2 && c < n
    ensures Step(Rest(c, n, from), n, side) == Rest(Moved(c, n, side), n, side)
  {
    if side == Right {
      ForwardFromRest(c, n, from);
    } else {
      BackwardFromRest(c, n, from);
    }
  }

  /** After any sequence of settled clicks from rest, the carousel is again
      at rest (side slot = main + 1 mod n, buffers fresh), and the main slot
      has moved by the number of forward steps minus backward steps, mod n. */
  lemma {:induction false} StepsFromRest(c: nat, n: nat, side: Side, sides: seq<Side>)
    requires n >= 2 && c < n
    ensures Steps(Rest(c, n, side), n, sides) == Rest((c + Net(sides)) % n, n, LastSide(side, sides))
    decreases |sides|
  {
    if sides == [] {
      ModUnique(c, n, 0, c);
    } else {
      var c' := Moved(c, n, sides[0]);
      StepFromRest(c, n, side, sides[0]);
      assert Steps(Rest(c, n, side), n, sides) == Steps(Rest(c', n, sides[0]), n, sides[1..]);
      StepsFromRest(c', n, sides[0], sides[1..]);
      var k := Net(sides[1..]);
      assert Net(sides) == (if sides[0] == Right then 1 else -1) + k;
      ShiftAfterStep(c, n, sides[0], k);
      assert (c' + k) % n == (c + Net(sides)) % n;
      assert LastSide(sides[0], sides[1..]) == LastSide(side, sides);
    }
  }

  /** Moving one step and then `k` more is moving `k` ± 1 at once, mod n. */
  lemma ShiftAfterStep(c: nat, n: nat, first: Side, k: int)
    requires n >= 1 && c < n
    ensures ((if first == Right then (c + 1) % n else (c - 1 + n) % n) + k) % n
      == (c + (if first == Right then 1 else -1) + k) % n
  {
    if first == Right {
      ModShift(c + 1, k, n);
    } else {
      ModShift(c - 1 + n, k, n);
      ModAddN(c - 1 + k, n);
    }
  }

  /** A product with a non-zero factor `d` is at least `n` away from zero. */
  lemma {:induction false} MulAwayFromZero(d: int, n: nat)
    requires n >= 1
    ensures d >= 1 ==> d * n >= n
    ensures d <= -1 ==> d * n + n <= 0
    decreases if d < 0 then -d else d
  {
    if d > 1 {
      MulAwayFromZero(d - 1, n);
      assert d * n == (d - 1) * n + n;
    } else if d < -1 {
      MulAwayFromZero(d + 1, n);
      assert d * n == (d + 1) * n - n;
    }
  }

  /** The remainder is the unique `r` in [0, n) with `a == q * n + r`. */
  lemma ModUnique(a: int, n: nat, q: int, r: int)
    requires n >= 1 && 0 <= r < n && a == q * n + r
    ensures a % n == r
  {
    var q0, r0 := a / n, a % n;
    assert a == q0 * n + r0;
    assert (q - q0) * n == r0 - r;
    MulAwayFromZero(q - q0, n);
  }

  /** `(a mod n + k) mod n == (a + k) mod n` */
  lemma ModShift(a: int, k: int, n: nat)
    requires n >= 1
    ensures (a % n + k) % n == (a + k) % n
  {
    var q, r := a / n, a % n;
    var q2, r2 := (r + k) / n, (r + k) % n;
    assert a == q * n + r;
    assert r + k == q2 * n + r2;
    assert a + k == (q + q2) * n + r2;
    ModUnique(a + k, n, q + q2, r2);
  }

  /** `(a + n) mod n == a mod n` */
  lemma ModAddN(a: int, n: nat)
    requires n >= 1
    ensures (a + n) % n == a % n
  {
    var q, r := a / n, a % n;
    assert a == q * n + r;
    assert a + n == (q + 1) * n + r;
    ModUnique(a + n, n, q + 1, r);
  }

  /** With a single member every click is swallowed: the indices never move. */
  lemma {:induction false} SingleMemberNeverMoves(v: View, sides: seq<Side>)
    ensures var w := Steps(v, 1, sides);
      w.current == v.current && w.secondary == v.secondary && w.animating == v.animating
      && w.nextBuffer == v.nextBuffer && w.prevBuffer == v.prevBuffer
    decreases |sides|
  {
    if sides != [] {
      SingleMemberNeverMoves(Step(v, 1, sides[0]), sides[1..]);
    }
  }

  /** Five members, starting at rest on member 0: one forward step shows
      members 1 and 2 with buffers 3 and 0; one backward step shows members
      4 and 0 with buffers 1 and 3. */
  lemma FiveMemberScenarios()
    ensures var f := Step(Initial(5), 5, Right);
      f.current == 1 && f.secondary == 2 && f.nextBuffer == 3 && f.prevBuffer == 0
    ensures var b := Step(Initial(5), 5, Left);
      b.current == 4 && b.secondary == 0 && b.nextBuffer == 1 && b.prevBuffer == 3
  {
  }

  /** Two members: one forward step swaps the slots, a second one swaps them back. */
  lemma TwoMemberRoundTrip()
    ensures var one := Step(Initial(2), 2, Right);
      one.current == 1 && one.secondary == 0
    ensures var two := Steps(Initial(2), 2, [Right, Right]);
      two.current == 0 && two.secondary == 1
  {
    assert [Right, Right][1..] == [Right];
  }

  /** The class lets a click through between the completion callback and the
      buffer effect, as the component does: a click handled before the effect
      has re-rendered still sees the old buffers. With five members, a
      backward step followed by such an early forward click ends on member 0
      with member 2, not member 1, in the side slot. */
  lemma ClickBeforeSettleSkipsAMember()
    ensures var back := Initial(5).(side := Left);
      var early := AfterComplete(AfterNav(back, 5), PlanOf(back)).(side := Right);
      var w := AfterSettle(AfterComplete(AfterNav(early, 5), PlanOf(early)), 5);
      w.current == 0 && w.secondary == 2 && w.secondary != (w.current + 1) % 5
  {
  }

  /**
    The stored component state. `n` is the number of members; the member
    records themselves are only rendered, so only their count is kept.
  */
  class Navigator {
    const n: nat
    var current: nat
    var secondary: nat
    var nextBuffer: nat
    var prevBuffer: nat
    var isAnimating: bool
    var cursorSide: Side

    function State(): View
      reads this
    {
      View(current, secondary, nextBuffer, prevBuffer, isAnimating, cursorSide)
    }

    ghost predicate Valid()
      reads this
    {
      n >= 1 && InRange(State(), n)
    }

    /** Mounting with `count` members; an empty list renders nothing. */
    constructor (count: nat)
      requires count >= 1
      ensures n == count && Valid()
      ensures State() == Initial(count)
    {
      n := count;
      current := 0;
      secondary := if count > 1 then 1 else 0;
      nextBuffer := ((if count > 1 then 1 else 0) + 1) % count;
      prevBuffer := (0 - 1 + count) % count;
      isAnimating := false;
      cursorSide := Right;
    }

    /** The mouse-move handler: records which half of the window the pointer is in. */
    method PointerMove(x: int, width: int)
      requires Valid()
      modifies this
      ensures Valid()
      ensures State() == old(State()).(side := SideOf(x, width))
    {
      cursorSide := SideOf(x, width);
    }

    /** The click handler: returns the plan given to the timeline, or None
        when the click is swallowed. */
    method Nav() returns (plan: Option<Plan>)
      requires Valid()
      modifies this
      ensures Valid()
      ensures State() == AfterNav(old(State()), n)
      ensures plan == NavPlan(old(State()), n)
      ensures plan.Some? ==> plan.value.newMain < n && plan.value.newSecondary < n
    {
      if isAnimating || n < 2 {
        return None;
      }
      isAnimating := true;
      var isNext := cursorSide == Right;
      var newMain := if isNext then secondary else prevBuffer;
      var newSecondary := if isNext then nextBuffer else current;
      plan := Some(Plan(isNext, newMain, newSecondary));
    }

    /** The timeline's completion callback for the plan `p` it was built with. */
    method Complete(p: Plan)
      requires Valid()
      requires p.newMain < n && p.newSecondary < n
      modifies this
      ensures Valid()
      ensures State() == AfterComplete(old(State()), p)
    {
      current := p.newMain;
      secondary := p.newSecondary;
      isAnimating := false;
    }

    /** The buffer effect: recomputes both buffers when no transition runs. */
    method Settle()
      requires Valid()
      modifies this
      ensures Valid()
      ensures State() == AfterSettle(old(State()), n)
    {
      if isAnimating {
        return;
      }
      nextBuffer := (secondary + 1) % n;
      prevBuffer := (current - 1 + n) % n;
    }
  }
}
