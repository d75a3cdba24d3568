// The first-run slides (components/Onboarding.tsx): a slide index moved by the NEXT
// button, by swipes and by the SKIP button, and the exit that ends the tour.

module Onboarding {

  /** The number of slides in the tour. */
  const SlideCount: nat := 4

  /** Horizontal travel, in pixels, that a touch must exceed to count as a swipe. */
  const SwipeThreshold: int := 50

  const StartLabel := "START JOURNEY"
  const NextLabel := "NEXT"

  /** What the tour shows: the slide index and whether the exit fade has begun. */
  datatype Screen = Screen(index: nat, exiting: bool)

  /** Inputs the tour reacts to. A swipe carries the touch's start and end X positions. */
  datatype Event = NextPressed | PrevPressed | SkipPressed | Swipe(startX: int, endX: int)

  /** The tour before any input. */
  function Start(): (s: Screen)
    ensures s.index == 0 && !s.exiting
  {
    Screen(0, false)
  }

  predicate InRange(s: Screen)
  {
    s.index < SlideCount
  }

  /** `handleComplete`: the fade begins; the slide stays where it is. */
  function Complete(s: Screen): Screen
  {
    Screen(s.index, true)
  }

  /** `handleNext`: forward one slide, or, on the last slide, the exit. */
  function Next(s: Screen): (r: Screen)
    ensures s.index + 1 < SlideCount ==> r == Screen(s.index + 1, s.exiting)
    ensures s.index + 1 >= SlideCount ==> r == Screen(s.index, true)
  {
    if s.index < SlideCount - 1 then Screen(s.index + 1, s.exiting) else Complete(s)
  }

  /** `handlePrev`: back one slide, except on the first. */
  function Prev(s: Screen): (r: Screen)
    ensures s.index > 0 ==> r == Screen(s.index - 1, s.exiting)
    ensures s.index == 0 ==> r == s
  {
    if s.index > 0 then Screen(s.index - 1, s.exiting) else s
  }

  /** The reading of a touch that `handleTouchEnd` makes. */
  datatype Gesture = Ignored | Forward | Back

  /** `diff = start - end`: more than the threshold to the left goes forward, more than
      the threshold to the right goes back, anything shorter is ignored. */
  function SwipeGesture(startX: int, endX: int): (g: Gesture)
    ensures g == Forward <==> startX - endX > SwipeThreshold
    ensures g == Back <==> endX - startX > SwipeThreshold
    ensures g == Ignored <==> -SwipeThreshold <= startX - endX <= SwipeThreshold
  {
    var diff := startX - endX;
    var magnitude := if diff < 0 then -diff else diff;
    if magnitude > SwipeThreshold then (if diff > 0 then Forward else Back) else Ignored
  }

  /** One input applied to the tour. */
  function Step(s: Screen, e: Event): Screen
  {
    match e
    case NextPressed => Next(s)
    case PrevPressed => Prev(s)
    case SkipPressed => Complete(s)
    case Swipe(a, b) =>
      match SwipeGesture(a, b)
      case Forward => Next(s)
      case Back => Prev(s)
      case Ignored => s
  }

  /** Does this input begin the exit (and with it, half a second later, `onComplete`)? */
  predicate Completes(s: Screen, e: Event)
  {
    !s.exiting && Step(s, e).exiting
  }

  /** Inputs applied in order. */
  function Run(s: Screen, events: seq<Event>): Screen
    decreases events
  {
    if events == [] then s else Run(Step(s, events[0]), events[1..])
  }

  /** Each input keeps the index on a slide, and the index never jumps by more than one. */
  lemma StepInRange(s: Screen, e: Event)
    requires InRange(s)
    ensures InRange(Step(s, e))
    ensures Step(s, e).index == s.index || Step(s, e).index == s.index + 1 || Step(s, e).index + 1 == s.index
  {
  }

  /** Whatever inputs arrive, the index stays within the slides. */
  lemma {:induction false} RunInRange(s: Screen, events: seq<Event>)
    requires InRange(s)
    ensures InRange(Run(s, events))
    decreases events
  {
    if events != [] {
      StepInRange(s, events[0]);
      RunInRange(Step(s, events[0]), events[1..]);
    }
  }

  /** Once the fade has begun it is never undone. */
  lemma {:induction false} ExitIsFinal(s: Screen, events: seq<Event>)
    requires s.exiting
    ensures Run(s, events).exiting
    decreases events
  {
    if events != [] {
      ExitIsFinal(Step(s, events[0]), events[1..]);
    }
  }

  /** The tour ends by NEXT only from the last slide, and by SKIP from any slide; going back
      or a short touch never ends it. */
  lemma CompletionRules(s: Screen, e: Event)
    requires InRange(s) && !s.exiting
    ensures e == NextPressed ==> (Completes(s, e) <==> s.index == SlideCount - 1)
    ensures e == SkipPressed ==> Completes(s, e)
    ensures e == PrevPressed ==> !Completes(s, e)
    ensures e.Swipe? && SwipeGesture(e.startX, e.endX) != Forward ==> !Completes(s, e)
  {
  }

  /** Pressing NEXT SlideCount - 1 times walks from the first slide to the last; one more
      press begins the exit. */
  lemma {:induction false} NextWalksToEnd(s: Screen, k: nat)
    requires s.index + k < SlideCount
    ensures Run(s, Presses(k)) == Screen(s.index + k, s.exiting)
    decreases k
  {
    if k > 0 {
      assert Presses(k)[0] == NextPressed && Presses(k)[1..] == Presses(k - 1);
      NextWalksToEnd(Screen(s.index + 1, s.exiting), k - 1);
    }
  }

  /** `k` presses of NEXT. */
  function Presses(k: nat): (r: seq<Event>)
    ensures |r| == k && forall i :: 0 <= i < k ==> r[i] == NextPressed
  {
    if k == 0 then [] else [NextPressed] + Presses(k - 1)
  }

  /** The button reads START JOURNEY exactly on the last slide, NEXT elsewhere. */
  function ButtonLabel(index: nat): (caption: string)
    ensures caption == StartLabel <==> index == SlideCount - 1
    ensures caption == NextLabel <==> index != SlideCount - 1
  {
    if index == SlideCount - 1 then StartLabel else NextLabel
  }

  /** The component's state: the slide index, the exit flag and the touch start position. */
  class Tour {
    var currentIndex: nat
    var isExiting: bool
    var touchStartX: int

    predicate Valid()
      reads this
    {
      currentIndex < SlideCount
    }

    function Shown(): Screen
      reads this
    {
      Screen(currentIndex, isExiting)
    }

    constructor ()
      ensures Valid() && Shown() == Start() && touchStartX == 0
    {
      currentIndex := 0;
      isExiting := false;
      touchStartX := 0;
    }

    /** `handleNext`. `completes` reports that `onComplete` was scheduled. */
    method HandleNext() returns (completes: bool)
      requires Valid()
      modifies this
      ensures Valid()
      ensures Shown() == Step(old(Shown()), NextPressed)
      ensures completes <==> old(currentIndex) == SlideCount - 1
      ensures touchStartX == old(touchStartX)
    {
      completes := false;
      if currentIndex < SlideCount - 1 {
        currentIndex := currentIndex + 1;
      } else {
        completes := HandleComplete();
      }
    }

    /** `handlePrev`. */
    method HandlePrev()
      requires Valid()
      modifies this
      ensures Valid()
      ensures Shown() == Step(old(Shown()), PrevPressed)
      ensures touchStartX == old(touchStartX)
    {
      if currentIndex > 0 {
        currentIndex := currentIndex - 1;
      }
    }

    /** `handleComplete`, also the SKIP button: the fade begins and `onComplete` is
        scheduled (every call schedules it). */
    method HandleComplete() returns (completes: bool)
      modifies this
      ensures Shown() == Step(old(Shown()), SkipPressed)
      ensures completes
      ensures touchStartX == old(touchStartX)
    {
      isExiting := true;
      completes := true;
    }

    /** `handleTouchStart`: remember where the touch began. */
    method HandleTouchStart(x: int)
      modifies this
      ensures touchStartX == x && Shown() == old(Shown())
    {
      touchStartX := x;
    }

    /** `handleTouchEnd`: a long enough swipe acts as NEXT or as the back gesture. */
    method HandleTouchEnd(x: int) returns (completes: bool)
      requires Valid()
      modifies this
      ensures Valid()
      ensures Shown() == Step(old(Shown()), Swipe(old(touchStartX), x))
      ensures completes <==> SwipeGesture(old(touchStartX), x) == Forward && old(currentIndex) == SlideCount - 1
      ensures touchStartX == old(touchStartX)
    {
      completes := false;
      var diff := touchStartX - x;
      var magnitude := if diff < 0 then -diff else diff;
      if magnitude > SwipeThreshold {
        if diff > 0 {
          completes := HandleNext();
        } else {
          HandlePrev();
        }
      }
    }
  }
}
