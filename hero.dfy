/** The hero banner: a carousel over a fixed list of slides. A periodic timer
    advances the current slide with wrap-around, a row of indicator dots lets
    the visitor jump to any slide (the timer keeps running, so the next tick
    moves on from the chosen slide), and unmounting the banner stops the timer. */
module HeroCarousel {

  /** One banner slide. Its overlay opacity is not part of this model. */
  datatype Slide = Slide(title: string, subtitle: string, image: string)

  /** The slides, in display order. */
  const Slides: seq<Slide> := [
    Slide("Engineering Excellence", "Delivering Smart MEP Solutions", "./mepsolutions.webp"),
    Slide("Precision Engineering", "Building Tomorrow's Infrastructure Today", "./mepsolutions1.webp"),
    Slide("Powering Innovation", "Engineering the Future with Smart Solutions",
          "https://images.unsplash.com/photo-1497366216548-37526070297c?w=1920&q=80")
  ]

  /** The slide a timer tick moves to from slide `i`: the following one, and
      back to the first after the last. */
  function Next(i: nat): (j: nat)
    ensures j < |Slides|
    ensures i < |Slides| - 1 ==> j == i + 1
    ensures i == |Slides| - 1 ==> j == 0
  {
    (i + 1) % |Slides|
  }

  /** The slide reached from `start` after `n` ticks. */
  function AfterTicks(start: nat, n: nat): nat
  {
    if n == 0 then start else Next(AfterTicks(start, n - 1))
  }

  /** `n` ticks from slide `start` land on slide `(start + n) mod 3`. */
  lemma {:induction false} AfterTicksWraps(start: nat, n: nat)
    requires start < |Slides|
    ensures AfterTicks(start, n) == (start + n) % |Slides|
  {
    if n > 0 {
      AfterTicksWraps(start, n - 1);
      var m := start + n - 1;
      assert (m % 3 + 1) % 3 == (m + 1) % 3 by {
        assert m == 3 * (m / 3) + m % 3;
      }
    }
  }

  /** With no manual jump, `n` ticks after mount show slide `n mod 3`:
      0, 1, 2, 0, 1, ... */
  lemma {:induction false} TicksFromMount(n: nat)
    ensures AfterTicks(0, n) == n % |Slides|
    ensures Run(Mounted, seq(n, i => Tick)) == Carousel(n % |Slides|, true)
  {
    AfterTicksWraps(0, n);
    TicksOnly(Mounted, n);
  }

  /** Which indicator dots are highlighted while slide `current` is shown. */
  function Indicators(current: nat): (dots: seq<bool>)
    ensures |dots| == |Slides|
    ensures forall i :: 0 <= i < |dots| ==> (dots[i] <==> i == current)
  {
    seq(|Slides|, i => i == current)
  }

  /** How many entries of `bs` are true. */
  function CountTrue(bs: seq<bool>): nat
  {
    if bs == [] then 0 else (if bs[0] then 1 else 0) + CountTrue(bs[1..])
  }

  lemma {:induction false} CountTrueSingle(bs: seq<bool>, k: nat)
    requires k < |bs|
    requires forall i :: 0 <= i < |bs| ==> (bs[i] <==> i == k)
    ensures CountTrue(bs) == 1
  {
    if k == 0 {
      CountTrueNone(bs[1..]);
    } else {
      CountTrueSingle(bs[1..], k - 1);
    }
  }

  lemma {:induction false} CountTrueNone(bs: seq<bool>)
    requires forall i :: 0 <= i < |bs| ==> !bs[i]
    ensures CountTrue(bs) == 0
  {
    if bs != [] {
      CountTrueNone(bs[1..]);
    }
  }

  /** Whenever the current slide is a valid index, exactly one dot is
      highlighted, the one for the current slide. */
  lemma ExactlyOneDotActive(current: nat)
    requires current < |Slides|
    ensures CountTrue(Indicators(current)) == 1
    ensures Indicators(current)[current]
  {
    CountTrueSingle(Indicators(current), current);
  }

  /** What can happen to the carousel. */
  datatype Event =
    | Tick              // the interval timer fires
    | DotClick(k: nat)  // the visitor clicks the k-th dot
    | Teardown          // the banner is unmounted and the timer cleared

  /** The current slide and whether the timer is still running. */
  datatype Carousel = Carousel(current: nat, running: bool)

  /** The carousel right after mounting: first slide, timer running. */
  const Mounted: Carousel := Carousel(0, true)

  function Step(c: Carousel, e: Event): Carousel
  {
    match e
    case Tick => if c.running then c.(current := Next(c.current)) else c
    case DotClick(k) => c.(current := k)
    case Teardown => c.(running := false)
  }

  function Run(c: Carousel, es: seq<Event>): Carousel
    decreases |es|
  {
    if es == [] then c else Run(Step(c, es[0]), es[1..])
  }

  /** Every dot of the indicator row names an existing slide. */
  predicate DotsInRange(es: seq<Event>)
  {
    forall i :: 0 <= i < |es| && es[i].DotClick? ==> es[i].k < |Slides|
  }

  /** The current slide is a valid index after any mix of ticks, dot clicks
      and teardown. */
  lemma {:induction false} CurrentInRange(c: Carousel, es: seq<Event>)
    requires c.current < |Slides|
    requires DotsInRange(es)
    ensures Run(c, es).current < |Slides|
    decreases |es|
  {
    if es != [] {
      assert DotsInRange(es[1..]) by {
        forall i | 0 <= i < |es[1..]| && es[1..][i].DotClick?
          ensures es[1..][i].k < |Slides|
        {
          assert es[1..][i] == es[i + 1];
        }
      }
      CurrentInRange(Step(c, es[0]), es[1..]);
    }
  }

  /** A jump does not stop the timer: after clicking dot `k`, the next tick
      shows slide `(k + 1) mod 3`. */
  lemma JumpThenTick(c: Carousel, k: nat)
    requires c.running && k < |Slides|
    ensures Run(c, [DotClick(k), Tick]).current == (k + 1) % |Slides|
    ensures Run(c, [DotClick(k), Tick]).running
  {
    var es := [DotClick(k), Tick];
    var jumped := Step(c, DotClick(k));
    assert es[1..] == [Tick] && [Tick][1..] == [];
    assert Run(c, es) == Run(jumped, [Tick]) == Step(jumped, Tick);
  }

  /** Once the banner is torn down, ticks change nothing. */
  lemma {:induction false} TornDownIsFrozen(c: Carousel, n: nat)
    requires !c.running
    ensures Run(c, seq(n, i => Tick)) == c
  {
    if n > 0 {
      assert seq(n, i => Tick)[1..] == seq(n - 1, i => Tick);
      TornDownIsFrozen(c, n - 1);
    }
  }

  /** With only ticks, the event run agrees with counting ticks. */
  lemma {:induction false} TicksOnly(c: Carousel, n: nat)
    requires c.running
    ensures Run(c, seq(n, i => Tick)) == Carousel(AfterTicks(c.current, n), true)
    decreases n
  {
    if n > 0 {
      assert seq(n, i => Tick)[1..] == seq(n - 1, i => Tick);
      TicksOnly(Step(c, Tick), n - 1);
      AfterTicksShift(c.current, n - 1);
    }
  }

  /** Ticking once and then `n` times is ticking `n + 1` times. */
  lemma {:induction false} AfterTicksShift(start: nat, n: nat)
    ensures AfterTicks(Next(start), n) == AfterTicks(start, n + 1)
  {
    if n > 0 {
      AfterTicksShift(start, n - 1);
    }
  }

  /** The in-place banner component. */
  class HeroBanner {
    var currentSlide: nat
    /** Whether the interval timer is still installed. */
    var timerRunning: bool

    ghost predicate Valid()
      reads this
    {
      currentSlide < |Slides|
    }

    function State(): Carousel
      reads this
    {
      Carousel(currentSlide, timerRunning)
    }

    /** Mounting shows the first slide and starts the timer. */
    constructor ()
      ensures Valid()
      ensures currentSlide == 0 && timerRunning
      ensures State() == Mounted
    {
      currentSlide, timerRunning := 0, true;
    }

    /** The interval callback; after teardown it no longer fires. */
    method Tick()
      requires Valid()
      modifies this
      ensures Valid()
      ensures timerRunning == old(timerRunning)
      ensures currentSlide == if timerRunning then Next(old(currentSlide)) else old(currentSlide)
      ensures State() == Step(old(State()), Event.Tick)
    {
      if timerRunning {
        currentSlide := (currentSlide + 1) % |Slides|;
      }
    }

    /** A click on dot `k`; the timer is left as it was. */
    method JumpTo(k: nat)
      requires Valid()
      requires k < |Slides|
      modifies this
      ensures Valid()
      ensures currentSlide == k && timerRunning == old(timerRunning)
      ensures State() == Step(old(State()), DotClick(k))
    {
      currentSlide := k;
    }

    /** Unmounting clears the timer. */
    method Teardown()
      requires Valid()
      modifies this
      ensures Valid()
      ensures !timerRunning && currentSlide == old(currentSlide)
      ensures State() == Step(old(State()), Event.Teardown)
    {
      timerRunning := false;
    }

    /** The slide on screen. */
    function Shown(): (s: Slide)
      reads this
      requires Valid()
      ensures s in Slides
    {
      Slides[currentSlide]
    }
  }

  /** Five ticks after mount the banner has shown slides 0, 1, 2, 0, 1, 2. */
  method RotationScenario() returns (seen: seq<nat>)
    ensures seen == [0, 1, 2, 0, 1, 2]
  {
    var b := new HeroBanner();
    seen := [b.currentSlide];
    b.Tick();
    seen := seen + [b.currentSlide];
    b.Tick();
    seen := seen + [b.currentSlide];
    b.Tick();
    seen := seen + [b.currentSlide];
    b.Tick();
    seen := seen + [b.currentSlide];
    b.Tick();
    seen := seen + [b.currentSlide];
  }

  /** Jumping to the last slide and letting the timer fire once shows the
      first slide; after teardown a further tick changes nothing. */
  method JumpScenario() returns (afterJump: nat, afterTick: nat, afterTeardown: nat)
    ensures afterJump == 2 && afterTick == 0 && afterTeardown == 0
  {
    var b := new HeroBanner();
    b.Tick();
    b.JumpTo(2);
    afterJump := b.currentSlide;
    b.Tick();
    afterTick := b.currentSlide;
    b.Teardown();
    b.Tick();
    afterTeardown := b.currentSlide;
  }
}
