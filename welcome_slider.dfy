/** The welcome carousel's index arithmetic: jump, next, previous and the
    auto-advance tick over currentSlide, with the remainder of JavaScript. */
module WelcomeSlider {

  const SlideCount := 3

  /** Math.trunc(a / n): the quotient rounded toward zero. */
  function TruncQuotient(a: int, n: int): int
    requires n > 0
  {
    if a >= 0 then a / n else -((-a) / n)
  }

  /** JavaScript's a % n for n > 0: the remainder of the quotient rounded
      toward zero, so its sign follows the dividend. */
  function JsRemainder(a: int, n: int): (r: int)
    requires n > 0
    ensures a == TruncQuotient(a, n) * n + r
    ensures a >= 0 ==> 0 <= r < n
    ensures a < 0 ==> -n < r <= 0
  {
    if a >= 0 then a % n
    else
      var b := -a;
      assert b == (b / n) * n + b % n;
      assert -(b / n) * n == -((b / n) * n);
      -(b % n)
  }

  /** (prev + 1) % slides.length. */
  function NextIndex(i: int): int {
    JsRemainder(i + 1, SlideCount)
  }

  /** (prev - 1 + slides.length) % slides.length. */
  function PrevIndex(i: int): int {
    JsRemainder(i - 1 + SlideCount, SlideCount)
  }

  predicate InRange(i: int) {
    0 <= i < SlideCount
  }

  /** On an index in range both steps stay in range: next wraps the last
      slide to the first, previous the first to the last, and otherwise
      they add and subtract one. */
  lemma StepsInRange(i: int)
    requires InRange(i)
    ensures InRange(NextIndex(i)) && InRange(PrevIndex(i))
    ensures NextIndex(i) == if i == SlideCount - 1 then 0 else i + 1
    ensures PrevIndex(i) == if i == 0 then SlideCount - 1 else i - 1
  {
  }

  /** Previous undoes next and next undoes previous. */
  lemma StepsInverse(i: int)
    requires InRange(i)
    ensures PrevIndex(NextIndex(i)) == i
    ensures NextIndex(PrevIndex(i)) == i
  {
    StepsInRange(i);
  }

  /** The index after k advances from i. */
  function Advance(i: int, k: nat): int {
    if k == 0 then i else NextIndex(Advance(i, k - 1))
  }

  /** k advances from an index in range land on (i + k) mod the slide count. */
  lemma {:induction false} AdvanceIsModular(i: int, k: nat)
    requires InRange(i)
    ensures Advance(i, k) == (i + k) % SlideCount
  {
    if k > 0 {
      AdvanceIsModular(i, k - 1);
      StepsInRange((i + k - 1) % SlideCount);
    }
  }

  /** Three advances bring any slide back. */
  lemma ThreeAdvancesReturn(i: int)
    requires InRange(i)
    ensures Advance(i, 3) == i
  {
    AdvanceIsModular(i, 3);
  }

  class Slider {
    var currentSlide: int

    constructor ()
      ensures currentSlide == 0
    {
      currentSlide := 0;
    }

    /** The "k / n" counter. */
    function Counter(): (int, int)
      reads this
    {
      (currentSlide + 1, SlideCount)
    }

    /** goToSlide(index), called by the dots with their own index. */
    method GoToSlide(index: int)
      modifies this
      ensures currentSlide == index && Counter() == (index + 1, SlideCount)
    {
      currentSlide := index;
    }

    method NextSlide()
      modifies this
      ensures currentSlide == NextIndex(old(currentSlide))
      ensures InRange(old(currentSlide)) ==> InRange(currentSlide)
    {
      currentSlide := JsRemainder(currentSlide + 1, SlideCount);
    }

    method PrevSlide()
      modifies this
      ensures currentSlide == PrevIndex(old(currentSlide))
      ensures InRange(old(currentSlide)) ==> InRange(currentSlide)
    {
      currentSlide := JsRemainder(currentSlide - 1 + SlideCount, SlideCount);
    }

    /** One tick of the five-second interval: the same step as NextSlide. */
    method TimerTick()
      modifies this
      ensures currentSlide == NextIndex(old(currentSlide))
      ensures InRange(old(currentSlide)) ==> InRange(currentSlide)
    {
      NextSlide();
    }
  }
}
