/**
 * The slide navigator of `client/src/pages/Presentation.tsx`: a slide index that starts at 0
 * and is moved by the next and previous buttons and by the keyboard.
 */
module Presentation {
  const TotalSlides: int := 8

  /** `nextSlide`'s new index: one further, unless already on the last slide. */
  function NextIndex(i: int): (r: int)
    ensures 0 <= i < TotalSlides ==> 0 <= r < TotalSlides
    ensures r != i <==> i < TotalSlides - 1
    ensures r == i || r == i + 1
  {
    if i < TotalSlides - 1 then i + 1 else i
  }

  /** `prevSlide`'s new index: one back, unless already on the first slide. */
  function PrevIndex(i: int): (r: int)
    ensures 0 <= i < TotalSlides ==> 0 <= r < TotalSlides
    ensures r != i <==> i > 0
    ensures r == i || r == i - 1
  {
    if i > 0 then i - 1 else i
  }

  datatype KeyAction = GoNext | GoPrevious | Ignore

  /** `handleKeyDown`'s dispatch: right arrow and space go forward, left arrow goes back. */
  function KeyActionOf(key: string): (a: KeyAction)
    ensures a == GoNext <==> key == "ArrowRight" || key == " "
    ensures a == GoPrevious <==> key == "ArrowLeft"
  {
    if key == "ArrowRight" || key == " " then GoNext
    else if key == "ArrowLeft" then GoPrevious
    else Ignore
  }

  function Apply(a: KeyAction, i: int): int {
    match a
    case GoNext => NextIndex(i)
    case GoPrevious => PrevIndex(i)
    case Ignore => i
  }

  /** The slide shown after a run of key presses. */
  function AfterKeys(start: int, keys: seq<string>): int
    decreases |keys|
  {
    if keys == [] then start else AfterKeys(Apply(KeyActionOf(keys[0]), start), keys[1..])
  }

  /** From any slide in range, whatever keys are pressed, the index stays in range. */
  lemma {:induction false} KeysStayInRange(start: int, keys: seq<string>)
    requires 0 <= start < TotalSlides
    ensures 0 <= AfterKeys(start, keys) < TotalSlides
    decreases |keys|
  {
    if keys != [] {
      KeysStayInRange(Apply(KeyActionOf(keys[0]), start), keys[1..]);
    }
  }

  /** `n` presses of the right arrow move `n` slides forward, stopping at the last one. */
  lemma {:induction false} RightArrowsAdvance(start: int, n: nat)
    requires 0 <= start < TotalSlides
    ensures AfterKeys(start, seq(n, _ => "ArrowRight")) == if start + n < TotalSlides then start + n else TotalSlides - 1
    decreases n
  {
    if n > 0 {
      var keys := seq(n, _ => "ArrowRight");
      assert keys[0] == "ArrowRight";
      assert keys[1..] == seq(n - 1, _ => "ArrowRight");
      RightArrowsAdvance(NextIndex(start), n - 1);
    }
  }

  /** Forward then back returns to the start, unless the start is the last slide. */
  lemma NextThenPrevious(i: int)
    requires 0 <= i < TotalSlides - 1
    ensures PrevIndex(NextIndex(i)) == i
  {
  }

  class SlideDeck {
    var currentSlide: int

    ghost predicate Valid()
      reads this
    {
      0 <= currentSlide < TotalSlides
    }

    constructor ()
      ensures Valid() && currentSlide == 0
    {
      currentSlide := 0;
    }

    method NextSlide()
      requires Valid()
      modifies this
      ensures Valid()
      ensures currentSlide == NextIndex(old(currentSlide))
    {
      if currentSlide < TotalSlides - 1 {
        currentSlide := currentSlide + 1;
      }
    }

    method PrevSlide()
      requires Valid()
      modifies this
      ensures Valid()
      ensures currentSlide == PrevIndex(old(currentSlide))
    {
      if currentSlide > 0 {
        currentSlide := currentSlide - 1;
      }
    }

    /** The window's keydown listener. */
    method HandleKeyDown(key: string)
      requires Valid()
      modifies this
      ensures Valid()
      ensures currentSlide == AfterKeys(old(currentSlide), [key])
    {
      if key == "ArrowRight" || key == " " {
        NextSlide();
      } else if key == "ArrowLeft" {
        PrevSlide();
      }
    }
  }
}
