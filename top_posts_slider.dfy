/**
 * The "Top Posts of the Week" slider: it shows the first five posts one at a time. Its state is
 * the index of the visible slide and the autoplay flag; the arrow buttons move the index
 * cyclically, the dots jump to a slide, and hovering an arrow pauses autoplay. The timer that
 * advances the slide while autoplay is on is not modelled.
 */
module TopPostsSlider {
  import opened Wrappers
  import opened Posts
  import opened BlogCard

  /** How many posts the slider takes from the front of the list. */
  const SlideCount: nat := 5

  /** `posts.slice(0, 5)` */
  function SliderPosts(posts: seq<Post>): (slides: seq<Post>)
    ensures |slides| <= SlideCount
    ensures |slides| == if |posts| < SlideCount then |posts| else SlideCount
    ensures slides == posts[..|slides|]
  {
    if |posts| <= SlideCount then posts else posts[..SlideCount]
  }

  /** The index after `i` on a ring of `n` slides: `(prev + 1) % n`. */
  function NextIndex(i: nat, n: nat): (j: nat)
    requires i < n
    ensures j < n
    ensures i + 1 < n ==> j == i + 1
    ensures i + 1 == n ==> j == 0
  {
    (i + 1) % n
  }

  /** The index before `i` on a ring of `n` slides: `(prev - 1 + n) % n`. */
  function PrevIndex(i: nat, n: nat): (j: nat)
    requires i < n
    ensures j < n
    ensures i > 0 ==> j == i - 1
    ensures i == 0 ==> j == n - 1
  {
    (i - 1 + n) % n
  }

  /** "Previous" undoes "next". */
  lemma PrevAfterNext(i: nat, n: nat)
    requires i < n
    ensures PrevIndex(NextIndex(i, n), n) == i
  {
  }

  /** "Next" undoes "previous". */
  lemma NextAfterPrev(i: nat, n: nat)
    requires i < n
    ensures NextIndex(PrevIndex(i, n), n) == i
  {
  }

  /** Pressing "next" k times in a row. */
  function NextTimes(i: nat, n: nat, k: nat): (j: nat)
    requires i < n
    ensures j < n
  {
    if k == 0 then i else NextIndex(NextTimes(i, n, k - 1), n)
  }

  /** Up to a full turn, k presses of "next" advance the index by k, wrapping past the last slide once. */
  lemma {:induction false} NextTimesAdvances(i: nat, n: nat, k: nat)
    requires i < n && k <= n
    ensures NextTimes(i, n, k) == if i + k < n then i + k else i + k - n
  {
    if k > 0 {
      NextTimesAdvances(i, n, k - 1);
    }
  }

  /** Going once around the ring with "next" comes back to the same slide. */
  lemma FullTurnIsIdentity(i: nat, n: nat)
    requires i < n
    ensures NextTimes(i, n, n) == i
  {
    NextTimesAdvances(i, n, n);
  }

  /** The slider component's state. */
  class Slider {
    const slides: seq<Post>
    var currentIndex: nat
    var autoPlay: bool

    ghost predicate Valid()
      reads this
    {
      && |slides| <= SlideCount
      && (|slides| == 0 ==> currentIndex == 0)
      && (|slides| > 0 ==> currentIndex < |slides|)
    }

    /** The first render: the first five posts, the first slide, autoplay on. */
    constructor (posts: seq<Post>)
      ensures Valid()
      ensures slides == SliderPosts(posts)
      ensures currentIndex == 0 && autoPlay
    {
      slides := SliderPosts(posts);
      currentIndex := 0;
      autoPlay := true;
    }

    /** The "next" arrow: advance cyclically and stop autoplay. */
    method NextSlide()
      requires Valid() && |slides| > 0
      modifies this
      ensures Valid()
      ensures currentIndex == NextIndex(old(currentIndex), |slides|)
      ensures !autoPlay
    {
      currentIndex := (currentIndex + 1) % |slides|;
      autoPlay := false;
    }

    /** The "previous" arrow: step back cyclically and stop autoplay. */
    method PrevSlide()
      requires Valid() && |slides| > 0
      modifies this
      ensures Valid()
      ensures currentIndex == PrevIndex(old(currentIndex), |slides|)
      ensures !autoPlay
    {
      currentIndex := (currentIndex - 1 + |slides|) % |slides|;
      autoPlay := false;
    }

    /** A dot: jump to that slide and stop autoplay. */
    method GoToSlide(index: nat)
      requires Valid() && index < |slides|
      modifies this
      ensures Valid()
      ensures currentIndex == index && !autoPlay
    {
      currentIndex := index;
      autoPlay := false;
    }

    /** The pointer enters an arrow button: autoplay pauses, the slide stays. */
    method MouseEnter()
      requires Valid()
      modifies this
      ensures Valid()
      ensures currentIndex == old(currentIndex) && !autoPlay
    {
      autoPlay := false;
    }

    /** The pointer leaves an arrow button: autoplay resumes, the slide stays. */
    method MouseLeave()
      requires Valid()
      modifies this
      ensures Valid()
      ensures currentIndex == old(currentIndex) && autoPlay
    {
      autoPlay := true;
    }

    /** What is on screen: nothing without posts, otherwise the card data of the current slide. */
    function CurrentSlide(): (view: Option<Card>)
      reads this
      requires Valid()
      ensures view.None? <==> |slides| == 0
      ensures view.Some? ==> view.value == CardOf(slides[currentIndex])
    {
      if |slides| == 0 then None else Some(CardOf(slides[currentIndex]))
    }
  }

  /** "Next" then "previous" brings the same post back on screen. */
  method NextThenPrevious(slider: Slider)
    requires slider.Valid() && |slider.slides| > 0
    modifies slider
    ensures slider.Valid() && slider.currentIndex == old(slider.currentIndex)
    ensures slider.CurrentSlide() == old(slider.CurrentSlide())
  {
    slider.NextSlide();
    slider.PrevSlide();
    PrevAfterNext(old(slider.currentIndex), |slider.slides|);
  }
}
