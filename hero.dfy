/**
 * The featured-video carousel of the hero section: four pieces of React
 * state changed by the button and `ended` handlers, and the video shown
 * for the current index.
 */
module Hero {
  import opened Wrappers
  import opened Schema

  /** How many featured videos the query has delivered (`undefined` while loading). */
  function Count(featured: Option<seq<Video>>): nat {
    if featured.Some? then |featured.value| else 0
  }

  /**
   * `(i + 1) % n` when there are videos, nothing otherwise. Both operands are
   * non-negative, so JavaScript's `%` and the Euclidean one agree.
   */
  function Forward(i: nat, n: nat): (r: nat)
    ensures n == 0 ==> r == i
    ensures n > 0 ==> r < n
    ensures i + 1 < n ==> r == i + 1
    ensures n > 0 && i + 1 == n ==> r == 0
  {
    if n > 0 then (i + 1) % n else i
  }

  /** `(i - 1 + n) % n` when there are videos, nothing otherwise. */
  function Backward(i: nat, n: nat): (r: nat)
    ensures n == 0 ==> r == i
    ensures n > 0 ==> r < n
    ensures 0 < i < n ==> r == i - 1
    ensures n > 0 && i == 0 ==> r == n - 1
  {
    if n > 0 then (i - 1 + n) % n else i
  }

  /** Previous after next, and next after previous, restore an index in range. */
  lemma BackwardUndoesForward(i: nat, n: nat)
    requires i < n
    ensures Backward(Forward(i, n), n) == i
    ensures Forward(Backward(i, n), n) == i
  {
  }

  /** `k` presses of "next". */
  function ForwardTimes(i: nat, n: nat, k: nat): nat {
    if k == 0 then i else Forward(ForwardTimes(i, n, k - 1), n)
  }

  /** Pressing "next" `a + b` times is pressing it `a` times, then `b` times. */
  lemma {:induction false} ForwardTimesSplit(i: nat, n: nat, a: nat, b: nat)
    ensures ForwardTimes(i, n, a + b) == ForwardTimes(ForwardTimes(i, n, a), n, b)
  {
    if b > 0 {
      ForwardTimesSplit(i, n, a, b - 1);
    }
  }

  /** Below the end of the list, each press moves one place. */
  lemma {:induction false} ForwardTimesClimbs(i: nat, n: nat, k: nat)
    requires i + k < n
    ensures ForwardTimes(i, n, k) == i + k
  {
    if k > 0 {
      ForwardTimesClimbs(i, n, k - 1);
    }
  }

  /** After `n` presses of "next" the carousel is back where it started. */
  lemma FullTurn(i: nat, n: nat)
    requires i < n
    ensures ForwardTimes(i, n, n) == i
  {
    var up := n - 1 - i;
    ForwardTimesSplit(i, n, up + 1, i);
    ForwardTimesSplit(i, n, up, 1);
    ForwardTimesClimbs(i, n, up);
    ForwardTimesClimbs(0, n, i);
    assert up + 1 + i == n;
  }

  class Carousel {
    var currentVideoIndex: int
    var isPaused: bool
    var isMuted: bool
    var isAutoplayEnabled: bool

    /**
     * The index is never negative. It is not bounded by the list length:
     * the list can shrink after the index was set (see `CurrentVideoAsWritten`).
     */
    ghost predicate Valid()
      reads this
    {
      currentVideoIndex >= 0
    }

    /** The `useState` initial values. */
    constructor ()
      ensures Valid()
      ensures currentVideoIndex == 0 && !isPaused && isMuted && isAutoplayEnabled
    {
      currentVideoIndex := 0;
      isPaused := false;
      isMuted := true;
      isAutoplayEnabled := true;
    }

    /** `nextVideo` */
    method NextVideo(featured: Option<seq<Video>>)
      requires Valid()
      modifies this`currentVideoIndex
      ensures Valid()
      ensures currentVideoIndex == Forward(old(currentVideoIndex), Count(featured))
    {
      if featured.Some? && |featured.value| > 0 {
        currentVideoIndex := (currentVideoIndex + 1) % |featured.value|;
      }
    }

    /** `previousVideo` */
    method PreviousVideo(featured: Option<seq<Video>>)
      requires Valid()
      modifies this`currentVideoIndex
      ensures Valid()
      ensures currentVideoIndex == Backward(old(currentVideoIndex), Count(featured))
    {
      if featured.Some? && |featured.value| > 0 {
        currentVideoIndex := (currentVideoIndex - 1 + |featured.value|) % |featured.value|;
      }
    }

    /** The `ended` listener: advance only while autoplay is on and there are videos. */
    method HandleVideoEnded(featured: Option<seq<Video>>)
      requires Valid()
      modifies this`currentVideoIndex
      ensures Valid()
      ensures isAutoplayEnabled ==> currentVideoIndex == Forward(old(currentVideoIndex), Count(featured))
      ensures !isAutoplayEnabled || Count(featured) == 0 ==> currentVideoIndex == old(currentVideoIndex)
    {
      if isAutoplayEnabled && featured.Some? && |featured.value| > 0 {
        currentVideoIndex := (currentVideoIndex + 1) % |featured.value|;
      }
    }

    /** `toggleAutoplay`: flips the flag and nothing else. */
    method ToggleAutoplay()
      modifies this`isAutoplayEnabled
      ensures isAutoplayEnabled == !old(isAutoplayEnabled)
    {
      isAutoplayEnabled := !isAutoplayEnabled;
    }

    /** `toggleMute`: flips `isMuted` when the video element is mounted. */
    method ToggleMute(hasElement: bool)
      modifies this`isMuted
      ensures isMuted == (if hasElement then !old(isMuted) else old(isMuted))
    {
      if hasElement {
        isMuted := !isMuted;
      }
    }

    /** `togglePlay`: a paused element is played and vice versa; `isPaused` follows it. */
    method TogglePlay(hasElement: bool, elementPaused: bool)
      modifies this`isPaused
      ensures hasElement ==> isPaused == !elementPaused
      ensures !hasElement ==> isPaused == old(isPaused)
    {
      if hasElement {
        isPaused := !elementPaused;
      }
    }
  }

  /** Next then previous on the component itself leaves its index unchanged. */
  method NextThenPrevious(c: Carousel, featured: seq<Video>)
    requires c.Valid() && c.currentVideoIndex < |featured|
    modifies c`currentVideoIndex
    ensures c.currentVideoIndex == old(c.currentVideoIndex)
  {
    c.NextVideo(Some(featured));
    c.PreviousVideo(Some(featured));
    BackwardUndoesForward(old(c.currentVideoIndex), |featured|);
  }

  // ---------------------------------------------------------------------------
  // The video shown

  /** The fields of `currentVideo` the hero renders. */
  datatype Slide = Slide(title: string, videoUrl: string, duration: string)

  const DefaultVideoUrl := "https://commondatastorage.googleapis.com/gtv-videos-bucket/sample/BigBuckBunny.mp4"
  const FallbackSlide := Slide("سيارات فاخرة 2023", DefaultVideoUrl, "00:10")

  function SlideOf(v: Video): Slide {
    Slide(v.title, v.videoUrl, v.duration)
  }

  /**
   * `currentVideo` as written: `featuredVideos[currentVideoIndex]`, which is
   * `undefined` (`None`) once a refetched list is shorter than the index.
   */
  function CurrentVideoAsWritten(featured: Option<seq<Video>>, index: nat): (r: Option<Slide>)
    ensures Count(featured) == 0 ==> r == Some(FallbackSlide)
    ensures index < Count(featured) ==> r == Some(SlideOf(featured.value[index]))
    ensures r.None? <==> 0 < Count(featured) <= index
  {
    if Count(featured) == 0 then Some(FallbackSlide)
    else if index < |featured.value| then Some(SlideOf(featured.value[index]))
    else None
  }

  /**
   * Three featured videos, the carousel on the third, then the list is
   * refetched with one video left: the render reads a field of `undefined`.
   */
  lemma ShrunkenListLeavesNoVideo(v1: Video, v2: Video, v3: Video)
    ensures Forward(1, 3) == 2
    ensures CurrentVideoAsWritten(Some([v1, v2, v3]), 2) == Some(SlideOf(v3))
    ensures CurrentVideoAsWritten(Some([v1]), 2).None?
  {
  }

  /** `currentVideo` with the index taken modulo the current list length. */
  function CurrentVideo(featured: Option<seq<Video>>, index: nat): (r: Slide)
    ensures Count(featured) == 0 ==> r == FallbackSlide
    ensures Count(featured) > 0 ==> exists i | 0 <= i < |featured.value| :: r == SlideOf(featured.value[i])
  {
    if Count(featured) == 0 then FallbackSlide
    else
      SlideOf(featured.value[index % |featured.value|])
  }

  /** Wherever the original shows a video, the corrected one shows the same. */
  lemma CurrentVideoAgreesInRange(featured: Option<seq<Video>>, index: nat)
    requires CurrentVideoAsWritten(featured, index).Some?
    ensures CurrentVideoAsWritten(featured, index) == Some(CurrentVideo(featured, index))
  {
  }
}
