/**
 * The image gallery of an integration's page: which image the viewer shows
 * (activeIndex, None while the viewer is closed) and how the keys, the
 * previous/next buttons and the thumbnails move it.
 */
module Gallery {
  import opened Wrappers

  /** The keys the viewer listens to; every other key is ignored. */
  datatype Key = Escape | ArrowRight | ArrowLeft | OtherKey

  lemma ModSmall(x: int, n: int)
    requires 0 <= x < n
    ensures x % n == x
  {
  }

  /** One step on modulo n: the next index, back to 0 after the last. */
  lemma StepForward(i: nat, n: nat)
    requires n > 0
    ensures i < n ==> (i + 1) % n == if i == n - 1 then 0 else i + 1
  {
    if i < n - 1 {
      ModSmall(i + 1, n);
    } else if i == n - 1 {
      assert n % n == 0;
    }
  }

  /** One step back modulo n: the previous index, round to the last from 0. */
  lemma StepBack(i: nat, n: nat)
    requires n > 0
    ensures i < n ==> (i - 1 + n) % n == if i == 0 then n - 1 else i - 1
  {
    if i == 0 {
      ModSmall(n - 1, n);
    } else if i < n {
      assert ((i - 1) + n) % n == i - 1;
    }
  }

  /** The next button and ArrowRight: one image on, wrapping round; from a closed viewer, the first image. */
  function Next(current: Option<nat>, n: nat): (r: Option<nat>)
    requires n > 0
    ensures r.Some? && r.value < n
    ensures current.Some? && current.value < n ==> r.value == if current.value == n - 1 then 0 else current.value + 1
    ensures current.None? ==> r.value == 0
  {
    match current
    case None => Some(0)
    case Some(i) => StepForward(i, n); Some((i + 1) % n)
  }

  /** The previous button: one image back, wrapping round; from a closed viewer, the first image. */
  function PreviousButton(current: Option<nat>, n: nat): (r: Option<nat>)
    requires n > 0
    ensures r.Some? && r.value < n
    ensures current.Some? && current.value < n ==> r.value == if current.value == 0 then n - 1 else current.value - 1
    ensures current.None? ==> r.value == 0
  {
    match current
    case None => Some(0)
    case Some(i) => StepBack(i, n); Some((i - 1 + n) % n)
  }

  /** ArrowLeft: one image back, wrapping round; from a closed viewer it would be the last image. */
  function PreviousKey(current: Option<nat>, n: nat): (r: Option<nat>)
    requires n > 0
    ensures r.Some? && r.value < n
    ensures current.Some? && current.value < n ==> r.value == if current.value == 0 then n - 1 else current.value - 1
    ensures current.None? ==> r.value == n - 1
  {
    match current
    case None => Some(n - 1)
    case Some(i) => StepBack(i, n); Some((i - 1 + n) % n)
  }

  /** The gallery over a fixed list of images. */
  class ImageGallery {
    const images: seq<string>
    var activeIndex: Option<nat>

    /** The viewer shows one of the images, or is closed. */
    ghost predicate Valid()
      reads this
    {
      activeIndex.Some? ==> activeIndex.value < |images|
    }

    /** Nothing is rendered without images. */
    predicate Renders()
      reads this
    {
      |images| > 0
    }

    constructor(images: seq<string>)
      ensures Valid() && this.images == images && activeIndex == None
    {
      this.images := images;
      activeIndex := None;
    }

    /** A thumbnail or a dot: opens the viewer on that image. Only rendered images can be clicked. */
    method Select(i: nat)
      requires Valid() && i < |images|
      modifies this
      ensures Valid() && activeIndex == Some(i)
    {
      activeIndex := Some(i);
    }

    /** The close button. */
    method Close()
      requires Valid()
      modifies this
      ensures Valid() && activeIndex == None
    {
      activeIndex := None;
    }

    /** The next button, shown only while the viewer is open. */
    method NextButton()
      requires Valid() && activeIndex.Some?
      modifies this
      ensures Valid() && activeIndex == Next(old(activeIndex), |images|)
    {
      activeIndex := Next(activeIndex, |images|);
    }

    /** The previous button, shown only while the viewer is open. */
    method PreviousButtonClick()
      requires Valid() && activeIndex.Some?
      modifies this
      ensures Valid() && activeIndex == PreviousButton(old(activeIndex), |images|)
    {
      activeIndex := PreviousButton(activeIndex, |images|);
    }

    /**
     * A key press. The listener is installed only while the viewer is open, so
     * with the viewer closed nothing happens.
     */
    method KeyDown(key: Key)
      requires Valid()
      modifies this
      ensures Valid()
      ensures old(activeIndex).None? ==> activeIndex == None
      ensures old(activeIndex).Some? ==>
        activeIndex == match key
          case Escape => None
          case ArrowRight => Next(old(activeIndex), |images|)
          case ArrowLeft => PreviousKey(old(activeIndex), |images|)
          case OtherKey => old(activeIndex)
    {
      if activeIndex.None? {
        return;
      }
      match key
      case Escape => activeIndex := None;
      case ArrowRight => activeIndex := Next(activeIndex, |images|);
      case ArrowLeft => activeIndex := PreviousKey(activeIndex, |images|);
      case OtherKey =>
    }
  }

  /** ArrowRight then ArrowLeft, or next then previous, comes back to the same image. */
  lemma NextThenPrevious(i: nat, n: nat)
    requires i < n
    ensures PreviousKey(Next(Some(i), n), n) == Some(i)
    ensures PreviousButton(Next(Some(i), n), n) == Some(i)
  {
  }

  /** ArrowLeft then ArrowRight comes back to the same image too. */
  lemma PreviousThenNext(i: nat, n: nat)
    requires i < n
    ensures Next(PreviousKey(Some(i), n), n) == Some(i)
    ensures Next(PreviousButton(Some(i), n), n) == Some(i)
  {
  }
}
