/**
 * The lightbox (`ImageModal`): which image is shown, wrap-around navigation,
 * the zoom, loading and favourite flags, the download link and the keyboard
 * dispatch. The props (`isOpen`, `image`, `images`) are fields that the
 * parent replaces; the `useState` variables are fields the handlers update.
 */
module Lightbox {
  import opened Wrappers
  import opened Catalog
  import opened Arith

  /** The first position of `images` whose record has identifier `id`, or -1 when there is none. */
  function FindIndexById(images: seq<ImageData>, id: string): (r: int)
    ensures -1 <= r < |images|
    ensures r >= 0 ==> images[r].id == id && forall k :: 0 <= k < r ==> images[k].id != id
    ensures r == -1 <==> forall k :: 0 <= k < |images| ==> images[k].id != id
    decreases |images|
  {
    if images == [] then -1
    else if images[0].id == id then 0
    else
      var r := FindIndexById(images[1..], id);
      assert forall k :: 1 <= k < |images| ==> images[k] == images[1..][k - 1];
      if r == -1 then -1 else r + 1
  }

  /** The index the sync effect stores: the position found, or 0 when the image is not among `images`. */
  function SyncIndex(images: seq<ImageData>, id: string): (r: nat)
    requires |images| > 0
    ensures r < |images|
    ensures (exists k :: 0 <= k < |images| && images[k].id == id) ==>
      images[r].id == id && forall k :: 0 <= k < r ==> images[k].id != id
    ensures (forall k :: 0 <= k < |images| ==> images[k].id != id) ==> r == 0
  {
    var k := FindIndexById(images, id);
    if k >= 0 then k else 0
  }

  /** The index `goToNext` moves to among `n >= 2` images: one on, from the last back to 0. */
  function NextIndex(i: nat, n: nat): (j: nat)
    requires n >= 2
    ensures j < n
    ensures i < n ==> j == (i + 1) % n
  {
    if i < n - 1 then i + 1 else 0
  }

  /** The index `goToPrevious` moves to among `n >= 2` images: one back, from 0 to the last. */
  function PrevIndex(i: nat, n: nat): (j: nat)
    requires n >= 2
    ensures i < n ==> j < n && j == (i + n - 1) % n
    ensures i >= n ==> j == i - 1
  {
    if i > 0 then i - 1 else n - 1
  }

  /** Next undoes previous and previous undoes next. */
  lemma NextPreviousInverse(i: nat, n: nat)
    requires n >= 2 && i < n
    ensures NextIndex(PrevIndex(i, n), n) == i
    ensures PrevIndex(NextIndex(i, n), n) == i
  {
  }

  /** The index after `k` presses of "next". */
  function NextTimes(i: nat, n: nat, k: nat): (j: nat)
    requires n >= 2
    ensures k > 0 ==> j < n
    decreases k
  {
    if k == 0 then i else NextIndex(NextTimes(i, n, k - 1), n)
  }

  /** `k` presses of "next" from an index in range land on `(i + k) mod n`. */
  lemma {:induction false} NextTimesIsModular(i: nat, n: nat, k: nat)
    requires n >= 2 && i < n
    ensures NextTimes(i, n, k) == (i + k) % n
    decreases k
  {
    if k > 0 {
      NextTimesIsModular(i, n, k - 1);
      var j := (i + k - 1) % n;
      assert NextIndex(j, n) == (j + 1) % n;
      ModStep(i + k - 1, n);
    }
  }

  /** `n` presses of "next" go round once, back to the start. */
  lemma FullRound(i: nat, n: nat)
    requires n >= 2 && i < n
    ensures NextTimes(i, n, n) == i
  {
    NextTimesIsModular(i, n, n);
    ModPlusPeriod(i, n);
  }

  /** What `handleDownload` hands to the anchor it creates. */
  datatype DownloadLink = DownloadLink(href: string, fileName: string)

  /** What a key press asks for. */
  datatype Action = Close | Previous | Next | Zoom | Favorite | Download | NoAction

  /** The action for the key and whether `preventDefault` is called. */
  datatype KeyOutcome = KeyOutcome(action: Action, preventDefault: bool)

  /**
   * The `switch (e.key)` of `handleKeyDown`: nothing happens while the
   * lightbox is closed; Escape closes without `preventDefault`; "d"/"D" ask
   * for a download only with Ctrl or Meta held.
   */
  function KeyAction(isOpen: bool, key: string, ctrlKey: bool, metaKey: bool): (r: KeyOutcome)
    ensures !isOpen ==> r == KeyOutcome(NoAction, false)
    ensures r.preventDefault <==> r.action != NoAction && r.action != Close
  {
    if !isOpen then KeyOutcome(NoAction, false)
    else if key == "Escape" then KeyOutcome(Close, false)
    else if key == "ArrowLeft" || key == "ArrowUp" then KeyOutcome(Previous, true)
    else if key == "ArrowRight" || key == "ArrowDown" then KeyOutcome(Next, true)
    else if key == " " then KeyOutcome(Zoom, true)
    else if key == "f" || key == "F" then KeyOutcome(Favorite, true)
    else if (key == "d" || key == "D") && (ctrlKey || metaKey) then KeyOutcome(Download, true)
    else KeyOutcome(NoAction, false)
  }

  /** Each action, and the keys that lead to it. */
  lemma KeyActionCases(isOpen: bool, key: string, ctrlKey: bool, metaKey: bool)
    ensures var a := KeyAction(isOpen, key, ctrlKey, metaKey).action;
      && (a == Close <==> isOpen && key == "Escape")
      && (a == Previous <==> isOpen && (key == "ArrowLeft" || key == "ArrowUp"))
      && (a == Next <==> isOpen && (key == "ArrowRight" || key == "ArrowDown"))
      && (a == Zoom <==> isOpen && key == " ")
      && (a == Favorite <==> isOpen && (key == "f" || key == "F"))
      && (a == Download <==> isOpen && (key == "d" || key == "D") && (ctrlKey || metaKey))
      && (a == NoAction <==> !isOpen || key !in KnownKeys || ((key == "d" || key == "D") && !ctrlKey && !metaKey))
  {
  }

  /** The keys the dispatch reacts to. */
  const KnownKeys: set<string> :=
    {"Escape", "ArrowLeft", "ArrowUp", "ArrowRight", "ArrowDown", " ", "f", "F", "d", "D"}

  class ImageModal {
    var isOpen: bool
    var image: Option<ImageData>
    var images: seq<ImageData>
    var currentIndex: nat
    var isZoomed: bool
    var isLoading: bool
    var isFavorited: bool

    /** The index points into a non-empty list. */
    predicate IndexInRange()
      reads this
    {
      |images| > 0 ==> currentIndex < |images|
    }

    /** The record at the current index, or the `image` prop when the index is past the end. */
    function CurrentImage(): (r: Option<ImageData>)
      reads this
      ensures currentIndex < |images| ==> r == Some(images[currentIndex])
      ensures currentIndex >= |images| ==> r == image
      ensures IndexInRange() && |images| > 0 ==> r.Some? && r.value in images
    {
      if currentIndex < |images| then Some(images[currentIndex]) else image
    }

    /** The modal renders only while it is open and has an image to show. */
    function Visible(): (b: bool)
      reads this
      ensures b ==> isOpen && DownloadTarget().Some?
      ensures isOpen && IndexInRange() && |images| > 0 ==> b
    {
      isOpen && CurrentImage().Some?
    }

    /** The "`currentIndex + 1` / `images.length`" counter, shown only with more than one image. */
    function Counter(): (r: Option<(nat, nat)>)
      reads this
      ensures r.Some? <==> |images| > 1
      ensures r.Some? && IndexInRange() ==> 1 <= r.value.0 <= r.value.1 == |images|
    {
      if |images| > 1 then Some((currentIndex + 1, |images|)) else None
    }

    /** `handleDownload`: a link to the shown image named after its title, or nothing when none is shown. */
    function DownloadTarget(): (r: Option<DownloadLink>)
      reads this
      ensures r.Some? <==> CurrentImage().Some?
      ensures r.Some? ==>
        r.value.href == CurrentImage().value.filepath && r.value.fileName == CurrentImage().value.title + ".jpg"
    {
      match CurrentImage()
      case None => None
      case Some(x) => Some(DownloadLink(x.filepath, x.title + ".jpg"))
    }

    /** The effect on `[image, images]`: show the image's position and restart loading. */
    method SyncImage()
      modifies this
      ensures isOpen == old(isOpen) && image == old(image) && images == old(images)
      ensures isFavorited == old(isFavorited)
      ensures image.Some? && |images| > 0 ==>
        && currentIndex == SyncIndex(images, image.value.id)
        && isLoading && !isZoomed && IndexInRange()
      ensures image.None? || |images| == 0 ==>
        currentIndex == old(currentIndex) && isLoading == old(isLoading) && isZoomed == old(isZoomed)
    {
      if image.Some? && |images| > 0 {
        var index := FindIndexById(images, image.value.id);
        currentIndex := if index >= 0 then index else 0;
        isLoading := true;
        isZoomed := false;
      }
    }

    /** The first render with the given props, followed by the sync effect. */
    constructor (isOpen: bool, image: Option<ImageData>, images: seq<ImageData>)
      ensures this.isOpen == isOpen && this.image == image && this.images == images
      ensures currentIndex == (if image.Some? && |images| > 0 then SyncIndex(images, image.value.id) else 0)
      ensures isLoading && !isZoomed && !isFavorited && IndexInRange()
    {
      this.isOpen := isOpen;
      this.image := image;
      this.images := images;
      currentIndex := 0;
      isZoomed := false;
      isLoading := true;
      isFavorited := false;
      new;
      SyncImage();
    }

    /**
     * The parent passes new props. The sync effect runs when `image` or
     * `images` differs from before.
     */
    method SetProps(newIsOpen: bool, newImage: Option<ImageData>, newImages: seq<ImageData>)
      modifies this
      ensures isOpen == newIsOpen && image == newImage && images == newImages
      ensures isFavorited == old(isFavorited)
      ensures (newImage != old(image) || newImages != old(images)) && newImage.Some? && |newImages| > 0 ==>
        currentIndex == SyncIndex(newImages, newImage.value.id) && isLoading && !isZoomed
      ensures (newImage == old(image) && newImages == old(images)) || newImage.None? || |newImages| == 0 ==>
        currentIndex == old(currentIndex) && isLoading == old(isLoading) && isZoomed == old(isZoomed)
    {
      var changed := newImage != image || newImages != images;
      isOpen, image, images := newIsOpen, newImage, newImages;
      if changed {
        SyncImage();
      }
    }

    /** `goToPrevious`: with at least two images, one back (wrapping), loading restarted and zoom off. */
    method GoToPrevious()
      modifies this
      ensures isOpen == old(isOpen) && image == old(image) && images == old(images)
      ensures isFavorited == old(isFavorited)
      ensures |images| <= 1 ==>
        currentIndex == old(currentIndex) && isLoading == old(isLoading) && isZoomed == old(isZoomed)
      ensures |images| > 1 ==>
        currentIndex == PrevIndex(old(currentIndex), |images|) && isLoading && !isZoomed
      ensures old(IndexInRange()) ==> IndexInRange()
    {
      if |images| <= 1 {
        return;
      }
      currentIndex := if currentIndex > 0 then currentIndex - 1 else |images| - 1;
      isLoading := true;
      isZoomed := false;
    }

    /** `goToNext`: with at least two images, one on (wrapping), loading restarted and zoom off. */
    method GoToNext()
      modifies this
      ensures isOpen == old(isOpen) && image == old(image) && images == old(images)
      ensures isFavorited == old(isFavorited)
      ensures |images| <= 1 ==>
        currentIndex == old(currentIndex) && isLoading == old(isLoading) && isZoomed == old(isZoomed)
      ensures |images| > 1 ==>
        currentIndex == NextIndex(old(currentIndex), |images|) && isLoading && !isZoomed && IndexInRange()
    {
      if |images| <= 1 {
        return;
      }
      currentIndex := if currentIndex < |images| - 1 then currentIndex + 1 else 0;
      isLoading := true;
      isZoomed := false;
    }

    method ToggleZoom()
      modifies this
      ensures isZoomed == !old(isZoomed)
      ensures isOpen == old(isOpen) && image == old(image) && images == old(images)
      ensures currentIndex == old(currentIndex) && isLoading == old(isLoading) && isFavorited == old(isFavorited)
    {
      isZoomed := !isZoomed;
    }

    method ToggleFavorite()
      modifies this
      ensures isFavorited == !old(isFavorited)
      ensures isOpen == old(isOpen) && image == old(image) && images == old(images)
      ensures currentIndex == old(currentIndex) && isLoading == old(isLoading) && isZoomed == old(isZoomed)
    {
      isFavorited := !isFavorited;
    }

    /** The image's `onLoad` / `onError`: loading is over. */
    method ImageLoaded()
      modifies this
      ensures !isLoading
      ensures isOpen == old(isOpen) && image == old(image) && images == old(images)
      ensures currentIndex == old(currentIndex) && isZoomed == old(isZoomed) && isFavorited == old(isFavorited)
    {
      isLoading := false;
    }

    /**
     * `handleKeyDown`: performs the action the key asks for. A close request
     * goes to the parent (`onClose`) and a download is returned as its link.
     */
    method HandleKeyDown(key: string, ctrlKey: bool, metaKey: bool)
      returns (closeRequested: bool, download: Option<DownloadLink>, preventDefault: bool)
      modifies this
      ensures var outcome := KeyAction(old(isOpen), key, ctrlKey, metaKey);
        && preventDefault == outcome.preventDefault
        && closeRequested == (outcome.action == Close)
        && download == (if outcome.action == Download then old(DownloadTarget()) else None)
      ensures isOpen == old(isOpen) && image == old(image) && images == old(images)
      ensures KeyAction(old(isOpen), key, ctrlKey, metaKey).action in {Close, Download, NoAction} ==>
        && currentIndex == old(currentIndex) && isLoading == old(isLoading)
        && isZoomed == old(isZoomed) && isFavorited == old(isFavorited)
      ensures KeyAction(old(isOpen), key, ctrlKey, metaKey).action == Favorite ==>
        && isFavorited == !old(isFavorited)
        && currentIndex == old(currentIndex) && isLoading == old(isLoading) && isZoomed == old(isZoomed)
      ensures KeyAction(old(isOpen), key, ctrlKey, metaKey).action == Zoom ==>
        && isZoomed == !old(isZoomed)
        && currentIndex == old(currentIndex) && isLoading == old(isLoading) && isFavorited == old(isFavorited)
      ensures KeyAction(old(isOpen), key, ctrlKey, metaKey).action in {Next, Previous} ==>
        isFavorited == old(isFavorited)
      ensures KeyAction(old(isOpen), key, ctrlKey, metaKey).action in {Next, Previous} && |images| <= 1 ==>
        currentIndex == old(currentIndex) && isLoading == old(isLoading) && isZoomed == old(isZoomed)
      ensures KeyAction(old(isOpen), key, ctrlKey, metaKey).action == Next && |images| > 1 ==>
        currentIndex == NextIndex(old(currentIndex), |images|) && isLoading && !isZoomed && IndexInRange()
      ensures KeyAction(old(isOpen), key, ctrlKey, metaKey).action == Previous && |images| > 1 ==>
        currentIndex == PrevIndex(old(currentIndex), |images|) && isLoading && !isZoomed
      ensures KeyAction(old(isOpen), key, ctrlKey, metaKey).action == Previous && old(IndexInRange()) ==>
        IndexInRange()
    {
      var outcome := KeyAction(isOpen, key, ctrlKey, metaKey);
      preventDefault := outcome.preventDefault;
      closeRequested := false;
      download := None;
      match outcome.action
      case Close => closeRequested := true;
      case Previous => GoToPrevious();
      case Next => GoToNext();
      case Zoom => ToggleZoom();
      case Favorite => ToggleFavorite();
      case Download => download := DownloadTarget();
      case NoAction =>
    }
  }

  /** Previous then next returns to the image shown before, and toggling twice changes nothing. */
  method RoundTrip(m: ImageModal)
    requires |m.images| > 1 && m.IndexInRange()
    modifies m
    ensures m.currentIndex == old(m.currentIndex)
    ensures m.isZoomed == false && m.isFavorited == old(m.isFavorited)
  {
    m.GoToPrevious();
    m.GoToNext();
    NextPreviousInverse(old(m.currentIndex), |m.images|);
    m.ToggleFavorite();
    m.ToggleFavorite();
  }
}
