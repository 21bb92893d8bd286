/**
 * The gallery page component (`Gallery`): the category filter, the
 * per-category colour palette, the masonry column count and the round-robin
 * distribution of images over the columns, and the handlers that update the
 * component's state.
 */
module GalleryView {
  import opened Wrappers
  import opened Catalog
  import opened SeqFacts
  import opened Arith
  import opened ImageLoader
  import opened ImageStats

  /** The filter value that shows every image. */
  const AllFilter: string := "すべて"

  /** The images carrying label `category`, in their original order. */
  function OfCategory(images: seq<ImageData>, category: string): (r: seq<ImageData>)
    ensures |r| <= |images|
    ensures forall x :: x in r ==> x in images && x.category == category
    decreases |images|
  {
    if images == [] then []
    else (if images[0].category == category then [images[0]] else []) + OfCategory(images[1..], category)
  }

  /** The filter keeps the images of that category in their original order. */
  lemma {:induction false} OfCategoryIsSubsequence(images: seq<ImageData>, category: string)
    ensures IsSubsequence(OfCategory(images, category), images)
    decreases |images|
  {
    if images != [] {
      OfCategoryIsSubsequence(images[1..], category);
      var r := OfCategory(images, category);
      if images[0].category == category {
        assert r[0] == images[0] && r[1..] == OfCategory(images[1..], category);
      } else if r != [] {
        assert r == OfCategory(images[1..], category);
      }
    }
  }

  /** Each image of the category is kept as often as it occurs, every other one never. */
  lemma {:induction false} OfCategoryMultiplicity(images: seq<ImageData>, category: string, x: ImageData)
    ensures multiset(OfCategory(images, category))[x] == if x.category == category then multiset(images)[x] else 0
    decreases |images|
  {
    if images != [] {
      OfCategoryMultiplicity(images[1..], category, x);
      assert images == [images[0]] + images[1..];
    }
  }

  lemma {:induction false} OfCategorySnoc(images: seq<ImageData>, x: ImageData, category: string)
    ensures OfCategory(images + [x], category) ==
      OfCategory(images, category) + if x.category == category then [x] else []
    decreases |images|
  {
    if images == [] {
      assert ([] + [x])[1..] == [];
    } else {
      assert (images + [x])[1..] == images[1..] + [x];
      OfCategorySnoc(images[1..], x, category);
    }
  }

  /** The number of images a filter shows is the count the statistics report for that label. */
  lemma {:induction false} OfCategorySizeIsCount(images: seq<ImageData>, category: string)
    ensures |OfCategory(images, category)| == Count(images, category)
    decreases |images|
  {
    if images != [] {
      var n := |images| - 1;
      assert images == images[..n] + [images[n]];
      OfCategorySizeIsCount(images[..n], category);
      OfCategorySnoc(images[..n], images[n], category);
    }
  }

  /** Filtering twice by the same label changes nothing. */
  lemma {:induction false} OfCategoryIdempotent(images: seq<ImageData>, category: string)
    ensures OfCategory(OfCategory(images, category), category) == OfCategory(images, category)
    decreases |images|
  {
    if images != [] {
      OfCategoryIdempotent(images[1..], category);
      var rest := OfCategory(images[1..], category);
      if images[0].category == category {
        var r := [images[0]] + rest;
        assert r[0] == images[0] && r[1..] == rest;
        assert OfCategory(r, category) == [images[0]] + OfCategory(rest, category);
      } else {
        assert OfCategory(images, category) == rest;
      }
    }
  }

  /** `filteredImages`: everything under "すべて", otherwise the images of the active label. */
  function FilterImages(activeFilter: string, images: seq<ImageData>): (r: seq<ImageData>)
    ensures activeFilter == AllFilter ==> r == images
    ensures activeFilter != AllFilter ==> forall x :: x in r ==> x.category == activeFilter
    ensures forall x :: x in r ==> x in images
  {
    if activeFilter == AllFilter then images else OfCategory(images, activeFilter)
  }

  /** A filter other than "すべて" shows exactly the images of its label, each as often, in order. */
  lemma FilterImagesExact(activeFilter: string, images: seq<ImageData>, x: ImageData)
    requires activeFilter != AllFilter
    ensures IsSubsequence(FilterImages(activeFilter, images), images)
    ensures multiset(FilterImages(activeFilter, images))[x] ==
      if x.category == activeFilter then multiset(images)[x] else 0
    ensures |FilterImages(activeFilter, images)| == Count(images, activeFilter)
  {
    OfCategoryIsSubsequence(images, activeFilter);
    OfCategoryMultiplicity(images, activeFilter, x);
    OfCategorySizeIsCount(images, activeFilter);
  }

  /** Every label the catalogue offers in the select shows at least one image. */
  lemma OfferedFilterShowsImages(c: GalleryConfig, category: string, directory: Option<seq<NodePath.EntryName>>, f: string)
    requires category in CategoryKeys && IsCatalogOf(c, category, directory)
    requires f in c.filters && f != AllFilter
    ensures FilterImages(f, c.images) != []
  {
    var x :| x in c.images && x.category == f;
    OfCategoryMultiplicity(c.images, f, x);
    assert x in multiset(FilterImages(f, c.images));
  }

  /** The Tailwind classes of one category's colour scheme. */
  datatype Palette = Palette(
    primary: string, primaryHover: string,
    secondary: string, secondaryHover: string,
    badge: string, accent: string)

  /** The palette of one colour name, in the pattern every scheme follows. */
  function Scheme(colour: string, onPrimary: string): Palette
  {
    Palette(
      "bg-" + colour + " " + onPrimary, "hover:bg-" + colour + "/90",
      "bg-" + colour + "/10 text-" + colour, "hover:bg-" + colour + "/20",
      "bg-" + colour + "/20 text-" + colour, "text-" + colour)
  }

  /** `baseColors`. */
  const BaseColors: map<string, Palette> := map[
    "morning" := Scheme("sunrise-orange", "text-white"),
    "work" := Scheme("focus-blue", "text-white"),
    "afternoon" := Scheme("warm-pink", "text-white"),
    "night" := Scheme("gold", "text-dark-brown")]

  /** `getCategoryThemeColors`: the category's palette, or the `work` palette for any other category. */
  function CategoryPalette(category: string): (p: Palette)
    ensures category in BaseColors ==> p == BaseColors[category]
    ensures category !in BaseColors ==> p == BaseColors["work"]
    ensures p in BaseColors.Values
  {
    if category in BaseColors then BaseColors[category] else BaseColors["work"]
  }

  /** Every category of the site has a palette of its own. */
  lemma EveryCategoryHasPalette(category: string)
    requires category in CategoryKeys
    ensures category in BaseColors && CategoryPalette(category) == BaseColors[category]
  {
  }

  /**
   * The palette of every category is the common scheme built from the theme
   * colour the loader configures for it; only night's text on the primary
   * colour is dark.
   */
  lemma PaletteUsesThemeColour(category: string)
    requires category in CategoryKeys
    ensures CategoryPalette(category) ==
      Scheme(LookupConfig(category).value.themeColor,
             if category == "night" then "text-dark-brown" else "text-white")
  {
  }

  /** `updateColumns`: two columns below 768 pixels, three from there on. */
  function ColumnCount(width: int): (c: nat)
    ensures c >= 1
    ensures c == 2 <==> width < 768
    ensures c == 3 <==> width >= 768
  {
    if width < 768 then 2 else if width < 1024 then 3 else 3
  }

  /** The columns after pushing `images` in order, image `i` into column `i % k`. */
  function RoundRobin(images: seq<ImageData>, k: nat): (cols: seq<seq<ImageData>>)
    requires k >= 1
    ensures |cols| == k
    decreases |images|
  {
    if images == [] then seq(k, _ => [])
    else
      var n := |images| - 1;
      var cols := RoundRobin(images[..n], k);
      cols[n % k := cols[n % k] + [images[n]]]
  }

  /** The images of all columns, column after column. */
  function Flatten(cols: seq<seq<ImageData>>): (r: seq<ImageData>)
    decreases |cols|
  {
    if cols == [] then [] else cols[0] + Flatten(cols[1..])
  }

  /** With `n` images, column `c` holds `n / k` images, plus one when `c < n % k`. */
  lemma {:induction false} RoundRobinSizes(images: seq<ImageData>, k: nat)
    requires k >= 1
    ensures forall c :: 0 <= c < k ==>
      |RoundRobin(images, k)[c]| == |images| / k + if c < |images| % k then 1 else 0
    decreases |images|
  {
    if images == [] {
      ModUnique(0, k, 0, 0);
    } else {
      var m := |images| - 1;
      RoundRobinSizes(images[..m], k);
      var q, r := m / k, m % k;
      ModUnique(m, k, q, r);
      if r + 1 < k {
        ModUnique(m + 1, k, q, r + 1);
      } else {
        Distrib(q + 1, q, k);
        ModUnique(m + 1, k, q + 1, 0);
      }
    }
  }

  /** Image `i` sits in column `i % k` at row `i / k`. */
  lemma {:induction false} RoundRobinPositions(images: seq<ImageData>, k: nat)
    requires k >= 1
    ensures forall i :: 0 <= i < |images| ==>
      i / k < |RoundRobin(images, k)[i % k]| && RoundRobin(images, k)[i % k][i / k] == images[i]
    decreases |images|
  {
    if images != [] {
      var m := |images| - 1;
      RoundRobinPositions(images[..m], k);
      RoundRobinSizes(images[..m], k);
      var q, r := m / k, m % k;
      ModUnique(m, k, q, r);
      assert |RoundRobin(images[..m], k)[r]| == q;
    }
  }

  lemma {:induction false} FlattenPush(cols: seq<seq<ImageData>>, c: nat, x: ImageData)
    requires c < |cols|
    ensures multiset(Flatten(cols[c := cols[c] + [x]])) == multiset(Flatten(cols)) + multiset{x}
    decreases |cols|
  {
    var pushed := cols[c := cols[c] + [x]];
    assert Flatten(cols) == cols[0] + Flatten(cols[1..]);
    if c == 0 {
      assert pushed[1..] == cols[1..];
      assert Flatten(pushed) == (cols[0] + [x]) + Flatten(cols[1..]);
    } else {
      assert pushed[1..] == cols[1..][c - 1 := cols[1..][c - 1] + [x]];
      FlattenPush(cols[1..], c - 1, x);
      assert Flatten(pushed) == cols[0] + Flatten(pushed[1..]);
    }
  }

  lemma {:induction false} FlattenEmpty(cols: seq<seq<ImageData>>)
    requires forall c :: 0 <= c < |cols| ==> cols[c] == []
    ensures Flatten(cols) == []
    decreases |cols|
  {
    if cols != [] {
      FlattenEmpty(cols[1..]);
    }
  }

  /** Every image lands in exactly one column, as often as it occurs in the list. */
  lemma {:induction false} RoundRobinPermutation(images: seq<ImageData>, k: nat)
    requires k >= 1
    ensures multiset(Flatten(RoundRobin(images, k))) == multiset(images)
    decreases |images|
  {
    if images == [] {
      FlattenEmpty(RoundRobin(images, k));
    } else {
      var m := |images| - 1;
      RoundRobinPermutation(images[..m], k);
      FlattenPush(RoundRobin(images[..m], k), m % k, images[m]);
      assert images == images[..m] + [images[m]];
    }
  }

  /**
   * The masonry distribution: `columns` empty arrays, then `images.forEach`
   * pushes image `i` onto array `i % columns`.
   */
  method Distribute(images: seq<ImageData>, columns: nat) returns (cols: seq<seq<ImageData>>)
    requires columns >= 1
    ensures cols == RoundRobin(images, columns)
    ensures |cols| == columns
    ensures forall i :: 0 <= i < |images| ==>
      i / columns < |cols[i % columns]| && cols[i % columns][i / columns] == images[i]
    ensures forall c, d :: 0 <= c < columns && 0 <= d < columns ==> |cols[c]| <= |cols[d]| + 1
    ensures multiset(Flatten(cols)) == multiset(images)
  {
    var columnArrays := new seq<ImageData>[columns](_ => []);
    var i := 0;
    while i < |images|
      invariant 0 <= i <= |images|
      invariant columnArrays[..] == RoundRobin(images[..i], columns)
    {
      assert images[..i + 1][..i] == images[..i];
      var c := i % columns;
      columnArrays[c] := columnArrays[c] + [images[i]];
      i := i + 1;
    }
    cols := columnArrays[..];
    assert images[..|images|] == images;
    RoundRobinSizes(images, columns);
    RoundRobinPositions(images, columns);
    RoundRobinPermutation(images, columns);
  }

  /** The masonry grid: its column count follows the window width. */
  class MasonryGrid {
    var columns: nat

    /** `useState(3)`, then `updateColumns` on mount. */
    constructor (width: int)
      ensures columns == ColumnCount(width)
    {
      columns := 3;
      new;
      Resize(width);
    }

    /** The `resize` listener. */
    method Resize(width: int)
      modifies this
      ensures columns == ColumnCount(width)
    {
      if width < 768 {
        columns := 2;
      } else if width < 1024 {
        columns := 3;
      } else {
        columns := 3;
      }
    }

    /** The columns the grid renders. */
    method Layout(images: seq<ImageData>) returns (cols: seq<seq<ImageData>>)
      requires columns >= 1
      ensures |cols| == columns
      ensures forall i :: 0 <= i < |images| ==>
        i / columns < |cols[i % columns]| && cols[i % columns][i / columns] == images[i]
      ensures forall c, d :: 0 <= c < columns && 0 <= d < columns ==> |cols[c]| <= |cols[d]| + 1
      ensures multiset(Flatten(cols)) == multiset(images)
    {
      cols := Distribute(images, columns);
    }
  }

  datatype Theme = Light | Dark
  datatype Layout = Grid | Masonry

  /** The gallery of one category, with the component's `useState` variables as fields. */
  class Gallery {
    const category: string
    const config: GalleryConfig
    var theme: Theme
    var layout: Layout
    var activeFilter: string
    var isLoading: bool
    var isModalOpen: bool
    var selectedImage: Option<ImageData>

    /** The modal is open exactly while an image is selected. */
    predicate ModalConsistent()
      reads this
    {
      isModalOpen <==> selectedImage.Some?
    }

    /** The initial state: light theme, grid layout, every image, loading, no modal. */
    constructor (category: string, config: GalleryConfig)
      ensures this.category == category && this.config == config
      ensures theme == Light && layout == Grid && activeFilter == AllFilter
      ensures isLoading && !isModalOpen && selectedImage == None
      ensures ModalConsistent()
    {
      this.category := category;
      this.config := config;
      theme := Light;
      layout := Grid;
      activeFilter := AllFilter;
      isLoading := true;
      isModalOpen := false;
      selectedImage := None;
    }

    /** The images on show. */
    function FilteredImages(): (r: seq<ImageData>)
      reads this
      ensures activeFilter == AllFilter ==> r == config.images
      ensures forall x :: x in r ==> x in config.images
    {
      FilterImages(activeFilter, config.images)
    }

    /** The colour scheme of the page. */
    function ThemeColors(): (p: Palette)
      reads this
      ensures p in BaseColors.Values
    {
      CategoryPalette(category)
    }

    /** The select's `onChange`. A new value restarts the loading delay; the same value changes nothing. */
    method SetActiveFilter(f: string)
      modifies this
      ensures activeFilter == f
      ensures isLoading == (if f != old(activeFilter) then true else old(isLoading))
      ensures theme == old(theme) && layout == old(layout)
      ensures isModalOpen == old(isModalOpen) && selectedImage == old(selectedImage)
    {
      if f != activeFilter {
        activeFilter := f;
        isLoading := true;
      }
    }

    /** The filter reset button: back to every image. */
    method ResetFilter()
      modifies this
      ensures activeFilter == AllFilter && FilteredImages() == config.images
      ensures isLoading == (if old(activeFilter) != AllFilter then true else old(isLoading))
      ensures theme == old(theme) && layout == old(layout)
      ensures isModalOpen == old(isModalOpen) && selectedImage == old(selectedImage)
    {
      SetActiveFilter(AllFilter);
    }

    /** The loading delay's timer fires. */
    method LoadingFinished()
      modifies this
      ensures !isLoading
      ensures activeFilter == old(activeFilter) && theme == old(theme) && layout == old(layout)
      ensures isModalOpen == old(isModalOpen) && selectedImage == old(selectedImage)
    {
      isLoading := false;
    }

    method SetLayout(l: Layout)
      modifies this
      ensures layout == l
      ensures activeFilter == old(activeFilter) && theme == old(theme) && isLoading == old(isLoading)
      ensures isModalOpen == old(isModalOpen) && selectedImage == old(selectedImage)
    {
      layout := l;
    }

    /** The theme button switches between light and dark. */
    method ToggleTheme()
      modifies this
      ensures theme == (if old(theme) == Light then Dark else Light)
      ensures activeFilter == old(activeFilter) && layout == old(layout) && isLoading == old(isLoading)
      ensures isModalOpen == old(isModalOpen) && selectedImage == old(selectedImage)
    {
      theme := if theme == Light then Dark else Light;
    }

    /** `handleImageClick`: open the modal on the clicked image. */
    method HandleImageClick(image: ImageData)
      modifies this
      ensures selectedImage == Some(image) && isModalOpen && ModalConsistent()
      ensures activeFilter == old(activeFilter) && theme == old(theme) && layout == old(layout)
      ensures isLoading == old(isLoading)
    {
      selectedImage := Some(image);
      isModalOpen := true;
    }

    /** `handleCloseModal`: close the modal and forget the selection. */
    method HandleCloseModal()
      modifies this
      ensures selectedImage == None && !isModalOpen && ModalConsistent()
      ensures activeFilter == old(activeFilter) && theme == old(theme) && layout == old(layout)
      ensures isLoading == old(isLoading)
    {
      isModalOpen := false;
      selectedImage := None;
    }

    /** The props handed to the modal: open flag, selected image and the images on show. */
    function ModalProps(): (r: (bool, Option<ImageData>, seq<ImageData>))
      reads this
      ensures r.0 == isModalOpen && r.1 == selectedImage
      ensures forall x :: x in r.2 ==> x in config.images
    {
      (isModalOpen, selectedImage, FilteredImages())
    }
  }
}
