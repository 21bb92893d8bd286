/**
 * The image catalogue built from the gallery directories: file-name parsing,
 * one category's catalogue and the catalogue of every category. The file
 * system is a parameter: a category's directory is `None` when it does not
 * exist or cannot be listed, otherwise the names it lists, in listing order.
 */
module ImageLoader {
  import opened Wrappers
  import opened StringOps
  import opened NodePath
  import opened Catalog
  import opened SeqFacts
  import opened FilenameSort

  /** The accepted (lower-cased) extensions. */
  const SupportedExtensions: seq<string> := [".jpg", ".jpeg", ".png", ".webp", ".gif"]

  /** The label of records whose file name carries none. */
  const OtherLabel: string := "その他"

  /** The settings of one top-level category. */
  datatype CategoryConfig = CategoryConfig(themeColor: string, themeIcon: string, filters: seq<string>)

  /** The configured categories, in declaration order. */
  const CategoryKeys: seq<string> := ["morning", "work", "afternoon", "night"]

  /** The configured settings of `category`, if it is one of the four. */
  function LookupConfig(category: string): (r: Option<CategoryConfig>)
    ensures r.Some? <==> category in CategoryKeys
    ensures r.Some? ==> |r.value.filters| == 4 && NoDuplicates(r.value.filters)
  {
    if category == "morning" then
      Some(CategoryConfig("sunrise-orange", "\U{1F4DA}", ["読書", "朝食", "軽作業", "コーヒータイム"]))
    else if category == "work" then
      Some(CategoryConfig("focus-blue", "\U{2712}\U{FE0F}", ["デスクワーク", "資料作成", "アイデア", "会議"]))
    else if category == "afternoon" then
      Some(CategoryConfig("warm-pink", "\U{1F370}", ["ティータイム", "読書", "おしゃべり", "スイーツ"]))
    else if category == "night" then
      Some(CategoryConfig("gold", "\U{1F319}", ["残業", "創作", "読書", "夜カフェ"]))
    else None
  }

  function Description(title: string): string
  {
    title + "の風景をお楽しみください。"
  }

  /** The record of `filename` in directory `category`. */
  function Record(category: string, filename: string, title: string, imageCategory: string): ImageData
  {
    ImageData(category + "_" + filename, title, Description(title), imageCategory,
              "/images/gallery/" + category + "/" + filename, filename)
  }

  /** The shape every record catalogued under `category` has. */
  predicate WellFormed(x: ImageData, category: string)
  {
    && x.id == category + "_" + x.filename
    && x.filepath == "/images/gallery/" + category + "/" + x.filename
    && x.description == Description(x.title)
    && x.title != "" && x.category != ""
  }

  /**
   * The record for `filename` whose name without extension is `stem`: with at
   * least two underscores the middle segments are the title and the last one
   * the label; otherwise the stem is the title and the label is "その他".
   */
  function FromStem(filename: string, category: string, stem: string): (x: ImageData)
    requires filename != "" && stem != ""
    ensures x.filename == filename && WellFormed(x, category)
  {
    var parts := Split(stem, '_');
    if |parts| >= 3 then
      var imageCategory := parts[|parts| - 1];
      var title := Join(parts[1..|parts| - 1], '_');
      Record(category, filename, if title == "" then filename else title, if imageCategory == "" then OtherLabel else imageCategory)
    else
      Record(category, filename, stem, OtherLabel)
  }

  /**
   * `parseImageFilename`: a record exactly when the lower-cased extension is
   * supported; the record keeps the file name and has the catalogue's shape.
   */
  function ParseImageFilename(filename: EntryName, category: string): (r: Option<ImageData>)
    ensures r.Some? <==> ToLower(ExtName(filename)) in SupportedExtensions
    ensures r.Some? ==> r.value.filename == filename && WellFormed(r.value, category)
  {
    var ext := ToLower(ExtName(filename));
    if ext !in SupportedExtensions then None
    else
      var stem := BaseName(filename, ext);
      assert stem != "" by {
        if EndsWith(filename, ext) { assert |stem| + |ext| == |filename|; }
      }
      Some(FromStem(filename, category, stem))
  }

  /** The parser of one directory's entries: each name is parsed under the directory's category. */
  function Parser(category: string): EntryName -> Option<ImageData>
  {
    (f: EntryName) => ParseImageFilename(f, category)
  }

  /** A parser that keeps the accepted name in the record it returns. */
  ghost predicate KeepsFilename(parse: EntryName -> Option<ImageData>)
  {
    forall f :: parse(f).Some? ==> parse(f).value.filename == f
  }

  lemma ParserShape(category: string)
    ensures KeepsFilename(Parser(category))
    ensures forall f :: Parser(category)(f).Some? ==> WellFormed(Parser(category)(f).value, category)
  {
  }

  /**
   * The parsed records with the rejected names dropped: a record for every
   * accepted name, in listing order, and nothing else.
   */
  function ParseEntries(files: seq<EntryName>, parse: EntryName -> Option<ImageData>): (images: seq<ImageData>)
    ensures |images| <= |files|
    ensures forall x :: x in images ==> exists f :: f in files && parse(f) == Some(x)
    ensures forall f :: f in files && parse(f).Some? ==> parse(f).value in images
    decreases |files|
  {
    if files == [] then []
    else
      var rest := ParseEntries(files[1..], parse);
      assert forall f :: f in files[1..] ==> f in files;
      assert forall f :: f in files ==> f == files[0] || f in files[1..];
      match parse(files[0])
      case Some(x) => [x] + rest
      case None => rest
  }

  /** Each record occurs as often as the name it was parsed from is listed. */
  lemma {:induction false} ParseEntriesCounts(files: seq<EntryName>, parse: EntryName -> Option<ImageData>,
                                              f: EntryName, x: ImageData)
    requires KeepsFilename(parse) && x.filename == f
    ensures multiset(ParseEntries(files, parse))[x] == if parse(f) == Some(x) then multiset(files)[f] else 0
    decreases |files|
  {
    if files != [] {
      ParseEntriesCounts(files[1..], parse, f, x);
      assert files == [files[0]] + files[1..];
      var rest := ParseEntries(files[1..], parse);
      match parse(files[0])
      case Some(y) =>
        assert ParseEntries(files, parse) == [y] + rest;
        assert y.filename == files[0];
      case None =>
        assert ParseEntries(files, parse) == rest;
    }
  }

  /** Listings with the same names give the same records, whatever their order. */
  lemma ParseEntriesPermutation(d1: seq<EntryName>, d2: seq<EntryName>, parse: EntryName -> Option<ImageData>)
    requires KeepsFilename(parse) && multiset(d1) == multiset(d2)
    ensures multiset(ParseEntries(d1, parse)) == multiset(ParseEntries(d2, parse))
  {
    forall x: ImageData
      ensures multiset(ParseEntries(d1, parse))[x] == multiset(ParseEntries(d2, parse))[x]
    {
      if '/' in x.filename {
        assert x !in ParseEntries(d1, parse) && x !in ParseEntries(d2, parse);
      } else {
        ParseEntriesCounts(d1, parse, x.filename, x);
        ParseEntriesCounts(d2, parse, x.filename, x);
      }
    }
  }

  /** Parsed records with the same file name are the same record. */
  lemma ParsedKeyedByFilename(files: seq<EntryName>, parse: EntryName -> Option<ImageData>)
    requires KeepsFilename(parse)
    ensures KeyedByFilename(ParseEntries(files, parse))
  {
    var images := ParseEntries(files, parse);
    forall x, y | x in images && y in images && x.filename == y.filename ensures x == y {
      var f :| f in files && parse(f) == Some(x);
      var g :| g in files && parse(g) == Some(y);
    }
  }

  /** Every record a directory's parser accepts has the catalogue's shape. */
  lemma ParsedWellFormed(files: seq<EntryName>, category: string)
    ensures forall x :: x in ParseEntries(files, Parser(category)) ==> WellFormed(x, category)
  {
    ParserShape(category);
  }

  /** A listing that names each entry once gives each record once. */
  lemma ParsedOnce(files: seq<EntryName>, parse: EntryName -> Option<ImageData>, x: ImageData)
    requires KeepsFilename(parse) && NoDuplicates(files)
    ensures multiset(ParseEntries(files, parse))[x] <= 1
  {
    if '/' in x.filename {
      assert x !in ParseEntries(files, parse);
    } else {
      ParseEntriesCounts(files, parse, x.filename, x);
      NoDuplicatesCount(files, x.filename);
    }
  }

  /**
   * The configured filters that some image carries as its label, in
   * configured order.
   */
  function AvailableFilters(filters: seq<string>, images: seq<ImageData>): (r: seq<string>)
    ensures IsSubsequence(r, filters)
    ensures forall f :: f in r <==> f in filters && exists x :: x in images && x.category == f
    ensures NoDuplicates(filters) ==> NoDuplicates(r)
    decreases |filters|
  {
    if filters == [] then []
    else
      var rest := AvailableFilters(filters[1..], images);
      assert forall f :: f in filters <==> f == filters[0] || f in filters[1..];
      if exists x :: x in images && x.category == filters[0] then
        assert NoDuplicates(filters) ==> filters[0] !in filters[1..] && NoDuplicates(filters[1..]);
        [filters[0]] + rest
      else
        rest
  }

  /** Why a category's catalogue cannot be built. */
  datatype LoadError = UnknownCategory(category: string)

  /** What `loadCategoryImages` promises about the catalogue `c` of a configured category. */
  ghost predicate IsCatalogOf(c: GalleryConfig, category: string, directory: Option<seq<EntryName>>)
    requires category in CategoryKeys
  {
    var config := LookupConfig(category).value;
    && c.themeColor == config.themeColor && c.themeIcon == config.themeIcon
    && (directory.None? ==> c.images == [] && c.filters == [])
    && (directory.Some? ==>
          && multiset(c.images) == multiset(ParseEntries(directory.value, Parser(category)))
          && |c.images| <= |directory.value|)
    && Sorted(c.images)
    && (forall x :: x in c.images ==> WellFormed(x, category))
    && IsSubsequence(c.filters, config.filters) && NoDuplicates(c.filters)
    && (forall f :: f in c.filters <==> f in config.filters && exists x :: x in c.images && x.category == f)
  }

  /** The records of a directory listing, sorted by file name; none without a directory. */
  function SortedImages(category: string, directory: Option<seq<EntryName>>): (images: seq<ImageData>)
    ensures directory.None? ==> images == []
    ensures directory.Some? ==>
      && multiset(images) == multiset(ParseEntries(directory.value, Parser(category)))
      && |images| <= |directory.value|
    ensures Sorted(images)
    ensures forall x :: x in images ==> WellFormed(x, category)
  {
    match directory
    case None => []
    case Some(files) =>
      var parsed := ParseEntries(files, Parser(category));
      var images := SortByFilename(parsed);
      ParsedWellFormed(files, category);
      assert forall x :: x in images ==> x in multiset(parsed);
      images
  }

  /**
   * `loadCategoryImages`: an error for a category that is not configured;
   * otherwise the accepted records sorted by file name, the configured
   * filters that some record carries and the category's theme.
   */
  function LoadCategoryImages(category: string, directory: Option<seq<EntryName>>): (r: Result<GalleryConfig, LoadError>)
    ensures r.Failure? <==> category !in CategoryKeys
    ensures r.Failure? ==> r.error == UnknownCategory(category)
    ensures r.Success? ==> IsCatalogOf(r.value, category, directory)
  {
    match LookupConfig(category)
    case None => Failure(UnknownCategory(category))
    case Some(config) =>
      var images := SortedImages(category, directory);
      var filters := AvailableFilters(config.filters, images);
      Success(GalleryConfig(config.themeColor, config.themeIcon, filters, images))
  }

  /** The catalogue does not depend on the order the directory lists its names in. */
  lemma LoadIgnoresListingOrder(category: string, d1: seq<EntryName>, d2: seq<EntryName>)
    requires multiset(d1) == multiset(d2)
    ensures LoadCategoryImages(category, Some(d1)) == LoadCategoryImages(category, Some(d2))
  {
    if category in CategoryKeys {
      var s := SortedImages(category, Some(d1));
      var t := SortedImages(category, Some(d2));
      var parse := Parser(category);
      ParserShape(category);
      ParseEntriesPermutation(d1, d2, parse);
      ParsedKeyedByFilename(d1, parse);
      KeyedPermutation(s, ParseEntries(d1, parse));
      SortedPermutationsEqual(s, t);
    }
  }

  /** Two records of one category with the same id have the same file name. */
  lemma IdDeterminesFilename(category: string, x: ImageData, y: ImageData)
    requires WellFormed(x, category) && WellFormed(y, category) && x.id == y.id
    ensures x.filename == y.filename
  {
    var k := |category| + 1;
    assert x.filename == x.id[k..];
    assert y.filename == y.id[k..];
  }

  /** A directory that lists each name once gives records with distinct ids. */
  lemma CatalogIdsDistinct(category: string, files: seq<EntryName>)
    requires category in CategoryKeys && NoDuplicates(files)
    ensures var images := LoadCategoryImages(category, Some(files)).value.images;
      forall i, j :: 0 <= i < j < |images| ==> images[i].id != images[j].id
  {
    var images := LoadCategoryImages(category, Some(files)).value.images;
    var parse := Parser(category);
    var parsed := ParseEntries(files, parse);
    ParserShape(category);
    forall i, j | 0 <= i < j < |images| ensures images[i].id != images[j].id {
      if images[i].id == images[j].id {
        IdDeterminesFilename(category, images[i], images[j]);
        ParsedKeyedByFilename(files, parse);
        KeyedPermutation(images, parsed);
        RepeatedCount(images, i, j);
        ParsedOnce(files, parse, images[i]);
      }
    }
  }

  // ---------------------------------------------------------------------------
  // File-name conventions
  // ---------------------------------------------------------------------------

  /** The segments of `order_title_imageCategory` when neither end holds an underscore. */
  lemma SplitConventionalStem(order: string, title: string, imageCategory: string)
    requires '_' !in order && '_' !in imageCategory
    ensures Split(order + "_" + title + "_" + imageCategory, '_') == [order] + Split(title, '_') + [imageCategory]
  {
    assert order + "_" + title + "_" + imageCategory == order + ['_'] + (title + ['_'] + imageCategory);
    SplitAround(order, title + ['_'] + imageCategory, '_');
    SplitAround(title, imageCategory, '_');
    SplitWithoutSeparator(order, '_');
    SplitWithoutSeparator(imageCategory, '_');
  }

  /**
   * The record of a conventional stem: the middle part is the title (or the
   * whole file name when it is empty), the last part the label (or "その他").
   */
  lemma FromConventionalStem(filename: string, category: string, stem: string,
                             order: string, title: string, imageCategory: string)
    requires filename != "" && '_' !in order && '_' !in imageCategory
    requires stem == order + "_" + title + "_" + imageCategory
    ensures FromStem(filename, category, stem) ==
      Record(category, filename, if title == "" then filename else title,
             if imageCategory == "" then OtherLabel else imageCategory)
  {
    SplitConventionalStem(order, title, imageCategory);
    var parts := Split(stem, '_');
    assert parts[1..|parts| - 1] == Split(title, '_');
    SplitThenJoin(title, '_');
  }

  /** How `ParseImageFilename` proceeds once its extension and stem are known. */
  lemma ParseSteps(filename: EntryName, category: string, ext: string, stem: string)
    requires ToLower(ExtName(filename)) == ext && ext in SupportedExtensions
    requires BaseName(filename, ext) == stem && filename != "" && stem != ""
    ensures ParseImageFilename(filename, category) == Some(FromStem(filename, category, stem))
  {
  }

  /** The supported extensions are lower-case, start with their only dot and hold no underscore. */
  lemma SupportedExtensionShape(ext: string)
    requires ext in SupportedExtensions
    ensures |ext| >= 4 && ext[0] == '.' && '.' !in ext[1..] && '_' !in ext
    ensures ToLower(ext) == ext
  {
    ToLowerKeepsLower(ext);
  }

  /** An extension that lower-cases to a supported one has the same dots and no underscore. */
  lemma LowerCasesToSupported(ext: string)
    requires ToLower(ext) in SupportedExtensions
    ensures |ext| >= 4 && ext[0] == '.' && '.' !in ext[1..] && '_' !in ext
  {
    var lower := ToLower(ext);
    SupportedExtensionShape(lower);
    forall i | 0 <= i < |ext| ensures ext[i] != '_' && (i > 0 ==> ext[i] != '.') {
      assert lower[i] == ext[i] || IsAsciiUpper(ext[i]);
      if i > 0 { assert lower[1..][i - 1] == lower[i]; }
      assert lower[i] in lower;
    }
  }

  /** `path.basename(stem + ext, ext)` is the stem. */
  lemma BaseNameOfStem(filename: EntryName, stem: string, ext: string)
    requires filename == stem + ext && ext != ""
    ensures BaseName(filename, ext) == stem
  {
    assert filename[|filename| - |ext|..] == ext;
  }

  /**
   * `{order}_{title}_{label}{ext}`: the title is the middle part (which may
   * itself hold underscores), or the whole file name when it is empty; the
   * label is the last part, or "その他" when it is empty.
   */
  lemma ParseFollowsConvention(filename: EntryName, order: string, title: string,
                               imageCategory: string, ext: string, category: string)
    requires '_' !in order && '_' !in imageCategory && ext in SupportedExtensions
    requires filename == order + "_" + title + "_" + imageCategory + ext
    ensures ParseImageFilename(filename, category) ==
      Some(Record(category, filename, if title == "" then filename else title,
                  if imageCategory == "" then OtherLabel else imageCategory))
  {
    var stem := order + "_" + title + "_" + imageCategory;
    assert filename == stem + ext;
    SupportedExtensionShape(ext);
    ExtNameOfStemAndExtension(filename, stem, ext);
    BaseNameOfStem(filename, stem, ext);
    ParseSteps(filename, category, ext, stem);
    FromConventionalStem(filename, category, stem, order, title, imageCategory);
  }

  /**
   * An upper-case extension is removed only after lower-casing, and
   * `basename` compares case-sensitively: the extension stays in the name,
   * so it ends up in the label.
   */
  lemma UpperCaseExtensionStaysInLabel(filename: EntryName, order: string, title: string,
                                       imageCategory: string, ext: string, category: string)
    requires '_' !in order && '_' !in imageCategory
    requires ToLower(ext) in SupportedExtensions && ToLower(ext) != ext
    requires filename == order + "_" + title + "_" + imageCategory + ext
    ensures ParseImageFilename(filename, category) ==
      Some(Record(category, filename, if title == "" then filename else title, imageCategory + ext))
  {
    UpperCaseNotStripped(filename, order, title, imageCategory, ext, category);
    UpperCaseRecord(filename, order, title, imageCategory, ext, category);
  }

  lemma UpperCaseNotStripped(filename: EntryName, order: string, title: string,
                             imageCategory: string, ext: string, category: string)
    requires ToLower(ext) in SupportedExtensions && ToLower(ext) != ext
    requires filename == order + "_" + title + "_" + imageCategory + ext
    ensures ParseImageFilename(filename, category) == Some(FromStem(filename, category, filename))
  {
    var stem := order + "_" + title + "_" + imageCategory;
    assert filename == stem + ext;
    UpperCaseKept(filename, stem, ext);
    ParseSteps(filename, category, ToLower(ext), filename);
  }

  lemma UpperCaseRecord(filename: EntryName, order: string, title: string,
                        imageCategory: string, ext: string, category: string)
    requires '_' !in order && '_' !in imageCategory && ToLower(ext) in SupportedExtensions
    requires filename == order + "_" + title + "_" + imageCategory + ext
    ensures FromStem(filename, category, filename) ==
      Record(category, filename, if title == "" then filename else title, imageCategory + ext)
  {
    LowerCasesToSupported(ext);
    ConcatAssoc(order + "_" + title + "_", imageCategory, ext);
    FromConventionalStem(filename, category, filename, order, title, imageCategory + ext);
  }

  /** `basename` keeps an extension whose case differs from its lower-cased form. */
  lemma UpperCaseKept(filename: EntryName, stem: string, ext: string)
    requires filename == stem + ext && stem != ""
    requires ToLower(ext) in SupportedExtensions && ToLower(ext) != ext
    ensures ToLower(ExtName(filename)) == ToLower(ext)
    ensures BaseName(filename, ToLower(ext)) == filename
  {
    LowerCasesToSupported(ext);
    ExtNameOfStemAndExtension(filename, stem, ext);
    assert !EndsWith(filename, ToLower(ext)) by { assert filename[|filename| - |ext|..] == ext; }
  }

  /** A name without a dot has no extension and is rejected. */
  lemma NoDotRejected(filename: EntryName, category: string)
    requires '.' !in filename
    ensures ParseImageFilename(filename, category) == None
  {
    assert filename != [] ==> '.' !in filename[1..] by {
      if filename != [] {
        forall i | 0 <= i < |filename| - 1 ensures filename[1..][i] != '.' {
          assert filename[1..][i] == filename[i + 1];
        }
      }
    }
  }

  /** A stem followed by an extension that does not lower-case to a supported one is rejected. */
  lemma UnsupportedExtensionRejected(filename: EntryName, stem: string, ext: string, category: string)
    requires filename == stem + ext && stem != "" && filename != ".."
    requires ext != "" && ext[0] == '.' && '.' !in ext[1..]
    requires ToLower(ext) !in SupportedExtensions
    ensures ParseImageFilename(filename, category) == None
  {
    ExtNameOfStemAndExtension(filename, stem, ext);
  }

  /** A name with fewer than two underscores keeps its stem as the title and gets "その他". */
  lemma ParseWithoutConvention(filename: EntryName, stem: string, ext: string, category: string)
    requires ext in SupportedExtensions && filename == stem + ext && stem != ""
    requires |Split(stem, '_')| < 3
    ensures ParseImageFilename(filename, category) == Some(Record(category, filename, stem, OtherLabel))
  {
    SupportedExtensionShape(ext);
    ExtNameOfStemAndExtension(filename, stem, ext);
    BaseNameOfStem(filename, stem, ext);
    ParseSteps(filename, category, ext, stem);
  }

  lemma ExampleConventional()
    ensures ParseImageFilename("01_朝の読書_読書.jpg", "morning") ==
      Some(Record("morning", "01_朝の読書_読書.jpg", "朝の読書", "読書"))
  {
    ParseFollowsConvention("01_朝の読書_読書.jpg", "01", "朝の読書", "読書", ".jpg", "morning");
  }

  lemma ExampleTitleWithUnderscore()
    ensures ParseImageFilename("02_a_b_c.png", "work") ==
      Some(Record("work", "02_a_b_c.png", "a_b", "c"))
  {
    ParseFollowsConvention("02_a_b_c.png", "02", "a_b", "c", ".png", "work");
  }

  lemma ExampleEmptyParts()
    ensures ParseImageFilename("03__.webp", "night") ==
      Some(Record("night", "03__.webp", "03__.webp", OtherLabel))
  {
    ParseFollowsConvention("03__.webp", "03", "", "", ".webp", "night");
  }

  lemma ExampleFallback()
    ensures ParseImageFilename("photo.gif", "afternoon") ==
      Some(Record("afternoon", "photo.gif", "photo", OtherLabel))
  {
    SplitWithoutSeparator("photo", '_');
    ParseWithoutConvention("photo.gif", "photo", ".gif", "afternoon");
  }

  lemma LowerCaseJpg(ext: string)
    requires ext == ".JPG"
    ensures ToLower(ext) == ".jpg"
  {
    var r := ToLower(ext);
    assert r[0] == '.' && r[1] == 'j' && r[2] == 'p' && r[3] == 'g';
    assert r == [r[0], r[1], r[2], r[3]];
  }

  lemma ExampleUpperCaseExtension(filename: EntryName)
    requires filename == "01_a_B.JPG"
    ensures ParseImageFilename(filename, "morning") == Some(Record("morning", filename, "a", "B.JPG"))
  {
    var ext: string := ".JPG";
    var order: string, title: string, imageCategory: string := "01", "a", "B";
    LowerCaseJpg(ext);
    assert filename == order + "_" + title + "_" + imageCategory + ext;
    assert imageCategory + ext == "B.JPG";
    UpperCaseExtensionStaysInLabel(filename, order, title, imageCategory, ext, "morning");
  }

  /** A dot-file whose only dot is the leading one has no extension and is rejected. */
  lemma DotFileRejected(filename: EntryName, category: string)
    requires filename != [] && filename[0] == '.' && '.' !in filename[1..]
    ensures ParseImageFilename(filename, category) == None
  {
    assert ExtName(filename) == "";
    assert ToLower("") == "";
  }

  /** ".jpg" itself is a dot-file, not a JPEG. */
  lemma ExampleDotFile(filename: EntryName)
    requires filename == ".jpg"
    ensures ParseImageFilename(filename, "work") == None
  {
    assert filename[1..] == "jpg";
    DotFileRejected(filename, "work");
  }

  // ---------------------------------------------------------------------------
  // All categories
  // ---------------------------------------------------------------------------

  /** The listing of `category`'s directory in the file-system snapshot `fs`. */
  function Directory(fs: map<string, seq<EntryName>>, category: string): Option<seq<EntryName>>
  {
    if category in fs then Some(fs[category]) else None
  }

  /** The catalogue used for a category whose loading fails. */
  const FallbackConfig := GalleryConfig("coffee-brown", "\U{2615}", [], [])

  /**
   * `loadAllImages`: the catalogue of every configured category, under its
   * name. Loading a configured category never fails, so the fallback
   * catalogue is never stored.
   */
  method LoadAllImages(fs: map<string, seq<EntryName>>) returns (result: map<string, GalleryConfig>)
    ensures result.Keys == set k | k in CategoryKeys
    ensures forall k :: k in result ==>
      LoadCategoryImages(k, Directory(fs, k)) == Success(result[k]) && result[k] != FallbackConfig
  {
    result := map[];
    var i := 0;
    while i < |CategoryKeys|
      invariant 0 <= i <= |CategoryKeys|
      invariant forall k :: k in result <==> k in CategoryKeys[..i]
      invariant forall k :: k in result ==>
        LoadCategoryImages(k, Directory(fs, k)) == Success(result[k]) && result[k] != FallbackConfig
    {
      var category := CategoryKeys[i];
      var loaded := LoadCategoryImages(category, Directory(fs, category));
      result := result[category := if loaded.Success? then loaded.value else FallbackConfig];
      assert CategoryKeys[..i + 1] == CategoryKeys[..i] + [category];
      i := i + 1;
    }
    assert CategoryKeys[..i] == CategoryKeys;
  }
}
