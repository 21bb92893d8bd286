# Coffee-desk gallery: a Dafny model of its core

The site shows photographs of a desk with coffee, grouped into four
categories: morning, work, afternoon and night. This project models the parts
of the site that hold its logic, and proves properties of that model:

- **The image loader.** It turns a category's directory listing into a
  catalogue:
  - it parses file names of the form `{order}_{title}_{label}.{ext}`;
  - it sorts the records by file name;
  - it keeps only the configured filters that some image uses;
  - it builds the catalogue of every category, the statistics and the demo
    sample images.
- **The gallery page.** Its parts are:
  - the label filter and the category palette;
  - the responsive column count and the round-robin distribution of images
    into columns (the masonry layout);
  - the page state: theme, layout, active filter, loading flag and the
    selected image.
- **The lightbox.** Its parts are:
  - finding the current image;
  - wrap-around previous and next;
  - the zoom, favourite and loading flags;
  - the download link, the "i / n" counter and the keyboard shortcuts.
- **The contact form.** Its parts are:
  - the field updates and the character counter;
  - the validation rules with their exact error messages, including the
    e-mail pattern `^[^\s@]+@[^\s@]+\.[^\s@]+$`;
  - the submit, completion and new-inquiry cycle.

## Modelling choices

- **Files.**
  - `wrappers.dfy`: `Option` and `Result`.
  - `string_ops.dfy`: the JavaScript string operations that are used:
    - `split` and `join`;
    - ASCII `toLowerCase`;
    - `trim` with the ECMAScript white-space set;
    - decimal rendering;
    - code-point order.
  - `node_path.dfy`: Node's POSIX `path.extname` and `path.basename`.
  - `catalog.dfy`: the shared records.
  - `seq_facts.dfy`: facts about sequences.
  - `filename_sort.dfy`: the sort.
  - `arith.dfy`: facts about `%` and `/`.
  - `image_loader.dfy` and `image_stats.dfy`: `utils/imageLoader.ts`.
  - `gallery.dfy`: `components/Gallery.tsx`.
  - `image_modal.dfy`: `components/ImageModal.tsx`.
  - `contact_form.dfy`: `components/ContactForm.tsx`.
- **The file system is a parameter.**
  - A directory is `None` when it is missing or cannot be listed. Otherwise
    it is its listing, in listing order.
  - `fs` maps each category to its listing.
  - Directory entries are single names without '/' (`EntryName`).
- **Thrown errors become `Result` values.** Throwing on an unknown category
  becomes `Failure(UnknownCategory(c))`. The per-category fallback of
  `loadAllImages` is modelled too. `LoadAllImages` proves that the fallback
  is never taken, because every key it loads is configured.
- **The React components are classes.**
  - Their `useState` variables and props are fields.
  - Each handler is a method that states the whole new state.
  - A pending timer is an explicit method that the environment calls when
    the timer fires:
    - `Gallery.LoadingFinished`: the 500 ms loading delay;
    - `ImageModal.ImageLoaded`: the image's `onLoad` and `onError`;
    - `ContactForm.CompleteSubmission`: the two-second submission delay.
  - Effects are methods that the prop or state change calls (`SyncImage`,
    `Resize`).
- **Lengths are JavaScript lengths.** `String.length` counts UTF-16 code
  units (`Utf16Length`). A character outside the Basic Multilingual Plane
  counts twice, so the ten-character minimum of a message is measured the way
  the browser measures it.

Behaviours a reader may not expect, all modelled as the code has them:

- **Extension case.** The extension check lower-cases the extension, but
  `path.basename(name, ext)` then strips the lower-cased extension
  case-sensitively. An upper-case extension is therefore accepted but not
  stripped: `01_a_B.JPG` gets the label `B.JPG`. See
  `UpperCaseExtensionStaysInLabel` and `ExampleUpperCaseExtension`.
- **Empty title.** A conventional name whose title is empty (`03__.webp`)
  gets the whole file name, extension included, as its title.
- **Empty label.** A conventional name whose label is empty gets the label
  "その他".
- **Names that start with a dot.** A name such as `.jpg` has no extension
  for `path.extname`, so it is rejected. A name without an underscore
  structure falls back to its stem with the label "その他".
- **Empty category.** `getImageStats` treats an empty category string like
  an omitted one, because the empty string is falsy in JavaScript. It then
  returns the overall statistics.

## Model

| member | source | states |
|---|---|---|
| ImageLoader.LookupConfig | utils/imageLoader.ts:25-46 | a configuration exists exactly for morning, work, afternoon and night; each has four distinct filters |
| ImageLoader.Description | utils/imageLoader.ts:72 | the description sentence built from a title; `WellFormed` requires every catalogued record to carry the one of its own title |
| ImageLoader.Record | utils/imageLoader.ts:69-86 | the record of a file name in a category, with id, path and description derived from it; `IdDeterminesFilename` and `CatalogIdsDistinct` show that its id identifies the file |
| ImageLoader.FromStem | utils/imageLoader.ts:60-87 | the record keeps the file name and has the catalogue shape: id `category_filename`, path under `/images/gallery/category/`, description from the title, non-empty title and label |
| ImageLoader.ParseImageFilename | utils/imageLoader.ts:53-92 | a record is produced exactly when the lower-cased extension is one of .jpg .jpeg .png .webp .gif; the record keeps the file name and is well formed |
| ImageLoader.ParserShape | utils/imageLoader.ts:113 | the parser of a category keeps every file name and yields only well-formed records |
| ImageLoader.ParseEntries | utils/imageLoader.ts:112-114 | after the map and the null filter, every record comes from a listed name, every accepted name contributes its record, and nothing is added |
| ImageLoader.ParseEntriesCounts | utils/imageLoader.ts:112-114 | a record appears as often as its file name is listed, or never when that name is rejected |
| ImageLoader.ParseEntriesPermutation | utils/imageLoader.ts:110-114 | listings with the same names in another order give the same records in another order |
| ImageLoader.ParsedKeyedByFilename | utils/imageLoader.ts:112-114 | records that share a file name are equal |
| ImageLoader.ParsedWellFormed | utils/imageLoader.ts:112-114 | every parsed record of a directory has the catalogue shape of its category |
| ImageLoader.ParsedOnce | utils/imageLoader.ts:110-114 | a listing without repeated names yields each record at most once |
| ImageLoader.AvailableFilters | utils/imageLoader.ts:121-125 | the kept filters are a subsequence of the configured ones, a filter is kept exactly when some image carries it, and no filter is repeated |
| ImageLoader.SortedImages | utils/imageLoader.ts:105-116 | a missing directory gives no images; otherwise a sorted permutation of the parsed records, no more than the listing, all well formed |
| ImageLoader.LoadCategoryImages | utils/imageLoader.ts:97-133 | an error exactly for a category that is not configured, naming it; otherwise the configured colour and icon, the sorted permutation of the parsed records and the filters in use |
| ImageLoader.LoadIgnoresListingOrder | utils/imageLoader.ts:110-116 | the catalogue does not depend on the order in which the directory is listed |
| ImageLoader.IdDeterminesFilename | utils/imageLoader.ts:70 | within a category, records with the same id have the same file name |
| ImageLoader.CatalogIdsDistinct | utils/imageLoader.ts:97-133 | a listing without repeated names gives a catalogue whose ids are pairwise distinct |
| ImageLoader.SplitConventionalStem | utils/imageLoader.ts:61-67 | splitting `order_title_label` at underscores gives the order, the title's own segments and the label |
| ImageLoader.FromConventionalStem | utils/imageLoader.ts:63-76 | a conventional stem gives its title (or the whole file name when the title is empty) and its label (or "その他" when the label is empty) |
| ImageLoader.ParseSteps | utils/imageLoader.ts:55-61 | once the lower-cased extension is supported and the stem is known, parsing builds the record from the stem |
| ImageLoader.SupportedExtensionShape | utils/imageLoader.ts:22 | every supported extension is a dot followed by at least three characters, with no second dot, no underscore and no upper case |
| ImageLoader.LowerCasesToSupported | utils/imageLoader.ts:55-56 | an extension that lower-cases to a supported one has the same shape |
| ImageLoader.BaseNameOfStem | utils/imageLoader.ts:60 | stripping an extension from stem plus that extension leaves the stem |
| ImageLoader.ParseFollowsConvention | utils/imageLoader.ts:53-76 | `{order}_{title}_{label}{ext}` with a lower-case supported extension parses to that title and label, with their fallbacks |
| ImageLoader.UpperCaseExtensionStaysInLabel | utils/imageLoader.ts:55-67 | with an extension that is supported only after lower-casing, the extension stays at the end of the label |
| ImageLoader.UpperCaseNotStripped | utils/imageLoader.ts:55-60 | such a name is parsed with the whole file name as its stem |
| ImageLoader.UpperCaseRecord | utils/imageLoader.ts:63-76 | the record built from that whole-name stem carries the label plus the extension |
| ImageLoader.UpperCaseKept | utils/imageLoader.ts:55-60 | the lower-cased extension of such a name is supported, while the case-sensitive basename strips nothing |
| ImageLoader.NoDotRejected | utils/imageLoader.ts:55-58 | a name with no dot is rejected |
| ImageLoader.UnsupportedExtensionRejected | utils/imageLoader.ts:55-58 | a name whose lower-cased extension is not supported is rejected |
| ImageLoader.ParseWithoutConvention | utils/imageLoader.ts:77-87 | a stem with fewer than two underscores becomes the title, with the label "その他" |
| ImageLoader.ExampleConventional | utils/imageLoader.ts:50-51 | `01_朝の読書_読書.jpg` has the title 朝の読書 and the label 読書 |
| ImageLoader.ExampleTitleWithUnderscore | utils/imageLoader.ts:65-67 | underscores inside the title are kept: `02_a_b_c.png` has the title a_b and the label c |
| ImageLoader.ExampleEmptyParts | utils/imageLoader.ts:66-67 | `03__.webp` has its whole file name as title and the label "その他" |
| ImageLoader.ExampleFallback | utils/imageLoader.ts:77-87 | `photo.gif` has the title photo and the label "その他" |
| ImageLoader.LowerCaseJpg | utils/imageLoader.ts:55 | `.JPG` lower-cases to `.jpg` |
| ImageLoader.ExampleUpperCaseExtension | utils/imageLoader.ts:55-67 | `01_a_B.JPG` is accepted, with the title a and the label B.JPG |
| ImageLoader.DotFileRejected | utils/imageLoader.ts:55-58 | a name whose only dot is its first character has no extension and is rejected |
| ImageLoader.ExampleDotFile | utils/imageLoader.ts:55-58 | `.jpg` is rejected |
| ImageLoader.Directory | utils/imageLoader.ts:104-110 | the listing of a category's gallery directory in the file-system snapshot, `None` when it is absent; `LoadAllImages` and `GetImageStats` read every directory through it |
| ImageLoader.LoadAllImages | utils/imageLoader.ts:138-157 | the result has exactly the four configured keys; each holds that category's catalogue and never the fallback configuration |
| StringOps.Split | utils/imageLoader.ts:61 | `split` gives at least one part and no part contains the separator |
| StringOps.Join | utils/imageLoader.ts:67 | `join` is empty exactly for no parts or a single empty part |
| StringOps.SplitThenJoin | utils/imageLoader.ts:61-67 | joining the parts of a split gives the original string back |
| StringOps.JoinThenSplit | utils/imageLoader.ts:61-67 | splitting a join of separator-free parts gives the parts back |
| StringOps.SplitWithoutSeparator | utils/imageLoader.ts:61 | a string without the separator splits into itself |
| StringOps.SplitAround | utils/imageLoader.ts:61 | splitting at one separator occurrence concatenates the splits of both sides |
| StringOps.ToLower | utils/imageLoader.ts:55 | lower-casing keeps the length, leaves no ASCII capital and changes only ASCII capitals (into their lower-case letters) |
| StringOps.ToLowerKeepsLower | utils/imageLoader.ts:55 | a string without ASCII capitals is unchanged by lower-casing |
| StringOps.LessOrEqualReflexive | utils/imageLoader.ts:115 | the file-name order is reflexive |
| StringOps.LessOrEqualAntisymmetric | utils/imageLoader.ts:115 | the file-name order is antisymmetric |
| StringOps.LessOrEqualTransitive | utils/imageLoader.ts:115 | the file-name order is transitive |
| StringOps.LessOrEqualTotal | utils/imageLoader.ts:115 | any two file names are comparable |
| StringOps.DigitChar | utils/imageLoader.ts:202 | a digit character has the given digit value |
| StringOps.NatToString | utils/imageLoader.ts:202 | the decimal rendering is non-empty, all digits, without a leading zero, and denotes the number |
| StringOps.NatToStringInjective | utils/imageLoader.ts:202 | different numbers render differently |
| StringOps.TrimStart | components/ContactForm.tsx:41 | the result is a suffix that starts with a non-space, and only white space was removed |
| StringOps.TrimEnd | components/ContactForm.tsx:41 | the result is a prefix that ends with a non-space, and only white space was removed |
| StringOps.TrimBothEnds | components/ContactForm.tsx:41 | trimming both ends leaves an infix with non-space ends, empty exactly for an all-white-space string |
| StringOps.Trim | components/ContactForm.tsx:41 | `trim` gives an infix whose ends are not white space; it is empty exactly when the string is all white space |
| NodePath.LastIndexOf | utils/imageLoader.ts:55 | the last position of the character, or -1 exactly when it does not occur |
| NodePath.ExtName | utils/imageLoader.ts:55 | the extension is empty exactly for "..", the empty name or a name with no dot after its first character; otherwise it is a proper suffix that starts with its only dot |
| NodePath.BaseName | utils/imageLoader.ts:60 | a matching non-empty suffix is removed exactly; otherwise the name is unchanged |
| NodePath.ExtNameOfStemAndExtension | utils/imageLoader.ts:55 | the extension of a non-empty stem plus a dotted extension is that extension |
| FilenameSort.SortedCons | utils/imageLoader.ts:115 | a lower bound placed before a sorted sequence keeps it sorted |
| FilenameSort.Insert | utils/imageLoader.ts:115 | insertion keeps the sequence sorted and adds exactly the inserted record |
| FilenameSort.InsertFirst | utils/imageLoader.ts:115 | a record not after the head may go first |
| FilenameSort.InsertLater | utils/imageLoader.ts:115 | inserting after the head keeps the order and the contents |
| FilenameSort.SortByFilename | utils/imageLoader.ts:115 | the result is sorted by file name and is a permutation of the input |
| FilenameSort.KeyedPermutation | utils/imageLoader.ts:115 | a permutation of records keyed by file name is keyed by file name |
| FilenameSort.SortedHeadIsLeast | utils/imageLoader.ts:115 | the head of a sorted sequence is not after any of its records |
| FilenameSort.SortedHeadsEqual | utils/imageLoader.ts:115 | sorted permutations of keyed records start with the same record |
| FilenameSort.TailsOfPermutations | utils/imageLoader.ts:115 | permutations with the same head have permuted tails |
| FilenameSort.SortedTail | utils/imageLoader.ts:115 | the tail of a sorted sequence is sorted |
| FilenameSort.KeyedTail | utils/imageLoader.ts:115 | the tail of a keyed sequence is keyed |
| FilenameSort.SortedPermutationsEqual | utils/imageLoader.ts:115 | two sorted permutations of records keyed by file name are equal, so the sorted catalogue is unique |
| SeqFacts.NoDuplicatesCount | utils/imageLoader.ts:122 | a sequence without repeats holds each value at most once |
| SeqFacts.RepeatedCount | utils/imageLoader.ts:122 | a value at two positions occurs at least twice |
| ImageStats.UsedLabelsSnoc | utils/imageLoader.ts:122 | appending an image adds its label to the labels in use |
| ImageStats.Count | utils/imageLoader.ts:168-171 | the count of a label is at most the number of images |
| ImageStats.CountSnoc | utils/imageLoader.ts:168-171 | appending an image raises the count of its own label by one and no other |
| ImageStats.CountPositive | utils/imageLoader.ts:168-171 | a label has a positive count exactly when some image carries it |
| ImageStats.Labels | utils/imageLoader.ts:122 | the labels of the images, position by position |
| ImageStats.CountIsMultiplicity | utils/imageLoader.ts:168-171 | the count of a label is its multiplicity among the images' labels |
| ImageStats.SumValuesRemove | utils/imageLoader.ts:176 | the sum of a map's values is one entry plus the sum of the rest |
| ImageStats.SumValuesUpdate | utils/imageLoader.ts:168-171 | replacing one entry changes the sum by the difference |
| ImageStats.Tally | utils/imageLoader.ts:168-171 | the per-label counts of a list of images; `CountByCategory` proves the reduce computes it, and `TallySumsToLength` that it adds up to the number of images |
| ImageStats.TallySnoc | utils/imageLoader.ts:168-171 | one more image raises the counter of its label by one, starting from zero |
| ImageStats.TallyPositive | utils/imageLoader.ts:168-171 | every counter in the tally is at least one |
| ImageStats.TallySumsToLength | utils/imageLoader.ts:166-171 | the per-label counts add up to the number of images |
| ImageStats.TallySumStep | utils/imageLoader.ts:168-171 | one more image adds one to the total of the tally |
| ImageStats.CountByCategory | utils/imageLoader.ts:168-171 | the reduce gives a key exactly for each label in use, with that label's count, which is at least one |
| ImageStats.GetImageStats | utils/imageLoader.ts:162-185 | for a selected category: its error, or its total, number of filters and per-label counts, which sum to the total; otherwise the four time slots with their image counts and their sum as total |
| ImageStats.CountByTimeSlot | utils/imageLoader.ts:175-184 | one entry per configured category holding its number of images, and the total of all |
| ImageStats.SampleLabels | utils/imageLoader.ts:195 | the labels are the configured filters, or the single label "その他" when there are none |
| ImageStats.TimeOfDayPrefix | utils/imageLoader.ts:203-205 | the time-of-day word of a sample title: 朝の, 作業中の, 午後の, and 夜の for every other category |
| ImageStats.SampleImage | utils/imageLoader.ts:198-210 | sample i carries label (i - 1) mod the number of labels and the id `category_sample_i` |
| ImageStats.GenerateSampleImages | utils/imageLoader.ts:190-214 | nothing for an unknown category; otherwise floor(count) samples for a count of at least 1 (6 by default) and none below, sample j being sample j + 1 with labels taken cyclically |
| ImageStats.SampleIdsDistinct | utils/imageLoader.ts:202 | different sample numbers give different ids |
| ImageStats.SampleLabelsCycle | utils/imageLoader.ts:195-199 | every sample label is a configured filter, and labels repeat with the number of filters as period |
| GalleryView.OfCategory | components/Gallery.tsx:42 | the filtered images are images of the input with the label asked for, and no more of them |
| GalleryView.OfCategoryIsSubsequence | components/Gallery.tsx:42 | filtering keeps the images in their original order |
| GalleryView.OfCategoryMultiplicity | components/Gallery.tsx:42 | an image with the label occurs as often as in the input; any other image never occurs |
| GalleryView.OfCategorySnoc | components/Gallery.tsx:42 | appending an image extends the filtered result exactly when the image has the label |
| GalleryView.OfCategorySizeIsCount | components/Gallery.tsx:42 | the number of filtered images is the count of the label that the statistics report |
| GalleryView.OfCategoryIdempotent | components/Gallery.tsx:42 | filtering twice is filtering once |
| GalleryView.FilterImages | components/Gallery.tsx:40-42 | "すべて" shows every image; any other filter shows only images of the input with that label |
| GalleryView.FilterImagesExact | components/Gallery.tsx:40-42 | for a label filter, the result is the ordered sub-list of exactly the images with that label, as many as the statistics count |
| GalleryView.OfferedFilterShowsImages | components/Gallery.tsx:264-268 | every filter offered by a loaded catalogue shows at least one image |
| GalleryView.Scheme | components/Gallery.tsx:64-98 | the six classes every palette derives from one colour name and the text colour on it; `PaletteUsesThemeColour` ties it to each category |
| GalleryView.PaletteUsesThemeColour | components/Gallery.tsx:64-98 | each category's palette is the common scheme of the theme colour the loader configures for it, with dark text only for night |
| GalleryView.CategoryPalette | components/Gallery.tsx:64-101 | a known category gets its own palette; any other gets the work palette |
| GalleryView.EveryCategoryHasPalette | components/Gallery.tsx:100 | each configured category has a palette of its own, so the fallback is never used for them |
| GalleryView.ColumnCount | components/Gallery.tsx:178-183 | two columns exactly below 768 pixels, three exactly from 768 on |
| GalleryView.RoundRobin | components/Gallery.tsx:191-194 | the distribution has as many columns as asked for |
| GalleryView.RoundRobinSizes | components/Gallery.tsx:191-194 | with n images over k columns, column c holds n / k images, plus one when c < n mod k |
| GalleryView.RoundRobinPositions | components/Gallery.tsx:191-194 | image i sits in column i mod k at row i / k |
| GalleryView.FlattenPush | components/Gallery.tsx:193 | pushing an image onto a column adds exactly that image to the contents |
| GalleryView.FlattenEmpty | components/Gallery.tsx:191 | empty columns hold nothing |
| GalleryView.RoundRobinPermutation | components/Gallery.tsx:191-194 | the columns together hold exactly the input images |
| GalleryView.Distribute | components/Gallery.tsx:191-194 | the loop gives the round-robin columns: image i in column i mod k at row i / k, column sizes within one of each other, contents a permutation of the input |
| GalleryView.MasonryGrid.constructor | components/Gallery.tsx:175-185 | after mounting, the column count is the one for the window width |
| GalleryView.MasonryGrid.Resize | components/Gallery.tsx:178-186 | a resize sets the column count for the new width |
| GalleryView.MasonryGrid.Layout | components/Gallery.tsx:191-198 | the rendered columns place image i at column i mod k, row i / k, balanced and a permutation of the images |
| GalleryView.Gallery.constructor | components/Gallery.tsx:30-37 | the initial state is light theme, grid layout, "すべて", loading, and no modal |
| GalleryView.Gallery.FilteredImages | components/Gallery.tsx:40-42 | the shown images come from the catalogue; under "すべて" they are all of it |
| GalleryView.Gallery.ThemeColors | components/Gallery.tsx:103 | the page uses one of the four palettes |
| GalleryView.Gallery.SetActiveFilter | components/Gallery.tsx:45-49 | choosing a filter stores it and restarts loading only when the value changes; nothing else changes |
| GalleryView.Gallery.ResetFilter | components/Gallery.tsx:370 | the reset button returns to "すべて", which shows the whole catalogue |
| GalleryView.Gallery.LoadingFinished | components/Gallery.tsx:47 | the loading delay's end clears the loading flag and nothing else |
| GalleryView.Gallery.SetLayout | components/Gallery.tsx:276-287 | the layout buttons set the layout and nothing else |
| GalleryView.Gallery.ToggleTheme | components/Gallery.tsx:301 | the theme button flips light and dark and nothing else |
| GalleryView.Gallery.HandleImageClick | components/Gallery.tsx:52-55 | clicking an image selects it and opens the modal; the modal is open exactly when an image is selected |
| GalleryView.Gallery.HandleCloseModal | components/Gallery.tsx:58-61 | closing forgets the selection and closes the modal |
| GalleryView.Gallery.ModalProps | components/Gallery.tsx:385-391 | the lightbox gets the open flag, the selected image and images from the catalogue |
| Lightbox.FindIndexById | components/ImageModal.tsx:36 | the first position with the id, or -1 exactly when no image has it |
| Lightbox.SyncIndex | components/ImageModal.tsx:36-37 | the stored index is in range: the first position of the image when present, 0 otherwise |
| Lightbox.NextIndex | components/ImageModal.tsx:75 | next moves to (i + 1) mod n and stays in range |
| Lightbox.PrevIndex | components/ImageModal.tsx:67 | previous moves to (i + n - 1) mod n for an index in range |
| Lightbox.NextPreviousInverse | components/ImageModal.tsx:65-79 | previous undoes next and next undoes previous |
| Lightbox.NextTimes | components/ImageModal.tsx:73-79 | after at least one press of next the index is in range |
| Lightbox.NextTimesIsModular | components/ImageModal.tsx:73-79 | k presses of next from i land on (i + k) mod n |
| Lightbox.FullRound | components/ImageModal.tsx:73-79 | n presses of next return to the start |
| Lightbox.KeyAction | components/ImageModal.tsx:106-139 | nothing happens while the lightbox is closed; `preventDefault` is called exactly for the actions other than closing |
| Lightbox.KeyActionCases | components/ImageModal.tsx:106-139 | Escape closes; ArrowLeft and ArrowUp go back; ArrowRight and ArrowDown go on; space zooms; f and F toggle favourite; d and D download only with Ctrl or Meta; everything else, and every key while closed, does nothing |
| Lightbox.ImageModal.CurrentImage | components/ImageModal.tsx:44 | the image at the current index, or the prop when the index is past the end; an image of the list whenever the index is in range |
| Lightbox.ImageModal.Visible | components/ImageModal.tsx:195-197 | the lightbox renders only when open with a current image, and always when open with the index in range |
| Lightbox.ImageModal.Counter | components/ImageModal.tsx:417-421 | the "i / n" counter appears exactly when there is more than one image, with 1 <= i <= n |
| Lightbox.ImageModal.DownloadTarget | components/ImageModal.tsx:89-102 | a download exists exactly when there is a current image; it links to its path under the name title + ".jpg" |
| Lightbox.ImageModal.SyncImage | components/ImageModal.tsx:34-41 | with an image and a non-empty list, the index moves to the image's position, loading starts and zoom is cleared; otherwise nothing changes |
| Lightbox.ImageModal.constructor | components/ImageModal.tsx:27-41 | the initial state after the first sync: index from the image, loading, not zoomed, not favourite |
| Lightbox.ImageModal.SetProps | components/ImageModal.tsx:34-41 | new props are stored and the sync runs only when the image or the list changed |
| Lightbox.ImageModal.GoToPrevious | components/ImageModal.tsx:65-71 | no change with one image or none; otherwise the previous index, loading, zoom cleared; the index stays in range |
| Lightbox.ImageModal.GoToNext | components/ImageModal.tsx:73-79 | no change with one image or none; otherwise the next index, loading, zoom cleared |
| Lightbox.ImageModal.ToggleZoom | components/ImageModal.tsx:81-83 | the zoom flag flips and nothing else changes |
| Lightbox.ImageModal.ToggleFavorite | components/ImageModal.tsx:85-87 | the favourite flag flips and nothing else changes |
| Lightbox.ImageModal.ImageLoaded | components/ImageModal.tsx:262-263 | loading ends, on success and on error alike, and nothing else changes |
| Lightbox.ImageModal.HandleKeyDown | components/ImageModal.tsx:106-139 | each key leaves the state exactly as the handler it dispatches to does (including no move with one image or none, loading and zoom after a move, loading kept by zoom and favourite), requests closing or a download of the current image, and reports `preventDefault` as the dispatch says |
| Lightbox.RoundTrip | components/ImageModal.tsx:65-87 | previous, next and two favourite toggles restore the index and the favourite flag |
| Contact.Utf16Length | components/ContactForm.tsx:53 | a string's JavaScript length lies between its number of characters and twice that |
| Contact.Utf16LengthOfBmp | components/ContactForm.tsx:53 | for characters of the Basic Multilingual Plane the length is the number of characters |
| Contact.Utf16LengthAppend | components/ContactForm.tsx:68 | the length of a concatenation is the sum of the lengths |
| Contact.IsEmailAddress | components/ContactForm.tsx:47 | the regular-expression test, computed directly: a single '@' after a non-empty head, no white space, and a '.' strictly inside the domain; `EmailTestIsPattern` proves it accepts exactly the strings matching the pattern |
| Contact.IndexOf | components/ContactForm.tsx:47 | the first position of the character, or -1 exactly when it is absent |
| Contact.EmailTestIsPattern | components/ContactForm.tsx:47 | the compiled test accepts exactly the strings matching `^[^\s@]+@[^\s@]+\.[^\s@]+$`, and no such string is blank |
| Contact.EmailTestMatches | components/ContactForm.tsx:47 | an accepted address matches the pattern |
| Contact.PatternPassesTest | components/ContactForm.tsx:47 | an address matching the pattern is accepted |
| Contact.PatternIsNotBlank | components/ContactForm.tsx:45-48 | an address matching the pattern is not blank |
| Contact.BlankIsTrimmedEmpty | components/ContactForm.tsx:41 | a value trims to the empty string exactly when it is all white space |
| Contact.NameError | components/ContactForm.tsx:41-43 | the name's error; `NameRule` states when it is set and with which message |
| Contact.EmailError | components/ContactForm.tsx:45-49 | the address's error; `EmailRule` states when each of its two messages is set |
| Contact.MessageError | components/ContactForm.tsx:51-55 | the message's error; `MessageRule` states when each of its two messages is set |
| Contact.ValidationErrors | components/ContactForm.tsx:38-57 | the errors `validateForm` stores, one per validated field; `ValidIff`, `TypeIsNotValidated` and `EmptyFormErrors` state what they are |
| Contact.NameRule | components/ContactForm.tsx:41-43 | the name has no error exactly when it is not blank; the only error is "お名前を入力してください" |
| Contact.EmailRule | components/ContactForm.tsx:45-49 | no error exactly when the address matches the pattern; "メールアドレスを入力してください" exactly when blank; otherwise "正しいメールアドレスを入力してください" |
| Contact.MessageRule | components/ContactForm.tsx:51-55 | no error exactly when not blank and at least ten code units long; "お問合せ内容を入力してください" exactly when blank; otherwise "10文字以上で入力してください" |
| Contact.ValidIff | components/ContactForm.tsx:38-59 | the form is valid exactly when the name is not blank, the address matches the pattern and the message is not blank and at least ten code units long |
| Contact.TypeIsNotValidated | components/ContactForm.tsx:38-59 | the inquiry type never affects validation |
| Contact.EmptyFormErrors | components/ContactForm.tsx:38-59 | the empty form has the three "required" errors |
| Contact.PaddedMessageIsLongEnough | components/ContactForm.tsx:51-55 | the length rule counts the untrimmed message, so one letter and nine spaces pass |
| Contact.WithField | components/ContactForm.tsx:65 | the edited control gets the value and the other three keep theirs |
| Contact.ClearError | components/ContactForm.tsx:71-74 | a non-empty error of the edited control is removed; otherwise the errors are unchanged; the other controls' errors are kept |
| Contact.ContactForm.constructor | components/ContactForm.tsx:20-29 | an empty form, no errors, not submitting, not submitted, counter 0 |
| Contact.ContactForm.ValidateForm | components/ContactForm.tsx:38-59 | the errors become those of the current form and the result says whether there are none; nothing else changes |
| Contact.ContactForm.HandleInputChange | components/ContactForm.tsx:61-75 | the value is stored, the counter follows the message's length, the control's error is cleared, and the counter stays in step with the message |
| Contact.ContactForm.HandleSubmit | components/ContactForm.tsx:77-83 | a submission is accepted exactly for a valid form; the errors are replaced; submitting starts only when accepted |
| Contact.ContactForm.CompleteSubmission | components/ContactForm.tsx:85-97 | when the delay ends, submitting stops, the form is marked submitted and emptied, and the counter is reset |
| Contact.ContactForm.StartNewInquiry | components/ContactForm.tsx:114 | the new-inquiry button clears the submitted flag and nothing else |
| Contact.SubmitValidForm | components/ContactForm.tsx:77-97 | submitting a valid form and letting the delay end leaves it submitted, emptied and without errors |

## Left out

- File-system access, `process.cwd()` and path joining are left out. The directory listing of each category is a parameter (`Directory`, `fs`).
- Console logging is left out, and so are the try/catch blocks around parsing and listing. Parsing cannot throw on a string, and a listing failure is the `None` directory.
- ImageLoader.LoadCategoryImages: the object lookup of a category is limited to the four configured keys. Inherited object keys such as `constructor` or `toString`, which JavaScript would find on the configuration object, are not modelled.
- FilenameSort.SortByFilename: `localeCompare` is replaced by code-point order. ICU collation is locale data that cannot be stated here, so the proved order is the character order and not the collation the browser or Node uses.
- ImageStats.CountByCategory: the counters are a map from labels to numbers. In the source they live in a plain object, so a label that names an inherited property (a file `01_x_toString.jpg` has the label `toString`) starts from the inherited function and yields a string rather than a count. Inherited keys are not modelled.
- ImageStats.GetImageStats: for the same reason its per-label counts sum to the total only when no label names an inherited object property. Inherited keys are not modelled.
- ImageStats.GenerateSampleImages: the lookup is limited to the four configured keys. For an inherited key such as `constructor` the source finds a value, passes the guard and then throws, where the model returns no samples. The count is an exact real number: NaN (no samples) and Infinity (the source does not terminate) are not modelled.
- GalleryView.CategoryPalette: the lookup is limited to the keys of the palette table. For an inherited key such as `constructor` the source finds a truthy value and does not fall back to the work palette. Inherited keys are not modelled.
- GalleryView.Gallery.ThemeColors: it looks up the page's category through `CategoryPalette`, so an inherited key such as `constructor` has the same gap. Inherited keys are not modelled.
- The option list of the inquiry-type select is left out. It is rendering only, and the type is never validated (`TypeIsNotValidated`).
- StringOps.ToLower: only ASCII letters are lower-cased. The supported extensions are ASCII, but non-ASCII letters that `toLowerCase` would map are left unchanged.
- Lightbox.ImageModal.SetProps: React's reference identity of the `image` and `images` props is replaced by value comparison. A parent that passes an equal but newly built list would re-run the effect in React but not in the model.
- The lightbox's scroll lock, focus handling, the auto-hide timer of its controls, listener registration and removal, and all inline styles and size computations are left out. They only touch the DOM.
- The backdrop and close buttons and the on-screen previous, next, zoom, favourite and download buttons are left out. They call the `onClose` prop or the handlers that `HandleKeyDown` already models.
- The gallery's header text, card rendering, animations, dark-theme class names and the empty-state text are left out. Only the palette choice and the image count (`FilterImagesExact`, `OfCategorySizeIsCount`) are modelled.
- The cancellation of the loading timer on a filter change is implicit. `LoadingFinished` is the event of the last timer that still stands.
- The contact form's submission delay is `CompleteSubmission`, and nothing is sent anywhere. The component's `preventDefault` on submit is left out.
- The pages under `app/`, `layout.tsx` and the configuration files are not part of this model.
