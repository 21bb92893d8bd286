/**
 * `getImageStats` and `generateSampleImages`: counts over the catalogue and
 * the placeholder records used when a directory holds no images.
 */
module ImageStats {
  import opened Wrappers
  import opened StringOps
  import opened NodePath
  import opened Catalog
  import opened ImageLoader

  // ---------------------------------------------------------------------------
  // Counting labels
  // ---------------------------------------------------------------------------

  /** The labels that occur in `images`. */
  function UsedLabels(images: seq<ImageData>): set<string>
  {
    set x | x in images :: x.category
  }

  lemma UsedLabelsSnoc(images: seq<ImageData>, x: ImageData)
    ensures UsedLabels(images + [x]) == UsedLabels(images) + {x.category}
  {
    assert forall y :: y in images + [x] <==> y in images || y == x;
  }

  /** How many of `images` carry the label `name`. */
  function Count(images: seq<ImageData>, name: string): (n: nat)
    ensures n <= |images|
    decreases |images|
  {
    if images == [] then 0
    else Count(images[..|images| - 1], name) + if images[|images| - 1].category == name then 1 else 0
  }

  lemma CountSnoc(images: seq<ImageData>, x: ImageData, name: string)
    ensures Count(images + [x], name) == Count(images, name) + if x.category == name then 1 else 0
  {
    var s := images + [x];
    assert s[..|s| - 1] == images;
  }

  /** A label is counted at least once exactly when some image carries it. */
  lemma {:induction false} CountPositive(images: seq<ImageData>, name: string)
    ensures Count(images, name) > 0 <==> name in UsedLabels(images)
    decreases |images|
  {
    if images != [] {
      var init, x := images[..|images| - 1], images[|images| - 1];
      assert images == init + [x];
      CountPositive(init, name);
      UsedLabelsSnoc(init, x);
    }
  }

  /** The labels of `images`, in order. */
  function Labels(images: seq<ImageData>): (r: seq<string>)
    ensures |r| == |images| && forall i :: 0 <= i < |r| ==> r[i] == images[i].category
  {
    seq(|images|, i requires 0 <= i < |images| => images[i].category)
  }

  /** `Count` is the multiplicity of the label among all labels. */
  lemma {:induction false} CountIsMultiplicity(images: seq<ImageData>, name: string)
    ensures Count(images, name) == multiset(Labels(images))[name]
    decreases |images|
  {
    if images != [] {
      var init, x := images[..|images| - 1], images[|images| - 1];
      assert images == init + [x];
      CountIsMultiplicity(init, name);
      assert Labels(images) == Labels(init) + [x.category];
    }
  }

  /** The per-label counts `byCategory`: every label that occurs, with its number of images. */
  function Tally(images: seq<ImageData>): map<string, nat>
  {
    map c | c in UsedLabels(images) :: Count(images, c)
  }

  /** A fixed key of a non-empty map, so that `SumValues` is a function. */
  ghost function PickKey(m: map<string, nat>): string
    requires m != map[]
  {
    assert exists k :: k in m by { var k :| k in m.Keys; }
    var k :| k in m; k
  }

  /** The sum of the values of `m`. */
  ghost function SumValues(m: map<string, nat>): nat
    decreases |m.Keys|
  {
    if m == map[] then 0
    else
      var k := PickKey(m);
      assert |(m - {k}).Keys| < |m.Keys| by { assert (m - {k}).Keys == m.Keys - {k}; }
      m[k] + SumValues(m - {k})
  }

  /** The sum can be taken starting from any key. */
  lemma {:induction false} SumValuesRemove(m: map<string, nat>, k: string)
    requires k in m
    ensures SumValues(m) == m[k] + SumValues(m - {k})
    decreases |m.Keys|
  {
    var j := PickKey(m);
    if j != k {
      assert (m - {j}).Keys == m.Keys - {j};
      SumValuesRemove(m - {j}, k);
      assert (m - {k}).Keys == m.Keys - {k};
      SumValuesRemove(m - {k}, j);
      assert (m - {j}) - {k} == (m - {k}) - {j};
    }
  }

  /** Setting one key to `v` changes the sum by the difference. */
  lemma SumValuesUpdate(m: map<string, nat>, k: string, v: nat)
    ensures SumValues(m[k := v]) + (if k in m then m[k] else 0) == SumValues(m) + v
  {
    SumValuesRemove(m[k := v], k);
    assert m[k := v] - {k} == m - {k};
    if k in m {
      SumValuesRemove(m, k);
    } else {
      assert m - {k} == m;
    }
  }

  /** Counting one more image adds one to its label's count. */
  lemma TallySnoc(images: seq<ImageData>, x: ImageData)
    ensures var t := Tally(images);
      Tally(images + [x]) == t[x.category := (if x.category in t then t[x.category] else 0) + 1]
  {
    var t := Tally(images);
    var u := t[x.category := (if x.category in t then t[x.category] else 0) + 1];
    UsedLabelsSnoc(images, x);
    forall c | c in u ensures Tally(images + [x])[c] == u[c] {
      CountSnoc(images, x, c);
      CountPositive(images, c);
    }
  }

  /** Every label counted occurs at least once. */
  lemma TallyPositive(images: seq<ImageData>)
    ensures forall c :: c in Tally(images) ==> Tally(images)[c] >= 1
  {
    forall c | c in Tally(images) ensures Tally(images)[c] >= 1 {
      CountPositive(images, c);
    }
  }

  /** The counts of `byCategory` add up to the number of images. */
  lemma {:induction false} TallySumsToLength(images: seq<ImageData>)
    ensures SumValues(Tally(images)) == |images|
    decreases |images|
  {
    if images == [] {
      assert Tally(images) == map[];
    } else {
      var init := images[..|images| - 1];
      var x := images[|images| - 1];
      assert images == init + [x];
      TallySumsToLength(init);
      TallySumStep(init, x);
    }
  }

  lemma TallySumStep(init: seq<ImageData>, x: ImageData)
    requires SumValues(Tally(init)) == |init|
    ensures SumValues(Tally(init + [x])) == |init| + 1
  {
    var t := Tally(init);
    var before := if x.category in t then t[x.category] else 0;
    TallySnoc(init, x);
    SumValuesUpdate(t, x.category, before + 1);
  }

  /**
   * The `reduce` that fills `byCategory`: one entry per label that occurs,
   * holding the number of images with that label.
   */
  method CountByCategory(images: seq<ImageData>) returns (acc: map<string, nat>)
    ensures acc.Keys == UsedLabels(images)
    ensures forall c :: c in acc ==> acc[c] == Count(images, c) && acc[c] >= 1
    ensures acc == Tally(images)
  {
    acc := map[];
    var i := 0;
    while i < |images|
      invariant 0 <= i <= |images|
      invariant acc == Tally(images[..i])
    {
      var c := images[i].category;
      TallySnoc(images[..i], images[i]);
      assert images[..i + 1] == images[..i] + [images[i]];
      acc := acc[c := (if c in acc then acc[c] else 0) + 1];
      i := i + 1;
    }
    assert images[..i] == images;
    TallyPositive(images);
  }

  // ---------------------------------------------------------------------------
  // getImageStats
  // ---------------------------------------------------------------------------

  /** The two shapes `getImageStats` returns. */
  datatype Stats =
    | CategoryStats(total: nat, categories: nat, byCategory: map<string, nat>)
    | OverallStats(total: nat, byTimeSlot: map<string, nat>)

  /** `if (category)`: an omitted category and the empty string both select the overall statistics. */
  predicate Selected(category: Option<string>)
  {
    category.Some? && category.value != ""
  }

  /**
   * `getImageStats(category)`: for a selected category, its number of
   * images, of filters and the per-label counts, or the loader's error; with
   * none, the number of images per category and their total.
   */
  method GetImageStats(category: Option<string>, fs: map<string, seq<EntryName>>)
    returns (r: Result<Stats, LoadError>)
    ensures Selected(category) ==>
      match LoadCategoryImages(category.value, Directory(fs, category.value))
      case Failure(e) => r == Failure(e)
      case Success(c) =>
        r == Success(CategoryStats(|c.images|, |c.filters|, Tally(c.images)))
        && SumValues(r.value.byCategory) == r.value.total
    ensures !Selected(category) ==>
      && r.Success? && r.value.OverallStats?
      && r.value.byTimeSlot.Keys == set k | k in CategoryKeys
      && (forall k :: k in r.value.byTimeSlot ==>
            k in CategoryKeys
            && r.value.byTimeSlot[k] == |LoadCategoryImages(k, Directory(fs, k)).value.images|)
      && r.value.total == SumValues(r.value.byTimeSlot)
  {
    if Selected(category) {
      var loaded := LoadCategoryImages(category.value, Directory(fs, category.value));
      if loaded.Failure? {
        return Failure(loaded.error);
      }
      var config := loaded.value;
      var counts := CountByCategory(config.images);
      TallySumsToLength(config.images);
      return Success(CategoryStats(|config.images|, |config.filters|, counts));
    }
    var all := LoadAllImages(fs);
    var total, byTimeSlot := CountByTimeSlot(all);
    return Success(OverallStats(total, byTimeSlot));
  }

  /**
   * The two `reduce`s over `Object.entries(loadAllImages())`: the number of
   * images of each category and their sum.
   */
  method CountByTimeSlot(all: map<string, GalleryConfig>) returns (total: nat, byTimeSlot: map<string, nat>)
    requires forall k :: k in CategoryKeys ==> k in all
    ensures byTimeSlot.Keys == set k | k in CategoryKeys
    ensures forall k :: k in byTimeSlot ==> byTimeSlot[k] == |all[k].images|
    ensures total == SumValues(byTimeSlot)
  {
    total := 0;
    byTimeSlot := map[];
    var i := 0;
    while i < |CategoryKeys|
      invariant 0 <= i <= |CategoryKeys|
      invariant forall k :: k in byTimeSlot <==> k in CategoryKeys[..i]
      invariant forall k :: k in byTimeSlot ==> k in all && byTimeSlot[k] == |all[k].images|
      invariant total == SumValues(byTimeSlot)
    {
      var slot := CategoryKeys[i];
      assert slot !in CategoryKeys[..i];
      SumValuesUpdate(byTimeSlot, slot, |all[slot].images|);
      total := total + |all[slot].images|;
      byTimeSlot := byTimeSlot[slot := |all[slot].images|];
      assert CategoryKeys[..i + 1] == CategoryKeys[..i] + [slot];
      i := i + 1;
    }
    assert CategoryKeys[..i] == CategoryKeys;
  }

  // ---------------------------------------------------------------------------
  // generateSampleImages
  // ---------------------------------------------------------------------------

  /** The labels handed out to samples: the configured filters, or "その他" when there are none. */
  function SampleLabels(config: CategoryConfig): (labels: seq<string>)
    ensures labels != []
    ensures config.filters != [] ==> labels == config.filters
  {
    if |config.filters| > 0 then config.filters else [OtherLabel]
  }

  /** The time-of-day word of a sample title; any category other than the first three reads "夜の". */
  function TimeOfDayPrefix(category: string): string
  {
    if category == "morning" then "朝の"
    else if category == "work" then "作業中の"
    else if category == "afternoon" then "午後の"
    else "夜の"
  }

  /** Sample number `i` (counting from 1) of `category`. */
  function SampleImage(category: string, labels: seq<string>, i: nat): (x: ImageData)
    requires labels != [] && i >= 1
    ensures x.category == labels[(i - 1) % |labels|]
    ensures x.id == category + "_sample_" + NatToString(i)
  {
    var n := NatToString(i);
    var imageCategory := labels[(i - 1) % |labels|];
    ImageData(
      category + "_sample_" + n,
      TimeOfDayPrefix(category) + "風景 " + n,
      imageCategory + "の時間を表現した美しい画像です。珈琲と机のある日常の一コマをお楽しみください。",
      imageCategory,
      "/images/placeholder/sample-" + category + "-" + n + ".jpg",
      "sample-" + category + "-" + n + ".jpg")
  }

  /**
   * `generateSampleImages(category, count)`, with JavaScript's default count
   * of 6: nothing for a category that is not configured; otherwise one sample
   * for each whole number from 1 up to `count`, so `floor(count)` samples for
   * a count of at least 1 and none below, labelled with the labels in turn.
   */
  method GenerateSampleImages(category: string, count: real := 6.0) returns (samples: seq<ImageData>)
    ensures LookupConfig(category).None? ==> samples == []
    ensures LookupConfig(category).Some? ==>
      var labels := SampleLabels(LookupConfig(category).value);
      && |samples| == (if count >= 1.0 then count.Floor else 0)
      && forall j :: 0 <= j < |samples| ==>
           && samples[j] == SampleImage(category, labels, j + 1)
           && samples[j].category == labels[j % |labels|]
           && samples[j].id == category + "_sample_" + NatToString(j + 1)
  {
    var config := LookupConfig(category);
    if config.None? {
      return [];
    }
    var labels := SampleLabels(config.value);
    samples := [];
    var i := 1;
    while i as real <= count
      invariant 1 <= i <= if count >= 1.0 then count.Floor + 1 else 1
      invariant |samples| == i - 1
      invariant forall j :: 0 <= j < |samples| ==> samples[j] == SampleImage(category, labels, j + 1)
    {
      samples := samples + [SampleImage(category, labels, i)];
      i := i + 1;
    }
  }

  /** Samples with different numbers have different ids. */
  lemma SampleIdsDistinct(category: string, labels: seq<string>, i: nat, j: nat)
    requires labels != [] && 1 <= i && 1 <= j && i != j
    ensures SampleImage(category, labels, i).id != SampleImage(category, labels, j).id
  {
    var p := category + "_sample_";
    var a, b := NatToString(i), NatToString(j);
    assert (p + a)[|p|..] == a && (p + b)[|p|..] == b;
  }

  /** The label of every sample of a configured category is one of its filters, all of them in turn. */
  lemma SampleLabelsCycle(category: string, i: nat)
    requires category in CategoryKeys && i >= 1
    ensures var config := LookupConfig(category).value;
      && SampleImage(category, SampleLabels(config), i).category in config.filters
      && SampleImage(category, SampleLabels(config), i).category
         == SampleImage(category, SampleLabels(config), i + |config.filters|).category
  {
    var config := LookupConfig(category).value;
    var n := |config.filters|;
    assert (i + n - 1) % n == (i - 1) % n by {
      assert i + n - 1 == (i - 1) + n;
    }
  }
}
