/** The paginated listings `listAllUnlabeledData`, `listDataByIds` and
    `listAllVideos`: fetch pages of 1000 samples from the training category
    until an empty page, then from the testing category, keeping the samples
    that pass a filter, in the order they were fetched. */
module Pagination {
  import opened Wrappers
  import opened Seqs
  import opened Samples

  /** The `limit` of every listing request, and the step of `offset`. */
  const PageSize: nat := 1000

  datatype Category = Training | Testing

  /** The answer to one `listSamples` request: a page, or the error it threw. */
  datatype Page = Page(samples: seq<Sample>) | FetchFailed(error: string)

  /** `api.rawData.listSamples(projectId, { category, labels: '', offset, limit: 1000 })`. */
  type Listing = (Category, nat) -> Page

  /** A page that ends the loop for its category: empty, or a fetch error. */
  predicate Stops(p: Page) {
    p.FetchFailed? || p.samples == []
  }

  /** The store has an end: past some offset every request of category `c`
      comes back empty or fails. */
  ghost predicate Ends(src: Listing, c: Category) {
    exists n: nat :: ExhaustedFrom(src, c, n)
  }

  /** Every request of category `c` at offset `n` or beyond stops the loop. */
  ghost predicate ExhaustedFrom(src: Listing, c: Category, n: nat) {
    forall off: nat :: n <= off ==> Stops(src(c, off))
  }

  /** An offset past which category `c` is exhausted. */
  ghost function EndOffset(src: Listing, c: Category): (n: nat)
    requires Ends(src, c)
    ensures ExhaustedFrom(src, c, n)
  {
    var n: nat :| ExhaustedFrom(src, c, n); n
  }

  /** The non-empty pages of category `c` from `offset` on, up to the first
      empty page; or the error of the first request that failed on the way. */
  ghost function Pages(src: Listing, c: Category, offset: nat): (r: Result<seq<seq<Sample>>, string>)
    requires Ends(src, c)
    ensures r.Ok? ==> forall i :: 0 <= i < |r.value| ==> r.value[i] != []
    ensures r.Err? ==> exists off: nat :: offset <= off && src(c, off) == FetchFailed(r.error)
    decreases EndOffset(src, c) - offset
  {
    match src(c, offset)
    case FetchFailed(e) => Err(e)
    case Page(ss) =>
      if ss == [] then Ok([])
      else
        match Pages(src, c, offset + PageSize)
        case Err(e) => Err(e)
        case Ok(rest) => Ok([ss] + rest)
  }

  /** `ps` are the pages of a walk from `offset`: each non-empty and fetched at
      offset + 1000 * k, and the page after them empty. */
  ghost predicate IsWalk(src: Listing, c: Category, offset: nat, ps: seq<seq<Sample>>) {
    && (forall k :: 0 <= k < |ps| ==> ps[k] != [] && src(c, offset + PageSize * k) == Page(ps[k]))
    && src(c, offset + PageSize * |ps|) == Page([])
  }

  /** Pages succeeds only with a walk: every page it returns is non-empty
      and fetched at offset + 1000 * k, and the request after them came back
      empty. */
  lemma {:induction false} PagesAreWalk(src: Listing, c: Category, offset: nat)
    requires Ends(src, c)
    ensures Pages(src, c, offset).Ok? ==> IsWalk(src, c, offset, Pages(src, c, offset).value)
    decreases EndOffset(src, c) - offset
  {
    var page := src(c, offset);
    if page.Page? && page.samples != [] {
      PagesAreWalk(src, c, offset + PageSize);
      var next := Pages(src, c, offset + PageSize);
      if next.Ok? {
        var ps := Pages(src, c, offset).value;
        assert ps == [page.samples] + next.value;
        forall k | 0 < k < |ps|
          ensures ps[k] != [] && src(c, offset + PageSize * k) == Page(ps[k])
        {
          assert offset + PageSize * k == offset + PageSize + PageSize * (k - 1);
          assert ps[k] == next.value[k - 1];
        }
        assert offset + PageSize * |ps| == offset + PageSize + PageSize * |next.value|;
      }
    }
  }

  /** A walk is what Pages returns: the walk is determined by the listing. */
  lemma {:induction false} WalkIsPages(src: Listing, c: Category, offset: nat, ps: seq<seq<Sample>>)
    requires Ends(src, c)
    requires IsWalk(src, c, offset, ps)
    ensures Pages(src, c, offset) == Ok(ps)
    decreases EndOffset(src, c) - offset
  {
    if ps == [] {
      assert src(c, offset) == Page([]);
    } else {
      assert src(c, offset + PageSize * 0) == Page(ps[0]);
      assert IsWalk(src, c, offset + PageSize, ps[1..]) by {
        forall k | 0 <= k < |ps| - 1
          ensures ps[1..][k] != [] && src(c, offset + PageSize + PageSize * k) == Page(ps[1..][k])
        {
          assert offset + PageSize + PageSize * k == offset + PageSize * (k + 1);
        }
        assert offset + PageSize + PageSize * |ps[1..]| == offset + PageSize * |ps|;
      }
      WalkIsPages(src, c, offset + PageSize, ps[1..]);
      assert ps == [ps[0]] + ps[1..];
    }
  }

  /** What one listing loop over category `c`, entered with `offset` and the
      samples `found` so far, ends with: the grown list and the offset it
      stopped at, or the fetch error. */
  ghost function Collected(src: Listing, c: Category, offset: nat, keep: Sample -> bool, found: seq<Sample>)
    : Result<(seq<Sample>, nat), string>
    requires Ends(src, c)
  {
    match Pages(src, c, offset)
    case Err(e) => Err(e)
    case Ok(ps) => Ok((found + Filter(keep, Flatten(ps)), offset + PageSize * |ps|))
  }

  /** After a non-empty page the loop goes on 1000 further, with that page's
      kept samples appended. */
  lemma CollectedStep(src: Listing, c: Category, offset: nat, keep: Sample -> bool, found: seq<Sample>, samples: seq<Sample>)
    requires Ends(src, c)
    requires src(c, offset) == Page(samples) && samples != []
    ensures Collected(src, c, offset, keep, found)
            == Collected(src, c, offset + PageSize, keep, found + Filter(keep, samples))
  {
    var next := Pages(src, c, offset + PageSize);
    PagesStep(src, c, offset, samples);
    if next.Ok? {
      var ps := next.value;
      var kept := found + Filter(keep, samples);
      assert Flatten([samples] + ps) == samples + Flatten(ps);
      FilterConcat(keep, samples, Flatten(ps));
      assert found + Filter(keep, samples + Flatten(ps)) == kept + Filter(keep, Flatten(ps));
    }
  }

  /** A non-empty page is the first of the walk from its offset. */
  lemma PagesStep(src: Listing, c: Category, offset: nat, samples: seq<Sample>)
    requires Ends(src, c)
    requires src(c, offset) == Page(samples) && samples != []
    ensures var next := Pages(src, c, offset + PageSize);
            Pages(src, c, offset) == if next.Ok? then Ok([samples] + next.value) else next
  {
  }

  /** `for (let s of samples) { if (keep(s)) { all.push(s); } }` */
  method PushKept(all: seq<Sample>, samples: seq<Sample>, keep: Sample -> bool) returns (r: seq<Sample>)
    ensures r == all + Filter(keep, samples)
  {
    r := all;
    var i := 0;
    while i < |samples|
      invariant 0 <= i <= |samples|
      invariant r == all + Filter(keep, samples[..i])
    {
      FilterConcat(keep, samples[..i], [samples[i]]);
      assert samples[..i + 1] == samples[..i] + [samples[i]];
      if keep(samples[i]) {
        r := r + [samples[i]];
      }
      i := i + 1;
    }
    assert samples[..i] == samples;
  }

  /** One `while (1)` loop of a listing: fetch category `c` from `start`,
      append the samples that pass `keep` to `found`, and return the grown
      list with the offset the loop stopped at. */
  method FetchCategory(src: Listing, c: Category, start: nat, keep: Sample -> bool, found: seq<Sample>)
    returns (r: Result<(seq<Sample>, nat), string>)
    requires Ends(src, c)
    ensures r == Collected(src, c, start, keep, found)
  {
    var offset := start;
    var all := found;
    ghost var bound := EndOffset(src, c);
    while true
      invariant Collected(src, c, start, keep, found) == Collected(src, c, offset, keep, all)
      decreases bound - offset
    {
      var page := src(c, offset);
      if page.FetchFailed? {
        return Err(page.error);
      }
      var samples := page.samples;
      if |samples| == 0 {
        assert all + [] == all;
        return Ok((all, offset));
      }
      CollectedStep(src, c, offset, keep, all, samples);
      all := PushKept(all, samples, keep);
      offset := offset + PageSize;
    }
  }

  /** The result of the two loops: the kept training samples, then the kept
      testing samples, the testing walk starting at `testingStart(n)` where n is
      the number of non-empty training pages. */
  ghost function Listed(src: Listing, keep: Sample -> bool, resetOffset: bool): (r: Result<seq<Sample>, string>)
    requires Ends(src, Training) && Ends(src, Testing)
    ensures r.Ok? ==> forall s :: s in r.value ==> keep(s)
    ensures r.Err? ==> exists c, off: nat :: src(c, off) == FetchFailed(r.error)
  {
    match Pages(src, Training, 0)
    case Err(e) => Err(e)
    case Ok(tp) =>
      var testingStart := if resetOffset then 0 else PageSize * |tp|;
      match Pages(src, Testing, testingStart)
      case Err(e) => Err(e)
      case Ok(sp) => Ok(Filter(keep, Flatten(tp + sp)))
  }

  /** Both loops of a listing; `resetOffset` tells whether `offset = 0` is
      executed between them. */
  method ListBoth(src: Listing, keep: Sample -> bool, resetOffset: bool) returns (r: Result<seq<Sample>, string>)
    requires Ends(src, Training) && Ends(src, Testing)
    ensures r == Listed(src, keep, resetOffset)
  {
    var training := FetchCategory(src, Training, 0, keep, []);
    if training.Err? {
      return Err(training.error);
    }
    var (all, offset) := training.value;
    if resetOffset {
      offset := 0;
    }
    var testing := FetchCategory(src, Testing, offset, keep, all);
    if testing.Err? {
      return Err(testing.error);
    }
    ghost var tp := Pages(src, Training, 0).value;
    ghost var sp := Pages(src, Testing, offset).value;
    assert all == Filter(keep, Flatten(tp));
    assert offset == if resetOffset then 0 else PageSize * |tp|;
    FlattenConcat(tp, sp);
    FilterConcat(keep, Flatten(tp), Flatten(sp));
    assert testing.value.0 == Filter(keep, Flatten(tp + sp));
    r := Ok(testing.value.0);
  }

  /** `s.label === '' && s.chartType === 'image'`. */
  predicate IsUnlabeledImage(s: Sample) {
    s.labelName == "" && s.chartType == "image"
  }

  /** `ids.indexOf(s.id) !== -1`. */
  predicate HasIdIn(ids: seq<int>, s: Sample) {
    s.id in ids
  }

  /** `s.chartType === 'video' && !s.isProcessing`. */
  predicate IsUnprocessedVideo(s: Sample) {
    s.chartType == "video" && !s.isProcessing
  }

  /** `listAllUnlabeledData`: the unlabeled images of the training pages, then
      of the testing pages; the offset is reset between the categories. */
  method ListAllUnlabeledData(src: Listing) returns (r: Result<seq<Sample>, string>)
    requires Ends(src, Training) && Ends(src, Testing)
    ensures r == Listed(src, IsUnlabeledImage, true)
  {
    r := ListBoth(src, IsUnlabeledImage, true);
  }

  /** `listDataByIds`: the samples whose id is in `ids`, training then testing,
      the offset reset between the categories. */
  method ListDataByIds(src: Listing, ids: seq<int>) returns (r: Result<seq<Sample>, string>)
    requires Ends(src, Training) && Ends(src, Testing)
    ensures r == Listed(src, s => HasIdIn(ids, s), true)
    ensures r.Ok? ==> forall i :: 0 <= i < |r.value| ==> r.value[i].id in ids
  {
    r := ListBoth(src, s => HasIdIn(ids, s), true);
  }

  /** `listAllVideos` as written: the offset is NOT reset before the testing
      loop, so testing is fetched from 1000 * (non-empty training pages). */
  method ListAllVideos(src: Listing) returns (r: Result<seq<Sample>, string>)
    requires Ends(src, Training) && Ends(src, Testing)
    ensures r == Listed(src, IsUnprocessedVideo, false)
    ensures r.Ok? ==> forall i :: 0 <= i < |r.value| ==> IsUnprocessedVideo(r.value[i])
  {
    r := ListBoth(src, IsUnprocessedVideo, false);
  }

  /** `listAllVideos` with `offset = 0` before the testing loop, as in the
      other two listings. */
  method ListAllVideosFromStart(src: Listing) returns (r: Result<seq<Sample>, string>)
    requires Ends(src, Training) && Ends(src, Testing)
    ensures r == Listed(src, IsUnprocessedVideo, true)
    ensures r.Ok? ==> forall i :: 0 <= i < |r.value| ==> IsUnprocessedVideo(r.value[i])
  {
    r := ListBoth(src, IsUnprocessedVideo, true);
  }

  // ---------------------------------------------------------------------------
  // Properties of the listings

  /** A listing keeps every fetched sample that passes the filter as often as
      it was fetched, training and testing together: nothing is deduplicated,
      and nothing that fails the filter is kept. */
  lemma ListingMultiplicity(src: Listing, keep: Sample -> bool, resetOffset: bool, x: Sample)
    requires Ends(src, Training) && Ends(src, Testing)
    requires Listed(src, keep, resetOffset).Ok?
    ensures var tp := Pages(src, Training, 0).value;
            var sp := Pages(src, Testing, if resetOffset then 0 else PageSize * |tp|).value;
            multiset(Listed(src, keep, resetOffset).value)[x]
            == if keep(x) then multiset(Flatten(tp))[x] + multiset(Flatten(sp))[x] else 0
  {
    var tp := Pages(src, Training, 0).value;
    var sp := Pages(src, Testing, if resetOffset then 0 else PageSize * |tp|).value;
    FilterMultiplicity(keep, Flatten(tp + sp), x);
    FlattenConcat(tp, sp);
  }

  /** The kept training samples come first, in fetch order, followed by the
      kept testing samples. */
  lemma TrainingBeforeTesting(src: Listing, keep: Sample -> bool, resetOffset: bool)
    requires Ends(src, Training) && Ends(src, Testing)
    requires Listed(src, keep, resetOffset).Ok?
    ensures var tp := Pages(src, Training, 0).value;
            var sp := Pages(src, Testing, if resetOffset then 0 else PageSize * |tp|).value;
            Listed(src, keep, resetOffset).value == Filter(keep, Flatten(tp)) + Filter(keep, Flatten(sp))
  {
    var tp := Pages(src, Training, 0).value;
    var sp := Pages(src, Testing, if resetOffset then 0 else PageSize * |tp|).value;
    FlattenConcat(tp, sp);
    FilterConcat(keep, Flatten(tp), Flatten(sp));
  }

  /** A store with one page per category: `v` in training, `w` in testing. */
  function OnePagePerCategory(v: Sample, w: Sample): Listing {
    (c: Category, offset: nat) => if offset == 0 then Page([if c == Training then v else w]) else Page([])
  }

  /** Not resetting `offset` skips testing pages: with one training page, the
      testing walk of `listAllVideos` starts at offset 1000 and misses the
      video at offset 0, which the walk from 0 finds. */
  lemma VideosSkipTestingStart(v: Sample, w: Sample)
    requires IsUnprocessedVideo(v) && IsUnprocessedVideo(w)
    ensures Ends(OnePagePerCategory(v, w), Training) && Ends(OnePagePerCategory(v, w), Testing)
    ensures Listed(OnePagePerCategory(v, w), IsUnprocessedVideo, false) == Ok([v])
    ensures Listed(OnePagePerCategory(v, w), IsUnprocessedVideo, true) == Ok([v, w])
  {
    var src := OnePagePerCategory(v, w);
    assert ExhaustedFrom(src, Training, 1);
    assert ExhaustedFrom(src, Testing, 1);
    assert src(Training, 0) == Page([v]) && src(Testing, 0) == Page([w]);
    assert Pages(src, Training, 0 + PageSize) == Ok([]);
    assert Pages(src, Testing, 0 + PageSize) == Ok([]);
    assert [[v]] + [] == [[v]] && [[w]] + [] == [[w]];
    assert Pages(src, Training, 0) == Ok([[v]]);
    assert Pages(src, Testing, 0) == Ok([[w]]);
    assert Flatten([[v]] + []) == [v];
    assert Flatten([[v]] + [[w]]) == [v, w];
    FilterAll(IsUnprocessedVideo, [v]);
    FilterAll(IsUnprocessedVideo, [v, w]);
  }
}
