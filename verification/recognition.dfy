/** The box check of `recognize_medication`: does some OCR text fragment
    fuzzily match the medication's name? The OCR engine and `fuzz.partial_ratio`
    are foreign: the OCR outcome is an input and the similarity score a
    function parameter with no properties assumed. */
module Recognition {
  import opened Wrappers
  import opened Text

  /** `threshold=80`. */
  const DefaultThreshold := 80

  /** One recognised text line `[box, (text, confidence)]`; only the text is read. */
  datatype Fragment = Fragment(text: string)

  /** One page of `ocr_model.ocr(path)`: `None` when nothing was found on it. */
  type Page = Option<seq<Fragment>>

  /** Iterating a `None` page raises `TypeError`. */
  datatype OcrError = NoneIteration

  /** Similarity score of a query against a text, as `partial_ratio(query, text)`. */
  type Similarity = (string, string) -> int

  /** The test of line 382: the medication name is the query and the
      lower-cased fragment the text. */
  predicate Matches(ratio: Similarity, medication: string, threshold: int, fragment: Fragment) {
    ratio(medication, Lower(fragment.text)) >= threshold
  }

  ghost predicate HitOnPage(ratio: Similarity, medication: string, threshold: int, page: seq<Fragment>) {
    exists j :: 0 <= j < |page| && Matches(ratio, medication, threshold, page[j])
  }

  /** The inner loop over one page's fragments. */
  function AnyFragment(ratio: Similarity, medication: string, threshold: int, page: seq<Fragment>): (r: bool)
    ensures r <==> HitOnPage(ratio, medication, threshold, page)
  {
    if |page| == 0 then false
    else if Matches(ratio, medication, threshold, page[0]) then true
    else
      var r := AnyFragment(ratio, medication, threshold, page[1..]);
      assert forall j :: 1 <= j < |page| ==> page[j] == page[1..][j - 1];
      r
  }

  ghost predicate Hit(ratio: Similarity, medication: string, threshold: int, pages: seq<Page>) {
    exists p :: 0 <= p < |pages| && pages[p].Some? && HitOnPage(ratio, medication, threshold, pages[p].value)
  }

  /** Every page before position `p` was read and has no matching fragment. */
  ghost predicate MissedBefore(ratio: Similarity, medication: string, threshold: int, pages: seq<Page>, p: int) {
    forall q :: 0 <= q < p && q < |pages| ==> pages[q].Some? && !HitOnPage(ratio, medication, threshold, pages[q].value)
  }

  /** Past a page that was read and missed, the scan of the remaining pages
      sees the same history, shifted by one. */
  lemma MissedFirstPage(ratio: Similarity, medication: string, threshold: int, pages: seq<Page>)
    requires |pages| > 0 && pages[0].Some? && !HitOnPage(ratio, medication, threshold, pages[0].value)
    ensures forall p :: 1 <= p <= |pages| ==>
      (MissedBefore(ratio, medication, threshold, pages, p) <==> MissedBefore(ratio, medication, threshold, pages[1..], p - 1))
    ensures Hit(ratio, medication, threshold, pages) <==> Hit(ratio, medication, threshold, pages[1..])
    ensures (forall p :: 0 <= p < |pages| ==> pages[p].Some?) <==> (forall p :: 0 <= p < |pages[1..]| ==> pages[1..][p].Some?)
  {
    assert forall p :: 1 <= p < |pages| ==> pages[p] == pages[1..][p - 1];
  }

  /** The outer loop over pages: the first matching page answers true, a
      `None` page reached before any match raises. */
  function ScanPages(ratio: Similarity, medication: string, threshold: int, pages: seq<Page>): (r: Result<bool, OcrError>)
    ensures r == Ok(true) <==>
      exists p :: 0 <= p < |pages| && pages[p].Some? && HitOnPage(ratio, medication, threshold, pages[p].value)
        && MissedBefore(ratio, medication, threshold, pages, p)
    ensures r.Err? <==> exists p :: 0 <= p < |pages| && pages[p].None? && MissedBefore(ratio, medication, threshold, pages, p)
    ensures r == Ok(true) ==> Hit(ratio, medication, threshold, pages)
    ensures r == Ok(false) <==> (forall p :: 0 <= p < |pages| ==> pages[p].Some?) && !Hit(ratio, medication, threshold, pages)
  {
    if |pages| == 0 then Ok(false)
    else
      assert MissedBefore(ratio, medication, threshold, pages, 0);
      match pages[0]
      case None => Err(NoneIteration)
      case Some(page) =>
        if AnyFragment(ratio, medication, threshold, page) then Ok(true)
        else
          MissedFirstPage(ratio, medication, threshold, pages);
          ScanPages(ratio, medication, threshold, pages[1..])
  }

  /** `recognize_medication`: `[None]` means nothing was read and answers
      false; otherwise the pages are scanned in order. */
  function RecognizeMedication(ratio: Similarity, medication: string, pages: seq<Page>, threshold: int)
    : (r: Result<bool, OcrError>)
    ensures pages == [None] ==> r == Ok(false)
    ensures r.Err? <==> pages != [None] && exists p :: 0 <= p < |pages| && pages[p].None? && MissedBefore(ratio, medication, threshold, pages, p)
    ensures r == Ok(true) <==>
      pages != [None]
      && exists p :: 0 <= p < |pages| && pages[p].Some? && HitOnPage(ratio, medication, threshold, pages[p].value)
           && MissedBefore(ratio, medication, threshold, pages, p)
    ensures r == Ok(false) <==>
      pages == [None] || ((forall p :: 0 <= p < |pages| ==> pages[p].Some?) && !Hit(ratio, medication, threshold, pages))
    ensures r == Ok(true) ==> Hit(ratio, medication, threshold, pages)
    ensures (forall p :: 0 <= p < |pages| ==> pages[p].Some?) ==>
      r.Ok? && (r.value <==> Hit(ratio, medication, threshold, pages))
  {
    if pages == [None] then Ok(false) else ScanPages(ratio, medication, threshold, pages)
  }

  /** A matching page answers true before any later `None` page is reached. */
  lemma HitBeforeNoneRecognised(ratio: Similarity, medication: string, page: seq<Fragment>, threshold: int)
    requires AnyFragment(ratio, medication, threshold, page)
    ensures RecognizeMedication(ratio, medication, [Some(page), None], threshold) == Ok(true)
  {
    var pages: seq<Page> := [Some(page), None];
    assert pages[0].Some? && HitOnPage(ratio, medication, threshold, pages[0].value);
    assert MissedBefore(ratio, medication, threshold, pages, 0);
  }

  /** An image whose single page reads as nothing, or whose pages hold no
      fragments at all, is never recognised. */
  lemma EmptyOcrNotRecognised(ratio: Similarity, medication: string, pages: seq<Page>, threshold: int)
    requires pages == [None] || forall p :: 0 <= p < |pages| ==> pages[p] == Some([])
    ensures RecognizeMedication(ratio, medication, pages, threshold) == Ok(false)
  {
  }

  /** A page that read as nothing, ahead of a page that would match, still
      raises: the loop never gets to the match. */
  lemma NoneBeforeHitRaises(ratio: Similarity, medication: string, page: seq<Fragment>, threshold: int)
    ensures RecognizeMedication(ratio, medication, [None, Some(page)], threshold).Err?
  {
    var pages: seq<Page> := [None, Some(page)];
    assert pages != [None];
    assert pages[0].None? && MissedBefore(ratio, medication, threshold, pages, 0);
  }

  /** Only the fragment is lower-cased: the medication name is passed to the
      score as written. */
  lemma OnlyFragmentLowered(ratio: Similarity, medication: string, text: string, threshold: int)
    ensures RecognizeMedication(ratio, medication, [Some([Fragment(text)])], threshold)
         == Ok(ratio(medication, Lower(text)) >= threshold)
  {
    assert [Some([Fragment(text)])] != [None];
    assert Hit(ratio, medication, threshold, [Some([Fragment(text)])]) <==> Matches(ratio, medication, threshold, Fragment(text)) by {
      var pages := [Some([Fragment(text)])];
      if Matches(ratio, medication, threshold, Fragment(text)) {
        assert pages[0].value[0] == Fragment(text);
      }
    }
  }
}
