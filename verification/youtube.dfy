/**
 * The deterministic parts of the video-review pipeline
 * (src/backend/Agent/youtube.py): choosing the result links from the
 * search page, deriving a video id from a watch URL, and assembling the
 * transcripts into one text. The browser session and the transcript
 * service are collaborators whose outcomes are inputs here.
 */
module Youtube {
  import opened Values
  import opened Text

  /** The origin prepended to every relative `href` of a search result. */
  const YoutubeOrigin := "https://www.youtube.com"

  /** How many search results `fill_youtube_search` looks at. */
  const ResultsInspected := 3

  /** The selection rule applied to the `href`s read: keep non-empty ones, prefixed. */
  function KeepLinks(hrefs: seq<Option<string>>): (links: seq<string>)
    ensures |links| <= |hrefs|
    ensures forall k :: 0 <= k < |links| ==>
      |links[k]| > |YoutubeOrigin| && links[k][..|YoutubeOrigin|] == YoutubeOrigin
  {
    if |hrefs| == 0 then []
    else
      var first := if hrefs[0].Some? && hrefs[0].value != "" then [YoutubeOrigin + hrefs[0].value] else [];
      first + KeepLinks(hrefs[1..])
  }

  /** Selection distributes over concatenation, so page order is kept. */
  lemma {:induction false} KeepLinksAppend(a: seq<Option<string>>, b: seq<Option<string>>)
    ensures KeepLinks(a + b) == KeepLinks(a) + KeepLinks(b)
    decreases |a|
  {
    if |a| > 0 {
      KeepLinksAppend(a[1..], b);
      assert (a + b)[1..] == a[1..] + b;
    } else {
      assert a + b == b;
    }
  }

  /** The `href`s read from result elements, `None` where reading raised. */
  function HrefsRead(elements: seq<Step<Option<string>>>): (hrefs: seq<Option<string>>)
    ensures |hrefs| == |elements|
    ensures forall k :: 0 <= k < |elements| && elements[k].Returned? ==> hrefs[k] == elements[k].value
  {
    seq(|elements|, k requires 0 <= k < |elements| =>
      if elements[k].Returned? then elements[k].value else None)
  }

  /** Reading one more element extends the `href`s read by its value. */
  lemma HrefsReadExtend(elements: seq<Step<Option<string>>>, i: nat)
    requires i < |elements| && elements[i].Returned?
    ensures HrefsRead(elements[..i + 1]) == HrefsRead(elements[..i]) + [elements[i].value]
  {
    var a, b := HrefsRead(elements[..i + 1]), HrefsRead(elements[..i]) + [elements[i].value];
    assert |a| == |b|;
    forall k | 0 <= k < |a|
      ensures a[k] == b[k]
    {
      if k < i {
        assert elements[..i + 1][k] == elements[..i][k];
      }
    }
  }

  /** Reading one more element extends the links kept by at most that element's link. */
  lemma KeepLinksStep(elements: seq<Step<Option<string>>>, i: nat)
    requires i < |elements| && elements[i].Returned?
    ensures KeepLinks(HrefsRead(elements[..i + 1])) == KeepLinks(HrefsRead(elements[..i])) + KeepLinks([elements[i].value])
  {
    HrefsReadExtend(elements, i);
    KeepLinksAppend(HrefsRead(elements[..i]), [elements[i].value]);
  }

  /** The number of results inspected on a page of `n` results: `[:3]`. */
  function Inspected(n: nat): nat {
    if n < ResultsInspected then n else ResultsInspected
  }

  /**
   * `fill_youtube_search(title)` from the moment the result page is loaded:
   * `page` is the outcome of loading it (navigation, search box, query),
   * each element of which is the outcome of reading one result's `href`.
   * Any exception turns into `None`.
   */
  method FillYoutubeSearch(page: Step<seq<Step<Option<string>>>>) returns (r: Option<seq<string>>)
    ensures page.Raised? ==> r.None?
    ensures page.Returned? ==>
      (r.Some? <==> forall k :: 0 <= k < Inspected(|page.value|) ==> page.value[k].Returned?)
    ensures r.Some? ==> |r.value| <= ResultsInspected
    ensures r.Some? ==> r.value == KeepLinks(HrefsRead(page.value[..Inspected(|page.value|)]))
  {
    if page.Raised? {
      return None;
    }
    var elements := page.value;
    var n := Inspected(|elements|);
    var links: seq<string> := [];
    var i := 0;
    while i < n
      invariant 0 <= i <= n
      invariant forall k :: 0 <= k < i ==> elements[k].Returned?
      invariant links == KeepLinks(HrefsRead(elements[..i]))
    {
      if elements[i].Raised? {
        return None;
      }
      var href := elements[i].value;
      if href.Some? && href.value != "" {
        links := links + [YoutubeOrigin + href.value];
      }
      assert forall k :: 0 <= k < i + 1 ==> elements[k].Returned?;
      KeepLinksStep(elements, i);
      i := i + 1;
    }
    assert elements[..n] == elements[..i];
    return Some(links);
  }

  /** The marker preceding a video id in a watch URL. */
  const IdMarker := "v="

  /** `url.split("v=")[-1]` */
  function VideoId(url: string): (id: string)
    ensures |id| <= |url| && url[|url| - |id|..] == id
    ensures !Contains(id, IdMarker)
    ensures id == url || (|url| - |id| >= 2 && StartsAt(url, IdMarker, |url| - |id| - 2))
  {
    LastPartIsSuffixAfterSeparator(url, IdMarker);
    LastPart(url, IdMarker)
  }

  /** One entry of a transcript; only its `text` is used. */
  datatype TranscriptItem = TranscriptItem(text: string)

  type Transcript = seq<TranscriptItem>

  /** Run calls in order; the first one that raises aborts the rest and propagates. */
  function Collect<T>(steps: seq<Step<T>>): (r: Step<seq<T>>)
    ensures r.Returned? <==> forall k :: 0 <= k < |steps| ==> steps[k].Returned?
    ensures r.Returned? ==> |r.value| == |steps|
    ensures r.Returned? ==> forall k :: 0 <= k < |steps| ==> steps[k] == Returned(r.value[k])
    ensures r.Raised? ==>
      exists k ::
        && 0 <= k < |steps|
        && steps[k] == Raised(r.message)
        && forall j :: 0 <= j < k ==> steps[j].Returned?
  {
    if |steps| == 0 then Returned([])
    else if steps[0].Raised? then Raised(steps[0].message)
    else
      var rest := Collect(steps[1..]);
      if rest.Raised? then
        assert forall j :: 1 <= j < |steps| ==> steps[j] == steps[1..][j - 1];
        Raised(rest.message)
      else Returned([steps[0].value] + rest.value)
  }

  /** Collecting two runs one after the other. */
  lemma {:induction false} CollectAppend<T>(a: seq<Step<T>>, b: seq<Step<T>>)
    requires Collect(a).Returned? && Collect(b).Returned?
    ensures Collect(a + b) == Returned(Collect(a).value + Collect(b).value)
  {
    var ra, rb := Collect(a).value, Collect(b).value;
    var r := Collect(a + b);
    assert forall k :: 0 <= k < |a + b| ==> (a + b)[k] == if k < |a| then a[k] else b[k - |a|];
    assert r.Returned?;
    assert |r.value| == |ra + rb|;
    forall k | 0 <= k < |ra + rb|
      ensures r.value[k] == (ra + rb)[k]
    {
      assert (a + b)[k] == Returned(r.value[k]);
    }
    assert r.value == ra + rb;
  }

  /** The transcript fetches `get_content` makes: one per URL, keyed by its video id. */
  function Fetches(urls: seq<string>, fetch: string -> Step<Transcript>): (r: seq<Step<Transcript>>)
    ensures |r| == |urls|
    ensures forall k :: 0 <= k < |urls| ==> r[k] == fetch(VideoId(urls[k]))
  {
    seq(|urls|, k requires 0 <= k < |urls| => fetch(VideoId(urls[k])))
  }

  /** Every item's text, transcript by transcript, item by item. */
  function Texts(ts: seq<Transcript>): seq<string>
  {
    if |ts| == 0 then []
    else (seq(|ts[0]|, k requires 0 <= k < |ts[0]| => ts[0][k].text)) + Texts(ts[1..])
  }

  /**
   * `get_content(urls)`: every transcript is fetched first, in URL order;
   * the first fetch that raises propagates. Otherwise the result is every
   * item's text joined by single spaces.
   */
  function GetContent(urls: seq<string>, fetch: string -> Step<Transcript>): (r: Step<string>)
    ensures r.Returned? <==> forall k :: 0 <= k < |urls| ==> fetch(VideoId(urls[k])).Returned?
    ensures r.Returned? ==> r.value == Join(Texts(Collect(Fetches(urls, fetch)).value), " ")
    ensures r.Raised? ==>
      exists k ::
        && 0 <= k < |urls|
        && fetch(VideoId(urls[k])) == Raised(r.message)
        && forall j :: 0 <= j < k ==> fetch(VideoId(urls[j])).Returned?
  {
    match Collect(Fetches(urls, fetch))
    case Raised(m) => Raised(m)
    case Returned(ts) => Returned(Join(Texts(ts), " "))
  }

  /** An empty URL list gives the empty text without fetching anything. */
  lemma NoUrlsNoContent(fetch: string -> Step<Transcript>)
    ensures GetContent([], fetch) == Returned("")
  {
  }

  /** The texts of consecutive transcript lists are concatenated in order. */
  lemma {:induction false} TextsAppend(a: seq<Transcript>, b: seq<Transcript>)
    ensures Texts(a + b) == Texts(a) + Texts(b)
    decreases |a|
  {
    if |a| > 0 {
      TextsAppend(a[1..], b);
      assert (a + b)[1..] == a[1..] + b;
      assert (a + b)[0] == a[0];
    } else {
      assert a + b == b;
    }
  }

  /**
   * The content of two URL lists, fetched one after the other, is the first
   * content, one space, then the second: URL order is reading order.
   */
  lemma ContentOfConcatenation(us: seq<string>, vs: seq<string>, fetch: string -> Step<Transcript>)
    requires GetContent(us, fetch).Returned? && GetContent(vs, fetch).Returned?
    requires |Texts(Collect(Fetches(us, fetch)).value)| > 0
    requires |Texts(Collect(Fetches(vs, fetch)).value)| > 0
    ensures GetContent(us + vs, fetch) ==
      Returned(GetContent(us, fetch).value + " " + GetContent(vs, fetch).value)
  {
    var fa, fb := Fetches(us, fetch), Fetches(vs, fetch);
    FetchesAppend(us, vs, fetch);
    CollectAppend(fa, fb);
    var a, b := Collect(fa).value, Collect(fb).value;
    TextsAppend(a, b);
    JoinAppend(Texts(a), Texts(b), " ");
  }

  /** The fetches for two URL lists are those of the first, then those of the second. */
  lemma FetchesAppend(us: seq<string>, vs: seq<string>, fetch: string -> Step<Transcript>)
    ensures Fetches(us + vs, fetch) == Fetches(us, fetch) + Fetches(vs, fetch)
  {
    var both, fa, fb := Fetches(us + vs, fetch), Fetches(us, fetch), Fetches(vs, fetch);
    forall k | 0 <= k < |both|
      ensures both[k] == (fa + fb)[k]
    {
      if k < |us| {
        assert (us + vs)[k] == us[k];
      } else {
        assert (us + vs)[k] == vs[k - |us|];
      }
    }
  }
}
