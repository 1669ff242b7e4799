/**
 * The stand-alone Instagram reels loader of assets/js/instagram.js: the
 * configured reel URLs are narrowed to at most three, each is looked up
 * through the oEmbed endpoint (a failure yields a fallback text rather than
 * an error), one wrapper per URL is shown, and Instagram's embed script is
 * added to the page once. The HTTP exchange of each lookup is an input.
 */
module Instagram {
  import opened Base
  import Dom

  /** A configured entry: `Some(s)` for a string, `None` for `null` or
      `undefined`; entries of other types are not modelled. */
  type Entry = Option<string>

  const ConfiguredUrls: seq<Entry> := [
    Some("https://www.instagram.com/reel/COLOQUE_ID1/"),
    Some("https://www.instagram.com/reel/COLOQUE_ID2/"),
    Some("https://www.instagram.com/reel/COLOQUE_ID3/")]
  /** `IG_OEMBED_TOKEN`. */
  const OEmbedToken: Entry := None
  const MaxReels := 3
  const NoUrlsMessage := "Nenhuma URL configurada ainda."
  const FallbackText := "Não foi possível carregar"
  const EmbedScriptId := "instagram-embed-script"
  const EmbedScriptSrc := "https://www.instagram.com/embed.js"

  /** The entry is truthy: a non-empty string. */
  predicate Truthy(e: Entry) {
    e.Some? && e.value != ""
  }

  /** `filter(Boolean)`, in order. */
  function FilterTruthy(xs: seq<Entry>): (r: seq<string>)
    ensures |r| <= |xs|
    ensures forall k :: 0 <= k < |r| ==> r[k] != ""
    decreases |xs|
  {
    if xs == [] then []
    else FilterTruthy(xs[..|xs| - 1]) + (if Truthy(xs[|xs| - 1]) then [xs[|xs| - 1].value] else [])
  }

  lemma {:induction false} FilterTruthyAppend(xs: seq<Entry>, ys: seq<Entry>)
    ensures FilterTruthy(xs + ys) == FilterTruthy(xs) + FilterTruthy(ys)
    decreases |ys|
  {
    if ys == [] {
      assert xs + ys == xs;
    } else {
      assert (xs + ys)[..|xs + ys| - 1] == xs + ys[..|ys| - 1];
      FilterTruthyAppend(xs, ys[..|ys| - 1]);
    }
  }

  /** A string is kept exactly when some entry holds it. */
  lemma {:induction false} FilterTruthyMembers(xs: seq<Entry>, s: string)
    ensures s in FilterTruthy(xs) <==> exists k :: 0 <= k < |xs| && xs[k] == Some(s) && s != ""
    decreases |xs|
  {
    if xs != [] {
      var n := |xs| - 1;
      FilterTruthyMembers(xs[..n], s);
      assert forall k :: 0 <= k < n ==> xs[..n][k] == xs[k];
    }
  }

  /** Only falsy entries are removed: with no falsy entry the values are kept as they are. */
  lemma {:induction false} FilterTruthyAllTruthy(xs: seq<Entry>)
    requires forall k :: 0 <= k < |xs| ==> Truthy(xs[k])
    ensures FilterTruthy(xs) == seq(|xs|, k requires 0 <= k < |xs| && Truthy(xs[k]) => xs[k].value)
    decreases |xs|
  {
    if xs != [] {
      FilterTruthyAllTruthy(xs[..|xs| - 1]);
    }
  }

  /** `INSTAGRAM_REELS_URLS.slice(0, 3).filter(Boolean)`. */
  function SelectUrls(configured: seq<Entry>): (r: seq<string>)
    ensures |r| <= MaxReels
  {
    FilterTruthy(configured[..if |configured| < MaxReels then |configured| else MaxReels])
  }

  /** Entries after the third never matter: a falsy entry among the first
      three is not replaced by a later one. */
  lemma NoBackfill(configured: seq<Entry>, later: seq<Entry>)
    requires |configured| >= MaxReels
    ensures SelectUrls(configured + later) == SelectUrls(configured)
  {
    assert (configured + later)[..MaxReels] == configured[..MaxReels];
  }

  /** A selected URL is a truthy entry among the first three, and every such entry is selected. */
  lemma SelectedMembers(configured: seq<Entry>, s: string)
    ensures s in SelectUrls(configured) <==>
      exists k :: 0 <= k < |configured| && k < MaxReels && configured[k] == Some(s) && s != ""
  {
    var n := if |configured| < MaxReels then |configured| else MaxReels;
    FilterTruthyMembers(configured[..n], s);
    assert forall k :: 0 <= k < n ==> configured[..n][k] == configured[k];
  }

  /** The three configured reel URLs are all selected, in order. */
  lemma ConfiguredSelection()
    ensures SelectUrls(ConfiguredUrls) == [ConfiguredUrls[0].value, ConfiguredUrls[1].value, ConfiguredUrls[2].value]
  {
    assert ConfiguredUrls[..MaxReels] == ConfiguredUrls;
    FilterTruthyAllTruthy(ConfiguredUrls);
  }

  // ---------------------------------------------------------------------
  // fetchOEmbedSafe

  /** The body of an HTTP response as JSON: not JSON at all, `null`, or
      another value with the string in its `html` member, if any. */
  datatype Body = Unparsable | JsonNull | JsonValue(html: Option<string>)

  /** The outcome of `fetch(endpoint)`. */
  datatype FetchResult = NetworkFailure | Response(ok: bool, body: Body)

  /** The query parameters of the oEmbed request, in order: the reel URL,
      `omit_script`, `maxwidth`, `hidecaption`, then `access_token` only
      when a token is set. */
  function OEmbedParams(url: string, token: Entry): (r: seq<(string, string)>)
    ensures |r| == (if Truthy(token) then 5 else 4)
    ensures r[..4] == [("url", url), ("omit_script", "true"), ("maxwidth", "320"), ("hidecaption", "true")]
    ensures (exists k :: 0 <= k < |r| && r[k].0 == "access_token") <==> Truthy(token)
    ensures Truthy(token) ==> r[4] == ("access_token", token.value)
  {
    var fixed := [("url", url), ("omit_script", "true"), ("maxwidth", "320"), ("hidecaption", "true")];
    assert forall k :: 0 <= k < |fixed| ==> |fixed[k].0| != |"access_token"|;
    var r := fixed + (if Truthy(token) then [("access_token", token.value)] else []);
    assert Truthy(token) ==> r[4].0 == "access_token";
    r
  }

  /** With the configured token (none), no access token is sent. */
  lemma NoTokenSent(url: string)
    ensures forall k :: 0 <= k < |OEmbedParams(url, OEmbedToken)| ==> OEmbedParams(url, OEmbedToken)[k].0 != "access_token"
  {
  }

  /** `fetchOEmbedSafe(url)` given the outcome of its request: it never
      throws; a network error, a non-ok status, an unparsable body and a
      `null` body (whose `html` cannot be read) all yield `null` (`None`). */
  function FetchOEmbedSafe(res: FetchResult): (r: Option<string>)
    ensures r.Some? <==> res.Response? && res.ok && res.body.JsonValue? && res.body.html.Some?
    ensures r.Some? ==> r.value == res.body.html.value
  {
    match res
    case NetworkFailure => None
    case Response(ok, body) =>
      if !ok then None
      else match body
        case Unparsable => None
        case JsonNull => None
        case JsonValue(html) => html
  }

  /** The content of one `.reel-embed` wrapper: `html || fallback`. A
      wrapper is never blank: it shows the returned html whenever that is
      non-empty, and otherwise the fallback text. */
  function WrapperContent(html: Option<string>): (r: string)
    ensures r != ""
    ensures r == FallbackText || html == Some(r)
    ensures html.Some? && html.value != "" ==> r == html.value
  {
    if html.Some? && html.value != "" then html.value else FallbackText
  }

  // ---------------------------------------------------------------------
  // The section

  /** What `#instagram-reels` shows. */
  datatype View =
    | Untouched
    | LoadingReels                // "Carregando reels..."
    | NoUrls                      // the no-URL message
    | Wrappers(items: seq<string>) // one `.reel-embed` per URL, with its content

  class ReelsContainer {
    var view: View

    constructor ()
      ensures view == Untouched
    {
      view := Untouched;
    }
  }

  /** `ensureInstagramEmbedScript()`: a script with the fixed id is appended
      to `body` only when no element has that id, so that the page holds it
      once whatever the number of calls. */
  method EnsureInstagramEmbedScript(doc: Dom.Document)
    modifies doc`body
    ensures old(doc.HasId(EmbedScriptId)) ==> doc.body == old(doc.body)
    ensures !old(doc.HasId(EmbedScriptId)) ==>
      doc.body == old(doc.body) + [Dom.Script(EmbedScriptId, EmbedScriptSrc, true, false, "")]
    ensures doc.HasId(EmbedScriptId)
  {
    if doc.HasId(EmbedScriptId) {
      return;
    }
    doc.body := doc.body + [Dom.Script(EmbedScriptId, EmbedScriptSrc, true, false, "")];
    assert doc.body[|doc.body| - 1].id == EmbedScriptId;
  }

  /** After `ensureInstagramEmbedScript`, a `loadScript` of the same URL (as
      the reels module does) inserts nothing more. */
  method EmbedScriptThenLoad(doc: Dom.Document, loads: bool) returns (r: Settlement)
    requires !doc.HasId(EmbedScriptId)
    modifies doc`body, doc`head
    ensures r == Resolved
    ensures doc.head == old(doc.head)
    ensures |doc.body| == |old(doc.body)| + 1
  {
    EnsureInstagramEmbedScript(doc);
    assert doc.body[|doc.body| - 1].src == EmbedScriptSrc;
    r := Dom.LoadScript(doc, EmbedScriptSrc, Dom.DefaultOptions, loads);
  }

  /** `loadInstagramReels()` given the outcome of each oEmbed request, in
      the order of the selected URLs. Without a container nothing happens;
      without URLs the no-URL message is shown and nothing is requested or
      appended; otherwise one wrapper per URL, in order, holds that URL's
      html or the fallback text, and the embed script is ensured. */
  method LoadInstagramReels(container: ReelsContainer?, doc: Dom.Document, configured: seq<Entry>,
                            responses: seq<FetchResult>)
    requires |responses| == |SelectUrls(configured)|
    modifies container, doc`body
    ensures container == null ==> doc.body == old(doc.body)
    ensures container != null && SelectUrls(configured) == [] ==>
      container.view == NoUrls && doc.body == old(doc.body)
    ensures container != null && SelectUrls(configured) != [] ==>
      && container.view.Wrappers?
      && |container.view.items| == |SelectUrls(configured)|
      && (forall k :: 0 <= k < |responses| ==>
            container.view.items[k] == WrapperContent(FetchOEmbedSafe(responses[k])))
      && (forall k :: 0 <= k < |container.view.items| ==> container.view.items[k] != "")
      && doc.HasId(EmbedScriptId)
      && (old(doc.HasId(EmbedScriptId)) ==> doc.body == old(doc.body))
      && (!old(doc.HasId(EmbedScriptId)) ==>
            doc.body == old(doc.body) + [Dom.Script(EmbedScriptId, EmbedScriptSrc, true, false, "")])
  {
    if container == null {
      return;
    }
    container.view := LoadingReels;
    var urls := SelectUrls(configured);
    if |urls| == 0 {
      container.view := NoUrls;
      return;
    }
    var items: seq<string> := [];
    var k := 0;
    while k < |responses|
      invariant 0 <= k <= |responses|
      invariant |items| == k
      invariant forall j :: 0 <= j < k ==> items[j] == WrapperContent(FetchOEmbedSafe(responses[j]))
    {
      items := items + [WrapperContent(FetchOEmbedSafe(responses[k]))];
      k := k + 1;
    }
    container.view := Wrappers(items);
    EnsureInstagramEmbedScript(doc);
  }
}
