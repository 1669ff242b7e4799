/**
 * The Instagram reels section of assets/js/modules/insta-reels.js. One card
 * per configured reel URL is rendered with a placeholder; a button loads
 * Instagram's embed script on demand and, once it has loaded, every card is
 * replaced by an embed placeholder for its own reel. Whether the script
 * loads is an input of the model.
 */
module InstaReels {
  import opened Base
  import opened Strings
  import Dom

  const DefaultReelsUrls := [
    "https://www.instagram.com/reel/example1/",
    "https://www.instagram.com/reel/example2/",
    "https://www.instagram.com/reel/example3/"]
  const EmbedScriptUrl := "https://www.instagram.com/embed.js"
  const CardClasses := {"card", "reel-card"}
  const LoadedClass := "reel-loaded"

  /** The `className: 'card reel-card'` that `createReelCard` passes to
      `create` yields the two classes of a card. */
  lemma CardClassNames()
    ensures Dom.ClassTokens("card" + " " + "reel-card") == CardClasses
  {
    Dom.TwoClassTokens("card", "reel-card");
  }

  /** The content of a card. */
  datatype CardBody =
    | ReelPlaceholder(subtitle: string)   // icon, "Reel do Instagram" and the subtitle
    | EmbedPlaceholder(url: string)       // "Instagram Reel", the URL and a "Ver no Instagram" link to it

  /** A `.reel-card`: its `data-reel-url` and `data-reel-index` attributes,
      its classes and its content. */
  datatype Card = Card(reelUrl: string, reelIndex: string, classes: set<string>, body: CardBody)

  /** `createReelCard(url, index)`. */
  function ReelCard(url: string, index: nat): Card {
    Card(url, NatToString(index), CardClasses, ReelPlaceholder("#" + NatToString(index + 1)))
  }

  /** The cards `renderReels` builds for `urls`, in order. */
  function RenderedCards(urls: seq<string>): (r: seq<Card>)
    ensures |r| == |urls|
  {
    seq(|urls|, k requires 0 <= k < |urls| => ReelCard(urls[k], k))
  }

  /** Card `k` of a rendering carries the `k`-th URL, the index `k` written
      in decimal, and the one-based subtitle `#(k+1)`; the indices of two
      different cards differ. */
  lemma RenderedCardsIndexed(urls: seq<string>, k: nat, j: nat)
    requires k < |urls| && j < |urls|
    ensures var r := RenderedCards(urls);
      && r[k].reelUrl == urls[k]
      && DecimalValue(r[k].reelIndex) == k
      && r[k].body == ReelPlaceholder("#" + NatToString(k + 1))
      && (k != j ==> r[k].reelIndex != r[j].reelIndex)
  {
    DecimalRoundTrip(k);
    if NatToString(k) == NatToString(j) {
      NatToStringInjective(k, j);
    }
  }

  /** `replaceWithEmbed(card, card.dataset.reelUrl, index)`. */
  function Embedded(c: Card): (r: Card)
    ensures r.reelUrl == c.reelUrl && r.reelIndex == c.reelIndex
    ensures r.body == EmbedPlaceholder(c.reelUrl)
    ensures r.classes == c.classes + {LoadedClass}
  {
    c.(classes := c.classes + {LoadedClass}, body := EmbedPlaceholder(c.reelUrl))
  }

  /** Embedding is idempotent, so replacing the cards a second time changes nothing. */
  lemma EmbeddedIdempotent(c: Card)
    ensures Embedded(Embedded(c)) == Embedded(c)
  {
  }

  class InstaReelsModule {
    /** `#instagram-reels` was found by `init`. */
    const hasContainer: bool
    var instagramLoaded: bool
    var reelsUrls: seq<string>
    /** The `.reel-card` elements of the container, in document order. */
    var cards: seq<Card>
    var hasLoadButton: bool
    /** Number of "Erro ao carregar Reels" alerts in the container. */
    var errorAlerts: nat

    ghost predicate Valid()
      reads this
    {
      && (!hasContainer ==> cards == [] && !hasLoadButton && errorAlerts == 0 && !instagramLoaded)
      && (hasContainer && !instagramLoaded ==> cards == RenderedCards(reelsUrls))
      && (hasContainer && instagramLoaded ==>
            |cards| == |reelsUrls| && forall k :: 0 <= k < |cards| ==> cards[k] == Embedded(ReelCard(reelsUrls[k], k)))
    }

    /** `new InstaReelsModule()` and `init()`: the cards and the load button
        are rendered when the container exists. */
    constructor (containerFound: bool)
      ensures hasContainer == containerFound && !instagramLoaded && errorAlerts == 0
      ensures reelsUrls == DefaultReelsUrls
      ensures containerFound ==> cards == RenderedCards(DefaultReelsUrls) && hasLoadButton
      ensures !containerFound ==> cards == [] && !hasLoadButton
      ensures Valid()
    {
      hasContainer := containerFound;
      instagramLoaded := false;
      reelsUrls := DefaultReelsUrls;
      cards := [];
      hasLoadButton := false;
      errorAlerts := 0;
      new;
      if containerFound {
        RenderReels();
      }
    }

    /** `renderReels()`: one card per URL, in order, then the load button. */
    method RenderReels()
      requires hasContainer
      modifies this`cards, this`hasLoadButton
      ensures cards == RenderedCards(reelsUrls) && hasLoadButton
    {
      var grid: seq<Card> := [];
      var k := 0;
      while k < |reelsUrls|
        invariant 0 <= k <= |reelsUrls|
        invariant grid == RenderedCards(reelsUrls[..k])
      {
        grid := grid + [ReelCard(reelsUrls[k], k)];
        k := k + 1;
      }
      assert reelsUrls[..k] == reelsUrls;
      cards := grid;
      hasLoadButton := true;
    }

    /** The `forEach` over `.reel-card` that replaces each card in place. */
    method ReplaceCards()
      modifies this`cards
      ensures |cards| == |old(cards)|
      ensures forall k :: 0 <= k < |cards| ==> cards[k] == Embedded(old(cards)[k])
    {
      var k := 0;
      while k < |cards|
        invariant 0 <= k <= |cards| == |old(cards)|
        invariant forall j :: 0 <= j < k ==> cards[j] == Embedded(old(cards)[j])
        invariant forall j :: k <= j < |cards| ==> cards[j] == old(cards)[j]
      {
        cards := cards[k := Embedded(cards[k])];
        k := k + 1;
      }
    }

    /** `loadInstagramEmbeds()`: nothing once loaded; otherwise the embed
        script is requested and, when it resolves, the flag is set and every
        card becomes an embed placeholder for its own reel with the
        `reel-loaded` class; when it rejects, one error alert is appended
        and the flag stays false. */
    method LoadInstagramEmbeds(doc: Dom.Document, scriptLoads: bool)
      requires hasContainer && Valid()
      modifies this`instagramLoaded, this`cards, this`errorAlerts, doc`head
      ensures old(instagramLoaded) ==>
        instagramLoaded && cards == old(cards) && errorAlerts == old(errorAlerts) && doc.head == old(doc.head)
      ensures !old(instagramLoaded) ==> doc.HasScriptWithSrc(EmbedScriptUrl)
      ensures !old(instagramLoaded) ==>
        doc.head == (if old(doc.HasScriptWithSrc(EmbedScriptUrl)) then old(doc.head)
                     else old(doc.head) + [Dom.ScriptFor(EmbedScriptUrl, Dom.DefaultOptions)])
      ensures !old(instagramLoaded) && (old(doc.HasScriptWithSrc(EmbedScriptUrl)) || scriptLoads) ==>
        instagramLoaded && errorAlerts == old(errorAlerts)
        && |cards| == |old(cards)| && forall k :: 0 <= k < |cards| ==> cards[k] == Embedded(old(cards)[k])
      ensures !old(instagramLoaded) && !(old(doc.HasScriptWithSrc(EmbedScriptUrl)) || scriptLoads) ==>
        !instagramLoaded && errorAlerts == old(errorAlerts) + 1 && cards == old(cards)
      ensures Valid()
    {
      if instagramLoaded {
        return;
      }
      var settled := Dom.LoadScript(doc, EmbedScriptUrl, Dom.DefaultOptions, scriptLoads);
      if settled == Resolved {
        instagramLoaded := true;
        ReplaceCards();
      } else {
        errorAlerts := errorAlerts + 1;
      }
    }

    /** A click on the load button: the embeds are requested and the button
        is removed, whatever the outcome. */
    method ClickLoadButton(doc: Dom.Document, scriptLoads: bool)
      requires hasLoadButton && Valid()
      modifies this`instagramLoaded, this`cards, this`errorAlerts, this`hasLoadButton, doc`head
      ensures !hasLoadButton
      ensures old(instagramLoaded) ==>
        instagramLoaded && cards == old(cards) && errorAlerts == old(errorAlerts) && doc.head == old(doc.head)
      ensures !old(instagramLoaded) ==> doc.HasScriptWithSrc(EmbedScriptUrl)
      ensures !old(instagramLoaded) ==>
        doc.head == (if old(doc.HasScriptWithSrc(EmbedScriptUrl)) then old(doc.head)
                     else old(doc.head) + [Dom.ScriptFor(EmbedScriptUrl, Dom.DefaultOptions)])
      ensures !old(instagramLoaded) && (old(doc.HasScriptWithSrc(EmbedScriptUrl)) || scriptLoads) ==>
        instagramLoaded && errorAlerts == old(errorAlerts)
        && |cards| == |old(cards)| && forall k :: 0 <= k < |cards| ==> cards[k] == Embedded(old(cards)[k])
      ensures !old(instagramLoaded) && !(old(doc.HasScriptWithSrc(EmbedScriptUrl)) || scriptLoads) ==>
        !instagramLoaded && errorAlerts == old(errorAlerts) + 1 && cards == old(cards)
      ensures Valid()
    {
      LoadInstagramEmbeds(doc, scriptLoads);
      hasLoadButton := false;
    }

    /** `updateReels(newUrls)`: the list is replaced first; the container is
        then emptied, the flag reset and the cards rendered again. The method
        has no container guard, so without a container it throws after
        storing the list. */
    method UpdateReels(newUrls: seq<string>) returns (r: Option<JsError>)
      requires Valid()
      modifies this`reelsUrls, this`instagramLoaded, this`cards, this`hasLoadButton, this`errorAlerts
      ensures reelsUrls == newUrls
      ensures hasContainer ==>
        r == None && !instagramLoaded && errorAlerts == 0 && cards == RenderedCards(newUrls) && hasLoadButton
      ensures !hasContainer ==> r.Some? && cards == [] && !hasLoadButton && !instagramLoaded
      ensures Valid()
    {
      reelsUrls := newUrls;
      if !hasContainer {
        return Some(TypeError("Cannot set properties of null (setting 'innerHTML')"));
      }
      cards := [];
      hasLoadButton := false;
      errorAlerts := 0;
      instagramLoaded := false;
      RenderReels();
      r := None;
    }
  }
}
