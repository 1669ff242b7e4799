/**
 * The lazily loaded Google Maps embed of assets/js/modules/mapa.js. The
 * `#google-maps` container shows a placeholder with a load button; the map
 * iframe is only created when the button is clicked, `mapLoaded` is set by
 * the iframe's `load` event, and an `error` event shows a directions link
 * instead. The iframe events are inputs of the model.
 */
module MapEmbed {
  import opened Base
  import opened Strings
  import opened Uri

  const DefaultAddress := "Rua Exemplo, 123, Bairro, Cidade - Estado, CEP"
  const DefaultMapsUrl := "https://www.google.com/maps/embed?pb=!1m18!1m12!1m3!1d3657.0975!2d-46.6333!3d-23.5505!2m3!1f0!2f0!3f0!3m2!1i1024!2i768!4f13.1!3m3!1m2!1s0x0%3A0x0!2zMjPCsDMzJzAxLjgiUyA0NsKwMzcnNTkuOSJX!5e0!3m2!1spt-BR!2sbr!4v1234567890123!5m2!1spt-BR!2sbr"
  const DirectionsPrefix := "https://www.google.com/maps/dir/?api=1&destination="

  /** `getDirectionsUrl()` for the given address. */
  function DirectionsUrl(address: string): (r: string)
    ensures StartsWith(r, DirectionsPrefix)
    ensures |r| >= |DirectionsPrefix| + |address|
  {
    DirectionsPrefix + EncodeURIComponent(address)
  }

  /** The address travels as the single `destination` parameter: after the
      prefix the URL holds no character that would end or split it. */
  lemma DirectionsUrlOneParameter(address: string)
    ensures var r := DirectionsUrl(address);
      forall k :: |DirectionsPrefix| <= k < |r| ==> r[k] !in {'&', '=', '#', '?', '+', ' ', '/'}
  {
    var r := DirectionsUrl(address);
    var e := EncodeURIComponent(address);
    EncodedIsQuerySafe(address);
    forall k | |DirectionsPrefix| <= k < |r|
      ensures r[k] !in {'&', '=', '#', '?', '+', ' ', '/'}
    {
      assert r[k] == e[k - |DirectionsPrefix|];
    }
  }

  /** An address made only of unreserved characters appears verbatim. */
  lemma DirectionsUrlVerbatim(address: string)
    requires forall k :: 0 <= k < |address| ==> IsUnreserved(address[k])
    ensures DirectionsUrl(address) == DirectionsPrefix + address
  {
    EncodeUnreservedIdentity(address);
  }

  /** What `#map-placeholder` shows. */
  datatype Placeholder =
    | Prompt(address: string)        // icon, address and the "Carregar Mapa" button
    | LoadingView                    // "Carregando mapa..."
    | ErrorView(address: string)     // "Erro ao carregar mapa" and an "Abrir no Google Maps" link

  /** The address section below the map: the address, and a "Como Chegar"
      link to it. The directions link of this section and of the error view
      is `DirectionsUrl(address)`. */
  datatype AddressDisplay = AddressDisplay(address: string)

  class MapModule {
    /** `#google-maps` was found by `init`. */
    const hasContainer: bool
    var mapLoaded: bool
    var churchAddress: string
    var mapsUrl: string
    /** The `#map-placeholder` element, while it is in the document. */
    var placeholder: Option<Placeholder>
    /** The `src` of every iframe appended to the map container, in order. */
    var iframes: seq<string>
    var addressDisplay: Option<AddressDisplay>

    ghost predicate Valid()
      reads this
    {
      && (mapLoaded ==> placeholder.None?)
      && (!hasContainer ==> placeholder.None? && iframes == [] && addressDisplay.None?)
      && (hasContainer ==> addressDisplay == Some(AddressDisplay(churchAddress)))
      && (placeholder.Some? && placeholder.value.Prompt? ==>
            placeholder.value.address == churchAddress && iframes == [] && !mapLoaded)
      && (placeholder.Some? && placeholder.value.ErrorView? ==>
            placeholder.value.address == churchAddress)
    }

    /** `new MapModule()` and `init()`: with a container, `renderMapPlaceholder`
        shows the prompt and the address section; without one nothing happens. */
    constructor (containerFound: bool)
      ensures hasContainer == containerFound && !mapLoaded
      ensures churchAddress == DefaultAddress && mapsUrl == DefaultMapsUrl
      ensures iframes == []
      ensures placeholder == (if containerFound then Some(Prompt(DefaultAddress)) else None)
      ensures addressDisplay == (if containerFound then Some(AddressDisplay(DefaultAddress)) else None)
      ensures Valid()
    {
      hasContainer := containerFound;
      mapLoaded := false;
      churchAddress := DefaultAddress;
      mapsUrl := DefaultMapsUrl;
      iframes := [];
      if containerFound {
        placeholder := Some(Prompt(DefaultAddress));
        addressDisplay := Some(AddressDisplay(DefaultAddress));
      } else {
        placeholder := None;
        addressDisplay := None;
      }
    }

    /** `renderMapPlaceholder()` into an emptied container. */
    method Render()
      requires hasContainer && !mapLoaded
      modifies this`placeholder, this`iframes, this`addressDisplay
      ensures placeholder == Some(Prompt(churchAddress)) && iframes == []
      ensures addressDisplay == Some(AddressDisplay(churchAddress))
      ensures Valid()
    {
      placeholder := Some(Prompt(churchAddress));
      iframes := [];
      addressDisplay := Some(AddressDisplay(churchAddress));
    }

    /** `loadMap()`: nothing once the map has loaded or without a placeholder;
        otherwise the placeholder shows the loading view (its button is gone)
        and exactly one iframe for the current map URL is appended. */
    method LoadMap()
      requires Valid()
      modifies this`placeholder, this`iframes
      ensures (old(mapLoaded) || old(placeholder).None?) ==>
        placeholder == old(placeholder) && iframes == old(iframes)
      ensures !(old(mapLoaded) || old(placeholder).None?) ==>
        placeholder == Some(LoadingView) && iframes == old(iframes) + [mapsUrl]
      ensures Valid()
    {
      if mapLoaded {
        return;
      }
      if placeholder.None? {
        return;
      }
      placeholder := Some(LoadingView);
      iframes := iframes + [mapsUrl];
    }

    /** A click on the load button, which exists only while the prompt is shown. */
    method ClickLoadButton()
      requires Valid()
      modifies this`placeholder, this`iframes
      ensures old(placeholder).Some? && old(placeholder).value.Prompt? ==>
        placeholder == Some(LoadingView) && iframes == [mapsUrl]
      ensures !(old(placeholder).Some? && old(placeholder).value.Prompt?) ==>
        placeholder == old(placeholder) && iframes == old(iframes)
      ensures Valid()
    {
      if placeholder.Some? && placeholder.value.Prompt? {
        LoadMap();
      }
    }

    /** The `load` event of iframe `k`: the map is loaded and the placeholder removed. */
    method IframeLoaded(k: nat)
      requires Valid() && k < |iframes|
      modifies this`mapLoaded, this`placeholder
      ensures mapLoaded && placeholder.None?
      ensures Valid()
    {
      mapLoaded := true;
      placeholder := None;
    }

    /** The `error` event of iframe `k`: a placeholder still in the document
        shows the error view with the directions link; `mapLoaded` is untouched. */
    method IframeFailed(k: nat)
      requires Valid() && k < |iframes|
      modifies this`placeholder
      ensures old(placeholder).Some? ==> placeholder == Some(ErrorView(churchAddress))
      ensures old(placeholder).None? ==> placeholder.None?
      ensures Valid()
    {
      if placeholder.Some? {
        placeholder := Some(ErrorView(churchAddress));
      }
    }

    /** `updateAddress(newAddress, newMapUrl)`: both values are always stored;
        with a container it is emptied, `mapLoaded` is reset and the prompt
        is rendered again for the new address. */
    method UpdateAddress(newAddress: string, newMapUrl: string)
      requires Valid()
      modifies this`churchAddress, this`mapsUrl, this`mapLoaded, this`placeholder, this`iframes, this`addressDisplay
      ensures churchAddress == newAddress && mapsUrl == newMapUrl
      ensures hasContainer ==> (!mapLoaded && placeholder == Some(Prompt(newAddress)) && iframes == []
        && addressDisplay == Some(AddressDisplay(newAddress)))
      ensures !hasContainer ==> (mapLoaded == old(mapLoaded) && placeholder == old(placeholder)
        && iframes == old(iframes) && addressDisplay == old(addressDisplay))
      ensures Valid()
    {
      churchAddress := newAddress;
      mapsUrl := newMapUrl;
      if hasContainer {
        mapLoaded := false;
        Render();
      }
    }

    /** From the prompt: a click then the iframe's `load` event leave exactly
        one iframe, the map loaded, and no button to start another load. */
    method ClickThenLoad()
      requires Valid() && placeholder.Some? && placeholder.value.Prompt?
      modifies this`mapLoaded, this`placeholder, this`iframes
      ensures mapLoaded && placeholder.None? && iframes == [mapsUrl]
      ensures Valid()
    {
      ClickLoadButton();
      IframeLoaded(0);
    }
  }
}
