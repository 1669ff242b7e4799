/**
 * The global behaviour of assets/js/main.js: the scroll-to-top button,
 * smooth scrolling to in-page anchors, the keyboard-navigation marker on the
 * body and the module registry. Events are the parameters of the handlers.
 */
module App {
  import opened Base
  import opened Strings

  const ScrollThreshold: real := 300.0
  const KeyboardClass := "keyboard-navigation"

  /** The scroll-to-top button is shown exactly when the page is scrolled
      past the threshold. */
  predicate ScrollButtonVisible(pageYOffset: real) {
    pageYOffset > ScrollThreshold
  }

  // ---------------------------------------------------------------------
  // Smooth scrolling

  /** One element on the path from a click target up to the root, nearest
      first: whether it is an anchor and its `href` attribute, if any. */
  datatype PathElement = PathElement(isAnchor: bool, href: Option<string>)

  /** The element matches `a[href^="#"]`. */
  predicate IsFragmentAnchor(e: PathElement) {
    e.isAnchor && e.href.Some? && StartsWith(e.href.value, "#")
  }

  /** `e.target.closest('a[href^="#"]')`: the position of the nearest
      fragment anchor on the path. */
  function ClosestFragmentAnchor(path: seq<PathElement>): (r: Option<nat>)
    ensures r.Some? ==>
      r.value < |path| && IsFragmentAnchor(path[r.value]) && forall k :: 0 <= k < r.value ==> !IsFragmentAnchor(path[k])
    ensures r.None? ==> forall k :: 0 <= k < |path| ==> !IsFragmentAnchor(path[k])
    decreases |path|
  {
    if path == [] then None
    else if IsFragmentAnchor(path[0]) then Some(0)
    else match ClosestFragmentAnchor(path[1..])
      case None => None
      case Some(k) => Some(k + 1)
  }

  /** `document.getElementById(id)` finds an element; no element has the empty id. */
  predicate HasElementWithId(ids: set<string>, id: string) {
    id != "" && id in ids
  }

  /** What the document click listener does. */
  datatype ClickAction =
    | Ignored                          // the default action proceeds
    | ScrollTo(targetId: string, href: string)  // preventDefault, scrollIntoView and pushState(href)

  function ClickDecision(path: seq<PathElement>, ids: set<string>): ClickAction {
    match ClosestFragmentAnchor(path)
    case None => Ignored
    case Some(k) =>
      var href := path[k].href.value;
      if href != "#" && HasElementWithId(ids, href[1..]) then ScrollTo(href[1..], href) else Ignored
  }

  /** `path[k]` is the element `closest('a[href^="#"]')` returns. */
  predicate NearestFragmentAnchorAt(path: seq<PathElement>, k: nat) {
    k < |path| && IsFragmentAnchor(path[k]) && forall j :: 0 <= j < k ==> !IsFragmentAnchor(path[j])
  }

  /** The nearest fragment anchor is unique, and it is the one found. */
  lemma ClosestIsNearest(path: seq<PathElement>, k: nat)
    requires NearestFragmentAnchorAt(path, k)
    ensures ClosestFragmentAnchor(path) == Some(k)
  {
  }

  /** A click is taken over exactly when its nearest fragment anchor has an
      `href` other than "#" naming an element of the page; the target id is
      the `href` without its `#`, and the pushed URL is that `href`. */
  lemma ClickDecisionMeaning(path: seq<PathElement>, ids: set<string>)
    ensures var r := ClickDecision(path, ids);
      && (r.ScrollTo? <==>
            exists k: nat :: NearestFragmentAnchorAt(path, k)
              && path[k].href.value != "#" && HasElementWithId(ids, path[k].href.value[1..]))
      && (r.ScrollTo? ==> r.href == "#" + r.targetId && HasElementWithId(ids, r.targetId))
  {
    var r := ClickDecision(path, ids);
    var c := ClosestFragmentAnchor(path);
    if c.Some? {
      var k := c.value;
      var href := path[k].href.value;
      assert href == [href[0]] + href[1..];
      assert NearestFragmentAnchorAt(path, k);
    }
    forall k: nat | NearestFragmentAnchorAt(path, k)
      ensures c == Some(k)
    {
      ClosestIsNearest(path, k);
    }
  }

  /** The bare "#" link is never taken over, whatever the page holds. */
  lemma BareHashIgnored(ids: set<string>, rest: seq<PathElement>)
    ensures ClickDecision([PathElement(true, Some("#"))] + rest, ids) == Ignored
  {
    var path := [PathElement(true, Some("#"))] + rest;
    assert StartsWith("#", "#");
    assert IsFragmentAnchor(path[0]);
  }

  // ---------------------------------------------------------------------
  // The application object

  class App<M> {
    /** `document.querySelector('main')` finds an element. */
    const hasMain: bool
    /** That element can take focus (it has a `tabindex`); `focus()` on an
        element that cannot moves no focus. */
    const mainFocusable: bool
    /** The ids of the page's elements. */
    const ids: set<string>
    var modules: map<string, M>
    var bodyClasses: set<string>
    /** The `opacity` and `visibility` styles of the scroll-to-top button. */
    var scrollOpacity: string
    var scrollVisibility: string
    /** `main` has received keyboard focus. */
    var mainFocused: bool
    /** The URLs pushed onto the session history, in order. */
    var pushed: seq<string>

    ghost predicate Valid()
      reads this
    {
      (scrollOpacity == "1" <==> scrollVisibility == "visible")
      && (scrollOpacity == "1" || scrollOpacity == "0")
      && (scrollVisibility == "visible" || scrollVisibility == "hidden")
    }

    /** `new App()` once the document is ready: the listeners are bound and
        the scroll-to-top button is added hidden. */
    constructor (main: bool, focusable: bool, pageIds: set<string>, body0: set<string>)
      ensures hasMain == main && mainFocusable == focusable && ids == pageIds && bodyClasses == body0
      ensures modules == map[] && !mainFocused && pushed == []
      ensures scrollOpacity == "0" && scrollVisibility == "hidden"
      ensures Valid()
    {
      hasMain := main;
      mainFocusable := focusable;
      ids := pageIds;
      modules := map[];
      bodyClasses := body0;
      scrollOpacity := "0";
      scrollVisibility := "hidden";
      mainFocused := false;
      pushed := [];
    }

    /** The window `scroll` listener. */
    method OnScroll(pageYOffset: real)
      requires Valid()
      modifies this`scrollOpacity, this`scrollVisibility
      ensures scrollVisibility == "visible" <==> ScrollButtonVisible(pageYOffset)
      ensures scrollOpacity == (if ScrollButtonVisible(pageYOffset) then "1" else "0")
      ensures Valid()
    {
      if pageYOffset > 300.0 {
        scrollOpacity := "1";
        scrollVisibility := "visible";
      } else {
        scrollOpacity := "0";
        scrollVisibility := "hidden";
      }
    }

    /** The document `click` listener of `initSmoothScrolling`. */
    method OnClick(path: seq<PathElement>) returns (prevented: bool)
      modifies this`pushed
      ensures var d := ClickDecision(path, ids);
        && (prevented <==> d.ScrollTo?)
        && pushed == old(pushed) + (if d.ScrollTo? then [d.href] else [])
    {
      var d := ClickDecision(path, ids);
      if d.ScrollTo? {
        pushed := pushed + [d.href];
        prevented := true;
      } else {
        prevented := false;
      }
    }

    /** Both document `keydown` listeners: Ctrl or Meta with "/" prevents the
        default and calls `focus()` on `main` when there is one, which moves
        focus only when `main` is focusable; Tab adds the keyboard-navigation
        class to the body. */
    method OnKeydown(key: string, ctrlKey: bool, metaKey: bool) returns (prevented: bool)
      modifies this`mainFocused, this`bodyClasses
      ensures prevented <==> (ctrlKey || metaKey) && key == "/"
      ensures mainFocused == (old(mainFocused) || (prevented && hasMain && mainFocusable))
      ensures bodyClasses == (if key == "Tab" then old(bodyClasses) + {KeyboardClass} else old(bodyClasses))
    {
      prevented := false;
      if (ctrlKey || metaKey) && key == "/" {
        prevented := true;
        if hasMain && mainFocusable {
          mainFocused := true;
        }
      }
      if key == "Tab" {
        bodyClasses := bodyClasses + {KeyboardClass};
      }
    }

    /** The document `mousedown` listener. */
    method OnMousedown()
      modifies this`bodyClasses
      ensures bodyClasses == old(bodyClasses) - {KeyboardClass}
    {
      bodyClasses := bodyClasses - {KeyboardClass};
    }

    /** `getModule(name)`: `undefined` (`None`) for a name never registered. */
    function GetModule(name: string): (r: Option<M>)
      reads this
      ensures r.Some? <==> name in modules
    {
      if name in modules then Some(modules[name]) else None
    }

    /** `registerModule(name, moduleInstance)`: `getModule(name)` now yields
        the instance and every other name keeps its module. */
    method RegisterModule(name: string, moduleInstance: M)
      modifies this`modules
      ensures GetModule(name) == Some(moduleInstance)
      ensures forall other :: other != name ==> GetModule(other) == old(GetModule(other))
      ensures modules.Keys == old(modules.Keys) + {name}
    {
      modules := modules[name := moduleInstance];
    }
  }
}
