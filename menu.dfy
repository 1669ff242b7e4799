/**
 * The mobile navigation menu of assets/js/modules/menu.js. The module keeps
 * `isOpen` mirrored in the toggle's `aria-expanded`, the menu's `active`
 * class and the body's `overflow` style, and closes the menu on Escape, on an
 * outside click, on a resize to desktop width and on a link click.
 */
module Menu {
  import opened Base
  import opened Strings

  /** A `.nav-link` anchor: its resolved `href`, the `pathname` of that URL
      (`new URL(link.href).pathname`) and its class list. */
  datatype NavLink = NavLink(href: string, pathname: string, classes: set<string>)

  /** Where keyboard focus was last moved by the module. */
  datatype Focus = Elsewhere | ToggleButton | FirstMenuLink

  /** The target of a click on the menu. */
  datatype ClickTarget =
    | LinkClicked(index: nat)   // the `.nav-link` at this position
    | OtherAnchor               // an anchor that is not a `.nav-link`
    | NotAnchor                 // anything that does not match `a`

  const ActiveClass := "active"
  const MenuId := "main-navigation"

  // ---------------------------------------------------------------------
  // Active links

  /** The path test of `setActiveLink`: the link points at the current page,
      or one side is the site root and the other an `index.html` URL. */
  predicate IsActivePath(href: string, linkPath: string, currentPath: string) {
    linkPath == currentPath
    || (currentPath == "/" && Includes(href, "index.html"))
    || (Includes(currentPath, "index.html") && linkPath == "/")
  }

  function SetActive(link: NavLink, on: bool): NavLink {
    link.(classes := if on then link.classes + {ActiveClass} else link.classes - {ActiveClass})
  }

  /** `setActiveLink` over every `.nav-link`: each link gains `active` when
      the path test holds for it and loses it otherwise; nothing else changes. */
  function MarkActive(links: seq<NavLink>, currentPath: string): (r: seq<NavLink>)
    ensures |r| == |links|
    ensures forall k :: 0 <= k < |r| ==>
      r[k].href == links[k].href && r[k].pathname == links[k].pathname
      && r[k].classes - {ActiveClass} == links[k].classes - {ActiveClass}
      && (ActiveClass in r[k].classes <==> IsActivePath(links[k].href, links[k].pathname, currentPath))
  {
    seq(|links|, k requires 0 <= k < |links| =>
      SetActive(links[k], IsActivePath(links[k].href, links[k].pathname, currentPath)))
  }

  /** On the site root a link to `index.html` is active, and on an
      `index.html` page the link to the root is. */
  lemma HomeLinksActive(href: string, currentPath: string)
    ensures IsActivePath(href + "index.html", "/index.html", "/")
    ensures Includes(currentPath, "index.html") ==> IsActivePath(href, "/", currentPath)
    ensures IsActivePath(href, currentPath, currentPath)
  {
    var s := href + "index.html";
    assert s[|s| - |"index.html"|..] == "index.html";
    IncludesSuffix(s, "index.html");
  }

  /** A link whose path differs from the current one is active only through
      the root/`index.html` rule. */
  lemma OtherPathsInactive(href: string, linkPath: string, currentPath: string)
    requires linkPath != currentPath && !Includes(href, "index.html") && linkPath != "/"
    ensures !IsActivePath(href, linkPath, currentPath)
  {
  }

  /** `updateActiveLink(clickedLink)` with every `.nav-link`: `active` is
      removed from all of them and then added to the clicked one (`clicked`
      is `None` when the clicked anchor is not a `.nav-link`). */
  function ActivateOnly(links: seq<NavLink>, clicked: Option<nat>): (r: seq<NavLink>)
    ensures |r| == |links|
    ensures forall k :: 0 <= k < |r| ==>
      r[k].href == links[k].href && r[k].pathname == links[k].pathname
      && r[k].classes - {ActiveClass} == links[k].classes - {ActiveClass}
      && (ActiveClass in r[k].classes <==> clicked == Some(k))
  {
    seq(|links|, k requires 0 <= k < |links| => SetActive(links[k], clicked == Some(k)))
  }

  /** After a click on a `.nav-link`, it is the sole active link. */
  lemma ClickedLinkSoleActive(links: seq<NavLink>, k: nat)
    requires k < |links|
    ensures var r := ActivateOnly(links, Some(k));
      (set j | 0 <= j < |r| && ActiveClass in r[j].classes) == {k}
  {
    var r := ActivateOnly(links, Some(k));
    var s := set j | 0 <= j < |r| && ActiveClass in r[j].classes;
    assert k in s;
    forall j | j in s ensures j == k {
    }
  }

  // As written, both lookups of the `.nav-link` anchors use `qs`, which
  // yields the first match or null; neither has a `forEach` method.

  /** `qs('.nav-link').forEach(…)` exactly as written: a TypeError whatever
      the document holds. */
  function ForEachOnFirstMatch(links: seq<NavLink>): (r: Result<seq<NavLink>, JsError>)
    ensures r.Err?
  {
    if links == [] then Err(TypeError("Cannot read properties of null (reading 'forEach')"))
    else Err(TypeError("navLinks.forEach is not a function"))
  }

  /** `setActiveLink` as written. */
  function SetActiveLinkAsWritten(links: seq<NavLink>, currentPath: string): Result<seq<NavLink>, JsError> {
    match ForEachOnFirstMatch(links)
    case Ok(all) => Ok(MarkActive(all, currentPath))
    case Err(e) => Err(e)
  }

  /** `updateActiveLink` as written. */
  function UpdateActiveLinkAsWritten(links: seq<NavLink>, clicked: Option<nat>): Result<seq<NavLink>, JsError> {
    match ForEachOnFirstMatch(links)
    case Ok(all) => Ok(ActivateOnly(all, clicked))
    case Err(e) => Err(e)
  }

  /** The page `/sobre.html` with its own link: the intended behaviour marks
      the link active, the code as written throws before marking anything,
      and a click on that link likewise throws instead of activating it. */
  lemma ActiveLinkLookupThrows()
    ensures var links := [NavLink("https://example.org/sobre.html", "/sobre.html", {"nav-link"})];
      && SetActiveLinkAsWritten(links, "/sobre.html").Err?
      && ActiveClass in MarkActive(links, "/sobre.html")[0].classes
      && UpdateActiveLinkAsWritten(links, Some(0)).Err?
      && ActiveClass in ActivateOnly(links, Some(0))[0].classes
  {
  }

  // ---------------------------------------------------------------------
  // The module

  class MenuModule {
    /** Both `.nav-toggle` and `.nav-list` were found. */
    const bound: bool
    /** The menu's parent holds an `.nav-list a` anchor, so the link-click
        listener is bound and `openMenu` has a first link to focus. */
    const hasMenuLinks: bool
    /** `window.location.pathname`. */
    const currentPath: string
    var isOpen: bool
    var menuClasses: set<string>
    var toggleAttributes: map<string, string>
    var menuAttributes: map<string, string>
    /** `document.body.style.overflow`. */
    var bodyOverflow: string
    var focus: Focus
    var links: seq<NavLink>

    /** The toggle's `aria-expanded` says whether the menu is open. */
    ghost predicate AriaMirrored()
      reads this
    {
      bound ==> ("aria-expanded" in toggleAttributes
        && toggleAttributes["aria-expanded"] == (if isOpen then "true" else "false"))
    }

    /** Every view of the menu state agrees with `isOpen`. */
    ghost predicate Mirrored()
      reads this
    {
      AriaMirrored() && (ActiveClass in menuClasses <==> isOpen)
      && bodyOverflow == (if isOpen then "hidden" else "")
    }

    /** `new MenuModule()` and `init()`: without the toggle or the menu
        nothing is bound and nothing is set; otherwise `setInitialState`
        marks the menu closed in ARIA, links toggle and menu, and marks the
        active links for the current page. */
    constructor (toggleFound: bool, menuFound: bool, menuLinks: bool, path: string,
                 classes0: set<string>, toggle0: map<string, string>, menu0: map<string, string>,
                 overflow0: string, links0: seq<NavLink>)
      ensures bound == (toggleFound && menuFound) && hasMenuLinks == menuLinks && currentPath == path
      ensures !isOpen && menuClasses == classes0 && bodyOverflow == overflow0 && focus == Elsewhere
      ensures !bound ==> toggleAttributes == toggle0 && menuAttributes == menu0 && links == links0
      ensures bound ==>
        toggleAttributes == toggle0["aria-expanded" := "false"]["aria-controls" := MenuId]
        && menuAttributes == menu0["id" := MenuId]
        && links == MarkActive(links0, path)
      ensures AriaMirrored()
    {
      bound := toggleFound && menuFound;
      hasMenuLinks := menuLinks;
      currentPath := path;
      isOpen := false;
      menuClasses := classes0;
      bodyOverflow := overflow0;
      focus := Elsewhere;
      if toggleFound && menuFound {
        toggleAttributes := toggle0["aria-expanded" := "false"]["aria-controls" := MenuId];
        menuAttributes := menu0["id" := MenuId];
        links := MarkActive(links0, path);
      } else {
        toggleAttributes := toggle0;
        menuAttributes := menu0;
        links := links0;
      }
    }

    /** `openMenu()`. */
    method Open()
      requires bound
      modifies this`isOpen, this`menuClasses, this`toggleAttributes, this`bodyOverflow, this`focus
      ensures isOpen && menuClasses == old(menuClasses) + {ActiveClass}
      ensures toggleAttributes == old(toggleAttributes)["aria-expanded" := "true"]
      ensures bodyOverflow == "hidden"
      ensures focus == (if hasMenuLinks then FirstMenuLink else old(focus))
      ensures Mirrored()
    {
      isOpen := true;
      menuClasses := menuClasses + {ActiveClass};
      toggleAttributes := toggleAttributes["aria-expanded" := "true"];
      if hasMenuLinks {
        focus := FirstMenuLink;
      }
      bodyOverflow := "hidden";
    }

    /** `closeMenu()`. */
    method Close()
      requires bound
      modifies this`isOpen, this`menuClasses, this`toggleAttributes, this`bodyOverflow
      ensures !isOpen && menuClasses == old(menuClasses) - {ActiveClass}
      ensures toggleAttributes == old(toggleAttributes)["aria-expanded" := "false"]
      ensures bodyOverflow == ""
      ensures Mirrored()
    {
      isOpen := false;
      menuClasses := menuClasses - {ActiveClass};
      toggleAttributes := toggleAttributes["aria-expanded" := "false"];
      bodyOverflow := "";
    }

    /** A click on the toggle: `toggleMenu()` flips `isOpen`. */
    method OnToggleClick()
      modifies this`isOpen, this`menuClasses, this`toggleAttributes, this`bodyOverflow, this`focus
      ensures !bound ==> (isOpen == old(isOpen) && menuClasses == old(menuClasses)
        && toggleAttributes == old(toggleAttributes) && bodyOverflow == old(bodyOverflow) && focus == old(focus))
      ensures bound ==> isOpen == !old(isOpen) && Mirrored()
      ensures bound ==> toggleAttributes == old(toggleAttributes)["aria-expanded" := if isOpen then "true" else "false"]
      ensures bound ==> menuClasses == (if isOpen then old(menuClasses) + {ActiveClass} else old(menuClasses) - {ActiveClass})
      ensures bound ==> focus == (if isOpen && hasMenuLinks then FirstMenuLink else old(focus))
    {
      if bound {
        if isOpen {
          Close();
        } else {
          Open();
        }
      }
    }

    /** A `keydown` on the document: Escape closes an open menu and returns
        focus to the toggle; anything else changes nothing. */
    method OnKeydown(key: string)
      modifies this`isOpen, this`menuClasses, this`toggleAttributes, this`bodyOverflow, this`focus
      ensures var acts := bound && key == "Escape" && old(isOpen);
        && (acts ==> (!isOpen && focus == ToggleButton && Mirrored()
              && menuClasses == old(menuClasses) - {ActiveClass}
              && toggleAttributes == old(toggleAttributes)["aria-expanded" := "false"]))
        && (!acts ==> (isOpen == old(isOpen) && menuClasses == old(menuClasses)
              && toggleAttributes == old(toggleAttributes) && bodyOverflow == old(bodyOverflow) && focus == old(focus)))
    {
      if bound && key == "Escape" && isOpen {
        Close();
        focus := ToggleButton;
      }
    }

    /** A click anywhere in the document: it closes an open menu when its
        target is inside neither `.nav` nor `.nav-toggle`. */
    method OnDocumentClick(insideNav: bool, insideToggle: bool)
      modifies this`isOpen, this`menuClasses, this`toggleAttributes, this`bodyOverflow
      ensures var acts := bound && old(isOpen) && !insideNav && !insideToggle;
        && (acts ==> (!isOpen && Mirrored() && menuClasses == old(menuClasses) - {ActiveClass}
              && toggleAttributes == old(toggleAttributes)["aria-expanded" := "false"]))
        && (!acts ==> (isOpen == old(isOpen) && menuClasses == old(menuClasses)
              && toggleAttributes == old(toggleAttributes) && bodyOverflow == old(bodyOverflow)))
    {
      if bound && isOpen && !insideNav && !insideToggle {
        Close();
      }
    }

    /** A window `resize`: the menu closes when it is open and the viewport
        is wider than 767 pixels. */
    method OnResize(innerWidth: int)
      modifies this`isOpen, this`menuClasses, this`toggleAttributes, this`bodyOverflow
      ensures var acts := bound && innerWidth > 767 && old(isOpen);
        && (acts ==> (!isOpen && Mirrored() && menuClasses == old(menuClasses) - {ActiveClass}
              && toggleAttributes == old(toggleAttributes)["aria-expanded" := "false"]))
        && (!acts ==> (isOpen == old(isOpen) && menuClasses == old(menuClasses)
              && toggleAttributes == old(toggleAttributes) && bodyOverflow == old(bodyOverflow)))
    {
      if bound && innerWidth > 767 && isOpen {
        Close();
      }
    }

    /** A click inside the menu, seen by the listener `bindEvents` adds when
        the menu has links: on an anchor it closes an open menu and makes the
        clicked `.nav-link` the sole active one. */
    method OnMenuClick(target: ClickTarget)
      modifies this`isOpen, this`menuClasses, this`toggleAttributes, this`bodyOverflow, this`links
      ensures var acts := bound && hasMenuLinks && !target.NotAnchor?;
        && (acts ==> (!isOpen && links == ActivateOnly(old(links),
              if target.LinkClicked? && target.index < |old(links)| then Some(target.index) else None)))
        && (acts && old(isOpen) ==> (Mirrored() && menuClasses == old(menuClasses) - {ActiveClass}
              && toggleAttributes == old(toggleAttributes)["aria-expanded" := "false"]))
        && (!(acts && old(isOpen)) ==> (menuClasses == old(menuClasses)
              && toggleAttributes == old(toggleAttributes) && bodyOverflow == old(bodyOverflow)))
        && (!acts ==> isOpen == old(isOpen) && links == old(links))
    {
      if bound && hasMenuLinks && !target.NotAnchor? {
        if isOpen {
          Close();
        }
        var clicked := if target.LinkClicked? && target.index < |links| then Some(target.index) else None;
        links := ActivateOnly(links, clicked);
      }
    }

    /** The link-click listener exactly as written: an open menu is closed,
        and then `updateActiveLink` throws at `qs('.nav-link').forEach`, so
        no link changes. */
    method OnMenuClickAsWritten(target: ClickTarget) returns (thrown: Option<JsError>)
      modifies this`isOpen, this`menuClasses, this`toggleAttributes, this`bodyOverflow
      ensures var acts := bound && hasMenuLinks && !target.NotAnchor?;
        && (acts <==> thrown.Some?)
        && (acts ==> !isOpen)
        && (acts && old(isOpen) ==> (Mirrored() && menuClasses == old(menuClasses) - {ActiveClass}
              && toggleAttributes == old(toggleAttributes)["aria-expanded" := "false"]))
        && (!(acts && old(isOpen)) ==> (isOpen == old(isOpen) && menuClasses == old(menuClasses)
              && toggleAttributes == old(toggleAttributes) && bodyOverflow == old(bodyOverflow)))
    {
      thrown := None;
      if bound && hasMenuLinks && !target.NotAnchor? {
        if isOpen {
          Close();
        }
        var clicked := if target.LinkClicked? && target.index < |links| then Some(target.index) else None;
        thrown := Some(UpdateActiveLinkAsWritten(links, clicked).error);
      }
    }

    /** Opening and then closing the menu restores the state `setInitialState`
        leaves: `aria-expanded` "false", no `active` class, body overflow "". */
    method OpenThenClose()
      requires bound && !isOpen && AriaMirrored()
      modifies this`isOpen, this`menuClasses, this`toggleAttributes, this`bodyOverflow, this`focus
      ensures !isOpen && Mirrored()
      ensures toggleAttributes == old(toggleAttributes)
      ensures menuClasses == old(menuClasses) - {ActiveClass}
      ensures bodyOverflow == ""
    {
      OnToggleClick();
      OnToggleClick();
    }
  }
}
