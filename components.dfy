/**
 * The client-side includes of assets/js/components.js. Each element with a
 * `data-include` path receives the fetched markup, or an error notice; a
 * header include then wires a second navigation toggle whose
 * `aria-expanded` follows its `open` class, and a footer include fills in
 * the year. Fetch outcomes, the elements the included markup provides and
 * the current year are inputs.
 */
module Components {
  import opened Base
  import opened Strings

  const IncludeErrorHtml := "<div class=\"small muted\">Erro ao carregar componente.</div>"
  const OpenClass := "open"

  /** The outcome of `fetch(path)` followed by `res.text()`. */
  datatype FetchOutcome =
    | Failed            // the request or the body read rejected
    | NotOk             // a response whose status is not in the 200 range
    | Body(text: string)

  /** The content of one `[data-include]` target. */
  datatype Content = Pending | Html(html: string)

  datatype Include = Include(path: string, content: Content)

  /** What the document holds when an include completes: `.nav__toggle`,
      `#nav-menu`, anchors inside `#nav-menu`, and `#year`. */
  datatype Lookups = Lookups(toggleFound: bool, listFound: bool, listHasLinks: bool, yearFound: bool)

  /** The html an include target ends up with. */
  function IncludedHtml(outcome: FetchOutcome): string {
    match outcome
    case Body(text) => text
    case _ => IncludeErrorHtml
  }

  /** Which initialisers a successful include runs: `initNav` for a path
      containing "header", `setYear` for one containing "footer", both for
      a path containing both. */
  datatype Followups = Followups(initNav: bool, setYear: bool)

  function FollowupsFor(path: string, outcome: FetchOutcome): (r: Followups)
    ensures r.initNav <==> outcome.Body? && Includes(path, "header")
    ensures r.setYear <==> outcome.Body? && Includes(path, "footer")
  {
    if outcome.Body? then Followups(Includes(path, "header"), Includes(path, "footer"))
    else Followups(false, false)
  }

  /** A path naming both parts runs both initialisers. */
  lemma HeaderFooterPath(prefix: string, outcome: FetchOutcome)
    requires outcome.Body?
    ensures FollowupsFor(prefix + "header-footer.html", outcome) == Followups(true, true)
  {
    var p := prefix + "header-footer.html";
    assert OccursAt(p, "header", |prefix|) by {
      assert p[|prefix|..|prefix| + 6] == "header";
    }
    assert OccursAt(p, "footer", |prefix| + 7) by {
      assert p[|prefix| + 7..|prefix| + 13] == "footer";
    }
  }

  class ComponentsPage {
    var includes: seq<Include>
    /** Click listeners `initNav` has put on the toggle. */
    var toggleBindings: nat
    /** `initNav` has put click listeners on the menu's links. */
    var linksBound: bool
    /** `#nav-menu` has the `open` class. */
    var menuOpen: bool
    /** The toggle's `aria-expanded` once the module has written it. */
    var ariaExpanded: Option<string>
    /** The text of `#year` once `setYear` has written it. */
    var yearText: Option<string>

    /** `aria-expanded`, once written, says whether the menu is open. */
    ghost predicate Mirrored()
      reads this
    {
      ariaExpanded.Some? ==> ariaExpanded.value == BoolString(menuOpen)
    }

    /** `DOMContentLoaded`: every `[data-include]` target starts a fetch. */
    constructor (paths: seq<string>)
      ensures |includes| == |paths|
      ensures forall k :: 0 <= k < |paths| ==> includes[k] == Include(paths[k], Pending)
      ensures toggleBindings == 0 && !linksBound && !menuOpen && ariaExpanded == None && yearText == None
      ensures Mirrored()
    {
      includes := seq(|paths|, k requires 0 <= k < |paths| => Include(paths[k], Pending));
      toggleBindings := 0;
      linksBound := false;
      menuOpen := false;
      ariaExpanded := None;
      yearText := None;
    }

    /** `initNav()`: without the toggle or the menu nothing is bound. */
    method InitNav(page: Lookups)
      modifies this`toggleBindings, this`linksBound
      ensures page.toggleFound && page.listFound ==>
        toggleBindings == old(toggleBindings) + 1 && linksBound == (old(linksBound) || page.listHasLinks)
      ensures !(page.toggleFound && page.listFound) ==>
        toggleBindings == old(toggleBindings) && linksBound == old(linksBound)
    {
      if !page.toggleFound || !page.listFound {
        return;
      }
      toggleBindings := toggleBindings + 1;
      if page.listHasLinks {
        linksBound := true;
      }
    }

    /** `setYear()`: the year is written only when `#year` exists. */
    method SetYear(page: Lookups, year: nat)
      modifies this`yearText
      ensures yearText == (if page.yearFound then Some(NatToString(year)) else old(yearText))
    {
      if page.yearFound {
        yearText := Some(NatToString(year));
      }
    }

    /** Include `i` completes: its target receives the fetched markup or the
        error notice, and a successful header or footer include runs its
        initialiser. */
    method SettleInclude(i: nat, outcome: FetchOutcome, page: Lookups, year: nat)
      requires i < |includes| && includes[i].content == Pending
      modifies this`includes, this`toggleBindings, this`linksBound, this`yearText
      ensures |includes| == |old(includes)| && includes[i].path == old(includes)[i].path
      ensures outcome.Body? ==> includes[i].content == Html(outcome.text)
      ensures !outcome.Body? ==> includes[i].content == Html(IncludeErrorHtml)
      ensures forall k :: 0 <= k < |includes| && k != i ==> includes[k] == old(includes)[k]
      ensures var f := FollowupsFor(old(includes)[i].path, outcome);
        && toggleBindings == old(toggleBindings) + (if f.initNav && page.toggleFound && page.listFound then 1 else 0)
        && linksBound == (old(linksBound) || (f.initNav && page.toggleFound && page.listFound && page.listHasLinks))
        && yearText == (if f.setYear && page.yearFound then Some(NatToString(year)) else old(yearText))
    {
      var path := includes[i].path;
      includes := includes[i := Include(path, Html(IncludedHtml(outcome)))];
      if outcome.Body? {
        if Includes(path, "header") {
          InitNav(page);
        }
        if Includes(path, "footer") {
          SetYear(page, year);
        }
      }
    }

    /** A click on the toggle runs each bound listener in turn; each flips
        `open` and writes `aria-expanded` from the new state. So the class
        flips once per binding, and `aria-expanded` ends up mirroring it. */
    method ToggleClick()
      requires Mirrored()
      modifies this`menuOpen, this`ariaExpanded
      ensures menuOpen == (if toggleBindings % 2 == 1 then !old(menuOpen) else old(menuOpen))
      ensures toggleBindings > 0 ==> ariaExpanded == Some(BoolString(menuOpen))
      ensures toggleBindings == 0 ==> ariaExpanded == old(ariaExpanded)
      ensures Mirrored()
    {
      var b := 0;
      while b < toggleBindings
        invariant 0 <= b <= toggleBindings
        invariant menuOpen == (if b % 2 == 1 then !old(menuOpen) else old(menuOpen))
        invariant b > 0 ==> ariaExpanded == Some(BoolString(menuOpen))
        invariant b == 0 ==> ariaExpanded == old(ariaExpanded)
        invariant Mirrored()
      {
        menuOpen := !menuOpen;
        ariaExpanded := Some(BoolString(menuOpen));
        b := b + 1;
      }
    }

    /** A click on a menu link closes the menu and writes "false". */
    method LinkClick()
      requires Mirrored()
      modifies this`menuOpen, this`ariaExpanded
      ensures linksBound ==> !menuOpen && ariaExpanded == Some("false")
      ensures !linksBound ==> menuOpen == old(menuOpen) && ariaExpanded == old(ariaExpanded)
      ensures Mirrored()
    {
      if linksBound {
        menuOpen := false;
        ariaExpanded := Some("false");
      }
    }
  }
}
