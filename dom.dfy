/**
 * The DOM helpers of assets/js/utils/dom.js: the class-list helpers, the
 * attribute and child dispatch of `create`, and the idempotent `loadScript`.
 * An element is an object with a class list, content attributes, assigned
 * properties and a child list; a selector argument is represented by the
 * element it found, or `null` when it matched nothing.
 */
module Dom {
  import opened Base
  import opened Strings

  /** A child node: a text node or an element. */
  datatype Node = TextNode(data: string) | ElementNode(element: Element)

  class Element {
    const tagName: string
    /** The property names the element has (`key in element`). */
    const knownProperties: set<string>
    var classList: set<string>
    var attributes: map<string, string>
    var properties: map<string, string>
    var children: seq<Node>

    /** `document.createElement(tag)`. */
    constructor (tag: string, props: set<string>)
      ensures tagName == tag && knownProperties == props
      ensures classList == {} && attributes == map[] && properties == map[] && children == []
    {
      tagName := tag;
      knownProperties := props;
      classList := {};
      attributes := map[];
      properties := map[];
      children := [];
    }
  }

  // ---------------------------------------------------------------------
  // Class tokens

  /** The ASCII white space that separates class names. */
  predicate IsAsciiSpace(c: char) {
    c == '\t' || c == '\n' || c == '\U{000C}' || c == '\r' || c == ' '
  }

  /** A class name: non-empty, without ASCII white space. */
  predicate IsClassToken(t: string) {
    t != [] && forall k :: 0 <= k < |t| ==> !IsAsciiSpace(t[k])
  }

  /** Length of the leading run of non-space characters. */
  function TokenLength(s: string): (n: nat)
    ensures n <= |s|
    ensures forall k :: 0 <= k < n ==> !IsAsciiSpace(s[k])
    ensures n < |s| ==> IsAsciiSpace(s[n])
  {
    if s == [] || IsAsciiSpace(s[0]) then 0 else 1 + TokenLength(s[1..])
  }

  /** The class list that assigning `className = s` produces. */
  function ClassTokens(s: string): (r: set<string>)
    ensures forall t :: t in r ==> IsClassToken(t)
    decreases |s|
  {
    if s == [] then {}
    else if IsAsciiSpace(s[0]) then ClassTokens(s[1..])
    else
      var n := TokenLength(s);
      {s[..n]} + ClassTokens(s[n..])
  }

  /** A single class name is parsed back to itself. */
  lemma SingleClassToken(t: string)
    requires IsClassToken(t)
    ensures ClassTokens(t) == {t}
  {
    var n := TokenLength(t);
    assert n == |t|;
    assert t[..n] == t && t[n..] == [];
  }

  /** Class names separated by one space are parsed to both names. */
  lemma TwoClassTokens(a: string, b: string)
    requires IsClassToken(a) && IsClassToken(b)
    ensures ClassTokens(a + " " + b) == {a, b}
  {
    var s := a + " " + b;
    var n := TokenLength(s);
    assert forall k :: 0 <= k < |a| ==> s[k] == a[k];
    assert s[|a|] == ' ';
    assert n == |a|;
    assert s[..n] == a;
    assert s[n..] == " " + b;
    assert (" " + b)[1..] == b;
    SingleClassToken(b);
  }

  /** Class names joined with single spaces, as a `className` literal such
      as `'card reel-card'` writes them. */
  function JoinWithSpaces(ts: seq<string>): string
    decreases |ts|
  {
    if ts == [] then "" else if |ts| == 1 then ts[0] else ts[0] + " " + JoinWithSpaces(ts[1..])
  }

  /** A class name followed by a space is split off as one token. */
  lemma LeadingClassToken(t: string, rest: string)
    requires IsClassToken(t)
    ensures ClassTokens(t + " " + rest) == {t} + ClassTokens(rest)
  {
    var s := t + " " + rest;
    var n := TokenLength(s);
    assert forall k :: 0 <= k < |t| ==> s[k] == t[k];
    assert s[|t|] == ' ';
    assert n == |t|;
    assert s[..n] == t;
    assert s[n..] == " " + rest;
    assert (" " + rest)[1..] == rest;
  }

  /** Assigning space-separated class names gives exactly those names. */
  lemma {:induction false} JoinedClassTokens(ts: seq<string>)
    requires forall k :: 0 <= k < |ts| ==> IsClassToken(ts[k])
    ensures ClassTokens(JoinWithSpaces(ts)) == set t | t in ts
    decreases |ts|
  {
    if |ts| == 1 {
      SingleClassToken(ts[0]);
      assert (set t | t in ts) == {ts[0]};
    } else if |ts| > 1 {
      JoinedClassTokens(ts[1..]);
      LeadingClassToken(ts[0], JoinWithSpaces(ts[1..]));
      assert (set t | t in ts) == {ts[0]} + set t | t in ts[1..];
    }
  }

  // ---------------------------------------------------------------------
  // Class helpers

  /** `hasClass(element, className)`: membership, false without a target. */
  predicate HasClass(target: Element?, name: string)
    reads target
  {
    target != null && name in target.classList
  }

  /** `addClass(element, className)`: set insertion; no-op without a target. */
  method AddClass(target: Element?, name: string)
    modifies target
    ensures target != null ==> target.classList == old(target.classList) + {name}
    ensures target != null ==> HasClass(target, name)
    ensures forall other :: other != name ==> (HasClass(target, other) <==> old(HasClass(target, other)))
    ensures target != null ==> (target.attributes == old(target.attributes)
      && target.properties == old(target.properties) && target.children == old(target.children))
  {
    if target != null {
      target.classList := target.classList + {name};
    }
  }

  /** `removeClass(element, className)`: set removal; no-op without a target. */
  method RemoveClass(target: Element?, name: string)
    modifies target
    ensures target != null ==> target.classList == old(target.classList) - {name}
    ensures !HasClass(target, name)
    ensures forall other :: other != name ==> (HasClass(target, other) <==> old(HasClass(target, other)))
    ensures target != null ==> (target.attributes == old(target.attributes)
      && target.properties == old(target.properties) && target.children == old(target.children))
  {
    if target != null {
      target.classList := target.classList - {name};
    }
  }

  /** `toggleClass(element, className, force)`: with `force` the class is
      present exactly when `force` is true, without it membership flips; the
      result is whether the class is now present, and absent (`undefined`)
      without a target. */
  method ToggleClass(target: Element?, name: string, force: Option<bool>) returns (r: Option<bool>)
    modifies target
    ensures target == null <==> r == None
    ensures target != null ==>
      (name in target.classList <==> (if force.Some? then force.value else name !in old(target.classList)))
      && target.classList - {name} == old(target.classList) - {name}
      && r == Some(HasClass(target, name))
    ensures forall other :: other != name ==> (HasClass(target, other) <==> old(HasClass(target, other)))
    ensures target != null ==> (target.attributes == old(target.attributes)
      && target.properties == old(target.properties) && target.children == old(target.children))
  {
    if target == null {
      return None;
    }
    var present := if force.Some? then force.value else name !in target.classList;
    if present {
      target.classList := target.classList + {name};
    } else {
      target.classList := target.classList - {name};
    }
    r := Some(present);
  }


  // ---------------------------------------------------------------------
  // create

  /** Where `create` sends one attribute entry. */
  datatype Route = ClassNameRoute | AttributeRoute | PropertyRoute

  function RouteOf(key: string, knownProperties: set<string>): Route {
    if key == "className" || key == "class" then ClassNameRoute
    else if StartsWith(key, "data-") then AttributeRoute
    else if key in knownProperties then PropertyRoute
    else AttributeRoute
  }

  /** The parts of an element that the attribute entries set. */
  datatype Built = Built(classList: set<string>, attributes: map<string, string>, properties: map<string, string>)

  function ApplyEntry(b: Built, key: string, value: string, knownProperties: set<string>): Built {
    match RouteOf(key, knownProperties)
    case ClassNameRoute => b.(classList := ClassTokens(value))
    case AttributeRoute => b.(attributes := b.attributes[key := value])
    case PropertyRoute => b.(properties := b.properties[key := value])
  }

  /** The entries applied one after the other, in `Object.entries` order. */
  function ApplyEntries(b: Built, entries: seq<(string, string)>, knownProperties: set<string>): Built
    decreases |entries|
  {
    if entries == [] then b
    else
      var last := entries[|entries| - 1];
      ApplyEntry(ApplyEntries(b, entries[..|entries| - 1], knownProperties), last.0, last.1, knownProperties)
  }

  /** The value of the last entry whose key satisfies `isKey`. */
  function LastValue(entries: seq<(string, string)>, key: string): Option<string>
    decreases |entries|
  {
    if entries == [] then None
    else if entries[|entries| - 1].0 == key then Some(entries[|entries| - 1].1)
    else LastValue(entries[..|entries| - 1], key)
  }

  function LastClassValue(entries: seq<(string, string)>): Option<string>
    decreases |entries|
  {
    if entries == [] then None
    else if entries[|entries| - 1].0 in {"className", "class"} then Some(entries[|entries| - 1].1)
    else LastClassValue(entries[..|entries| - 1])
  }

  const NoneBuilt := Built({}, map[], map[])

  /** The outcome of the dispatch: the class list comes from the last
      `className`/`class` entry; a key routed to `setAttribute` (every
      `data-*` key, and every key the element has no property for) holds the
      value of its last entry as an attribute; a key the element has a
      property for holds it as a property; nothing else is set. */
  lemma {:induction false} EntriesOutcome(entries: seq<(string, string)>, props: set<string>)
    ensures var b := ApplyEntries(NoneBuilt, entries, props);
      && b.classList == (if LastClassValue(entries).Some? then ClassTokens(LastClassValue(entries).value) else {})
      && (forall k :: k in b.attributes <==> RouteOf(k, props) == AttributeRoute && LastValue(entries, k).Some?)
      && (forall k :: k in b.attributes ==> Some(b.attributes[k]) == LastValue(entries, k))
      && (forall k :: k in b.properties <==> RouteOf(k, props) == PropertyRoute && LastValue(entries, k).Some?)
      && (forall k :: k in b.properties ==> Some(b.properties[k]) == LastValue(entries, k))
    decreases |entries|
  {
    if entries != [] {
      EntriesOutcome(entries[..|entries| - 1], props);
    }
  }

  /** Every `data-*` key goes through `setAttribute`, whatever properties the element has. */
  lemma DataKeysAreAttributes(key: string, props: set<string>)
    requires StartsWith(key, "data-")
    ensures RouteOf(key, props) == AttributeRoute
  {
    assert key[0] == "data-"[0];
  }

  /** A child argument of `create`: a string, an element, or any other value. */
  datatype ChildValue = StringChild(text: string) | ElementChild(element: Element) | OtherChild

  /** The `children` argument: an array, or a single value that is wrapped. */
  datatype Children = ChildArray(items: seq<ChildValue>) | SingleChild(item: ChildValue)

  function ChildList(c: Children): seq<ChildValue> {
    match c
    case ChildArray(items) => items
    case SingleChild(item) => [item]
  }

  function ChildNode(v: ChildValue): seq<Node> {
    match v
    case StringChild(t) => [TextNode(t)]
    case ElementChild(e) => [ElementNode(e)]
    case OtherChild => []
  }

  /** The nodes appended for `items`, in order. */
  function ChildNodes(items: seq<ChildValue>): seq<Node>
    decreases |items|
  {
    if items == [] then [] else ChildNodes(items[..|items| - 1]) + ChildNode(items[|items| - 1])
  }

  /** Appending children is order preserving: the nodes of two runs of
      children are the nodes of the first run followed by those of the second. */
  lemma {:induction false} ChildNodesAppend(xs: seq<ChildValue>, ys: seq<ChildValue>)
    ensures ChildNodes(xs + ys) == ChildNodes(xs) + ChildNodes(ys)
    decreases |ys|
  {
    if ys == [] {
      assert xs + ys == xs;
    } else {
      assert (xs + ys)[..|xs + ys| - 1] == xs + ys[..|ys| - 1];
      ChildNodesAppend(xs, ys[..|ys| - 1]);
    }
  }

  /** Strings become text nodes and elements are appended, other values are
      ignored: the result has one node per string or element child. */
  lemma {:induction false} ChildNodesCount(items: seq<ChildValue>)
    ensures |ChildNodes(items)| == |set k | 0 <= k < |items| && !items[k].OtherChild?|
    decreases |items|
  {
    if items != [] {
      var n := |items| - 1;
      var init := items[..n];
      ChildNodesCount(init);
      var before := set k | 0 <= k < n && !init[k].OtherChild?;
      var after := set k | 0 <= k < |items| && !items[k].OtherChild?;
      assert before == set k | 0 <= k < n && !items[k].OtherChild?;
      if items[n].OtherChild? {
        assert after == before;
      } else {
        assert after == before + {n};
      }
    }
  }

  /** `create(tag, attributes, children)`. */
  method Create(tag: string, props: set<string>, entries: seq<(string, string)>, children: Children)
    returns (e: Element)
    ensures fresh(e) && e.tagName == tag
    ensures Built(e.classList, e.attributes, e.properties) == ApplyEntries(NoneBuilt, entries, props)
    ensures e.children == ChildNodes(ChildList(children))
  {
    e := new Element(tag, props);
    var i := 0;
    while i < |entries|
      invariant 0 <= i <= |entries|
      invariant Built(e.classList, e.attributes, e.properties) == ApplyEntries(NoneBuilt, entries[..i], props)
      invariant e.children == []
    {
      var (key, value) := entries[i];
      assert entries[..i + 1][..i] == entries[..i];
      if key == "className" || key == "class" {
        e.classList := ClassTokens(value);
      } else if StartsWith(key, "data-") {
        e.attributes := e.attributes[key := value];
      } else if key in e.knownProperties {
        e.properties := e.properties[key := value];
      } else {
        e.attributes := e.attributes[key := value];
      }
      i := i + 1;
    }
    assert entries[..i] == entries;
    var items := ChildList(children);
    var j := 0;
    while j < |items|
      invariant 0 <= j <= |items|
      invariant e.children == ChildNodes(items[..j])
      invariant Built(e.classList, e.attributes, e.properties) == ApplyEntries(NoneBuilt, entries, props)
    {
      assert items[..j + 1][..j] == items[..j];
      match items[j] {
        case StringChild(t) => e.children := e.children + [TextNode(t)];
        case ElementChild(c) => e.children := e.children + [ElementNode(c)];
        case OtherChild =>
      }
      j := j + 1;
    }
    assert items[..j] == items;
  }

  // ---------------------------------------------------------------------
  // loadScript

  datatype Script = Script(id: string, src: string, async: bool, defer: bool, scriptType: string)

  /** The `options` of `loadScript`; `None` stands for an absent option. */
  datatype ScriptOptions = ScriptOptions(async: Option<bool>, defer: Option<bool>, scriptType: Option<string>)

  const DefaultOptions := ScriptOptions(None, None, None)

  /** The script element `loadScript` creates: `async` unless it is
      explicitly false, `defer` only when given true, and `text/javascript`
      unless a non-empty type is given. */
  function ScriptFor(src: string, options: ScriptOptions): Script {
    Script("", src,
      options.async != Some(false),
      options.defer.Some? && options.defer.value,
      if options.scriptType.Some? && options.scriptType.value != "" then options.scriptType.value else "text/javascript")
  }

  /** The entries `loadScript` hands to `create('script', …)`. */
  function ScriptEntries(src: string, options: ScriptOptions): seq<(string, string)> {
    [("src", src),
     ("async", BoolString(options.async != Some(false))),
     ("defer", BoolString(options.defer == Some(true))),
     ("type", if options.scriptType.Some? && options.scriptType.value != "" then options.scriptType.value else "text/javascript")]
  }

  /** The element `create` builds from those entries is the script
      `ScriptFor` describes: all four keys are properties of a script
      element, so every entry takes the property route (none goes through
      `setAttribute` and no class is set), and each property holds the
      corresponding field. A script element reflects these four properties
      to its `src`, `async`, `defer` and `type` content attributes; that
      reflection is what lets `script[src="…"]` find the element, and it is
      taken as given by `Script.src` and `Document.HasScriptWithSrc`. */
  lemma ScriptForIsCreated(src: string, options: ScriptOptions, props: set<string>)
    requires {"src", "async", "defer", "type"} <= props
    ensures var s := ScriptFor(src, options);
      var b := ApplyEntries(NoneBuilt, ScriptEntries(src, options), props);
      && b.classList == {} && b.attributes == map[]
      && b.properties == map["src" := s.src, "async" := BoolString(s.async),
                             "defer" := BoolString(s.defer), "type" := s.scriptType]
  {
    var s := ScriptFor(src, options);
    var entries := ScriptEntries(src, options);
    assert !StartsWith("async", "data-") by { assert "async"[0] != "data-"[0]; }
    assert !StartsWith("defer", "data-") by { assert "defer"[2] != "data-"[2]; }
    assert RouteOf("src", props) == PropertyRoute && RouteOf("async", props) == PropertyRoute;
    assert RouteOf("defer", props) == PropertyRoute && RouteOf("type", props) == PropertyRoute;
    var p1 := map["src" := s.src];
    var p2 := p1["async" := BoolString(s.async)];
    var p3 := p2["defer" := BoolString(s.defer)];
    assert ApplyEntries(NoneBuilt, entries[..1], props) == Built({}, map[], p1) by {
      assert entries[..1][..0] == [];
    }
    assert ApplyEntries(NoneBuilt, entries[..2], props) == Built({}, map[], p2) by {
      assert entries[..2][..1] == entries[..1];
    }
    assert ApplyEntries(NoneBuilt, entries[..3], props) == Built({}, map[], p3) by {
      assert entries[..3][..2] == entries[..2];
    }
    assert entries[..4][..3] == entries[..3] && entries[..4] == entries;
  }

  class Document {
    /** The script elements of `head` and of `body`, in document order. */
    var head: seq<Script>
    var body: seq<Script>
    /** The ids carried by the document's other elements. */
    var otherIds: set<string>

    constructor (head0: seq<Script>, body0: seq<Script>, ids: set<string>)
      ensures head == head0 && body == body0 && otherIds == ids
    {
      head, body, otherIds := head0, body0, ids;
    }

    /** `qs('script[src="…"]')` finds an element. */
    predicate HasScriptWithSrc(src: string)
      reads this
    {
      (exists k :: 0 <= k < |head| && head[k].src == src) || (exists k :: 0 <= k < |body| && body[k].src == src)
    }

    /** `document.getElementById(id)` finds an element. */
    predicate HasId(id: string)
      reads this
    {
      id in otherIds || (exists k :: 0 <= k < |head| && head[k].id == id)
      || (exists k :: 0 <= k < |body| && body[k].id == id)
    }

    /** Number of script elements in the document whose `src` is `src`. */
    function ScriptCount(src: string): nat
      reads this
    {
      |set k | 0 <= k < |head| && head[k].src == src| + |set k | 0 <= k < |body| && body[k].src == src|
    }
  }

  /** `loadScript(src, options)`: when a script with this `src` is already in
      the document the promise resolves and nothing is inserted; otherwise
      exactly one script element is appended to `head`, and the promise
      resolves on its `load` event and rejects on its `error` event
      (`loads` says which of the two the browser fires). */
  method LoadScript(doc: Document, src: string, options: ScriptOptions, loads: bool) returns (r: Settlement)
    modifies doc`head
    ensures old(doc.HasScriptWithSrc(src)) ==> r == Resolved && doc.head == old(doc.head)
    ensures !old(doc.HasScriptWithSrc(src)) ==>
      doc.head == old(doc.head) + [ScriptFor(src, options)] && r == (if loads then Resolved else Rejected)
    ensures doc.HasScriptWithSrc(src)
  {
    if doc.HasScriptWithSrc(src) {
      return Resolved;
    }
    doc.head := doc.head + [ScriptFor(src, options)];
    assert doc.head[|doc.head| - 1].src == src;
    r := if loads then Resolved else Rejected;
  }

  /** Loading the same script again never adds a second element: once loaded,
      the document carries it exactly once more than before the first call. */
  method LoadScriptTwice(doc: Document, src: string, first: bool, second: bool)
    returns (r1: Settlement, r2: Settlement, added: int)
    modifies doc`head
    ensures r2 == Resolved
    ensures added == (if old(doc.HasScriptWithSrc(src)) then 0 else 1)
    ensures |doc.head| == |old(doc.head)| + added
  {
    var before := |doc.head|;
    r1 := LoadScript(doc, src, DefaultOptions, first);
    r2 := LoadScript(doc, src, DefaultOptions, second);
    added := |doc.head| - before;
  }
}
