/**
 * The reactive signal and element builder of e-game/lib.js.
 *
 * A signal is a value cell with a list of subscribers. Reading it while a
 * reactive function is active subscribes that function; writing it stores
 * the value and then calls every subscriber in list order. The element
 * builder turns signal content into a text node kept equal to the signal's
 * value by a binding, the only kind of reactive function the library creates.
 *
 * The module-level `reactiveFn` slot becomes a `Context` object passed to
 * every operation, and the proxy's get and set traps become the explicit
 * methods `Signal.Read` and `Signal.Write`.
 */
module Reactive {
  import opened Wrappers

  /** A DOM text node; `text` is its `nodeValue`. */
  class TextNode {
    var text: string

    constructor (text: string)
      ensures this.text == text
    {
      this.text := text;
    }
  }

  /**
   * The reactive function the element builder installs for signal content:
   * a closure over the text node it updates and the signal it reads.
   */
  datatype Binding = Binding(target: TextNode, source: Signal) {
    /**
     * Calling the closure: it reads the signal twice (once for the log
     * message, once for the assignment) and stores the value in its node.
     * The slot is empty while it runs, so the reads subscribe nothing.
     */
    method Run(ctx: Context)
      requires ctx.Idle()
      modifies target, source`subscribers, ctx`calls
      ensures ctx.calls == old(ctx.calls) + [this]
      ensures target.text == source.value
      ensures source.subscribers == old(source.subscribers)
    {
      ctx.calls := ctx.calls + [this];
      var logged := source.Read(ctx);
      var v := source.Read(ctx);
      target.text := v;
    }
  }

  /**
   * The `reactiveFn` slot: the reactive function currently being installed,
   * if any. `calls` is a ghost record of every binding invocation, in order.
   */
  class Context {
    var active: Option<Binding>
    ghost var calls: seq<Binding>

    /** No reactive function is active (`reactiveFn == null`). */
    predicate Idle()
      reads this
    {
      active.None?
    }

    constructor ()
      ensures Idle() && calls == []
    {
      active := None;
      calls := [];
    }
  }

  /** The number of times `b` occurs in `subs`. */
  function Occurrences(subs: seq<Binding>, b: Binding): (n: nat)
  {
    if subs == [] then 0
    else Occurrences(subs[..|subs| - 1], b) + (if subs[|subs| - 1] == b then 1 else 0)
  }

  /** Counting occurrences distributes over concatenation of subscriber lists. */
  lemma {:induction false} OccurrencesAppend(xs: seq<Binding>, ys: seq<Binding>, b: Binding)
    ensures Occurrences(xs + ys, b) == Occurrences(xs, b) + Occurrences(ys, b)
  {
    if ys != [] {
      var zs := ys[..|ys| - 1];
      assert (xs + ys)[..|xs + ys| - 1] == xs + zs;
      OccurrencesAppend(xs, zs, b);
    } else {
      assert xs + ys == xs;
    }
  }

  /** A binding occurs in a list exactly when it is counted there at least once. */
  lemma {:induction false} OccurrencesPositive(subs: seq<Binding>, b: Binding)
    ensures Occurrences(subs, b) > 0 <==> b in subs
  {
    if subs != [] {
      var init := subs[..|subs| - 1];
      OccurrencesPositive(init, b);
      assert subs == init + [subs[|subs| - 1]];
    }
  }

  /** A signal: the proxied `{ data }` object with its private `subscribers` array. */
  class Signal {
    var value: string
    var subscribers: seq<Binding>

    /** `signal(initialValue)`: holds exactly the initial value and has no subscribers. */
    constructor (initial: string)
      ensures value == initial && subscribers == []
      ensures Valid() && Synced()
    {
      value := initial;
      subscribers := [];
    }

    /** Every subscriber is a binding of this signal. */
    ghost predicate Valid()
      reads this
    {
      forall i :: 0 <= i < |subscribers| ==> subscribers[i].source == this
    }

    /** The text nodes the subscribers update. */
    ghost function Targets(): set<TextNode>
      reads this
    {
      set i | 0 <= i < |subscribers| :: subscribers[i].target
    }

    /** Every node bound to this signal shows its current value. */
    ghost predicate Synced()
      reads this, Targets()
    {
      forall i :: 0 <= i < |subscribers| ==> subscribers[i].target.text == value
    }

    /**
     * The get trap: returns the value and, when a reactive function is
     * active, appends it to the subscribers without checking whether it is
     * already there; otherwise the list is unchanged.
     */
    method Read(ctx: Context) returns (v: string)
      modifies this`subscribers
      ensures v == value
      ensures subscribers == old(subscribers) + (if ctx.active.Some? then [ctx.active.value] else [])
      ensures old(Valid()) && (ctx.active.Some? ==> ctx.active.value.source == this) ==> Valid()
    {
      if ctx.active.Some? {
        subscribers := subscribers + [ctx.active.value];
      }
      v := value;
    }

    /**
     * The set trap: stores the new value first, then calls every subscriber
     * exactly once, in list order, with no check that the value changed.
     * Afterwards every bound node shows the new value.
     */
    method Write(v: string, ctx: Context)
      requires Valid() && ctx.Idle()
      modifies this, ctx`calls, Targets()
      ensures value == v && subscribers == old(subscribers)
      ensures ctx.calls == old(ctx.calls) + subscribers
      ensures Valid() && Synced()
    {
      value := v;
      var i := 0;
      while i < |subscribers|
        invariant 0 <= i <= |subscribers|
        invariant value == v && subscribers == old(subscribers)
        invariant ctx.calls == old(ctx.calls) + subscribers[..i]
        invariant forall j :: 0 <= j < i ==> subscribers[j].target.text == v
      {
        var b := subscribers[i];
        assert b.target in old(Targets());
        b.Run(ctx);
        assert subscribers[..i + 1] == subscribers[..i] + [b];
        i := i + 1;
      }
      assert subscribers[..i] == subscribers;
    }
  }

  /** A DOM element: its tag, its attributes and its children, in order. */
  class Element {
    const tag: string
    var attrs: map<string, string>
    var children: seq<Child>

    /** `document.createElement(tag)`. */
    constructor (tag: string)
      ensures this.tag == tag && attrs == map[] && children == []
    {
      this.tag := tag;
      attrs := map[];
      children := [];
    }
  }

  /** A child of an element: a text node or a nested element. */
  datatype Child = TextChild(node: TextNode) | ElementChild(el: Element)

  /**
   * The `text` argument of an element builder: a string, an element built
   * before, a signal, or a value that is none of these and not a DOM node
   * either (`undefined`, a number, ...), on which the builder throws a
   * `TypeError`.
   */
  datatype Content = Text(s: string) | Node(el: Element) | Reactive(sig: Signal) | Other

  /** The `text` an element builder receives from `(...args)`: the first argument, or `undefined`. */
  function Argument(args: seq<Content>): (c: Content)
  {
    if args == [] then Other else args[0]
  }

  /**
   * What `element(tag)(content)` leaves behind, apart from the attributes:
   * `None` exactly for content the builder throws on; otherwise a fresh
   * element of the tag with one child chosen by the kind of the content.
   *
   * For a signal, the `hasOwnProperty` probe and the initial read both go
   * through the get trap: the new binding is subscribed once, after whatever
   * function was active on entry, and the slot is cleared afterwards, whatever
   * it held before. For other content the slot is untouched. No binding is
   * called: the initial value is read directly.
   */
  twostate predicate Built(tag: string, content: Content, ctx: Context, new r: Option<Element>)
    reads ctx, (if content.Reactive? then {content.sig} else {}), (if r.Some? then {r.value} else {})
    reads if r.Some? && |r.value.children| == 1 && r.value.children[0].TextChild? then {r.value.children[0].node} else {}
  {
    (r.None? <==> content.Other?) &&
    (r.Some? ==> fresh(r.value) && r.value.tag == tag && |r.value.children| == 1) &&
    ctx.calls == old(ctx.calls) &&
    (content.Reactive? ==> ctx.Idle()) &&
    (!content.Reactive? ==> ctx.active == old(ctx.active)) &&
    (content.Text? ==>
       r.Some? && r.value.children[0].TextChild? &&
       fresh(r.value.children[0].node) && r.value.children[0].node.text == content.s) &&
    (content.Node? ==> r.Some? && r.value.children == [ElementChild(content.el)]) &&
    (content.Reactive? ==>
       var s := content.sig;
       r.Some? && r.value.children[0].TextChild? &&
       var t := r.value.children[0].node;
       fresh(t) && t.text == s.value && s.value == old(s.value) &&
       s.subscribers == old(s.subscribers)
         + (if old(ctx.active).Some? then [old(ctx.active).value] else [])
         + [Binding(t, s)])
  }

  /**
   * `element(tag)(content)`: the outcome described by `Built`, with no
   * attributes. Only the content signal's list changes, and a signal bound
   * with the slot empty stays valid and in sync.
   */
  method BuildElement(tag: string, content: Content, ctx: Context) returns (r: Option<Element>)
    modifies ctx`active, if content.Reactive? then {content.sig} else {}
    ensures Built(tag, content, ctx, r)
    ensures r.Some? ==> r.value.attrs == map[]
    ensures content.Reactive? && old(ctx.Idle()) && old(content.sig.Valid()) ==> content.sig.Valid()
    ensures content.Reactive? && old(ctx.Idle()) && old(content.sig.Synced()) ==> content.sig.Synced()
  {
    if content.Other? {
      return None;
    }
    var el := new Element(tag);
    match content {
      case Text(s) =>
        var node := new TextNode(s);
        el.children := [TextChild(node)];
      case Node(e) =>
        el.children := [ElementChild(e)];
      case Reactive(sig) =>
        var probe := sig.Read(ctx);
        var node := new TextNode("");
        ctx.active := Some(Binding(node, sig));
        var v := sig.Read(ctx);
        node.text := v;
        ctx.active := None;
        el.children := [TextChild(node)];
    }
    r := Some(el);
  }

  /**
   * The `forEach` over `Object.entries(attrs)`: sets every attribute; keys
   * are unique, so the order of the calls does not matter. Children are untouched.
   */
  method SetAttributes(el: Element, attrs: map<string, string>)
    modifies el`attrs
    ensures el.attrs == old(el.attrs) + attrs
  {
    var pending := attrs.Keys;
    while pending != {}
      invariant pending <= attrs.Keys
      invariant el.attrs == old(el.attrs) + map k | k in attrs.Keys - pending :: attrs[k]
      decreases pending
    {
      var k :| k in pending;
      el.attrs := el.attrs[k := attrs[k]];
      pending := pending - {k};
    }
    assert attrs.Keys - pending == attrs.Keys;
  }

  /**
   * `attribute(element(tag))(attrs)(...args)`, of which `h1` and `div` are the
   * instances with tag "h1" and "div": the builder's outcome from the first
   * argument only, then the attributes set when a mapping was given. With
   * no mapping the element is exactly what the builder returned.
   */
  method Attribute(tag: string, attrs: Option<map<string, string>>, args: seq<Content>, ctx: Context)
    returns (r: Option<Element>)
    modifies ctx`active, if Argument(args).Reactive? then {Argument(args).sig} else {}
    ensures Built(tag, Argument(args), ctx, r)
    ensures r.Some? && attrs.None? ==> r.value.attrs == map[]
    ensures r.Some? && attrs.Some? ==> r.value.attrs == attrs.value
    ensures Argument(args).Reactive? && old(ctx.Idle()) && old(Argument(args).sig.Valid()) ==>
              Argument(args).sig.Valid()
    ensures Argument(args).Reactive? && old(ctx.Idle()) && old(Argument(args).sig.Synced()) ==>
              Argument(args).sig.Synced()
  {
    r := BuildElement(tag, Argument(args), ctx);
    if r.Some? && attrs.Some? {
      SetAttributes(r.value, attrs.value);
    }
  }

  /**
   * No de-duplication: two reads while `b` is active list `b` twice more,
   * however often it was listed before, so a later write calls it twice more.
   */
  method ReadTwiceWhileActive(s: Signal, ctx: Context, b: Binding) returns (first: string, second: string)
    requires ctx.active == Some(b)
    modifies s`subscribers
    ensures first == s.value && second == s.value
    ensures s.subscribers == old(s.subscribers) + [b, b]
    ensures Occurrences(s.subscribers, b) == Occurrences(old(s.subscribers), b) + 2
  {
    first := s.Read(ctx);
    second := s.Read(ctx);
    assert s.subscribers == old(s.subscribers) + [b, b];
    OccurrencesAppend(old(s.subscribers), [b, b], b);
    assert [b, b][..1] == [b];
    assert [b][..0] == [];
  }

  /**
   * Each signal owns its list: writing `a` calls no binding that is listed
   * only by another signal and leaves that signal's value and list alone,
   * for any two signals; it also keeps the other signal's nodes in sync when
   * the two signals bind different nodes.
   */
  method WriteIsolation(a: Signal, other: Signal, v: string, ctx: Context)
    requires a != other && a.Valid() && ctx.Idle()
    modifies a, ctx`calls, a.Targets()
    ensures other.value == old(other.value) && other.subscribers == old(other.subscribers)
    ensures forall b :: b in other.subscribers && b !in a.subscribers ==>
              Occurrences(ctx.calls, b) == Occurrences(old(ctx.calls), b)
    ensures old(a.Targets() !! other.Targets()) && old(other.Synced()) ==> other.Synced()
  {
    a.Write(v, ctx);
    forall b | b in other.subscribers && b !in a.subscribers
      ensures Occurrences(ctx.calls, b) == Occurrences(old(ctx.calls), b)
    {
      OccurrencesAppend(old(ctx.calls), a.subscribers, b);
      OccurrencesPositive(a.subscribers, b);
    }
  }
}
