/**
 * The view of e-game/main.js, built with the reactive library: a `div` of
 * class "App" holding an `h1` whose text is bound to the `counter` signal
 * that the game loop rewrites every frame.
 */
module CounterApp {
  import opened Wrappers
  import opened Reactive

  /**
   * `div({ class: "App" })(h1()(counter))`: the heading's only child is a new
   * text node showing the counter, bound to it by one new subscription.
   */
  method App(counter: Signal, ctx: Context) returns (app: Element, heading: Element, caption: TextNode)
    requires ctx.Idle() && counter.Valid()
    modifies ctx`active, counter
    ensures ctx.Idle()
    ensures fresh(app) && fresh(heading) && fresh(caption)
    ensures app.tag == "div" && app.attrs == map["class" := "App"] && app.children == [ElementChild(heading)]
    ensures heading.tag == "h1" && heading.attrs == map[] && heading.children == [TextChild(caption)]
    ensures caption.text == counter.value && counter.value == old(counter.value)
    ensures counter.subscribers == old(counter.subscribers) + [Binding(caption, counter)]
    ensures counter.Valid() && (old(counter.Synced()) ==> counter.Synced())
  {
    var h := Attribute("h1", None, [Reactive(counter)], ctx);
    heading := h.value;
    caption := heading.children[0].node;
    var d := Attribute("div", Some(map["class" := "App"]), [Node(heading)], ctx);
    app := d.value;
  }

  /**
   * Building the view on an empty counter and running one game-loop frame
   * that writes `time` (already formatted): the heading's text is `time`
   * when the write returns.
   */
  method MountAndOneFrame(time: string) returns (app: Element, caption: TextNode)
    ensures app.tag == "div" && app.attrs == map["class" := "App"] && |app.children| == 1
    ensures app.children[0].ElementChild? && app.children[0].el.tag == "h1"
    ensures app.children[0].el.children == [TextChild(caption)]
    ensures caption.text == time
  {
    var counter := new Signal("");
    var ctx := new Context();
    var heading;
    app, heading, caption := App(counter, ctx);
    assert caption.text == "";
    counter.Write(time, ctx);
    assert counter.subscribers[0].target == caption;
  }
}
