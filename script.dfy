/** The fallback effect of the framework-agnostic Script component: it
    builds a `<script>` element from the props, inserts it into the head or
    the body according to `strategy` (now, or from a window `load`, idle or
    timeout callback), attaches the `onLoad`/`onError`/`onReady` listeners,
    and on cleanup removes the element when it has a parent. The page is a
    `Browser` object holding the head's and the body's children and the
    callbacks registered but not yet run. */
module ScriptShim {
  import opened JsValues

  /** The props the component destructures by name; the rest become attributes. */
  const NamedProps: set<string> := {"src", "strategy", "onLoad", "onReady", "onError", "children"}

  /** An `addEventListener` registration. */
  datatype Listener = Listener(event: string, handler: Value)

  /** What a registered callback waits for. */
  datatype Trigger = WindowLoad | Idle | Timeout

  /** A registered callback that appends `script` to the body when it runs. */
  datatype Pending = Pending(trigger: Trigger, script: ScriptElement)

  /** Where the effect puts the element. */
  datatype Placement = InHead | InBody | AfterWindowLoad | WhenIdle | AfterTimeout | Nowhere

  /** The parts of the page the effect changes. */
  datatype Page = Page(head: seq<ScriptElement>, body: seq<ScriptElement>, pending: seq<Pending>)

  class ScriptElement {
    var src: string
    var textContent: string
    var attributes: map<string, string>
    var listeners: seq<Listener>

    /** `document.createElement('script')`. */
    constructor ()
      ensures src == "" && textContent == "" && attributes == map[] && listeners == []
    {
      src, textContent, attributes, listeners := "", "", map[], [];
    }

    method SetAttribute(name: string, value: string)
      modifies this
      ensures attributes == old(attributes)[name := value]
      ensures src == old(src) && textContent == old(textContent) && listeners == old(listeners)
    {
      attributes := attributes[name := value];
    }

    /** `addEventListener`: registering the same listener for the same event
        twice has no effect. */
    method AddEventListener(event: string, handler: Value)
      modifies this
      ensures listeners == AddListener(old(listeners), Listener(event, handler))
      ensures src == old(src) && textContent == old(textContent) && attributes == old(attributes)
    {
      if Listener(event, handler) !in listeners {
        listeners := listeners + [Listener(event, handler)];
      }
    }

    /** The three conditional `addEventListener` calls. */
    method AddCallbacks(onLoad: Value, onError: Value, onReady: Value)
      requires listeners == []
      modifies this
      ensures listeners == ListenersFor(onLoad, onError, onReady)
      ensures src == old(src) && textContent == old(textContent) && attributes == old(attributes)
    {
      if Truthy(onLoad) {
        AddEventListener("load", onLoad);
      }
      if Truthy(onError) {
        AddEventListener("error", onError);
      }
      if Truthy(onReady) {
        AddEventListener("load", onReady);
      }
    }

    /** The attribute loop: every rest prop that is neither `undefined` nor
        `null` is set under its own name, converted with `String`. The
        entries are visited in some order; the keys are distinct, so the
        order does not change the outcome. */
    method SetAttributes(rest: map<string, Value>)
      modifies this
      ensures attributes == old(attributes) + ScriptAttributes(rest)
      ensures src == old(src) && textContent == old(textContent) && listeners == old(listeners)
    {
      var remaining := rest.Keys;
      while remaining != {}
        invariant remaining <= rest.Keys
        invariant attributes == old(attributes) + ScriptAttributes(Omit(rest, remaining))
        invariant src == old(src) && textContent == old(textContent) && listeners == old(listeners)
        decreases |remaining|
      {
        var key :| key in remaining;
        var value := rest[key];
        AttributesStep(rest, remaining, key);
        if !value.Undefined? && !value.Null? {
          SetAttribute(key, ToText(value));
        }
        remaining := remaining - {key};
      }
      assert Omit(rest, {}) == rest;
    }
  }

  /** The attributes the loop sets from the rest props. */
  function ScriptAttributes(rest: map<string, Value>): map<string, string>
  {
    map k | k in rest && !rest[k].Undefined? && !rest[k].Null? :: ToText(rest[k])
  }

  /** One more visited entry adds its attribute, if it is set at all. */
  lemma AttributesStep(rest: map<string, Value>, remaining: set<string>, key: string)
    requires key in remaining && key in rest
    ensures var before, after := ScriptAttributes(Omit(rest, remaining)), ScriptAttributes(Omit(rest, remaining - {key}));
      && (!rest[key].Undefined? && !rest[key].Null? ==> after == before[key := ToText(rest[key])])
      && (rest[key].Undefined? || rest[key].Null? ==> after == before)
  {
  }

  /** `strategy = 'afterInteractive'`: the default replaces `undefined` only. */
  function StrategyOf(props: map<string, Value>): Value
  {
    var strategy := Get(props, "strategy");
    if strategy.Undefined? then Str("afterInteractive") else strategy
  }

  /** The placement chosen by the strategy chain; a strategy other than the
      three handled ones (`worker` among them) places the element nowhere. */
  function PlacementFor(strategy: Value, readyState: string, hasIdleCallback: bool): Placement
  {
    if strategy == Str("beforeInteractive") then InHead
    else if strategy == Str("afterInteractive") then
      (if readyState == "complete" then InBody else AfterWindowLoad)
    else if strategy == Str("lazyOnload") then
      (if hasIdleCallback then WhenIdle else AfterTimeout)
    else Nowhere
  }

  function AddListener(listeners: seq<Listener>, l: Listener): seq<Listener>
  {
    if l in listeners then listeners else listeners + [l]
  }

  /** The listeners after the three conditional registrations, in order. */
  function ListenersFor(onLoad: Value, onError: Value, onReady: Value): seq<Listener>
  {
    var afterLoad := if Truthy(onLoad) then [Listener("load", onLoad)] else [];
    var afterError := if Truthy(onError) then AddListener(afterLoad, Listener("error", onError)) else afterLoad;
    if Truthy(onReady) then AddListener(afterError, Listener("load", onReady)) else afterError
  }

  /** `xs` without `s`. */
  function Without(xs: seq<ScriptElement>, s: ScriptElement): (r: seq<ScriptElement>)
    ensures |r| <= |xs|
    ensures s !in xs ==> r == xs
  {
    if xs == [] then []
    else
      assert s !in xs ==> s !in xs[1..] && xs == [xs[0]] + xs[1..];
      (if xs[0] == s then [] else [xs[0]]) + Without(xs[1..], s)
  }

  lemma {:induction false} WithoutMembers(xs: seq<ScriptElement>, s: ScriptElement, x: ScriptElement)
    ensures x in Without(xs, s) <==> x in xs && x != s
  {
    if xs != [] {
      WithoutMembers(xs[1..], s, x);
      assert xs == [xs[0]] + xs[1..];
    }
  }

  /** `parent.appendChild(s)`: `s` leaves its current parent and becomes the
      parent's last child. */
  function AppendChild(page: Page, s: ScriptElement, toHead: bool): Page
  {
    if toHead then page.(head := Without(page.head, s) + [s], body := Without(page.body, s))
    else page.(head := Without(page.head, s), body := Without(page.body, s) + [s])
  }

  /** The page after the effect has placed a new element. */
  function Place(page: Page, s: ScriptElement, placement: Placement): Page
  {
    match placement
    case InHead => AppendChild(page, s, true)
    case InBody => AppendChild(page, s, false)
    case AfterWindowLoad => page.(pending := page.pending + [Pending(WindowLoad, s)])
    case WhenIdle => page.(pending := page.pending + [Pending(Idle, s)])
    case AfterTimeout => page.(pending := page.pending + [Pending(Timeout, s)])
    case Nowhere => page
  }

  /** `s.parentNode.removeChild(s)` when `s` has a parent, nothing otherwise. */
  function Detach(page: Page, s: ScriptElement): Page
  {
    if s in page.head || s in page.body then page.(head := Without(page.head, s), body := Without(page.body, s))
    else page
  }

  /** The registered callbacks that do not append `s`. */
  function CallbacksNotFor(pending: seq<Pending>, s: ScriptElement): (r: seq<Pending>)
    ensures |r| <= |pending|
  {
    if pending == [] then []
    else (if pending[0].script == s then [] else [pending[0]]) + CallbacksNotFor(pending[1..], s)
  }

  lemma {:induction false} CallbacksNotForMembers(pending: seq<Pending>, s: ScriptElement, p: Pending)
    ensures p in CallbacksNotFor(pending, s) <==> p in pending && p.script != s
  {
    if pending != [] {
      CallbacksNotForMembers(pending[1..], s, p);
      assert pending == [pending[0]] + pending[1..];
    }
  }

  /** The browser: the document's head and body, its `readyState`, whether
      `requestIdleCallback` exists, and the callbacks not yet run. */
  class Browser {
    var head: seq<ScriptElement>
    var body: seq<ScriptElement>
    var pending: seq<Pending>
    var readyState: string
    const hasIdleCallback: bool

    function State(): Page
      reads this
    {
      Page(head, body, pending)
    }

    constructor (readyState: string, hasIdleCallback: bool)
      ensures State() == Page([], [], []) && this.readyState == readyState
      ensures this.hasIdleCallback == hasIdleCallback
    {
      head, body, pending := [], [], [];
      this.readyState := readyState;
      this.hasIdleCallback := hasIdleCallback;
    }

    method AppendToHead(s: ScriptElement)
      modifies this
      ensures State() == AppendChild(old(State()), s, true) && readyState == old(readyState)
    {
      head, body := Without(head, s) + [s], Without(body, s);
    }

    method AppendToBody(s: ScriptElement)
      modifies this
      ensures State() == AppendChild(old(State()), s, false) && readyState == old(readyState)
    {
      head, body := Without(head, s), Without(body, s) + [s];
    }

    /** The effect body. Returns the element it built, or null when both
        `src` and `children` are falsy. */
    method RunEffect(props: map<string, Value>) returns (script: ScriptElement?)
      modifies this
      ensures script == null <==> !Truthy(Get(props, "src")) && !Truthy(Get(props, "children"))
      ensures script == null ==> State() == old(State())
      ensures script != null ==> fresh(script)
      ensures script != null ==> script.src == (if Truthy(Get(props, "src")) then ToText(Get(props, "src")) else "")
      ensures script != null ==>
        script.textContent == (if Truthy(Get(props, "children")) then ToText(Get(props, "children")) else "")
      ensures script != null ==> script.attributes == ScriptAttributes(Omit(props, NamedProps))
      ensures script != null ==>
        script.listeners == ListenersFor(Get(props, "onLoad"), Get(props, "onError"), Get(props, "onReady"))
      ensures script != null ==>
        State() == Place(old(State()), script, PlacementFor(StrategyOf(props), readyState, hasIdleCallback))
      ensures readyState == old(readyState)
    {
      var src, children := Get(props, "src"), Get(props, "children");
      var strategy := StrategyOf(props);
      if !Truthy(src) && !Truthy(children) {
        return null;
      }
      var s := new ScriptElement();
      if Truthy(src) {
        s.src := ToText(src);
      }
      if Truthy(children) {
        s.textContent := ToText(children);
      }
      s.SetAttributes(Omit(props, NamedProps));
      assert s !in head && s !in body;
      PlaceScript(s, strategy);
      s.AddCallbacks(Get(props, "onLoad"), Get(props, "onError"), Get(props, "onReady"));
      script := s;
    }

    /** The strategy chain for a new element. */
    method PlaceScript(s: ScriptElement, strategy: Value)
      requires s !in head && s !in body
      modifies this
      ensures State() == Place(old(State()), s, PlacementFor(strategy, readyState, hasIdleCallback))
      ensures readyState == old(readyState)
    {
      if strategy == Str("beforeInteractive") {
        AppendToHead(s);
      } else if strategy == Str("afterInteractive") {
        if readyState == "complete" {
          AppendToBody(s);
        } else {
          pending := pending + [Pending(WindowLoad, s)];
        }
      } else if strategy == Str("lazyOnload") {
        if hasIdleCallback {
          pending := pending + [Pending(Idle, s)];
        } else {
          pending := pending + [Pending(Timeout, s)];
        }
      }
    }

    /** The cleanup the effect returns: remove the element from its parent
        if it has one. Callbacks already registered stay registered. */
    method Cleanup(script: ScriptElement)
      modifies this
      ensures State() == Detach(old(State()), script) && readyState == old(readyState)
    {
      if script in head || script in body {
        head, body := Without(head, script), Without(body, script);
      }
    }

    /** A cleanup that also drops the callbacks that would append the element. */
    method CleanupCancellingCallbacks(script: ScriptElement)
      modifies this
      ensures State() == Detach(old(State()), script).(pending := CallbacksNotFor(old(pending), script))
      ensures readyState == old(readyState)
    {
      Cleanup(script);
      pending := CallbacksNotFor(pending, script);
    }

    /** The window's `load` event, an idle period or the timeout runs the
        oldest registered callback, which appends its element to the body. */
    method RunNextCallback()
      requires pending != []
      modifies this
      ensures State() == AppendChild(old(State()).(pending := old(pending)[1..]), old(pending)[0].script, false)
      ensures readyState == old(readyState)
    {
      var s := pending[0].script;
      pending := pending[1..];
      AppendToBody(s);
    }
  }

  // ---------------------------------------------------------------------
  // Properties of the effect.

  /** Without a `strategy` prop, or with one that is `undefined`, the
      strategy is `afterInteractive`: the body now when the document is
      complete, after the window's `load` otherwise. */
  lemma DefaultStrategy(props: map<string, Value>, readyState: string, hasIdleCallback: bool)
    requires Get(props, "strategy").Undefined?
    ensures StrategyOf(props) == Str("afterInteractive")
    ensures PlacementFor(StrategyOf(props), readyState, hasIdleCallback) ==
              if readyState == "complete" then InBody else AfterWindowLoad
  {
  }

  /** The placement for each strategy; `worker`, `null` and any other value
      never insert the element. */
  lemma PlacementByStrategy(strategy: Value, readyState: string, hasIdleCallback: bool)
    ensures PlacementFor(strategy, readyState, hasIdleCallback) == InHead <==> strategy == Str("beforeInteractive")
    ensures PlacementFor(strategy, readyState, hasIdleCallback) in {InBody, AfterWindowLoad} <==>
              strategy == Str("afterInteractive")
    ensures PlacementFor(strategy, readyState, hasIdleCallback) in {WhenIdle, AfterTimeout} <==>
              strategy == Str("lazyOnload")
    ensures PlacementFor(strategy, readyState, hasIdleCallback) == Nowhere <==>
              strategy !in {Str("beforeInteractive"), Str("afterInteractive"), Str("lazyOnload")}
  {
  }

  /** A `worker` script is built but never inserted and nothing is
      registered to insert it later. */
  lemma WorkerNeverInserted(page: Page, s: ScriptElement, readyState: string, hasIdleCallback: bool)
    ensures Place(page, s, PlacementFor(Str("worker"), readyState, hasIdleCallback)) == page
  {
    assert Str("worker") != Str("beforeInteractive");
    assert Str("worker") != Str("afterInteractive");
    assert Str("worker") != Str("lazyOnload");
  }

  /** An immediate placement makes the element the last child of the head or
      body, without touching the other children. */
  lemma ImmediatePlacement(page: Page, s: ScriptElement, placement: Placement)
    requires s !in page.head && s !in page.body
    requires placement == InHead || placement == InBody
    ensures placement == InHead ==> Place(page, s, placement) == page.(head := page.head + [s])
    ensures placement == InBody ==> Place(page, s, placement) == page.(body := page.body + [s])
  {
  }

  /** `onLoad` and `onReady` listen to `load` and `onError` to `error`, each
      only when given; one function given twice for `load` is registered once. */
  lemma ListenerMembership(onLoad: Value, onError: Value, onReady: Value, l: Listener)
    ensures l in ListenersFor(onLoad, onError, onReady) <==>
      || (Truthy(onLoad) && l == Listener("load", onLoad))
      || (Truthy(onError) && l == Listener("error", onError))
      || (Truthy(onReady) && l == Listener("load", onReady))
    ensures |ListenersFor(onLoad, onError, onReady)| <= 3
  {
  }

  /** The same function as `onLoad` and `onReady` gives one `load` listener. */
  lemma SharedLoadHandler(handler: Value)
    requires Truthy(handler)
    ensures ListenersFor(handler, Undefined, handler) == [Listener("load", handler)]
  {
  }

  /** The attributes are exactly the rest props that are neither `undefined`
      nor `null`, each converted to a string. */
  lemma AttributesExactly(props: map<string, Value>, k: string)
    ensures k in ScriptAttributes(Omit(props, NamedProps)) <==>
              k in props && k !in NamedProps && !props[k].Undefined? && !props[k].Null?
    ensures k in ScriptAttributes(Omit(props, NamedProps)) ==> ScriptAttributes(Omit(props, NamedProps))[k] == ToText(props[k])
  {
  }

  /** After cleanup the element has no parent; the other children keep their order. */
  lemma DetachRemoves(page: Page, s: ScriptElement)
    ensures s !in Detach(page, s).head && s !in Detach(page, s).body
    ensures Detach(page, s).head == Without(page.head, s) && Detach(page, s).body == Without(page.body, s)
    ensures Detach(page, s).pending == page.pending
  {
    WithoutMembers(page.head, s, s);
    WithoutMembers(page.body, s, s);
  }

  /** Unmounting before the window's `load` as written: the cleanup finds no
      parent, and the callback registered by the effect still appends the
      element to the body afterwards. */
  method UnmountBeforeWindowLoad() returns (browser: Browser, script: ScriptElement?)
    ensures script != null && script in browser.body
  {
    browser := new Browser("loading", true);
    script := browser.RunEffect(map["src" := Str("/analytics.js")]);
    assert StrategyOf(map["src" := Str("/analytics.js")]) == Str("afterInteractive");
    browser.Cleanup(script);
    browser.RunNextCallback();
  }

  /** The same sequence with a cleanup that cancels the element's callbacks:
      nothing is inserted after unmounting. */
  method UnmountBeforeWindowLoadCancelled() returns (browser: Browser, script: ScriptElement?)
    ensures script != null && script !in browser.head && script !in browser.body && browser.pending == []
  {
    browser := new Browser("loading", true);
    script := browser.RunEffect(map["src" := Str("/analytics.js")]);
    assert StrategyOf(map["src" := Str("/analytics.js")]) == Str("afterInteractive");
    browser.CleanupCancellingCallbacks(script);
  }

  /** The cancelling cleanup leaves the element unattached and with no
      callback that could attach it, whatever was registered before. */
  lemma CancelledCleanupLeavesNoInsertion(page: Page, s: ScriptElement, p: Pending)
    ensures var after := Detach(page, s).(pending := CallbacksNotFor(page.pending, s));
      && s !in after.head && s !in after.body
      && (p in after.pending <==> p in page.pending && p.script != s)
  {
    DetachRemoves(page, s);
    CallbacksNotForMembers(page.pending, s, p);
  }
}
