/** The fallback `<img>` of the framework-agnostic Image component: the
    attributes it renders when the Next.js image is unavailable, and the
    style both branches compute. Props are a record of JavaScript values;
    the element's attributes are the props object React receives. */
module ImageShim {
  import opened JsValues

  /** The props the component destructures by name; every other prop is
      collected into the rest object and spread onto the element. */
  const NamedProps: set<string> := {
    "src", "alt", "width", "height", "fill", "loader", "quality", "priority", "loading",
    "placeholder", "blurDataURL", "unoptimized", "onLoadingComplete", "objectFit",
    "objectPosition", "sizes", "style"
  }

  /** The named props that only the Next.js image understands. */
  const NextOnlyProps: set<string> := {
    "fill", "loader", "quality", "placeholder", "blurDataURL", "unoptimized",
    "onLoadingComplete", "sizes"
  }

  /** The attributes the fallback sets by name, before the rest props. */
  const ImgNamedAttributes: set<string> := {"src", "alt", "width", "height", "loading", "style"}

  /** The positioning keys `fill` forces onto the style. */
  const FillStyle: map<string, Value> := map[
    "position" := Str("absolute"),
    "inset" := Str("0px"),
    "width" := Str("100%"),
    "height" := Str("100%")]

  /** `{ objectFit, objectPosition, ...style }`: the two object-fit keys are
      always present (possibly `undefined`), and the caller's style keys
      are copied over them. */
  function MergeStyle(objectFit: Value, objectPosition: Value, style: Value): (merged: map<string, Value>)
    ensures merged.Keys == {"objectFit", "objectPosition"} + Spread(style).Keys
    ensures forall k :: k in Spread(style) ==> merged[k] == Spread(style)[k]
    ensures "objectFit" !in Spread(style) ==> merged["objectFit"] == objectFit
    ensures "objectPosition" !in Spread(style) ==> merged["objectPosition"] == objectPosition
  {
    map["objectFit" := objectFit, "objectPosition" := objectPosition] + Spread(style)
  }

  /** The style of the fallback `<img>`: the merge, and with a truthy
      `fill` the four positioning keys on top of it. */
  function ImgStyle(objectFit: Value, objectPosition: Value, style: Value, fill: Value): map<string, Value>
  {
    var merged := MergeStyle(objectFit, objectPosition, style);
    if Truthy(fill) then merged + FillStyle else merged
  }

  /** `imgStyle` built and then, when `fill` is set, assigned its
      positioning keys one by one. */
  method FallbackStyle(objectFit: Value, objectPosition: Value, style: Value, fill: Value)
    returns (imgStyle: map<string, Value>)
    ensures imgStyle == ImgStyle(objectFit, objectPosition, style, fill)
  {
    imgStyle := MergeStyle(objectFit, objectPosition, style);
    if Truthy(fill) {
      imgStyle := imgStyle["position" := Str("absolute")];
      imgStyle := imgStyle["inset" := Str("0px")];
      imgStyle := imgStyle["width" := Str("100%")];
      imgStyle := imgStyle["height" := Str("100%")];
    }
  }

  /** `loading = 'lazy'`, then `priority ? 'eager' : loading`. */
  function ImgLoading(props: map<string, Value>): Value
  {
    var loading := Get(props, "loading");
    if Truthy(Get(props, "priority")) then Str("eager")
    else if loading.Undefined? then Str("lazy")
    else loading
  }

  /** The props object of the fallback `<img>`: the named attributes, then
      the rest props spread over them. */
  function ImgAttributes(props: map<string, Value>): map<string, Value>
  {
    map[
      "src" := Get(props, "src"),
      "alt" := Get(props, "alt"),
      "width" := Get(props, "width"),
      "height" := Get(props, "height"),
      "loading" := ImgLoading(props),
      "style" := Obj(ImgStyle(Get(props, "objectFit"), Get(props, "objectPosition"),
                              Get(props, "style"), Get(props, "fill")))]
    + Omit(props, NamedProps)
  }

  /** The fallback render: default `loading`, build the style, then the element's props. */
  method FallbackImage(props: map<string, Value>) returns (attrs: map<string, Value>)
    ensures attrs == ImgAttributes(props)
  {
    var loading := Get(props, "loading");
    if loading.Undefined? {
      loading := Str("lazy");
    }
    var imgStyle := FallbackStyle(Get(props, "objectFit"), Get(props, "objectPosition"),
                                  Get(props, "style"), Get(props, "fill"));
    var rest := Omit(props, NamedProps);
    attrs := map[
      "src" := Get(props, "src"),
      "alt" := Get(props, "alt"),
      "width" := Get(props, "width"),
      "height" := Get(props, "height"),
      "loading" := if Truthy(Get(props, "priority")) then Str("eager") else loading,
      "style" := Obj(imgStyle)]
    + rest;
  }

  /** The Next-only props are all destructured, and none is an attribute
      the fallback sets by name. */
  lemma PropSets()
    ensures NextOnlyProps <= NamedProps
    ensures NextOnlyProps !! ImgNamedAttributes
    ensures ImgNamedAttributes - {"loading", "style"} <= NamedProps
  {
  }

  /** The style the Next.js branch passes: the same merge, with no `fill` positioning. */
  function NextImageStyle(props: map<string, Value>): map<string, Value>
  {
    MergeStyle(Get(props, "objectFit"), Get(props, "objectPosition"), Get(props, "style"))
  }

  // ---------------------------------------------------------------------
  // Properties of the fallback.

  /** With `fill`, the four positioning keys hold their fixed values whatever
      the caller's style says; every other key is the merge's. */
  lemma FillOverridesStyle(objectFit: Value, objectPosition: Value, style: Value, fill: Value)
    requires Truthy(fill)
    ensures var s, merged := ImgStyle(objectFit, objectPosition, style, fill), MergeStyle(objectFit, objectPosition, style);
      && s.Keys == merged.Keys + FillStyle.Keys
      && s["position"] == Str("absolute") && s["inset"] == Str("0px")
      && s["width"] == Str("100%") && s["height"] == Str("100%")
      && (forall k :: k in merged && k !in FillStyle ==> s[k] == merged[k])
  {
  }

  /** Without `fill`, the style is exactly the merge: a positioning key is
      present only when the caller's style supplies it. */
  lemma NoFillIsMerge(objectFit: Value, objectPosition: Value, style: Value, fill: Value)
    requires !Truthy(fill)
    ensures ImgStyle(objectFit, objectPosition, style, fill) == MergeStyle(objectFit, objectPosition, style)
    ensures forall k :: k in FillStyle ==> (k in ImgStyle(objectFit, objectPosition, style, fill) <==> k in Spread(style))
  {
  }

  /** `loading` is "eager" for a truthy `priority`, "lazy" when
      `priority` is falsy and `loading` is absent or `undefined`, and
      otherwise the given value. */
  lemma LoadingChoice(props: map<string, Value>)
    ensures Truthy(Get(props, "priority")) ==> ImgLoading(props) == Str("eager")
    ensures !Truthy(Get(props, "priority")) && Get(props, "loading").Undefined? ==> ImgLoading(props) == Str("lazy")
    ensures !Truthy(Get(props, "priority")) && "loading" in props && !props["loading"].Undefined? ==>
              ImgLoading(props) == props["loading"]
  {
  }

  /** The element gets the six named attributes and the props that are not
      destructured, and never one of the eight Next-only props. */
  lemma AttributeKeys(props: map<string, Value>)
    ensures ImgAttributes(props).Keys == ImgNamedAttributes + (props.Keys - NamedProps)
    ensures forall k :: k in NextOnlyProps ==> k !in ImgAttributes(props)
  {
    PropSets();
  }

  /** `src`, `alt`, `width` and `height` pass through unchanged, and so does
      every prop that is not destructured. */
  lemma AttributesPassThrough(props: map<string, Value>)
    ensures var attrs := ImgAttributes(props);
      && attrs["src"] == Get(props, "src") && attrs["alt"] == Get(props, "alt")
      && attrs["width"] == Get(props, "width") && attrs["height"] == Get(props, "height")
      && (forall k :: k in props && k !in NamedProps ==> k in attrs && attrs[k] == props[k])
  {
  }

  /** The element's `loading` and `style` are the computed ones. */
  lemma LoadingAndStyleAttributes(props: map<string, Value>)
    ensures var attrs := ImgAttributes(props);
      && attrs["loading"] == ImgLoading(props)
      && attrs["style"] == Obj(ImgStyle(Get(props, "objectFit"), Get(props, "objectPosition"),
                                        Get(props, "style"), Get(props, "fill")))
  {
  }

  /** The props the interface declares for Next.js compatibility but does
      not destructure (`layout`, `lazyBoundary`, `lazyRoot`) reach the
      `<img>` unchanged, unlike the eight Next-only props it drops. */
  lemma UndestructuredPropsPassThrough(props: map<string, Value>, k: string)
    requires k in {"layout", "lazyBoundary", "lazyRoot"} && k in props
    ensures k in ImgAttributes(props) && ImgAttributes(props)[k] == props[k]
  {
    assert k !in NamedProps;
    AttributesPassThrough(props);
  }

  /** The Next.js branch merges in the same order, and without `fill` both
      branches compute the same style. */
  lemma NextStyleMatchesFallback(props: map<string, Value>)
    ensures !Truthy(Get(props, "fill")) ==>
      NextImageStyle(props) == ImgStyle(Get(props, "objectFit"), Get(props, "objectPosition"),
                                        Get(props, "style"), Get(props, "fill"))
    ensures forall k :: k in NextImageStyle(props) && k !in FillStyle ==>
      k in ImgStyle(Get(props, "objectFit"), Get(props, "objectPosition"), Get(props, "style"), Get(props, "fill"))
      && NextImageStyle(props)[k] == ImgStyle(Get(props, "objectFit"), Get(props, "objectPosition"),
                                              Get(props, "style"), Get(props, "fill"))[k]
  {
  }
}
