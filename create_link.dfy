/** The preload strategies and the `<link>` tags each one produces. */
module CreateLink {
  import opened Wrappers
  import opened HtmlAst

  /** `"default" | "swap" | "swap-high" | "body" | false`; `Disabled` is the literal `false`. */
  datatype PreloadStrategy = Default | Swap | SwapHigh | Body | Disabled

  type Attrs = map<string, string>

  /** The attributes of the tag to put in `head` and of the tag to put in `body`; `None` means no tag there. */
  datatype StrategyAttrs = StrategyAttrs(head: Option<Attrs>, body: Option<Attrs>)

  /** The tags `createLinkTag` returns, either of which may be absent. */
  datatype LinkTags = LinkTags(headTag: Option<Node>, bodyTag: Option<Node>)

  /** `getAttrs(strategy)`. */
  function GetAttrs(strategy: PreloadStrategy): (r: StrategyAttrs)
    ensures r.head.Some? <==> strategy != Body
    ensures r.body.Some? <==> strategy == Default || strategy == Body
    ensures r.body.Some? ==> r.body.value == map["rel" := "stylesheet"]
    ensures r.head.Some? ==> "rel" in r.head.value && "href" !in r.head.value
  {
    match strategy
    case Default => StrategyAttrs(Some(map["rel" := "preload", "as" := "style"]), Some(map["rel" := "stylesheet"]))
    case Body => StrategyAttrs(None, Some(map["rel" := "stylesheet"]))
    case Swap => StrategyAttrs(Some(map["rel" := "stylesheet", "media" := "print", "onload" := "this.media='all'"]), None)
    case SwapHigh => StrategyAttrs(Some(map["rel" := "alternate stylesheet preload", "as" := "style", "onload" := "this.rel='stylesheet'"]), None)
    case Disabled => StrategyAttrs(Some(map["rel" := "stylesheet"]), None)
  }

  /** Every strategy yields at least one tag; only `default` yields two. */
  lemma EveryStrategyYieldsATag(strategy: PreloadStrategy)
    ensures GetAttrs(strategy).head.Some? || GetAttrs(strategy).body.Some?
    ensures GetAttrs(strategy).head.Some? && GetAttrs(strategy).body.Some? <==> strategy == Default
  {
  }

  /** The full strategy table, key for key. */
  lemma StrategyTable()
    ensures GetAttrs(Default) == StrategyAttrs(Some(map["rel" := "preload", "as" := "style"]), Some(map["rel" := "stylesheet"]))
    ensures GetAttrs(Body) == StrategyAttrs(None, Some(map["rel" := "stylesheet"]))
    ensures GetAttrs(Swap).head == Some(map["rel" := "stylesheet", "media" := "print", "onload" := "this.media='all'"])
    ensures GetAttrs(SwapHigh).head == Some(map["rel" := "alternate stylesheet preload", "as" := "style", "onload" := "this.rel='stylesheet'"])
    ensures GetAttrs(Disabled) == StrategyAttrs(Some(map["rel" := "stylesheet"]), None)
  {
  }

  /** `n` is a childless void `link` whose `href` is `href` and whose other attributes are exactly `extra`. */
  predicate IsLinkTagFor(n: Node, href: string, extra: Attrs) {
    && n.Tag? && n == Tag("link", n.attrs, [], true)
    && n.attrs.Keys == extra.Keys + {"href"}
    && n.attrs["href"] == href
    && forall k :: k in extra ==> n.attrs[k] == extra[k]
  }

  /** `n` is a childless void `link` whose `href` is `href`. */
  predicate IsVoidLinkTo(n: Node, href: string) {
    n.Tag? && n.name == "link" && n.voidElement && n.children == [] && "href" in n.attrs && n.attrs["href"] == href
  }

  /** A childless void `link` tag whose attributes are `href` followed by the extra ones; an extra key wins over `href`. */
  function LinkNode(href: string, extra: Attrs): Node {
    Tag("link", map["href" := href] + extra, [], true)
  }

  /**
   * `createLinkTag(cssFilePath, preload)`: a head tag exactly when the
   * strategy has head attributes and a body tag exactly when it has body
   * attributes, each a void `link` to `cssFilePath`.
   */
  function CreateLinkTag(cssFilePath: string, preload: PreloadStrategy): (r: LinkTags)
    ensures r.headTag.Some? <==> GetAttrs(preload).head.Some?
    ensures r.bodyTag.Some? <==> GetAttrs(preload).body.Some?
    ensures r.headTag.Some? ==> IsVoidLinkTo(r.headTag.value, cssFilePath)
    ensures r.bodyTag.Some? ==> IsVoidLinkTo(r.bodyTag.value, cssFilePath)
  {
    var attrs := GetAttrs(preload);
    LinkTags(
      if attrs.head.Some? then Some(LinkNode(cssFilePath, attrs.head.value)) else None,
      if attrs.body.Some? then Some(LinkNode(cssFilePath, attrs.body.value)) else None)
  }

  /** Each produced tag's attributes are `href` plus exactly the strategy's attributes for that side. */
  lemma LinkTagAttrs(cssFilePath: string, preload: PreloadStrategy)
    ensures var r := CreateLinkTag(cssFilePath, preload);
      && (r.headTag.Some? ==> IsLinkTagFor(r.headTag.value, cssFilePath, GetAttrs(preload).head.value))
      && (r.bodyTag.Some? ==> IsLinkTagFor(r.bodyTag.value, cssFilePath, GetAttrs(preload).body.value))
  {
  }

  /** The head tag of the `default` strategy, attribute for attribute. */
  lemma DefaultHeadTag(cssFilePath: string)
    ensures CreateLinkTag(cssFilePath, Default).headTag ==
      Some(Tag("link", map["href" := cssFilePath, "rel" := "preload", "as" := "style"], [], true))
    ensures CreateLinkTag(cssFilePath, Default).bodyTag ==
      Some(Tag("link", map["href" := cssFilePath, "rel" := "stylesheet"], [], true))
  {
    assert map["href" := cssFilePath] + map["rel" := "preload", "as" := "style"]
        == map["href" := cssFilePath, "rel" := "preload", "as" := "style"];
    assert map["href" := cssFilePath] + map["rel" := "stylesheet"]
        == map["href" := cssFilePath, "rel" := "stylesheet"];
  }
}
