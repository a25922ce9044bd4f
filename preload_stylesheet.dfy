/**
 * One page run of the current module: override the stylesheet links already
 * in `head`, inject a link to the bundled stylesheet if it is not there, and
 * write the page back only if something changed.
 */
module PreloadStylesheet {
  import opened Wrappers
  import opened JsString
  import opened HtmlAst
  import opened AstHelpers
  import opened CreateLink

  /** A `link` tag whose `href` ends with `.css`: the head children `overrideLinks` rewrites. */
  predicate IsCssLink(n: Node) {
    IsTagNamed(n, "link") && "href" in n.attrs && EndsWith(n.attrs["href"], ".css")
  }

  /**
   * Visiting head child `n` in `overrideLinks` throws: a `link` without
   * `href` (`undefined.endsWith`), or a `.css` link whose body tag would be
   * pushed onto a missing `body`.
   */
  predicate ThrowsOn(n: Node, hasBody: bool, preload: PreloadStrategy) {
    IsTagNamed(n, "link") &&
    ("href" !in n.attrs || (EndsWith(n.attrs["href"], ".css") && !hasBody && GetAttrs(preload).body.Some?))
  }

  /** The loop of `overrideLinks` throws: some head child is one that `ThrowsOn` holds of. */
  predicate OverrideThrows(children: seq<Node>, hasBody: bool, preload: PreloadStrategy) {
    exists i :: 0 <= i < |children| && ThrowsOn(children[i], hasBody, preload)
  }

  /** What head child `n` is once `overrideLinks` has visited it. */
  function Overridden(n: Node, preload: PreloadStrategy): (m: Node)
    ensures IsCssLink(m) <==> IsCssLink(n)
    ensures !IsCssLink(n) ==> m == n
  {
    if IsCssLink(n) then
      match CreateLinkTag(n.attrs["href"], preload).headTag
      case Some(t) => t
      case None => n
    else n
  }

  /** The head children after `overrideLinks`: each one rewritten at its own index. */
  function OverrideHead(children: seq<Node>, preload: PreloadStrategy): (r: seq<Node>)
    ensures |r| == |children|
  {
    seq(|children|, i requires 0 <= i < |children| => Overridden(children[i], preload))
  }

  /** The body tag pushed when `overrideLinks` visits head child `n`, if any. */
  function PushedFor(n: Node, preload: PreloadStrategy): (r: seq<Node>)
    ensures |r| <= 1
    ensures r != [] ==> IsCssLink(n) && GetAttrs(preload).body.Some?
  {
    if IsCssLink(n) then
      match CreateLinkTag(n.attrs["href"], preload).bodyTag
      case Some(t) => [t]
      case None => []
    else []
  }

  /** All body tags `overrideLinks` pushes, in the order of the head children. */
  function OverrideBody(children: seq<Node>, preload: PreloadStrategy): seq<Node>
    decreases |children|
  {
    if children == [] then []
    else OverrideBody(children[..|children| - 1], preload) + PushedFor(children[|children| - 1], preload)
  }

  predicate HasCssLink(children: seq<Node>) {
    exists i :: 0 <= i < |children| && IsCssLink(children[i])
  }

  /**
   * One turn of the `for` loop of `overrideLinks`: visit `head.children[i]`;
   * if it is a `.css` link, put the strategy's head tag at index `i` and push
   * its body tag onto `body`.
   */
  method OverrideChild(head: Element, body: Element?, i: nat, preload: PreloadStrategy) returns (found: bool)
    requires head != body
    requires i < |head.children|
    requires !ThrowsOn(head.children[i], body != null, preload)
    modifies head, body
    ensures head.children == old(head.children)[i := Overridden(old(head.children)[i], preload)]
    ensures body != null ==> body.children == old(body.children) + PushedFor(old(head.children)[i], preload)
    ensures found == IsCssLink(old(head.children)[i])
  {
    found := false;
    var node := head.children[i];
    if node.Tag? && node.name == "link" {
      var href := node.attrs["href"];
      if EndsWith(href, ".css") {
        var tags := CreateLinkTag(href, preload);
        if tags.headTag.Some? {
          head.children := head.children[i := tags.headTag.value];
        }
        if tags.bodyTag.Some? {
          body.children := body.children + [tags.bodyTag.value];
        }
        found := true;
      }
    }
  }

  /**
   * `overrideLinks({head, body, preload})`: rewrite, in place, every `.css`
   * link of `head` into the strategy's head tag, push the strategy's body tag
   * for it onto `body`, and report whether any `.css` link was found.
   */
  method OverrideLinks(head: Element, body: Element?, preload: PreloadStrategy) returns (replaced: bool)
    requires head != body
    requires !OverrideThrows(head.children, body != null, preload)
    modifies head, body
    ensures head.children == OverrideHead(old(head.children), preload)
    ensures body != null ==> body.children == old(body.children) + OverrideBody(old(head.children), preload)
    ensures replaced == HasCssLink(old(head.children))
  {
    replaced := false;
    ghost var original := head.children;
    ghost var body0 := if body != null then body.children else [];
    var length := |head.children|;
    assert original[..0] == [] && original[0..] == original;
    for i := 0 to length
      invariant head.children == OverrideHead(original[..i], preload) + original[i..]
      invariant body != null ==> body.children == body0 + OverrideBody(original[..i], preload)
      invariant replaced == HasCssLink(original[..i])
    {
      ghost var before := head.children;
      OverrideHeadSnoc(original, i, preload, before);
      HasCssLinkSnoc(original, i);
      ghost var pushed := if body != null then body.children else [];
      if body != null {
        OverrideBodySnoc(original, i, preload, body0, pushed);
      }
      var found := OverrideChild(head, body, i, preload);
      assert head.children == before[i := Overridden(original[i], preload)];
      assert body != null ==> body.children == pushed + PushedFor(original[i], preload);
      if found {
        replaced := true;
      }
    }
    assert original[..length] == original;
  }

  lemma OverrideHeadSnoc(s: seq<Node>, i: nat, preload: PreloadStrategy, cur: seq<Node>)
    requires i < |s|
    requires cur == OverrideHead(s[..i], preload) + s[i..]
    ensures i < |cur| && cur[i] == s[i]
    ensures cur[i := Overridden(s[i], preload)] == OverrideHead(s[..i + 1], preload) + s[i + 1..]
  {
    var a := (OverrideHead(s[..i], preload) + s[i..])[i := Overridden(s[i], preload)];
    var b := OverrideHead(s[..i + 1], preload) + s[i + 1..];
    assert |a| == |b|;
    forall k | 0 <= k < |a| ensures a[k] == b[k] {
      if k < i {
        assert s[..i][k] == s[..i + 1][k];
      }
    }
  }

  lemma HasCssLinkSnoc(s: seq<Node>, i: nat)
    requires i < |s|
    ensures HasCssLink(s[..i + 1]) == (HasCssLink(s[..i]) || IsCssLink(s[i]))
  {
    assert s[..i + 1][i] == s[i];
    if HasCssLink(s[..i + 1]) {
      var k :| 0 <= k < i + 1 && IsCssLink(s[..i + 1][k]);
      if k < i { assert s[..i][k] == s[..i + 1][k]; }
    }
    if HasCssLink(s[..i]) {
      var k :| 0 <= k < i && IsCssLink(s[..i][k]);
      assert s[..i + 1][k] == s[..i][k];
    }
  }

  lemma OverrideBodySnoc(s: seq<Node>, i: nat, preload: PreloadStrategy, body0: seq<Node>, cur: seq<Node>)
    requires i < |s|
    requires cur == body0 + OverrideBody(s[..i], preload)
    ensures cur + PushedFor(s[i], preload) == body0 + OverrideBody(s[..i + 1], preload)
  {
    assert s[..i + 1][..i] == s[..i];
  }

  /** The `head` and `body` tags of a page (`None` for `undefined`) and the `replaced` flag. */
  datatype Parts = Parts(head: Option<Node>, body: Option<Node>, replaced: bool)

  /** `m` is the tag `n` with possibly other children. */
  predicate SameTag(n: Node, m: Node) {
    n.Tag? && m.Tag? && m == n.(children := m.children)
  }

  /** `q` holds the same tags as `p`, possibly with other children. */
  predicate SameTags(p: Parts, q: Parts) {
    && (p.head.Some? <==> q.head.Some?)
    && (p.body.Some? <==> q.body.Some?)
    && (p.head.Some? ==> SameTag(p.head.value, q.head.value))
    && (p.body.Some? ==> SameTag(p.body.value, q.body.value))
  }

  predicate TagsAreTags(p: Parts) {
    (p.head.Some? ==> p.head.value.Tag?) && (p.body.Some? ==> p.body.value.Tag?)
  }

  /** Overriding runs only when `override` is set and preloading is not disabled. */
  predicate OverrideEnabled(override: bool, preload: PreloadStrategy) {
    override && preload != Disabled
  }

  /** The stylesheet path is given and not empty (JavaScript's `""` is falsy). */
  predicate PathGiven(stylesheetPath: Option<string>) {
    stylesheetPath.Some? && stylesheetPath.value != ""
  }

  /** The override step of the page run: `overrideLinks` runs only when `override` is set and `preload` is not `false`. */
  function OverrideStep(p: Parts, override: bool, preload: PreloadStrategy): (r: Result<Parts, AstError>)
    requires TagsAreTags(p)
    ensures r.Success? ==> SameTags(p, r.value)
    ensures !OverrideEnabled(override, preload) ==> r == Success(p)
    ensures OverrideEnabled(override, preload) ==>
      (r.Failure? <==> p.head.None? || OverrideThrows(p.head.value.children, p.body.Some?, preload))
    ensures r.Success? && OverrideEnabled(override, preload) && p.head.Some? && r.value.head.Some? ==>
      var c := p.head.value.children;
      && r.value.head.value.children == OverrideHead(c, preload)
      && (p.body.Some? && r.value.body.Some? ==> r.value.body.value.children == p.body.value.children + OverrideBody(c, preload))
      && r.value.replaced == HasCssLink(c)
  {
    if !OverrideEnabled(override, preload) then Success(p)
    else if p.head.None? || OverrideThrows(p.head.value.children, p.body.Some?, preload) then Failure(TypeError)
    else
      var c := p.head.value.children;
      Success(Parts(
        Some(p.head.value.(children := OverrideHead(c, preload))),
        if p.body.Some? then Some(p.body.value.(children := p.body.value.children + OverrideBody(c, preload))) else None,
        HasCssLink(c)))
  }

  /** The injection step of the page run: add the link unless `head` already has it. */
  function InjectStep(p: Parts, stylesheetPath: Option<string>, preload: PreloadStrategy): (r: Result<Parts, AstError>)
    requires TagsAreTags(p)
    ensures r.Success? ==> SameTags(p, r.value)
    ensures !PathGiven(stylesheetPath) ==> r == Success(p)
    ensures PathGiven(stylesheetPath) && p.head.Some? && HasLink(p.head.value, stylesheetPath.value) ==> r == Success(p)
    ensures PathGiven(stylesheetPath) ==>
      (r.Failure? <==>
         p.head.None? ||
         (!HasLink(p.head.value, stylesheetPath.value) && GetAttrs(preload).body.Some? && p.body.None?))
    ensures r.Success? && PathGiven(stylesheetPath) && p.head.Some? && !HasLink(p.head.value, stylesheetPath.value) ==>
      var tags := CreateLinkTag(stylesheetPath.value, preload);
      && r.value.replaced
      && r.value.head.Some?
      && r.value.head.value.children == p.head.value.children + (if tags.headTag.Some? then [tags.headTag.value] else [])
      && (tags.bodyTag.Some? ==>
            p.body.Some? && r.value.body.Some? &&
            r.value.body.value.children == p.body.value.children + [tags.bodyTag.value])
      && (tags.bodyTag.None? ==> r.value.body == p.body)
  {
    if !PathGiven(stylesheetPath) then Success(p)
    else if p.head.None? then Failure(TypeError)
    else if HasLink(p.head.value, stylesheetPath.value) then Success(p)
    else
      var tags := CreateLinkTag(stylesheetPath.value, preload);
      if tags.bodyTag.Some? && p.body.None? then Failure(TypeError)
      else
        var head := p.head.value;
        Success(Parts(
          Some(if tags.headTag.Some? then head.(children := head.children + [tags.headTag.value]) else head),
          if tags.bodyTag.Some? then Some(p.body.value.(children := p.body.value.children + [tags.bodyTag.value])) else p.body,
          true))
  }

  /** The `html` tree once the (shared) `head` and `body` objects hold the tags of `p`. */
  function Reassemble(html: Node, hi: Option<nat>, bi: Option<nat>, p: Parts): (t: Node)
    requires html.Tag?
    requires hi.Some? ==> hi.value < |html.children|
    requires bi.Some? ==> bi.value < |html.children|
    ensures SameExceptAt(html, t, hi, bi)
  {
    var c1 := if hi.Some? && p.head.Some? then html.children[hi.value := p.head.value] else html.children;
    var c2 := if bi.Some? && p.body.Some? then c1[bi.value := p.body.value] else c1;
    html.(children := c2)
  }

  /** The end of the page run: the tree as it now stands, and the content written back when `replaced` is set. */
  function Finish(html: Node, hi: Option<nat>, bi: Option<nat>, p: Parts, stringify: seq<Node> -> string): (o: Outcome)
    requires html.Tag?
    requires hi.Some? ==> hi.value < |html.children|
    requires bi.Some? ==> bi.value < |html.children|
    ensures o.write.Some? <==> p.replaced
    ensures o.write.Some? ==> o.write.value == PageContent(o.html, stringify)
    ensures SameExceptAt(html, o.html, hi, bi)
  {
    var updated := Reassemble(html, hi, bi, p);
    Outcome(updated, if p.replaced then Some(PageContent(updated, stringify)) else None)
  }

  /** Where `getTag(tagName, htmlTag)` finds the `head` or `body` tag among the children of `html`. */
  function TagAt(html: Node, tagName: string): (r: Option<nat>)
    requires html.Tag?
    ensures r.Some? ==> r.value < |html.children| && IsTagNamed(html.children[r.value], tagName)
    ensures r.Some? ==> forall j :: 0 <= j < r.value ==> !IsTagNamed(html.children[j], tagName)
    ensures r.None? ==> forall j :: 0 <= j < |html.children| ==> !IsTagNamed(html.children[j], tagName)
  {
    FirstTagIndex(tagName, html.children, None)
  }

  /** The `head` and `body` tags found under `html`, before anything changed. */
  function StartParts(html: Node): (p: Parts)
    requires html.Tag?
    ensures TagsAreTags(p)
    ensures p.head.Some? ==> p.head.value.name == "head"
    ensures p.body.Some? ==> p.body.value.name == "body"
    ensures p.head.None? <==> forall j :: 0 <= j < |html.children| ==> !IsTagNamed(html.children[j], "head")
    ensures p.body.None? <==> forall j :: 0 <= j < |html.children| ==> !IsTagNamed(html.children[j], "body")
    ensures p.head.Some? ==> exists i :: IsFirstQualifying(html.children, i, "head", None) && html.children[i] == p.head.value
    ensures p.body.Some? ==> exists i :: IsFirstQualifying(html.children, i, "body", None) && html.children[i] == p.body.value
    ensures !p.replaced
  {
    var hi := TagAt(html, "head");
    var bi := TagAt(html, "body");
    Parts(
      if hi.Some? then Some(html.children[hi.value]) else None,
      if bi.Some? then Some(html.children[bi.value]) else None,
      false)
  }

  /** The page run from the located `html` tag on. */
  function PreloadHtml(html: Node, stylesheetPath: Option<string>, override: bool, preload: PreloadStrategy,
                       stringify: seq<Node> -> string): Result<Outcome, AstError>
    requires html.Tag?
  {
    var hi := TagAt(html, "head");
    var bi := TagAt(html, "body");
    match OverrideStep(StartParts(html), override, preload)
    case Failure(e) => Failure(e)
    case Success(overridden) =>
      match InjectStep(overridden, stylesheetPath, preload)
      case Failure(e) => Failure(e)
      case Success(injected) => Success(Finish(html, hi, bi, injected, stringify))
  }

  /** The whole page run on the parsed document `doc`. */
  function PreloadPage(doc: seq<Node>, stylesheetPath: Option<string>, override: bool, preload: PreloadStrategy,
                       stringify: seq<Node> -> string): Result<Outcome, AstError>
  {
    if |doc| == 0 then Failure(TypeError)
    else
      var found :- GetTag("html", doc[0], None);
      if found.None? then Failure(TypeError)
      else PreloadHtml(found.value, stylesheetPath, override, preload, stringify)
  }

  /** The tags the `head` and `body` objects (either may be `undefined`) currently stand for. */
  function PartsOf(head: Element?, body: Element?, replaced: bool): (p: Parts)
    reads head, body
    ensures TagsAreTags(p)
  {
    Parts(if head != null then Some(head.Value()) else None,
          if body != null then Some(body.Value()) else None, replaced)
  }

  /**
   * `preloadStylesheets({htmlPath, stylesheetPath, override, preload})`, from
   * the parsed document to the decision whether and what to write back.
   */
  method PreloadStylesheets(doc: seq<Node>, stylesheetPath: Option<string>, override: bool,
                            preload: PreloadStrategy, stringify: seq<Node> -> string)
    returns (r: Result<Outcome, AstError>)
    ensures r == PreloadPage(doc, stylesheetPath, override, preload, stringify)
  {
    if |doc| == 0 {
      return Failure(TypeError);
    }
    var found := GetTag("html", doc[0], None);
    if found.Failure? {
      return Failure(found.error);
    }
    if found.value.None? {
      return Failure(TypeError);
    }
    r := TransformHtml(found.value.value, stylesheetPath, override, preload, stringify);
  }

  /**
   * The override step of `preloadStylesheets`: `replaced` starts false and is
   * set by `overrideLinks` when overriding is enabled.
   */
  method OverrideIfEnabled(head: Element?, body: Element?, override: bool, preload: PreloadStrategy)
    returns (r: Result<bool, AstError>)
    requires head == null || head != body
    modifies head, body
    ensures OverrideStep(old(PartsOf(head, body, false)), override, preload) ==
      if r.Success? then Success(PartsOf(head, body, r.value)) else Failure(r.error)
  {
    r := Success(false);
    if override && preload != Disabled {
      if head == null || OverrideThrows(head.children, body != null, preload) {
        return Failure(TypeError);
      }
      var replaced := OverrideLinks(head, body, preload);
      r := Success(replaced);
    }
  }

  /**
   * The injection step of `preloadStylesheets`: unless `head` already links to the
   * stylesheet, push the strategy's head tag onto `head` and its body tag
   * onto `body`, and set `replaced`.
   */
  method InjectStylesheet(head: Element?, body: Element?, stylesheetPath: Option<string>,
                          preload: PreloadStrategy, replaced: bool)
    returns (r: Result<bool, AstError>)
    requires head == null || head != body
    modifies head, body
    ensures InjectStep(old(PartsOf(head, body, replaced)), stylesheetPath, preload) ==
      if r.Success? then Success(PartsOf(head, body, r.value)) else Failure(r.error)
  {
    r := Success(replaced);
    if stylesheetPath.Some? && stylesheetPath.value != "" {
      if head == null {
        return Failure(TypeError);
      }
      if !HasLink(head.Value(), stylesheetPath.value) {
        var tags := CreateLinkTag(stylesheetPath.value, preload);
        if tags.headTag.Some? {
          head.children := head.children + [tags.headTag.value];
        }
        if tags.bodyTag.Some? {
          if body == null {
            return Failure(TypeError);
          }
          body.children := body.children + [tags.bodyTag.value];
        }
        r := Success(true);
      }
    }
  }

  /** The `head` and `body` objects `preloadStylesheets` finds under `html`, or `undefined`. */
  method LocateTags(html: Node) returns (head: Element?, body: Element?)
    requires html.Tag?
    ensures head == null || head != body
    ensures head != null ==> fresh(head)
    ensures body != null ==> fresh(body)
    ensures PartsOf(head, body, false) == StartParts(html)
  {
    var hi := TagAt(html, "head");
    var bi := TagAt(html, "body");
    head := null;
    if hi.Some? {
      head := new Element(html.children[hi.value]);
    }
    body := null;
    if bi.Some? {
      body := new Element(html.children[bi.value]);
    }
  }

  /** The page run of `preloadStylesheets` once `html` is located: locate, override, inject, decide the write. */
  method TransformHtml(html: Node, stylesheetPath: Option<string>, override: bool,
                       preload: PreloadStrategy, stringify: seq<Node> -> string)
    returns (r: Result<Outcome, AstError>)
    requires html.Tag?
    ensures r == PreloadHtml(html, stylesheetPath, override, preload, stringify)
  {
    var hi := TagAt(html, "head");
    var bi := TagAt(html, "body");
    var head, body := LocateTags(html);
    ghost var p0 := StartParts(html);
    var overridden := OverrideIfEnabled(head, body, override, preload);
    if overridden.Failure? {
      PreloadHtmlOverrideFails(html, stylesheetPath, override, preload, stringify, overridden.error);
      return Failure(overridden.error);
    }
    var replaced := overridden.value;
    ghost var p1 := PartsOf(head, body, replaced);

    var injected := InjectStylesheet(head, body, stylesheetPath, preload, replaced);
    if injected.Failure? {
      PreloadHtmlInjectFails(html, stylesheetPath, override, preload, stringify, p1, injected.error);
      return Failure(injected.error);
    }
    replaced := injected.value;
    var now := PartsOf(head, body, replaced);
    PreloadHtmlSucceeds(html, stylesheetPath, override, preload, stringify, p1, now);
    r := Success(Finish(html, hi, bi, now, stringify));
  }

  lemma PreloadHtmlOverrideFails(html: Node, stylesheetPath: Option<string>, override: bool,
                                 preload: PreloadStrategy, stringify: seq<Node> -> string, e: AstError)
    requires html.Tag?
    requires OverrideStep(StartParts(html), override, preload) == Failure(e)
    ensures PreloadHtml(html, stylesheetPath, override, preload, stringify) == Failure(e)
  {
  }

  lemma PreloadHtmlInjectFails(html: Node, stylesheetPath: Option<string>, override: bool,
                               preload: PreloadStrategy, stringify: seq<Node> -> string, p1: Parts, e: AstError)
    requires html.Tag?
    requires OverrideStep(StartParts(html), override, preload) == Success(p1)
    requires InjectStep(p1, stylesheetPath, preload) == Failure(e)
    ensures PreloadHtml(html, stylesheetPath, override, preload, stringify) == Failure(e)
  {
  }

  lemma PreloadHtmlSucceeds(html: Node, stylesheetPath: Option<string>, override: bool,
                            preload: PreloadStrategy, stringify: seq<Node> -> string, p1: Parts, p2: Parts)
    requires html.Tag?
    requires OverrideStep(StartParts(html), override, preload) == Success(p1)
    requires InjectStep(p1, stylesheetPath, preload) == Success(p2)
    ensures PreloadHtml(html, stylesheetPath, override, preload, stringify) ==
      Success(Finish(html, TagAt(html, "head"), TagAt(html, "body"), p2, stringify))
  {
  }

  // ---------------------------------------------------------------------
  // Properties of overriding
  // ---------------------------------------------------------------------

  /** Rewriting a head child never changes which stylesheet, if any, it links to. */
  lemma OverriddenKeepsTarget(n: Node, preload: PreloadStrategy, href: string)
    ensures LinksTo(Overridden(n, preload), href) <==> LinksTo(n, href)
  {
  }

  /** `hasLink(head, h)` has the same value before and after `overrideLinks`, for every `h`. */
  lemma OverridePreservesHasLink(head: Node, preload: PreloadStrategy, href: string)
    requires head.Tag?
    ensures HasLink(head.(children := OverrideHead(head.children, preload)), href) == HasLink(head, href)
  {
    var c := head.children;
    var d := OverrideHead(c, preload);
    forall i | 0 <= i < |c|
      ensures LinksTo(d[i], href) <==> LinksTo(c[i], href)
    {
      OverriddenKeepsTarget(c[i], preload, href);
    }
  }

  /**
   * `overrideLinks` keeps the number of head children, replaces each `.css`
   * link at its own index by the strategy's head tag, and leaves every other
   * child alone; with the `body` strategy it changes nothing in `head`.
   */
  lemma OverrideHeadInPlace(c: seq<Node>, preload: PreloadStrategy)
    ensures |OverrideHead(c, preload)| == |c|
    ensures forall i :: 0 <= i < |c| && !IsCssLink(c[i]) ==> OverrideHead(c, preload)[i] == c[i]
    ensures forall i :: 0 <= i < |c| && IsCssLink(c[i]) && GetAttrs(preload).head.Some? ==>
      OverrideHead(c, preload)[i] == LinkNode(c[i].attrs["href"], GetAttrs(preload).head.value)
    ensures GetAttrs(preload).head.None? ==> OverrideHead(c, preload) == c
  {
  }

  /** Overriding its own output changes nothing more in `head`. */
  lemma OverrideHeadIdempotent(c: seq<Node>, preload: PreloadStrategy)
    ensures OverrideHead(OverrideHead(c, preload), preload) == OverrideHead(c, preload)
  {
    var d := OverrideHead(c, preload);
    forall i | 0 <= i < |c|
      ensures Overridden(d[i], preload) == d[i]
    {
      var n := c[i];
      if IsCssLink(n) && GetAttrs(preload).head.Some? {
        var t := CreateLinkTag(n.attrs["href"], preload).headTag.value;
        assert d[i] == t;
        assert t.attrs["href"] == n.attrs["href"];
        assert IsCssLink(t);
      }
    }
  }

  /** The number of `.css` links among `c`. */
  function CssLinkCount(c: seq<Node>): nat
    decreases |c|
  {
    if c == [] then 0
    else CssLinkCount(c[..|c| - 1]) + (if IsCssLink(c[|c| - 1]) then 1 else 0)
  }

  /** `body` gains one tag per `.css` link in `head` when the strategy has body attributes, and none otherwise. */
  lemma {:induction false} OverrideBodyCount(c: seq<Node>, preload: PreloadStrategy)
    ensures |OverrideBody(c, preload)| == if GetAttrs(preload).body.Some? then CssLinkCount(c) else 0
    decreases |c|
  {
    if c != [] {
      OverrideBodyCount(c[..|c| - 1], preload);
    }
  }

  /** Every tag `overrideLinks` pushes onto `body` is the strategy's body link to a `.css` stylesheet. */
  lemma {:induction false} OverrideBodyTagsAreStylesheets(c: seq<Node>, preload: PreloadStrategy)
    ensures forall t :: t in OverrideBody(c, preload) ==>
      GetAttrs(preload).body.Some? && t.Tag? && "href" in t.attrs && EndsWith(t.attrs["href"], ".css") &&
      t == LinkNode(t.attrs["href"], GetAttrs(preload).body.value)
    decreases |c|
  {
    if c != [] {
      OverrideBodyTagsAreStylesheets(c[..|c| - 1], preload);
    }
  }

  /**
   * Running `overrideLinks` again on its own output pushes the very same
   * body tags a second time: overriding is not idempotent for `body`.
   */
  lemma {:induction false} OverrideAgainPushesSameTags(c: seq<Node>, preload: PreloadStrategy)
    ensures OverrideBody(OverrideHead(c, preload), preload) == OverrideBody(c, preload)
    decreases |c|
  {
    if c != [] {
      var k := |c| - 1;
      var d := OverrideHead(c, preload);
      assert d[..k] == OverrideHead(c[..k], preload);
      OverrideAgainPushesSameTags(c[..k], preload);
      var n := c[k];
      if IsCssLink(n) && GetAttrs(preload).head.Some? {
        var t := CreateLinkTag(n.attrs["href"], preload).headTag.value;
        assert d[k] == t && t.attrs["href"] == n.attrs["href"];
      }
      assert PushedFor(d[k], preload) == PushedFor(n, preload);
    }
  }

  // ---------------------------------------------------------------------
  // Reassembling the tree
  // ---------------------------------------------------------------------

  /** Putting back the tags that were taken out gives the tree unchanged. */
  lemma ReassembleUnchanged(html: Node)
    requires html.Tag?
    ensures Reassemble(html, TagAt(html, "head"), TagAt(html, "body"), StartParts(html)) == html
  {
    var c := html.children;
    var hi, bi := TagAt(html, "head"), TagAt(html, "body");
    if hi.Some? { assert c[hi.value := c[hi.value]] == c; }
    if bi.Some? { assert c[bi.value := c[bi.value]] == c; }
  }

  /** In the reassembled tree, `getTag` finds the updated `head` and `body` at the same places. */
  lemma ReassembleLocates(html: Node, p: Parts)
    requires html.Tag?
    requires SameTags(StartParts(html), p)
    ensures var t := Reassemble(html, TagAt(html, "head"), TagAt(html, "body"), p);
      t.Tag? && TagAt(t, "head") == TagAt(html, "head") && TagAt(t, "body") == TagAt(html, "body") && StartParts(t) == p.(replaced := false)
  {
    var c := html.children;
    var hi, bi := TagAt(html, "head"), TagAt(html, "body");
    var t := Reassemble(html, hi, bi, p);
    var d := t.children;
    assert |d| == |c|;
    forall k | 0 <= k < |c|
      ensures IsTagNamed(d[k], "head") <==> IsTagNamed(c[k], "head")
      ensures IsTagNamed(d[k], "body") <==> IsTagNamed(c[k], "body")
    {
    }
    FirstTagIndexSamePattern("head", c, d, None);
    FirstTagIndexSamePattern("body", c, d, None);
  }

  // ---------------------------------------------------------------------
  // Properties of a page run
  // ---------------------------------------------------------------------

  /** A page without `head` fails as soon as overriding or injection needs it. */
  lemma MissingHeadFails(html: Node, stylesheetPath: Option<string>, override: bool, preload: PreloadStrategy,
                         stringify: seq<Node> -> string)
    requires html.Tag?
    requires TagAt(html, "head").None?
    ensures OverrideEnabled(override, preload) || PathGiven(stylesheetPath) <==>
      PreloadHtml(html, stylesheetPath, override, preload, stringify) == Failure(TypeError)
  {
    if !OverrideEnabled(override, preload) && !PathGiven(stylesheetPath) {
      assert PreloadHtml(html, stylesheetPath, override, preload, stringify).Success?;
    }
  }

  /** With nothing to inject and overriding off, the page is left untouched and not written. */
  lemma NothingToDoWritesNothing(html: Node, stylesheetPath: Option<string>, override: bool, preload: PreloadStrategy,
                                 stringify: seq<Node> -> string)
    requires html.Tag?
    requires !PathGiven(stylesheetPath) && !OverrideEnabled(override, preload)
    ensures PreloadHtml(html, stylesheetPath, override, preload, stringify) == Success(Outcome(html, None))
  {
    ReassembleUnchanged(html);
  }

  /**
   * The page is written exactly when overriding found a `.css` link or a new
   * link was injected, and what is written is the doctype line followed by
   * the serialized `html` tree.
   */
  lemma WriteIffReplaced(html: Node, stylesheetPath: Option<string>, override: bool, preload: PreloadStrategy,
                         stringify: seq<Node> -> string)
    requires html.Tag?
    requires PreloadHtml(html, stylesheetPath, override, preload, stringify).Success?
    ensures var o := PreloadHtml(html, stylesheetPath, override, preload, stringify).value;
      var head := StartParts(html).head;
      && (o.write.Some? <==>
           head.Some? &&
           ((OverrideEnabled(override, preload) && HasCssLink(head.value.children)) ||
            (PathGiven(stylesheetPath) && !HasLink(head.value, stylesheetPath.value))))
      && (o.write.Some? ==> o.write.value == PageContent(o.html, stringify))
  {
    var p0 := StartParts(html);
    if OverrideEnabled(override, preload) && PathGiven(stylesheetPath) {
      OverridePreservesHasLink(p0.head.value, preload, stylesheetPath.value);
    }
  }

  /**
   * Without overriding, injection appends the strategy's head tag as the
   * last child of `head` and its body tag as the last child of `body`.
   */
  lemma InjectionAppends(html: Node, stylesheetPath: Option<string>, preload: PreloadStrategy,
                         stringify: seq<Node> -> string)
    requires html.Tag?
    requires PathGiven(stylesheetPath)
    requires StartParts(html).head.Some? && !HasLink(StartParts(html).head.value, stylesheetPath.value)
    requires PreloadHtml(html, stylesheetPath, false, preload, stringify).Success?
    ensures PreloadHtml(html, stylesheetPath, false, preload, stringify).value.write.Some?
    ensures SameExceptAt(html, PreloadHtml(html, stylesheetPath, false, preload, stringify).value.html,
                         TagAt(html, "head"), TagAt(html, "body"))
    ensures var o := PreloadHtml(html, stylesheetPath, false, preload, stringify).value;
      var p0 := StartParts(html);
      var tags := CreateLinkTag(stylesheetPath.value, preload);
      && o.html.Tag?
      && StartParts(o.html).head == Some(p0.head.value.(children := p0.head.value.children +
           (if tags.headTag.Some? then [tags.headTag.value] else [])))
      && (tags.bodyTag.Some? ==>
           p0.body.Some? &&
           StartParts(o.html).body == Some(p0.body.value.(children := p0.body.value.children + [tags.bodyTag.value])))
      && (tags.bodyTag.None? ==> StartParts(o.html).body == p0.body)
  {
    var p0 := StartParts(html);
    var tags := CreateLinkTag(stylesheetPath.value, preload);
    assert OverrideStep(p0, false, preload) == Success(p0);
    var head := p0.head.value;
    assert InjectStep(p0, stylesheetPath, preload).Success?;
    var p1 := InjectStep(p0, stylesheetPath, preload).value;
    assert p1.replaced;
    assert p1.head == Some(if tags.headTag.Some? then head.(children := head.children + [tags.headTag.value]) else head);
    assert tags.bodyTag.Some? ==> p0.body.Some? && p1.body == Some(p0.body.value.(children := p0.body.value.children + [tags.bodyTag.value]));
    assert tags.bodyTag.None? ==> p1.body == p0.body;
    var o := Finish(html, TagAt(html, "head"), TagAt(html, "body"), p1, stringify);
    assert PreloadHtml(html, stylesheetPath, false, preload, stringify) == Success(o);
    ReassembleLocates(html, p1);
    assert StartParts(o.html) == p1.(replaced := false);
    assert o.write.Some?;
    assert p1.head.value.children == head.children + (if tags.headTag.Some? then [tags.headTag.value] else []);
  }

  /**
   * Without overriding, and for every strategy that puts a tag in `head`,
   * running the page again on the tree the first run produced injects
   * nothing and writes nothing.
   */
  lemma SecondRunWritesNothing(html: Node, stylesheetPath: Option<string>, preload: PreloadStrategy,
                               stringify: seq<Node> -> string)
    requires html.Tag?
    requires preload != Body
    requires PreloadHtml(html, stylesheetPath, false, preload, stringify).Success?
    ensures var o := PreloadHtml(html, stylesheetPath, false, preload, stringify).value;
      o.html.Tag? && PreloadHtml(o.html, stylesheetPath, false, preload, stringify) == Success(Outcome(o.html, None))
  {
    var p0 := StartParts(html);
    var p1 := InjectStep(p0, stylesheetPath, preload).value;
    var o := PreloadHtml(html, stylesheetPath, false, preload, stringify).value;
    ReassembleLocates(html, p1);
    assert StartParts(o.html) == p1.(replaced := false);
    if PathGiven(stylesheetPath) && !HasLink(p0.head.value, stylesheetPath.value) {
      var t := CreateLinkTag(stylesheetPath.value, preload).headTag.value;
      assert LinksTo(t, stylesheetPath.value);
      HasLinkAfterAppendingLink(p0.head.value, [t], stylesheetPath.value);
    }
    assert InjectStep(StartParts(o.html), stylesheetPath, preload) == Success(StartParts(o.html));
    ReassembleUnchanged(o.html);
  }

  /**
   * With the `body` strategy the same second run injects again: `hasLink`
   * looks only in `head`, where this strategy puts nothing, so `body` gains
   * another link to the same stylesheet and the page is written again.
   */
  lemma BodyStrategyInjectsAgain(html: Node, stylesheetPath: Option<string>, stringify: seq<Node> -> string)
    requires html.Tag?
    requires PreloadHtml(html, stylesheetPath, false, Body, stringify).Success?
    requires PreloadHtml(html, stylesheetPath, false, Body, stringify).value.write.Some?
    ensures var o := PreloadHtml(html, stylesheetPath, false, Body, stringify).value;
      && o.html.Tag?
      && PreloadHtml(o.html, stylesheetPath, false, Body, stringify).Success?
      && var again := PreloadHtml(o.html, stylesheetPath, false, Body, stringify).value;
      && again.write.Some?
      && again.html.Tag?
      && PathGiven(stylesheetPath)
      && StartParts(again.html).head == StartParts(o.html).head
      && StartParts(o.html).body.Some? && StartParts(again.html).body.Some?
      && StartParts(again.html).body.value.children ==
           StartParts(o.html).body.value.children + [LinkNode(stylesheetPath.value, map["rel" := "stylesheet"])]
  {
    var p0 := StartParts(html);
    var p1 := InjectStep(p0, stylesheetPath, Body).value;
    var o := PreloadHtml(html, stylesheetPath, false, Body, stringify).value;
    ReassembleLocates(html, p1);
    assert p1.head == p0.head;
    var p2 := InjectStep(p1.(replaced := false), stylesheetPath, Body).value;
    ReassembleLocates(o.html, p2);
  }

  /** With `preload` set to `false`, the `override` flag makes no difference: overriding never runs. */
  lemma DisabledStrategyNeverOverrides(html: Node, stylesheetPath: Option<string>, stringify: seq<Node> -> string)
    requires html.Tag?
    ensures PreloadHtml(html, stylesheetPath, true, Disabled, stringify) == PreloadHtml(html, stylesheetPath, false, Disabled, stringify)
  {
  }

  /**
   * With overriding on, and a stylesheet path that `head` does not link to yet
   * and no `.css` link to throw on, `head` ends up as its overridden children
   * followed by the injected head tag, and `body` as its own children, then the
   * override's body tags, then the injected body tag.
   */
  lemma OverrideThenInject(html: Node, stylesheetPath: Option<string>, preload: PreloadStrategy,
                           stringify: seq<Node> -> string)
    requires html.Tag?
    requires OverrideEnabled(true, preload) && PathGiven(stylesheetPath)
    requires StartParts(html).head.Some? && !HasLink(StartParts(html).head.value, stylesheetPath.value)
    requires PreloadHtml(html, stylesheetPath, true, preload, stringify).Success?
    ensures var o := PreloadHtml(html, stylesheetPath, true, preload, stringify).value;
      var p0 := StartParts(html);
      var c := p0.head.value.children;
      var tags := CreateLinkTag(stylesheetPath.value, preload);
      && o.write.Some?
      && o.html.Tag?
      && SameExceptAt(html, o.html, TagAt(html, "head"), TagAt(html, "body"))
      && StartParts(o.html).head == Some(p0.head.value.(children := OverrideHead(c, preload) +
           (if tags.headTag.Some? then [tags.headTag.value] else [])))
      && (tags.bodyTag.Some? ==>
           p0.body.Some? &&
           StartParts(o.html).body == Some(p0.body.value.(children :=
             p0.body.value.children + OverrideBody(c, preload) + [tags.bodyTag.value])))
      && (tags.bodyTag.None? ==> StartParts(o.html).body == p0.body)
  {
    var p0 := StartParts(html);
    var c := p0.head.value.children;
    OverrideBodyCount(c, preload);
    var p1 := OverrideStep(p0, true, preload).value;
    OverridePreservesHasLink(p0.head.value, preload, stylesheetPath.value);
    assert p1.head == Some(p0.head.value.(children := OverrideHead(c, preload)));
    if GetAttrs(preload).body.None? && p0.body.Some? {
      assert p1.body.value.children == p0.body.value.children + OverrideBody(c, preload) == p0.body.value.children;
    }
    var p2 := InjectStep(p1, stylesheetPath, preload).value;
    var o := Finish(html, TagAt(html, "head"), TagAt(html, "body"), p2, stringify);
    assert PreloadHtml(html, stylesheetPath, true, preload, stringify) == Success(o);
    ReassembleLocates(html, p2);
    assert StartParts(o.html) == p2.(replaced := false);
  }

  /** A page with empty `head` and `body`, the `default` strategy and `/style.css`. */
  lemma EndToEndDefault(stringify: seq<Node> -> string)
    ensures var html := Tag("html", map[], [Tag("head", map[], [], false), Tag("body", map[], [], false)], false);
      var expected := Tag("html", map[], [
        Tag("head", map[], [Tag("link", map["href" := "/style.css", "rel" := "preload", "as" := "style"], [], true)], false),
        Tag("body", map[], [Tag("link", map["href" := "/style.css", "rel" := "stylesheet"], [], true)], false)], false);
      PreloadHtml(html, Some("/style.css"), false, Default, stringify) == Success(Outcome(expected, Some(PageContent(expected, stringify))))
  {
    var html := Tag("html", map[], [Tag("head", map[], [], false), Tag("body", map[], [], false)], false);
    var head := Tag("head", map[], [], false);
    var body := Tag("body", map[], [], false);
    assert TagAt(html, "head") == Some(0);
    assert "head" != "body";
    assert TagAt(html, "body") == Some(1);
    assert StartParts(html) == Parts(Some(head), Some(body), false);
    assert !HasLink(head, "/style.css");
    DefaultHeadTag("/style.css");
    var tags := CreateLinkTag("/style.css", Default);
    var p1 := Parts(Some(head.(children := [tags.headTag.value])), Some(body.(children := [tags.bodyTag.value])), true);
    assert PathGiven(Some("/style.css"));
    assert head.children + [tags.headTag.value] == [tags.headTag.value];
    assert body.children + [tags.bodyTag.value] == [tags.bodyTag.value];
    assert InjectStep(StartParts(html), Some("/style.css"), Default) == Success(p1);
    assert OverrideStep(StartParts(html), false, Default) == Success(StartParts(html));
    assert Reassemble(html, Some(0), Some(1), p1).children == [p1.head.value, p1.body.value];
  }
}
