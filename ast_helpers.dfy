/** Queries on the parsed tree: find a child tag, test for an existing link. */
module AstHelpers {
  import opened Wrappers
  import opened HtmlAst

  /** The child `n` passes both filters of `getTag`: the tag name, then the optional filter. */
  predicate Qualifies(n: Node, tagName: string, filter: Option<Node -> bool>) {
    IsTagNamed(n, tagName) && (filter.None? || filter.value(n))
  }

  /** Index `i` holds the first child of `children` that qualifies. */
  predicate IsFirstQualifying(children: seq<Node>, i: int, tagName: string, filter: Option<Node -> bool>) {
    && 0 <= i < |children|
    && Qualifies(children[i], tagName, filter)
    && forall j :: 0 <= j < i ==> !Qualifies(children[j], tagName, filter)
  }

  /** The position of the element at the head of the filtered list, if the list is not empty. */
  function FirstTagIndex(tagName: string, children: seq<Node>, filter: Option<Node -> bool>): (r: Option<nat>)
    ensures r.Some? ==> IsFirstQualifying(children, r.value, tagName, filter)
    ensures r.None? ==> forall j :: 0 <= j < |children| ==> !Qualifies(children[j], tagName, filter)
    decreases |children|
  {
    if children == [] then None
    else if Qualifies(children[0], tagName, filter) then Some(0)
    else
      match FirstTagIndex(tagName, children[1..], filter)
      case None => None
      case Some(k) => Some(k + 1)
  }

  /**
   * `getTag(tagName, ast, filter)`: the first child of `ast`, in order, that
   * is a tag called `tagName` and passes `filter`; `None` (JavaScript's
   * `undefined`) when no child does; an error when `ast` is not a tag.
   */
  function GetTag(tagName: string, ast: Node, filter: Option<Node -> bool>): (r: Result<Option<Node>, AstError>)
    ensures r.Failure? <==> ast.Text?
    ensures r.Failure? ==> r.error == NotATagElement
    ensures r.Success? && r.value.Some? ==>
      exists i :: IsFirstQualifying(ast.children, i, tagName, filter) && ast.children[i] == r.value.value
    ensures r.Success? && r.value.None? ==>
      forall j :: 0 <= j < |ast.children| ==> !Qualifies(ast.children[j], tagName, filter)
  {
    if ast.Tag? then
      match FirstTagIndex(tagName, ast.children, filter)
      case None => Success(None)
      case Some(i) => Success(Some(ast.children[i]))
    else
      Failure(NotATagElement)
  }

  /** Without a filter, every tag child with the right name qualifies, and nothing else does. */
  /** `getTag` sees the same positions in two sequences that agree on which children qualify. */
  lemma {:induction false} FirstTagIndexSamePattern(tagName: string, c: seq<Node>, d: seq<Node>, filter: Option<Node -> bool>)
    requires |c| == |d|
    requires forall k :: 0 <= k < |c| ==> (Qualifies(c[k], tagName, filter) <==> Qualifies(d[k], tagName, filter))
    ensures FirstTagIndex(tagName, c, filter) == FirstTagIndex(tagName, d, filter)
    decreases |c|
  {
    if c != [] && !Qualifies(c[0], tagName, filter) {
      FirstTagIndexSamePattern(tagName, c[1..], d[1..], filter);
    }
  }

  lemma QualifiesWithoutFilter(n: Node, tagName: string)
    ensures Qualifies(n, tagName, None) <==> n.Tag? && n.name == tagName
  {
  }

  /** `n` is a `link` tag whose `href` is exactly `href`. */
  predicate LinksTo(n: Node, href: string) {
    IsTagNamed(n, "link") && "href" in n.attrs && n.attrs["href"] == href
  }

  /** `children.some(...)` with the predicate of `hasLink`. */
  function SomeLinksTo(children: seq<Node>, href: string): (b: bool)
    ensures b <==> exists i :: 0 <= i < |children| && LinksTo(children[i], href)
    decreases |children|
  {
    if children == [] then false
    else if LinksTo(children[0], href) then true
    else
      var rest := SomeLinksTo(children[1..], href);
      assert forall i :: 1 <= i < |children| ==> children[i] == children[1..][i - 1];
      rest
  }

  /**
   * `hasLink(head, href)`: some child of `head` is a `link` tag whose `href`
   * equals `href` character for character (no normalisation).
   */
  function HasLink(head: Node, href: string): (b: bool)
    requires head.Tag?
    ensures b <==> exists i :: 0 <= i < |head.children| && LinksTo(head.children[i], href)
  {
    SomeLinksTo(head.children, href)
  }

  /** Appending a `link` to `href` makes `hasLink` true. */
  lemma HasLinkAfterAppendingLink(head: Node, extra: seq<Node>, href: string)
    requires head.Tag?
    requires exists n :: n in extra && LinksTo(n, href)
    ensures HasLink(head.(children := head.children + extra), href)
  {
    var n :| n in extra && LinksTo(n, href);
    var k :| 0 <= k < |extra| && extra[k] == n;
    assert (head.children + extra)[|head.children| + k] == n;
  }

  /** Appending nodes that are not `link` tags never changes `hasLink`. */
  lemma HasLinkIgnoresNonLinks(head: Node, extra: seq<Node>, href: string)
    requires head.Tag?
    requires forall n :: n in extra ==> !IsTagNamed(n, "link")
    ensures HasLink(head.(children := head.children + extra), href) == HasLink(head, href)
  {
    var c := head.children + extra;
    if HasLink(head.(children := c), href) {
      assert forall j :: |head.children| <= j < |c| ==> c[j] in extra;
      var i :| 0 <= i < |c| && LinksTo(c[i], href);
      assert head.children[i] == c[i];
    }
    if HasLink(head, href) {
      var i :| 0 <= i < |head.children| && LinksTo(head.children[i], href);
      assert c[i] == head.children[i];
    }
  }

  /** Matching is exact: a query string or a change of case is a different stylesheet. */
  lemma HasLinkIsExact()
    ensures !HasLink(Tag("head", map[], [
      Tag("link", map["href" := "/a.css?"], [], true),
      Tag("link", map["href" := "/A.css"], [], true)], false), "/a.css")
  {
    var head := Tag("head", map[], [
      Tag("link", map["href" := "/a.css?"], [], true),
      Tag("link", map["href" := "/A.css"], [], true)], false);
    assert "/a.css?" != "/a.css";
    assert "/A.css"[1] != "/a.css"[1];
    assert !LinksTo(head.children[0], "/a.css");
    assert !LinksTo(head.children[1], "/a.css");
  }
}
