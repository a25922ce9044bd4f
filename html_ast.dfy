/**
 * The tree produced by the HTML parser the plugin uses, the mutable view of
 * one tag that the page drivers update in place, and what a page run yields.
 */
module HtmlAst {
  import opened Wrappers

  /** A parsed node: a tag with attributes and ordered children, or text. */
  datatype Node =
    | Tag(name: string, attrs: map<string, string>, children: seq<Node>, voidElement: bool)
    | Text(content: string)

  /** `n` is a tag element called `name`. */
  predicate IsTagNamed(n: Node, name: string) {
    n.Tag? && n.name == name
  }

  /**
   * The two ways processing a page can throw: the explicit
   * "This ast is not a tag element" error of `getTag`, and a property read
   * on `undefined` (a missing tag, a missing document, a missing `href`).
   */
  datatype AstError = NotATagElement | TypeError

  /**
   * `t` is the tag `html` with the same name, attributes and number of
   * children, and every child at a position other than `hi` and `bi` unchanged.
   */
  predicate SameExceptAt(html: Node, t: Node, hi: Option<nat>, bi: Option<nat>) {
    && html.Tag? && t.Tag?
    && t == html.(children := t.children)
    && |t.children| == |html.children|
    && forall k :: 0 <= k < |html.children| && hi != Some(k) && bi != Some(k) ==> t.children[k] == html.children[k]
  }

  /**
   * What one page run produces: the `html` tree as it stands afterwards, and
   * the file content written back, or `None` when the file is left untouched.
   */
  datatype Outcome = Outcome(html: Node, write: Option<string>)

  /** The literal line every rewritten page starts with. */
  const DoctypeLine: string := "<!DOCTYPE html>\n"

  /** The file content written for `html`, given the library's serializer. */
  function PageContent(html: Node, stringify: seq<Node> -> string): (content: string)
    ensures |DoctypeLine| <= |content| && content[..|DoctypeLine|] == DoctypeLine
  {
    DoctypeLine + stringify([html])
  }

  /**
   * A tag element whose children are shared and mutated in place, as the
   * `head` and `body` objects of the parsed tree are.
   */
  class Element {
    const name: string
    const attrs: map<string, string>
    const voidElement: bool
    var children: seq<Node>

    /** The tag element that `n` is. */
    constructor (n: Node)
      requires n.Tag?
      ensures Value() == n
    {
      name := n.name;
      attrs := n.attrs;
      voidElement := n.voidElement;
      children := n.children;
    }

    /** The node this element currently stands for. */
    function Value(): (n: Node)
      reads this
      ensures n.Tag? && n.name == name && n.children == children
    {
      Tag(name, attrs, children, voidElement)
    }
  }
}
