/**
 * The older variant of the core that the integration entry point still
 * uses: a boolean `preload`, no overriding, one link appended to `head`.
 */
module Util {
  import opened Wrappers
  import opened HtmlAst
  import AstHelpers
  import opened StylesheetPath

  /** Index of the first tag child called `tagName`, or `None` when no child is such a tag. */
  function FirstNamed(children: seq<Node>, tagName: string): (r: Option<nat>)
    ensures r.Some? ==> r.value < |children| && IsTagNamed(children[r.value], tagName)
    ensures r.Some? ==> forall j :: 0 <= j < r.value ==> !IsTagNamed(children[j], tagName)
    ensures r.None? ==> forall j :: 0 <= j < |children| ==> !IsTagNamed(children[j], tagName)
    decreases |children|
  {
    if children == [] then None
    else if IsTagNamed(children[0], tagName) then Some(0)
    else
      match FirstNamed(children[1..], tagName)
      case None => None
      case Some(k) => Some(k + 1)
  }

  /**
   * `getTag(tagName, ast)`: the first tag child called `tagName`, `None`
   * when there is none, an error when `ast` has no `children` (a text node).
   */
  function GetTag(tagName: string, ast: Node): (r: Result<Option<Node>, AstError>)
    ensures r.Failure? <==> ast.Text?
    ensures r.Failure? ==> r.error == NotATagElement
    ensures r.Success? && r.value.Some? ==>
      exists i :: 0 <= i < |ast.children| && ast.children[i] == r.value.value && IsTagNamed(ast.children[i], tagName) &&
        forall j :: 0 <= j < i ==> !IsTagNamed(ast.children[j], tagName)
    ensures r.Success? && r.value.None? ==> forall j :: 0 <= j < |ast.children| ==> !IsTagNamed(ast.children[j], tagName)
  {
    if ast.Tag? then
      match FirstNamed(ast.children, tagName)
      case None => Success(None)
      case Some(i) => Success(Some(ast.children[i]))
    else Failure(NotATagElement)
  }

  /** The older `getTag` behaves as the current one called without a filter. */
  lemma {:induction false} GetTagAgrees(tagName: string, ast: Node)
    ensures GetTag(tagName, ast) == AstHelpers.GetTag(tagName, ast, None)
  {
    if ast.Tag? {
      FirstNamedAgrees(ast.children, tagName);
    }
  }

  lemma {:induction false} FirstNamedAgrees(children: seq<Node>, tagName: string)
    ensures FirstNamed(children, tagName) == AstHelpers.FirstTagIndex(tagName, children, None)
    decreases |children|
  {
    if children != [] && !IsTagNamed(children[0], tagName) {
      FirstNamedAgrees(children[1..], tagName);
    }
  }

  /** The attributes of the one link, `href` aside. */
  function LinkAttrs(preload: bool): map<string, string> {
    if preload then map["rel" := "preload", "as" := "style", "onload" := "this.onload=null;this.rel='stylesheet'"]
    else map["rel" := "stylesheet"]
  }

  /**
   * `createLinkTag(cssFilePath, preload)`: a childless void `link` to
   * `cssFilePath`, a preload that turns itself into a stylesheet when
   * `preload` is set, a plain stylesheet otherwise.
   */
  function CreateLinkTag(cssFilePath: string, preload: bool): (r: Node)
    ensures r.Tag? && r.name == "link" && r.voidElement && r.children == []
    ensures AstHelpers.LinksTo(r, cssFilePath)
    ensures preload ==> r.attrs == map["href" := cssFilePath, "rel" := "preload", "as" := "style",
                                      "onload" := "this.onload=null;this.rel='stylesheet'"]
    ensures !preload ==> r.attrs == map["href" := cssFilePath, "rel" := "stylesheet"]
  {
    var attrs := map["href" := cssFilePath] + LinkAttrs(preload);
    assert preload ==> attrs == map["href" := cssFilePath, "rel" := "preload", "as" := "style",
                                    "onload" := "this.onload=null;this.rel='stylesheet'"];
    assert !preload ==> attrs == map["href" := cssFilePath, "rel" := "stylesheet"];
    Tag("link", attrs, [], true)
  }

  /** `hasLink(head, stylesheet)`, the same test as the current module's. */
  function HasLink(head: Node, stylesheet: string): (b: bool)
    requires head.Tag?
    ensures b <==> exists i :: 0 <= i < |head.children| && AstHelpers.LinksTo(head.children[i], stylesheet)
  {
    AstHelpers.SomeLinksTo(head.children, stylesheet)
  }

  /** Where `getTag("head", htmlTag)` finds `head`. */
  function HeadIndex(html: Node): (r: Option<nat>)
    requires html.Tag?
    ensures r.Some? ==> r.value < |html.children| && IsTagNamed(html.children[r.value], "head")
    ensures r.Some? ==> forall j :: 0 <= j < r.value ==> !IsTagNamed(html.children[j], "head")
    ensures r.None? ==> forall j :: 0 <= j < |html.children| ==> !IsTagNamed(html.children[j], "head")
  {
    FirstNamed(html.children, "head")
  }

  /** `injectLink` from the located `html` tag on. */
  function InjectHtml(html: Node, cssFilePath: string, preload: bool, stringify: seq<Node> -> string): Result<Outcome, AstError>
    requires html.Tag?
  {
    match HeadIndex(html)
    case None => Failure(TypeError)
    case Some(hi) =>
      var head := html.children[hi];
      if HasLink(head, cssFilePath) then Success(Outcome(html, None))
      else
        var updated := html.(children := html.children[hi := head.(children := head.children + [CreateLinkTag(cssFilePath, preload)])]);
        Success(Outcome(updated, Some(PageContent(updated, stringify))))
  }

  /** `injectLink` on the parsed document `doc`. */
  function InjectPage(doc: seq<Node>, cssFilePath: string, preload: bool, stringify: seq<Node> -> string): Result<Outcome, AstError> {
    if |doc| == 0 then Failure(TypeError)
    else
      var found :- GetTag("html", doc[0]);
      if found.None? then Failure(TypeError)
      else InjectHtml(found.value, cssFilePath, preload, stringify)
  }

  /**
   * `injectLink(htmlFilePath, cssFilePath, preload)` from the parsed
   * document: return without writing if `head` already links to the
   * stylesheet, otherwise push one link onto `head` and write the page.
   */
  method InjectLink(doc: seq<Node>, cssFilePath: string, preload: bool, stringify: seq<Node> -> string)
    returns (r: Result<Outcome, AstError>)
    ensures r == InjectPage(doc, cssFilePath, preload, stringify)
  {
    if |doc| == 0 {
      return Failure(TypeError);
    }
    var found := GetTag("html", doc[0]);
    if found.Failure? {
      return Failure(found.error);
    }
    if found.value.None? {
      return Failure(TypeError);
    }
    var html := found.value.value;
    var hi := HeadIndex(html);
    if hi.None? {
      return Failure(TypeError);
    }
    var head := new Element(html.children[hi.value]);
    if HasLink(head.Value(), cssFilePath) {
      return Success(Outcome(html, None));
    }
    var link := CreateLinkTag(cssFilePath, preload);
    head.children := head.children + [link];
    var updated := html.(children := html.children[hi.value := head.Value()]);
    r := Success(Outcome(updated, Some(PageContent(updated, stringify))));
  }

  /**
   * An existing link means no change and no write; otherwise exactly one
   * link, to `cssFilePath`, becomes the last child of `head` and the page is
   * written.
   */
  lemma InjectOnce(html: Node, cssFilePath: string, preload: bool, stringify: seq<Node> -> string)
    requires html.Tag? && HeadIndex(html).Some?
    ensures var r := InjectHtml(html, cssFilePath, preload, stringify);
      var hi := HeadIndex(html).value;
      var head := html.children[hi];
      && r.Success?
      && SameExceptAt(html, r.value.html, Some(hi), None)
      && (HasLink(head, cssFilePath) <==> r.value.write.None?)
      && (HasLink(head, cssFilePath) ==> r.value.html == html)
      && (!HasLink(head, cssFilePath) ==>
            r.value.html.Tag? && HeadIndex(r.value.html) == Some(hi) &&
            |r.value.html.children[hi].children| == |head.children| + 1 &&
            r.value.html.children[hi].children[..|head.children|] == head.children &&
            r.value.html.children[hi].children[|head.children|] == CreateLinkTag(cssFilePath, preload) &&
            r.value.html.children[hi] == head.(children := head.children + [CreateLinkTag(cssFilePath, preload)]) &&
            r.value.write == Some(PageContent(r.value.html, stringify)))
  {
    var hi := HeadIndex(html).value;
    var head := html.children[hi];
    if !HasLink(head, cssFilePath) {
      var r := InjectHtml(html, cssFilePath, preload, stringify);
      var c := html.children;
      var d := r.value.html.children;
      assert |d| == |c|;
      assert forall k :: 0 <= k < |c| ==> (IsTagNamed(d[k], "head") <==> IsTagNamed(c[k], "head"));
      FirstNamedAgrees(c, "head");
      FirstNamedAgrees(d, "head");
      AstHelpers.FirstTagIndexSamePattern("head", c, d, None);
      assert (head.children + [CreateLinkTag(cssFilePath, preload)])[..|head.children|] == head.children;
    }
  }

  /** Running `injectLink` again on the tree it produced writes nothing. */
  lemma InjectLinkIdempotent(html: Node, cssFilePath: string, preload: bool, stringify: seq<Node> -> string)
    requires html.Tag?
    requires InjectHtml(html, cssFilePath, preload, stringify).Success?
    ensures var o := InjectHtml(html, cssFilePath, preload, stringify).value;
      o.html.Tag? && InjectHtml(o.html, cssFilePath, preload, stringify) == Success(Outcome(o.html, None))
  {
    InjectOnce(html, cssFilePath, preload, stringify);
    var o := InjectHtml(html, cssFilePath, preload, stringify).value;
    var hi := HeadIndex(html).value;
    var head := html.children[hi];
    if !HasLink(head, cssFilePath) {
      var newHead := o.html.children[hi];
      assert AstHelpers.LinksTo(newHead.children[|head.children|], cssFilePath);
    }
  }

  /** The warnings `getCSSFilePath` prints, in order. */
  datatype CssWarning = PathWarning(warning: Warning) | SplittingNotDisabled

  /** The chosen path (`null` when none) and the warnings printed. */
  datatype CssPath = CssPath(path: Option<string>, warnings: seq<CssWarning>)

  /**
   * The older path selection, from the globbed listing on: the first listed
   * path without its `./dir` prefix, or `None` for an empty listing.
   * `cssCodeSplit` is the host's CSS code-splitting setting, `None` when unset;
   * with `disableSplitting` it decides only whether a warning is printed.
   */
  function GetCSSFilePath(dir: string, disableSplitting: bool, cssCodeSplit: Option<bool>, globbed: seq<string>): (r: CssPath)
    ensures r.path.None? <==> |globbed| == 0
    ensures r.path.Some? ==> r.path.value == RelativePaths(globbed, dir)[0]
    ensures SplittingNotDisabled in r.warnings <==> |globbed| > 1 && !disableSplitting && cssCodeSplit != Some(false)
  {
    var files := RelativePaths(globbed, dir);
    if |files| == 0 then CssPath(None, [PathWarning(NoStylesheets)])
    else if |files| == 1 then CssPath(Some(files[0]), [])
    else
      CssPath(Some(files[0]),
              [PathWarning(MultipleStylesheets(|files|, files[0]))] +
              (if !disableSplitting && cssCodeSplit != Some(false) then [SplittingNotDisabled] else []))
  }

  /** The chosen path depends on the listing only, and is the one the current module chooses. */
  lemma ChosenPathIgnoresConfig(dir: string, disableSplitting: bool, cssCodeSplit: Option<bool>, globbed: seq<string>)
    ensures GetCSSFilePath(dir, disableSplitting, cssCodeSplit, globbed).path == GetStylesheetPath(dir, globbed).path
  {
  }
}
