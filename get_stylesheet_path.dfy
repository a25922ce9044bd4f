/** Choosing the one stylesheet to inject from the CSS files of the build output. */
module StylesheetPath {
  import opened Wrappers
  import opened JsString

  /** The two warnings path selection can print. */
  datatype Warning =
    | NoStylesheets
    | MultipleStylesheets(count: nat, chosen: string)

  /** The chosen path (`undefined` when none) and the warning printed, if any. */
  datatype Selection = Selection(path: Option<string>, warning: Option<Warning>)

  /** The glob prefix `./${dir}` removed from every listed path. */
  function DirPrefix(dir: string): string {
    "./" + dir
  }

  /** Each globbed path with the first occurrence of `./dir` removed, in listing order. */
  function RelativePaths(globbed: seq<string>, dir: string): (files: seq<string>)
    ensures |files| == |globbed|
  {
    seq(|globbed|, i requires 0 <= i < |globbed| => RemoveFirst(globbed[i], DirPrefix(dir)))
  }

  /** Each listed path that starts with `./${dir}` loses exactly that prefix, at its own index. */
  lemma RelativePathsStripPrefix(globbed: seq<string>, dir: string)
    ensures forall i :: 0 <= i < |globbed| && |DirPrefix(dir)| <= |globbed[i]| && globbed[i][..|DirPrefix(dir)|] == DirPrefix(dir) ==>
      RelativePaths(globbed, dir)[i] == globbed[i][|DirPrefix(dir)|..]
  {
    forall i | 0 <= i < |globbed| && |DirPrefix(dir)| <= |globbed[i]| && globbed[i][..|DirPrefix(dir)|] == DirPrefix(dir)
      ensures RelativePaths(globbed, dir)[i] == globbed[i][|DirPrefix(dir)|..]
    {
      var rest := globbed[i][|DirPrefix(dir)|..];
      assert globbed[i] == DirPrefix(dir) + rest;
      RemoveFirstOfPrefix(DirPrefix(dir), rest);
    }
  }

  /**
   * `getStylesheetPath(dir)` after the glob: nothing (with a warning) for no
   * file, the file for one, the first in listing order (with a warning that
   * names the count) for several.
   */
  function GetStylesheetPath(dir: string, globbed: seq<string>): (r: Selection)
    ensures r.path.None? <==> |globbed| == 0
    ensures r.path.Some? ==> r.path.value == RemoveFirst(globbed[0], DirPrefix(dir))
    ensures r.warning.None? <==> |globbed| == 1
    ensures |globbed| == 0 ==> r.warning == Some(NoStylesheets)
    ensures |globbed| > 1 ==> r.warning == Some(MultipleStylesheets(|globbed|, r.path.value))
  {
    var files := RelativePaths(globbed, dir);
    if |files| == 0 then Selection(None, Some(NoStylesheets))
    else if |files| == 1 then Selection(Some(files[0]), None)
    else Selection(Some(files[0]), Some(MultipleStylesheets(|files|, files[0])))
  }

  /** Two stylesheets listed as `b` then `a`: `b` is injected and the count is reported. */
  lemma FirstListedWins()
    ensures GetStylesheetPath("dist", ["./dist/b.css", "./dist/a.css"]) ==
      Selection(Some("/b.css"), Some(MultipleStylesheets(2, "/b.css")))
  {
    RemoveFirstOfPrefix("./dist", "/b.css");
    assert "./dist" + "/b.css" == "./dist/b.css";
    assert DirPrefix("dist") == "./dist";
  }
}
