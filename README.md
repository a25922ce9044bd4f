# astro-cssbundle: link injection, modelled in Dafny

astro-cssbundle is an Astro integration. After a build it picks one bundled
stylesheet from the output directory. It then rewrites every generated HTML
page so that the page links to that stylesheet, using one of five preload
strategies. This project models the logic of that rewrite on the parsed
HTML tree and proves properties of the model.

The core appears in two versions, and both are modelled:

- **Current module.**
  - `getTag` finds the first child tag by name, with an optional filter.
  - `hasLink` tests whether `head` already links to an `href`.
  - `getAttrs` and `createLinkTag` map a strategy to a head tag, a body tag, or both.
  - `overrideLinks` rewrites the `.css` links of `head` in place.
  - `preloadStylesheets` overrides, injects the link if it is absent, and writes the page only when something changed.
  - `getStylesheetPath` picks the stylesheet from the globbed listing.
- **Older variant** (`util.ts`): a boolean `preload`, `injectLink`, which appends one link to `head`, and `getCSSFilePath`.

Modules:

- `Wrappers`: `Option` and `Result`.
- `JsString`: the JavaScript string built-ins the code relies on: `endsWith`, `indexOf`, and `replace` with a string pattern, which removes the first occurrence only.
- `HtmlAst`: the parsed tree (`Node`), the two ways a page run can throw (`AstError`), and the outcome of a run (`Outcome`: the tree afterwards and the content written, if any). It also holds `Element`, a class whose `children` the drivers mutate in place, as the shared `head` and `body` objects are mutated in the source.
- `AstHelpers`, `CreateLink`, `PreloadStylesheet` and `StylesheetPath` follow the source files of the current module.
- `Util` follows `util.ts`.

How the code is modelled:

- Loops and in-place pushes are written as imperative Dafny:
  - the `for` loop of `overrideLinks` assigns `head.children[i]` and pushes onto `body.children`;
  - the drivers push onto `head.children` and `body.children`.
- Each method is proved against a function: `OverrideHead` and `OverrideBody` for `overrideLinks`, and `PreloadHtml`/`PreloadPage` and `InjectPage` for the page runs. The lemmas are stated about those functions.
- JavaScript `undefined` is `None`, or a `null` element.
- A thrown error is a `Failure`:
  - `NotATagElement` for the explicit throw of `getTag`;
  - `TypeError` for a property read on `undefined`, such as a missing document, `html`, `head`, `body` or `href`.
- A missing `stylesheetPath` and the empty string behave alike, because `""` is falsy in JavaScript.
- The serializer of the HTML library is a parameter `stringify`. The written content is the literal `<!DOCTYPE html>\n` followed by `stringify([html])`.

One would expect a second run without `override` to add nothing. That holds for every strategy except `body`:

- `hasLink` looks only in `head`, and the `body` strategy puts its tag only in `body`.
- So a second run injects again and writes again (`PreloadStylesheet.BodyStrategyInjectsAgain`).
- For the other four strategies, the second run writes nothing (`PreloadStylesheet.SecondRunWritesNothing`).
- With the `body` strategy, `overrideLinks` also leaves the original head link in place (`PreloadStylesheet.OverrideHeadInPlace`) and pushes a body tag for it (`PreloadStylesheet.OverrideBodyCount`, `PreloadStylesheet.OverrideBodyTagsAreStylesheets`).

`getTag`, `hasLink`, `getAttrs` and `createLinkTag` modify nothing; in Dafny they are functions, so this holds by construction. `overrideLinks`, `preloadStylesheets` and `injectLink` mutate `head.children` and `body.children`; the methods that model them name those `Element` objects in `modifies`.

## Model

| member | source | states |
|---|---|---|
| JsString.EndsWith | packages/core/src/preload-stylesheet.ts:76 | `href.endsWith(".css")`: the string ends with the suffix |
| JsString.IndexOf | packages/core/src/get-stylesheet-path.ts:14 | the index found is the first occurrence of the pattern; `None` only when the pattern occurs nowhere |
| JsString.RemoveFirst | packages/core/src/get-stylesheet-path.ts:14 | `s.replace(pattern, "")` with a string pattern: the first occurrence removed; what it yields is stated by the three lemmas below |
| JsString.RemoveFirstOfPrefix | packages/core/src/get-stylesheet-path.ts:13-15 | removing a pattern that starts the string leaves exactly the rest of the string |
| JsString.RemoveFirstAbsent | packages/core/src/get-stylesheet-path.ts:14 | a path that does not contain the pattern is returned unchanged |
| JsString.RemoveFirstLength | packages/core/src/get-stylesheet-path.ts:14 | at most one occurrence is removed: the result is the input, or shorter by exactly the pattern's length |
| HtmlAst.PageContent | packages/core/src/preload-stylesheet.ts:53 | the content written always starts with the line `<!DOCTYPE html>\n` |
| HtmlAst.Element.constructor | packages/core/src/preload-stylesheet.ts:28-29 | the mutable element stands for exactly the tag it was made from |
| HtmlAst.Element.Value | packages/core/src/preload-stylesheet.ts:28-29 | the element is a tag with its own name and its current children |
| AstHelpers.Qualifies | packages/core/src/ast-helpers.ts:15-16 | a child passes both filters of `getTag`: a tag with the requested name, then the optional filter when one is given |
| AstHelpers.FirstTagIndex | packages/core/src/ast-helpers.ts:14-17 | the index is the first child that qualifies, by tag name and then filter; `None` only if no child qualifies |
| AstHelpers.GetTag | packages/core/src/ast-helpers.ts:8-21 | fails (with the "not a tag element" error) exactly on a non-tag node; otherwise returns the first qualifying child, or `None` (`undefined`) when no child qualifies |
| AstHelpers.QualifiesWithoutFilter | packages/core/src/ast-helpers.ts:15-16 | without a filter, a child qualifies iff it is a tag with the requested name, so text children never do |
| AstHelpers.LinksTo | packages/core/src/ast-helpers.ts:31 | the callback of `.some`: a `link` tag whose `href` is exactly the string |
| AstHelpers.SomeLinksTo | packages/core/src/ast-helpers.ts:30-32 | true iff some child of the sequence is a `link` tag whose `href` equals the given string |
| AstHelpers.HasLink | packages/core/src/ast-helpers.ts:29-33 | true iff some child of `head` is a `link` tag whose `href` is exactly the given string |
| AstHelpers.HasLinkAfterAppendingLink | packages/core/src/ast-helpers.ts:30-32 | appending a `link` to `h` to `head` makes `hasLink(head, h)` true |
| AstHelpers.HasLinkIgnoresNonLinks | packages/core/src/ast-helpers.ts:30-32 | appending nodes that are not `link` tags never changes `hasLink` |
| AstHelpers.HasLinkIsExact | packages/core/src/ast-helpers.ts:31 | matching is exact: a link to `/a.css?` or `/A.css` does not count as a link to `/a.css` |
| CreateLink.GetAttrs | packages/core/src/create-link.ts:46-87 | a head set for every strategy but `body`; a body set exactly for `default` and `body`, always `{rel: stylesheet}`; no head set has `href` |
| CreateLink.EveryStrategyYieldsATag | packages/core/src/create-link.ts:47-86 | every strategy has at least one attribute set, and only `default` has both |
| CreateLink.StrategyTable | packages/core/src/create-link.ts:46-86 | the attribute sets of each of the five strategies, key for key |
| CreateLink.LinkNode | packages/core/src/create-link.ts:24-31 | the node `{ ...LINK_PROPS, children: [], attrs: { href, ...attrs } }`; its attributes are stated by `CreateLink.LinkTagAttrs` |
| CreateLink.CreateLinkTag | packages/core/src/create-link.ts:14-44 | a head tag iff the strategy has head attributes and a body tag iff it has body attributes; each is a childless void `link` whose `href` is the path |
| CreateLink.LinkTagAttrs | packages/core/src/create-link.ts:21-43 | each produced tag's keys are exactly `href` plus the strategy's keys; every strategy value is kept and `href` is exactly the path |
| CreateLink.DefaultHeadTag | packages/core/src/create-link.ts:14-57 | the `default` strategy yields a `preload`/`style` head link and a `stylesheet` body link to the path |
| PreloadStylesheet.IsCssLink | packages/core/src/preload-stylesheet.ts:74-76 | the head children the loop rewrites: `link` tags whose `href` ends with `.css` |
| PreloadStylesheet.ThrowsOn | packages/core/src/preload-stylesheet.ts:74-79 | the head children on which the loop throws: a `link` without `href`, or a `.css` link whose body tag would be pushed onto a missing `body` |
| PreloadStylesheet.OverrideThrows | packages/core/src/preload-stylesheet.ts:72-79 | the loop of `overrideLinks` throws iff some head child is one `ThrowsOn` holds of |
| PreloadStylesheet.Overridden | packages/core/src/preload-stylesheet.ts:74-78 | a head child is a `.css` link after the rewrite iff it was one before, and a child that is not a `.css` link is left as it is |
| PreloadStylesheet.OverrideHead | packages/core/src/preload-stylesheet.ts:69-78 | the head children after the loop keep their number; each is rewritten at its own index (see `OverrideHeadInPlace`) |
| PreloadStylesheet.PushedFor | packages/core/src/preload-stylesheet.ts:76-79 | a visit pushes at most one body tag, and only for a `.css` link under a strategy with body attributes |
| PreloadStylesheet.OverrideBody | packages/core/src/preload-stylesheet.ts:72-83 | the body tags the loop pushes, in the order of the head children; counted by `OverrideBodyCount` and described by `OverrideBodyTagsAreStylesheets` |
| PreloadStylesheet.HasCssLink | packages/core/src/preload-stylesheet.ts:67-85 | the value `overrideLinks` returns: some head child is a `.css` link |
| PreloadStylesheet.OverrideChild | packages/core/src/preload-stylesheet.ts:73-82 | one loop turn: a `.css` link at index `i` becomes the strategy's head tag, its body tag is pushed onto `body`, and the turn reports whether it was a `.css` link |
| PreloadStylesheet.OverrideLinks | packages/core/src/preload-stylesheet.ts:62-86 | `head.children` becomes `OverrideHead` of the old children, `body.children` gains `OverrideBody` of them at its end, and the result is true iff some head child is a `.css` link |
| PreloadStylesheet.OverrideEnabled | packages/core/src/preload-stylesheet.ts:34 | the gate `override && preload`: `override` is set and the strategy is not `false` |
| PreloadStylesheet.PathGiven | packages/core/src/preload-stylesheet.ts:40 | the truthiness of `stylesheetPath`: given and not the empty string |
| PreloadStylesheet.OverrideStep | packages/core/src/preload-stylesheet.ts:34 | with overriding off (`override` false or `preload` `false`) nothing changes; with it on, the step fails iff `head` is missing or a head child throws, and otherwise `head`'s children become `OverrideHead` of them, `body` gains `OverrideBody` at its end, `replaced` is whether a `.css` link was found, and the tags themselves are kept |
| PreloadStylesheet.InjectStep | packages/core/src/preload-stylesheet.ts:40-45 | with no path, or a `head` that already links to it, nothing changes; with a path it fails iff `head` is missing, or the link is absent and a body tag is due but `body` is missing; otherwise the head tag is appended to `head`, the body tag to `body`, and `replaced` is set |
| PreloadStylesheet.Reassemble | packages/core/src/preload-stylesheet.ts:27-53 | the tree keeps its name, attributes and number of children, and every child other than `head` and `body` is unchanged |
| PreloadStylesheet.Finish | packages/core/src/preload-stylesheet.ts:47-55 | the page is written iff `replaced` is set, and the content is the doctype line followed by the serialized `html` tree; the tree keeps its name, attributes and child count, and only `head` and `body` may change |
| PreloadStylesheet.TagAt | packages/core/src/preload-stylesheet.ts:28-29 | the position found holds the FIRST tag child of the requested name (`head` or `body`); `None` (`undefined`) iff there is no such child |
| PreloadStylesheet.StartParts | packages/core/src/preload-stylesheet.ts:27-29 | the `head` and `body` found are the first tag children of those names, each `None` iff `html` has no such child; `replaced` starts false |
| PreloadStylesheet.PreloadHtml | packages/core/src/preload-stylesheet.ts:23-55 | the page run from the located `html` tag: locate `head`/`body`, override, inject, decide the write; its properties are the page lemmas below |
| PreloadStylesheet.PreloadPage | packages/core/src/preload-stylesheet.ts:26-55 | the page run from the parsed document: an empty document, a non-tag first node and a missing `html` throw |
| PreloadStylesheet.PreloadStylesheets | packages/core/src/preload-stylesheet.ts:11-56 | the method's outcome (error, tree, content written) is that of the page-run function `PreloadPage` |
| PreloadStylesheet.OverrideIfEnabled | packages/core/src/preload-stylesheet.ts:23-34 | mutating `head` and `body` in place performs `OverrideStep` on the tags they stand for, and so does its error |
| PreloadStylesheet.InjectStylesheet | packages/core/src/preload-stylesheet.ts:40-45 | mutating `head` and `body` in place performs `InjectStep` on the tags they stand for, and so does its error |
| PreloadStylesheet.LocateTags | packages/core/src/preload-stylesheet.ts:27-29 | the new `head` and `body` objects are distinct and stand for the tags `getTag` finds |
| PreloadStylesheet.TransformHtml | packages/core/src/preload-stylesheet.ts:23-55 | the in-place run from the `html` tag on has the outcome of the function `PreloadHtml` |
| PreloadStylesheet.OverriddenKeepsTarget | packages/core/src/preload-stylesheet.ts:75-78 | rewriting a head child never changes which `href`, if any, it links to |
| PreloadStylesheet.OverridePreservesHasLink | packages/core/src/preload-stylesheet.ts:72-83 | `hasLink(head, h)` has the same value before and after overriding, for every `h` |
| PreloadStylesheet.OverrideHeadInPlace | packages/core/src/preload-stylesheet.ts:69-78 | overriding keeps the number of head children; each `.css` link is replaced at its own index by the strategy's head tag; every other child is unchanged; with no head attributes nothing changes |
| PreloadStylesheet.OverrideHeadIdempotent | packages/core/src/preload-stylesheet.ts:72-83 | overriding its own output leaves `head` as it is |
| PreloadStylesheet.OverrideBodyCount | packages/core/src/preload-stylesheet.ts:79 | `body` gains one tag per `.css` head link when the strategy has body attributes, and none otherwise |
| PreloadStylesheet.OverrideBodyTagsAreStylesheets | packages/core/src/preload-stylesheet.ts:76-79 | every tag pushed onto `body` is the strategy's body link to an `href` ending in `.css` |
| PreloadStylesheet.OverrideAgainPushesSameTags | packages/core/src/preload-stylesheet.ts:72-83 | overriding again pushes the very same body tags again |
| PreloadStylesheet.ReassembleUnchanged | packages/core/src/preload-stylesheet.ts:26-29 | putting the unchanged `head` and `body` back gives the original tree |
| PreloadStylesheet.ReassembleLocates | packages/core/src/preload-stylesheet.ts:27-45 | in the updated tree `getTag` finds the updated `head` and `body` at the same positions |
| PreloadStylesheet.MissingHeadFails | packages/core/src/preload-stylesheet.ts:28-45 | a page without `head` fails iff overriding is enabled or a stylesheet path is given |
| PreloadStylesheet.NothingToDoWritesNothing | packages/core/src/preload-stylesheet.ts:23-55 | with no path and overriding off, the tree is unchanged and nothing is written |
| PreloadStylesheet.WriteIffReplaced | packages/core/src/preload-stylesheet.ts:23-55 | the page is written iff overriding is enabled and found a `.css` link, or a path is given that `head` does not already link to; the content is the doctype line plus the serialized tree |
| PreloadStylesheet.InjectionAppends | packages/core/src/preload-stylesheet.ts:40-45 | without overriding, injection appends the head tag as the last child of `head` and the body tag as the last child of `body`, keeps every other part of the `html` tree, and the page is written |
| PreloadStylesheet.SecondRunWritesNothing | packages/core/src/preload-stylesheet.ts:40-55 | without overriding and for every strategy but `body`, a second run on the produced tree changes nothing and writes nothing |
| PreloadStylesheet.BodyStrategyInjectsAgain | packages/core/src/preload-stylesheet.ts:40-45 | with the `body` strategy, a second run leaves `head` as it was, appends the `{rel: stylesheet}` link to the path at the end of `body` again, and writes again |
| PreloadStylesheet.DisabledStrategyNeverOverrides | packages/core/src/preload-stylesheet.ts:34 | with `preload` `false`, the run is the same whether `override` is set or not |
| PreloadStylesheet.OverrideThenInject | packages/core/src/preload-stylesheet.ts:34-45 | with overriding on and the path not yet linked, `head` ends as its overridden children followed by the head tag, and `body` as its children, the override's body tags, then the injected body tag; under a head-only strategy `body` is unchanged; every other part of `html` is kept; the page is written |
| PreloadStylesheet.EndToEndDefault | packages/core/src/preload-stylesheet.ts:11-56 | a page with empty `head` and `body`, the `default` strategy and `/style.css` gets a preload link in `head` and a stylesheet link in `body`, and is written |
| StylesheetPath.DirPrefix | packages/core/src/get-stylesheet-path.ts:13-14 | the template literal `./${dir}` |
| StylesheetPath.RelativePaths | packages/core/src/get-stylesheet-path.ts:13-15 | the listing keeps its length |
| StylesheetPath.RelativePathsStripPrefix | packages/core/src/get-stylesheet-path.ts:13-15 | each listed path that starts with `./dir` loses exactly that prefix, at its own index, whatever the other paths are |
| StylesheetPath.GetStylesheetPath | packages/core/src/get-stylesheet-path.ts:12-31 | absent iff the listing is empty; otherwise the first mapped path; a warning unless there is exactly one file, naming the count when there are several |
| StylesheetPath.FirstListedWins | packages/core/src/get-stylesheet-path.ts:25-29 | of `./dist/b.css` and `./dist/a.css` in that order, `/b.css` is chosen and the count 2 is reported |
| Util.FirstNamed | packages/core/src/util.ts:65-67 | the index is the first tag child with the name; `None` when there is none |
| Util.GetTag | packages/core/src/util.ts:63-72 | fails exactly on a node without children (text); otherwise the first tag child with the name, or `None` |
| Util.GetTagAgrees | packages/core/src/util.ts:63-72 | the older `getTag` equals the current one called without a filter |
| Util.FirstNamedAgrees | packages/core/src/util.ts:65-67 | the older first-match search equals the current one without a filter |
| Util.LinkAttrs | packages/core/src/util.ts:75-83 | the attributes besides `href`: the self-activating preload set when `preload` is set, `{rel: stylesheet}` otherwise |
| Util.CreateLinkTag | packages/core/src/util.ts:74-97 | a childless void `link` to the path, with exactly the preload attributes when `preload` is set and `{rel: stylesheet}` otherwise |
| Util.HasLink | packages/core/src/util.ts:99-103 | true iff some child of `head` is a `link` tag with exactly that `href` |
| Util.HeadIndex | packages/core/src/util.ts:48 | the position found holds the FIRST `head` tag child; `None` iff there is no `head` child |
| Util.InjectHtml | packages/core/src/util.ts:48-60 | `injectLink` from the located `html` tag: no `head` throws, an existing link leaves the page as it is, otherwise one link is pushed and the page written; stated by `InjectOnce` |
| Util.InjectPage | packages/core/src/util.ts:46-60 | `injectLink` from the parsed document: an empty document, a text node and a missing `html` throw |
| Util.InjectLink | packages/core/src/util.ts:39-61 | the method's outcome is that of the function `InjectPage` |
| Util.InjectOnce | packages/core/src/util.ts:50-60 | with the link present, nothing changes and nothing is written; otherwise `head` becomes the same tag with one link to the path appended as its last child, every other part of the `html` tree is kept, and the page is written |
| Util.InjectLinkIdempotent | packages/core/src/util.ts:50-60 | a second `injectLink` on the produced tree writes nothing |
| Util.GetCSSFilePath | packages/core/src/util.ts:6-37 | absent iff the listing is empty, otherwise the first mapped path; the code-splitting warning appears iff there are several files, `disableSplitting` is false and `cssCodeSplit` is not `false` |
| Util.ChosenPathIgnoresConfig | packages/core/src/util.ts:11-36 | the chosen path does not depend on `disableSplitting` or the config, and is the path the current module chooses |

## Left out

- Reading and writing the HTML file (`fs.promises`): a run returns an optional content string instead of writing it.
- `HTML.parse` and `HTML.stringify` of `html-parse-stringify`: a run starts from the parsed document, and `stringify` is an uninterpreted parameter. The idempotence lemmas apply the second run to the produced tree, so they assume that parsing the serialized tree gives that tree back.
- The node kinds of the parser other than tags and text (comments, the `component` type). The current `getTag` tests `type === "tag"` and so rejects every non-tag node. The older `getTag` in `util.ts` tests only that the node has `children`, so it rejects only nodes without children; here those are the `Text` nodes.
- `globby`: the listing of CSS files is an input sequence.
- `console.warn` and `console.info`: the warnings of path selection are returned as values; the "already exists" message of `injectLink` is not modelled.
- `packages/core/src/index.ts`: the Astro hook glue, the change to `vite.build.cssCodeSplit` and the concurrent dispatch over pages.
- `packages/core/src/types.ts` and the `exclude` option: only type declarations; no implementation of the option exists in the source.
- PreloadStylesheet.OverrideIfEnabled: a `link` without `href`, or a `.css` link that needs a missing `body`, makes `overrideLinks` throw part-way through the loop. The model tests these conditions before the loop starts. The outcome is the same (`TypeError`, nothing written), but the partial rewrite that the discarded tree would show first is not modelled.
- Attribute order: `attrs` is an unordered map, while the serializer writes attributes in insertion order (`href` first, then the strategy's keys). Pages that differ only in attribute order are the same tree here, and the bytes written are not fixed beyond what `stringify` yields.
- Exceptions are reduced to two kinds (`NotATagElement`, `TypeError`); error messages are not modelled.
