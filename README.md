# TypeScript smoke-test generators of the DevExtreme build

The DevExtreme build (`build/gulp/ts.js`) checks its TypeScript declarations by
generating two small TypeScript sources from the module metadata
(`modules_metadata.json`) and compiling them:

- `ts-modules-check` runs after `ts-modules`, which copies the declaration
  files into the npm package. It then builds the source `artifacts/modules.ts`
  and hands it to the TypeScript compiler; the generated source is kept in
  memory and never written. It imports jQuery.
  Then each module of the npm package gets one chunk. A module without `exports`
  gets one bare `import '<path>';`. Otherwise there is one import statement per
  export, so a module with an empty `exports` object gets none. Each export is
  imported under an identifier built from the module and export names, and
  these identifiers need not be unique. A widget export whose path names a
  jQuery plugin is preceded by a call of that plugin, e.g.
  `$('<div>').dxAccordion();`.
- `ts-jquery-check` builds the source `artifacts/globals.ts` in memory the same
  way. It refers to the bundled `dx.all.d.ts`. Then, for every public widget
  export whose global path names a jQuery plugin, it calls the plugin on `$()`
  and calls the plugin's `instance` method with the result typed by the
  widget's global path.

Both depend on `widgetNameByPath`. It turns a global path such as `ui.dxAccordion`
into the plugin name `dxAccordion`.

This project models those three pieces as pure Dafny functions over the metadata.
The project has three files:

- `wrappers.dfy`: an `Option` type. It stands for a JavaScript value that may be
  `undefined`.
- `strings.dfy`: the JavaScript string operations the script uses. These are
  `startsWith`, `split` with a one-character separator, `join` with any
  separator string (the script uses `'__'`, `'\n'` and `''`), and a global
  `replace` of one character by another. The file also proves their round trips.
- `ts_checks.dfy`: the metadata, `widgetNameByPath`, the identifier mangling,
  the import statements, and both generated files.

The metadata is a sequence of modules. Each module has a `name`, an `isInternal`
flag and an optional list of exports. The list is a sequence of (name, entry)
pairs in the order in which `Object.keys` lists the JavaScript object. Each
entry has a global `path` and an `isWidget` flag.

Each generator has a second, line-based description. The lemmas
`ModulesCheckLines` and `JQueryCheckLines` state that the generated text, split
at newlines, is exactly that list of lines.

## Model

| member | source | states |
|---|---|---|
| `TsChecks.WidgetNameByPath` | build/gulp/ts.js:131-136 | No value exactly when the path starts with neither `ui.dx` nor `viz.dx`. With the prefix, the result is `""` exactly when the path does not split into two dot-segments. A non-empty result starts with `dx`, has no dot, and the path is `ui.` or `viz.` followed by it. |
| `TsChecks.WidgetNameOfPlugin` | build/gulp/ts.js:132-134 | Round trip: for a name `w` that starts with `dx` and has no dot, the plugin name of `ui.w` and of `viz.w` is `w`. |
| `TsChecks.WidgetNameByPathPlugin` | build/gulp/ts.js:131-136 | Both directions: the plugin name of a path is a given non-empty `w` if and only if the path is `ui.w` or `viz.w`, with `w` starting with `dx` and holding no dot. |
| `TsChecks.Mangle` | build/gulp/ts.js:99-103 | The mangled module name holds no `.` and no `/`. Every character of it is `_` or comes from the module name. |
| `TsChecks.ReplaceThenJoinIsMangle` | build/gulp/ts.js:99-103 | Replacing every dot by `_` and then every `/` by `__` is the same as the character-by-character `Mangle`. The step from `split('/')` and `join('__')` to replacing every `/` by `__` is `Strings.JoinSplitReplaces`. |
| `TsChecks.UniqueIdentifier` | build/gulp/ts.js:99-103 | The unique identifier is the mangled module name, then `__`, then the export name. It is the whole import identifier only for `default` (see `ImportIdentifier`). |
| `TsChecks.ImportIdentifier` | build/gulp/ts.js:105 | The default export is imported under the bare unique identifier. Any other export is imported as `{ name as <mangled>__name }`. |
| `TsChecks.ModulePath` | build/gulp/ts.js:91 | The module path is `./npm/devextreme/` and the module name, between single quotes. |
| `TsChecks.ImportStatement` | build/gulp/ts.js:105-107 | The statement is `import `, then `<mangled>__default` for the default export or `{ name as <mangled>__name }` for any other, then ` from `, the quoted module path and `;`. |
| `TsChecks.WithPluginCall` | build/gulp/ts.js:107-113 | For an export whose `isWidget` holds and whose path names plugin `w`, the result is `$('<div>').w();` and a newline before the import statement. A non-widget export, or a path that names no plugin, gives the import statement alone. |
| `TsChecks.ExportImport` | build/gulp/ts.js:96-113 | For a widget export whose path names plugin `w`, the text is `$('<div>').w();`, a newline and the import statement. Any other export gives the import statement alone. |
| `TsChecks.ModuleImports` | build/gulp/ts.js:91-96 | A module without `exports` gives exactly `import './npm/devextreme/<name>';`. A module with an empty `exports` object gives the empty string. |
| `TsChecks.ModulesCheckContent` | build/gulp/ts.js:88-90 | The content starts with `import $ from 'jquery';` and a newline. With no modules, that header line is all of it; with one module, the module's chunk follows the newline directly. |
| `TsChecks.ModulesCheckAppend` | build/gulp/ts.js:90-115 | Module chunks are joined by newlines: appending a module to a non-empty list appends a newline and that module's chunk. |
| `TsChecks.WithPluginCallLines` | build/gulp/ts.js:107-113 | One export's text is its one or two lines joined by a newline. These are the optional plugin call and then the import statement. The lines are single lines when the path and the statement are. |
| `TsChecks.ModuleImportsLines` | build/gulp/ts.js:96-114 | A module's chunk is its lines joined by newlines. The lines are the bare import, or each export's lines in key order, or one empty line for an empty export list. |
| `TsChecks.ModulesCheckLines` | build/gulp/ts.js:88-115 | `modules.ts` split at newlines is the jQuery import line followed by every module's lines, in order. |
| `TsChecks.AugmentationLines` | build/gulp/ts.js:51-61 | For an export that is public, has `isWidget` and whose path names plugin `w`, the text is exactly `$().w();` and `<DevExpress.path>$().w("instance");`, each ending in a newline. An internal module, a non-widget, or a path that names no plugin gives `""`. |
| `TsChecks.ModuleAugmentations` | build/gulp/ts.js:49-62 | An internal module, a module without `exports` and one with an empty `exports` all contribute `""`. |
| `TsChecks.JQueryCheckContent` | build/gulp/ts.js:45-47 | The content starts with `/// <reference path="./ts/dx.all.d.ts" />` and a newline. With no modules, that line is all of it; with one module, the module's chunk follows the newline directly. |
| `TsChecks.JQueryCheckAppend` | build/gulp/ts.js:47-63 | Module chunks are joined by newlines: appending a module to a non-empty list appends a newline and that module's chunk. |
| `TsChecks.AugmentationLinesUnlines` | build/gulp/ts.js:60-61 | One export's text is its zero or two lines, each followed by a newline. |
| `TsChecks.ModuleAugmentationsLines` | build/gulp/ts.js:49-62 | A module's chunk is the concatenation of its exports' lines, each followed by a newline. The lines are single lines when the module's paths are. |
| `TsChecks.JQueryCheckLines` | build/gulp/ts.js:45-63 | `globals.ts` split at newlines is the reference line, then, per module, the two lines of each public widget export whose path names a plugin, followed by one empty line. |
| `Strings.StartsWith` | build/gulp/ts.js:132 | `s.startsWith(prefix)` holds exactly when `s` is `prefix` followed by some rest. This direction is in the contract; the converse is `Strings.StartsWithConcat`. |
| `Strings.StartsWithConcat` | build/gulp/ts.js:132 | Any string made of `prefix` and a rest starts with `prefix`. |
| `Strings.Join` | build/gulp/ts.js:103 | `parts.join(sep)`, also used at ts.js lines 62, 63, 114 and 115. `[].join(sep)` is `""`. The other facts are stated by lemmas: `JoinLength` gives the length, `JoinAppend` and `JoinConcat` say how joins of longer lists split, and `JoinSplit` and `SplitJoin` make it the inverse of `split`. |
| `Strings.JoinLength` | build/gulp/ts.js:103 | A join of one or more pieces is as long as the pieces together plus one separator between each two neighbours. |
| `Strings.Split` | build/gulp/ts.js:133 | `split` with one separator character gives one more piece than there are separators. No piece holds the separator. |
| `Strings.ReplaceChar` | build/gulp/ts.js:100 | `replace(/\./g, '_')` keeps the length and replaces every dot, and only the dots. |
| `Strings.JoinSplitReplaces` | build/gulp/ts.js:101-103 | `split(c)` followed by `join(t)` replaces every `c` by `t`. |
| `Strings.JoinSplit` | build/gulp/ts.js:101-103 | Round trip: joining the pieces of a split with the separator gives back the string. |
| `Strings.SplitJoin` | build/gulp/ts.js:133-134 | Round trip: splitting the join of one or more separator-free pieces gives back the pieces. |
| `Strings.JoinConcat` | build/gulp/ts.js:114-115 | Joining two non-empty runs of pieces puts one separator between their joins. |
| `Strings.JoinAppend` | build/gulp/ts.js:102-103 | Appending one more piece to one or more pieces before `join` appends the separator and that piece. |
| `Strings.JoinOfJoins` | build/gulp/ts.js:114-115 | Non-empty groups joined with a separator, then joined again with the same separator, equal all the pieces joined at once. |
| `Strings.ConcatOfUnlines` | build/gulp/ts.js:60-62 | Concatenating newline-terminated blocks is terminating all of their lines. |

## Left out

- The gulp tasks themselves (build/gulp/ts.js:20-29, 71-85, 124-129) are not modelled. They are file copying, license headers, the in-memory files handed to the `gulp-typescript` compiler (build/gulp/ts.js:65-68, 117-121): file I/O and tools outside the script. The model stops at the generated text; whether it compiles is not modelled.
- The bundle rewrite with `gulp-replace` (build/gulp/ts.js:31-42) is not modelled. Its outcome depends on that library and on JavaScript's regular-expression engine, for example the greedy `[\s\S]*` between the jQuery-augmentation markers.
- `modules_metadata.json` is not part of this model. It is a parameter of both generators.
- Export order is the order of the given sequence. JavaScript's `Object.keys` puts integer-like keys first in ascending order. Export names in the metadata are identifiers, so that rule is not modelled.
- The sequence of exports may repeat a name, which a JavaScript object cannot. Nothing in the model depends on names being distinct.
- Every export entry has a string `path`. In JavaScript, an entry without a path makes `widgetNameByPath` throw in the modules check, which calls it for every export. That failure is not modelled.
- Truthiness is modelled as booleans and an `Option`. `isInternal` and `isWidget` are booleans. A missing `exports` is `None`, and an empty `exports` object is `Some([])`, which JavaScript treats as truthy.
- Identifiers are not claimed to be unique, because the mangling is not injective: `a.b/c` and `a_b/c` give the same identifier.
- TsChecks.ModulesCheckLines: stated only for a non-empty module list whose names, export names and paths hold no line break. Without that, lines cannot be told apart in the text. The empty list is covered by `ModulesCheckContent`.
- TsChecks.JQueryCheckLines: stated only for a non-empty module list whose names, export names and paths hold no line break, for the same reason. The empty list is covered by `JQueryCheckContent`.
- The TypeScript type declarations (`js/**/*.d.ts`) have no behaviour and are not modelled. `js/core/element.d.ts:4` is a type-level conditional, not logic.
- The color view's QUnit tests are not modelled. The color-view implementation is not part of this model, and the tests check layout-dependent pixel positions and floating-point color conversions.
