/**
 * The TypeScript smoke-test sources that the build's `ts-modules-check` and
 * `ts-jquery-check` tasks build in memory and hand to the TypeScript compiler
 * (build/gulp/ts.js), as pure functions of the
 * module metadata.  The metadata is a sequence of modules; each module's
 * exports are a sequence of (name, entry) pairs in the order in which
 * `Object.keys` lists them.
 *
 * Each generator is related to a second description of its output: the
 * generated text, split at newlines, is exactly a list of lines built from
 * the metadata module by module and export by export.
 */
module TsChecks {
  import opened Wrappers
  import opened Strings

  /** What the metadata says of one export: its global path (`ui.dxAccordion`) and whether it is a widget. */
  datatype ExportEntry = ExportEntry(path: string, isWidget: bool)

  /** One module of the metadata; `exports` is `None` when the module has no `exports` key. */
  datatype ModuleMeta = ModuleMeta(name: string, isInternal: bool, exports: Option<seq<(string, ExportEntry)>>)

  /** The bundled declaration file that the jQuery check refers to. */
  const TsBundleFile := "./ts/dx.all.d.ts"

  // ---------------------------------------------------------------------------
  // widgetNameByPath
  // ---------------------------------------------------------------------------

  /** `path` is the global path of the jQuery plugin `w`: `ui.w` or `viz.w`, where `w` starts with `dx` and has no dot. */
  predicate NamesPlugin(path: string, w: string) {
    (path == "ui." + w || path == "viz." + w) && StartsWith(w, "dx") && '.' !in w
  }

  /** A path with a plugin prefix is its namespace, a dot and a tail that starts with `dx`. */
  lemma PrefixedPathSplit(p: string)
    requires StartsWith(p, "ui.dx") || StartsWith(p, "viz.dx")
    ensures var head := if StartsWith(p, "ui.dx") then "ui" else "viz";
            var tail := p[|head| + 1..];
            && p == head + "." + tail
            && StartsWith(tail, "dx")
            && Split(p, '.') == [head] + Split(tail, '.')
            && ('.' !in tail ==> Split(tail, '.') == [tail])
  {
    var head := if StartsWith(p, "ui.dx") then "ui" else "viz";
    var tail := p[|head| + 1..];
    assert p == head + "." + tail;
    assert tail[..2] == p[|head| + 1..|head| + 3];
    SplitAfterFirst(head, tail, '.');
    if '.' !in tail {
      SplitWithoutSeparator(tail, '.');
    }
  }

  /** With a plugin prefix, two dot-segments mean the second one names the plugin and is not empty. */
  lemma PrefixedPathTwoParts(p: string)
    requires StartsWith(p, "ui.dx") || StartsWith(p, "viz.dx")
    ensures |Split(p, '.')| == 2 ==> Split(p, '.')[1] != "" && NamesPlugin(p, Split(p, '.')[1])
  {
    PrefixedPathSplit(p);
    var head := if StartsWith(p, "ui.dx") then "ui" else "viz";
    var tail := p[|head| + 1..];
    if |Split(p, '.')| == 2 {
      assert |Split(tail, '.')| == 1;
      assert Count(tail, '.') == 0;
      assert Split(tail, '.') == [tail];
      assert Split(p, '.')[1] == tail;
      assert head + "." + tail == (head + ".") + tail;
      assert head + "." == "ui." || head + "." == "viz.";
      assert |tail| >= 2;
    }
  }

  /**
   * The jQuery plugin name of a widget's global path: the second dot-separated
   * segment when the path starts with `ui.dx` or `viz.dx` and has exactly two
   * segments, `""` when it has the prefix but another number of segments, and
   * no value (`undefined`) without the prefix.
   */
  function WidgetNameByPath(widgetPath: string): (r: Option<string>)
    ensures r.None? <==> !(StartsWith(widgetPath, "ui.dx") || StartsWith(widgetPath, "viz.dx"))
    ensures r.Some? ==> (r.value == "" <==> |Split(widgetPath, '.')| != 2)
    ensures r.Some? && r.value != "" ==> NamesPlugin(widgetPath, r.value)
  {
    if StartsWith(widgetPath, "ui.dx") || StartsWith(widgetPath, "viz.dx") then
      var parts := Split(widgetPath, '.');
      PrefixedPathTwoParts(widgetPath);
      Some(if |parts| == 2 then parts[1] else "")
    else None
  }

  /** Round trip: the plugin name of the path built from a plugin name is that name. */
  lemma WidgetNameOfPlugin(path: string, w: string)
    requires NamesPlugin(path, w)
    ensures WidgetNameByPath(path) == Some(w)
  {
    var head := if path == "ui." + w then "ui" else "viz";
    assert path == head + "." + w;
    assert path[..|head| + 1] == head + "." && path[|head| + 1..] == w;
    assert path[..|head| + 3] == head + "." + w[..2];
    PrefixedPathSplit(path);
  }

  /** A non-empty plugin name comes back exactly for the paths that name that plugin. */
  lemma WidgetNameByPathPlugin(path: string, w: string)
    ensures (WidgetNameByPath(path) == Some(w) && w != "") <==> NamesPlugin(path, w)
  {
    if NamesPlugin(path, w) {
      WidgetNameOfPlugin(path, w);
    }
  }

  /** `WidgetNameByPathPlugin` for every name at once. */
  lemma WidgetNameByPathPlugins(path: string)
    ensures forall w :: (WidgetNameByPath(path) == Some(w) && w != "") <==> NamesPlugin(path, w)
  {
    forall w ensures (WidgetNameByPath(path) == Some(w) && w != "") <==> NamesPlugin(path, w) {
      WidgetNameByPathPlugin(path, w);
    }
  }

  // ---------------------------------------------------------------------------
  // checkModules: identifiers and import statements
  // ---------------------------------------------------------------------------

  /** The identifier-safe form of a module name: each `.` becomes `_` and each `/` becomes `__`. */
  function Mangle(name: string): (m: string)
    ensures '.' !in m && '/' !in m
    ensures forall ch :: ch in m ==> ch in name || ch == '_'
  {
    if name == [] then []
    else (if name[0] == '.' then "_" else if name[0] == '/' then "__" else [name[0]]) + Mangle(name[1..])
  }

  /** Replacing dots by `_` and then splitting at `/` and joining with `__` is `Mangle`. */
  lemma {:induction false} ReplaceThenJoinIsMangle(name: string)
    ensures ReplaceAll(ReplaceChar(name, '.', '_'), '/', "__") == Mangle(name)
  {
    if name != [] {
      var s := ReplaceChar(name, '.', '_');
      assert s[0] == (if name[0] == '.' then '_' else name[0]);
      assert s[1..] == ReplaceChar(name[1..], '.', '_');
      ReplaceThenJoinIsMangle(name[1..]);
    }
  }

  /**
   * The identifier under which an export is imported: the module name with
   * dots replaced by `_`, split at `/`, with the export name appended, all
   * joined by `__`.  It is the mangled module name, `__` and the export name.
   */
  function UniqueIdentifier(moduleName: string, exportName: string): (id: string)
    ensures id == Mangle(moduleName) + "__" + exportName
  {
    var dotless := ReplaceChar(moduleName, '.', '_');
    var segments := Split(dotless, '/');
    JoinAppend(segments, exportName, "__");
    JoinSplitReplaces(dotless, '/', "__");
    ReplaceThenJoinIsMangle(moduleName);
    Join(segments + [exportName], "__")
  }

  /** `MODULE_NAME__default` for the default export, `{ name as MODULE_NAME__name }` otherwise. */
  function ImportIdentifier(moduleName: string, exportName: string): (r: string)
    ensures exportName == "default" ==> r == Mangle(moduleName) + "__default"
    ensures exportName != "default" ==>
      r == "{ " + exportName + " as " + Mangle(moduleName) + "__" + exportName + " }"
  {
    var id := UniqueIdentifier(moduleName, exportName);
    if exportName == "default" then id else "{ " + exportName + " as " + id + " }"
  }

  /** The quoted path of a module in the npm package. */
  function ModulePath(moduleName: string): (r: string)
    ensures |r| >= 2 && r[0] == '\'' && r[|r| - 1] == '\''
    ensures r[1..|r| - 1] == "./npm/devextreme/" + moduleName
  {
    "'./npm/devextreme/" + moduleName + "'"
  }

  /** The import statement of one export. */
  function ImportStatement(moduleName: string, exportName: string): (r: string)
    ensures r == "import " +
      (if exportName == "default" then Mangle(moduleName) + "__default"
       else "{ " + exportName + " as " + Mangle(moduleName) + "__" + exportName + " }") +
      " from " + ModulePath(moduleName) + ";"
  {
    "import " + ImportIdentifier(moduleName, exportName) + " from " + ModulePath(moduleName) + ";"
  }

  /**
   * `text` after a line that calls the jQuery plugin of `entry`, when the
   * export is a widget whose path names a plugin; `text` alone otherwise.
   */
  function WithPluginCall(entry: ExportEntry, text: string): (r: string)
    ensures forall w :: entry.isWidget && NamesPlugin(entry.path, w) ==>
      r == "$('<div>')." + w + "();\n" + text
    ensures !entry.isWidget || (forall w :: !NamesPlugin(entry.path, w)) ==> r == text
  {
    var widgetName := WidgetNameByPath(entry.path);
    WidgetNameByPathPlugins(entry.path);
    if entry.isWidget && widgetName.Some? && widgetName.value != "" then
      "$('<div>')." + widgetName.value + "();\n" + text
    else text
  }

  /** What the modules check generates for one export: its import statement, with the plugin call first for a widget. */
  function ExportImport(moduleName: string, exportName: string, entry: ExportEntry): (r: string)
    ensures forall w :: entry.isWidget && NamesPlugin(entry.path, w) ==>
      r == "$('<div>')." + w + "();\n" + ImportStatement(moduleName, exportName)
    ensures !entry.isWidget || (forall w :: !NamesPlugin(entry.path, w)) ==>
      r == ImportStatement(moduleName, exportName)
  {
    WithPluginCall(entry, ImportStatement(moduleName, exportName))
  }

  /** What the modules check generates for one module, before the chunks are joined. */
  function ModuleImports(m: ModuleMeta): (chunk: string)
    ensures m.exports.None? ==> chunk == "import './npm/devextreme/" + m.name + "';"
    ensures m.exports == Some([]) ==> chunk == ""
  {
    match m.exports
    case None => "import " + ModulePath(m.name) + ";"
    case Some(es) =>
      Join(seq(|es|, j requires 0 <= j < |es| => ExportImport(m.name, es[j].0, es[j].1)), "\n")
  }

  /** The header of the modules check. */
  const ModulesCheckHeader := "import $ from 'jquery';"

  /** The whole source compiled as `artifacts/modules.ts`: the jQuery import, then the modules' chunks joined by newlines. */
  function ModulesCheckContent(modules: seq<ModuleMeta>): (content: string)
    ensures StartsWith(content, ModulesCheckHeader + "\n")
    ensures modules == [] ==> content == ModulesCheckHeader + "\n"
    ensures |modules| == 1 ==> content == ModulesCheckHeader + "\n" + ModuleImports(modules[0])
  {
    ModulesCheckHeader + "\n" +
      Join(seq(|modules|, i requires 0 <= i < |modules| => ModuleImports(modules[i])), "\n")
  }

  /** The chunks of one more module are the chunks before it and its own. */
  lemma ModuleImportsAppend(modules: seq<ModuleMeta>, m: ModuleMeta)
    ensures seq(|modules + [m]|, i requires 0 <= i < |modules + [m]| => ModuleImports((modules + [m])[i])) ==
            seq(|modules|, i requires 0 <= i < |modules| => ModuleImports(modules[i])) + [ModuleImports(m)]
  {
    var all := modules + [m];
    var before := seq(|modules|, i requires 0 <= i < |modules| => ModuleImports(modules[i]));
    var after := seq(|all|, i requires 0 <= i < |all| => ModuleImports(all[i]));
    forall i | 0 <= i < |after| ensures after[i] == (before + [ModuleImports(m)])[i] {
      if i < |modules| {
        assert all[i] == modules[i];
      }
    }
  }

  /** The modules' chunks are joined by newlines: one more module adds a newline and its chunk. */
  lemma ModulesCheckAppend(modules: seq<ModuleMeta>, m: ModuleMeta)
    requires modules != []
    ensures ModulesCheckContent(modules + [m]) == ModulesCheckContent(modules) + "\n" + ModuleImports(m)
  {
    var before := seq(|modules|, i requires 0 <= i < |modules| => ModuleImports(modules[i]));
    var after := seq(|modules + [m]|, i requires 0 <= i < |modules + [m]| => ModuleImports((modules + [m])[i]));
    ModuleImportsAppend(modules, m);
    JoinAfterHeaderAppend(ModulesCheckHeader, before, ModuleImports(m), "\n");
    assert ModulesCheckContent(modules) == ModulesCheckHeader + "\n" + Join(before, "\n");
    assert ModulesCheckContent(modules + [m]) == ModulesCheckHeader + "\n" + Join(after, "\n");
  }

  // ---------------------------------------------------------------------------
  // checkModules, line by line
  // ---------------------------------------------------------------------------

  /** The lines of `WithPluginCall`: the plugin call when there is one, then `text`. */
  function PluginCallLines(entry: ExportEntry, text: string): seq<string> {
    var widgetName := WidgetNameByPath(entry.path).GetOr("");
    if entry.isWidget && widgetName != "" then ["$('<div>')." + widgetName + "();", text] else [text]
  }

  /** The lines generated for one export. */
  function ExportLines(moduleName: string, exportName: string, entry: ExportEntry): seq<string> {
    PluginCallLines(entry, ImportStatement(moduleName, exportName))
  }

  /** The lines generated for one module; a module with an empty export list leaves one empty line. */
  function ModuleLines(m: ModuleMeta): seq<string> {
    match m.exports
    case None => ["import " + ModulePath(m.name) + ";"]
    case Some(es) =>
      if es == [] then [""]
      else Flatten(seq(|es|, j requires 0 <= j < |es| => ExportLines(m.name, es[j].0, es[j].1)))
  }

  /** No name or path in the metadata of `m` holds a line break. */
  predicate SingleLineModule(m: ModuleMeta) {
    && '\n' !in m.name
    && (m.exports.Some? ==>
          forall j :: 0 <= j < |m.exports.value| ==>
            '\n' !in m.exports.value[j].0 && '\n' !in m.exports.value[j].1.path)
  }

  /** The plugin name of a single-line path is a single line. */
  lemma WidgetNameSingleLine(path: string)
    requires '\n' !in path
    ensures WidgetNameByPath(path).Some? ==> '\n' !in WidgetNameByPath(path).value
  {
    if WidgetNameByPath(path).Some? && WidgetNameByPath(path).value != "" {
      assert NamesPlugin(path, WidgetNameByPath(path).value);
    }
  }

  /** Both headers are single lines. */
  lemma HeadersSingleLine()
    ensures '\n' !in ModulesCheckHeader && '\n' !in JQueryCheckHeader
  {
  }

  /** An import statement built from single-line names is a single line. */
  lemma ImportStatementSingleLine(moduleName: string, exportName: string)
    requires '\n' !in moduleName && '\n' !in exportName
    ensures '\n' !in ImportStatement(moduleName, exportName)
  {
    var id := ImportIdentifier(moduleName, exportName);
    var path := ModulePath(moduleName);
    ImportIdentifierSingleLine(moduleName, exportName);
    ModulePathSingleLine(moduleName);
    assert ImportStatement(moduleName, exportName) == "import " + id + " from " + path + ";";
  }

  /** The module path of a single-line name is a single line. */
  lemma ModulePathSingleLine(moduleName: string)
    requires '\n' !in moduleName
    ensures '\n' !in ModulePath(moduleName)
  {
    assert ModulePath(moduleName) == "'./npm/devextreme/" + moduleName + "'";
  }

  /** An import identifier built from single-line names is a single line. */
  lemma ImportIdentifierSingleLine(moduleName: string, exportName: string)
    requires '\n' !in moduleName && '\n' !in exportName
    ensures '\n' !in ImportIdentifier(moduleName, exportName)
  {
    assert '\n' !in Mangle(moduleName);
  }

  /** `WithPluginCall` is its lines joined by newlines; they are single lines when `text` and the path are. */
  lemma WithPluginCallLines(entry: ExportEntry, text: string)
    ensures WithPluginCall(entry, text) == Join(PluginCallLines(entry, text), "\n")
    ensures |PluginCallLines(entry, text)| >= 1
    ensures '\n' !in text && '\n' !in entry.path ==> FreeOf(PluginCallLines(entry, text), '\n')
  {
    var widgetName := WidgetNameByPath(entry.path);
    if entry.isWidget && widgetName.Some? && widgetName.value != "" {
      var call := "$('<div>')." + widgetName.value + "();";
      assert PluginCallLines(entry, text) == [call, text];
      assert WithPluginCall(entry, text) == call + "\n" + text;
      assert Join([call, text], "\n") == call + "\n" + Join([text], "\n");
      if '\n' !in entry.path {
        WidgetNameSingleLine(entry.path);
        assert '\n' !in call;
      }
    } else {
      assert PluginCallLines(entry, text) == [text];
    }
  }

  /** The lines of one module, joined by newlines, are the module's chunk. */
  lemma ModuleImportsLines(m: ModuleMeta)
    ensures ModuleImports(m) == Join(ModuleLines(m), "\n")
    ensures |ModuleLines(m)| >= 1
    ensures SingleLineModule(m) ==> FreeOf(ModuleLines(m), '\n')
  {
    if m.exports.Some? && m.exports.value != [] {
      var es := m.exports.value;
      var parts := seq(|es|, j requires 0 <= j < |es| => ExportImport(m.name, es[j].0, es[j].1));
      var ls := seq(|es|, j requires 0 <= j < |es| => ExportLines(m.name, es[j].0, es[j].1));
      forall j | 0 <= j < |es|
        ensures |ls[j]| >= 1 && parts[j] == Join(ls[j], "\n")
        ensures SingleLineModule(m) ==> FreeOf(ls[j], '\n')
      {
        var stmt := ImportStatement(m.name, es[j].0);
        WithPluginCallLines(es[j].1, stmt);
        if SingleLineModule(m) {
          ImportStatementSingleLine(m.name, es[j].0);
        }
      }
      JoinOfJoins(parts, ls, "\n");
      if SingleLineModule(m) {
        FlattenFreeOf(ls, '\n');
      }
    }
  }

  /**
   * `artifacts/modules.ts`, read line by line: the jQuery import, then each
   * module's lines in order.  Names and paths must be single lines, or the
   * lines would not be told apart.
   */
  lemma ModulesCheckLines(modules: seq<ModuleMeta>)
    requires modules != []
    requires forall i :: 0 <= i < |modules| ==> SingleLineModule(modules[i])
    ensures Split(ModulesCheckContent(modules), '\n') ==
      [ModulesCheckHeader] + Flatten(seq(|modules|, i requires 0 <= i < |modules| => ModuleLines(modules[i])))
  {
    var parts := seq(|modules|, i requires 0 <= i < |modules| => ModuleImports(modules[i]));
    var ls := seq(|modules|, i requires 0 <= i < |modules| => ModuleLines(modules[i]));
    forall i | 0 <= i < |modules|
      ensures |ls[i]| >= 1 && parts[i] == Join(ls[i], "\n") && FreeOf(ls[i], '\n')
    {
      ModuleImportsLines(modules[i]);
    }
    JoinOfJoins(parts, ls, "\n");
    FlattenFreeOf(ls, '\n');
    SplitJoin(Flatten(ls), '\n');
    HeadersSingleLine();
    SplitAfterFirst(ModulesCheckHeader, Join(Flatten(ls), "\n"), '\n');
  }

  // ---------------------------------------------------------------------------
  // checkJQueryAugmentations
  // ---------------------------------------------------------------------------

  /**
   * What the jQuery check generates for one export: a plugin call and a typed
   * call of its `instance` method, each on its own line, when the module is
   * public and the export is a widget whose path names a plugin; nothing
   * otherwise.
   */
  function AugmentationLines(m: ModuleMeta, entry: ExportEntry): (r: string)
    ensures forall w :: !m.isInternal && entry.isWidget && NamesPlugin(entry.path, w) ==>
      r == "$()." + w + "();" + "\n" + "<DevExpress." + entry.path + ">$()." + w + "(\"instance\");" + "\n"
    ensures m.isInternal || !entry.isWidget || (forall w :: !NamesPlugin(entry.path, w)) ==> r == ""
  {
    WidgetNameByPathPlugins(entry.path);
    if m.isInternal then ""
    else if !entry.isWidget then ""
    else
      match WidgetNameByPath(entry.path)
      case None => ""
      case Some(widgetName) =>
        if widgetName == "" then ""
        else "$()." + widgetName + "();" + "\n" +
             "<DevExpress." + entry.path + ">$()." + widgetName + "(\"instance\");" + "\n"
  }

  /** Concatenating empty pieces gives the empty string. */
  lemma {:induction false} ConcatOfEmpties(parts: seq<string>)
    requires forall k :: 0 <= k < |parts| ==> parts[k] == ""
    ensures Join(parts, "") == ""
  {
    if |parts| > 1 {
      ConcatOfEmpties(parts[1..]);
    }
  }

  /** What the jQuery check generates for one module: its exports' lines, concatenated. */
  function ModuleAugmentations(m: ModuleMeta): (chunk: string)
    ensures m.isInternal || m.exports.None? || m.exports == Some([]) ==> chunk == ""
  {
    var es := m.exports.GetOr([]);
    var parts := seq(|es|, j requires 0 <= j < |es| => AugmentationLines(m, es[j].1));
    var chunk := Join(parts, "");
    assert m.isInternal ==> chunk == "" by {
      if m.isInternal {
        ConcatOfEmpties(parts);
      }
    }
    chunk
  }

  /** The reference line that opens the jQuery check. */
  const JQueryCheckHeader := "/// <reference path=\"" + TsBundleFile + "\" />"

  /** The whole source compiled as `artifacts/globals.ts`: the reference line, then the modules' chunks joined by newlines. */
  function JQueryCheckContent(modules: seq<ModuleMeta>): (content: string)
    ensures StartsWith(content, JQueryCheckHeader + "\n")
    ensures modules == [] ==> content == JQueryCheckHeader + "\n"
    ensures |modules| == 1 ==> content == JQueryCheckHeader + "\n" + ModuleAugmentations(modules[0])
  {
    JQueryCheckHeader + "\n" +
      Join(seq(|modules|, i requires 0 <= i < |modules| => ModuleAugmentations(modules[i])), "\n")
  }

  /** The chunks of one more module are the chunks before it and its own. */
  lemma ModuleAugmentationsAppend(modules: seq<ModuleMeta>, m: ModuleMeta)
    ensures seq(|modules + [m]|, i requires 0 <= i < |modules + [m]| => ModuleAugmentations((modules + [m])[i])) ==
            seq(|modules|, i requires 0 <= i < |modules| => ModuleAugmentations(modules[i])) + [ModuleAugmentations(m)]
  {
    var all := modules + [m];
    var before := seq(|modules|, i requires 0 <= i < |modules| => ModuleAugmentations(modules[i]));
    var after := seq(|all|, i requires 0 <= i < |all| => ModuleAugmentations(all[i]));
    forall i | 0 <= i < |after| ensures after[i] == (before + [ModuleAugmentations(m)])[i] {
      if i < |modules| {
        assert all[i] == modules[i];
      }
    }
  }

  /** The modules' chunks are joined by newlines: one more module adds a newline and its chunk. */
  lemma JQueryCheckAppend(modules: seq<ModuleMeta>, m: ModuleMeta)
    requires modules != []
    ensures JQueryCheckContent(modules + [m]) == JQueryCheckContent(modules) + "\n" + ModuleAugmentations(m)
  {
    var before := seq(|modules|, i requires 0 <= i < |modules| => ModuleAugmentations(modules[i]));
    var after := seq(|modules + [m]|, i requires 0 <= i < |modules + [m]| => ModuleAugmentations((modules + [m])[i]));
    ModuleAugmentationsAppend(modules, m);
    JoinAfterHeaderAppend(JQueryCheckHeader, before, ModuleAugmentations(m), "\n");
    assert JQueryCheckContent(modules) == JQueryCheckHeader + "\n" + Join(before, "\n");
    assert JQueryCheckContent(modules + [m]) == JQueryCheckHeader + "\n" + Join(after, "\n");
  }

  // ---------------------------------------------------------------------------
  // checkJQueryAugmentations, line by line
  // ---------------------------------------------------------------------------

  /** The two lines generated for one export, or none. */
  function AugmentationLineList(m: ModuleMeta, entry: ExportEntry): seq<string> {
    var widgetName := WidgetNameByPath(entry.path).GetOr("");
    if !m.isInternal && entry.isWidget && widgetName != "" then
      ["$()." + widgetName + "();", "<DevExpress." + entry.path + ">$()." + widgetName + "(\"instance\");"]
    else []
  }

  /** The lines generated for one module. */
  function ModuleAugmentationLines(m: ModuleMeta): seq<string> {
    var es := m.exports.GetOr([]);
    Flatten(seq(|es|, j requires 0 <= j < |es| => AugmentationLineList(m, es[j].1)))
  }

  /** The jQuery check's text for one export is its lines, each followed by a newline. */
  lemma AugmentationLinesUnlines(m: ModuleMeta, entry: ExportEntry)
    ensures AugmentationLines(m, entry) == Unlines(AugmentationLineList(m, entry))
  {
    var widgetName := WidgetNameByPath(entry.path);
    if !m.isInternal && entry.isWidget && widgetName.Some? && widgetName.value != "" {
      var w := widgetName.value;
      var call := "$()." + w + "();";
      var instance := "<DevExpress." + entry.path + ">$()." + w + "(\"instance\");";
      assert AugmentationLineList(m, entry) == [call, instance];
      assert AugmentationLines(m, entry) == call + "\n" + instance + "\n";
      UnlinesPair(call, instance);
    }
  }

  /** The jQuery check's lines for an export with a single-line path are single lines. */
  lemma AugmentationLineListSingleLine(m: ModuleMeta, entry: ExportEntry)
    requires '\n' !in entry.path
    ensures FreeOf(AugmentationLineList(m, entry), '\n')
  {
    WidgetNameSingleLine(entry.path);
  }

  /** One module's chunk is its lines, each followed by a newline. */
  lemma ModuleAugmentationsLines(m: ModuleMeta)
    ensures ModuleAugmentations(m) == Unlines(ModuleAugmentationLines(m))
    ensures SingleLineModule(m) ==> FreeOf(ModuleAugmentationLines(m), '\n')
  {
    var es := m.exports.GetOr([]);
    var parts := seq(|es|, j requires 0 <= j < |es| => AugmentationLines(m, es[j].1));
    var ls := seq(|es|, j requires 0 <= j < |es| => AugmentationLineList(m, es[j].1));
    forall j | 0 <= j < |es|
      ensures parts[j] == Unlines(ls[j])
      ensures SingleLineModule(m) ==> FreeOf(ls[j], '\n')
    {
      AugmentationLinesUnlines(m, es[j].1);
      if SingleLineModule(m) {
        AugmentationLineListSingleLine(m, es[j].1);
      }
    }
    ConcatOfUnlines(parts, ls);
    if SingleLineModule(m) {
      FlattenFreeOf(ls, '\n');
    }
  }

  /**
   * `artifacts/globals.ts`, read line by line: the reference line, then for
   * each module its two lines per public widget export whose path names a
   * plugin, followed by one empty line.  Names and paths must be single lines.
   */
  lemma JQueryCheckLines(modules: seq<ModuleMeta>)
    requires modules != []
    requires forall i :: 0 <= i < |modules| ==> SingleLineModule(modules[i])
    ensures Split(JQueryCheckContent(modules), '\n') ==
      [JQueryCheckHeader] +
      Flatten(seq(|modules|, i requires 0 <= i < |modules| => ModuleAugmentationLines(modules[i]) + [""]))
  {
    var parts := seq(|modules|, i requires 0 <= i < |modules| => ModuleAugmentations(modules[i]));
    var ls := seq(|modules|, i requires 0 <= i < |modules| => ModuleAugmentationLines(modules[i]) + [""]);
    forall i | 0 <= i < |modules|
      ensures |ls[i]| >= 1 && parts[i] == Join(ls[i], "\n") && FreeOf(ls[i], '\n')
    {
      ModuleAugmentationsLines(modules[i]);
      UnlinesIsJoin(ModuleAugmentationLines(modules[i]));
    }
    JoinOfJoins(parts, ls, "\n");
    FlattenFreeOf(ls, '\n');
    SplitJoin(Flatten(ls), '\n');
    HeadersSingleLine();
    SplitAfterFirst(JQueryCheckHeader, Join(Flatten(ls), "\n"), '\n');
  }
}
