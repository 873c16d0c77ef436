/** Dependency-usage detection around the syntax-tree queries: the language of a file,
    the usage records built from the captured nodes, the imported-symbol map, and the
    filter that keeps the usages of one dependency.  The syntax trees themselves are
    given: a capture is its text and its zero-based row. */
module CodeParser {
  import opened Wrappers
  import opened Text
  import opened Schemas

  // ---------------------------------------------------------------------------
  // languages
  // ---------------------------------------------------------------------------

  /** `EXTENSION_MAP`, in its declaration order. */
  const ExtensionMap: seq<(string, string)> := [
    (".py", "python"), (".js", "javascript"), (".ts", "typescript"),
    (".tsx", "typescript"), (".jsx", "javascript")
  ]

  function LookupPairs(pairs: seq<(string, string)>, key: string): (v: Option<string>)
    ensures v.None? <==> forall k :: 0 <= k < |pairs| ==> pairs[k].0 != key
    ensures v.Some? ==> exists k :: 0 <= k < |pairs| && pairs[k] == (key, v.value)
  {
    if |pairs| == 0 then None
    else if pairs[0].0 == key then Some(pairs[0].1)
    else
      var v := LookupPairs(pairs[1..], key);
      assert forall k :: 1 <= k < |pairs| ==> pairs[1..][k - 1] == pairs[k];
      v
  }

  /** The index of the last `c` in `s`, or -1: `s.rfind(c)`. */
  function FindLast(s: string, c: char): (k: int)
    ensures -1 <= k < |s|
    ensures k >= 0 ==> s[k] == c
    ensures forall j :: k < j < |s| ==> s[j] != c
    decreases |s|
  {
    if |s| == 0 then -1
    else if s[|s| - 1] == c then |s| - 1
    else FindLast(s[..|s| - 1], c)
  }

  /** The final path component: `Path(p).name`. */
  function BaseName(path: string): (name: string)
    ensures '/' !in name
    ensures EndsWith(path, name)
  {
    path[FindLast(path, '/') + 1..]
  }

  /** `Path(p).suffix`: from the last dot of the name, unless that dot starts or ends it. */
  function Suffix(name: string): (ext: string)
    ensures ext == [] || (ext[0] == '.' && EndsWith(name, ext) && |ext| >= 2 && '.' !in ext[1..])
  {
    var i := FindLast(name, '.');
    if 0 < i < |name| - 1 then
      var ext := name[i..];
      assert forall j :: 0 <= j < |ext| ==> ext[j] == name[i + j];
      ext
    else []
  }

  /** `_get_language`: the lowercased suffix looked up in the extension map. */
  function GetLanguage(path: string): (lang: Option<string>)
    ensures lang.Some? <==> Lower(Suffix(BaseName(path))) in [".py", ".js", ".ts", ".tsx", ".jsx"]
    ensures lang.Some? ==> lang.value in ["python", "javascript", "typescript"]
  {
    var key := Lower(Suffix(BaseName(path)));
    ExtensionMapKeys(key);
    LookupPairs(ExtensionMap, key)
  }

  /** The extension map knows exactly its five suffixes, and maps them to three languages. */
  lemma ExtensionMapKeys(key: string)
    ensures LookupPairs(ExtensionMap, key).Some? <==> key in [".py", ".js", ".ts", ".tsx", ".jsx"]
    ensures LookupPairs(ExtensionMap, key).Some? ==>
      LookupPairs(ExtensionMap, key).value in ["python", "javascript", "typescript"]
  {
  }

  lemma BaseNameAt(path: string, k: nat)
    requires k < |path| && path[k] == '/' && forall j :: k < j < |path| ==> path[j] != '/'
    ensures BaseName(path) == path[k + 1..]
  {
  }

  lemma SuffixAt(name: string, i: nat)
    requires 0 < i < |name| - 1 && name[i] == '.' && forall j :: i < j < |name| ==> name[j] != '.'
    ensures Suffix(name) == name[i..]
  {
  }

  /** A file named `stem + ext` has the language its lowercased extension maps to. */
  lemma GetLanguageOfName(dir: string, stem: string, ext: string)
    requires stem != [] && '/' !in stem && '/' !in ext
    requires |ext| >= 2 && ext[0] == '.' && '.' !in ext[1..]
    ensures GetLanguage(dir + "/" + stem + ext) == LookupPairs(ExtensionMap, Lower(ext))
  {
    var path := dir + "/" + stem + ext;
    var name := stem + ext;
    PathParts(path, dir, name);
    BaseNameAt(path, |dir|);
    NameParts(name, stem, ext);
    SuffixAt(name, |stem|);
  }

  lemma PathParts(path: string, dir: string, name: string)
    requires path == dir + "/" + name && '/' !in name
    ensures path[|dir|] == '/' && path[|dir| + 1..] == name
    ensures forall j :: |dir| < j < |path| ==> path[j] != '/'
  {
    assert forall j :: |dir| < j < |path| ==> path[j] == name[j - |dir| - 1];
  }

  lemma NameParts(name: string, stem: string, ext: string)
    requires name == stem + ext && |ext| >= 2 && ext[0] == '.' && '.' !in ext[1..]
    ensures name[|stem|] == '.' && name[|stem|..] == ext
    ensures forall j :: |stem| < j < |name| ==> name[j] != '.'
  {
    assert forall j :: |stem| < j < |name| ==> name[j] == ext[1..][j - |stem| - 1];
  }

  /** A name with no dot in it has no language. */
  lemma NoSuffixNoLanguage(path: string)
    requires '.' !in BaseName(path)
    ensures GetLanguage(path) == None
  {
    var name := BaseName(path);
    assert FindLast(name, '.') == -1;
  }

  // ---------------------------------------------------------------------------
  // import captures
  // ---------------------------------------------------------------------------

  predicate IsQuote(c: char) {
    c == '\'' || c == '"'
  }

  /** `_strip_quotes`: drops the first and last characters when both are quotes. */
  function StripQuotes(text: string): (r: string)
    ensures r != text <==> |text| >= 2 && IsQuote(text[0]) && IsQuote(text[|text| - 1])
    ensures r != text ==> r == text[1..|text| - 1]
  {
    if |text| >= 2 && IsQuote(text[0]) && IsQuote(text[|text| - 1]) then text[1..|text| - 1] else text
  }

  /** A quoted literal loses exactly its quotes. */
  lemma StripQuotesOfLiteral(q: char, s: string, q': char)
    requires IsQuote(q) && IsQuote(q')
    ensures StripQuotes([q] + s + [q']) == s
  {
    var t := [q] + s + [q'];
    assert t[1..|t| - 1] == s;
  }

  /** `_usage_type_from_parent` */
  function UsageTypeFromParent(nodeType: string, parentType: Option<string>): (t: string)
    ensures t == "import_from" <==> parentType == Some("import_from_statement")
    ensures t != "import_from" ==> t == "import"
  {
    if parentType == Some("import_from_statement") then "import_from" else "import"
  }

  /** A captured module node: its text (`""` when it has none), its zero-based start row,
      its type and its parent's type. */
  datatype ModuleNode = ModuleNode(text: string, row: nat, nodeType: string, parentType: Option<string>)

  /** The usage type of a module capture: a `require()` argument is an import. */
  function ModuleUsageType(node: ModuleNode): (t: string)
    ensures t == "import_from" <==> node.parentType == Some("import_from_statement")
    ensures t != "import_from" ==> t == "import"
  {
    if node.parentType == Some("arguments") then "import"
    else UsageTypeFromParent(node.nodeType, node.parentType)
  }

  /** The source line a one-based line number points at, or `""` past the end. */
  function Snippet(sourceLines: seq<string>, lineNumber: nat): (s: string)
    requires lineNumber >= 1
    ensures lineNumber <= |sourceLines| ==> s == sourceLines[lineNumber - 1]
    ensures lineNumber > |sourceLines| ==> s == []
  {
    if lineNumber <= |sourceLines| then sourceLines[lineNumber - 1] else []
  }

  /** The usage `parse_file` records for one module capture. */
  function ModuleUsage(node: ModuleNode, sourceLines: seq<string>, filePath: string): (u: CodeUsage)
    ensures u.lineNumber == node.row + 1 && u.filePath == filePath
    ensures u.symbol == StripQuotes(node.text)
    ensures u.usageType == ModuleUsageType(node)
    ensures u.codeSnippet == Strip(Snippet(sourceLines, node.row + 1))
  {
    CodeUsage(filePath, node.row + 1, ModuleUsageType(node), StripQuotes(node.text),
              Strip(Snippet(sourceLines, node.row + 1)))
  }

  // ---------------------------------------------------------------------------
  // the imported-symbol map
  // ---------------------------------------------------------------------------

  /** A `name` child of a from-import: a dotted name, or an aliased import whose alias
      text is `""` when it has none. */
  datatype ImportedName = DottedName(text: string) | AliasedImport(alias: string)

  /** A from-import statement: its module text (`""` when it has none) and its names. */
  datatype FromImport = FromImport(moduleName: string, names: seq<ImportedName>)

  /** `s.split(".")[-1]` */
  function LastComponent(s: string): (r: string)
    ensures '.' !in r
  {
    var parts := Split(s, '.');
    SplitPartsLackSep(s, '.', |parts| - 1);
    parts[|parts| - 1]
  }

  /** The key one imported name is entered under, if any. */
  function NameKey(n: ImportedName): (k: Option<string>)
  {
    match n
    case AliasedImport(a) => if a == [] then None else Some(Lower(a))
    case DottedName(t) => if t == [] then None else Some(Lower(LastComponent(t)))
  }

  /** The names of one statement entered into `m` in order: a later name overwrites. */
  function AddNames(m: map<string, string>, moduleName: string, names: seq<ImportedName>): (m': map<string, string>)
  {
    if |names| == 0 then m
    else
      var prev := AddNames(m, moduleName, names[..|names| - 1]);
      match NameKey(names[|names| - 1])
      case Some(k) => prev[k := moduleName]
      case None => prev
  }

  /** `_build_imported_symbol_map` over the from-import statements in query order. */
  function SymbolMap(stmts: seq<FromImport>): (m: map<string, string>)
  {
    if |stmts| == 0 then map[]
    else
      var prev := SymbolMap(stmts[..|stmts| - 1]);
      var s := stmts[|stmts| - 1];
      if s.moduleName == [] then prev else AddNames(prev, s.moduleName, s.names)
  }

  method AddImportedNames(mapping: map<string, string>, moduleName: string, names: seq<ImportedName>)
    returns (m: map<string, string>)
    ensures m == AddNames(mapping, moduleName, names)
  {
    m := mapping;
    for j := 0 to |names|
      invariant m == AddNames(mapping, moduleName, names[..j])
    {
      assert names[..j + 1][..j] == names[..j];
      var n := names[j];
      if n.AliasedImport? {
        if n.alias != [] {
          m := m[Lower(n.alias) := moduleName];
        }
      } else if n.text != [] {
        var name := LastComponent(n.text);
        m := m[Lower(name) := moduleName];
      }
    }
    assert names[..|names|] == names;
  }

  method BuildImportedSymbolMap(stmts: seq<FromImport>) returns (mapping: map<string, string>)
    ensures mapping == SymbolMap(stmts)
  {
    mapping := map[];
    for i := 0 to |stmts|
      invariant mapping == SymbolMap(stmts[..i])
    {
      assert stmts[..i + 1][..i] == stmts[..i];
      if stmts[i].moduleName != [] {
        mapping := AddImportedNames(mapping, stmts[i].moduleName, stmts[i].names);
      }
    }
    assert stmts[..|stmts|] == stmts;
  }

  /** A key is in the map after the names are added iff it was there or some name has it. */
  lemma {:induction false} AddNamesKeys(m: map<string, string>, moduleName: string, names: seq<ImportedName>, k: string)
    ensures k in AddNames(m, moduleName, names) <==>
            k in m || exists j :: 0 <= j < |names| && NameKey(names[j]) == Some(k)
    decreases |names|
  {
    if |names| > 0 {
      var n := |names| - 1;
      var init := names[..n];
      var last := NameKey(names[n]);
      AddNamesKeys(m, moduleName, init, k);
      if last != Some(k) && exists j :: 0 <= j < |names| && NameKey(names[j]) == Some(k) {
        var j :| 0 <= j < |names| && NameKey(names[j]) == Some(k);
        assert init[j] == names[j];
      }
      if exists j :: 0 <= j < n && NameKey(init[j]) == Some(k) {
        var j :| 0 <= j < n && NameKey(init[j]) == Some(k);
        assert init[j] == names[j];
      }
    }
  }

  /** Adding names maps each key either to the statement's module or to its old value. */
  lemma {:induction false} AddNamesValues(m: map<string, string>, moduleName: string, names: seq<ImportedName>, k: string)
    requires k in AddNames(m, moduleName, names)
    ensures AddNames(m, moduleName, names)[k] == moduleName || (k in m && AddNames(m, moduleName, names)[k] == m[k])
    decreases |names|
  {
    if |names| > 0 {
      var n := |names| - 1;
      if NameKey(names[n]) != Some(k) {
        AddNamesValues(m, moduleName, names[..n], k);
      }
    }
  }

  /** The map's keys are exactly the keys of the names of the statements that have a
      moduleName. */
  lemma {:induction false} SymbolMapKeys(stmts: seq<FromImport>, k: string)
    ensures k in SymbolMap(stmts) <==>
            exists i, j :: 0 <= i < |stmts| && stmts[i].moduleName != [] && 0 <= j < |stmts[i].names| &&
                           NameKey(stmts[i].names[j]) == Some(k)
    decreases |stmts|
  {
    if |stmts| > 0 {
      var n := |stmts| - 1;
      var init := stmts[..n];
      var s := stmts[n];
      SymbolMapKeys(init, k);
      assert forall i :: 0 <= i < n ==> init[i] == stmts[i];
      if s.moduleName != [] {
        AddNamesKeys(SymbolMap(init), s.moduleName, s.names, k);
      }
      if exists i, j :: 0 <= i < n && stmts[i].moduleName != [] && 0 <= j < |stmts[i].names| &&
                        NameKey(stmts[i].names[j]) == Some(k) {
        var i, j :| 0 <= i < n && stmts[i].moduleName != [] && 0 <= j < |stmts[i].names| &&
                    NameKey(stmts[i].names[j]) == Some(k);
        assert init[i] == stmts[i];
      }
    }
  }

  /** Every value of the map is the moduleName of a statement that has one. */
  lemma {:induction false} SymbolMapValues(stmts: seq<FromImport>, k: string)
    requires k in SymbolMap(stmts)
    ensures exists i :: 0 <= i < |stmts| && stmts[i].moduleName != [] && SymbolMap(stmts)[k] == stmts[i].moduleName
    decreases |stmts|
  {
    var n := |stmts| - 1;
    var init := stmts[..n];
    var s := stmts[n];
    if s.moduleName != [] {
      AddNamesValues(SymbolMap(init), s.moduleName, s.names, k);
    }
    if SymbolMap(stmts)[k] != s.moduleName || s.moduleName == [] {
      SymbolMapValues(init, k);
      var i :| 0 <= i < n && init[i].moduleName != [] && SymbolMap(init)[k] == init[i].moduleName;
      assert stmts[i] == init[i];
    }
  }

  lemma {:induction false} SplitLast(a: string, b: string, c: char)
    requires c !in b
    ensures var ps := Split(a + [c] + b, c); ps[|ps| - 1] == b
    decreases |a|
  {
    var s := a + [c] + b;
    var k := FindFrom(s, c, 0);
    assert s[|a|] == c;
    assert k <= |a|;
    if k == |a| {
      assert s[k + 1..] == b;
      NoSepFound(b, c);
    } else {
      assert s[k + 1..] == a[k + 1..] + [c] + b;
      SplitLast(a[k + 1..], b, c);
    }
  }

  /** `from m import A.B` enters `b`, and an alias is entered lowercased. */
  lemma DottedNameKey(prefix: string, last: string)
    requires last != [] && '.' !in last
    ensures NameKey(DottedName(prefix + "." + last)) == Some(Lower(last))
  {
    SplitLast(prefix, last, '.');
  }

  // ---------------------------------------------------------------------------
  // call sites
  // ---------------------------------------------------------------------------

  /** A captured identifier: its text and its zero-based start row. */
  datatype Capture = Capture(text: string, row: nat)

  /** The call-site captures by name: `func`, `base`, `dec` and `dec_call`. */
  datatype CallSiteCaptures = CallSiteCaptures(
    funcs: seq<Capture>, bases: seq<Capture>, decs: seq<Capture>, decCalls: seq<Capture>)

  /** The usage recorded for one captured identifier, when its lowercase form was
      imported. */
  function CallSiteUsage(c: Capture, usageType: string, sourceLines: seq<string>, filePath: string,
                         symbolMap: map<string, string>): (u: Option<CodeUsage>)
    ensures u.Some? <==> c.text != [] && Lower(c.text) in symbolMap
    ensures u.Some? ==> u.value.symbol == symbolMap[Lower(c.text)] + "." + c.text &&
                        u.value.usageType == usageType && u.value.lineNumber == c.row + 1 &&
                        u.value.filePath == filePath
  {
    if c.text == [] || Lower(c.text) !in symbolMap then None
    else
      var line := c.row + 1;
      Some(CodeUsage(filePath, line, usageType, symbolMap[Lower(c.text)] + "." + c.text,
                     Strip(Snippet(sourceLines, line))))
  }

  function CallSiteUsages(cs: seq<Capture>, usageType: string, sourceLines: seq<string>, filePath: string,
                          symbolMap: map<string, string>): (us: seq<CodeUsage>)
    ensures |us| <= |cs|
  {
    if |cs| == 0 then []
    else
      var prev := CallSiteUsages(cs[..|cs| - 1], usageType, sourceLines, filePath, symbolMap);
      match CallSiteUsage(cs[|cs| - 1], usageType, sourceLines, filePath, symbolMap)
      case Some(u) => prev + [u]
      case None => prev
  }

  /** `_extract_call_sites`: the kinds in the order `func`, `base`, `dec`, `dec_call`. */
  function CallSites(caps: CallSiteCaptures, sourceLines: seq<string>, filePath: string,
                     symbolMap: map<string, string>): (us: seq<CodeUsage>)
  {
    if |symbolMap| == 0 then []
    else CallSiteUsages(caps.funcs, "call", sourceLines, filePath, symbolMap) +
         CallSiteUsages(caps.bases, "base_class", sourceLines, filePath, symbolMap) +
         CallSiteUsages(caps.decs, "decorator", sourceLines, filePath, symbolMap) +
         CallSiteUsages(caps.decCalls, "decorator", sourceLines, filePath, symbolMap)
  }

  method AppendCallSites(usages: seq<CodeUsage>, cs: seq<Capture>, usageType: string, sourceLines: seq<string>,
                         filePath: string, symbolMap: map<string, string>) returns (us: seq<CodeUsage>)
    ensures us == usages + CallSiteUsages(cs, usageType, sourceLines, filePath, symbolMap)
  {
    us := usages;
    for i := 0 to |cs|
      invariant us == usages + CallSiteUsages(cs[..i], usageType, sourceLines, filePath, symbolMap)
    {
      assert cs[..i + 1][..i] == cs[..i];
      var node := cs[i];
      if node.text != [] && Lower(node.text) in symbolMap {
        var moduleName := symbolMap[Lower(node.text)];
        var lineNumber := node.row + 1;
        var snippet := if lineNumber <= |sourceLines| then sourceLines[lineNumber - 1] else [];
        us := us + [CodeUsage(filePath, lineNumber, usageType, moduleName + "." + node.text, Strip(snippet))];
      }
    }
    assert cs[..|cs|] == cs;
  }

  method ExtractCallSites(caps: CallSiteCaptures, sourceLines: seq<string>, filePath: string,
                          symbolMap: map<string, string>) returns (usages: seq<CodeUsage>)
    ensures usages == CallSites(caps, sourceLines, filePath, symbolMap)
  {
    if |symbolMap| == 0 {
      return [];
    }
    ghost var funcs := CallSiteUsages(caps.funcs, "call", sourceLines, filePath, symbolMap);
    ghost var bases := CallSiteUsages(caps.bases, "base_class", sourceLines, filePath, symbolMap);
    ghost var decs := CallSiteUsages(caps.decs, "decorator", sourceLines, filePath, symbolMap);
    ghost var decCalls := CallSiteUsages(caps.decCalls, "decorator", sourceLines, filePath, symbolMap);
    assert CallSites(caps, sourceLines, filePath, symbolMap) == funcs + bases + decs + decCalls;
    usages := AppendCallSites([], caps.funcs, "call", sourceLines, filePath, symbolMap);
    assert usages == funcs;
    usages := AppendCallSites(usages, caps.bases, "base_class", sourceLines, filePath, symbolMap);
    usages := AppendCallSites(usages, caps.decs, "decorator", sourceLines, filePath, symbolMap);
    usages := AppendCallSites(usages, caps.decCalls, "decorator", sourceLines, filePath, symbolMap);
  }

  /** One usage per captured identifier that was imported, and nothing else. */
  lemma {:induction false} CallSiteUsagesMembership(cs: seq<Capture>, usageType: string, sourceLines: seq<string>,
                                                   filePath: string, symbolMap: map<string, string>, u: CodeUsage)
    ensures u in CallSiteUsages(cs, usageType, sourceLines, filePath, symbolMap) <==>
            exists i :: 0 <= i < |cs| && CallSiteUsage(cs[i], usageType, sourceLines, filePath, symbolMap) == Some(u)
    decreases |cs|
  {
    if |cs| > 0 {
      var n := |cs| - 1;
      CallSiteUsagesMembership(cs[..n], usageType, sourceLines, filePath, symbolMap, u);
      assert forall i :: 0 <= i < n ==> cs[..n][i] == cs[i];
    }
  }

  // ---------------------------------------------------------------------------
  // one file
  // ---------------------------------------------------------------------------

  /** The languages `IMPORT_QUERIES` has a query for. */
  predicate HasImportQuery(language: string) {
    language == "python" || language == "javascript" || language == "typescript"
  }

  /** What the syntax tree of one file yields to the queries: the `module` captures, and
      for Python the from-import statements and the call-site captures. */
  datatype ParsedTree = ParsedTree(modules: seq<ModuleNode>, fromImports: seq<FromImport>, calls: CallSiteCaptures)

  /** The usages of the module captures, one per capture, in capture order. */
  function ModuleUsages(nodes: seq<ModuleNode>, sourceLines: seq<string>, filePath: string): (us: seq<CodeUsage>)
    ensures |us| == |nodes|
    ensures forall i :: 0 <= i < |nodes| ==> us[i] == ModuleUsage(nodes[i], sourceLines, filePath)
  {
    if |nodes| == 0 then []
    else ModuleUsages(nodes[..|nodes| - 1], sourceLines, filePath) + [ModuleUsage(nodes[|nodes| - 1], sourceLines, filePath)]
  }

  /** `parse_file` once the file is read (`sourceLines`) and parsed (`tree`). */
  function FileUsages(language: string, tree: ParsedTree, sourceLines: seq<string>, filePath: string): (us: seq<CodeUsage>)
  {
    if !HasImportQuery(language) then []
    else
      ModuleUsages(tree.modules, sourceLines, filePath) +
      (if language == "python" then CallSites(tree.calls, sourceLines, filePath, SymbolMap(tree.fromImports)) else [])
  }

  /** `parse_file`: the module captures first, then, for Python, the call sites of the
      names its from-import statements bring in. */
  method ParseFile(language: string, tree: ParsedTree, sourceLines: seq<string>, filePath: string)
    returns (usages: seq<CodeUsage>)
    ensures usages == FileUsages(language, tree, sourceLines, filePath)
  {
    if !HasImportQuery(language) {
      return [];
    }
    usages := ExtractModuleUsages(tree.modules, sourceLines, filePath);
    if language == "python" {
      var symbolMap := BuildImportedSymbolMap(tree.fromImports);
      var calls := ExtractCallSites(tree.calls, sourceLines, filePath, symbolMap);
      usages := usages + calls;
    }
  }

  /** The loop of `parse_file` over the `module` captures. */
  method ExtractModuleUsages(nodes: seq<ModuleNode>, sourceLines: seq<string>, filePath: string)
    returns (usages: seq<CodeUsage>)
    ensures usages == ModuleUsages(nodes, sourceLines, filePath)
  {
    usages := [];
    for i := 0 to |nodes|
      invariant usages == ModuleUsages(nodes[..i], sourceLines, filePath)
    {
      assert nodes[..i + 1][..i] == nodes[..i];
      var node := nodes[i];
      var usageType := if node.parentType == Some("arguments") then "import"
                       else UsageTypeFromParent(node.nodeType, node.parentType);
      var lineNumber := node.row + 1;
      var snippet := if lineNumber <= |sourceLines| then sourceLines[lineNumber - 1] else [];
      var usage := CodeUsage(filePath, lineNumber, usageType, StripQuotes(node.text), Strip(snippet));
      assert usage == ModuleUsage(node, sourceLines, filePath);
      assert ModuleUsages(nodes[..i + 1], sourceLines, filePath) ==
        ModuleUsages(nodes[..i], sourceLines, filePath) + [usage];
      usages := usages + [usage];
    }
    assert nodes[..|nodes|] == nodes;
  }

  /** An unsupported language yields nothing; otherwise the module usages come first, one
      per capture, and only a Python file adds call sites, none of them when it has no
      from-import statement. */
  lemma FileUsagesShape(language: string, tree: ParsedTree, sourceLines: seq<string>, filePath: string)
    ensures var us := FileUsages(language, tree, sourceLines, filePath);
            (!HasImportQuery(language) ==> us == []) &&
            (HasImportQuery(language) ==>
               |us| >= |tree.modules| &&
               forall i :: 0 <= i < |tree.modules| ==> us[i] == ModuleUsage(tree.modules[i], sourceLines, filePath)) &&
            (HasImportQuery(language) && (language != "python" || tree.fromImports == []) ==> |us| == |tree.modules|)
  {
    if HasImportQuery(language) {
      var ms := ModuleUsages(tree.modules, sourceLines, filePath);
      var us := FileUsages(language, tree, sourceLines, filePath);
      assert us[..|ms|] == ms;
      assert forall i :: 0 <= i < |ms| ==> us[i] == us[..|ms|][i];
      if language == "python" && tree.fromImports == [] {
        assert SymbolMap(tree.fromImports) == map[];
      }
    }
  }

  // ---------------------------------------------------------------------------
  // filtering by dependency
  // ---------------------------------------------------------------------------

  /** `s.lower().replace("-", "_")` */
  function Norm(s: string): (r: string)
    ensures |r| == |s|
  {
    ReplaceChar(Lower(s), '-', '_')
  }

  lemma NormAppend(a: string, b: string)
    ensures Norm(a + b) == Norm(a) + Norm(b)
  {
    assert forall k :: 0 <= k < |a| ==> (a + b)[k] == a[k];
    assert forall k :: 0 <= k < |b| ==> (a + b)[|a| + k] == b[k];
  }

  /** The symbol is the dependency, or lies under it as a dotted prefix. */
  predicate MatchesDep(symbol: string, depName: string) {
    Norm(symbol) == Norm(depName) || StartsWith(Norm(symbol), Norm(depName) + ".")
  }

  /** A symbol matches iff, once a `.` is put after both, the normalised symbol starts
      with the normalised dependency: the dependency is the whole symbol or its leading
      dotted segments. */
  lemma MatchesDepAsPrefix(symbol: string, depName: string)
    ensures MatchesDep(symbol, depName) <==> StartsWith(Norm(symbol) + ".", Norm(depName) + ".")
  {
    var s, d := Norm(symbol), Norm(depName);
    if StartsWith(s + ".", d + ".") {
      DotPrefix(s, d);
    }
    if StartsWith(s, d + ".") {
      assert forall k :: 0 <= k <= |d| ==> (s + ".")[k] == s[k];
      assert (s + ".")[..|d| + 1] == s[..|d| + 1];
    }
  }

  lemma DotPrefix(s: string, d: string)
    requires StartsWith(s + ".", d + ".")
    ensures s == d || StartsWith(s, d + ".")
  {
    if |d| < |s| {
      assert forall k :: 0 <= k <= |d| ==> s[k] == (s + ".")[k] == (d + ".")[k];
      assert s[..|d| + 1] == d + ".";
    } else {
      assert s == (s + ".")[..|s|];
      assert d == (d + ".")[..|d|];
    }
  }

  function UsagesForDep(usages: seq<CodeUsage>, depName: string): (r: seq<CodeUsage>)
    ensures |r| <= |usages|
  {
    if |usages| == 0 then []
    else
      var prev := UsagesForDep(usages[..|usages| - 1], depName);
      var u := usages[|usages| - 1];
      if MatchesDep(u.symbol, depName) then prev + [u] else prev
  }

  /** `_filter_usages_for_dep` */
  method FilterUsagesForDep(usages: seq<CodeUsage>, depName: string) returns (filtered: seq<CodeUsage>)
    ensures filtered == UsagesForDep(usages, depName)
  {
    var depLower := Norm(depName);
    filtered := [];
    for i := 0 to |usages|
      invariant filtered == UsagesForDep(usages[..i], depName)
    {
      assert usages[..i + 1][..i] == usages[..i];
      var symLower := Norm(usages[i].symbol);
      if symLower == depLower || StartsWith(symLower, depLower + ".") {
        filtered := filtered + [usages[i]];
      }
    }
    assert usages[..|usages|] == usages;
  }

  /** A usage is kept iff it is in the input and matches the dependency. */
  lemma {:induction false} UsagesForDepMembership(usages: seq<CodeUsage>, depName: string, u: CodeUsage)
    ensures u in UsagesForDep(usages, depName) <==> u in usages && MatchesDep(u.symbol, depName)
    decreases |usages|
  {
    if |usages| > 0 {
      var init := usages[..|usages| - 1];
      UsagesForDepMembership(init, depName, u);
      assert usages == init + [usages[|usages| - 1]];
    }
  }

  /** The kept usages are in their input order. */
  lemma {:induction false} UsagesForDepSubsequence(usages: seq<CodeUsage>, depName: string)
    ensures IsSubsequence(UsagesForDep(usages, depName), usages)
    decreases |usages|
  {
    if usages != [] {
      var init := usages[..|usages| - 1];
      var r := UsagesForDep(init, depName);
      UsagesForDepSubsequence(init, depName);
      if MatchesDep(usages[|usages| - 1].symbol, depName) {
        assert (r + [usages[|usages| - 1]])[..|r|] == r;
      }
    }
  }

  /** A call site of a symbol imported from the dependency's moduleName is a usage of the
      dependency: the `moduleName.identifier` form is what the filter's prefix rule matches. */
  lemma CallSiteMatchesModule(c: Capture, usageType: string, sourceLines: seq<string>, filePath: string,
                              symbolMap: map<string, string>, depName: string)
    requires c.text != [] && Lower(c.text) in symbolMap
    requires Norm(symbolMap[Lower(c.text)]) == Norm(depName)
    ensures MatchesDep(CallSiteUsage(c, usageType, sourceLines, filePath, symbolMap).value.symbol, depName)
  {
    var m := symbolMap[Lower(c.text)];
    NormAppend(m + ".", c.text);
    NormAppend(m, ".");
    var d := Norm(depName) + ".";
    assert Norm(".") == ".";
    assert Norm(m + "." + c.text)[..|d|] == d;
  }

  /** A PyPI name with hyphens matches its underscored import name. */
  lemma HyphenatedDepMatches(depName: string, symbol: string)
    requires depName == "Flask-Login" && symbol == "flask_login"
    ensures MatchesDep(symbol, depName)
  {
    assert Norm(depName) == Norm(symbol);
  }

  // ---------------------------------------------------------------------------
  // the project walk
  // ---------------------------------------------------------------------------

  /** A path component that hides its file: a dot name, `node_modules`, `__pycache__`
      or `.venv`. */
  predicate IsSkippedPart(p: string) {
    (|p| > 0 && p[0] == '.') || p == "node_modules" || p == "__pycache__" || p == ".venv"
  }

  predicate AnySkippedPart(parts: seq<string>) {
    exists k :: 0 <= k < |parts| && IsSkippedPart(parts[k])
  }

  /** One file `rglob` yields: its path components below the project and the language
      of the extension it was globbed by. */
  datatype FileHit = FileHit(parts: seq<string>, language: string)

  lemma SkippedPartsConcat(root: seq<string>, parts: seq<string>)
    ensures AnySkippedPart(root + parts) <==> AnySkippedPart(root) || AnySkippedPart(parts)
  {
    var path := root + parts;
    if AnySkippedPart(root) {
      var k :| 0 <= k < |root| && IsSkippedPart(root[k]);
      assert path[k] == root[k];
    }
    if AnySkippedPart(parts) {
      var k :| 0 <= k < |parts| && IsSkippedPart(parts[k]);
      assert path[|root| + k] == parts[k];
    }
    if AnySkippedPart(path) {
      var k :| 0 <= k < |path| && IsSkippedPart(path[k]);
      if k < |root| {
        assert path[k] == root[k];
      } else {
        assert path[k] == parts[k - |root|];
      }
    }
  }

  /** The usages of the files that are not skipped and that parse; `parse` stands for
      `parse_file`, and a file whose parse fails contributes nothing.  As written, the
      skip rule looks at every component of the full path, the project's own
      components included. */
  function CollectUsages(root: seq<string>, hits: seq<FileHit>,
                         parse: (seq<string>, string) -> Result<seq<CodeUsage>, string>): (us: seq<CodeUsage>)
    ensures (forall i :: 0 <= i < |hits| ==>
               AnySkippedPart(root + hits[i].parts) || parse(root + hits[i].parts, hits[i].language).Failure?) ==>
            us == []
  {
    if |hits| == 0 then []
    else
      var prev := CollectUsages(root, hits[..|hits| - 1], parse);
      var h := hits[|hits| - 1];
      if AnySkippedPart(root + h.parts) then prev
      else
        match parse(root + h.parts, h.language)
        case Success(us) => prev + us
        case Failure(_) => prev
  }

  /** `find_usages` over the files in the order the extension loop visits them, with the
      skip rule applied to the components below the project (see `CollectUsagesBelow`). */
  method FindUsages(root: seq<string>, hits: seq<FileHit>, depName: string,
                    parse: (seq<string>, string) -> Result<seq<CodeUsage>, string>) returns (usages: seq<CodeUsage>)
    ensures usages == UsagesForDep(CollectUsagesBelow(root, hits, parse), depName)
  {
    var all: seq<CodeUsage> := [];
    for i := 0 to |hits|
      invariant all == CollectUsagesBelow(root, hits[..i], parse)
    {
      assert hits[..i + 1][..i] == hits[..i];
      var path := root + hits[i].parts;
      if !AnySkippedPart(hits[i].parts) {
        var r := parse(path, hits[i].language);
        if r.Success? {
          all := all + r.value;
        }
      }
    }
    assert hits[..|hits|] == hits;
    usages := FilterUsagesForDep(all, depName);
  }

  /** A usage is collected iff some file that is not skipped parsed and produced it:
      a failing file is passed over and the others are still read. */
  lemma {:induction false} CollectUsagesMembership(root: seq<string>, hits: seq<FileHit>,
                                                  parse: (seq<string>, string) -> Result<seq<CodeUsage>, string>,
                                                  u: CodeUsage)
    ensures u in CollectUsages(root, hits, parse) <==>
            exists i :: 0 <= i < |hits| && !AnySkippedPart(root + hits[i].parts) &&
                        parse(root + hits[i].parts, hits[i].language).Success? &&
                        u in parse(root + hits[i].parts, hits[i].language).value
    decreases |hits|
  {
    if |hits| > 0 {
      var n := |hits| - 1;
      CollectUsagesMembership(root, hits[..n], parse, u);
      assert forall i :: 0 <= i < n ==> hits[..n][i] == hits[i];
    }
  }

  /** A project that itself lies below a dot directory (such as `../app` or
      `~/.local/src/app`) yields no usages at all, whatever its files contain. */
  lemma {:induction false} HiddenProjectYieldsNothing(root: seq<string>, hits: seq<FileHit>,
                                                     parse: (seq<string>, string) -> Result<seq<CodeUsage>, string>)
    requires AnySkippedPart(root)
    ensures CollectUsages(root, hits, parse) == []
    decreases |hits|
  {
    if |hits| > 0 {
      var k :| 0 <= k < |root| && IsSkippedPart(root[k]);
      assert (root + hits[|hits| - 1].parts)[k] == root[k];
      HiddenProjectYieldsNothing(root, hits[..|hits| - 1], parse);
    }
  }

  /** As written, `find_usages("..", "requests")` finds nothing even when `../main.py`
      parses to a usage of `requests`; the corrected rule keeps that usage. */
  lemma FindUsagesParentPathExample(root: seq<string>, hit: FileHit, u: CodeUsage,
                                    parse: (seq<string>, string) -> Result<seq<CodeUsage>, string>)
    requires root == [".."] && hit == FileHit(["main.py"], "python")
    requires parse(root + hit.parts, hit.language) == Success([u])
    ensures CollectUsages(root, [hit], parse) == []
    ensures CollectUsagesBelow(root, [hit], parse) == [u]
  {
    assert IsSkippedPart(root[0]);
    HiddenProjectYieldsNothing(root, [hit], parse);
    assert [hit][..0] == [];
    assert !IsSkippedPart(hit.parts[0]);
    assert !AnySkippedPart(hit.parts);
  }

  /** The skip rule applied to the components below the project only, as its comment
      describes it: hidden directories inside the project. */
  function CollectUsagesBelow(root: seq<string>, hits: seq<FileHit>,
                              parse: (seq<string>, string) -> Result<seq<CodeUsage>, string>): (us: seq<CodeUsage>)
    ensures (forall i :: 0 <= i < |hits| ==>
               AnySkippedPart(hits[i].parts) || parse(root + hits[i].parts, hits[i].language).Failure?) ==>
            us == []
  {
    if |hits| == 0 then []
    else
      var prev := CollectUsagesBelow(root, hits[..|hits| - 1], parse);
      var h := hits[|hits| - 1];
      if AnySkippedPart(h.parts) then prev
      else
        match parse(root + h.parts, h.language)
        case Success(us) => prev + us
        case Failure(_) => prev
  }

  /** With the corrected rule, where the project lies has no bearing on which of its
      files are read; the two rules agree on a project whose own path has no skipped
      component. */
  lemma {:induction false} CollectUsagesBelowMembership(root: seq<string>, hits: seq<FileHit>,
                                                       parse: (seq<string>, string) -> Result<seq<CodeUsage>, string>,
                                                       u: CodeUsage)
    ensures u in CollectUsagesBelow(root, hits, parse) <==>
            exists i :: 0 <= i < |hits| && !AnySkippedPart(hits[i].parts) &&
                        parse(root + hits[i].parts, hits[i].language).Success? &&
                        u in parse(root + hits[i].parts, hits[i].language).value
    ensures !AnySkippedPart(root) ==> CollectUsagesBelow(root, hits, parse) == CollectUsages(root, hits, parse)
    decreases |hits|
  {
    if |hits| > 0 {
      var n := |hits| - 1;
      CollectUsagesBelowMembership(root, hits[..n], parse, u);
      assert forall i :: 0 <= i < n ==> hits[..n][i] == hits[i];
      SkippedPartsConcat(root, hits[n].parts);
    }
  }
}
