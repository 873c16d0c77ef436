# migratowl core, modelled in Dafny

migratowl takes a project's manifests and finds the dependencies that have newer releases. For each of them it fetches and chunks the changelog, keeps the sections between the installed and the latest version, and embeds them in a vector store. It then asks the store about breaking changes, looks up where the project uses the package, and assesses the impact. At the end it assembles a report or patch suggestions.

This project models the sequential logic of that pipeline, one Dafny module per source file:

- `Schemas` holds the enums and records of `migratowl/models/schemas.py`. `Wrappers`, `Text` and `Versions` are helper modules: an option/result type, string helpers modelled on Python's `str` methods, and release versions compared as PEP 440 release segments.
- `ChangelogHeader` and `Changelog` model the changelog structure engine of `changelog.py`: the header recogniser, the offset-based chunker (three imperative passes) and the version-range filter.
- `ChangelogFetch` models the pure parts of changelog acquisition:
  - GitHub owner/repo extraction and the raw-file candidate URLs;
  - `Link` header parsing and the paginated release-notes loop;
  - the strategy order and fallback of `fetch_changelog`.
  Each HTTP request is an oracle given as a parameter.
- `Rag` models sub-chunking and the vector store. The store is a class whose entries are a map from document id to entry; `embed_changelog` and `query` are methods on it. The embedding function, the similarity search and the language model are parameters.
- `Registry` models URL-key extraction, the strictly-newer test, npm URL clean-up, dispatch and `find_outdated`. Each registry lookup is a parameter.
- `Scanner` models the four manifest parsers, which read decoded data, the directory-skip rule and de-duplication.
- `CodeParser` models the usage helpers of `code_parser.py`:
  - dependency matching, quote stripping, language lookup and usage classification;
  - call sites and the imported-symbol map, over captures given as lists;
  - `parse_file` and `find_usages`.
- `Impact`, `Patcher` and `Report` model impact assessment, patch generation and the report with its Markdown export. The language-model call in each is a parameter.
- `Analyzer` models the per-dependency worker:
  - each graph node is a pure function from the state to a command (next node plus partial update);
  - the embed node raises when the range filter or an embedding call does, and the assess node when the assessor does; the analyze node catches a failed query;
  - the class `Worker` merges the updates step by step, and its `Run` makes exactly `MaxRagRetries + 1` store queries when confidence stays low and the embed node has not raised;
  - the parent graph's scan mapping, fan-out and routing after fan-in.

## Model

| member | source | states |
|---|---|---|
| Schemas.EcosystemFromValue | migratowl/models/schemas.py:12-14 | a string names an ecosystem iff it is one of the two values, and the member found has that value |
| Schemas.SeverityFromValue | migratowl/models/schemas.py:17-20 | a string names a severity iff it is one of the three values, and the member found has that value |
| Schemas.ChangeTypeFromValue | migratowl/models/schemas.py:23-27 | a string names a change type iff it is one of the four values, and the member found has that value |
| Schemas.EnumValuesInjective | migratowl/models/schemas.py:12-27 | no two members of an enum share a value string |
| Schemas.CoerceChangeType | tests/unit/test_schemas.py:238-248 | a known change-type value is kept; any other string becomes `behavior_changed` |
| Schemas.DefaultRegistryInfo | migratowl/models/schemas.py:40-45 | name and latest version are the given ones and the three URL fields default to none |
| Schemas.MakeOutdated | migratowl/models/schemas.py:48-56 | an outdated dependency carries the dependency's name, version, ecosystem and manifest, and the registry's latest version and three URLs |
| Schemas.DumpDependency | migratowl/models/schemas.py:33-37 | the dump has exactly the four field names as keys |
| Schemas.ValidateDependency | migratowl/models/schemas.py:33-37 | validation succeeds iff all four fields are present and the ecosystem is a known value |
| Schemas.DependencyRoundTrip | tests/unit/test_schemas.py:317-323 | validating the dump of a dependency gives back the same dependency |
| Schemas.MakeChangelogAnalysis | tests/unit/test_schemas.py:103-110 | a changelog analysis can be built iff its confidence lies in [0, 1], and then it holds the given fields |
| Schemas.VersionOr | migratowl/core/report.py:117-118 | `versions.get(key, "?")`: the stored version when the key is present, `?` otherwise |
| Versions.CmpAntisymmetric | migratowl/core/registry.py:111 | swapping the two versions negates the release comparison |
| Versions.CmpZeroIffPaddedEqual | migratowl/core/registry.py:104-111 | two releases compare equal iff they agree on every segment once padded with zeros (`0.13 == 0.13.0`) |
| Versions.CmpTransitive | migratowl/core/registry.py:111 | "newer than" is transitive |
| Versions.CmpEquivalent | migratowl/core/registry.py:111 | releases that compare equal compare alike with every other release |
| Versions.EmptyInterval | migratowl/core/changelog.py:420 | no version lies in the range `(a, b]` when `a` and `b` compare equal |
| Versions.RenderParse | migratowl/core/registry.py:111 | parsing the canonical text of a release gives the release back |
| Versions.TrailingZeroText | migratowl/core/registry.py:108 | appending `.0` to a release's text gives a release that compares equal to it |
| Registry.Lookup | migratowl/core/registry.py:93-94 | a key is found iff some entry has it, and the value found is that of its last entry, as a JSON object keeps it |
| Registry.FirstPresent | migratowl/core/registry.py:92-94 | the value of the first key, in priority order, that the dictionary holds; none iff it holds none of them |
| Registry.FirstForgeUrl | migratowl/core/registry.py:97-99 | the first URL, in dictionary order, that mentions `github.com` or `gitlab.com`; none iff no URL does |
| Registry.StripUrlFragmentFacts | migratowl/core/registry.py:116-118 | the result is the part of the URL before its first `#`: a prefix of the URL without `#`, followed by `#` when shorter, and the whole URL when it has no `#` |
| Registry.StripUrlFragment | migratowl/core/registry.py:116-118 | the result is a prefix of the URL without `#`, and a URL without `#` is left alone |
| Registry.StripUrlFragmentIdempotent | migratowl/core/registry.py:116-118 | stripping the fragment twice is stripping it once |
| Registry.ExtractRepoUrl | migratowl/core/registry.py:86-101 | none for a missing or empty dictionary; else the first repository key in priority order, else the first GitHub/GitLab URL, in both cases without its fragment |
| Registry.ExtractedRepoUrlHasNoFragment | migratowl/core/registry.py:86-101 | an extracted repository URL never contains `#` |
| Registry.ExtractChangelogUrl | migratowl/core/registry.py:121-131 | none for a missing or empty dictionary; else the unmodified value of the first changelog key in priority order |
| Registry.IsNewerRendered | migratowl/core/registry.py:104-111 | on valid versions, newer-than is exactly the release comparison |
| Registry.IsNewerIrreflexive | migratowl/core/registry.py:104-113 | a version string is never newer than itself, valid or not: equal valid versions compare equal, and equal strings are not unequal |
| Registry.TrailingZeroNotNewer | migratowl/core/registry.py:105-108 | a release and the same release with `.0` appended are not newer than each other |
| Registry.ZeroThirteenNotNewer | migratowl/core/registry.py:108 | `0.13` and `0.13.0` are not newer than each other |
| Registry.IsNewerAsymmetric | migratowl/core/registry.py:110-111 | on valid versions newer-than is irreflexive and asymmetric |
| Registry.PypiRegistryInfo | migratowl/core/registry.py:43-52 | name, version and home page come from the `info` object; the repository and changelog URLs are the extracted ones |
| Registry.DropGitPlus | migratowl/core/registry.py:72 | a leading `git+` is removed, and only then |
| Registry.DropDotGit | migratowl/core/registry.py:73 | a trailing `.git` is removed, also just before a final newline as `$` allows; otherwise the text is kept |
| Registry.NpmRegistryInfo | migratowl/core/registry.py:63-83 | latest version from `dist-tags.latest`, else `0.0.0`; no changelog URL; the repository URL is none exactly when it is absent or empty |
| Registry.NpmGitUrlCleaned | migratowl/core/registry.py:69-73 | a repository object `git+URL.git` gives `URL` |
| Registry.QueryRegistry | migratowl/core/registry.py:24-32 | python asks PyPI and nodejs asks npm; a failed request is passed on as a failure |
| Registry.FailureMessageNamesDep | migratowl/core/registry.py:152 | the failure message names the dependency |
| Registry.CheckOne | migratowl/core/registry.py:147-168 | a dependency is outdated iff its lookup succeeded with a newer latest version, and the entry is built from the dependency and the answer |
| Registry.FindOutdated | migratowl/core/registry.py:134-171 | no dependencies give two empty lists; otherwise the outdated entries and the error messages, both in input order |
| Registry.OutdatedMembership | migratowl/core/registry.py:157-171 | an entry is outdated iff some dependency's lookup yields it |
| Registry.ErrorsCountFailures | migratowl/core/registry.py:149-155 | there are exactly as many errors as failed lookups |
| Registry.ErrorsNameFailedDeps | migratowl/core/registry.py:151-154 | every error names a dependency whose lookup failed |
| Versions.DropV | migratowl/core/registry.py:110-111 | a leading `v` or `V`, and only that, is dropped before a version is read |
| Versions.ParseRelease | migratowl/core/registry.py:110-111 | a text is a valid release iff, once stripped and without its `v`, it is dot-separated digit groups, and the release has one segment per group |
| Versions.GroupValues | migratowl/core/registry.py:110-111 | each digit group becomes the segment of its value |
| Versions.CmpFromZero | migratowl/core/registry.py:111 | comparing from a segment on gives 0 iff the zero-padded segments agree from there on |
| Versions.Cmp | migratowl/core/registry.py:111 | the release comparison answers -1, 0 or 1 |
| Versions.TrailingZeroEqual | migratowl/core/registry.py:108 | a trailing `.0` does not change how a release compares |
| Versions.RenderGroups | migratowl/core/registry.py:111 | each segment is rendered as its decimal text |
| Registry.RenderZeroThirteen | migratowl/core/registry.py:108 | the release `[0, 13]` renders as `0.13` |
| Registry.OutdatedOf | migratowl/core/registry.py:157-171 | no more outdated entries than dependencies |
| Registry.ErrorsOf | migratowl/core/registry.py:149-155 | no more error messages than dependencies |
| Scanner.ManifestEcosystem | migratowl/core/scanner.py:13-18 | a file name has an ecosystem iff it is one of the four manifest names, and it is nodejs iff the name is `package.json` |
| Scanner.PruneDirs | migratowl/core/scanner.py:66 | a directory is kept iff it was listed and is not in the skip set |
| Scanner.OperatorAt | migratowl/core/scanner.py:51 | the operator found is one of `~= == >= <= != > <`, with the two-character forms tried first |
| Scanner.ExtrasEnd | migratowl/core/scanner.py:50 | optional extras, when present, run from `[` to the first `]` |
| Scanner.MatchRequirement | migratowl/core/scanner.py:41-53 | a match has a package name with alphanumeric ends that starts the text, and a version that opens with a digit, holds only version characters and occurs in the text |
| Scanner.MatchAt | migratowl/core/scanner.py:48-53 | the match is read off the positions where the name, extras, spaces, operator and version end |
| Scanner.MatchRequirementIn | migratowl/core/scanner.py:41-45 | a text whose name, operator and version sit at known positions matches with that name and version |
| Scanner.MatchRequirementBuilt | migratowl/core/scanner.py:40 | name + operator + version + anything that cannot continue the version matches with that name and that version |
| Scanner.RequirementOfLine | migratowl/core/scanner.py:93-109 | a stripped line that is blank or starts with `#` or `-` gives nothing; a dependency found is a python one from this manifest |
| Scanner.ParseRequirementsTxt | migratowl/core/scanner.py:87-111 | the dependencies of the file's lines, in line order |
| Scanner.RequirementsFromLines | migratowl/core/scanner.py:92-109 | every dependency read from a requirements file comes from one of its lines |
| Scanner.SpecDependency | migratowl/core/scanner.py:132-145 | a dependency found in a specifier is a python one from this manifest |
| Scanner.SpecDepsAppend | migratowl/core/scanner.py:132-145 | reading a list in two parts reads the first part first |
| Scanner.ParsePyprojectToml | migratowl/core/scanner.py:114-147 | no (or an empty) `project` table gives nothing; otherwise the specifiers of `dependencies` followed by every optional group, in order |
| Scanner.AllDependencyStrings | migratowl/core/scanner.py:125-130 | the main list extended by each optional group in turn |
| Scanner.ParseSpecs | migratowl/core/scanner.py:132-145 | the dependencies of the specifiers, in order |
| Scanner.PyprojectOrder | migratowl/core/scanner.py:125-130 | the main dependencies come before the optional ones |
| Scanner.LanggraphExample | tests/unit/test_scanner.py:127-133 | `langgraph>=1.0.7,<2` gives `langgraph` at `1.0.7` |
| Scanner.PipVersionText | migratowl/core/scanner.py:159-160 | a table without a `version` key reads as `*` |
| Scanner.FirstDigitRun | migratowl/core/scanner.py:168 | found iff the text has a digit; then a version run that opens with a digit and occurs in the text |
| Scanner.FirstDigitRunBuilt | migratowl/core/scanner.py:168 | whatever precedes the first digit is skipped and the version run is taken whole |
| Scanner.PipDependency | migratowl/core/scanner.py:158-177 | a `*` spec gives nothing; a dependency found has the entry's name and the first version run of the cleaned spec |
| Scanner.ParsePipSection | migratowl/core/scanner.py:157-177 | the entries of one section, in order |
| Scanner.ParsePipfile | migratowl/core/scanner.py:150-179 | `packages` first, then `dev-packages` |
| Scanner.PipTableLikeString | migratowl/core/scanner.py:159-161 | a table spec is read exactly as its `version` string would be |
| Scanner.CoreEnd | migratowl/core/scanner.py:56 | the `\d+\.\d+\.\d+` core, when present, starts with a digit at the given position |
| Scanner.MatchNpmVersion | migratowl/core/scanner.py:56 | a version found opens with a digit and occurs in the spec |
| Scanner.NpmVersionIn | migratowl/core/scanner.py:56 | range characters followed by three digit groups give the three groups |
| Scanner.NpmPrefixDropped | tests/unit/test_scanner.py:156-172 | `^`, `~` or `>=` before `X.Y.Z` is dropped and `X.Y.Z` kept |
| Scanner.NpmDependency | migratowl/core/scanner.py:190-200 | a dependency is found iff the spec matches; then it is a nodejs one with the entry's name |
| Scanner.ParseNpmSection | migratowl/core/scanner.py:189-200 | the entries of one section, in order |
| Scanner.ParsePackageJson | migratowl/core/scanner.py:182-202 | `dependencies` first, then `devDependencies` |
| Scanner.ManifestDeps | migratowl/core/scanner.py:68-74 | a file whose name is not a manifest name contributes nothing |
| Scanner.NonManifestsIgnored | migratowl/core/scanner.py:68-69 | files that are not manifests add no dependencies |
| Scanner.SkippedDirsIgnored | migratowl/core/scanner.py:64-66 | pruned directories add no dependencies |
| Scanner.DedupStep | migratowl/core/scanner.py:79-83 | one more dependency: its key joins the seen set, and it is kept iff its key is new |
| Scanner.Deduplicate | migratowl/core/scanner.py:76-84 | the loop over `seen` computes the first-occurrence deduplication |
| Scanner.ScanProject | migratowl/core/scanner.py:59-84 | the walk's dependencies, deduplicated |
| Scanner.DedupKeys | migratowl/core/scanner.py:76-84 | deduplication keeps every key and keeps no key twice |
| Scanner.DedupKeepsFirst | migratowl/core/scanner.py:79-83 | what is kept is the first dependency with its key |
| Scanner.DedupSubsequence | migratowl/core/scanner.py:76-84 | the kept dependencies are a subsequence of the input, so they keep its order |
| Scanner.RequirementsDeps | migratowl/core/scanner.py:92-109 | at most one dependency per line |
| Scanner.SpecDeps | migratowl/core/scanner.py:132-145 | at most one dependency per specifier |
| Scanner.PipDeps | migratowl/core/scanner.py:157-177 | at most one dependency per Pipfile entry |
| Scanner.NpmDeps | migratowl/core/scanner.py:189-200 | at most one dependency per `package.json` entry |
| Scanner.Dedup | migratowl/core/scanner.py:76-84 | deduplication never adds dependencies |
| Scanner.KeySetAppend | migratowl/core/scanner.py:79-83 | one more dependency adds exactly its key to the keys seen |
| CodeParser.LookupPairs | migratowl/core/code_parser.py:18-24 | a lookup in `EXTENSION_MAP` finds nothing iff no entry has the key, and what it finds is the value of an entry with that key |
| CodeParser.FindLast | migratowl/core/code_parser.py:171 | the position found holds the character and nothing after it does; -1 when the character is absent |
| CodeParser.BaseName | migratowl/core/code_parser.py:171 | the final path component ends the path and holds no `/` |
| CodeParser.Suffix | migratowl/core/code_parser.py:171 | a suffix is empty or a `.` followed by at least one character and no further `.`, and it ends the name |
| CodeParser.BaseNameAt | migratowl/core/code_parser.py:171 | the final component is everything after the last `/` |
| CodeParser.SuffixAt | migratowl/core/code_parser.py:171 | the suffix starts at the last `.` when that `.` is neither first nor last |
| CodeParser.GetLanguageOfName | migratowl/core/code_parser.py:169-172 | the language of `dir/stem.ext` is the `EXTENSION_MAP` entry of the lowercased extension |
| CodeParser.GetLanguage | migratowl/core/code_parser.py:169-172 | a file has a language iff its lowercased suffix is one of the five mapped extensions, and the language is Python, JavaScript or TypeScript |
| CodeParser.PathParts | migratowl/core/code_parser.py:171 | in `dir/name` the last `/` is the one after `dir` |
| CodeParser.NameParts | migratowl/core/code_parser.py:171 | in `stem.ext` the last `.` opens the extension |
| CodeParser.NoSuffixNoLanguage | migratowl/core/code_parser.py:169-172 | a file name without a `.` has no language |
| CodeParser.StripQuotes | migratowl/core/code_parser.py:175-179 | the text changes iff it has two or more characters and quotes at both ends, and then it loses exactly those two |
| CodeParser.StripQuotesOfLiteral | migratowl/core/code_parser.py:175-179 | a quoted literal comes back as its contents |
| CodeParser.UsageTypeFromParent | migratowl/core/code_parser.py:182-186 | the type is `import_from` iff the parent is an `import_from_statement`, and `import` otherwise |
| CodeParser.ModuleUsageType | migratowl/core/code_parser.py:215-224 | a `require()` argument, like anything outside a from-import, is an `import`; only a from-import's module is `import_from` |
| CodeParser.Snippet | migratowl/core/code_parser.py:226 | the snippet is the numbered line (one-based), or empty past the last line |
| CodeParser.ModuleUsage | migratowl/core/code_parser.py:211-236 | a module capture becomes a usage on its one-based line, with the unquoted text as symbol and the stripped source line as snippet |
| CodeParser.ModuleUsages | migratowl/core/code_parser.py:211-236 | one usage per module capture, in capture order |
| CodeParser.LastComponent | migratowl/core/code_parser.py:112-115 | the last dotted component holds no `.` |
| CodeParser.AddImportedNames | migratowl/core/code_parser.py:103-117 | the names of one from-import are entered in order, an alias under its own lowercase text and a dotted name under its last component |
| CodeParser.BuildImportedSymbolMap | migratowl/core/code_parser.py:88-118 | the map is built from the from-import statements in query order, skipping one without a module |
| CodeParser.AddNamesKeys | migratowl/core/code_parser.py:103-117 | a key is present after one statement iff it was present before or one of its names enters it |
| CodeParser.AddNamesValues | migratowl/core/code_parser.py:103-117 | after one statement a key maps to the statement's module or keeps its old value |
| CodeParser.SymbolMapKeys | migratowl/core/code_parser.py:88-118 | a key is in the symbol map iff some from-import with a module enters it |
| CodeParser.SymbolMapValues | migratowl/core/code_parser.py:88-118 | every key maps to the module of some from-import that has one |
| CodeParser.SplitLast | migratowl/core/code_parser.py:114 | the last part of a split is whatever follows the last separator |
| CodeParser.DottedNameKey | migratowl/core/code_parser.py:112-115 | `import A.B` (as a from-import name) is entered under `b` |
| CodeParser.CallSiteUsage | migratowl/core/code_parser.py:148-165 | a captured identifier yields a usage iff it is non-empty and its lowercase form was imported; the symbol is `module.identifier` |
| CodeParser.CallSiteUsages | migratowl/core/code_parser.py:148-165 | one capture list never yields more usages than captures |
| CodeParser.AppendCallSites | migratowl/core/code_parser.py:148-165 | the loop appends the call-site usages of one capture kind to what was there |
| CodeParser.ExtractCallSites | migratowl/core/code_parser.py:121-166 | an empty symbol map yields nothing; otherwise the kinds `call`, `base_class`, `decorator` (twice) follow in that order |
| CodeParser.CallSiteUsagesMembership | migratowl/core/code_parser.py:148-165 | a usage is among the call sites iff some capture produced it |
| CodeParser.ParseFile | migratowl/core/code_parser.py:189-243 | `parse_file` once read and parsed: nothing for an unsupported language, the module usages, then for Python the call sites under the file's symbol map |
| CodeParser.ExtractModuleUsages | migratowl/core/code_parser.py:209-236 | the capture loop yields one usage per `module` capture, in capture order |
| CodeParser.FileUsagesShape | migratowl/core/code_parser.py:193-195 | an unsupported language yields nothing; the module usages come first, one per capture; only a Python file with from-imports adds more |
| CodeParser.Norm | migratowl/core/code_parser.py:252 | normalising keeps the length |
| CodeParser.NormAppend | migratowl/core/code_parser.py:252 | normalising distributes over concatenation |
| CodeParser.MatchesDepAsPrefix | migratowl/core/code_parser.py:252-258 | a symbol matches iff, lowercased with `-` read as `_` and with a `.` put after both, it starts with the dependency name: the name is the whole symbol or its leading dotted segments |
| CodeParser.UsagesForDep | migratowl/core/code_parser.py:246-260 | the filter never adds usages |
| CodeParser.FilterUsagesForDep | migratowl/core/code_parser.py:246-260 | the loop keeps the usages whose normalised symbol is the dependency or starts with it and a `.` |
| CodeParser.UsagesForDepMembership | migratowl/core/code_parser.py:254-259 | a usage survives iff it was there and its symbol matches the dependency |
| CodeParser.UsagesForDepSubsequence | migratowl/core/code_parser.py:246-260 | the survivors keep their order |
| CodeParser.CallSiteMatchesModule | migratowl/core/code_parser.py:129-130 | a call site of a symbol imported from the dependency's module is kept by the dependency's filter |
| CodeParser.HyphenatedDepMatches | migratowl/core/code_parser.py:249-252 | `Flask-Login` matches the import name `flask_login` |
| CodeParser.SkippedPartsConcat | migratowl/core/code_parser.py:271-272 | a path has a skipped component iff its project part or its relative part has one |
| CodeParser.CollectUsages | migratowl/core/code_parser.py:268-279 | as written, when every file is skipped by its full path or fails to parse, no usage is collected |
| CodeParser.CollectUsagesBelow | migratowl/core/code_parser.py:268-279 | with the rule below the project, when every file is skipped by its relative path or fails to parse, no usage is collected |
| CodeParser.FindUsages | migratowl/core/code_parser.py:263-281 | the usages of the files not skipped below the project that parse, in visiting order, filtered for the dependency |
| CodeParser.CollectUsagesMembership | migratowl/core/code_parser.py:268-279 | as written, a usage is collected iff some file whose full path has no skipped component parses to usages holding it |
| CodeParser.HiddenProjectYieldsNothing | migratowl/core/code_parser.py:270-273 | as written, a project whose own path has a dot component yields no usage at all |
| CodeParser.FindUsagesParentPathExample | migratowl/core/code_parser.py:270-273 | for the project `..` the rule as written drops `../main.py`, while the rule below the project keeps its usage |
| CodeParser.CollectUsagesBelowMembership | migratowl/core/code_parser.py:268-279 | with the rule applied below the project, a usage is collected iff some file without a skipped relative component parses to usages holding it; for a project path with no skipped component both rules agree |
| ChangelogHeader.PrefixWordRest | migratowl/core/changelog.py:267-270 | a one-word prefix of 1 to 30 word characters led by a letter and followed by whitespace gives way to the rest of the line, which occurs in the text |
| ChangelogHeader.DropVBeforeDigit | migratowl/core/changelog.py:272-274 | dropping a `v` before a digit leaves a substring of the text |
| ChangelogHeader.StripIn | migratowl/core/changelog.py:258 | stripping leaves a substring of the text |
| ChangelogHeader.DropAndStrip | migratowl/core/changelog.py:260-265 | dropping up to `n` leading markers and stripping leaves a substring of the text |
| ChangelogHeader.StripMarkup | migratowl/core/changelog.py:258-265 | removing the heading, bold and bracket markup leaves a substring of the line |
| ChangelogHeader.DropPrefixWord | migratowl/core/changelog.py:267-270 | dropping the prefix word leaves a substring of the text |
| ChangelogHeader.StripPrefix | migratowl/core/changelog.py:267-278 | removing the prefix word, the `v` and the brackets leaves a substring of the text |
| ChangelogHeader.CleanHeaderText | migratowl/core/changelog.py:258-278 | the cleaned text of a line is a substring of the line |
| ChangelogHeader.VersionEnd | migratowl/core/changelog.py:248 | a match of `_VERSION_RE` at the start of the text ends inside the text |
| ChangelogHeader.VersionEndShape | migratowl/core/changelog.py:248 | what a match of `_VERSION_RE` spans is two or three non-empty digit groups joined by `.` |
| ChangelogHeader.VersionTwo | migratowl/core/changelog.py:248 | two digit groups around a `.` make a version |
| ChangelogHeader.VersionThree | migratowl/core/changelog.py:248 | three digit groups around two `.` make a version |
| ChangelogHeader.TwoGroups | migratowl/core/changelog.py:248 | `a.b` with digit groups is a version |
| ChangelogHeader.ThreeGroups | migratowl/core/changelog.py:248 | `a.b.c` with digit groups is a version |
| ChangelogHeader.ParseVersionFromLine | migratowl/core/changelog.py:251-296 | a version found in a line always has the `\d+\.\d+(\.\d+)?` shape |
| ChangelogHeader.ParsedVersionInLine | migratowl/core/changelog.py:251-296 | the version found is a substring of the line |
| ChangelogHeader.VersionShapeParses | migratowl/core/changelog.py:388-390 | every version of that shape parses as a release of two or three components |
| ChangelogHeader.JoinFirstLast | migratowl/core/changelog.py:248 | a dotted join of non-empty groups starts with the first group's first character and ends with the last group's last |
| ChangelogHeader.VersionStartsWithDigit | migratowl/core/changelog.py:248 | a version starts and ends with a digit |
| ChangelogHeader.DigitBlocksUnderline | migratowl/core/changelog.py:322 | a line holding a digit is never an RST underline |
| ChangelogHeader.VersionLineIsNotUnderline | migratowl/core/changelog.py:319-323 | a line that names a version is never itself an underline |
| ChangelogHeader.ContainedVersionBlocksUnderline | migratowl/core/changelog.py:319-323 | a line containing a version is never an underline |
| ChangelogHeader.CleanHeaderLine | migratowl/core/changelog.py:258-278 | removing the heading marks, the bold marks, the bracket, a one-word prefix and a `v` from a header line of any of the recognised forms leaves exactly the version and what follows it |
| ChangelogHeader.ParseHeaderLine | migratowl/core/changelog.py:251-296 | a header line of the recognised forms names its version unless more than two words are left after the version once `]`, stars, spaces and a date are removed, and then it names nothing |
| ChangelogHeader.DatedHeaderLine | migratowl/core/changelog.py:285-296 | a version followed by `- date` or `(date)`, after any `]`, stars and spaces, is named by every recognised form of header line |
| ChangelogHeader.PlainHeaderLine | migratowl/core/changelog.py:285-296 | a version followed only by `]`, stars and spaces is named by every recognised form of header line |
| ChangelogHeader.WordyHeaderLine | migratowl/core/changelog.py:291-294 | when words follow the version, the line names nothing iff they are more than two |
| ChangelogHeader.VPrefixHeading | tests/unit/test_changelog.py:16 | `## v3.0.0` names `3.0.0` |
| ChangelogHeader.BracketHeading | tests/unit/test_changelog.py:34 | `## [2.0.0]` names `2.0.0` |
| ChangelogHeader.PlainHeading | tests/unit/test_changelog.py:85 | `## 1.0.0` names `1.0.0` |
| ChangelogHeader.ReleaseHeading | tests/unit/test_changelog.py:138 | `## Release 4.1.0 - 2024-10-12` names `4.1.0` |
| ChangelogHeader.BoldReleaseLine | tests/unit/test_changelog.py:159 | `**Release 4.0.6** - 2024-03-09` names `4.0.6` |
| ChangelogHeader.DatedRstLine | tests/unit/test_changelog.py:99 | `2.32.5 (2025-08-18)` names `2.32.5` |
| ChangelogHeader.VersionWordLine | tests/unit/test_changelog.py:180 | `Version 3.1.0` names `3.1.0` |
| ChangelogHeader.AtxHeadingIsHeader | migratowl/core/changelog.py:311-313 | a raw line of one to six `#` and then whitespace is at a header position |
| ChangelogHeader.HeaderLineIsHeader | migratowl/core/changelog.py:311-313 | every recognised header line with one to six `#` is at a header position |
| ChangelogHeader.BoldStartIsHeader | migratowl/core/changelog.py:315-317 | a line whose stripped text is one or two `*` and then a character that is neither `*` nor whitespace is at a header position |
| ChangelogHeader.UnderlinedIsHeader | migratowl/core/changelog.py:319-323 | a line over a stripped line of three or more `-`/`=` is at a header position |
| ChangelogHeader.BareVersionIsHeader | migratowl/core/changelog.py:325-332 | a line that is a bare version, first in the text or after a blank line, is at a header position |
| Changelog.OffsetMonotone | migratowl/core/changelog.py:353-357 | line offsets grow by at least one per line |
| Changelog.Marks | migratowl/core/changelog.py:360-363 | every line gets a header mark |
| Changelog.Headers | migratowl/core/changelog.py:359-363 | the first `n` lines yield at most `n` headers |
| Changelog.HeadersFacts | migratowl/core/changelog.py:359-363 | the headers are exactly the marked lines, each once, in document order, with their version and offset |
| Changelog.SkipLine | migratowl/core/changelog.py:360-363 | an unmarked line adds no header |
| Changelog.AppendHeader | migratowl/core/changelog.py:362-363 | a marked line adds its header at the end |
| Changelog.PySlice | migratowl/core/changelog.py:382 | a slice is never longer than the text |
| Changelog.ContentLine | migratowl/core/changelog.py:371-374 | the content starts on the line after the header, or one further past an underline |
| Changelog.ChunkChangelogByVersion | migratowl/core/changelog.py:337-385 | the three passes compute the chunks of the text, one per header line |
| Changelog.LineOffsets | migratowl/core/changelog.py:353-357 | the offsets loop records the start offset of every line |
| Changelog.ExtendOffsets | migratowl/core/changelog.py:356-357 | recording one more offset keeps the earlier ones |
| Changelog.FindHeaders | migratowl/core/changelog.py:359-363 | the header loop collects the marked lines in order |
| Changelog.AddHeader | migratowl/core/changelog.py:361-363 | the loop body adds line `i` iff it is a header |
| Changelog.HeadersStep | migratowl/core/changelog.py:361-363 | the headers of one more line are the old ones plus that line's header, if any |
| Changelog.CollectChunks | migratowl/core/changelog.py:368-385 | the chunk loop builds one chunk per header, in order |
| Changelog.HeadersExact | migratowl/core/changelog.py:360-363 | a line is a header iff it names a version and sits at a header position |
| Changelog.ChunkVersions | migratowl/core/changelog.py:346-383 | chunk `k` carries the version its header line names, found in that line, and that version parses as a release |
| Changelog.Chunks | migratowl/core/changelog.py:337-385 | there are never more chunks than lines |
| Changelog.MarkedLineOpensChunk | migratowl/core/changelog.py:359-385 | every line that names a version at a header position opens a chunk carrying that version |
| Changelog.HeadingOpensChunk | migratowl/core/changelog.py:359-385 | every recognised Markdown heading that names a version opens a chunk carrying that version, so a changelog with such a heading has chunks |
| Changelog.NoMarksNoHeaders | migratowl/core/changelog.py:365-366 | no marked line means no header |
| Changelog.NoHeadersNoChunks | migratowl/core/changelog.py:365-366 | a text without a header line has no chunks |
| Changelog.HeaderLinesAreNotUnderlines | migratowl/core/changelog.py:319-323 | no header line is an underline |
| Changelog.ContentStartBeforeEnd | migratowl/core/changelog.py:371-380 | a chunk's content starts no later than the next header's offset |
| Changelog.SliceInWindow | migratowl/core/changelog.py:382 | the stripped slice lies inside the window it is cut from |
| Changelog.WindowBounds | migratowl/core/changelog.py:371-382 | the content slice of chunk `k` lies between the end of its header line and the next header |
| Changelog.ContentBetweenHeaders | migratowl/core/changelog.py:368-385 | the content of chunk `k` is a substring of the text after its header line and before the next header |
| Changelog.OffsetCons | migratowl/core/changelog.py:353-357 | the offsets of lines after the first shift by the first line and its break |
| Changelog.NewlineOnlySuffix | migratowl/core/changelog.py:351 | a suffix of a text with only `\n` breaks has only `\n` breaks |
| Changelog.LinesAtNewline | migratowl/core/changelog.py:351 | at the first `\n` the lines split into the first line and the lines after it |
| Changelog.LineAtShift | migratowl/core/changelog.py:353-357 | a line of a suffix is a line of the text, shifted by where the suffix starts |
| Changelog.WholeTextLine | migratowl/core/changelog.py:351 | a text without a break is one line at offset 0 |
| Changelog.FirstLineAt | migratowl/core/changelog.py:351-357 | the first line starts at offset 0 |
| Changelog.ConsLineAt | migratowl/core/changelog.py:351-357 | a line after the first break sits at its recorded offset in the whole text |
| Changelog.LaterLineAt | migratowl/core/changelog.py:351-357 | a later line sits at its recorded offset in the whole text |
| Changelog.OffsetExact | migratowl/core/changelog.py:352-357 | with `\n` breaks only, each recorded offset is where its line starts in the text |
| Changelog.FilterInRange | migratowl/core/changelog.py:410-421 | the filter never adds chunks |
| Changelog.FilterStep | migratowl/core/changelog.py:411-421 | one more chunk is kept iff it is in range |
| Changelog.FilterChunksByVersionRange | migratowl/core/changelog.py:393-423 | an empty list gives an empty list; a bound that is not a release version is a failure; otherwise the chunks with `current < v <= latest`, in order |
| Changelog.KeepInRange | migratowl/core/changelog.py:410-421 | the loop keeps exactly the chunks in range, in order |
| Changelog.FilterMembership | migratowl/core/changelog.py:420-421 | a chunk is kept iff it was there and its version is in `(current, latest]` |
| Changelog.FilterIsSubsequence | migratowl/core/changelog.py:410-423 | the kept chunks keep their order |
| Changelog.FilterEmptyRange | migratowl/core/changelog.py:420 | equal bounds, `1.0` and `1.0.0` included, keep nothing |
| Changelog.InRangeRendered | migratowl/core/changelog.py:420 | a chunk of a rendered release is in range iff the release compares above `current` and not above `latest` |
| ChangelogFetch.FromUrl | migratowl/core/changelog.py:51-71 | a direct fetch succeeds only on a 2xx response; an HTML page is returned converted and only when it chunks; other text comes back unchanged |
| ChangelogFetch.RepoPos | migratowl/core/changelog.py:155 | the search for the repository pattern stops at the first position where the pattern matches |
| ChangelogFetch.ParseGitHubRepo | migratowl/core/changelog.py:155-159 | a parsed repository has a non-empty owner and a non-empty name |
| ChangelogFetch.ParsedRepoShape | migratowl/core/changelog.py:155-159 | a parsed repository has a non-empty owner without `/` and a non-empty name of `[^/.#]` characters, taken from the leftmost match |
| ChangelogFetch.UnparsedHasNoMatch | migratowl/core/changelog.py:155-157 | a URL that does not parse has no match at any position |
| ChangelogFetch.CandidateUrlAt | migratowl/core/changelog.py:164-169 | the candidate URLs are all filenames on `main`, then all on `master` |
| ChangelogFetch.DocFilenameAt | migratowl/core/changelog.py:97-105 | the 48 doc paths are each subdirectory root joined with each filename, roots outermost |
| ChangelogFetch.CandidateHashOnlyFromOwner | migratowl/core/changelog.py:164-169 | a candidate URL holds a `#` only when the owner does: it is not the pattern’s repository name, branch or file name that brings one |
| ChangelogFetch.RawHostHasNoHash | migratowl/core/changelog.py:166 | the raw host prefix holds no `#` |
| ChangelogFetch.NoHashInRawUrl | migratowl/core/changelog.py:166 | a raw URL built from parts without `#` has no `#` |
| ChangelogFetch.ChangelogNamesHaveNoHash | migratowl/core/changelog.py:78-91 | no changelog filename holds a `#` |
| ChangelogFetch.SubdirectoryRootsHaveNoHash | migratowl/core/changelog.py:97-102 | no subdirectory root holds a `#` |
| ChangelogFetch.FilenamesHaveNoHash | migratowl/core/changelog.py:94-105 | no root or doc filename holds a `#` |
| ChangelogFetch.SegmentEnd | migratowl/core/changelog.py:75 | a `[^/\s]+` segment ends at a `/` past where it starts |
| ChangelogFetch.BlobPos | migratowl/core/changelog.py:182 | the blob-URL search stops at the first position where `_GITHUB_BLOB_RE` matches |
| ChangelogFetch.FirstGood | migratowl/core/changelog.py:108-143 | the probe yields the text of a 200 response that chunks, and yields nothing iff no URL gives one |
| ChangelogFetch.FollowStub | migratowl/core/changelog.py:182-191 | a stub yields only the text of a good response at the raw URL of some blob link |
| ChangelogFetch.FirstStub | migratowl/core/changelog.py:177-195 | the slow path yields what the first stub that can be followed yields, and nothing iff none can |
| ChangelogFetch.GroupResultHasChunks | migratowl/core/changelog.py:164-195 | whatever one filename group yields passes the chunk test; with the chunker of this model as the test, it has version chunks |
| ChangelogFetch.FromGitHubHasChunks | migratowl/core/changelog.py:146-197 | whatever the raw-file strategy returns passes the chunk test; with the chunker of this model as the test, it has version chunks |
| ChangelogFetch.RootBeforeDocs | migratowl/core/changelog.py:164-197 | a good root file wins, then a root stub; the strategy fails only when no root and no doc URL is good |
| ChangelogFetch.TryUrls | migratowl/core/changelog.py:108-143 | the probe loop returns the first good text in URL order |
| ChangelogFetch.FollowStubs | migratowl/core/changelog.py:177-195 | the stub loop returns what the first followable stub yields |
| ChangelogFetch.TryGroup | migratowl/core/changelog.py:164-195 | one group tries the fast path, then the stubs |
| ChangelogFetch.SearchGroups | migratowl/core/changelog.py:164-197 | the root group, then the doc group, then a failure |
| ChangelogFetch.FetchFromGitHub | migratowl/core/changelog.py:146-197 | an unparsable repository URL fails; otherwise the groups are searched in order |
| ChangelogFetch.NextPos | migratowl/core/changelog.py:207 | the `rel="next"` search stops at the first position where it matches |
| ChangelogFetch.NextLinkFacts | migratowl/core/changelog.py:200-208 | a next link is found only in a non-empty header that contains `rel="next"` |
| ChangelogFetch.NextLinkShape | migratowl/core/changelog.py:207-208 | the link found is non-empty, holds no `>`, and occurs in the header between `<` and `>` |
| ChangelogFetch.NextLinkRoundTrip | migratowl/core/changelog.py:207-208 | `<u>;` with spaces and `rel="next"` gives back `u` |
| ChangelogFetch.ApiHeaders | migratowl/core/changelog.py:227-229 | `Accept` is always sent; `Authorization: Bearer <token>` is sent iff the token is set |
| ChangelogFetch.LastPage | migratowl/core/changelog.py:233-237 | a successful page without a `Link` header ends the pagination with its releases |
| ChangelogFetch.Usable | migratowl/core/changelog.py:239 | the usable filter never adds releases |
| ChangelogFetch.UsableMembership | migratowl/core/changelog.py:239 | a release is usable iff it was fetched and is neither a draft nor a pre-release |
| ChangelogFetch.UsableSubsequence | migratowl/core/changelog.py:239 | the usable releases keep their order |
| ChangelogFetch.Section | migratowl/core/changelog.py:243 | a section opens with `## ` and the tag name |
| ChangelogFetch.ReleaseSections | migratowl/core/changelog.py:239-244 | a successful release fetch has usable releases, and its text holds the section heading of every usable release |
| ChangelogFetch.OnlyUnusableFails | migratowl/core/changelog.py:239-241 | when every fetched release is a draft or a pre-release the strategy fails |
| ChangelogFetch.FetchPages | migratowl/core/changelog.py:231-237 | the pagination loop gathers the releases of every page until no next link, failing on an error response |
| ChangelogFetch.FetchFromGitHubReleases | migratowl/core/changelog.py:211-244 | the releases strategy: parse the repository, paginate, keep the usable releases and join their sections |
| ChangelogFetch.PageStep | migratowl/core/changelog.py:234-237 | one good page puts its releases in front of the releases of the pages after it |
| ChangelogFetch.PrependEmpty | migratowl/core/changelog.py:236 | putting no releases in front changes nothing |
| ChangelogFetch.PrependAssoc | migratowl/core/changelog.py:236 | putting releases in front in two steps is putting their concatenation in front |
| ChangelogFetch.FirstStrategy | migratowl/core/changelog.py:42-46 | the strategies yield nothing iff every one fails |
| ChangelogFetch.FetchChangelog | migratowl/core/changelog.py:15-48 | `fetch_changelog`: the direct URL, then the strategies in token order, then the cannot-fetch warning |
| ChangelogFetch.OutcomeShape | migratowl/core/changelog.py:15-48 | there is either no warning, or one warning and no text; the no-URL warning comes iff neither URL is set |
| ChangelogFetch.DirectUrlFirst | migratowl/core/changelog.py:28-30 | a direct URL that fetches wins |
| ChangelogFetch.TokenDecidesOrder | migratowl/core/changelog.py:34-46 | with a token the releases API goes first, without one the raw files go first |
| ChangelogFetch.AllFail | migratowl/core/changelog.py:48 | when every route fails the result is empty text and the cannot-fetch warning |
| Rag.SubContents | migratowl/core/rag.py:55 | there is always at least one slice, the empty content included |
| Rag.SubContentAt | migratowl/core/rag.py:55 | slice `k` is the content from `4000 * k` to `4000 * k + 4000`, cut at the end of the content |
| Rag.SubContentsCount | migratowl/core/rag.py:55 | the number of slices is the length divided by 4000, rounded up, and one for the empty content |
| Rag.SubContentsSmall | migratowl/core/rag.py:11-15 | content of at most 4000 characters is one slice; 10000 characters make three |
| Rag.SubContentsWidths | migratowl/core/rag.py:55 | every slice has at most 4000 characters, every slice but the last exactly 4000, and only empty content gives an empty slice |
| Rag.SubContentsRoundTrip | migratowl/core/rag.py:11-15 | the slices joined give back the content: nothing is discarded |
| Rag.ColonBeforeDigits | migratowl/core/rag.py:58 | in `x:d` with a digit tail the colon after `x` is the last colon |
| Rag.DocId | migratowl/core/rag.py:58 | an id starts with the dependency name and a colon |
| Rag.LastColon | migratowl/core/rag.py:58 | two ids of the form `head:digits` are equal only when head and digits are |
| Rag.DocIdInjective | migratowl/core/rag.py:58 | two slice ids of one dependency are equal only for the same version and slice index |
| Rag.PutSlicesAt | migratowl/core/rag.py:56-64 | after one section's upserts, slice `idx` is stored under its id with its embedding, text, dependency and version |
| Rag.PutSlicesElsewhere | migratowl/core/rag.py:56-64 | one section's upserts leave every other id as it was |
| Rag.PutChunksElsewhere | migratowl/core/rag.py:53-64 | embedding a changelog leaves every id that is no slice id of it as it was |
| Rag.PutChunksStored | migratowl/core/rag.py:53-64 | every slice of a section whose version no later section repeats is stored with its metadata |
| Rag.PutChunksIndependent | migratowl/core/rag.py:53-64 | what a slice id holds after embedding does not depend on the store before |
| Rag.ReembedIdempotent | migratowl/core/rag.py:59-64 | embedding the same sections twice gives the store of embedding them once |
| Rag.Store.constructor | migratowl/core/rag.py:30-43 | a new collection is empty |
| Rag.Store.Upsert | migratowl/core/rag.py:59-64 | an upsert replaces or adds exactly one id |
| Rag.Store.EmbedChangelog | migratowl/core/rag.py:46-64 | `embed_changelog` upserts every slice of every section, in order |
| Rag.Store.StoredFor | migratowl/core/rag.py:83 | the ids stored for a dependency are exactly those whose metadata names it |
| Rag.Store.Query | migratowl/core/rag.py:67-121 | no documents give an empty result with confidence 0 and no model call; otherwise the model's breaking changes and confidence, with the documents as sources |
| Rag.ResultCount | migratowl/core/rag.py:82-84 | an explicit count is used as given; none asks for every stored document of the dependency, and at least one |
| Rag.PromptHoldsDocuments | migratowl/core/rag.py:97-112 | every retrieved document appears in the prompt |
| Rag.CollectionNameChars | migratowl/core/rag.py:38-41 | the name is `changelogs_` and the model name with every `/`, `-` and `.` turned into `_`, so none is left |
| Rag.CollectionName | migratowl/core/rag.py:38-41 | the name starts with `changelogs_` and is as long as that prefix and the model name together |
| Rag.DistinctModelsDistinctCollections | migratowl/core/rag.py:33-41 | models with different safe names never share a collection |
| Rag.LocalAndRemoteDiffer | migratowl/core/rag.py:33-41 | the default local and hosted embedding models use different collections |
| Impact.VersionsOf | migratowl/core/impact.py:28 | the versions map holds exactly `current` and `latest`, with the versions asked about |
| Impact.NoImpact | migratowl/core/impact.py:25-32 | the early answer names the dependency, has no impacts and no warnings, INFO severity and the no-impact summary |
| Impact.UserPrompt | migratowl/core/impact.py:49-54 | the user message ends with the context |
| Impact.ChangeLine | migratowl/core/impact.py:72 | a change line carries the API name right after `- **` |
| Impact.HintLine | migratowl/core/impact.py:73 | a hint line carries the migration hint after its label |
| Impact.UsageLine | migratowl/core/impact.py:78 | a usage line carries the `file:line` location after `- ` |
| Impact.SnippetLine | migratowl/core/impact.py:79 | a snippet line carries the snippet inside the backticks |
| Impact.ChangeDoc | migratowl/core/impact.py:71-73 | two lines per breaking change |
| Impact.UsageDoc | migratowl/core/impact.py:77-79 | two lines per usage |
| Impact.BuildImpactContext | migratowl/core/impact.py:63-81 | the loops build the context text: the changes heading and items, a blank line, the usages heading and items, joined by newlines |
| Impact.AssessImpact | migratowl/core/impact.py:13-60 | no breaking changes or no usages give the no-impact assessment without a model call; otherwise the model's answer; either way the versions are the arguments |
| Impact.VersionsReported | migratowl/core/impact.py:58-59 | the report reads back both versions from any assessment |
| Impact.ChangeDocAt | migratowl/core/impact.py:71-73 | change `i` occupies lines `2i` and `2i+1`, item then hint |
| Impact.UsageDocAt | migratowl/core/impact.py:77-79 | usage `j` occupies lines `2j` and `2j+1`, location then snippet |
| Impact.ContextFrame | migratowl/core/impact.py:68-80 | the context has the changes heading first, then the blank line and the usages heading after the change lines |
| Impact.ContextChangeAt | migratowl/core/impact.py:70-73 | change `i`'s lines follow the changes heading in order |
| Impact.ContextUsageAt | migratowl/core/impact.py:75-79 | usage `j`'s lines follow the usages heading in order |
| Impact.ContextMentionsUsage | migratowl/core/impact.py:77-79 | every usage's location and snippet appear in the context |
| Impact.ContextMentionsChange | migratowl/core/impact.py:71-73 | every change's API name and migration hint appear in the context |
| Patcher.Item | migratowl/core/patcher.py:84-88 | an item line opens with `- ` and its field name |
| Patcher.BuildImpactsContext | migratowl/core/patcher.py:74-91 | the loop builds the impacts text: heading, summary, severity, a blank line, then one block per impact, joined by newlines |
| Patcher.ContextOpening | migratowl/core/patcher.py:77-80 | the text opens with the assessment heading, the summary, the overall severity and a blank line |
| Patcher.BlockShape | migratowl/core/patcher.py:83-89 | an impact block opens with its heading, ends with a blank line, and has six lines with affected usages, five without |
| Patcher.BlockAt | migratowl/core/patcher.py:82-89 | impact `k`'s block sits in the text right after the opening and the blocks before it |
| Patcher.AffectedLineText | migratowl/core/patcher.py:88 | a rendered line is an affected-files line iff it came from affected usages |
| Patcher.AffectedIffUsages | migratowl/core/patcher.py:87-88 | a block has an affected-files line iff its impact has affected usages |
| Patcher.AffectedTextIffUsages | migratowl/core/patcher.py:87-88 | the rendered block has an affected-files line iff the impact has affected usages |
| Patcher.PromptVersions | migratowl/core/patcher.py:44-50 | the user message ends with the impacts text, and a missing version is shown as `?` |
| Patcher.GeneratePatch | migratowl/core/patcher.py:27-54 | the result is the model's answer to the prompt built from the assessment, `None` when the call raises after instructor's retries |
| Patcher.WithImpacts | migratowl/core/patcher.py:20-21 | the assessments kept all have impacts, and there are no more of them than given |
| Patcher.GeneratePatches | migratowl/core/patcher.py:10-24 | the model's answers for the assessments with impacts, in order, or no result when a call raises |
| Patcher.PatchAllFacts | migratowl/core/patcher.py:20-24 | the patch list fails exactly when the model raises for some impacted assessment; otherwise it has one patch set per impacted assessment, each that assessment's answer, in order |
| Patcher.NoAssessmentsNoPatches | migratowl/core/patcher.py:16-17 | no assessments give an empty patch list, with no model call |
| Patcher.WithImpactsMembership | migratowl/core/patcher.py:20-21 | an assessment gets a patch iff it was given and has impacts |
| Patcher.WithImpactsSubsequence | migratowl/core/patcher.py:20-23 | the patched assessments keep their order |
| Patcher.AllImpactedAllPatched | migratowl/core/patcher.py:20-23 | when every assessment has impacts, every one is patched |
| Report.CriticalCount | migratowl/core/report.py:24 | the critical count never exceeds the number of assessments |
| Report.CriticalCountExtremes | migratowl/core/report.py:24 | the count is 0 iff no assessment is CRITICAL, and all of them iff every one is |
| Report.BuildReport | migratowl/core/report.py:17-35 | the totals are the number of assessments, the critical count is bounded by the total, and the lists and path are carried over unchanged |
| Report.UsagesCell | migratowl/core/report.py:131 | the affected-files cell is `N/A` for no usages, and the usages joined by `, ` otherwise |
| Report.Repeat | migratowl/core/report.py:121 | `n` copies of one character |
| Report.MdHeading | migratowl/core/report.py:98-147 | a heading is `level` hashes, a space, then the text |
| Report.Bold | migratowl/core/report.py:141 | bold text is the text between `**` pairs |
| Report.Field | migratowl/core/report.py:100-124 | a field opens with its name in bold |
| Report.Row | migratowl/core/report.py:106-137 | a table row opens with `|` |
| Report.RuleRow | migratowl/core/report.py:107-129 | a rule row opens with `|` |
| Report.BulletText | migratowl/core/report.py:143-150 | a bullet is `- ` and the item |
| Report.MarkerTexts | migratowl/core/report.py:141-147 | the errors heading reads `## Errors` and the diagnostics marker `**Diagnostics:**` |
| Report.RenderLines | migratowl/core/report.py:94-153 | one text per line |
| Report.RenderLinesAt | migratowl/core/report.py:94-153 | text `k` is the rendering of line `k` |
| Report.SummaryDoc | migratowl/core/report.py:98-114 | the part before the details is fifteen lines |
| Report.Heading | migratowl/core/report.py:121 | an assessment opens with a heading naming its dependency |
| Report.ImpactRows | migratowl/core/report.py:130-137 | one table row per impact |
| Report.Bullets | migratowl/core/report.py:142-150 | one bullet per item |
| Report.AppendBullets | migratowl/core/report.py:142-143 | the loop appends one bullet per item |
| Report.AppendImpactRows | migratowl/core/report.py:130-137 | the loop appends one row per impact |
| Report.AppendAssessment | migratowl/core/report.py:116-144 | one assessment's heading, fields, impact table and diagnostics are appended |
| Report.AppendDetails | migratowl/core/report.py:116-144 | the assessments are appended in order |
| Report.AppendErrors | migratowl/core/report.py:146-151 | the errors section is appended only when there are errors |
| Report.ExportMarkdown | migratowl/core/report.py:94-153 | the Markdown is the rendered lines of the document, joined by newlines |
| Report.JoinStartsWithFirst | migratowl/core/report.py:153 | a join starts with its first part |
| Report.MarkdownOpening | migratowl/core/report.py:98-113 | the title comes first, the summary heading sixth and the details heading fourteenth |
| Report.MarkdownOpensWithTitle | migratowl/core/report.py:98 | the Markdown starts with `# MigratOwl Analysis Report` |
| Report.SummaryMetrics | migratowl/core/report.py:108-110 | the metric rows show the total, outdated and critical counts |
| Report.AssessmentHeadingAt | migratowl/core/report.py:116-121 | assessment `i`'s heading follows the summary and the assessments before it |
| Report.ImpactRowsAt | migratowl/core/report.py:130-137 | every line of the impact rows is a table row |
| Report.BulletsAt | migratowl/core/report.py:142-143 | bullet `k` is item `k` |
| Report.TableLineOpensWithBar | migratowl/core/report.py:106-137 | a rendered line opens with `|` iff it is a table line |
| Report.ImpactTableIffImpacts | migratowl/core/report.py:127-138 | an assessment's part has a table line iff it has impacts |
| Report.ImpactTableTextIffImpacts | migratowl/core/report.py:127-138 | the rendered part of an assessment has a line opening with `|` iff it has impacts |
| Report.HeadingOpening | migratowl/core/report.py:98-147 | every heading opens with `#`, and the title, summary, details, dependency and errors headings differ in their first characters |
| Report.BoldOpening | migratowl/core/report.py:100-141 | every bold line opens with `*`, and the project, timestamp and severity/summary fields differ in their third character |
| Report.DiagnosticsText | migratowl/core/report.py:141 | only the diagnostics marker renders as `**Diagnostics:**` |
| Report.DiagnosticsIffWarnings | migratowl/core/report.py:140-144 | an assessment shows `**Diagnostics:**` iff it has warnings |
| Report.ErrorsText | migratowl/core/report.py:147 | only the errors heading renders as `## Errors` |
| Report.AssessmentDocHasNoErrorsHeading | migratowl/core/report.py:116-144 | no assessment part holds the errors heading |
| Report.DetailDocHasNoErrorsHeading | migratowl/core/report.py:116-144 | the details hold no errors heading |
| Report.RenderedIn | migratowl/core/report.py:94-153 | a line whose text no other line renders to is in the document iff its text is in the Markdown lines |
| Report.ErrorsLineIffErrors | migratowl/core/report.py:146-151 | the document has the errors heading iff the report has errors |
| Report.ErrorsIffErrors | migratowl/core/report.py:146-151 | the Markdown has a `## Errors` line iff the report has errors |
| Analyzer.Merge | migratowl/core/analyzer.py:40-43 | merging an update keeps the dependency's identity fields, replaces only the keys it carries, and only appends to `warnings` and `impact_assessments`; an empty update changes nothing |
| Analyzer.UrlOrNone | migratowl/core/analyzer.py:36-37 | `url or None`: `None` iff the URL is empty |
| Analyzer.UrlOrEmpty | migratowl/core/analyzer.py:160-161 | `url or ""`: an absent URL becomes `""` and a present one is kept |
| Analyzer.UrlRoundTrip | migratowl/core/analyzer.py:36-37 | storing a URL as `""` and reading it back gives the URL, except that an empty one comes back absent |
| Analyzer.WarningsUpdate | migratowl/core/analyzer.py:41-42 | the `warnings` key is set iff there are warnings |
| Analyzer.FetchNode | migratowl/core/analyzer.py:33-43 | the fetch node goes to the embed node, stores the text, and adds the fetcher's warnings, if any, to the state's |
| Analyzer.EmbedWarnings | migratowl/core/analyzer.py:50-60 | no warning iff there are chunks and some fall in range; the no-headers warning when there are none; the no-entries warning when none is in range |
| Analyzer.EmbedInput | migratowl/core/analyzer.py:49-62 | the store receives the range-filtered sections, and none when the chunker found none |
| Analyzer.EmbedNode | migratowl/core/analyzer.py:46-66 | the embed node goes to the analyze node, warns iff there are no chunks or none in range, and changes the state only by appending its warnings |
| Analyzer.EmbedRaises | migratowl/core/analyzer.py:49-55 | the range filter, as the embed node calls it, raises exactly when the changelog has chunks and one of the two versions is not a release version, as `filter_chunks_by_version_range` raises then |
| Analyzer.RagNode | migratowl/core/analyzer.py:69-100 | the analyze node refines iff the answer's confidence is below the threshold and retries are left, and otherwise parses code; a failed query records no results and zero confidence, a good one its results and confidence; nothing else is updated |
| Analyzer.RefineNode | migratowl/core/analyzer.py:103-108 | the refine node adds one to the retry count, changes nothing else, and goes back to the analyze node |
| Analyzer.ParseNode | migratowl/core/analyzer.py:111-117 | the parse node stores the usages found and nothing else, then goes to the assess node |
| Analyzer.AssessmentWarnings | migratowl/core/analyzer.py:125-139 | an assessment carries the state's warnings, with the no-usages warning after them iff no usage was found |
| Analyzer.AssessNode | migratowl/core/analyzer.py:120-141 | the assess node ends the worker and appends exactly one assessment, carrying the collected warnings |
| Analyzer.Potential | migratowl/core/analyzer.py:242-255 | the step measure is zero exactly at the end |
| Analyzer.TransitionDecreases | migratowl/core/analyzer.py:85-108 | every step before the end lowers the step measure, so the worker always ends |
| Analyzer.Transition | migratowl/core/analyzer.py:33-141 | a step stops on a raise, changing nothing, exactly when the embed node raises (range filter or an embedding call, `migratowl/core/rag.py:58`) or the assessor raises at the assess node; it queries the store once at the analyze node and never elsewhere, and changes the store only at the embed node |
| Analyzer.Fetched | migratowl/core/analyzer.py:33-43 | after the fetch node the worker is at the embed node with the fetched text, its versions and retry count unchanged and no query made |
| Analyzer.RaiseSites | migratowl/core/analyzer.py:46-141 | a worker at the fetch node stops on a raise with no query made exactly when the embed node raises on the fetched text, and after a query exactly when the embed node did not raise and the assessor raised on the state it stopped in |
| Analyzer.RagLoopEnds | migratowl/core/analyzer.py:69-141 | from the analyze/refine loop on, the only raise is the assessor's: the run reaches the end iff the assessor answers for the state it ends in |
| Analyzer.Final | migratowl/core/analyzer.py:242-255 | running until the end reaches the end |
| Analyzer.WarningsKept | migratowl/core/analyzer.py:40-66 | the warnings of a run only grow: whatever a node reports is kept |
| Analyzer.OneAssessment | migratowl/core/analyzer.py:120-141 | a run that has not stopped adds exactly one assessment and keeps the earlier ones when it reaches the end, and adds none when a node raises |
| Analyzer.NoQueriesAfterSearch | migratowl/core/analyzer.py:111-141 | from the code search on, the store is not queried again |
| Analyzer.RagLoopBounds | migratowl/core/analyzer.py:85-108 | the analyze/refine loop queries at least once and at most once per retry left plus one |
| Analyzer.QueryBounds | migratowl/core/analyzer.py:24 | a fresh worker whose embed node raises stops with no query made; otherwise it queries the store between one and `MAX_RAG_RETRIES + 1` times, whether it then reaches the end or the assessor raises |
| Analyzer.UnsureUsesEveryRetry | migratowl/core/analyzer.py:85-92 | when no answer is ever confident enough, the loop uses every retry left |
| Analyzer.UnsureFreshWorker | migratowl/core/analyzer.py:24 | under constant low confidence a fresh worker whose embed node did not raise makes exactly `MAX_RAG_RETRIES + 1` queries |
| Analyzer.FailedQueryMovesOn | migratowl/core/analyzer.py:74-81 | a query that raises sends the worker to the code search with no results and zero confidence, after one query |
| Analyzer.Worker.constructor | migratowl/core/analyzer.py:253 | a worker starts at the fetch node with its initial state and no queries made |
| Analyzer.Worker.Embed | migratowl/core/analyzer.py:46-66 | the embed node raises exactly when the range filter or the embedding of an in-range slice raises, and then leaves the store as it was; otherwise it upserts every in-range slice with its embedding and returns the node's command |
| Analyzer.Worker.Step | migratowl/core/analyzer.py:33-141 | one step runs the current node with the real chunker and range filter, updates the store when embedding, merges the command and goes where it says; it stops when the embed node or the assessor raises |
| Analyzer.Worker.Run | migratowl/core/analyzer.py:242-255 | running the worker ends in the configuration the step function ends in |
| Analyzer.ScanDependencies | migratowl/core/analyzer.py:149-166 | corrected node over the outdated list: one entry per outdated dependency, in order, with the project path; absent URLs are stored as `""` and read back as absent |
| Analyzer.NameAttr | migratowl/core/analyzer.py:155 | reading `.name` succeeds exactly on an outdated dependency and gives its name |
| Analyzer.EntriesOf | migratowl/core/analyzer.py:153-163 | the comprehension succeeds iff every element it meets has a name, and then gives one entry per element |
| Analyzer.ScanDependenciesAsWritten | migratowl/core/analyzer.py:149-166 | `scan_dependencies_node` as written iterates the `(outdated, errors)` pair; when it fails, the error is the `AttributeError` of reading `.name` on a list |
| Analyzer.ScanAsWrittenAlwaysFails | migratowl/core/analyzer.py:150-163 | as written, iterating the `(outdated, errors)` pair fails on its first element for every project |
| Analyzer.EntriesOfOutdated | migratowl/core/analyzer.py:153-163 | iterating the outdated list itself gives exactly the entries of the corrected node |
| Analyzer.FanOut | migratowl/core/analyzer.py:174-197 | one worker state per dependency, in order, with its fields copied and a fresh start: no text, results, usages, assessments or warnings, zero confidence and no retries |
| Analyzer.FreshWorkerRun | migratowl/core/analyzer.py:174-197 | a worker started by the fan-out stops on a raise with no query made exactly when its changelog has chunks and a version is not a release version, or an embedding call on an in-range slice raises; otherwise it makes one to `MAX_RAG_RETRIES + 1` queries and stops on a raise exactly when the assessor raises; a raise leaves no assessment, the end exactly one |
| Analyzer.ValidVersionsEnd | migratowl/core/analyzer.py:174-197 | for a fresh worker whose two versions are release versions the range filter does not raise, and the worker reaches the end, with exactly one assessment, iff no embedding call and no assessor call raises |
| Analyzer.RouteAfterFanIn | migratowl/core/analyzer.py:200-204 | the route is patch generation iff fix mode is on |

## Left out

- HTTP, redirects, timeouts and the HTML-to-text conversion (`migratowl/core/changelog.py:51-71`): every request is an oracle, a parameter that returns a status and text or nothing, and the conversion is a parameter function. A response is good when its status is in the 2xx range, which stands for `raise_for_status`.
- Concurrency: the asyncio tasks, `as_completed`, cancellation and semaphores. The changelog probe, the registry lookups and the worker fan-out are modelled as sequential loops.
- ChangelogFetch.TryUrls: returns the first good candidate in URL order. The source returns whichever good response finishes first, so this is one of the orders the source allows.
- Registry.FindOutdated: lists the errors in input order. The source appends them as the concurrent lookups finish, so it promises only which errors there are.
- ChangelogFetch.FetchPages: the release pagination is bounded by a page budget (`maxPages`), and the budget running out counts as a failed strategy. The source loops until there is no next link.
- The LangGraph runtime, the reducers, `Send` parallelism and the merge after fan-in (`migratowl/core/analyzer.py:242-297`). `Analyzer.Worker.Step`/`Run` drive one worker sequentially; `generate_patches_node`, `generate_report_node` and the graph construction are not part of this model.
- Analyzer.Worker: the count of store queries is a ghost field. It exists only to state the retry bound and is not state in the source.
- The language model, instructor, the embedding model and ChromaDB's similarity search (`migratowl/core/rag.py:79-121`, `migratowl/core/impact.py:36-57`, `migratowl/core/patcher.py:27-54`). Each is a function parameter. The worker's embedding, query and assessor services, and the patch model, answer `None` when the call raises. Confidence and the threshold are reals, and only compared.
- Tree-sitter parsing, queries and cursors (`migratowl/core/code_parser.py:67-118`). Captures and from-imports are given as lists of records; `CodeParser.ParseFile` receives the parsed tree and the file's lines.
- File reading, `Path.walk`/`rglob`, and TOML and JSON decoding. The scanner parsers start from decoded maps and line lists, and the directory walk is a given tree of directories and file names.
- Versions: only PEP 440 release segments (an optional `v`, digit groups, surrounding whitespace) are modelled. Epochs, pre-, post-, dev- and local segments count as invalid, so `Registry.IsNewer` falls back to string inequality for them, and a chunk version that is not a release is not in range.
- Changelog.FilterChunksByVersionRange: a bound that is not a release version is a failure on non-empty input. The source first tries an integer-tuple fallback, which then fails when compared with a parsed version.
- Character classes are ASCII. Python's `\s`, `\d`, `\w`, `str.isdigit` and `str.lower` also accept other Unicode characters.
- The chunker's offsets add one character per line break, as the source does. The lemma that offsets are real line starts is stated for `\n`-only text.
- ChangelogFetch.CandidateHashOnlyFromOwner: does not state that a built URL never holds a `#`, because the owner pattern `[^/]+` admits one (`github.com/a#b/c`). It states that only the owner can bring one.
- CodeParser.FindUsages: applies the corrected skip rule, which looks only at the path parts below the project (see Findings). `CodeParser.CollectUsages` models the rule as written, which also looks at the project path.
- Analyzer.ScanDependencies: takes the outdated list itself, the corrected form. As written, `scan_dependencies_node` iterates over the pair that `find_outdated` returns and fails on its first element (see Findings). `Analyzer.ScanDependenciesAsWritten` models that.
- Analyzer.Transition: when the embed node or the assess node raises, the worker stops in a `Raised` configuration with the state it had. In the source the exception leaves the graph, so the whole analysis fails; the model does not follow it past the worker.
- Analyzer.Worker.Embed: decides whether an embedding call raises before upserting any slice, so a raise leaves the store as it was. In the source the slices embedded before the failing call stay upserted, which matters only to a later run over the same persistent store.
- Rag.Store.EmbedChangelog: takes an embedding function that always answers; the worker's embed node handles a raising call before it calls the store.
- Impact.AssessImpact: takes a model that always answers. When instructor's retries run out the call raises; the worker's assessor service, which may answer `None`, models that raise.
- Registry.Lookup: a JSON object is a list of entries in document order. A repeated key keeps its last value, as `json.loads` does, but `Registry.FirstForgeUrl` scans every entry, including a value a later duplicate replaced.
- The timestamp in `build_report` is a parameter. `render_report` (Rich), `export_json` and `create_unified_diff` (`migratowl/core/patcher.py:57-71`) are output formatting and are not part of this model.
- The change-type coercion and the confidence bound come from `tests/unit/test_schemas.py:103-110` and `238-248`; both are modelled (`Schemas.CoerceChangeType`, `Schemas.MakeChangelogAnalysis`).
- The CLI, the MCP server, settings loading (`migratowl/config.py`), client construction (`migratowl/core/llm.py`) and `test_pipeline.py` are glue and are not modelled.
- Logging calls are left out; they do not affect results.

## Findings

| source | as written | input that shows it | evidently intended | confidence | as-written member | corrected member |
|---|---|---|---|---|---|---|
| migratowl/core/code_parser.py:270-273 | the skip test looks at every part of the file's full path, the project path included | project path `..` with the file `../main.py`: the part `..` starts with `.`, so the file is skipped; the same holds for any project under a dot directory such as `~/.work/app` | apply the skip rule only to the parts below the project path | not executed | CodeParser.HiddenProjectYieldsNothing, CodeParser.FindUsagesParentPathExample | CodeParser.CollectUsagesBelow, CodeParser.CollectUsagesBelowMembership |
| migratowl/core/analyzer.py:150-163 | the node binds the `(outdated, errors)` pair that `find_outdated` returns to one name, and its comprehension iterates over that pair | any project: the first element met is the list of outdated dependencies, which has no `.name`, so an `AttributeError` ends the scan, even when nothing is outdated | unpack the pair, `outdated, errors = ...`, and iterate over the outdated list, as `test_pipeline.py:50` does | not executed | Analyzer.ScanDependenciesAsWritten, Analyzer.ScanAsWrittenAlwaysFails | Analyzer.ScanDependencies, Analyzer.EntriesOfOutdated |
