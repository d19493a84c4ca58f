# snek, modelled in Dafny

snek is a small static-site generator. A `SnekConfig` checks and normalises
the folder layout of a site. A `Snek` object then indexes the site:
- it reads every data file into a nested `data` dictionary;
- it reads the front matter of every content page into a nested `sitemap` and a flat `sitemap_flat` list;
- it lists the templates and remembers the default one.

`build` copies the static folders and renders each content page to an `.html`
file in the build folder.

This project models that indexing and bookkeeping core:

- **`wrappers.dfy`** (`Wrappers`): `Option` and `Result`.
- **`py_strings.dfy`** (`PyStrings`): the parts of Python's `str` methods and `os.path` functions that snek relies on, as functions on `seq<char>`:
  - `endswith`, `lstrip`, `split`, `join`, `rfind`, `replace`;
  - `os.path.splitext`, `os.path.join`, `os.path.normpath`.

  Each comes with its properties.
- **`pure_paths.dfy`** (`PurePaths`): a path is a sequence of components. Covers `name`, `suffix`, `stem`, `suffixes`, `relative_to` and `str()`.
- **`nested_tree.dfy`** (`NestedTree`): the nested dictionaries, written as `Leaf(v) | Branch(map)`.
  - `Put` is the specification of one insertion by key path. `InsertAt` is the loop that walks down and climbs back, proved equal to `Put`.
  - `InsertAll` is the fold that both loaders perform, with what the tree and the error log hold afterwards.
- **`utils.dfy`** (`Utils`): `SnekUtils.find_files`, `SnekUtils.get_nested_keys_from_filepath`, `DuplicateKeyError`, and `SnekDict` as a class over a tree field.
- **`snek_config.dfy`** (`Config`): `SnekConfig.__init__` as a class.
  - It validates and stores the seven folder paths, coerces the options, and sets `is_valid` last.
  - `Validate` states which configuration error, if any, construction raises for given arguments and directories.
- **`snek.dfy`** (`Snek`): the `Snek` class.
  - Construction: the configuration checks, `__load_data`, `__load_sitemap`, `__load_templates`.
  - Loading helpers: `__parse_data_from_filepath`, `__update_*_from_filepath`, `__update_attr_from_nested_keys`.
  - `build` and `__build_content`, whose loop is proved against the pure `Pages`/`Skipped` functions. The copy steps are `Action` values.
  - The destination-path and template-choice rules.

The file system is an input. Each glob is modelled as a listing of entries.
Each entry records its path, its resolved path, `is_file`, and `os.access(R_OK)`.
A value of type `Files` carries the parsed contents and the set of existing
paths.

## Model

| member | source | states |
|---|---|---|
| PyStrings.LStrip | snek/utils.py:42-44 | `lstrip(c)` returns a suffix of the string, no longer than it, that does not start with `c` |
| PyStrings.LStripRemovesOnly | snek/utils.py:42-44 | every character `lstrip(c)` removes is `c` |
| PyStrings.Split | snek/snek.py:257 | `split(sep)` yields at least one part, and no part contains the separator |
| PyStrings.SplitWithoutSeparator | snek/snek.py:257 | a string without the separator splits into itself alone |
| PyStrings.SplitAtFirstSeparator | snek/snek.py:257 | splitting at the first separator gives its left side followed by the split of the rest |
| PyStrings.SplitJoin | snek/snek.py:257 | splitting a non-empty join of separator-free parts gives back the parts |
| PyStrings.JoinSplit | snek/utils.py:80 | joining the parts of a split gives back the string |
| PyStrings.RFind | snek/utils.py:87 | `rfind` gives -1 or an index holding the character |
| PyStrings.RFindIsLast | snek/utils.py:87 | no later index holds the character |
| PyStrings.LastIndexOf | snek/utils.py:87 | an index holding the character with none after it is what `rfind` returns |
| PyStrings.RFindAddedDot | snek/utils.py:87 | the last '.' of `root + "." + e` with a dot-free `e` is the added one |
| PyStrings.RFindSlashKept | snek/utils.py:87 | appending a slash-free `"." + e` leaves the last '/' where it was |
| PyStrings.SplitExt | snek/utils.py:87 | `splitext` gives root and extension that concatenate to the path; the extension is empty or one '.' followed by no '.' or '/' |
| PyStrings.SplitExtProper | snek/utils.py:87 | a root whose last component is not all dots, plus `"." + e`, splits back into that root and `"." + e` |
| PyStrings.NormComps | snek/snekconfig.py:125 | after `normpath`'s folding no "" or "." component survives, and ".." survives only in a leading run of a relative path |
| PyStrings.NormPath | snek/snekconfig.py:125 | `normpath` never returns the empty string and keeps an absolute path absolute |
| PyStrings.NormPathDotSlash | snek/snekconfig.py:125 | `normpath("./" + name)` is `name` for a plain folder name |
| PyStrings.ReplaceAbsent | snek/snek.py:521 | `replace` leaves a string without the pattern unchanged |
| PyStrings.ReplaceNone | snek/snek.py:521 | same, for a pattern that cannot occur because it is longer than the string |
| PyStrings.LeadingReplaced | snek/snek.py:521 | a leading occurrence is replaced, and the scan continues after it |
| PyStrings.ReplaceSkip | snek/snek.py:521 | a prefix in which no occurrence starts is kept verbatim |
| PyStrings.ReplaceOnce | snek/snek.py:521 | a single occurrence is replaced in place |
| PyStrings.ReplaceTwice | snek/snek.py:521 | two separated occurrences are both replaced |
| PyStrings.ReplaceOnlyAtStart | snek/snek.py:521 | a pattern occurring only at the start is replaced once |
| PyStrings.ReplaceUnique | snek/snek.py:521 | a pattern occurring exactly once is replaced there and nowhere else |
| PyStrings.TrailingDeleted | snek/snek.py:524 | deleting a pattern that occurs only at the end strips that ending |
| PurePaths.RelativeTo | snek/utils.py:77 | `relative_to` succeeds exactly when the base is a prefix, and base plus result is the path |
| PurePaths.Stem | snek/utils.py:83 | stem plus suffix is the name |
| PurePaths.Suffixes | snek/utils.py:42-44 | each entry of `suffixes` starts with '.' and holds no other '.'; written one after the other they end the name, leaving no '.' in the name once its leading dots are stripped; the last of them is the name's `suffix`; a name ending with '.' has none |
| PurePaths.SuffixesEndName | snek/utils.py:42-44 | the dotted parts after the first, of the name without its leading dots, end the name |
| PurePaths.LastSuffixIsSuffix | snek/utils.py:42-44 | the last of those dotted parts is the name's `suffix` |
| PurePaths.SuffixesLeaveDotless | snek/utils.py:42-44 | what those dotted parts leave of the name without its leading dots holds no '.' |
| PurePaths.DotSplitUnique | snek/utils.py:42-44 | a string splits in one way only into dot-free text followed by dotted entries |
| PurePaths.SuffixesUnique | snek/utils.py:42-44 | `suffixes` is the only list its contract allows, so every dotted part of the name is listed (".json" and ".md" for "a.json.md") |
| PurePaths.StemOfDotted | snek/utils.py:83 | `base.ext` has stem `base` and suffix `.ext` |
| NestedTree.Put | snek/utils.py:112-128 | an insertion conflicts exactly when the key path is non-empty and already leads to a leaf or a sub-dictionary; an empty key path leaves the tree unchanged |
| NestedTree.PutReachable | snek/utils.py:115-125 | after a stored insertion, following the keys reaches the value |
| NestedTree.PutFrame | snek/utils.py:115-125 | every path that is not a prefix of the keys looks up the same as before |
| NestedTree.PutLevels | snek/utils.py:118-121 | every proper prefix of the keys leads to a dictionary afterwards, created if missing |
| NestedTree.PutShape | snek/utils.py:115-125 | the only new leaf is at the keys, and every new path is a prefix of them |
| NestedTree.NoLeafOnPathFromPrefixes | snek/utils.py:118-121 | if no proper prefix of the keys is a leaf, the walk meets no leaf |
| NestedTree.Descend | snek/utils.py:115-121 | the walk's levels start at the tree, each is the child (existing or new) of the one before, and the final key is looked up in the last one |
| NestedTree.InsertAt | snek/utils.py:112-128 | the walk-and-store loop computes exactly `Put` |
| NestedTree.InsertAll | snek/snek.py:380-382 | after loading, every value sits at some item's keys and every path leads towards some item's keys |
| NestedTree.InsertAllLast | snek/snek.py:380-382 | loading all items is loading all but the last, then one step |
| NestedTree.InsertAllNext | snek/snek.py:380-382 | loading `i + 1` items is loading `i` items, then one step |
| NestedTree.LeafFree | snek/snek.py:380-382 | with prefix-free key paths, no walk meets a value stored earlier |
| NestedTree.LoadsIsInsertAll | snek/snek.py:380-382 | after `i` iterations of the loader loop, the state is the load of the first `i` items |
| NestedTree.LoadsNext | snek/snek.py:380-382 | one iteration of the loader loop is one step |
| NestedTree.LoadsEnds | snek/snek.py:380-382 | the finished loop is the load of all items |
| NestedTree.StepLogged | snek/snek.py:284-288 | logging the parse messages first and then inserting is one step |
| NestedTree.StepPrefixed | snek/snek.py:284-288 | a step only appends to whatever log came before |
| NestedTree.InsertAllReaches | snek/snek.py:380-382 | every item's key path leads somewhere after the load |
| NestedTree.PutFrameOrLevel | snek/utils.py:115-125 | a path present before an insertion is still present after |
| NestedTree.FreshPathAbsent | snek/snek.py:355-359 | a key path that is no earlier item's and lies on none is absent when its item comes |
| NestedTree.StepKeeps | snek/snek.py:355-359 | a step keeps every stored value |
| NestedTree.StepStores | snek/snek.py:355-359 | a step into an absent key path stores the item's value there |
| NestedTree.InsertAllFirstWins | snek/snek.py:355-359 | an item whose key path is no earlier item's and lies on none holds its value there after the load, whatever comes later |
| NestedTree.StepErrors | snek/snek.py:355-359 | a step logs the item's own messages, then one conflict message exactly when the path was taken |
| NestedTree.GetPrefix | snek/utils.py:118-121 | every prefix of a path present in a tree is present too |
| NestedTree.RepeatTaken | snek/snek.py:355-359 | a key path that is, or lies on, an earlier item's is taken when its item comes |
| NestedTree.ConflictIffRepeats | snek/snek.py:355-359 | an item's insertion conflicts exactly when its key path is non-empty and is, or is a prefix of, an earlier item's |
| NestedTree.InsertAllErrors | snek/snek.py:355-359 | the loader's log is each item's messages, in order, plus one "conflicts with another item." message for each item whose key path is, or is a prefix of, an earlier item's |
| Utils.Filter | snek/utils.py:47-50 | the filter keeps at most as many paths as it is given, and every accepted entry's resolved path is kept |
| Utils.FilterNone | snek/utils.py:42-44 | a filter that accepts nothing returns an empty list |
| Utils.FilterInOrder | snek/utils.py:50 | the result is exactly the accepted entries' resolved paths, at increasing positions of the listing |
| Utils.FindFiles | snek/utils.py:7-50 | `find_files` keeps every entry that is a readable file, matches the glob pattern and has an allowed suffix, and returns no more paths than the glob yields |
| Utils.FindFilesInOrder | snek/utils.py:38-50 | every returned path is a readable file with an allowed suffix, and the result is an order-preserving subsequence of the glob |
| Utils.FindFilesNoSuffixes | snek/utils.py:26-27 | with no suffixes, `find_files` returns an empty list |
| Utils.FinalKey | snek/utils.py:83-87 | the final key is a prefix of the file name, and it is the stem when there is nothing to strip |
| Utils.NestedKeysFromFilepath | snek/utils.py:53-92 | keys exist exactly when the file is under the root, and there is at least one |
| Utils.NestedKeysShape | snek/utils.py:77-92 | the keys are the folders between root and file, verbatim and in order, followed by exactly one final key |
| Utils.FinalKeyDoubleSuffix | snek/utils.py:83-87 | `test1.json.md` gives `test1` when `.json` is a strip suffix |
| Utils.FinalKeySingleSuffix | snek/utils.py:83-87 | `name.ext` gives `name` when `name` ends with no strip suffix |
| Utils.SnekDict.constructor | snek/utils.py:94 | a new dictionary is empty |
| Utils.SnekDict.UpdateFromNestedKeys | snek/utils.py:95-128 | empty keys change nothing; a taken key path raises `DuplicateKeyError` with the joined path and leaves the dictionary intact; otherwise the dictionary becomes `Put`'s result |
| Config.CheckOrder | snek/snekconfig.py:109-117 | every folder name sits at its position in the dictionary's iteration order |
| Config.PathPatternIsFormat | snek/snekconfig.py:122 | a string matches the path regex exactly when it is non-empty and does not end in '/' |
| Config.OutputStyle | snek/snekconfig.py:132 | the style is always one of the three names, kept when given as one of them, and "compressed" for every other value, string or not |
| Config.OutputStyleIdempotent | snek/snekconfig.py:132 | normalising a normalised style changes nothing |
| Config.CheckPathsMeaning | snek/snekconfig.py:120-123 | the path loop raises nothing exactly when every remaining folder argument is a well-formed string, and otherwise fails at one of them |
| Config.CheckPathsPass | snek/snekconfig.py:120-126 | a folder that passes leaves the loop's outcome to the folders after it |
| Config.FsPath | snek/snekconfig.py:97-100 | a str or a path object names a path, any other value none |
| Config.ValidateMeaning | snek/snekconfig.py:97-123 | construction succeeds exactly when the build path (a str or a path object) is a directory and all seven folders are well-formed strings; TypeError exactly for a build path of another type, BuildFolderNotFound exactly for one that is no directory, otherwise the first failing folder's error |
| Config.SnekConfig.Blank | snek/snekconfig.py:91 | a configuration starts out invalid |
| Config.SnekConfig.SetPath | snek/snekconfig.py:126 | `__setattr__` sets one folder attribute and no other |
| Config.SnekConfig.StorePaths | snek/snekconfig.py:119-126 | the loop raises what the path check says, and on success every folder attribute holds its normalised argument; only the folder attributes change |
| Config.SnekConfig.SetOptions | snek/snekconfig.py:131-133 | `scss_active` and `data_in_build` are true exactly when their arguments `== True`, and the style is normalised |
| Config.SnekConfig.Finish | snek/snekconfig.py:131-138 | the options are set, and then `is_valid` becomes true |
| Config.SnekConfig.Create | snek/snekconfig.py:46-138 | construction returns a valid configuration built from the arguments exactly when validation passes, and otherwise raises validation's error |
| Config.DefaultsAccepted | snek/snekconfig.py:46-57 | the default arguments are accepted exactly when "./build" is a directory |
| Config.DefaultsNormalised | snek/snekconfig.py:47-57 | each default folder is stored without its "./" |
| Config.DefaultTemplatesFolder | snek/snekconfig.py:51 | a default configuration keeps its templates in "templates" |
| Snek.MergeMetadata | snek/snek.py:309-321 | a sitemap entry has every default key plus the parsed ones; `filepath` is always the file itself; parsed keys override the defaults |
| Snek.MergeIgnoresFilepath | snek/snek.py:317-318 | a `filepath` in the front matter makes no difference |
| Snek.MergeIdempotent | snek/snek.py:309-321 | merging a merged entry again changes nothing |
| Snek.FindSourceFiles | snek/snek.py:151-164 | `_find_files` returns no more paths than the glob yields, and every readable file with a handler's suffix, whose name ends in the extra suffix when that starts with '.' |
| Snek.FindSourceFilesInOrder | snek/snek.py:151-164 | the result is an order-preserving subsequence of the glob holding exactly those files; an extra suffix not starting with '.' filters nothing |
| Snek.FoundNamesEndInSuffix | snek/snek.py:153-154 | with an extra suffix starting with '.', every returned file's name ends in it |
| Snek.ParseData | snek/snek.py:212-231 | parsing a data file logs nothing exactly when its last suffix has a handler and its content parses; it then returns the parsed value, and otherwise None with one message |
| Snek.DataItemsOf | snek/snek.py:380-382 | there is one data item per data file |
| Snek.SitemapItemsOf | snek/snek.py:429-433 | there is one sitemap item per content file |
| Snek.FlatSitemap | snek/snek.py:429-431 | `sitemap_flat` holds the content files as strings, one per file, in discovery order |
| Snek.FlatSitemapGrows | snek/snek.py:431 | each iteration appends exactly its file's string |
| Snek.FlatSitemapAllowed | snek/snek.py:429-433 | every file in `sitemap_flat` has front matter parsed by an allowed handler when loading is possible |
| Snek.DestinationAsWritten | snek/snek.py:521-530 | the destination computed as written always ends in ".html" |
| Snek.Destination | snek/snek.py:521-530 | the destination with only the final ".md" stripped always ends in ".html" |
| Snek.ContentFolderSwapped | snek/snek.py:521-524 | when the content folder occurs once, `<prefix><content>/<rel>.md` loses its ".md" and moves to the build folder |
| Snek.DestinationOfPage | snek/snek.py:521-530 | such a page is written to `<prefix><build>/<rel>.html` |
| Snek.DestinationOfDataPage | snek/snek.py:521-530 | a `name.ext.md` page with a handler for `.ext` is written to `name.html` in the build folder |
| Snek.SplitExtOfName | snek/snek.py:527-528 | `splitext` strips exactly the handler suffix from such a page |
| Snek.DestinationAgrees | snek/snek.py:521-530 | the written and the corrected destinations agree when ".md" occurs only at the end |
| Snek.ContentFolderReplaced | snek/snek.py:521 | `"/m.md/c/a.md"` becomes `"/m.md/b/a.md"` when "c" is replaced by "b" |
| Snek.EveryMdDeleted | snek/snek.py:524 | deleting ".md" from `"/m.md/b/a.md"` gives `"/m/b/a"` |
| Snek.DestinationAsWrittenLosesFolderMd | snek/snek.py:521-530 | as written, `/m.md/c/a.md` is written to `/m/b/a.html` |
| Snek.DestinationKeepsFolderMd | snek/snek.py:521-530 | corrected, `/m.md/c/a.md` is written to `/m.md/b/a.html` |
| Snek.DefaultTemplateAccepted | snek/snek.py:399-406 | the check as written accepts `<templates>/index.html` when the folder name occurs only once in it |
| Snek.DefaultTemplateMissed | snek/snek.py:399-406 | as written, the check rejects "i/index.html" in the templates folder "i": the deletions leave "/ndex.html", then "ndex.html" |
| Snek.NestedTemplateTaken | snek/snek.py:399-406 | as written, the check accepts "a/in/dex.html" in the templates folder "a": the deletions leave "/in/dex.html", then "index.html" |
| Snek.ChooseTemplate | snek/snek.py:534-543 | a page without a truthy `template` uses the default; a wanted template (`<templates>/<template>`) that exists is used; any result other than the default is that existing wanted template, so a missing one leaves the default |
| Snek.PagesAccounted | snek/snek.py:510-569 | every content file is either written or skipped; every page goes to an ".html" file, rendered with the template `ChooseTemplate` picks from its front matter: the existing wanted one, else the default |
| Snek.BuildPlanShape | snek/snek.py:453-469 | a build copies assets and JavaScript, then compiles SCSS or copies CSS, then writes the pages, then copies the data folder exactly when asked |
| Snek.Snek.Init | snek/snek.py:74-85 | a new generator starts with no errors, empty data, sitemap and templates, no default template and zero counters |
| Snek.Snek.ParseFrontmatterFromFilepath | snek/snek.py:184-193 | front matter from an allowed handler is returned; otherwise one error is logged and there is none |
| Snek.Snek.ParseDataFromFilepath | snek/snek.py:195-231 | returns `ParseData`'s value and appends its messages to `errors` |
| Snek.Snek.UpdateAttrFromNestedKeys | snek/snek.py:325-359 | on a taken key path one conflict message is appended and the tree is unchanged; otherwise the value is stored as `Put` says and nothing is logged |
| Snek.Snek.UpdateDataFromFilepath | snek/snek.py:271-288 | one data file is one loader step: its parse messages, then its insertion at its nested keys |
| Snek.Snek.UpdateSitemapFromFilepath | snek/snek.py:290-323 | one content file is one loader step that inserts its merged metadata at its nested keys |
| Snek.Snek.LoadData | snek/snek.py:361-382 | `data` is reset and becomes the load of all data files; `errors` grows by that load's log |
| Snek.Snek.LoadDataFiles | snek/snek.py:380-382 | the loop over data files performs the load of their items |
| Snek.Snek.LoadDataFile | snek/snek.py:381-382 | one iteration advances the load by one item |
| Snek.Snek.LoadSitemap | snek/snek.py:414-435 | `sitemap` and `sitemap_flat` are reset; the flat list is the content files in order, the tree is their load, and `errors` grows by its log |
| Snek.Snek.LoadSitemapFiles | snek/snek.py:428-433 | the loop over content files builds the flat list and the load |
| Snek.Snek.LoadSitemapFile | snek/snek.py:429-433 | one iteration appends one flat entry and advances the load by one item |
| Snek.Snek.LoadTemplates | snek/snek.py:385-412 | `templates` is the template listing; the default is found exactly when `<templates>/index.html` is listed, and it is then remembered |
| Snek.Snek.BuildContent | snek/snek.py:493-569 | the loop writes `Pages` for `sitemap_flat`, adds their number to `pages_built` and the number of empty front matters to `pages_skipped` |
| Snek.Snek.Build | snek/snek.py:437-474 | the counters are reset, the actions are the build plan, and `pages_built + pages_skipped == len(sitemap_flat)` |
| Snek.Snek.LoadContent | snek/snek.py:104-109 | the data and the sitemap are loaded from the files |
| Snek.Snek.Load | snek/snek.py:104-114 | loading succeeds exactly when the default template is listed |
| Snek.Snek.SelectConfig | snek/snek.py:90-99 | a non-`SnekConfig` raises `InvalidConfig` naming its type; None becomes the default configuration; an invalid configuration raises `InvalidConfig` |
| Snek.Snek.LoadFrom | snek/snek.py:100-114 | with a valid configuration the generator is made exactly when the default template exists, and otherwise `NoDefaultTemplate` is raised |
| Snek.Snek.Create | snek/snek.py:89-114 | the constructor's error cases in order, and on success a generator loaded from the files with a default template |

## Left out

- File-system enumeration and access are inputs. Each glob's results, `is_file`, `os.access`, `resolve`, `os.path.exists` and the template glob are part of the `Files` value.
- Build-folder creation and its `isdir` test (snek/snekconfig.py:97-102) are the `dirs` parameter: the set of paths that are directories after the `mkdir` attempt.
- The per-suffix JSON and YAML loaders, with the exceptions `__parse_data_from_filepath` catches and logs, are the function `parseData` in `Files`. `frontmatter.load` is the function `frontMatter`, which is taken never to raise. Which handler class parsed the front matter is the flag `handlerAllowed`.
- Snek.Snek.Create: `frontMatter` never fails, so the model does not capture the crash when `frontmatter.load` (snek/snek.py:184, outside any `try`) raises for a content file, for example on front matter its YAML parser rejects or on a file that does not decode. The source's `Snek()` then fails through `__load_sitemap`. The model's construction succeeds whenever the configuration validates and the default template is listed.
- Snek.Snek.LoadSitemap and Snek.Snek.Build: the same exception is not modelled; in the source it leaves `__load_sitemap` and `build()` (through `__build_content`).
- Markdown conversion, Mako rendering, SCSS compilation, `copy_tree`, `rmtree`, `os.makedirs` and file writes are not performed. The build produces `Action` values that name what would be copied, compiled or written.
- Timestamps (`build_start`, `build_end`, `__add_error`'s time prefix) and `get_build_report` are not modelled. `errors` is a list of messages.
- `config.handlers` is not defined by `SnekConfig`. The handler suffixes are a parameter of the `Snek` constructor.
- `str()` of a non-string front-matter `template` value is the `display` function of `Files`.
- Snek.Snek.UpdateSitemapFromFilepath: requires the front matter to come from an allowed handler. Otherwise the source calls `.pop` on None and crashes.
- Snek.Snek.BuildContent: requires the same, since the source would read `.metadata` of None. It also computes each page's destination with the corrected `Snek.Destination`, which strips only the final ".md", not with the code as written at snek/snek.py:524 (see Findings); `Snek.Snek.Build` inherits this.
- Snek.Snek.LoadData: requires that no data file's key path is a proper prefix of a later file's (`PrefixFree`), so that no walk meets a stored value; the source would then walk into that value. The loaders need this too (`Loadable`). A later key path that is a proper prefix of an earlier one is allowed and is a logged conflict.
- NestedTree.InsertAt: requires that no proper prefix of the keys holds a value (`NoLeafOnPath`). Otherwise Python would index into that value.
- Utils.SnekDict.UpdateFromNestedKeys: requires the same.
- Snek.Snek.UpdateAttrFromNestedKeys: requires the same.
- Utils.NestedKeysFromFilepath: returns None where `relative_to` raises `ValueError`. `os.sep` is taken to be '/'.
- Snek.Snek.LoadData, Snek.Snek.LoadSitemap and Snek.Snek.Create: require every listed file's resolved path to lie under its folder's (`UnderRoot` in `Loadable`). A symbolic link that leads out of the folder makes `relative_to` (snek/snek.py:254) raise `ValueError`, which the source does not catch; that crash is not modelled.
- Config.SnekConfig.Create: a build path given as a path object (`PyPathLike`) is stored as the text it names. The source would keep the object, and the `str.replace` of snek/snek.py:521 would then raise TypeError during `build`; that is not modelled.
- Snek.Snek.LoadTemplates: keeps the intended check (see Findings), so every match is the same path. "Last match wins" then coincides with "the default is remembered".
- `SnekConfig.__str__`, `__repr__` and `to_dict` are not part of this model.
- `setup.py` and the test files are not part of this model.

## Findings

| source | as written | input that shows it | evidently intended | confidence | as-written member | corrected member |
|---|---|---|---|---|---|---|
| snek/snek.py:524 | `replace('.md', '')` deletes every ".md" in the destination path, folder names included | content file `/m.md/c/a.md`, content folder "c", build folder "b": written to `/m/b/a.html` | strip only the final ".md", giving `/m.md/b/a.html` | not executed | Snek.DestinationAsWrittenLosesFolderMd | Snek.DestinationKeepsFolderMd |
| snek/snek.py:400-404 | the default-template test deletes the templates folder's name wherever it occurs, then every '/' and '\', and compares with "index.html" | templates folder "i": `i/index.html` becomes "ndex.html" and no default is found; templates folder "a": the nested `a/in/dex.html` is taken as the default | the default is exactly `<templates>/index.html` | not executed | Snek.DefaultTemplateMissed | Snek.Snek.LoadTemplates |

The class members use the corrected definitions. `Snek.Snek.BuildContent`
uses `Snek.Destination`, and `Snek.Snek.LoadTemplates` compares with
`Snek.DefaultTemplate`. `Snek.DestinationAgrees` and
`Snek.DefaultTemplateAccepted` show where each as-written check agrees with
the intended one.
