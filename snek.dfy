// snek/snek.py: the site generator. Construction loads the shared data, the
// content sitemap and the template list; `build` plans the copy of the static
// folders and the rendering of every content page.

module Snek {
  import opened Wrappers
  import opened PyStrings
  import opened PurePaths
  import opened NestedTree
  import opened Utils
  import opened Config

  // ---------------------------------------------------------------------------
  // Values read from data files and front matter.

  /** A JSON or YAML value. */
  datatype Value =
    | Null
    | Bool(b: bool)
    | Int(i: int)
    | Real(r: real)
    | Str(s: string)
    | List(items: seq<Value>)
    | Object(fields: map<string, Value>)

  /** Python's truth value of the value. */
  predicate Truthy(v: Value) {
    match v
    case Null => false
    case Bool(b) => b
    case Int(i) => i != 0
    case Real(r) => r != 0.0
    case Str(s) => |s| > 0
    case List(items) => |items| > 0
    case Object(fields) => |fields| > 0
  }

  /** The front matter of a content file. */
  type Metadata = map<string, Value>

  /** The metadata every sitemap entry starts from. */
  function DefaultMetadata(filepath: string): Metadata {
    map["filepath" := Str(filepath), "title" := Str(""), "template" := Null,
        "category" := Null, "tags" := List([]), "date" := Null]
  }

  /**
   * The sitemap entry of a content file: the defaults, overridden by the
   * file's own front matter except for "filepath", which always names the
   * file itself.
   */
  function MergeMetadata(filepath: string, parsed: Metadata): (m: Metadata)
    ensures m.Keys == DefaultMetadata(filepath).Keys + parsed.Keys
    ensures m["filepath"] == Str(filepath)
    ensures forall k :: k in parsed && k != "filepath" ==> m[k] == parsed[k]
    ensures forall k :: k in DefaultMetadata(filepath) && k !in parsed ==> m[k] == DefaultMetadata(filepath)[k]
  {
    DefaultMetadata(filepath) + (parsed - {"filepath"})
  }

  /** A "filepath" written in the front matter has no effect on the entry. */
  lemma MergeIgnoresFilepath(filepath: string, parsed: Metadata, rogue: Value)
    ensures MergeMetadata(filepath, parsed["filepath" := rogue]) == MergeMetadata(filepath, parsed)
  {
    assert parsed["filepath" := rogue] - {"filepath"} == parsed - {"filepath"};
  }

  /** Merging an entry with the defaults again changes nothing. */
  lemma MergeIdempotent(filepath: string, parsed: Metadata)
    ensures MergeMetadata(filepath, MergeMetadata(filepath, parsed)) == MergeMetadata(filepath, parsed)
  {
    var m := MergeMetadata(filepath, parsed);
    var m2 := MergeMetadata(filepath, m);
    assert m2.Keys == m.Keys;
    forall k | k in m ensures m2[k] == m[k] {
    }
  }

  // ---------------------------------------------------------------------------
  // _find_files

  /** The suffix `_find_files` adds to its glob pattern: the extra suffix when it starts with '.', else none. */
  function GlobSuffix(extraSuffix: string): string {
    if |extraSuffix| > 0 && extraSuffix[0] == '.' then extraSuffix else ""
  }

  /**
   * An entry `_find_files` keeps: a readable regular file with a handler's
   * suffix among its suffixes whose name, when the extra suffix starts with
   * '.', ends in it.
   */
  predicate SourceSelected(e: Entry, handlers: set<string>, extraSuffix: string) {
    IsReadable(e) && HasValidSuffix(e, handlers) &&
    (|extraSuffix| > 0 && extraSuffix[0] == '.' ==> EndsWith(Name(e.path), extraSuffix))
  }

  /** The resolved paths of the files `_find_files` returns. */
  function FindSourceFiles(listing: seq<Entry>, handlers: set<string>, extraSuffix: string): (r: seq<Path>)
    ensures |r| <= |listing|
    ensures forall i :: 0 <= i < |listing| && SourceSelected(listing[i], handlers, extraSuffix) ==>
      listing[i].resolved in r
  {
    FindFiles(listing, handlers, GlobSuffix(extraSuffix))
  }

  /**
   * `_find_files` returns the kept entries and nothing else, in glob order:
   * a strictly increasing choice of positions picks exactly the entries
   * `SourceSelected` keeps, and the result lists their resolved paths in
   * that order.
   */
  lemma FindSourceFilesInOrder(listing: seq<Entry>, handlers: set<string>, extraSuffix: string)
    returns (idx: seq<int>)
    ensures Increasing(idx, |listing|)
    ensures |idx| == |FindSourceFiles(listing, handlers, extraSuffix)|
    ensures forall k :: 0 <= k < |idx| ==>
      SourceSelected(listing[idx[k]], handlers, extraSuffix) &&
      FindSourceFiles(listing, handlers, extraSuffix)[k] == listing[idx[k]].resolved
    ensures forall i :: 0 <= i < |listing| && SourceSelected(listing[i], handlers, extraSuffix) ==> i in idx
  {
    idx := FindFilesInOrder(listing, handlers, GlobSuffix(extraSuffix));
  }

  /** Every file found with an extra suffix that starts with '.' has a name ending in it. */
  lemma FoundNamesEndInSuffix(listing: seq<Entry>, handlers: set<string>, extraSuffix: string, p: Path)
    requires |extraSuffix| > 0 && extraSuffix[0] == '.'
    requires p in FindSourceFiles(listing, handlers, extraSuffix)
    ensures exists i :: 0 <= i < |listing| && listing[i].resolved == p && EndsWith(Name(listing[i].path), extraSuffix)
  {
    var idx := FindSourceFilesInOrder(listing, handlers, extraSuffix);
    var r := FindSourceFiles(listing, handlers, extraSuffix);
    var k :| 0 <= k < |r| && r[k] == p;
    assert SourceSelected(listing[idx[k]], handlers, extraSuffix);
  }

  // ---------------------------------------------------------------------------
  // Where a content page is written.

  /**
   * The destination of a content file, as `__build_content` computes it: the
   * content folder's name is replaced by the build folder's wherever it
   * occurs, then EVERY ".md" is deleted, then a data extension at the end is
   * dropped, then ".html" is appended.
   */
  function DestinationAsWritten(source: string, contentPath: string, buildPath: string, handlers: set<string>): (r: string)
    ensures EndsWith(r, ".html")
  {
    var replaced := Replace(source, contentPath, buildPath);
    var stripped := Replace(replaced, ".md", "");
    var base := if EndsWithAny(stripped, handlers) then SplitExt(stripped).0 else stripped;
    base + ".html"
  }

  /** The same with only the final ".md" removed, as the code's own comment intends. */
  function Destination(source: string, contentPath: string, buildPath: string, handlers: set<string>): (r: string)
    ensures EndsWith(r, ".html")
  {
    var replaced := Replace(source, contentPath, buildPath);
    var stripped := if EndsWith(replaced, ".md") then replaced[..|replaced| - 3] else replaced;
    var base := if EndsWithAny(stripped, handlers) then SplitExt(stripped).0 else stripped;
    base + ".html"
  }

  /** A path naming the content folder once gets the build folder in its place. */
  lemma ContentFolderSwapped(prefix: string, contentPath: string, buildPath: string, rel: string)
    requires |contentPath| > 0
    requires forall i :: OccursAt(prefix + contentPath + ("/" + rel + ".md"), contentPath, i) ==> i == |prefix|
    ensures Replace(prefix + contentPath + "/" + rel + ".md", contentPath, buildPath)
      == prefix + buildPath + "/" + rel + ".md"
  {
    var tail := "/" + rel + ".md";
    assert prefix + contentPath + "/" + rel + ".md" == prefix + contentPath + tail;
    ReplaceUnique(prefix, contentPath, tail, buildPath);
    assert prefix + buildPath + tail == prefix + buildPath + "/" + rel + ".md";
  }

  /**
   * A page `rel.md` in the content folder, whose path names the content
   * folder only once, is written to `rel.html` at the same place in the
   * build folder.
   */
  lemma DestinationOfPage(prefix: string, contentPath: string, buildPath: string, rel: string, handlers: set<string>)
    requires |contentPath| > 0
    requires forall i :: OccursAt(prefix + contentPath + ("/" + rel + ".md"), contentPath, i) ==> i == |prefix|
    requires !EndsWithAny(prefix + buildPath + "/" + rel, handlers)
    ensures Destination(prefix + contentPath + "/" + rel + ".md", contentPath, buildPath, handlers)
      == prefix + buildPath + "/" + rel + ".html"
  {
    ContentFolderSwapped(prefix, contentPath, buildPath, rel);
    var replaced := prefix + buildPath + "/" + rel + ".md";
    assert EndsWith(replaced, ".md");
    assert replaced[..|replaced| - 3] == prefix + buildPath + "/" + rel;
  }

  /**
   * A page holding data, `dir/name.json.md`, loses both extensions:
   * it is written to `dir/name.html`.
   */
  lemma DestinationOfDataPage(prefix: string, contentPath: string, buildPath: string,
                              dir: string, name: string, ext: string, handlers: set<string>)
    requires |contentPath| > 0
    requires dir == "" || dir[|dir| - 1] == '/'
    requires '/' !in name && exists k :: 0 <= k < |name| && name[k] != '.'
    requires |ext| > 0 && '.' !in ext && '/' !in ext && "." + ext in handlers
    requires forall i :: OccursAt(prefix + contentPath + ("/" + (dir + name + "." + ext) + ".md"), contentPath, i) ==> i == |prefix|
    ensures Destination(prefix + contentPath + "/" + (dir + name + "." + ext) + ".md", contentPath, buildPath, handlers)
      == prefix + buildPath + "/" + dir + name + ".html"
  {
    var rel := dir + name + "." + ext;
    ContentFolderSwapped(prefix, contentPath, buildPath, rel);
    var replaced := prefix + buildPath + "/" + rel + ".md";
    var folder := prefix + buildPath + "/" + dir;
    assert replaced[..|replaced| - 3] == folder + name + "." + ext;
    assert EndsWith(folder + name + "." + ext, "." + ext);
    assert folder[|folder| - 1] == '/';
    SplitExtOfName(folder, name, ext);
  }

  /** `os.path.splitext` of `folder/name.ext` drops just ".ext". */
  lemma SplitExtOfName(folder: string, name: string, ext: string)
    requires |folder| > 0 && folder[|folder| - 1] == '/'
    requires '/' !in name && exists k :: 0 <= k < |name| && name[k] != '.'
    requires |ext| > 0 && '.' !in ext && '/' !in ext
    ensures SplitExt(folder + name + "." + ext) == (folder + name, "." + ext)
  {
    var root := folder + name;
    var slash := |folder| - 1;
    assert root[slash] == '/';
    forall j | slash < j < |root| ensures root[j] != '/' {
      assert root[j] == name[j - slash - 1];
    }
    LastIndexOf(root, '/', slash);
    var k :| 0 <= k < |name| && name[k] != '.';
    assert root[slash + 1 + k] == name[k];
    SplitExtProper(root, ext);
  }

  /** Where ".md" occurs only at the very end, the code as written agrees with the intended destination. */
  lemma DestinationAgrees(source: string, contentPath: string, buildPath: string, handlers: set<string>)
    requires var replaced := Replace(source, contentPath, buildPath);
      EndsWith(replaced, ".md") && forall i :: 0 <= i < |replaced| - 3 ==> !OccursAt(replaced, ".md", i)
    ensures DestinationAsWritten(source, contentPath, buildPath, handlers) == Destination(source, contentPath, buildPath, handlers)
  {
    var replaced := Replace(source, contentPath, buildPath);
    var x := replaced[..|replaced| - 3];
    assert x + ".md" == replaced;
    TrailingDeleted(x, ".md");
  }

  // Each step of the computations in the examples below is a lemma of its
  // own: a proof with several literal strings in scope is costly.

  lemma ContentFolderReplaced()
    ensures Replace("/m.md/c/a.md", "c", "b") == "/m.md/b/a.md"
  {
    ReplaceOnce("/m.md/", "c", "/a.md", "b");
    assert "/m.md/" + ("c" + "/a.md") == "/m.md/c/a.md";
    assert "/m.md/" + ("b" + "/a.md") == "/m.md/b/a.md";
  }

  lemma EveryMdDeleted()
    ensures Replace("/m.md/b/a.md", ".md", "") == "/m/b/a"
  {
    ReplaceTwice("/m", ".md", "/b/a", "", "");
    assert "/m" + (".md" + ("/b/a" + (".md" + ""))) == "/m.md/b/a.md";
    assert "/m" + ("" + ("/b/a" + ("" + ""))) == "/m/b/a";
  }

  /**
   * A project kept under a folder whose name has ".md" in it: the code as
   * written deletes that ".md" too and writes the page outside the build folder.
   */
  lemma DestinationAsWrittenLosesFolderMd()
    ensures DestinationAsWritten("/m.md/c/a.md", "c", "b", {}) == "/m/b/a.html"
  {
    ContentFolderReplaced();
    EveryMdDeleted();
    assert !EndsWithAny("/m/b/a", {});
  }

  /** The intended destination of the same page stays inside the build folder. */
  lemma DestinationKeepsFolderMd()
    ensures Destination("/m.md/c/a.md", "c", "b", {}) == "/m.md/b/a.html"
  {
    ContentFolderReplaced();
    var replaced := "/m.md/b/a.md";
    assert EndsWith(replaced, ".md") && replaced[..|replaced| - 3] == "/m.md/b/a";
  }

  // ---------------------------------------------------------------------------
  // The default template.

  /** The default template: "index.html" at the root of the templates folder. */
  function DefaultTemplate(templatesPath: string): string {
    templatesPath + "/index.html"
  }

  /**
   * The check `__load_templates` makes: delete the templates folder's name
   * wherever it occurs, then every '/' and '\', and compare with "index.html".
   */
  predicate IsDefaultTemplateAsWritten(template: string, templatesPath: string) {
    Replace(Replace(Replace(template, templatesPath, ""), "/", ""), "\\", "") == "index.html"
  }

  /** The intended check: the file is the default template. */
  predicate IsDefaultTemplate(template: string, templatesPath: string) {
    template == DefaultTemplate(templatesPath)
  }

  // The deletions the check makes on the paths of the examples below.

  lemma SlashDeletedFromIndex()
    ensures Replace("/index.html", "/", "") == "index.html"
  {
    ReplaceOnce("", "/", "index.html", "");
    assert "" + ("/" + "index.html") == "/index.html";
    assert "" + ("" + "index.html") == "index.html";
  }

  lemma SlashesDeletedFromInDex()
    ensures Replace("/in/dex.html", "/", "") == "index.html"
  {
    ReplaceTwice("", "/", "in", "dex.html", "");
    assert "" + ("/" + ("in" + ("/" + "dex.html"))) == "/in/dex.html";
    assert "" + ("" + ("in" + ("" + "dex.html"))) == "index.html";
  }

  lemma SlashDeletedFromNdex()
    ensures Replace("/ndex.html", "/", "") == "ndex.html"
  {
    ReplaceOnce("", "/", "ndex.html", "");
    assert "" + ("/" + "ndex.html") == "/ndex.html";
    assert "" + ("" + "ndex.html") == "ndex.html";
  }

  lemma NoBackslashInIndex()
    ensures Replace("index.html", "\\", "") == "index.html"
  {
    ReplaceNone("index.html", "\\", "");
  }

  lemma NoBackslashInNdex()
    ensures Replace("ndex.html", "\\", "") == "ndex.html"
  {
    ReplaceNone("ndex.html", "\\", "");
  }

  lemma LetterIDeleted()
    ensures Replace("i/index.html", "i", "") == "/ndex.html"
  {
    ReplaceTwice("", "i", "/", "ndex.html", "");
    assert "" + ("i" + ("/" + ("i" + "ndex.html"))) == "i/index.html";
    assert "" + ("" + ("/" + ("" + "ndex.html"))) == "/ndex.html";
  }

  lemma LetterADeleted()
    ensures Replace("a/in/dex.html", "a", "") == "/in/dex.html"
  {
    ReplaceOnce("", "a", "/in/dex.html", "");
    assert "" + ("a" + "/in/dex.html") == "a/in/dex.html";
    assert "" + ("" + "/in/dex.html") == "/in/dex.html";
  }

  /** The check as written accepts the default template whenever the folder's name occurs in its path only once. */
  lemma DefaultTemplateAccepted(templatesPath: string)
    requires |templatesPath| > 0
    requires forall i :: OccursAt(templatesPath + "/index.html", templatesPath, i) ==> i == 0
    ensures IsDefaultTemplateAsWritten(DefaultTemplate(templatesPath), templatesPath)
  {
    assert [] + templatesPath + "/index.html" == DefaultTemplate(templatesPath);
    ReplaceUnique([], templatesPath, "/index.html", "");
    assert [] + "" + "/index.html" == "/index.html";
    SlashDeletedFromIndex();
    NoBackslashInIndex();
  }

  /** A templates folder named "i": the deletion also eats into "index.html", and the default is missed. */
  lemma DefaultTemplateMissed()
    ensures IsDefaultTemplate("i/index.html", "i")
    ensures !IsDefaultTemplateAsWritten("i/index.html", "i")
  {
    LetterIDeleted();
    SlashDeletedFromNdex();
    NoBackslashInNdex();
  }

  /** A template in a sub-folder whose deleted slashes spell "index.html" is taken for the default. */
  lemma NestedTemplateTaken()
    ensures !IsDefaultTemplate("a/in/dex.html", "a")
    ensures IsDefaultTemplateAsWritten("a/in/dex.html", "a")
  {
    LetterADeleted();
    SlashesDeletedFromInDex();
    NoBackslashInIndex();
  }

  // ---------------------------------------------------------------------------
  // What the project's folders hold.

  /** What a data file's handler makes of it: a value, or the message of the exception it raised. */
  datatype DataOutcome = Parsed(value: Value) | Unparsable(message: string)

  /** A content file's front matter, and whether it was parsed by an allowed handler. */
  datatype FrontMatter = FrontMatter(handlerAllowed: bool, metadata: Metadata)

  /**
   * The file system as the generator sees it: what the globs of the data and
   * content folders yield and what their folders resolve to, the template
   * files, what the parsers make of each file, which paths exist, and how
   * a front-matter value is written into a string.
   */
  datatype Files = Files(
    dataListing: seq<Entry>,
    dataRoot: Path,
    contentListing: seq<Entry>,
    contentRoot: Path,
    templateFiles: seq<string>,
    parseData: Path -> DataOutcome,
    frontMatter: string -> FrontMatter,
    existing: set<string>,
    display: Value -> string)

  /** The data files `__load_data` reads. */
  function DataFiles(files: Files, handlers: set<string>): seq<Path> {
    FindSourceFiles(files.dataListing, handlers, "")
  }

  /** The content files `__load_sitemap` reads. */
  function ContentFiles(files: Files, handlers: set<string>): seq<Path> {
    FindSourceFiles(files.contentListing, handlers, ".md")
  }

  /**
   * The value `__parse_data_from_filepath` returns for a data file, and the
   * messages it logs: None with a message when the file's last suffix has no
   * handler or its content does not parse.
   */
  function ParseData(files: Files, handlers: set<string>, filepath: Path): (r: (Value, seq<string>))
    ensures |r.1| <= 1
    ensures r.1 == [] <==> Suffix(Name(filepath)) in handlers && files.parseData(filepath).Parsed?
    ensures r.1 == [] ==> r.0 == files.parseData(filepath).value
    ensures r.1 != [] ==> r.0 == Null
  {
    var suffix := Suffix(Name(filepath));
    if suffix !in handlers then
      (Null, ["Unknown suffix " + suffix + " for " + AbsString(filepath) + "."])
    else
      match files.parseData(filepath)
      case Parsed(v) => (v, [])
      case Unparsable(message) => (Null, [AbsString(filepath) + " does not contain valid data: " + message])
  }

  /** The insertion `__update_data_from_filepath` makes for one data file. */
  function DataItem(files: Files, handlers: set<string>, filepath: Path): Item<Value>
    requires files.dataRoot <= filepath
  {
    var parsed := ParseData(files, handlers, filepath);
    Item(NestedKeysFromFilepath(filepath, files.dataRoot, handlers).value, parsed.0, parsed.1)
  }

  /** The insertion `__update_sitemap_from_filepath` makes for one content file. */
  function SitemapItem(files: Files, handlers: set<string>, filepath: Path): Item<Metadata>
    requires files.contentRoot <= filepath
  {
    var source := AbsString(filepath);
    Item(NestedKeysFromFilepath(filepath, files.contentRoot, handlers).value,
         MergeMetadata(source, files.frontMatter(source).metadata), [])
  }

  ghost predicate UnderRoot(found: seq<Path>, root: Path) {
    forall i :: 0 <= i < |found| ==> root <= found[i]
  }

  /** The insertions for the data files `found`, in order. */
  function DataItemsOf(files: Files, handlers: set<string>, found: seq<Path>): (items: seq<Item<Value>>)
    requires UnderRoot(found, files.dataRoot)
    ensures |items| == |found|
  {
    seq(|found|, i requires 0 <= i < |found| => DataItem(files, handlers, found[i]))
  }

  /** The insertions for the content files `found`, in order. */
  function SitemapItemsOf(files: Files, handlers: set<string>, found: seq<Path>): (items: seq<Item<Metadata>>)
    requires UnderRoot(found, files.contentRoot)
    ensures |items| == |found|
  {
    seq(|found|, i requires 0 <= i < |found| => SitemapItem(files, handlers, found[i]))
  }

  function DataItems(files: Files, handlers: set<string>): (items: seq<Item<Value>>)
    requires UnderRoot(DataFiles(files, handlers), files.dataRoot)
  {
    DataItemsOf(files, handlers, DataFiles(files, handlers))
  }

  function SitemapItems(files: Files, handlers: set<string>): (items: seq<Item<Metadata>>)
    requires UnderRoot(ContentFiles(files, handlers), files.contentRoot)
  {
    SitemapItemsOf(files, handlers, ContentFiles(files, handlers))
  }

  /** What loading leaves in the data, the sitemap, the flat sitemap and the log. */
  datatype Content = Content(data: Tree<Value>, sitemap: Tree<Metadata>, sitemapFlat: seq<string>, errors: seq<string>)

  /**
   * The content `__load_data` then `__load_sitemap` produce from `files`,
   * starting from an empty log.
   */
  ghost function LoadedContent(files: Files, handlers: set<string>): Content
    requires Loadable(files, handlers)
  {
    var dataLoad := InsertAll(DataItems(files, handlers));
    var sitemapLoad := InsertAll(SitemapItems(files, handlers));
    Content(dataLoad.tree, sitemapLoad.tree, FlatSitemap(ContentFiles(files, handlers)), dataLoad.errors + sitemapLoad.errors)
  }

  /** The paths `sitemap_flat` lists: every content file, as a string. */
  function FlatSitemap(found: seq<Path>): (flat: seq<string>)
    ensures |flat| == |found|
    ensures forall i :: 0 <= i < |found| ==> flat[i] == AbsString(found[i])
  {
    seq(|found|, i requires 0 <= i < |found| => AbsString(found[i]))
  }

  /** Listing one more file extends the flat sitemap by that file. */
  lemma FlatSitemapGrows(found: seq<Path>, i: nat)
    requires i < |found|
    ensures FlatSitemap(found)[..i + 1] == FlatSitemap(found)[..i] + [AbsString(found[i])]
  {
    var flat := FlatSitemap(found);
    assert forall k :: 0 <= k <= i ==> flat[..i + 1][k] == (flat[..i] + [AbsString(found[i])])[k];
  }

  /**
   * What loading needs of the folders so that it does not raise: every file
   * found lies under its folder once resolved, every content file's front
   * matter is read by an allowed handler, and no file's keys lead through
   * another file's value.
   */
  ghost predicate Loadable(files: Files, handlers: set<string>) {
    DataLoadable(files, handlers) && SitemapLoadable(files, handlers)
  }

  ghost predicate DataLoadable(files: Files, handlers: set<string>) {
    UnderRoot(DataFiles(files, handlers), files.dataRoot) &&
    PrefixFree(DataItems(files, handlers))
  }

  ghost predicate SitemapLoadable(files: Files, handlers: set<string>) {
    UnderRoot(ContentFiles(files, handlers), files.contentRoot) &&
    (forall p :: p in ContentFiles(files, handlers) ==> files.frontMatter(AbsString(p)).handlerAllowed) &&
    PrefixFree(SitemapItems(files, handlers))
  }

  // ---------------------------------------------------------------------------
  // What a build does.

  datatype Action =
    | CopyTree(source: string, destination: string)
    | CompileScss(source: string, destination: string, outputStyle: string)
    | WritePage(destination: string, template: string, metadata: Metadata)

  /** The front matter asks for a template of its own. */
  predicate TemplateRequested(metadata: Metadata) {
    "template" in metadata && Truthy(metadata["template"])
  }

  /** The path `f"{templates_path}/{metadata['template']}"`. */
  function WantedTemplate(metadata: Metadata, templatesPath: string, display: Value -> string): string
    requires TemplateRequested(metadata)
  {
    var v := metadata["template"];
    templatesPath + "/" + (if v.Str? then v.s else display(v))
  }

  /** The template a page is rendered with: the one it asks for if that exists, else the default. */
  function ChooseTemplate(metadata: Metadata, default: string, templatesPath: string, files: Files): (r: string)
    ensures !TemplateRequested(metadata) ==> r == default
    ensures TemplateRequested(metadata) && WantedTemplate(metadata, templatesPath, files.display) in files.existing
      ==> r == WantedTemplate(metadata, templatesPath, files.display)
    ensures r != default ==>
      TemplateRequested(metadata) && r == WantedTemplate(metadata, templatesPath, files.display) && r in files.existing
  {
    if TemplateRequested(metadata) && WantedTemplate(metadata, templatesPath, files.display) in files.existing
    then WantedTemplate(metadata, templatesPath, files.display)
    else default
  }

  /** The folder names and options of a configuration that a build reads. */
  datatype Layout = Layout(
    buildPath: string, contentPath: string, dataPath: string, templatesPath: string,
    jsPath: string, assetsPath: string, scssPath: string, cssPath: string,
    scssActive: bool, scssOutputStyle: string, dataInBuild: bool)

  /** The page, if any, that `__build_content` writes for one content file; none when its front matter is empty. */
  function PageFor(files: Files, layout: Layout, handlers: set<string>, default: string, source: string): seq<Action> {
    var metadata := files.frontMatter(source).metadata;
    if |metadata| == 0 then []
    else [WritePage(Destination(source, layout.contentPath, layout.buildPath, handlers),
                    ChooseTemplate(metadata, default, layout.templatesPath, files), metadata)]
  }

  /** The pages written for the content files, in order. */
  function Pages(files: Files, layout: Layout, handlers: set<string>, default: string, sources: seq<string>): seq<Action>
    decreases |sources|
  {
    if |sources| == 0 then []
    else
      var n := |sources| - 1;
      Pages(files, layout, handlers, default, sources[..n]) + PageFor(files, layout, handlers, default, sources[n])
  }

  /** The number of content files with empty front matter. */
  function Skipped(files: Files, sources: seq<string>): nat
    decreases |sources|
  {
    if |sources| == 0 then 0
    else
      var n := |sources| - 1;
      Skipped(files, sources[..n]) + (if |files.frontMatter(sources[n]).metadata| == 0 then 1 else 0)
  }

  /**
   * Every content file is either written or skipped; every page goes to an
   * ".html" file and is rendered with the template its front matter asks
   * for when that exists, and with the default otherwise.
   */
  lemma {:induction false} PagesAccounted(files: Files, layout: Layout, handlers: set<string>, default: string, sources: seq<string>)
    ensures |Pages(files, layout, handlers, default, sources)| + Skipped(files, sources) == |sources|
    ensures forall a :: a in Pages(files, layout, handlers, default, sources) ==>
      a.WritePage? && EndsWith(a.destination, ".html") &&
      (a.template == default || (TemplateRequested(a.metadata) && a.template in files.existing)) &&
      a.template == ChooseTemplate(a.metadata, default, layout.templatesPath, files)
    decreases |sources|
  {
    if |sources| > 0 {
      PagesAccounted(files, layout, handlers, default, sources[..|sources| - 1]);
    }
  }

  /** The actions of `build`, in order: assets, JavaScript, stylesheets, the pages, then the data folder if asked for. */
  function BuildPlan(layout: Layout, pages: seq<Action>): seq<Action> {
    [CopyTree(layout.assetsPath, layout.buildPath + "/assets"),
     CopyTree(layout.jsPath, layout.buildPath + "/js")]
    + (if layout.scssActive then [CompileScss(layout.scssPath, layout.buildPath + "/css", layout.scssOutputStyle)]
       else [CopyTree(layout.cssPath, layout.buildPath + "/css")])
    + pages
    + (if layout.dataInBuild then [CopyTree(layout.dataPath, layout.buildPath + "/__data")] else [])
  }

  /**
   * The build copies assets and JavaScript first; the stylesheets are either
   * compiled or copied, never both; then come the pages, in order; the data
   * folder is copied last, exactly when asked for.
   */
  lemma BuildPlanShape(layout: Layout, pages: seq<Action>)
    requires forall a :: a in pages ==> a.WritePage?
    ensures var plan := BuildPlan(layout, pages);
      |plan| == 3 + |pages| + (if layout.dataInBuild then 1 else 0) &&
      plan[0] == CopyTree(layout.assetsPath, layout.buildPath + "/assets") &&
      plan[1] == CopyTree(layout.jsPath, layout.buildPath + "/js") &&
      plan[3..3 + |pages|] == pages &&
      (forall i :: 0 <= i < |plan| ==> (plan[i].CompileScss? <==> i == 2 && layout.scssActive)) &&
      (layout.dataInBuild ==> plan[|plan| - 1] == CopyTree(layout.dataPath, layout.buildPath + "/__data"))
  {
    var plan := BuildPlan(layout, pages);
    forall i | 3 <= i < 3 + |pages| ensures plan[i] == pages[i - 3] && !plan[i].CompileScss? {
      assert pages[i - 3] in pages;
    }
  }

  // ---------------------------------------------------------------------------
  // The generator.

  /** The argument given to the constructor. */
  datatype ConfigChoice = NoConfig | Given(config: SnekConfig) | NotAConfig(typeName: string)

  datatype SnekError =
    | InvalidConfig(message: string)
    | ConfigFailed(error: ConfigError)
    | NoDefaultTemplate

  class Snek {
    const config: SnekConfig
    /** The suffixes with a handler; the configuration object names them. */
    const handlers: set<string>
    /** The template `__load_templates` is meant to recognise, fixed when the object is made. */
    const defaultTemplate: string
    var errors: seq<string>
    var data: Tree<Value>
    var sitemap: Tree<Metadata>
    var sitemapFlat: seq<string>
    var templates: seq<string>
    var templatesDefault: Option<string>
    var pagesBuilt: nat
    var pagesSkipped: nat

    constructor Init(config: SnekConfig, handlers: set<string>)
      ensures this.config == config && this.handlers == handlers
      ensures defaultTemplate == DefaultTemplate(config.templatesPath)
      ensures errors == [] && data == map[] && sitemap == map[] && sitemapFlat == []
      ensures templates == [] && templatesDefault == None && pagesBuilt == 0 && pagesSkipped == 0
    {
      this.config := config;
      this.handlers := handlers;
      defaultTemplate := DefaultTemplate(config.templatesPath);
      errors := [];
      data := map[];
      sitemap := map[];
      sitemapFlat := [];
      templates := [];
      templatesDefault := None;
      pagesBuilt := 0;
      pagesSkipped := 0;
    }

    /** The configuration's folders and options as they are now. */
    function CurrentLayout(): Layout
      reads this, config
    {
      Layout(config.buildPath, config.contentPath, config.dataPath, config.templatesPath,
             config.jsPath, config.assetsPath, config.scssPath, config.cssPath,
             config.scssActive, config.scssOutputStyle, config.dataInBuild)
    }

    /**
     * The front matter of a file, when an allowed handler read it; otherwise
     * None, logging that the file has invalid front matter.
     */
    method ParseFrontmatterFromFilepath(files: Files, filepath: string) returns (metadata: Option<Metadata>)
      modifies this`errors
      ensures files.frontMatter(filepath).handlerAllowed ==>
        metadata == Some(files.frontMatter(filepath).metadata) && errors == old(errors)
      ensures !files.frontMatter(filepath).handlerAllowed ==>
        metadata == None && errors == old(errors) + [filepath + " has invalid frontmatter data."]
    {
      var fm := files.frontMatter(filepath);
      if !fm.handlerAllowed {
        errors := errors + [filepath + " has invalid frontmatter data."];
        return None;
      }
      return Some(fm.metadata);
    }

    /** The value of a data file, logging why there is none. */
    method ParseDataFromFilepath(files: Files, filepath: Path) returns (value: Value)
      modifies this`errors
      ensures value == ParseData(files, handlers, filepath).0
      ensures errors == old(errors) + ParseData(files, handlers, filepath).1
    {
      var suffix := Suffix(Name(filepath));
      if suffix !in handlers {
        errors := errors + ["Unknown suffix " + suffix + " for " + AbsString(filepath) + "."];
        return Null;
      }
      match files.parseData(filepath)
      case Parsed(v) =>
        value := v;
      case Unparsable(message) =>
        errors := errors + [AbsString(filepath) + " does not contain valid data: " + message];
        value := Null;
    }

    /**
     * Store `value` under `keys` in `attr`, creating the missing levels; a
     * taken final key is logged as a conflict and leaves `attr` as it was.
     */
    method UpdateAttrFromNestedKeys<V>(attr: Tree<V>, keys: seq<string>, value: V) returns (updated: Tree<V>)
      requires NoLeafOnPath(attr, keys)
      modifies this`errors
      ensures Loaded(updated, errors) == Step(Loaded(attr, old(errors)), Item(keys, value, []))
      ensures |keys| > 0 && Get(attr, keys).Some? ==>
        updated == attr && errors == old(errors) + [ConflictMessage(keys)]
      ensures !(|keys| > 0 && Get(attr, keys).Some?) ==>
        Put(attr, keys, value) == Stored(updated) && errors == old(errors)
    {
      if |keys| == 0 {
        return attr;
      }
      var r := InsertAt(attr, keys, value);
      match r
      case Conflict =>
        errors := errors + [ConflictMessage(keys)];
        assert old(errors) + [] + [ConflictMessage(keys)] == errors;
        updated := attr;
      case Stored(t) =>
        assert old(errors) + [] == errors;
        updated := t;
    }

    /** Insert one data file's value into `data`. */
    method UpdateDataFromFilepath(files: Files, filepath: Path)
      requires files.dataRoot <= filepath
      requires NoLeafOnPath(data, DataItem(files, handlers, filepath).keys)
      modifies this`data, this`errors
      ensures Loaded(data, errors) == Step(Loaded(old(data), old(errors)), DataItem(files, handlers, filepath))
    {
      var keys := NestedKeysFromFilepath(filepath, files.dataRoot, handlers).value;
      var value := ParseDataFromFilepath(files, filepath);
      data := UpdateAttrFromNestedKeys(data, keys, value);
      StepLogged(old(data), old(errors), DataItem(files, handlers, filepath));
    }

    /** Insert one content file's metadata, merged with the defaults, into `sitemap`. */
    method UpdateSitemapFromFilepath(files: Files, filepath: Path)
      requires files.contentRoot <= filepath
      requires files.frontMatter(AbsString(filepath)).handlerAllowed
      requires NoLeafOnPath(sitemap, SitemapItem(files, handlers, filepath).keys)
      modifies this`sitemap, this`errors
      ensures Loaded(sitemap, errors) == Step(Loaded(old(sitemap), old(errors)), SitemapItem(files, handlers, filepath))
    {
      var keys := NestedKeysFromFilepath(filepath, files.contentRoot, handlers).value;
      var parsed := ParseFrontmatterFromFilepath(files, AbsString(filepath));
      var metadata := MergeMetadata(AbsString(filepath), parsed.value);
      sitemap := UpdateAttrFromNestedKeys(sitemap, keys, metadata);
    }

    /**
     * Read every data file into `data`, from an empty tree; the log gains the
     * files' own messages and a conflict for every repeated key path.
     */
    method LoadData(files: Files)
      requires DataLoadable(files, handlers)
      modifies this`data, this`errors
      ensures data == InsertAll(DataItems(files, handlers)).tree
      ensures errors == old(errors) + InsertAll(DataItems(files, handlers)).errors
    {
      data := map[];
      var found := DataFiles(files, handlers);
      LoadDataFiles(files, found, DataItems(files, handlers), old(errors));
    }

    /** The loop of LoadData over the files found, whose insertions are `items`. */
    method LoadDataFiles(files: Files, found: seq<Path>, ghost items: seq<Item<Value>>, ghost earlier: seq<string>)
      requires UnderRoot(found, files.dataRoot)
      requires |items| == |found| && PrefixFree(items)
      requires forall k :: 0 <= k < |found| ==> items[k] == DataItem(files, handlers, found[k])
      requires data == map[] && errors == earlier
      modifies this`data, this`errors
      ensures data == InsertAll(items).tree
      ensures errors == earlier + InsertAll(items).errors
    {
      ghost var start := Loaded(map[], earlier);
      LoadsEnds(items, earlier);
      var i := 0;
      while i < |found|
        invariant 0 <= i <= |found|
        invariant Loaded(data, errors) == Loads(start, items, i)
      {
        LoadDataFile(files, found[i], items, i, earlier);
        i := i + 1;
      }
    }

    /** One turn of that loop: the insertion of `filepath`, the `i`-th data file. */
    method LoadDataFile(files: Files, filepath: Path, ghost items: seq<Item<Value>>, i: nat, ghost earlier: seq<string>)
      requires files.dataRoot <= filepath
      requires PrefixFree(items) && i < |items| && items[i] == DataItem(files, handlers, filepath)
      requires Loaded(data, errors) == Loads(Loaded(map[], earlier), items, i)
      modifies this`data, this`errors
      ensures Loaded(data, errors) == Loads(Loaded(map[], earlier), items, i + 1)
    {
      LoadsNext(items, i, earlier);
      UpdateDataFromFilepath(files, filepath);
    }

    /**
     * List every content file in `sitemapFlat` and read its metadata into
     * `sitemap`, from empty; the log gains a conflict for every repeated key path.
     */
    method LoadSitemap(files: Files)
      requires SitemapLoadable(files, handlers)
      modifies this`sitemap, this`sitemapFlat, this`errors
      ensures sitemapFlat == FlatSitemap(ContentFiles(files, handlers))
      ensures sitemap == InsertAll(SitemapItems(files, handlers)).tree
      ensures errors == old(errors) + InsertAll(SitemapItems(files, handlers)).errors
    {
      sitemap := map[];
      sitemapFlat := [];
      var found := ContentFiles(files, handlers);
      LoadSitemapFiles(files, found, SitemapItems(files, handlers), old(errors));
    }

    /** The loop of LoadSitemap over the files found, whose insertions are `items`. */
    method LoadSitemapFiles(files: Files, found: seq<Path>, ghost items: seq<Item<Metadata>>, ghost earlier: seq<string>)
      requires UnderRoot(found, files.contentRoot)
      requires forall p :: p in found ==> files.frontMatter(AbsString(p)).handlerAllowed
      requires |items| == |found| && PrefixFree(items)
      requires forall k :: 0 <= k < |found| ==> items[k] == SitemapItem(files, handlers, found[k])
      requires sitemap == map[] && sitemapFlat == [] && errors == earlier
      modifies this`sitemap, this`sitemapFlat, this`errors
      ensures sitemapFlat == FlatSitemap(found)
      ensures sitemap == InsertAll(items).tree
      ensures errors == earlier + InsertAll(items).errors
    {
      LoadsEnds(items, earlier);
      var i := 0;
      while i < |found|
        invariant 0 <= i <= |found|
        invariant sitemapFlat == FlatSitemap(found)[..i]
        invariant Loaded(sitemap, errors) == Loads(Loaded(map[], earlier), items, i)
      {
        assert found[i] in found;
        LoadSitemapFile(files, found, items, i, earlier);
        i := i + 1;
      }
      assert FlatSitemap(found)[..|found|] == FlatSitemap(found);
    }

    /** One turn of that loop: list the `i`-th content file and insert its metadata. */
    method LoadSitemapFile(files: Files, found: seq<Path>, ghost items: seq<Item<Metadata>>, i: nat, ghost earlier: seq<string>)
      requires i < |found| && files.contentRoot <= found[i]
      requires files.frontMatter(AbsString(found[i])).handlerAllowed
      requires PrefixFree(items) && i < |items| && items[i] == SitemapItem(files, handlers, found[i])
      requires sitemapFlat == FlatSitemap(found)[..i]
      requires Loaded(sitemap, errors) == Loads(Loaded(map[], earlier), items, i)
      modifies this`sitemap, this`sitemapFlat, this`errors
      ensures sitemapFlat == FlatSitemap(found)[..i + 1]
      ensures Loaded(sitemap, errors) == Loads(Loaded(map[], earlier), items, i + 1)
    {
      FlatSitemapGrows(found, i);
      sitemapFlat := sitemapFlat + [AbsString(found[i])];
      LoadsNext(items, i, earlier);
      UpdateSitemapFromFilepath(files, found[i]);
    }

    /**
     * List the template files and remember the default one; false, where the
     * constructor raises NoDefaultTemplate, when there is none.
     */
    method LoadTemplates(files: Files) returns (found: bool)
      modifies this`templates, this`templatesDefault
      ensures templates == files.templateFiles
      ensures found <==> defaultTemplate in files.templateFiles
      ensures found ==> templatesDefault == Some(defaultTemplate)
      ensures !found ==> templatesDefault == old(templatesDefault)
    {
      templates := files.templateFiles;
      found := false;
      var i := 0;
      while i < |templates|
        invariant 0 <= i <= |templates|
        invariant templates == files.templateFiles
        invariant found <==> defaultTemplate in templates[..i]
        invariant found ==> templatesDefault == Some(defaultTemplate)
        invariant !found ==> templatesDefault == old(templatesDefault)
      {
        if templates[i] == defaultTemplate {
          found := true;
          templatesDefault := Some(templates[i]);
        }
        assert templates[..i + 1] == templates[..i] + [templates[i]];
        i := i + 1;
      }
      assert templates[..i] == templates;
    }

    /**
     * Write a page for every content file whose front matter is not empty,
     * counting it as built; count the others as skipped.
     */
    method BuildContent(files: Files) returns (pages: seq<Action>)
      requires templatesDefault.Some?
      requires forall source :: source in sitemapFlat ==> files.frontMatter(source).handlerAllowed
      modifies this`pagesBuilt, this`pagesSkipped, this`errors
      ensures pages == Pages(files, CurrentLayout(), handlers, templatesDefault.value, sitemapFlat)
      ensures pagesBuilt == old(pagesBuilt) + |pages|
      ensures pagesSkipped == old(pagesSkipped) + Skipped(files, sitemapFlat)
      ensures errors == old(errors)
    {
      pages := [];
      var i := 0;
      while i < |sitemapFlat|
        invariant 0 <= i <= |sitemapFlat|
        invariant pages == Pages(files, CurrentLayout(), handlers, templatesDefault.value, sitemapFlat[..i])
        invariant pagesBuilt == old(pagesBuilt) + |pages|
        invariant pagesSkipped == old(pagesSkipped) + Skipped(files, sitemapFlat[..i])
        invariant errors == old(errors)
      {
        var source := sitemapFlat[i];
        assert source in sitemapFlat;
        assert sitemapFlat[..i + 1][..i] == sitemapFlat[..i];
        var page := ParseFrontmatterFromFilepath(files, source);
        if |page.value| == 0 {
          pagesSkipped := pagesSkipped + 1;
        } else {
          var destination := Destination(source, config.contentPath, config.buildPath, handlers);
          var template := ChooseTemplate(page.value, templatesDefault.value, config.templatesPath, files);
          pages := pages + [WritePage(destination, template, page.value)];
          pagesBuilt := pagesBuilt + 1;
        }
        i := i + 1;
      }
      assert sitemapFlat[..i] == sitemapFlat;
    }

    /**
     * Build the site: reset the counters, then copy the assets and the
     * JavaScript, compile or copy the stylesheets, write the pages, and copy
     * the data folder if asked to.
     */
    method Build(files: Files) returns (actions: seq<Action>)
      requires templatesDefault.Some?
      requires forall source :: source in sitemapFlat ==> files.frontMatter(source).handlerAllowed
      modifies this`pagesBuilt, this`pagesSkipped, this`errors
      ensures actions == BuildPlan(CurrentLayout(), Pages(files, CurrentLayout(), handlers, templatesDefault.value, sitemapFlat))
      ensures pagesBuilt == |Pages(files, CurrentLayout(), handlers, templatesDefault.value, sitemapFlat)|
      ensures pagesBuilt + pagesSkipped == |sitemapFlat|
      ensures errors == old(errors)
    {
      pagesBuilt := 0;
      pagesSkipped := 0;
      actions := [CopyTree(config.assetsPath, config.buildPath + "/assets"),
                  CopyTree(config.jsPath, config.buildPath + "/js")];
      if config.scssActive {
        actions := actions + [CompileScss(config.scssPath, config.buildPath + "/css", config.scssOutputStyle)];
      } else {
        actions := actions + [CopyTree(config.cssPath, config.buildPath + "/css")];
      }
      var pages := BuildContent(files);
      actions := actions + pages;
      if config.dataInBuild {
        actions := actions + [CopyTree(config.dataPath, config.buildPath + "/__data")];
      }
      PagesAccounted(files, CurrentLayout(), handlers, templatesDefault.value, sitemapFlat);
    }

    /** The fields loading fills. */
    ghost function CurrentContent(): Content
      reads this`data, this`sitemap, this`sitemapFlat, this`errors
    {
      Content(data, sitemap, sitemapFlat, errors)
    }

    /** The state construction leaves: everything loaded from `files`, nothing built yet. */
    ghost predicate LoadedFrom(files: Files, handlers: set<string>)
      requires Loadable(files, handlers)
      reads this, config
    {
      this.handlers == handlers &&
      config.isValid &&
      CurrentContent() == LoadedContent(files, handlers) &&
      templates == files.templateFiles &&
      templatesDefault == Some(defaultTemplate) &&
      pagesBuilt == 0 && pagesSkipped == 0
    }

    /** The data, then the sitemap, loaded into an object that has logged nothing yet. */
    method LoadContent(files: Files)
      requires Loadable(files, handlers) && errors == []
      modifies this`data, this`sitemap, this`sitemapFlat, this`errors
      ensures CurrentContent() == LoadedContent(files, handlers)
    {
      LoadData(files);
      ghost var dataLog := InsertAll(DataItems(files, handlers)).errors;
      assert errors == dataLog by {
        assert errors == [] + dataLog;
      }
      LoadSitemap(files);
    }

    /**
     * The loading steps of the constructor, in their order: data, sitemap,
     * templates; `found` tells whether the default template was among them.
     */
    method Load(files: Files) returns (found: bool)
      requires config.isValid && Loadable(files, handlers)
      requires errors == [] && templatesDefault == None && pagesBuilt == 0 && pagesSkipped == 0
      modifies this`data, this`sitemap, this`sitemapFlat, this`errors, this`templates, this`templatesDefault
      ensures found <==> defaultTemplate in files.templateFiles
      ensures found ==> LoadedFrom(files, handlers)
    {
      LoadContent(files);
      assert pagesBuilt == 0 && pagesSkipped == 0;
      found := LoadTemplates(files);
    }

    /**
     * `Snek(config)`: check the configuration (a default one when none is
     * given), then load the data, the sitemap and the templates; a missing
     * default template raises NoDefaultTemplate.
     */
    static method Create(choice: ConfigChoice, files: Files, handlers: set<string>, dirs: set<string>)
      returns (r: Result<Snek, SnekError>)
      requires Loadable(files, handlers)
      ensures choice.NotAConfig? ==>
        r == Err(InvalidConfig("<class '" + choice.typeName + "'> provided, SnekConfig expected."))
      ensures choice.Given? && !choice.config.isValid ==>
        r == Err(InvalidConfig("The provided configuration object is not valid."))
      ensures choice.NoConfig? && Validate(DefaultArgs, dirs).Some? ==>
        r == Err(ConfigFailed(Validate(DefaultArgs, dirs).value))
      ensures choice.Given? && choice.config.isValid ==>
        (r.Ok? <==> DefaultTemplate(choice.config.templatesPath) in files.templateFiles)
      ensures choice.NoConfig? && Validate(DefaultArgs, dirs).None? ==>
        (r.Ok? <==> DefaultTemplate("templates") in files.templateFiles)
      ensures r.Ok? ==> fresh(r.value) && r.value.LoadedFrom(files, handlers)
      ensures r.Ok? && choice.Given? ==> r.value.config == choice.config
      ensures r.Ok? ==> r.value.templatesDefault.Some?
      ensures r.Ok? ==> forall source :: source in r.value.sitemapFlat ==> files.frontMatter(source).handlerAllowed
    {
      var selected := SelectConfig(choice, dirs);
      if selected.Err? {
        return Err(selected.error);
      }
      r := LoadFrom(selected.value, files, handlers);
    }

    /**
     * The configuration the constructor goes on with: the one given, or a
     * default one when none is; an error when the argument is not a
     * configuration object, when the default one cannot be made, or when the
     * configuration is not valid.
     */
    static method SelectConfig(choice: ConfigChoice, dirs: set<string>) returns (r: Result<SnekConfig, SnekError>)
      ensures choice.NotAConfig? ==>
        r == Err(InvalidConfig("<class '" + choice.typeName + "'> provided, SnekConfig expected."))
      ensures choice.Given? && choice.config.isValid ==> r == Ok(choice.config)
      ensures choice.Given? && !choice.config.isValid ==>
        r == Err(InvalidConfig("The provided configuration object is not valid."))
      ensures choice.NoConfig? && Validate(DefaultArgs, dirs).Some? ==>
        r == Err(ConfigFailed(Validate(DefaultArgs, dirs).value))
      ensures choice.NoConfig? && Validate(DefaultArgs, dirs).None? ==>
        r.Ok? && fresh(r.value) && r.value.templatesPath == "templates"
      ensures r.Ok? ==> r.value.isValid
    {
      var config: SnekConfig;
      match choice {
        case NotAConfig(typeName) =>
          return Err(InvalidConfig("<class '" + typeName + "'> provided, SnekConfig expected."));
        case NoConfig =>
          var made := SnekConfig.Create(DefaultArgs, dirs);
          if made.Err? {
            return Err(ConfigFailed(made.error));
          }
          config := made.value;
          DefaultTemplatesFolder(config);
        case Given(c) =>
          config := c;
      }
      if !config.isValid {
        return Err(InvalidConfig("The provided configuration object is not valid."));
      }
      return Ok(config);
    }

    /**
     * Load the data, the sitemap and the templates with a valid
     * configuration; NoDefaultTemplate when the templates folder has no
     * default template.
     */
    static method LoadFrom(config: SnekConfig, files: Files, handlers: set<string>) returns (r: Result<Snek, SnekError>)
      requires config.isValid && Loadable(files, handlers)
      ensures r.Ok? <==> DefaultTemplate(config.templatesPath) in files.templateFiles
      ensures r.Err? ==> r.error == NoDefaultTemplate
      ensures r.Ok? ==> fresh(r.value) && r.value.config == config && r.value.LoadedFrom(files, handlers)
      ensures r.Ok? ==> r.value.defaultTemplate == DefaultTemplate(config.templatesPath)
      ensures r.Ok? ==> forall source :: source in r.value.sitemapFlat ==> files.frontMatter(source).handlerAllowed
    {
      var s := new Snek.Init(config, handlers);
      var found := s.Load(files);
      if !found {
        return Err(NoDefaultTemplate);
      }
      FlatSitemapAllowed(files, handlers);
      return Ok(s);
    }
  }

  /** Every listed content file was read by an allowed handler. */
  lemma FlatSitemapAllowed(files: Files, handlers: set<string>)
    requires Loadable(files, handlers)
    ensures forall source :: source in FlatSitemap(ContentFiles(files, handlers)) ==> files.frontMatter(source).handlerAllowed
  {
    var found := ContentFiles(files, handlers);
    forall source | source in FlatSitemap(found) ensures files.frontMatter(source).handlerAllowed {
      var i :| 0 <= i < |found| && FlatSitemap(found)[i] == source;
      assert found[i] in found;
    }
  }
}
