/**
 * The file list of a repository card: the directory listing from the
 * contents endpoint with hidden entries dropped and capped at twelve, a
 * placeholder listing chosen from keywords when the request fails, the
 * one hour cache of whichever list was shown, and the per-file icon and
 * type label.
 */
module FileStructure {
  import opened Options
  import opened Text
  import opened Seqs
  import opened Dict
  import opened Github
  import opened Cache
  import opened Fallback

  /** One entry of the contents listing, as the API returns it. */
  datatype ContentItem = ContentItem(name: string, kind: string, sha: string, size: nat)

  /**
   * One displayed file: the four projected fields for a listing entry; the
   * placeholder entries carry only a name and a type.
   */
  datatype FileItem = FileItem(name: string, kind: string, sha: Option<string>, size: Option<nat>)

  const DisplayCap: nat := 12

  predicate Visible(item: ContentItem) {
    !StartsWith(item.name, ".")
  }

  function Project(item: ContentItem): FileItem {
    FileItem(item.name, item.kind, Some(item.sha), Some(item.size))
  }

  /**
   * `contents.filter(not hidden).slice(0, 12).map(project)`: the first
   * twelve visible entries in listing order, each keeping exactly its name,
   * type, sha and size.
   */
  function DisplayList(contents: seq<ContentItem>): (files: seq<FileItem>)
    ensures var visible := Filter(contents, Visible);
      |files| == if |visible| < DisplayCap then |visible| else DisplayCap
    ensures forall i :: 0 <= i < |files| ==> files[i] == Project(Filter(contents, Visible)[i])
    ensures forall i :: 0 <= i < |files| ==> !StartsWith(files[i].name, ".")
  {
    var visible := Filter(contents, Visible);
    var kept := if |visible| < DisplayCap then visible else visible[..DisplayCap];
    seq(|kept|, i requires 0 <= i < |kept| => Project(kept[i]))
  }

  /** Every visible entry is displayed when there are at most twelve of them. */
  lemma DisplayListComplete(contents: seq<ContentItem>, k: nat)
    requires k < |contents| && Visible(contents[k]) && |Filter(contents, Visible)| <= DisplayCap
    ensures Project(contents[k]) in DisplayList(contents)
  {
    var visible := Filter(contents, Visible);
    var j :| 0 <= j < |visible| && visible[j] == contents[k];
    assert DisplayList(contents)[j] == Project(contents[k]);
  }

  function Dir(name: string): FileItem {
    FileItem(name, "dir", None, None)
  }

  function File(name: string): FileItem {
    FileItem(name, "file", None, None)
  }

  /** A dot file, the entries `!name.startsWith('.')` drops. */
  predicate Hidden(file: FileItem) {
    file.name != "" && file.name[0] == '.'
  }

  /**
   * The placeholder set of each flavour. Each starts with a `src` directory
   * and has a README.md; only the generic set has a hidden entry.
   */
  function FallbackSet(f: Flavour): (files: seq<FileItem>)
    ensures 5 <= |files| <= 6 && files[0] == Dir("src")
    ensures File("README.md") in files
    ensures f == Generic <==> exists i :: 0 <= i < |files| && Hidden(files[i])
  {
    var files := match f
      case Web => [Dir("src"), Dir("public"), File("package.json"), File("README.md"), Dir("build"), Dir("assets")]
      case Mod => [Dir("src"), Dir("scripts"), Dir("config"), File("README.md"), File("manifest.json")]
      case Api => [Dir("src"), Dir("routes"), Dir("models"), File("README.md"), File("package.json")]
      case Bot => [Dir("src"), Dir("commands"), Dir("events"), File("README.md"), File("config.json")]
      case Generic => [Dir("src"), Dir("lib"), File("README.md"), File("package.json"), File(".gitignore")];
    assert f == Generic ==> Hidden(files[4]);
    files
  }

  /**
   * `generateFallbackFiles`: the set of the repository's flavour, taken
   * as is (it does not go through the hidden-entry filter).
   */
  function FallbackFiles(name: string, description: string): (files: seq<FileItem>)
    ensures WebLike(name) ==> files == FallbackSet(Web)
    ensures !WebLike(name) && ModLike(name, description) ==> files == FallbackSet(Mod)
    ensures !WebLike(name) && !ModLike(name, description) && ApiLike(name, description)
            ==> files == FallbackSet(Api)
    ensures !WebLike(name) && !ModLike(name, description) && !ApiLike(name, description)
            && BotLike(name, description)
            ==> files == FallbackSet(Bot)
    ensures !WebLike(name) && !ModLike(name, description) && !ApiLike(name, description)
            && !BotLike(name, description)
            ==> files == FallbackSet(Generic)
    ensures (exists i :: 0 <= i < |files| && Hidden(files[i]))
            <==> !WebLike(name) && !ModLike(name, description)
                 && !ApiLike(name, description) && !BotLike(name, description)
  {
    FallbackSet(Classify(name, description))
  }

  const FolderIcon: string := "\U{1F4C1}"
  const DefaultIcon: string := "\U{1F4C4}"

  /** The extension-to-icon table of `getFileIcon`, in its own order. */
  const IconTable: seq<(string, string)> := [
    ("js", "\U{1F4C4}"),
    ("jsx", "\U{269B}\U{FE0F}"),
    ("ts", "\U{1F4D8}"),
    ("tsx", "\U{269B}\U{FE0F}"),
    ("html", "\U{1F310}"),
    ("css", "\U{1F3A8}"),
    ("scss", "\U{1F3A8}"),
    ("sass", "\U{1F3A8}"),
    ("json", "\U{1F4CB}"),
    ("md", "\U{1F4DD}"),
    ("txt", "\U{1F4C4}"),
    ("py", "\U{1F40D}"),
    ("java", "\U{2615}"),
    ("cpp", "\U{2699}\U{FE0F}"),
    ("c", "\U{2699}\U{FE0F}"),
    ("php", "\U{1F418}"),
    ("rb", "\U{1F48E}"),
    ("go", "\U{1F439}"),
    ("rs", "\U{1F980}"),
    ("sql", "\U{1F5C4}\U{FE0F}"),
    ("xml", "\U{1F4C4}"),
    ("yml", "\U{2699}\U{FE0F}"),
    ("yaml", "\U{2699}\U{FE0F}"),
    ("sh", "\U{1F41A}"),
    ("bat", "\U{1F41A}"),
    ("ps1", "\U{1F41A}"),
    ("gitignore", "\U{1F6AB}"),
    ("dockerfile", "\U{1F433}"),
    ("docker-compose", "\U{1F433}"),
    ("package", "\U{1F4E6}"),
    ("lock", "\U{1F512}"),
    ("png", "\U{1F5BC}\U{FE0F}"),
    ("jpg", "\U{1F5BC}\U{FE0F}"),
    ("jpeg", "\U{1F5BC}\U{FE0F}"),
    ("gif", "\U{1F5BC}\U{FE0F}"),
    ("svg", "\U{1F5BC}\U{FE0F}"),
    ("ico", "\U{1F5BC}\U{FE0F}"),
    ("pdf", "\U{1F4D5}"),
    ("zip", "\U{1F4E6}"),
    ("tar", "\U{1F4E6}"),
    ("gz", "\U{1F4E6}")
  ]

  /**
   * `name.split('.').pop().toLowerCase()`: the text after the last dot of
   * the name, lower-cased (the whole name when there is no dot).
   */
  function Extension(name: string): (ext: string)
    ensures '.' !in ext
    ensures |ext| <= |name|
    ensures '.' !in name ==> ext == ToLower(name)
    ensures name != [] && name[|name| - 1] == '.' ==> ext == ""
  {
    var after := AfterLastDot(name);
    assert after != [] ==> after[|after| - 1] == name[|name| - 1];
    ToLower(after)
  }

  /**
   * The extension is exactly the lower-cased tail of the name after its
   * last dot: that tail has no dot, and a dot precedes it unless it is the
   * whole name.
   */
  lemma ExtensionIsLastSegment(name: string)
    ensures var ext := Extension(name);
      && ext == ToLower(name[|name| - |ext|..]) && '.' !in name[|name| - |ext|..]
      && (|ext| < |name| ==> name[|name| - |ext| - 1] == '.')
  {
  }

  /**
   * `getFileType`: "directory" for a directory; otherwise the extension, or
   * "file" when the name ends with a dot or is empty.
   */
  function FileType(file: FileItem): (t: string)
    ensures file.kind == "dir" ==> t == "directory"
    ensures file.kind != "dir" ==> t != "" && '.' !in t
    ensures file.kind != "dir" && Extension(file.name) != "" ==> t == Extension(file.name)
    ensures file.kind != "dir" && Extension(file.name) == "" ==> t == "file"
  {
    if file.kind == "dir" then "directory"
    else
      var ext := Extension(file.name);
      if ext == "" then "file" else ext
  }

  /**
   * A file without a dot is typed by its whole lower-cased name, and a file
   * whose name ends with a dot is typed "file".
   */
  lemma FileTypeOfName(file: FileItem)
    requires file.kind != "dir"
    ensures '.' !in file.name && file.name != "" ==> FileType(file) == ToLower(file.name)
    ensures file.name != [] && file.name[|file.name| - 1] == '.' ==> FileType(file) == "file"
  {
  }

  /**
   * `getFileIcon`: the folder for a directory, else the table's icon for the
   * extension, else the page icon.
   */
  function FileIcon(file: FileItem): (icon: string)
    ensures file.kind == "dir" ==> icon == FolderIcon
    ensures file.kind != "dir" && Extension(file.name) in Keys(IconTable)
            ==> exists i :: 0 <= i < |IconTable| && IconTable[i] == (Extension(file.name), icon)
    ensures file.kind != "dir" && Extension(file.name) !in Keys(IconTable) ==> icon == DefaultIcon
  {
    if file.kind == "dir" then FolderIcon
    else match Get(IconTable, Extension(file.name))
      case Some(icon) => icon
      case None => DefaultIcon
  }

  /** The folder icon marks directories and nothing else. */
  lemma FolderIconIffDirectory(file: FileItem)
    ensures FileIcon(file) == FolderIcon <==> file.kind == "dir"
  {
    assert forall i :: 0 <= i < |IconTable| ==> IconTable[i].1 != FolderIcon;
  }

  function CacheKey(fullName: string): string {
    "file-structure-" + fullName
  }

  /**
   * `fetchRepositoryContents`, from the initial empty list: without a
   * repository or `full_name` the list stays empty and the cache is not
   * touched; a fresh entry that parses is shown as is; otherwise the
   * listing (on success) or the placeholder set (on any failure) is shown
   * and cached with time `now`. An entry that fails to parse is left in
   * place and overwritten.
   */
  method FetchContents(store: Store<seq<FileItem>>, repo: Option<Repo>, now: int,
                       response: Fetch<seq<ContentItem>>) returns (files: seq<FileItem>)
    modifies store
    ensures repo.None? || repo.value.fullName == "" ==> files == [] && unchanged(store)
    ensures repo.Some? && repo.value.fullName != "" ==>
      var key := CacheKey(repo.value.fullName);
      match Lookup(old(store.payloads), old(store.stamps), key, now, HourMs)
      case Some(Parsed(cached)) => files == cached && unchanged(store)
      case _ =>
        && files == (if response.Ok? then DisplayList(response.value)
                     else FallbackFiles(repo.value.name, repo.value.description))
        && store.payloads == old(store.payloads)[key := Parsed(files)]
        && store.stamps == old(store.stamps)[key := now]
  {
    if repo.None? || repo.value.fullName == "" {
      return [];
    }
    var key := CacheKey(repo.value.fullName);
    var cached := Lookup(store.payloads, store.stamps, key, now, HourMs);
    if cached.Some? && cached.value.Parsed? {
      return cached.value.value;
    }
    if response.Ok? {
      files := DisplayList(response.value);
    } else {
      files := FallbackFiles(repo.value.name, repo.value.description);
    }
    store.Put(key, files, now);
  }
}
