/**
 * QtFilesystemNode: a node of the ScummVM file-system API backed by Qt. The file
 * system itself is a parameter: `stat` answers QFileInfo's exists/isDir for a path,
 * a directory listing is the sequence of entries QDirIterator yields, and the
 * outcome of creating a file or directory is given as inputs.
 */
module FileSystem {
  import opened Wrappers

  /** What QFileInfo reports about a path. */
  datatype FileInfo = FileInfo(present: bool, isDir: bool)

  /** One entry of a QDirIterator walk. */
  datatype DirEntry = DirEntry(fileName: string, isHidden: bool, isDir: bool)

  /** Common::FSNode::ListMode. */
  datatype ListMode = kListFilesOnly | kListDirectoriesOnly | kListAll

  /** The fields of a node, as a value (the nodes getChildren pushes). */
  datatype NodeValue = NodeValue(displayName: string, path: string, isDirectory: bool, isValid: bool)

  /** A node is a directory only if it exists. */
  predicate FlagsConsistent(n: NodeValue) {
    n.isDirectory ==> n.isValid
  }

  /** The path with a '/' appended unless it already ends in one. */
  function EnsureSlash(p: string): (q: string)
    ensures |q| > 0 && q[|q| - 1] == '/'
    ensures q == p || q == p + "/"
    ensures |p| > 0 && p[|p| - 1] == '/' ==> q == p
  {
    if |p| > 0 && p[|p| - 1] == '/' then p else p + "/"
  }

  /** A name without any '/', as getChild asserts of its argument. */
  predicate PlainName(name: string) {
    forall k | 0 <= k < |name| :: name[k] != '/'
  }

  /** The path of child `name` of the directory at `p`, as getChild and getChildren build it. */
  function JoinPath(p: string, name: string): (q: string)
    ensures |q| == |EnsureSlash(p)| + |name| && q[..|EnsureSlash(p)|] == EnsureSlash(p)
    ensures q[|q| - |name|..] == name
    ensures PlainName(name) ==> StripLastComponent(q) == EnsureSlash(p)
  {
    var d := EnsureSlash(p);
    if PlainName(name) then
      StripAfterSlash(d, name);
      d + name
    else
      d + name
  }

  /** The path cut back to just after its last '/', or "" when it has none. */
  function StripLastComponent(p: string): (q: string)
    ensures |q| <= |p| && q == p[..|q|]
    ensures q == "" || q[|q| - 1] == '/'
    ensures forall k | |q| <= k < |p| :: p[k] != '/'
  {
    if |p| == 0 then ""
    else if p[|p| - 1] == '/' then p
    else StripLastComponent(p[..|p| - 1])
  }

  /** getParent's answer: none for the root or a relative name, else the path up to the last '/'. */
  function ParentPath(p: string): (r: Option<string>)
    ensures p == "/" ==> r.None?
    ensures r.Some? ==> 0 < |r.value| <= |p| && r.value == p[..|r.value|] && r.value[|r.value| - 1] == '/'
    ensures r.Some? ==> forall k | |r.value| <= k < |p| :: p[k] != '/'
    ensures p != "/" && (exists k | 0 <= k < |p| :: p[k] == '/') ==> r.Some?
  {
    if p == "/" then None
    else
      var q := StripLastComponent(p);
      if q == "" then None else Some(q)
  }

  /** Cutting back a path that ends in a '/' followed by a name without '/' gives that prefix. */
  lemma {:induction false} StripAfterSlash(q: string, name: string)
    requires |q| > 0 && q[|q| - 1] == '/'
    requires forall k | 0 <= k < |name| :: name[k] != '/'
    ensures StripLastComponent(q + name) == q
    decreases |name|
  {
    if |name| == 0 {
      assert q + name == q;
    } else {
      var init := name[..|name| - 1];
      assert (q + name)[..|q + name| - 1] == q + init;
      assert (q + name)[|q + name| - 1] == name[|name| - 1];
      StripAfterSlash(q, init);
    }
  }

  /** The parent of a child path is the directory's path with its trailing '/'. */
  lemma ParentOfChild(p: string, name: string)
    requires |name| > 0
    requires forall k | 0 <= k < |name| :: name[k] != '/'
    ensures ParentPath(JoinPath(p, name)) == Some(EnsureSlash(p))
  {
    StripAfterSlash(EnsureSlash(p), name);
    assert JoinPath(p, name) != "/" by {
      assert JoinPath(p, name)[|JoinPath(p, name)| - 1] == name[|name| - 1];
    }
  }

  /** The filters of getChildren's loop: hidden entries, "." and "..", invalid ones, and the mode. */
  predicate Listed(parentValid: bool, entry: DirEntry, mode: ListMode, hidden: bool) {
    && !(entry.isHidden && !hidden)
    && entry.fileName != "." && entry.fileName != ".."
    && parentValid
    && !(mode == kListFilesOnly && entry.isDir)
    && !(mode == kListDirectoriesOnly && !entry.isDir)
  }

  /**
   * The node getChildren pushes for an entry: a copy of the directory's node with the
   * entry's name, the joined path and the entry's directory flag; its validity is the
   * copied one, not re-examined.
   */
  function ChildNode(dir: NodeValue, entry: DirEntry): (c: NodeValue)
    ensures c.displayName == entry.fileName && c.path == JoinPath(dir.path, entry.fileName)
    ensures c.isDirectory == entry.isDir && c.isValid == dir.isValid
  {
    dir.(displayName := entry.fileName, path := JoinPath(dir.path, entry.fileName), isDirectory := entry.isDir)
  }

  /** The nodes getChildren appends for a walk over `entries`, in walk order. */
  function Children(dir: NodeValue, entries: seq<DirEntry>, mode: ListMode, hidden: bool): (cs: seq<NodeValue>)
    ensures |cs| <= |entries|
  {
    if |entries| == 0 then []
    else
      var rest := Children(dir, entries[..|entries| - 1], mode, hidden);
      var last := entries[|entries| - 1];
      if Listed(dir.isValid, last, mode, hidden) then rest + [ChildNode(dir, last)] else rest
  }

  /**
   * Every listed node keeps the directory's validity, honours the mode, and is
   * neither "." nor "..", and a hidden one is listed only when hidden files are asked for.
   */
  lemma {:induction false} ChildrenFilters(dir: NodeValue, entries: seq<DirEntry>, mode: ListMode, hidden: bool)
    ensures forall c | c in Children(dir, entries, mode, hidden) ::
              && c.isValid == dir.isValid
              && (mode == kListFilesOnly ==> !c.isDirectory)
              && (mode == kListDirectoriesOnly ==> c.isDirectory)
              && c.displayName != "." && c.displayName != ".."
    ensures !dir.isValid ==> Children(dir, entries, mode, hidden) == []
    decreases |entries|
  {
    if |entries| > 0 {
      ChildrenFilters(dir, entries[..|entries| - 1], mode, hidden);
    }
  }

  /** One more entry of the walk adds its node exactly when it passes the filters. */
  lemma ChildrenStep(dir: NodeValue, entries: seq<DirEntry>, i: int, mode: ListMode, hidden: bool)
    requires 0 <= i < |entries|
    ensures Children(dir, entries[..i + 1], mode, hidden) ==
              Children(dir, entries[..i], mode, hidden)
              + (if Listed(dir.isValid, entries[i], mode, hidden) then [ChildNode(dir, entries[i])] else [])
  {
    assert entries[..i + 1][..i] == entries[..i];
  }

  /** A walk split in two lists the children of each part, in order. */
  lemma {:induction false} ChildrenAppend(dir: NodeValue, a: seq<DirEntry>, b: seq<DirEntry>, mode: ListMode, hidden: bool)
    ensures Children(dir, a + b, mode, hidden) == Children(dir, a, mode, hidden) + Children(dir, b, mode, hidden)
    decreases |b|
  {
    if |b| == 0 {
      assert a + b == a;
    } else {
      var init := b[..|b| - 1];
      assert (a + b)[..|a + b| - 1] == a + init;
      assert (a + b)[|a + b| - 1] == b[|b| - 1];
      ChildrenAppend(dir, a, init, mode, hidden);
    }
  }

  /** Every listed node comes from an entry that passes the filters. */
  lemma {:induction false} ChildrenSound(dir: NodeValue, entries: seq<DirEntry>, mode: ListMode, hidden: bool, c: NodeValue)
    requires c in Children(dir, entries, mode, hidden)
    ensures exists i | 0 <= i < |entries| :: Listed(dir.isValid, entries[i], mode, hidden) && c == ChildNode(dir, entries[i])
    decreases |entries|
  {
    var init := entries[..|entries| - 1];
    if c in Children(dir, init, mode, hidden) {
      ChildrenSound(dir, init, mode, hidden, c);
      var i :| 0 <= i < |init| && Listed(dir.isValid, init[i], mode, hidden) && c == ChildNode(dir, init[i]);
      assert entries[i] == init[i];
    } else {
      assert Listed(dir.isValid, entries[|entries| - 1], mode, hidden) && c == ChildNode(dir, entries[|entries| - 1]);
    }
  }

  /** Every entry that passes the filters has its node listed. */
  lemma {:induction false} ChildrenComplete(dir: NodeValue, entries: seq<DirEntry>, mode: ListMode, hidden: bool, i: int)
    requires 0 <= i < |entries| && Listed(dir.isValid, entries[i], mode, hidden)
    ensures ChildNode(dir, entries[i]) in Children(dir, entries, mode, hidden)
    decreases |entries|
  {
    var n := |entries| - 1;
    var init := entries[..n];
    ChildrenStep(dir, entries, n, mode, hidden);
    assert entries[..n + 1] == entries;
    if i < n {
      assert init[i] == entries[i];
      ChildrenComplete(dir, init, mode, hidden, i);
    }
  }

  /** A node is listed exactly when some entry passes the filters and yields it. */
  lemma ChildrenMembership(dir: NodeValue, entries: seq<DirEntry>, mode: ListMode, hidden: bool, c: NodeValue)
    ensures c in Children(dir, entries, mode, hidden) <==>
              exists i | 0 <= i < |entries| :: Listed(dir.isValid, entries[i], mode, hidden) && c == ChildNode(dir, entries[i])
  {
    if c in Children(dir, entries, mode, hidden) {
      ChildrenSound(dir, entries, mode, hidden, c);
    }
    if exists i | 0 <= i < |entries| :: Listed(dir.isValid, entries[i], mode, hidden) && c == ChildNode(dir, entries[i]) {
      var i :| 0 <= i < |entries| && Listed(dir.isValid, entries[i], mode, hidden) && c == ChildNode(dir, entries[i]);
      ChildrenComplete(dir, entries, mode, hidden, i);
    }
  }

  /** The filters of getChildren's loop other than the copied validity check. */
  predicate EntryPasses(entry: DirEntry, mode: ListMode, hidden: bool) {
    Listed(true, entry, mode, hidden)
  }

  /**
   * For a directory whose flags setFlags made, the validity check in getChildren's
   * loop never drops an entry: a node is listed exactly when some entry passes the
   * remaining filters and yields it.
   */
  lemma ChildrenOfDirectory(dir: NodeValue, entries: seq<DirEntry>, mode: ListMode, hidden: bool, c: NodeValue)
    requires FlagsConsistent(dir) && dir.isDirectory
    ensures c in Children(dir, entries, mode, hidden) <==>
              exists i | 0 <= i < |entries| :: EntryPasses(entries[i], mode, hidden) && c == ChildNode(dir, entries[i])
  {
    ChildrenMembership(dir, entries, mode, hidden, c);
  }

  /**
   * Every child getChildren lists has the directory as its parent: its path ends in
   * its name, right after the directory's path and a '/'.
   */
  lemma ChildrenHaveParent(dir: NodeValue, entries: seq<DirEntry>, mode: ListMode, hidden: bool, i: int)
    requires 0 <= i < |entries|
    requires Listed(dir.isValid, entries[i], mode, hidden)
    requires |entries[i].fileName| > 0 && forall k | 0 <= k < |entries[i].fileName| :: entries[i].fileName[k] != '/'
    ensures ChildNode(dir, entries[i]) in Children(dir, entries, mode, hidden)
    ensures ParentPath(ChildNode(dir, entries[i]).path) == Some(EnsureSlash(dir.path))
  {
    ChildrenMembership(dir, entries, mode, hidden, ChildNode(dir, entries[i]));
    ParentOfChild(dir.path, entries[i].fileName);
  }

  /**
   * The outcome of create: mkpath for a missing directory (an existing one counts as
   * made), a truncating open for a file; then the new flags must show the requested kind.
   */
  function CreateSucceeded(isDirectoryFlag: bool, dirExisted: bool, mkpathOk: bool, openOk: bool, after: FileInfo): (ok: bool)
    ensures ok ==> after.present && after.isDir == isDirectoryFlag
    ensures isDirectoryFlag && dirExisted ==> (ok <==> after.present && after.isDir)
    ensures !isDirectoryFlag && !openOk ==> !ok
    ensures isDirectoryFlag && !dirExisted && !mkpathOk ==> !ok
  {
    var success := if isDirectoryFlag then (if !dirExisted then mkpathOk else true) else openOk;
    success && after.present && (after.present && after.isDir) == isDirectoryFlag
  }

  class QtFilesystemNode {
    var displayName: string
    var path: string
    var isDirectory: bool
    var isValid: bool

    function Value(): NodeValue
      reads this
    {
      NodeValue(displayName, path, isDirectory, isValid)
    }

    predicate Valid()
      reads this
    {
      FlagsConsistent(Value())
    }

    /** setFlags: valid when the path exists, a directory when it also is one. */
    method SetFlags(info: FileInfo)
      modifies this
      ensures Valid()
      ensures isValid == info.present && isDirectory == (info.present && info.isDir)
      ensures displayName == old(displayName) && path == old(path)
    {
      isValid := info.present;
      isDirectory := isValid && info.isDir;
    }

    /**
     * The public constructor. QFileInfo::absoluteFilePath, Common::normalizePath and
     * Common::lastPathComponent are passed in; `stat` is the file system.
     */
    constructor(p: string, absolute: string -> string, normalize: string -> string,
                lastComponent: string -> string, stat: string -> FileInfo)
      requires |p| > 0
      ensures Valid()
      ensures path == normalize(absolute(p)) && displayName == lastComponent(path)
      ensures isValid == stat(path).present && isDirectory == (stat(path).present && stat(path).isDir)
    {
      var normalized := normalize(absolute(p));
      path := normalized;
      displayName := lastComponent(normalized);
      new;
      SetFlags(stat(path));
    }

    /** getChild: the path the child node is made from. */
    function GetChild(name: string): (childPath: string)
      reads this
      requires |path| > 0 && isDirectory
      requires forall k | 0 <= k < |name| :: name[k] != '/'
      ensures childPath == EnsureSlash(path) + name
      ensures |name| > 0 ==> ParentPath(childPath) == Some(EnsureSlash(path))
    {
      if |name| > 0 then
        ParentOfChild(path, name);
        JoinPath(path, name)
      else
        JoinPath(path, name)
    }

    /** getParent: the path the parent node is made from, or none. */
    method GetParent() returns (parent: Option<string>)
      ensures parent == ParentPath(path)
    {
      if path == "/" {
        return None;
      }
      var end := |path|;
      while end > 0 && path[end - 1] != '/'
        invariant 0 <= end <= |path|
        invariant StripLastComponent(path) == StripLastComponent(path[..end])
        decreases end
      {
        assert path[..end][..end - 1] == path[..end - 1];
        end := end - 1;
      }
      assert path[..end] == StripLastComponent(path[..end]) by {
        if end > 0 {
          assert path[..end][end - 1] == '/';
        }
      }
      if end == 0 {
        return None;
      }
      return Some(path[..end]);
    }

    /**
     * getChildren: walk the directory and append a node for every entry that passes
     * the filters to `list`; it always reports success.
     */
    method GetChildren(list: seq<NodeValue>, entries: seq<DirEntry>, mode: ListMode, hidden: bool)
      returns (ok: bool, result: seq<NodeValue>)
      requires Valid() && isDirectory
      ensures ok && result == list + Children(Value(), entries, mode, hidden)
    {
      result := list;
      ghost var dir := Value();
      for i := 0 to |entries|
        invariant result == list + Children(dir, entries[..i], mode, hidden)
      {
        var info := entries[i];
        ChildrenStep(dir, entries, i, mode, hidden);
        if info.isHidden && !hidden {
          continue;
        }
        if info.fileName == "." || info.fileName == ".." {
          continue;
        }
        var entry := Value();
        entry := entry.(displayName := info.fileName);
        if |path| == 0 || path[|path| - 1] != '/' {
          entry := entry.(path := entry.path + "/");
        }
        assert entry.path == EnsureSlash(path);
        entry := entry.(path := entry.path + entry.displayName);
        entry := entry.(isDirectory := info.isDir);
        assert entry.path == JoinPath(path, info.fileName);
        assert entry == ChildNode(dir, info);
        if !entry.isValid {
          continue;
        }
        if (mode == kListFilesOnly && entry.isDirectory) || (mode == kListDirectoriesOnly && !entry.isDirectory) {
          continue;
        }
        result := result + [entry];
      }
      assert entries[..|entries|] == entries;
      return true, result;
    }

    /**
     * create: make the directory or file; on success re-read the flags and report
     * whether the path now is what was asked for. `dirExisted`, `mkpathOk` and
     * `openOk` are the answers of QDir::exists, QDir::mkpath and QFile::open.
     */
    method Create(isDirectoryFlag: bool, dirExisted: bool, mkpathOk: bool, openOk: bool, after: FileInfo)
      returns (ok: bool)
      modifies this
      ensures Valid()
      ensures ok == CreateSucceeded(isDirectoryFlag, dirExisted, mkpathOk, openOk, after)
      ensures displayName == old(displayName) && path == old(path)
      ensures var success := if isDirectoryFlag then !dirExisted ==> mkpathOk else openOk;
              if success then isValid == after.present && isDirectory == (after.present && after.isDir)
              else isValid == old(isValid) && isDirectory == old(isDirectory)
      requires Valid()
    {
      var success: bool;
      if isDirectoryFlag {
        if !dirExisted {
          success := mkpathOk;
        } else {
          success := true;
        }
      } else {
        success := openOk;
      }
      if success {
        SetFlags(after);
        if isValid {
          return isDirectory == isDirectoryFlag;
        }
        return false;
      }
      return false;
    }
  }
}
