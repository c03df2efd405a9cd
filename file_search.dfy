/**
 * The file index of the desktop back end: a directory tree whose every node
 * carries `tokens`, the lower-cased names of all files below it, built once
 * from the file system and then searched by substring with subtree pruning.
 *
 * The file system is given as an in-memory tree of directory listings
 * (`Listing`); what `fs::read_dir`, `is_file` and `is_dir` would report is part
 * of that input.  The index store is one cell holding `Option<DirNode>`.
 */
module FileSearch {
  import opened Wrappers
  import opened Text

  // ================================================================ paths

  /** An OS file name: valid Unicode, or not (then `to_str` fails and `to_string_lossy` substitutes). */
  datatype OsName = Utf8(text: string) | NonUtf8(lossy: string)

  /** One component of a `PathBuf`, as `Path::components` yields it. */
  datatype Component = RootDir | CurDir | ParentDir | Normal(name: OsName)

  type Path = seq<Component>

  /** `Path::file_name`: the final component when it is a normal name. */
  function FileName(p: Path): Option<OsName> {
    if p != [] && p[|p| - 1].Normal? then Some(p[|p| - 1].name) else None
  }

  /** `OsStr::to_str`. */
  function ToStr(n: OsName): Option<string> {
    match n
    case Utf8(s) => Some(s)
    case NonUtf8(_) => None
  }

  /** `OsStr::to_string_lossy`. */
  function ToStringLossy(n: OsName): string {
    match n
    case Utf8(s) => s
    case NonUtf8(l) => l
  }

  predicate HiddenName(s: string) {
    StartsWith(s, ".") || s == "Library"
  }

  /** `is_hidden_path`: the file name, when there is one and it is UTF-8, starts with `.` or is `Library`. */
  predicate IsHiddenPath(p: Path) {
    match FileName(p)
    case None => false
    case Some(n) =>
      match ToStr(n)
      case None => false
      case Some(s) => HiddenName(s)
  }

  /** A path is hidden exactly when its last component is a UTF-8 name starting with `.` or equal to `Library`. */
  lemma IsHiddenPathIff(p: Path)
    ensures IsHiddenPath(p) <==>
      (p != [] && p[|p| - 1].Normal? && p[|p| - 1].name.Utf8?
       && ((|p[|p| - 1].name.text| > 0 && p[|p| - 1].name.text[0] == '.') || p[|p| - 1].name.text == "Library"))
  {
    if p != [] && p[|p| - 1].Normal? && p[|p| - 1].name.Utf8? {
      var s := p[|p| - 1].name.text;
      assert StartsWith(s, ".") <==> (|s| > 0 && s[0] == '.') by {
        if |s| > 0 && s[0] == '.' {
          assert s[..1] == ".";
        }
      }
    }
  }

  /** The child path `dir/name` that `DirEntry::path` yields. */
  function Child(dir: Path, name: OsName): Path {
    dir + [Normal(name)]
  }

  /** Whether a directory entry's path is hidden depends on its own name only. */
  lemma ChildHidden(dir: Path, name: OsName)
    ensures IsHiddenPath(Child(dir, name)) <==> (name.Utf8? && HiddenName(name.text))
  {
  }

  // ================================================================ the file system

  /** What the walk learns about one directory entry: its name and whether `is_file` or `is_dir` holds. */
  datatype Entry = Entry(name: OsName, kind: Kind)

  /** `File` when `is_file`, `Dir` when `is_dir` (with that directory's own listing), `Other` when neither. */
  datatype Kind = File | Dir(listing: Listing) | Other

  /** A directory's listing: `read_dir` failed, or the entries it yielded in order (failed entries are skipped by `flatten`). */
  datatype Listing = Unreadable | Entries(items: seq<Entry>)

  // ================================================================ the index tree

  datatype FileNode = FileNode(name: string, path: Path)

  datatype DirNode = DirNode(files: seq<FileNode>, subdirs: seq<DirNode>, tokens: seq<string>)

  const EmptyNode := DirNode([], [], [])

  /** The node `build_tree(path)` returns when listing `path` gives `listing`. */
  function TreeOf(path: Path, listing: Listing): DirNode
    decreases listing, 1
  {
    if IsHiddenPath(path) then EmptyNode
    else match listing
      case Unreadable => EmptyNode
      case Entries(items) => Scan(path, listing, |items|)
  }

  /** The node `build_tree` has assembled after its loop has seen the first `n` entries of `listing`. */
  function Scan(path: Path, listing: Listing, n: nat): DirNode
    requires listing.Entries? && n <= |listing.items|
    decreases listing, 0, n
  {
    if n == 0 then EmptyNode
    else
      var acc := Scan(path, listing, n - 1);
      var e := listing.items[n - 1];
      var p := Child(path, e.name);
      if IsHiddenPath(p) then acc
      else match e.kind
        case File =>
          var name := ToStringLossy(e.name);
          DirNode(acc.files + [FileNode(name, p)], acc.subdirs, acc.tokens + [Lower(name)])
        case Dir(sub) =>
          var t := TreeOf(p, sub);
          DirNode(acc.files, acc.subdirs + [t], acc.tokens + t.tokens)
        case Other => acc
  }

  /** `build_tree`: walk the listing, push each visible file and its lower-cased name, recurse into each visible directory. */
  method BuildTree(path: Path, listing: Listing) returns (node: DirNode)
    ensures node == TreeOf(path, listing)
    ensures IsHiddenPath(path) || listing.Unreadable? ==> node == EmptyNode
    decreases listing, 1
  {
    var files: seq<FileNode> := [];
    var subdirs: seq<DirNode> := [];
    var tokens: seq<string> := [];

    if IsHiddenPath(path) {
      return DirNode(files, subdirs, tokens);
    }
    if listing.Unreadable? {
      return DirNode(files, subdirs, tokens);
    }

    var entries := listing.items;
    var i := 0;
    while i < |entries|
      invariant 0 <= i <= |entries|
      invariant DirNode(files, subdirs, tokens) == Scan(path, listing, i)
    {
      var e := entries[i];
      var p := Child(path, e.name);
      if IsHiddenPath(p) {
        i := i + 1;
        continue;
      }
      match e.kind {
        case File =>
          var name := ToStringLossy(e.name);
          tokens := tokens + [Lower(name)];
          files := files + [FileNode(name, p)];
        case Dir(sub) =>
          var s := BuildTree(p, sub);
          tokens := tokens + s.tokens;
          subdirs := subdirs + [s];
        case Other =>
      }
      i := i + 1;
    }
    node := DirNode(files, subdirs, tokens);
  }

  // ================================================================ the token invariant

  /** The lower-cased names of `files`, in order. */
  function LowerNames(files: seq<FileNode>): seq<string> {
    if files == [] then [] else LowerNames(files[..|files| - 1]) + [Lower(files[|files| - 1].name)]
  }

  /** All tokens of the given nodes, counted with multiplicity. */
  function SubTokens(subs: seq<DirNode>): multiset<string> {
    if subs == [] then multiset{} else SubTokens(subs[..|subs| - 1]) + multiset(subs[|subs| - 1].tokens)
  }

  /**
   * What `build_tree` guarantees of every node: its tokens are the lower-cased
   * names of its own files together with all tokens of its subdirectories
   * (pushed in listing order, so as a multiset), and the same holds below.
   */
  ghost predicate WellIndexed(node: DirNode)
    decreases node
  {
    && multiset(node.tokens) == multiset(LowerNames(node.files)) + SubTokens(node.subdirs)
    && forall k :: 0 <= k < |node.subdirs| ==> WellIndexed(node.subdirs[k])
  }

  lemma {:induction false} TreeOfWellIndexed(path: Path, listing: Listing)
    ensures WellIndexed(TreeOf(path, listing))
    decreases listing, 1
  {
    if !IsHiddenPath(path) && listing.Entries? {
      ScanWellIndexed(path, listing, |listing.items|);
    }
  }

  lemma {:induction false} ScanWellIndexed(path: Path, listing: Listing, n: nat)
    requires listing.Entries? && n <= |listing.items|
    ensures WellIndexed(Scan(path, listing, n))
    decreases listing, 0, n, 1
  {
    if n > 0 {
      ScanWellIndexed(path, listing, n - 1);
      ScanStep(path, listing, n);
    }
  }

  lemma {:induction false} ScanStep(path: Path, listing: Listing, n: nat)
    requires listing.Entries? && 0 < n <= |listing.items|
    requires WellIndexed(Scan(path, listing, n - 1))
    ensures WellIndexed(Scan(path, listing, n))
    decreases listing, 0, n, 0
  {
    var acc := Scan(path, listing, n - 1);
    var e := listing.items[n - 1];
    var p := Child(path, e.name);
    if !IsHiddenPath(p) {
      match e.kind
      case File =>
        AddFileKeepsIndexed(acc, FileNode(ToStringLossy(e.name), p));
      case Dir(sub) =>
        TreeOfWellIndexed(p, sub);
        AddDirKeepsIndexed(acc, TreeOf(p, sub));
      case Other =>
    }
  }

  /** Pushing a file and its lower-cased name keeps a node well indexed. */
  lemma AddFileKeepsIndexed(acc: DirNode, f: FileNode)
    requires WellIndexed(acc)
    ensures WellIndexed(DirNode(acc.files + [f], acc.subdirs, acc.tokens + [Lower(f.name)]))
  {
    var files := acc.files + [f];
    assert files[..|files| - 1] == acc.files;
    assert LowerNames(files) == LowerNames(acc.files) + [Lower(f.name)];
    assert multiset(acc.tokens + [Lower(f.name)]) == multiset(acc.tokens) + multiset{Lower(f.name)};
  }

  /** Pushing a well-indexed subdirectory and extending by its tokens keeps a node well indexed. */
  lemma AddDirKeepsIndexed(acc: DirNode, t: DirNode)
    requires WellIndexed(acc) && WellIndexed(t)
    ensures WellIndexed(DirNode(acc.files, acc.subdirs + [t], acc.tokens + t.tokens))
  {
    SubTokensPush(acc.subdirs, t);
    assert multiset(acc.tokens + t.tokens) == multiset(acc.tokens) + multiset(t.tokens);
    SubdirsPushIndexed(acc.subdirs, t);
    IndexedFromParts(acc.files, acc.subdirs + [t], acc.tokens + t.tokens);
  }

  lemma SubTokensPush(subs: seq<DirNode>, t: DirNode)
    ensures SubTokens(subs + [t]) == SubTokens(subs) + multiset(t.tokens)
  {
    assert (subs + [t])[..|subs|] == subs;
  }

  lemma SubdirsPushIndexed(subs: seq<DirNode>, t: DirNode)
    requires forall k :: 0 <= k < |subs| ==> WellIndexed(subs[k])
    requires WellIndexed(t)
    ensures forall k :: 0 <= k < |subs + [t]| ==> WellIndexed((subs + [t])[k])
  {
  }

  /** The definition of `WellIndexed`, read as an introduction rule. */
  lemma IndexedFromParts(files: seq<FileNode>, subdirs: seq<DirNode>, tokens: seq<string>)
    requires multiset(tokens) == multiset(LowerNames(files)) + SubTokens(subdirs)
    requires forall k :: 0 <= k < |subdirs| ==> WellIndexed(subdirs[k])
    ensures WellIndexed(DirNode(files, subdirs, tokens))
  {
  }

  // ================================================================ pre-order listing of files

  /** Every file in the subtree: the node's own files, then each subdirectory's, in stored order. */
  function Preorder(node: DirNode): seq<FileNode>
    decreases node, 1
  {
    node.files + PreorderOf(node, |node.subdirs|)
  }

  /** The pre-order files of the first `n` subdirectories of `node`. */
  function PreorderOf(node: DirNode, n: nat): seq<FileNode>
    requires n <= |node.subdirs|
    decreases node, 0, n
  {
    if n == 0 then [] else PreorderOf(node, n - 1) + Preorder(node.subdirs[n - 1])
  }

  lemma {:induction false} LowerNamesAppend(a: seq<FileNode>, b: seq<FileNode>)
    ensures LowerNames(a + b) == LowerNames(a) + LowerNames(b)
    decreases |b|
  {
    if b != [] {
      var b' := b[..|b| - 1];
      LowerNamesAppend(a, b');
      assert (a + b)[..|a + b| - 1] == a + b';
    } else {
      assert a + b == a;
    }
  }

  /** In a well-indexed node the tokens are exactly the lower-cased names of all files in the subtree. */
  lemma {:induction false} TokensArePreorderNames(node: DirNode)
    requires WellIndexed(node)
    ensures multiset(node.tokens) == multiset(LowerNames(Preorder(node)))
    decreases node, 1
  {
    SubTokensArePreorderNames(node, |node.subdirs|);
    assert node.subdirs[..|node.subdirs|] == node.subdirs;
    LowerNamesAppend(node.files, PreorderOf(node, |node.subdirs|));
  }

  lemma {:induction false} SubTokensArePreorderNames(node: DirNode, n: nat)
    requires n <= |node.subdirs| && WellIndexed(node)
    ensures SubTokens(node.subdirs[..n]) == multiset(LowerNames(PreorderOf(node, n)))
    decreases node, 0, n
  {
    if n > 0 {
      SubTokensArePreorderNames(node, n - 1);
      TokensArePreorderNames(node.subdirs[n - 1]);
      SubTokensStep(node, n);
    } else {
      assert node.subdirs[..n] == [];
    }
  }

  lemma SubTokensStep(node: DirNode, n: nat)
    requires 0 < n <= |node.subdirs|
    requires SubTokens(node.subdirs[..n - 1]) == multiset(LowerNames(PreorderOf(node, n - 1)))
    requires multiset(node.subdirs[n - 1].tokens) == multiset(LowerNames(Preorder(node.subdirs[n - 1])))
    ensures SubTokens(node.subdirs[..n]) == multiset(LowerNames(PreorderOf(node, n)))
  {
    var sub := node.subdirs[n - 1];
    assert node.subdirs[..n] == node.subdirs[..n - 1] + [sub];
    SubTokensPush(node.subdirs[..n - 1], sub);
    LowerNamesAppend(PreorderOf(node, n - 1), Preorder(sub));
  }

  lemma {:induction false} LowerNamesMember(files: seq<FileNode>, f: FileNode)
    requires f in files
    ensures Lower(f.name) in LowerNames(files)
  {
    var last := files[|files| - 1];
    if f != last {
      assert files == files[..|files| - 1] + [last];
      LowerNamesMember(files[..|files| - 1], f);
    }
  }

  /** Every file below a well-indexed node has its lower-cased name among the node's tokens. */
  lemma TokenOfEveryFile(node: DirNode, f: FileNode)
    requires WellIndexed(node) && f in Preorder(node)
    ensures Lower(f.name) in node.tokens
  {
    TokensArePreorderNames(node);
    LowerNamesMember(Preorder(node), f);
    assert Lower(f.name) in multiset(LowerNames(Preorder(node)));
  }

  // ================================================================ search

  /** `node.tokens.iter().any(|t| t.contains(&q))`. */
  predicate AnyContains(tokens: seq<string>, q: string) {
    exists k :: 0 <= k < |tokens| && Contains(tokens[k], q)
  }

  /** The paths of those `files` whose lower-cased name contains `q`, in order. */
  function Matches(files: seq<FileNode>, q: string): seq<Path> {
    if files == [] then []
    else
      var f := files[|files| - 1];
      Matches(files[..|files| - 1], q) + (if Contains(Lower(f.name), q) then [f.path] else [])
  }

  /** What `search_tree(node, query, out)` appends to `out`, for the lower-cased query `q`. */
  function Found(node: DirNode, q: string): seq<Path>
    decreases node, 1
  {
    if !AnyContains(node.tokens, q) then []
    else Matches(node.files, q) + FoundOf(node, q, |node.subdirs|)
  }

  /** What the first `n` recursive calls of `search_tree` append. */
  function FoundOf(node: DirNode, q: string, n: nat): seq<Path>
    requires n <= |node.subdirs|
    decreases node, 0, n
  {
    if n == 0 then [] else FoundOf(node, q, n - 1) + Found(node.subdirs[n - 1], q)
  }

  /** `search_tree`: prune on the tokens, push the node's matching files, then recurse into each subdirectory. */
  method SearchTree(node: DirNode, query: string, out: seq<Path>) returns (res: seq<Path>)
    ensures res == out + Found(node, Lower(query))
    ensures |res| >= |out| && res[..|out|] == out
    decreases node
  {
    var q := Lower(query);
    if !AnyContains(node.tokens, q) {
      return out;
    }

    res := out;
    var i := 0;
    while i < |node.files|
      invariant 0 <= i <= |node.files|
      invariant res == out + Matches(node.files[..i], q)
    {
      var f := node.files[i];
      if Contains(Lower(f.name), q) {
        res := res + [f.path];
      }
      assert node.files[..i + 1][..i] == node.files[..i];
      i := i + 1;
    }
    assert node.files[..i] == node.files;

    var j := 0;
    while j < |node.subdirs|
      invariant 0 <= j <= |node.subdirs|
      invariant res == out + Matches(node.files, q) + FoundOf(node, q, j)
    {
      res := SearchTree(node.subdirs[j], query, res);
      assert FoundOf(node, q, j + 1) == FoundOf(node, q, j) + Found(node.subdirs[j], q);
      j := j + 1;
    }
    assert Found(node, q) == Matches(node.files, q) + FoundOf(node, q, |node.subdirs|);
  }

  lemma {:induction false} MatchesAppend(a: seq<FileNode>, b: seq<FileNode>, q: string)
    ensures Matches(a + b, q) == Matches(a, q) + Matches(b, q)
    decreases |b|
  {
    if b != [] {
      var b' := b[..|b| - 1];
      MatchesAppend(a, b', q);
      assert (a + b)[..|a + b| - 1] == a + b';
    } else {
      assert a + b == a;
    }
  }

  /** A path is among the matches exactly when some listed file with a matching name has that path. */
  lemma {:induction false} MatchesMember(files: seq<FileNode>, q: string, p: Path)
    ensures p in Matches(files, q) <==> exists f :: f in files && f.path == p && Contains(Lower(f.name), q)
  {
    if files != [] {
      var init := files[..|files| - 1];
      MatchesMember(init, q, p);
      assert files == init + [files[|files| - 1]];
    }
  }

  lemma {:induction false} NoMatches(files: seq<FileNode>, q: string)
    requires forall f :: f in files ==> !Contains(Lower(f.name), q)
    ensures Matches(files, q) == []
  {
    if files != [] {
      NoMatches(files[..|files| - 1], q);
    }
  }

  /** Pruning is safe: when no token of a well-indexed node contains `q`, no file below it matches. */
  lemma PruneLosesNothing(node: DirNode, q: string)
    requires WellIndexed(node) && !AnyContains(node.tokens, q)
    ensures Matches(Preorder(node), q) == []
  {
    forall f | f in Preorder(node)
      ensures !Contains(Lower(f.name), q)
    {
      TokenOfEveryFile(node, f);
    }
    NoMatches(Preorder(node), q);
  }

  /**
   * Ordering and completeness: on a well-indexed tree, the pruned search returns
   * exactly the matching files of the whole subtree, in pre-order.
   */
  lemma {:induction false} SearchIsPreorderFilter(node: DirNode, q: string)
    requires WellIndexed(node)
    ensures Found(node, q) == Matches(Preorder(node), q)
    decreases node, 1
  {
    if !AnyContains(node.tokens, q) {
      PruneLosesNothing(node, q);
    } else {
      FoundOfIsPreorderFilter(node, q, |node.subdirs|);
      MatchesAppend(node.files, PreorderOf(node, |node.subdirs|), q);
    }
  }

  lemma {:induction false} FoundOfIsPreorderFilter(node: DirNode, q: string, n: nat)
    requires n <= |node.subdirs| && WellIndexed(node)
    ensures FoundOf(node, q, n) == Matches(PreorderOf(node, n), q)
    decreases node, 0, n
  {
    if n > 0 {
      var sub := node.subdirs[n - 1];
      FoundOfIsPreorderFilter(node, q, n - 1);
      SearchIsPreorderFilter(sub, q);
      MatchesAppend(PreorderOf(node, n - 1), Preorder(sub), q);
      calc {
        FoundOf(node, q, n);
        FoundOf(node, q, n - 1) + Found(sub, q);
        Matches(PreorderOf(node, n - 1), q) + Matches(Preorder(sub), q);
        Matches(PreorderOf(node, n - 1) + Preorder(sub), q);
        Matches(PreorderOf(node, n), q);
      }
    }
  }

  /** Soundness, on any tree: every reported path is that of a file in the subtree whose lower-cased name contains `q`. */
  lemma {:induction false} FoundSound(node: DirNode, q: string, p: Path)
    requires p in Found(node, q)
    ensures exists f :: f in Preorder(node) && f.path == p && Contains(Lower(f.name), q)
    decreases node, 1
  {
    var n := |node.subdirs|;
    if p in Matches(node.files, q) {
      MatchesMember(node.files, q, p);
      var f :| f in node.files && f.path == p && Contains(Lower(f.name), q);
      assert f in Preorder(node);
    } else {
      FoundOfSound(node, q, n, p);
    }
  }

  lemma {:induction false} FoundOfSound(node: DirNode, q: string, n: nat, p: Path)
    requires n <= |node.subdirs| && p in FoundOf(node, q, n)
    ensures exists f :: f in PreorderOf(node, n) && f.path == p && Contains(Lower(f.name), q)
    decreases node, 0, n
  {
    if p in FoundOf(node, q, n - 1) {
      FoundOfSound(node, q, n - 1, p);
    } else {
      FoundSound(node.subdirs[n - 1], q, p);
    }
  }

  /** Completeness: on a well-indexed tree, every file below whose lower-cased name contains `q` is reported. */
  lemma FoundComplete(node: DirNode, q: string, f: FileNode)
    requires WellIndexed(node) && f in Preorder(node) && Contains(Lower(f.name), q)
    ensures f.path in Found(node, q)
  {
    SearchIsPreorderFilter(node, q);
    MatchesMember(Preorder(node), q, f.path);
  }

  // ================================================================ what gets indexed

  /**
   * A file recorded under `root`: its path extends `root` by normal names only,
   * neither it nor any directory between `root` and it is hidden, and its name
   * is the lossy rendering of its path's file name.
   */
  ghost predicate IndexedUnder(root: Path, f: FileNode) {
    && |root| < |f.path| && f.path[..|root|] == root
    && (forall k :: |root| <= k < |f.path| ==> f.path[k].Normal?)
    && (forall k :: |root| <= k <= |f.path| ==> !IsHiddenPath(f.path[..k]))
    && f.name == ToStringLossy(f.path[|f.path| - 1].name)
  }

  /**
   * `f` is reached through the listing of `path`: its path is that of a `File`
   * entry of the listing, or of a file listed in the listing of one of its
   * `Dir` entries.
   */
  ghost predicate ListedIn(path: Path, listing: Listing, f: FileNode)
    decreases listing, 1
  {
    listing.Entries? && exists i :: 0 <= i < |listing.items| && ListedAt(path, listing, i, f)
  }

  /** `f` is reached through entry `i` of the listing of `path`. */
  ghost predicate ListedAt(path: Path, listing: Listing, i: nat, f: FileNode)
    requires listing.Entries? && i < |listing.items|
    decreases listing, 0
  {
    var e := listing.items[i];
    match e.kind
    case File => f.path == Child(path, e.name)
    case Dir(sub) => ListedIn(Child(path, e.name), sub, f)
    case Other => false
  }

  lemma PreorderMember(node: DirNode, f: FileNode)
    requires f in Preorder(node)
    ensures f in node.files || exists k :: 0 <= k < |node.subdirs| && f in Preorder(node.subdirs[k])
  {
    if f !in node.files {
      PreorderOfMember(node, |node.subdirs|, f);
    }
  }

  lemma {:induction false} PreorderOfMember(node: DirNode, n: nat, f: FileNode)
    requires n <= |node.subdirs| && f in PreorderOf(node, n)
    ensures exists k :: 0 <= k < n && f in Preorder(node.subdirs[k])
  {
    if f !in Preorder(node.subdirs[n - 1]) {
      PreorderOfMember(node, n - 1, f);
    }
  }

  /**
   * Only listed, visible files are indexed: every file of the tree is reached
   * through the listing's entries, and nothing hidden, and nothing below a
   * hidden directory, ever enters the tree.
   */
  lemma {:induction false} TreeOfIndexesVisibleFiles(path: Path, listing: Listing, f: FileNode)
    requires f in Preorder(TreeOf(path, listing))
    ensures IndexedUnder(path, f) && ListedIn(path, listing, f)
    decreases listing, 1
  {
    ScanIndexesVisibleFiles(path, listing, |listing.items|, f);
  }

  lemma {:induction false} ScanIndexesVisibleFiles(path: Path, listing: Listing, n: nat, f: FileNode)
    requires listing.Entries? && n <= |listing.items| && !IsHiddenPath(path)
    requires f in Preorder(Scan(path, listing, n))
    ensures IndexedUnder(path, f) && ListedIn(path, listing, f)
    decreases listing, 0, n
  {
    var acc := Scan(path, listing, n - 1);
    var e := listing.items[n - 1];
    var p := Child(path, e.name);
    var node := Scan(path, listing, n);
    if node == acc {
      ScanIndexesVisibleFiles(path, listing, n - 1, f);
    } else {
      PreorderMember(node, f);
      match e.kind
      case File =>
        var g := FileNode(ToStringLossy(e.name), p);
        assert node.files == acc.files + [g];
        if f == g {
          assert f.path[..|path|] == path;
          forall k | |path| <= k <= |f.path|
            ensures !IsHiddenPath(f.path[..k])
          {
            if k == |path| { assert f.path[..k] == path; } else { assert f.path[..k] == p; }
          }
          assert ListedAt(path, listing, n - 1, f);
        } else {
          PreorderKeep(acc, node, f);
          ScanIndexesVisibleFiles(path, listing, n - 1, f);
        }
      case Dir(sub) =>
        var t := TreeOf(p, sub);
        assert node.subdirs == acc.subdirs + [t];
        if f in Preorder(t) {
          TreeOfIndexesVisibleFiles(p, sub, f);
          DescendUnder(path, p, f);
          assert ListedAt(path, listing, n - 1, f);
        } else {
          PreorderKeep(acc, node, f);
          ScanIndexesVisibleFiles(path, listing, n - 1, f);
        }
      case Other =>
    }
  }

  /** A file found under `dir/name` of a visible `dir` is also found under `dir`. */
  lemma DescendUnder(dir: Path, p: Path, f: FileNode)
    requires |p| == |dir| + 1 && p[..|dir|] == dir && p[|dir|].Normal? && !IsHiddenPath(dir)
    requires IndexedUnder(p, f)
    ensures IndexedUnder(dir, f)
  {
    assert f.path[..|dir|] == p[..|dir|];
    assert f.path[|dir|] == p[|dir|];
    forall k | |dir| <= k <= |f.path|
      ensures !IsHiddenPath(f.path[..k])
    {
      if k == |dir| { assert f.path[..k] == dir; }
    }
  }

  /** A file of the grown node that is not the newly added one was already in the old node's pre-order. */
  lemma PreorderKeep(acc: DirNode, node: DirNode, f: FileNode)
    requires f in Preorder(node)
    requires (exists g :: node.files == acc.files + [g] && f != g && node.subdirs == acc.subdirs)
          || (exists t :: node.subdirs == acc.subdirs + [t] && f !in Preorder(t) && node.files == acc.files)
    ensures f in Preorder(acc)
  {
    PreorderMember(node, f);
    if f in node.files {
      assert f in acc.files;
    } else {
      var k :| 0 <= k < |node.subdirs| && f in Preorder(node.subdirs[k]);
      assert k < |acc.subdirs| && node.subdirs[k] == acc.subdirs[k];
      PreorderOfHas(acc, |acc.subdirs|, k, f);
    }
  }

  lemma {:induction false} PreorderOfHas(node: DirNode, n: nat, k: nat, f: FileNode)
    requires k < n <= |node.subdirs| && f in Preorder(node.subdirs[k])
    ensures f in PreorderOf(node, n)
  {
    if k < n - 1 {
      PreorderOfHas(node, n - 1, k, f);
    }
  }

  // ================================================================ the index store

  /** `AppState.tree`: `None` until the indexing thread stores its tree. */
  class IndexState {
    var tree: Option<DirNode>

    ghost predicate Valid()
      reads this
    {
      tree.Some? ==> WellIndexed(tree.value)
    }

    constructor ()
      ensures Valid() && tree == None
    {
      tree := None;
    }

    /** The body of the thread `build_index` spawns: build the tree for `root` and store it in one step. */
    method BuildIndex(root: Path, listing: Listing)
      modifies this
      ensures Valid() && tree == Some(TreeOf(root, listing))
    {
      var t := BuildTree(root, listing);
      TreeOfWellIndexed(root, listing);
      tree := Some(t);
    }

    /** `is_index_done`. */
    method IsIndexDone() returns (done: bool)
      ensures done <==> tree.Some?
    {
      done := tree.Some?;
    }

    /** `search_index`: search the stored tree from an empty vector, or return nothing before indexing finished. */
    method SearchIndex(query: string) returns (results: seq<Path>)
      requires Valid()
      ensures tree.None? ==> results == []
      ensures tree.Some? ==> results == Found(tree.value, Lower(query))
      ensures tree.Some? ==> results == Matches(Preorder(tree.value), Lower(query))
    {
      results := [];
      if tree.Some? {
        results := SearchTree(tree.value, query, results);
        SearchIsPreorderFilter(tree.value, Lower(query));
      }
    }
  }
}
