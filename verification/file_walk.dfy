/** The file index walk of the command bar: a work list over directories against the recursive definition. */
module FileWalk {
  import opened Sequences
  import opened Wrappers
  import opened Sorting

  /** What the file system shows of one directory entry; a name that is not UTF-8 is `None`. */
  datatype Entry = Entry(name: Option<string>, kind: Kind)

  datatype Kind =
    | File(modifiedAt: Option<int>)
    | Dir(listing: Listing)
    | Special         // neither a regular file nor a directory
    | Unreadable      // its type cannot be read

  /** What reading a directory gives. */
  datatype Listing = Listed(entries: seq<Entry>) | Denied

  datatype IndexEntry = IndexEntry(path: string, repo: string, modifiedAt: Option<int>)

  const FILE_INDEX_MAX_ENTRIES: nat := 50_000

  const SKIPPED_DIRS: set<string> :=
    {".git", ".worktrees", ".claude", "node_modules", "target", "dist", "build", ".next", ".turbo", ".vite",
     ".vercel", ".cache", ".pnpm-store"}

  function Join(prefix: string, name: string): string {
    if prefix == "" then name else prefix + "/" + name
  }

  predicate IsDotFile(name: string) {
    name != "" && name[0] == '.'
  }

  // ---- the recursive definition -----------------------------------------------------------------------

  function OfEntry(prefix: string, e: Entry, repo: string): seq<IndexEntry>
    decreases e
  {
    if e.name.None? then []
    else
      var name := e.name.value;
      match e.kind
      case File(modifiedAt) =>
        if IsDotFile(name) then [] else [IndexEntry(Join(prefix, name), repo, modifiedAt)]
      case Dir(Listed(children)) =>
        if name in SKIPPED_DIRS then [] else OfDir(Join(prefix, name), children, repo)
      case _ => []
  }

  /** Every file to index below a directory: no dotfile, and nothing under a skipped directory. */
  function OfDir(prefix: string, children: seq<Entry>, repo: string): seq<IndexEntry>
    decreases children
  {
    if children == [] then [] else OfEntry(prefix, children[0], repo) + OfDir(prefix, children[1..], repo)
  }

  // ---- the work list --------------------------------------------------------------------------------------

  /** A directory still to be read, by its path relative to the root. */
  datatype Pending = Pending(prefix: string, listing: Listing)

  function OfPending(p: Pending, repo: string): seq<IndexEntry> {
    if p.listing.Denied? then [] else OfDir(p.prefix, p.listing.entries, repo)
  }

  function OfStack(stack: seq<Pending>, repo: string): seq<IndexEntry> {
    if stack == [] then [] else OfStack(stack[..|stack| - 1], repo) + OfPending(stack[|stack| - 1], repo)
  }

  function EntrySize(e: Entry): nat
    decreases e
  {
    if e.kind.Dir? && e.kind.listing.Listed? then 2 + DirSize(e.kind.listing.entries) else 2
  }

  function DirSize(children: seq<Entry>): nat
    decreases children
  {
    if children == [] then 0 else EntrySize(children[0]) + DirSize(children[1..])
  }

  function StackSize(stack: seq<Pending>): nat {
    if stack == [] then 0
    else
      var top := stack[|stack| - 1];
      StackSize(stack[..|stack| - 1]) + 1 + if top.listing.Listed? then DirSize(top.listing.entries) else 0
  }

  lemma Push(stack: seq<Pending>, p: Pending, repo: string)
    ensures OfStack(stack + [p], repo) == OfStack(stack, repo) + OfPending(p, repo)
    ensures StackSize(stack + [p]) == StackSize(stack) + 1 + if p.listing.Listed? then DirSize(p.listing.entries) else 0
  {
    assert (stack + [p])[..|stack|] == stack;
  }

  /** Lexicographic order, as Rust compares strings. */
  predicate StringLe(a: string, b: string) {
    a == "" || (b != "" && (a[0] < b[0] || (a[0] == b[0] && StringLe(a[1..], b[1..]))))
  }

  predicate ByPath(a: IndexEntry, b: IndexEntry) {
    StringLe(a.path, b.path)
  }

  /** What the loops keep: files found, files below the stack and files still ahead make up all files. */
  ghost predicate Accounted(out: seq<IndexEntry>, stack: seq<Pending>, ahead: seq<IndexEntry>, all: seq<IndexEntry>, repo: string) {
    multiset(out) + multiset(OfStack(stack, repo)) + multiset(ahead) == multiset(all)
  }

  lemma Progress(out: seq<IndexEntry>, stack: seq<Pending>, prefix: string, children: seq<Entry>, i: nat, all: seq<IndexEntry>, repo: string)
    requires i < |children| && Accounted(out, stack, OfDir(prefix, children[i..], repo), all, repo)
    ensures var e := children[i];
            && multiset(out) + multiset(OfStack(stack, repo)) + multiset(OfEntry(prefix, e, repo))
               + multiset(OfDir(prefix, children[i + 1..], repo)) == multiset(all)
            && DirSize(children[i..]) == EntrySize(e) + DirSize(children[i + 1..])
  {
    assert children[i..][1..] == children[i + 1..];
  }

  method ReadDir(prefix: string, children: seq<Entry>, repo: string, found: seq<IndexEntry>, rest: seq<Pending>, ghost all: seq<IndexEntry>)
    returns (out: seq<IndexEntry>, stack: seq<Pending>)
    requires |found| < FILE_INDEX_MAX_ENTRIES
    requires Accounted(found, rest, OfDir(prefix, children, repo), all, repo)
    ensures |out| < FILE_INDEX_MAX_ENTRIES ==> Accounted(out, stack, [], all, repo)
    ensures |out| <= FILE_INDEX_MAX_ENTRIES && multiset(out) <= multiset(all)
    ensures StackSize(stack) <= StackSize(rest) + DirSize(children)
  {
    out, stack := found, rest;
    assert children[0..] == children;
    for i := 0 to |children|
      invariant |out| < FILE_INDEX_MAX_ENTRIES
      invariant Accounted(out, stack, OfDir(prefix, children[i..], repo), all, repo)
      invariant StackSize(stack) + DirSize(children[i..]) <= StackSize(rest) + DirSize(children)
    {
      Progress(out, stack, prefix, children, i, all, repo);
      var e := children[i];
      if e.name.None? {
        continue;
      }
      var name := e.name.value;
      match e.kind
      case Dir(inner) =>
        if name in SKIPPED_DIRS {
          continue;
        }
        Push(stack, Pending(Join(prefix, name), inner), repo);
        stack := stack + [Pending(Join(prefix, name), inner)];
      case File(modifiedAt) =>
        if IsDotFile(name) {
          continue;
        }
        out := out + [IndexEntry(Join(prefix, name), repo, modifiedAt)];
        if |out| >= FILE_INDEX_MAX_ENTRIES {
          break;
        }
      case _ =>
        continue;
    }
  }

  lemma Pop(out: seq<IndexEntry>, stack: seq<Pending>, all: seq<IndexEntry>, repo: string)
    requires stack != [] && Accounted(out, stack, [], all, repo)
    ensures var top, rest := stack[|stack| - 1], stack[..|stack| - 1];
            Accounted(out, rest, OfPending(top, repo), all, repo)
            && StackSize(stack)
               == StackSize(rest) + 1 + if top.listing.Listed? then DirSize(top.listing.entries) else 0
  {
  }

  lemma Started(root: Listing, repo: string)
    ensures var all := OfPending(Pending("", root), repo); Accounted([], [Pending("", root)], [], all, repo)
  {
    Push([], Pending("", root), repo);
    assert [] + [Pending("", root)] == [Pending("", root)];
    assert OfStack([], repo) == [];
  }

  lemma SortingIndex(out: seq<IndexEntry>)
    ensures Sorted(StableSort(out, ByPath), ByPath) && multiset(StableSort(out, ByPath)) == multiset(out)
  {
    ByPathIsOrder();
    StableSortSorts(out, ByPath);
  }

  /** Walks the tree below a root and returns the index sorted by path. */
  method WalkRepo(root: Listing, repo: string) returns (index: seq<IndexEntry>)
    ensures var all := OfPending(Pending("", root), repo);
            && multiset(index) <= multiset(all)
            && |index| == (if |all| <= 50_000 then |all| else 50_000)
            && (|all| <= 50_000 ==> multiset(index) == multiset(all))
    ensures Sorted(index, ByPath)
  {
    var out: seq<IndexEntry> := [];
    var stack := [Pending("", root)];
    ghost var all := OfPending(Pending("", root), repo);
    Started(root, repo);
    while stack != []
      invariant |out| < FILE_INDEX_MAX_ENTRIES ==> Accounted(out, stack, [], all, repo)
      invariant |out| <= FILE_INDEX_MAX_ENTRIES && multiset(out) <= multiset(all)
      decreases StackSize(stack)
    {
      if |out| < FILE_INDEX_MAX_ENTRIES {
        Pop(out, stack, all, repo);
      }
      var top := stack[|stack| - 1];
      stack := stack[..|stack| - 1];
      if |out| >= FILE_INDEX_MAX_ENTRIES {
        break;
      }
      if top.listing.Listed? {
        out, stack := ReadDir(top.prefix, top.listing.entries, repo, out, stack, all);
      }
    }
    SizesAgree(out, all);
    SortingIndex(out);
    index := StableSort(out, ByPath);
  }

  lemma SizesAgree(out: seq<IndexEntry>, all: seq<IndexEntry>)
    requires |out| <= FILE_INDEX_MAX_ENTRIES && multiset(out) <= multiset(all)
    requires |out| < FILE_INDEX_MAX_ENTRIES ==> multiset(out) == multiset(all)
    ensures |out| == if |all| <= FILE_INDEX_MAX_ENTRIES then |all| else FILE_INDEX_MAX_ENTRIES
    ensures |all| <= FILE_INDEX_MAX_ENTRIES ==> multiset(out) == multiset(all)
  {
    assert |multiset(out)| == |out| && |multiset(all)| == |all|;
    assert multiset(all) == multiset(out) + (multiset(all) - multiset(out));
  }

  // ---- the order on paths ---------------------------------------------------------------------------------

  lemma {:induction false} StringLeTotal(a: string, b: string)
    ensures StringLe(a, b) || StringLe(b, a)
    ensures StringLe(a, b) && StringLe(b, a) ==> a == b
  {
    if a != "" && b != "" && a[0] == b[0] {
      StringLeTotal(a[1..], b[1..]);
    }
  }

  /** A string is not after another if it begins it, or has the smaller character where they first differ. */
  lemma {:induction false} StringLeMeans(a: string, b: string)
    ensures StringLe(a, b) <==> a <= b || exists k :: 0 <= k < |a| && k < |b| && a[..k] == b[..k] && a[k] < b[k]
  {
    if a != "" && b != "" {
      var s, t := a[1..], b[1..];
      StringLeMeans(s, t);
      if a[0] == b[0] {
        assert a <= b <==> s <= t;
        if k :| 0 <= k < |s| && k < |t| && s[..k] == t[..k] && s[k] < t[k] {
          assert a[..k + 1] == [a[0]] + s[..k] && b[..k + 1] == [b[0]] + t[..k];
          assert a[k + 1] < b[k + 1];
        }
        if k :| 0 <= k < |a| && k < |b| && a[..k] == b[..k] && a[k] < b[k] {
          assert k > 0;
          assert s[..k - 1] == a[..k][1..] && t[..k - 1] == b[..k][1..];
          assert s[k - 1] < t[k - 1];
        }
      } else {
        assert a[..0] == b[..0];
        if k :| 0 <= k < |a| && k < |b| && a[..k] == b[..k] && a[k] < b[k] {
          assert k > 0 ==> a[..k][0] == b[..k][0];
        }
      }
    }
  }

  lemma {:induction false} StringLeTransitive(a: string, b: string, c: string)
    requires StringLe(a, b) && StringLe(b, c)
    ensures StringLe(a, c)
  {
    if a != "" && a[0] == b[0] && b[0] == c[0] {
      StringLeTransitive(a[1..], b[1..], c[1..]);
    }
  }

  lemma ByPathIsOrder()
    ensures TotalPreorder(ByPath)
  {
    forall a, b
      ensures ByPath(a, b) || ByPath(b, a)
    {
      StringLeTotal(a.path, b.path);
    }
    forall a, b, c | ByPath(a, b) && ByPath(b, c)
      ensures ByPath(a, c)
    {
      StringLeTransitive(a.path, b.path, c.path);
    }
  }

  // ---- each file once -------------------------------------------------------------------------------------

  predicate NoSlash(s: string) {
    forall i :: 0 <= i < |s| ==> s[i] != '/'
  }

  /** What a file system guarantees: names are non-empty, have no slash, and differ within a directory. */
  ghost predicate WellNamed(children: seq<Entry>)
    decreases children
  {
    && (forall i :: 0 <= i < |children| && children[i].name.Some? ==>
          children[i].name.value != "" && NoSlash(children[i].name.value))
    && (forall i, j :: 0 <= i < j < |children| && children[i].name.Some? ==> children[i].name != children[j].name)
    && (forall i :: 0 <= i < |children| ==> WellNamedBelow(children[i]))
  }

  ghost predicate WellNamedBelow(e: Entry)
    decreases e
  {
    e.kind.Dir? && e.kind.listing.Listed? ==> WellNamed(e.kind.listing.entries)
  }

  /** The path is that name below the prefix, or something below that. */
  ghost predicate Through(prefix: string, name: string, path: string) {
    path == Join(prefix, name) || Join(prefix, name) + "/" <= path
  }

  lemma ThroughOne(prefix: string, n: string, m: string, path: string)
    requires NoSlash(n) && NoSlash(m) && Through(prefix, n, path) && Through(prefix, m, path)
    ensures n == m
  {
    var k := if prefix == "" then 0 else |prefix| + 1;
    var rest := path[k..];
    assert n <= rest && (|rest| > |n| ==> rest[|n|] == '/');
    assert m <= rest && (|rest| > |m| ==> rest[|m|] == '/');
    assert forall i :: 0 <= i < |n| ==> rest[i] == n[i];
    assert forall i :: 0 <= i < |m| ==> rest[i] == m[i];
  }

  lemma ThroughTransitive(prefix: string, name: string, inner: string, path: string)
    requires name != "" && Through(Join(prefix, name), inner, path)
    ensures Through(prefix, name, path)
  {
    var dir := Join(prefix, name);
    assert dir + "/" <= Join(dir, inner);
  }

  lemma {:induction false} EntryThrough(prefix: string, e: Entry, repo: string, x: IndexEntry)
    requires x in OfEntry(prefix, e, repo) && e.name.Some? && e.name.value != ""
    requires WellNamedBelow(e)
    ensures Through(prefix, e.name.value, x.path)
    decreases e, 1
  {
    if e.kind.Dir? {
      var inner := DirThrough(Join(prefix, e.name.value), e.kind.listing.entries, repo, x);
      ThroughTransitive(prefix, e.name.value, e.kind.listing.entries[inner].name.value, x.path);
    }
  }

  lemma {:induction false} DirThrough(prefix: string, children: seq<Entry>, repo: string, x: IndexEntry) returns (i: nat)
    requires WellNamed(children) && x in OfDir(prefix, children, repo)
    ensures i < |children| && children[i].name.Some? && Through(prefix, children[i].name.value, x.path)
    decreases children, 0
  {
    if x in OfEntry(prefix, children[0], repo) {
      EntryThrough(prefix, children[0], repo, x);
      i := 0;
    } else {
      i := DirThrough(prefix, children[1..], repo, x);
      i := i + 1;
    }
  }

  ghost predicate DistinctPaths(s: seq<IndexEntry>) {
    forall i, j :: 0 <= i < j < |s| ==> s[i].path != s[j].path
  }

  lemma {:induction false} EntryOnce(prefix: string, e: Entry, repo: string)
    requires WellNamedBelow(e)
    ensures DistinctPaths(OfEntry(prefix, e, repo))
    decreases e
  {
    if e.name.Some? && e.kind.Dir? && e.kind.listing.Listed? {
      EachOnce(Join(prefix, e.name.value), e.kind.listing.entries, repo);
    }
  }

  /** No path is listed twice. */
  lemma {:induction false} EachOnce(prefix: string, children: seq<Entry>, repo: string)
    requires WellNamed(children)
    ensures DistinctPaths(OfDir(prefix, children, repo))
    decreases children
  {
    if children != [] {
      var e, rest := children[0], children[1..];
      var here, there := OfEntry(prefix, e, repo), OfDir(prefix, rest, repo);
      EntryOnce(prefix, e, repo);
      EachOnce(prefix, rest, repo);
      forall x, y | x in here && y in there
        ensures x.path != y.path
      {
        EntryThrough(prefix, e, repo, x);
        var i := DirThrough(prefix, rest, repo, y);
        if x.path == y.path {
          ThroughOne(prefix, e.name.value, rest[i].name.value, x.path);
        }
      }
    }
  }

  /** On a well-named tree the index lists each of its files once, in strictly increasing order of path. */
  lemma IndexIsStrict(root: seq<Entry>, repo: string, index: seq<IndexEntry>)
    requires WellNamed(root)
    requires multiset(index) <= multiset(OfDir("", root, repo)) && Sorted(index, ByPath)
    ensures forall i, j :: 0 <= i < j < |index| ==> StringLe(index[i].path, index[j].path) && index[i].path != index[j].path
  {
    var all := OfDir("", root, repo);
    EachOnce("", root, repo);
    forall i, j | 0 <= i < j < |index|
      ensures index[i].path != index[j].path
    {
      if index[i].path == index[j].path {
        TwoInMultiset(index, i, j, all);
      }
    }
  }

  lemma TwoInMultiset(index: seq<IndexEntry>, i: nat, j: nat, all: seq<IndexEntry>)
    requires i < j < |index| && multiset(index) <= multiset(all) && DistinctPaths(all)
    ensures index[i].path != index[j].path
  {
    assert index[i] in multiset(index) && index[j] in multiset(index);
    var a :| 0 <= a < |all| && all[a] == index[i];
    var b :| 0 <= b < |all| && all[b] == index[j];
    if index[i] == index[j] {
      CountedTwice(index, i, j);
      OnlyOnce(all, a);
    }
  }

  lemma CountedTwice(s: seq<IndexEntry>, i: nat, j: nat)
    requires i < j < |s| && s[i] == s[j]
    ensures multiset(s)[s[i]] >= 2
  {
    assert s == s[..j] + s[j..];
    assert s[i] in multiset(s[..j]) by { assert s[..j][i] == s[i]; }
    assert s[j] in multiset(s[j..]) by { assert s[j..][0] == s[j]; }
  }

  lemma OnlyOnce(all: seq<IndexEntry>, a: nat)
    requires a < |all| && DistinctPaths(all)
    ensures multiset(all)[all[a]] == 1
  {
    assert all == all[..a] + [all[a]] + all[a + 1..];
    assert all[a] !in all[..a] && all[a] !in all[a + 1..];
  }

  /** A path whose last name does not start with a dot, and whose other names are none of the thirteen. */
  predicate CleanPath(parts: seq<string>) {
    && parts != [] && !("." <= parts[|parts| - 1])
    && forall i :: 0 <= i < |parts| - 1 ==>
         parts[i] !in {".git", ".worktrees", ".claude", "node_modules", "target", "dist", "build", ".next", ".turbo",
                       ".vite", ".vercel", ".cache", ".pnpm-store"}
  }

  /** The names with a slash between each two of them. */
  function Slashed(parts: seq<string>): string {
    if parts == [] then "" else if |parts| == 1 then parts[0] else parts[0] + "/" + Slashed(parts[1..])
  }

  lemma {:induction false} JoinedBelow(prefix: string, parts: seq<string>)
    requires prefix != ""
    ensures JoinAll(prefix, parts) == if parts == [] then prefix else prefix + "/" + Slashed(parts)
    decreases parts
  {
    if parts != [] {
      var rest := parts[1..];
      JoinedBelow(Join(prefix, parts[0]), rest);
      if rest != [] {
        ConcatAssociates(prefix + "/", parts[0], "/" + Slashed(rest));
        ConcatAssociates(prefix + "/" + parts[0], "/", Slashed(rest));
        ConcatAssociates(parts[0], "/", Slashed(rest));
      }
    }
  }

  /** The path of a file is its names, slash by slash. */
  lemma PathIsSlashed(parts: seq<string>)
    requires forall i :: 0 <= i < |parts| ==> parts[i] != ""
    ensures JoinAll("", parts) == Slashed(parts)
  {
    if parts != [] {
      JoinedBelow(parts[0], parts[1..]);
    }
  }

  function JoinAll(prefix: string, parts: seq<string>): string
    decreases parts
  {
    if parts == [] then prefix else JoinAll(Join(prefix, parts[0]), parts[1..])
  }

  /** The tree has a file at that path, followed name by name from the root. */
  ghost predicate HasFile(children: seq<Entry>, parts: seq<string>, modifiedAt: Option<int>)
    decreases parts
  {
    parts != [] && exists i :: 0 <= i < |children| && FileAt(children[i], parts, modifiedAt)
  }

  ghost predicate FileAt(e: Entry, parts: seq<string>, modifiedAt: Option<int>)
    requires parts != []
    decreases parts, 0
  {
    && e.name == Some(parts[0])
    && if |parts| == 1 then e.kind == File(modifiedAt)
       else e.kind.Dir? && e.kind.listing.Listed? && HasFile(e.kind.listing.entries, parts[1..], modifiedAt)
  }

  lemma {:induction false} EntryIsClean(prefix: string, e: Entry, repo: string, x: IndexEntry) returns (parts: seq<string>)
    requires x in OfEntry(prefix, e, repo)
    ensures CleanPath(parts) && x.path == JoinAll(prefix, parts) && x.repo == repo && FileAt(e, parts, x.modifiedAt)
    decreases e, 1
  {
    if e.kind.File? {
      parts := [e.name.value];
      assert parts[1..] == [];
    } else {
      var inner := DirIsClean(Join(prefix, e.name.value), e.kind.listing.entries, repo, x);
      parts := [e.name.value] + inner;
      assert parts[1..] == inner;
    }
  }

  /** Every indexed path is that of a file, ends in no dotfile and passes through no skipped directory. */
  lemma {:induction false} DirIsClean(prefix: string, children: seq<Entry>, repo: string, x: IndexEntry) returns (parts: seq<string>)
    requires x in OfDir(prefix, children, repo)
    ensures CleanPath(parts) && x.path == JoinAll(prefix, parts) && x.repo == repo && HasFile(children, parts, x.modifiedAt)
    decreases children, 0
  {
    if x in OfEntry(prefix, children[0], repo) {
      parts := EntryIsClean(prefix, children[0], repo, x);
    } else {
      parts := DirIsClean(prefix, children[1..], repo, x);
      var i :| 0 <= i < |children[1..]| && FileAt(children[1..][i], parts, x.modifiedAt);
      assert children[i + 1] == children[1..][i];
    }
  }

  lemma {:induction false} InOneEntry(prefix: string, children: seq<Entry>, repo: string, i: nat, x: IndexEntry)
    requires i < |children| && x in OfEntry(prefix, children[i], repo)
    ensures x in OfDir(prefix, children, repo)
  {
    if i > 0 {
      InOneEntry(prefix, children[1..], repo, i - 1, x);
    }
  }

  lemma FileBelow(e: Entry, parts: seq<string>, modifiedAt: Option<int>)
    requires |parts| > 1 && FileAt(e, parts, modifiedAt)
    ensures e.kind.Dir? && e.kind.listing.Listed? && HasFile(e.kind.listing.entries, parts[1..], modifiedAt)
  {
  }

  lemma {:induction false} CleanInEntry(prefix: string, e: Entry, repo: string, parts: seq<string>, modifiedAt: Option<int>)
    requires CleanPath(parts) && FileAt(e, parts, modifiedAt)
    ensures IndexEntry(JoinAll(prefix, parts), repo, modifiedAt) in OfEntry(prefix, e, repo)
    decreases parts, 0
  {
    var rest := parts[1..];
    if rest == [] {
      assert JoinAll(prefix, parts) == Join(prefix, parts[0]);
    } else {
      assert rest[|rest| - 1] == parts[|parts| - 1] && forall k :: 0 <= k < |rest| ==> rest[k] == parts[k + 1];
      assert parts[0] !in SKIPPED_DIRS;
      FileBelow(e, parts, modifiedAt);
      CleanIsIndexed(Join(prefix, parts[0]), e.kind.listing.entries, repo, rest, modifiedAt);
      assert OfEntry(prefix, e, repo) == OfDir(Join(prefix, parts[0]), e.kind.listing.entries, repo);
    }
  }

  /** Every file at a clean path is indexed. */
  lemma {:induction false} CleanIsIndexed(prefix: string, children: seq<Entry>, repo: string, parts: seq<string>, modifiedAt: Option<int>)
    requires CleanPath(parts) && HasFile(children, parts, modifiedAt)
    ensures IndexEntry(JoinAll(prefix, parts), repo, modifiedAt) in OfDir(prefix, children, repo)
    decreases parts, 1
  {
    var i :| 0 <= i < |children| && FileAt(children[i], parts, modifiedAt);
    CleanInEntry(prefix, children[i], repo, parts, modifiedAt);
    InOneEntry(prefix, children, repo, i, IndexEntry(JoinAll(prefix, parts), repo, modifiedAt));
  }

  /** The recursive definition lists exactly the files at clean paths. */
  lemma IndexedExactly(root: seq<Entry>, repo: string, x: IndexEntry)
    ensures x in OfDir("", root, repo) <==>
            x.repo == repo
            && exists parts :: CleanPath(parts) && HasFile(root, parts, x.modifiedAt) && x.path == JoinAll("", parts)
  {
    if x in OfDir("", root, repo) {
      var parts := DirIsClean("", root, repo, x);
    }
    if parts :| x.repo == repo && CleanPath(parts) && HasFile(root, parts, x.modifiedAt) && x.path == JoinAll("", parts) {
      CleanIsIndexed("", root, repo, parts, x.modifiedAt);
    }
  }
}
