/** Archives of a file tree (internal/pipeline/archive.go) and their extraction
    (internal/pipeline/extract.go), with the files a resumed transfer skips. */
module Archives {
  import opened Outcomes
  import opened Paths

  /** An entry of a tree, or of its tar archive. A link is confined when its target is relative and
      stays inside the tree. */
  datatype Entry =
    | DirEntry(path: Path)
    | FileEntry(path: Path, content: Content)
    | LinkEntry(path: Path, target: string, confined: bool)

  datatype Item = Directory | Regular(content: Content) | Link(target: string)

  type Tree = map<Path, Item>

  /** Files received in full, by path. */
  type Completed = map<Path, Digest>

  datatype ExtractError = NotADirectory | IsADirectory | NotEmpty | Escapes | Truncated

  // ---- The sender ----

  /** A file the receiver already has: its current content still hashes to what the receiver reported. */
  predicate Skips(skip: Completed, e: Entry) {
    e.FileEntry? && e.path in skip && skip[e.path] == ContentHash(e.content)
  }

  /** The entries that are sent, in the order of the walk. */
  function Archive(source: seq<Entry>, skip: Completed): seq<Entry> {
    if source == [] then []
    else
      var front := Archive(source[..|source| - 1], skip);
      if Skips(skip, source[|source| - 1]) then front else front + [source[|source| - 1]]
  }

  method WalkAndAdd(source: seq<Entry>, skip: Completed) returns (archive: seq<Entry>)
    ensures archive == Archive(source, skip)
  {
    archive := [];
    for i := 0 to |source|
      invariant archive == Archive(source[..i], skip)
    {
      assert source[..i + 1][..i] == source[..i];
      var e := source[i];
      if e.FileEntry? && |skip| > 0 && e.path in skip && ContentHash(e.content) == skip[e.path] {
        continue;
      }
      archive := archive + [e];
    }
    assert source[..|source|] == source;
  }

  lemma {:induction false} ArchiveHas(source: seq<Entry>, skip: Completed, e: Entry)
    ensures e in Archive(source, skip) <==> e in source && !Skips(skip, e)
  {
    if source != [] {
      ArchiveHas(source[..|source| - 1], skip, e);
      assert source == source[..|source| - 1] + [source[|source| - 1]];
    }
  }

  predicate DistinctPaths(entries: seq<Entry>) {
    forall i, j :: 0 <= i < j < |entries| ==> entries[i].path != entries[j].path
  }

  lemma {:induction false} ArchiveDistinct(source: seq<Entry>, skip: Completed)
    requires DistinctPaths(source)
    ensures DistinctPaths(Archive(source, skip))
  {
    if source != [] {
      var front := source[..|source| - 1];
      ArchiveDistinct(front, skip);
      forall e | e in Archive(front, skip) ensures e.path != source[|source| - 1].path {
        ArchiveHas(front, skip, e);
      }
    }
  }

  // ---- The receiver ----

  /** MkdirAll. `p` may be the root of the tree. */
  function MkdirAll(t: Tree, p: seq<Name>): Result<Tree, ExtractError> {
    if p == [] then Ok(t)
    else if p in t then
      if t[p].Directory? then Ok(t) else Err(NotADirectory)
    else
      match MkdirAll(t, p[..|p| - 1])
      case Err(e) => Err(e)
      case Ok(t1) => Ok(t1[p := Directory])
  }

  predicate HasChild(t: Tree, p: Path) {
    exists q :: q in t && p < q
  }

  /** The tree once `content` has been written to the file at `p`, opened with O_TRUNC. */
  function Written(t: Tree, p: Path, content: Content): Result<Tree, ExtractError> {
    match MkdirAll(t, Dir(p))
    case Err(e) => Err(e)
    case Ok(t1) => if p in t1 && !t1[p].Regular? then Err(IsADirectory) else Ok(t1[p := Regular(content)])
  }

  /** One whole entry. Where links are unsupported a link is removed but not created. */
  function ExtractEntry(t: Tree, e: Entry, links: bool): Result<Tree, ExtractError> {
    match e
    case DirEntry(p) => MkdirAll(t, p)
    case FileEntry(p, content) => Written(t, p, content)
    case LinkEntry(p, target, confined) =>
      if !confined then Err(Escapes)
      else
        match MkdirAll(t, Dir(p))
        case Err(x) => Err(x)
        case Ok(t1) =>
          if p in t1 && t1[p].Directory? && HasChild(t1, p) then Err(NotEmpty)
          else Ok(if links then t1[p := Link(target)] else t1 - {p})
  }

  /** Where a stream breaks off: after `k` whole entries, or `partial` bytes into the next. */
  datatype Cut = Cut(k: nat, partial: Option<nat>)

  datatype Extraction = Extraction(tree: Tree, completed: Completed, error: Option<ExtractError>)

  function Noted(completed: Completed, e: Entry): Completed {
    if e.FileEntry? then completed[e.path := ContentHash(e.content)] else completed
  }

  /** One entry more, unless one has failed. */
  function ExtractNext(r: Extraction, e: Entry, links: bool): Extraction {
    if r.error.Some? then r
    else
      match ExtractEntry(r.tree, e, links)
      case Err(x) => r.(error := Some(x))
      case Ok(t) => Extraction(t, Noted(r.completed, e), None)
  }

  /** The first `k` entries, extracted until one fails. */
  function Extracted(t: Tree, completed: Completed, archive: seq<Entry>, k: nat, links: bool): Extraction
    requires k <= |archive|
  {
    if k == 0 then Extraction(t, completed, None)
    else ExtractNext(Extracted(t, completed, archive, k - 1, links), archive[k - 1], links)
  }

  /** The next entry, of which only `partial` bytes of content came. */
  function Broken(r: Extraction, archive: seq<Entry>, cut: Cut): Extraction
    requires cut.k <= |archive|
  {
    if r.error.Some? then r
    else if cut.k == |archive| || cut.partial.None? || !archive[cut.k].FileEntry? then r.(error := Some(Truncated))
    else
      var e := archive[cut.k];
      var n := if cut.partial.value < |e.content| then cut.partial.value else |e.content|;
      match Written(r.tree, e.path, e.content[..n])
      case Err(x) => r.(error := Some(x))
      case Ok(t) => Extraction(t, r.completed, Some(Truncated))
  }

  function ExtractedUpTo(t: Tree, completed: Completed, archive: seq<Entry>, cut: Option<Cut>, links: bool): Extraction
    requires cut.Some? ==> cut.value.k <= |archive|
  {
    if cut.None? then Extracted(t, completed, archive, |archive|, links)
    else Broken(Extracted(t, completed, archive, cut.value.k, links), archive, cut.value)
  }

  class Sandbox {
    var tree: Tree
    var completed: Completed

    constructor (tree: Tree, completed: Completed)
      ensures this.tree == tree && this.completed == completed
    {
      this.tree, this.completed := tree, completed;
    }

    /** Extracts the archive, of which the stream carries only what comes before `cut`. Every file
        received in full is noted in `completed`. */
    method ExtractArchive(archive: seq<Entry>, cut: Option<Cut>, links: bool) returns (error: Option<ExtractError>)
      requires cut.Some? ==> cut.value.k <= |archive|
      modifies this
      ensures Extraction(tree, completed, error) == ExtractedUpTo(old(tree), old(completed), archive, cut, links)
    {
      error := ExtractWhole(archive, if cut.None? then |archive| else cut.value.k, links);
      if error.Some? || cut.None? {
        return;
      }
      var k, partial := cut.value.k, cut.value.partial;
      if k < |archive| && archive[k].FileEntry? && partial.Some? {
        var e := archive[k];
        var n := if partial.value < |e.content| then partial.value else |e.content|;
        var r := Written(tree, e.path, e.content[..n]);
        if r.Err? {
          return Some(r.error);
        }
        tree := r.value;
      }
      return Some(Truncated);
    }

    method ExtractWhole(archive: seq<Entry>, end: nat, links: bool) returns (error: Option<ExtractError>)
      requires end <= |archive|
      modifies this
      ensures Extraction(tree, completed, error) == Extracted(old(tree), old(completed), archive, end, links)
    {
      ghost var t0, c0 := tree, completed;
      var i := 0;
      error := None;
      while i < end && error.None?
        invariant i <= end && Extraction(tree, completed, error) == Extracted(t0, c0, archive, i, links)
      {
        var e := archive[i];
        var r := ExtractEntry(tree, e, links);
        if r.Ok? {
          tree, completed := r.value, Noted(completed, e);
        } else {
          error := Some(r.error);
        }
        i := i + 1;
      }
      if error.Some? {
        StopsAt(t0, c0, archive, i, end, links);
      }
    }
  }

  lemma {:induction false} StopsAt(t: Tree, completed: Completed, archive: seq<Entry>, j: nat, k: nat, links: bool)
    requires j <= k <= |archive| && Extracted(t, completed, archive, j, links).error.Some?
    ensures Extracted(t, completed, archive, k, links) == Extracted(t, completed, archive, j, links)
  {
    if j < k {
      StopsAt(t, completed, archive, j, k - 1, links);
    }
  }

  // ---- Extraction into a sandbox that holds parts of the same tree ----

  predicate ParentsListed(source: seq<Entry>, e: Entry) {
    forall k :: 1 <= k < |e.path| ==> DirEntry(e.path[..k]) in source
  }

  /** A tree as the walk finds it: each path once, with the directories above it, links confined. */
  predicate WellFormed(source: seq<Entry>) {
    && DistinctPaths(source)
    && (forall e :: e in source ==> ParentsListed(source, e))
    && (forall e :: e in source && e.LinkEntry? ==> e.confined)
  }

  predicate Fits(e: Entry, item: Item, links: bool) {
    match e
    case DirEntry(_) => item.Directory?
    case FileEntry(_, _) => item.Regular?
    case LinkEntry(_, target, _) => links && item == Link(target)
  }

  /** Everything in the sandbox belongs to the source, though files may have other contents. */
  ghost predicate Inside(t: Tree, source: seq<Entry>, links: bool) {
    forall p :: p in t ==> exists e :: StandsFor(t, source, links, p, e)
  }

  predicate StandsFor(t: Tree, source: seq<Entry>, links: bool, p: Path, e: Entry)
    requires p in t
  {
    e in source && e.path == p && Fits(e, t[p], links)
  }

  /** The entry is in place, content and all; an unsupported link is absent. */
  predicate InPlace(t: Tree, e: Entry, links: bool) {
    match e
    case DirEntry(p) => p in t && t[p].Directory?
    case FileEntry(p, content) => p in t && t[p] == Regular(content)
    case LinkEntry(p, target, _) => if links then p in t && t[p] == Link(target) else p !in t
  }

  /** `t` is exactly the source tree. */
  ghost predicate IsTree(t: Tree, source: seq<Entry>, links: bool) {
    Inside(t, source, links) && forall e :: e in source ==> InPlace(t, e, links)
  }

  lemma SamePathSameEntry(source: seq<Entry>, d: Entry, e: Entry)
    requires DistinctPaths(source) && d in source && e in source && d.path == e.path
    ensures d == e
  {
    var i: nat :| i < |source| && source[i] == d;
    var j: nat :| j < |source| && source[j] == e;
  }

  lemma TreeWithin(t: Tree, u: Tree, source: seq<Entry>, links: bool, p: Path)
    requires IsTree(t, source, links) && IsTree(u, source, links) && p in t
    ensures p in u && t[p] == u[p]
  {
    var e :| StandsFor(t, source, links, p, e);
    assert InPlace(t, e, links) && InPlace(u, e, links);
  }

  lemma TreeUnique(t: Tree, u: Tree, source: seq<Entry>, links: bool)
    requires IsTree(t, source, links) && IsTree(u, source, links)
    ensures t == u
  {
    forall p | p in t ensures p in u && t[p] == u[p] {
      TreeWithin(t, u, source, links, p);
    }
    forall p | p in u ensures p in t {
      TreeWithin(u, t, source, links, p);
    }
  }

  /** What one step of extraction leaves alone: everything but `e` and missing directories. */
  ghost predicate Besides(t: Tree, t': Tree, e: Entry, source: seq<Entry>) {
    && (forall p :: p in t && p != e.path ==> p in t' && t'[p] == t[p])
    && (forall p :: p in t' && p !in t && p != e.path ==> t'[p].Directory? && DirEntry(p) in source)
  }

  lemma {:induction false} ParentsMade(t: Tree, p: seq<Name>, source: seq<Entry>, links: bool)
    requires DistinctPaths(source) && Inside(t, source, links)
    requires forall k :: 1 <= k <= |p| ==> DirEntry(p[..k]) in source
    ensures MkdirAll(t, p).Ok?
    ensures var t' := MkdirAll(t, p).value;
      && (forall q :: q in t ==> q in t' && t'[q] == t[q])
      && (forall q :: q in t' && q !in t ==> t'[q].Directory? && DirEntry(q) in source)
      && (p != [] ==> p in t' && t'[p].Directory?)
  {
    if p != [] {
      assert p[..|p|] == p;
      if p in t {
        var e :| StandsFor(t, source, links, p, e);
        SamePathSameEntry(source, e, DirEntry(p));
      } else {
        var parent := p[..|p| - 1];
        forall k | 1 <= k <= |parent| ensures DirEntry(parent[..k]) in source {
          assert parent[..k] == p[..k];
        }
        ParentsMade(t, parent, source, links);
      }
    }
  }

  lemma ParentsOf(source: seq<Entry>, e: Entry)
    requires WellFormed(source) && e in source
    ensures forall k :: 1 <= k <= |Dir(e.path)| ==> DirEntry(Dir(e.path)[..k]) in source
  {
    assert ParentsListed(source, e);
    forall k | 1 <= k <= |Dir(e.path)| ensures DirEntry(Dir(e.path)[..k]) in source {
      assert Dir(e.path)[..k] == e.path[..k];
    }
  }

  lemma StaysInside(t: Tree, t': Tree, e: Entry, source: seq<Entry>, links: bool)
    requires Inside(t, source, links) && e in source && Besides(t, t', e, source)
    requires e.path in t' ==> Fits(e, t'[e.path], links)
    ensures Inside(t', source, links)
  {
    forall p | p in t' ensures exists d :: StandsFor(t', source, links, p, d) {
      if p == e.path {
        assert StandsFor(t', source, links, p, e);
      } else if p in t {
        var d :| StandsFor(t, source, links, p, d);
        assert StandsFor(t', source, links, p, d);
      } else {
        assert StandsFor(t', source, links, p, DirEntry(p));
      }
    }
  }

  /** Any content can be written to a file of the source. */
  lemma FileWritten(t: Tree, e: Entry, content: Content, source: seq<Entry>, links: bool)
    requires WellFormed(source) && Inside(t, source, links) && e in source && e.FileEntry?
    ensures Written(t, e.path, content).Ok?
    ensures var t' := Written(t, e.path, content).value;
      Besides(t, t', e, source) && e.path in t' && t'[e.path] == Regular(content) && Inside(t', source, links)
  {
    ParentsOf(source, e);
    ParentsMade(t, Dir(e.path), source, links);
    var t1 := MkdirAll(t, Dir(e.path)).value;
    if e.path in t1 {
      NotTakenByDirectory(t, t1, e, source, links);
    }
    StaysInside(t, t1[e.path := Regular(content)], e, source, links);
  }

  /** No directory stands at the path of a file or link of the source. */
  lemma NotTakenByDirectory(t: Tree, t1: Tree, e: Entry, source: seq<Entry>, links: bool)
    requires DistinctPaths(source) && Inside(t, source, links) && e in source && !e.DirEntry?
    requires forall q :: q in t ==> q in t1 && t1[q] == t[q]
    requires forall q :: q in t1 && q !in t ==> t1[q].Directory? && DirEntry(q) in source
    requires e.path in t1
    ensures Fits(e, t1[e.path], links)
  {
    if e.path in t {
      var d :| StandsFor(t, source, links, e.path, d);
      SamePathSameEntry(source, d, e);
    } else {
      SamePathSameEntry(source, DirEntry(e.path), e);
    }
  }

  lemma LinkExtracted(t: Tree, e: Entry, source: seq<Entry>, links: bool)
    requires WellFormed(source) && Inside(t, source, links) && e in source && e.LinkEntry?
    ensures ExtractEntry(t, e, links).Ok?
    ensures var t' := ExtractEntry(t, e, links).value;
      Besides(t, t', e, source) && Inside(t', source, links) && InPlace(t', e, links)
  {
    ParentsOf(source, e);
    ParentsMade(t, Dir(e.path), source, links);
    var t1 := MkdirAll(t, Dir(e.path)).value;
    if e.path in t1 {
      NotTakenByDirectory(t, t1, e, source, links);
    }
    StaysInside(t, if links then t1[e.path := Link(e.target)] else t1 - {e.path}, e, source, links);
  }

  lemma DirExtracted(t: Tree, e: Entry, source: seq<Entry>, links: bool)
    requires WellFormed(source) && Inside(t, source, links) && e in source && e.DirEntry?
    ensures MkdirAll(t, e.path).Ok?
    ensures var t' := MkdirAll(t, e.path).value;
      Besides(t, t', e, source) && Inside(t', source, links) && InPlace(t', e, links)
  {
    assert ParentsListed(source, e);
    forall k | 1 <= k <= |e.path| ensures DirEntry(e.path[..k]) in source {
      assert k == |e.path| ==> e.path[..k] == e.path;
    }
    ParentsMade(t, e.path, source, links);
    StaysInside(t, MkdirAll(t, e.path).value, e, source, links);
  }

  lemma EntryExtracted(t: Tree, e: Entry, source: seq<Entry>, links: bool)
    requires WellFormed(source) && Inside(t, source, links) && e in source
    ensures ExtractEntry(t, e, links).Ok?
    ensures var t' := ExtractEntry(t, e, links).value;
      Besides(t, t', e, source) && Inside(t', source, links) && InPlace(t', e, links)
  {
    match e
    case FileEntry(_, content) => FileWritten(t, e, content, source, links);
    case LinkEntry(_, _, _) => LinkExtracted(t, e, source, links);
    case DirEntry(_) => DirExtracted(t, e, source, links);
  }

  /** Every completed file is whole in the sandbox, with the content of the source. */
  ghost predicate Kept(t: Tree, completed: Completed, source: seq<Entry>) {
    forall p :: p in completed ==> exists e :: KeptAs(t, completed, source, p, e)
  }

  predicate KeptAs(t: Tree, completed: Completed, source: seq<Entry>, p: Path, e: Entry)
    requires p in completed
  {
    e in source && e.FileEntry? && e.path == p && completed[p] == ContentHash(e.content)
    && p in t && t[p] == Regular(e.content)
  }

  lemma KeptBesides(t: Tree, t': Tree, completed: Completed, e: Entry, source: seq<Entry>)
    requires Kept(t, completed, source) && Besides(t, t', e, source)
    ensures Kept(t', completed - {e.path}, source)
  {
    forall p | p in completed && p != e.path ensures exists d :: KeptAs(t', completed - {e.path}, source, p, d) {
      var d :| KeptAs(t, completed, source, p, d);
      assert KeptAs(t', completed - {e.path}, source, p, d);
    }
  }

  lemma KeptStep(t: Tree, t': Tree, completed: Completed, e: Entry, source: seq<Entry>, links: bool)
    requires DistinctPaths(source) && e in source && Kept(t, completed, source)
    requires Besides(t, t', e, source) && InPlace(t', e, links)
    ensures Kept(t', Noted(completed, e), source)
  {
    KeptBesides(t, t', completed, e, source);
    forall p | p in Noted(completed, e) ensures exists d :: KeptAs(t', Noted(completed, e), source, p, d) {
      if p != e.path {
        assert p in completed - {e.path};
        var d :| KeptAs(t', completed - {e.path}, source, p, d);
        assert KeptAs(t', Noted(completed, e), source, p, d);
      } else {
        assert e.FileEntry? by {
          if p in completed {
            KeptIsFile(t, completed, source, e);
          }
        }
        assert KeptAs(t', Noted(completed, e), source, p, e);
      }
    }
  }

  lemma KeptIsFile(t: Tree, completed: Completed, source: seq<Entry>, e: Entry)
    requires DistinctPaths(source) && Kept(t, completed, source) && e in source && e.path in completed
    ensures KeptAs(t, completed, source, e.path, e)
  {
    var d :| KeptAs(t, completed, source, e.path, d);
    SamePathSameEntry(source, d, e);
  }

  lemma NextEntry(t: Tree, completed: Completed, archive: seq<Entry>, k: nat, links: bool, source: seq<Entry>)
    returns (before: Extraction, after: Extraction)
    requires 0 < k <= |archive| && WellFormed(source) && archive[k - 1] in source
    requires var r := Extracted(t, completed, archive, k - 1, links);
      r.error.None? && Inside(r.tree, source, links) && Kept(r.tree, r.completed, source)
    ensures before == Extracted(t, completed, archive, k - 1, links)
    ensures after == Extracted(t, completed, archive, k, links) && after.error.None?
    ensures Besides(before.tree, after.tree, archive[k - 1], source) && Inside(after.tree, source, links)
    ensures InPlace(after.tree, archive[k - 1], links) && Kept(after.tree, after.completed, source)
  {
    before := Extracted(t, completed, archive, k - 1, links);
    EntryExtracted(before.tree, archive[k - 1], source, links);
    var tree := ExtractEntry(before.tree, archive[k - 1], links).value;
    KeptStep(before.tree, tree, before.completed, archive[k - 1], source, links);
    after := Extraction(tree, Noted(before.completed, archive[k - 1]), None);
  }

  /** Extraction of whole entries never fails. */
  lemma {:induction false} WholeEntries(t: Tree, completed: Completed, archive: seq<Entry>, k: nat, links: bool,
                                        source: seq<Entry>)
    requires WellFormed(source) && Inside(t, source, links) && Kept(t, completed, source)
    requires k <= |archive| && forall e :: e in archive ==> e in source
    ensures var r := Extracted(t, completed, archive, k, links);
      r.error.None? && Inside(r.tree, source, links) && Kept(r.tree, r.completed, source)
  {
    if k > 0 {
      WholeEntries(t, completed, archive, k - 1, links, source);
      var before, after := NextEntry(t, completed, archive, k, links, source);
    }
  }

  /** Of the first `k` entries each is in place; another file is in place if it was before. */
  predicate Placed(t: Tree, t': Tree, archive: seq<Entry>, k: nat, e: Entry, links: bool)
    requires k <= |archive|
  {
    && (e in archive[..k] ==> InPlace(t', e, links))
    && (e.FileEntry? && e !in archive[..k] ==> (InPlace(t, e, links) <==> InPlace(t', e, links)))
  }

  lemma OneMorePlaced(t: Tree, before: Tree, after: Tree, archive: seq<Entry>, k: nat, e: Entry, source: seq<Entry>,
                      links: bool)
    requires 0 < k <= |archive| && Placed(t, before, archive, k - 1, e, links)
    requires DistinctPaths(source) && archive[k - 1] in source && e in source
    requires Besides(before, after, archive[k - 1], source) && InPlace(after, archive[k - 1], links)
    ensures Placed(t, after, archive, k, e, links)
  {
    assert archive[..k] == archive[..k - 1] + [archive[k - 1]];
    if archive[k - 1] != e {
      OtherUndisturbed(before, after, archive[k - 1], source, links, e);
    }
  }

  lemma {:induction false} WholeEntriesInPlace(t: Tree, completed: Completed, archive: seq<Entry>, k: nat, links: bool,
                                               source: seq<Entry>, e: Entry)
    requires WellFormed(source) && Inside(t, source, links) && Kept(t, completed, source)
    requires k <= |archive| && (forall e :: e in archive ==> e in source) && e in source
    ensures Placed(t, Extracted(t, completed, archive, k, links).tree, archive, k, e, links)
  {
    if k > 0 {
      WholeEntriesInPlace(t, completed, archive, k - 1, links, source, e);
      WholeEntries(t, completed, archive, k - 1, links, source);
      var before, after := NextEntry(t, completed, archive, k, links, source);
      OneMorePlaced(t, before.tree, after.tree, archive, k, e, source, links);
    }
  }

  lemma OtherUndisturbed(t: Tree, t': Tree, d: Entry, source: seq<Entry>, links: bool, e: Entry)
    requires DistinctPaths(source) && d in source && e in source && d != e && Besides(t, t', d, source)
    ensures InPlace(t, e, links) ==> InPlace(t', e, links)
    ensures e.FileEntry? && InPlace(t', e, links) ==> InPlace(t, e, links)
  {
    if d.path == e.path {
      SamePathSameEntry(source, d, e);
    }
    if DirEntry(e.path) in source {
      SamePathSameEntry(source, DirEntry(e.path), e);
    }
  }

  lemma {:induction false} NotedPaths(t: Tree, completed: Completed, archive: seq<Entry>, k: nat, links: bool, p: Path)
    requires k <= |archive| && p in Extracted(t, completed, archive, k, links).completed && p !in completed
    ensures exists i :: 0 <= i < k && archive[i].path == p
  {
    if k > 0 && p in Extracted(t, completed, archive, k - 1, links).completed {
      NotedPaths(t, completed, archive, k - 1, links, p);
    }
  }

  /** A file broken off in the middle is not noted, and no completed file suffers. */
  lemma BrokenKeeps(r: Extraction, archive: seq<Entry>, cut: Cut, links: bool, source: seq<Entry>)
    requires WellFormed(source) && r.error.None? && Inside(r.tree, source, links) && Kept(r.tree, r.completed, source)
    requires cut.k <= |archive| && forall e :: e in archive ==> e in source
    requires cut.k < |archive| ==> archive[cut.k].path !in r.completed
    ensures var b := Broken(r, archive, cut);
      b.error == Some(Truncated) && Inside(b.tree, source, links) && Kept(b.tree, b.completed, source)
  {
    if cut.k < |archive| && cut.partial.Some? && archive[cut.k].FileEntry? {
      var e := archive[cut.k];
      var n := if cut.partial.value < |e.content| then cut.partial.value else |e.content|;
      assert e in source;
      FileWritten(r.tree, e, e.content[..n], source, links);
      KeptBesides(r.tree, Written(r.tree, e.path, e.content[..n]).value, r.completed, e, source);
      assert r.completed - {e.path} == r.completed;
    }
  }

  // ---- Any archive, into any sandbox ----

  /** Above everything stand directories. */
  predicate Shaped(t: Tree) {
    forall p, k :: p in t && 1 <= k < |p| ==> IsDir(t, p[..k])
  }

  predicate IsDir(t: Tree, p: Path) {
    p in t && t[p].Directory?
  }

  lemma {:induction false} MkdirKeepsShape(t: Tree, p: seq<Name>)
    requires Shaped(t) && MkdirAll(t, p).Ok?
    ensures var t' := MkdirAll(t, p).value;
      && Shaped(t') && (p != [] ==> IsDir(t', p)) && (forall k :: 1 <= k < |p| ==> IsDir(t', p[..k]))
      && (forall q :: q in t ==> q in t' && t'[q] == t[q])
      && (forall q :: q in t' && q !in t ==> t'[q].Directory? && q <= p)
    decreases |p|
  {
    if p != [] && p !in t {
      var parent := p[..|p| - 1];
      MkdirKeepsShape(t, parent);
      forall k | 1 <= k < |p| ensures IsDir(MkdirAll(t, p).value, p[..k]) {
        assert k < |parent| ==> parent[..k] == p[..k];
        assert k == |parent| ==> p[..k] == parent;
      }
    }
  }

  /** What stands at `p` now can be replaced: nothing, or something with nothing below it. */
  lemma PutKeepsShape(t: Tree, t1: Tree, p: Path, item: Item)
    requires Shaped(t1) && t == t1[p := item] && (forall k :: 1 <= k < |p| ==> IsDir(t1, p[..k]))
    requires item.Directory? || !HasChild(t1, p)
    ensures Shaped(t)
  {
    forall q, k | q in t && 1 <= k < |q| ensures IsDir(t, q[..k]) {
      assert q in t1 ==> IsDir(t1, q[..k]);
      if q[..k] == p {
        assert p < q;
      }
    }
  }

  lemma TakeKeepsShape(t1: Tree, p: Path)
    requires Shaped(t1) && !HasChild(t1, p)
    ensures Shaped(t1 - {p})
  {
    forall q, k | q in t1 - {p} && 1 <= k < |q| ensures IsDir(t1 - {p}, q[..k]) {
      assert IsDir(t1, q[..k]) && q[..k] < q;
    }
  }

  lemma NotDirectoryHasNoChild(t: Tree, p: Path)
    requires Shaped(t) && (p !in t || !t[p].Directory?)
    ensures !HasChild(t, p)
  {
    forall q | q in t && p < q ensures IsDir(t, p) {
      assert q[..|p|] == p && IsDir(t, q[..|p|]);
    }
  }

  lemma WrittenKeepsShape(t: Tree, p: Path, content: Content)
    requires Shaped(t) && Written(t, p, content).Ok?
    ensures Shaped(Written(t, p, content).value)
  {
    MkdirKeepsShape(t, Dir(p));
    var t1 := MkdirAll(t, Dir(p)).value;
    ParentsAreDirs(t1, p);
    NotDirectoryHasNoChild(t1, p);
    PutKeepsShape(t1[p := Regular(content)], t1, p, Regular(content));
  }

  lemma ParentsAreDirs(t1: Tree, p: Path)
    requires Dir(p) != [] ==> IsDir(t1, Dir(p)) && forall k :: 1 <= k < |Dir(p)| ==> IsDir(t1, Dir(p)[..k])
    ensures forall k :: 1 <= k < |p| ==> IsDir(t1, p[..k])
  {
    forall k | 1 <= k < |p| ensures IsDir(t1, p[..k]) {
      assert p[..k] == if k < |Dir(p)| then Dir(p)[..k] else Dir(p);
    }
  }

  /** No entry, well-formed or not, is extracted into or in the place of something else: a file or link is
      never turned into a directory, and no directory with something in it into a link. */
  lemma EntryKeepsShape(t: Tree, e: Entry, links: bool)
    requires Shaped(t) && ExtractEntry(t, e, links).Ok?
    ensures Shaped(ExtractEntry(t, e, links).value)
  {
    match e
    case DirEntry(p) => MkdirKeepsShape(t, p);
    case FileEntry(p, content) => WrittenKeepsShape(t, p, content);
    case LinkEntry(p, target, _) =>
      MkdirKeepsShape(t, Dir(p));
      var t1 := MkdirAll(t, Dir(p)).value;
      ParentsAreDirs(t1, p);
      if p !in t1 || !t1[p].Directory? {
        NotDirectoryHasNoChild(t1, p);
      }
      if links {
        PutKeepsShape(t1[p := Link(target)], t1, p, Link(target));
      } else {
        TakeKeepsShape(t1, p);
      }
  }

  lemma {:induction false} MkdirRefused(t: Tree, p: seq<Name>)
    requires Shaped(t)
    ensures MkdirAll(t, p).Ok? <==> forall k :: 1 <= k <= |p| && p[..k] in t ==> t[p[..k]].Directory?
    decreases |p|
  {
    if p != [] {
      var parent := p[..|p| - 1];
      assert p[..|p|] == p;
      forall k | 1 <= k <= |parent| ensures parent[..k] == p[..k] {
      }
      if p in t {
        forall k | 1 <= k < |p| ensures IsDir(t, p[..k]) {
        }
      } else {
        MkdirRefused(t, parent);
      }
    }
  }

  /** Something that is no directory stands where a parent of `p` belongs. */
  predicate Blocked(t: Tree, p: Path) {
    exists k :: 1 <= k < |p| && Stands(t, p[..k]) && !t[p[..k]].Directory?
  }

  predicate Stands(t: Tree, p: Path) {
    p in t
  }

  /** Exactly which entries are refused: below something that is no directory; a directory or file where
      something of another kind stands; a link that leaves the tree, or in the place of a directory with
      something in it - an empty one it replaces. */
  lemma EntryRefused(t: Tree, e: Entry, links: bool)
    requires Shaped(t)
    ensures ExtractEntry(t, e, links).Err? <==>
      match e
      case DirEntry(p) => Blocked(t, p) || (p in t && !t[p].Directory?)
      case FileEntry(p, _) => Blocked(t, p) || (p in t && !t[p].Regular?)
      case LinkEntry(p, _, confined) => !confined || Blocked(t, p) || (p in t && t[p].Directory? && HasChild(t, p))
  {
    var p := e.path;
    assert p[..|p|] == p;
    MkdirRefused(t, p);
    MkdirRefused(t, Dir(p));
    forall k | 1 <= k < |p| ensures Dir(p)[..k] == p[..k] {
    }
    assert Blocked(t, p) <==> MkdirAll(t, Dir(p)).Err? by {
      ParentsBlocked(t, p);
    }
    if !e.DirEntry? && MkdirAll(t, Dir(p)).Ok? {
      MkdirKeepsShape(t, Dir(p));
      SameChildren(t, p);
    }
  }

  lemma ParentsBlocked(t: Tree, p: Path)
    requires Shaped(t)
    ensures Blocked(t, p) <==> MkdirAll(t, Dir(p)).Err?
  {
    MkdirRefused(t, Dir(p));
    forall k | 1 <= k < |p| ensures Dir(p)[..k] == p[..k] {
    }
    if Blocked(t, p) {
      var k :| 1 <= k < |p| && Stands(t, p[..k]) && !t[p[..k]].Directory?;
      assert Dir(p)[..k] in t;
    } else {
      forall k | 1 <= k <= |Dir(p)| && Dir(p)[..k] in t ensures t[Dir(p)[..k]].Directory? {
        assert Stands(t, p[..k]);
      }
    }
  }

  /** Making the parents of `p` puts nothing below it. */
  lemma SameChildren(t: Tree, p: Path)
    requires Shaped(t) && MkdirAll(t, Dir(p)).Ok?
    ensures var t1 := MkdirAll(t, Dir(p)).value;
      (p in t1 <==> p in t) && (p in t ==> t1[p] == t[p]) && (HasChild(t1, p) <==> HasChild(t, p))
  {
    MkdirKeepsShape(t, Dir(p));
    var t1 := MkdirAll(t, Dir(p)).value;
    forall q | q in t1 && q !in t ensures |q| < |p| {
      assert q <= Dir(p);
    }
    if q :| q in t1 && p < q {
      assert q in t;
    }
  }

  /** A link that is not confined to the tree is refused. */
  lemma EscapingLinkIsRefused(t: Tree, p: Path, target: string, links: bool)
    ensures ExtractEntry(t, LinkEntry(p, target, false), links) == Err(Escapes)
  {
  }

  /** Any archive, extracted up to any point, with or without errors, leaves a tree, in which each link was
      there before or is a confined link of the archive. */
  lemma {:induction false} AnyArchiveIsContained(t: Tree, done: Completed, archive: seq<Entry>, k: nat, links: bool)
    requires Shaped(t) && k <= |archive|
    ensures var r := Extracted(t, done, archive, k, links).tree;
      && Shaped(r)
      && forall p :: p in r && r[p].Link? ==>
           (p in t && t[p] == r[p]) || LinkEntry(p, r[p].target, true) in archive[..k]
  {
    if k > 0 {
      AnyArchiveIsContained(t, done, archive, k - 1, links);
      var before, e := Extracted(t, done, archive, k - 1, links), archive[k - 1];
      assert archive[..k] == archive[..k - 1] + [e];
      if before.error.None? && ExtractEntry(before.tree, e, links).Ok? {
        EntryKeepsShape(before.tree, e, links);
        EntryAddsLinks(before.tree, e, links);
      }
    }
  }

  /** The same when the stream breaks off. */
  lemma AnyCutIsContained(t: Tree, done: Completed, archive: seq<Entry>, cut: Option<Cut>, links: bool)
    requires Shaped(t) && (cut.Some? ==> cut.value.k <= |archive|)
    ensures var r := ExtractedUpTo(t, done, archive, cut, links).tree;
      && Shaped(r)
      && forall p :: p in r && r[p].Link? ==> (p in t && t[p] == r[p]) || LinkEntry(p, r[p].target, true) in archive
  {
    var k := if cut.None? then |archive| else cut.value.k;
    AnyArchiveIsContained(t, done, archive, k, links);
    var before := Extracted(t, done, archive, k, links);
    if cut.Some? && before.error.None? && k < |archive| && cut.value.partial.Some? && archive[k].FileEntry? {
      var e := archive[k];
      var n := if cut.value.partial.value < |e.content| then cut.value.partial.value else |e.content|;
      if Written(before.tree, e.path, e.content[..n]).Ok? {
        WrittenKeepsShape(before.tree, e.path, e.content[..n]);
        MkdirKeepsShape(before.tree, Dir(e.path));
      }
    }
  }

  lemma EntryAddsLinks(t: Tree, e: Entry, links: bool)
    requires Shaped(t) && ExtractEntry(t, e, links).Ok?
    ensures var r := ExtractEntry(t, e, links).value;
      forall p :: p in r && r[p].Link? ==> (p in t && t[p] == r[p]) || e == LinkEntry(p, r[p].target, true)
  {
    if e.DirEntry? {
      MkdirKeepsShape(t, e.path);
    } else {
      MkdirKeepsShape(t, Dir(e.path));
    }
  }

  /** Extraction succeeds exactly when each entry in turn does; the first that does not ends it. */
  lemma {:induction false} SucceedsEntryByEntry(t: Tree, done: Completed, archive: seq<Entry>, k: nat, links: bool)
    requires k <= |archive|
    ensures Extracted(t, done, archive, k, links).error.None? <==>
      forall i :: 0 <= i < k ==> SucceedsAt(t, done, archive, i, links)
  {
    if k > 0 {
      SucceedsEntryByEntry(t, done, archive, k - 1, links);
      NextSucceeds(t, done, archive, k, links);
    }
  }

  predicate SucceedsAt(t: Tree, done: Completed, archive: seq<Entry>, i: nat, links: bool)
    requires i < |archive|
  {
    ExtractEntry(Extracted(t, done, archive, i, links).tree, archive[i], links).Ok?
  }

  lemma NextSucceeds(t: Tree, done: Completed, archive: seq<Entry>, k: nat, links: bool)
    requires 0 < k <= |archive|
    ensures Extracted(t, done, archive, k, links).error.None? <==>
      Extracted(t, done, archive, k - 1, links).error.None? && SucceedsAt(t, done, archive, k - 1, links)
  {
  }
}
