/**
 * Installing an extracted template archive (`download_and_extract_template`).
 *
 * A directory tree is a map from relative paths (sequences of names) to the
 * contents of the regular files; directories are implicit, being the proper
 * prefixes of file paths. In merge mode every top-level item of the (flattened)
 * archive is copied into the existing project directory: a file overwrites, a
 * directory that does not exist yet is copied whole, and a directory that exists
 * is merged file by file, with `.vscode/settings.json` deep-merged as JSON.
 */
module TemplateTree {
  import opened Wrappers
  import opened JsonMerge
  import opened Utf8

  type Path = seq<string>

  /** A file's contents: a JSON document when it parses as one, opaque bytes otherwise. */
  datatype Content = Bytes(data: seq<Byte>) | Doc(json: Json)

  type Tree = map<Path, Content>

  datatype InstallError =
    | NotADirectory(path: Path)  // `mkdir(parents=True)` meets a regular file on the way
    | IsADirectory(path: Path)   // `shutil.copy2` would have to write over a directory

  predicate IsProperPrefix(a: Path, b: Path) {
    |a| < |b| && b[..|a|] == a
  }

  /** A real directory tree: no file at the root and no file inside a file. */
  predicate WellFormed(t: Tree) {
    && (forall p :: p in t ==> |p| > 0)
    && (forall p, q :: p in t && q in t ==> !IsProperPrefix(p, q))
  }

  predicate IsDir(t: Tree, d: Path) {
    exists q :: q in t && IsProperPrefix(d, q)
  }

  /** `Path.exists()` */
  predicate Exists(t: Tree, p: Path) {
    p in t || IsDir(t, p)
  }

  /** Some directory that `mkdir(parents=True)` would create for `p` is a regular file. */
  predicate HasFileAncestor(t: Tree, p: Path) {
    exists i :: 0 < i < |p| && p[..i] in t
  }

  /** A file named `settings.json` whose parent directory is named `.vscode`. */
  predicate IsSettingsPath(p: Path) {
    |p| >= 2 && p[|p| - 1] == "settings.json" && p[|p| - 2] == ".vscode"
  }

  /** `json.load` of a file: only documents parse. */
  function ReadExisting(c: Content): ExistingFile {
    if c.Doc? then Parsed(c.json) else Malformed
  }

  // ---------------------------------------------------------------------------
  // Single-root flatten

  /** The archive holds exactly one top-level entry and that entry is a directory. */
  predicate SingleRootDir(t: Tree) {
    && t != map[]
    && (forall p :: p in t ==> |p| >= 2)
    && (forall p, q :: p in t && q in t ==> p[0] == q[0])
  }

  lemma TailInjective(t: Tree)
    requires SingleRootDir(t)
    ensures forall p, q :: p in t && q in t && p[1..] == q[1..] ==> p == q
  {
    forall p, q | p in t && q in t && p[1..] == q[1..]
      ensures p == q
    {
      assert p == [p[0]] + p[1..];
      assert q == [q[0]] + q[1..];
    }
  }

  /** Drops the lone top-level directory from every path. */
  function StripRoot(t: Tree): (r: Tree)
    requires SingleRootDir(t)
    ensures forall p :: p in t ==> p[1..] in r && r[p[1..]] == t[p]
    ensures forall q :: q in r ==> exists p :: p in t && p[1..] == q
  {
    TailInjective(t);
    map p | p in t :: p[1..] := t[p]
  }

  /** Putting the same name in front of two paths keeps one a proper prefix of the other. */
  lemma ConsPrefix(x: string, a: Path, b: Path)
    ensures IsProperPrefix(a, b) ==> IsProperPrefix([x] + a, [x] + b)
  {
    if IsProperPrefix(a, b) {
      assert ([x] + b)[..|a| + 1] == [x] + b[..|a|];
    }
  }

  /** Two files under the same root stay apart once the root is dropped. */
  lemma TailsApart(t: Tree, pa: Path, pb: Path)
    requires SingleRootDir(t) && WellFormed(t)
    requires pa in t && pb in t
    ensures !IsProperPrefix(pa[1..], pb[1..])
  {
    assert pa == [pa[0]] + pa[1..];
    assert pb == [pa[0]] + pb[1..];
    ConsPrefix(pa[0], pa[1..], pb[1..]);
  }

  lemma StripRootWellFormed(t: Tree)
    requires SingleRootDir(t)
    ensures WellFormed(t) ==> WellFormed(StripRoot(t))
  {
    if WellFormed(t) {
      var r := StripRoot(t);
      forall a, b | a in r && b in r
        ensures !IsProperPrefix(a, b)
      {
        var pa :| pa in t && pa[1..] == a;
        var pb :| pb in t && pb[1..] == b;
        TailsApart(t, pa, pb);
      }
    }
  }

  /**
   * The source directory used for installing: the lone top-level directory when
   * the archive has nothing else at its top level, the archive itself otherwise.
   */
  function Flatten(t: Tree): (r: Tree)
    ensures WellFormed(t) ==> WellFormed(r)
    ensures !SingleRootDir(t) ==> r == t
    ensures SingleRootDir(t) ==> forall p :: p in t ==> p[1..] in r && r[p[1..]] == t[p]
    ensures SingleRootDir(t) ==> forall q :: q in r ==> exists p :: p in t && p[1..] == q
  {
    if SingleRootDir(t) then
      StripRootWellFormed(t);
      StripRoot(t)
    else t
  }

  lemma ExampleArchive(x: Content, y: Content)
    ensures var t := map[["X", "a"] := x, ["X", "b"] := y];
            SingleRootDir(t) && t.Keys == {["X", "a"], ["X", "b"]}
  {
    var t := map[["X", "a"] := x, ["X", "b"] := y];
    assert t.Keys == {["X", "a"], ["X", "b"]};
  }

  /** The archive `X/a`, `X/b` installs as `a`, `b`: one level of nesting is removed. */
  lemma FlattenExample(x: Content, y: Content)
    ensures Flatten(map[["X", "a"] := x, ["X", "b"] := y]) == map[["a"] := x, ["b"] := y]
  {
    var t := map[["X", "a"] := x, ["X", "b"] := y];
    ExampleArchive(x, y);
    var r := StripRoot(t);
    assert ["X", "a"][1..] == ["a"] && ["X", "b"][1..] == ["b"];
    assert r.Keys == {["a"], ["b"]} by {
      forall q | q in r
        ensures q == ["a"] || q == ["b"]
      {
        var p :| p in t && p[1..] == q;
      }
    }
  }

  // ---------------------------------------------------------------------------
  // Copying one file

  /**
   * Where `shutil.copy2(src, p)` writes: into `p` itself, or, when `p` is an
   * existing directory, into a file of the same name inside it.
   */
  function Landing(t: Tree, p: Path): Path
    requires |p| > 0
  {
    if IsDir(t, p) then p + [p[|p| - 1]] else p
  }

  /**
   * `shutil.copy2(src, p)` with source contents `c`, once `mkdir(parents=True)`
   * has made every ancestor of `p` a directory.
   */
  function CopyFile(t: Tree, p: Path, c: Content): (r: Result<Tree, InstallError>)
    requires |p| > 0 && !HasFileAncestor(t, p)
    ensures r.Ok? <==> !IsDir(t, Landing(t, p))
    ensures r.Ok? ==> r.value == t[Landing(t, p) := c]
  {
    if IsDir(t, p) then
      var inner := p + [p[|p| - 1]];
      if IsDir(t, inner) then Err(IsADirectory(inner)) else Ok(t[inner := c])
    else Ok(t[p := c])
  }

  /**
   * `handle_vscode_settings`: an incoming document is deep-merged into an existing
   * file; an incoming file that does not parse, a destination that is absent or a
   * directory, and a merge that raises all fall back to copying the incoming file.
   */
  function HandleSettings(t: Tree, p: Path, c: Content): (r: Result<Tree, InstallError>)
    requires |p| > 0 && !HasFileAncestor(t, p)
    ensures p in t && !IsDir(t, p) ==> r == Ok(t[p := SettingsOutcome(Some(t[p]), c)])
    ensures p !in t ==> (r.Ok? <==> !IsDir(t, Landing(t, p)))
    ensures p !in t && r.Ok? ==> r.value == t[Landing(t, p) := c]
  {
    if c.Doc? && p in t then
      match MergeJsonFile(ReadExisting(t[p]), c.json)
      case Ok(merged) => Ok(t[p := Doc(merged)])
      case Err(_) => CopyFile(t, p, c)
    else CopyFile(t, p, c)
  }

  /** The settings file a merged directory ends up with, given what it held before. */
  function SettingsOutcome(existing: Option<Content>, c: Content): Content {
    if c.Doc? && existing.Some? && MergeJsonFile(ReadExisting(existing.value), c.json).Ok? then
      Doc(MergeJsonFile(ReadExisting(existing.value), c.json).value)
    else c
  }

  /** Merging settings into an existing file: objects merge, a malformed file is replaced by the incoming document. */
  lemma SettingsRules(existing: Content, incoming: Json)
    ensures existing.Doc? && existing.json.JObject? && incoming.JObject? ==>
              SettingsOutcome(Some(existing), Doc(incoming)) == Doc(JObject(DeepMerge(existing.json.fields, incoming.fields)))
    ensures existing.Bytes? ==> SettingsOutcome(Some(existing), Doc(incoming)) == Doc(incoming)
    ensures SettingsOutcome(None, Doc(incoming)) == Doc(incoming)
    ensures existing.Doc? && MergeJsonFile(Parsed(existing.json), incoming).Err? ==>
              SettingsOutcome(Some(existing), Doc(incoming)) == Doc(incoming)
  {
  }

  /**
   * One file of a directory that exists in the target: create its parent
   * directories, then merge it if it is `.vscode/settings.json`, else copy it.
   */
  function PlaceLeaf(t: Tree, p: Path, c: Content): (r: Result<Tree, InstallError>)
    requires |p| > 0
    ensures HasFileAncestor(t, p) ==> r == Err(NotADirectory(p))
    ensures !HasFileAncestor(t, p) && !IsSettingsPath(p) ==>
              (r.Ok? <==> !IsDir(t, Landing(t, p))) && (r.Ok? ==> r.value == t[Landing(t, p) := c])
    ensures !HasFileAncestor(t, p) && IsSettingsPath(p) && p in t && !IsDir(t, p) ==>
              r == Ok(t[p := SettingsOutcome(Some(t[p]), c)])
  {
    if HasFileAncestor(t, p) then Err(NotADirectory(p))
    else if IsSettingsPath(p) then HandleSettings(t, p, c)
    else CopyFile(t, p, c)
  }

  // ---------------------------------------------------------------------------
  // Merge-mode install

  /**
   * The top-level item holding `p` is a directory absent from the target, so
   * `shutil.copytree` copies it whole, settings file included, without merging.
   * Whether it exists is read from the original target: the other top-level
   * items never write under this one.
   */
  predicate CopiedWhole(target: Tree, source: Tree, p: Path)
    requires |p| > 0
  {
    [p[0]] !in source && !Exists(target, [p[0]])
  }

  function InstallStep(target: Tree, source: Tree, cur: Tree, p: Path): Result<Tree, InstallError>
    requires p in source && |p| > 0
  {
    if CopiedWhole(target, source, p) then Ok(cur[p := source[p]])
    else PlaceLeaf(cur, p, source[p])
  }

  /** Installs the files of `source` in the given order, stopping at the first error. */
  function MergeFold(target: Tree, source: Tree, order: seq<Path>, cur: Tree): Result<Tree, InstallError>
    requires forall i :: 0 <= i < |order| ==> order[i] in source && |order[i]| > 0
    decreases |order|
  {
    if order == [] then Ok(cur)
    else
      match InstallStep(target, source, cur, order[0])
      case Err(e) => Err(e)
      case Ok(next) => MergeFold(target, source, order[1..], next)
  }

  /** `order` lists every path of `files` exactly once (the order the OS lists the directories in). */
  predicate Enumerates(order: seq<Path>, files: set<Path>) {
    && (forall i :: 0 <= i < |order| ==> order[i] in files)
    && (forall i, j :: 0 <= i < j < |order| ==> order[i] != order[j])
    && (forall p :: p in files ==> p in order)
  }

  /** Merge mode: flatten the extracted archive, then copy its files into the target. */
  function MergeInstall(target: Tree, extracted: Tree, order: seq<Path>): Result<Tree, InstallError>
    requires WellFormed(extracted)
    requires Enumerates(order, Flatten(extracted).Keys)
  {
    MergeFold(target, Flatten(extracted), order, target)
  }

  /** Fresh mode: the new project directory holds exactly the flattened archive. */
  function FreshInstall(extracted: Tree): (r: Tree)
    requires WellFormed(extracted)
    ensures WellFormed(r)
    ensures !SingleRootDir(extracted) ==> r == extracted
  {
    Flatten(extracted)
  }

  // ---------------------------------------------------------------------------
  // What a merge-mode install does, whatever the listing order

  /** The install of `p` fails: a file blocks its parent directories, or copy2 would write over a directory. */
  predicate Conflict(target: Tree, source: Tree, p: Path)
    requires |p| > 0
  {
    !CopiedWhole(target, source, p) && (HasFileAncestor(target, p) || IsDir(target, Landing(target, p)))
  }

  /** The contents the install leaves at `Landing(target, p)` for a source file `p`. */
  function Expected(target: Tree, source: Tree, p: Path): Content
    requires p in source && |p| > 0
  {
    if !CopiedWhole(target, source, p) && IsSettingsPath(p) then
      SettingsOutcome(if p in target then Some(target[p]) else None, source[p])
    else source[p]
  }

  predicate Related(k: Path, p: Path) {
    k == p || IsProperPrefix(k, p) || IsProperPrefix(p, k)
  }

  /** `cur` agrees with `target` on `p`, its ancestors and everything below it. */
  ghost predicate AgreesAround(cur: Tree, target: Tree, p: Path) {
    forall k :: Related(k, p) ==> (k in cur <==> k in target) && (k in cur ==> cur[k] == target[k])
  }

  lemma ExtensionFacts(p: Path, x: string, q: Path)
    ensures p + [x] == q ==> IsProperPrefix(p, q)
    ensures IsProperPrefix(p + [x], q) ==> IsProperPrefix(p, q)
    ensures IsProperPrefix(q, p + [x]) ==> q == p || IsProperPrefix(q, p)
  {
    if IsProperPrefix(p + [x], q) {
      assert q[..|p|] == (p + [x])[..|p|];
    }
    if IsProperPrefix(q, p + [x]) && |q| < |p| {
      assert p[..|q|] == (p + [x])[..|q|];
    }
    if IsProperPrefix(q, p + [x]) && |q| == |p| {
      assert q == (p + [x])[..|p|];
    }
  }

  /** A path below `p` is below the top-level entry of `p`. */
  lemma TopPrefixFacts(p: Path, q: Path)
    requires |p| > 0
    ensures IsProperPrefix(p, q) ==> IsProperPrefix([p[0]], q)
    ensures |p| > 1 ==> IsProperPrefix([p[0]], p)
    ensures forall i :: 1 < i < |p| ==> IsProperPrefix([p[0]], p[..i])
    ensures |p| == 1 ==> p == [p[0]]
    ensures p[..1] == [p[0]]
  {
    if IsProperPrefix(p, q) {
      assert q[..1] == p[..1];
    }
  }

  /** The place a file lands is the file's own path or directly below it. */
  lemma LandingRelated(t: Tree, q: Path)
    requires |q| > 0
    ensures Related(Landing(t, q), q)
  {
    ExtensionFacts(q, q[|q| - 1], q + [q[|q| - 1]]);
  }

  lemma AgreementFacts(cur: Tree, target: Tree, p: Path)
    requires |p| > 0 && AgreesAround(cur, target, p)
    ensures IsDir(cur, p) <==> IsDir(target, p)
    ensures IsDir(cur, p + [p[|p| - 1]]) <==> IsDir(target, p + [p[|p| - 1]])
    ensures HasFileAncestor(cur, p) <==> HasFileAncestor(target, p)
    ensures (p in cur <==> p in target) && (p in cur ==> cur[p] == target[p])
  {
    var inner := p + [p[|p| - 1]];
    forall q | IsProperPrefix(inner, q)
      ensures Related(q, p)
    {
      ExtensionFacts(p, p[|p| - 1], q);
    }
    forall q | IsProperPrefix(p, q)
      ensures Related(q, p)
    {
    }
    forall i | 0 < i < |p|
      ensures Related(p[..i], p)
    {
    }
    assert Related(p, p);
  }

  /** Inside a top-level directory that the target lacks, nothing is a directory or a file. */
  lemma CopiedWholeIsFree(target: Tree, source: Tree, p: Path)
    requires |p| > 0 && CopiedWhole(target, source, p)
    ensures !IsDir(target, p) && !HasFileAncestor(target, p) && p !in target
  {
    forall q | q in target
      ensures !IsProperPrefix(p, q)
    {
      TopPrefixFacts(p, q);
    }
    TopPrefixFacts(p, p);
    forall i | 0 < i < |p|
      ensures p[..i] !in target
    {
    }
  }

  /** On a tree that agrees with the target around `p`, the step for `p` is what the target alone determines. */
  lemma StepAgrees(target: Tree, source: Tree, cur: Tree, p: Path)
    requires WellFormed(target)
    requires p in source && |p| > 0
    requires AgreesAround(cur, target, p)
    ensures InstallStep(target, source, cur, p).Ok? <==> !Conflict(target, source, p)
    ensures InstallStep(target, source, cur, p).Ok? ==>
              InstallStep(target, source, cur, p).value == cur[Landing(target, p) := Expected(target, source, p)]
  {
    AgreementFacts(cur, target, p);
    if CopiedWhole(target, source, p) {
      CopiedWholeIsFree(target, source, p);
    } else if p in target {
      FileIsNotDir(target, p);
    }
  }

  /** In a real tree a file is not a directory. */
  lemma FileIsNotDir(t: Tree, p: Path)
    requires WellFormed(t) && p in t
    ensures !IsDir(t, p)
  {
  }

  /** The place a file of a real tree lands is unrelated to every other file of that tree. */
  lemma LandingUnrelated(target: Tree, source: Tree, p: Path, q: Path)
    requires WellFormed(source) && p in source && q in source && p != q
    ensures !Related(Landing(target, p), q)
  {
    ExtensionFacts(p, p[|p| - 1], q);
  }

  /** Writing a file where nothing blocks it keeps the tree real. */
  lemma WriteKeepsWellFormed(t: Tree, l: Path, c: Content)
    requires WellFormed(t) && |l| > 0 && !IsDir(t, l) && !HasFileAncestor(t, l)
    ensures WellFormed(t[l := c])
  {
    forall a | a in t
      ensures !IsProperPrefix(a, l)
    {
      AncestorWitness(t, l, a);
    }
  }

  lemma AncestorWitness(t: Tree, l: Path, a: Path)
    ensures a in t && |a| > 0 && IsProperPrefix(a, l) ==> HasFileAncestor(t, l)
  {
    if a in t && |a| > 0 && IsProperPrefix(a, l) {
      assert l[..|a|] == a;
    }
  }

  /** Where a conflict-free file lands, nothing blocks the write. */
  lemma LandingFree(target: Tree, source: Tree, cur: Tree, p: Path)
    requires WellFormed(target) && WellFormed(cur)
    requires p in source && |p| > 0 && AgreesAround(cur, target, p)
    requires !Conflict(target, source, p)
    ensures !IsDir(cur, Landing(target, p)) && !HasFileAncestor(cur, Landing(target, p))
  {
    AgreementFacts(cur, target, p);
    if CopiedWhole(target, source, p) {
      CopiedWholeIsFree(target, source, p);
    } else if IsDir(target, p) {
      var l := Landing(target, p);
      var q :| q in target && IsProperPrefix(p, q);
      assert p !in target;
      forall i | 0 < i < |l|
        ensures l[..i] !in cur
      {
        if i == |p| {
          assert l[..i] == p;
        } else {
          assert l[..i] == p[..i];
        }
      }
    }
  }

  /** The places the files of `order` land. */
  function LandingsOf(target: Tree, order: seq<Path>): set<Path>
    requires forall i :: 0 <= i < |order| ==> |order[i]| > 0
  {
    set i | 0 <= i < |order| :: Landing(target, order[i])
  }

  /** Every file of `order` holds its expected contents at its landing place in `r`. */
  ghost predicate Placed(target: Tree, source: Tree, order: seq<Path>, r: Tree)
    requires forall i :: 0 <= i < |order| ==> order[i] in source && |order[i]| > 0
  {
    forall i :: 0 <= i < |order| ==>
      Landing(target, order[i]) in r && r[Landing(target, order[i])] == Expected(target, source, order[i])
  }

  /** `r` keeps every file of `cur` outside `written`. */
  ghost predicate Keeps(cur: Tree, r: Tree, written: set<Path>) {
    forall k :: k in cur && k !in written ==> k in r && r[k] == cur[k]
  }

  ghost predicate FoldOutcome(target: Tree, source: Tree, order: seq<Path>, cur: Tree, r: Tree)
    requires forall i :: 0 <= i < |order| ==> order[i] in source && |order[i]| > 0
  {
    && WellFormed(r)
    && Placed(target, source, order, r)
    && Keeps(cur, r, LandingsOf(target, order))
    && r.Keys <= cur.Keys + LandingsOf(target, order)
  }

  /** Extends the outcome of the rest of the fold by the write of its first file. */
  lemma FoldOutcomeCons(target: Tree, source: Tree, order: seq<Path>, cur: Tree, r: Tree)
    requires WellFormed(source)
    requires |order| > 0
    requires forall i :: 0 <= i < |order| ==> order[i] in source && |order[i]| > 0
    requires forall i, j :: 0 <= i < j < |order| ==> order[i] != order[j]
    requires FoldOutcome(target, source, order[1..], cur[Landing(target, order[0]) := Expected(target, source, order[0])], r)
    ensures FoldOutcome(target, source, order, cur, r)
  {
    var p := order[0];
    var l := Landing(target, p);
    var rest := order[1..];
    forall j | 0 <= j < |rest|
      ensures l != Landing(target, rest[j])
    {
      assert rest[j] == order[j + 1];
      LandingUnrelated(target, source, p, rest[j]);
      LandingRelated(target, rest[j]);
    }
    assert LandingsOf(target, order) == {l} + LandingsOf(target, rest) by {
      forall k | k in LandingsOf(target, order)
        ensures k in {l} + LandingsOf(target, rest)
      {
        var i :| 0 <= i < |order| && k == Landing(target, order[i]);
        if i > 0 {
          assert order[i] == rest[i - 1];
        }
      }
      forall k | k in LandingsOf(target, rest)
        ensures k in LandingsOf(target, order)
      {
        var j :| 0 <= j < |rest| && k == Landing(target, rest[j]);
        assert rest[j] == order[j + 1];
      }
    }
    forall i | 0 <= i < |order|
      ensures Landing(target, order[i]) in r && r[Landing(target, order[i])] == Expected(target, source, order[i])
    {
      if i > 0 {
        assert order[i] == rest[i - 1];
      }
    }
  }

  /** After a conflict-free first write, the rest of the fold starts from a real tree that still agrees with the target. */
  lemma NextStepReady(target: Tree, source: Tree, order: seq<Path>, cur: Tree)
    requires WellFormed(source) && WellFormed(target) && WellFormed(cur)
    requires |order| > 0
    requires forall i :: 0 <= i < |order| ==> order[i] in source && |order[i]| > 0
    requires forall i, j :: 0 <= i < j < |order| ==> order[i] != order[j]
    requires forall i :: 0 <= i < |order| ==> AgreesAround(cur, target, order[i])
    requires !Conflict(target, source, order[0])
    ensures var next := cur[Landing(target, order[0]) := Expected(target, source, order[0])];
            && WellFormed(next)
            && forall j :: 0 <= j < |order| - 1 ==> AgreesAround(next, target, order[1..][j])
  {
    var p := order[0];
    var l := Landing(target, p);
    var next := cur[l := Expected(target, source, p)];
    LandingFree(target, source, cur, p);
    WriteKeepsWellFormed(cur, l, Expected(target, source, p));
    var rest := order[1..];
    forall j | 0 <= j < |rest|
      ensures AgreesAround(next, target, rest[j])
    {
      assert rest[j] == order[j + 1];
      LandingUnrelated(target, source, p, rest[j]);
    }
  }

  /** No file of `order` conflicts exactly when the first does not and no later one does. */
  lemma ConflictShift(target: Tree, source: Tree, order: seq<Path>)
    requires |order| > 0
    requires forall i :: 0 <= i < |order| ==> order[i] in source && |order[i]| > 0
    ensures (forall i :: 0 <= i < |order| ==> !Conflict(target, source, order[i])) <==>
              !Conflict(target, source, order[0]) &&
              forall j :: 0 <= j < |order| - 1 ==> !Conflict(target, source, order[1..][j])
  {
    var rest := order[1..];
    if forall i :: 0 <= i < |order| ==> !Conflict(target, source, order[i]) {
      forall j | 0 <= j < |rest|
        ensures !Conflict(target, source, rest[j])
      {
        assert rest[j] == order[j + 1];
      }
    }
    if !Conflict(target, source, order[0]) && forall j :: 0 <= j < |rest| ==> !Conflict(target, source, rest[j]) {
      forall i | 0 <= i < |order|
        ensures !Conflict(target, source, order[i])
      {
        if i > 0 {
          assert order[i] == rest[i - 1];
        }
      }
    }
  }

  /**
   * The fold installs every file of `order` at its landing place with its expected
   * contents, fails exactly when one of them conflicts, keeps every other file and
   * keeps the tree real.
   */
  lemma {:induction false} FoldSpec(target: Tree, source: Tree, order: seq<Path>, cur: Tree)
    requires WellFormed(source) && WellFormed(target) && WellFormed(cur)
    requires forall i :: 0 <= i < |order| ==> order[i] in source && |order[i]| > 0
    requires forall i, j :: 0 <= i < j < |order| ==> order[i] != order[j]
    requires forall i :: 0 <= i < |order| ==> AgreesAround(cur, target, order[i])
    decreases |order|
    ensures MergeFold(target, source, order, cur).Ok? <==>
              forall i :: 0 <= i < |order| ==> !Conflict(target, source, order[i])
    ensures MergeFold(target, source, order, cur).Ok? ==>
              FoldOutcome(target, source, order, cur, MergeFold(target, source, order, cur).value)
  {
    if order == [] {
      assert LandingsOf(target, order) == {};
    } else {
      var p := order[0];
      var rest := order[1..];
      StepAgrees(target, source, cur, p);
      ConflictShift(target, source, order);
      if !Conflict(target, source, p) {
        var next := cur[Landing(target, p) := Expected(target, source, p)];
        NextStepReady(target, source, order, cur);
        FoldSpec(target, source, rest, next);
        assert MergeFold(target, source, order, cur) == MergeFold(target, source, rest, next);
        var res := MergeFold(target, source, rest, next);
        if res.Ok? {
          FoldOutcomeCons(target, source, order, cur, res.value);
        }
      }
    }
  }

  /** Every file of the flattened archive, mapped to where it lands. */
  function Landings(target: Tree, source: Tree): set<Path>
    requires WellFormed(source)
  {
    set p | p in source :: Landing(target, p)
  }

  /** Restates the outcome of a fold over an enumeration in terms of the files of the source. */
  lemma EnumeratedOutcome(target: Tree, source: Tree, order: seq<Path>, r: Tree)
    requires WellFormed(source) && Enumerates(order, source.Keys)
    requires FoldOutcome(target, source, order, target, r)
    ensures forall p :: p in source ==> Landing(target, p) in r && r[Landing(target, p)] == Expected(target, source, p)
    ensures forall k :: k in target && k !in Landings(target, source) ==> k in r && r[k] == target[k]
    ensures r.Keys == target.Keys + Landings(target, source)
  {
    assert Landings(target, source) == LandingsOf(target, order) by {
      forall k | k in Landings(target, source)
        ensures k in LandingsOf(target, order)
      {
        var p :| p in source && k == Landing(target, p);
        var i :| 0 <= i < |order| && order[i] == p;
      }
    }
    forall p | p in source
      ensures Landing(target, p) in r && r[Landing(target, p)] == Expected(target, source, p)
    {
      var i :| 0 <= i < |order| && order[i] == p;
    }
  }

  lemma EnumeratedConflicts(target: Tree, source: Tree, order: seq<Path>)
    requires WellFormed(source) && Enumerates(order, source.Keys)
    ensures (forall i :: 0 <= i < |order| ==> !Conflict(target, source, order[i])) <==>
            (forall p :: p in source ==> !Conflict(target, source, p))
  {
    forall p | p in source && (forall i :: 0 <= i < |order| ==> !Conflict(target, source, order[i]))
      ensures !Conflict(target, source, p)
    {
      var i :| 0 <= i < |order| && order[i] == p;
    }
  }

  /**
   * Merge mode, whatever order the directories are listed in: the install fails
   * exactly when some archive file conflicts with the target; on success every
   * archive file lands (at its own path, or inside a same-named directory) with the
   * archive's contents, except `.vscode/settings.json` in a directory that already
   * existed, which holds the merged settings; every other target file is
   * untouched; nothing else appears; and the result is a real tree.
   */
  lemma {:induction false} MergeInstallSpec(target: Tree, extracted: Tree, order: seq<Path>)
    requires WellFormed(target) && WellFormed(extracted)
    requires Enumerates(order, Flatten(extracted).Keys)
    ensures var source := Flatten(extracted);
            MergeInstall(target, extracted, order).Ok? <==> forall p :: p in source ==> !Conflict(target, source, p)
    ensures var source := Flatten(extracted);
            MergeInstall(target, extracted, order).Ok? ==>
              var r := MergeInstall(target, extracted, order).value;
              && WellFormed(r)
              && (forall p :: p in source ==> Landing(target, p) in r && r[Landing(target, p)] == Expected(target, source, p))
              && (forall k :: k in target && k !in Landings(target, source) ==> k in r && r[k] == target[k])
              && r.Keys == target.Keys + Landings(target, source)
  {
    var source := Flatten(extracted);
    FoldSpec(target, source, order, target);
    EnumeratedConflicts(target, source, order);
    var res := MergeInstall(target, extracted, order);
    if res.Ok? {
      EnumeratedOutcome(target, source, order, res.value);
    }
  }

  /** A file other than `.vscode/settings.json` is copied over whatever was there: no structural merge. */
  lemma OrdinaryFilesOverwrite(target: Tree, source: Tree, p: Path)
    requires p in source && |p| > 0 && !IsSettingsPath(p)
    ensures Expected(target, source, p) == source[p]
  {
  }
}
