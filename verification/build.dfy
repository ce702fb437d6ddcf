/**
 * The decision logic of the build script: which modules and classes become
 * custom resources, how two discovered resources compare, which files go
 * into a resource's ZIP and under what name, and the VPC condition put on
 * the template objects of a resource that runs in a VPC.
 *
 * Walking the file system, importing modules and listing their members,
 * pip, the ZIP writer and the template objects are parameters: `walk` is
 * what `os.walk` yields, `members` what `dir()` and `getattr` find in a
 * module, `isDir` what `os.path.isdir` answers.
 */
module Build {
  import opened Wrappers
  import opened Lifecycle
  import Strings
  import opened BuildPaths

  /** A template class, known by its qualified name; classes compare by identity. */
  type Class = string

  /** A custom resource found by the script; `cls` is its template class. */
  datatype CustomResource = CustomResource(name: seq<string>, lambdaPath: string, cls: Class)

  /** `CustomResource.__eq__`: two resources are the same when their classes are. */
  predicate Same(a: CustomResource, b: CustomResource) {
    a.cls == b.cls
  }

  /** `CustomResource.__hash__`: the class alone. */
  function Hash(a: CustomResource): Class {
    a.cls
  }

  /** Hash agrees with equality, and neither looks at the name or the path. */
  lemma HashRespectsSame(a: CustomResource, b: CustomResource)
    ensures Same(a, b) <==> Hash(a) == Hash(b)
    ensures Same(a, b) <==> Same(a.(name := b.name, lambdaPath := b.lambdaPath), b)
  {
  }

  function Classes(rs: seq<CustomResource>): (r: set<Class>)
    ensures forall x :: x in rs ==> x.cls in r
    ensures forall c :: c in r ==> exists x :: x in rs && x.cls == c
  {
    set x | x in rs :: x.cls
  }

  /** No two members of the set are `Same`. */
  predicate DistinctClasses(rs: seq<CustomResource>) {
    forall i, j :: 0 <= i < j < |rs| ==> rs[i].cls != rs[j].cls
  }

  /**
   * `set.add`: a resource whose class is already there leaves the set as it
   * is (the earlier member stays); otherwise it joins.
   */
  function Add(rs: seq<CustomResource>, r: CustomResource): (s: seq<CustomResource>)
    requires DistinctClasses(rs)
    ensures DistinctClasses(s)
    ensures Classes(s) == Classes(rs) + {r.cls}
    ensures (exists x :: x in rs && Same(x, r)) ==> s == rs
    ensures (forall x :: x in rs ==> !Same(x, r)) ==> s == rs + [r]
  {
    if exists x :: x in rs && Same(x, r) then rs
    else
      assert forall i :: 0 <= i < |rs| ==> rs[i].cls != r.cls by {
        forall i | 0 <= i < |rs| ensures rs[i].cls != r.cls {
          assert rs[i] in rs;
        }
      }
      rs + [r]
  }

  /** Adding a sequence of resources, in order. */
  function AddAll(rs: seq<CustomResource>, xs: seq<CustomResource>): (s: seq<CustomResource>)
    requires DistinctClasses(rs)
    ensures DistinctClasses(s)
    decreases |xs|
  {
    if |xs| == 0 then rs else AddAll(Add(rs, xs[0]), xs[1..])
  }

  /** The set holds one resource per class found, each one of those found. */
  lemma {:induction false} AddAllContents(rs: seq<CustomResource>, xs: seq<CustomResource>)
    requires DistinctClasses(rs)
    ensures Classes(AddAll(rs, xs)) == Classes(rs) + Classes(xs)
    ensures forall x :: x in AddAll(rs, xs) ==> x in rs || x in xs
    decreases |xs|
  {
    if |xs| > 0 {
      AddAllContents(Add(rs, xs[0]), xs[1..]);
      ClassesCons(xs);
    }
  }

  lemma ClassesCons(xs: seq<CustomResource>)
    requires |xs| > 0
    ensures Classes(xs) == {xs[0].cls} + Classes(xs[1..])
    ensures forall x :: x in xs <==> x == xs[0] || x in xs[1..]
  {
    assert xs == [xs[0]] + xs[1..];
  }

  /** A file the script imports: not hidden, not private, a `.py` file. */
  predicate ModuleFile(file: string) {
    !Strings.StartsWith(file, ".") && !Strings.StartsWith(file, "_") && Strings.EndsWith(file, ".py")
  }

  /** `file[:-3]`: the module's name. */
  function Stem(file: string): (r: string)
    requires ModuleFile(file)
    ensures file == r + ".py"
    ensures |r| > 0 && r[0] == file[0]
  {
    assert file[0] != '.' by { assert !Strings.StartsWith(file, "."); }
    assert |file| >= 3 && file[|file| - 3] == '.' by {
      assert file[|file| - 3..] == ".py";
    }
    file[..|file| - 3]
  }

  /** What a module holds under a name: a class, or something else. */
  datatype Candidate = Candidate(name: string, cls: Option<Class>)

  /** A member that may be a custom resource: a public class. */
  predicate PublicClass(c: Candidate) {
    !Strings.StartsWith(c.name, "_") && c.cls.Some?
  }

  /** The module's dotted name, relative to the class package. */
  function ModuleName(location: seq<string>): string {
    "." + Strings.Join(location, ".")
  }

  /** `[lambda_dir, fs_path, class_name]` joined: where the resource's code must be. */
  function LambdaCodeDir(lambdaDir: string, fsPath: string, className: string): string {
    RecJoin([lambdaDir, fsPath, className]).0
  }

  /** The resources of one module, in the order of its members. */
  function ModuleResources(location: seq<string>, lambdaDir: string, fsPath: string,
                              candidates: seq<Candidate>, isDir: string -> bool): (rs: seq<CustomResource>)
    ensures forall r :: r in rs <==>
      exists c :: c in candidates && PublicClass(c) && isDir(LambdaCodeDir(lambdaDir, fsPath, c.name)) &&
        r == CustomResource(location + [c.name], LambdaCodeDir(lambdaDir, fsPath, c.name), c.cls.value)
    decreases |candidates|
  {
    if |candidates| == 0 then []
    else
      var c := candidates[0];
      var path := LambdaCodeDir(lambdaDir, fsPath, c.name);
      var rest := ModuleResources(location, lambdaDir, fsPath, candidates[1..], isDir);
      assert forall d :: d in candidates <==> d == c || d in candidates[1..] by {
        assert candidates == [c] + candidates[1..];
      }
      if PublicClass(c) && isDir(path) then [CustomResource(location + [c.name], path, c.cls.value)] + rest
      else rest
  }

  /** `os.path.join(relative_dir, file_without_py)`: the module's path below the class directory. */
  function FsPath(relativeDir: string, file: string): (r: string)
    requires ModuleFile(file) && '/' !in file && Relative(relativeDir)
    ensures Relative(r) && |r| > 0
  {
    var stem := Stem(file);
    assert stem[0] in file;
    PathJoin(relativeDir, stem)
  }

  /** The resources of one file of the walk: none unless it is a module file. */
  function FileResources(relativeDir: string, file: string, lambdaDir: string,
                         members: string -> seq<Candidate>, isDir: string -> bool): seq<CustomResource>
    requires Relative(relativeDir) && '/' !in file
  {
    if ModuleFile(file) then
      var fs := FsPath(relativeDir, file);
      var location := RecSplit(fs);
      ModuleResources(location, lambdaDir, fs, members(ModuleName(location)), isDir)
    else []
  }

  predicate NoSlashes(files: seq<string>) {
    forall i :: 0 <= i < |files| ==> '/' !in files[i]
  }

  /** The resources found in the files of one directory of the walk. */
  function DirResources(relativeDir: string, files: seq<string>, lambdaDir: string,
                        members: string -> seq<Candidate>, isDir: string -> bool): (rs: seq<CustomResource>)
    requires Relative(relativeDir) && NoSlashes(files)
    ensures forall r :: r in rs <==>
      exists i :: 0 <= i < |files| && r in FileResources(relativeDir, files[i], lambdaDir, members, isDir)
    decreases |files|
  {
    if |files| == 0 then []
    else
      var here := FileResources(relativeDir, files[0], lambdaDir, members, isDir);
      var rest := DirResources(relativeDir, files[1..], lambdaDir, members, isDir);
      forall r
        ensures (exists i :: 0 <= i < |files| && r in FileResources(relativeDir, files[i], lambdaDir, members, isDir))
          <==> r in here || r in rest
      {
        if exists i :: 0 <= i < |files| && r in FileResources(relativeDir, files[i], lambdaDir, members, isDir) {
          var i :| 0 <= i < |files| && r in FileResources(relativeDir, files[i], lambdaDir, members, isDir);
          if i > 0 {
            assert files[1..][i - 1] == files[i];
          }
        }
        if r in rest {
          var i :| 0 <= i < |files[1..]| && r in FileResources(relativeDir, files[1..][i], lambdaDir, members, isDir);
          assert files[1..][i] == files[i + 1];
        }
      }
      here + rest
  }

  /** One directory of `os.walk`: its path and the names of its files. */
  datatype WalkEntry = WalkEntry(dirpath: string, files: seq<string>)

  /** `dirpath[len(class_dir) + 1:]` */
  function RelativeDir(dirpath: string, classDir: string): string {
    Strings.Drop(dirpath, |classDir| + 1)
  }

  /** What `os.walk` guarantees and the script relies on: directories below the class directory, file names without '/'. */
  predicate WellFormedWalk(classDir: string, walk: seq<WalkEntry>) {
    forall k :: 0 <= k < |walk| ==> Relative(RelativeDir(walk[k].dirpath, classDir)) && NoSlashes(walk[k].files)
  }

  /** Every resource the walk turns up, in walk order, before the set removes duplicates. */
  function Found(lambdaDir: string, classDir: string, walk: seq<WalkEntry>,
                 members: string -> seq<Candidate>, isDir: string -> bool): (rs: seq<CustomResource>)
    requires WellFormedWalk(classDir, walk)
    ensures forall r :: r in rs <==>
      exists k :: 0 <= k < |walk| &&
        r in DirResources(RelativeDir(walk[k].dirpath, classDir), walk[k].files, lambdaDir, members, isDir)
    decreases |walk|
  {
    if |walk| == 0 then []
    else
      var here := DirResources(RelativeDir(walk[0].dirpath, classDir), walk[0].files, lambdaDir, members, isDir);
      assert WellFormedWalk(classDir, walk[1..]) by {
        forall k | 0 <= k < |walk[1..]|
          ensures Relative(RelativeDir(walk[1..][k].dirpath, classDir)) && NoSlashes(walk[1..][k].files)
        {
          assert walk[1..][k] == walk[k + 1];
        }
      }
      var rest := Found(lambdaDir, classDir, walk[1..], members, isDir);
      forall r
        ensures (exists k :: (0 <= k < |walk| &&
          r in DirResources(RelativeDir(walk[k].dirpath, classDir), walk[k].files, lambdaDir, members, isDir)))
          <==> r in here || r in rest
      {
        if exists k :: (0 <= k < |walk| &&
          r in DirResources(RelativeDir(walk[k].dirpath, classDir), walk[k].files, lambdaDir, members, isDir))
        {
          var k :| 0 <= k < |walk| &&
            r in DirResources(RelativeDir(walk[k].dirpath, classDir), walk[k].files, lambdaDir, members, isDir);
          if k > 0 {
            assert walk[1..][k - 1] == walk[k];
          }
        }
        if r in rest {
          var k :| 0 <= k < |walk[1..]| &&
            r in DirResources(RelativeDir(walk[1..][k].dirpath, classDir), walk[1..][k].files, lambdaDir, members, isDir);
          assert walk[1..][k] == walk[k + 1];
        }
      }
      here + rest
  }

  /** `defined_custom_resources`: the found resources, one per class. */
  function DefinedCustomResources(lambdaDir: string, classDir: string, walk: seq<WalkEntry>,
                                  members: string -> seq<Candidate>, isDir: string -> bool): (rs: seq<CustomResource>)
    requires WellFormedWalk(classDir, walk)
    ensures DistinctClasses(rs)
  {
    AddAll([], Found(lambdaDir, classDir, walk, members, isDir))
  }

  /**
   * Every resource comes from a public class of a module file in the walk,
   * named by the module's location and the class name, whose code directory
   * exists; and every class found is represented.
   */
  lemma DefinedSound(lambdaDir: string, classDir: string, walk: seq<WalkEntry>,
                     members: string -> seq<Candidate>, isDir: string -> bool, r: CustomResource)
    requires WellFormedWalk(classDir, walk)
    requires r in DefinedCustomResources(lambdaDir, classDir, walk, members, isDir)
    ensures exists k, i :: (0 <= k < |walk| && 0 <= i < |walk[k].files| && ModuleFile(walk[k].files[i]) &&
      var fs := FsPath(RelativeDir(walk[k].dirpath, classDir), walk[k].files[i]);
      exists c :: (c in members(ModuleName(RecSplit(fs))) && PublicClass(c) &&
        isDir(LambdaCodeDir(lambdaDir, fs, c.name)) &&
        r == CustomResource(RecSplit(fs) + [c.name], LambdaCodeDir(lambdaDir, fs, c.name), c.cls.value)))
  {
    var found := Found(lambdaDir, classDir, walk, members, isDir);
    AddAllContents([], found);
    var k :| 0 <= k < |walk| &&
      r in DirResources(RelativeDir(walk[k].dirpath, classDir), walk[k].files, lambdaDir, members, isDir);
    var rel := RelativeDir(walk[k].dirpath, classDir);
    var i :| 0 <= i < |walk[k].files| && r in FileResources(rel, walk[k].files[i], lambdaDir, members, isDir);
    assert ModuleFile(walk[k].files[i]);
  }

  lemma DefinedComplete(lambdaDir: string, classDir: string, walk: seq<WalkEntry>,
                        members: string -> seq<Candidate>, isDir: string -> bool)
    requires WellFormedWalk(classDir, walk)
    ensures Classes(DefinedCustomResources(lambdaDir, classDir, walk, members, isDir))
         == Classes(Found(lambdaDir, classDir, walk, members, isDir))
  {
    AddAllContents([], Found(lambdaDir, classDir, walk, members, isDir));
  }

  /**
   * A module file in the directory made of `dirs` is found at location
   * `dirs` followed by the file's stem.
   */
  lemma ModuleLocation(dirs: seq<string>, file: string)
    requires Components(dirs) && ModuleFile(file) && '/' !in file
    ensures Relative(Strings.Join(dirs, "/"))
    ensures RecSplit(FsPath(Strings.Join(dirs, "/"), file)) == dirs + [Stem(file)]
  {
    var stem := Stem(file);
    assert '/' !in stem by { assert forall j :: 0 <= j < |stem| ==> stem[j] == file[j]; }
    ComponentsSnoc(dirs, stem);
    JoinThenPathJoin(dirs, stem);
    RecSplitJoin(dirs + [stem]);
  }

  lemma ComponentsSnoc(dirs: seq<string>, c: string)
    requires Components(dirs) && |c| > 0 && '/' !in c
    ensures Components(dirs + [c])
  {
    var parts := dirs + [c];
    forall j | 0 <= j < |parts| ensures |parts[j]| > 0 && '/' !in parts[j] {
      if j < |dirs| {
        assert parts[j] == dirs[j];
      }
    }
  }

  /** `os.path.join` of a directory made of components and one more component. */
  lemma JoinThenPathJoin(dirs: seq<string>, c: string)
    requires Components(dirs + [c])
    ensures Relative(Strings.Join(dirs, "/"))
    ensures PathJoin(Strings.Join(dirs, "/"), c) == Strings.Join(dirs + [c], "/")
  {
    var parts := dirs + [c];
    assert c == parts[|dirs|];
    assert c[0] in c;
    if |dirs| == 0 {
      assert parts == [c];
    } else {
      assert Components(dirs) by {
        forall j | 0 <= j < |dirs| ensures |dirs[j]| > 0 && '/' !in dirs[j] {
          assert dirs[j] == parts[j];
        }
      }
      JoinShape(dirs);
      assert dirs[0][0] in dirs[0];
      assert dirs[|dirs| - 1][|dirs[|dirs| - 1]| - 1] in dirs[|dirs| - 1];
      assert parts[..|parts| - 1] == dirs;
      JoinSnoc(parts);
    }
  }

  /** `rec_join_path([lambda_dir, fs_path, class_name])` puts a '/' between the three. */
  lemma LambdaCodeDirShape(lambdaDir: string, fsPath: string, className: string)
    requires |lambdaDir| > 0 && lambdaDir[|lambdaDir| - 1] != '/'
    requires |fsPath| > 0 && Relative(fsPath) && fsPath[|fsPath| - 1] != '/'
    requires Relative(className)
    ensures LambdaCodeDir(lambdaDir, fsPath, className) == lambdaDir + "/" + fsPath + "/" + className
  {
    var first := PathJoin(lambdaDir, fsPath);
    assert first == lambdaDir + "/" + fsPath;
    assert first[|first| - 1] == fsPath[|fsPath| - 1];
    assert [lambdaDir, fsPath, className][1..] == [fsPath, className];
    assert [fsPath, className][1..] == [className];
    assert Fold(first, [className]) == Fold(PathJoin(first, className), []);
    assert PathJoin(first, className) == first + "/" + className;
  }

  /** What `os.scandir` finds: files, and directories with their contents. */
  datatype Entry = File(name: string) | Dir(name: string, children: seq<Entry>)

  const PyCache: string := "__pycache__"

  /**
   * The files the ZIP loop adds below a set of entries, as component lists
   * relative to where the entries were listed. `__pycache__` directories are
   * skipped with all they hold.
   */
  function Collect(es: seq<Entry>): (ps: seq<seq<string>>)
    ensures forall p :: p in ps ==> |p| >= 1
    decreases es
  {
    if |es| == 0 then [] else EntryFiles(es[0]) + Collect(es[1..])
  }

  /** The files one entry contributes. */
  function EntryFiles(e: Entry): (ps: seq<seq<string>>)
    ensures forall p :: p in ps ==> |p| >= 1
    decreases e
  {
    match e
    case File(n) => [[n]]
    case Dir(n, cs) => if n == PyCache then [] else Prefixed(n, Collect(cs))
  }

  function Prefixed(n: string, ps: seq<seq<string>>): (r: seq<seq<string>>)
    requires forall p :: p in ps ==> |p| >= 1
    ensures |r| == |ps| && forall i :: 0 <= i < |ps| ==> r[i] == [n] + ps[i]
    ensures forall p :: p in r ==> |p| >= 2
  {
    seq(|ps|, i requires 0 <= i < |ps| => [n] + ps[i])
  }

  /** The component list `p` names a file that entry `e` is, or holds outside any cache directory. */
  predicate CollectedFrom(e: Entry, p: seq<string>)
    decreases e, 0
  {
    match e
    case File(n) => p == [n]
    case Dir(n, cs) => n != PyCache && |p| >= 2 && p[0] == n && p[1..] in Collect(cs)
  }

  lemma EntryFilesMembers(e: Entry, p: seq<string>)
    ensures p in EntryFiles(e) <==> CollectedFrom(e, p)
  {
    match e
    case File(n) =>
    case Dir(n, cs) =>
      if n != PyCache {
        var ps := Collect(cs);
        if |p| >= 2 && p[0] == n && p[1..] in ps {
          var i :| 0 <= i < |ps| && ps[i] == p[1..];
          assert Prefixed(n, ps)[i] == p;
        }
        if p in Prefixed(n, ps) {
          var i :| 0 <= i < |ps| && Prefixed(n, ps)[i] == p;
          assert p[1..] == ps[i];
        }
      }
  }

  /** A component list is collected exactly when some entry accounts for it. */
  lemma {:induction false} CollectMembers(es: seq<Entry>, p: seq<string>)
    ensures p in Collect(es) <==> exists e :: e in es && CollectedFrom(e, p)
    decreases es
  {
    if |es| > 0 {
      CollectMembers(es[1..], p);
      EntryFilesMembers(es[0], p);
      assert forall e :: e in es <==> e == es[0] || e in es[1..] by {
        assert es == [es[0]] + es[1..];
      }
    }
  }

  /** Nothing under a `__pycache__` directory gets into the ZIP. */
  lemma {:induction false} CollectSkipsCache(es: seq<Entry>, p: seq<string>)
    requires p in Collect(es)
    ensures forall i :: 0 <= i < |p| - 1 ==> p[i] != PyCache
    decreases |p|
  {
    CollectMembers(es, p);
    var e :| e in es && CollectedFrom(e, p);
    if e.Dir? {
      CollectSkipsCache(e.children, p[1..]);
      forall i | 1 <= i < |p| - 1 ensures p[i] != PyCache {
        assert p[i] == p[1..][i - 1];
      }
    }
  }

  /** Every file among the entries, and every file of a non-cache directory among them, is collected. */
  lemma CollectComplete(es: seq<Entry>, n: string, cs: seq<Entry>, q: seq<string>)
    ensures File(n) in es ==> [n] in Collect(es)
    ensures Dir(n, cs) in es && n != PyCache && q in Collect(cs) ==> [n] + q in Collect(es)
  {
    CollectMembers(es, [n]);
    if Dir(n, cs) in es && n != PyCache && q in Collect(cs) {
      assert ([n] + q)[1..] == q;
      assert CollectedFrom(Dir(n, cs), [n] + q);
      CollectMembers(es, [n] + q);
    }
  }

  const Requirements: string := "requirements.txt"
  const Test: string := "test"

  /** The top-level entries of the resource's code directory that are zipped as they are. */
  function TopEntries(es: seq<Entry>): (r: seq<Entry>)
    ensures forall e :: e in r <==> e in es && e.name != Requirements && e.name != Test
  {
    if |es| == 0 then []
    else
      assert forall e :: e in es <==> e == es[0] || e in es[1..] by {
        assert es == [es[0]] + es[1..];
      }
      (if es[0].name in {Requirements, Test} then [] else [es[0]]) + TopEntries(es[1..])
  }

  /** The top-level `requirements.txt` and `test` are left out, whatever they hold. */
  lemma TopLevelExcluded(es: seq<Entry>, p: seq<string>)
    requires p in Collect(TopEntries(es))
    ensures p[0] != Requirements && p[0] != Test
  {
    CollectMembers(TopEntries(es), p);
    var e :| e in TopEntries(es) && CollectedFrom(e, p);
    assert p[0] == e.name;
  }

  /** The generated module written into the pip directory next to what pip installed. */
  const Metadata: string := "_metadata.py"

  function PipEntries(installed: seq<Entry>): seq<Entry> {
    installed + [File(Metadata)]
  }

  lemma MetadataZipped(installed: seq<Entry>)
    ensures [Metadata] in Collect(PipEntries(installed))
  {
    CollectMembers(PipEntries(installed), [Metadata]);
    assert File(Metadata) in PipEntries(installed);
    assert CollectedFrom(File(Metadata), [Metadata]);
  }

  /**
   * The name inside the ZIP: a path under the code directory loses that
   * prefix and one more character, then a path under the pip directory
   * loses that prefix and one more character.
   */
  function ZipName(path: string, lambdaPrefix: string, pipDir: string): string {
    var z := if Strings.StartsWith(path, lambdaPrefix) then Strings.Drop(path, |lambdaPrefix| + 1) else path;
    if Strings.StartsWith(z, pipDir) then Strings.Drop(z, |pipDir| + 1) else z
  }

  /** A file under the code directory is stored under its path relative to it. */
  lemma ZipNameOfCode(lambdaPrefix: string, pipDir: string, rel: string)
    requires !Strings.StartsWith(rel, pipDir)
    ensures ZipName(lambdaPrefix + "/" + rel, lambdaPrefix, pipDir) == rel
  {
    var path := lambdaPrefix + "/" + rel;
    assert path[..|lambdaPrefix|] == lambdaPrefix;
    assert path[|lambdaPrefix| + 1..] == rel;
  }

  /** A file under the pip directory, outside the code directory, is stored under its path relative to the pip directory. */
  lemma ZipNameOfPip(lambdaPrefix: string, pipDir: string, rel: string)
    requires !Strings.StartsWith(pipDir + "/" + rel, lambdaPrefix)
    ensures ZipName(pipDir + "/" + rel, lambdaPrefix, pipDir) == rel
  {
    var path := pipDir + "/" + rel;
    assert path[..|pipDir|] == pipDir;
    assert path[|pipDir| + 1..] == rel;
  }

  /** The (file on disk, name in the ZIP) pairs for entries listed in `root`. */
  function ZipPairs(root: string, ps: seq<seq<string>>, lambdaPrefix: string, pipDir: string): (r: seq<(string, string)>)
    ensures |r| == |ps|
    ensures forall i :: 0 <= i < |ps| ==> r[i].0 == root + "/" + Strings.Join(ps[i], "/")
    ensures forall i :: 0 <= i < |ps| ==> r[i].1 == ZipName(r[i].0, lambdaPrefix, pipDir)
  {
    seq(|ps|, i requires 0 <= i < |ps| =>
      var path := root + "/" + Strings.Join(ps[i], "/");
      (path, ZipName(path, lambdaPrefix, pipDir)))
  }

  /** `create_zip_file`'s contents: the code directory's files, then the pip directory's. */
  function ZipContents(lambdaPath: string, pipDir: string, code: seq<Entry>, installed: seq<Entry>): (r: seq<(string, string)>)
    ensures |r| == |Collect(TopEntries(code))| + |Collect(PipEntries(installed))|
  {
    ZipPairs(lambdaPath, Collect(TopEntries(code)), lambdaPath, pipDir) +
    ZipPairs(pipDir, Collect(PipEntries(installed)), lambdaPath, pipDir)
  }

  /** Each code file keeps its relative path in the ZIP, unless that path happens to begin with the pip directory. */
  lemma CodeFilesKeepTheirPaths(lambdaPath: string, pipDir: string, code: seq<Entry>, installed: seq<Entry>, i: nat)
    requires i < |Collect(TopEntries(code))|
    requires !Strings.StartsWith(Strings.Join(Collect(TopEntries(code))[i], "/"), pipDir)
    ensures ZipContents(lambdaPath, pipDir, code, installed)[i].1 == Strings.Join(Collect(TopEntries(code))[i], "/")
  {
    ZipNameOfCode(lambdaPath, pipDir, Strings.Join(Collect(TopEntries(code))[i], "/"));
  }

  /** A template object the script creates for a resource, with its `Condition`, if set. */
  datatype AwsObject = AwsObject(title: string, condition: Option<string>)

  predicate HasCondition(o: AwsObject) {
    o.condition.Some? && o.condition.value != ""
  }

  const VpcCondition: string := "HasVpcSubnets"
  const MultipleConditions: string := "Can't handle multiple conditions"

  /**
   * Under a VPC every created object gets the `HasVpcSubnets` condition;
   * an object that already has a condition is an error. Without a VPC
   * nothing changes.
   */
  function WithVpcCondition(needsVpc: bool, objs: seq<AwsObject>): (r: Result<seq<AwsObject>, Error>)
    ensures !needsVpc ==> r == Ok(objs)
    ensures needsVpc ==> (r.Err? <==> exists i :: 0 <= i < |objs| && HasCondition(objs[i]))
    ensures r.Err? ==> r.error == ValueError(MultipleConditions)
    ensures needsVpc && r.Ok? ==> (|r.value| == |objs| &&
      forall i :: 0 <= i < |objs| ==> r.value[i] == objs[i].(condition := Some(VpcCondition)))
    decreases |objs|
  {
    if !needsVpc || |objs| == 0 then Ok(objs)
    else if HasCondition(objs[0]) then Err(ValueError(MultipleConditions))
    else
      match WithVpcCondition(true, objs[1..])
      case Err(e) =>
        var i :| 0 <= i < |objs[1..]| && HasCondition(objs[1..][i]);
        assert HasCondition(objs[i + 1]);
        Err(e)
      case Ok(rest) =>
        assert forall i :: 1 <= i < |objs| ==> objs[i] == objs[1..][i - 1];
        Ok([objs[0].(condition := Some(VpcCondition))] + rest)
  }

  /** The loop at the end of the script, one object at a time; it computes `WithVpcCondition`. */
  method ApplyVpcCondition(needsVpc: bool, objs: seq<AwsObject>) returns (r: Result<seq<AwsObject>, Error>)
    ensures r == WithVpcCondition(needsVpc, objs)
  {
    if !needsVpc {
      return Ok(objs);
    }
    var done: seq<AwsObject> := [];
    var i := 0;
    while i < |objs|
      invariant 0 <= i <= |objs| && |done| == i
      invariant forall j :: 0 <= j < i ==> !HasCondition(objs[j]) && done[j] == objs[j].(condition := Some(VpcCondition))
    {
      if HasCondition(objs[i]) {
        return Err(ValueError(MultipleConditions));
      }
      done := done + [objs[i].(condition := Some(VpcCondition))];
      i := i + 1;
    }
    ghost var w := WithVpcCondition(true, objs);
    assert w.Ok? && |w.value| == |done|;
    assert done == w.value;
    return Ok(done);
  }

  /** Once the condition is on, applying it again fails: the check stops a second condition. */
  lemma ConditionOnlyOnce(objs: seq<AwsObject>)
    requires |objs| > 0
    requires WithVpcCondition(true, objs).Ok?
    ensures WithVpcCondition(true, WithVpcCondition(true, objs).value) == Err(ValueError(MultipleConditions))
  {
    assert HasCondition(WithVpcCondition(true, objs).value[0]);
  }

  /**
   * The objects made for a resource in a VPC: its security group and that
   * group's output, its role (whose condition the class decides), its
   * function, log group, and the ServiceToken and role outputs.
   */
  function CreatedObjects(cfnName: string, role: AwsObject, needsVpc: bool): (r: seq<AwsObject>)
    ensures role in r
    ensures forall o :: o in r && o != role ==> !HasCondition(o)
  {
    var made := (t: string) => AwsObject(cfnName + t, None);
    (if needsVpc then [made("SecurityGroup"), made("SecurityGroup")] else []) +
    [role, made("Function"), made("Logs"), made("ServiceToken"), made("Role")]
  }

  /** In a VPC the script fails exactly when the class gave its role a condition. */
  lemma VpcFailsIffRoleConditioned(cfnName: string, role: AwsObject)
    ensures WithVpcCondition(true, CreatedObjects(cfnName, role, true)).Err? <==> HasCondition(role)
  {
    var objs := CreatedObjects(cfnName, role, true);
    assert objs[2] == role;
    if exists i :: 0 <= i < |objs| && HasCondition(objs[i]) {
      var i :| 0 <= i < |objs| && HasCondition(objs[i]);
      assert objs[i] in objs;
    }
  }
}
