/** The project resolver (pycograph/project.py): `PythonProject` finds the
    packages and modules of a directory tree, parses each module into
    objects, and then resolves imports, scopes and calls across modules.

    The project's state is the object arena of `ParseResult`, the list of
    modules, the `objects` map from full names to objects, and the
    `imported_names` alias table. Each step that changes it is a function
    from one `ProjectState` to the next; `PythonProject` holds the state in
    fields and its methods are proved equal to those functions. */
module Project {
  import opened Strings
  import opened NameAnalyzer
  import opened SyntaxElements
  import opened ParseResult

  // ---------------------------------------------------------------------
  // Package names

  /** `os.path.relpath(dir, root)` for a directory given by its path
      segments below the root, with "/" as the separator. */
  function RelPath(dir: seq<string>): string {
    if dir == [] then "." else Join(dir, "/")
  }

  /** The relative path with each separator replaced by ".". */
  function DottedPath(dir: seq<string>): string {
    Replace(RelPath(dir), "/", ".")
  }

  predicate NoSeparator(dir: seq<string>) {
    forall k :: 0 <= k < |dir| ==> '/' !in dir[k]
  }

  /** The dotted path of the root is "."; that of any other directory is
      its segments joined by ".". */
  lemma DottedPathSegments(dir: seq<string>)
    requires NoSeparator(dir)
    ensures dir == [] ==> DottedPath(dir) == "."
    ensures dir != [] ==> DottedPath(dir) == Join(dir, ".")
  {
    if dir == [] {
      ReplaceNoChar(".", '/', ".");
    } else {
      ReplaceSeparator(dir, '/', '.');
    }
  }

  /** The package name as `_add_package` computes it, and as the project
      model names its packages: when the dotted path starts with "src.",
      every occurrence of "src." is removed. */
  function PackageNameAsWritten(dir: seq<string>): (r: string)
    ensures !StartsWith(DottedPath(dir), "src.") ==> r == DottedPath(dir)
    ensures StartsWith(DottedPath(dir), "src.") ==> r == Replace(DottedPath(dir)[4..], "src.", "")
  {
    var name := DottedPath(dir);
    if StartsWith(name, "src.") then
      assert name == "src." + name[4..];
      ReplaceLeading("src.", name[4..], "");
      Replace(name, "src.", "")
    else name
  }

  /** The package name with the src workaround as intended: a leading
      "src." is removed, and nothing else. It is the corrected half of the
      finding about `_add_package`; the project itself follows the code. */
  function PackageName(dir: seq<string>): (r: string)
    ensures StartsWith(DottedPath(dir), "src.") ==> DottedPath(dir) == "src." + r
    ensures !StartsWith(DottedPath(dir), "src.") ==> r == DottedPath(dir)
  {
    var name := DottedPath(dir);
    if StartsWith(name, "src.") then name[4..] else name
  }

  /** For a directory below a top-level `src` directory, the package name
      is the path below `src`, dotted. */
  lemma PackageNameUnderSrc(dir: seq<string>)
    requires NoSeparator(dir) && |dir| >= 2 && dir[0] == "src"
    ensures PackageName(dir) == Join(dir[1..], ".")
  {
    DottedPathSegments(dir);
    var rest := Join(dir[1..], ".");
    assert Join(dir, ".") == "src." + rest;
    StartsWithAppend("src.", rest);
  }

  /** The root is package "."; any directory whose dotted path does not
      start with "src." keeps it whole. */
  lemma PackageNameElsewhere(dir: seq<string>)
    requires NoSeparator(dir)
    ensures dir == [] ==> PackageName(dir) == "."
    ensures dir != [] && !StartsWith(Join(dir, "."), "src.") ==> PackageName(dir) == Join(dir, ".")
  {
    DottedPathSegments(dir);
  }

  /** Both computations agree whenever "src." occurs nowhere after the
      leading one, which covers the layouts the workaround is meant for. */
  lemma PackageNameAgrees(dir: seq<string>)
    requires StartsWith(DottedPath(dir), "src.") ==> !Occurs(DottedPath(dir)[4..], "src.")
    ensures PackageNameAsWritten(dir) == PackageName(dir)
  {
    var name := DottedPath(dir);
    if StartsWith(name, "src.") {
      assert name == "src." + name[4..];
      ReplaceLeading("src.", name[4..], "");
      ReplaceAbsent(name[4..], "src.", "");
    }
  }

  /** The name the project gives a directory under `src` whose remaining
      path holds no further "src.": that remaining path, dotted. Outside
      `src` the name is the dotted path. */
  lemma PackageNameAsWrittenUsual(dir: seq<string>)
    requires NoSeparator(dir)
    ensures |dir| >= 2 && dir[0] == "src" && !Occurs(Join(dir[1..], "."), "src.") ==>
      PackageNameAsWritten(dir) == Join(dir[1..], ".")
    ensures dir == [] ==> PackageNameAsWritten(dir) == "."
    ensures dir != [] && !StartsWith(Join(dir, "."), "src.") ==> PackageNameAsWritten(dir) == Join(dir, ".")
  {
    DottedPathSegments(dir);
    if |dir| >= 2 && dir[0] == "src" && !Occurs(Join(dir[1..], "."), "src.") {
      PackageNameUnderSrc(dir);
      assert DottedPath(dir)[4..] == Join(dir[1..], ".");
      PackageNameAgrees(dir);
    }
  }

  /** The removal of every "src." also cuts into directory names that end
      in "src": `src/mysrc/io` becomes package `myio` instead of
      `mysrc.io`. */
  lemma SrcRewriteCutsNames(dir: seq<string>)
    requires dir == ["src", "mysrc", "io"]
    ensures PackageNameAsWritten(dir) == "myio"
    ensures PackageName(dir) == "mysrc.io"
  {
    DottedPathSegments(dir);
    assert dir[1..] == ["mysrc", "io"] && dir[1..][1..] == ["io"];
    assert Join(dir[1..], ".") == "mysrc.io";
    assert Join(dir, ".") == "src.mysrc.io";
    StartsWithAppend("src.", "mysrc.io");
    SrcRemoved("src.mysrc.io");
  }

  lemma SrcRemoved(name: string)
    requires name == "src.mysrc.io"
    ensures Replace(name, "src.", "") == "myio"
  {
    var t := ['i', 'o'];
    var inner := ['m', 'y'] + "src." + t;
    assert name == "src." + inner;
    ReplaceLeading("src.", inner, "");
    SrcRemovedInner('m', 'y', t);
  }

  /** Scanning past two characters that do not start "src." and then an
      occurrence of it. */
  lemma SrcRemovedInner(c: char, d: char, t: string)
    requires c != 's' && d != 's'
    ensures Replace([c, d] + "src." + t, "src.", "") == [c, d] + Replace(t, "src.", "")
  {
    var s := [c, d] + "src." + t;
    assert s[0] == c && s[1..][0] == d;
    ReplaceLetter(s, "src.");
    ReplaceLetter(s[1..], "src.");
    assert s[1..][1..] == "src." + t;
    ReplaceLeading("src.", t, "");
  }

  /** Scanning past a first character that does not start the pattern. */
  lemma ReplaceLetter(s: string, pat: string)
    requires |pat| > 0 && |s| >= |pat| && s[..|pat|] != pat
    ensures Replace(s, pat, "") == [s[0]] + Replace(s[1..], pat, "")
  {
  }

  // ---------------------------------------------------------------------
  // Module files

  /** The position of the last `c` in `s`, or -1. */
  function RFind(s: string, c: char): (r: int)
    ensures -1 <= r < |s|
    ensures r >= 0 ==> s[r] == c && c !in s[r + 1..]
    ensures r < 0 ==> c !in s
  {
    if s == [] then -1
    else if s[|s| - 1] == c then |s| - 1
    else
      assert s == s[..|s| - 1] + [s[|s| - 1]];
      RFind(s[..|s| - 1], c)
  }

  predicate AllDots(s: string) {
    forall i :: 0 <= i < |s| ==> s[i] == '.'
  }

  /** `os.path.splitext` on a file name: the extension runs from the last
      dot to the end, unless only dots precede that dot (as in ".bashrc"),
      in which case there is none. */
  function SplitExt(f: string): (r: (string, string))
    ensures r.0 + r.1 == f
    ensures r.1 != [] ==> r.1[0] == '.' && '.' !in r.1[1..] && !AllDots(r.0)
  {
    var d := RFind(f, '.');
    if d >= 0 && !AllDots(f[..d]) then
      assert f[d..][1..] == f[d + 1..];
      (f[..d], f[d..])
    else (f, "")
  }

  /** `_parse_file_system` takes a file as a module when its extension is
      ".py" and it is not "setup.py": when it ends in ".py" after something
      other than dots, and is not "setup.py". */
  predicate IsModuleFile(f: string)
    ensures IsModuleFile(f) <==>
      |f| >= 4 && f[|f| - 3..] == ".py" && !AllDots(f[..|f| - 3]) && f != "setup.py"
  {
    ModuleFileShape(f);
    SplitExt(f).1 == ".py" && f != "setup.py"
  }

  /** A file has extension ".py" exactly when it ends in ".py" after at
      least one character other than a dot; its module name is then what
      precedes ".py". */
  lemma ModuleFileShape(f: string)
    ensures SplitExt(f).1 == ".py" <==>
      |f| >= 4 && f[|f| - 3..] == ".py" && !AllDots(f[..|f| - 3])
    ensures SplitExt(f).1 == ".py" ==> SplitExt(f).0 == f[..|f| - 3]
  {
    var r := SplitExt(f);
    if |f| >= 4 && f[|f| - 3..] == ".py" && !AllDots(f[..|f| - 3]) {
      var d := RFind(f, '.');
      assert f[|f| - 3] == '.';
      assert f[|f| - 2] == 'p' && f[|f| - 1] == 'y';
      assert d == |f| - 3;
    }
    if r.1 == ".py" {
      assert f == r.0 + ".py";
      assert f[..|f| - 3] == r.0;
    }
  }

  /** The module names of the module files among `files`, in order. */
  function ModuleNames(files: seq<string>): (r: seq<string>)
    ensures |r| <= |files|
  {
    if files == [] then []
    else (if IsModuleFile(files[0]) then [SplitExt(files[0]).0] else []) + ModuleNames(files[1..])
  }

  // ---------------------------------------------------------------------
  // Relative import paths

  /** Python's `segs[:stop]`: a negative `stop` counts from the end, and
      both are clamped to the sequence. */
  function SliceTo<T>(segs: seq<T>, stop: int): seq<T> {
    if stop >= 0 then (if stop <= |segs| then segs[..stop] else segs)
    else if -stop <= |segs| then segs[..|segs| + stop]
    else []
  }

  /** `_get_relative_imported_path`: the package `level` steps up from the
      module, then "." and the imported name. */
  function RelativeImportedPath(moduleFullName: string, importFullName: string, level: int): (r: string)
    ensures |r| > |importFullName| && r[|r| - |importFullName| - 1..] == "." + importFullName
  {
    Join(SliceTo(Split(moduleFullName, '.'), -level), ['.']) + ['.'] + importFullName
  }

  /** Going up fewer levels than the module has segments keeps the first
      `len - level` segments of the module's name. */
  lemma RelativePathPrefix(segs: seq<string>, moduleFullName: string, importFullName: string, level: int)
    requires segs == Split(moduleFullName, '.') && 0 < level < |segs|
    ensures RelativeImportedPath(moduleFullName, importFullName, level)
      == Join(segs[..|segs| - level], ['.']) + ['.'] + importFullName
  {
    assert SliceTo(segs, -level) == segs[..|segs| - level];
  }

  /** ... and the segments of the path are those kept, then those of the
      imported name. */
  lemma RelativePathKeepsPrefix(moduleFullName: string, importFullName: string, level: int)
    requires 0 < level < |Split(moduleFullName, '.')|
    ensures var segs := Split(moduleFullName, '.');
      Split(RelativeImportedPath(moduleFullName, importFullName, level), '.')
        == segs[..|segs| - level] + Split(importFullName, '.')
  {
    var segs := Split(moduleFullName, '.');
    var kept := segs[..|segs| - level];
    RelativePathPrefix(segs, moduleFullName, importFullName, level);
    PrefixSegments(segs, |segs| - level);
    SplitJoinThen(kept, '.', importFullName);
  }

  /** A prefix of the pieces of a split holds no separator either. */
  lemma PrefixSegments(segs: seq<string>, n: nat)
    requires n <= |segs| && forall k :: 0 <= k < |segs| ==> '.' !in segs[k]
    ensures forall k :: 0 <= k < |segs[..n]| ==> '.' !in segs[..n][k]
  {
  }

  /** Going up as many levels as the module has segments, or more, leaves
      an empty package prefix, and so does level 0 (`[:-0]` is empty): the
      path then starts with ".". */
  lemma RelativePathBeyondTop(moduleFullName: string, importFullName: string, level: int)
    requires level == 0 || level >= |Split(moduleFullName, '.')|
    ensures RelativeImportedPath(moduleFullName, importFullName, level) == "." + importFullName
  {
  }

  /** At level 1 the path names a sibling of the module: for module
      `pkg.mod`, the imported name inside `pkg`. */
  lemma SiblingPath(package: string, moduleName: string, importFullName: string)
    requires '.' !in moduleName
    ensures RelativeImportedPath(package + "." + moduleName, importFullName, 1) == package + "." + importFullName
  {
    SplitAppend(package, '.', moduleName);
    var segs := Split(package + "." + moduleName, '.');
    assert segs[..|segs| - 1] == Split(package, '.');
    JoinSplit(package, '.');
  }

  // ---------------------------------------------------------------------
  // Finding objects by full name

  /** `_find_by_full_name`: the object under `n`, else the object found for
      the name `n` is an alias of, when that is not empty. The alias chain
      is followed for at most `fuel` steps. */
  function FindByFullNameFuel(objects: map<string, nat>, imported: map<string, string>,
                              n: string, fuel: nat): (r: Option<nat>)
    ensures r.Some? ==> r.value in objects.Values
    decreases fuel
  {
    if n in objects then Some(objects[n])
    else if n in imported && imported[n] != "" then
      if fuel == 0 then None else FindByFullNameFuel(objects, imported, imported[n], fuel - 1)
    else None
  }

  /** The lookup with one step per alias. */
  function FindByFullName(objects: map<string, nat>, imported: map<string, string>, n: string): (r: Option<nat>)
    ensures r.Some? ==> r.value in objects.Values
    ensures n in objects ==> r == Some(objects[n])
  {
    FindByFullNameFuel(objects, imported, n, |imported|)
  }

  /** Every alias names an object. `_process_resolved_import` only records
      full names of objects it found, so the project keeps this. */
  predicate AliasesResolved(objects: map<string, nat>, imported: map<string, string>) {
    forall k :: k in imported ==> imported[k] in objects
  }

  /** When every alias names an object, the lookup finds the object under
      the name, else the object under its alias, else nothing; the alias
      chain then has length at most one and the step bound never cuts it. */
  lemma FindByFullNameShallow(objects: map<string, nat>, imported: map<string, string>, n: string)
    requires AliasesResolved(objects, imported)
    ensures n in objects ==> FindByFullName(objects, imported, n) == Some(objects[n])
    ensures n !in objects && n in imported && imported[n] != "" ==>
      FindByFullName(objects, imported, n) == Some(objects[imported[n]])
    ensures n !in objects && (n !in imported || imported[n] == "") ==> FindByFullName(objects, imported, n) == None
  {
    if n !in objects && n in imported && imported[n] != "" {
      assert n in imported.Keys;
      var fuel := |imported|;
      assert fuel > 0;
      assert imported[n] in objects;
      assert FindByFullNameFuel(objects, imported, n, fuel)
             == FindByFullNameFuel(objects, imported, imported[n], fuel - 1);
    }
  }

  // ---------------------------------------------------------------------
  // Resolving one import

  /** `_resolve_import`: an absolute import is looked up under its full
      name and, failing that, next to the importing module; a relative one
      only at its relative path. */
  function ResolveImport(objects: map<string, nat>, imported: map<string, string>,
                         imp: ImportElement, moduleFullName: string): (r: Option<nat>)
    ensures r.Some? ==> r.value in objects.Values
  {
    var what := WhatFullName(imp);
    if RefType(imp) == Absolute then
      var direct := FindByFullName(objects, imported, what);
      if direct.Some? then direct
      else FindByFullName(objects, imported, RelativeImportedPath(moduleFullName, what, 1))
    else FindByFullName(objects, imported, RelativeImportedPath(moduleFullName, what, imp.level))
  }

  /** An absolute import of an object's full name resolves to that object,
      wherever the importing module is. */
  lemma ResolveAbsoluteDirect(objects: map<string, nat>, imported: map<string, string>,
                              imp: ImportElement, moduleFullName: string)
    requires AliasesResolved(objects, imported)
    requires RefType(imp) == Absolute && WhatFullName(imp) in objects
    ensures ResolveImport(objects, imported, imp, moduleFullName) == Some(objects[WhatFullName(imp)])
  {
    FindByFullNameShallow(objects, imported, WhatFullName(imp));
  }

  /** An absolute import of a name the project does not know is looked up
      next to the importing module `package.moduleName`. */
  lemma ResolveAbsoluteSibling(objects: map<string, nat>, imported: map<string, string>,
                               imp: ImportElement, package: string, moduleName: string)
    requires AliasesResolved(objects, imported) && '.' !in moduleName
    requires RefType(imp) == Absolute && WhatFullName(imp) !in objects && WhatFullName(imp) !in imported
    ensures ResolveImport(objects, imported, imp, package + "." + moduleName)
            == FindByFullName(objects, imported, package + "." + WhatFullName(imp))
  {
    FindByFullNameShallow(objects, imported, WhatFullName(imp));
    SiblingPath(package, moduleName, WhatFullName(imp));
  }

  /** A relative import is looked up at its relative path and nowhere
      else: with `level` leading dots, under the module's name without its
      last `level` segments, however the project's objects and aliases
      otherwise look. */
  lemma ResolveRelativeOnly(objects: map<string, nat>, imported: map<string, string>,
                            imp: ImportElement, moduleFullName: string, segs: seq<string>)
    requires segs == Split(moduleFullName, '.')
    requires RefType(imp) == Relative && 0 < imp.level < |segs|
    ensures ResolveImport(objects, imported, imp, moduleFullName)
            == FindByFullName(objects, imported, Join(segs[..|segs| - imp.level], ['.']) + ['.'] + WhatFullName(imp))
  {
    RelativePathPrefix(segs, moduleFullName, WhatFullName(imp), imp.level);
  }

  /** With one leading dot, the import is looked up next to the importing
      module `package.moduleName`. */
  lemma ResolveRelativeSibling(objects: map<string, nat>, imported: map<string, string>,
                               imp: ImportElement, package: string, moduleName: string)
    requires RefType(imp) == Relative && imp.level == 1 && '.' !in moduleName
    ensures ResolveImport(objects, imported, imp, package + "." + moduleName)
            == FindByFullName(objects, imported, package + "." + WhatFullName(imp))
  {
    SiblingPath(package, moduleName, WhatFullName(imp));
  }

  /** A relative import that goes above the top of the importing module's
      name is looked up under "." and the imported name. */
  lemma ResolveRelativeBeyondTop(objects: map<string, nat>, imported: map<string, string>,
                                 imp: ImportElement, moduleFullName: string)
    requires RefType(imp) == Relative && imp.level >= |Split(moduleFullName, '.')|
    ensures ResolveImport(objects, imported, imp, moduleFullName)
            == FindByFullName(objects, imported, "." + WhatFullName(imp))
  {
    RelativePathBeyondTop(moduleFullName, WhatFullName(imp), imp.level);
  }

  // ---------------------------------------------------------------------
  // The name an import is registered under

  /** The owner of a module's imported names: the module, or for an
      `__init__` module its full name with ".__init__" removed. */
  function OwnerName(o: Obj): (r: string)
    ensures !(o.kind == ModuleKind && o.name == "__init__") ==> r == o.fullName
  {
    if Label(o) == "init" then Replace(o.fullName, ".__init__", "") else o.fullName
  }

  /** The imported names of a package's `__init__` module are registered
      under the package's name, whenever ".__init__" does not occur in
      that name. */
  lemma InitOwnerName(o: Obj, package: string)
    requires o.kind == ModuleKind && o.name == "__init__" && o.fullName == package + ".__init__"
    requires !Occurs(package, ".__init__")
    ensures OwnerName(o) == package
  {
    ReplaceInitSuffix(package);
  }

  /** Removing ".__init__" from `p + ".__init__"` gives `p` back when `p`
      holds no ".__init__": a match cannot straddle the boundary, because
      "." occurs in the suffix only at its start. */
  lemma {:induction false} ReplaceInitSuffix(p: string)
    requires !Occurs(p, ".__init__")
    ensures Replace(p + ".__init__", ".__init__", "") == p
    decreases |p|
  {
    var pat := ".__init__";
    var s := p + pat;
    if p == [] {
      assert s == pat + [];
      ReplaceLeading(pat, [], "");
    } else {
      InitNotAtFront(p);
      assert s[1..] == p[1..] + pat;
      NotOccursTail(p, pat);
      ReplaceInitSuffix(p[1..]);
    }
  }

  /** `p + ".__init__"` does not start with ".__init__" when `p` is not
      empty and holds no ".__init__". */
  lemma InitNotAtFront(p: string)
    requires |p| > 0 && !Occurs(p, ".__init__")
    ensures (p + ".__init__")[..9] != ".__init__"
  {
    var pat := ".__init__";
    var s := p + pat;
    if |p| >= 9 {
      assert p[0..] == p;
      assert !StartsWith(p[0..], pat);
      assert s[..9] == p[..9];
    } else {
      assert s[|p|] == '.';
      assert pat[|p|] != '.';
    }
  }

  lemma NotOccursTail(p: string, pat: string)
    requires |p| > 0 && !Occurs(p, pat)
    ensures !Occurs(p[1..], pat)
  {
    forall i | 0 <= i <= |p[1..]| ensures !StartsWith(p[1..][i..], pat) {
      assert p[1..][i..] == p[i + 1..];
    }
  }

  // ---------------------------------------------------------------------
  // The project's state

  /** One directory of the walk: its path segments below the root and the
      names of its files, in listing order. */
  datatype DirEntry = DirEntry(dir: seq<string>, files: seq<string>)

  /** The object arena, `modules`, `objects` and `imported_names`. */
  datatype ProjectState = ProjectState(heap: Heap, modules: seq<nat>, objects: map<string, nat>,
                                       imported: map<string, string>)

  /** The project's invariant: the arena is well formed, every module and
      every entry of `objects` is an object, each object is entered under
      its own full name, and every alias names an object. */
  predicate Consistent(p: ProjectState) {
    && Wf(p.heap)
    && (forall i :: 0 <= i < |p.modules| ==> p.modules[i] in p.heap.objs)
    && (forall n :: n in p.objects ==> p.objects[n] in p.heap.objs && p.heap.objs[p.objects[n]].fullName == n)
    && AliasesResolved(p.objects, p.imported)
  }

  /** A freshly constructed project. */
  function EmptyProject(): (p: ProjectState)
    ensures Consistent(p)
  {
    ProjectState(Heap(map[], 0), [], map[], map[])
  }

  // ---------------------------------------------------------------------
  // Finding packages and modules

  /** `_add_package`: a new package object for the directory, entered in
      `objects` under its name. */
  function PackageAdded(p: ProjectState, dir: seq<string>, determineTestTypes: bool): (r: (ProjectState, nat))
    requires Consistent(p)
    ensures Consistent(r.0) && r.1 == p.heap.next
    ensures r.0.heap.next == p.heap.next + 1 && r.0.heap.objs.Keys == p.heap.objs.Keys + {p.heap.next}
  {
    var package := NewPackage(PackageNameAsWritten(dir), dir, determineTestTypes);
    LeafAddedConsistent(p, package);
    (LeafAdded(p, package), p.heap.next)
  }

  /** `_add_package`: the new package takes the next id, is entered in
      `objects` under the package name of its directory, and nothing else
      changes. */
  lemma PackageAddedEffect(p: ProjectState, dir: seq<string>, determineTestTypes: bool)
    requires Consistent(p)
    ensures var (q, id) := PackageAdded(p, dir, determineTestTypes);
      && id == p.heap.next
      && q.heap.objs[id] == NewPackage(PackageNameAsWritten(dir), dir, determineTestTypes)
      && q.objects == p.objects[PackageNameAsWritten(dir) := id]
      && q.modules == p.modules && q.imported == p.imported
      && (forall k :: k in p.heap.objs ==> q.heap.objs[k] == p.heap.objs[k])
  {
  }

  /** A new object without children, stored under the next free id and
      entered in `objects` under its full name. */
  function LeafAdded(p: ProjectState, o: Obj): ProjectState {
    p.(heap := Heap(p.heap.objs[p.heap.next := o], p.heap.next + 1),
       objects := p.objects[o.fullName := p.heap.next])
  }

  lemma LeafAddedConsistent(p: ProjectState, o: Obj)
    requires Consistent(p) && o.children == []
    ensures Consistent(LeafAdded(p, o))
  {
    var q := LeafAdded(p, o);
    assert Wf(q.heap) by {
      forall k, j | k in q.heap.objs && 0 <= j < |q.heap.objs[k].children|
        ensures q.heap.objs[k].children[j] in q.heap.objs && k < q.heap.objs[k].children[j]
      {
        assert k != p.heap.next;
      }
    }
    forall n | n in q.objects
      ensures q.objects[n] in q.heap.objs && q.heap.objs[q.objects[n]].fullName == n
    {
      if n != o.fullName {
        assert p.objects[n] in p.heap.objs;
      }
    }
  }

  /** `_add_module_to_package`: the package gains a new module, which is
      entered in `objects` and appended to `modules`. */
  function ModuleAdded(p: ProjectState, package: nat, name: string): (q: ProjectState)
    requires Consistent(p) && package in p.heap.objs
    ensures Consistent(q)
    ensures q.heap.next == p.heap.next + 1 && q.heap.objs.Keys == p.heap.objs.Keys + {p.heap.next}
  {
    var id := p.heap.next;
    var h := AddedContent(p.heap, package, NewModule(p.heap.objs[package], name));
    p.(heap := h, objects := p.objects[h.objs[id].fullName := id], modules := p.modules + [id])
  }

  /** The loop of `_parse_file_system` over the files of one directory,
      from position `i` on, with `current` the directory's package once it
      exists. */
  function DirParsed(p: ProjectState, e: DirEntry, i: nat, current: Option<nat>, determineTestTypes: bool)
    : (q: ProjectState)
    requires Consistent(p) && i <= |e.files| && (current.Some? ==> current.value in p.heap.objs)
    ensures Consistent(q)
    decreases |e.files| - i
  {
    if i == |e.files| then p
    else if IsModuleFile(e.files[i]) then
      var added := if current.None? then PackageAdded(p, e.dir, determineTestTypes) else (p, current.value);
      DirParsed(ModuleAdded(added.0, added.1, SplitExt(e.files[i]).0), e, i + 1, Some(added.1), determineTestTypes)
    else DirParsed(p, e, i + 1, current, determineTestTypes)
  }

  /** `_add_module_to_package`: the new module takes the next id, is named
      `name`, has the package's full name followed by `name` as its full
      name, is appended to `modules` and entered in `objects` under that
      full name; the package keeps its identity and no other object
      changes. */
  lemma ModuleAddedEffect(p: ProjectState, package: nat, name: string)
    requires Consistent(p) && package in p.heap.objs
    ensures var q := ModuleAdded(p, package, name);
      var id, pk := p.heap.next, p.heap.objs[package];
      && q.modules == p.modules + [id] && q.objects == p.objects[pk.fullName + "." + name := id]
      && id in q.heap.objs && q.heap.objs[id].kind == ModuleKind && q.heap.objs[id].name == name
      && q.heap.objs[id].fullName == pk.fullName + "." + name
      && SameIdentity(q.heap.objs[package], pk)
      && (forall k :: k in p.heap.objs && k != package ==> q.heap.objs[k] == p.heap.objs[k])
  {
  }

  /** `q` extends `p` by modules with consecutive ids from `base`, named
      `names` in order, all in the package named `packageName`. */
  predicate ModulesAppended(p: ProjectState, q: ProjectState, base: nat, names: seq<string>, packageName: string) {
    && q.heap.next == base + |names|
    && |q.modules| == |p.modules| + |names| && q.modules[..|p.modules|] == p.modules
    && ModulesListed(q, |p.modules|, base, names, packageName)
  }

  /** From position `start` of `modules` on, `q` holds modules with
      consecutive ids from `base`, named `names` in order. */
  predicate ModulesListed(q: ProjectState, start: nat, base: nat, names: seq<string>, packageName: string) {
    forall j :: 0 <= j < |names| ==> ModuleAt(q, start + j, base + j, names[j], packageName)
  }

  /** Position `pos` of `modules` holds module `id`, named `name`, in the
      package named `packageName`. */
  predicate ModuleAt(q: ProjectState, pos: nat, id: nat, name: string, packageName: string) {
    && pos < |q.modules| && q.modules[pos] == id && id in q.heap.objs
    && q.heap.objs[id].kind == ModuleKind && q.heap.objs[id].name == name
    && q.heap.objs[id].fullName == packageName + "." + name
  }

  lemma ModulesAppendedCons(p: ProjectState, p1: ProjectState, q: ProjectState, base: nat,
                            name: string, names: seq<string>, all: seq<string>, packageName: string)
    requires all == [name] + names && ModulesAppended(p1, q, base + 1, names, packageName)
    requires p1.modules == p.modules + [base] && base in p1.heap.objs && base in q.heap.objs
    requires q.heap.objs[base] == p1.heap.objs[base]
    requires p1.heap.objs[base].kind == ModuleKind && p1.heap.objs[base].name == name
    requires p1.heap.objs[base].fullName == packageName + "." + name
    ensures ModulesAppended(p, q, base, all, packageName)
  {
    assert q.modules[..|p.modules|] == q.modules[..|p1.modules|][..|p.modules|] == p.modules;
    assert |q.modules| == |p.modules| + |all|;
    forall j | 0 <= j < |all|
      ensures ModuleAt(q, |p.modules| + j, base + j, all[j], packageName)
    {
      if j == 0 {
        assert q.modules[|p.modules|] == q.modules[..|p1.modules|][|p.modules|] == p1.modules[|p.modules|];
        assert all[0] == name;
      } else {
        assert all[j] == names[j - 1];
        assert ModuleAt(q, |p1.modules| + (j - 1), (base + 1) + (j - 1), names[j - 1], packageName);
      }
    }
    assert q.heap.next == base + |all|;
    assert ModulesAppended(p, q, base, all, packageName);
  }

  /** The modules the loop over one directory's files from position `i`
      on adds: one per module file, in order, with consecutive ids that
      follow the package when the loop creates it, its file name without
      ".py" as name, in the directory's package; no module file, no change. */
  predicate DirModules(p: ProjectState, q: ProjectState, e: DirEntry, i: nat, current: Option<nat>)
    requires i <= |e.files| && (current.Some? ==> current.value in p.heap.objs)
  {
    ModulesAdded(p, q, DirBase(p, e, i, current), ModuleNames(e.files[i..]), DirPackageName(p, e, current))
  }

  /** The id of the directory's first module: the next free one, or the
      one after it when the loop creates the package first. */
  function DirBase(p: ProjectState, e: DirEntry, i: nat, current: Option<nat>): nat
    requires i <= |e.files|
  {
    p.heap.next + (if current.None? && |ModuleNames(e.files[i..])| > 0 then 1 else 0)
  }

  /** The modules `names` appended from id `base` on, or no change at all
      when there are none. */
  predicate ModulesAdded(p: ProjectState, q: ProjectState, base: nat, names: seq<string>, packageName: string) {
    && ModulesAppended(p, q, base, names, packageName)
    && (|names| == 0 ==> q == p)
  }

  /** The name of the directory's package: that of the existing package,
      or the one a new package gets. */
  function DirPackageName(p: ProjectState, e: DirEntry, current: Option<nat>): string
    requires current.Some? ==> current.value in p.heap.objs
  {
    if current.Some? then p.heap.objs[current.value].fullName else PackageNameAsWritten(e.dir)
  }

  /** The rest of what the loop over one directory's files does: a package
      is created only when a module file comes before any package exists,
      under the next id and named after the directory; no object that was
      there before changes, except the package's contents. */
  predicate DirFrame(p: ProjectState, q: ProjectState, e: DirEntry, i: nat, current: Option<nat>)
    requires i <= |e.files| && (current.Some? ==> current.value in p.heap.objs)
  {
    var created := current.None? && |ModuleNames(e.files[i..])| > 0;
    && p.heap.objs.Keys <= q.heap.objs.Keys
    && (created ==> p.heap.next in q.heap.objs && q.heap.objs[p.heap.next].kind == PackageKind
                    && q.heap.objs[p.heap.next].fullName == PackageNameAsWritten(e.dir))
    && (current.Some? ==> SameIdentity(q.heap.objs[current.value], p.heap.objs[current.value]))
    && (forall k :: k in p.heap.objs && (current.None? || k != current.value) ==> q.heap.objs[k] == p.heap.objs[k])
  }

  /** The loop over one directory's files from position `i` on. */
  lemma {:induction false} DirParsedModules(p: ProjectState, e: DirEntry, i: nat, current: Option<nat>,
                                            determineTestTypes: bool)
    requires Consistent(p) && i <= |e.files| && (current.Some? ==> current.value in p.heap.objs)
    ensures var q := DirParsed(p, e, i, current, determineTestTypes);
      DirModules(p, q, e, i, current) && DirFrame(p, q, e, i, current)
    decreases |e.files| - i
  {
    if i == |e.files| {
      DirEnd(p, e, i, current);
    } else {
      var f := e.files[i];
      assert e.files[i..] == [f] + e.files[i + 1..];
      if IsModuleFile(f) {
        var added := if current.None? then PackageAdded(p, e.dir, determineTestTypes) else (p, current.value);
        var p1 := ModuleAdded(added.0, added.1, SplitExt(f).0);
        ModuleStepFactsHold(p, e, i, current, determineTestTypes);
        DirParsedModules(p1, e, i + 1, Some(added.1), determineTestTypes);
        var q := DirParsed(p1, e, i + 1, Some(added.1), determineTestTypes);
        DirStepFrame(p, added.0, added.1, p1, q, e, i, current);
        DirStepModules(p, added.0, added.1, p1, q, e, i, current);
        assert DirParsed(p, e, i, current, determineTestTypes) == q;
      } else {
        DirParsedModules(p, e, i + 1, current, determineTestTypes);
        DirSkip(p, DirParsed(p, e, i + 1, current, determineTestTypes), e, i, current);
      }
    }
  }

  lemma DirEnd(p: ProjectState, e: DirEntry, i: nat, current: Option<nat>)
    requires i == |e.files| && (current.Some? ==> current.value in p.heap.objs)
    ensures DirModules(p, p, e, i, current) && DirFrame(p, p, e, i, current)
  {
    assert e.files[i..] == [];
  }

  /** A file that is not a module file changes nothing. */
  lemma DirSkip(p: ProjectState, q: ProjectState, e: DirEntry, i: nat, current: Option<nat>)
    requires i < |e.files| && !IsModuleFile(e.files[i]) && (current.Some? ==> current.value in p.heap.objs)
    requires e.files[i..] == [e.files[i]] + e.files[i + 1..]
    requires DirModules(p, q, e, i + 1, current) && DirFrame(p, q, e, i + 1, current)
    ensures DirModules(p, q, e, i, current) && DirFrame(p, q, e, i, current)
  {
    ModuleNamesSkip(e.files, i);
    DirModulesSkip(p, q, e, i, current);
  }

  /** A file that is not a module file adds no module name. */
  lemma ModuleNamesSkip(files: seq<string>, i: nat)
    requires i < |files| && !IsModuleFile(files[i])
    ensures ModuleNames(files[i..]) == ModuleNames(files[i + 1..])
  {
    assert files[i..][0] == files[i] && files[i..][1..] == files[i + 1..];
  }

  lemma DirModulesSkip(p: ProjectState, q: ProjectState, e: DirEntry, i: nat, current: Option<nat>)
    requires i < |e.files| && (current.Some? ==> current.value in p.heap.objs)
    requires ModuleNames(e.files[i..]) == ModuleNames(e.files[i + 1..])
    requires DirModules(p, q, e, i + 1, current)
    ensures DirModules(p, q, e, i, current)
  {
    assert DirBase(p, e, i, current) == DirBase(p, e, i + 1, current);
  }

  /** The package part of one step of the loop for a module file: `p0`
      is `p` with the package `package`, created if there was none. */
  predicate PackageStep(p: ProjectState, p0: ProjectState, package: nat, e: DirEntry, current: Option<nat>) {
    && Wf(p.heap) && package in p0.heap.objs
    && (current.Some? ==> p0 == p && package == current.value && package in p.heap.objs)
    && (current.None? ==>
          && package == p.heap.next && p0.heap.next == p.heap.next + 1 && p0.modules == p.modules
          && p0.heap.objs[package].kind == PackageKind && p0.heap.objs[package].fullName == PackageNameAsWritten(e.dir))
  }

  /** A created package is the only new object and changes no other. */
  predicate PackageFrame(p: ProjectState, p0: ProjectState, package: nat, current: Option<nat>) {
    current.None? ==>
      && p0.heap.objs.Keys == p.heap.objs.Keys + {package}
      && (forall k :: k in p.heap.objs ==> p0.heap.objs[k] == p.heap.objs[k])
  }

  /** The module part of one step: `p1` is `p0` with module `name` added
      to the package. */
  predicate ModuleStep(p0: ProjectState, package: nat, p1: ProjectState, name: string) {
    && package in p0.heap.objs
    && var id, pk := p0.heap.next, p0.heap.objs[package];
       && p1.modules == p0.modules + [id] && p1.heap.objs.Keys == p0.heap.objs.Keys + {id}
       && p1.heap.next == id + 1
       && p1.heap.objs[id].kind == ModuleKind && p1.heap.objs[id].name == name
       && p1.heap.objs[id].fullName == pk.fullName + "." + name
       && SameIdentity(p1.heap.objs[package], pk)
  }

  /** Adding the module changes no object but the package. */
  predicate ModuleFrame(p0: ProjectState, package: nat, p1: ProjectState) {
    && p0.heap.objs.Keys <= p1.heap.objs.Keys
    && (forall k :: k in p0.heap.objs && k != package ==> p1.heap.objs[k] == p0.heap.objs[k])
  }

  lemma ModuleStepFactsHold(p: ProjectState, e: DirEntry, i: nat, current: Option<nat>, determineTestTypes: bool)
    requires Consistent(p) && i < |e.files| && IsModuleFile(e.files[i])
    requires current.Some? ==> current.value in p.heap.objs
    ensures var added := if current.None? then PackageAdded(p, e.dir, determineTestTypes) else (p, current.value);
      var p1 := ModuleAdded(added.0, added.1, SplitExt(e.files[i]).0);
      && PackageStep(p, added.0, added.1, e, current) && PackageFrame(p, added.0, added.1, current)
      && ModuleStep(added.0, added.1, p1, SplitExt(e.files[i]).0) && ModuleFrame(added.0, added.1, p1)
  {
    var added := if current.None? then PackageAdded(p, e.dir, determineTestTypes) else (p, current.value);
    ModuleAddedEffect(added.0, added.1, SplitExt(e.files[i]).0);
  }

  lemma DirStepModules(p: ProjectState, p0: ProjectState, package: nat, p1: ProjectState, q: ProjectState,
                       e: DirEntry, i: nat, current: Option<nat>)
    requires i < |e.files| && IsModuleFile(e.files[i])
    requires PackageStep(p, p0, package, e, current) && ModuleStep(p0, package, p1, SplitExt(e.files[i]).0)
    requires e.files[i..] == [e.files[i]] + e.files[i + 1..]
    requires DirModules(p1, q, e, i + 1, Some(package))
    requires q.heap.objs.Keys >= p1.heap.objs.Keys && q.heap.objs[p0.heap.next] == p1.heap.objs[p0.heap.next]
    ensures DirModules(p, q, e, i, current)
  {
    if current.Some? {
      DirStepModulesInPackage(p, package, p1, q, e, i);
    } else {
      DirStepModulesNewPackage(p, p0, package, p1, q, e, i);
    }
  }

  /** One module file when the directory's package already exists. */
  lemma DirStepModulesInPackage(p: ProjectState, package: nat, p1: ProjectState, q: ProjectState, e: DirEntry, i: nat)
    requires i < |e.files| && IsModuleFile(e.files[i])
    requires ModuleStep(p, package, p1, SplitExt(e.files[i]).0)
    requires DirModules(p1, q, e, i + 1, Some(package))
    requires q.heap.objs.Keys >= p1.heap.objs.Keys && q.heap.objs[p.heap.next] == p1.heap.objs[p.heap.next]
    ensures DirModules(p, q, e, i, Some(package))
  {
    var base, name := p.heap.next, SplitExt(e.files[i]).0;
    var packageName := p.heap.objs[package].fullName;
    DirModulesCons(p, p1, q, e, i, package, base, name, packageName);
    DirModulesFromAppended(p, q, e, i, Some(package), base, packageName, ModuleNames(e.files[i..]));
  }

  /** One module file when the directory's package `package` was just
      created in `p0`. */
  lemma DirStepModulesNewPackage(p: ProjectState, p0: ProjectState, package: nat, p1: ProjectState, q: ProjectState,
                                 e: DirEntry, i: nat)
    requires i < |e.files| && IsModuleFile(e.files[i])
    requires package == p.heap.next && p0.heap.next == p.heap.next + 1 && p0.modules == p.modules
    requires package in p0.heap.objs && p0.heap.objs[package].fullName == PackageNameAsWritten(e.dir)
    requires ModuleStep(p0, package, p1, SplitExt(e.files[i]).0)
    requires DirModules(p1, q, e, i + 1, Some(package))
    requires q.heap.objs.Keys >= p1.heap.objs.Keys && q.heap.objs[p0.heap.next] == p1.heap.objs[p0.heap.next]
    ensures DirModules(p, q, e, i, None)
  {
    var base, name := p0.heap.next, SplitExt(e.files[i]).0;
    var packageName := p0.heap.objs[package].fullName;
    DirModulesCons(p, p1, q, e, i, package, base, name, packageName);
    DirModulesFromAppended(p, q, e, i, None, base, packageName, ModuleNames(e.files[i..]));
  }

  /** The modules from position `i` on: module `name` with id `base`,
      then those the rest of the loop added under the same package. */
  lemma DirModulesCons(p: ProjectState, p1: ProjectState, q: ProjectState, e: DirEntry, i: nat, package: nat,
                       base: nat, name: string, packageName: string)
    requires i < |e.files| && IsModuleFile(e.files[i]) && name == SplitExt(e.files[i]).0
    requires package in p1.heap.objs && DirModules(p1, q, e, i + 1, Some(package))
    requires p1.heap.next == base + 1 && packageName == p1.heap.objs[package].fullName
    requires p1.modules == p.modules + [base] && base in p1.heap.objs && base in q.heap.objs
    requires q.heap.objs[base] == p1.heap.objs[base]
    requires p1.heap.objs[base].kind == ModuleKind && p1.heap.objs[base].name == name
    requires p1.heap.objs[base].fullName == packageName + "." + name
    ensures ModulesAppended(p, q, base, ModuleNames(e.files[i..]), packageName)
  {
    var rest := ModuleNames(e.files[i + 1..]);
    ModuleNamesCons(e.files, i);
    DirModulesUnderPackage(p1, q, e, i + 1, package, base + 1, packageName, rest);
    ModulesAppendedCons(p, p1, q, base, name, rest, ModuleNames(e.files[i..]), packageName);
  }

  /** A module file at position `i` gives the first module name from `i` on. */
  lemma ModuleNamesCons(files: seq<string>, i: nat)
    requires i < |files| && IsModuleFile(files[i])
    ensures ModuleNames(files[i..]) == [SplitExt(files[i]).0] + ModuleNames(files[i + 1..])
  {
    assert files[i..][0] == files[i] && files[i..][1..] == files[i + 1..];
  }

  lemma DirModulesUnderPackage(p: ProjectState, q: ProjectState, e: DirEntry, i: nat, package: nat,
                               base: nat, packageName: string, names: seq<string>)
    requires i <= |e.files| && package in p.heap.objs
    requires DirModules(p, q, e, i, Some(package))
    requires base == p.heap.next && packageName == p.heap.objs[package].fullName && names == ModuleNames(e.files[i..])
    ensures ModulesAppended(p, q, base, names, packageName)
  {
    assert base == DirBase(p, e, i, Some(package));
  }

  lemma DirModulesFromAppended(p: ProjectState, q: ProjectState, e: DirEntry, i: nat, current: Option<nat>,
                               base: nat, packageName: string, names: seq<string>)
    requires i <= |e.files| && (current.Some? ==> current.value in p.heap.objs)
    requires names == ModuleNames(e.files[i..]) && |names| > 0
    requires base == p.heap.next + (if current.None? then 1 else 0)
    requires packageName == DirPackageName(p, e, current)
    requires ModulesAppended(p, q, base, names, packageName)
    ensures DirModules(p, q, e, i, current)
  {
    assert base == DirBase(p, e, i, current);
    assert ModulesAdded(p, q, base, names, packageName);
  }

  lemma DirStepFrame(p: ProjectState, p0: ProjectState, package: nat, p1: ProjectState, q: ProjectState,
                     e: DirEntry, i: nat, current: Option<nat>)
    requires i < |e.files| && IsModuleFile(e.files[i])
    requires PackageStep(p, p0, package, e, current) && PackageFrame(p, p0, package, current)
    requires ModuleStep(p0, package, p1, SplitExt(e.files[i]).0) && ModuleFrame(p0, package, p1)
    requires e.files[i..] == [e.files[i]] + e.files[i + 1..]
    requires DirFrame(p1, q, e, i + 1, Some(package))
    ensures DirFrame(p, q, e, i, current)
    ensures q.heap.objs[p0.heap.next] == p1.heap.objs[p0.heap.next]
  {
    assert package != p0.heap.next;
    forall k | k in p.heap.objs && (current.None? || k != current.value)
      ensures q.heap.objs[k] == p.heap.objs[k]
    {
      assert k != package && k in p0.heap.objs;
      assert p1.heap.objs[k] == p0.heap.objs[k];
    }
  }

  /** `_parse_file_system` over the directories of the walk from position
      `j` on; each directory starts without a package. */
  function FileSystemParsed(p: ProjectState, listing: seq<DirEntry>, j: nat, determineTestTypes: bool)
    : (q: ProjectState)
    requires Consistent(p) && j <= |listing|
    ensures Consistent(q)
    decreases |listing| - j
  {
    if j == |listing| then p
    else FileSystemParsed(DirParsed(p, listing[j], 0, None, determineTestTypes), listing, j + 1, determineTestTypes)
  }

  // ---------------------------------------------------------------------
  // Parsing module contents

  /** `modu.parse()` followed by `objects.update(...)`: the module's
      elements are parsed into it and the objects found are entered in
      `objects`, overriding earlier entries of the same full name. */
  function ModuleParsed(p: ProjectState, m: nat, src: ModuleSource): (q: ProjectState)
    requires Consistent(p) && m in p.heap.objs
    ensures Consistent(q) && q.modules == p.modules && q.imported == p.imported
  {
    var r := ModuleContentParsed(p.heap, m, src);
    ModuleContentCollected(p.heap, m, src);
    p.(heap := r.0, objects := p.objects + r.1)
  }

  /** The loop of `_parse_module_contents` over the first `i` modules: a
      module whose file does not parse contributes nothing. */
  function ContentsParsed(p: ProjectState, sources: SourceFiles, i: nat): (q: ProjectState)
    requires Consistent(p) && i <= |p.modules|
    ensures Consistent(q) && q.modules == p.modules
  {
    if i == 0 then p
    else
      var r := ContentsParsed(p, sources, i - 1);
      var m := p.modules[i - 1];
      ModuleParsed(r, m, SourceAt(sources, r.heap.objs[m].path))
  }

  /** What the front end made of each module file it read, by path. */
  datatype SourceFiles = SourceFiles(byPath: map<seq<string>, ModuleSource>)

  /** What the front end makes of the file at `path`; a file it has no
      result for counts as one that does not parse. */
  function SourceAt(sources: SourceFiles, path: seq<string>): ModuleSource {
    if path in sources.byPath then sources.byPath[path] else InvalidSyntax
  }

  lemma ContentsParsedStep(p: ProjectState, sources: SourceFiles, i: nat)
    requires Consistent(p) && i < |p.modules|
    ensures var r := ContentsParsed(p, sources, i);
      var m := p.modules[i];
      m in r.heap.objs && ContentsParsed(p, sources, i + 1) == ModuleParsed(r, m, SourceAt(sources, r.heap.objs[m].path))
  {
  }

  // ---------------------------------------------------------------------
  // Resolving imports

  /** `_process_resolved_import`: the module binds the import's name in
      its scope to the target's full name and gains a `ResolvedImport`
      relationship to it, and the imported name, under the module's owner
      name, becomes an alias of the target. */
  function ImportProcessed(p: ProjectState, m: nat, imp: ImportElement, t: nat): (q: ProjectState)
    requires Consistent(p) && m in p.heap.objs && t in p.objects.Values
    ensures Consistent(q) && q.modules == p.modules
  {
    var o := p.heap.objs[m];
    var target := p.heap.objs[t].fullName;
    var o1 := o.(scope := o.scope[NameInImporter(imp) := target], rels := o.rels + [ResolvedImport(target, imp)]);
    p.(heap := UpdatedOwner(p.heap, m, o1), imported := p.imported[OwnerName(o) + "." + imp.name := target])
  }

  /** What `_process_resolved_import` changes: the module's scope binds
      the import's name in the importer to the target's full name, one
      `ResolvedImport` relationship to it is appended, the alias is recorded
      under the owner name and the imported name (not the alias), and
      nothing else changes. */
  lemma ImportProcessedEffect(p: ProjectState, m: nat, imp: ImportElement, t: nat)
    requires Consistent(p) && m in p.heap.objs && t in p.objects.Values
    ensures var q := ImportProcessed(p, m, imp, t);
      var o, o' := p.heap.objs[m], q.heap.objs[m];
      var target := p.heap.objs[t].fullName;
      && o'.scope == o.scope[NameInImporter(imp) := target]
      && o'.rels == o.rels + [ResolvedImport(target, imp)]
      && o' == o.(scope := o'.scope, rels := o'.rels)
      && q.imported == p.imported[OwnerName(o) + "." + imp.name := target]
      && q.objects == p.objects && q.modules == p.modules && q.heap.objs.Keys == p.heap.objs.Keys
      && (forall k :: k in p.heap.objs && k != m ==> q.heap.objs[k] == p.heap.objs[k])
  {
  }

  /** A processed import re-exports its object: afterwards an absolute
      import, from any module, of the importing module's owner name
      followed by the imported name resolves to the same object, unless an
      object of that full name exists. */
  lemma ReExportResolves(p: ProjectState, m: nat, imp: ImportElement, t: nat,
                         other: ImportElement, importerName: string)
    requires Consistent(p) && m in p.heap.objs && t in p.objects.Values
    requires p.heap.objs[t].fullName != ""
    requires OwnerName(p.heap.objs[m]) + "." + imp.name !in p.objects
    requires RefType(other) == Absolute && WhatFullName(other) == OwnerName(p.heap.objs[m]) + "." + imp.name
    ensures var q := ImportProcessed(p, m, imp, t);
      ResolveImport(q.objects, q.imported, other, importerName) == Some(t)
  {
    var q := ImportProcessed(p, m, imp, t);
    var name := WhatFullName(other);
    var n :| n in p.objects && p.objects[n] == t;
    assert q.imported[name] == n;
    FindByFullNameShallow(q.objects, q.imported, name);
  }

  /** One iteration of the loop of `_resolve_imports`: a resolved import is
      processed, any other goes back on the module's queue. */
  function ImportStep(p: ProjectState, m: nat, imp: ImportElement): (q: ProjectState)
    requires Consistent(p) && m in p.heap.objs
    ensures Consistent(q) && q.heap.objs.Keys == p.heap.objs.Keys && q.modules == p.modules
  {
    var o := p.heap.objs[m];
    var r := ResolveImport(p.objects, p.imported, imp, o.fullName);
    if r.Some? then ImportProcessed(p, m, imp, r.value)
    else p.(heap := UpdatedOwner(p.heap, m, o.(unresolved := o.unresolved + [imp])))
  }

  /** The loop of `_resolve_imports` over the copied queue `defs`, from
      position `i` on. */
  function ImportsLoop(p: ProjectState, m: nat, defs: seq<ImportElement>, i: nat): (q: ProjectState)
    requires Consistent(p) && m in p.heap.objs && i <= |defs|
    ensures Consistent(q) && q.heap.objs.Keys == p.heap.objs.Keys && q.modules == p.modules
    decreases |defs| - i
  {
    if i == |defs| then p else ImportsLoop(ImportStep(p, m, defs[i]), m, defs, i + 1)
  }

  /** `_resolve_imports`: the module's queue is taken out and each import
      on it is tried once, in order. */
  function ImportsResolved(p: ProjectState, m: nat): (q: ProjectState)
    requires Consistent(p) && m in p.heap.objs
    ensures Consistent(q) && q.heap.objs.Keys == p.heap.objs.Keys && q.modules == p.modules
  {
    var o := p.heap.objs[m];
    ImportsLoop(p.(heap := UpdatedOwner(p.heap, m, o.(unresolved := []))), m, o.unresolved, 0)
  }

  /** An import pass over the first `i` modules: `_resolve_imports` for
      each, in order. */
  function ImportPass(p: ProjectState, i: nat): (q: ProjectState)
    requires Consistent(p) && i <= |p.modules|
    ensures Consistent(q) && q.modules == p.modules
  {
    if i == 0 then p else ImportsResolved(ImportPass(p, i - 1), p.modules[i - 1])
  }

  lemma ImportPassStep(p: ProjectState, i: nat)
    requires Consistent(p) && i < |p.modules|
    ensures var r := ImportPass(p, i); var m := p.modules[i];
      m in r.heap.objs && ImportPass(p, i + 1) == ImportsResolved(r, m)
  {
  }

  /** `n` import passes over all modules. */
  function ImportPasses(p: ProjectState, n: nat): (q: ProjectState)
    requires Consistent(p)
    ensures Consistent(q) && q.modules == p.modules
  {
    if n == 0 then p
    else
      var r := ImportPasses(p, n - 1);
      ImportPass(r, |r.modules|)
  }

  /** `xs` is an order-preserving merge of `a` and `b`: every element of
      `xs` is taken, in turn, from the front of one of them. */
  predicate Interleaved<T(==)>(xs: seq<T>, a: seq<T>, b: seq<T>)
    decreases |xs|
  {
    if xs == [] then a == [] && b == []
    else
      || (a != [] && a[0] == xs[0] && Interleaved(xs[1..], a[1..], b))
      || (b != [] && b[0] == xs[0] && Interleaved(xs[1..], a, b[1..]))
  }

  /** The import elements of the `ResolvedImport` relationships among
      `rels`, in order. */
  function ResolvedImports(rels: seq<Relationship>): seq<ImportElement> {
    if rels == [] then []
    else (if rels[0].ResolvedImport? then [rels[0].imp] else []) + ResolvedImports(rels[1..])
  }

  /** `b` is `a` with only the import bookkeeping of a module advanced:
      relationships and queued imports are extended, never rewritten, and
      every other field but the scope is unchanged. */
  predicate ImportFieldsExtended(a: Obj, b: Obj) {
    && b == a.(scope := b.scope, rels := b.rels, unresolved := b.unresolved)
    && |a.rels| <= |b.rels| && b.rels[..|a.rels|] == a.rels
    && |a.unresolved| <= |b.unresolved| && b.unresolved[..|a.unresolved|] == a.unresolved
  }

  /** Every relationship of `o` from position `from` on is an import of
      an object of `objects`, and so is every binding of the scope that
      differs from `before`. */
  predicate ImportsOfObjects(o: Obj, from: nat, before: map<string, string>, objects: map<string, nat>) {
    && from <= |o.rels|
    && (forall j :: from <= j < |o.rels| ==> o.rels[j].ResolvedImport? && o.rels[j].destination in objects)
    && (forall k :: k in o.scope && (k !in before || o.scope[k] != before[k]) ==> o.scope[k] in objects)
  }

  /** What resolving imports of module `m` changes between `p` and `q`:
      nothing but `m`'s import bookkeeping and scope and the aliases, and
      the aliases only grow. */
  predicate OnlyImportsOf(p: ProjectState, q: ProjectState, m: nat)
    requires m in p.heap.objs && m in q.heap.objs
  {
    && q.objects == p.objects && q.modules == p.modules
    && q.heap.next == p.heap.next && q.heap.objs.Keys == p.heap.objs.Keys
    && (forall k :: k in p.heap.objs && k != m ==> q.heap.objs[k] == p.heap.objs[k])
    && p.imported.Keys <= q.imported.Keys
    && ImportFieldsExtended(p.heap.objs[m], q.heap.objs[m])
    && ImportsOfObjects(q.heap.objs[m], |p.heap.objs[m].rels|, p.heap.objs[m].scope, q.objects)
  }

  lemma {:induction false} ResolvedImportsAppend(a: seq<Relationship>, b: seq<Relationship>)
    ensures ResolvedImports(a + b) == ResolvedImports(a) + ResolvedImports(b)
  {
    if a == [] {
      assert a + b == b;
    } else {
      var head := if a[0].ResolvedImport? then [a[0].imp] else [];
      assert (a + b)[0] == a[0] && (a + b)[1..] == a[1..] + b;
      assert ResolvedImports(a + b) == head + ResolvedImports(a[1..] + b);
      ResolvedImportsAppend(a[1..], b);
      ConcatAssoc(head, ResolvedImports(a[1..]), ResolvedImports(b));
    }
  }

  /** One step of the loop of `_resolve_imports`: a resolved import adds
      one `ResolvedImport` relationship to the object found and binds the
      import's name to it; an unresolved one goes back on the queue. */
  lemma ImportStepEffect(p: ProjectState, m: nat, imp: ImportElement)
    requires Consistent(p) && m in p.heap.objs
    ensures var q := ImportStep(p, m, imp);
      var o, o' := p.heap.objs[m], q.heap.objs[m];
      var r := ResolveImport(p.objects, p.imported, imp, o.fullName);
      && OnlyImportsOf(p, q, m)
      && (r.None? ==> o'.unresolved == o.unresolved + [imp] && o'.rels == o.rels && o'.scope == o.scope)
      && (r.Some? ==>
            var target := p.heap.objs[r.value].fullName;
            && o'.unresolved == o.unresolved
            && o'.rels == o.rels + [ResolvedImport(target, imp)]
            && o'.scope == o.scope[NameInImporter(imp) := target])
  {
    var o := p.heap.objs[m];
    var r := ResolveImport(p.objects, p.imported, imp, o.fullName);
    if r.Some? {
      var n :| n in p.objects && p.objects[n] == r.value;
      assert p.heap.objs[r.value].fullName == n;
    }
  }

  /** Chaining two stretches of import resolution of the same module. */
  lemma OnlyImportsOfTrans(p: ProjectState, p1: ProjectState, q: ProjectState, m: nat)
    requires m in p.heap.objs && m in p1.heap.objs && m in q.heap.objs
    requires OnlyImportsOf(p, p1, m) && OnlyImportsOf(p1, q, m)
    ensures OnlyImportsOf(p, q, m)
  {
    var o, o1, o2 := p.heap.objs[m], p1.heap.objs[m], q.heap.objs[m];
    assert o2.rels[..|o.rels|] == o2.rels[..|o1.rels|][..|o.rels|];
    assert o2.unresolved[..|o.unresolved|] == o2.unresolved[..|o1.unresolved|][..|o.unresolved|];
    forall j | |o.rels| <= j < |o2.rels|
      ensures o2.rels[j].ResolvedImport? && o2.rels[j].destination in q.objects
    {
      if j < |o1.rels| {
        assert o2.rels[j] == o2.rels[..|o1.rels|][j];
      }
    }
  }

  /** The loop of `_resolve_imports` over `defs[i..]` splits those imports,
      in order, into the ones queued again and the ones recorded as
      `ResolvedImport` relationships, and changes nothing but module `m`'s
      import bookkeeping and scope and the aliases. */
  lemma {:induction false} ImportsLoopPartition(p: ProjectState, m: nat, defs: seq<ImportElement>, i: nat)
    requires Consistent(p) && m in p.heap.objs && i <= |defs|
    ensures var q := ImportsLoop(p, m, defs, i);
      var o, o' := p.heap.objs[m], q.heap.objs[m];
      && OnlyImportsOf(p, q, m)
      && Interleaved(defs[i..], o'.unresolved[|o.unresolved|..], ResolvedImports(o'.rels[|o.rels|..]))
    decreases |defs| - i
  {
    var q := ImportsLoop(p, m, defs, i);
    var o, o' := p.heap.objs[m], q.heap.objs[m];
    if i == |defs| {
      assert o'.unresolved[|o.unresolved|..] == [] && o'.rels[|o.rels|..] == [];
    } else {
      var p1 := ImportStep(p, m, defs[i]);
      var o1 := p1.heap.objs[m];
      ImportStepEffect(p, m, defs[i]);
      ImportsLoopPartition(p1, m, defs, i + 1);
      OnlyImportsOfTrans(p, p1, q, m);
      assert defs[i..][1..] == defs[i + 1..];
      PartitionStep(o, o1, o', defs[i..]);
    }
  }

  /** The partition of the loop over `xs` from the partition of its
      tail: the step from `o` to `o1` handled `xs[0]`, queueing it again or
      recording it. */
  lemma PartitionStep(o: Obj, o1: Obj, o': Obj, xs: seq<ImportElement>)
    requires xs != []
    requires ImportFieldsExtended(o1, o')
    requires || (o1.unresolved == o.unresolved + [xs[0]] && o1.rels == o.rels)
             || (o1.unresolved == o.unresolved && exists d :: o1.rels == o.rels + [ResolvedImport(d, xs[0])])
    requires Interleaved(xs[1..], o'.unresolved[|o1.unresolved|..], ResolvedImports(o'.rels[|o1.rels|..]))
    ensures Interleaved(xs, o'.unresolved[|o.unresolved|..], ResolvedImports(o'.rels[|o.rels|..]))
  {
    var fails, oks := o'.unresolved[|o.unresolved|..], o'.rels[|o.rels|..];
    if |o1.unresolved| > |o.unresolved| {
      assert o'.unresolved[|o1.unresolved|..] == fails[1..];
      assert fails[0] == o'.unresolved[..|o1.unresolved|][|o.unresolved|];
      assert o'.rels[|o1.rels|..] == oks;
    } else {
      assert o'.unresolved[|o1.unresolved|..] == fails;
      assert oks == [o'.rels[|o.rels|]] + o'.rels[|o1.rels|..];
      assert o'.rels[|o.rels|] == o'.rels[..|o1.rels|][|o.rels|];
      ResolvedImportsAppend([o'.rels[|o.rels|]], o'.rels[|o1.rels|..]);
    }
  }

  /** `_resolve_imports`: the module's queue afterwards holds exactly the
      imports that failed this time, in their order, each other import of
      the old queue is recorded, in order, as a `ResolvedImport` of an
      object of the project, and nothing but the module's imports, scope and
      the aliases changes. */
  lemma ImportsResolvedPartition(p: ProjectState, m: nat)
    requires Consistent(p) && m in p.heap.objs
    ensures var q := ImportsResolved(p, m);
      var o, o' := p.heap.objs[m], q.heap.objs[m];
      && q.objects == p.objects && q.modules == p.modules && q.heap.objs.Keys == p.heap.objs.Keys
      && (forall k :: k in p.heap.objs && k != m ==> q.heap.objs[k] == p.heap.objs[k])
      && p.imported.Keys <= q.imported.Keys
      && o' == o.(scope := o'.scope, rels := o'.rels, unresolved := o'.unresolved)
      && ImportsOfObjects(o', |o.rels|, o.scope, q.objects) && o'.rels[..|o.rels|] == o.rels
      && Interleaved(o.unresolved, o'.unresolved, ResolvedImports(o'.rels[|o.rels|..]))
  {
    var o := p.heap.objs[m];
    var p0 := p.(heap := UpdatedOwner(p.heap, m, o.(unresolved := [])));
    ImportsLoopPartition(p0, m, o.unresolved, 0);
    assert o.unresolved[0..] == o.unresolved;
  }

  // ---------------------------------------------------------------------
  // Propagating scopes and resolving calls

  /** `update_names_in_scope_for_content` for the modules `ms` from
      position `i` on. */
  function ModulesPropagated(h: Heap, ms: seq<nat>, i: nat): (r: Heap)
    requires Wf(h) && i <= |ms| && forall j :: 0 <= j < |ms| ==> ms[j] in h.objs
    ensures Wf(r) && r.next == h.next && r.objs.Keys == h.objs.Keys
    decreases |ms| - i
  {
    if i == |ms| then h else ModulesPropagated(PropagatedFrom(h, ms[i]), ms, i + 1)
  }

  /** `b` differs from `a` at most in scopes, and only by added bindings. */
  predicate OnlyScopesGrown(a: Heap, b: Heap) {
    && a.objs.Keys == b.objs.Keys
    && (forall k :: k in a.objs ==> b.objs[k] == a.objs[k].(scope := b.objs[k].scope))
    && (forall k :: k in a.objs ==> a.objs[k].scope.Keys <= b.objs[k].scope.Keys)
  }

  /** Propagation over all modules only adds bindings to scopes. */
  lemma {:induction false} ModulesPropagatedGrows(h: Heap, ms: seq<nat>, i: nat)
    requires Wf(h) && i <= |ms| && forall j :: 0 <= j < |ms| ==> ms[j] in h.objs
    ensures OnlyScopesGrown(h, ModulesPropagated(h, ms, i))
    decreases |ms| - i
  {
    if i < |ms| {
      var h1 := PropagatedFrom(h, ms[i]);
      PropagatedGrows(h, ms[i]);
      ModulesPropagatedGrows(h1, ms, i + 1);
    }
  }

  /** `resolve_calls(imported)` for the modules `ms` from position `i` on. */
  function ModulesCallsResolved(h: Heap, ms: seq<nat>, i: nat, imported: map<string, string>): (r: Heap)
    requires Wf(h) && i <= |ms| && forall j :: 0 <= j < |ms| ==> ms[j] in h.objs
    ensures Wf(r) && r.next == h.next && r.objs.Keys == h.objs.Keys
    decreases |ms| - i
  {
    if i == |ms| then h else ModulesCallsResolved(CallsResolvedFrom(h, ms[i], imported), ms, i + 1, imported)
  }

  /** Call resolution over all modules only appends relationships. */
  lemma {:induction false} ModulesCallsGrow(h: Heap, ms: seq<nat>, i: nat, imported: map<string, string>)
    requires Wf(h) && i <= |ms| && forall j :: 0 <= j < |ms| ==> ms[j] in h.objs
    ensures RelsGrown(h, ModulesCallsResolved(h, ms, i, imported), 0)
    decreases |ms| - i
  {
    if i < |ms| {
      var h1 := CallsResolvedFrom(h, ms[i], imported);
      CallsResolvedGrows(h, ms[i], imported);
      ModulesCallsGrow(h1, ms, i + 1, imported);
      RelsGrownTrans(h, h1, ModulesCallsResolved(h1, ms, i + 1, imported), 0, 0);
    }
  }

  /** The second loop of `_resolve_relationships`: every module passes its
      scope on to its contents. */
  function ScopesPropagated(p: ProjectState): (q: ProjectState)
    requires Consistent(p)
    ensures Consistent(q) && q.modules == p.modules
  {
    var h := ModulesPropagated(p.heap, p.modules, 0);
    ModulesPropagatedGrows(p.heap, p.modules, 0);
    p.(heap := h)
  }

  /** The third loop of `_resolve_relationships`: every module resolves its
      calls with the imported names as the import passes left them. */
  function CallsResolved(p: ProjectState): (q: ProjectState)
    requires Consistent(p)
    ensures Consistent(q) && q.modules == p.modules
  {
    var h := ModulesCallsResolved(p.heap, p.modules, 0, p.imported);
    ModulesCallsGrow(p.heap, p.modules, 0, p.imported);
    p.(heap := h)
  }

  /** `_resolve_relationships`: three import passes, then scope
      propagation, then call resolution, each over all modules. */
  function RelationshipsResolved(p: ProjectState): (q: ProjectState)
    requires Consistent(p)
    ensures Consistent(q) && q.modules == p.modules
  {
    CallsResolved(ScopesPropagated(ImportPasses(p, 3)))
  }

  /** `parse`: the file system, then the module contents, then the
      relationships. */
  function ProjectParsed(p: ProjectState, listing: seq<DirEntry>, sources: SourceFiles,
                         determineTestTypes: bool): (q: ProjectState)
    requires Consistent(p)
    ensures Consistent(q)
  {
    var r := FileSystemParsed(p, listing, 0, determineTestTypes);
    RelationshipsResolved(ContentsParsed(r, sources, |r.modules|))
  }

  // ---------------------------------------------------------------------
  // The project object

  /** `PythonProject`: the modules, objects and imported names are fields;
      the objects themselves live in `store`. */
  class PythonProject {
    const store: ObjectStore
    var modules: seq<nat>
    var objects: map<string, nat>
    var importedNames: map<string, string>

    function State(): ProjectState
      reads this, store
    {
      ProjectState(store.heap, modules, objects, importedNames)
    }

    constructor ()
      ensures State() == EmptyProject()
    {
      store := new ObjectStore();
      modules := [];
      objects := map[];
      importedNames := map[];
    }

    /** `parse`: the file system, the module contents, then the
        relationships; the result is the map of objects. */
    method Parse(listing: seq<DirEntry>, sources: SourceFiles, determineTestTypes: bool)
      returns (result: map<string, nat>)
      requires Consistent(State())
      modifies this, store
      ensures State() == ProjectParsed(old(State()), listing, sources, determineTestTypes)
      ensures result == objects
    {
      ParseFileSystem(listing, determineTestTypes);
      ParseModuleContents(sources);
      ResolveRelationships();
      result := objects;
    }

    /** `_parse_file_system`: each directory gets a package at its first
        module file, and each module file a module in that package. */
    method ParseFileSystem(listing: seq<DirEntry>, determineTestTypes: bool)
      requires Consistent(State())
      modifies this, store
      ensures State() == FileSystemParsed(old(State()), listing, 0, determineTestTypes)
    {
      ghost var target := FileSystemParsed(State(), listing, 0, determineTestTypes);
      var j := 0;
      while j < |listing|
        invariant 0 <= j <= |listing| && Consistent(State())
        invariant FileSystemParsed(State(), listing, j, determineTestTypes) == target
      {
        var e := listing[j];
        ghost var dirTarget := DirParsed(State(), e, 0, None, determineTestTypes);
        var currentPackage: Option<nat> := None;
        var i := 0;
        while i < |e.files|
          invariant 0 <= i <= |e.files| && Consistent(State())
          invariant currentPackage.Some? ==> currentPackage.value in store.heap.objs
          invariant DirParsed(State(), e, i, currentPackage, determineTestTypes) == dirTarget
        {
          var fileName := e.files[i];
          var split := SplitExt(fileName);
          if split.1 == ".py" && fileName != "setup.py" {
            if currentPackage.None? {
              var package := AddPackage(e.dir, determineTestTypes);
              currentPackage := Some(package);
            }
            var _ := AddModuleToPackage(currentPackage.value, split.0);
          }
          i := i + 1;
        }
        j := j + 1;
      }
    }

    /** `_add_object`. */
    method AddObject(id: nat)
      requires id in store.heap.objs
      modifies this
      ensures objects == old(objects)[store.heap.objs[id].fullName := id]
      ensures modules == old(modules) && importedNames == old(importedNames)
    {
      objects := objects[store.heap.objs[id].fullName := id];
    }

    /** `_add_package`. */
    method AddPackage(dir: seq<string>, determineTestTypes: bool) returns (id: nat)
      requires Consistent(State())
      modifies this, store
      ensures (State(), id) == PackageAdded(old(State()), dir, determineTestTypes)
    {
      ghost var p := State();
      var packageName := Replace(RelPath(dir), "/", ".");
      if StartsWith(packageName, "src.") {
        packageName := Replace(packageName, "src.", "");
      }
      assert packageName == PackageNameAsWritten(dir);
      id := store.Allocate(NewPackage(packageName, dir, determineTestTypes));
      AddObject(id);
      assert State() == PackageAdded(p, dir, determineTestTypes).0;
    }

    /** `_add_module_to_package`. */
    method AddModuleToPackage(package: nat, name: string) returns (id: nat)
      requires Consistent(State()) && package in store.heap.objs
      modifies this, store
      ensures id == old(store.heap.next) && State() == ModuleAdded(old(State()), package, name)
    {
      id := store.AddModule(package, name);
      AddModule(id);
    }

    /** `_add_module`. */
    method AddModule(id: nat)
      requires id in store.heap.objs
      modifies this
      ensures objects == old(objects)[store.heap.objs[id].fullName := id]
      ensures modules == old(modules) + [id] && importedNames == old(importedNames)
    {
      AddObject(id);
      modules := modules + [id];
    }

    /** `_parse_module_contents`. */
    method ParseModuleContents(sources: SourceFiles)
      requires Consistent(State())
      modifies this, store
      ensures State() == ContentsParsed(old(State()), sources, |old(modules)|)
    {
      ghost var start := State();
      var i := 0;
      while i < |modules|
        invariant 0 <= i <= |modules| && modules == start.modules
        invariant State() == ContentsParsed(start, sources, i)
      {
        ParseModuleContent(start, sources, i);
        i := i + 1;
      }
    }

    /** One iteration of the loop of `_parse_module_contents`: the module
        at position `i` is parsed from its source. */
    method ParseModuleContent(ghost start: ProjectState, sources: SourceFiles, i: nat)
      requires Consistent(start) && i < |start.modules| && State() == ContentsParsed(start, sources, i)
      modifies this, store
      ensures State() == ContentsParsed(start, sources, i + 1) && modules == start.modules
    {
      ContentsParsedStep(start, sources, i);
      var m := modules[i];
      var src := SourceAt(sources, store.heap.objs[m].path);
      var added := store.ParseModule(m, src);
      objects := objects + added;
    }

    /** `_resolve_relationships`. */
    method ResolveRelationships()
      requires Consistent(State())
      modifies this, store
      ensures State() == RelationshipsResolved(old(State()))
    {
      ResolveImportPasses(3);
      UpdateNamesInScopes();
      ResolveModuleCalls();
    }

    /** The first loop of `_resolve_relationships`: three import passes
        over all modules. */
    method ResolveImportPasses(rounds: nat)
      requires Consistent(State())
      modifies this, store
      ensures State() == ImportPasses(old(State()), rounds)
    {
      ghost var start := State();
      var done := 0;
      while done < rounds
        invariant done <= rounds
        invariant State() == ImportPasses(start, done)
      {
        ResolveImportPass();
        done := done + 1;
      }
    }

    /** One import pass: `_resolve_imports` for every module. */
    method ResolveImportPass()
      requires Consistent(State())
      modifies this, store
      ensures State() == ImportPass(old(State()), |old(modules)|)
    {
      ghost var start := State();
      var i := 0;
      while i < |modules|
        invariant 0 <= i <= |modules| && modules == start.modules
        invariant State() == ImportPass(start, i)
      {
        ResolveImportsOf(start, i);
        i := i + 1;
      }
    }

    /** One iteration of the loop of an import pass. */
    method ResolveImportsOf(ghost start: ProjectState, i: nat)
      requires Consistent(start) && i < |start.modules|
      requires State() == ImportPass(start, i)
      modifies this, store
      ensures State() == ImportPass(start, i + 1)
    {
      ImportPassStep(start, i);
      ResolveImports(modules[i]);
    }

    /** The second loop of `_resolve_relationships`. */
    method UpdateNamesInScopes()
      requires Consistent(State())
      modifies store
      ensures State() == ScopesPropagated(old(State()))
    {
      ghost var target := ModulesPropagated(store.heap, modules, 0);
      var i := 0;
      while i < |modules|
        invariant 0 <= i <= |modules| && Wf(store.heap)
        invariant forall j :: 0 <= j < |modules| ==> modules[j] in store.heap.objs
        invariant ModulesPropagated(store.heap, modules, i) == target
      {
        store.UpdateNamesInScopeForContent(modules[i]);
        i := i + 1;
      }
    }

    /** The third loop of `_resolve_relationships`. */
    method ResolveModuleCalls()
      requires Consistent(State())
      modifies store
      ensures State() == CallsResolved(old(State()))
    {
      ghost var target := ModulesCallsResolved(store.heap, modules, 0, importedNames);
      var i := 0;
      while i < |modules|
        invariant 0 <= i <= |modules| && Wf(store.heap)
        invariant forall j :: 0 <= j < |modules| ==> modules[j] in store.heap.objs
        invariant ModulesCallsResolved(store.heap, modules, i, importedNames) == target
      {
        store.ResolveCalls(modules[i], importedNames);
        i := i + 1;
      }
    }

    /** `_resolve_imports`. */
    method ResolveImports(m: nat)
      requires Consistent(State()) && m in store.heap.objs
      modifies this, store
      ensures State() == ImportsResolved(old(State()), m) && modules == old(modules)
    {
      var o := store.heap.objs[m];
      var importDefs := o.unresolved;
      store.heap := store.heap.(objs := store.heap.objs[m := o.(unresolved := [])]);
      ghost var target := ImportsLoop(State(), m, importDefs, 0);
      var i := 0;
      while i < |importDefs|
        invariant 0 <= i <= |importDefs| && Consistent(State()) && m in store.heap.objs
        invariant ImportsLoop(State(), m, importDefs, i) == target
      {
        ResolveImportStep(m, importDefs[i]);
        i := i + 1;
      }
    }

    /** One turn of the loop of `_resolve_imports`. */
    method ResolveImportStep(m: nat, imp: ImportElement)
      requires Consistent(State()) && m in store.heap.objs
      modifies this, store
      ensures State() == ImportStep(old(State()), m, imp)
    {
      var resolveResult := ResolveImport(objects, importedNames, imp, store.heap.objs[m].fullName);
      if resolveResult.Some? {
        ProcessResolvedImport(m, imp, resolveResult.value);
      } else {
        var mo := store.heap.objs[m];
        store.heap := store.heap.(objs := store.heap.objs[m := mo.(unresolved := mo.unresolved + [imp])]);
      }
    }

    /** `_process_resolved_import`. */
    method ProcessResolvedImport(m: nat, imp: ImportElement, t: nat)
      requires Consistent(State()) && m in store.heap.objs && t in objects.Values
      modifies this, store
      ensures State() == ImportProcessed(old(State()), m, imp, t)
    {
      var o := store.heap.objs[m];
      var target := store.heap.objs[t].fullName;
      o := o.(scope := o.scope[NameInImporter(imp) := target]);
      o := o.(rels := o.rels + [ResolvedImport(target, imp)]);
      store.heap := store.heap.(objs := store.heap.objs[m := o]);
      var ownerName := if Label(o) == "init" then Replace(o.fullName, ".__init__", "") else o.fullName;
      importedNames := importedNames[ownerName + "." + imp.name := target];
    }
  }
}
