# pycograph's resolution engine in Dafny

pycograph reads a Python project and builds a graph of its packages,
modules, classes, functions and constants. The edges are `contains`,
`imports` and `calls`. This project models the engine that resolves all
of that, after the front end has turned each module's source into syntax
elements:

- `PythonProject` finds one package per directory that holds module files,
  and one module per `.py` file other than `setup.py`. The package name
  is the directory's path, dotted. When that name starts with "src.", the
  code removes every "src." in it, not only the leading one; the model
  names packages the same way (see "## Findings").
- It parses each module's syntax elements into a tree of contained
  objects. Each object gets a full name, a scope (`names_in_scope`), a
  `contains` relationship from its owner, and the test classification it
  inherits.
- It makes three import passes over every module's queue of unresolved
  imports. Absolute imports fall back to the importer's directory;
  relative imports go up `level` packages. Aliases are recorded in
  `imported_names`, so that re-exported names resolve to the object they
  came from.
- It passes every scope down the tree of contained objects.
- It resolves every call whose reference is bound in scope into a `calls`
  relationship. The target is looked up once in `imported_names`.
- The name analyzer splits snake-case and camel-case dotted names into
  lower-case parts. Packages use the parts for their test classification.

## Structure of the model

- `strings.dfy` (`Strings`): the Python `str` operations the engine uses.
  These are `split` on one character (empty pieces kept), `join`,
  replace-all `replace`, `startswith` and ASCII `lower`, with their algebra
  (`JoinSplit`, `SplitJoin`, `SplitAppend`, `ReplaceSeparator`, …).
- `syntax_elements.dfy` (`SyntaxElements`): the syntax elements as one
  datatype in which classes and functions carry bodies, and the accessors
  of import elements.
- `name_analyzer.dfy` (`NameAnalyzer`, `NameExamples`): the name analyzer.
  The regular expression of `split_camel_case` is modelled as a
  hand-written scan (`CamelScan`).
- `parse_result.dfy` (`ParseResult`): the objects with context, the
  relationships and their properties, labels, and the tree work. That work
  covers parsing syntax elements, passing scopes down and resolving calls.
  - Objects live in an arena, `Heap`. Objects are keyed by an increasing
    id, never by full name, because the engine lets two objects share a
    full name. An owner's contained objects are a sequence of ids, each
    larger than the owner's.
  - Each recursive walk is a pure function, and the class `ObjectStore`
    holds the arena. Its methods do the same work step by step, with
    loops, and each is proved equal to its function.
- `project.dfy` (`Project`): `PythonProject`, with package and module
  discovery, relative import paths, the lookup through `imported_names`,
  import resolution and the phases of `parse`.
  - `ProjectState` is a value view of the project, and `Consistent` is the
    invariant every phase keeps. It says:
    - every module and every entry of `objects` is an object;
    - each object is entered under its own full name;
    - every alias names an object.
  - Each phase is a function of the state. The class `PythonProject` has
    the fields `modules`, `objects`, `importedNames` and the store, and
    its methods are proved to compute exactly those functions.

Python's `None` for an optional string is modelled as the empty string.
The engine only ever tests these values for truth, so `None` and `""`
behave the same in the source.

## Model

| member | source | states |
|---|---|---|
| SyntaxElements.NameInImporter | pycograph/schemas/basic_syntax_elements.py:80-81 | The alias is used when it is non-empty; otherwise the imported name. |
| SyntaxElements.WhatFullName | pycograph/schemas/basic_syntax_elements.py:83-84 | A plain import refers to its name. A from-import refers to `from_text + "." + name` when `from_text` is non-empty, and to its name otherwise. |
| SyntaxElements.WhatFullNameSegments | pycograph/schemas/basic_syntax_elements.py:96-100 | The dotted segments an import refers to are those of its module followed by those of its name. |
| SyntaxElements.RefType | pycograph/schemas/basic_syntax_elements.py:86-87 | An import is relative exactly when it is a from-import with a non-zero level; a plain import is always absolute. |
| SyntaxElements.AddSyntaxElements | pycograph/schemas/basic_syntax_elements.py:39-40 | The block keeps its kind and name; its old body is a prefix of the new one, and the added elements follow it in order. |
| NameAnalyzer.DetermineNameParts | pycograph/helpers/name_analyzer.py:8-20 | A name with "_" gives pieces that joined by "_" give back the lower-cased name. A lower-case name without "_" is its own only part. Any other name gives its camel-case split. No part has an upper-case letter or "_". |
| NameAnalyzer.SplitCamelCase | pycograph/helpers/name_analyzer.py:23-32 | Each part is a non-empty word of lower-case letters. |
| NameAnalyzer.CamelScanWords | pycograph/helpers/name_analyzer.py:31-32 | A run of capitalised words splits into exactly those words, lower-cased, in order. |
| NameAnalyzer.CamelScanAcronym | pycograph/helpers/name_analyzer.py:31-32 | A run of upper-case letters at the end of the name, or before a run of capitalised words, is one part, lower-cased; the words follow as before. |
| NameAnalyzer.CamelScanNoUpper | pycograph/helpers/name_analyzer.py:31 | A name without upper-case letters has no camel-case parts, since every match starts with an upper-case letter. |
| NameAnalyzer.DetermineFullNameParts | pycograph/helpers/name_analyzer.py:35-48 | No part of a dotted name has an upper-case letter or "_". |
| NameAnalyzer.FullNamePartsAppend | pycograph/helpers/name_analyzer.py:46-48 | The parts of `a.b` are the parts of `a` followed by those of `b`. |
| NameAnalyzer.SegmentPartsAppend | pycograph/helpers/name_analyzer.py:47-48 | Chaining the parts of segments distributes over concatenating the segments. |
| NameAnalyzer.SingleSegmentParts | pycograph/helpers/name_analyzer.py:46-48 | A name without dots has the parts `determine_name_parts` gives it. |
| NameExamples.SnakeExample | pycograph/helpers/name_analyzer.py:16-17 | "sample_pkg" splits into ["sample", "pkg"]. |
| NameExamples.CamelExample | pycograph/helpers/name_analyzer.py:18-19 | "PycoThing" splits into ["pyco", "thing"]. |
| NameExamples.AcronymWord | pycograph/helpers/name_analyzer.py:31-32 | An upper-case run followed by one capitalised word gives two parts, both lower-cased. |
| NameExamples.AcronymExample | pycograph/helpers/name_analyzer.py:31-32 | "HTTPServer" splits into ["http", "server"]. |
| NameExamples.FullNamePartsExample | tests/unit/helpers/test_name_analyzer.py:4-9 | "pkg.sample_pkg.dummy.PycoThing" gives ["pkg", "sample", "pkg", "dummy", "pyco", "thing"]. |
| ParseResult.RelationshipName | pycograph/schemas/parse_result.py:39-55 | The name is "contains", "calls" or "imports" exactly for the matching kind of relationship. |
| ParseResult.Properties | pycograph/schemas/parse_result.py:35-67 | Contains has no properties. Calls have the reference name and called attribute. An import has name, alias and reference type, and "from" and "level" exactly when it is a from-import. |
| ParseResult.Label | pycograph/schemas/parse_result.py:160-230 | A module named `__init__` (and nothing else) is labelled "init", before the test flag is consulted. A test function is "test_function" exactly when its name starts with "test_". |
| ParseResult.LabelMarksTests | pycograph/schemas/parse_result.py:160-230 | Apart from `__init__` modules, a label starts with "test_" exactly when the object is a test object. |
| ParseResult.NodeProperties | pycograph/schemas/parse_result.py:84-87 | Name, full name and test flag are always present; "test_type" is present exactly for test objects when test types are determined. |
| ParseResult.Initialize | pycograph/schemas/parse_result.py:131-134 | The full name is the owner's, then ".", then the name; the test flag and type are the owner's. A class (its `initialize` at lines 172-177) then has exactly {"self", "class"} bound to its full name as scope, whatever it held before; other kinds keep theirs. |
| ParseResult.InitializeSegments | pycograph/schemas/parse_result.py:132 | The full name's dotted segments are the owner's followed by the name's. |
| ParseResult.AddedContent | pycograph/schemas/parse_result.py:123-129 | The new object takes the next id and is initialised from its owner. The owner gains one `contains` relationship to the new full name and one contained object at the end. No other object changes. |
| ParseResult.Defined | pycograph/schemas/parse_result.py:99-114 | A definition adds one object of its kind, contained in the owner, and binds its name in the owner's scope to its full name. |
| ParseResult.ParsedElements | pycograph/schemas/parse_result.py:89-121 | Parsing elements keeps the arena well formed and only adds objects, all with new ids; the lemmas `ParsedQueues` to `ParsedCount` state what it adds. |
| ParseResult.ParsedQueues | pycograph/schemas/parse_result.py:89-98 | The owner's import queue and call list are extended by the element sequence's imports and calls, in order; nested bodies do not contribute. |
| ParseResult.ParsedContains | pycograph/schemas/parse_result.py:111-129 | The owner gains one `contains` relationship per definition, in source order, and as many contained objects, appended. |
| ParseResult.ParsedScope | pycograph/schemas/parse_result.py:114 | The owner's scope is extended by a binding of each defined name to its full name; a later definition of a name wins. |
| ParseResult.ParsedResult | pycograph/schemas/parse_result.py:113-120 | The result maps every created descendant's full name to that object or to a later one of the same name. Every entry is a created object with that full name, so where names repeat the last one wins. |
| ParseResult.ParsedInherits | pycograph/schemas/parse_result.py:131-134 | Every object created by parsing inherits the owner's test flag and type, and its full name extends the owner's. |
| ParseResult.ParsedExtends | pycograph/schemas/parse_result.py:89-121 | Parsing changes only the owner and objects it creates. |
| ParseResult.ParsedCount | pycograph/schemas/parse_result.py:111-120 | One object is created per definition, counting the definitions inside class and function bodies, and no more. |
| ParseResult.ParsedAppend | pycograph/schemas/parse_result.py:91 | Parsing `a + b` is parsing `a`, then `b` from where `a` left off. |
| ParseResult.ParsedExtendedBlock | pycograph/schemas/basic_syntax_elements.py:39-40 | A block extended by `add_syntax_elements` parses as its old body, then the added elements. |
| ParseResult.PropagatedFrom | pycograph/schemas/parse_result.py:136-139 | Passing scopes down keeps the arena well formed and creates no object; `PropagatedGrows` and `PropagatedKidsUnfold` state the change. |
| ParseResult.PropagatedGrows | pycograph/schemas/parse_result.py:136-139 | Passing scopes down changes only scopes, never those of the owner or objects before it, and never removes a binding. |
| ParseResult.PropagatedKidsUnfold | pycograph/schemas/parse_result.py:137-139 | Each contained object in turn takes over the owner's bindings, with the owner's winning on a name bound in both, and then passes its scope on. |
| ParseResult.PropagatedReachesChildren | pycograph/schemas/parse_result.py:136-139 | After propagation, every directly contained object binds every name its owner binds. |
| ParseResult.CallDestination | pycograph/schemas/parse_result.py:143-151 | A call is skipped exactly when its reference is not in scope. Otherwise its target is the binding, with the attribute appended when there is one, replaced once by its entry in the imported names. |
| ParseResult.CallRels | pycograph/schemas/parse_result.py:142-155 | At most one `calls` relationship per call, each for one of the calls. |
| ParseResult.CallRelsAllInScope | pycograph/schemas/parse_result.py:142-155 | When every reference is in scope, the i-th relationship belongs to the i-th call and goes to that call's destination. |
| ParseResult.CallRelsAppend | pycograph/schemas/parse_result.py:142 | Call relationships of `a + b` are those of `a` followed by those of `b`, so calls keep their order. |
| ParseResult.CallRelsSkip | pycograph/schemas/parse_result.py:143-144 | A call whose reference is not in scope contributes nothing. |
| ParseResult.CallsResolvedFrom | pycograph/schemas/parse_result.py:141-157 | Resolving calls keeps the arena well formed and creates no object; `CallsResolvedGrows` states the change. |
| ParseResult.CallsResolvedGrows | pycograph/schemas/parse_result.py:141-157 | The object gains its own call relationships appended to its relationships. Only relationships change anywhere in the tree, and nothing before the object changes. |
| ParseResult.NewPackage | pycograph/schemas/parse_result.py:232-241 | A package is a test object exactly when "test" or "tests" is among its name's parts. Its test type is the second part only when test types are determined, it is a test object and it has more than one part; it is "" otherwise. |
| ParseResult.NewModule | pycograph/schemas/parse_result.py:243-248 | The module is named `name`, lives at the package's directory plus `name + ".py"`, and starts empty. |
| ParseResult.ModuleContentParsed | pycograph/schemas/parse_result.py:206-214 | Parsing a module keeps the arena well formed and only adds objects; `ModuleContentCollected` states what it adds and what it yields. |
| ParseResult.ModuleContentCollected | pycograph/schemas/parse_result.py:206-214 | Parsing a module changes only it and the objects it creates, and its result names every object created. A module that does not parse yields nothing. |
| ParseResult.ObjectStore.AddContent | pycograph/schemas/parse_result.py:123-129 | `add_content` computes `AddedContent`. |
| ParseResult.ObjectStore.AddModule | pycograph/schemas/parse_result.py:243-250 | `add_module` adds the new module as content of the package. |
| ParseResult.ObjectStore.ParseSyntaxElements | pycograph/schemas/parse_result.py:89-121 | The loop computes exactly what `ParsedElements` describes: the new arena and the result map. |
| ParseResult.ObjectStore.ParseSyntaxElement | pycograph/schemas/parse_result.py:92-120 | One turn of the loop computes `ParsedElement`. |
| ParseResult.ObjectStore.ParseModule | pycograph/schemas/parse_result.py:206-214 | `parse` computes `ModuleContentParsed`. |
| ParseResult.ObjectStore.UpdateNamesInScopeForContent | pycograph/schemas/parse_result.py:136-139 | The loop computes exactly `PropagatedFrom`. |
| ParseResult.ObjectStore.ResolveCalls | pycograph/schemas/parse_result.py:141-157 | The method computes exactly `CallsResolvedFrom`. |
| ParseResult.CallRelationships | pycograph/schemas/parse_result.py:142-155 | The first loop of `resolve_calls` yields exactly `CallRels`. |
| Project.DottedPathSegments | pycograph/project.py:93-94 | The dotted path of the root is "."; that of any other directory is its segments joined by ".". |
| Project.PackageNameAsWritten | pycograph/project.py:93-98 | The name the project gives a package: the relative path with "/" replaced by "."; when that starts with "src.", the leading "src." is removed and `str.replace` removes every later "src." too. `PackageNameAsWrittenUsual`, `SrcRewriteCutsNames` and `PackageNameAgrees` state its properties. |
| Project.PackageName | pycograph/project.py:93-98 | The intended name, the corrected half of the finding: a dotted path that starts with "src." is exactly "src." followed by the name; any other dotted path is the name. |
| Project.PackageNameUnderSrc | pycograph/project.py:96-98 | The intended name of a directory under `src` is its remaining segments joined by ".". |
| Project.PackageNameElsewhere | pycograph/project.py:93-98 | The intended name of the root is "."; any other directory not under `src` is named by its segments joined by ".". |
| Project.PackageNameAgrees | pycograph/project.py:96-98 | The code as written and the intended name agree whenever "src." occurs nowhere after the leading one. |
| Project.PackageNameAsWrittenUsual | pycograph/project.py:93-98 | As the code computes it, a directory under `src` whose remaining path holds no further "src." is named by that remaining path, dotted; the root is "."; a directory whose dotted path does not start with "src." keeps it whole. |
| Project.SrcRewriteCutsNames | pycograph/project.py:96-98 | For `src/mysrc/io` the code as written gives "myio", where "mysrc.io" is intended. |
| Project.SplitExt | pycograph/project.py:71 | `splitext` splits the name into two halves that concatenate back to it. A non-empty extension starts with its only dot and does not follow only dots. |
| Project.ModuleFileShape | pycograph/project.py:71-72 | A file has extension ".py" exactly when it ends in ".py" after something other than dots; the module name is what precedes ".py". |
| Project.IsModuleFile | pycograph/project.py:70-72 | A file is a module exactly when it ends in ".py" after something other than dots and is not "setup.py". |
| Project.RelativeImportedPath | pycograph/project.py:272-287 | The path always ends in "." followed by the imported name; `RelativePathPrefix` and `RelativePathBeyondTop` give the package part. |
| Project.RelativePathPrefix | pycograph/project.py:286-287 | Going up fewer levels than the module has segments keeps its first `len - level` segments, joined by ".", then "." and the imported name. |
| Project.RelativePathKeepsPrefix | pycograph/project.py:286-287 | In segments: the result is the kept module segments followed by the imported name's segments. |
| Project.RelativePathBeyondTop | pycograph/project.py:286-287 | At level 0 or at least the segment count the prefix is empty and the result is "." followed by the imported name. |
| Project.SiblingPath | pycograph/project.py:209-211 | At level 1 a module in a package refers to the package's full name, then "." and the imported name. |
| Project.FindByFullNameFuel | pycograph/project.py:252-270 | Whatever the lookup finds is an object of the project. |
| Project.FindByFullName | pycograph/project.py:252-270 | A name of an object finds that object; whatever is found is an object of the project. |
| Project.FindByFullNameShallow | pycograph/project.py:264-270 | When every alias names an object, the lookup returns the object of the name if there is one, else the object its alias names, else nothing. |
| Project.ResolveImport | pycograph/project.py:192-218 | Whatever an import resolves to is an object of the project. |
| Project.ResolveAbsoluteDirect | pycograph/project.py:204-207 | An absolute import of an existing full name resolves to that object. |
| Project.ResolveAbsoluteSibling | pycograph/project.py:208-212 | An absolute import that is not a known name falls back to the importer's package. |
| Project.ResolveRelativeOnly | pycograph/project.py:213-217 | A relative import with `level` dots, fewer than the module has segments, is looked up only under the module's name without its last `level` segments, then "." and its name, without fallback. |
| Project.ResolveRelativeSibling | pycograph/project.py:213-217 | With one dot, the import is looked up next to the importing module, inside its package. |
| Project.ResolveRelativeBeyondTop | pycograph/project.py:213-217 | A relative import going up at least as many levels as the module has segments is looked up at "." followed by its name. |
| Project.OwnerName | pycograph/project.py:245-248 | Anything but an `__init__` module is its own owner. |
| Project.InitOwnerName | pycograph/project.py:245-246 | The owner of a package's `__init__` module is the package, whenever ".__init__" does not occur in the package's name. |
| Project.EmptyProject | pycograph/project.py:32-41 | A new project is consistent. |
| Project.PackageAdded | pycograph/project.py:85-105 | Adding a package keeps the project consistent, returns the next id and adds exactly that id. |
| Project.PackageAddedEffect | pycograph/project.py:85-105 | The new package takes the next id, is built under the package name as the code computes it (`PackageNameAsWritten`, every "src." removed) and entered in `objects` under it, and nothing else changes. |
| Project.ModuleAdded | pycograph/project.py:107-130 | Adding a module keeps the project consistent and adds exactly the next id. |
| Project.ModuleAddedEffect | pycograph/project.py:107-130 | The new module takes the next id, has the package's full name plus "." plus its name, is appended to `modules` and entered in `objects`. The package keeps its identity and nothing else changes. |
| Project.DirParsedModules | pycograph/project.py:68-75 | The walk over one directory's files adds one module per module file, in order, with consecutive ids, in the directory's package. It creates that package, once and before its modules, only if a module file exists, named as the code names it (`PackageNameAsWritten`). Nothing else changes apart from the package's contents. |
| Project.DirParsed | pycograph/project.py:68-75 | The walk over one directory's files keeps the project consistent; `DirParsedModules` states what it adds. |
| Project.FileSystemParsed | pycograph/project.py:66-75 | Discovering packages and modules keeps the project consistent. |
| Project.ContentsParsed | pycograph/project.py:132-147 | Parsing module contents keeps the project consistent and the module list unchanged. |
| Project.ModuleParsed | pycograph/project.py:139-147 | Parsing one module keeps the project consistent and leaves the module list and the imported names unchanged; `ContentsParsedStep` states what it adds. |
| Project.ContentsParsedStep | pycograph/project.py:139-147 | Each module in turn is parsed from the source of its file, and the objects found are entered in `objects`. |
| Project.ImportProcessed | pycograph/project.py:220-250 | Processing a resolved import keeps the project consistent and the module list unchanged; `ImportProcessedEffect` states the change. |
| Project.ImportProcessedEffect | pycograph/project.py:239-250 | The scope binds the name in the importer to the target and one `imports` relationship is appended. The alias is recorded under the owner name plus the imported name, not the alias. Nothing else changes. |
| Project.ReExportResolves | tests/integration/parse_project/test_import_from.py:79-122 | After an import is processed, an absolute import of the importer's owner name plus the imported name resolves to the original object, not to the importing module. |
| Project.ImportStep | pycograph/project.py:185-190 | One turn of the import loop keeps the project consistent, creates no object and keeps the module list. |
| Project.ImportStepEffect | pycograph/project.py:185-190 | An import that fails goes back on the queue. One that resolves is taken off it and adds exactly one relationship and one binding. |
| Project.ImportsLoopPartition | pycograph/project.py:185-190 | The failed imports and the imports of the new relationships interleave to give the copied queue, each in the original order. |
| Project.ImportsResolved | pycograph/project.py:176-190 | Resolving one module's imports keeps the project consistent, creates no object and keeps the module list; `ImportsResolvedPartition` states how the queue splits. |
| Project.ImportPass | pycograph/project.py:163-164 | Resolving the imports of each module in turn keeps the project consistent and the module list unchanged. |
| Project.ImportsResolvedPartition | pycograph/project.py:176-190 | After `_resolve_imports`, the queue and the new relationships split the old queue in its order. New relationships and changed bindings name objects of the project, and no other object changes. |
| Project.ImportPasses | pycograph/project.py:162-164 | Any number of import passes over all modules keeps the project consistent and the module list unchanged. |
| Project.ScopesPropagated | pycograph/project.py:169-170 | Passing scopes down from every module keeps the project consistent and the module list unchanged; `ModulesPropagatedGrows` states the change. |
| Project.ModulesPropagatedGrows | pycograph/project.py:169-170 | Passing scopes down from every module changes only scopes and never removes a binding. |
| Project.CallsResolved | pycograph/project.py:173-174 | Resolving the calls of every module keeps the project consistent and the module list unchanged; `ModulesCallsGrow` states the change. |
| Project.ModulesCallsGrow | pycograph/project.py:173-174 | Resolving calls in every module only appends relationships. |
| Project.RelationshipsResolved | pycograph/project.py:149-174 | Three import passes, then scope propagation, then call resolution keep the project consistent. |
| Project.ProjectParsed | pycograph/project.py:43-64 | The whole parse keeps the project consistent. |
| Project.PythonProject.constructor | pycograph/project.py:32-41 | A new project has no modules, objects or imported names. |
| Project.PythonProject.Parse | pycograph/project.py:43-64 | `parse` computes `ProjectParsed` and returns the objects. |
| Project.PythonProject.ParseFileSystem | pycograph/project.py:66-75 | The nested loop computes `FileSystemParsed`. |
| Project.PythonProject.AddObject | pycograph/project.py:77-83 | The object is entered under its full name, replacing any earlier entry. |
| Project.PythonProject.AddPackage | pycograph/project.py:85-105 | The method computes `PackageAdded`, removing every "src." from a name that starts with "src.", as the code does. |
| Project.PythonProject.AddModuleToPackage | pycograph/project.py:107-121 | The method computes `ModuleAdded` and returns the new module's id. |
| Project.PythonProject.AddModule | pycograph/project.py:123-130 | The module is entered in `objects` and appended to `modules`. |
| Project.PythonProject.ParseModuleContents | pycograph/project.py:132-147 | The loop computes `ContentsParsed`. |
| Project.PythonProject.ParseModuleContent | pycograph/project.py:139-147 | One iteration: the module at position `i` is parsed from the source of its file, taking the state from `ContentsParsed` for `i` modules to `ContentsParsed` for `i + 1`, with the module list unchanged. |
| Project.PythonProject.ResolveRelationships | pycograph/project.py:149-174 | The method computes `RelationshipsResolved`. |
| Project.PythonProject.ResolveImportPasses | pycograph/project.py:162-164 | The outer loop computes `ImportPasses`. |
| Project.PythonProject.ResolveImportPass | pycograph/project.py:163-164 | The inner loop computes one `ImportPass` over all modules. |
| Project.PythonProject.UpdateNamesInScopes | pycograph/project.py:169-170 | The loop computes `ScopesPropagated`. |
| Project.PythonProject.ResolveModuleCalls | pycograph/project.py:173-174 | The loop computes `CallsResolved`. |
| Project.PythonProject.ResolveImports | pycograph/project.py:176-190 | The copy-empty-requeue loop computes `ImportsResolved` and leaves the module list alone. |
| Project.PythonProject.ResolveImportStep | pycograph/project.py:186-190 | One turn of the loop computes `ImportStep`. |
| Project.PythonProject.ProcessResolvedImport | pycograph/project.py:220-250 | The method computes `ImportProcessed`. |

## Left out

- The front end (`pycograph/ast_to_basic_syntax_elements.py`) is not part of this model. A module's content comes in as its syntax elements, or as "does not parse".
- `read_content` and `open` are left out. `Parse` takes `SourceFiles`, a map from a module's file path to its content; a file missing from the map counts as one that does not parse.
- `os.walk` is a parameter: a listing of directories, each with its path segments below the root and its file names in order. Subdirectory lists are not used by the code, so they are left out.
- `os.path.relpath` and `os.path.join` work on path segments. Directory names are assumed to hold no separator.
- `os.path.splitext` is modelled on the file name only, which is all the code passes it.
- Logging (`logger.error`) has no effect on state and is left out.
- The graph export (`pycograph/parse_result_to_redisgraph.py`), the CLI and the configuration are not part of this model. The `determine_test_types` setting is a parameter.
- Project.FindByFullName: the recursion through `imported_names` is bounded by the number of aliases. The unbounded lookup could loop on a cycle, and `FindByFullNameShallow` shows that the bound is never reached in a consistent project.
- ParseResult.CallDestination: the lookup in the imported names is done once, as the code does; it is not followed transitively.
- NameAnalyzer.CamelScan: the regular expression is modelled for ASCII letters only, with `$` also matching before a final newline. Non-ASCII case mapping is left out.
- ParseResult.PropagatedReachesChildren: states that the owner's names reach each child, but not that the owner's values survive elsewhere. A later propagation could rebind a child reachable from two owners, and the arena allows such sharing although the tree built by the code never creates it.
- Project.ImportsResolvedPartition: states how the queue is split between failures and successes, not which imports fail. Whether an import fails depends on the aliases recorded earlier in the same loop, and that is stated step by step by `ImportStepEffect`.
- Project.FileSystemParsed, Project.ContentsParsed, Project.ImportPasses, Project.RelationshipsResolved and Project.ProjectParsed: their own contracts state only the invariant and the unchanged module list. What they compute is stated by the lemmas about each step.
- Project.InitOwnerName: a package whose own name holds ".__init__" is not covered. `OwnerName` still computes it as the code does, removing every ".__init__", so such an `__init__` module's owner is not its package.
- Exceptions that the shown code never raises, such as a project without Python files, are not modelled.

## Findings

| source | as written | input that shows it | evidently intended | confidence | as-written member | corrected member |
|---|---|---|---|---|---|---|
| pycograph/project.py:96-98 | A package name starting with "src." has every occurrence of "src." removed. | The directory `src/mysrc/io`: its dotted path "src.mysrc.io" becomes "myio". | Remove only the leading "src.", giving "mysrc.io". | not executed | Project.PackageNameAsWritten, exhibited by Project.SrcRewriteCutsNames | Project.PackageName, with Project.PackageNameUnderSrc and Project.PackageNameAgrees |

The project model names packages as the code does (`PackageNameAsWritten`
in `PackageAdded`, `DirPackageName` and `PythonProject.AddPackage`), so
its results follow the code on such layouts too. `PackageName` is the
corrected definition, with its properties proved beside it.
