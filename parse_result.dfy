/** The objects that become the nodes and edges of the code graph
    (pycograph/schemas/parse_result.py).

    Every `ObjectWithContext` lives in an arena: a `Heap` maps object ids to
    `Obj` records, and an owner refers to its contained objects by id. Ids are
    handed out in increasing order, so a contained object always has a larger
    id than its owner; this is what makes the recursive walks down the tree
    terminate. The operations that change objects in place are methods of
    `ObjectStore`, each proved equal to a function on heaps; the properties
    the engine relies on are proved about those functions. */
module ParseResult {
  import opened Strings
  import opened NameAnalyzer
  import opened SyntaxElements

  datatype Option<T> = None | Some(value: T)

  /** The concrete subclass of an object. */
  datatype Kind = PackageKind | ModuleKind | ClassKind | FunctionKind | ConstantKind

  datatype Relationship =
    | Contains(destination: string)
    | Calls(destination: string, call: CallElement)
    | ResolvedImport(destination: string, imp: ImportElement)

  /** The `name` of each relationship class. */
  function RelationshipName(rel: Relationship): (r: string)
    ensures rel.Contains? <==> r == "contains"
    ensures rel.Calls? <==> r == "calls"
    ensures rel.ResolvedImport? <==> r == "imports"
  {
    match rel
    case Contains(_) => "contains"
    case Calls(_, _) => "calls"
    case ResolvedImport(_, _) => "imports"
  }

  datatype Prop = Text(text: string) | Number(number: int)

  function RefTypeText(t: ReferenceType): string {
    if t == Absolute then "absolute" else "relative"
  }

  /** `Relationship.properties()`: the edge properties written to the graph. */
  function Properties(rel: Relationship): (r: map<string, Prop>)
    ensures rel.Contains? ==> r == map[]
    ensures rel.Calls? ==>
      && r.Keys == {"reference_name", "called_attribute"}
      && r["reference_name"] == Text(rel.call.referenceName)
      && r["called_attribute"] == Text(rel.call.calledAttribute)
    ensures rel.ResolvedImport? ==>
      && {"name", "as_name", "reference_type"} <= r.Keys
      && r["name"] == Text(rel.imp.name) && r["as_name"] == Text(rel.imp.asName)
      && r["reference_type"] == Text(RefTypeText(RefType(rel.imp)))
      && (rel.imp.PlainImport? ==> |r| == 3)
      && (rel.imp.FromImport? ==>
            && r.Keys == {"name", "as_name", "reference_type", "from", "level"}
            && r["from"] == Text(rel.imp.fromText) && r["level"] == Number(rel.imp.level))
  {
    match rel
    case Contains(_) => map[]
    case Calls(_, call) =>
      map["reference_name" := Text(call.referenceName), "called_attribute" := Text(call.calledAttribute)]
    case ResolvedImport(_, imp) =>
      var props := map["name" := Text(imp.name), "as_name" := Text(imp.asName),
                       "reference_type" := Text(RefTypeText(RefType(imp)))];
      if imp.FromImport? then props["from" := Text(imp.fromText)]["level" := Number(imp.level)]
      else props
  }

  /** One `ObjectWithContext`. `path` is the directory of a package, or the
      directory and file name of a module, as path segments; it is empty for
      the other kinds. */
  datatype Obj = Obj(
    kind: Kind,
    name: string,
    fullName: string,
    scope: map<string, string>,
    isTest: bool,
    testType: string,
    rels: seq<Relationship>,
    unresolved: seq<ImportElement>,
    calls: seq<CallElement>,
    children: seq<nat>,
    path: seq<string>)

  /** A freshly constructed object: only its kind, name and path are set. */
  function NewObj(kind: Kind, name: string, path: seq<string>): Obj {
    Obj(kind, name, "", map[], false, "", [], [], [], [], path)
  }

  /** The `label()` of each subclass. */
  function Label(o: Obj): (r: string)
    ensures r == "init" <==> o.kind == ModuleKind && o.name == "__init__"
    ensures o.kind == FunctionKind && o.isTest ==>
      (r == "test_function" <==> StartsWith(o.name, "test_"))
  {
    match o.kind
    case PackageKind => if o.isTest then "test_package" else "package"
    case ModuleKind =>
      if o.name == "__init__" then "init" else if o.isTest then "test_module" else "module"
    case ClassKind => if o.isTest then "test_class" else "class"
    case FunctionKind =>
      if o.isTest then (if StartsWith(o.name, "test_") then "test_function" else "test_helper_function")
      else "function"
    case ConstantKind => if o.isTest then "test_constant" else "constant"
  }

  /** Apart from `__init__` modules, an object is labelled as test code
      exactly when it is a test object. */
  lemma LabelMarksTests(o: Obj)
    requires !(o.kind == ModuleKind && o.name == "__init__")
    ensures StartsWith(Label(o), "test_") <==> o.isTest
  {
    var l := Label(o);
    if !o.isTest {
      assert l[..5] != "test_" by {
        match o.kind
        case PackageKind => assert l[0] == 'p';
        case ModuleKind => assert l[0] == 'm';
        case ClassKind => assert l[0] == 'c';
        case FunctionKind => assert l[0] == 'f';
        case ConstantKind => assert l[0] == 'c';
      }
    }
  }

  /** `node_properties()`: the test type is written only for test objects,
      and only when test types are being determined. */
  function NodeProperties(o: Obj, determineTestTypes: bool): (r: set<string>)
    ensures {"name", "full_name", "is_test_object"} <= r
    ensures "test_type" in r <==> o.isTest && determineTestTypes
    ensures |r| <= 4
  {
    if o.isTest && determineTestTypes then {"name", "full_name", "is_test_object", "test_type"}
    else {"name", "full_name", "is_test_object"}
  }

  datatype Heap = Heap(objs: map<nat, Obj>, next: nat)

  /** Ids below `next`; every contained object exists and has a larger id
      than its owner. */
  predicate Wf(h: Heap) {
    && (forall k :: k in h.objs ==> k < h.next)
    && (forall k, j :: k in h.objs && 0 <= j < |h.objs[k].children| ==>
          h.objs[k].children[j] in h.objs && k < h.objs[k].children[j])
  }

  /** The fields that parsing and resolution never change. */
  predicate SameIdentity(a: Obj, b: Obj) {
    a.kind == b.kind && a.name == b.name && a.fullName == b.fullName
    && a.isTest == b.isTest && a.testType == b.testType && a.path == b.path
  }

  /** `initialize(owner)`: the full name extends the owner's, the test
      classification is the owner's; a class starts a fresh scope holding
      only `self` and `class`. */
  function Initialize(owner: Obj, o: Obj): (r: Obj)
    ensures r.fullName == owner.fullName + "." + o.name
    ensures r.isTest == owner.isTest && r.testType == owner.testType
    ensures o.kind == ClassKind ==> r.scope == map["self" := r.fullName, "class" := r.fullName]
    ensures o.kind != ClassKind ==> r.scope == o.scope
    ensures r.kind == o.kind && r.name == o.name && r.path == o.path && r.rels == o.rels
      && r.unresolved == o.unresolved && r.calls == o.calls && r.children == o.children
  {
    var fullName := owner.fullName + "." + o.name;
    var r := o.(fullName := fullName, isTest := owner.isTest, testType := owner.testType);
    if o.kind == ClassKind then r.(scope := map["self" := fullName, "class" := fullName]) else r
  }

  /** The dotted segments of a contained object's full name are the owner's
      followed by those of its own name. */
  lemma InitializeSegments(owner: Obj, o: Obj)
    ensures Split(Initialize(owner, o).fullName, '.') == Split(owner.fullName, '.') + Split(o.name, '.')
  {
    SplitAppend(owner.fullName, '.', o.name);
  }

  /** `add_content(thing)`: the new object is initialized from its owner and
      stored under the next id; the owner gains one `contains` relationship
      to it and one contained object. */
  function AddedContent(h: Heap, owner: nat, thing: Obj): (r: Heap)
    requires Wf(h) && owner in h.objs && thing.children == []
    ensures Wf(r) && r.next == h.next + 1 && r.objs.Keys == h.objs.Keys + {h.next}
    ensures r.objs[h.next] == Initialize(h.objs[owner], thing)
    ensures r.objs[owner] == h.objs[owner].(
      rels := h.objs[owner].rels + [Contains(h.objs[owner].fullName + "." + thing.name)],
      children := h.objs[owner].children + [h.next])
    ensures forall k :: k in h.objs && k != owner ==> r.objs[k] == h.objs[k]
  {
    var o := h.objs[owner];
    var c := Initialize(o, thing);
    Heap(h.objs[h.next := c][owner := o.(rels := o.rels + [Contains(c.fullName)], children := o.children + [h.next])],
         h.next + 1)
  }

  function DefinitionKind(e: SyntaxElement): Kind
    requires e.IsDefinition()
  {
    match e
    case ClassDef(_, _) => ClassKind
    case FunctionDef(_, _) => FunctionKind
    case ConstantDef(_) => ConstantKind
  }

  /** The owner with one more field updated: the heap stays well formed
      and no other object changes. */
  function UpdatedOwner(h: Heap, id: nat, o: Obj): (r: Heap)
    requires Wf(h) && id in h.objs && o.children == h.objs[id].children
    ensures Wf(r) && r.next == h.next && r.objs.Keys == h.objs.Keys && r.objs[id] == o
    ensures forall k :: k in h.objs && k != id ==> r.objs[k] == h.objs[k]
  {
    Heap(h.objs[id := o], h.next)
  }

  /** A definition element: the new object is added to the owner and bound
      in the owner's scope under its name. */
  function Defined(h: Heap, id: nat, e: SyntaxElement): (r: Heap)
    requires Wf(h) && id in h.objs && e.IsDefinition()
    ensures Wf(r) && r.next == h.next + 1 && r.objs.Keys == h.objs.Keys + {h.next}
    ensures forall k :: k in h.objs && k != id ==> r.objs[k] == h.objs[k]
    ensures r.objs[h.next] == Initialize(h.objs[id], NewObj(DefinitionKind(e), e.name, []))
    ensures var o := h.objs[id];
      r.objs[id] == o.(
        rels := o.rels + [Contains(o.fullName + "." + e.name)],
        children := o.children + [h.next],
        scope := o.scope[e.name := o.fullName + "." + e.name])
  {
    var h1 := AddedContent(h, id, NewObj(DefinitionKind(e), e.name, []));
    var o1 := h1.objs[id];
    UpdatedOwner(h1, id, o1.(scope := o1.scope[e.name := h1.objs[h.next].fullName]))
  }

  /** `r` grows out of `h` by work on object `id`: the heap stays well
      formed, objects are only added, no object that existed before other
      than `id` changes, and the identity of `id` is kept. */
  predicate Extends(h: Heap, r: Heap, id: nat) {
    && Wf(r) && h.next <= r.next && id in h.objs
    && h.objs.Keys <= r.objs.Keys
    && (forall k :: h.next <= k < r.next ==> k in r.objs)
    && (forall k :: k in h.objs && k != id ==> r.objs[k] == h.objs[k])
    && SameIdentity(h.objs[id], r.objs[id])
  }

  /** Work on a new object followed by work on its owner is work on the owner. */
  lemma ExtendsThroughChild(h: Heap, h1: Heap, h2: Heap, h3: Heap, id: nat)
    requires Wf(h) && id in h.objs
    requires Wf(h1) && h1.next == h.next + 1 && h1.objs.Keys == h.objs.Keys + {h.next}
    requires forall k :: k in h.objs && k != id ==> h1.objs[k] == h.objs[k]
    requires SameIdentity(h.objs[id], h1.objs[id])
    requires Extends(h1, h2, h.next) && Extends(h2, h3, id)
    ensures Extends(h, h3, id)
  {
  }

  /** `parse_syntax_elements`, with `acc` the result collected so far: the
      elements are handled one after the other. Parsing only extends the
      heap (`ParsedExtends`). */
  function ParsedElements(h: Heap, id: nat, elems: seq<SyntaxElement>, acc: map<string, nat>)
    : (r: (Heap, map<string, nat>))
    requires Wf(h) && id in h.objs
    ensures Wf(r.0) && h.next <= r.0.next && h.objs.Keys <= r.0.objs.Keys
    ensures forall k :: h.next <= k < r.0.next ==> k in r.0.objs
    decreases elems
  {
    if elems == [] then (h, acc)
    else
      var r1 := ParsedElement(h, id, elems[0], acc);
      ParsedElements(r1.0, id, elems[1..], r1.1)
  }

  /** One iteration of `parse_syntax_elements`: an import or a call is
      queued on the owner; a definition becomes a new contained object, is
      entered in the result and bound in the owner's scope, and the body of
      a class or function is parsed into the new object, its result merged
      into the owner's. */
  function ParsedElement(h: Heap, id: nat, e: SyntaxElement, acc: map<string, nat>)
    : (r: (Heap, map<string, nat>))
    requires Wf(h) && id in h.objs
    ensures Wf(r.0) && h.next <= r.0.next && h.objs.Keys <= r.0.objs.Keys
    ensures forall k :: h.next <= k < r.0.next ==> k in r.0.objs
    decreases e, 1
  {
    var o := h.objs[id];
    if e.ImportStmt? then
      (UpdatedOwner(h, id, o.(unresolved := o.unresolved + [e.imp])), acc)
    else if e.CallStmt? then
      (UpdatedOwner(h, id, o.(calls := o.calls + [e.call])), acc)
    else DefinitionParsed(h, id, e, acc)
  }

  /** The definition case of `ParsedElement`. */
  function DefinitionParsed(h: Heap, id: nat, e: SyntaxElement, acc: map<string, nat>)
    : (r: (Heap, map<string, nat>))
    requires Wf(h) && id in h.objs && e.IsDefinition()
    ensures Wf(r.0) && h.next <= r.0.next && h.objs.Keys <= r.0.objs.Keys
    ensures forall k :: h.next <= k < r.0.next ==> k in r.0.objs
    decreases e, 0
  {
    var cid := h.next;
    var h1 := Defined(h, id, e);
    var acc1 := acc[h1.objs[cid].fullName := cid];
    if e.IsBlock() then
      var sub := ParsedElements(h1, cid, e.body, map[]);
      (sub.0, acc1 + sub.1)
    else
      (h1, acc1)
  }

  /** Parsing only extends the heap by work on the owner. */
  lemma {:induction false} ParsedExtends(h: Heap, id: nat, elems: seq<SyntaxElement>, acc: map<string, nat>)
    requires Wf(h) && id in h.objs
    ensures Extends(h, ParsedElements(h, id, elems, acc).0, id)
    decreases elems
  {
    if elems != [] {
      var r1 := ParsedElement(h, id, elems[0], acc);
      ParsedElementExtends(h, id, elems[0], acc);
      ParsedExtends(r1.0, id, elems[1..], r1.1);
    }
  }

  lemma {:induction false} ParsedElementExtends(h: Heap, id: nat, e: SyntaxElement, acc: map<string, nat>)
    requires Wf(h) && id in h.objs
    ensures Extends(h, ParsedElement(h, id, e, acc).0, id)
    decreases e
  {
    if e.IsBlock() {
      var h1 := Defined(h, id, e);
      var sub := ParsedElements(h1, h.next, e.body, map[]);
      ParsedExtends(h1, h.next, e.body, map[]);
      ExtendsThroughChild(h, h1, sub.0, sub.0, id);
    }
  }

  /** The imports among `elems`, in order (nested bodies excluded). */
  function Imports(elems: seq<SyntaxElement>): seq<ImportElement> {
    if elems == [] then []
    else (if elems[0].ImportStmt? then [elems[0].imp] else []) + Imports(elems[1..])
  }

  /** The calls among `elems`, in order (nested bodies excluded). */
  function CallsOf(elems: seq<SyntaxElement>): seq<CallElement> {
    if elems == [] then []
    else (if elems[0].CallStmt? then [elems[0].call] else []) + CallsOf(elems[1..])
  }

  /** One `contains` relationship per definition among `elems`, in order. */
  function ContainsOf(ownerName: string, elems: seq<SyntaxElement>): seq<Relationship> {
    if elems == [] then []
    else (if elems[0].IsDefinition() then [Contains(ownerName + "." + elems[0].name)] else [])
         + ContainsOf(ownerName, elems[1..])
  }

  /** The number of definitions among `elems`. */
  function DefinitionCount(elems: seq<SyntaxElement>): nat {
    if elems == [] then 0
    else (if elems[0].IsDefinition() then 1 else 0) + DefinitionCount(elems[1..])
  }

  /** The scope bindings the definitions among `elems` make: each name to
      its full name, a later definition of a name replacing an earlier one. */
  function DefinedNames(ownerName: string, elems: seq<SyntaxElement>): map<string, string> {
    if elems == [] then map[]
    else (if elems[0].IsDefinition() then map[elems[0].name := ownerName + "." + elems[0].name] else map[])
         + DefinedNames(ownerName, elems[1..])
  }

  /** What one element does to its owner. */
  lemma ParsedElementOwner(h: Heap, id: nat, e: SyntaxElement, acc: map<string, nat>)
    requires Wf(h) && id in h.objs
    ensures var o, o1 := h.objs[id], ParsedElement(h, id, e, acc).0.objs[id];
      && (e.ImportStmt? ==> o1 == o.(unresolved := o.unresolved + [e.imp]))
      && (e.CallStmt? ==> o1 == o.(calls := o.calls + [e.call]))
      && (e.IsDefinition() ==> o1 == Defined(h, id, e).objs[id])
  {
    if e.IsBlock() {
      ParsedExtends(Defined(h, id, e), h.next, e.body, map[]);
    }
  }

  /** Parsing queues the imports and the calls on the owner, in source
      order. */
  lemma {:induction false} ParsedQueues(h: Heap, id: nat, elems: seq<SyntaxElement>, acc: map<string, nat>)
    requires Wf(h) && id in h.objs
    ensures var o, o2 := h.objs[id], ParsedElements(h, id, elems, acc).0.objs[id];
      && o2.unresolved == o.unresolved + Imports(elems)
      && o2.calls == o.calls + CallsOf(elems)
    decreases elems
  {
    if elems != [] {
      var e, o := elems[0], h.objs[id];
      var rest := elems[1..];
      var r1 := ParsedElement(h, id, e, acc);
      ParsedElementOwner(h, id, e, acc);
      ParsedQueues(r1.0, id, rest, r1.1);
      var o1 := r1.0.objs[id];
      var imports: seq<ImportElement> := if e.ImportStmt? then [e.imp] else [];
      var calls: seq<CallElement> := if e.CallStmt? then [e.call] else [];
      assert o1.unresolved == o.unresolved + imports && o1.calls == o.calls + calls;
      assert Imports(elems) == imports + Imports(rest) && CallsOf(elems) == calls + CallsOf(rest);
      ConcatAssoc(o.unresolved, imports, Imports(rest));
      ConcatAssoc(o.calls, calls, CallsOf(rest));
    }
  }

  /** What one element does to the owner's scope. */
  lemma ParsedElementScope(h: Heap, id: nat, e: SyntaxElement, acc: map<string, nat>)
    requires Wf(h) && id in h.objs
    ensures var o, o1 := h.objs[id], ParsedElement(h, id, e, acc).0.objs[id];
      && o1.fullName == o.fullName
      && o1.scope == o.scope + (if e.IsDefinition() then map[e.name := o.fullName + "." + e.name] else map[])
  {
    ParsedElementOwner(h, id, e, acc);
  }

  lemma MapUnionAssoc<K, V>(a: map<K, V>, b: map<K, V>, c: map<K, V>)
    ensures a + (b + c) == (a + b) + c
  {
  }

  /** Parsing gives the owner one `contains` relationship and one contained
      object per definition, in source order. */
  lemma {:induction false} ParsedContains(h: Heap, id: nat, elems: seq<SyntaxElement>, acc: map<string, nat>)
    requires Wf(h) && id in h.objs
    ensures var o, o2 := h.objs[id], ParsedElements(h, id, elems, acc).0.objs[id];
      && o2.rels == o.rels + ContainsOf(o.fullName, elems)
      && |o2.children| == |o.children| + DefinitionCount(elems)
      && o2.children[..|o.children|] == o.children
    decreases elems
  {
    if elems != [] {
      var e, o := elems[0], h.objs[id];
      var rest := elems[1..];
      var r1 := ParsedElement(h, id, e, acc);
      ParsedElementOwner(h, id, e, acc);
      ParsedContains(r1.0, id, rest, r1.1);
      var o1 := r1.0.objs[id];
      var o2 := ParsedElements(h, id, elems, acc).0.objs[id];
      var rels: seq<Relationship> := if e.IsDefinition() then [Contains(o.fullName + "." + e.name)] else [];
      var count: nat := if e.IsDefinition() then 1 else 0;
      assert o1.fullName == o.fullName;
      assert o1.rels == o.rels + rels && |o1.children| == |o.children| + count;
      assert o1.children[..|o.children|] == o.children;
      assert ContainsOf(o.fullName, elems) == rels + ContainsOf(o.fullName, rest);
      ConcatAssoc(o.rels, rels, ContainsOf(o.fullName, rest));
      assert o2.children[..|o.children|] == o2.children[..|o1.children|][..|o.children|];
    }
  }

  /** Parsing binds every defined name in the owner's scope to its full
      name, the last definition of a name winning, and changes no other
      binding. */
  lemma {:induction false} ParsedScope(h: Heap, id: nat, elems: seq<SyntaxElement>, acc: map<string, nat>)
    requires Wf(h) && id in h.objs
    ensures var o, o2 := h.objs[id], ParsedElements(h, id, elems, acc).0.objs[id];
      o2.scope == o.scope + DefinedNames(o.fullName, elems)
    decreases elems
  {
    if elems != [] {
      var e, o := elems[0], h.objs[id];
      var rest := elems[1..];
      var r1 := ParsedElement(h, id, e, acc);
      ParsedElementScope(h, id, e, acc);
      ParsedScope(r1.0, id, rest, r1.1);
      var binds: map<string, string> := if e.IsDefinition() then map[e.name := o.fullName + "." + e.name] else map[];
      assert DefinedNames(o.fullName, elems) == binds + DefinedNames(o.fullName, rest);
      MapUnionAssoc(o.scope, binds, DefinedNames(o.fullName, rest));
    }
  }

  /** The result `res` of parsing from `h` to `r`, started from `acc`: it
      keeps every name of `acc`, maps each name either as `acc` did or to a
      new object of that full name, and maps the full name of every new
      object to that object or to a later one. So where several new objects
      share a full name, the last one created wins. */
  predicate Collected(h: Heap, r: Heap, acc: map<string, nat>, res: map<string, nat>)
    requires Wf(r) && h.next <= r.next
    requires forall k :: h.next <= k < r.next ==> k in r.objs
  {
    && acc.Keys <= res.Keys
    && (forall n :: n in res ==>
          (n in acc && res[n] == acc[n]) || (h.next <= res[n] < r.next && r.objs[res[n]].fullName == n))
    && (forall k :: h.next <= k < r.next ==> r.objs[k].fullName in res && k <= res[r.objs[k].fullName])
  }

  lemma CollectedTrans(h: Heap, h1: Heap, h2: Heap,
                       acc: map<string, nat>, acc1: map<string, nat>, acc2: map<string, nat>)
    requires Wf(h1) && Wf(h2) && h.next <= h1.next <= h2.next
    requires forall k :: h.next <= k < h1.next ==> k in h1.objs
    requires forall k :: h1.next <= k < h2.next ==> k in h2.objs
    requires forall k :: h.next <= k < h1.next ==> k in h2.objs && h2.objs[k].fullName == h1.objs[k].fullName
    requires Collected(h, h1, acc, acc1) && Collected(h1, h2, acc1, acc2)
    ensures Collected(h, h2, acc, acc2)
  {
  }

  lemma CollectedThroughOwner(h: Heap, h1: Heap, h2: Heap, id: nat,
                              acc: map<string, nat>, acc1: map<string, nat>, acc2: map<string, nat>)
    requires Wf(h) && Extends(h, h1, id) && Extends(h1, h2, id)
    requires Collected(h, h1, acc, acc1) && Collected(h1, h2, acc1, acc2)
    ensures Collected(h, h2, acc, acc2)
  {
    assert forall k :: h.next <= k < h1.next ==> h2.objs[k] == h1.objs[k];
    CollectedTrans(h, h1, h2, acc, acc1, acc2);
  }

  /** The result of `parse_syntax_elements` names every object it created,
      the last one winning for a repeated full name. */
  lemma {:induction false} ParsedResult(h: Heap, id: nat, elems: seq<SyntaxElement>, acc: map<string, nat>)
    requires Wf(h) && id in h.objs
    ensures var r := ParsedElements(h, id, elems, acc); Collected(h, r.0, acc, r.1)
    decreases elems
  {
    if elems != [] {
      var r1 := ParsedElement(h, id, elems[0], acc);
      ParsedElementResult(h, id, elems[0], acc);
      var r := ParsedElements(r1.0, id, elems[1..], r1.1);
      ParsedResult(r1.0, id, elems[1..], r1.1);
      ParsedElementExtends(h, id, elems[0], acc);
      ParsedExtends(r1.0, id, elems[1..], r1.1);
      CollectedThroughOwner(h, r1.0, r.0, id, acc, r1.1, r.1);
    }
  }

  lemma {:induction false} ParsedElementResult(h: Heap, id: nat, e: SyntaxElement, acc: map<string, nat>)
    requires Wf(h) && id in h.objs
    ensures var r := ParsedElement(h, id, e, acc); Collected(h, r.0, acc, r.1)
    decreases e
  {
    if e.IsDefinition() {
      var cid := h.next;
      var h1 := Defined(h, id, e);
      var acc1 := acc[h1.objs[cid].fullName := cid];
      CollectedDefined(h, id, e, acc);
      if e.IsBlock() {
        var sub := ParsedElements(h1, cid, e.body, map[]);
        ParsedResult(h1, cid, e.body, map[]);
        ParsedExtends(h1, cid, e.body, map[]);
        CollectedMerge(h1, sub.0, acc1, sub.1);
        CollectedThroughChild(h, h1, sub.0, acc, acc1, acc1 + sub.1);
      }
    }
  }

  /** A definition enters its new object under its full name. */
  lemma CollectedDefined(h: Heap, id: nat, e: SyntaxElement, acc: map<string, nat>)
    requires Wf(h) && id in h.objs && e.IsDefinition()
    ensures var h1 := Defined(h, id, e); Collected(h, h1, acc, acc[h1.objs[h.next].fullName := h.next])
  {
  }

  /** Collection into one new object, then into the objects it contains. */
  lemma CollectedThroughChild(h: Heap, h1: Heap, h2: Heap,
                              acc: map<string, nat>, acc1: map<string, nat>, acc2: map<string, nat>)
    requires Wf(h1) && Wf(h2) && h1.next == h.next + 1 && h1.next <= h2.next
    requires h.next in h1.objs && h.next in h2.objs && h2.objs[h.next].fullName == h1.objs[h.next].fullName
    requires forall k :: h1.next <= k < h2.next ==> k in h2.objs
    requires Collected(h, h1, acc, acc1) && Collected(h1, h2, acc1, acc2)
    ensures Collected(h, h2, acc, acc2)
  {
    CollectedTrans(h, h1, h2, acc, acc1, acc2);
  }

  /** Merging a nested result into the result so far. */
  lemma CollectedMerge(h: Heap, r: Heap, acc: map<string, nat>, sub: map<string, nat>)
    requires Wf(r) && h.next <= r.next
    requires forall k :: h.next <= k < r.next ==> k in r.objs
    requires Collected(h, r, map[], sub)
    ensures Collected(h, r, acc, acc + sub)
  {
  }

  /** Every object created between `h` and `r` carries the test
      classification of `owner` and a full name under `owner`'s. */
  predicate Inherited(h: Heap, r: Heap, owner: Obj)
    requires forall k :: h.next <= k < r.next ==> k in r.objs
  {
    forall k :: h.next <= k < r.next ==>
      && r.objs[k].isTest == owner.isTest && r.objs[k].testType == owner.testType
      && StartsWith(r.objs[k].fullName, owner.fullName + ".")
  }

  /** Contained objects inherit the test classification of their owner, and
      their full names extend the owner's. */
  lemma {:induction false} ParsedInherits(h: Heap, id: nat, elems: seq<SyntaxElement>, acc: map<string, nat>)
    requires Wf(h) && id in h.objs
    ensures var r := ParsedElements(h, id, elems, acc); Inherited(h, r.0, h.objs[id])
    decreases elems
  {
    if elems != [] {
      var r1 := ParsedElement(h, id, elems[0], acc);
      ParsedElementInherits(h, id, elems[0], acc);
      var r := ParsedElements(r1.0, id, elems[1..], r1.1);
      ParsedInherits(r1.0, id, elems[1..], r1.1);
      ParsedElementExtends(h, id, elems[0], acc);
      ParsedExtends(r1.0, id, elems[1..], r1.1);
      assert forall k :: h.next <= k < r1.0.next ==> r.0.objs[k] == r1.0.objs[k];
    }
  }

  /** Objects that inherit from a contained object inherit from its owner. */
  lemma InheritedThroughChild(h1: Heap, r: Heap, owner: Obj, child: Obj)
    requires forall k :: h1.next <= k < r.next ==> k in r.objs
    requires child.fullName == owner.fullName + "." + child.name
    requires child.isTest == owner.isTest && child.testType == owner.testType
    requires Inherited(h1, r, child)
    ensures Inherited(h1, r, owner)
  {
    var p := owner.fullName + ".";
    assert child.fullName + "." == p + (child.name + ".");
    forall k | h1.next <= k < r.next ensures StartsWith(r.objs[k].fullName, p) {
      StartsWithShorter(r.objs[k].fullName, p, child.name + ".");
    }
  }

  lemma {:induction false} ParsedElementInherits(h: Heap, id: nat, e: SyntaxElement, acc: map<string, nat>)
    requires Wf(h) && id in h.objs
    ensures var r := ParsedElement(h, id, e, acc); Inherited(h, r.0, h.objs[id])
    decreases e
  {
    if e.IsDefinition() {
      var o, cid := h.objs[id], h.next;
      var h1 := Defined(h, id, e);
      StartsWithAppend(o.fullName + ".", e.name);
      assert Inherited(h, h1, o);
      if e.IsBlock() {
        var sub := ParsedElements(h1, cid, e.body, map[]);
        ParsedInherits(h1, cid, e.body, map[]);
        ParsedExtends(h1, cid, e.body, map[]);
        InheritedThroughChild(h1, sub.0, o, h1.objs[cid]);
        InheritedJoin(h, h1, sub.0, o);
      }
    }
  }

  /** Inheritance for the one new object of `h1`, kept in `r`, and for the
      objects `r` adds after it. */
  lemma InheritedJoin(h: Heap, h1: Heap, r: Heap, owner: Obj)
    requires h1.next == h.next + 1 && h1.next <= r.next && h.next in h1.objs
    requires forall k :: h1.next <= k < r.next ==> k in r.objs
    requires h.next in r.objs && SameIdentity(h1.objs[h.next], r.objs[h.next])
    requires Inherited(h, h1, owner) && Inherited(h1, r, owner)
    ensures Inherited(h, r, owner)
  {
  }

  /** The number of objects parsing creates: one per definition, nested
      bodies of classes and functions included. */
  function NestedDefinitionCount(elems: seq<SyntaxElement>): nat
    decreases elems
  {
    if elems == [] then 0 else ElementDefinitionCount(elems[0]) + NestedDefinitionCount(elems[1..])
  }

  function ElementDefinitionCount(e: SyntaxElement): nat
    decreases e
  {
    if e.IsBlock() then 1 + NestedDefinitionCount(e.body)
    else if e.IsDefinition() then 1
    else 0
  }

  /** Parsing creates exactly one object per definition, however deeply
      nested. */
  lemma {:induction false} ParsedCount(h: Heap, id: nat, elems: seq<SyntaxElement>, acc: map<string, nat>)
    requires Wf(h) && id in h.objs
    ensures ParsedElements(h, id, elems, acc).0.next == h.next + NestedDefinitionCount(elems)
    decreases elems
  {
    if elems != [] {
      var r1 := ParsedElement(h, id, elems[0], acc);
      ParsedElementCount(h, id, elems[0], acc);
      ParsedCount(r1.0, id, elems[1..], r1.1);
    }
  }

  lemma {:induction false} ParsedElementCount(h: Heap, id: nat, e: SyntaxElement, acc: map<string, nat>)
    requires Wf(h) && id in h.objs
    ensures ParsedElement(h, id, e, acc).0.next == h.next + ElementDefinitionCount(e)
    decreases e
  {
    if e.IsBlock() {
      ParsedCount(Defined(h, id, e), h.next, e.body, map[]);
    }
  }

  /** Parsing `a + b` is parsing `a` and then `b` from where `a` left off. */
  lemma {:induction false} ParsedAppend(h: Heap, id: nat, a: seq<SyntaxElement>, b: seq<SyntaxElement>,
                                        acc: map<string, nat>)
    requires Wf(h) && id in h.objs
    ensures var r := ParsedElements(h, id, a, acc);
      ParsedElements(h, id, a + b, acc) == ParsedElements(r.0, id, b, r.1)
    decreases a
  {
    if a == [] {
      assert a + b == b;
    } else {
      var r1 := ParsedElement(h, id, a[0], acc);
      assert (a + b)[0] == a[0] && (a + b)[1..] == a[1..] + b;
      ParsedAppend(r1.0, id, a[1..], b, r1.1);
    }
  }

  /** A block extended by `add_syntax_elements` parses as its old body
      followed by the added elements. */
  lemma ParsedExtendedBlock(h: Heap, id: nat, block: SyntaxElement, extra: seq<SyntaxElement>,
                            acc: map<string, nat>)
    requires Wf(h) && id in h.objs && block.IsBlock()
    ensures var r := ParsedElements(h, id, block.body, acc);
      ParsedElements(h, id, AddSyntaxElements(block, extra).body, acc) == ParsedElements(r.0, id, extra, r.1)
  {
    assert AddSyntaxElements(block, extra).body == block.body + extra;
    ParsedAppend(h, id, block.body, extra, acc);
  }

  /** `b` differs from `a` at most in the scopes of objects after `id`,
      and only by added bindings. */
  predicate ScopesGrown(a: Heap, b: Heap, id: nat) {
    && a.next == b.next && a.objs.Keys == b.objs.Keys
    && (forall k :: k in a.objs ==> b.objs[k] == a.objs[k].(scope := b.objs[k].scope))
    && (forall k :: k in a.objs && k <= id ==> b.objs[k] == a.objs[k])
    && (forall k :: k in a.objs ==> a.objs[k].scope.Keys <= b.objs[k].scope.Keys)
  }

  lemma ScopesGrownWf(a: Heap, b: Heap, id: nat)
    requires Wf(a) && ScopesGrown(a, b, id)
    ensures Wf(b)
  {
    assert forall k :: k in b.objs ==> b.objs[k].children == a.objs[k].children;
  }

  lemma ScopesGrownTrans(a: Heap, b: Heap, c: Heap, id: nat, id2: nat)
    requires ScopesGrown(a, b, id) && ScopesGrown(b, c, id2) && id <= id2
    ensures ScopesGrown(a, c, id)
  {
  }

  /** `update_names_in_scope_for_content` on object `id`: each contained
      object in turn takes over the bindings of `id` (those of `id` winning
      on a name bound in both), and then passes its own scope on to its
      contents. */
  function PropagatedFrom(h: Heap, id: nat): (r: Heap)
    requires Wf(h) && id in h.objs
    ensures Wf(r) && r.next == h.next && r.objs.Keys == h.objs.Keys
    decreases h.next - id, |h.objs[id].children| + 1
  {
    PropagatedKids(h, id, h.objs[id].children, 0)
  }

  /** The loop of `update_names_in_scope_for_content` over the contained
      objects `kids`, from position `i` on. */
  function PropagatedKids(h: Heap, id: nat, kids: seq<nat>, i: nat): (r: Heap)
    requires Wf(h) && id in h.objs && i <= |kids|
    requires forall j :: 0 <= j < |kids| ==> kids[j] in h.objs && id < kids[j]
    ensures Wf(r) && r.next == h.next && r.objs.Keys == h.objs.Keys
    decreases h.next - id, |kids| - i
  {
    if i == |kids| then h
    else
      var c := kids[i];
      var child := h.objs[c];
      var h1 := UpdatedOwner(h, c, child.(scope := child.scope + h.objs[id].scope));
      PropagatedKids(PropagatedFrom(h1, c), id, kids, i + 1)
  }

  /** Propagation only changes scopes of objects after `id`, and never
      removes a binding. */
  lemma {:induction false} PropagatedGrows(h: Heap, id: nat)
    requires Wf(h) && id in h.objs
    ensures ScopesGrown(h, PropagatedFrom(h, id), id)
    decreases h.next - id, |h.objs[id].children| + 1
  {
    PropagatedKidsGrow(h, id, h.objs[id].children, 0);
  }

  lemma {:induction false} PropagatedKidsGrow(h: Heap, id: nat, kids: seq<nat>, i: nat)
    requires Wf(h) && id in h.objs && i <= |kids|
    requires forall j :: 0 <= j < |kids| ==> kids[j] in h.objs && id < kids[j]
    ensures ScopesGrown(h, PropagatedKids(h, id, kids, i), id)
    decreases h.next - id, |kids| - i
  {
    if i < |kids| {
      var c := kids[i];
      var child := h.objs[c];
      var h1 := UpdatedOwner(h, c, child.(scope := child.scope + h.objs[id].scope));
      var h2 := PropagatedFrom(h1, c);
      assert ScopesGrown(h, h1, id);
      PropagatedGrows(h1, c);
      ScopesGrownTrans(h, h1, h2, id, c);
      PropagatedKidsGrow(h2, id, kids, i + 1);
      ScopesGrownTrans(h, h2, PropagatedKids(h2, id, kids, i + 1), id, id);
    }
  }

  /** After propagation from `id`, every object directly contained in `id`
      binds every name `id` binds. */
  lemma PropagatedReachesChildren(h: Heap, id: nat)
    requires Wf(h) && id in h.objs
    ensures var kids := h.objs[id].children;
      forall j :: 0 <= j < |kids| ==> h.objs[id].scope.Keys <= PropagatedFrom(h, id).objs[kids[j]].scope.Keys
  {
    PropagatedKidsInherit(h, id, h.objs[id].children, 0);
  }

  lemma {:induction false} PropagatedKidsInherit(h: Heap, id: nat, kids: seq<nat>, i: nat)
    requires Wf(h) && id in h.objs && i <= |kids|
    requires forall j :: 0 <= j < |kids| ==> kids[j] in h.objs && id < kids[j]
    ensures forall j :: i <= j < |kids| ==>
      h.objs[id].scope.Keys <= PropagatedKids(h, id, kids, i).objs[kids[j]].scope.Keys
    decreases |kids| - i
  {
    if i < |kids| {
      var c := kids[i];
      var child := h.objs[c];
      var h2 := PropagatedFrom(UpdatedOwner(h, c, child.(scope := child.scope + h.objs[id].scope)), c);
      PropagatedKidsUnfold(h, id, kids, i);
      PassScopeInherits(h, id, c);
      var r := PropagatedKids(h2, id, kids, i + 1);
      PropagatedKidsInherit(h2, id, kids, i + 1);
      PropagatedKidsGrow(h2, id, kids, i + 1);
      forall j | i <= j < |kids|
        ensures h.objs[id].scope.Keys <= r.objs[kids[j]].scope.Keys
      {
        if j == i {
          assert h2.objs[c].scope.Keys <= r.objs[c].scope.Keys;
        }
      }
    }
  }

  /** One turn of the loop: the child takes over the owner's bindings and
      keeps them while passing its scope on, and the owner is untouched. */
  lemma PassScopeInherits(h: Heap, id: nat, c: nat)
    requires Wf(h) && id in h.objs && c in h.objs && id < c
    ensures var child := h.objs[c];
      var h2 := PropagatedFrom(UpdatedOwner(h, c, child.(scope := child.scope + h.objs[id].scope)), c);
      h2.objs[id] == h.objs[id] && h.objs[id].scope.Keys <= h2.objs[c].scope.Keys
  {
    var child := h.objs[c];
    var h1 := UpdatedOwner(h, c, child.(scope := child.scope + h.objs[id].scope));
    PropagatedGrows(h1, c);
  }

  /** The full name a call refers to before the imported names are
      consulted: the reference's binding, extended by the called attribute
      when there is one. */
  function CallTarget(scope: map<string, string>, call: CallElement): string
    requires call.referenceName in scope
  {
    var base := scope[call.referenceName];
    if call.calledAttribute != "" then base + "." + call.calledAttribute else base
  }

  /** Where one call of `resolve_calls` points: nothing when its reference
      name is not in scope; otherwise its target, replaced by the imported
      name's origin when the target is a key of `imported` -- a single
      replacement, not followed further. */
  function CallDestination(scope: map<string, string>, call: CallElement, imported: map<string, string>)
    : (r: Option<string>)
    ensures r.None? <==> call.referenceName !in scope
    ensures r.Some? && CallTarget(scope, call) !in imported ==> r.value == CallTarget(scope, call)
    ensures r.Some? && CallTarget(scope, call) in imported ==> r.value == imported[CallTarget(scope, call)]
  {
    if call.referenceName !in scope then None
    else
      var target := CallTarget(scope, call);
      Some(if target in imported then imported[target] else target)
  }

  /** The `calls` relationships `resolve_calls` appends to one object: one
      per call whose reference is in scope, in call order. */
  function CallRels(scope: map<string, string>, calls: seq<CallElement>, imported: map<string, string>)
    : (r: seq<Relationship>)
    ensures |r| <= |calls|
    ensures forall i :: 0 <= i < |r| ==> r[i].Calls? && r[i].call in calls
  {
    if calls == [] then []
    else
      var d := CallDestination(scope, calls[0], imported);
      (if d.Some? then [Calls(d.value, calls[0])] else []) + CallRels(scope, calls[1..], imported)
  }

  /** The relationships for a sequence of calls are those for its parts, in
      order. */
  lemma {:induction false} CallRelsAppend(scope: map<string, string>, a: seq<CallElement>, b: seq<CallElement>,
                                          imported: map<string, string>)
    ensures CallRels(scope, a + b, imported) == CallRels(scope, a, imported) + CallRels(scope, b, imported)
  {
    if a == [] {
      assert a + b == b;
    } else {
      assert (a + b)[0] == a[0] && (a + b)[1..] == a[1..] + b;
      CallRelsAppend(scope, a[1..], b, imported);
      var d := CallDestination(scope, a[0], imported);
      var first: seq<Relationship> := if d.Some? then [Calls(d.value, a[0])] else [];
      ConcatAssoc(first, CallRels(scope, a[1..], imported), CallRels(scope, b, imported));
    }
  }

  /** Every call whose reference is in scope yields a relationship, so then
      there is one relationship per call. */
  lemma {:induction false} CallRelsAllInScope(scope: map<string, string>, calls: seq<CallElement>,
                                              imported: map<string, string>)
    requires forall i :: 0 <= i < |calls| ==> calls[i].referenceName in scope
    ensures |CallRels(scope, calls, imported)| == |calls|
    ensures forall i :: 0 <= i < |calls| ==>
      CallRels(scope, calls, imported)[i] == Calls(CallDestination(scope, calls[i], imported).value, calls[i])
  {
    if calls != [] {
      CallRelsAllInScope(scope, calls[1..], imported);
    }
  }

  /** A call whose reference is not in scope is dropped. */
  lemma CallRelsSkip(scope: map<string, string>, call: CallElement, calls: seq<CallElement>,
                     imported: map<string, string>)
    requires call.referenceName !in scope
    ensures CallRels(scope, [call] + calls, imported) == CallRels(scope, calls, imported)
  {
    assert ([call] + calls)[1..] == calls;
  }

  /** `b` differs from `a` at most in the relationships of objects from
      `id` on, and only by relationships added at the end. */
  predicate RelsGrown(a: Heap, b: Heap, id: nat) {
    && a.next == b.next && a.objs.Keys == b.objs.Keys
    && (forall k :: k in a.objs ==>
          && b.objs[k] == a.objs[k].(rels := b.objs[k].rels)
          && a.objs[k].rels <= b.objs[k].rels)
    && (forall k :: k in a.objs && k < id ==> b.objs[k] == a.objs[k])
  }

  lemma RelsGrownWf(a: Heap, b: Heap, id: nat)
    requires Wf(a) && RelsGrown(a, b, id)
    ensures Wf(b)
  {
    assert forall k :: k in b.objs ==> b.objs[k].children == a.objs[k].children;
  }

  lemma RelsGrownTrans(a: Heap, b: Heap, c: Heap, id: nat, id2: nat)
    requires RelsGrown(a, b, id) && RelsGrown(b, c, id2) && id <= id2
    ensures RelsGrown(a, c, id)
  {
    forall k | k in a.objs ensures a.objs[k].rels <= c.objs[k].rels {
      SeqPrefixTrans(a.objs[k].rels, b.objs[k].rels, c.objs[k].rels);
    }
  }

  lemma SeqPrefixTrans<T>(x: seq<T>, y: seq<T>, z: seq<T>)
    requires x <= y && y <= z
    ensures x <= z
  {
  }

  /** `resolve_calls` on object `id`: its calls become `calls`
      relationships, then the contained objects resolve theirs. */
  function CallsResolvedFrom(h: Heap, id: nat, imported: map<string, string>): (r: Heap)
    requires Wf(h) && id in h.objs
    ensures Wf(r) && r.next == h.next && r.objs.Keys == h.objs.Keys
    decreases h.next - id, |h.objs[id].children| + 1
  {
    var o := h.objs[id];
    var h1 := UpdatedOwner(h, id, o.(rels := o.rels + CallRels(o.scope, o.calls, imported)));
    CallsResolvedKids(h1, id, o.children, 0, imported)
  }

  /** The loop of `resolve_calls` over the contained objects `kids`, from
      position `i` on. */
  function CallsResolvedKids(h: Heap, id: nat, kids: seq<nat>, i: nat, imported: map<string, string>): (r: Heap)
    requires Wf(h) && id in h.objs && i <= |kids|
    requires forall j :: 0 <= j < |kids| ==> kids[j] in h.objs && id < kids[j]
    ensures Wf(r) && r.next == h.next && r.objs.Keys == h.objs.Keys
    decreases h.next - id, |kids| - i
  {
    if i == |kids| then h
    else CallsResolvedKids(CallsResolvedFrom(h, kids[i], imported), id, kids, i + 1, imported)
  }

  /** Call resolution only appends relationships, only to `id` and later
      objects, and what `id` gains are exactly the relationships of its own
      calls. */
  lemma {:induction false} CallsResolvedGrows(h: Heap, id: nat, imported: map<string, string>)
    requires Wf(h) && id in h.objs
    ensures RelsGrown(h, CallsResolvedFrom(h, id, imported), id)
    ensures CallsResolvedFrom(h, id, imported).objs[id].rels
            == h.objs[id].rels + CallRels(h.objs[id].scope, h.objs[id].calls, imported)
    decreases h.next - id, |h.objs[id].children| + 1
  {
    var o := h.objs[id];
    var h1 := UpdatedOwner(h, id, o.(rels := o.rels + CallRels(o.scope, o.calls, imported)));
    assert RelsGrown(h, h1, id);
    CallsResolvedKidsGrow(h1, id, o.children, 0, imported);
    RelsGrownTrans(h, h1, CallsResolvedKids(h1, id, o.children, 0, imported), id, id + 1);
  }

  lemma {:induction false} CallsResolvedKidsGrow(h: Heap, id: nat, kids: seq<nat>, i: nat,
                                                 imported: map<string, string>)
    requires Wf(h) && id in h.objs && i <= |kids|
    requires forall j :: 0 <= j < |kids| ==> kids[j] in h.objs && id < kids[j]
    ensures RelsGrown(h, CallsResolvedKids(h, id, kids, i, imported), id + 1)
    decreases h.next - id, |kids| - i
  {
    if i < |kids| {
      var h2 := CallsResolvedFrom(h, kids[i], imported);
      CallsResolvedGrows(h, kids[i], imported);
      CallsResolvedKidsGrow(h2, id, kids, i + 1, imported);
      RelsGrownTrans(h, h2, CallsResolvedKids(h2, id, kids, i + 1, imported), id + 1, id + 1);
    }
  }

  /** `PackageWithContext(name=..., full_name=..., dir_path=...)`: a package
      is a test object exactly when "test" or "tests" is among the parts of
      its full name; its test type, when test types are determined, is the
      second part. */
  function NewPackage(packageName: string, dirPath: seq<string>, determineTestTypes: bool): (p: Obj)
    ensures p.kind == PackageKind && p.name == packageName && p.fullName == packageName && p.path == dirPath
    ensures p.isTest <==>
      "test" in DetermineFullNameParts(packageName) || "tests" in DetermineFullNameParts(packageName)
    ensures p.testType != "" ==> determineTestTypes && p.isTest
    ensures determineTestTypes && p.isTest && |DetermineFullNameParts(packageName)| > 1 ==>
      p.testType == DetermineFullNameParts(packageName)[1]
    ensures |DetermineFullNameParts(packageName)| <= 1 ==> p.testType == ""
    ensures p.scope == map[] && p.rels == [] && p.unresolved == [] && p.calls == [] && p.children == []
  {
    var parts := DetermineFullNameParts(packageName);
    var isTest := "test" in parts || "tests" in parts;
    var testType := if determineTestTypes && isTest && |parts| > 1 then parts[1] else "";
    Obj(PackageKind, packageName, packageName, map[], isTest, testType, [], [], [], [], dirPath)
  }

  /** The module `add_module(name)` creates: named `name`, in the package's
      directory, file `name` + ".py". */
  function NewModule(package: Obj, name: string): (m: Obj)
    ensures m.kind == ModuleKind && m.name == name && m.path == package.path + [name + ".py"]
    ensures m.children == [] && m.scope == map[]
  {
    NewObj(ModuleKind, name, package.path + [name + ".py"])
  }

  /** What the front end makes of a module file: its syntax elements, or
      nothing when the file does not parse. */
  datatype ModuleSource = Source(elems: seq<SyntaxElement>) | InvalidSyntax

  /** `ModuleWithContext.parse`: the module's elements are parsed into it;
      a module that does not parse is left as it is and yields no objects. */
  function ModuleContentParsed(h: Heap, id: nat, src: ModuleSource): (r: (Heap, map<string, nat>))
    requires Wf(h) && id in h.objs
    ensures Wf(r.0) && h.next <= r.0.next && h.objs.Keys <= r.0.objs.Keys
  {
    match src
    case InvalidSyntax => (h, map[])
    case Source(elems) => ParsedElements(h, id, elems, map[])
  }

  /** Parsing a module extends the heap by work on the module, and its
      result names every object created. */
  lemma ModuleContentCollected(h: Heap, id: nat, src: ModuleSource)
    requires Wf(h) && id in h.objs
    ensures var r := ModuleContentParsed(h, id, src);
      Extends(h, r.0, id) && Collected(h, r.0, map[], r.1)
  {
    if src.Source? {
      ParsedExtends(h, id, src.elems, map[]);
      ParsedResult(h, id, src.elems, map[]);
    }
  }

  /** One turn of the loop of `update_names_in_scope_for_content`. */
  lemma PropagatedKidsUnfold(h: Heap, id: nat, kids: seq<nat>, i: nat)
    requires Wf(h) && id in h.objs && i < |kids|
    requires forall j :: 0 <= j < |kids| ==> kids[j] in h.objs && id < kids[j]
    ensures var child := h.objs[kids[i]];
      var h2 := PropagatedFrom(UpdatedOwner(h, kids[i], child.(scope := child.scope + h.objs[id].scope)), kids[i]);
      && Wf(h2) && id in h2.objs && h2.next == h.next
      && (forall j :: 0 <= j < |kids| ==> kids[j] in h2.objs)
      && PropagatedKids(h, id, kids, i) == PropagatedKids(h2, id, kids, i + 1)
  {
  }

  lemma CallsResolvedFromUnfold(h: Heap, id: nat, imported: map<string, string>)
    requires Wf(h) && id in h.objs
    ensures var o := h.objs[id];
      var h1 := UpdatedOwner(h, id, o.(rels := o.rels + CallRels(o.scope, o.calls, imported)));
      CallsResolvedFrom(h, id, imported) == CallsResolvedKids(h1, id, o.children, 0, imported)
  {
  }

  /** One turn of the loop of `resolve_calls` over the contained objects. */
  lemma CallsResolvedKidsUnfold(h: Heap, id: nat, kids: seq<nat>, i: nat, imported: map<string, string>)
    requires Wf(h) && id in h.objs && i < |kids|
    requires forall j :: 0 <= j < |kids| ==> kids[j] in h.objs && id < kids[j]
    ensures var h2 := CallsResolvedFrom(h, kids[i], imported);
      && Wf(h2) && id in h2.objs && h2.next == h.next
      && (forall j :: 0 <= j < |kids| ==> kids[j] in h2.objs)
      && CallsResolvedKids(h, id, kids, i, imported) == CallsResolvedKids(h2, id, kids, i + 1, imported)
  {
  }

  /** The arena of all objects, updated in place by the methods of
      `ObjectWithContext`. */
  class ObjectStore {
    var heap: Heap

    constructor ()
      ensures heap == Heap(map[], 0)
    {
      heap := Heap(map[], 0);
    }

    /** Stores an object that no other object contains (a package). */
    method Allocate(o: Obj) returns (id: nat)
      requires Wf(heap) && o.children == []
      modifies this
      ensures id == old(heap.next) && heap == Heap(old(heap.objs)[id := o], id + 1) && Wf(heap)
    {
      id := heap.next;
      heap := Heap(heap.objs[id := o], id + 1);
    }

    /** `add_content`. */
    method AddContent(owner: nat, thing: Obj) returns (id: nat)
      requires Wf(heap) && owner in heap.objs && thing.children == []
      modifies this
      ensures id == old(heap.next) && heap == AddedContent(old(heap), owner, thing)
    {
      id := heap.next;
      var o := heap.objs[owner];
      var child := Initialize(o, thing);
      heap := Heap(heap.objs[id := child], id + 1);
      heap := heap.(objs := heap.objs[owner := o.(rels := o.rels + [Contains(child.fullName)])]);
      o := heap.objs[owner];
      heap := heap.(objs := heap.objs[owner := o.(children := o.children + [id])]);
    }

    /** `PackageWithContext.add_module`. */
    method AddModule(package: nat, name: string) returns (id: nat)
      requires Wf(heap) && package in heap.objs
      modifies this
      ensures id == old(heap.next)
      ensures heap == AddedContent(old(heap), package, NewModule(old(heap).objs[package], name))
    {
      id := AddContent(package, NewModule(heap.objs[package], name));
    }

    /** `parse_syntax_elements`. */
    method ParseSyntaxElements(id: nat, elems: seq<SyntaxElement>) returns (result: map<string, nat>)
      requires Wf(heap) && id in heap.objs
      modifies this
      ensures (heap, result) == ParsedElements(old(heap), id, elems, map[])
      decreases elems, 1
    {
      result := map[];
      var i := 0;
      while i < |elems|
        invariant 0 <= i <= |elems|
        invariant Wf(heap) && id in heap.objs
        invariant ParsedElements(heap, id, elems[i..], result) == ParsedElements(old(heap), id, elems, map[])
      {
        assert elems[i..][0] == elems[i] && elems[i..][1..] == elems[i + 1..];
        result := ParseSyntaxElement(id, elems[i], result);
        i := i + 1;
      }
    }

    /** `ModuleWithContext.parse`. */
    method ParseModule(id: nat, src: ModuleSource) returns (result: map<string, nat>)
      requires Wf(heap) && id in heap.objs
      modifies this
      ensures (heap, result) == ModuleContentParsed(old(heap), id, src)
    {
      match src
      case InvalidSyntax =>
        result := map[];
      case Source(elems) =>
        result := ParseSyntaxElements(id, elems);
    }

    /** One iteration of the loop of `parse_syntax_elements`. */
    method ParseSyntaxElement(id: nat, e: SyntaxElement, acc: map<string, nat>) returns (result: map<string, nat>)
      requires Wf(heap) && id in heap.objs
      modifies this
      ensures (heap, result) == ParsedElement(old(heap), id, e, acc)
      decreases e, 0
    {
      result := acc;
      var o := heap.objs[id];
      if e.ImportStmt? {
        heap := heap.(objs := heap.objs[id := o.(unresolved := o.unresolved + [e.imp])]);
      } else if e.CallStmt? {
        heap := heap.(objs := heap.objs[id := o.(calls := o.calls + [e.call])]);
      } else {
        var cid := AddContent(id, NewObj(DefinitionKind(e), e.name, []));
        var fullName := heap.objs[cid].fullName;
        result := result[fullName := cid];
        o := heap.objs[id];
        heap := heap.(objs := heap.objs[id := o.(scope := o.scope[e.name := fullName])]);
        if e.IsBlock() {
          var sub := ParseSyntaxElements(cid, e.body);
          result := result + sub;
        }
      }
    }

    /** `update_names_in_scope_for_content`. */
    method UpdateNamesInScopeForContent(id: nat)
      requires Wf(heap) && id in heap.objs
      modifies this
      ensures heap == PropagatedFrom(old(heap), id)
      decreases heap.next - id, 1
    {
      var kids := heap.objs[id].children;
      var i := 0;
      while i < |kids|
        invariant 0 <= i <= |kids|
        invariant Wf(heap) && heap.next == old(heap.next) && heap.objs.Keys == old(heap.objs.Keys)
        invariant forall j :: 0 <= j < |kids| ==> kids[j] in old(heap.objs) && id < kids[j]
        invariant PropagatedKids(heap, id, kids, i) == PropagatedFrom(old(heap), id)
      {
        PropagatedKidsUnfold(heap, id, kids, i);
        PassScope(id, kids[i]);
        i := i + 1;
      }
    }

    /** One iteration of the loop of `update_names_in_scope_for_content`:
        contained object `c` takes over the bindings of `id` and passes its
        scope on. */
    method PassScope(id: nat, c: nat)
      requires Wf(heap) && id in heap.objs && c in heap.objs && id < c
      modifies this
      ensures var child := old(heap).objs[c];
        heap == PropagatedFrom(UpdatedOwner(old(heap), c, child.(scope := child.scope + old(heap).objs[id].scope)), c)
      decreases heap.next - id, 0
    {
      var child := heap.objs[c];
      heap := heap.(objs := heap.objs[c := child.(scope := child.scope + heap.objs[id].scope)]);
      UpdateNamesInScopeForContent(c);
    }

    /** `resolve_calls` on object `id` and, recursively, its contents. */
    method ResolveCalls(id: nat, imported: map<string, string>)
      requires Wf(heap) && id in heap.objs
      modifies this
      ensures heap == CallsResolvedFrom(old(heap), id, imported)
      decreases heap.next - id
    {
      var o := heap.objs[id];
      var rels := CallRelationships(o.scope, o.calls, imported);
      heap := heap.(objs := heap.objs[id := o.(rels := o.rels + rels)]);
      CallsResolvedFromUnfold(old(heap), id, imported);
      assert heap == UpdatedOwner(old(heap), id, o.(rels := o.rels + rels));
      var kids := o.children;
      var i := 0;
      ghost var target := CallsResolvedKids(heap, id, kids, 0, imported);
      while i < |kids|
        invariant 0 <= i <= |kids|
        invariant Wf(heap) && id in heap.objs && heap.next == old(heap.next)
        invariant forall j :: 0 <= j < |kids| ==> kids[j] in heap.objs && id < kids[j]
        invariant CallsResolvedKids(heap, id, kids, i, imported) == target
      {
        CallsResolvedKidsUnfold(heap, id, kids, i, imported);
        ResolveCalls(kids[i], imported);
        i := i + 1;
      }
    }
  }

  /** The first loop of `resolve_calls`: a `Calls` relationship for each
      call whose reference is bound in `scope`, in order. */
  method CallRelationships(scope: map<string, string>, calls: seq<CallElement>, imported: map<string, string>)
    returns (rels: seq<Relationship>)
    ensures rels == CallRels(scope, calls, imported)
  {
    rels := [];
    var i := 0;
    while i < |calls|
      invariant 0 <= i <= |calls|
      invariant rels == CallRels(scope, calls[..i], imported)
    {
      var call := calls[i];
      CallRelsAppend(scope, calls[..i], [call], imported);
      assert calls[..i + 1] == calls[..i] + [call];
      if call.referenceName in scope {
        var calledFullName := scope[call.referenceName];
        var whatFullName := if call.calledAttribute != "" then calledFullName + "." + call.calledAttribute
                            else calledFullName;
        if whatFullName in imported {
          whatFullName := imported[whatFullName];
        }
        rels := rels + [Calls(whatFullName, call)];
      }
      i := i + 1;
    }
    assert calls[..|calls|] == calls;
  }
}
