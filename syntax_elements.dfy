/** The syntax elements the front end extracts from a module
    (pycograph/schemas/basic_syntax_elements.py): definitions, calls and
    imports. Optional strings are modelled as strings, the empty string
    standing for `None`; every use of them in the engine is a truth test. */
module SyntaxElements {
  import opened Strings

  datatype ReferenceType = Absolute | Relative

  /** `import name as asName`, or `from fromText import name as asName` with
      `level` leading dots. */
  datatype ImportElement =
    | PlainImport(name: string, asName: string)
    | FromImport(name: string, asName: string, fromText: string, level: int)

  /** A call `referenceName(...)` or `referenceName.calledAttribute(...)`. */
  datatype CallElement = CallElement(referenceName: string, calledAttribute: string)

  /** Classes and functions are blocks with a body; a constant has none. */
  datatype SyntaxElement =
    | ClassDef(name: string, body: seq<SyntaxElement>)
    | FunctionDef(name: string, body: seq<SyntaxElement>)
    | ConstantDef(name: string)
    | CallStmt(call: CallElement)
    | ImportStmt(imp: ImportElement)
  {
    predicate IsDefinition() {
      ClassDef? || FunctionDef? || ConstantDef?
    }

    predicate IsBlock() {
      ClassDef? || FunctionDef?
    }
  }

  /** `name_in_importer`: the alias when there is one, else the imported name. */
  function NameInImporter(imp: ImportElement): (r: string)
    ensures imp.asName != "" ==> r == imp.asName
    ensures imp.asName == "" ==> r == imp.name
  {
    if imp.asName != "" then imp.asName else imp.name
  }

  /** `what_full_name`: the dotted name the import refers to. */
  function WhatFullName(imp: ImportElement): (r: string)
    ensures imp.PlainImport? || imp.fromText == "" ==> r == imp.name
    ensures imp.FromImport? && imp.fromText != "" ==> r == imp.fromText + "." + imp.name
  {
    match imp
    case PlainImport(name, _) => name
    case FromImport(name, _, fromText, _) => if fromText != "" then fromText + "." + name else name
  }

  /** `reference_type`: a plain import is absolute; a from-import is relative
      exactly when it has leading dots. */
  function RefType(imp: ImportElement): (r: ReferenceType)
    ensures r == Relative <==> imp.FromImport? && imp.level != 0
  {
    match imp
    case PlainImport(_, _) => Absolute
    case FromImport(_, _, _, level) => if level == 0 then Absolute else Relative
  }

  /** The dot-separated segments an import refers to are those of the module
      it imports from, followed by those of the imported name. */
  lemma WhatFullNameSegments(imp: ImportElement)
    ensures imp.FromImport? && imp.fromText != "" ==>
      Split(WhatFullName(imp), '.') == Split(imp.fromText, '.') + Split(imp.name, '.')
    ensures imp.PlainImport? || imp.fromText == "" ==>
      Split(WhatFullName(imp), '.') == Split(imp.name, '.')
  {
    if imp.FromImport? && imp.fromText != "" {
      SplitAppend(imp.fromText, '.', imp.name);
    }
  }

  /** `add_syntax_elements` on a block: the new elements follow the existing
      body, in order; the block keeps its kind and name. */
  function AddSyntaxElements(block: SyntaxElement, elems: seq<SyntaxElement>): (r: SyntaxElement)
    requires block.IsBlock()
    ensures r.IsBlock() && r.ClassDef? == block.ClassDef? && r.name == block.name
    ensures |r.body| == |block.body| + |elems|
    ensures r.body[..|block.body|] == block.body && r.body[|block.body|..] == elems
  {
    if block.ClassDef? then ClassDef(block.name, block.body + elems)
    else FunctionDef(block.name, block.body + elems)
  }
}
