/** The function scanner of `src/llm_testgen/ast_extract.py`: a depth-first
    visitor over a Python syntax tree that records every `def` it meets,
    with a stack of enclosing class names, and the directory walk that
    derives each file's module name and skips hidden paths.

    Parsing (`ast.parse`, `ast.unparse`, `ast.get_docstring`) is not part of
    this model: a file arrives as a syntax tree or as a parse failure, an
    annotation arrives with its unparsed text, a def with its docstring. */
module Scanner {
  import opened Strings

  datatype Option<T> = None | Some(value: T)

  // ---------------------------------------------------------------------------
  // Syntax trees
  // ---------------------------------------------------------------------------

  /** An annotation expression, carrying what `_annotation_str` makes of it:
      the text `ast.unparse` gives, or `None` when unparsing raises. */
  datatype Annotation = Annotation(unparsed: Option<string>)

  /** `ast.arg`: a parameter name and its optional annotation. */
  datatype Arg = Arg(arg: string, annotation: Option<Annotation>)

  /** `ast.arguments`: every kind of parameter a def can declare. */
  datatype Arguments = Arguments(
    posonlyargs: seq<Arg>,
    args: seq<Arg>,
    vararg: Option<Arg>,
    kwonlyargs: seq<Arg>,
    kwarg: Option<Arg>)

  /** The node kinds the visitor tells apart. `docstring` is what
      `ast.get_docstring` returns for the def. `Other` is any other node, with
      its child nodes in the order `ast.iter_fields` yields them (an
      `ast.Module` is an `Other`). */
  datatype Node =
    | FunctionDef(name: string, arguments: Arguments, returnAnn: Option<Annotation>,
                  docstring: Option<string>, body: seq<Node>)
    | AsyncFunctionDef(name: string, body: seq<Node>)
    | ClassDef(name: string, body: seq<Node>)
    | Other(children: seq<Node>)

  /** The children `generic_visit` descends into. Expressions cannot hold a
      def, so for defs and classes only the body matters. */
  function Children(node: Node): seq<Node> {
    match node
    case FunctionDef(_, _, _, _, body) => body
    case AsyncFunctionDef(_, body) => body
    case ClassDef(_, body) => body
    case Other(children) => children
  }

  /** `FunctionInfo`: one record per def. */
  datatype FunctionInfo = FunctionInfo(
    moduleName: string,
    qualname: string,
    name: string,
    args: seq<string>,
    annotations: map<string, Option<string>>,
    returnText: Option<string>,
    docstring: Option<string>,
    relPath: string)

  // ---------------------------------------------------------------------------
  // The record of one def
  // ---------------------------------------------------------------------------

  /** `".".join(stack + [name])`. */
  function Qualname(stack: seq<string>, name: string): string {
    Join(stack + [name], ".")
  }

  /** `[a.arg for a in node.args.args]`. */
  function ArgNames(args: seq<Arg>): (names: seq<string>)
    ensures |names| == |args|
    ensures forall i :: 0 <= i < |args| ==> names[i] == args[i].arg
  {
    seq(|args|, i requires 0 <= i < |args| => args[i].arg)
  }

  /** The `annotations` dict after the loop has seen `args` in order: a key
      for each annotated parameter, bound to its unparsed text. */
  function AnnotationMap(args: seq<Arg>): map<string, Option<string>>
    decreases |args|
  {
    if args == [] then map[]
    else
      var m := AnnotationMap(args[..|args| - 1]);
      var a := args[|args| - 1];
      if a.annotation.Some? then m[a.arg := a.annotation.value.unparsed] else m
  }

  /** `_annotation_str(node.returns) if node.returns is not None else None`. */
  function ReturnText(ann: Option<Annotation>): Option<string> {
    if ann.Some? then ann.value.unparsed else None
  }

  /** The record `visit_FunctionDef` appends for `node` under `stack`. */
  function Record(node: Node, stack: seq<string>, moduleName: string, relPath: string): FunctionInfo
    requires node.FunctionDef?
  {
    FunctionInfo(moduleName, Qualname(stack, node.name), node.name,
                 ArgNames(node.arguments.args), AnnotationMap(node.arguments.args),
                 ReturnText(node.returnAnn), node.docstring, relPath)
  }

  // ---------------------------------------------------------------------------
  // The records of a whole tree
  // ---------------------------------------------------------------------------

  /** What visiting `node` with class stack `stack` appends to `found`: a def
      is recorded and then descended into with the same stack, a class is
      descended into with its name pushed, anything else (an async def
      included) is only descended into. */
  function Collect(node: Node, stack: seq<string>, moduleName: string, relPath: string): seq<FunctionInfo>
    decreases node
  {
    match node
    case FunctionDef(_, _, _, _, body) => [Record(node, stack, moduleName, relPath)] + CollectAll(body, stack, moduleName, relPath)
    case AsyncFunctionDef(_, body) => CollectAll(body, stack, moduleName, relPath)
    case ClassDef(name, body) => CollectAll(body, stack + [name], moduleName, relPath)
    case Other(children) => CollectAll(children, stack, moduleName, relPath)
  }

  /** The records of a list of sibling nodes, visited in order. */
  function CollectAll(nodes: seq<Node>, stack: seq<string>, moduleName: string, relPath: string): seq<FunctionInfo>
    decreases nodes
  {
    if nodes == [] then []
    else CollectAll(nodes[..|nodes| - 1], stack, moduleName, relPath) + Collect(nodes[|nodes| - 1], stack, moduleName, relPath)
  }

  /** The number of `def` nodes in a tree (async defs do not count). */
  function CountDefs(node: Node): nat
    decreases node
  {
    match node
    case FunctionDef(_, _, _, _, body) => 1 + CountDefsAll(body)
    case AsyncFunctionDef(_, body) => CountDefsAll(body)
    case ClassDef(_, body) => CountDefsAll(body)
    case Other(children) => CountDefsAll(children)
  }

  function CountDefsAll(nodes: seq<Node>): nat
    decreases nodes
  {
    if nodes == [] then 0 else CountDefsAll(nodes[..|nodes| - 1]) + CountDefs(nodes[|nodes| - 1])
  }

  // ---------------------------------------------------------------------------
  // The visitor
  // ---------------------------------------------------------------------------

  /** The `Visitor` of `_collect_functions`, holding its class-name stack and
      the `found` list it appends to. */
  class Visitor {
    const moduleName: string
    const relPath: string
    var stack: seq<string>
    var found: seq<FunctionInfo>

    constructor (moduleName: string, relPath: string)
      ensures this.moduleName == moduleName && this.relPath == relPath
      ensures stack == [] && found == []
    {
      this.moduleName := moduleName;
      this.relPath := relPath;
      stack := [];
      found := [];
    }

    /** `NodeVisitor.visit`: dispatch on the node kind. */
    method Visit(node: Node)
      modifies this
      ensures stack == old(stack)
      ensures found == old(found) + Collect(node, old(stack), moduleName, relPath)
      decreases node, 2
    {
      match node
      case FunctionDef(_, _, _, _, _) => VisitFunctionDef(node);
      case ClassDef(_, _) => VisitClassDef(node);
      case _ => GenericVisit(Children(node));
    }

    /** `NodeVisitor.generic_visit`: visit the children in order. */
    method GenericVisit(children: seq<Node>)
      modifies this
      ensures stack == old(stack)
      ensures found == old(found) + CollectAll(children, old(stack), moduleName, relPath)
      decreases children, 0
    {
      for i := 0 to |children|
        invariant stack == old(stack)
        invariant found == old(found) + CollectAll(children[..i], stack, moduleName, relPath)
      {
        assert children[..i + 1][..i] == children[..i];
        Visit(children[i]);
      }
      assert children[..|children|] == children;
    }

    /** `visit_FunctionDef`: record the def under the current stack, then
      descend into it without touching the stack. */
    method VisitFunctionDef(node: Node)
      requires node.FunctionDef?
      modifies this
      ensures stack == old(stack)
      ensures found == old(found) + Collect(node, old(stack), moduleName, relPath)
      decreases node, 1
    {
      var qual := Join(stack + [node.name], ".");
      var args := ArgNames(node.arguments.args);
      var params := node.arguments.args;
      var annotations := map[];
      for i := 0 to |params|
        invariant annotations == AnnotationMap(params[..i])
      {
        assert params[..i + 1][..i] == params[..i];
        if params[i].annotation.Some? {
          annotations := annotations[params[i].arg := params[i].annotation.value.unparsed];
        }
      }
      assert params[..|params|] == params;
      var ret := if node.returnAnn.Some? then node.returnAnn.value.unparsed else None;
      found := found + [FunctionInfo(moduleName, qual, node.name, args, annotations, ret, node.docstring, relPath)];
      GenericVisit(node.body);
    }

    /** `visit_ClassDef`: push the class name, descend, pop it again. */
    method VisitClassDef(node: Node)
      requires node.ClassDef?
      modifies this
      ensures stack == old(stack)
      ensures found == old(found) + Collect(node, old(stack), moduleName, relPath)
      decreases node, 1
    {
      stack := stack + [node.name];
      GenericVisit(node.body);
      stack := stack[..|stack| - 1];
    }
  }

  /** `_collect_functions(tree, module_name, rel_path)`. */
  method CollectFunctions(tree: Node, moduleName: string, relPath: string) returns (found: seq<FunctionInfo>)
    ensures found == Collect(tree, [], moduleName, relPath)
  {
    var v := new Visitor(moduleName, relPath);
    v.Visit(tree);
    found := v.found;
  }

  // ---------------------------------------------------------------------------
  // Properties of the records
  // ---------------------------------------------------------------------------

  /** A qualified name is the bare name when there is no enclosing class, and
      ends with "." and the name otherwise. */
  lemma QualnameShape(stack: seq<string>, name: string)
    ensures stack == [] ==> Qualname(stack, name) == name
    ensures stack != [] ==> EndsWith(Qualname(stack, name), "." + name)
    ensures |stack| >= 1 ==> StartsWith(Qualname(stack, name), stack[0] + ".")
  {
    JoinSnoc(stack, name, ".");
    if stack != [] {
      var q := Qualname(stack, name);
      assert q == Join(stack, ".") + "." + name;
      assert q[|q| - |"." + name|..] == "." + name;
      JoinHead(stack + [name], ".");
    }
  }

  /** A record's name facts that hold under class stack `stack`: its qualname
      ends with its own name, and when some class encloses the tree its
      qualname starts with the outermost class name and a dot. */
  predicate WellNamed(r: FunctionInfo, stack: seq<string>) {
    (r.qualname == r.name || EndsWith(r.qualname, "." + r.name))
    && (stack != [] ==> StartsWith(r.qualname, stack[0] + "."))
  }

  lemma {:induction false} CollectWellNamed(node: Node, stack: seq<string>, moduleName: string, relPath: string)
    ensures forall r :: r in Collect(node, stack, moduleName, relPath) ==> WellNamed(r, stack)
    decreases node
  {
    match node
    case FunctionDef(name, _, _, _, body) =>
      QualnameShape(stack, name);
      CollectAllWellNamed(body, stack, moduleName, relPath);
    case AsyncFunctionDef(_, body) =>
      CollectAllWellNamed(body, stack, moduleName, relPath);
    case ClassDef(name, body) =>
      CollectAllWellNamed(body, stack + [name], moduleName, relPath);
      forall r | r in Collect(node, stack, moduleName, relPath) ensures WellNamed(r, stack) {
        assert WellNamed(r, stack + [name]);
        if stack != [] {
          assert (stack + [name])[0] == stack[0];
        }
      }
    case Other(children) =>
      CollectAllWellNamed(children, stack, moduleName, relPath);
  }

  lemma {:induction false} CollectAllWellNamed(nodes: seq<Node>, stack: seq<string>, moduleName: string, relPath: string)
    ensures forall r :: r in CollectAll(nodes, stack, moduleName, relPath) ==> WellNamed(r, stack)
    decreases nodes
  {
    if nodes != [] {
      CollectAllWellNamed(nodes[..|nodes| - 1], stack, moduleName, relPath);
      CollectWellNamed(nodes[|nodes| - 1], stack, moduleName, relPath);
    }
  }

  /** Every def in the tree is recorded exactly once: there are as many
      records as `def` nodes. */
  lemma {:induction false} CollectCount(node: Node, stack: seq<string>, moduleName: string, relPath: string)
    ensures |Collect(node, stack, moduleName, relPath)| == CountDefs(node)
    decreases node
  {
    match node
    case FunctionDef(_, _, _, _, body) => CollectAllCount(body, stack, moduleName, relPath);
    case AsyncFunctionDef(_, body) => CollectAllCount(body, stack, moduleName, relPath);
    case ClassDef(name, body) => CollectAllCount(body, stack + [name], moduleName, relPath);
    case Other(children) => CollectAllCount(children, stack, moduleName, relPath);
  }

  lemma {:induction false} CollectAllCount(nodes: seq<Node>, stack: seq<string>, moduleName: string, relPath: string)
    ensures |CollectAll(nodes, stack, moduleName, relPath)| == CountDefsAll(nodes)
    decreases nodes
  {
    if nodes != [] {
      CollectAllCount(nodes[..|nodes| - 1], stack, moduleName, relPath);
      CollectCount(nodes[|nodes| - 1], stack, moduleName, relPath);
    }
  }

  /** The records of each child appear among the records of its siblings' list. */
  lemma {:induction false} CollectAllIncludes(nodes: seq<Node>, j: nat, stack: seq<string>, moduleName: string, relPath: string)
    requires j < |nodes|
    ensures forall r :: r in Collect(nodes[j], stack, moduleName, relPath) ==> r in CollectAll(nodes, stack, moduleName, relPath)
    decreases |nodes|
  {
    if j < |nodes| - 1 {
      CollectAllIncludes(nodes[..|nodes| - 1], j, stack, moduleName, relPath);
    }
  }

  /** A def nested directly inside another def is recorded, under the same
      class stack: the enclosing function's name is not part of its qualname.
      The enclosing def's own record comes first (pre-order). */
  lemma NestedDefRecorded(outer: Node, j: nat, stack: seq<string>, moduleName: string, relPath: string)
    requires outer.FunctionDef? && j < |outer.body| && outer.body[j].FunctionDef?
    ensures Collect(outer, stack, moduleName, relPath)[0] == Record(outer, stack, moduleName, relPath)
    ensures Record(outer.body[j], stack, moduleName, relPath) in Collect(outer, stack, moduleName, relPath)[1..]
    ensures Record(outer.body[j], stack, moduleName, relPath).qualname == Qualname(stack, outer.body[j].name)
  {
    CollectAllIncludes(outer.body, j, stack, moduleName, relPath);
  }

  /** An async def is not recorded, but the defs inside it are, under the same stack. */
  lemma AsyncDefSkipped(inner: Node, name: string, stack: seq<string>, moduleName: string, relPath: string)
    requires inner.FunctionDef?
    ensures Collect(AsyncFunctionDef(name, [inner]), stack, moduleName, relPath)
            == [Record(inner, stack, moduleName, relPath)] + CollectAll(inner.body, stack, moduleName, relPath)
  {
    assert [inner][..0] == [];
    assert CollectAll([inner], stack, moduleName, relPath) == Collect(inner, stack, moduleName, relPath);
  }

  /** The fields of a record: `args` are the plain positional names in order
      (positional-only, `*args`, keyword-only and `**kwargs` are left out),
      `annotations` has a key exactly for the annotated ones, and `returns`
      is absent without a return annotation. */
  lemma RecordFields(node: Node, stack: seq<string>, moduleName: string, relPath: string)
    requires node.FunctionDef?
    ensures var r := Record(node, stack, moduleName, relPath);
      && |r.args| == |node.arguments.args|
      && (forall i :: 0 <= i < |r.args| ==> r.args[i] == node.arguments.args[i].arg)
      && (forall k :: k in r.annotations <==>
            exists i :: 0 <= i < |node.arguments.args| && node.arguments.args[i].arg == k
                        && node.arguments.args[i].annotation.Some?)
      && r.annotations.Keys <= set a | a in r.args
      && (node.returnAnn.None? ==> r.returnText.None?)
      && r.moduleName == moduleName && r.relPath == relPath && r.name == node.name
  {
    AnnotationMapKeys(node.arguments.args);
  }

  lemma {:induction false} AnnotationMapKeys(args: seq<Arg>)
    ensures forall k :: k in AnnotationMap(args) <==>
              exists i :: 0 <= i < |args| && args[i].arg == k && args[i].annotation.Some?
    decreases |args|
  {
    if args != [] {
      var init := args[..|args| - 1];
      AnnotationMapKeys(init);
      forall k ensures k in AnnotationMap(args) <==>
                exists i :: 0 <= i < |args| && args[i].arg == k && args[i].annotation.Some? {
        if exists i :: 0 <= i < |init| && init[i].arg == k && init[i].annotation.Some? {
          var i :| 0 <= i < |init| && init[i].arg == k && init[i].annotation.Some?;
          assert args[i] == init[i];
        }
        if exists i :: 0 <= i < |args| && args[i].arg == k && args[i].annotation.Some? {
          var i :| 0 <= i < |args| && args[i].arg == k && args[i].annotation.Some?;
          if i < |init| {
            assert init[i] == args[i];
          }
        }
      }
    }
  }

  /** With distinct parameter names, each annotated parameter maps to its
      annotation's unparsed text. */
  lemma {:induction false} AnnotationMapValue(args: seq<Arg>, i: nat)
    requires i < |args| && args[i].annotation.Some?
    requires forall j, k :: 0 <= j < k < |args| ==> args[j].arg != args[k].arg
    ensures args[i].arg in AnnotationMap(args)
    ensures AnnotationMap(args)[args[i].arg] == args[i].annotation.value.unparsed
    decreases |args|
  {
    if i < |args| - 1 {
      AnnotationMapValue(args[..|args| - 1], i);
    }
  }

  // ---------------------------------------------------------------------------
  // The directory walk
  // ---------------------------------------------------------------------------

  /** A path yielded by the walk: its segments below the scanned root, and
      the outcome of reading and parsing it (`None` when either raised). */
  datatype SourceFile = SourceFile(parts: seq<string>, tree: Option<Node>)

  /** `any(seg.startswith(".") for seg in parts)`. */
  predicate Hidden(parts: seq<string>) {
    exists k :: 0 <= k < |parts| && StartsWith(parts[k], ".")
  }

  /** `str(path.relative_to(base))` on a POSIX system. */
  function RelPath(parts: seq<string>): string {
    Join(parts, "/")
  }

  /** `rel.replace("/", ".").removesuffix(".py")`. */
  function ModuleName(rel: string): (m: string)
    ensures forall i :: 0 <= i < |m| ==> m[i] != '/'
    ensures EndsWith(ReplaceChar(rel, '/', '.'), ".py") ==> m + ".py" == ReplaceChar(rel, '/', '.')
    ensures !EndsWith(ReplaceChar(rel, '/', '.'), ".py") ==> m == ReplaceChar(rel, '/', '.')
  {
    RemoveSuffix(ReplaceChar(rel, '/', '.'), ".py")
  }

  /** Joining the segments with "/" and then replacing "/" is joining them with ".". */
  lemma ModuleNameOfParts(parts: seq<string>)
    requires forall k, j :: 0 <= k < |parts| && 0 <= j < |parts[k]| ==> parts[k][j] != '/'
    ensures ModuleName(RelPath(parts)) == RemoveSuffix(Join(parts, "."), ".py")
  {
    ReplaceJoin(parts, '/', '.');
  }

  /** The records one walked path contributes. */
  function FileRecords(baseParts: seq<string>, f: SourceFile): seq<FunctionInfo> {
    if Hidden(baseParts + f.parts) then []
    else match f.tree
      case None => []
      case Some(t) => Collect(t, [], ModuleName(RelPath(f.parts)), RelPath(f.parts))
  }

  /** The chunks `f` gives for each item of `xs`, concatenated in order. */
  function FlatMap<A, B>(f: A -> seq<B>, xs: seq<A>): seq<B>
    decreases |xs|
  {
    if xs == [] then []
    else FlatMap(f, xs[..|xs| - 1]) + f(xs[|xs| - 1])
  }

  lemma {:induction false} FlatMapAppend<A, B>(f: A -> seq<B>, a: seq<A>, b: seq<A>)
    ensures FlatMap(f, a + b) == FlatMap(f, a) + FlatMap(f, b)
    decreases |b|
  {
    if b == [] {
      assert a + b == a;
    } else {
      var init, last := b[..|b| - 1], b[|b| - 1];
      assert b == init + [last];
      assert (a + b)[..|a + b| - 1] == a + init;
      FlatMapAppend(f, a, init);
    }
  }

  /** `FileRecords(baseParts, ·)` as a value. */
  function PathRecords(baseParts: seq<string>): SourceFile -> seq<FunctionInfo> {
    f => FileRecords(baseParts, f)
  }

  /** The records of the paths walked so far, in walk order. */
  function Scan(baseParts: seq<string>, files: seq<SourceFile>): seq<FunctionInfo> {
    FlatMap(PathRecords(baseParts), files)
  }

  /** `scan_python_functions(src_dir)` over the paths `rglob("*.py")` yields,
      in that order; `baseParts` are the segments of `src_dir` itself. */
  method ScanPythonFunctions(baseParts: seq<string>, files: seq<SourceFile>) returns (results: seq<FunctionInfo>)
    ensures results == Scan(baseParts, files)
  {
    results := [];
    for i := 0 to |files|
      invariant results == Scan(baseParts, files[..i])
    {
      assert files[..i + 1][..i] == files[..i];
      var f := files[i];
      if Hidden(baseParts + f.parts) {
        continue;
      }
      var rel := RelPath(f.parts);
      var moduleName := ModuleName(rel);
      if f.tree.None? {
        continue;
      }
      var found := CollectFunctions(f.tree.value, moduleName, rel);
      results := results + found;
    }
    assert files[..|files|] == files;
  }

  /** One more walked path appends its records. */
  lemma ScanSnoc(baseParts: seq<string>, files: seq<SourceFile>, f: SourceFile)
    ensures Scan(baseParts, files + [f]) == Scan(baseParts, files) + FileRecords(baseParts, f)
  {
    assert (files + [f])[..|files|] == files;
  }

  /** The walk's result is the concatenation of the per-path results. */
  lemma ScanAppend(baseParts: seq<string>, a: seq<SourceFile>, b: seq<SourceFile>)
    ensures Scan(baseParts, a + b) == Scan(baseParts, a) + Scan(baseParts, b)
  {
    FlatMapAppend(PathRecords(baseParts), a, b);
  }

  /** A root with a hidden segment (".." included) hides every path below it. */
  lemma {:induction false} HiddenRootScansNothing(baseParts: seq<string>, files: seq<SourceFile>)
    requires Hidden(baseParts)
    ensures Scan(baseParts, files) == []
    decreases |files|
  {
    if files != [] {
      HiddenRootScansNothing(baseParts, files[..|files| - 1]);
      var k :| 0 <= k < |baseParts| && StartsWith(baseParts[k], ".");
      assert (baseParts + files[|files| - 1].parts)[k] == baseParts[k];
    }
  }

  /** Every record comes from a visible path that parsed, and carries that
      path's relative path and the module name derived from it. */
  lemma {:induction false} ScanProvenance(baseParts: seq<string>, files: seq<SourceFile>)
    ensures forall r :: r in Scan(baseParts, files) ==>
              exists i :: 0 <= i < |files| && !Hidden(baseParts + files[i].parts) && files[i].tree.Some?
                          && r.relPath == RelPath(files[i].parts) && r.moduleName == ModuleName(r.relPath)
    decreases |files|
  {
    if files != [] {
      var init, last := files[..|files| - 1], files[|files| - 1];
      ScanProvenance(baseParts, init);
      forall r | r in Scan(baseParts, files)
        ensures exists i :: 0 <= i < |files| && !Hidden(baseParts + files[i].parts) && files[i].tree.Some?
                            && r.relPath == RelPath(files[i].parts) && r.moduleName == ModuleName(r.relPath)
      {
        if r in Scan(baseParts, init) {
          var i :| 0 <= i < |init| && !Hidden(baseParts + init[i].parts) && init[i].tree.Some?
                   && r.relPath == RelPath(init[i].parts) && r.moduleName == ModuleName(r.relPath);
          assert files[i] == init[i];
        } else {
          assert r in FileRecords(baseParts, last);
          CollectOrigin(last.tree.value, [], ModuleName(RelPath(last.parts)), RelPath(last.parts));
          assert files[|files| - 1] == last;
        }
      }
    }
  }

  /** Every record of a tree carries the module and path it was visited with. */
  lemma {:induction false} CollectOrigin(node: Node, stack: seq<string>, moduleName: string, relPath: string)
    ensures forall r :: r in Collect(node, stack, moduleName, relPath) ==> r.moduleName == moduleName && r.relPath == relPath
    decreases node
  {
    match node
    case FunctionDef(_, _, _, _, body) => CollectAllOrigin(body, stack, moduleName, relPath);
    case AsyncFunctionDef(_, body) => CollectAllOrigin(body, stack, moduleName, relPath);
    case ClassDef(name, body) => CollectAllOrigin(body, stack + [name], moduleName, relPath);
    case Other(children) => CollectAllOrigin(children, stack, moduleName, relPath);
  }

  lemma {:induction false} CollectAllOrigin(nodes: seq<Node>, stack: seq<string>, moduleName: string, relPath: string)
    ensures forall r :: r in CollectAll(nodes, stack, moduleName, relPath) ==> r.moduleName == moduleName && r.relPath == relPath
    decreases nodes
  {
    if nodes != [] {
      CollectAllOrigin(nodes[..|nodes| - 1], stack, moduleName, relPath);
      CollectOrigin(nodes[|nodes| - 1], stack, moduleName, relPath);
    }
  }

  /** A path that fails to parse adds nothing, and the walk goes on. */
  lemma ParseFailureAddsNothing(baseParts: seq<string>, files: seq<SourceFile>, parts: seq<string>)
    ensures Scan(baseParts, files + [SourceFile(parts, None)]) == Scan(baseParts, files)
  {
    assert (files + [SourceFile(parts, None)])[..|files|] == files;
  }

  // ---------------------------------------------------------------------------
  // The sample module of the repository
  // ---------------------------------------------------------------------------

  /** The tree of `examples/src_project/example_module.py`: two functions
      and a class with one method. Bodies hold no defs and are left empty. */
  function ExampleTree(): Node {
    var intAnn := Some(Annotation(Some("int")));
    var floatAnn := Some(Annotation(Some("float")));
    Other([
      FunctionDef("add", Arguments([], [Arg("a", intAnn), Arg("b", intAnn)], None, [], None),
                  intAnn, Some("Return the sum of two integers."), []),
      FunctionDef("safe_divide", Arguments([], [Arg("x", floatAnn), Arg("y", floatAnn)], None, [], None),
                  floatAnn, Some("Divide x by y; raises ValueError for y==0."), []),
      ClassDef("Math", [
        FunctionDef("square", Arguments([], [Arg("self", None), Arg("n", intAnn)], None, [], None),
                    intAnn, Some("Return n^2."), [])])])
  }

  /** The class of the sample module contributes the record of its method, under `Math`. */
  lemma ExampleClassRecords(m: string, f: string)
    ensures var c := ExampleTree().children[2];
      Collect(c, [], m, f) == [Record(c.body[0], ["Math"], m, f)]
  {
    var c := ExampleTree().children[2];
    assert [] + ["Math"] == ["Math"];
    assert CollectAll(c.body, ["Math"], m, f) == [Record(c.body[0], ["Math"], m, f)];
  }

  /** The two functions of the sample module contribute one record each. */
  lemma ExampleFunctionRecords(m: string, f: string)
    ensures var body := ExampleTree().children;
      CollectAll(body[..2], [], m, f) == [Record(body[0], [], m, f), Record(body[1], [], m, f)]
  {
    var body := ExampleTree().children;
    assert CollectAll(body[..1], [], m, f) == [Record(body[0], [], m, f)];
  }

  lemma SquareQualname()
    ensures Qualname(["Math"], "square") == "Math.square"
  {
    var qs := ["Math"] + ["square"];
    assert qs == ["Math", "square"] && qs[..1] == ["Math"];
    assert Join(qs[..1], ".") == "Math";
    assert Join(qs, ".") == "Math" + "." + "square";
  }

  lemma SquareAnnotations()
    ensures AnnotationMap(ExampleTree().children[2].body[0].arguments.args) == map["n" := Some("int")]
  {
    var params := ExampleTree().children[2].body[0].arguments.args;
    assert params[..1][..0] == [];
    assert AnnotationMap(params[..1]) == map[];
  }

  /** The sample module yields three records in source order; the method is
      qualified by its class and lists `self` among its parameters. */
  lemma ExampleModuleRecords()
    ensures var recs := Collect(ExampleTree(), [], "example_module", "example_module.py");
      && |recs| == 3
      && recs[0].qualname == "add" && recs[0].args == ["a", "b"]
      && recs[1].qualname == "safe_divide" && recs[1].args == ["x", "y"]
      && recs[2].qualname == "Math.square" && recs[2].args == ["self", "n"]
      && "self" !in recs[2].annotations && recs[2].annotations["n"] == Some("int")
  {
    var body := ExampleTree().children;
    var m, f := "example_module", "example_module.py";
    ExampleClassRecords(m, f);
    ExampleFunctionRecords(m, f);
    SquareQualname();
    SquareAnnotations();
    assert body[..3] == body;
  }
}
