# llm-test-gen: a Dafny model of the scanner, guardrail, skeleton generator and evaluator

llm-test-gen reads a Python source tree and writes pytest skeletons for every
function in it. It then scores a directory of generated tests. This project
models the four parts of that pipeline that hold real logic, and proves what
each one promises.

- **Scanner** (`scanner.dfy`, module `Scanner`) models `ast_extract.py`.
  - The `Visitor` class walks a syntax tree depth first. It pushes and pops
    class names on its `stack` field and appends one `FunctionInfo` record per
    `def` to its `found` field.
  - Each visiting method of the class is proved against the specification
    functions `Collect` / `CollectAll`: the stack comes back unchanged, and
    `found` grows by exactly `Collect(node, stack, …)`, or by `CollectAll` of
    the children for `GenericVisit`. The constructor starts with an empty
    stack and nothing found.
  - `ScanPythonFunctions` is the loop over the walked paths. It skips any path
    with a hidden segment, derives the module name, and skips files that fail
    to parse. It is proved equal to the function `Scan`.
- **Guardrail** (`guardrails.dfy`, module `Guardrails`) models `guardrails.py`.
  - `Compiles` hands the text to a parse oracle.
  - `SafeContent` is the loop over the nine banned literals, and `Search` is
    `re.search` for one literal. `SafeContent` is proved against the
    predicate `IsSafe`, and `Search` against `Contains`, the substring test
    that `IsSafe` is built from.
  - `Sanitize` is `replace("```", "")` followed by `strip()`.
- **Skeleton generator** (`generator.dfy`, module `Generator`) models
  `generator.py`.
  - `RuleBasedSkeleton` picks the method template when the qualified name has
    a dot, and the function template otherwise. It fills the chosen template
    the way `str.format` does.
  - `_default_args` is a parameter of the model.
- **Evaluator** (`evaluator.dfy`, module `Evaluator`) models `evaluator.py`.
  - `EvaluateDir` runs the Python pass and then the Robot pass, adding to one
    counter and one set of IDs, and builds the `Metrics` record.
  - It is proved equal to the function `Evaluate`.
  - The two regular expressions are modelled as scanners that work like
    `re.findall`: they try each position from left to right and resume after
    each match. They are proved to find exactly the IDs that match anywhere.
- **Text helpers** (`strings.dfy`, module `Strings`) model the Python
  string operations the four parts use:
  - substring search (`in`);
  - `str.join`, and `str.replace` of one character;
  - `str.removesuffix` and `str.strip()`;
  - `str(int)`.

Several things are inputs to the model rather than parts of it: Python's
parser (`ast.parse`, `ast.unparse`, `ast.get_docstring`), the file system
and `_default_args`.
- A scanned file arrives as its path segments plus either a syntax tree or
  a parse failure.
- An annotation arrives with the text `ast.unparse` gives for it.
- The evaluator receives the contents of the `test_*.py` files and the
  `*.robot` files as two sequences. It also receives the parser as a
  function from text to verdict.

### Behaviour of the code worth knowing

- **`self` is counted.** Both branches of `rule_based_skeleton` pass
  `argc=len(fn.args)` (src/llm_testgen/generator.py:37 and :42). For a
  method, `args` includes `self`. `Generator.ExampleSquareSkeleton` proves
  that `Math.square` gets `range(2)`.
- **The shipped generated test does not match.** The test module in
  tests_gen/test_example_module.py shows `range(1)` for the same method
  (line 62). The generator as written does not produce that file.
- **Sanitizing can turn a safe text unsafe.** `sanitize` removes every fence
  before it strips (src/llm_testgen/guardrails.py:24). That can join the two
  halves of a banned construct: `"open```("` is safe, but it sanitizes to
  the unsafe `"open("` (`Guardrails.SanitizeCanExpose`). The other direction
  does hold: an unsafe text stays unsafe (`Guardrails.SanitizeKeepsUnsafe`).
- **The fallback skeleton is not always safe.** A function named `fopen`
  gets the basic call `fopen(…)` (src/llm_testgen/generator.py:7). That call
  contains the banned `open(` (`Generator.SkeletonCanBeUnsafe`).

## Model

| member | source | states |
|---|---|---|
| Strings.Strip | src/llm_testgen/guardrails.py:24 | `str.strip()`: the result neither starts nor ends with a whitespace character |
| Strings.TrimLeft | src/llm_testgen/guardrails.py:24 | the left half of `strip()`: the result is a suffix of the input, everything cut off is whitespace, and it does not start with whitespace |
| Strings.TrimRight | src/llm_testgen/guardrails.py:24 | the right half of `strip()`: the result is a prefix of the input, everything cut off is whitespace, and it does not end with whitespace |
| Strings.Join | src/llm_testgen/ast_extract.py:30 | `sep.join(parts)`, defined part by part; its behaviour is stated by `Strings.JoinSnoc` and `Strings.JoinHead` |
| Strings.StripSlice | src/llm_testgen/guardrails.py:24 | the stripped text is one contiguous slice of the input, and everything cut off on either side is whitespace |
| Strings.StripEmpty | src/llm_testgen/evaluator.py:35 | stripping gives the empty text exactly when every character is whitespace |
| Strings.StripKeeps | src/llm_testgen/guardrails.py:24 | stripping keeps every occurrence of a non-empty pattern that starts and ends with non-whitespace |
| Strings.StripTrimmed | src/llm_testgen/guardrails.py:24 | a text with no whitespace at either end is unchanged by stripping |
| Strings.StripContained | src/llm_testgen/guardrails.py:24 | whatever occurs in the stripped text occurs in the original |
| Strings.ReplaceChar | src/llm_testgen/ast_extract.py:58 | `replace("/", ".")` keeps the length and replaces exactly the matching characters |
| Strings.RemoveSuffix | src/llm_testgen/ast_extract.py:58 | `removesuffix(".py")`: drops the suffix once when it is there, and leaves the text unchanged otherwise |
| Strings.JoinSnoc | src/llm_testgen/ast_extract.py:30 | joining one more part appends the separator and the part, or gives the part alone when the list was empty |
| Strings.JoinHead | src/llm_testgen/ast_extract.py:30 | a join of two or more parts starts with the first part and the separator |
| Strings.ReplaceJoin | src/llm_testgen/ast_extract.py:58 | replacing the separator character of a "/"-join with "." gives the "."-join of the same parts, when no part holds a "/" |
| Strings.NatToString | src/llm_testgen/generator.py:37 | `str(len(args))` is a non-empty run of decimal digits with no leading zero |
| Strings.NatToStringValue | src/llm_testgen/generator.py:42 | reading the decimal text back gives the number |
| Guardrails.IsSafe | src/llm_testgen/guardrails.py:4-20 | the reference definition of `safe_content`: none of the nine literals of `BANNED_PATTERNS` (the escaped regexes read as literal text) occurs; `Guardrails.SafeContent` is proved against it |
| Guardrails.RemoveFences | src/llm_testgen/guardrails.py:24 | `replace("```", "")`: left to right, each non-overlapping fence is dropped and every other character is kept; its behaviour is stated by the `RemoveFences…` lemmas below |
| Guardrails.Compiles | src/llm_testgen/guardrails.py:9-14 | the result is exactly the parser's verdict; a parse error becomes `false` |
| Guardrails.Search | src/llm_testgen/guardrails.py:18 | the left-to-right search finds the literal exactly when it occurs somewhere in the text |
| Guardrails.SafeContent | src/llm_testgen/guardrails.py:16-20 | the loop with early return yields `true` exactly when none of the nine banned literals occurs in the text |
| Guardrails.EmptyIsSafe | src/llm_testgen/guardrails.py:16-20 | the empty text is safe |
| Guardrails.SafeSlice | src/llm_testgen/guardrails.py:16-20 | every piece of a safe text is safe |
| Guardrails.LeadingTicksAtLeast | src/llm_testgen/guardrails.py:24 | a text has at least `n` leading backticks exactly when its first `n` characters are backticks |
| Guardrails.FenceIsThreeTicks | src/llm_testgen/guardrails.py:24 | a text starts with a fence exactly when it has three or more leading backticks |
| Guardrails.RemoveFencesLeadingTicks | src/llm_testgen/guardrails.py:24 | removing fences leaves the number of leading backticks modulo three |
| Guardrails.RemoveFencesClean | src/llm_testgen/guardrails.py:24 | no fence is left after removing fences, even where the backticks on both sides of a removed fence meet |
| Guardrails.RemoveFencesNoFence | src/llm_testgen/guardrails.py:24 | a text without a fence is unchanged by fence removal |
| Guardrails.RemoveFencesTickFreePrefix | src/llm_testgen/guardrails.py:24 | a prefix without backticks passes through fence removal untouched |
| Guardrails.RemoveFencesSplit | src/llm_testgen/guardrails.py:24 | fence removal distributes over a split point that is not followed by a backtick |
| Guardrails.RemoveFencesKeeps | src/llm_testgen/guardrails.py:24 | fence removal keeps every occurrence of a non-empty pattern that holds no backtick |
| Guardrails.Sanitize | src/llm_testgen/guardrails.py:22-24 | the sanitized text holds no fence and has no whitespace at either end |
| Guardrails.SanitizeIdempotent | src/llm_testgen/guardrails.py:22-24 | sanitizing twice gives the same text as sanitizing once |
| Guardrails.BannedAreRobust | src/llm_testgen/guardrails.py:4-7 | each banned literal is non-empty, has no backtick, and starts and ends with non-whitespace |
| Guardrails.SanitizeKeepsUnsafe | src/llm_testgen/guardrails.py:22-24 | an unsafe text stays unsafe after sanitizing |
| Guardrails.SanitizeCanExpose | src/llm_testgen/guardrails.py:22-24 | the converse fails: the safe text "open```(" sanitizes to an unsafe one |
| Guardrails.SanitizeSplitOpen | src/llm_testgen/guardrails.py:24 | "open```(" sanitizes to "open(" |
| Guardrails.RemoveFencesSplitOpen | src/llm_testgen/guardrails.py:24 | fence removal turns "open```(" into "open(" |
| Guardrails.SplitOpenIsSafe | src/llm_testgen/guardrails.py:4-7 | none of the nine banned literals occurs in "open```(" |
| Scanner.Qualname | src/llm_testgen/ast_extract.py:30 | `".".join(self.stack + [node.name])`; its shape is stated by `Scanner.QualnameShape` |
| Scanner.AnnotationMap | src/llm_testgen/ast_extract.py:32-35 | the dict the loop builds, one parameter at a time with later keys overwriting; its keys and values are stated by `Scanner.AnnotationMapKeys` and `Scanner.AnnotationMapValue` |
| Scanner.ReturnText | src/llm_testgen/ast_extract.py:36 | the unparsed return annotation, or `None` when there is none |
| Scanner.Record | src/llm_testgen/ast_extract.py:30-42 | the `FunctionInfo` built for one def under the current stack; its fields are stated by `Scanner.RecordFields` |
| Scanner.Collect | src/llm_testgen/ast_extract.py:29-48 | the reference definition of what visiting a node appends: a def's record and then its body, a class's body with its name pushed, any other node's children; the `Visitor` methods are proved against it |
| Scanner.CollectAll | src/llm_testgen/ast_extract.py:43 | the records of sibling nodes, concatenated in order |
| Scanner.ArgNames | src/llm_testgen/ast_extract.py:31 | `args` lists the plain positional parameter names, in order |
| Scanner.Visitor.constructor | src/llm_testgen/ast_extract.py:27-28 | a new visitor has an empty class stack and has found nothing |
| Scanner.Visitor.Visit | src/llm_testgen/ast_extract.py:48 | dispatching on a node appends exactly its records under the current stack and leaves the stack as it was |
| Scanner.Visitor.GenericVisit | src/llm_testgen/ast_extract.py:43 | visiting the children in order appends their records in order and leaves the stack as it was |
| Scanner.Visitor.VisitFunctionDef | src/llm_testgen/ast_extract.py:29-43 | appends the def's record and then its nested records (pre-order); the stack is unchanged |
| Scanner.Visitor.VisitClassDef | src/llm_testgen/ast_extract.py:44-47 | with the class name pushed, appends the records of the body; the push and the pop balance |
| Scanner.CollectFunctions | src/llm_testgen/ast_extract.py:24-49 | `_collect_functions` returns the records of the tree visited from an empty stack |
| Scanner.QualnameShape | src/llm_testgen/ast_extract.py:30 | the qualname is the bare name with no enclosing class; otherwise it ends with "." and the name, and starts with the outermost class and "." |
| Scanner.CollectWellNamed | src/llm_testgen/ast_extract.py:29-47 | every record's qualname is its name or ends with "." and its name, and starts with the outermost enclosing class and "." |
| Scanner.CollectAllWellNamed | src/llm_testgen/ast_extract.py:43 | the same for a list of sibling nodes |
| Scanner.CollectCount | src/llm_testgen/ast_extract.py:24-49 | there are exactly as many records as `def` nodes, so each def is recorded once |
| Scanner.CollectAllCount | src/llm_testgen/ast_extract.py:43 | the same for a list of sibling nodes |
| Scanner.CollectAllIncludes | src/llm_testgen/ast_extract.py:43 | the records of each child are among the records of the list it belongs to |
| Scanner.NestedDefRecorded | src/llm_testgen/ast_extract.py:29-43 | a def nested in a def is recorded after it, and its qualname does not include the enclosing def's name |
| Scanner.AsyncDefSkipped | src/llm_testgen/ast_extract.py:26-48 | an async def gets no record, but the defs inside it do, under the same stack |
| Scanner.RecordFields | src/llm_testgen/ast_extract.py:31-36 | `args` are the positional names in order; `annotations` has a key exactly for each annotated one, so its keys are among `args`; `returns` is absent without a return annotation |
| Scanner.AnnotationMapKeys | src/llm_testgen/ast_extract.py:32-35 | the dict has a key exactly for the parameters that carry an annotation |
| Scanner.AnnotationMapValue | src/llm_testgen/ast_extract.py:35 | with distinct parameter names, each annotated name maps to its annotation's unparsed text |
| Scanner.Hidden | src/llm_testgen/ast_extract.py:55 | some segment of the path starts with "." |
| Scanner.RelPath | src/llm_testgen/ast_extract.py:57 | `str(path.relative_to(base))`: the segments below the root joined with "/" |
| Scanner.FileRecords | src/llm_testgen/ast_extract.py:55-63 | what one walked path adds: nothing when it is hidden or does not parse, otherwise the records of its tree under its module name and relative path |
| Scanner.Scan | src/llm_testgen/ast_extract.py:51-64 | the reference definition of `scan_python_functions`: each path's records, concatenated in walk order; `Scanner.ScanPythonFunctions` is proved against it |
| Scanner.ModuleName | src/llm_testgen/ast_extract.py:58 | the module name has no "/"; it is the dotted path with one trailing ".py" removed, or the dotted path itself |
| Scanner.ModuleNameOfParts | src/llm_testgen/ast_extract.py:57-58 | the module name of a relative path is its segments joined with ".", without the ".py" |
| Scanner.ScanPythonFunctions | src/llm_testgen/ast_extract.py:51-64 | the loop over the walked paths returns exactly `Scan` of them |
| Scanner.ScanSnoc | src/llm_testgen/ast_extract.py:63 | one more walked path extends the result by that path's records |
| Scanner.ScanAppend | src/llm_testgen/ast_extract.py:53-64 | the result is the concatenation of the per-path results, in walk order |
| Scanner.HiddenRootScansNothing | src/llm_testgen/ast_extract.py:54-56 | a root with a hidden segment, ".." included, yields no records at all |
| Scanner.ScanProvenance | src/llm_testgen/ast_extract.py:54-63 | every record comes from a visible path that parsed, and carries that path and the module name derived from it |
| Scanner.CollectOrigin | src/llm_testgen/ast_extract.py:38-42 | every record of a tree carries the module name and path it was visited with |
| Scanner.CollectAllOrigin | src/llm_testgen/ast_extract.py:38-42 | the same for a list of sibling nodes |
| Scanner.ParseFailureAddsNothing | src/llm_testgen/ast_extract.py:59-62 | a file that fails to parse adds no records |
| Scanner.ExampleModuleRecords | examples/src_project/example_module.py:3-16 | the sample module gives three records in source order: add(a, b), safe_divide(x, y), and Math.square(self, n), where only `n` is annotated |
| Generator.FuncLines | src/llm_testgen/generator.py:1-13 | the lines of `SKELETON_FUNC` with its fields filled in; stated by `Generator.FuncLinesShape` |
| Generator.MethodLines | src/llm_testgen/generator.py:15-28 | the lines of `SKELETON_METHOD` with its fields filled in; stated by `Generator.MethodLinesShape` |
| Generator.RuleBasedSkeleton | src/llm_testgen/generator.py:30-43 | the method template when the qualname has a dot and the function template otherwise, with `argc = len(fn.args)`; stated by `Generator.MethodSkeletonShape` and `Generator.FunctionSkeletonShape` |
| Generator.BeforeFirstDot | src/llm_testgen/generator.py:34 | `split(".", 1)[0]` is a dot-free prefix of the qualname that ends at the first dot, or at the end |
| Generator.BeforeFirstDotOf | src/llm_testgen/generator.py:34 | for a qualname that starts with a dot-free `c` and ".", the class is `c` |
| Generator.FunctionSkeletonShape | src/llm_testgen/generator.py:40-43 | without a dot, the output starts with "import pytest", imports the function, defines both tests, embeds the default arguments verbatim, and calls with `range(argc)` Nones, where argc is the parameter count |
| Generator.FuncLinesShape | src/llm_testgen/generator.py:1-13 | the filled function template has that import line, those two test headers and those two calls |
| Generator.MethodSkeletonShape | src/llm_testgen/generator.py:33-38 | with a dot, the output imports the class before the first dot, builds `obj = cls()` in both tests, calls the method with the default arguments, and calls the looked-up method with `range(argc)` Nones |
| Generator.MethodLinesShape | src/llm_testgen/generator.py:15-28 | the filled method template has that import line, those two headers each followed by `obj = cls()`, and those two calls |
| Generator.SkeletonDeterministic | src/llm_testgen/generator.py:30-43 | two records that agree on module, qualname, name, parameter count and default arguments get the same skeleton |
| Generator.ScannedMethodUsesOutermostClass | src/llm_testgen/generator.py:33-34 | for a record scanned inside a class, the method template is chosen, and it instantiates the outermost class, even for a nested class |
| Generator.SkeletonCanBeUnsafe | src/llm_testgen/generator.py:7 | the function skeleton of a name ending in "open" contains a banned literal |
| Generator.CallShowsOpen | src/llm_testgen/generator.py:7 | a basic call of a name ending in "open" contains "open(" |
| Generator.ExampleSquareSkeleton | src/llm_testgen/generator.py:35-38 | the sample method gets `def test_Math_square_basic():` with `obj = Math()`, and `range(2)` in its bad-input call |
| Evaluator.ReqAt | src/llm_testgen/evaluator.py:39 | `REQ-\d+` matches at a position: "REQ-" occurs there and a digit follows |
| Evaluator.TagAt | src/llm_testgen/evaluator.py:28 | the tag pattern matches at a position: "REQ-ID:" occurs there, and after the whitespace run `REQ-\d+` matches |
| Evaluator.ReqsFrom | src/llm_testgen/evaluator.py:39 | the reference set of every ID `REQ-\d+` matches at some position from a start on; `Evaluator.FindReqsComplete` proves the scan equal to it |
| Evaluator.TagsFrom | src/llm_testgen/evaluator.py:28 | the reference set of every ID the tag pattern captures at some position from a start on; `Evaluator.FindTagsComplete` proves the scan equal to it |
| Evaluator.RobotCompiles | src/llm_testgen/evaluator.py:35 | `len(content.strip()) > 0`; stated by `Evaluator.RobotCompilesIff` |
| Evaluator.DigitEnd | src/llm_testgen/evaluator.py:39 | `\d+` is greedy: the run ends at the end of the text or before a non-digit |
| Evaluator.SpaceEnd | src/llm_testgen/evaluator.py:28 | `\s*` is greedy: the run ends at the end of the text or before a non-whitespace character |
| Evaluator.ReqId | src/llm_testgen/evaluator.py:39 | the text matched at a position is "REQ-" and one or more digits, occurs there, and its digit run cannot be extended |
| Evaluator.TagId | src/llm_testgen/evaluator.py:28 | the group captured after "REQ-ID:" is a well-formed ID |
| Evaluator.FindReqs | src/llm_testgen/evaluator.py:39 | every ID found is "REQ-" and one or more digits |
| Evaluator.FindTags | src/llm_testgen/evaluator.py:28 | every captured ID is "REQ-" and one or more digits |
| Evaluator.NoReqInside | src/llm_testgen/evaluator.py:39 | no match of `REQ-\d+` starts inside another match |
| Evaluator.NoTagInside | src/llm_testgen/evaluator.py:28 | no match of the tag pattern starts inside another match |
| Evaluator.ReqsFromMatch | src/llm_testgen/evaluator.py:39 | the IDs matched from a match's position on are its own plus those after it |
| Evaluator.TagsFromMatch | src/llm_testgen/evaluator.py:28 | the same for the tag pattern |
| Evaluator.FindReqsComplete | src/llm_testgen/evaluator.py:39 | the left-to-right scan collects exactly the IDs that `REQ-\d+` matches at some position |
| Evaluator.FindTagsComplete | src/llm_testgen/evaluator.py:28 | the scan collects exactly the IDs that the tag pattern captures at some position |
| Evaluator.TagsAreReqs | src/llm_testgen/evaluator.py:28 | every tagged ID is also a plain match in the same text |
| Evaluator.ReqPosition | src/llm_testgen/evaluator.py:39 | a collected ID is matched at some position, occurs there, and cannot be extended by a digit |
| Evaluator.FoundIdsOccur | src/llm_testgen/evaluator.py:39 | every ID collected by either pattern is well formed and occurs in the text with a maximal digit run |
| Evaluator.CountAccepted | src/llm_testgen/evaluator.py:15-36 | the number of accepted files never exceeds the number of files |
| Evaluator.CountAcceptedAll | src/llm_testgen/evaluator.py:15-36 | every file counts exactly when each one is accepted |
| Evaluator.CountAcceptedNone | src/llm_testgen/evaluator.py:15-36 | no file counts exactly when each one is rejected |
| Evaluator.PyIds | src/llm_testgen/evaluator.py:27-29 | an ID is in the Python set exactly when the tag scan of some Python file yields it; every ID is well formed |
| Evaluator.PyIdsExact | src/llm_testgen/evaluator.py:27-29 | an ID is in the Python set exactly when `REQ-ID:\s*(REQ-\d+)` captures it at some position of some Python file |
| Evaluator.RobotIds | src/llm_testgen/evaluator.py:38-40 | an ID is in the Robot set exactly when the `REQ-\d+` scan of some Robot file yields it; every ID is well formed |
| Evaluator.RobotIdsExact | src/llm_testgen/evaluator.py:38-40 | an ID is in the Robot set exactly when `REQ-\d+` matches it at some position of some Robot file |
| Evaluator.Evaluate | src/llm_testgen/evaluator.py:42-49 | `files_total` is `files_python + files_robot`; `compile_success <= files_total`; `traceability_unique_reqs` is the size of the ID set; every ID is well formed; an ID is reported exactly when a Python file's tag scan or a Robot file's plain scan yields it |
| Evaluator.EvaluateIdsExact | src/llm_testgen/evaluator.py:15-49 | `req_ids` holds exactly the IDs the tag pattern captures anywhere in a Python file and the IDs `REQ-\d+` matches anywhere in a Robot file, so `traceability_unique_reqs` counts those and nothing else |
| Evaluator.ReportedIdsOccur | src/llm_testgen/evaluator.py:28-47 | every reported ID occurs in some evaluated file with a digit run that cannot be extended |
| Evaluator.PythonPass | src/llm_testgen/evaluator.py:19-29 | the first loop counts the files the parser accepts and collects the tagged IDs of every file |
| Evaluator.RobotPass | src/llm_testgen/evaluator.py:32-40 | the second loop adds the non-blank Robot files to the count and every `REQ-\d+` to the set |
| Evaluator.EvaluateDir | src/llm_testgen/evaluator.py:8-49 | the method's result is exactly `Evaluate` of its inputs |
| Evaluator.RobotCompilesIff | src/llm_testgen/evaluator.py:35-36 | a Robot file counts exactly when it holds a character that is not whitespace |
| Evaluator.IdsIgnoreParser | src/llm_testgen/evaluator.py:21-29 | the collected IDs do not depend on the parser's verdicts, and include each Python file's tagged IDs |
| Evaluator.BareIdOnlyInRobot | src/llm_testgen/evaluator.py:28 | a bare "REQ-7" is found by the Robot pattern but not by the Python one |
| Evaluator.TaggedIdCollected | src/llm_testgen/evaluator.py:28 | "REQ-ID:  REQ-12" yields exactly "REQ-12" |

## Left out

- Python's parser (`ast.parse`, `ast.unparse`, `ast.get_docstring`) belongs to a foreign library. It is an input: a syntax tree or a parse failure for a scanned file, a text-to-verdict function for `compiles` and the evaluator, and the unparsed text of each annotation.
- The file system is I/O, so it is not modelled: `Path.rglob`, `read_text`, `relative_to`, `write_report` and `json.dumps`. The walked paths and file contents are inputs, in walk order. The model does not decide which paths `rglob` yields, or in what order.
- The evaluator's inputs are decoded texts. The model assumes every evaluated file decodes as UTF-8. In the source, `read_text` is outside any `try` (src/llm_testgen/evaluator.py:20 and :33), so one file that does not decode would raise out of `evaluate_dir`. The scanner, by contrast, reads inside its `try` and skips such a file, which the model captures as a parse failure.
- Relative paths are joined with "/", as on a POSIX system. A root that `pathlib` would normalise is given already normalised.
- `req_ids` is returned as a list built from a set, in an unspecified order. The model keeps the set.
- Digits in `REQ-\d+` are ASCII only. Python's `\d` also matches other Unicode decimal digits.
- Whitespace is Python's `str.isspace` set. This is the set that `strip()` and `\s` use on text.
- `_default_args` is called by `generator.py`, but that file does not define it. It is a parameter of the model, so the text of the basic call's arguments is not modelled.
- In `ast_extract.py`, `found` is a list that the nested `Visitor` class captures by closure. Here it is a field of `Visitor`, read out by `CollectFunctions`.
- A syntax tree holds only defs, classes and other nodes with their children. Expressions and argument defaults cannot hold a `def`, so they are not represented.
- src/llm_testgen/cli.py handles argument parsing, file writing and printing, and is not part of this model.
- The `write_tests` that `cli.py` imports is not part of this model.
- src/llm_testgen/llm_provider.py is not part of this model. It is a stub that always returns None.
- src/llm_testgen/prompts.py is not part of this model. Its prompt text goes to the provider.
- Neither is provider-assisted generation, nor the guardrail's use in accepting a provider's answer.
- Evaluator.IdsIgnoreParser: its proof is immediate, because `Evaluate` collects IDs without consulting the parser. It records the property rather than proving anything deep.
