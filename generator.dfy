/** The rule-based skeleton of `src/llm_testgen/generator.py`: one of two
    fixed pytest templates, chosen from the qualified name and filled in by
    `str.format`.

    `_default_args`, which renders the arguments of the basic call, is not
    defined in that file; it is a parameter here, a function of the record. */
module Generator {
  import opened Strings
  import opened Scanner
  import Guardrails

  /** The lines of `SKELETON_FUNC.format(module=…, func=…, call_args=…,
      argc=…)`. The template's leading newline is gone: the constant is
      `.lstrip()`ed. The two calls are kept as separate pieces of their lines. */
  function FuncLines(moduleName: string, func: string, callArgs: string, argc: string): seq<string> {
    [ "import pytest\n",
      "from " + moduleName + " import " + func + "\n",
      "\n",
      "def test_" + func + "_basic():\n",
      "    # TODO: Replace placeholders with real assertions\n",
      "    " + ("result = " + func + "(" + callArgs + ")\n"),
      "    assert result is not None\n",
      "\n",
      "def test_" + func + "_bad_inputs():\n",
      "    with pytest.raises(Exception):\n",
      "        " + (func + "(*[None for _ in range(" + argc + ")])\n") ]
  }

  /** The lines of `SKELETON_METHOD.format(module=…, cls=…, func=…,
      call_args=…, argc=…)`, likewise `.lstrip()`ed. */
  function MethodLines(moduleName: string, cls: string, func: string, callArgs: string, argc: string): seq<string> {
    [ "import pytest\n",
      "from " + moduleName + " import " + cls + "\n",
      "\n",
      "def test_" + cls + "_" + func + "_basic():\n",
      "    obj = " + cls + "()\n",
      "    " + ("result = obj." + func + "(" + callArgs + ")\n"),
      "    assert result is not None\n",
      "\n",
      "def test_" + cls + "_" + func + "_bad_inputs():\n",
      "    obj = " + cls + "()\n",
      "    with pytest.raises(Exception):\n",
      "        " + ("getattr(obj, \"" + func + "\")(*[None for _ in range(" + argc + ")])\n") ]
  }

  /** `s.split(".", 1)[0]`: the text before the first dot, or all of `s`. */
  function BeforeFirstDot(s: string): (r: string)
    ensures forall i :: 0 <= i < |r| ==> r[i] != '.'
    ensures StartsWith(s, r)
    ensures |r| < |s| ==> s[|r|] == '.'
    decreases |s|
  {
    if s == [] || s[0] == '.' then [] else [s[0]] + BeforeFirstDot(s[1..])
  }

  /** The text before the first dot of `c + "." + rest` is `c` when `c` has no dot. */
  lemma {:induction false} BeforeFirstDotOf(s: string, c: string)
    requires forall i :: 0 <= i < |c| ==> c[i] != '.'
    requires StartsWith(s, c + ".")
    ensures BeforeFirstDot(s) == c
    decreases |c|
  {
    if c == [] {
      assert s[0] == (c + ".")[0];
    } else {
      assert s[0] == c[0];
      assert s[1..][..|c[1..] + "."|] == (c + ".")[1..] == c[1..] + ".";
      BeforeFirstDotOf(s[1..], c[1..]);
      assert [c[0]] + c[1..] == c;
    }
  }

  /** `rule_based_skeleton(fn)`, with `_default_args` passed in. */
  function RuleBasedSkeleton(fn: FunctionInfo, defaultArgs: FunctionInfo -> string): string {
    var callArgs := defaultArgs(fn);
    if '.' in fn.qualname then
      var cls := BeforeFirstDot(fn.qualname);
      Concat(MethodLines(fn.moduleName, cls, fn.name, callArgs, NatToString(|fn.args|)))
    else
      Concat(FuncLines(fn.moduleName, fn.name, callArgs, NatToString(|fn.args|)))
  }

  /** A qualname without a dot gets the function template: it starts with the
      pytest import, imports the function from its module, defines the two
      tests, calls the function with the default arguments verbatim, and
      calls it with as many `None` values as its record has parameters. */
  lemma FunctionSkeletonShape(fn: FunctionInfo, defaultArgs: FunctionInfo -> string)
    requires '.' !in fn.qualname
    ensures var out := RuleBasedSkeleton(fn, defaultArgs);
      var argc := NatToString(|fn.args|);
      && StartsWith(out, "import pytest\n")
      && Contains(out, "from " + fn.moduleName + " import " + fn.name + "\n")
      && Contains(out, "def test_" + fn.name + "_basic():\n")
      && Contains(out, "def test_" + fn.name + "_bad_inputs():\n")
      && Contains(out, "result = " + fn.name + "(" + defaultArgs(fn) + ")\n")
      && Contains(out, fn.name + "(*[None for _ in range(" + argc + ")])\n")
      && DigitsValue(argc) == |fn.args|
  {
    NatToStringValue(|fn.args|);
    FuncLinesShape(fn.moduleName, fn.name, defaultArgs(fn), NatToString(|fn.args|));
  }

  lemma FuncLinesShape(moduleName: string, func: string, callArgs: string, argc: string)
    ensures var out := Concat(FuncLines(moduleName, func, callArgs, argc));
      && StartsWith(out, "import pytest\n")
      && Contains(out, "from " + moduleName + " import " + func + "\n")
      && Contains(out, "def test_" + func + "_basic():\n")
      && Contains(out, "def test_" + func + "_bad_inputs():\n")
      && Contains(out, "result = " + func + "(" + callArgs + ")\n")
      && Contains(out, func + "(*[None for _ in range(" + argc + ")])\n")
  {
    var lines := FuncLines(moduleName, func, callArgs, argc);
    ConcatStartsWith(lines);
    ShowLine(lines, 1);
    ShowLine(lines, 3);
    ShowLine(lines, 8);
    ShowIndented(lines, 5, "    ", "result = " + func + "(" + callArgs + ")\n");
    ShowIndented(lines, 10, "        ", func + "(*[None for _ in range(" + argc + ")])\n");
  }

  /** A qualname with a dot gets the method template: it imports the class
      named by the text before the first dot, builds an instance of it in
      each test, calls the method on it with the default arguments verbatim,
      and looks the method up by name for the call with `None` values. */
  lemma MethodSkeletonShape(fn: FunctionInfo, defaultArgs: FunctionInfo -> string)
    requires '.' in fn.qualname
    ensures var out := RuleBasedSkeleton(fn, defaultArgs);
      var cls := BeforeFirstDot(fn.qualname);
      var argc := NatToString(|fn.args|);
      && StartsWith(out, "import pytest\n")
      && Contains(out, "from " + fn.moduleName + " import " + cls + "\n")
      && Contains(out, "def test_" + cls + "_" + fn.name + "_basic():\n" + "    obj = " + cls + "()\n")
      && Contains(out, "def test_" + cls + "_" + fn.name + "_bad_inputs():\n" + "    obj = " + cls + "()\n")
      && Contains(out, "result = obj." + fn.name + "(" + defaultArgs(fn) + ")\n")
      && Contains(out, "getattr(obj, \"" + fn.name + "\")(*[None for _ in range(" + argc + ")])\n")
      && DigitsValue(argc) == |fn.args|
  {
    NatToStringValue(|fn.args|);
    MethodLinesShape(fn.moduleName, BeforeFirstDot(fn.qualname), fn.name, defaultArgs(fn), NatToString(|fn.args|));
  }

  lemma MethodLinesShape(moduleName: string, cls: string, func: string, callArgs: string, argc: string)
    ensures var out := Concat(MethodLines(moduleName, cls, func, callArgs, argc));
      && StartsWith(out, "import pytest\n")
      && Contains(out, "from " + moduleName + " import " + cls + "\n")
      && Contains(out, "def test_" + cls + "_" + func + "_basic():\n" + "    obj = " + cls + "()\n")
      && Contains(out, "def test_" + cls + "_" + func + "_bad_inputs():\n" + "    obj = " + cls + "()\n")
      && Contains(out, "result = obj." + func + "(" + callArgs + ")\n")
      && Contains(out, "getattr(obj, \"" + func + "\")(*[None for _ in range(" + argc + ")])\n")
  {
    var lines := MethodLines(moduleName, cls, func, callArgs, argc);
    ConcatStartsWith(lines);
    ShowLine(lines, 1);
    ShowTwoLines(lines, 3);
    assert lines[3] + lines[4] == "def test_" + cls + "_" + func + "_basic():\n" + "    obj = " + cls + "()\n";
    ShowTwoLines(lines, 8);
    assert lines[8] + lines[9] == "def test_" + cls + "_" + func + "_bad_inputs():\n" + "    obj = " + cls + "()\n";
    ShowIndented(lines, 5, "    ", "result = obj." + func + "(" + callArgs + ")\n");
    ShowIndented(lines, 11, "        ", "getattr(obj, \"" + func + "\")(*[None for _ in range(" + argc + ")])\n");
  }

  /** The text after the indentation of line `k` occurs in the skeleton. */
  lemma ShowIndented(lines: seq<string>, k: nat, indent: string, x: string)
    requires k < |lines| && lines[k] == indent + x
    ensures Contains(Concat(lines), x)
  {
    ShowLine(lines, k);
    ContainsPart(indent, x, []);
    assert indent + x + [] == lines[k];
    ContainsTrans(Concat(lines), lines[k], x);
  }

  /** Line `k` of a skeleton occurs in it. */
  lemma ShowLine(lines: seq<string>, k: nat)
    requires k < |lines|
    ensures Contains(Concat(lines), lines[k])
  {
    ConcatContains(lines, k, k + 1);
    var one := lines[k..k + 1];
    assert one[0] == lines[k];
    assert one[1..] == [];
    assert Concat(one[1..]) == [];
    assert Concat(one) == lines[k];
  }

  /** Lines `k` and `k + 1` of a skeleton occur in it one after the other. */
  lemma ShowTwoLines(lines: seq<string>, k: nat)
    requires k + 1 < |lines|
    ensures Contains(Concat(lines), lines[k] + lines[k + 1])
  {
    ConcatContains(lines, k, k + 2);
    var two := lines[k..k + 2];
    assert two[0] == lines[k] && two[1..][0] == lines[k + 1];
    assert two[1..][1..] == [];
    assert Concat(two[1..][1..]) == [];
    assert Concat(two[1..]) == lines[k + 1];
    assert Concat(two) == lines[k] + lines[k + 1];
  }

  /** The skeleton depends on the record only through its module, qualname,
      name, parameter count and default arguments. */
  lemma SkeletonDeterministic(f1: FunctionInfo, f2: FunctionInfo, defaultArgs: FunctionInfo -> string)
    requires f1.moduleName == f2.moduleName && f1.qualname == f2.qualname && f1.name == f2.name
    requires |f1.args| == |f2.args| && defaultArgs(f1) == defaultArgs(f2)
    ensures RuleBasedSkeleton(f1, defaultArgs) == RuleBasedSkeleton(f2, defaultArgs)
  {
  }

  /** For a record the scanner made under a non-empty class stack whose
      outermost class name has no dot, the method template is chosen and the
      class it instantiates is that outermost class, even for nested classes. */
  lemma ScannedMethodUsesOutermostClass(r: FunctionInfo, stack: seq<string>)
    requires WellNamed(r, stack) && stack != []
    requires forall i :: 0 <= i < |stack[0]| ==> stack[0][i] != '.'
    ensures '.' in r.qualname
    ensures BeforeFirstDot(r.qualname) == stack[0]
  {
    BeforeFirstDotOf(r.qualname, stack[0]);
    assert r.qualname[|stack[0]|] == (stack[0] + ".")[|stack[0]|];
  }

  /** The skeleton is not always accepted by the guardrail: a function whose
      name ends in "open" yields a call that reads as the banned "open(". */
  lemma SkeletonCanBeUnsafe(fn: FunctionInfo, defaultArgs: FunctionInfo -> string)
    requires '.' !in fn.qualname && EndsWith(fn.name, "open")
    ensures !Guardrails.IsSafe(RuleBasedSkeleton(fn, defaultArgs))
  {
    FunctionSkeletonShape(fn, defaultArgs);
    var call := "result = " + fn.name + "(" + defaultArgs(fn) + ")\n";
    CallShowsOpen(fn.name, defaultArgs(fn));
    ContainsTrans(RuleBasedSkeleton(fn, defaultArgs), call, "open(");
    assert Guardrails.BannedPatterns[5] == "open(";
  }

  /** A call of a name ending in "open" reads as "open(". */
  lemma CallShowsOpen(name: string, callArgs: string)
    requires EndsWith(name, "open")
    ensures Contains("result = " + name + "(" + callArgs + ")\n", "open(")
  {
    var pre := "result = " + name[..|name| - 4];
    assert name == name[..|name| - 4] + "open";
    assert "result = " + name + "(" + callArgs + ")\n" == pre + "open(" + (callArgs + ")\n");
    ContainsPart(pre, "open(", callArgs + ")\n");
  }

  /** The scanned record of `Math.square`: its class is `Math` and it has two parameters. */
  lemma SquareRecord()
    ensures var recs := Collect(ExampleTree(), [], "example_module", "example_module.py");
      && |recs| == 3 && '.' in recs[2].qualname && recs[2].name == "square"
      && BeforeFirstDot(recs[2].qualname) == "Math" && NatToString(|recs[2].args|) == "2"
  {
    ExampleModuleRecords();
    var r := Collect(ExampleTree(), [], "example_module", "example_module.py")[2];
    assert r.qualname[4] == '.';
    assert r.qualname[..5] == "Math" + ".";
    BeforeFirstDotOf(r.qualname, "Math");
    assert NatToString(|r.args|) == "2";
  }

  /** For the method of the sample module the skeleton builds a `Math`
      instance and passes two `None` values: `self` is counted. */
  lemma ExampleSquareSkeleton(defaultArgs: FunctionInfo -> string)
    ensures var recs := Collect(ExampleTree(), [], "example_module", "example_module.py");
      && |recs| == 3
      && Contains(RuleBasedSkeleton(recs[2], defaultArgs), "def test_Math_square_basic():\n    obj = Math()\n")
      && Contains(RuleBasedSkeleton(recs[2], defaultArgs), "getattr(obj, \"square\")(*[None for _ in range(2)])\n")
  {
    SquareRecord();
    var r := Collect(ExampleTree(), [], "example_module", "example_module.py")[2];
    MethodSkeletonShape(r, defaultArgs);
    SquareTestHeader();
    SquareBadCall();
  }

  lemma SquareTestHeader()
    ensures "def test_" + "Math" + "_" + "square" + "_basic():\n" + "    obj = " + "Math" + "()\n"
      == "def test_Math_square_basic():\n    obj = Math()\n"
  {
  }

  lemma SquareBadCall()
    ensures "getattr(obj, \"" + "square" + "\")(*[None for _ in range(" + "2" + ")])\n"
      == "getattr(obj, \"square\")(*[None for _ in range(2)])\n"
  {
  }
}
