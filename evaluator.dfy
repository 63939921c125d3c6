/** `evaluate_dir` of `src/llm_testgen/evaluator.py`: counts the generated
    test files that "compile" and collects the requirement IDs they mention.

    The directory walk and the file reads are left to the caller: the method
    takes the contents of the `test_*.py` files and of the `*.robot` files
    as two sequences. `ast.parse` is the same parse oracle the guardrail
    uses. The two regular expressions are written out as scanners that
    behave like `re.findall`: they try each position from left to right and
    resume after a match. */
module Evaluator {
  import opened Strings
  import Guardrails

  const ReqPrefix := "REQ-"
  const TagPrefix := "REQ-ID:"

  /** A requirement ID: "REQ-" followed by one or more digits. */
  predicate IsReqId(x: string) {
    |x| >= 5 && x[..4] == ReqPrefix && AllDigits(x[4..])
  }

  /** The end of the longest run of digits starting at `i` (`\d+` is greedy). */
  function DigitEnd(s: string, i: nat): (e: nat)
    requires i <= |s|
    ensures i <= e <= |s|
    ensures forall j :: i <= j < e ==> IsDigit(s[j])
    ensures e == |s| || !IsDigit(s[e])
    decreases |s| - i
  {
    if i < |s| && IsDigit(s[i]) then DigitEnd(s, i + 1) else i
  }

  /** The end of the longest run of whitespace starting at `i` (`\s*`). */
  function SpaceEnd(s: string, i: nat): (e: nat)
    requires i <= |s|
    ensures i <= e <= |s|
    ensures forall j :: i <= j < e ==> IsSpace(s[j])
    ensures e == |s| || !IsSpace(s[e])
    decreases |s| - i
  {
    if i < |s| && IsSpace(s[i]) then SpaceEnd(s, i + 1) else i
  }

  /** `REQ-\d+` matches at position `i`. */
  predicate ReqAt(s: string, i: int) {
    OccursAt(s, ReqPrefix, i) && i + 4 < |s| && IsDigit(s[i + 4])
  }

  /** The text `REQ-\d+` matches at `i`, its digit run taken in full. */
  function ReqId(s: string, i: int): (id: string)
    requires ReqAt(s, i)
    ensures IsReqId(id)
    ensures OccursAt(s, id, i)
    ensures i + |id| == |s| || !IsDigit(s[i + |id|])
  {
    var e := DigitEnd(s, i + 4);
    var id := s[i..e];
    assert |ReqPrefix| == 4 && s[i..i + 4] == ReqPrefix;
    assert id[..4] == s[i..i + 4];
    assert forall j :: 0 <= j < |id[4..]| ==> id[4..][j] == s[i + 4 + j];
    id
  }

  /** `REQ-ID:\s*(REQ-\d+)` matches at position `i`. The greedy `\s*` never
      has to give back a character: what follows the ID's "R" is no
      whitespace, so the run is taken in full. */
  predicate TagAt(s: string, i: int) {
    OccursAt(s, TagPrefix, i) && ReqAt(s, SpaceEnd(s, i + 7))
  }

  /** The group a tag match at `i` captures. */
  function TagId(s: string, i: int): (id: string)
    requires TagAt(s, i)
    ensures IsReqId(id)
  {
    ReqId(s, SpaceEnd(s, i + 7))
  }

  /** Where the search resumes after a match of `REQ-\d+` at `i`. */
  function ReqEnd(s: string, i: int): (e: nat)
    requires ReqAt(s, i)
    ensures i < e <= |s| && e == i + |ReqId(s, i)|
  {
    i + |ReqId(s, i)|
  }

  /** Where the search resumes after a tag match at `i`. */
  function TagEnd(s: string, i: int): (e: nat)
    requires TagAt(s, i)
    ensures i < e <= |s|
  {
    var j := SpaceEnd(s, i + 7);
    ReqEnd(s, j)
  }

  /** `re.findall(r"REQ-\d+", s[i..])`. */
  function FindReqs(s: string, i: nat): (ids: seq<string>)
    requires i <= |s|
    ensures forall k :: 0 <= k < |ids| ==> IsReqId(ids[k])
    decreases |s| - i
  {
    if i == |s| then []
    else if ReqAt(s, i) then [ReqId(s, i)] + FindReqs(s, ReqEnd(s, i))
    else FindReqs(s, i + 1)
  }

  /** `re.findall(r"REQ-ID:\s*(REQ-\d+)", s[i..])`: the captured groups. */
  function FindTags(s: string, i: nat): (ids: seq<string>)
    requires i <= |s|
    ensures forall k :: 0 <= k < |ids| ==> IsReqId(ids[k])
    decreases |s| - i
  {
    if i == |s| then []
    else if TagAt(s, i) then [TagId(s, i)] + FindTags(s, TagEnd(s, i))
    else FindTags(s, i + 1)
  }

  function Elems(xs: seq<string>): set<string> {
    set x | x in xs
  }

  lemma ElemsCons(x: string, xs: seq<string>)
    ensures Elems([x] + xs) == {x} + Elems(xs)
  {
    assert forall y :: y in [x] + xs <==> y == x || y in xs;
  }

  /** Every ID that `REQ-\d+` matches at some position from `i` on. */
  function ReqsFrom(s: string, i: nat): set<string> {
    set k | i <= k < |s| && ReqAt(s, k) :: ReqId(s, k)
  }

  /** Every ID that the tag pattern captures at some position from `i` on. */
  function TagsFrom(s: string, i: nat): set<string> {
    set k | i <= k < |s| && TagAt(s, k) :: TagId(s, k)
  }

  /** A match of either pattern starts with "R"; the fifth character tells
      them apart. */
  lemma MatchStart(s: string, k: int)
    ensures ReqAt(s, k) ==> s[k] == 'R' && IsDigit(s[k + 4])
    ensures TagAt(s, k) ==> s[k] == 'R' && s[k + 4] == 'I'
  {
    if ReqAt(s, k) {
      assert s[k..k + 4][0] == s[k];
    }
    if TagAt(s, k) {
      assert s[k..k + 7][0] == s[k] && s[k..k + 7][4] == s[k + 4];
    }
  }

  /** No "R" occurs inside a match of `REQ-\d+` after its first character. */
  lemma NoRInside(s: string, i: int)
    requires ReqAt(s, i)
    ensures forall k :: i < k < i + |ReqId(s, i)| ==> s[k] != 'R'
  {
    var id := ReqId(s, i);
    forall k | i < k < i + |id| ensures s[k] != 'R' {
      if k < i + 4 {
        assert s[k] == s[i..i + 4][k - i] == ReqPrefix[k - i];
      } else {
        assert s[k] == id[k - i] == id[4..][k - i - 4];
      }
    }
  }

  /** No match of `REQ-\d+` starts inside another one. */
  lemma NoReqInside(s: string, i: int)
    requires ReqAt(s, i)
    ensures forall k :: i < k < ReqEnd(s, i) ==> !ReqAt(s, k)
  {
    NoRInside(s, i);
    forall k | i < k < ReqEnd(s, i) ensures !ReqAt(s, k) {
      MatchStart(s, k);
    }
  }

  /** The marker "REQ-ID:" has no "R" after its first character. */
  lemma MarkerNoR(s: string, i: int, k: int)
    requires OccursAt(s, TagPrefix, i) && i < k < i + 7
    ensures s[k] != 'R'
  {
    assert s[k] == s[i..i + 7][k - i];
  }

  lemma SpaceNotR(c: char)
    requires IsSpace(c)
    ensures c != 'R'
  {
  }

  /** A position inside a tag match, after its first character, starts no tag
      match: it holds a character of the marker, whitespace, the "R" of the
      ID (followed by a digit, not "I") or a later character of the ID. */
  lemma NotTagAt(s: string, i: int, k: int)
    requires TagAt(s, i) && i < k < TagEnd(s, i)
    ensures !TagAt(s, k)
  {
    var j := SpaceEnd(s, i + 7);
    MatchStart(s, k);
    if k < i + 7 {
      MarkerNoR(s, i, k);
    } else if k < j {
      SpaceNotR(s[k]);
    } else if k == j {
      MatchStart(s, j);
    } else {
      NoRInside(s, j);
    }
  }

  /** No tag match starts inside another one. */
  lemma NoTagInside(s: string, i: int)
    requires TagAt(s, i)
    ensures forall k :: i < k < TagEnd(s, i) ==> !TagAt(s, k)
  {
    forall k | i < k < TagEnd(s, i) ensures !TagAt(s, k) {
      NotTagAt(s, i, k);
    }
  }

  /** The IDs from a match on: the match's own, then those after it. */
  lemma ReqsFromMatch(s: string, i: nat)
    requires i < |s| && ReqAt(s, i)
    ensures ReqsFrom(s, i) == {ReqId(s, i)} + ReqsFrom(s, ReqEnd(s, i))
  {
    var e := ReqEnd(s, i);
    NoReqInside(s, i);
    assert ReqId(s, i) in ReqsFrom(s, i);
    forall x | x in ReqsFrom(s, e) ensures x in ReqsFrom(s, i) {
      var k :| e <= k < |s| && ReqAt(s, k) && ReqId(s, k) == x;
    }
    forall x | x in ReqsFrom(s, i) ensures x == ReqId(s, i) || x in ReqsFrom(s, e) {
      var k :| i <= k < |s| && ReqAt(s, k) && ReqId(s, k) == x;
      if k != i {
        assert e <= k;
      }
    }
  }

  /** The IDs from a position where nothing matches are those after it. */
  lemma ReqsFromSkip(s: string, i: nat)
    requires i < |s| && !ReqAt(s, i)
    ensures ReqsFrom(s, i) == ReqsFrom(s, i + 1)
  {
    forall x ensures x in ReqsFrom(s, i) <==> x in ReqsFrom(s, i + 1) {
      if x in ReqsFrom(s, i) {
        var k :| i <= k < |s| && ReqAt(s, k) && ReqId(s, k) == x;
        assert k != i;
      }
    }
  }

  lemma TagsFromMatch(s: string, i: nat)
    requires i < |s| && TagAt(s, i)
    ensures TagsFrom(s, i) == {TagId(s, i)} + TagsFrom(s, TagEnd(s, i))
  {
    var e := TagEnd(s, i);
    NoTagInside(s, i);
    assert TagId(s, i) in TagsFrom(s, i);
    forall x | x in TagsFrom(s, e) ensures x in TagsFrom(s, i) {
      var k :| e <= k < |s| && TagAt(s, k) && TagId(s, k) == x;
    }
    forall x | x in TagsFrom(s, i) ensures x == TagId(s, i) || x in TagsFrom(s, e) {
      var k :| i <= k < |s| && TagAt(s, k) && TagId(s, k) == x;
      if k != i {
        assert e <= k;
      }
    }
  }

  lemma TagsFromSkip(s: string, i: nat)
    requires i < |s| && !TagAt(s, i)
    ensures TagsFrom(s, i) == TagsFrom(s, i + 1)
  {
    forall x ensures x in TagsFrom(s, i) <==> x in TagsFrom(s, i + 1) {
      if x in TagsFrom(s, i) {
        var k :| i <= k < |s| && TagAt(s, k) && TagId(s, k) == x;
        assert k != i;
      }
    }
  }

  /** The left-to-right scan finds exactly the IDs matched anywhere: skipping
      past each match loses none, since none starts inside another. */
  lemma {:induction false} FindReqsComplete(s: string, i: nat)
    requires i <= |s|
    ensures Elems(FindReqs(s, i)) == ReqsFrom(s, i)
    decreases |s| - i
  {
    if i == |s| {
      assert ReqsFrom(s, i) == {};
    } else if ReqAt(s, i) {
      var e := ReqEnd(s, i);
      FindReqsComplete(s, e);
      ReqsFromMatch(s, i);
      assert FindReqs(s, i) == [ReqId(s, i)] + FindReqs(s, e);
      ElemsCons(ReqId(s, i), FindReqs(s, e));
    } else {
      FindReqsComplete(s, i + 1);
      ReqsFromSkip(s, i);
    }
  }

  /** The same for the tag pattern. */
  lemma {:induction false} FindTagsComplete(s: string, i: nat)
    requires i <= |s|
    ensures Elems(FindTags(s, i)) == TagsFrom(s, i)
    decreases |s| - i
  {
    if i == |s| {
      assert TagsFrom(s, i) == {};
    } else if TagAt(s, i) {
      var e := TagEnd(s, i);
      FindTagsComplete(s, e);
      TagsFromMatch(s, i);
      assert FindTags(s, i) == [TagId(s, i)] + FindTags(s, e);
      ElemsCons(TagId(s, i), FindTags(s, e));
    } else {
      FindTagsComplete(s, i + 1);
      TagsFromSkip(s, i);
    }
  }

  /** Every tagged ID is also a plain match: a file moved from the Python
      side to the Robot side loses none of its IDs. */
  lemma TagsAreReqs(s: string)
    ensures Elems(FindTags(s, 0)) <= Elems(FindReqs(s, 0))
  {
    FindTagsComplete(s, 0);
    FindReqsComplete(s, 0);
    forall x | x in TagsFrom(s, 0) ensures x in ReqsFrom(s, 0) {
      var k :| 0 <= k < |s| && TagAt(s, k) && TagId(s, k) == x;
      var j := SpaceEnd(s, k + 7);
      assert ReqAt(s, j) && ReqId(s, j) == x;
    }
  }

  lemma ReqPosition(s: string, x: string) returns (k: nat)
    requires x in Elems(FindReqs(s, 0))
    ensures ReqAt(s, k) && ReqId(s, k) == x
    ensures OccursAt(s, x, k) && (k + |x| == |s| || !IsDigit(s[k + |x|]))
  {
    k := FoundAt(s, x);
    ReqIdEnds(s, k);
  }

  lemma FoundAt(s: string, x: string) returns (k: nat)
    requires x in Elems(FindReqs(s, 0))
    ensures ReqAt(s, k) && ReqId(s, k) == x
  {
    FindReqsComplete(s, 0);
    k :| 0 <= k < |s| && ReqAt(s, k) && ReqId(s, k) == x;
  }

  /** A match occurs where it was found and cannot be extended by a digit. */
  lemma ReqIdEnds(s: string, k: int)
    requires ReqAt(s, k)
    ensures var id := ReqId(s, k); OccursAt(s, id, k) && (k + |id| == |s| || !IsDigit(s[k + |id|]))
  {
  }

  /** Every collected ID occurs in the text, with a digit run that cannot
      be extended. */
  lemma FoundIdsOccur(s: string, x: string)
    requires x in FindReqs(s, 0) || x in FindTags(s, 0)
    ensures IsReqId(x)
    ensures exists k :: OccursAt(s, x, k) && (k + |x| == |s| || !IsDigit(s[k + |x|]))
  {
    TagsAreReqs(s);
    assert x in Elems(FindReqs(s, 0));
    var k := ReqPosition(s, x);
  }

  /** The dictionary `evaluate_dir` returns; `req_ids` is kept as the set it
      was built from. */
  datatype Metrics = Metrics(
    filesTotal: nat,
    filesPython: nat,
    filesRobot: nat,
    compileSuccess: nat,
    traceabilityUniqueReqs: nat,
    reqIds: set<string>)

  /** A Robot file "compiles" when it is not blank. */
  predicate RobotCompiles(content: string) {
    |Strip(content)| > 0
  }

  /** How many files a check accepts: the parser for Python files,
      `RobotCompiles` for Robot files. */
  function CountAccepted(accepts: string -> bool, files: seq<string>): (n: nat)
    ensures n <= |files|
    decreases |files|
  {
    if files == [] then 0
    else CountAccepted(accepts, files[..|files| - 1]) + if accepts(files[|files| - 1]) then 1 else 0
  }

  /** All files count exactly when the check accepts every one of them. */
  lemma {:induction false} CountAcceptedAll(accepts: string -> bool, files: seq<string>)
    ensures CountAccepted(accepts, files) == |files| <==> forall k :: 0 <= k < |files| ==> accepts(files[k])
    decreases |files|
  {
    if files != [] {
      var init := files[..|files| - 1];
      CountAcceptedAll(accepts, init);
      assert forall k :: 0 <= k < |init| ==> init[k] == files[k];
    }
  }

  /** No file counts exactly when the check rejects every one of them. */
  lemma {:induction false} CountAcceptedNone(accepts: string -> bool, files: seq<string>)
    ensures CountAccepted(accepts, files) == 0 <==> forall k :: 0 <= k < |files| ==> !accepts(files[k])
    decreases |files|
  {
    if files != [] {
      var init := files[..|files| - 1];
      CountAcceptedNone(accepts, init);
      assert forall k :: 0 <= k < |init| ==> init[k] == files[k];
    }
  }

  /** The IDs tagged `REQ-ID:` in the Python files: exactly those the tag
      pattern captures somewhere in one of them. */
  function PyIds(files: seq<string>): (ids: set<string>)
    ensures forall x :: x in ids ==> IsReqId(x)
    ensures forall k :: 0 <= k < |files| ==> Elems(FindTags(files[k], 0)) <= ids
    ensures forall x :: x in ids <==> exists k :: 0 <= k < |files| && x in FindTags(files[k], 0)
    decreases |files|
  {
    if files == [] then {}
    else
      var init, last := files[..|files| - 1], files[|files| - 1];
      assert forall k :: 0 <= k < |init| ==> init[k] == files[k];
      assert last == files[|files| - 1];
      PyIds(init) + Elems(FindTags(last, 0))
  }

  /** Every `REQ-\d+` in the Robot files, and nothing else. */
  function RobotIds(files: seq<string>): (ids: set<string>)
    ensures forall x :: x in ids ==> IsReqId(x)
    ensures forall k :: 0 <= k < |files| ==> Elems(FindReqs(files[k], 0)) <= ids
    ensures forall x :: x in ids <==> exists k :: 0 <= k < |files| && x in FindReqs(files[k], 0)
    decreases |files|
  {
    if files == [] then {}
    else
      var init, last := files[..|files| - 1], files[|files| - 1];
      assert forall k :: 0 <= k < |init| ==> init[k] == files[k];
      assert last == files[|files| - 1];
      RobotIds(init) + Elems(FindReqs(last, 0))
  }

  /** What `evaluate_dir` returns for the given file contents. */
  function Evaluate(parses: Guardrails.ParseOracle, pyFiles: seq<string>, robotFiles: seq<string>): (m: Metrics)
    ensures m.filesPython == |pyFiles| && m.filesRobot == |robotFiles|
    ensures m.filesTotal == m.filesPython + m.filesRobot
    ensures m.compileSuccess <= m.filesTotal
    ensures m.traceabilityUniqueReqs == |m.reqIds|
    ensures forall x :: x in m.reqIds ==> IsReqId(x)
    ensures forall x :: x in m.reqIds <==>
              (exists k :: 0 <= k < |pyFiles| && x in FindTags(pyFiles[k], 0))
              || (exists k :: 0 <= k < |robotFiles| && x in FindReqs(robotFiles[k], 0))
  {
    var ids := PyIds(pyFiles) + RobotIds(robotFiles);
    Metrics(|pyFiles| + |robotFiles|, |pyFiles|, |robotFiles|,
            CountAccepted(parses, pyFiles) + CountAccepted(RobotCompiles, robotFiles), |ids|, ids)
  }

  /** The counts and ID sets of a prefix one file longer. */
  lemma PyStep(parses: Guardrails.ParseOracle, files: seq<string>, i: nat)
    requires i < |files|
    ensures CountAccepted(parses, files[..i + 1])
      == CountAccepted(parses, files[..i]) + if parses(files[i]) then 1 else 0
    ensures PyIds(files[..i + 1]) == PyIds(files[..i]) + Elems(FindTags(files[i], 0))
  {
    assert files[..i + 1][..i] == files[..i];
  }

  lemma RobotStep(files: seq<string>, i: nat)
    requires i < |files|
    ensures CountAccepted(RobotCompiles, files[..i + 1])
      == CountAccepted(RobotCompiles, files[..i]) + if RobotCompiles(files[i]) then 1 else 0
    ensures RobotIds(files[..i + 1]) == RobotIds(files[..i]) + Elems(FindReqs(files[i], 0))
  {
    assert files[..i + 1][..i] == files[..i];
  }

  /** The first loop of `evaluate_dir`: count the Python files the parser
      accepts and collect the IDs tagged in them, parsed or not. */
  method PythonPass(parses: Guardrails.ParseOracle, pyFiles: seq<string>)
    returns (compiles: nat, reqIdsFound: set<string>)
    ensures compiles == CountAccepted(parses, pyFiles)
    ensures reqIdsFound == PyIds(pyFiles)
  {
    compiles, reqIdsFound := 0, {};
    for i := 0 to |pyFiles|
      invariant compiles == CountAccepted(parses, pyFiles[..i])
      invariant reqIdsFound == PyIds(pyFiles[..i])
    {
      var content := pyFiles[i];
      if Guardrails.Compiles(parses, content) {
        compiles := compiles + 1;
      }
      var ids := FindTags(content, 0);
      reqIdsFound := reqIdsFound + Elems(ids);
      PyStep(parses, pyFiles, i);
    }
    assert pyFiles[..|pyFiles|] == pyFiles;
  }

  /** The second loop of `evaluate_dir`: go on counting with the Robot files
      that are not blank, and go on collecting every ID in them. */
  method RobotPass(robotFiles: seq<string>, compiles0: nat, reqIds0: set<string>)
    returns (compiles: nat, reqIdsFound: set<string>)
    ensures compiles == compiles0 + CountAccepted(RobotCompiles, robotFiles)
    ensures reqIdsFound == reqIds0 + RobotIds(robotFiles)
  {
    compiles, reqIdsFound := compiles0, reqIds0;
    for i := 0 to |robotFiles|
      invariant compiles == compiles0 + CountAccepted(RobotCompiles, robotFiles[..i])
      invariant reqIdsFound == reqIds0 + RobotIds(robotFiles[..i])
    {
      var content := robotFiles[i];
      if RobotCompiles(content) {
        compiles := compiles + 1;
      }
      var ids := FindReqs(content, 0);
      reqIdsFound := reqIdsFound + Elems(ids);
      RobotStep(robotFiles, i);
    }
    assert robotFiles[..|robotFiles|] == robotFiles;
  }

  /** `evaluate_dir`: the Python pass, then the Robot pass with the same
      counter and set, then the dictionary. */
  method EvaluateDir(parses: Guardrails.ParseOracle, pyFiles: seq<string>, robotFiles: seq<string>)
    returns (m: Metrics)
    ensures m == Evaluate(parses, pyFiles, robotFiles)
  {
    var compiles, reqIdsFound := PythonPass(parses, pyFiles);
    compiles, reqIdsFound := RobotPass(robotFiles, compiles, reqIdsFound);
    m := Metrics(|pyFiles| + |robotFiles|, |pyFiles|, |robotFiles|, compiles, |reqIdsFound|, reqIdsFound);
  }

  /** An ID is traced in a text when it occurs there with a digit run that
      cannot be extended. */
  ghost predicate Traced(s: string, x: string) {
    exists k :: OccursAt(s, x, k) && (k + |x| == |s| || !IsDigit(s[k + |x|]))
  }

  /** The Python IDs are exactly the IDs the tag pattern captures at some
      position of some Python file. */
  lemma PyIdsExact(files: seq<string>)
    ensures forall x :: x in PyIds(files) <==> exists k :: 0 <= k < |files| && x in TagsFrom(files[k], 0)
  {
    forall k | 0 <= k < |files| {
      FindTagsComplete(files[k], 0);
    }
  }

  /** The Robot IDs are exactly the IDs `REQ-\d+` matches at some position
      of some Robot file. */
  lemma RobotIdsExact(files: seq<string>)
    ensures forall x :: x in RobotIds(files) <==> exists k :: 0 <= k < |files| && x in ReqsFrom(files[k], 0)
  {
    forall k | 0 <= k < |files| {
      FindReqsComplete(files[k], 0);
    }
  }

  /** The reported IDs are exactly the tagged IDs of the Python files and the
      plain matches of the Robot files, so `traceability_unique_reqs` counts
      those and nothing else. */
  lemma EvaluateIdsExact(parses: Guardrails.ParseOracle, pyFiles: seq<string>, robotFiles: seq<string>)
    ensures forall x :: x in Evaluate(parses, pyFiles, robotFiles).reqIds <==>
              (exists k :: 0 <= k < |pyFiles| && x in TagsFrom(pyFiles[k], 0))
              || (exists k :: 0 <= k < |robotFiles| && x in ReqsFrom(robotFiles[k], 0))
  {
    PyIdsExact(pyFiles);
    RobotIdsExact(robotFiles);
  }

  /** Every reported ID is traced in one of the evaluated files: a tagged
      one in a Python file or a plain match in a Robot file. */
  lemma ReportedIdsOccur(parses: Guardrails.ParseOracle, pyFiles: seq<string>, robotFiles: seq<string>, x: string)
    requires x in Evaluate(parses, pyFiles, robotFiles).reqIds
    ensures (exists k :: 0 <= k < |pyFiles| && Traced(pyFiles[k], x))
         || (exists k :: 0 <= k < |robotFiles| && Traced(robotFiles[k], x))
  {
    if exists k :: 0 <= k < |pyFiles| && x in FindTags(pyFiles[k], 0) {
      var k :| 0 <= k < |pyFiles| && x in FindTags(pyFiles[k], 0);
      FoundIdsOccur(pyFiles[k], x);
    } else {
      var k :| 0 <= k < |robotFiles| && x in FindReqs(robotFiles[k], 0);
      FoundIdsOccur(robotFiles[k], x);
    }
  }

  /** A Robot file counts exactly when it holds a character that is not
      whitespace. */
  lemma RobotCompilesIff(content: string)
    ensures RobotCompiles(content) <==> exists j :: 0 <= j < |content| && !IsSpace(content[j])
  {
    StripEmpty(content);
  }

  /** The parser decides only the compile count: the IDs of a Python file
      are collected whether or not it parses. */
  lemma IdsIgnoreParser(p1: Guardrails.ParseOracle, p2: Guardrails.ParseOracle, pyFiles: seq<string>, robotFiles: seq<string>)
    ensures Evaluate(p1, pyFiles, robotFiles).reqIds == Evaluate(p2, pyFiles, robotFiles).reqIds
    ensures forall k :: 0 <= k < |pyFiles| ==> Elems(FindTags(pyFiles[k], 0)) <= Evaluate(p1, pyFiles, robotFiles).reqIds
  {
  }

  /** A bare ID is traced in a Robot file but not in a Python file, where
      only IDs after a `REQ-ID:` marker count. */
  lemma BareIdOnlyInRobot()
    ensures FindReqs("REQ-7", 0) == ["REQ-7"]
    ensures FindTags("REQ-7", 0) == []
  {
    var s := "REQ-7";
    assert ReqAt(s, 0);
    assert DigitEnd(s, 5) == 5;
    assert DigitEnd(s, 4) == 5;
    assert ReqId(s, 0) == s;
    assert FindReqs(s, 5) == [];
    forall k | 0 <= k < |s| ensures !TagAt(s, k) {
    }
    assert FindTags(s, 4) == [];
    assert FindTags(s, 2) == [];
    assert FindTags(s, 0) == [];
  }

  /** With the marker, the whitespace after it is skipped and the ID it
      names is the one collected. */
  lemma TaggedIdCollected()
    ensures FindTags("REQ-ID:  REQ-12", 0) == ["REQ-12"]
  {
    var s := "REQ-ID:  REQ-12";
    assert SpaceEnd(s, 9) == 9;
    assert SpaceEnd(s, 7) == 9;
    assert DigitEnd(s, 15) == 15;
    assert DigitEnd(s, 13) == 15;
    assert s[9..15] == "REQ-12";
    assert TagAt(s, 0);
    assert FindTags(s, 15) == [];
  }
}
