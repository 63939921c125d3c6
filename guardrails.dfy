/** The guardrail of `src/llm_testgen/guardrails.py`: a syntax check that
    defers to the parser, a literal-substring safety check against a fixed
    list of banned constructs, and `sanitize`, which drops code fences and
    surrounding whitespace. */
module Guardrails {
  import opened Strings

  // ---------------------------------------------------------------------------
  // compiles
  // ---------------------------------------------------------------------------

  /** Whether Python's `ast.parse` accepts a text. The parser is not part of
      this model; it is an input to every member that needs it. */
  type ParseOracle = string -> bool

  /** `compiles(src)`: the parser's verdict. A parse error is caught and
      becomes `false`, so the check itself never fails. */
  function Compiles(parses: ParseOracle, src: string): (ok: bool)
    ensures ok <==> parses(src)
  {
    parses(src)
  }

  // ---------------------------------------------------------------------------
  // safe_content
  // ---------------------------------------------------------------------------

  /** The texts matched by the nine banned regular expressions; each
      expression is an escaped literal, so it matches exactly this text. */
  const BannedPatterns: seq<string> :=
    ["requests.", "httpx.", "urllib.", "os.system", "subprocess.",
     "open(", "Path(", "shutil.", "socket."]

  /** A text is safe when no banned literal occurs in it. */
  ghost predicate IsSafe(s: string) {
    forall p :: p in BannedPatterns ==> !Contains(s, p)
  }

  /** `re.search(pattern, s)` for a pattern that matches one literal text:
      scans the start positions from left to right. */
  method Search(s: string, pattern: string) returns (found: bool)
    ensures found <==> Contains(s, pattern)
  {
    var i := 0;
    while i + |pattern| <= |s|
      invariant 0 <= i
      invariant forall j :: 0 <= j < i ==> !OccursAt(s, pattern, j)
      decreases |s| - i
    {
      if s[i..i + |pattern|] == pattern {
        assert OccursAt(s, pattern, i);
        return true;
      }
      i := i + 1;
    }
    found := false;
  }

  /** `safe_content(s)`: tries the banned patterns in order and rejects the
      text at the first one that occurs. */
  method SafeContent(s: string) returns (safe: bool)
    ensures safe <==> IsSafe(s)
  {
    for k := 0 to |BannedPatterns|
      invariant forall j :: 0 <= j < k ==> !Contains(s, BannedPatterns[j])
    {
      var hit := Search(s, BannedPatterns[k]);
      if hit {
        return false;
      }
    }
    return true;
  }

  /** The empty text is safe. */
  lemma EmptyIsSafe()
    ensures IsSafe([])
  {
    forall p | p in BannedPatterns ensures !Contains([], p) {
      EmptyContainsNothing(p);
    }
  }

  /** Safety is closed under taking a piece of the text. */
  lemma SafeSlice(t: string, i: int, j: int)
    requires 0 <= i <= j <= |t|
    requires IsSafe(t)
    ensures IsSafe(t[i..j])
  {
    forall p | p in BannedPatterns ensures !Contains(t[i..j], p) {
      if Contains(t[i..j], p) {
        ContainsSlice(t, i, j, p);
      }
    }
  }

  // ---------------------------------------------------------------------------
  // sanitize
  // ---------------------------------------------------------------------------

  const Fence: string := "```"

  /** `s.replace("```", "")`: removes non-overlapping fences from left to right. */
  function RemoveFences(s: string): string
    decreases |s|
  {
    if StartsWith(s, Fence) then RemoveFences(s[3..])
    else if s == [] then []
    else [s[0]] + RemoveFences(s[1..])
  }

  /** Number of backticks at the start of a text. */
  function LeadingTicks(s: string): (n: nat)
    ensures n <= |s|
    decreases |s|
  {
    if s != [] && s[0] == '`' then 1 + LeadingTicks(s[1..]) else 0
  }

  lemma {:induction false} LeadingTicksAtLeast(s: string, n: nat)
    ensures LeadingTicks(s) >= n <==> (n <= |s| && forall j :: 0 <= j < n ==> s[j] == '`')
    decreases n
  {
    if n > 0 && s != [] {
      LeadingTicksAtLeast(s[1..], n - 1);
      if n <= |s| && forall j :: 0 <= j < n ==> s[j] == '`' {
        forall j | 0 <= j < n - 1 ensures s[1..][j] == '`' {
          assert s[1..][j] == s[j + 1];
        }
      }
    }
  }

  /** A fence at the front of a text is exactly three leading backticks. */
  lemma FenceIsThreeTicks(s: string)
    ensures StartsWith(s, Fence) <==> LeadingTicks(s) >= 3
  {
    LeadingTicksAtLeast(s, 3);
    if 3 <= |s| && s[0] == '`' && s[1] == '`' && s[2] == '`' {
      assert s[..3] == Fence;
    }
  }

  lemma LeadingTicksCons(c: char, t: string)
    ensures LeadingTicks([c] + t) == if c == '`' then 1 + LeadingTicks(t) else 0
  {
    assert ([c] + t)[1..] == t;
  }

  /** A fence at the front accounts for three of the leading backticks. */
  lemma TicksAfterFence(s: string)
    requires StartsWith(s, Fence)
    ensures LeadingTicks(s) == 3 + LeadingTicks(s[3..])
  {
    assert s[..3] == Fence;
    var s1, s2 := s[1..], s[2..];
    assert s[0] == '`' && s1[0] == '`' && s2[0] == '`';
    assert s1[1..] == s2 && s2[1..] == s[3..];
    assert LeadingTicks(s2) == 1 + LeadingTicks(s[3..]);
    assert LeadingTicks(s1) == 1 + LeadingTicks(s2);
  }

  /** Fence removal shortens each leading run of backticks modulo three. */
  lemma {:induction false} RemoveFencesLeadingTicks(s: string)
    ensures LeadingTicks(RemoveFences(s)) == LeadingTicks(s) % 3
    decreases |s|
  {
    FenceIsThreeTicks(s);
    if StartsWith(s, Fence) {
      RemoveFencesLeadingTicks(s[3..]);
      TicksAfterFence(s);
      assert RemoveFences(s) == RemoveFences(s[3..]);
      var n := LeadingTicks(s[3..]);
      assert (3 + n) % 3 == n % 3;
    } else if s != [] {
      var t := RemoveFences(s[1..]);
      assert RemoveFences(s) == [s[0]] + t;
      LeadingTicksCons(s[0], t);
      if s[0] == '`' {
        RemoveFencesLeadingTicks(s[1..]);
        var n := LeadingTicks(s[1..]);
        assert LeadingTicks(s) == 1 + n < 3;
        assert n % 3 == n && (1 + n) % 3 == 1 + n;
      } else {
        assert LeadingTicks(s) == 0;
      }
    }
  }

  /** The result of fence removal contains no fence, even where removing one
      fence brings backticks on both sides of it together. */
  lemma {:induction false} RemoveFencesClean(s: string)
    ensures !Contains(RemoveFences(s), Fence)
    decreases |s|
  {
    if StartsWith(s, Fence) {
      RemoveFencesClean(s[3..]);
    } else if s == [] {
      EmptyContainsNothing(Fence);
    } else {
      var rest := RemoveFences(s[1..]);
      var t := [s[0]] + rest;
      RemoveFencesClean(s[1..]);
      forall i ensures !OccursAt(t, Fence, i) {
        if 1 <= i && i + 3 <= |t| {
          assert t[i..i + 3] == rest[i - 1..i + 2];
          assert !OccursAt(rest, Fence, i - 1);
        } else if i == 0 && 3 <= |t| {
          FenceIsThreeTicks(s);
          if s[0] == '`' {
            RemoveFencesLeadingTicks(s[1..]);
            LeadingTicksAtLeast(s[1..], 2);
            LeadingTicksAtLeast(rest, 2);
            assert t[1] == rest[0] && t[2] == rest[1];
            assert !(rest[0] == '`' && rest[1] == '`');
          }
          assert t[..3] != Fence;
        }
      }
    }
  }

  /** A text without fences is left unchanged by fence removal. */
  lemma {:induction false} RemoveFencesNoFence(s: string)
    requires !Contains(s, Fence)
    ensures RemoveFences(s) == s
    decreases |s|
  {
    if s != [] {
      assert !OccursAt(s, Fence, 0);
      if Contains(s[1..], Fence) {
        assert s[1..|s|] == s[1..];
        ContainsSlice(s, 1, |s|, Fence);
      }
      RemoveFencesNoFence(s[1..]);
    }
  }

  /** Text free of backticks passes through fence removal untouched. */
  lemma {:induction false} RemoveFencesTickFreePrefix(p: string, rest: string)
    requires forall j :: 0 <= j < |p| ==> p[j] != '`'
    ensures RemoveFences(p + rest) == p + RemoveFences(rest)
    decreases |p|
  {
    if p != [] {
      assert (p + rest)[0] == p[0] != Fence[0];
      assert !StartsWith(p + rest, Fence);
      assert (p + rest)[1..] == p[1..] + rest;
      RemoveFencesTickFreePrefix(p[1..], rest);
      assert RemoveFences(p + rest) == [p[0]] + RemoveFences(p[1..] + rest);
      assert [p[0]] + (p[1..] + RemoveFences(rest)) == p + RemoveFences(rest);
    } else {
      assert p + rest == rest;
    }
  }

  /** A fence at the front of `a` is at the front of `a + b`. */
  lemma FenceFront(a: string, b: string)
    requires StartsWith(a, Fence)
    ensures StartsWith(a + b, Fence) && (a + b)[3..] == a[3..] + b
  {
    assert (a + b)[..3] == a[..3];
  }

  /** Without a fence at the front of `a`, and with no backtick where `b`
      starts, `a + b` has no fence at the front either. */
  lemma NoFenceFront(a: string, b: string)
    requires a != [] && !StartsWith(a, Fence)
    requires b == [] || b[0] != '`'
    ensures !StartsWith(a + b, Fence)
    ensures (a + b)[0] == a[0] && (a + b)[1..] == a[1..] + b
  {
    if |a| >= 3 {
      assert (a + b)[..3] == a[..3];
    } else if b != [] {
      assert (a + b)[|a|] == b[0];
    } else {
      assert a + b == a;
    }
  }

  /** Fences never span a boundary followed by a character that is not a backtick. */
  lemma {:induction false} RemoveFencesSplit(a: string, b: string)
    requires b == [] || b[0] != '`'
    ensures RemoveFences(a + b) == RemoveFences(a) + RemoveFences(b)
    decreases |a|
  {
    if a == [] {
      assert a + b == b;
    } else if StartsWith(a, Fence) {
      FenceFront(a, b);
      RemoveFencesSplit(a[3..], b);
    } else {
      NoFenceFront(a, b);
      RemoveFencesSplit(a[1..], b);
      assert RemoveFences(a + b) == [a[0]] + RemoveFences(a[1..] + b);
    }
  }

  /** A pattern that has no backtick survives fence removal. */
  lemma RemoveFencesKeeps(s: string, p: string)
    requires p != [] && forall j :: 0 <= j < |p| ==> p[j] != '`'
    requires Contains(s, p)
    ensures Contains(RemoveFences(s), p)
  {
    var i :| OccursAt(s, p, i);
    var before, rest := s[..i], s[i + |p|..];
    assert s == before + (p + rest);
    RemoveFencesSplit(before, p + rest);
    RemoveFencesTickFreePrefix(p, rest);
    assert RemoveFences(s) == RemoveFences(before) + p + RemoveFences(rest);
    ContainsPart(RemoveFences(before), p, RemoveFences(rest));
  }

  /** `sanitize(s)`: `s.replace("```", "").strip()`. The result holds no fence
      and has no surrounding whitespace. */
  function Sanitize(s: string): (r: string)
    ensures !Contains(r, Fence)
    ensures r == [] || (!IsSpace(r[0]) && !IsSpace(r[|r| - 1]))
  {
    RemoveFencesClean(s);
    StripContained(RemoveFences(s), Fence);
    Strip(RemoveFences(s))
  }

  /** Sanitizing twice gives what sanitizing once gives. */
  lemma SanitizeIdempotent(s: string)
    ensures Sanitize(Sanitize(s)) == Sanitize(s)
  {
    var t := Sanitize(s);
    RemoveFencesNoFence(t);
    StripTrimmed(t);
  }

  /** The banned literals are non-empty, hold no backtick and start and end
      with a character that is not whitespace. */
  predicate Robust(p: string) {
    p != [] && (forall j :: 0 <= j < |p| ==> p[j] != '`') && !IsSpace(p[0]) && !IsSpace(p[|p| - 1])
  }

  lemma BannedAreRobust()
    ensures forall p :: p in BannedPatterns ==> Robust(p)
  {
    NetworkBannedAreRobust();
    SystemBannedAreRobust();
    forall p | p in BannedPatterns ensures Robust(p) {
      var i :| 0 <= i < |BannedPatterns| && BannedPatterns[i] == p;
    }
  }

  lemma NetworkBannedAreRobust()
    ensures forall i :: 0 <= i < 4 ==> Robust(BannedPatterns[i])
  {
  }

  lemma SystemBannedAreRobust()
    ensures forall i :: 4 <= i < |BannedPatterns| ==> Robust(BannedPatterns[i])
  {
  }

  /** Sanitizing never removes a banned construct: an unsafe text stays unsafe. */
  lemma SanitizeKeepsUnsafe(s: string)
    requires !IsSafe(s)
    ensures !IsSafe(Sanitize(s))
  {
    var p :| p in BannedPatterns && Contains(s, p);
    BannedAreRobust();
    RemoveFencesKeeps(s, p);
    StripKeeps(RemoveFences(s), p);
  }

  /** The converse fails: removing a fence can join the pieces of a banned
      construct, so a safe text can sanitize to an unsafe one. */
  lemma SanitizeCanExpose()
    ensures IsSafe("open```(") && !IsSafe(Sanitize("open```("))
  {
    SplitOpenIsSafe();
    SanitizeSplitOpen();
    ContainsPart([], "open(", []);
    assert [] + "open(" + [] == "open(";
  }

  /** A text whose fence-free form needs no stripping sanitizes to that form. */
  lemma SanitizeTo(s: string, t: string)
    requires RemoveFences(s) == t
    requires t == [] || (!IsSpace(t[0]) && !IsSpace(t[|t| - 1]))
    ensures Sanitize(s) == t
  {
    StripTrimmed(t);
  }

  lemma SanitizeSplitOpen()
    ensures Sanitize("open```(") == "open("
  {
    RemoveFencesSplitOpen();
    SanitizeTo("open```(", "open(");
  }

  lemma RemoveFencesSplitOpen()
    ensures RemoveFences("open```(") == "open("
  {
    var tail := "```(";
    assert "open" + tail == "open```(";
    RemoveFencesTickFreePrefix("open", tail);
    assert StartsWith(tail, Fence) && tail[3..] == "(";
    assert RemoveFences("(") == "(";
    assert "open" + "(" == "open(";
  }

  lemma SplitOpenIsSafe()
    ensures IsSafe("open```(")
  {
    var s := "open```(";
    forall j | 0 <= j < |s| ensures s[j] != '.' && s[j] != 'P' {
    }
    forall i ensures !OccursAt(s, "open(", i) {
      if 0 <= i <= 3 {
        assert s[i..i + 5][0] == s[i] && s[i..i + 5][4] == s[i + 4];
        if i < 3 {
          assert s[i + 4] == '`';
        } else {
          assert s[i] == 'n';
        }
      }
    }
    forall p | p in BannedPatterns ensures !Contains(s, p) {
      if p == "Path(" {
        AbsentChar(s, p, 0);
      } else if p == "os.system" {
        AbsentChar(s, p, 2);
      } else if p != "open(" {
        AbsentChar(s, p, |p| - 1);
      }
    }
  }
}
