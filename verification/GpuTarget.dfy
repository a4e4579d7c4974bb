// patch_prometheus_gpu of deploy.sh: rewrite the target inside the gpu job of
// prometheus.yml, or append such a job when there is none.
module GpuTarget {
  import opened Manifests
  import opened Patterns

  const OPEN := "job_name: \"gpu\""
  const CLOSE := "targets:"
  const GPU := Pattern("- targets: [\"", ":9835\"]")

  ghost predicate HasJob(lines: seq<string>) {
    exists k :: 0 <= k < |lines| && Contains(lines[k], OPEN)
  }

  // The address range /OPEN/,/CLOSE/ of sed as a flag carried from line to line: a line that
  // opens the range is not itself tested for its end.
  function NextInRange(inRange: bool, line: string): bool {
    if inRange then !Contains(line, CLOSE) else Contains(line, OPEN)
  }

  // What the s command leaves of a line.
  function RangedLine(line: string, ip: string, inRange: bool): string {
    if inRange || Contains(line, OPEN) then Substitute(GPU, line, ip) else line
  }

  function Ranged(lines: seq<string>, ip: string, inRange: bool): seq<string> {
    if lines == [] then []
    else [RangedLine(lines[0], ip, inRange)] + Ranged(lines[1..], ip, NextInRange(inRange, lines[0]))
  }

  // The flag after all of `lines`.
  function RangeFlag(lines: seq<string>, inRange: bool): bool {
    if lines == [] then inRange else RangeFlag(lines[1..], NextInRange(inRange, lines[0]))
  }

  function Job(ip: string): seq<string> {
    ["  - job_name: \"gpu\"", "    static_configs:", "      - targets: [\"" + ip + ":9835\"]"]
  }

  // The here-document starts with an empty line; it completes an unterminated last line.
  // An empty file counts as terminated.
  function Appended(t: Text, ip: string): Text {
    Text((if t.terminated then t.lines + [""] else t.lines) + Job(ip), true)
  }

  ghost function GpuPatched(t: Text, ip: string): Text {
    if ip == "" then t
    else if HasJob(t.lines) then t.(lines := Ranged(t.lines, ip, false))
    else Appended(t, ip)
  }

  lemma {:induction false} FlagConcat(a: seq<string>, b: seq<string>, inRange: bool)
    ensures RangeFlag(a + b, inRange) == RangeFlag(b, RangeFlag(a, inRange))
  {
    if a == [] {
      assert a + b == b;
    } else {
      assert (a + b)[1..] == a[1..] + b;
      FlagConcat(a[1..], b, NextInRange(inRange, a[0]));
    }
  }

  lemma ConsConcat(x: string, a: seq<string>, b: seq<string>)
    ensures [x] + (a + b) == ([x] + a) + b
  {
  }

  lemma {:induction false} RangedConcat(a: seq<string>, b: seq<string>, ip: string, inRange: bool)
    ensures Ranged(a + b, ip, inRange) == Ranged(a, ip, inRange) + Ranged(b, ip, RangeFlag(a, inRange))
  {
    if a == [] {
      assert a + b == b;
    } else {
      var next := NextInRange(inRange, a[0]);
      assert (a + b)[1..] == a[1..] + b;
      RangedConcat(a[1..], b, ip, next);
      ConsConcat(RangedLine(a[0], ip, inRange), Ranged(a[1..], ip, next), Ranged(b, ip, RangeFlag(a, inRange)));
    }
  }

  // `present` is false when prometheus.yml is missing.
  method PatchPrometheusGpu(file: Manifest, present: bool, wslIp: string)
    requires IsDetected(wslIp)
    modifies file
    ensures file.View() == if present then GpuPatched(old(file.View()), wslIp) else old(file.View())
  {
    if wslIp == "" || !present {
      return;
    }
    var input := file.lines;
    if exists k :: 0 <= k < |input| && Contains(input[k], OPEN) {
      var output: seq<string> := [];
      var inRange := false;
      for i := 0 to |input|
        invariant file.View() == old(file.View())
        invariant output == Ranged(input[..i], wslIp, false)
        invariant inRange == RangeFlag(input[..i], false)
      {
        var line := input[i];
        assert input[..i + 1] == input[..i] + [line];
        RangedConcat(input[..i], [line], wslIp, false);
        FlagConcat(input[..i], [line], false);
        if inRange {
          output := output + [Substitute(GPU, line, wslIp)];
          inRange := !Contains(line, CLOSE);
        } else if Contains(line, OPEN) {
          output := output + [Substitute(GPU, line, wslIp)];
          inRange := true;
        } else {
          output := output + [line];
        }
      }
      assert input[..|input|] == input;
      file.lines := output;
    } else {
      if file.terminated {
        file.lines := file.lines + [""];
      }
      file.lines := file.lines + Job(wslIp);
      file.terminated := true;
    }
  }

  // ---------------------------------------------------------------------------------------
  // What one substitution does to the two range tests
  // ---------------------------------------------------------------------------------------

  // The text that opens the range survives a substitution of the line.
  predicate KeepsOpener(s: string) {
    match Find(GPU, s)
    case None => Contains(s, OPEN)
    case Some(m) => Contains(s[..m.start], OPEN) || Contains(s[m.end..], OPEN)
  }

  // OPEN neither contains the first character of GPU.head nor starts inside a target.
  lemma OpenerChars(ip: string)
    requires IsAddress(ip)
    ensures OPEN != "" && GPU.head != "" && GPU.head[0] !in OPEN
    ensures OPEN[0] !in GPU.head && OPEN[0] !in ip && OPEN[0] !in GPU.tail
  {
    assert GPU.head[0] == '-' && '-' !in OPEN;
    assert OPEN[0] == 'j' && 'j' !in GPU.head && 'j' !in ip && 'j' !in GPU.tail;
  }

  lemma OpenerAfter(s: string, ip: string)
    requires IsAddress(ip)
    ensures Contains(Substitute(GPU, s, ip), OPEN) == KeepsOpener(s)
    ensures KeepsOpener(s) ==> Contains(s, OPEN)
  {
    if Find(GPU, s).Some? {
      OpenerChars(ip);
      ContainsAfter(GPU, s, ip, OPEN);
    }
  }

  lemma CloserAfter(s: string, ip: string)
    ensures Contains(Substitute(GPU, s, ip), CLOSE) == Contains(s, CLOSE)
  {
    if Find(GPU, s).Some? {
      var i := Find(GPU, s).value.start;
      RewrittenText(GPU, s, ip);
      HeadCloses(s, i);
      HeadCloses(Substitute(GPU, s, ip), i);
    }
  }

  lemma HeadCloses(s: string, i: int)
    requires OccursAt(GPU.head, s, i)
    ensures Contains(s, CLOSE)
  {
    assert s[i + 2..i + 2 + |CLOSE|] == s[i..i + |GPU.head|][2..2 + |CLOSE|];
    assert GPU.head[2..2 + |CLOSE|] == CLOSE;
    assert OccursAt(CLOSE, s, i + 2);
  }

  // ---------------------------------------------------------------------------------------
  // Files that already have a gpu job
  // ---------------------------------------------------------------------------------------

  // Every line that opens the range still opens it after its own substitution. A caller can
  // check this before the run; it does not mention any address.
  predicate KeepsOpeners(lines: seq<string>, inRange: bool) {
    lines == []
    || ((!inRange && Contains(lines[0], OPEN) ==> KeepsOpener(lines[0]))
        && KeepsOpeners(lines[1..], NextInRange(inRange, lines[0])))
  }

  // A simple sufficient condition: no line both opens and closes the range.
  lemma {:induction false} SeparateLinesKeepOpeners(lines: seq<string>, inRange: bool)
    requires forall k :: 0 <= k < |lines| ==> !(Contains(lines[k], OPEN) && Contains(lines[k], CLOSE))
    ensures KeepsOpeners(lines, inRange)
  {
    if lines != [] {
      if Contains(lines[0], OPEN) && Find(GPU, lines[0]).Some? {
        HeadCloses(lines[0], Find(GPU, lines[0]).value.start);
      }
      SeparateLinesKeepOpeners(lines[1..], NextInRange(inRange, lines[0]));
    }
  }

  lemma RewrittenLine(s: string, ip: string, inRange: bool)
    requires IsAddress(ip) && (inRange || Contains(s, OPEN))
    ensures var s' := Substitute(GPU, s, ip);
            && (KeepsOpener(s') == KeepsOpener(s))
            && (inRange || KeepsOpener(s) ==> NextInRange(inRange, s') == NextInRange(inRange, s))
  {
    var s' := Substitute(GPU, s, ip);
    OpenerAfter(s, ip);
    OpenerAfter(s', ip);
    SubstituteTwice(GPU, s, ip, ip);
    CloserAfter(s, ip);
  }

  lemma {:induction false} RangedTwice(lines: seq<string>, a: string, b: string, inRange: bool)
    requires IsAddress(a) && KeepsOpeners(lines, inRange)
    ensures Ranged(Ranged(lines, a, inRange), b, inRange) == Ranged(lines, b, inRange)
    ensures KeepsOpeners(Ranged(lines, a, inRange), inRange)
  {
    if lines != [] {
      var s := lines[0];
      RangedTwice(lines[1..], a, b, NextInRange(inRange, s));
      assert Ranged(lines, a, inRange)[1..] == Ranged(lines[1..], a, NextInRange(inRange, s));
      if inRange || Contains(s, OPEN) {
        RewrittenLine(s, a, inRange);
        OpenerAfter(s, a);
        SubstituteTwice(GPU, s, a, b);
      }
    }
  }

  // Where an opening line loses its text, the second run no longer rewrites that line.
  lemma {:induction false} LostOpenerShows(lines: seq<string>, a: string, b: string, inRange: bool)
    requires IsAddress(a) && |a| == |b| && a != b && !KeepsOpeners(lines, inRange)
    ensures Ranged(Ranged(lines, a, inRange), b, inRange) != Ranged(lines, b, inRange)
  {
    var s := lines[0];
    var twice := Ranged(Ranged(lines, a, inRange), b, inRange);
    assert Ranged(lines, a, inRange)[1..] == Ranged(lines[1..], a, NextInRange(inRange, s));
    if !inRange && Contains(s, OPEN) && !KeepsOpener(s) {
      OpenerAfter(s, a);
      SubstituteInjective(GPU, s, a, b);
      assert twice[0] == Substitute(GPU, s, a);
    } else {
      if inRange || Contains(s, OPEN) {
        RewrittenLine(s, a, inRange);
      }
      LostOpenerShows(lines[1..], a, b, NextInRange(inRange, s));
      assert twice[1..] == Ranged(Ranged(lines[1..], a, NextInRange(inRange, s)), b, NextInRange(inRange, s));
    }
  }

  lemma {:induction false} RangedLength(lines: seq<string>, ip: string, inRange: bool)
    ensures |Ranged(lines, ip, inRange)| == |lines|
  {
    if lines != [] {
      RangedLength(lines[1..], ip, NextInRange(inRange, lines[0]));
    }
  }

  lemma {:induction false} JobSurvives(lines: seq<string>, ip: string)
    requires IsAddress(ip) && HasJob(lines) && KeepsOpeners(lines, false)
    ensures HasJob(Ranged(lines, ip, false))
  {
    var out := Ranged(lines, ip, false);
    HasJobSplit(lines);
    HasJobSplit(out);
    if Contains(lines[0], OPEN) {
      OpenerAfter(lines[0], ip);
    } else {
      JobSurvives(lines[1..], ip);
    }
  }

  // No line strictly between o and k closes the range.
  ghost predicate StaysOpen(lines: seq<string>, o: int, k: int)
    requires 0 <= o && k <= |lines|
  {
    forall m :: o < m < k ==> !Contains(lines[m], CLOSE)
  }

  // The definition of a range in the POSIX description of sed: it starts at a line that
  // opens it and does not lie in an earlier range, and extends through the next line that
  // closes it.
  ghost predicate Starts(lines: seq<string>, o: nat)
    requires o < |lines|
    decreases o
  {
    Contains(lines[o], OPEN) && !exists p: nat :: p < o && Starts(lines, p) && StaysOpen(lines, p, o)
  }

  ghost predicate InAddressRange(lines: seq<string>, k: nat)
    requires k < |lines|
  {
    exists o: nat :: o <= k && Starts(lines, o) && StaysOpen(lines, o, k)
  }

  // Exactly the lines of these ranges are rewritten, and every other line stays as it is.
  lemma RangedMeaning(lines: seq<string>, ip: string, k: nat)
    requires k < |lines|
    ensures |Ranged(lines, ip, false)| == |lines|
    ensures Ranged(lines, ip, false)[k]
         == if InAddressRange(lines, k) then Substitute(GPU, lines[k], ip) else lines[k]
  {
    var before, line, after := lines[..k], lines[k], lines[k + 1..];
    assert lines == before + ([line] + after);
    RangedLength(lines, ip, false);
    RangedConcat(before, [line] + after, ip, false);
    RangedLength(before, ip, false);
    assert Ranged(lines, ip, false)[k] == Ranged([line] + after, ip, RangeFlag(before, false))[0];
    FlagMeaning(lines, k);
    RangeMembership(lines, k);
  }

  ghost predicate OpenBefore(lines: seq<string>, k: nat)
    requires k <= |lines|
  {
    exists o: nat :: o < k && Starts(lines, o) && StaysOpen(lines, o, k)
  }

  lemma RangeMembership(lines: seq<string>, k: nat)
    requires k < |lines|
    ensures InAddressRange(lines, k) <==> OpenBefore(lines, k) || Contains(lines[k], OPEN)
  {
    if !OpenBefore(lines, k) && Contains(lines[k], OPEN) {
      assert Starts(lines, k) && StaysOpen(lines, k, k);
    }
  }

  // The flag carried to line k says whether a range is open there.
  lemma {:induction false} FlagMeaning(lines: seq<string>, k: nat)
    requires k <= |lines|
    ensures RangeFlag(lines[..k], false) <==> OpenBefore(lines, k)
  {
    if k > 0 {
      var j := k - 1;
      FlagMeaning(lines, j);
      assert lines[..k] == lines[..j] + [lines[j]];
      FlagConcat(lines[..j], [lines[j]], false);
      assert RangeFlag(lines[..k], false) == NextInRange(OpenBefore(lines, j), lines[j]);
      OpenStep(lines, j);
    }
  }

  lemma OpenStep(lines: seq<string>, j: nat)
    requires j < |lines|
    ensures OpenBefore(lines, j + 1) <==> NextInRange(OpenBefore(lines, j), lines[j])
  {
    if OpenBefore(lines, j) {
      var o: nat :| o < j && Starts(lines, o) && StaysOpen(lines, o, j);
      assert !Starts(lines, j);
      if !Contains(lines[j], CLOSE) {
        assert StaysOpen(lines, o, j + 1);
      }
    } else {
      if Contains(lines[j], OPEN) {
        assert Starts(lines, j) && StaysOpen(lines, j, j + 1);
      }
      forall o: nat | o < j && Starts(lines, o)
        ensures !StaysOpen(lines, o, j + 1)
      {
        assert !StaysOpen(lines, o, j);
      }
    }
  }

  // ---------------------------------------------------------------------------------------
  // Files without a gpu job
  // ---------------------------------------------------------------------------------------

  lemma FindContains(p: Pattern, s: string)
    ensures Find(p, s).Some? ==> Contains(s, p.head)
  {
    if Find(p, s).Some? {
      assert OccursAt(p.head, s, Find(p, s).value.start);
    }
  }

  lemma NoTarget(s: string)
    requires '[' !in s
    ensures Find(GPU, s).None?
  {
    assert GPU.head[11] == '[';
    LacksChar(s, GPU.head, 11);
    FindContains(GPU, s);
  }

  lemma HasJobSplit(lines: seq<string>)
    requires lines != []
    ensures HasJob(lines) <==> Contains(lines[0], OPEN) || HasJob(lines[1..])
  {
    if Contains(lines[0], OPEN) {
      assert HasJob(lines);
    } else if HasJob(lines) {
      var k :| 0 <= k < |lines| && Contains(lines[k], OPEN);
      assert Contains(lines[1..][k - 1], OPEN);
    }
    assert forall k :: 0 <= k < |lines[1..]| ==> lines[1..][k] == lines[k + 1];
  }

  lemma {:induction false} RangedWithoutJob(lines: seq<string>, ip: string)
    requires !HasJob(lines)
    ensures Ranged(lines, ip, false) == lines && !RangeFlag(lines, false)
  {
    if lines != [] {
      HasJobSplit(lines);
      RangedWithoutJob(lines[1..], ip);
    }
  }

  const TITLE := "  - job_name: \"gpu\""
  const STATIC := "    static_configs:"
  const INDENT := "      "

  function Target(ip: string): string {
    INDENT + "- targets: [\"" + ip + ":9835\"]"
  }

  lemma TitleLine()
    ensures Contains(TITLE, OPEN) && KeepsOpener(TITLE) && Find(GPU, TITLE).None?
  {
    assert TITLE[4..4 + |OPEN|] == OPEN;
    assert OccursAt(OPEN, TITLE, 4);
    NoTarget(TITLE);
  }

  lemma StaticLine()
    ensures !Contains(STATIC, OPEN) && !Contains(STATIC, CLOSE) && Find(GPU, STATIC).None?
  {
    assert OPEN[0] == 'j' && CLOSE[2] == 'r';
    LacksChar(STATIC, OPEN, 0);
    LacksChar(STATIC, CLOSE, 2);
    NoTarget(STATIC);
  }

  lemma TargetLine(ip: string)
    requires IsAddress(ip)
    ensures Job(ip) == [TITLE, STATIC, Target(ip)] && !Contains(Target(ip), OPEN)
  {
    assert "      - targets: [\"" == INDENT + "- targets: [\"";
    assert Job(ip)[2] == Target(ip);
    assert OPEN[0] == 'j';
    assert 'j' !in INDENT && 'j' !in "- targets: [\"" && 'j' !in ip && 'j' !in ":9835\"]";
    LacksChar(Target(ip), OPEN, 0);
  }

  lemma JobLines(ip: string)
    requires IsAddress(ip)
    ensures Job(ip) == [TITLE, STATIC, Target(ip)]
    ensures Contains(TITLE, OPEN) && KeepsOpener(TITLE) && Find(GPU, TITLE).None?
    ensures !Contains(STATIC, OPEN) && !Contains(STATIC, CLOSE) && Find(GPU, STATIC).None?
    ensures !Contains(Target(ip), OPEN)
  {
    TitleLine();
    StaticLine();
    TargetLine(ip);
  }

  lemma TargetRewritten(a: string, b: string)
    ensures Substitute(GPU, Target(a), b) == Target(b)
  {
    assert Target(a) == INDENT + (GPU.head + a + GPU.tail);
    assert Target(b) == INDENT + (GPU.head + b + GPU.tail);
    assert GPU.head[0] == '-' && '-' !in INDENT;
    SubstituteIndented(GPU, INDENT, a, b);
  }

  lemma JobRewritten(a: string, b: string)
    requires IsAddress(a) && IsAddress(b)
    ensures Ranged(Job(a), b, false) == Job(b) && KeepsOpeners(Job(a), false)
  {
    JobLines(a);
    JobLines(b);
    TargetRewritten(a, b);
    var rest := [STATIC, Target(a)];
    assert Job(a)[1..] == rest && rest[1..] == [Target(a)] && [Target(a)][1..] == [];
    assert Ranged([Target(a)], b, true) == [Target(b)];
    assert Ranged(rest, b, true) == [STATIC] + [Target(b)];
    assert KeepsOpeners([], NextInRange(true, Target(a)));
    assert KeepsOpeners([Target(a)], true);
    assert KeepsOpeners(rest, true);
  }

  function Prefix(t: Text): seq<string> {
    if t.terminated then t.lines + [""] else t.lines
  }

  lemma PrefixHasNoJob(t: Text)
    requires !HasJob(t.lines)
    ensures !HasJob(Prefix(t))
  {
    LacksChar("", OPEN, 0);
    forall k | 0 <= k < |Prefix(t)|
      ensures !Contains(Prefix(t)[k], OPEN)
    {
      if k < |t.lines| {
        assert !Contains(t.lines[k], OPEN);
      }
    }
  }

  lemma {:induction false} KeepsConcat(a: seq<string>, b: seq<string>, inRange: bool)
    requires KeepsOpeners(a, inRange) && KeepsOpeners(b, RangeFlag(a, inRange))
    ensures KeepsOpeners(a + b, inRange)
  {
    if a == [] {
      assert a + b == b;
    } else {
      assert (a + b)[1..] == a[1..] + b;
      KeepsConcat(a[1..], b, NextInRange(inRange, a[0]));
    }
  }

  lemma {:induction false} NoJobKeeps(lines: seq<string>)
    requires !HasJob(lines)
    ensures KeepsOpeners(lines, false)
  {
    if lines != [] {
      HasJobSplit(lines);
      NoJobKeeps(lines[1..]);
    }
  }

  // From a file without a gpu job: the first run appends one, the next run rewrites it.
  lemma FreshJobRewritten(t: Text, a: string, b: string)
    requires !HasJob(t.lines) && IsAddress(a) && IsAddress(b)
    ensures HasJob(Appended(t, a).lines) && KeepsOpeners(Appended(t, a).lines, false)
    ensures GpuPatched(Appended(t, a), b) == Appended(t, b)
  {
    PrefixHasNoJob(t);
    var pre := Prefix(t);
    RangedWithoutJob(pre, b);
    RangedConcat(pre, Job(a), b, false);
    JobRewritten(a, b);
    JobLines(a);
    NoJobKeeps(pre);
    KeepsConcat(pre, Job(a), false);
    assert Contains(Appended(t, a).lines[|pre|], OPEN);
  }

  // The number of lines that name the gpu job.
  function JobCount(lines: seq<string>): nat {
    if lines == [] then 0 else (if Contains(lines[0], OPEN) then 1 else 0) + JobCount(lines[1..])
  }

  lemma {:induction false} JobCountConcat(a: seq<string>, b: seq<string>)
    ensures JobCount(a + b) == JobCount(a) + JobCount(b)
  {
    if a == [] {
      assert a + b == b;
    } else {
      assert (a + b)[1..] == a[1..] + b;
      JobCountConcat(a[1..], b);
    }
  }

  lemma {:induction false} NoJobCount(lines: seq<string>)
    ensures JobCount(lines) == 0 <==> !HasJob(lines)
  {
    if lines != [] {
      HasJobSplit(lines);
      NoJobCount(lines[1..]);
    }
  }

  lemma AppendedHasOneJob(t: Text, ip: string)
    requires !HasJob(t.lines) && IsAddress(ip)
    ensures JobCount(Appended(t, ip).lines) == 1
  {
    PrefixHasNoJob(t);
    NoJobCount(Prefix(t));
    JobCountConcat(Prefix(t), Job(ip));
    JobLines(ip);
    var rest := [STATIC, Target(ip)];
    assert Job(ip)[1..] == rest && rest[1..] == [Target(ip)] && [Target(ip)][1..] == [];
    assert JobCount([Target(ip)]) == 0;
    assert JobCount(rest) == 0;
  }

  lemma {:induction false} RangedJobCount(lines: seq<string>, ip: string, inRange: bool)
    requires IsAddress(ip)
    ensures JobCount(Ranged(lines, ip, inRange)) <= JobCount(lines)
  {
    if lines != [] {
      OpenerAfter(lines[0], ip);
      RangedJobCount(lines[1..], ip, NextInRange(inRange, lines[0]));
      assert Ranged(lines, ip, inRange)[1..] == Ranged(lines[1..], ip, NextInRange(inRange, lines[0]));
    }
  }

  // A run never adds a second job: it appends the only one, or keeps the lines it has.
  lemma NeverASecondJob(t: Text, ip: string)
    requires IsAddress(ip)
    ensures HasJob(t.lines) ==>
              JobCount(GpuPatched(t, ip).lines) <= JobCount(t.lines) && |GpuPatched(t, ip).lines| == |t.lines|
    ensures !HasJob(t.lines) ==>
              JobCount(GpuPatched(t, ip).lines) == 1 && t.lines <= GpuPatched(t, ip).lines
  {
    if HasJob(t.lines) {
      RangedJobCount(t.lines, ip, false);
      RangedLength(t.lines, ip, false);
    } else {
      AppendedHasOneJob(t, ip);
    }
  }

  // ---------------------------------------------------------------------------------------
  // Last address wins, across both branches
  // ---------------------------------------------------------------------------------------

  ghost function Redeployed(t: Text, ips: seq<string>): Text
    decreases |ips|
  {
    if ips == [] then t else Redeployed(GpuPatched(t, ips[0]), ips[1..])
  }

  ghost predicate Repeatable(t: Text) {
    HasJob(t.lines) ==> KeepsOpeners(t.lines, false)
  }

  lemma PatchTwice(t: Text, a: string, b: string)
    requires IsAddress(a) && IsAddress(b) && Repeatable(t)
    ensures GpuPatched(GpuPatched(t, a), b) == GpuPatched(t, b)
    ensures Repeatable(GpuPatched(t, a))
  {
    if HasJob(t.lines) {
      RangedTwice(t.lines, a, b, false);
      JobSurvives(t.lines, a);
    } else {
      FreshJobRewritten(t, a, b);
    }
  }

  lemma {:induction false} RepeatableLastWins(t: Text, ips: seq<string>)
    requires Repeatable(t) && forall ip :: ip in ips ==> IsDetected(ip)
    ensures Redeployed(t, ips) == GpuPatched(t, LastDetected(ips))
    decreases |ips|
  {
    if ips != [] {
      var a, last := ips[0], LastDetected(ips[1..]);
      assert a in ips;
      LastDetectedIsDetected(ips[1..]);
      if a != "" {
        PatchTwice(t, a, a);
      }
      RepeatableLastWins(GpuPatched(t, a), ips[1..]);
      if a != "" && last != "" {
        PatchTwice(t, a, last);
      }
    }
  }

  lemma {:induction false} LastDetectedIsDetected(ips: seq<string>)
    requires forall ip :: ip in ips ==> IsDetected(ip)
    ensures IsDetected(LastDetected(ips))
  {
    if ips != [] {
      LastDetectedIsDetected(ips[1..]);
    }
  }

  const FIRST := "1.1.1.1"
  const SECOND := "2.2.2.2"

  lemma UnrepeatableShows(t: Text)
    requires !Repeatable(t)
    ensures Redeployed(t, [FIRST, SECOND]) != GpuPatched(t, LastDetected([FIRST, SECOND]))
  {
    var ips := [FIRST, SECOND];
    assert FIRST[0] != SECOND[0];
    assert ips[1..] == [SECOND] && [SECOND][1..] == [];
    assert LastDetected([SECOND]) == SECOND;
    var once := GpuPatched(t, FIRST);
    assert Redeployed(t, ips) == Redeployed(once, [SECOND]) == GpuPatched(once, SECOND);
    LostOpenerShows(t.lines, FIRST, SECOND, false);
    RangedLength(t.lines, FIRST, false);
    RangedLength(t.lines, SECOND, false);
  }

  // The patch may be re-run with any history of detected addresses, and the last one wins,
  // exactly when every line that opens the range survives its own substitution. In
  // particular a file without a gpu job ends with exactly one job holding the last address.
  lemma LastAddressWins(t: Text)
    ensures (forall ips: seq<string> :: (forall ip :: ip in ips ==> IsDetected(ip)) ==>
              Redeployed(t, ips) == GpuPatched(t, LastDetected(ips)))
       <==> (HasJob(t.lines) ==> KeepsOpeners(t.lines, false))
  {
    if Repeatable(t) {
      forall ips: seq<string> | forall ip :: ip in ips ==> IsDetected(ip)
        ensures Redeployed(t, ips) == GpuPatched(t, LastDetected(ips))
      {
        RepeatableLastWins(t, ips);
      }
    } else {
      UnrepeatableShows(t);
      var ips := [FIRST, SECOND];
      assert forall ip :: ip in ips ==> IsDetected(ip);
    }
  }

  // A file for which it fails: the only line that opens the range does so inside its own
  // target. The first run removes that text, and the second appends a job.
  lemma LostOpener()
    ensures var t := Text([GPU.head + OPEN + GPU.tail], true);
            && HasJob(t.lines) && !KeepsOpeners(t.lines, false)
            && Redeployed(t, [FIRST, SECOND]) != GpuPatched(t, SECOND)
  {
    var line := GPU.head + OPEN + GPU.tail;
    var t := Text([line], true);
    assert line[|GPU.head|..|GPU.head| + |OPEN|] == OPEN;
    assert OccursAt(OPEN, line, |GPU.head|);
    assert t.lines[0] == line && Contains(t.lines[0], OPEN);
    assert line == "" + (GPU.head + OPEN + GPU.tail);
    SpanOfTarget(GPU, OPEN);
    LacksChar("", OPEN, 0);
    assert line[..0] == "" && line[|line|..] == "";
    assert !KeepsOpener(line);
    UnrepeatableShows(t);
    assert [FIRST, SECOND][1..] == [SECOND] && LastDetected([SECOND]) == SECOND;
  }

  const OTHER_JOBS := ["scrape_configs:", "  - job_name: \"go-ai-gateway\"", "    static_configs:",
                       "      - targets: [\"host.docker.internal:8080\"]"]

  lemma OtherJobsAreOther()
    ensures !HasJob(OTHER_JOBS)
  {
    assert OPEN[13] == 'u';
    forall k | 0 <= k < |OTHER_JOBS|
      ensures !Contains(OTHER_JOBS[k], OPEN)
    {
      assert 'u' !in OTHER_JOBS[k];
      LacksChar(OTHER_JOBS[k], OPEN, 13);
    }
  }

  function WithGpuJob(ip: string): Text {
    Text(OTHER_JOBS + [""]
         + ["  - job_name: \"gpu\"", "    static_configs:", "      - targets: [\"" + ip + ":9835\"]"], true)
  }

  // A configuration with other jobs only gets the gpu job after an empty line; with the job,
  // only the address changes. The empty line completes an unterminated last one.
  lemma GpuJobAtLiterals(a: string, b: string)
    requires IsAddress(a) && IsAddress(b)
    ensures GpuPatched(Text(OTHER_JOBS, true), a) == WithGpuJob(a)
    ensures GpuPatched(WithGpuJob(a), b) == WithGpuJob(b)
    ensures GpuPatched(Text(OTHER_JOBS, false), a)
         == Text(OTHER_JOBS
                 + ["  - job_name: \"gpu\"", "    static_configs:", "      - targets: [\"" + a + ":9835\"]"], true)
  {
    OtherJobsAreOther();
    FreshJobRewritten(Text(OTHER_JOBS, true), a, b);
  }

  const REMARK := "    # its targets"

  lemma RemarkKeepsRange()
    ensures !Contains(REMARK, OPEN) && !Contains(REMARK, CLOSE) && Find(GPU, REMARK).None?
  {
    assert OPEN[0] == 'j' && CLOSE[7] == ':';
    LacksChar(REMARK, OPEN, 0);
    LacksChar(REMARK, CLOSE, 7);
    NoTarget(REMARK);
  }

  // Only a line with the word and its colon closes the range, and a target behind it stays.
  lemma RangeAtLiterals(a: string, b: string)
    requires IsAddress(a) && IsAddress(b)
    ensures Ranged([TITLE, REMARK, STATIC, Target(a), Target(a)], b, false)
         == [TITLE, REMARK, STATIC, Target(b), Target(a)]
  {
    JobLines(a);
    RemarkKeepsRange();
    TargetRewritten(a, b);
    TargetCloses(a);
    var t := Target(a);
    assert Ranged([t], b, false) == [t];
    assert [t, t][1..] == [t];
    assert Ranged([t, t], b, true) == [Target(b)] + [t];
    assert [STATIC, t, t][1..] == [t, t];
    assert Ranged([STATIC, t, t], b, true) == [STATIC] + [Target(b), t];
    assert [REMARK, STATIC, t, t][1..] == [STATIC, t, t];
    assert Ranged([REMARK, STATIC, t, t], b, true) == [REMARK] + [STATIC, Target(b), t];
    assert [TITLE, REMARK, STATIC, t, t][1..] == [REMARK, STATIC, t, t];
  }

  lemma TargetCloses(a: string)
    ensures Contains(Target(a), CLOSE)
  {
    var rest := a + ":9835\"]";
    assert "- targets: [\""[2..10] == CLOSE;
    assert OccursAt(CLOSE, "- targets: [\"", 2);
    ContainsRight(INDENT, "- targets: [\"", CLOSE);
    ContainsLeft(INDENT + "- targets: [\"", rest, CLOSE);
    assert Target(a) == INDENT + "- targets: [\"" + rest;
  }
}
