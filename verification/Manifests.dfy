// The manifest patchers of deploy.sh: patch_ollama_svc, patch_prometheus_gpu and
// patch_jaeger_endpoint. Each looks up the WSL address (an empty string when none is
// detected) and rewrites a tracked file in place.
module Manifests {
  import opened Patterns

  // A text file as sed sees it: its lines, and whether the last one ends with a newline.
  datatype Text = Text(lines: seq<string>, terminated: bool)

  class Manifest {
    var lines: seq<string>
    var terminated: bool

    constructor (lines: seq<string>, terminated: bool)
      ensures View() == Text(lines, terminated)
    {
      this.lines, this.terminated := lines, terminated;
    }

    function View(): Text
      reads this
    {
      Text(lines, terminated)
    }
  }

  // What `ip addr show eth0 | ... | cut -d/ -f1` prints for an IPv4 interface: no character
  // of it is special in the replacement of an s command.
  predicate IsAddress(ip: string) {
    ip != "" && forall c | c in ip :: c == '.' || '0' <= c <= '9'
  }

  predicate IsDetected(ip: string) {
    ip == "" || IsAddress(ip)
  }

  // ---------------------------------------------------------------------------------------
  // Unconditional rewriting: the Jaeger endpoint and the Ollama endpoint
  // ---------------------------------------------------------------------------------------

  // s|head.*tail|head<lead><address>tail| on every line.
  datatype Patch = Patch(pattern: Pattern, lead: string)

  const JAEGER := Patch(Pattern("value: \"", ":4317\""), "")
  const OLLAMA := Patch(Pattern("- ip:", ""), " ")

  function Rewritten(p: Patch, lines: seq<string>, ip: string): seq<string> {
    if lines == [] then []
    else [Substitute(p.pattern, lines[0], p.lead + ip)] + Rewritten(p, lines[1..], ip)
  }

  lemma RewrittenSnoc(p: Patch, lines: seq<string>, line: string, ip: string)
    ensures Rewritten(p, lines + [line], ip)
         == Rewritten(p, lines, ip) + [Substitute(p.pattern, line, p.lead + ip)]
  {
    if lines != [] {
      assert (lines + [line])[1..] == lines[1..] + [line];
    }
  }

  method SedSubstitute(file: Manifest, p: Patch, ip: string)
    requires IsAddress(ip)
    modifies file
    ensures file.View() == Text(Rewritten(p, old(file.lines), ip), old(file.terminated))
  {
    var input := file.lines;
    var output: seq<string> := [];
    for i := 0 to |input|
      invariant file.terminated == old(file.terminated)
      invariant output == Rewritten(p, input[..i], ip)
    {
      assert input[..i + 1] == input[..i] + [input[i]];
      RewrittenSnoc(p, input[..i], input[i], ip);
      output := output + [Substitute(p.pattern, input[i], p.lead + ip)];
    }
    assert input[..|input|] == input;
    file.lines := output;
  }

  // One run of the script step: skipped when no address was detected.
  function Patched(p: Patch, lines: seq<string>, ip: string): seq<string> {
    if ip == "" then lines else Rewritten(p, lines, ip)
  }

  method PatchJaegerEndpoint(goGateway: Manifest, pythonAi: Manifest, wslIp: string)
    requires goGateway != pythonAi && IsDetected(wslIp)
    modifies goGateway, pythonAi
    ensures goGateway.View() == old(goGateway.View().(lines := Patched(JAEGER, goGateway.lines, wslIp)))
    ensures pythonAi.View() == old(pythonAi.View().(lines := Patched(JAEGER, pythonAi.lines, wslIp)))
  {
    if wslIp == "" {
      return;
    }
    SedSubstitute(goGateway, JAEGER, wslIp);
    SedSubstitute(pythonAi, JAEGER, wslIp);
  }

  method PatchOllamaSvc(ollamaSvc: Manifest, wslIp: string)
    requires IsDetected(wslIp)
    modifies ollamaSvc
    ensures ollamaSvc.View() == old(ollamaSvc.View().(lines := Patched(OLLAMA, ollamaSvc.lines, wslIp)))
  {
    if wslIp == "" {
      return;
    }
    SedSubstitute(ollamaSvc, OLLAMA, wslIp);
  }

  // Successive deployments, each with the address detected at its time.
  function Redeployed(p: Patch, lines: seq<string>, ips: seq<string>): seq<string>
    decreases |ips|
  {
    if ips == [] then lines else Redeployed(p, Patched(p, lines, ips[0]), ips[1..])
  }

  function LastDetected(ips: seq<string>): string {
    if ips == [] then ""
    else if LastDetected(ips[1..]) != "" then LastDetected(ips[1..])
    else ips[0]
  }

  lemma RewrittenTwice(p: Patch, lines: seq<string>, a: string, b: string)
    ensures Rewritten(p, Rewritten(p, lines, a), b) == Rewritten(p, lines, b)
  {
    if lines != [] {
      SubstituteTwice(p.pattern, lines[0], p.lead + a, p.lead + b);
      RewrittenTwice(p, lines[1..], a, b);
    }
  }

  // Last address wins: any history of deployments leaves the file that the last successful
  // detection alone would have left, whatever the file contains.
  lemma {:induction false} RedeployLastWins(p: Patch, lines: seq<string>, ips: seq<string>)
    ensures Redeployed(p, lines, ips) == Patched(p, lines, LastDetected(ips))
    decreases |ips|
  {
    if ips != [] {
      RedeployLastWins(p, Patched(p, lines, ips[0]), ips[1..]);
      if ips[0] != "" && LastDetected(ips[1..]) != "" {
        RewrittenTwice(p, lines, ips[0], LastDetected(ips[1..]));
      }
    }
  }

  // Line by line, a run changes nothing but the text between head and tail of a match.
  lemma {:induction false} RewrittenFrame(p: Patch, lines: seq<string>, ip: string, k: nat)
    requires k < |lines|
    ensures |Rewritten(p, lines, ip)| == |lines|
    ensures Find(p.pattern, lines[k]).None? ==> Rewritten(p, lines, ip)[k] == lines[k]
    ensures Find(p.pattern, lines[k]).Some? ==>
              var m := Find(p.pattern, lines[k]).value;
              && LeftmostLongest(p.pattern, lines[k], m.start, m.end)
              && Rewritten(p, lines, ip)[k]
                 == lines[k][..m.start] + p.pattern.head + p.lead + ip + p.pattern.tail + lines[k][m.end..]
  {
    if |lines| > 1 {
      RewrittenFrame(p, lines[1..], ip, if k == 0 then 0 else k - 1);
    }
    if k == 0 && Find(p.pattern, lines[0]).Some? {
      var m := Find(p.pattern, lines[0]).value;
      assert lines[0][..m.start] + p.pattern.head + (p.lead + ip) + p.pattern.tail + lines[0][m.end..]
          == lines[0][..m.start] + p.pattern.head + p.lead + ip + p.pattern.tail + lines[0][m.end..];
    }
  }

  // What becomes of the lines of the manifests: an endpoint in a value, at any indentation
  // and whatever it was before, and the address of the Ollama endpoint.
  lemma JaegerLine(indent: string, before: string, ip: string)
    requires 'v' !in indent
    ensures Rewritten(JAEGER, [indent + ("value: \"" + before + ":4317\"")], ip)
         == [indent + ("value: \"" + ip + ":4317\"")]
  {
    SubstituteIndented(JAEGER.pattern, indent, before, ip);
    assert "" + ip == ip;
  }

  lemma OllamaLine(indent: string, before: string, ip: string)
    requires '-' !in indent
    ensures Rewritten(OLLAMA, [indent + ("- ip:" + before)], ip) == [indent + ("- ip:" + " " + ip)]
  {
    SubstituteIndented(OLLAMA.pattern, indent, before, " " + ip);
    assert "- ip:" + before + "" == "- ip:" + before;
    assert "- ip:" + (" " + ip) + "" == "- ip:" + " " + ip;
  }

  const OLLAMA_HOST := "value: \"http://ollama-svc:11434\""

  lemma OllamaHostChars()
    ensures '7' !in OLLAMA_HOST
  {
  }

  // The other endpoint of python-ai.yaml stays.
  lemma OtherEndpointStays(ip: string)
    ensures Rewritten(JAEGER, [OLLAMA_HOST], ip) == [OLLAMA_HOST]
  {
    assert JAEGER.pattern.tail[4] == '7';
    OllamaHostChars();
    LacksChar(OLLAMA_HOST, JAEGER.pattern.tail, 4);
    forall i, j
      ensures !Matches(JAEGER.pattern, OLLAMA_HOST, i, j)
    {
      assert !OccursAt(JAEGER.pattern.tail, OLLAMA_HOST, j - |JAEGER.pattern.tail|);
    }
  }
}
