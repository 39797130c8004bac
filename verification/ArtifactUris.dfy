/** Joining artifact URIs, and the URIs of per-sample evaluation results. */
module ArtifactUris {

  function Rstrip(s: string): string {
    if s != "" && s[|s| - 1] == '/' then Rstrip(s[..|s| - 1]) else s
  }

  function Lstrip(s: string): string {
    if s != "" && s[0] == '/' then Lstrip(s[1..]) else s
  }

  function Strip(s: string): string {
    Rstrip(Lstrip(s))
  }

  /** The stripped parts that are not empty. */
  function Segments(parts: seq<string>): seq<string> {
    if parts == [] then []
    else (if Strip(parts[0]) == "" then [] else [Strip(parts[0])]) + Segments(parts[1..])
  }

  function Slashed(segments: seq<string>): string
    requires segments != []
  {
    if |segments| == 1 then segments[0] else segments[0] + "/" + Slashed(segments[1..])
  }

  function JoinUri(root: string, parts: seq<string>): string {
    var segments := Segments(parts);
    if segments == [] then Rstrip(root) else Slashed([Rstrip(root)] + segments)
  }

  // ---- joining in two steps ----

  lemma {:induction false} RstripEnds(s: string)
    ensures Rstrip(s) != "" ==> Rstrip(s)[|Rstrip(s)| - 1] != '/'
    ensures Rstrip(Rstrip(s)) == Rstrip(s)
  {
    if s != "" && s[|s| - 1] == '/' {
      RstripEnds(s[..|s| - 1]);
    }
  }

  lemma {:induction false} SlashedAppend(a: seq<string>, b: seq<string>)
    requires a != [] && b != []
    ensures Slashed(a + b) == Slashed([Slashed(a)] + b)
  {
    assert ([Slashed(a)] + b)[1..] == b;
    if |a| == 1 {
      assert a + b == [a[0]] + b;
    } else {
      assert (a + b)[1..] == a[1..] + b;
      SlashedAppend(a[1..], b);
      assert ([Slashed(a[1..])] + b)[1..] == b;
      assert Slashed(a + b) == a[0] + "/" + (Slashed(a[1..]) + "/" + Slashed(b));
    }
  }

  /** Joined segments end as their last segment does. */
  lemma {:induction false} SlashedEnds(segments: seq<string>)
    requires segments != [] && segments[|segments| - 1] != ""
    ensures Slashed(segments) != ""
    ensures
      var last := segments[|segments| - 1];
      Slashed(segments)[|Slashed(segments)| - 1] == last[|last| - 1]
  {
    if |segments| > 1 {
      SlashedEnds(segments[1..]);
    }
  }

  lemma {:induction false} SegmentsAppend(ps: seq<string>, qs: seq<string>)
    ensures Segments(ps + qs) == Segments(ps) + Segments(qs)
  {
    if ps == [] {
      assert ps + qs == qs;
    } else {
      assert (ps + qs)[1..] == ps[1..] + qs;
      SegmentsAppend(ps[1..], qs);
    }
  }

  lemma {:induction false} SegmentsEnd(parts: seq<string>)
    ensures forall i | 0 <= i < |Segments(parts)| ::
      Segments(parts)[i] != "" && Segments(parts)[i][|Segments(parts)[i]| - 1] != '/'
  {
    if parts != [] {
      SegmentsEnd(parts[1..]);
      RstripEnds(Lstrip(parts[0]));
    }
  }

  /** A joined URI never ends in a slash. */
  lemma JoinedIsStripped(root: string, parts: seq<string>)
    ensures Rstrip(JoinUri(root, parts)) == JoinUri(root, parts)
  {
    RstripEnds(root);
    SegmentsEnd(parts);
    if Segments(parts) != [] {
      SlashedEnds([Rstrip(root)] + Segments(parts));
    }
  }

  /** Joining in two steps is joining all the parts at once. */
  lemma JoinAssociates(root: string, ps: seq<string>, qs: seq<string>)
    ensures JoinUri(JoinUri(root, ps), qs) == JoinUri(root, ps + qs)
  {
    JoinedIsStripped(root, ps);
    SegmentsAppend(ps, qs);
    var a, b := Segments(ps), Segments(qs);
    if a == [] {
      RstripEnds(root);
      assert a + b == b;
    } else if b != [] {
      assert [Rstrip(root)] + (a + b) == ([Rstrip(root)] + a) + b;
      SlashedAppend([Rstrip(root)] + a, b);
    } else {
      assert a + b == a;
    }
  }

  // ---- evaluation results ----

  function EvaluationRunRoot(runsRoot: string, runId: string): string {
    JoinUri(runsRoot, ["evaluations", runId])
  }

  function EvaluationSamplesRoot(runsRoot: string, runId: string): string {
    JoinUri(EvaluationRunRoot(runsRoot, runId), ["samples"])
  }

  function SampleEvaluationUri(runsRoot: string, runId: string, sampleId: string): string {
    JoinUri(EvaluationSamplesRoot(runsRoot, runId), [sampleId + ".json"])
  }

  lemma SampleUriIsJoin(runsRoot: string, r: string, s: string)
    ensures SampleEvaluationUri(runsRoot, r, s) == JoinUri(runsRoot, ["evaluations", r, "samples", s + ".json"])
  {
    hide JoinUri;
    JoinAssociates(runsRoot, ["evaluations", r], ["samples"]);
    JoinAssociates(runsRoot, ["evaluations", r] + ["samples"], [s + ".json"]);
    assert ["evaluations", r] + ["samples"] + [s + ".json"] == ["evaluations", r, "samples", s + ".json"];
  }

  lemma {:induction false} StripFileName(s: string)
    ensures Strip(s + ".json") == Lstrip(s) + ".json"
  {
    if s != "" && s[0] == '/' {
      assert (s + ".json")[1..] == s[1..] + ".json";
      StripFileName(s[1..]);
    }
  }

  lemma StripPlain(s: string)
    requires '/' !in s
    ensures Strip(s) == s
  {
  }

  /** The run id as it appears in a path, with its slash; an id that strips to nothing
      leaves no trace. */
  function RunPart(r: string): string {
    if Strip(r) == "" then "" else Strip(r) + "/"
  }

  /** What follows the evaluations folder, up to the file's extension. */
  function SamplePath(r: string, s: string): string {
    RunPart(r) + "samples/" + Lstrip(s)
  }

  lemma SampleUriSegments(r: string, s: string)
    ensures Segments(["evaluations", r, "samples", s + ".json"]) ==
      ["evaluations"] + (if Strip(r) == "" then [] else [Strip(r)]) + ["samples", Lstrip(s) + ".json"]
  {
    hide Strip, Segments;
    StripPlain("evaluations");
    StripPlain("samples");
    StripFileName(s);
    var file := s + ".json";
    SegmentsStep("evaluations", [r, "samples", file]);
    SegmentsStep(r, ["samples", file]);
    SegmentsStep("samples", [file]);
    SegmentsStep(file, []);
    NoSegments();
    assert ["evaluations", r, "samples", file] == ["evaluations"] + [r, "samples", file];
    assert [r, "samples", file] == [r] + ["samples", file];
    assert ["samples", file] == ["samples"] + [file] && [file] == [file] + [];
    assert Segments([r, "samples", file]) ==
      (if Strip(r) == "" then [] else [Strip(r)]) + ["samples", Lstrip(s) + ".json"];
  }

  lemma SegmentsStep(part: string, rest: seq<string>)
    ensures Segments([part] + rest) == (if Strip(part) == "" then [] else [Strip(part)]) + Segments(rest)
  {
    assert ([part] + rest)[1..] == rest;
  }

  lemma NoSegments()
    ensures Segments([]) == []
  {
  }

  lemma SlashedBehind(root: string, segments: seq<string>)
    requires segments != []
    ensures Slashed([root] + segments) == root + "/" + Slashed(segments)
  {
    assert ([root] + segments)[1..] == segments;
  }

  lemma SlashedFile(file: string)
    ensures Slashed(["samples", file]) == "samples/" + file
  {
    SlashedBehind("samples", [file]);
    assert "samples" + "/" + file == "samples/" + file;
  }

  lemma SlashedTail(root: string, run: seq<string>, file: string)
    requires |run| <= 1
    ensures Slashed([root] + (["evaluations"] + run + ["samples", file])) ==
      root + "/" + ("evaluations/" + ((if run == [] then "" else run[0] + "/") + ("samples/" + file)))
  {
    hide Slashed;
    var tail := ["samples", file];
    SlashedFile(file);
    SlashedBehind(root, ["evaluations"] + run + tail);
    assert ["evaluations"] + run + tail == ["evaluations"] + (run + tail);
    SlashedBehind("evaluations", run + tail);
    assert "evaluations" + "/" + Slashed(run + tail) == "evaluations/" + Slashed(run + tail);
    if run == [] {
      assert run + tail == tail && "" + ("samples/" + file) == "samples/" + file;
    } else {
      assert run + tail == [run[0]] + tail;
      SlashedBehind(run[0], tail);
    }
  }

  /** The URI of a sample's result, written out for all strings. */
  lemma SampleUriIsPath(runsRoot: string, r: string, s: string)
    ensures SampleEvaluationUri(runsRoot, r, s) == Rstrip(runsRoot) + "/evaluations/" + SamplePath(r, s) + ".json"
  {
    hide Strip, Rstrip, Lstrip, Segments, Slashed, SampleEvaluationUri, JoinUri;
    var run := if Strip(r) == "" then [] else [Strip(r)];
    var file := Lstrip(s) + ".json";
    SampleUriIsJoin(runsRoot, r, s);
    SampleUriSegments(r, s);
    JoinOfSegments(runsRoot, ["evaluations", r, "samples", s + ".json"]);
    SlashedTail(Rstrip(runsRoot), run, file);
    assert Rstrip(runsRoot) + "/" + ("evaluations/" + (RunPart(r) + ("samples/" + file))) ==
      Rstrip(runsRoot) + "/evaluations/" + SamplePath(r, s) + ".json";
  }

  lemma JoinOfSegments(root: string, parts: seq<string>)
    ensures Segments(parts) != [] ==> JoinUri(root, parts) == Slashed([Rstrip(root)] + Segments(parts))
  {
  }

  /** Two results share a URI exactly when their run and sample ids, put together, read
      the same. */
  lemma SampleUrisCollideIff(runsRoot: string, r: string, s: string, r': string, s': string)
    ensures SampleEvaluationUri(runsRoot, r, s) == SampleEvaluationUri(runsRoot, r', s') <==>
      SamplePath(r, s) == SamplePath(r', s')
  {
    hide SamplePath, Rstrip, SampleEvaluationUri;
    SampleUriIsPath(runsRoot, r, s);
    SampleUriIsPath(runsRoot, r', s');
    Cancel(Rstrip(runsRoot) + "/evaluations/", SamplePath(r, s), SamplePath(r', s'), ".json");
  }

  lemma Cancel(front: string, a: string, b: string, back: string)
    ensures front + a + back == front + b + back <==> a == b
  {
    if front + a + back == front + b + back {
      assert |a| == |b|;
      assert a == (front + a + back)[|front|..|front| + |a|];
      assert b == (front + b + back)[|front|..|front| + |b|];
    }
  }

  /** Within one run, whatever its id, two samples share a URI exactly when their ids
      differ in leading slashes only. */
  lemma SampleUrisOfOneRun(runsRoot: string, r: string, s: string, s': string)
    ensures SampleEvaluationUri(runsRoot, r, s) == SampleEvaluationUri(runsRoot, r, s') <==> Lstrip(s) == Lstrip(s')
  {
    hide SampleEvaluationUri, Lstrip, RunPart;
    SampleUrisCollideIff(runsRoot, r, s, r, s');
    var front := RunPart(r) + "samples/";
    Cancel(front, Lstrip(s), Lstrip(s'), "");
    assert front + Lstrip(s) + "" == SamplePath(r, s) && front + Lstrip(s') + "" == SamplePath(r, s');
  }

  lemma FirstSlash(a: string, x: string, b: string, y: string)
    requires '/' !in a && '/' !in b && a + "/" + x == b + "/" + y
    ensures a == b && x == y
  {
    var s := a + "/" + x;
    assert s[|a|] == '/' && s[|b|] == '/';
    assert forall i | 0 <= i < |a| :: s[i] == a[i] && a[i] != '/';
    assert forall i | 0 <= i < |b| :: s[i] == b[i] && b[i] != '/';
    assert |a| == |b|;
    assert a == s[..|a|] == b;
    assert x == s[|a| + 1..] == y;
  }

  /** A result of the run without an id that lands in the run called "samples". */
  predicate Mistaken(r: string, s: string, r': string, s': string) {
    r == "" && r' == "samples" && Lstrip(s) == "samples/" + Lstrip(s')
  }

  /** Across runs whose ids hold no slash, two samples share a URI exactly when run and
      sample are the same, but for leading slashes of the sample id; an empty run id
      can be mistaken for the run called "samples", and for no other. */
  lemma SampleUrisAcrossRuns(runsRoot: string, r: string, s: string, r': string, s': string)
    requires '/' !in r && '/' !in r'
    ensures SampleEvaluationUri(runsRoot, r, s) == SampleEvaluationUri(runsRoot, r', s') <==>
      || (r == r' && Lstrip(s) == Lstrip(s'))
      || Mistaken(r, s, r', s')
      || Mistaken(r', s', r, s)
  {
    hide SampleEvaluationUri, Lstrip, Strip;
    SampleUrisCollideIff(runsRoot, r, s, r', s');
    PlainPath(r, s);
    PlainPath(r', s');
    if SamplePath(r, s) == SamplePath(r', s') {
      FirstSlash(FirstOf(r), RestOf(r, s), FirstOf(r'), RestOf(r', s'));
      if r != "" && r' != "" {
        Cancel("samples/", Lstrip(s), Lstrip(s'), "");
        assert "samples/" + Lstrip(s) + "" == RestOf(r, s) && "samples/" + Lstrip(s') + "" == RestOf(r', s');
      }
    }
  }

  /** The first folder of a path whose run id holds no slash, and what follows it. */
  function FirstOf(r: string): string {
    if r == "" then "samples" else r
  }

  function RestOf(r: string, s: string): string {
    if r == "" then Lstrip(s) else "samples/" + Lstrip(s)
  }

  lemma PlainPath(r: string, s: string)
    requires '/' !in r
    ensures '/' !in FirstOf(r) && SamplePath(r, s) == FirstOf(r) + "/" + RestOf(r, s)
  {
    hide Lstrip, Strip;
    StripPlain(r);
    if r == "" {
      assert "" + "samples/" + Lstrip(s) == "samples" + "/" + Lstrip(s);
    } else {
      assert r + "/" + "samples/" + Lstrip(s) == r + "/" + ("samples/" + Lstrip(s));
    }
  }

  lemma StripTrimmed(s: string)
    requires s != "" && s[0] != '/' && s[|s| - 1] != '/'
    ensures Strip(s) == Lstrip(s) == s
  {
  }

  /** So results can overwrite each other when a run id holds "/samples/". */
  lemma SlashedRunIdsCollide(runsRoot: string, r: string, b: string, s: string)
    requires r != "" && b != "" && '/' !in r && '/' !in b && '/' !in s
    ensures
      SampleEvaluationUri(runsRoot, r, b + "/samples/" + s) == SampleEvaluationUri(runsRoot, r + "/samples/" + b, s)
  {
    hide SampleEvaluationUri, Strip;
    StripTrimmed(r);
    StripTrimmed(r + "/samples/" + b);
    SampleUrisCollideIff(runsRoot, r, b + "/samples/" + s, r + "/samples/" + b, s);
    assert Lstrip(s) == s && Lstrip(b + "/samples/" + s) == b + "/samples/" + s;
    assert r + "/" + "samples/" + (b + "/samples/" + s) == (r + "/samples/" + b) + "/" + "samples/" + s;
  }
}
