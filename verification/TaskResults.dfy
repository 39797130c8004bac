/** From a job's raw result to a task's buckets, the quality gate over them, and
    their merge into pipeline outputs and downstream inputs. */
module TaskResults {
  import opened Prelude
  import opened Json
  import opened Ordering
  import opened PipelineRecords

  // ---- normalisation ----

  /** The declared target unless it is absent or empty. */
  function TargetKey(spec: OutputSpec): string {
    if spec.target.Some? && spec.target.value != "" then spec.target.value else spec.name
  }

  /** What the source path holds, or else the default. */
  function Resolved(raw: Dict, spec: OutputSpec): Value {
    var value := ReadPath(raw, spec.source);
    if value.Null? then spec.default else value
  }

  predicate Lacking(raw: Dict, spec: OutputSpec) {
    spec.required && Resolved(raw, spec).Null?
  }

  /** `spec` puts a value under `key` in the bucket of `kind`. */
  predicate Feeds(raw: Dict, spec: OutputSpec, kind: OutputKind, key: string) {
    spec.kind == kind && TargetKey(spec) == key && !Resolved(raw, spec).Null?
  }

  function Contribution(raw: Dict, spec: OutputSpec, kind: OutputKind): Dict {
    if spec.kind == kind && !Resolved(raw, spec).Null? then map[TargetKey(spec) := Resolved(raw, spec)] else map[]
  }

  function Contributions(raw: Dict, kind: OutputKind): OutputSpec -> Dict {
    spec => Contribution(raw, spec, kind)
  }

  function Bucket(raw: Dict, specs: seq<OutputSpec>, kind: OutputKind): Dict {
    Layered(specs, Contributions(raw, kind))
  }

  function FirstLacking(raw: Dict, specs: seq<OutputSpec>): Option<string> {
    if specs == [] then None
    else if Lacking(raw, specs[0]) then Some(specs[0].name)
    else FirstLacking(raw, specs[1..])
  }

  function BucketsOf(raw: Dict, specs: seq<OutputSpec>): Buckets {
    Buckets(Bucket(raw, specs, Ref), Bucket(raw, specs, Summary), Bucket(raw, specs, Metric),
            Bucket(raw, specs, Artifact), raw)
  }

  function Normalize(raw: Dict, specs: seq<OutputSpec>): Result<Buckets, string> {
    match FirstLacking(raw, specs)
    case Some(name) => Err(name)
    case None => Ok(BucketsOf(raw, specs))
  }

  lemma PutIsLayer<K, V>(m: map<K, V>, k: K, v: V)
    ensures m + map[k := v] == m[k := v]
    ensures m + map[] == m
  {
  }

  lemma EmptyBucket(raw: Dict, specs: seq<OutputSpec>, kind: OutputKind)
    ensures Bucket(raw, specs[..0], kind) == map[]
  {
  }

  /** What one more spec adds to the bucket of `kind`. */
  lemma BucketStep(raw: Dict, specs: seq<OutputSpec>, i: nat, kind: OutputKind)
    requires i < |specs|
    ensures
      var before := Bucket(raw, specs[..i], kind);
      Bucket(raw, specs[..i + 1], kind) ==
        if specs[i].kind == kind && !Resolved(raw, specs[i]).Null?
        then before[TargetKey(specs[i]) := Resolved(raw, specs[i])]
        else before
  {
    assert specs[..i + 1] == specs[..i] + [specs[i]];
    LayeredSnoc(specs[..i], specs[i], Contributions(raw, kind));
    PutIsLayer(Bucket(raw, specs[..i], kind), TargetKey(specs[i]), Resolved(raw, specs[i]));
  }

  method NormalizeTaskOutputs(raw: Dict, specs: seq<OutputSpec>) returns (r: Result<Buckets, string>)
    ensures r == Normalize(raw, specs)
  {
    hide Bucket, ReadPath;
    var refs: Dict, summary: Dict, metrics: Dict, artifacts: Dict := map[], map[], map[], map[];
    forall kind {
      EmptyBucket(raw, specs, kind);
    }
    for i := 0 to |specs|
      invariant refs == Bucket(raw, specs[..i], Ref) && summary == Bucket(raw, specs[..i], Summary)
      invariant metrics == Bucket(raw, specs[..i], Metric) && artifacts == Bucket(raw, specs[..i], Artifact)
      invariant FirstLacking(raw, specs) == FirstLacking(raw, specs[i..])
    {
      var spec := specs[i];
      forall kind {
        BucketStep(raw, specs, i, kind);
      }
      assert specs[i..][1..] == specs[i + 1..];
      var value := ReadDotPath(raw, spec.source);
      if value.Null? {
        if !spec.default.Null? {
          value := spec.default;
        } else if spec.required {
          return Err(spec.name);
        } else {
          continue;
        }
      }
      var key := if spec.target.Some? && spec.target.value != "" then spec.target.value else spec.name;
      match spec.kind
      case Ref => refs := refs[key := value];
      case Summary => summary := summary[key := value];
      case Metric => metrics := metrics[key := value];
      case Artifact => artifacts := artifacts[key := value];
    }
    assert specs[..|specs|] == specs;
    r := Ok(Buckets(refs, summary, metrics, artifacts, raw));
  }

  /** A required output with neither a value nor a default. */
  predicate IsMissing(raw: Dict, spec: OutputSpec) {
    spec.required && ReadPath(raw, spec.source) == Null && spec.default == Null
  }

  /** A task's outputs are refused exactly when a required one has neither a value nor a
      default, and the error names the first such output. */
  lemma {:induction false} RefusedIffLacking(raw: Dict, specs: seq<OutputSpec>)
    ensures Normalize(raw, specs).Err? <==> exists i :: 0 <= i < |specs| && IsMissing(raw, specs[i])
    ensures Normalize(raw, specs).Err? ==>
      exists i ::
        && 0 <= i < |specs| && IsMissing(raw, specs[i]) && Normalize(raw, specs).error == specs[i].name
        && forall j | 0 <= j < i :: !IsMissing(raw, specs[j])
  {
    hide ReadPath, BucketsOf;
    if specs != [] {
      var rest := specs[1..];
      RefusedIffLacking(raw, rest);
      assert Lacking(raw, specs[0]) <==> IsMissing(raw, specs[0]);
      assert forall k | 0 < k < |specs| :: specs[k] == rest[k - 1];
      if Lacking(raw, specs[0]) {
        assert IsMissing(raw, specs[0]);
      } else if Normalize(raw, rest).Err? {
        var i :|
          && 0 <= i < |rest| && IsMissing(raw, rest[i]) && Normalize(raw, rest).error == rest[i].name
          && forall j | 0 <= j < i :: !IsMissing(raw, rest[j]);
        assert IsMissing(raw, specs[i + 1]) && Normalize(raw, specs).error == specs[i + 1].name;
        forall j | 0 <= j < i + 1
          ensures !IsMissing(raw, specs[j])
        {
          assert j > 0 ==> !IsMissing(raw, rest[j - 1]);
        }
      }
    }
  }

  /** A bucket holds, under each key, what the last spec that feeds the key resolves
      to, and nothing else. */
  lemma {:induction false} BucketHoldsLastFeed(raw: Dict, specs: seq<OutputSpec>, kind: OutputKind, key: string)
    ensures key in Bucket(raw, specs, kind) <==> exists i :: 0 <= i < |specs| && Feeds(raw, specs[i], kind, key)
    ensures forall i |
      0 <= i < |specs| && Feeds(raw, specs[i], kind, key) &&
      (forall j | i < j < |specs| :: !Feeds(raw, specs[j], kind, key)) ::
      key in Bucket(raw, specs, kind) && Bucket(raw, specs, kind)[key] == Resolved(raw, specs[i])
  {
    hide Resolved, TargetKey;
    var layer := Contributions(raw, kind);
    assert forall i | 0 <= i < |specs| :: Feeds(raw, specs[i], kind, key) <==> key in layer(specs[i]);
    LastLayerWins(specs, layer, key);
    forall i |
      0 <= i < |specs| && Feeds(raw, specs[i], kind, key) &&
      (forall j | i < j < |specs| :: !Feeds(raw, specs[j], kind, key))
      ensures key in Bucket(raw, specs, kind) && Bucket(raw, specs, kind)[key] == Resolved(raw, specs[i])
    {
      assert LastHolder(specs, layer, key, i);
    }
  }

  /** The spec puts `v` under `key` in the bucket of `kind`: the key is its target, or its
      name for want of one, the value is what its source holds, or its default. */
  predicate Puts(raw: Dict, spec: OutputSpec, kind: OutputKind, key: string, v: Value) {
    && spec.kind == kind && !v.Null?
    && key == (if spec.target == None || spec.target == Some("") then spec.name else spec.target.value)
    && v == (if ReadPath(raw, spec.source) == Null then spec.default else ReadPath(raw, spec.source))
  }

  ghost predicate PutsLast(raw: Dict, specs: seq<OutputSpec>, kind: OutputKind, i: int, key: string, v: Value) {
    && 0 <= i < |specs| && Puts(raw, specs[i], kind, key, v)
    && forall j, w | i < j < |specs| :: !Puts(raw, specs[j], kind, key, w)
  }

  /** A bucket has the keys that some spec of its kind puts there, with the value that the
      last one puts. */
  ghost predicate BucketTells(raw: Dict, specs: seq<OutputSpec>, kind: OutputKind, bucket: Dict) {
    && (forall key :: key in bucket <==> exists i, v :: 0 <= i < |specs| && Puts(raw, specs[i], kind, key, v))
    && (forall i, key, v | PutsLast(raw, specs, kind, i, key, v) :: key in bucket && bucket[key] == v)
  }

  lemma FeedsPuts(raw: Dict, spec: OutputSpec, kind: OutputKind, key: string)
    ensures Feeds(raw, spec, kind, key) <==> Puts(raw, spec, kind, key, Resolved(raw, spec))
    ensures forall v | Puts(raw, spec, kind, key, v) :: v == Resolved(raw, spec)
  {
    hide ReadPath;
  }

  lemma BucketIsTold(raw: Dict, specs: seq<OutputSpec>, kind: OutputKind)
    ensures BucketTells(raw, specs, kind, Bucket(raw, specs, kind))
  {
    hide Bucket, Feeds, Puts, Resolved;
    var bucket := Bucket(raw, specs, kind);
    forall key
      ensures key in bucket <==> exists i, v :: 0 <= i < |specs| && Puts(raw, specs[i], kind, key, v)
      ensures forall i, v | PutsLast(raw, specs, kind, i, key, v) :: key in bucket && bucket[key] == v
    {
      BucketHoldsLastFeed(raw, specs, kind, key);
      forall i | 0 <= i < |specs|
        ensures Feeds(raw, specs[i], kind, key) <==> Puts(raw, specs[i], kind, key, Resolved(raw, specs[i]))
        ensures forall v | Puts(raw, specs[i], kind, key, v) :: v == Resolved(raw, specs[i])
      {
        FeedsPuts(raw, specs[i], kind, key);
      }
    }
  }

  /** Each of the four buckets is filled by the specs of its own kind, and the raw result
      is kept as it is. */
  lemma NormalizedBuckets(raw: Dict, specs: seq<OutputSpec>)
    requires Normalize(raw, specs).Ok?
    ensures
      var b := Normalize(raw, specs).value;
      && b.raw == raw
      && BucketTells(raw, specs, Ref, b.refs) && BucketTells(raw, specs, Summary, b.summary)
      && BucketTells(raw, specs, Metric, b.metrics) && BucketTells(raw, specs, Artifact, b.artifacts)
  {
    hide Bucket, BucketTells;
    BucketIsTold(raw, specs, Ref);
    BucketIsTold(raw, specs, Summary);
    BucketIsTold(raw, specs, Metric);
    BucketIsTold(raw, specs, Artifact);
  }

  // ---- quality gate ----

  /** What a rule's source path is read from. */
  function View(b: Buckets): Dict {
    map["refs" := Obj(b.refs), "summary" := Obj(b.summary), "metrics" := Obj(b.metrics),
        "artifacts" := Obj(b.artifacts), "raw_result" := Obj(b.raw)]
  }

  predicate Contains(items: seq<Value>, value: Value) {
    exists i | 0 <= i < |items| :: SameValue(value, items[i])
  }

  predicate Matches(rule: QualityRule, value: Value) {
    match rule.ruleType
    case BlockIfTrue => Truthy(value)
    case BlockIfEquals => SameValue(value, rule.value)
    case BlockIfIn => rule.value.Arr? && Contains(rule.value.items, value)
  }

  predicate RuleFires(rule: QualityRule, b: Buckets) {
    Matches(rule, ReadPath(View(b), rule.source))
  }

  predicate Blocks(rules: seq<QualityRule>, b: Buckets) {
    exists i | 0 <= i < |rules| :: RuleFires(rules[i], b)
  }

  /** The first rule that fires. */
  function FirstFiring(rules: seq<QualityRule>, b: Buckets): (r: Option<QualityRule>)
    ensures r.Some? <==> Blocks(rules, b)
    ensures r.Some? ==> r.value in rules && RuleFires(r.value, b)
  {
    if rules == [] then None
    else if RuleFires(rules[0], b) then Some(rules[0])
    else
      assert Blocks(rules, b) ==> Blocks(rules[1..], b) by {
        if i :| 0 <= i < |rules| && RuleFires(rules[i], b) {
          assert rules[1..][i - 1] == rules[i];
        }
      }
      FirstFiring(rules[1..], b)
  }

  /** The rule at `i` fires, and none before it. */
  predicate FiresFirst(rules: seq<QualityRule>, i: int, b: Buckets) {
    0 <= i < |rules| && RuleFires(rules[i], b) && forall j | 0 <= j < i :: !RuleFires(rules[j], b)
  }

  lemma {:induction false} FirstFiringIsFirst(rules: seq<QualityRule>, b: Buckets)
    ensures forall i | FiresFirst(rules, i, b) :: FirstFiring(rules, b) == Some(rules[i])
    ensures FirstFiring(rules, b).Some? ==> exists i :: FiresFirst(rules, i, b)
  {
    hide RuleFires;
    if rules != [] {
      var rest := rules[1..];
      FirstFiringIsFirst(rest, b);
      assert forall k | 0 < k < |rules| :: rules[k] == rest[k - 1];
      if RuleFires(rules[0], b) {
        assert FiresFirst(rules, 0, b);
      } else {
        forall i | FiresFirst(rules, i, b)
          ensures FirstFiring(rules, b) == Some(rules[i])
        {
          assert FiresFirst(rest, i - 1, b);
        }
        if i :| FiresFirst(rest, i, b) {
          assert FiresFirst(rules, i + 1, b);
        }
      }
    }
  }

  method CheckTaskResult(rules: seq<QualityRule>, result: Option<TaskResult>) returns (blocked: Option<QualityRule>)
    ensures blocked.Some? <==> result.Some? && Blocks(rules, result.value.buckets)
    ensures result.Some? ==> blocked == FirstFiring(rules, result.value.buckets)
  {
    if result.None? || rules == [] {
      return None;
    }
    var b := result.value.buckets;
    for i := 0 to |rules|
      invariant FirstFiring(rules, b) == FirstFiring(rules[i..], b)
    {
      assert rules[i..][1..] == rules[i + 1..];
      var value := ReadDotPath(View(b), rules[i].source);
      if Matches(rules[i], value) {
        return Some(rules[i]);
      }
    }
    blocked := None;
  }

  /** A value blocks, if true is what blocks, exactly when it is none of the six that
      count as false. */
  lemma TrueBlocks(rule: QualityRule, b: Buckets)
    requires rule.ruleType == BlockIfTrue
    ensures
      var v := ReadPath(View(b), rule.source);
      RuleFires(rule, b) <==>
        v != Null && v != Bool(false) && v != Num(0.0) && v != Str("") && v != Arr([]) && v != Obj(map[])
  {
    hide ReadPath, View;
    FalseValues(ReadPath(View(b), rule.source));
  }

  /** Under an equality rule the rule's own value blocks, and text or null blocks for
      nothing else; a boolean blocks for itself and for the number it stands for. */
  lemma EqualBlocks(rule: QualityRule, b: Buckets)
    requires rule.ruleType == BlockIfEquals
    ensures
      var v := ReadPath(View(b), rule.source);
      && (v == rule.value ==> RuleFires(rule, b))
      && (v.Str? || v.Null? || rule.value.Str? || rule.value.Null? ==> (RuleFires(rule, b) <==> v == rule.value))
      && (v.Num? && rule.value.Num? ==> (RuleFires(rule, b) <==> v == rule.value))
      && (v.Bool? ==>
            (RuleFires(rule, b) <==> rule.value == v || rule.value == Num(if v.b then 1.0 else 0.0)))
  {
    hide ReadPath, View, SameValue;
    var v := ReadPath(View(b), rule.source);
    SameAsItself(v);
    SameKinds(v, rule.value);
  }

  /** A rule over a list blocks exactly when an equality rule with one of its items does;
      a rule that should have a list and has none never blocks. */
  lemma MemberBlocks(rule: QualityRule, b: Buckets)
    requires rule.ruleType == BlockIfIn
    ensures RuleFires(rule, b) <==>
      && rule.value.Arr?
      && exists item :: item in rule.value.items
                        && RuleFires(rule.(ruleType := BlockIfEquals, value := item), b)
  {
    hide ReadPath, View, SameValue;
    var v := ReadPath(View(b), rule.source);
    if rule.value.Arr? {
      var items := rule.value.items;
      if item :| item in items && RuleFires(rule.(ruleType := BlockIfEquals, value := item), b) {
        var i :| 0 <= i < |items| && items[i] == item;
        assert SameValue(v, items[i]);
      }
      if RuleFires(rule, b) {
        var i :| 0 <= i < |items| && SameValue(v, items[i]);
        assert RuleFires(rule.(ruleType := BlockIfEquals, value := items[i]), b);
      }
    }
  }

  /** A source that starts with a bucket's name reads the rest of its path inside
      that bucket. */
  lemma GateReadsBucket(b: Buckets, path: string)
    ensures ReadPath(View(b), "refs" + "." + path) == ReadPath(b.refs, path)
    ensures ReadPath(View(b), "summary" + "." + path) == ReadPath(b.summary, path)
    ensures ReadPath(View(b), "metrics" + "." + path) == ReadPath(b.metrics, path)
    ensures ReadPath(View(b), "artifacts" + "." + path) == ReadPath(b.artifacts, path)
    ensures ReadPath(View(b), "raw_result" + "." + path) == ReadPath(b.raw, path)
  {
    hide ReadPath;
    ReadUnder(View(b), "refs", path);
    ReadUnder(View(b), "summary", path);
    ReadUnder(View(b), "metrics", path);
    ReadUnder(View(b), "artifacts", path);
    ReadUnder(View(b), "raw_result", path);
  }
}
