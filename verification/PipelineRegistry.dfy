/** The registry of pipeline definitions. */
module PipelineRegistry {
  import opened Prelude
  import opened PipelineRecords
  import opened PipelineRun

  datatype RegistryError = DuplicateType | DuplicateTaskId | UnknownDependency(taskId: string, dependency: string)

  class PipelineDefinitionRegistry {
    var definitions: map<string, PipelineDef>

    constructor ()
      ensures Valid() && definitions == map[]
    {
      definitions := map[];
    }

    /** Every registered definition has distinct task ids and existing dependencies. */
    ghost predicate Valid()
      reads this
    {
      forall k | k in definitions :: DistinctIds(definitions[k].tasks) && DependenciesExist(definitions[k].tasks)
    }

    method Register(pipelineType: string, def: PipelineDef) returns (error: Option<RegistryError>)
      requires Valid()
      modifies this
      ensures Valid()
      ensures error.None? <==>
        pipelineType !in old(definitions) && DistinctIds(def.tasks) && DependenciesExist(def.tasks)
      ensures error == Some(DuplicateType) <==> pipelineType in old(definitions)
      ensures definitions == if error.None? then old(definitions)[pipelineType := def] else old(definitions)
    {
      if pipelineType in definitions {
        return Some(DuplicateType);
      }
      error := Validate(def.tasks);
      if error.None? {
        definitions := definitions[pipelineType := def];
      }
    }

    /** Cycles are not looked for. */
    static method Validate(defs: seq<TaskDef>) returns (error: Option<RegistryError>)
      ensures error.None? <==> DistinctIds(defs) && DependenciesExist(defs)
      ensures error == Some(DuplicateTaskId) <==> !DistinctIds(defs)
      ensures error.Some? && !error.value.DuplicateTaskId? ==> Dangling(defs, error.value)
    {
      var ids := TaskIds(defs);
      if |ids| != |defs| {
        return Some(DuplicateTaskId);
      }
      error := FindUnknownDependency(defs, ids);
    }

    static method TaskIds(defs: seq<TaskDef>) returns (ids: set<string>)
      ensures forall id :: id in ids <==> HasId(defs, id)
      ensures |ids| == |defs| <==> DistinctIds(defs)
    {
      hide HasId, DistinctIds;
      ids := {};
      NothingYet(defs);
      for i := 0 to |defs|
        invariant forall id :: id in ids <==> HasId(defs[..i], id)
        invariant |ids| <= i && (|ids| == i <==> DistinctIds(defs[..i]))
      {
        OneMoreId(defs, i);
        ids := ids + {defs[i].id};
      }
      assert defs[..|defs|] == defs;
    }

    static method FindUnknownDependency(defs: seq<TaskDef>, ids: set<string>) returns (error: Option<RegistryError>)
      requires forall id :: id in ids <==> HasId(defs, id)
      ensures error.None? <==> DependenciesExist(defs)
      ensures error.Some? ==> Dangling(defs, error.value)
    {
      hide HasId;
      for i := 0 to |defs|
        invariant forall k, d | 0 <= k < i && d in defs[k].dependsOn :: HasId(defs, d)
      {
        var task := defs[i];
        for j := 0 to |task.dependsOn|
          invariant forall k | 0 <= k < j :: HasId(defs, task.dependsOn[k])
        {
          if task.dependsOn[j] !in ids {
            assert task.dependsOn[j] in defs[i].dependsOn;
            return Some(UnknownDependency(task.id, task.dependsOn[j]));
          }
        }
      }
      error := None;
    }
  }

  /** The error names a task and a dependency of it that is no task. */
  ghost predicate Dangling(defs: seq<TaskDef>, error: RegistryError) {
    && error.UnknownDependency? && !HasId(defs, error.dependency)
    && exists i :: 0 <= i < |defs| && defs[i].id == error.taskId && error.dependency in defs[i].dependsOn
  }

  lemma NothingYet(defs: seq<TaskDef>)
    ensures DistinctIds(defs[..0]) && forall id :: !HasId(defs[..0], id)
  {
  }

  lemma OneMoreId(defs: seq<TaskDef>, i: nat)
    requires i < |defs|
    ensures forall id :: HasId(defs[..i + 1], id) <==> HasId(defs[..i], id) || id == defs[i].id
    ensures DistinctIds(defs[..i + 1]) <==> DistinctIds(defs[..i]) && !HasId(defs[..i], defs[i].id)
  {
    var before, after := defs[..i], defs[..i + 1];
    forall id
      ensures HasId(after, id) <==> HasId(before, id) || id == defs[i].id
    {
      if HasId(before, id) {
        var k :| 0 <= k < i && before[k].id == id;
        assert after[k].id == id;
      }
      assert after[i].id == defs[i].id;
      if HasId(after, id) && id != defs[i].id {
        var k :| 0 <= k < i + 1 && after[k].id == id;
        assert before[k].id == id;
      }
    }
    if HasId(before, defs[i].id) {
      var k :| 0 <= k < i && before[k].id == defs[i].id;
      assert IdOf(after[k]) == IdOf(after[i]);
    }
    if DistinctIds(after) {
      assert forall k, l | 0 <= k < l < i :: IdOf(before[k]) == IdOf(after[k]) && IdOf(before[l]) == IdOf(after[l]);
    }
  }
}
