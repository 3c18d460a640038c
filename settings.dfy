/** Exporter settings: validation of project lists and loading them into the
    shared `LinearData`. The project directory is the set of project names
    that exist under it; the YAML document is given already parsed. */
module Settings {
  import opened Wrappers
  import opened Linear

  /** The `priority` mapping of the settings file; an omitted list is `None`. */
  datatype PriorityInput = PriorityInput(transclusion: Option<seq<string>>, instructions: Option<seq<string>>)

  /** The settings document; `priority` itself may be missing. */
  datatype SettingsInput = SettingsInput(priority: Option<PriorityInput>, annotations: Option<seq<string>>)

  /** The validated settings. */
  datatype SettingsYaml = SettingsYaml(transclusion: seq<string>, instructions: seq<string>, annotations: seq<string>)

  predicate AllExist(projects: seq<string>, existing: set<string>)
  {
    forall i :: 0 <= i < |projects| ==> projects[i] in existing
  }

  /** The three lists of a settings document, [] where omitted. */
  function Transclusion(data: SettingsInput): seq<string>
    requires data.priority.Some?
  {
    data.priority.value.transclusion.GetOr([])
  }

  function Instructions(data: SettingsInput): seq<string>
    requires data.priority.Some?
  {
    data.priority.value.instructions.GetOr([])
  }

  function Annotations(data: SettingsInput): seq<string>
  {
    data.annotations.GetOr([])
  }

  /** `priority` is present and every listed project exists. */
  predicate SettingsAreValid(data: SettingsInput, existing: set<string>)
  {
    && data.priority.Some?
    && AllExist(Transclusion(data), existing)
    && AllExist(Instructions(data), existing)
    && AllExist(Annotations(data), existing)
  }

  /** `_validate_project_list`: every listed project must exist under the
      project directory; a valid list comes back unchanged, otherwise the
      first missing project is named in a ValueError. */
  method ValidateProjectList(projects: seq<string>, existing: set<string>) returns (r: Result<seq<string>, PyError>)
    ensures r.Ok? <==> AllExist(projects, existing)
    ensures r.Ok? ==> r.value == projects
    ensures r.Err? ==> (exists i :: 0 <= i < |projects| && projects[i] !in existing &&
                          AllExist(projects[..i], existing) &&
                          r.error == ValueError("Project " + projects[i] + " does not exist"))
  {
    var i := 0;
    while i < |projects|
      invariant 0 <= i <= |projects|
      invariant AllExist(projects[..i], existing)
    {
      if projects[i] !in existing {
        return Err(ValueError("Project " + projects[i] + " does not exist"));
      }
      assert projects[..i + 1] == projects[..i] + [projects[i]];
      i := i + 1;
    }
    assert projects[..i] == projects;
    return Ok(projects);
  }

  /** `SettingsYaml.model_validate`: `priority` is required, omitted lists
      default to [], and every list is validated in field order. */
  method ValidateSettings(data: SettingsInput, existing: set<string>) returns (r: Result<SettingsYaml, PyError>)
    ensures data.priority.None? ==> r.Err?
    ensures r.Ok? <==> SettingsAreValid(data, existing)
    ensures r.Ok? ==> r.value == SettingsYaml(Transclusion(data), Instructions(data), Annotations(data))
  {
    if data.priority.None? {
      return Err(ValueError("priority: Field required"));
    }
    var t := ValidateProjectList(data.priority.value.transclusion.GetOr([]), existing);
    if t.Err? { return Err(t.error); }
    var ins := ValidateProjectList(data.priority.value.instructions.GetOr([]), existing);
    if ins.Err? { return Err(ins.error); }
    var a := ValidateProjectList(data.annotations.GetOr([]), existing);
    if a.Err? { return Err(a.error); }
    return Ok(SettingsYaml(t.value, ins.value, a.value));
  }

  /** `load_settings`: on valid settings, project_priority, instruction_priority
      and annotation_projects take the transclusion, instructions and
      annotations lists, and nothing else changes; invalid settings raise and
      leave the record as it was. */
  method LoadSettings(data: SettingsInput, existing: set<string>, ld: LinearData) returns (r: Result<LinearData, PyError>)
    modifies ld
    ensures r.Ok? <==> SettingsAreValid(data, existing)
    ensures r.Ok? ==> r.value == ld && ld.projectPriority == Transclusion(data)
    ensures r.Ok? ==> ld.instructionPriority == Instructions(data) && ld.annotationProjects == Annotations(data)
    ensures r.Err? ==> ld.projectPriority == old(ld.projectPriority)
    ensures r.Err? ==> ld.instructionPriority == old(ld.instructionPriority)
    ensures r.Err? ==> ld.annotationProjects == old(ld.annotationProjects)
    ensures ld.settings == old(ld.settings) && ld.processingContext == old(ld.processingContext)
  {
    var s := ValidateSettings(data, existing);
    if s.Err? {
      return Err(s.error);
    }
    ld.projectPriority := s.value.transclusion;
    ld.instructionPriority := s.value.instructions;
    ld.annotationProjects := s.value.annotations;
    return Ok(ld);
  }

  /** `load_default_settings`: all three lists become [project]; nothing else
      changes. */
  method LoadDefaultSettings(project: string, fileName: string, ld: LinearData) returns (r: LinearData)
    modifies ld
    ensures r == ld
    ensures ld.projectPriority == [project] && ld.instructionPriority == [project] && ld.annotationProjects == [project]
    ensures ld.settings == old(ld.settings) && ld.processingContext == old(ld.processingContext)
  {
    ld.projectPriority := [project];
    ld.instructionPriority := [project];
    ld.annotationProjects := [project];
    return ld;
  }
}
