/** The shared state of linear processing (`LinearData`) and the
    module-global instance behind `get_linear_data`/`reset_linear_data`. */
module Linear {
  import opened Wrappers
  import Cache

  /** The commands a before-hook can give for one element. */
  datatype Command =
    | CopyAndRecurse         // copy the element with its text, then its children
    | CopyElementAndRecurse  // copy the element without its text, then its children
    | Recurse                // do not copy the element, only look at its children
    | Skip                   // drop the element and its subtree
    | CopyTextAndRecurse     // keep the element's text but not the element

  /** One processing-context frame. `insideDca` is `None` when the frame
      has no `inside_deepest_common_ancestor` key at all. */
  datatype Context = Context(
    fromStart: Option<string>,
    toEnd: Option<string>,
    beforeStart: bool,
    afterEnd: bool,
    insideDca: Option<bool>,
    command: Command)

  datatype Setting = Setting(fsType: string, name: string, value: string)

  class LinearData {
    const xmlCache: Cache.XmlCache
    var settings: seq<(string, Setting)>
    var projectPriority: seq<string>
    var instructionPriority: seq<string>
    var annotationProjects: seq<string>
    /** A stack: processors push a frame on entry and pop it on exit. */
    var processingContext: seq<Context>

    /** A fresh record: a new empty cache and every list empty. */
    constructor (basePath: Cache.Path)
      ensures fresh(xmlCache) && xmlCache.cache == map[] && xmlCache.basePath == basePath
      ensures settings == [] && projectPriority == [] && instructionPriority == []
      ensures annotationProjects == [] && processingContext == []
    {
      xmlCache := new Cache.XmlCache(basePath);
      settings := [];
      projectPriority := [];
      instructionPriority := [];
      annotationProjects := [];
      processingContext := [];
    }

    /** Push a frame on the processing-context stack. */
    method PushContext(c: Context)
      modifies this
      ensures processingContext == old(processingContext) + [c]
      ensures projectPriority == old(projectPriority) && settings == old(settings)
      ensures instructionPriority == old(instructionPriority) && annotationProjects == old(annotationProjects)
    {
      processingContext := processingContext + [c];
    }

    /** Pop the top frame (Python's `list.pop()` raises on an empty list). */
    method PopContext() returns (r: Result<Context, PyError>)
      modifies this
      ensures old(processingContext) == [] ==> r == Err(IndexError) && processingContext == []
      ensures old(processingContext) != [] ==>
        r == Ok(old(processingContext)[|old(processingContext)| - 1]) &&
        processingContext == old(processingContext)[..|old(processingContext)| - 1]
      ensures projectPriority == old(projectPriority) && settings == old(settings)
      ensures instructionPriority == old(instructionPriority) && annotationProjects == old(annotationProjects)
    {
      if processingContext == [] {
        return Err(IndexError);
      }
      r := Ok(processingContext[|processingContext| - 1]);
      processingContext := processingContext[..|processingContext| - 1];
    }

    /** Replace the top frame (the processors mutate `processing_context[-1]`
        in place). */
    method SetTop(c: Context)
      requires processingContext != []
      modifies this
      ensures processingContext == old(processingContext)[..|old(processingContext)| - 1] + [c]
      ensures projectPriority == old(projectPriority) && settings == old(settings)
      ensures instructionPriority == old(instructionPriority) && annotationProjects == old(annotationProjects)
    {
      processingContext := processingContext[..|processingContext| - 1] + [c];
    }
  }

  /** The module holding the global `_linear_data`. */
  class LinearModule {
    var current: LinearData
    const basePath: Cache.Path

    constructor (basePath: Cache.Path)
      ensures this.basePath == basePath && fresh(current) && fresh(current.xmlCache)
      ensures current.processingContext == [] && current.projectPriority == []
    {
      this.basePath := basePath;
      current := new LinearData(basePath);
    }

    /** `reset_linear_data`: the global is replaced by a fresh, empty record. */
    method Reset()
      modifies this
      ensures fresh(current) && fresh(current.xmlCache) && current.xmlCache.cache == map[]
      ensures current.settings == [] && current.projectPriority == [] && current.instructionPriority == []
      ensures current.annotationProjects == [] && current.processingContext == []
    {
      current := new LinearData(basePath);
    }

    /** `get_linear_data`: the current global, unchanged by the call. */
    method Get() returns (r: LinearData)
      ensures r == current
    {
      r := current;
    }
  }
}
