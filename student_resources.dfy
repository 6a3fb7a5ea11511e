/**
 * The student resources page: the same lazily filled tree as the public modules page,
 * with each module also listing its OSPEs, fetched together with its subjects.
 */
module StudentResources {
  import opened Wrappers
  import opened Tree

  /** A request the page sends to the content service. */
  datatype Request =
    | GetModules(yearId: string)
    | GetSubjects(moduleId: string)
    | GetOspes(moduleId: string)
    | GetTopics(subjectId: string)

  /** The page's state: the expand flags, the four caches and the requests sent so far. */
  class Browser {
    var expanded: map<string, bool>
    var modulesByYear: map<string, seq<Node>>
    var subjectsByModule: map<string, seq<Node>>
    var topicsBySubject: map<string, seq<Node>>
    var ospesByModule: map<string, seq<Node>>
    var requests: seq<Request>

    constructor ()
      ensures expanded == map[] && modulesByYear == map[] && subjectsByModule == map[]
      ensures topicsBySubject == map[] && ospesByModule == map[] && requests == []
    {
      expanded := map[];
      modulesByYear := map[];
      subjectsByModule := map[];
      topicsBySubject := map[];
      ospesByModule := map[];
      requests := [];
    }

    /** `toggle(key)`. */
    method DoToggle(key: string)
      modifies this
      ensures expanded == Toggle(old(expanded), key)
      ensures modulesByYear == old(modulesByYear) && subjectsByModule == old(subjectsByModule)
      ensures topicsBySubject == old(topicsBySubject) && ospesByModule == old(ospesByModule)
      ensures requests == old(requests)
    {
      expanded := Toggle(expanded, key);
    }

    /** `loadModules(yearId)`: skipped when the year is cached. */
    method LoadModules(yearId: string, response: Outcome<seq<Node>>)
      modifies this
      ensures modulesByYear == GuardedLoad(old(modulesByYear), yearId, response).cache
      ensures requests == old(requests) + (if yearId in old(modulesByYear) then [] else [GetModules(yearId)])
      ensures expanded == old(expanded) && subjectsByModule == old(subjectsByModule)
      ensures topicsBySubject == old(topicsBySubject) && ospesByModule == old(ospesByModule)
    {
      var step := GuardedLoad(modulesByYear, yearId, response);
      if step.fetched {
        requests := requests + [GetModules(yearId)];
      }
      modulesByYear := step.cache;
    }

    /**
     * `loadSubjects(moduleId)`: skipped when the module's subjects are cached; otherwise
     * subjects and OSPEs are fetched together. A failed OSPE fetch counts as `[]`; a failed
     * subject fetch rejects the pair and nothing is stored.
     */
    method LoadSubjects(moduleId: string, subjects: Outcome<seq<Node>>, ospes: Outcome<seq<Node>>)
      modifies this
      ensures moduleId in old(subjectsByModule) ==>
                subjectsByModule == old(subjectsByModule) && ospesByModule == old(ospesByModule)
                && requests == old(requests)
      ensures moduleId !in old(subjectsByModule) ==>
                requests == old(requests) + [GetSubjects(moduleId), GetOspes(moduleId)]
      ensures moduleId !in old(subjectsByModule) && subjects.Ok? ==>
                subjectsByModule == old(subjectsByModule)[moduleId := subjects.data]
                && ospesByModule == old(ospesByModule)[moduleId := if ospes.Ok? then ospes.data else []]
      ensures subjects.Failed? ==>
                subjectsByModule == old(subjectsByModule) && ospesByModule == old(ospesByModule)
      ensures expanded == old(expanded) && modulesByYear == old(modulesByYear)
      ensures topicsBySubject == old(topicsBySubject)
    {
      if moduleId in subjectsByModule {
        return;
      }
      requests := requests + [GetSubjects(moduleId), GetOspes(moduleId)];
      if subjects.Ok? {
        var ospeData := if ospes.Ok? then ospes.data else [];
        subjectsByModule := subjectsByModule[moduleId := subjects.data];
        ospesByModule := ospesByModule[moduleId := ospeData];
      }
    }

    /** `loadTopics(subjectId)`: skipped when the subject is cached. */
    method LoadTopics(subjectId: string, response: Outcome<seq<Node>>)
      modifies this
      ensures topicsBySubject == GuardedLoad(old(topicsBySubject), subjectId, response).cache
      ensures requests == old(requests) + (if subjectId in old(topicsBySubject) then [] else [GetTopics(subjectId)])
      ensures expanded == old(expanded) && modulesByYear == old(modulesByYear)
      ensures subjectsByModule == old(subjectsByModule) && ospesByModule == old(ospesByModule)
    {
      var step := GuardedLoad(topicsBySubject, subjectId, response);
      if step.fetched {
        requests := requests + [GetTopics(subjectId)];
      }
      topicsBySubject := step.cache;
    }

    /** What an expanded module lists: its subjects, then its OSPEs; nothing while collapsed. */
    function ModuleContents(module_: Node): (r: seq<Node>)
      reads this
      ensures !IsExpanded(expanded, Key(ModuleLevel, module_.id)) ==> r == []
      ensures IsExpanded(expanded, Key(ModuleLevel, module_.id)) ==>
                r == Children(subjectsByModule, module_.id) + Children(ospesByModule, module_.id)
    {
      VisibleChildren(expanded, ModuleLevel, subjectsByModule, module_.id)
      + VisibleChildren(expanded, ModuleLevel, ospesByModule, module_.id)
    }
  }
}
