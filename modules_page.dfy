/**
 * The public modules page: a tree of years, modules, subjects and topics whose children
 * are fetched on first expansion and cached per parent; topics open only for users with access.
 */
module ModulesPage {
  import opened Wrappers
  import opened Tree

  /** The fields of the signed-in user the page reads. */
  datatype User = User(packages: Option<seq<string>>, freeTrialUsed: bool)

  /** `!!user?.packages?.length || user?.freeTrialUsed`. */
  predicate HasAccess(user: Option<User>) {
    match user
    case None => false
    case Some(u) => (u.packages.Some? && |u.packages.value| > 0) || u.freeTrialUsed
  }

  /** What a topic row shows at its right end. */
  datatype TopicAction = Open(topicId: string) | Locked

  /** An Open link to the topic with access, the Locked badge without. */
  function TopicActionOf(user: Option<User>, topic: Node): (a: TopicAction)
    ensures a.Open? <==> HasAccess(user)
    ensures a.Open? ==> a.topicId == topic.id
  {
    if HasAccess(user) then Open(topic.id) else Locked
  }

  /** A request the page sends to the content service. */
  datatype Request = GetModules(yearId: string) | GetSubjects(moduleId: string) | GetTopics(subjectId: string)

  /** The page's state: the expand flags, the three caches and the requests sent so far. */
  class Browser {
    var expanded: map<string, bool>
    var modulesByYear: map<string, seq<Node>>
    var subjectsByModule: map<string, seq<Node>>
    var topicsBySubject: map<string, seq<Node>>
    var requests: seq<Request>

    constructor ()
      ensures expanded == map[] && modulesByYear == map[] && subjectsByModule == map[]
      ensures topicsBySubject == map[] && requests == []
    {
      expanded := map[];
      modulesByYear := map[];
      subjectsByModule := map[];
      topicsBySubject := map[];
      requests := [];
    }

    /** `toggle(key)`. */
    method DoToggle(key: string)
      modifies this
      ensures expanded == Toggle(old(expanded), key)
      ensures modulesByYear == old(modulesByYear) && subjectsByModule == old(subjectsByModule)
      ensures topicsBySubject == old(topicsBySubject) && requests == old(requests)
    {
      expanded := Toggle(expanded, key);
    }

    /** `loadModules(yearId)`, with `response` the outcome the fetch would have. */
    method LoadModules(yearId: string, response: Outcome<seq<Node>>)
      modifies this
      ensures modulesByYear == GuardedLoad(old(modulesByYear), yearId, response).cache
      ensures requests == old(requests) + (if yearId in old(modulesByYear) then [] else [GetModules(yearId)])
      ensures expanded == old(expanded) && subjectsByModule == old(subjectsByModule)
      ensures topicsBySubject == old(topicsBySubject)
    {
      var step := GuardedLoad(modulesByYear, yearId, response);
      if step.fetched {
        requests := requests + [GetModules(yearId)];
      }
      modulesByYear := step.cache;
    }

    /** `loadSubjects(moduleId)`. */
    method LoadSubjects(moduleId: string, response: Outcome<seq<Node>>)
      modifies this
      ensures subjectsByModule == GuardedLoad(old(subjectsByModule), moduleId, response).cache
      ensures requests == old(requests) + (if moduleId in old(subjectsByModule) then [] else [GetSubjects(moduleId)])
      ensures expanded == old(expanded) && modulesByYear == old(modulesByYear)
      ensures topicsBySubject == old(topicsBySubject)
    {
      var step := GuardedLoad(subjectsByModule, moduleId, response);
      if step.fetched {
        requests := requests + [GetSubjects(moduleId)];
      }
      subjectsByModule := step.cache;
    }

    /** `loadTopics(subjectId)`. */
    method LoadTopics(subjectId: string, response: Outcome<seq<Node>>)
      modifies this
      ensures topicsBySubject == GuardedLoad(old(topicsBySubject), subjectId, response).cache
      ensures requests == old(requests) + (if subjectId in old(topicsBySubject) then [] else [GetTopics(subjectId)])
      ensures expanded == old(expanded) && modulesByYear == old(modulesByYear)
      ensures subjectsByModule == old(subjectsByModule)
    {
      var step := GuardedLoad(topicsBySubject, subjectId, response);
      if step.fetched {
        requests := requests + [GetTopics(subjectId)];
      }
      topicsBySubject := step.cache;
    }

    /** Clicking a year row: toggle `y-<id>`, then load its modules. */
    method ClickYear(year: Node, response: Outcome<seq<Node>>)
      modifies this
      ensures expanded == Toggle(old(expanded), Key(YearLevel, year.id))
      ensures modulesByYear == GuardedLoad(old(modulesByYear), year.id, response).cache
      ensures requests == old(requests) + (if year.id in old(modulesByYear) then [] else [GetModules(year.id)])
      ensures subjectsByModule == old(subjectsByModule) && topicsBySubject == old(topicsBySubject)
    {
      DoToggle(Key(YearLevel, year.id));
      LoadModules(year.id, response);
    }

    /** Clicking a module row: toggle `m-<id>`, then load its subjects. */
    method ClickModule(module_: Node, response: Outcome<seq<Node>>)
      modifies this
      ensures expanded == Toggle(old(expanded), Key(ModuleLevel, module_.id))
      ensures subjectsByModule == GuardedLoad(old(subjectsByModule), module_.id, response).cache
      ensures requests == old(requests) + (if module_.id in old(subjectsByModule) then [] else [GetSubjects(module_.id)])
      ensures modulesByYear == old(modulesByYear) && topicsBySubject == old(topicsBySubject)
    {
      DoToggle(Key(ModuleLevel, module_.id));
      LoadSubjects(module_.id, response);
    }

    /** Clicking a subject row: toggle `s-<id>`, then load its topics. */
    method ClickSubject(subject: Node, response: Outcome<seq<Node>>)
      modifies this
      ensures expanded == Toggle(old(expanded), Key(SubjectLevel, subject.id))
      ensures topicsBySubject == GuardedLoad(old(topicsBySubject), subject.id, response).cache
      ensures requests == old(requests) + (if subject.id in old(topicsBySubject) then [] else [GetTopics(subject.id)])
      ensures modulesByYear == old(modulesByYear) && subjectsByModule == old(subjectsByModule)
    {
      DoToggle(Key(SubjectLevel, subject.id));
      LoadTopics(subject.id, response);
    }

    /** The modules rendered under a year. */
    function ModulesShown(year: Node): seq<Node>
      reads this
    {
      VisibleChildren(expanded, YearLevel, modulesByYear, year.id)
    }
  }
}
