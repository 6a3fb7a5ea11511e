/**
 * The admin resource tree: years, modules (with subjects and OSPEs), subjects (with
 * topics) and topics (with MCQs). Every expansion refetches, deletes go through one
 * confirmation dialog, and the edit forms open in create or edit mode.
 */
module AdminResources {
  import opened Wrappers
  import opened Tree

  /** A request the page sends to the admin service. */
  datatype Request =
    | GetYears
    | GetModules(yearId: string)
    | GetSubjects(moduleId: string)
    | GetTopics(subjectId: string)
    | GetOspes(moduleId: string)
    | GetMcqs(topicId: string)
    | DeleteYear(id: string)
    | DeleteModule(id: string)
    | DeleteSubject(id: string)
    | DeleteTopic(id: string)
    | DeleteMcq(topicId: string, mcqId: string)
    | DeleteOspe(id: string)

  /** The confirmation dialog's payload: what to delete and the parent to refresh. */
  datatype DeleteTarget =
    | YearTarget(id: string)
    | ModuleTarget(id: string, parentId: string)
    | SubjectTarget(id: string, parentId: string)
    | TopicTarget(id: string, parentId: string)
    | McqTarget(id: string, topicId: string)
    | OspeTarget(id: string, parentId: string)

  /** The delete request the dialog's Delete button dispatches for its target. */
  function DeleteRequest(t: DeleteTarget): (r: Request)
    ensures t.YearTarget? <==> r.DeleteYear?
    ensures t.ModuleTarget? <==> r.DeleteModule?
    ensures t.SubjectTarget? <==> r.DeleteSubject?
    ensures t.TopicTarget? <==> r.DeleteTopic?
    ensures t.McqTarget? <==> r.DeleteMcq?
    ensures t.OspeTarget? <==> r.DeleteOspe?
    ensures t.McqTarget? ==> r.topicId == t.topicId && r.mcqId == t.id
    ensures !t.McqTarget? ==> r.id == t.id
  {
    match t
    case YearTarget(id) => DeleteYear(id)
    case ModuleTarget(id, _) => DeleteModule(id)
    case SubjectTarget(id, _) => DeleteSubject(id)
    case TopicTarget(id, _) => DeleteTopic(id)
    case McqTarget(id, topicId) => DeleteMcq(topicId, id)
    case OspeTarget(id, _) => DeleteOspe(id)
  }

  /** The reload that follows a successful delete: the deleted item's parent list. */
  function ReloadRequest(t: DeleteTarget): (r: Request)
    ensures t.YearTarget? ==> r == GetYears
    ensures t.ModuleTarget? ==> r == GetModules(t.parentId)
    ensures t.SubjectTarget? ==> r == GetSubjects(t.parentId)
    ensures t.TopicTarget? ==> r == GetTopics(t.parentId)
    ensures t.McqTarget? ==> r == GetMcqs(t.topicId)
    ensures t.OspeTarget? ==> r == GetOspes(t.parentId)
  {
    match t
    case YearTarget(_) => GetYears
    case ModuleTarget(_, p) => GetModules(p)
    case SubjectTarget(_, p) => GetSubjects(p)
    case TopicTarget(_, p) => GetTopics(p)
    case McqTarget(_, topicId) => GetMcqs(topicId)
    case OspeTarget(_, p) => GetOspes(p)
  }

  /** Whether a form saves a new record or updates an existing one. */
  datatype FormMode = Create | Edit(id: string)

  /** The year form edits exactly when the selected object has an `_id` (`{}` means add). */
  function YearFormMode(selectedId: Option<string>): (m: FormMode)
    ensures m.Edit? <==> selectedId.Some? && selectedId.value != ""
    ensures m.Edit? ==> m.id == selectedId.value
  {
    if selectedId.Some? && selectedId.value != "" then Edit(selectedId.value) else Create
  }

  /** The module, subject, topic and MCQ forms edit exactly when a child object was supplied. */
  function ChildFormMode(child: Option<Node>): (m: FormMode)
    ensures m.Edit? <==> child.Some?
    ensures m.Edit? ==> m.id == child.value.id
  {
    if child.Some? then Edit(child.value.id) else Create
  }

  /** The page's state: years, the five child maps, the expand flags, the dialog and the requests sent. */
  class ResourceTree {
    var years: seq<Node>
    var modulesByYear: map<string, seq<Node>>
    var subjectsByModule: map<string, seq<Node>>
    var topicsBySubject: map<string, seq<Node>>
    var ospesByModule: map<string, seq<Node>>
    var mcqsByTopic: map<string, seq<Node>>
    var expanded: map<string, bool>
    var deleteConfirm: Option<DeleteTarget>
    var requests: seq<Request>

    constructor ()
      ensures years == [] && modulesByYear == map[] && subjectsByModule == map[]
      ensures topicsBySubject == map[] && ospesByModule == map[] && mcqsByTopic == map[]
      ensures expanded == map[] && deleteConfirm == None && requests == []
    {
      years := [];
      modulesByYear := map[];
      subjectsByModule := map[];
      topicsBySubject := map[];
      ospesByModule := map[];
      mcqsByTopic := map[];
      expanded := map[];
      deleteConfirm := None;
      requests := [];
    }

    /** `loadYears`: a failed fetch empties the list. */
    method LoadYears(response: Outcome<seq<Node>>)
      modifies this
      ensures years == (if response.Ok? then response.data else [])
      ensures requests == old(requests) + [GetYears]
      ensures modulesByYear == old(modulesByYear) && subjectsByModule == old(subjectsByModule)
      ensures topicsBySubject == old(topicsBySubject) && ospesByModule == old(ospesByModule)
      ensures mcqsByTopic == old(mcqsByTopic) && expanded == old(expanded)
      ensures deleteConfirm == old(deleteConfirm)
    {
      requests := requests + [GetYears];
      years := if response.Ok? then response.data else [];
    }

    /** `loadModules(yearId)`: always fetches; overwrites only that year's entry. */
    method LoadModules(yearId: string, response: Outcome<seq<Node>>)
      modifies this
      ensures modulesByYear == Refetch(old(modulesByYear), yearId, response)
      ensures requests == old(requests) + [GetModules(yearId)]
      ensures years == old(years) && subjectsByModule == old(subjectsByModule)
      ensures topicsBySubject == old(topicsBySubject) && ospesByModule == old(ospesByModule)
      ensures mcqsByTopic == old(mcqsByTopic) && expanded == old(expanded)
      ensures deleteConfirm == old(deleteConfirm)
    {
      requests := requests + [GetModules(yearId)];
      modulesByYear := Refetch(modulesByYear, yearId, response);
    }

    /** `loadSubjects(moduleId)`. */
    method LoadSubjects(moduleId: string, response: Outcome<seq<Node>>)
      modifies this
      ensures subjectsByModule == Refetch(old(subjectsByModule), moduleId, response)
      ensures requests == old(requests) + [GetSubjects(moduleId)]
      ensures years == old(years) && modulesByYear == old(modulesByYear)
      ensures topicsBySubject == old(topicsBySubject) && ospesByModule == old(ospesByModule)
      ensures mcqsByTopic == old(mcqsByTopic) && expanded == old(expanded)
      ensures deleteConfirm == old(deleteConfirm)
    {
      requests := requests + [GetSubjects(moduleId)];
      subjectsByModule := Refetch(subjectsByModule, moduleId, response);
    }

    /** `loadTopics(subjectId)`. */
    method LoadTopics(subjectId: string, response: Outcome<seq<Node>>)
      modifies this
      ensures topicsBySubject == Refetch(old(topicsBySubject), subjectId, response)
      ensures requests == old(requests) + [GetTopics(subjectId)]
      ensures years == old(years) && modulesByYear == old(modulesByYear)
      ensures subjectsByModule == old(subjectsByModule) && ospesByModule == old(ospesByModule)
      ensures mcqsByTopic == old(mcqsByTopic) && expanded == old(expanded)
      ensures deleteConfirm == old(deleteConfirm)
    {
      requests := requests + [GetTopics(subjectId)];
      topicsBySubject := Refetch(topicsBySubject, subjectId, response);
    }

    /** `loadOspes(moduleId)`. */
    method LoadOspes(moduleId: string, response: Outcome<seq<Node>>)
      modifies this
      ensures ospesByModule == Refetch(old(ospesByModule), moduleId, response)
      ensures requests == old(requests) + [GetOspes(moduleId)]
      ensures years == old(years) && modulesByYear == old(modulesByYear)
      ensures subjectsByModule == old(subjectsByModule) && topicsBySubject == old(topicsBySubject)
      ensures mcqsByTopic == old(mcqsByTopic) && expanded == old(expanded)
      ensures deleteConfirm == old(deleteConfirm)
    {
      requests := requests + [GetOspes(moduleId)];
      ospesByModule := Refetch(ospesByModule, moduleId, response);
    }

    /** `loadMcqs(topicId)`. */
    method LoadMcqs(topicId: string, response: Outcome<seq<Node>>)
      modifies this
      ensures mcqsByTopic == Refetch(old(mcqsByTopic), topicId, response)
      ensures requests == old(requests) + [GetMcqs(topicId)]
      ensures years == old(years) && modulesByYear == old(modulesByYear)
      ensures subjectsByModule == old(subjectsByModule) && topicsBySubject == old(topicsBySubject)
      ensures ospesByModule == old(ospesByModule) && expanded == old(expanded)
      ensures deleteConfirm == old(deleteConfirm)
    {
      requests := requests + [GetMcqs(topicId)];
      mcqsByTopic := Refetch(mcqsByTopic, topicId, response);
    }

    /** Clicking a year row: toggle `y-<id>` and refetch its modules, even if it was collapsing. */
    method ClickYear(yearId: string, response: Outcome<seq<Node>>)
      modifies this
      ensures expanded == Toggle(old(expanded), Key(YearLevel, yearId))
      ensures modulesByYear == Refetch(old(modulesByYear), yearId, response)
      ensures requests == old(requests) + [GetModules(yearId)]
      ensures years == old(years) && subjectsByModule == old(subjectsByModule)
      ensures topicsBySubject == old(topicsBySubject) && ospesByModule == old(ospesByModule)
      ensures mcqsByTopic == old(mcqsByTopic) && deleteConfirm == old(deleteConfirm)
    {
      expanded := Toggle(expanded, Key(YearLevel, yearId));
      LoadModules(yearId, response);
    }

    /** Clicking a module row: toggle `m-<id>` and refetch both its subjects and its OSPEs. */
    method ClickModule(moduleId: string, subjects: Outcome<seq<Node>>, ospes: Outcome<seq<Node>>)
      modifies this
      ensures expanded == Toggle(old(expanded), Key(ModuleLevel, moduleId))
      ensures subjectsByModule == Refetch(old(subjectsByModule), moduleId, subjects)
      ensures ospesByModule == Refetch(old(ospesByModule), moduleId, ospes)
      ensures requests == old(requests) + [GetSubjects(moduleId), GetOspes(moduleId)]
      ensures years == old(years) && modulesByYear == old(modulesByYear)
      ensures topicsBySubject == old(topicsBySubject) && mcqsByTopic == old(mcqsByTopic)
      ensures deleteConfirm == old(deleteConfirm)
    {
      expanded := Toggle(expanded, Key(ModuleLevel, moduleId));
      LoadSubjects(moduleId, subjects);
      LoadOspes(moduleId, ospes);
    }

    /** Clicking a subject row: toggle `s-<id>` and refetch its topics. */
    method ClickSubject(subjectId: string, response: Outcome<seq<Node>>)
      modifies this
      ensures expanded == Toggle(old(expanded), Key(SubjectLevel, subjectId))
      ensures topicsBySubject == Refetch(old(topicsBySubject), subjectId, response)
      ensures requests == old(requests) + [GetTopics(subjectId)]
      ensures years == old(years) && modulesByYear == old(modulesByYear)
      ensures subjectsByModule == old(subjectsByModule) && ospesByModule == old(ospesByModule)
      ensures mcqsByTopic == old(mcqsByTopic) && deleteConfirm == old(deleteConfirm)
    {
      expanded := Toggle(expanded, Key(SubjectLevel, subjectId));
      LoadTopics(subjectId, response);
    }

    /** Clicking a topic row: toggle `t-<id>` and refetch its MCQs. */
    method ClickTopic(topicId: string, response: Outcome<seq<Node>>)
      modifies this
      ensures expanded == Toggle(old(expanded), Key(TopicLevel, topicId))
      ensures mcqsByTopic == Refetch(old(mcqsByTopic), topicId, response)
      ensures requests == old(requests) + [GetMcqs(topicId)]
      ensures years == old(years) && modulesByYear == old(modulesByYear)
      ensures subjectsByModule == old(subjectsByModule) && topicsBySubject == old(topicsBySubject)
      ensures ospesByModule == old(ospesByModule) && deleteConfirm == old(deleteConfirm)
    {
      expanded := Toggle(expanded, Key(TopicLevel, topicId));
      LoadMcqs(topicId, response);
    }

    /** A Delete icon opens the confirmation dialog for its item. */
    method AskDelete(t: DeleteTarget)
      modifies this
      ensures deleteConfirm == Some(t)
      ensures years == old(years) && modulesByYear == old(modulesByYear)
      ensures subjectsByModule == old(subjectsByModule) && topicsBySubject == old(topicsBySubject)
      ensures ospesByModule == old(ospesByModule) && mcqsByTopic == old(mcqsByTopic)
      ensures expanded == old(expanded) && requests == old(requests)
    {
      deleteConfirm := Some(t);
    }

    /**
     * The dialog's Delete button: the matching delete is sent; after success the parent's
     * list is reloaded (`reload` is that fetch's outcome) and the dialog closes, after a
     * failure the dialog stays open and nothing is reloaded.
     */
    method ConfirmDelete(deleted: Outcome<()>, reload: Outcome<seq<Node>>)
      requires deleteConfirm.Some?
      modifies this
      ensures var t := old(deleteConfirm.value);
              requests == old(requests) + [DeleteRequest(t)] + (if deleted.Ok? then [ReloadRequest(t)] else [])
      ensures deleted.Ok? <==> deleteConfirm == None
      ensures deleted.Failed? ==> deleteConfirm == old(deleteConfirm)
      ensures var t := old(deleteConfirm.value);
              years == (if deleted.Ok? && t.YearTarget? then (if reload.Ok? then reload.data else []) else old(years))
      ensures var t := old(deleteConfirm.value);
              modulesByYear == (if deleted.Ok? && t.ModuleTarget? then Refetch(old(modulesByYear), t.parentId, reload) else old(modulesByYear))
      ensures var t := old(deleteConfirm.value);
              subjectsByModule == (if deleted.Ok? && t.SubjectTarget? then Refetch(old(subjectsByModule), t.parentId, reload) else old(subjectsByModule))
      ensures var t := old(deleteConfirm.value);
              topicsBySubject == (if deleted.Ok? && t.TopicTarget? then Refetch(old(topicsBySubject), t.parentId, reload) else old(topicsBySubject))
      ensures var t := old(deleteConfirm.value);
              mcqsByTopic == (if deleted.Ok? && t.McqTarget? then Refetch(old(mcqsByTopic), t.topicId, reload) else old(mcqsByTopic))
      ensures var t := old(deleteConfirm.value);
              ospesByModule == (if deleted.Ok? && t.OspeTarget? then Refetch(old(ospesByModule), t.parentId, reload) else old(ospesByModule))
      ensures expanded == old(expanded)
    {
      var t := deleteConfirm.value;
      requests := requests + [DeleteRequest(t)];
      if deleted.Failed? {
        return;
      }
      match t {
        case YearTarget(_) => LoadYears(reload);
        case ModuleTarget(_, p) => LoadModules(p, reload);
        case SubjectTarget(_, p) => LoadSubjects(p, reload);
        case TopicTarget(_, p) => LoadTopics(p, reload);
        case McqTarget(_, topicId) => LoadMcqs(topicId, reload);
        case OspeTarget(_, p) => LoadOspes(p, reload);
      }
      deleteConfirm := None;
    }
  }
}
