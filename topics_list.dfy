/** The admin topic list: its rows are topics, each referring to its subject. */
module TopicsList {
  import opened Wrappers
  import opened ListView

  /** The route of a topic's page: year, module, subject and topic ids. */
  datatype TopicPath = TopicPath(yearId: string, moduleId: string, subjectId: string, topicId: string)

  /** `topic.subject?._id`: only a populated subject carries its own id. */
  function SubjectId(topic: Row): string {
    if topic.parent.Obj? then topic.parent.id else ""
  }

  /** `topic.subject?.module?._id`. */
  function ModuleId(topic: Row): string {
    var m := RefParent(topic.parent);
    if m.Obj? then m.id else ""
  }

  /** `mod?.year?._id || mod?.year`: a populated year or a raw year id. */
  function YearId(topic: Row): string {
    RefId(RefParent(RefParent(topic.parent)))
  }

  /** `getTopicLink`: a link exists only with a year id, a module id and a subject id. */
  function TopicLink(topic: Row): (link: Option<TopicPath>)
    ensures link.Some? <==> YearId(topic) != "" && ModuleId(topic) != "" && SubjectId(topic) != ""
    ensures link.Some? ==> link.value == TopicPath(YearId(topic), ModuleId(topic), SubjectId(topic), topic.id)
  {
    var sub := topic.parent;
    var mod := RefParent(sub);
    var yearId := RefId(RefParent(mod));
    if yearId == "" || !mod.Obj? || mod.id == "" || !sub.Obj? || sub.id == "" then None
    else Some(TopicPath(yearId, mod.id, sub.id, topic.id))
  }
}
