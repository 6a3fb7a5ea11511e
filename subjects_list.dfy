/** The admin subject list: its rows are subjects, each referring to its module. */
module SubjectsList {
  import opened Wrappers
  import opened ListView

  /** The route of a subject's page: year, module and subject ids. */
  datatype SubjectPath = SubjectPath(yearId: string, moduleId: string, subjectId: string)

  /** `subject.module?._id`: only a populated module carries its own id. */
  function ModuleId(subject: Row): string {
    if subject.parent.Obj? then subject.parent.id else ""
  }

  /** `mod?.year?._id || mod?.year`. */
  function YearId(subject: Row): string {
    RefId(RefParent(subject.parent))
  }

  /** `getSubjectLink`: a link exists only when the module has both a year id and an `_id`. */
  function SubjectLink(subject: Row): (link: Option<SubjectPath>)
    ensures link.Some? <==> YearId(subject) != "" && ModuleId(subject) != ""
    ensures link.Some? ==> link.value == SubjectPath(YearId(subject), ModuleId(subject), subject.id)
  {
    var mod := subject.parent;
    var yearId := RefId(RefParent(mod));
    if yearId == "" || !mod.Obj? || mod.id == "" then None
    else Some(SubjectPath(yearId, mod.id, subject.id))
  }
}
