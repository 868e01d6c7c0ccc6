/** The persistence rules of a project document: required paths, the team-size minimum and defaults. */
module ProjectModel {
  import opened Base
  import opened ObjectIds

  datatype Timeline = Timeline(start: Millis, end: Option<Millis>)

  /** A stored project. `createdAt` is the insert time that the timestamps option records. */
  datatype Project = Project(
    id: ObjectId,
    title: string,
    description: seq<string>,
    madeAt: Option<string>,
    imgUrl: string,
    timeline: Timeline,
    featured: bool,
    completed: bool,
    teamSize: real,
    skills: seq<string>,
    tags: seq<string>,
    githubUrl: Option<string>,
    liveUrl: Option<string>,
    createdAt: Millis)

  /** The plain object given to `new Project(...)`, or to `findByIdAndUpdate` as the update. A
      `timeline` given with no start is `Some` with a `None` start. */
  datatype ProjectFields = ProjectFields(
    title: Option<string>,
    description: Option<seq<string>>,
    madeAt: Option<string>,
    imgUrl: Option<string>,
    timeline: Option<(Option<Millis>, Option<Millis>)>,
    featured: Option<bool>,
    completed: Option<bool>,
    teamSize: Option<real>,
    skills: Option<seq<string>>,
    tags: Option<seq<string>>,
    githubUrl: Option<string>,
    liveUrl: Option<string>)

  datatype SaveError = ValidationFailed | DuplicateKey

  const PlaceholderImage := "https://res.cloudinary.com/dmknbak4t/image/upload/v1739515347/pexels-luis-gomes-166706-546819_vr4jlv.jpg"

  /** Builds and validates the document: `title`, `timeline.start` and `teamSize` are required, the
      team has at least one member, `featured` and `completed` default to false, the three lists
      default to empty and `imgUrl` to the placeholder image. */
  function NewProject(id: ObjectId, f: ProjectFields, now: Millis): (r: Result<Project, SaveError>)
    ensures f.title.None? || f.title == Some("") ==> r.Err?
    ensures f.timeline.None? || f.timeline.value.0.None? ==> r.Err?
    ensures f.teamSize.None? || f.teamSize.value < 1.0 ==> r.Err?
    ensures r.Err? ==> r.error == ValidationFailed
    ensures r.Ok? ==> && r.value.id == id && r.value.createdAt == now
                      && Some(r.value.title) == f.title
                      && Some(r.value.timeline.start) == f.timeline.value.0
                      && r.value.timeline.end == f.timeline.value.1
                      && Some(r.value.teamSize) == f.teamSize && r.value.teamSize >= 1.0
                      && r.value.madeAt == f.madeAt && r.value.githubUrl == f.githubUrl
                      && r.value.liveUrl == f.liveUrl
    ensures r.Ok? ==> && r.value.featured == (f.featured == Some(true))
                      && r.value.completed == (f.completed == Some(true))
                      && r.value.description == GetOr(f.description, [])
                      && r.value.skills == GetOr(f.skills, [])
                      && r.value.tags == GetOr(f.tags, [])
                      && r.value.imgUrl == GetOr(f.imgUrl, PlaceholderImage)
    ensures (f.title.Some? && f.title.value != "" && f.timeline.Some? && f.timeline.value.0.Some?
             && f.teamSize.Some? && f.teamSize.value >= 1.0) ==> r.Ok?
  {
    if f.title.None? || f.title.value == "" || f.timeline.None? || f.timeline.value.0.None?
       || f.teamSize.None? || f.teamSize.value < 1.0
    then Err(ValidationFailed)
    else Ok(Project(id, f.title.value, GetOr(f.description, []), f.madeAt, GetOr(f.imgUrl, PlaceholderImage),
                    Timeline(f.timeline.value.0.value, f.timeline.value.1), GetOr(f.featured, false),
                    GetOr(f.completed, false), f.teamSize.value, GetOr(f.skills, []), GetOr(f.tags, []),
                    f.githubUrl, f.liveUrl, now))
  }

  /** The validators `runValidators` applies to the paths an update sets: a title may not be set to
      the empty string, a timeline must carry a start, and the team size stays at least one. */
  predicate UpdateValidates(f: ProjectFields) {
    && (f.title.Some? ==> f.title.value != "")
    && (f.timeline.Some? ==> f.timeline.value.0.Some?)
    && (f.teamSize.Some? ==> f.teamSize.value >= 1.0)
  }

  /** The document after `findByIdAndUpdate(id, f)`: each supplied path replaces the stored one (a
      supplied `timeline` replaces the whole sub-document, end included); id and `createdAt` stay. */
  function ApplyUpdate(p: Project, f: ProjectFields): (r: Project)
    requires UpdateValidates(f)
    ensures r.id == p.id && r.createdAt == p.createdAt
    ensures r.title == GetOr(f.title, p.title) && r.description == GetOr(f.description, p.description)
    ensures r.madeAt == (if f.madeAt.Some? then f.madeAt else p.madeAt)
    ensures r.imgUrl == GetOr(f.imgUrl, p.imgUrl)
    ensures f.timeline.None? ==> r.timeline == p.timeline
    ensures f.timeline.Some? ==> r.timeline == Timeline(f.timeline.value.0.value, f.timeline.value.1)
    ensures r.featured == GetOr(f.featured, p.featured) && r.completed == GetOr(f.completed, p.completed)
    ensures r.teamSize == GetOr(f.teamSize, p.teamSize)
    ensures r.skills == GetOr(f.skills, p.skills) && r.tags == GetOr(f.tags, p.tags)
    ensures r.githubUrl == (if f.githubUrl.Some? then f.githubUrl else p.githubUrl)
    ensures r.liveUrl == (if f.liveUrl.Some? then f.liveUrl else p.liveUrl)
  {
    p.(title := GetOr(f.title, p.title),
       description := GetOr(f.description, p.description),
       madeAt := if f.madeAt.Some? then f.madeAt else p.madeAt,
       imgUrl := GetOr(f.imgUrl, p.imgUrl),
       timeline := if f.timeline.Some? then Timeline(f.timeline.value.0.value, f.timeline.value.1) else p.timeline,
       featured := GetOr(f.featured, p.featured),
       completed := GetOr(f.completed, p.completed),
       teamSize := GetOr(f.teamSize, p.teamSize),
       skills := GetOr(f.skills, p.skills),
       tags := GetOr(f.tags, p.tags),
       githubUrl := if f.githubUrl.Some? then f.githubUrl else p.githubUrl,
       liveUrl := if f.liveUrl.Some? then f.liveUrl else p.liveUrl)
  }

  /** Every stored project has a team of at least one, whether it was created or updated. */
  lemma TeamSizeInvariant(id: ObjectId, f: ProjectFields, g: ProjectFields, now: Millis)
    ensures NewProject(id, f, now).Ok? ==> NewProject(id, f, now).value.teamSize >= 1.0
    ensures forall p: Project :: p.teamSize >= 1.0 && UpdateValidates(g) ==> ApplyUpdate(p, g).teamSize >= 1.0
  {
  }
}
