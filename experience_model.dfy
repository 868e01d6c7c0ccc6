/** The persistence rules of an experience document: its fields, role types, defaults,
    required paths, and the pre-save guard on "currently working" against an end date. */
module ExperienceModel {
  import opened Base
  import opened ObjectIds

  /** The nine values of the `RoleType` enum. */
  datatype RoleType = FullTime | PartTime | Contract | Internship | Freelance | Temporary | Remote | Onsite | Hybrid

  /** The string stored for each role type. */
  function Label(t: RoleType): string {
    match t
    case FullTime => "Full-time"
    case PartTime => "Part-time"
    case Contract => "Contract"
    case Internship => "Internship"
    case Freelance => "Freelance"
    case Temporary => "Temporary"
    case Remote => "Remote"
    case Onsite => "Onsite"
    case Hybrid => "Hybrid"
  }

  /** The enum check on `roleType`: only the nine labels are accepted, each naming its own role type. */
  function ParseRoleType(s: string): (r: Option<RoleType>)
    ensures r.Some? ==> Label(r.value) == s
    ensures r.None? ==> forall t :: Label(t) != s
  {
    if s == "Full-time" then Some(FullTime)
    else if s == "Part-time" then Some(PartTime)
    else if s == "Contract" then Some(Contract)
    else if s == "Internship" then Some(Internship)
    else if s == "Freelance" then Some(Freelance)
    else if s == "Temporary" then Some(Temporary)
    else if s == "Remote" then Some(Remote)
    else if s == "Onsite" then Some(Onsite)
    else if s == "Hybrid" then Some(Hybrid)
    else None
  }

  /** Labels are pairwise distinct, so parsing a label gives back its role type. */
  lemma ParseLabel(t: RoleType)
    ensures ParseRoleType(Label(t)) == Some(t)
  {
  }

  /** A stored experience. A missing and a `null` end date are both `None`. */
  datatype Experience = Experience(
    id: ObjectId,
    startDate: Millis,
    endDate: Option<Millis>,
    currentlyWorking: bool,
    featured: bool,
    organization: string,
    currentPosition: string,
    previousPositions: seq<string>,
    roleType: RoleType,
    description: seq<string>,
    skills: seq<string>)

  /** The plain object given to `new Experience(...)`, or to `findByIdAndUpdate` as the update:
      any field may be left out. */
  datatype ExperienceFields = ExperienceFields(
    startDate: Option<Millis>,
    endDate: Nullable<Millis>,
    currentlyWorking: Option<bool>,
    featured: Option<bool>,
    organization: Option<string>,
    currentPosition: Option<string>,
    previousPositions: Option<seq<string>>,
    roleType: Option<string>,
    description: Option<seq<string>>,
    skills: Option<seq<string>>)

  /** Why a save or an update is refused. */
  datatype SaveError =
    | ValidationFailed      // a schema validator rejected a path
    | EndDateWhileWorking   // the pre-save guard: "End date must be null if currently working is true"
    | DuplicateKey          // the `_id` is already taken

  /** Mongoose's `required` on a String path: present and not the empty string. */
  predicate RequiredString(s: Option<string>) {
    s.Some? && s.value != ""
  }

  function EndDateOf(n: Nullable<Millis>): Option<Millis> {
    if n.Present? then Some(n.value) else None
  }

  /** Builds and validates the document: `startDate`, `featured`, `organization`, `currentPosition`
      and `roleType` are required, `roleType` must be one of the nine labels, `currentlyWorking`
      defaults to true, and the three lists default to empty. */
  function NewExperience(id: ObjectId, f: ExperienceFields): (r: Result<Experience, SaveError>)
    ensures r.Ok? <==> && f.startDate.Some? && f.featured.Some?
                       && RequiredString(f.organization) && RequiredString(f.currentPosition)
                       && f.roleType.Some? && ParseRoleType(f.roleType.value).Some?
    ensures r.Err? ==> r.error == ValidationFailed
    ensures r.Ok? ==> && r.value.id == id
                      && Some(r.value.startDate) == f.startDate
                      && r.value.endDate == EndDateOf(f.endDate)
                      && Some(r.value.featured) == f.featured
                      && Some(r.value.organization) == f.organization
                      && Some(r.value.currentPosition) == f.currentPosition
                      && Some(Label(r.value.roleType)) == f.roleType
    ensures r.Ok? ==> && r.value.currentlyWorking == (f.currentlyWorking != Some(false))
                      && r.value.previousPositions == GetOr(f.previousPositions, [])
                      && r.value.description == GetOr(f.description, [])
                      && r.value.skills == GetOr(f.skills, [])
  {
    if f.startDate.None? || f.featured.None? || !RequiredString(f.organization)
       || !RequiredString(f.currentPosition) || f.roleType.None?
    then Err(ValidationFailed)
    else match ParseRoleType(f.roleType.value)
      case None => Err(ValidationFailed)
      case Some(role) =>
        Ok(Experience(id, f.startDate.value, EndDateOf(f.endDate), GetOr(f.currentlyWorking, true),
                      f.featured.value, f.organization.value, f.currentPosition.value,
                      GetOr(f.previousPositions, []), role, GetOr(f.description, []), GetOr(f.skills, [])))
  }

  /** The pre-save hook: a document that is currently working and has an end date is refused. */
  function PreSave(e: Experience): (r: Result<Experience, SaveError>)
    ensures r.Ok? <==> !(e.currentlyWorking && e.endDate.Some?)
    ensures r.Ok? ==> r.value == e
    ensures r.Err? ==> r.error == EndDateWhileWorking
  {
    if e.currentlyWorking && e.endDate.Some? then Err(EndDateWhileWorking) else Ok(e)
  }

  /** `new Experience(fields).save()` up to the insert: schema validation, then the pre-save hook. */
  function Save(id: ObjectId, f: ExperienceFields): Result<Experience, SaveError> {
    match NewExperience(id, f)
    case Err(e) => Err(e)
    case Ok(doc) => PreSave(doc)
  }

  /** Every saved document respects the guard; in particular an omitted `currentlyWorking`
      (defaulting to true) together with an end date is refused. */
  lemma SavedDocumentsRespectGuard(id: ObjectId, f: ExperienceFields)
    ensures Save(id, f).Ok? ==> !(Save(id, f).value.currentlyWorking && Save(id, f).value.endDate.Some?)
    ensures f.currentlyWorking != Some(false) && f.endDate.Present? ==> Save(id, f).Err?
  {
  }

  /** The validators `runValidators` applies to the paths an update sets: the role type must be a
      label and a required string may not be set to the empty string. */
  predicate UpdateValidates(f: ExperienceFields) {
    && (f.roleType.Some? ==> ParseRoleType(f.roleType.value).Some?)
    && (f.organization.Some? ==> f.organization.value != "")
    && (f.currentPosition.Some? ==> f.currentPosition.value != "")
  }

  /** The document after `findByIdAndUpdate(id, f)`: every supplied field replaces the stored one,
      a `null` end date clears it, and nothing else changes. No pre-save hook runs. */
  function ApplyUpdate(e: Experience, f: ExperienceFields): (r: Experience)
    requires UpdateValidates(f)
    ensures r.id == e.id
    ensures r.startDate == GetOr(f.startDate, e.startDate)
    ensures r.endDate == (match f.endDate case Missing => e.endDate case Null => None case Present(d) => Some(d))
    ensures r.currentlyWorking == GetOr(f.currentlyWorking, e.currentlyWorking)
    ensures r.featured == GetOr(f.featured, e.featured)
    ensures r.organization == GetOr(f.organization, e.organization)
    ensures r.currentPosition == GetOr(f.currentPosition, e.currentPosition)
    ensures r.previousPositions == GetOr(f.previousPositions, e.previousPositions)
    ensures f.roleType.Some? ==> Label(r.roleType) == f.roleType.value
    ensures f.roleType.None? ==> r.roleType == e.roleType
    ensures r.description == GetOr(f.description, e.description)
    ensures r.skills == GetOr(f.skills, e.skills)
  {
    Experience(
      e.id,
      GetOr(f.startDate, e.startDate),
      match f.endDate case Missing => e.endDate case Null => None case Present(d) => Some(d),
      GetOr(f.currentlyWorking, e.currentlyWorking),
      GetOr(f.featured, e.featured),
      GetOr(f.organization, e.organization),
      GetOr(f.currentPosition, e.currentPosition),
      GetOr(f.previousPositions, e.previousPositions),
      if f.roleType.Some? then ParseRoleType(f.roleType.value).value else e.roleType,
      GetOr(f.description, e.description),
      GetOr(f.skills, e.skills))
  }

  /** Because updates bypass the pre-save hook, an update can store a document that is
      currently working and has an end date, which `Save` never produces. */
  lemma UpdateCanBreakGuard(e: Experience, d: Millis)
    ensures var f := ExperienceFields(None, Present(d), Some(true), None, None, None, None, None, None, None);
            UpdateValidates(f) && ApplyUpdate(e, f).currentlyWorking && ApplyUpdate(e, f).endDate == Some(d)
  {
  }
}
