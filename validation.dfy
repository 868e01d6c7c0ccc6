/** The request-body schemas: login, experience and project create/update/delete, and resume links.
    A failed parse carries the issue messages in field order; the first one is what callers show. */
module Validation {
  import opened Base
  import opened Text
  import opened ObjectIds
  import opened ExperienceModel
  import ProjectModel

  type Issues = seq<string>

  function IssuesOf<T>(r: Result<T, Issues>): Issues {
    if r.Err? then r.error else []
  }

  /** `z.string().min(lo).max(hi)`, optionally followed by `.trim()`: the length checks see the raw
      text and the output is trimmed afterwards, because zod runs a string's checks in order. */
  function CheckString(s: Option<string>, lo: nat, hi: nat, required: string, tooShort: string, tooLong: string, trim: bool): (r: Result<string, Issues>)
    requires lo <= hi
    ensures r.Ok? <==> s.Some? && lo <= Utf16Length(s.value) <= hi
    ensures r.Ok? ==> r.value == if trim then Trim(s.value) else s.value
    ensures r.Err? ==> |r.error| == 1
  {
    if s.None? then Err([required])
    else if Utf16Length(s.value) < lo then Err([tooShort])
    else if Utf16Length(s.value) > hi then Err([tooLong])
    else Ok(if trim then Trim(s.value) else s.value)
  }

  function CheckBool(b: Option<bool>, required: string): (r: Result<bool, Issues>)
    ensures r.Ok? <==> b.Some?
    ensures r.Ok? ==> Some(r.value) == b
    ensures r.Err? ==> r.error != []
  {
    if b.Some? then Ok(b.value) else Err([required])
  }

  /** `z.coerce.date()`: a missing value coerces to an invalid date. */
  function CheckDate(d: Option<Millis>): (r: Result<Millis, Issues>)
    ensures r.Ok? <==> d.Some?
    ensures r.Ok? ==> Some(r.value) == d
    ensures r.Err? ==> r.error != []
  {
    if d.Some? then Ok(d.value) else Err(["Invalid date"])
  }

  /** `z.array(z.string()).min(1, tooFew)`. */
  function CheckNonEmptyList(l: Option<seq<string>>, tooFew: string): (r: Result<seq<string>, Issues>)
    ensures r.Ok? <==> l.Some? && |l.value| >= 1
    ensures r.Ok? ==> Some(r.value) == l
    ensures r.Err? ==> r.error != []
  {
    if l.None? then Err(["Required"])
    else if |l.value| == 0 then Err([tooFew])
    else Ok(l.value)
  }

  /** zod's default message for a value outside an enum:
      "Invalid enum value. Expected 'Full-time' | ... | 'Hybrid', received '<value>'". */
  function InvalidRoleMessage(received: string): string {
    "Invalid enum value. Expected " + QuotedLabels(AllRoleTypes) + ", received '" + received + "'"
  }

  const AllRoleTypes := [FullTime, PartTime, Contract, Internship, Freelance, Temporary, Remote, Onsite, Hybrid]

  function QuotedLabels(ts: seq<RoleType>): string {
    if ts == [] then ""
    else if |ts| == 1 then "'" + Label(ts[0]) + "'"
    else "'" + Label(ts[0]) + "' | " + QuotedLabels(ts[1..])
  }

  /** `z.enum(roleTypeEnum)`: the value must be one of the nine role-type labels. */
  function CheckRole(s: Option<string>): (r: Result<string, Issues>)
    ensures r.Ok? <==> s.Some? && ParseRoleType(s.value).Some?
    ensures r.Ok? ==> Some(r.value) == s
    ensures r.Err? ==> r.error != []
  {
    if s.None? then Err(["Role type is required"])
    else if ParseRoleType(s.value).None? then Err([InvalidRoleMessage(s.value)])
    else Ok(s.value)
  }

  const EndDateInFuture := "End date must be in the past or current date"
  const EndDateBeforeStartOrNotWorking := "End date must be after start date or currently working must be true"

  /** The refine on a date field: it passes a date no later than `now`, or `null`. */
  predicate EndDateRefineHolds(d: Nullable<Millis>, now: Millis) {
    (d.Present? && d.value <= now) || d.Null?
  }

  /** The experience end date: `.optional().nullable().default(null)` then the refine, so an omitted
      end date becomes `null` and passes. */
  function ExperienceEndDate(d: Nullable<Millis>, now: Millis): (r: Result<Nullable<Millis>, Issues>)
    ensures r.Ok? <==> EndDateRefineHolds(d, now) || d.Missing?
    ensures r.Ok? ==> r.value == if d.Missing? then Null else d
    ensures r.Err? ==> r.error != []
  {
    var v := if d.Missing? then Null else d;
    if EndDateRefineHolds(v, now) then Ok(v) else Err([EndDateInFuture])
  }

  /** The project end date: `.optional().nullable()` then the same refine, with no default, so an
      omitted end date reaches the refine as `undefined` and is rejected. */
  function ProjectEndDate(d: Nullable<Millis>, now: Millis): (r: Result<Nullable<Millis>, Issues>)
    ensures r.Ok? <==> EndDateRefineHolds(d, now)
    ensures r.Ok? ==> r.value == d
    ensures r.Err? ==> r.error != []
  {
    if EndDateRefineHolds(d, now) then Ok(d) else Err([EndDateInFuture])
  }

  /** The create-schema refine: not working requires an end date, and an end date may not precede the start. */
  predicate CrossFieldHolds(currentlyWorking: bool, startDate: Millis, endDate: Nullable<Millis>) {
    && (currentlyWorking || endDate.Present?)
    && (endDate.Present? ==> endDate.value >= startDate)
  }

  // ---------------------------------------------------------------- login

  datatype LoginData = LoginData(username: string, password: string)

  /** `loginSchema`: a username of 3 to 50 characters and a password of 6 to 100. */
  function ValidateLogin(username: Option<string>, password: Option<string>): (r: Result<LoginData, Issues>)
    ensures r.Ok? <==> && username.Some? && 3 <= Utf16Length(username.value) <= 50
                       && password.Some? && 6 <= Utf16Length(password.value) <= 100
    ensures r.Ok? ==> r.value == LoginData(username.value, password.value)
    ensures r.Err? ==> r.error != []
  {
    var u := CheckString(username, 3, 50, "Required", "Username must be at least 3 characters", "Username cannot exceed 50 characters", false);
    var p := CheckString(password, 6, 100, "Required", "Password must be at least 6 characters", "Password cannot exceed 100 characters", false);
    if u.Ok? && p.Ok? then Ok(LoginData(u.value, p.value)) else Err(IssuesOf(u) + IssuesOf(p))
  }

  /** Lengths are JavaScript lengths: a username of an emoji and a letter is two characters long
      but has length 3, so it meets the minimum of 3. */
  lemma EmojiUsernameMeetsMinimum()
    ensures ValidateLogin(Some("\U{1F600}a"), Some("secret")).Ok?
  {
    Utf16LengthOfEmoji();
    assert Utf16Length("secret") == 6;
  }

  // ---------------------------------------------------------------- experience

  /** The field-level rules of the experience schema, stated on the raw input. */
  predicate ExperienceFieldsValid(x: ExperienceFields, now: Millis) {
    && x.startDate.Some? && x.currentlyWorking.Some? && x.featured.Some?
    && x.organization.Some? && 2 <= Utf16Length(x.organization.value) <= 100
    && x.currentPosition.Some? && 2 <= Utf16Length(x.currentPosition.value) <= 100
    && x.roleType.Some? && ParseRoleType(x.roleType.value).Some?
    && x.description.Some? && |x.description.value| >= 1
    && x.skills.Some? && |x.skills.value| >= 1
    && (x.endDate.Present? ==> x.endDate.value <= now)
  }

  /** `createExperienceSchema.safeParse`. The cross-field issue is reported when every field passes. */
  function ValidateCreateExperience(x: ExperienceFields, now: Millis): (r: Result<ExperienceFields, Issues>)
    ensures r.Ok? <==> ExperienceFieldsValid(x, now)
                       && CrossFieldHolds(x.currentlyWorking.value, x.startDate.value, x.endDate)
    ensures x.currentlyWorking == Some(false) && !x.endDate.Present? ==> r.Err?
    ensures x.endDate.Present? && x.startDate.Some? && x.endDate.value < x.startDate.value ==> r.Err?
    ensures r.Ok? ==> && r.value.startDate == x.startDate && r.value.currentlyWorking == x.currentlyWorking
                      && r.value.featured == x.featured && r.value.roleType == x.roleType
                      && r.value.organization == Some(Trim(x.organization.value))
                      && r.value.currentPosition == Some(Trim(x.currentPosition.value))
                      && r.value.previousPositions == Some(GetOr(x.previousPositions, []))
                      && r.value.description == x.description && r.value.skills == x.skills
                      && r.value.endDate == (if x.endDate.Missing? then Null else x.endDate)
    ensures r.Err? ==> r.error != []
  {
    var sd := CheckDate(x.startDate);
    var cw := CheckBool(x.currentlyWorking, "Currently working status is required");
    var ft := CheckBool(x.featured, "Featured status is required");
    var org := CheckString(x.organization, 2, 100, "Organization is required", "Organization must be at least 2 characters", "Organization cannot exceed 100 characters", true);
    var pos := CheckString(x.currentPosition, 2, 100, "Current position is required", "Position must be at least 2 characters", "Position cannot exceed 100 characters", true);
    var role := CheckRole(x.roleType);
    var desc := CheckNonEmptyList(x.description, "At least one description point is required");
    var sk := CheckNonEmptyList(x.skills, "At least one skill is required");
    var end := ExperienceEndDate(x.endDate, now);
    var issues := IssuesOf(sd) + IssuesOf(cw) + IssuesOf(ft) + IssuesOf(org) + IssuesOf(pos)
                  + IssuesOf(role) + IssuesOf(desc) + IssuesOf(sk) + IssuesOf(end);
    if issues != [] then Err(issues)
    else if !CrossFieldHolds(cw.value, sd.value, end.value) then Err([EndDateBeforeStartOrNotWorking])
    else Ok(ExperienceFields(Some(sd.value), end.value, Some(cw.value), Some(ft.value), Some(org.value),
                             Some(pos.value), Some(GetOr(x.previousPositions, [])), Some(role.value),
                             Some(desc.value), Some(sk.value)))
  }

  function OptionalIssues<T>(o: Option<T>, check: Option<T> -> Result<T, Issues>): Issues {
    if o.None? then [] else IssuesOf(check(o))
  }

  /** The rules of the experience schema on the fields that are present; absent fields pass. */
  predicate PresentExperienceFieldsValid(x: ExperienceFields, now: Millis) {
    && (x.organization.Some? ==> 2 <= Utf16Length(x.organization.value) <= 100)
    && (x.currentPosition.Some? ==> 2 <= Utf16Length(x.currentPosition.value) <= 100)
    && (x.roleType.Some? ==> ParseRoleType(x.roleType.value).Some?)
    && (x.description.Some? ==> |x.description.value| >= 1)
    && (x.skills.Some? ==> |x.skills.value| >= 1)
    && (x.endDate.Present? ==> x.endDate.value <= now)
  }

  function TrimmedOpt(s: Option<string>): Option<string> {
    if s.Some? then Some(Trim(s.value)) else None
  }

  /** `updateExperienceSchema`, the `.partial()` of the field schema: absent fields stay absent (no
      defaults apply) and the cross-field refine is not part of it. */
  function ValidateUpdateExperience(x: ExperienceFields, now: Millis): (r: Result<ExperienceFields, Issues>)
    ensures r.Ok? <==> PresentExperienceFieldsValid(x, now)
    ensures r.Ok? ==> r.value == x.(organization := TrimmedOpt(x.organization), currentPosition := TrimmedOpt(x.currentPosition))
    ensures r.Err? ==> r.error != []
  {
    var org := OptionalIssues(x.organization, o => CheckString(o, 2, 100, "Organization is required", "Organization must be at least 2 characters", "Organization cannot exceed 100 characters", true));
    var pos := OptionalIssues(x.currentPosition, o => CheckString(o, 2, 100, "Current position is required", "Position must be at least 2 characters", "Position cannot exceed 100 characters", true));
    var role := OptionalIssues(x.roleType, CheckRole);
    var desc := OptionalIssues(x.description, l => CheckNonEmptyList(l, "At least one description point is required"));
    var sk := OptionalIssues(x.skills, l => CheckNonEmptyList(l, "At least one skill is required"));
    var end := if x.endDate.Missing? then [] else IssuesOf(ExperienceEndDate(x.endDate, now));
    var issues := org + pos + role + desc + sk + end;
    if issues != [] then Err(issues)
    else Ok(x.(organization := TrimmedOpt(x.organization), currentPosition := TrimmedOpt(x.currentPosition)))
  }

  /** Whatever the create schema accepts the update schema accepts, but not conversely: a body that
      is not working and has no end date passes as an update. */
  lemma UpdateExperienceIsWeakerThanCreate(x: ExperienceFields, now: Millis)
    ensures ValidateCreateExperience(x, now).Ok? ==> ValidateUpdateExperience(x, now).Ok?
    ensures x.currentlyWorking == Some(false) && x.endDate.Missing? && PresentExperienceFieldsValid(x, now)
            ==> ValidateUpdateExperience(x, now).Ok? && ValidateCreateExperience(x, now).Err?
  {
  }

  /** The zod checks see the raw text and the database sees the trimmed text, so an organization of
      two spaces passes the create schema and is then refused by the model's `required`. */
  lemma PaddedOrganizationPassesSchemaButNotModel(x: ExperienceFields, now: Millis, id: ObjectId)
    requires ValidateCreateExperience(x, now).Ok?
    requires x.organization == Some("  ")
    ensures NewExperience(id, ValidateCreateExperience(x, now).value).Err?
  {
    assert Trim("  ") == "" by {
      assert IsJsWhitespace(' ');
      TrimEmptyIffBlank("  ");
    }
  }

  /** `deleteExperienceSchema` / `deleteProjectSchema`: the id must match `^[0-9a-fA-F]{24}$`. */
  function ValidateDeleteId(id: Option<string>, required: string, badFormat: string): (r: Result<string, Issues>)
    ensures r.Ok? <==> id.Some? && IsObjectIdString(id.value)
    ensures r.Ok? <==> id.Some? && CastObjectId(id.value).Some?
    ensures r.Ok? ==> r.value == id.value
    ensures r.Err? ==> r.error == if id.None? then [required] else [badFormat]
  {
    if id.None? then Err([required])
    else
      CastSucceedsIff(id.value);
      if !IsObjectIdString(id.value) then Err([badFormat]) else Ok(id.value)
  }

  function ValidateDeleteExperience(id: Option<string>): Result<string, Issues> {
    ValidateDeleteId(id, "Experience ID is required", "Invalid experience ID format")
  }

  function ValidateDeleteProject(id: Option<string>): Result<string, Issues> {
    ValidateDeleteId(id, "Project ID is required", "Invalid project ID format")
  }

  // ---------------------------------------------------------------- project

  /** A project request body, as the project schema names its fields (`tag`, `skill`, `link`,
      `startDate`); the project model names them differently and is modelled on its own. */
  datatype ProjectInput = ProjectInput(
    title: Option<string>,
    tag: Option<seq<string>>,
    madeAt: Option<string>,
    imagePath: Option<string>,
    link: Option<seq<string>>,
    featured: Option<bool>,
    startDate: Option<Millis>,
    currentlyWorking: Option<bool>,
    description: Option<seq<string>>,
    skill: Option<seq<string>>,
    score: Option<real>,
    endDate: Nullable<Millis>)

  /** The links that fail the URL check, one issue each. */
  function LinkIssues(links: seq<string>, isUrl: string -> bool): (r: Issues)
    ensures r == [] <==> forall k :: 0 <= k < |links| ==> isUrl(links[k])
  {
    if links == [] then []
    else (if isUrl(links[0]) then [] else ["Invalid URL format"]) + LinkIssues(links[1..], isUrl)
  }

  function CheckLinks(links: Option<seq<string>>, isUrl: string -> bool): (r: Result<seq<string>, Issues>)
    ensures r.Ok? <==> links.Some? && |links.value| >= 1 && forall k :: 0 <= k < |links.value| ==> isUrl(links.value[k])
    ensures r.Ok? ==> Some(r.value) == links
    ensures r.Err? ==> r.error != []
  {
    if links.None? then Err(["Required"])
    else if |links.value| == 0 then Err(["At least one link is required"])
    else if LinkIssues(links.value, isUrl) != [] then Err(LinkIssues(links.value, isUrl))
    else Ok(links.value)
  }

  function CheckImagePath(p: Option<string>, isUrl: string -> bool): (r: Result<string, Issues>)
    ensures r.Ok? <==> isUrl(GetOr(p, ProjectModel.PlaceholderImage))
    ensures r.Ok? ==> r.value == GetOr(p, ProjectModel.PlaceholderImage)
    ensures r.Err? ==> r.error != []
  {
    var v := GetOr(p, ProjectModel.PlaceholderImage);
    if isUrl(v) then Ok(v) else Err(["Invalid image URL"])
  }

  /** `z.number().int().min(0)`: both checks run, so a negative fraction draws two issues. */
  function CheckScore(s: real): (r: Result<real, Issues>)
    ensures r.Ok? <==> s.Floor as real == s && s >= 0.0
    ensures r.Ok? ==> r.value == s
    ensures r.Err? ==> r.error != []
  {
    var issues := (if s.Floor as real != s then ["Score must be an integer"] else [])
                  + (if s < 0.0 then ["Score cannot be negative"] else []);
    if issues == [] then Ok(s) else Err(issues)
  }

  /** The field-level rules of the project schema, stated on the raw input. */
  predicate ProjectFieldsValid(x: ProjectInput, now: Millis, isUrl: string -> bool) {
    && x.title.Some? && 2 <= Utf16Length(x.title.value) <= 100
    && isUrl(GetOr(x.imagePath, ProjectModel.PlaceholderImage))
    && x.link.Some? && |x.link.value| >= 1 && (forall k :: 0 <= k < |x.link.value| ==> isUrl(x.link.value[k]))
    && x.featured.Some? && x.startDate.Some?
    && x.description.Some? && |x.description.value| >= 1
    && x.skill.Some? && |x.skill.value| >= 1
    && (x.score.Some? ==> x.score.value.Floor as real == x.score.value && x.score.value >= 0.0)
    && EndDateRefineHolds(x.endDate, now)
  }

  /** `createProjectSchema.safeParse`: at least one link, description point and skill; `tag`, `madeAt`,
      `imagePath`, `currentlyWorking` and `score` take their defaults ([], "", the placeholder image,
      false, 0); the end date must be given (possibly `null`). */
  function ValidateCreateProject(x: ProjectInput, now: Millis, isUrl: string -> bool): (r: Result<ProjectInput, Issues>)
    ensures r.Ok? <==> ProjectFieldsValid(x, now, isUrl)
                       && CrossFieldHolds(GetOr(x.currentlyWorking, false), x.startDate.value, x.endDate)
    ensures x.endDate.Missing? ==> r.Err?
    ensures r.Ok? ==> && r.value.title == Some(Trim(x.title.value))
                      && r.value.tag == Some(GetOr(x.tag, []))
                      && r.value.madeAt == Some(GetOr(x.madeAt, ""))
                      && r.value.imagePath == Some(GetOr(x.imagePath, ProjectModel.PlaceholderImage))
                      && r.value.currentlyWorking == Some(GetOr(x.currentlyWorking, false))
                      && r.value.score == Some(GetOr(x.score, 0.0))
                      && r.value.link == x.link && r.value.featured == x.featured
                      && r.value.startDate == x.startDate && r.value.description == x.description
                      && r.value.skill == x.skill && r.value.endDate == x.endDate
    ensures r.Err? ==> r.error != []
  {
    var title := CheckString(x.title, 2, 100, "Title is required", "Title must be at least 2 characters", "Title cannot exceed 100 characters", true);
    var image := CheckImagePath(x.imagePath, isUrl);
    var links := CheckLinks(x.link, isUrl);
    var ft := CheckBool(x.featured, "Featured status is required");
    var sd := CheckDate(x.startDate);
    var desc := CheckNonEmptyList(x.description, "At least one description point is required");
    var sk := CheckNonEmptyList(x.skill, "At least one skill is required");
    var score := CheckScore(GetOr(x.score, 0.0));
    var end := ProjectEndDate(x.endDate, now);
    var cw := GetOr(x.currentlyWorking, false);
    var issues := IssuesOf(title) + IssuesOf(image) + IssuesOf(links) + IssuesOf(ft) + IssuesOf(sd)
                  + IssuesOf(desc) + IssuesOf(sk) + IssuesOf(score) + IssuesOf(end);
    if issues != [] then Err(issues)
    else if !CrossFieldHolds(cw, sd.value, end.value) then Err([EndDateBeforeStartOrNotWorking])
    else Ok(ProjectInput(Some(title.value), Some(GetOr(x.tag, [])), Some(GetOr(x.madeAt, "")), Some(image.value),
                         Some(links.value), Some(ft.value), Some(sd.value), Some(cw), Some(desc.value),
                         Some(sk.value), Some(score.value), end.value))
  }

  /** The rules of the project schema on the fields that are present; absent fields pass. */
  predicate PresentProjectFieldsValid(x: ProjectInput, now: Millis, isUrl: string -> bool) {
    && (x.title.Some? ==> 2 <= Utf16Length(x.title.value) <= 100)
    && (x.imagePath.Some? ==> isUrl(x.imagePath.value))
    && (x.link.Some? ==> |x.link.value| >= 1 && forall k :: 0 <= k < |x.link.value| ==> isUrl(x.link.value[k]))
    && (x.description.Some? ==> |x.description.value| >= 1)
    && (x.skill.Some? ==> |x.skill.value| >= 1)
    && (x.score.Some? ==> x.score.value.Floor as real == x.score.value && x.score.value >= 0.0)
    && (!x.endDate.Missing? ==> EndDateRefineHolds(x.endDate, now))
  }

  /** `updateProjectSchema`, the `.partial()` of the field schema: an omitted end date passes here,
      nothing takes a default, and there is no cross-field refine. */
  function ValidateUpdateProject(x: ProjectInput, now: Millis, isUrl: string -> bool): (r: Result<ProjectInput, Issues>)
    ensures r.Ok? <==> PresentProjectFieldsValid(x, now, isUrl)
    ensures r.Ok? ==> r.value == x.(title := TrimmedOpt(x.title))
    ensures r.Err? ==> r.error != []
  {
    var title := OptionalIssues(x.title, t => CheckString(t, 2, 100, "Title is required", "Title must be at least 2 characters", "Title cannot exceed 100 characters", true));
    var image := if x.imagePath.None? then [] else IssuesOf(CheckImagePath(x.imagePath, isUrl));
    var links := if x.link.None? then [] else IssuesOf(CheckLinks(x.link, isUrl));
    var desc := OptionalIssues(x.description, l => CheckNonEmptyList(l, "At least one description point is required"));
    var sk := OptionalIssues(x.skill, l => CheckNonEmptyList(l, "At least one skill is required"));
    var score := if x.score.None? then [] else IssuesOf(CheckScore(x.score.value));
    var end := if x.endDate.Missing? then [] else IssuesOf(ProjectEndDate(x.endDate, now));
    var issues := title + image + links + desc + sk + score + end;
    if issues != [] then Err(issues) else Ok(x.(title := TrimmedOpt(x.title)))
  }

  /** Whatever the project create schema accepts the update schema accepts; an omitted end date,
      which create always refuses, passes as an update. */
  lemma UpdateProjectIsWeakerThanCreate(x: ProjectInput, now: Millis, isUrl: string -> bool)
    ensures ValidateCreateProject(x, now, isUrl).Ok? ==> ValidateUpdateProject(x, now, isUrl).Ok?
    ensures x.endDate.Missing? && PresentProjectFieldsValid(x, now, isUrl)
            ==> ValidateUpdateProject(x, now, isUrl).Ok? && ValidateCreateProject(x, now, isUrl).Err?
  {
  }

  // ---------------------------------------------------------------- resume link

  /** `resumeLinkSchema`: a name of at least one character (untrimmed) and a URL. */
  function ValidateResumeLink(name: Option<string>, url: Option<string>, isUrl: string -> bool): (r: Result<(string, string), Issues>)
    ensures r.Ok? <==> name.Some? && Utf16Length(name.value) >= 1 && url.Some? && isUrl(url.value)
    ensures r.Ok? ==> r.value == (name.value, url.value)
    ensures r.Err? ==> r.error != []
  {
    var n := if name.None? then ["Required"] else if Utf16Length(name.value) < 1 then ["Name is required"] else [];
    var u := if url.None? then ["Required"] else if !isUrl(url.value) then ["Valid URL is required"] else [];
    if n + u == [] then Ok((name.value, url.value)) else Err(n + u)
  }
}
