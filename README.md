# A Dafny model of the portfolio site's server core

The repository is a personal portfolio site built with Next.js, MongoDB and Mongoose. Its admin area
edits experiences, projects and resume links. This project models the rules that site enforces:

- the zod request schemas (length bounds, required lists, role-type enum, end-date refinements,
  the 24-hex id pattern, partial update schemas);
- the Mongoose document rules (required paths, defaults, trimming, the unique token index, the
  experience pre-save guard);
- the server actions on experiences, projects and resume links, over an in-memory collection;
- the transactional "make this resume link the active one" static;
- the session store (create, find by token, invalidate one, invalidate all of a user);
- the `auth()` decision chain and the `!isAuthenticated` guard the actions put around it;
- the tag-list editor and the cells of the project archive table.

Dates are integer milliseconds and the current instant `now` is a parameter. A collection is a
sequence of documents in natural (insertion) order, because `findOne` returns the first match.
Random bytes, fresh ids and URL validity are parameters. A document-database failure is modelled
in two places where the source reacts to it specifically. The transaction in `setActiveLink` takes a
`TxFault` saying which step fails. In `auth()`, the connection, the cookie store, the session lookup
and the user lookup are each a `Call` that may throw, and a throw yields result code 4.
String lengths are JavaScript lengths, counted in UTF-16 code units (`Text.Utf16Length`), as zod's
`min` and `max` compare them.

### What the proofs show about the code

- `auth()` never resolves to `null`. Every `if (!isAuthenticated)` guard in the actions is
  therefore dead: it lets through callers with no cookie, an invalid session or a deleted user
  (`Auth.GuardNeverRejects`). Each guarded action's contract is stated over `GuardRejects`, so the
  model reflects this literally.
- `auth()` checks `isValid` but not `expiresAt`, unlike `findByToken` (`Auth.AuthIgnoresExpiry`).
  The session lookup in `auth()` receives the cookie object rather than its value, so it is kept
  abstract and not equated with `findByToken`.
- `setActiveLink` with an unknown but well-formed id still commits the first write. Every link ends
  inactive and the action answers "Resume link not found" (`ResumeModel.SetActiveAbsent`).
- Updates bypass the experience pre-save hook, so an update can store a currently-working
  experience with an end date (`ExperienceModel.UpdateCanBreakGuard`).
- zod runs `min`/`max` on the raw text before `.trim()`, and Mongoose's `required` rejects `""`.
  An organization of two spaces therefore passes the create schema and is refused on save
  (`Validation.PaddedOrganizationPassesSchemaButNotModel`).
- The project end date has no `.default(null)`. An omitted end date reaches the refine as
  `undefined` and the create schema refuses it; the experience schema turns it into `null`.
- `updateOne`/`updateMany` report `modifiedCount`. With the timestamps option, Mongoose adds
  `updatedAt: now` to the write, so re-invalidating an already invalid session counts as a
  modification unless it happens in the same millisecond as the previous write
  (`SessionModel.InvalidateTwice`).

## Model

| member | source | states |
|---|---|---|
| Text.TrimStart | models/Resume.ts:16-25 | only a whitespace prefix is dropped and the kept text does not start with whitespace |
| Text.TrimEnd | models/Resume.ts:16-25 | only a whitespace suffix is dropped and the kept text does not end with whitespace |
| Text.TrimEmptyIffBlank | components/ui/tag-input.tsx:32-33 | the trimmed text is empty exactly when the text is all whitespace; otherwise it starts and ends with a non-space |
| Text.TrimIdempotent | utils/validation.ts:52-65 | trimming twice is trimming once |
| Text.ContainsItself | actions/experienceActions.ts:23-25 | an organization matches a filter that equals it up to case |
| Text.Utf16Length | utils/validation.ts:7-16 | the JavaScript length lies between the number of characters and twice it |
| Text.Utf16LengthIsCountIff | utils/validation.ts:7-16 | the JavaScript length equals the number of characters exactly when no character is astral |
| Text.Utf16LengthOfEmoji | utils/validation.ts:7-16 | an emoji and a letter have length 3 though they are two characters; only the empty string has length 0 |
| Text.HexEncode | models/Session.ts:61-63 | hex text has two lower-case hex characters per byte |
| Text.HexDecode | utils/validation.ts:117-123 | a decoded id has one byte for every two characters of its text |
| Text.HexDecodeSucceedsIff | utils/validation.ts:117-123 | hex text decodes exactly when it has even length and only hex characters |
| Text.HexRoundTrip | models/Session.ts:61-63 | decoding the hex text of bytes gives the bytes back |
| Text.HexEncodeInjective | models/Session.ts:61-63 | different bytes give different hex text |
| Seqs.FirstWhere | actions/resumeActions.ts:28 | the index of the first element satisfying the condition, or none when no element does |
| Seqs.Filter | actions/experienceActions.ts:33 | the kept elements are exactly those satisfying the condition, in their original order |
| Seqs.FilterCounts | actions/experienceActions.ts:33 | every element satisfying the condition is kept as often as it occurs, and no other |
| Seqs.FilterConcat | components/ui/tag-input.tsx:41 | filtering distributes over concatenation |
| Seqs.FilterRemoveAt | actions/experienceActions.ts:125 | removing one element removes it, and only it, from the filtered result |
| Seqs.SortDescending | actions/experienceActions.ts:33-35 | the result is a permutation of the input, ordered by a multi-key descending sort |
| Seqs.LexLeqTotal | actions/projectActions.ts:13-15 | any two sort keys are comparable |
| Seqs.LexLeqTransitive | actions/projectActions.ts:13-15 | the key order is transitive |
| ObjectIds.ToHexString | utils/validation.ts:117-123 | the text of a twelve-byte id matches the id pattern |
| ObjectIds.CastObjectId | actions/experienceActions.ts:53 | a successful cast gives a twelve-byte id |
| ObjectIds.CastSucceedsIff | utils/validation.ts:117-123 | the cast of a string id succeeds exactly on 24 hex characters |
| ObjectIds.CastOfHexString | actions/experienceActions.ts:53 | casting an id's text gives the id back |
| ExperienceModel.ParseRoleType | models/Experience.ts:62-70 | only the nine labels are accepted, each naming its own role type |
| ExperienceModel.ParseLabel | models/Experience.ts:19-29 | the labels are distinct, so every role type is recovered from its label |
| ExperienceModel.NewExperience | models/Experience.ts:31-85 | the document is built exactly when the required paths are present, the required strings are non-empty and the role type is one of the labels; `currentlyWorking` defaults to true and the lists to empty |
| ExperienceModel.PreSave | models/Experience.ts:89-94 | the save is refused exactly when the document is currently working and has an end date |
| ExperienceModel.SavedDocumentsRespectGuard | models/Experience.ts:89-94 | no saved document is working with an end date; an omitted flag together with an end date is refused |
| ExperienceModel.ApplyUpdate | actions/experienceActions.ts:94-98 | every supplied field replaces the stored one, `null` clears the end date, nothing else changes |
| ExperienceModel.UpdateCanBreakGuard | actions/experienceActions.ts:94-98 | an update can store a working experience with an end date |
| Validation.CheckString | utils/validation.ts:52-58 | accepted exactly when present with raw UTF-16 length in bounds; the output is trimmed when the field trims |
| Validation.CheckBool | utils/validation.ts:44-51 | accepted exactly when present |
| Validation.CheckDate | utils/validation.ts:40-43 | accepted exactly when present |
| Validation.CheckNonEmptyList | utils/validation.ts:71-84 | accepted exactly when present with at least one element |
| Validation.CheckRole | utils/validation.ts:67-70 | accepted exactly when the value is one of the nine role-type labels |
| Validation.ExperienceEndDate | utils/validation.ts:88-98 | accepts a date no later than now, `null`, or an omitted value, which becomes `null` |
| Validation.ProjectEndDate | utils/validation.ts:197-206 | accepts only a date no later than now or `null`; an omitted value is refused |
| Validation.EmojiUsernameMeetsMinimum | utils/validation.ts:7-16 | a two-character username of an emoji and a letter has length 3 and meets the minimum |
| Validation.ValidateLogin | utils/validation.ts:7-16 | accepted exactly when the username has a UTF-16 length of 3 to 50 and the password of 6 to 100 |
| Validation.ValidateCreateExperience | utils/validation.ts:101-112 | accepted exactly when every field rule holds and the cross-field rule holds; not working without an end date, or an end date before the start, is refused |
| Validation.ValidateUpdateExperience | utils/validation.ts:115 | accepted exactly when the present fields pass; no defaults and no cross-field rule |
| Validation.UpdateExperienceIsWeakerThanCreate | utils/validation.ts:101-115 | every create-valid body is update-valid; a body that is not working and has no end date passes only as an update |
| Validation.PaddedOrganizationPassesSchemaButNotModel | utils/validation.ts:52-58 | an organization of two spaces passes the schema and is refused by the model's `required` |
| Validation.ValidateDeleteId | utils/validation.ts:117-123 | accepted exactly when the id is 24 hex characters, which is exactly when the cast succeeds |
| Validation.LinkIssues | utils/validation.ts:166-168 | no issue exactly when every link is a URL |
| Validation.CheckLinks | utils/validation.ts:166-168 | accepted exactly when there is at least one link and every link is a URL |
| Validation.CheckImagePath | utils/validation.ts:158-164 | the image path defaults to the placeholder and must be a URL |
| Validation.CheckScore | utils/validation.ts:188-193 | accepted exactly when the score is a non-negative integer |
| Validation.ValidateCreateProject | utils/validation.ts:209-220 | accepted exactly when every field rule and the cross-field rule hold; an omitted end date is refused; the defaults are applied |
| Validation.ValidateUpdateProject | utils/validation.ts:223 | accepted exactly when the present fields pass; no defaults and no cross-field rule |
| Validation.UpdateProjectIsWeakerThanCreate | utils/validation.ts:197-223 | every create-valid body is update-valid; an omitted end date passes only as an update |
| Validation.ValidateResumeLink | utils/validation.ts:249-252 | accepted exactly when the name is non-empty and the URL is a URL |
| ProjectModel.NewProject | models/Project.ts:24-85 | title, timeline start and team size are required, the team has at least one member, the defaults apply |
| ProjectModel.ApplyUpdate | actions/projectActions.ts:65-68 | every supplied path replaces the stored one; id and creation time stay |
| ProjectModel.TeamSizeInvariant | models/Project.ts:62-66 | created and updated projects keep a team size of at least one |
| ExperienceActions.Matches | actions/experienceActions.ts:13-29 | the database's reading of the built query: exact flag and role matches, and a case-insensitive organization match |
| ExperienceActions.Selected | actions/experienceActions.ts:13-29 | what the filter asks for: defined flags and role must match, and a non-empty organization must occur ignoring case |
| ExperienceActions.BuildQuery | actions/experienceActions.ts:13-29 | the query matches exactly the experiences the filter selects: defined flags, true or false, match exactly; a non-empty organization matches ignoring case; no filter matches all |
| ExperienceActions.IndexOf | actions/experienceActions.ts:53 | the position of the document with the id, or none when absent |
| ExperienceActions.ExperienceCollection.GetExperiences | actions/experienceActions.ts:10-42 | exactly the selected experiences, sorted by working flag, start and end date, all descending |
| ExperienceActions.ExperienceCollection.GetExperienceById | actions/experienceActions.ts:44-62 | the stored experience with the id; a malformed or unknown id is an error |
| ExperienceActions.ExperienceCollection.CreateExperience | actions/experienceActions.ts:64-79 | the saved document is appended exactly when validation, the pre-save guard and the unique id allow; no authentication check |
| ExperienceActions.ExperienceCollection.UpdateExperience | actions/experienceActions.ts:81-114 | the one matching document is replaced by its update; a malformed id, an invalid update or an unknown id leave the store unchanged |
| ExperienceActions.ExperienceCollection.DeleteExperience | actions/experienceActions.ts:116-138 | the one matching document is removed and the others keep their order; otherwise nothing changes |
| ExperienceActions.DeleteKeepsOthers | actions/experienceActions.ts:116-138 | removing the matched document keeps ids unique and keeps exactly the documents with a different id |
| ExperienceActions.DeleteThenList | actions/experienceActions.ts:116-138 | after a delete, the listing loses exactly the deleted document |
| ProjectActions.IndexOf | actions/projectActions.ts:30 | the position of the document with the id, or none when absent |
| ProjectActions.ProjectCollection.GetProjects | actions/projectActions.ts:9-21 | all projects, featured first, newest first within each group |
| ProjectActions.ProjectCollection.GetProjectById | actions/projectActions.ts:23-38 | the stored project with the id; a malformed or unknown id is an error |
| ProjectActions.ProjectCollection.CreateProject | actions/projectActions.ts:40-53 | the built document is appended exactly when validation and the unique id allow; no authentication check |
| ProjectActions.ProjectCollection.UpdateProject | actions/projectActions.ts:55-79 | the one matching document is replaced by its update; otherwise nothing changes |
| ProjectActions.ProjectCollection.DeleteProject | actions/projectActions.ts:81-98 | the one matching document is removed and the others keep their order; otherwise nothing changes |
| ProjectActions.DeletedIdGone | actions/projectActions.ts:88 | after a delete the id is gone and ids stay unique |
| ResumeModel.IndexOf | actions/resumeActions.ts:113 | the position of the link with the id, or none when absent |
| ResumeModel.ClearActive | models/Resume.ts:48 | every link ends inactive and nothing else changes |
| ResumeModel.ActivateById | models/Resume.ts:50-54 | the link with the id becomes active and is returned; with no such link nothing changes and nothing is returned |
| ResumeModel.SetActiveExisting | models/Resume.ts:40-64 | with the id present, exactly that link is active afterwards and it is returned |
| ResumeModel.SetActiveAbsent | models/Resume.ts:40-64 | with the id absent, every link ends inactive and nothing is returned |
| ResumeModel.SetActiveKeepsInvariant | models/Resume.ts:40-64 | afterwards at most one link is active and ids stay unique |
| ResumeModel.SetActiveIdempotent | models/Resume.ts:40-64 | activating the same id twice equals activating it once |
| ResumeModel.ResumeLinkCollection.Create | models/Resume.ts:14-38 | name and URL are trimmed and must be non-empty; `isActive` defaults to false, `createdAt` to now; a taken id is refused |
| ResumeModel.ResumeLinkCollection.UpdateNameAndUrl | actions/resumeActions.ts:86-93 | only name and URL change, trimmed; `isActive` is kept |
| ResumeModel.ResumeLinkCollection.DeleteById | actions/resumeActions.ts:113 | the link with the id is removed and returned |
| ResumeModel.ResumeLinkCollection.SetActiveLink | models/Resume.ts:40-64 | a failed step aborts with nothing changed and rethrows; otherwise both writes commit |
| ResumeActions.GetResumeLinks | actions/resumeActions.ts:11-22 | all links, newest `createdAt` first |
| ResumeActions.GetActiveResumeLink | actions/resumeActions.ts:24-35 | an active link, or none exactly when no link is active |
| ResumeActions.CreateResumeLink | actions/resumeActions.ts:37-66 | invalid form data is refused before the store; a stored link is trimmed and inactive |
| ResumeActions.UpdateResumeLink | actions/resumeActions.ts:68-103 | invalid data, a malformed id and an unknown id leave the store unchanged; an unknown id answers "not found" |
| ResumeActions.DeleteResumeLink | actions/resumeActions.ts:105-123 | the link is removed; an unknown id answers "not found"; a malformed id is a generic failure |
| ResumeActions.SetActiveResumeLink | actions/resumeActions.ts:125-146 | a malformed id or a failed transaction is a generic failure with nothing changed; an unknown id answers "not found" after deactivating every link |
| ResumeActions.SetActiveAbsentCase | models/Resume.ts:50-57 | nothing is returned only when the id is absent, and then no link is active |
| SessionModel.GenerateRandomToken | models/Session.ts:61-63 | the token is the lower-case hex text of the random bytes |
| SessionModel.DefaultTokenShape | models/Session.ts:61-63 | a default token has 128 characters and different bytes give different tokens |
| SessionModel.FindByToken | models/Session.ts:86-99 | an empty token finds nothing; otherwise a session with the token, valid and expiring after now, whenever one exists |
| SessionModel.ExpiredSessionNotFound | models/Session.ts:92-96 | a session past its expiry is not found |
| SessionModel.InvalidateToken | models/Session.ts:107-112 | the session with the token is invalidated, the others unchanged; the result says whether the document changed |
| SessionModel.InvalidateUser | models/Session.ts:115-122 | every session of the user is invalidated, other users' untouched; the result says whether any changed |
| SessionModel.InvalidateTwice | models/Session.ts:107-112 | a second invalidation in the same millisecond changes nothing and returns false |
| SessionModel.InvalidatedTokenNotFound | models/Session.ts:86-113 | an invalidated token is no longer found, and other tokens are found as before |
| SessionModel.SessionCollection.CreateSession | models/Session.ts:66-84 | a valid session with a 128-character token expiring `expiresIn` (default seven days) after now; an empty agent or address or a token clash is refused |
| SessionModel.SessionCollection.InvalidateSession | models/Session.ts:101-113 | an empty token returns false and changes nothing; otherwise the token's session is invalidated |
| SessionModel.SessionCollection.InvalidateAllUserSessions | models/Session.ts:115-122 | every session of the user is invalidated |
| Auth.GetCookie | lib/auth.ts:17-18 | a cookie of the name with no later cookie of that name, or none exactly when there is none |
| Auth.RepeatedCookieGivesLast | lib/auth.ts:17-18 | a repeated session cookie hands its later value to the session lookup |
| Auth.Authenticate | lib/auth.ts:12-46 | never null; code 1 exactly without the cookie, 2 for a missing or invalid session, 3 for a missing user, 0 exactly when all checks pass, 4 on any thrown step |
| Auth.GuardNeverRejects | actions/resumeActions.ts:40-44 | the `!isAuthenticated` guard never rejects the result of `auth()` |
| Auth.AuthIgnoresExpiry | lib/auth.ts:25-30 | a valid but expired session still yields code 0, while `findByToken` finds nothing |
| TagInputs.AddedTags | components/ui/tag-input.tsx:31-35 | the trimmed input is appended exactly when it is non-blank and not already a tag; the existing prefix is unchanged |
| TagInputs.RemoveTag | components/ui/tag-input.tsx:40-43 | every occurrence of the tag is gone; other tags keep their order and counts |
| TagInputs.AddKeepsNoDuplicates | components/ui/tag-input.tsx:33-34 | a duplicate-free list stays duplicate-free after an add |
| TagInputs.RemoveKeepsNoDuplicates | components/ui/tag-input.tsx:40-43 | a duplicate-free list stays duplicate-free after a remove |
| TagInputs.RemoveAbsent | components/ui/tag-input.tsx:41 | removing an absent tag gives back the same list |
| TagInputs.AddThenRemove | components/ui/tag-input.tsx:31-43 | adding a fresh tag and removing it restores the list |
| TagInputs.TagInput.SetInput | components/ui/tag-input.tsx:52 | the input text becomes the typed text |
| TagInputs.TagInput.AddTag | components/ui/tag-input.tsx:31-38 | on an add the new list is emitted and the input cleared; otherwise nothing is emitted and the input kept |
| TagInputs.TagInput.HandleKeyDown | components/ui/tag-input.tsx:24-29 | Enter adds; any other key does nothing |
| TagInputs.AddDisabledIffBlank | components/ui/tag-input.tsx:60 | the Add button is disabled exactly when the input is blank, and then an add emits nothing |
| ArchiveTable.TimelineDate | components/ProjectAchriveTable.tsx:14-21 | the end date whenever one is present, even one before the start; the date shown is always one of the timeline's own dates, and never lies before the start when the timeline is well ordered |
| ArchiveTable.Badges | components/ProjectAchriveTable.tsx:55-59 | the first min(4, n) of skills followed by tags, a missing list counting as empty |
| ArchiveTable.Overflow | components/ProjectAchriveTable.tsx:60-68 | an overflow badge exactly when n > 4, showing n - 4 |
| ArchiveTable.BadgesAccountForAll | components/ProjectAchriveTable.tsx:55-68 | the shown badges plus the overflow count equal n |
| ArchiveTable.WhereCell | components/ProjectAchriveTable.tsx:72-86 | a link to a non-empty `liveUrl`, else to a non-empty `githubUrl`, else a dash |
| ArchiveTable.LinkTargetIsAProjectUrl | components/ProjectAchriveTable.tsx:72-74 | the `"#"` fallback is never used: a link points at one of the project's URLs |

## Left out

- Database I/O, connection handling (`dbConnect`), `revalidatePath`, logging and the
  `JSON.parse(JSON.stringify(...))` copy are not modelled. A read failure in the listing actions is
  not modelled either; those actions rethrow or answer with a fixed message.
- Collections are sequences of documents, not maps keyed by id. Natural order matters for `findOne`,
  and a map could not express it.
- Real randomness, the clock and fresh `_id` generation are parameters (`random`, `now`, `newId`).
  URL validity is the parameter `isUrl`.
- The TTL index that deletes expired sessions in the background is not modelled. `findByToken`
  already refuses expired sessions.
- `Auth.Authenticate`: the lookup `Session.findOne(cookie)` is an abstract function, because its
  result depends on how the driver treats a filter on the cookie object's fields. `User.findById`
  is an abstract existence oracle.
- The login route sets a `sessionToken` cookie, while `auth()` reads `session_token`. The login
  route, password hashing and the client-side auth context are not part of this model.
- ObjectIds.CastObjectId: Mongoose also accepts a 12-character string or a number as an ObjectId;
  only the 24-hex-character form is modelled.
- ExperienceActions.Matches: the organization filter is a regular expression in the source. It is
  modelled as a case-insensitive substring of the literal text with ASCII case folding, so regex
  metacharacters and non-ASCII case folding are not modelled.
- Text.Utf16Length: a JavaScript string may contain unpaired surrogate code units, which a Dafny
  string cannot hold. Such strings are not modelled.
- Auth.GetCookie: the percent-decoding of cookie values in the Cookie header is not modelled; a
  cookie is a name and an already decoded value.
- Validation.CheckDate: coercion of arbitrary values to dates is not modelled. A date is either
  given as milliseconds or missing, and a missing date draws zod's "Invalid date" message.
- Validation.ValidateCreateExperience: only the first issue of a failed parse is significant to
  callers. The model keeps the issues in field order but does not state their exact text.
- Timestamps: `updatedAt` is modelled for sessions, where it decides `modifiedCount`. It is not
  modelled for experiences, projects or resume links, where no code reads it.
- Resume links: the `isActive` index is not modelled; it is not unique.
- ArchiveTable.TimelineDate: the `date-fns` month-and-year formatting of the chosen date is not
  modelled. Rendering, modals and styling are left out.
- The client hooks, rendering-only components, static data and type-only files hold no logic of
  their own and are not part of this model.
