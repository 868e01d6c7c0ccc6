/** The server actions on resume links: listing, the active link, and the guarded create, update,
    delete and activate, each answering with either a link or an error message. */
module ResumeActions {
  import opened Base
  import opened Text
  import opened ObjectIds
  import opened Seqs
  import opened Validation
  import opened Auth
  import opened ResumeModel

  const CreateFailed: string := "Failed to create resume link"
  const InvalidData: string := "Invalid resume link data"
  const UpdateFailed: string := "Failed to update resume link"
  const NotFound: string := "Resume link not found"
  const DeleteFailed: string := "Failed to delete resume link"
  const SetActiveFailed: string := "Failed to set active resume link"

  /** The sort `{ createdAt: -1 }` as a key compared in descending order. */
  function OrderKey(l: ResumeLink): seq<int> {
    [l.createdAt]
  }

  /** `getResumeLinks`: every link, newest first. */
  method GetResumeLinks(store: ResumeLinkCollection) returns (r: seq<ResumeLink>)
    ensures multiset(r) == multiset(store.links)
    ensures forall i, j :: 0 <= i < j < |r| ==> r[i].createdAt >= r[j].createdAt
  {
    r := SortDescending(store.links, OrderKey);
    forall i, j | 0 <= i < j < |r| ensures r[i].createdAt >= r[j].createdAt {
      assert LexLeq(OrderKey(r[j]), OrderKey(r[i]));
    }
  }

  /** `getActiveResumeLink`: an active link if there is one; while at most one link is active it
      is the active link. */
  method GetActiveResumeLink(store: ResumeLinkCollection) returns (r: Option<ResumeLink>)
    ensures r.Some? ==> r.value in store.links && r.value.isActive
    ensures r.None? <==> forall i :: 0 <= i < |store.links| ==> !store.links[i].isActive
    ensures AtMostOneActive(store.links) && r.Some? ==>
              forall i :: 0 <= i < |store.links| && store.links[i].isActive ==> store.links[i] == r.value
  {
    var i := FirstWhere(store.links, (l: ResumeLink) => l.isActive);
    if i.None? {
      return None;
    }
    return Some(store.links[i.value]);
  }

  /** `createResumeLink`: the guard, the form check (a name of at least one character and a URL),
      then the insert of an inactive link, whose setters trim both values. A name of only spaces
      passes the form check and is refused by the insert. */
  method CreateResumeLink(store: ResumeLinkCollection, authResult: Option<AuthSession>,
                          name: Option<string>, url: Option<string>, isUrl: string -> bool,
                          newId: ObjectId, now: Millis) returns (r: Result<ResumeLink, string>)
    requires store.Valid()
    modifies store
    ensures store.Valid()
    ensures GuardRejects(authResult) ==> r == Err(CreateFailed)
    ensures !GuardRejects(authResult) && ValidateResumeLink(name, url, isUrl).Err? ==> r == Err(InvalidData)
    ensures r.Ok? <==> && !GuardRejects(authResult) && ValidateResumeLink(name, url, isUrl).Ok?
                       && !IsBlank(name.value) && !IsBlank(url.value) && IndexOf(old(store.links), newId).None?
    ensures r.Ok? ==> && r.value == ResumeLink(newId, Trim(name.value), Trim(url.value), false, now)
                      && store.links == old(store.links) + [r.value]
    ensures r.Err? ==> store.links == old(store.links) && r.error in {CreateFailed, InvalidData}
    ensures AtMostOneActive(old(store.links)) ==> AtMostOneActive(store.links)
  {
    if GuardRejects(authResult) {
      return Err(CreateFailed);
    }
    var data := ValidateResumeLink(name, url, isUrl);
    if data.Err? {
      return Err(InvalidData);
    }
    var created := store.Create(newId, data.value.0, data.value.1, Some(false), now);
    if created.Err? {
      return Err(CreateFailed);
    }
    return Ok(created.value);
  }

  /** `updateResumeLink`: the guard, the form check, the cast of the id, then the update of name
      and URL; an unknown id answers "not found" and changes nothing. */
  method UpdateResumeLink(store: ResumeLinkCollection, authResult: Option<AuthSession>, id: string,
                          name: Option<string>, url: Option<string>, isUrl: string -> bool)
    returns (r: Result<ResumeLink, string>)
    requires store.Valid()
    modifies store
    ensures store.Valid()
    ensures GuardRejects(authResult) ==> r == Err(UpdateFailed)
    ensures !GuardRejects(authResult) && ValidateResumeLink(name, url, isUrl).Err? ==> r == Err(InvalidData)
    ensures r.Ok? <==> && !GuardRejects(authResult) && ValidateResumeLink(name, url, isUrl).Ok?
                       && CastObjectId(id).Some? && IndexOf(old(store.links), CastObjectId(id).value).Some?
    ensures r.Ok? ==> var i := IndexOf(old(store.links), CastObjectId(id).value).value;
                      && r.value == old(store.links)[i].(name := Trim(name.value), url := Trim(url.value))
                      && store.links == old(store.links)[i := r.value]
    ensures r.Err? ==> store.links == old(store.links)
    ensures r == Err(NotFound) <==> && !GuardRejects(authResult) && ValidateResumeLink(name, url, isUrl).Ok?
                                    && CastObjectId(id).Some? && IndexOf(old(store.links), CastObjectId(id).value).None?
    ensures AtMostOneActive(old(store.links)) ==> AtMostOneActive(store.links)
  {
    if GuardRejects(authResult) {
      return Err(UpdateFailed);
    }
    var data := ValidateResumeLink(name, url, isUrl);
    if data.Err? {
      return Err(InvalidData);
    }
    var oid := CastObjectId(id);
    if oid.None? {
      return Err(UpdateFailed);
    }
    var updated := store.UpdateNameAndUrl(oid.value, data.value.0, data.value.1);
    if updated.None? {
      return Err(NotFound);
    }
    return Ok(updated.value);
  }

  /** `deleteResumeLink`: the guard, the cast of the id, then the removal; an unknown id answers
      "not found". */
  method DeleteResumeLink(store: ResumeLinkCollection, authResult: Option<AuthSession>, id: string)
    returns (r: Result<(), string>)
    requires store.Valid()
    modifies store
    ensures store.Valid()
    ensures r.Ok? <==> && !GuardRejects(authResult) && CastObjectId(id).Some?
                       && IndexOf(old(store.links), CastObjectId(id).value).Some?
    ensures r.Ok? ==> var i := IndexOf(old(store.links), CastObjectId(id).value).value;
                      store.links == old(store.links)[..i] + old(store.links)[i + 1..]
    ensures r.Err? ==> store.links == old(store.links)
    ensures r == Err(NotFound) <==> && !GuardRejects(authResult) && CastObjectId(id).Some?
                                    && IndexOf(old(store.links), CastObjectId(id).value).None?
    ensures r.Err? && r.error != NotFound ==> r.error == DeleteFailed
  {
    if GuardRejects(authResult) {
      return Err(DeleteFailed);
    }
    var oid := CastObjectId(id);
    if oid.None? {
      return Err(DeleteFailed);
    }
    var removed := store.DeleteById(oid.value);
    if removed.None? {
      return Err(NotFound);
    }
    return Ok(());
  }

  /** `setActiveResumeLink`: the guard, the conversion of the id, then the transaction. An unknown
      well-formed id still commits: every link ends inactive and the answer is "not found". A
      failed transaction leaves the links as they were. */
  method SetActiveResumeLink(store: ResumeLinkCollection, authResult: Option<AuthSession>, id: string,
                             fault: TxFault) returns (r: Result<ResumeLink, string>)
    requires store.Valid()
    modifies store
    ensures store.Valid()
    ensures GuardRejects(authResult) || CastObjectId(id).None? || fault != NoFault ==>
              r == Err(SetActiveFailed) && store.links == old(store.links)
    ensures !GuardRejects(authResult) && CastObjectId(id).Some? && fault == NoFault ==>
              && store.links == SetActive(old(store.links), CastObjectId(id).value).0
              && AtMostOneActive(store.links)
              && (r.Ok? <==> IndexOf(old(store.links), CastObjectId(id).value).Some?)
              && (r.Ok? ==> r.value.id == CastObjectId(id).value && r.value.isActive)
              && (r.Err? ==> r.error == NotFound && forall i :: 0 <= i < |store.links| ==> !store.links[i].isActive)
  {
    if GuardRejects(authResult) {
      return Err(SetActiveFailed);
    }
    var oid := CastObjectId(id);
    if oid.None? {
      return Err(SetActiveFailed);
    }
    var outcome := store.SetActiveLink(oid.value, fault);
    if outcome.Throws? {
      return Err(SetActiveFailed);
    }
    SetActiveKeepsInvariant(old(store.links), oid.value);
    if outcome.value.None? {
      SetActiveAbsentCase(old(store.links), oid.value);
      return Err(NotFound);
    }
    return Ok(outcome.value.value);
  }

  /** The link is returned exactly when the id is present; when it is not, no link is active. */
  lemma SetActiveAbsentCase(ls: seq<ResumeLink>, id: ObjectId)
    requires IdsUnique(ls) && SetActive(ls, id).1.None?
    ensures IndexOf(ls, id).None?
    ensures forall i :: 0 <= i < |SetActive(ls, id).0| ==> !SetActive(ls, id).0[i].isActive
  {
    var cleared := ClearActive(ls);
    assert forall i :: 0 <= i < |ls| ==> cleared[i].id == ls[i].id;
    SetActiveAbsent(ls, id);
  }
}
