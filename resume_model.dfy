/** The resume-link store: links with a name, a URL and an "active" flag, and the transactional
    static that makes one link the active one. */
module ResumeModel {
  import opened Base
  import opened Text
  import opened ObjectIds
  import opened Seqs

  /** A stored resume link; name and URL are stored trimmed. */
  datatype ResumeLink = ResumeLink(id: ObjectId, name: string, url: string, isActive: bool, createdAt: Millis)

  predicate IdsUnique(ls: seq<ResumeLink>) {
    forall i, j :: 0 <= i < j < |ls| ==> ls[i].id != ls[j].id
  }

  /** The property the active-link static exists to keep: no two links are active. */
  predicate AtMostOneActive(ls: seq<ResumeLink>) {
    forall i, j :: 0 <= i < j < |ls| && ls[i].isActive ==> !ls[j].isActive
  }

  /** The position of the link with the id, if any. */
  function IndexOf(ls: seq<ResumeLink>, id: ObjectId): (r: Option<nat>)
    ensures r.Some? ==> r.value < |ls| && ls[r.value].id == id
    ensures r.None? <==> forall i :: 0 <= i < |ls| ==> ls[i].id != id
  {
    FirstWhere(ls, (l: ResumeLink) => l.id == id)
  }

  /** `updateMany({ isActive: true }, { isActive: false })`: every link ends inactive, and nothing
      else about any link changes. */
  function ClearActive(ls: seq<ResumeLink>): (r: seq<ResumeLink>)
    ensures |r| == |ls|
    ensures forall i :: 0 <= i < |ls| ==> !r[i].isActive && r[i] == ls[i].(isActive := false)
  {
    if ls == [] then [] else [ls[0].(isActive := false)] + ClearActive(ls[1..])
  }

  /** `findByIdAndUpdate(id, { isActive: true }, { new: true })`: the link with the id becomes active
      and is returned as it is afterwards; with no such link nothing changes and nothing is returned. */
  function ActivateById(ls: seq<ResumeLink>, id: ObjectId): (r: (seq<ResumeLink>, Option<ResumeLink>))
    requires IdsUnique(ls)
    ensures |r.0| == |ls|
    ensures forall i :: 0 <= i < |ls| ==> r.0[i] == if ls[i].id == id then ls[i].(isActive := true) else ls[i]
    ensures r.1.Some? <==> exists i :: 0 <= i < |ls| && ls[i].id == id
    ensures r.1.Some? ==> r.1.value in r.0 && r.1.value.id == id && r.1.value.isActive
  {
    match IndexOf(ls, id)
    case None => (ls, None)
    case Some(i) =>
      var link := ls[i].(isActive := true);
      (ls[i := link], Some(link))
  }

  /** The two writes of the active-link transaction, as they are committed together. */
  function SetActive(ls: seq<ResumeLink>, id: ObjectId): (seq<ResumeLink>, Option<ResumeLink>)
    requires IdsUnique(ls)
  {
    assert forall i :: 0 <= i < |ls| ==> ClearActive(ls)[i].id == ls[i].id;
    ActivateById(ClearActive(ls), id)
  }

  /** With a link of that id, the transaction leaves exactly that link active (whatever was active
      before), changes nothing else about any link, and returns it. */
  lemma SetActiveExisting(ls: seq<ResumeLink>, id: ObjectId, k: nat)
    requires IdsUnique(ls) && k < |ls| && ls[k].id == id
    ensures var (after, link) := SetActive(ls, id);
            && |after| == |ls| && IdsUnique(after)
            && (forall i :: 0 <= i < |after| ==> (after[i].isActive <==> i == k))
            && (forall i :: 0 <= i < |after| ==> after[i] == ls[i].(isActive := i == k))
            && link == Some(ls[k].(isActive := true))
  {
    var cleared := ClearActive(ls);
    assert forall i :: 0 <= i < |ls| ==> cleared[i].id == ls[i].id;
    var (after, link) := ActivateById(cleared, id);
    assert forall i :: 0 <= i < |ls| ==> (ls[i].id == id <==> i == k);
    assert after[k] == ls[k].(isActive := true);
  }

  /** With no link of that id, the transaction still commits the first write: every link ends
      inactive and nothing is returned. */
  lemma SetActiveAbsent(ls: seq<ResumeLink>, id: ObjectId)
    requires IdsUnique(ls) && IndexOf(ls, id).None?
    ensures var (after, link) := SetActive(ls, id);
            && after == ClearActive(ls)
            && (forall i :: 0 <= i < |after| ==> !after[i].isActive)
            && link.None?
  {
    var cleared := ClearActive(ls);
    assert forall i :: 0 <= i < |ls| ==> cleared[i].id == ls[i].id;
    assert SetActive(ls, id).0 == cleared;
  }

  /** Whatever the id, after the transaction at most one link is active and ids are still unique. */
  lemma SetActiveKeepsInvariant(ls: seq<ResumeLink>, id: ObjectId)
    requires IdsUnique(ls)
    ensures IdsUnique(SetActive(ls, id).0) && AtMostOneActive(SetActive(ls, id).0)
  {
    match IndexOf(ls, id)
    case None =>
      SetActiveAbsent(ls, id);
    case Some(k) =>
      SetActiveExisting(ls, id, k);
  }

  /** Activating the same link twice is the same as activating it once. */
  lemma SetActiveIdempotent(ls: seq<ResumeLink>, id: ObjectId)
    requires IdsUnique(ls)
    ensures IdsUnique(SetActive(ls, id).0)
    ensures SetActive(SetActive(ls, id).0, id) == SetActive(ls, id)
  {
    SetActiveKeepsInvariant(ls, id);
    var after := SetActive(ls, id).0;
    match IndexOf(ls, id)
    case None =>
      SetActiveAbsent(ls, id);
      SetActiveAbsent(after, id);
      assert ClearActive(after) == after;
    case Some(k) =>
      SetActiveExisting(ls, id, k);
      SetActiveExisting(after, id, k);
      assert SetActive(after, id).0 == after;
  }

  /** Where the transaction fails, if it does: in the first write, the second, or the commit. */
  datatype TxFault = NoFault | ClearFails | ActivateFails | CommitFails

  datatype SaveError = ValidationFailed | DuplicateKey

  /** The `resumelinks` collection. */
  class ResumeLinkCollection {
    var links: seq<ResumeLink>

    ghost predicate Valid()
      reads this
    {
      IdsUnique(links)
    }

    constructor()
      ensures Valid() && links == []
    {
      links := [];
    }

    /** `create`: name and URL are trimmed and then required to be non-empty, `isActive` defaults to
        false and `createdAt` to `now`; a taken id refuses the insert. */
    method Create(id: ObjectId, name: string, url: string, isActive: Option<bool>, now: Millis)
      returns (r: Result<ResumeLink, SaveError>)
      requires Valid()
      modifies this
      ensures Valid()
      ensures r.Ok? <==> !IsBlank(name) && !IsBlank(url) && IndexOf(old(links), id).None?
      ensures r.Ok? ==> && r.value == ResumeLink(id, Trim(name), Trim(url), isActive == Some(true), now)
                        && links == old(links) + [r.value]
      ensures r.Err? ==> links == old(links)
      ensures AtMostOneActive(old(links)) && isActive != Some(true) ==> AtMostOneActive(links)
    {
      var n := Trim(name);
      var u := Trim(url);
      TrimEmptyIffBlank(name);
      TrimEmptyIffBlank(url);
      if n == "" || u == "" {
        return Err(ValidationFailed);
      }
      if IndexOf(links, id).Some? {
        return Err(DuplicateKey);
      }
      var link := ResumeLink(id, n, u, isActive == Some(true), now);
      links := links + [link];
      return Ok(link);
    }

    /** `findByIdAndUpdate(id, { name, url }, { new: true })`: the setters trim both values, no
        validator runs, and the active flag is kept. */
    method UpdateNameAndUrl(id: ObjectId, name: string, url: string) returns (r: Option<ResumeLink>)
      requires Valid()
      modifies this
      ensures Valid()
      ensures r.Some? <==> IndexOf(old(links), id).Some?
      ensures r.Some? ==> var i := IndexOf(old(links), id).value;
                          && r.value == old(links)[i].(name := Trim(name), url := Trim(url))
                          && links == old(links)[i := r.value]
      ensures r.None? ==> links == old(links)
      ensures AtMostOneActive(old(links)) ==> AtMostOneActive(links)
    {
      var i := IndexOf(links, id);
      if i.None? {
        return None;
      }
      var updated := links[i.value].(name := Trim(name), url := Trim(url));
      links := links[i.value := updated];
      return Some(updated);
    }

    /** `findByIdAndDelete(id)`: the removed link, if there was one. */
    method DeleteById(id: ObjectId) returns (r: Option<ResumeLink>)
      requires Valid()
      modifies this
      ensures Valid()
      ensures r.Some? <==> IndexOf(old(links), id).Some?
      ensures r.Some? ==> var i := IndexOf(old(links), id).value;
                          r.value == old(links)[i] && links == old(links)[..i] + old(links)[i + 1..]
      ensures r.None? ==> links == old(links)
      ensures AtMostOneActive(old(links)) ==> AtMostOneActive(links)
    {
      var i := IndexOf(links, id);
      if i.None? {
        return None;
      }
      var removed := links[i.value];
      ghost var before := links;
      links := links[..i.value] + links[i.value + 1..];
      assert forall k :: 0 <= k < |links| ==> links[k] == before[if k < i.value then k else k + 1];
      return Some(removed);
    }

    /** `setActiveLink`: both writes run in one transaction. A failure at any step aborts it, leaves
        the links as they were and rethrows; otherwise both writes are committed. */
    method SetActiveLink(linkId: ObjectId, fault: TxFault) returns (r: Call<Option<ResumeLink>>)
      requires Valid()
      modifies this
      ensures Valid()
      ensures fault == NoFault ==> AtMostOneActive(links)
      ensures fault != NoFault ==> r.Throws? && links == old(links)
      ensures fault == NoFault ==> && links == SetActive(old(links), linkId).0
                                   && r == Returns(SetActive(old(links), linkId).1)
    {
      var staged := ClearActive(links);
      if fault == ClearFails {
        return Throws;
      }
      assert forall i :: 0 <= i < |links| ==> staged[i].id == links[i].id;
      var (after, link) := ActivateById(staged, linkId);
      if fault == ActivateFails || fault == CommitFails {
        return Throws;
      }
      SetActiveKeepsInvariant(links, linkId);
      links := after;
      return Returns(link);
    }
  }
}
