/** The server actions on experiences: the filtered, sorted listing, and the guarded lookup,
    create, update and delete by id. */
module ExperienceActions {
  import opened Base
  import opened Text
  import opened ObjectIds
  import opened Seqs
  import opened ExperienceModel
  import opened Auth

  /** The filter a caller may pass to the listing; every field is optional. */
  datatype ExperienceFilter = ExperienceFilter(
    featured: Option<bool>,
    currentlyWorking: Option<bool>,
    organization: Option<string>,
    roleType: Option<RoleType>)

  /** The query document sent to the database: each present condition must hold. */
  datatype Query = Query(
    featured: Option<bool>,
    currentlyWorking: Option<bool>,
    organizationRegex: Option<string>,
    roleType: Option<RoleType>)

  /** The database's reading of a query: exact matches on the flags and the role type, and a
      case-insensitive match of the pattern anywhere in the organization. */
  predicate Matches(q: Query, e: Experience) {
    && (q.featured.Some? ==> e.featured == q.featured.value)
    && (q.currentlyWorking.Some? ==> e.currentlyWorking == q.currentlyWorking.value)
    && (q.organizationRegex.Some? ==> ContainsIgnoreCase(e.organization, q.organizationRegex.value))
    && (q.roleType.Some? ==> e.roleType == q.roleType.value)
  }

  /** What the filter selects: a defined flag (true or false) must match, a non-empty organization
      must occur in the stored one ignoring case, a role type must match; no filter selects all. */
  predicate Selected(filter: Option<ExperienceFilter>, e: Experience) {
    filter.None? ||
    var f := filter.value;
    && (f.featured.Some? ==> e.featured == f.featured.value)
    && (f.currentlyWorking.Some? ==> e.currentlyWorking == f.currentlyWorking.value)
    && (f.organization.Some? && f.organization.value != "" ==> ContainsIgnoreCase(e.organization, f.organization.value))
    && (f.roleType.Some? ==> e.roleType == f.roleType.value)
  }

  /** Builds the query from the filter, one optional condition at a time. */
  method BuildQuery(filter: Option<ExperienceFilter>) returns (q: Query)
    ensures forall e :: Matches(q, e) <==> Selected(filter, e)
    ensures filter.None? ==> q == Query(None, None, None, None)
  {
    q := Query(None, None, None, None);
    if filter.Some? && filter.value.featured.Some? {
      q := q.(featured := filter.value.featured);
    }
    if filter.Some? && filter.value.currentlyWorking.Some? {
      q := q.(currentlyWorking := filter.value.currentlyWorking);
    }
    if filter.Some? && filter.value.organization.Some? && filter.value.organization.value != "" {
      q := q.(organizationRegex := filter.value.organization);
    }
    if filter.Some? && filter.value.roleType.Some? {
      q := q.(roleType := filter.value.roleType);
    }
  }

  /** The sort `{ currentlyWorking: -1, startDate: -1, endDate: -1 }` as a key compared in
      descending order. A missing end date sorts below every date. */
  function OrderKey(e: Experience): seq<int> {
    [Flag(e.currentlyWorking), e.startDate, Flag(e.endDate.Some?), if e.endDate.Some? then e.endDate.value else 0]
  }

  /** Ids are unique in the collection. */
  predicate IdsUnique(docs: seq<Experience>) {
    forall i, j :: 0 <= i < j < |docs| ==> docs[i].id != docs[j].id
  }

  /** The position of the document with the id, if any. */
  function IndexOf(docs: seq<Experience>, id: ObjectId): (r: Option<nat>)
    ensures r.Some? ==> r.value < |docs| && docs[r.value].id == id
    ensures r.None? <==> forall i :: 0 <= i < |docs| ==> docs[i].id != id
  {
    FirstWhere(docs, (e: Experience) => e.id == id)
  }

  const FetchOneFailed: string := "Failed to fetch experience"
  const CreateFailed: string := "Failed to create experience"
  const UpdateFailed: string := "Failed to update experience"
  const DeleteFailed: string := "Failed to delete experience"

  /** The `experiences` collection and the actions on it. */
  class ExperienceCollection {
    var docs: seq<Experience>

    ghost predicate Valid()
      reads this
    {
      IdsUnique(docs)
    }

    constructor()
      ensures Valid() && docs == []
    {
      docs := [];
    }

    /** `getExperiences`: exactly the selected documents, ordered by the sort. */
    method GetExperiences(filter: Option<ExperienceFilter>) returns (r: seq<Experience>)
      ensures multiset(r) == multiset(Filter(docs, (e: Experience) => Selected(filter, e)))
      ensures forall e :: e in r <==> e in docs && Selected(filter, e)
      ensures filter.None? ==> multiset(r) == multiset(docs)
      ensures SortedDescending(r, OrderKey)
    {
      var q := BuildQuery(filter);
      var found := Filter(docs, (e: Experience) => Matches(q, e));
      FilterAgrees(docs, (e: Experience) => Matches(q, e), (e: Experience) => Selected(filter, e));
      r := SortDescending(found, OrderKey);
      assert forall e :: e in r <==> e in found by {
        forall e ensures e in r <==> e in found {
          assert e in r <==> multiset(r)[e] > 0;
          assert e in found <==> multiset(found)[e] > 0;
        }
      }
      if filter.None? {
        FilterAll(docs, (e: Experience) => Matches(q, e));
      }
    }

    /** `getExperienceById`: the guard, then the lookup; a malformed id, an unknown id or a null
        guard result all end in the same error. */
    method GetExperienceById(authResult: Option<AuthSession>, id: string) returns (r: Result<Experience, string>)
      ensures r.Ok? <==> !GuardRejects(authResult) && CastObjectId(id).Some?
                         && IndexOf(docs, CastObjectId(id).value).Some?
      ensures r.Ok? ==> r.value in docs && r.value.id == CastObjectId(id).value
      ensures r.Err? ==> r.error == FetchOneFailed
    {
      if GuardRejects(authResult) {
        return Err(FetchOneFailed);
      }
      var oid := CastObjectId(id);
      if oid.None? {
        return Err(FetchOneFailed);
      }
      var i := IndexOf(docs, oid.value);
      if i.None? {
        return Err(FetchOneFailed);
      }
      return Ok(docs[i.value]);
    }

    /** `createExperience`: builds the document under the fresh id `newId`, validates it, runs the
        pre-save hook and inserts it. There is no authentication check. */
    method CreateExperience(fields: ExperienceFields, newId: ObjectId) returns (r: Result<Experience, string>)
      requires Valid()
      modifies this
      ensures Valid()
      ensures r.Ok? <==> Save(newId, fields).Ok? && IndexOf(old(docs), newId).None?
      ensures r.Ok? ==> r.value == Save(newId, fields).value && docs == old(docs) + [r.value]
      ensures r.Err? ==> r.error == CreateFailed && docs == old(docs)
    {
      var saved := Save(newId, fields);
      if saved.Err? || IndexOf(docs, newId).Some? {
        return Err(CreateFailed);
      }
      docs := docs + [saved.value];
      return Ok(saved.value);
    }

    /** `updateExperience`: the guard, the cast of the id, the update validators, then the update of
        the one matching document, returned as it is afterwards. */
    method UpdateExperience(authResult: Option<AuthSession>, id: string, fields: ExperienceFields)
      returns (r: Result<Experience, string>)
      requires Valid()
      modifies this
      ensures Valid()
      ensures r.Ok? <==> && !GuardRejects(authResult) && CastObjectId(id).Some?
                         && UpdateValidates(fields) && IndexOf(old(docs), CastObjectId(id).value).Some?
      ensures r.Ok? ==> var i := IndexOf(old(docs), CastObjectId(id).value).value;
                        && r.value == ApplyUpdate(old(docs)[i], fields)
                        && docs == old(docs)[i := r.value]
      ensures r.Err? ==> r.error == UpdateFailed && docs == old(docs)
    {
      if GuardRejects(authResult) {
        return Err(UpdateFailed);
      }
      var oid := CastObjectId(id);
      if oid.None? || !UpdateValidates(fields) {
        return Err(UpdateFailed);
      }
      var i := IndexOf(docs, oid.value);
      if i.None? {
        return Err(UpdateFailed);
      }
      var updated := ApplyUpdate(docs[i.value], fields);
      docs := docs[i.value := updated];
      return Ok(updated);
    }

    /** `deleteExperience`: the guard, the cast of the id, then the removal of the one matching
        document; the others stay in their order. */
    method DeleteExperience(authResult: Option<AuthSession>, id: string) returns (r: Result<(), string>)
      requires Valid()
      modifies this
      ensures Valid()
      ensures r.Ok? <==> && !GuardRejects(authResult) && CastObjectId(id).Some?
                         && IndexOf(old(docs), CastObjectId(id).value).Some?
      ensures r.Ok? ==> var i := IndexOf(old(docs), CastObjectId(id).value).value;
                        docs == old(docs)[..i] + old(docs)[i + 1..]
      ensures r.Ok? ==> forall e :: e in docs <==> e in old(docs) && e.id != CastObjectId(id).value
      ensures r.Err? ==> r.error == DeleteFailed && docs == old(docs)
    {
      if GuardRejects(authResult) {
        return Err(DeleteFailed);
      }
      var oid := CastObjectId(id);
      if oid.None? {
        return Err(DeleteFailed);
      }
      var i := IndexOf(docs, oid.value);
      if i.None? {
        return Err(DeleteFailed);
      }
      DeleteKeepsOthers(docs, i.value);
      docs := docs[..i.value] + docs[i.value + 1..];
      return Ok(());
    }
  }

  /** Removing the document at `i` keeps the ids unique and keeps exactly the documents whose id
      differs from the removed one. */
  lemma DeleteKeepsOthers(docs: seq<Experience>, i: nat)
    requires IdsUnique(docs) && i < |docs|
    ensures IdsUnique(docs[..i] + docs[i + 1..])
    ensures forall e :: e in docs[..i] + docs[i + 1..] <==> e in docs && e.id != docs[i].id
  {
    var after := docs[..i] + docs[i + 1..];
    assert forall k :: 0 <= k < |after| ==> after[k] == docs[if k < i then k else k + 1];
    forall e ensures e in after <==> e in docs && e.id != docs[i].id {
      if e in docs && e.id != docs[i].id {
        var k :| 0 <= k < |docs| && docs[k] == e;
        if k < i { assert after[k] == e; } else { assert after[k - 1] == e; }
      }
    }
  }

  /** Deleting an experience and listing afterwards: the deleted document is not listed and every
      other document is listed exactly as before. */
  lemma DeleteThenList(docs: seq<Experience>, i: nat, filter: Option<ExperienceFilter>)
    requires i < |docs|
    ensures var p := (e: Experience) => Selected(filter, e);
            multiset(Filter(docs[..i] + docs[i + 1..], p))
              == multiset(Filter(docs, p)) - (if p(docs[i]) then multiset{docs[i]} else multiset{})
  {
    FilterRemoveAt(docs, i, (e: Experience) => Selected(filter, e));
  }
}
