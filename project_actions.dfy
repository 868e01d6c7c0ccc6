/** The server actions on projects: the sorted listing, and the guarded lookup, create, update and
    delete by id. */
module ProjectActions {
  import opened Base
  import opened ObjectIds
  import opened Seqs
  import opened ProjectModel
  import opened Auth

  /** The sort `{ featured: -1, createdAt: -1 }` as a key compared in descending order. */
  function OrderKey(p: Project): seq<int> {
    [Flag(p.featured), p.createdAt]
  }

  /** Ids are unique in the collection. */
  predicate IdsUnique(docs: seq<Project>) {
    forall i, j :: 0 <= i < j < |docs| ==> docs[i].id != docs[j].id
  }

  /** The position of the document with the id, if any. */
  function IndexOf(docs: seq<Project>, id: ObjectId): (r: Option<nat>)
    ensures r.Some? ==> r.value < |docs| && docs[r.value].id == id
    ensures r.None? <==> forall i :: 0 <= i < |docs| ==> docs[i].id != id
  {
    FirstWhere(docs, (p: Project) => p.id == id)
  }

  const FetchOneFailed: string := "Failed to fetch project"
  const CreateFailed: string := "Failed to create project"
  const UpdateFailed: string := "Failed to update project"
  const DeleteFailed: string := "Failed to delete project"

  /** The `projects` collection and the actions on it. */
  class ProjectCollection {
    var docs: seq<Project>

    ghost predicate Valid()
      reads this
    {
      IdsUnique(docs)
    }

    constructor()
      ensures Valid() && docs == []
    {
      docs := [];
    }

    /** `getProjects`: every project, featured ones first, newest first within each group. */
    method GetProjects() returns (r: seq<Project>)
      ensures multiset(r) == multiset(docs)
      ensures SortedDescending(r, OrderKey)
      ensures forall i, j :: 0 <= i < j < |r| && !r[i].featured ==> !r[j].featured
    {
      r := SortDescending(docs, OrderKey);
      forall i, j | 0 <= i < j < |r| && !r[i].featured ensures !r[j].featured {
        assert LexLeq(OrderKey(r[j]), OrderKey(r[i]));
      }
    }

    /** `getProjectById`: the guard, then the lookup; a malformed id, an unknown id or a null guard
        result all end in the same error. */
    method GetProjectById(authResult: Option<AuthSession>, id: string) returns (r: Result<Project, string>)
      ensures r.Ok? <==> !GuardRejects(authResult) && CastObjectId(id).Some?
                         && IndexOf(docs, CastObjectId(id).value).Some?
      ensures r.Ok? ==> r.value in docs && r.value.id == CastObjectId(id).value
      ensures r.Err? ==> r.error == FetchOneFailed
    {
      if GuardRejects(authResult) {
        return Err(FetchOneFailed);
      }
      var oid := CastObjectId(id);
      if oid.None? {
        return Err(FetchOneFailed);
      }
      var i := IndexOf(docs, oid.value);
      if i.None? {
        return Err(FetchOneFailed);
      }
      return Ok(docs[i.value]);
    }

    /** `createProject`: builds the document under the fresh id `newId`, stamped `now`, validates
        it and inserts it. There is no authentication check. */
    method CreateProject(fields: ProjectFields, newId: ObjectId, now: Millis) returns (r: Result<Project, string>)
      requires Valid()
      modifies this
      ensures Valid()
      ensures r.Ok? <==> NewProject(newId, fields, now).Ok? && IndexOf(old(docs), newId).None?
      ensures r.Ok? ==> r.value == NewProject(newId, fields, now).value && docs == old(docs) + [r.value]
      ensures r.Err? ==> r.error == CreateFailed && docs == old(docs)
    {
      var built := NewProject(newId, fields, now);
      if built.Err? || IndexOf(docs, newId).Some? {
        return Err(CreateFailed);
      }
      docs := docs + [built.value];
      return Ok(built.value);
    }

    /** `updateProject`: the guard, the cast of the id, the update validators, then the update of
        the one matching document, returned as it is afterwards. */
    method UpdateProject(authResult: Option<AuthSession>, id: string, fields: ProjectFields)
      returns (r: Result<Project, string>)
      requires Valid()
      modifies this
      ensures Valid()
      ensures r.Ok? <==> && !GuardRejects(authResult) && CastObjectId(id).Some?
                         && UpdateValidates(fields) && IndexOf(old(docs), CastObjectId(id).value).Some?
      ensures r.Ok? ==> var i := IndexOf(old(docs), CastObjectId(id).value).value;
                        && r.value == ApplyUpdate(old(docs)[i], fields)
                        && docs == old(docs)[i := r.value]
      ensures r.Err? ==> r.error == UpdateFailed && docs == old(docs)
    {
      if GuardRejects(authResult) {
        return Err(UpdateFailed);
      }
      var oid := CastObjectId(id);
      if oid.None? || !UpdateValidates(fields) {
        return Err(UpdateFailed);
      }
      var i := IndexOf(docs, oid.value);
      if i.None? {
        return Err(UpdateFailed);
      }
      var updated := ApplyUpdate(docs[i.value], fields);
      docs := docs[i.value := updated];
      return Ok(updated);
    }

    /** `deleteProject`: the guard, the cast of the id, then the removal of the one matching
        document; the others stay in their order. */
    method DeleteProject(authResult: Option<AuthSession>, id: string) returns (r: Result<(), string>)
      requires Valid()
      modifies this
      ensures Valid()
      ensures r.Ok? <==> && !GuardRejects(authResult) && CastObjectId(id).Some?
                         && IndexOf(old(docs), CastObjectId(id).value).Some?
      ensures r.Ok? ==> var i := IndexOf(old(docs), CastObjectId(id).value).value;
                        docs == old(docs)[..i] + old(docs)[i + 1..]
      ensures r.Err? ==> r.error == DeleteFailed && docs == old(docs)
    {
      if GuardRejects(authResult) {
        return Err(DeleteFailed);
      }
      var oid := CastObjectId(id);
      if oid.None? {
        return Err(DeleteFailed);
      }
      var i := IndexOf(docs, oid.value);
      if i.None? {
        return Err(DeleteFailed);
      }
      docs := docs[..i.value] + docs[i.value + 1..];
      return Ok(());
    }
  }

  /** After a delete the id is gone from the collection, since ids are unique. */
  lemma {:induction false} DeletedIdGone(docs: seq<Project>, i: nat)
    requires IdsUnique(docs) && i < |docs|
    ensures IndexOf(docs[..i] + docs[i + 1..], docs[i].id).None?
    ensures IdsUnique(docs[..i] + docs[i + 1..])
  {
    var after := docs[..i] + docs[i + 1..];
    forall k | 0 <= k < |after| ensures after[k] == docs[if k < i then k else k + 1] {
    }
  }
}
