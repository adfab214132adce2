/** The admin project list: fetched projects with their gallery sanitised,
    searched by title or tag, deleted after confirmation, and opened in the
    project editor for creation or editing. */
module ProjectManager {
  import opened Common
  import opened Text
  import opened ProjectEditor

  /** What the projects query produced; a success may carry no rows. */
  datatype ProjectsFetch = FetchFailed | FetchedRows(rows: Option<seq<Project>>)

  /** `gallery_images: Array.isArray(p.gallery_images) ? p.gallery_images : []`;
      a gallery that is not an array is `None` here. */
  function SanitizeOne(p: Project): Project
  {
    p.(galleryImages := Some(if p.galleryImages.Some? then p.galleryImages.value else []))
  }

  function Sanitized(rows: seq<Project>): seq<Project>
  {
    seq(|rows|, i requires 0 <= i < |rows| => SanitizeOne(rows[i]))
  }

  /** After sanitising, every project has an array gallery: its own if it
      had one, otherwise the empty one; nothing else changes, and the list
      keeps its length and order. */
  lemma SanitizedGalleries(rows: seq<Project>)
    ensures |Sanitized(rows)| == |rows|
    ensures forall i :: 0 <= i < |rows| ==> Sanitized(rows)[i].galleryImages.Some?
    ensures forall i :: 0 <= i < |rows| && rows[i].galleryImages.Some? ==> Sanitized(rows)[i] == rows[i]
    ensures forall i :: 0 <= i < |rows| && rows[i].galleryImages.None? ==>
      Sanitized(rows)[i] == rows[i].(galleryImages := Some([]))
  {
  }

  /** Sanitising twice is sanitising once. */
  lemma SanitizeIdempotent(rows: seq<Project>)
    ensures Sanitized(Sanitized(rows)) == Sanitized(rows)
  {
  }

  /** Lower-cased, `field` includes the lower-cased term. */
  predicate FieldMatches(field: string, term: string)
  {
    Contains(ToLower(field), ToLower(term))
  }

  /** `p.tags?.some(...)`: a project without tags matches through none. */
  predicate SomeTagMatches(tags: Option<seq<string>>, term: string)
  {
    tags.Some? && exists i :: 0 <= i < |tags.value| && FieldMatches(tags.value[i], term)
  }

  predicate Matches(p: Project, term: string)
  {
    FieldMatches(p.title, term) || SomeTagMatches(p.tags, term)
  }

  /** `filteredProjects`. */
  function Filtered(projects: seq<Project>, term: string): (r: seq<Project>)
    ensures forall p :: p in r <==> p in projects && Matches(p, term)
  {
    Filter(projects, (p: Project) => Matches(p, term))
  }

  /** "Displaying n of m": the filtered count never exceeds the total. */
  lemma DisplayedCountBounded(projects: seq<Project>, term: string)
    ensures |Filtered(projects, term)| <= |projects|
  {
  }

  /** A single matching tag lists a project whose title does not match. */
  lemma TagAloneMatches(p: Project, term: string, i: int)
    requires p.tags.Some? && 0 <= i < |p.tags.value|
    requires FieldMatches(p.tags.value[i], term)
    ensures Matches(p, term)
  {
  }

  /** An empty term lists every project, in order. */
  lemma EmptyTermKeepsAll(projects: seq<Project>)
    ensures Filtered(projects, "") == projects
  {
    forall i | 0 <= i < |projects| ensures Matches(projects[i], "") {
      ContainsEmpty(ToLower(projects[i].title));
    }
    FilterKeepsAll(projects, (p: Project) => Matches(p, ""));
  }

  /** `prev.filter(p => p.id !== id)`. */
  function Without(projects: seq<Project>, id: string): (r: seq<Project>)
    ensures forall x :: x in r <==> x in projects && x.id != Some(id)
    ensures |r| <= |projects|
  {
    Filter(projects, (p: Project) => p.id != Some(id))
  }

  /** `if (!deletingId)`: no id, or the empty id, means nothing to delete. */
  predicate HasPendingDelete(deletingId: Option<string>)
  {
    deletingId.Some? && deletingId.value != ""
  }

  class Projects {
    var projects: seq<Project>
    var loading: bool
    var searchTerm: string
    var isEditing: bool
    /** The project handed to the editor; none means a new project. */
    var selected: Option<Project>
    var deletingId: Option<string>
    var alert: Option<string>

    constructor ()
      ensures projects == [] && loading && searchTerm == "" && !isEditing
      ensures selected.None? && deletingId.None? && alert.None?
    {
      projects, loading, searchTerm, isEditing := [], true, "", false;
      selected, deletingId, alert := None, None, None;
    }

    /** `fetchProjects` after the query. */
    method ApplyFetch(r: ProjectsFetch)
      modifies this
      ensures r.FetchedRows? && r.rows.Some? ==> projects == Sanitized(r.rows.value)
      ensures !(r.FetchedRows? && r.rows.Some?) ==> projects == old(projects)
      ensures !loading && searchTerm == old(searchTerm) && isEditing == old(isEditing)
      ensures selected == old(selected) && deletingId == old(deletingId) && alert == old(alert)
    {
      if r.FetchedRows? && r.rows.Some? {
        projects := Sanitized(r.rows.value);
      }
      loading := false;
    }

    /** The search box. */
    method SetSearchTerm(t: string)
      modifies this
      ensures searchTerm == t && projects == old(projects) && loading == old(loading)
      ensures isEditing == old(isEditing) && selected == old(selected)
      ensures deletingId == old(deletingId) && alert == old(alert)
    {
      searchTerm := t;
    }

    /** `handleEdit(project)`: the editor opens on that project, or in
        creation mode without one. */
    method HandleEdit(p: Option<Project>)
      modifies this
      ensures isEditing && selected == p
      ensures projects == old(projects) && loading == old(loading) && searchTerm == old(searchTerm)
      ensures deletingId == old(deletingId) && alert == old(alert)
    {
      selected := p;
      isEditing := true;
    }

    /** The editor's cancel button. */
    method CancelEdit()
      modifies this
      ensures !isEditing
      ensures projects == old(projects) && loading == old(loading) && searchTerm == old(searchTerm)
      ensures selected == old(selected) && deletingId == old(deletingId) && alert == old(alert)
    {
      isEditing := false;
    }

    /** `handleSaveSuccess`: the editor closes and the list is fetched again;
        `r` is what that fetch produced. */
    method HandleSaveSuccess(r: ProjectsFetch)
      modifies this
      ensures !isEditing && !loading
      ensures r.FetchedRows? && r.rows.Some? ==> projects == Sanitized(r.rows.value)
      ensures !(r.FetchedRows? && r.rows.Some?) ==> projects == old(projects)
      ensures searchTerm == old(searchTerm) && selected == old(selected)
      ensures deletingId == old(deletingId) && alert == old(alert)
    {
      isEditing := false;
      loading := true;
      ApplyFetch(r);
    }

    method AskDelete(id: Option<string>)
      modifies this
      ensures deletingId == id
      ensures projects == old(projects) && loading == old(loading) && searchTerm == old(searchTerm)
      ensures isEditing == old(isEditing) && selected == old(selected) && alert == old(alert)
    {
      deletingId := id;
    }

    /** `handleDelete`: returns the id whose delete was issued, if any;
        `failed` says whether that delete returned an error. */
    method HandleDelete(failed: bool) returns (issued: Option<string>)
      modifies this
      ensures !HasPendingDelete(old(deletingId)) ==>
        issued.None? && projects == old(projects) && deletingId == old(deletingId) && alert == old(alert)
      ensures HasPendingDelete(old(deletingId)) ==> issued == old(deletingId) && deletingId.None?
      ensures HasPendingDelete(old(deletingId)) && !failed ==>
        projects == Without(old(projects), old(deletingId).value) && alert == old(alert)
      ensures HasPendingDelete(old(deletingId)) && failed ==>
        projects == old(projects) && alert == Some("Error deleting project")
      ensures loading == old(loading) && searchTerm == old(searchTerm)
      ensures isEditing == old(isEditing) && selected == old(selected)
    {
      if !HasPendingDelete(deletingId) {
        return None;
      }
      var id := deletingId.value;
      issued := Some(id);
      if failed {
        alert := Some("Error deleting project");
      } else {
        projects := Without(projects, id);
      }
      deletingId := None;
    }
  }
}
