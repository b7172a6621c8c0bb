/** The project list of a team (hooks/useProjects.ts): the team's projects
    are fetched when there is a team, and narrowed by a case-insensitive
    search on the name. */
module Projects {
  import opened Common
  import opened Types

  /** `name.toLowerCase().includes(term.toLowerCase())`; the term is not
      trimmed. */
  predicate NameMatches(p: Project, term: string) {
    Contains(Lower(p.name), Lower(term))
  }

  function FilteredProjects(all: seq<Project>, term: string): seq<Project> {
    if term == "" then all else Filter(all, p => NameMatches(p, term))
  }

  /** The empty term returns the list as it is. */
  lemma EmptyTermKeepsAll(all: seq<Project>)
    ensures FilteredProjects(all, "") == all
  {
  }

  /** A non-empty term keeps exactly the projects whose name contains it in
      any case, each as often as before, in their original order. */
  lemma FilteredProjectsSpec(all: seq<Project>, term: string)
    requires term != ""
    ensures forall p :: p in FilteredProjects(all, term) <==> p in all && NameMatches(p, term)
    ensures forall p :: multiset(FilteredProjects(all, term))[p] ==
                        (if NameMatches(p, term) then multiset(all)[p] else 0)
    ensures Subsequence(FilteredProjects(all, term), all)
  {
    forall p ensures p in FilteredProjects(all, term) <==> p in all && NameMatches(p, term) {
      FilterMembership(all, p => NameMatches(p, term), p);
    }
    forall p ensures multiset(FilteredProjects(all, term))[p] ==
                     (if NameMatches(p, term) then multiset(all)[p] else 0)
    {
      FilterMultiset(all, p => NameMatches(p, term), p);
    }
    FilterSubsequence(all, p => NameMatches(p, term));
  }

  /** Every project is found by its own name, whatever the case of the term. */
  lemma ProjectFoundByName(all: seq<Project>, p: Project)
    requires p in all
    ensures p in FilteredProjects(all, Upper(p.name))
    ensures p in FilteredProjects(all, p.name)
  {
    if p.name == "" {
      assert Upper(p.name) == "";
    } else {
      LowerUpper(p.name);
      ContainsSelf(Lower(p.name));
      FilteredProjectsSpec(all, Upper(p.name));
      FilteredProjectsSpec(all, p.name);
    }
  }

  lemma LowerUpper(s: string)
    ensures Lower(Upper(s)) == Lower(s)
  {
    assert forall i :: 0 <= i < |s| ==> LowerChar(UpperChar(s[i])) == LowerChar(s[i]);
  }

  const LoadFailedMessage: string := "No se pudieron cargar los proyectos."

  /** The hook's state. */
  class ProjectsHook {
    var allProjects: seq<Project>
    var isLoading: bool
    var error: Option<string>
    var searchTerm: string

    constructor ()
      ensures allProjects == [] && isLoading && error == None && searchTerm == ""
    {
      allProjects, isLoading, error, searchTerm := [], true, None, "";
    }

    function Projects(): seq<Project>
      reads this
    {
      FilteredProjects(allProjects, searchTerm)
    }

    /** The first half of `fetchProjects`. Without a team nothing is asked for
        and loading ends, with the list and the error left as they were;
        otherwise loading starts and the error is cleared. */
    method StartFetch(teamId: string) returns (requested: bool)
      modifies this
      ensures requested <==> teamId != ""
      ensures allProjects == old(allProjects) && searchTerm == old(searchTerm)
      ensures !requested ==> !isLoading && error == old(error)
      ensures requested ==> isLoading && error == None
    {
      if teamId == "" {
        isLoading := false;
        return false;
      }
      isLoading := true;
      error := None;
      requested := true;
    }

    /** The second half: the fetched projects replace the list, or the error
        is set; loading ends either way. */
    method CompleteFetch(response: Option<seq<Project>>)
      modifies this
      ensures !isLoading && searchTerm == old(searchTerm)
      ensures response.Some? ==> allProjects == response.value && error == old(error)
      ensures response.None? ==> allProjects == old(allProjects) && error == Some(LoadFailedMessage)
    {
      match response {
        case Some(projects) => allProjects := projects;
        case None => error := Some(LoadFailedMessage);
      }
      isLoading := false;
    }
  }
}
