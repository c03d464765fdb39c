/**
 * The dashboard of components/dashboard-content.tsx: two lists of example
 * ideas and projects loaded once when the component mounts, and the two
 * delete handlers that drop every entry carrying a given id.
 */
module DashboardContent {
  import opened Sequences

  datatype Idea = Idea(id: string, title: string, description: string, createdAt: string)

  datatype Project = Project(
    id: string, title: string, description: string,
    technologies: seq<string>, features: seq<string>, createdAt: string)

  function IdeaId(idea: Idea): string {
    idea.id
  }

  function ProjectId(project: Project): string {
    project.id
  }

  // ---------------------------------------------------------------------------
  // Deleting by id

  /** No two entries share an id. */
  predicate DistinctIds<T>(s: seq<T>, idOf: T -> string) {
    forall i, j :: 0 <= i < j < |s| ==> idOf(s[i]) != idOf(s[j])
  }

  /** `list.filter(item => item.id !== id)`. */
  function WithoutId<T>(s: seq<T>, idOf: T -> string, id: string): (r: seq<T>)
    ensures forall x :: x in r ==> idOf(x) != id
    ensures forall x :: x in s && idOf(x) != id ==> x in r
    ensures forall x :: x in r ==> x in s
  {
    Filter(s, x => idOf(x) != id)
  }

  /** Deleting an id no entry carries leaves the list as it was. */
  lemma {:induction false} WithoutAbsentId<T>(s: seq<T>, idOf: T -> string, id: string)
    requires forall k :: 0 <= k < |s| ==> idOf(s[k]) != id
    ensures WithoutId(s, idOf, id) == s
  {
    FilterKeepsAll(s, x => idOf(x) != id);
  }

  /** Deleting works piecewise, so the entries that stay keep their original order. */
  lemma {:induction false} WithoutIdConcat<T>(a: seq<T>, b: seq<T>, idOf: T -> string, id: string)
    ensures WithoutId(a + b, idOf, id) == WithoutId(a, idOf, id) + WithoutId(b, idOf, id)
  {
    FilterConcat(a, b, x => idOf(x) != id);
  }

  /** Deleting the same id twice is the same as deleting it once. */
  lemma {:induction false} WithoutIdIdempotent<T>(s: seq<T>, idOf: T -> string, id: string)
    ensures WithoutId(WithoutId(s, idOf, id), idOf, id) == WithoutId(s, idOf, id)
  {
    var r := WithoutId(s, idOf, id);
    forall k | 0 <= k < |r| ensures idOf(r[k]) != id {
      assert r[k] in r;
    }
    WithoutAbsentId(r, idOf, id);
  }

  /** With distinct ids, the entry at position `k` is the only one carrying its id. */
  lemma {:induction false} OnlyCarrier<T>(s: seq<T>, idOf: T -> string, k: int, before: seq<T>, after: seq<T>)
    requires DistinctIds(s, idOf) && 0 <= k < |s|
    requires before == s[..k] && after == s[k + 1..]
    ensures forall j :: 0 <= j < |before| ==> idOf(before[j]) != idOf(s[k])
    ensures forall j :: 0 <= j < |after| ==> idOf(after[j]) != idOf(s[k])
  {
    forall j | 0 <= j < |before| ensures idOf(before[j]) != idOf(s[k]) {
      assert before[j] == s[j];
    }
    forall j | 0 <= j < |after| ensures idOf(after[j]) != idOf(s[k]) {
      assert after[j] == s[k + 1 + j];
    }
  }

  /** Deleting the id of the one entry that carries it removes that entry alone. */
  lemma {:induction false} WithoutSoleCarrier<T>(before: seq<T>, x: T, after: seq<T>, idOf: T -> string)
    requires forall j :: 0 <= j < |before| ==> idOf(before[j]) != idOf(x)
    requires forall j :: 0 <= j < |after| ==> idOf(after[j]) != idOf(x)
    ensures WithoutId(before + [x] + after, idOf, idOf(x)) == before + after
  {
    var id := idOf(x);
    WithoutAbsentId(before, idOf, id);
    WithoutAbsentId(after, idOf, id);
    assert WithoutId([x], idOf, id) == [] by {
      assert Filter([x], y => idOf(y) != id) == [] + Filter([x][1..], y => idOf(y) != id);
    }
    WithoutIdConcat(before, [x], idOf, id);
    WithoutIdConcat(before + [x], after, idOf, id);
    assert before + [] == before;
  }

  /**
   * When ids are distinct, deleting the id of the entry at position `k`
   * removes exactly that entry and nothing else.
   */
  lemma {:induction false} WithoutIdOfDistinct<T>(s: seq<T>, idOf: T -> string, k: int)
    requires DistinctIds(s, idOf) && 0 <= k < |s|
    ensures WithoutId(s, idOf, idOf(s[k])) == s[..k] + s[k + 1..]
  {
    var before, after := s[..k], s[k + 1..];
    OnlyCarrier(s, idOf, k, before, after);
    WithoutSoleCarrier(before, s[k], after, idOf);
    assert s == before + [s[k]] + after;
  }

  // ---------------------------------------------------------------------------
  // The example data

  const MockIdeas: seq<Idea> := [
    Idea("1", "App per la gestione delle spese",
      "Un'applicazione che aiuta a tenere traccia delle spese quotidiane e fornisce report mensili.",
      "2023-05-15T10:30:00Z"),
    Idea("2", "Sistema di prenotazione per ristoranti",
      "Un sistema che permette ai clienti di prenotare tavoli online e ai ristoranti di gestire le prenotazioni.",
      "2023-06-20T14:45:00Z")
  ]

  const MockProjects: seq<Project> := [
    Project("1", "E-commerce di prodotti artigianali",
      "Piattaforma per la vendita di prodotti artigianali locali con sistema di pagamento integrato.",
      ["React", "Node.js", "MongoDB"], ["Carrello", "Pagamenti", "Recensioni"], "2023-04-10T09:15:00Z"),
    Project("2", "Social network per fotografi",
      "Piattaforma dove i fotografi possono condividere il loro lavoro e connettersi con altri professionisti.",
      ["Vue.js", "Firebase", "Cloudinary"], ["Gallerie", "Commenti", "Profili"], "2023-07-05T16:20:00Z")
  ]

  /** The example ideas and the example projects each have distinct ids. */
  lemma MockIdsDistinct()
    ensures DistinctIds(MockIdeas, IdeaId) && DistinctIds(MockProjects, ProjectId)
  {
  }

  // ---------------------------------------------------------------------------
  // The component's state

  class Dashboard {
    var ideas: seq<Idea>
    var projects: seq<Project>

    /** The first render: both lists empty. */
    constructor ()
      ensures ideas == [] && projects == []
    {
      ideas := [];
      projects := [];
    }

    /** The mount effect: both lists are replaced by the example data. */
    method LoadMockData()
      modifies this
      ensures ideas == MockIdeas && projects == MockProjects
      ensures DistinctIds(ideas, IdeaId) && DistinctIds(projects, ProjectId)
    {
      ideas := MockIdeas;
      projects := MockProjects;
      MockIdsDistinct();
    }

    /** `deleteIdea(id)`: the projects are untouched. */
    method DeleteIdea(id: string)
      modifies this`ideas
      ensures ideas == WithoutId(old(ideas), IdeaId, id)
      ensures forall k :: 0 <= k < |ideas| ==> ideas[k].id != id
      ensures projects == old(projects)
    {
      ideas := WithoutId(ideas, IdeaId, id);
      assert forall k :: 0 <= k < |ideas| ==> ideas[k] in ideas;
    }

    /** `deleteProject(id)`: the ideas are untouched. */
    method DeleteProject(id: string)
      modifies this`projects
      ensures projects == WithoutId(old(projects), ProjectId, id)
      ensures forall k :: 0 <= k < |projects| ==> projects[k].id != id
      ensures ideas == old(ideas)
    {
      projects := WithoutId(projects, ProjectId, id);
      assert forall k :: 0 <= k < |projects| ==> projects[k] in projects;
    }
  }
}
