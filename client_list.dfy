/** The client list: a search box over client and company names, clients
    ordered by their number of projects in progress, one expandable row at a
    time, and a project dialog opened from an expanded row. */
module ClientList {
  import opened Records
  import opened Seqs
  import opened Sorting
  import opened Text

  datatype ClientProject = ClientProject(id: string, name: string, status: string, color: string)

  datatype ListedClient = ListedClient(
    id: string,
    name: string,
    company: Option<string>,
    email: Option<string>,
    phone: Option<string>,
    projects: seq<ClientProject>)

  /** Every status but 'completed' counts as in progress ('archived' included). */
  predicate InProgress(p: ClientProject) {
    p.status != "completed"
  }

  /** The client's projects in progress, in their order: exactly those not
      'completed'. */
  function ActiveProjects(c: ListedClient): (r: seq<ClientProject>)
    ensures |r| <= |c.projects|
    ensures forall i :: 0 <= i < |r| ==> r[i].status != "completed"
    ensures forall p :: p in r <==> p in c.projects && p.status != "completed"
  {
    var r := Filter(c.projects, InProgress);
    assert forall p :: p in r <==> p in c.projects && InProgress(p) by {
      forall p ensures p in r <==> p in c.projects && InProgress(p) {
        FilterMembers(c.projects, InProgress, p);
      }
    }
    r
  }

  function ActiveCount(c: ListedClient): nat {
    |ActiveProjects(c)|
  }

  predicate Completed(p: ClientProject) {
    p.status == "completed"
  }

  /** Every project of a client is counted as active or else as completed:
      the active count is the number of projects less the completed ones. */
  lemma ActiveCountSplit(c: ListedClient)
    ensures ActiveCount(c) + |Filter(c.projects, Completed)| == |c.projects|
  {
    FilterCount(c.projects, InProgress, Completed);
  }

  /** The search test: the lower-cased term occurs in the lower-cased name,
      or in the lower-cased company when there is one. */
  predicate Matches(c: ListedClient, term: string) {
    Contains(Lower(c.name), Lower(term))
    || (c.company.Some? && Contains(Lower(c.company.value), Lower(term)))
  }

  function MatchesTerm(term: string): ListedClient -> bool {
    (c: ListedClient) => Matches(c, term)
  }

  /** `filteredClients`. */
  function FilteredClients(clients: seq<ListedClient>, term: string): (r: seq<ListedClient>)
    ensures |r| <= |clients|
    ensures forall i :: 0 <= i < |r| ==> Matches(r[i], term)
  {
    Filter(clients, MatchesTerm(term))
  }

  /** `sub` occurs somewhere in `s`. */
  ghost predicate OccursIn(s: string, sub: string) {
    exists k :: OccursAt(s, sub, k)
  }

  /** A client is found exactly when the term occurs, ignoring case, at some
      position of its name or of its company. */
  lemma SearchFinds(clients: seq<ListedClient>, term: string, c: ListedClient)
    ensures c in FilteredClients(clients, term) <==>
      c in clients &&
      (OccursIn(Lower(c.name), Lower(term)) ||
       (c.company.Some? && OccursIn(Lower(c.company.value), Lower(term))))
  {
    FilterMembers(clients, MatchesTerm(term), c);
    assert MatchesTerm(term)(c) == Matches(c, term);
    ContainsAt(Lower(c.name), Lower(term));
    if c.company.Some? {
      ContainsAt(Lower(c.company.value), Lower(term));
    }
  }

  /** The search ignores the case of the term. */
  lemma SearchIgnoresCase(clients: seq<ListedClient>, term: string)
    ensures FilteredClients(clients, Upper(term)) == FilteredClients(clients, term)
  {
    LowerUpper(term);
    FilterExt(clients, MatchesTerm(Upper(term)), MatchesTerm(term));
  }

  /** An empty search box keeps every client, in order. */
  lemma EmptySearchKeepsAll(clients: seq<ListedClient>)
    ensures FilteredClients(clients, "") == clients
  {
    forall i | 0 <= i < |clients| ensures Matches(clients[i], "") {
      assert IsPrefix(Lower(""), Lower(clients[i].name));
    }
    FilterAll(clients, MatchesTerm(""));
  }

  /** The comparator `activeB - activeA`: `a` may stay before `b` when it has
      at least as many projects in progress. */
  function MoreActive(a: ListedClient, b: ListedClient): bool {
    ActiveCount(b) - ActiveCount(a) <= 0
  }

  /** `sortedClients`: the matching clients, most projects in progress first. */
  function SortedClients(clients: seq<ListedClient>, term: string): (r: seq<ListedClient>)
    ensures multiset(r) == multiset(FilteredClients(clients, term))
  {
    SortBy(FilteredClients(clients, term), MoreActive)
  }

  /** The order is non-increasing in the number of projects in progress. */
  lemma SortedByActiveCount(clients: seq<ListedClient>, term: string)
    ensures var r := SortedClients(clients, term);
      forall i, j :: 0 <= i < j < |r| ==> ActiveCount(r[i]) >= ActiveCount(r[j])
  {
    SortBySorted(FilteredClients(clients, term), MoreActive);
  }

  function ActiveCountIs(n: nat): ListedClient -> bool {
    (c: ListedClient) => ActiveCount(c) == n
  }

  /** Clients with the same count keep their order from the input list. */
  lemma TiesKeepOrder(clients: seq<ListedClient>, term: string, n: nat)
    ensures Filter(SortedClients(clients, term), ActiveCountIs(n))
         == Filter(FilteredClients(clients, term), ActiveCountIs(n))
  {
    SortByStable(FilteredClients(clients, term), MoreActive, ActiveCountIs(n));
  }

  /** The row badge: "1 Projet", otherwise "<n> Projets". */
  function ProjectsLabel(n: nat): (s: string)
    ensures s == NatToString(n) + " Projet" || s == NatToString(n) + " Projets"
    ensures (s == NatToString(n) + " Projets") <==> n != 1
  {
    NatToString(n) + " Projet" + (if n != 1 then "s" else "")
  }

  /** The expansion and dialog state. */
  class ClientRows {
    var expandedClientId: Option<string>
    var selectedProject: Option<(ClientProject, ListedClient)>

    constructor()
      ensures expandedClientId.None? && selectedProject.None?
    {
      expandedClientId := None;
      selectedProject := None;
    }

    predicate IsExpanded(c: ListedClient)
      reads this
    {
      expandedClientId == Some(c.id)
    }

    /** `toggleExpand`: the open row closes; any other row opens and the row
      that was open closes. */
    method ToggleExpand(clientId: string)
      modifies this`expandedClientId
      ensures old(expandedClientId) == Some(clientId) ==> expandedClientId.None?
      ensures old(expandedClientId) != Some(clientId) ==> expandedClientId == Some(clientId)
    {
      if expandedClientId == Some(clientId) {
        expandedClientId := None;
      } else {
        expandedClientId := Some(clientId);
      }
    }

    /** A click on a project of an expanded row opens the dialog on it, with
      its client attached. */
    method SelectProject(p: ClientProject, c: ListedClient)
      modifies this`selectedProject
      ensures selectedProject == Some((p, c))
    {
      selectedProject := Some((p, c));
    }

    method CloseDialog()
      modifies this`selectedProject
      ensures selectedProject.None?
    {
      selectedProject := None;
    }
  }
}
