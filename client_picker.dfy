/** The client and project pickers that the timer, the quick entry form and
    the entry editor share: the distinct clients joined into a project list
    (`Array.from(new Map(pairs).values())`) and the projects of the selected
    client. */
module ClientPicker {
  import opened Records
  import opened Seqs

  predicate Distinct(xs: seq<string>) {
    forall i, j :: 0 <= i < j < |xs| ==> xs[i] != xs[j]
  }

  /** The project at index `k` has a joined client whose id is `id`. */
  predicate ClientAt(ps: seq<Project>, k: int, id: string) {
    0 <= k < |ps| && ps[k].client.Some? && ps[k].client.value.id == id
  }

  function Keys(cs: seq<Client>): (r: seq<string>)
    ensures |r| == |cs|
    ensures forall i :: 0 <= i < |cs| ==> r[i] == cs[i].id
  {
    if cs == [] then [] else [cs[0].id] + Keys(cs[1..])
  }

  /** The client ids of the projects that have a client, in project order:
      the keys handed to the `Map` constructor. */
  function ClientIds(ps: seq<Project>): (r: seq<string>)
    ensures forall k, id :: ClientAt(ps, k, id) ==> id in r
  {
    if ps == [] then []
    else
      var front := ps[..|ps| - 1];
      var last := ps[|ps| - 1];
      var r := ClientIds(front) + (if last.client.Some? then [last.client.value.id] else []);
      assert forall k, id :: ClientAt(ps, k, id) && k < |front| ==> ClientAt(front, k, id);
      r
  }

  /** The first index at which `x` occurs in `xs`. */
  function FirstIndex(xs: seq<string>, x: string): (k: nat)
    requires x in xs
    ensures k < |xs| && xs[k] == x
    ensures forall j :: 0 <= j < k ==> xs[j] != x
  {
    if xs[0] == x then 0 else 1 + FirstIndex(xs[1..], x)
  }

  /** Where the entry with key `id` sits, or -1. */
  function Slot(cs: seq<Client>, id: string): (k: int)
    ensures -1 <= k < |cs|
    ensures k == -1 <==> id !in Keys(cs)
    ensures k >= 0 ==> cs[k].id == id
  {
    if cs == [] then -1
    else if cs[0].id == id then 0
    else
      var k := Slot(cs[1..], id);
      if k == -1 then -1 else k + 1
  }

  /** `map.set(c.id, c)` on a map kept as its entries in insertion order: an
      existing key keeps its place and takes the new value, a new key goes last. */
  function Put(cs: seq<Client>, c: Client): (r: seq<Client>)
    requires Distinct(Keys(cs))
    ensures Keys(r) == if c.id in Keys(cs) then Keys(cs) else Keys(cs) + [c.id]
    ensures Distinct(Keys(r))
    ensures forall i :: 0 <= i < |cs| && cs[i].id != c.id ==> r[i] == cs[i]
    ensures forall i :: 0 <= i < |r| && r[i].id == c.id ==> r[i] == c
  {
    var k := Slot(cs, c.id);
    if k == -1 then cs + [c] else cs[k := c]
  }

  /** The clients of the projects, one per distinct client id. */
  function Clients(ps: seq<Project>): (r: seq<Client>)
    ensures Distinct(Keys(r))
    ensures forall x :: x in Keys(r) <==> x in ClientIds(ps)
  {
    if ps == [] then []
    else
      var acc := Clients(ps[..|ps| - 1]);
      match ps[|ps| - 1].client
      case None => acc
      case Some(c) => Put(acc, c)
  }

  /** The client joined into the last project that carries `id`, if any. */
  function LastClient(ps: seq<Project>, id: string): Option<Client>
  {
    if ps == [] then None
    else
      var last := ps[|ps| - 1];
      if last.client.Some? && last.client.value.id == id then last.client
      else LastClient(ps[..|ps| - 1], id)
  }

  lemma FirstIndexAppend(xs: seq<string>, ys: seq<string>, x: string)
    requires x in xs
    ensures FirstIndex(xs + ys, x) == FirstIndex(xs, x)
  {
    var k := FirstIndex(xs, x);
    var k' := FirstIndex(xs + ys, x);
    assert (xs + ys)[k] == x;
  }

  /** The entries of `cs` come in the order their keys first appear in `ids`. */
  predicate InFirstAppearanceOrder(cs: seq<Client>, ids: seq<string>) {
    && (forall i :: 0 <= i < |cs| ==> cs[i].id in ids)
    && (forall i, j :: 0 <= i < j < |cs| ==> FirstIndex(ids, cs[i].id) < FirstIndex(ids, cs[j].id))
  }

  /** Appending a key keeps the first index of every key already there. */
  lemma FirstIndicesKept(acc: seq<Client>, ids: seq<string>, x: string)
    requires forall i :: 0 <= i < |acc| ==> acc[i].id in ids
    ensures forall i :: 0 <= i < |acc| ==> FirstIndex(ids + [x], acc[i].id) == FirstIndex(ids, acc[i].id)
  {
    forall i | 0 <= i < |acc|
      ensures FirstIndex(ids + [x], acc[i].id) == FirstIndex(ids, acc[i].id)
    {
      FirstIndexAppend(ids, [x], acc[i].id);
    }
  }

  /** A client whose id is known replaces its entry in place. */
  lemma ClientsOrderReplace(acc: seq<Client>, ids: seq<string>, c: Client)
    requires Distinct(Keys(acc)) && c.id in Keys(acc)
    requires forall x :: x in Keys(acc) <==> x in ids
    requires InFirstAppearanceOrder(acc, ids)
    ensures InFirstAppearanceOrder(Put(acc, c), ids + [c.id])
  {
    var r := Put(acc, c);
    var ids' := ids + [c.id];
    FirstIndicesKept(acc, ids, c.id);
    assert Keys(r) == Keys(acc);
    forall i | 0 <= i < |r| ensures r[i].id in ids' && FirstIndex(ids', r[i].id) == FirstIndex(ids, acc[i].id) {
      assert r[i].id == Keys(r)[i] == Keys(acc)[i] == acc[i].id;
    }
  }

  /** A client with a new id goes last, and its id first appears last. */
  lemma ClientsOrderAppend(acc: seq<Client>, ids: seq<string>, c: Client)
    requires Distinct(Keys(acc)) && c.id !in Keys(acc)
    requires forall x :: x in Keys(acc) <==> x in ids
    requires InFirstAppearanceOrder(acc, ids)
    ensures InFirstAppearanceOrder(Put(acc, c), ids + [c.id])
  {
    PutNew(acc, c);
    assert c.id !in ids;
    OrderAppend(acc, ids, c);
  }

  lemma PutNew(acc: seq<Client>, c: Client)
    requires Distinct(Keys(acc)) && c.id !in Keys(acc)
    ensures Put(acc, c) == acc + [c]
  {
  }

  /** An entry whose key is new to `ids` may follow all the others. */
  lemma OrderAppend(acc: seq<Client>, ids: seq<string>, c: Client)
    requires c.id !in ids
    requires InFirstAppearanceOrder(acc, ids)
    ensures InFirstAppearanceOrder(acc + [c], ids + [c.id])
  {
    var ids' := ids + [c.id];
    var r := acc + [c];
    FirstIndicesKept(acc, ids, c.id);
    assert FirstIndex(ids', c.id) == |ids|;
    forall i, j | 0 <= i < j < |r|
      ensures FirstIndex(ids', r[i].id) < FirstIndex(ids', r[j].id)
    {
      assert r[i] == acc[i];
      if j < |acc| {
        assert r[j] == acc[j];
      }
    }
  }

  /** One step of `ClientsOrder`: a project with client `c` is appended. */
  lemma ClientsOrderStep(acc: seq<Client>, ids: seq<string>, c: Client)
    requires Distinct(Keys(acc))
    requires forall x :: x in Keys(acc) <==> x in ids
    requires InFirstAppearanceOrder(acc, ids)
    ensures InFirstAppearanceOrder(Put(acc, c), ids + [c.id])
  {
    if c.id in Keys(acc) {
      ClientsOrderReplace(acc, ids, c);
    } else {
      ClientsOrderAppend(acc, ids, c);
    }
  }

  /** The clients come in the order their ids first appear among the projects. */
  lemma {:induction false} ClientsOrder(ps: seq<Project>)
    ensures InFirstAppearanceOrder(Clients(ps), ClientIds(ps))
  {
    if ps != [] {
      var front := ps[..|ps| - 1];
      var acc := Clients(front);
      var ids := ClientIds(front);
      ClientsOrder(front);
      match ps[|ps| - 1].client
      case None =>
        assert Clients(ps) == acc;
        assert ClientIds(ps) == ids;
      case Some(c) =>
        assert Clients(ps) == Put(acc, c);
        assert ClientIds(ps) == ids + [c.id];
        ClientsOrderStep(acc, ids, c);
    }
  }

  /** Every entry of `cs` is the client joined into the last project of `ps`
      that carries its id. */
  predicate LatestOf(cs: seq<Client>, ps: seq<Project>) {
    forall i :: 0 <= i < |cs| ==> LastClient(ps, cs[i].id) == Some(cs[i])
  }

  /** A client id that appears several times keeps the client joined into its
      last project: `Map.prototype.set` overwrites the value. */
  lemma {:induction false} ClientsLatest(ps: seq<Project>)
    ensures LatestOf(Clients(ps), ps)
  {
    if ps != [] {
      var front := ps[..|ps| - 1];
      var acc := Clients(front);
      ClientsLatest(front);
      match ps[|ps| - 1].client
      case None =>
        assert Clients(ps) == acc;
        forall i | 0 <= i < |acc| ensures LastClient(ps, acc[i].id) == Some(acc[i]) {
          LastClientSkip(ps, acc[i].id);
        }
      case Some(c) =>
        var r := Put(acc, c);
        assert Clients(ps) == r;
        forall i | 0 <= i < |r| ensures LastClient(ps, r[i].id) == Some(r[i]) {
          if r[i].id != c.id {
            assert i < |acc| && r[i] == acc[i];
            LastClientSkip(ps, r[i].id);
          }
        }
    }
  }

  /** A last project that does not carry `id` leaves the latest client for `id` alone. */
  lemma LastClientSkip(ps: seq<Project>, id: string)
    requires ps != []
    requires ps[|ps| - 1].client.None? || ps[|ps| - 1].client.value.id != id
    ensures LastClient(ps, id) == LastClient(ps[..|ps| - 1], id)
  {
  }

  /** The projects of the selected client; none while no client is selected
      (`''` is falsy). A project without a client never matches. */
  function ProjectsOf(ps: seq<Project>, selected: string): (r: seq<Project>)
    ensures selected == "" ==> r == []
    ensures forall i :: 0 <= i < |r| ==> r[i].clientId == Some(selected)
    ensures |r| <= |ps|
  {
    if selected == "" then [] else Filter(ps, (p: Project) => p.clientId == Some(selected))
  }

  /** With a client selected, every project of that client is offered. */
  lemma ProjectsOfComplete(ps: seq<Project>, selected: string, k: nat)
    requires selected != "" && k < |ps| && ps[k].clientId == Some(selected)
    ensures ps[k] in ProjectsOf(ps, selected)
  {
    FilterMembers(ps, (p: Project) => p.clientId == Some(selected), ps[k]);
  }

  /** The options keep the order of the projects: the options of two lists
      one after the other are those of the first, then those of the second. */
  lemma ProjectsOfAppend(ps: seq<Project>, qs: seq<Project>, selected: string)
    ensures ProjectsOf(ps + qs, selected) == ProjectsOf(ps, selected) + ProjectsOf(qs, selected)
  {
    if selected != "" {
      FilterAppend(ps, qs, (p: Project) => p.clientId == Some(selected));
    }
  }
}
