/** The project store of the service as pure values: the records, the outcome of
    each route handler as a function of the store before it, the id guard, and the
    properties these handlers promise. The imperative store in module Store is
    proved against these functions. */
module Projects {

  datatype Option<T> = None | Some(value: T)

  /** One record of the store. */
  datatype Project = Project(id: string, title: string, owner: string)

  /** The two client-visible errors; both are answered with status 400. */
  datatype Error = InvalidProjectId | ProjectNotFound

  /** The fixed message carried in the error body. */
  function Message(e: Error): (m: string)
    ensures m != []
  {
    match e
    case InvalidProjectId => "Invalid project ID."
    case ProjectNotFound => "Project not found."
  }

  /** Both errors are answered with status 400, so only the text tells them apart. */
  lemma MessageDistinguishesErrors(e1: Error, e2: Error)
    ensures Message(e1) == Message(e2) <==> e1 == e2
  {
  }

  /** What a handler answers, without the HTTP encoding. */
  datatype Response =
    | ProjectList(items: seq<Project>)   // 200 with an array of projects
    | ProjectBody(project: Project)      // 200 with one project
    | NoContent                          // 204 with an empty body
    | BadRequest(error: Error)           // 400 with {error: Message(error)}

  /** The answer of a handler together with the store after it. */
  datatype Outcome = Outcome(response: Response, store: seq<Project>)

  /** A request as the routes see it, after body and query parsing. */
  datatype Request =
    | Get(titleQuery: Option<string>)
    | Post(title: string, owner: string)
    | Put(id: string, title: string, owner: string)
    | Delete(id: string)

  /** The result of a middleware: pass on to the next stage, or answer at once. */
  datatype Middleware = Next | Respond(response: Response)

  // ---------------------------------------------------------------------------
  // Substring test (String.prototype.includes, case-sensitive, unanchored)

  /** `sub` occurs in `s` starting at position `i`. */
  ghost predicate OccursAt(s: string, sub: string, i: int)
  {
    0 <= i && i + |sub| <= |s| && s[i..i + |sub|] == sub
  }

  /** `s.includes(sub)`: tries every start position from the left. */
  function Includes(s: string, sub: string): bool
    decreases |s|
  {
    if sub <= s then true
    else if |s| == 0 then false
    else Includes(s[1..], sub)
  }

  lemma {:induction false} IncludesIffOccurs(s: string, sub: string)
    ensures Includes(s, sub) <==> exists i :: OccursAt(s, sub, i)
    decreases |s|
  {
    if sub <= s {
      assert OccursAt(s, sub, 0);
    } else if |s| != 0 {
      IncludesIffOccurs(s[1..], sub);
      if exists i :: OccursAt(s[1..], sub, i) {
        var i :| OccursAt(s[1..], sub, i);
        assert s[1..][i..i + |sub|] == s[i + 1..i + 1 + |sub|];
        assert OccursAt(s, sub, i + 1);
      }
      if exists i :: OccursAt(s, sub, i) {
        var i :| OccursAt(s, sub, i);
        assert s[1..][i - 1..i - 1 + |sub|] == s[i..i + |sub|];
        assert OccursAt(s[1..], sub, i - 1);
      }
    }
  }

  // ---------------------------------------------------------------------------
  // GET /projects

  /** `projects.filter(project => project.title.includes(t))`. */
  function Filter(ps: seq<Project>, t: string): (r: seq<Project>)
    ensures |r| <= |ps|
  {
    if ps == [] then []
    else
      var last := ps[|ps| - 1];
      Filter(ps[..|ps| - 1], t) + (if Includes(last.title, t) then [last] else [])
  }

  /** The positions of the store whose title contains `t`, in increasing order. */
  ghost function MatchPositions(ps: seq<Project>, t: string): seq<int>
  {
    if ps == [] then []
    else
      MatchPositions(ps[..|ps| - 1], t)
      + (if Includes(ps[|ps| - 1].title, t) then [|ps| - 1] else [])
  }

  /** The match positions are positions of the store, strictly increasing, and
      they are exactly the positions whose title contains `t`. */
  lemma {:induction false} MatchPositionsAreTheMatches(ps: seq<Project>, t: string)
    ensures forall k :: 0 <= k < |MatchPositions(ps, t)| ==> 0 <= MatchPositions(ps, t)[k] < |ps|
    ensures forall k, l :: 0 <= k < l < |MatchPositions(ps, t)| ==>
      MatchPositions(ps, t)[k] < MatchPositions(ps, t)[l]
    ensures forall i :: 0 <= i < |ps| ==> (i in MatchPositions(ps, t) <==> Includes(ps[i].title, t))
  {
    if ps != [] {
      var init := ps[..|ps| - 1];
      MatchPositionsAreTheMatches(init, t);
      assert forall i :: 0 <= i < |init| ==> init[i] == ps[i];
    }
  }

  /** Filter keeps exactly the matching records, each once, in store order:
      its k-th result is the record at the k-th match position. */
  lemma {:induction false} FilterSelectsMatchesInOrder(ps: seq<Project>, t: string)
    ensures |Filter(ps, t)| == |MatchPositions(ps, t)|
    ensures forall k :: 0 <= k < |MatchPositions(ps, t)| ==>
      0 <= MatchPositions(ps, t)[k] < |ps| && Filter(ps, t)[k] == ps[MatchPositions(ps, t)[k]]
  {
    MatchPositionsAreTheMatches(ps, t);
    if ps != [] {
      var init := ps[..|ps| - 1];
      FilterSelectsMatchesInOrder(init, t);
      MatchPositionsAreTheMatches(init, t);
      var m, f := MatchPositions(init, t), Filter(init, t);
      forall k | 0 <= k < |m| ensures Filter(ps, t)[k] == ps[MatchPositions(ps, t)[k]] {
        assert Filter(ps, t)[k] == f[k];
        assert MatchPositions(ps, t)[k] == m[k];
        assert init[m[k]] == ps[m[k]];
      }
    }
  }

  lemma {:induction false} FilterMembership(ps: seq<Project>, t: string)
    ensures forall p :: p in Filter(ps, t) <==> p in ps && Includes(p.title, t)
  {
    if ps != [] {
      var init := ps[..|ps| - 1];
      FilterMembership(init, t);
      assert ps == init + [ps[|ps| - 1]];
    }
  }

  /** No filter is applied when the query is absent or empty (both falsy). */
  predicate NoFilter(titleQuery: Option<string>)
  {
    titleQuery.None? || titleQuery.value == ""
  }

  /** The GET /projects handler: the whole store, or the records whose title
      contains a non-empty `title` query. */
  function List(ps: seq<Project>, titleQuery: Option<string>): (r: seq<Project>)
    ensures NoFilter(titleQuery) ==> r == ps
    ensures forall p :: p in r <==> p in ps && (NoFilter(titleQuery) || Includes(p.title, titleQuery.value))
  {
    if NoFilter(titleQuery) then ps
    else
      FilterMembership(ps, titleQuery.value);
      Filter(ps, titleQuery.value)
  }

  /** With a non-empty query, List answers exactly the records at the match
      positions, in the order of those positions. */
  lemma ListFilterInOrder(ps: seq<Project>, t: string)
    requires t != ""
    ensures |List(ps, Some(t))| == |MatchPositions(ps, t)|
    ensures forall k :: 0 <= k < |MatchPositions(ps, t)| ==>
      0 <= MatchPositions(ps, t)[k] < |ps| && List(ps, Some(t))[k] == ps[MatchPositions(ps, t)[k]]
  {
    FilterSelectsMatchesInOrder(ps, t);
  }

  // ---------------------------------------------------------------------------
  // Lookup by id and removal (findIndex and splice)

  /** `ps.findIndex(project => project.id === id)`: the first matching position, or -1. */
  function IndexOf(ps: seq<Project>, id: string): (k: int)
    ensures -1 <= k < |ps|
    ensures 0 <= k ==> ps[k].id == id && forall j :: 0 <= j < k ==> ps[j].id != id
    ensures k == -1 ==> forall j :: 0 <= j < |ps| ==> ps[j].id != id
  {
    if ps == [] then -1
    else if ps[0].id == id then 0
    else
      var k := IndexOf(ps[1..], id);
      if k < 0 then -1 else k + 1
  }

  /** `ps.splice(k, 1)`: the store without its element at position `k`. */
  function RemoveAt(ps: seq<Project>, k: int): (r: seq<Project>)
    requires 0 <= k < |ps|
    ensures |r| == |ps| - 1
    ensures forall j :: 0 <= j < k ==> r[j] == ps[j]
    ensures forall j :: k <= j < |r| ==> r[j] == ps[j + 1]
    ensures multiset(r) + multiset{ps[k]} == multiset(ps)
  {
    assert ps == ps[..k] + [ps[k]] + ps[k + 1..];
    ps[..k] + ps[k + 1..]
  }

  // ---------------------------------------------------------------------------
  // Ids: the store invariant

  ghost function Ids(ps: seq<Project>): set<string>
  {
    set i | 0 <= i < |ps| :: ps[i].id
  }

  ghost predicate DistinctIds(ps: seq<Project>)
  {
    forall i, j :: 0 <= i < j < |ps| ==> ps[i].id != ps[j].id
  }

  /** Every record has a valid id, and no two records share one. */
  ghost predicate StoreInvariant(isUuid: string -> bool, ps: seq<Project>)
  {
    DistinctIds(ps) && forall i :: 0 <= i < |ps| ==> isUuid(ps[i].id)
  }

  lemma InIds(ps: seq<Project>, x: string)
    ensures x in Ids(ps) <==> exists i :: 0 <= i < |ps| && ps[i].id == x
  {
  }

  // ---------------------------------------------------------------------------
  // Handlers as functions of the store

  /** POST /projects with `id` standing for the generated uuid(). */
  function PostHandler(ps: seq<Project>, id: string, title: string, owner: string): (out: Outcome)
    ensures |out.store| == |ps| + 1 && out.store[..|ps|] == ps
    ensures out.store[|ps|] == Project(id, title, owner)
    ensures out.response == ProjectBody(out.store[|ps|])
    ensures Ids(out.store) == Ids(ps) + {id}
    ensures DistinctIds(ps) && id !in Ids(ps) ==> DistinctIds(out.store)
  {
    var p := Project(id, title, owner);
    var s := ps + [p];
    assert forall i :: 0 <= i < |ps| ==> s[i] == ps[i];
    assert s[|ps|] == p;
    assert Ids(s) == Ids(ps) + {id} by {
      forall x ensures x in Ids(s) <==> x in Ids(ps) + {id} {
        InIds(s, x);
        InIds(ps, x);
      }
    }
    Outcome(ProjectBody(p), s)
  }

  /** PUT /projects/:id after the guard: full overwrite of the first match. */
  function PutHandler(ps: seq<Project>, id: string, title: string, owner: string): (out: Outcome)
    ensures IndexOf(ps, id) == -1 ==> out == Outcome(BadRequest(ProjectNotFound), ps)
    ensures 0 <= IndexOf(ps, id) ==>
      && out.response == ProjectBody(Project(id, title, owner))
      && |out.store| == |ps|
      && out.store[IndexOf(ps, id)] == Project(ps[IndexOf(ps, id)].id, title, owner)
      && forall j :: 0 <= j < |ps| && j != IndexOf(ps, id) ==> out.store[j] == ps[j]
    ensures Ids(out.store) == Ids(ps)
    ensures DistinctIds(ps) ==> DistinctIds(out.store)
  {
    var k := IndexOf(ps, id);
    if k < 0 then Outcome(BadRequest(ProjectNotFound), ps)
    else
      var p := Project(id, title, owner);
      var s := ps[k := p];
      assert Ids(s) == Ids(ps) by {
        forall x ensures x in Ids(s) <==> x in Ids(ps) {
          InIds(s, x);
          InIds(ps, x);
          if x in Ids(ps) {
            var i :| 0 <= i < |ps| && ps[i].id == x;
            assert s[i].id == x;
          }
        }
      }
      Outcome(ProjectBody(p), s)
  }

  /** DELETE /projects/:id after the guard: removal of the first match. */
  function DeleteHandler(ps: seq<Project>, id: string): (out: Outcome)
    ensures IndexOf(ps, id) == -1 ==> out == Outcome(BadRequest(ProjectNotFound), ps)
    ensures 0 <= IndexOf(ps, id) ==>
      out == Outcome(NoContent, RemoveAt(ps, IndexOf(ps, id)))
    ensures Ids(out.store) <= Ids(ps)
    ensures DistinctIds(ps) ==> DistinctIds(out.store)
    ensures DistinctIds(ps) ==> id !in Ids(out.store)
  {
    var k := IndexOf(ps, id);
    if k < 0 then Outcome(BadRequest(ProjectNotFound), ps)
    else
      var s := RemoveAt(ps, k);
      assert forall x :: x in Ids(s) ==> x in Ids(ps) by {
        forall x | x in Ids(s) ensures x in Ids(ps) {
          InIds(s, x);
          var i :| 0 <= i < |s| && s[i].id == x;
          if i < k { assert ps[i].id == x; } else { assert ps[i + 1].id == x; }
        }
      }
      assert DistinctIds(ps) ==> DistinctIds(s) by {
        if DistinctIds(ps) {
          forall i, j | 0 <= i < j < |s| ensures s[i].id != s[j].id {
            var i' := if i < k then i else i + 1;
            var j' := if j < k then j else j + 1;
            assert s[i] == ps[i'] && s[j] == ps[j'];
          }
        }
      }
      assert DistinctIds(ps) ==> id !in Ids(s) by {
        if DistinctIds(ps) {
          forall i | 0 <= i < |s| ensures s[i].id != id {
            if i < k { assert s[i] == ps[i]; } else { assert s[i] == ps[i + 1]; }
          }
          InIds(s, id);
        }
      }
      Outcome(NoContent, s)
  }

  /** The `validateProjectId` middleware on `/projects/:id`. */
  function ValidateProjectId(isUuid: string -> bool, id: string): (m: Middleware)
    ensures m.Next? <==> isUuid(id)
    ensures m.Respond? ==> m.response == BadRequest(InvalidProjectId)
  {
    if !isUuid(id) then Respond(BadRequest(InvalidProjectId)) else Next
  }

  /** One request through the middleware chain and its route, `freshId` standing
      for the uuid() drawn if the request is a POST. */
  function Step(ps: seq<Project>, req: Request, isUuid: string -> bool, freshId: string): (out: Outcome)
    ensures req.Get? ==> out == Outcome(ProjectList(List(ps, req.titleQuery)), ps)
    ensures (req.Put? || req.Delete?) && !isUuid(req.id) ==> out == Outcome(BadRequest(InvalidProjectId), ps)
    ensures req.Put? && isUuid(req.id) ==> out == PutHandler(ps, req.id, req.title, req.owner)
    ensures req.Delete? && isUuid(req.id) ==> out == DeleteHandler(ps, req.id)
    ensures req.Post? ==> out == PostHandler(ps, freshId, req.title, req.owner)
  {
    match req
    case Get(q) => Outcome(ProjectList(List(ps, q)), ps)
    case Post(title, owner) => PostHandler(ps, freshId, title, owner)
    case Put(id, title, owner) =>
      (match ValidateProjectId(isUuid, id)
       case Respond(r) => Outcome(r, ps)
       case Next => PutHandler(ps, id, title, owner))
    case Delete(id) =>
      (match ValidateProjectId(isUuid, id)
       case Respond(r) => Outcome(r, ps)
       case Next => DeleteHandler(ps, id))
  }

  // ---------------------------------------------------------------------------
  // Properties across requests

  /** Every request keeps every id valid and all ids distinct, provided the
      generated id of a POST is a valid uuid not already in the store. */
  lemma StepPreservesInvariant(ps: seq<Project>, req: Request, isUuid: string -> bool, freshId: string)
    requires StoreInvariant(isUuid, ps)
    requires req.Post? ==> isUuid(freshId) && freshId !in Ids(ps)
    ensures StoreInvariant(isUuid, Step(ps, req, isUuid, freshId).store)
  {
  }

  /** A created record is found again by its id, at the end of the store. */
  lemma CreateThenFind(ps: seq<Project>, id: string, title: string, owner: string)
    requires id !in Ids(ps)
    ensures IndexOf(PostHandler(ps, id, title, owner).store, id) == |ps|
  {
  }

  /** With distinct ids, a second delete of the same id finds nothing. */
  lemma DeleteTwiceNotFound(ps: seq<Project>, id: string)
    requires DistinctIds(ps)
    requires 0 <= IndexOf(ps, id)
    ensures DeleteHandler(DeleteHandler(ps, id).store, id).response == BadRequest(ProjectNotFound)
    ensures DeleteHandler(DeleteHandler(ps, id).store, id).store == DeleteHandler(ps, id).store
  {
  }

  /** Updating a record and listing finds it under its new title. */
  lemma UpdateThenListFinds(ps: seq<Project>, id: string, title: string, owner: string, t: string)
    requires 0 <= IndexOf(ps, id)
    requires Includes(title, t)
    ensures Project(id, title, owner) in List(PutHandler(ps, id, title, owner).store, Some(t))
  {
  }
}
