/** The module-level `projects` array of the service as an object updated in place,
    with the route handlers as its methods. Each method is proved to leave the store
    and answer exactly as the corresponding function of module Projects says. */
module Store {
  import opened Projects

  /** `ps.findIndex(project => project.id === id)` as the linear scan it performs. */
  method FindIndex(ps: seq<Project>, id: string) returns (k: int)
    ensures k == IndexOf(ps, id)
  {
    k := 0;
    while k < |ps|
      invariant 0 <= k <= |ps|
      invariant forall j :: 0 <= j < k ==> ps[j].id != id
    {
      if ps[k].id == id {
        return;
      }
      k := k + 1;
    }
    k := -1;
  }

  class ProjectStore {
    /** The records in insertion order; the only state of the service. */
    var projects: seq<Project>

    /** The store starts empty when the process starts. */
    constructor ()
      ensures projects == []
    {
      projects := [];
    }

    /** POST /projects: `projects.push({id, title, owner})`, `id` being the generated uuid. */
    method CreateProject(id: string, title: string, owner: string) returns (project: Project)
      modifies this
      ensures Outcome(ProjectBody(project), projects) == PostHandler(old(projects), id, title, owner)
    {
      project := Project(id, title, owner);
      projects := projects + [project];
    }

    /** PUT /projects/:id once the guard has passed: `projects[projectIndex] = project`. */
    method UpdateProject(id: string, title: string, owner: string) returns (r: Response)
      modifies this
      ensures Outcome(r, projects) == PutHandler(old(projects), id, title, owner)
    {
      var projectIndex := FindIndex(projects, id);
      if projectIndex < 0 {
        return BadRequest(ProjectNotFound);
      }
      var project := Project(id, title, owner);
      projects := projects[projectIndex := project];
      r := ProjectBody(project);
    }

    /** DELETE /projects/:id once the guard has passed: `projects.splice(projectIndex, 1)`. */
    method DeleteProject(id: string) returns (r: Response)
      modifies this
      ensures Outcome(r, projects) == DeleteHandler(old(projects), id)
    {
      var projectIndex := FindIndex(projects, id);
      if projectIndex < 0 {
        return BadRequest(ProjectNotFound);
      }
      projects := projects[..projectIndex] + projects[projectIndex + 1..];
      r := NoContent;
    }

    /** One request through the `validateProjectId` middleware (on `/projects/:id`
        only) and then its route. `isUuid` is the id validator and `freshId` the id
        that uuid() would hand out to a POST. */
    method Handle(req: Request, isUuid: string -> bool, freshId: string) returns (r: Response)
      modifies this
      ensures Outcome(r, projects) == Step(old(projects), req, isUuid, freshId)
      ensures StoreInvariant(isUuid, old(projects)) && (req.Post? ==> isUuid(freshId) && freshId !in Ids(old(projects)))
        ==> StoreInvariant(isUuid, projects)
    {
      match req {
        case Get(titleQuery) =>
          r := ProjectList(List(projects, titleQuery));
        case Post(title, owner) =>
          var project := CreateProject(freshId, title, owner);
          r := ProjectBody(project);
        case Put(id, title, owner) =>
          match ValidateProjectId(isUuid, id) {
            case Respond(response) => r := response;
            case Next => r := UpdateProject(id, title, owner);
          }
        case Delete(id) =>
          match ValidateProjectId(isUuid, id) {
            case Respond(response) => r := response;
            case Next => r := DeleteProject(id);
          }
      }
      if StoreInvariant(isUuid, old(projects)) && (req.Post? ==> isUuid(freshId) && freshId !in Ids(old(projects))) {
        StepPreservesInvariant(old(projects), req, isUuid, freshId);
      }
    }
  }

  /** A client run of create, filtered list, update, delete and list on a fresh
      store, and of both routes on a malformed id, using only the contracts above. */
  method ApiLifecycle(isUuid: string -> bool, freshId: string)
    requires isUuid(freshId)
    requires !isUuid("not-a-uuid")
  {
    var store := new ProjectStore();
    var created := Project(freshId, "API", "Alice");

    var r := store.Handle(Post("API", "Alice"), isUuid, freshId);
    assert r == ProjectBody(created);
    assert store.projects == [created];

    r := store.Handle(Get(Some("AP")), isUuid, freshId);
    assert Includes(created.title, "AP");
    assert r.items == [created];

    r := store.Handle(Put("not-a-uuid", "X", "Y"), isUuid, freshId);
    assert r == BadRequest(InvalidProjectId) && store.projects == [created];

    r := store.Handle(Put(freshId, "API v2", "Alice"), isUuid, freshId);
    assert r == ProjectBody(Project(freshId, "API v2", "Alice"));
    assert store.projects == [Project(freshId, "API v2", "Alice")];

    r := store.Handle(Delete("not-a-uuid"), isUuid, freshId);
    assert r == BadRequest(InvalidProjectId) && |store.projects| == 1;

    r := store.Handle(Delete(freshId), isUuid, freshId);
    assert r == NoContent && store.projects == [];

    r := store.Handle(Delete(freshId), isUuid, freshId);
    assert r == BadRequest(ProjectNotFound);

    r := store.Handle(Get(None), isUuid, freshId);
    assert r == ProjectList([]);
  }
}
