/**
 * The portfolio projects of server/index.js: the public listing sorted by `order`, lookup
 * by id, and the protected create, partial update, delete and reorder routes. The
 * projects file becomes a field of a store object; the clock and the random id suffix
 * are parameters.
 */
module Projects {
  import opened Wrappers
  import opened Seqs
  import opened Text
  import opened StableSort
  import SessionGate

  datatype Project = Project(
    id: string,
    title: string,
    description: string,
    image: string,
    websiteLink: string,
    techStack: seq<string>,
    order: int,
    createdAt: int,
    updatedAt: int)

  /** The body of POST /api/projects; an absent string is "", a `techStack` that is not an array is `None`. */
  datatype Draft = Draft(title: string, description: string, image: string, websiteLink: string, techStack: Option<seq<string>>)

  /** The `techStack` of an update body: absent, present but not an array, or an array. */
  datatype TechField = Absent | NotAnArray | Items(items: seq<string>)

  /** The body of PUT /api/projects/:id; `None` is a field left `undefined`. */
  datatype Patch = Patch(title: Option<string>, description: Option<string>, image: Option<string>, websiteLink: Option<string>, techStack: TechField)

  const EmptyPatch := Patch(None, None, None, None, Absent)

  datatype Reply = Saved(project: Project) | Success | NotFound | BadRequest | Unauthorized

  // ---- Lookup and listing ----

  function IdsOf(ps: seq<Project>): (ids: seq<string>)
    ensures |ids| == |ps| && forall j :: 0 <= j < |ps| ==> ids[j] == ps[j].id
  {
    seq(|ps|, j requires 0 <= j < |ps| => ps[j].id)
  }

  /** `projects.findIndex(p => p.id === id)`, as an option. */
  function FindProject(ps: seq<Project>, id: string): (r: Option<nat>)
    ensures r.Some? ==> r.value < |ps| && ps[r.value].id == id
    ensures r.Some? ==> forall j :: 0 <= j < r.value ==> ps[j].id != id
    ensures r.None? ==> forall j :: 0 <= j < |ps| ==> ps[j].id != id
    decreases |ps|
  {
    if ps == [] then None
    else if ps[0].id == id then Some(0)
    else match FindProject(ps[1..], id)
      case None => None
      case Some(j) => Some(j + 1)
  }

  /** Lookup only looks at the ids. */
  lemma FindSameIds(ps: seq<Project>, qs: seq<Project>, id: string)
    requires IdsOf(ps) == IdsOf(qs)
    ensures FindProject(ps, id) == FindProject(qs, id)
  {
    var a, b := FindProject(ps, id), FindProject(qs, id);
    if a.Some? && b.Some? {
      assert qs[a.value].id == id && ps[b.value].id == id;
    }
  }

  /** `ps[j]` is the project that `find` returns for its id. */
  predicate IsFirst(ps: seq<Project>, j: nat)
    requires j < |ps|
  {
    FindProject(ps, ps[j].id) == Some(j)
  }

  /** GET /api/projects/:id: the first project with the id, or not found. */
  function GetProject(ps: seq<Project>, id: string): (r: Option<Project>)
    ensures r.Some? <==> exists j :: 0 <= j < |ps| && ps[j].id == id
    ensures r.Some? ==> r.value in ps && r.value.id == id
  {
    match FindProject(ps, id)
    case None => None
    case Some(j) => Some(ps[j])
  }

  /** The sort key of the listing: ascending `order` is descending negated `order`. */
  const NegOrder: Project -> int := (p: Project) => -p.order

  /** GET /api/projects: the stored projects stably sorted by ascending `order`. */
  function Listing(ps: seq<Project>): (r: seq<Project>)
    ensures forall i, j :: 0 <= i < j < |r| ==> r[i].order <= r[j].order
    ensures multiset(r) == multiset(ps)
    ensures forall c :: WithKey(r, NegOrder, c) == WithKey(ps, NegOrder, c)
  {
    var r := SortDesc(ps, NegOrder);
    assert forall i, j :: 0 <= i < j < |r| ==> NegOrder(r[i]) >= NegOrder(r[j]);
    r
  }

  // ---- Create ----

  /** `Math.max(...projects.map(p => p.order || 0))`, or -1 for no projects. */
  function MaxOrder(ps: seq<Project>): (m: int)
    ensures ps == [] ==> m == -1
    ensures forall j :: 0 <= j < |ps| ==> ps[j].order <= m
    ensures ps != [] ==> exists j :: 0 <= j < |ps| && ps[j].order == m
    decreases |ps|
  {
    if ps == [] then -1
    else if |ps| == 1 then ps[0].order
    else
      var rest := MaxOrder(ps[1..]);
      assert forall j :: 1 <= j < |ps| ==> ps[j] == ps[1..][j - 1];
      if ps[0].order >= rest then ps[0].order else rest
  }

  /** `project-${Date.now()}-${suffix}`. */
  function ProjectId(now: nat, suffix: string): string {
    "project-" + Stamp(now, suffix)
  }

  /** The project a valid draft becomes when it is added to `ps`. */
  function Created(d: Draft, ps: seq<Project>, now: nat, suffix: string): (p: Project)
    ensures p.order == MaxOrder(ps) + 1
    ensures forall j :: 0 <= j < |ps| ==> ps[j].order < p.order
    ensures ps == [] ==> p.order == 0
  {
    Project(ProjectId(now, suffix), d.title, d.description, d.image, d.websiteLink,
      if d.techStack.Some? then d.techStack.value else [], MaxOrder(ps) + 1, now, now)
  }

  /** A new project comes last in the listing: its order is above every stored order. */
  lemma CreatedListedLast(ps: seq<Project>, p: Project)
    requires forall j :: 0 <= j < |ps| ==> ps[j].order < p.order
    ensures var r := Listing(ps + [p]); |r| > 0 && r[|r| - 1] == p
  {
    var s := ps + [p];
    var r := Listing(s);
    assert |r| == |s| by {
      assert |multiset(r)| == |multiset(s)|;
    }
    var last := r[|r| - 1];
    assert p in multiset(r) && last in multiset(s);
    var i :| 0 <= i < |r| && r[i] == p;
    if last != p {
      assert false;
    }
  }

  // ---- Update ----

  /** The update's spread merge: every supplied field replaces the stored one; a non-array stack becomes []. */
  function Merge(p: Project, patch: Patch, now: nat): (r: Project)
    ensures r.id == p.id && r.order == p.order && r.createdAt == p.createdAt && r.updatedAt == now
    ensures patch.title.Some? ==> r.title == patch.title.value
    ensures patch.title.None? ==> r.title == p.title
    ensures patch.description.Some? ==> r.description == patch.description.value
    ensures patch.description.None? ==> r.description == p.description
    ensures patch.image.Some? ==> r.image == patch.image.value
    ensures patch.image.None? ==> r.image == p.image
    ensures patch.websiteLink.Some? ==> r.websiteLink == patch.websiteLink.value
    ensures patch.websiteLink.None? ==> r.websiteLink == p.websiteLink
    ensures patch.techStack.Absent? ==> r.techStack == p.techStack
    ensures patch.techStack.NotAnArray? ==> r.techStack == []
    ensures patch.techStack.Items? ==> r.techStack == patch.techStack.items
  {
    p.(title := if patch.title.Some? then patch.title.value else p.title,
       description := if patch.description.Some? then patch.description.value else p.description,
       image := if patch.image.Some? then patch.image.value else p.image,
       websiteLink := if patch.websiteLink.Some? then patch.websiteLink.value else p.websiteLink,
       techStack := match patch.techStack
         case Absent => p.techStack
         case NotAnArray => []
         case Items(items) => items,
       updatedAt := now)
  }

  /** An update that supplies nothing only touches `updatedAt`. */
  lemma MergeNothing(p: Project, now: nat)
    ensures Merge(p, EmptyPatch, now) == p.(updatedAt := now)
  {
  }

  /** Sending the same update twice is the same as sending it once. */
  lemma MergeIdempotent(p: Project, patch: Patch, now: nat)
    ensures Merge(Merge(p, patch, now), patch, now) == Merge(p, patch, now)
  {
  }

  // ---- Delete ----

  function NotId(id: string): Project -> bool {
    (p: Project) => p.id != id
  }

  // ---- Reorder ----

  /** The last position of `x` in `ids`: later assignments of `order` overwrite earlier ones. */
  function LastIndex(ids: seq<string>, x: string): (r: Option<nat>)
    ensures r.Some? ==> r.value < |ids| && ids[r.value] == x
    ensures r.Some? ==> forall k :: r.value < k < |ids| ==> ids[k] != x
    ensures r.None? <==> x !in ids
    decreases |ids|
  {
    if ids == [] then None
    else if ids[|ids| - 1] == x then Some(|ids| - 1)
    else
      var init := ids[..|ids| - 1];
      assert ids == init + [ids[|ids| - 1]];
      LastIndex(init, x)
  }

  /** Project `j` after the reorder loop over `ids`. */
  function ReorderedAt(ps: seq<Project>, ids: seq<string>, now: nat, j: nat): Project
    requires j < |ps|
  {
    var k := LastIndex(ids, ps[j].id);
    if IsFirst(ps, j) && k.Some? then ps[j].(order := k.value, updatedAt := now) else ps[j]
  }

  /** The project list after the reorder loop over `ids`. */
  function Reordered(ps: seq<Project>, ids: seq<string>, now: nat): (r: seq<Project>)
    ensures |r| == |ps| && IdsOf(r) == IdsOf(ps)
  {
    seq(|ps|, j requires 0 <= j < |ps| => ReorderedAt(ps, ids, now, j))
  }

  /** One turn of the reorder loop: `find` the first project with the id and give it the position. */
  function Assign(ps: seq<Project>, id: string, k: nat, now: nat): seq<Project> {
    match FindProject(ps, id)
    case None => ps
    case Some(i) => ps[i := ps[i].(order := k, updatedAt := now)]
  }

  lemma ReorderStep(ps: seq<Project>, ids: seq<string>, k: nat, now: nat)
    requires k < |ids|
    ensures Reordered(ps, ids[..k + 1], now) == Assign(Reordered(ps, ids[..k], now), ids[k], k, now)
  {
    var q := Reordered(ps, ids[..k], now);
    var q' := Reordered(ps, ids[..k + 1], now);
    var a := Assign(q, ids[k], k, now);
    assert (ids[..k + 1])[..k] == ids[..k];
    FindSameIds(ps, q, ids[k]);
    forall j | 0 <= j < |ps| ensures q'[j] == a[j] {
      assert LastIndex(ids[..k + 1], ps[j].id) ==
        if ids[k] == ps[j].id then Some(k) else LastIndex(ids[..k], ps[j].id);
    }
  }

  /**
   * What reorder does to each project: a listed project that `find` reaches takes the last
   * position of its id as `order`; every other project is left as it was.
   */
  lemma ReorderedMeaning(ps: seq<Project>, ids: seq<string>, now: nat, j: nat)
    requires j < |ps|
    ensures var r := Reordered(ps, ids, now);
      && (ps[j].id !in ids || !IsFirst(ps, j) ==> r[j] == ps[j])
      && (ps[j].id in ids && IsFirst(ps, j) ==>
            && 0 <= r[j].order < |ids| && ids[r[j].order] == ps[j].id
            && (forall k :: r[j].order < k < |ids| ==> ids[k] != ps[j].id)
            && r[j] == ps[j].(order := r[j].order, updatedAt := now))
  {
  }

  /** With distinct ids every project is the one `find` returns for its id. */
  lemma DistinctIdsFirst(ps: seq<Project>, j: nat)
    requires NoDups(IdsOf(ps)) && j < |ps|
    ensures IsFirst(ps, j)
  {
    var f := FindProject(ps, ps[j].id);
    assert IdsOf(ps)[f.value] == IdsOf(ps)[j];
  }

  /** Strictly increasing orders that all lie in [0, n) are exactly 0, 1, ..., n - 1. */
  lemma PinnedOrders(r: seq<Project>)
    requires forall i, j :: 0 <= i < j < |r| ==> r[i].order < r[j].order
    requires forall i :: 0 <= i < |r| ==> 0 <= r[i].order < |r|
    ensures forall i :: 0 <= i < |r| ==> r[i].order == i
  {
    forall i | 0 <= i < |r| ensures r[i].order == i {
      OrderGap(r, 0, i);
      OrderGap(r, i, |r| - 1);
    }
  }

  lemma {:induction false} OrderGap(r: seq<Project>, i: nat, j: nat)
    requires i <= j < |r|
    requires forall a, b :: 0 <= a < b < |r| ==> r[a].order < r[b].order
    ensures r[j].order - r[i].order >= j - i
    decreases j - i
  {
    if i < j {
      OrderGap(r, i, j - 1);
    }
  }

  /** After reordering by all the ids, each once, every project sits at the position of its id. */
  lemma ReorderedAll(ps: seq<Project>, ids: seq<string>, now: nat)
    requires NoDups(IdsOf(ps)) && forall x :: x in IdsOf(ps) ==> x in ids
    ensures var q := Reordered(ps, ids, now);
      forall j :: 0 <= j < |q| ==> 0 <= q[j].order < |ids| && ids[q[j].order] == q[j].id
  {
    var q := Reordered(ps, ids, now);
    forall j | 0 <= j < |q| ensures 0 <= q[j].order < |ids| && ids[q[j].order] == q[j].id {
      assert ps[j].id in IdsOf(ps);
      DistinctIdsFirst(ps, j);
      ReorderedMeaning(ps, ids, now, j);
    }
  }

  /** Projects with distinct ids that sit at the positions of their ids never share an order. */
  lemma DistinctOrders(q: seq<Project>, r: seq<Project>, ids: seq<string>)
    requires multiset(r) == multiset(q) && NoDups(IdsOf(q))
    requires forall j :: 0 <= j < |q| ==> 0 <= q[j].order < |ids| && ids[q[j].order] == q[j].id
    ensures forall i :: 0 <= i < |r| ==> 0 <= r[i].order < |ids| && ids[r[i].order] == r[i].id
    ensures forall a, b :: 0 <= a < b < |r| ==> r[a].order != r[b].order
  {
    assert NoDups(q) by {
      forall x, y | 0 <= x < y < |q| ensures q[x] != q[y] {
        assert IdsOf(q)[x] != IdsOf(q)[y];
      }
    }
    NoDupsPerm(q, r);
    forall i | 0 <= i < |r| ensures 0 <= r[i].order < |ids| && ids[r[i].order] == r[i].id {
      assert r[i] in multiset(q);
    }
    forall a, b | 0 <= a < b < |r| ensures r[a].order != r[b].order {
      assert r[a] in multiset(q) && r[b] in multiset(q);
      var ja :| 0 <= ja < |q| && q[ja] == r[a];
      var jb :| 0 <= jb < |q| && q[jb] == r[b];
      assert IdsOf(q)[ja] == q[ja].id && IdsOf(q)[jb] == q[jb].id;
    }
  }

  /**
   * Reordering by a list of all the project ids, each once, makes the listing follow that
   * list: GET /api/projects then returns the projects in the order of `ids`.
   */
  lemma ReorderThenList(ps: seq<Project>, ids: seq<string>, now: nat)
    requires NoDups(IdsOf(ps)) && |ids| == |ps|
    requires forall x :: x in IdsOf(ps) ==> x in ids
    ensures var r := Listing(Reordered(ps, ids, now)); |r| == |ids| && IdsOf(r) == ids
  {
    var q := Reordered(ps, ids, now);
    var r := Listing(q);
    assert |r| == |q| by {
      assert |multiset(r)| == |multiset(q)|;
    }
    ReorderedAll(ps, ids, now);
    DistinctOrders(q, r, ids);
    PinnedOrders(r);
  }

  /** Which handler PUT /api/projects/<segment> reaches. */
  datatype PutRoute = UpdateRoute(id: string) | ReorderRoute

  /**
   * The PUT routes in the order the server registers them: `/api/projects/:id` comes
   * before `/api/projects/reorder`, and `:id` matches any non-empty segment.
   */
  function RoutePutAsRegistered(segment: string): (r: Option<PutRoute>)
    ensures r != Some(ReorderRoute)
  {
    if segment == "" then None else Some(UpdateRoute(segment))
  }

  /** As registered, a reorder request is an update of a project named "reorder". */
  lemma ReorderIsShadowed(ps: seq<Project>)
    requires forall j :: 0 <= j < |ps| ==> ps[j].id != "reorder"
    ensures RoutePutAsRegistered("reorder") == Some(UpdateRoute("reorder"))
    ensures FindProject(ps, "reorder").None?
  {
  }

  /** The PUT routes with the fixed path matched first, which the store below follows. */
  function RoutePut(segment: string): (r: Option<PutRoute>)
    ensures r == Some(ReorderRoute) <==> segment == "reorder"
    ensures segment != "" && segment != "reorder" ==> r == Some(UpdateRoute(segment))
  {
    if segment == "" then None
    else if segment == "reorder" then Some(ReorderRoute)
    else Some(UpdateRoute(segment))
  }

  /** The projects file. */
  class ProjectStore {
    var projects: seq<Project>

    /** `initProjectsFile`: no projects. */
    constructor ()
      ensures projects == []
    {
      projects := [];
    }

    /** POST /api/projects. */
    method Create(gate: SessionGate.Gate, cookie: string, d: Draft, now: nat, suffix: string) returns (r: Reply)
      modifies this
      ensures !gate.Authorized(cookie) ==> r == Unauthorized && projects == old(projects)
      ensures gate.Authorized(cookie) && (d.title == "" || d.description == "") ==>
        r == BadRequest && projects == old(projects)
      ensures gate.Authorized(cookie) && d.title != "" && d.description != "" ==>
        && r == Saved(Created(d, old(projects), now, suffix))
        && projects == old(projects) + [r.project]
        && (forall j :: 0 <= j < |old(projects)| ==> old(projects)[j].order < r.project.order)
    {
      if cookie == "" || cookie !in gate.tokens {
        return Unauthorized;
      }
      if d.title == "" || d.description == "" {
        return BadRequest;
      }
      var p := Created(d, projects, now, suffix);
      projects := projects + [p];
      r := Saved(p);
    }

    /** PUT /api/projects/:id. */
    method Update(gate: SessionGate.Gate, cookie: string, id: string, patch: Patch, now: nat) returns (r: Reply)
      modifies this
      ensures !gate.Authorized(cookie) ==> r == Unauthorized && projects == old(projects)
      ensures gate.Authorized(cookie) && FindProject(old(projects), id).None? ==>
        r == NotFound && projects == old(projects)
      ensures gate.Authorized(cookie) && FindProject(old(projects), id).Some? ==>
        var i := FindProject(old(projects), id).value;
        && projects == old(projects)[i := Merge(old(projects)[i], patch, now)]
        && r == Saved(projects[i])
    {
      if cookie == "" || cookie !in gate.tokens {
        return Unauthorized;
      }
      var found := FindProject(projects, id);
      if found.None? {
        return NotFound;
      }
      var i := found.value;
      projects := projects[i := Merge(projects[i], patch, now)];
      r := Saved(projects[i]);
    }

    /** DELETE /api/projects/:id: not found exactly when no project has the id. */
    method Delete(gate: SessionGate.Gate, cookie: string, id: string) returns (r: Reply)
      modifies this
      ensures !gate.Authorized(cookie) ==> r == Unauthorized && projects == old(projects)
      ensures gate.Authorized(cookie) ==>
        (r == NotFound <==> forall j :: 0 <= j < |old(projects)| ==> old(projects)[j].id != id)
      ensures gate.Authorized(cookie) && r == NotFound ==> projects == old(projects)
      ensures gate.Authorized(cookie) && r != NotFound ==>
        r == Success && projects == Filter(old(projects), NotId(id))
    {
      if cookie == "" || cookie !in gate.tokens {
        return Unauthorized;
      }
      var filtered := Filter(projects, NotId(id));
      FilterKeepsLength(projects, NotId(id));
      if |filtered| == |projects| {
        return NotFound;
      }
      projects := filtered;
      r := Success;
    }

    /** PUT /api/projects/reorder with `projectIds` (`None` when it is not an array). */
    method Reorder(gate: SessionGate.Gate, cookie: string, projectIds: Option<seq<string>>, now: nat) returns (r: Reply)
      modifies this
      ensures !gate.Authorized(cookie) ==> r == Unauthorized && projects == old(projects)
      ensures gate.Authorized(cookie) && projectIds.None? ==> r == BadRequest && projects == old(projects)
      ensures gate.Authorized(cookie) && projectIds.Some? ==>
        r == Success && projects == Reordered(old(projects), projectIds.value, now)
    {
      if cookie == "" || cookie !in gate.tokens {
        return Unauthorized;
      }
      if projectIds.None? {
        return BadRequest;
      }
      var ids := projectIds.value;
      ghost var ps := projects;
      assert projects == Reordered(ps, ids[..0], now);
      for k := 0 to |ids|
        invariant projects == Reordered(ps, ids[..k], now)
      {
        ReorderStep(ps, ids, k, now);
        var found := FindProject(projects, ids[k]);
        if found.Some? {
          var i := found.value;
          projects := projects[i := projects[i].(order := k, updatedAt := now)];
        }
      }
      assert ids[..|ids|] == ids;
      r := Success;
    }
  }
}
