/**
 * The scene side of the ray tracer: seven geometry collections mirrored in
 * GPU buffers, each with a "count changed" and an "up to date" flag, the
 * shared count record (`GeometryNum`) and `Model::dataInit`, which pushes
 * exactly what changed. The OpenGL calls are recorded as events in a ghost
 * log: a full reallocation of a collection's buffer, a same-size refresh,
 * and the upload of the count record. Floats are idealised as `real`.
 */
module SceneModel {

  // ---------------------------------------------------------------------
  // Geometry records

  datatype Vec3 = Vec3(x: real, y: real, z: real)
  datatype Vec4 = Vec4(x: real, y: real, z: real, w: real)

  function Neg(a: Vec3): Vec3 { Vec3(-a.x, -a.y, -a.z) }
  function Add(a: Vec3, b: Vec3): Vec3 { Vec3(a.x + b.x, a.y + b.y, a.z + b.z) }
  function Scale(a: Vec3, k: real): Vec3 { Vec3(a.x * k, a.y * k, a.z * k) }

  /** The material of a primitive; only copied here (the padding field is left out). */
  datatype Color = Color(r: Vec3, texR: int, t: Vec3, texT: int, d: Vec3, texD: int,
                         g: Vec3, texG: int, n: real)

  datatype Plane = Plane(paras: Vec4, color: Color)
  /** A 3x4 matrix, row by row. */
  datatype Mat34 = Mat34(row0: Vec4, row1: Vec4, row2: Vec4)
  /** A triangle as uploaded: its vertex matrix and material. */
  datatype TriangleOrigin = TriangleOrigin(vertices: Mat34, color: Color)
  datatype Sphere = Sphere(sphere: Vec4, e1: Vec4, e2: Vec4, color: Color)
  /**
   * A disc. `normal` is the vector the source turns into the disc's plane;
   * that conversion belongs to the vector library and is not modelled.
   */
  datatype Circle = Circle(normal: Vec3, center: Vec3, r2: real, e1: Vec4, color: Color)
  datatype Cylinder = Cylinder(c: Vec3, r2: real, n: Vec3, l: real, e1: Vec4, color: Color)
  datatype Cone = Cone(c: Vec3, c2: real, n: Vec3, l2: real, e1: Vec4, color: Color)
  datatype PointLight = PointLight(color: Vec4, p: Vec4)

  // ---------------------------------------------------------------------
  // Upload events

  /** The GPU buffers: one per collection, two for the triangles. */
  datatype Kind = Planes | TrianglesOrigin | TrianglesGpu | Spheres | Circles
                | Cylinders | Cones | PointLights

  datatype Upload = Realloc(kind: Kind) | Refresh(kind: Kind) | SummaryUpload

  /** A collection's two flags as `dataInit` finds them. */
  datatype Flags = Flags(numChanged: bool, upToDate: bool)

  /** The collections in the order `Model::dataInit` visits them. */
  const Slots: seq<Kind> := [Planes, TrianglesOrigin, Spheres, Circles, Cylinders, Cones, PointLights]

  /**
   * What one collection's `dataInit` uploads: a reallocation when its count
   * changed (two, origin then derived buffer, for the triangles), else a
   * refresh when its contents are stale, else nothing.
   */
  function UploadsFor(k: Kind, f: Flags): (u: seq<Upload>)
    ensures f.numChanged ==> |u| == (if k == TrianglesOrigin then 2 else 1) && u[0] == Realloc(k)
    ensures f.numChanged ==> u[|u| - 1] == Realloc(if k == TrianglesOrigin then TrianglesGpu else k)
    ensures f.numChanged ==> forall e :: e in u ==> e.Realloc?
    ensures !f.numChanged && !f.upToDate ==> u == [Refresh(k)]
    ensures !f.numChanged && f.upToDate ==> u == []
    ensures SummaryUpload !in u
  {
    if f.numChanged then
      if k == TrianglesOrigin then [Realloc(TrianglesOrigin), Realloc(TrianglesGpu)] else [Realloc(k)]
    else if !f.upToDate then [Refresh(k)]
    else []
  }

  ghost predicate AnyChanged(d: seq<Flags>)
  {
    exists i :: 0 <= i < |d| && d[i].numChanged
  }

  /** The uploads of the collections from slot `i` on, in visiting order. */
  function CollectionUploads(d: seq<Flags>, i: nat): seq<Upload>
    requires |d| == |Slots| && i <= |Slots|
    decreases |Slots| - i
  {
    if i == |Slots| then [] else UploadsFor(Slots[i], d[i]) + CollectionUploads(d, i + 1)
  }

  /**
   * Every upload of one `Model::dataInit`, given the flags it starts from:
   * each collection's in turn, then the count record if any count changed.
   */
  ghost function CycleUploads(d: seq<Flags>): seq<Upload>
    requires |d| == |Slots|
  {
    CollectionUploads(d, 0) + (if AnyChanged(d) then [SummaryUpload] else [])
  }

  /** No collection uploads the count record. */
  lemma {:induction false} NoSummaryAmongCollections(d: seq<Flags>, i: nat)
    requires |d| == |Slots| && i <= |Slots|
    ensures multiset(CollectionUploads(d, i))[SummaryUpload] == 0
    decreases |Slots| - i
  {
    if i < |Slots| {
      NoSummaryAmongCollections(d, i + 1);
      assert multiset(UploadsFor(Slots[i], d[i]))[SummaryUpload] == 0;
    }
  }

  /** The count record goes up exactly once if some count changed, and not at all otherwise. */
  lemma SummaryUploadedOnceIffChanged(d: seq<Flags>)
    requires |d| == |Slots|
    ensures multiset(CycleUploads(d))[SummaryUpload] == if AnyChanged(d) then 1 else 0
  {
    NoSummaryAmongCollections(d, 0);
  }

  /** The flags every collection has after `Model::dataInit`. */
  ghost predicate AllClean(d: seq<Flags>)
  {
    forall i :: 0 <= i < |d| ==> d[i] == Flags(false, true)
  }

  lemma {:induction false} CleanCollectionsUploadNothing(d: seq<Flags>, i: nat)
    requires |d| == |Slots| && i <= |Slots| && AllClean(d)
    ensures CollectionUploads(d, i) == []
    decreases |Slots| - i
  {
    if i < |Slots| {
      CleanCollectionsUploadNothing(d, i + 1);
    }
  }

  /** A `dataInit` that starts from clean flags uploads nothing at all. */
  lemma CleanCycleIsSilent(d: seq<Flags>)
    requires |d| == |Slots| && AllClean(d)
    ensures CycleUploads(d) == []
  {
    CleanCollectionsUploadNothing(d, 0);
    assert !AnyChanged(d);
  }

  /** A collection's buffer is reallocated in a cycle exactly when its count changed. */
  lemma ReallocIffCountChanged(d: seq<Flags>, j: nat)
    requires |d| == |Slots| && j < |Slots|
    ensures Realloc(Slots[j]) in CycleUploads(d) <==> d[j].numChanged
  {
    ReallocFrom(d, 0, j);
  }

  lemma {:induction false} ReallocFrom(d: seq<Flags>, i: nat, j: nat)
    requires |d| == |Slots| && i <= j < |Slots|
    ensures Realloc(Slots[j]) in CollectionUploads(d, i) <==> d[j].numChanged
    decreases |Slots| - i
  {
    if i < j {
      ReallocFrom(d, i + 1, j);
      assert Realloc(Slots[j]) !in UploadsFor(Slots[i], d[i]);
    } else {
      NoReallocOfEarlierSlot(d, j + 1, j);
    }
  }

  /** Slots after `j` never reallocate `j`'s buffer. */
  lemma {:induction false} NoReallocOfEarlierSlot(d: seq<Flags>, i: nat, j: nat)
    requires |d| == |Slots| && j < i <= |Slots|
    ensures Realloc(Slots[j]) !in CollectionUploads(d, i)
    decreases |Slots| - i
  {
    if i < |Slots| {
      NoReallocOfEarlierSlot(d, i + 1, j);
      assert Realloc(Slots[j]) !in UploadsFor(Slots[i], d[i]);
    }
  }

  /** `AnyChanged` over the seven slots, written out. */
  lemma AnyChangedBySlots(d: seq<Flags>)
    requires |d| == |Slots|
    ensures AnyChanged(d) <==> (d[0].numChanged || d[1].numChanged || d[2].numChanged ||
      d[3].numChanged || d[4].numChanged || d[5].numChanged || d[6].numChanged)
  {
    if AnyChanged(d) {
      var i :| 0 <= i < |d| && d[i].numChanged;
    }
  }

  /** `CollectionUploads` written out slot by slot. */
  lemma CollectionsBySlots(d: seq<Flags>)
    requires |d| == |Slots|
    ensures CollectionUploads(d, 0) ==
      UploadsFor(Planes, d[0]) + (UploadsFor(TrianglesOrigin, d[1]) + (UploadsFor(Spheres, d[2]) +
      (UploadsFor(Circles, d[3]) + (UploadsFor(Cylinders, d[4]) + (UploadsFor(Cones, d[5]) +
      UploadsFor(PointLights, d[6]))))))
  {
    assert CollectionUploads(d, 6) == UploadsFor(PointLights, d[6]) + CollectionUploads(d, 7);
    assert CollectionUploads(d, 5) == UploadsFor(Cones, d[5]) + CollectionUploads(d, 6);
    assert CollectionUploads(d, 4) == UploadsFor(Cylinders, d[4]) + CollectionUploads(d, 5);
    assert CollectionUploads(d, 3) == UploadsFor(Circles, d[3]) + CollectionUploads(d, 4);
    assert CollectionUploads(d, 2) == UploadsFor(Spheres, d[2]) + CollectionUploads(d, 3);
    assert CollectionUploads(d, 1) == UploadsFor(TrianglesOrigin, d[1]) + CollectionUploads(d, 2);
  }

  // ---------------------------------------------------------------------
  // Collections

  /** The collections whose records keep a `GPUUpToDate` flag. */
  predicate TracksGpu(k: Kind)
  {
    k == Circles || k == Cylinders || k == Cones || k == PointLights
  }

  /**
   * `Planes`, `Spheres`, `Circles`, `Cylinders`, `Cones` or `PointLights`:
   * the items, their GPU buffer's flags, and `GPUUpToDate`, which only the
   * kinds `TracksGpu` names have.
   */
  datatype Collection<T> = Collection(kind: Kind, items: seq<T>, numChanged: bool,
                                      upToDate: bool, gpuUpToDate: bool)
  {
    function State(): Flags
    {
      Flags(numChanged, upToDate)
    }
  }

  /** A fresh collection: planes start clean, every other kind starts dirty. */
  function EmptyCollection<T>(k: Kind): (c: Collection<T>)
    requires k != TrianglesOrigin && k != TrianglesGpu
    ensures c.kind == k && c.items == [] && !c.gpuUpToDate
    ensures c.State() == if k == Planes then Flags(false, true) else Flags(true, false)
  {
    Collection(k, [], k != Planes, k == Planes, false)
  }

  /**
   * A collection's `dataInit`: reallocate after a count change, else
   * refresh stale contents; either upload makes `GPUUpToDate` false. The
   * contents are up to date afterwards; `numChanged` is left for
   * `Model::dataInit` to clear.
   */
  function CollectionDataInit<T>(c: Collection<T>): (r: (Collection<T>, seq<Upload>))
    requires c.kind != TrianglesOrigin
    ensures r.1 == UploadsFor(c.kind, c.State())
    ensures r.0.upToDate
    ensures r.0.kind == c.kind && r.0.items == c.items && r.0.numChanged == c.numChanged
    ensures r.0.gpuUpToDate <==> c.gpuUpToDate && !(TracksGpu(c.kind) && r.1 != [])
  {
    var issued := if c.numChanged then [Realloc(c.kind)]
                  else if !c.upToDate then [Refresh(c.kind)] else [];
    var gpu := if TracksGpu(c.kind) && (c.numChanged || !c.upToDate) then false else c.gpuUpToDate;
    (c.(upToDate := true, gpuUpToDate := gpu), issued)
  }

  /** The triangles: the uploaded originals and the GPU-built records derived from them. */
  datatype Triangles = Triangles(origin: seq<TriangleOrigin>, gpuNum: nat, numChanged: bool,
                                 originUpToDate: bool, gpuUpToDate: bool)
  {
    function State(): Flags
    {
      Flags(numChanged, originUpToDate)
    }
  }

  const EmptyTriangles: Triangles := Triangles([], 0, true, false, false)

  /**
   * The triangles' `dataInit`: after a count change both buffers are
   * reallocated, the derived one sized to the originals; stale originals
   * are refreshed. Either upload, or an empty scene, makes the derived
   * data stale.
   */
  function TrianglesDataInit(t: Triangles): (r: (Triangles, seq<Upload>))
    ensures r.1 == UploadsFor(TrianglesOrigin, t.State())
    ensures r.0.originUpToDate && r.0.numChanged == t.numChanged && r.0.origin == t.origin
    ensures r.0.gpuNum == if t.numChanged then |t.origin| else t.gpuNum
    ensures r.0.gpuUpToDate <==> t.gpuUpToDate && r.1 == [] && |t.origin| != 0
  {
    var (gpuNum, issued) :=
      if t.numChanged then (|t.origin|, [Realloc(TrianglesOrigin), Realloc(TrianglesGpu)])
      else if !t.originUpToDate then (t.gpuNum, [Refresh(TrianglesOrigin)])
      else (t.gpuNum, []);
    var gpu := t.gpuUpToDate && issued == [] && |t.origin| != 0;
    (t.(gpuNum := gpuNum, originUpToDate := true, gpuUpToDate := gpu), issued)
  }

  /**
   * One collection's part of `Model::dataInit` after the uploads: a changed
   * count replaces the recorded one `n`, and the flag is cleared.
   */
  function Publish<T>(c: Collection<T>, n: nat): (Collection<T>, nat)
  {
    (c.(numChanged := false), if c.numChanged then |c.items| else n)
  }

  /** `Publish` for the triangles, whose count is the number of originals. */
  function PublishTriangles(t: Triangles, n: nat): (Triangles, nat)
  {
    (t.(numChanged := false), if t.numChanged then |t.origin| else n)
  }

  /**
   * One `Model::dataInit` on a collection whose recorded count `n` is right
   * unless its count changed: the collection ends clean with the same
   * items, and the record ends with the actual count, changed only if the
   * count did.
   */
  lemma CollectionCycle<T>(c: Collection<T>, n: nat)
    requires c.kind != TrianglesOrigin
    requires !c.numChanged ==> n == |c.items|
    ensures var r := Publish(CollectionDataInit(c).0, n);
      r.0.State() == Flags(false, true) && r.0.kind == c.kind && r.0.items == c.items &&
      r.1 == |c.items| && (r.1 != n ==> c.numChanged)
  {
  }

  /**
   * The same for the triangles; the derived buffer also ends sized to the
   * originals.
   */
  lemma TrianglesCycle(t: Triangles, n: nat)
    requires !t.numChanged ==> n == |t.origin| && t.gpuNum == |t.origin|
    ensures var r := PublishTriangles(TrianglesDataInit(t).0, n);
      r.0.State() == Flags(false, true) && r.0.origin == t.origin &&
      r.0.gpuNum == |t.origin| && r.1 == |t.origin| && (r.1 != n ==> t.numChanged)
  {
  }

  /** Seven clean slots make a clean cycle state. */
  lemma CleanSlots(d: seq<Flags>)
    requires |d| == |Slots|
    requires d[0] == d[1] == d[2] == d[3] == d[4] == d[5] == d[6] == Flags(false, true)
    ensures AllClean(d)
  {
  }

  // ---------------------------------------------------------------------
  // The count record and the model

  /** `GeometryNum::Num`, the per-kind counts the shaders loop over. */
  datatype Num = Num(planeNum: nat, triangleNum: nat, sphereNum: nat, circleNum: nat,
                     cylinderNum: nat, coneNum: nat, pointLightNum: nat)

  /** The members of `Model` as one value: the seven collections and the count record. */
  datatype Scene = Scene(planes: Collection<Plane>, triangles: Triangles,
                         spheres: Collection<Sphere>, circles: Collection<Circle>,
                         cylinders: Collection<Cylinder>, cones: Collection<Cone>,
                         pointLights: Collection<PointLight>, summary: Num)
  {
    /** The flags of the seven collections, in visiting order. */
    function Dirty(): (d: seq<Flags>)
      ensures |d| == |Slots|
    {
      [planes.State(), triangles.State(), spheres.State(), circles.State(),
       cylinders.State(), cones.State(), pointLights.State()]
    }

    /** The counts the record should hold. */
    function Counts(): Num
    {
      Num(|planes.items|, |triangles.origin|, |spheres.items|, |circles.items|,
          |cylinders.items|, |cones.items|, |pointLights.items|)
    }

    ghost predicate KindsOk()
    {
      planes.kind == Planes && spheres.kind == Spheres && circles.kind == Circles &&
      cylinders.kind == Cylinders && cones.kind == Cones && pointLights.kind == PointLights
    }

    /**
     * Each collection has its own kind, the derived triangle buffer is sized
     * to the originals unless a count change is pending, and the count
     * record is right for every collection whose count has not changed.
     */
    ghost predicate Valid()
    {
      KindsOk() &&
      (!triangles.numChanged ==> triangles.gpuNum == |triangles.origin|) &&
      (!planes.numChanged ==> summary.planeNum == |planes.items|) &&
      (!triangles.numChanged ==> summary.triangleNum == |triangles.origin|) &&
      (!spheres.numChanged ==> summary.sphereNum == |spheres.items|) &&
      (!circles.numChanged ==> summary.circleNum == |circles.items|) &&
      (!cylinders.numChanged ==> summary.cylinderNum == |cylinders.items|) &&
      (!cones.numChanged ==> summary.coneNum == |cones.items|) &&
      (!pointLights.numChanged ==> summary.pointLightNum == |pointLights.items|)
    }
  }

  /** The first half of `Model::dataInit`: every collection's own `dataInit`, in order. */
  function UploadAll(sc: Scene): (r: (Scene, seq<Upload>))
    requires sc.KindsOk()
    ensures r.1 == CollectionUploads(sc.Dirty(), 0)
  {
    CollectionsBySlots(sc.Dirty());
    var p, t, s, c := CollectionDataInit(sc.planes), TrianglesDataInit(sc.triangles),
      CollectionDataInit(sc.spheres), CollectionDataInit(sc.circles);
    var y, k, l := CollectionDataInit(sc.cylinders), CollectionDataInit(sc.cones),
      CollectionDataInit(sc.pointLights);
    (Scene(p.0, t.0, s.0, c.0, y.0, k.0, l.0, sc.summary),
     p.1 + (t.1 + (s.1 + (c.1 + (y.1 + (k.1 + l.1))))))
  }

  /**
   * The second half: copy each changed count into the record and clear its
   * flag; the flag returned says whether any count changed.
   */
  function PublishAll(sc: Scene): (Scene, bool)
  {
    var n := sc.summary;
    var p, t, s := Publish(sc.planes, n.planeNum), PublishTriangles(sc.triangles, n.triangleNum),
      Publish(sc.spheres, n.sphereNum);
    var c, y, k, l := Publish(sc.circles, n.circleNum), Publish(sc.cylinders, n.cylinderNum),
      Publish(sc.cones, n.coneNum), Publish(sc.pointLights, n.pointLightNum);
    (Scene(p.0, t.0, s.0, c.0, y.0, k.0, l.0, Num(p.1, t.1, s.1, c.1, y.1, k.1, l.1)),
     sc.planes.numChanged || sc.triangles.numChanged || sc.spheres.numChanged ||
     sc.circles.numChanged || sc.cylinders.numChanged || sc.cones.numChanged ||
     sc.pointLights.numChanged)
  }

  /** One whole `Model::dataInit`: the new members and every upload, the count record last. */
  function Cycle(sc: Scene): (Scene, seq<Upload>)
    requires sc.KindsOk()
  {
    var (s1, issued) := UploadAll(sc);
    var (s2, changed) := PublishAll(s1);
    (s2, issued + if changed then [SummaryUpload] else [])
  }

  /** One `Model::dataInit` issues exactly the uploads its starting flags call for. */
  lemma CycleIssuesUploads(sc: Scene)
    requires sc.KindsOk()
    ensures Cycle(sc).1 == CycleUploads(sc.Dirty())
  {
    AnyChangedBySlots(sc.Dirty());
  }

  /** One `Model::dataInit` leaves every collection clean. */
  lemma CycleCleansAll(sc: Scene)
    requires sc.KindsOk()
    ensures AllClean(Cycle(sc).0.Dirty())
  {
    CleanSlots(Cycle(sc).0.Dirty());
  }

  /**
   * On a consistent model, one `Model::dataInit` keeps every collection's
   * items and leaves the record holding the actual counts.
   */
  lemma CyclePublishesCounts(sc: Scene)
    requires sc.Valid()
    ensures Cycle(sc).0.summary == Cycle(sc).0.Counts() == sc.Counts()
  {
    var n := sc.summary;
    CollectionCycle(sc.planes, n.planeNum);
    TrianglesCycle(sc.triangles, n.triangleNum);
    CollectionCycle(sc.spheres, n.sphereNum);
    CollectionCycle(sc.circles, n.circleNum);
    CollectionCycle(sc.cylinders, n.cylinderNum);
    CollectionCycle(sc.cones, n.coneNum);
    CollectionCycle(sc.pointLights, n.pointLightNum);
  }

  /** One `Model::dataInit` keeps the model consistent. */
  lemma CycleKeepsValid(sc: Scene)
    requires sc.Valid()
    ensures Cycle(sc).0.Valid()
  {
    var n := sc.summary;
    CollectionCycle(sc.planes, n.planeNum);
    TrianglesCycle(sc.triangles, n.triangleNum);
    CollectionCycle(sc.spheres, n.sphereNum);
    CollectionCycle(sc.circles, n.circleNum);
    CollectionCycle(sc.cylinders, n.cylinderNum);
    CollectionCycle(sc.cones, n.coneNum);
    CollectionCycle(sc.pointLights, n.pointLightNum);
  }

  /**
   * With nothing added in between, a second `Model::dataInit` uploads
   * nothing at all: neither a collection buffer nor the count record.
   */
  lemma CycleTwiceIsSilent(sc: Scene)
    requires sc.Valid()
    ensures Cycle(sc).0.KindsOk() && Cycle(Cycle(sc).0).1 == []
  {
    CycleKeepsValid(sc);
    CycleCleansAll(sc);
    var s1 := Cycle(sc).0;
    CycleIssuesUploads(s1);
    CleanCycleIsSilent(s1.Dirty());
  }

  /** The count record changes in a `Model::dataInit` only if some count changed. */
  lemma CycleRecordChangesOnlyOnChange(sc: Scene)
    requires sc.Valid()
    ensures Cycle(sc).0.summary != sc.summary ==> AnyChanged(sc.Dirty())
  {
    if !AnyChanged(sc.Dirty()) {
      AnyChangedBySlots(sc.Dirty());
      var n := sc.summary;
      CollectionCycle(sc.planes, n.planeNum);
      TrianglesCycle(sc.triangles, n.triangleNum);
      CollectionCycle(sc.spheres, n.sphereNum);
      CollectionCycle(sc.circles, n.circleNum);
      CollectionCycle(sc.cylinders, n.cylinderNum);
      CollectionCycle(sc.cones, n.coneNum);
      CollectionCycle(sc.pointLights, n.pointLightNum);
    }
  }

  /**
   * `Model`. Its members are held by value, so they are kept here as one
   * `Scene` value that the methods replace.
   */
  class Model {
    /** The seven collections and the count record as last handed to its buffer. */
    var scene: Scene
    /** Every upload so far, in order. */
    ghost var uploads: seq<Upload>

    ghost predicate Valid()
      reads this
    {
      scene.Valid()
    }

    /**
     * An empty model. `Num()` leaves `coneNum` uninitialised; whatever it
     * holds is `coneNum0`.
     */
    constructor (coneNum0: nat)
      ensures Valid() && uploads == []
      ensures scene.summary == Num(0, 0, 0, 0, 0, coneNum0, 0)
      ensures scene.Counts() == Num(0, 0, 0, 0, 0, 0, 0)
      ensures scene.Dirty()[0] == Flags(false, true)
      ensures forall i :: 1 <= i < |Slots| ==> scene.Dirty()[i] == Flags(true, false)
    {
      scene := Scene(EmptyCollection(Planes), EmptyTriangles, EmptyCollection(Spheres),
                     EmptyCollection(Circles), EmptyCollection(Cylinders), EmptyCollection(Cones),
                     EmptyCollection(PointLights), Num(0, 0, 0, 0, 0, coneNum0, 0));
      uploads := [];
    }

    /**
     * `dataInit`: let every collection upload, then copy each changed count
     * into the record, clear its flag, and upload the record once if any
     * count changed.
     */
    method DataInit()
      requires Valid()
      modifies this
      ensures Valid()
      ensures scene == Cycle(old(scene)).0
      ensures uploads == old(uploads) + Cycle(old(scene)).1
    {
      var r := Cycle(scene);
      CycleKeepsValid(scene);
      scene := r.0;
      uploads := uploads + r.1;
    }

    /** `addCylinder`: the cylinder and its two end caps, normals `-n` then `n`. */
    method AddCylinder(cyl: Cylinder)
      requires Valid()
      modifies this
      ensures Valid()
      ensures scene.cylinders.items == old(scene.cylinders.items) + [cyl]
      ensures scene.circles.items == old(scene.circles.items) + [
        Circle(Neg(cyl.n), cyl.c, cyl.r2, cyl.e1, cyl.color),
        Circle(cyl.n, Add(cyl.c, Scale(cyl.n, cyl.l)), cyl.r2, cyl.e1, cyl.color)]
      ensures scene.cylinders.numChanged && scene.circles.numChanged
      ensures scene == old(scene).(
        cylinders := old(scene.cylinders).(items := scene.cylinders.items, numChanged := true),
        circles := old(scene.circles).(items := scene.circles.items, numChanged := true))
      ensures uploads == old(uploads)
    {
      var bottom := Circle(Neg(cyl.n), cyl.c, cyl.r2, cyl.e1, cyl.color);
      var top := Circle(cyl.n, Add(cyl.c, Scale(cyl.n, cyl.l)), cyl.r2, cyl.e1, cyl.color);
      scene := scene.(
        cylinders := scene.cylinders.(items := scene.cylinders.items + [cyl], numChanged := true),
        circles := scene.circles.(items := scene.circles.items + [bottom, top], numChanged := true));
    }

    /**
     * `addCone`: the cone and its base disc, `root` along the axis from the
     * apex, with squared radius `l2 * (1 - c2)`. `root` is the float square
     * root of `l2 * c2` that the source computes.
     */
    method AddCone(cone: Cone, root: real)
      requires Valid()
      modifies this
      ensures Valid()
      ensures scene.cones.items == old(scene.cones.items) + [cone]
      ensures scene.circles.items == old(scene.circles.items) +
        [Circle(cone.n, Add(cone.c, Scale(cone.n, root)), cone.l2 * (1.0 - cone.c2), cone.e1, cone.color)]
      ensures scene.cones.numChanged && scene.circles.numChanged
      ensures scene == old(scene).(
        cones := old(scene.cones).(items := scene.cones.items, numChanged := true),
        circles := old(scene.circles).(items := scene.circles.items, numChanged := true))
      ensures uploads == old(uploads)
    {
      var base := Circle(cone.n, Add(cone.c, Scale(cone.n, root)), cone.l2 * (1.0 - cone.c2),
                         cone.e1, cone.color);
      scene := scene.(
        circles := scene.circles.(items := scene.circles.items + [base], numChanged := true),
        cones := scene.cones.(items := scene.cones.items + [cone], numChanged := true));
    }
  }
}
