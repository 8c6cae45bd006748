/** The host of the GPU particle simulation: the growable collider and force
    buffers of MPParticleWorldImplGPU, and ParticleWorld's G-buffer copy
    targets, per-frame snapshot and G-buffer pass. */
module CSParticle {
  import opened Backend
  import opened Growth
  import opened CubeMesh

  /** Capacities MPParticleWorldImplGPU starts with. */
  const InitialSphereCapacity: nat := 256
  const InitialCapsuleCapacity: nat := 256
  const InitialBoxCapacity: nat := 256
  const InitialForceCapacity: nat := 128

  /** One CSSphereCollider, CSCapsuleCollider, CSBoxCollider or CSForce, as
      uploaded to its buffer; its contents are not interpreted here. */
  type Record = nat

  /** A ParticleCollider component. */
  type ColliderId = nat

  /** The part of a ParticleSet this core reads. */
  datatype ParticleSetInfo = ParticleSetInfo(processGBufferCollision: bool)

  /** The static registries of ParticleCollider, ParticleForce and
      ParticleSet that the world reads and clears. */
  class Scene {
    var sphereColliders: seq<Record>
    var capsuleColliders: seq<Record>
    var boxColliders: seq<Record>
    var forceData: seq<Record>
    var colliderInstances: seq<ColliderId>
    var particleSets: seq<ParticleSetInfo>

    constructor (spheres: seq<Record>, capsules: seq<Record>, boxes: seq<Record>, forces: seq<Record>,
                 colliders: seq<ColliderId>, sets: seq<ParticleSetInfo>)
      ensures sphereColliders == spheres && capsuleColliders == capsules && boxColliders == boxes
      ensures forceData == forces && colliderInstances == colliders && particleSets == sets
    {
      sphereColliders, capsuleColliders, boxColliders := spheres, capsules, boxes;
      forceData, colliderInstances, particleSets := forces, colliders, sets;
    }
  }

  /** The handle a buffer gives back when Update grows it. */
  function Dropped(count: nat, cap: nat, buffer: nat): (r: seq<nat>)
    ensures r == [] <==> count < cap
  {
    if count >= cap then [buffer] else []
  }

  /** How many buffers of one class Update allocates. */
  function Grew(count: nat, cap: nat): (r: nat)
    ensures r == |Dropped(count, cap, 0)|
  {
    if count >= cap then 1 else 0
  }

  /** One growable compute buffer of MPParticleWorldImplGPU: its capacity
      in records, its device handle and the records last uploaded to it. */
  datatype GrowableBuffer = GrowableBuffer(capacity: nat, handle: nat, contents: seq<Record>)

  /** The capacity is positive and holds what was uploaded. */
  predicate Holds(b: GrowableBuffer)
  {
    0 < b.capacity && |b.contents| < b.capacity
  }

  /** One resource class of MPParticleWorldImplGPU.Update: when the count
      has reached the capacity, double the capacity until it exceeds the
      count, release the buffer and create a new one; then upload. */
  method SyncBuffer(device: Device, buffer: GrowableBuffer, records: seq<Record>) returns (r: GrowableBuffer)
    requires buffer.capacity > 0
    modifies device
    ensures Holds(r) && r.contents == records
    ensures r.capacity == GrownCapacity(|records|, buffer.capacity)
    ensures |records| < buffer.capacity ==> r.handle == buffer.handle
    ensures |records| >= buffer.capacity ==> r.handle == old(device.nextHandle)
    ensures device.released == old(device.released) + Dropped(|records|, buffer.capacity, buffer.handle)
    ensures device.nextHandle == old(device.nextHandle) + Grew(|records|, buffer.capacity)
  {
    var capacity, handle := buffer.capacity, buffer.handle;
    if |records| >= capacity {
      capacity := GrowCapacity(|records|, capacity);
      device.Release(handle);
      handle := device.Allocate();
    }
    r := GrowableBuffer(capacity, handle, records);
  }

  predicate Distinct(s: seq<nat>)
  {
    forall i, j :: 0 <= i < j < |s| ==> s[i] != s[j]
  }

  /** Buffers that are either kept or replaced, the k-th by a handle handed
      out between marks m_k and m_(k+1) that all come after the old ones,
      stay distinct and below the last mark. */
  lemma FreshHandlesKeepDistinct(before: seq<nat>, after: seq<nat>, m0: nat, m1: nat, m2: nat, m3: nat, m4: nat)
    requires |before| == |after| == 5 && Distinct(before)
    requires forall i :: 0 <= i < 5 ==> before[i] < m0
    requires m0 <= m1 <= m2 <= m3 <= m4
    requires after[0] == before[0] || m0 <= after[0] < m1
    requires after[1] == before[1] || m1 <= after[1] < m2
    requires after[2] == before[2] || m2 <= after[2] < m3
    requires after[3] == before[3] || m3 <= after[3] < m4
    requires after[4] == before[4]
    ensures Distinct(after)
    ensures forall i :: 0 <= i < 5 ==> after[i] < m4
  {
  }

  /** MPParticleWorldImplGPU: four growable buffers and the cube vertex
      buffer, each known by its device handle, with what was last uploaded
      to it. */
  class MPParticleWorldImplGPU {
    var sphereColliders: GrowableBuffer
    var capsuleColliders: GrowableBuffer
    var boxColliders: GrowableBuffer
    var forces: GrowableBuffer
    var cbCubeVertices: nat
    var cubeVertices: seq<CubeVertex>

    /** The five buffers: spheres, capsules, boxes, forces, cube vertices. */
    function Buffers(): seq<nat>
      reads this
    {
      [sphereColliders.handle, capsuleColliders.handle, boxColliders.handle, forces.handle, cbCubeVertices]
    }

    /** Capacities are positive and hold what was uploaded; the five buffers
        are distinct handles the device has handed out. */
    predicate Valid(device: Device)
      reads this, device
    {
      Holds(sphereColliders) && Holds(capsuleColliders) && Holds(boxColliders) && Holds(forces)
      && (forall i :: 0 <= i < 5 ==> Buffers()[i] < device.nextHandle)
      && Distinct(Buffers())
    }

    /** The field initialisers and Start: the cube vertex buffer is created
        and filled, then the four growable buffers at their initial
        capacities. */
    constructor (device: Device)
      modifies device
      ensures Valid(device)
      ensures sphereColliders.capacity == InitialSphereCapacity && capsuleColliders.capacity == InitialCapsuleCapacity
      ensures boxColliders.capacity == InitialBoxCapacity && forces.capacity == InitialForceCapacity
      ensures var n := old(device.nextHandle); Buffers() == [n + 1, n + 2, n + 3, n + 4, n]
      ensures device.nextHandle == old(device.nextHandle) + 5 && device.released == old(device.released)
      ensures sphereColliders.contents == [] && capsuleColliders.contents == []
      ensures boxColliders.contents == [] && forces.contents == []
      ensures |cubeVertices| == 36
      ensures forall i :: 0 <= i < 36 ==> cubeVertices[i].normal == CubeNormals[4 * (i / 6)]
      ensures forall i :: 0 <= i < 36 ==> Dot(cubeVertices[i].position, cubeVertices[i].normal) == 1
    {
      var vertices := BuildCubeVertices();
      var cube := device.Allocate();
      var sphere := device.Allocate();
      var capsule := device.Allocate();
      var box := device.Allocate();
      var force := device.Allocate();
      cbCubeVertices, cubeVertices := cube, vertices;
      sphereColliders := GrowableBuffer(InitialSphereCapacity, sphere, []);
      capsuleColliders := GrowableBuffer(InitialCapsuleCapacity, capsule, []);
      boxColliders := GrowableBuffer(InitialBoxCapacity, box, []);
      forces := GrowableBuffer(InitialForceCapacity, force, []);
    }

    /** MPParticleWorldImplGPU.Update: each of the four classes grows on its
        own count only, gets a fresh buffer exactly when it grew, and
        uploads its current records. */
    method Update(device: Device, spheres: seq<Record>, capsules: seq<Record>, boxes: seq<Record>, forceData: seq<Record>)
      requires Valid(device)
      modifies this, device
      ensures Valid(device)
      ensures sphereColliders.capacity == GrownCapacity(|spheres|, old(sphereColliders.capacity))
      ensures capsuleColliders.capacity == GrownCapacity(|capsules|, old(capsuleColliders.capacity))
      ensures boxColliders.capacity == GrownCapacity(|boxes|, old(boxColliders.capacity))
      ensures forces.capacity == GrownCapacity(|forceData|, old(forces.capacity))
      ensures sphereColliders.handle == old(sphereColliders.handle) <==> |spheres| < old(sphereColliders.capacity)
      ensures capsuleColliders.handle == old(capsuleColliders.handle) <==> |capsules| < old(capsuleColliders.capacity)
      ensures boxColliders.handle == old(boxColliders.handle) <==> |boxes| < old(boxColliders.capacity)
      ensures forces.handle == old(forces.handle) <==> |forceData| < old(forces.capacity)
      ensures |spheres| >= old(sphereColliders.capacity) ==> old(device.nextHandle) <= sphereColliders.handle
      ensures |capsules| >= old(capsuleColliders.capacity) ==> old(device.nextHandle) <= capsuleColliders.handle
      ensures |boxes| >= old(boxColliders.capacity) ==> old(device.nextHandle) <= boxColliders.handle
      ensures |forceData| >= old(forces.capacity) ==> old(device.nextHandle) <= forces.handle
      ensures device.released == old(device.released)
        + Dropped(|spheres|, old(sphereColliders.capacity), old(sphereColliders.handle))
        + Dropped(|capsules|, old(capsuleColliders.capacity), old(capsuleColliders.handle))
        + Dropped(|boxes|, old(boxColliders.capacity), old(boxColliders.handle))
        + Dropped(|forceData|, old(forces.capacity), old(forces.handle))
      ensures device.nextHandle == old(device.nextHandle)
        + Grew(|spheres|, old(sphereColliders.capacity)) + Grew(|capsules|, old(capsuleColliders.capacity))
        + Grew(|boxes|, old(boxColliders.capacity)) + Grew(|forceData|, old(forces.capacity))
      ensures sphereColliders.contents == spheres && capsuleColliders.contents == capsules
      ensures boxColliders.contents == boxes && forces.contents == forceData
      ensures cbCubeVertices == old(cbCubeVertices) && cubeVertices == old(cubeVertices)
    {
      ghost var before, n0 := Buffers(), device.nextHandle;
      var sphere := SyncBuffer(device, sphereColliders, spheres);
      ghost var n1 := device.nextHandle;
      var capsule := SyncBuffer(device, capsuleColliders, capsules);
      ghost var n2 := device.nextHandle;
      var box := SyncBuffer(device, boxColliders, boxes);
      ghost var n3 := device.nextHandle;
      var force := SyncBuffer(device, forces, forceData);
      FreshHandlesKeepDistinct(before, [sphere.handle, capsule.handle, box.handle, force.handle, cbCubeVertices],
        n0, n1, n2, n3, device.nextHandle);
      sphereColliders, capsuleColliders, boxColliders, forces := sphere, capsule, box, force;
    }
  }

  /** Some particle set asks for collision against the G-buffer. */
  predicate AnyWantsGBufferCollision(sets: seq<ParticleSetInfo>)
  {
    exists i :: 0 <= i < |sets| && sets[i].processGBufferCollision
  }

  /** The scan at the start of ParticleWorld.GBufferPass: stop at the first
      set that asks for G-buffer collision. */
  method NeedsGBufferCopy(sets: seq<ParticleSetInfo>) returns (needs: bool)
    ensures needs <==> AnyWantsGBufferCollision(sets)
  {
    needs := false;
    var i := 0;
    while i < |sets|
      invariant 0 <= i <= |sets|
      invariant forall j :: 0 <= j < i ==> !sets[j].processGBufferCollision
    {
      if sets[i].processGBufferCollision {
        needs := true;
        break;
      }
      i := i + 1;
    }
  }

  /** Number of G-buffer copy targets: the normal and position copies. */
  const CopySlots: nat := 2

  /** Both copy targets missing (before the first request) or both present
      and of one size. */
  predicate CopiesCoherent(s: seq<Option<Texture>>)
  {
    |s| == CopySlots && (s[0].Some? <==> s[1].Some?)
    && (s[0].Some? ==> s[0].value.width == s[1].value.width && s[0].value.height == s[1].value.height)
  }

  /** "rtGBufferCopy[0].width != reso.x" as written: the integer width is
      compared with the floating-point resolution itself. */
  predicate CopiesStaleAsWritten(s: seq<Option<Texture>>, reso: Resolution)
    requires CopiesCoherent(s)
  {
    s[0].Some? && s[0].value.width as real != reso.x
  }

  /** The comparison the allocation is sized by: against (int)reso.x, as
      DSRenderer.UpdateRenderTargets does. */
  predicate CopiesStale(s: seq<Option<Texture>>, reso: Resolution)
    requires CopiesCoherent(s)
  {
    s[0].Some? && s[0].value.width != Truncate(reso.x)
  }

  /** The two copy targets the allocation loop creates. */
  function FreshCopies(reso: Resolution, next: nat): seq<Option<Texture>>
  {
    [Some(Texture(next, Truncate(reso.x), Truncate(reso.y), 0, ARGBHalf, true)),
     Some(Texture(next + 1, Truncate(reso.x), Truncate(reso.y), 0, ARGBHalf, true))]
  }

  /** ParticleWorld.UpdateRenderTargets on values, given the outcome of the
      width comparison: a stale pair is released and set to null, and a
      missing or uncreated slot 0 makes both targets be created anew. */
  function CopiesAfterDecision(s: seq<Option<Texture>>, stale: bool, reso: Resolution, next: nat): seq<Option<Texture>>
    requires CopiesCoherent(s)
  {
    var s1 := if stale then [None, None] else s;
    if s1[0].None? || !s1[0].value.created then FreshCopies(reso, next) else s1
  }

  function CopiesReleasedByDecision(s: seq<Option<Texture>>, stale: bool): seq<nat>
    requires CopiesCoherent(s) && (stale ==> s[0].Some?)
  {
    if stale then [s[0].value.id, s[1].value.id] else []
  }

  function CopiesAllocatedByDecision(s: seq<Option<Texture>>, stale: bool): nat
    requires CopiesCoherent(s)
  {
    if stale || s[0].None? || !s[0].value.created then CopySlots else 0
  }

  /** The copy targets after ParticleWorld.UpdateRenderTargets. */
  function CopiesAfter(s: seq<Option<Texture>>, reso: Resolution, next: nat): (r: seq<Option<Texture>>)
    requires CopiesCoherent(s)
    ensures CopiesCoherent(r) && r[0].Some? && r[0].value.created && !CopiesStale(r, reso)
    ensures r == s || r == FreshCopies(reso, next)
  {
    CopiesAfterDecision(s, CopiesStale(s, reso), reso, next)
  }

  /** The same, with the comparison as written: the copies exist and are
      created afterwards, but they are still stale by that comparison
      exactly when the requested width is not a whole number. */
  function CopiesAfterAsWritten(s: seq<Option<Texture>>, reso: Resolution, next: nat): (r: seq<Option<Texture>>)
    requires CopiesCoherent(s)
    ensures CopiesCoherent(r) && r[0].Some? && r[0].value.created
    ensures CopiesStaleAsWritten(r, reso) <==> reso.x != Truncate(reso.x) as real
  {
    WholeWidthTruncates(if s[0].Some? then s[0].value.width else 0, reso.x);
    CopiesAfterDecision(s, CopiesStaleAsWritten(s, reso), reso, next)
  }

  /** A whole number equal to a width truncates back to that width. */
  lemma WholeWidthTruncates(w: int, x: real)
    ensures w as real == x ==> Truncate(x) == w
  {
  }

  /** After UpdateRenderTargets both copy targets exist, are created, have
      the requested (truncated) size and half-float format without depth,
      and are no longer stale; when anything was allocated both are new. */
  lemma CopiesAfterFitResolution(s: seq<Option<Texture>>, reso: Resolution, next: nat)
    requires CopiesCoherent(s)
    ensures var r := CopiesAfter(s, reso, next);
      CopiesCoherent(r) && r[0].Some? && r[0].value.created && !CopiesStale(r, reso)
      && (CopiesAllocatedByDecision(s, CopiesStale(s, reso)) > 0 ==> r == FreshCopies(reso, next))
      && (CopiesAllocatedByDecision(s, CopiesStale(s, reso)) == 0 ==> r == s)
    ensures FreshCopies(reso, next)[0].value.width == Truncate(reso.x)
      && FreshCopies(reso, next)[1].value.height == Truncate(reso.y)
      && FreshCopies(reso, next)[0].value.id != FreshCopies(reso, next)[1].value.id
  {
  }

  /** A second request at the same resolution releases and allocates
      nothing. */
  lemma CopiesUpdateIsIdempotent(s: seq<Option<Texture>>, reso: Resolution, next: nat, next': nat)
    requires CopiesCoherent(s)
    ensures var r := CopiesAfter(s, reso, next);
      CopiesCoherent(r) && CopiesAfter(r, reso, next') == r
      && !CopiesStale(r, reso) && CopiesAllocatedByDecision(r, CopiesStale(r, reso)) == 0
  {
    CopiesAfterFitResolution(s, reso, next);
  }

  /** Where the resolution is a whole number the two comparisons agree. */
  lemma ComparisonsAgreeOnWholeWidths(s: seq<Option<Texture>>, reso: Resolution)
    requires CopiesCoherent(s) && reso.x == Truncate(reso.x) as real
    ensures CopiesStaleAsWritten(s, reso) == CopiesStale(s, reso)
  {
  }

  /** As written, a fractional width (960.5, from a resolution scale) makes
      the copy targets stale forever: a second request at the same
      resolution releases both 960-wide targets and allocates two more. */
  lemma AsWrittenReallocatesEveryRequest()
    ensures var reso := Resolution(960.5, 540.0);
      var r1 := CopiesAfterAsWritten([None, None], reso, 0);
      r1 == FreshCopies(reso, 0) && r1[0].value.width == 960
      && CopiesStaleAsWritten(r1, reso)
      && CopiesReleasedByDecision(r1, CopiesStaleAsWritten(r1, reso)) == [0, 1]
      && CopiesAfterAsWritten(r1, reso, 2) == FreshCopies(reso, 2)
      && CopiesAfterAsWritten(r1, reso, 2) != r1
  {
    var reso := Resolution(960.5, 540.0);
    assert Truncate(reso.x) == 960;
  }

  /** What ParticleWorld issues around its G-buffer pass. */
  datatype PassEvent =
    | CopyGBuffer(targets: seq<RenderBuffer>)  // the copy material drawn into rbGBufferCopy
    | RebindGBuffer                            // dsr.SetRenderTargetsGBuffer
    | ParticleGBufferPass                      // ParticleSet.GBufferPassAll

  /** What one completed G-buffer pass issues: the copy into the copy
      targets and the rebind, when some set asks for it, then the sets'
      own pass. */
  function PassEvents(sets: seq<ParticleSetInfo>, copyTargets: seq<RenderBuffer>): (ev: seq<PassEvent>)
    ensures |ev| > 0 && ev[|ev| - 1] == ParticleGBufferPass
  {
    (if AnyWantsGBufferCollision(sets) then [CopyGBuffer(copyTargets), RebindGBuffer] else []) + [ParticleGBufferPass]
  }

  /** The number of G-buffer copies in a trace. */
  function CopyCount(ev: seq<PassEvent>): nat
  {
    if ev == [] then 0 else (if ev[0].CopyGBuffer? then 1 else 0) + CopyCount(ev[1..])
  }

  lemma {:induction false} CopyCountAppend(a: seq<PassEvent>, b: seq<PassEvent>)
    ensures CopyCount(a + b) == CopyCount(a) + CopyCount(b)
    decreases |a|
  {
    if a == [] {
      assert a + b == b;
    } else {
      assert (a + b)[1..] == a[1..] + b;
      CopyCountAppend(a[1..], b);
    }
  }

  /** ParticleWorld. The copy-target arrays are created once (Awake). */
  class ParticleWorld {
    const impl: MPParticleWorldImplGPU
    var prevColliders: seq<ColliderId>
    const rtGBufferCopy: array<Option<Texture>>
    const rbGBufferCopy: array<RenderBuffer>
    var passTrace: seq<PassEvent>

    predicate Valid(device: Device)
      reads this, impl, device, rtGBufferCopy, rbGBufferCopy
    {
      impl.Valid(device)
      && rtGBufferCopy.Length == CopySlots && rbGBufferCopy.Length == CopySlots
      && CopiesCoherent(rtGBufferCopy[..])
      && forall i :: 0 <= i < CopySlots ==> rbGBufferCopy[i] == ColorBufferOf(rtGBufferCopy[i])
    }

    /** Awake and Start: empty copy slots, and the GPU implementation
        started. */
    constructor (device: Device)
      modifies device
      ensures Valid(device) && fresh(impl) && fresh(rtGBufferCopy) && fresh(rbGBufferCopy)
      ensures rtGBufferCopy[..] == [None, None] && prevColliders == [] && passTrace == []
      ensures impl.sphereColliders.capacity == InitialSphereCapacity && impl.capsuleColliders.capacity == InitialCapsuleCapacity
      ensures impl.boxColliders.capacity == InitialBoxCapacity && impl.forces.capacity == InitialForceCapacity
      ensures impl.sphereColliders.contents == [] && impl.capsuleColliders.contents == []
      ensures impl.boxColliders.contents == [] && impl.forces.contents == []
      ensures var n := old(device.nextHandle); impl.Buffers() == [n + 1, n + 2, n + 3, n + 4, n]
      ensures device.nextHandle == old(device.nextHandle) + 5 && device.released == old(device.released)
      ensures |impl.cubeVertices| == 36
      ensures forall i :: 0 <= i < 36 ==> impl.cubeVertices[i].normal == CubeNormals[4 * (i / 6)]
      ensures forall i :: 0 <= i < 36 ==> Dot(impl.cubeVertices[i].position, impl.cubeVertices[i].normal) == 1
    {
      rtGBufferCopy := new Option<Texture>[CopySlots](_ => None);
      rbGBufferCopy := new RenderBuffer[CopySlots](_ => NoBuffer);
      prevColliders := [];
      passTrace := [];
      impl := new MPParticleWorldImplGPU(device);
      new;
      assert rtGBufferCopy[..] == [None, None];
    }

    /** ParticleWorld.UpdateRenderTargets, with the width compared against
        (int)reso.x. */
    method UpdateRenderTargets(device: Device, reso: Resolution)
      requires Valid(device)
      modifies rtGBufferCopy, rbGBufferCopy, device
      ensures Valid(device)
      ensures rtGBufferCopy[..] == CopiesAfter(old(rtGBufferCopy[..]), reso, old(device.nextHandle))
      ensures device.released == old(device.released)
        + CopiesReleasedByDecision(old(rtGBufferCopy[..]), CopiesStale(old(rtGBufferCopy[..]), reso))
      ensures device.nextHandle == old(device.nextHandle)
        + CopiesAllocatedByDecision(old(rtGBufferCopy[..]), CopiesStale(old(rtGBufferCopy[..]), reso))
    {
      ghost var s0 := rtGBufferCopy[..];
      ghost var n0 := device.nextHandle;
      if rtGBufferCopy[0].Some? && rtGBufferCopy[0].value.width != Truncate(reso.x) {
        for i := 0 to CopySlots
          modifies rtGBufferCopy, device
          invariant forall j :: 0 <= j < i ==> rtGBufferCopy[j].None?
          invariant forall j :: i <= j < CopySlots ==> rtGBufferCopy[j] == s0[j]
          invariant device.released == old(device.released) + (seq(i, j requires 0 <= j < i => s0[j].value.id))
          invariant device.nextHandle == n0
        {
          var _ := device.ReleaseTexture(rtGBufferCopy[i].value);
          rtGBufferCopy[i] := None;
        }
        assert rtGBufferCopy[..] == [None, None];
      }
      if rtGBufferCopy[0].None? || !rtGBufferCopy[0].value.created {
        ghost var r1 := device.released;
        for i := 0 to CopySlots
          modifies rtGBufferCopy, rbGBufferCopy, device
          invariant forall j :: 0 <= j < i ==> rtGBufferCopy[j] == FreshCopies(reso, n0)[j]
          invariant forall j :: 0 <= j < i ==> rbGBufferCopy[j] == ColorBufferOf(rtGBufferCopy[j])
          invariant device.nextHandle == n0 + i && device.released == r1
        {
          var t := device.CreateRenderTexture(Truncate(reso.x), Truncate(reso.y), 0, ARGBHalf);
          rtGBufferCopy[i] := Some(t);
          rbGBufferCopy[i] := ColorBufferOf(rtGBufferCopy[i]);
        }
        assert rtGBufferCopy[..] == FreshCopies(reso, n0);
      }
    }

    /** The rtNormalBufferCopy (slot 0) and rtPositionBufferCopy (slot 1)
        getters: bring the copies up to date, then return one. */
    method BufferCopy(device: Device, reso: Resolution, slot: nat) returns (t: Texture)
      requires Valid(device) && slot < CopySlots
      modifies rtGBufferCopy, rbGBufferCopy, device
      ensures Valid(device)
      ensures rtGBufferCopy[..] == CopiesAfter(old(rtGBufferCopy[..]), reso, old(device.nextHandle))
      ensures device.released == old(device.released)
        + CopiesReleasedByDecision(old(rtGBufferCopy[..]), CopiesStale(old(rtGBufferCopy[..]), reso))
      ensures device.nextHandle == old(device.nextHandle)
        + CopiesAllocatedByDecision(old(rtGBufferCopy[..]), CopiesStale(old(rtGBufferCopy[..]), reso))
      ensures Some(t) == rtGBufferCopy[slot] && t.width == Truncate(reso.x)
      ensures slot == 0 ==> t.created
    {
      UpdateRenderTargets(device, reso);
      CopiesAfterFitResolution(old(rtGBufferCopy[..]), reso, old(device.nextHandle));
      t := rtGBufferCopy[slot].value;
    }

    /** ParticleWorld.Update, as far as this core goes: the implementation
        uploads the registries, the collider list is snapshotted and the
        force list cleared for the next frame. */
    method Update(device: Device, scene: Scene)
      requires Valid(device)
      modifies this, impl, device, scene
      ensures Valid(device)
      ensures impl.sphereColliders.capacity == GrownCapacity(|old(scene.sphereColliders)|, old(impl.sphereColliders.capacity))
      ensures impl.capsuleColliders.capacity == GrownCapacity(|old(scene.capsuleColliders)|, old(impl.capsuleColliders.capacity))
      ensures impl.boxColliders.capacity == GrownCapacity(|old(scene.boxColliders)|, old(impl.boxColliders.capacity))
      ensures impl.forces.capacity == GrownCapacity(|old(scene.forceData)|, old(impl.forces.capacity))
      ensures impl.sphereColliders.handle == old(impl.sphereColliders.handle)
        <==> |old(scene.sphereColliders)| < old(impl.sphereColliders.capacity)
      ensures impl.capsuleColliders.handle == old(impl.capsuleColliders.handle)
        <==> |old(scene.capsuleColliders)| < old(impl.capsuleColliders.capacity)
      ensures impl.boxColliders.handle == old(impl.boxColliders.handle)
        <==> |old(scene.boxColliders)| < old(impl.boxColliders.capacity)
      ensures impl.forces.handle == old(impl.forces.handle) <==> |old(scene.forceData)| < old(impl.forces.capacity)
      ensures |old(scene.sphereColliders)| >= old(impl.sphereColliders.capacity)
        ==> old(device.nextHandle) <= impl.sphereColliders.handle
      ensures |old(scene.capsuleColliders)| >= old(impl.capsuleColliders.capacity)
        ==> old(device.nextHandle) <= impl.capsuleColliders.handle
      ensures |old(scene.boxColliders)| >= old(impl.boxColliders.capacity)
        ==> old(device.nextHandle) <= impl.boxColliders.handle
      ensures |old(scene.forceData)| >= old(impl.forces.capacity) ==> old(device.nextHandle) <= impl.forces.handle
      ensures device.released == old(device.released)
        + Dropped(|old(scene.sphereColliders)|, old(impl.sphereColliders.capacity), old(impl.sphereColliders.handle))
        + Dropped(|old(scene.capsuleColliders)|, old(impl.capsuleColliders.capacity), old(impl.capsuleColliders.handle))
        + Dropped(|old(scene.boxColliders)|, old(impl.boxColliders.capacity), old(impl.boxColliders.handle))
        + Dropped(|old(scene.forceData)|, old(impl.forces.capacity), old(impl.forces.handle))
      ensures device.nextHandle == old(device.nextHandle)
        + Grew(|old(scene.sphereColliders)|, old(impl.sphereColliders.capacity))
        + Grew(|old(scene.capsuleColliders)|, old(impl.capsuleColliders.capacity))
        + Grew(|old(scene.boxColliders)|, old(impl.boxColliders.capacity))
        + Grew(|old(scene.forceData)|, old(impl.forces.capacity))
      ensures impl.sphereColliders.contents == old(scene.sphereColliders) && impl.capsuleColliders.contents == old(scene.capsuleColliders)
      ensures impl.boxColliders.contents == old(scene.boxColliders) && impl.forces.contents == old(scene.forceData)
      ensures impl.cbCubeVertices == old(impl.cbCubeVertices) && impl.cubeVertices == old(impl.cubeVertices)
      ensures rtGBufferCopy[..] == old(rtGBufferCopy[..]) && rbGBufferCopy[..] == old(rbGBufferCopy[..])
      ensures prevColliders == old(scene.colliderInstances)
      ensures scene.forceData == []
      ensures scene.sphereColliders == old(scene.sphereColliders) && scene.capsuleColliders == old(scene.capsuleColliders)
      ensures scene.boxColliders == old(scene.boxColliders) && scene.colliderInstances == old(scene.colliderInstances)
      ensures scene.particleSets == old(scene.particleSets)
      ensures passTrace == old(passTrace)
    {
      impl.Update(device, scene.sphereColliders, scene.capsuleColliders, scene.boxColliders, scene.forceData);
      prevColliders := scene.colliderInstances;
      scene.forceData := [];
    }

    /** ParticleWorld.GBufferPass over the registered particle sets: one
        copy of the G-buffer into the copy targets when any set wants
        G-buffer collision, then the sets' own G-buffer pass. With no copy
        target yet (no getter has run), the copy dereferences null and the
        pass stops: ok is false. */
    method GBufferPass(scene: Scene) returns (ok: bool)
      requires rtGBufferCopy.Length == CopySlots && rbGBufferCopy.Length == CopySlots
      modifies this
      ensures ok <==> !AnyWantsGBufferCollision(scene.particleSets) || rtGBufferCopy[0].Some?
      ensures ok ==> passTrace == old(passTrace) + PassEvents(scene.particleSets, rbGBufferCopy[..])
      ensures !ok ==> passTrace == old(passTrace)
      ensures prevColliders == old(prevColliders)
    {
      var needs := NeedsGBufferCopy(scene.particleSets);
      if needs {
        if rtGBufferCopy[0].None? {
          return false;
        }
        passTrace := passTrace + [CopyGBuffer(rbGBufferCopy[..]), RebindGBuffer];
      }
      passTrace := passTrace + [ParticleGBufferPass];
      ok := true;
    }
  }

  /** However many sets ask for G-buffer collision, a pass adds exactly one
      copy to the trace when some set asks and none otherwise. */
  lemma OneCopyPerPass(before: seq<PassEvent>, sets: seq<ParticleSetInfo>, copyTargets: seq<RenderBuffer>)
    ensures CopyCount(before + PassEvents(sets, copyTargets))
         == CopyCount(before) + if AnyWantsGBufferCollision(sets) then 1 else 0
  {
    var ev := PassEvents(sets, copyTargets);
    CopyCountAppend(before, ev);
    if AnyWantsGBufferCollision(sets) {
      assert ev == [CopyGBuffer(copyTargets)] + [RebindGBuffer, ParticleGBufferPass];
      CopyCountAppend([CopyGBuffer(copyTargets)], [RebindGBuffer, ParticleGBufferPass]);
      assert [RebindGBuffer, ParticleGBufferPass][1..] == [ParticleGBufferPass];
    } else {
      assert ev == [ParticleGBufferPass];
    }
  }
}
