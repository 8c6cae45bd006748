/** The deferred renderer: its G-buffer, previous-frame G-buffer and
    composite render targets, the per-frame double-buffering of the G-buffer,
    the view-projection shift, and the seven prioritised callback lists run
    around the camera's render. */
module DeferredShading {
  import opened Backend
  import opened Callbacks
  import opened FrameEvents

  /** DSRenderer.RenderFormat. */
  datatype RenderFormat = Float16 | Float32

  /** The texture format UpdateRenderTargets asks for. */
  function TextureFormatOf(f: RenderFormat): (r: Format)
    ensures r == ARGBHalf <==> f == Float16
    ensures r == ARGBFloat <==> f == Float32
  {
    match f
    case Float16 => ARGBHalf
    case Float32 => ARGBFloat
  }

  /** A Matrix4x4, kept as its sixteen entries; nothing here computes with it. */
  datatype Matrix = Matrix(entries: seq<real>)

  /** Number of G-buffer slots: normal, position, albedo, emission. */
  const GBufferSlots: nat := 4

  /** Slot 0 (the normal buffer) carries the 32-bit depth buffer; no other
      target has one. */
  function DepthBitsOf(slot: nat): (bits: nat)
    ensures bits > 0 <==> slot == 0
    ensures bits == 0 || bits == 32
  {
    if slot == 0 then 32 else 0
  }

  /** The renderer's render targets as values. */
  datatype RenderTargets = RenderTargets(
    gbuffer: seq<Option<Texture>>,
    prevGBuffer: seq<Option<Texture>>,
    composite: Option<Texture>,
    compositeBack: Option<Texture>)

  /** The state right after OnEnable created the arrays: every slot null. */
  predicate Absent(t: RenderTargets)
  {
    |t.gbuffer| == GBufferSlots && |t.prevGBuffer| == GBufferSlots
    && (forall i :: 0 <= i < GBufferSlots ==> t.gbuffer[i].None? && t.prevGBuffer[i].None?)
    && t.composite.None? && t.compositeBack.None?
  }

  predicate Shaped(x: Texture, w: int, h: int, depthBits: nat, f: Format)
  {
    x.width == w && x.height == h && x.depthBits == depthBits && x.format == f
  }

  /** Every target present, all of one size and format, depth only on slot 0
      of each G-buffer, and each slot's current and previous textures (and
      the two composite textures) distinct allocations. */
  predicate Uniform(t: RenderTargets)
  {
    |t.gbuffer| == GBufferSlots && |t.prevGBuffer| == GBufferSlots
    && (forall i :: 0 <= i < GBufferSlots ==> t.gbuffer[i].Some? && t.prevGBuffer[i].Some?)
    && t.composite.Some? && t.compositeBack.Some?
    && var w, h, f := t.gbuffer[0].value.width, t.gbuffer[0].value.height, t.gbuffer[0].value.format;
    (forall i :: 0 <= i < GBufferSlots ==>
      Shaped(t.gbuffer[i].value, w, h, DepthBitsOf(i), f) && Shaped(t.prevGBuffer[i].value, w, h, DepthBitsOf(i), f)
      && t.gbuffer[i].value.id != t.prevGBuffer[i].value.id)
    && Shaped(t.composite.value, w, h, 0, f) && Shaped(t.compositeBack.value, w, h, 0, f)
    && t.composite.value.id != t.compositeBack.value.id
  }

  /** The states UpdateRenderTargets can start from. */
  predicate Coherent(t: RenderTargets)
  {
    Absent(t) || Uniform(t)
  }

  /** "rtGBuffer[0] != null && rtGBuffer[0].width != (int)reso.x": only the
      width of slot 0 is compared. */
  predicate SizeChanged(t: RenderTargets, reso: Resolution)
    requires |t.gbuffer| == GBufferSlots
  {
    t.gbuffer[0].Some? && t.gbuffer[0].value.width != Truncate(reso.x)
  }

  /** "rtGBuffer[0] == null || !rtGBuffer[0].IsCreated()". */
  predicate NeedsAllocation(t: RenderTargets)
    requires |t.gbuffer| == GBufferSlots
  {
    t.gbuffer[0].None? || !t.gbuffer[0].value.created
  }

  /** Slot 0 exists, is created and has the width the resolution asks for:
      UpdateRenderTargets leaves such targets alone. */
  predicate UpToDate(t: RenderTargets, reso: Resolution)
    requires |t.gbuffer| == GBufferSlots
  {
    !SizeChanged(t, reso) && !NeedsAllocation(t)
  }

  function Unmade(slot: Option<Texture>): Option<Texture>
  {
    match slot
    case None => None
    case Some(x) => Some(x.(created := false))
  }

  /** The handles released by the first n iterations of the release loop: the
      current and then the previous texture of each slot. */
  function PairIds(cur: seq<Option<Texture>>, prev: seq<Option<Texture>>, n: nat): (ids: seq<nat>)
    requires n <= |cur| && n <= |prev|
    requires forall i :: 0 <= i < n ==> cur[i].Some? && prev[i].Some?
    ensures |ids| == 2 * n
    ensures forall i :: 0 <= i < n ==> ids[2 * i] == cur[i].value.id && ids[2 * i + 1] == prev[i].value.id
  {
    if n == 0 then [] else PairIds(cur, prev, n - 1) + [cur[n - 1].value.id, prev[n - 1].value.id]
  }

  /** The targets after the release branch: the current G-buffer textures are
      released but stay referenced, everything else is set to null. */
  function AfterRelease(t: RenderTargets): (r: RenderTargets)
    requires |t.gbuffer| == GBufferSlots
  {
    RenderTargets(seq(GBufferSlots, i requires 0 <= i < GBufferSlots => Unmade(t.gbuffer[i])),
                  seq(GBufferSlots, i => None), None, None)
  }

  /** The handles the release branch gives back, in order. */
  function ReleasedOnResize(t: RenderTargets): seq<nat>
    requires Uniform(t)
  {
    PairIds(t.gbuffer, t.prevGBuffer, GBufferSlots) + [t.composite.value.id] + [t.compositeBack.value.id]
  }

  /** The ten targets the allocation branch creates, with the handles the
      device hands out in the order of the allocation loop. */
  function Fresh(reso: Resolution, f: Format, next: nat): RenderTargets
  {
    var w, h := Truncate(reso.x), Truncate(reso.y);
    RenderTargets(
      seq(GBufferSlots, i requires 0 <= i < GBufferSlots => Some(Texture(next + 2 * i, w, h, DepthBitsOf(i), f, true))),
      seq(GBufferSlots, i requires 0 <= i < GBufferSlots => Some(Texture(next + 2 * i + 1, w, h, DepthBitsOf(i), f, true))),
      Some(Texture(next + 2 * GBufferSlots, w, h, 0, f, true)),
      Some(Texture(next + 2 * GBufferSlots + 1, w, h, 0, f, true)))
  }

  /** The targets after the release branch, when it runs. */
  function Released(t: RenderTargets, reso: Resolution): (r: RenderTargets)
    requires Coherent(t)
    ensures |r.gbuffer| == GBufferSlots
  {
    if SizeChanged(t, reso) then AfterRelease(t) else t
  }

  /** DSRenderer.UpdateRenderTargets on values: the new targets, given the
      device's next handle. */
  function Updated(t: RenderTargets, reso: Resolution, f: Format, next: nat): (r: RenderTargets)
    requires Coherent(t)
    ensures Uniform(r) && UpToDate(r, reso)
    ensures r == t || r == Fresh(reso, f, next)
  {
    var t1 := Released(t, reso);
    FreshTargetsAreUniform(reso, f, next);
    if NeedsAllocation(t1) then Fresh(reso, f, next) else t1
  }

  /** The handles UpdateRenderTargets releases. */
  function ReleasedBy(t: RenderTargets, reso: Resolution): seq<nat>
    requires Coherent(t)
  {
    if SizeChanged(t, reso) then ReleasedOnResize(t) else []
  }

  /** How many handles UpdateRenderTargets allocates. */
  function AllocationsBy(t: RenderTargets, reso: Resolution): nat
    requires Coherent(t)
  {
    if NeedsAllocation(Released(t, reso)) then 2 * GBufferSlots + 2 else 0
  }

  /** Freshly allocated targets are uniform, created, at the truncated
      resolution, with slot 0 alone carrying depth, and every handle at or
      above the device's next handle. */
  lemma FreshTargetsAreUniform(reso: Resolution, f: Format, next: nat)
    ensures var r := Fresh(reso, f, next);
      Uniform(r) && UpToDate(r, reso)
      && r.gbuffer[0].value.width == Truncate(reso.x) && r.gbuffer[0].value.height == Truncate(reso.y)
      && r.gbuffer[0].value.format == f
      && (forall i :: 0 <= i < GBufferSlots ==>
           (r.gbuffer[i].value.created && r.prevGBuffer[i].value.created
            && next <= r.gbuffer[i].value.id < next + 10 && next <= r.prevGBuffer[i].value.id < next + 10))
      && r.composite.value.created && r.compositeBack.value.created
  /** Only the normal buffers of slot 0, current and previous, carry the
      32-bit depth buffer; the other G-buffer slots and the composite pair
      have none. */
  ensures var r := Fresh(reso, f, next);
      r.gbuffer[0].value.depthBits == 32 && r.prevGBuffer[0].value.depthBits == 32
      && (forall i :: 1 <= i < GBufferSlots ==>
           r.gbuffer[i].value.depthBits == 0 && r.prevGBuffer[i].value.depthBits == 0)
      && r.composite.value.depthBits == 0 && r.compositeBack.value.depthBits == 0
  {
  }

  /** After UpdateRenderTargets the targets are uniform and up to date:
      slot 0 is created at the requested width. When an allocation happened,
      everything is new and sized from the resolution; otherwise nothing
      changed. */
  lemma UpdatedIsUpToDate(t: RenderTargets, reso: Resolution, f: Format, next: nat)
    requires Coherent(t)
    ensures Uniform(Updated(t, reso, f, next)) && UpToDate(Updated(t, reso, f, next), reso)
    ensures AllocationsBy(t, reso) > 0 ==> Updated(t, reso, f, next) == Fresh(reso, f, next)
    ensures AllocationsBy(t, reso) == 0 <==> UpToDate(t, reso)
    ensures AllocationsBy(t, reso) == 0 ==> Updated(t, reso, f, next) == t && ReleasedBy(t, reso) == []
  {
    FreshTargetsAreUniform(reso, f, next);
  }

  /** The format setting decides the format of every allocated target and
      nothing else: the 16-bit and 32-bit settings allocate the same ten
      textures, half-float in the one case and float in the other. */
  lemma SettingsDifferOnlyInFormat(reso: Resolution, next: nat)
    ensures var h, g := Fresh(reso, TextureFormatOf(Float16), next), Fresh(reso, TextureFormatOf(Float32), next);
      h != g
      && (forall i :: 0 <= i < GBufferSlots ==>
           h.gbuffer[i].value.format == ARGBHalf && g.gbuffer[i].value.format == ARGBFloat
           && h.gbuffer[i].value.(format := ARGBFloat) == g.gbuffer[i].value
           && h.prevGBuffer[i].value.(format := ARGBFloat) == g.prevGBuffer[i].value)
      && h.composite.value.(format := ARGBFloat) == g.composite.value
      && h.compositeBack.value.(format := ARGBFloat) == g.compositeBack.value
  {
    assert Fresh(reso, TextureFormatOf(Float16), next).composite.value.format == ARGBHalf;
  }

  /** A second UpdateRenderTargets at the same resolution releases and
      allocates nothing and leaves the targets as they are. */
  lemma UpdateIsIdempotent(t: RenderTargets, reso: Resolution, f: Format, next: nat, next': nat)
    requires Coherent(t)
    ensures var t1 := Updated(t, reso, f, next);
      Coherent(t1) && Updated(t1, reso, f, next') == t1
      && ReleasedBy(t1, reso) == [] && AllocationsBy(t1, reso) == 0
  {
    UpdatedIsUpToDate(t, reso, f, next);
    UpdatedIsUpToDate(Updated(t, reso, f, next), reso, f, next');
  }

  /** Only the width is compared: targets that are up to date stay as they
      are whatever height is asked for, even one they do not have. */
  lemma HeightIsNotCompared(t: RenderTargets, reso: Resolution, height: real, f: Format, next: nat)
    requires Uniform(t) && UpToDate(t, reso)
    ensures Updated(t, Resolution(reso.x, height), f, next) == t
    ensures ReleasedBy(t, Resolution(reso.x, height)) == [] && AllocationsBy(t, Resolution(reso.x, height)) == 0
  {
  }

  /** Height-only change, concretely: 1280x720 targets asked for 1280x800
      stay 1280x720. */
  lemma HeightOnlyChangeKeepsTargets()
    ensures var t := Fresh(Resolution(1280.0, 720.0), ARGBHalf, 0);
      Updated(t, Resolution(1280.0, 800.0), ARGBHalf, 10) == t
      && t.gbuffer[0].value.height == 720
  {
    FreshTargetsAreUniform(Resolution(1280.0, 720.0), ARGBHalf, 0);
    HeightIsNotCompared(Fresh(Resolution(1280.0, 720.0), ARGBHalf, 0), Resolution(1280.0, 720.0), 800.0, ARGBHalf, 10);
  }

  /** A width change releases all ten targets, each once (current and
      previous of every slot in turn, then the two composite textures), and
      allocates ten new ones at the new size. */
  lemma WidthChangeReplacesEverything(t: RenderTargets, reso: Resolution, f: Format, next: nat)
    requires Uniform(t) && SizeChanged(t, reso)
    ensures var ids := ReleasedBy(t, reso);
      |ids| == 10
      && (forall i :: 0 <= i < GBufferSlots ==> ids[2 * i] == t.gbuffer[i].value.id && ids[2 * i + 1] == t.prevGBuffer[i].value.id)
      && ids[8] == t.composite.value.id && ids[9] == t.compositeBack.value.id
    ensures AllocationsBy(t, reso) == 10 && Updated(t, reso, f, next) == Fresh(reso, f, next)
  {
    assert Released(t, reso).gbuffer[0] == Unmade(t.gbuffer[0]);
  }

  /** The swap loop of OnPreRender: current and previous G-buffers exchange
      slot by slot. */
  function SwapGBuffers(t: RenderTargets): (r: RenderTargets)
    ensures r.composite == t.composite && r.compositeBack == t.compositeBack
  {
    t.(gbuffer := t.prevGBuffer, prevGBuffer := t.gbuffer)
  }

  /** Swapping twice restores the original assignment. */
  lemma SwapGBuffersTwice(t: RenderTargets)
    ensures SwapGBuffers(SwapGBuffers(t)) == t
  {
  }

  /** Swapping keeps the targets uniform: both G-buffers have the same shape. */
  lemma SwapGBuffersKeepsUniform(t: RenderTargets)
    requires Uniform(t)
    ensures Uniform(SwapGBuffers(t))
  {
    assert t.prevGBuffer[0].value.width == t.gbuffer[0].value.width;
    assert t.prevGBuffer[0].value.height == t.gbuffer[0].value.height;
    assert t.prevGBuffer[0].value.format == t.gbuffer[0].value.format;
  }

  predicate AllCreated(t: RenderTargets)
    requires Uniform(t)
  {
    (forall i :: 0 <= i < GBufferSlots ==> t.gbuffer[i].value.created && t.prevGBuffer[i].value.created)
    && t.composite.value.created && t.compositeBack.value.created
  }

  /** The targets after n frames at one resolution: each frame updates the
      targets and then swaps the G-buffers. */
  function Frames(t: RenderTargets, reso: Resolution, f: Format, next: nat, n: nat): (r: RenderTargets)
    requires Coherent(t)
    ensures Uniform(r) || (n == 0 && r == t)
    decreases n
  {
    if n == 0 then t
    else
      var t1 := Updated(t, reso, f, next);
      UpdatedIsUpToDate(t, reso, f, next);
      SwapGBuffersKeepsUniform(t1);
      Frames(SwapGBuffers(t1), reso, f, next, n - 1)
  }

  /** At an unchanged width, the current and previous G-buffer of every slot
      alternate between the same two allocations, frame after frame. */
  lemma {:induction false} FramesAlternate(t: RenderTargets, reso: Resolution, f: Format, next: nat, n: nat)
    requires Uniform(t) && AllCreated(t) && t.gbuffer[0].value.width == Truncate(reso.x)
    ensures Frames(t, reso, f, next, n) == if n % 2 == 0 then t else SwapGBuffers(t)
    decreases n
  {
    if n > 0 {
      var s := SwapGBuffers(t);
      SwapGBuffersKeepsUniform(t);
      assert Updated(t, reso, f, next) == t;
      assert s.gbuffer[0].value.width == Truncate(reso.x);
      FramesAlternate(s, reso, f, next, n - 1);
      SwapGBuffersTwice(t);
    }
  }

  /** The compositing pair after SwapFramebuffer: front and back exchanged. */
  function SwapComposite(t: RenderTargets): (r: RenderTargets)
    ensures r.gbuffer == t.gbuffer && r.prevGBuffer == t.prevGBuffer
  {
    t.(composite := t.compositeBack, compositeBack := t.composite)
  }

  lemma SwapCompositeTwice(t: RenderTargets)
    ensures SwapComposite(SwapComposite(t)) == t
    ensures Uniform(t) ==> Uniform(SwapComposite(t))
  {
  }

  /** Every stage's list sorted by priority. */
  predicate AllSorted(lists: StageLists)
  {
    forall s :: SortedByPriority(lists.Get(s))
  }

  /** "foreach (cb in list) cb.callback.Invoke()": the callbacks of one
      stage, run in list order. */
  method RunCallbacks(stage: Stage, l: seq<PriorityCallback>) returns (issued: seq<Event>)
    ensures issued == Invocations(stage, l)
  {
    issued := [];
    for i := 0 to |l|
      invariant issued == Invocations(stage, l[..i])
    {
      issued := issued + [Invoke(stage, l[i])];
      InvocationsSnoc(stage, l, i);
    }
    assert l[..|l|] == l;
  }

  /** The first loop of OnPostRender: each post-G-buffer callback, then
      SetRenderTargetsGBuffer. */
  method RunPostGBufferCallbacks(l: seq<PriorityCallback>) returns (issued: seq<Event>)
    ensures issued == InvocationsWithRebind(l)
  {
    issued := [];
    for i := 0 to |l|
      invariant issued == InvocationsWithRebind(l[..i])
    {
      issued := issued + [Invoke(PostGBuffer, l[i]), BindGBuffer];
      InvocationsWithRebindSnoc(l, i);
    }
    assert l[..|l|] == l;
  }

  /** DSRenderer. The three G-buffer arrays are created once (OnEnable) and
      their elements reassigned from then on. */
  class DSRenderer {
    var textureFormat: RenderFormat
    var prevViewProj: Matrix
    var viewProj: Matrix
    const rtGBuffer: array<Option<Texture>>
    const rtPrevGBuffer: array<Option<Texture>>
    const rbGBuffer: array<RenderBuffer>
    var rtComposite: Option<Texture>
    var rtCompositeBack: Option<Texture>
    /** cbPreGBuffer, cbPostGBuffer, ..., cbHUD. */
    var callbacks: StageLists
    /** What the renderer has issued so far. */
    var trace: seq<Event>

    function Targets(): RenderTargets
      reads this, rtGBuffer, rtPrevGBuffer
    {
      RenderTargets(rtGBuffer[..], rtPrevGBuffer[..], rtComposite, rtCompositeBack)
    }

    /** Array shapes and sorted callback lists. */
    predicate Shapes()
      reads this
    {
      rtGBuffer.Length == GBufferSlots && rtPrevGBuffer.Length == GBufferSlots && rbGBuffer.Length == GBufferSlots
      && rtGBuffer != rtPrevGBuffer && AllSorted(callbacks)
    }

    predicate Valid()
      reads this, rtGBuffer, rtPrevGBuffer
    {
      Shapes() && Uniform(Targets())
    }

    /** OnEnable: new arrays of four empty slots, then UpdateRenderTargets. */
    constructor (device: Device, reso: Resolution, format: RenderFormat)
      modifies device
      ensures Valid() && fresh(rtGBuffer) && fresh(rtPrevGBuffer) && fresh(rbGBuffer)
      ensures Targets() == Fresh(reso, TextureFormatOf(format), old(device.nextHandle))
      ensures device.nextHandle == old(device.nextHandle) + 10 && device.released == old(device.released)
      ensures callbacks == StageLists([], [], [], [], [], [], []) && trace == []
      ensures textureFormat == format
      ensures forall i :: 0 <= i < GBufferSlots ==> rbGBuffer[i] == NoBuffer
    {
      textureFormat := format;
      prevViewProj := Matrix([]);
      viewProj := Matrix([]);
      rtGBuffer := new Option<Texture>[GBufferSlots](_ => None);
      rtPrevGBuffer := new Option<Texture>[GBufferSlots](_ => None);
      rbGBuffer := new RenderBuffer[GBufferSlots](_ => NoBuffer);
      rtComposite := None;
      rtCompositeBack := None;
      callbacks := StageLists([], [], [], [], [], [], []);
      trace := [];
      new;
      assert Absent(Targets());
      UpdateRenderTargets(device, reso);
    }

    /** AddCallbackPreGBuffer ... AddCallbackHUD: append, then sort the
        stage's list by priority. The sort is not stable, so only the
        ordering and the contents are promised. */
    method AddCallback(stage: Stage, cb: CallbackId, priority: int := DefaultPriority)
      requires Shapes()
      modifies this
      ensures Shapes()
      ensures SortedByPriority(callbacks.Get(stage))
      ensures multiset(callbacks.Get(stage)) == multiset(old(callbacks.Get(stage))) + multiset{PriorityCallback(cb, priority)}
      ensures forall s :: s != stage ==> callbacks.Get(s) == old(callbacks.Get(s))
      ensures rtComposite == old(rtComposite) && rtCompositeBack == old(rtCompositeBack) && trace == old(trace)
      ensures viewProj == old(viewProj) && prevViewProj == old(prevViewProj) && textureFormat == old(textureFormat)
    {
      var pc := PriorityCallback(cb, priority);
      var sorted := SortByPriority(callbacks.Get(stage) + [pc]);
      callbacks := match stage
        case PreGBuffer => callbacks.(preGBuffer := sorted)
        case PostGBuffer => callbacks.(postGBuffer := sorted)
        case PreLighting => callbacks.(preLighting := sorted)
        case PostLighting => callbacks.(postLighting := sorted)
        case Transparent => callbacks.(transparent := sorted)
        case PostEffect => callbacks.(postEffect := sorted)
        case HUD => callbacks.(hud := sorted);
      forall s ensures SortedByPriority(callbacks.Get(s)) {
        if s != stage {
          assert callbacks.Get(s) == old(callbacks.Get(s));
        }
      }
    }

    /** The release branch of UpdateRenderTargets: every current G-buffer
        texture is released but kept, every previous one released and set to
        null, then the composite and (when present) the back composite. */
    method ReleaseTargets(device: Device)
      requires Shapes() && Uniform(Targets())
      modifies this, rtGBuffer, rtPrevGBuffer, device
      ensures Shapes() && callbacks == old(callbacks) && trace == old(trace)
      ensures Targets() == AfterRelease(old(Targets()))
      ensures device.released == old(device.released) + ReleasedOnResize(old(Targets()))
      ensures device.nextHandle == old(device.nextHandle)
      ensures viewProj == old(viewProj) && prevViewProj == old(prevViewProj) && textureFormat == old(textureFormat)
    {
      ReleaseGBufferSlots(device);
      device.Release(rtComposite.value.id);
      rtComposite := None;
      if rtCompositeBack.Some? {
        device.Release(rtCompositeBack.value.id);
        rtCompositeBack := None;
      }
    }

    /** The release loop over the G-buffer slots: the current texture of
        each slot is released and kept, the previous one released and
        dropped. */
    method ReleaseGBufferSlots(device: Device)
      requires rtGBuffer.Length == GBufferSlots && rtPrevGBuffer.Length == GBufferSlots && rtGBuffer != rtPrevGBuffer
      requires forall j :: 0 <= j < GBufferSlots ==> rtGBuffer[j].Some? && rtPrevGBuffer[j].Some?
      modifies rtGBuffer, rtPrevGBuffer, device
      ensures rtGBuffer[..] == AfterRelease(old(Targets())).gbuffer
      ensures rtPrevGBuffer[..] == AfterRelease(old(Targets())).prevGBuffer
      ensures device.released == old(device.released) + PairIds(old(rtGBuffer[..]), old(rtPrevGBuffer[..]), GBufferSlots)
      ensures device.nextHandle == old(device.nextHandle)
    {
      ghost var cur, prev := rtGBuffer[..], rtPrevGBuffer[..];
      for i := 0 to GBufferSlots
        invariant forall j :: 0 <= j < i ==> rtGBuffer[j] == Unmade(cur[j]) && rtPrevGBuffer[j].None?
        invariant forall j :: i <= j < GBufferSlots ==> rtGBuffer[j] == cur[j] && rtPrevGBuffer[j] == prev[j]
        invariant device.released == old(device.released) + PairIds(cur, prev, i)
        invariant device.nextHandle == old(device.nextHandle)
      {
        ReleaseSlot(device, i);
      }
      ghost var r := AfterRelease(old(Targets()));
      assert forall j :: 0 <= j < GBufferSlots ==> rtGBuffer[..][j] == r.gbuffer[j] && rtPrevGBuffer[..][j] == r.prevGBuffer[j];
      assert rtGBuffer[..] == r.gbuffer;
      assert rtPrevGBuffer[..] == r.prevGBuffer;
    }

    /** One iteration of the release loop. */
    method ReleaseSlot(device: Device, i: nat)
      requires rtGBuffer.Length == GBufferSlots && rtPrevGBuffer.Length == GBufferSlots && rtGBuffer != rtPrevGBuffer
      requires i < GBufferSlots && rtGBuffer[i].Some? && rtPrevGBuffer[i].Some?
      modifies rtGBuffer, rtPrevGBuffer, device
      ensures rtGBuffer[i] == Unmade(old(rtGBuffer[i])) && rtPrevGBuffer[i] == None
      ensures forall j :: 0 <= j < GBufferSlots && j != i ==> rtGBuffer[j] == old(rtGBuffer[j]) && rtPrevGBuffer[j] == old(rtPrevGBuffer[j])
      ensures device.released == old(device.released) + [old(rtGBuffer[i]).value.id, old(rtPrevGBuffer[i]).value.id]
      ensures device.nextHandle == old(device.nextHandle)
    {
      var released := device.ReleaseTexture(rtGBuffer[i].value);
      rtGBuffer[i] := Some(released);
      var _ := device.ReleaseTexture(rtPrevGBuffer[i].value);
      rtPrevGBuffer[i] := None;
    }

    /** The allocation branch of UpdateRenderTargets: current and previous
        texture of every slot in turn, then the composite and its back. */
    method AllocateTargets(device: Device, reso: Resolution)
      requires Shapes()
      modifies this, rtGBuffer, rtPrevGBuffer, device
      ensures Shapes() && callbacks == old(callbacks) && trace == old(trace)
      ensures Targets() == Fresh(reso, TextureFormatOf(textureFormat), old(device.nextHandle))
      ensures device.released == old(device.released)
      ensures device.nextHandle == old(device.nextHandle) + 2 * GBufferSlots + 2
      ensures viewProj == old(viewProj) && prevViewProj == old(prevViewProj) && textureFormat == old(textureFormat)
    {
      var format := TextureFormatOf(textureFormat);
      var w, h := Truncate(reso.x), Truncate(reso.y);
      ghost var target := Fresh(reso, format, device.nextHandle);
      for i := 0 to GBufferSlots
        modifies rtGBuffer, rtPrevGBuffer, device
        invariant forall j :: 0 <= j < i ==> rtGBuffer[j] == target.gbuffer[j] && rtPrevGBuffer[j] == target.prevGBuffer[j]
        invariant device.nextHandle == old(device.nextHandle) + 2 * i && device.released == old(device.released)
      {
        var depthBits := if i == 0 then 32 else 0;
        var cur := device.CreateRenderTexture(w, h, depthBits, format);
        rtGBuffer[i] := Some(cur);
        var prev := device.CreateRenderTexture(w, h, depthBits, format);
        rtPrevGBuffer[i] := Some(prev);
      }
      var composite := device.CreateRenderTexture(w, h, 0, format);
      rtComposite := Some(composite);
      var back := device.CreateRenderTexture(w, h, 0, format);
      rtCompositeBack := Some(back);
      assert rtGBuffer[..] == target.gbuffer;
      assert rtPrevGBuffer[..] == target.prevGBuffer;
    }

    /** DSRenderer.UpdateRenderTargets: release everything when slot 0's
        width differs from the requested one; allocate everything when slot 0
        is missing or not created. */
    method UpdateRenderTargets(device: Device, reso: Resolution)
      requires Shapes() && Coherent(Targets())
      modifies this, rtGBuffer, rtPrevGBuffer, device
      ensures Valid()
      ensures Targets() == Updated(old(Targets()), reso, TextureFormatOf(textureFormat), old(device.nextHandle))
      ensures device.released == old(device.released) + ReleasedBy(old(Targets()), reso)
      ensures device.nextHandle == old(device.nextHandle) + AllocationsBy(old(Targets()), reso)
      ensures callbacks == old(callbacks) && trace == old(trace)
      ensures viewProj == old(viewProj) && prevViewProj == old(prevViewProj) && textureFormat == old(textureFormat)
    {
      ghost var t0 := Targets();
      if rtGBuffer[0].Some? && rtGBuffer[0].value.width != Truncate(reso.x) {
        ReleaseTargets(device);
      }
      assert Targets() == Released(t0, reso);
      if rtGBuffer[0].None? || !rtGBuffer[0].value.created {
        AllocateTargets(device, reso);
      }
      UpdatedIsUpToDate(t0, reso, TextureFormatOf(textureFormat), old(device.nextHandle));
    }

    /** SwapFramebuffer: exchange the composite front and back, publish the
        new back as the frame buffer, rebind the composite, and return the
        new back. */
    method SwapFramebuffer() returns (back: Texture)
      requires Valid()
      modifies this
      ensures Valid()
      ensures Targets() == SwapComposite(old(Targets()))
      ensures Some(back) == rtCompositeBack && Some(back) == old(rtComposite)
      ensures trace == old(trace) + [PublishFrameBuffer(back.id), BindCompositeWithDepth]
      ensures callbacks == old(callbacks) && viewProj == old(viewProj) && prevViewProj == old(prevViewProj)
      ensures textureFormat == old(textureFormat)
    {
      var (front, newBack) := Swap(rtComposite, rtCompositeBack);
      rtComposite, rtCompositeBack := front, newBack;
      back := rtCompositeBack.value;
      trace := trace + [PublishFrameBuffer(back.id), BindCompositeWithDepth];
    }

    /** The swap loop of OnPreRender: Swap(ref rtPrevGBuffer[i], ref rtGBuffer[i])
        for every slot. */
    method SwapGBufferSlots()
      requires Valid()
      modifies rtGBuffer, rtPrevGBuffer
      ensures Valid()
      ensures Targets() == SwapGBuffers(old(Targets()))
    {
      ghost var t1 := Targets();
      for i := 0 to GBufferSlots
        invariant forall j :: 0 <= j < i ==> rtGBuffer[j] == t1.prevGBuffer[j] && rtPrevGBuffer[j] == t1.gbuffer[j]
        invariant forall j :: i <= j < GBufferSlots ==> rtGBuffer[j] == t1.gbuffer[j] && rtPrevGBuffer[j] == t1.prevGBuffer[j]
      {
        var (prev, cur) := Swap(rtPrevGBuffer[i], rtGBuffer[i]);
        rtPrevGBuffer[i], rtGBuffer[i] := prev, cur;
      }
      assert rtGBuffer[..] == t1.prevGBuffer && rtPrevGBuffer[..] == t1.gbuffer;
      SwapGBuffersKeepsUniform(t1);
    }

    /** The rebind loop of OnPreRender: rbGBuffer[i] = rtGBuffer[i].colorBuffer. */
    method RebindGBuffer()
      requires Valid()
      modifies rbGBuffer
      ensures forall i :: 0 <= i < GBufferSlots ==> rbGBuffer[i] == ColorBufferOf(rtGBuffer[i])
    {
      for i := 0 to GBufferSlots
        invariant forall j :: 0 <= j < i ==> rbGBuffer[j] == ColorBufferOf(rtGBuffer[j])
      {
        rbGBuffer[i] := ColorBufferOf(rtGBuffer[i]);
      }
    }

    /** OnPreRender: update the targets, shift the view-projection matrices,
        swap the G-buffers slot by slot, rebind the render buffers to the new
        current G-buffer, clear it and run the pre-G-buffer callbacks. */
    method OnPreRender(device: Device, reso: Resolution, newViewProj: Matrix)
      requires Valid()
      modifies this, rtGBuffer, rtPrevGBuffer, rbGBuffer, device
      ensures Valid()
      ensures Targets() == SwapGBuffers(Updated(old(Targets()), reso, TextureFormatOf(textureFormat), old(device.nextHandle)))
      ensures device.released == old(device.released) + ReleasedBy(old(Targets()), reso)
      ensures device.nextHandle == old(device.nextHandle) + AllocationsBy(old(Targets()), reso)
      ensures prevViewProj == old(viewProj) && viewProj == newViewProj
      ensures forall i :: 0 <= i < GBufferSlots ==> rbGBuffer[i] == ColorBufferOf(rtGBuffer[i])
      ensures trace == old(trace) + PreRenderEvents(callbacks)
      ensures callbacks == old(callbacks) && textureFormat == old(textureFormat)
    {
      UpdateRenderTargets(device, reso);
      prevViewProj := viewProj;
      viewProj := newViewProj;
      SwapGBufferSlots();
      RebindGBuffer();
      var issued := RunCallbacks(PreGBuffer, callbacks.preGBuffer);
      trace := trace + ([BindGBuffer, ClearGBuffer, DummyDraw] + issued);
    }

    /** OnPostRender: each post-G-buffer callback followed by a G-buffer
        rebind, then the composite pass with lighting and the later stages,
        and the combine to the screen. */
    method OnPostRender()
      requires Valid()
      modifies this
      ensures Valid()
      ensures trace == old(trace) + PostRenderEvents(callbacks)
      ensures Targets() == old(Targets()) && callbacks == old(callbacks)
      ensures viewProj == old(viewProj) && prevViewProj == old(prevViewProj) && textureFormat == old(textureFormat)
    {
      var post := RunPostGBufferCallbacks(callbacks.postGBuffer);
      var preLighting := RunCallbacks(PreLighting, callbacks.preLighting);
      var postLighting := RunCallbacks(PostLighting, callbacks.postLighting);
      var transparent := RunCallbacks(Transparent, callbacks.transparent);
      var postEffect := RunCallbacks(PostEffect, callbacks.postEffect);
      var hud := RunCallbacks(HUD, callbacks.hud);
      trace := trace + (post + ([ClearComposite, BindCompositeWithDepth] + (preLighting + ([RenderLights]
        + (postLighting + (transparent + (postEffect + (hud + [Combine]))))))));
    }
  }

  /** DSRenderer.Swap: the two values exchanged. */
  function Swap<T>(lhs: T, rhs: T): (r: (T, T))
    ensures r.0 == rhs && r.1 == lhs
  {
    (rhs, lhs)
  }

  /** Swapping twice is the identity. */
  lemma SwapTwice<T>(lhs: T, rhs: T)
    ensures var (a, b) := Swap(lhs, rhs); Swap(a, b) == (lhs, rhs)
  {
  }

  lemma InvocationsSnoc(stage: Stage, l: seq<PriorityCallback>, i: nat)
    requires i < |l|
    ensures Invocations(stage, l[..i + 1]) == Invocations(stage, l[..i]) + [Invoke(stage, l[i])]
  {
    var a, b := Invocations(stage, l[..i + 1]), Invocations(stage, l[..i]) + [Invoke(stage, l[i])];
    forall k | 0 <= k < |a| ensures a[k] == b[k] {
      if k < i {
        assert b[k] == Invocations(stage, l[..i])[k];
      }
    }
  }

  lemma {:induction false} InvocationsWithRebindSnoc(l: seq<PriorityCallback>, i: nat)
    requires i < |l|
    ensures InvocationsWithRebind(l[..i + 1]) == InvocationsWithRebind(l[..i]) + [Invoke(PostGBuffer, l[i]), BindGBuffer]
    decreases i
  {
    if i > 0 {
      InvocationsWithRebindSnoc(l[1..], i - 1);
      assert l[1..][..i] == l[..i + 1][1..];
      assert l[1..][..i - 1] == l[..i][1..];
      assert l[1..][i - 1] == l[i];
    } else {
      assert l[..1] == [l[0]];
    }
  }

}
