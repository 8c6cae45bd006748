/** The graphics backend the renderer and the particle world talk to, reduced
    to what the orchestration depends on: opaque handles that are handed out
    fresh on allocation, a record of every release, and render textures as
    plain records of their dimensions. */
module Backend {

  datatype Option<T> = None | Some(value: T)

  /** Pixel formats the core asks for (ARGBHalf and ARGBFloat). */
  datatype Format = ARGBHalf | ARGBFloat

  /** A render texture: its handle, the dimensions it was created with, the
      depth-buffer bits, and whether it is currently created on the device. */
  datatype Texture = Texture(id: nat, width: int, height: int, depthBits: nat, format: Format, created: bool)

  /** A render buffer: the color buffer of the texture with handle `texture`,
      or the default value of an unset array element. */
  datatype RenderBuffer = NoBuffer | ColorBuffer(texture: nat)

  /** The camera's internal resolution as the two floating-point components
      of a Vector2. */
  datatype Resolution = Resolution(x: real, y: real)

  /** The C# cast (int)f of a floating-point value: truncation toward zero. */
  function Truncate(f: real): (n: int)
    ensures f >= 0.0 ==> 0 <= n && n as real <= f < n as real + 1.0
    ensures f < 0.0 ==> n <= 0 && n as real - 1.0 < f <= n as real
  {
    if f >= 0.0 then f.Floor else -((-f).Floor)
  }

  /** The color buffer of a texture slot; an empty slot has none. */
  function ColorBufferOf(slot: Option<Texture>): (b: RenderBuffer)
    ensures b.ColorBuffer? <==> slot.Some?
    ensures slot.Some? ==> b.texture == slot.value.id
  {
    match slot
    case None => NoBuffer
    case Some(t) => ColorBuffer(t.id)
  }

  /** The device: the compute and render-target backend. Every allocation gets
      a handle never seen before; every release is recorded in order. */
  class Device {
    var nextHandle: nat
    var released: seq<nat>

    constructor ()
      ensures nextHandle == 0 && released == []
    {
      nextHandle := 0;
      released := [];
    }

    /** Allocate a buffer or a texture and return its new handle. */
    method Allocate() returns (h: nat)
      modifies this
      ensures h == old(nextHandle) && nextHandle == h + 1
      ensures released == old(released)
    {
      h := nextHandle;
      nextHandle := nextHandle + 1;
    }

    /** Release the buffer or texture with handle h. */
    method Release(h: nat)
      modifies this
      ensures released == old(released) + [h]
      ensures nextHandle == old(nextHandle)
    {
      released := released + [h];
    }

    /** DSRenderer.CreateRenderTexture: allocate and create a w x h texture. */
    method CreateRenderTexture(w: int, h: int, depthBits: nat, format: Format) returns (t: Texture)
      modifies this
      ensures t == Texture(old(nextHandle), w, h, depthBits, format, true)
      ensures nextHandle == old(nextHandle) + 1 && released == old(released)
    {
      var id := Allocate();
      t := Texture(id, w, h, depthBits, format, true);
    }

    /** RenderTexture.Release: the texture stays referenced but is no longer created. */
    method ReleaseTexture(t: Texture) returns (r: Texture)
      modifies this
      ensures r == t.(created := false)
      ensures released == old(released) + [t.id] && nextHandle == old(nextHandle)
    {
      Release(t.id);
      r := t.(created := false);
    }
  }
}
