/** What the renderer issues in one frame, as a trace of events: callback
    invocations and the target bindings, clears and passes between them. */
module FrameEvents {
  import opened Callbacks

  datatype Event =
    | Invoke(stage: Stage, callback: PriorityCallback)
    | BindGBuffer             // SetRenderTargetsGBuffer: the four G-buffer colors, slot 0's depth
    | ClearGBuffer            // the G-buffer clear material drawn as a full-screen quad
    | DummyDraw               // the empty DrawMeshNow issued before the first callbacks
    | ClearComposite          // rtComposite bound and cleared to black
    | BindCompositeWithDepth  // rtComposite's color with the normal buffer's depth
    | RenderLights            // DSLight.RenderLights
    | Combine                 // the combine material drawn to the screen
    | PublishFrameBuffer(texture: nat)  // g_frame_buffer set to this texture

  /** The seven callback lists of a renderer. */
  datatype StageLists = StageLists(
    preGBuffer: seq<PriorityCallback>,
    postGBuffer: seq<PriorityCallback>,
    preLighting: seq<PriorityCallback>,
    postLighting: seq<PriorityCallback>,
    transparent: seq<PriorityCallback>,
    postEffect: seq<PriorityCallback>,
    hud: seq<PriorityCallback>)
  {
    function Get(s: Stage): seq<PriorityCallback>
    {
      match s
      case PreGBuffer => preGBuffer
      case PostGBuffer => postGBuffer
      case PreLighting => preLighting
      case PostLighting => postLighting
      case Transparent => transparent
      case PostEffect => postEffect
      case HUD => hud
    }
  }

  /** "foreach (cb in list) cb.callback.Invoke()". */
  function Invocations(stage: Stage, l: seq<PriorityCallback>): (ev: seq<Event>)
    ensures |ev| == |l|
    ensures forall i :: 0 <= i < |l| ==> ev[i] == Invoke(stage, l[i])
  {
    if l == [] then [] else [Invoke(stage, l[0])] + Invocations(stage, l[1..])
  }

  /** The post-G-buffer loop: every callback is followed by a G-buffer rebind. */
  function InvocationsWithRebind(l: seq<PriorityCallback>): (ev: seq<Event>)
    ensures |ev| == 2 * |l|
  {
    if l == [] then [] else [Invoke(PostGBuffer, l[0]), BindGBuffer] + InvocationsWithRebind(l[1..])
  }

  /** Position 2k of the post-G-buffer loop invokes callback k, and position
      2k + 1 rebinds the G-buffer. */
  lemma {:induction false} InvocationsWithRebindPositions(l: seq<PriorityCallback>)
    ensures forall k :: 0 <= k < |l| ==>
      InvocationsWithRebind(l)[2 * k] == Invoke(PostGBuffer, l[k]) && InvocationsWithRebind(l)[2 * k + 1] == BindGBuffer
    decreases |l|
  {
    if l != [] {
      var rest := InvocationsWithRebind(l[1..]);
      InvocationsWithRebindPositions(l[1..]);
      forall k | 1 <= k < |l|
        ensures InvocationsWithRebind(l)[2 * k] == Invoke(PostGBuffer, l[k]) && InvocationsWithRebind(l)[2 * k + 1] == BindGBuffer
      {
        assert l[k] == l[1..][k - 1];
        assert 2 * k == 2 * (k - 1) + 2;
      }
    }
  }

  /** OnPreRender from the G-buffer bind on: clear, the dummy draw, then the
      pre-G-buffer callbacks. */
  function PreRenderEvents(lists: StageLists): (ev: seq<Event>)
    ensures |ev| == 3 + |lists.preGBuffer|
    ensures ev[..3] == [BindGBuffer, ClearGBuffer, DummyDraw]
  {
    [BindGBuffer, ClearGBuffer, DummyDraw] + Invocations(PreGBuffer, lists.preGBuffer)
  }

  /** OnPostRender after the post-G-buffer loop: the composite target is
      cleared and bound, then lighting and the later stages run, and the
      result is combined to the screen. */
  function LightingAndLater(lists: StageLists): (ev: seq<Event>)
    ensures |ev| == 4 + |lists.preLighting| + |lists.postLighting| + |lists.transparent| + |lists.postEffect| + |lists.hud|
    ensures ev[0] == ClearComposite && ev[|ev| - 1] == Combine
  {
    [ClearComposite, BindCompositeWithDepth]
      + (Invocations(PreLighting, lists.preLighting)
      + ([RenderLights]
      + (Invocations(PostLighting, lists.postLighting)
      + (Invocations(Transparent, lists.transparent)
      + (Invocations(PostEffect, lists.postEffect)
      + (Invocations(HUD, lists.hud)
      + [Combine]))))))
  }

  /** OnPostRender. */
  function PostRenderEvents(lists: StageLists): (ev: seq<Event>)
    ensures |ev| == 2 * |lists.postGBuffer| + 4 + |lists.preLighting| + |lists.postLighting|
      + |lists.transparent| + |lists.postEffect| + |lists.hud|
    ensures ev[|ev| - 1] == Combine
  {
    InvocationsWithRebind(lists.postGBuffer) + LightingAndLater(lists)
  }

  /** The callbacks of stage s, in the order a trace invokes them. */
  function InvokedAt(ev: seq<Event>, s: Stage): seq<PriorityCallback>
  {
    if ev == [] then []
    else (if ev[0].Invoke? && ev[0].stage == s then [ev[0].callback] else []) + InvokedAt(ev[1..], s)
  }

  /** The stages of a trace's invocations, in order. */
  function InvokedStages(ev: seq<Event>): seq<Stage>
  {
    if ev == [] then []
    else (if ev[0].Invoke? then [ev[0].stage] else []) + InvokedStages(ev[1..])
  }

  /** n invocations of stage s in a row. */
  function Repeat(s: Stage, n: nat): (r: seq<Stage>)
    ensures |r| == n
  {
    if n == 0 then [] else [s] + Repeat(s, n - 1)
  }

  lemma {:induction false} RepeatIsConstant(s: Stage, n: nat)
    ensures forall i :: 0 <= i < n ==> Repeat(s, n)[i] == s
  {
    if n > 0 {
      RepeatIsConstant(s, n - 1);
      forall i | 1 <= i < n ensures Repeat(s, n)[i] == s {
        assert Repeat(s, n)[i] == Repeat(s, n - 1)[i - 1];
      }
    }
  }

  lemma {:induction false} InvokedAtAppend(a: seq<Event>, b: seq<Event>, s: Stage)
    ensures InvokedAt(a + b, s) == InvokedAt(a, s) + InvokedAt(b, s)
    decreases |a|
  {
    if a != [] {
      var h := if a[0].Invoke? && a[0].stage == s then [a[0].callback] else [];
      assert (a + b)[0] == a[0];
      assert (a + b)[1..] == a[1..] + b;
      InvokedAtAppend(a[1..], b, s);
      calc {
        InvokedAt(a + b, s);
        h + InvokedAt(a[1..] + b, s);
        h + (InvokedAt(a[1..], s) + InvokedAt(b, s));
        (h + InvokedAt(a[1..], s)) + InvokedAt(b, s);
      }
    } else {
      assert a + b == b;
    }
  }

  lemma {:induction false} InvokedStagesAppend(a: seq<Event>, b: seq<Event>)
    ensures InvokedStages(a + b) == InvokedStages(a) + InvokedStages(b)
    decreases |a|
  {
    if a != [] {
      var h := if a[0].Invoke? then [a[0].stage] else [];
      assert (a + b)[0] == a[0];
      assert (a + b)[1..] == a[1..] + b;
      InvokedStagesAppend(a[1..], b);
      calc {
        InvokedStages(a + b);
        h + InvokedStages(a[1..] + b);
        h + (InvokedStages(a[1..]) + InvokedStages(b));
        (h + InvokedStages(a[1..])) + InvokedStages(b);
      }
    } else {
      assert a + b == b;
    }
  }

  lemma InvokedAtCons(e: Event, rest: seq<Event>, s: Stage)
    ensures InvokedAt([e] + rest, s) == (if e.Invoke? && e.stage == s then [e.callback] else []) + InvokedAt(rest, s)
  {
    assert ([e] + rest)[0] == e;
    assert ([e] + rest)[1..] == rest;
  }

  lemma InvokedStagesCons(e: Event, rest: seq<Event>)
    ensures InvokedStages([e] + rest) == (if e.Invoke? then [e.stage] else []) + InvokedStages(rest)
  {
    assert ([e] + rest)[0] == e;
    assert ([e] + rest)[1..] == rest;
  }

  /** Invoking a list at one stage records exactly that list at that
      stage and nothing at the others. */
  lemma {:induction false} InvocationsInvoke(stage: Stage, l: seq<PriorityCallback>, s: Stage)
    ensures InvokedAt(Invocations(stage, l), s) == if s == stage then l else []
    decreases |l|
  {
    if l != [] {
      var rest := Invocations(stage, l[1..]);
      var h := if s == stage then [l[0]] else [];
      calc {
        InvokedAt(Invocations(stage, l), s);
        { assert Invocations(stage, l) == [Invoke(stage, l[0])] + rest; }
        InvokedAt([Invoke(stage, l[0])] + rest, s);
        { InvokedAtCons(Invoke(stage, l[0]), rest, s); }
        h + InvokedAt(rest, s);
        { InvocationsInvoke(stage, l[1..], s); }
        h + if s == stage then l[1..] else [];
        { assert l == [l[0]] + l[1..]; }
        if s == stage then l else [];
      }
    }
  }

  /** ... and as many invocations of that stage as the list is long. */
  lemma {:induction false} InvocationsStages(stage: Stage, l: seq<PriorityCallback>)
    ensures InvokedStages(Invocations(stage, l)) == Repeat(stage, |l|)
    decreases |l|
  {
    if l != [] {
      var rest := Invocations(stage, l[1..]);
      calc {
        InvokedStages(Invocations(stage, l));
        { assert Invocations(stage, l) == [Invoke(stage, l[0])] + rest; }
        InvokedStages([Invoke(stage, l[0])] + rest);
        { InvokedStagesCons(Invoke(stage, l[0]), rest); }
        [stage] + InvokedStages(rest);
        { InvocationsStages(stage, l[1..]); }
        [stage] + Repeat(stage, |l| - 1);
      }
    }
  }

  lemma {:induction false} InvocationsWithRebindInvoke(l: seq<PriorityCallback>, s: Stage)
    ensures InvokedAt(InvocationsWithRebind(l), s) == if s == PostGBuffer then l else []
    decreases |l|
  {
    if l != [] {
      var rest := InvocationsWithRebind(l[1..]);
      var h := if s == PostGBuffer then [l[0]] else [];
      calc {
        InvokedAt(InvocationsWithRebind(l), s);
        { assert InvocationsWithRebind(l) == [Invoke(PostGBuffer, l[0])] + ([BindGBuffer] + rest); }
        InvokedAt([Invoke(PostGBuffer, l[0])] + ([BindGBuffer] + rest), s);
        { InvokedAtCons(Invoke(PostGBuffer, l[0]), [BindGBuffer] + rest, s); }
        h + InvokedAt([BindGBuffer] + rest, s);
        { InvokedAtCons(BindGBuffer, rest, s); }
        h + InvokedAt(rest, s);
        { InvocationsWithRebindInvoke(l[1..], s); }
        h + if s == PostGBuffer then l[1..] else [];
        { assert l == [l[0]] + l[1..]; }
        if s == PostGBuffer then l else [];
      }
    }
  }

  lemma {:induction false} InvocationsWithRebindStages(l: seq<PriorityCallback>)
    ensures InvokedStages(InvocationsWithRebind(l)) == Repeat(PostGBuffer, |l|)
    decreases |l|
  {
    if l != [] {
      var rest := InvocationsWithRebind(l[1..]);
      calc {
        InvokedStages(InvocationsWithRebind(l));
        { assert InvocationsWithRebind(l) == [Invoke(PostGBuffer, l[0])] + ([BindGBuffer] + rest); }
        InvokedStages([Invoke(PostGBuffer, l[0])] + ([BindGBuffer] + rest));
        { InvokedStagesCons(Invoke(PostGBuffer, l[0]), [BindGBuffer] + rest); }
        [PostGBuffer] + InvokedStages([BindGBuffer] + rest);
        { InvokedStagesCons(BindGBuffer, rest); }
        [PostGBuffer] + InvokedStages(rest);
        { InvocationsWithRebindStages(l[1..]); }
        [PostGBuffer] + Repeat(PostGBuffer, |l| - 1);
      }
    }
  }

  /** A short trace piece with no invocation adds nothing to either projection. */
  lemma {:induction false} NoInvocations(ev: seq<Event>, rest: seq<Event>, s: Stage)
    requires forall i :: 0 <= i < |ev| ==> !ev[i].Invoke?
    ensures InvokedAt(ev + rest, s) == InvokedAt(rest, s)
    ensures InvokedStages(ev + rest) == InvokedStages(rest)
    decreases |ev|
  {
    if ev != [] {
      assert (ev + rest)[0] == ev[0];
      assert (ev + rest)[1..] == ev[1..] + rest;
      NoInvocations(ev[1..], rest, s);
    } else {
      assert ev + rest == rest;
    }
  }

  lemma InvocationsThenAt(stage: Stage, l: seq<PriorityCallback>, rest: seq<Event>, s: Stage)
    ensures InvokedAt(Invocations(stage, l) + rest, s) == (if s == stage then l else []) + InvokedAt(rest, s)
  {
    InvocationsInvoke(stage, l, s);
    InvokedAtAppend(Invocations(stage, l), rest, s);
  }

  lemma InvocationsThenStages(stage: Stage, l: seq<PriorityCallback>, rest: seq<Event>)
    ensures InvokedStages(Invocations(stage, l) + rest) == Repeat(stage, |l|) + InvokedStages(rest)
  {
    InvocationsStages(stage, l);
    InvokedStagesAppend(Invocations(stage, l), rest);
  }

  /** The part of OnPostRender after the post-G-buffer loop runs the
      pre-lighting, post-lighting, transparent, post-effect and HUD lists,
      each in its stored order. */
  lemma LightingAndLaterInvokes(lists: StageLists, s: Stage)
    ensures InvokedAt(LightingAndLater(lists), s)
         == if s == PreGBuffer || s == PostGBuffer then [] else lists.Get(s)
  {
    var r6 := Invocations(HUD, lists.hud) + [Combine];
    var r5 := Invocations(PostEffect, lists.postEffect) + r6;
    var r4 := Invocations(Transparent, lists.transparent) + r5;
    var r3 := Invocations(PostLighting, lists.postLighting) + r4;
    var r2 := [RenderLights] + r3;
    var r1 := Invocations(PreLighting, lists.preLighting) + r2;
    var h1 := if s == PreLighting then lists.preLighting else [];
    var h3 := if s == PostLighting then lists.postLighting else [];
    var h4 := if s == Transparent then lists.transparent else [];
    var h5 := if s == PostEffect then lists.postEffect else [];
    var h6 := if s == HUD then lists.hud else [];
    calc {
      InvokedAt(LightingAndLater(lists), s);
      { assert LightingAndLater(lists) == [ClearComposite, BindCompositeWithDepth] + r1;
        NoInvocations([ClearComposite, BindCompositeWithDepth], r1, s); }
      InvokedAt(r1, s);
      { InvocationsThenAt(PreLighting, lists.preLighting, r2, s);
        NoInvocations([RenderLights], r3, s); }
      h1 + InvokedAt(r3, s);
      { InvocationsThenAt(PostLighting, lists.postLighting, r4, s); }
      h1 + (h3 + InvokedAt(r4, s));
      { InvocationsThenAt(Transparent, lists.transparent, r5, s); }
      h1 + (h3 + (h4 + InvokedAt(r5, s)));
      { InvocationsThenAt(PostEffect, lists.postEffect, r6, s); }
      h1 + (h3 + (h4 + (h5 + InvokedAt(r6, s))));
      { InvocationsThenAt(HUD, lists.hud, [Combine], s);
        NoInvocations([Combine], [], s);
        assert [Combine] + [] == [Combine]; }
      h1 + (h3 + (h4 + (h5 + (h6 + InvokedAt([], s)))));
    }
  }

  /** ... and it runs them in that order, each as one block. */
  lemma LightingAndLaterStages(lists: StageLists)
    ensures InvokedStages(LightingAndLater(lists))
         == Repeat(PreLighting, |lists.preLighting|) + (Repeat(PostLighting, |lists.postLighting|)
          + (Repeat(Transparent, |lists.transparent|) + (Repeat(PostEffect, |lists.postEffect|)
          + Repeat(HUD, |lists.hud|))))
  {
    var r6 := Invocations(HUD, lists.hud) + [Combine];
    var r5 := Invocations(PostEffect, lists.postEffect) + r6;
    var r4 := Invocations(Transparent, lists.transparent) + r5;
    var r3 := Invocations(PostLighting, lists.postLighting) + r4;
    var r2 := [RenderLights] + r3;
    var r1 := Invocations(PreLighting, lists.preLighting) + r2;
    calc {
      InvokedStages(LightingAndLater(lists));
      { assert LightingAndLater(lists) == [ClearComposite, BindCompositeWithDepth] + r1;
        NoInvocations([ClearComposite, BindCompositeWithDepth], r1, HUD); }
      InvokedStages(r1);
      { InvocationsThenStages(PreLighting, lists.preLighting, r2);
        NoInvocations([RenderLights], r3, HUD); }
      Repeat(PreLighting, |lists.preLighting|) + InvokedStages(r3);
      { InvocationsThenStages(PostLighting, lists.postLighting, r4);
        InvocationsThenStages(Transparent, lists.transparent, r5);
        InvocationsThenStages(PostEffect, lists.postEffect, r6); }
      Repeat(PreLighting, |lists.preLighting|) + (Repeat(PostLighting, |lists.postLighting|)
        + (Repeat(Transparent, |lists.transparent|) + (Repeat(PostEffect, |lists.postEffect|)
        + InvokedStages(r6))));
      { InvocationsThenStages(HUD, lists.hud, [Combine]);
        NoInvocations([Combine], [], HUD);
        assert [Combine] + [] == [Combine];
        assert Repeat(HUD, |lists.hud|) + [] == Repeat(HUD, |lists.hud|); }
      Repeat(PreLighting, |lists.preLighting|) + (Repeat(PostLighting, |lists.postLighting|)
        + (Repeat(Transparent, |lists.transparent|) + (Repeat(PostEffect, |lists.postEffect|)
        + Repeat(HUD, |lists.hud|))));
    }
  }

  /** OnPostRender runs every list except the pre-G-buffer one, each in its
      stored (priority) order, and nothing else. */
  lemma PostRenderRunsEachListInOrder(lists: StageLists, s: Stage)
    ensures InvokedAt(PostRenderEvents(lists), s) == if s == PreGBuffer then [] else lists.Get(s)
  {
    InvocationsWithRebindInvoke(lists.postGBuffer, s);
    LightingAndLaterInvokes(lists, s);
    InvokedAtAppend(InvocationsWithRebind(lists.postGBuffer), LightingAndLater(lists), s);
  }

  /** OnPostRender's stages run in the fixed order post-G-buffer,
      pre-lighting, post-lighting, transparent, post-effect, HUD, each as one
      block as long as its list. */
  lemma PostRenderStageOrder(lists: StageLists)
    ensures InvokedStages(PostRenderEvents(lists))
         == Repeat(PostGBuffer, |lists.postGBuffer|) + (Repeat(PreLighting, |lists.preLighting|)
          + (Repeat(PostLighting, |lists.postLighting|) + (Repeat(Transparent, |lists.transparent|)
          + (Repeat(PostEffect, |lists.postEffect|) + Repeat(HUD, |lists.hud|)))))
  {
    InvocationsWithRebindStages(lists.postGBuffer);
    LightingAndLaterStages(lists);
    InvokedStagesAppend(InvocationsWithRebind(lists.postGBuffer), LightingAndLater(lists));
  }

  lemma {:induction false} NotInvokedMeansAbsent(ev: seq<Event>, s: Stage)
    requires InvokedAt(ev, s) == []
    ensures forall i :: 0 <= i < |ev| ==> !(ev[i].Invoke? && ev[i].stage == s)
    decreases |ev|
  {
    if ev != [] {
      NotInvokedMeansAbsent(ev[1..], s);
      forall i | 1 <= i < |ev| ensures !(ev[i].Invoke? && ev[i].stage == s) {
        assert ev[i] == ev[1..][i - 1];
      }
    }
  }

  /** The post-G-buffer loop followed by events that invoke no post-G-buffer
      callback: every post-G-buffer invocation is followed by a rebind. */
  lemma RebindFollowsEachPostGBufferCallback(l: seq<PriorityCallback>, rest: seq<Event>, ev: seq<Event>)
    requires forall i :: 0 <= i < |rest| ==> !(rest[i].Invoke? && rest[i].stage == PostGBuffer)
    requires ev == InvocationsWithRebind(l) + rest
    ensures forall i :: 0 <= i < |ev| && ev[i].Invoke? && ev[i].stage == PostGBuffer
                   ==> i + 1 < |ev| && ev[i + 1] == BindGBuffer
  {
    var a := InvocationsWithRebind(l);
    InvocationsWithRebindPositions(l);
    forall i | 0 <= i < |ev| && ev[i].Invoke? && ev[i].stage == PostGBuffer
      ensures i + 1 < |ev| && ev[i + 1] == BindGBuffer
    {
      if i < |a| {
        var k := i / 2;
        assert ev[i] == a[i];
        assert i == 2 * k || i == 2 * k + 1;
        assert i == 2 * k;
        assert ev[i + 1] == a[2 * k + 1];
      } else {
        assert false;
      }
    }
  }

  /** In OnPostRender, every post-G-buffer callback is immediately followed
      by a G-buffer rebind. */
  lemma PostRenderRebindsAfterEachPostGBufferCallback(lists: StageLists)
    ensures var ev := PostRenderEvents(lists);
      forall i :: 0 <= i < |ev| && ev[i].Invoke? && ev[i].stage == PostGBuffer
        ==> i + 1 < |ev| && ev[i + 1] == BindGBuffer
  {
    var rest := LightingAndLater(lists);
    assert PostRenderEvents(lists) == InvocationsWithRebind(lists.postGBuffer) + rest;
    LightingAndLaterInvokes(lists, PostGBuffer);
    NotInvokedMeansAbsent(rest, PostGBuffer);
    RebindFollowsEachPostGBufferCallback(lists.postGBuffer, rest, PostRenderEvents(lists));
  }

  /** OnPreRender invokes the pre-G-buffer list and nothing else, ahead of
      whatever follows it. */
  lemma PreRenderThen(lists: StageLists, post: seq<Event>)
    ensures InvokedStages(PreRenderEvents(lists) + post) == Repeat(PreGBuffer, |lists.preGBuffer|) + InvokedStages(post)
  {
    var head := [BindGBuffer, ClearGBuffer, DummyDraw];
    var pre := Invocations(PreGBuffer, lists.preGBuffer);
    assert PreRenderEvents(lists) + post == head + (pre + post);
    NoInvocations(head, pre + post, PreGBuffer);
    InvocationsThenStages(PreGBuffer, lists.preGBuffer, post);
  }

  /** A whole frame (OnPreRender's callbacks, then OnPostRender) invokes the
      seven stages in the order pre-G-buffer, post-G-buffer, pre-lighting,
      post-lighting, transparent, post-effect, HUD. */
  lemma FrameStageOrder(lists: StageLists)
    ensures InvokedStages(PreRenderEvents(lists) + PostRenderEvents(lists))
         == Repeat(PreGBuffer, |lists.preGBuffer|)
          + (Repeat(PostGBuffer, |lists.postGBuffer|) + (Repeat(PreLighting, |lists.preLighting|)
          + (Repeat(PostLighting, |lists.postLighting|) + (Repeat(Transparent, |lists.transparent|)
          + (Repeat(PostEffect, |lists.postEffect|) + Repeat(HUD, |lists.hud|))))))
  {
    PreRenderThen(lists, PostRenderEvents(lists));
    PostRenderStageOrder(lists);
  }
}
