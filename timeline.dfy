/**
  The sequencer behind a transition series: an ordered list of scenes, each
  with an intrinsic duration in frames, joined by transitions that OVERLAP the
  tail of the outgoing scene and the head of the incoming one. A transition
  therefore takes frames away from the total instead of adding them: scene
  k + 1 starts at start(k) + duration(k) - transition(k), and the resolved
  length is the sum of the scene durations minus the sum of the transition
  durations.

  The series itself is implemented by a library that is not part of this
  model; what is modelled here is the arithmetic that the composition relies on.
 */
module Timeline {

  datatype Option<T> = None | Some(value: T)

  /** Names of the visual blend effects; opaque labels for the rendering engine. */
  datatype Presentation = FlashBlack | Glitch | ZoomIn | SlideLeft | WhipPan | BlurDissolve | ZoomOut

  /** Names of the timing curves that shape a blend; opaque labels as well. */
  datatype TimingCurve = Snappy | Spring | Smooth

  datatype Scene = Scene(name: string, duration: nat)

  datatype Transition = Transition(presentation: Presentation, timing: TimingCurve, duration: nat)

  /** Scenes in playing order; transitions[k] joins scenes[k] and scenes[k + 1]. */
  datatype Series = Series(scenes: seq<Scene>, transitions: seq<Transition>)

  /** A series the sequencer accepts: at least one scene, one transition between
      each adjacent pair, positive durations, and no transition as long as
      either of its neighbours. */
  predicate WellFormed(s: Series) {
    && |s.scenes| > 0
    && |s.transitions| == |s.scenes| - 1
    && (forall k :: 0 <= k < |s.scenes| ==> s.scenes[k].duration > 0)
    && (forall k :: 0 <= k < |s.transitions| ==> TransitionFits(s, k))
  }

  /** Transition k is positive and shorter than both scenes it joins. */
  predicate TransitionFits(s: Series, k: nat)
    requires k < |s.transitions| && |s.transitions| < |s.scenes|
  {
    0 < s.transitions[k].duration < s.scenes[k].duration
    && s.transitions[k].duration < s.scenes[k + 1].duration
  }

  /** No scene is overlapped by its incoming and its outgoing transition at the
      same frame, so at most two scenes are ever on screen together. */
  predicate TransitionsSeparated(s: Series)
    requires WellFormed(s)
  {
    forall k :: 0 < k < |s.transitions| ==> SeparatedAt(s, k)
  }

  /** Scene k is at least as long as its incoming and outgoing transitions together. */
  predicate SeparatedAt(s: Series, k: nat)
    requires 0 < k < |s.transitions| < |s.scenes|
  {
    s.transitions[k - 1].duration + s.transitions[k].duration <= s.scenes[k].duration
  }

  function SceneTotal(scenes: seq<Scene>): nat {
    if scenes == [] then 0
    else SceneTotal(scenes[..|scenes| - 1]) + scenes[|scenes| - 1].duration
  }

  function TransitionTotal(transitions: seq<Transition>): nat {
    if transitions == [] then 0
    else TransitionTotal(transitions[..|transitions| - 1]) + transitions[|transitions| - 1].duration
  }

  lemma SceneTotalStep(scenes: seq<Scene>, k: nat)
    requires k < |scenes|
    ensures SceneTotal(scenes[..k + 1]) == SceneTotal(scenes[..k]) + scenes[k].duration
  {
    assert scenes[..k + 1][..k] == scenes[..k];
  }

  lemma TransitionTotalStep(transitions: seq<Transition>, k: nat)
    requires k < |transitions|
    ensures TransitionTotal(transitions[..k + 1]) == TransitionTotal(transitions[..k]) + transitions[k].duration
  {
    assert transitions[..k + 1][..k] == transitions[..k];
  }

  /** Global frame at which scene k starts: each earlier scene contributes its
      duration less the transition that leads out of it, which is at least one
      frame, so scene k never starts before frame k. */
  function Start(s: Series, k: nat): (r: nat)
    requires WellFormed(s) && k < |s.scenes|
    ensures k <= r
    decreases k
  {
    if k == 0 then 0
    else
      assert TransitionFits(s, k - 1);
      Start(s, k - 1) + s.scenes[k - 1].duration - s.transitions[k - 1].duration
  }

  /** One step of Start, with the bounds on the transition it crosses. */
  lemma Step(s: Series, k: nat)
    requires WellFormed(s) && k + 1 < |s.scenes|
    ensures Start(s, k + 1) == Start(s, k) + s.scenes[k].duration - s.transitions[k].duration
    ensures 0 < s.transitions[k].duration < s.scenes[k].duration
    ensures s.transitions[k].duration < s.scenes[k + 1].duration
  {
    assert TransitionFits(s, k);
  }

  /** The start of scene k in closed form: the durations of the scenes before it
      less the transitions before it. */
  lemma {:induction false} StartIsPrefixDifference(s: Series, k: nat)
    requires WellFormed(s) && k < |s.scenes|
    ensures Start(s, k) == SceneTotal(s.scenes[..k]) - TransitionTotal(s.transitions[..k])
    decreases k
  {
    if k > 0 {
      StartIsPrefixDifference(s, k - 1);
      SceneTotalStep(s.scenes, k - 1);
      TransitionTotalStep(s.transitions, k - 1);
    }
  }

  /** First global frame after scene k. */
  function End(s: Series, k: nat): nat
    requires WellFormed(s) && k < |s.scenes|
  {
    Start(s, k) + s.scenes[k].duration
  }

  /** Scene k is on screen at global frame f. */
  predicate Contains(s: Series, k: nat, f: nat)
    requires WellFormed(s) && k < |s.scenes|
  {
    Start(s, k) <= f < End(s, k)
  }

  /** Duration conservation: the scene total less the overlap total is exactly
      the frame at which the last scene ends, so it is positive. */
  lemma TotalsMeetLastEnd(s: Series)
    requires WellFormed(s)
    ensures SceneTotal(s.scenes) - TransitionTotal(s.transitions) == End(s, |s.scenes| - 1) > 0
  {
    var last := |s.scenes| - 1;
    StartIsPrefixDifference(s, last);
    assert s.scenes[..last + 1] == s.scenes;
    assert s.transitions[..last] == s.transitions;
  }

  /** Resolved length of the series: the scene total less the overlap total.
      It is where the last scene ends, so every frame before it is covered. */
  function Length(s: Series): (r: int)
    requires WellFormed(s)
    ensures r >= s.scenes[|s.scenes| - 1].duration > 0
  {
    TotalsMeetLastEnd(s);
    SceneTotal(s.scenes) - TransitionTotal(s.transitions)
  }

  /** The resolved length is exactly the frame at which the last scene ends. */
  lemma LengthIsLastEnd(s: Series)
    requires WellFormed(s)
    ensures Length(s) == End(s, |s.scenes| - 1)
  {
    TotalsMeetLastEnd(s);
  }

  lemma {:induction false} StartsIncrease(s: Series, j: nat, k: nat)
    requires WellFormed(s) && j < k < |s.scenes|
    ensures Start(s, j) < Start(s, k)
    decreases k
  {
    Step(s, k - 1);
    if j < k - 1 {
      StartsIncrease(s, j, k - 1);
    }
  }

  lemma {:induction false} EndsIncrease(s: Series, j: nat, k: nat)
    requires WellFormed(s) && j < k < |s.scenes|
    ensures End(s, j) < End(s, k)
    decreases k
  {
    Step(s, k - 1);
    if j < k - 1 {
      EndsIncrease(s, j, k - 1);
    }
  }

  /** Every scene ends within the resolved length. */
  lemma EveryEndWithinLength(s: Series, k: nat)
    requires WellFormed(s) && k < |s.scenes|
    ensures End(s, k) <= Length(s)
  {
    LengthIsLastEnd(s);
    if k < |s.scenes| - 1 {
      EndsIncrease(s, k, |s.scenes| - 1);
    }
  }

  /** The latest scene at index k or above that has started by frame f. */
  function SceneAt(s: Series, f: nat, k: nat): (j: nat)
    requires WellFormed(s) && k < |s.scenes| && Start(s, k) <= f
    ensures k <= j < |s.scenes| && Start(s, j) <= f
    ensures j + 1 < |s.scenes| ==> f < Start(s, j + 1)
    decreases |s.scenes| - k
  {
    if k + 1 < |s.scenes| && Start(s, k + 1) <= f then SceneAt(s, f, k + 1) else k
  }

  /** What the sequencer shows at one global frame: one scene at its local
      frame, or an outgoing and an incoming scene being blended, each at its own
      local frame. The incoming scene's local frame is also the number of frames
      the blend has run. */
  datatype Active =
    | Single(scene: nat, local: nat)
    | Blend(outgoing: nat, incoming: nat, outgoingLocal: nat, incomingLocal: nat)

  /** a is a correct account of frame f: every scene named is on screen at f,
      at the local frame named, and a blend lies inside the transition between
      two adjacent scenes. */
  predicate Shows(s: Series, f: nat, a: Active)
    requires WellFormed(s)
  {
    match a
    case Single(k, l) =>
      k < |s.scenes| && Start(s, k) + l == f && l < s.scenes[k].duration
    case Blend(o, i, lo, li) =>
      && i == o + 1 && i < |s.scenes|
      && Start(s, o) + lo == f && lo < s.scenes[o].duration
      && Start(s, i) + li == f && li < s.transitions[o].duration
  }

  /** a puts scene k on screen at local frame l. */
  predicate Involves(a: Active, k: nat, l: nat) {
    match a
    case Single(j, m) => j == k && m == l
    case Blend(o, i, lo, li) => (o == k && lo == l) || (i == k && li == l)
  }

  /** Global frame to scene(s) and local frame(s). Frames at or past the
      resolved length belong to no scene. */
  function Resolve(s: Series, f: nat): (r: Option<Active>)
    requires WellFormed(s)
    ensures r.Some? <==> f < Length(s)
    ensures r.Some? ==> Shows(s, f, r.value)
  {
    if f >= Length(s) then None
    else
      LatestIsOnScreen(s, f);
      var k := SceneAt(s, f, 0);
      if k > 0 && f < End(s, k - 1) then
        Step(s, k - 1);
        Some(Blend(k - 1, k, f - Start(s, k - 1), f - Start(s, k)))
      else
        Some(Single(k, f - Start(s, k)))
  }

  /** Within the resolved length, the latest scene to have started is still on screen. */
  lemma LatestIsOnScreen(s: Series, f: nat)
    requires WellFormed(s) && f < Length(s)
    ensures Contains(s, SceneAt(s, f, 0), f)
  {
    LengthIsLastEnd(s);
    var k := SceneAt(s, f, 0);
    if k + 1 < |s.scenes| {
      Step(s, k);
    }
  }

  /** Frame 0 shows the first scene at its first frame. */
  lemma ResolveFirstFrame(s: Series)
    requires WellFormed(s)
    ensures Resolve(s, 0) == Some(Single(0, 0))
  {
    LengthIsLastEnd(s);
    if |s.scenes| > 1 {
      Step(s, 0);
    }
  }

  /** The last frame of the series shows the last scene alone, at its last frame. */
  lemma ResolveLastFrame(s: Series)
    requires WellFormed(s)
    ensures Length(s) > 0
    ensures Resolve(s, Length(s) - 1) == Some(Single(|s.scenes| - 1, s.scenes[|s.scenes| - 1].duration - 1))
  {
    var n := |s.scenes|;
    LengthIsLastEnd(s);
    var f := Length(s) - 1;
    var k := SceneAt(s, f, 0);
    if k < n - 1 {
      if k + 1 < n - 1 {
        StartsIncrease(s, k + 1, n - 1);
      }
      assert false;
    }
    if k > 0 {
      EndsIncrease(s, k - 1, k);
    }
  }

  /** When one scene is shown alone, no other scene is on screen at that frame. */
  lemma SingleIsExclusive(s: Series, f: nat, j: nat)
    requires WellFormed(s) && Resolve(s, f).Some? && Resolve(s, f).value.Single?
    requires j < |s.scenes| && j != Resolve(s, f).value.scene
    ensures !Contains(s, j, f)
  {
    LengthIsLastEnd(s);
    var k := SceneAt(s, f, 0);
    assert Resolve(s, f).value.scene == k;
    if j > k {
      if j > k + 1 {
        StartsIncrease(s, k + 1, j);
      }
    } else if j < k - 1 {
      EndsIncrease(s, j, k - 1);
    }
  }

  /** Scene j, the latest to have started by frame f, is at least scene k when
      scene k has started, and at most scene k + 1 while scene k is still on
      screen, when transitions are separated. */
  lemma SceneAtNear(s: Series, f: nat, k: nat)
    requires WellFormed(s) && TransitionsSeparated(s)
    requires k < |s.scenes| && Contains(s, k, f)
    ensures k <= SceneAt(s, f, 0) <= k + 1
  {
    var j := SceneAt(s, f, 0);
    if j < k {
      if j + 1 < k {
        StartsIncrease(s, j + 1, k);
      }
      assert false;
    }
    if j > k + 1 {
      Step(s, k);
      Step(s, k + 1);
      assert SeparatedAt(s, k + 1);
      if j > k + 2 {
        StartsIncrease(s, k + 2, j);
      }
      assert false;
    }
  }

  /** Frame f of scene k resolves to a state involving scene k whenever the
      latest scene started by f is k or k + 1. */
  lemma InvolvesWhenNear(s: Series, f: nat, k: nat)
    requires WellFormed(s) && k < |s.scenes| && Contains(s, k, f) && f < Length(s)
    requires SceneAt(s, f, 0) == k || SceneAt(s, f, 0) == k + 1
    ensures Resolve(s, f).Some? && Involves(Resolve(s, f).value, k, f - Start(s, k))
  {
  }

  /** With separated transitions, every scene on screen at frame f is reported
      by the resolver, at its own local frame. */
  lemma ResolveCovers(s: Series, f: nat, k: nat)
    requires WellFormed(s) && TransitionsSeparated(s)
    requires k < |s.scenes| && Contains(s, k, f)
    ensures f < Length(s)
    ensures Resolve(s, f).Some? && Involves(Resolve(s, f).value, k, f - Start(s, k))
  {
    EveryEndWithinLength(s, k);
    SceneAtNear(s, f, k);
    InvolvesWhenNear(s, f, k);
  }

  /** A frame that scene k + 1 has reached while scene k is still on screen
      resolves to the blend of the two. */
  lemma BlendWhenOverlapping(s: Series, f: nat, k: nat)
    requires WellFormed(s) && k + 1 < |s.scenes| && Contains(s, k, f) && f < Length(s)
    requires SceneAt(s, f, 0) == k + 1
    ensures Resolve(s, f).Some? && Resolve(s, f).value == Blend(k, k + 1, f - Start(s, k), f - Start(s, k + 1))
  {
  }

  /** With separated transitions, a frame f inside transition k (the first
      t_k frames of scene k + 1) is a blend of scenes k and k + 1; the outgoing
      scene is as far into the final t_k frames of its duration as the
      incoming scene is into its own. */
  lemma ResolveInTransition(s: Series, k: nat, f: nat)
    requires WellFormed(s) && TransitionsSeparated(s) && k + 1 < |s.scenes|
    requires Start(s, k + 1) <= f < Start(s, k + 1) + s.transitions[k].duration
    ensures Contains(s, k, f) && Contains(s, k + 1, f)
    ensures Resolve(s, f).Some? && Resolve(s, f).value.Blend?
    ensures Resolve(s, f).value == Blend(k, k + 1, f - Start(s, k), f - Start(s, k + 1))
    ensures Resolve(s, f).value.outgoingLocal + s.transitions[k].duration
      == s.scenes[k].duration + Resolve(s, f).value.incomingLocal
  {
    InTransitionLatestIsIncoming(s, k, f);
    BlendWhenOverlapping(s, f, k);
  }

  /** During transition k, scene k is still on screen and scene k + 1 is the
      latest scene to have started. */
  lemma InTransitionLatestIsIncoming(s: Series, k: nat, f: nat)
    requires WellFormed(s) && TransitionsSeparated(s) && k + 1 < |s.scenes|
    requires Start(s, k + 1) <= f < Start(s, k + 1) + s.transitions[k].duration
    ensures Contains(s, k, f) && Contains(s, k + 1, f) && f < Length(s)
    ensures Start(s, k + 1) + s.transitions[k].duration == End(s, k)
    ensures SceneAt(s, f, 0) == k + 1
  {
    Step(s, k);
    EveryEndWithinLength(s, k);
    SceneAtNear(s, f, k);
  }

  /** Scene k is the latest to have started exactly on the frames from its own
      start up to the start of the next scene. */
  lemma SceneAtIs(s: Series, f: nat, k: nat)
    requires WellFormed(s) && k < |s.scenes| && Start(s, k) <= f
    requires k + 1 < |s.scenes| ==> f < Start(s, k + 1)
    ensures SceneAt(s, f, 0) == k
  {
    var j := SceneAt(s, f, 0);
    if j < k {
      if j + 1 < k {
        StartsIncrease(s, j + 1, k);
      }
      assert false;
    }
    if j > k {
      if k + 1 < j {
        StartsIncrease(s, k + 1, j);
      }
      assert false;
    }
  }

  /** Between the end of its incoming transition and the start of its outgoing
      one, scene k is shown alone at its own local frame. */
  lemma ResolveAlone(s: Series, k: nat, f: nat)
    requires WellFormed(s) && k < |s.scenes| && Start(s, k) <= f < End(s, k)
    requires k > 0 ==> Start(s, k) + s.transitions[k - 1].duration <= f
    requires k + 1 < |s.scenes| ==> f < Start(s, k + 1)
    ensures Resolve(s, f) == Some(Single(k, f - Start(s, k)))
  {
    SceneAtIs(s, f, k);
    EveryEndWithinLength(s, k);
    if k > 0 {
      Step(s, k - 1);
    }
  }

  /** Build-time configuration errors, each naming the offending index. */
  datatype ConfigError =
    | EmptySceneList
    | TransitionCountMismatch(sceneCount: nat, transitionCount: nat)
    | NonPositiveSceneDuration(scene: nat)
    | NonPositiveTransitionDuration(transition: nat)
    | TransitionTooLong(transition: nat)

  /** Transition k of any series, read off a known start and a known
      outgoing offset. */
  lemma TransitionFrameAt(s: Series, k: nat, e: nat, start: nat, outgoing: nat)
    requires WellFormed(s) && TransitionsSeparated(s) && k + 1 < |s.scenes|
    requires e < s.transitions[k].duration
    requires Start(s, k + 1) == start && s.scenes[k].duration == outgoing + s.transitions[k].duration
    ensures Resolve(s, start + e) == Some(Blend(k, k + 1, outgoing + e, e))
  {
    var f := start + e;
    Step(s, k);
    assert f - Start(s, k) == outgoing + e;
    ResolveInTransition(s, k, f);
  }

  /** Scene k of any series shown alone at local frame l, read off a known start. */
  lemma AloneFrameAt(s: Series, k: nat, l: nat, start: nat)
    requires WellFormed(s) && k < |s.scenes| && l < s.scenes[k].duration && Start(s, k) == start
    requires k > 0 ==> s.transitions[k - 1].duration <= l
    requires k + 1 < |s.scenes| ==> l + s.transitions[k].duration < s.scenes[k].duration
    ensures Resolve(s, start + l) == Some(Single(k, l))
  {
    if k + 1 < |s.scenes| {
      Step(s, k);
    }
    ResolveAlone(s, k, start + l);
  }

  /** Index of the first scene at or after i whose duration is zero. */
  function FirstEmptyScene(scenes: seq<Scene>, i: nat): (r: Option<nat>)
    requires i <= |scenes|
    ensures r.None? <==> forall k :: i <= k < |scenes| ==> scenes[k].duration > 0
    ensures r.Some? ==> i <= r.value < |scenes| && scenes[r.value].duration == 0
    ensures r.Some? ==> forall k :: i <= k < r.value ==> scenes[k].duration > 0
    decreases |scenes| - i
  {
    if i == |scenes| then None
    else if scenes[i].duration == 0 then Some(i)
    else FirstEmptyScene(scenes, i + 1)
  }

  /** Index of the first transition at or after i that does not fit between its neighbours. */
  function FirstMisfitTransition(s: Series, i: nat): (r: Option<nat>)
    requires |s.transitions| < |s.scenes| && i <= |s.transitions|
    ensures r.None? <==> forall k :: i <= k < |s.transitions| ==> TransitionFits(s, k)
    ensures r.Some? ==> i <= r.value < |s.transitions| && !TransitionFits(s, r.value)
    ensures r.Some? ==> forall k :: i <= k < r.value ==> TransitionFits(s, k)
    decreases |s.transitions| - i
  {
    if i == |s.transitions| then None
    else if !TransitionFits(s, i) then Some(i)
    else FirstMisfitTransition(s, i + 1)
  }

  /** The build-time check: None when the series is well formed, otherwise the
      first problem found, with the scene or transition it concerns. */
  function Validate(s: Series): (r: Option<ConfigError>)
    ensures r.None? <==> WellFormed(s)
    ensures r == Some(EmptySceneList) ==> |s.scenes| == 0
    ensures r.Some? && r.value.TransitionCountMismatch? ==>
      r.value.sceneCount == |s.scenes| && r.value.transitionCount == |s.transitions| != |s.scenes| - 1
    ensures r.Some? && r.value.NonPositiveSceneDuration? ==>
      r.value.scene < |s.scenes| && s.scenes[r.value.scene].duration == 0
    ensures r.Some? && r.value.NonPositiveTransitionDuration? ==>
      r.value.transition < |s.transitions| && s.transitions[r.value.transition].duration == 0
    ensures r.Some? && r.value.TransitionTooLong? ==>
      && r.value.transition < |s.transitions| == |s.scenes| - 1
      && (s.transitions[r.value.transition].duration >= s.scenes[r.value.transition].duration
          || s.transitions[r.value.transition].duration >= s.scenes[r.value.transition + 1].duration)
  {
    if |s.scenes| == 0 then Some(EmptySceneList)
    else if |s.transitions| != |s.scenes| - 1 then
      Some(TransitionCountMismatch(|s.scenes|, |s.transitions|))
    else
      match FirstEmptyScene(s.scenes, 0)
      case Some(k) => Some(NonPositiveSceneDuration(k))
      case None =>
        match FirstMisfitTransition(s, 0)
        case Some(k) =>
          if s.transitions[k].duration == 0 then Some(NonPositiveTransitionDuration(k))
          else Some(TransitionTooLong(k))
        case None => None
  }
}
