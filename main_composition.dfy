/**
  The video's own schedule: ten scenes in playing order, joined by nine
  transitions of 12 frames each, every transition naming its blend effect and
  its timing curve. Checked here against the sequencer's rules, with the
  resolved length, every scene's start, and the scenes' reveal schedules seen
  against the frame at which each scene starts blending out.
 */
module MainComposition {
  import opened Timeline
  import opened Reveal
  import Scenes

  const TransitionDuration: nat := 12

  const SceneList: seq<Scene> := [
    Scene("hook", 90),
    Scene("amplify", 75),
    Scene("problem", 90),
    Scene("solutionIntro", 80),
    Scene("featureDemo", 120),
    Scene("benefits", 90),
    Scene("magicMoment", 100),
    Scene("stats", 90),
    Scene("tagline", 90),
    Scene("cta", 120)
  ]

  const TransitionList: seq<Transition> := [
    Transition(FlashBlack, Snappy, TransitionDuration),
    Transition(Glitch, Snappy, TransitionDuration),
    Transition(ZoomIn, Spring, TransitionDuration),
    Transition(SlideLeft, Smooth, TransitionDuration),
    Transition(WhipPan, Snappy, TransitionDuration),
    Transition(BlurDissolve, Smooth, TransitionDuration),
    Transition(ZoomOut, Spring, TransitionDuration),
    Transition(FlashBlack, Snappy, TransitionDuration),
    Transition(BlurDissolve, Smooth, TransitionDuration)
  ]

  const MainSeries: Series := Series(SceneList, TransitionList)

  /** The ten scene durations in order, all positive, totalling 945 frames. */
  lemma SceneDurationsAsDeclared()
    ensures |SceneList| == 10
    ensures forall k :: 0 <= k < |SceneList| ==>
      SceneList[k].duration == [90, 75, 90, 80, 120, 90, 100, 90, 90, 120][k]
    ensures forall k :: 0 <= k < |SceneList| ==> SceneList[k].duration > 0
    ensures SceneTotal(SceneList) == 945
  {
    assert SceneList[..0] == [];
    SceneTotalStep(SceneList, 0);
    SceneTotalStep(SceneList, 1);
    SceneTotalStep(SceneList, 2);
    SceneTotalStep(SceneList, 3);
    SceneTotalStep(SceneList, 4);
    SceneTotalStep(SceneList, 5);
    SceneTotalStep(SceneList, 6);
    SceneTotalStep(SceneList, 7);
    SceneTotalStep(SceneList, 8);
    SceneTotalStep(SceneList, 9);
    assert SceneList[..10] == SceneList;
  }

  /** Nine transitions, one per adjacent pair of scenes, each 12 frames and
      shorter than both neighbours (the shortest neighbour is 75); together
      they overlap 108 frames. */
  lemma TransitionsAsDeclared()
    ensures |TransitionList| == |SceneList| - 1 == 9
    ensures forall k :: 0 <= k < |TransitionList| ==> TransitionList[k].duration == 12
    ensures forall k :: 0 <= k < |SceneList| ==> SceneList[k].duration >= 75
    ensures TransitionTotal(TransitionList) == 108 == 9 * TransitionDuration
  {
    assert TransitionList[..0] == [];
    TransitionTotalStep(TransitionList, 0);
    TransitionTotalStep(TransitionList, 1);
    TransitionTotalStep(TransitionList, 2);
    TransitionTotalStep(TransitionList, 3);
    TransitionTotalStep(TransitionList, 4);
    TransitionTotalStep(TransitionList, 5);
    TransitionTotalStep(TransitionList, 6);
    TransitionTotalStep(TransitionList, 7);
    TransitionTotalStep(TransitionList, 8);
    assert TransitionList[..9] == TransitionList;
  }

  /** The video's series satisfies the sequencer's rules, and no scene is ever
      overlapped by two transitions at once. */
  lemma MainWellFormed()
    ensures WellFormed(MainSeries)
    ensures TransitionsSeparated(MainSeries)
  {
    TransitionsAsDeclared();
    forall k | 0 <= k < |MainSeries.transitions|
      ensures TransitionFits(MainSeries, k)
    {
    }
    forall k | 0 < k < |MainSeries.transitions|
      ensures SeparatedAt(MainSeries, k)
    {
    }
  }

  /** The resolved length is the scene total less the overlap total, 837 frames. */
  lemma MainLength()
    ensures WellFormed(MainSeries)
    ensures Length(MainSeries) == 945 - 9 * 12 == 837
  {
    MainWellFormed();
    SceneDurationsAsDeclared();
    TransitionsAsDeclared();
  }

  const ExpectedStarts: seq<nat> := [0, 78, 141, 219, 287, 395, 473, 561, 639, 717]

  /** Each scene's global start: scene 0 at 0, scene k + 1 at start(k) +
      duration(k) - 12; the last scene ends on the resolved length. */
  lemma MainStarts()
    ensures WellFormed(MainSeries)
    ensures forall k :: 0 <= k < |SceneList| ==> Start(MainSeries, k) == ExpectedStarts[k]
    ensures forall k :: 0 <= k && k + 1 < |SceneList| ==>
      Start(MainSeries, k + 1) == Start(MainSeries, k) + SceneList[k].duration - TransitionDuration
    ensures End(MainSeries, |SceneList| - 1) == Length(MainSeries)
  {
    MainWellFormed();
    MainLength();
    LengthIsLastEnd(MainSeries);
    assert Start(MainSeries, 1) == 78;
    assert Start(MainSeries, 2) == 141;
    assert Start(MainSeries, 3) == 219;
    assert Start(MainSeries, 4) == 287;
    assert Start(MainSeries, 5) == 395;
    assert Start(MainSeries, 6) == 473;
    assert Start(MainSeries, 7) == 561;
    assert Start(MainSeries, 8) == 639;
    assert Start(MainSeries, 9) == 717;
  }

  /** The start of one scene, without the whole table. */
  lemma MainStartAt(k: nat)
    requires k < |SceneList|
    ensures WellFormed(MainSeries)
    ensures Start(MainSeries, k) == ExpectedStarts[k]
  {
    MainStarts();
  }

  /** Local frame of scene k at which the next scene starts blending in. */
  function OutgoingFrom(k: nat): nat
    requires k + 1 < |SceneList|
  {
    SceneList[k].duration - TransitionDuration
  }

  /** Duration and transition of one scene, without the whole table. */
  lemma MainSceneAt(k: nat)
    requires k < |SceneList|
    ensures WellFormed(MainSeries) && TransitionsSeparated(MainSeries)
    ensures k + 1 < |MainSeries.scenes| ==> MainSeries.transitions[k].duration == TransitionDuration
    ensures k + 1 < |MainSeries.scenes| ==> MainSeries.scenes[k].duration == OutgoingFrom(k) + TransitionDuration
  {
    MainWellFormed();
    TransitionsAsDeclared();
  }

  /** What the frame lemmas need to know about transition k of the video. */
  lemma MainTransitionFacts(k: nat)
    requires k + 1 < |SceneList|
    ensures WellFormed(MainSeries) && TransitionsSeparated(MainSeries) && k + 1 < |MainSeries.scenes|
    ensures MainSeries.transitions[k].duration == TransitionDuration
    ensures MainSeries.scenes[k].duration == OutgoingFrom(k) + MainSeries.transitions[k].duration
    ensures Start(MainSeries, k + 1) == ExpectedStarts[k + 1]
  {
    MainSceneAt(k);
    MainStartAt(k + 1);
  }

  /** The e-th frame of the k-th transition, which falls at start + e with
      start the incoming scene's start, blends scene k, in its last 12 frames
      (from outgoing on), with scene k + 1, in its first 12. */
  lemma MainTransitionFrames(k: nat, e: nat, start: nat, outgoing: nat)
    requires k + 1 < |SceneList| && e < TransitionDuration
    requires start == ExpectedStarts[k + 1] && outgoing == OutgoingFrom(k)
    ensures WellFormed(MainSeries)
    ensures Resolve(MainSeries, start + e) == Some(Blend(k, k + 1, outgoing + e, e))
  {
    MainTransitionFacts(k);
    TransitionFrameAt(MainSeries, k, e, start, outgoing);
  }

  /** Outside the transitions, scene k is shown alone: from local frame 12
      (frame 0 for the first scene) up to the frame at which it starts blending
      out (its last frame for the final scene). */
  lemma MainSceneAloneFrames(k: nat, l: nat, start: nat)
    requires k < |SceneList| && l < SceneList[k].duration
    requires k > 0 ==> TransitionDuration <= l
    requires k + 1 < |SceneList| ==> l < OutgoingFrom(k)
    requires start == ExpectedStarts[k]
    ensures WellFormed(MainSeries)
    ensures Resolve(MainSeries, start + l) == Some(Single(k, l))
  {
    MainSceneAt(k);
    if k > 0 {
      MainSceneAt(k - 1);
    }
    MainStartAt(k);
    AloneFrameAt(MainSeries, k, l, start);
  }

  /** Every modelled gate, stagger and settling window of every scene has
      completed by the frame at which that scene starts blending out (by its
      last frame for the final scene), so no element is still hidden or moving
      in when the scene leaves. The two ambient drifts that never settle are
      stated in AmbientDriftOutlastsScene; the camera pushes are not modelled. */
  lemma RevealsCompleteBeforeSceneLeaves(wave: real, pulse: real)
    ensures Settled(OutgoingFrom(0), Scenes.Hook(OutgoingFrom(0)).backdrop.gridFade)
    ensures Settled(OutgoingFrom(1), Scenes.Amplify(OutgoingFrom(1)).backdrop.gridFade)
    ensures Scenes.Amplify(OutgoingFrom(1)).subtitle.opacity == 1
    ensures Scenes.Problem(OutgoingFrom(2), wave).subtitle.opacity == 1
    ensures Scenes.Problem(OutgoingFrom(2), wave).shakeX == 0.0
    ensures Settled(OutgoingFrom(3), Scenes.SolutionIntro(OutgoingFrom(3)).backdrop.gridFade)
    ensures Scenes.SolutionIntro(OutgoingFrom(3)).tagline.opacity == 1
    ensures Settled(OutgoingFrom(3), Scenes.SolutionIntro(OutgoingFrom(3)).logoScale)
    ensures Settled(OutgoingFrom(3), Scenes.SolutionIntro(OutgoingFrom(3)).logoOpacity)
    ensures Settled(OutgoingFrom(4), Scenes.FeatureDemo(OutgoingFrom(4)).mockupScale)
    ensures Settled(OutgoingFrom(4), Scenes.FeatureDemo(OutgoingFrom(4)).mockupY)
    ensures Scenes.FeatureDemo(OutgoingFrom(4)).rowOpacity == 1
    ensures forall i :: 0 <= i < |Scenes.BadgeLabels| ==> Scenes.FeatureDemo(OutgoingFrom(4)).badges[i].opacity == 1
    ensures Settled(OutgoingFrom(5), Scenes.Benefits(OutgoingFrom(5)).backdrop.gridFade)
    ensures forall i :: 0 <= i < |Scenes.BenefitTexts| ==>
      Settled(OutgoingFrom(5), Scenes.Benefits(OutgoingFrom(5)).cards[i].window)
    ensures Scenes.MagicMoment(OutgoingFrom(6)).headline.opacity == 1
    ensures Scenes.Stats(OutgoingFrom(7)).caption.opacity == 1
    ensures Scenes.Stats(OutgoingFrom(7)).rowOpacity == 1
    ensures forall i :: 0 <= i < Scenes.StarCount ==> Scenes.Stats(OutgoingFrom(7)).stars[i] == 1.0
    ensures Settled(OutgoingFrom(8), Scenes.Tagline(OutgoingFrom(8)).backdrop.gridFade)
    ensures Settled(SceneList[9].duration - 1, Scenes.Cta(SceneList[9].duration - 1, pulse).backdrop.gridFade)
    ensures Settled(SceneList[9].duration - 1, Scenes.Cta(SceneList[9].duration - 1, pulse).logoScale)
    ensures Scenes.Cta(SceneList[9].duration - 1, pulse).buttonOpacity == 1
    ensures Scenes.Cta(SceneList[9].duration - 1, pulse).subtextOpacity == 1
  {
    forall i | 0 <= i < |Scenes.BadgeLabels|
      ensures Scenes.FeatureDemo(OutgoingFrom(4)).badges[i].opacity == 1
    {
      Scenes.BadgesShownPrefix(OutgoingFrom(4), i);
    }
    Scenes.AllStarsLitFrom56(OutgoingFrom(7));
    Scenes.BenefitCardsOverlapAndSettle(OutgoingFrom(5), 0);
  }

  /** Two windows are ambient drifts that outlast their scene: the mockup's
      rotation is still moving when featureDemo starts blending out, and the
      image's slow zoom in magicMoment never settles within the scene. */
  lemma AmbientDriftOutlastsScene(l: nat)
    ensures !Settled(OutgoingFrom(4), Scenes.FeatureDemo(OutgoingFrom(4)).rotateY)
    ensures l < SceneList[6].duration ==> !Settled(l, Scenes.MagicMoment(l).imageScale)
  {
  }
}
