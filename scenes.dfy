/**
  The integer part of each scene's render state, as a function of the scene's
  local frame. Every scene is stateless: the same frame always yields the same
  state. Values computed by the interpolation primitive or by trigonometry are
  not modelled; the frame windows handed to the primitive are, and a sine value
  the scene uses enters as a parameter.
 */
module Scenes {
  import opened Reveal

  /** A text block whose wrapper is shown by a frame gate and whose words or
      characters are revealed by a primitive started at revealFrom. */
  datatype TextBlock = TextBlock(opacity: nat, revealFrom: nat)

  /** The scene's backdrop. The dark one fades its grid in over a frame window
      (its drifting orbs are trigonometric and not modelled); the light one has
      no animated part; a scene may draw neither. */
  datatype Backdrop = Dark(gridFade: Window) | Light | NoBackdrop

  const DarkBackdrop: Backdrop := Dark(Window(0, 30))

  // ------------------------------------------------------------------- Hook

  /** The hook's only integer part is its backdrop; its text is a stream primitive. */
  datatype HookState = HookState(backdrop: Backdrop)

  function Hook(frame: nat): (r: HookState)
    ensures r.backdrop.Dark? && ValidWindow(r.backdrop.gridFade)
  {
    HookState(DarkBackdrop)
  }

  // ---------------------------------------------------------------- Amplify

  datatype AmplifyState = AmplifyState(backdrop: Backdrop, subtitle: TextBlock)

  function Amplify(frame: nat): (r: AmplifyState)
    ensures r.backdrop.Dark? && ValidWindow(r.backdrop.gridFade)
    ensures r.subtitle.revealFrom == 25
    ensures r.subtitle.opacity == 1 <==> frame >= r.subtitle.revealFrom
    ensures r.subtitle.opacity == 0 <==> frame < r.subtitle.revealFrom
  {
    AmplifyState(DarkBackdrop, TextBlock(GateOpacity(frame, 25), 25))
  }

  // ---------------------------------------------------------------- Problem

  /** shakeX is the horizontal jitter in pixels; wave stands for the sine of
      frame * 0.8, which the scene scales by 2. */
  datatype ProblemState = ProblemState(backdrop: Backdrop, shakeX: real, subtitle: TextBlock)

  function Problem(frame: nat, wave: real): (r: ProblemState)
    ensures r.backdrop.Light?
    ensures r.subtitle.revealFrom == 30
    ensures r.subtitle.opacity == 1 <==> frame >= r.subtitle.revealFrom
    ensures r.subtitle.opacity == 0 <==> frame < r.subtitle.revealFrom
    ensures frame >= 45 ==> r.shakeX == 0.0
  {
    ProblemState(Light, if frame < 45 then wave * 2.0 else 0.0, TextBlock(GateOpacity(frame, 30), 30))
  }

  // ---------------------------------------------------------- SolutionIntro

  datatype SolutionIntroState = SolutionIntroState(
    backdrop: Backdrop, logoScale: Window, logoOpacity: Window, tagline: TextBlock)

  function SolutionIntro(frame: nat): (r: SolutionIntroState)
    ensures r.backdrop.Dark? && ValidWindow(r.backdrop.gridFade)
    ensures r.logoScale == Window(0, 20) && r.logoOpacity == Window(0, 15)
    ensures ValidWindow(r.logoScale) && ValidWindow(r.logoOpacity)
    ensures r.tagline.revealFrom == 25
    ensures r.logoOpacity.end < r.tagline.revealFrom && r.logoScale.end < r.tagline.revealFrom
    ensures r.tagline.opacity == 1 <==> frame >= r.tagline.revealFrom
    ensures r.tagline.opacity == 0 <==> frame < r.tagline.revealFrom
  {
    SolutionIntroState(DarkBackdrop, Window(0, 20), Window(0, 15), TextBlock(GateOpacity(frame, 25), 25))
  }

  // ------------------------------------------------------------ FeatureDemo

  datatype Badge = Badge(text: string, opacity: nat, offsetY: nat)

  const BadgeLabels: seq<string> := ["Keyword Research", "SERP Analysis", "Auto-Publish"]

  /** The badge row as a whole, then each badge staggered by 8 frames from frame 40. */
  datatype FeatureDemoState = FeatureDemoState(
    backdrop: Backdrop, mockupScale: Window, mockupY: Window, rotateY: Window,
    rowOpacity: nat, rowOffsetY: nat, badges: seq<Badge>)

  function FeatureBadge(frame: nat, i: nat): (b: Badge)
    requires i < |BadgeLabels|
    ensures b.text == BadgeLabels[i]
    ensures b.opacity == 1 <==> frame >= Delay(40, 8, i)
    ensures b.opacity == 0 <==> frame < Delay(40, 8, i)
    ensures b.offsetY == 0 <==> b.opacity == 1
    ensures b.offsetY == 10 <==> b.opacity == 0
  {
    Badge(BadgeLabels[i], GateOpacity(frame, 40 + i * 8), GateOffset(frame, 40 + i * 8, 10))
  }

  function FeatureDemo(frame: nat): (r: FeatureDemoState)
    ensures r.backdrop.Light?
    ensures r.mockupScale == r.mockupY == Window(0, 25) && r.rotateY == Window(0, 120)
    ensures ValidWindow(r.mockupScale) && ValidWindow(r.mockupY) && ValidWindow(r.rotateY)
    ensures |r.badges| == |BadgeLabels|
    ensures forall i :: 0 <= i < |BadgeLabels| ==> r.badges[i] == FeatureBadge(frame, i)
    ensures r.rowOpacity == 1 <==> frame >= Delay(40, 8, 0)
    ensures r.rowOpacity == 0 <==> frame < Delay(40, 8, 0)
    ensures r.rowOffsetY == (if frame >= 40 then 0 else 20)
  {
    FeatureDemoState(
      Light, Window(0, 25), Window(0, 25), Window(0, 120),
      GateOpacity(frame, 40), GateOffset(frame, 40, 20),
      seq(|BadgeLabels|, i requires 0 <= i < |BadgeLabels| => FeatureBadge(frame, i)))
  }

  // --------------------------------------------------------------- Benefits

  /** Each card fades and slides in over the window [delay, delay + 15]. */
  datatype Card = Card(icon: string, text: string, window: Window)

  const BenefitTexts: seq<string> := ["10x Faster Content", "SEO-Optimized", "Auto Publishing"]
  const BenefitIcons: seq<string> := ["⚡", "🎯", "🔄"]

  datatype BenefitsState = BenefitsState(backdrop: Backdrop, cards: seq<Card>)

  function BenefitCard(i: nat): (c: Card)
    requires i < |BenefitTexts|
    ensures c.icon == BenefitIcons[i] && c.text == BenefitTexts[i]
    ensures c.window.start == Delay(20, 12, i) && c.window.end == c.window.start + 15
  {
    var delay := 20 + i * 12;
    Card(BenefitIcons[i], BenefitTexts[i], Window(delay, delay + 15))
  }

  function Benefits(frame: nat): (r: BenefitsState)
    ensures r.backdrop.Dark? && ValidWindow(r.backdrop.gridFade)
    ensures |r.cards| == |BenefitTexts|
    ensures forall i :: 0 <= i < |BenefitTexts| ==> r.cards[i] == BenefitCard(i)
  {
    BenefitsState(DarkBackdrop, seq(|BenefitTexts|, i requires 0 <= i < |BenefitTexts| => BenefitCard(i)))
  }

  // ----------------------------------------------------------- MagicMoment

  /** The full-bleed image drifts in scale over [0, 120]; the scene draws no backdrop. */
  datatype MagicMomentState = MagicMomentState(backdrop: Backdrop, imageScale: Window, headline: TextBlock)

  function MagicMoment(frame: nat): (r: MagicMomentState)
    ensures r.backdrop.NoBackdrop?
    ensures r.imageScale == Window(0, 120) && r.headline.revealFrom == 15
    ensures ValidWindow(r.imageScale)
    ensures !Settled(frame, r.imageScale) <==> frame < 120
    ensures r.headline.opacity == 1 <==> frame >= r.headline.revealFrom
    ensures r.headline.opacity == 0 <==> frame < r.headline.revealFrom
  {
    MagicMomentState(NoBackdrop, Window(0, 120), TextBlock(GateOpacity(frame, 15), 15))
  }

  // ----------------------------------------------------------------- Stats

  /** The star row as a whole, then five stars lit one by one every 4 frames
      from frame 40; an unlit star is dimmed to 0.3. */
  datatype StatsState = StatsState(
    backdrop: Backdrop, caption: TextBlock, rowOpacity: nat, rowOffsetY: nat, stars: seq<real>)

  const StarCount: nat := 5

  function StarOpacity(frame: nat, i: nat): (o: real)
    ensures o == 1.0 <==> frame >= Delay(40, 4, i)
    ensures o == 0.3 <==> frame < Delay(40, 4, i)
  {
    if frame >= 40 + i * 4 then 1.0 else 0.3
  }

  function Stats(frame: nat): (r: StatsState)
    ensures r.backdrop.Light?
    ensures r.caption.revealFrom == 20
    ensures r.caption.opacity == 1 <==> frame >= r.caption.revealFrom
    ensures r.caption.opacity == 0 <==> frame < r.caption.revealFrom
    ensures |r.stars| == StarCount
    ensures forall i :: 0 <= i < StarCount ==> r.stars[i] == StarOpacity(frame, i)
    ensures r.rowOpacity == 1 <==> frame >= Delay(40, 4, 0)
    ensures r.rowOpacity == 0 <==> frame < Delay(40, 4, 0)
    ensures r.rowOffsetY == (if frame >= 40 then 0 else 15)
  {
    StatsState(
      Light,
      TextBlock(GateOpacity(frame, 20), 20),
      GateOpacity(frame, 40), GateOffset(frame, 40, 15),
      seq(StarCount, i requires 0 <= i < StarCount => StarOpacity(frame, i)))
  }

  // ---------------------------------------------------------------- Tagline

  /** Like the hook, the tagline's only integer part is its backdrop. */
  datatype TaglineState = TaglineState(backdrop: Backdrop)

  function Tagline(frame: nat): (r: TaglineState)
    ensures r.backdrop.Dark? && ValidWindow(r.backdrop.gridFade)
  {
    TaglineState(DarkBackdrop)
  }

  // ------------------------------------------------------------------- CTA

  /** pulse stands for 1 + sin(frame / 15) * 0.03, the button's breathing scale. */
  datatype CtaState = CtaState(
    backdrop: Backdrop, logoScale: Window,
    buttonOpacity: nat, buttonOffsetY: nat, buttonScale: real, subtextOpacity: nat)

  function Cta(frame: nat, pulse: real): (r: CtaState)
    ensures r.backdrop.Dark? && ValidWindow(r.backdrop.gridFade)
    ensures r.logoScale == Window(0, 20) && ValidWindow(r.logoScale)
    ensures r.buttonOpacity == 1 <==> frame >= 25
    ensures r.buttonOpacity == 0 <==> frame < 25
    ensures r.buttonOffsetY == (if frame >= 25 then 0 else 20)
    ensures r.buttonScale == (if frame >= 25 then pulse else 0.9)
    ensures r.subtextOpacity == 1 <==> frame >= 40
    ensures r.subtextOpacity == 0 <==> frame < 40
    ensures r.subtextOpacity == 1 ==> r.buttonOpacity == 1
  {
    CtaState(
      DarkBackdrop, Window(0, 20),
      GateOpacity(frame, 25), GateOffset(frame, 25, 20),
      if frame >= 25 then pulse else 0.9,
      GateOpacity(frame, 40))
  }

  // ---------------------------------------------------------------- Lemmas

  /** Each gated text wrapper becomes visible on exactly the frame its reveal
      primitive starts, never earlier (an empty flash) or later (a cut-off reveal). */
  lemma TextWrappersOpenWithTheirReveal(frame: nat, wave: real)
    ensures Amplify(frame).subtitle.opacity == 1 <==> frame >= Amplify(frame).subtitle.revealFrom
    ensures Problem(frame, wave).subtitle.opacity == 1 <==> frame >= Problem(frame, wave).subtitle.revealFrom
    ensures SolutionIntro(frame).tagline.opacity == 1 <==> frame >= SolutionIntro(frame).tagline.revealFrom
    ensures MagicMoment(frame).headline.opacity == 1 <==> frame >= MagicMoment(frame).headline.revealFrom
    ensures Stats(frame).caption.opacity == 1 <==> frame >= Stats(frame).caption.revealFrom
  {
  }

  /** Every single-element gate of every scene is monotone in the frame: what
      is shown at frame f is still shown at every later frame g. */
  lemma SingleGatesMonotone(f: nat, g: nat, wave: real, pulse: real)
    requires f <= g
    ensures Amplify(f).subtitle.opacity <= Amplify(g).subtitle.opacity
    ensures Problem(f, wave).subtitle.opacity <= Problem(g, wave).subtitle.opacity
    ensures SolutionIntro(f).tagline.opacity <= SolutionIntro(g).tagline.opacity
    ensures FeatureDemo(f).rowOpacity <= FeatureDemo(g).rowOpacity
    ensures MagicMoment(f).headline.opacity <= MagicMoment(g).headline.opacity
    ensures Stats(f).caption.opacity <= Stats(g).caption.opacity
    ensures Stats(f).rowOpacity <= Stats(g).rowOpacity
    ensures Cta(f, pulse).buttonOpacity <= Cta(g, pulse).buttonOpacity
    ensures Cta(f, pulse).subtextOpacity <= Cta(g, pulse).subtextOpacity
  {
  }

  /** The shake is bounded by 2 pixels and is exactly zero from frame 45 on. */
  lemma ShakeSettles(frame: nat, wave: real)
    ensures frame >= 45 ==> Problem(frame, wave).shakeX == 0.0
    ensures -1.0 <= wave <= 1.0 ==> -2.0 <= Problem(frame, wave).shakeX <= 2.0
  {
  }

  /** Badge i is shown exactly when i is below the staggered count for base 40
      and stride 8, so the shown badges are a prefix of the list; a shown badge
      sits at offset 0 and a hidden one 10 pixels lower. */
  lemma BadgesShownPrefix(frame: nat, i: nat)
    requires i < |BadgeLabels|
    ensures |FeatureDemo(frame).badges| == 3
    ensures FeatureDemo(frame).badges[i].text == BadgeLabels[i]
    ensures FeatureDemo(frame).badges[i].opacity == 1 <==> i < ShownCount(frame, 40, 8, 3)
    ensures FeatureDemo(frame).badges[i].opacity == 0 <==> !(i < ShownCount(frame, 40, 8, 3))
    ensures FeatureDemo(frame).badges[i].offsetY == (if i < ShownCount(frame, 40, 8, 3) then 0 else 10)
  {
    ShownIsPrefix(frame, 40, 8, 3, i);
  }

  /** A shown badge stays shown, and all three are shown exactly from frame 56. */
  lemma BadgesStayShown(f: nat, g: nat)
    requires f <= g
    ensures ShownCount(f, 40, 8, 3) <= ShownCount(g, 40, 8, 3)
    ensures ShownCount(f, 40, 8, 3) == 3 <==> f >= 56
  {
    ShownCountMonotone(f, g, 40, 8, 3);
    AllShownFrom(f, 40, 8, 3);
  }

  /** The badge row appears on the same frame as its first badge. */
  lemma BadgeRowOpensWithFirstBadge(frame: nat)
    ensures FeatureDemo(frame).rowOpacity == FeatureDemo(frame).badges[0].opacity
    ensures FeatureDemo(frame).rowOffsetY == 0 <==> FeatureDemo(frame).badges[0].offsetY == 0
  {
  }

  /** The benefit cards' windows are well formed and strictly ordered: card j
      starts after card i and never settles before it. */
  lemma BenefitCardsOrdered(frame: nat, i: nat, j: nat)
    requires i < j < |BenefitTexts|
    ensures ValidWindow(Benefits(frame).cards[i].window) && ValidWindow(Benefits(frame).cards[j].window)
    ensures Benefits(frame).cards[i].window.start < Benefits(frame).cards[j].window.start
    ensures Settled(frame, Benefits(frame).cards[j].window) ==> Settled(frame, Benefits(frame).cards[i].window)
  {
    assert Benefits(frame).cards[i].window == StaggerWindow(20, 12, 15, i);
    assert Benefits(frame).cards[j].window == StaggerWindow(20, 12, 15, j);
    StaggerWindowsOrdered(20, 12, 15, i, j, frame);
  }

  /** The stride (12) is shorter than the animation (15), so each card starts
      3 frames before the previous one settles; all three are settled exactly
      from frame 59 on. */
  lemma BenefitCardsOverlapAndSettle(frame: nat, i: nat)
    requires i + 1 < |BenefitTexts|
    ensures Benefits(frame).cards[i].window.end - Benefits(frame).cards[i + 1].window.start == 3
    ensures (forall k :: 0 <= k < |BenefitTexts| ==> Settled(frame, Benefits(frame).cards[k].window)) <==> frame >= 59
  {
    assert Benefits(frame).cards[i].window == StaggerWindow(20, 12, 15, i);
    assert Benefits(frame).cards[i + 1].window == StaggerWindow(20, 12, 15, i + 1);
    ConsecutiveWindowsOverlap(20, 12, 15, i);
    assert (i + 1) * 12 == i * 12 + 12;
    var last := Benefits(frame).cards[2].window;
    assert last.end == 59;
    if frame >= 59 {
      forall k | 0 <= k < |BenefitTexts|
        ensures Settled(frame, Benefits(frame).cards[k].window)
      {
        if k < 2 {
          BenefitCardsOrdered(frame, k, 2);
        }
      }
    }
  }

  /** Star i is lit exactly when i is below the staggered count for base 40 and
      stride 4, so the lit stars are a prefix; an unlit star is dimmed to 0.3
      (before frame 40 the whole row is hidden, see StarRowAfterCaption). */
  lemma StarsLitPrefix(frame: nat, i: nat)
    requires i < StarCount
    ensures |Stats(frame).stars| == StarCount
    ensures Stats(frame).stars[i] == 1.0 <==> i < ShownCount(frame, 40, 4, StarCount)
    ensures Stats(frame).stars[i] == 0.3 <==> !(i < ShownCount(frame, 40, 4, StarCount))
  {
    ShownIsPrefix(frame, 40, 4, StarCount, i);
  }

  /** All five stars are lit exactly from frame 56 on. */
  lemma AllStarsLitFrom56(frame: nat)
    ensures (forall i :: 0 <= i < StarCount ==> Stats(frame).stars[i] == 1.0) <==> frame >= 56
  {
    AllShownFrom(frame, 40, 4, StarCount);
    if frame >= 56 {
      forall i | 0 <= i < StarCount
        ensures Stats(frame).stars[i] == 1.0
      {
        StarsLitPrefix(frame, i);
      }
    } else {
      StarsLitPrefix(frame, StarCount - 1);
    }
  }

  /** The star row fades in with its first star lit and after the caption. */
  lemma StarRowAfterCaption(frame: nat)
    ensures Stats(frame).rowOpacity == 1 <==> Stats(frame).stars[0] == 1.0
    ensures Stats(frame).rowOpacity == 1 ==> Stats(frame).caption.opacity == 1
    ensures Stats(frame).rowOffsetY == (if Stats(frame).rowOpacity == 1 then 0 else 15)
  {
  }

  /** The call-to-action button is shown before the subtext under it; until
      frame 25 it waits 20 pixels low at scale 0.9, and from then on it sits in
      place and breathes with the pulse. */
  lemma CtaButtonBeforeSubtext(frame: nat, pulse: real)
    ensures Cta(frame, pulse).subtextOpacity == 1 ==> Cta(frame, pulse).buttonOpacity == 1
    ensures Cta(frame, pulse).buttonOpacity == 0 ==>
      Cta(frame, pulse).buttonOffsetY == 20 && Cta(frame, pulse).buttonScale == 0.9
    ensures Cta(frame, pulse).buttonOpacity == 1 ==>
      Cta(frame, pulse).buttonOffsetY == 0 && Cta(frame, pulse).buttonScale == pulse
  {
  }

  /** Six scenes are drawn on the dark backdrop, all with the same grid fade;
      problem, featureDemo and stats on the light one; magicMoment on neither. */
  lemma BackdropsAsWrapped(frame: nat, wave: real, pulse: real)
    ensures Hook(frame).backdrop == Amplify(frame).backdrop == SolutionIntro(frame).backdrop
      == Benefits(frame).backdrop == Tagline(frame).backdrop == Cta(frame, pulse).backdrop
      == Dark(Window(0, 30))
    ensures Problem(frame, wave).backdrop == FeatureDemo(frame).backdrop == Stats(frame).backdrop == Light
    ensures MagicMoment(frame).backdrop == NoBackdrop
  {
  }

  /** Every frame range handed to the interpolation primitive is non-empty, as
      the primitive demands. */
  lemma InterpolationWindowsValid(frame: nat, i: nat)
    requires i < |BenefitTexts|
    ensures ValidWindow(Hook(frame).backdrop.gridFade) && ValidWindow(Amplify(frame).backdrop.gridFade)
    ensures ValidWindow(SolutionIntro(frame).backdrop.gridFade) && ValidWindow(Benefits(frame).backdrop.gridFade)
    ensures ValidWindow(Tagline(frame).backdrop.gridFade) && ValidWindow(Cta(frame, 1.0).backdrop.gridFade)
    ensures ValidWindow(SolutionIntro(frame).logoScale) && ValidWindow(SolutionIntro(frame).logoOpacity)
    ensures ValidWindow(FeatureDemo(frame).mockupScale) && ValidWindow(FeatureDemo(frame).mockupY)
    ensures ValidWindow(FeatureDemo(frame).rotateY)
    ensures ValidWindow(Benefits(frame).cards[i].window)
    ensures ValidWindow(MagicMoment(frame).imageScale)
    ensures ValidWindow(Cta(frame, 1.0).logoScale)
  {
  }
}
