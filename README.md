# Frame schedule of the "Main" marketing video

The video is a Remotion composition. Ten scenes play in order:

- hook, amplify, problem, solutionIntro, featureDemo;
- benefits, magicMoment, stats, tagline, cta.

They are joined by nine transitions of 12 frames each. A transition overlaps
the tail of the outgoing scene and the head of the incoming one, so it takes
frames away from the total instead of adding them:

- scene `k + 1` starts at `start(k) + duration(k) - 12`;
- the resolved length is 945 scene frames less 108 overlapped frames, 837;
- the result must fit the composition's declared budget of 870 frames at 30
  frames per second.

Inside each scene, elements appear on integer frame rules:

- a wrapper gated by `frame >= t`;
- a list whose item `i` appears at `base + i * stride` (badges, benefit
  cards, stars);
- the frame windows `[start, end]` handed to the interpolation primitive.

The model has five modules:

- `Timeline` (`timeline.dfy`): the sequencer's arithmetic for any series of
  scenes and transitions. It covers:
  - well-formedness and its validation, with an error per broken rule;
  - the scene and transition totals, each scene's start and end, and the
    resolved length;
  - the resolver from a global frame to the scene(s) on screen and their local
    frames: one scene alone, or the outgoing and incoming scene of a blend.
- `Reveal` (`reveal.dfy`): the integer reveal rules, namely threshold gates,
  staggered lists with a closed-form count of visible items, and interpolation
  windows.
- `Scenes` (`scenes.dfy`): the integer part of each scene's render state as a
  function of its local frame.
- `MainComposition` (`main_composition.dfy`): the video's own ten scenes and
  nine transitions, with every start and the resolution of every frame.
- `Composition` (`composition.dfy`): the composition record, the build-time
  budget check, and the per-frame query over the whole budget, trailing buffer
  included.

The transition series is implemented by a library that is not part of this
model. The resolver is the overlap rule the length comment of
`src/remotion/compositions.ts` relies on: scene `k + 1` begins `t_k` frames
before scene `k` ends, and during those frames both are on screen.

- A frame is resolved to the latest scene that has started by it.
- The frame is a blend when the scene before that one has not ended yet.

The rule says which scenes are on screen. It does not say how they are drawn.

## Model

| member | source | states |
|---|---|---|
| Timeline.Start | src/remotion/compositions/Main.tsx:883-978 | no scene starts before its own index as a frame; Timeline.StartIsPrefixDifference gives its closed form and Timeline.StartsIncrease its order |
| Timeline.StartIsPrefixDifference | src/remotion/compositions/Main.tsx:883-978 | scene k starts at the sum of the durations before it less the sum of the transitions before it |
| Timeline.TotalsMeetLastEnd | src/remotion/compositions.ts:4 | duration conservation: scene total less transition total is exactly the frame at which the last scene ends, and it is positive |
| Timeline.Length | src/remotion/compositions.ts:4 | the resolved length is positive and no shorter than the last scene; Timeline.TotalsMeetLastEnd and Timeline.LengthIsLastEnd fix its value |
| Timeline.LengthIsLastEnd | src/remotion/compositions.ts:4 | the resolved length is exactly the frame at which the last scene ends |
| Timeline.StartsIncrease | src/remotion/compositions/Main.tsx:883-978 | scenes start in playing order: a later scene starts strictly later |
| Timeline.EndsIncrease | src/remotion/compositions/Main.tsx:883-978 | scenes end in playing order: a later scene ends strictly later |
| Timeline.EveryEndWithinLength | src/remotion/compositions/Main.tsx:883-978 | no scene runs past the resolved length |
| Timeline.SceneAt | src/remotion/compositions/Main.tsx:883-978 | the index found has started by the frame, and the next scene has not |
| Timeline.SceneAtIs | src/remotion/compositions/Main.tsx:883-978 | scene k is the latest started exactly between its own start and the next scene's start |
| Timeline.Resolve | src/remotion/compositions/Main.tsx:883-978 | a frame is resolved exactly when it is below the resolved length; every scene named is on screen at that frame at the local frame given, and a blend joins two adjacent scenes within their transition |
| Timeline.ResolveFirstFrame | src/remotion/compositions/Main.tsx:885-887 | frame 0 shows the first scene alone at its frame 0 |
| Timeline.ResolveLastFrame | src/remotion/compositions/Main.tsx:975-977 | the last frame shows the last scene alone at its last local frame |
| Timeline.SingleIsExclusive | src/remotion/compositions/Main.tsx:883-978 | when one scene is shown alone, no other scene is on screen at that frame |
| Timeline.SceneAtNear | src/remotion/compositions/Main.tsx:883-978 | with separated transitions, a frame of scene k has k or k + 1 as its latest started scene |
| Timeline.ResolveCovers | src/remotion/compositions/Main.tsx:883-978 | with separated transitions, every scene on screen at a frame is reported by the resolver at its own local frame |
| Timeline.ResolveInTransition | src/remotion/compositions/Main.tsx:887-893 | a frame inside transition k resolves to the blend of scenes k and k + 1; the outgoing scene is as far into its last t_k frames as the incoming scene is into its first |
| Timeline.ResolveAlone | src/remotion/compositions/Main.tsx:883-978 | between its incoming and outgoing transitions, a scene is shown alone at its own local frame |
| Timeline.FirstEmptyScene | src/remotion/compositions/Main.tsx:859-870 | none exactly when every scene from i on has a positive duration; otherwise the first index with a zero duration |
| Timeline.FirstMisfitTransition | src/remotion/compositions/Main.tsx:872 | none exactly when every transition from i on fits between its neighbours; otherwise the first one that does not |
| Timeline.Validate | src/remotion/compositions/Main.tsx:883-978 | no error exactly when the series is well formed; each error names the broken rule and the offending scene or transition |
| Reveal.GateOpacity | src/remotion/compositions/Main.tsx:230 | a `frame >= t ? 1 : 0` gate is 0 or 1, and 1 exactly from frame t on; Reveal.GateMonotone shows it never closes again |
| Reveal.GateOffset | src/remotion/compositions/Main.tsx:447-448 | a slide-in offset is either 0 or the full offset, and the full one exactly before frame t (or when the offset is 0); Reveal.GateMonotone ties it to the gate |
| Reveal.GateMonotone | src/remotion/compositions/Main.tsx:447-448 | a `frame >= t` gate never closes again; once it has opened, the element it guards sits in place at every later frame, and while it is shut the element waits at its full slide-in offset |
| Reveal.Delay | src/remotion/compositions/Main.tsx:464 | item 0 appears at the base frame and no item before it; with a positive stride item i appears at least i frames after the base; Reveal.DelayIncreasing gives the order |
| Reveal.ShownCount | src/remotion/compositions/Main.tsx:464 | the closed-form number of visible items never exceeds the list length |
| Reveal.DelayIncreasing | src/remotion/compositions/Main.tsx:526 | the delay `base + i * stride` is non-decreasing in i, and strictly increasing for a positive stride |
| Reveal.ShownIsPrefix | src/remotion/compositions/Main.tsx:464-465 | item i is visible exactly when i is below the count: the visible items form a prefix |
| Reveal.ShownCountMonotone | src/remotion/compositions/Main.tsx:464 | the number of visible items never drops as the frame advances |
| Reveal.AllShownFrom | src/remotion/compositions/Main.tsx:706 | the whole list is visible exactly from the last item's delay on |
| Reveal.StaggerWindow | src/remotion/compositions/Main.tsx:526-530 | item i's window starts at its stagger delay and lasts span frames, and is non-empty exactly when the span is positive; Reveal.StaggerWindowsOrdered gives the order of the windows |
| Reveal.StaggerWindowsOrdered | src/remotion/compositions/Main.tsx:526-533 | a later item's window neither starts nor settles before an earlier one's |
| Reveal.ConsecutiveWindowsOverlap | src/remotion/compositions/Main.tsx:526-527 | with a stride below the span, item i + 1 starts moving before item i has settled |
| Scenes.Hook | src/remotion/compositions/Main.tsx:163-194 | the hook is drawn on the dark backdrop, whose grid fade window is non-empty; its text is a stream primitive |
| Scenes.Amplify | src/remotion/compositions/Main.tsx:197-248 | dark backdrop; the subtitle's character reveal starts at frame 25, and its wrapper is shown exactly from that frame and hidden before |
| Scenes.Problem | src/remotion/compositions/Main.tsx:251-306 | light backdrop; the subtitle's reveal starts at frame 30, and its wrapper is shown exactly from that frame and hidden before; the shake is zero from frame 45 on |
| Scenes.SolutionIntro | src/remotion/compositions/Main.tsx:309-377 | dark backdrop; the logo scales over [0, 20] and fades in over [0, 15], both settling before the tagline's reveal starts at frame 25; the tagline wrapper is shown exactly from that frame and hidden before |
| Scenes.FeatureBadge | src/remotion/compositions/Main.tsx:452-466 | badge i carries its label, is shown exactly from frame 40 + 8i, and sits in place exactly when shown (10 pixels lower when hidden) |
| Scenes.FeatureDemo | src/remotion/compositions/Main.tsx:380-476 | light backdrop; the mockup scales and slides over [0, 25] and rotates over [0, 120]; three badges, badge i as FeatureBadge gives it; the row is shown exactly from frame 40, hidden before, and sits 20 pixels lower until then |
| Scenes.BenefitCard | src/remotion/compositions/Main.tsx:479-533 | card i carries its icon and text and animates over 15 frames from its stagger delay for base 20 and stride 12 |
| Scenes.Benefits | src/remotion/compositions/Main.tsx:479-570 | dark backdrop; three cards, card i as BenefitCard gives it |
| Scenes.MagicMoment | src/remotion/compositions/Main.tsx:573-631 | no backdrop; the image zooms over [0, 120], so it is unsettled exactly before frame 120; the headline's reveal starts at frame 15, and its wrapper is shown exactly from that frame and hidden before |
| Scenes.StarOpacity | src/remotion/compositions/Main.tsx:700-707 | star i is lit exactly from frame 40 + 4i and dimmed to 0.3 before |
| Scenes.Stats | src/remotion/compositions/Main.tsx:634-729 | light backdrop; the caption's reveal starts at frame 20, and its wrapper is shown exactly from that frame and hidden before; five stars, star i as StarOpacity gives it; the star row is shown exactly from frame 40, hidden before, and sits 15 pixels lower until then |
| Scenes.Tagline | src/remotion/compositions/Main.tsx:732-763 | the tagline is drawn on the dark backdrop, whose grid fade window is non-empty; its text is a stream primitive |
| Scenes.Cta | src/remotion/compositions/Main.tsx:766-849 | dark backdrop; the logo scales over [0, 20]; the button is hidden, 20 pixels lower and at scale 0.9 before frame 25, and from then on shown, in place and at the pulse scale; the subtext is hidden before frame 40 and shown from it, never before the button |
| Scenes.BackdropsAsWrapped | src/remotion/compositions/Main.tsx:90-156 | hook, amplify, solutionIntro, benefits, tagline and cta are drawn on the dark backdrop with its grid fade over [0, 30]; problem, featureDemo and stats on the light one; magicMoment on neither |
| Scenes.TextWrappersOpenWithTheirReveal | src/remotion/compositions/Main.tsx:230-231 | in amplify, problem, solutionIntro, magicMoment and stats, the gated wrapper opens on exactly the frame its text reveal starts |
| Scenes.SingleGatesMonotone | src/remotion/compositions/Main.tsx:230-836 | all nine single-element gates (thresholds 25, 30, 25, 40, 15, 20, 40, 25, 40) are monotone in the frame |
| Scenes.ShakeSettles | src/remotion/compositions/Main.tsx:256 | the problem scene's shake is exactly zero from frame 45 on and within 2 pixels before |
| Scenes.BadgesShownPrefix | src/remotion/compositions/Main.tsx:452-466 | three badges with their labels; badge i is visible exactly when i is below the stagger count for base 40, stride 8, and its offset is 0 then and 10 otherwise |
| Scenes.BadgesStayShown | src/remotion/compositions/Main.tsx:464 | a shown badge stays shown, and all three are shown exactly from frame 56 |
| Scenes.BadgeRowOpensWithFirstBadge | src/remotion/compositions/Main.tsx:447-465 | the badge row becomes visible on the same frame as its first badge |
| Scenes.BenefitCardsOrdered | src/remotion/compositions/Main.tsx:525-533 | every card's window is non-empty, a later card starts strictly later, and it never settles before an earlier one |
| Scenes.BenefitCardsOverlapAndSettle | src/remotion/compositions/Main.tsx:526-530 | consecutive cards overlap by 3 frames, and all cards have settled exactly from frame 59 |
| Scenes.StarsLitPrefix | src/remotion/compositions/Main.tsx:700-711 | five stars; star i is lit (1) exactly when i is below the stagger count for base 40, stride 4, and dimmed to 0.3 otherwise (the whole row stays hidden before frame 40) |
| Scenes.AllStarsLitFrom56 | src/remotion/compositions/Main.tsx:706 | all five stars are lit exactly from frame 56 on |
| Scenes.StarRowAfterCaption | src/remotion/compositions/Main.tsx:675-706 | the star row appears with its first star lit and only after the caption |
| Scenes.CtaButtonBeforeSubtext | src/remotion/compositions/Main.tsx:810-836 | the subtext never shows before the button; a hidden button is 20 pixels down and scaled to 0.9, a shown one sits in place at the pulse scale |
| Scenes.InterpolationWindowsValid | src/remotion/compositions/Main.tsx:107-771 | every frame range handed to the interpolation primitive, the dark backdrop's grid fade in each of its six scenes included, is non-empty |
| MainComposition.SceneDurationsAsDeclared | src/remotion/compositions/Main.tsx:859-870 | there are ten scenes, and their durations in order are 90, 75, 90, 80, 120, 90, 100, 90, 90, 120; all are positive and they total 945 |
| MainComposition.TransitionsAsDeclared | src/remotion/compositions/Main.tsx:872-972 | nine transitions, one per adjacent pair, each 12 frames; no scene is shorter than 75; the overlap total is 108 |
| MainComposition.MainWellFormed | src/remotion/compositions/Main.tsx:883-978 | the video's series is well formed, and no scene is overlapped by two transitions at once |
| MainComposition.MainLength | src/remotion/compositions.ts:4 | the resolved length is 945 - 9 * 12 = 837 |
| MainComposition.MainStarts | src/remotion/compositions/Main.tsx:883-978 | the scenes start at 0, 78, 141, 219, 287, 395, 473, 561, 639, 717; each is the previous start plus the previous duration less 12; the last scene ends on the resolved length |
| MainComposition.MainTransitionFrames | src/remotion/compositions/Main.tsx:889-972 | frame e of transition k, counted from scene k + 1's start in the table of starts, blends scene k at local frame duration - 12 + e with scene k + 1 at local frame e |
| MainComposition.MainSceneAloneFrames | src/remotion/compositions/Main.tsx:883-978 | outside the transitions each scene is shown alone at its own local frame, counted from its start in the table of starts |
| MainComposition.RevealsCompleteBeforeSceneLeaves | src/remotion/compositions/Main.tsx:107-872 | every modelled gate, stagger, backdrop grid fade and settling window of every scene is complete by the frame at which the scene starts blending out, or by the last frame for the final scene, apart from the two ambient drifts of MainComposition.AmbientDriftOutlastsScene |
| MainComposition.AmbientDriftOutlastsScene | src/remotion/compositions/Main.tsx:394-580 | the mockup's rotation over [0, 120] is still moving when featureDemo starts blending out, and the image zoom over [0, 120] never settles within magicMoment's 100 frames |
| Composition.Check | src/remotion/compositions.ts:5-12 | no error exactly when the budget and frame rate are positive, the series is well formed and its length fits the budget; an over-budget error reports the length and the budget |
| Composition.Query | src/remotion/compositions.ts:8 | a frame is answered exactly when it is within the budget; it falls in the trailing buffer exactly when it is at or past the resolved length; otherwise it is exactly the resolver's answer |
| Composition.MainConfigDeclared | src/remotion/compositions.ts:8-9 | the budget is 870 frames at 30 frames per second, exactly 29 seconds |
| Composition.MainFitsBudget | src/remotion/compositions.ts:4-8 | 945 scene frames and 108 overlapped frames give 837 frames, which fit the 870-frame budget with 33 frames to spare; the budget check passes |
| Composition.CommentTotalBelowBudget | src/remotion/compositions.ts:4 | the commented total (837 + 30 = 867) is below the declared budget |
| Composition.MainQueryBoundaries | src/remotion/compositions.ts:8 | frame 0 is the first scene at frame 0, frame 836 is the last scene at its frame 119, frames 837 to 869 are buffer, and frame 870 is outside the budget |

## Left out

- The transition-series library (`TransitionSeries`, `getPresentation`,
  `createTiming`) is not part of this model.
  - The resolver models the overlap rule the length comment relies on. It
    is not a transcription of library code.
  - The well-formedness rules are the ones that rule needs: positive
    durations, and each transition shorter than both of its neighbours.
  - The order in which `Timeline.Validate` reports errors is the model's
    own.
  - Presentations and timing curves are opaque labels. How a blend is drawn
    is not modelled.
- Timeline.ResolveCovers, Timeline.SceneAtNear and
  Timeline.ResolveInTransition also require that no scene is overlapped by
  its incoming and its outgoing transition at once. Without that condition
  three scenes could be on screen together, while the resolver reports at
  most two. The video satisfies the condition (MainComposition.MainWellFormed).
- The interpolation primitive and its easing curves compute floating-point
  values inside a library that is not part of this model. Only the frame
  windows handed to them are modelled: the logo's scale and fade, the
  mockup's scale, slide and rotation, the image zoom, each benefit card's
  fade and slide (one shared window), the CTA logo's scale and the dark
  backdrop's grid fade.
- The camera pushes are not modelled, their keyframe frames included. Each
  scene's keyframes go to the library's `Camera`
  (`src/remotion/compositions/Main.tsx:167-171` and the like), and every push
  ends at frame 90 or 120. That is later than the frame at which its scene
  starts blending out (later than the last frame for the final scene), and
  for amplify (75 frames) and solutionIntro (80 frames) later than the scene's
  end. `MainComposition.RevealsCompleteBeforeSceneLeaves` says nothing about
  them.
- The trigonometric oscillators are floating point:
  - `FloatingOrb`, the drifting orbs of the dark backdrop, is left out.
  - The button glow is left out.
  - The problem scene's `sin(frame * 0.8)` enters `Scenes.Problem` as the
    parameter `wave`.
  - The CTA button's `1 + sin(frame / 15) * 0.03` enters `Scenes.Cta` as the
    parameter `pulse`.
- The text, stream and counter primitives are library components that are
  not part of this model: `FadeInWords`, `FadeInChars`, `StompStream`,
  `PushStream`, `Counter`, `BrowserMockup` and `Camera`.
  - Only the frame at which a text reveal starts is kept.
  - The hook's and the tagline's text is such a stream primitive. Their only
    integer part is the dark backdrop's grid fade (`Scenes.Hook`,
    `Scenes.Tagline`).
- JSX layout, styling, brand colours, fonts, background audio, images and
  asset URLs are rendering and I/O.
- The composition's width and height are output settings with no logic
  attached.
- The length comment in `src/remotion/compositions.ts` plans 837 + 30 = 867
  frames, but the record declares 870. The declared value is the one
  modelled. All it must satisfy is to hold the resolved length.
- `Composition.Check` and `Timeline.Validate` are the build-time checks that
  the sequencer's rules call for. The source itself performs neither:
  `src/remotion/compositions.ts:5-12` is a constant record, and a series
  longer than 870 frames would simply be cut off at frame 870. The model
  defines both and proves that the video passes them
  (`Composition.MainFitsBudget`).
- Scenes.BadgeRowOpensWithFirstBadge: the badge row also carries the CSS
  `transition: "all 0.3s"` (`src/remotion/compositions/Main.tsx:449`), which
  is ignored. The lemma describes the style the gate sets, not what a browser
  would draw while easing towards it.
