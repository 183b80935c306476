/**
  The composition record handed to the rendering engine: an identifier, a
  declared frame budget and a frame rate. The budget must hold the resolved
  length of the scene series; what is left over is a trailing buffer in which
  no scene plays.
 */
module Composition {
  import opened Timeline
  import MainComposition

  datatype Config = Config(id: string, durationInFrames: nat, fps: nat)

  const MainConfig: Config := Config("Main", 870, 30)

  /** Build-time errors: the series' own, or a budget it does not fit. */
  datatype BuildError =
    | BadSeries(error: ConfigError)
    | NonPositiveBudget
    | NonPositiveFps
    | OverBudget(length: nat, budget: nat)

  /** A composition the engine can render: positive budget and rate, a
      well-formed series, and a resolved length within the budget. */
  predicate Admissible(c: Config, s: Series) {
    && c.durationInFrames > 0
    && c.fps > 0
    && WellFormed(s)
    && Length(s) <= c.durationInFrames
  }

  /** The build-time check: None exactly when the composition is admissible;
      otherwise the problem found first. */
  function Check(c: Config, s: Series): (r: Option<BuildError>)
    ensures r.None? <==> Admissible(c, s)
    ensures r.Some? && r.value.OverBudget? ==>
      WellFormed(s) && r.value.length == Length(s) > c.durationInFrames == r.value.budget
    ensures r.Some? && r.value.BadSeries? ==> !WellFormed(s) && Validate(s) == Some(r.value.error)
  {
    if c.durationInFrames == 0 then Some(NonPositiveBudget)
    else if c.fps == 0 then Some(NonPositiveFps)
    else match Validate(s)
      case Some(e) => Some(BadSeries(e))
      case None =>
        LengthIsLastEnd(s);
        if Length(s) > c.durationInFrames then Some(OverBudget(Length(s), c.durationInFrames))
        else None
  }

  /** Frames of the budget after the last scene has ended. */
  function TrailingBuffer(c: Config, s: Series): int
    requires WellFormed(s)
  {
    c.durationInFrames - Length(s)
  }

  /** What the engine renders at one frame of the budget. */
  datatype FrameContent = Playing(active: Active) | Buffer

  /** The per-frame query over the budget [0, durationInFrames): scenes while
      the series runs, then the trailing buffer; a frame outside the budget is
      rejected rather than wrapped or clamped. */
  function Query(c: Config, s: Series, f: nat): (r: Option<FrameContent>)
    requires Admissible(c, s)
    ensures r.Some? <==> f < c.durationInFrames
    ensures r == Some(Buffer) <==> Length(s) <= f < c.durationInFrames
    ensures r.Some? && r.value.Playing? ==> Shows(s, f, r.value.active)
    ensures f < Length(s) ==> r == Some(Playing(Resolve(s, f).value))
  {
    if f >= c.durationInFrames then None
    else match Resolve(s, f)
      case Some(a) => Some(Playing(a))
      case None => Some(Buffer)
  }

  /** The declared record: 870 frames at 30 frames per second, exactly 29 seconds. */
  lemma MainConfigDeclared()
    ensures MainConfig.durationInFrames == 870 > 0
    ensures MainConfig.fps == 30 > 0
    ensures MainConfig.durationInFrames == 29 * MainConfig.fps
  {
  }

  /** The video fits its budget: 945 scene frames less 108 overlapped frames
      resolve to 837, leaving a trailing buffer of 33 frames. */
  lemma MainFitsBudget()
    ensures WellFormed(MainComposition.MainSeries)
    ensures SceneTotal(MainComposition.SceneList) == 945
    ensures TransitionTotal(MainComposition.TransitionList) == 108
    ensures Length(MainComposition.MainSeries) == 837 <= MainConfig.durationInFrames
    ensures TrailingBuffer(MainConfig, MainComposition.MainSeries) == 33
    ensures Admissible(MainConfig, MainComposition.MainSeries)
    ensures Check(MainConfig, MainComposition.MainSeries) == None
  {
    MainComposition.SceneDurationsAsDeclared();
    MainComposition.TransitionsAsDeclared();
    MainComposition.MainLength();
  }

  /** The buffer the source comment plans for (837 + 30 = 867 frames) is 3
      frames short of the declared budget; the declared 870 is the one in
      force, and all it must satisfy is to hold the resolved length. */
  lemma CommentTotalBelowBudget()
    ensures Length(MainComposition.MainSeries) + 30 == 867
    ensures 867 < MainConfig.durationInFrames
  {
    MainComposition.MainLength();
  }

  /** Over the video's budget: frame 0 opens the first scene, frame 836 closes
      the last one, frames 837 to 869 are the trailing buffer, and frame 870 is
      out of range. */
  lemma MainQueryBoundaries(f: nat)
    ensures Admissible(MainConfig, MainComposition.MainSeries)
    ensures Query(MainConfig, MainComposition.MainSeries, 0) == Some(Playing(Single(0, 0)))
    ensures Query(MainConfig, MainComposition.MainSeries, 836) == Some(Playing(Single(9, 119)))
    ensures 837 <= f < 870 ==> Query(MainConfig, MainComposition.MainSeries, f) == Some(Buffer)
    ensures Query(MainConfig, MainComposition.MainSeries, 870) == None
  {
    MainFitsBudget();
    ResolveFirstFrame(MainComposition.MainSeries);
    ResolveLastFrame(MainComposition.MainSeries);
  }
}
