/**
 * The configuration of a spatial encoder: the options `__init__` takes, the
 * validation its property setters perform, and the two mutually exclusive
 * dark-shot strategies.
 */
module EncoderConfig {
  import opened Wrappers
  import opened Errors
  import opened Waveforms
  import opened PulseIds

  /** The two edge types an encoder searches for. */
  datatype EdgeType = Falling | Rising

  /** The accepted names, in the order of the source's `background_methods` and `edge_types` lists. */
  const BackgroundMethodNames: seq<string> := ["div", "sub"]
  const EdgeTypeNames: seq<string> := ["falling", "rising"]

  /** The smallest step length the `step_length` setter accepts. */
  const MinStepLength: int := 4

  function BackgroundMethodName(m: BackgroundMethod): string {
    match m
    case Div => "div"
    case Sub => "sub"
  }

  function EdgeTypeName(e: EdgeType): string {
    match e
    case Falling => "falling"
    case Rising => "rising"
  }

  /** The `background_method` setter's check: the method named `value`, if it is one of the accepted names. */
  function ParseBackgroundMethod(value: string): Option<BackgroundMethod> {
    if value == "div" then Some(Div) else if value == "sub" then Some(Sub) else None
  }

  /** The `edge_type` setter's check. */
  function ParseEdgeType(value: string): Option<EdgeType> {
    if value == "falling" then Some(Falling) else if value == "rising" then Some(Rising) else None
  }

  /** A name is accepted exactly when it is listed, and it denotes the method of that name. */
  lemma ParseBackgroundMethodExact(value: string)
    ensures ParseBackgroundMethod(value).Some? <==> value in BackgroundMethodNames
    ensures ParseBackgroundMethod(value).Some? ==> BackgroundMethodName(ParseBackgroundMethod(value).value) == value
    ensures forall m :: ParseBackgroundMethod(BackgroundMethodName(m)) == Some(m)
  {
  }

  lemma ParseEdgeTypeExact(value: string)
    ensures ParseEdgeType(value).Some? <==> value in EdgeTypeNames
    ensures ParseEdgeType(value).Some? ==> EdgeTypeName(ParseEdgeType(value).value) == value
    ensures forall e :: ParseEdgeType(EdgeTypeName(e)) == Some(e)
  {
  }

  /** `roi`, the row slice `slice(*roi)` applied to camera images when they are projected to waveforms. */
  datatype Roi = Roi(start: Option<int>, stop: Option<int>)

  /** The options an encoder holds after construction. */
  datatype Config = Config(
    channel: string,
    roi: Roi,
    backgroundMethod: BackgroundMethod,
    stepLength: int,
    refinement: int,
    eventsChannel: Option<string>,
    darkShotEvent: int,
    darkShotFilter: Option<DarkShotFilter>,
    edgeType: EdgeType)

  /** Python truthiness of `events_channel`: set and not the empty string. */
  predicate UsesEventsChannel(cfg: Config) {
    cfg.eventsChannel.Some? && cfg.eventsChannel.value != ""
  }

  /** `self.events_channel or self.dark_shot_filter`: dark shots are identified per file. */
  predicate HasDarkShotStrategy(cfg: Config) {
    UsesEventsChannel(cfg) || cfg.darkShotFilter.Some?
  }

  /** What every encoder's configuration satisfies once constructed. */
  predicate ValidConfig(cfg: Config) {
    cfg.stepLength >= MinStepLength && !(UsesEventsChannel(cfg) && cfg.darkShotFilter.Some?)
  }

  /**
   * `__init__`'s checks, in its order: the two dark-shot strategies together,
   * then the `background_method`, `step_length` and `edge_type` setters.
   */
  function MakeConfig(channel: string, roi: Roi, backgroundMethod: string, stepLength: int,
                      eventsChannel: Option<string>, darkShotEvent: int, darkShotFilter: Option<DarkShotFilter>,
                      refinement: int, edgeType: string): Result<Config, Error>
  {
    if eventsChannel.Some? && eventsChannel.value != "" && darkShotFilter.Some? then
      Err(ConflictingDarkShotStrategies)
    else if ParseBackgroundMethod(backgroundMethod).None? then
      Err(UnknownBackgroundMethod(backgroundMethod))
    else if stepLength < MinStepLength then
      Err(StepLengthTooShort(stepLength))
    else if ParseEdgeType(edgeType).None? then
      Err(UnknownEdgeType(edgeType))
    else
      Ok(Config(channel, roi, ParseBackgroundMethod(backgroundMethod).value, stepLength, refinement,
                eventsChannel, darkShotEvent, darkShotFilter, ParseEdgeType(edgeType).value))
  }

  /**
   * Construction succeeds exactly when at most one dark-shot strategy is set
   * and every validated option is acceptable; the configuration then holds the
   * given options and is valid.
   */
  lemma MakeConfigAccepts(channel: string, roi: Roi, backgroundMethod: string, stepLength: int,
                          eventsChannel: Option<string>, darkShotEvent: int,
                          darkShotFilter: Option<DarkShotFilter>, refinement: int, edgeType: string)
    ensures var r := MakeConfig(channel, roi, backgroundMethod, stepLength, eventsChannel, darkShotEvent,
                                darkShotFilter, refinement, edgeType);
            (r.Ok? <==> !(eventsChannel.Some? && eventsChannel.value != "" && darkShotFilter.Some?) &&
                        backgroundMethod in BackgroundMethodNames && stepLength >= MinStepLength &&
                        edgeType in EdgeTypeNames) &&
            (eventsChannel.Some? && eventsChannel.value != "" && darkShotFilter.Some? ==>
               r == Err(ConflictingDarkShotStrategies)) &&
            (r.Ok? ==> ValidConfig(r.value) &&
                       BackgroundMethodName(r.value.backgroundMethod) == backgroundMethod &&
                       EdgeTypeName(r.value.edgeType) == edgeType &&
                       r.value.stepLength == stepLength && r.value.eventsChannel == eventsChannel &&
                       r.value.darkShotFilter == darkShotFilter && r.value.darkShotEvent == darkShotEvent &&
                       r.value.refinement == refinement && r.value.channel == channel && r.value.roi == roi)
  {
    ParseBackgroundMethodExact(backgroundMethod);
    ParseEdgeTypeExact(edgeType);
  }

  /** Step length 4 is the smallest accepted: 4 constructs, 3 is refused. */
  lemma StepLengthBoundary(channel: string)
    ensures MakeConfig(channel, Roi(None, None), "div", 4, None, 21, None, 1, "falling").Ok?
    ensures MakeConfig(channel, Roi(None, None), "div", 3, None, 21, None, 1, "falling") == Err(StepLengthTooShort(3))
  {
  }
}
