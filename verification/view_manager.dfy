/** Test-mode view selection: a view type and an Easy-Mode flag determine
    which of five view objects receives `update` and `draw`. */
module ViewSelection {

  datatype ViewType = PlantType | VisualizerType | FractalType

  /** The five view objects the manager owns. */
  datatype ViewId = PlantView | PlantViewEasy | VisualizerView | FractalPlantView | FractalPlantViewEasy

  datatype ViewManager = ViewManager(viewType: ViewType, isEasyMode: bool, current: ViewId)

  /** The view chosen for a type and flag. */
  function Select(viewType: ViewType, easy: bool): ViewId {
    match viewType
    case PlantType => if easy then PlantViewEasy else PlantView
    case VisualizerType => VisualizerView
    case FractalType => if easy then FractalPlantViewEasy else FractalPlantView
  }

  /** The type a view object displays. */
  function TypeOf(id: ViewId): ViewType {
    match id
    case PlantView => PlantType
    case PlantViewEasy => PlantType
    case VisualizerView => VisualizerType
    case FractalPlantView => FractalType
    case FractalPlantViewEasy => FractalType
  }

  predicate IsEasyView(id: ViewId) {
    id == PlantViewEasy || id == FractalPlantViewEasy
  }

  /** The selection recovers the type, and the flag for every type but the
      visualizer, which has no Easy variant. */
  lemma SelectRoundTrip(viewType: ViewType, easy: bool)
    ensures TypeOf(Select(viewType, easy)) == viewType
    ensures viewType != VisualizerType ==> (IsEasyView(Select(viewType, easy)) <==> easy)
    ensures viewType == VisualizerType ==> Select(viewType, easy) == VisualizerView
  {
  }

  /** The manager's invariant: the current view is the one its type and flag select. */
  predicate Consistent(m: ViewManager) {
    m.current == Select(m.viewType, m.isEasyMode)
  }

  /** The constructor: plant type, Easy Mode off, the plain plant view. */
  const Initial: ViewManager := ViewManager(PlantType, false, PlantView)

  /** Recomputes the current view from the type and the flag. */
  function UpdateCurrentView(m: ViewManager): (r: ViewManager)
    ensures Consistent(r)
    ensures r.viewType == m.viewType && r.isEasyMode == m.isEasyMode
  {
    m.(current := Select(m.viewType, m.isEasyMode))
  }

  function SwitchView(m: ViewManager, viewType: ViewType): (r: ViewManager)
    ensures r.viewType == viewType && r.isEasyMode == m.isEasyMode
    ensures Consistent(r)
  {
    UpdateCurrentView(m.(viewType := viewType))
  }

  function SetEasyMode(m: ViewManager, enabled: bool): (r: ViewManager)
    ensures r.isEasyMode == enabled && r.viewType == m.viewType
    ensures Consistent(r)
  {
    UpdateCurrentView(m.(isEasyMode := enabled))
  }

  function GetCurrentViewType(m: ViewManager): ViewType { m.viewType }

  function IsEasyModeEnabled(m: ViewManager): bool { m.isEasyMode }

  /** The view `update` and `draw` are delegated to. */
  function DelegateTarget(m: ViewManager): ViewId { m.current }

  /** Switching the type and setting the flag commute, and setting the flag
      twice is setting it once. */
  lemma SwitchAndEasyCommute(m: ViewManager, viewType: ViewType, enabled: bool)
    ensures SwitchView(SetEasyMode(m, enabled), viewType) == SetEasyMode(SwitchView(m, viewType), enabled)
    ensures SetEasyMode(SetEasyMode(m, enabled), enabled) == SetEasyMode(m, enabled)
  {
  }

  datatype Op = SwitchOp(viewType: ViewType) | EasyOp(enabled: bool)

  function Apply(m: ViewManager, op: Op): ViewManager {
    match op
    case SwitchOp(t) => SwitchView(m, t)
    case EasyOp(e) => SetEasyMode(m, e)
  }

  function ApplyAll(m: ViewManager, ops: seq<Op>): ViewManager
    decreases |ops|
  {
    if |ops| == 0 then m else Apply(ApplyAll(m, ops[..|ops| - 1]), ops[|ops| - 1])
  }

  function LastType(ops: seq<Op>, viewType: ViewType): ViewType
    decreases |ops|
  {
    if |ops| == 0 then viewType
    else if ops[|ops| - 1].SwitchOp? then ops[|ops| - 1].viewType
    else LastType(ops[..|ops| - 1], viewType)
  }

  function LastEasy(ops: seq<Op>, enabled: bool): bool
    decreases |ops|
  {
    if |ops| == 0 then enabled
    else if ops[|ops| - 1].EasyOp? then ops[|ops| - 1].enabled
    else LastEasy(ops[..|ops| - 1], enabled)
  }

  /** From the constructor, the getters report the last type and flag set,
      and the view receiving `update`/`draw` is a function of those two alone. */
  lemma {:induction false} GettersReportLastSet(ops: seq<Op>)
    ensures GetCurrentViewType(ApplyAll(Initial, ops)) == LastType(ops, PlantType)
    ensures IsEasyModeEnabled(ApplyAll(Initial, ops)) == LastEasy(ops, false)
    ensures DelegateTarget(ApplyAll(Initial, ops)) == Select(LastType(ops, PlantType), LastEasy(ops, false))
    decreases |ops|
  {
    if |ops| > 0 {
      GettersReportLastSet(ops[..|ops| - 1]);
    }
  }
}
