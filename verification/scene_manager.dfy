/** The single-active-scene manager: a registry of scenes by name, the active
    scene, and the persistent game mode. Generic over the scene objects `S`;
    the exit/entry hooks a switch runs are returned as a trace. */
module SceneManagement {
  import opened Common

  datatype Hook<S> = Exit(scene: S) | Enter(scene: S)

  datatype Manager<S> = Manager(
    scenes: map<SceneType, S>,
    current: Option<S>,
    currentType: Option<SceneType>,
    mode: GameMode)

  /** A manager after one operation, with the hooks that operation ran. */
  datatype Switched<S> = Switched(manager: Manager<S>, hooks: seq<Hook<S>>)

  /** A new manager: nothing registered, nothing active, Test mode. */
  function Empty<S>(): Manager<S> {
    Manager(map[], None, None, TestMode)
  }

  /** Registers `scene` as `t`, replacing any earlier registration of `t`. */
  function AddScene<S>(m: Manager<S>, t: SceneType, scene: S): (r: Manager<S>)
    ensures t in r.scenes && r.scenes[t] == scene
    ensures forall u :: u in m.scenes && u != t ==> u in r.scenes && r.scenes[u] == m.scenes[u]
    ensures r.scenes.Keys == m.scenes.Keys + {t}
    ensures r.current == m.current && r.currentType == m.currentType && r.mode == m.mode
  {
    m.(scenes := m.scenes[t := scene])
  }

  /** Fail-soft switch: an unregistered name changes nothing and runs no hook;
      otherwise the active scene (if any) is exited, then the new one entered. */
  function SwitchTo<S>(m: Manager<S>, t: SceneType): (r: Switched<S>)
    ensures t !in m.scenes ==> r.manager == m && r.hooks == []
    ensures t in m.scenes ==>
              && r.manager.currentType == Some(t)
              && r.manager.current == Some(m.scenes[t])
              && r.hooks == (if m.current.Some? then [Exit(m.current.value)] else [])
                            + [Enter(m.scenes[t])]
    ensures r.manager.mode == m.mode && r.manager.scenes == m.scenes
  {
    if t !in m.scenes then Switched(m, [])
    else
      var exits := if m.current.Some? then [Exit(m.current.value)] else [];
      Switched(m.(current := Some(m.scenes[t]), currentType := Some(t)), exits + [Enter(m.scenes[t])])
  }

  /** The scene `update` and `draw` are delegated to: only the active one. */
  function DelegateTarget<S>(m: Manager<S>): (r: Option<S>)
    ensures r == m.current
    ensures Consistent(m) ==> (r.Some? <==> m.currentType.Some?)
  {
    m.current
  }

  function SetMode<S>(m: Manager<S>, mode: GameMode): (r: Manager<S>)
    ensures r.mode == mode
    ensures r == m.(mode := mode)
  {
    m.(mode := mode)
  }

  /** The stored mode; only `SetMode` changes it (see `ModeIsLastSet`). */
  function GetMode<S>(m: Manager<S>): (r: GameMode)
    ensures r == m.mode
  {
    m.mode
  }

  /** The name of the active scene: a registered name exactly when some scene
      is active. */
  function GetCurrentSceneName<S>(m: Manager<S>): (r: Option<SceneType>)
    ensures r == m.currentType
    ensures Consistent(m) ==> (r.None? <==> DelegateTarget(m).None?)
    ensures Consistent(m) && r.Some? ==> r.value in m.scenes
  {
    m.currentType
  }

  /** Switching to the scene that is already active still exits and re-enters it. */
  lemma SwitchToSelfReenters<S>(m: Manager<S>, t: SceneType)
    requires m.currentType == Some(t) && t in m.scenes && m.current == Some(m.scenes[t])
    ensures SwitchTo(m, t).hooks == [Exit(m.scenes[t]), Enter(m.scenes[t])]
    ensures SwitchTo(m, t).manager == m
  {
  }

  /** Registering and then switching enters the scene just registered, even
      when `t` had an earlier registration. */
  lemma AddThenSwitchEntersNewScene<S>(m: Manager<S>, t: SceneType, scene: S)
    ensures SwitchTo(AddScene(m, t, scene), t).manager.current == Some(scene)
    ensures Enter(scene) in SwitchTo(AddScene(m, t, scene), t).hooks
  {
  }

  /** The manager operations a program performs. */
  datatype Op<S> = AddOp(t: SceneType, scene: S) | SwitchOp(target: SceneType) | SetModeOp(mode: GameMode)

  function Apply<S>(m: Manager<S>, op: Op<S>): Switched<S> {
    match op
    case AddOp(t, s) => Switched(AddScene(m, t, s), [])
    case SwitchOp(t) => SwitchTo(m, t)
    case SetModeOp(mode) => Switched(SetMode(m, mode), [])
  }

  /** The manager after `ops`, with every hook run along the way, in order. */
  function ApplyAll<S>(m: Manager<S>, ops: seq<Op<S>>): Switched<S>
    decreases |ops|
  {
    if |ops| == 0 then Switched(m, [])
    else
      var before := ApplyAll(m, ops[..|ops| - 1]);
      var last := Apply(before.manager, ops[|ops| - 1]);
      Switched(last.manager, before.hooks + last.hooks)
  }

  /** The mode set by the last `SetModeOp` in `ops`, or `mode` if there is none. */
  function LastMode<S>(ops: seq<Op<S>>, mode: GameMode): GameMode
    decreases |ops|
  {
    if |ops| == 0 then mode
    else if ops[|ops| - 1].SetModeOp? then ops[|ops| - 1].mode
    else LastMode(ops[..|ops| - 1], mode)
  }

  /** The mode changes only through `SetMode`: switches and registrations
      never alter it. */
  lemma {:induction false} ModeIsLastSet<S>(m: Manager<S>, ops: seq<Op<S>>)
    ensures ApplyAll(m, ops).manager.mode == LastMode(ops, m.mode)
    ensures GetMode(ApplyAll(m, ops).manager) == LastMode(ops, m.mode)
    decreases |ops|
  {
    if |ops| > 0 {
      ModeIsLastSet(m, ops[..|ops| - 1]);
    }
  }

  /** The hooks of a session form an exit/enter chain: they start with an
      entry, every exit leaves the scene entered just before it and is followed
      by an entry, and the active scene is the one entered last. */
  ghost predicate Chained<S>(hooks: seq<Hook<S>>, current: Option<S>) {
    && (|hooks| == 0 <==> current.None?)
    && (|hooks| > 0 ==> hooks[0].Enter? && hooks[|hooks| - 1] == Enter(current.value))
    && (forall i :: 0 < i < |hooks| && hooks[i].Exit? ==> hooks[i - 1] == Enter(hooks[i].scene))
    && (forall i :: 0 < i < |hooks| && hooks[i - 1].Exit? ==> hooks[i].Enter?)
  }

  /** The manager's own consistency: a scene is active exactly when a name is,
      and that name is registered. */
  predicate Consistent<S>(m: Manager<S>) {
    && (m.current.None? <==> m.currentType.None?)
    && (m.currentType.Some? ==> m.currentType.value in m.scenes)
  }

  /** A chain ending at `c` stays a chain when `c` is exited and `s` entered. */
  lemma ChainExtends<S>(hooks: seq<Hook<S>>, c: S, s: S)
    requires Chained(hooks, Some(c))
    ensures Chained(hooks + [Exit(c), Enter(s)], Some(s))
  {
    var all := hooks + [Exit(c), Enter(s)];
    var k := |hooks|;
    assert all[k - 1] == Enter(c) && all[k] == Exit(c) && all[k + 1] == Enter(s);
    forall i | 0 < i < |all| && all[i].Exit?
      ensures all[i - 1] == Enter(all[i].scene)
    {
      if i < k { assert all[i] == hooks[i] && all[i - 1] == hooks[i - 1]; }
    }
    forall i | 0 < i < |all| && all[i - 1].Exit?
      ensures all[i].Enter?
    {
      if i < k { assert all[i] == hooks[i] && all[i - 1] == hooks[i - 1]; }
    }
  }

  /** From a new manager, any sequence of operations keeps exactly one scene
      active once the first switch succeeds, and every hook it runs belongs to
      the exit/enter chain: no scene is exited that was not entered, and none is
      entered while another is still active. */
  lemma {:induction false} HooksAreChained<S>(ops: seq<Op<S>>)
    ensures Consistent(ApplyAll(Empty<S>(), ops).manager)
    ensures Chained(ApplyAll(Empty<S>(), ops).hooks, ApplyAll(Empty<S>(), ops).manager.current)
    decreases |ops|
  {
    if |ops| > 0 {
      var n := |ops| - 1;
      HooksAreChained(ops[..n]);
      var before := ApplyAll(Empty<S>(), ops[..n]);
      var last := Apply(before.manager, ops[n]);
      if ops[n].SwitchOp? && ops[n].target in before.manager.scenes {
        var s := before.manager.scenes[ops[n].target];
        if before.manager.current.Some? {
          assert last.hooks == [Exit(before.manager.current.value), Enter(s)];
          ChainExtends(before.hooks, before.manager.current.value, s);
        } else {
          assert before.hooks == [];
          assert before.hooks + last.hooks == [Enter(s)];
        }
      } else {
        assert last.hooks == [];
        assert before.hooks + last.hooks == before.hooks;
      }
    }
  }
}
