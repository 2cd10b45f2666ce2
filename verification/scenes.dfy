/** The scene manager (`SceneManager`): a table of scene creators per
    scene type, the current type and the current scene. Creators are
    opaque ids and running one is the parameter `run`, which yields the
    created scene or nothing (a null pointer). The director's
    `replaceScene` call is reported as the scene handed over and whether
    it goes through the fade transition. */
module Scenes {
  import opened Base

  datatype SceneType = NoScene | Title | Gameplay | BossFight | GameOver

  type Creator = nat
  type Scene = nat

  datatype Manager = Manager(creators: map<SceneType, Creator>, current: SceneType, scene: Option<Scene>)

  /** A `replaceScene` call on the director. */
  datatype Replace = Replace(scene: Scene, fade: bool)

  /** The constructor: no creators, type NONE, no scene. */
  function Create(): (m: Manager)
    ensures m.current == NoScene && m.scene.None? && m.creators == map[]
  {
    Manager(map[], NoScene, None)
  }

  /** `registerScene`: sets the type's creator, replacing any earlier one. */
  function Register(m: Manager, t: SceneType, c: Creator): (r: Manager)
    ensures t in r.creators && r.creators[t] == c
    ensures forall u :: u != t ==> (u in r.creators <==> u in m.creators)
    ensures forall u :: u != t && u in m.creators ==> r.creators[u] == m.creators[u]
    ensures r.current == m.current && r.scene == m.scene
  {
    m.(creators := m.creators[t := c])
  }

  /** Registering twice for one type keeps only the second creator. */
  lemma RegisterOverwrites(m: Manager, t: SceneType, c1: Creator, c2: Creator)
    ensures Register(Register(m, t, c1), t, c2) == Register(m, t, c2)
  {
    assert Register(Register(m, t, c1), t, c2).creators == Register(m, t, c2).creators;
  }

  /** `switchScene`: the current type is a no-op; an unregistered type or
      a creator that yields nothing changes nothing; otherwise the created
      scene replaces the running one and becomes current. */
  function Switch(m: Manager, t: SceneType, fade: bool, run: Creator -> Option<Scene>): (r: (Manager, Option<Replace>))
    ensures t == m.current ==> r == (m, None)
    ensures t != m.current && t !in m.creators ==> r == (m, None)
    ensures t != m.current && t in m.creators && run(m.creators[t]).None? ==> r == (m, None)
    ensures r.1.Some? <==> t != m.current && t in m.creators && run(m.creators[t]).Some?
    ensures r.1.Some? ==> r.0 == m.(current := t, scene := Some(r.1.value.scene)) &&
                          r.1.value == Replace(run(m.creators[t]).value, fade)
  {
    if t == m.current then (m, None)
    else if t !in m.creators then (m, None)
    else
      var created := run(m.creators[t]);
      if created.None? then (m, None)
      else (m.(current := t, scene := created), Some(Replace(created.value, fade)))
  }

  /** Switching again to the type just switched to does nothing, whatever
      happened the first time. */
  lemma SwitchIdempotent(m: Manager, t: SceneType, fade1: bool, fade2: bool, run: Creator -> Option<Scene>)
    ensures var once := Switch(m, t, fade1, run).0;
            once.current == t ==> Switch(once, t, fade2, run) == (once, None)
  {
  }

  /** A registered creator that yields a scene is reached by switching to
      its type from any other type: afterwards the type and the scene are
      the registered creator's. */
  lemma RegisterThenSwitch(m: Manager, t: SceneType, c: Creator, fade: bool, run: Creator -> Option<Scene>)
    requires t != m.current && run(c).Some?
    ensures var r := Switch(Register(m, t, c), t, fade, run);
            r.0.current == t && r.0.scene == run(c) && r.1 == Some(Replace(run(c).value, fade))
  {
  }

  /** A switch leaves the creators alone, and afterwards the current type
      is either the one before or the requested one. */
  lemma SwitchKeepsCreators(m: Manager, t: SceneType, fade: bool, run: Creator -> Option<Scene>)
    ensures Switch(m, t, fade, run).0.creators == m.creators
    ensures Switch(m, t, fade, run).0.current in {m.current, t}
  {
  }
}
