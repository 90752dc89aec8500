/** The engine: the array of scenes, grown by copying into a fresh array
    one longer, and the index of the scene that Start, Update, Draw and End
    act on. */
module Engines {

  import opened Outcomes

  /** A scene. Its own start, update, draw and end steps are not part of
      this model. */
  class Scene {
    constructor() {
    }
  }

  /** The current scene index is a private static field that nothing
      assigns, so it keeps its default value 0. */
  const CurrentSceneIndex: int := 0

  class Engine {
    var scenes: array<Scene?>

    /** No slot of the scene array is null. */
    predicate Valid()
      reads this, scenes
    {
      forall i :: 0 <= i < scenes.Length ==> scenes[i] != null
    }

    /** `new Engine()`: no scenes yet, so every step would fail to index. */
    constructor()
      ensures fresh(scenes) && scenes.Length == 0
      ensures Valid()
      ensures CurrentScene() == Threw(IndexOutOfRangeException)
    {
      scenes := new Scene?[0];
    }

    /** The scene that Start, Update, Draw and End call into: indexing the
        array throws when it has no slot at the current index, and the call
        throws when that slot is null. */
    function CurrentScene(): (r: Outcome<Scene>)
      reads this, scenes
      ensures r == Threw(IndexOutOfRangeException) <==> scenes.Length <= CurrentSceneIndex
      ensures scenes.Length > CurrentSceneIndex && Valid() ==> r == Returned(scenes[CurrentSceneIndex])
    {
      if CurrentSceneIndex < 0 || scenes.Length <= CurrentSceneIndex then Threw(IndexOutOfRangeException)
      else if scenes[CurrentSceneIndex] == null then Threw(NullReferenceException)
      else Returned(scenes[CurrentSceneIndex])
    }

    /** Appends scene to a fresh copy of the scene array and returns its
        index, the old length. Earlier scenes keep their indices, so the
        current scene changes only when the array was empty before. */
    method AddScene(scene: Scene) returns (index: int)
      modifies this`scenes
      ensures fresh(scenes)
      ensures scenes[..] == old(scenes[..]) + [scene]
      ensures index == old(scenes.Length) && scenes[index] == scene
      ensures old(Valid()) ==> Valid()
      ensures old(scenes.Length) == 0 ==> CurrentScene() == Returned(scene)
      ensures old(scenes.Length) > 0 ==> CurrentScene() == old(CurrentScene())
    {
      var tempArray := new Scene?[scenes.Length + 1](_ => null);
      for i := 0 to scenes.Length
        modifies tempArray
        invariant tempArray[..i] == scenes[..i]
      {
        tempArray[i] := scenes[i];
      }
      tempArray[scenes.Length] := scene;
      assert tempArray[..] == scenes[..] + [scene];
      scenes := tempArray;
      return scenes.Length - 1;
    }
  }

  /** Adding a first scene to a new engine gives index 0 and makes it the
      scene every step acts on. */
  method FirstSceneIsCurrent(scene: Scene) returns (index: int, current: Outcome<Scene>)
    ensures index == 0 && current == Returned(scene)
  {
    var engine := new Engine();
    index := engine.AddScene(scene);
    current := engine.CurrentScene();
  }
}
