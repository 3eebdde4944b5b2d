/** Whole rounds of the burger game, played against the contracts of the game
    manager: the engine names each spawned object after its prefab with
    "(Clone)" appended. */
module Scenarios {
  import opened Catalog
  import opened Recipes
  import opened Game

  /** An instance of a known prefab classifies to the prefab's key. */
  lemma CloneOfKey(k: string)
    requires k in Keys
    ensures Classify(k + CloneTag) == k
  {
    ClassifyClone(k);
    ClassifyKey(k);
  }

  /** The draws (3, [0, 2, 4]) give the recipe with Lettuce, Cheese and Burger. */
  lemma ExampleRecipe()
    ensures ValidDraws(RecipeDraws(3, [0, 2, 4]))
    ensures RecipeFrom(RecipeDraws(3, [0, 2, 4])) ==
            ["BottomBread", "Lettuce", "Cheese", "Burger", "TopBread"]
  {
    var draws := RecipeDraws(3, [0, 2, 4]);
    assert ValidDraws(draws);
    var f := Fillings(draws.picks);
    assert f[0] == "Lettuce" && f[1] == "Cheese" && f[2] == "Burger";
    assert f == ["Lettuce", "Cheese", "Burger"];
  }

  /** The heights of the layers of the example recipe. */
  lemma LayerHeights()
    ensures Heights["BottomBread"] == 0.1 && Heights["Lettuce"] == 0.02 && Heights["Cheese"] == 0.01
    ensures Heights["Burger"] == 0.05 && Heights["TopBread"] == 0.1 && Heights["Plate"] == 0.02
  {
  }

  /** Starts a game on a plate at the origin; the draws pick Lettuce, Cheese and Burger. */
  method StartGame() returns (m: BurgerGameManager, plate: GameObject)
    ensures fresh(m) && fresh(plate) && m.Valid()
    ensures m.stackingHeight == DefaultStackingHeight
    ensures m.currentState == BuildingBurger && m.plateObject == plate
    ensures m.recipe == ["BottomBread", "Lettuce", "Cheese", "Burger", "TopBread"]
    ensures m.placedIngredients == []
    ensures plate.position == Vector3(0.0, 0.0, 0.0)
    ensures m.lastStackPosition == plate.position && m.currentStackHeight == 0.0
  {
    var draws := RecipeDraws(3, [0, 2, 4]);
    ExampleRecipe();
    m := new BurgerGameManager(DefaultStackingHeight, DefaultPlateObjectName);
    plate := new GameObject("Plate" + CloneTag, Vector3(0.0, 0.0, 0.0));
    CloneOfKey("Plate");
    m.OnObjectSpawned(plate, draws);
  }

  /** Spawns an instance of a known prefab into a game in progress, short of
      its last ingredient: it is stacked and recorded under its key. */
  method Spawn(m: BurgerGameManager, k: string) returns (obj: GameObject)
    requires m.Valid() && m.currentState == BuildingBurger && k in Keys
    requires |m.placedIngredients| + 1 < |m.recipe|
    modifies m
    ensures fresh(obj) && m.Valid() && m.currentState == BuildingBurger
    ensures obj.position == Above(old(m.lastStackPosition), old(m.currentStackHeight))
    ensures m.recipe == old(m.recipe) && m.plateObject == old(m.plateObject)
    ensures m.placedIngredients == old(m.placedIngredients) + [k]
    ensures m.lastStackPosition == obj.position && m.currentStackHeight == Heights[k]
  {
    var unused := RecipeDraws(2, [0, 0]);
    assert ValidDraws(unused);
    obj := new GameObject(k + CloneTag, Vector3(1.0, 1.0, 1.0));
    CloneOfKey(k);
    m.OnObjectSpawned(obj, unused);
  }

  /** Spawns the last ingredient of a burger: the burger is judged. */
  method SpawnLast(m: BurgerGameManager, k: string) returns (obj: GameObject)
    requires m.Valid() && m.currentState == BuildingBurger && k in Keys
    requires |m.placedIngredients| + 1 == |m.recipe|
    modifies m
    ensures fresh(obj) && m.Valid()
    ensures obj.position == Above(old(m.lastStackPosition), old(m.currentStackHeight))
    ensures m.recipe == old(m.recipe) && m.plateObject == old(m.plateObject)
    ensures old(m.placedIngredients) + [k] == m.recipe ==>
              m.currentState == Completed && m.placedIngredients == m.recipe &&
              m.lastStackPosition == obj.position && m.currentStackHeight == Heights[k]
    ensures old(m.placedIngredients) + [k] != m.recipe ==>
              m.currentState == BuildingBurger && m.placedIngredients == [] &&
              m.plateObject != null && m.lastStackPosition == m.plateObject.position &&
              m.currentStackHeight == 0.0
  {
    var unused := RecipeDraws(2, [0, 0]);
    assert ValidDraws(unused);
    obj := new GameObject(k + CloneTag, Vector3(1.0, 1.0, 1.0));
    CloneOfKey(k);
    m.OnObjectSpawned(obj, unused);
  }

  /** Spawns an instance of a known prefab after the burger is complete: it is
      only stacked. */
  method SpawnAfterCompletion(m: BurgerGameManager, k: string) returns (obj: GameObject)
    requires m.Valid() && m.currentState == Completed && k in Keys
    modifies m
    ensures fresh(obj) && m.Valid() && m.currentState == Completed
    ensures obj.position == Above(old(m.lastStackPosition), old(m.currentStackHeight))
    ensures m.recipe == old(m.recipe) && m.placedIngredients == old(m.placedIngredients)
    ensures m.lastStackPosition == obj.position && m.currentStackHeight == Heights[k]
  {
    var unused := RecipeDraws(2, [0, 0]);
    assert ValidDraws(unused);
    obj := new GameObject(k + CloneTag, Vector3(1.0, 1.0, 1.0));
    CloneOfKey(k);
    m.OnObjectSpawned(obj, unused);
  }

  /** Placing the recipe in order completes the game, each ingredient resting on
      the one below it: the top bread sits 0.1 + 0.02 + 0.01 + 0.05 above the plate. */
  method CorrectBurgerCompletes() returns (m: BurgerGameManager, top: GameObject)
    ensures fresh(m) && m.Valid() && m.currentState == Completed
    ensures m.placedIngredients == m.recipe
    ensures top.position == Vector3(0.0, 0.18, 0.0)
    ensures m.lastStackPosition == top.position && m.currentStackHeight == 0.1
  {
    var plate;
    m, plate := StartGame();
    LayerHeights();
    var bottom := Spawn(m, "BottomBread");
    assert m.placedIngredients == ["BottomBread"];
    assert bottom.position == Vector3(0.0, 0.0, 0.0) && m.currentStackHeight == 0.1;
    var lettuce := Spawn(m, "Lettuce");
    assert m.placedIngredients == ["BottomBread", "Lettuce"];
    assert lettuce.position == Vector3(0.0, 0.1, 0.0) && m.currentStackHeight == 0.02;
    var cheese := Spawn(m, "Cheese");
    assert m.placedIngredients == ["BottomBread", "Lettuce", "Cheese"];
    assert m.lastStackPosition == Vector3(0.0, 0.12, 0.0) && m.currentStackHeight == 0.01;
    var burger := Spawn(m, "Burger");
    assert m.placedIngredients == ["BottomBread", "Lettuce", "Cheese", "Burger"];
    assert m.lastStackPosition == Vector3(0.0, 0.13, 0.0) && m.currentStackHeight == 0.05;
    top := SpawnLast(m, "TopBread");
    assert m.placedIngredients == m.recipe;
  }

  /** A wrong ingredient is not caught when placed: the burger is judged only at
      full length, and then the placements are cleared and the stack starts again
      on the plate. */
  method WrongBurgerRetries() returns (m: BurgerGameManager, plate: GameObject)
    ensures m.Valid() && m.currentState == BuildingBurger
    ensures m.recipe == ["BottomBread", "Lettuce", "Cheese", "Burger", "TopBread"]
    ensures m.placedIngredients == []
    ensures m.lastStackPosition == plate.position == Vector3(0.0, 0.0, 0.0)
    ensures m.currentStackHeight == 0.0
  {
    m, plate := StartGame();
    var bottom := Spawn(m, "BottomBread");
    var onion := Spawn(m, "Onion");
    assert m.placedIngredients[1] != m.recipe[1];
    assert m.currentState == BuildingBurger && m.placedIngredients == ["BottomBread", "Onion"];
    var cheese := Spawn(m, "Cheese");
    assert m.placedIngredients == ["BottomBread", "Onion", "Cheese"];
    var burger := Spawn(m, "Burger");
    assert m.placedIngredients == ["BottomBread", "Onion", "Cheese", "Burger"];
    var top := SpawnLast(m, "TopBread");
  }

  /** A second plate while building is stacked like any ingredient, and a burger
      holding it is judged wrong. */
  method SecondPlateIsStacked() returns (m: BurgerGameManager)
    ensures m.Valid() && m.currentState == BuildingBurger && m.placedIngredients == []
  {
    var plate;
    m, plate := StartGame();
    var bottom := Spawn(m, "BottomBread");
    var second := Spawn(m, "Plate");
    assert m.placedIngredients[1] != m.recipe[1];
    assert m.placedIngredients == ["BottomBread", "Plate"];
    var cheese := Spawn(m, "Cheese");
    assert m.placedIngredients == ["BottomBread", "Plate", "Cheese"];
    var burger := Spawn(m, "Burger");
    assert m.placedIngredients == ["BottomBread", "Plate", "Cheese", "Burger"];
    var top := SpawnLast(m, "TopBread");
  }

  /** After completion, further objects only move the cursor; only a reset
      leaves the completed state. */
  method CompletedUntilReset() returns (m: BurgerGameManager)
    ensures m.Valid() && m.currentState == WaitingForPlate
    ensures m.recipe == [] && m.placedIngredients == []
  {
    var top;
    m, top := CorrectBurgerCompletes();
    LayerHeights();
    var extra := SpawnAfterCompletion(m, "Plate");
    assert m.currentState == Completed && m.lastStackPosition == Vector3(0.0, 0.28, 0.0);
    m.ResetGame();
  }
}
