/** The game manager of the burger game: a state machine that waits for a
    plate, then stacks each spawned object on the plate and checks the stack
    against a generated recipe once it is as long as the recipe. */
module Game {
  import opened Catalog
  import opened Recipes

  datatype GameState = WaitingForPlate | BuildingBurger | Completed

  /** A point in space (the engine's single-precision floats, as reals). */
  datatype Vector3 = Vector3(x: real, y: real, z: real)

  /** The point `h` above `p`. */
  function Above(p: Vector3, h: real): Vector3 {
    Vector3(p.x, p.y + h, p.z)
  }

  /** An object the spawner placed in the scene: its name, its position, and
      whether the game asked the engine to destroy it. */
  class GameObject {
    const name: string
    var position: Vector3
    ghost var destroyRequested: bool

    constructor (name: string, position: Vector3)
      ensures this.name == name && this.position == position && !destroyRequested
    {
      this.name := name;
      this.position := position;
      destroyRequested := false;
    }
  }

  /** The default of the configurable fallback height (metres). */
  const DefaultStackingHeight: real := 0.05
  /** The default of the configurable plate name. */
  const DefaultPlateObjectName: string := "Plate"

  class BurgerGameManager {
    /** Height added above an ingredient that is not in the height table. */
    const stackingHeight: real
    /** The ingredient name that starts a game. */
    const plateObjectName: string

    var currentState: GameState
    var recipe: seq<string>
    var placedIngredients: seq<string>
    var plateObject: GameObject?
    /** Where the last object was put on the stack. */
    var lastStackPosition: Vector3
    /** How far above `lastStackPosition` the next object goes. */
    var currentStackHeight: real

    /** The invariant of every reachable state: waiting means no recipe and
        nothing placed; while building, a plate is down, the recipe is well
        formed and fewer ingredients are placed than it has; once completed,
        the placed ingredients are exactly the recipe. */
    ghost predicate Valid()
      reads this
    {
      match currentState
      case WaitingForPlate => recipe == [] && placedIngredients == []
      case BuildingBurger =>
        plateObject != null && IsRecipe(recipe) && |placedIngredients| < |recipe|
      case Completed =>
        plateObject != null && IsRecipe(recipe) && placedIngredients == recipe
    }

    constructor (stackingHeight: real, plateObjectName: string)
      ensures Valid()
      ensures this.stackingHeight == stackingHeight && this.plateObjectName == plateObjectName
      ensures currentState == WaitingForPlate && recipe == [] && placedIngredients == []
      ensures plateObject == null
      ensures lastStackPosition == Vector3(0.0, 0.0, 0.0) && currentStackHeight == 0.0
    {
      this.stackingHeight := stackingHeight;
      this.plateObjectName := plateObjectName;
      currentState := WaitingForPlate;
      recipe := [];
      placedIngredients := [];
      plateObject := null;
      lastStackPosition := Vector3(0.0, 0.0, 0.0);
      currentStackHeight := 0.0;
    }

    /** Handles an object the spawner has just placed. `draws` are the numbers the
        random generator would supply if this event generates a recipe. */
    method OnObjectSpawned(spawnedObject: GameObject, draws: RecipeDraws)
      requires Valid() && ValidDraws(draws)
      modifies this, spawnedObject
      ensures Valid()
      // Waiting, and the plate arrives: the game starts on it with a fresh recipe.
      ensures old(currentState) == WaitingForPlate && Classify(spawnedObject.name) == plateObjectName ==>
                currentState == BuildingBurger && plateObject == spawnedObject &&
                recipe == RecipeFrom(draws) && placedIngredients == [] &&
                spawnedObject.position == old(spawnedObject.position) &&
                lastStackPosition == spawnedObject.position && currentStackHeight == 0.0 &&
                spawnedObject.destroyRequested == old(spawnedObject.destroyRequested)
      // Waiting, and something else arrives: it is destroyed and nothing else changes.
      ensures old(currentState) == WaitingForPlate && Classify(spawnedObject.name) != plateObjectName ==>
                spawnedObject.destroyRequested && spawnedObject.position == old(spawnedObject.position) &&
                currentState == WaitingForPlate && recipe == old(recipe) &&
                placedIngredients == old(placedIngredients) && plateObject == old(plateObject) &&
                lastStackPosition == old(lastStackPosition) && currentStackHeight == old(currentStackHeight)
      // Building or completed: the object goes on top of the stack; the recipe and plate stay.
      ensures old(currentState) != WaitingForPlate ==>
                spawnedObject.position == Above(old(lastStackPosition), old(currentStackHeight)) &&
                recipe == old(recipe) && plateObject == old(plateObject) &&
                spawnedObject.destroyRequested == old(spawnedObject.destroyRequested)
      // Completed: only the stack cursor moves.
      ensures old(currentState) == Completed ==>
                currentState == Completed && placedIngredients == old(placedIngredients) &&
                lastStackPosition == spawnedObject.position &&
                currentStackHeight == HeightOf(Classify(spawnedObject.name), stackingHeight)
      // Building: the name is appended; the burger is judged once it is as long as the recipe.
      ensures old(currentState) == BuildingBurger ==>
                var placed := old(placedIngredients) + [Classify(spawnedObject.name)];
                if |placed| < |recipe| then
                  currentState == BuildingBurger && placedIngredients == placed &&
                  lastStackPosition == spawnedObject.position &&
                  currentStackHeight == HeightOf(Classify(spawnedObject.name), stackingHeight)
                else if placed == recipe then
                  currentState == Completed && placedIngredients == placed &&
                  lastStackPosition == spawnedObject.position &&
                  currentStackHeight == HeightOf(Classify(spawnedObject.name), stackingHeight)
                else
                  currentState == BuildingBurger && placedIngredients == [] &&
                  plateObject != null && lastStackPosition == plateObject.position &&
                  currentStackHeight == 0.0
    {
      var ingredientName := GetIngredientNameFromObject(spawnedObject);

      if currentState == WaitingForPlate {
        if ingredientName == plateObjectName {
          plateObject := spawnedObject;
          lastStackPosition := plateObject.position;
          currentStackHeight := 0.0;
          currentState := BuildingBurger;
          GenerateRandomRecipe(draws);
        } else {
          spawnedObject.destroyRequested := true;
        }
      } else if currentState == BuildingBurger {
        PositionIngredient(spawnedObject);
        placedIngredients := placedIngredients + [ingredientName];
        if |placedIngredients| == |recipe| {
          CheckBurger();
        }
      } else {
        PositionIngredient(spawnedObject);
      }
    }

    /** Puts an object on top of the stack and raises the cursor by the object's height. */
    method PositionIngredient(ingredient: GameObject)
      modifies this`lastStackPosition, this`currentStackHeight, ingredient`position
      ensures ingredient.position == Above(old(lastStackPosition), old(currentStackHeight))
      ensures lastStackPosition == ingredient.position
      ensures currentStackHeight == HeightOf(Classify(ingredient.name), stackingHeight)
    {
      var ingredientName := GetIngredientNameFromObject(ingredient);
      var newPosition := Vector3(lastStackPosition.x,
                                 lastStackPosition.y + currentStackHeight,
                                 lastStackPosition.z);
      ingredient.position := newPosition;
      lastStackPosition := newPosition;
      currentStackHeight := HeightOf(ingredientName, stackingHeight);
    }

    /** The ingredient key of an object: the first key, in table order, found in
        its name once "(Clone)" is removed and the name trimmed; else that name. */
    method GetIngredientNameFromObject(ingredient: GameObject) returns (name: string)
      ensures name == Classify(ingredient.name)
    {
      var fullName := Trim(StripClone(ingredient.name));
      ghost var answer := Classify(ingredient.name);
      assert answer == FirstKeyIn(Keys, fullName);
      var i := 0;
      while i < |Keys|
        invariant 0 <= i <= |Keys|
        invariant FirstKeyIn(Keys[i..], fullName) == answer
      {
        var knownIngredient := Keys[i];
        FirstKeyInStep(Keys[i..], fullName);
        if Contains(fullName, knownIngredient) {
          return knownIngredient;
        }
        assert Keys[i..][1..] == Keys[i + 1..];
        i := i + 1;
      }
      return fullName;
    }

    /** Replaces the recipe with bottom bread, the drawn fillings and top bread,
        and clears the placed ingredients. */
    method GenerateRandomRecipe(draws: RecipeDraws)
      requires ValidDraws(draws)
      modifies this`recipe, this`placedIngredients
      ensures recipe == RecipeFrom(draws) && placedIngredients == []
    {
      recipe := [];
      placedIngredients := [];
      recipe := recipe + ["BottomBread"];
      var ingredientCount := draws.count;
      var i := 0;
      while i < ingredientCount
        invariant 0 <= i <= ingredientCount
        invariant recipe == ["BottomBread"] + Fillings(draws.picks[..i])
        invariant placedIngredients == []
      {
        var randomIngredient := PossibleIngredients[draws.picks[i]];
        recipe := recipe + [randomIngredient];
        i := i + 1;
      }
      assert draws.picks[..i] == draws.picks;
      recipe := recipe + ["TopBread"];
    }

    /** The text that shows the current recipe. */
    method GetRecipeDisplayText() returns (text: string)
      ensures text == RecipeText(recipe)
    {
      text := RecipeHeader;
      var i := 0;
      while i < |recipe|
        invariant 0 <= i <= |recipe|
        invariant text == RecipeHeader + RecipeLines(recipe[..i])
      {
        var ingredient := recipe[i];
        var line := "- " + DisplayNameOf(ingredient) + "\n";
        assert line == RecipeLine(ingredient) == RecipeLines([ingredient]);
        text := text + line;
        RecipeLinesAppend(recipe[..i], [ingredient]);
        assert recipe[..i + 1] == recipe[..i] + [ingredient];
        i := i + 1;
      }
      assert recipe[..i] == recipe;
      text := text + RecipeFooter;
    }

    /** Judges a burger as long as its recipe: a match completes the game; a
        mismatch clears the placed ingredients and returns the cursor to the plate. */
    method CheckBurger()
      requires currentState == BuildingBurger && plateObject != null
      requires IsRecipe(recipe) && |placedIngredients| == |recipe|
      modifies this`currentState, this`placedIngredients, this`lastStackPosition, this`currentStackHeight
      ensures Valid()
      ensures old(placedIngredients) == recipe ==>
                currentState == Completed && placedIngredients == old(placedIngredients) &&
                lastStackPosition == old(lastStackPosition) && currentStackHeight == old(currentStackHeight)
      ensures old(placedIngredients) != recipe ==>
                currentState == BuildingBurger && placedIngredients == [] &&
                lastStackPosition == plateObject.position && currentStackHeight == 0.0
    {
      var isCorrect := true;
      var i := 0;
      while i < |recipe|
        invariant 0 <= i <= |recipe|
        invariant forall j :: 0 <= j < i ==> j < |placedIngredients| && recipe[j] == placedIngredients[j]
      {
        if i >= |placedIngredients| || recipe[i] != placedIngredients[i] {
          isCorrect := false;
          break;
        }
        i := i + 1;
      }

      if isCorrect {
        currentState := Completed;
      } else {
        placedIngredients := [];
        currentStackHeight := 0.0;
        lastStackPosition := plateObject.position;
      }
    }

    /** Back to waiting for a plate, with no recipe and nothing placed. */
    method ResetGame()
      modifies this`currentState, this`placedIngredients, this`recipe
      ensures Valid()
      ensures currentState == WaitingForPlate && placedIngredients == [] && recipe == []
    {
      currentState := WaitingForPlate;
      placedIngredients := [];
      recipe := [];
    }
  }
}
