# Burger game rules engine in Dafny

This project models the rules engine of an augmented-reality burger-stacking game, the
`BurgerGameManager` component (`Assets/BurgerGameManager.cs`). The player first places a plate. The
manager then generates a random recipe: bottom bread, two to four fillings, top bread. Each object the
player places next is stacked on top of the previous one and its name is recorded. Once as many
ingredients are placed as the recipe has, the stack is judged against the recipe. A correct burger ends
the game, which stays completed until a reset. A wrong burger clears the placements and restarts the
stack on the plate, with the same recipe.

Files, one module each:

- `catalog.dfy` (`Catalog`): the display-name and height tables, in the source's key order. It also
  models cleaning an object's name (every `(Clone)` removed in one left-to-right pass, then
  platform white space trimmed) and classifying it: the first key, in table order, that occurs in the
  cleaned name, else the cleaned name itself.
- `recipes.dfy` (`Recipes`): the recipe produced by one set of random draws. It also holds the recipe's
  display text: a header, one `- name` line per element, then a footer.
- `game.dfy` (`Game`): the `BurgerGameManager` class. Its fields are the state, recipe, placed
  ingredients, plate object, stack cursor (`lastStackPosition`, `currentStackHeight`) and the two
  configurable settings. The methods update those fields in place. A `GameObject` class stands for the
  engine objects: a name, a position the manager overwrites when stacking, and a ghost flag recording
  that the manager asked for the object to be destroyed. The invariant `Valid()` holds after the
  constructor and is kept by `OnObjectSpawned` and `ResetGame`. `CheckBurger` restores it from a
  state with as many placements as the recipe has. `GenerateRandomRecipe` is a step inside
  `OnObjectSpawned`, taken after the state is set to building. The invariant says:
  - waiting: no recipe and nothing placed;
  - building: a plate is down, the recipe is well formed, and fewer ingredients are placed than it
    has;
  - completed: the placed ingredients are exactly the recipe.
- `scenarios.dfy` (`Scenarios`): whole rounds played only through the class contracts.

Randomness is an input. `RecipeDraws(count, picks)` stands for the values of `Random.Range(2, 5)`
and of one `Random.Range(0, 5)` per filling. Integer `Random.Range` excludes its upper bound, so
`count` is 2 to 4 and each pick is 0 to 4. Positions are `Vector3` values of `real`s.

This file has no timer, no score, no check after each placement that would fail early, no forced
patty, and no rejection of a second plate while building. In the building state, a plate is stacked
and recorded like any ingredient, and the burger is then judged wrong. The model follows the code on
every one of these points. Two further points follow from the code:

- The display names "Bottom Bread" and "Top Bread" do not classify back to their keys.
- Cleaning a name is not always idempotent: `((Clone)Clone)` cleans to `(Clone)`.
- After a correct burger the player is told to place the plate again to start a new game
  (`Assets/BurgerGameManager.cs:238`). In the completed state, though, a plate is only stacked
  (lines 121-125), and only `ResetGame` leaves that state (lines 256-262).

## Model

| member | source | states |
|---|---|---|
| `Catalog.TablesShareKeys` | Assets/BurgerGameManager.cs:34-56 | the display-name table, the height table and the search order have the same eight keys, each once, and every height is positive |
| `Catalog.DisplayNameOf` | Assets/BurgerGameManager.cs:198-205 | a known key shows its table display name; any other id shows as itself |
| `Catalog.HeightOf` | Assets/BurgerGameManager.cs:143-150 | a known key gets its (positive) table height; any other name gets the fallback |
| `Catalog.StripClone` | Assets/BurgerGameManager.cs:156 | removing "(Clone)" never lengthens the name |
| `Catalog.StripCloneWithoutTag` | Assets/BurgerGameManager.cs:156 | a name that does not contain "(Clone)" is left unchanged |
| `Catalog.StripCloneSplit` | Assets/BurgerGameManager.cs:156 | every "(Clone)" is removed: around any one occurrence, the removal of the whole name is the removal of the part before it followed by that of the part after it |
| `Catalog.StripCloneSuffix` | Assets/BurgerGameManager.cs:156 | appending "(Clone)" to any name does not change what the removal leaves |
| `Catalog.StripCloneSinglePass` | Assets/BurgerGameManager.cs:156 | the removal is a single pass: "((Clone)Clone)" leaves "(Clone)" |
| `Catalog.TrimStartCuts` | Assets/BurgerGameManager.cs:156 | cutting leading white space leaves a suffix of the input, all that was cut is white space, and the rest does not start with white space |
| `Catalog.TrimEndCuts` | Assets/BurgerGameManager.cs:156 | cutting trailing white space leaves a prefix of the input, all that was cut is white space, and the rest does not end with white space |
| `Catalog.TrimSlice` | Assets/BurgerGameManager.cs:156 | trimming leaves a slice of the input with only white space outside it and none at either of its ends |
| `Catalog.TrimUntrimmed` | Assets/BurgerGameManager.cs:156 | a name with no white space at its ends is not changed by trimming |
| `Catalog.FirstKeyInFirstMatch` | Assets/BurgerGameManager.cs:159-167 | the search returns the first key in the given order that occurs in the name (no earlier key occurs), or the name itself when no key occurs |
| `Catalog.ClassifyFirstMatch` | Assets/BurgerGameManager.cs:153-168 | the classification of a raw name is the first table key occurring in the cleaned name, else the cleaned name, in which no key occurs |
| `Catalog.ContainsChars` | Assets/BurgerGameManager.cs:161 | a substring found by the containment test consists of characters of the searched name |
| `Catalog.KeyIsClean` | Assets/BurgerGameManager.cs:156 | cleaning leaves every table key unchanged |
| `Catalog.EarlierKeysAbsent` | Assets/BurgerGameManager.cs:34-44 | no key occurs in a key that comes later in the table, so the search order never shadows a key |
| `Catalog.ClassifyKey` | Assets/BurgerGameManager.cs:153-168 | every table key classifies to itself |
| `Catalog.ClassifyClone` | Assets/BurgerGameManager.cs:156 | an instance named "X(Clone)" classifies exactly like "X" |
| `Catalog.CleanAgain` | Assets/BurgerGameManager.cs:156 | cleaning a cleaned name again changes nothing, unless it still holds a "(Clone)" |
| `Catalog.ClassifyIdempotent` | Assets/BurgerGameManager.cs:153-168 | classifying a classification again changes nothing, unless the cleaned name still holds a "(Clone)" |
| `Catalog.DisplayNameIsNotAKey` | Assets/BurgerGameManager.cs:37-38 | the display names "Bottom Bread" and "Top Bread" hold no key and classify to themselves, not to "BottomBread" and "TopBread" |
| `Recipes.RecipeFrom` | Assets/BurgerGameManager.cs:170-190 | any valid draws give a recipe with bottom bread first, top bread last, only fillings between, and length count + 2 (4 to 6) |
| `Recipes.RecipeFromCoversAll` | Assets/BurgerGameManager.cs:178-186 | every such recipe is produced by some valid draws |
| `Recipes.RecipeFromInjective` | Assets/BurgerGameManager.cs:178-186 | different draws give different recipes |
| `Recipes.RecipeLinesAppend` | Assets/BurgerGameManager.cs:196-206 | the lines of two consecutive parts of a recipe are the two blocks of lines one after the other |
| `Recipes.RecipeLineAt` | Assets/BurgerGameManager.cs:192-210 | in the recipe text, element i appears as its own "- name" line, after the header and the lines of earlier elements, and before the later lines and the footer |
| `Recipes.RecipeLinesCount` | Assets/BurgerGameManager.cs:196-206 | when no element's display name holds a newline, the lines hold exactly one newline per element |
| `Recipes.RecipeLinesOnePerElement` | Assets/BurgerGameManager.cs:196-206 | the lines of a generated recipe hold exactly one newline per element |
| `Game.BurgerGameManager.constructor` | Assets/BurgerGameManager.cs:21-32 | a new manager waits for a plate with an empty recipe, no placements and a zero cursor, and satisfies the invariant |
| `Game.BurgerGameManager.OnObjectSpawned` | Assets/BurgerGameManager.cs:80-126 | keeps the invariant. Waiting: the plate starts a game on itself with a fresh recipe and no placements; anything else is marked for destruction and nothing else changes. Building: the object is stacked and its name appended, and the burger is judged exactly when the count reaches the recipe length (completed on a match; otherwise placements cleared and cursor back on the plate with height 0). Completed: only the cursor moves |
| `Game.BurgerGameManager.PositionIngredient` | Assets/BurgerGameManager.cs:128-151 | the object is put at the cursor plus the pending height, that point becomes the cursor, and the pending height becomes the table height of the object's name or the fallback height |
| `Game.BurgerGameManager.GetIngredientNameFromObject` | Assets/BurgerGameManager.cs:153-168 | the early-return search over the keys returns the classification of the object's name |
| `Game.BurgerGameManager.GenerateRandomRecipe` | Assets/BurgerGameManager.cs:170-190 | the recipe becomes the one the draws determine and the placements are emptied |
| `Game.BurgerGameManager.GetRecipeDisplayText` | Assets/BurgerGameManager.cs:192-210 | the accumulated text is the header, one line per recipe element in order, then the footer |
| `Game.BurgerGameManager.CheckBurger` | Assets/BurgerGameManager.cs:220-253 | placements equal to the recipe complete the game with placements and cursor kept; otherwise the state stays building, placements are cleared and the cursor returns to the plate with height 0 |
| `Game.BurgerGameManager.ResetGame` | Assets/BurgerGameManager.cs:256-262 | from any state: waiting for a plate, with an empty recipe and no placements |
| `Scenarios.CloneOfKey` | Assets/BurgerGameManager.cs:153-168 | an instance of any table prefab classifies to its key |
| `Scenarios.ExampleRecipe` | Assets/BurgerGameManager.cs:170-190 | the draws 3, [0, 2, 4] give bottom bread, lettuce, cheese, burger, top bread |
| `Scenarios.StartGame` | Assets/BurgerGameManager.cs:84-97 | a "Plate(Clone)" placed at the origin starts a game on it with cursor at the plate and height 0 |
| `Scenarios.Spawn` | Assets/BurgerGameManager.cs:105-113 | an instance of a table prefab placed short of the recipe's length is stacked and recorded under its key |
| `Scenarios.SpawnLast` | Assets/BurgerGameManager.cs:105-119 | the instance that brings the placements to the recipe's length is recorded under its key and the burger is judged: completed on a match, else placements cleared and cursor back on the plate |
| `Scenarios.SpawnAfterCompletion` | Assets/BurgerGameManager.cs:121-125 | after completion an instance is only stacked; state, recipe and placements stay |
| `Scenarios.CorrectBurgerCompletes` | Assets/BurgerGameManager.cs:105-119 | placing the recipe in order completes the game, and the top bread rests 0.18 above the plate |
| `Scenarios.WrongBurgerRetries` | Assets/BurgerGameManager.cs:241-252 | a wrong second ingredient is caught only at full length; then placements are cleared and the cursor is back on the plate |
| `Scenarios.SecondPlateIsStacked` | Assets/BurgerGameManager.cs:105-113 | a second plate while building is recorded like an ingredient and the burger is judged wrong |
| `Scenarios.CompletedUntilReset` | Assets/BurgerGameManager.cs:121-125 | after completion a further object only moves the cursor, and a reset returns to waiting with an empty recipe |

## Left out

- `Start` and `OnDestroy` (subscription to the spawner's event) are host wiring. `OnObjectSpawned` is called directly.
- `UpdateRecipeUI`, the text-widget output and every `Debug.Log` are presentation. The recipe text is modelled as `GetRecipeDisplayText`'s result. The texts of the success, failure and reset messages are not modelled.
- `Destroy` of a rejected object is modelled only as the ghost flag `GameObject.destroyRequested`.
- Game.BurgerGameManager.ResetGame: destroying every child object of the spawner is engine object management and is not modelled. The method states only the manager's own fields.
- Single-precision float rounding: positions and heights are exact reals.
- The internals of `UnityEngine.Random`: its results are the `RecipeDraws` input, restricted to the ranges the calls can return.
- Catalog.IsWhiteSpace: only the fixed set of characters the platform's `Char.IsWhiteSpace` accepts is modelled. It is not derived from Unicode data.
- Catalog.Keys: the search order is the table's insertion order. .NET documents the enumeration order of a dictionary as unspecified; insertion order is what its implementation gives for a dictionary built once and never changed.
- Strings are sequences of Unicode scalar values, whereas a .NET name is a sequence of UTF-16 code units. The keys are ASCII and the white-space set holds no surrogates, so `Contains`, `Replace` and `Trim` agree either way. A name holding a lone surrogate cannot be represented.
