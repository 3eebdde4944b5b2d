/** Recipes of the burger game: what a generated recipe is, how the random
    draws determine it, and the text that shows a recipe to the player. */
module Recipes {
  import opened Catalog

  /** The fillings a recipe may hold between its breads, in the order a random
      index selects them. */
  const PossibleIngredients: seq<string> := ["Lettuce", "Onion", "Cheese", "Tomato", "Burger"]

  /** The numbers the random generator supplies for one recipe: the filling
      count, drawn from [2, 5), and one index per filling, drawn from [0, 5). */
  datatype RecipeDraws = RecipeDraws(count: int, picks: seq<int>)

  predicate ValidDraws(d: RecipeDraws) {
    2 <= d.count < 5 && |d.picks| == d.count &&
    forall i :: 0 <= i < |d.picks| ==> 0 <= d.picks[i] < |PossibleIngredients|
  }

  /** A recipe: bottom bread, two to four fillings, top bread. */
  predicate IsRecipe(r: seq<string>) {
    4 <= |r| <= 6 && r[0] == "BottomBread" && r[|r| - 1] == "TopBread" &&
    forall i :: 0 < i < |r| - 1 ==> r[i] in PossibleIngredients
  }

  /** The fillings the indices select, in draw order. */
  function Fillings(picks: seq<int>): seq<string>
    requires forall i :: 0 <= i < |picks| ==> 0 <= picks[i] < |PossibleIngredients|
  {
    seq(|picks|, i requires 0 <= i < |picks| => PossibleIngredients[picks[i]])
  }

  /** The recipe that a set of draws produces. */
  function RecipeFrom(d: RecipeDraws): (r: seq<string>)
    requires ValidDraws(d)
    ensures IsRecipe(r) && |r| == d.count + 2
  {
    ["BottomBread"] + Fillings(d.picks) + ["TopBread"]
  }

  /** Position of an element in a sequence that holds it. */
  function IndexOf(xs: seq<string>, x: string): (k: int)
    requires x in xs
    ensures 0 <= k < |xs| && xs[k] == x
  {
    if xs[0] == x then 0 else 1 + IndexOf(xs[1..], x)
  }

  /** The indices of some fillings select exactly those fillings. */
  lemma PicksOfFillings(fs: seq<string>) returns (picks: seq<int>)
    requires forall i :: 0 <= i < |fs| ==> fs[i] in PossibleIngredients
    ensures |picks| == |fs|
    ensures forall i :: 0 <= i < |picks| ==> 0 <= picks[i] < |PossibleIngredients|
    ensures Fillings(picks) == fs
  {
    picks := seq(|fs|, i requires 0 <= i < |fs| => IndexOf(PossibleIngredients, fs[i]));
  }

  /** Every recipe can be generated: some valid draws produce it. */
  lemma RecipeFromCoversAll(r: seq<string>)
    requires IsRecipe(r)
    ensures exists d :: ValidDraws(d) && RecipeFrom(d) == r
  {
    var fs := r[1..|r| - 1];
    var picks := PicksOfFillings(fs);
    var d := RecipeDraws(|fs|, picks);
    assert r == ["BottomBread"] + fs + ["TopBread"];
    assert ValidDraws(d) && RecipeFrom(d) == r;
  }

  /** Different draws give different recipes, so the draws are recoverable from the recipe. */
  lemma RecipeFromInjective(d1: RecipeDraws, d2: RecipeDraws)
    requires ValidDraws(d1) && ValidDraws(d2)
    requires RecipeFrom(d1) == RecipeFrom(d2)
    ensures d1 == d2
  {
    var r := RecipeFrom(d1);
    forall i | 0 <= i < d1.count ensures d1.picks[i] == d2.picks[i] {
      assert r[i + 1] == PossibleIngredients[d1.picks[i]] == PossibleIngredients[d2.picks[i]];
    }
    assert d1.picks == d2.picks;
  }

  // ---------------------------------------------------------------------------
  // Display text

  const RecipeHeader: string := "Make a burger with:\n"
  const RecipeFooter: string := "\n(Place ingredients in order from bottom to top)"

  /** The line that shows one recipe element. */
  function RecipeLine(id: string): string {
    "- " + DisplayNameOf(id) + "\n"
  }

  /** The lines of all recipe elements, in recipe order. */
  function RecipeLines(r: seq<string>): string {
    if r == [] then "" else RecipeLine(r[0]) + RecipeLines(r[1..])
  }

  /** The whole text shown for a recipe. */
  function RecipeText(r: seq<string>): string {
    RecipeHeader + RecipeLines(r) + RecipeFooter
  }

  /** The lines of two consecutive parts of a recipe are the two blocks of lines one after the other. */
  lemma {:induction false} RecipeLinesAppend(a: seq<string>, b: seq<string>)
    ensures RecipeLines(a + b) == RecipeLines(a) + RecipeLines(b)
  {
    if a != [] {
      assert (a + b)[1..] == a[1..] + b;
      RecipeLinesAppend(a[1..], b);
    } else {
      assert a + b == b;
    }
  }

  /** Element i of the recipe is shown by its own line, after the lines of the
      elements before it and before the lines of those after it. */
  lemma RecipeLineAt(r: seq<string>, i: int)
    requires 0 <= i < |r|
    ensures RecipeText(r) ==
            RecipeHeader + (RecipeLines(r[..i]) + (RecipeLine(r[i]) + RecipeLines(r[i + 1..]))) + RecipeFooter
  {
    var before, rest := r[..i], r[i + 1..];
    assert r == before + ([r[i]] + rest);
    RecipeLinesAppend(before, [r[i]] + rest);
    assert ([r[i]] + rest)[1..] == rest;
  }

  /** Number of occurrences of a character. */
  function CountChar(s: string, c: char): nat {
    if s == [] then 0 else (if s[0] == c then 1 else 0) + CountChar(s[1..], c)
  }

  lemma {:induction false} CountCharAppend(s: string, t: string, c: char)
    ensures CountChar(s + t, c) == CountChar(s, c) + CountChar(t, c)
  {
    if s != [] {
      assert (s + t)[1..] == s[1..] + t;
      CountCharAppend(s[1..], t, c);
    } else {
      assert s + t == t;
    }
  }

  lemma {:induction false} CountCharAbsent(s: string, c: char)
    requires c !in s
    ensures CountChar(s, c) == 0
  {
    if s != [] {
      CountCharAbsent(s[1..], c);
    }
  }

  /** Recipe elements are shown one per line: when no element's display name
      holds a newline, the lines hold exactly one newline per element. */
  lemma {:induction false} RecipeLinesCount(r: seq<string>)
    requires forall i :: 0 <= i < |r| ==> '\n' !in DisplayNameOf(r[i])
    ensures CountChar(RecipeLines(r), '\n') == |r|
  {
    if r != [] {
      var name := DisplayNameOf(r[0]);
      CountCharAbsent(name, '\n');
      CountCharAppend("- ", name, '\n');
      CountCharAppend("- " + name, "\n", '\n');
      CountCharAppend(RecipeLine(r[0]), RecipeLines(r[1..]), '\n');
      RecipeLinesCount(r[1..]);
    }
  }

  /** No display name spans more than one line. */
  lemma DisplayNamesSingleLine()
    ensures forall k :: k in DisplayNames ==> '\n' !in DisplayNames[k]
  {
  }

  /** An id without a newline is shown on a single line. */
  lemma DisplayNameSingleLine(id: string)
    requires '\n' !in id
    ensures '\n' !in DisplayNameOf(id)
  {
    DisplayNamesSingleLine();
  }

  /** No possible filling holds a newline. */
  lemma FillingSingleLine(k: int)
    requires 0 <= k < |PossibleIngredients|
    ensures '\n' !in PossibleIngredients[k]
  {
  }

  /** No element of a recipe holds a newline. */
  lemma RecipeElementsSingleLine(r: seq<string>)
    requires IsRecipe(r)
    ensures forall i :: 0 <= i < |r| ==> '\n' !in r[i]
  {
    forall i | 0 <= i < |r| ensures '\n' !in r[i] {
      if 0 < i < |r| - 1 {
        FillingSingleLine(IndexOf(PossibleIngredients, r[i]));
      }
    }
  }

  /** The lines of a recipe hold exactly one newline per recipe element. */
  lemma RecipeLinesOnePerElement(r: seq<string>)
    requires IsRecipe(r)
    ensures CountChar(RecipeLines(r), '\n') == |r|
  {
    RecipeElementsSingleLine(r);
    forall i | 0 <= i < |r| ensures '\n' !in DisplayNameOf(r[i]) {
      DisplayNameSingleLine(r[i]);
    }
    RecipeLinesCount(r);
  }
}
