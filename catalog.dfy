/** The ingredient catalog of the burger game: the two lookup tables keyed by
    ingredient name, the cleaning of a spawned object's name (dropping every
    "(Clone)" and trimming white space) and the classification of a cleaned
    name to the first known key it contains. */
module Catalog {

  /** The keys of the display-name table, in the order in which the table is
      enumerated (its insertion order). Classification tries them in this order. */
  const Keys: seq<string> :=
    ["Plate", "BottomBread", "TopBread", "Lettuce", "Onion", "Cheese", "Tomato", "Burger"]

  /** Display name of each known ingredient. */
  const DisplayNames: map<string, string> :=
    map["Plate" := "Plate", "BottomBread" := "Bottom Bread", "TopBread" := "Top Bread",
        "Lettuce" := "Lettuce", "Onion" := "Onion", "Cheese" := "Cheese",
        "Tomato" := "Tomato", "Burger" := "Burger"]

  /** How much each known ingredient raises the stack (metres). */
  const Heights: map<string, real> :=
    map["Plate" := 0.02, "BottomBread" := 0.1, "TopBread" := 0.1,
        "Lettuce" := 0.02, "Onion" := 0.02, "Cheese" := 0.01,
        "Tomato" := 0.05, "Burger" := 0.05]

  /** The decoration the engine appends to the name of an instantiated prefab. */
  const CloneTag: string := "(Clone)"

  /** The display-name table has exactly the keys that classification searches. */
  lemma DisplayNamesKeys()
    ensures forall k :: k in Keys <==> k in DisplayNames
  {
  }

  /** The height table has exactly the keys that classification searches. */
  lemma HeightsKeys()
    ensures forall k :: k in Keys <==> k in Heights
  {
  }

  /** The search order holds each key once. */
  lemma KeysDistinct()
    ensures forall i, j :: 0 <= i < j < |Keys| ==> Keys[i] != Keys[j]
  {
  }

  /** Every table height is positive. */
  lemma HeightsPositive()
    ensures forall k :: k in Heights ==> Heights[k] > 0.0
  {
  }

  /** Both tables have exactly the keys that classification searches, each once. */
  lemma TablesShareKeys()
    ensures forall k :: k in Keys <==> k in DisplayNames
    ensures forall k :: k in Keys <==> k in Heights
    ensures forall i, j :: 0 <= i < j < |Keys| ==> Keys[i] != Keys[j]
    ensures forall k :: k in Heights ==> Heights[k] > 0.0
  {
    DisplayNamesKeys();
    HeightsKeys();
    KeysDistinct();
    HeightsPositive();
  }

  /** Display name of an ingredient key; a key missing from the table shows as itself. */
  function DisplayNameOf(id: string): (name: string)
    ensures id in Keys ==> name == DisplayNames[id]
    ensures id !in Keys ==> name == id
  {
    if id in DisplayNames then DisplayNames[id] else id
  }

  /** Stack height of an ingredient key; a key missing from the table gets `fallback`. */
  function HeightOf(id: string, fallback: real): (h: real)
    ensures id in Keys ==> h == Heights[id] && h > 0.0
    ensures id !in Keys ==> h == fallback
  {
    if id in Heights then Heights[id] else fallback
  }

  // ---------------------------------------------------------------------------
  // Substrings

  predicate IsPrefixOf(p: string, s: string) {
    |p| <= |s| && s[..|p|] == p
  }

  /** Ordinal substring test: `sub` occurs in `s` at some position. */
  predicate Contains(s: string, sub: string)
    decreases |s|
  {
    IsPrefixOf(sub, s) || (|s| > 0 && Contains(s[1..], sub))
  }

  /** Every character of an occurring substring is a character of the string. */
  lemma {:induction false} ContainsChars(s: string, sub: string, c: char)
    requires Contains(s, sub) && c in sub
    ensures c in s
    decreases |s|
  {
    if IsPrefixOf(sub, s) {
      var k :| 0 <= k < |sub| && sub[k] == c;
      assert s[k] == c;
    } else {
      ContainsChars(s[1..], sub, c);
    }
  }

  /** A string holds no substring longer than itself. */
  lemma {:induction false} ContainsLength(s: string, sub: string)
    requires Contains(s, sub)
    ensures |sub| <= |s|
    decreases |s|
  {
    if !IsPrefixOf(sub, s) {
      ContainsLength(s[1..], sub);
    }
  }

  // ---------------------------------------------------------------------------
  // Removing "(Clone)"

  /** Every occurrence of "(Clone)" removed, scanning once from left to right;
      what the removal brings together is not scanned again. */
  function StripClone(s: string): (r: string)
    ensures |r| <= |s|
    decreases |s|
  {
    if |s| < |CloneTag| then s
    else if s[..|CloneTag|] == CloneTag then StripClone(s[|CloneTag|..])
    else [s[0]] + StripClone(s[1..])
  }

  /** A name without "(Clone)" is left as it is. */
  lemma {:induction false} StripCloneWithoutTag(s: string)
    requires !Contains(s, CloneTag)
    ensures StripClone(s) == s
    decreases |s|
  {
    if |s| >= |CloneTag| {
      assert !IsPrefixOf(CloneTag, s);
      assert !Contains(s[1..], CloneTag);
      StripCloneWithoutTag(s[1..]);
      assert s == [s[0]] + s[1..];
    }
  }

  /** "(Clone)" cannot start inside a shorter leftover: its only '(' is its first character. */
  lemma OpenParenOnlyFirst(k: int)
    requires 0 < k < |CloneTag|
    ensures CloneTag[k] != '('
  {
  }

  /** A name shorter than the tag is left as it is. */
  lemma StripCloneShort(s: string)
    requires |s| < |CloneTag|
    ensures StripClone(s) == s
  {
  }

  /** A tag at the head of the name is dropped. */
  lemma StripCloneDrop(s: string)
    requires |s| >= |CloneTag| && s[..|CloneTag|] == CloneTag
    ensures StripClone(s) == StripClone(s[|CloneTag|..])
  {
  }

  /** Any other head character is kept. */
  lemma StripCloneKeep(s: string)
    requires |s| >= |CloneTag| && s[..|CloneTag|] != CloneTag
    ensures StripClone(s) == [s[0]] + StripClone(s[1..])
  {
  }

  /** Every "(Clone)" is removed: around one occurrence, the removal works on the
      two sides separately. */
  lemma {:induction false} StripCloneSplit(a: string, b: string)
    ensures StripClone(a + CloneTag + b) == StripClone(a) + StripClone(b)
    decreases |a|, 1
  {
    if |a| == 0 {
      var t := a + CloneTag + b;
      assert t[..|CloneTag|] == CloneTag;
      assert t[|CloneTag|..] == b;
      StripCloneDrop(t);
      StripCloneShort(a);
    } else if |a| < |CloneTag| {
      SplitAfterShort(a, b);
    } else if a[..|CloneTag|] == CloneTag {
      SplitAfterTag(a, b);
    } else {
      SplitAfterKept(a, b);
    }
  }

  /** The tag cannot start at the head of a name whose tag comes after a shorter
      part: the tag's '(' would have to sit at that part's length. */
  lemma TagNotAtHead(a: string, b: string)
    requires 0 < |a| < |CloneTag|
    ensures (a + CloneTag + b)[..|CloneTag|] != CloneTag
  {
    var t := a + CloneTag + b;
    assert t[|a|] == '(';
    if t[..|CloneTag|] == CloneTag {
      OpenParenOnlyFirst(|a|);
      assert false;
    }
  }

  /** The split when the part before the tag is shorter than the tag. */
  lemma {:induction false} SplitAfterShort(a: string, b: string)
    requires 0 < |a| < |CloneTag|
    ensures StripClone(a + CloneTag + b) == StripClone(a) + StripClone(b)
    decreases |a|, 0
  {
    var t := a + CloneTag + b;
    TagNotAtHead(a, b);
    JoinTail(a, CloneTag, b);
    calc {
      StripClone(t);
    == { StripCloneKeep(t); }
      [a[0]] + StripClone(a[1..] + CloneTag + b);
    == { StripCloneSplit(a[1..], b); StripCloneShort(a[1..]); }
      [a[0]] + (a[1..] + StripClone(b));
    == { assert [a[0]] + a[1..] == a; }
      a + StripClone(b);
    == { StripCloneShort(a); }
      StripClone(a) + StripClone(b);
    }
  }

  /** The split when the part before the tag starts with a tag of its own. */
  lemma {:induction false} SplitAfterTag(a: string, b: string)
    requires |a| >= |CloneTag| && a[..|CloneTag|] == CloneTag
    ensures StripClone(a + CloneTag + b) == StripClone(a) + StripClone(b)
    decreases |a|, 0
  {
    var t := a + CloneTag + b;
    assert t[..|CloneTag|] == CloneTag;
    assert t[|CloneTag|..] == a[|CloneTag|..] + CloneTag + b;
    StripCloneDrop(t);
    StripCloneDrop(a);
    StripCloneSplit(a[|CloneTag|..], b);
  }

  /** Head and tail of a join whose first part is not empty. */
  lemma JoinTail(a: string, c: string, b: string)
    requires |a| > 0
    ensures (a + c + b)[0] == a[0] && (a + c + b)[1..] == a[1..] + c + b
  {
  }

  /** A join starts with its first part. */
  lemma JoinHead(a: string, c: string, b: string, n: int)
    requires 0 <= n <= |a|
    ensures (a + c + b)[..n] == a[..n]
  {
  }

  /** The split when the head character of the part before the tag is kept. */
  lemma {:induction false} SplitAfterKept(a: string, b: string)
    requires |a| >= |CloneTag| && a[..|CloneTag|] != CloneTag
    ensures StripClone(a + CloneTag + b) == StripClone(a) + StripClone(b)
    decreases |a|, 0
  {
    var t := a + CloneTag + b;
    JoinHead(a, CloneTag, b, |CloneTag|);
    JoinTail(a, CloneTag, b);
    calc {
      StripClone(t);
    == { StripCloneKeep(t); }
      [a[0]] + StripClone(a[1..] + CloneTag + b);
    == { StripCloneSplit(a[1..], b); }
      [a[0]] + (StripClone(a[1..]) + StripClone(b));
    ==
      ([a[0]] + StripClone(a[1..])) + StripClone(b);
    == { StripCloneKeep(a); }
      StripClone(a) + StripClone(b);
    }
  }

  /** Appending "(Clone)" to a name does not change what StripClone leaves. */
  lemma StripCloneSuffix(s: string)
    ensures StripClone(s + CloneTag) == StripClone(s)
  {
    StripCloneSplit(s, "");
    assert s + CloneTag + "" == s + CloneTag;
    assert StripClone("") == "";
  }

  /** The single pass can leave a "(Clone)" that the removal itself put together. */
  lemma StripCloneSinglePass()
    ensures StripClone("((Clone)Clone)") == CloneTag
  {
    var s := "((Clone)Clone)";
    assert s[..7][1] != CloneTag[1];
    assert s[1..][..7] == CloneTag;
    assert s[1..][7..] == "Clone)";
    assert StripClone("Clone)") == "Clone)";
  }

  // ---------------------------------------------------------------------------
  // Trimming

  /** The characters the platform's Trim() treats as white space. */
  predicate IsWhiteSpace(c: char) {
    ('\U{0009}' <= c <= '\U{000D}') || c == ' ' || c == '\U{0085}' || c == '\U{00A0}' ||
    c == '\U{1680}' || ('\U{2000}' <= c <= '\U{200A}') || c == '\U{2028}' || c == '\U{2029}' ||
    c == '\U{202F}' || c == '\U{205F}' || c == '\U{3000}'
  }

  /** `r` is `s` with its leading white space cut: a suffix of `s`, everything
      cut off is white space, and `r` does not start with white space. */
  predicate StartTrimmed(s: string, r: string) {
    |r| <= |s| && r == s[|s| - |r|..] &&
    (forall i :: 0 <= i < |s| - |r| ==> IsWhiteSpace(s[i])) &&
    (|r| > 0 ==> !IsWhiteSpace(r[0]))
  }

  /** `r` is `s` with its trailing white space cut: a prefix of `s`, everything
      cut off is white space, and `r` does not end with white space. */
  predicate EndTrimmed(s: string, r: string) {
    |r| <= |s| && r == s[..|r|] &&
    (forall i :: |r| <= i < |s| ==> IsWhiteSpace(s[i])) &&
    (|r| > 0 ==> !IsWhiteSpace(r[|r| - 1]))
  }

  /** Leading white space removed. */
  function TrimStart(s: string): string
    decreases |s|
  {
    if |s| > 0 && IsWhiteSpace(s[0]) then TrimStart(s[1..]) else s
  }

  /** Trailing white space removed. */
  function TrimEnd(s: string): string
    decreases |s|
  {
    if |s| > 0 && IsWhiteSpace(s[|s| - 1]) then TrimEnd(s[..|s| - 1]) else s
  }

  lemma {:induction false} TrimStartCuts(s: string)
    ensures StartTrimmed(s, TrimStart(s))
    decreases |s|
  {
    if |s| > 0 && IsWhiteSpace(s[0]) {
      var r := TrimStart(s[1..]);
      TrimStartCuts(s[1..]);
      assert r == s[|s| - |r|..] by {
        assert s[1..][|s| - 1 - |r|..] == s[|s| - |r|..];
      }
      forall i | 0 <= i < |s| - |r| ensures IsWhiteSpace(s[i]) {
        if i > 0 {
          assert s[i] == s[1..][i - 1];
        }
      }
    }
  }

  lemma {:induction false} TrimEndCuts(s: string)
    ensures EndTrimmed(s, TrimEnd(s))
    decreases |s|
  {
    if |s| > 0 && IsWhiteSpace(s[|s| - 1]) {
      var t := s[..|s| - 1];
      var r := TrimEnd(t);
      TrimEndCuts(t);
      assert r == s[..|r|] by {
        assert t[..|r|] == s[..|r|];
      }
      forall i | |r| <= i < |s| ensures IsWhiteSpace(s[i]) {
        if i < |s| - 1 {
          assert s[i] == t[i];
        }
      }
    }
  }

  /** `r` is the slice of `s` that starts at `a`, and only white space lies outside it. */
  predicate TrimmedAt(s: string, r: string, a: int) {
    0 <= a <= a + |r| <= |s| && r == s[a..a + |r|] &&
    (forall i :: 0 <= i < a ==> IsWhiteSpace(s[i])) &&
    (forall i :: a + |r| <= i < |s| ==> IsWhiteSpace(s[i]))
  }

  /** Leading and trailing white space removed. */
  function Trim(s: string): string {
    TrimEnd(TrimStart(s))
  }

  /** A prefix of a suffix is a slice, and the rest of the suffix is the tail of `s`. */
  lemma PrefixOfSuffix(s: string, t: string, r: string, a: int)
    requires 0 <= a <= |s| && t == s[a..] && |r| <= |t| && r == t[..|r|]
    ensures r == s[a..a + |r|]
    ensures forall i :: a + |r| <= i < |s| ==> s[i] == t[i - a]
  {
    assert s[a..a + |r|] == s[a..][..|r|];
  }

  /** Trim leaves a slice of the name, starting after the leading white space,
      with only white space outside it. */
  lemma TrimSliceAt(s: string)
    ensures TrimmedAt(s, Trim(s), |s| - |TrimStart(s)|)
  {
    var t := TrimStart(s);
    var r, a := TrimEnd(t), |s| - |t|;
    TrimStartCuts(s);
    TrimEndCuts(t);
    PrefixOfSuffix(s, t, r, a);
    forall i | a + |r| <= i < |s| ensures IsWhiteSpace(s[i]) {
      assert s[i] == t[i - a];
    }
    assert TrimmedAt(s, r, a);
  }

  /** What Trim leaves has no white space at either of its ends. */
  lemma TrimEnds(s: string)
    ensures |Trim(s)| > 0 ==> !IsWhiteSpace(Trim(s)[0]) && !IsWhiteSpace(Trim(s)[|Trim(s)| - 1])
  {
    var t := TrimStart(s);
    var r := TrimEnd(t);
    TrimStartCuts(s);
    TrimEndCuts(t);
    if |r| > 0 {
      assert r[0] == t[0];
    }
  }

  /** Trim leaves a slice of the name, starting after the leading white space,
      with only white space outside it and no white space at either of its ends. */
  lemma TrimSlice(s: string)
    ensures TrimmedAt(s, Trim(s), |s| - |TrimStart(s)|)
    ensures |Trim(s)| > 0 ==> !IsWhiteSpace(Trim(s)[0]) && !IsWhiteSpace(Trim(s)[|Trim(s)| - 1])
  {
    TrimSliceAt(s);
    TrimEnds(s);
  }

  /** A name that neither starts nor ends with white space is not changed by Trim. */
  lemma TrimUntrimmed(s: string)
    requires |s| > 0 ==> !IsWhiteSpace(s[0]) && !IsWhiteSpace(s[|s| - 1])
    ensures Trim(s) == s
  {
  }

  // ---------------------------------------------------------------------------
  // Classification

  /** The name left after removing every "(Clone)" and trimming. */
  function CleanName(raw: string): string {
    Trim(StripClone(raw))
  }

  /** `keys[i]` is the first of `keys` that occurs in `s`. */
  predicate IsFirstMatch(keys: seq<string>, s: string, i: int) {
    0 <= i < |keys| && Contains(s, keys[i]) &&
    forall j :: 0 <= j < i ==> !Contains(s, keys[j])
  }

  /** The first of `keys` that occurs in `s`, or `s` itself when none does. */
  function FirstKeyIn(keys: seq<string>, s: string): string
    decreases |keys|
  {
    if keys == [] then s
    else if Contains(s, keys[0]) then keys[0]
    else FirstKeyIn(keys[1..], s)
  }

  /** The search returns the first of `keys` that occurs in `s` (no earlier key
      occurs), or `s` itself when no key occurs. */
  lemma {:induction false} FirstKeyInFirstMatch(keys: seq<string>, s: string)
    ensures (exists i :: IsFirstMatch(keys, s, i) && FirstKeyIn(keys, s) == keys[i]) ||
            (FirstKeyIn(keys, s) == s && forall j :: 0 <= j < |keys| ==> !Contains(s, keys[j]))
    decreases |keys|
  {
    if keys != [] {
      if Contains(s, keys[0]) {
        assert IsFirstMatch(keys, s, 0);
      } else {
        FirstKeyInFirstMatch(keys[1..], s);
        assert forall j :: 1 <= j < |keys| ==> keys[j] == keys[1..][j - 1];
        assert forall i :: IsFirstMatch(keys[1..], s, i) ==> IsFirstMatch(keys, s, i + 1);
      }
    }
  }

  /** One step of the search: the first key, or the search over the rest. */
  lemma FirstKeyInStep(keys: seq<string>, s: string)
    requires keys != []
    ensures FirstKeyIn(keys, s) == if Contains(s, keys[0]) then keys[0] else FirstKeyIn(keys[1..], s)
  {
  }

  /** The ingredient key of a spawned object's raw name: the first key, in table
      order, that occurs in the cleaned name, else the cleaned name itself. */
  function Classify(raw: string): string {
    FirstKeyIn(Keys, CleanName(raw))
  }

  /** The classification is the first key, in table order, occurring in the
      cleaned name; when no key occurs, it is the cleaned name itself. */
  lemma ClassifyFirstMatch(raw: string)
    ensures (exists i :: IsFirstMatch(Keys, CleanName(raw), i) && Classify(raw) == Keys[i]) ||
            (Classify(raw) == CleanName(raw) && forall k :: k in Keys ==> !Contains(CleanName(raw), k))
  {
    var c := CleanName(raw);
    FirstKeyInFirstMatch(Keys, c);
    if forall j :: 0 <= j < |Keys| ==> !Contains(c, Keys[j]) {
      assert forall k :: k in Keys ==> !Contains(c, k);
    }
  }

  /** A name with no '(' and no white space at its ends is already clean. */
  lemma CleanWithoutParen(k: string)
    requires '(' !in k
    requires |k| > 0 ==> !IsWhiteSpace(k[0]) && !IsWhiteSpace(k[|k| - 1])
    ensures CleanName(k) == k
  {
    if Contains(k, CloneTag) {
      ContainsChars(k, CloneTag, '(');
    }
    StripCloneWithoutTag(k);
    TrimUntrimmed(k);
  }

  /** A known key is already clean: it has no "(Clone)" and no white space at its ends. */
  lemma KeyIsClean(i: int)
    requires 0 <= i < |Keys|
    ensures CleanName(Keys[i]) == Keys[i]
  {
    var k := Keys[i];
    assert '(' !in k;
    assert !IsWhiteSpace(k[0]) && !IsWhiteSpace(k[|k| - 1]);
    CleanWithoutParen(k);
  }

  /** No key that comes earlier in the table occurs in a later key. */
  lemma EarlierKeysAbsent(i: int, j: int)
    requires 0 <= j < i < |Keys|
    ensures !Contains(Keys[i], Keys[j])
  {
    // Each earlier key has a character that the later key lacks.
    var mark: char :=
      if j == 0 then 'P'
      else if j == 1 then (if i == 6 then 'B' else 'm')
      else if j == 2 then (if i == 6 then 'B' else 'T')
      else if j == 3 then 'L'
      else if j == 4 then 'O'
      else if j == 5 then 'C'
      else 'T';
    assert mark in Keys[j];
    assert mark !in Keys[i];
    if Contains(Keys[i], Keys[j]) {
      ContainsChars(Keys[i], Keys[j], mark);
    }
  }

  /** Every known key classifies to itself. */
  lemma ClassifyKey(k: string)
    requires k in Keys
    ensures Classify(k) == k
  {
    var i :| 0 <= i < |Keys| && Keys[i] == k;
    KeyIsClean(i);
    forall j | 0 <= j < i ensures !Contains(k, Keys[j]) {
      EarlierKeysAbsent(i, j);
    }
    assert IsPrefixOf(k, k);
    assert IsFirstMatch(Keys, k, i);
    FirstKeyInFirstMatch(Keys, k);
  }

  /** An instantiated copy, named "X(Clone)", classifies like its prefab "X". */
  lemma ClassifyClone(x: string)
    ensures Classify(x + CloneTag) == Classify(x)
  {
    StripCloneSuffix(x);
  }

  /** Classifying a classification again changes nothing, provided the cleaned
      name does not still hold a "(Clone)" that the single pass put together. */
  lemma ClassifyIdempotent(raw: string)
    requires !Contains(CleanName(raw), CloneTag)
    ensures Classify(Classify(raw)) == Classify(raw)
  {
    var r := Classify(raw);
    ClassifyFirstMatch(raw);
    if r in Keys {
      ClassifyKey(r);
    } else {
      CleanAgain(raw);
      ClassifyUnmatched(r);
    }
  }

  /** Cleaning a cleaned name again changes nothing, unless it still holds a "(Clone)". */
  lemma CleanAgain(raw: string)
    requires !Contains(CleanName(raw), CloneTag)
    ensures CleanName(CleanName(raw)) == CleanName(raw)
  {
    var c := CleanName(raw);
    TrimSlice(StripClone(raw));
    StripCloneWithoutTag(c);
    TrimUntrimmed(c);
  }

  /** A substring needs every one of its characters. */
  lemma AbsentByChar(s: string, sub: string, c: char)
    requires c in sub && c !in s
    ensures !Contains(s, sub)
  {
    if Contains(s, sub) {
      ContainsChars(s, sub, c);
    }
  }

  /** A clean name that holds no key is its own classification. */
  lemma ClassifyUnmatched(c: string)
    requires CleanName(c) == c
    requires forall k :: k in Keys ==> !Contains(c, k)
    ensures Classify(c) == c
  {
  }

  /** "BottomBread" does not occur in "Bottom Bread". */
  lemma SpacedBreadLacksKey()
    ensures !Contains("Bottom Bread", "BottomBread")
  {
    var s, k := "Bottom Bread", "BottomBread";
    assert !IsPrefixOf(k, s) by { assert s[6] != k[6]; }
    assert !IsPrefixOf(k, s[1..]) by { assert s[1] != k[0]; }
    if Contains(s[2..], k) {
      ContainsLength(s[2..], k);
    }
  }

  /** No key occurs in "Bottom Bread". */
  lemma SpacedBreadHoldsNoKey(j: int)
    requires 0 <= j < |Keys|
    ensures !Contains("Bottom Bread", Keys[j])
  {
    if j == 1 {
      SpacedBreadLacksKey();
    } else {
      var mark: char :=
        if j == 0 then 'P' else if j == 3 then 'L' else if j == 4 then 'O'
        else if j == 5 then 'C' else if j == 7 then 'g' else 'T';
      AbsentByChar("Bottom Bread", Keys[j], mark);
    }
  }

  /** "TopBread" does not occur in "Top Bread". */
  lemma SpacedTopBreadLacksKey()
    ensures !Contains("Top Bread", "TopBread")
  {
    var s, k := "Top Bread", "TopBread";
    assert !IsPrefixOf(k, s) by { assert s[3] != k[3]; }
    assert !IsPrefixOf(k, s[1..]) by { assert s[1] != k[0]; }
    if Contains(s[2..], k) {
      ContainsLength(s[2..], k);
    }
  }

  /** No key occurs in "Top Bread". */
  lemma SpacedTopBreadHoldsNoKey(j: int)
    requires 0 <= j < |Keys|
    ensures !Contains("Top Bread", Keys[j])
  {
    if j == 2 {
      SpacedTopBreadLacksKey();
    } else {
      var mark: char :=
        if j == 0 then 'P' else if j == 1 then 'm' else if j == 3 then 'L' else if j == 4 then 'O'
        else if j == 5 then 'C' else if j == 6 then 'm' else 'g';
      AbsentByChar("Top Bread", Keys[j], mark);
    }
  }

  /** "Bottom Bread" holds no key, so it is its own classification. */
  lemma SpacedBreadUnmatched()
    ensures Classify("Bottom Bread") == "Bottom Bread"
  {
    CleanWithoutParen("Bottom Bread");
    forall j | 0 <= j < |Keys| ensures !Contains("Bottom Bread", Keys[j]) {
      SpacedBreadHoldsNoKey(j);
    }
    ClassifyUnmatched("Bottom Bread");
  }

  /** "Top Bread" holds no key, so it is its own classification. */
  lemma SpacedTopBreadUnmatched()
    ensures Classify("Top Bread") == "Top Bread"
  {
    CleanWithoutParen("Top Bread");
    forall j | 0 <= j < |Keys| ensures !Contains("Top Bread", Keys[j]) {
      SpacedTopBreadHoldsNoKey(j);
    }
    ClassifyUnmatched("Top Bread");
  }

  /** The two breads are displayed with a space. */
  lemma SpacedDisplayNames()
    ensures DisplayNameOf("BottomBread") == "Bottom Bread"
    ensures DisplayNameOf("TopBread") == "Top Bread"
  {
    assert DisplayNames["BottomBread"] == "Bottom Bread";
    assert DisplayNames["TopBread"] == "Top Bread";
  }

  /** Display names with a space do not classify back to their keys: "Bottom Bread"
      and "Top Bread" hold no key, so each is its own classification. */
  lemma DisplayNameIsNotAKey()
    ensures DisplayNameOf("BottomBread") == "Bottom Bread"
    ensures Classify("Bottom Bread") == "Bottom Bread"
    ensures DisplayNameOf("TopBread") == "Top Bread"
    ensures Classify("Top Bread") == "Top Bread"
  {
    SpacedDisplayNames();
    SpacedBreadUnmatched();
    SpacedTopBreadUnmatched();
  }
}
