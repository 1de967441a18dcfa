/** The category screen's helpers in `mobile/app/categories.js`: the icon chosen from
    keywords in a category name, and the colour chosen by list position. */
module Categories {
  import opened Seqs
  import opened Text

  /** The keywords tried in order, and the icon each one selects. */
  const Keywords: seq<string> :=
    ["music", "sport", "food", "art", "tech", "business", "education", "health", "entertainment", "social"]
  const Icons: seq<string> :=
    ["musical-notes", "football", "restaurant", "color-palette", "laptop", "briefcase", "school", "fitness", "film", "people"]
  const DefaultIcon := "grid"

  /** `getCategoryIcon`: the name is lower-cased once and then checked against each
      keyword in turn. */
  function CategoryIcon(categoryName: string): (r: string)
    ensures r == DefaultIcon || r in Icons
  {
    IconOfLowered(Lower(categoryName))
  }

  /** The keyword chain of `getCategoryIcon` on the already lower-cased name. */
  function IconOfLowered(name: string): (r: string)
    ensures r == DefaultIcon || r in Icons
  {
    if Contains(name, "music") then "musical-notes"
    else if Contains(name, "sport") then "football"
    else if Contains(name, "food") then "restaurant"
    else if Contains(name, "art") then "color-palette"
    else if Contains(name, "tech") then "laptop"
    else if Contains(name, "business") then "briefcase"
    else if Contains(name, "education") then "school"
    else if Contains(name, "health") then "fitness"
    else if Contains(name, "entertainment") then "film"
    else if Contains(name, "social") then "people"
    else "grid"
  }

  /** Reference: the icon of the first keyword at or after `k` that `name` contains. */
  function FirstMatch(name: string, k: nat): string
    requires k <= |Keywords|
    decreases |Keywords| - k
  {
    if k == |Keywords| then DefaultIcon
    else if Contains(name, Keywords[k]) then Icons[k]
    else FirstMatch(name, k + 1)
  }

  /** `FirstMatch` is `grid` exactly when no keyword from `k` on occurs in `name`. */
  lemma {:induction false} FirstMatchIsDefault(name: string, k: nat)
    requires k <= |Keywords|
    decreases |Keywords| - k
    ensures FirstMatch(name, k) == DefaultIcon <==> forall j :: k <= j < |Keywords| ==> !Contains(name, Keywords[j])
  {
    if k < |Keywords| {
      FirstMatchIsDefault(name, k + 1);
      if Contains(name, Keywords[k]) {
        assert DefaultIcon !in Icons;
      }
    }
  }

  /** Otherwise `FirstMatch` is the icon of the first keyword from `k` on that occurs. */
  lemma {:induction false} FirstMatchIsFirst(name: string, k: nat)
    requires k <= |Keywords|
    decreases |Keywords| - k
    ensures FirstMatch(name, k) != DefaultIcon ==>
      exists j :: k <= j < |Keywords| && Contains(name, Keywords[j]) && FirstMatch(name, k) == Icons[j]
               && forall i :: k <= i < j ==> !Contains(name, Keywords[i])
  {
    if k < |Keywords| && !Contains(name, Keywords[k]) && FirstMatch(name, k + 1) != DefaultIcon {
      FirstMatchIsFirst(name, k + 1);
      var j :| k + 1 <= j < |Keywords| && Contains(name, Keywords[j]) && FirstMatch(name, k + 1) == Icons[j]
               && forall i :: k + 1 <= i < j ==> !Contains(name, Keywords[i]);
      assert forall i :: k <= i < j ==> !Contains(name, Keywords[i]);
    }
  }

  /** The if-chain is the first-match rule over the keyword table: the first keyword the
      lower-cased name contains decides, and `grid` is chosen when none occurs. */
  lemma IconIsFirstMatch(categoryName: string)
    ensures CategoryIcon(categoryName) == FirstMatch(Lower(categoryName), 0)
  {
    var name := Lower(categoryName);
    var tail := FirstMatch(name, 10);
    assert FirstMatch(name, 9) == if Contains(name, "social") then "people" else tail;
    tail := FirstMatch(name, 9);
    assert FirstMatch(name, 8) == if Contains(name, "entertainment") then "film" else tail;
    tail := FirstMatch(name, 8);
    assert FirstMatch(name, 7) == if Contains(name, "health") then "fitness" else tail;
    tail := FirstMatch(name, 7);
    assert FirstMatch(name, 6) == if Contains(name, "education") then "school" else tail;
    tail := FirstMatch(name, 6);
    assert FirstMatch(name, 5) == if Contains(name, "business") then "briefcase" else tail;
    tail := FirstMatch(name, 5);
    assert FirstMatch(name, 4) == if Contains(name, "tech") then "laptop" else tail;
    tail := FirstMatch(name, 4);
    assert FirstMatch(name, 3) == if Contains(name, "art") then "color-palette" else tail;
    tail := FirstMatch(name, 3);
    assert FirstMatch(name, 2) == if Contains(name, "food") then "restaurant" else tail;
    tail := FirstMatch(name, 2);
    assert FirstMatch(name, 1) == if Contains(name, "sport") then "football" else tail;
    tail := FirstMatch(name, 1);
    assert FirstMatch(name, 0) == if Contains(name, "music") then "musical-notes" else tail;
  }

  /** Upper, lower and mixed case spellings of a name get the same icon. */
  lemma IconIgnoresCase(categoryName: string)
    ensures CategoryIcon(Lower(categoryName)) == CategoryIcon(categoryName)
  {
    LowerIdempotent(categoryName);
  }

  /** Matching is by substring: "Party" contains "art" and none of the earlier keywords. */
  lemma PartyIsArt()
    ensures CategoryIcon("Party") == "color-palette"
  {
    var name := Lower("Party");
    assert name == "party";
    assert OccursAt(name, "art", 1);
    AbsentFirstCharNotContained(name, "music");
    AbsentFirstCharNotContained(name, "sport");
    AbsentFirstCharNotContained(name, "food");
  }

  /** The twelve card colours. */
  const Palette: seq<string> :=
    ["#FF6B6B", "#4ECDC4", "#45B7D1", "#96CEB4", "#FFEAA7", "#DDA0DD",
     "#98D8C8", "#F7DC6F", "#BB8FCE", "#85C1E9", "#F8C471", "#82E0AA"]

  /** `getCategoryColor`: the colour at the card's position, wrapping every twelve. */
  function CategoryColor(index: nat): (r: string)
    ensures r in Palette
  {
    Palette[index % |Palette|]
  }

  /** The colours repeat with period 12, and any two cards fewer than twelve places apart
      get different colours. */
  lemma CategoryColorPeriod(index: nat, d: nat)
    ensures CategoryColor(index + 12) == CategoryColor(index)
    ensures 0 < d < 12 ==> CategoryColor(index + d) != CategoryColor(index)
  {
    assert NoDuplicates(Palette);
    if 0 < d < 12 {
      assert (index + d) % 12 != index % 12;
    }
  }
}
