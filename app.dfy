/** The expense classifier of the web service: a description is lower-cased
    and matched against an ordered table of category keywords; the first
    category with a keyword inside the description wins, and a description
    that matches nothing is filed under "other". */
module Categorizer {
  import opened Wrappers
  import opened Text
  import opened Search

  /** One entry of the keyword table: a category and the words that select it. */
  datatype Rule = Rule(category: string, words: seq<string>)

  /** The keyword table, in the order the dict literal lists it. */
  const Keywords: seq<Rule> := [
    Rule("groceries", ["supermarket", "walmart", "grocery", "food"]),
    Rule("dining", ["restaurant", "cafe", "diner", "lunch"]),
    Rule("transportation", ["uber", "gas", "subway", "train", "bus"]),
    Rule("entertainment", ["movie", "netflix", "concert", "game"])
  ]

  /** The category given to a description no keyword matches. */
  const Other: string := "other"

  /** Every label the classifier can return. */
  const Categories: set<string> := {"groceries", "dining", "transportation", "entertainment", "other"}

  /** `any(word in text for word in words)` */
  predicate Mentions(words: seq<string>, text: string) {
    exists i | 0 <= i < |words| :: Occurs(words[i], text)
  }

  /** A rule's words are mentioned exactly when one of them sits in the text
      at some offset. */
  lemma MentionsIffWordAtOffset(words: seq<string>, text: string)
    ensures Mentions(words, text) <==>
      exists i: nat, k: nat :: i < |words| && OccursAt(words[i], text, k)
  {
    if Mentions(words, text) {
      var i :| 0 <= i < |words| && Occurs(words[i], text);
      OccursIffSomeOffset(words[i], text);
      var k: nat :| OccursAt(words[i], text, k);
    } else {
      forall i: nat, k: nat | i < |words| ensures !OccursAt(words[i], text, k) {
        OccursIffSomeOffset(words[i], text);
      }
    }
  }

  /** `categorize_expense(description)` */
  function Categorize(description: string): (category: string)
    ensures category in Categories
    ensures category == Other <==>
      forall i :: 0 <= i < |Keywords| ==> !Mentions(Keywords[i].words, LowerStr(description))
    ensures category != Other ==>
      exists i :: 0 <= i < |Keywords| && Keywords[i].category == category &&
        Mentions(Keywords[i].words, LowerStr(description)) &&
        forall j :: 0 <= j < i ==> !Mentions(Keywords[j].words, LowerStr(description))
  {
    var text := LowerStr(description);
    match FirstIndex(Keywords, (rule: Rule) => Mentions(rule.words, text))
    case Some(i) => Keywords[i].category
    case None => Other
  }

  /** Classification ignores case: a description and its upper-cased form
      fall in the same category. */
  lemma CategorizeIgnoresCase(description: string)
    ensures Categorize(UpperStr(description)) == Categorize(description)
    ensures Categorize(LowerStr(description)) == Categorize(description)
  {
    LowerOfUpper(description);
    LowerIdempotent(description);
  }

  /** The converse of the first-match contract: the category of the first
      rule whose keywords appear is the one returned. */
  lemma CategorizeIsFirstMention(description: string, i: nat)
    requires i < |Keywords| && Mentions(Keywords[i].words, LowerStr(description))
    requires forall j :: 0 <= j < i ==> !Mentions(Keywords[j].words, LowerStr(description))
    ensures Categorize(description) == Keywords[i].category
  {
  }

  /** The first listed category wins: "food" (groceries) is checked before
      "restaurant" (dining). */
  lemma FirstListedCategoryWins()
    ensures Categorize("food at restaurant") == "groceries"
  {
    var text := "food at restaurant";
    assert LowerStr("food at restaurant") == text;
    FoundAt(Keywords[0].words[3], text, 0);
    assert Mentions(Keywords[0].words, text);
    CategorizeIsFirstMention("food at restaurant", 0);
  }

  /** Keywords match as substrings, not whole words: "vegas" contains "gas". */
  lemma SubstringNotWord()
    ensures Categorize("trip to vegas") == "transportation"
  {
    assert LowerStr("trip to vegas") == "trip to vegas";
    VegasMentionsNoGroceryWord();
    VegasMentionsNoDiningWord();
    VegasMentionsGas();
    CategorizeIsFirstMention("trip to vegas", 2);
  }

  lemma VegasMentionsNoGroceryWord()
    ensures !Mentions(Keywords[0].words, "trip to vegas")
  {
    NoGroceryWordIn("trip to vegas", 1, 0, 3, 0);
  }

  lemma VegasMentionsNoDiningWord()
    ensures !Mentions(Keywords[1].words, "trip to vegas")
  {
    NoDiningWordIn("trip to vegas", 5, 0, 0, 0);
  }

  lemma VegasMentionsGas()
    ensures Mentions(Keywords[2].words, "trip to vegas")
  {
    FoundAt(Keywords[2].words[1], "trip to vegas", 10);
  }

  /** "Italian restaurant" is a dining expense. */
  lemma RestaurantIsDining()
    ensures Categorize("Italian restaurant") == "dining"
  {
    LowerItalianRestaurant();
    ItalianRestaurantMentionsNoGroceryWord();
    ItalianRestaurantMentionsRestaurant();
    CategorizeIsFirstMention("Italian restaurant", 1);
  }

  lemma LowerItalianRestaurant()
    ensures LowerStr("Italian restaurant") == "italian restaurant"
  {
  }

  lemma ItalianRestaurantMentionsNoGroceryWord()
    ensures !Mentions(Keywords[0].words, "italian restaurant")
  {
    NoGroceryWordIn("italian restaurant", 2, 0, 0, 0);
  }

  lemma ItalianRestaurantMentionsRestaurant()
    ensures Mentions(Keywords[1].words, "italian restaurant")
  {
    FoundAt(Keywords[1].words[0], "italian restaurant", 8);
  }

  /** No groceries keyword occurs in `text`: each lacks the letter at the
      given position. */
  lemma NoGroceryWordIn(text: string, a: nat, b: nat, c: nat, d: nat)
    requires a < 11 && b < 7 && c < 7 && d < 4
    requires "supermarket"[a] !in text && "walmart"[b] !in text
    requires "grocery"[c] !in text && "food"[d] !in text
    ensures !Mentions(Keywords[0].words, text)
  {
    AbsentCharRulesOut("supermarket", text, a);
    AbsentCharRulesOut("walmart", text, b);
    AbsentCharRulesOut("grocery", text, c);
    AbsentCharRulesOut("food", text, d);
    forall i | 0 <= i < 4 ensures !Occurs(Keywords[0].words[i], text) {
    }
  }

  /** No dining keyword occurs in `text`: each lacks the letter at the given
      position. */
  lemma NoDiningWordIn(text: string, a: nat, b: nat, c: nat, d: nat)
    requires a < 10 && b < 4 && c < 5 && d < 5
    requires "restaurant"[a] !in text && "cafe"[b] !in text
    requires "diner"[c] !in text && "lunch"[d] !in text
    ensures !Mentions(Keywords[1].words, text)
  {
    AbsentCharRulesOut("restaurant", text, a);
    AbsentCharRulesOut("cafe", text, b);
    AbsentCharRulesOut("diner", text, c);
    AbsentCharRulesOut("lunch", text, d);
    forall i | 0 <= i < 4 ensures !Occurs(Keywords[1].words[i], text) {
    }
  }
}
