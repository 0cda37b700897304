/**
 * The voice library page (src/pages/VoicesPage.tsx): the voices grouped by
 * category, the groups shown in the order their categories first appear, and
 * the voice list it is built from (src/lib/mockData.ts).
 */
module VoicesPage {
  import opened Prelude
  import opened ScriptTypes

  /** The category of every voice, in order. */
  function CategoryList(voices: seq<AIVoice>): (r: seq<string>)
    ensures |r| == |voices|
    decreases |voices|
  {
    if voices == [] then []
    else CategoryList(voices[..|voices| - 1]) + [voices[|voices| - 1].category]
  }

  /** The distinct categories, by first occurrence: the key order of the grouping object. */
  function Categories(voices: seq<AIVoice>): seq<string> {
    Dedup(CategoryList(voices))
  }

  /** Reference definition of a group: the voices of category c, in their original order. */
  function InCategory(voices: seq<AIVoice>, c: string): seq<AIVoice>
    decreases |voices|
  {
    if voices == [] then []
    else
      var v := voices[|voices| - 1];
      InCategory(voices[..|voices| - 1], c) + (if v.category == c then [v] else [])
  }

  /**
   * The `reduce` of groupedVoices, one voice at a time: open an empty group
   * for a new category, then push the voice onto its category's group.
   */
  function Grouped(voices: seq<AIVoice>): map<string, seq<AIVoice>>
    decreases |voices|
  {
    if voices == [] then map[]
    else
      var g := Grouped(voices[..|voices| - 1]);
      var v := voices[|voices| - 1];
      g[v.category := (if v.category in g then g[v.category] else []) + [v]]
  }

  lemma CategoryListSnoc(voices: seq<AIVoice>, v: AIVoice)
    ensures CategoryList(voices + [v]) == CategoryList(voices) + [v.category]
  {
    assert (voices + [v])[..|voices|] == voices;
  }

  /**
   * The grouping has a key for exactly the categories that occur, and under
   * each key the reference group: the voices of that category, in order.
   */
  lemma {:induction false} GroupedIsFilter(voices: seq<AIVoice>)
    ensures forall c :: c in Grouped(voices) <==> c in CategoryList(voices)
    ensures forall c :: c in Grouped(voices) ==> Grouped(voices)[c] == InCategory(voices, c)
    ensures forall c :: c !in CategoryList(voices) ==> InCategory(voices, c) == []
    decreases |voices|
  {
    if voices != [] {
      var p := voices[..|voices| - 1];
      var v := voices[|voices| - 1];
      assert voices == p + [v];
      GroupedIsFilter(p);
      CategoryListSnoc(p, v);
    }
  }

  /** A voice is in the group of category c exactly when it is one of the voices and has category c. */
  lemma {:induction false} InCategoryMembers(voices: seq<AIVoice>, c: string, v: AIVoice)
    ensures v in InCategory(voices, c) <==> v in voices && v.category == c
    decreases |voices|
  {
    if voices != [] {
      var p := voices[..|voices| - 1];
      assert voices == p + [voices[|voices| - 1]];
      InCategoryMembers(p, c, v);
    }
  }

  /** Every voice lands in the group of its own category and in no other. */
  lemma EachVoiceInOneGroup(voices: seq<AIVoice>, i: nat, c: string)
    requires i < |voices|
    ensures voices[i].category in Grouped(voices)
    ensures c in Grouped(voices) ==> (voices[i] in Grouped(voices)[c] <==> c == voices[i].category)
  {
    GroupedIsFilter(voices);
    InCategoryMembers(voices, c, voices[i]);
    assert CategoryList(voices)[i] == voices[i].category by { CategoryListAt(voices, i); }
  }

  lemma {:induction false} CategoryListAt(voices: seq<AIVoice>, i: nat)
    requires i < |voices|
    ensures CategoryList(voices)[i] == voices[i].category
    decreases |voices|
  {
    if i < |voices| - 1 {
      CategoryListAt(voices[..|voices| - 1], i);
    }
  }

  /**
   * Groups keep the voices' relative order: the group of a list split in two
   * is the first part's group followed by the second part's.
   */
  lemma {:induction false} InCategoryAppend(a: seq<AIVoice>, b: seq<AIVoice>, c: string)
    ensures InCategory(a + b, c) == InCategory(a, c) + InCategory(b, c)
    decreases |b|
  {
    if b == [] {
      assert a + b == a;
    } else {
      var p := b[..|b| - 1];
      assert (a + b)[..|a + b| - 1] == a + p;
      assert (a + b)[|a + b| - 1] == b[|b| - 1];
      InCategoryAppend(a, p, c);
    }
  }

  /** A group holds as many voices as there are occurrences of its category. */
  lemma {:induction false} InCategoryCount(voices: seq<AIVoice>, c: string)
    ensures |InCategory(voices, c)| == Count(CategoryList(voices), c)
    decreases |voices|
  {
    if voices != [] {
      var p := voices[..|voices| - 1];
      var v := voices[|voices| - 1];
      assert voices == p + [v];
      InCategoryCount(p, c);
      CategoryListSnoc(p, v);
      CountSnoc(CategoryList(p), v.category, c);
    }
  }

  /** No group is empty. */
  lemma NoEmptyGroup(voices: seq<AIVoice>, c: string)
    requires c in Grouped(voices)
    ensures Grouped(voices)[c] != []
  {
    GroupedIsFilter(voices);
    InCategoryCount(voices, c);
  }

  /** The summed sizes of the groups under the given keys. */
  function GroupSizes(keys: seq<string>, groups: map<string, seq<AIVoice>>): nat
    decreases |keys|
  {
    if keys == [] then 0
    else
      var k := keys[|keys| - 1];
      GroupSizes(keys[..|keys| - 1], groups) + (if k in groups then |groups[k]| else 0)
  }

  lemma {:induction false} GroupSizesAsCounts(keys: seq<string>, voices: seq<AIVoice>)
    ensures GroupSizes(keys, Grouped(voices)) == SumCounts(keys, CategoryList(voices))
    decreases |keys|
  {
    if keys != [] {
      var k := keys[|keys| - 1];
      GroupSizesAsCounts(keys[..|keys| - 1], voices);
      GroupedIsFilter(voices);
      InCategoryCount(voices, k);
      if k !in Grouped(voices) {
        assert Count(CategoryList(voices), k) == 0;
      }
    }
  }

  /** The groups, taken in display order, hold every voice once: their sizes sum to the number of voices. */
  lemma GroupSizesSum(voices: seq<AIVoice>)
    ensures GroupSizes(Categories(voices), Grouped(voices)) == |voices|
  {
    GroupSizesAsCounts(Categories(voices), voices);
    SumCountsOfDedup(CategoryList(voices));
  }

  /**
   * The display order lists each category of the grouping exactly once, and
   * a category shown earlier first occurs earlier in the voice list.
   */
  lemma DisplayOrder(voices: seq<AIVoice>, i: nat, j: nat)
    requires i < j < |Categories(voices)|
    ensures NoDuplicates(Categories(voices))
    ensures forall c :: c in Categories(voices) <==> c in Grouped(voices)
    ensures Categories(voices)[i] in CategoryList(voices) && Categories(voices)[j] in CategoryList(voices) &&
      IndexOf(CategoryList(voices), Categories(voices)[i]) < IndexOf(CategoryList(voices), Categories(voices)[j])
  {
    DedupDistinct(CategoryList(voices));
    GroupedIsFilter(voices);
    DedupFirstOccurrenceOrder(CategoryList(voices), i, j);
  }

  /**
   * groupedVoices as the page computes it, and the order Object.entries
   * yields its keys in (insertion order).
   */
  method GroupByCategory(voices: seq<AIVoice>) returns (groups: map<string, seq<AIVoice>>, order: seq<string>)
    ensures groups == Grouped(voices)
    ensures order == Categories(voices)
  {
    groups, order := map[], [];
    var i := 0;
    while i < |voices|
      invariant i <= |voices|
      invariant groups == Grouped(voices[..i])
      invariant order == Categories(voices[..i])
      invariant forall c :: c in groups <==> c in order
    {
      var v := voices[i];
      assert voices[..i + 1] == voices[..i] + [v];
      assert voices[..i + 1][..i] == voices[..i];
      CategoryListSnoc(voices[..i], v);
      if v.category !in groups {
        groups := groups[v.category := []];
        order := order + [v.category];
      }
      groups := groups[v.category := groups[v.category] + [v]];
      i := i + 1;
    }
    assert voices[..i] == voices;
  }

  // ------------------------------------------------------------ the shipped voice list

  const MockVoices: seq<AIVoice> := [
    AIVoice("v1", "James", "British RP", Male, None, "Classic"),
    AIVoice("v2", "Emily", "American Standard", Female, None, "Classic"),
    AIVoice("v3", "Marcus", "New York", Male, None, "Regional"),
    AIVoice("v4", "Sofia", "Spanish", Female, None, "International"),
    AIVoice("v5", "Oliver", "Australian", Male, None, "International"),
    AIVoice("v6", "Aria", "Italian", Female, None, "International"),
    AIVoice("v7", "Liam", "Irish", Male, None, "Regional"),
    AIVoice("v8", "Emma", "Southern American", Female, None, "Regional")
  ]

  lemma PrefixCategories(voices: seq<AIVoice>, k: nat)
    requires k < |voices|
    ensures Categories(voices[..k + 1]) ==
      if voices[k].category in Categories(voices[..k]) then Categories(voices[..k])
      else Categories(voices[..k]) + [voices[k].category]
  {
    assert voices[..k + 1] == voices[..k] + [voices[k]];
    CategoryListSnoc(voices[..k], voices[k]);
    assert (CategoryList(voices[..k]) + [voices[k].category])[..k] == CategoryList(voices[..k]);
  }

  lemma PrefixGroup(voices: seq<AIVoice>, k: nat, c: string)
    requires k < |voices|
    ensures InCategory(voices[..k + 1], c) == InCategory(voices[..k], c) + (if voices[k].category == c then [voices[k]] else [])
  {
    assert voices[..k + 1][..k] == voices[..k];
  }

  lemma GroupStep(voices: seq<AIVoice>, k: nat, c: string, before: seq<AIVoice>)
    requires k < |voices| && InCategory(voices[..k], c) == before
    ensures InCategory(voices[..k + 1], c) == before + (if voices[k].category == c then [voices[k]] else [])
  {
    PrefixGroup(voices, k, c);
  }

  lemma CategoriesStep(voices: seq<AIVoice>, k: nat, before: seq<string>)
    requires k < |voices| && Categories(voices[..k]) == before
    ensures Categories(voices[..k + 1]) ==
      if voices[k].category in before then before else before + [voices[k].category]
  {
    PrefixCategories(voices, k);
  }

  /**
   * The shape of the shipped list: eight voices, the first two in one
   * category, the third, seventh and eighth in a second, the rest in a third.
   */
  predicate Shipped(m: seq<AIVoice>, classic: string, regional: string, international: string) {
    |m| == 8 && classic != regional && regional != international && classic != international &&
    m[0].category == m[1].category == classic &&
    m[2].category == m[6].category == m[7].category == regional &&
    m[3].category == m[4].category == m[5].category == international
  }

  lemma ShippedOrderOfFirstFour(m: seq<AIVoice>, classic: string, regional: string, international: string)
    requires Shipped(m, classic, regional, international)
    ensures Categories(m[..4]) == [classic, regional, international]
  {
    assert m[..0] == [];
    CategoriesStep(m, 0, []);
    CategoriesStep(m, 1, [classic]);
    CategoriesStep(m, 2, [classic]);
    CategoriesStep(m, 3, [classic, regional]);
  }

  /** The shipped voices are shown under Classic, then Regional, then International. */
  lemma ShippedOrder(m: seq<AIVoice>, classic: string, regional: string, international: string)
    requires Shipped(m, classic, regional, international)
    ensures Categories(m) == [classic, regional, international]
  {
    ShippedOrderOfFirstFour(m, classic, regional, international);
    CategoriesStep(m, 4, [classic, regional, international]);
    CategoriesStep(m, 5, [classic, regional, international]);
    CategoriesStep(m, 6, [classic, regional, international]);
    CategoriesStep(m, 7, [classic, regional, international]);
    assert m[..8] == m;
  }

  /** The first category's group holds the first two voices. */
  lemma ShippedClassicGroup(m: seq<AIVoice>, classic: string, regional: string, international: string)
    requires Shipped(m, classic, regional, international)
    ensures InCategory(m, classic) == [m[0], m[1]]
  {
    assert m[..0] == [];
    assert InCategory(m[..1], classic) == [m[0]] by { GroupStep(m, 0, classic, []); }
    assert InCategory(m[..2], classic) == [m[0], m[1]] by { GroupStep(m, 1, classic, [m[0]]); }
    assert InCategory(m[..3], classic) == [m[0], m[1]] by { GroupStep(m, 2, classic, [m[0], m[1]]); }
    assert InCategory(m[..4], classic) == [m[0], m[1]] by { GroupStep(m, 3, classic, [m[0], m[1]]); }
    assert InCategory(m[..5], classic) == [m[0], m[1]] by { GroupStep(m, 4, classic, [m[0], m[1]]); }
    assert InCategory(m[..6], classic) == [m[0], m[1]] by { GroupStep(m, 5, classic, [m[0], m[1]]); }
    assert InCategory(m[..7], classic) == [m[0], m[1]] by { GroupStep(m, 6, classic, [m[0], m[1]]); }
    assert InCategory(m[..8], classic) == [m[0], m[1]] by { GroupStep(m, 7, classic, [m[0], m[1]]); }
    assert m[..8] == m;
  }

  /** The second category's group holds the third, seventh and eighth voices, in that order. */
  lemma ShippedRegionalGroup(m: seq<AIVoice>, classic: string, regional: string, international: string)
    requires Shipped(m, classic, regional, international)
    ensures InCategory(m, regional) == [m[2], m[6], m[7]]
  {
    assert m[..0] == [];
    assert InCategory(m[..1], regional) == [] by { GroupStep(m, 0, regional, []); }
    assert InCategory(m[..2], regional) == [] by { GroupStep(m, 1, regional, []); }
    assert InCategory(m[..3], regional) == [m[2]] by { GroupStep(m, 2, regional, []); }
    assert InCategory(m[..4], regional) == [m[2]] by { GroupStep(m, 3, regional, [m[2]]); }
    assert InCategory(m[..5], regional) == [m[2]] by { GroupStep(m, 4, regional, [m[2]]); }
    assert InCategory(m[..6], regional) == [m[2]] by { GroupStep(m, 5, regional, [m[2]]); }
    assert InCategory(m[..7], regional) == [m[2], m[6]] by { GroupStep(m, 6, regional, [m[2]]); }
    assert InCategory(m[..8], regional) == [m[2], m[6], m[7]] by { GroupStep(m, 7, regional, [m[2], m[6]]); }
    assert m[..8] == m;
  }

  /** The third category's group holds the fourth, fifth and sixth voices. */
  lemma ShippedInternationalGroup(m: seq<AIVoice>, classic: string, regional: string, international: string)
    requires Shipped(m, classic, regional, international)
    ensures InCategory(m, international) == [m[3], m[4], m[5]]
  {
    assert m[..0] == [];
    assert InCategory(m[..1], international) == [] by { GroupStep(m, 0, international, []); }
    assert InCategory(m[..2], international) == [] by { GroupStep(m, 1, international, []); }
    assert InCategory(m[..3], international) == [] by { GroupStep(m, 2, international, []); }
    assert InCategory(m[..4], international) == [m[3]] by { GroupStep(m, 3, international, []); }
    assert InCategory(m[..5], international) == [m[3], m[4]] by { GroupStep(m, 4, international, [m[3]]); }
    assert InCategory(m[..6], international) == [m[3], m[4], m[5]] by { GroupStep(m, 5, international, [m[3], m[4]]); }
    assert InCategory(m[..7], international) == [m[3], m[4], m[5]] by { GroupStep(m, 6, international, [m[3], m[4], m[5]]); }
    assert InCategory(m[..8], international) == [m[3], m[4], m[5]] by { GroupStep(m, 7, international, [m[3], m[4], m[5]]); }
    assert m[..8] == m;
  }

  /** The shipped list has that shape, with Classic, Regional and International as its categories. */
  lemma MockVoicesShipped()
    ensures Shipped(MockVoices, "Classic", "Regional", "International")
  {
    assert "Classic"[0] != "Regional"[0] && "Regional"[0] != "International"[0] && "Classic"[0] != "International"[0];
  }

  /** The page shows Classic (v1, v2), then Regional (v3, v7, v8), then International (v4, v5, v6). */
  method ShippedVoiceGroups()
  {
    var groups, order := GroupByCategory(MockVoices);
    var m := MockVoices;
    GroupedIsFilter(m);
    MockVoicesShipped();
    ShippedOrder(m, "Classic", "Regional", "International");
    ShippedClassicGroup(m, "Classic", "Regional", "International");
    ShippedRegionalGroup(m, "Classic", "Regional", "International");
    ShippedInternationalGroup(m, "Classic", "Regional", "International");
    assert order == ["Classic", "Regional", "International"];
    assert m[0].id == "v1" && m[1].id == "v2";
    assert groups["Classic"] == [m[0], m[1]];
    assert groups["Regional"] == [m[2], m[6], m[7]];
    assert groups["International"] == [m[3], m[4], m[5]];
  }
}
