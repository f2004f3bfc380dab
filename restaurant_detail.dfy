/**
 * The menu on a restaurant's page: the list of distinct categories in the
 * order they first appear, the items listed under each category heading, and
 * the separator drawn after every heading but the last.
 */
module RestaurantDetail {
  import opened Wrappers
  import opened Seqs
  import opened Schema

  predicate Distinct(cats: seq<string>)
  {
    forall i, j :: 0 <= i < j < |cats| ==> cats[i] != cats[j]
  }

  predicate HasCategory(items: seq<MenuItem>, c: string)
  {
    exists i :: 0 <= i < |items| && items[i].category == c
  }

  /** The categories in first-appearance order: the value the reduce
      accumulates after the given items. */
  function FirstAppearances(items: seq<MenuItem>): seq<string>
  {
    if items == [] then []
    else
      var acc := FirstAppearances(items[..|items| - 1]);
      var c := items[|items| - 1].category;
      if c in acc then acc else acc + [c]
  }

  /** `menuItems?.reduce(...) || []`: an item's category is appended when it
      is not yet in the list; no items loaded gives the empty list. */
  method MenuCategories(menuItems: Option<seq<MenuItem>>) returns (cats: seq<string>)
    ensures menuItems.None? ==> cats == []
    ensures menuItems.Some? ==> cats == FirstAppearances(menuItems.value)
  {
    cats := [];
    if menuItems.None? {
      return;
    }
    var items := menuItems.value;
    var i := 0;
    while i < |items|
      invariant 0 <= i <= |items|
      invariant cats == FirstAppearances(items[..i])
    {
      assert items[..i + 1][..i] == items[..i];
      if items[i].category !in cats {
        cats := cats + [items[i].category];
      }
      i := i + 1;
    }
    assert items[..|items|] == items;
  }

  /** No category is listed twice. */
  lemma {:induction false} FirstAppearancesDistinct(items: seq<MenuItem>)
    ensures Distinct(FirstAppearances(items))
  {
    if items != [] {
      FirstAppearancesDistinct(items[..|items| - 1]);
    }
  }

  /** A category is listed exactly when some item has it. */
  lemma {:induction false} FirstAppearancesMembership(items: seq<MenuItem>, c: string)
    ensures c in FirstAppearances(items) <==> HasCategory(items, c)
  {
    if items != [] {
      var init := items[..|items| - 1];
      FirstAppearancesMembership(init, c);
      if HasCategory(init, c) {
        var i :| 0 <= i < |init| && init[i].category == c;
        assert items[i].category == c;
      }
      if HasCategory(items, c) && items[|items| - 1].category != c {
        var i :| 0 <= i < |items| && items[i].category == c;
        assert init[i].category == c;
      }
    }
  }

  /** The position of the first item with category `c`. */
  function FirstIndex(items: seq<MenuItem>, c: string): (k: nat)
    requires HasCategory(items, c)
    ensures k < |items| && items[k].category == c
    ensures forall j :: 0 <= j < k ==> items[j].category != c
  {
    if items[0].category == c then 0
    else
      var i :| 0 <= i < |items| && items[i].category == c;
      assert items[1..][i - 1].category == c;
      1 + FirstIndex(items[1..], c)
  }

  /** An item with category `c` that no earlier item has is at FirstIndex. */
  lemma FirstIndexUnique(items: seq<MenuItem>, c: string, k: nat)
    requires k < |items| && items[k].category == c
    requires forall j :: 0 <= j < k ==> items[j].category != c
    ensures HasCategory(items, c) && FirstIndex(items, c) == k
  {
    assert items[k].category == c;
    var f := FirstIndex(items, c);
    assert !(f < k);
  }

  /** A category some earlier item has keeps its first index when an item
      is appended. */
  lemma FirstIndexSnocOld(items: seq<MenuItem>, x: MenuItem, c: string)
    requires HasCategory(items, c)
    ensures HasCategory(items + [x], c) && FirstIndex(items + [x], c) == FirstIndex(items, c)
  {
    var f := FirstIndex(items, c);
    assert (items + [x])[f] == items[f];
    assert forall j :: 0 <= j < f ==> (items + [x])[j] == items[j];
    FirstIndexUnique(items + [x], c, f);
  }

  /** A category no earlier item has first appears at the appended item. */
  lemma FirstIndexSnocNew(items: seq<MenuItem>, x: MenuItem)
    requires !HasCategory(items, x.category)
    ensures HasCategory(items + [x], x.category) && FirstIndex(items + [x], x.category) == |items|
  {
    forall j | 0 <= j < |items| ensures (items + [x])[j].category != x.category {
      assert (items + [x])[j] == items[j];
    }
    FirstIndexUnique(items + [x], x.category, |items|);
  }

  /** The categories are listed in the order of their first items. */
  lemma {:induction false} FirstAppearancesOrder(items: seq<MenuItem>, i: nat, j: nat)
    requires i < j < |FirstAppearances(items)|
    ensures HasCategory(items, FirstAppearances(items)[i]) && HasCategory(items, FirstAppearances(items)[j])
    ensures FirstIndex(items, FirstAppearances(items)[i]) < FirstIndex(items, FirstAppearances(items)[j])
  {
    var init, x := items[..|items| - 1], items[|items| - 1];
    assert items == init + [x];
    var acc := FirstAppearances(init);
    var cats := FirstAppearances(items);
    FirstAppearancesMembership(init, cats[i]);
    FirstIndexSnocOld(init, x, cats[i]);
    if j < |acc| {
      FirstAppearancesOrder(init, i, j);
      FirstAppearancesMembership(init, cats[j]);
      FirstIndexSnocOld(init, x, cats[j]);
    } else {
      FirstAppearancesMembership(init, x.category);
      FirstIndexSnocNew(init, x);
    }
  }

  /** The items listed under heading `c`: `menuItems.filter(item => item.category === c)`. */
  function Section(items: seq<MenuItem>, c: string): seq<MenuItem>
  {
    Filter(items, (item: MenuItem) => item.category == c)
  }

  /** Every item is listed under exactly one heading, and each heading keeps
      its items in menu order. */
  lemma EachItemInOneSection(items: seq<MenuItem>, item: MenuItem)
    requires item in items
    ensures exists k :: 0 <= k < |FirstAppearances(items)| && FirstAppearances(items)[k] == item.category
    ensures forall k :: 0 <= k < |FirstAppearances(items)| ==>
      (item in Section(items, FirstAppearances(items)[k]) <==> FirstAppearances(items)[k] == item.category)
    ensures forall c :: IsSubsequence(Section(items, c), items)
  {
    var i :| 0 <= i < |items| && items[i] == item;
    FirstAppearancesMembership(items, item.category);
    forall c ensures IsSubsequence(Section(items, c), items) {
      FilterIsSubsequence(items, (m: MenuItem) => m.category == c);
    }
  }

  /** The number of times `c` occurs in `cats`. */
  function Occurrences(cats: seq<string>, c: string): nat
  {
    if cats == [] then 0 else (if cats[0] == c then 1 else 0) + Occurrences(cats[1..], c)
  }

  lemma {:induction false} OccurrencesOfDistinct(cats: seq<string>, c: string)
    requires Distinct(cats)
    ensures Occurrences(cats, c) == if c in cats then 1 else 0
  {
    if cats != [] {
      assert Distinct(cats[1..]) by {
        forall i, j | 0 <= i < j < |cats[1..]| ensures cats[1..][i] != cats[1..][j] {
          assert cats[1..][i] == cats[i + 1] && cats[1..][j] == cats[j + 1];
        }
      }
      OccurrencesOfDistinct(cats[1..], c);
      if cats[0] == c {
        forall k | 0 <= k < |cats[1..]| ensures cats[1..][k] != c {
          assert cats[1..][k] == cats[k + 1];
        }
      }
      assert c in cats <==> cats[0] == c || c in cats[1..];
    }
  }

  /** The total number of items listed under the headings `cats`. */
  function TotalListed(items: seq<MenuItem>, cats: seq<string>): nat
  {
    if cats == [] then 0 else |Section(items, cats[0])| + TotalListed(items, cats[1..])
  }

  lemma {:induction false} TotalListedSnoc(items: seq<MenuItem>, x: MenuItem, cats: seq<string>)
    ensures TotalListed(items + [x], cats) == TotalListed(items, cats) + Occurrences(cats, x.category)
  {
    if cats != [] {
      FilterSnoc(items, x, (m: MenuItem) => m.category == cats[0]);
      TotalListedSnoc(items, x, cats[1..]);
    }
  }

  /** Headings that are distinct and cover every item's category list every
      item once: the sections together are as long as the menu. */
  lemma {:induction false} TotalListedCovers(items: seq<MenuItem>, cats: seq<string>)
    requires Distinct(cats)
    requires forall k :: 0 <= k < |items| ==> items[k].category in cats
    ensures TotalListed(items, cats) == |items|
  {
    if items == [] {
      TotalListedEmpty(cats);
    } else {
      var init, x := items[..|items| - 1], items[|items| - 1];
      assert items == init + [x];
      TotalListedCovers(init, cats);
      TotalListedSnoc(init, x, cats);
      OccurrencesOfDistinct(cats, x.category);
    }
  }

  lemma {:induction false} TotalListedEmpty(cats: seq<string>)
    ensures TotalListed([], cats) == 0
  {
    if cats != [] {
      TotalListedEmpty(cats[1..]);
    }
  }

  /** Under the page's own headings the sections hold the menu exactly once. */
  lemma SectionsPartitionMenu(items: seq<MenuItem>)
    ensures TotalListed(items, FirstAppearances(items)) == |items|
  {
    FirstAppearancesDistinct(items);
    forall k | 0 <= k < |items| ensures items[k].category in FirstAppearances(items) {
      FirstAppearancesMembership(items, items[k].category);
    }
    TotalListedCovers(items, FirstAppearances(items));
  }

  /** `category !== menuCategories[menuCategories.length - 1]`: a separator
      follows heading `k`. */
  predicate HasSeparator(cats: seq<string>, k: nat)
    requires k < |cats|
  {
    cats[k] != cats[|cats| - 1]
  }

  /** With distinct headings, every heading but the last is followed by a
      separator. */
  lemma SeparatorAllButLast(cats: seq<string>, k: nat)
    requires Distinct(cats) && k < |cats|
    ensures HasSeparator(cats, k) <==> k < |cats| - 1
  {
  }

  /** The number of separators after the first `n` headings. */
  function SeparatorsBefore(cats: seq<string>, n: nat): nat
    requires n <= |cats|
  {
    if n == 0 then 0 else SeparatorsBefore(cats, n - 1) + (if HasSeparator(cats, n - 1) then 1 else 0)
  }

  /** A menu with headings draws one separator fewer than it has headings. */
  lemma SeparatorCount(cats: seq<string>)
    requires Distinct(cats) && cats != []
    ensures SeparatorsBefore(cats, |cats|) == |cats| - 1
  {
    SeparatorsBeforeAllButLast(cats, |cats| - 1);
  }

  lemma {:induction false} SeparatorsBeforeAllButLast(cats: seq<string>, n: nat)
    requires Distinct(cats) && n < |cats|
    ensures SeparatorsBefore(cats, n) == n
  {
    if n > 0 {
      SeparatorsBeforeAllButLast(cats, n - 1);
    }
  }
}
