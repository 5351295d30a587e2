/** The second markdown writer: the same page per category, described by a
    category map its caller passes in, written in sorted order of category
    id. */
module Writer {

  import opened Text
  import opened Sorting
  import opened Dicts
  import opened Json
  import opened Tweets
  import opened Files
  import opened Report

  /** `write_category_file`: writes the page of one category with the
      given description to its path. */
  method WriteCategoryFile(store: FileStore, categoryId: string, description: Json, tweetIds: seq<string>,
                           index: map<string, Tweet>, now: Clock)
    modifies store`outputs
    ensures store.outputs ==
      old(store.outputs)[CategoryPath(categoryId) := PageText(categoryId, description, tweetIds, index, now.Minutes())]
  {
    var text := RenderPage(categoryId, description, tweetIds, index, now.Minutes());
    store.outputs := store.outputs[CategoryPath(categoryId) := text];
  }

  /** Sorting the keys of a dict keeps each key once. */
  lemma SortedKeys(categorized: Dict<seq<string>>)
    ensures Distinct(Sort(categorized.keys))
    ensures forall k :: k in Sort(categorized.keys) <==> k in categorized.items
  {
    SortDistinct(categorized.keys);
  }

  /** The files `write_all` leaves: the page of each category, in sorted
      order of id, described by `categories.get(cat_id, "")`. */
  function WrittenFiles(categorized: Dict<seq<string>>, categories: Dict<Json>,
                        index: map<string, Tweet>, stamp: string): map<string, string>
  {
    var order := Sort(categorized.keys);
    SortedKeys(categorized);
    PathMap(order, PageTexts(categorized, categories, index, stamp, order))
  }

  /** `write_all`: writes the page of every category, in sorted order of
      id; returns the ids in the order their files are written. */
  method WriteAll(store: FileStore, categorized: Dict<seq<string>>, categories: Dict<Json>,
                  index: map<string, Tweet>, now: Clock) returns (order: seq<string>)
    modifies store`outputs
    ensures order == Sort(categorized.keys)
    ensures store.outputs == old(store.outputs) + WrittenFiles(categorized, categories, index, now.Minutes())
  {
    order := Sort(categorized.keys);
    SortedKeys(categorized);
    ghost var before := store.outputs;
    ghost var texts := PageTexts(categorized, categories, index, now.Minutes(), order);
    var i := 0;
    while i < |order|
      invariant 0 <= i <= |order|
      invariant store.outputs == before + PathMap(order[..i], texts[..i])
    {
      WriteSorted(store, categorized, categories, index, now, order, texts, i, before);
      i := i + 1;
    }
    TakeAll(order);
    TakeAll(texts);
  }

  /** One turn of `write_all`: the page of the `i`-th category in sorted
      order joins the files written before it. */
  method WriteSorted(store: FileStore, categorized: Dict<seq<string>>, categories: Dict<Json>,
                     index: map<string, Tweet>, now: Clock, order: seq<string>, ghost texts: seq<string>,
                     i: nat, ghost before: map<string, string>)
    requires i < |order|
    requires forall k :: k in order ==> k in categorized.items
    requires texts == PageTexts(categorized, categories, index, now.Minutes(), order)
    requires store.outputs == before + PathMap(order[..i], texts[..i])
    modifies store`outputs
    ensures store.outputs == before + PathMap(order[..i + 1], texts[..i + 1])
  {
    var c := order[i];
    var description := Get(categories, c, Str(""));
    ghost var mid := store.outputs;
    WriteCategoryFile(store, c, description, categorized.items[c], index, now);
    assert store.outputs == mid[CategoryPath(c) := texts[i]];
    PathMapSnoc(before, mid, store.outputs, order, texts, i);
  }

  /** After `write_all` there is exactly one new path per category, and each
      holds that category's page with its description from `categories`
      (an unknown category gets the empty, falsy description). */
  lemma WriteAllFiles(categorized: Dict<seq<string>>, categories: Dict<Json>,
                      index: map<string, Tweet>, stamp: string)
    ensures forall p :: p in WrittenFiles(categorized, categories, index, stamp) <==>
      exists k :: k in categorized.items && p == CategoryPath(k)
    ensures forall k :: k in categorized.items ==>
      WrittenFiles(categorized, categories, index, stamp)[CategoryPath(k)] ==
        PageText(k, Get(categories, k, Str("")), categorized.items[k], index, stamp)
  {
    var order := Sort(categorized.keys);
    SortedKeys(categorized);
    var texts := PageTexts(categorized, categories, index, stamp, order);
    PathMapContents(order, texts);
    forall k | k in categorized.items
      ensures WrittenFiles(categorized, categories, index, stamp)[CategoryPath(k)] ==
        PageText(k, Get(categories, k, Str("")), categorized.items[k], index, stamp)
    {
      PageFileOf(categorized, categories, index, stamp, order, k);
    }
  }

  /** Walking the categories in dict order instead leaves one path per
      category too, holding the same page. */
  lemma DictOrderFiles(categorized: Dict<seq<string>>, categories: Dict<Json>,
                       index: map<string, Tweet>, stamp: string)
    ensures forall p :: p in PathMap(categorized.keys, PageTexts(categorized, categories, index, stamp, categorized.keys)) <==>
      exists k :: k in categorized.items && p == CategoryPath(k)
    ensures forall k :: k in categorized.items ==>
      PathMap(categorized.keys, PageTexts(categorized, categories, index, stamp, categorized.keys))[CategoryPath(k)] ==
        PageText(k, Get(categories, k, Str("")), categorized.items[k], index, stamp)
  {
    var texts := PageTexts(categorized, categories, index, stamp, categorized.keys);
    PathMapContents(categorized.keys, texts);
    forall k | k in categorized.items
      ensures PathMap(categorized.keys, texts)[CategoryPath(k)] ==
        PageText(k, Get(categories, k, Str("")), categorized.items[k], index, stamp)
    {
      PageFileOf(categorized, categories, index, stamp, categorized.keys, k);
    }
  }

  /** The order of writing does not matter: walking the categories in
      sorted order leaves the same paths and pages as walking them in dict
      order. */
  lemma OrderIrrelevant(categorized: Dict<seq<string>>, categories: Dict<Json>,
                        index: map<string, Tweet>, stamp: string)
    ensures WrittenFiles(categorized, categories, index, stamp) ==
      PathMap(categorized.keys, PageTexts(categorized, categories, index, stamp, categorized.keys))
  {
    var sortedFiles := WrittenFiles(categorized, categories, index, stamp);
    var dictFiles := PathMap(categorized.keys, PageTexts(categorized, categories, index, stamp, categorized.keys));
    WriteAllFiles(categorized, categories, index, stamp);
    DictOrderFiles(categorized, categories, index, stamp);
    assert sortedFiles.Keys == dictFiles.Keys;
    forall p | p in dictFiles ensures sortedFiles[p] == dictFiles[p] {
      var k :| k in categorized.items && p == CategoryPath(k);
    }
    SameEntries(sortedFiles, dictFiles);
  }

  /** Two maps with the same keys and the same value at each key are equal. */
  lemma SameEntries(a: map<string, string>, b: map<string, string>)
    requires a.Keys == b.Keys
    requires forall p :: p in b ==> a[p] == b[p]
    ensures a == b
  {
  }
}
