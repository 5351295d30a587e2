/** The markdown writer of the command-line run: its own tweet index, one
    page per category under the output directory, and the printed
    classification summary. */
module MarkdownWriter {

  import opened Wrappers
  import opened Text
  import opened Sorting
  import opened Dicts
  import opened Json
  import opened Tweets
  import opened Config
  import opened Files
  import opened Storage
  import opened Report
  import Classifier

  // ---------------------------------------------------------------------
  // The tweet index

  /** `tweet.get("metadata", {}).get("rest_id", str(i))`: the `rest_id`
      when there is one, else the position. Unlike the tweet id used
      everywhere else, the url is never consulted. */
  function IndexKey(t: Tweet, i: nat): string {
    if HasRestId(t) then t.metadata.value.restId.value else DecimalString(i)
  }

  function IndexKeys(tweets: seq<Tweet>): (keys: seq<string>)
    ensures |keys| == |tweets|
    ensures forall i :: 0 <= i < |tweets| ==> keys[i] == IndexKey(tweets[i], i)
  {
    seq(|tweets|, i requires 0 <= i < |tweets| => IndexKey(tweets[i], i))
  }

  /** The index `load_tweet_index` builds from the corpus file, `{}` when
      there is none. */
  function TweetIndex(input: Option<seq<Tweet>>): map<string, Tweet> {
    if input.None? then map[] else IndexOf(IndexKeys(input.value), input.value)
  }

  /** `load_tweet_index`: no corpus file gives the empty index; otherwise
      each tweet is filed under its index key, a later tweet replacing an
      earlier one with the same key. */
  method LoadTweetIndex(store: FileStore) returns (index: map<string, Tweet>)
    ensures index == TweetIndex(store.input)
    ensures store.input.None? ==> index == map[]
    ensures store.input.Some? ==> forall k :: k in index <==> k in IndexKeys(store.input.value)
    ensures store.input.Some? ==> forall j ::
      (0 <= j < |store.input.value| && LastOccurrence(IndexKeys(store.input.value), j)) ==>
        index[IndexKey(store.input.value[j], j)] == store.input.value[j]
  {
    if store.input.None? {
      return map[];
    }
    var tweets := store.input.value;
    ghost var keys := IndexKeys(tweets);
    index := map[];
    var i := 0;
    while i < |tweets|
      invariant 0 <= i <= |tweets|
      invariant index == IndexOf(keys[..i], tweets[..i])
    {
      assert keys[..i + 1][..i] == keys[..i] && tweets[..i + 1][..i] == tweets[..i];
      index := index[IndexKey(tweets[i], i) := tweets[i]];
      i := i + 1;
    }
    TakeAll(keys);
    TakeAll(tweets);
  }

  /** The index key is the tweet id whenever the tweet has a `rest_id` or
      no url. */
  lemma IndexKeyAgrees(t: Tweet, i: nat)
    requires HasRestId(t) || t.url.None?
    ensures IndexKey(t, i) == GetTweetId(t, i)
  {
  }

  /** A tweet known only by its url is filed in the categories under the
      last piece of the url but indexed under its position, so every page
      lists it as the empty tweet `{}`: an unknown author, no text and no
      link (see `Report.UnknownIdEntry`). */
  lemma UrlOnlyTweetShownUnknown(text: string, author: string)
    ensures var t := Tweet(None, Some("https://x.com/someone/status/1790"), Some(text), Some(author));
      && GetTweetId(t, 0) == "1790"
      && LookupTweet(TweetIndex(Some([t])), "1790") == NoTweet
  {
    var t := Tweet(None, Some("https://x.com/someone/status/1790"), Some(text), Some(author));
    var u := "https://x.com/someone/status/1790";
    assert IsLastPiece("1790", u, '/') by {
      assert u[|u| - 5] == '/';
      assert u[|u| - 4..] == "1790";
    }
    LastPieceUnique(GetTweetId(t, 0), "1790", u, '/');
    assert IndexKeys([t]) == ["0"];
  }

  // ---------------------------------------------------------------------
  // Category pages

  /** `load_categories().get(category_id, "")`: a description from the
      dynamic file wins, then the base one; an unknown category has the
      empty (falsy) description. */
  function CategoryDescription(dynamic: Option<Dict<Json>>, categoryId: string): (d: Json)
    ensures dynamic.Some? && categoryId in dynamic.value.items ==> d == dynamic.value.items[categoryId]
    ensures categoryId in BaseIds && (dynamic.None? || categoryId !in dynamic.value.items) ==>
      d == BaseDescriptions[categoryId]
    ensures categoryId !in BaseIds && (dynamic.None? || categoryId !in dynamic.value.items) ==>
      d == Str("")
  {
    Get(AllCategories(dynamic.GetOr(Empty())), categoryId, Str(""))
  }

  /** The page of `categoryId` as this writer renders it. */
  function DescribedPage(dynamic: Option<Dict<Json>>, categoryId: string, tweetIds: seq<string>,
                         index: map<string, Tweet>, stamp: string): string
  {
    PageText(categoryId, CategoryDescription(dynamic, categoryId), tweetIds, index, stamp)
  }

  /** `after` is `before` with the page of `categoryId` written to its path. */
  ghost predicate WrotePage(before: map<string, string>, after: map<string, string>,
                            dynamic: Option<Dict<Json>>, categoryId: string, tweetIds: seq<string>,
                            index: map<string, Tweet>, stamp: string)
  {
    after == before[CategoryPath(categoryId) := DescribedPage(dynamic, categoryId, tweetIds, index, stamp)]
  }

  /** `generate_category_file`: writes the page of one category, described
      as the merged categories describe it, to its path. */
  method GenerateCategoryFile(store: FileStore, categoryId: string, tweetIds: seq<string>,
                              index: map<string, Tweet>, now: Clock)
    modifies store`outputs
    ensures WrotePage(old(store.outputs), store.outputs, store.categories, categoryId, tweetIds, index, now.Minutes())
  {
    var cats := Classifier.LoadCategories(store);
    var description := Get(cats, categoryId, Str(""));
    var text := RenderPage(categoryId, description, tweetIds, index, now.Minutes());
    store.outputs := store.outputs[CategoryPath(categoryId) := text];
  }

  /** The page texts of the categories `ks` as this writer renders them. */
  function DescribedPages(categorized: Dict<seq<string>>, dynamic: Option<Dict<Json>>,
                          index: map<string, Tweet>, stamp: string, ks: seq<string>): (texts: seq<string>)
    requires forall k :: k in ks ==> k in categorized.items
    ensures |texts| == |ks|
  {
    seq(|ks|, j requires 0 <= j < |ks| => DescribedPage(dynamic, ks[j], categorized.items[ks[j]], index, stamp))
  }

  /** One turn of `write_all_categories`: the page of the `i`-th category
      joins the files written before it. */
  method WriteNext(store: FileStore, categorized: Dict<seq<string>>, index: map<string, Tweet>, now: Clock,
                   ghost texts: seq<string>, i: nat, ghost before: map<string, string>)
    requires i < |categorized.keys|
    requires texts == DescribedPages(categorized, store.categories, index, now.Minutes(), categorized.keys)
    requires store.outputs == before + PathMap(categorized.keys[..i], texts[..i])
    modifies store`outputs
    ensures store.outputs == before + PathMap(categorized.keys[..i + 1], texts[..i + 1])
  {
    var c := categorized.keys[i];
    ghost var mid := store.outputs;
    GenerateCategoryFile(store, c, categorized.items[c], index, now);
    assert store.outputs == mid[CategoryPath(c) := texts[i]];
    PathMapSnoc(before, mid, store.outputs, categorized.keys, texts, i);
  }

  /** `write_all_categories`: one page per category, in the dict's order.
      Files of categories that are not in `categorized` are left as they
      were. */
  method WriteAllCategories(store: FileStore, categorized: Dict<seq<string>>,
                            index: map<string, Tweet>, now: Clock)
    modifies store`outputs
    ensures store.outputs == old(store.outputs) +
      PathMap(categorized.keys, DescribedPages(categorized, store.categories, index, now.Minutes(), categorized.keys))
  {
    ghost var before := store.outputs;
    var keys := categorized.keys;
    ghost var texts := DescribedPages(categorized, store.categories, index, now.Minutes(), keys);
    var i := 0;
    while i < |keys|
      invariant 0 <= i <= |keys|
      invariant store.outputs == before + PathMap(keys[..i], texts[..i])
    {
      WriteNext(store, categorized, index, now, texts, i, before);
      i := i + 1;
    }
    TakeAll(keys);
    TakeAll(texts);
  }

  // ---------------------------------------------------------------------
  // The summary

  /** `"-" * 35` */
  function Rule(): (r: string)
    ensures |r| == 35 && forall i :: 0 <= i < 35 ==> r[i] == '-'
  {
    seq(35, _ => '-')
  }

  /** The summary line of one category: its display name and the length of
      its list. */
  function CountLine(categorized: Dict<seq<string>>, categoryId: string): string
    requires categoryId in categorized.items
  {
    "  " + DisplayName(categoryId) + ": " + DecimalString(|categorized.items[categoryId]|)
  }

  /** The distinct elements of a list: `set(ids)`. */
  function Members(ids: seq<string>): (r: set<string>)
    ensures forall t :: t in r <==> t in ids
  {
    set t | t in ids
  }

  /** The ids listed under any of the categories `ks`. */
  function IdsUnder(categorized: Dict<seq<string>>, ks: seq<string>): set<string>
    requires forall k :: k in ks ==> k in categorized.items
    decreases |ks|
  {
    if |ks| == 0 then {}
    else IdsUnder(categorized, ks[..|ks| - 1]) + Members(categorized.items[ks[|ks| - 1]])
  }

  lemma {:induction false} IdsUnderMembers(categorized: Dict<seq<string>>, ks: seq<string>)
    requires forall k :: k in ks ==> k in categorized.items
    ensures forall t :: t in IdsUnder(categorized, ks) <==> exists k :: k in ks && t in categorized.items[k]
    decreases |ks|
  {
    if |ks| > 0 {
      var n := |ks| - 1;
      var front := ks[..n];
      IdsUnderMembers(categorized, front);
      assert IdsUnder(categorized, ks) == IdsUnder(categorized, front) + Members(categorized.items[ks[n]]);
      forall t | t in IdsUnder(categorized, ks) ensures exists k :: k in ks && t in categorized.items[k] {
        if t !in categorized.items[ks[n]] {
          assert t in IdsUnder(categorized, front);
          var k :| k in front && t in categorized.items[k];
          assert k in ks;
        }
      }
      forall t, k | k in ks && t in categorized.items[k] ensures t in IdsUnder(categorized, ks) {
        if k != ks[n] {
          assert k in front;
        }
      }
    }
  }

  /** Every id listed under some category, each counted once. */
  function UniqueIds(categorized: Dict<seq<string>>): (ids: set<string>)
    ensures forall t :: t in ids <==> exists k :: k in categorized.items && t in categorized.items[k]
  {
    IdsUnderMembers(categorized, categorized.keys);
    IdsUnder(categorized, categorized.keys)
  }

  /** The count line of each of the categories `ks`, in order. */
  function CountLines(categorized: Dict<seq<string>>, ks: seq<string>): (lines: seq<string>)
    requires forall k :: k in ks ==> k in categorized.items
    ensures |lines| == |ks|
    ensures forall j :: 0 <= j < |ks| ==> lines[j] == CountLine(categorized, ks[j])
  {
    seq(|ks|, j requires 0 <= j < |ks| => CountLine(categorized, ks[j]))
  }

  /** The title line, which starts with a newline. */
  function SummaryTitle(): string {
    "\n\U{1F4CA} Classification Summary:"
  }

  /** The last three lines of the summary: a rule, the number of distinct
      ids and the number of categories. */
  function SummaryFooter(categorized: Dict<seq<string>>): seq<string> {
    [ Rule(),
      "  Unique tweets: " + DecimalString(|UniqueIds(categorized)|),
      "  Categories used: " + DecimalString(|categorized.keys|) ]
  }

  /** The lines of the summary: a title, a rule, one count line per
      category in sorted order, then the footer. */
  function SummaryLines(categorized: Dict<seq<string>>): seq<string> {
    var sorted := Sort(categorized.keys);
    assert forall j :: 0 <= j < |sorted| ==> sorted[j] in multiset(categorized.keys);
    [SummaryTitle(), Rule()] + CountLines(categorized, sorted) + SummaryFooter(categorized)
  }

  /** The loop of `get_summary_stats`: one count line per category of
      `sorted`, and the ids seen so far. */
  method CountCategories(categorized: Dict<seq<string>>, sorted: seq<string>)
    returns (lines: seq<string>, allIds: set<string>)
    requires forall k :: k in sorted ==> k in categorized.items
    ensures lines == CountLines(categorized, sorted)
    ensures allIds == IdsUnder(categorized, sorted)
  {
    lines := [];
    allIds := {};
    var i := 0;
    while i < |sorted|
      invariant 0 <= i <= |sorted|
      invariant allIds == IdsUnder(categorized, sorted[..i])
      invariant lines == CountLines(categorized, sorted[..i])
    {
      var c := sorted[i];
      assert sorted[..i + 1][..i] == sorted[..i];
      allIds := allIds + Members(categorized.items[c]);
      lines := lines + [CountLine(categorized, c)];
      i := i + 1;
    }
    TakeAll(sorted);
  }

  /** `get_summary_stats`: walks the categories in sorted order, counting
      each list and collecting the distinct ids. */
  method GetSummaryStats(categorized: Dict<seq<string>>) returns (text: string)
    ensures text == Join('\n', SummaryLines(categorized))
  {
    var sorted := Sort(categorized.keys);
    SameIds(categorized, sorted);
    var counts, allIds := CountCategories(categorized, sorted);
    var lines := [SummaryTitle(), Rule()] + counts;
    lines := lines + [Rule()];
    lines := lines + ["  Unique tweets: " + DecimalString(|allIds|)];
    lines := lines + ["  Categories used: " + DecimalString(|categorized.keys|)];
    assert lines == [SummaryTitle(), Rule()] + counts + SummaryFooter(categorized);
    text := Join('\n', lines);
  }

  /** Walking the keys in sorted order collects the same ids. */
  lemma SameIds(categorized: Dict<seq<string>>, sorted: seq<string>)
    requires sorted == Sort(categorized.keys)
    ensures forall k :: k in sorted ==> k in categorized.items
    ensures IdsUnder(categorized, sorted) == UniqueIds(categorized)
  {
    assert forall k :: k in sorted <==> k in multiset(categorized.keys);
    IdsUnderMembers(categorized, sorted);
  }

  /** The summary walks each category exactly once, in strictly increasing
      order of id. */
  lemma SummaryOrder(categorized: Dict<seq<string>>)
    ensures StrictlySorted(Sort(categorized.keys))
    ensures forall k :: k in categorized.items <==> k in Sort(categorized.keys)
  {
    SortDistinct(categorized.keys);
  }

  /** The title and a rule open the summary. */
  lemma SummaryHead(categorized: Dict<seq<string>>)
    ensures |SummaryLines(categorized)| == |categorized.keys| + 5
    ensures SummaryLines(categorized)[0] == SummaryTitle()
    ensures SummaryLines(categorized)[1] == Rule()
    ensures |SummaryLines(categorized)[1]| == 35 && forall i :: 0 <= i < 35 ==> SummaryLines(categorized)[1][i] == '-'
  {
    SortDistinct(categorized.keys);
  }

  /** The count line of the `j`-th category in sorted order is line
      `2 + j`. */
  lemma SummaryCountLines(categorized: Dict<seq<string>>)
    ensures var lines := SummaryLines(categorized); var sorted := Sort(categorized.keys);
      && (forall k :: k in sorted ==> k in categorized.items)
      && |lines| == |sorted| + 5
      && (forall j :: 0 <= j < |sorted| ==> lines[2 + j] == CountLine(categorized, sorted[j]))
  {
    var sorted := Sort(categorized.keys);
    SortDistinct(categorized.keys);
    ThreeParts([SummaryTitle(), Rule()], CountLines(categorized, sorted), SummaryFooter(categorized));
  }

  /** The last three lines are the footer: a rule, the number of distinct
      ids and the number of categories. */
  lemma SummaryFooterLines(categorized: Dict<seq<string>>)
    ensures var lines := SummaryLines(categorized);
      |lines| >= 3 && lines[|lines| - 3..] == SummaryFooter(categorized)
  {
    var sorted := Sort(categorized.keys);
    SortDistinct(categorized.keys);
    ThreeParts([SummaryTitle(), Rule()], CountLines(categorized, sorted), SummaryFooter(categorized));
  }

  /** Where the middle and the last part of a three-part concatenation sit. */
  lemma ThreeParts<T>(head: seq<T>, middle: seq<T>, tail: seq<T>)
    ensures |head + middle + tail| == |head| + |middle| + |tail|
    ensures forall j :: 0 <= j < |middle| ==> (head + middle + tail)[|head| + j] == middle[j]
    ensures (head + middle + tail)[|head| + |middle|..] == tail
  {
  }

  /** The number of categories printed is the number of keys, and the
      number of distinct ids is at least the length of any one list
      without repeats and at most the sum of all lengths. */
  lemma SummaryCounts(categorized: Dict<seq<string>>)
    ensures |categorized.keys| == |categorized.items|
    ensures forall k :: k in categorized.items ==> |Members(categorized.items[k])| <= |UniqueIds(categorized)|
    ensures |UniqueIds(categorized)| <= TotalLength(categorized, categorized.keys)
  {
    assert categorized.items.Keys == set k | k in categorized.keys;
    DistinctCardinality(categorized.keys);
    forall k | k in categorized.items
      ensures |Members(categorized.items[k])| <= |UniqueIds(categorized)|
    {
      SubsetSize(Members(categorized.items[k]), UniqueIds(categorized));
    }
    UniqueAtMostTotal(categorized, categorized.keys);
  }

  /** The sum of the lengths of the lists of the categories `ks`. */
  function TotalLength(categorized: Dict<seq<string>>, ks: seq<string>): nat
    requires forall k :: k in ks ==> k in categorized.items
    decreases |ks|
  {
    if |ks| == 0 then 0
    else TotalLength(categorized, ks[..|ks| - 1]) + |categorized.items[ks[|ks| - 1]]|
  }

  lemma {:induction false} UniqueAtMostTotal(categorized: Dict<seq<string>>, ks: seq<string>)
    requires forall k :: k in ks ==> k in categorized.items
    ensures |IdsUnder(categorized, ks)| <= TotalLength(categorized, ks)
    decreases |ks|
  {
    if |ks| > 0 {
      var n := |ks| - 1;
      UniqueAtMostTotal(categorized, ks[..n]);
      MembersAtMostLength(categorized.items[ks[n]]);
    }
  }

  lemma {:induction false} SubsetSize(a: set<string>, b: set<string>)
    requires a <= b
    ensures |a| <= |b|
    decreases a
  {
    if a != {} {
      var x :| x in a;
      SubsetSize(a - {x}, b - {x});
    }
  }

  lemma {:induction false} MembersAtMostLength(ids: seq<string>)
    ensures |Members(ids)| <= |ids|
    decreases |ids|
  {
    if |ids| > 0 {
      var n := |ids| - 1;
      MembersAtMostLength(ids[..n]);
      assert Members(ids) == Members(ids[..n]) + {ids[n]};
    }
  }

  lemma {:induction false} DistinctCardinality(ks: seq<string>)
    requires Distinct(ks)
    ensures |set k | k in ks| == |ks|
    decreases |ks|
  {
    if |ks| > 0 {
      var n := |ks| - 1;
      DistinctCardinality(ks[..n]);
      assert (set k | k in ks) == (set k | k in ks[..n]) + {ks[n]};
      assert ks[n] !in ks[..n];
    }
  }
}
