/** The storage layer: tweet identity, the tweet index, the progress file
    with its daily request counter, the merged category map, and the
    inversion of the progress map into category lists. */
module Storage {

  import opened Wrappers
  import opened Text
  import opened Dicts
  import opened Json
  import opened Tweets
  import opened Config
  import opened Files

  // ---------------------------------------------------------------------
  // Tweet identity

  /** The tweet has a `metadata` entry, and that entry has a `rest_id`. */
  predicate HasRestId(t: Tweet) {
    t.metadata.Some? && t.metadata.value.restId.Some?
  }

  /** The id of the tweet at position `index` of the corpus. It is the
      `rest_id` when there is one. Otherwise it is the last `/`-separated
      piece of the url, which is "" when the url ends in `/`. Otherwise it
      is the position written in decimal. */
  function GetTweetId(t: Tweet, index: nat): (id: string)
    ensures HasRestId(t) ==> id == t.metadata.value.restId.value
    ensures !HasRestId(t) && t.url.Some? ==> IsLastPiece(id, t.url.value, '/')
    ensures !HasRestId(t) && t.url.None? ==> id == DecimalString(index)
  {
    if HasRestId(t) then t.metadata.value.restId.value
    else if t.url.Some? then
      var parts := Split(t.url.value, '/');
      LastPieceOfSplit(t.url.value, '/');
      // `split` never returns an empty list, so the guard always holds
      if |parts| > 0 then parts[|parts| - 1] else DecimalString(index)
    else DecimalString(index)
  }

  /** A url that ends in a slash yields the empty id. */
  lemma UrlEndingInSlash(t: Tweet, index: nat)
    requires !HasRestId(t) && t.url.Some? && EndsWith(t.url.value, "/")
    ensures GetTweetId(t, index) == ""
  {
  }

  /** A status link yields the number at its end. */
  lemma StatusLinkId(index: nat)
    ensures GetTweetId(Tweet(None, Some("https://x.com/someone/status/1790"), None, None), index) == "1790"
  {
    var u := "https://x.com/someone/status/1790";
    var t := Tweet(None, Some(u), None, None);
    assert IsLastPiece("1790", u, '/') by {
      assert u[|u| - 5] == '/';
      assert u[|u| - 4..] == "1790";
    }
    LastPieceUnique(GetTweetId(t, index), "1790", u, '/');
  }

  // ---------------------------------------------------------------------
  // The tweet index

  /** The id of every tweet of the corpus, position by position. */
  function TweetIds(tweets: seq<Tweet>): (ids: seq<string>)
    ensures |ids| == |tweets|
    ensures forall i :: 0 <= i < |tweets| ==> ids[i] == GetTweetId(tweets[i], i)
  {
    seq(|tweets|, i requires 0 <= i < |tweets| => GetTweetId(tweets[i], i))
  }

  /** The tweets by id. Its keys are exactly the ids of the tweets. When two
      tweets have the same id, the later one is stored. */
  function BuildTweetIndex(tweets: seq<Tweet>): (index: map<string, Tweet>)
    ensures forall k :: k in index <==> exists i :: 0 <= i < |tweets| && GetTweetId(tweets[i], i) == k
    ensures forall i :: 0 <= i < |tweets| && LastOccurrence(TweetIds(tweets), i) ==>
      index[GetTweetId(tweets[i], i)] == tweets[i]
  {
    var ids := TweetIds(tweets);
    var index := IndexOf(ids, tweets);
    assert forall k :: k in ids <==> exists i :: 0 <= i < |tweets| && GetTweetId(tweets[i], i) == k by {
      forall k | k in ids ensures exists i :: 0 <= i < |tweets| && GetTweetId(tweets[i], i) == k {
        var i :| 0 <= i < |ids| && ids[i] == k;
        assert GetTweetId(tweets[i], i) == k;
      }
    }
    index
  }

  // ---------------------------------------------------------------------
  // The progress file

  /** What `save_progress` writes: the progress map, the time of the save,
      and the day of the save with the day's request count. */
  function ProgressWritten(processed: Dict<seq<string>>, requestsToday: int, now: Clock): ProgressDoc {
    ProgressDoc(processed, None, now.Seconds(), Some(RateEntry(now.date, requestsToday)))
  }

  /** What `load_progress` reads: the progress map, or `{}` without a file. */
  function ProcessedOf(file: Option<ProgressDoc>): Dict<seq<string>> {
    if file.Some? then file.value.processed else Empty()
  }

  /** What `load_requests_today` reads on day `today`: the stored count when
      the file holds a `rate` entry dated `today`, and 0 otherwise. */
  function RequestsToday(file: Option<ProgressDoc>, today: string): int {
    if file.Some? && file.value.rate.Some? && file.value.rate.value.date == today
    then file.value.rate.value.requests
    else 0
  }

  method LoadProgress(store: FileStore) returns (processed: Dict<seq<string>>)
    ensures processed == ProcessedOf(store.progress)
  {
    if store.progress.None? {
      return Empty();
    }
    processed := store.progress.value.processed;
  }

  method SaveProgress(store: FileStore, processed: Dict<seq<string>>, requestsToday: int, now: Clock)
    modifies store`progress
    ensures store.progress == Some(ProgressWritten(processed, requestsToday, now))
  {
    store.progress := Some(ProgressDoc(processed, None, now.Seconds(), Some(RateEntry(now.date, requestsToday))));
  }

  method LoadRequestsToday(store: FileStore, today: string) returns (n: int)
    ensures n == RequestsToday(store.progress, today)
  {
    if store.progress.None? {
      return 0;
    }
    var rate := store.progress.value.rate;
    if rate.Some? && rate.value.date == today {
      return rate.value.requests;
    }
    return 0; // a new day: the counter starts again
  }

  /** A save followed by loads: the progress map comes back, and the
      request count comes back on the day of the save and is 0 on any other
      day. */
  lemma ProgressRoundTrip(processed: Dict<seq<string>>, requestsToday: int, now: Clock, today: string)
    ensures ProcessedOf(Some(ProgressWritten(processed, requestsToday, now))) == processed
    ensures RequestsToday(Some(ProgressWritten(processed, requestsToday, now)), today) ==
      if today == now.date then requestsToday else 0
  {
  }

  /** Without a progress file, or with one that has no `rate` entry, no
      request has been made today. */
  lemma NoRateNoRequests(file: Option<ProgressDoc>, today: string)
    requires file.None? || file.value.rate.None?
    ensures RequestsToday(file, today) == 0
  {
  }

  // ---------------------------------------------------------------------
  // Categories

  /** The base taxonomy updated with the dynamic categories: every key of
      either, the dynamic description where both have one, the base
      description for a base-only key, and the base keys first. */
  function AllCategories(dynamic: Dict<Json>): (cats: Dict<Json>)
    ensures forall k :: k in cats.items <==> k in BaseIds || k in dynamic.items
    ensures forall k :: k in dynamic.items ==> cats.items[k] == dynamic.items[k]
    ensures forall k :: k in BaseIds && k !in dynamic.items ==> cats.items[k] == BaseDescriptions[k]
    ensures |BaseIds| <= |cats.keys| && cats.keys[..|BaseIds|] == BaseIds
  {
    Update(BaseCategories, dynamic)
  }

  method LoadDynamicCategories(store: FileStore) returns (dynamic: Dict<Json>)
    ensures dynamic == store.categories.GetOr(Empty())
  {
    if store.categories.None? {
      return Empty();
    }
    dynamic := store.categories.value;
  }

  method SaveDynamicCategories(store: FileStore, dynamic: Dict<Json>)
    modifies store`categories
    ensures store.categories == Some(dynamic)
  {
    store.categories := Some(dynamic);
  }

  method LoadAllCategories(store: FileStore) returns (cats: Dict<Json>)
    ensures cats == AllCategories(store.categories.GetOr(Empty()))
  {
    cats := BaseCategories;
    var dynamic := LoadDynamicCategories(store);
    cats := Update(cats, dynamic);
  }

  // ---------------------------------------------------------------------
  // Inversion of the progress map

  /** `categorized.setdefault(c, []).append(t)` */
  function AppendTo(acc: Dict<seq<string>>, c: string, t: string): Dict<seq<string>> {
    Set(acc, c, Get(acc, c, []) + [t])
  }

  /** The inner loop: `t` appended under each of `cats`, in order. */
  function AddToAll(acc: Dict<seq<string>>, cats: seq<string>, t: string): Dict<seq<string>>
    decreases |cats|
  {
    if |cats| == 0 then acc
    else AppendTo(AddToAll(acc, cats[..|cats| - 1], t), cats[|cats| - 1], t)
  }

  /** The outer loop over the ids `ks` of `processed`, from `{}`. */
  function InvertKeys(processed: Dict<seq<string>>, ks: seq<string>): Dict<seq<string>>
    requires forall k :: k in ks ==> k in processed.items
    decreases |ks|
  {
    if |ks| == 0 then Empty()
    else
      var t := ks[|ks| - 1];
      AddToAll(InvertKeys(processed, ks[..|ks| - 1]), processed.items[t], t)
  }

  /** `invert_to_categories(processed)` */
  function Inverted(processed: Dict<seq<string>>): Dict<seq<string>> {
    InvertKeys(processed, processed.keys)
  }

  method InvertToCategories(processed: Dict<seq<string>>) returns (categorized: Dict<seq<string>>)
    ensures categorized == Inverted(processed)
  {
    categorized := Empty();
    var ks := processed.keys;
    var i := 0;
    while i < |ks|
      invariant 0 <= i <= |ks|
      invariant categorized == InvertKeys(processed, ks[..i])
    {
      var t := ks[i];
      categorized := AppendUnderEach(categorized, processed.items[t], t);
      assert ks[..i + 1][..i] == ks[..i];
      i := i + 1;
    }
    TakeAll(ks);
  }

  /** The inner loop of `invert_to_categories`: `t` appended to the list of
      each of `cats` in turn, a missing list starting empty. */
  method AppendUnderEach(acc: Dict<seq<string>>, cats: seq<string>, t: string) returns (r: Dict<seq<string>>)
    ensures r == AddToAll(acc, cats, t)
  {
    r := acc;
    var j := 0;
    while j < |cats|
      invariant 0 <= j <= |cats|
      invariant r == AddToAll(acc, cats[..j], t)
    {
      var c := cats[j];
      var list := if c in r.items then r.items[c] else [];
      r := Set(r, c, list + [t]);
      assert cats[..j + 1][..j] == cats[..j];
      j := j + 1;
    }
    TakeAll(cats);
  }

  /** `n` copies of `t`. */
  function Repeat(t: string, n: nat): (r: seq<string>)
    ensures |r| == n && forall i :: 0 <= i < n ==> r[i] == t
  {
    seq(n, _ => t)
  }

  lemma {:induction false} RepeatCount(t: string, n: nat, x: string)
    ensures multiset(Repeat(t, n))[x] == if x == t then n else 0
    decreases n
  {
    if n > 0 {
      RepeatCount(t, n - 1, x);
      assert Repeat(t, n) == Repeat(t, n - 1) + [t];
    }
  }

  /** A reference definition of one list of the inversion: each id of `ks`
      in turn, repeated as often as `c` occurs in its category list. */
  function IdsFor(processed: Dict<seq<string>>, ks: seq<string>, c: string): seq<string>
    requires forall k :: k in ks ==> k in processed.items
    decreases |ks|
  {
    if |ks| == 0 then []
    else
      var t := ks[|ks| - 1];
      IdsFor(processed, ks[..|ks| - 1], c) + Repeat(t, multiset(processed.items[t])[c])
  }

  /** The inner loop appends `t` to the list of `c` once per occurrence of
      `c` in `cats`. */
  lemma {:induction false} AddToAllList(acc: Dict<seq<string>>, cats: seq<string>, t: string, c: string)
    ensures Get(AddToAll(acc, cats, t), c, []) == Get(acc, c, []) + Repeat(t, multiset(cats)[c])
    decreases |cats|
  {
    if |cats| > 0 {
      var front := cats[..|cats| - 1];
      var last := cats[|cats| - 1];
      AddToAllList(acc, front, t, c);
      var mid := AddToAll(acc, front, t);
      CountSnoc(cats, c);
      AppendToList(mid, last, t, c);
      AddToListStep(Get(acc, c, []), Get(mid, c, []), Get(AppendTo(mid, last, t), c, []), t, multiset(front)[c], c == last);
    }
  }

  /** One more append of `t`, or none, to a list that is `before` followed
      by `k` copies of `t`. */
  lemma AddToListStep(before: seq<string>, mid: seq<string>, after: seq<string>, t: string, k: nat, hit: bool)
    requires mid == before + Repeat(t, k)
    requires after == mid + if hit then [t] else []
    ensures after == before + Repeat(t, k + if hit then 1 else 0)
  {
    if hit {
      AppendAssoc(before, Repeat(t, k), [t]);
      RepeatSnoc(t, k);
    } else {
      AppendNothing(mid, []);
    }
  }

  /** `setdefault(last, []).append(t)` touches the list of `last` only. */
  lemma AppendToList(acc: Dict<seq<string>>, last: string, t: string, c: string)
    ensures Get(AppendTo(acc, last, t), c, []) == Get(acc, c, []) + if c == last then [t] else []
  {
  }

  lemma RepeatSnoc(t: string, k: nat)
    ensures Repeat(t, k) + [t] == Repeat(t, k + 1)
  {
  }

  /** The last element of a list adds one to its own count only. */
  lemma CountSnoc(cats: seq<string>, c: string)
    requires |cats| > 0
    ensures multiset(cats)[c] ==
      multiset(cats[..|cats| - 1])[c] + if cats[|cats| - 1] == c then 1 else 0
  {
    FrontAndLast(cats);
  }

  /** The inner loop adds exactly the categories of `cats` as keys. */
  lemma {:induction false} AddToAllKeys(acc: Dict<seq<string>>, cats: seq<string>, t: string, c: string)
    ensures c in AddToAll(acc, cats, t).items <==> c in acc.items || c in cats
    decreases |cats|
  {
    if |cats| > 0 {
      var front := cats[..|cats| - 1];
      var last := cats[|cats| - 1];
      AddToAllKeys(acc, front, t, c);
      FrontAndLast(cats);
      AppendToKeys(AddToAll(acc, front, t), last, t, c);
    }
  }

  /** `setdefault(last, []).append(t)` adds the key `last` and no other. */
  lemma AppendToKeys(acc: Dict<seq<string>>, last: string, t: string, c: string)
    ensures c in AppendTo(acc, last, t).items <==> c in acc.items || c == last
  {
  }

  /** After the outer loop over the ids `ks`, the list of `c` is the
      reference list of those ids. */
  lemma {:induction false} InvertKeysList(processed: Dict<seq<string>>, ks: seq<string>, c: string)
    requires forall k :: k in ks ==> k in processed.items
    ensures Get(InvertKeys(processed, ks), c, []) == IdsFor(processed, ks, c)
    decreases |ks|
  {
    if |ks| > 0 {
      var front := ks[..|ks| - 1];
      var t := ks[|ks| - 1];
      assert forall k :: k in front ==> k in ks;
      InvertKeysList(processed, front, c);
      var mid := InvertKeys(processed, front);
      assert InvertKeys(processed, ks) == AddToAll(mid, processed.items[t], t);
      AddToAllList(mid, processed.items[t], t, c);
    }
  }

  /** After the outer loop over the ids `ks`, a category is a key exactly
      when one of those ids names it. */
  lemma {:induction false} InvertKeysKeys(processed: Dict<seq<string>>, ks: seq<string>, c: string)
    requires forall k :: k in ks ==> k in processed.items
    ensures c in InvertKeys(processed, ks).items <==> exists t :: t in ks && c in processed.items[t]
    decreases |ks|
  {
    if |ks| > 0 {
      var front := ks[..|ks| - 1];
      var t := ks[|ks| - 1];
      assert forall x :: x in ks <==> x in front || x == t by {
        FrontAndLast(ks);
      }
      InvertKeysKeys(processed, front, c);
      var mid := InvertKeys(processed, front);
      assert InvertKeys(processed, ks) == AddToAll(mid, processed.items[t], t);
      AddToAllKeys(mid, processed.items[t], t, c);
    }
  }

  /** Each id of `ks` occurs in the reference list of `c` as often as `c`
      occurs in that id's category list, and no other id occurs. */
  lemma {:induction false} IdsForCount(processed: Dict<seq<string>>, ks: seq<string>, c: string, t: string)
    requires forall k :: k in ks ==> k in processed.items
    requires Distinct(ks)
    ensures multiset(IdsFor(processed, ks, c))[t] ==
      if t in ks then multiset(processed.items[t])[c] else 0
    decreases |ks|
  {
    if |ks| > 0 {
      var front := ks[..|ks| - 1];
      var last := ks[|ks| - 1];
      FrontAndLast(ks);
      assert Distinct(front);
      assert last !in front;
      IdsForCount(processed, front, c, t);
      RepeatCount(last, multiset(processed.items[last])[c], t);
    }
  }

  /** Each list of the inversion lists the ids of the progress map in the
      map's order, each repeated as often as the category occurs in its
      list; categories without an entry read as the empty list. */
  lemma InvertedOrder(processed: Dict<seq<string>>, c: string)
    ensures Get(Inverted(processed), c, []) == IdsFor(processed, processed.keys, c)
  {
    InvertKeysList(processed, processed.keys, c);
  }

  /** Id `t` occurs in the list of `c` exactly as many times as `c` occurs
      in the category list of `t`. */
  lemma InvertedCount(processed: Dict<seq<string>>, c: string, t: string)
    ensures multiset(Get(Inverted(processed), c, []))[t] ==
      if t in processed.items then multiset(processed.items[t])[c] else 0
  {
    InvertKeysList(processed, processed.keys, c);
    IdsForCount(processed, processed.keys, c, t);
  }

  /** The categories of the inversion are exactly those named in some
      category list, and each of them has a non-empty list. */
  lemma InvertedKeys(processed: Dict<seq<string>>, c: string)
    ensures c in Inverted(processed).items <==>
      exists t :: t in processed.items && c in processed.items[t]
    ensures c in Inverted(processed).items ==> |Inverted(processed).items[c]| > 0
  {
    InvertKeysKeys(processed, processed.keys, c);
    if c in Inverted(processed).items {
      var t :| t in processed.keys && c in processed.items[t];
      InvertedCount(processed, c, t);
      assert t in Inverted(processed).items[c];
    }
  }

  /** An id whose category list is empty appears in no list. */
  lemma EmptyListAppearsNowhere(processed: Dict<seq<string>>, t: string, c: string)
    requires t in processed.items && processed.items[t] == []
    ensures t !in Get(Inverted(processed), c, [])
  {
    InvertedCount(processed, c, t);
  }
}
