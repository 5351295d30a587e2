/** The resumable classification run of the command-line entry point: it
    picks the tweets whose id is not in the progress file yet, cuts them to
    the requested limit, classifies them one by one, files each id under
    its categories, and unless it is a dry run saves the progress and
    writes the category pages. */
module Orchestrator {

  import opened Wrappers
  import opened Text
  import opened Dicts
  import opened Tweets
  import opened Files
  import Storage
  import opened Report
  import opened MarkdownWriter

  // ---------------------------------------------------------------------
  // The progress file, as the entry point reads and writes it

  /** What the entry point keeps in the progress file: tweet id to its
      category ids, and category id to the ids filed under it. */
  datatype Progress = Progress(processed: Dict<seq<string>>, categorized: Dict<seq<string>>)

  /** What `load_progress` reads: both maps from the file, `{}` for a
      missing file or a missing `categories` entry. */
  function ProgressOf(file: Option<ProgressDoc>): Progress {
    if file.None? then Progress(Empty(), Empty())
    else Progress(file.value.processed, file.value.categories.GetOr(Empty()))
  }

  /** What `save_progress` writes: both maps and the time of the save; no
      `rate` entry. */
  function ProgressSaved(p: Progress, now: Clock): ProgressDoc {
    ProgressDoc(p.processed, Some(p.categorized), now.Seconds(), None)
  }

  method LoadProgress(store: FileStore) returns (p: Progress)
    ensures p == ProgressOf(store.progress)
  {
    if store.progress.None? {
      return Progress(Empty(), Empty());
    }
    var file := store.progress.value;
    var categorized := if file.categories.Some? then file.categories.value else Empty();
    p := Progress(file.processed, categorized);
  }

  method SaveProgress(store: FileStore, p: Progress, now: Clock)
    modifies store`progress
    ensures store.progress == Some(ProgressSaved(p, now))
  {
    store.progress := Some(ProgressDoc(p.processed, Some(p.categorized), now.Seconds(), None));
  }

  /** The entry point and the storage layer share one progress file. What
      the entry point saves, it loads back; the storage layer reads the same
      `processed` map from it but no request made today. What the storage
      layer saves, the entry point reads with no category lists. */
  lemma SharedProgressFile(p: Progress, now: Clock, processed: Dict<seq<string>>, requests: int, today: string)
    ensures ProgressOf(Some(ProgressSaved(p, now))) == p
    ensures Storage.ProcessedOf(Some(ProgressSaved(p, now))) == p.processed
    ensures Storage.RequestsToday(Some(ProgressSaved(p, now)), today) == 0
    ensures ProgressOf(Some(Storage.ProgressWritten(processed, requests, now))) == Progress(processed, Empty())
  {
  }

  // ---------------------------------------------------------------------
  // The tweets still to classify

  /** A tweet still to classify: its position in the corpus, its id and
      the tweet itself. */
  datatype Pending = Pending(position: nat, id: string, tweet: Tweet)

  /** The tweets of `tweets` whose id (`ids` lists them position by
      position) is not a key of `processed`, in corpus order. */
  function Unprocessed(tweets: seq<Tweet>, ids: seq<string>, processed: Dict<seq<string>>): seq<Pending>
    requires |ids| == |tweets|
    decreases |tweets|
  {
    if |tweets| == 0 then []
    else
      var n := |tweets| - 1;
      var front := Unprocessed(tweets[..n], ids[..n], processed);
      if ids[n] in processed.items then front else front + [Pending(n, ids[n], tweets[n])]
  }

  /** The tweets still to classify. */
  function PendingOf(tweets: seq<Tweet>, processed: Dict<seq<string>>): seq<Pending> {
    Unprocessed(tweets, Storage.TweetIds(tweets), processed)
  }

  /** `p` is the tweet at its position in `tweets`, under the id `ids`
      gives that position, and that id is not processed yet. */
  predicate PendingAt(tweets: seq<Tweet>, ids: seq<string>, processed: Dict<seq<string>>, p: Pending)
    requires |ids| == |tweets|
  {
    && p.position < |tweets|
    && p.tweet == tweets[p.position]
    && p.id == ids[p.position]
    && p.id !in processed.items
  }

  lemma {:induction false} UnprocessedSound(tweets: seq<Tweet>, ids: seq<string>, processed: Dict<seq<string>>)
    requires |ids| == |tweets|
    ensures forall p :: p in Unprocessed(tweets, ids, processed) ==> PendingAt(tweets, ids, processed, p)
    decreases |tweets|
  {
    if |tweets| > 0 {
      var n := |tweets| - 1;
      UnprocessedSound(tweets[..n], ids[..n], processed);
      forall p | p in Unprocessed(tweets[..n], ids[..n], processed) ensures PendingAt(tweets, ids, processed, p) {
        assert PendingAt(tweets[..n], ids[..n], processed, p);
        assert tweets[..n][p.position] == tweets[p.position] && ids[..n][p.position] == ids[p.position];
      }
    }
  }

  /** Positions increase along the list. */
  predicate Ascending(rem: seq<Pending>) {
    forall j, k :: 0 <= j < k < |rem| ==> rem[j].position < rem[k].position
  }

  lemma {:induction false} UnprocessedOrdered(tweets: seq<Tweet>, ids: seq<string>, processed: Dict<seq<string>>)
    requires |ids| == |tweets|
    ensures Ascending(Unprocessed(tweets, ids, processed))
    decreases |tweets|
  {
    if |tweets| > 0 {
      var n := |tweets| - 1;
      UnprocessedOrdered(tweets[..n], ids[..n], processed);
      UnprocessedSound(tweets[..n], ids[..n], processed);
      forall p | p in Unprocessed(tweets[..n], ids[..n], processed) ensures p.position < n {
        assert PendingAt(tweets[..n], ids[..n], processed, p);
      }
    }
  }

  lemma {:induction false} UnprocessedComplete(tweets: seq<Tweet>, ids: seq<string>, processed: Dict<seq<string>>, i: nat)
    requires |ids| == |tweets|
    requires i < |tweets| && ids[i] !in processed.items
    ensures exists p :: p in Unprocessed(tweets, ids, processed) && p.position == i
    decreases |tweets|
  {
    var n := |tweets| - 1;
    if i < n {
      assert ids[..n][i] == ids[i];
      UnprocessedComplete(tweets[..n], ids[..n], processed, i);
    } else {
      assert Pending(n, ids[n], tweets[n]) in Unprocessed(tweets, ids, processed);
    }
  }

  /** The tweets still to classify are exactly the tweets whose id is not
      processed yet, each under its id, in corpus order. */
  lemma PendingExactly(tweets: seq<Tweet>, processed: Dict<seq<string>>)
    ensures var rem := PendingOf(tweets, processed);
      && (forall p :: p in rem ==>
            && p.position < |tweets|
            && p.tweet == tweets[p.position]
            && p.id == Storage.GetTweetId(p.tweet, p.position)
            && p.id !in processed.items)
      && Ascending(rem)
      && (forall i :: 0 <= i < |tweets| && Storage.GetTweetId(tweets[i], i) !in processed.items ==>
            exists p :: p in rem && p.position == i)
  {
    var ids := Storage.TweetIds(tweets);
    UnprocessedSound(tweets, ids, processed);
    UnprocessedOrdered(tweets, ids, processed);
    forall i | 0 <= i < |tweets| && Storage.GetTweetId(tweets[i], i) !in processed.items
      ensures exists p :: p in PendingOf(tweets, processed) && p.position == i
    {
      UnprocessedComplete(tweets, ids, processed, i);
    }
  }

  /** The first loop of `process_tweets`. */
  method FindRemaining(tweets: seq<Tweet>, processed: Dict<seq<string>>) returns (remaining: seq<Pending>)
    ensures remaining == PendingOf(tweets, processed)
  {
    ghost var ids := Storage.TweetIds(tweets);
    remaining := [];
    var i := 0;
    while i < |tweets|
      invariant 0 <= i <= |tweets|
      invariant remaining == Unprocessed(tweets[..i], ids[..i], processed)
    {
      var tweetId := Storage.GetTweetId(tweets[i], i);
      assert tweets[..i + 1][..i] == tweets[..i] && ids[..i + 1][..i] == ids[..i];
      assert tweetId == ids[i];
      if tweetId !in processed.items {
        remaining := remaining + [Pending(i, tweetId, tweets[i])];
      }
      i := i + 1;
    }
    TakeAll(tweets);
    TakeAll(ids);
  }

  /** `remaining[:limit]` when `limit` is truthy: a prefix of at most
      `limit` entries for a positive limit, all but the last `-limit`
      entries for a negative one, and the whole list for `None` or 0. */
  function Cut(remaining: seq<Pending>, limit: Option<int>): (r: seq<Pending>)
    ensures |r| <= |remaining| && r == remaining[..|r|]
    ensures limit.None? || limit.value == 0 ==> r == remaining
    ensures limit.Some? && limit.value > 0 ==>
      |r| == if limit.value < |remaining| then limit.value else |remaining|
    ensures limit.Some? && limit.value < 0 ==>
      |r| == if |remaining| + limit.value > 0 then |remaining| + limit.value else 0
  {
    if limit.None? || limit.value == 0 then remaining
    else if limit.value > 0 then
      if limit.value < |remaining| then remaining[..limit.value] else remaining
    else if |remaining| + limit.value > 0 then remaining[..|remaining| + limit.value]
    else []
  }

  // ---------------------------------------------------------------------
  // Filing the classifier's answers

  /** `if t not in categorized[c]: categorized[c].append(t)` on a
      `defaultdict(list)`: a category seen for the first time gets a list
      holding just `t`. */
  function FileUnder(categorized: Dict<seq<string>>, c: string, t: string): Dict<seq<string>> {
    var list := Get(categorized, c, []);
    if t in list then categorized else Set(categorized, c, list + [t])
  }

  /** `t` filed under each of `cats`, in order. */
  function FileUnderAll(categorized: Dict<seq<string>>, cats: seq<string>, t: string): Dict<seq<string>>
    decreases |cats|
  {
    if |cats| == 0 then categorized
    else FileUnder(FileUnderAll(categorized, cats[..|cats| - 1], t), cats[|cats| - 1], t)
  }

  /** One pass of the classification loop: the tweet `id` got `cats`. */
  function Merge(p: Progress, id: string, cats: seq<string>): Progress {
    Progress(Set(p.processed, id, cats), FileUnderAll(p.categorized, cats, id))
  }

  /** The whole classification loop: the `j`-th pending id got `results[j]`. */
  function MergeAll(p: Progress, ids: seq<string>, results: seq<seq<string>>): Progress
    requires |ids| == |results|
    decreases |ids|
  {
    if |ids| == 0 then p
    else
      var n := |ids| - 1;
      Merge(MergeAll(p, ids[..n], results[..n]), ids[n], results[n])
  }

  /** The ids of the pending tweets, in order. */
  function Ids(remaining: seq<Pending>): (ids: seq<string>)
    ensures |ids| == |remaining|
    ensures forall j :: 0 <= j < |remaining| ==> ids[j] == remaining[j].id
  {
    seq(|remaining|, j requires 0 <= j < |remaining| => remaining[j].id)
  }

  /** What the classifier answers for each pending tweet: the `j`-th call
      gets the tweet's `full_text` (default "") and `screen_name` (default
      "unknown"). */
  function Results(remaining: seq<Pending>, classify: (nat, string, string) -> seq<string>): (results: seq<seq<string>>)
    ensures |results| == |remaining|
    ensures forall j :: 0 <= j < |remaining| ==>
      results[j] == classify(j, FullText(remaining[j].tweet), Author(remaining[j].tweet))
  {
    seq(|remaining|, j requires 0 <= j < |remaining| =>
      classify(j, FullText(remaining[j].tweet), Author(remaining[j].tweet)))
  }

  /** Every old list is a prefix of the list under the same category in
      `after`. */
  ghost predicate Extends(before: Dict<seq<string>>, after: Dict<seq<string>>) {
    forall c :: c in before.items ==>
      c in after.items && |before.items[c]| <= |after.items[c]| &&
      after.items[c][..|before.items[c]|] == before.items[c]
  }

  /** No list holds an id twice. */
  ghost predicate NoRepeats(categorized: Dict<seq<string>>) {
    forall c :: c in categorized.items ==> Distinct(categorized.items[c])
  }

  /** Filing keeps every old list as a prefix and lists `t` under `c`. */
  lemma FileUnderGrows(d: Dict<seq<string>>, c: string, t: string)
    ensures var r := FileUnder(d, c, t);
      Extends(d, r) && c in r.items && t in r.items[c]
  {
    var list := Get(d, c, []);
    if t !in list {
      assert Set(d, c, list + [t]).items[c][..|list|] == list;
    }
  }

  /** Filing adds at most the key `c` and at most the id `t` under it. */
  lemma FileUnderOnly(d: Dict<seq<string>>, c: string, t: string)
    ensures var r := FileUnder(d, c, t);
      && (forall k :: k in r.items <==> k in d.items || k == c)
      && (forall k :: k in d.items && k != c ==> r.items[k] == d.items[k])
      && (forall x :: x in r.items[c] ==> x == t || (c in d.items && x in d.items[c]))
  {
  }

  /** Filing does not repeat an id in a list. */
  lemma FileUnderNoRepeats(d: Dict<seq<string>>, c: string, t: string)
    requires NoRepeats(d)
    ensures NoRepeats(FileUnder(d, c, t))
  {
  }

  /** An id listed in a prefix is listed in the whole list. */
  lemma ExtendsMembers(before: Dict<seq<string>>, after: Dict<seq<string>>, k: string, x: string)
    requires Extends(before, after) && k in before.items && x in before.items[k]
    ensures x in after.items[k]
  {
    var i :| 0 <= i < |before.items[k]| && before.items[k][i] == x;
    assert after.items[k][i] == x;
  }

  lemma ExtendsTrans(a: Dict<seq<string>>, b: Dict<seq<string>>, c: Dict<seq<string>>)
    requires Extends(a, b) && Extends(b, c)
    ensures Extends(a, c)
  {
    forall k | k in a.items
      ensures c.items[k][..|a.items[k]|] == a.items[k]
    {
      assert c.items[k][..|b.items[k]|][..|a.items[k]|] == c.items[k][..|a.items[k]|];
    }
  }

  /** Filing under several categories keeps every old list as a prefix
      and lists `t` under each of them. */
  lemma {:induction false} FileUnderAllGrows(d: Dict<seq<string>>, cats: seq<string>, t: string)
    ensures var r := FileUnderAll(d, cats, t);
      && Extends(d, r)
      && (forall c :: c in cats ==> c in r.items && t in r.items[c])
    decreases |cats|
  {
    if |cats| > 0 {
      var n := |cats| - 1;
      FileUnderAllGrows(d, cats[..n], t);
      FileUnderAllGrowsStep(d, FileUnderAll(d, cats[..n], t), cats, t);
    }
  }

  /** Filing under the last category after the others keeps the old lists
      as prefixes and lists `t` under all of them. */
  lemma FileUnderAllGrowsStep(d: Dict<seq<string>>, mid: Dict<seq<string>>, cats: seq<string>, t: string)
    requires |cats| > 0
    requires Extends(d, mid)
    requires forall c :: c in cats[..|cats| - 1] ==> c in mid.items && t in mid.items[c]
    ensures var r := FileUnder(mid, cats[|cats| - 1], t);
      && Extends(d, r)
      && (forall c :: c in cats ==> c in r.items && t in r.items[c])
  {
    var n := |cats| - 1;
    var r := FileUnder(mid, cats[n], t);
    FileUnderGrows(mid, cats[n], t);
    ExtendsTrans(d, mid, r);
    assert forall c :: c in cats ==> c in cats[..n] || c == cats[n] by {
      FrontAndLast(cats);
    }
    forall c | c in cats[..n] ensures t in r.items[c] {
      ExtendsMembers(mid, r, c, t);
    }
  }

  /** Filing under several categories adds only those keys, and under
      them only `t`. */
  lemma {:induction false} FileUnderAllOnly(d: Dict<seq<string>>, cats: seq<string>, t: string)
    ensures var r := FileUnderAll(d, cats, t);
      && (forall k :: k in r.items <==> k in d.items || k in cats)
      && (forall k :: k in d.items && k !in cats ==> r.items[k] == d.items[k])
      && (forall k, x :: k in r.items && x in r.items[k] ==> (k in d.items && x in d.items[k]) || x == t)
    decreases |cats|
  {
    if |cats| > 0 {
      var n := |cats| - 1;
      FileUnderAllOnly(d, cats[..n], t);
      var mid := FileUnderAll(d, cats[..n], t);
      assert FileUnderAll(d, cats, t) == FileUnder(mid, cats[n], t);
      FileUnderOnly(mid, cats[n], t);
      assert forall c :: c in cats <==> c in cats[..n] || c == cats[n] by {
        FrontAndLast(cats);
      }
    }
  }

  lemma {:induction false} FileUnderAllNoRepeats(d: Dict<seq<string>>, cats: seq<string>, t: string)
    requires NoRepeats(d)
    ensures NoRepeats(FileUnderAll(d, cats, t))
    decreases |cats|
  {
    if |cats| > 0 {
      var n := |cats| - 1;
      FileUnderAllNoRepeats(d, cats[..n], t);
      FileUnderNoRepeats(FileUnderAll(d, cats[..n], t), cats[n], t);
    }
  }

  /** After the loop, each pending id maps in `processed` to the answer of
      its last occurrence, every other entry is as before. */
  lemma {:induction false} MergeProcessed(p: Progress, ids: seq<string>, results: seq<seq<string>>)
    requires |ids| == |results|
    ensures MergeAll(p, ids, results).processed == SetAll(p.processed, ids, results)
    decreases |ids|
  {
    if |ids| > 0 {
      var n := |ids| - 1;
      MergeProcessed(p, ids[..n], results[..n]);
    }
  }

  /** After the loop, each old category list is a prefix of the new one. */
  lemma {:induction false} MergeExtends(p: Progress, ids: seq<string>, results: seq<seq<string>>)
    requires |ids| == |results|
    ensures Extends(p.categorized, MergeAll(p, ids, results).categorized)
    decreases |ids|
  {
    if |ids| > 0 {
      var n := |ids| - 1;
      MergeExtends(p, ids[..n], results[..n]);
      var mid := MergeAll(p, ids[..n], results[..n]).categorized;
      var q := MergeAll(p, ids, results).categorized;
      assert q == FileUnderAll(mid, results[n], ids[n]);
      FileUnderAllGrows(mid, results[n], ids[n]);
      ExtendsTrans(p.categorized, mid, q);
    }
  }

  /** After the loop, each pending id is listed under every category it
      was given. */
  lemma {:induction false} MergeFiled(p: Progress, ids: seq<string>, results: seq<seq<string>>, j: nat, c: string)
    requires |ids| == |results|
    requires j < |ids| && c in results[j]
    ensures c in MergeAll(p, ids, results).categorized.items
    ensures ids[j] in MergeAll(p, ids, results).categorized.items[c]
    decreases |ids|
  {
    var n := |ids| - 1;
    var mid := MergeAll(p, ids[..n], results[..n]).categorized;
    if j < n {
      assert ids[..n][j] == ids[j] && results[..n][j] == results[j];
      MergeFiled(p, ids[..n], results[..n], j, c);
    }
    FiledStays(mid, results[n], ids[n], c, ids[j]);
  }

  /** An id listed under `c` stays listed after another filing, and the
      filed id is listed under each of its categories. */
  lemma FiledStays(mid: Dict<seq<string>>, cats: seq<string>, t: string, c: string, x: string)
    requires (c in mid.items && x in mid.items[c]) || (c in cats && x == t)
    ensures var q := FileUnderAll(mid, cats, t);
      c in q.items && x in q.items[c]
  {
    FileUnderAllGrows(mid, cats, t);
    if c in mid.items && x in mid.items[c] {
      ExtendsMembers(mid, FileUnderAll(mid, cats, t), c, x);
    }
  }

  /** After the loop, a category has a list only if it had one before or
      some pending tweet was given it. */
  lemma {:induction false} MergeKeys(p: Progress, ids: seq<string>, results: seq<seq<string>>)
    requires |ids| == |results|
    ensures var q := MergeAll(p, ids, results).categorized;
      forall k :: k in q.items ==> k in p.categorized.items || exists j :: 0 <= j < |ids| && k in results[j]
    decreases |ids|
  {
    if |ids| > 0 {
      var n := |ids| - 1;
      MergeKeys(p, ids[..n], results[..n]);
      var mid := MergeAll(p, ids[..n], results[..n]).categorized;
      assert MergeAll(p, ids, results).categorized == FileUnderAll(mid, results[n], ids[n]);
      FileUnderAllOnly(mid, results[n], ids[n]);
      forall k | k in MergeAll(p, ids, results).categorized.items && k !in p.categorized.items
        ensures exists j :: 0 <= j < |ids| && k in results[j]
      {
        if k in mid.items {
          var j :| 0 <= j < n && k in results[..n][j];
          assert k in results[j];
        } else {
          assert k in results[n];
        }
      }
    }
  }

  /** After the loop, an id is listed under a category only if it was
      before or it is the id of a pending tweet. */
  lemma {:induction false} MergeOnlyPending(p: Progress, ids: seq<string>, results: seq<seq<string>>)
    requires |ids| == |results|
    ensures var q := MergeAll(p, ids, results).categorized;
      forall k, x :: k in q.items && x in q.items[k] ==>
        (k in p.categorized.items && x in p.categorized.items[k]) || x in ids
    decreases |ids|
  {
    if |ids| > 0 {
      var n := |ids| - 1;
      MergeOnlyPending(p, ids[..n], results[..n]);
      var mid := MergeAll(p, ids[..n], results[..n]).categorized;
      assert MergeAll(p, ids, results).categorized == FileUnderAll(mid, results[n], ids[n]);
      FileUnderAllOnly(mid, results[n], ids[n]);
      assert forall x :: x in ids[..n] ==> x in ids;
    }
  }

  /** Lists without repeats stay without repeats. */
  lemma {:induction false} MergeNoRepeats(p: Progress, ids: seq<string>, results: seq<seq<string>>)
    requires |ids| == |results|
    requires NoRepeats(p.categorized)
    ensures NoRepeats(MergeAll(p, ids, results).categorized)
    decreases |ids|
  {
    if |ids| > 0 {
      var n := |ids| - 1;
      MergeNoRepeats(p, ids[..n], results[..n]);
      var mid := MergeAll(p, ids[..n], results[..n]).categorized;
      assert MergeAll(p, ids, results).categorized == FileUnderAll(mid, results[n], ids[n]);
      FileUnderAllNoRepeats(mid, results[n], ids[n]);
    }
  }

  /** One more pass of the loop after a prefix. */
  lemma MergeSnoc(p: Progress, ids: seq<string>, results: seq<seq<string>>, i: nat)
    requires |ids| == |results| && i < |ids|
    ensures MergeAll(p, ids[..i + 1], results[..i + 1]) == Merge(MergeAll(p, ids[..i], results[..i]), ids[i], results[i])
  {
    assert ids[..i + 1][..i] == ids[..i] && results[..i + 1][..i] == results[..i];
  }

  /** Filing under one more category after a prefix. */
  lemma FileUnderAllSnoc(d: Dict<seq<string>>, cats: seq<string>, t: string, j: nat)
    requires j < |cats|
    ensures FileUnderAll(d, cats[..j + 1], t) == FileUnder(FileUnderAll(d, cats[..j], t), cats[j], t)
  {
    assert cats[..j + 1][..j] == cats[..j];
  }

  /** The body of the inner loop: `t` appended to `categorized[c]` unless
      that list holds it already. */
  method AppendIfAbsent(categorized: Dict<seq<string>>, c: string, t: string) returns (r: Dict<seq<string>>)
    ensures r == FileUnder(categorized, c, t)
  {
    var list := if c in categorized.items then categorized.items[c] else [];
    r := categorized;
    if t !in list {
      r := Set(categorized, c, list + [t]);
    }
  }

  /** The inner loop of `process_tweets`: `t` appended to the list of each
      of `cats` that does not hold it yet. */
  method FileUnderEach(categorized: Dict<seq<string>>, cats: seq<string>, t: string)
    returns (r: Dict<seq<string>>)
    ensures r == FileUnderAll(categorized, cats, t)
  {
    r := categorized;
    var j := 0;
    while j < |cats|
      invariant 0 <= j <= |cats|
      invariant r == FileUnderAll(categorized, cats[..j], t)
    {
      FileUnderAllSnoc(categorized, cats, t, j);
      r := AppendIfAbsent(r, cats[j], t);
      j := j + 1;
    }
    TakeAll(cats);
  }

  /** The classification loop of `process_tweets`: classifies each pending
      tweet, files it, records its answer, and pauses between two calls. */
  method ClassifyRemaining(start: Progress, remaining: seq<Pending>, classify: (nat, string, string) -> seq<string>)
    returns (p: Progress, pauses: nat)
    ensures p == MergeAll(start, Ids(remaining), Results(remaining, classify))
    ensures pauses == if |remaining| == 0 then 0 else |remaining| - 1
  {
    var processed := start.processed;
    var categorized := start.categorized;
    ghost var ids := Ids(remaining);
    ghost var results := Results(remaining, classify);
    pauses := 0;
    var idx := 0;
    while idx < |remaining|
      invariant 0 <= idx <= |remaining|
      invariant Progress(processed, categorized) == MergeAll(start, ids[..idx], results[..idx])
      invariant pauses == if idx == |remaining| && idx > 0 then idx - 1 else idx
    {
      var tweetId := remaining[idx].id;
      var tweet := remaining[idx].tweet;
      var categories := classify(idx, FullText(tweet), Author(tweet));
      ghost var beforeProgress := Progress(processed, categorized);
      categorized := FileUnderEach(categorized, categories, tweetId);
      processed := Set(processed, tweetId, categories);
      if idx < |remaining| - 1 {
        pauses := pauses + 1;
      }
      assert tweetId == ids[idx] && categories == results[idx];
      MergeSnoc(start, ids, results, idx);
      assert Progress(processed, categorized) == Merge(beforeProgress, tweetId, categories);
      idx := idx + 1;
    }
    TakeAll(ids);
    TakeAll(results);
    p := Progress(processed, categorized);
  }

  // ---------------------------------------------------------------------
  // The whole run

  /** `process_tweets`. It returns the summary it prints (`None` when
      nothing was pending and no category has a list) and the number of
      pauses between classifier calls. */
  method ProcessTweets(store: FileStore, tweets: seq<Tweet>, limit: Option<int>, dryRun: bool,
                       classify: (nat, string, string) -> seq<string>, now: Clock)
    returns (summary: Option<string>, pauses: nat)
    modifies store`progress, store`outputs
    ensures var start := ProgressOf(old(store.progress));
      var remaining := Cut(PendingOf(tweets, start.processed), limit);
      var final := MergeAll(start, Ids(remaining), Results(remaining, classify));
      && (|remaining| == 0 ==>
            && summary == (if |start.categorized.keys| > 0 then Some(Join('\n', SummaryLines(start.categorized))) else None)
            && pauses == 0)
      && (|remaining| > 0 ==>
            && summary == Some(Join('\n', SummaryLines(final.categorized)))
            && pauses == |remaining| - 1)
      && (|remaining| == 0 || dryRun ==>
            store.progress == old(store.progress) && store.outputs == old(store.outputs))
      && (|remaining| > 0 && !dryRun ==>
            && store.progress == Some(ProgressSaved(final, now))
            && store.outputs == old(store.outputs) +
                 PathMap(final.categorized.keys,
                         DescribedPages(final.categorized, store.categories, TweetIndex(store.input),
                                        now.Minutes(), final.categorized.keys)))
  {
    var progress := LoadProgress(store);
    var remaining := FindRemaining(tweets, progress.processed);
    remaining := Cut(remaining, limit);
    if |remaining| == 0 {
      if |progress.categorized.keys| > 0 {
        var text := GetSummaryStats(progress.categorized);
        return Some(text), 0;
      }
      return None, 0;
    }
    var final;
    final, pauses := ClassifyRemaining(progress, remaining, classify);
    var text := GetSummaryStats(final.categorized);
    summary := Some(text);
    if !dryRun {
      SaveAndWrite(store, final, now);
    }
  }

  /** The end of a run that is not a dry run: the progress is saved, then
      the page of every category is written, with the tweets looked up in
      the corpus file. */
  method SaveAndWrite(store: FileStore, final: Progress, now: Clock)
    modifies store`progress, store`outputs
    ensures store.progress == Some(ProgressSaved(final, now))
    ensures store.outputs == old(store.outputs) +
      PathMap(final.categorized.keys,
              DescribedPages(final.categorized, store.categories, TweetIndex(store.input),
                             now.Minutes(), final.categorized.keys))
  {
    SaveProgress(store, final, now);
    var index := LoadTweetIndex(store);
    WriteAllCategories(store, final.categorized, index, now);
  }

  /** With every id processed, nothing is pending. */
  lemma {:induction false} NothingUnprocessed(tweets: seq<Tweet>, ids: seq<string>, processed: Dict<seq<string>>)
    requires |ids| == |tweets|
    requires forall i :: 0 <= i < |ids| ==> ids[i] in processed.items
    ensures Unprocessed(tweets, ids, processed) == []
    decreases |tweets|
  {
    if |tweets| > 0 {
      var n := |tweets| - 1;
      NothingUnprocessed(tweets[..n], ids[..n], processed);
    }
  }

  /** The run resumes: after a run without a limit, every tweet's id is in
      `processed`, so the next run finds nothing to classify. */
  lemma SecondRunFindsNothing(tweets: seq<Tweet>, start: Progress, classify: (nat, string, string) -> seq<string>)
    ensures var remaining := PendingOf(tweets, start.processed);
      var final := MergeAll(start, Ids(remaining), Results(remaining, classify));
      PendingOf(tweets, final.processed) == []
  {
    var remaining := PendingOf(tweets, start.processed);
    var ids := Ids(remaining);
    var final := MergeAll(start, ids, Results(remaining, classify));
    MergeProcessed(start, ids, Results(remaining, classify));
    PendingExactly(tweets, start.processed);
    var all := Storage.TweetIds(tweets);
    forall i | 0 <= i < |all| ensures all[i] in final.processed.items {
      if all[i] !in start.processed.items {
        var p :| p in remaining && p.position == i;
        var j :| 0 <= j < |remaining| && remaining[j] == p;
        assert ids[j] == all[i];
      }
    }
    NothingUnprocessed(tweets, all, final.processed);
  }
}
