/** A bookmarked tweet as the corpus file holds it: a JSON object of which
    the core reads four entries, each of which may be missing. */
module Tweets {

  import opened Wrappers
  import opened Text

  /** The `metadata` object of a tweet; only `rest_id` is read. */
  datatype Metadata = Metadata(restId: Option<string>)

  datatype Tweet = Tweet(
    metadata: Option<Metadata>,
    url: Option<string>,
    fullText: Option<string>,
    screenName: Option<string>)

  /** `{}`: what `tweet_index.get(tweet_id, {})` yields for an unknown id. */
  const NoTweet := Tweet(None, None, None, None)

  /** `tweet.get("full_text", "")` */
  function FullText(t: Tweet): string { t.fullText.GetOr("") }

  /** `tweet.get("screen_name", "unknown")` */
  function Author(t: Tweet): string { t.screenName.GetOr("unknown") }

  /** `tweet.get("url", "")` */
  function Url(t: Tweet): string { t.url.GetOr("") }

  /** The dict `{ids[i]: tweets[i] for i in range(len(tweets))}`: its keys are
      exactly the ids, and where ids repeat, the later tweet is the value. */
  function IndexOf(ids: seq<string>, tweets: seq<Tweet>): (index: map<string, Tweet>)
    requires |ids| == |tweets|
    ensures forall k :: k in index <==> k in ids
    ensures forall j :: 0 <= j < |ids| && LastOccurrence(ids, j) ==> index[ids[j]] == tweets[j]
    decreases |ids|
  {
    if |ids| == 0 then map[]
    else
      var n := |ids| - 1;
      var front := IndexOf(ids[..n], tweets[..n]);
      IndexOfStep(ids, tweets, ids[..n], tweets[..n], front);
      front[ids[n] := tweets[n]]
  }

  lemma IndexOfStep(ids: seq<string>, tweets: seq<Tweet>,
                    frontIds: seq<string>, frontTweets: seq<Tweet>, front: map<string, Tweet>)
    requires |ids| == |tweets| > 0
    requires frontIds == ids[..|ids| - 1] && frontTweets == tweets[..|ids| - 1]
    requires forall k :: k in front <==> k in frontIds
    requires forall j :: 0 <= j < |frontIds| && LastOccurrence(frontIds, j) ==>
      front[frontIds[j]] == frontTweets[j]
    ensures var n := |ids| - 1; var index := front[ids[n] := tweets[n]];
      && (forall k :: k in index <==> k in ids)
      && (forall j :: 0 <= j < |ids| && LastOccurrence(ids, j) ==> index[ids[j]] == tweets[j])
  {
    var n := |ids| - 1;
    FrontAndLast(ids);
    forall j | 0 <= j < n && LastOccurrence(ids, j)
      ensures front[ids[j]] == tweets[j] && ids[j] != ids[n]
    {
      assert LastOccurrence(ids[..n], j);
      assert ids[..n][j] == ids[j] && tweets[..n][j] == tweets[j];
    }
  }
}
