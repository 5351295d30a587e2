/** The markdown page of one category, as a list of lines. Both writers
    build the same page: a 10-line header, then 7 lines per tweet id. */
module Report {

  import opened Wrappers
  import opened Text
  import opened Json
  import opened Tweets
  import opened Dicts
  import opened Config

  /** `category_id.replace("_", " ").title()` */
  function DisplayName(categoryId: string): string {
    TitleCase(ReplaceChar(categoryId, '_', ' '))
  }

  /** Number of characters of the text a preview keeps. */
  const PreviewLength: nat := 100

  /** The first 100 characters of the text with newlines turned into
      spaces, followed by `...` exactly when the text is longer. */
  function Preview(fullText: string): (r: string)
    ensures '\n' !in r
    ensures |fullText| <= PreviewLength ==> |r| == |fullText|
    ensures |fullText| > PreviewLength ==> |r| == PreviewLength + 3 && r[PreviewLength..] == "..."
    ensures forall i :: 0 <= i < |r| && i < |fullText| && i < PreviewLength ==>
      r[i] == if fullText[i] == '\n' then ' ' else fullText[i]
  {
    var kept := if |fullText| > PreviewLength then fullText[..PreviewLength] else fullText;
    var shown := ReplaceChar(kept, '\n', ' ');
    if |fullText| > PreviewLength then shown + "..." else shown
  }

  /** A short text without newlines is its own preview. */
  lemma ShortPreview(fullText: string)
    requires |fullText| <= PreviewLength && '\n' !in fullText
    ensures Preview(fullText) == fullText
  {
  }

  /** `tweet_index.get(tweet_id, {})` */
  function LookupTweet(index: map<string, Tweet>, tweetId: string): Tweet {
    if tweetId in index then index[tweetId] else NoTweet
  }

  /** The 10 lines before the entries. The description line is empty when
      the description is falsy. */
  function HeaderLines(name: string, description: Json, count: nat, stamp: string): seq<string> {
    [ "# " + name,
      "",
      if Truthy(description) then "*" + PyStr(description) + "*" else "",
      "",
      "**Total tweets:** " + DecimalString(count),
      "",
      "*Last updated: " + stamp + "*",
      "",
      "---",
      "" ]
  }

  /** The 7 lines of the entry numbered `number`. */
  function EntryLines(number: nat, tweetId: string, tweet: Tweet): (lines: seq<string>)
    ensures |lines| == 7
  {
    [ "### " + DecimalString(number) + ". @" + Author(tweet),
      "> " + Preview(FullText(tweet)),
      "",
      "**ID:** `" + tweetId + "` | [View Tweet](" + Url(tweet) + ")",
      "",
      "---",
      "" ]
  }

  /** The entry of each id, numbered from 1 in list order. */
  function EntryBlocks(tweetIds: seq<string>, index: map<string, Tweet>): (blocks: seq<seq<string>>)
    ensures |blocks| == |tweetIds|
    ensures forall k :: 0 <= k < |tweetIds| ==>
      blocks[k] == EntryLines(k + 1, tweetIds[k], LookupTweet(index, tweetIds[k]))
  {
    seq(|tweetIds|, k requires 0 <= k < |tweetIds| => EntryLines(k + 1, tweetIds[k], LookupTweet(index, tweetIds[k])))
  }

  /** The blocks one after the other. */
  function Flatten<T>(blocks: seq<seq<T>>): seq<T>
    decreases |blocks|
  {
    if |blocks| == 0 then [] else Flatten(blocks[..|blocks| - 1]) + blocks[|blocks| - 1]
  }

  /** Blocks of 7 lie at the multiples of 7. */
  lemma {:induction false} FlattenSevens<T>(blocks: seq<seq<T>>)
    requires forall k :: 0 <= k < |blocks| ==> |blocks[k]| == 7
    ensures |Flatten(blocks)| == 7 * |blocks|
    ensures forall k :: 0 <= k < |blocks| ==> Flatten(blocks)[7 * k .. 7 * k + 7] == blocks[k]
    decreases |blocks|
  {
    if |blocks| > 0 {
      var n := |blocks| - 1;
      var front := blocks[..n];
      FlattenSevens(front);
      var a := Flatten(front);
      var b := blocks[n];
      forall k | 0 <= k < |blocks|
        ensures (a + b)[7 * k .. 7 * k + 7] == blocks[k]
      {
        if k < n {
          assert front[k] == blocks[k];
          SliceOfFront(a, b, 7 * k, 7 * k + 7);
        } else {
          SliceOfBack(a, b);
        }
      }
    }
  }

  lemma SliceOfFront<T>(a: seq<T>, b: seq<T>, i: nat, j: nat)
    requires i <= j <= |a|
    ensures (a + b)[i..j] == a[i..j]
  {
  }

  lemma SliceOfBack<T>(a: seq<T>, b: seq<T>)
    ensures (a + b)[|a|..|a| + |b|] == b
  {
  }

  /** The page of a category. */
  function PageLines(categoryId: string, description: Json, tweetIds: seq<string>,
                     index: map<string, Tweet>, stamp: string): seq<string>
  {
    HeaderLines(DisplayName(categoryId), description, |tweetIds|, stamp) + Flatten(EntryBlocks(tweetIds, index))
  }

  /** The content of the file: the lines joined by newlines. */
  function PageText(categoryId: string, description: Json, tweetIds: seq<string>,
                    index: map<string, Tweet>, stamp: string): string
  {
    Join('\n', PageLines(categoryId, description, tweetIds, index, stamp))
  }

  /** The entries of a list one id longer end with the entry of that id. */
  lemma EntryBlocksSnoc(tweetIds: seq<string>, index: map<string, Tweet>, i: nat)
    requires i < |tweetIds|
    ensures Flatten(EntryBlocks(tweetIds[..i + 1], index)) ==
      Flatten(EntryBlocks(tweetIds[..i], index)) + EntryLines(i + 1, tweetIds[i], LookupTweet(index, tweetIds[i]))
  {
    var longer := EntryBlocks(tweetIds[..i + 1], index);
    assert longer[..i] == EntryBlocks(tweetIds[..i], index);
  }

  /** Builds the page the way both writers do: the header, then the seven
      lines of each id in turn, joined by newlines. */
  method RenderPage(categoryId: string, description: Json, tweetIds: seq<string>,
                    index: map<string, Tweet>, stamp: string) returns (text: string)
    ensures text == PageText(categoryId, description, tweetIds, index, stamp)
  {
    var header := HeaderLines(DisplayName(categoryId), description, |tweetIds|, stamp);
    var lines := header;
    var i := 0;
    while i < |tweetIds|
      invariant 0 <= i <= |tweetIds|
      invariant lines == header + Flatten(EntryBlocks(tweetIds[..i], index))
    {
      var entry := EntryLines(i + 1, tweetIds[i], LookupTweet(index, tweetIds[i]));
      EntryBlocksSnoc(tweetIds, index, i);
      AppendAssoc(header, Flatten(EntryBlocks(tweetIds[..i], index)), entry);
      lines := lines + entry;
      i := i + 1;
    }
    TakeAll(tweetIds);
    text := Join('\n', lines);
  }

  /** The page has 10 header lines and exactly 7 lines per tweet id; the
      entry of the `k`-th id (from 0) is numbered `k + 1`. */
  lemma PageShape(categoryId: string, description: Json, tweetIds: seq<string>,
                  index: map<string, Tweet>, stamp: string)
    ensures var lines := PageLines(categoryId, description, tweetIds, index, stamp);
      && |lines| == 10 + 7 * |tweetIds|
      && (forall k :: 0 <= k < |tweetIds| ==>
            lines[10 + 7 * k .. 17 + 7 * k] == EntryLines(k + 1, tweetIds[k], LookupTweet(index, tweetIds[k])))
  {
    var entries := Flatten(EntryBlocks(tweetIds, index));
    FlattenSevens(EntryBlocks(tweetIds, index));
    var lines := PageLines(categoryId, description, tweetIds, index, stamp);
    forall k | 0 <= k < |tweetIds|
      ensures lines[10 + 7 * k .. 17 + 7 * k] == EntryLines(k + 1, tweetIds[k], LookupTweet(index, tweetIds[k]))
    {
      assert lines[10 + 7 * k .. 17 + 7 * k] == entries[7 * k .. 7 * k + 7];
    }
  }

  /** The header names the category, counts the ids, and leaves the
      description line empty exactly when the description is falsy. */
  lemma PageHeader(categoryId: string, description: Json, tweetIds: seq<string>,
                   index: map<string, Tweet>, stamp: string)
    ensures var lines := PageLines(categoryId, description, tweetIds, index, stamp);
      && |lines| >= 10
      && lines[0] == "# " + DisplayName(categoryId)
      && lines[4] == "**Total tweets:** " + DecimalString(|tweetIds|)
      && (lines[2] == "" <==> !Truthy(description))
  {
  }

  /** An id the index does not know is shown with author `unknown`, no text
      and no link. */
  lemma UnknownIdEntry(number: nat, tweetId: string, index: map<string, Tweet>)
    requires tweetId !in index
    ensures EntryLines(number, tweetId, LookupTweet(index, tweetId)) ==
      [ "### " + DecimalString(number) + ". @unknown", "> ", "",
        "**ID:** `" + tweetId + "` | [View Tweet]()", "", "---", "" ]
  {
    var t := LookupTweet(index, tweetId);
    assert Author(t) == "unknown" && Url(t) == "" && FullText(t) == "";
    assert Preview("") == "";
    assert "> " + "" == "> ";
    assert "` | [View Tweet](" + "" + ")" == "` | [View Tweet]()";
    assert "**ID:** `" + tweetId + "` | [View Tweet](" + Url(t) + ")" == "**ID:** `" + tweetId + "` | [View Tweet]()";
    assert "### " + DecimalString(number) + ". @" + Author(t) == "### " + DecimalString(number) + ". @unknown";
  }

  lemma {:induction false} FlattenNoNewline(blocks: seq<seq<string>>)
    requires forall k, j :: 0 <= k < |blocks| && 0 <= j < |blocks[k]| ==> '\n' !in blocks[k][j]
    ensures forall i :: 0 <= i < |Flatten(blocks)| ==> '\n' !in Flatten(blocks)[i]
    decreases |blocks|
  {
    if |blocks| > 0 {
      var n := |blocks| - 1;
      FlattenNoNewline(blocks[..n]);
      assert forall k :: 0 <= k < n ==> blocks[..n][k] == blocks[k];
    }
  }

  lemma DecimalNoNewline(n: nat)
    ensures '\n' !in DecimalString(n)
  {
    var d := DecimalString(n);
    assert forall i :: 0 <= i < |d| ==> '0' <= d[i] <= '9';
  }

  lemma DisplayNameNoNewline(categoryId: string)
    requires '\n' !in categoryId
    ensures '\n' !in DisplayName(categoryId)
  {
    var r := DisplayName(categoryId);
    var u := ReplaceChar(categoryId, '_', ' ');
    forall i | 0 <= i < |r| ensures r[i] != '\n' {
      assert u[i] != '\n';
    }
  }

  /** No line holds a newline. */
  predicate SingleLines(lines: seq<string>) {
    forall i :: 0 <= i < |lines| ==> '\n' !in lines[i]
  }

  lemma HeaderSingleLines(categoryId: string, description: Json, count: nat, stamp: string)
    requires '\n' !in categoryId && '\n' !in stamp && '\n' !in PyStr(description)
    ensures SingleLines(HeaderLines(DisplayName(categoryId), description, count, stamp))
  {
    DisplayNameNoNewline(categoryId);
    DecimalNoNewline(count);
    JoinNoNewline("# ", DisplayName(categoryId));
    JoinNoNewline("*", PyStr(description));
    JoinNoNewline("*" + PyStr(description), "*");
    JoinNoNewline("**Total tweets:** ", DecimalString(count));
    JoinNoNewline("*Last updated: ", stamp);
    JoinNoNewline("*Last updated: " + stamp, "*");
  }

  lemma EntrySingleLines(number: nat, tweetId: string, tweet: Tweet)
    requires '\n' !in tweetId && '\n' !in Author(tweet) && '\n' !in Url(tweet)
    ensures SingleLines(EntryLines(number, tweetId, tweet))
  {
    DecimalNoNewline(number);
    JoinNoNewline("### ", DecimalString(number));
    JoinNoNewline("### " + DecimalString(number), ". @");
    JoinNoNewline("### " + DecimalString(number) + ". @", Author(tweet));
    JoinNoNewline("> ", Preview(FullText(tweet)));
    JoinNoNewline("**ID:** `", tweetId);
    JoinNoNewline("**ID:** `" + tweetId, "` | [View Tweet](");
    JoinNoNewline("**ID:** `" + tweetId + "` | [View Tweet](", Url(tweet));
    JoinNoNewline("**ID:** `" + tweetId + "` | [View Tweet](" + Url(tweet), ")");
  }

  lemma JoinNoNewline(a: string, b: string)
    requires '\n' !in a && '\n' !in b
    ensures '\n' !in a + b
  {
  }

  lemma AppendSingleLines(a: seq<string>, b: seq<string>)
    requires SingleLines(a) && SingleLines(b)
    ensures SingleLines(a + b)
  {
    forall i | 0 <= i < |a + b| ensures '\n' !in (a + b)[i] {
      if i >= |a| {
        assert (a + b)[i] == b[i - |a|];
      }
    }
  }

  /** No entry line holds a newline when no id, author or url does. */
  lemma BlocksSingleLines(tweetIds: seq<string>, index: map<string, Tweet>)
    requires forall k :: 0 <= k < |tweetIds| ==>
      && '\n' !in tweetIds[k]
      && '\n' !in Author(LookupTweet(index, tweetIds[k]))
      && '\n' !in Url(LookupTweet(index, tweetIds[k]))
    ensures var blocks := EntryBlocks(tweetIds, index);
      forall k, j :: 0 <= k < |blocks| && 0 <= j < |blocks[k]| ==> '\n' !in blocks[k][j]
  {
    var blocks := EntryBlocks(tweetIds, index);
    forall k, j | 0 <= k < |blocks| && 0 <= j < |blocks[k]| ensures '\n' !in blocks[k][j] {
      EntrySingleLines(k + 1, tweetIds[k], LookupTweet(index, tweetIds[k]));
    }
  }

  /** When neither the category id, the description, the time stamp, nor
      any id, author or url holds a newline, the written file splits back
      into exactly the lines of the page: 10 + 7n of them. */
  lemma PageTextLines(categoryId: string, description: Json, tweetIds: seq<string>,
                      index: map<string, Tweet>, stamp: string)
    requires '\n' !in categoryId && '\n' !in stamp && '\n' !in PyStr(description)
    requires forall k :: 0 <= k < |tweetIds| ==>
      && '\n' !in tweetIds[k]
      && '\n' !in Author(LookupTweet(index, tweetIds[k]))
      && '\n' !in Url(LookupTweet(index, tweetIds[k]))
    ensures Split(PageText(categoryId, description, tweetIds, index, stamp), '\n') ==
      PageLines(categoryId, description, tweetIds, index, stamp)
  {
    var blocks := EntryBlocks(tweetIds, index);
    BlocksSingleLines(tweetIds, index);
    FlattenNoNewline(blocks);
    HeaderSingleLines(categoryId, description, |tweetIds|, stamp);
    AppendSingleLines(HeaderLines(DisplayName(categoryId), description, |tweetIds|, stamp), Flatten(blocks));
    SplitJoin(PageLines(categoryId, description, tweetIds, index, stamp), '\n');
  }

  // ---------------------------------------------------------------------
  // Where the pages go

  /** `os.path.join(OUTPUT_DIR, f"{category_id}.md")`: a name that starts
      with `/` replaces the directory. */
  function CategoryPath(categoryId: string): string {
    var name := categoryId + ".md";
    if StartsWith(categoryId, "/") then name else OutputDir + "/" + name
  }

  /** The file of a category is named after it and lies in the output
      directory unless the id is an absolute path. */
  lemma CategoryPathShape(categoryId: string)
    ensures EndsWith(CategoryPath(categoryId), categoryId + ".md")
    ensures StartsWith(CategoryPath(categoryId), OutputDir + "/") <==> !StartsWith(categoryId, "/")
  {
    if StartsWith(categoryId, "/") {
      assert CategoryPath(categoryId)[0] == '/';
    }
  }

  /** Two categories never share a path string. */
  lemma CategoryPathInjective(a: string, b: string)
    requires CategoryPath(a) == CategoryPath(b)
    ensures a == b
  {
    CategoryPathShape(a);
    CategoryPathShape(b);
    var p := CategoryPath(a);
    var tail := if StartsWith(a, "/") then 0 else |OutputDir + "/"|;
    assert p[tail..|p| - 3] == a;
    assert p[tail..|p| - 3] == b;
  }

  /** The files written for the categories `ks`, the `j`-th holding
      `texts[j]`. */
  function PathMap(ks: seq<string>, texts: seq<string>): map<string, string>
    requires |ks| == |texts|
    decreases |ks|
  {
    if |ks| == 0 then map[]
    else
      var n := |ks| - 1;
      PathMap(ks[..n], texts[..n])[CategoryPath(ks[n]) := texts[n]]
  }

  /** Writing the text of the next category extends the written files by
      that category's entry. */
  lemma PathMapSnoc(base: map<string, string>, mid: map<string, string>, after: map<string, string>,
                    ks: seq<string>, texts: seq<string>, i: nat)
    requires i < |ks| == |texts|
    requires mid == base + PathMap(ks[..i], texts[..i])
    requires after == mid[CategoryPath(ks[i]) := texts[i]]
    ensures after == base + PathMap(ks[..i + 1], texts[..i + 1])
  {
    assert ks[..i + 1][..i] == ks[..i] && texts[..i + 1][..i] == texts[..i];
  }

  /** For distinct categories there is one path per category and no other,
      and each category's path holds its own text. */
  lemma {:induction false} PathMapContents(ks: seq<string>, texts: seq<string>)
    requires |ks| == |texts| && Distinct(ks)
    ensures forall p :: p in PathMap(ks, texts) <==> exists k :: k in ks && p == CategoryPath(k)
    ensures forall j :: 0 <= j < |ks| ==> PathMap(ks, texts)[CategoryPath(ks[j])] == texts[j]
    decreases |ks|
  {
    if |ks| > 0 {
      var n := |ks| - 1;
      PathMapContents(ks[..n], texts[..n]);
      PathMapStep(ks, texts, ks[..n], texts[..n], PathMap(ks[..n], texts[..n]));
    }
  }

  /** The inductive step of PathMapContents, for any map `m` that holds
      the texts of all but the last category. */
  lemma PathMapStep(ks: seq<string>, texts: seq<string>, front: seq<string>, frontTexts: seq<string>,
                    m: map<string, string>)
    requires |ks| == |texts| > 0 && Distinct(ks)
    requires front == ks[..|ks| - 1] && frontTexts == texts[..|ks| - 1]
    requires forall p :: p in m <==> exists k :: k in front && p == CategoryPath(k)
    requires forall j :: 0 <= j < |front| ==> m[CategoryPath(front[j])] == frontTexts[j]
    ensures var r := m[CategoryPath(ks[|ks| - 1]) := texts[|ks| - 1]];
      forall p :: p in r <==> exists k :: k in ks && p == CategoryPath(k)
    ensures var r := m[CategoryPath(ks[|ks| - 1]) := texts[|ks| - 1]];
      forall j :: 0 <= j < |ks| ==> r[CategoryPath(ks[j])] == texts[j]
  {
    var n := |ks| - 1;
    var r := m[CategoryPath(ks[n]) := texts[n]];
    forall j | 0 <= j < |ks| ensures r[CategoryPath(ks[j])] == texts[j] {
      if j < n {
        if CategoryPath(ks[j]) == CategoryPath(ks[n]) {
          CategoryPathInjective(ks[j], ks[n]);
        }
        assert front[j] == ks[j] && frontTexts[j] == texts[j];
      }
    }
    forall p | p in r ensures exists k :: k in ks && p == CategoryPath(k) {
      if p != CategoryPath(ks[n]) {
        var k :| k in front && p == CategoryPath(k);
        assert k in ks;
      }
    }
    forall k | k in ks ensures CategoryPath(k) in r {
      if k != ks[n] {
        assert k in front;
      }
    }
  }

  /** The page of each category of `ks`, each described by
      `categories.get(category_id, "")`. */
  function PageTexts(categorized: Dict<seq<string>>, categories: Dict<Json>, index: map<string, Tweet>,
                     stamp: string, ks: seq<string>): (texts: seq<string>)
    requires forall k :: k in ks ==> k in categorized.items
    ensures |texts| == |ks|
  {
    seq(|ks|, j requires 0 <= j < |ks| =>
      PageText(ks[j], Get(categories, ks[j], Str("")), categorized.items[ks[j]], index, stamp))
  }

  /** For distinct categories, the file of each holds its page. */
  lemma PageFileOf(categorized: Dict<seq<string>>, categories: Dict<Json>, index: map<string, Tweet>,
                   stamp: string, ks: seq<string>, k: string)
    requires forall k :: k in ks ==> k in categorized.items
    requires Distinct(ks) && k in ks
    ensures CategoryPath(k) in PathMap(ks, PageTexts(categorized, categories, index, stamp, ks))
    ensures PathMap(ks, PageTexts(categorized, categories, index, stamp, ks))[CategoryPath(k)] ==
      PageText(k, Get(categories, k, Str("")), categorized.items[k], index, stamp)
  {
    var j :| 0 <= j < |ks| && ks[j] == k;
    var texts := PageTexts(categorized, categories, index, stamp, ks);
    PathMapContents(ks, texts);
    assert texts[j] == PageText(k, Get(categories, k, Str("")), categorized.items[k], index, stamp);
  }
}
