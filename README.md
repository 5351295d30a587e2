# TweetVault core, modelled in Dafny

TweetVault files a Twitter bookmarks export into categories. The entry
point reads the corpus and the progress file. It picks the tweets whose id
is not recorded yet and optionally cuts them to a limit. It asks a
language-model classifier for each tweet's category ids, files each id
under those categories and records the answer. Unless it is a dry run, it
then saves the progress and writes one markdown page per category.

This project models that core as Dafny code and proves properties of it:

- `Storage`: tweet identity; the tweet index; the progress file with its
  daily request counter; the merged category map; and the inversion of the
  progress map into category lists.
- `Classifier`: the category map offered to the model and the prompt's
  category block. It also covers the parsing of the model's answer
  (fences, normalisation, fallbacks), the saving of proposed categories,
  and the bounded retry loop over HTTP outcomes.
- `Report`: the page both writers build, which is 10 header lines and
  then 7 lines per tweet id. It also holds the path of a category's file.
- `MarkdownWriter`: the writer the command-line run uses. It builds its
  own tweet index, writes the pages in dict order and builds the printed
  summary.
- `Writer`: the second writer. It writes the pages in sorted order, with
  descriptions passed in by its caller.
- `Orchestrator`: `process_tweets` and the progress file as the entry
  point reads and writes it.
- Supporting modules give Python's semantics where the core relies on
  them:
  - `Dicts`: insertion-ordered dicts, `get`, `d[k] = v` and `update`;
  - `Text`: `split`, `join`, `strip`, `lower`, `title` and `str(n)` on ASCII;
  - `Json`: decoded JSON values, their truthiness and `str(v)`;
  - `Sorting`: `sorted` on strings;
  - `Tweets`: the four tweet fields the core reads;
  - `Files`: the files as an abstract store;
  - `Config`: the constants of `config.py`.

The files are an abstract `FileStore` class whose fields the operations
update in place. Each field is the decoded content of one file, or `None`
when the file does not exist. Decisions that happen outside the core are
parameters:

- the wall clock is a `Clock` value;
- the HTTP outcome of request number `a` is `respond(a)`;
- the JSON decoder is `decode`, which yields `None` on a decode error;
- `process_tweets` takes the classifier as a function `classify(j, text,
  author)`.

`process_tweets` classifies one tweet per call, with a fixed pause
between calls. The code has no batching and enforces no daily request
budget. `load_requests_today` and the `rate` entry
are modelled, but nothing in the core consults them. The entry point
calls neither `storage.py` nor `writer.py`; both are modelled on their
own terms. The entry point and
`storage.py` share one progress file with different layouts;
`Orchestrator.SharedProgressFile` states what each side reads of the
other's file.

## Model

| member | source | states |
|---|---|---|
| Storage.GetTweetId | storage.py:16-23 | The id is the `rest_id` when the metadata has one. Otherwise, with a url, it is the last `/`-separated piece of the url. Otherwise it is the position in decimal. `main.py:74-83` is the same rule. |
| Storage.UrlEndingInSlash | storage.py:19-22 | A url that ends in `/` yields the empty id, because `split` leaves an empty last piece. |
| Storage.StatusLinkId | storage.py:19-22 | A status link without metadata yields the number at its end. |
| Storage.BuildTweetIndex | storage.py:26-27 | The keys of the index are exactly the ids of the tweets. Where ids repeat, the later tweet is stored. |
| Storage.LoadProgress | storage.py:32-36 | Without a file the progress map is `{}`; otherwise it is the stored `processed` map. |
| Storage.SaveProgress | storage.py:39-52 | The file holds the progress map, the time of the save and a `rate` entry with the day of the save and the given request count. |
| Storage.LoadRequestsToday | storage.py:55-64 | The stored count when the file has a `rate` entry dated today, and 0 without a file, without a `rate` entry or on another day. |
| Storage.ProgressRoundTrip | storage.py:32-64 | A save followed by loads gives back the progress map. It gives back the request count on the day of the save and 0 on any other day. |
| Storage.NoRateNoRequests | storage.py:55-64 | Without a progress file, or with one that has no `rate` entry, the count is 0. |
| Storage.AllCategories | storage.py:81-84 | The merged map has every base and every dynamic key. A dynamic description wins, a base-only key keeps its base description, and the base keys come first in base order. |
| Storage.LoadDynamicCategories | storage.py:69-73 | The dynamic file's map, or `{}` when there is none. |
| Storage.SaveDynamicCategories | storage.py:76-78 | The dynamic file afterwards holds exactly the given map. |
| Storage.LoadAllCategories | storage.py:81-84 | The result is the base taxonomy updated with the dynamic file, or with `{}` when there is none. |
| Storage.InvertToCategories | storage.py:89-95 | The two nested loops compute the inversion defined by the progress map's keys in order, starting from `{}`. |
| Storage.AppendUnderEach | storage.py:93-94 | The inner loop appends the id under each category of the list in turn, a missing list starting empty. |
| Storage.AddToAllList | storage.py:93-94 | The inner loop appends the id to a category's list once for each occurrence of the category in the id's list. |
| Storage.AddToAllKeys | storage.py:93-94 | The inner loop adds exactly the categories of the id's list as keys. |
| Storage.InvertKeysList | storage.py:92-94 | After the outer loop over some ids, each category's list is the reference list of those ids: each id in turn, repeated as often as it names the category. |
| Storage.InvertKeysKeys | storage.py:92-94 | After the outer loop over some ids, a category is a key exactly when one of those ids names it. |
| Storage.InvertedOrder | storage.py:89-95 | Each list of the inversion lists the ids in the progress map's order, each repeated as often as the category occurs in that id's list. |
| Storage.InvertedCount | storage.py:89-95 | An id occurs in a category's list exactly as often as the category occurs in the id's list. An id not in the progress map occurs nowhere. |
| Storage.InvertedKeys | storage.py:89-95 | The categories of the inversion are exactly those named by some id, and each has a non-empty list. |
| Storage.EmptyListAppearsNowhere | storage.py:92-94 | An id with an empty category list is listed under no category. |
| Classifier.LoadCategories | classifier.py:22-31 | The categories are the base taxonomy updated with the dynamic file when it exists, so every base id is present. |
| Classifier.SaveNewCategory | classifier.py:34-44 | The dynamic file afterwards is the old one (or `{}`) with the one key set to the description. |
| Classifier.CategoryLine | classifier.py:51 | A category line holds no newline when neither its id nor its description does. |
| Classifier.CategoryListLines | classifier.py:50-53 | When no id or description holds a newline, the prompt's category block splits back into exactly one line per category, in map order. |
| Classifier.PromptOffersBaseCategories | classifier.py:49-53 | Whatever the dynamic file holds, every base category has its line in the block, with its merged description. |
| Classifier.BuildClassificationPrompt | classifier.py:47-74 | The prompt is the fixed text around the category block of the categories loaded from the store, the author and the tweet text. |
| Classifier.Normalize | classifier.py:95 | Normalising keeps the length and leaves no space and no upper-case ASCII letter. |
| Classifier.NormalizeFixesNormalized | classifier.py:95 | An id that is already lower-case and has no spaces is unchanged. |
| Classifier.NormalizeIdempotent | classifier.py:95 | Normalising twice is normalising once. |
| Classifier.NormalizeExample | classifier.py:95 | `"New Category"` becomes `"new_category"`. |
| Classifier.Elements | classifier.py:95 | `for c in v` visits the items of a list, and the one-character strings of a string in order. It visits the keys of an object in order. It raises for `null`, booleans and numbers. |
| Classifier.NormalizeAll | classifier.py:95 | The result is no longer than the input, and every id is normalised. An answer of only falsy values gives `[]`. |
| Classifier.NormalizeAllSingle | classifier.py:95 | One element is kept and normalised when truthy, and dropped otherwise. |
| Classifier.NormalizeAllAppend | classifier.py:95 | The comprehension works element by element: the answer for `a + b` is the answer for `a` followed by the answer for `b`. With NormalizeAllSingle, this says the truthy elements are kept, in order, and the falsy ones dropped. |
| Classifier.NormalizeAllStrings | classifier.py:95 | For non-empty strings, each is normalised, in order, and none is dropped. |
| Classifier.DropOpeningFence | classifier.py:87 | The longest of "```json\n", "```json", "```\n" and "```" that starts the text is removed, and only that. |
| Classifier.DropClosingFence | classifier.py:88 | A fence at the very end goes, with the newline before it if there is one. A fence just before a final newline goes the same way, and the final newline stays. A text ending in neither is left alone. |
| Classifier.CutFence | classifier.py:88 | The match of the closing fence at the end of a text is the fence with the newline before it if there is one. |
| Classifier.StripFences | classifier.py:86-88 | Text that does not start with a fence is left alone, and no text grows. |
| Classifier.UnclosedFence | classifier.py:86-88 | An answer cut off before its closing fence reaches the decoder as everything after the opening fence. |
| Classifier.UpperCaseTagKept | classifier.py:87 | The tag is matched in lower case only, so an upper-case `JSON` tag stays in front of the body. |
| Classifier.ClosingFence | classifier.py:88 | A final newline and fence are removed, and only those. |
| Classifier.FencedJson | classifier.py:86-88 | A block fenced as `json` gives back its body. |
| Classifier.FencedPlain | classifier.py:86-88 | A plain fenced block gives back its body. |
| Classifier.FencedAnswerDecodesBody | classifier.py:85-90 | A fenced answer with white space around it is decoded from the body alone. |
| Classifier.Interpret | classifier.py:90-101 | A decode error gives `(["misc"], {})`. The `AttributeError` escapes exactly when the answer is not an object. Every returned id is normalised. The ordinary parse is stated by Classifier.ParseKeepsAnswer. |
| Classifier.ParseKeepsAnswer | classifier.py:91-97 | For an object answer whose `categories` can be iterated, the ids are `str(c).lower().replace(" ", "_")` of its truthy elements, in order. `new_categories` is returned as the answer gives it (also when `categories` is missing), or `{}` when it is missing. |
| Classifier.ParseFallbacks | classifier.py:91-101 | A missing `categories` gives `["misc"]` and an empty list gives `[]`. A `null`, a boolean or a number gives `(["misc"], {})` through the `TypeError`. A missing `new_categories` gives `{}`. |
| Classifier.NewCategoriesSaved | classifier.py:147-150 | Each proposed category is stored under its normalised id with its description, and the last proposal wins when two ids normalise alike. Other dynamic entries are kept, and nothing else is added. |
| Classifier.SaveNewCategories | classifier.py:147-150 | With no proposal the file is untouched. Otherwise it holds the old map (or `{}`) with every proposal saved in turn. |
| Classifier.RequestLoop | classifier.py:131-166 | At most `MAX_RETRIES` requests are made, stopping at the first 200. Every earlier one failed. A 429 is always followed by a pause; any other failure is followed by one only when it is not the last attempt. |
| Classifier.AcceptAnswer | classifier.py:140-152 | The error escapes exactly when the answer or its `new_categories` is not an object; otherwise the parsed ids are returned. Proposals are saved only then, and only when there are some; an escaping error saves nothing. |
| Classifier.RequestAndAccept | classifier.py:131-168 | Without a 200 after `MAX_RETRIES` attempts the result is `["misc"]` and nothing is saved. With one, the result and the saved categories are those of the parsed answer. |
| Classifier.ClassifyTweet | classifier.py:104-168 | Without an API key there is no request, the result is `["misc"]` and nothing changes. Otherwise every request carries the prompt built from the categories before the call, and the run ends as stated for `RequestAndAccept`. |
| Report.Preview | markdown_writer.py:76-79 | The preview holds no newline. It keeps the first 100 characters with newlines turned into spaces, and has `...` appended exactly when the text is longer. |
| Report.ShortPreview | markdown_writer.py:76-79 | A short text without newlines is its own preview. |
| Report.EntryLines | markdown_writer.py:82-88 | Each entry is exactly 7 lines. |
| Report.RenderPage | markdown_writer.py:56-91 | The loop builds the header and then the 7 lines of each id in turn, joined by newlines. `writer.py:11-44` builds the same page. |
| Report.PageShape | markdown_writer.py:58-88 | The page has 10 + 7n lines, and the entry of the k-th id sits at lines 10 + 7k to 16 + 7k with number k + 1. |
| Report.PageHeader | markdown_writer.py:56-69 | The header names the category by its display name and counts the ids. The description line is empty exactly when the description is falsy. |
| Report.UnknownIdEntry | markdown_writer.py:73-85 | An id the index lacks is shown with author `unknown`, an empty preview and an empty link. |
| Report.PageTextLines | markdown_writer.py:90-91 | When no id, author, url, description or stamp holds a newline, the written file splits back into exactly the page's lines. |
| Report.CategoryPathShape | markdown_writer.py:18-20 | The file is named `<id>.md`. It lies in the output directory exactly when the id does not start with `/`, because `os.path.join` drops the directory before an absolute name. |
| Report.CategoryPathInjective | markdown_writer.py:18-20 | Two categories never share a path string. |
| Report.PathMapContents | markdown_writer.py:104-105 | Writing the pages of distinct categories leaves one path per category and no other, each holding its own text. |
| MarkdownWriter.LoadTweetIndex | markdown_writer.py:23-37 | Without a corpus file the index is `{}`. Otherwise its keys are exactly the index keys, and a later tweet replaces an earlier one under the same key. |
| MarkdownWriter.IndexKeyAgrees | markdown_writer.py:34 | The index key equals the tweet id whenever the tweet has a `rest_id` or no url. |
| MarkdownWriter.UrlOnlyTweetShownUnknown | markdown_writer.py:34-35 | A tweet known only by its url is filed under the url's last piece but indexed under its position. Its page entry therefore shows the empty tweet. |
| MarkdownWriter.CategoryDescription | markdown_writer.py:52-53 | A dynamic description wins, then the base one. An unknown category gets the empty, falsy description. |
| MarkdownWriter.GenerateCategoryFile | markdown_writer.py:40-91 | The category's path gets its page, described as the merged categories describe it. No other path changes. |
| MarkdownWriter.WriteNext | markdown_writer.py:104-105 | One turn of the loop adds the next category's page to the paths written so far. |
| MarkdownWriter.WriteAllCategories | markdown_writer.py:94-106 | The category pages, written in dict order, are laid over the old paths, so the paths of other categories are kept. |
| MarkdownWriter.UniqueIds | markdown_writer.py:116-120 | The collected set holds exactly the ids listed under some category. |
| MarkdownWriter.CountCategories | markdown_writer.py:116-122 | The loop yields the count lines of the categories in order and the ids listed under them. |
| MarkdownWriter.GetSummaryStats | markdown_writer.py:109-128 | The text is the title, a rule, the count lines in sorted order and the footer, joined by newlines. |
| MarkdownWriter.SummaryOrder | markdown_writer.py:117 | Each category is walked exactly once, in strictly increasing order of id. |
| MarkdownWriter.SummaryHead | markdown_writer.py:113 | The summary has n + 5 lines for n categories, and opens with the title and a rule of 35 dashes. |
| MarkdownWriter.SummaryCountLines | markdown_writer.py:117-122 | The count line of the j-th category in sorted order is line 2 + j. |
| MarkdownWriter.SummaryFooterLines | markdown_writer.py:124-126 | The last three lines are a rule, the number of distinct ids and the number of categories. |
| MarkdownWriter.SummaryCounts | markdown_writer.py:116-126 | The number of categories printed is the number of keys. The unique count is at least the number of distinct ids of any one list and at most the sum of all lengths. |
| Writer.WriteCategoryFile | writer.py:7-44 | The category's path gets its page with the given description, and no other path changes. |
| Writer.SortedKeys | writer.py:49 | Sorting the keys keeps each category exactly once. |
| Writer.WriteAll | writer.py:47-52 | The categories are written in sorted order of id, and the paths written are laid over the old ones. |
| Writer.WriteSorted | writer.py:48-49 | One turn of the loop adds the page of the next category in sorted order, with its description from `categories` or the empty one. |
| Writer.WriteAllFiles | writer.py:47-52 | There is exactly one new path per category, holding its page. The description is `categories.get(cat_id, "")`, so an unknown category gets the empty one. |
| Writer.DictOrderFiles | writer.py:49-51 | Writing in dict order would also leave one path per category, each holding its page. |
| Writer.OrderIrrelevant | writer.py:49 | The sorted order does not change the result: sorted order and dict order leave the same paths with the same pages. |
| Sorting.Sort | writer.py:49 | `sorted` gives an ordered permutation of its input. |
| Dicts.Update | storage.py:83 | `update` keeps every key of either dict. The other dict's value wins, and the new keys are appended in its order. |
| Dicts.SetAll | main.py:137 | Recording answers in turn adds every id, the last answer for an id wins, and other entries are kept. |
| Orchestrator.LoadProgress | main.py:48-61 | Without a file both maps are `{}`. Otherwise the maps come from the file, with `{}` for a missing `categories` entry. |
| Orchestrator.SaveProgress | main.py:64-71 | The file holds both maps and the time of the save, and no `rate` entry. |
| Orchestrator.SharedProgressFile | main.py:48-71 | The entry point loads back what it saved. `storage.py` reads the same `processed` map from that file and no requests today. A file saved by `storage.py` is read by the entry point with no category lists. |
| Orchestrator.UnprocessedSound | main.py:95-99 | Every pending entry is the tweet at its position, under that position's id, and that id is not processed. |
| Orchestrator.UnprocessedOrdered | main.py:95-99 | Pending entries are in corpus order. |
| Orchestrator.UnprocessedComplete | main.py:95-99 | Every position whose id is not processed is pending. |
| Orchestrator.PendingExactly | main.py:94-99 | The pending tweets are exactly those whose `get_tweet_id` is not a key of `processed`, each under its id, in corpus order. |
| Orchestrator.FindRemaining | main.py:94-99 | The loop collects exactly the pending tweets. |
| Orchestrator.Cut | main.py:101-102 | The result is a prefix. `None` and 0 keep everything. A positive limit keeps `min(limit, n)` entries, and a negative one drops the last `-limit` entries, or all of them. |
| Orchestrator.FileUnderGrows | main.py:133-134 | Filing keeps every old list as a prefix and lists the id under the category. |
| Orchestrator.FileUnderOnly | main.py:133-134 | Filing adds at most the one key, and under it at most the one id. |
| Orchestrator.FileUnderNoRepeats | main.py:133-134 | Filing never repeats an id in a list. |
| Orchestrator.FileUnderAllGrows | main.py:132-134 | Filing under several categories keeps every old list as a prefix and lists the id under each of them. |
| Orchestrator.FileUnderAllOnly | main.py:132-134 | Filing under several categories adds only those keys, and under them only the one id. |
| Orchestrator.FileUnderAllNoRepeats | main.py:132-134 | Lists without repeats stay without repeats. |
| Orchestrator.AppendIfAbsent | main.py:133-134 | The id is appended to the category's list (created empty if needed) unless the list holds it. |
| Orchestrator.FileUnderEach | main.py:132-134 | The inner loop files the id under each category in turn. |
| Orchestrator.MergeProcessed | main.py:137 | Afterwards each pending id maps to its (last) answer, and every other entry is as before. |
| Orchestrator.MergeExtends | main.py:115-137 | Each old category list is a prefix of its new list. |
| Orchestrator.MergeFiled | main.py:132-134 | Each pending id is listed under every category it was given. |
| Orchestrator.MergeKeys | main.py:132-134 | A category has a list afterwards only if it had one before or some pending tweet was given it. |
| Orchestrator.MergeOnlyPending | main.py:132-134 | An id is listed afterwards only if it was listed there before or it is a pending id. |
| Orchestrator.MergeNoRepeats | main.py:132-134 | Lists without repeats stay without repeats over the whole loop. |
| Orchestrator.ClassifyRemaining | main.py:115-141 | The loop leaves the progress defined by filing each pending id under its answer in turn. The j-th call gets the tweet's `full_text` (default `""`) and `screen_name` (default `"unknown"`). It pauses between two calls, so n - 1 times for n tweets and never for none. |
| Orchestrator.SaveAndWrite | main.py:151-157 | The progress is saved, then every category page is written with the tweets looked up in the corpus file. |
| Orchestrator.ProcessTweets | main.py:86-161 | With nothing pending there is no change, and the summary is printed only if some category exists. Otherwise the summary is that of the final lists and there are n - 1 pauses. Files are saved and written only when it is not a dry run. |
| Orchestrator.NothingUnprocessed | main.py:95-99 | When every id is processed, nothing is pending. |
| Orchestrator.SecondRunFindsNothing | main.py:94-137 | After a run without a limit every id is processed, so the next run finds nothing to classify. |

## Left out

- Reading and writing files, JSON encoding and decoding, and `indent=2`.
  The store holds decoded values, and only content the writers produce is
  modelled. A progress file without a `processed` entry, a corpus that is
  not a list, and metadata that is not an object are not modelled.
- `load_tweets`, `main()`, its argument parsing, `--reset`,
  `show_categories` and every `print`. That includes the progress lines of
  `process_tweets` and the lines `write_all_categories` and `write_all`
  print. `get_summary_stats` loads the categories without using them; that
  load is not modelled.
- `ensure_output_dir` and `os.makedirs`: the output directory is assumed
  to exist.
- WriteAllFiles: the store maps each path string to its own file, and
  writing to it never fails. Two things are therefore not modelled. Ids
  such as `x`, `./x` and `a/../x` name one file, where the later page
  wins. An id such as `ai/ml` needs a subdirectory nobody creates, so
  `open` raises. Category ids are cleaned only by
  `lower().replace(" ", "_")`, so such ids can reach the writers.
- CategoryPathInjective, PathMapContents, DictOrderFiles, OrderIrrelevant:
  they hold for path strings, not for files, for the same reason as
  WriteAllFiles. With two ids that name one file, the write order decides
  which page it holds.
- Tweet fields are each a string or absent. A field that is present but
  `null` or not a string is not modelled. On such input the source
  behaves differently: a `null` `full_text` makes the `[:100]` slice
  raise `TypeError`, and a `null` `screen_name` is shown as `@None`. A
  numeric `rest_id` becomes an integer key; it is saved as a string, so
  the next run finds that tweet pending again.
- `time.sleep`: pauses are counted, not taken. The HTTP request, its
  headers and payload, and the shape of a 200 body
  (`result["choices"][0]["message"]["content"]`) are reduced to
  `HttpOutcome`. A 200 body without that shape is not modelled.
- The clock: one `Clock` reading serves a whole run, where the source reads
  the clock again for each file.
- Floating-point JSON numbers: numbers are integers. `repr` does not
  escape quotes, backslashes or control characters. `lower`, `title` and
  `strip` are modelled on ASCII letters and ASCII white space only.
- Orchestrator.ProcessTweets: the classifier is an abstract function
  parameter. The categories `classify_tweet` saves during the run, and an
  `AttributeError` escaping from it, are not modelled inside the run. The
  category file is unchanged in the model, and the pages are described
  from it.
