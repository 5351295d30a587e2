/** The files the core reads and writes, as an abstract store. A file that
    does not exist is `None`; a file that exists holds the value it was
    last written with (the JSON encoding and decoding in between is not
    modelled, and neither is a file whose content is not what the writers
    produce). */
module Files {

  import opened Wrappers
  import opened Dicts
  import opened Json
  import opened Tweets

  /** The `rate` entry of the progress file: the day of the last save and
      the number of requests made that day. */
  datatype RateEntry = RateEntry(date: string, requests: int)

  /** The progress file. Both writers store `processed` (tweet id to
      category ids) and `last_updated`; the orchestrator adds `categories`
      (category id to tweet ids), the storage module adds `rate`. */
  datatype ProgressDoc = ProgressDoc(
    processed: Dict<seq<string>>,
    categories: Option<Dict<seq<string>>>,
    lastUpdated: string,
    rate: Option<RateEntry>)

  /** One reading of the wall clock: `date` as `%Y-%m-%d`, `minute` as
      `%H:%M`, `second` as `%S`. */
  datatype Clock = Clock(date: string, minute: string, second: string) {

    /** `strftime("%Y-%m-%d %H:%M:%S")` */
    function Seconds(): string { date + " " + minute + ":" + second }

    /** `strftime("%Y-%m-%d %H:%M")` */
    function Minutes(): string { date + " " + minute }
  }

  class FileStore {
    /** The progress file. */
    var progress: Option<ProgressDoc>
    /** The dynamic categories file: category id to description. */
    var categories: Option<Dict<Json>>
    /** The bookmarks export the corpus is read from. */
    var input: Option<seq<Tweet>>
    /** The markdown files written so far, by path. */
    var outputs: map<string, string>

    constructor (progress: Option<ProgressDoc>, categories: Option<Dict<Json>>, input: Option<seq<Tweet>>)
      ensures this.progress == progress && this.categories == categories && this.input == input
      ensures outputs == map[]
    {
      this.progress := progress;
      this.categories := categories;
      this.input := input;
      this.outputs := map[];
    }
  }
}
