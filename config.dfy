/** The constants of the configuration file that the core's logic depends
    on. The API key is not a constant here: it is read from the environment
    at start-up, so the classifier takes it as a parameter. */
module Config {

  import opened Dicts
  import opened Json
  import opened Text

  /** Attempts `classify_tweet` makes before falling back. */
  const MaxRetries: nat := 3

  /** The reserved fallback category. */
  const Misc: string := "misc"

  /** Directory that receives one markdown file per category. */
  const OutputDir: string := "output"

  /** The fixed base taxonomy, in the order the configuration lists it. */
  const BaseCategories: Dict<Json> := BaseCategoriesDict()

  function BaseCategoriesDict(): (d: Dict<Json>)
    ensures d.keys == BaseIds
  {
    var d := DictRep(BaseIds, BaseDescriptions);
    // the nine ids already differ in their first letter
    var initials := "tabpdfhnm";
    assert forall i :: 0 <= i < |BaseIds| ==> BaseIds[i][0] == initials[i];
    assert forall i, j :: 0 <= i < j < |initials| ==> initials[i] != initials[j];
    assert Distinct(BaseIds) by {
      forall i, j | 0 <= i < j < |BaseIds| ensures BaseIds[i] != BaseIds[j] {
        assert BaseIds[i][0] != BaseIds[j][0];
      }
    }
    d
  }

  const BaseIds: seq<string> :=
    ["tech_programming", "ai_ml", "business_startups", "personal_development",
     "design_ui_ux", "finance_crypto", "humor_memes", "news_politics", "misc"]

  const BaseDescriptions: map<string, Json> :=
    map[
      "tech_programming" := Str("Coding tips, programming languages, developer tools, software engineering"),
      "ai_ml" := Str("Artificial intelligence, machine learning, LLMs, neural networks, data science"),
      "business_startups" := Str("Entrepreneurship, growth strategies, marketing, fundraising, product management"),
      "personal_development" := Str("Productivity, habits, mindset, career advice, self-improvement"),
      "design_ui_ux" := Str("User interface design, user experience, visual design, design tools"),
      "finance_crypto" := Str("Investing, cryptocurrency, trading, personal finance"),
      "humor_memes" := Str("Funny content, jokes, memes, entertainment"),
      "news_politics" := Str("Current events, political commentary, world news"),
      "misc" := Str("Content that doesn't fit other categories")
    ]
}
