/** The classifier around the language model: the category map it offers
    the model, the parsing of the model's answer into category ids, the
    saving of categories the model proposes, and the bounded retry loop
    over the outcomes of the HTTP requests. */
module Classifier {

  import opened Wrappers
  import opened Text
  import opened Dicts
  import opened Json
  import opened Config
  import opened Files
  import opened Storage

  // ---------------------------------------------------------------------
  // Categories

  /** `load_categories`: the base taxonomy updated with the dynamic file. */
  method LoadCategories(store: FileStore) returns (cats: Dict<Json>)
    ensures cats == AllCategories(store.categories.GetOr(Empty()))
    ensures forall k :: k in BaseIds ==> k in cats.items
  {
    cats := BaseCategories;
    if store.categories.Some? {
      cats := Update(cats, store.categories.value);
    }
  }

  /** `save_new_category`: reads the dynamic file (or `{}`), sets one key,
      writes the file back. */
  method SaveNewCategory(store: FileStore, categoryId: string, description: Json)
    modifies store`categories
    ensures store.categories == Some(Set(old(store.categories).GetOr(Empty()), categoryId, description))
  {
    var dynamic: Dict<Json> := Empty();
    if store.categories.Some? {
      dynamic := store.categories.value;
    }
    dynamic := Set(dynamic, categoryId, description);
    store.categories := Some(dynamic);
  }

  // ---------------------------------------------------------------------
  // The prompt

  /** `- <id>: <desc>` */
  function CategoryLine(id: string, description: Json): (line: string)
    ensures '\n' !in id && '\n' !in PyStr(description) ==> '\n' !in line
  {
    "- " + id + ": " + PyStr(description)
  }

  /** One line per category, in the order of the map. */
  function CategoryLines(cats: Dict<Json>): (lines: seq<string>)
    ensures |lines| == |cats.keys|
    ensures forall i :: 0 <= i < |cats.keys| ==>
      lines[i] == CategoryLine(cats.keys[i], cats.items[cats.keys[i]])
  {
    seq(|cats.keys|, i requires 0 <= i < |cats.keys| => CategoryLine(cats.keys[i], cats.items[cats.keys[i]]))
  }

  /** The category block of the prompt: the lines joined by newlines. */
  function CategoryList(cats: Dict<Json>): string {
    Join('\n', CategoryLines(cats))
  }

  /** When no id and no description holds a newline, the block reads back
      as exactly one `- id: desc` line per category, in map order. */
  lemma CategoryListLines(cats: Dict<Json>)
    requires |cats.keys| >= 1
    requires forall k :: k in cats.items ==> '\n' !in k && '\n' !in PyStr(cats.items[k])
    ensures Split(CategoryList(cats), '\n') == CategoryLines(cats)
  {
    var lines := CategoryLines(cats);
    forall i | 0 <= i < |lines| ensures '\n' !in lines[i] {
      assert cats.keys[i] in cats.items;
    }
    SplitJoin(lines, '\n');
  }

  /** The categories the prompt always offers: every base category, each
      on its own line. */
  lemma PromptOffersBaseCategories(dynamic: Dict<Json>, id: string)
    requires id in BaseIds
    ensures exists i :: (0 <= i < |AllCategories(dynamic).keys| &&
      CategoryLines(AllCategories(dynamic))[i] == CategoryLine(id, AllCategories(dynamic).items[id]))
  {
    var cats := AllCategories(dynamic);
    var i :| 0 <= i < |cats.keys| && cats.keys[i] == id;
    assert CategoryLines(cats)[i] == CategoryLine(id, cats.items[id]);
  }

  const PromptIntro: string :=
    "You are a tweet classifier. Analyze the following tweet and classify it.\n\nEXISTING CATEGORIES:\n"

  const PromptRules: string :=
    "\n\nRULES:\n"
    + "1. A tweet can belong to MULTIPLE categories if the content fits more than one\n"
    + "2. If no existing category fits well, you may CREATE a new category\n"
    + "3. Use lowercase with underscores for category IDs (e.g., \"web3_nft\", \"health_fitness\")\n\n"
    + "Tweet by @"

  const PromptFormat: string :=
    "\"\n\nRespond in this exact JSON format:\n"
    + "{\"categories\": [\"category_id1\", \"category_id2\"], \"new_categories\": {\"new_cat_id\": \"description\"}}\n\n"
    + "- \"categories\" = list of 1+ category IDs that apply (from existing OR new)\n"
    + "- \"new_categories\" = empty {} if no new categories needed, otherwise {\"id\": \"description\"}\n\n"
    + "Respond with ONLY the JSON, no other text."

  /** `build_classification_prompt`, given the loaded categories. */
  function BuildPrompt(cats: Dict<Json>, tweetText: string, author: string): string
  {
    PromptIntro + CategoryList(cats) + PromptRules + author + ":\n\"" + tweetText + PromptFormat
  }

  // ---------------------------------------------------------------------
  // Parsing the answer

  /** `s.lower().replace(" ", "_")` */
  function Normalize(s: string): (r: string)
    ensures |r| == |s|
    ensures IsNormalized(r)
  {
    ReplaceChar(Lower(s), ' ', '_')
  }

  /** No spaces and no upper-case ASCII letters. */
  predicate IsNormalized(s: string) {
    forall i :: 0 <= i < |s| ==> s[i] != ' ' && !IsAsciiUpper(s[i])
  }

  /** A normalised id is its own normalisation. */
  lemma NormalizeFixesNormalized(s: string)
    requires IsNormalized(s)
    ensures Normalize(s) == s
  {
    assert forall i :: 0 <= i < |s| ==> Normalize(s)[i] == s[i];
  }

  /** Normalising twice is normalising once. */
  lemma NormalizeIdempotent(s: string)
    ensures Normalize(Normalize(s)) == Normalize(s)
  {
    NormalizeFixesNormalized(Normalize(s));
  }

  lemma NormalizeExample()
    ensures Normalize("New Category") == "new_category"
  {
  }

  /** The elements `for c in v` visits: the items of a list, the
      one-character strings of a string, the keys of an object; `None` for
      a value that cannot be iterated (a `TypeError`). */
  function Elements(v: Json): (r: Option<seq<Json>>)
    ensures r.None? <==> !Iterable(v)
    ensures v.Arr? ==> r == Some(v.items)
    ensures v.Str? ==> r.Some? && |r.value| == |v.s|
    ensures v.Str? ==> forall i :: 0 <= i < |v.s| ==> r.value[i] == Str([v.s[i]])
    ensures v.Obj? ==> r.Some? && |r.value| == |v.fields.keys|
    ensures v.Obj? ==> forall i :: 0 <= i < |v.fields.keys| ==> r.value[i] == Str(v.fields.keys[i])
  {
    match v
    case Arr(items) => Some(items)
    case Str(s) => Some(seq(|s|, i requires 0 <= i < |s| => Str([s[i]])))
    case Obj(fields) => Some(seq(|fields.keys|, i requires 0 <= i < |fields.keys| => Str(fields.keys[i])))
    case _ => None
  }

  /** `None`, booleans and numbers: the values `for c in v` cannot walk. */
  predicate Iterable(v: Json) {
    !(v.Null? || v.Bool? || v.Num?)
  }

  /** `[str(c).lower().replace(" ", "_") for c in items if c]` */
  function NormalizeAll(items: seq<Json>): (r: seq<string>)
    ensures |r| <= |items|
    ensures forall i :: 0 <= i < |r| ==> IsNormalized(r[i])
    ensures (forall i :: 0 <= i < |items| ==> !Truthy(items[i])) ==> r == []
    decreases |items|
  {
    if |items| == 0 then []
    else
      var front := NormalizeAll(items[..|items| - 1]);
      var c := items[|items| - 1];
      if Truthy(c) then front + [Normalize(PyStr(c))] else front
  }

  /** One element: kept and normalised when truthy, dropped otherwise. */
  lemma NormalizeAllSingle(c: Json)
    ensures NormalizeAll([c]) == if Truthy(c) then [Normalize(PyStr(c))] else []
  {
    assert [c][..0] == [];
  }

  /** The list is filtered element by element: the answer for `a + b` is
      the answer for `a` followed by the answer for `b`. */
  lemma {:induction false} NormalizeAllAppend(a: seq<Json>, b: seq<Json>)
    ensures NormalizeAll(a + b) == NormalizeAll(a) + NormalizeAll(b)
    decreases |b|
  {
    if |b| == 0 {
      AppendNothing(a, b);
    } else {
      var b' := b[..|b| - 1];
      FrontAndLast(b);
      NormalizeAllAppend(a, b');
      NormalizeAllAppendStep(a, b', b[|b| - 1]);
    }
  }

  /** One more item at the end of the second part keeps the split. */
  lemma NormalizeAllAppendStep(a: seq<Json>, b: seq<Json>, c: Json)
    requires NormalizeAll(a + b) == NormalizeAll(a) + NormalizeAll(b)
    ensures NormalizeAll(a + (b + [c])) == NormalizeAll(a) + NormalizeAll(b + [c])
  {
    AppendSnoc(a, b, c);
    NormalizeAllSnoc(a + b, c);
    NormalizeAllSnoc(b, c);
    AppendAssoc(NormalizeAll(a), NormalizeAll(b), if Truthy(c) then [Normalize(PyStr(c))] else []);
  }

  lemma NormalizeAllSnoc(xs: seq<Json>, c: Json)
    ensures NormalizeAll(xs + [c]) == NormalizeAll(xs) + if Truthy(c) then [Normalize(PyStr(c))] else []
  {
    FrontOfSnoc(xs, c);
  }

  /** Non-empty strings are each normalised, in order, and none is dropped. */
  lemma {:induction false} NormalizeAllStrings(items: seq<Json>)
    requires forall i :: 0 <= i < |items| ==> items[i].Str? && items[i].s != []
    ensures NormalizeAll(items) == seq(|items|, i requires 0 <= i < |items| => Normalize(items[i].s))
    decreases |items|
  {
    if |items| > 0 {
      NormalizeAllStrings(items[..|items| - 1]);
    }
  }

  /** The answer as the classifier reads it: the category ids and the
      proposed new categories, or the `AttributeError` that escapes when the
      decoded answer is not a JSON object. */
  datatype Parsed = Parsed(categories: seq<string>, newCategories: Json) | AttributeError

  /** `(["misc"], {})`: the answer after a decode or type error. */
  const ParseFailure: Parsed := Parsed([Misc], Obj(Empty()))

  /** `re.sub(r'^```(?:json)?\n?', '', text)` on a text that starts with a
      fence: the fence, then a `json` tag if one follows, then a newline if
      one follows. */
  function DropOpeningFence(text: string): (r: string)
    requires StartsWith(text, "```")
    ensures StartsWith(text, "```json\n") ==> r == text[8..]
    ensures StartsWith(text, "```json") && !StartsWith(text, "```json\n") ==> r == text[7..]
    ensures !StartsWith(text, "```json") && StartsWith(text, "```\n") ==> r == text[4..]
    ensures !StartsWith(text, "```json") && !StartsWith(text, "```\n") ==> r == text[3..]
  {
    var a := text[3..];
    OpeningFenceCases(text);
    var b := if StartsWith(a, "json") then a[4..] else a;
    if StartsWith(b, "\n") then b[1..] else b
  }

  /** The tests of `DropOpeningFence` on what follows the fence, read as
      tests on the whole text. */
  lemma OpeningFenceCases(text: string)
    requires StartsWith(text, "```")
    ensures StartsWith(text[3..], "json") <==> StartsWith(text, "```json")
    ensures StartsWith(text[3..], "\n") <==> StartsWith(text, "```\n")
    ensures StartsWith(text[3..], "json") ==>
      (StartsWith(text[3..][4..], "\n") <==> StartsWith(text, "```json\n"))
  {
    StartsWithConcat(text, "```", "json");
    StartsWithConcat(text, "```", "\n");
    assert "```" + "json" == "```json" && "```" + "\n" == "```\n";
    if StartsWith(text, "```json") {
      StartsWithConcat(text, "```json", "\n");
      assert "```json" + "\n" == "```json\n";
      assert text[3..][4..] == text[7..];
    }
  }

  /** `re.sub(r'\n?```$', '', text)`: a fence at the very end, or just
      before a final newline, goes together with one newline before it. */
  function DropClosingFence(text: string): (r: string)
    ensures EndsWith(text, "\n```") ==> r == text[..|text| - 4]
    ensures EndsWith(text, "```") && !EndsWith(text, "\n```") ==> r == text[..|text| - 3]
    ensures EndsWith(text, "\n```\n") ==> r == text[..|text| - 5] + "\n"
    ensures EndsWith(text, "```\n") && !EndsWith(text, "\n```\n") ==> r == text[..|text| - 4] + "\n"
    ensures !EndsWith(text, "```") && !EndsWith(text, "```\n") ==> r == text
  {
    ClosingFenceCases(text);
    NewlineFence(text);
    if EndsWith(text, "```") then CutFence(text)
    else if EndsWith(text, "```\n") then CutFenceBeforeNewline(text)
    else text
  }

  /** The match of `\n?```` just before a final newline: the fence and the
      newline before it go, the final newline stays. */
  function CutFenceBeforeNewline(text: string): (r: string)
    requires EndsWith(text, "```\n")
    ensures EndsWith(text, "\n```\n") ==> r == text[..|text| - 5] + "\n"
    ensures !EndsWith(text, "\n```\n") ==> r == text[..|text| - 4] + "\n"
  {
    ClosingFenceCases(text);
    var t := text[..|text| - 1];
    assert |t| >= 4 ==> t[..|t| - 4] == text[..|text| - 5];
    assert t[..|t| - 3] == text[..|text| - 4];
    CutFence(t) + "\n"
  }

  /** The match of `\n?```` at the end of `t`: the fence, and the newline
      before it if there is one. */
  function CutFence(t: string): (r: string)
    requires EndsWith(t, "```")
    ensures EndsWith(t, "\n```") ==> r == t[..|t| - 4]
    ensures !EndsWith(t, "\n```") ==> r == t[..|t| - 3]
  {
    EndsWithConcat(t, "\n", "```");
    var d := t[..|t| - 3];
    if EndsWith(d, "\n") then d[..|d| - 1] else d
  }

  /** A fence with a newline before it is a fence. */
  lemma NewlineFence(text: string)
    ensures EndsWith(text, "\n```") ==> EndsWith(text, "```")
    ensures EndsWith(text, "\n```\n") ==> EndsWith(text, "```\n")
  {
    EndsWithLonger(text, "\n", "```");
    EndsWithLonger(text, "\n", "```\n");
    assert "\n" + "```" == "\n```" && "\n" + "```\n" == "\n```\n";
  }

  /** The tests of `DropClosingFence` on what precedes the fence, read as
      tests on the whole text. */
  lemma ClosingFenceCases(text: string)
    ensures EndsWith(text, "```") ==> !EndsWith(text, "```\n")
    ensures EndsWith(text, "```\n") ==> EndsWith(text[..|text| - 1], "```")
    ensures EndsWith(text, "```\n") ==>
      (EndsWith(text[..|text| - 1], "\n```") <==> EndsWith(text, "\n```\n"))
  {
    if EndsWith(text, "```") {
      assert text[|text| - 1] == "```"[2];
    }
    if EndsWith(text, "```\n") {
      assert text[|text| - 1..] == "\n";
      EndsWithConcat(text, "```", "\n");
      EndsWithConcat(text, "\n```", "\n");
      assert "```" + "\n" == "```\n" && "\n```" + "\n" == "\n```\n";
    }
  }

  /** The two substitutions applied to an answer that starts with a fence;
      any other answer is left alone. */
  function StripFences(text: string): (r: string)
    ensures !StartsWith(text, "```") ==> r == text
    ensures |r| <= |text|
  {
    if StartsWith(text, "```") then DropClosingFence(DropOpeningFence(text)) else text
  }

  lemma PrefixOf(p: string, rest: string)
    ensures StartsWith(p + rest, p) && (p + rest)[|p|..] == rest
  {
    assert (p + rest)[..|p|] == p;
  }

  lemma NotPrefix(s: string, p: string, i: nat)
    requires i < |p| && i < |s| && s[i] != p[i]
    ensures !StartsWith(s, p)
  {
  }

  lemma SuffixOf(rest: string, q: string)
    ensures EndsWith(rest + q, q) && (rest + q)[..|rest|] == rest
  {
    assert (rest + q)[|rest|..] == q;
  }

  /** A trailing newline and fence are removed, and only those. */
  lemma ClosingFence(body: string)
    ensures DropClosingFence(body + "\n```") == body
  {
    var text := body + "\n```";
    assert text[|text| - 1] == '`';
    SuffixOf(body + "\n", "```");
    assert text == (body + "\n") + "```";
    SuffixOf(body, "\n");
  }

  /** A block fenced as json gives back its body. */
  lemma FencedJson(body: string)
    ensures StripFences("```json\n" + body + "\n```") == body
  {
    var rest := body + "\n```";
    var text := "```json\n" + body + "\n```";
    assert text == "```" + ("json" + ("\n" + rest));
    PrefixOf("```", "json" + ("\n" + rest));
    PrefixOf("json", "\n" + rest);
    PrefixOf("\n", rest);
    assert DropOpeningFence(text) == rest;
    ClosingFence(body);
  }

  /** A plain fenced block gives back its body. */
  lemma FencedPlain(body: string)
    ensures StripFences("```\n" + body + "\n```") == body
  {
    var rest := body + "\n```";
    var text := "```\n" + body + "\n```";
    assert text == "```" + ("\n" + rest);
    PrefixOf("```", "\n" + rest);
    NotPrefix("\n" + rest, "json", 0);
    PrefixOf("\n", rest);
    assert DropOpeningFence(text) == rest;
    ClosingFence(body);
  }

  /** An answer cut off before its closing fence reaches the decoder as
      everything after the opening fence. */
  lemma UnclosedFence(body: string)
    requires !EndsWith(body, "```") && !EndsWith(body, "```\n")
    ensures StripFences("```json\n" + body) == body
  {
    PrefixOf("```json\n", body);
    assert StartsWith("```json\n" + body, "```");
  }

  /** The tag is matched in lower case only: an upper-case `JSON` tag stays
      in front of the body. */
  lemma UpperCaseTagKept(body: string)
    ensures StripFences("```JSON\n" + body + "\n```") == "JSON\n" + body
  {
    var rest := "JSON\n" + body + "\n```";
    var text := "```JSON\n" + body + "\n```";
    assert text == "```" + rest;
    PrefixOf("```", rest);
    NotPrefix(text, "```json", 3);
    NotPrefix(text, "```\n", 3);
    assert DropOpeningFence(text) == rest;
    ClosingFence("JSON\n" + body);
  }

  /** The answer text that is handed to the decoder. */
  function Cleaned(responseText: string): string {
    StripFences(Strip(responseText))
  }

  /** What `parse_classification_response` makes of the decoded answer
      (`None` when the decoder raised). A decode error or an iteration over
      a value that cannot be iterated gives `(["misc"], {})`; an answer that
      is not an object lets the `AttributeError` of `data.get` escape. The
      ids it returns are all normalised. */
  function Interpret(decoded: Option<Json>): (p: Parsed)
    ensures decoded.None? ==> p == ParseFailure
    ensures p.AttributeError? <==> decoded.Some? && !decoded.value.Obj?
    ensures p.Parsed? ==> forall i :: 0 <= i < |p.categories| ==> IsNormalized(p.categories[i])
  {
    match decoded
    case None => ParseFailure
    case Some(data) =>
      if !data.Obj? then AttributeError
      else
        var categories := Get(data.fields, "categories", Arr([Str(Misc)]));
        var newCategories := Get(data.fields, "new_categories", Obj(Empty()));
        match Elements(categories)
        case None => ParseFailure
        case Some(items) => Parsed(NormalizeAll(items), newCategories)
  }

  /** `parse_classification_response`, with the JSON decoder as a
      parameter that yields `None` on a decode error. */
  function ParseClassificationResponse(responseText: string, decode: string -> Option<Json>): Parsed {
    Interpret(decode(Cleaned(responseText)))
  }

  /** The fallbacks of an answer that decodes to an object: no
      `categories` gives `["misc"]`, an empty list gives `[]`, a value that
      cannot be iterated (`null`, a boolean or a number) gives
      `(["misc"], {})`, and a missing `new_categories` gives `{}`. */
  lemma ParseFallbacks(f: Dict<Json>)
    ensures var p := Interpret(Some(Obj(f)));
      && ("categories" !in f.items ==> p.Parsed? && p.categories == [Misc])
      && ("categories" in f.items && f.items["categories"] == Arr([]) ==> p.Parsed? && p.categories == [])
      && ("categories" in f.items && !Iterable(f.items["categories"]) ==> p == ParseFailure)
      && ("categories" in f.items && f.items["categories"].Arr? && "new_categories" !in f.items ==>
            p.Parsed? && p.newCategories == Obj(Empty()))
  {
    if "categories" !in f.items {
      assert NormalizeAll([Str(Misc)]) == NormalizeAll([]) + [Normalize(Misc)];
      assert Normalize(Misc) == Misc;
    }
  }

  /** The ordinary parse of an answer that decodes to an object whose
      `categories` can be iterated: the ids are the normalised truthy
      elements of `categories`, in order (as `NormalizeAllSingle` and
      `NormalizeAllAppend` fix them), and `new_categories` is passed
      through unchanged unless `categories` cannot be iterated (that
      `TypeError` gives `(["misc"], {})`, see `ParseFallbacks`). */
  lemma ParseKeepsAnswer(f: Dict<Json>)
    ensures "categories" in f.items && Iterable(f.items["categories"]) ==>
      Interpret(Some(Obj(f))) ==
        Parsed(NormalizeAll(Elements(f.items["categories"]).value), Get(f, "new_categories", Obj(Empty())))
    ensures "new_categories" in f.items && ("categories" in f.items ==> Iterable(f.items["categories"])) ==>
      Interpret(Some(Obj(f))) == Parsed(Interpret(Some(Obj(f))).categories, f.items["new_categories"])
  {
    var categories := Get(f, "categories", Arr([Str(Misc)]));
    assert Iterable(Arr([Str(Misc)]));
    assert "categories" in f.items ==> categories == f.items["categories"];
  }

  /** An answer wrapped in a json fence and surrounding white space is
      decoded from the body alone. */
  lemma FencedAnswerDecodesBody(left: string, body: string, right: string)
    requires AllSpace(left) && AllSpace(right)
    ensures Cleaned(left + ("```json\n" + body + "\n```") + right) == body
  {
    var t := "```json\n" + body + "\n```";
    assert t[0] == '`' && t[|t| - 1] == '`';
    StripPadded(left, t, right);
    FencedJson(body);
  }

  // ---------------------------------------------------------------------
  // New categories

  /** The proposed ids, normalised. */
  function NormalizedKeys(ks: seq<string>): (r: seq<string>)
    ensures |r| == |ks| && forall i :: 0 <= i < |ks| ==> r[i] == Normalize(ks[i])
  {
    seq(|ks|, i requires 0 <= i < |ks| => Normalize(ks[i]))
  }

  /** The values of a dict in key order. */
  function Values(d: Dict<Json>): (r: seq<Json>)
    ensures |r| == |d.keys| && forall i :: 0 <= i < |d.keys| ==> r[i] == d.items[d.keys[i]]
  {
    seq(|d.keys|, i requires 0 <= i < |d.keys| => d.items[d.keys[i]])
  }

  /** The dynamic map after every proposed category is saved in turn. */
  function WithNewCategories(dynamic: Dict<Json>, newCategories: Dict<Json>): Dict<Json> {
    SetAll(dynamic, NormalizedKeys(newCategories.keys), Values(newCategories))
  }

  /** Each proposed category is stored under its normalised id with its
      description unchanged (the last proposal wins when two ids normalise
      alike); the other dynamic categories are kept, and nothing else is
      added. */
  lemma NewCategoriesSaved(dynamic: Dict<Json>, newCategories: Dict<Json>)
    ensures var r := WithNewCategories(dynamic, newCategories);
      var ids := NormalizedKeys(newCategories.keys);
      && (forall k :: k in r.items <==> k in dynamic.items || k in ids)
      && (forall j :: 0 <= j < |ids| && LastOccurrence(ids, j) ==>
            r.items[Normalize(newCategories.keys[j])] == newCategories.items[newCategories.keys[j]])
      && (forall k :: k in dynamic.items && k !in ids ==> r.items[k] == dynamic.items[k])
  {
  }

  /** `for cat_id, desc in new_cats.items(): save_new_category(...)` */
  method SaveNewCategories(store: FileStore, newCategories: Dict<Json>)
    modifies store`categories
    ensures |newCategories.keys| == 0 ==> store.categories == old(store.categories)
    ensures |newCategories.keys| > 0 ==>
      store.categories == Some(WithNewCategories(old(store.categories).GetOr(Empty()), newCategories))
  {
    ghost var dynamic := store.categories.GetOr(Empty());
    var ks := newCategories.keys;
    ghost var ids := NormalizedKeys(ks);
    ghost var vs := Values(newCategories);
    var i := 0;
    while i < |ks|
      invariant 0 <= i <= |ks|
      invariant i == 0 ==> store.categories == old(store.categories)
      invariant i > 0 ==> store.categories == Some(SetAll(dynamic, ids[..i], vs[..i]))
    {
      ghost var before := SetAll(dynamic, ids[..i], vs[..i]);
      assert i == 0 ==> before == dynamic;
      var k := ks[i];
      SaveNewCategory(store, Normalize(k), newCategories.items[k]);
      assert store.categories == Some(Set(before, ids[i], vs[i]));
      SetAllSnoc(dynamic, ids, vs, i);
      i := i + 1;
    }
    TakeAll(ids);
    TakeAll(vs);
  }

  // ---------------------------------------------------------------------
  // The request loop

  /** What one request ends in: a response with its status and, for a 200,
      the content of the model's message; or a request exception. */
  datatype HttpOutcome = Response(status: int, content: string) | RequestException

  predicate IsOk(o: HttpOutcome) { o.Response? && o.status == 200 }

  predicate IsRateLimited(o: HttpOutcome) { o.Response? && o.status == 429 }

  /** The first `MaxRetries` requests, up to the first one answered with a
      200: the attempt that got it, if any, and for each failed attempt
      whether a pause followed it. A 429 is always followed by a pause;
      another failure only when it is not the last attempt. */
  method RequestLoop(respond: nat -> HttpOutcome)
    returns (okAt: Option<nat>, pausedAfter: seq<bool>)
    ensures okAt.Some? ==> okAt.value < MaxRetries && IsOk(respond(okAt.value))
    ensures okAt.Some? ==> |pausedAfter| == okAt.value
    ensures okAt.None? ==> |pausedAfter| == MaxRetries
    ensures forall a :: 0 <= a < |pausedAfter| ==> !IsOk(respond(a))
    ensures forall a :: 0 <= a < |pausedAfter| ==>
      (pausedAfter[a] <==> IsRateLimited(respond(a)) || a < MaxRetries - 1)
  {
    pausedAfter := [];
    var attempt := 0;
    while attempt < MaxRetries
      invariant 0 <= attempt <= MaxRetries
      invariant |pausedAfter| == attempt
      invariant forall a :: 0 <= a < attempt ==> !IsOk(respond(a))
      invariant forall a :: 0 <= a < attempt ==>
        (pausedAfter[a] <==> IsRateLimited(respond(a)) || a < MaxRetries - 1)
    {
      var outcome := respond(attempt);
      if outcome.Response? && outcome.status == 200 {
        return Some(attempt), pausedAfter;
      } else if outcome.Response? && outcome.status == 429 {
        pausedAfter := pausedAfter + [true];
      } else {
        pausedAfter := pausedAfter + [attempt < MaxRetries - 1];
      }
      attempt := attempt + 1;
    }
    return None, pausedAfter;
  }

  /** What `classify_tweet` returns, or the `AttributeError` it lets escape. */
  datatype Classified = Classified(categories: seq<string>) | Escaped

  /** The prompt for a tweet, given the dynamic categories file. */
  function PromptFor(dynamic: Option<Dict<Json>>, tweetText: string, author: string): string {
    BuildPrompt(AllCategories(dynamic.GetOr(Empty())), tweetText, author)
  }

  /** `build_classification_prompt`: the prompt over the categories loaded
      from the store. */
  method BuildClassificationPrompt(store: FileStore, tweetText: string, author: string) returns (prompt: string)
    ensures prompt == PromptFor(store.categories, tweetText, author)
  {
    var cats := LoadCategories(store);
    prompt := BuildPrompt(cats, tweetText, author);
  }

  /** What a 200 answer leads to: the escaping error when the answer is not
      an object or its new categories are not one, and the parsed ids
      otherwise. */
  function Outcome(p: Parsed): (r: Classified)
    ensures r.Escaped? <==> p.AttributeError? || !p.newCategories.Obj?
    ensures r.Classified? ==> r.categories == p.categories
  {
    if p.AttributeError? || !p.newCategories.Obj? then Escaped else Classified(p.categories)
  }

  /** How `classify_tweet` ends once it has a key and a prompt. At most
      `MaxRetries` requests are made, and every request before the last
      one failed. A 429 is always followed by a pause; another failure only
      when it is not the last attempt. Without a 200 the result is
      `["misc"]` and nothing is saved. With one, the answer is parsed, and
      unless the error escapes, its new categories are saved and its ids
      returned. */
  ghost predicate RequestsEndedAs(respond: nat -> HttpOutcome, decode: string -> Option<Json>,
                                  r: Classified, attempts: nat, pausedAfter: seq<bool>,
                                  before: Option<Dict<Json>>, after: Option<Dict<Json>>)
  {
    && 1 <= attempts <= MaxRetries
    && (forall a :: 0 <= a < |pausedAfter| ==> !IsOk(respond(a)))
    && (forall a :: 0 <= a < |pausedAfter| ==>
          (pausedAfter[a] <==> IsRateLimited(respond(a)) || a < MaxRetries - 1))
    && (!IsOk(respond(attempts - 1)) ==>
          && attempts == MaxRetries && |pausedAfter| == MaxRetries
          && r == Classified([Misc]) && after == before)
    && (IsOk(respond(attempts - 1)) ==>
          var p := ParseClassificationResponse(respond(attempts - 1).content, decode);
          && |pausedAfter| == attempts - 1
          && r == Outcome(p)
          && after ==
               if r.Classified? && |p.newCategories.fields.keys| > 0
               then Some(WithNewCategories(before.GetOr(Empty()), p.newCategories.fields))
               else before)
  }

  /** The request loop and the handling of its answer. */
  method RequestAndAccept(store: FileStore, respond: nat -> HttpOutcome, decode: string -> Option<Json>)
    returns (r: Classified, attempts: nat, pausedAfter: seq<bool>)
    modifies store`categories
    ensures RequestsEndedAs(respond, decode, r, attempts, pausedAfter, old(store.categories), store.categories)
  {
    var okAt;
    okAt, pausedAfter := RequestLoop(respond);
    if okAt.None? {
      assert !IsOk(respond(MaxRetries - 1));
      return Classified([Misc]), MaxRetries, pausedAfter;
    }
    attempts := okAt.value + 1;
    assert IsOk(respond(attempts - 1)) && |pausedAfter| == attempts - 1;
    var p := ParseClassificationResponse(respond(attempts - 1).content, decode);
    r := AcceptAnswer(store, p);
  }

  /** `classify_tweet`. Request number `a` ends in `respond(a)`; the
      decoder is `decode`. Besides the result it returns the prompt sent
      with every request, the number of requests made and, for each failed
      request, whether a pause of `RETRY_DELAY` followed it. Without an API
      key no request is made and the result is `["misc"]`. */
  method ClassifyTweet(store: FileStore, apiKey: string, tweetText: string, author: string,
                       respond: nat -> HttpOutcome, decode: string -> Option<Json>)
    returns (r: Classified, prompt: string, attempts: nat, pausedAfter: seq<bool>)
    modifies store`categories
    ensures apiKey == [] ==>
      r == Classified([Misc]) && attempts == 0 && pausedAfter == [] && store.categories == old(store.categories)
    ensures apiKey != [] ==> prompt == PromptFor(old(store.categories), tweetText, author)
    ensures apiKey != [] ==>
      RequestsEndedAs(respond, decode, r, attempts, pausedAfter, old(store.categories), store.categories)
  {
    if apiKey == [] {
      return Classified([Misc]), "", 0, [];
    }
    prompt := BuildClassificationPrompt(store, tweetText, author);
    r, attempts, pausedAfter := RequestAndAccept(store, respond, decode);
  }

  /** The handling of a 200 answer: the new categories are saved one by
      one and the parsed ids returned, unless the answer or its new
      categories are not objects, in which case the error escapes before
      anything is saved. */
  method AcceptAnswer(store: FileStore, p: Parsed) returns (r: Classified)
    modifies store`categories
    ensures r == Outcome(p)
    ensures store.categories ==
      if r.Classified? && |p.newCategories.fields.keys| > 0
      then Some(WithNewCategories(old(store.categories).GetOr(Empty()), p.newCategories.fields))
      else old(store.categories)
  {
    if p.AttributeError? || !p.newCategories.Obj? {
      return Escaped;
    }
    SaveNewCategories(store, p.newCategories.fields);
    return Classified(p.categories);
  }
}
