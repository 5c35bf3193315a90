/**
 * Stack Overflow's tag reference counts and its question search catalogue,
 * which indexes each question under its tag names, its author's name and the
 * lower-cased words of its title.
 */
module StackOverflow {
  import opened Text
  import opened Lists

  /** Tags are compared by identity, as objects without their own `equals`. */
  class Tag {
    const name: string

    constructor (name: string)
      ensures this.name == name
    {
      this.name := name;
    }
  }

  // ---------------------------------------------------------------------------
  // Tag counts

  /** The count stored for `tag`, or `absent` when there is none. */
  function CountOr(counts: map<Tag, int>, tag: Tag, absent: int): int {
    if tag in counts then counts[tag] else absent
  }

  /** Every stored count is at least one. */
  predicate Positive(counts: map<Tag, int>) {
    forall t | t in counts :: counts[t] >= 1
  }

  /** One more use of `tag`; an absent tag counts as zero. */
  function Incremented(counts: map<Tag, int>, tag: Tag): (r: map<Tag, int>)
    ensures tag in r && r[tag] == CountOr(counts, tag, 0) + 1
    ensures r - {tag} == counts - {tag}
  {
    counts[tag := CountOr(counts, tag, 0) + 1]
  }

  /** One use of `tag` less; a count that drops to zero or below is removed. */
  function Decremented(counts: map<Tag, int>, tag: Tag): (r: map<Tag, int>)
    ensures CountOr(counts, tag, 1) - 1 <= 0 ==> tag !in r
    ensures CountOr(counts, tag, 1) - 1 > 0 ==> tag in r && r[tag] == counts[tag] - 1
    ensures r - {tag} == counts - {tag}
  {
    var n := CountOr(counts, tag, 1) - 1;
    if n <= 0 then counts - {tag} else counts[tag := n]
  }

  /** Both updates keep every stored count positive; decrementing an absent tag keeps it absent. */
  lemma UpdatesKeepCountsPositive(counts: map<Tag, int>, tag: Tag)
    requires Positive(counts)
    ensures Positive(Incremented(counts, tag)) && Positive(Decremented(counts, tag))
    ensures tag !in counts ==> Decremented(counts, tag) == counts
  {
    if tag !in counts {
      assert Decremented(counts, tag) == counts - {tag};
    }
  }

  /** Counting a tag up and down again restores the previous counts. */
  lemma IncrementThenDecrementRestores(counts: map<Tag, int>, tag: Tag)
    requires Positive(counts)
    ensures Decremented(Incremented(counts, tag), tag) == counts
  {
    var up := Incremented(counts, tag);
    if tag in counts {
      assert Decremented(up, tag) == up[tag := counts[tag]];
    } else {
      assert Decremented(up, tag) == up - {tag};
    }
  }

  class TagList {
    var tagsCount: map<Tag, int>

    predicate Valid()
      reads this
    {
      Positive(tagsCount)
    }

    constructor ()
      ensures Valid() && tagsCount == map[]
    {
      tagsCount := map[];
    }

    method IncrementTagCount(tag: Tag)
      requires Valid()
      modifies this
      ensures Valid()
      ensures tagsCount == Incremented(old(tagsCount), tag)
    {
      UpdatesKeepCountsPositive(tagsCount, tag);
      tagsCount := tagsCount[tag := CountOr(tagsCount, tag, 0) + 1];
    }

    method DecrementTagCount(tag: Tag)
      requires Valid()
      modifies this
      ensures Valid()
      ensures tagsCount == Decremented(old(tagsCount), tag)
    {
      UpdatesKeepCountsPositive(tagsCount, tag);
      tagsCount := tagsCount[tag := CountOr(tagsCount, tag, 1) - 1];
      if tagsCount[tag] <= 0 {
        tagsCount := tagsCount - {tag};
      }
    }
  }

  // ---------------------------------------------------------------------------
  // The search catalogue

  class Question {
    const id: int
    var title: string
    /** The name of the user who asked. */
    var createdBy: string
    var tags: seq<Tag>

    constructor (id: int, title: string, createdBy: string)
      ensures this.id == id && this.title == title && this.createdBy == createdBy && tags == []
    {
      this.id := id;
      this.title := title;
      this.createdBy := createdBy;
      tags := [];
    }
  }

  function TagNames(tags: seq<Tag>): (names: seq<string>)
    ensures |names| == |tags| && forall i :: 0 <= i < |tags| ==> names[i] == tags[i].name
  {
    if tags == [] then [] else TagNames(tags[..|tags| - 1]) + [tags[|tags| - 1].name]
  }

  function LowerAll(words: seq<string>): (lower: seq<string>)
    ensures |lower| == |words| && forall i :: 0 <= i < |words| ==> lower[i] == ToLower(words[i])
  {
    if words == [] then [] else LowerAll(words[..|words| - 1]) + [ToLower(words[|words| - 1])]
  }

  /** The keys a title is indexed under: its whitespace-separated words, lower-cased. */
  function TitleKeys(title: string): seq<string> {
    LowerAll(SplitOnWhitespace(title))
  }

  lemma ToLowerIdempotent(s: string)
    ensures ToLower(ToLower(s)) == ToLower(s)
  {
  }

  predicate LowerKeys(m: map<string, seq<Question>>) {
    forall w | w in m :: ToLower(w) == w
  }

  class SearchCatalog {
    var questionsUsingTags: map<string, seq<Question>>
    var questionsUsingUsers: map<string, seq<Question>>
    var questionsUsingWords: map<string, seq<Question>>

    /** Every word the catalogue is keyed by is lower-case. */
    predicate Valid()
      reads this
    {
      LowerKeys(questionsUsingWords)
    }

    constructor ()
      ensures Valid()
      ensures questionsUsingTags == map[] && questionsUsingUsers == map[] && questionsUsingWords == map[]
    {
      questionsUsingTags, questionsUsingUsers, questionsUsingWords := map[], map[], map[];
    }

    function SearchByTags(tagName: string): seq<Question>
      reads this
    {
      Lookup(questionsUsingTags, tagName)
    }

    function SearchByUsers(username: string): seq<Question>
      reads this
    {
      Lookup(questionsUsingUsers, username)
    }

    /** The query is used as given, without lower-casing it. */
    function SearchByWords(word: string): seq<Question>
      reads this
    {
      Lookup(questionsUsingWords, word)
    }

    /** Files `question` under each of its tag names, its author's name and each lower-cased title word. */
    method IndexQuestion(question: Question)
      requires Valid()
      modifies this
      ensures Valid()
      ensures questionsUsingTags == AppendAll(old(questionsUsingTags), TagNames(question.tags), question)
      ensures questionsUsingUsers == AppendAt(old(questionsUsingUsers), question.createdBy, question)
      ensures questionsUsingWords == AppendAll(old(questionsUsingWords), TitleKeys(question.title), question)
    {
      var byTags := IndexTagNames(questionsUsingTags, question.tags, question);
      var byWords := IndexTitleWords(questionsUsingWords, question.title, question);
      questionsUsingTags := byTags;
      questionsUsingUsers := AppendAt(questionsUsingUsers, question.createdBy, question);
      questionsUsingWords := byWords;
    }
  }

  /** The tag loop of `IndexQuestion`: files `question` under each tag name. */
  method IndexTagNames(byTags: map<string, seq<Question>>, tags: seq<Tag>, question: Question)
    returns (r: map<string, seq<Question>>)
    ensures r == AppendAll(byTags, TagNames(tags), question)
  {
    var names := TagNames(tags);
    r := byTags;
    for i := 0 to |tags|
      invariant r == AppendAll(byTags, names[..i], question)
    {
      assert names[..i + 1][..i] == names[..i] && names[..i + 1][i] == tags[i].name;
      r := AppendAt(r, tags[i].name, question);
    }
    assert names[..|tags|] == names;
  }

  /** The title-word loop of `IndexQuestion`: files `question` under each lower-cased word. */
  method IndexTitleWords(byWords: map<string, seq<Question>>, title: string, question: Question)
    returns (r: map<string, seq<Question>>)
    ensures r == AppendAll(byWords, TitleKeys(title), question)
    ensures LowerKeys(byWords) ==> LowerKeys(r)
  {
    var words := SplitOnWhitespace(title);
    var keys := TitleKeys(title);
    r := byWords;
    for i := 0 to |words|
      invariant r == AppendAll(byWords, keys[..i], question)
      invariant LowerKeys(byWords) ==> LowerKeys(r)
    {
      assert keys[..i + 1][..i] == keys[..i];
      ToLowerIdempotent(words[i]);
      r := AppendAt(r, ToLower(words[i]), question);
    }
    assert keys[..|words|] == keys;
  }

  /**
   * After indexing, each tag name, the author's name and each lower-cased
   * title word find the question at the end of their list, once per
   * occurrence, and every other key finds what it found before.
   */
  lemma IndexedQuestionIsFound(tags: map<string, seq<Question>>, words: map<string, seq<Question>>, q: Question, key: string)
    ensures Lookup(AppendAll(tags, TagNames(q.tags), q), key) == Lookup(tags, key) + Repeat(q, Occurrences(TagNames(q.tags), key))
    ensures Lookup(AppendAll(words, TitleKeys(q.title), q), key) == Lookup(words, key) + Repeat(q, Occurrences(TitleKeys(q.title), key))
    ensures key !in TitleKeys(q.title) ==> Lookup(AppendAll(words, TitleKeys(q.title), q), key) == Lookup(words, key)
  {
    AppendAllLookup(tags, TagNames(q.tags), q, key);
    AppendAllLookup(words, TitleKeys(q.title), q, key);
  }

  /** Since every stored word is lower-case, a query with an upper-case letter never finds anything. */
  lemma MixedCaseWordNeverMatches(catalog: SearchCatalog, word: string)
    requires catalog.Valid() && ToLower(word) != word
    ensures catalog.SearchByWords(word) == []
  {
  }

  /** A title word in any letter case is found through its lower-case form. */
  lemma {:induction false} TitleWordsAreFound(words: map<string, seq<Question>>, q: Question, w: string)
    requires w in SplitOnWhitespace(q.title)
    ensures q in Lookup(AppendAll(words, TitleKeys(q.title), q), ToLower(w))
  {
    var keys := TitleKeys(q.title);
    var i :| 0 <= i < |SplitOnWhitespace(q.title)| && SplitOnWhitespace(q.title)[i] == w;
    assert keys[i] == ToLower(w);
    AppendAllLookup(words, keys, q, ToLower(w));
    var n := Occurrences(keys, ToLower(w));
    assert n > 0;
    assert Repeat(q, n)[0] == q;
    assert Lookup(AppendAll(words, keys, q), ToLower(w))[|Lookup(words, ToLower(w))|] == q;
  }
}
