/**
 * The pure part of src/components/HashtagGenerator.tsx: the tag tables, the
 * keyword-to-tag pipeline, the candidate list, the random pick, and the two
 * list updates behind the saved sets.
 */
module HashtagTags {
  import opened Text
  import opened Seqs

  const CATEGORY_TAGS: map<string, seq<string>> := map[
    "technology" := [
      "#tech", "#coding", "#programming", "#developer", "#software", "#webdev",
      "#javascript", "#react", "#nodejs", "#typescript", "#github", "#opensource",
      "#100daysofcode", "#developerlife", "#codelife"],
    "lifestyle" := [
      "#lifestyle", "#life", "#motivation", "#inspiration", "#happy", "#love",
      "#mindfulness", "#wellness", "#selfcare", "#positivity", "#growth",
      "#personaldevelopment", "#mindset", "#happiness", "#gratitude"],
    "business" := [
      "#business", "#entrepreneur", "#success", "#marketing", "#startup",
      "#smallbusiness", "#entrepreneurship", "#businessowner", "#leadership",
      "#innovation", "#branding", "#businesstips", "#entrepreneurlife", "#startup",
      "#businessgrowth"],
    "education" := [
      "#education", "#learning", "#student", "#study", "#school", "#college",
      "#knowledge", "#teaching", "#onlinelearning", "#edtech", "#studentlife",
      "#learning", "#teacher", "#classroom", "#elearning"],
    "entertainment" := [
      "#entertainment", "#fun", "#music", "#movie", "#gaming", "#youtube",
      "#streaming", "#twitch", "#gamer", "#contentcreator", "#streamer",
      "#youtuber", "#creator", "#videogames", "#twitchstreamer"],
    "creative" := [
      "#creative", "#art", "#design", "#artist", "#creativity", "#illustration",
      "#digitalart", "#graphicdesign", "#drawing", "#artwork", "#creative",
      "#designer", "#artistsoninstagram", "#create", "#portfolio"]
  ]

  const TRENDING_TAGS: seq<string> := [
    "#viral", "#trending", "#explore", "#follow", "#share", "#community",
    "#growth", "#engagement", "#socialmedia", "#influence", "#reach"]

  /** Three of the category lists name one tag twice. */
  lemma CategoryListsRepeatTags()
    ensures "business" in CATEGORY_TAGS && CATEGORY_TAGS["business"][4] == CATEGORY_TAGS["business"][13] == "#startup"
    ensures "education" in CATEGORY_TAGS && CATEGORY_TAGS["education"][1] == CATEGORY_TAGS["education"][11] == "#learning"
    ensures "creative" in CATEGORY_TAGS && CATEGORY_TAGS["creative"][0] == CATEGORY_TAGS["creative"][10] == "#creative"
  {
  }

  /** The keyword separators of `/[\s,]+/`. */
  predicate IsKeywordSep(c: char)
  {
    IsJsSpace(c) || c == ','
  }

  predicate IsNonEmpty(word: string)
  {
    word != ""
  }

  /** The `word.length > 2` test, counting UTF-16 code units as JavaScript does. */
  function IsLongWord(word: string): (long: bool)
    ensures |word| > 2 ==> long
    ensures long ==> |word| >= 2
  {
    Utf16Length(word) > 2
  }

  /**
   * `s.split(/[\s,]+/)`: a run of separators splits once, so an empty piece
   * can only appear first (a leading run) or last (a trailing run).
   */
  function SplitOnRuns(s: string): (words: seq<string>)
    ensures |words| >= 1
  {
    var p := Pieces(s, IsKeywordSep);
    if |p| <= 2 then p else [p[0]] + Filter(p[1..|p| - 1], IsNonEmpty) + [p[|p| - 1]]
  }

  /** A piece holds characters of the input and never a separator. */
  lemma {:induction false} PiecesChars(s: string, sep: char -> bool)
    ensures forall w, c :: w in Pieces(s, sep) && c in w ==> c in s && !sep(c)
  {
    if s != [] {
      PiecesChars(s[1..], sep);
      var rest := Pieces(s[1..], sep);
      if !sep(s[0]) {
        assert forall c :: c in [s[0]] + rest[0] ==> c == s[0] || c in rest[0];
      }
    }
  }

  /** The long words after a run split are the long words after a one-character split. */
  lemma LongWordsOfSplit(s: string)
    ensures Filter(SplitOnRuns(s), IsLongWord) == Filter(Pieces(s, IsKeywordSep), IsLongWord)
  {
    var p := Pieces(s, IsKeywordSep);
    if |p| > 2 {
      var first, mid, last := [p[0]], p[1..|p| - 1], [p[|p| - 1]];
      assert p == first + mid + last;
      FilterConcat(first + Filter(mid, IsNonEmpty), last, IsLongWord);
      FilterConcat(first, Filter(mid, IsNonEmpty), IsLongWord);
      FilterConcat(first + mid, last, IsLongWord);
      FilterConcat(first, mid, IsLongWord);
      FilterAbsorbs(mid, IsNonEmpty, IsLongWord);
    }
  }

  /** `` `#${word.replace(/[^\w]/g, '')}` ``. */
  function TagOf(word: string): (tag: string)
    ensures |tag| >= 1 && tag[0] == '#'
    ensures forall i :: 1 <= i < |tag| ==> IsWordChar(tag[i])
    ensures IsSubsequence(tag[1..], word)
  {
    var kept := Filter(word, IsWordChar);
    FilterIsSubsequence(word, IsWordChar);
    assert ("#" + kept)[1..] == kept;
    "#" + kept
  }

  /**
   * Nothing of the word but its non-word characters is lost: after the `#`
   * every word character of the word appears as often as in the word, in
   * the word's order, and no other character appears.
   */
  lemma TagOfKeepsWordChars(word: string)
    ensures IsSubsequence(TagOf(word)[1..], word)
    ensures forall c :: multiset(TagOf(word)[1..])[c] == if IsWordChar(c) then multiset(word)[c] else 0
  {
    var kept := Filter(word, IsWordChar);
    FilterCounts(word, IsWordChar);
    assert TagOf(word)[1..] == kept;
  }

  function TagsOf(words: seq<string>): (tags: seq<string>)
    ensures |tags| == |words|
    ensures forall i :: 0 <= i < |words| ==> tags[i] == TagOf(words[i])
  {
    if words == [] then [] else [TagOf(words[0])] + TagsOf(words[1..])
  }

  /** The keyword tags: none for an empty keyword, else one per word longer than two characters. */
  function KeywordTags(keyword: string): (tags: seq<string>)
    ensures keyword == "" ==> tags == []
    ensures keyword != "" ==> |tags| == |Filter(Pieces(LowerAscii(keyword), IsKeywordSep), IsLongWord)|
  {
    LongWordsOfSplit(LowerAscii(keyword));
    if keyword == "" then [] else TagsOf(Filter(SplitOnRuns(LowerAscii(keyword)), IsLongWord))
  }

  predicate IsAsciiUpper(c: char)
  {
    'A' <= c <= 'Z'
  }

  lemma LowerAsciiHasNoUpper(s: string)
    ensures forall c :: c in LowerAscii(s) ==> !IsAsciiUpper(c)
  {
  }

  /** The characters after the `#` are the word characters of the word. */
  lemma TagOfChars(word: string)
    ensures forall i :: 1 <= i < |TagOf(word)| ==> TagOf(word)[i] in word
  {
    FilterMembership(word, IsWordChar);
    var kept := Filter(word, IsWordChar);
    assert forall i :: 1 <= i < |TagOf(word)| ==> TagOf(word)[i] == kept[i - 1];
  }

  /** A long word of the split is made of characters of the input, none a separator. */
  lemma LongWordChars(s: string, word: string)
    requires word in Filter(SplitOnRuns(s), IsLongWord)
    ensures IsLongWord(word) && |word| >= 2
    ensures forall c :: c in word ==> c in s && !IsKeywordSep(c)
    ensures word[0] in s
  {
    LongWordsOfSplit(s);
    FilterMembership(Pieces(s, IsKeywordSep), IsLongWord);
    PiecesChars(s, IsKeywordSep);
  }

  /**
   * Every keyword tag is `#` followed by lower-case word characters drawn
   * from the lower-cased keyword; an empty keyword gives no tags.
   * KeywordTagsKeepWordChars says which characters each tag keeps.
   */
  lemma KeywordTagsShape(keyword: string)
    ensures forall t :: t in KeywordTags(keyword) ==>
              |t| >= 1 && t[0] == '#' &&
              forall i :: 1 <= i < |t| ==> IsWordChar(t[i]) && !IsAsciiUpper(t[i]) && t[i] in LowerAscii(keyword)
  {
    if keyword != "" {
      forall t | t in KeywordTags(keyword)
        ensures forall i :: 1 <= i < |t| ==> !IsAsciiUpper(t[i]) && t[i] in LowerAscii(keyword)
      {
        KeywordTagChars(keyword, t);
      }
    }
  }

  /** The i-th keyword tag keeps exactly the word characters of the i-th long word, in order. */
  lemma KeywordTagsKeepWordChars(keyword: string)
    requires keyword != ""
    ensures var words := Filter(SplitOnRuns(LowerAscii(keyword)), IsLongWord);
      var tags := KeywordTags(keyword);
      && |tags| == |words|
      && forall k :: 0 <= k < |words| ==>
           && tags[k][0] == '#' && IsSubsequence(tags[k][1..], words[k])
           && forall c :: multiset(tags[k][1..])[c] == if IsWordChar(c) then multiset(words[k])[c] else 0
  {
    var words := Filter(SplitOnRuns(LowerAscii(keyword)), IsLongWord);
    var tags := KeywordTags(keyword);
    assert tags == TagsOf(words);
    forall k | 0 <= k < |words|
      ensures forall c :: multiset(tags[k][1..])[c] == if IsWordChar(c) then multiset(words[k])[c] else 0
    {
      TagOfKeepsWordChars(words[k]);
    }
  }

  lemma KeywordTagChars(keyword: string, t: string)
    requires keyword != "" && t in KeywordTags(keyword)
    ensures forall i :: 1 <= i < |t| ==> !IsAsciiUpper(t[i]) && t[i] in LowerAscii(keyword)
  {
    var lower := LowerAscii(keyword);
    var words := Filter(SplitOnRuns(lower), IsLongWord);
    LowerAsciiHasNoUpper(keyword);
    var k :| 0 <= k < |words| && t == TagOf(words[k]);
    LongWordChars(lower, words[k]);
    TagOfChars(words[k]);
  }

  /** A keyword made only of spaces and commas yields no tags. */
  lemma SeparatorsOnlyYieldNoTags(keyword: string)
    requires forall i :: 0 <= i < |keyword| ==> IsKeywordSep(keyword[i])
    ensures KeywordTags(keyword) == []
  {
    if keyword != "" {
      var lower := LowerAscii(keyword);
      assert forall c :: c in lower ==> IsKeywordSep(c);
      var words := Filter(SplitOnRuns(lower), IsLongWord);
      if words != [] {
        LongWordChars(lower, words[0]);
        assert false;
      }
    }
  }

  /**
   * `[...new Set([...keywordTags, ...baseTags, ...trendingSelection])]`:
   * keyword tags first, then the category's, then the trending ones if shown.
   */
  function Candidates(keyword: string, category: string, showTrending: bool): (tags: seq<string>)
    requires category in CATEGORY_TAGS
    ensures NoDuplicates(tags)
    ensures forall t :: t in tags <==>
              t in KeywordTags(keyword) || t in CATEGORY_TAGS[category] || (showTrending && t in TRENDING_TAGS)
  {
    Dedup(KeywordTags(keyword) + CATEGORY_TAGS[category] + (if showTrending then TRENDING_TAGS else []))
  }

  /** `#startup`, which the business list names twice, is offered once. */
  lemma StartupOfferedOnce(keyword: string, showTrending: bool)
    ensures var c := Candidates(keyword, "business", showTrending); "#startup" in c && multiset(c)["#startup"] == 1
  {
    var tags := CATEGORY_TAGS["business"];
    assert "#startup" in tags by {
      CategoryListsRepeatTags();
    }
    var c := Candidates(keyword, "business", showTrending);
    OfferedOnce(c, "#startup");
  }

  /** `#growth`, both a lifestyle and a trending tag, is offered once. */
  lemma GrowthOfferedOnce(keyword: string)
    ensures var c := Candidates(keyword, "lifestyle", true); "#growth" in c && multiset(c)["#growth"] == 1
  {
    assert "#growth" in TRENDING_TAGS by {
      assert TRENDING_TAGS[6] == "#growth";
    }
    var c := Candidates(keyword, "lifestyle", true);
    OfferedOnce(c, "#growth");
  }

  lemma OfferedOnce(c: seq<string>, t: string)
    requires NoDuplicates(c) && t in c
    ensures multiset(c)[t] == 1
  {
    NoDuplicatesCounts(c);
  }

  /** A worked keyword: commas and spaces split, short words drop, punctuation goes. */
  lemma KeywordTagsExample()
    ensures KeywordTags("Go, Rust!") == ["#rust"]
  {
    ExampleWords();
    ExampleTag();
    assert "Go, Rust!" != "" by {
      assert |"Go, Rust!"| == 9;
    }
  }

  lemma ExampleTag()
    ensures TagsOf(["rust!"]) == ["#rust"]
  {
    ExampleFilter();
    assert TagOf("rust!") == "#rust";
  }

  lemma ExampleFilter()
    ensures Filter("rust!", IsWordChar) == "rust"
  {
  }

  lemma ExampleWords()
    ensures Filter(SplitOnRuns(LowerAscii("Go, Rust!")), IsLongWord) == ["rust!"]
  {
    ExampleRuns();
    ExampleLongWords();
  }

  lemma ExampleRuns()
    ensures SplitOnRuns(LowerAscii("Go, Rust!")) == ["go", "rust!"]
  {
    ExamplePieces();
  }

  lemma ExampleLongWords()
    ensures Filter(["go", "rust!"], IsLongWord) == ["rust!"]
  {
    assert Utf16Length("go") == 2;
    assert Utf16Length("rust!") == 5;
    assert ["go", "rust!"][1..] == ["rust!"];
  }

  lemma ExamplePieces()
    ensures Pieces(LowerAscii("Go, Rust!"), IsKeywordSep) == ["go", "", "rust!"]
  {
    ExampleLower();
    ExampleSplit();
  }

  lemma ExampleSplit()
    ensures Pieces("go" + [','] + " rust!", IsKeywordSep) == ["go", "", "rust!"]
  {
    ExampleTail();
    assert !IsKeywordSep('g') && !IsKeywordSep('o');
    PiecesSplitAt("go", ',', " rust!", IsKeywordSep);
  }

  lemma ExampleLower()
    ensures LowerAscii("Go, Rust!") == "go" + [','] + " rust!"
  {
    var lower := LowerAscii("Go, Rust!");
    assert lower[0] == 'g' && lower[1] == 'o' && lower[2] == ',' && lower[3] == ' ';
    assert lower[4] == 'r' && lower[5] == 'u' && lower[6] == 's' && lower[7] == 't' && lower[8] == '!';
    assert lower == "go, rust!";
  }

  lemma ExampleTail()
    ensures Pieces(" rust!", IsKeywordSep) == ["", "rust!"]
  {
    PiecesSplitAt("", ' ', "rust!", IsKeywordSep);
    PiecesOfPlain("rust!", IsKeywordSep);
    assert "" + [' '] + "rust!" == " rust!";
  }

  /**
   * `length` counts UTF-16 code units: a letter and an emoji make a long
   * word, so it is kept, and only the letter survives into its tag.
   */
  lemma AstralWordIsLong()
    ensures |"a\U{1F600}"| == 2 && IsLongWord("a\U{1F600}")
    ensures KeywordTags("a\U{1F600}") == ["#a"]
  {
    AstralLength();
    AstralWords();
    AstralTag();
  }

  lemma AstralLength()
    ensures Utf16Length("a\U{1F600}") == 3
  {
    assert "a\U{1F600}"[1..] == "\U{1F600}";
    assert "\U{1F600}"[1..] == "";
  }

  lemma AstralWords()
    ensures Filter(SplitOnRuns(LowerAscii("a\U{1F600}")), IsLongWord) == ["a\U{1F600}"]
  {
    var w := "a\U{1F600}";
    AstralLength();
    assert LowerAscii(w) == w;
    PiecesOfPlain(w, IsKeywordSep);
    assert Filter([w], IsLongWord) == [w];
  }

  lemma AstralTag()
    ensures TagsOf(["a\U{1F600}"]) == ["#a"]
  {
    assert Filter("a\U{1F600}", IsWordChar) == "a";
    assert TagOf("a\U{1F600}") == "#a";
  }

  /** A word of punctuation alone is long enough to keep but leaves a bare `#`. */
  lemma PunctuationWordGivesBareHash()
    ensures KeywordTags("!?!") == ["#"]
  {
    assert LowerAscii("!?!") == "!?!";
    PiecesOfPlain("!?!", IsKeywordSep);
    assert Filter(["!?!"], IsLongWord) == ["!?!"];
    assert Filter("!?!", IsWordChar) == "";
    assert TagOf("!?!") == "#";
    assert TagsOf(["!?!"]) == ["#"];
  }

  /**
   * The shuffle and `slice(0, tagCount)`: no tag twice, every tag a
   * candidate, and as many as asked for when there are enough.
   */
  lemma PickedTags(candidates: seq<string>, tagCount: nat, choice: seq<nat>)
    requires NoDuplicates(candidates)
    ensures var picked := Take(Permute(candidates, choice), tagCount);
      && NoDuplicates(picked)
      && (forall t :: t in picked ==> t in candidates)
      && |picked| == if tagCount < |candidates| then tagCount else |candidates|
  {
    var shuffled := Permute(candidates, choice);
    PermuteIsReordering(candidates, choice);
    PermutationKeepsNoDuplicates(candidates, shuffled);
    forall t | t in Take(shuffled, tagCount)
      ensures t in candidates
    {
      assert t in multiset(shuffled);
    }
  }

  /** Every selection of distinct candidates, in any order, can come out of the pick. */
  lemma EveryOrderCanBePicked(candidates: seq<string>, order: seq<string>, tagCount: nat)
    requires multiset(order) == multiset(candidates)
    ensures exists choice :: Take(Permute(candidates, choice), tagCount) == Take(order, tagCount)
  {
    var choice := PermuteReachesAll(candidates, order);
    assert Take(Permute(candidates, choice), tagCount) == Take(order, tagCount);
  }

  /** `HashtagSet`: a saved selection. */
  datatype HashtagSet = HashtagSet(id: string, tags: seq<string>, timestamp: nat, category: string)

  const MAX_SAVED := 10

  /** `[newSet, ...prev].slice(0, 10)`: newest first, the oldest dropped beyond ten. */
  function PushSaved(sets: seq<HashtagSet>, newSet: HashtagSet): (r: seq<HashtagSet>)
    ensures |r| == if |sets| < MAX_SAVED then |sets| + 1 else MAX_SAVED
    ensures r[0] == newSet
    ensures r[1..] == sets[..|r| - 1]
  {
    Take([newSet] + sets, MAX_SAVED)
  }

  /** `prev.filter(set => set.id !== id)`. */
  function RemoveById(sets: seq<HashtagSet>, id: string): (r: seq<HashtagSet>)
    ensures forall i :: 0 <= i < |r| ==> r[i].id != id
  {
    Filter(sets, (s: HashtagSet) => s.id != id)
  }

  /** Deleting removes every set with that id, keeps every other set as often as it was there, and keeps the order. */
  lemma RemoveByIdKeepsOthers(sets: seq<HashtagSet>, id: string)
    ensures IsSubsequence(RemoveById(sets, id), sets)
    ensures forall s :: multiset(RemoveById(sets, id))[s] == if s.id != id then multiset(sets)[s] else 0
  {
    FilterIsSubsequence(sets, (s: HashtagSet) => s.id != id);
    FilterCounts(sets, (s: HashtagSet) => s.id != id);
  }
}
