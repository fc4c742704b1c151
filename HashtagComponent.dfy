/**
 * The state of the hashtag generator component of
 * src/components/HashtagGenerator.tsx and the four handlers that change it.
 * Each `useState` slot is a field; a handler's setter calls become field
 * updates. The clock readings (`Date.now()`) and the shuffle's random
 * outcome are parameters, and the set list read from local storage is the constructor's.
 */
module HashtagComponent {
  import opened Text
  import opened Seqs
  import opened HashtagTags

  class HashtagGenerator {
    var keyword: string
    var category: string
    var generatedTags: seq<string>
    var savedSets: seq<HashtagSet>
    var showTrending: bool
    var tagCount: nat

    /**
     * The saved list holds at most `MAX_SAVED` sets. The list loaded from
     * storage is not trimmed, so this is not a class invariant: saving
     * establishes it and deleting keeps it.
     */
    predicate WithinSavedLimit()
      reads this
    {
      |savedSets| <= MAX_SAVED
    }

    /** The initial state; `stored` is the list found in local storage, or empty. */
    constructor (stored: seq<HashtagSet>)
      ensures keyword == "" && category == "technology" && generatedTags == []
      ensures savedSets == stored && !showTrending && tagCount == 10
    {
      keyword, category, generatedTags := "", "technology", [];
      savedSets, showTrending, tagCount := stored, false, 10;
    }

    /**
     * `generateHashtags`: the candidates in a shuffled order (`choice` fixes
     * the shuffle), cut to `tagCount`. A category outside the table makes the
     * handler throw before it sets anything, so nothing changes.
     */
    method GenerateHashtags(choice: seq<nat>)
      modifies this
      ensures keyword == old(keyword) && category == old(category) && savedSets == old(savedSets)
      ensures showTrending == old(showTrending) && tagCount == old(tagCount)
      ensures category !in CATEGORY_TAGS ==> generatedTags == old(generatedTags)
      ensures category in CATEGORY_TAGS ==>
        var candidates := Candidates(keyword, category, showTrending);
        && generatedTags == Take(Permute(candidates, choice), tagCount)
        && NoDuplicates(generatedTags)
        && (forall t :: t in generatedTags ==> t in candidates)
        && |generatedTags| == if tagCount < |candidates| then tagCount else |candidates|
    {
      if category !in CATEGORY_TAGS {
        return;
      }
      var candidates := Candidates(keyword, category, showTrending);
      PickedTags(candidates, tagCount, choice);
      generatedTags := Take(Permute(candidates, choice), tagCount);
    }

    /**
     * `saveHashtagSet`: with no tags nothing happens; otherwise a new set
     * goes first and the list is cut to `MAX_SAVED`. The handler reads the
     * clock twice: `idNow` is the reading whose decimal digits become the
     * id, `stampNow` the later one stored as the timestamp; they may differ.
     */
    method SaveHashtagSet(idNow: nat, stampNow: nat)
      modifies this
      ensures keyword == old(keyword) && category == old(category) && generatedTags == old(generatedTags)
      ensures showTrending == old(showTrending) && tagCount == old(tagCount)
      ensures generatedTags == [] ==> savedSets == old(savedSets)
      ensures generatedTags != [] ==>
        && savedSets == PushSaved(old(savedSets), HashtagSet(NatToString(idNow), generatedTags, stampNow, category))
        && WithinSavedLimit()
        && savedSets[0].tags == generatedTags && savedSets[0].category == category
        && savedSets[0].id == NatToString(idNow) && savedSets[0].timestamp == stampNow
        && savedSets[1..] == old(savedSets)[..|savedSets| - 1]
    {
      if |generatedTags| == 0 {
        return;
      }
      var newSet := HashtagSet(NatToString(idNow), generatedTags, stampNow, category);
      savedSets := PushSaved(savedSets, newSet);
    }

    /** `deleteSavedSet(id)`: every set with that id goes, the rest stay in order. */
    method DeleteSavedSet(id: string)
      modifies this
      ensures keyword == old(keyword) && category == old(category) && generatedTags == old(generatedTags)
      ensures showTrending == old(showTrending) && tagCount == old(tagCount)
      ensures savedSets == RemoveById(old(savedSets), id)
      ensures forall s :: s in savedSets ==> s.id != id
      ensures forall s :: s in old(savedSets) && s.id != id ==> s in savedSets
      ensures IsSubsequence(savedSets, old(savedSets))
      ensures old(WithinSavedLimit()) ==> WithinSavedLimit()
    {
      RemoveByIdKeepsOthers(savedSets, id);
      savedSets := RemoveById(savedSets, id);
    }

    /** `loadSavedSet(set)`: shows the set's tags under its category and changes nothing else. */
    method LoadSavedSet(saved: HashtagSet)
      modifies this
      ensures generatedTags == saved.tags && category == saved.category
      ensures keyword == old(keyword) && savedSets == old(savedSets)
      ensures showTrending == old(showTrending) && tagCount == old(tagCount)
    {
      generatedTags := saved.tags;
      category := saved.category;
    }
  }
}
