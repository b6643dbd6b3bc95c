/**
 * The custom-course screen: a search over the pub catalog, a selection the
 * user adds pubs to and removes them from, and the course saved from it.
 */
module ManualCourse {
  import opened Wrappers
  import opened Seqs
  import opened Text
  import opened PubGolfContext
  import opened CourseMetadata

  /** `selected.find(s => s.id === id)` finds a pub. */
  predicate IsSelected(selected: seq<Pub>, id: int) {
    exists i :: 0 <= i < |selected| && selected[i].id == id
  }

  /** Case-insensitive (ASCII) substring match of the search term in the pub's name. */
  predicate NameMatches(pub: Pub, term: string) {
    Includes(Lower(pub.name), Lower(term))
  }

  function Searchable(selected: seq<Pub>, term: string): Pub -> bool {
    (p: Pub) => NameMatches(p, term) && !IsSelected(selected, p.id)
  }

  /** `filteredPubs`: the catalog pubs that match the term and are not yet selected. */
  function FilteredPubs(catalog: seq<Pub>, selected: seq<Pub>, term: string): seq<Pub> {
    Filter(catalog, Searchable(selected, term))
  }

  /** The search lists exactly the matching unselected catalog pubs, in catalog order. */
  lemma FilteredPubsExactly(catalog: seq<Pub>, selected: seq<Pub>, term: string)
    ensures var r := FilteredPubs(catalog, selected, term);
      && (forall i :: 0 <= i < |r| ==>
            r[i] in catalog && NameMatches(r[i], term) && !IsSelected(selected, r[i].id))
      && (forall i :: 0 <= i < |catalog| && NameMatches(catalog[i], term) && !IsSelected(selected, catalog[i].id)
            ==> catalog[i] in r)
      && IsSubsequence(r, catalog)
      && (forall p :: multiset(r)[p] ==
            if NameMatches(p, term) && !IsSelected(selected, p.id) then multiset(catalog)[p] else 0)
  {
    FilterIsSubsequence(catalog, Searchable(selected, term));
    forall p ensures multiset(FilteredPubs(catalog, selected, term))[p] ==
        if NameMatches(p, term) && !IsSelected(selected, p.id) then multiset(catalog)[p] else 0 {
      FilterCount(catalog, Searchable(selected, term), p);
    }
  }

  /** With an empty search and nothing selected, the whole catalog is listed. */
  lemma EmptySearchListsCatalog(catalog: seq<Pub>)
    ensures FilteredPubs(catalog, [], "") == catalog
  {
    forall p | p in catalog ensures Searchable([], "")(p) {
      IncludesEmpty(Lower(p.name));
    }
    FilterAllKept(catalog, Searchable([], ""));
  }

  function NotPub(id: int): Pub -> bool {
    (p: Pub) => p.id != id
  }

  /** The selection after `removePub(id)`. */
  function WithoutPub(selected: seq<Pub>, id: int): seq<Pub> {
    Filter(selected, NotPub(id))
  }

  /**
   * `removePub(id)` drops every pub with that id and keeps all others in
   * order; with an absent id it changes nothing, and a second call is a no-op.
   */
  lemma WithoutPubEffect(selected: seq<Pub>, id: int)
    ensures var r := WithoutPub(selected, id);
      && (forall i :: 0 <= i < |r| ==> r[i].id != id)
      && (forall i :: 0 <= i < |selected| && selected[i].id != id ==> selected[i] in r)
      && IsSubsequence(r, selected)
      && (forall p :: multiset(r)[p] == if p.id != id then multiset(selected)[p] else 0)
      && WithoutPub(r, id) == r
    ensures !IsSelected(selected, id) ==> WithoutPub(selected, id) == selected
  {
    forall p ensures multiset(WithoutPub(selected, id))[p] == if p.id != id then multiset(selected)[p] else 0 {
      FilterCount(selected, NotPub(id), p);
    }
    FilterIsSubsequence(selected, NotPub(id));
    FilterIdempotent(selected, NotPub(id));
    if !IsSelected(selected, id) {
      FilterAllKept(selected, NotPub(id));
    }
  }

  /** `Math.max(...pubs.map(p => p.distance))` for a non-empty list. */
  function MaxDistance(pubs: seq<Pub>): (d: int)
    requires |pubs| > 0
    ensures forall i :: 0 <= i < |pubs| ==> pubs[i].distance <= d
    ensures exists i :: 0 <= i < |pubs| && pubs[i].distance == d
  {
    if |pubs| == 1 then pubs[0].distance
    else
      var rest := MaxDistance(pubs[1..]);
      if pubs[0].distance < rest then rest else pubs[0].distance
  }

  /** The fewest pubs a saved course may have. */
  const MinPubs: int := 3

  /** What `saveCourse` hands to `createCourse`, or nothing when the guard fails. */
  function SavedDraft(name: string, selected: seq<Pub>): Option<CourseDraft> {
    if name != "" && |selected| >= MinPubs then
      var n := |selected|;
      Some(CourseDraft(name, n, MaxDistance(selected), Duration(n), Difficulty(n), BuiltCourseRating, selected))
    else None
  }

  /**
   * A course is saved iff it has a name and at least three pubs; it then has
   * one hole per selected pub, the selection in order, the largest selected
   * distance, 20 minutes per hole, the difficulty of its hole count and 4.0 stars.
   */
  lemma SavedDraftShape(name: string, selected: seq<Pub>)
    ensures SavedDraft(name, selected).Some? <==> name != "" && |selected| >= 3
    ensures SavedDraft(name, selected).Some? ==> var d := SavedDraft(name, selected).value;
      && d.name == name
      && d.holes == |d.pubs| == |selected| && d.pubs == selected
      && (forall i :: 0 <= i < |selected| ==> selected[i].distance <= d.distance)
      && (exists i :: 0 <= i < |selected| && selected[i].distance == d.distance)
      && d.duration == 20 * d.holes
      && (d.difficulty == "Easy" <==> d.holes <= 6)
      && (d.difficulty == "Medium" <==> 6 < d.holes <= 12)
      && (d.difficulty == "Hard" <==> 12 < d.holes)
      && d.rating == 40
  {
  }

  /** A saved course can be played to its end without running out of pubs. */
  lemma SavedCourseAlwaysHasPub(name: string, selected: seq<Pub>, id: int, players: seq<Player>, ops: seq<Op>)
    requires SavedDraft(name, selected).Some?
    ensures var slot := Run(Some(Started(SavedDraft(name, selected).value.WithId(id), players)), ops);
      slot.Some? ==> 0 <= slot.value.currentHole < |slot.value.course.pubs|
  {
    MatchedCourseAlwaysHasPub(SavedDraft(name, selected).value.WithId(id), players, ops);
  }

  /** The screen's state; the catalog and `createCourse` come from the shared container. */
  class ManualCourseScreen {
    const context: Store
    var courseName: string
    var selectedPubs: seq<Pub>
    var searchTerm: string

    constructor (context: Store)
      ensures this.context == context
      ensures courseName == "" && selectedPubs == [] && searchTerm == ""
    {
      this.context := context;
      courseName := "";
      selectedPubs := [];
      searchTerm := "";
    }

    /** The pubs the search currently lists. */
    function Listed(): seq<Pub>
      reads this, context
    {
      FilteredPubs(context.samplePubs, selectedPubs, searchTerm)
    }

    /**
     * `addPub`: the pub goes after the current selection, which is otherwise
     * unchanged, and the search no longer lists any pub with its id.
     */
    method AddPub(pub: Pub)
      modifies this
      ensures selectedPubs == old(selectedPubs) + [pub]
      ensures selectedPubs[..|old(selectedPubs)|] == old(selectedPubs)
      ensures courseName == old(courseName) && searchTerm == old(searchTerm)
      ensures forall i :: 0 <= i < |Listed()| ==> Listed()[i].id != pub.id
    {
      selectedPubs := selectedPubs + [pub];
      assert selectedPubs[..|old(selectedPubs)|] == old(selectedPubs);
      assert IsSelected(selectedPubs, pub.id) by {
        assert selectedPubs[|selectedPubs| - 1] == pub;
      }
    }

    method RemovePub(pubId: int)
      modifies this
      ensures selectedPubs == WithoutPub(old(selectedPubs), pubId)
      ensures courseName == old(courseName) && searchTerm == old(searchTerm)
    {
      selectedPubs := Filter(selectedPubs, NotPub(pubId));
    }

    /** `saveCourse`: creates the course when the guard holds and nothing otherwise. */
    method SaveCourse(id: int)
      modifies context
      ensures SavedDraft(courseName, selectedPubs).None? ==> context.courses == old(context.courses)
      ensures SavedDraft(courseName, selectedPubs).Some? ==>
        context.courses == old(context.courses) + [SavedDraft(courseName, selectedPubs).value.WithId(id)]
      ensures context.activeGame == old(context.activeGame) && context.players == old(context.players)
      ensures context.samplePubs == old(context.samplePubs)
    {
      var draft := SavedDraft(courseName, selectedPubs);
      if draft.Some? {
        context.CreateCourse(draft.value, id);
      }
    }
  }
}
