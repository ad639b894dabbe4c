/** The completion tracker: for each user, the categories they have attempted.
    A category is recorded when a session for it starts, and the quiz refuses
    to start it again ("one attempt only"); the admin's score removal reopens it. */
module Completion {
  import opened Common

  type Completed = map<string, seq<string>>

  /** hasCompletedCategory. */
  predicate Has(done: Completed, userId: string, category: string): (b: bool)
    ensures b <==> userId in done && exists i :: 0 <= i < |done[userId]| && done[userId][i] == category
  {
    userId in done && category in done[userId]
  }

  /** getCompletedCategories: the user's list, or the empty list. */
  function CategoriesOf(done: Completed, userId: string): (r: seq<string>)
    ensures forall c :: c in r <==> Has(done, userId, c)
  {
    if userId in done then done[userId] else []
  }

  /** Every user's list is free of duplicates. */
  predicate NoDuplicates(done: Completed) {
    forall u :: u in done ==> NoDup(done[u])
  }

  /** markCategoryCompleted: append the category to the user's list unless it is already there. */
  function Marked(done: Completed, userId: string, category: string): (r: Completed)
    ensures Has(r, userId, category)
    ensures r.Keys == done.Keys + {userId}
    ensures forall u :: u in done && u != userId ==> r[u] == done[u]
    ensures forall c :: Has(r, userId, c) <==> Has(done, userId, c) || c == category
  {
    var list := CategoriesOf(done, userId);
    if category in list then done else done[userId := list + [category]]
  }

  /** The removeCompletedCategory test: keep every category but this one. */
  function Other(category: string): (p: string -> bool)
    ensures !p(category) && forall c :: c != category ==> p(c)
  {
    (c: string) => c != category
  }

  /** removeCompletedCategory: drop the category from the user's list, if the user has one. */
  function Unmarked(done: Completed, userId: string, category: string): (r: Completed)
    ensures !Has(r, userId, category)
    ensures r.Keys == done.Keys
    ensures forall u :: u in done && u != userId ==> r[u] == done[u]
    ensures forall c :: c != category ==> (Has(r, userId, c) <==> Has(done, userId, c))
  {
    if userId in done then done[userId := Filter(done[userId], Other(category))] else done
  }

  /** Marking twice is marking once. */
  lemma MarkedIdempotent(done: Completed, userId: string, category: string)
    ensures Marked(Marked(done, userId, category), userId, category) == Marked(done, userId, category)
  {
  }

  /** Marking never introduces a duplicate. */
  lemma MarkedNoDuplicates(done: Completed, userId: string, category: string)
    requires NoDuplicates(done)
    ensures NoDuplicates(Marked(done, userId, category))
  {
    var list := CategoriesOf(done, userId);
    if category !in list {
      var l := list + [category];
      forall i, j | 0 <= i < j < |l| ensures l[i] != l[j] {
        if j == |list| {
          assert l[i] == list[i] && list[i] in list;
        } else {
          assert l[i] == list[i] && l[j] == list[j];
        }
      }
    }
  }

  /** Unmarking never introduces a duplicate. */
  lemma UnmarkedNoDuplicates(done: Completed, userId: string, category: string)
    requires NoDuplicates(done)
    ensures NoDuplicates(Unmarked(done, userId, category))
  {
    if userId in done {
      FilterNoDup(done[userId], Other(category));
    }
  }

  /** Unmarking reopens exactly the marked category: on a duplicate-free list it
      undoes a mark that added something. */
  lemma UnmarkUndoesMark(done: Completed, userId: string, category: string)
    requires userId in done && !Has(done, userId, category)
    ensures Unmarked(Marked(done, userId, category), userId, category) == done
  {
    var list := done[userId];
    var p := Other(category);
    FilterConcat(list, [category], p);
    forall x | x in list ensures p(x) {
    }
    FilterKeepsAll(list, p);
    assert Filter([category], p) == [];
    assert Filter(list + [category], p) == list;
    assert done[userId := list] == done;
  }

  /** The stored completion document, changed in place by the two operations. */
  class CompletionTracker {
    var done: Completed

    constructor (stored: Completed)
      ensures done == stored
    {
      done := stored;
    }

    method MarkCategoryCompleted(userId: string, category: string)
      modifies this
      ensures done == Marked(old(done), userId, category)
      ensures NoDuplicates(old(done)) ==> NoDuplicates(done)
    {
      if NoDuplicates(done) {
        MarkedNoDuplicates(done, userId, category);
      }
      var list := if userId in done then done[userId] else [];
      if category !in list {
        done := done[userId := list + [category]];
      }
    }

    method RemoveCompletedCategory(userId: string, category: string)
      modifies this
      ensures done == Unmarked(old(done), userId, category)
      ensures NoDuplicates(old(done)) ==> NoDuplicates(done)
    {
      if NoDuplicates(done) {
        UnmarkedNoDuplicates(done, userId, category);
      }
      if userId in done {
        done := done[userId := Filter(done[userId], Other(category))];
      }
    }
  }
}
