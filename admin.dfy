/** The admin page's per-row "Remove" button on the user scores table: it
    deletes every score of that user in that category and reopens the
    category for the user, so they may attempt it again. */
module Admin {
  import opened Common
  import opened Scores
  import opened Completion

  /** The text a missing userId attribute reads as once written into the table. */
  const UndefinedText := "undefined"

  /** Removes the (userId, category) scores and the matching completion mark;
      refuses when either attribute is empty. The confirmation dialog is taken
      as accepted. Returns whether anything was attempted. */
  method RemoveUserScore(scores: ScoreStore, tracker: CompletionTracker, userId: string, category: string)
    returns (done: bool)
    modifies scores, tracker
    ensures done <==> userId != "" && category != ""
    ensures !done ==> scores.entries == old(scores.entries) && tracker.done == old(tracker.done)
    ensures done ==> scores.entries == Filter(old(scores.entries), NotScoreOf(userId, category))
    ensures done && userId != UndefinedText ==>
              tracker.done == Unmarked(old(tracker.done), userId, category) &&
              !Has(tracker.done, userId, category)
    ensures done && userId == UndefinedText ==> tracker.done == old(tracker.done)
    ensures forall e :: e in scores.entries ==> e in old(scores.entries)
    ensures done ==> forall e :: e in scores.entries ==> !(e.userId == userId && e.category == category)
  {
    if userId == "" || category == "" {
      return false;
    }
    scores.RemoveScore(userId, category);
    if userId != UndefinedText {
      tracker.RemoveCompletedCategory(userId, category);
    }
    done := true;
  }
}
