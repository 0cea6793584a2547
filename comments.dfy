/** The `processedComments` set (server.js:653-661, 906-911): every comment id the bot has
    answered, so that a comment delivered twice is answered once, emptied by an hourly
    sweep once it holds more than `MAX_PROCESSED_COMMENTS` ids. */
module Comments {

  /** `MAX_PROCESSED_COMMENTS`. */
  const MaxProcessedComments := 1000

  /** The dedup decision as a value: whether the id is new, and the ids seen after it. */
  datatype Admission = Admission(isNew: bool, seen: set<string>)

  /** `processedComments.has(id)`, then `add(id)` when it was absent. */
  function Admit(seen: set<string>, id: string): (r: Admission)
    ensures r.isNew <==> id !in seen
    ensures !r.isNew ==> r.seen == seen
    ensures id in r.seen && seen <= r.seen && r.seen - seen <= {id}
  {
    if id in seen then Admission(false, seen) else Admission(true, seen + {id})
  }

  /** A comment delivered twice in a row is answered the first time only, and the second
      delivery leaves the set as the first one left it. */
  lemma RedeliveryIsDropped(seen: set<string>, id: string)
    ensures var first := Admit(seen, id);
      var second := Admit(first.seen, id);
      !second.isNew && second.seen == first.seen
  {
  }

  /** The comments answered out of a run of deliveries with no sweep in between, in
      delivery order: each id is answered the first time it arrives, if it was not
      already seen. */
  function AnsweredIds(seen: set<string>, ids: seq<string>): (r: seq<string>)
    ensures forall x :: x in r <==> x in ids && x !in seen
    ensures forall i, j :: 0 <= i < j < |r| ==> r[i] != r[j]
    decreases ids
  {
    if ids == [] then []
    else
      var a := Admit(seen, ids[0]);
      var rest := AnsweredIds(a.seen, ids[1..]);
      assert forall x :: x in ids <==> x == ids[0] || x in ids[1..];
      if a.isNew then [ids[0]] + rest else rest
  }

  /** The hourly sweep: the set is emptied only when it holds more than the maximum. */
  function Sweep(seen: set<string>): (r: set<string>)
    ensures |seen| > MaxProcessedComments ==> r == {}
    ensures |seen| <= MaxProcessedComments ==> r == seen
  {
    if |seen| > MaxProcessedComments then {} else seen
  }

  /** After a sweep the set holds at most the maximum number of ids. */
  lemma SweepBoundsSize(seen: set<string>)
    ensures |Sweep(seen)| <= MaxProcessedComments
  {
  }

  /** The set of answered comment ids, updated in place. */
  class CommentLog {
    var processed: set<string>

    constructor ()
      ensures processed == {}
    {
      processed := {};
    }

    /** The duplicate check of the comment handler: a seen id changes nothing; a new one
        is recorded before the comment is answered. */
    method Check(commentId: string) returns (isNew: bool)
      modifies this
      ensures Admit(old(processed), commentId) == Admission(isNew, processed)
    {
      if commentId in processed {
        return false;
      }
      processed := processed + {commentId};
      isNew := true;
    }

    /** The `setInterval` callback: clears the set when it holds more than the maximum. */
    method PeriodicReset()
      modifies this
      ensures processed == Sweep(old(processed))
    {
      if |processed| > MaxProcessedComments {
        processed := {};
      }
    }
  }
}
