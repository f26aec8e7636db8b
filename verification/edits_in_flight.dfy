/** Counting the edits a client sent that the server has not got past yet. */
module EditsInFlight {

  /** A promise settled from outside. */
  class Deferred {
    var resolved: bool

    constructor ()
      ensures !resolved
    {
      resolved := false;
    }
  }

  /** An edit in flight, and the number of its settle request. */
  datatype Sent = Sent(settle: nat, edit: Deferred)

  class PendingWorkTracker {
    var pending: set<Deferred>

    constructor ()
      ensures pending == {}
    {
      pending := {};
    }

    method Track(work: Deferred)
      modifies this
      ensures pending == old(pending) + {work}
    {
      pending := pending + {work};
    }

    /** What runs once `work` settled. */
    method Forget(work: Deferred)
      requires work.resolved
      modifies this
      ensures pending == old(pending) - {work}
    {
      pending := pending - {work};
    }
  }

  /** A dispatcher, and the server it sends to: one that handles in order, and whose answers may be lost. */
  class ActionDispatcher {
    const pendingEdits: PendingWorkTracker
    /** The edits in flight, in send order. */
    var editsBySettle: seq<Sent>
    var settlesSent: nat
    /** Every edit ever counted. */
    ghost var sends: seq<Sent>
    /** The server's side: how many settle requests it handled, and those of them whose answer is under way. */
    var handled: nat
    var answers: set<nat>
    /** The highest settle request answered or rejected so far. */
    ghost var highest: nat

    ghost function Edits(): set<Deferred>
      reads this
    {
      set s | s in sends :: s.edit
    }

    ghost predicate Valid()
      reads this, pendingEdits, Edits()
    {
      // The edits held are those above the highest settle request answered, in ascending order.
      && settlesSent == |sends| && highest <= handled <= settlesSent
      && editsBySettle == sends[highest..]
      && (forall k | 0 <= k < |sends| :: sends[k].settle == k + 1)
      && (forall j, k | 0 <= j < k < |sends| :: sends[j].edit != sends[k].edit)
      && (forall a | a in answers :: 1 <= a <= handled)
      // Just the edits up to that one settled, and the others are pending.
      && (forall k | 0 <= k < highest :: sends[k].edit.resolved)
      && (forall s | s in editsBySettle :: !s.edit.resolved && s.edit in pendingEdits.pending)
      && pendingEdits.pending <= Edits()
    }

    /** Whether the server got past `edit`: it handled the settle request that followed it. */
    ghost predicate GotPast(edit: Deferred)
      reads this
    {
      exists k :: 0 <= k < |sends| && sends[k].edit == edit && sends[k].settle <= handled
    }

    /** An edit leaves the count only once the server got past it. */
    lemma OnlyPastEditsLeave(edit: Deferred)
      requires Valid() && edit in Edits() && edit !in pendingEdits.pending
      ensures GotPast(edit)
    {
      forall k | highest <= k < |sends| ensures sends[k] in editsBySettle {
        assert editsBySettle[k - highest] == sends[k];
      }
      var k :| 0 <= k < |sends| && sends[k].edit == edit;
    }

    constructor ()
      ensures Valid() && sends == [] && fresh(pendingEdits)
    {
      pendingEdits := new PendingWorkTracker();
      editsBySettle, settlesSent, sends, handled, answers, highest := [], 0, [], 0, {}, 0;
    }

    method EditsInFlight() returns (count: nat)
      requires Valid()
      ensures count == |pendingEdits.pending|
      ensures forall s | s in editsBySettle :: s.edit in pendingEdits.pending
    {
      count := |pendingEdits.pending|;
    }

    /**
     * Counts an edit and sends its settle request, unless edits are not tracked, or it is none, or the server's, or
     * sent before.
     */
    method TrackEdit(tracks: bool, fromServer: bool, isEdit: bool, redispatched: bool, serverSettles: bool)
      requires Valid()
      modifies this`editsBySettle, this`settlesSent, this`sends, pendingEdits
      ensures Valid()
      ensures if tracks && !fromServer && isEdit && !redispatched && serverSettles
              then && |sends| == |old(sends)| + 1 && sends[..|old(sends)|] == old(sends)
                && fresh(sends[|old(sends)|].edit)
                   && pendingEdits.pending == old(pendingEdits.pending) + {sends[|old(sends)|].edit}
              else sends == old(sends) && pendingEdits.pending == old(pendingEdits.pending)
    {
      if !tracks || fromServer || !isEdit || redispatched || !serverSettles {
        return;
      }
      settlesSent := settlesSent + 1;
      var edit := new Deferred();
      editsBySettle := editsBySettle + [Sent(settlesSent, edit)];
      sends := sends + [Sent(settlesSent, edit)];
      pendingEdits.Track(edit);
    }

    /** Ends every edit up to the `settle`th, and no other, though the loop stops at the first one above it. */
    method EndEditsThrough(settle: nat)
      requires Valid() && settle <= handled
      modifies this`editsBySettle, this`highest, Edits()
      ensures Valid() && highest == if settle > old(highest) then settle else old(highest)
    {
      while editsBySettle != []
        invariant Valid() && old(highest) <= highest && (highest <= settle || highest == old(highest))
        decreases |editsBySettle|
      {
        var sent := editsBySettle[0];
        if sent.settle > settle {
          break;
        }
        EndFirst();
      }
    }

    /** Ends the edit sent first of those in flight. */
    method EndFirst()
      requires Valid() && highest < handled
      modifies this`editsBySettle, this`highest, Edits()
      ensures Valid() && highest == old(highest) + 1
    {
      var first := editsBySettle[0].edit;
      first.resolved := true;
      editsBySettle, highest := editsBySettle[1..], highest + 1;
    }

    /** The server handles the next settle request, and with it all edits before, and answers or rejects it. */
    method ServerHandles()
      requires Valid() && handled < settlesSent
      modifies this`handled, this`answers
      ensures Valid() && handled == old(handled) + 1
    {
      handled := handled + 1;
      answers := answers + {handled};
    }

    method LoseAnswer(settle: nat)
      requires Valid()
      modifies this`answers
      ensures Valid() && answers == old(answers) - {settle}
    {
      answers := answers - {settle};
    }

    /** The answer or rejection of a settle request arrives, in whatever order. */
    method Answered(settle: nat)
      requires Valid() && settle in answers
      modifies this`answers, this`highest, this`editsBySettle, Edits()
      ensures Valid() && highest == if settle > old(highest) then settle else old(highest)
      ensures answers == old(answers) - {settle}
    {
      answers := answers - {settle};
      EndEditsThrough(settle);
    }

    /** A settled edit leaves the count. */
    method Settle(edit: Deferred)
      requires Valid() && edit.resolved
      modifies pendingEdits
      ensures Valid() && pendingEdits.pending == old(pendingEdits.pending) - {edit}
    {
      pendingEdits.Forget(edit);
    }

    /** Anything that can happen while a caller waits. */
    method Step()
      requires Valid()
      modifies this`editsBySettle, this`settlesSent, this`sends, this`handled, this`answers, this`highest, Edits(),
        pendingEdits
      ensures Valid() && old(sends) <= sends && old(handled) <= handled
      ensures forall k | |old(sends)| <= k < |sends| :: fresh(sends[k].edit)
      ensures forall e | e in old(Edits()) && old(e.resolved) :: e.resolved
    {
      var tracks: bool, handles: bool, answered: bool := *, *, *;
      if tracks {
        var fromServer: bool, isEdit: bool, redispatched: bool, serverSettles: bool := *, *, *, *;
        TrackEdit(tracks, fromServer, isEdit, redispatched, serverSettles);
      } else if handles {
        if handled < settlesSent {
          ServerHandles();
        }
      } else if answered {
        if settle :| settle in answers {
          var arrives: bool := *;
          if arrives {
            Answered(settle);
          } else {
            LoseAnswer(settle);
          }
        }
      } else if edit :| edit in pendingEdits.pending && edit.resolved {
        Settle(edit);
      }
    }

    /** Waits for the edits in flight now, up to a bound; `true` only when the server got past each of them. */
    method WhenEditsSettled() returns (settled: bool)
      requires Valid()
      modifies this`editsBySettle, this`settlesSent, this`sends, this`handled, this`answers, this`highest, Edits(),
        pendingEdits
      ensures Valid()
      ensures old(pendingEdits.pending) == {} ==> settled
      ensures settled ==> forall e | e in old(pendingEdits.pending) :: GotPast(e)
    {
      var waiting := pendingEdits.pending;
      if waiting == {} {
        return true;
      }
      var bound: nat := *;
      while bound > 0
        invariant Valid() && old(sends) <= sends
        invariant forall k | |old(sends)| <= k < |sends| :: fresh(sends[k].edit)
        decreases bound
      {
        if forall e | e in waiting :: e.resolved {
          return true;
        }
        Step();
        bound := bound - 1;
      }
      settled := false;
    }
  }
}
