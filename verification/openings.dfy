/** The opens of documents a session has under way, counted by generation. */
module Openings {

  /** A client id and the canonical key of a document. */
  datatype Key = Key(client: string, uri: string)

  /** One generation: the opens of one session and document begun since it last closed it. */
  class Opening {
    ghost const key: Key
    const wasOpen: bool
    const wasWatched: bool
    var pending: nat
    var answered: bool
    /** Whether each settled open of the generation answered. */
    ghost var settled: seq<bool>

    constructor (ghost key: Key, wasOpen: bool, wasWatched: bool)
      ensures this.key == key && this.wasOpen == wasOpen && this.wasWatched == wasWatched
      ensures pending == 0 && !answered && settled == []
    {
      this.wasOpen, this.wasWatched, pending, answered := wasOpen, wasWatched, 0, false;
      this.key, settled := key, [];
    }
  }

  /** An open or create under way: its place in the count, and the generation it belongs to. */
  datatype Call = Call(id: nat, key: Key, opening: Opening)

  /** What settling an open asks of the session: to close the document, and to drop its watch. */
  datatype Undo = Undo(close: bool, unwatch: bool)

  /** The calls of one generation. */
  ghost function Of(calls: set<Call>, opening: Opening): set<Call> {
    set c | c in calls && c.opening == opening
  }

  lemma OfWith(calls: set<Call>, call: Call, generations: set<Opening>)
    requires call !in calls
    ensures |Of(calls + {call}, call.opening)| == |Of(calls, call.opening)| + 1
    ensures forall o | o in generations && o != call.opening :: Of(calls + {call}, o) == Of(calls, o)
  {
    assert Of(calls + {call}, call.opening) == Of(calls, call.opening) + {call};
  }

  class OpenTracker {
    var openings: map<Key, Opening>
    /** How many calls ever began, which tells them apart. */
    var begun: nat
    ghost var unsettled: set<Call>
    /** Every generation there ever was. */
    ghost var generations: set<Opening>

    /**
     * Each generation under way counts exactly its unsettled opens, and knows whether one of the settled ones answered.
     */
    ghost predicate Counts(opening: Opening)
      reads this, opening
    {
      opening.pending == |Of(unsettled, opening)| && (opening.answered <==> true in opening.settled)
    }

    ghost predicate Valid()
      reads this, generations
    {
      && (forall o | o in generations :: Counts(o))
      && (forall key | key in openings ::
        openings[key] in generations && openings[key].key == key && openings[key].pending > 0)
      && (forall c | c in unsettled :: c.id < begun && c.opening in generations && c.opening.key == c.key)
    }

    /** Whether a close ended the opens of this call's generation. */
    predicate Ended(call: Call)
      reads this
    {
      !(call.key in openings && openings[call.key] == call.opening)
    }

    /** Opens that a close ended stay ended: no later generation takes their place. */
    twostate predicate StayEnded()
      reads this
    {
      forall c | c in old(unsettled) && old(Ended(c)) :: Ended(c)
    }

    constructor ()
      ensures Valid() && openings == map[] && unsettled == {} && generations == {} && begun == 0
    {
      openings, unsettled, generations, begun := map[], {}, {}, 0;
    }

    /** The generation under way, or a new one that nothing was begun in yet. */
    method OpeningOf(key: Key, isOpen: bool, isWatched: bool) returns (opening: Opening)
      requires Valid()
      modifies this`generations
      ensures Valid() && generations == old(generations) + {opening} && opening.key == key
      ensures key in openings ==> opening == openings[key]
      ensures key !in openings ==>
                && fresh(opening) && (forall c | c in unsettled :: c.opening != opening)
                && opening.settled == [] && opening.wasOpen == isOpen && opening.wasWatched == isWatched
    {
      if key in openings {
        opening := openings[key];
      } else {
        opening := new Opening(key, isOpen, isWatched);
        assert Of(unsettled, opening) == {};
        generations := generations + {opening};
      }
    }

    /** An open or create begins: in the generation under way, or as the first of a new one. */
    method Begin(client: string, uri: string, isOpen: bool, isWatched: bool) returns (call: Call)
      requires Valid()
      modifies this, if Key(client, uri) in openings then {openings[Key(client, uri)]} else {}
      ensures Valid() && StayEnded()
      ensures call == Call(old(begun), Key(client, uri), call.opening) && begun == old(begun) + 1
      ensures unsettled == old(unsettled) + {call} && call !in old(unsettled)
      ensures openings == old(openings)[call.key := call.opening] && !Ended(call)
      ensures generations == old(generations) + {call.opening}
      ensures call.key in old(openings) ==>
                call.opening == old(openings)[call.key]
                  && call.opening.settled == old(openings[Key(client, uri)].settled)
      ensures call.key !in old(openings) ==>
                && fresh(call.opening) && call.opening.settled == []
                && call.opening.wasOpen == isOpen && call.opening.wasWatched == isWatched
    {
      var key := Key(client, uri);
      var opening := OpeningOf(key, isOpen, isWatched);
      call := Join(key, opening);
    }

    /** A call begins in a generation: the one under way, or one that no call was begun in yet. */
    method Join(key: Key, opening: Opening) returns (call: Call)
      requires Valid() && opening in generations && opening.key == key
      requires if key in openings then opening == openings[key] else forall c | c in unsettled :: c.opening != opening
      modifies this`openings, this`unsettled, this`begun, opening`pending
      ensures Valid() && StayEnded()
      ensures call == Call(old(begun), key, opening) && begun == old(begun) + 1
      ensures unsettled == old(unsettled) + {call} && call !in old(unsettled)
      ensures openings == old(openings)[key := opening] && !Ended(call)
    {
      openings := openings[key := opening];
      opening.pending := opening.pending + 1;
      call := Call(begun, key, opening);
      OfWith(unsettled, call, generations);
      unsettled, begun := unsettled + {call}, begun + 1;
    }

    /**
     * An open settles. It is undone only as the last of a generation no close ended, when none of the generation
     * answered and the session neither held the document before it nor lost it since.
     */
    method Settle(call: Call, answered: bool, isOpen: bool) returns (undo: Undo)
      requires Valid() && call in unsettled
      modifies this`openings, this`unsettled, call.opening
      ensures Valid() && StayEnded()
      ensures unsettled == old(unsettled) - {call}
      ensures call.opening.settled == old(call.opening.settled) + [answered]
      ensures var last := !old(Ended(call)) && Of(unsettled, call.opening) == {};
              && openings == (if last then old(openings) - {call.key} else old(openings))
              && (undo.close <==> last && true !in call.opening.settled && !call.opening.wasOpen && isOpen)
              && (undo.unwatch <==> undo.close && !call.opening.wasWatched)
    {
      var opening := call.opening;
      OfWith(unsettled - {call}, call, generations);
      assert unsettled - {call} + {call} == unsettled;
      opening.answered := opening.answered || answered;
      opening.settled := opening.settled + [answered];
      opening.pending := opening.pending - 1;
      unsettled := unsettled - {call};
      undo := Undo(false, false);
      if opening.pending == 0 && call.key in openings && openings[call.key] == opening {
        openings := openings - {call.key};
        if !opening.answered && !opening.wasOpen && isOpen {
          undo := Undo(true, !opening.wasWatched);
        }
      }
    }

    /** A close, the caller's or a deletion's, ends the opens of the document under way; their count is left to them. */
    method Close(client: string, uri: string)
      requires Valid()
      modifies this`openings
      ensures Valid() && StayEnded()
      ensures openings == old(openings) - {Key(client, uri)}
      ensures forall c | c in unsettled && c.key == Key(client, uri) :: Ended(c)
    {
      openings := openings - {Key(client, uri)};
    }
  }
}
