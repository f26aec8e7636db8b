/** Parent-exclusive self-times of nested scopes. */
module ProfileSessions {

  type Elapsed = ms: real | ms >= 0.0 witness 0.0

  /** One run of a scope, as it went: the time spent in it and in scopes nested in it, until it returns or throws. */
  datatype Span = Span(id: string, steps: seq<Step>, throws: bool)
  datatype Step = Work(ms: Elapsed) | Nested(span: Span)

  datatype Sample = Sample(id: string, selfMs: real)

  /** The wall-clock time of a scope, nested ones included. */
  function Duration(span: Span): Elapsed
    decreases span, 1
  {
    StepsTake(span, |span.steps|)
  }

  function StepsTake(span: Span, n: nat): Elapsed
    requires n <= |span.steps|
    decreases span, 0, n
  {
    if n == 0 then 0.0
    else StepsTake(span, n - 1) + match span.steps[n - 1] case Work(ms) => ms case Nested(t) => Duration(t)
  }

  /** The time a scope spends outside the scopes nested in it. */
  function Own(span: Span, n: nat): Elapsed
    requires n <= |span.steps|
  {
    if n == 0 then 0.0 else Own(span, n - 1) + match span.steps[n - 1] case Work(ms) => ms case Nested(_) => 0.0
  }

  /** The time of the scopes nested directly in it. */
  function Children(span: Span, n: nat): Elapsed
    requires n <= |span.steps|
  {
    if n == 0 then 0.0
    else Children(span, n - 1) + match span.steps[n - 1] case Work(_) => 0.0 case Nested(t) => Duration(t)
  }

  /** What is recorded while `span` runs: one sample per scope, as each ends. */
  function Samples(span: Span): seq<Sample>
    decreases span, 1
  {
    StepSamples(span, |span.steps|) + [Sample(span.id, Own(span, |span.steps|))]
  }

  function StepSamples(span: Span, n: nat): seq<Sample>
    requires n <= |span.steps|
    decreases span, 0, n
  {
    if n == 0 then []
    else
      match span.steps[n - 1]
      case Work(_) => StepSamples(span, n - 1)
      case Nested(t) => StepSamples(span, n - 1) + Samples(t)
  }

  function Total(samples: seq<Sample>): real {
    if samples == [] then 0.0 else Total(samples[..|samples| - 1]) + samples[|samples| - 1].selfMs
  }

  lemma {:induction false} TotalConcat(a: seq<Sample>, b: seq<Sample>)
    ensures Total(a + b) == Total(a) + Total(b)
  {
    if b == [] {
      assert a + b == a;
    } else {
      assert (a + b)[..|a + b| - 1] == a + b[..|b| - 1];
      TotalConcat(a, b[..|b| - 1]);
    }
  }

  /** A scope's duration is its own time and its direct children's. */
  lemma {:induction false} OwnAndChildren(span: Span, n: nat)
    requires n <= |span.steps|
    ensures StepsTake(span, n) == Own(span, n) + Children(span, n)
  {
    if n > 0 {
      OwnAndChildren(span, n - 1);
    }
  }

  /** The self-times recorded below a scope, its own included, add up to its duration. */
  lemma {:induction false} SelfTimesAddUp(span: Span)
    ensures Total(Samples(span)) == Duration(span)
    decreases span, 1
  {
    var n := |span.steps|;
    ChildrenAddUp(span, n);
    OwnAndChildren(span, n);
    var own := Sample(span.id, Own(span, n));
    TotalConcat(StepSamples(span, n), [own]);
    assert [own][..0] == [] && Total([own]) == own.selfMs;
  }

  lemma {:induction false} ChildrenAddUp(span: Span, n: nat)
    requires n <= |span.steps|
    ensures Total(StepSamples(span, n)) == Children(span, n)
    decreases span, 0, n
  {
    if n > 0 {
      ChildrenAddUp(span, n - 1);
      match span.steps[n - 1]
      case Work(_) =>
      case Nested(t) =>
        SelfTimesAddUp(t);
        TotalConcat(StepSamples(span, n - 1), Samples(t));
    }
  }

  type Entries = map<string, seq<real>>

  function Filed(entries: Entries, sample: Sample): Entries {
    entries[sample.id := (if sample.id in entries then entries[sample.id] else []) + [sample.selfMs]]
  }

  function FiledAll(entries: Entries, samples: seq<Sample>): Entries {
    if samples == [] then entries else Filed(FiledAll(entries, samples[..|samples| - 1]), samples[|samples| - 1])
  }

  lemma {:induction false} FiledConcat(entries: Entries, a: seq<Sample>, b: seq<Sample>)
    ensures FiledAll(entries, a + b) == FiledAll(FiledAll(entries, a), b)
  {
    if b == [] {
      assert a + b == a;
    } else {
      assert (a + b)[..|a + b| - 1] == a + b[..|b| - 1];
      FiledConcat(entries, a, b[..|b| - 1]);
    }
  }

  lemma FiledOne(entries: Entries, samples: seq<Sample>, sample: Sample)
    ensures FiledAll(entries, samples + [sample]) == Filed(FiledAll(entries, samples), sample)
  {
    assert (samples + [sample])[..|samples|] == samples;
  }

  /** What is left of a scope's duration is its own time, which is filed last. */
  lemma ScopeEnds(span: Span, entries: Entries)
    ensures var n := |span.steps|;
            && Duration(span) - Children(span, n) == Own(span, n) >= 0.0
            && Filed(FiledAll(entries, StepSamples(span, n)), Sample(span.id, Own(span, n)))
              == FiledAll(entries, Samples(span))
  {
    var n := |span.steps|;
    OwnAndChildren(span, n);
    FiledOne(entries, StepSamples(span, n), Sample(span.id, Own(span, n)));
  }

  class ProfileScopeFrame {
    const id: string
    const start: real
    var childMs: real

    constructor (id: string, start: real)
      ensures this.id == id && this.start == start && childMs == 0.0
    {
      this.id, this.start, childMs := id, start, 0.0;
    }
  }

  /** The last place of `frame` on the stack, -1 when it is not there. */
  function LastIndexOf(stack: seq<ProfileScopeFrame>, frame: ProfileScopeFrame): (i: int)
    ensures -1 <= i < |stack| && (i >= 0 ==> stack[i] == frame)
    ensures forall j | i < j < |stack| :: stack[j] != frame
  {
    if stack == [] then -1
    else if stack[|stack| - 1] == frame then |stack| - 1
    else LastIndexOf(stack[..|stack| - 1], frame)
  }

  class ProfileSession {
    /** The reading of the session's stopwatch. */
    var elapsedMs: real
    var stack: seq<ProfileScopeFrame>
    var entries: Entries

    constructor ()
      ensures elapsedMs == 0.0 && stack == [] && entries == map[]
    {
      elapsedMs, stack, entries := 0.0, [], map[];
    }

    /** Ends a scope: charges its duration to the frame below it, and files its self-time, never a negative one. */
    method CloseFrame(frame: ProfileScopeFrame)
      modifies this`stack, this`entries, stack
      ensures var (index, duration) := (LastIndexOf(old(stack), frame), elapsedMs - frame.start);
              && stack == (if index >= 0 then old(stack)[..index] + old(stack)[index + 1..] else old(stack))
              && (forall f | f in old(stack) && !(index > 0 && f == old(stack)[index - 1]) ::
                f.childMs == old(f.childMs))
              && (index > 0 ==> old(stack)[index - 1].childMs == old(stack[index - 1].childMs) + duration)
              && (index >= 0 && index == |old(stack)| - 1 ==> stack == old(stack)[..index])
              && entries
                == Filed(old(entries),
                  Sample(frame.id, if duration - frame.childMs > 0.0 then duration - frame.childMs else 0.0))
    {
      var index := LastIndexOf(stack, frame);
      if index >= 0 {
        stack := stack[..index] + stack[index + 1..];
      }
      var duration := elapsedMs - frame.start;
      if index > 0 {
        var parent := stack[index - 1];
        parent.childMs := parent.childMs + duration;
      }
      var selfMs := if duration - frame.childMs > 0.0 then duration - frame.childMs else 0.0;
      entries := entries[frame.id := (if frame.id in entries then entries[frame.id] else []) + [selfMs]];
    }

    /**
     * Runs a scope. Its self-time is the time it spends outside nested scopes, which the clamp leaves as it is, and the
     * stack is left as it was, the frame below charged with the scope's duration, whether the scope throws or not.
     */
    method Scope(span: Span) returns (threw: bool)
      modifies this, stack
      ensures threw == span.throws && stack == old(stack) && elapsedMs == old(elapsedMs) + Duration(span)
      ensures entries == FiledAll(old(entries), Samples(span))
      ensures forall f | f in stack && f != stack[|stack| - 1] :: f.childMs == old(f.childMs)
      ensures stack != [] ==> stack[|stack| - 1].childMs == old(stack[|stack| - 1].childMs) + Duration(span)
      decreases span, 1
    {
      var frame := new ProfileScopeFrame(span.id, elapsedMs);
      stack := stack + [frame];
      RunSteps(span, frame);
      ScopeEnds(span, old(entries));
      assert elapsedMs - frame.start == Duration(span);
      assert LastIndexOf(stack, frame) == |old(stack)| && stack[..|old(stack)|] == old(stack);
      CloseFrame(frame);
      threw := span.throws;
    }

    /** What the scope runs: its nested scopes charge `frame`, on top of the stack. */
    method RunSteps(span: Span, frame: ProfileScopeFrame)
      requires stack != [] && stack[|stack| - 1] == frame && frame.childMs == 0.0
      modifies this, stack
      ensures stack == old(stack) && elapsedMs == old(elapsedMs) + StepsTake(span, |span.steps|)
      ensures frame.childMs == Children(span, |span.steps|)
      ensures entries == FiledAll(old(entries), StepSamples(span, |span.steps|))
      ensures forall f | f in stack && f != frame :: f.childMs == old(f.childMs)
      decreases span, 0
    {
      for i := 0 to |span.steps|
        invariant stack == old(stack)
        invariant elapsedMs == old(elapsedMs) + StepsTake(span, i) && frame.childMs == Children(span, i)
        invariant entries == FiledAll(old(entries), StepSamples(span, i))
        invariant forall f | f in stack && f != frame :: f.childMs == old(f.childMs)
      {
        match span.steps[i] {
          case Work(ms) => elapsedMs := elapsedMs + ms;
          case Nested(t) =>
            FiledConcat(old(entries), StepSamples(span, i), Samples(t));
            var inner := Scope(t);
        }
      }
    }
  }
}
