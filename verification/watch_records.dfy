/** What a data-server connection knows of the documents its clients watch, and the events it sends them. */
module WatchRecords {
  import opened Options

  type Client = string
  type Uri = string

  /** A state of a document: the digest of what is sent of it, and its version. */
  datatype Stamp = Stamp(fingerprint: string, version: nat)

  datatype Reason = Changed | Rebuilt
  datatype Source = Author(client: Client) | Unknown | Release

  /**
   * A watch record: who watches the document, the state last sent or found by a first watch, whether the store released
   * it with no build since, and the open version the last update was built at.
   */
  datatype Entry = Entry(watchers: set<Client>, baseline: Option<Stamp>, released: bool, sentVersion: Option<nat>)

  /** What was sent, in order; `Ended` stands between where documents lost their last watcher. */
  datatype Event =
    | Updated(uri: Uri, stamp: Stamp, watched: bool, reason: Reason, source: Source, sequence: nat)
    | Deleted(uri: Uri, from: Source, sequence: nat)
    | Dirty(uri: Uri, sequence: nat)
    | Ended(uris: set<Uri>)

  /** `keys` is the key each client's watch of each spelling of a document is under. */
  datatype State = State(entries: map<Uri, Entry>, keys: map<Client, map<string, Uri>>, sequence: nat,
    trace: seq<Event>)

  /**
   * A build's document, `None` once it is gone; the version of its text, and the one it was opened at, while it is
   * open.
   */
  datatype Build = Build(document: Option<Stamp>, openVersion: Option<nat>, openedVersion: Option<nat>, reason: Reason,
    source: Source)

  /**
   * `uri` is the key that `spelling` has at that moment; `given` is the state the caller holds, `current` the server's.
   */
  datatype Step =
    | Watch(client: Client, spelling: string, uri: Uri, given: Option<Stamp>, current: Option<Stamp>)
    | Unwatch(client: Client, spelling: string, uri: Uri)
    | DropWatches(client: Client)
    | MarkRelease(uri: Uri)
    | Delete(uri: Uri, from: Source)
    | FlipDirty(uri: Uri)
    | Phase(uri: Uri, build: Build)
    | Dispose

  const UNWATCHED := Entry({}, None, false, None)

  function EntryAt(s: State, uri: Uri): Entry {
    if uri in s.entries then s.entries[uri] else UNWATCHED
  }

  function KeysOf(s: State, client: Client): map<string, Uri> {
    if client in s.keys then s.keys[client] else map[]
  }

  /**
   * `entries` without what `uri` no longer needs: the baseline once no one watches it, and all of it without a mark.
   */
  function Pruned(entries: map<Uri, Entry>, uri: Uri): map<Uri, Entry> {
    if uri !in entries || entries[uri].watchers != {} then entries
    else if entries[uri].released then entries[uri := entries[uri].(baseline := None)]
    else entries - {uri}
  }

  function Watched(s: State, client: Client, spelling: string, uri: Uri, given: Option<Stamp>,
          current: Option<Stamp>): State
  {
    s.(keys := s.keys[client := KeysOf(s, client)[spelling := uri]],
       entries := s.entries[uri := Joined(EntryAt(s, uri), client, Or(given, current))])
  }

  function Joined(e: Entry, client: Client, found: Option<Stamp>): Entry {
    e.(watchers := e.watchers + {client}, baseline := Or(e.baseline, found))
  }

  /** The key that `spelling` is watched under, or else has now. */
  function KeyOf(s: State, client: Client, spelling: string, uri: Uri): Uri {
    if spelling in KeysOf(s, client) then KeysOf(s, client)[spelling] else uri
  }

  function WithoutWatcher(s: State, client: Client, uri: Uri): State {
    if uri !in s.entries || client !in s.entries[uri].watchers then s
    else
      var e := s.entries[uri].(watchers := s.entries[uri].watchers - {client});
      s.(entries := Pruned(s.entries[uri := e], uri),
        trace := if e.watchers == {} then s.trace + [Ended({uri})] else s.trace)
  }

  function Unwatched(s: State, client: Client, spelling: string, uri: Uri): State {
    var key := KeyOf(s, client, spelling, uri);
    WithoutWatcher(s.(keys := Forgotten(s.keys, client, key)), client, key)
  }

  /** `keys` without every spelling under which `client` watched `key`. */
  function Forgotten(keys: map<Client, map<string, Uri>>, client: Client, key: Uri): map<Client, map<string, Uri>> {
    if client !in keys then keys
    else
      var left := OtherKeys(keys[client], key, {});
      if left == map[] then keys - {client} else keys[client := left]
  }

  function OtherKeys(keys: map<string, Uri>, key: Uri, unseen: set<string>): map<string, Uri> {
    map sp | sp in keys && (sp in unseen || keys[sp] != key) :: keys[sp]
  }

  /** The documents of which `client` is the only watcher. */
  function OnlyWatched(entries: map<Uri, Entry>, client: Client): set<Uri> {
    set u | u in entries && entries[u].watchers == {client}
  }

  /** What is left of an entry once `client` no longer watches. */
  function Left(e: Entry, client: Client): Option<Entry> {
    if e.watchers != {client} then Some(e.(watchers := e.watchers - {client}))
    else if e.released then Some(e.(watchers := {}, baseline := None))
    else None
  }

  /** The entries once `client` watches none but those of `todo`. */
  function DroppedBut(entries: map<Uri, Entry>, client: Client, todo: set<Uri>): map<Uri, Entry> {
    map u | u in entries && (u in todo || Left(entries[u], client).Some?) ::
      if u in todo then entries[u] else Left(entries[u], client).value
  }

  /** Dropping the watch of one more document. */
  lemma DropOne(entries: map<Uri, Entry>, client: Client, todo: set<Uri>, uri: Uri)
    requires uri in todo && uri in entries
    ensures var (e, before) := (entries[uri], DroppedBut(entries, client, todo));
            && uri in before && before[uri] == e
            && DroppedBut(entries, client, todo - {uri})
               == if client in e.watchers then Pruned(before[uri := e.(watchers := e.watchers - {client})], uri)
                  else before
  {
    var e := entries[uri];
    assert client !in e.watchers ==> e.watchers - {client} == e.watchers;
    assert client in e.watchers && e.watchers != {client} ==> e.watchers - {client} != {} by {
      if client in e.watchers && e.watchers - {client} == {} {
        assert e.watchers == {client};
      }
    }
  }

  function Dropped(s: State, client: Client): State {
    var lone := OnlyWatched(s.entries, client);
    s.(keys := s.keys - {client}, entries := DroppedBut(s.entries, client, {}),
       trace := if lone == {} then s.trace else s.trace + [Ended(lone)])
  }

  function Marked(s: State, uri: Uri): State {
    s.(entries := s.entries[uri := EntryAt(s, uri).(released := true)])
  }

  /** `entries` with nothing known of `uri` but who watches it. */
  function Cleared(entries: map<Uri, Entry>, uri: Uri): map<Uri, Entry> {
    if uri in entries then Pruned(entries[uri := UNWATCHED.(watchers := entries[uri].watchers)], uri) else entries
  }

  function AfterDelete(s: State, uri: Uri, from: Source): State {
    s.(entries := Cleared(s.entries, uri), sequence := s.sequence + 1, trace := s.trace
      + [Deleted(uri, from, s.sequence + 1)])
  }

  function AfterDirty(s: State, uri: Uri): State {
    if EntryAt(s, uri).watchers == {} then s
    else s.(sequence := s.sequence + 1, trace := s.trace + [Dirty(uri, s.sequence + 1)])
  }

  /** Whether a build of `uri` may be sent: someone watches it, or it was released. */
  predicate Served(s: State, uri: Uri) {
    EntryAt(s, uri).watchers != {} || EntryAt(s, uri).released
  }

  /** Whether a build goes out: it may, its document is there, and it is not the state last sent. */
  predicate Sends(s: State, uri: Uri, build: Build) {
    Served(s, uri) && build.document.Some? && EntryAt(s, uri).baseline != build.document
  }

  /** The update a build goes out as: the release's own, or, for a version sent before, a rebuild of no one's. */
  function UpdateOf(e: Entry, uri: Uri, build: Build, sequence: nat): Event
    requires build.document.Some?
  {
    var again := build.openVersion.Some? && e.sentVersion == build.openVersion;
    var ofRelease := e.released
      && (build.openedVersion.None? || build.document.value.version <= build.openedVersion.value);
    Updated(uri, build.document.value, e.watchers != {}, if again then Rebuilt else build.reason,
            if ofRelease then Release else if again then Unknown else build.source, sequence)
  }

  /** `entries` with the release mark of `uri` used up. */
  function Consumed(entries: map<Uri, Entry>, uri: Uri): map<Uri, Entry> {
    if uri in entries && entries[uri].released then Pruned(entries[uri := entries[uri].(released := false)], uri)
    else entries
  }

  /** `entries` with `build` as the last state sent of `uri`, unless no record of it is held. */
  function Sent(entries: map<Uri, Entry>, uri: Uri, build: Build): map<Uri, Entry> {
    if uri in entries then entries[uri := entries[uri].(baseline := build.document, sentVersion := build.openVersion)]
    else entries
  }

  function AfterPhase(s: State, uri: Uri, build: Build): State {
    if !Served(s, uri) then s
    else
      var e := EntryAt(s, uri);
      var consumed := Consumed(s.entries, uri);
      if !Sends(s, uri, build) then s.(entries := consumed)
      else
        s.(entries := Sent(consumed, uri, build),
           sequence := s.sequence + 1,
           trace := s.trace + [UpdateOf(e, uri, build, s.sequence + 1)])
  }

  function Disposed(s: State): State {
    State(map[], map[], s.sequence, s.trace + [Ended(s.entries.Keys)])
  }

  function Next(s: State, step: Step): State {
    match step
    case Watch(client, spelling, uri, given, current) => Watched(s, client, spelling, uri, given, current)
    case Unwatch(client, spelling, uri) => Unwatched(s, client, spelling, uri)
    case DropWatches(client) => Dropped(s, client)
    case MarkRelease(uri) => Marked(s, uri)
    case Delete(uri, from) => AfterDelete(s, uri, from)
    case FlipDirty(uri) => AfterDirty(s, uri)
    case Phase(uri, build) => AfterPhase(s, uri, build)
    case Dispose => Disposed(s)
  }

  // What a step makes of each part of the state.

  lemma Unwatches(s: State, t: State, client: Client, spelling: string, uri: Uri)
    requires var key := KeyOf(s, client, spelling, uri);
             var (e, last) := (EntryAt(s, key), EntryAt(s, key).watchers == {client});
             && t.keys == Forgotten(s.keys, client, key) && t.sequence == s.sequence
             && t.entries == (if client !in e.watchers then s.entries
                  else Pruned(s.entries[key := e.(watchers := e.watchers - {client})], key))
             && t.trace == if last then s.trace + [Ended({key})] else s.trace
    ensures t == Next(s, Unwatch(client, spelling, uri))
  {
    var e := EntryAt(s, KeyOf(s, client, spelling, uri));
    assert client in e.watchers ==> (e.watchers - {client} == {} <==> e.watchers == {client});
  }

  lemma Drops(s: State, t: State, client: Client)
    requires t.entries == DroppedBut(s.entries, client, {}) && t.keys == s.keys - {client} && t.sequence == s.sequence
    requires var lone := OnlyWatched(s.entries, client);
             t.trace == if lone == {} then s.trace else s.trace + [Ended(lone)]
    ensures t == Next(s, DropWatches(client))
  {
  }

  lemma Builds(s: State, t: State, uri: Uri, build: Build, sent: Option<Event>)
    requires Served(s, uri) && (sent.Some? <==> Sends(s, uri, build)) && t.keys == s.keys
    requires sent.Some? ==> sent.value == UpdateOf(EntryAt(s, uri), uri, build, s.sequence + 1)
    requires var consumed := Consumed(s.entries, uri);
             t.entries == if sent.Some? then Sent(consumed, uri, build) else consumed
    requires t.sequence == s.sequence + if sent.Some? then 1 else 0
    requires t.trace == if sent.Some? then s.trace + [sent.value] else s.trace
    ensures t == AfterPhase(s, uri, build)
  {
  }

  const INITIAL := State(map[], map[], 0, [])

  function Run(s: State, steps: seq<Step>): State {
    if steps == [] then s else Next(Run(s, steps[..|steps| - 1]), steps[|steps| - 1])
  }

  // What every reachable state keeps.

  /** A record has a watcher or a release mark, and a baseline only with a watcher. */
  predicate Sound(e: Entry) {
    (e.watchers != {} || e.released) && (e.baseline.Some? ==> e.watchers != {})
  }

  predicate NamesWatches(s: State) {
    forall client | client in s.keys ::
      s.keys[client] != map[] && forall sp | sp in s.keys[client] :: client in EntryAt(s, s.keys[client][sp]).watchers
  }

  /** The state of the last update of `uri` since it was last deleted or lost its last watcher. */
  function LastSent(trace: seq<Event>, uri: Uri): Option<Stamp> {
    if trace == [] then None else Noted(LastSent(trace[..|trace| - 1], uri), trace[|trace| - 1], uri)
  }

  /** What `e` makes of the state last sent of `uri`. */
  function Noted(before: Option<Stamp>, e: Event, uri: Uri): Option<Stamp> {
    match e
    case Updated(u, stamp, watched, _, _, _) => if u == uri then (if watched then Some(stamp) else None) else before
    case Deleted(u, _, _) => if u == uri then None else before
    case Dirty(_, _) => before
    case Ended(uris) => if uri in uris then None else before
  }

  /** No update repeats the one before it while its document stays watched and undeleted. */
  predicate NeverRepeats(trace: seq<Event>) {
    trace == []
    || (&& NeverRepeats(trace[..|trace| - 1])
        && var last := trace[|trace| - 1];
           (last.Updated? ==> LastSent(trace[..|trace| - 1], last.uri) != Some(last.stamp)))
  }

  /** The events sent are numbered from 1 on without gaps, up to `n`. */
  predicate Numbered(trace: seq<Event>, n: nat) {
    if trace == [] then n == 0
    else
      var (front, last) := (trace[..|trace| - 1], trace[|trace| - 1]);
      if last.Ended? then Numbered(front, n) else last.sequence == n && n > 0 && Numbered(front, n - 1)
  }

  ghost predicate Inv(s: State) {
    && (forall u | u in s.entries :: Sound(s.entries[u]))
    && NamesWatches(s)
    && Numbered(s.trace, s.sequence) && NeverRepeats(s.trace)
    && forall u :: LastSent(s.trace, u).Some? ==> EntryAt(s, u).baseline == LastSent(s.trace, u)
  }

  /** What one more event makes of the trace's properties. */
  lemma Append(trace: seq<Event>, n: nat, e: Event)
    requires Numbered(trace, n) && NeverRepeats(trace)
    ensures Numbered(trace + [e], n + 1) <==> !e.Ended? && e.sequence == n + 1
    ensures e.Ended? ==> Numbered(trace + [e], n)
    ensures NeverRepeats(trace + [e]) <==> (e.Updated? ==> LastSent(trace, e.uri) != Some(e.stamp))
    ensures forall u :: LastSent(trace + [e], u) == Noted(LastSent(trace, u), e, u)
  {
    assert (trace + [e])[..|trace|] == trace;
    if e.Ended? {
      NumberedOnce(trace, n, n + 1);
    }
  }

  lemma {:induction false} NumberedOnce(trace: seq<Event>, n: nat, m: nat)
    requires Numbered(trace, n) && m != n
    ensures !Numbered(trace, m)
  {
    if trace != [] {
      var (front, last) := (trace[..|trace| - 1], trace[|trace| - 1]);
      if last.Ended? {
        NumberedOnce(front, n, m);
      }
    }
  }

  lemma WatchKeeps(s: State, client: Client, spelling: string, uri: Uri, given: Option<Stamp>, current: Option<Stamp>)
    requires Inv(s)
    ensures Inv(Watched(s, client, spelling, uri, given, current))
  {
    var t := Watched(s, client, spelling, uri, given, current);
    assert spelling in t.keys[client];
    forall c | c in t.keys
      ensures t.keys[c] != map[] && forall sp | sp in t.keys[c] :: c in EntryAt(t, t.keys[c][sp]).watchers
    {
      forall sp | sp in t.keys[c] ensures c in EntryAt(t, t.keys[c][sp]).watchers {
        assert t.keys[c][sp] == uri || (c in s.keys && sp in s.keys[c]);
      }
    }
  }

  lemma UnwatchKeeps(s: State, client: Client, spelling: string, uri: Uri)
    requires Inv(s)
    ensures Inv(Unwatched(s, client, spelling, uri))
  {
    var key := KeyOf(s, client, spelling, uri);
    ForgottenNames(s, client, key);
    WithoutWatcherKeeps(s.(keys := Forgotten(s.keys, client, key)), client, key);
  }

  lemma ForgottenNames(s: State, client: Client, key: Uri)
    requires NamesWatches(s)
    ensures var t := s.(keys := Forgotten(s.keys, client, key));
            NamesWatches(t) && forall sp | sp in KeysOf(t, client) :: KeysOf(t, client)[sp] != key
  {
    var t := s.(keys := Forgotten(s.keys, client, key));
    forall c, sp | c in t.keys && sp in t.keys[c] ensures c in EntryAt(t, t.keys[c][sp]).watchers {
      assert c in s.keys && sp in s.keys[c] && t.keys[c][sp] == s.keys[c][sp];
    }
  }

  lemma WithoutWatcherKeeps(s: State, client: Client, uri: Uri)
    requires Inv(s) && forall sp | sp in KeysOf(s, client) :: KeysOf(s, client)[sp] != uri
    ensures Inv(WithoutWatcher(s, client, uri))
  {
    var t := WithoutWatcher(s, client, uri);
    if EntryAt(s, uri).watchers == {client} {
      Append(s.trace, s.sequence, Ended({uri}));
    }
    WithoutWatcherNames(s, client, uri);
  }

  lemma WithoutWatcherNames(s: State, client: Client, uri: Uri)
    requires NamesWatches(s) && forall sp | sp in KeysOf(s, client) :: KeysOf(s, client)[sp] != uri
    ensures NamesWatches(WithoutWatcher(s, client, uri))
  {
    var t := WithoutWatcher(s, client, uri);
    forall u
      ensures EntryAt(t, u).watchers == if u == uri then EntryAt(s, u).watchers - {client} else EntryAt(s, u).watchers
    {
    }
    forall c, sp | c in t.keys && sp in t.keys[c] ensures c in EntryAt(t, t.keys[c][sp]).watchers {
      assert c == client ==> sp in KeysOf(s, client) && KeysOf(s, client)[sp] != uri;
    }
  }

  lemma DropKeeps(s: State, client: Client)
    requires Inv(s)
    ensures Inv(Dropped(s, client))
  {
    var (lone, t) := (OnlyWatched(s.entries, client), Dropped(s, client));
    Append(s.trace, s.sequence, Ended(lone));
    forall u ensures EntryAt(t, u).watchers == EntryAt(s, u).watchers - {client} {
    }
  }

  lemma DeleteKeeps(s: State, uri: Uri, from: Source)
    requires Inv(s)
    ensures Inv(AfterDelete(s, uri, from))
  {
    Append(s.trace, s.sequence, Deleted(uri, from, s.sequence + 1));
    var t := AfterDelete(s, uri, from);
    forall u
      ensures EntryAt(t, u).watchers == EntryAt(s, u).watchers
      ensures u != uri ==> EntryAt(t, u) == EntryAt(s, u)
    {
    }
    forall u | LastSent(t.trace, u).Some?
      ensures u != uri && LastSent(t.trace, u) == LastSent(s.trace, u)
    {
    }
  }

  lemma PhaseKeeps(s: State, uri: Uri, build: Build)
    requires Inv(s)
    ensures Inv(AfterPhase(s, uri, build))
  {
    var t := AfterPhase(s, uri, build);
    if Sends(s, uri, build) {
      Append(s.trace, s.sequence, UpdateOf(EntryAt(s, uri), uri, build, s.sequence + 1));
    }
    forall u ensures EntryAt(t, u).watchers == EntryAt(s, u).watchers {
    }
  }

  lemma DirtyKeeps(s: State, uri: Uri)
    requires Inv(s)
    ensures Inv(AfterDirty(s, uri))
  {
    Append(s.trace, s.sequence, Dirty(uri, s.sequence + 1));
  }

  lemma DisposeKeeps(s: State)
    requires Inv(s)
    ensures Inv(Disposed(s))
  {
    Append(s.trace, s.sequence, Ended(s.entries.Keys));
  }

  lemma StepKeeps(s: State, step: Step)
    requires Inv(s)
    ensures Inv(Next(s, step))
  {
    match step
    case Watch(client, spelling, uri, given, current) => WatchKeeps(s, client, spelling, uri, given, current);
    case Unwatch(client, spelling, uri) => UnwatchKeeps(s, client, spelling, uri);
    case DropWatches(client) => DropKeeps(s, client);
    case MarkRelease(uri) => MarkKeeps(s, uri);
    case Delete(uri, from) => DeleteKeeps(s, uri, from);
    case FlipDirty(uri) => DirtyKeeps(s, uri);
    case Phase(uri, build) => PhaseKeeps(s, uri, build);
    case Dispose => DisposeKeeps(s);
  }

  lemma MarkKeeps(s: State, uri: Uri)
    requires Inv(s)
    ensures Inv(Marked(s, uri))
  {
    forall u ensures EntryAt(Marked(s, uri), u).watchers == EntryAt(s, u).watchers {
    }
  }

  /** Every reachable state is sound, and no run repeats an update. */
  lemma {:induction false} RunKeeps(s: State, steps: seq<Step>)
    requires s == INITIAL || Inv(s)
    ensures Inv(Run(s, steps))
  {
    if steps != [] {
      RunKeeps(s, steps[..|steps| - 1]);
      StepKeeps(Run(s, steps[..|steps| - 1]), steps[|steps| - 1]);
    }
  }

  // What the invariant means for the clients.

  /** Whether the document of the update at `i` was neither deleted nor left by its last watcher before `j`. */
  predicate StillWatched(trace: seq<Event>, uri: Uri, i: nat, j: nat)
    requires i <= j <= |trace|
  {
    forall k | i < k < j :: !(trace[k].Deleted? && trace[k].uri == uri) && !(trace[k].Ended? && uri in trace[k].uris)
  }

  predicate NoUpdateBetween(trace: seq<Event>, uri: Uri, i: nat, j: nat)
    requires i <= j <= |trace|
  {
    forall k | i < k < j :: !(trace[k].Updated? && trace[k].uri == uri)
  }

  lemma {:induction false} LastSentIs(trace: seq<Event>, i: nat)
    requires i < |trace| && trace[i].Updated? && trace[i].watched
    requires StillWatched(trace, trace[i].uri, i, |trace|) && NoUpdateBetween(trace, trace[i].uri, i, |trace|)
    ensures LastSent(trace, trace[i].uri) == Some(trace[i].stamp)
  {
    var front := trace[..|trace| - 1];
    if i < |trace| - 1 {
      var (uri, last) := (trace[i].uri, trace[|trace| - 1]);
      assert !(last.Updated? && last.uri == uri) && !(last.Deleted? && last.uri == uri)
             && !(last.Ended? && uri in last.uris);
      assert StillWatched(front, uri, i, |front|) && NoUpdateBetween(front, uri, i, |front|);
      LastSentIs(front, i);
    }
  }

  /**
   * While a document stays watched and undeleted, two consecutive updates of it differ in fingerprint or in version.
   */
  lemma {:induction false} ConsecutiveUpdatesDiffer(trace: seq<Event>, i: nat, j: nat)
    requires NeverRepeats(trace) && i < j < |trace|
    requires trace[i].Updated? && trace[i].watched && trace[j].Updated? && trace[i].uri == trace[j].uri
    requires StillWatched(trace, trace[i].uri, i, j) && NoUpdateBetween(trace, trace[i].uri, i, j)
    ensures trace[i].stamp != trace[j].stamp
    decreases |trace|
  {
    var front := trace[..|trace| - 1];
    if j == |trace| - 1 {
      assert StillWatched(front, trace[i].uri, i, |front|) && NoUpdateBetween(front, trace[i].uri, i, |front|);
      LastSentIs(front, i);
    } else {
      assert StillWatched(front, trace[i].uri, i, j) && NoUpdateBetween(front, trace[i].uri, i, j);
      ConsecutiveUpdatesDiffer(front, i, j);
    }
  }

  /** Whether a step may use up the release mark of `uri`: its next build, a deletion, or the connection's end. */
  predicate Consumes(step: Step, uri: Uri) {
    (step.Phase? && step.uri == uri) || (step.Delete? && step.uri == uri) || step.Dispose?
  }

  lemma StepKeepsMark(s: State, step: Step, uri: Uri)
    requires EntryAt(s, uri).released && !Consumes(step, uri)
    ensures EntryAt(Next(s, step), uri).released
  {
  }

  lemma {:induction false} MarkSurvives(s: State, steps: seq<Step>, uri: Uri) returns (t: State)
    requires EntryAt(s, uri).released && forall step | step in steps :: !Consumes(step, uri)
    ensures t == Run(s, steps) && EntryAt(t, uri).released
  {
    if steps == [] {
      t := s;
    } else {
      var (front, last) := (steps[..|steps| - 1], steps[|steps| - 1]);
      assert steps == front + [last];
      var u := MarkSurvives(s, front, uri);
      assert last in steps;
      StepKeepsMark(u, last, uri);
      t := Next(u, last);
    }
  }

  /**
   * However the clients watch meanwhile, the first build of a released document that is there is sent when no one
   * watches it then, as the release's own unless it is past the version the document was opened again at.
   */
  lemma ReleaseIsSent(s: State, uri: Uri, steps: seq<Step>, build: Build)
    requires Inv(s) && forall step | step in steps :: !Consumes(step, uri)
    requires EntryAt(Run(Marked(s, uri), steps), uri).watchers == {}
    requires build.document.Some?
    ensures var (t, u) := (Run(Marked(s, uri), steps), AfterPhase(Run(Marked(s, uri), steps), uri, build));
            && |u.trace| == |t.trace| + 1 && u.trace[..|t.trace|] == t.trace
            && uri !in u.entries
            && var sent := u.trace[|t.trace|];
               && sent.Updated? && sent.uri == uri && sent.stamp == build.document.value
                 && sent.sequence == t.sequence + 1
               && (sent.source == Release
                 <== build.openedVersion.None? || build.document.value.version <= build.openedVersion.value)
  {
    var t := MarkSurvives(Marked(s, uri), steps, uri);
    MarkKeeps(s, uri);
    RunKeeps(Marked(s, uri), steps);
    assert uri in t.entries && Sound(t.entries[uri]);
  }
}
