/** The data server's connection state, updated in place, against the watch records it stands for. */
module DataServers {
  import opened Options
  import opened WatchRecords

  class WatchRecord {
    ghost const uri: Uri
    var watchers: set<Client>
    var fingerprint: Option<string>
    var fingerprintVersion: Option<nat>
    var releaseBroadcastPending: bool
    var sentVersion: Option<nat>

    constructor (ghost uri: Uri)
      ensures View() == UNWATCHED && Paired() && this.uri == uri
    {
      this.uri := uri;
      watchers, fingerprint, fingerprintVersion, releaseBroadcastPending, sentVersion := {}, None, None, false, None;
    }

    ghost predicate Paired()
      reads this
    {
      fingerprint.Some? <==> fingerprintVersion.Some?
    }

    ghost function View(): Entry
      reads this
    {
      Entry(watchers,
            if fingerprint.Some? && fingerprintVersion.Some?
            then Some(Stamp(fingerprint.value, fingerprintVersion.value)) else None,
            releaseBroadcastPending, sentVersion)
    }
  }

  lemma Overwritten(entries: map<Uri, Entry>, uri: Uri, e: Entry, f: Entry)
    ensures entries[uri := e][uri := f] == entries[uri := f]
  {
  }

  class DataServer {
    var uriWatchRecords: map<Uri, WatchRecord>
    var watchKeys: map<Client, map<string, Uri>>
    var eventSequence: nat
    ghost var trace: seq<Event>

    ghost predicate Valid()
      reads this`uriWatchRecords, uriWatchRecords.Values
    {
      forall u | u in uriWatchRecords :: uriWatchRecords[u].Paired() && uriWatchRecords[u].uri == u
    }

    ghost function Entries(): map<Uri, Entry>
      reads this`uriWatchRecords, uriWatchRecords.Values
    {
      map u | u in uriWatchRecords :: uriWatchRecords[u].View()
    }

    ghost function EntryNow(uri: Uri): Entry
      reads this`uriWatchRecords, uriWatchRecords.Values
    {
      if uri in uriWatchRecords then uriWatchRecords[uri].View() else UNWATCHED
    }

    lemma NowIsEntry(uri: Uri)
      ensures EntryNow(uri) == if uri in Entries() then Entries()[uri] else UNWATCHED
    {
    }

    ghost function State(): State
      reads this, uriWatchRecords.Values
    {
      WatchRecords.State(Entries(), watchKeys, eventSequence, trace)
    }

    constructor ()
      ensures Valid() && State() == INITIAL
    {
      uriWatchRecords, watchKeys, eventSequence, trace := map[], map[], 0, [];
    }

    /** One record rewritten is one entry changed. */
    twostate lemma Rewritten(uri: Uri)
      requires old(Valid()) && uriWatchRecords == old(uriWatchRecords) && uri in uriWatchRecords
               && uriWatchRecords[uri].Paired()
      requires forall u | u in uriWatchRecords && u != uri :: unchanged(uriWatchRecords[u])
      ensures Valid() && Entries() == old(Entries())[uri := uriWatchRecords[uri].View()]
    {
      forall u | u in uriWatchRecords && u != uri
        ensures uriWatchRecords[u].View() == old(uriWatchRecords[u].View()) && uriWatchRecords[u].Paired()
      {
      }
    }

    /** The record of `uri`, made and held when there is none. */
    method RecordOf(uri: Uri) returns (record: WatchRecord)
      requires Valid()
      modifies this`uriWatchRecords
      ensures Valid() && uri in uriWatchRecords && record == uriWatchRecords[uri] && record.View() == old(EntryNow(uri))
      ensures Entries() == old(Entries())[uri := old(EntryNow(uri))]
      ensures fresh(uriWatchRecords.Values - old(uriWatchRecords.Values))
    {
      if uri in uriWatchRecords {
        record := uriWatchRecords[uri];
      } else {
        record := new WatchRecord(uri);
      }
      uriWatchRecords := uriWatchRecords[uri := record];
    }

    method PruneUriWatchRecord(uri: Uri)
      requires Valid()
      modifies this`uriWatchRecords, uriWatchRecords.Values
      ensures Valid() && uriWatchRecords.Values <= old(uriWatchRecords.Values)
      ensures forall u | u in uriWatchRecords ::
              u in old(uriWatchRecords) && uriWatchRecords[u] == old(uriWatchRecords)[u]
      ensures Entries() == Pruned(old(Entries()), uri)
      ensures forall u | u in old(uriWatchRecords) && u == uri && !old(uriWatchRecords[u].releaseBroadcastPending) ::
              unchanged(old(uriWatchRecords[u]))
    {
      if uri !in uriWatchRecords || uriWatchRecords[uri].watchers != {} {
        return;
      }
      var record := uriWatchRecords[uri];
      if record.releaseBroadcastPending {
        record.fingerprint, record.fingerprintVersion := None, None;
        Rewritten(uri);
      } else {
        uriWatchRecords := uriWatchRecords - {uri};
      }
    }

    /** Adds `client` to the watchers of `uri`, the first of whom baselines it to `found`. */
    method AddWatcher(client: Client, uri: Uri, found: Option<Stamp>)
      requires Valid()
      modifies this`uriWatchRecords, uriWatchRecords.Values
      ensures Valid() && fresh(uriWatchRecords.Values - old(uriWatchRecords.Values))
      ensures Entries() == old(Entries())[uri := Joined(old(EntryNow(uri)), client, found)]
    {
      ghost var entries := Entries();
      var record := RecordOf(uri);
      ghost var e := record.View();
      label L:
      record.watchers := record.watchers + {client};
      if record.fingerprint.None? && found.Some? {
        record.fingerprint, record.fingerprintVersion := Some(found.value.fingerprint), Some(found.value.version);
      }
      Rewritten@L(uri);
      assert record.View() == Joined(e, client, found);
      Overwritten(entries, uri, e, record.View());
    }

    /**
     * Records a watch of `spelling`, whose key is `uri` now; `given` is the state the caller holds, `current` the
     * server's.
     */
    method AddWatch(client: Client, spelling: string, uri: Uri, given: Option<Stamp>, current: Option<Stamp>)
      requires Valid()
      modifies this`uriWatchRecords, this`watchKeys, uriWatchRecords.Values
      ensures Valid() && State() == Next(old(State()), Watch(client, spelling, uri, given, current))
      ensures fresh(uriWatchRecords.Values - old(uriWatchRecords.Values))
    {
      var keys := if client in watchKeys then watchKeys[client] else map[];
      watchKeys := watchKeys[client := keys[spelling := uri]];
      AddWatcher(client, uri, if given.Some? then given else current);
    }

    /** Forgets every spelling under which `client` watched `key`. */
    method ForgetKeys(client: Client, key: Uri)
      modifies this`watchKeys
      ensures watchKeys == Forgotten(old(watchKeys), client, key)
    {
      if client !in watchKeys {
        return;
      }
      var was := watchKeys[client];
      var keys, todo := was, was.Keys;
      while todo != {}
        invariant todo <= was.Keys
        invariant keys == OtherKeys(was, key, todo)
      {
        var spelling :| spelling in todo;
        if keys[spelling] == key {
          keys := keys - {spelling};
        }
        todo := todo - {spelling};
      }
      watchKeys := if keys == map[] then watchKeys - {client} else watchKeys[client := keys];
    }

    /** Removes `client` from the watchers of `uri`, and the record with its last one. */
    method RemoveWatcher(client: Client, uri: Uri) returns (removed: bool)
      requires Valid()
      modifies this`uriWatchRecords, uriWatchRecords.Values
      ensures Valid() && uriWatchRecords.Values <= old(uriWatchRecords.Values)
      ensures removed == (client in old(EntryNow(uri)).watchers)
      ensures var e := old(EntryNow(uri));
              Entries() == if !removed then old(Entries())
                else Pruned(old(Entries())[uri := e.(watchers := e.watchers - {client})], uri)
    {
      removed := uri in uriWatchRecords && client in uriWatchRecords[uri].watchers;
      if removed {
        var record := uriWatchRecords[uri];
        record.watchers := record.watchers - {client};
        Rewritten(uri);
        PruneUriWatchRecord(uri);
      }
    }

    method UnwatchModelDocument(client: Client, spelling: string, uri: Uri)
      requires Valid()
      modifies this`uriWatchRecords, this`watchKeys, this`trace, uriWatchRecords.Values
      ensures Valid() && State() == Next(old(State()), Unwatch(client, spelling, uri))
      ensures uriWatchRecords.Values <= old(uriWatchRecords.Values)
    {
      ghost var s := State();
      var key := if client in watchKeys && spelling in watchKeys[client] then watchKeys[client][spelling] else uri;
      assert key == KeyOf(s, client, spelling, uri);
      ghost var e := EntryAt(s, key);
      NowIsEntry(key);
      if e.watchers == {client} {
        trace := trace + [Ended({key})];
      }
      ForgetKeys(client, key);
      assert EntryNow(key) == e && Entries() == s.entries;
      var removed := RemoveWatcher(client, key);
      Unwatches(s, State(), client, spelling, uri);
    }

    method MarkRelease(uri: Uri)
      requires Valid()
      modifies this`uriWatchRecords, uriWatchRecords.Values
      ensures Valid() && State() == Next(old(State()), WatchRecords.MarkRelease(uri))
      ensures fresh(uriWatchRecords.Values - old(uriWatchRecords.Values))
    {
      ghost var entries := Entries();
      var record := RecordOf(uri);
      ghost var e := record.View();
      label L:
      record.releaseBroadcastPending := true;
      Rewritten@L(uri);
      Overwritten(entries, uri, e, record.View());
      assert record.View() == e.(released := true);
    }

    /** Removes `client` from the watchers of every document. */
    method RemoveFromAll(client: Client)
      requires Valid()
      modifies this`uriWatchRecords, uriWatchRecords.Values
      ensures Valid() && uriWatchRecords.Values <= old(uriWatchRecords.Values)
      ensures Entries() == DroppedBut(old(Entries()), client, {})
    {
      ghost var entries := Entries();
      var todo := uriWatchRecords.Keys;
      while todo != {}
        invariant Valid() && uriWatchRecords.Values <= old(uriWatchRecords.Values)
        invariant todo <= entries.Keys && Entries() == DroppedBut(entries, client, todo)
      {
        var uri :| uri in todo;
        DropOne(entries, client, todo, uri);
        NowIsEntry(uri);
        var removed := RemoveWatcher(client, uri);
        todo := todo - {uri};
      }
    }

    /** Ends every watch of `client`. */
    method DropWatches(client: Client)
      requires Valid()
      modifies this`uriWatchRecords, this`watchKeys, this`trace, uriWatchRecords.Values
      ensures Valid() && State() == Next(old(State()), WatchRecords.DropWatches(client))
      ensures uriWatchRecords.Values <= old(uriWatchRecords.Values)
    {
      ghost var s := State();
      ghost var lone := OnlyWatched(s.entries, client);
      if lone != {} {
        trace := trace + [Ended(lone)];
      }
      watchKeys := watchKeys - {client};
      RemoveFromAll(client);
      Drops(s, State(), client);
    }

    /** Forgets what is known of a document but who watches it. */
    method ForgetDocument(uri: Uri)
      requires Valid()
      modifies this`uriWatchRecords, uriWatchRecords.Values
      ensures Valid() && uriWatchRecords.Values <= old(uriWatchRecords.Values)
      ensures Entries() == Cleared(old(Entries()), uri)
    {
      if uri in uriWatchRecords {
        var record := uriWatchRecords[uri];
        record.fingerprint, record.fingerprintVersion := None, None;
        record.releaseBroadcastPending, record.sentVersion := false, None;
        Rewritten(uri);
        PruneUriWatchRecord(uri);
      }
    }

    /** A deletion: what is known of the document goes, its watchers stay, and every client is told. */
    method DispatchDeleteEvent(uri: Uri, from: Source) returns (sent: Event)
      requires Valid()
      modifies this`uriWatchRecords, this`eventSequence, this`trace, uriWatchRecords.Values
      ensures Valid() && State() == Next(old(State()), Delete(uri, from)) && trace == old(trace) + [sent]
      ensures uriWatchRecords.Values <= old(uriWatchRecords.Values)
    {
      ForgetDocument(uri);
      eventSequence := eventSequence + 1;
      sent := Deleted(uri, from, eventSequence);
      trace := trace + [sent];
    }

    method DispatchDirtyEvent(uri: Uri) returns (sent: Option<Event>)
      requires Valid()
      modifies this`eventSequence, this`trace
      ensures Valid() && State() == Next(old(State()), FlipDirty(uri))
      ensures trace == if sent.Some? then old(trace) + [sent.value] else old(trace)
    {
      sent := None;
      if uri in uriWatchRecords && uriWatchRecords[uri].watchers != {} {
        eventSequence := eventSequence + 1;
        sent := Some(Dirty(uri, eventSequence));
        trace := trace + [sent.value];
      }
    }

    method Dispose()
      requires Valid()
      modifies this`uriWatchRecords, this`watchKeys, this`trace
      ensures Valid() && State() == Next(old(State()), WatchRecords.Dispose)
    {
      assert Entries().Keys == uriWatchRecords.Keys;
      trace := trace + [Ended(uriWatchRecords.Keys)];
      uriWatchRecords, watchKeys := map[], map[];
    }

    /** Uses up the release mark of `record`, which is let go when no one watches it. */
    method ConsumeRelease(uri: Uri, record: WatchRecord)
      requires Valid() && uri in uriWatchRecords && record == uriWatchRecords[uri]
      modifies this`uriWatchRecords, uriWatchRecords.Values
      ensures Valid() && uriWatchRecords.Values <= old(uriWatchRecords.Values)
      ensures Entries() == Consumed(old(Entries()), uri)
      ensures record.View() == old(record.View()).(released := false) && record.Paired()
      ensures uri in uriWatchRecords ==> uriWatchRecords[uri] == record
    {
      if record.releaseBroadcastPending {
        record.releaseBroadcastPending := false;
        Rewritten(uri);
        PruneUriWatchRecord(uri);
      }
    }

    /** Takes the state sent into `record`, held or let go. */
    method RecordSent(uri: Uri, record: WatchRecord, build: Build)
      requires Valid() && record.uri == uri && build.document.Some?
      requires uri in uriWatchRecords ==> uriWatchRecords[uri] == record
      modifies record
      ensures Valid() && Entries() == Sent(old(Entries()), uri, build)
    {
      record.fingerprint, record.fingerprintVersion := Some(build.document.value.fingerprint),
        Some(build.document.value.version);
      record.sentVersion := build.openVersion;
      if uri in uriWatchRecords {
        Rewritten(uri);
      }
    }

    /** The update that `build` goes out as. */
    method UpdateFrom(record: WatchRecord, afterRelease: bool, uri: Uri, build: Build) returns (event: Event)
      requires build.document.Some?
      ensures event == UpdateOf(record.View().(released := afterRelease), uri, build, eventSequence)
    {
      var stamp := build.document.value;
      var again := build.openVersion.Some? && record.sentVersion == build.openVersion;
      var ofRelease := afterRelease && (build.openedVersion.None? || stamp.version <= build.openedVersion.value);
      event := Updated(uri, stamp, record.watchers != {}, if again then Rebuilt else build.reason,
                       if ofRelease then Release else if again then Unknown else build.source, eventSequence);
    }

    method SendUpdate(uri: Uri, record: WatchRecord, afterRelease: bool, build: Build) returns (event: Event)
      requires Valid() && record.uri == uri && build.document.Some?
      requires uri in uriWatchRecords ==> uriWatchRecords[uri] == record
      modifies this`eventSequence, this`trace, record
      ensures Valid() && Entries() == Sent(old(Entries()), uri, build)
      ensures eventSequence == old(eventSequence) + 1 && trace == old(trace) + [event]
      ensures event == UpdateOf(old(record.View()).(released := afterRelease), uri, build, eventSequence)
    {
      eventSequence := eventSequence + 1;
      event := UpdateFrom(record, afterRelease, uri, build);
      trace := trace + [event];
      RecordSent(uri, record, build);
    }

    /** A build: sent once per observable state, to whoever watches, and after a release to all. */
    method DispatchPhaseEvent(uri: Uri, build: Build) returns (sent: Option<Event>)
      requires Valid()
      modifies this`uriWatchRecords, this`eventSequence, this`trace, uriWatchRecords.Values
      ensures Valid() && State() == Next(old(State()), Phase(uri, build))
      ensures trace == if sent.Some? then old(trace) + [sent.value] else old(trace)
      ensures uriWatchRecords.Values <= old(uriWatchRecords.Values)
    {
      if uri !in uriWatchRecords {
        return None;
      }
      var record := uriWatchRecords[uri];
      if record.watchers == {} && !record.releaseBroadcastPending {
        return None;
      }
      ghost var s := State();
      assert EntryAt(s, uri) == record.View();
      sent := DispatchServed(uri, record, build);
      Builds(s, State(), uri, build, sent);
    }

    method DispatchServed(uri: Uri, record: WatchRecord, build: Build) returns (sent: Option<Event>)
      requires Valid() && uri in uriWatchRecords && record == uriWatchRecords[uri]
      modifies this`uriWatchRecords, this`eventSequence, this`trace, uriWatchRecords.Values
      ensures Valid() && (sent.Some? <==> build.document.Some? && old(record.View()).baseline != build.document)
      ensures sent.Some? ==> sent.value == UpdateOf(old(record.View()), uri, build, old(eventSequence) + 1)
      ensures var consumed := Consumed(old(Entries()), uri);
              Entries() == if sent.Some? then Sent(consumed, uri, build) else consumed
      ensures eventSequence == old(eventSequence) + if sent.Some? then 1 else 0
      ensures trace == if sent.Some? then old(trace) + [sent.value] else old(trace)
      ensures uriWatchRecords.Values <= old(uriWatchRecords.Values)
    {
      ghost var e := record.View();
      var afterRelease := record.releaseBroadcastPending;
      ConsumeRelease(uri, record);
      assert e == record.View().(released := afterRelease);
      sent := SendUnlessKnown(uri, record, afterRelease, build);
    }

    /** Nothing is sent of a document that is gone, nor of a state that was the last one sent. */
    method SendUnlessKnown(uri: Uri, record: WatchRecord, afterRelease: bool, build: Build)
          returns (sent: Option<Event>)
      requires Valid() && record.uri == uri && record.Paired()
      requires uri in uriWatchRecords ==> uriWatchRecords[uri] == record
      modifies this`eventSequence, this`trace, record
      ensures Valid() && (sent.Some? <==> build.document.Some? && old(record.View()).baseline != build.document)
      ensures Entries() == if sent.Some? then Sent(old(Entries()), uri, build) else old(Entries())
      ensures eventSequence == old(eventSequence) + if sent.Some? then 1 else 0
      ensures trace == if sent.Some? then old(trace) + [sent.value] else old(trace)
      ensures sent.Some?
          ==> sent.value == UpdateOf(old(record.View()).(released := afterRelease), uri, build, eventSequence)
    {
      if build.document.None? {
        return None;
      }
      var stamp := build.document.value;
      if record.fingerprint == Some(stamp.fingerprint) && record.fingerprintVersion == Some(stamp.version) {
        return None;
      }
      var event := SendUpdate(uri, record, afterRelease, build);
      sent := Some(event);
    }
  }
}
