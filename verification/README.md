# Service registry: a verified model

This project models the lease-based service registry: the Redis-backed store with its three
Lua scripts, the service layer that runs read-then-write and multi-read operations over it,
and the watch loop that streams changes to clients. It proves what these keep under every
interleaving of any number of clients and replicas.

## How the model is organised

- `Types`, `Keys`: instances, statuses, the name pattern and the flat key strings.
- `Redis`: the Redis state indexed by (service, instance) pairs, one atomic step per script
  and plain write, and the passing of time, which removes lapsed keys and logs nothing.
- `Runs`: a run is the sequence of commands that reach Redis, from any clients, and the
  states between them. `Replay` folds the change log.
- `Calls`: which service call each write of a run came from. A call's Get and clock reads are
  instants of the run before its script; anything may happen in between.
- `Leases`, `Filters`, `Listing`, `Watching`: the theorems about whole runs.
- `Keyspace`: one map from key strings to values, as Redis keeps it, and why it represents a
  pair-indexed state: no two slots that can occur share a key string.
- `Store`: the store as a class over that map, each script executed command by command,
  `List` as a loop of separate commands with other clients' commands in between.
  Every method is proved to be steps of `Redis`, so the class refines the pair-indexed model.
- `Schedules`: the exact run a call leaves behind, other clients' commands and its own.
- `Service`: Register, Renew, SetStatus, list (with its in-place filter), the watch loop.
- `Ordering`, `Paging`: sorting, and pages of separately sorted listings.
- `Browsing`, `Summaries`: list calls and service summaries while nothing changes.
- `Counterexamples`: short histories showing that the conditions of the theorems are needed.

Times are integers in nanoseconds. A deadline is the clock when the script runs plus the
expiry in milliseconds, and a key is live up to and including its deadline.

## Assumptions

- One non-decreasing clock, shared by Redis and the service, frozen inside a script.
- A token is presented only by calls that start after the Register issuing it returned
  (`TokensAfterIssue`); this covers freshness.
- Token hashes do not collide, and JSON encoding of instances loses nothing.
- Only the service writes the registry's keys.
- The revision stays below 10^14, where Lua starts to format it in scientific notation.

## Results that correct a simpler reading of the code

- The prune in List can drop a freshly registered instance from the index; it stays invisible
  to List until it registers again, because renewals do not re-add it.
- The revision of a snapshot is read after the instances, so an entry about a key written
  between the key's own GET and the revision read is not delivered to the watcher.
  `ConvergesExactly` says for every run and key exactly when the watcher ends up wrong.
- Overlapping Renew and SetStatus can undo each other; `UpdateAgreesIff` says exactly when.
- Deregister does not validate its service name; a name with ':' can delete another pair's
  keys and log the deletion under a name no watcher of that pair matches. The log is then
  wrong about exactly that pair, until it is written again or its lease would have ended.
- ListPage documents a stable page order; across services (a selector-only query) ids can
  tie and pages can repeat one instance and miss another. `PagingExact`: the pages of a query
  cover its answer, however each call orders ties, exactly if no two visible instances share
  an id, which within one service always holds.

## Model

| member | source | states |
|---|---|---|
| Keys.PatternLanguage | internal/registry/service.go:20 | the accepted names are exactly one character of [a-z0-9], or two of them with at most 61 of [a-z0-9-] in between |
| Keys.KeyStrings | internal/registry/store.go:35-44 | the six key strings, for any names |
| Keys.KeysInjective | internal/registry/store.go:35-40 | for names accepted by the pattern, two pairs share an instance key or a token key exactly if they are the same pair, whatever the ids contain |
| Keys.AliasesAgree | internal/registry/store.go:35-40 | two pairs share an instance key exactly if they share a token key, with no condition on the names |
| Keys.ServiceKeysInjective | internal/registry/store.go:41 | member-set keys of different services differ |
| Keys.FamiliesDisjoint | internal/registry/store.go:35-44 | the six key families never meet, for any names |
| Keys.ColonAliases | internal/registry/store.go:35-40 | a ':' in a service name makes two different pairs share both keys |
| RedisModel.StepKeepsJoint | internal/registry/store.go:46-77 | every command keeps: instance and token keys live together with equal deadlines, payloads stored and logged under their own valid names, revision counter equal to the log length, entry i carrying revision i+1 |
| RedisModel.StepEffect | internal/registry/store.go:46-77 | how one command can affect one key: a write stores its payload under its token and deadline, a registration needs the key absent, an update or removal needs the owner's token, and a key vanishes only by its owner or by its deadline |
| RedisModel.AnswerIsEntry | internal/registry/store.go:52-76 | a script that succeeds answers the revision of the entry it logs, which is the last of the log and about the pair it named |
| RedisModel.AnswerMeans | internal/registry/store.go:47-71 | a registration is refused exactly if the key is live, an update or removal exactly if it is not or is held under another token, a write with no time left after that; a refusal changes nothing |
| Runs.JointAlways | internal/registry/store.go:46-77 | the joint invariant holds in every reachable state |
| Runs.Grows | internal/registry/store.go:52-53 | clock and log only grow along a run |
| Runs.RevisionsNumberTheLog | internal/registry/store.go:52-76 | over a run, a later success answers a larger revision, and each answer is the position of the script's own entry in every later log |
| Runs.NoResurrection | internal/registry/store.go:46-66 | a key absent at one instant and live later was registered in between and has been live since |
| Runs.LastWrite | internal/registry/store.go:48-49 | whatever is stored at a key was put there, payload, deadline and token, by its last successful write |
| Runs.Reign | internal/registry/store.go:57-77 | after a registration the key stays live under its token, and every successful write presents that token, until the owner removes it or the deadline passes |
| Runs.Exclusive | internal/registry/store.go:46-77 | between two registrations of one key the first lease ended by a removal with the first token or by its deadline, and until then every successful write presented the first token |
| Runs.Incarnation | internal/registry/store.go:46-66 | every live key belongs to a registration since which its lease was held without a break |
| Replay.StepMirrors | internal/registry/store.go:46-77 | a command keeps the live instances equal to the unexpired fold of the log, exactly unless it is a successful removal that addressed another pair's keys |
| Replay.StepGap | internal/registry/store.go:68-77 | in one command a key comes to be gone while its last entry is still an unexpired upsert exactly by being removed under another name, and stays so exactly until it is written or the deadline passes |
| Replay.GapIffMisaddressed | internal/registry/service.go:63-65 | in every reachable state a live key holds what its last entry says, and a key is gone behind an unexpired upsert exactly if it was removed under another name, not written since, and its lease would still stand |
| Replay.ValidNamesLeaveNoGap | internal/registry/service.go:63-65 | a key removed only under names the pattern accepts is never in that situation |
| Replay.LogDeterminesStore | internal/registry/store.go:46-77 | in every state of every run the live instances are the fold of the log keeping each key's last upsert while its deadline has not passed, exactly if no removal under another name still stands |
| Replay.LiveByLastEntry | internal/registry/store.go:52-53 | in every run a key's last entry is an upsert whose deadline has not passed exactly if the key is live or was removed under another name, and a live key holds that entry's payload and deadline |
| Calls.LeaseDuration | internal/registry/service.go:229-240 | every lease is a whole number of milliseconds between 5 s and 300 s; 0 gives 30 s, a request is granted as asked exactly if it lies in that range, and others get the nearer end |
| Calls.Prepare | internal/registry/store.go:192-205 | a prepared instance keeps name, endpoint and metadata, is registered and updated at the clock value given with the expiry a lease after it, has weight 100 for none and status healthy for unspecified, and keeps a weight or status that was given |
| Calls.HistoryGrows | internal/registry/service.go:29-86 | a command explained by a service call whose token was issued before its Get extends a history |
| Leases.Fenced | internal/registry/service.go:47-86 | under any interleaving the stored endpoint, metadata, weight, name and registered_at are those of the registration that issued the current token |
| Leases.WriteStaysInIncarnation | internal/registry/store.go:57-66 | a successful Renew or SetStatus read its payload during the very lease it writes under |
| Leases.ExpiryBound | internal/registry/service.go:50-53 | no stored lease_expires_at lies more than 300 s ahead of the clock |
| Leases.DeadlineFollowsExpiry | internal/registry/service.go:52-81 | after any number of renewals and status changes the Redis deadline is above lease_expires_at minus 1 ms, at most lease_expires_at plus the delay of the last write, and at most 300 s after that write |
| Leases.ShortRemainderRefused | internal/registry/service.go:75-81 | a status change whose remaining lease truncates to 0 ms is refused and changes nothing |
| Leases.UpdateAgreesIff | internal/registry/service.go:47-86 | a successful update keeps the stored status and expiry equal to the last ones asked for exactly if the field it writes back unchanged is still current |
| Leases.StatusAndLeaseIndependent | internal/registry/service.go:47-86 | if since a registration no successful write to the instance falls between the Get and the script of its updates, the stored status is the last one set or registered and lease_expires_at the one of the last Renew or Register, whatever happened under earlier leases |
| Leases.UpdatedAtLastWrite | internal/registry/service.go:50-81 | the stored updated_at is the clock the call behind the last write read |
| Leases.TimesInOrder | internal/registry/service.go:50-81 | registered_at is at most updated_at, which is at most the clock, under any interleaving |
| Leases.UpdatesMoveForward | internal/registry/service.go:47-86 | an update that no other write to the key overlaps never moves updated_at back |
| Filters.FiltersDifferExactly | internal/transport/grpc/registry.go:98-108 | snapshot and stream filter differ on exactly the selected instances with a status other than healthy or draining |
| Filters.StatusesStayKnown | internal/registry/store.go:192-205 | if registrations supply unspecified, healthy or draining, every stored and logged payload is healthy or draining |
| Filters.FiltersAgree | internal/registry/service.go:204-217 | then both filters decide alike on every stored and logged payload, for every query |
| Listing.ReturnedWasLive | internal/registry/store.go:117-143 | whatever List returns was live at its own key at an instant of the call, with that payload |
| Listing.LiveIsReturned | internal/registry/store.go:117-143 | a key indexed at SMEMBERS and live throughout is returned exactly once with a payload it held during the call |
| Listing.StepIndexed | internal/registry/store.go:50-51 | a command breaks the member index exactly if it prunes a live id |
| Listing.PruneDropsIffRaced | internal/registry/store.go:124-137 | the prune of a List drops a live, indexed instance from the index exactly if its registration landed between the GET that found it stale and the SREM and still stands, whatever the state of other keys |
| Listing.PruneTakesStale | internal/registry/store.go:122-137 | the prune of a List takes from the index exactly the ids whose GET found nothing |
| Listing.IndexedIffUnpruned | internal/registry/store.go:50-51 | while a registration stands, its instance is indexed exactly if no prune took its id since |
| Listing.KeyIndexed | internal/registry/store.go:117-143 | an instance whose prunes were not raced is indexed whenever it is live |
| Listing.IndexComplete | internal/registry/store.go:117-143 | without such races every live instance is indexed in every reachable state |
| Listing.LostUntilRegistered | internal/registry/store.go:57-66 | an instance out of the index stays out until it is registered again |
| Listing.StaleOnlyByLapse | internal/registry/store.go:72-73 | in every run the last entry of an indexed id that is not live is an upsert, and its deadline has passed exactly unless the instance was removed under another name: addressed removals leave no stale ids |
| Watching.ResponseRevision | internal/registry/service.go:115-126 | the revision of a list response is the length of the log at its last revision read |
| Watching.StreamAt | internal/transport/grpc/registry.go:72-91 | the messages for a stretch of the log leave a client's entry for a key as the key's last entry in it says, filter included |
| Watching.StreamIgnoresOthers | internal/transport/grpc/registry.go:74-76 | a watch of one service never changes a client's entries of another |
| Watching.StreamNumbered | internal/transport/grpc/registry.go:72-91 | each streamed message carries the revision of its own log entry, revisions increase, and every entry of the watched service has its message |
| Watching.PollContinues | internal/registry/store.go:163-190 | a poll returns the next at most 128 entries after the current revision and nothing else |
| Watching.CatchUpBound | internal/transport/grpc/registry.go:66-95 | once the log stands still, n polls advance the revision by 128 n or to the end of the log, whichever comes first |
| Watching.CatchesUp | internal/transport/grpc/registry.go:66-95 | so the watcher has consumed the whole log exactly after one poll per 128 entries it lacked |
| Watching.DeliversExactly | internal/transport/grpc/registry.go:66-95 | for any polling instants the consumed entries are the log from the snapshot's revision to the current one, in order, without gap or repetition |
| Watching.SnapshotIsSeen | internal/registry/store.go:122-134 | a snapshot delivers for a key exactly the payload stored at the instant of the key's own GET, if it matches |
| Watching.OnePayloadPerKey | internal/transport/grpc/registry.go:59-62 | a snapshot holds at most one payload per key |
| Watching.ConvergesExactly | internal/transport/grpc/registry.go:54-96 | for every run, every key and every watcher that consumed the whole log: its map is right about the key exactly if the key's last entry was not written between the instant that decided about it (its GET, or the SMEMBERS that left it out) and the revision read with a content other than what was seen, was not live but missing from the index, and is not a streamed live instance of another status; about a key removed under another name exactly if the watcher was not told of an instance last |
| Watching.WatchConvergesIff | internal/transport/grpc/registry.go:54-96 | when registrations supply standard statuses, missing such an entry is the only way to diverge, and for a key removed under another name having been told of an instance last |
| Watching.WatchConverges | internal/transport/grpc/registry.go:54-96 | a watcher that consumed the whole log holds, for every key mentioned after the revision or not mentioned between the instant that decided about it and the revision read, and not removed under another name, the current payload exactly if the instance is live and matches, and otherwise only leases that lapsed without a delete |
| Watching.IndexedSeesAll | internal/registry/store.go:117-134 | a key that is indexed if live at the instant that decided about it is seen as that state holds it, by named calls and calls over all services |
| Watching.IndexedWatchConverges | internal/transport/grpc/registry.go:54-96 | convergence with the key indexed if live at that instant as the only condition besides the log and no removal under another name, for a watch of one service and of all services |
| Keyspace.SameFamily | internal/registry/store.go:35-44 | whatever the names, slots of different families have different key strings |
| Keyspace.SlotKeysInjective | internal/registry/store.go:35-44 | no two slots that can occur, of any families, share a key string |
| Keyspace.FlattenPut | internal/registry/store.go:48-53 | writing one key string changes exactly the slot it belongs to |
| Keyspace.FlattenDel | internal/registry/store.go:72 | deleting one key string removes exactly the slot it belongs to |
| Keyspace.FlattenLive | internal/registry/store.go:48-49 | expiry of key strings is expiry of their slots, and only instance and token keys expire |
| StoreModel.HitIffPresent | internal/registry/store.go:102-115 | for valid names the key strings exist exactly if the pair is present, with the same contents |
| StoreModel.OwnerOfKeys | internal/registry/store.go:97-100 | the key strings a removal addresses exist exactly if some registered pair owns both of them, and that is the named pair unless the name is one the pattern rejects |
| StoreModel.Store.constructor | internal/registry/store.go:33 | an empty store represents an initial state |
| StoreModel.Store.SAdd | internal/registry/store.go:50-51 | SADD adds the member to the set at the key and touches no other slot |
| StoreModel.Store.SRem | internal/registry/store.go:73 | SREM removes the members, and the key with the last of them |
| StoreModel.Store.Incr | internal/registry/store.go:52 | INCR returns and stores the next revision, starting at 1 |
| StoreModel.Store.XAdd | internal/registry/store.go:53 | XADD appends one entry to the stream |
| StoreModel.Store.Register | internal/registry/store.go:46-86 | the register script on string keys is the Register step, with the same reply, and a failure changes no key |
| StoreModel.Store.Update | internal/registry/store.go:57-95 | the update script on string keys is the Update step, with the same reply, and a failure changes no key |
| StoreModel.Store.Deregister | internal/registry/store.go:68-100 | the delete script, for any names, removes the pair that owns the keys and logs the given names; for valid names these are the same pair; a failure changes no key |
| StoreModel.Store.Prune | internal/registry/store.go:135-137 | removing stale ids is the Prune step |
| StoreModel.Store.Wait | internal/registry/store.go:48-49 | the passing of time removes exactly the lapsed keys and logs nothing |
| StoreModel.Store.Get | internal/registry/store.go:102-115 | for any names, returns the payload of the live pair that owns the key, and nothing exactly if none does |
| StoreModel.Store.Interfere | internal/registry/store.go:46-77 | other clients' commands, in order and nothing else, are what happens between the steps of a call |
| StoreModel.Store.Probe | internal/registry/store.go:122-134 | the loop of GETs collects the found payloads and the stale ids, whatever other clients do meanwhile |
| StoreModel.Store.Clean | internal/registry/store.go:135-137 | exactly the stale ids are pruned, unless there are none or the command fails, and nothing else is written |
| StoreModel.Store.List | internal/registry/store.go:117-143 | under any interference the call is a scan of the run, its values are what its GETs found in order, its revision is the one at its last read, and the run holds the other clients' commands and the prune of the stale ids, each at its place, and nothing else |
| StoreModel.Store.Services | internal/registry/store.go:145-155 | every known service once, in any order, and the revision read after them; the call writes nothing |
| StoreModel.Store.Changes | internal/registry/store.go:163-190 | the log from the revision on, up to 128 entries, and nothing for a revision past its end |
| ServiceModel.Register | internal/registry/service.go:29-45 | rejects invalid requests without a write, otherwise issues the prepared registration for the clock it read, as its only command |
| ServiceModel.Renew | internal/registry/service.go:47-61 | whatever happens between its steps, issues the renewal of the payload it read, to the very key it read and at the clock read in between, as its only command; for any names it is missing, with nothing written, exactly if no live pair owns the key |
| ServiceModel.SetStatus | internal/registry/service.go:67-86 | the same for a status change over the remaining lease; other statuses are rejected, and for any names it is missing, with nothing written, exactly if no live pair owns the key or the recorded expiry of the owner has passed when it is measured |
| ServiceModel.FilterInPlace | internal/registry/service.go:126-131 | filtering into the slice being read leaves the matching values, in order, in its prefix |
| ServiceModel.Arrange | internal/registry/service.go:126-132 | the response is some id-sorted permutation of the matching values |
| ServiceModel.ScanAll | internal/registry/service.go:115-125 | one scan per service in order, all values collected, the largest revision kept, and no write but the scans' own prunes |
| ServiceModel.ListInstances | internal/registry/service.go:99-136 | rejects exactly a query without name and selector or with an invalid name; the result is the requested page of the sorted matches of the call's scans, with their number and the last revision read, and the call writes nothing but its prunes |
| ServiceModel.SendChanges | internal/transport/grpc/registry.go:72-91 | one message per entry of the watched service, and the revision of the last entry |
| ServiceModel.Follow | internal/transport/grpc/registry.go:66-95 | over any rounds there is one poll per round, of the state the round leaves behind, the messages sent are those of the entries consumed from the starting revision, and nothing is written |
| ServiceModel.WatchService | internal/transport/grpc/registry.go:54-96 | the messages are the matching snapshot and then the stream from the snapshot's revision, one poll per round, under any interference; a client that receives them holds the map `WatchConverges` speaks of, and if n last polls see the final log and 128 n covers it since the snapshot, the watcher has consumed all of it |
| ServiceModel.ClientOfBoth | internal/transport/grpc/registry.go:63-91 | receiving the snapshot message and then the changes is receiving all of them in order |
| Ordering.SortSlice | internal/registry/service.go:132 | a sorted permutation, ties in any order |
| Ordering.LessByFirstDifference | internal/registry/service.go:132 | the order is lexicographic: the first difference decides and a proper prefix comes first |
| Ordering.SortedUnique | internal/registry/service.go:132 | if different values have different keys, the sorted order is determined by the values |
| Paging.PageValues | internal/registry/service.go:188-202 | for every 64-bit page and page size and up to 2^62 values no intermediate result overflows, and the result is the mathematical page |
| Paging.PagesConcatenate | internal/registry/service.go:188-202 | pages 1 to n concatenate to the first n times size values |
| Paging.LaterPageEmpty | internal/registry/service.go:192-198 | every page past the end is empty |
| Paging.CoversOnceIff | internal/registry/service.go:126-134 | for any values: every choice of sorted orders for the calls and every page size gives each value exactly once, exactly if no two different values have the same key |
| Paging.TiesBreak | internal/registry/service.go:132-134 | whenever two different values tie, there are orders for which pages of size 1 give one of them once more and the other once less |
| Paging.UntiedPages | internal/registry/service.go:126-134 | without ties the pages of separately sorted listings are one listing, and later pages are empty |
| Browsing.UnchangedSameView | internal/registry/store.go:46-77 | over a stretch of a run with only refused scripts, time without a lapse and prunes of dead ids, instances, index of the live instances, services and log stay the same |
| Browsing.OwnPrunesIdle | internal/registry/store.go:124-137 | the prunes of List calls in such a stretch take only dead ids, so they need not be excluded |
| Browsing.SteadyUndisturbed | internal/registry/store.go:117-143 | a scan during which only prunes, time without a lapse and refused scripts happen sees one state |
| Browsing.AloneCleans | internal/registry/store.go:117-143 | with no other client about, a List whose prune succeeds leaves exactly the live ids of its service indexed |
| Browsing.ListRepeats | internal/registry/store.go:117-143 | with no other client about, List leaves every live instance stored and indexed as it was, logs nothing, and a second List returns the same values |
| Browsing.UnchangedUndisturbed | internal/registry/store.go:117-143 | a scan inside an unchanged stretch sees the state the stretch began with |
| Browsing.UndisturbedLists | internal/registry/service.go:99-136 | filtered and sorted, the values of an undisturbed call, for one service or all, are exactly the visible instances of its state, each once |
| Browsing.PagingExact | internal/registry/service.go:93-136 | the pages of an undisturbed query cover its answer for every order of ties and every page size exactly if no two visible instances share an id; for one service always |
| Browsing.PagingCoversOnce | internal/registry/service.go:93-136 | n calls over an unchanged stretch of a run, for one service or for any query whose visible ids differ: pages 1 to n give every visible instance exactly once in id order, whatever order set members come in for each call, and later pages are empty |
| Summaries.CountInstances | internal/registry/service.go:169-177 | the counting loop counts healthy and draining instances |
| Summaries.ListServices | internal/registry/service.go:155-186 | one scan for each distinct service with the prefix; the requested page of the name-sorted summaries that have something to count, their number, and the revision at the read after the names and before the scans; nothing is written but the scans' own prunes |
| Summaries.SummaryCounts | internal/registry/service.go:165-177 | with a complete index an undisturbed scan counts exactly the live instances of its service |
| Summaries.SummariesConserve | internal/registry/service.go:155-186 | the summaries' counts add up to the live healthy and draining instances of the services with the prefix, and a service is listed, with exact counts, exactly if it has one |
| Summaries.UnchangedListServices | internal/registry/service.go:155-186 | both for every ListServices call over an unchanged stretch of a run that began with a complete index |
| Summaries.PageTotalsAreCounts | internal/registry/service.go:126-135 | the totals of a service query with and without include_draining are the counts of its summary |
| Summaries.ServicePagingCoversOnce | internal/registry/service.go:149-186 | n ListServices calls over an unchanged stretch: pages 1 to n give every listed service exactly once in name order, and later pages are empty |
| Counterexamples.PruneRace | internal/registry/store.go:124-137 | a history in which List prunes an instance registered after its GET |
| Counterexamples.UnseenInstance | internal/registry/store.go:117-134 | a later watch of that history that never learns of the live instance, with no entry written during it |
| Counterexamples.MissedDelete | internal/registry/store.go:117-142 | a history and a caught-up watcher, with the key indexed, that keeps a deleted instance because the delete fell between its GET and the revision read |
| Counterexamples.LostStatus | internal/registry/service.go:48-81 | a renewal that undoes an overlapping status change |
| Counterexamples.AliasedRemoval | internal/registry/service.go:63-65 | a history with a removal named with ':' after which the log no longer determines the store |
| Counterexamples.UnheardRemoval | internal/transport/grpc/registry.go:66-95 | a caught-up watcher of that history that missed no entry about the instance and keeps it after its removal |
| Counterexamples.TiesBreakPaging | internal/registry/service.go:132-134 | a history in which two services register the same id, and two selector-only calls over the unchanged registry, reading the services in different orders, whose pages of size 1 give one instance twice and the other never |
| Counterexamples.OtherStatusStreams | internal/transport/grpc/registry.go:98-108 | an instance with another status that is streamed but never listed |

## Left out

- Redis networking and failures: a command either takes effect or the call ends; only the SREM of List, whose error the code ignores, may fail silently.
- Script failure after a partial write (revisions of 10^14 and more, wrong-type keys): excluded by the assumptions.
- Physical removal of expired keys: a lapsed key is absent from the instant its deadline passes, which is all a command can observe.
- URL parsing of endpoints: `ServiceModel.Register` takes its outcome as an argument.
- Service.Get and Service.Deregister: each is one call of the store operation, after a name check in Get.
- Token generation, hashing, JSON and protobuf encoding: see the assumptions; metadata is a map and a missing key reads as the empty string.
- Mapping of errors to gRPC codes, HTTP handlers, authentication, configuration, metrics, caching, rate limiting, the event bus, the scheduler and outbound clients: no registry logic.
- ServiceModel.WatchService: the endless loop is modelled for any finite number of rounds, after which the stream is cancelled; a failing send ends it the same way.
- Ordering.SortSlice: the library sort is modelled by an insertion sort on sequences whose contract is only that of sort.Slice; its in-place exchange of elements is not modelled.
- The reuse of one backing array by several requests does not occur in the code; `ServiceModel.FilterInPlace` models the reuse inside one request.
