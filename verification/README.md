# edgecloud ingress: a verified model

edgecloud's ingress turns worker heartbeats into proxy configuration: HTTP routes with quotas and
limits, raw-TCP servers on public ports, and custom domains. A sidecar shares request rates between
ingress replicas, and two proxy modules limit requests in flight and bandwidth per tenant. This project
models that core in Dafny and proves what each part promises, for every input, every run or every
interleaving.

`dafny verify dfyconfig.toml` checks everything.

## Layout

| file | models |
|---|---|
| PortPool.dfy | the public-port allocator with its cooldown |
| L4Table.dfy, Routing.dfy | the raw-TCP and the HTTP routing tables, custom-domain bindings |
| L4Protocol.dfy, L4Invariant.dfy, L4Pruning.dfy, L4Safety.dfy | heartbeats and pruners interleaving on pool and table, their invariant, and safety |
| L4Conservation.dfy | conservation of ports, leaks, cooldown |
| L4Cache.dfy, L4Guards.dfy, L4Races.dfy | when cached ports are safe; what follows when a condition fails; runs that reach such states |
| Heartbeat.dfy, HeartbeatTcp.dfy, Pruner.dfy | one heartbeat message and one pruner tick as the code runs them, and as runs of the protocol |
| Aggregation.dfy, ReplicaCaps.dfy | the sidecar's sliding window, and the caps a fleet derives from it |
| Scraper.dfy | request deltas from the proxy's cumulative counter |
| TenantConcurrent.dfy, TenantBandwidth.dfy | the two proxy modules |
| Render.dfy, RenderMeaning.dfy, RenderLimits.dfy | the rendered HTTP routes, what they decide for a request and which limits it meets |
| Diff.dfy, Push.dfy | deltas between snapshots; full loads, patches and the remembered state |
| Url.dfy, Text.dfy, Sorting.dfy, Common.dfy | string codecs and shared definitions |

Code that updates state in place is a class or a method with loops, proved against a function on values;
the theorems are about those functions. Concurrent code is a step system whose steps are the sections
between lock boundaries, and theorems quantify over every run.

## Where a promise does not hold

Each of these is a property one would expect of the code, with the condition under which it holds and inputs for
which it fails.

- A pruner's removal between a heartbeat's lookup and its upsert, or between a departing worker's snapshot and its
  removal, can release the port of a live app later. The upsert and the removal keep the protocol's invariant exactly
  when the rows are still in the table (CommitIsSafeIff, FinishLeaveIsSafeIff); from every state in which they are
  not, a live app can lose its port (StaleCommitReleasesLivePort, StaleLeaveReleasesLivePort), and such states are
  reachable under every configuration (L4Races). A message or tick that is not interrupted meets the conditions by
  itself (MessageIsARun, DepartureIsARun, TickIsARun).
- A pruner that removes later than the staleness bound after its snapshot can release a live app's port. A bound on
  that time is safe exactly when it is at most the staleness bound (PruneBoundIsExact).
- A cached control-plane port is used without asking the pool; when that is safe, CachedIsSafeIff says exactly.
- An upsert loses a port exactly in the cases of CommitConservesIff, and for good (LeaksArePermanent); a change of
  worker and a status that is not routable do so under every configuration (WorkerChangeLeaks, StatusLeaks).
- The order of a message's app map matters exactly when an app is named like another one's websocket route and the two
  report differently (OrderIsIrrelevantIff).
- A dot in an app's name, or a custom domain, takes requests past the tenant's limits (SyntheticHostLimits,
  CustomDomainLimits). The comment at edge-ingress/src/caddy.rs:344-348 says the 402 of a tenant covers its custom
  domains as well; the code renders them a 402 of their own.
- A delete of a patch removes an app's route exactly when the route id happens to be its host (DeleteSparesAppsIff),
  because app routes carry their host as id.
- A patched custom domain goes to its app's first row, over quota or not (PatchedDomainVerdict), where a full rendering
  takes the last row, or the 402 when over quota (CustomDomainVerdict). PatchedDomainAgreesIff says exactly when the two
  agree.
- A quota crossing alone reloads nothing (QuotaChangeIsNotNoticed); the tree pushed before is then still right exactly
  when no tenant with a live row crossed (TreeSurvivesQuotaChangeIff). The cap that is rendered and the one that is
  recorded are read apart; they agree exactly as TwoReadingsAgreeIff says.
- Two tenants can share a host exactly when one name is the other, a dash and more (HostsShareIff, DashesCollide), and
  two apps a route id exactly when one id part continues the other (RouteIdsShareIff, ColonsCollide).
- "://" in the query of a URL without scheme is taken for the end of a scheme (BareUrlParsesIff, UrlInQuery), and a
  host can come out empty (EmptyHostIff, EmptyHostParses).

Where comments and code differ the model follows the code: draining apps are routable although
edge-ingress/src/l4.rs:123-125 says only running ones are, and the platform limit precedes the per-address one.
The quota pattern's suffix is matched as the pattern is written, with its inner dot standing for any character.

## Model

| member | source | states |
|---|---|---|
| PortPool.L4PortPool.constructor | edge-ingress/src/l4.rs:256-265 | a new pool is the fresh value of the range |
| PortPool.L4PortPool.Acquire | edge-ingress/src/l4.rs:272-297 | the loop over the mutable cursor refines the specification `Acquired`, whose meaning the next rows give |
| PortPool.L4PortPool.Release | edge-ingress/src/l4.rs:302-312 | refines `Released`: double and unknown releases change nothing |
| PortPool.L4PortPool.ReapCooledPorts | edge-ingress/src/l4.rs:318-327 | refines `Reap` |
| PortPool.Reap | edge-ingress/src/l4.rs:318-327 | keeps exactly the entries whose release time lies ahead |
| PortPool.NthCoversRange | edge-ingress/src/l4.rs:278-285 | one walk of the cursor visits every port of the range |
| PortPool.ScanIsFirstFree | edge-ingress/src/l4.rs:278-297 | a full walk returns the first port in cyclic order that is neither held nor cooling, and nothing exactly when every port is held or cooling |
| PortPool.AcquireIsCompleteCyclicSearch | edge-ingress/src/l4.rs:272-297 | the same for a whole call at a given time, expressed on the state before reaping, with the whole new state |
| PortPool.RangeLengthFits | edge-ingress/src/config.rs:281-294 | the 16-bit range length is exact for every range the startup check accepts, and for a refused one exactly unless it is reversed or the full range |
| PortPool.RunKeepsSound | edge-ingress/src/l4.rs:272-327 | over every run of calls held and cooling ports stay in range, disjoint and duplicate-free |
| PortPool.CooldownIsRespected | edge-ingress/src/l4.rs:272-327 | over every run with a non-decreasing clock, a port released from the held set is not handed out before its cooldown has elapsed, whatever double or unknown releases come between |
| PortPool.ReleaseIsExact | edge-ingress/src/l4.rs:302-312 | a held port is given up and cools for the cooldown; a port that is not held changes nothing |
| PortPool.ReleaseAllEffect | edge-ingress/src/heartbeats.rs:609-618 | releasing a list of ports removes exactly those from the held set, keeps the pool sound, and puts each held one into cooldown |
| L4Table.L4RoutingTable.Lookup | edge-ingress/src/l4.rs:118-121 | the row of the key, if any |
| L4Table.L4RoutingTable.Upsert | edge-ingress/src/l4.rs:129-155 | writes the row for running and draining apps and removes the key for every other status |
| L4Table.L4RoutingTable.RemoveStale | edge-ingress/src/l4.rs:166-178 | removes exactly the rows last seen before the cutoff and reports each key once |
| L4Table.L4RoutingTable.RemoveWorker | edge-ingress/src/l4.rs:184-195 | removes exactly the rows of one worker and reports each key once |
| L4Table.L4RoutingTable.Snapshot | edge-ingress/src/l4.rs:198-201 | lists exactly the rows, each once |
| L4Protocol.DuePorts | edge-ingress/src/heartbeats.rs:610-617 | the ports released after a removal are those of the snapshot rows whose key was removed |
| L4Protocol.WorkerPorts | edge-ingress/src/heartbeats.rs:328-332 | the ports released on a departure are those of the worker's snapshot rows |
| L4Safety.StepKeepsInv | edge-ingress/src/heartbeats.rs:322-618 | every guarded step of heartbeats and pruners keeps the protocol invariant |
| L4Pruning.PrunedDebts | edge-ingress/src/heartbeats.rs:592-618 | within the time bound a removal moves exactly the ports of the removed rows from live to owed |
| L4Safety.RunKeepsInv | edge-ingress/src/heartbeats.rs:322-618 | the invariant holds in every state of every guarded run |
| L4Safety.LivePortsAreSafe | edge-ingress/src/heartbeats.rs:322-618 | safety over all interleavings of heartbeats with any number of pruners, whatever the control-plane cache answers from one moment to the next: live rows have distinct public ports and hold their pool ports, no live port cools, and no step releases a port that is live |
| L4Cache.CachedIsSafeIff | edge-ingress/src/heartbeats.rs:404-413 | registering an app on a cached port keeps the invariant if and only if no other app is live on it and, if it lies in the range, the pool holds it and no pruner owes it |
| L4Cache.AssignedRunsAreGuarded | edge-ingress/src/heartbeats.rs:404-413 | with one port per app, distinct and outside the range, every use of the cache is guarded, however it warms up, goes stale or is refreshed |
| L4Safety.CommitIsSafeIff | edge-ingress/src/heartbeats.rs:389-439 | writing back a looked-up port keeps the invariant if and only if the row is still in the table |
| L4Safety.FinishLeaveIsSafeIff | edge-ingress/src/heartbeats.rs:322-343 | finishing a departure keeps the invariant if and only if the snapshot rows with pool ports are still in the table |
| L4Guards.StaleLeaveReleasesLivePort | edge-ingress/src/heartbeats.rs:322-343 | from every invariant state in which they are not, finishing the departure and otherwise guarded steps release the port of a live app |
| L4Guards.WalkTo | edge-ingress/src/l4.rs:272-297 | a free port can be given to any app without a row, wherever the cursor stands, by guarded heartbeat steps |
| L4Safety.StaleCommitReleasesLivePort | edge-ingress/src/heartbeats.rs:389-439 | from every invariant state in which a pruner removed the row between lookup and upsert, three further steps release the port of a live row |
| L4Conservation.PortsAreConserved | edge-ingress/src/heartbeats.rs:322-618 | while apps with pool ports stay routable and on one worker, held ports are exactly the live ports of the range, those owed by a pruner and the one in hand, in every guarded run |
| L4Conservation.CommitConservesIff | edge-ingress/src/heartbeats.rs:395-439 | which upserts lose a port, exactly: routable ones that write another port over a row with a pool port, and others of an app that has a pool port or has just taken one |
| L4Conservation.LeaksArePermanent | edge-ingress/src/heartbeats.rs:395-439 | a leaked port never comes back into circulation |
| L4Guards.WorkerChangeLeaks | edge-ingress/src/heartbeats.rs:389-439 | for every staleness bound, cooldown and range, a guarded run in which an app that comes back from another worker leaks its port |
| L4Guards.StatusLeaks | edge-ingress/src/heartbeats.rs:414-439 | the same for an app whose first report is not routable, for every such status |
| L4Conservation.ReleasedPortsRest | edge-ingress/src/heartbeats.rs:322-618 | across all tasks, a port given up is neither held nor live again before its cooldown has elapsed |
| L4Races.PruneBetweenLookupAndUpsert | edge-ingress/src/heartbeats.rs:389-439 | for every staleness bound, cooldown and range, a run from an idle ingress in which a removal falls between lookup and upsert and two live apps end up on one public port |
| L4Races.PruneDuringDeparture | edge-ingress/src/heartbeats.rs:322-343 | likewise a run in which a removal falls between a departing worker's snapshot and its removal and a live app's port is released |
| L4Guards.LatePruneReleasesLivePort | edge-ingress/src/heartbeats.rs:592-618 | for every staleness bound, cooldown and range, if removals may come one tick later than the bound after their snapshots, some otherwise guarded run releases the port of an app just seen |
| L4Guards.PruneBoundIsExact | edge-ingress/src/heartbeats.rs:592-618 | a bound on the time from snapshot to removal is safe for all runs if and only if it is at most the staleness bound |
| L4Races.CachedPortInsideRange | edge-ingress/src/heartbeats.rs:404-413 | for every range a run in which a cached port inside it ends up live twice |
| Pruner.PruneTick | edge-ingress/src/heartbeats.rs:592-618 | one tick, as the loop body runs it: both tables lose exactly their stale rows and exactly the removed L4 rows' ports are released |
| Pruner.ReleaseRemoved | edge-ingress/src/heartbeats.rs:609-618 | the release loop refines `ReleaseAll` over `DuePorts` |
| Pruner.TickIsARun | edge-ingress/src/heartbeats.rs:592-618 | an uninterrupted tick is a guarded run of the step system |
| Heartbeat.ApplyHeartbeat | edge-ingress/src/heartbeats.rs:301-484 | a message without an address changes nothing; one without apps removes the worker and releases its ports; any other applies its apps in some order; the returned flag is characterised in every case |
| Heartbeat.ApplyDeparture | edge-ingress/src/heartbeats.rs:322-343 | both tables lose exactly the worker's rows, its ports are released, and the flag says whether a table changed |
| Heartbeat.ApplyApps | edge-ingress/src/heartbeats.rs:345-484 | the loop over the app map refines the specifications of HTTP table, pool and L4 table for the order it took |
| Heartbeat.ApplyApp | edge-ingress/src/heartbeats.rs:346-482 | one app, HTTP or TCP, with its branches and its exhausted-pool case |
| Heartbeat.KeysAreInjective | edge-ingress/src/heartbeats.rs:347-350 | splitting message keys at the first colon gives distinct apps distinct table keys, and so does the websocket suffix |
| Heartbeat.ConflictsAreClashes | edge-ingress/src/heartbeats.rs:442-481 | two writes of a message conflict if and only if a websocket key is another app's key and the two report differently |
| Heartbeat.OrderIsIrrelevantIff | edge-ingress/src/heartbeats.rs:345-484 | all iteration orders of the app map give the same HTTP table if and only if clashing websocket keys report the same |
| Heartbeat.HeartbeatSetsRoutes | edge-ingress/src/heartbeats.rs:442-481 | unless a clashing key is reported differently, every app has under its own key and under its websocket key exactly the reported row (weight 0 while draining, none when not routable), and every key no app writes is unchanged, for every order |
| Heartbeat.WsClashDependsOnOrder | edge-ingress/src/heartbeats.rs:461-479 | two apps, one named like the other's websocket route, for which the order decides |
| HeartbeatTcp.HeartbeatSetsTcpRoutes | edge-ingress/src/heartbeats.rs:369-441 | for every order a TCP app's row is filed under its tenant and name, as reported, on the port it had on this worker, else the cached one, else one that was free; not routable, it is gone; without a port, which takes an exhausted pool, it stays; every other row is unchanged |
| HeartbeatTcp.RefreshIff | edge-ingress/src/heartbeats.rs:301-484 | a message asks for no refresh if and only if all its apps are TCP apps without a row on this worker or a cached port and the pool is exhausted; then it changes no row |
| Heartbeat.MessageIsARun | edge-ingress/src/heartbeats.rs:345-441 | a message that no pruner step interrupts is a run of the step system, guarded whenever the cached ports are distinct, outside the range and nobody else's |
| Heartbeat.DepartureIsARun | edge-ingress/src/heartbeats.rs:322-343 | the same for a departure |
| Routing.RoutingTable.Upsert | edge-ingress/src/routing.rs:158-192 | writes or removes the key; a draining app has weight 0 |
| Routing.BoundNames | edge-ingress/src/routing.rs:301-333 | after any sequence of polls the bound names are exactly the names of the last poll's rows |
| Routing.RoutingTable.RemoveStale | edge-ingress/src/routing.rs:202-214 | removes exactly the stale rows and reports each key once |
| Routing.RoutingTable.RemoveWorker | edge-ingress/src/routing.rs:219-230 | removes exactly one worker's rows and reports each key once |
| Routing.RoutingTable.ApplyPollSnapshot | edge-ingress/src/routing.rs:301-333 | the new bindings, and the added and removed names as exact set differences without repetition |
| Routing.LastRowWins | edge-ingress/src/routing.rs:301-333 | a name polled twice has its last row |
| Routing.BindingsFollowPolls | edge-ingress/src/routing.rs:301-333 | over every sequence of polls the bound names are those of the last poll, and each binding is the one of the poll that most recently added its name |
| Aggregation.WindowState.Insert | edge-ingress-sidecar/src/aggregate.rs:200-223 | map and deque go on agreeing, one deque entry per replica in time order, after an insertion that replaces |
| Aggregation.WindowState.Prune | edge-ingress-sidecar/src/aggregate.rs:226-245 | popping the front of the deque equals a scan of the whole map |
| Aggregation.NothingStale | edge-ingress-sidecar/src/aggregate.rs:226-245 | when the front of the deque is fresh, nothing in the map is stale |
| Aggregation.Aggregator.SnapshotAt | edge-ingress-sidecar/src/aggregate.rs:318-336 | total, own rate (zero when absent) and count of the window, exact while the count fits 32 bits |
| Aggregation.TotalFits | edge-ingress-sidecar/src/aggregate.rs:318-336 | the 64-bit total does not wrap for any window whose size fits 32 bits |
| Aggregation.Aggregator.Tick | edge-ingress-sidecar/src/aggregate.rs:293-305 | drains, prunes and reports, leaving one deque entry per map entry |
| Aggregation.TickIsAScan | edge-ingress-sidecar/src/aggregate.rs:200-245 | incremental insertion and pruning equal a scan of the whole message history, whatever earlier cutoffs dropped |
| Aggregation.Drive | edge-ingress-sidecar/src/aggregate.rs:293-336 | over a whole run, for every non-decreasing clock, every reported snapshot equals a naive scan of everything received so far |
| Aggregation.ScanKeepsLast | edge-ingress-sidecar/src/aggregate.rs:200-245 | the scan in terms of the messages received: a replica is kept exactly when the tick of its last message is not before the cutoff, with that message's rate and that tick's time |
| Aggregation.RegularReport | edge-ingress-sidecar/src/aggregate.rs:226-245 | that scan is the sliding window's once the clock is one window length past its origin |
| Aggregation.ReportIsWindowIff | edge-ingress-sidecar/src/aggregate.rs:226-245 | after fallback cutoffs it is the window's if and only if no replica's last message lies inside the window and before the latest cutoff |
| Aggregation.FallbackIsExactIff | edge-ingress-sidecar/src/aggregate.rs:226-245 | near the clock's origin the pruning cutoff falls back to another reading; the result is the window's if and only if nothing in it is older than that reading |
| ReplicaCaps.PerReplicaCap | edge-ingress-sidecar/src/aggregate.rs:127-155 | no cap exactly when none is configured or no replica is seen; otherwise the cap lies between 1 and the configured one, and no step leaves its machine type |
| ReplicaCaps.CapIsExact | edge-ingress-sidecar/src/aggregate.rs:127-155 | the value for every snapshot in mathematical integers: the configured cap less the others' average, or 1 when that reaches it |
| ReplicaCaps.SharesAddUp | edge-ingress-sidecar/src/aggregate.rs:127-155 | the integer shares of a fleet add up to its total, short by less than one per replica |
| ReplicaCaps.FleetCapBound | edge-ingress-sidecar/src/aggregate.rs:127-155 | the caps of n replicas sharing a window of total T add up to n*cap - T plus what the shares exceed the cap by, within less than n above; that excess is zero exactly when no share reaches the cap |
| ReplicaCaps.OverloadedFleet | edge-ingress-sidecar/src/aggregate.rs:127-155 | where every share reaches the cap every replica is throttled to 1 |
| ReplicaCaps.SharedWindowSnapshots | edge-ingress-sidecar/src/aggregate.rs:318-336 | the snapshots of a shared window are the ones the bound speaks of |
| Scraper.Scrape | edge-ingress-sidecar/src/caddy_metrics.rs:217-252 | the loop with its carried baseline refines `Published` |
| Scraper.NothingIsInvented | edge-ingress-sidecar/src/caddy_metrics.rs:185-252 | whatever fetches fail, reads miss the counter or the proxy restarts, the published rates never add up to more than the requests served |
| Scraper.TelescopesIff | edge-ingress-sidecar/src/caddy_metrics.rs:185-198 | while the counter climbs, the published rates add up to last minus first if and only if every delta fits 32 bits |
| Scraper.GrowthIsPublished | edge-ingress-sidecar/src/caddy_metrics.rs:185-198 | a counter that has not fallen publishes its growth modulo 2^32 |
| Scraper.GapsPublishNothing | edge-ingress-sidecar/src/caddy_metrics.rs:185-198 | a missing or fallen counter publishes nothing and becomes the baseline |
| Scraper.FirstReadPublishesNothing | edge-ingress-sidecar/src/caddy_metrics.rs:185-198 | the first read only sets the baseline |
| TenantConcurrent.Provision | caddy-modules/tenant_concurrent/main.go:115-123 | a limit below one is refused; otherwise the limiter starts empty and meets its invariant |
| TenantConcurrent.StepKeepsBuckets | caddy-modules/tenant_concurrent/main.go:149-165 | double-checked creation gives a key one bucket, whatever interleaves |
| TenantConcurrent.StepKeepsCount | caddy-modules/tenant_concurrent/main.go:171-196 | a bucket's occupancy stays the number of its requests in flight and within the limit |
| TenantConcurrent.AnswersAreExact | caddy-modules/tenant_concurrent/main.go:171-196 | a request with a key is taken in and one without answered 500; 429 is exactly the answer of a failed try for a slot and 200 of a finished request; no step moves another request |
| TenantConcurrent.LimiterIsExact | caddy-modules/tenant_concurrent/main.go:149-196 | over every interleaving of any number of goroutines: same key, same bucket; in flight equals occupied and never exceeds the limit; a 429 only when limit requests hold slots; a request with a bucket can always be answered and a release never blocks |
| TenantBandwidth.ChunkSizeFor | caddy-modules/tenant_bandwidth/main.go:269-275 | between 1 and the rate, and a sixteenth of it rounded down |
| TenantBandwidth.PacingWriter.Write | caddy-modules/tenant_bandwidth/main.go:214-232 | the wrapped writer takes exactly the prefix of the reported length, all of it unless it or the limiter says no; a refused chunk is not forwarded; every token request lies between 1 and the burst; tokens exceed the bytes forwarded by at most one chunk |
| Render.GroupByApp | edge-ingress/src/caddy.rs:329-335 | one group per app, holding its rows in order |
| Render.SortKeys | edge-ingress/src/caddy.rs:337-339 | a duplicate-free sorted permutation of the apps |
| Render.Splice | edge-ingress/src/caddy.rs:677-764 | splicing by position, for every combination of sections and guards, gives exactly the sections in order |
| Render.RenderRoutes | edge-ingress/src/caddy.rs:317-939 | the imperative construction equals the list of sections, with the apps sorted and once each |
| RenderMeaning.RenderedVerdict | edge-ingress/src/caddy.rs:458-525 | first terminal match decides: limits never do, over-cap tenants come before apps, apps before custom domains |
| RenderMeaning.HostsShareIff | edge-ingress/src/config.rs:18-20 | two tenants can share a host if and only if one name is the other, a dash and more |
| RenderMeaning.HostsAreInjective | edge-ingress/src/config.rs:18-20 | apart from that a host belongs to one app |
| RenderMeaning.UndashedAreApart | edge-ingress/src/config.rs:18-20 | names without dashes never extend one another |
| RenderMeaning.DashesCollide | edge-ingress/src/config.rs:18-20 | two tenants that do share a host |
| RenderMeaning.PatternOfHost | edge-ingress/src/caddy.rs:490-501 | the quota pattern covers exactly its own tenant's hosts with non-empty undotted app names |
| RenderMeaning.SyntheticHostVerdict | edge-ingress/src/caddy.rs:317-525 | the host of an app with rows, whose tenant's name extends no other and is extended by none, answers 402 exactly when its tenant is over quota and its name is undotted, and otherwise reaches exactly that app's upstreams, whatever custom domains are bound |
| RenderMeaning.UpstreamsBelongToApp | edge-ingress/src/caddy.rs:361-390 | the upstreams of a host are the rows of its app, one per row, with the cached traffic-split weight or else the reported one, and none for a single row |
| Render.LastRowIs | edge-ingress/src/caddy.rs:511-519 | the row of a custom domain: none exactly when its app has none, and otherwise the last row of that tenant and app |
| RenderMeaning.CustomDomainVerdict | edge-ingress/src/caddy.rs:782-889 | a custom domain reaches nothing if its app has no rows, and otherwise its tenant's 402 or the last row of its app; an unbound host reaches nothing |
| RenderMeaning.OutsideSyntheticForm | edge-ingress/src/caddy.rs:490-501 | names outside the synthetic form meet the conditions of that theorem whatever is deployed |
| RenderMeaning.DomainsAreSorted | edge-ingress/src/caddy.rs:782-786 | a rendering ends with the routes of the custom domains in order of name |
| RenderLimits.SyntheticHostLimits | edge-ingress/src/caddy.rs:545-939 | the limits a request meets, in order: platform, then its own tenant's and no other tenant's, cross-replica, its own app's; a dotted app name passes the 402 and all limits of its tenant |
| RenderLimits.CustomDomainLimits | edge-ingress/src/caddy.rs:545-939 | a custom domain meets the platform and cross-replica limits and its own route's, and none of its tenant's |
| RenderLimits.SyntheticHostMeets | edge-ingress/src/caddy.rs:317-939 | the handlers met by a synthetic host with their values: bucket keys, rates, bursts, and the priority of cached over row over configured app limits |
| RenderLimits.CustomDomainMeets | edge-ingress/src/caddy.rs:782-939 | the same for a custom domain, where a zero row value also means the default |
| RenderLimits.FirstOfSorted | edge-ingress/src/caddy.rs:361-367 | the row an app's limit is read from comes first by deployment, legacy before named, then by worker |
| RenderLimits.RenderedLimitsProvision | edge-ingress/src/caddy.rs:545-939 | zero means no limit everywhere, and no rendering contains a limiter that the proxy or its modules would refuse to provision |
| Diff.DiffRoutes | edge-ingress/src/caddy.rs:1056-1088 | added, removed and changed are exact and duplicate-free |
| Diff.DiffReconstructs | edge-ingress/src/caddy.rs:1056-1088 | for snapshots of tables whose keys have distinct ids, applying the diff gives the current table on every compared field |
| Diff.NoColonsApart | edge-ingress/src/caddy.rs:1056-1088 | tables without colons in names are such tables |
| Diff.DiffIsMinimal | edge-ingress/src/caddy.rs:1056-1088 | the three parts are disjoint, and all empty if and only if nothing compared differs |
| Diff.DiffFqdns | edge-ingress/src/caddy.rs:1092-1108 | the two exact set differences of names |
| Diff.RouteIdsShareIff | edge-ingress/src/routing.rs:60-65 | two apps can share a route id if and only if the tenant and app part of one is that of the other, or continues it with a colon |
| Diff.RouteIdsAreInjective | edge-ingress/src/routing.rs:60-65 | names without colons make route ids unique, deployment or not |
| Diff.ColonsCollide | edge-ingress/src/routing.rs:60-65 | two tenants with one route id, of which a snapshot by id keeps one |
| Push.L4TreeIsExact | edge-ingress/src/caddy.rs:1135-1200 | while live ports are distinct, the layer-4 tree has one server per live row and no other, on its port: closed when its tenant is over quota, else forwarding to its worker and upstream port |
| Push.CrossOfRendered | edge-ingress/src/caddy.rs:739-764 | a full rendering holds the cross-replica route as configured and no other route under its id |
| Push.Renderer.FullLoad | edge-ingress/src/heartbeats.rs:669-713 | a full load leaves the proxy showing what is recorded, or nothing recorded |
| Push.Renderer.Patch | edge-ingress/src/heartbeats.rs:786-848 | deletes and upserts in that order stop at the first refusal and never touch the cross-replica route |
| Push.DeleteTakesItsId | edge-ingress/src/caddy.rs:84-88 | a delete takes every route with its id and leaves all others alone |
| Push.UpsertShowsRoute | edge-ingress/src/caddy.rs:75-82 | an upsert replaces the first route with its id, or adds itself where the proxy creates ids, and leaves all others alone |
| Push.PatchShowsApp | edge-ingress/src/heartbeats.rs:809-828 | a patch shows, under the host of added and changed rows, the route of the last of them |
| Push.PatchShowsDomain | edge-ingress/src/heartbeats.rs:830-848 | a patch shows, under a newly bound name whose app has rows, the route of that binding |
| Push.PatchTouchesOnly | edge-ingress/src/heartbeats.rs:786-848 | every other id shows what it showed, or nothing if it was deleted |
| Push.PatchedAppVerdict | edge-ingress/src/heartbeats.rs:878-960 | a patched app route sends its host, and nothing else, to the one row |
| Push.PatchedAppHandlers | edge-ingress/src/heartbeats.rs:878-960 | its limit has the row's values, and its proxy the cached or reported weight |
| Push.PatchedDomainVerdict | edge-ingress/src/heartbeats.rs:969-1035 | a patched custom domain goes to the first row of its app, over quota or not; nothing is put for an app without rows |
| Push.PatchedDomainAgreesIff | edge-ingress/src/heartbeats.rs:969-1035 | it answers as a full rendering does if and only if its tenant is within quota and first and last row of the app have one worker and port |
| Push.PatchedDomainHandlers | edge-ingress/src/heartbeats.rs:969-1035 | its limit has that row's values |
| Push.Renderer.PushNow | edge-ingress/src/heartbeats.rs:648-868 | whatever is remembered as pushed, the layer-4 tree shows the remembered rows and the cross-replica route the cap as the last full load read them; a full load happens exactly when nothing is remembered or one is due; a failed push remembers nothing; the cap recorded is the one shown while each load reads it once |
| Push.Renderer.Serve | edge-ingress/src/heartbeats.rs:544-566 | over every sequence of pushes, successful or refused half-way, the same holds throughout, and quota state and cap shown are those of the last full load |
| Push.TreeSurvivesQuotaChangeIff | edge-ingress/src/caddy.rs:1135-1200 | when quotas change between pushes, the tree pushed before is still right if and only if no tenant with a live row crossed its quota |
| Push.ReloadDueIff | edge-ingress/src/heartbeats.rs:742-744 | a full load is due exactly when the layer-4 rows or the cap differ, or the changes are more than a fifth of the rows before and now |
| Push.QuotaChangeIsNotNoticed | edge-ingress/src/heartbeats.rs:742-744 | whatever the rows, such a crossing alone makes no full load due |
| Push.TwoReadingsAgreeIff | edge-ingress/src/heartbeats.rs:656-662 | recorded and rendered cap are read apart; they describe the same route if and only if they are equal or the route is switched off |
| Push.DeleteSparesAppsIff | edge-ingress/src/heartbeats.rs:790-797 | deletes name a route id while app routes carry their host: a delete leaves the app routes alone if and only if the id is no app's host |
| Push.PatchesDoNotRemoveApps | edge-ingress/src/heartbeats.rs:790-797 | so where names have no colon no delete removes an app's route |
| Url.EncodesPerCharacter | edge-ingress/src/caddy.rs:93-99 | five replacements in sequence encode every character exactly once |
| Url.DecodeInvertsEncode | edge-ingress/src/caddy.rs:93-99 | a percent-decoder gives back every id, so distinct ids have distinct paths |
| Url.EncodedIsOneSegment | edge-ingress/src/caddy.rs:93-99 | an encoded id has no colon, slash, hash or question mark |
| Url.ParseInvertsCompose | edge-js-runtime/src/url_parse.rs:26-71 | parsing a composed URL gives back the lower-cased scheme, host with port, and path with query; user information is dropped |
| Url.ParseWithScheme | edge-js-runtime/src/url_parse.rs:26-71 | what every URL with a scheme parses to |
| Url.SidesOfFirst | edge-js-runtime/src/url_parse.rs:26-71 | the two sides of the first separator |
| Url.LowerIs | edge-js-runtime/src/url_parse.rs:26-71 | lower-casing maps A to Z to a to z and nothing else |
| Url.BareUrlParsesIff | edge-js-runtime/src/url_parse.rs:26-71 | without a scheme a URL is taken as https if and only if "://" occurs nowhere in it, the query included |
| Url.UrlInQuery | edge-js-runtime/src/url_parse.rs:26-71 | with a URL in the query, everything before the inner "://" becomes the scheme and the inner host the host |
| Url.QueryWithoutPath | edge-js-runtime/src/url_parse.rs:26-71 | a query straight after the host is dropped up to its first slash, where the path begins; an at-sign before that is taken for the end of the user information |
| Url.EmptyHostIff | edge-js-runtime/src/url_parse.rs:26-71 | the parsed host is empty if and only if the text after the user information starts with a question mark |
| Url.EmptyHostParses | edge-js-runtime/src/url_parse.rs:26-71 | such a URL |

## Left out

- NATS, HTTP and Unix-socket input and output, and the fetchers behind the caches: cache contents are inputs.
- JSON text, TLS and health-check blocks, listen addresses and retries of admin calls: a route is its id, matcher, handlers and terminal flag, and an admin call is answered by an input.
- General host patterns: only the one shape the renderer writes, for tenant names without pattern metacharacters.
- Clock readings: one per lock-delimited step of the protocol and one per message or tick of the sequential methods, instead of one per call; instants are numbers.
- Prometheus text parsing, the token bucket of golang.org/x/time/rate and the proxy's own internals.
- Reconnects that start a second renderer or heartbeat task: the push theorems are about one renderer, the protocol about one heartbeat task and any number of pruners.
- The lazy limiter map of the bandwidth module: the same double-checked locking as `bucketFor`, proved there.
- Command-line tool, configuration reading, registration, metrics and logging.
- L4Safety.LivePortsAreSafe: assumes of the environment that a cached port is outside the range and nobody else's when it is used; AssignedRunsAreGuarded shows that fixed assignments meet this, CachedPortInsideRange that it is needed.
- TenantConcurrent.LimiterIsExact: between Provision and Cleanup; a Cleanup with requests in flight is not modelled.
- TenantBandwidth.PacingWriter.Write: the wrapped writer keeps the io.Writer contract and the limiter is known by its answers only, so pacing in time is not modelled.
- Push.Renderer.PushNow: does not say that patched HTTP routes equal a full rendering, which the code does not achieve; custom domain names are taken to contain a dot.
