# Trading-engine core: a verified model

This project models the in-memory core of the trading engine and the shared infrastructure it leans
on, and proves what those parts guarantee over whole runs. Each mutable object of the engine is a
class whose methods are proved against specification functions on values; the theorems are about
those functions, for every run, interleaving and input.

| area | files |
|---|---|
| order tags and order lifecycle | OrderTags, OrderTagRuns, TagCollisions, OrderLifecycle |
| position accounting, portfolio report, balances, history retention | Inventory, Portfolio, Balances, PortfolioHistory |
| executor orchestrator, executors, risk gates, event bus | Orchestrator, PruningFacts, OrchestratorRuns, ControllerTicks, Executors, Risk, EventBus |
| limiters, breakers, caches, market data | UserRateLimit, HttpSession, UserCircuit, Breakers, BoundedCache, MarketData |
| relay cursor delivery, Desk plans | EventStore, DeskPlan |
| insertion-ordered dictionaries, sums over them, numbers, strings | OrderedDicts, DictSums, Reals, Text |

`dafny verify dfyconfig.toml` checks everything.

## Conventions

- Python dictionaries are `OrderedDicts.OrderedDict` values: an order of keys and a map. Decimals,
  floats and clocks are `real`; portfolio timestamps are integers in microseconds of UTC.
- A method does one critical section, or the code between two awaits; a run is a sequence of such
  steps in any order, with clock readings as inputs that do not run backwards.
- tick_controller appears twice, as the two halves touch different fields: its failure streak in
  ControllerTicks, its pruning in Orchestrator and OrchestratorRuns.
- Network calls, the venue, the database and everything a concrete executor or controller does are
  inputs to the steps. An exception is an outcome value.
- Limits read from the environment are parameters; limits fixed in the code are constants (8192
  entries, 2^20 tags, 5000 buckets, the one-minute floor of the stale sweep, 3 attempts, the Desk
  limits).

## Where the code does less than it says

- order_tags.py says collisions among live orders are effectively impossible. They are impossible
  under a pacing bound that also counts forgotten entries (TagCollisions.LiveTagsNeverCollide);
  forgetting many younger orders keeps an old tag registered for a whole period, and then it is
  handed out again (TagCollisions.ForgetStormCollides). The exact condition over all runs is
  TagCollisions.NeverCollidesIff.
- bind_digest does not remove a tag's old digest or a digest's old tag. The exact condition under
  which the indexes stay inverse is OrderTagRuns.BindKeepsAgreementIff.
- seed overwrites a terminal state, although events never do: the state follows the last seed
  (LifecycleRuns.SeedStartsAfresh).
- invalidate drops locks that are in use. It is safe exactly when nobody is waiting or fetching
  (SingleFlight.InvalidateKeepsSingleFlightIff).
- Pruning the history at two times is not pruning at the later one. The exact condition is
  RetentionRuns.PrunesComposeIff, and only an hour that straddles the later 30-day line can break it
  (RetentionRuns.OnlyStraddlersLose).
- The rate limiter sweeps by the window of whoever calls. With keys enough to fill the table and as
  long as sweeps make room, that goes unnoticed from the empty table on exactly under
  RateLimitRuns.SweepSafe (RateLimitRuns.EvictionInvisibleIff); otherwise a call can be admitted that
  should be denied (RateLimitRuns.SlowUserAdmittedTooEarly).
- The per-user circuit evicts the user whose last failure is oldest, which may be one that is open or
  about to open. That changes an answer exactly under UserCircuitRuns.EvictionMattersIff.
- The relay's cursor assumes that ids become visible in order; a later commit of an earlier id is
  passed over (EventStoreRuns.LateCommitIsMissed).
- A Desk trigger is meant to fire within seven days; an absolute time is never checked against that,
  nor against the trigger's own delay (DeskPlan.TimeFiresAsAsked, DeskPlan.AbsoluteTimeUnchecked).

## Model

| member | source | states |
|---|---|---|
| TagCollisions.LiveTagsNeverCollide | src/nadobro/engine/order_tags.py:35-66 | in every run in which each tag is last touched within k allocations of its own and at most f entries are forgotten since any registered tag was last touched, with k + 8192 + f below the period 2^20 - 1, every allocation returns a tag that is not in the registry |
| TagCollisions.PacedRunsKeepTagsFree | src/nadobro/engine/order_tags.py:35-66 | the same from any state that satisfies the ledger invariant, step by step |
| TagCollisions.CollisionIff | src/nadobro/engine/order_tags.py:35-53 | the next tag is taken exactly when some registered tag was allocated a whole number of periods ago, a tag never allocated counting as allocated at its own number |
| TagCollisions.NeverCollidesIff | src/nadobro/engine/order_tags.py:35-113 | over all runs, with no pacing and tags from anywhere: no allocation returns a registered tag if and only if at no allocation a registered tag is whole periods apart |
| TagCollisions.KnownStep | src/nadobro/engine/order_tags.py:35-113 | every operation keeps the ledger right that numbers the allocations |
| TagCollisions.NextTagIsFree | src/nadobro/engine/order_tags.py:35-53 | the eviction order bounds how old a registered tag can be, so below the period the next tag is free |
| TagCollisions.SameTagIff | src/nadobro/engine/order_tags.py:35-43 | two allocations return the same tag exactly when the distance between them is a multiple of 2^20 - 1 |
| TagCollisions.NextIsNth | src/nadobro/engine/order_tags.py:40-43 | the wrapping counter, with 0 reserved, hands out the n-th tag in closed form |
| TagCollisions.ForgetRecency | src/nadobro/engine/order_tags.py:104-113 | forgetting entries weakens how recently a surviving tag must have been touched by exactly the entries removed |
| TagCollisions.ForgetStormCollides | src/nadobro/engine/order_tags.py:16-18 | the bound on forgets is needed: one resting order followed by a period of orders placed and forgotten at once makes the next allocation return the resting tag |
| OrderTags.NextTag | src/nadobro/engine/order_tags.py:40-43 | every tag handed out lies in 1 .. 2^20 - 1, never the reserved 0 |
| OrderTags.TagStore.AllocateTag | src/nadobro/engine/order_tags.py:35-43 | the counter becomes the tag returned, and nothing else changes |
| OrderTags.TagStore.EvictIfNeeded | src/nadobro/engine/order_tags.py:46-53 | oldest tags leave together with the digest they carry, then oldest digests |
| OrderTags.TagStore.RegisterTag | src/nadobro/engine/order_tags.py:56-66 | the entry is merged over what the tag had, becomes newest, and the caps are restored |
| OrderTags.TagStore.BindDigest | src/nadobro/engine/order_tags.py:69-82 | both indexes are written and made newest, nothing happens without a tag and a digest |
| OrderTags.TagStore.ForgetEntry | src/nadobro/engine/order_tags.py:104-113 | by digest and by tag, each with the entry it points at |
| OrderTags.TagStore.LookupTag | src/nadobro/engine/order_tags.py:85-90 | the tag's entry, if registered |
| OrderTags.TagStore.LookupDigest | src/nadobro/engine/order_tags.py:93-101 | the entry of the tag the digest points at |
| OrderTagRuns.LookupsAgree | src/nadobro/engine/order_tags.py:85-101 | with agreeing indexes a digest resolves exactly when some tag's entry carries it, and then to that entry |
| OrderTagRuns.SizesBounded | src/nadobro/engine/order_tags.py:46-66 | both maps stay within 8192 in every run, under no discipline at all |
| OrderTagRuns.TagStays | src/nadobro/engine/order_tags.py:46-113 | a registered tag stays registered while fewer than 8192 other tags are touched after it and nobody forgets it |
| OrderTagRuns.RegisterMerges | src/nadobro/engine/order_tags.py:56-66 | the new digest, if one is given, and the new metadata win over what the tag had, the rest of it stays, and no other entry changes |
| OrderTagRuns.BindSetsDigest | src/nadobro/engine/order_tags.py:69-82 | a bind changes the digest of its tag and nothing else of any entry that stays |
| OrderTagRuns.ForgetTakesItsOwn | src/nadobro/engine/order_tags.py:104-113 | exactly the entries named by the digest and by the tag leave, the digest itself always |
| OrderTagRuns.EvictTrimsTags | src/nadobro/engine/order_tags.py:46-53 | eviction takes oldest tags down to the cap and no further |
| OrderTagRuns.BindKeepsAgreementIff | src/nadobro/engine/order_tags.py:69-82 | a bind keeps the two indexes mutually inverse exactly when it gives the tag no second digest and the digest no second tag, or when the eviction it causes removes its own stale digest |
| OrderTagRuns.StaleDigest | src/nadobro/engine/order_tags.py:78-82 | binding a second digest to a tag leaves the first behind, unless the full digest map evicts it at once |
| OrderTagRuns.DigestStolen | src/nadobro/engine/order_tags.py:78-82 | binding a digest that belongs to another tag always breaks the agreement |
| OrderTagRuns.EvictKeepsAgreement | src/nadobro/engine/order_tags.py:46-53 | from agreeing indexes the second eviction loop removes nothing and the agreement survives |
| OrderTagRuns.AgreeSizes | src/nadobro/engine/order_tags.py:31-32 | agreeing indexes never hold more digests than tags |
| OrderTagRuns.CleanStepAgrees | src/nadobro/engine/order_tags.py:35-113 | register, bind, evict and forget keep the indexes mutually inverse under the one-digest discipline |
| OrderTagRuns.CleanRunsAgree | src/nadobro/engine/order_tags.py:35-113 | so they are mutually inverse after every disciplined run |
| LifecycleRuns.SeqDetectsEveryEvent | src/nadobro/engine/order_lifecycle.py:82-164 | over any run that does not forget a digest and touches fewer than 8192 others, its sequence number rises by exactly one per event about it, seeds or not, and its state is where its history takes it; unless seeded on the way, the number is equal at two reads exactly when there was no event and a terminal state stays; and the entry is fresh when terminal or for the trusted time after the latest event |
| LifecycleRuns.ReasonDecides | src/nadobro/engine/order_lifecycle.py:49-57 | an order update about an open order, its reason in any case and with any space around it: placed and open leave it open, filled, cancelled (or canceled) and rejected end it so, and any other reason, or none, leaves the state as it was |
| LifecycleRuns.ClosedStays | src/nadobro/engine/order_lifecycle.py:110-112 | a filled, cancelled or rejected order stays so and is always fresh; a fill makes any other partially filled |
| LifecycleRuns.FirstEvent | src/nadobro/engine/order_lifecycle.py:101-115 | the first event about an unknown digest makes it an entry at sequence 1 with the time and tag of the event |
| LifecycleRuns.OwnDigestWins | src/nadobro/engine/order_lifecycle.py:120-124 | an event that names its digest is about that one whatever its tag is bound to; without it the digest bound to the tag counts |
| LifecycleRuns.Forgotten | src/nadobro/engine/order_lifecycle.py:183-187 | a forgotten digest is gone and no other entry changes |
| Text.SpellsIff | src/nadobro/engine/order_lifecycle.py:125 | strip().lower() gives a word exactly for the word in any case with any space around it |
| LifecycleRuns.TerminalStays | src/nadobro/engine/order_lifecycle.py:110-112 | without seeds no history leads out of a terminal state |
| LifecycleRuns.SeedStartsAfresh | src/nadobro/engine/order_lifecycle.py:89-96 | from the last seed on the state is where the events since take the seeded one, whatever was known before |
| LifecycleRuns.FirstTerminalDecides | src/nadobro/engine/order_lifecycle.py:110-112 | without seeds the first terminal report in a history decides the state, whatever follows |
| LifecycleRuns.LastKnownDecides | src/nadobro/engine/order_lifecycle.py:110-112 | without seeds and terminal reports the last report that names a state decides |
| LifecycleRuns.SeedIsNotFresh | src/nadobro/engine/order_lifecycle.py:82-91 | a seed is a baseline at sequence 0, never a reason to trust the entry unless terminal |
| LifecycleRuns.RunTracks | src/nadobro/engine/order_lifecycle.py:101-146 | the run induction behind it, with the entry tracked through eviction |
| LifecycleRuns.SeedKeepsTerminalIff | src/nadobro/engine/order_lifecycle.py:89-98 | a seed overwrites a terminal state: it survives exactly when the seed repeats it; the sequence number always survives |
| LifecycleRuns.TagOnlyEvent | src/nadobro/engine/order_lifecycle.py:118-146 | with agreeing indexes an event that carries only a tag bumps exactly the entry of the digest bound to it, or creates it at sequence 1, and leaves the indexes agreeing |
| LifecycleRuns.TagOnlyEventAfterAnyRun | src/nadobro/engine/order_lifecycle.py:118-146 | and so it does after every disciplined run from empty stores |
| LifecycleRuns.DisciplinedRunsAgree | src/nadobro/engine/order_lifecycle.py:118-146 | runs of seeds, events, forgets and tag operations whose binds are clean keep the indexes agreeing and both stores within bounds |
| LifecycleRuns.TagOnlyDroppedIff | src/nadobro/engine/order_lifecycle.py:120-124 | an event that carries only a tag is dropped exactly when no digest is bound to that tag |
| OrderLifecycle.LifecycleStore.SeedEntry | src/nadobro/engine/order_lifecycle.py:82-98 | a new entry starts at sequence 0, an old one takes the state and keeps its tag if none is given |
| OrderLifecycle.LifecycleStore.TouchEntry | src/nadobro/engine/order_lifecycle.py:101-115 | one more in the sequence, stamped, made newest; the state only moves while not terminal |
| OrderLifecycle.LifecycleStore.EvictIfNeeded | src/nadobro/engine/order_lifecycle.py:77-79 | oldest entries leave until 8192 remain |
| OrderLifecycle.LifecycleStore.ApplyOrderUpdate | src/nadobro/engine/order_lifecycle.py:118-129 | store and tag registry after an order update, by the digest it names or its tag is bound to; what each reason does is LifecycleRuns.ReasonDecides |
| OrderLifecycle.LifecycleStore.ApplyFill | src/nadobro/engine/order_lifecycle.py:132-146 | a fill leaves the order at least partially filled and never takes it out of a terminal state |
| OrderLifecycle.LifecycleStore.Get | src/nadobro/engine/order_lifecycle.py:151-164 | the entry, fresh when terminal or stamped within the trust window |
| OrderLifecycle.LifecycleStore.ForgetEntry | src/nadobro/engine/order_lifecycle.py:183-187 | only that entry leaves |
| SingleFlight.AtMostOneFetchPerKey | src/nadobro/engine/market_data.py:54-81 | in every interleaving of callers in which nobody invalidates while someone is waiting or fetching, at most one fetch per key is in flight |
| SingleFlight.OneFetchPerLock | src/nadobro/engine/market_data.py:68-81 | whatever is invalidated, two fetches never share one lock object |
| SingleFlight.CallersServedWell | src/nadobro/engine/market_data.py:61-81 | in every interleaving each caller gets its own fetch or one stored less than ttl before, and no newer one of that key was available |
| SingleFlight.FetchesSpaced | src/nadobro/engine/market_data.py:50-81 | without invalidation and with at most max_entries keys, any two successful fetches of a key complete at least ttl apart |
| SingleFlight.InvalidateKeepsSingleFlightIff | src/nadobro/engine/market_data.py:99-102 | an invalidation leaves single flight intact in every continuation exactly when nobody is waiting or fetching at that moment |
| SingleFlight.BusyInvalidateSplitsFlight | src/nadobro/engine/market_data.py:99-102 | invalidating during a fetch lets a newcomer fetch the same key beside it |
| SingleFlight.WaitingInvalidateSplitsFlight | src/nadobro/engine/market_data.py:99-102 | so does invalidating while a caller only waits for a lock that has come free |
| SingleFlight.RecentlyUsedStays | src/nadobro/engine/market_data.py:62-81 | over any sequence of uses an entry survives, with its latest stored value, as long as fewer than max_entries other keys were served or stored since it was |
| SingleFlight.RunUses | src/nadobro/engine/market_data.py:54-81 | in every interleaving without invalidation the cache is what serving hits and storing fetches makes of it, and only present keys are served |
| SingleFlight.RecentlyUsedStaysInRuns | src/nadobro/engine/market_data.py:54-81 | so an entry in use survives every interleaving in which callers use fewer than max_entries other keys |
| SingleFlight.EvictedIff | src/nadobro/engine/market_data.py:54-81 | the exact condition: an entry no longer used is still there, unchanged, after an interleaving if and only if fewer than max_entries other keys were served or stored since it was |
| SingleFlight.UsedIsNewest | src/nadobro/engine/market_data.py:62-81 | right after its use nothing is behind a key, where the condition starts |
| SingleFlight.StartKeepsAll | src/nadobro/engine/market_data.py:36-48 | a new service satisfies the invariants of the theorems above |
| MarketData.MarketDataService.constructor | src/nadobro/engine/market_data.py:36-48 | the bound is at least one entry |
| MarketData.MarketDataService.TryHit | src/nadobro/engine/market_data.py:62-66 | a hit younger than ttl is served and made newest, anything else leaves the cache alone |
| MarketData.MarketDataService.GetLock | src/nadobro/engine/market_data.py:54-59 | one lock object per key until invalidated |
| MarketData.MarketDataService.StoreFetched | src/nadobro/engine/market_data.py:77-81 | the value is stored with its completion time, made newest, and the bound restored |
| MarketData.MarketDataService.EvictIfNeeded | src/nadobro/engine/market_data.py:50-52 | oldest entries leave until the bound holds |
| MarketData.MarketDataService.Invalidate | src/nadobro/engine/market_data.py:99-102 | both maps are emptied, and no lock number is reused |
| LruCache.NeverStale | src/nadobro/core/bounded_cache.py:60-96 | in every run a lookup returns nothing but the latest set, unexpired value of its key, and the size never passes the cap |
| LruCache.WorkingSetHits | src/nadobro/core/bounded_cache.py:60-96 | after a set, with fewer than max_size other keys touched and no pop or clear of it, a lookup answers exactly as a cache without bound would |
| LruCache.KeptRun | src/nadobro/core/bounded_cache.py:60-96 | the run induction behind it |
| LruCache.HitsKeepWorking | src/nadobro/core/bounded_cache.py:60-96 | after a hit the same holds: a lookup is a use as good as a set |
| LruCache.CellLives | src/nadobro/core/bounded_cache.py:60-81 | a value lives for the time given with it, else the time of the cache, and for good if that is not positive |
| LruCache.GetKeepsHits | src/nadobro/core/bounded_cache.py:60-70 | a lookup drops its own key exactly when it has expired, makes a hit newest, and leaves every other key alone |
| LruCache.Cache.Get | src/nadobro/core/bounded_cache.py:60-70 | a hit becomes newest, an expired entry is dropped |
| LruCache.Cache.Set | src/nadobro/core/bounded_cache.py:72-81 | an old key moves and is overwritten, a new one is appended and the cap enforced |
| LruCache.Cache.Pop | src/nadobro/core/bounded_cache.py:83-86 | the value comes back and only that key leaves |
| LruCache.Cache.Clear | src/nadobro/core/bounded_cache.py:88-90 | everything leaves |
| LruCache.Cache.EnforceCapLocked | src/nadobro/core/bounded_cache.py:92-96 | oldest entries leave until the cap holds; a cap of 0 or less is none |
| OrderedDicts.WorkingSetSurvives | src/nadobro/core/bounded_cache.py:95-96 | popping oldest entries down to a cap never reaches a key with fewer than that many distinct keys behind it |
| KeyedLocks.RequestIsLru | src/nadobro/core/bounded_cache.py:146-176 | under a nondecreasing clock a request makes its key newest and, when full, drops exactly the least recently used key, never the one requested; all other handles are unchanged |
| KeyedLocks.SweepDropsOldest | src/nadobro/core/bounded_cache.py:168-176 | whatever the idle cutoff, the two-phase sweep drops exactly the oldest key |
| KeyedLocks.IdleGoesFirst | src/nadobro/core/bounded_cache.py:163-176 | whatever the touch times, of one key too many the first idle one in order goes |
| KeyedLocks.SameLock | src/nadobro/core/bounded_cache.py:146-176 | two requests for a key get the same lock whenever fewer than max_size other keys were requested and it was not discarded in between |
| KeyedLocks.SameLockIff | src/nadobro/core/bounded_cache.py:146-176 | the exact condition: the later request gets the same lock if and only if in between the key was never discarded and never had max_size other keys, requested since it was and not discarded, behind it |
| KeyedLocks.RequestedHas | src/nadobro/core/bounded_cache.py:146-157 | a request leaves its key with its lock and nothing behind it, where the condition starts |
| KeyedLocks.InvGet | src/nadobro/core/bounded_cache.py:146-157 | touch times keep following the order of keys |
| KeyedLocks.InvDiscard | src/nadobro/core/bounded_cache.py:159-161 | and a discard keeps that |
| KeyedLocks.KeyedLockMap.Get | src/nadobro/core/bounded_cache.py:146-157 | the lock of the key, made on demand, and the whole new map |
| KeyedLocks.KeyedLockMap.EnforceCapLocked | src/nadobro/core/bounded_cache.py:163-176 | idle keys first, then oldest |
| KeyedLocks.KeyedLockMap.Discard | src/nadobro/core/bounded_cache.py:159-161 | only that key leaves |
| Inventory.PnlIdentity | src/nadobro/engine/inventory.py:79-103 | realized plus unrealized PnL equals sell quote less buy quote plus net base at the mark, less quote booked on a side without base, in every long, short, flat and one-sided case |
| Inventory.PnlApart | src/nadobro/engine/inventory.py:57-103 | nothing is realized while one side is empty; the unrealized figure is 0 when flat and at the average price of the open side, and grows by the net position with the mark; long and short are which side is larger |
| Inventory.InventoryRepository.GetHold | src/nadobro/engine/inventory.py:126-137 | a lookup of an unknown key inserts an empty hold, any other changes nothing |
| Inventory.InventoryRepository.Apply | src/nadobro/engine/inventory.py:139-179 | refused, with nothing changed, exactly for an infinite or NaN amount or a negative base or quote; an accepted fill is added to its side of its own hold |
| Inventory.InventoryRepository.ListForUser | src/nadobro/engine/inventory.py:181-185 | the user's holds, in insertion order |
| Inventory.InventoryRepository.ClearForController | src/nadobro/engine/inventory.py:195-200 | exactly the controller's holds leave |
| PnlConservation.CleanFillsConserve | src/nadobro/engine/portfolio.py:239-255 | after any run of fills without stray quote, lookups and clears, with every pair marked, each controller's reported net, and their sum, is the cash flow of its fills plus their base at the marks less fees |
| PnlConservation.PnlConserved | src/nadobro/engine/portfolio.py:239-255 | the same for all fills, with the quote booked on base-less sides as the exact difference |
| PnlConservation.BooksBalance | src/nadobro/engine/inventory.py:139-200 | over every run the holds carry exactly the worth of the accepted fills in scope that no later clear of their controller dropped |
| PnlConservation.HoldIsItsFills | src/nadobro/engine/inventory.py:139-200 | over every run a hold is the sum of its accepted fills since its controller was last cleared: bought and sold base and quote each for itself, the fees and the latest time |
| PnlConservation.FiguresAddUp | src/nadobro/engine/portfolio.py:244-255 | a controller is reported exactly when it has a hold; realized is the sum over its holds, unrealized over its marked holds only, fees and open executors as given, and net is realized plus unrealized less fees |
| PnlConservation.ClearTopples | src/nadobro/engine/inventory.py:195-200 | a clear takes from that worth exactly its controller's fills still standing |
| PnlConservation.ReportedIsLine | src/nadobro/engine/portfolio.py:244-254 | what the report adds up for marked holds is their cash value less fees, less their stray quote |
| PnlConservation.AggregateTotals | src/nadobro/engine/portfolio.py:244-255 | grouping by controller neither loses nor double-counts a hold |
| PnlConservation.CleanFillsLeaveNoStray | src/nadobro/engine/inventory.py:160-177 | if no accepted fill has quote without base, no hold ever has stray quote |
| Portfolio.State | src/nadobro/engine/portfolio.py:239-259 | the total value of the balances and the grouped, netted figures of the holds |
| Balances.GroupsAddUp | src/nadobro/engine/portfolio.py:261-276 | however balances are grouped, by asset or by account, the parts add up to the total value |
| Balances.ValueCases | src/nadobro/engine/portfolio.py:311-316 | a token is worth its stated value, else its units at the price, else at the mark, else nothing |
| Balances.AssetsAreHeld | src/nadobro/engine/portfolio.py:264-267 | each asset has its value summed over the accounts, and only assets held somewhere have an entry |
| Balances.PercentageOf | src/nadobro/engine/portfolio.py:327-331 | of a positive total each part gets its hundredfold fraction |
| Balances.PercentagesAddUp | src/nadobro/engine/portfolio.py:327-331 | the weights add up to 100 when the total is above 0, and are all 0 otherwise |
| Balances.GroupByAsset | src/nadobro/engine/portfolio.py:264-267 | the grouping loops of the asset distribution |
| Balances.TokensAddUp | src/nadobro/engine/portfolio.py:265-267 | adding an account's tokens by asset adds exactly the account's value |
| Portfolio.AggregateAll | src/nadobro/engine/portfolio.py:244-252 | the first loop is the grouping, an unmarked pair adding no unrealized PnL |
| Portfolio.NetAll | src/nadobro/engine/portfolio.py:253-255 | the second loop nets every controller and keeps their order |
| RetentionRuns.RetentionCovers | src/nadobro/engine/portfolio.py:176-220 | after any mix of records and prunes at times up to now, every row ever recorded that is at most 365 days old has a survivor of the same user, network and calendar day no older than itself |
| RetentionRuns.PruneKeepsNewest | src/nadobro/engine/portfolio.py:192-220 | a prune keeps exactly one row, a newest one, of every bucket that has a row young enough, and invents none |
| RetentionRuns.RetentionPolicy | src/nadobro/engine/portfolio.py:210-220 | by the calendar: after a prune every sample of the last 7 days is there, one row an hour up to 30 days and one a day up to 365, none older, and each older row is represented in its own hour or day |
| RetentionRuns.PrunedByUserAndTime | src/nadobro/engine/portfolio.py:206 | the rows are left in order of user and then of time |
| RetentionRuns.PruneIdempotent | src/nadobro/engine/portfolio.py:192-207 | pruning twice at one time is pruning once, row for row and in order |
| RetentionRuns.PrunesComposeIff | src/nadobro/engine/portfolio.py:192-220 | among rows with distinct timestamps, pruning at two times keeps the same rows as pruning at the later one exactly when no row that is the newest of its bucket then shares its earlier bucket with a newer one |
| RetentionRuns.OnlyStraddlersLose | src/nadobro/engine/portfolio.py:214-219 | only an hour kept as one bucket that the later 30-day line cuts in two can lose a row |
| RetentionRuns.PrunesCompose | src/nadobro/engine/portfolio.py:214-219 | so the two prunes agree whenever that line falls on a full hour, or no row is between 7 and 30 days old at the first |
| RetentionRuns.PruneDoesNotCompose | src/nadobro/engine/portfolio.py:214-219 | and two rows of one straddling hour on which they do not |
| RetentionRuns.SurvivesIff | src/nadobro/engine/portfolio.py:192-207 | among rows with distinct timestamps a row survives exactly when it is the newest of its bucket |
| RetentionRuns.PruneCovers | src/nadobro/engine/portfolio.py:192-220 | one prune keeps a covered row covered |
| PortfolioHistory.HistoryRepository.Record | src/nadobro/engine/portfolio.py:176-177 | the row is appended |
| PortfolioHistory.HistoryRepository.PruneRows | src/nadobro/engine/portfolio.py:192-207 | the loop keeps the newest row per bucket, sorts by user and time, and returns how many rows left |
| RateLimitRuns.EvictionInvisible | src/nadobro/core/user_rate_limit.py:39-85 | with fixed rates, no enabled caller's sweep window shorter than another key that holds a token or more needs to refill, nondecreasing times, and whenever the stale sweep alone makes room, the bounded limiter gives the same verdict and retry_after on every call as one that never evicts |
| RateLimitRuns.InvisibleFromEmpty | src/nadobro/core/user_rate_limit.py:36-85 | in particular from an empty table |
| RateLimitRuns.EvictionInvisibleIff | src/nadobro/core/user_rate_limit.py:36-85 | for a policy that enables enough keys to fill the table, no run from the empty table in which sweeps make room tells the limiter from one that never evicts, exactly when no caller sweeps by a window shorter than another key that holds a token or more needs to refill |
| RateLimitRuns.SweepSafeIff | src/nadobro/core/user_rate_limit.py:42-44 | that condition says exactly that whatever any enabled caller would sweep away, of the balances calls can leave, has refilled |
| RateLimitRuns.UnsafeIsVisible | src/nadobro/core/user_rate_limit.py:36-85 | under any other policy some calls on an empty limiter are answered otherwise: a key empties its bucket, a crowd fills the table, another key sweeps it too early, and a burst of the first key tells |
| RateLimitRuns.BurstTells | src/nadobro/core/user_rate_limit.py:77-85 | limiters that see different balances of a key answer some burst of its calls differently |
| RateLimitRuns.AdmittedTooEarly | src/nadobro/core/user_rate_limit.py:36-85 | from the empty table, when a crowd calls once each and the sweep comes before a key has earned its next token, that key is admitted where the unbounded limiter denies |
| RateLimitRuns.SlowUserAdmittedTooEarly | src/nadobro/core/user_rate_limit.py:36-85 | for instance 5000 users call once, and 61 seconds later user 1 lets user 0, at one token per 100 seconds, spend a second token |
| RateLimitRuns.FractionalKeyIsSafe | src/nadobro/core/user_rate_limit.py:72-85 | a key that holds less than a token is swept unnoticed however slowly it refills |
| RateLimitRuns.SweepSim | src/nadobro/core/user_rate_limit.py:42-44 | the stale sweep removes only buckets that have already refilled |
| RateLimitRuns.SweptIff | src/nadobro/core/user_rate_limit.py:42-44 | the sweep takes exactly the buckets untouched for more than the window and more than a minute |
| RateLimitRuns.OldestGoFirst | src/nadobro/core/user_rate_limit.py:45-48 | where the sweep makes no room, buckets go until 4999 are left and none goes that was touched later than one that stays |
| RateLimitRuns.TableStaysBounded | src/nadobro/core/user_rate_limit.py:39-75 | no call takes the table past 5000 buckets |
| RateLimitRuns.RetryAfterIsHonoured | src/nadobro/core/user_rate_limit.py:77-85 | a denied caller is admitted after a wait, whatever other users call meanwhile at any rates and times and however full the table is, exactly when its capacity is at least 1 and it waited at least retry_after, or sooner if its bucket was evicted |
| RateLimitRuns.RetryAfterIsExact | src/nadobro/core/user_rate_limit.py:77-85 | with room in the table and no other call, never sooner |
| RateLimitRuns.OthersKeepOrDrop | src/nadobro/core/user_rate_limit.py:39-75 | calls of other users leave a bucket as it is or drop it |
| UserRateLimit.RateLimiter.CheckRateLimit | src/nadobro/core/user_rate_limit.py:51-85 | verdict and new table of a call, disabled limits included |
| UserRateLimit.RateLimiter.TakeToken | src/nadobro/core/user_rate_limit.py:72-85 | refill up to capacity, then spend one token or quote the time one takes |
| UserRateLimit.RateLimiter.EvictStaleLocked | src/nadobro/core/user_rate_limit.py:39-48 | nothing below the cap, else stale buckets, then oldest |
| HttpSessionRuns.WindowBound | src/nadobro/core/http_session.py:173-206 | for every run of passes by any callers on any hosts, with any burst of 0 or more, the weight granted on a host in any window (t1, t2] is at most burst + rate * (t2 - t1) |
| HttpSessionRuns.BurstThenRefill | src/nadobro/core/http_session.py:191-202 | that bound is reached: an unknown host grants a full burst at once and what has refilled after it |
| HttpSessionRuns.GrantsArePaid | src/nadobro/core/http_session.py:191-202 | the potential argument: grants from any moment on are paid by what is available then and the refill |
| HttpSession.Session.AcquireToken | src/nadobro/core/http_session.py:173-206 | an uncontended call is served exactly when the burst can hold its weight and the missing part refills within its budget, not before that, and one whose budget is too short is refused without sleeping or spending; the loop ends even when the burst can never hold the weight |
| HttpSession.NeedCases | src/nadobro/core/http_session.py:184-187 | a call needs its cost, but at least one token and at most the burst |
| HttpSession.Session.TryAttempt | src/nadobro/core/http_session.py:191-202 | one pass through the lock: refill to the burst, then spend or not |
| HttpSession.SleepsOn | src/nadobro/core/http_session.py:203-206 | a sleep keeps the schedule on which the call will be served and uses up part of the wait, so the loop ends |
| HttpSession.Session.RecordChallenge | src/nadobro/core/http_session.py:259-277 | the host's breaker after one challenge |
| HttpSession.Session.RecordSuccess | src/nadobro/core/http_session.py:279-285 | failures are forgotten, an open period is not |
| HttpSession.Session.IsCircuitOpen | src/nadobro/core/http_session.py:248-256 | open exactly before the host's open_until |
| HttpSessionRuns.HostCircuitFollowsHistory | src/nadobro/core/http_session.py:248-285 | a host is blocked at a time exactly when it lies within one cooldown of an opening its own full history calls for; open periods never overlap and survive a success |
| HttpSessionRuns.HostsIndependent | src/nadobro/core/http_session.py:259-285 | a host's breaker depends on its own history only |
| Breakers.FailureCounts | src/nadobro/core/http_session.py:268-271 | after each failure the pruned list is exactly the failures of the whole history since the last success that are no older than the window |
| Breakers.RefinesHistory | src/nadobro/core/http_session.py:268-272 | the open period is that of the last opening the history rule calls for |
| Breakers.OpeningsApart | src/nadobro/core/http_session.py:271-272 | openings are at least a cooldown apart |
| Breakers.OpenExactlyInPeriods | src/nadobro/core/http_session.py:248-272 | open exactly within one cooldown of an opening |
| Breakers.RecordFailure | src/nadobro/core/user_circuit.py:55-63 | pruning, appending and the decision to open, in place |
| UserCircuitRuns.EvictionInvisible | src/nadobro/core/user_circuit.py:40-84 | while a user is evicted only when neither open nor with failures that still count, that user's circuit is open exactly when its own full history since the last success says so |
| UserCircuitRuns.EvictionMattersIff | src/nadobro/core/user_circuit.py:40-84 | the exact condition, for a user whose earlier evictions did not matter: after an eviction its circuit is answered as its full history would, whatever the user does next and whenever the circuit is asked for, if and only if at that moment the user was neither open nor had failures in the window, which only count for a threshold of at least 2 and a positive cooldown |
| UserCircuitRuns.ForgettableIff | src/nadobro/core/user_circuit.py:49-84 | a breaker is as good as a new one exactly then: otherwise a burst of failures and a query tell |
| UserCircuitRuns.QuietSpares | src/nadobro/core/user_circuit.py:44-50 | a user silent for longer than the window and the cooldown can be evicted so |
| UserCircuitRuns.TableTracks | src/nadobro/core/user_circuit.py:40-74 | the simulation behind it: no query or failure can tell a user's entry, or its absence, from the full history |
| UserCircuitRuns.FewUsersNoEviction | src/nadobro/core/user_circuit.py:44-46 | with no more failing users than the cap nobody is evicted |
| UserCircuitRuns.TableBounded | src/nadobro/core/user_circuit.py:44-50 | the table never outgrows its cap |
| UserCircuit.Oldest | src/nadobro/core/user_circuit.py:45 | the user evicted has the oldest last failure of all |
| UserCircuit.CircuitTable.RecordFailure | src/nadobro/core/user_circuit.py:36-63 | the table and the error texts after a failure, room made for a new user; with a cap of 0 it raises and changes nothing |
| UserCircuit.CircuitTable.LastError | src/nadobro/core/user_circuit.py:87-91 | the latest error text of a tracked user |
| UserCircuitRuns.ErrorsAreLatest | src/nadobro/core/user_circuit.py:44-63 | over every run the error text is the first 220 characters of the last one the user gave since it was last evicted |
| UserCircuit.KeysTellApart | src/nadobro/core/user_circuit.py:36-37 | networks are told apart without regard to case, and none means mainnet |
| UserCircuitRuns.NoRoomNoTable | src/nadobro/core/user_circuit.py:44-46 | with a cap of 0 nobody is ever tracked |
| UserCircuit.CircuitTable.RecordSuccess | src/nadobro/core/user_circuit.py:68-74 | a success forgets the failures and closes the circuit at once, for every later time |
| UserCircuit.CircuitTable.Open | src/nadobro/core/user_circuit.py:77-84 | open exactly before the user's open_until |
| OrchestratorRuns.AdmissionCapHolds | src/nadobro/engine/orchestrator.py:241-322 | at every point of every interleaving of spawns split at on_create, adoptions, executor code, ticks, prunes and kill flips, each controller's registered, not terminated executors that passed the risk gate never exceed max_open_executors |
| OrchestratorRuns.SpawnAdmittedIff | src/nadobro/engine/orchestrator.py:241-276 | a spawn is admitted exactly when neither switch is on and its request, if there is one to measure, is within the limits, by the executors open now; otherwise the switch is named, or the limit that blocks |
| OrchestratorRuns.KilledOnlyShrinks | src/nadobro/engine/orchestrator.py:241-254 | while the kill switch stays on, no step adds an open executor except an adoption |
| OrchestratorRuns.ThrottledLeavesNothing | src/nadobro/engine/orchestrator.py:279-301 | at every point of every run a throttled spawn takes its own entry and nobody else's out of the registry, and with ids not reused it never comes back, so no slot leaks |
| OrchestratorRuns.ThrottleUndoesSpawn | src/nadobro/engine/orchestrator.py:271-301 | with a fresh id and nothing in between, the registry is exactly what it was |
| OrchestratorRuns.TickDropsAreSafe | src/nadobro/engine/orchestrator.py:485-541 | whatever a successful tick drops had terminated before that tick began, has no order known to be open, has an order attribute if it failed, was released by the predicate, and leaves keep terminated executors of the controller, no older, behind |
| OrchestratorRuns.TickDropsSettled | src/nadobro/engine/orchestrator.py:114-139 | and nothing else holds back an executor whose orders are all terminal, missing or of unknown state and that did not fail without any order attribute |
| OrchestratorRuns.CountsOverRuns | src/nadobro/engine/controllers/controller_base.py:150-178 | over whole runs a controller's order counts move with what its executors do and with nothing else, however many ticks and prunes drop executors, if banking does not raise |
| OrchestratorRuns.TickKeepsCounts | src/nadobro/engine/orchestrator.py:497-541 | at every point of every run the end of a tick that banks without raising leaves every controller's order counts as they were |
| OrchestratorRuns.EndIsFinal | src/nadobro/engine/executor_base.py:110-115 | a terminated executor keeps its first close type and time in every run, whatever its code does through the base class, and once dropped never comes back |
| Executors.MovesEvolve | src/nadobro/engine/executor_base.py:106-115 | no sequence of activations, terminations and bookkeeping leads back or changes how an executor ended |
| OrchestratorRuns.TicksStaySound | src/nadobro/engine/orchestrator.py:487-497 | what a tick in flight saw terminated still is when it ends, unless it is gone |
| OrchestratorRuns.LastReasonIsLatest | src/nadobro/engine/orchestrator.py:324-328 | as long as no later event is about a spawn of the controller, last_spawn_reason gives the reason the latest such event gave, and nothing if it told of a success |
| OrchestratorRuns.NoticesNameTheirOwn | src/nadobro/engine/orchestrator.py:250-322 | every event names the executor and the controller of the step that gave it, and its kind tells how that ended |
| PruningFacts.DroppedIff | src/nadobro/engine/orchestrator.py:511-541 | an executor is dropped exactly when it is a terminated one of the controller, eligible, not possibly resting, released by the predicate, and at least keep others come before it by time and then by registration; all others are unchanged |
| PruningFacts.NewestSurvive | src/nadobro/engine/orchestrator.py:515-519 | whatever is dropped leaves keep surviving terminated executors no older |
| PruningFacts.NewestOrdered | src/nadobro/engine/orchestrator.py:515 | the reversed sort is newest first and stable |
| PruningFacts.CountsConserved | src/nadobro/engine/controllers/controller_base.py:150-178 | banked plus registered placed, filled and cancelled counts are unchanged by a prune for every controller, except for exactly what belonged to dropped executors and was not banked |
| Orchestrator.Registry.BeginSpawn | src/nadobro/engine/orchestrator.py:244-276 | rejected with its reason and an event, or registered with the trade recorder stamped and on_create still to run |
| Orchestrator.Registry.BeginController | src/nadobro/engine/orchestrator.py:430-438 | a new controller is registered with nothing banked, unless killed |
| Orchestrator.Registry.EndSpawn | src/nadobro/engine/orchestrator.py:277-322 | success clears the reason, a throttle removes the entry, a failure keeps it, each with its event |
| Orchestrator.Registry.AdoptPlaced | src/nadobro/engine/orchestrator.py:388-402 | registered with no gate and no kill check |
| Orchestrator.Registry.ListOf | src/nadobro/engine/orchestrator.py:214-222 | the controller's executors in registry order |
| Orchestrator.Registry.KillSwitchOn | src/nadobro/engine/orchestrator.py:196-201 | both switches are on and the orchestrator counts as killed |
| Orchestrator.Registry.KillSwitchOff | src/nadobro/engine/orchestrator.py:203-207 | neither is on and it does not |
| Orchestrator.Registry.PruneIfDue | src/nadobro/engine/orchestrator.py:519-538 | one candidate: kept, or banked and dropped |
| Orchestrator.Registry.PruneTerminated | src/nadobro/engine/orchestrator.py:499-541 | the whole prune, and how many it dropped |
| Orchestrator.Newest | src/nadobro/engine/orchestrator.py:515 | a permutation of the candidates |
| Executors.OrderMayStillRest | src/nadobro/engine/orchestrator.py:114-139 | false exactly when every order of known state is terminal and the executor, if it FAILED, has an order attribute |
| Executors.LifeEvolves | src/nadobro/engine/executor_base.py:106-115 | activation and termination go one way, and only the first termination counts |
| Executors.OneMoveMore | src/nadobro/engine/executor_base.py:106-115 | what one activation, termination or bookkeeping step does after any others |
| Executors.ErrorsFirst | src/nadobro/engine/executor_base.py:140-162 | the tries counted as errors are the first ones, and the next is none |
| Executors.ExecutorBase.Guard | src/nadobro/engine/executor_base.py:140-162 | the first try that is not an adapter error decides; a throttle defers without retry or termination; only three errors in a row terminate as FAILED, unless other code ended the executor while a try or a backoff sleep was awaited; each error counts one retry |
| ControllerTickRuns.ExhaustedStreakLasts | src/nadobro/engine/orchestrator.py:467-589 | in every interleaving with one tick in flight per controller, a controller gives up exactly on a fatal error or when its own transient streak reaches the limit, and then that streak took at least the sum of its delays, 1.5 (2^(limit - 1) - 1) seconds while the cap is not reached |
| ControllerTickRuns.FailureDelays | src/nadobro/engine/orchestrator.py:566-571 | a transient failure that does not exhaust the streak counts one more and backs off for 1.5 seconds doubled with each failure before it, up to the cap |
| ControllerTickRuns.FirstDelays | src/nadobro/engine/orchestrator.py:566-571 | 1.5, 3, 6 and 12 seconds |
| ControllerTickRuns.TotalClosed | src/nadobro/engine/orchestrator.py:566-571 | below the cap n delays add up to 1.5 (2^n - 1) seconds |
| ControllerTickRuns.EntersIff | src/nadobro/engine/orchestrator.py:467-484 | a controller is in backoff exactly until that delay after its latest failure is over |
| ControllerTickRuns.RunTracks | src/nadobro/engine/orchestrator.py:543-581 | counts and backoffs are those of the history since the last success, and each failure ends at least the previous backoff later |
| ControllerTickRuns.AlwaysAligned | src/nadobro/engine/orchestrator.py:180-183 | the fail-count and backoff maps share their keys, with counts from 1 to the limit less 1 |
| ControllerTickRuns.SpacedTotal | src/nadobro/engine/orchestrator.py:566-571 | failures spaced by the doubling, capped delays span the sum of them |
| ControllerTicks.Supervisor.TickBegin | src/nadobro/engine/orchestrator.py:467-484 | a tick enters on_tick exactly when active, out of backoff and past the gate |
| ControllerTicks.Supervisor.TickEnd | src/nadobro/engine/orchestrator.py:488-497 | success or giving up clears the streak, a transient error extends it |
| EventBusRuns.RunOps | src/nadobro/engine/orchestrator.py:633-673 | after any run of emissions, takes and drains the log is the last limit events, the queue the newest part of the history, consumers got a subsequence in order, everything emitted is delivered, queued or counted as overflow, and none of the last queue-limit events is ever lost |
| EventBusRuns.NothingLostWithoutOverflow | src/nadobro/engine/orchestrator.py:639-673 | until the first overflow, delivered then queued is the whole history |
| EventBus.Emitter.Emit | src/nadobro/engine/orchestrator.py:633-658 | appended to both, the oldest making room and being counted |
| EventBus.Emitter.Next | src/nadobro/engine/orchestrator.py:660-662 | the oldest queued event |
| EventBus.Emitter.DrainEvents | src/nadobro/engine/orchestrator.py:664-669 | everything queued, in order, and an empty queue |
| EventBus.Emitter.constructor | src/nadobro/engine/orchestrator.py:161-169 | both limits are at least 1 |
| Risk.SizeCapsBindOpeners | src/nadobro/engine/risk.py:86-98 | a reduce-only request is held up by the kill switch and the count alone, and no opening request escapes the size caps |
| Risk.NewDayUnblocks | src/nadobro/engine/types.py:215-228 | after a day rollover only the drawdown can block a tick, for limits that allow a day without trades |
| Risk.TickAllowedIff | src/nadobro/engine/risk.py:126-143 | a tick is let in exactly when no kill switch is on, the daily profit is above the floor and drawdown and daily cost are below their caps; the block named is the first of these in order |
| EventStoreRuns.DeliveredExactlyOnce | relay/event_store.py:59-135 | whatever the order in which events become visible and whatever the limits, a client that keeps its cursor is handed increasing ids, misses of what it has passed exactly those that became visible late, and has everything else once a poll comes back empty |
| EventStoreRuns.DeliveredIsPrefix | relay/event_store.py:36-135 | when a session's events become visible in id order, what was delivered is always a prefix of its log, and all of it once a poll comes back empty |
| EventStoreRuns.LateCommitIsMissed | relay/event_store.py:36-48 | two inserts that commit the wrong way round with a poll in between lose the first one to the client |
| EventStoreRuns.RunAccounted | relay/event_store.py:59-135 | the invariant over runs of inserts, commits and polls |
| EventStoreRuns.PollAccounted | relay/event_store.py:69-81 | one poll keeps it |
| EventStore.CursorRoundTrip | relay/event_store.py:61-66 | the cursor handed out is read back as the id it came from |
| EventStore.OtherCursors | relay/event_store.py:60-66 | no cursor and one that is no number start at the beginning, a signed one is read with its sign |
| EventStore.ContentRoundTrip | relay/event_store.py:29-126 | text, options that are not blank, a non-zero source message, the photo with its type, and the time come back as stored |
| EventStore.NonBlankKeeps | relay/event_store.py:30-35 | of the options exactly those with a character that is no space are kept, in order |
| EventStore.RelayStore.StoreEvent | relay/event_store.py:11-56 | an id one above the last and a row for an active session; nothing at all otherwise |
| EventStore.RelayStore.PollEvents | relay/event_store.py:59-135 | the session's first events after the cursor, the cursor of the last, the status, and a liveness stamp |
| EventStore.Batch | relay/event_store.py:96-128 | one item per row, in order, and the cursor of the last |
| DeskPlan.ValidatePlan | src/nadobro/engine/desk_plan.py:254-389 | the list names exactly what is wrong with a plan, and is empty exactly for sound plans |
| DeskPlan.SoundIff | src/nadobro/engine/desk_plan.py:254-389 | a plan is sound, as said part by part, exactly when no single problem applies |
| DeskPlan.TwapLimits | src/nadobro/engine/desk_plan.py:331-350 | a TWAP is sound exactly between 2 minutes and seven days, with slices at least 10 seconds apart (30 unless said otherwise), at most 2000 of them and no limit price |
| DeskPlan.ProductProblems | src/nadobro/engine/desk_plan.py:280-298 | at most one problem is named about the product, and it says truly whether the other market has it |
| DeskPlan.ScheduleProblems | src/nadobro/engine/desk_plan.py:331-350 | which side of which published limit each schedule problem is on |
| DeskPlan.TriggerProblems | src/nadobro/engine/desk_plan.py:352-370 | the same for trigger problems |
| DeskPlan.CheckHeader | src/nadobro/engine/desk_plan.py:271-278 | exactly the problems of style, market, side and mode, none exactly when those are sound |
| DeskPlan.CheckProduct | src/nadobro/engine/desk_plan.py:280-298 | exactly the problems of the product, none exactly when it trades on the market named |
| DeskPlan.CheckSize | src/nadobro/engine/desk_plan.py:300-314 | exactly the problems of size, none exactly for one positive size of at least the minimum |
| DeskPlan.CheckMarket | src/nadobro/engine/desk_plan.py:316-329 | exactly the problems of leverage and of trailing stops on spot, none exactly when both are sound |
| DeskPlan.CheckAlgo | src/nadobro/engine/desk_plan.py:331-350 | exactly the problems of limit price and TWAP schedule, none exactly for a sound schedule |
| DeskPlan.CheckTrigger | src/nadobro/engine/desk_plan.py:352-370 | exactly the problems of the entry trigger, none exactly for a sound one |
| DeskPlan.CheckExits | src/nadobro/engine/desk_plan.py:372-387 | exactly the problems of the exits, none exactly for sound ones |
| DeskPlan.CheckLevels | src/nadobro/engine/desk_plan.py:375-381 | exactly the exit levels out of range |
| DeskPlan.CheckPercents | src/nadobro/engine/desk_plan.py:375-378 | exactly the percentages outside (0, 100] |
| DeskPlan.CheckPrices | src/nadobro/engine/desk_plan.py:379-381 | exactly the prices not above 0 |
| DeskPlan.ResolvedIsDecidable | src/nadobro/engine/desk_plan.py:396-431 | a sound trigger resolves at any positive price to one the runtime check can decide |
| DeskPlan.ResolveIdempotent | src/nadobro/engine/desk_plan.py:396-416 | resolving again, at any price and time, changes nothing |
| DeskPlan.PctMoveFiresOnTheMove | src/nadobro/engine/desk_plan.py:403-431 | a percent move is never satisfied at arrival and fires at a later positive price exactly when the price moved that far in that direction |
| DeskPlan.CrossFiresFromArrivalSide | src/nadobro/engine/desk_plan.py:407-431 | a price to cross is satisfied at arrival only when it is the arrival price, and later exactly when reached from the arrival side |
| DeskPlan.LevelsFireWhenReached | src/nadobro/engine/desk_plan.py:419-434 | without a trigger a plan starts at once; a plain price fires when the mid is at or beyond it, a mid of 0 or less being no price to fall to; what was never resolved does not fire |
| DeskPlan.TimeFiresAsAsked | src/nadobro/engine/desk_plan.py:410-431 | a time trigger fires exactly from its absolute time on, taken as it stands, else from its delay on, which lies ahead and within seven days |
| DeskPlan.AbsoluteTimeUnchecked | src/nadobro/engine/desk_plan.py:365-370 | validation passes absolute times beyond the seven days, and one that fires before its own delay |
| DeskPlan.SlicesWithinLimits | src/nadobro/engine/desk_plan.py:167-170 | a validated TWAP that names an interval has 1 to 2000 slices, as many whole intervals as fit or one |

## Left out

- HttpSession.Session.AcquireToken: follows one caller whose clock moves only in its sleeps; several callers are covered by HttpSessionRuns.WindowBound, which bounds grants but not waiting times.
- EventStore.RelayStore.PollEvents: the SQL query is taken at its meaning, a cursor is read by int() on ASCII text, and base64 and JSON are left to the wire.
- UserCircuit.CircuitTable.RecordFailure: network names are lowered as ASCII text.
- Orchestrator.Registry.BeginSpawn: the telemetry is taken already rolled over to today; what the event bus does with an event is EventBus, which knows nothing of what events say.
- ControllerTicks.Supervisor.TickEnd: whether an error is transient is an input; the string matching that decides it is not modelled, nor are the events of a tick.
- DeskPlan.ValidatePlan: problems are named, not worded, and NaN and infinite numbers are excluded.
- Executors.ExecutorBase.Guard: counts the retries of one guarded operation at a time, and leaves out exceptions that are neither throttles nor adapter errors, which pass through.
- UserCircuitRuns.EvictionMattersIff: speaks of open circuits; any eviction also loses the user's last error text.
- Decimal and float rounding, clocks that run backwards, task cancellation and clock readings raced outside a lock.
- Exceptions other than throttles and failures out of on_create: the executor stays registered, as after a failure.
- stop_controller and the rollback of a failed controller start: they stop executors one by one, which the runs allow at any step.
- is_fresh repeats the freshness rule of get on one entry; clear and reset empty a store; stats, snapshot and the list helpers only read.
- The plan dictionaries (to_dict, from_dict) and the plan descriptions: text handling.
- purge_old_relay_events and find_session_for_incoming: delivery is stated for a log that is not purged.
- The portfolio's fetch and history filter rows by user, network and time; list_for_controller filters holds.
- _fill_was_taker, _config_leverage and the bridge to the trades table: reporting attributes.
- HTTP itself, Cloudflare detection, egress selection, Telegram handlers, translations and the database layer.
