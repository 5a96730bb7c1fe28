# City conquest, credits and their services: a verified model

The system lets players spend credits to support a city for their tribe. Whoever has the most
support holds the city; every change of holder is logged, credited to the supports that brought
it about, shown in a feed, and counted towards streaks, quests and derbies. This project models
the transactions behind that, one module per source file or component, and proves what each of
them keeps over whole runs.

| file | component |
|---|---|
| `Prelude.dfy`, `Text.dfy` | identifiers, options and results; trimming, splitting and province codes |
| `Wallet.dfy` | credit accounts and the append-only ledger |
| `SpendHistory.dfy` | the committed spends of all cities, and who holds a city after them |
| `Conquest.dfy` | supports, scores, the conquest log and the attribution window |
| `SupportService.dfy` | the spend transaction across all those tables, and what it publishes |
| `GuardedSpend.dfy` | the same transaction behind the circuit breaker |
| `ActivityFeed.dfy`, `ReadCursor.dfy` | live and stored feed; the log as players read it |
| `Streak.dfy`, `Quests.dfy` | daily streaks, quest progress |
| `Derby.dfy` | derbies, their counters and the by-city cache |
| `Threats.dfy` | contest tension and threat alerts |
| `Purchases.dfy`, `Pricing.dfy` | web purchases, refunds, chargebacks, invoices; money arithmetic |
| `TokenBucket.dfy`, `CircuitBreaker.dfy` | the rate limiter script, the write-path breaker |
| `Presence.dfy`, `SeasonArchive.dfy` | who is online; the end-of-season job |

## How it is built

Objects that the program updates in place are classes whose methods go through its statements in
order, rollback included. Each is proved against a specification, and the lemmas are about
that specification. For the spend path the specification is the history of committed spends:
supports, tags, log, scores, ledger debits, streaks, feed and derby counters are functions of it,
and `SupportService.Service` proves that every call, whichever statement fails, leaves all tables
equal to those of the history, extended by one spend or not at all. What players and operators are
promised is then proved for all histories.

Conventions: one service call is one atomic step, except where crash points are named
(`SeasonArchive`, the faults of `SupportService`). Clocks and freshly drawn ids are parameters.
Stamps taken under the city lock increase strictly within a city. Scores, multipliers, tensions
and tokens are reals; credits and kurus are unbounded integers. Tribe ids are numbers, so that the
SQL tie-break is an order. Purchases do not assume that payment ids and the keys of other wallet
callers are disjoint, only that no other caller debits with the refund reason, which holds of the
code.

## What the proofs turned up

Each of these is a property the code does not have. The first lemma named gives the exact
condition, the second a run in which it fails.

- `SeasonArchive`: the job recognises `lb:tribe_rank:supporters`, but the table's check rejects
  that scope, so no run finishes while that board exists (`Runner.Run`, `TribeRankIsRefused`).
- `SeasonArchive`: running the job again for the same season after new scores were written deletes
  a board whose older, different copy is what the archive keeps (`FinishedRunKeepsBoardIff`,
  `SecondRunDropsBoard`).
- `GuardedSpend`: when the trial of a half-open breaker fails a check on city, tribe or balance it
  is never recorded, and from then on the breaker rejects every call (`TrialWedgesIff`,
  `UnknownCityWedges`).
- `Purchases`: a payment whose id is already the key of an identical ledger row of another channel
  is recorded as a purchase without adding credits (`NewDeliveryPaysIff`,
  `SharedKeySwallowsGrant`).
- `Purchases`: a refund whose key is already in the ledger never goes through (`ClawbackFailsIff`,
  `TakenKeyBlocksRefund`).
- `Wallets`: a replay is answered with the first balance only while the balance check, made before
  the key is looked up, would pass once more (`ReplayAfterAnyRun`, `ShortReplayIsRefused`).
- `ReadCursor`: stamps are ordered per city only, so a flip committed with an older stamp than one
  already marked in another city starts out read (`Cursors.InsertOnTx`, `OlderStampStartsRead`).
- `ActivityFeed`: for the same reason a client that polls from its last id misses an item published
  later with an older stamp (`PollingFromLastId`, `LateItemIsMissed`).
- `Derbies`: two derbies may be active in one city, and then a spend by a tribe that plays one of
  them may count for neither (`PlayingTribeCountsIff`, `SecondDerbyHidesFirst`).

The quest engine's comparison of old and new province sets compares one map with itself; the stored
row is right all the same, because a new province always changes the count (`Quests.Engine.Update`).

## Model

| member | source | states |
|---|---|---|
| `Wallets.PostKeepsBooks` | backend/internal/credits/wallet.go:84-148 | One wallet transaction, from any tables in order: every balance stays non-negative and equal to the sum of its ledger deltas, every row keeps its running balance, keys stay unique across users, and no row is ever removed. |
| `Wallets.PostAnswers` | backend/internal/credits/wallet.go:84-148 | Which request is refused and with which error, in the order of the checks, and the one row and balance an accepted new request leaves. |
| `Wallets.EveryRunKeepsBooks` | backend/internal/credits/wallet.go:84-148 | Every sequence of grants and spends from empty tables keeps those books. |
| `Wallets.RowsChain` | backend/internal/credits/wallet.go:122-141 | A user's next ledger row carries the balance of that user's previous row plus its own delta, whatever other users did in between. |
| `Wallets.FirstRowOpens` | backend/internal/credits/wallet.go:122-141 | A user's first row carries its own delta as balance. |
| `Wallets.LatestRowIsBalance` | backend/internal/credits/wallet.go:84-148 | An account's balance is the balance_after of that user's latest row. |
| `Wallets.ReplayAfterAnyRun` | backend/internal/credits/wallet.go:105-128 | After a success and any run of other requests, the same request writes no row and moves no balance; it returns the first balance_after exactly when the balance check, which comes first, still passes, and otherwise reports too few credits. |
| `Wallets.ShortReplayIsRefused` | backend/internal/credits/wallet.go:108-111 | A run in which the replay fails: ten credits granted, ten spent, and the same spend sent again is refused for too few credits. |
| `Wallets.Wallet.ApplyOnTx` | backend/internal/credits/wallet.go:84-148 | The statement-by-statement update leaves exactly the tables, and gives exactly the answer, that the specification of one posting gives, error order included. |
| `Wallets.Wallet.GrantCreditsOnTx` | backend/internal/credits/wallet.go:43-48 | Refuses non-positive amounts, otherwise posts the amount and keeps the books. |
| `Wallets.Wallet.SpendCreditsOnTx` | backend/internal/credits/wallet.go:60-65 | Refuses non-positive amounts, otherwise posts the negated amount and keeps the books. |
| `Wallets.Wallet.GetBalance` | backend/internal/credits/wallet.go:20-32 | The stored balance, zero for a user without an account. |
| `SpendHistory.HolderStep` | backend/internal/support/spend.go:446-464 | One more spend changes who holds a city only in its own city and only to the tribe of the spender. |
| `SpendHistory.HolderBeats` | backend/internal/support/spend.go:446-464 | Whoever holds a city has support there, and every other tribe has less, or as much with a larger id. |
| `SpendHistory.SupportedIsHeld` | backend/internal/support/spend.go:446-464 | A city that anybody has supported is held. |
| `SpendHistory.TakeoverIff` | backend/internal/support/spend.go:446-474 | A spend takes a city from nobody always, and from another tribe exactly when its tribe goes past the holder, or draws level with a smaller id. |
| `SpendHistory.CaptureIsBySpender` | backend/internal/support/spend.go:289-304 | Whenever a spend changes the holder, the new holder is the tribe of that spend and it did not hold the city before. |
| `Conquest.ConquestStore.AttributeSupportsOnTx` | backend/internal/conquest/attribution.go:59-101 | Tags exactly the untagged rows of the winner in that city after its last loss and up to the flip, changes no other row, and records the causing support on the one log row. |
| `Conquest.LastLost` | backend/internal/conquest/attribution.go:70-79 | The latest time at which the winner lost this city, the new row aside; none exactly when it never did. |
| `Conquest.AttributionKeepsTags` | backend/internal/conquest/attribution.go:70-89 | The incremental UPDATE is right: run on the tables of any history plus one capturing spend, it gives every row the tag that the declarative reading of the longer history gives it. |
| `Conquest.NoFlipKeepsTags` | backend/internal/support/spend.go:294-321 | A spend that flips nothing leaves every earlier tag alone and is itself untagged. |
| `Conquest.HeldSupportIsOutside` | backend/internal/conquest/attribution.go:49-58 | A support made while its tribe held the city is never later than the last loss, so no recapture ever claims it. |
| `Conquest.FreshSupportIsInside` | backend/internal/conquest/attribution.go:49-58 | An untagged support made while its tribe did not hold the city is later than every loss of that tribe, so the next capture claims it. |
| `Conquest.TagMeaning` | backend/internal/conquest/attribution.go:49-58 | In every reachable state a support carries a log id exactly when its tribe did not hold the city just before it and that log row is the first capture of the city by that tribe from it on. |
| `Conquest.TaggedSetIsWindow` | backend/internal/conquest/attribution.go:49-58 | From the side of a capture: its tagged set is exactly the supports of the winner, in that city, since which the winner never held it. |
| `Conquest.CausingSupportIsTagged` | backend/internal/conquest/attribution.go:70-99 | The spend that flips a city is always in the tagged set of its own flip. |
| `Conquest.ConquestStore.InsertOnTx` | backend/internal/conquest/log.go:61-79 | Adds exactly the given row at the end of the log. |
| `Conquest.CityLogIsChain` | backend/internal/support/spend.go:289-321 | For every history, the log of a city is a chain: the first previous owner is empty, each later one is the new owner of the row before, no row names one owner twice, every winning sum is positive, and the last new owner is the present holder. |
| `Conquest.CityLogIsOrdered` | backend/internal/support/spend.go:244-246 | The rows of one city carry strictly increasing times, each the time of a spend there. |
| `Conquest.BumpKeepsScores` | backend/internal/support/spend.go:274-282 | The upsert turns the score table of a history into that of the history with one more spend: each score is the effective support of its pair. |
| `Conquest.LoadProvinceLeader` | backend/internal/support/spend.go:447-464 | Returns a tribe that leads the city and its sum; nothing exactly when no score of the city is positive. |
| `Conquest.LeaderMeaning` | backend/internal/support/spend.go:447-464 | The tribe returned has a positive sum, and every other score of the city is smaller, or equal with a larger id. |
| `Conquest.LeaderIsHolder` | backend/internal/support/spend.go:447-464 | Ranking the score table finds the holder that the history of spends defines, with its sum. |
| `SupportService.TablesBalance` | backend/internal/support/spend.go:253-282 | Across tables: each score equals the effective support summed over the support rows of that pair, and support rows and support_spend ledger rows match one to one with opposite amounts. |
| `SupportService.RereadSeesCapture` | backend/internal/support/spend.go:289-295 | Comparing the leader read before and after the bump reports a change exactly for the captures of the history, and then the new leader and sum are those the log has to record. |
| `SupportService.FlipKeepsTables` | backend/internal/support/spend.go:294-321 | Inserting the log row and attributing turns the supports and the log of a history into those of the longer history. |
| `SupportService.FreshDebit` | backend/internal/support/spend.go:253-260 | With a fresh support id the debit is refused exactly when the balance is short, and otherwise adds one row and takes the amount off. |
| `SupportService.FreshIdFreshKey` | backend/internal/support/spend.go:207-259 | While only spends write keys of that form, a support id that no committed spend has gives a ledger key that no row has. |
| `SupportService.Service.Statements` | backend/internal/support/spend.go:248-325 | The statements of the transaction, run without a fault, take wallet, supports, scores, streaks and log from the tables of the history to those of the history plus this spend. |
| `SupportService.Service.Transact` | backend/internal/support/spend.go:227-325 | All tables move together or none does, whichever statement fails. |
| `SupportService.Service.RecordFlip` | backend/internal/support/spend.go:294-321 | A flip leaves the tagged supports and the log row, its cause filled in, that the history prescribes. |
| `SupportService.Service.Commit` | backend/internal/support/spend.go:227-352 | A committed spend extends the history by one, moves the derby counter of the side it plays for, publishes its support_applied event, its region_supported event if it flipped the city, and its feed item, and answers with its true balance, flip and log id. |
| `SupportService.Service.Apply` | backend/internal/support/spend.go:176-416 | Every call keeps all tables, and what was published, equal to what the committed history defines; refused, failed and shadow-banned spends change nothing; which requests are refused, and with which error, is exact. |
| `SupportService.Service.PostOther` | backend/internal/credits/wallet.go:43-65 | Other wallet callers disturb none of the tables a spend relies on. |
| `GuardedSpend.SpendPath.Apply` | backend/internal/support/spend.go:151-174 | Behind the breaker, a spend is one call whose outcome the guards decide: without credits or a city it never asks, an unknown city, a missing tribe or, unless shadow-banned, a short balance goes unrecorded, and anything else is recorded as success or failure; not admitted means degraded and nothing changed. |
| `GuardedSpend.TrialWedgesIff` | backend/internal/support/spend.go:160-173 | The trial call of an open breaker is the last call it ever admits exactly when the spend names an unknown city, comes from a user without a tribe, or, unless the user is shadow-banned, exceeds the balance. |
| `GuardedSpend.UnknownCityWedges` | backend/internal/support/spend.go:160-173 | Such a run: one storage error opens the breaker, and a spend in an unknown city after the cooldown shuts it for good. |
| `Text.NormalizeIlCodeIdempotent` | backend/internal/support/spend.go:434-443 | Normalising a province code twice is normalising it once, so the spend path and the derby path, which each do it, look at the same city. |
| `Text.NormalizeIlCodeMeaning` | backend/internal/support/spend.go:434-443 | A single digit from 1 to 9, blanks around it aside, gets a leading zero; any other trimmed text is kept. |
| `ActivityFeed.LiveIsStored` | backend/internal/conquest/activity.go:106-137 | For every history, what was published live on activity:feed and what the merged query lists, each projected from its own side, are the same items, as multisets and field by field, so no spend shows both as a conquest and as a support. |
| `ActivityFeed.ItemMeaning` | backend/internal/support/spend.go:488-524 | What each spend publishes, read off the spends: a capture its log id, the tribe that now holds the city, the tribe that held it before, the winning support, derby flag and time; any other spend its own id, tribe and credits, if it counts for a derby or is large. |
| `ActivityFeed.PublishedMeaning` | backend/internal/support/spend.go:476-531 | An item is in the feed exactly when some spend publishes it. |
| `ActivityFeed.ListedCitiesAreKnown` | backend/internal/conquest/activity.go:118-131 | The stored feed lists supports of known cities only, with their names. |
| `ActivityFeed.RowsSurvive` | backend/internal/conquest/activity.go:106-137 | Tags never change what the feed shows, and a log row hides only the support that caused it. |
| `ActivityFeed.SpendKeepsAgreement` | backend/internal/support/spend.go:476-531 | One more spend adds to the stored feed exactly the item it publishes. |
| `ActivityFeed.CursorAcceptsExactlyPublished` | backend/internal/conquest/activity.go:184-212 | A since_id is accepted exactly when an item with that id was published, and stands for the time that item carried; the conquest log is asked first, so an id of both tables means the conquest. |
| `ActivityFeed.PollDeliversExactly` | backend/internal/conquest/activity.go:87-182 | A poll returns exactly the items later than the cursor, by time and then id, that have fewer than the clamped limit of later items. |
| `ActivityFeed.PageSizes` | backend/internal/conquest/activity.go:73-81 | A page has fifty items by default, a hundred at most, and otherwise as many as asked for. |
| `ActivityFeed.PollingFromLastId` | backend/internal/conquest/activity.go:87-212 | A client that polls with an id it was sent gets exactly the published items later than that one, short of those with a full page of later ones; the rest it misses. |
| `ActivityFeed.LateItemIsMissed` | backend/internal/conquest/activity.go:157-161 | Such a run: a spend that commits after another city's but carries an older stamp is published, and a client past the other item does not receive it. |
| `ReadCursor.Cursors.MarkRead` | backend/internal/conquest/log.go:159-219 | The marker only moves forward: it stays the latest of all entries the user ever marked, in whatever order; marking all leaves nothing unread; unknown ids are refused and change nothing; the number returned is one exactly when the marker moved. |
| `ReadCursor.Cursors.UnreadCount` | backend/internal/conquest/log.go:134-155 | Counts exactly the entries later than everything the user has marked, zero for an unknown user. |
| `ReadCursor.UnreadMeaning` | backend/internal/conquest/log.go:134-155 | An entry is unread exactly for a user without a marker, or when it happened after the marker's entry, or at the same time with a larger id. |
| `ReadCursor.Cursors.InsertOnTx` | backend/internal/conquest/log.go:61-79 | A new flip becomes unread for exactly the users without a marker and those whose marker it is later than. |
| `ReadCursor.MarkMovesMarker` | backend/internal/conquest/log.go:195-215 | Moving the marker only when the new entry is later keeps it at the latest of all marks. |
| `ReadCursor.MarkingNewestReadsAll` | backend/internal/conquest/log.go:164-181 | Marking the newest entry is always a move forward and reads everything. |
| `ReadCursor.LongerLogKeepsUnread` | backend/internal/conquest/log.go:134-155 | Appending an entry makes no read entry unread and no unread entry read. |
| `ReadCursor.OlderStampStartsRead` | backend/internal/conquest/log.go:134-155 | A flip stamped earlier than an entry already read in another city is never unread. |
| `Streak.FoldMeasuresStreaks` | backend/internal/engagement/streak.go:36-61 | Over any non-decreasing list of active days, the folded update gives as current the length of the maximal run of consecutive days ending at the last day, and as longest the length of the longest such run. |
| `Streak.CalendarDayBounds` | backend/internal/engagement/streak.go:63-66 | A day runs from Istanbul midnight, 21:00 UTC of the day before, for 24 hours. |
| `Streak.StreakStore.UpsertOnSupport` | backend/internal/engagement/streak.go:73-105 | Replaces just this user's row by the next streak for the Istanbul day of the spend, and returns old and new. |
| `Derbies.ActivateKeepsBooks` | backend/internal/derby/service.go:165-191 | Activation starts both counters at the sum, zero, of spends tagged so far and caches a derby that is active in its city. |
| `Derbies.ResolveKeepsBooks` | backend/internal/derby/service.go:194-229 | Resolution, also straight from scheduled, stores totals equal to the effective support of the tagged spends and removes the cached name. |
| `Derbies.NextKeepsBooks` | backend/internal/derby/service.go:165-257 | Any call or spend keeps: the cache names only a derby active in that city, the counters of an active derby equal the effective support tagged with it, by tribe, stored totals equal those sums; and a resolved row is frozen. |
| `Derbies.RunKeepsBooks` | backend/internal/derby/multiplier.go:81-127 | Those books hold at every moment of every run. |
| `Derbies.WindowsStand` | backend/internal/derby/service.go:70-126 | In every run each derby has two different tribes and a window that ends after it starts. |
| `Derbies.TotalsAreFinal` | backend/internal/derby/store.go:275-296 | Totals stored on resolution equal, at every later moment, the effective support of all spends ever tagged with the derby, and never change. |
| `Derbies.LookupFindsTheDerby` | backend/internal/derby/multiplier.go:61-109 | While a city has one active derby every lookup finds that one, cached or not. |
| `Derbies.LookupFindsIff` | backend/internal/derby/multiplier.go:81-109 | With any number of derbies active in a city, a lookup is sure to find a given one exactly when the cache names it or, with no cached name, every other one started before it. |
| `Derbies.PlayingTribeCountsIff` | backend/internal/derby/multiplier.go:110-126 | A spend by a tribe playing an active derby is doubled and counted for it exactly under that condition. |
| `Derbies.LastActivatedIsFound` | backend/internal/derby/service.go:165-191 | In every run, from its activation until the next activation or resolution in its city, every lookup there finds the derby activated last. |
| `Derbies.SecondDerbyHidesFirst` | backend/internal/derby/service.go:165-191 | A run with two active derbies in one city: a spend by the host of the first counts single and for no derby. |
| `Derbies.DerbyService.Create` | backend/internal/derby/service.go:70-126 | Which requests are accepted, exactly; which error a missing or equal tribe, an unknown tribe and an inactive one give; and that a derby starts scheduled, in the normalised city, with no totals. |
| `Derbies.DerbyService.Activate` | backend/internal/derby/service.go:165-191 | Succeeds exactly on scheduled derbies, changes that row only, and leaves the books in order. |
| `Derbies.DerbyService.Resolve` | backend/internal/derby/service.go:194-229 | Succeeds exactly once per derby and stores the tagged sums as totals. |
| `Derbies.DerbyService.ForceResolve` | backend/internal/derby/service.go:248-257 | Resolves whatever is not resolved yet, and says which of the two errors applies. |
| `Derbies.DerbyService.GetActiveByIl` | backend/internal/derby/store.go:162-173 | An active derby of the city that no other active one started after, or none exactly when there is none. |
| `Derbies.DerbyService.ResolveSupportMultiplier` | backend/internal/derby/multiplier.go:81-127 | Doubles exactly for the two tribes of the derby found, names that derby only while it is active in the normalised city, and fills the cache on a miss. |
| `Derbies.DerbyService.IncrScore` | backend/internal/derby/scores.go:77-88 | Counting a committed spend on its side keeps counters and tagged spends equal. |
| `Derbies.DerbyService.GetScores` | backend/internal/derby/scores.go:37-54 | The scores of an active derby are the effective support spent for each side; before it starts both are zero. |
| `Derbies.DerbyService.InitScores` | backend/internal/derby/scores.go:21-34 | Sets both counters to zero and lists the derby as live. |
| `Derbies.DerbyService.ExpireCounters` | backend/internal/derby/scores.go:92-108 | Counters of a resolved derby may vanish without touching its stored totals. |
| `Derbies.DerbyService.ListDue` | backend/internal/derby/store.go:216-259 | Exactly the rows of the status whose time has come, each once, oldest first. |
| `Derbies.DerbyService.ProcessDue` | backend/internal/derby/service.go:278-307 | One pass leaves every derby in the status its window prescribes, and nothing goes from scheduled to resolved without having been active. |
| `Purchases.RedeliveryGrantsNothing` | backend/internal/monetization/web_purchase.go:105-164 | A payment already recorded, refunded since or not, changes nothing when delivered again: its buyer is told the first grant, anyone else is refused. |
| `Purchases.NewDeliveryPaysIff` | backend/internal/monetization/web_purchase.go:93-139 | A new payment adds its credits exactly when no other ledger row uses its id as a key, is accepted exactly when there is none or an identical one, and a refused one leaves nothing behind; the answer names the row, its credits and the balance reached. |
| `Purchases.UnquotedGrantIff` | backend/internal/monetization/web_purchase.go:60-85 | Without a quote a delivery is accepted exactly when it comes through the web provider, nothing is missing, it is not for a custom amount, and it claims exactly the credits of an active pack; the order is then for the credits and price of the pack. |
| `Purchases.RefusedDelivery` | backend/internal/monetization/web_purchase.go:66-194 | Which error a refused delivery gives: provider, missing parts, wrong buyer, unknown product, or credits and product that do not match the quote or the pack. |
| `Purchases.WebProviderSpelling` | backend/internal/monetization/web_purchase.go:61-68 | The provider is accepted exactly when it spells iyzico in any case, blanks around it aside. |
| `Purchases.SharedKeySwallowsGrant` | backend/internal/monetization/web_purchase.go:129-139 | Such a run: after an app-store grant under the id of a payment, delivering the payment records the purchase and adds no credits. |
| `Purchases.DeliverKeepsBooks` | backend/internal/monetization/web_purchase.go:87-164 | Granting keeps the purchase books. |
| `Purchases.ClawbackKeepsBooks` | backend/internal/monetization/refunds.go:153-226 | Reversing keeps the purchase books, with a row read at any earlier time. |
| `Purchases.ClawbackFailsIff` | backend/internal/monetization/refunds.go:190-208 | The reversal of a purchase fails exactly when it is not refunded, something is left to take, and its refund key is already in the ledger; a failure changes nothing. |
| `Purchases.TakenKeyBlocksRefund` | backend/internal/monetization/refunds.go:197-208 | Such a run: after a stub grant under the refund key of a delivered payment, its reversal fails for a key conflict. |
| `Purchases.ClawbackTakesUnspent` | backend/internal/monetization/refunds.go:190-225 | A reversal takes exactly min(granted, balance) from the buyer alone, reports the balance it leaves, marks just that purchase, and happens once. |
| `Purchases.CheckoutIsFair` | backend/internal/monetization/web_purchase.go:304-347 | A custom checkout costs the least whole amount not under the baseline rate, within the allowed range only; a pack costs its price; both bring the greatest bonus within the promotion. |
| `Purchases.CheckoutAcceptedIff` | backend/internal/monetization/web_purchase.go:304-347 | A custom checkout is priced exactly for 50 to 10000 credits while the baseline pack is active with credits and a price, any other exactly for an active pack with a price; and which error it gives otherwise. |
| `Purchases.RunKeepsBooks` | backend/internal/monetization/refunds.go:109-226 | Over any interleaving of deliveries, refunds, chargebacks and other wallet operations the books stand, and rows only move from verified to refunded. |
| `Purchases.EveryRunSettlesOnce` | backend/internal/monetization/web_purchase.go:87-164 | In every run each purchase has exactly one ledger row under its payment id, a credit of the credits granted; if refunded, exactly one debit of min(granted, balance found), none if nothing was left; and one invoice for its amount, net plus tax, refunded exactly when it is. |
| `Purchases.LaterRedeliveryGrantsNothing` | backend/internal/monetization/web_purchase.go:105-128 | After a success and any run, a refund included, delivering the payment again changes nothing. |
| `Purchases.PaidQuoteIsGranted` | backend/internal/monetization/web_purchase.go:166-194 | After any other checkouts and any change of packs and promotions, a delivery for a quoted intent is accepted exactly when buyer, product and credits are those of the quote, and then for the credits and the price quoted. |
| `Purchases.WebPurchases.StartCheckout` | backend/internal/monetization/web_purchase.go:213-295 | Packs and earlier quotes stay; a new quote is kept under the intent that was opened, for this buyer and product, fairly priced; a refused checkout changes nothing, and which error it gives is exact. |
| `Purchases.WebPurchases.GrantFromPayments` | backend/internal/monetization/web_purchase.go:60-164 | The checks in their order, then the one delivery transaction. |
| `Purchases.WebPurchases.GrantOnTx` | backend/internal/monetization/web_purchase.go:87-164 | The statements of the transaction, with rollback, leave exactly what the specification of a delivery says. |
| `Purchases.WebPurchases.ApplyCreditClawback` | backend/internal/monetization/refunds.go:153-226 | The statements of the reversal leave exactly what its specification says, for a row read earlier. |
| `Purchases.WebPurchases.RefundWebPurchase` | backend/internal/monetization/refunds.go:65-105 | Nothing is reversed unless the payments service paid back; a refunded purchase is answered without a change. |
| `Purchases.WebPurchases.HandleChargeback` | backend/internal/monetization/refunds.go:109-151 | The oldest purchase of the intent or payment is flagged, even when its reversal then fails, and reversed. |
| `Purchases.OldestOfIntent` | backend/internal/monetization/refunds.go:270-289 | The purchase a chargeback concerns has its intent or, when one is given, its payment id, no older one has, and it is unknown exactly when there is none. |
| `Purchases.WebPurchases.WriteOnTx` | backend/internal/monetization/invoicing.go:118-159 | An invoice once written stays and no other is touched; a new one is for the buyer and the amount, open, with net plus tax equal to gross and the net the exact one rounded down. |
| `Purchases.WebPurchases.MarkInvoiceRefundedOnTx` | backend/internal/monetization/invoicing.go:162-171 | Marks just the invoice of that purchase. |
| `Pricing.CustomPriceIsLeast` | backend/internal/monetization/pricing.go:40-48 | The custom price is the least whole number of kurus not under the rate of the baseline pack. |
| `Pricing.SplittingIsNeverCheaper` | backend/internal/monetization/pricing.go:40-48 | However an order is split into custom orders, the parts together never cost less. |
| `Pricing.BonusIsGreatest` | backend/internal/monetization/pricing.go:28-36 | The bonus is the greatest whole number of credits within the percentage. |
| `Pricing.SplittingNeverRaisesBonus` | backend/internal/monetization/pricing.go:28-36 | However an order is split, the parts together never bring more credits than the whole, nor fewer than without a bonus. |
| `Pricing.SplitIsExact` | backend/internal/monetization/invoicing.go:42-54 | Net plus tax is gross, net is the exact net rounded down, tax the exact tax rounded up, neither is negative. |
| `Pricing.SplitIsMonotone` | backend/internal/monetization/invoicing.go:42-54 | Both parts grow with the gross. |
| `Pricing.ClientBonusAgrees` | frontend/lib/packOffers.ts:23-27 | The credits the client shows are the credits the server grants, on all whole numbers. |
| `Pricing.ClientPriceAgrees` | frontend/lib/packOffers.ts:29-36 | The price the client shows is the price the server charges, for every order the server accepts. |
| `TokenBucket.LevelIsNonNegative` | backend/internal/ratelimit/tokenbucket.go:47-77 | The stored tokens always stay between zero and the burst. |
| `TokenBucket.LevelIsLeastSlack` | backend/internal/ratelimit/tokenbucket.go:47-61 | The level at a call is exactly the smallest allowance left over all windows ending there. |
| `TokenBucket.AdmitsExactlyThePolicy` | backend/internal/ratelimit/tokenbucket.go:66-75 | A call is admitted exactly when every window ending with it stays within burst + rate * length: no looser and no tighter. |
| `TokenBucket.WindowBound` | backend/internal/ratelimit/tokenbucket.go:47-77 | Any window of calls admits at most burst + rate * seconds, in the bucket that never forgets. |
| `TokenBucket.ExpiryIsUnobservable` | backend/internal/ratelimit/tokenbucket.go:78-83 | With EXPIRE the bucket answers every run of calls like one that never forgets. |
| `TokenBucket.TtlMeaning` | backend/internal/ratelimit/tokenbucket.go:78-83 | A key outlives the whole seconds a full refill takes by exactly a minute. |
| `TokenBucket.ScriptEnforcesPolicy` | backend/internal/ratelimit/tokenbucket.go:39-86 | The script as deployed, expiry included, lets a call through exactly when its own earlier answers leave room in every window. |
| `TokenBucket.ScriptWindowBound` | backend/internal/ratelimit/tokenbucket.go:39-86 | The answers of the script as deployed let at most burst + rate * seconds through in any window. |
| `TokenBucket.RetryAfterIsExact` | backend/internal/ratelimit/tokenbucket.go:69-75 | A denied caller who comes back after d seconds, with no call in between, is admitted exactly when d is at least retry_after. |
| `TokenBucket.Bucket.Allow` | backend/internal/ratelimit/tokenbucket.go:93-126 | Refuses invalid limits without a change, otherwise does one step of the expiring bucket under the key of this user and group. |
| `TokenBucket.BucketKeyInjective` | backend/internal/ratelimit/tokenbucket.go:88-90 | Users without a colon in their id never share a key, nor do groups. |
| `TokenBucket.OwnBucket` | backend/internal/ratelimit/tokenbucket.go:93-126 | In any interleaving of calls by any users in any groups, the answers to one user in one group are those of the expiring bucket on that user's own call times. |
| `CircuitBreaker.FailuresAreConsecutive` | backend/internal/db/circuitbreaker.go:131-156 | The failure count is the length of the unbroken run of failures that ends the recorded outcomes. |
| `CircuitBreaker.ClosedUnlessThresholdInARow` | backend/internal/db/circuitbreaker.go:131-156 | The breaker is closed unless the last threshold outcomes were all failures. |
| `CircuitBreaker.OneTrialBetweenRecords` | backend/internal/db/circuitbreaker.go:96-110 | Between two Record calls at most one call gets through a breaker that is not closed. |
| `CircuitBreaker.CooldownIff` | backend/internal/db/circuitbreaker.go:96-103 | An open breaker admits a call exactly when the cooldown has passed since the last failure. |
| `CircuitBreaker.HalfOpenIff` | backend/internal/db/circuitbreaker.go:96-110 | After a failure, a breaker that is not closed is half open exactly when some call since came after the cooldown. |
| `CircuitBreaker.HalfOpenWedges` | backend/internal/db/circuitbreaker.go:104-109 | With no call in flight, a half-open breaker lets nothing through ever again. |
| `CircuitBreaker.TrialMustBeRecorded` | backend/internal/support/spend.go:160-173 | Some later call can be admitted if and only if the trial call did not end in a business error, that is, without a Record. |
| `CircuitBreaker.BusinessTrialWedges` | backend/internal/db/circuitbreaker.go:89-115 | A run with threshold one: after a failure and an unrecorded trial nothing is admitted any more. |
| `CircuitBreaker.RecordedCallsNeverWedge` | backend/internal/support/spend.go:160-173 | While calls end in success or a storage error, the breaker is never found half open between calls. |
| `CircuitBreaker.CircuitBreaker.Allow` | backend/internal/db/circuitbreaker.go:89-115 | The four fields answer each call as its whole history of calls and outcomes decides, and keep half_open equal to a trial in flight. |
| `CircuitBreaker.CircuitBreaker.RecordSuccess` | backend/internal/db/circuitbreaker.go:118-128 | Keeps the fields in step with the history after a success. |
| `CircuitBreaker.CircuitBreaker.RecordFailure` | backend/internal/db/circuitbreaker.go:131-156 | Keeps the fields in step with the history after a failure. |
| `CircuitBreaker.CircuitBreaker.ReadState` | backend/internal/db/circuitbreaker.go:159-170 | Reads closed exactly when closed; half_open exactly when a trial runs or would be admitted now. |
| `Presence.RunKeepsIndex` | backend/internal/presence/tracker.go:86-223 | In every run of heartbeats, ticks, reads and clears, every live key is in the global set and in the set of the tribe it stores. |
| `Presence.ReadersSeeLiveKeys` | backend/internal/presence/tracker.go:125-154 | After any history, pruned readers see exactly the live keys, and per tribe exactly the live keys storing it. |
| `Presence.Tracker.Heartbeat` | backend/internal/presence/tracker.go:86-121 | A refresh keeps the tribe stored with a live key; a new key takes the present membership; both sets are extended. |
| `Presence.Tracker.PruneSet` | backend/internal/presence/tracker.go:184-223 | Returns each live member once, of the expected tribe when one is given, and all others as ghosts. |
| `Presence.Tracker.OnlineCount` | backend/internal/presence/tracker.go:125-134 | Returns exactly the number of live keys. |
| `Presence.Tracker.OnlineMembers` | backend/internal/presence/tracker.go:138-155 | Returns exactly the live users whose key stores the tribe, each once. |
| `Presence.Tracker.ClearUser` | backend/internal/presence/tracker.go:159-179 | Removes the key and both set entries, and nothing else. |
| `SeasonArchive.RecognisedIsScanned` | backend/internal/season/archive.go:114-159 | The scan pattern misses no key the job would recognise. |
| `SeasonArchive.ScopesAreRecognised` | backend/internal/season/archive.go:148-159 | The boards of the five scopes are recognised, with and without parts between scope and suffix. |
| `SeasonArchive.RecognisedForms` | backend/internal/season/archive.go:148-159 | Every recognised key is of one of the five scopes and of one of these two forms. |
| `SeasonArchive.AcceptedScopes` | migrations/0017_season_archive.up.sql:7-8 | The table accepts every recognised scope but the tribe ranking. |
| `SeasonArchive.TribeRankIsRefused` | migrations/0017_season_archive.up.sql:7-8 | The tribe-rank board is recognised by the job and refused by the table. |
| `SeasonArchive.CrashesLoseNothing` | backend/internal/season/archive.go:70-111 | After any number of crashed and finished runs of a season with no score written in between, every vanished key has its row, every row equals the board at the start, and a finished run leaves no recognised key. |
| `SeasonArchive.FinishedRunKeepsBoardIff` | backend/internal/season/store.go:24-44 | With scores written in between, a finished run keeps a board exactly when the season holds no older, different copy of it. |
| `SeasonArchive.SecondRunDropsBoard` | backend/internal/season/archive.go:70-111 | Such a run: two finished runs of one season with a score written in between; the second board is gone and the archive holds the first. |
| `SeasonArchive.Runner.Run` | backend/internal/season/archive.go:28-112 | Archives before it deletes, at every crash point; finishes exactly when the season is named, nothing crashes and every recognised scope is one the table accepts. |
| `SeasonArchive.Runner.InsertArchive` | backend/internal/season/store.go:24-44 | Inserts if absent, after the scope check. |
| `Quests.ApplyEvent` | backend/internal/progression/quests.go:59-102 | Gives the advanced count and completion although it writes into the very map the caller still holds. |
| `Quests.CountQuestMeaning` | backend/internal/progression/engine.go:171-275 | Over any events of a period a count quest stores min(target, qualifying events), is completed exactly at its target, and is rewarded exactly once then. |
| `Quests.ProvinceQuestMeaning` | backend/internal/progression/engine.go:171-275 | A province quest stores min(target, distinct cities), the size of its stored set, is completed exactly at its target, and is rewarded exactly once then. |
| `Quests.StreakQuestMeaning` | backend/internal/progression/engine.go:171-275 | A streak quest is completed exactly when some streak reached the target, until then stores the longest one, and is rewarded exactly once. |
| `Quests.Engine.ApplyOneQuest` | backend/internal/progression/engine.go:171-275 | One event moves just this row as the fold does and hands out the reward exactly on completion; in every run each row is the fold of the events applied to it and was rewarded as often as that fold says. |
| `Quests.Engine.Update` | backend/internal/progression/engine.go:171-275 | The statements of that transaction give the folded row although the comparison of province sets compares a map with itself. |
| `Quests.Engine.ApplyQuests` | backend/internal/progression/engine.go:120-158 | An event reaches, once, the current-period row of every active quest it is about, and no other row. |
| `Quests.StoredProgressMeans` | backend/internal/progression/engine.go:171-275 | After any run, the stored progress of a row is min(target, qualifying events) or min(target, distinct cities) of the events that reached it, and it was rewarded at most once, exactly if completed. |
| `Quests.MetaFromProvinces` | backend/internal/progression/quests.go:142-148 | Lists each province of the set once. |
| `Quests.ProvincesFromMeta` | backend/internal/progression/quests.go:118-139 | Reads the list back as the set of its non-empty entries. |
| `Quests.SameProvinceSet` | backend/internal/progression/engine.go:277-287 | True exactly for equal sets. |
| `Threats.CrossingsCount` | backend/internal/conquest/threats.go:64-78 | A level is reported as often as it is configured if the move newly meets it from below, and never otherwise. |
| `Threats.CrossingsCompose` | backend/internal/conquest/threats.go:64-78 | Two upward moves report, between them, what the whole move reports. |
| `Threats.EachLevelOnce` | backend/internal/conquest/threats.go:64-78 | Over any non-decreasing tensions the steps report each threshold in (first, last] exactly once and no other. |
| `Threats.TensionLevelCrossings` | backend/internal/conquest/threats.go:64-78 | The loop computes those crossings, none for a move that does not rise. |
| `Threats.TensionIsShare` | backend/internal/conquest/momentum.go:109-118 | Tension is the challenger's share of the leader's support, one at most, and zero without a leader or a challenger. |
| `Threats.LevelIsNearest` | backend/internal/conquest/threats.go:90-92 | The level of a threshold is the nearest whole percent, halves away from zero. |
| `Threats.RankScores` | backend/internal/conquest/threats.go:277-291 | The tribes with support, each once, by falling sum and on a tie by rising id. |
| `Threats.RankingIsUnique` | backend/internal/conquest/threats.go:277-291 | A set of tribes has one ranking. |
| `Threats.ReconstructPreScores` | backend/internal/conquest/threats.go:262-275 | Takes the spend out of the one row of the spending tribe, not below zero. |
| `Threats.ReconstructionRecoversRanking` | backend/internal/conquest/threats.go:262-291 | Undoing the spend on the scores read after it and ranking gives exactly the ranking before it, a tribe new to the city included. |
| `Threats.LeaderSpendNeverAlerts` | backend/internal/conquest/threats.go:126-139 | Between the rankings of a table before and after a spend by the tribe that led it, no level is crossed. |
| `Threats.RankingsAreTheTables` | backend/internal/conquest/threats.go:112-139 | The rankings the alerter works with are those of the score table before and after the spend; the first of the earlier one is the tribe that led the table, and if that is the spender nothing is detected. |
| `Threats.DetectedIff` | backend/internal/conquest/threats.go:126-142 | A threshold is detected exactly when the leader is unchanged, the runner-up's support was below that share of the leader's before the spend, and has reached it now. |
| `Threats.WarnedIff` | backend/internal/conquest/threats.go:126-190 | The levels alerted are exactly those of the thresholds so reached that are not cooling down. |
| `Threats.LargerLeadLowersTension` | backend/internal/conquest/momentum.go:109-118 | Tension never rises with the sum of the leader. |
| `Threats.ThreatAlerter.TryCooldown` | backend/internal/conquest/threats.go:214-217 | Takes the key exactly when none is alive. |
| `Threats.ThreatAlerter.Enqueue` | backend/internal/conquest/threats.go:155-190 | Alerts each crossed level once if its cooldown is over, once per member; no level of a city is alerted twice within a cooldown unless the city flipped in between. |
| `Threats.ThreatAlerter.DetectAndEnqueue` | backend/internal/conquest/threats.go:112-190 | Alerts exactly the levels crossed between the rankings before and after the spend, nothing when the holder changed, and nobody when the spender led the scores. |
| `Threats.ThreatAlerter.ClearCooldown` | backend/internal/conquest/threats.go:194-212 | Frees every level of this city and no other. |

## Left out

- HTTP handlers, JSON, configuration, logging, metrics, WebSocket and pub/sub transport: plumbing.
- The payments service and its HTTP calls: their outcomes are inputs. Apple and Google purchases, promo administration and battle-pass claims are not part of this model.
- Account erasure, which deletes ledger and support rows without touching scores.
- Interleaving inside one call: each call is atomic, so late cache writes and prune races are not modelled.
- Redis failures after a committed spend: publishing and counting are taken to succeed, as the derby statements require.
- Floating-point rounding, 64-bit overflow and time zones: the Istanbul day uses the fixed +3h offset the code falls back to.
- Streak.StreakStore.UpsertOnSupport: a stamp that goes back to an earlier day is folded as the code does, but the meaning of the result is proved for non-decreasing days only.
- ActivityFeed.LiveIsStored: is about which items there are, not their order and paging, which `PollDeliversExactly` and `PollingFromLastId` state; it takes each spend's city to be a known one, which the spend path checks first.
- SupportService.Service.Apply: does not call the optional hooks after commit (quests, streak events, threats, anomaly detection), which have modules of their own or none; the circuit breaker around it is in `GuardedSpend`.
- SupportService.Service.Commit: does not model the invalidation of the control and momentum caches after a commit, because those caches are not part of this model.
- GuardedSpend.SpendPath.Apply: does not model a database failure while the city or the user is looked up, which the code records as a storage failure.
- Threats.ThreatAlerter.Enqueue: does not model a queue write that fails half way through the members.
- Derbies.LookupFindsTheDerby: is the case of one active derby in the city; `LookupFindsIff` states the general one.
- Derbies.DerbyService.Create: does not include the circuit breaker around it and the announcement after it.
- Quests.Engine.ApplyOneQuest: takes the active quests and their criteria as fixed, and the reward that follows the commit as given out.
- The supporters list and its ranking, leaderboards, momentum statistics and their cache, quest periods, friends, moderation and analytics: easy or data-driven.
- The grouping of pack offers in the client and its price formatting: display only.
- Provider names are lower-cased letter by letter for those letters whose lower case is ASCII, which is all that decides the comparison with the one enabled provider.
