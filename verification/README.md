# GhostPour: verified models

GhostPour is a gateway in front of language-model providers. Around the
gateway sit small algorithms and state machines that must hold over every input
and over long runs: the database schema that heals itself at every boot, config
overlays that gain what a release adds without losing what an operator edited,
subscriptions driven by App Store notifications, promos with per-device limits, a
bounded live log, a secret cache shared by threads, anonymous accounts minted under
races, accounts grouped into persons, and a spend gate for paid probes. This
project models them in Dafny and proves what they promise.

`dafny verify dfyconfig.toml` checks everything.

| file | what it is about |
|---|---|
| `AccountGroups.dfy` | link table, union-find with path halving, components, final destinations |
| `SchemaSweep.dfy` | migration statements and the error-swallowing sweep; convergence |
| `ColumnOrder.dfy` | the order of columns after a sweep; exactly when one sweep is enough |
| `SchemaBoot.dfy` | fingerprints, the fast path, runs of boots and crashes |
| `TranscriptDedupe.dfy` | one transcript per meeting, before the unique index |
| `Json.dfy` | JSON values, paths, JSON pointers (RFC 6901) |
| `ConfigOverlay.dfy` | the hydration and drift walks |
| `ConfigBoot.dfy` | seeding, hydrating and versioning the overlays at boot |
| `Subscriptions.dfy` | the notification webhook over user rows and the event log |
| `PromoVariants.dfy`, `PromoResolve.dfy` | weighted pick, placement priority, selection, caps |
| `LogBuffer.dfy`, `Redaction.dfy` | the live-log ring buffer and body redaction |
| `SecretCache.dfy` | TTL and FIFO cache, interleaved threads |
| `AnonymousMint.dfy`, `RefreshRotation.dfy` | anonymous accounts, refresh tokens |
| `SpendGate.dfy` | estimate, gate and accounting of paid probes |
| `Text.dfy`, `Options.dfy` | a shared fact about splitting text, the option type |

How the models read the program:

- SHA-256 is any injective function; truncating the digest is ignored. Python's
  `int()`, case folding, targeting and geo lookups, price tables and the clock are
  parameters.
- Dictionaries are maps, with their key order given separately where it shows
  (`KeyOrder`); `True == 1` and NaN are not modelled, JSON equality is structural.
- Money is exact (`real`); integers are unbounded, as in Python.
- A schema is what `sqlite_master` lists: tables with columns in order, and indexes. A
  statement's failure is decided by the schema it meets.
- Concurrent code is a state machine whose steps are the points between awaits or
  locks; runs are arbitrary sequences of steps.

Where code and documentation disagree, the code is modelled:

- The group key is documented as the account that holds the plan now. A plan that
  returns (a to b, then b to a) leaves the key behind; `NewestDestinationHoldsKey` gives
  the exact condition, `ReturningHopLeavesKeyBehind` the example.
- The migration sweep is called idempotent. For a list that gives a table a new column after
  another one was dropped and added again, a second sweep moves a column
  (`UnsettledReorders`), and skipping is then not quite sweeping (`SkippingMayLag`).
  `SweepIsIdempotentIff` and `SettlesIff` give the exact conditions; a third sweep never
  changes anything.
- `hydrate_overlay_additions` is documented never to raise. It raises exactly on a file that
  is `Poisoned` (`RaisesIffPoisoned`): looking for the overlay fails; the bundle or the
  overlay raises something that is neither a JSON nor an operating-system error when
  read (bytes that are not UTF-8, an integer of too many digits);
  or the overlay gains something and the version to bump, its own or else the bundle's, is
  one that `int()` refuses or that has too many digits after the bump
  (`NullVersionRaises`), or the overlay or what it gains holds text that cannot be encoded
  (`UnencodableOverlayRaises`).
- It is documented never to overwrite what an overlay holds. A write that fails inside the
  document, or whose text cannot be encoded, leaves the overlay emptied or cut short, and no
  later boot repairs it (`WreckStays`); one that fails later has written the document and
  only goes uncounted (`LateFailIsOnlyReported`). `RunKeepsValues` gives the exact condition.

## Model

| member | source | states |
|---|---|---|
| AccountGroups.LinkTable.Record | app/services/account_groups.py:20-29 | a hop is recorded once per ordered pair; blanks and self-links are refused; nothing else changes |
| AccountGroups.Groups | app/services/account_groups.py:32-52 | union-find with path halving terminates and returns exactly the specified keys for every link list |
| AccountGroups.Forest.Find | app/services/account_groups.py:39-44 | halving rewrites parents but no key; the result is the root; terminates by ranks that grow along parents |
| AccountGroups.Forest.Union | app/services/account_groups.py:46-51 | the source's whole group takes the destination's key, the forest stays acyclic |
| AccountGroups.Flatten | app/services/account_groups.py:52 | the final comprehension, itself halving paths, returns every account's key |
| AccountGroups.KeysDomain | app/services/account_groups.py:32-34 | exactly the accounts that appear in a link are keyed |
| AccountGroups.HopMovesTheSourceGroup | app/services/account_groups.py:46-51 | after one more hop source and destination share the key the destination had, the source's whole group comes along, everyone else keeps their key |
| AccountGroups.SameKeyIffConnected | app/services/account_groups.py:37-52 | same key if and only if a walk over links, in either direction, connects the accounts |
| AccountGroups.KeyIsFinalDestination | app/services/account_groups.py:46-52 | with one outgoing link per account and no cycle, the key is the one account where following links forward ends |
| AccountGroups.OrderOfHopsIsIrrelevant | app/services/account_groups.py:35-52 | under the same premise any order or repetition of the links gives the same map |
| AccountGroups.NewestDestinationHoldsKey | app/services/account_groups.py:46-51 | for any history, after a hop its group is keyed by the destination exactly if the destination was unlinked or its own key before |
| AccountGroups.ReturningHopLeavesKeyBehind | app/services/account_groups.py:9-11 | a plan that returns leaves the key with the other account |
| ColumnOrder.SweepIsIdempotentIff | app/database.py:1535-1549 | for every well-ordered list and any schema a second sweep changes nothing, column order included, exactly if no table gets a column to stay after another one was dropped and added again |
| ColumnOrder.SettlesIff | app/database.py:1535-1549 | one sweep is enough from every sound schema exactly for lists where no never-dropped column of a table is first added after another one was last dropped and added again |
| ColumnOrder.UnsettledReorders | app/database.py:1535-1549 | for every other list the second sweep of an empty table moves a column |
| ColumnOrder.ThirdSweepChangesNothing | app/database.py:1535-1549 | from any schema the third sweep equals the second, column order included |
| ColumnOrder.TableIsReplayed | app/database.py:1535-1549 | a table after a sweep, in order, depends only on where it came from, on which of its DROPs are refused, and on the statements about it |
| ColumnOrder.TableSettlesIff | app/database.py:1535-1549 | running a list over one table twice is running it once exactly if no column overtakes |
| SchemaSweep.SweepConverges | app/database.py:1535-1549 | for every well-ordered list and any starting schema a second sweep changes nothing but, at most, the order of columns |
| SchemaSweep.CellIsReplayed | app/database.py:1535-1549 | what a sweep leaves of a column depends only on where its table came from and on the statements about that column |
| SchemaSweep.ColumnFollowsLastWord | app/database.py:1535-1549 | a column is present exactly if its last statement adds it, drop-then-add included, or its DROP was impossible from the start |
| SchemaSweep.UnnamedColumnIsTheOrigin | app/database.py:1535-1549 | a column no statement names is in the finished table exactly if the table had it or, if it is new, the list's first CREATE gives it |
| SchemaSweep.UndroppedColumnIsTheOrigin | app/database.py:1535-1549 | a column of the origin that the list does not drop, or cannot, stays exactly as it was |
| SchemaSweep.AddedColumnIsItsFirstAdd | app/database.py:1535-1549 | any other column is declared as its first ADD since its last DROP says |
| SchemaSweep.BuiltIndexes | app/database.py:1535-1549 | an index exists after the sweep exactly if it did before or the list has one whose table and columns are there and whose name is free |
| SchemaSweep.StatementMovesColumns | app/database.py:1535-1542 | column by column what CREATE, ADD and DROP do to a schema, and what refuses a DROP |
| SchemaSweep.StatementInOrder | app/database.py:1535-1542 | a created table has the columns of its CREATE in order, an ADD goes to the end |
| SchemaSweep.DropInOrder | app/database.py:1535-1542 | a DROP closes its gap and keeps the order |
| SchemaSweep.StatementIsCounted | app/database.py:1535-1549 | already applied exactly for a column that is there, failed exactly for any other refusal |
| SchemaSweep.WellOrderedMeans | app/database.py:215-216 | the shape of the list, pair by pair |
| SchemaSweep.CreatedTableIsThere | app/database.py:1535-1549 | a table exists after the sweep exactly if it existed or the list creates it, unless an index took its name |
| SchemaSweep.HeldColumnsStay | app/database.py:286-291 | a column whose DROP SQLite refuses survives every sweep unchanged |
| SchemaBoot.JoinInjective | app/database.py:1507-1508 | joining normalised lines with newlines loses nothing |
| SchemaBoot.MigrationsFingerprintDecides | app/database.py:1502-1508 | equal migration fingerprints mean lists that sweep every schema alike and agree on whether one sweep is enough |
| SchemaBoot.SchemaFingerprintDecides | app/database.py:1511-1515 | schemas with the same fingerprint are equal |
| SchemaBoot.Database.ApplyMigrations | app/database.py:1518-1564 | skips exactly on both fingerprints matching; otherwise sweeps, records the schema the sweep produced, and counts every statement once |
| SchemaBoot.CountIsPositions | app/database.py:1533-1549 | each counter is the number of statements that ended that way, met with the schema at that point |
| SchemaBoot.RecordStaysHonest | app/database.py:1551-1562 | over boots, deaths, outside changes and restores the record is always one a finished sweep wrote, from a sound schema if the run meets only sound ones |
| SchemaBoot.SkippingIsSweeping | app/database.py:1518-1564 | whenever a boot of any run skips, the full sweep would change nothing but, at most, the order of columns, and over sound schemas nothing at all if the list settles |
| SchemaBoot.SkippingMayLag | app/database.py:1518-1564 | for every list that does not settle there is a fresh file on which the second boot skips where sweeping would move a column |
| SchemaBoot.FinishedBootThenSkips | app/database.py:1530-1532 | after a finished boot the same list skips on an unchanged schema, and no list skips on a changed one |
| TranscriptDedupe.Transcripts.DeleteLosers | app/database.py:121-131 | deleting any losing row until none is left leaves what the single DELETE leaves |
| TranscriptDedupe.Transcripts.DedupeThenIndex | app/database.py:142-152 | the unique index is always created; rows are lost exactly if some meeting had two |
| TranscriptDedupe.AnyOrderEndsInSurvivors | app/database.py:118-131 | every order of deletions ends in the same table after the same number of deletions |
| TranscriptDedupe.SurvivorIsTheLatest | app/database.py:118-131 | exactly one row per user and meeting survives, unchanged: the highest created_at, among equals the highest rowid |
| Json.EscapeRoundTrip | app/routers/config.py:253-256 | token escaping is inverted by the unescaping of section 4 of RFC 6901 |
| Json.EscapeSpells | app/routers/config.py:253-256 | a tilde becomes ~0, a slash ~1, any other character itself, as section 3 of RFC 6901 says |
| Json.EncodeAppend | app/routers/config.py:280-281 | one token more is a slash and the escaped token more |
| Json.PointerRoundTrip | app/routers/config.py:253-281 | a pointer decodes to exactly the path it was built from |
| ConfigOverlay.HydrateWalk | app/routers/config.py:259-300 | the recursive walk computes the specified overlay and appends exactly the specified pointers |
| ConfigOverlay.HydrateDict | app/routers/config.py:279-287 | the dictionary branch, key by key, in the bundle's order |
| ConfigOverlay.HydrateList | app/routers/config.py:289-298 | the list branch, for equally long lists of dictionaries |
| ConfigOverlay.DriftWalk | app/routers/config.py:303-332 | the drift walk appends exactly the specified pointers, the root as a slash |
| ConfigOverlay.WalksStopElsewhere | app/routers/config.py:289-332 | at anything but two dictionaries or equally long lists of dictionaries the overlay wins, nothing is added, and a difference is one drift |
| ConfigOverlay.ListsAreWalkedByItem | app/routers/config.py:289-325 | equally long lists of dictionaries: the reports of the items in order, the items hydrated one by one |
| ConfigOverlay.DictsAreWalkedByKey | app/routers/config.py:279-315 | two dictionaries: the reports of the bundle's keys in its order; a missing key is added whole |
| ConfigOverlay.DriftPointersAt | app/routers/config.py:331-332 | the root is reported as a slash, every other place by its pointer |
| ConfigOverlay.HydrationKeepsDrift | app/routers/config.py:259-332 | hydrating leaves the drift report identical and leaves nothing to add |
| ConfigOverlay.QuietIffCovered | app/routers/config.py:259-332 | nothing added and no drift exactly when the overlay covers the bundle under the descent rules |
| ConfigOverlay.HydrationKeepsValues | app/routers/config.py:259-300 | at every path scalars are unchanged, lists keep their length, dictionaries their keys |
| ConfigOverlay.NothingAddedIffUnchanged | app/routers/config.py:483-486 | an empty report means an unchanged overlay, and conversely |
| ConfigOverlay.HydrateIsIdempotent | app/routers/config.py:259-300 | hydrating twice is hydrating once |
| ConfigOverlay.AddedListsAddedPaths | app/routers/config.py:279-298 | the report lists exactly the paths where the walk stops for want of a key |
| ConfigOverlay.ReportedPointersAreExact | app/routers/config.py:253-300 | reported pointers are distinct, do not nest, named nothing before and now hold the bundle's subtree |
| ConfigOverlay.EveryAdditionIsReported | app/routers/config.py:279-298 | everything new in the overlay lies at or below a reported path |
| ConfigBoot.RaisesIffPoisoned | app/routers/config.py:452-505 | hydrating a file raises exactly if the overlay cannot be looked for, one of the two files raises something uncaught when read, or the overlay gains something and has a version that cannot be bumped or text that cannot be encoded |
| ConfigBoot.WrittenTornOrLeft | app/routers/config.py:468-497 | the overlay is rewritten exactly if the document reaches the file, counted exactly if the write then does not fail, wrecked exactly if the write tears it, and otherwise left as it was, raising or not |
| ConfigBoot.WrittenExactlyIfBumpable | app/routers/config.py:483-492 | an overlay that gains something is rewritten exactly if the version to bump is an integer to Python and printable after the bump |
| ConfigBoot.WrittenDocument | app/routers/config.py:483-492 | the version written is one more, 1 if there was none, and everything else is the hydrated overlay |
| ConfigBoot.HydratedIsCleanIff | app/routers/config.py:279-300 | the hydrated overlay can be encoded exactly if the overlay and every key and subtree added to it can |
| ConfigBoot.CleanMeans | app/routers/config.py:490-492 | a document can be encoded exactly if every key and every string in it can |
| ConfigBoot.NullVersionRaises | app/routers/config.py:488 | an overlay with a null version raises and is left as it was |
| ConfigBoot.UnencodableOverlayRaises | app/routers/config.py:488-497 | adding a key to an overlay that holds a lone surrogate raises and empties the file |
| ConfigBoot.VersionRisesByOne | app/routers/config.py:488 | a held version rises by exactly one when the write lands and is kept when nothing is written or torn |
| ConfigBoot.DealtWithIsSettled | app/routers/config.py:483-492 | after a boot has dealt with a file, whichever way, the same bundle does not touch it again, whatever the disk does |
| ConfigBoot.FreshCopyIsLeft | app/routers/config.py:464-486 | hydration never touches a fresh copy of the bundle |
| ConfigBoot.LateFailIsOnlyReported | app/routers/config.py:489-497 | a write that fails once the document is in the file leaves the same file and is only not counted |
| ConfigBoot.BootKeepsDetectedDrift | app/routers/config.py:378-382 | hydrating and bumping a file changes the drift reported for it only if the write tears it |
| ConfigBoot.DetectedMeans | app/routers/config.py:363-385 | the detector raises exactly on unreadable text, and reports the drift of two dictionaries against the bundle without its version |
| ConfigBoot.RunKeepsValues | app/routers/config.py:432-505 | over any boots with any bundles every overlay value outside the version is kept, exactly unless some boot tore the file |
| ConfigBoot.WreckStays | app/routers/config.py:239-250 | a file that does not parse stays as it is over every later run |
| ConfigBoot.VersionCountsAdditions | app/routers/config.py:483-492 | over any run that spares the file its version rises by one on exactly the boots that had something to add and got it into the file |
| ConfigBoot.SecondBootWritesNothing | app/routers/config.py:432-505 | after an undisturbed full boot a second one with the same bundle writes nothing and changes no file, whatever the disk does to it |
| ConfigBoot.ConfigStore.Seed | app/routers/config.py:237-250 | missing files are copied, existing ones never touched; it raises exactly if a file cannot be looked for or copied, and then at such a file |
| ConfigBoot.ConfigStore.HydrateAll | app/routers/config.py:459-505 | the loop in any order over the failures of lookup, reads, writes, text and version: files written, count returned, when and at which file it raises |
| ConfigBoot.ConfigStore.Start | app/main.py:112-118 | seeding then hydrating is one boot of the run model, and raises exactly if seeding fails at some file or some file is poisoned |
| Subscriptions.BuildProductToTier | app/routers/apple_webhooks.py:58-65 | later tiers win, blank products are skipped |
| Subscriptions.ProductsMapToKnownTiers | app/routers/apple_webhooks.py:58-65 | a product maps exactly if some tier lists it, and only to a configured tier |
| Subscriptions.LastTierWins | app/routers/apple_webhooks.py:58-65 | a product maps to the last tier that lists it |
| Subscriptions.Webhook.DowngradeToFree | app/routers/apple_webhooks.py:81-104 | nothing is left to spend, no trial or simulation runs, and no other row and no identity moves |
| Subscriptions.Webhook.UpgradeToTier | app/routers/apple_webhooks.py:146-186 | the row has the whole limit of a configured tier left, no trial or simulation runs, no other row and no identity moves; an unknown tier changes nothing |
| Subscriptions.Webhook.RenewSameTier | app/routers/apple_webhooks.py:189-213 | the whole of the limit the row already had is left, on the same tier |
| Subscriptions.TierMovesForget | app/routers/apple_webhooks.py:81-213 | an upgrade gives the row it would give without any earlier downgrade, renewal or upgrade; a downgrade too, but for searches and reset date |
| Subscriptions.Webhook.Upgrade | app/routers/apple_webhooks.py:508-566 | adoption, renewal or upgrade, with the recorded event |
| Subscriptions.Webhook.Handle | app/routers/apple_webhooks.py:256-635 | every branch of the dispatch: new rows, new events, answer |
| Subscriptions.MatchedIsConcerned | app/routers/apple_webhooks.py:386-412 | the row acted on is the first with the transaction id or, if none has it, the first whose id the token spells |
| Subscriptions.ScreenedBecause | app/routers/apple_webhooks.py:256-375 | each early answer and the condition for it; everything else is listened to |
| Subscriptions.PaidProductSetsTier | app/routers/apple_webhooks.py:508-566 | a paid product puts the user on the last tier that lists it: the whole row, the event and the answer, renewal or upgrade, adoption included |
| Subscriptions.UnlistedProductChangesNothing | app/routers/apple_webhooks.py:513-518 | a product no tier lists changes nothing |
| Subscriptions.EndedSubscriptionFrees | app/routers/apple_webhooks.py:568-603 | expiry, revocation, grace period end and refund put a paying user on the used-up free tier: the whole row, the event and the answer |
| Subscriptions.OtherKindsTouchNoRow | app/routers/apple_webhooks.py:605-636 | every other kind touches no row; two of them are recorded |
| Subscriptions.UnmatchedChangesNothing | app/routers/apple_webhooks.py:412-440 | a notification that concerns nobody leaves no trace |
| Subscriptions.OutsidersChangeNothing | app/routers/apple_webhooks.py:256-375 | foreign, ledger, undecoded, unlock and non-tier notifications leave rows and history unchanged |
| Subscriptions.AtMostOneRowChanges | app/routers/apple_webhooks.py:386-412 | only the matched row can change, and no identity does |
| Subscriptions.StepKeepsUniqueOtids | app/routers/apple_webhooks.py:520-530 | no two users come to hold the same transaction id, adoption included |
| Subscriptions.RunKeepsIdentities | app/routers/apple_webhooks.py:386-412 | the same over every run |
| Subscriptions.AllowanceFollowsTier | app/routers/apple_webhooks.py:81-213 | a downgrade leaves no allowance, an upgrade all of the new tier's, a renewal all of the limit the row already had; anything else the row as it was |
| Subscriptions.RecordedAsApplied | app/routers/apple_webhooks.py:475-488 | at most one event per notification, and it states the old and the new tier |
| Subscriptions.LogReplaysToTier | app/routers/apple_webhooks.py:508-623 | over every run each user's events form an unbroken chain from the first tier to the current one, even if users share a transaction id |
| Subscriptions.TierIsLastDecision | app/routers/apple_webhooks.py:508-593 | the tier is what the last tier-moving notification matched to the user asked for |
| PromoVariants.Pick | app/routers/promo.py:321-334 | the picked position holds the bucket and has weight; zero total picks the first; the trailing return is dead |
| PromoVariants.PickIsProportional | app/routers/promo.py:328-333 | exactly as many residues pick each position as its weight, none for a weight below one |
| PromoVariants.Holder | app/routers/promo.py:328-334 | every residue picks a position, of positive weight |
| PromoVariants.HoldsOnce | app/routers/promo.py:330-333 | no residue picks two positions |
| PromoVariants.UptoIsSum | app/routers/promo.py:324-331 | the running total adds up the weights, negative ones as nothing |
| PromoResolve.PlacementPriority | app/routers/promo.py:352-406 | the maximum over the entries that want the moment, None exactly if entries exist and none does |
| PromoResolve.InsertKeepsOrder | app/routers/promo.py:467 | the stable descending re-sort keeps query order among equals and loses nothing |
| PromoResolve.Scope | app/routers/promo.py:461-468 | the campaigns tried are exactly those that want the moment, by priority, then query order |
| PromoResolve.Resolve | app/routers/promo.py:458-529 | the served campaign outranks every other eligible one and comes with a card of its own that this build renders, of positive weight if any has; none is served exactly if none is eligible |
| PromoResolve.ServedMeans | app/routers/promo.py:458-529 | on the campaigns' own fields: whenever some campaign wants the moment, may be shown and has a card, one is served, and it has a higher priority or the same and an earlier place |
| PromoResolve.ServedMayBeShown | app/routers/promo.py:469-511 | a served campaign wants the moment, is within its dates, meets targeting, has an audience of 25 and its own minimum if geo, is not converted without repeat and is below a nonzero cap |
| PromoResolve.EligibleIff | app/routers/promo.py:469-511 | a campaign is passed over exactly if one of these fails or it yields no card |
| PromoResolve.YieldIsShowable | app/routers/promo.py:505-511 | the card is renderable and has weight whenever something renderable has; none exactly if nothing renders, or all is weightless and the first is empty |
| PromoResolve.YieldHoldsBucket | app/routers/promo.py:328-333 | the yielded card is the one in whose stretch of the weights the device's bucket falls |
| PromoResolve.CapableInOrder | app/routers/promo.py:508 | what this build can render keeps its order |
| PromoResolve.WeightsInOrder | app/routers/promo.py:324 | and its weights; anything but a card weighs nothing |
| PromoResolve.BestIsUnique | app/routers/promo.py:458-529 | the specification leaves one possible answer |
| PromoResolve.PresentationTable.Ingest | app/routers/promo.py:645-665 | the table goes on telling the whole event history; no count falls, no conversion is undone, no other pair's row moves |
| PromoResolve.RowsTellHistory | app/routers/promo.py:645-665 | from an empty table a row exists exactly if its pair had an impression, counts the impressions, and is converted exactly if a convert followed one |
| PromoResolve.ConvertedIsNeverServed | app/routers/promo.py:491-504 | after an impression and a convert the campaign is never served to that device again, whatever follows, unless it repeats |
| PromoResolve.ConvertNeedsAnImpression | app/routers/promo.py:659-664 | a convert counts exactly if an impression came before it; else it changes nothing |
| PromoResolve.CapHolds | app/routers/promo.py:491-504 | with serve and impression alternating, the shown count never passes max_impressions |
| PromoResolve.ServedMayBeReported | app/routers/promo.py:645-657 | in the alternating runs a served card may be reported as seen, and only once |
| LogBuffer.Buffer.Append | app/middleware/request_logging.py:83-92 | after every append the buffer is the longest suffix of the whole history that fits both bounds, and the byte count is its size |
| LogBuffer.Buffer.Evict | app/middleware/request_logging.py:89-92 | the eviction loop drops from the left just until both bounds hold |
| LogBuffer.BytesIsSum | app/middleware/request_logging.py:83-92 | the byte count of a buffer is the sum of its sizes |
| LogBuffer.EvictedIsLongestFit | app/middleware/request_logging.py:89-92 | greedy eviction finds the longest fitting suffix |
| LogBuffer.AppendRefits | app/middleware/request_logging.py:83-92 | evicting step by step equals evicting from the whole history |
| LogBuffer.LongestFitIsUnique | app/middleware/request_logging.py:83-92 | the specification leaves one possible buffer |
| LogBuffer.OversizedEntryEmptiesBuffer | app/middleware/request_logging.py:89-92 | an entry over the byte budget leaves an empty buffer |
| LogBuffer.Buffer.Recent | app/middleware/request_logging.py:132-136 | the newest entries of the history, newest first, as many as the limit allows |
| LogBuffer.Buffer.Find | app/middleware/request_logging.py:150-155 | the oldest retained entry with the id, None exactly if none is retained |
| Redaction.RedactSensitive | app/middleware/request_logging.py:512-527 | the recursive rewrite computes the specified redaction |
| Redaction.RedactIsExact | app/middleware/request_logging.py:512-527 | same paths; a string directly under a sensitive key becomes <redacted>, every other scalar is kept |
| Redaction.RedactIsIdempotent | app/middleware/request_logging.py:512-527 | redacting twice is redacting once |
| Redaction.ListUnderSensitiveKeyIsKept | app/middleware/request_logging.py:519-527 | strings in a list below a sensitive key are not masked |
| SecretCache.Cache.Get | app/secrets.py:38-49 | hit, miss, or expired item dropped |
| SecretCache.Cache.Put | app/secrets.py:52-63 | overwrite in place or append, evicting the oldest insertion at 64 |
| SecretCache.Cache.Clear | app/secrets.py:66-70 | every lookup misses afterwards, at any time |
| SecretCache.PutKeepsBound | app/secrets.py:52-63 | a store keeps the bound and distinct keys, and loses at most the oldest item |
| SecretCache.PutThenGet | app/secrets.py:38-63 | after a store its key hits until expiry, an evicted key misses, every other key answers as before |
| SecretCache.PutKeepsOrder | app/secrets.py:52-63 | a known key keeps its place, a new one goes last, only the first place is given up at 64 |
| SecretCache.LookupDropsOnlyTheExpired | app/secrets.py:38-49 | after a lookup its key is gone exactly if it had expired; every other lookup answers as before |
| SecretCache.GetKeepsOrder | app/secrets.py:38-49 | a lookup takes out at most the expired item, in place |
| SecretCache.UndisturbedLookup | app/secrets.py:150-166 | one call on its own: a fresh value is returned and nothing fetched, else the call goes on to fetch |
| SecretCache.UndisturbedFetch | app/secrets.py:166-177 | after a miss the fetched value is stored for the TTL |
| SecretCache.StepKeepsInv | app/secrets.py:150-177 | every step of every thread keeps the cache traceable to fetches and stores |
| SecretCache.BoundedStaleness | app/secrets.py:150-177 | over every interleaving at most 64 items, and every hit is a fetched value stored less than the TTL before the lookup read its clock |
| AnonymousMint.SameSubjectIffSameInstall | app/routers/auth.py:219-231 | two requests name one subject exactly if app and folded install id agree |
| AnonymousMint.SubjectSpelled | app/routers/auth.py:219-231 | the text that is hashed, for the first app and for every other |
| AnonymousMint.StepKeepsInv | app/routers/auth.py:266-291 | every step keeps subjects and ids unique, and every answered account born under the subject asked for |
| AnonymousMint.ReadSeesTheRow | app/routers/auth.py:266-299 | a read or re-read answers with the open account under the subject, or 410 exactly if it is closed |
| AnonymousMint.ReadSeesNoRow | app/routers/auth.py:266-292 | without a row a read goes on to insert and a re-read fails |
| AnonymousMint.InsertStoresOneRow | app/routers/auth.py:273-288 | the insert stores one open row unless its id or subject is taken |
| AnonymousMint.OtherStepsDo | app/routers/auth.py:148-157 | closing and converting touch their row alone |
| AnonymousMint.MintIsIdempotent | app/routers/auth.py:266-299 | over every interleaving of mints, closings and conversions two answers name one account exactly when they ask for one subject, if neither account was converted |
| AnonymousMint.OneSubjectPerAccount | app/routers/auth.py:266-299 | conversions or not, one row per subject, and no account is given to two installs |
| AnonymousMint.AnswersAgreeUntilConverted | app/routers/auth.py:266-299 | every later answer for a subject names the account the table holds for it, until that account is converted |
| AnonymousMint.ConvertedIsNeverAnswered | app/routers/auth.py:148-157 | once converted, an account is never again the answer to a mint request |
| AnonymousMint.ConvertedInstallMintsAgain | app/routers/auth.py:148-157 | the same install is then given a second account |
| AnonymousMint.OneAccountPerInstall | app/routers/auth.py:219-299 | the same for installs and apps: one account exactly if app and folded install id agree |
| AnonymousMint.InsertLeavesARow | app/routers/auth.py:273-291 | directly after the insert attempt nobody has the subject exactly if nobody had it before and the fresh id was taken |
| AnonymousMint.CrashedIff | app/routers/auth.py:273-292 | over every run a request ends in a crash exactly if its id collided while nobody had its subject, or the row under its subject was converted before the re-read, and nobody has stored one since |
| AnonymousMint.CrashIsAReread | app/routers/auth.py:289-292 | the only step that crashes a request is a re-read that finds nobody under its subject |
| AnonymousMint.ConversionCrashesReread | app/routers/auth.py:148-157 | insert, conversion of the row, re-read: such a run |
| RefreshRotation.TokenTable.Exchange | app/routers/auth.py:311-356 | an exchange needs an unrevoked, unexpired token of an active account, spends it and issues one to the same user; a closed account is refused as disabled; a refusal changes nothing; nobody's number of sessions changes |
| RefreshRotation.ExchangedTokenIsRefused | app/routers/auth.py:314-334 | sequentially, an exchanged token is never accepted again, whatever happens to tokens and accounts in between |
| RefreshRotation.RotationConservesSessions | app/routers/auth.py:329-334 | a rotation neither creates nor loses a session |
| RefreshRotation.SessionsCountLogins | app/routers/auth.py:302-356 | over every run of logins, refreshes, merges and deletions a user's sessions are one for each login since the account was last merged away or deleted, on top of those at the start if it never was |
| SpendGate.CountChars | qa/probe_runner.py:97-104 | characters of a system prompt or message body, text or blocks |
| SpendGate.PayloadChars | qa/probe_runner.py:97-104 | the two character counts of a payload |
| SpendGate.EstimateCost | qa/probe_runner.py:107-122 | the estimate, refused exactly if some model has no price |
| SpendGate.EstimateIsSum | qa/probe_runner.py:107-122 | the estimate is the sum over the requests, the prompt at 0.1 if an earlier request of a sequential run had the same model and prompt, else at 1.25 |
| SpendGate.EstimateOfRequest | qa/probe_runner.py:117-122 | the dollars of one request: 3.5 characters to a token, at most 1000 tokens of output, a batch at half |
| SpendGate.CharsAddUp | qa/probe_runner.py:97-104 | characters are counted over all text and nothing else |
| SpendGate.EstimateIgnoresOrder | qa/probe_runner.py:107-122 | reordering the requests does not change the estimate, despite the seen set |
| SpendGate.SpentWithinEstimate | qa/probe_runner.py:107-131 | within the stated assumptions the answers cost at most the estimate, whichever request of a prompt writes the cache |
| SpendGate.BillIsSpent | qa/probe_runner.py:257-259 | summing over results in arrival order bills each answer once, to its own request |
| SpendGate.BillOfAnswer | qa/probe_runner.py:125-131 | the dollars of one answer: writes at 1.25, reads at 0.1, prices per million, a batch at half |
| SpendGate.BillIsLinear | qa/probe_runner.py:125-131 | what is used together is billed as if used apart |
| SpendGate.BillAddsUp | qa/probe_runner.py:257-259 | each answer is billed at its request's prices, errors and strangers at nothing, and results add up |
| SpendGate.RunProbe | qa/probe_runner.py:230-264 | dry, refused over the cap, or sent; a sent run within the assumptions costs at most the estimate and so the cap |

## Left out

- HTTP, JWT and JWS verification, SQLite I/O, Secret Manager, model calls, push, alerts and file writes; their results are inputs.
- `split_drift`, `intentional_overrides`, `candidate_slugs`, `resolve_build_pin` and the lookup loop of `get_config`: each is a single table lookup or filter, with no state and nothing to relate it to.
- `compute_next_reset`, `offer_dispense`, `merge_into`, the unlock, ledger and status services: outcomes are opaque and nothing is claimed about them.
- Rows touched by data migrations; a data statement only counts as succeeded or failed. A Python migration step is its unique index, and is taken to succeed.
- SQLite's refusal to drop a table's only column: every table here keeps a primary key that no migration drops.
- A digest collision, including one caused by keeping 32 hex digits, and object names that contain `=` or a newline.
- ConfigOverlay.HydrateWalk: works on values, so the in-place update of nested dictionaries and lists and their aliasing are not modelled.
- Redaction.RedactSensitive: works on values for the same reason.
- ConfigBoot.RunKeepsValues: dashboard edits between boots are not part of the run; each boot starts from any overlays.
- NaN and Python's cross-type equality in the drift comparison.
- Subscription history writes that fail; the handler swallows them and the chain would then have a gap.
- Changes to user rows made elsewhere (receipt verification, merges, reconciliation) between notifications.
- AnonymousMint.MintIsIdempotent: deletion of accounts is not modelled.
- RefreshRotation.SessionsCountLogins: deleting one app's data of a user who keeps the account removes only that app's tokens, and is not modelled.
- ConfigBoot.ConfigStore.Start: failing to list or create the two config directories.
- ConfigBoot.RaisesIffPoisoned: an interpreter that runs out of memory or stack while walking or printing documents it could read.
- RefreshRotation.ExchangedTokenIsRefused: sequential requests only; select and revoke are separate steps, so two concurrent requests may both be served.
- SpendGate.RunProbe: collecting an earlier batch (`--resume`) sends nothing and passes no gate.
- `_clip`, query formatting, summaries and the middleware around the log buffer; localisation and offer codes of promo variants.
- PromoResolve.CapHolds: a client that reports impressions it was not served can pass the cap; the premise says serve and impression alternate.
