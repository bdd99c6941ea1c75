# A verified model of the publication tools, the ingestion and the product mapping

This project models the parts of the repository that have to stay right across crashes,
concurrency and repeated runs, and proves what they are for.

| files | what they model |
|---|---|
| `PairDisk`, `PairPlan`, `PairSteps`, `PairUpgrade` | the journalled replacement of the executor and policy pair |
| `PromotionWorld`, `Promotion`, `RuntimeGate` | the promotion of a checkout with its file closure, and the gate in front of the services |
| `HelperInstall` | the installer of the upgrade helper and its append-only receipt |
| `Ledger` | the ledger verdict and the recovery of an abandoned attempt |
| `Overrides`, `Idempotence`, `Corrections`, `DictionaryBuilder` | dictionary corrections, run once and run again, and the builder of the dictionary |
| `ScopeCover` | the greedy choice of crawled sections |
| `Clusters`, `Matching`, `Surviving`, `Producer` | blocks, matching, guards, what the publication filter leaves, and the bundle |
| `Bundles`, `Resolve`, `Identities` | bundle validation and the resolution of canonical identities |
| `PublicationWorld`, `Publication` | staging and publishing snapshots beside other sessions |
| `RateLimit` | the per-client limiter and one that never forgets |
| `Pool`, `DanaCrawl`, `Sitemap` | bounded concurrency, the two-phase crawl and windowed paging |
| `Voice` | the dialogue in front of the product query |
| `Outcomes`, `Counting` | shared result types and counting |

`dafny verify dfyconfig.toml` checks all of it.

## Reading the models

A crash is a budget of primitive writes: when it is used up the process stops before the next
one, its locks drop and the disk stays. Operations report `Done`, `Blocked` with the refusal code,
or `Interrupted`. SHA-256 is an injective function: a digest is represented by what it digests.
Inode numbers are never reused, and times are integers or exact reals.

A host answers its snapshot, wiring and space checks by their number, in any way; the results of the
three installers say what each refused check leaves. A *steady* host answers all of them favourably.

Programs are proved equal to functions, and what those functions mean is stated apart from them: where
the cards, categories and verdicts of a corrected dictionary come from, when a bundle resolves and what
its counters count, which suggestion a published group comes from, what a dialogue remembers.

Concurrency is modelled in two ways. Services behind the runtime gate are a transition system over
all interleavings. Ingestors are objects over a shared server that lets other sessions do anything
the protocol allows between any two statements, and that may refuse a statement or lose the
connection before or after its effect; that the protocol is enough is proved once for all steps. An
ingestion is *undisturbed* when the other sessions are idle and every statement is answered.

## What the proofs found

* **Promotion rollback.** `Host.invariants` checks the installed ledger validator against the
  *installed* automatic-policy record, and `rollback` calls it before it restores anything
  (ops/c2/publisher-promotion.py:573-575, ops/c2/publisher-promotion.py:792). When the
  process stopped after the validator was replaced but before that record was, or the other way
  round inside a rollback, every later rollback refuses, although all backups are there.
  `PromotionWorld.CutCanRollBackIff` is the exact condition and `Promotion.StrandedPromotion` a
  run that leaves such a disk. Two more windows are part of `RollbackReady`: an interlock whose
  intent lists no targets yet, and the link count of two between the no-clobber link and unlink.
  The comment that an interrupted promotion can always be restored is therefore too strong; the code
  is modelled.
* **Promotion after a recovery.** A write cut inside a release directory leaves its temporary name
  there. The recovery does not mind, but the inventory of every later promotion and deliberate
  rollback does (ops/c2/publisher-promotion.py:672-673). `Promotion.RecoverThenPromote` and
  `Promotion.RecoverThenRollBackLast` are the exact conditions, `Promotion.StrayCandidate` a run
  after which nothing can be promoted. A last-release record cut between link and unlink has two
  links: a later promotion goes all the way to that record, fails to read it and rolls back.
* **Promotion capacity.** The inventory admits a thousand directories, and a promotion adds one
  after it was counted: the 1001st release goes live, and neither a deliberate rollback nor any
  further promotion starts (`Promotion.PromoteThenRollBack`).
* **Pair upgrade.** A stop inside a journal save, or between creating a resource and registering it,
  is refused by every later run, in whichever state the pair is (`PairSteps.InterruptedSaveStrands`,
  with `PairUpgrade.StrandedPair` as an instance). The refusal touches nothing.
* **Helper installer.** A stop between the hard link and its receipt line leaves both names under a
  `staged` line, which `resources` turns down for good (`HelperInstall.StrandedHelper`). It is the one
  whole disk that `HelperInstall.Resumable` excludes, besides torn lines.
* **Overrides.** The promised idempotence needs hashed keys where a split entry takes members away.
  `Idempotence.ApplyTwice` states when a second run fails, for every dictionary in which a hashed key
  is that of a member of its group, and `Idempotence.HandWrittenKey` is an instance. Outside it, the new
  key of a group can be another group's, which is joined without a word and loses its card
  (pipeline/src/mapping/overrides.ts:44-46, `Idempotence.SplitMeans`), and a second run can succeed
  with a different result (`Idempotence.ForeignFounder`).
* **Matching.** A reply that lists one id twice in a cluster puts the product into two groups, and makes
  the ingestor refuse the bundle exactly when the category of that block is published
  (`Producer.Produce` with `Producer.AnyDoublesIff`; `Surviving.DoubledReply` is an instance).
* **Staging.** A snapshot id that is already taken aborts the transaction in which `unlock` is then
  called, so the connection is closed (`Publication.Ingestor.Stage`).
* **Bundle.** A display name that trims to nothing, and any product or source file of the fourth store,
  make the ingestor refuse the whole bundle (`Producer.AcceptedIff`).
* **Rate limiter.** Eviction is unobservable exactly when the burst is at most 600 seconds of refill;
  beyond that a two-burst run tells the limiters apart (`RateLimit.UnobservableIff`).

## Model

| member | source | states |
|---|---|---|
| PairUpgrade.RecoverAfterHistory | ops/c2/root-executor-pair-upgrade.py:311-379 | The disks before and after every run of a history are returned; `recover` on the last of them, unstopped, with every snapshot the same and space enough, succeeds exactly when that disk is resumable and only ledger entries have come since its journalled snapshot, and then both targets are new with phase `verified` or both are byte-equal to the originals with phase `rolled_back`; otherwise it refuses and that disk stays as it is |
| PairUpgrade.History | ops/c2/root-executor-pair-upgrade.py:311-379 | Over any number of runs in any mode on any hosts, each stopped before any primitive write, each run leads from its disk to the next as its mode and its host say, refusals included, and on every disk in between the policy is new only if the executor is new, both targets are present, and the sequence number of a published journal never passes 16 |
| PairUpgrade.StrandedPair | ops/c2/root-executor-pair-upgrade.py:185-196 | An apply stopped inside its first journal write, after which neither recover nor another apply starts |
| PairUpgrade.Upgrade.Run | ops/c2/root-executor-pair-upgrade.py:311-358 | One run on any host, stopped anywhere or not: it starts exactly when source, journal, lineage, mode, first snapshot and first space check are in order, and otherwise is refused, with the code of the first objection, and writes nothing; once started it succeeds only if the later checks hold, with the status and the pair of its mode, and is refused only if one does not, leaving the settled disk of that point |
| PairUpgrade.Upgrade.Continue | ops/c2/root-executor-pair-upgrade.py:319-330 | With a journal present, for every host and mode: apply and a verify of an unfinished pair refuse, a snapshot that does not continue the journalled one refuses in all modes, a refusal before the rollback leaves the disk alone, and one inside it leaves what the refused check says |
| PairUpgrade.Upgrade.Start | ops/c2/root-executor-pair-upgrade.py:331-358 | Without a journal, for every host: recover and rollback refuse, verify reports `ready`, and apply ends in a verified new pair, or at the first of its three window checks that differs, with the pair prepared, replaced, or replaced with its receipt |
| PairUpgrade.SteadyHost | ops/c2/root-executor-pair-upgrade.py:311-379 | Where all snapshots agree and the space suffices, the conditions reduce to the disk: recover and rollback start exactly from a resumable disk of that lineage, verify exactly from such a one in phase `verified` or an untouched old pair, apply exactly from an untouched old pair |
| PairUpgrade.Upgrade.Rollback | ops/c2/root-executor-pair-upgrade.py:360-379 | From any settled disk back to the original bytes, policy before executor, exactly on a host that has the space and shows the same window twice; any other leaves the disk as it was, the pair as it was, or both targets restored, by the check that was refused |
| PairUpgrade.Upgrade.Replace | ops/c2/root-executor-pair-upgrade.py:350-354 | One staged file over its live target by compare-and-swap, then one save; the only name that goes is the staged one |
| PairUpgrade.Upgrade.Store | ops/c2/root-executor-pair-upgrade.py:296-300 | A created resource is registered by exactly one save, the live targets do not move, and nothing can refuse it on a settled disk |
| PairUpgrade.Upgrade.Save | ops/c2/root-executor-pair-upgrade.py:229-232 | A save advances phase and sequence number by one and moves nothing else; the capacity check cannot fire |
| PairPlan.OrderSafety | ops/c2/root-executor-pair-upgrade.py:253-262 | In every reachable state the policy is new only if the executor is new, and each target holds its original or its reviewed bytes |
| PairPlan.SaveBound | ops/c2/root-executor-pair-upgrade.py:229-232 | The journal sequence number is between 1 and 16, because each save is a one-time event |
| PairPlan.ScansPassIffResumable | ops/c2/root-executor-pair-upgrade.py:264-294 | Classification always succeeds on a reachable disk, and the inventory succeeds exactly when nothing is pending or unregistered |
| PairPlan.InventoryIffAccounted | ops/c2/root-executor-pair-upgrade.py:275-294 | The inventory of a journal passes exactly when the resources on disk are those it registers |
| PairPlan.BackupAvailable | ops/c2/root-executor-pair-upgrade.py:363-368 | Whenever a target is new, its original bytes are in a registered backup |
| PairSteps.InterruptedSaveStrands | ops/c2/root-executor-pair-upgrade.py:185-196 | A run that stops with a pending journal file leaves a disk that every later run refuses |
| PairSteps.JournalStep | ops/c2/root-executor-pair-upgrade.py:185-196 | The three ways a journal write can end, and that each keeps the invariant |
| PairSteps.CreateStep | ops/c2/root-executor-pair-upgrade.py:147-158 | Creating a resource keeps the invariant however it ends and never touches a live target |
| PairSteps.RenameStep | ops/c2/root-executor-pair-upgrade.py:171-183 | A compare-and-swap rename keeps the invariant, moves exactly one target and is never refused on a reachable disk |
| Promotion.History | ops/c2/publisher-promotion.py:694-837 | Over any sequence of promotions and rollbacks on any hosts, each stopped before any durable write, with services writing the ledger in between, each command leads from its world to the next as described, the refusal of any one check included; whenever no interlock exists the live checkout and closure are one whole release; a recovery from the last world on a steady host succeeds exactly when that world is rollback-ready, and then restores the old release and nothing else |
| Promotion.RecoverThenPromote | ops/c2/publisher-promotion.py:664-692 | After whatever a stop has left, an undisturbed recovery succeeds exactly on a rollback-ready disk, and the promotion after it exactly when no write inside the release directory was cut, the inventory has room, and the release is already installed or new under a readable last record |
| Promotion.RecoverThenRollBackLast | ops/c2/publisher-promotion.py:816-837 | The same for a deliberate rollback after the recovery, which besides needs a last receipt that leads to the release that is live again |
| Promotion.StrayCandidate | ops/c2/publisher-promotion.py:390-412 | A promotion stopped while it writes its first candidate file: the recovery succeeds, and no later promotion of anything starts |
| Promotion.StrandedPromotion | ops/c2/publisher-promotion.py:782-792 | A promotion stopped right after it installed a new custodian: all backups are in place, and the recovery refuses |
| Promotion.Transaction.Rollback | ops/c2/publisher-promotion.py:782-814 | Done exactly when the disk is rollback-ready and the host permits the two checks of a rollback, and then publisher and every target have their old bytes and the interlock is gone; with mixed ledger records it refuses and changes nothing |
| Promotion.Transaction.RollbackInterrupted | ops/c2/publisher-promotion.py:782-814 | Recovery from the interlock alone, with the same exact condition |
| Promotion.Transaction.RestoreFiles | ops/c2/publisher-promotion.py:806-808 | Only the files move, towards the backups, and all of them once it ends |
| Promotion.Transaction.Finish | ops/c2/publisher-promotion.py:811-814 | With everything restored, the run is refused, with the interlock left, only if `rollback.json` was already written, and completes only if it was not |
| Promotion.Transaction.Promote | ops/c2/publisher-promotion.py:694-780 | A promotion ends as the whole candidate without interlock and with a receipt that leads back to the release before, as a no-op on an aligned release only, or refused with the old release live wherever no interlock remains; on a steady host it succeeds exactly when there is no interlock, the inventory is complete, and the release is installed already or has a new name under a readable last record; if exactly one check of an unstopped run is refused, nothing is written before the interlock, and after it the old release is live again, recorded as rolled back and open to services, unless the ledger validator that was live then rejects the installed record: then what was live stays, locked |
| Promotion.AlignedIff | ops/c2/publisher-promotion.py:686-702 | The releases on which a promotion has nothing to do are exactly those that a promotion of that commit leaves |
| Promotion.Transaction.Carry | ops/c2/publisher-promotion.py:740-780 | The same from the journalled intent on, with the number of every check: two before anything live moves, one for the checkout, one for each replaced file, and the last for the whole candidate |
| Promotion.EveryCheckMeets | ops/c2/publisher-promotion.py:740-768 | Each of these checks meets one release: the old one up to the first live change, the candidate in the end, and in between the candidate checkout over a partly replaced closure |
| Promotion.Transaction.TakeBack | ops/c2/publisher-promotion.py:776-780 | The failure branch: the old release is live and unlocked again exactly when what was live passes the invariant check, and otherwise everything stays under the interlock |
| Promotion.PromoteThenRollBack | ops/c2/publisher-promotion.py:816-837 | An undisturbed promotion followed by a deliberate rollback brings back exactly what was live before, as long as there were fewer than a thousand release directories; with a thousand the new release goes live and can no longer be taken back |
| Promotion.Transaction.Commit | ops/c2/publisher-promotion.py:761-770 | A completed commit leaves receipt, last-release record and no interlock; a refused one leaves the staged transaction as it was |
| Promotion.Transaction.SwitchCheckout | ops/c2/publisher-promotion.py:750-755 | The checkout moves under an interlock that records both ends |
| Promotion.Transaction.InstallFile | ops/c2/publisher-promotion.py:756-762 | One target goes to its new bytes, nothing else live moves, and the interlock still records both ends |
| Promotion.Transaction.Stage | ops/c2/publisher-promotion.py:722-737 | Every old file is backed up by a no-clobber write and journalled before anything live changes |
| Promotion.Transaction.CopyCandidates | ops/c2/publisher-promotion.py:738-739 | The candidate files are written one by one, each through a temporary name that a stop leaves behind, and nothing live moves |
| Promotion.Transaction.Place | ops/c2/publisher-promotion.py:386-412 | A no-clobber write passes through a temporary name and two links; done, it leaves the file and no temporary name; stopped, nothing or a temporary name, linked or not |
| Promotion.Transaction.RollbackLast | ops/c2/publisher-promotion.py:816-837 | A deliberate rollback starts exactly from a complete inventory and the release of a readable last receipt, and ends at the one before it |
| PromotionWorld.NoInterlockMeansWhole | ops/c2/publisher-promotion.py:658-661 | In every legal sequence of durable writes, a disk without interlock is uniformly one release |
| PromotionWorld.CutCanRollBackIff | ops/c2/publisher-promotion.py:554-583 | A disk cut after n replacements can be rolled back exactly when the ledger validator and the record that pins it come from the same side of the cut, and the rollback record is unwritten |
| PromotionWorld.CutPassesCodecIff | ops/c2/publisher-promotion.py:573-575 | When the invariant check of the host accepts a partly replaced closure |
| RuntimeGate.ServiceSeesOneRelease | ops/c2/promotion-runtime-gate.py:34-48 | In every interleaving of services and crashing promoters, a service past the gate sees one whole release from then until it ends |
| RuntimeGate.AlwaysSafe | ops/c2/promotion-runtime-gate.py:34-57 | Services and a promoter never hold the lock together, and no exclusive holder and no interlock means a uniform disk |
| RuntimeGate.StepKeepsSafe | ops/c2/promotion-runtime-gate.py:34-57 | Each step of a service or promoter keeps that invariant |
| RuntimeGate.PromoterHistoryIsLegal | ops/c2/publisher-promotion.py:925-939 | Every log of durable writes that a transaction can leave is a legal run of a promoter holding the lock |
| HelperInstall.Installer.RollbackHelper | ops/c2/install-root-executor-helper.py:490-509 | On any host: from a disk that is not resumable it refuses and changes nothing; from a resumable one it takes the helper back exactly when all three host checks pass, and otherwise stops at the refused one with the disk untouched, with the intent written, or with both names gone |
| HelperInstall.ResumableIff | ops/c2/install-root-executor-helper.py:418-448 | The disks that a rollback turns down: no whole line, a torn one, a finished rollback, or both names without the line that says so |
| HelperInstall.History | ops/c2/install-root-executor-helper.py:361-509 | However often the three modes are started and stopped, on whatever hosts, each run leads from its disk to the next as its mode and host say, the receipt between whole lines is chained and in order, and the inode has as many links as names |
| HelperInstall.FinishRollback | ops/c2/install-root-executor-helper.py:490-509 | From `rollback_intent`, any number of stopped rollbacks can be followed by one that removes both names, unless one of them has already done so or stopped inside its last line |
| HelperInstall.StrandedHelper | ops/c2/install-root-executor-helper.py:418-448 | An installation stopped between the hard link and its line, which no rollback takes back |
| HelperInstall.Installer.Load | ops/c2/install-root-executor-helper.py:389-416 | The loader accepts exactly the receipts that end in a whole line, and reads back the last saved record |
| HelperInstall.Installer.InstallHelper | ops/c2/install-root-executor-helper.py:450-472 | On any host: refused without a change where something of an installation exists; otherwise committed with one name exactly when all three host checks pass, and stopped at the refused one with nothing, the staged name or the final name |
| HelperInstall.UnstoppedRan | ops/c2/install-root-executor-helper.py:450-509 | A run that is not stopped does its work exactly when disk and host permit it |
| HelperInstall.Installer.Save | ops/c2/install-root-executor-helper.py:361-387 | One line is appended that cites all the lines before it; a stop leaves at most an unfinished line |
| Ledger.LedgerVerdict | ops/c2/auto-custodian.py:226-247 | The loop returns the verdict on the last entry and the running count, or the first complaint |
| Ledger.AcceptedIff | ops/c2/auto-custodian.py:226-247 | A ledger is accepted exactly when it has one to a thousand entries under different identifiers, ends in the attempt asked for, and each entry is sound: a timed history of exactly its transitions, the full sequence with an acceptance equal to its verdict for a completed one, and no verdict for an inconclusive one; the answer is the last verdict |
| Ledger.CountMeans | ops/c2/auto-custodian.py:237-246 | The running count is the number of completed passes after the later of the last failure and the last change of policy |
| Ledger.StreakExists | ops/c2/auto-custodian.py:237-246 | In every nonempty ledger such a streak exists, so the count is always that of one |
| Ledger.AbandonIff | ops/c2/auto-custodian.py:250-261 | An interrupted attempt can be closed exactly when the boot changed or its actors are gone, the entries before it are valid, it stopped at a whole step, and its identity and policy are sound |
| Ledger.AbandonKeeps | ops/c2/auto-custodian.py:250-261 | The result is a valid ledger with every earlier entry unchanged, the interrupted attempt uncounted, and the count kept under an unchanged policy |
| Ledger.AbandonTwice | ops/c2/auto-custodian.py:255-255 | Recovering again changes nothing |
| Idempotence.ApplyTwice | pipeline/src/mapping/overrides.ts:20-57 | After one success the second application returns the same dictionary, unless a move names a key that the first run retired or an entry without ids dissolved a group whose key is not hashed: then, and only then, it stops at an unknown key |
| Idempotence.SoundApplyTwice | pipeline/src/mapping/overrides.ts:20-57 | Where hashed keys are those of the least members, the two cases can be read off the input |
| Idempotence.KeyedApplyTwice | pipeline/src/mapping/overrides.ts:20-57 | For dictionaries with hashed keys the idempotence promised by the comment holds without exception |
| Idempotence.ApplyKeeps | pipeline/src/mapping/overrides.ts:21-56 | A success keeps hashed keys in their own groups, loses no product and no key made from a least member, and only takes groups apart |
| Idempotence.KeysAfter | pipeline/src/mapping/overrides.ts:28-54 | A key made from the least member stays; any other hashed key stays exactly as long as its product is filed under it; a key that is not hashed vanishes exactly when some entry takes members from it |
| Corrections.ApplyTraces | pipeline/src/mapping/overrides.ts:20-57 | Every card of the result is for products of one earlier card: it has the content of that card, the category of the last move that names it, and its verdict, method and confidence, unless an entry approves it or its product was isolated |
| Corrections.ApprovedAfter | pipeline/src/mapping/overrides.ts:55-55 | After a success every approved key is there and approved, and every moved key was known |
| Corrections.ListedAlone | pipeline/src/mapping/overrides.ts:28-54 | After a success every product that an entry lists is alone in a group of its own |
| Corrections.StayTogether | pipeline/src/mapping/overrides.ts:28-54 | Two products of one group that no entry names stay in one group |
| Corrections.OrderlySucceeds | pipeline/src/mapping/overrides.ts:20-57 | Known moves, entries about different groups that take members from them once each, and approvals of untouched keys always succeed |
| Idempotence.CollidesIffRepeated | pipeline/src/mapping/overrides.ts:48-51 | For every dictionary, the collision check fires exactly for an id listed twice or one whose own key names another card; the second needs a hashed key that is not in its own group |
| Idempotence.NoCollision | pipeline/src/mapping/overrides.ts:48-51 | Where hashed keys are in their own groups, no collision is reported if every entry lists its ids once |
| Idempotence.SplitMeans | pipeline/src/mapping/overrides.ts:40-53 | For every dictionary whose products point at cards: a split gives every leaving product its own approved card with the content and category of its group, files the rest under their own hashed key on the old card, joining them to whatever group that key named, and touches nothing else |
| Idempotence.NeverJoins | pipeline/src/mapping/overrides.ts:44-46 | No group is joined to another where hashed keys are in their own groups |
| Idempotence.HandWrittenKey | pipeline/src/mapping/overrides.ts:20-57 | A concrete dictionary with a hand-written key on which the second application fails |
| Idempotence.ForeignFounder | pipeline/src/mapping/overrides.ts:20-57 | A concrete dictionary with a hashed key outside its own group: the second application succeeds and changes the result |
| Overrides.ApplyOverrides | pipeline/src/mapping/overrides.ts:21-57 | The program equals the three stages the results above are about, with the same first error |
| Overrides.ApplyOne | pipeline/src/mapping/overrides.ts:28-54 | One split entry, with its three loops and all four refusals |
| DictionaryBuilder.BuildDictionary | pipeline/src/mapping/dictionary.ts:52-75 | The builder equals its specification, with the same first error |
| DictionaryBuilder.BuildCards | pipeline/src/mapping/dictionary.ts:56-63 | One card a group, under the hash of its least member, and nothing else |
| DictionaryBuilder.ProductsListed | pipeline/src/mapping/dictionary.ts:56-64 | The products are those that some group lists, each under the name of the last group that does |
| DictionaryBuilder.BuildsIff | pipeline/src/mapping/dictionary.ts:52-62 | The build succeeds exactly when every group has members and no two have the same least one, and otherwise reports the first group that breaks this |
| DictionaryBuilder.BuiltKeyed | pipeline/src/mapping/dictionary.ts:46-64 | The built dictionary satisfies the key invariant exactly when no group lists the naming member of an earlier one |
| DictionaryBuilder.DisjointBuilds | pipeline/src/mapping/dictionary.ts:52-75 | Disjoint nonempty groups always build, into a dictionary with that invariant |
| ScopeCover.GreedyBound | pipeline/src/mapping/dana-scope.ts:58-65 | For every cover, the chosen sections number at most the harmonic number of the products times its size, times the most often one product repeats a section |
| ScopeCover.GreedyStep | pipeline/src/mapping/dana-scope.ts:59-62 | The best gain times the size of any cover is at least the number of uncovered products |
| ScopeCover.RunCovers | pipeline/src/mapping/dana-scope.ts:58-65 | The loop covers everything and chooses no section twice |
| ScopeCover.RunUnique | pipeline/src/mapping/dana-scope.ts:41-62 | Gain, size and name determine every choice, so the run is unique |
| ScopeCover.ChoiceMeans | pipeline/src/mapping/dana-scope.ts:58-65 | Every choice has, among the products that no earlier choice covers, the largest gain, the smallest size among equals, and the first name among those |
| ScopeCover.SizeMeans | pipeline/src/mapping/dana-scope.ts:44-50 | The size of a section is the number of places where products of the root list it |
| ScopeCover.CountersMean | pipeline/src/mapping/dana-scope.ts:51-56 | The counters are the numbers of the wanted products in the root, and of those without sections |
| ScopeCover.ComputeDanaScope | pipeline/src/mapping/dana-scope.ts:42-67 | The scope file lists that run, sorted, with its three counters |
| ScopeCover.ScopeCovers | pipeline/src/mapping/dana-scope.ts:11-14 | Every scope product with sections, the last under its id, lies in a listed section |
| ScopeCover.UncoveredFacts | pipeline/src/mapping/dana-scope.ts:44-56 | Covered and unsectioned products make up the scope exactly when no coverable product id repeats |
| ScopeCover.ComputeDinaScope | pipeline/src/mapping/dina-scope.ts:42-65 | The same run over de-duplicated category ids, within the harmonic factor of every cover without any assumption |
| Bundles.Validate | backend-go/internal/ingestion/bundle.go:103-170 | A bundle is accepted exactly when its groups partition the raw products, unchanged and each once, and every field is in range |
| Bundles.CheckGroups | backend-go/internal/ingestion/bundle.go:126-152 | The loop over groups and members, early refusals included |
| Resolve.ResolveBundle | backend-go/internal/ingestion/plan.go:39-140 | The program equals the resolution of the results below, so no order of visiting a map can change it |
| Identities.ResolutionMeans | backend-go/internal/ingestion/plan.go:40-63 | The error is that of the first store that has no row, or whose rows have dropped by more than the allowed percentage of the count before; then that of a source that declares another number of products; and only then that of a group |
| Identities.ResolvesIff | backend-go/internal/ingestion/plan.go:39-140 | Exactly when a bundle resolves, in either mode: all three stores stand, all declared counts agree, every group fits, and without reclustering no id is shared |
| Identities.CountersMean | backend-go/internal/ingestion/plan.go:83-134 | Each of the six counters of a report is the number of the groups it is about: of several stores, with a picture, mixing previous ids, new although a member was known, kept, and new |
| Identities.VotesMean | backend-go/internal/ingestion/plan.go:64-72 | The votes of a group for an id are the places where it is listed for one of its members |
| Resolve.LeaderOwns | backend-go/internal/ingestion/plan.go:73-82 | The owner of a previous id is the group with the most votes, then the most members, then the lowest index |
| Resolve.FindOwners | backend-go/internal/ingestion/plan.go:73-82 | The owner loop computes that owner for every id |
| Resolve.Choose | backend-go/internal/ingestion/plan.go:109-117 | Of the ids a group may keep it keeps the one with the most votes, then the smallest |
| Identities.TurnsShape | backend-go/internal/ingestion/plan.go:83-134 | Kept ids are pairwise distinct, and kept plus new groups make up the canonical count |
| Identities.ReclusterSucceeds | backend-go/internal/ingestion/plan.go:64-134 | With reclustering a resolution succeeds exactly when all categories are known and new ids can be drawn: neither conflict can occur |
| Identities.Fate | backend-go/internal/ingestion/plan.go:73-126 | Every previous id with a surviving member is carried on by its owner alone, or its owner carries on another id with at least as many votes there |
| Identities.StrictSucceeds | backend-go/internal/ingestion/plan.go:84-134 | Without reclustering it succeeds exactly when, besides, no group mixes two previous ids and no two groups share one |
| Identities.StrictKeeps | backend-go/internal/ingestion/plan.go:101-122 | Without reclustering every known member keeps the one identity it had |
| Identities.PartitionStable | backend-go/internal/ingestion/plan.go:64-135 | Without reclustering two known members share a canonical id afterwards exactly when they shared one before |
| Publication.Serve | backend-go/internal/ingestion/ingestor.go:54-446 | A process that stages, publishes and closes any number of runs over one connection, beside any legal behaviour of other sessions and with connections lost at any statement, holds the lock once for every open run and not at all at the end; the chain stays intact and published snapshots never change |
| Publication.Ingest | backend-go/cmd/ingest/main.go:134-160 | Stage, publish and close: undisturbed, the snapshot is published exactly when the bundle is valid, the lock free, the id new and everything resolves, and a stored run that fails is kept as failed; disturbed in any way, the lock is not kept |
| Publication.Staged.Publish | backend-go/internal/ingestion/ingestor.go:379-446 | Success appends the snapshot directly behind its baseline, stamped with the clock of that statement or, where that is no later, with the instant after the baseline; failure leaves the chain alone and the run done; undisturbed it succeeds exactly on an unchanged baseline with the snapshot still validating |
| Publication.Staged.Close | backend-go/internal/ingestion/ingestor.go:242-251 | The lock is released once, or its connection goes with it; a second close does nothing |
| Publication.Staged.Fail | backend-go/internal/ingestion/ingestor.go:227-238 | A failed run is kept as failed, undisturbed in any case, without moving lock or chain |
| Publication.Ingestor.Stage | backend-go/internal/ingestion/ingestor.go:259-371 | A staged run holds the lock once and its snapshot is validating; every refusal has given the lock back; undisturbed, the whole new database is a function of the old one, which after a colliding id lacks the lock and the connection |
| Publication.Ingestor.DryRun | backend-go/internal/ingestion/ingestor.go:189-203 | A dry run gives its lock back on every path; undisturbed it changes nothing and succeeds exactly for a valid bundle that resolves under a free lock |
| Publication.Ingestor.Unlock | backend-go/internal/ingestion/ingestor.go:79-86 | A lock that cannot be released closes its connection |
| Publication.Ingestor.UnlockAborted | backend-go/internal/ingestion/ingestor.go:79-86 | Inside a transaction that a failed statement has aborted, the lock is given back by closing the connection |
| PublicationWorld.LegalKeepsInv | backend-go/internal/ingestion/ingestor.go:373-446 | Each statement sent under the protocol keeps one chain with strictly increasing timestamps, each snapshot on top of its immediate predecessor |
| PublicationWorld.LegalMoves | backend-go/internal/ingestion/ingestor.go:227-446 | Statuses move only from building to validating to published, or to failed, and published snapshots never change |
| PublicationWorld.HistoryKeepsChain | backend-go/internal/ingestion/ingestor.go:54-446 | Every sequence of such statements, by any number of sessions, keeps the chain and only grows it |
| PublicationWorld.OthersRely | backend-go/internal/ingestion/ingestor.go:69-78 | No statement of another session moves the chain while a session holds the lock, or touches its snapshots |
| PublicationWorld.NewestIsLatest | backend-go/internal/ingestion/ingestor.go:100-100 | The row with the greatest timestamp is the end of the chain |
| RateLimit.UnobservableIff | backend-go/internal/middleware/ratelimit.go:33-55 | Forgetting idle clients is unobservable on every run of calls in time order exactly when the burst is at most what ten idle minutes refill |
| RateLimit.RunRefines | backend-go/internal/middleware/ratelimit.go:33-55 | Under that condition every call not refused for capacity gets the answer of a limiter that never forgets, and at most 8192 clients are known |
| RateLimit.AllowedIff | backend-go/internal/middleware/ratelimit.go:33-55 | A call is allowed exactly when the client stays, in every window of calls up to it, within the burst and what the window refills: for the limiter that never forgets always, for the one that forgets under that condition |
| RateLimit.RecentStay | backend-go/internal/middleware/ratelimit.go:36-42 | A client seen within the last ten minutes is not dropped |
| RateLimit.RefusedWhenCrowded | backend-go/internal/middleware/ratelimit.go:45-51 | A call is refused for capacity only if 8192 other clients were answered in the eleven minutes before it |
| RateLimit.Limiter.Allow | backend-go/internal/middleware/ratelimit.go:33-55 | The method with its sweep loop equals the state function of those results |
| Producer.Produce | pipeline/src/cli/match.ts:19-31 | Distinct products, whatever the model answers, become a bundle that is block, match, filter and separation applied in turn; each of its groups says of its members what its cluster says: method, confidence and verdict; two products are in one group exactly when a suggestion of at least 0.95 on their block joins them, the guards keep them, all its categories are published, and both are sold by the piece or all of it is weighed; it is a partition exactly when no block leaves a product twice, and the ingestor accepts it exactly then, with rows, names and source files in order |
| Producer.SharedIff | pipeline/src/cli/match.ts:19-31 | Two products are published as one exactly when some suggestion joins them |
| Producer.PublishedComes | pipeline/src/cli/match.ts:19-31 | A published group of several comes from one suggestion, whose confidence it carries, and is approved |
| Producer.LeadMeans | pipeline/src/agent/bundle.ts:36-39 | The leading member is the first with a usable picture in the order of the stores, or the first of all |
| Producer.MatchedBlocksMean | pipeline/src/cli/match.ts:22-25 | Over all blocks and any replies every product ends up in a cluster, and the filter leaves none twice exactly when no block does |
| Producer.PlacedOnceIff | pipeline/src/cli/match.ts:22-25 | Every product ends up in exactly one cluster precisely when no reply lists a product twice on a block offered to the model |
| Producer.AnyDoublesIff | pipeline/src/cli/match.ts:22-27 | A product is published twice exactly when a reply lists one twice on a block whose category is published |
| Producer.AcceptedIff | pipeline/src/agent/bundle.ts:31-51 | The exact condition under which the consumer accepts a bundle of publishable clusters, distinctness of the products included |
| Producer.Partition | pipeline/src/agent/bundle.ts:34-48 | Clusters make a partition of the raw products exactly when their products are distinct |
| Producer.CountsAgree | pipeline/src/agent/bundle.ts:49-51 | Declared counts are those the consumer finds |
| Producer.ForPublishMeans | pipeline/src/mapping/publish.ts:10-19 | Nothing is lost, and a published group of several is approved, one product a store, of one shape, and all weighed or none |
| Producer.TogetherIff | pipeline/src/mapping/publish.ts:10-19 | Two members of a cluster are published together exactly when it is approved and they are both sold by the piece or the whole cluster is weighed; every part keeps the verdict |
| Surviving.InScopeMeans | pipeline/src/mapping/scope.ts:23-24 | Exactly the clusters that lie in the published categories entirely survive |
| Surviving.BlockTwiceIff | pipeline/src/agent/match.ts:36-61 | For any scope, the exact condition on the suggestions, the confidences and the guards under which a block leaves a product twice after the filter |
| Surviving.CategoryDoublesIff | pipeline/src/agent/match.ts:36-61 | A block of one category leaves a product twice exactly when it is published and a suggestion lists one twice |
| Surviving.OnceNeverDoubles | pipeline/src/agent/match.ts:50-56 | A reply that lists every id once leaves nothing twice, whatever the scope and the guards |
| Surviving.DoubledReply | pipeline/src/agent/match.ts:50-56 | A concrete reply that names one product twice, with the block doubled in one scope and not in another |
| Matching.MatchBlock | pipeline/src/agent/match.ts:36-61 | The loop over the suggestions with its set of used ids equals the specification of the next rows, for every block and every reply |
| Matching.MatchedBlockMeans | pipeline/src/agent/match.ts:36-61 | Every product of a block is placed, and in exactly one cluster precisely when no suggestion lists an unused product twice |
| Matching.GroupedIff | pipeline/src/agent/match.ts:52-58 | A cluster of several products is a result of a block of several stores exactly when it is that of some suggestion of at least 0.8 in the first reply, or in the second where there is no first: the members left together after the guards, matched by the model, with the confidence of that suggestion, and approved exactly from 0.95 on |
| Matching.GuardedSuggestion | pipeline/src/agent/match.ts:53-57 | A confident suggestion whose products need no guarding keeps them all together |
| Matching.SelectedMeans | pipeline/src/agent/match.ts:50-56 | What the suggestions select, and that it repeats something exactly when a suggestion does |
| Matching.ApplyGuards | pipeline/src/agent/match.ts:21-34 | The loop over the ranked members equals its specification |
| Matching.GuardsMean | pipeline/src/agent/match.ts:21-34 | Nothing is lost, the kept group is led by the anchor, has one product a store and one shape, in each store the most similar one is kept, and the others become single |
| Clusters.BuildBlocks | pipeline/src/agent/block.ts:10-27 | Every item lands in exactly one block, and each block is all items of one block key or, where those are too many, a slice of those that share a brand initial |
| Clusters.SameBlock | pipeline/src/agent/block.ts:12-19 | Items of one block key that are not too many are offered together |
| Pool.MapPool | pipeline/src/pool.ts:5-21 | In whatever order calls resolve, each item is called once, in item order, never more than the allowed number at a time, with results in item order |
| Pool.Run.Turn | pipeline/src/pool.ts:12-17 | What one worker does between two awaits |
| DanaCrawl.ScrapeDana | pipeline/src/scrapers/dana.ts:175-209 | For pages that answer the same whenever asked, products, annotations and error count are those of the sequential crawl |
| DanaCrawl.QueueAgrees | pipeline/src/scrapers/dana.ts:175-187 | The shared queue brings back, target by target, what the sequential crawl sees |
| DanaCrawl.Annotated | pipeline/src/scrapers/dana.ts:188-201 | A product is annotated with exactly the sections of the targets that list it |
| DanaCrawl.Listing | pipeline/src/scrapers/dana.ts:202-202 | The written section list names each section once |
| DanaCrawl.CrawlListed | pipeline/src/scrapers/dana.ts:188-201 | The products are listed once each, with the card of their first sighting, in the order of those |
| DanaCrawl.ErrorsMean | pipeline/src/scrapers/dana.ts:175-187 | The error count is the number of fetched pages that failed |
| Sitemap.AllProducts | frontend/src/app/sitemap.ts:17-33 | Whatever the endpoint answers, the prefetching traversal returns the list of serial paging, for at most three requests more |
| Sitemap.SerialLists | frontend/src/app/sitemap.ts:12-33 | Over one catalogue that list is the first five thousand rows |
| Sitemap.RequestsNeeded | frontend/src/app/sitemap.ts:17-33 | Serial paging asks once for every full page and once more, fifty times at most |
| Sitemap.Project | backend-go/internal/postgres/c2projection.go:285-319 | The projection reports that same count, is truncated exactly beyond five thousand, and refuses exactly the disorderly listings |
| Sitemap.PositionsTrue | backend-go/internal/postgres/c2projection.go:189-195 | A candidate gets its true position in the sitemap list, or none if it is not in it |
| Voice.Dialogue | backend-go/internal/voice/service.go:35-132 | In every run, whatever parser, stores and live catalogue answer, each query has a valid intent, a visible category, both milk fields for milk, and only filters the live schema admits |
| Voice.NeverReplaced | backend-go/internal/voice/service.go:73-92 | An answer for a milk field that is not on offer is asked for again and never replaced by an earlier value |
| Voice.AnswersInFull | backend-go/internal/voice/service.go:94-120 | A complete answer leads to exactly one query, for the intent the session had, and ends the session |
| Voice.ContinuedMeans | backend-go/internal/voice/service.go:50-120 | One answer, in every case: it is taken exactly when it is valid, what is on offer of it is valid for the live schema, so is the state it leads to, and nothing outside fails; that state has the first intent, the last category and each filter as last said; it is stored under the session that was named, or the query carries all of it and the session ends; otherwise nothing is remembered |
| Voice.StartedMeans | backend-go/internal/voice/service.go:35-49 | The same for the first request, whose state is what it says without the refused fields, under a new session |
| Voice.QuestionMeans | backend-go/internal/voice/state.go:129-167 | A question is asked exactly while something is missing, and only about that |
| Voice.Service.Continue | backend-go/internal/voice/service.go:50-93 | One answer, with all its refusals, equals the transition function of those results |
| Voice.Service.Start | backend-go/internal/voice/service.go:35-49 | So does the first request |
| Voice.Service.LiveInput | backend-go/internal/voice/live_validation.go:22-44 | What passes, and as what: valid for the live schema of the selected category |
| Voice.Merge | backend-go/internal/voice/state.go:105-128 | The two loops over the filters, in any order |

## Left out

- PairUpgrade.Upgrade.Run: file ownership, modes, extended attributes and directory identities are taken as correct; foreign names in the scanned directories and files altered by others are not modelled.
- PairUpgrade.RecoverAfterHistory: a failing write is a stop; a write that reports an error and lets the process continue is not modelled.
- Promotion.Transaction.Promote: the Git checkout is one atomic write, so are the two directories it creates, the binary and clock digests of the authority record are folded into the release, and temporary names outside the release directories are left out because nothing reads them; for a host that refuses a second check, inside the rollback of the first refusal, the general clauses hold but not the exact ones.
- Promotion.Transaction.Place: a write that reports an error while the process goes on; a failing write is a stop.
- Promotion.History: an interlock left by a failed Git child (`command_cleanup_unverified`) is one more stop.
- RuntimeGate.ServiceSeesOneRelease: the lock deadline is an event without a clock, and services are seen only through the files they read.
- HelperInstall.FinishRollback: a receipt torn inside its last line stays refused, as in the source; the network proof of the helper's bytes is not modelled.
- Ledger.LedgerVerdict: the JSON reader in front of it, and evidence fields other than the acceptance.
- Idempotence.ApplyTwice: dictionaries with a hashed key that is no member's of its group, for which `Idempotence.ForeignFounder` shows that it can fail; the exact condition for those is not stated.
- Overrides.ApplyOverrides: the schema checks before and after it, and object keys that JavaScript treats specially.
- DictionaryBuilder.BuildDictionary: the majority vote for store categories, which the corrections do not read.
- ScopeCover.ComputeDanaScope: the category rule is one bit a product; section names are numbered in their sort order.
- Producer.Produce: block keys, similarity scores and weighed marks are given per product; brand votes and payload slimming are not modelled.
- Matching.MatchBlock: the prompt and the provider behind it; a reply is any list that fits its schema.
- Resolve.ResolveBundle: the counters of a report that is returned with a failure; image coverage is given by its numerator; the percentage of a drop is taken over exact reals, where the source divides floating-point numbers.
- Publication.Staged.Publish: rows of products, mappings and offers are statements that may fail, so batching in groups of 500 is not visible; a reply that is lost takes its connection with it, and one connection is used by one goroutine at a time.
- RateLimit.Limiter.Allow: token arithmetic is over reals, so rounding of the floating-point bucket is not modelled, and the mutex is what makes a call one step.
- Pool.MapPool: a call that throws; its callers catch inside the call.
- DanaCrawl.ScrapeDana: the choice of targets and the menu request before it.
- Sitemap.Project: the database error paths and the other candidate lists.
- Voice.Dialogue: the texts, offers and distances of a response, session expiry, and JSON details below primitive values.
- The reviewed-bundle installer (ops/c2/install-reviewed-c2.py), whose deletions are not resumable.
- GitHub admission, archive unpacking, ELF inspection, systemd units and authorization records: outside evidence.
- React views, NestJS controllers, SQL text and the other scrapers.
