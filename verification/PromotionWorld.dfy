/** The durable state of a publisher promotion: checkout, closure files, interlock and
    release directories (ops/c2/publisher-promotion.py). */
module PromotionWorld {
  import opened Outcomes

  /** The closure is the twelve kit files followed by the two authority records, in the
      order the journal and the backups number them. */
  const TARGETS: nat := 14
  const KIT: nat := 12
  const CUSTODIAN: nat := 2
  const CANDIDATES: nat := 14
  const AUTO: nat := 13
  const MAX_RELEASES := 1000

  /** File contents up to SHA-256. The automatic record lists the kit files it approves. */
  datatype Content = Plain(id: nat) | Authority(source: nat, build: nat) | Automatic(source: nat, kit: seq<Content>)

  /** One release as services see it: the checkout and every closure file. */
  datatype Release = Release(publisher: nat, files: seq<Content>)

  predicate WellFormed(r: Release) { |r.files| == TARGETS }

  /** The installed automatic record approves the installed custodian, which is what
      `Host.invariants` insists on before it reads the ledger. */
  predicate CodecApproved(r: Release)
    requires WellFormed(r)
  {
    r.files[AUTO].Automatic? && |r.files[AUTO].kit| == KIT && r.files[AUTO].kit[CUSTODIAN] == r.files[CUSTODIAN]
  }

  datatype Phase = Intent | BackedUp | CandidateStaged | Prepared | Switching | Publisher | FileDone(i: nat) | Committed | RolledBack

  datatype Backup = Backup(oldHash: Content, newHash: Content)

  datatype Journal = Journal(identity: nat, phase: Phase, oldPublisher: nat, newPublisher: nat, ledger: nat, targets: seq<Backup>)

  /** The interlock file; a no-clobber publication cut between its link and its unlink
      leaves it with two links, which `read` refuses. */
  datatype Interlock = Interlock(journal: Journal, links: nat)

  /** A release directory: its backups, the number of candidate files, the two terminal records,
      and the temporary names that writes cut inside it have left behind. */
  datatype Directory = Directory(backups: seq<Content>, candidates: nat, receipt: Option<Journal>, rollback: Option<Journal>, pending: nat)

  /** The record of the last release; like the interlock it may be cut between link and unlink. */
  datatype Last = Last(identity: nat, links: nat)

  datatype World = World(live: Release, interlock: Option<Interlock>, releases: map<nat, Directory>, last: Option<Last>, ledger: nat)

  function OldRelease(j: Journal): (r: Release)
    ensures |r.files| == |j.targets|
  {
    Release(j.oldPublisher, seq(|j.targets|, i requires 0 <= i < |j.targets| => j.targets[i].oldHash))
  }

  function NewRelease(j: Journal): (r: Release)
    ensures |r.files| == |j.targets|
  {
    Release(j.newPublisher, seq(|j.targets|, i requires 0 <= i < |j.targets| => j.targets[i].newHash))
  }

  /** `Host.invariants`: the ledger state, unless the custodian is not the approved one. */
  function Invariants(w: World): (r: Outcome<nat>)
    requires WellFormed(w.live)
    ensures r.Done? <==> CodecApproved(w.live)
    ensures !r.Interrupted?
  {
    if CodecApproved(w.live) then Done(w.ledger) else Blocked(LedgerCodecAuthority)
  }

  // ----- the inventory -----

  /** The record that ends a release directory. */
  function Terminal(d: Directory): Option<Journal> { if d.rollback.Some? then d.rollback else d.receipt }

  /** A directory as the inventory wants it: nothing but known names, all backups, and a terminal
      record that fits it. */
  predicate Ended(identity: nat, d: Directory) {
    && d.pending == 0 && |d.backups| == TARGETS && Terminal(d).Some?
    && Terminal(d).value.identity == identity && |Terminal(d).value.targets| == TARGETS
    && Terminal(d).value.phase == if d.rollback.Some? then RolledBack else Committed
  }

  /** `inventory`: at most a thousand release directories, each of them ended. */
  predicate InventoryComplete(w: World) {
    |w.releases| <= MAX_RELEASES && forall identity :: identity in w.releases ==> Ended(identity, w.releases[identity])
  }

  // ----- the invariant -----

  /** A release recorded in full: both ends are whole releases and the backups are the old files. */
  ghost predicate Records(j: Journal, d: Directory, whole: set<Release>) {
    && |j.targets| == TARGETS
    && OldRelease(j) in whole && NewRelease(j) in whole
    && d.backups == OldRelease(j).files
  }

  /** Every live file and the checkout come from one end or the other of the transaction. */
  predicate Between(w: World, j: Journal) {
    && WellFormed(w.live) && |j.targets| == TARGETS
    && w.live.publisher in {j.oldPublisher, j.newPublisher}
    && forall i :: 0 <= i < TARGETS ==> w.live.files[i] in {j.targets[i].oldHash, j.targets[i].newHash}
  }

  ghost predicate InterlockInv(w: World, k: Interlock, whole: set<Release>) {
    && k.links in {1, 2}
    && k.journal.ledger == w.ledger
    && (k.links == 2 ==> w.live in whole)
    && OthersEnded(w, k.journal.identity)
    && if k.journal.targets == [] then k.journal.phase.Intent? && w.live in whole
       else && k.journal.identity in w.releases
            && Records(k.journal, w.releases[k.journal.identity], whole) && Between(w, k.journal)
            && (w.releases[k.journal.identity].rollback.Some? ==> w.live == OldRelease(k.journal))
  }

  /** A transaction starts from a complete inventory, so all other directories are ended. */
  predicate OthersEnded(w: World, identity: nat) {
    && |w.releases.Keys - {identity}| <= MAX_RELEASES
    && forall other :: other in w.releases && other != identity ==> Ended(other, w.releases[other])
  }

  /** Terminal records fit their directories. */
  ghost predicate RecordsFit(identity: nat, d: Directory, whole: set<Release>) {
    && (d.receipt.Some? && d.rollback.None? ==> Records(d.receipt.value, d, whole))
    && (d.receipt.Some? || d.rollback.Some? ==> |d.backups| == TARGETS)
    && (d.receipt.Some? ==>
      d.receipt.value.identity == identity && d.receipt.value.phase == Committed &&
      |d.receipt.value.targets| == TARGETS)
    && (d.rollback.Some? ==>
      d.rollback.value.identity == identity && d.rollback.value.phase == RolledBack &&
      |d.rollback.value.targets| == TARGETS)
  }

  /** What holds after every durable write of every promotion and rollback. */
  ghost predicate Inv(w: World, whole: set<Release>) {
    && WellFormed(w.live)
    && (forall r :: r in whole ==> WellFormed(r) && CodecApproved(r))
    && (forall identity :: identity in w.releases ==> RecordsFit(identity, w.releases[identity], whole))
    && (match w.interlock
        case None => w.live in whole
        case Some(k) => InterlockInv(w, k, whole))
  }

  /** A journal may be published that says what the disk says. */
  lemma InterlockKeepsInv(w: World, k: Interlock, whole: set<Release>)
    requires Inv(w, whole) && InterlockInv(w, k, whole)
    ensures Inv(w.(interlock := Some(k)), whole)
  {
    hide RecordsFit, Records;
  }

  /** What may be written into the directory of the transaction under way. */
  ghost predicate Fits(w: World, identity: nat, d: Directory, whole: set<Release>) {
    && w.interlock.Some? && w.interlock.value.links == 1 && w.interlock.value.journal.identity == identity
    && RecordsFit(identity, d, whole)
    && (w.interlock.value.journal.targets != [] ==>
          && identity in w.releases && d.backups == w.releases[identity].backups
          && (d.rollback.Some? ==> w.live == OldRelease(w.interlock.value.journal)))
  }

  lemma DirectoryKeepsInv(w: World, identity: nat, d: Directory, whole: set<Release>)
    requires Inv(w, whole) && Fits(w, identity, d, whole)
    ensures Inv(w.(releases := w.releases[identity := d]), whole)
  {
    hide RecordsFit, Ended;
    var n := w.(releases := w.releases[identity := d]);
    OthersStay(w, n, identity);
    hide OthersEnded;
  }

  lemma OthersStay(w: World, n: World, identity: nat)
    requires identity in n.releases && n.releases == w.releases[identity := n.releases[identity]]
    ensures OthersEnded(n, identity) <==> OthersEnded(w, identity)
  {
    hide Ended;
    assert n.releases.Keys - {identity} == w.releases.Keys - {identity};
    forall other | other in w.releases && other != identity ensures other in n.releases && n.releases[other] == w.releases[other] {}
    forall other | other in n.releases && other != identity ensures other in w.releases && n.releases[other] == w.releases[other] {}
  }

  /** Temporary names and candidate files do not matter to it. */
  lemma PendingFits(w: World, identity: nat, d: Directory, candidates: nat, pending: nat, whole: set<Release>)
    requires Inv(w, whole) && identity in w.releases && Fits(w, identity, d, whole)
    ensures Fits(w, identity, d.(candidates := candidates, pending := pending), whole)
    ensures Fits(w, identity, w.releases[identity].(candidates := candidates, pending := pending), whole)
  {
  }

  /** The rule every durable write of a promoter obeys: what services read changes only
      under an interlock, and the interlock is lifted only off a whole release. */
  predicate Guarded(before: World, after: World, whole: set<Release>) {
    && (after.live != before.live ==> before.interlock.Some? && after.interlock.Some?)
    && (before.interlock.Some? && after.interlock.None? ==> after.live in whole)
    && after.ledger == before.ledger
  }

  /** What a running service may change: the ledger, and only where there is no interlock. */
  predicate Served(before: World, after: World) {
    before.interlock.None? && after == before.(ledger := after.ledger)
  }

  predicate Allowed(before: World, after: World, whole: set<Release>) {
    Guarded(before, after, whole) || Served(before, after)
  }

  /** A history of durable states. */
  predicate AllowedLog(log: seq<World>, whole: set<Release>) {
    forall i :: 0 <= i < |log| - 1 ==> Allowed(log[i], log[i + 1], whole)
  }

  lemma LogGrows(log: seq<World>, w: World, whole: set<Release>)
    requires |log| > 0 && AllowedLog(log, whole) && Allowed(log[|log| - 1], w, whole)
    ensures AllowedLog(log + [w], whole)
  {
  }

  /** At every moment of such a history, no interlock means a whole release. */
  lemma {:induction false} NoInterlockMeansWhole(log: seq<World>, whole: set<Release>, i: nat)
    requires AllowedLog(log, whole) && i < |log| && log[0].interlock.None? && log[0].live in whole
    ensures log[i].interlock.None? ==> log[i].live in whole
  {
    if i > 0 {
      NoInterlockMeansWhole(log, whole, i - 1);
      assert Allowed(log[i - 1], log[i], whole);
    }
  }

  // ----- when a rollback can run -----

  /** The facts a full `--rollback-interrupted` needs from the disk it finds. */
  predicate RollbackReady(w: World) {
    && WellFormed(w.live) && w.interlock.Some? && w.interlock.value.links == 1
    && w.interlock.value.journal.targets != []
    && CodecApproved(w.live)
    && w.interlock.value.journal.identity in w.releases
    && w.releases[w.interlock.value.journal.identity].rollback.None?
  }

  /** Files of a promotion (or, read backwards, of a rollback) cut after `n` replacements. */
  function Mixed(first: Release, second: Release, n: nat): seq<Content>
    requires WellFormed(first) && WellFormed(second) && n <= TARGETS
  {
    second.files[..n] + first.files[n..]
  }

  /** A transaction cut after `n` replacements still passes the codec check exactly when the
      two releases share a custodian, or the custodian is not yet replaced, or the automatic
      record already is. */
  lemma CutPassesCodecIff(first: Release, second: Release, n: nat, publisher: nat)
    requires WellFormed(first) && WellFormed(second) && n <= TARGETS
    requires CodecApproved(first) && CodecApproved(second)
    ensures CodecApproved(Release(publisher, Mixed(first, second, n))) <==>
              first.files[CUSTODIAN] == second.files[CUSTODIAN] || n <= CUSTODIAN || n == TARGETS
  {
  }

  /** A promotion cut after `n` replacements, or (with the ends exchanged) a rollback cut after
      `n` restores, can be rolled back exactly when the two releases share a custodian or the
      cut misses the stretch between the custodian and the automatic record. */
  lemma CutCanRollBackIff(w: World, k: Interlock, first: Release, second: Release, n: nat, whole: set<Release>)
    requires Inv(w, whole) && w.interlock == Some(k) && k.links == 1 && k.journal.targets != [] && n <= TARGETS
    requires w.releases[k.journal.identity].rollback.None?
    requires (first == OldRelease(k.journal) && second == NewRelease(k.journal)) ||
             (first == NewRelease(k.journal) && second == OldRelease(k.journal))
    requires w.live.files == Mixed(first, second, n)
    ensures RollbackReady(w) <==>
              OldRelease(k.journal).files[CUSTODIAN] == NewRelease(k.journal).files[CUSTODIAN] || n <= CUSTODIAN || n == TARGETS
  {
  }
}
