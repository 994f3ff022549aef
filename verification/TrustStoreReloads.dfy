/** The device maps that a host loads over whole runs: after every episode exactly one of the committed maps. */
module TrustStoreReloads {

  import opened Wrappers
  import opened DurableDisk
  import opened StoreFiles
  import opened DeviceRecords
  import opened TrustJournal
  import opened TrustJournalCommit
  import opened TrustJournalTheorems
  import opened TrustStoreRuns
  import opened TrustStoreAftermath
  import opened TrustStoreStories
  import opened TrustStoreMemory
  import opened TrustStoreStates

  /** The file holds this map, and the map passes the validation of the loader. */
  predicate HoldsMap(fp: FingerprintFn, maxDevices: nat, store: Option<StoreImage>, devices: Devices) {
    Represents(OutcomeOf(store), devices) && Storable(fp, maxDevices, devices)
  }

  lemma HeldMapLoads(fp: FingerprintFn, maxDevices: nat, d: Disk<Text>, store: Option<StoreImage>, devices: Devices)
    requires HoldsMap(fp, maxDevices, store, devices)
    requires var e := Run(d, RecoverOps(d)); OutcomeAt(Live(e), e.nodes, Target) == OutcomeOf(store)
    ensures Reload(fp, maxDevices, d) == Ok(devices)
  {
    hide Run;
    hide RecoverOps;
    hide Storable;
    hide Load;
    ReloadsExactly(fp, maxDevices, devices);
  }

  lemma CurrentTarget(d: Disk<Text>, store: Option<StoreImage>)
    requires Current(d, store)
    ensures OutcomeAt(Live(d), d.nodes, Target) == OutcomeOf(store)
  {
    LiveIsImage(d.durable, d.pending);
  }

  /** A settled disk loads its map, and so does whatever a power loss and recoveries cut short by others leave of it. */
  lemma SettledReloads(fp: FingerprintFn, maxDevices: nat, d: Disk<Text>, store: Option<StoreImage>, devices: Devices)
    requires Settled(d, store) && HoldsMap(fp, maxDevices, store, devices)
    ensures Reload(fp, maxDevices, d) == Ok(devices)
    ensures forall chain | Restarts(chain) && Crashed(d, chain[0]) :: Reload(fp, maxDevices, chain[|chain| - 1]) == Ok(devices)
  {
    hide Run;
    hide HoldsMap;
    hide Crashed;
    hide Reload;
    assert Journal !in Live(d) && Current(d, store);
    RestartWithoutJournal(d);
    CurrentTarget(d, store);
    HeldMapLoads(fp, maxDevices, d, store, devices);
    hide Settled;
    forall chain | Restarts(chain) && Crashed(d, chain[0]) ensures Reload(fp, maxDevices, chain[|chain| - 1]) == Ok(devices) {
      PowerLossRepairs(d, store, chain);
      SettledIsCurrent(Recovered(chain), store);
      CurrentTarget(Recovered(chain), store);
      HeldMapLoads(fp, maxDevices, chain[|chain| - 1], store, devices);
    }
  }

  lemma SettledIsCurrent(d: Disk<Text>, store: Option<StoreImage>)
    requires Settled(d, store)
    ensures Current(d, store)
  {}

  /** Every commit of the run writes a map that passes validation. */
  predicate CommitsMap(fp: FingerprintFn, maxDevices: nat, e: Episode, staged: Devices) {
    !e.IdleLoss? ==> e.next == Serialize(staged) && Storable(fp, maxDevices, staged)
  }

  /** The maps that an episode may leave, from the one before it and the one that it commits. */
  function MapsAfter(prior: Option<StoreImage>, e: Episode, before: Devices, staged: Devices): set<Devices> {
    match e
    case Ended(_, _, _, fault, _) =>
      if Commits(fault) then {staged} else if LeavesNoJournal(prior, fault) then {before} else {before, staged}
    case PowerLoss(next, t, m, fault, _, k, _) =>
      if Commits(fault) && k >= CommitPoint(prior, next, t, m) then {staged} else {before, staged}
    case IdleLoss(_) => {before}
  }

  lemma EpisodeHoldsMap(fp: FingerprintFn, maxDevices: nat, prior: Option<StoreImage>, e: Episode, store: Option<StoreImage>,
                        before: Devices, staged: Devices) returns (devices: Devices)
    requires HoldsMap(fp, maxDevices, prior, before) && CommitsMap(fp, maxDevices, e, staged)
    requires store in Possibilities(prior, e)
    ensures HoldsMap(fp, maxDevices, store, devices) && devices in MapsAfter(prior, e, before, staged)
  {
    hide Storable;
    hide Serialize;
    hide CommitPoint;
    hide LeavesNoJournal;
    if store == prior && before in MapsAfter(prior, e, before, staged) {
      devices := before;
    } else {
      devices := staged;
    }
  }

  /** Over any run from a settled and clean disk: each state loads one whole map, which every power loss keeps, and
      which is the map before the episode or the one that it committed, as the episode says. */
  lemma {:induction false} StoryReloads(fp: FingerprintFn, maxDevices: nat, disks: seq<Disk<Text>>, tidy: seq<bool>,
                                        episodes: seq<Episode>, first: Devices, staged: seq<Devices>, i: nat)
    returns (before: Devices, devices: Devices)
    requires Story(disks, tidy, episodes) && i < |disks| && |staged| == |episodes|
    requires Settled(disks[0], Loaded(disks[0])) && Clean(disks[0], Loaded(disks[0])) && HoldsMap(fp, maxDevices, Loaded(disks[0]), first)
    requires forall j | 0 <= j < |episodes| :: CommitsMap(fp, maxDevices, episodes[j], staged[j])
    ensures HoldsMap(fp, maxDevices, Loaded(disks[i]), devices)
    ensures Reload(fp, maxDevices, disks[i]) == Ok(devices)
    ensures forall chain | Restarts(chain) && Crashed(disks[i], chain[0]) :: Reload(fp, maxDevices, chain[|chain| - 1]) == Ok(devices)
    ensures if i == 0 then devices == first
            else Reload(fp, maxDevices, disks[i - 1]) == Ok(before)
                 && devices in MapsAfter(Loaded(disks[i - 1]), episodes[i - 1], before, staged[i - 1])
    decreases i
  {
    hide Settled;
    hide Clean;
    hide Loaded;
    hide HoldsMap;
    hide CommitsMap;
    hide Possibilities;
    hide MapsAfter;
    hide Reload;
    hide Restarts;
    hide Crashed;
    hide Story;
    StoryIsSound(disks, tidy, episodes, i);
    before, devices := first, first;
    if i > 0 {
      StoryHasLengths(disks, tidy, episodes);
      var _, was := StoryReloads(fp, maxDevices, disks, tidy, episodes, first, staged, i - 1);
      before := was;
      devices := EpisodeHoldsMap(fp, maxDevices, Loaded(disks[i - 1]), episodes[i - 1], Loaded(disks[i]), before, staged[i - 1]);
    }
    SettledReloads(fp, maxDevices, disks[i], Loaded(disks[i]), devices);
  }

  lemma StoryHasLengths(disks: seq<Disk<Text>>, tidy: seq<bool>, episodes: seq<Episode>)
    requires Story(disks, tidy, episodes)
    ensures |disks| == |episodes| + 1
  {}

  /** The same for a host that starts on an empty directory: it always loads the empty map or one that it committed. */
  lemma {:induction false} HostLoadsCommittedMaps(fp: FingerprintFn, maxDevices: nat, disks: seq<Disk<Text>>, tidy: seq<bool>,
                                                  episodes: seq<Episode>, staged: seq<Devices>, i: nat)
    requires Story(disks, tidy, episodes) && i < |disks| && |staged| == |episodes| && disks[0] == Disk(map[], [], [])
    requires forall j | 0 <= j < |episodes| :: CommitsMap(fp, maxDevices, episodes[j], staged[j])
    ensures exists devices :: Reload(fp, maxDevices, disks[i]) == Ok(devices) && (devices == [] || devices in staged[..i])
    decreases i
  {
    hide Reload;
    hide Story;
    hide CommitsMap;
    hide Settled;
    hide Clean;
    hide Crashed;
    hide Restarts;
    EmptyDirectoryIsSettled();
    EmptyIsStorable(fp, maxDevices);
    assert HoldsMap(fp, maxDevices, Loaded(disks[0]), []);
    hide HoldsMap;
    hide Loaded;
    StoryHasLengths(disks, tidy, episodes);
    var before, devices := StoryReloads(fp, maxDevices, disks, tidy, episodes, [], staged, i);
    if i > 0 {
      HostLoadsCommittedMaps(fp, maxDevices, disks, tidy, episodes, staged, i - 1);
      assert devices == before || devices == staged[i - 1] by { MapsAreTheseTwo(Loaded(disks[i - 1]), episodes[i - 1], before, staged[i - 1]); }
      assert staged[..i] == staged[..i - 1] + [staged[i - 1]];
    }
  }

  lemma MapsAreTheseTwo(prior: Option<StoreImage>, e: Episode, before: Devices, staged: Devices)
    ensures forall devices | devices in MapsAfter(prior, e, before, staged) :: devices == before || devices == staged
  {}
}
