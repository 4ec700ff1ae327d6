/**
 * The hospital seeder: the fixed hospital blueprints, the five Manchester
 * triage levels, the bed partition of one hospital across those levels
 * (the floor pass and the two reverse-order reconciliation walks, run in
 * place on an array) and the seeding run that writes hospitals and their
 * triage levels into a store.
 */
module Hospitals {
  import opened Allocation

  /** One Manchester triage level: its name, waiting-time range in seconds and share range of the beds. */
  datatype TriageLevelConfig = TriageLevelConfig(
    name: string,
    waitMinSeconds: int,
    waitMaxSeconds: int,
    shareMin: real,
    shareMax: real)

  /** A triage level of one hospital as it is handed to the store. */
  datatype TriageLevelSeed = TriageLevelSeed(name: string, waitingTimeSeconds: int, bedsCapacity: int)

  /** A hospital blueprint: name, location and total number of beds. */
  datatype HospitalSeed = HospitalSeed(name: string, latitude: real, longitude: real, bedCapacity: int)

  /** What a seeding run reports: hospitals written and triage levels written. */
  datatype HospitalSeedReport = HospitalSeedReport(hospitals: nat, triageLevels: nat)

  /** The five levels, from most to least urgent; the order decides who absorbs rounding. */
  const LevelConfig: seq<TriageLevelConfig> := [
    TriageLevelConfig("Emergência (Vermelho)", 0, 120, 0.02, 0.05),
    TriageLevelConfig("Muito Urgente (Laranja)", 5 * 60, 12 * 60, 0.05, 0.12),
    TriageLevelConfig("Urgente (Amarelo)", 45 * 60, 75 * 60, 0.20, 0.32),
    TriageLevelConfig("Pouco Urgente (Verde)", 90 * 60, 150 * 60, 0.20, 0.30),
    TriageLevelConfig("Não Urgente (Azul)", 180 * 60, 300 * 60, 0.20, 0.35)
  ]

  /** The eight Lisbon hospitals that every run writes. */
  const HospitalBlueprints: seq<HospitalSeed> := [
    HospitalSeed("Hospital Egas Moniz", 38.699920286486, -9.18819546474445, 420),
    HospitalSeed("Hospital São Francisco Xavier", 38.707161256896, -9.21788492844298, 360),
    HospitalSeed("Hospital São José", 38.7177291826238, -9.13744886489834, 510),
    HospitalSeed("Hospital Santa Marta", 38.7237874362237, -9.14485431710445, 280),
    HospitalSeed("Hospital Dona Estefânia", 38.7288310990263, -9.13891561875593, 330),
    HospitalSeed("Instituto Português Oncologia de Lisboa", 38.7397869315826, -9.161252182332, 400),
    HospitalSeed("Hospital Curry Cabral", 38.7413193138079, -9.15205064090183, 350),
    HospitalSeed("Hospital Santa Maria", 38.7480419586009, -9.16054501791882, 520)
  ]

  // ---------------------------------------------------------------------
  // Bed partition, step by step on the allocation array

  /** The floor pass: every level whose provisional share is zero or less is set to one bed. */
  method FloorAtOne(a: array<int>)
    modifies a
    ensures a[..] == Floored(old(a[..]))
  {
    for i := 0 to a.Length
      invariant forall k :: 0 <= k < i ==> a[k] == Floored(old(a[..]))[k]
      invariant forall k :: i <= k < a.Length ==> a[k] == old(a[k])
    {
      if a[i] <= 0 {
        a[i] := 1;
      }
    }
  }

  /**
   * One reverse pass of the increment walk: add a bed to each level from the
   * last towards the first, stopping as soon as the count reaches `totalBeds`.
   * It raises the last `totalBeds - assignedBeds` levels, or all of them.
   */
  method RaisePass(a: array<int>, totalBeds: int, assignedBeds: int, ghost t: seq<int>) returns (assignedAfter: int)
    requires a[..] == t && a.Length >= 1 && assignedBeds == Sum(t) < totalBeds
    modifies a
    ensures a[..] == IncrementPass(t, totalBeds) && assignedAfter == Sum(a[..])
  {
    ghost var raised := 0;
    assignedAfter := assignedBeds;
    var idx := a.Length;
    while idx > 0 && assignedAfter != totalBeds
      invariant 0 <= idx <= a.Length
      invariant raised == a.Length - idx && raised <= totalBeds - assignedBeds
      invariant a[..] == RaiseLast(t, raised)
      invariant assignedAfter == assignedBeds + raised
    {
      idx := idx - 1;
      a[idx] := a[idx] + 1;
      assignedAfter := assignedAfter + 1;
      raised := raised + 1;
      assert a[..] == RaiseLast(t, raised);
    }
    SumRaiseLast(t, raised);
  }

  /**
   * The increment walk: while beds are missing, run reverse passes that add
   * one bed per level (wrapping around to the last level after the first).
   */
  method AddMissingBeds(a: array<int>, totalBeds: int, assignedBeds: int) returns (assignedAfter: int)
    requires a.Length >= 1 && AllPositive(a[..]) && assignedBeds == Sum(a[..])
    modifies a
    ensures assignedAfter == Sum(a[..]) && AllPositive(a[..])
    ensures assignedAfter == if assignedBeds < totalBeds then totalBeds else assignedBeds
    ensures a[..] == RaisedTo(old(a[..]), totalBeds)
  {
    assignedAfter := assignedBeds;
    ghost var cur := a[..];
    while assignedAfter < totalBeds
      invariant a[..] == cur && |cur| >= 1
      invariant assignedAfter == Sum(cur) && AllPositive(cur)
      invariant assignedBeds < totalBeds ==> assignedAfter <= totalBeds
      invariant assignedBeds >= totalBeds ==> assignedAfter == assignedBeds
      invariant RaisedTo(cur, totalBeds) == RaisedTo(old(a[..]), totalBeds)
      decreases totalBeds - assignedAfter
    {
      assignedAfter := RaisePass(a, totalBeds, assignedAfter, cur);
      cur := a[..];
    }
  }

  /**
   * One reverse pass of the decrement walk: take a bed from each level that
   * holds more than one, from the last towards the first, stopping as soon
   * as the count reaches `totalBeds`. It lowers the last
   * `assignedBeds - totalBeds` lowerable levels, or all of them.
   */
  method LowerPass(a: array<int>, totalBeds: int, assignedBeds: int, ghost t: seq<int>) returns (assignedAfter: int)
    requires a[..] == t && AllPositive(t) && totalBeds >= |t| && assignedBeds == Sum(t) > totalBeds
    modifies a
    ensures a[..] == DecrementPass(t, totalBeds) && assignedAfter == Sum(a[..])
  {
    ghost var lowered := 0;
    assignedAfter := assignedBeds;
    var idx := a.Length;
    assert t[a.Length..] == [];
    while idx > 0 && assignedAfter != totalBeds
      invariant 0 <= idx <= a.Length
      invariant lowered == Above(t[idx..]) && lowered <= assignedBeds - totalBeds
      invariant forall k :: 0 <= k < idx ==> a[k] == t[k]
      invariant forall k :: idx <= k < a.Length ==> a[k] == LowerOne(t[k])
      invariant assignedAfter == assignedBeds - lowered
    {
      idx := idx - 1;
      AboveFrom(t, idx);
      if a[idx] > 1 {
        a[idx] := a[idx] - 1;
        assignedAfter := assignedAfter - 1;
        lowered := lowered + 1;
      }
    }
    PassFromLowered(t, a[..], idx, lowered);
    if idx == 0 {
      assert t[0..] == t;
    }
    DecrementPassLowers(t, totalBeds, lowered);
  }

  /**
   * The decrement walk: while beds are in excess, run reverse passes that
   * take one bed from each level above one (wrapping around).
   */
  method RemoveExcessBeds(a: array<int>, totalBeds: int, assignedBeds: int) returns (assignedAfter: int)
    requires totalBeds >= a.Length && AllPositive(a[..]) && assignedBeds == Sum(a[..])
    modifies a
    ensures assignedAfter == Sum(a[..]) && AllPositive(a[..])
    ensures assignedAfter == if assignedBeds > totalBeds then totalBeds else assignedBeds
    ensures a[..] == LoweredTo(old(a[..]), totalBeds)
  {
    assignedAfter := assignedBeds;
    ghost var cur := a[..];
    while assignedAfter > totalBeds
      invariant a[..] == cur
      invariant assignedAfter == Sum(cur) && AllPositive(cur)
      invariant assignedBeds > totalBeds ==> assignedAfter >= totalBeds
      invariant assignedBeds <= totalBeds ==> assignedAfter == assignedBeds
      invariant LoweredTo(cur, totalBeds) == LoweredTo(old(a[..]), totalBeds)
      decreases assignedAfter - totalBeds
    {
      assignedAfter := LowerPass(a, totalBeds, assignedAfter, cur);
      cur := a[..];
    }
  }

  /**
   * Reconciliation of the floored allocation with the hospital's capacity:
   * the running total, then the increment walk, then the decrement walk.
   * The seeder relies on `totalBeds >= a.Length`: below that the decrement
   * walk never ends (see Allocation.InfeasibleBelowLevelCount).
   */
  method Reconcile(a: array<int>, totalBeds: int)
    requires a.Length >= 1 && totalBeds >= a.Length && AllPositive(a[..])
    modifies a
    ensures a[..] == Reconciled(old(a[..]), totalBeds)
  {
    var assignedBeds := Sum(a[..]);
    assignedBeds := AddMissingBeds(a, totalBeds, assignedBeds);
    assignedBeds := RemoveExcessBeds(a, totalBeds, assignedBeds);
  }

  // ---------------------------------------------------------------------
  // Building the triage levels of one hospital

  /** Waiting times drawn for the five levels, each inside its level's range. */
  predicate WaitsDrawn(waits: seq<int>)
  {
    |waits| == |LevelConfig| &&
    forall i :: 0 <= i < |waits| ==>
      LevelConfig[i].waitMinSeconds <= waits[i] <= LevelConfig[i].waitMaxSeconds
  }

  /** Pairs each level configuration with its beds and its drawn waiting time, in configuration order. */
  function LevelSeeds(beds: seq<int>, waits: seq<int>): (r: seq<TriageLevelSeed>)
    requires |beds| == |LevelConfig| && |waits| == |LevelConfig|
    ensures |r| == |LevelConfig|
    ensures forall i :: 0 <= i < |r| ==>
      r[i] == TriageLevelSeed(LevelConfig[i].name, waits[i], beds[i])
  {
    seq(|LevelConfig|, i requires 0 <= i < |LevelConfig| =>
      TriageLevelSeed(LevelConfig[i].name, waits[i], beds[i]))
  }

  /** The bed column of a list of triage levels. */
  function Beds(levels: seq<TriageLevelSeed>): (r: seq<int>)
    ensures |r| == |levels| && forall i :: 0 <= i < |levels| ==> r[i] == levels[i].bedsCapacity
  {
    seq(|levels|, i requires 0 <= i < |levels| => levels[i].bedsCapacity)
  }

  /**
   * The five triage levels of a hospital with `totalBeds` beds. The sampled
   * shares and their rounding are not modelled: `provisional` is the rounded
   * provisional allocation, whatever it is. Waiting times are drawn from
   * each level's range.
   */
  method BuildManchesterLevels(totalBeds: int, provisional: seq<int>) returns (levels: seq<TriageLevelSeed>)
    requires |provisional| == |LevelConfig| && totalBeds >= |LevelConfig|
    ensures |levels| == |LevelConfig|
    ensures Beds(levels) == Reconciled(Floored(provisional), totalBeds)
    ensures Sum(Beds(levels)) == totalBeds && AllPositive(Beds(levels))
    ensures forall i :: 0 <= i < |levels| ==>
      levels[i].name == LevelConfig[i].name &&
      LevelConfig[i].waitMinSeconds <= levels[i].waitingTimeSeconds <= LevelConfig[i].waitMaxSeconds
  {
    var allocations := new int[|provisional|](i requires 0 <= i < |provisional| => provisional[i]);
    assert allocations[..] == provisional;
    FloorAtOne(allocations);
    Reconcile(allocations, totalBeds);
    var beds := allocations[..];
    assert WaitsDrawn(seq(|LevelConfig|, i requires 0 <= i < |LevelConfig| => LevelConfig[i].waitMinSeconds));
    var waits :| WaitsDrawn(waits);
    assert WaitsDrawn(waits);
    levels := LevelSeeds(beds, waits);
    assert Beds(levels) == beds;
  }

  /**
   * The five triage levels of a hospital with `totalBeds` beds, whatever
   * the sampled shares are: the provisional allocation is any allocation
   * with one entry per level.
   */
  method DrawManchesterLevels(totalBeds: int) returns (levels: seq<TriageLevelSeed>)
    requires totalBeds >= |LevelConfig|
    ensures |levels| == |LevelConfig|
    ensures Sum(Beds(levels)) == totalBeds && AllPositive(Beds(levels))
    ensures forall i :: 0 <= i < |levels| ==>
      levels[i].name == LevelConfig[i].name &&
      LevelConfig[i].waitMinSeconds <= levels[i].waitingTimeSeconds <= LevelConfig[i].waitMaxSeconds
  {
    assert |[0, 0, 0, 0, 0]| == |LevelConfig|;
    var provisional: seq<int> :| |provisional| == |LevelConfig|;
    levels := BuildManchesterLevels(totalBeds, provisional);
  }

  // ---------------------------------------------------------------------
  // The seeding run against an in-memory store

  /** A stored hospital row. */
  datatype HospitalRow = HospitalRow(id: int, locationName: string, latitude: real, longitude: real, bedCapacity: int)

  /** A stored triage-level row, owned by the hospital with id `hospitalId`. */
  datatype LevelRow = LevelRow(hospitalId: int, triageLevel: string, waitingTimeSeconds: int, bedsCapacity: int)

  /** The two tables the seeder writes, with the id the next inserted hospital receives. */
  class HospitalStore {
    var hospitals: seq<HospitalRow>
    var levels: seq<LevelRow>
    var nextId: int

    constructor ()
      ensures hospitals == [] && levels == []
    {
      hospitals, levels, nextId := [], [], 1;
    }

    method DeleteAllLevels()
      modifies this
      ensures levels == [] && hospitals == old(hospitals) && nextId == old(nextId)
    {
      levels := [];
    }

    method DeleteAllHospitals()
      modifies this
      ensures hospitals == [] && levels == old(levels) && nextId == old(nextId)
    {
      hospitals := [];
    }

    /** Inserts a hospital under a fresh id and returns the stored row. */
    method InsertHospital(seed: HospitalSeed) returns (row: HospitalRow)
      modifies this
      ensures row == HospitalRow(old(nextId), seed.name, seed.latitude, seed.longitude, seed.bedCapacity)
      ensures hospitals == old(hospitals) + [row] && levels == old(levels) && nextId == old(nextId) + 1
    {
      row := HospitalRow(nextId, seed.name, seed.latitude, seed.longitude, seed.bedCapacity);
      hospitals := hospitals + [row];
      nextId := nextId + 1;
    }

    method InsertLevel(row: LevelRow)
      modifies this
      ensures levels == old(levels) + [row] && hospitals == old(hospitals) && nextId == old(nextId)
    {
      levels := levels + [row];
    }
  }

  /** The row stored for one triage level of the hospital with id `hospitalId`. */
  function LevelRowOf(hospitalId: int, level: TriageLevelSeed): LevelRow
  {
    LevelRow(hospitalId, level.name, level.waitingTimeSeconds, level.bedsCapacity)
  }

  /**
   * The five rows stored for a hospital: one per level in configuration
   * order, owned by that hospital, with drawn waiting times in range and
   * at least one bed each, all beds adding up to the hospital's capacity.
   */
  ghost predicate LevelsOf(h: HospitalRow, rows: seq<LevelRow>)
  {
    |rows| == |LevelConfig| &&
    (forall i :: 0 <= i < |rows| ==>
      rows[i].hospitalId == h.id &&
      rows[i].triageLevel == LevelConfig[i].name &&
      LevelConfig[i].waitMinSeconds <= rows[i].waitingTimeSeconds <= LevelConfig[i].waitMaxSeconds &&
      rows[i].bedsCapacity >= 1) &&
    exists levels :: rows == LevelRows(h.id, levels) && Sum(Beds(levels)) == h.bedCapacity
  }

  /** The rows stored for the levels of the hospital with id `hospitalId`, one per level, in order. */
  function LevelRows(hospitalId: int, levels: seq<TriageLevelSeed>): (r: seq<LevelRow>)
    ensures |r| == |levels| && forall i :: 0 <= i < |levels| ==> r[i] == LevelRowOf(hospitalId, levels[i])
  {
    seq(|levels|, i requires 0 <= i < |levels| => LevelRowOf(hospitalId, levels[i]))
  }

  /** Storing levels built for a hospital's capacity gives that hospital's five level rows. */
  lemma StoredLevels(h: HospitalRow, levels: seq<TriageLevelSeed>)
    requires |levels| == |LevelConfig| && Sum(Beds(levels)) == h.bedCapacity && AllPositive(Beds(levels))
    requires forall i :: 0 <= i < |levels| ==>
      levels[i].name == LevelConfig[i].name &&
      LevelConfig[i].waitMinSeconds <= levels[i].waitingTimeSeconds <= LevelConfig[i].waitMaxSeconds
    ensures LevelsOf(h, LevelRows(h.id, levels))
  {
  }

  /** Every blueprint has at least one bed per triage level, so every hospital can be partitioned. */
  lemma BlueprintsHoldEveryLevel()
    ensures |HospitalBlueprints| == 8
    ensures forall k :: 0 <= k < |HospitalBlueprints| ==> HospitalBlueprints[k].bedCapacity >= |LevelConfig|
  {
  }

  /** Appending to a store keeps the five-row groups already in it. */
  lemma {:induction false} GroupsKept(prev: seq<LevelRow>, cur: seq<LevelRow>, k: nat)
    requires |prev| == 5 * k && |cur| >= |prev| && cur[..|prev|] == prev
    ensures forall j :: 0 <= j < k ==> cur[5 * j .. 5 * j + 5] == prev[5 * j .. 5 * j + 5]
  {
    forall j | 0 <= j < k
      ensures cur[5 * j .. 5 * j + 5] == prev[5 * j .. 5 * j + 5]
    {
      assert cur[5 * j .. 5 * j + 5] == cur[..|prev|][5 * j .. 5 * j + 5];
    }
  }

  /**
   * One iteration of the seeding loop: insert the hospital of `blueprint`
   * under the store's next id, build its five triage levels and insert one
   * row per level, in order, counting the rows written.
   */
  method SeedHospital(db: HospitalStore, blueprint: HospitalSeed) returns (inserted: HospitalRow, levelCount: nat)
    requires blueprint.bedCapacity >= |LevelConfig|
    modifies db
    ensures inserted == HospitalRow(old(db.nextId), blueprint.name, blueprint.latitude, blueprint.longitude, blueprint.bedCapacity)
    ensures db.hospitals == old(db.hospitals) + [inserted] && db.nextId == old(db.nextId) + 1
    ensures levelCount == |LevelConfig| && |db.levels| == |old(db.levels)| + levelCount
    ensures db.levels[..|old(db.levels)|] == old(db.levels)
    ensures LevelsOf(inserted, db.levels[|old(db.levels)|..])
  {
    inserted := db.InsertHospital(blueprint);
    var triage := DrawManchesterLevels(blueprint.bedCapacity);
    ghost var before := db.levels;
    levelCount := 0;
    for i := 0 to |triage|
      invariant db.hospitals == old(db.hospitals) + [inserted] && db.nextId == old(db.nextId) + 1
      invariant |db.levels| == |before| + i && db.levels[..|before|] == before && levelCount == i
      invariant forall m :: 0 <= m < i ==> db.levels[|before| + m] == LevelRowOf(inserted.id, triage[m])
    {
      db.InsertLevel(LevelRowOf(inserted.id, triage[i]));
      levelCount := levelCount + 1;
    }
    StoredLevels(inserted, triage);
    assert db.levels[|before|..] == LevelRows(inserted.id, triage);
  }

  /**
   * The seeding loop over `blueprints`: clear both tables, then for each
   * blueprint insert the hospital and its five triage levels, counting the
   * level rows. Afterwards the store holds exactly one hospital per
   * blueprint, in blueprint order, each followed by its five level rows; the
   * report counts both.
   */
  method SeedBlueprints(db: HospitalStore, blueprints: seq<HospitalSeed>) returns (report: HospitalSeedReport)
    requires forall k :: 0 <= k < |blueprints| ==> blueprints[k].bedCapacity >= |LevelConfig|
    modifies db
    ensures report.hospitals == |blueprints| == |db.hospitals|
    ensures report.triageLevels == |db.levels| == 5 * |blueprints|
    ensures forall k :: 0 <= k < |db.hospitals| ==>
      db.hospitals[k] == HospitalRow(old(db.nextId) + k, blueprints[k].name,
        blueprints[k].latitude, blueprints[k].longitude, blueprints[k].bedCapacity) &&
      LevelsOf(db.hospitals[k], db.levels[5 * k .. 5 * k + 5])
  {
    db.DeleteAllLevels();
    db.DeleteAllHospitals();
    var triageTotal := 0;
    for k := 0 to |blueprints|
      invariant |db.hospitals| == k && |db.levels| == 5 * k && triageTotal == 5 * k
      invariant db.nextId == old(db.nextId) + k
      invariant forall j :: 0 <= j < k ==>
        db.hospitals[j] == HospitalRow(old(db.nextId) + j, blueprints[j].name,
          blueprints[j].latitude, blueprints[j].longitude, blueprints[j].bedCapacity) &&
        LevelsOf(db.hospitals[j], db.levels[5 * j .. 5 * j + 5])
    {
      ghost var prevHospitals, prevLevels := db.hospitals, db.levels;
      var inserted, levelCount := SeedHospital(db, blueprints[k]);
      triageTotal := triageTotal + levelCount;
      GroupsKept(prevLevels, db.levels, k);
      assert db.levels[5 * k .. 5 * k + 5] == db.levels[|prevLevels|..];
      assert forall j :: 0 <= j < k ==> db.hospitals[j] == prevHospitals[j];
    }
    report := HospitalSeedReport(|blueprints|, triageTotal);
  }

  /**
   * One seeding run over the eight Lisbon hospitals: it writes eight
   * hospitals and forty triage levels.
   */
  method SeedHospitals(db: HospitalStore) returns (report: HospitalSeedReport)
    modifies db
    ensures report == HospitalSeedReport(8, 40)
    ensures |db.hospitals| == |HospitalBlueprints| && |db.levels| == 40
    ensures forall k :: 0 <= k < |db.hospitals| ==>
      db.hospitals[k] == HospitalRow(old(db.nextId) + k, HospitalBlueprints[k].name,
        HospitalBlueprints[k].latitude, HospitalBlueprints[k].longitude, HospitalBlueprints[k].bedCapacity) &&
      LevelsOf(db.hospitals[k], db.levels[5 * k .. 5 * k + 5])
  {
    BlueprintsHoldEveryLevel();
    report := SeedBlueprints(db, HospitalBlueprints);
  }
}
