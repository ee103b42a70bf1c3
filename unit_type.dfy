/**
 * The bot's `UnitType`: a wrapper around an SC2 unit type id, with the
 * switch-table classifiers the rest of the bot relies on.  Type ids are the
 * integer values of the SC2 API's `UNIT_TYPEID` enumeration.
 */
module UnitTypes {

  type TypeId = int

  const INVALID: TypeId := 0

  const TERRAN_COMMANDCENTER: TypeId := 18
  const TERRAN_SUPPLYDEPOT: TypeId := 19
  const TERRAN_REFINERY: TypeId := 20
  const TERRAN_MISSILETURRET: TypeId := 23
  const TERRAN_COMMANDCENTERFLYING: TypeId := 36
  const TERRAN_SCV: TypeId := 45
  const TERRAN_BARRACKSFLYING: TypeId := 46
  const TERRAN_SUPPLYDEPOTLOWERED: TypeId := 47
  const TERRAN_RAVEN: TypeId := 56
  const TERRAN_PLANETARYFORTRESS: TypeId := 130
  const TERRAN_ORBITALCOMMAND: TypeId := 132
  const TERRAN_ORBITALCOMMANDFLYING: TypeId := 134
  const TERRAN_MULE: TypeId := 268
  const TERRAN_KD8CHARGE: TypeId := 830
  const TERRAN_REFINERYRICH: TypeId := 1943

  const PROTOSS_NEXUS: TypeId := 59
  const PROTOSS_PYLON: TypeId := 60
  const PROTOSS_ASSIMILATOR: TypeId := 61
  const PROTOSS_PHOTONCANNON: TypeId := 66
  const PROTOSS_OBSERVER: TypeId := 82
  const PROTOSS_PROBE: TypeId := 84
  const PROTOSS_DISRUPTORPHASED: TypeId := 733
  const PROTOSS_ADEPTPHASESHIFT: TypeId := 801
  const PROTOSS_SHIELDBATTERY: TypeId := 1910
  const PROTOSS_OBSERVERSIEGEMODE: TypeId := 1911
  const PROTOSS_ASSIMILATORRICH: TypeId := 1955

  const ZERG_HATCHERY: TypeId := 86
  const ZERG_EXTRACTOR: TypeId := 88
  const ZERG_SPORECRAWLER: TypeId := 99
  const ZERG_LAIR: TypeId := 100
  const ZERG_HIVE: TypeId := 101
  const ZERG_GREATERSPIRE: TypeId := 102
  const ZERG_EGG: TypeId := 103
  const ZERG_DRONE: TypeId := 104
  const ZERG_OVERLORD: TypeId := 106
  const ZERG_DRONEBURROWED: TypeId := 116
  const ZERG_OVERSEER: TypeId := 129
  const ZERG_NYDUSCANAL: TypeId := 142
  const ZERG_LARVA: TypeId := 151
  const ZERG_EXTRACTORRICH: TypeId := 1956

  /** `sc2::Race`. */
  datatype Race = Terran | Zerg | Protoss | Random

  /** The types whose classifier answers true, written out as sets. */
  const ResourceDepotTypes: set<TypeId> :=
    {ZERG_HATCHERY, ZERG_LAIR, ZERG_HIVE, TERRAN_COMMANDCENTER, TERRAN_COMMANDCENTERFLYING,
     TERRAN_ORBITALCOMMAND, TERRAN_ORBITALCOMMANDFLYING, TERRAN_PLANETARYFORTRESS, PROTOSS_NEXUS}
  const RefineryTypes: set<TypeId> :=
    {TERRAN_REFINERY, TERRAN_REFINERYRICH, PROTOSS_ASSIMILATOR, PROTOSS_ASSIMILATORRICH,
     ZERG_EXTRACTOR, ZERG_EXTRACTORRICH}
  const UntargetableTypes: set<TypeId> :=
    {PROTOSS_ADEPTPHASESHIFT, TERRAN_KD8CHARGE, PROTOSS_DISRUPTORPHASED}
  const DetectorTypes: set<TypeId> :=
    {PROTOSS_OBSERVER, PROTOSS_OBSERVERSIEGEMODE, ZERG_OVERSEER, TERRAN_MISSILETURRET,
     ZERG_SPORECRAWLER, PROTOSS_PHOTONCANNON, TERRAN_RAVEN}
  const WorkerTypes: set<TypeId> :=
    {TERRAN_SCV, TERRAN_MULE, PROTOSS_PROBE, ZERG_DRONE, ZERG_DRONEBURROWED}
  const FixedSupplyProviderTypes: set<TypeId> :=
    {TERRAN_SUPPLYDEPOT, TERRAN_SUPPLYDEPOTLOWERED, PROTOSS_PYLON, ZERG_OVERLORD, ZERG_OVERSEER}
  const MorphedBuildingTypes: set<TypeId> :=
    {ZERG_LAIR, ZERG_HIVE, ZERG_GREATERSPIRE, TERRAN_PLANETARYFORTRESS, TERRAN_ORBITALCOMMAND}

  /** Static `UnitType::isRefinery(type)`. */
  function IsRefineryId(t: TypeId): (r: bool)
    ensures r <==> t in RefineryTypes
  {
    t == TERRAN_REFINERY || t == TERRAN_REFINERYRICH
    || t == PROTOSS_ASSIMILATOR || t == PROTOSS_ASSIMILATORRICH
    || t == ZERG_EXTRACTOR || t == ZERG_EXTRACTORRICH
  }

  /** Static `UnitType::getEnemyRefineryType(race)`. */
  function EnemyRefineryType(race: Race): (t: TypeId)
    ensures race == Terran ==> t == TERRAN_REFINERY
    ensures race == Protoss ==> t == PROTOSS_ASSIMILATOR
    ensures race == Zerg ==> t == ZERG_EXTRACTOR
    ensures race != Random ==> IsRefineryId(t)
    ensures race == Random <==> t == INVALID
  {
    match race
    case Terran => TERRAN_REFINERY
    case Protoss => PROTOSS_ASSIMILATOR
    case Zerg => ZERG_EXTRACTOR
    case Random => INVALID
  }

  /** Static `UnitType::isTargetable(type)`. */
  function IsTargetableId(t: TypeId): (r: bool)
    ensures !r <==> t in UntargetableTypes
  {
    !(t == PROTOSS_ADEPTPHASESHIFT || t == TERRAN_KD8CHARGE || t == PROTOSS_DISRUPTORPHASED)
  }

  /** Static `UnitType::isDetector(type)`. */
  function IsDetectorId(t: TypeId): (r: bool)
    ensures r <==> t in DetectorTypes
  {
    t == PROTOSS_OBSERVER || t == PROTOSS_OBSERVERSIEGEMODE || t == ZERG_OVERSEER
    || t == TERRAN_MISSILETURRET || t == ZERG_SPORECRAWLER || t == PROTOSS_PHOTONCANNON
    || t == TERRAN_RAVEN
  }

  /**
   * `UnitType`: the type id it wraps (`m_type`).  The bot pointer it also
   * carries only serves the data-driven members, which are parameters here.
   */
  datatype UnitType = UnitType(id: TypeId)
  {
    /** `isValid`: every type but the one wrapping the invalid id 0. */
    function IsValid(): (r: bool)
      ensures !r <==> this == UnitType(INVALID)
    {
      id != INVALID
    }

    /** `operator<`, comparing the wrapped ids: never between equal types. */
    function Less(rhs: UnitType): (r: bool)
      ensures r ==> this != rhs
      ensures !r <==> rhs.id <= id
    {
      id < rhs.id
    }

    /** `operator==`, comparing the wrapped ids: exactly equality of the types. */
    function Equal(rhs: UnitType): (r: bool)
      ensures r <==> this == rhs
    {
      id == rhs.id
    }

    function IsResourceDepot(): (r: bool)
      ensures r <==> id in ResourceDepotTypes
    {
      id == ZERG_HATCHERY || id == ZERG_LAIR || id == ZERG_HIVE
      || id == TERRAN_COMMANDCENTER || id == TERRAN_COMMANDCENTERFLYING
      || id == TERRAN_ORBITALCOMMAND || id == TERRAN_ORBITALCOMMANDFLYING
      || id == TERRAN_PLANETARYFORTRESS || id == PROTOSS_NEXUS
    }

    /** The member `isRefinery()`, which asks the static classifier. */
    function IsRefinery(): (r: bool)
      ensures r <==> id in RefineryTypes
    {
      IsRefineryId(id)
    }

    /** The member `isDetector()`, which asks the static classifier. */
    function IsDetector(): (r: bool)
      ensures r <==> id in DetectorTypes
    {
      IsDetectorId(id)
    }

    function IsWorker(): (r: bool)
      ensures r <==> id in WorkerTypes
    {
      id == TERRAN_SCV || id == TERRAN_MULE || id == PROTOSS_PROBE
      || id == ZERG_DRONE || id == ZERG_DRONEBURROWED
    }

    /** `isEgg`: the Zerg egg, which is neither a worker nor a depot. */
    function IsEgg(): (r: bool)
      ensures r <==> this == UnitType(ZERG_EGG)
      ensures r ==> !IsWorker() && !IsResourceDepot()
    {
      id == ZERG_EGG
    }

    /** `isLarva`: the Zerg larva, which is neither a worker nor an egg. */
    function IsLarva(): (r: bool)
      ensures r <==> this == UnitType(ZERG_LARVA)
      ensures r ==> !IsWorker() && !IsEgg()
    {
      id == ZERG_LARVA
    }

    function IsMorphedBuilding(): (r: bool)
      ensures r <==> id in MorphedBuildingTypes
    {
      id == ZERG_LAIR || id == ZERG_HIVE || id == ZERG_GREATERSPIRE
      || id == TERRAN_PLANETARYFORTRESS || id == TERRAN_ORBITALCOMMAND
    }

    /**
     * `isCombatUnit`.  What the game data says (is it a building, does it
     * attack) and whether the starting strategy is the cyclone proxy are
     * given as arguments.
     */
    function IsCombatUnit(isBuilding: bool, isAttackingBuilding: bool, proxyCyclones: bool): (r: bool)
      ensures IsWorker() || IsEgg() || IsLarva() ==> !r
      ensures !IsWorker() && !IsEgg() && !IsLarva() && !isBuilding ==> r
      ensures !IsWorker() && !IsEgg() && !IsLarva() && isBuilding ==>
                (r <==> isAttackingBuilding || id == PROTOSS_SHIELDBATTERY || id == ZERG_NYDUSCANAL
                        || (id == TERRAN_BARRACKSFLYING && proxyCyclones))
    {
      if IsWorker() then false
      else if IsEgg() || IsLarva() then false
      else if isBuilding then
        if id == TERRAN_BARRACKSFLYING && proxyCyclones then true
        else if id == PROTOSS_SHIELDBATTERY || id == ZERG_NYDUSCANAL then true
        else isAttackingBuilding
      else true
    }

    /** `isSupplyProvider`; the type's supply figure from the game data is an argument. */
    function IsSupplyProvider(supplyProvided: int): (r: bool)
      ensures id in FixedSupplyProviderTypes ==> r
      ensures r <==> (supplyProvided < 0 && !IsResourceDepot()) || id in FixedSupplyProviderTypes
    {
      var isProvider := supplyProvided < 0 && !IsResourceDepot();
      if !isProvider then
        id == TERRAN_SUPPLYDEPOT || id == TERRAN_SUPPLYDEPOTLOWERED || id == PROTOSS_PYLON
        || id == ZERG_OVERLORD || id == ZERG_OVERSEER
      else
        true
    }
  }

  /** The default constructor `UnitType()`, which wraps id 0. */
  function DefaultUnitType(): (t: UnitType)
    ensures !t.IsValid()
  {
    UnitType(INVALID)
  }

  lemma ClassifierSizes()
    ensures |ResourceDepotTypes| == 9
    ensures |RefineryTypes| == 6
    ensures |UntargetableTypes| == 3
    ensures |DetectorTypes| == 7
  {
  }

  /** `<` on unit types is a strict total order whose incomparable pairs are exactly the `==` pairs. */
  lemma LessIsStrictOrder(a: UnitType, b: UnitType, c: UnitType)
    ensures !a.Less(a)
    ensures a.Less(b) && b.Less(c) ==> a.Less(c)
    ensures a.Less(b) ==> !b.Less(a)
    ensures !a.Less(b) && !b.Less(a) <==> a.Equal(b)
    ensures a.Equal(b) <==> a == b
  {
  }

  /** No resource depot is one of the fixed supply provider types, nor a worker. */
  lemma DepotsAreNotFixedSupplyProviders(t: UnitType)
    ensures t.IsResourceDepot() ==> t.id !in FixedSupplyProviderTypes
    ensures t.IsResourceDepot() ==> !t.IsWorker()
  {
  }
}
