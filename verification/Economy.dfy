/** Stockpiles, and the catalogues of unit and building kinds. */
module Economy {
  import opened Clock

  datatype Resources = Resources(manpower: real, food: real, iron: real) {
    function Plus(o: Resources): Resources {
      Resources(manpower + o.manpower, food + o.food, iron + o.iron)
    }

    function Minus(c: Resources): Resources {
      Resources(manpower - c.manpower, food - c.food, iron - c.iron)
    }

    predicate CanPay(c: Resources) {
      manpower >= c.manpower && food >= c.food && iron >= c.iron
    }

    function Halved(): Resources {
      Resources(manpower / 2.0, food / 2.0, iron / 2.0)
    }

    predicate NonNegative() {
      manpower >= 0.0 && food >= 0.0 && iron >= 0.0
    }
  }

  const NOTHING: Resources := Resources(0.0, 0.0, 0.0)
  const STARTING_RESOURCES: Resources := Resources(30.0, 50.0, 20.0)
  const PROVINCE_REVENUE: Resources := Resources(4.0, 5.0, 1.0)

  const MACRO_PULSE_INTERVAL: int := 60 * MINUTE
  const CLEANUP_DELAY: int := 5 * MINUTE

  datatype Kind = Kind(id: string, cost: Resources, buildTime: int, speed: real, startingHP: real,
      needsBuilding: string)

  datatype BuildingKind = BuildingKind(id: string, cost: Resources, buildTime: int, production: Resources)

  datatype Lookup<T> = Unknown | Known(value: T)

  /** unitdom.ByID. */
  function UnitKind(id: string): (k: Lookup<Kind>)
    ensures k.Known? ==> k.value.id == id && k.value.cost.NonNegative() && k.value.speed > 0.0
    ensures k.Known? ==> MILLISECOND <= k.value.buildTime
  {
    if id == "infantry" then
      Known(Kind(id, Resources(5.0, 3.0, 0.0), 5 * MINUTE, 50.0 / 3600.0, 100.0, ""))
    else if id == "cavalry" then
      Known(Kind(id, Resources(8.0, 5.0, 3.0), 10 * MINUTE, 100.0 / 3600.0, 80.0, ""))
    else if id == "armor" then
      Known(Kind(id, Resources(12.0, 5.0, 8.0), 20 * MINUTE, 80.0 / 3600.0, 140.0, "factory"))
    else Unknown
  }

  /** buildingdom.ByID. */
  function BuildingKindOf(id: string): (k: Lookup<BuildingKind>)
    ensures k.Known? ==> k.value.id == id && k.value.cost.NonNegative() && MILLISECOND <= k.value.buildTime
    ensures k.Known? ==> k.value.production.NonNegative()
  {
    if id == "factory" then
      Known(BuildingKind(id, Resources(10.0, 0.0, 20.0), 30 * MINUTE, Resources(2.0, 0.0, 4.0)))
    else Unknown
  }
}
