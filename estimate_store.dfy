/** The insert side of the estimate and sensor tables: `/store-estimate` of
    backend/routes/co2Routes.js, and `addEnergyEmission` and `addCO2Data` of
    backend/controllers/emissionsController.js.  Rows keep the JavaScript values
    the handlers bind; the database assigns auto-increment ids and supplies the
    creation time (`now`), and whether the database reports an error is a
    parameter (`dbFails`). */
module EstimateStore {
  import opened JsValues
  import Emissions

  /** A row of `co2_estimates` as it was bound by an INSERT. */
  datatype EstimateRow = EstimateRow(
    id: nat, energy: Value, energyUnit: Value, co2e: Value, co2eUnit: Value,
    activityType: Value, temperature: Value, userId: Value, createdAt: int)

  /** A row of `co2_data`. */
  datatype ReadingRow = ReadingRow(id: nat, timestamp: int, co2Level: Value, temperature: Value)

  /** `/store-estimate` answers 400, 500, or the new row's id. */
  datatype StoreResponse = MissingFields | InsertFailed | Saved(id: nat)

  /** The controller answers 201 with the new row, or 500 for any failure. */
  datatype CreatedResponse<T> = Created(row: T) | ServerError

  /** The dummy temperature of `/store-estimate`: `24 + Math.floor(Math.random() * 6)`,
      an integer from 24 to 29. */
  predicate DummyTemperature(v: Value)
  {
    v.Number? && v.n.Finite? && v.n.r == v.n.r.Floor as real && 24 <= v.n.r.Floor <= 29
  }

  class EstimateTable {
    var rows: seq<EstimateRow>
    var readings: seq<ReadingRow>
    var nextId: nat
    var nextReadingId: nat

    /** Auto-increment ids: increasing in insertion order and below the next id. */
    ghost predicate Valid()
      reads this
    {
      && (forall i, j :: 0 <= i < j < |rows| ==> rows[i].id < rows[j].id)
      && (forall i :: 0 <= i < |rows| ==> rows[i].id < nextId)
      && (forall i, j :: 0 <= i < j < |readings| ==> readings[i].id < readings[j].id)
      && (forall i :: 0 <= i < |readings| ==> readings[i].id < nextReadingId)
    }

    constructor()
      ensures Valid()
      ensures rows == [] && readings == []
    {
      rows := [];
      readings := [];
      nextId := 1;
      nextReadingId := 1;
    }

    /** `/store-estimate`: energy and co2e must be truthy (so 0 is rejected); the
        activity defaults to electricity and a dummy temperature is stored. */
    method StoreEstimate(energy: Value, energyUnit: Value, co2e: Value, co2eUnit: Value,
                         activity: Value, userId: Value, now: int, dbFails: bool)
      returns (r: StoreResponse)
      requires Valid()
      modifies this
      ensures Valid()
      ensures !Truthy(energy) || !Truthy(co2e) ==> r == MissingFields && unchanged(this)
      ensures Truthy(energy) && Truthy(co2e) && dbFails ==> r == InsertFailed && unchanged(this)
      ensures Truthy(energy) && Truthy(co2e) && !dbFails ==>
        && r == Saved(old(nextId))
        && |rows| == |old(rows)| + 1
        && rows == old(rows) + [EstimateRow(old(nextId), energy, energyUnit, co2e, co2eUnit,
                                            Or(activity, Str("electricity")), rows[|rows| - 1].temperature,
                                            userId, now)]
        && DummyTemperature(rows[|rows| - 1].temperature)
        && readings == old(readings)
    {
      if !Truthy(energy) || !Truthy(co2e) {
        return MissingFields;
      }
      var offset: int :| 0 <= offset < 6;
      var temperature := Number(Finite((24 + offset) as real));
      if dbFails {
        return InsertFailed;
      }
      var row := EstimateRow(nextId, energy, energyUnit, co2e, co2eUnit,
                             Or(activity, Str("electricity")), temperature, userId, now);
      rows := rows + [row];
      r := Saved(nextId);
      nextId := nextId + 1;
    }

    /** `addEnergyEmission`: reads the caller's id (a missing `req.user` throws and
        is answered 500), converts the energy by unit, inserts the row with unit
        'kg' and answers with the row read back by its new id.  The INSERT and
        the read-back are two queries: when only the read-back fails the
        answer is 500 but the row stays stored. */
    method AddEnergyEmission(user: Value, energy: Value, energyUnit: Value, activity: Value,
                             temperature: Value, parse: string -> Num, now: int,
                             insertFails: bool, readBackFails: bool)
      returns (r: CreatedResponse<EstimateRow>)
      requires Valid()
      modifies this
      ensures Valid()
      ensures !NotNullish(user) || insertFails ==> r == ServerError && unchanged(this)
      ensures NotNullish(user) && !insertFails ==>
        && rows == old(rows) + [EstimateRow(old(nextId), energy, energyUnit,
                                            Number(Times(ParseFloat(energy, parse), Emissions.UnitFactor(energyUnit))),
                                            Str("kg"), activity, temperature, Get(user, "id"), now)]
        && readings == old(readings)
        && r == if readBackFails then ServerError else Created(rows[|rows| - 1])
    {
      if !NotNullish(user) {
        return ServerError;
      }
      var userId := Get(user, "id");
      var co2e := Emissions.EnergyToCo2e(energy, energyUnit, parse);
      if insertFails {
        return ServerError;
      }
      var row := EstimateRow(nextId, energy, energyUnit, Number(co2e), Str("kg"), activity, temperature, userId, now);
      rows := rows + [row];
      nextId := nextId + 1;
      if readBackFails {
        return ServerError;
      }
      r := Created(row);
    }

    /** `addCO2Data`: appends a reading stamped with the database's `NOW()` and
        answers with the row read back by its new id; when only the read-back
        fails the answer is 500 but the reading stays stored. */
    method AddCO2Data(co2Level: Value, temperature: Value, now: int, insertFails: bool, readBackFails: bool)
      returns (r: CreatedResponse<ReadingRow>)
      requires Valid()
      modifies this
      ensures Valid()
      ensures insertFails ==> r == ServerError && unchanged(this)
      ensures !insertFails ==>
        && readings == old(readings) + [ReadingRow(old(nextReadingId), now, co2Level, temperature)]
        && rows == old(rows)
        && r == if readBackFails then ServerError else Created(readings[|readings| - 1])
    {
      if insertFails {
        return ServerError;
      }
      var row := ReadingRow(nextReadingId, now, co2Level, temperature);
      readings := readings + [row];
      nextReadingId := nextReadingId + 1;
      if readBackFails {
        return ServerError;
      }
      r := Created(row);
    }

    /** Ids stay unique: every stored row is found by its id alone. */
    lemma IdsUnique(i: nat, j: nat)
      requires Valid()
      requires i < |rows| && j < |rows| && rows[i].id == rows[j].id
      ensures i == j
    {
    }
  }
}
