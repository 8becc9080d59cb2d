/**
 * The rows of the four input tables, the rows the script builds from them,
 * and the projection of a cab ride onto the analysed columns
 * (data_cleaning.py:8-16). Column renaming by position is modelled by the
 * order of each constructor's fields.
 */
module Records {

  /** One row of the ride table: txnID, travel_date, company, city, travel_distance, price, cost. */
  datatype Ride = Ride(txnID: int, travelDate: string, company: string, city: string,
                       distance: real, price: real, cost: real)

  /** One row of the ride frame after projection, indexed by its transaction id. */
  datatype Fact = Fact(txnID: int, company: string, city: string,
                       distance: real, price: real, cost: real, profit: real)

  /** One row of the city table as read: city, population, users (both comma-grouped text). */
  datatype CityRecord = CityRecord(city: string, population: string, users: string)

  /** A city row once its two counts are parsed. */
  datatype CityStat = CityStat(city: string, population: nat, users: nat)

  /**
   * user_ratio = users / population, kept as the exact pair of counts; with
   * a population of zero it stands for the non-finite quotient the script
   * lets through.
   */
  datatype Ratio = Ratio(users: nat, population: nat)

  /** The value `pop_dict` holds per city: [population, user_ratio]. */
  datatype CityAttrs = CityAttrs(population: nat, userRatio: Ratio)

  /** One row of the transaction table: txnID, custID, mode_payment. */
  datatype Link = Link(txnID: int, custID: int, paymentMode: string)

  /** One row of the customer table: custID, gender, age, income_per_month_dollars. */
  datatype Customer = Customer(custID: int, gender: string, age: int, income: real)

  /** The value `cust_dict` holds per customer: [gender, age, income]. */
  datatype CustAttrs = CustAttrs(gender: string, age: int, income: real)

  /** A ride row carrying its city's population and user_ratio. */
  datatype Located = Located(fact: Fact, city: CityAttrs)

  /** A located ride merged with its transaction row. */
  datatype Joined = Joined(fact: Fact, city: CityAttrs, custID: int, paymentMode: string)

  /** One row of the master table, columns in the order they are written out. */
  datatype Enriched = Enriched(
    txnID: int, company: string, city: string, distance: real, price: real, cost: real,
    profit: real, population: nat, userRatio: Ratio, custID: int, paymentMode: string,
    gender: string, age: int, income: real, state: string)

  /** The projection of one ride: every column but travel_date, plus profit. */
  function ProjectRide(r: Ride): Fact {
    Fact(r.txnID, r.company, r.city, r.distance, r.price, r.cost, r.price - r.cost)
  }

  /** The ride a projected row came from, given back the travel date it dropped. */
  function Restore(f: Fact, travelDate: string): Ride {
    Ride(f.txnID, travelDate, f.company, f.city, f.distance, f.price, f.cost)
  }

  /**
   * The projected ride frame: one row per ride, in order. Each row's profit
   * is its price minus its cost, and the row loses nothing of its ride but
   * the travel date.
   */
  function Project(rides: seq<Ride>): (facts: seq<Fact>)
    ensures |facts| == |rides|
    ensures forall i :: 0 <= i < |rides| ==>
      facts[i].profit == facts[i].price - facts[i].cost
      && Restore(facts[i], rides[i].travelDate) == rides[i]
  {
    seq(|rides|, i requires 0 <= i < |rides| => ProjectRide(rides[i]))
  }

  /** travel_date does not reach the projected frame: rides that differ only there project alike. */
  lemma ProjectIgnoresTravelDate(r1: Ride, r2: Ride)
    requires r1.(travelDate := r2.travelDate) == r2
    ensures ProjectRide(r1) == ProjectRide(r2)
  {
  }
}
