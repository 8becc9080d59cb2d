/**
 * The whole enrichment run of data_cleaning.py, in the script's order:
 * project the rides (8-16), clean the city counts (28-32), build the city
 * dictionary and broadcast it over every ride (36-52), merge with the
 * transaction table (62), build the customer dictionary and broadcast it
 * over the merged rows (72-93), split the location column (98-99).
 * Reading and writing the CSV files is not part of this model: the four
 * tables come in as sequences of rows and the master table goes out as one.
 */
module Pipeline {
  import opened Wrappers
  import opened Records
  import opened Numbers
  import opened Lookup
  import opened Join
  import opened Location

  /** The two ways the run aborts: a count that does not parse, a key not in its dictionary. */
  datatype Error =
    | ParseError(text: string)
    | MissingCity(city: string)
    | MissingCustomer(custID: int)

  function Populations(cities: seq<CityRecord>): seq<string> {
    seq(|cities|, i requires 0 <= i < |cities| => cities[i].population)
  }

  function Users(cities: seq<CityRecord>): seq<string> {
    seq(|cities|, i requires 0 <= i < |cities| => cities[i].users)
  }

  /**
   * Lines 28-31: the population column is cleaned in full, then the users
   * column; the first field that does not parse aborts the run. On success
   * the rows keep their cities and their order.
   */
  function CleanCities(cities: seq<CityRecord>): (r: Result<seq<CityStat>, Error>)
    ensures r.Failure? ==> r.error.ParseError?
    ensures r.Success? ==> (|r.value| == |cities|
      && forall i :: 0 <= i < |cities| ==> r.value[i].city == cities[i].city)
  {
    match ParseColumn(Populations(cities))
    case Failure(t) => Failure(ParseError(t))
    case Success(ps) =>
      match ParseColumn(Users(cities))
      case Failure(t) => Failure(ParseError(t))
      case Success(us) =>
        Success(seq(|cities|, i requires 0 <= i < |cities| => CityStat(cities[i].city, ps[i], us[i])))
  }

  /** A cleaned city row holds the counts its two fields parse to. */
  lemma CleanCitiesCounts(cities: seq<CityRecord>, i: nat)
    requires CleanCities(cities).Success? && i < |cities|
    ensures CleanNumber(cities[i].population) == Success(CleanCities(cities).value[i].population)
    ensures CleanNumber(cities[i].users) == Success(CleanCities(cities).value[i].users)
  {
    var ps := ParseColumn(Populations(cities));
    var us := ParseColumn(Users(cities));
    assert Populations(cities)[i] == cities[i].population;
    assert Users(cities)[i] == cities[i].users;
    assert CleanCities(cities).value[i] == CityStat(cities[i].city, ps.value[i], us.value[i]);
  }

  /** One population or users field that does not parse aborts the cleaning. */
  lemma CleanCitiesRejects(cities: seq<CityRecord>, i: nat)
    requires i < |cities|
    requires CleanNumber(cities[i].population).Failure? || CleanNumber(cities[i].users).Failure?
    ensures CleanCities(cities).Failure?
  {
    assert Populations(cities)[i] == cities[i].population;
    assert Users(cities)[i] == cities[i].users;
  }

  /** Row `i` holds the first population field that does not clean. */
  predicate FirstBadPopulation(cities: seq<CityRecord>, i: nat) {
    && i < |cities|
    && CleanNumber(cities[i].population).Failure?
    && forall j :: 0 <= j < i ==> CleanNumber(cities[j].population).Success?
  }

  /** Every population field cleans, and row `i` holds the first users field that does not. */
  predicate FirstBadUsers(cities: seq<CityRecord>, i: nat) {
    && i < |cities|
    && (forall j :: 0 <= j < |cities| ==> CleanNumber(cities[j].population).Success?)
    && CleanNumber(cities[i].users).Failure?
    && forall j :: 0 <= j < i ==> CleanNumber(cities[j].users).Success?
  }

  /**
   * The error a failed cleaning reports is that of the first population
   * field that does not clean (line 30); only when every population field
   * cleans, that of the first users field that does not (line 31).
   */
  lemma {:induction false} CleanCitiesFirstError(cities: seq<CityRecord>)
    requires CleanCities(cities).Failure?
    ensures exists i: nat ::
      || (FirstBadPopulation(cities, i)
          && CleanCities(cities).error == ParseError(CleanNumber(cities[i].population).error))
      || (FirstBadUsers(cities, i)
          && CleanCities(cities).error == ParseError(CleanNumber(cities[i].users).error))
  {
    if ParseColumn(Populations(cities)).Failure? {
      var i := PopulationFirstError(cities);
    } else {
      var i := UsersFirstError(cities);
    }
  }

  lemma PopulationFirstError(cities: seq<CityRecord>) returns (i: nat)
    requires ParseColumn(Populations(cities)).Failure?
    ensures FirstBadPopulation(cities, i)
    ensures CleanCities(cities).error == ParseError(CleanNumber(cities[i].population).error)
  {
    var pops := Populations(cities);
    var pr := ParseColumn(pops);
    assert CleanCities(cities).error == ParseError(pr.error);
    i :| 0 <= i < |pops| && CleanNumber(pops[i]) == Failure(pr.error)
      && forall j :: 0 <= j < i ==> CleanNumber(pops[j]).Success?;
    PopulationFirstBad(cities, i);
  }

  lemma PopulationFirstBad(cities: seq<CityRecord>, i: nat)
    requires i < |cities| && CleanNumber(Populations(cities)[i]).Failure?
    requires forall j :: 0 <= j < i ==> CleanNumber(Populations(cities)[j]).Success?
    ensures FirstBadPopulation(cities, i)
  {
    var pops := Populations(cities);
    assert forall j :: 0 <= j < |cities| ==> pops[j] == cities[j].population;
  }

  lemma UsersFirstError(cities: seq<CityRecord>) returns (i: nat)
    requires ParseColumn(Populations(cities)).Success?
    requires CleanCities(cities).Failure?
    ensures FirstBadUsers(cities, i)
    ensures CleanCities(cities).error == ParseError(CleanNumber(cities[i].users).error)
  {
    var users := Users(cities);
    var ur := ParseColumn(users);
    assert ur.Failure? && CleanCities(cities).error == ParseError(ur.error);
    i :| 0 <= i < |users| && CleanNumber(users[i]) == Failure(ur.error)
      && forall j :: 0 <= j < i ==> CleanNumber(users[j]).Success?;
    UsersFirstBad(cities, i);
  }

  lemma UsersFirstBad(cities: seq<CityRecord>, i: nat)
    requires ParseColumn(Populations(cities)).Success?
    requires i < |cities| && CleanNumber(Users(cities)[i]).Failure?
    requires forall j :: 0 <= j < i ==> CleanNumber(Users(cities)[j]).Success?
    ensures FirstBadUsers(cities, i)
  {
    var pops, users := Populations(cities), Users(cities);
    assert forall j :: 0 <= j < |cities| ==> users[j] == cities[j].users;
    assert forall j :: 0 <= j < |cities| ==> pops[j] == cities[j].population;
  }

  /** Every population and users field of the city table cleans. */
  predicate CountsClean(cities: seq<CityRecord>) {
    forall c :: 0 <= c < |cities| ==>
      CleanNumber(cities[c].population).Success? && CleanNumber(cities[c].users).Success?
  }

  /** The cleaning of the city table succeeds exactly when every count in it cleans. */
  lemma CleanCitiesSucceeds(cities: seq<CityRecord>)
    ensures CleanCities(cities).Success? <==> CountsClean(cities)
  {
    assert forall i :: 0 <= i < |cities| ==>
      Populations(cities)[i] == cities[i].population && Users(cities)[i] == cities[i].users;
  }

  /** The rows `pop_dict` is filled from: city -> [population, user_ratio] (line 40). */
  function CityEntries(stats: seq<CityStat>): seq<(string, CityAttrs)> {
    seq(|stats|, i requires 0 <= i < |stats| =>
      (stats[i].city, CityAttrs(stats[i].population, Ratio(stats[i].users, stats[i].population))))
  }

  /** The rows `cust_dict` is filled from: custID -> [gender, age, income] (line 80). */
  function CustomerEntries(customers: seq<Customer>): seq<(int, CustAttrs)> {
    seq(|customers|, i requires 0 <= i < |customers| =>
      (customers[i].custID, CustAttrs(customers[i].gender, customers[i].age, customers[i].income)))
  }

  /** `city_list`: the raw location value of every ride row (line 45). */
  function CityKeys(facts: seq<Fact>): seq<string> {
    seq(|facts|, i requires 0 <= i < |facts| => facts[i].city)
  }

  /** `cust_list`: the custID of every merged row (line 76). */
  function CustomerKeys(rows: seq<Joined>): seq<int> {
    seq(|rows|, i requires 0 <= i < |rows| => rows[i].custID)
  }

  /** Lines 51-52: the i-th ride row receives the i-th looked-up city value. */
  function Locate(facts: seq<Fact>, attrs: seq<CityAttrs>): seq<Located>
    requires |facts| == |attrs|
  {
    seq(|facts|, i requires 0 <= i < |facts| => Located(facts[i], attrs[i]))
  }

  /** One master row from its merged row, its customer's values and its split location. */
  function Finish(row: Joined, cust: CustAttrs): Enriched {
    var place := SplitLocation(row.fact.city);
    Enriched(row.fact.txnID, row.fact.company, place.city, row.fact.distance, row.fact.price,
             row.fact.cost, row.fact.profit, row.city.population, row.city.userRatio,
             row.custID, row.paymentMode, cust.gender, cust.age, cust.income, place.state)
  }

  /** Lines 91-93 and 98-99: the i-th merged row receives the i-th customer value, then its location is split. */
  function FinishAll(rows: seq<Joined>, attrs: seq<CustAttrs>): seq<Enriched>
    requires |rows| == |attrs|
  {
    seq(|rows|, i requires 0 <= i < |rows| => Finish(rows[i], attrs[i]))
  }

  /** The master row built directly from one ride, its `pop_dict` entry, its transaction row and its `cust_dict` entry. */
  function Assemble(ride: Ride, city: CityAttrs, link: Link, cust: CustAttrs): Enriched {
    var place := SplitLocation(ride.city);
    Enriched(ride.txnID, ride.company, place.city, ride.distance, ride.price, ride.cost,
             ride.price - ride.cost, city.population, city.userRatio, link.custID,
             link.paymentMode, cust.gender, cust.age, cust.income, place.state)
  }

  /** `pop_dict` once filled. */
  function CityTable(stats: seq<CityStat>): map<string, CityAttrs> {
    TableOf(CityEntries(stats))
  }

  /** `cust_dict` once filled. */
  function CustomerTable(customers: seq<Customer>): map<int, CustAttrs> {
    TableOf(CustomerEntries(customers))
  }

  /**
   * `pop_dict` maps a city to the population and users of its row, the last
   * row when the city repeats; it has an entry for exactly the listed cities.
   */
  lemma CityTableEntry(stats: seq<CityStat>, i: nat)
    requires i < |stats|
    requires forall j :: i < j < |stats| ==> stats[j].city != stats[i].city
    ensures stats[i].city in CityTable(stats)
    ensures CityTable(stats)[stats[i].city]
      == CityAttrs(stats[i].population, Ratio(stats[i].users, stats[i].population))
  {
    var rows := CityEntries(stats);
    assert forall j :: i < j < |stats| ==> rows[j].0 != rows[i].0;
    TableLastWins(rows, i);
  }

  /** `cust_dict` maps a customer to the gender, age and income of its last row. */
  lemma CustomerTableEntry(customers: seq<Customer>, i: nat)
    requires i < |customers|
    requires forall j :: i < j < |customers| ==> customers[j].custID != customers[i].custID
    ensures customers[i].custID in CustomerTable(customers)
    ensures CustomerTable(customers)[customers[i].custID]
      == CustAttrs(customers[i].gender, customers[i].age, customers[i].income)
  {
    var rows := CustomerEntries(customers);
    assert forall j :: i < j < |customers| ==> rows[j].0 != rows[i].0;
    TableLastWins(rows, i);
  }

  /** A city is a key of `pop_dict` exactly when some city row names it. */
  lemma CityTableKeys(stats: seq<CityStat>, city: string)
    ensures city in CityTable(stats) <==> exists i :: 0 <= i < |stats| && stats[i].city == city
  {
    var rows := CityEntries(stats);
    TableKeys(rows, city);
    assert forall i :: 0 <= i < |stats| ==> rows[i].0 == stats[i].city;
  }

  /** A custID is a key of `cust_dict` exactly when some customer row carries it. */
  lemma CustomerTableKeys(customers: seq<Customer>, id: int)
    ensures id in CustomerTable(customers) <==> exists m :: 0 <= m < |customers| && customers[m].custID == id
  {
    var rows := CustomerEntries(customers);
    TableKeys(rows, id);
    assert forall m :: 0 <= m < |customers| ==> rows[m].0 == customers[m].custID;
  }

  /** Every ride's raw location names some row of the city table. */
  predicate CitiesKnown(rides: seq<Ride>, cities: seq<CityRecord>) {
    forall i :: 0 <= i < |rides| ==> exists c :: 0 <= c < |cities| && cities[c].city == rides[i].city
  }

  /** Every transaction row that matches a ride names some row of the customer table. */
  predicate CustomersKnown(rides: seq<Ride>, links: seq<Link>, customers: seq<Customer>) {
    forall i, k :: 0 <= i < |rides| && 0 <= k < |links| && rides[i].txnID == links[k].txnID ==>
      exists m :: 0 <= m < |customers| && customers[m].custID == links[k].custID
  }

  /** The merged frame of line 62, or the error of a step before it. */
  function Merged(rides: seq<Ride>, cities: seq<CityRecord>, links: seq<Link>): Result<seq<Joined>, Error> {
    var facts := Project(rides);
    match CleanCities(cities)
    case Failure(e) => Failure(e)
    case Success(stats) =>
      match LookupAll(CityTable(stats), CityKeys(facts))
      case Failure(c) => Failure(MissingCity(c))
      case Success(cityAttrs) => Success(InnerJoin(Locate(facts, cityAttrs), links))
  }

  /** The city broadcast succeeds exactly when every ride's location names a city row. */
  lemma CityLookupSucceeds(rides: seq<Ride>, cities: seq<CityRecord>, stats: seq<CityStat>)
    requires CleanCities(cities) == Success(stats)
    ensures LookupAll(CityTable(stats), CityKeys(Project(rides))).Success? <==> CitiesKnown(rides, cities)
  {
    var keys := CityKeys(Project(rides));
    forall i | 0 <= i < |rides|
      ensures keys[i] == rides[i].city
      ensures rides[i].city in CityTable(stats) <==>
        exists c :: 0 <= c < |cities| && cities[c].city == rides[i].city
    {
      CityTableKeys(stats, rides[i].city);
    }
  }

  /** The merge is reached exactly when every count cleans and every ride's location is known. */
  lemma MergedSucceeds(rides: seq<Ride>, cities: seq<CityRecord>, links: seq<Link>)
    ensures Merged(rides, cities, links).Success? <==> CountsClean(cities) && CitiesKnown(rides, cities)
  {
    CleanCitiesSucceeds(cities);
    if CleanCities(cities).Success? {
      CityLookupSucceeds(rides, cities, CleanCities(cities).value);
    }
  }

  /** Each merged row comes from a ride and a transaction row with the same id. */
  lemma MergedRowSource(rides: seq<Ride>, cities: seq<CityRecord>, links: seq<Link>, j: nat)
    requires Merged(rides, cities, links).Success? && j < |Merged(rides, cities, links).value|
    ensures exists i, k :: (0 <= i < |rides| && 0 <= k < |links| && rides[i].txnID == links[k].txnID
      && Merged(rides, cities, links).value[j].fact == ProjectRide(rides[i])
      && Merged(rides, cities, links).value[j].custID == links[k].custID)
  {
    var table := CityTable(CleanCities(cities).value);
    var cityAttrs := LookupAll(table, CityKeys(Project(rides))).value;
    var located := Locate(Project(rides), cityAttrs);
    var joined := InnerJoin(located, links);
    assert Merged(rides, cities, links).value == joined;
    assert joined[j] in joined;
    var i, k :| 0 <= i < |located| && 0 <= k < |links|
      && located[i].fact.txnID == links[k].txnID && joined[j] == Merge(located[i], links[k]);
    LocateRow(rides, table, cityAttrs, i);
  }

  /** Each ride and transaction row with the same id has a merged row. */
  lemma MergedRowIn(rides: seq<Ride>, cities: seq<CityRecord>, links: seq<Link>, i: nat, k: nat)
    requires Merged(rides, cities, links).Success?
    requires i < |rides| && k < |links| && rides[i].txnID == links[k].txnID
    ensures exists j :: (0 <= j < |Merged(rides, cities, links).value|
      && Merged(rides, cities, links).value[j].fact == ProjectRide(rides[i])
      && Merged(rides, cities, links).value[j].custID == links[k].custID)
  {
    var table := CityTable(CleanCities(cities).value);
    var cityAttrs := LookupAll(table, CityKeys(Project(rides))).value;
    var located := Locate(Project(rides), cityAttrs);
    var joined := InnerJoin(located, links);
    assert Merged(rides, cities, links).value == joined;
    LocateRow(rides, table, cityAttrs, i);
    var x := Merge(located[i], links[k]);
    assert MergedPair(located, links, x);
    var j :| 0 <= j < |joined| && joined[j] == x;
  }

  /** After the merge, the customer broadcast succeeds exactly when every matched transaction's customer is known. */
  lemma CustomerLookupSucceeds(rides: seq<Ride>, cities: seq<CityRecord>, links: seq<Link>, customers: seq<Customer>)
    requires Merged(rides, cities, links).Success?
    ensures LookupAll(CustomerTable(customers), CustomerKeys(Merged(rides, cities, links).value)).Success?
      <==> CustomersKnown(rides, links, customers)
  {
    var joined := Merged(rides, cities, links).value;
    var keys := CustomerKeys(joined);
    var custs := CustomerTable(customers);
    if CustomersKnown(rides, links, customers) {
      forall j | 0 <= j < |keys| ensures keys[j] in custs {
        MergedRowSource(rides, cities, links, j);
        CustomerTableKeys(customers, joined[j].custID);
      }
    }
    if LookupAll(custs, keys).Success? {
      forall i, k | 0 <= i < |rides| && 0 <= k < |links| && rides[i].txnID == links[k].txnID
        ensures exists m :: 0 <= m < |customers| && customers[m].custID == links[k].custID
      {
        MergedRowIn(rides, cities, links, i, k);
        var j :| 0 <= j < |joined| && joined[j].custID == links[k].custID;
        assert keys[j] in custs;
        CustomerTableKeys(customers, links[k].custID);
      }
    }
  }

  /**
   * The run as a value: each step's result, in the script's order. It
   * succeeds exactly when every count cleans, every ride's location names a
   * city row, and every transaction row matching a ride names a customer row.
   */
  function Enrich(rides: seq<Ride>, cities: seq<CityRecord>, links: seq<Link>, customers: seq<Customer>)
    : (r: Result<seq<Enriched>, Error>)
    ensures r.Success? <==>
      CountsClean(cities) && CitiesKnown(rides, cities) && CustomersKnown(rides, links, customers)
  {
    MergedSucceeds(rides, cities, links);
    match Merged(rides, cities, links)
    case Failure(e) => Failure(e)
    case Success(joined) =>
      CustomerLookupSucceeds(rides, cities, links, customers);
      match LookupAll(CustomerTable(customers), CustomerKeys(joined))
      case Failure(c) => Failure(MissingCustomer(c))
      case Success(custAttrs) => Success(FinishAll(joined, custAttrs))
  }

  /**
   * The script, step by step: the frame is rebuilt after each step, the two
   * dictionaries are filled by loops and the broadcast lists are built by loops.
   */
  method Run(rides: seq<Ride>, cities: seq<CityRecord>, links: seq<Link>, customers: seq<Customer>)
    returns (r: Result<seq<Enriched>, Error>)
    ensures r == Enrich(rides, cities, links, customers)
  {
    var facts := Project(rides);
    var cleaned := CleanCities(cities);
    if cleaned.Failure? {
      return Failure(cleaned.error);
    }
    var popTable := BuildTable(CityEntries(cleaned.value));
    var cityLookup := Broadcast(popTable, CityKeys(facts));
    if cityLookup.Failure? {
      return Failure(MissingCity(cityLookup.error));
    }
    var located := Locate(facts, cityLookup.value);
    var joined := InnerJoin(located, links);
    var custTable := BuildTable(CustomerEntries(customers));
    var custLookup := Broadcast(custTable, CustomerKeys(joined));
    if custLookup.Failure? {
      return Failure(MissingCustomer(custLookup.error));
    }
    r := Success(FinishAll(joined, custLookup.value));
  }

  // ---------------------------------------------------------------------
  // What the order of the steps decides.

  /**
   * A count that does not parse aborts the run with a parse error, whatever
   * the ride, transaction and customer tables hold.
   */
  lemma EnrichRejectsBadCount(rides: seq<Ride>, cities: seq<CityRecord>, links: seq<Link>,
                              customers: seq<Customer>, i: nat)
    requires i < |cities|
    requires CleanNumber(cities[i].population).Failure? || CleanNumber(cities[i].users).Failure?
    ensures CleanCities(cities).Failure?
    ensures Enrich(rides, cities, links, customers) == Failure(CleanCities(cities).error)
    ensures Enrich(rides, cities, links, customers).error.ParseError?
  {
    CleanCitiesRejects(cities, i);
  }

  /**
   * The city lookup runs over every ride before the merge: the first ride
   * whose location is not a key of `pop_dict` aborts the run, even when no
   * transaction row matches that ride and the merge would have dropped it.
   */
  lemma CityLookupPrecedesJoin(rides: seq<Ride>, cities: seq<CityRecord>, links: seq<Link>,
                               customers: seq<Customer>, i: nat)
    requires CleanCities(cities).Success?
    requires i < |rides| && rides[i].city !in CityTable(CleanCities(cities).value)
    requires forall j :: 0 <= j < i ==> rides[j].city in CityTable(CleanCities(cities).value)
    ensures Enrich(rides, cities, links, customers) == Failure(MissingCity(rides[i].city))
  {
    var table := CityTable(CleanCities(cities).value);
    var keys := CityKeys(Project(rides));
    assert forall j :: 0 <= j < |rides| ==> keys[j] == rides[j].city;
    var r := LookupAll(table, keys);
    assert r.Failure?;
    var i' :| 0 <= i' < |keys| && keys[i'] == r.error && keys[i'] !in table
      && forall j :: 0 <= j < i' ==> keys[j] in table;
    assert i' == i;
  }

  /**
   * The customer broadcast walks the merged rows in order: the first one
   * whose custID is not a key of `cust_dict` aborts the run with that custID.
   */
  lemma EnrichRejectsMissingCustomer(rides: seq<Ride>, cities: seq<CityRecord>, links: seq<Link>,
                                     customers: seq<Customer>, j: nat)
    requires Merged(rides, cities, links).Success? && j < |Merged(rides, cities, links).value|
    requires Merged(rides, cities, links).value[j].custID !in CustomerTable(customers)
    requires forall j' :: 0 <= j' < j ==> Merged(rides, cities, links).value[j'].custID in CustomerTable(customers)
    ensures Enrich(rides, cities, links, customers)
      == Failure(MissingCustomer(Merged(rides, cities, links).value[j].custID))
  {
    var rows := Merged(rides, cities, links).value;
    var table := CustomerTable(customers);
    var keys := CustomerKeys(rows);
    var r := LookupAll(table, keys);
    assert keys[j] !in table;
    var j' :| 0 <= j' < |keys| && keys[j'] == r.error && keys[j'] !in table
      && forall m :: 0 <= m < j' ==> keys[m] in table;
    assert j' == j;
  }

  /**
   * The customer lookup runs only over merged rows: a transaction row that
   * matches no ride changes nothing, even when its customer is unknown.
   */
  lemma CustomerLookupAfterJoin(rides: seq<Ride>, cities: seq<CityRecord>, links: seq<Link>,
                                customers: seq<Customer>, orphan: Link)
    requires forall i :: 0 <= i < |rides| ==> rides[i].txnID != orphan.txnID
    ensures Enrich(rides, cities, links + [orphan], customers) == Enrich(rides, cities, links, customers)
  {
    var facts := Project(rides);
    if CleanCities(cities).Success? {
      var r := LookupAll(CityTable(CleanCities(cities).value), CityKeys(facts));
      if r.Success? {
        var located := Locate(facts, r.value);
        assert forall i :: 0 <= i < |located| ==> located[i].fact.txnID == rides[i].txnID;
        JoinIgnoresOrphanLink(located, links, orphan);
      }
    }
  }

  /** The i-th located row is the i-th ride, projected, with its city's `pop_dict` entry. */
  lemma LocateRow(rides: seq<Ride>, table: map<string, CityAttrs>, attrs: seq<CityAttrs>, i: nat)
    requires LookupAll(table, CityKeys(Project(rides))) == Success(attrs)
    requires i < |rides|
    ensures rides[i].city in table
    ensures Locate(Project(rides), attrs)[i] == Located(ProjectRide(rides[i]), table[rides[i].city])
  {
    assert CityKeys(Project(rides))[i] == rides[i].city;
  }

  /** The j-th master row is the j-th merged row finished with its customer's `cust_dict` entry. */
  lemma FinishRow(joined: seq<Joined>, custs: map<int, CustAttrs>, attrs: seq<CustAttrs>, j: nat)
    requires LookupAll(custs, CustomerKeys(joined)) == Success(attrs)
    requires j < |joined|
    ensures joined[j].custID in custs
    ensures FinishAll(joined, attrs)[j] == Finish(joined[j], custs[joined[j].custID])
  {
    assert CustomerKeys(joined)[j] == joined[j].custID;
  }

  /** Projecting, locating, merging and finishing one ride builds the row `Assemble` gives for it. */
  lemma FinishMerge(ride: Ride, city: CityAttrs, link: Link, cust: CustAttrs)
    ensures Finish(Merge(Located(ProjectRide(ride), city), link), cust) == Assemble(ride, city, link, cust)
  {
  }

  /**
   * Every master row is `Assemble` of one ride and one transaction row with
   * the same id: the ride's columns and profit = price - cost, the
   * `pop_dict` entry of the ride's raw location, the transaction's custID and
   * payment mode, the `cust_dict` entry of that custID, and the split location.
   */
  lemma EnrichRowsSound(rides: seq<Ride>, cities: seq<CityRecord>, links: seq<Link>,
                        customers: seq<Customer>, j: nat)
    requires Enrich(rides, cities, links, customers).Success?
    requires j < |Enrich(rides, cities, links, customers).value|
    ensures CleanCities(cities).Success?
    ensures exists i, k ::
      && 0 <= i < |rides| && 0 <= k < |links| && rides[i].txnID == links[k].txnID
      && rides[i].city in CityTable(CleanCities(cities).value)
      && links[k].custID in CustomerTable(customers)
      && Enrich(rides, cities, links, customers).value[j]
         == Assemble(rides[i], CityTable(CleanCities(cities).value)[rides[i].city],
                     links[k], CustomerTable(customers)[links[k].custID])
  {
    var table := CityTable(CleanCities(cities).value);
    var cityAttrs := LookupAll(table, CityKeys(Project(rides))).value;
    var located := Locate(Project(rides), cityAttrs);
    var joined := InnerJoin(located, links);
    var custs := CustomerTable(customers);
    var custAttrs := LookupAll(custs, CustomerKeys(joined)).value;
    var out := FinishAll(joined, custAttrs);
    assert Enrich(rides, cities, links, customers).value == out;
    FinishRow(joined, custs, custAttrs, j);
    assert joined[j] in joined;
    var i, k :| 0 <= i < |located| && 0 <= k < |links|
      && located[i].fact.txnID == links[k].txnID && joined[j] == Merge(located[i], links[k]);
    LocateRow(rides, table, cityAttrs, i);
    FinishMerge(rides[i], table[rides[i].city], links[k], custs[links[k].custID]);
  }

  /**
   * No matching pair is lost: for every ride and transaction row with the
   * same id, the master table holds their row.
   */
  lemma EnrichRowsComplete(rides: seq<Ride>, cities: seq<CityRecord>, links: seq<Link>,
                           customers: seq<Customer>, i: nat, k: nat)
    requires Enrich(rides, cities, links, customers).Success?
    requires i < |rides| && k < |links| && rides[i].txnID == links[k].txnID
    ensures CleanCities(cities).Success?
    ensures rides[i].city in CityTable(CleanCities(cities).value)
    ensures links[k].custID in CustomerTable(customers)
    ensures Assemble(rides[i], CityTable(CleanCities(cities).value)[rides[i].city],
                     links[k], CustomerTable(customers)[links[k].custID])
            in Enrich(rides, cities, links, customers).value
  {
    var table := CityTable(CleanCities(cities).value);
    var cityAttrs := LookupAll(table, CityKeys(Project(rides))).value;
    var located := Locate(Project(rides), cityAttrs);
    var joined := InnerJoin(located, links);
    var custs := CustomerTable(customers);
    var custAttrs := LookupAll(custs, CustomerKeys(joined)).value;
    var out := FinishAll(joined, custAttrs);
    assert Enrich(rides, cities, links, customers).value == out;
    LocateRow(rides, table, cityAttrs, i);
    var x := Merge(located[i], links[k]);
    assert MergedPair(located, links, x);
    var j :| 0 <= j < |joined| && joined[j] == x;
    FinishRow(joined, custs, custAttrs, j);
    FinishMerge(rides[i], table[rides[i].city], links[k], custs[links[k].custID]);
    assert out[j] in out;
  }

  /** The transaction id of a ride. */
  function RideId(r: Ride): int {
    r.txnID
  }

  lemma {:induction false} LinkedMatchesRides(located: seq<Located>, rides: seq<Ride>, ids: set<int>)
    requires |located| == |rides|
    requires forall i :: 0 <= i < |rides| ==> located[i].fact.txnID == rides[i].txnID
    ensures |Linked(located, LocatedId, ids)| == |Linked(rides, RideId, ids)|
    ensures forall j :: 0 <= j < |Linked(located, LocatedId, ids)| ==>
      Linked(located, LocatedId, ids)[j].fact.txnID == Linked(rides, RideId, ids)[j].txnID
  {
    if rides != [] {
      assert forall i :: 0 <= i < |rides[1..]| ==> located[1..][i].fact.txnID == rides[1..][i].txnID by {
        forall i | 0 <= i < |rides[1..]| ensures located[1..][i].fact.txnID == rides[1..][i].txnID {
          assert located[1..][i] == located[i + 1] && rides[1..][i] == rides[i + 1];
        }
      }
      LinkedMatchesRides(located[1..], rides[1..], ids);
    }
  }

  /**
   * With transaction ids unique in the transaction table, the master table
   * has one row per ride that has a transaction row, in ride order, and so
   * never more rows than there are rides.
   */
  lemma EnrichFollowsRideOrder(rides: seq<Ride>, cities: seq<CityRecord>, links: seq<Link>,
                               customers: seq<Customer>)
    requires Enrich(rides, cities, links, customers).Success?
    requires UniqueIds(links)
    ensures |Enrich(rides, cities, links, customers).value| == |Linked(rides, RideId, Ids(links))| <= |rides|
    ensures forall j :: 0 <= j < |Enrich(rides, cities, links, customers).value| ==>
      Enrich(rides, cities, links, customers).value[j].txnID == Linked(rides, RideId, Ids(links))[j].txnID
  {
    var table := CityTable(CleanCities(cities).value);
    var cityAttrs := LookupAll(table, CityKeys(Project(rides))).value;
    var located := Locate(Project(rides), cityAttrs);
    var joined := InnerJoin(located, links);
    var custAttrs := LookupAll(CustomerTable(customers), CustomerKeys(joined)).value;
    var out := FinishAll(joined, custAttrs);
    assert Enrich(rides, cities, links, customers).value == out;
    JoinKeepsRideOrder(located, links);
    LinkedMatchesRides(located, rides, Ids(links));
  }
}
