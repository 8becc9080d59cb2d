# Cab data cleaning, modelled in Dafny

`data_cleaning.py` builds one "master" table of cab rides from four CSV
tables. The tables are rides (`Cab_Data.csv`), cities (`City.csv`),
transactions (`Transaction_ID.csv`) and customers (`Customer_ID.csv`).
The script works in these steps, and the model keeps their order:

1. **Project the rides.** It renames the ride columns, adds
   `profit = price - cost`, keeps every column but `travel_date`, and indexes
   the frame by `txnID` (module `Records`).
2. **Clean the city counts.** It deletes every `,` from the `population`
   and `users` strings, strips whitespace, and parses what is left
   (modules `Text` and `Numbers`).
3. **Build the city dictionary.** It fills `pop_dict` from the city rows
   with a loop; a repeated city keeps its last row. It then broadcasts the
   dictionary over every ride row in ride order. A ride whose location is
   not a key raises `KeyError` (module `Lookup`).
4. **Merge with the transactions.** It does an inner merge with the
   transaction table on `txnID` (module `Join`).
5. **Broadcast the customers.** It fills `cust_dict` from the customer rows
   in the same way and broadcasts it over the merged rows only.
6. **Split the location.** It splits the location column into a city and a
   two-letter state. The raw values `SILICON VALLEY` and `ORANGE COUNTY`
   get the state `LA` (module `Location`).

`Pipeline.Enrich` is the whole run as one value. `Pipeline.Run` is the
run as the script performs it: the dictionaries are filled by loops
(`Lookup.BuildTable`) and the broadcast lists are built by loops
(`Lookup.Broadcast`). A run ends in either the master table or the first
error the script would raise: a count that does not parse, a missing
city, or a missing customer (`Pipeline.Error`). `Wrappers.Collect` is
the shared "all succeed, or the first failure" combinator behind both
column parsing and key lookup.

Only the exact raw values `SILICON VALLEY` and `ORANGE COUNTY` are
special-cased (data_cleaning.py:98). `SILICON VALLEYCA` takes the general
path and gets the state `CA` (`Location.SplitSiliconValleyCA`).

## Model

| member | source | states |
|---|---|---|
| Records.Project | data_cleaning.py:8-16 | One projected row per ride, in order. Each row's profit is its price minus its cost. The row keeps every column of its ride except travel_date (restoring the date gives the ride back). |
| Records.ProjectIgnoresTravelDate | data_cleaning.py:15-16 | Two rides that differ only in travel_date project to the same row. |
| Text.Strip | data_cleaning.py:30-31 | `strip()` returns a contiguous piece of its input. Neither end of the result is whitespace. Everything removed before and after it is whitespace. |
| Text.StripPadded | data_cleaning.py:30-31 | Stripping whitespace-padded text that already has non-space ends gives back exactly that text. |
| Text.StripWitness | data_cleaning.py:30-31 | Every text is its stripped form with only whitespace before and after it. |
| Text.StripIdempotent | data_cleaning.py:30-31 | Stripping twice equals stripping once. |
| Text.RemoveAll | data_cleaning.py:28-29 | `replace(',', '')` leaves no comma. It never lengthens its input. A string without commas comes back unchanged. |
| Text.RemoveAllConcat | data_cleaning.py:28-29 | Deleting commas from a concatenation deletes them from each part. |
| Numbers.ParseNat | data_cleaning.py:30-31 | Parsing succeeds exactly on a non-empty all-digit string, with the decimal value of those digits. On failure the error carries the offending text. |
| Numbers.CleanNumber | data_cleaning.py:28-31 | One field's cleaning. A rejected field reports its cleaned text: the field with its commas deleted, less only whitespace at either end. That text has no comma and no whitespace at either end. |
| Numbers.CleanNumberAccepts | data_cleaning.py:28-31 | A field cleans to `n` exactly when, once its commas are deleted, it is whitespace, then a non-empty digit string denoting `n`, then whitespace. |
| Numbers.CleanGrouped | data_cleaning.py:28-31 | Round trip: a count written with thousands separators, padded with any whitespace, cleans back to the same count. |
| Numbers.CleanExample | data_cleaning.py:28-31 | `"1,234,567 "` cleans to 1234567. |
| Numbers.CleanRejectsInnerSpace | data_cleaning.py:28-31 | Whitespace after a comma, between two digit groups, survives the comma deletion and the strip, so the field fails to parse. |
| Numbers.ParseColumn | data_cleaning.py:28-31 | A column parses exactly when every field cleans. On success the values are elementwise the cleaned fields. On failure the error comes from the first field that does not clean. |
| Wrappers.Collect | data_cleaning.py:30-31 | Succeeds exactly when every element succeeds, with the values in order. Otherwise it returns the first failure. |
| Pipeline.CleanCities | data_cleaning.py:28-31 | Failure is always a parse error. On success there is one row per city row, keeping its city and its order. |
| Pipeline.CleanCitiesCounts | data_cleaning.py:28-31 | Each cleaned city row holds exactly the counts its population and users fields clean to. |
| Pipeline.CleanCitiesSucceeds | data_cleaning.py:28-31 | The cleaning of the city table succeeds exactly when every population and users field cleans. |
| Pipeline.CleanCitiesFirstError | data_cleaning.py:28-31 | A failed cleaning reports the parse error of the first population field that does not clean. Only when every population field cleans does it report the first users field that does not. |
| Pipeline.CleanCitiesRejects | data_cleaning.py:28-31 | One population or users field that does not clean makes the cleaning fail. |
| Lookup.BuildTable | data_cleaning.py:38-40 | The dictionary-filling loop leaves exactly the table obtained by assigning every row in order. |
| Lookup.TableKeys | data_cleaning.py:39-40 | The dictionary has a key exactly when some row carries it. |
| Lookup.TableLastWins | data_cleaning.py:39-40 | When a key repeats, the dictionary holds the value of its last row. |
| Lookup.LookupAll | data_cleaning.py:47-49 | Succeeds exactly when every key is in the table. On success there is one value per key, in key order, each the table's entry. On failure the error is the first missing key. |
| Lookup.Broadcast | data_cleaning.py:86-89 | The append loop returns exactly what `LookupAll` describes: every entry in order, or the first missing key. |
| Pipeline.CityTableEntry | data_cleaning.py:38-40 | `pop_dict` maps a city to the population and users ratio of the last row naming it. |
| Pipeline.CityTableKeys | data_cleaning.py:38-40 | A city is a key of `pop_dict` exactly when some city row names it. |
| Pipeline.CustomerTableKeys | data_cleaning.py:78-80 | A custID is a key of `cust_dict` exactly when some customer row carries it. |
| Pipeline.CustomerTableEntry | data_cleaning.py:78-80 | `cust_dict` maps a custID to the gender, age and income of the last row with that custID. |
| Join.InnerJoin | data_cleaning.py:62 | A row is in the merge exactly when it merges some ride row with some transaction row of the same txnID. |
| Join.JoinKeepsRideOrder | data_cleaning.py:62 | With unique transaction ids, the merge is the ride rows that have a transaction row, in ride order, each keeping its columns. It is never longer than the ride frame. |
| Join.JoinIgnoresOrphanLink | data_cleaning.py:62 | A transaction row whose id matches no ride leaves the merge unchanged. |
| Location.LastTwo | data_cleaning.py:98 | `s[-2:]`: a suffix of length two, or all of s when s is shorter. |
| Location.DropLastTwo | data_cleaning.py:99 | `s[:-2]`: the prefix that `s[-2:]` completes back to `s`. |
| Location.SplitLocation | data_cleaning.py:98-99 | A raw value equal to one of the two literals keeps its text as the city, with state LA. Any other value: the state is the last two characters of the stripped value, and the city is the stripped rest. The city never has whitespace at either end. |
| Location.SplitFormatted | data_cleaning.py:98-99 | Round trip: a city name, optional whitespace and a two-character state, padded with any whitespace, split back into that name and that state. The exception is a value equal to one of the literals. |
| Location.SplitNewYork | data_cleaning.py:98-99 | `NEW YORK NY` splits into `NEW YORK` and `NY`. |
| Location.SplitSiliconValleyCA | data_cleaning.py:98-99 | `SILICON VALLEYCA` splits into `SILICON VALLEY` and `CA`. |
| Location.SplitPaddedLiteral | data_cleaning.py:98-99 | The literal test sees the raw value. So `SILICON VALLEY ` takes the general path and becomes `SILICON VALL` / `EY`. |
| Pipeline.CityLookupSucceeds | data_cleaning.py:45-49 | Once the counts are clean, the city broadcast succeeds exactly when every ride's raw location names some city row. |
| Pipeline.MergedSucceeds | data_cleaning.py:28-62 | The merge is reached exactly when every count cleans and every ride's location names some city row. |
| Pipeline.MergedRowSource | data_cleaning.py:62 | Each merged row carries the projected columns of some ride and the custID of a transaction row with that ride's id. |
| Pipeline.MergedRowIn | data_cleaning.py:62 | Each ride and transaction row with the same id has a merged row carrying the ride's columns and the transaction's custID. |
| Pipeline.CustomerLookupSucceeds | data_cleaning.py:76-89 | After the merge, the customer broadcast succeeds exactly when every transaction row matching a ride names some customer row. |
| Pipeline.Enrich | data_cleaning.py:7-99 | The whole run succeeds exactly when three things hold: every count cleans, every ride's raw location names a city row, and every transaction row matching a ride names a customer row. Otherwise it fails. Which error it fails with is stated by `EnrichRejectsBadCount`, `CityLookupPrecedesJoin` and `EnrichRejectsMissingCustomer`. |
| Pipeline.Run | data_cleaning.py:7-99 | The script's steps, with the dictionary and broadcast loops run as loops, produce exactly `Enrich`: the master table or the first error. |
| Pipeline.EnrichRejectsBadCount | data_cleaning.py:28-31 | A population or users field that does not clean aborts the run with the cleaning's parse error, whatever the other tables hold. That error is the first bad field's (`CleanCitiesFirstError`). |
| Pipeline.CityLookupPrecedesJoin | data_cleaning.py:45-62 | The city broadcast runs over every ride before the merge. The first ride whose location is not in `pop_dict` aborts the run with that location. This holds whatever the transactions are, even for a ride the merge would drop. |
| Pipeline.EnrichRejectsMissingCustomer | data_cleaning.py:76-89 | The first merged row whose custID is not a key of `cust_dict` aborts the run with that custID. |
| Pipeline.CustomerLookupAfterJoin | data_cleaning.py:62-89 | The customer broadcast runs only on merged rows. Adding a transaction row that matches no ride changes nothing, even when its customer is unknown. |
| Pipeline.EnrichRowsSound | data_cleaning.py:45-99 | Every master row is built from one ride and one transaction row with the same txnID. It carries the ride's columns with profit, the `pop_dict` entry of the ride's raw location, the transaction's custID and payment mode, that customer's `cust_dict` entry, and the split location. |
| Pipeline.EnrichRowsComplete | data_cleaning.py:45-99 | Every pair of a ride and a transaction row with the same txnID has its master row in the output. |
| Pipeline.EnrichFollowsRideOrder | data_cleaning.py:62 | With unique transaction ids, the master table has one row per ride that has a transaction row, in ride order. It never has more rows than there are rides. |

## Left out

- Reading the four CSV files, `pd.set_option`, the final `print` and `to_csv` (lines 4, 7, 19, 55, 65, 102-103): this is I/O. The tables enter as sequences of rows and the master table leaves as one.
- Numbers.ParseNat: reads only non-empty ASCII digit strings as whole numbers. A field `float()` also accepts is a parse error here: a sign, a decimal point, an exponent, `inf`/`nan`, `_` separators, or non-ASCII digits. Floating-point rounding of the parsed counts is not modelled.
- Records.Project: price, cost, distance and profit are exact reals, so the floating-point rounding of `price - cost` is not modelled.
- Pipeline.CityEntries: `user_ratio` is the exact pair (users, population) rather than the float quotient, so the `inf`/`nan` the script produces for a population of 0 is not computed.
- The placeholder zero columns (lines 43-44, 73-75), `.copy()` (lines 42, 72) and `apply(lambda x: list)` (lines 51-52, 91-93): each only places a list built by the loops into a column. The model places the list directly, row by row (`Pipeline.Locate`, `Pipeline.FinishAll`).
- pandas dtype inference and the row index that `pd.merge` produces are not modelled. The merged table's index is its txnID column.
- Join.InnerJoin: when transaction ids repeat, the model fixes the order (ride order, then transaction-table order within one ride) but states only membership, not multiplicity. Exact row counts are proved for unique ids (`Join.JoinKeepsRideOrder`).
- Pipeline.CleanCities: its own contract states only the error kind and the row shape. When it succeeds, the per-row counts, and its rejection of a bad field, are stated by `Pipeline.CleanCitiesSucceeds`, `Pipeline.CleanCitiesCounts`, `Pipeline.CleanCitiesFirstError` and `Pipeline.CleanCitiesRejects`.
- No data-frame object: each column overwrite of `final_df` is a reassignment of a local value in `Pipeline.Run`, so aliasing between frames is not modelled.
- Python's `str.isspace` is written out by code point (`Text.IsSpace`). No Unicode database is consulted.
