# KaijuLOGIX reference-data import, modelled in Dafny

KaijuLOGIX keeps its maintenance data in SQLite. What binds the data together is a small
reference hierarchy. An *Abteilung* (department) has *Anlagen* (plants or units), and each
Anlage has *Anlagenteile* (parts). The hierarchy is read from a configuration workbook:

- each sheet is an Abteilung;
- the cells of row 1 are its Anlagen;
- every non-empty cell of a later row is an Anlagenteil of the Anlage in the same column.

A second routine, `dynamic_populate`, copies the data rows of a spreadsheet into any table by
matching header names against the table's columns. The demo seeder links a factory to its
departments, plants and plant parts through name-to-id dictionaries. It then generates a
year of incidents from a weighted part list and a weekly shift plan.

This project states those routines in Dafny and proves what they promise.

- **The reference store** (`RefStore`) follows the schema.
  - Every key is an AUTOINCREMENT primary key.
  - Only `abteilungen.name` is UNIQUE. So `INSERT OR IGNORE` deduplicates Abteilungen and is
    a plain insert for Anlagen and Anlagenteile.
  - A `SELECT ... fetchone()` over several matching Anlagen may return any of them. A choice
    function (`Chooser`) stands for that, and every result holds for every choice.
  - `Tables` is the value-level state; class `Store` is the connection whose statements
    update it in place.
- **The hierarchy import, in two variants.**
  - `AlignedImport` models RUN.py. The Anlage id list keeps one entry per column of row 1.
  - `CompactImport` models data_import.py and initrefdata.py, whose code is identical. Row 1
    is first reduced to its truthy cells, and later rows index that compacted list.
  - Each variant has a specification on values (`Units`, `Links`, `ApplySheet`,
    `ApplyBook`) and imperative loops over `Store`, proved equal to it.
  - `AlignedProperties` proves RUN.py's guarantees.
  - `CompactProperties` states which cells the compacted variant inserts, and under which
    Anlage, for every sheet.
  - `Comparison` proves that the two variants agree when row 1 has no gap. It also exhibits
    the sheet on which they disagree.
- **The bulk load.**
  - `Reconcile` holds the pure part: header normalisation, common columns, the header
    index and the argument tuples.
  - `BulkLoad` holds the two row loops over a transactional `Table`. RUN.py isolates a
    failing row. popdata.py and data_import.py abort at the first failing row and never
    commit.
- **The demo seeder.**
  - `DemoSeed` holds `import_config_data`.
  - `DemoIncidents` holds the deterministic parts of `generate_incidents`. The random
    draws are inputs. The functions `ShiftBlock`, `DayRows` and `YearRows` spell out the
    rows one shift, one day and the whole year insert. The loop methods are proved to
    insert exactly those rows.
- `PyText` and `Workbook` hold the Python string operations and spreadsheet values these rely
  on.

## Model

| member | source | states |
|---|---|---|
| PyText.StripLeftSpec | RUN.py:174 | `lstrip` leaves the suffix starting at the first non-whitespace character and drops only whitespace |
| PyText.StripRightSpec | RUN.py:174 | `rstrip` leaves the prefix ending at the last non-whitespace character and drops only whitespace |
| PyText.StripEmptyIff | RUN.py:174-175 | a stripped name is empty exactly when the name is all whitespace |
| PyText.ContainsIff | demo.py:301 | Python's substring test holds exactly when the substring occurs at some position |
| PyText.IntToDecimal | RUN.py:195-196 | `str(n)` of a number never starts or ends with whitespace, and starts with '-' exactly for negatives |
| Workbook.NumNameNotBlank | RUN.py:195 | a numeric cell never has a blank stripped name |
| Workbook.TruthyBlankIff | data_import.py:45 | a truthy cell has a blank name exactly when it is a non-empty whitespace-only string |
| Workbook.EmptyNameIsNone | popdata.py:15 | an empty cell renders as the string "None", which strips to itself and is not blank |
| RefStore.Choose | RUN.py:200-202 | the id a SELECT over several matching Anlagen returns is one of the matching ids |
| RefStore.Tables.SelectAbteilungId | RUN.py:180-185 | an Abteilung id is found exactly when the name is present, and it is the id of a row with that name |
| RefStore.Tables.SelectAnlageId | RUN.py:200-202 | an Anlage id is found exactly when some row of that Abteilung has that name, and it is such a row's id |
| RefStore.FirstAbteilungId | RUN.py:180-181 | the first-row lookup finds a row exactly when one carries the name |
| RefStore.MatchingAnlagenSpec | RUN.py:200-201 | the matching ids are non-empty exactly when a row matches, and each belongs to a matching row |
| RefStore.InsertOrIgnoreAbteilungValid | RUN.py:91-96 | get-or-create of an Abteilung keeps keys in range and distinct, names unique and foreign keys resolved, adds the name, and keeps every existing row |
| RefStore.InsertOrIgnoreAbteilungNames | RUN.py:178 | get-or-create adds the name to the department names and nothing else |
| RefStore.InsertAnlageValid | RUN.py:97-106 | an Anlage under an existing Abteilung keeps the schema guarantees and loses no Anlage id |
| RefStore.InsertAnlagenteilValid | RUN.py:107-116 | an Anlagenteil under an existing Anlage keeps the schema guarantees |
| RefStore.FreshValid | createtables.py:89-114 | the empty database meets the schema guarantees |
| RefStore.Store.InsertOrIgnoreAbteilung | RUN.py:178 | the statement updates the tables as get-or-create on the UNIQUE name |
| RefStore.Store.InsertAnlage | RUN.py:197-198 | the statement appends one Anlage with the next key |
| RefStore.Store.SelectAbteilungId | RUN.py:180-181 | the statement returns what the lookup on the current tables finds and changes nothing |
| RefStore.Store.SelectAnlageId | RUN.py:200-202 | the statement returns what the lookup on the current tables finds for the given choice and changes nothing |
| RefStore.Store.InsertAnlagenteil | RUN.py:217-218 | the statement appends one Anlagenteil with the next key |
| Hierarchy.DepartmentName | RUN.py:167-177 | a sheet yields an Abteilung exactly when its raw name is not on the skip list and is not all whitespace; the Abteilung is the stripped name |
| Hierarchy.ApplyLinksRows | RUN.py:211-218 | the part inserts append one Anlagenteil per link, in order, with consecutive keys, and change nothing else |
| Hierarchy.ApplyLinksAppend | RUN.py:211-212 | issuing two batches in turn is issuing their concatenation |
| Hierarchy.ApplyLinksValid | RUN.py:107-116 | parts under existing Anlagen never break a foreign key |
| AlignedImport.UnitsFrame | RUN.py:193-209 | row 1 touches only `anlagen` and records one id entry per column |
| AlignedImport.UnitsAnlagen | RUN.py:194-198 | row 1 appends one Anlage per naming cell, in column order, under the sheet's Abteilung, with consecutive keys |
| AlignedImport.UnitStepIds | RUN.py:194-209 | one cell appends one entry, set exactly when the cell names an Anlage |
| AlignedImport.UnitsIds | RUN.py:193-209 | entry c of the id list is set exactly when cell c names an Anlage, and then it is the id of an Anlage of this Abteilung with that name |
| AlignedImport.UnitsValid | RUN.py:193-209 | row 1 keeps the schema guarantees and every recorded id is an existing Anlage key |
| AlignedImport.LinksResolveFromIds | RUN.py:211-218 | every part insert names an Anlage the id list recorded |
| AlignedImport.SheetValid | RUN.py:169-220 | importing a sheet keeps keys in range and distinct, `abteilungen.name` unique and every foreign key resolved |
| AlignedImport.BookValid | RUN.py:163-223 | importing a workbook keeps keys in range and distinct, `abteilungen.name` unique and every foreign key resolved |
| AlignedImport.ReadUnits | RUN.py:193-209 | the row-1 loop leaves the store and the id list that the specification computes |
| AlignedImport.InsertRowParts | RUN.py:214-218 | the loop over one later row issues exactly that row's part inserts |
| AlignedImport.InsertParts | RUN.py:213-218 | the loop over rows 2 on issues exactly the specified part inserts |
| AlignedImport.ImportSheet | RUN.py:169-220 | one sheet leaves the store as the sheet specification says |
| AlignedImport.ImportReferenceData | RUN.py:150-223 | an unreadable workbook leaves the store unchanged; otherwise each sheet is applied in workbook order |
| AlignedProperties.SkippedSheetUnchanged | RUN.py:169-177 | a skipped or blank-named sheet leaves every table unchanged |
| AlignedProperties.PaddedSkipNameImported | RUN.py:170-174 | the skip list is matched before stripping, so " General" becomes the Abteilung "General" |
| AlignedProperties.EmptySheetOnlyAbteilung | RUN.py:188-191 | a sheet without rows gets its Abteilung but creates no Anlage and no Anlagenteil |
| AlignedProperties.RowLinksSound | RUN.py:214-218 | every insert of a later row comes from one of its cells that passes the test, under that cell's column |
| AlignedProperties.RowLinksComplete | RUN.py:214-218 | every cell of a later row that passes the test is inserted |
| AlignedProperties.LinksSound | RUN.py:213-218 | every part insert comes from some cell (row j, column c) that passes the test |
| AlignedProperties.LinksComplete | RUN.py:213-218 | every cell of rows 2 on that passes the test is inserted |
| AlignedProperties.PartsHangUnderOwnColumn | RUN.py:212-218 | every inserted Anlagenteil hangs under an Anlage named like row 1's cell in its own column |
| AlignedProperties.CellsInsertedUnderOwnColumn | RUN.py:212-218 | a non-blank cell under an Anlage-naming column is inserted under that column's id |
| AlignedProperties.OrphanCellsIgnored | RUN.py:214 | a cell beyond row 1 or under a column without an Anlage is never inserted |
| AlignedProperties.SheetAbteilungen | RUN.py:178-185 | a sheet changes `abteilungen` by at most the get-or-create of its stripped name |
| AlignedProperties.SheetNames | RUN.py:178 | after a sheet, the department names are those before plus the sheet's own |
| AlignedProperties.BookNamesPresent | RUN.py:169-178 | after an import every department name of the workbook is present and none was lost |
| AlignedProperties.BookKnownNamesUnchanged | RUN.py:94 | when every department name is already present, an import leaves `abteilungen` unchanged |
| AlignedProperties.ReimportAddsNoAbteilung | RUN.py:178-185 | importing the same workbook again adds no Abteilung |
| AlignedProperties.ReimportNamesUnique | RUN.py:94 | an import run twice over the same workbook leaves at most one Abteilung per name |
| AlignedProperties.ReimportDuplicatesAnlagen | RUN.py:97-106 | with no UNIQUE constraint on `anlagen`, importing row 1 again adds as many Anlagen again as the row names |
| CompactImport.UnitNamesCount | data_import.py:45 | the compacted list has one entry per truthy row-1 cell, at most one per column |
| CompactImport.UnitNamesOfOddCells | data_import.py:45 | a 0 cell is dropped, and a whitespace-only cell is kept as an empty name |
| CompactImport.UnitsFrame | data_import.py:46-52 | row 1 touches only `anlagen` and records one id per compacted name |
| CompactImport.UnitStepIds | data_import.py:48-52 | each name's SELECT finds at least the row just inserted |
| CompactImport.UnitsIds | data_import.py:46-52 | entry k is the id of an Anlage of this Abteilung named like the k-th compacted name |
| CompactImport.UnitsValid | data_import.py:46-52 | row 1 keeps the schema guarantees and every recorded id is an existing Anlage key |
| CompactImport.LinksResolveFromIds | data_import.py:55-61 | every part insert names a recorded Anlage |
| CompactImport.SheetValid | data_import.py:26-63 | importing a sheet keeps keys in range and distinct, names unique and foreign keys resolved |
| CompactImport.BookValid | initrefdata.py:20-66 | importing a workbook keeps keys in range and distinct, names unique and foreign keys resolved |
| CompactImport.ReadUnits | data_import.py:46-52 | the loop over the compacted names leaves the specified store and id list |
| CompactImport.InsertRowParts | data_import.py:56-61 | the loop over one later row issues exactly that row's part inserts |
| CompactImport.InsertParts | data_import.py:55-61 | the loop over rows 2 on issues exactly the specified part inserts |
| CompactImport.ImportSheet | data_import.py:26-63 | one sheet leaves the store as the sheet specification says |
| CompactImport.ImportReferenceData | initrefdata.py:13-66 | an unreadable workbook leaves the store unchanged; otherwise each sheet is applied in order |
| CompactProperties.RowLinksSound | data_import.py:56-61 | every insert of a later row comes from one of its truthy, non-blank cells whose index lies inside the compacted list with a truthy id there, and goes under that id |
| CompactProperties.RowLinksComplete | data_import.py:56-61 | every cell of a later row that passes that test is inserted |
| CompactProperties.LinksSound | data_import.py:55-61 | every part insert comes from some cell (row j, index idx) that passes the test |
| CompactProperties.LinksComplete | data_import.py:55-61 | every cell of rows 2 on that passes the test is inserted |
| CompactProperties.UnitNamesAt | data_import.py:45 | entry k of the compacted names is the name of the k-th truthy row-1 cell, in some column c |
| CompactProperties.PartsHangUnderCompactedName | data_import.py:45-61 | every inserted Anlagenteil from index idx hangs under an Anlage named like the idx-th truthy row-1 cell, which sits in a column at or after idx |
| CompactProperties.CellsInsertedUnderCompactedName | data_import.py:55-61 | on a consistent database, a truthy non-blank cell at an index below the number of truthy row-1 cells is inserted under the id recorded for that index |
| CompactProperties.CellsBeyondCompactedIgnored | data_import.py:57 | a cell at an index at or beyond the number of truthy row-1 cells is never inserted, even under a unit of its own column |
| Comparison.UnitsAgree | data_import.py:45-52 | when row 1 is a run of unit cells followed only by `None` or "" padding, both row-1 loops issue the same inserts, and RUN.py's id list is the compacted one followed by one `None` per padding cell |
| Comparison.RowLinksAgree | data_import.py:56-61 | without 0 cells, with truthy ids and a column-aligned list that is the compacted one padded with `None`, both tests pick the same cells of a later row under the same ids |
| Comparison.LinksAgree | data_import.py:55-61 | the same for all later rows |
| Comparison.ResolvedIdsNonZero | data_import.py:57 | ids recorded in a consistent database are positive, so the truthiness test on them never fails |
| Comparison.SameHierarchyWithoutGaps | data_import.py:42-61 | with no gap before a unit in row 1, no whitespace-only row-1 cell and no 0 cell, both variants build the same hierarchy from a sheet |
| Comparison.SameImportWithoutGaps | initrefdata.py:26-63 | the same for a whole workbook |
| Comparison.AlignedGapSheet | RUN.py:193-218 | on the gap sheet RUN.py stores x1 under A and x2 under B |
| Comparison.CompactGapSheet | data_import.py:45-61 | on the gap sheet the compacted variant stores x1 under A and y under B |
| Comparison.GapShiftsParts | data_import.py:45-61 | on a sheet whose row 1 has a gap, RUN.py hangs x1 under A and x2 under B, while the compacted variant hangs the orphan y under B and drops x2 |
| Comparison.OddUnitCells | data_import.py:45 | a whitespace-only row-1 cell creates an Anlage "" only in the compacted variant; a 0 cell creates Anlage "0" only in RUN.py |
| Reconcile.EmptyHeaderIsNone | popdata.py:15 | an empty header cell normalises to "none" |
| Reconcile.Headers | RUN.py:234 | one normalised header per header cell: stripped, then lowercased |
| Reconcile.DbColumns | RUN.py:244 | one normalised name per `table_info` column |
| Reconcile.CommonColumnsIff | RUN.py:246 | a column is common exactly when the table has it and the header row names it |
| Reconcile.CommonColumnsAppend | RUN.py:246 | the common columns of a concatenated column list are the concatenation of the common columns, so the table order is kept |
| Reconcile.HeaderIndexLast | RUN.py:250 | the header index knows exactly the headers, and maps each to its last position |
| Reconcile.DataTupleSpec | RUN.py:255 | for common columns that occur among the headers, each tuple entry is the cell under the last column with that header, or None for a short row |
| Reconcile.PlaceholdersCount | RUN.py:251 | the placeholder list has one `?` per common column and is `3n - 2` characters long, so the `?` are separated by ", " |
| BulkLoad.Tuples | RUN.py:254-255 | one tuple per data row, each as long as the common column list |
| BulkLoad.Prepare | popdata.py:12-33 | a load error exactly when the workbook is unreadable or has no first row; otherwise a non-empty column list and one full-length tuple per data row |
| BulkLoad.PreparedColumns | popdata.py:24-28 | no column is common exactly when no normalised table column occurs in the headers; otherwise the common columns are exactly the shared ones |
| BulkLoad.FirstRejectSpec | popdata.py:32-34 | the first rejected row is rejected after all rows before it went in, and no earlier row was |
| BulkLoad.FirstRejectStable | popdata.py:32-34 | later rows do not move the first failure |
| BulkLoad.IsolatedAccounts | RUN.py:254-259 | RUN.py keeps the earlier rows and adds only data rows, and the stored and the failed data rows add up to all data rows |
| BulkLoad.SkippingAgree | RUN.py:254-259 | two failure lists that agree on the positions of the data rows skip the same rows |
| BulkLoad.FailedIncreasing | RUN.py:254-259 | the failed rows are listed once each, in increasing order, and are positions of data rows |
| BulkLoad.FailedAt | RUN.py:256-259 | data row k is listed as failed exactly when the table, holding the rows stored before it, refuses it |
| BulkLoad.FailedIff | RUN.py:256-259 | the same for every data row at once |
| BulkLoad.IsolatedSkipsFailed | RUN.py:254-259 | the stored rows are the old ones followed, in order, by every data row not listed as failed |
| BulkLoad.IsolatedWithoutRejects | RUN.py:254-260 | with no failure, RUN.py stores every data row in order and lists none as failed |
| BulkLoad.IsolatedGrows | RUN.py:254-259 | rows once stored stay stored as later rows are processed |
| BulkLoad.IsolatedKeepsRowsBeforeFailure | RUN.py:256-259 | where popdata.py stores nothing because row k fails, RUN.py has stored every row before k |
| BulkLoad.Table.Insert | RUN.py:257 | an accepted insert joins the open transaction; a rejected one leaves the table unchanged |
| BulkLoad.Table.Commit | RUN.py:260 | commit makes the pending rows permanent |
| BulkLoad.Table.Rollback | popdata.py:21-34 | leaving the `with` block on an exception drops the pending rows |
| BulkLoad.PopulateIsolated | RUN.py:225-263 | on a load error or no common column nothing is stored; otherwise the committed rows are the isolated run's and the failed rows are reported |
| BulkLoad.PopulateAtomic | popdata.py:7-38 | all data rows are committed when none fails; otherwise nothing is committed and the first failing row is reported |
| DemoSeed.DepartmentsRows | demo.py:201-206 | one department row per sheet row, in order, all under the factory, with consecutive keys |
| DemoSeed.DepartmentMappingLast | demo.py:206 | `department_mapping` holds exactly the department names, each mapped to the key of the last row with that name |
| DemoSeed.AttachedRows | demo.py:212-213 | every kept row's parent name maps to a truthy id |
| DemoSeed.AttachedRowsIff | demo.py:212-213 | a row is kept exactly when its parent name is mapped to a truthy id |
| DemoSeed.AttachRows | demo.py:211-228 | the inserted rows are exactly the kept sheet rows, in order, each under its parent's id, with consecutive keys |
| DemoSeed.AttachMappingLast | demo.py:218 | `plant_mapping` holds exactly the inserted names, each mapped to the key of the last inserted row of that name |
| DemoSeed.AttachIds | demo.py:214-218 | the keys handed out are consecutive from the counter |
| DemoSeed.ImportDepartmentsUnderFactory | demo.py:192-206 | after the import every department hangs under a factory |
| DemoSeed.ImportPlantsAndPartsLinked | demo.py:211-228 | after the import every plant hangs under a department and every plant part under a plant |
| DemoSeed.ImportKeysInRange | demo.py:192-228 | new keys come from the counters, which advance by the rows inserted |
| DemoSeed.ImportConfigValid | demo.py:184-232 | the import keeps a consistent database consistent |
| DemoSeed.DemoDb.InsertFactory | demo.py:192-196 | the factory row gets the next key, which `lastrowid` returns |
| DemoSeed.DemoDb.InsertDepartment | demo.py:202-206 | the department row gets the next key, which `lastrowid` returns |
| DemoSeed.DemoDb.InsertPlant | demo.py:214-218 | the plant row gets the next key, which `lastrowid` returns |
| DemoSeed.DemoDb.InsertPart | demo.py:225-228 | the plant-part row gets the next key |
| DemoSeed.DemoDb.ImportConfigData | demo.py:184-232 | the factory insert and the three loops leave the tables the specification computes |
| DemoSeed.DemoDb.ImportDepartments | demo.py:198-206 | the department loop appends the specified rows and returns the specified mapping |
| DemoSeed.DemoDb.ImportPlants | demo.py:208-218 | the plant loop appends the attached rows and returns `plant_mapping` |
| DemoSeed.DemoDb.ImportParts | demo.py:220-228 | the part loop appends the attached rows |
| DemoIncidents.WeightClasses | demo.py:298-305 | weight 5 exactly when the lowercased name contains "kaffeemaschine"; else 1 exactly when it contains "keksomat"; else 2 |
| DemoIncidents.WeightedLength | demo.py:305 | the weighted list is as long as the weights add up to, between one and five entries per part |
| DemoIncidents.WeightedCount | demo.py:305 | each id occurs as often as the weights of the parts carrying it add up to |
| DemoIncidents.WeightOfDistinct | demo.py:298-305 | with unique part ids each part's id occurs exactly its weight times |
| DemoIncidents.WeightedIds | demo.py:305 | every entry of the weighted list is the id of some part |
| DemoIncidents.WeightedListed | demo.py:291-305 | a non-empty part list gives a non-empty list to draw from |
| DemoIncidents.WeightedParts | demo.py:297-305 | the `extend` loop builds exactly the weighted list |
| DemoIncidents.ShiftsByWeekday | demo.py:311-319 | weekdays 0 to 4 have Früh, Mittag and Nacht, 5 only Früh, 6 none |
| DemoIncidents.Weekday | demo.py:329 | the weekday of a day index is between 0 and 6 |
| DemoIncidents.WeekdayMod | demo.py:322-329 | the weekday of day d of 2023 is (6 + d) mod 7, counting Monday as 0 |
| DemoIncidents.WeekdayNext | demo.py:354 | the day after falls on the next weekday |
| DemoIncidents.SevenDays | demo.py:311-319 | any seven consecutive days hold 16 active shifts |
| DemoIncidents.ShiftWeek | demo.py:328-331 | seven more days add 16 shifts to the running total |
| DemoIncidents.ShiftWeeks | demo.py:328-331 | k full weeks hold 16k shifts |
| DemoIncidents.YearShifts | demo.py:322-331 | 2023 has 832 active shifts |
| DemoIncidents.CauseFollowsWeight | demo.py:339-347 | an incident's cause is chosen by the same substring tests as its part's weight |
| DemoIncidents.ShiftDrawsBounds | demo.py:333 | between 3 and 5 incidents per active shift |
| DemoIncidents.YearDrawsBounds | demo.py:331-334 | the incidents of n days lie between 3 and 5 times their shifts |
| DemoIncidents.YearIncidents | demo.py:326-353 | 2023 gets between 2496 and 4160 incidents |
| DemoIncidents.PartCauseOfName | demo.py:337-347 | the cause recorded is the one the fetched part name calls for |
| DemoIncidents.IncidentLog.Insert | demo.py:349-352 | an insert appends one incident row with the next AUTOINCREMENT key |
| DemoIncidents.ShiftNamesDistinct | demo.py:311-319 | the active shifts of one day have different names |
| DemoIncidents.DrawnRowDrawn | demo.py:335-352 | the row a draw describes is for a listed part, on an active shift, with its part's cause |
| DemoIncidents.ShiftBlockShape | demo.py:334-352 | a shift's rows are all dated on its day, carry its shift name and take the consecutive keys after the counter |
| DemoIncidents.ShiftBlockSnoc | demo.py:334-352 | one more draw adds the row for the next key and the next choice |
| DemoIncidents.ShiftBlockCount | demo.py:334-352 | a shift's rows are all the rows of that shift and day and no others |
| DemoIncidents.DayRowsShape | demo.py:331-352 | a day's shifts insert as many rows as their draws add up to, all dated on that day, with consecutive keys |
| DemoIncidents.DayRowsCount | demo.py:331-352 | once the shift loop is past shift t, the day holds `draws(d, t)` rows of shift t; before that it holds none |
| DemoIncidents.YearRowsSnoc | demo.py:328-354 | a day's rows follow the rows of the days before it, keyed from where the counter stands |
| DemoIncidents.YearRowsShape | demo.py:328-354 | the first n days insert the sum of their draws, in date order, dated before day n, with consecutive keys, and `draws(e, t)` rows for each active shift t of each day e |
| DemoIncidents.DrawIncident | demo.py:335-353 | the counter advances by one, and the one appended row has the next key, the part at the drawn index of the weighted list, the day, the shift's name and that part's cause |
| DemoIncidents.InsertShiftIncidents | demo.py:333-353 | the counter advances by `count`, and exactly the shift's `count` drawn rows are appended, each dated on day d with shift s's name |
| DemoIncidents.InsertDayIncidents | demo.py:330-354 | the day's rows are appended and the counter advances by their number, the sum of the draws; all are dated on day d with consecutive keys, and shift t gets `draws(d, t)` of them |
| DemoIncidents.GenerateIncidents | demo.py:284-358 | without parts nothing is inserted; otherwise the year's rows are appended and the counter advances by the count returned, the sum of the draws; the new rows are in date order with consecutive keys, and each active shift s of each day d gets `draws(d, s)` of them |

## Left out

- The workbook and the database are inputs, not files. openpyxl and pandas parsing,
  sqlite3 connections, cursors and logging are foreign libraries. A workbook that cannot be
  opened is `None`.
- `PRAGMA table_info` is the input column list of `BulkLoad`.
- SQLite's decision to reject an insert is the input predicate `Rejects`.
- **Commits are not modelled in the hierarchy import.**
  - The Abteilung insert and each Anlage insert are committed one at a time (RUN.py:179,
    RUN.py:199, data_import.py:34, data_import.py:49).
  - The Anlagenteil inserts of a sheet are committed once, after the sheet's part loop
    (RUN.py:219, data_import.py:62).
  - All statements succeed in the model, so only the final contents matter.
- **Store exceptions in the hierarchy import are left out.**
  - Examples are a locked database or a full disk.
  - The handler at RUN.py:222-223 and initrefdata.py:65-66 catches them, and the rest of the
    workbook is then not processed.
  - An exception inside a sheet's part loop would roll back that sheet's uncommitted
    Anlagenteile, while its Abteilung and its Anlagen, already committed, would stay. The
    model does not capture this partial state.
  - Constraint violations cannot occur: every foreign key is proved to resolve, and
    `SheetValid`/`BookValid` give this.
- **Store exceptions in the bulk load are left out** when they come from outside the row
  loop: the failing `PRAGMA` and the outer handler at RUN.py:262-263 and
  data_import.py:98-99.
- **The order of rows returned by `SELECT ... fetchone()`** over duplicate `anlagen` rows is
  left open. The `Chooser` parameter stands for it.
- **Unicode:**
  - `strip` and `lower` are ASCII-only. The set of characters `strip` treats as
    whitespace is the ASCII range of `str.isspace`.
- DemoIncidents.Weight and DemoIncidents.CauseOf lowercase ASCII letters only, which
  changes results in demo.py. Python's `str.lower` maps U+212A KELVIN SIGN to the ASCII
  letter 'k'. A part named "\u212Aaffeemaschine" therefore gets weight 5 and the cause
  "Kaffeemaschine kaputt" at demo.py:301 and demo.py:339, while the model gives it weight 2
  and the general cause.
- **Cell values:**
  - Cells are `None`, strings or integers.
  - Floats, booleans and dates from openpyxl, and pandas' NaN for empty cells in demo.py,
    are not modelled.
- **demo.py in several respects:**
  - The random draws (`random.randint(3, 5)`, `random.choice`) are the input functions
    `Draws` and `Choices`.
  - The incident date is a day index from 2023-01-01, not a `strftime` string.
  - `create_tables`, `create_config_excel`, `init_other_reference_data` and the console
    messages are left out.
- **DemoIncidents.PartName** and **DemoIncidents.PartCause** return the first part row with
  the id. ids are primary keys, so `fetchone()` has only one row to return.
- **Table creation** (RUN.py:119-148, createtables.py:117-143), the bcrypt default users,
  the GUI, repository.py and config.py are schema provisioning or user interface and fall
  outside this model.
- **SQL injection** through the f-string table name (RUN.py:243, RUN.py:252) is outside a
  functional model.

## Findings

| source | as written | input that shows it | evidently intended | confidence | as-written member | corrected member |
|---|---|---|---|---|---|---|
| data_import.py:45-61 | Row 1 is reduced to its truthy cells before the ids are recorded. A later row's column index is then compared with that compacted list, so every unit to the right of a gap moves one column to the left. initrefdata.py:45-61 has the same code. `CompactProperties.PartsHangUnderCompactedName` states the shift for every sheet. | The sheet "S" has row 1 `["A", None, "B"]` and row 2 `["x1", "y", "x2"]`. On an empty database, "y" is stored under B and "x2" is dropped. | Each part hangs under the unit of its own column, as RUN.py:193-218 does with its column-aligned list. | not executed; high — the exhibiting lemma is proved for every SELECT choice | Comparison.GapShiftsParts | AlignedProperties.PartsHangUnderOwnColumn |
