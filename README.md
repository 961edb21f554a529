# Tennis coach directory: the REST handler, modelled in Dafny

This project models the serverless handler of a tennis coach directory
(`backend/index.js`). The handler answers API Gateway events over one
document-store table keyed by `coach_id`. The model covers:

- the dispatch: a CORS preflight first, then the switch on the HTTP method,
  the 404 fallback, and the catch that turns every failure into a 500 reply;
- first-use seeding: a probe scan, then one put per sample coach, with any
  seeding error swallowed;
- the list operation: an exact-match location query or a full scan,
  followed by a case-insensitive substring filter on `specialty`;
- reading, creating, partially updating and deleting one record.

The table is a class (`Store.Table`) holding a `map` from `coach_id` to record.
Its methods `Probe`, `Scan`, `QueryByLocation`, `Get`, `Put`, `Update` and
`Delete` stand for the store's calls, and the handler's operations are methods
that change it. A store call that raises is chosen by a parameter
`faults: set<StoreOp>`. The clock (`new Date().toISOString()`) and the
generated id (`Date.now().toString()`) are parameters too.

Each operation is proved against a ghost predicate (`GetSpec`, `ListSpec`,
`CreateSpec`, `UpdateSpec`, `DeleteSpec`). `Handle` is proved against
`Answered`, which combines them with the sample seeding (`Seeded`).

The partial update is modelled in two halves:

- the handler half: the `forEach` that builds the clauses, the attribute
  names and the values, then the `SET` expression;
- the store half: a small reader of that `SET` expression.

A round-trip lemma connects the two halves. It proves that the expression
assigns exactly the allowed body fields and `updated_at`.

## Behaviour of the code worth knowing

The model keeps these behaviours of `backend/index.js` as written:

- A create or update body that is not JSON raises a SyntaxError inside the
  `try`, so the reply is a 500 (`Properties.MalformedBodyFails`). The
  repository's own API test expects a 400 here (tests/e2e/api.spec.ts:189-196).
- A list request with a `specialty` parameter answers 500 (a TypeError) when
  any record it reads has no string `specialty`, for example a record created
  without one.
- The id of a created record is `Date.now()` as a string. Nothing makes it
  unique, and a create with an existing id overwrites that record.
- Seeding runs before every non-preflight request. Deleting the last record
  therefore brings all six sample coaches back on the next request
  (`Properties.DeletedLastSampleComesBack`).
- Unmatched requests are seeded too, before their 404.
- `rating` on create is `coachData.rating || 5`, so a rating of 0 becomes 5
  (`Coach.NewRecordDefaults`).

## Model

| member | source | states |
|---|---|---|
| Text.Lower | backend/index.js:222 | `toLowerCase` on ASCII: same length, each letter A-Z shifted down, every other character kept |
| Text.IncludesAt | backend/index.js:222 | `includes` (`Text.Includes`, a prefix at the front or further on) holds exactly when the substring occurs at some position |
| Text.LowerIdempotent | backend/index.js:239 | lowering twice is lowering once |
| Text.JoinSnoc | backend/index.js:368 | `join` (`Text.Join`) of one more part appends the separator and the part |
| Text.SplitJoin | backend/index.js:368-369 | splitting (`Text.Split`, the store's reading of a separator list) a join on its separator gives the parts back, when no part holds the separator's first character |
| Coach.Lookup | backend/index.js:292-300 | a property read: absent exactly when the key is not in the body, else the body's value for that key |
| Coach.NewRecord | backend/index.js:290-304 | the created record: `coach_id`, `created_at`, the defaulted `rating`, `availability` and `certifications` (`Coach.OrElse` is `\|\|`), plus the listed fields the body supplies (`Coach.Supplied`, read with `Coach.Read`) with the body's values; none for a `null` body |
| Coach.NewRecordDefaults | backend/index.js:295-302 | `rating` is 5 and `availability` and `certifications` are `[]` exactly when the body leaves them out or gives a falsy value, the body's value otherwise; a rating of 0 is stored as 5 |
| Coach.NewRecordWithinSchema | backend/index.js:290-304 | a created record holds only profile attributes, never `updated_at`; other client keys are dropped |
| Coach.AllowedPairs | backend/index.js:352-358 | the body's pairs kept by the allow-list: exactly those pairs, all allowed; empty exactly when no body key is allowed |
| Coach.AllowedPairsDistinct | backend/index.js:352-358 | filtering keeps the body's keys distinct |
| Coach.AllowedPairsKeys | backend/index.js:349-353 | the kept keys are the body's keys intersected with the allow-list |
| Coach.Assign | backend/index.js:383-389 | the `SET` assignments applied in order: the keys grow by the assigned keys, each assigned key holds its value, every other attribute is kept |
| Coach.SampleProfile | backend/index.js:19-104 | a sample record holds every profile attribute except the two time stamps; `Coach.SampleRows` holds the six literal rows and `Coach.SampleCoaches` their records, in order |
| Store.EnumerateValues | backend/index.js:233-234 | the store returns the records of a map in some order, one entry per key: `Store.Enumerates` asks for an order of the keys without repeats whose values are the list |
| Store.EnumeratedOnce | backend/index.js:233-247 | a listing of a table whose records are filed under their own `coach_id` repeats no record |
| Store.PutOutcome | backend/index.js:182-185 | a put files the item under its key (`Store.KeyOf`, the `coach_id` when it is a string), or fails for a missing key or a raised call, leaving the table valid |
| Store.ParseClauses | backend/index.js:368-370 | a list of clauses parses (`Store.ParseClause`: `path = :placeholder`, the path resolved by `Store.ResolvePath`) to one assignment per clause |
| Store.UpdatedItem | backend/index.js:374-383 | an update may not assign the key; otherwise the stored record with the assignments applied |
| Store.Table.Probe | backend/index.js:172-178 | the `Limit: 1` scan: at most one record, empty exactly when the table is empty, or the raised call |
| Store.Table.Scan | backend/index.js:233 | every record, one entry per key, in some order, or the raised call |
| Store.Table.QueryByLocation | backend/index.js:204-216 | every record whose `location` is exactly the query (`Store.AtLocation`), one entry per key, or the raised call |
| Store.Table.Get | backend/index.js:264 | the stored record for the key, none when absent, or the raised call |
| Store.Table.Put | backend/index.js:182-185 | the new table is the put's outcome; unchanged on failure |
| Store.Table.Update | backend/index.js:383 | the new table holds the updated record (`Store.ApplyUpdate`: the `SET` expression read by `Store.ParseSet`, then applied) under the key; unchanged on a raised call or a refused expression |
| Store.Table.Delete | backend/index.js:406 | the record is removed and returned, none when absent; unchanged on a raised call |
| Handler.RouteOf | backend/index.js:113-151 | which request reaches which operation, as an if-and-only-if per route; an id is `Handler.Param`, a path parameter that is set and not empty |
| Handler.SeedEach | backend/index.js:181-186 | the seeding loop as a recursion: each record put in order, stopping at the first put that raises; the keys only grow and a valid table stays valid |
| Handler.Seeded | backend/index.js:169-193 | a table that is not empty, or whose probe raises, is left as it is |
| Handler.InitializeSampleData | backend/index.js:169-193 | the table afterwards is the seeded table, and stays valid |
| Handler.SeedAll | backend/index.js:181-186 | the loop puts the records in order and stops at the first put that raises |
| Handler.FilterSpecialty | backend/index.js:220-223 | a TypeError exactly when a record has no string specialty; otherwise exactly the records passing `Handler.MatchesSpecialty`, as a subsequence of the input |
| Handler.FilterCounts | backend/index.js:220-223 | the filter keeps each passing record as often as the input holds it and drops every other one |
| Handler.GetCoaches | backend/index.js:196-253 | the reply is `Handler.ListResponse` of what the store hands back (the records, filtered when a specialty is given), or the raised call |
| Handler.GetCoachById | backend/index.js:255-283 | 200 with the stored record, 404 when absent, or the raised call |
| Handler.CreateCoachRecord | backend/index.js:285-322 | 201 with the new record filed under the given id, or 500 with the table unchanged |
| Handler.Plan | backend/index.js:349-358 | the assignments asked for: distinct, allowed, none for a body that is not an object |
| Handler.ClausesFor | backend/index.js:354 | one `#k = :k` clause per assignment, in order |
| Handler.NamesFor | backend/index.js:355 | `#k` names attribute `k` for every assignment |
| Handler.ValuesFor | backend/index.js:356 | `:k` holds the body's value for every assignment |
| Handler.AllowedPairsSnoc | backend/index.js:352-358 | one more body key adds one pair exactly when it is allowed |
| Handler.BuilderSnoc | backend/index.js:354-356 | one more assignment adds one clause, one name and one value |
| Handler.CollectUpdates | backend/index.js:351-358 | the loop builds the clauses, names and values of the allowed pairs |
| Handler.AllowedFieldIsPlain | backend/index.js:349 | every allowed field is a plain attribute name, and none is `coach_id`, `created_at` or `updated_at` |
| Handler.ParseClausesOfPlan | backend/index.js:354-356 | the builder's clauses parse back into the assignments they came from |
| Handler.ParseClausesAppend | backend/index.js:368-369 | parsing two clause lists end to end parses each in turn |
| Handler.SetExpressionClauses | backend/index.js:345-369 | the expression starts with `SET `, and its clause list is the builder's clauses followed by the `updated_at` clause |
| Handler.SetExpressionMeaning | backend/index.js:345-370 | the expression `Handler.SetExpression` builds from the clauses of `Handler.ClauseFor` reads back as the body's allowed assignments followed by `updated_at = now` |
| Handler.PlainUpdateMeaning | backend/index.js:368-389 | the update the handler sends revises the stored record by the plan and the stamp |
| Handler.UpdateCoachRecord | backend/index.js:324-394 | 404 when absent, a 500 TypeError for a `null` body (`Object.keys(null)` throws), 400 when no field is allowed, 200 with the revised record (`Handler.Revised`: the plan, then the stamp), or the raised call; unchanged unless 200 |
| Handler.DeleteCoachRecord | backend/index.js:396-425 | 200 with the record removed, 404 when absent, or the raised call; unchanged unless 200 |
| Handler.Handle | backend/index.js:106-167 | every reply carries the CORS headers (`Handler.CorsHeaders`), and the reply and new table are what `Answered` says for the request's route: the body parsed by `Handler.ParseBody`, a failure answered by `Handler.Internal` |
| Properties.Filed | backend/index.js:181-186 | filing records keeps the old keys and adds every record's key |
| Properties.SeedEachFilesAll | backend/index.js:181-186 | when every put succeeds, seeding files every record in order |
| Properties.SeedEachStopsAt | backend/index.js:181-192 | when put `j` raises, the table keeps exactly the first `j` records |
| Properties.SampleKeys | backend/index.js:19-104 | six sample records, keyed '1' to '6' |
| Properties.FiledSix | backend/index.js:181-186 | filing six records is six map updates in order |
| Properties.SeedingEmptyTable | backend/index.js:169-189 | an empty table whose calls succeed holds exactly the six samples under '1' to '6' afterwards |
| Properties.PartialSeeding | backend/index.js:181-193 | a put that raises leaves the samples before it, and an empty table if it was the first |
| Properties.SeedingEmptyStopsAt | backend/index.js:181-193 | seeding an empty table that meets a raising put at position j leaves exactly the records before j, and an empty table exactly when j is 0 |
| Properties.SeedingOnce | backend/index.js:178 | seeding a seeded table changes nothing |
| Properties.CreateThenGet | backend/index.js:264-277 | a created record reads back unchanged under its id, and no other record moved |
| Properties.CreateAccepted | backend/index.js:311-317 | a 201 means the record was filed under its id and echoed |
| Properties.FailedCreateKeepsTable | backend/index.js:285-322 | a create fails exactly for a `null` body or a raised put, and a failed create changes nothing |
| Properties.StampedPlanDistinct | backend/index.js:368-370 | adding the `updated_at` assignment keeps the keys distinct |
| Properties.PlanKeys | backend/index.js:349-358 | the plan's keys are `Properties.AllowedKeys`, the body's keys that are allowed fields, and none is a stamped attribute |
| Properties.RevisedContents | backend/index.js:383-389 | a revision sets the plan's values and `updated_at`, and keeps every other attribute |
| Properties.RevisedByBody | backend/index.js:349-389 | the revised record's keys, values and kept attributes, in terms of the body |
| Properties.RevisedKeepsIdentity | backend/index.js:349 | an update never changes `coach_id` or `created_at` |
| Properties.BodyValuesApplied | backend/index.js:352-356 | every allowed body field holds the body's value afterwards |
| Properties.UpdateAccepted | backend/index.js:334-389 | a 200 means the record existed, a field was allowed, and only that record changed |
| Properties.UpdateChangesOnlyPlan | backend/index.js:349-389 | a successful update changes only the allowed body fields (`Properties.AllowedKeys`) and `updated_at`, and returns the full new record |
| Properties.UpdateWithoutAllowedFields | backend/index.js:360-366 | a body with no allowed field answers 400 and changes nothing |
| Properties.UpdatePlanExample | backend/index.js:352-358 | `{name, notAField}` updates only `name` |
| Properties.DeleteThenGetOrDelete | backend/index.js:406-420 | a delete answers 200 exactly when the key existed; afterwards a get and a second delete answer 404; other records stay |
| Properties.DeletedLastSampleComesBack | backend/index.js:121-122 | deleting the last record empties the table, and the next get seeds it again and finds sample coach '1' |
| Properties.GetFromEmptyTable | backend/index.js:121-130 | a get on an empty table seeds it first and finds sample coach '1' |
| Properties.SampleTableFirst | backend/index.js:20-33 | sample coach '1' is filed under '1' |
| Properties.DeleteOnlyRecord | backend/index.js:406-420 | deleting the only record leaves an empty table |
| Properties.RetrievedIsSource | backend/index.js:203-234 | what the store hands back enumerates exactly `Properties.Source`: the records at the location when one is given, all records otherwise |
| Properties.ListReplyContents | backend/index.js:203-247 | a 200 list holds only records of `Properties.Source`, each matching the specialty, and every matching source record |
| Properties.FilterIgnoresCase | backend/index.js:221-223 | the filter gives the same answer for a query in any case |
| Properties.FilterIsSubstring | backend/index.js:221-223 | the filter holds exactly when the lowered query occurs in the lowered specialty |
| Properties.ListFailsOnlyOnSpecialty | backend/index.js:220-247 | with its store call succeeding, a list answers 200, or 500 exactly when a source record lacks a string specialty |
| Properties.PreflightTouchesNothing | backend/index.js:113-119 | OPTIONS answers 200 with an empty body and does not touch the table, whatever the path |
| Properties.IdRoutesIgnorePath | backend/index.js:140-150 | PUT and DELETE with an id reach update and delete whatever the path |
| Properties.UnmatchedRequest | backend/index.js:125-157 | a request no case takes answers 404 Not found, after seeding |
| Properties.ReplyStatuses | backend/index.js:106-167 | every reply is 200, 201, 400, 404 or 500, and a 500 carries a store fault, a SyntaxError or a TypeError |
| Properties.InternalErrorCauses | backend/index.js:159-193 | a store fault in a reply is a call of the operation itself, never the seeding probe, and a put only for the created id |
| Properties.SyntaxErrorCause | backend/index.js:136-142 | a SyntaxError comes only from a create or update body that is not JSON |
| Properties.MalformedBodyFails | backend/index.js:134-144 | a create or update whose body is not JSON answers the 500 of a SyntaxError and leaves the table as seeding made it |

## Left out

- The AWS SDK and DynamoDB client are not part of this model. The store is the abstract table above. `scan` paging, the `location-index` secondary index's eventual consistency and `ReturnValues` are not modelled; `update` with `ALL_NEW` returns the whole new record and `delete` with `ALL_OLD` the old one.
- Store.ParseSet: reads only the `SET a = :b, ...` form the handler writes, not the full expression grammar.
- `console.log` and `console.error` are left out. `JSON.stringify` of replies is left out too: a reply body is a structured value.
- `JSON.parse` is not modelled: a body is parsed JSON, malformed, or absent. JSON values are strings, numbers, string lists, booleans and null; nested objects and other arrays are not modelled.
- Numbers are reals. NaN and -0 are not modelled.
- Text.Lower: lowers ASCII letters only, because full Unicode case mapping is out of reach here.
- The clock and `Date.now()` are parameters, so the model says nothing about how ids are picked or whether they are unique.
- `Errors.StoreOp`: a put fault is keyed by the record's key only, so within one request the seeding put of a sample id and a create put with the same id fail together, where the source makes two independent calls; this matters only when a generated id equals a sample id (`1` to `6`).
- Concurrent requests, and the race between two cold-start seedings, are not modelled: each request runs alone.
- The frontend page (`frontend/index.js`), the browser tests under `tests/`, `create_images.py` and `debug-frontend-structure.js` are not part of this model.
- The location and specialty filters are proved in general. There is no proof on the sample data that `location=Miami` or `specialty=beginner` picks particular coaches: such a proof over the literal records is too costly for the verifier.
- CORS header values are carried as a constant map and are not checked against a browser's rules.
