# Bagger persistence, bag-info fields, parallel retrieval and property locations

A Dafny model of four pieces of the Library of Congress transfer tools:

- **JdbcBagger**, which persists bagger profiles. Each profile refers to two contacts, their persons and organizations, and a project. Every `storeX` is an upsert. It loads the row at the entity's id and updates it if the load works; on any exception it inserts under a generated key; if the insert fails too, it throws `UnsupportedOperationException`. Each successful write appends the literal SQL statement to a replay log (`commandList`). `storeBaggerUpdates` runs seven stores per profile in a fixed order and re-derives the profile's foreign keys. It then writes the whole log to `bagger.sql` in the home directory, one statement per line. The finders (`findProfiles`, `findProjects`, `findOrganizations`) and the point loads (`loadX`) read the same tables.
- **BagInfoField**, one field of the bag-info form. `buildElements` splits a string on `;` and `concatElements` joins the elements back, each followed by `;`.
- **parallelretriever.py**, which fetches the files a BagIt package lists in `fetch.txt`. Each line has three fields (url, length, path), as in section 2.2.3 of RFC 8493. The tool is chosen by URL prefix, and the child's exit status is classified.
- **PropertyPlaceholderConfigurer.setConfigurationName**, which turns the property resources found for a configuration into class-path locations. It walks them in reverse and keeps the part of each URL after its last `/`.

Files:

- `wrappers.dfy`: Option and Result.
- `text.dfy`: prefixes, suffixes and Java's decimal rendering of an `int`.
- `tokens.dfy`: maximal runs of non-separator characters (`StringTokenizer`, Python's `split()`) and "each element followed by a character".
- `bag_info.dfy`, `placeholder.dfy`, `retriever.dfy`: the three small components.
- `database.dfy`: entities, rows, tables and the `loadX` lookups.
- `replay_sql.dfy`: the exact log statements.
- `store.dfy`: the upserts and the join-table inserts.
- `batch.dfy`: `storeBaggerUpdates` and `write`.
- `queries.dfy`: the finders.

The database is modelled as follows:

- It is one map per table from the id column to the other columns.
- Each table's key generator hands out positive ids that no row uses. An entity whose id is zero or below is therefore never found, and so it is always inserted.
- Write failures come from a fault script in the state. The n-th write attempt throws when the script's n-th entry is true, and once the script is used up every write succeeds.
- Null nested entities (a contact's person or organization, a profile's contacts or project) are `None`. String fields cannot be null (see "Left out").
- A NullPointerException from the runtime is `NullReference`. On the Java versions this code was written for, its `getMessage()` is null, which concatenates as `"null"`. Since JDK 15 the runtime supplies a descriptive message instead (see "Left out").
- The finders' queries have no ORDER BY, so the order in which the database scans a table is a parameter.

Where the documented behaviour and the code differ, the model follows the code:

- `findOrganizations` is documented as ordered by name. The query has no ORDER BY, so the result comes back in scan order (`Queries.OrganizationsFollowScanNotName`).
- The upsert is documented as "insert when the load fails". The code inserts on any exception in the try block. That includes a failed update and a null dereference while the UPDATE statement is rendered, which comes after the update has already run.

## Model

| member | source | states |
|---|---|---|
| `BagInfo.NewField` | bagger-core/src/main/java/gov/loc/repository/bagger/bag/BagInfoField.java:23-35 | A new field has empty name, label, value and elements, the text-field component type, editable set and every other flag clear. |
| `BagInfo.SetThenGet` | bagger-core/src/main/java/gov/loc/repository/bagger/bag/BagInfoField.java:37-115 | Each getter returns what its setter stored, and a setter leaves every other property unchanged. |
| `BagInfo.GettersDetermineField` | bagger-core/src/main/java/gov/loc/repository/bagger/bag/BagInfoField.java:37-115 | The ten getters together determine the field: two fields that agree on all of them are equal. |
| `BagInfo.BuildElements` | bagger-core/src/main/java/gov/loc/repository/bagger/bag/BagInfoField.java:117-125 | Every element produced is non-empty and `;`-free, and no property other than the elements changes. |
| `BagInfo.BuildElementsDropsEmptyTokens` | bagger-core/src/main/java/gov/loc/repository/bagger/bag/BagInfoField.java:119-123 | The elements are the `;`-separated pieces of the input, in order, with the empty pieces dropped (leading, trailing and doubled `;`). |
| `BagInfo.ConcatElements` | bagger-core/src/main/java/gov/loc/repository/bagger/bag/BagInfoField.java:127-134 | The empty list gives `""`; a non-empty list gives a string ending in `;`. |
| `BagInfo.ConcatThenBuild` | bagger-core/src/main/java/gov/loc/repository/bagger/bag/BagInfoField.java:117-134 | Building from the concatenation gives the same field back whenever every element is non-empty and `;`-free. |
| `BagInfo.NormalizeIdempotent` | bagger-core/src/main/java/gov/loc/repository/bagger/bag/BagInfoField.java:117-134 | Concatenating then building twice gives the same field as doing it once. |
| `BagInfo.BuildThenConcat` | bagger-core/src/main/java/gov/loc/repository/bagger/bag/BagInfoField.java:117-134 | The string produced by build then concat is reproduced exactly by another build then concat. |
| `Placeholder.LastIndexOf` | transfer-common-core/src/main/java/gov/loc/repository/springframework/PropertyPlaceholderConfigurer.java:28 | The result is -1 or a position holding the character, and no later position holds it. |
| `Placeholder.ResourceLocation` | transfer-common-core/src/main/java/gov/loc/repository/springframework/PropertyPlaceholderConfigurer.java:28 | The location is a suffix of the URL with no `/` in it, preceded in the URL by `/`; it is the whole URL when the URL has no `/`. |
| `Placeholder.ResourceLocationUnique` | transfer-common-core/src/main/java/gov/loc/repository/springframework/PropertyPlaceholderConfigurer.java:28 | Any suffix with those three properties equals the location, so they pin it down. |
| `Placeholder.ConfigurationLocations` | transfer-common-core/src/main/java/gov/loc/repository/springframework/PropertyPlaceholderConfigurer.java:24-32 | Exactly one location per URL found; the k-th location comes from the k-th URL counted from the end; no location contains `/`. |
| `Placeholder.LocationsFollowReversedUrls` | transfer-common-core/src/main/java/gov/loc/repository/springframework/PropertyPlaceholderConfigurer.java:24-25 | The locations are those of the reversed URL list, position by position. |
| `Retriever.FieldsIgnoreStrip` | utilities/parallelretriever.py:155 | Splitting after strip gives the same fields as splitting the raw line: the maximal whitespace-free runs, so a trailing newline never matters. |
| `Retriever.EnqueueFetchItems` | utilities/parallelretriever.py:154-163 | Every line is queued or skipped exactly when each line is blank or has three fields. Then the queued items are the three-field lines' tuples in file order. Otherwise the run exits with code -1 (process status 255) at the first bad line, after queueing the items of the lines before it. |
| `Retriever.SizeNeverValidated` | utilities/parallelretriever.py:159-163 | Any whitespace-free text in the size field gives a three-field line whose item carries it unchanged. |
| `Retriever.ProcessStatus` | utilities/parallelretriever.py:161 | The status the operating system sees for an exit code lies in 0..255. |
| `Retriever.SelectFetcher` | utilities/parallelretriever.py:102-120 | The first matching test decides, each in both directions: wget exactly for an `http` prefix (so `https` adds nothing), rsync exactly for `rsync` without `http`, the direct copy exactly for `file` without either, and no tool exactly when none of the three prefixes is present. |
| `Retriever.HttpsIsHttp` | utilities/parallelretriever.py:102 | Every URL starting with `https` starts with `http`, so the second test never decides anything. |
| `Retriever.AsWrittenPassesProgramNameAsOperand` | utilities/parallelretriever.py:103-107 | The argument list as written hands the tool its own name as an operand, which is neither an option, the URL nor the target file. |
| `Retriever.ToolArgv` | utilities/parallelretriever.py:103-107 | The corrected argument list names the program once and then passes only options, the URL and the target file. |
| `Retriever.ToolArgvAsWritten` | utilities/parallelretriever.py:103-107 | The argument list as written is the corrected one with the program name put in front once more. |
| `Retriever.Plan` | utilities/parallelretriever.py:102-120 | fetch as written: it raises "unexpected url type" exactly when no prefix matches, and copies directly exactly for the `file` branch. A spawned tool gets its name twice (wget exactly for `http` URLs), followed by arguments that include the URL and the target file. |
| `Retriever.IntendedPlan` | utilities/parallelretriever.py:102-120 | The same branches with the corrected argument list: a spawned tool receives only options, the URL and the target file. |
| `Retriever.PlanRepeatsProgramName` | utilities/parallelretriever.py:102-120 | The as-written and intended plans take the same branch. When they spawn, they differ only by the repeated program name, and otherwise they are equal. |
| `Retriever.Classify` | utilities/parallelretriever.py:121-128 | Code 0 reports the file as finished. A negative code is a signal whose number is the code negated, and a positive code is a child error. |
| `Retriever.Fetch` | utilities/parallelretriever.py:96-128 | The exception is raised exactly for an unknown scheme, a `file` URL always finishes, and a spawned tool's status is classified. |
| `Retriever.ReturnValueIsNonzeroStatus` | utilities/parallelretriever.py:121-128 | fetch returns None on success and the child's code, unchanged, in both failure cases. |
| `Retriever.PathJoin` | utilities/parallelretriever.py:136-137 | An absolute second part replaces the first. Otherwise the result starts with the first part and ends with the second. Exactly one `/` is inserted between them when the first part is non-empty and does not end in `/`, and nothing is inserted otherwise. |
| `Retriever.WorkTarget` | utilities/parallelretriever.py:78-86 | A worker fetches into `join(package directory, filename)`. For a relative path the target lies inside the package directory, and the file name starts at a path boundary: the directory is empty or ends in `/`, or a `/` follows it. An absolute path is used as it stands. The size never affects the outcome. |
| `Database.LoadPerson` | bagger-business/src/main/java/gov/loc/repository/bagger/jdbc/JdbcBagger.java:187-199 | Succeeds exactly when the row exists, with that id and the row's columns; otherwise fails naming Person and the id. |
| `Database.LoadOrganization` | bagger-business/src/main/java/gov/loc/repository/bagger/jdbc/JdbcBagger.java:202-214 | Succeeds exactly when the row exists, with that id and the row's columns; otherwise fails naming Organization and the id. |
| `Database.LoadProject` | bagger-business/src/main/java/gov/loc/repository/bagger/jdbc/JdbcBagger.java:217-229 | Succeeds exactly when the row exists, with that id and name; otherwise fails naming Project and the id. |
| `Database.LoadContact` | bagger-business/src/main/java/gov/loc/repository/bagger/jdbc/JdbcBagger.java:168-184 | Succeeds exactly when the contact row and the person and organization rows it refers to exist, and the result carries those loaded objects. |
| `Database.LoadProfile` | bagger-business/src/main/java/gov/loc/repository/bagger/jdbc/JdbcBagger.java:147-165 | Succeeds exactly when the profile row, both contacts with their parts, and the project load; the result carries the row's columns, creation date included, and all three objects. |
| `ReplaySql.UpdateSqlShape` | bagger-business/src/main/java/gov/loc/repository/bagger/jdbc/JdbcBagger.java:239 | A rendered UPDATE starts with `UPDATE <table> SET ` and ends with ` WHERE id=<id>;`. |
| `ReplaySql.InsertSqlShape` | bagger-business/src/main/java/gov/loc/repository/bagger/jdbc/JdbcBagger.java:246 | A rendered INSERT starts with `INSERT INTO <table> VALUES (<key>, ` and ends with `);`. |
| `Store.FreshKey` | bagger-business/src/main/java/gov/loc/repository/bagger/jdbc/JdbcBagger.java:244 | A generated key is positive and no row of the table uses it. |
| `Store.UpsertRow` | bagger-business/src/main/java/gov/loc/repository/bagger/jdbc/JdbcBagger.java:233-253 | The update branch is taken exactly when the load works, the update goes through and the statement renders; the row at the id is then replaced by the row the UPDATE leaves, which may differ from the row an INSERT writes. Otherwise the insert is tried: it succeeds exactly when the insert goes through and renders, adding exactly the fresh key. Every other row is still there, unchanged. |
| `Store.StorePerson` | bagger-business/src/main/java/gov/loc/repository/bagger/jdbc/JdbcBagger.java:232-254 | A found row that updates keeps the id and logs one UPDATE naming it. A missing row or a failed update gives the person a fresh positive key and logs one INSERT with that key first. A failed insert throws "Profile update not supported" and logs nothing. A stored person loads back as stored. Only the person table changes, and within it only the row at the person's id: every other row is still there, unchanged. A throw leaves the database as it was. |
| `Store.StoreOrganization` | bagger-business/src/main/java/gov/loc/repository/bagger/jdbc/JdbcBagger.java:284-306 | The same upsert on the organization table; a failed insert throws "Organization update not supported". On success the keys are the old keys plus the organization's id, and every other row is still there, unchanged. A throw leaves the database as it was. |
| `Store.StoreContact` | bagger-business/src/main/java/gov/loc/repository/bagger/jdbc/JdbcBagger.java:257-281 | The same upsert on the contact table, where found means the whole contact loads. The row holds the contact's own id fields. With person and organization present, it throws exactly when the insert is tried and fails. A null person or organization always throws, because both branches dereference it while rendering. On success the keys are the old keys plus the contact's id, and every other contact row is still there, unchanged. |
| `Store.StoreProfile` | bagger-business/src/main/java/gov/loc/repository/bagger/jdbc/JdbcBagger.java:310-313 | A null owner contact throws a null reference before anything is read or written. Otherwise the result is that of the profile upsert. |
| `Store.UpsertProfile` | bagger-business/src/main/java/gov/loc/repository/bagger/jdbc/JdbcBagger.java:314-335 | The upsert on the profile table, where found means the whole profile loads. An update sets username, profile_person_id, project_id and contact_id and keeps the stored status and creation date; an insert writes the profile's own status and date. On success the keys are the old keys plus the profile's id, and every other profile row is still there, unchanged. With the contact and the owner's person present, it throws exactly when the insert is tried and fails; without them it always throws. The logged statement carries the owner's nested person id as profile_person_id, while the row holds the profile's own field. |
| `Store.StorePersonProject` | bagger-business/src/main/java/gov/loc/repository/bagger/jdbc/JdbcBagger.java:337-350 | Only inserts. A null argument or a failed insert is swallowed and leaves the tables and the log unchanged. Otherwise there is one new row under a fresh key and one INSERT with that key. |
| `Store.StoreUserContact` | bagger-business/src/main/java/gov/loc/repository/bagger/jdbc/JdbcBagger.java:352-365 | Only inserts. A null contact or a failed insert is swallowed and leaves the tables and the log unchanged. Otherwise there is one new row and one INSERT. |
| `Store.StorePersonTwice` | bagger-business/src/main/java/gov/loc/repository/bagger/jdbc/JdbcBagger.java:232-254 | Storing a new person twice inserts once and then updates the same row. The log gains exactly those two statements and the table exactly one key. |
| `Batch.StorePersonStage` | bagger-business/src/main/java/gov/loc/repository/bagger/jdbc/JdbcBagger.java:387-390 | A null person is skipped. Otherwise the person is stored and written back into its contact, changed only in its id, with one person statement logged. An earlier exception passes through untouched. |
| `Batch.StoreOrganizationStage` | bagger-business/src/main/java/gov/loc/repository/bagger/jdbc/JdbcBagger.java:391-394 | The same for a contact's organization. |
| `Batch.StoreContactStage` | bagger-business/src/main/java/gov/loc/repository/bagger/jdbc/JdbcBagger.java:395-400 | The contact is stored with one contact statement logged. Then contactId (secondary contact) or profilePersonId (owner) is set to its id, and its row holds its columns. |
| `Batch.StoreProfileStage` | bagger-business/src/main/java/gov/loc/repository/bagger/jdbc/JdbcBagger.java:401-402 | A null project throws a null reference. Otherwise projectId is set from the project and the profile is stored, with its UPDATE or INSERT in the log. Its row holds the profile's columns, except that an updated row keeps its stored status and creation date. |
| `Batch.StoreProfileGraph` | bagger-business/src/main/java/gov/loc/repository/bagger/jdbc/JdbcBagger.java:373-378 | A profile without both contacts throws a null reference before anything is written. |
| `Batch.GraphStoredShape` | bagger-business/src/main/java/gov/loc/repository/bagger/jdbc/JdbcBagger.java:387-402 | A stored profile had every object present, and comes back with contactId, profilePersonId and projectId equal to the stored objects' ids. |
| `Batch.GraphStoredLog` | bagger-business/src/main/java/gov/loc/repository/bagger/jdbc/JdbcBagger.java:387-402 | Storing a profile appends exactly seven statements. They are on person, person, organization, organization, contact, contact and profile, in that order. |
| `Batch.GraphStoredRows` | bagger-business/src/main/java/gov/loc/repository/bagger/jdbc/JdbcBagger.java:398-402 | The stored profile row holds the profile's columns, with the status and creation date it had before when the row already existed. Its profile_person_id is the owner CONTACT's id, and the owner contact's row holds the owner. The statement logged for the profile carries the owner's PERSON id (lines 320 and 327). |
| `Batch.GraphStoredIffComplete` | bagger-business/src/main/java/gov/loc/repository/bagger/jdbc/JdbcBagger.java:373-402 | With no failing write, a profile is stored exactly when both contacts, their persons and organizations, and the project are present. |
| `Batch.NewGraphInserted` | bagger-business/src/main/java/gov/loc/repository/bagger/jdbc/JdbcBagger.java:387-402 | A complete profile whose ids are all unset is inserted whole: seven INSERTs in the fixed table order, and every object comes back with a generated key. |
| `Batch.GraphExtendsLog` | bagger-business/src/main/java/gov/loc/repository/bagger/jdbc/JdbcBagger.java:387-402 | Whatever happens to a profile, including an abort part-way, the statements already logged stay. |
| `Batch.StoreAll` | bagger-business/src/main/java/gov/loc/repository/bagger/jdbc/JdbcBagger.java:371-403 | The loop returns one stored profile per input when nothing throws, and fewer otherwise. |
| `Batch.StoreAllKeysDerived` | bagger-business/src/main/java/gov/loc/repository/bagger/jdbc/JdbcBagger.java:396-401 | Every profile the batch stored has its foreign keys re-derived from its stored objects, and keeps its username and project. |
| `Batch.StoreAllExtendsLog` | bagger-business/src/main/java/gov/loc/repository/bagger/jdbc/JdbcBagger.java:371-403 | A batch only appends to the log, whether it finishes or aborts. |
| `Batch.StoreAllLogLength` | bagger-business/src/main/java/gov/loc/repository/bagger/jdbc/JdbcBagger.java:371-403 | A batch that finishes logs exactly seven statements per profile. |
| `Batch.AbortSkipsRest` | bagger-business/src/main/java/gov/loc/repository/bagger/jdbc/JdbcBagger.java:370-409 | After the first exception no further profile is looked at. |
| `Batch.StoreAllAppend` | bagger-business/src/main/java/gov/loc/repository/bagger/jdbc/JdbcBagger.java:371-403 | Storing two lists in one batch is storing the first, then the second from the state the first left. |
| `Batch.Message` | bagger-business/src/main/java/gov/loc/repository/bagger/jdbc/JdbcBagger.java:407 | getMessage() of the exception: the UnsupportedOperationException's own text, and "null" for a runtime null dereference, which has no message on the Java versions this code targets. |
| `Batch.Write` | bagger-business/src/main/java/gov/loc/repository/bagger/jdbc/JdbcBagger.java:414-436 | No IOException means a null message and the file `bagger.sql` in the home directory. That file is empty exactly for an empty log and otherwise ends in a newline. An IOException gives "JdbcBagger.write: " plus its message and no file. |
| `Batch.WriteRoundTrip` | bagger-business/src/main/java/gov/loc/repository/bagger/jdbc/JdbcBagger.java:422-427 | Reading the file back line by line gives the log whenever no statement is empty or contains a line break. |
| `Batch.StoreBaggerUpdates` | bagger-business/src/main/java/gov/loc/repository/bagger/jdbc/JdbcBagger.java:368-411 | The message is null exactly when nothing threw and the write worked. An exception gives "JdbcBagger.storeBaggerUpdates exception: " plus its message and skips the write. A file is written exactly when the message is null, and it holds the whole log. |
| `Batch.RenderingKeepsPrefix` | bagger-business/src/main/java/gov/loc/repository/bagger/jdbc/JdbcBagger.java:422-427 | The file of a longer log starts with the whole file of any log it extends. |
| `Batch.LogNeverCleared` | bagger-business/src/main/java/gov/loc/repository/bagger/jdbc/JdbcBagger.java:69 | The file a later call writes starts with the whole file an earlier call wrote, even when calls in between aborted. |
| `Queries.LoadProfiles` | bagger-business/src/main/java/gov/loc/repository/bagger/jdbc/JdbcBagger.java:123-127 | Succeeds exactly when every id loads, giving one loaded profile per id in order. Otherwise the error is that of the first id that does not load. |
| `Queries.SelectDistinct` | bagger-business/src/main/java/gov/loc/repository/bagger/jdbc/JdbcBagger.java:109-129 | A query scans each row once, so no id comes back twice. |
| `Queries.FindProfiles` | bagger-business/src/main/java/gov/loc/repository/bagger/jdbc/JdbcBagger.java:118-129 | Fails exactly when a matching row does not load in full. Otherwise the result is exactly the rows with status 'A' and that username, one per row, none twice, in query order. Each result is what loadProfile returns for its id: the row's columns and the resolved contacts and project. |
| `Queries.LoadProjects` | bagger-business/src/main/java/gov/loc/repository/bagger/jdbc/JdbcBagger.java:138-142 | Succeeds exactly when every linked project exists, giving one project per link in order. Otherwise the error names the first missing project. |
| `Queries.FindProjects` | bagger-business/src/main/java/gov/loc/repository/bagger/jdbc/JdbcBagger.java:132-144 | Fails exactly when some person_projects row of the person links a missing project. Otherwise the result has one project per such row, in query order, with that row's project id and name. |
| `Queries.FindOrganizations` | bagger-business/src/main/java/gov/loc/repository/bagger/jdbc/JdbcBagger.java:109-115 | Every organization returned has a name starting with the given text and carries its row. Every organization whose name starts with it is returned, exactly once, in the order the query returned the rows. |
| `Queries.OrganizationsFollowScanNotName` | bagger-business/src/main/java/gov/loc/repository/bagger/jdbc/JdbcBagger.java:110-111 | With "Libb" stored before "Liba", a search for "Lib" returns "Libb" first: the result is not sorted by name. |

## Left out

- Spring JDBC and transactions (`SimpleJdbcTemplate`, `SimpleJdbcInsert`, `@Transactional`, bean-property mapping). They are replaced by maps from id to row and a fault script for write failures, so no rollback is modelled.
- Logging and `printStackTrace`, which have no effect on results.
- `refreshCache` and its cached organization list, and `getOrganizations` and `getProjects`. These are outside the modelled operations.
- The unused `createProfileParameterSource`.
- Object identity. Entities are values: when a store changes an object's id, the change is written back to the profile that holds it. A Person object shared between two contacts is stored twice, as two separate values.
- Store.StorePerson, Store.StoreOrganization, Store.StoreContact, Store.UpsertProfile: ids are unbounded integers. `newKey.intValue()` truncation to 32 bits is not modelled, because the generator never gets near 2^31 in any realistic table.
- Store.UpsertProfile: the INSERT statement in the log always carries status 'A' and the date 2008-09-18, while the row gets the profile's own status and date. The model keeps that difference: `Store.ProfileValues` renders the constants, and the row holds `ProfileColumns(p)`. The date is kept as text; no date type or formatting is modelled.
- Store.StoreContact: the entity classes (Contact, Person, Organization, Profile) are not part of this model. Their getters, such as `getPersonId` and `getOrganizationId`, are taken to be plain fields. So the contact row's person_id and organization_id are the contact's own fields, not values read from its nested objects.
- Null String fields are not modelled. Every name, username or status is a string, possibly empty. In Java a null String would be logged as the text `null` inside the quotes, while the row would store SQL NULL.
- Batch.Message: the descriptive NullPointerException messages of JDK 15 and later are not modelled. On those runtimes the message after "exception: " names the null expression instead of reading "null".
- Batch.StoreAll: when a profile's stores abort part-way, the objects of that profile that were already given new ids are not returned. Only the state, including the log, is.
- SQL escaping. Values are inlined between quotes without escaping, exactly as the code does, so a value with a quote or a line break yields a statement that does not replay as intended. `Batch.WriteRoundTrip` requires statements free of line breaks.
- File I/O. `write` produces the file's directory, name and content, or the IOException's message. An IOException in the middle of writing, after part of the content has been written, is not distinguished from one at opening.
- Queries.FindOrganizations: `name like ?` with `name + "%"` is modelled as a prefix test. `%` or `_` inside the given name would act as wildcards in SQL, and that is not modelled.
- Queries.FindProfiles: the rows the query returns are modelled by their ids. The row mapper's other columns are replaced by the loaded profile at once, as the loop does.
- The database's scan order for queries without ORDER BY is a parameter: any duplicate-free listing of the table's ids.
- Retriever.Fetch: the outcome follows the code as written (`Retriever.Plan`). What a tool does with the extra operand is not modelled; its exit status is an input either way.
- parallelretriever.py:
  - threads, queues, `ProgressReporter`, `os.makedirs`, `shutil.copy`, `OptionParser`, `generate_package_identifier` (clock) and `readlines`;
  - the subprocesses and `urllib2` themselves. A tool's exit status is an input, and the copy loop for `file` URLs is taken to end with code 0.
- An exception raised inside a worker thread (the "unexpected url type" exception) ends that worker. This is modelled as the `UnexpectedUrl` outcome.
- `ConfigurationFactory.findPropertyResourceList`, `ClassPathResource` and `setLocations`. The URL list found is an input, and the locations are the output. `ConfigurationFactory` is not part of this model.
- `BagInfoField.toString`, which depends on Java's formatting of lists and booleans.
- `LoginController` and `BaggerLogin`: servlet and GUI plumbing with no logic to state.

## Findings

| source | as written | input that shows it | evidently intended | confidence | as-written member | corrected member |
|---|---|---|---|---|---|---|
| utilities/parallelretriever.py:103-107 | `subprocess.call(["wget", "wget", "-q", "-O", filename, url])`, and the same for rsync: the program name is listed twice, in the style of `os.spawnlp` | any http or rsync URL. The tool receives its own name as an extra operand (wget tries to fetch a URL "wget"; rsync sees "rsync" as an extra source) | the program name once: `["wget", "-q", "-O", filename, url]` and `["rsync", "-ar", url, filename]` | not executed | `Retriever.AsWrittenPassesProgramNameAsOperand`, `Retriever.Plan` | `Retriever.ToolArgv`, `Retriever.IntendedPlan` |
