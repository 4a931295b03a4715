# A verified model of the committed database service

The service keeps tables as numbered batch files with one commitment per table, extends the
commitment on every insert, answers SQL with proofs over the data, and lets anyone check a saved
answer against the commitments on disk. This project models that machinery in Dafny and proves
when its parts agree: the commitment with the data, the names with the order, concurrent requests
with one request at a time, the cached setup with the ceremony, sums in a prime field with sums of
integers, and a saved answer with a directory that has moved on.

## How the model is built

- **Disk.** A disk maps each table's directory to its files. Creating, truncating and filling a
  file are separate actions, so a half-written batch or commitment (`Torn`) is a state like any
  other. An operation is a script of actions fixed by what it reads; `Store.Db` carries it out
  action by action and records every state it passes through. A history is a list of events, each
  an operation, the setup size it ran under and the action it stopped at. Failed writes, kills and
  appends that give up after the batch file are all events stopped early.
- **Commitments.** Group elements are named by their discrete logarithm, which makes the group of
  prime order the integers modulo that prime: a commitment is a row count and, for each column, the
  sum of value times setup point. Nothing about appending is assumed.
- **Layout.** A directory is shown to be an ordered list of files plus a commitment slot. Names,
  padding, sorting and name counting are proved to behave as that list does.
- **Handlers.** Each request is a thread with a program counter. Under the lock a step is one disk
  write, or the reading of one table, commitment or schema, or the checks an insert begins with; any
  step may fail. A schedule is any list of steps.
- **Sessions.** A server is started on any disk, under a setup of any size, and killed at any step of
  any schedule; the next one starts on what is left.
- **Proofs of queries** are ideal: a proof records its plan, the commitments to the very data it was
  computed over, and its result, and holds for exactly that plan and those commitments.
- **Machine words.** `usize` arithmetic wraps at 2^64, as release builds do.

## What comes out

- A table's commitment is the commitment to the data read back exactly when no event parted the
  two, for any history, stopped anywhere, of a table of up to a million files
  (`Consistency.CommitmentMatchesData`), and over any number of restarts under setups of any sizes
  (`Sessions.RestartsMatchIff`). An insert parts them unless it does nothing, finishes, or stores an
  empty batch whole; nothing later mends it.
- The plainest way to part them is to run out of setup: an accepted insert fails half way exactly when
  committed rows plus new rows pass the capacity (`Consistency.AppendFailsIff`), never for a schema,
  and then the table is parted exactly when the batch has rows (`Consistency.FullInsertKeepsMatchIff`).
- For tables past a million files this guarantee is gone, even for histories without a fault
  (`PastLimit.MatchesUpToLimitOnly`): the name of batch 1000000 sorts before that of batch 100001.
- Every interleaving of handlers is explained by its log, one request at a time
  (`Handlers.EveryInterleaving`), and each query answer shows a single state
  (`Handlers.QuerySeesOneState`).
- A response verifies, whoever made it and with a directory or without, exactly when each table's
  commitment is given and its proof is of this SQL under those commitments (`Verdicts.VerdictIff`);
  one answered for another SQL does exactly when both plan alike (`Verdicts.OtherSqlVerifiesIff`).
- An insert that replies Created has stored exactly the rows sent, after those that were there
  (`Replies.LoggedInsertStores`), and no request is ever stuck (`Completion.NeverStuck`).
- An answer served over tables that no earlier write had parted verifies later exactly when nothing
  since committed a row to, or tore the commitment of, a table it reads
  (`Service.ServedResponseVerifiesIff`), across restarts too (`Sessions.ResponseOutlivesIff`). For a
  parted table this is false: an insert retried in full can make an answer verify that did not before
  (`Queries.RetriedInsertVerifies`).

Where code and documentation differ, the code is followed:

- `src/prove.rs:75-77` says the `expect` on column types cannot fire because the table's commitment
  was built. The batch is written before the commitment is, so a table created below the handlers
  with an unprovable type is stored, and proving over it panics (`Schemas.UnprovableTable`). Proving
  panics exactly when all the data reads back and a stored schema, which can be asked for first, has
  such a type (`Schemas.ProvingPanicsIff`); over histories, exactly when a table was created with one
  (`Schemas.HistoryPanicsIff`). Such a table never has a commitment
  (`Schemas.UnprovableIsUncommitted`), and through the handlers none arises
  (`Schemas.NoSchemaFailures`).
- `src/prove.rs:152-153` says coercion leaves the column count unchanged; pairing columns with fields
  drops columns past the last field (`Coerce.RebuildNeverFails`, `Coerce.ColumnsPastFieldsLost`).
  `query` itself passes the fields of the plan whose result it coerces, so their counts match.
- `src/cli.rs:126` calls the capacity the smallest power of two covering the rows; beyond 2^63 rows it
  wraps to nothing, and beyond 2^58 a cache that is there answers with no powers at all
  (`SetupCache.CapacityIsLeast`, `SetupCache.CacheHitIff`).

## Modules

`Results` and `Arithmetic` hold helpers; `Names`, `Commitments`, `Columns`, `Store` and `Layout` the
store; `History`, `Invariants`, `Consistency` and `PastLimit` its histories; `SetupCache` the setup
codec and cache; `Coerce` the field-to-integer step; `Queries` answering and verifying; `Handlers`,
`Service`, `Schemas` and `Sessions` the running and restarted service; `Verdicts`, `Replies` and
`Completion` say what is answered, verified, replied and finished in terms of the data, the engine
and the requests alone.

## Model

| member | source | states |
|---|---|---|
| Names.Listing | src/db.rs:212-220 | a directory's names in byte order, each exactly once |
| Names.SortedIsInsertionOrder | src/db.rs:212-225 | sorted batch names are in insertion order exactly for up to a million batches |
| Names.BatchNameInjective | src/db.rs:223-225 | no two indices share a file name, beyond the padded range too |
| Names.BatchNameReads | src/db.rs:223-225 | a batch file is named by its index in decimal, in at least six digits, and the extension |
| Names.FirstListed | src/db.rs:119 | the first file sorted is batch 0, however many there are |
| Commitments.AppendIsCommit | src/db.rs:124-127 | extending a commitment by a batch at the running offset is committing to all rows afresh |
| Commitments.AppendUnderAnySetup | src/db.rs:124-127 | the extension is the same under every setup large enough, whatever sizes came before |
| Commitments.OneRowContribution | src/db.rs:97 | a row gives each column its own cell times the point at that row |
| Commitments.ChangedCellCommits | src/db.rs:124-127 | changing a cell moves its own column's sum by the difference times the point at its row, no other column's, and keeps the commitment only if that product vanishes |
| Commitments.CommitmentToIsDot | src/db.rs:97 | a commitment is the columns, the row count and per column its inner product with the ceremony's powers, over the integers, reduced once |
| Store.Db.Write | src/db.rs:233-238 | a file is first there and unreadable, then whole |
| Store.Db.CreateTable | src/db.rs:85-101 | directory, empty batch and first commitment in that order, each state on the way recorded; an existing table is refused untouched |
| Store.Db.Insert | src/db.rs:108-129 | checks, then the batch file under the next index, then the extended commitment, each state on the way recorded |
| Layout.ChunksRoundTrip | src/db.rs:240-246 | a batch read in chunks and concatenated is the batch written, an empty one included |
| Layout.WriteBatchFile | src/db.rs:223-238 | writing under the next index appends to the table's files; writing under a used one replaces just that file |
| Layout.PathsInOrder | src/db.rs:212-220 | readers meet a table's files in insertion order exactly up to a million |
| Layout.SchemaIsBatchZero | src/db.rs:149-156 | the schema read is that of batch 0, or the table is empty or its first file unreadable |
| Layout.ReadsBackInOrder | src/db.rs:179-191 | up to a million files, a table reads back as all its batches in insertion order |
| History.InsertActions | src/db.rs:114-128 | which of the four writes an insert asks for, and with which result |
| History.InsertEffect | src/db.rs:118-128 | the table after any number of an insert's disk actions |
| History.CreateEffect | src/db.rs:91-100 | the table after any number of a creation's disk actions |
| Invariants.EventEffect | src/db.rs:85-129 | an operation stopped anywhere changes nothing but its own table, which it moves to the matching stage |
| Invariants.GoodRun | src/db.rs:114-128 | after every history files are numbered without gaps and a readable commitment is that of a subsequence of the stored batches, in order |
| Consistency.PausesAreEvents | src/db.rs:85-129 | each state a database operation passes through is one of an interrupted history, and so keeps the invariant |
| Consistency.ReportsTruthfully | src/db.rs:108-129 | an operation reports success exactly when it stores a commitment; any failure but the two late ones does nothing |
| Consistency.RefusedInsert | src/db.rs:114-124 | the six refusals of an insert, in order, each leaving the disk as it was |
| Consistency.EventKeepsWhole | src/db.rs:124-127 | one operation leaves commitment and data agreeing exactly when they agreed and it finished, did nothing, or stored an empty batch whole |
| Consistency.WholeByCounting | src/db.rs:114-128 | a commitment to as many rows as are stored is the commitment to them |
| Consistency.WholeIffClean | src/db.rs:114-128 | over any history commitment and data agree exactly when no operation parted them; nothing later mends it |
| Consistency.CommitmentMatchesData | src/db.rs:85-129 | the same for what readers get back, from an empty database, up to a million files |
| Layout.ReadsBackIff | src/db.rs:179-191 | a table of one schema reads back exactly when each file is whole, however many there are |
| Layout.ConcatIff | src/db.rs:184-190 | batches concatenate exactly when their column types agree in order, and then to all rows in order |
| Consistency.DataReadable | src/db.rs:179-191 | after every history data reads back exactly when every file is whole, and up to a million files it is every row in order |
| Consistency.AppendFailsIff | src/db.rs:126 | an insert carried to its end fails at the append exactly when it passes its checks and committed rows plus new rows exceed the capacity |
| Consistency.FullInsertKeepsMatchIff | src/db.rs:108-129 | up to a million files, an insert carried to its end parts a matching table exactly when it is accepted, brings rows and has no room for them |
| Consistency.FreshIndex | src/db.rs:118-125 | in every reachable state the files are exactly the indices below their count, which is thus unused |
| Consistency.AppendOnly | src/db.rs:103-129 | no history loses, changes or reorders a stored batch |
| Consistency.OthersUntouched | src/db.rs:205-208 | an operation on one table leaves others' files, data and commitments alone |
| PastLimit.MatchesUpToLimitOnly | src/db.rs:211-225 | clean histories guarantee matching data for tables of n files exactly when n is at most a million |
| SetupCache.CapacityIsLeast | src/cli.rs:126-137 | capacity is the least power of two covering the rows, with an exact logarithm, exactly up to 2^63 rows |
| SetupCache.PtauFileFits | src/cli.rs:131-137 | the file is named after the exact power in two digits, and holds the powers wanted and fewer than twice as many; no other capacity names it |
| SetupCache.LimitAdmitsIff | src/setup/prover.rs:59-61 | the byte limit admits every file of 576 bytes a power, under twice the powers asked for and a header of up to 1 MiB, exactly for capacities up to 2^53, and then not every file of twice one power more |
| SetupCache.EncodedAt | src/setup/prover.rs:81-90 | each point's encoding is where its index says, and nothing else is in the file |
| SetupCache.ToCompressed | src/setup/prover.rs:81-90 | the bytes are every point's encoding in order |
| SetupCache.TruncatedReadIff | src/setup/prover.rs:93-100 | from an encoding cut at any byte, a read gives the powers wanted or says how many there are, exactly when its byte count does not wrap into the file |
| SetupCache.SetupFile.ResolveSetup | src/cli.rs:141-154 | serves from the cache, or downloads and overwrites it when it is missing or too small, and otherwise fails leaving it |
| SetupCache.SetupFile.SetupCommand | src/cli.rs:245-251 | downloads and writes the capacity asked for over whatever was there |
| SetupCache.EveryCallAgrees | src/cli.rs:141-154 | over any calls for any row counts, with failed downloads and writes torn at any byte, the cache stays a prefix of the ceremony and every success returns its first powers: as many as the capacity asked for, except none from a cache read of more than 2^58 rows |
| SetupCache.CallEnds | src/cli.rs:141-154 | how a call ends and what it leaves in the cache, from any cache: an unreadable one refuses, a long enough one serves, and otherwise the download decides |
| SetupCache.EveryCallEnds | src/cli.rs:141-154 | over any calls, exactly which succeed, with which powers, and why each other one fails |
| SetupCache.SmoothSucceeds | src/cli.rs:141-154 | an undisturbed call of up to 2^58 rows succeeds with exactly its capacity of powers, at least one for each row |
| SetupCache.CacheHitIff | src/cli.rs:144-147 | a cache hit covers the rows asked for exactly up to 2^58 of them |
| SetupCache.RestartKeepsCommitments | src/cli.rs:141-154 | extending under the setup of another run gives the commitment either setup gives from the start |
| SetupCache.DownloadsBounded | src/cli.rs:127-154 | undisturbed calls download at most log2 of the largest capacity plus one times, and under twice that capacity in all |
| Coerce.AllOrNothing | src/prove.rs:154-171 | coercion fails exactly when a scalar column under an integer field holds a value out of range, and otherwise changes only those columns' representation |
| Coerce.RebuildNeverFails | src/prove.rs:170 | rebuilding the table cannot fail; columns are all kept exactly when there are enough fields |
| Coerce.RangesAreWidths | src/prove.rs:185-191 | each integer type's range is that of its width, unsigned for Uint8 alone |
| Coerce.ColumnsPastFieldsLost | src/prove.rs:158-170 | with fewer fields than columns a column is lost and success reported |
| Coerce.FieldSumExactIff | src/prove.rs:174-195 | summing in the field and coercing is exact unless a value a nonzero multiple of the modulus away from the sum lies in the type |
| Coerce.BoundedSumExact | src/prove.rs:142-150 | with rows times largest magnitude under half the modulus, exactly the sum or an overflow, never a wrapped value |
| Coerce.MachineSumExact | src/prove.rs:142-150 | so for every column of machine integers up to 2^125 rows |
| Coerce.MachineSumExactIff | src/prove.rs:142-150 | the exact row count up to which every column of one integer type sums safely into another |
| Queries.VerifyProofIff | src/verify.rs:52-78 | a proof over some tables verifies against commitments to them exactly when they are the commitments to that data |
| Queries.MissingIsFirst | src/verify.rs:62-66 | the table reported unknown is the first one the SQL refers to that is not pinned |
| Verdicts.ProofVerdict | src/verify.rs:52-78 | any proof verifies against any commitments exactly when it is for what the SQL plans to under them and for those of the tables the SQL refers to; what comes out is its own result |
| Verdicts.UnprovedBecause | src/verify.rs:52-78 | which error any other proof gives, in the order the reasons are met |
| Verdicts.VerdictIff | src/cli.rs:170-211 | which responses of any origin verify, with a directory or without: every table's commitment is given and the proof is of this SQL under them |
| Verdicts.RefusedBecause | src/cli.rs:170-211 | which error any other response gives |
| Verdicts.OtherSqlVerifiesIff | src/cli.rs:170-211 | a response answered for one SQL verifies under another exactly when its tables are pinned, the other refers only to tables among them pinned as proved, and both plan alike |
| Verdicts.AnsweredIff | src/api/query.rs:81-116 | a query is answered exactly when its data reads, can be proved, planned and evaluated, its commitments read and no result overflows; the answer carries the engine's result over that data, each column read at its declared type |
| Verdicts.UnansweredBecause | src/api/query.rs:81-116 | which error any other query gives, in the order the reasons are met |
| Queries.PinContents | src/cli.rs:179-184 | pinning succeeds exactly when every table's commitment can be read, and gives just those |
| Queries.PinnedVerdict | src/cli.rs:175-205 | with pinned commitments, only the proof and the table keys of a response matter, not its rows, commitments or counts; key order only picks which unpinnable table is reported |
| Queries.VerifiesIffPinned | src/cli.rs:170-211 | a response verifies against a directory exactly when each of its tables is pinned to the commitment of the data proved over |
| Queries.VerifiesWhereProved | src/api/query.rs:82-87 | a response over tables of up to a million files verifies where it was proved exactly when as many rows are committed as are stored |
| Queries.CommitmentKeptIff | src/db.rs:124-127 | over a history a commitment stays as it was exactly when no event added rows to it or tore it; otherwise it has more rows or is unreadable |
| Queries.SavedResponseVerifiesIff | src/cli.rs:170-211 | a response proved where its tables matched their commitments verifies against any later state exactly when no event committed rows to, or tore the commitment of, those tables |
| Queries.RetriedInsertVerifies | src/db.rs:125-127 | without that hypothesis it is false: after an insert cut off before its commitment a response does not verify, and does once the insert is repeated in full |
| Queries.SelfReportedProvesNothing | src/cli.rs:185-197 | without pinned commitments a response over any tables at all verifies |
| Handlers.AdvanceProgress | src/api/rows.rs:59-69 | each write, read or computation under the lock brings a request one step along what it does alone |
| Handlers.ReleaseKeeps | src/api/mod.rs:26-31 | giving up the lock, by finishing or failing, logs a request whose effect is on the disk |
| Handlers.EveryInterleaving | src/api/mod.rs:26-31 | every schedule keeps handlers apart and is explained by its log, requests one after another |
| Handlers.Linearizable | src/api/mod.rs:1-4 | each finished request replied as it would have alone at a moment between its arrival and its reply, or reported a failed access |
| Handlers.QuerySeesOneState | src/api/query.rs:81-116 | the data proved over, the result and the rows answered, the commitments and every row count of an answer describe one state |
| Completion.CarriesItsRequest | src/api/mod.rs:26-31 | a thread carries the request it arrived with, and was born when it arrived |
| Completion.RejectedReplies | src/api/tables.rs:73-84 | a request turned down before the lock is told what it would be on any disk |
| Completion.LeftAloneFinishes | src/api/mod.rs:26-31 | a waiting request left alone takes the lock and finishes with its own effect and reply |
| Completion.NeverStuck | src/api/mod.rs:26-31 | from every reachable state some further steps finish any request, whoever holds the lock |
| Replies.InsertReplies | src/api/rows.rs:53-70 | the reply to an insert, by the first thing wrong with the table or the rows sent |
| Replies.BadRowsIff | src/api/rows.rs:61-66 | rows are turned down exactly when the schema reads and they do not decode to rows of its width |
| Replies.CreatedInsertStores | src/api/rows.rs:53-70 | an insert that replies Created has put exactly the rows sent after those there, committed to as many more, and left other tables alone |
| Replies.RefusedInsertLeaves | src/api/rows.rs:53-70 | any other reply but that of a failed append means nothing was done |
| Replies.LoggedInsertStores | src/api/rows.rs:53-70 | the same of every completed insert in every interleaving |
| Replies.CreateReplies | src/api/tables.rs:68-91 | the reply to a creation: bad columns, a table already there, or created |
| Replies.CreatedTable | src/api/tables.rs:68-91 | a creation that replies Created has made an empty table of the columns asked for, committed to as such |
| Replies.ShowReplies | src/api/tables.rs:127-162 | the description of a table is of its commitment alone, or says which way reading that fails |
| Replies.ListReplies | src/api/tables.rs:100-114 | the tables, in byte order, each once |
| Replies.LoggedListing | src/api/tables.rs:100-114 | in every interleaving a listing gives the tables on the disk it met |
| Replies.QueryReplies | src/api/query.rs:77-116 | a query replies with its answer, or with why there is none, and does nothing to the disk |
| Replies.TableDataFails | src/db.rs:179-191 | reading a table fails as not found, empty or not a batch file, by the first thing wrong |
| Replies.CommitmentFails | src/db.rs:162-176 | reading a commitment fails as not found, missing or undecodable |
| Service.ReplayIsRun | src/api/rows.rs:53-70 | the logged requests are a database history |
| Service.UnlockedMatchesIff | src/api/mod.rs:26-31 | from any sound disk, whenever the lock is free, a table of up to a million files matches its commitment exactly when it did at the start, or was not there, and every write since was clean |
| Service.UnlockedMatches | src/api/mod.rs:26-31 | and so they do when every request was served to its end |
| Service.ServedResponseVerifiesIff | src/cli.rs:170-211 | from any sound disk, a response served over tables no earlier write had parted verifies at any later unlocked moment exactly when nothing logged since changed a commitment it rests on |
| Schemas.TypeRoundTrips | src/column.rs:17-50 | a type name is accepted exactly when supported, stored in as many bits as it says, and given back by its canonical name |
| Schemas.DescribedAsCreated | src/api/tables.rs:73-84 | columns are accepted exactly when all types are supported, and then described under the same names in order, by canonical type |
| Schemas.ShowDescribesTable | src/api/tables.rs:131-162 | a table is described with its data's columns, row count and commitment, read from the commitment alone |
| Schemas.DataConcatenates | src/db.rs:184-190 | a table's batches always concatenate, under the schema of batch 0, after every history |
| Schemas.NoSchemaFailures | src/api/rows.rs:58-68 | in every interleaving from any disk servers leave, no reply reports a mismatch, a failed concatenation or commitment, an undescribable column or an unprovable one, and an append fails exactly for want of room |
| Schemas.ProvingPanicsIff | src/prove.rs:99-116 | proving panics exactly when all the data reads back and some table's stored schema has an unprovable type |
| Schemas.SchemaIsCreated | src/db.rs:149-156 | a table's schema is that of the one creation that stored its first batch, after any history |
| Schemas.HistoryPanicsIff | src/prove.rs:99-116 | over histories, proving over data that reads back panics exactly when a table was created with an unprovable column |
| Schemas.UnprovableIsUncommitted | src/db.rs:97-99 | an unprovable column is only ever found in a table without a commitment |
| Schemas.UnprovableTable | src/prove.rs:107-109 | such a table can be created below the handlers, and proving over it panics |
| Sessions.SessionsAreRun | src/cli.rs:159-167 | any runs of the server, each killed at any step, are one database history |
| Sessions.RestartsAreServable | src/db.rs:79-82 | whatever a killed server leaves, the next can start on, and all its guarantees hold again |
| Sessions.RestartsMatchIff | src/cli.rs:159-167 | over runs under setups of any sizes, a table of up to a million files matches its commitment exactly when every write of every run was clean |
| Sessions.RestartsMatch | src/cli.rs:159-167 | and so it does when every run served its requests to their ends |
| Sessions.RestartsKeepSchemas | src/api/rows.rs:58-68 | the schema guarantees in any run, over whatever earlier runs left |
| Sessions.ResponseOutlivesIff | src/cli.rs:170-211 | a served response verifies against what later runs leave exactly when none of their requests changed a commitment it rests on |

## Left out

- Queries.ProveOver: the proof system is library code; a proof is a record of plan, commitments and result that holds for exactly those.
- Queries.Answer: parsing, planning and evaluating SQL are functions given from outside, one for each job.
- Queries.VerifyCommand: base64, bincode and JSON are blobs that decode as what was encoded or as nothing; a key that names no table fails like one with no directory.
- Commitments.Append: rejects rows past the setup; whether the library refuses or panics there is not visible, and either way the batch file is already written.
- SetupCache.Resolve: the download gives the powers asked for or fails, and point compression is any fixed-width encoding with a check (`SetupCache.DigitCodec` is one).
- Handlers.Next: the shared state is a value stepped by a transition function rather than an object with methods, since interleavings of method bodies cannot be stated otherwise; updates in place are modelled in `Store.Db` and `SetupCache.SetupFile`.
- Handlers.DecodeRows: decoding JSON rows is a function given from outside, refused when it yields rows of the wrong width.
- Coerce.TryInto: narrowing a field element reads it as the signed number nearest zero, as the library documents; its code is not part of this model.
- Parquet row groups, file metadata and column bounds in commitments: stored and read back whole, or not at all.
- Table references and directory names are the same strings, so parsing a reference and mapping it to a directory are not modelled.
- Store.CreateScript: commits to any schema of provable types; whether the library refuses two columns of one name, which `create` accepts, is not visible.
- Handlers.Advance: the files of one table are read in one step, as are the listing, first file and commitment an insert checks; only the lock holder touches the disk meanwhile.
- Queries.SavedResponseVerifiesIff: assumes each table matched its commitment where the response was proved; `Queries.RetriedInsertVerifies` shows the equivalence fails otherwise.
- HTTP routes, status codes, command-line parsing, printing and the server loop.
- The verifier key and its constant, in `src/setup/verifier.rs`.
