# A verified model of reactivesearch-api

reactivesearch-api sits in front of Elasticsearch. This project models the parts of it that compute
or coordinate something over plain data, and proves what they keep, preserve or refine. It is
written in Dafny 4.11; `dafny verify dfyconfig.toml` checks all of it.

| file | models |
|---|---|
| Strings.dfy, Text.dfy, Stopwords.dfy | strings.Split / Join, strconv.Itoa / Atoi, white space, normalizeValue, sanitizeString and removeStopwords |
| SourceFilter.dfy | flattening a document to dotted keys, filtering the keys, rebuilding the tree |
| EsQuery.dfy, TermRange.dfy | a fragment of the Elasticsearch query language with an evaluator; term and range queries |
| React.dfy, Translate.dfy | the react property, the merge of query options, msearch emission, pairing of responses |
| Auth.dfy | the credential and password caches in front of Elasticsearch and bcrypt, and their sync scripts |
| RequestLogs.dfy | the WaitGroup-and-channel protocol of request logs, its drain loop and the table of active requests |
| Reindex.dfy | reindexing in place: index names, aliases, alias caches, and every way a call can fail |
| Matching.dfy, ResponseTree.dfy | the score of a suggestion; the search of a hit for suggestion texts |
| FirstOfKey.dfy, Predictive.dfy, Ranking.dfy | predictive suggestions, stable ranking, one suggestion per document |

Code that updates state step by step is a class or a method with loops, proved equal to a
specification function; what the program promises is then proved about the specification. Go's
map iteration is an arbitrary order, foreign libraries (regular expressions, bcrypt, JSON encoding,
stemming, cleaning a text of stopwords, fuzzy ranking, HTML stripping) are function parameters with no assumptions
unless a lemma states one, a Go panic is a `None` or a result that is not ok, and Elasticsearch
is a small state.

## What the proofs show about the code

Where a promise does not hold for every input, a lemma says exactly when it does.

- Rebuilding a flattened document gives the document back, in every iteration order, if and only if
  it has no empty container, no key with a dot and no key that strconv.Atoi accepts
  (`SourceFilter.RoundTripsIffClean`).
- The ids of the emitted msearch pairs are the ids that responses are stored under if and only if no
  query that is not a suggestion query has an endpoint with enableEndpointSuggestions set to false
  and execute not set to false (`Translate.IdsLineUp`). One such query in front of an ordinary one:
  its response is stored under the other (`Translate.DivergentTakesResponse`).
- validate shows the right ids if and only if the user tag has no underscore, or nothing was executed
  (`Translate.ValidateReadsBack`).
- The caches agree with Elasticsearch over every run without renames; a renaming patch, a POST over
  a name that the same or the other index has, and a patch or delete on a proxied node each break
  that exactly when the caches hold something stale for the name (`Auth.RenameKeepsIff`,
  `Auth.PostKeepsIff`, `Auth.ProxiedPatchKeepsIff`, `Auth.ProxiedDeleteKeepsIff`;
  `Auth.StalePasswordAfterRename` is such a run; patches that rename a permission are rejected).
  The sync scripts restore agreement unless the node knows a name that both indices have, or a
  password is cached without its credential (`Auth.SyncRestoresCoherence`); they drop a name that changed from user to permission or back
  (`Auth.SyncIsRestriction`). A request with a JWT role caches a permission under the empty name;
  the permissions script then caches that permission's own name as well and leaves the entry as it
  is (`Auth.JwtEntryAddsName`), and the order of the scripts matters exactly when that permission
  hides an outdated user of its name (`Auth.SyncOrderFreeIff`).
- A failing synchronous reindex keeps the source if and only if the delete did not take effect. If
  it did, the clean-up deletes the successor too: the documents are left only if the clean-up itself
  is refused (`Reindex.FailureOutcome`). A refused call for the replicas is enough to lose both
  copies, with the alias cache still naming the second (`Reindex.ReplicasFailureLosesDocuments`).
- A run for the data alone accepts a successor that exists. Repeated runs that copy the documents
  as they are leave them unchanged if and only if no such successor held a document that the index
  does not have (`Reindex.DocumentsUnchangedIff`); `Reindex.DataOnlyMixesLeftover` is a run that
  mixes documents although every call succeeds, and `Reindex.LeftoverSurvivesIff` says when a failed
  run deletes such a successor.
- Of the aliases of the source a successful run keeps only one, on a first run its own name; an
  alias of the source alone ends up standing for nothing (`Reindex.AliasesAfterRun`,
  `Reindex.OtherAliasLost`). The comment above Reindex (model/reindex/dao.go:78) promises to add the
  others too.
- The asynchronous run never deletes both copies (`Reindex.AsyncKeepsDocuments`), but its polling
  loop blocks for good if and only if completion is reported a second time before the channel is
  read (`Reindex.PollerMeaning`, with runs in `Reindex.SecondCompletionBlocks`).
- The before/after table of a request is independent of the order of arrival if and only if no two
  different results belong in one cell (`RequestLogs.TableOrderFreeIff`).
- The search of a hit panics exactly when an array at the last component of the field holds an
  object before any matching string (`ResponseTree.PanicsIff`); an array of one object at a field
  without dots is such a hit (`ResponseTree.ArrayOfObjectsPanics`).
- Suggestion labels, which the comment in the source calls unique, are so whenever no text has
  quotes (`ResponseTree.NoQuotesUnique`), and for every list of texts if and only if quotes never
  change a label (`ResponseTree.LabelsUniqueIff`). For one given list they are unique if and only if no
  text comes up whose own label is new by then while that of its unquoted form is not
  (`ResponseTree.LabelsUniqueForIff`). One string at a field without dots is enough to show two equal suggestions
  (`ResponseTree.TopLevelStringTwiceIff`).
- Without stopwords every suggestion with a word in its label gets a prediction
  (`Predictive.AlwaysPredicts`). With them one is dropped, even if a word could follow its match,
  when the words before the match are all stopwords (`Predictive.DroppedIff`,
  `Predictive.StopwordsDropSuggestion`).
- normalizeValue is applied twice to the query; the second time changes nothing exactly when no token
  between blanks hides a lone special character behind other white space
  (`Text.NormalizeTwiceIff`).
- In a react array an element that is not a string drops the ids collected so far, and an array
  of ids outside and / or / not means none of them; the model follows the code
  (`React.ReactMeaning`).

## Model

| member | source | states |
|---|---|---|
| SourceFilter.DotMap.DotNotate | model/sourcefilter/sourcefilter.go:96-137 | the shared target map gains exactly the leaves of the source under dotted keys; on a collision any of the colliding leaves may win |
| SourceFilter.GenerateMap | model/sourcefilter/sourcefilter.go:149-225 | working on the dotted string, inserts the value at the path of its tokens; a negative index into an array panics |
| SourceFilter.MakeSpace | model/sourcefilter/sourcefilter.go:180-182 | pads an array with nulls up to the wanted length |
| SourceFilter.DotNotationToMap | model/sourcefilter/sourcefilter.go:249-255 | rebuilds by inserting every entry once, in whatever order the map is iterated |
| SourceFilter.IsValidKey | model/sourcefilter/sourcefilter.go:23-54 | a key is valid iff an include pattern, its stars widened, matches the key without inner array positions (or all fail to compile, or there are none) and no exclude pattern does |
| SourceFilter.StripMeaning | model/sourcefilter/sourcefilter.go:25-28 | the text that patterns see is the key without the numeric tokens that have a token on both sides and do not directly follow one that is left out |
| SourceFilter.WidenMeaning | model/sourcefilter/sourcefilter.go:32 | every star of a pattern becomes ".*", and nothing else changes |
| SourceFilter.ApplySourceFiltering | model/sourcefilter/sourcefilter.go:14-61 | without patterns the source itself; otherwise a rebuild, in some order, of the entries whose key passes |
| SourceFilter.InsertPrune | model/sourcefilter/sourcefilter.go:149-225 | putting one more leaf of a tree into its pruning to a set of leaves gives its pruning to the larger set |
| SourceFilter.FlattenedIsFlatOf | model/sourcefilter/sourcefilter.go:96-137 | a tree without dotted keys flattens to exactly its leaf paths, joined, with their values: no collisions |
| SourceFilter.RebuildIsPrune | model/sourcefilter/sourcefilter.go:249-255 | every order of inserting leaves of a clean tree gives the tree pruned to them, padded array slots included |
| SourceFilter.PruneAll | model/sourcefilter/sourcefilter.go:249-255 | keeping every leaf keeps a tree without empty containers whole |
| SourceFilter.PruneKeeps | model/sourcefilter/sourcefilter.go:149-225 | a pruned tree has every kept leaf at its path with its value |
| SourceFilter.PruneOnly | model/sourcefilter/sourcefilter.go:149-225 | a pruned tree has no other leaf except null padding before a kept array element |
| SourceFilter.FilterIsPrune | model/sourcefilter/sourcefilter.go:14-61 | on clean documents filtering never panics and gives one and the same tree for all iteration orders |
| SourceFilter.FilterKeepsExactly | model/sourcefilter/sourcefilter.go:14-61 | filtering keeps every leaf whose path passes, in place, and adds nothing but nulls in array slots before a kept one; whether a path passes is stated on its tokens |
| SourceFilter.CleanRoundTrips | model/sourcefilter/sourcefilter.go:96-255 | for clean documents rebuilding undoes flattening in every pair of iteration orders |
| SourceFilter.RoundTripsAreClean | model/sourcefilter/sourcefilter.go:96-255 | only clean documents survive the round trip in every order |
| SourceFilter.RoundTripsIffClean | model/sourcefilter/sourcefilter.go:96-255 | the two together: the exact domain of the documented inverse |
| EsQuery.ShouldMatches | plugins/querytranslate/util.go:839-864 | a bool query of should clauses with minimum_should_match 1, or without must clauses, matches iff some clause does |
| TermRange.PivotRow | plugins/querytranslate/term.go:50-63 | one term clause per field for the parts of a pivot value, surplus parts dropped |
| TermRange.SplitsAtFirst | plugins/querytranslate/term.go:52 | a pivot value is split at the first separator, and the rest likewise |
| TermRange.SplitsWhole | plugins/querytranslate/term.go:52 | a value without the separator is one part |
| TermRange.GenerateListQuery | plugins/querytranslate/term.go:44-143 | builds the query for a list of values: pivot facets, terms with the missing label, or all of them |
| TermRange.GenerateTermQuery | plugins/querytranslate/term.go:10-170 | refines the functional form of the whole term compiler, errors included |
| TermRange.TermQueryMeaning | plugins/querytranslate/term.go:10-183 | there is no query iff there is no value, an error iff no field, and otherwise the query matches exactly the documents that a set-style reading of the filter accepts, with pivots, OR / AND, missing label, select-all label and nested field |
| TermRange.GenerateRangeQuery | plugins/querytranslate/range.go:114-162 | refines the functional form of the range compiler, single and multiple |
| TermRange.RangeOfMeaning | plugins/querytranslate/range.go:48-112 | one range matches exactly the documents with a value between the given bounds, or without the field when nulls are included |
| TermRange.RangeQueryMeaning | plugins/querytranslate/range.go:48-162 | a query is made iff every range has a bound, and it matches exactly the union of the ranges |
| TermRange.RangeClause | plugins/querytranslate/range.go:48-112 | the clause keeps bounds and boost; a query format other than and / or becomes its format |
| TermRange.RangeQueryFails | plugins/querytranslate/range.go:114-162 | compiling a range query fails iff a range is bad and all before it are good and have bounds |
| React.MergeMaps | plugins/querytranslate/util.go:877-883 | the second map wins, nothing else changes |
| React.LookupFirst | plugins/querytranslate/util.go:649-656 | a component is the first query of the request that has the id |
| React.ByTypeMeaning | plugins/querytranslate/translate.go:469-487 | when the query by value fails, when there is none, and which documents it selects, for term, range and other queries, on the fields of the query |
| React.OwnOptionsAt | plugins/querytranslate/translate.go:495-660 | the value of every option that a query sets itself, key by key, on its fields |
| React.ContributionMeaning | plugins/querytranslate/util.go:818-836 | a component fails iff its options do or it has no custom query and its query by value fails; it contributes the custom query, else the one by value |
| React.ContributedAt | plugins/querytranslate/util.go:690-706 | it hands on the options of its custom query, else its own, and never size, from, aggs, _source or query |
| React.EvalReactProp | plugins/querytranslate/util.go:659-753 | refines the functional evaluation of a react property, clauses, shared options and errors |
| React.ReactMeaning | plugins/querytranslate/util.go:659-753 | the clauses added hold for a document iff the react property does (and = all, or = some, not = none of the known components with a query), and none are added iff it puts no condition |
| React.InheritedFromLast | plugins/querytranslate/util.go:690-748 | an option inherited through react is the one of the last component that set it, and never size, from, aggs or another exception key |
| React.GetQuery | plugins/querytranslate/util.go:761-804 | refines the functional form of the combination of react clauses with default or own query |
| React.QueryMeaning | plugins/querytranslate/util.go:761-804 | the combined query exists iff react asks for something or there is an own query, and matches exactly the documents that react and the own query (default query, else by value where that applies) select, all read off the request |
| React.QueryFails | plugins/querytranslate/util.go:659-804 | a query cannot be compiled iff a reacted component that is looked at fails, or its own query by value is called for and fails |
| React.QueryOptions | plugins/querytranslate/util.go:690-748 | the options handed on are those inherited from the reacted components in order |
| Translate.GetQueryIds | plugins/querytranslate/util.go:931-940 | the ids of the queries that are executed and have no endpoint, in order |
| Translate.WaysOnFields | plugins/querytranslate/util.go:912-940 | on the fields of a query: when it goes to msearch, is independent, is mocked, and has its response expected |
| Translate.QueryByQuery | plugins/querytranslate/translate.go:96-106 | requests are gone through in order, each query for itself |
| Translate.HandledOnce | plugins/querytranslate/translate.go:96-106 | no query is in two of msearch, independent and mocked; a query with an endpoint reaches msearch only in the divergent case |
| Translate.IdsLineUp | plugins/querytranslate/translate.go:96-106 | emitted ids equal GetQueryIds, in order, iff no query is divergent |
| Translate.DivergentShiftsResponses | plugins/querytranslate/util.go:931-940 | a divergent query before an ordinary one: two pairs are sent, one id is expected, and it is that of the second |
| Translate.DivergentTakesResponse | plugins/querytranslate/handlers.go:495-659 | of the two responses to them the first is stored under the second query, and the other nowhere |
| Translate.BuildBody | plugins/querytranslate/translate.go:107-205 | refines the functional form of a body: react options, cursor, own options, default query, kNN |
| Translate.BodyQueryOrigin | plugins/querytranslate/translate.go:129-205 | the query of a body is the compiled query; under kNN it is the base of one script score with the given or the default script |
| Translate.BodyOrigins | plugins/querytranslate/translate.go:129-205 | every other option, on the fields of the request: the default query's, else the query's own value, else the cursor, else that of the last reacted component that hands it on; under kNN the size is the smaller of candidates and size |
| Translate.BodySelects | plugins/querytranslate/translate.go:107-205 | the emitted query selects exactly the documents stated on the fields of the request: all for a term query by value, its own range for a range query, otherwise react and own query; and when there is no query at all |
| Translate.ValidateQueries | plugins/querytranslate/translate.go:79-82 | the first invalid query decides the error |
| Translate.FirstErrorMeaning | plugins/querytranslate/translate.go:79-82 | the error is that of the first query without id, with a failed check, or with an endpoint without url, in this order |
| Translate.EmitQueries | plugins/querytranslate/translate.go:96-242 | the text is the pairs of the executed queries, in order, or the first error |
| Translate.TranslateQuery | plugins/querytranslate/translate.go:15-243 | validation first, then emission |
| Translate.EmittedLines | plugins/querytranslate/translate.go:211-235 | line 2i of the text is the configuration of the i-th executed query (given preference, or id and user id or address; index), line 2i + 1 its body |
| Translate.ExtractIDInverts | plugins/querytranslate/util.go:1585-1591 | the id comes back from id_tag iff the tag has no underscore, whatever the id |
| Translate.Validate | plugins/querytranslate/handlers.go:291-375 | reads the text two lines at a time, or reports an unreadable or missing line |
| Translate.UnreadableIff | plugins/querytranslate/handlers.go:333-360 | reading fails iff the lines do not pair up or one cannot be decoded |
| Translate.TextReadsBack | plugins/querytranslate/handlers.go:291-375 | for a codec that reads back the emitted pairs and writes them without raw newlines, reading inverts emitting |
| Translate.ValidateReadsBack | plugins/querytranslate/handlers.go:291-375 | reading what translateQuery emits gives the bodies of the executed queries in order, and their ids iff the tag has no underscore or nothing was executed |
| Translate.MockResponses | plugins/querytranslate/handlers.go:433-454 | the ids of disabled suggestion queries, and only those, map to the mock |
| Translate.TransformESResponse | plugins/querytranslate/handlers.go:495-659 | header entries plus response i under id i, as many as there are of both; fails iff one cannot be shaped |
| Translate.ResponsesFindTheirQueries | plugins/querytranslate/handlers.go:495-659 | for distinct ids and no divergent query, response i is stored under the query that produced it, parsed iff the id is that of a suggestion query; beside these there are exactly settings, error and the mocks |
| Auth.Caches.ClearLocalUser | plugins/auth/util.go:39-44 | forgets the password and the credential of the name |
| Auth.Caches.BasicAuth | plugins/auth/middleware.go:145-265 | behind coherent caches a request is let in iff a search finds exactly one document of the name and that user or permission accepts the password and may do what is asked; which credential, password and path name are remembered or forgotten |
| Auth.Caches.Handle | plugins/users/handlers.go:352-385 | the write to Elasticsearch comes first, and only a write that worked on a node that is not proxied clears the user |
| Auth.ChangeEffect | plugins/permissions/handlers.go:257-290 | what each change does to the two indices and to the caches, written or not, proxied or not |
| Auth.CachedIsFree | plugins/auth/middleware.go:145-265 | behind coherent caches every request is decided as by reading Elasticsearch and running bcrypt, and they stay coherent |
| Auth.FreeAuthIffEntitled | plugins/auth/middleware.go:161-251 | without caches a request is let in iff one document has the name, bcrypt accepts the password for its hash or it is the password of the permission, and root, admin or categories allow the access |
| Auth.OrderlyKeepsInvariant | plugins/permissions/handlers.go:257-290 | every change that neither renames nor takes an existing name, written or not, keeps the invariant |
| Auth.CachesAreTransparent | plugins/auth/middleware.go:145-265 | over every run of requests and orderly changes, a request is let in iff what Elasticsearch holds at that step entitles it |
| Auth.PostKeepsIff | plugins/users/handlers.go:70-175 | a POST of a user or a permission keeps the caches coherent iff what they hold for the name fits the new document, or iff they hold nothing when the other index has the name too |
| Auth.ProxiedPatchKeepsIff | plugins/users/handlers.go:296-417 | a patch of a user or a permission that skips the clearing keeps them coherent iff what they hold for the name fits the new document |
| Auth.ProxiedDeleteKeepsIff | plugins/users/handlers.go:493-567 | a delete that skips the clearing keeps them coherent iff they hold nothing for the name |
| Auth.RenameKeepsIff | plugins/users/handlers.go:296-417 | a patch that renames a user keeps them coherent iff they hold nothing for the new name |
| Auth.StalePasswordAfterRename | plugins/users/handlers.go:296-417 | after another user is renamed to a cached name, the node with caches accepts a request that the node without them refuses |
| Auth.Caches.SyncUsers | plugins/users/sync_cache.go:24-60 | for every cache, and every order of its credentials, the names of the cached users get what the snapshot has for them, passwords of stale users go, and nothing else changes |
| Auth.Caches.SyncPermissions | plugins/permissions/sync_cache.go:24-53 | the same for the names of the cached permissions; no password changes |
| Auth.StepKeepsKeyed | plugins/auth/middleware.go:145-265 | every step of a run keeps credentials under their own names, apart from the permission of a JWT role under the empty one |
| Auth.SyncUsersFirst | plugins/permissions/sync_cache.go:24-53 | users script first: what both scripts leave, credentials and passwords, as one function of the snapshots; every outdated password is cleared |
| Auth.SyncPermissionsFirst | plugins/users/sync_cache.go:24-60 | permissions script first: the same credentials, but outdated passwords of users hidden by the JWT role's permission stay |
| Auth.SyncOrderFreeIff | plugins/users/sync_cache.go:24-60 | the two orders agree iff no such password is cached |
| Auth.JwtEntryAddsName | plugins/permissions/sync_cache.go:39-51 | after a JWT-role request the permissions script caches a name that was not cached and leaves the entry under the empty name |
| Auth.SyncIsRestriction | plugins/users/sync_cache.go:24-60 | the credentials left are the snapshot (names in one index only) restricted to the cached names iff each was cached under its own name and none is of the other kind in the snapshot |
| Auth.SyncRestoresCoherence | plugins/users/sync_cache.go:24-60 | after both scripts the caches agree with Elasticsearch iff the node knows no name that both indices have and every password without a cached credential still verifies |
| RequestLogs.TTLMap.Put | model/requestlogs/requestlogs.go:60-69 | the table stays what its history makes of it, and afterwards the key lives |
| RequestLogs.TTLMap.Get | model/requestlogs/requestlogs.go:72-80 | finds the key iff it lives by the history of the table, with the value of the first Put that lasts |
| RequestLogs.TTLMap.Delete | model/requestlogs/requestlogs.go:83-91 | returns that value if the key lives, and afterwards the key does not live |
| RequestLogs.TTLMap.Sweep | model/requestlogs/requestlogs.go:48-53 | removes exactly the expired entries, in any order |
| RequestLogs.EntryLives | model/requestlogs/requestlogs.go:43-91 | over every history of Put, Get, Delete and sweeps, a key is in the table iff some Put of it was followed by no delete and by no sweep more than maxTTL seconds after the last touch; its value is that of the first such Put |
| RequestLogs.EntryTouched | model/requestlogs/requestlogs.go:60-80 | the time of an entry is that of the last Put or Get of its key |
| RequestLogs.StepKeepsInvariant | plugins/querytranslate/middleware.go:194-217 | every step of producers, handler, closer and loop keeps the protocol invariant |
| RequestLogs.DrainIsSafe | plugins/logs/middleware.go:262-299 | in every interleaving nothing is sent after the close, nothing is received twice, and when the loop ends all started producers have finished and exactly their results were received |
| RequestLogs.DrainMakesProgress | plugins/logs/middleware.go:262-299 | every step uses up a finite amount of work and some step is possible until the loop has ended |
| RequestLogs.NobodyDrains | plugins/querytranslate/middleware.go:197-217 | while nobody drains, started producers stay blocked |
| RequestLogs.DrainLoop | plugins/logs/middleware.go:270-299 | the loop builds the table of the request results in order of arrival |
| RequestLogs.CellHolds | plugins/logs/middleware.go:273-286 | a cell is filled iff a result belongs there, with the last one that does, and a stage is listed iff a request result names it |
| RequestLogs.TableOrderFreeIff | plugins/logs/middleware.go:270-286 | the table is the same for all orders of arrival iff no two results clash |
| RequestLogs.RunsAgree | plugins/logs/middleware.go:262-299 | two runs that received the same results, in whatever interleaving, end with the same table |
| Reindex.PatternMeaning | model/reindex/util.go:79-85 | a name matches iff the mark is followed by a digit somewhere in it |
| Reindex.ReindexedNameMeaning | model/reindex/util.go:79-101 | other names get a first successor; for names that match, the last token becomes the next number, with wrap-around, and it is an error iff it is none |
| Reindex.NextName | model/reindex/util.go:79-101 | through split, parse, increment, print and join, the successor of N_reindexed_k is N_reindexed_(k+1) |
| Reindex.NewNameDiffers | model/reindex/util.go:79-101 | the new name is never the old one, wrap-around of the counter included |
| Reindex.Cluster.AliasesOf | model/reindex/dao.go:346-368 | the alias of the last row for an index that was reindexed before, else none |
| Reindex.Cluster.SetAlias | model/reindex/dao.go:399-422 | adds the alias and, only when acknowledged, updates both alias caches |
| Reindex.Cluster.PostReIndex | model/reindex/dao.go:24-57 | aliases, delete, alias, replicas in this order, stopping at the first failure |
| Reindex.Cluster.ReindexInPlace | model/reindex/dao.go:82-277 | the whole run, for every outcome of every call, has the specified effect and result |
| Reindex.RunSucceedsIff | model/reindex/dao.go:82-277 | a run succeeds iff nothing stands in its way: the alias, mappings, settings, name, creation, relevancy and synonyms conditions and, if documents are asked for, copy, aliases, delete, alias and replicas, each on the actions and outcomes |
| Reindex.PostEffect | model/reindex/dao.go:24-57 | nothing changes unless the delete takes effect, and then the successor keeps its documents |
| Reindex.FailureOutcome | model/reindex/dao.go:39-66 | a failed run keeps the source, its documents and its names iff the delete did not take effect; otherwise what is left, exactly |
| Reindex.FailureElsewhere | model/reindex/dao.go:82-277 | a failed run touches no other index, and no alias cache unless it fails at the replicas, when both caches already name the successor |
| Reindex.LeftoverSurvivesIff | model/reindex/dao.go:184-277 | a successor that existed before a failed run is gone iff the run got as far as the copy, as only a run for the data alone does, and the clean-up was not refused |
| Reindex.ReplicasFailureLosesDocuments | model/reindex/dao.go:39-66 | with every call but the one for the replicas succeeding, no index is left and the cache names a deleted one |
| Reindex.SuccessOutcome | model/reindex/dao.go:82-277 | a successful run that copies data replaces the source by the successor, with the documents over whatever it held, moves the name to it and updates both caches; only a run for the data alone accepts an existing successor |
| Reindex.AliasesAfterRun | model/reindex/dao.go:24-57 | every alias loses the source, and only the one that is moved gains the successor; on a first run that is the name of the index |
| Reindex.OtherAliasLost | model/reindex/dao.go:24-57 | any other alias of the source alone stands for nothing afterwards, against the promise at line 78 |
| Reindex.WithoutDataKeepsSource | model/reindex/dao.go:184-222 | a successful run that is not asked for the data keeps the source and adds an empty successor |
| Reindex.SuccessKeepsStage | model/reindex/dao.go:82-277 | one more successful run leads from the k-th stage to the next, documents of an existing successor included |
| Reindex.RepeatedRuns | model/reindex/dao.go:82-277 | after n successful runs the carried documents are in N_reindexed_n alone of all stages, indices that are no stage are untouched, and N resolves to it in the cluster and in the cache |
| Reindex.DocumentsUnchangedIff | model/reindex/dao.go:184-277 | documents copied as they are stay unchanged over n runs iff no successor already held a document that the index does not have; fresh successors are the usual case |
| Reindex.DataOnlyMixesLeftover | model/reindex/dao.go:184-195 | a run for the data alone over a left-over successor succeeds and ends with the documents of both |
| Reindex.Cluster.AsyncReIndex | model/reindex/dao.go:556-591 | the background run has the specified effect for every sequence of polls |
| Reindex.PollerMeaning | model/reindex/dao.go:556-591 | with the first event after an announcement that reads the channel or announces again as the stop: the loop ends, failed iff a poll before the stop had failed, iff the stop reads the channel; it is stuck iff the stop is another announcement; it goes on iff there is no stop |
| Reindex.SecondCompletionBlocks | model/reindex/dao.go:556-591 | a run that gets stuck, and two that end |
| Reindex.AsyncKeepsDocuments | model/reindex/dao.go:556-591 | the background run never loses the documents; after a failed copy the successor goes, after a good one it stays whatever postReIndex does, and otherwise nothing changes |
| Text.SanitizeString | plugins/querytranslate/util.go:1233-1246 | the loop blanks lone special characters in place and removes surplus white space |
| Text.NormalizeValue | plugins/querytranslate/util.go:1186-1197 | the loop keeps the sanitized, lower-cased tokens that are left |
| Text.FieldsApart | plugins/querytranslate/util.go:1226-1228 | white space, and only that, separates the fields that are joined again by single blanks |
| Text.SpecialMeaning | plugins/querytranslate/util.go:1237 | the special characters |
| Text.TrimMeaning | plugins/querytranslate/util.go:1188 | trimming takes all white space off both ends and nothing else |
| Text.NormalizeIsWords | plugins/querytranslate/util.go:1186-1246 | the normalized value is the words of the value in lower case, without lone special characters, joined by single blanks |
| Text.NormalizeTwiceIff | plugins/querytranslate/util.go:1186-1246 | normalizing again changes nothing iff no token hides a lone special character behind other white space |
| Text.NormalizeThrice | plugins/querytranslate/util.go:1186-1246 | a third time never changes anything |
| Stopwords.RemoveStopwords | plugins/querytranslate/util.go:1152-1181 | the loop blanks the user's stopwords in the cleaned text, and the rest is normalized |
| Stopwords.RemovalOnlyDrops | plugins/querytranslate/util.go:1152-1181 | from lower-case words without white space removing stopwords only drops words, whatever the user's stopwords, if the library does |
| Stopwords.RemovalExactly | plugins/querytranslate/util.go:1152-1181 | what is left of the words that the library leaves are those the user has not listed, in order |
| Matching.BestMatch | plugins/querytranslate/util.go:1350-1370 | a match is found iff a target is at distance 0 or 1; the last perfect target wins, else the first near one |
| Matching.FindMatch | plugins/querytranslate/util.go:1326-1391 | score and matched tokens are the recursive sum over the stems of the query |
| Matching.BestTargetMeaning | plugins/querytranslate/util.go:1353-1370 | the best target is that of the last perfect rank if there is any, else that of the first rank at distance 1 if there is any, else none |
| Matching.MatchedByMeaning | plugins/querytranslate/util.go:1371-1376 | a token of two or more bytes reports the word of the first stem that is its best target |
| Matching.OneWordPerMatch | plugins/querytranslate/util.go:1371-1377 | unless the field has an empty stem, every matched token reports exactly one word of the field and no other token reports any |
| Matching.EmptyStemReported | plugins/querytranslate/util.go:1371-1376 | with an empty stem in the field, a token that matches nothing still reports the word of an empty stem |
| Matching.ScoreIsCount | plugins/querytranslate/util.go:1379-1387 | the score is half a point per match, half per perfect match and a tenth per adjacent matched pair |
| Matching.ScoreBounds | plugins/querytranslate/util.go:1326-1391 | for n stems it lies between 0 and 1.1 n - 0.1, and reaches the top iff all stems match perfectly |
| Matching.OneWordScores | plugins/querytranslate/util.go:1347-1387 | a single token scores 0, 1/2 or 1 by its length in bytes and its best distance |
| Matching.AllWordsScoreMost | plugins/querytranslate/util.go:1326-1391 | a field with all the words of the query scores the greatest possible |
| Matching.ByteLengthMeaning | plugins/querytranslate/util.go:1349 | a character below 128 counts one byte, others more, and lengths add up |
| ResponseTree.SuggestionLists.PopulateDefaultSuggestions | plugins/querytranslate/suggestions.go:341-395 | appends the label and the suggestion of the unquoted text unless the label of the quoted text is listed |
| ResponseTree.SuggestionLists.ParseResponseTree | plugins/querytranslate/suggestions.go:272-338 | drops one dotted component per call and populates the lists with the texts found, in order; not ok exactly on a panic |
| ResponseTree.ParsedSourceAt | plugins/querytranslate/util.go:1473-1490 | a field with a highlight array shows its first element, every other field what the source has |
| ResponseTree.UnquotedMeaning | plugins/querytranslate/suggestions.go:363 | the quotes of a text go, and everything else stays |
| ResponseTree.SearchOrder | plugins/querytranslate/suggestions.go:280-317 | the dotted key comes first, then the objects of an array one after the other |
| ResponseTree.FitsMeaning | plugins/querytranslate/suggestions.go:303-308 | an element fits iff it is a string that has the query somewhere in it, both in lower case |
| ResponseTree.SuggestionLists.GetDefaultSuggestions | plugins/querytranslate/suggestions.go:254-267 | does so for every field of every hit, hit by hit |
| ResponseTree.CandidatesExactly | plugins/querytranslate/suggestions.go:272-338 | exactly the texts found: through maps and arrays of objects, in an array only up to the first matching string, and that string itself at the last component |
| ResponseTree.CandidatesLead | plugins/querytranslate/suggestions.go:272-338 | every text found is a string of the hit at the field's path, array positions skipped |
| ResponseTree.ArrayFreeComplete | plugins/querytranslate/suggestions.go:280-338 | where no array lies on the path, every non-empty string that the path leads to is found |
| ResponseTree.FirstMatchFound | plugins/querytranslate/suggestions.go:298-317 | of an array of strings the first one that contains the query is picked |
| ResponseTree.PanicsIff | plugins/querytranslate/suggestions.go:309-315 | the search panics iff an array at the last component holds an object before any matching string |
| ResponseTree.ArrayOfObjectsPanics | plugins/querytranslate/suggestions.go:309-315 | an array of one object at a field without dots panics |
| ResponseTree.CollectsAll | plugins/querytranslate/suggestions.go:341-395 | labels and suggestions stay aligned, every suggestion comes from a field, every field is represented, earlier entries stay |
| ResponseTree.LabelsUniqueForIff | plugins/querytranslate/suggestions.go:341-395 | for a given list of texts the labels are unique iff no text is listed whose own label is new while the label of its unquoted form is not |
| ResponseTree.NoQuotesUnique | plugins/querytranslate/suggestions.go:341-395 | without quotes in the texts the labels are unique |
| ResponseTree.TopLevelStringTwiceIff | plugins/querytranslate/suggestions.go:280-336 | a string at a field without dots is looked up twice and listed once iff its quotes do not change its label |
| Predictive.QueryStemsMeaning | plugins/querytranslate/suggestions.go:495-502 | the stems of the words of the query without stopwords, or of all its words if none would be left |
| Predictive.FindBounds | plugins/querytranslate/suggestions.go:503-514 | the loop computes the bounds of prefix and suffix as a fold over the query |
| Predictive.BoundsMeaning | plugins/querytranslate/suggestions.go:503-514 | the bounds stay inside the field, the prefix ends just before the first match and the suffix starts just after the last |
| Predictive.GetHighlightedPhrase | plugins/querytranslate/suggestions.go:587-598 | the first words of the candidate, with or without stopwords, trimmed |
| Predictive.PhraseWords | plugins/querytranslate/suggestions.go:587-598 | a phrase never has more words than allowed |
| Predictive.PhraseWithStopwords | plugins/querytranslate/suggestions.go:587-598 | with stopwords a phrase is that of the candidates without them |
| Predictive.SuffixMeaning | plugins/querytranslate/suggestions.go:526-545 | words after the last match are added iff there is a match and their phrase is not empty and has no stem of the query |
| Predictive.GapMeaning | plugins/querytranslate/suggestions.go:522-542 | the words left for the prefix are maxPredictedWords less those of the suffix |
| Predictive.PredictOne | plugins/querytranslate/suggestions.go:491-579 | one round of the loop never slices out of range and computes the specified prediction or none |
| Predictive.WordBudget | plugins/querytranslate/suggestions.go:515-578 | for all settings, a prediction is the suggestion itself, or the query with one to max(maxPredictedWords, 1) words around it, tagged in the label, cut from what lies before every match and after the last one; id, scores and tokens stay |
| Predictive.WordsKeepTheirSide | plugins/querytranslate/suggestions.go:526-565 | every word added before the query is one before all matches of the field, and every word added after it one after the last match; with stopwords, provided that their removal changes none of the words on the two sides |
| Predictive.WordsAroundMatches | plugins/querytranslate/suggestions.go:526-565 | without stopwords the words are exactly the first of the field, all before the first match, and the ones that start right after the last match |
| Predictive.GetPredictiveSuggestions | plugins/querytranslate/suggestions.go:482-583 | refines the sequence of kept predictions; none for the empty query |
| Predictive.PredictionsInOrder | plugins/querytranslate/suggestions.go:566-578 | the predictions keep the order of their suggestions and are pairwise different in compressed form |
| Predictive.LeftOutIff | plugins/querytranslate/suggestions.go:558-578 | a suggestion is left out iff it has no prediction or an earlier prediction looks the same |
| Predictive.DroppedIff | plugins/querytranslate/suggestions.go:546-573 | there is no prediction iff the first word does not match, words before the match are wanted, and the phrase before it is empty or has a stem of the query |
| Predictive.AlwaysPredicts | plugins/querytranslate/suggestions.go:503-573 | without stopwords, a label with words always has a prediction |
| Predictive.StopwordsDropSuggestion | plugins/querytranslate/suggestions.go:546-573 | a suggestion dropped for its stopwords although a word could follow the match |
| Ranking.StableSortSorts | plugins/querytranslate/suggestions.go:218-226 | the ranking is sorted by (_rs_score, _score) and keeps the order among equals |
| Ranking.StablySortedUnique | plugins/querytranslate/suggestions.go:218-226 | any other stable sorting gives the same list |
| Ranking.KeepDistinct | plugins/querytranslate/suggestions.go:234-242 | keeps the first suggestion of each document |
| Ranking.FirstOnesKeepBest | plugins/querytranslate/suggestions.go:232-243 | of a sorted list, each document keeps exactly one suggestion, a best one, in sorted order |
| Ranking.PredictionsSorted | plugins/querytranslate/suggestions.go:228-230 | predicting keeps a sorted list sorted, and every prediction stems from a listed suggestion |
| Ranking.FieldsMeaning | plugins/querytranslate/suggestions.go:182-199 | valueFields, highlightField, dataFields: the first that names any field is searched, else the fields of the first hit |
| Ranking.RequestTexts | plugins/querytranslate/suggestions.go:178-180 | query, values, labels and predictions work on normalized words of the request, without the stopwords that apply |
| Ranking.HitsInOrder | plugins/querytranslate/suggestions.go:254-267 | hits are gone through in order; a panic in one is one of all |
| Ranking.FieldsInOrder | plugins/querytranslate/suggestions.go:262-265 | and so are the fields of a hit |
| Ranking.StagesMeaning | plugins/querytranslate/suggestions.go:218-245 | stable sorting first, then predictions if enabled, then one per document if asked for |
| Ranking.GetIndexSuggestions | plugins/querytranslate/suggestions.go:178-245 | field choice, search, ranking, prediction and distinct in this order; none on a panic |
| Ranking.FinalSorted | plugins/querytranslate/suggestions.go:178-245 | whatever the settings, the final list is sorted |
| Ranking.DistinctKeepsBest | plugins/querytranslate/suggestions.go:232-243 | with distinct on, every document is listed once, with a suggestion that none of its others beats |
| Ranking.RequestSurrounds | plugins/querytranslate/suggestions.go:228-230 | the words of a normalized label meet the conditions of the two statements on words: the first holds for every request without stopwords |
| Ranking.RequestKeepsSides | plugins/querytranslate/util.go:1152-1181 | and the second for every request, with applyStopwords as long as the stopwords library changes none of the words it is given from the two sides; user stopwords and normalizing never do |
| Ranking.SuggestionsComeFromHits | plugins/querytranslate/suggestions.go:178-245 | every final suggestion was made for a text at one of the fields of a hit, with its id and score and the matched tokens of the text; its _rs_score is within the bounds of the query's stems, and without predictions label and value are the unquoted text and its cleaned form |

## Left out

- JWT authentication: token parsing is not modelled; requests with a JWT role appear only as steps that cache under the empty username.
- Auth.CachesAreTransparent: requires non-empty basic-auth usernames, one node that is not proxied, no renaming patch and POST only for fresh names; outside that the iff lemmas on POST, renames and proxied nodes say when coherence is kept.
- Ranking.RequestKeepsSides: with applyStopwords, a field in which the stopwords library (CleanString) rewrites a word instead of dropping it, such as "c++", is outside the result; Predictive.WordBudget says for every field what the phrases are cut from.
- Auth.SyncRestoresCoherence: is about nodes whose cached passwords verify against their own cached users, with the users script run first.
- Concurrent authentication: requests and changes are atomic steps; a request that interleaves with a patch is not modelled.
- Reindex.RepeatedRuns: is about runs that copy data; Reindex.WithoutDataKeepsSource says what the other successful runs do.
- Floating point: `_rs_score` is counted in exact tenths, ES scores are reals; rounding in the comparison of scores is not modelled.
- The response side of the log table: the loop stores its "after" results in the before slot; only the request side is modelled, and diffing them rests on an external library.
- The TTL sweep during a run: the protocol assumes that the entry is still in the table when the drain starts; the sweep is modelled on its own.
- Reindexing into a given destination index, and a copy through an alias, which the model takes to be refused.
- SourceFilter.GenerateMap: trees are values, so updating nested maps and slices in place, and sharing them with the source, is not captured.
- Option values such as collapse, sort, highlight, aggs and _source are opaque; only which of them is set, and from where, is modelled.
- The queries of search, suggestion and geo components are opaque leaf queries with an arbitrary meaning.
- The rewriting of dataField for synonyms and the validation of customEvents, the single-query form of translateQuery (queryForId), and the sending of independent requests.
- filterValue returns a nil slice when it drops everything; in the model that is a terms query without values.
- Translate.TransformESResponse: parsing the hits of a suggestion response is one abstract function that may fail.
- The two places where a stemming language is chosen treat unknown languages differently; one stemming function stands for both.
- URL, category, section and source properties of a suggestion, which ranking never looks at.
- The tags of highlightConfig are given as two strings.
- Rate limits, telemetry, cron, plugin loading, HTTP plumbing, schema text and enum tables.
