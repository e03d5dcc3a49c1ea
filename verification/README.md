# A model of sinq in Dafny

sinq reads `.sinq` files of HTTP requests with embedded Lua, finds them by walking a directory tree, and
runs them as scenarios on a pool of workers.  This project models the parts of it that carry the most
state, branching or concurrency, and proves what they are for.

- **The `.sinq` language.**  `ByteScanner` is the cursor, `ScenarioParser` the lexer as the program has it, with its
  escape flag, its one-token lookback and its recursive descent over Lua.  `Lexing`, `LuaAutomaton` and `LongBrackets`
  say what it computes by position and by a flat automaton, and `LuaElements` what that is in terms of strings,
  comments and braces.  `Blueprints` builds the requests, `Sections` says of which tokens, `TokenTiling` shows for
  every byte string that tokens tile the file and can be extracted safely, and `RoundTrip` that a file written from
  requests parses back to them.
- **Discovery.**  `Explore` is the tree walk, `NaturalOrder` the order it reads a directory in, `WalkOrder` the two
  together; `TreeFiles` and `NameOrder` say which files are read and which name comes first; `ConfigMemo` is the
  workers with their shared memo, `Discovery` the channels and wait groups around them, and `DiscoveredScenarios` both
  at once: what a discovery returns.
- **Environments.**  `EnvAlgebra` says what merging means; `Envs` and `KeyVal` do it in place on nested tables on the
  heap.
- **Caches and the pipeline.**  `Flights` is the protocol of the three shared caches, `Pipeline` the way from the data
  source through the workers to the reporters, `Verdict` the exit code, `ExitCode` these put together.  `Flights`,
  `Pipeline`, `ConfigMemo`, `Discovery` and `DiscoveredScenarios` are step systems, and their results hold of every
  interleaving.
- **Scenarios.**  `Scenarios` is a worker that takes a scenario through the phases of its requests, `Courses` says
  where scripts take it and which phases are run; `Matrix` is the variants of a scenario and their number, `TaskEnvs`
  what their tasks hold.
- **Two parsers with printers.**  `LuaGraph`, `JsonSerializer`, `JsonWritable`, `JsonOrder`, `JsonLayout`,
  `JsonParser`, `JsonRoundTrip`, `JsonGrammar` and `FromLua` are Lua tables to and from JSON; `HttpText`,
  `HttpRoundTrip` and `HttpMeaning` the text of an HTTP request.

Scripts, the network, the clock and the file system are arbitrary: a script may make any calls and end anyhow, a
run of a cache may yield anything, a phase may fail or panic.  Where the program falls short of what one would
expect, the code is modelled as it is, a lemma names an input, and another says exactly when it does not
(`LongBrackets.AgreesWithTheManualIff`, `TokenTiling.PayloadIsUnescapedIff`, `TokenTiling.ReadsPastTheEndIff`,
`Discovery.WalkMaySendAfterCloseIff`, `EnvAlgebra.AssociativeIff`, `NaturalOrder.OneWayIff`,
`NaturalOrder.GoesRoundIff`, `Matrix.AddressedIff`, `Matrix.ExpectedIsSentIff`, `JsonRoundTrip.RoundTrip`,
`JsonOrder.OrderShowsIff`, `HttpRoundTrip.OneWordIff`, `HttpRoundTrip.OneValueIff`).

## Model

| member | source | states |
|---|---|---|
| `ByteScanner.Scanner.Advance` | internal/scanner/byte-scanner.go:19-32 | the cursor moves one byte unless it is at the end, and line and column stay what a recount from the start gives |
| `ByteScanner.Scanner.Read` | internal/scanner/byte-scanner.go:34-39 | the end of input is reported exactly at or behind the last byte |
| `ByteScanner.Scanner.Previous` | internal/scanner/byte-scanner.go:41-46 | at the very start the previous byte reads as NUL |
| `ByteScanner.Scanner.Slice` | internal/scanner/byte-scanner.go:48-56 | bounds that do not fit give the empty string, and -1 means the end |
| `ByteScanner.LineColumnOrdersPositions` | internal/scanner/byte-scanner.go:19-32 | line and column together determine the position, and order positions as the source does |
| `LuaAutomaton.RunIsPrefixStable` | internal/scenario/scenario-parser.go:292-346 | what the skipper accepts depends on no byte behind the brace it stops at: any source that agrees so far gives the same end |
| `LuaAutomaton.AcceptableIff` | internal/scenario/scenario-parser.go:292-346 | a body can be embedded whatever follows it exactly if the automaton ends on its own closing brace |
| `LuaAutomaton.RunFindsTheUnmatchedBrace` | internal/scenario/scenario-parser.go:217-264 | a script ends at a position if and only if that is the first closing brace that is unmatched and outside strings, comments and long brackets |
| `LongBrackets.LongBracketEndsAtSkipperCloser` | internal/scenario/scenario-parser.go:436-521 | a long bracket is left behind the first closer that the pairwise reading of brackets sees, and is an error if there is none |
| `LongBrackets.AgreesWithTheManualIff` | internal/scenario/scenario-parser.go:502-521 | the skipper closes a long bracket where section 2.1 of the Lua 5.1 Reference Manual does if and only if the first closer is preceded by an even number of brackets of broken closers |
| `LongBrackets.OverlappingCloserIsMissed` | internal/scenario/scenario-parser.go:502-521 | `]]=]` does not close a level-1 long bracket although it ends in `]=]` |
| `LuaElements.StringEndsAtUnescapedQuote` | internal/scenario/scenario-parser.go:397-434 | a quoted string ends behind the first of its quotes with an even number of backslashes directly before it; a newline like that, or no such quote, is an error |
| `LuaElements.LineCommentEndsAtNewline` | internal/scenario/scenario-parser.go:382-395 | a comment to the end of the line ends behind the first newline, and is an error without one |
| `LuaElements.EscapedIff` | internal/scenario/scenario-parser.go:96-124 | a byte of a text is escaped behind an odd number of backslashes |
| `LuaElements.RunsByElements` | internal/scenario/scenario-parser.go:292-380 | the skipper goes from one element of Lua to the next: a string, a comment, a long bracket or a single byte, and only a brace that is an element changes the depth |
| `LuaElements.ScriptEndsIff` | internal/scenario/scenario-parser.go:217-264 | a script ends at a closing brace if and only if elements lead there, as many braces are opened as closed before it, and none of those before it closes the script |
| `ScenarioParser.Parser.Match` | internal/scenario/scenario-parser.go:22-34 | one expected byte, or an error that tells the end of input from a wrong byte |
| `ScenarioParser.Parser.ParseLuaScript` | internal/scenario/scenario-parser.go:292-346 | the recursive descent over braces goes wherever the flat automaton goes, for every depth, and fails with the same error |
| `ScenarioParser.Parser.ParseLuaComment` | internal/scenario/scenario-parser.go:348-380 | as the automaton does behind `-`: a comment, a long comment or plain code |
| `ScenarioParser.Parser.ParseLuaSimpleComment` | internal/scenario/scenario-parser.go:382-395 | goes behind the first newline, or fails at the end of input; the automaton does the same in a line comment |
| `ScenarioParser.Parser.ParseLuaSimpleString` | internal/scenario/scenario-parser.go:397-434 | goes behind the first quote that an even number of backslashes stands before, or fails at a newline like that or at the end; the automaton does the same in a quoted string |
| `ScenarioParser.Parser.ParseLuaMultilineStringWithCloser` | internal/scenario/scenario-parser.go:436-460 | as the automaton does in a long bracket of the given level |
| `ScenarioParser.Parser.ParseLuaMultilineString` | internal/scenario/scenario-parser.go:462-474 | as the automaton does behind `[` |
| `ScenarioParser.Parser.ParseLongBracketOpen` | internal/scenario/scenario-parser.go:476-500 | the level of an opening long bracket, or how far a thing that is none was read |
| `ScenarioParser.Parser.ParseLongBracketClose` | internal/scenario/scenario-parser.go:502-521 | the level of a closing long bracket; a closer that is broken by `]` swallows that bracket |
| `ScenarioParser.Parser.ConsumeWhitespace` | internal/scenario/scenario-parser.go:523-534 | stops at the first byte that is not white space |
| `ScenarioParser.Parser.LexToken` | internal/scenario/scenario-parser.go:76-94 | the token that the positional description of the grammar gives at this place, with the same lookback and the same count of unnamed scripts |
| `ScenarioParser.Parser.ParseText` | internal/scenario/scenario-parser.go:96-159 | a text ends at the first unescaped `$` or `###` line start; the newline before a delimiter is left out even if it was escaped; a `###` line that the file ends in belongs to the text |
| `ScenarioParser.Parser.ParseHash` | internal/scenario/scenario-parser.go:135-155 | an unescaped `#` in a text ends it, with or without the delimiter held back, or begins a last line that belongs to it, or is a plain byte |
| `Lexing.StopPosIsFirst` | internal/scenario/scenario-parser.go:96-159 | where a text stops is the first place at which it can: the end, or an unescaped `$` or `###` line start |
| `ScenarioParser.Parser.ParseDelimiter` | internal/scenario/scenario-parser.go:161-215 | the token of the delimiter line that starts here, its payload the name without trailing white space |
| `Lexing.LastNonSpaceIsLast` | internal/scenario/scenario-parser.go:161-215 | a delimiter's payload ends in the last byte of its line that is not white space |
| `ScenarioParser.Parser.ParseScript` | internal/scenario/scenario-parser.go:217-264 | the script token: name, payload between the braces, and the end that the skipper finds |
| `ScenarioParser.Parser.ParseScriptName` | internal/scenario/scenario-parser.go:266-290 | the name up to the first `{`, or the number of the unnamed script |
| `GoStrings.TrimSpaceTrims` | internal/scenario/scenario-parser.go:266-290 | what is trimmed off at either end is white space, and what is left neither begins nor ends in it |
| `Lexing.ScriptNameIs` | internal/scenario/scenario-parser.go:266-290 | a script is named by what is written without the white space around it, and by its number if and only if nothing else is written |
| `Lexing.ScriptIsPrefixStable` | internal/scenario/scenario-parser.go:217-290 | a script token depends on no byte behind its end: any source that agrees so far gives the same token, name, number, line and column |
| `ScenarioParser.HashRunIsPlain` | internal/scenario/scenario-parser.go:96-159 | further `#` of a delimiter line start no delimiter of their own |
| `Blueprints.RequestBlueprint.SetScript` | internal/scenario/scenario-parser.go:48-74 | it fails if and only if the name is that of a slot that is taken, and then changes nothing; otherwise the token is in its slot, or behind the content if it is none of the four |
| `Blueprints.RequestBlueprint.ExtractPayload` | internal/scenario/scenario.go:206-214 | the payload of any token, and nothing for one that does not fit the source |
| `Blueprints.RequestBlueprint.EscapePayload` | internal/scenario/scenario.go:216-230 | the bytes with each unescaped backslash dropped |
| `Blueprints.ParseRequestBlueprints` | internal/scenario/scenario.go:156-204 | the requests, object by object, are those of the functional description of the file, and it fails with the same error |
| `Sections.FileIsItsTokens` | internal/scenario/scenario.go:165-204 | a file is refused for the first lifecycle script whose name was there before in the same request, else for an error in its tokens, else if no content follows the last start of a request; otherwise its requests are made of the tokens between the places where they begin |
| `Sections.ContentBeforeIff` | internal/scenario/scenario.go:185-191 | a delimiter begins a request if and only if some content stands between it and the delimiter before it |
| `Sections.BeginsAreStarts` | internal/scenario/scenario.go:185-191 | requests begin at the first token and at those delimiters, and nowhere else |
| `TokenTiling.FileTokensTile` | internal/scenario/scenario.go:165-197 | for every byte string the tokens come one after another, every byte between them is white space, and each carries the line and column of a recount, the delimiter one byte behind its start |
| `TokenTiling.TokensTile` | internal/scenario/scenario-parser.go:76-94 | the same from any place the lexer can be at, with or without a delimiter held back |
| `TokenTiling.FileRequestsAreSound` | internal/scenario/scenario.go:206-230 | every token kept by a successful parse can be extracted without leaving the source and without a negative capacity |
| `TokenTiling.CapacityIsNatural` | internal/runner/worker.go:310-315 | the buffer for a request has room for at least one byte for each of its tokens, never a negative size |
| `TokenTiling.ReadsAtMostOneMore` | internal/scenario/scenario.go:222-229 | unescaping reads past a text by one byte exactly if it ends in an unescaped backslash |
| `TokenTiling.ReadsPastTheEndIff` | internal/scenario/scenario-parser.go:96-159 | that happens exactly for texts closed by a delimiter whose newline (or NUL) was escaped, and the byte read is that one |
| `TokenTiling.PayloadIsUnescapedIff` | internal/scenario/scenario-parser.go:96-159 | a text is unescaped exactly if a backslash is in it before the place the lexer first stops at, or none at all: the write in the branch of the swallowed last line never counts |
| `TokenTiling.SwallowedBackslashStays` | internal/scenario/scenario-parser.go:150-155 | a file in which a backslash stays in the text |
| `RoundTrip.ParseOfPrint` | internal/scenario/scenario.go:156-204 | every list of requests that can be written down is given back by parsing the file it is written to, scripts without a name being numbered throughout the file |
| `RoundTrip.EscapedTextIsPlain` | internal/scenario/scenario-parser.go:96-159 | text with `\` before each `\`, `$` and `#` neither stops the lexer nor leaves it in an escape, and is unescaped to itself |
| `RoundTrip.ScriptLexes` | internal/scenario/scenario-parser.go:217-264 | a script with an acceptable body is one token with that body, whatever follows, and with its name or, without one, the next number |
| `RoundTrip.ContentParses` | internal/scenario/scenario.go:165-197 | texts and scripts in turn are the content of the request they stand in |
| `RoundTrip.HeaderPayload` | internal/scenario/scenario-parser.go:161-215 | the name on a delimiter line is given back |
| `Explore.Walk.SortOut` | internal/treewalker/treewalker.go:84-95 | one pass over a directory: its own files behind those from above, its folders in order |
| `Explore.Walk.ExploreFS` | internal/treewalker/treewalker.go:57-110 | what is sent on the two channels: the lists of files of the recursive description, and each unreadable directory once |
| `Explore.OneTaskPerLeaf` | internal/treewalker/treewalker.go:57-110 | exactly one list for each directory without subdirectories that has files of its own, holding the files of each directory on the way in turn and of no other |
| `Explore.LeafIff` | internal/treewalker/treewalker.go:57-110 | a way of folder numbers is among the leaves if and only if it leads to a directory without subdirectories that has a file of its own |
| `Explore.LeavesDiffer` | internal/treewalker/treewalker.go:107-109 | no leaf is there twice |
| `Explore.PrefixDetermined` | internal/treewalker/treewalker.go:107-109 | the files before a file are the same in every list it turns up in |
| `WalkOrder.SortedListingsAgree` | internal/treewalker/treewalker.go:74-82 | two listings of one tree, sorted, with names on which the order is total, are the same |
| `WalkOrder.ListingOrderDoesNotShow` | internal/treewalker/treewalker.go:57-110 | in whatever order directories are listed, the sorted walk sends the same lists of files and the same errors in the same order |
| `TreeFiles.OwnFilesIff` | internal/treewalker/treewalker.go:84-95 | of a directory's entries the regular files whose names end in `.sinq` or `.scenario` are read, and no others |
| `TreeFiles.EntriesInOrder` | internal/treewalker/treewalker.go:84-95 | files and folders are taken in the order of the entries |
| `TreeFiles.ErrorIff` | internal/treewalker/treewalker.go:63-72 | a path is reported if and only if its names lead to a directory that cannot be read |
| `ConfigMemo.CacheMakesNoDifference` | internal/treewalker/worker.go:45-78 | for any number of workers and every interleaving, what is emitted is what reading each list without a cache gives, also when files fail to parse |
| `ConfigMemo.TreeScenariosNeedNoCache` | internal/treewalker/worker.go:122-194 | so it is for the lists of every tree without two entries of one name in a directory |
| `ConfigMemo.StepKeepsCaches` | internal/treewalker/worker.go:122-153 | each entry of the cache is the configuration accumulated over the one prefix that ends in its file |
| `ConfigMemo.RequestsInOrder` | internal/treewalker/worker.go:122-194 | the requests of a list are those of its files one after another |
| `ConfigMemo.RequestsOfOne` | internal/treewalker/worker.go:122-194 | which for one file are what it parses to, if it is a request file and parses |
| `ConfigMemo.ConfigsInOrder` | internal/treewalker/worker.go:122-194 | the configuration of a list is made by its configuration files alone, the first one first |
| `Discovery.NoSendAfterClose` | internal/treewalker/treewalker.go:157-202 | workers never send on a closed channel; the walk does so only if cancelled |
| `Discovery.CancelledWalkMaySendAfterClose` | internal/treewalker/treewalker.go:63-72 | the least walk with a run in which it can choose to send on the closed error channel |
| `Discovery.WalkMaySendAfterCloseIff` | internal/treewalker/treewalker.go:57-72 | some run comes to where the walk can do so if and only if an unreadable directory comes after at least as many lists as there are workers |
| `Discovery.NothingIsLost` | internal/treewalker/treewalker.go:157-202 | when an uncancelled discovery returns, each list was taken once and each error and each scenario was collected |
| `Discovery.NeverStuck` | internal/treewalker/treewalker.go:112-122 | an uncancelled discovery always has a step to take until it returns |
| `Discovery.StepsRunOut` | internal/treewalker/worker.go:88-120 | every step but cancelling uses up work |
| `DiscoveredScenarios.ReturnsTheScenarios` | internal/treewalker/treewalker.go:157-202 | what an uncancelled discovery returns is, as a multiset, the scenarios that reading the tree's lists of files without a cache gives, whatever the workers did |
| `DiscoveredScenarios.NeverStuck` | internal/treewalker/worker.go:32-120 | protocol and readers together always have a step to take until the discovery returns |
| `DiscoveredScenarios.StepsRunOut` | internal/treewalker/worker.go:32-120 | and every step uses up work of one of them |
| `NaturalOrder.Compare` | internal/natsort/natsort.go:66-115 | the loop over chunks decides the chunkwise order |
| `NaturalOrder.JoinOfChunks` | internal/natsort/natsort.go:54-58 | cutting into chunks loses nothing |
| `NaturalOrder.ChunksAlternate` | internal/natsort/natsort.go:54-58 | chunks of digits and of other characters take turns |
| `NaturalOrder.OneWayIff` | internal/natsort/natsort.go:66-115 | of two names exactly one comes first, if and only if neither is empty and they differ in more than leading zeros |
| `NaturalOrder.PrecedesTransitive` | internal/natsort/natsort.go:66-115 | the order is transitive as long as every run of digits fits an int |
| `NaturalOrder.StrictTotalOrder` | internal/natsort/natsort.go:66-115 | on different names without leading zeros whose numbers fit it is a strict total order |
| `NaturalOrder.SortedOneWay` | internal/treewalker/treewalker.go:74-82 | the sorted list of such names is determined by the set of names |
| `NaturalOrder.BeforeItself` | internal/treewalker/treewalker.go:75-77 | the guard against equal names is needed: every name but the empty one comes before itself |
| `NaturalOrder.EmptyNameIsUnordered` | internal/natsort/natsort.go:66-115 | an empty name is before and after none |
| `NaturalOrder.LeadingZerosTie` | internal/natsort/natsort.go:82-96 | `01` and `1` each come before the other |
| `NaturalOrder.GoesRoundIff` | internal/natsort/natsort.go:78-96 | three chunks go round if and only if one too large to be read stands, as text, between two numbers that come the other way round by value |
| `NaturalOrder.TransitiveIff` | internal/natsort/natsort.go:66-115 | without leading zeros, two steps of the order make one unless the first chunks in which the names differ go round |
| `NaturalOrder.OverflowGoesRound` | internal/natsort/natsort.go:78-96 | 9 before 10 before any power of ten that does not fit, before 9 |
| `NameOrder.FirstDifferenceDecides` | internal/natsort/natsort.go:66-115 | the first chunks that differ decide, by value if both are numbers and as text otherwise |
| `NameOrder.ShorterFirst` | internal/natsort/natsort.go:66-115 | of two names that agree as far as the shorter goes, the shorter comes first |
| `NameOrder.LexIff` | internal/natsort/natsort.go:111 | text is compared at the first byte that differs, and comes behind each of its beginnings |
| `NameOrder.DecimalIsRead` | internal/natsort/natsort.go:78-96 | a number is read as what its decimal spelling says, if it fits an int |
| `NameOrder.NumbersGoByValue` | internal/natsort/natsort.go:66-115 | names that first differ in a number come in the order of the numbers, whatever follows |
| `EnvAlgebra.EmptyIsIdentity` | internal/envs/envs.go:6-27 | merging with an empty table changes nothing, on either side |
| `EnvAlgebra.Idempotent` | internal/envs/envs.go:6-27 | merging a table with itself changes nothing |
| `EnvAlgebra.MergeAbsorbs` | internal/envs/envs.go:6-27 | merging the same table in twice is merging it in once |
| `EnvAlgebra.AbsorbedIff` | internal/envs/envs.go:6-27 | merging `y` into `x` gives `y` if and only if `y` has every key of `x`, all the way down where both hold tables |
| `EnvAlgebra.AssociativeIff` | internal/envs/envs.go:6-27 | merging is associative for three tables if and only if no leaf of the middle one separates two tables of which the first would add to the last |
| `EnvAlgebra.NotAssociative` | internal/envs/envs.go:6-27 | three tables for which it is not |
| `EnvAlgebra.AssignIsMergingANest` | internal/config/parser.go:82-110 | assigning along a path is merging in the nest of tables that holds just the value |
| `EnvAlgebra.AssignedIsFound` | internal/config/parser.go:84-110 | a leaf that was assigned is found at its path, and of a table that was assigned nothing is missing there |
| `EnvAlgebra.OtherPathsStay` | internal/config/parser.go:84-110 | on every other way all is as it was |
| `Envs.Table.Put` | internal/envs/envs.go:17-24 | one entry written; the table stays free of sharing |
| `Envs.DeepCopy` | internal/envs/envs.go:29-45 | all tables of the copy are new, it holds the same, and its source may share tables freely |
| `Envs.DeepMerge` | internal/envs/envs.go:6-27 | in place the merge of what the two held; only tables of the first are written, only new ones are added |
| `Envs.MergeEntry` | internal/envs/envs.go:11-26 | one key merged in: table into table, or a copy put in place |
| `KeyVal.SplitIsUndone` | internal/config/parser.go:82-84 | the names of a key, joined with dots, are the key |
| `KeyVal.JoinIsUndone` | internal/config/parser.go:82-84 | any names without dots are the names of some key |
| `KeyVal.FollowPath` | internal/config/parser.go:84-110 | the tables on the way are followed or made, and the end holds the value, merged in if both are tables |
| `KeyVal.ParseKeyVal` | internal/config/parser.go:82-110 | for every key and every value this is merging in the nest that the key spells out; a text that does not decode is found at the end of the key as it is |
| `KeyVal.CopyAndEdit` | internal/runner/runner.go:48-52 | a copy edited by any merges and assignments is the source with all of it merged in, and nothing that was there before is written |
| `Flights.EntriesAreFinal` | internal/runner/cached-request-processor.go:41-93 | no step overwrites or drops a cached entry |
| `Flights.AtMostOneKeptRun` | internal/runner/cached-request-processor.go:63-91 | for each key at most one run yields anything that is kept, whatever the interleaving |
| `Flights.ServedValuesAgree` | internal/runner/request-processor.go:277-303 | all callers that get a value for a key get the same one |
| `Flights.UnkeptRunLeavesNoEntry` | internal/runner/cached-request-processor.go:82-85 | a run that is not kept leaves no entry, and the key can be run again |
| `Flights.EveryWaiterIsServed` | internal/runner/cached-request-processor.go:95-107 | a flight serves everybody who still waits, within four steps of its own |
| `Flights.OthersDoNotNotice` | internal/runner/request-processor.go:291-301 | one caller giving up changes nothing for any other |
| `Flights.WhatEachCacheHolds` | internal/runner/cached-loader.go:29-89 | a stored failure comes from a run that failed, of a module or with an answer; the scripts' cache holds none |
| `Flights.KeptRunsAreLogged` | internal/runner/cached-compiler.go:51-96 | each kept run of a key is one of its runs |
| `Flights.KeptRunsInOrder` | internal/runner/cached-compiler.go:51-96 | the kept runs of a key stand in the order of the runs, and none worth keeping is missing |
| `Flights.KeptRunIsStored` | internal/runner/cached-request-processor.go:63-91 | a run worth keeping is stored by the next step of its flight |
| `Flights.FailedLoadIsServed` | internal/runner/cached-loader.go:29-89 | whoever asks for a module that failed to load gets the failure from the cache, without another run |
| `Pipeline.NoSendAfterClose` | internal/runner/runner.go:108-151 | nothing is sent on a closed channel, cancelled or not |
| `Pipeline.HandingOnNeverBlocks` | internal/reporter/reporter.go:49-82 | with room for as many results as there are tasks, handing on never waits, even if a reporter stops reading |
| `Pipeline.EveryTaskIsHeardOnce` | internal/runner/worker.go:99-132 | when an uncancelled run is over every reporter has heard exactly one result of each task |
| `Pipeline.NoResultIsInvented` | internal/reporter/reporter.go:78-83 | in any run a reporter hears no result twice and none that no task gave |
| `Pipeline.OwnStepsRunOut` | internal/runner/runner.go:37-77 | the pipeline cannot go on for ever by itself |
| `Pipeline.NeverStuck` | internal/runner/runner.go:79-154 | until it is over an uncancelled pipeline always has a step of its own to take, whatever reporters do |
| `ExitCode.VerdictOfRun` | internal/reporter/result/result-reporter.go:20-44 | a finished run is a success if and only if each task's result was emitted and none failed; uncancelled, if and only if none failed; with a result given up, never |
| `ExitCode.VerdictOfProgram` | cmd/sinq/sinq.go:250-299 | an uncancelled program is a success if and only if some scenario was found, none failed, and the count is at least one or nothing is to be run |
| `Verdict.ResultReporter.Report` | internal/reporter/result/result-reporter.go:20-44 | success stands if and only if as many results arrived as were announced and no status in them, of a scenario or of a request, is Failure, Error or Aborted |
| `Scenarios.Worker.SetRequestIdx` | internal/runner/lua-utility.go:23-31 | a jump outside the scenario is ignored |
| `Scenarios.Worker.FinishScenario` | internal/runner/lua-utility.go:33-36 | the next request is the end |
| `Scenarios.Worker.CheckAssertions` | internal/runner/worker.go:193-201 | failed assertions make the request and the scenario fail, and are then forgotten |
| `Scenarios.Worker.HandleError` | internal/runner/request-processor.go:46-58 | an error is Aborted if it was the cancelling and Error otherwise, for request and scenario alike |
| `Scenarios.Worker.Run` | internal/runner/request-processor.go:132-194 | rounds of sending and retry script, ending because the script says so, on an error, or with the retries used up |
| `Scenarios.Worker.Prepare` | internal/runner/worker.go:168-187 | PRE, materializing, parsing and sending in this order, and nothing after a skip or an error |
| `Scenarios.Worker.Judge` | internal/runner/worker.go:189-211 | ASSERT, check and POST in this order; with fail-fast nothing follows a check that failed |
| `Scenarios.Worker.ProcessRequest` | internal/runner/worker.go:134-212 | the status of request and scenario, the next request and whether to go on are what the log of phases and calls amounts to, and that log is lawful |
| `Scenarios.Worker.ProcessScenario` | internal/runner/worker.go:272-307 | the result is that of a lawful course of requests which ends only for a reason |
| `Scenarios.SentAtMostMaxRetriesPlusOne` | internal/runner/request-processor.go:137-143 | a request is sent at most once more than there are retries, and once if it has no retry script, however it ends |
| `Scenarios.NeverMended` | internal/runner/worker.go:285-306 | a scenario that has left Success never returns to it |
| `Scenarios.SuccessIff` | internal/runner/worker.go:193-204 | a scenario succeeds if and only if each run went on to its end and no check failed |
| `Scenarios.SuccessIsClean` | internal/runner/worker.go:134-147 | a scenario that succeeds has only requests that succeeded, were skipped or were not reached |
| `Scenarios.VerdictGoesByStatus` | internal/reporter/result/result-reporter.go:27-38 | the exit code looks at each request, but the scenario's status alone decides |
| `Scenarios.NothingAfterTheFirstFailure` | internal/runner/worker.go:199-201 | with fail-fast the first failed check is the last thing that happens |
| `Scenarios.LastRunCounts` | internal/runner/worker.go:288-298 | a request that is run again is reported as its last run |
| `Scenarios.PanicBlamesNoRequest` | internal/runner/worker.go:261-270 | a panic makes the scenario an Error, but its request is reported as a success unless a check had failed |
| `Scenarios.RequestIdxStaysInRange` | internal/runner/lua-utility.go:23-36 | the next request is always one of the scenario's or the end |
| `Scenarios.InOrder` | internal/runner/worker.go:287-304 | as long as no script steers, requests are run once each and in order |
| `Courses.LastCallDecides` | internal/runner/lua-utility.go:23-36 | the last call of a run that steers decides: a jump inside the scenario goes to that request and finishing ends it; jumps outside leave standing what was decided before, and undecided the next request follows |
| `Courses.FoundIff` | internal/runner/worker.go:193-201 | a check finds a failure if and only if an assertion failed before it, or was left over, and no check has seen it |
| `Courses.PhasesInOrder` | internal/runner/worker.go:168-211 | however a run ends, its phases come in the one order, and each retry script follows a sending |
| `Courses.OnlyWrittenScripts` | internal/runner/worker.go:168-211 | a script of less than two bytes, or one that is not there, is never run |
| `Courses.AllPhasesAreRun` | internal/runner/worker.go:168-211 | a run that is done went through all phases that are there, except for the script behind the check when fail-fast stopped it |
| `Matrix.ParseMatrix` | internal/scenario/config-parser.go:29-54 | empty axes are dropped; one value that is not a table spoils the whole file |
| `Matrix.BuildAllPaths` | internal/runner/matrix-helpers.go:6-22 | each label of each axis once, and the number of variants |
| `Matrix.TakePath` | internal/runner/matrix-helpers.go:24-33 | the labels of the variant with this number, the last axis counting the ones |
| `Matrix.VariantOfNumber` | internal/runner/matrix-helpers.go:24-33 | every choice of one label per axis is the variant of a number below the total |
| `Matrix.NumberOfVariant` | internal/runner/matrix-helpers.go:24-33 | no two numbers below the total have the same variant |
| `Matrix.AddressedIff` | internal/runner/runner.go:50-52 | looking a label up by its place is right for all variants if and only if no empty axis comes before one that is not |
| `Matrix.ReadAxesAreAddressed` | internal/scenario/config-parser.go:32-53 | so it is always right for axes that were read from files |
| `Matrix.CountVariants` | internal/scenario/scenario.go:23-31 | the same number that the runner counts up to |
| `Matrix.Bundles` | cmd/sinq/sinq.go:250-284 | how many results the reporters are told to expect, and what is handed to the runner |
| `Matrix.TasksOf` | internal/runner/runner.go:44-72 | for each variant in turn as many tasks as it is to be run, at least one, each with the environment its labels give (TaskEnvs.SentTask says which) |
| `Matrix.StartDataSource` | internal/runner/runner.go:37-77 | the tasks of each scenario, one scenario after another, as many in all as the scenarios say |
| `TaskEnvs.SentTask` | internal/runner/runner.go:44-72 | the environment of each task that is sent: what the last label brings is all there, a key that no chosen table has is as in the scenario's, one whose last chosen table holds a leaf has that leaf; and the task is to be run if and only if the count is positive |
| `TaskEnvs.RunIffIncluded` | cmd/sinq/sinq.go:273-283 | a task is to be run if and only if its scenario is included and the count is positive |
| `TaskEnvs.KeyOfEnv` | internal/runner/runner.go:48-52 | a key that no chosen table has keeps its value, or its absence |
| `TaskEnvs.KeyOfLabel` | internal/runner/runner.go:48-52 | the last chosen table that has a key decides: its leaf stands, and its table is all there |
| `TaskEnvs.LabelsAreDigits` | internal/runner/matrix-helpers.go:24-33 | the labels of a variant are the digits of its number in the mixed radix of the axes, the last axis counting the ones |
| `Matrix.ExpectedIsSentIff` | cmd/sinq/sinq.go:273-283 | as many results are expected as tasks are sent if and only if the count is at least one or no scenario is included |
| `Matrix.NothingExpectedIff` | cmd/sinq/sinq.go:273-299 | no results are expected, which ends the program at once, if and only if none was found or each one found is included and the count is 0 |
| `LuaGraph.PassableIff` | internal/luapi/lua-json.go:209-222 | remembering only the tables on the current path decides exactly whether some way down meets a table twice or one that is not in order |
| `JsonSerializer.JSONSerializer.SerializeLValue` | internal/luapi/lua-json.go:184-202 | the text of the unfolded value or an error; builder and path set are left empty |
| `JsonSerializer.JSONSerializer.SerializeValue` | internal/luapi/lua-json.go:209-222 | ends on every graph, restores the path set on every exit, and writes exactly the unfolding |
| `JsonSerializer.JSONSerializer.SerializeArray` | internal/luapi/lua-json.go:254-281 | members with commas between them and the asked-for layout |
| `JsonSerializer.JSONSerializer.SerializeObject` | internal/luapi/lua-json.go:283-321 | fields in the order of their keys |
| `JsonSerializer.Collect` | internal/luapi/lua-json.go:323-350 | list, object, empty or an error, in one pass over the entries |
| `JsonWritable.WrittenIff` | internal/luapi/lua-json.go:184-222 | a value is written if and only if no way down meets a table twice and each table on it is in order; shared tables are accepted |
| `JsonWritable.WritableIff` | internal/luapi/lua-json.go:209-252 | null, booleans, strings and finite numbers can be written, and of other values only tables |
| `JsonWritable.ShapeIs` | internal/luapi/lua-json.go:323-372 | a table is a list if all keys are numbers and no more than its length, an object if all are strings, and what its mark says if it is empty; no other can be written |
| `JsonWritable.EmptyTableText` | internal/luapi/lua-json.go:352-372 | an empty table is `[]` or `{}` as its mark says |
| `JsonLayout.WrittenPretty` | internal/luapi/lua-json.go:254-321 | each member stands on its own line, indented once more than what it is in, and what closes it on the line behind; without lines nothing stands between but a blank behind each colon of an indented layout |
| `JsonOrder.OrderShowsIff` | internal/luapi/lua-json.go:254-350 | the text is the same for every order of iteration over tables if and only if on each way down the members of a list are all written alike |
| `JsonOrder.OrderDoesNotShow` | internal/luapi/lua-json.go:283-350 | the text is the same for any two orders in which the keys of lists rise, gaps or not |
| `JsonOrder.OrderOfFractionsShows` | internal/luapi/lua-json.go:323-350 | a table of length 3 with entries under 3, 0.5 and 1.5, the last two in either order, has two texts |
| `JsonParser.ParseObject` | internal/luapi/lua-json.go:89-125 | fields until the brace closes, a later one replacing an earlier one of the same name |
| `JsonParser.ParseArray` | internal/luapi/lua-json.go:127-148 | values until the bracket closes |
| `JsonParser.Parse` | internal/luapi/lua-json.go:45-66 | one value and then the end of the text |
| `JsonGrammar.ReadIff` | internal/luapi/lua-json.go:45-175 | a text is read, and as this value, if and only if without its blanks it is the spelling of a value that amounts to it: nothing else is accepted, and nothing behind it |
| `JsonGrammar.BlanksDoNotMatter` | internal/luapi/lua-json.go:45-66 | blanks between lexemes make no difference, and anything else there is refused |
| `JsonGrammar.LastFieldCounts` | internal/luapi/lua-json.go:89-125 | of several fields of one name the last one counts |
| `JsonGrammar.ItemsInOrder` | internal/luapi/lua-json.go:127-148 | a list holds its members in their order |
| `JsonRoundTrip.TextIsReadBack` | internal/luapi/lua-json.go:45-175 | whatever blank indentation, the text is read as what was written |
| `JsonRoundTrip.RoundTrip` | internal/luapi/lua-json.go:209-372 | every value that can be written is read back, fields by name and lists in order, and it is the very same value if and only if no list on any way down has gaps; the mark of an empty array is not read back (RFC 8259, sections 2 to 7) |
| `JsonRoundTrip.GapIsClosed` | internal/luapi/lua-json.go:127-148 | a list with entries under 1 and 3 comes back with them under 1 and 2 |
| `JsonRoundTrip.SerializeAndParse` | internal/luapi/lua-json.go:374-404 | the two in a row |
| `FromLua.Converter.FromLuaValue` | internal/luapi/lua-goapi.go:17-88 | ends on every graph and restores the path set on every exit |
| `FromLua.TakenOverIff` | internal/luapi/lua-goapi.go:27-81 | a value is taken over if and only if no way down meets a table twice and the keys of each table are of the kind its length calls for |
| `FromLua.ConvertMirrors` | internal/luapi/lua-goapi.go:17-88 | what is taken over mirrors the value all the way down: lists in the order of iteration, fields under their keys, and each plain value as itself |
| `HttpText.RequestParser.ScanWord` | internal/runner/parser.go:45-55 | the bytes up to the next white space, blanks in front skipped |
| `HttpText.RequestParser.ScanLine` | internal/runner/parser.go:57-75 | the rest of the line without blanks and carriage returns at its end; at the end of the text nothing is trimmed |
| `HttpText.RequestParser.NextLine` | internal/runner/parser.go:77-95 | behind a line break of either kind, or told apart: end of text, or something else on the line |
| `HttpMeaning.LineEndsIff` | internal/runner/parser.go:77-95 | a line ends, behind blanks, in a newline with or without a carriage return before it, and the text ends with nothing more or a carriage return alone |
| `HttpMeaning.FirstNotBlank` | internal/runner/parser.go:234-242 | blanks and tabs are passed over, and nothing else |
| `HttpText.RequestParser.ScanRequestLine` | internal/runner/parser.go:147-186 | one to three words, the first the method and the second the URL, or the only one the URL; a text that ends on the first line is an error |
| `HttpText.RequestParser.ScanHeaders` | internal/runner/parser.go:188-222 | headers until a line without a name, Host promoted, User-Agent replaced, others added |
| `HttpText.RequestParser.Parse` | internal/runner/parser.go:105-145 | the request that the positional description of the text gives, or the same error |
| `HttpRoundTrip.TextIsParsed` | internal/runner/parser.go:105-242 | a request written with either line break is parsed as what its words, headers and body mean (HttpMeaning.PartsAreRead says what that is) |
| `HttpMeaning.PartsAreRead` | internal/runner/parser.go:105-186 | the method is the word before the URL and GET where there is none, the URL is the word behind it, and the body is the one written, byte for byte |
| `HttpMeaning.HostIsRead` | internal/runner/parser.go:182-213 | the host is the last Host header's value, and the URL's without one |
| `HttpMeaning.HeadersAreKept` | internal/runner/parser.go:188-222 | each header has the values written under its name in their order, and the agent is the tool's own unless one is written |
| `HttpMeaning.CanonicalIs` | internal/runner/parser.go:208-220 | a header is kept under its name with the first letter, and each behind a dash, large and all others small; a name that is no token is kept as it is |
| `HttpMeaning.CaseDoesNotMatter` | internal/runner/parser.go:208-220 | two names that are tokens are kept under one if and only if they differ in case only |
| `HttpMeaning.EqualFoldIff` | internal/runner/parser.go:208-220 | a name is taken for Host or User-Agent if and only if it differs from it in case only, but for the long s of Unicode |
| `HttpMeaning.FirstLineErrors` | internal/runner/parser.go:147-186 | which first lines are errors, and which errors |
| `HttpMeaning.HeaderErrors` | internal/runner/parser.go:188-222 | a header that the text ends in, or whose name does not end in a colon, is an error |
| `HttpRoundTrip.LineBreaksDoNotMatter` | internal/runner/parser.go:77-95 | carriage returns make no difference (section 2.2 of RFC 9112) |
| `HttpRoundTrip.OneWordIff` | internal/runner/parser.go:45-55 | a word is read whole if and only if no byte of it counts as white space, 0x85 and 0xA0 included |
| `HttpRoundTrip.OneValueIff` | internal/runner/parser.go:57-75 | a header's value is read whole if and only if it has no newline, does not begin or end in a blank and does not end in a carriage return |
| `HttpRoundTrip.HeadersKeepOrder` | internal/runner/parser.go:208-220 | the values of an ordinary header are those written, in order |
| `HttpRoundTrip.LastHostWins` | internal/runner/parser.go:210-213 | the last Host header names the host |
| `HttpRoundTrip.NoHost` | internal/runner/parser.go:182 | without one the host is that of the URL |
| `HttpRoundTrip.LastAgentWins` | internal/runner/parser.go:215-218 | the last User-Agent header replaces all before it |

## Left out

- The texts of error messages, except for telling kinds of error apart.
- Running Lua, the length rules of Lua tables (the length is a given of each table), compiling and sandboxing.
- The network, TLS, cookies, redirects, dumping requests, saving bodies to files: results of a sending are arbitrary.
- Hashing and the keys of the caches: a key is abstract, and nothing is said about two requests having different ones.
- Timers, durations, logging, listing and the report formats.
- Integer overflow: line numbers, counters and numbers of variants are unbounded; the one width that shows, that of numbers in file names, is modelled.
- Bytes above 255: a byte is a character, and nothing depends on characters being bytes.
- ScenarioParser.Parser.ParseScript: the second half of the program's function is a method of its own, ParseScriptBody.
- ScenarioParser.Parser.ParseText: the branch of `#` is a method of its own, ParseHash.
- Blueprints.ParseRequestBlueprints: the body of the loop is a method of its own, ParseToken.
- Explore.Walk.ExploreFS: entries come in sorted order, and sorting is not part of the method; that it leaves no choice is WalkOrder.ListingOrderDoesNotShow, and looking at the context between directories is left to Discovery.
- ConfigMemo.CacheMakesNoDifference: configurations are values, which DeepCopy and slices.Clone make of them; copying itself is in Envs.
- Discovery.NothingIsLost: speaks of numbers; which scenarios they are is DiscoveredScenarios.ReturnsTheScenarios, and of errors nothing but the number is stated.
- DiscoveredScenarios.ReturnsTheScenarios: where among its lists the walk sends errors is arbitrary, and so is how many errors come of a task; a cancelled discovery is left to Discovery, since the program ends after it without looking at what it returned.
- Flights.UnkeptRunLeavesNoEntry: a run that panics is handed to its callers as a failure in all three caches; internal/runner/cached-compiler.go:63 calls group.Do without singleflightSafe, so there it reaches them as a panic.
- Flights.EveryWaiterIsServed: how singleflight tells its waiters is taken as documented; the step is atomic.
- Pipeline.NeverStuck: the channel for errors outside of scenarios is not part of the model, and neither is the duration that follows the results.
- Verdict.ResultReporter.Report: the channel is the list of what arrives on it until it is closed.
- Envs.DeepMerge: a first table that shares tables below it, with itself or with the second, is excluded, since what is merged into comes from a decoder or from DeepCopy, which make trees; a nil table under a key does not occur, since no decoder makes one; slices are values, so that copying their backing arrays does not show.
- Envs.MergeEntry: the same sharing is excluded as for DeepMerge.
- KeyVal.FollowPath: the program's loop over the names of a key is a recursion here, so that each table on the way can be closed again in the proof.
- KeyVal.CopyAndEdit: decoding JSON is Decode, which makes a table of its own for each object.
- Scenarios.Worker.ProcessScenario: the context lasts for a number of requests that is given, since a scenario that keeps jumping back ends only with it; making the cookie jar and setting up Lua do not fail.
- Scenarios.Worker.SetRequestIdx: converting a Lua number to an int is left out; the argument is the int.
- Matrix.MergeLabels: environments are values here; the same merging on the heap is KeyVal.CopyAndEdit.
- Matrix.StartDataSource: sending is appending, and cancelling in between is left to Pipeline.
- JsonSerializer.JSONSerializer.SerializeLValue: text is a list of lexemes; how strings and finite numbers are spelt, and that reading a spelling gives back what was spelt, is encoding/json's and strconv's business, and strings are valid UTF-8.
- JsonOrder.OrderDoesNotShow: in which order gopher-lua visits a table is not part of this model; that small positive whole keys come in rising order and other numbers in any is where its two sides, and OrderOfFractionsShows, come from.
- JsonParser.ParseObject: a table that is being filled is a local list or map; it is not shared before it is returned.
- FromLua.Converter.FromLuaValue: a host object and what it holds are one and the same number.
- HttpText.RequestParser.Parse: parsing URLs is arbitrary but for the host, and the context is not cancelled while parsing.
- Flag values, tag filters, sizes, crypto, JWT, fake data, workspaces and the command line.
