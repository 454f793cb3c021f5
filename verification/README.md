# Soteria agent: a verified model

This project models the parts of the Soteria agent that decide what ends up in a TACACS+ or DNS server's
configuration, and proves what their design relies on. It is checked with `dafny verify dfyconfig.toml`
(Dafny 4.11); nothing here is executed.

What is modelled, and what is proved of it:

- **The tac_plus-ng configuration format** (`agent/internal/tacconfig`). `Lexer` and `Parser` hold the tokenizer and
  the recursive-descent parser twice: as recursive functions over texts and token lists, and as the cursor loops of the
  source, proved equal to them on every input with every read of the token list in range. `Layout` is a tree of laid-out
  statements; `LayoutLexing` and `LayoutParsing` prove once that printing such a tree, tokenizing and parsing it gives
  its nodes and its comments with their lines, and `ParserLaws` which texts are errors. `Ruleset`, `Profiles` and `Devices` hold the renderers and mappers of the
  three entity files; the `*RoundTrip` modules prove that every well-formed entity list survives being rendered and
  parsed: conditions nested to any depth, else blocks, inline conditions, quoting, default actions, annotations, keys,
  display order. `EntityLaws` and `DevicesRoundTrip` say what is read of any other statement tree.
- **The staged-commit store** (`agent/internal/store`). The directory is a record of maps from file names to contents
  (live, staging, backups, baseline); each exported method is one step, given the clock reading and the outcomes of the
  validator and of the reload or restart. `Store.ConfigStore` is the object; `StoreRuns` proves safety over all runs, the
  exact effect of rejected and accepted commits and restores, retention, and that no step invents a content. `StoreLaws`
  has the baseline, which any run without another save brings back, and what single calls do.
- **Unified diffs** (`agent/internal/store/diff.go`). `EditScript` proves the table-driven script correct and shortest,
  `DiffHunks` where the hunks lie, and `Patch` that the printed diff, read back and strictly applied, turns the lines of
  the old text into those of the new one.
- **Device references** (`agent/internal/api/server.go`). `DeviceRefs` holds the two PUT handlers over the store;
  `DevicePuts` proves when a request is staged and that the staged file holds what was asked for, and
  `DeviceRefsRuns` that every version of `04-devices.cfg` keeps every parent pointing at a group of the same file.
- **DNS zones** (`agent/internal/dns/dns.go`, `agent/internal/api/dnssot.go`). `ZoneFile` has the renderer and exact
  matchers for the three regular expressions of the reader, and `ZoneLines` says what they make of lines in any layout;
  `ZoneFileRoundTrip` proves the round trip, `ZoneSurvival` exactly which lists of validated records come back from a
  file, `ZoneAuthority` and `ZoneRuns` exactly when a zone has an authority and its serial grows, `SotMerge` and `SotSync`
  the merge and the synchronisation of a zone, `SotSyncLaws` which inventory entry becomes which record, and
  `ReverseZones` the reverse-name arithmetic.
- **Taking a LaTeX source apart** (`frontend/docsgen/build.py`). `TexEnvironments` proves that an environment is closed by
  its own end, `TexExtraction` that each of the extraction loops ends and does what one pass does. `TexBlocks` and
  `TexTables` read what each of them keeps; `TexContents` proves what that is, on the text of any block, and `TexRoundTrip`
  and `TexTableLaws` that tabs and tables come back as they were written. `TexPreprocess` is the whole of `preprocess`, its
  five loops with the comments removed after the second; it proves that listings are kept. `TexPlaceholders` proves that
  all placeholders left in the text and in the vendor tabs are different.

What the proofs found about the code:

- `EntityNames.NameIsOneWord`: entity-name validation lets a carriage return through, which the tokenizer takes as a
  blank; a name is read back whole exactly when it holds none. `EntityNames.SplitName` is the smallest case.
- `StoreRuns.RejectedCommit`: a rejected commit leaves newly created files live; the live files are unchanged exactly when
  every changed file existed before. When a backup of the same second existed, its removal loses that backup.
  `StoreRuns.RejectedFileIsLive` is such a commit: the first devices file, rejected, is live.
- `StoreRuns.RetryOnlyCloses`: after a commit whose reload failed, committing again reloads nothing and ends the session.
  `StoreRuns.RetryMakesNoReload` is one with a single changed file.
- `StoreRuns.RestoredContents`: a backup restored in the second it was taken restores nothing;
  `StoreRuns.RestoredNothing` is a case.
- `DiffHunks.HunkShape`: a hunk followed by seven or more equal lines ends with two lines of context, not three;
  `DiffHunks.FirstRemoved` has the hunk of one removed line for any number of equal lines behind it.
- `Patch.EmptyDiff`: a file of one empty line and an empty file have no diff (`Patch.BlankLineUnseen`).
- `ZoneSurvival.RecordsSurvive`: a list of records that pass validation is read back from its zone file exactly when two
  things hold. Every record has a sound line: its owner holds no form feed and starts with neither a semicolon nor a
  dollar sign (white space aside), its type and its value have no white space around them, and no semicolon follows the
  first character of its value. And the printed records hold nothing that reads as a start of authority, which is
  stripped before the lines are read. `ZoneFileRoundTrip.PolicyIsCut` has a TXT record whose value ends at its semicolon,
  `ZoneFileRoundTrip.OwnerIsLost` an address record that is dropped, and `ZoneSurvival.QuotedIsStripped` a TXT record
  with a sound line whose value "SOA a b (c)" becomes "SOA"; none of them is reported.
- `ZoneRuns.SerialAdvances`: the serial grows with an accepted replacement exactly when a start of authority, which takes
  its values in parentheses, is found in the file that is replaced (and its serial is not the largest integer), or when
  none is found there but one with a positive serial in the new records. `ZoneRuns.SameSerialTwice` is a zone with its
  authority on one line: its name server is lost, and every later replacement of the day writes the same serial. In
  `ZoneRuns.RecordBecomesAuthority` a TXT record names the name server, administrator and serial of that zone.
- `ZoneFile.ShownTtl`: a default TTL of 0 is written as 3600.
- `SotSyncLaws.ForwardEntry`: a device called "@" gets its address record at the name of the zone itself.
- `SotMerge.LastWins`: of two inventory addresses with one owner name only the last survives a merge.

## Model

| member | source | states |
|---|---|---|
| Lexer.Lex | agent/internal/tacconfig/lexer.go:33-98 | The cursor loop yields the tokens and comments of the recursive tokenizer, for every text |
| Lexer.ScanWellFormed | agent/internal/tacconfig/lexer.go:33-98 | Every token list ends in its one EOF and its line numbers never go down |
| Lexer.SkipQuoted | agent/internal/tacconfig/lexer.go:54-63 | The string loop stops at the first quote no backslash takes along, or at the end |
| ParserLaws.Operators | agent/internal/tacconfig/lexer.go:76-86 | ==, =~ and != are words of two characters, another = a token of its own |
| ParserLaws.Delimiters | agent/internal/tacconfig/lexer.go:89-91 | The characters a bare word ends at |
| ParserLaws.CommentRead | agent/internal/tacconfig/lexer.go:46-53 | The text of a comment is what stands behind all its number signs up to the end of the line, without white space around it |
| ParserLaws.BlanksSkipped | agent/internal/tacconfig/lexer.go:41-45 | Blanks, tabs and carriage returns do not matter, and a newline only to the line numbers |
| Parser.TokenParser.Next | agent/internal/tacconfig/parser.go:60 | The cursor advances by one over a token in range; after any token but EOF there is another |
| Parser.TokenParser.Expect | agent/internal/tacconfig/parser.go:62-68 | Takes one token, also the EOF on its error path, and reports the line and the token it got |
| Parser.TokenParser.RestOfLine | agent/internal/tacconfig/parser.go:206-226 | Joins the words, re-quoted strings and equal signs left on the line and stops in front of anything else |
| Parser.TokenParser.ParseStmts | agent/internal/tacconfig/parser.go:72-96 | Agrees with the recursive grammar on nodes, closing line, error and tokens left; only moves forward |
| Parser.TokenParser.ParseStmt | agent/internal/tacconfig/parser.go:98-139 | The same for one statement, which takes at least one token |
| Parser.TokenParser.ParseIf | agent/internal/tacconfig/parser.go:141-202 | The same for conditions: parentheses, value words, block, else, inline form |
| Parser.TokenParser.ParseBranches | agent/internal/tacconfig/parser.go:173-201 | The part of a condition behind its closing parenthesis |
| Parser.Parse | agent/internal/tacconfig/parser.go:52-57 | On every text it ends with the tree or the error of the grammar, never reading past EOF |
| LayoutLexing.ScanAll | agent/internal/tacconfig/lexer.go:33-98 | The printed text of a layout tree tokenizes to the tree's tokens and comments with their lines, whatever follows |
| LayoutParsing.ReadAll | agent/internal/tacconfig/parser.go:72-202 | Those tokens parse to the tree's nodes, leaving what follows |
| LayoutParsing.PrintedTree | agent/internal/tacconfig/parser.go:52-57 | Printing, tokenizing and parsing any well-formed layout gives back its nodes and comments |
| ParserLaws.StrayBrace | agent/internal/tacconfig/parser.go:84-89 | Behind any statements a closing brace that closes nothing is reported with its line |
| ParserLaws.UnclosedBlock | agent/internal/tacconfig/parser.go:78-82 | A block that is never closed is reported with the line on which the file ends |
| ParserLaws.StrayMark | agent/internal/tacconfig/parser.go:98-102 | A brace or parenthesis at the start of a statement is reported as such |
| ParserLaws.ParenMissing | agent/internal/tacconfig/parser.go:141-144 | Behind the word if an opening parenthesis is asked for, with the token found instead and its line |
| ParserLaws.AttributeMissing | agent/internal/tacconfig/parser.go:145-148 | Then a word for the attribute |
| ParserLaws.OperatorMissing | agent/internal/tacconfig/parser.go:149-152 | Then one for the operator |
| ParserLaws.ParenUnclosed | agent/internal/tacconfig/parser.go:153-165 | And somewhere a closing parenthesis, missed at the end of the file |
| ParserLaws.InlineElse | agent/internal/tacconfig/parser.go:183-196 | An else with an action on its own line becomes the else part of the condition |
| ParserLaws.InlineScattered | agent/internal/tacconfig/parser.go:197-201 | An inline action goes as far as the line of the closing parenthesis, wherever the condition began |
| ParserLaws.AssignScattered | agent/internal/tacconfig/parser.go:109-117 | An assignment takes its value from the line of its equal sign, wherever its words stand |
| Canonical.ActionTextOf | agent/internal/tacconfig/parser.go:39-44 | The statement parsed from an action line reconstructs that line |
| Canonical.CondValueOf | agent/internal/tacconfig/render.go:229-237 | A condition value prints, bare or quoted, as words from which the same value is taken back |
| Canonical.QuotesTaken | agent/internal/tacconfig/entities.go:28-36 | Quotes at both ends of a text, and white space around them, are taken off; other texts keep theirs |
| Canonical.QuotesPrinted | agent/internal/tacconfig/render.go:229-237 | Quotes are printed around empty values and those with a blank or tab, but no regular expression |
| Mapping.SplitDefaultOf | agent/internal/tacconfig/entities.go:310-314 | A default action printed behind its actions is split off again if and only if it is permit or deny, or there is none and the last action is neither |
| Mapping.SearchAssign | agent/internal/tacconfig/entities.go:38-45 | The first assignment of the key, or nothing |
| Mapping.SearchBlock | agent/internal/tacconfig/entities.go:335-342 | The first block of the name, or none |
| Rendering.WriteActions | agent/internal/tacconfig/render.go:202-206 | One line for each action that is not blank |
| Rendering.ActionWritten | agent/internal/tacconfig/render.go:202-206 | Anywhere in a list, an action that is not blank gets its indented line and a blank one none |
| Rendering.BannerPrints | agent/internal/tacconfig/render.go:11-22 | The banner is comment lines the tokenizer drops and a blank line |
| Ruleset.RenderRuleset | agent/internal/tacconfig/render.go:175-197 | Writes the specified text of a rule list |
| Ruleset.RenderRuleCondition | agent/internal/tacconfig/render.go:199-225 | Appends the text of a condition with its children and else block at the given indent |
| Ruleset.ParseRuleset | agent/internal/tacconfig/entities.go:257-291 | Yields the rules of the parsed tree, or the parse error |
| Ruleset.RuleConditionFromNode | agent/internal/tacconfig/entities.go:293-326 | Maps a condition node and everything below it |
| RulesetRoundTrip.ConditionMaps | agent/internal/tacconfig/entities.go:293-326 | The node printed for a condition, at any depth, maps back to the condition |
| RulesetRoundTrip.RulesetRoundTrip | agent/internal/tacconfig/render.go:175-225 | Every well-formed rule list is what parsing its rendered text yields: flags, order, values, actions, children, else, defaults |
| RulesetRoundTrip.RenderThenParse | agent/internal/tacconfig/entities.go:257-326 | The same for the two methods run one after the other |
| EntityLaws.RulesRead | agent/internal/tacconfig/entities.go:257-270 | Of any tree, the rules are the rule blocks of the first ruleset, in order |
| EntityLaws.RuleRead | agent/internal/tacconfig/entities.go:266-289 | Of any block: enabled unless the first assignment of enabled says no, a missing one counting as enabled; conditions and last terminal action of the first script |
| EntityLaws.RuleConditionRead | agent/internal/tacconfig/entities.go:293-326 | Of any condition node: actions and else part apart from a trailing permit or deny of each, and its conditions in order |
| Profiles.RenderProfiles | agent/internal/tacconfig/render.go:127-153 | Writes the specified text of a profile list |
| Profiles.RenderCondition | agent/internal/tacconfig/render.go:155-171 | Appends the inline or the block form of a condition |
| Profiles.ParseProfiles | agent/internal/tacconfig/entities.go:174-203 | Yields the profiles of the parsed tree, or the parse error |
| Profiles.ServiceFromNode | agent/internal/tacconfig/entities.go:205-226 | Maps a service node, its conditions apart from its actions |
| Profiles.ConditionFromNode | agent/internal/tacconfig/entities.go:228-252 | Maps a condition node, inline or block |
| ProfilesRoundTrip.ProfilesRoundTrip | agent/internal/tacconfig/render.go:127-171 | Every well-formed profile list is what parsing its rendered text yields, inline conditions and split defaults included |
| ProfilesRoundTrip.RenderThenParse | agent/internal/tacconfig/entities.go:174-252 | The same for the two methods |
| EntityLaws.ProfilesRead | agent/internal/tacconfig/entities.go:174-183 | Of any tree, the profiles are its profile blocks, in order |
| EntityLaws.ProfileRead | agent/internal/tacconfig/entities.go:184-203 | The services and the last terminal action of the first script; other conditions there are passed over |
| EntityLaws.ServiceRead | agent/internal/tacconfig/entities.go:205-226 | The service as it stands in the condition, actions apart from a trailing permit or deny, conditions in order |
| EntityLaws.ProfileConditionRead | agent/internal/tacconfig/entities.go:228-252 | An inline condition has the text of its one statement, a block one its actions and default |
| Devices.OrderedIsStableSort | agent/internal/tacconfig/render.go:241-247 | A list is the display order if and only if it has the catch-alls last and keeps the order within each kind |
| Devices.CatchAllsAre | agent/internal/tacconfig/render.go:51-60 | A device is a catch-all if and only if its address ends in /0 |
| Devices.SortDevicesForDisplay | agent/internal/tacconfig/render.go:241-247 | The sorted copy is the display order: no /0 device stands before a specific one |
| Devices.Partition | agent/internal/tacconfig/render.go:51-60 | The renderer's own split gives that same order |
| Devices.RenderDevices | agent/internal/tacconfig/render.go:32-80 | Writes the specified text: groups, then devices in display order |
| Devices.FindAnnotation | agent/internal/tacconfig/entities.go:18-26 | The first annotation of the key among the comments in the line range |
| DevicesRoundTrip.AnnotationRead | agent/internal/tacconfig/entities.go:18-26 | The annotation is the value behind @key of the first such comment in the range, stripped, and empty without one |
| Devices.ParseDevices | agent/internal/tacconfig/entities.go:51-85 | Yields the blocks with an address as devices; DevicesRoundTrip.AnyBlock says how keys are classified |
| Devices.ParseDeviceGroups | agent/internal/tacconfig/entities.go:90-117 | Yields the blocks without an address as groups |
| DevicesRoundTrip.OwnAnnotation | agent/internal/tacconfig/entities.go:18-26 | With comments of other blocks before and after, a block gets its own annotation only |
| DevicesRoundTrip.DevicesRoundTrip | agent/internal/tacconfig/render.go:32-80 | Parsing the rendered file gives the devices in display order and the groups in theirs, with keys and annotations |
| DevicesRoundTrip.RenderedIsRead | agent/internal/tacconfig/render.go:32-80 | For every printable list, whatever its custom keys: a printed key that is the shared key or ${TACACS_KEY} reads as global without a key, none with a parent as group, any other as custom |
| DevicesRoundTrip.AnyBlock | agent/internal/tacconfig/entities.go:51-117 | The same of any block of any tree, with name, address, parent, platform and description |
| DevicesRoundTrip.BlocksRead | agent/internal/tacconfig/entities.go:51-117 | The devices are the device blocks with an address, the groups those without, in order |
| DevicesRoundTrip.ShippedDevice | tacacs/config/conf.d/04-devices.cfg:12-15 | The shipped catch-all block, with its literal placeholder, reads as one device of the global key |
| DevicesRoundTrip.RenderThenParse | agent/internal/tacconfig/entities.go:51-117 | The same for the methods |
| EntityNames.NameIsOneWord | agent/internal/tacconfig/entities.go:345-353 | An accepted name is tokenized whole if and only if it holds no carriage return |
| Devices.AcceptedNames | agent/internal/tacconfig/entities.go:344-353 | The names that are accepted, by the characters they must not hold |
| EntityNames.SplitName | agent/internal/tacconfig/entities.go:349 | An accepted name that is read back as two words |
| Store.ChangedExactly | agent/internal/store/staging.go:97-113 | The changed files are exactly those whose staged content differs from the live one, a missing file counting as empty |
| Store.NewestExactly | agent/internal/store/staging.go:326-345 | Pruning deletes whole backups, leaves the wanted number, and every one kept is newer than every one deleted |
| Store.NewestSurvives | agent/internal/store/staging.go:326-345 | With room for one, the newest backup survives pruning |
| Store.ReadDir | agent/internal/store/staging.go:327-336 | The listing is strictly ascending and holds exactly the names |
| Store.CopyFiles | agent/internal/store/staging.go:270-284 | Listed files present in the source overwrite the target; the others are left alone |
| Store.ConfigStore.BeginStaging | agent/internal/store/staging.go:68-87 | The new state is Begin of the old one: no-op when open |
| Store.ConfigStore.WriteStaged | agent/internal/store/staging.go:135-145 | Writes one staged file, or refuses unmanaged names and closed sessions |
| Store.ConfigStore.ReadEffective | agent/internal/store/staging.go:117-131 | Staged content first, then live |
| Store.ConfigStore.ChangedFiles | agent/internal/store/staging.go:97-113 | The list Changed specifies, empty without a session |
| Store.ConfigStore.SnapshotLocked | agent/internal/store/store.go:124-143 | Copies the managed files over whatever a backup of the same second held |
| StoreLaws.SnapshotHolds | agent/internal/store/store.go:124-143 | The backup holds the managed live files, and what one of the same second held besides; no other is touched |
| Store.ConfigStore.PruneBackups | agent/internal/store/staging.go:326-345 | Deleting the front of the listing leaves the newest backups |
| Store.ConfigStore.CommitStaging | agent/internal/store/staging.go:198-268 | State and outcome are those of Commit for every verdict and reload outcome |
| Store.ConfigStore.RestoreBackup | agent/internal/store/store.go:186-237 | State and outcome are those of Restore |
| Store.ConfigStore.SaveGoldenConfig | agent/internal/store/golden.go:46-72 | The new state is SaveGolden of the old one; StoreLaws.SavingIsQuiet and StoreLaws.BaselineRestored say what that is |
| StoreLaws.SavingIsQuiet | agent/internal/store/golden.go:46-72 | Afterwards the baseline holds exactly the managed files that are live, and nothing else has changed |
| StoreLaws.BaselineRestored | agent/internal/store/golden.go:46-111 | Saved now and restored after any steps without another save: every managed file live at the save has its content of then, and all others, also those of an older baseline, are as before the restore |
| Store.ConfigStore.RestoreGoldenConfig | agent/internal/store/golden.go:77-111 | State and outcome are those of RestoreGolden |
| Store.ConfigStore.SetRetentionCount | agent/internal/store/staging.go:310-322 | Refuses counts outside 1 to 100, else stores the count and prunes |
| StoreLaws.CountIsKept | agent/internal/store/staging.go:310-322 | A count from 1 to 100 is the one in force from then on, at most that many backups are left, and any other is refused |
| StoreLaws.KeptNumber | agent/internal/store/staging.go:295-307 | The number set, else the one configured, else five |
| StoreLaws.TheManagedFiles | agent/internal/store/store.go:23-35 | The eleven file names |
| StoreLaws.BeginCopies | agent/internal/store/staging.go:68-87 | A new session holds the managed live files, and is not marked; an open one stays as it is |
| StoreLaws.WriteReplies | agent/internal/store/staging.go:135-145 | A file is staged if and only if it is managed and a session is open |
| StoreLaws.ReadOrder | agent/internal/store/staging.go:117-131 | Nothing is read of an unmanaged file; without a session the live file is |
| StoreLaws.MarkKeepsFiles | agent/internal/store/staging.go:45-49 | Marking opens a session when none is open, and changes no file |
| StoreLaws.CommitWithoutSession | agent/internal/store/staging.go:198-203 | Without a session a commit is refused and changes nothing |
| StoreLaws.MarkerForcesRestart | agent/internal/store/staging.go:255-264 | A marked session, after any edits, is not applied by an agent that cannot restart; an unmarked one is applied by a reload |
| StoreLaws.UnaskedCommit | agent/internal/store/staging.go:221-267 | In developer mode a commit goes live without the validator |
| StoreLaws.RestoreRefused | agent/internal/store/store.go:186-205 | Restores are refused in a session, for unmanaged files and for missing backups or baselines, and change nothing |
| StoreLaws.PartialRestore | agent/internal/store/store.go:206-237 | Exactly the listed files that the backup holds get its content |
| StoreLaws.RestorePrunes | agent/internal/store/store.go:186-237 | The outcome of a restore in every case, and which backups are left by it |
| StoreRuns.StepTrusted | agent/internal/store/staging.go:198-268 | A step makes live what the validator was asked about and accepted, or leaves live as it was |
| StoreRuns.LiveIsTrusted | agent/internal/store/staging.go:198-268 | In every run, at every step boundary, live is the initial configuration or one the validator accepted in the run, also when reloads fail |
| StoreRuns.RejectedCommit | agent/internal/store/staging.go:242-251 | Existing files are as before, staging is kept, live is wholly unchanged if and only if every changed file existed, the backups if and only if none was of that second |
| StoreRuns.RejectedFileIsLive | agent/internal/store/staging.go:242-251 | A rejected commit of a session that created the devices file leaves that file live |
| StoreRuns.RejectedApply | agent/internal/store/store.go:225-231 | The same guarantee for rejected restores of a backup or the baseline |
| StoreRuns.RetryOnlyCloses | agent/internal/store/staging.go:216-263 | After a failed reload, another commit finds no changes and closes the session |
| StoreRuns.RetryMakesNoReload | agent/internal/store/staging.go:216-263 | One changed file, accepted, the reload failing: the file is live, and the retry finds no changes |
| StoreRuns.AcceptedCommit | agent/internal/store/staging.go:221-267 | The snapshot is the newest backup and survives, exactly the newest min(count, retention) remain, the baseline is untouched |
| StoreRuns.CommitIsReversible | agent/internal/store/store.go:186-241 | An accepted full restore of that snapshot gives every file live before the commit its earlier content |
| StoreRuns.RestoredContents | agent/internal/store/store.go:206-218 | A full restore gives a file the backup's content, unless the backup is of the very second of the restore |
| StoreRuns.RestoredNothing | agent/internal/store/store.go:206-218 | A backup restored in its own second is overwritten first, and the broken file stays |
| StoreRuns.DiscardUndoes | agent/internal/store/staging.go:68-94 | Any editing session followed by a discard leaves the whole state as it was |
| StoreRuns.SessionView | agent/internal/store/staging.go:68-145 | A file reads as last written in the session, else as before it was opened |
| StoreRuns.EmptySession | agent/internal/store/staging.go:205-219 | A session committed without an edit finds no changes and leaves everything as it was |
| StoreRuns.EditsStayStaged | agent/internal/store/staging.go:133-145 | Edits touch neither live, backups, baseline nor retention |
| StoreRuns.StepProvenance | agent/internal/store/staging.go:117-145 | Whatever any version of a file holds after a step was held before by some version, or was just written |
| EditScript.FillTable | agent/internal/store/diff.go:75-89 | Every cell of the table is the recursive common-subsequence length |
| EditScript.DiffOps | agent/internal/store/diff.go:73-113 | The cursor loops yield the specified script |
| EditScript.OpsAreAScript | agent/internal/store/diff.go:90-112 | Old lines, new lines and line numbers of the script are exact, and it keeps as many lines as the table says |
| EditScript.ShortestScript | agent/internal/store/diff.go:73-113 | No script between the two texts inserts and deletes fewer lines or keeps more |
| EditScript.PreferredScript | agent/internal/store/diff.go:90-112 | Of all shortest scripts it is the one that keeps a line as early as possible and, on a tie, removes before it adds |
| UnifiedDiff.SameLines | agent/internal/store/diff.go:148-154 | Two texts have the same lines if and only if they differ in at most one final newline |
| UnifiedDiff.HunkRange | agent/internal/store/diff.go:115-146 | Counts are the numbers of old and new lines shown, starts the first line numbers, 0 for an empty range |
| UnifiedDiff.UnifiedDiff | agent/internal/store/diff.go:11-64 | Writes the specified diff of the two texts |
| UnifiedDiff.FindEnd | agent/internal/store/diff.go:35-47 | The search stops at the seventh equal line in a row or at the end |
| DiffHunks.HunkLayout | agent/internal/store/diff.go:20-62 | Hunks are ordered and apart, every change lies in exactly one, context is at most three lines and exactly as HunkShape says |
| DiffHunks.FirstRemoved | agent/internal/store/diff.go:26-50 | The one hunk of a removed first line shows three equal lines behind it while fewer than seven follow, two when seven or more do |
| Patch.HeadersAreExact | agent/internal/store/diff.go:115-146 | On each side a hunk starts at the line after those before it; 0 is reported only when that whole side is empty |
| Patch.HeaderPrinted | agent/internal/store/diff.go:55 | A printed hunk header reads back as its four numbers |
| Patch.DiffIsAPatch | agent/internal/store/diff.go:11-64 | The diff read back as hunks and strictly applied to the old lines yields the new lines |
| Patch.EmptyDiff | agent/internal/store/diff.go:11-16 | The diff is empty if and only if the texts differ in at most one final newline |
| Patch.BlankLineUnseen | agent/internal/store/diff.go:148-154 | A file of one empty line and an empty file have no diff |
| DeviceRefs.ValidateDevices | agent/internal/api/server.go:268-294 | The loop accepts and completes a request exactly as CheckDevices says |
| DeviceRefs.ValidateGroups | agent/internal/api/server.go:327-341 | The same for groups, with the incoming names |
| DeviceRefs.LoadGroupList | agent/internal/api/server.go:216-235 | The groups of the effective file with their numbers of members |
| DeviceRefs.MembersCounted | agent/internal/api/server.go:225-233 | A group has as many members as devices name it |
| DeviceRefs.PutDevices | agent/internal/api/server.go:246-296 | Reply and new state are those of the specified answer, for every body and state; DevicePuts.DevicesPut says what is in it |
| DeviceRefs.PutDeviceGroups | agent/internal/api/server.go:307-355 | The same for groups; DevicePuts.GroupsPut says what is in the answer |
| DevicePuts.DevicesPut | agent/internal/api/server.go:246-296 | Over a sound file: staged if and only if every device is acceptable, else a bad request; the staged file holds the devices sent, field by field and in display order, a left-out custom key being the file's, and the groups of the file |
| DevicePuts.GroupsPut | agent/internal/api/server.go:307-355 | Bad request, conflict when a device would lose its group, or staged, exactly; the staged file holds the groups sent, field by field, and the devices of the file |
| DevicePuts.AnswerEffect | agent/internal/api/server.go:563-577 | A refusal changes nothing; a staged text is what is read from then on and changes nothing else; without a session nothing changes |
| DevicePuts.UnreadableFile | agent/internal/api/server.go:208-235 | A missing or unparsable file is a failure, and nothing else is |
| DeviceRefsRuns.RenderedIsSound | agent/internal/tacconfig/render.go:32-80 | A file rendered from checked entities reads back well-formed with every parent a group of the file |
| DeviceRefsRuns.DevicesAnswerSound | agent/internal/api/server.go:246-296 | What a devices PUT stages over a sound file is sound |
| DeviceRefsRuns.GroupsAnswerSound | agent/internal/api/server.go:307-355 | What a groups PUT stages over a sound file is sound |
| DeviceRefsRuns.NoOrphans | agent/internal/api/server.go:342-353 | Without a conflict every device's group is among the incoming ones |
| DeviceRefsRuns.ReferencesHold | agent/internal/api/server.go:246-355 | Over every run of PUTs and store calls, each version of 04-devices.cfg, live, staged, baseline or backup, has every parent naming a group in it |
| ZoneFile.RenderZone | agent/internal/dns/dns.go:506-555 | Writes the specified zone text with the fitted column widths |
| ZoneFile.HeadWritten | agent/internal/dns/dns.go:533-539 | The eight lines in front of the records, written out |
| ZoneFile.RecordsWritten | agent/internal/dns/dns.go:510-553 | Two records of one zone, in columns as wide as their longest entries |
| ZoneFile.ParseZoneFile | agent/internal/dns/dns.go:450-497 | Yields the zone the matchers specify, line by line, with its kind and network |
| ZoneFile.BareZone | agent/internal/dns/dns.go:450-468 | Kind and network go by the name; without a dollar sign the TTL is 3600, without a parenthesis there is no authority |
| ZoneLines.TtlWritten | agent/internal/dns/dns.go:446 | The default TTL is the number behind $TTL, in either case, at the start of the first line with a dollar sign |
| ZoneLines.SoaWritten | agent/internal/dns/dns.go:445 | A start of authority in any layout and case yields its two names and the text in its parentheses |
| ZoneLines.LineWritten | agent/internal/dns/dns.go:447 | A record line in any layout, with or without a TTL and a comment, is matched as it was written |
| ZoneLines.TailWithoutValue | agent/internal/dns/dns.go:447 | Without a value a line is no record, unless two blanks stand behind the type |
| ZoneLines.LineCounts | agent/internal/dns/dns.go:473-483 | A matched line is a record when it is no comment or directive and of one of the eight types |
| ZoneLines.NumberRead | agent/internal/dns/dns.go:460-466 | Numbers out of the range of 64 bits are read as its ends |
| ZoneLines.NoNumberRead | agent/internal/dns/dns.go:460-466 | A text that is no number is read as zero |
| ZoneLines.UpperCodes | agent/internal/dns/dns.go:479 | Which characters upper-casing takes to letters of ASCII |
| ZoneFileRoundTrip.IntReads | agent/internal/dns/dns.go:460-466 | A printed 64-bit integer is read back |
| ZoneFileRoundTrip.LineReadsBack | agent/internal/dns/dns.go:472-494 | For every record that passes validation and any fitting widths: the reading of its printed line alone, behind the stripping of authority, yields exactly that record if and only if the line is sound |
| ZoneFileRoundTrip.LineYields | agent/internal/dns/dns.go:472-495 | Otherwise sound records come back with as much of their value as stands before a semicolon |
| ZoneFileRoundTrip.LineIsLost | agent/internal/dns/dns.go:472-476 | A validated record whose owner makes its line a comment or a directive yields nothing |
| ZoneFileRoundTrip.PolicyIsCut | agent/internal/dns/dns.go:447 | The value v=DMARC1; p=none passes validation and is read back as v=DMARC1 |
| ZoneFileRoundTrip.OwnerIsLost | agent/internal/dns/dns.go:474 | An address record of the owner ;x passes validation and is lost |
| ZoneFileRoundTrip.RecordsParse | agent/internal/dns/dns.go:472-495 | For any widths, with or without a TTL column, plain records are read back in order |
| ZoneFileRoundTrip.SoaReads | agent/internal/dns/dns.go:463-470 | The authority fields are found and stripped whatever the records hold |
| ZoneFileRoundTrip.ZoneRoundTrip | agent/internal/dns/dns.go:444-555 | Parsing a rendered zone gives the same names, serial, TTL and records |
| ZoneAuthority.HeadIsRead | agent/internal/dns/dns.go:460-468 | The head read from any file is sound if and only if a start of authority is found; else the names are empty and the serial is zero |
| ZoneAuthority.NamelessZone | agent/internal/dns/dns.go:532-539 | A head rendered without the two names is no start of authority: what is found and stripped is what the printed records hold |
| ZoneAuthority.NamelessRecords | agent/internal/dns/dns.go:470-495 | The records of such a file are those read from the stripped text of its records |
| ZoneAuthority.ValidLines | agent/internal/dns/dns.go:161-190 | Validated records without an opening parenthesis do not read as a start of authority |
| ZoneSurvival.StripShrinks | agent/internal/dns/dns.go:470 | Stripping adds no opening parenthesis, and takes at least one away when a start of authority is found |
| ZoneSurvival.TextParts | agent/internal/dns/dns.go:472-495 | The owners and values read from any text hold no more opening parentheses than the text |
| ZoneSurvival.PlainTextReads | agent/internal/dns/dns.go:472-495 | The printed text of validated records splits and reads as them if and only if every line is sound |
| ZoneSurvival.AuthorityCosts | agent/internal/dns/dns.go:470 | Validated records whose text holds a start of authority do not come back |
| ZoneSurvival.RecordsSurvive | agent/internal/dns/dns.go:450-497 | Parsing a rendered zone yields its validated records if and only if all their lines are sound and they hold no start of authority |
| ZoneSurvival.QuotedIsStripped | agent/internal/dns/dns.go:470 | A validated TXT record with a sound line comes back with the value SOA |
| ZoneRuns.SerialGrows | agent/internal/dns/dns.go:153-159 | The next serial is greater if and only if the last one is not the largest integer, for any clock |
| ZoneRuns.SerialOrder | agent/internal/dns/dns.go:153-159 | In 32 bits it is greater in the order of section 3.2 of RFC 1982 if and only if it is less than 2^31 ahead, so always through 2147 |
| ZoneRuns.BindProvider.ReplaceRecords | agent/internal/dns/dns.go:405-430 | The zone files after a replacement, accepted or refused |
| ZoneRuns.BindProvider.ValidateRecords | agent/internal/dns/dns.go:161-190 | Accepts exactly the lists whose records are all valid |
| ZoneFile.AcceptedRecords | agent/internal/dns/dns.go:161-190 | Exactly which records are valid, by type: addresses of their kind for A and AAAA, the other six types, owners and values |
| ZoneRuns.AuthorityOfRecords | agent/internal/dns/dns.go:421-427 | In a file without an authority, the authority and serial read after a replacement are those its records hold |
| ZoneRuns.SerialAdvances | agent/internal/dns/dns.go:421-427 | For all records: the serial read back is greater if and only if an authority is found in the replaced file, its serial not the largest integer, or none is and the records hold one with a positive serial |
| ZoneRuns.RecordBecomesAuthority | agent/internal/dns/dns.go:463-468 | A validated TXT record in a zone without an authority sets the name server, administrator and serial |
| ZoneRuns.NoAuthorityRepeats | agent/internal/dns/dns.go:421-427 | Without one, a replacement leaves no trace in the next of the same date, which writes the same serial |
| ZoneRuns.SameSerialTwice | agent/internal/dns/dns.go:445 | A zone with its authority on one line loses it, and keeps its serial over a second replacement |
| ZoneRuns.SerialsIncrease | agent/internal/dns/dns.go:405-430 | Over any sequence of replacements and clock readings, even backwards, the serial of a zone with an authority grows by at least one for each accepted one and its authority stays |
| ZoneRuns.AuthorityOverRuns | agent/internal/dns/dns.go:405-430 | Over any sequence of replacements, a zone ends with an authority if and only if it had one or was once replaced by records that hold one |
| ZoneRuns.SerialsStuck | agent/internal/dns/dns.go:405-430 | As long as it has none, its serial reads as zero |
| ZoneRuns.ReplacementSurvives | agent/internal/dns/dns.go:421-427 | After a replacement of any file, the accepted records are read back if and only if their lines are sound and they hold no authority |
| ZoneRuns.LastReplacement | agent/internal/dns/dns.go:405-430 | After any run, a zone's records are those of its last accepted replacement under exactly that condition |
| SotMerge.UpsertRecord | agent/internal/api/dnssot.go:148-156 | Updates the value of the first record of the key or appends, and says which |
| SotMerge.MergeExactly | agent/internal/api/dnssot.go:181-250 | What each old record becomes, and that the rest is one record for each new key with its last value |
| SotMerge.MergeIdempotent | agent/internal/api/dnssot.go:181-250 | Merging the same list twice equals merging it once |
| SotMerge.MergeUnique | agent/internal/api/dnssot.go:148-156 | Uniqueness of name and type is preserved |
| SotMerge.LastWins | agent/internal/api/dnssot.go:240-249 | A merged record keeps its value if and only if it is the last of its key |
| SotSync.SyncReverse | agent/internal/api/dnssot.go:196-213 | The loop merges the planned PTR records and counts what it skips; SotSyncLaws.ReverseSync says which they are |
| SotSync.SyncPrefix | agent/internal/api/dnssot.go:230-248 | The same for one prefix of a forward zone, going on from the prefixes before; SotSyncLaws.ForwardSync says which records those are |
| SotSync.SyncForward | agent/internal/api/dnssot.go:224-249 | The nested loops merge the records of the concatenated entries, or fail with the first call that fails |
| SotSync.SyncZone | agent/internal/api/dnssot.go:160-271 | The answer for either kind of zone; records are written unless it is a dry run or no record was planned |
| SotSyncLaws.ForwardEntry | agent/internal/api/dnssot.go:230-239 | An entry becomes a record if and only if its name is the zone's, a host name under it, or one without a dot: of type AAAA exactly for IPv6 and A otherwise, the address its value, the owner completing to the full name |
| SotSyncLaws.ReverseEntry | agent/internal/api/dnssot.go:196-207 | An IPv4 entry becomes a PTR record to its absolute name if and only if that is a host name; one of IPv6 is passed over |
| SotSyncLaws.ForwardSync | agent/internal/api/dnssot.go:214-250 | For every inventory that answers: one such record for each entry with a usable name, in the order of prefixes and entries, all merged; added are those whose owner and type are new, the rest updated, the others skipped |
| SotSyncLaws.ReverseSync | agent/internal/api/dnssot.go:183-213 | The same for the entries of a reverse zone's network |
| SotSyncLaws.SyncRefused | agent/internal/api/dnssot.go:184-229 | Refused without a network or a tag, failed if and only if an inventory call fails |
| SotSync.ChangesCounted | agent/internal/api/dnssot.go:205-213 | Every merged record is counted once, as an addition or as an update |
| SotSync.SyncTwice | agent/internal/api/dnssot.go:160-271 | A second synchronisation of any zone adds nothing and leaves the records as they are |
| ReverseZones.ReverseZoneName | agent/internal/dns/dns.go:96-119 | The name of the covering /8, /16 or /24, none for shorter prefixes |
| ReverseZones.ReverseInPlace | agent/internal/dns/dns.go:146-148 | The array is reversed |
| ReverseZones.NetworkOfZone | agent/internal/dns/dns.go:71-88 | Computes the network of a zone name |
| ReverseZones.PtrOwnerOf | agent/internal/dns/dns.go:135-150 | Computes the owner label of an address in a zone |
| ReverseZones.NetworkContains | agent/internal/dns/dns.go:71-119 | The network of a prefix's reverse zone contains the prefix and equals it at /8, /16 and /24 |
| ReverseZones.OwnerCompletes | agent/internal/dns/dns.go:135-150 | Owner, dot and zone make the reverse name of the address (section 3.5 of RFC 1035) |
| ReverseZones.OwnersDistinct | agent/internal/dns/dns.go:131-150 | Distinct addresses of a zone get distinct owners |
| ReverseZones.OwnerWithoutZone | agent/internal/dns/dns.go:121-150 | Where a zone name has no network, the owner is the last of four parts, or the whole text |
| ReverseZones.OwnerOfOther | agent/internal/dns/dns.go:121-142 | So it is in any zone of a text that is not of four parts |
| ReverseZones.NoNetwork | agent/internal/dns/dns.go:71-88 | A name that is not of one to three labels under in-addr.arpa has no network |
| ReverseZones.KindsAre | agent/internal/dns/dns.go:58-67 | A zone is a reverse one if and only if its name ends in one of the two suffixes |
| ReverseZones.PrivateNetwork | agent/internal/dns/dns.go:71-150 | 192.168.1.0/24 and its zone, and the owner of 192.168.5.10, written out |
| TexEnvironments.FindBracketed | frontend/docsgen/build.py:49-60 | The text up to the first closing bracket outside braces, or the error |
| TexEnvironments.FindEnv | frontend/docsgen/build.py:63-91 | The nesting loop finds what the recursive search finds |
| TexEnvironments.MatchIsClosing | frontend/docsgen/build.py:77-90 | An end is found if and only if it closes what is open, counting environments of the same name |
| TexEnvironments.EnvIsMatched | frontend/docsgen/build.py:63-91 | The hit is the first beginning with its own end and the body between; it fails exactly when options or environment never close |
| TexEnvironments.OneEndCloses | frontend/docsgen/build.py:77-90 | No two ends close the same beginning |
| TexRoundTrip.BracketIsClosing | frontend/docsgen/build.py:49-60 | Options end at the first bracket in no braces |
| TexRoundTrip.EnvPieces | frontend/docsgen/build.py:63-91 | An environment written without options, between anything without its marks, is found with the body it was written with |
| TexRoundTrip.EnvWithOptions | frontend/docsgen/build.py:63-91 | So is one with options in brackets, and they with it |
| TexBlocks.FindBraced | frontend/docsgen/build.py:35-46 | The text up to the unescaped brace that closes the first, or the error |
| TexContents.BraceIsClosing | frontend/docsgen/build.py:35-46 | The brace found is the first at which as many unescaped braces have closed as opened |
| TexContents.BalancedCloses | frontend/docsgen/build.py:35-46 | A balanced text between braces is what they enclose |
| TexBlocks.ReadOption | frontend/docsgen/build.py:94-104 | The value of the leftmost such key, in braces or up to a comma or bracket |
| TexContents.OptionRead | frontend/docsgen/build.py:94-104 | Of any options: absent if and only if no equal sign follows the key anywhere; else the value behind the first, in braces or up to a comma, bracket or the end |
| TexContents.OptionPieces | frontend/docsgen/build.py:94-104 | key = {value} yields the value, with white space around the equal sign |
| TexTables.ReadParts | frontend/docsgen/build.py:318-332 | The loop over the rows yields the specified head, body and column letters |
| TexTables.HeadAndBody | frontend/docsgen/build.py:318-332 | The head is the rows before the first with a middle rule, the body that and the rest; a table without one is all body |
| TexTableLaws.LettersAre | frontend/docsgen/build.py:337 | The column letters are the l, c, r and p of the specification, in order |
| TexTableLaws.CellsRead | frontend/docsgen/build.py:329 | Cells joined by ampersands are read back, escaped ampersands staying in them |
| TexTableLaws.TableRoundTrip | frontend/docsgen/build.py:318-332 | Every table written with rules and additional space in front of its rows is read back: the cells of its head, of its body, or all as body without a middle rule |
| TexTableLaws.TabularRead | frontend/docsgen/build.py:307-317 | The columns and rows of the first tabular, wherever it stands; none without one |
| TexTableLaws.TabularBare | frontend/docsgen/build.py:311-317 | Without a brace in front of its rows a tabular has no column letters |
| TexTableLaws.OpenSpaceDropped | frontend/docsgen/build.py:326 | An option of additional space that never ends stays in the row |
| TexBlocks.ReadTable | frontend/docsgen/build.py:307-332 | The parts of a table with its column letters, or the error |
| TexBlocks.ReadTabs | frontend/docsgen/build.py:351-360 | The loop yields the title and text of every tab, or the error |
| TexRoundTrip.TabsRoundTrip | frontend/docsgen/build.py:351-360 | Whatever tabs are written, between any texts, their titles and texts are read back in order |
| TexBlocks.MakeBlock | frontend/docsgen/build.py:268-361 | The block each of the five loops appends, or the error it raises; TexContents says what is in it |
| TexContents.FigureBlock | frontend/docsgen/build.py:283-299 | The image is the file of the first image command, the caption the text in braces behind the first caption command, the label the first one; each absent if and only if it does not occur, an error if and only if a caption's braces do not close |
| TexContents.FigureReads | frontend/docsgen/build.py:283-299 | A figure written as image, caption and label, with anything else between, yields these three |
| TexContents.TableBlock | frontend/docsgen/build.py:301-343 | A table's caption and label in the same way, and its parts |
| TexContents.ListingBlockRead | frontend/docsgen/build.py:263-274 | Whether a listing is one of device commands, its caption and label from the options, and its code without newlines around it |
| TexRoundTrip.TabGroupReads | frontend/docsgen/build.py:346-362 | A group of tabs, written out, is read back |
| TexExtraction.ExtractAll | frontend/docsgen/build.py:263-274 | For any of the five environments, the loop that searches the whole text again after each replacement ends, and does what one pass does |
| TexRoundTrip.OneTaken | frontend/docsgen/build.py:263-274 | The first environment of a loop, by its literal name, leaves the line @@BLKn@@ in its place, and the rest is dealt with in the same way |
| TexExtraction.ExtractWeaves | frontend/docsgen/build.py:263-274 | One loop touches its environments only, each the one the search finds first in what remains; putting them back for their placeholders gives the text it started from |
| TexPreprocess.StripComments | frontend/docsgen/build.py:107-119 | The character loop cuts every line at its first unescaped percent sign and strips its end |
| TexRoundTrip.LineCleaned | frontend/docsgen/build.py:107-119 | What is left of a line is what stands before its first unescaped percent sign, stripped at its end |
| TexRoundTrip.TextCleaned | frontend/docsgen/build.py:107-119 | Every line of a text is cleaned on its own |
| TexPreprocess.Preprocess | frontend/docsgen/build.py:259-364 | The five loops and the comments in their order, with every error they raise; it ends for every source |
| TexPreprocess.LoopsInOrder | frontend/docsgen/build.py:259-364 | The blocks are the listings, device commands, figures, tables and tab groups in this order, comments being gone from where figures are looked for and from no listing |
| TexPreprocess.ListingsKept | frontend/docsgen/build.py:259-364 | The listing blocks are the listings of the source in the order of the two loops, each with its body but for newlines at its ends; no other loop makes or changes one |
| TexPlaceholders.CutMark | frontend/docsgen/build.py:274 | A text cut at a mark shares out its placeholders between the two parts |
| TexPlaceholders.TabsShare | frontend/docsgen/build.py:351-360 | The texts of the tabs hold no placeholder twice that their group holds once |
| TexPlaceholders.CommentsKeepIds | frontend/docsgen/build.py:107-119 | Removing comments neither loses nor makes a placeholder |
| TexPlaceholders.ExtractShares | frontend/docsgen/build.py:346-362 | A loop keeps every tag on a line of its own, and the placeholders in its text and tabs are among those it found and those of its blocks, none more often |
| TexPlaceholders.PlaceholdersOnce | frontend/docsgen/build.py:259-364 | For a source without a tag of its own, the placeholders of the resulting text and of all tab texts together have no repetition, and each is the number of a block made from this source |

## Left out

- RulesetRoundTrip.RulesetRoundTrip: regular expressions with parentheses, quotes or doubled blanks are not well-formed here; the tokenizer splits them (agent/internal/tacconfig/lexer.go:31).
- ProfilesRoundTrip.ProfilesRoundTrip: a condition is either inline with its one action or a block; fields the chosen form does not print must be empty.
- DevicesRoundTrip.DevicesRoundTrip: for devices whose custom key is neither the shared key nor its placeholder; those come back as the global kind, as DevicesRoundTrip.RenderedIsRead says.
- StoreRuns.LiveIsTrusted: assumes every managed file is live at the start and DevMode is off; with a file missing a rejected commit can leave an unvalidated new file, as StoreRuns.RejectedCommit shows.
- StoreRuns.AcceptedCommit: assumes a clock later than every backup; two commits in one second share a backup.
- DeviceRefsRuns.ReferencesHold: assumes the field texts of requests are well-formed beyond what the handlers check (no carriage return in names, quotable keys, one-line notes, addresses of single-spaced words).
- ZoneFileRoundTrip.ZoneRoundTrip: the sufficient direction, for a head with its two names and a TTL that is not negative; ZoneSurvival.RecordsSurvive is exact for the records.
- ZoneRuns.SerialsIncrease: assumes that a start of authority is found in the zone file (ZoneRuns.AuthorityOverRuns and ZoneRuns.SerialsStuck have the other case) and that the serial is not within the length of the run of the largest 64-bit integer.
- ZoneSurvival.RecordsSurvive: says when all records come back, not what is read of those that do not.
- TexPlaceholders.PlaceholdersOnce: placeholders in captions, options and the listings inside figures and tables are dropped with the text of those environments.
- Users, groups, logging and settings files, and the regular-expression edits of settings: further renderers of the same kind.
- Meaning of hand-written configurations: the mapper reorders and drops some statements; EntityLaws says what it reads of any of them, not that rendering it again means the same.
- Texts are sequences of characters, not UTF-8 bytes; every delimiter is ASCII. Upper-casing covers the characters that become ASCII letters.
- File input and output, permissions, temporary files, partial disk failures, and interleaving inside one store method (the session check of restores stands before the lock).
- Backup ids are the seconds they were taken in, as numbers; ids with slashes or dots, refused by the store, cannot be expressed.
- The clock, validator, reload, restart, IP-address parsing and the inventory service are parameters.
- The stable sort of the Go library is modelled as insertion; its stability is what is proved of the result.
- Zone creation and deletion, the edits of named.conf.local, and the name-server defaults of new zones.
- HTTP, JSON, authentication, LDAP, NetBox and Docker clients, the React pages, the HTML writer and the C sources under tacacs.
- Everything after preprocess in the documentation generator: lists, paragraphs, inline markup, numbering and pages.
- BackupDiff, StagedDiffs and GoldenDiffs, which apply the diff file by file.
