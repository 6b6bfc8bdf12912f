# Bcfg2 Cfg, GroupPatterns, admin modes and the pseudo file monitor, in Dafny

This project models four parts of the Bcfg2 configuration-management
server and proves properties of the model.

- **Cfg** is the plugin that serves configuration files. Each directory of
  the Cfg repository is an *entry set*. It holds one handler object per
  file, created when the file monitor reports the file. The handler
  classes play four roles: generators, filters, info suppliers and
  verifiers. The model covers:
  - the filename grammar each handler class compiles (`get_regex`,
    `handles`, `ignore`);
  - event dispatch (`handle_event`, `entry_init`);
  - handler selection (`get_handlers`, `has_generator`);
  - the binding pipeline: default metadata, info, generation, filters,
    per-class validation, encoding and storage (`bind_entry`);
  - the pull-target helpers (`list_accept_choices`, `AcceptChoices`,
    `build_filename`).

  Modules: `CfgGrammar`, `CfgHandlers`, `CfgPipeline`, `CfgEntrySets`.
- **GroupPatterns** adds groups to a client from its hostname. It covers
  `PackedDigitRange`, `PatternMap` (regex patterns with `$n`
  substitution and `[[1-5,7]]` name ranges) and `PatternFile`
  (`Index`, `process_patterns`). Module: `GroupPatterns`.
- **Admin**, the base of the `bcfg2-admin` modes, covers:
  - `print_table`, with the lines returned instead of printed;
  - `getCFP`, the configuration parser read once and cached;
  - the plugin whitelist/blacklist and pseudo file monitor set up by
    `MetadataCore`.

  Module: `Admin`.
- **Pseudo** is the file monitor that queues `exists` events for a path
  and its listing, once (`AddMonitor`). Module: `FileMonitor`.

Shared modules:

| module | contents |
|---|---|
| `Wrappers` | `Option` and `Result` |
| `Strings` | digits, `int()`/`str()`, `"%02d"`, `lower`, `split`/`join`, `replace`, `basename` |
| `Seqs` | an order-keeping filter |
| `Specificity` | the specificity of a file and the client metadata |

State the source keeps in objects is modelled in classes whose methods
are proved against specification functions. These classes are
`CfgHandler`, `Entry`, `CfgEntrySet`, `Cfg`, `PatternFile`, `Pseudo`,
`Mode`, `ConfigParser`, `Setup` and `MetadataCore`. Pure computations
are functions, with lemmas about them. The following are parameters
(oracles) of the model:

- everything outside the model: the subclasses' hooks, `best_matching`,
  decoding, base64, `os.stat`, the regular-expression engine used for
  `NamePattern`, and the contents of the configuration file;
- what the environment supplies: directory listings and the file
  contents read on an event.

Where the code and its documentation differ, the model follows the code:

- `_generate_data` is documented as not modifying the entry (Cfg/__init__.py:508-509). Yet it writes the file's mode into `perms` when `perms` is `inherit` (:518-524), before the generator renders. The entry keeps that mode even when rendering fails (`RenderFailureKeepsResolvedPerms`).
- `__ignore__` is documented as ignoring a file that any handler class ignores (:47-51). Yet `handle_event` lets the first class that handles or ignores the file decide (:360-372), so an earlier class that handles it wins (`ClaimBeforeIgnore`).

## Model

| member | source | states |
|---|---|---|
| CfgGrammar.MatchFilenameIff | src/lib/Bcfg2/Server/Plugins/Cfg/__init__.py:76-96 | `get_regex(basenames).match(name)` succeeds exactly for the names of the grammar: a basename alternative; then, for a specific class only, nothing, `.H_` and a non-empty non-space host, or `.G`, digits, `_` and a non-empty non-space group; then, for a class with extensions, `.ext` for one of them; then the end or one final newline |
| CfgGrammar.MatchFromSound | src/lib/Bcfg2/Server/Plugins/Cfg/__init__.py:76-96 | every match's captured basename, token and extension reassemble the filename (up to one final newline); the token is absent for a non-specific class; the extension is present exactly when the class has extensions |
| CfgGrammar.MatchFromIff | src/lib/Bcfg2/Server/Plugins/Cfg/__init__.py:88 | trying the basename alternatives in order finds a match exactly when some alternative is followed by a valid rest |
| CfgGrammar.MatchRestIff | src/lib/Bcfg2/Server/Plugins/Cfg/__init__.py:89-91 | the matcher after the basename accepts exactly the rest-of-name language (specificity token, then tail) |
| CfgGrammar.MatchRestSound | src/lib/Bcfg2/Server/Plugins/Cfg/__init__.py:89-95 | what follows the basename is the captured token followed by the captured extension |
| CfgGrammar.MatchSpecificSound | src/lib/Bcfg2/Server/Plugins/Cfg/__init__.py:89-91 | the specificity group captures a well-formed token, and the tail matches after it |
| CfgGrammar.MatchSpecificComplete | src/lib/Bcfg2/Server/Plugins/Cfg/__init__.py:89-91 | any well-formed token followed by a valid tail is found, whichever alternative it uses |
| CfgGrammar.MatchHostSound | src/lib/Bcfg2/Server/Plugins/Cfg/__init__.py:89 | `.H_(?P<hostname>\S+?)` captures a non-empty non-space prefix after which the tail matches |
| CfgGrammar.MatchHostComplete | src/lib/Bcfg2/Server/Plugins/Cfg/__init__.py:89 | whenever some non-space host is followed by a matching tail, the host alternative matches |
| CfgGrammar.MatchGroupSound | src/lib/Bcfg2/Server/Plugins/Cfg/__init__.py:90 | `.G(?P<prio>\d+)_(?P<group>\S+?)` captures a digit priority and a non-empty non-space group, after which the tail matches |
| CfgGrammar.MatchGroupComplete | src/lib/Bcfg2/Server/Plugins/Cfg/__init__.py:90 | whenever digits, `_` and a non-space group are followed by a matching tail, the group alternative matches |
| CfgGrammar.LazySound | src/lib/Bcfg2/Server/Plugins/Cfg/__init__.py:89-90 | the lazy `\S+?` returns a non-space prefix at least as long as asked, after which the tail matches |
| CfgGrammar.LazyComplete | src/lib/Bcfg2/Server/Plugins/Cfg/__init__.py:89-90 | the lazy `\S+?` succeeds whenever some long-enough non-space prefix is followed by a matching tail |
| CfgGrammar.MatchTailIff | src/lib/Bcfg2/Server/Plugins/Cfg/__init__.py:92-95 | the tail matcher accepts exactly `.ext` (one of the class's extensions) or nothing (a class without extensions), before the end or one final newline; the captured extension is that `ext` |
| CfgGrammar.MatchExtensionIff | src/lib/Bcfg2/Server/Plugins/Cfg/__init__.py:92-95 | the extension alternatives match exactly when the rest is `.e` (or `.e` and a newline) for some listed `e`, and the capture is such an `e` |
| CfgGrammar.Ignores | src/lib/Bcfg2/Server/Plugins/Cfg/__init__.py:124-141 | a class ignores a file exactly when its name ends with `.e` for some `e` in `__ignore__` |
| CfgGrammar.SuffixRoundTrip | src/lib/Bcfg2/Server/Plugins/Cfg/__init__.py:582-587 | the suffix written for a writable specificity is read back by a specific, extension-less class as that same specificity |
| CfgGrammar.BuildFilenameBasename | src/lib/Bcfg2/Server/Plugins/Cfg/__init__.py:579-587 | the last component of the name `build_filename` writes is the entry set's basename followed by the specificity suffix |
| CfgGrammar.BuildFilenameRoundTrip | src/lib/Bcfg2/Server/Plugins/Cfg/__init__.py:579-587 | the file `build_filename` names is claimed by the entry set's specific, extension-less handler, and its name reads back as exactly the specificity written |
| CfgHandlers.SetInfo | src/lib/Bcfg2/Server/Plugins/Cfg/__init__.py:241-253 | `_set_info` writes the info pairs in order, skipping keys that start with `__`; the text is untouched |
| CfgHandlers.ApplyInfoUntouched | src/lib/Bcfg2/Server/Plugins/Cfg/__init__.py:251-253 | keys starting with `__`, and keys the info does not mention, keep their presence and value |
| CfgHandlers.ApplyInfoWrites | src/lib/Bcfg2/Server/Plugins/Cfg/__init__.py:251-253 | every pair of a dict whose key does not start with `__` ends up in the attributes |
| CfgHandlers.ValuesInSpec | src/lib/Bcfg2/Server/Plugins/Cfg/__init__.py:471 | listing the dict's values by its key order gives one value per key, in order, and only values of the dict |
| CfgPipeline.InfoStageKeys | src/lib/Bcfg2/Server/Plugins/Cfg/__init__.py:484-503 | after info binding a `Path` entry has `type='file'`, and no key starting with `__` was added, removed or changed |
| CfgPipeline.InfoStageFirstWins | src/lib/Bcfg2/Server/Plugins/Cfg/__init__.py:495-501 | each pair of the first applicable info handler overrides the defaults, whatever other info handlers say (except `type` on a `Path`) |
| CfgPipeline.GenerateStageResult | src/lib/Bcfg2/Server/Plugins/Cfg/__init__.py:505-531 | generation succeeds exactly when `best_matching` picks a generator, `perms` is set and the generator renders; the data is that generator's; no attribute changes but `perms`, and `perms` only when it was `inherit` in some case |
| CfgPipeline.GenerateAttribSpec | src/lib/Bcfg2/Server/Plugins/Cfg/__init__.py:515-531 | the attributes generation leaves are unchanged when it fails before the permissions step, hold the resolved `perms` when the generator fails to render, and are those passed to the generator on success; only `perms` ever changes |
| CfgPipeline.RenderFailureKeepsResolvedPerms | src/lib/Bcfg2/Server/Plugins/Cfg/__init__.py:518-531 | with `perms='inherit'`, a generator that fails to render leaves the file's mode in `perms`, so the entry differs from before whenever that mode is not the old value |
| CfgPipeline.FilterStageConcat | src/lib/Bcfg2/Server/Plugins/Cfg/__init__.py:417-418 | the filter chain over `f1 + f2` is the chain over `f1` followed by the chain over `f2`, stopping at the first failure |
| CfgPipeline.GroupByClassWellFormed | src/lib/Bcfg2/Server/Plugins/Cfg/__init__.py:546-552 | `verifiers_by_class` has one non-empty group per class name, in first-seen order; each group holds exactly that class's verifiers, in order; every verifier's class is a key |
| CfgPipeline.GroupStepWellFormed | src/lib/Bcfg2/Server/Plugins/Cfg/__init__.py:547-552 | one step of the grouping loop keeps the grouping well formed |
| CfgPipeline.CheckGroupsIff | src/lib/Bcfg2/Server/Plugins/Cfg/__init__.py:553-555 | checking the groups succeeds exactly when each group's best verifier exists and accepts the data |
| CfgPipeline.ValidateStageIff | src/lib/Bcfg2/Server/Plugins/Cfg/__init__.py:533-555 | validation succeeds exactly when, for every verifier class present, the best verifier of that class accepts the data |
| CfgPipeline.BindStageResult | src/lib/Bcfg2/Server/Plugins/Cfg/__init__.py:413-458 | a successful bind stores the encoded, filtered generator output: as the text when non-empty, else as `empty='true'` with the text kept; with `encoding='base64'` the stored data is the base64 of it; with validation on, every class's best verifier accepted it |
| CfgPipeline.BindStageVerificationError | src/lib/Bcfg2/Server/Plugins/Cfg/__init__.py:420-428 | with validation on, a verification failure after generation and filtering is the error binding reports |
| CfgPipeline.AcceptChoicesShape | src/lib/Bcfg2/Server/Plugins/Cfg/__init__.py:557-577 | the choices are one or two specificities, the last host-specific: the best generator's own host, or the client's host appended; the first is the specificity of the generator `best_matching` picks among those matching the client, and the choices are only the client's host when `best_matching` raises; there is no base file exactly when every generator has a specificity and none matches the client |
| CfgEntrySets.DecideFromSpec | src/lib/Bcfg2/Server/Plugins/Cfg/__init__.py:360-372 | the first handler class that handles or ignores the file decides; all classes before it do neither; there is no decision exactly when no class handles or ignores it |
| CfgEntrySets.ClaimBeforeIgnore | src/lib/Bcfg2/Server/Plugins/Cfg/__init__.py:360-372 | a class that handles the file decides it whenever every class before it neither handles nor ignores it, whatever the classes after it do |
| CfgEntrySets.CfgEntrySet.SelectedMembers | src/lib/Bcfg2/Server/Plugins/Cfg/__init__.py:472-475 | a handler is selected exactly when it has the role and is either not specific or matches the client |
| CfgEntrySets.CfgEntrySet.SelectedInOrder | src/lib/Bcfg2/Server/Plugins/Cfg/__init__.py:471-476 | the selected handlers keep the entry set's order |
| CfgEntrySets.CfgEntrySet.SelectedEmpty | src/lib/Bcfg2/Server/Plugins/Cfg/__init__.py:471-476 | nothing is selected exactly when no entry applies |
| CfgEntrySets.CfgEntrySet.GetHandlers | src/lib/Bcfg2/Server/Plugins/Cfg/__init__.py:461-482 | the loop returns exactly the selected handlers, in order |
| CfgEntrySets.CfgEntrySet.EntryInit | src/lib/Bcfg2/Server/Plugins/Cfg/__init__.py:387-411 | a known file keeps its handler and is re-read; a new file gets a fresh handler of the class, appended in order, with the specificity read from its name; a specific class whose regex does not match adds nothing |
| CfgEntrySets.CfgEntrySet.HandleEvent | src/lib/Bcfg2/Server/Plugins/Cfg/__init__.py:344-381 | an unknown file with a non-create event is dropped; otherwise the first class that handles it creates the entry and the first that ignores it stops the search; a known file is re-read on `changed`, removed on `deleted`, and left alone otherwise |
| CfgEntrySets.CfgEntrySet.BindInfoToEntry | src/lib/Bcfg2/Server/Plugins/Cfg/__init__.py:484-503 | the entry's attributes become the defaults, then the first applicable info handler's dict, then `type='file'` for a `Path` |
| CfgEntrySets.CfgEntrySet.GenerateData | src/lib/Bcfg2/Server/Plugins/Cfg/__init__.py:505-531 | the result is that of the generation stage over the applicable generators; whatever the outcome, the entry's attributes are the generation's attributes: unchanged when no generator is picked or `perms` is missing, with `perms` resolved otherwise, also when the generator then fails to render |
| CfgEntrySets.CfgEntrySet.FilterData | src/lib/Bcfg2/Server/Plugins/Cfg/__init__.py:417-418 | the applicable filters are applied in order, each to the previous output |
| CfgEntrySets.CfgEntrySet.ValidateData | src/lib/Bcfg2/Server/Plugins/Cfg/__init__.py:533-555 | the result is the validation stage over the applicable verifiers |
| CfgEntrySets.GroupVerifiers | src/lib/Bcfg2/Server/Plugins/Cfg/__init__.py:546-552 | the loop builds exactly the grouping by class name |
| CfgEntrySets.CheckVerifierGroups | src/lib/Bcfg2/Server/Plugins/Cfg/__init__.py:553-555 | the loop over the groups computes the group check |
| CfgEntrySets.CfgEntrySet.FinishBind | src/lib/Bcfg2/Server/Plugins/Cfg/__init__.py:417-458 | after generation, the entry ends as filtering, validation, encoding and storage say; on failure the attributes and text are unchanged |
| CfgEntrySets.CfgEntrySet.BindEntry | src/lib/Bcfg2/Server/Plugins/Cfg/__init__.py:413-458 | the result and the final attributes and text are those of the binding pipeline over the applicable handlers; on failure the text is unchanged and the attributes are those after info binding and the `perms` step of generation, so info binding always takes effect |
| CfgEntrySets.Cfg.HasGenerator | src/lib/Bcfg2/Server/Plugins/Cfg/__init__.py:659-676 | true exactly when the name has an entry set and some generator in it applies to the client |
| CfgEntrySets.Cfg.AcceptChoices | src/lib/Bcfg2/Server/Plugins/Cfg/__init__.py:678-680 | an unknown name fails; otherwise the entry set's `list_accept_choices` |
| GroupPatterns.ParseItems | src/lib/Bcfg2/Server/Plugins/GroupPatterns.py:17-21 | the items parse exactly when every item is a number or a `-`-separated list of numbers; each parsed item is the item's own parse |
| GroupPatterns.NewPackedDigitRange | src/lib/Bcfg2/Server/Plugins/GroupPatterns.py:14-21 | the loop over the comma-separated items builds exactly the parsed range, or fails where `int()` raises |
| GroupPatterns.SparseRangesMembers | src/lib/Bcfg2/Server/Plugins/GroupPatterns.py:18-21 | the single numbers and the spans are exactly those of the items |
| GroupPatterns.SpanLength | src/lib/Bcfg2/Server/Plugins/GroupPatterns.py:18-19 | an item with a `-` gives a span of at least two numbers |
| GroupPatterns.IncludesIff | src/lib/Bcfg2/Server/Plugins/GroupPatterns.py:23-31 | with pair spans, `includes(n)` is true exactly when `n` is a single number or lies in some `start..end` inclusive |
| GroupPatterns.IncludesMalformed | src/lib/Bcfg2/Server/Plugins/GroupPatterns.py:28 | a span that is not a pair raises once the loop reaches it without having found `n` |
| GroupPatterns.DigitRangeIncludes | src/lib/Bcfg2/Server/Plugins/GroupPatterns.py:14-31 | the range parsed from a text includes `n` exactly when some item of the text is `n` or a `start-end` covering it |
| GroupPatterns.RenderTokenize | src/lib/Bcfg2/Server/Plugins/GroupPatterns.py:47-53 | cutting a name range into literal characters and `[[...]]` slots, the way `re.sub` scans it, loses nothing |
| GroupPatterns.MatchPiecesSound | src/lib/Bcfg2/Server/Plugins/GroupPatterns.py:49-50 | what the range matcher captures fills the template into a prefix of the name, each slot with a non-empty digit run |
| GroupPatterns.MatchPiecesComplete | src/lib/Bcfg2/Server/Plugins/GroupPatterns.py:49-50 | whenever some digit filling of the template is a prefix of the name, the matcher matches |
| GroupPatterns.NewPatternMap | src/lib/Bcfg2/Server/Plugins/GroupPatterns.py:37-57 | a built pattern map keeps the groups and has one digit range per slot |
| GroupPatterns.NewPatternMapErrors | src/lib/Bcfg2/Server/Plugins/GroupPatterns.py:41-46 | no pattern and no range raises; a range with a backslash raises; a pattern is built exactly when it compiles, as a regex matcher |
| GroupPatterns.NewPatternMapRange | src/lib/Bcfg2/Server/Plugins/GroupPatterns.py:44-55 | a range is built exactly when it has no backslash and every slot's text is a valid digit range |
| GroupPatterns.ProcessRangeIff | src/lib/Bcfg2/Server/Plugins/GroupPatterns.py:59-68 | a range pattern yields its groups, unchanged, exactly when the template matches and every captured number is in its slot's range |
| GroupPatterns.CheckCapturesIff | src/lib/Bcfg2/Server/Plugins/GroupPatterns.py:64-67 | the loop over the captures accepts exactly when each is included in its range |
| GroupPatterns.ProcessRe | src/lib/Bcfg2/Server/Plugins/GroupPatterns.py:70-82 | the nested loops rewrite each group by replacing `$1`, then `$2`, and so on; no match gives none; a missing capture raises |
| GroupPatterns.ProcessReShape | src/lib/Bcfg2/Server/Plugins/GroupPatterns.py:70-82 | no match exactly when the search fails; otherwise one group per configured group, and a group without `$` comes out unchanged |
| GroupPatterns.ProcessOne | src/lib/Bcfg2/Server/Plugins/GroupPatterns.py:43-48 | `process` dispatches to the regex or the range matcher |
| GroupPatterns.IndexSpecConcat | src/lib/Bcfg2/Server/Plugins/GroupPatterns.py:110-121 | indexing a document made of two parts indexes each part in turn |
| GroupPatterns.BuildUntilFailureSpec | src/lib/Bcfg2/Server/Plugins/GroupPatterns.py:111-121 | within one element, pattern maps are built in order until the first constructor that raises; each one is well formed and has the element's groups |
| GroupPatterns.IndexSpecGroups | src/lib/Bcfg2/Server/Plugins/GroupPatterns.py:104-121 | every indexed pattern map is well formed and has the groups of some element of the document |
| GroupPatterns.PatternFile.Index | src/lib/Bcfg2/Server/Plugins/GroupPatterns.py:104-121 | `patterns` is rebuilt from scratch: per element, name patterns then name ranges, stopping at the element's first failure |
| GroupPatterns.CombinedMember | src/lib/Bcfg2/Server/Plugins/GroupPatterns.py:123-136 | a group is returned exactly when some pattern matched and listed it |
| GroupPatterns.CombinedConcat | src/lib/Bcfg2/Server/Plugins/GroupPatterns.py:127-131 | processing two lists of patterns in turn concatenates their groups |
| GroupPatterns.PatternFile.ProcessPatterns | src/lib/Bcfg2/Server/Plugins/GroupPatterns.py:123-136 | the loop returns the groups of every matching pattern, in order; patterns that raise are skipped |
| Admin.JustifyOfCaseless | src/lib/Bcfg2/Server/Admin/__init__.py:85-87 | only `left`, `center` and `right` are accepted, in any letter case |
| Admin.JustifyCellSpec | src/lib/Bcfg2/Server/Admin/__init__.py:85-87 | a justified cell is as wide as the larger of text and width; the text sits intact with only spaces around it: right-padded for `ljust`, left-padded for `rjust`, evenly within one space for `center` |
| Admin.NumColsShortest | src/lib/Bcfg2/Server/Admin/__init__.py:91 | `zip(*rows)` has as many columns as the shortest row, and none without rows |
| Admin.ColumnWidthsSpec | src/lib/Bcfg2/Server/Admin/__init__.py:92-93 | each column's width is its widest item plus twice the padding, and some item attains it |
| Admin.PrintTable | src/lib/Bcfg2/Server/Admin/__init__.py:73-103 | an unknown justify fails before anything is printed; otherwise the lines printed are exactly the table's lines |
| Admin.TableShape | src/lib/Bcfg2/Server/Admin/__init__.py:94-103 | the table is the borderline, then the rows in order, with one more borderline after the first row when `hdr` is set and there are rows: row `r` is line `1 + r`, or `2 + r` after the header's borderline, and there is no other line |
| Admin.TableAligned | src/lib/Bcfg2/Server/Admin/__init__.py:92-103 | with a non-negative padding, every line of the table is as long as the borderline |
| Admin.SelectPluginsSpec | src/lib/Bcfg2/Server/Admin/__init__.py:118-123 | with a whitelist, only whitelisted plugins are kept and the blacklist is ignored; otherwise, with a blacklist, only plugins not on it are kept; the kept plugins keep their order |
| Admin.MetadataCore.constructor | src/lib/Bcfg2/Server/Admin/__init__.py:116-126 | the setup's plugins become the selected plugins, and the file monitor becomes `pseudo`; the mode reads the setup's configuration file |
| Admin.Mode.constructor | src/lib/Bcfg2/Server/Admin/__init__.py:40-43 | a new mode takes the configuration file named in the setup and has no parser yet |
| Admin.Mode.GetCFP | src/lib/Bcfg2/Server/Admin/__init__.py:48-53 | the first call caches a fresh parser and reads the configuration file into it, reporting the error when `read` raises; later calls return the cached parser, also a partly filled one, without reading again, so the file is read at most once |
| FileMonitor.Pseudo.AddMonitor | src/lib/Bcfg2/Server/FileMonitor/Pseudo.py:12-25 | the handle defaults to the number of registered handles; the queue gains `exists` for the path and, for a directory, `exists` for each listed file and then `endExist`; the object is registered only when given |
| FileMonitor.MonitorEventsOrder | src/lib/Bcfg2/Server/FileMonitor/Pseudo.py:16-21 | the queue for a path starts with the path; a directory's queue ends with `endExist` and lists its files in between |
| Strings.ParseInt | src/lib/Bcfg2/Server/Plugins/GroupPatterns.py:19-21 | `int()` on a digit string succeeds exactly when the string is non-empty and all digits |
| Strings.ParseFormat02 | src/lib/Bcfg2/Server/Plugins/Cfg/__init__.py:585 | reading back `"%02d" % n` gives `n` |
| Strings.JoinSplit | src/lib/Bcfg2/Server/Plugins/GroupPatterns.py:17 | splitting on a separator and joining with it gives back the input |
| Strings.SplitLastIsBasename | src/lib/Bcfg2/Server/Plugins/Cfg/__init__.py:581 | `path.split('/')[-1]` is the basename of the path |
| Strings.ReplaceAbsent | src/lib/Bcfg2/Server/Plugins/GroupPatterns.py:80 | `replace` of a placeholder whose first character does not occur changes nothing |

## Left out

- I/O is not modelled. This covers logging, the debug log, printing (`print_table` returns its lines), reading files, `os.stat`, `os.path.isdir` and `os.listdir`. File contents, modes, directory listings and the configuration file's contents are parameters. The configuration file's contents are either its sections or the parse error `read` raises, with what it parsed before raising.
- The handler classes' own hooks are oracles: `get_data`, `modify_data`, `verify_entry` and `bind_info_to_entry` of the concrete classes. So are `best_matching`, `b64encode` and decoding bytes in an encoding. `best_matching` is assumed to return one of its candidates when it does not raise.
- The hooks are assumed narrower than the base classes require. A concrete `bind_info_to_entry` is assumed to hand one dict of attributes to `_set_info` and never to raise; the base class only asks it to set the attributes in place. `get_data`, `modify_data` and `verify_entry` are assumed to read the entry and never to change it. `InfoStageKeys` and `InfoStageFirstWins` hold only under these assumptions.
- `Specificity.matches` follows its documented contract: every client, the members of the group, or the one host. `Bcfg2.Server.Plugin` is not part of this model.
- The generic `EntrySet.entry_init` used for specific classes is not part of this model. It is modelled as creating a handler whose specificity is read from the name with `get_regex([basename])`, and creating nothing where that does not match. The `SpecificityError` it raises is not modelled.
- The `handlers` property's `walk_packages` discovery is not modelled: the handler classes are a list given to the entry set. `CfgLint` and `write_update`/`AcceptPullData` (writing pulled files) are not modelled.
- CfgGrammar: basenames, extensions and `[[...]]` templates are spliced into regular expressions unescaped. The model reads basenames and extensions as literal text. In name-range templates it reads `.` as any character but a newline and every other character literally. Other regular-expression metacharacters there are assumed absent.
- `\d` and `\s` are the ASCII classes. `int()` is modelled on digit strings only, so its acceptance of surrounding whitespace and a sign is left out.
- The `entries` dict iterates in insertion order (a key sequence beside the map). The model follows CPython 3.6, where dicts keep insertion order and an unknown escape such as `\d` in a `re.sub` replacement is kept as written. Under Python 2 the order of `entries` is arbitrary.
- GroupPatterns.NewPatternMapRange: builds name ranges as CPython 2 to 3.6 do. From CPython 3.7 the `\d` in the replacements of `re.sub` at GroupPatterns.py:48-52 raises `re.error`. Then every `NameRange` fails to build, and `Index` drops the rest of its element; the model does not capture this.
- `get_handlers`' deprecation warning is left out. It can raise `UnboundLocalError` for a deprecated class with neither basenames nor extensions.
- The `TypeError` branch of `bind_entry` (data already unicode) is modelled as text data being kept. The XML element is modelled as a tag, an attribute map and an optional text.
- `NamePattern` regular expressions are an oracle: whether they compile, and what `search` captures.
- `$n` substitution is modelled exactly. `$1` is replaced before `$10`, so with ten or more captures `$10` becomes the first capture followed by `0`.
- `Group` elements are assumed to have text: a `Group` with no text (`None`) is not modelled.
- `XMLFileBacked` parsing is a parameter: the `GroupPattern` elements. Index's expiry of the metadata cache is not modelled.
- `Mode.__init__`'s help-message setup and `MetadataCore`'s creation of the server core (and `errExit` on failure) are not modelled. `MetadataCore` is modelled as a mode plus its plugin selection.
- `Pseudo.AddMonitor` models a handle id as an integer.
