# Codiga / Code Inspector IntelliJ plugin: caches, fixes and inline search

This project is a Dafny model of the core of the Codiga (formerly Code
Inspector) plugin for JetBrains IDEs. It covers five parts:

- **AnalysisDataCache** (module `AnalysisCache`). This plugin-wide cache holds
  the service's analysis results. Ad-hoc analyses of one file are keyed by
  project id, filename and the MD5 digest of the code. Existing project
  analyses are keyed by project id, revision and path. An answer is stored
  even when it is empty, and later lookups with the same key reuse it until
  `invalidateCache` runs.
- **RosiePosition** (module `RosiePositions`). This converts a Rosie position,
  given as a 1-based line and a column, to a document offset: the start of the
  line plus the column, computed in Java `int` arithmetic.
- **RosieAnnotationFix** (module `RosieFix`). This is the quick fix that
  applies the edits of a Rosie violation fix to the document, one at a time,
  in payload order. Each edit is an add, an update or a remove, with the kind
  matched ignoring case. A failing edit ends the batch, the edits already
  applied stay, and an error is logged.
- **RosieRulesCache** (module `RosieRules`). This per-project cache holds the
  Rosie rules from the rulesets named in `codiga.yml`. It maps each language
  to its rules, each ruleset name to whether it is empty, and it keeps the
  config file's modification stamp.
- **InlineDocumentListener** (module `InlineCompletion`). This listener
  debounces semantic snippet searches triggered by typing a comment. Every
  qualifying change stamps `lastRequestTimestamp`. The deferred search runs
  only if its captured stamp is still the current one.

How the model handles the outside world:

- Collaborators the code calls are given as function-valued constants: the
  language detection, the MD5 digest, the service and API queries, the
  language comment helpers and `safeValueOf`. The clock is a parameter.
- The IDE's deferred work is explicit. The UI thread's `invokeLater` queue is
  `postedChecks`, and the `Alarm` is `alarm`. Both are drained by
  `RunPostedCheck` and `RunAlarm`.
- Outward actions appear in an `effects` log: disposing a preview, querying
  the API and displaying a preview.
- Java `null` and `Optional` are `Option`. Exceptions are `None` results or
  outcome values.

Behaviour of the code worth knowing:

- The edits of a fix are applied in payload order. Nothing sorts them, and
  nothing undoes the edits already applied when a later one fails
  (RosieAnnotationFix.java:57-73; see `RosieFix.ApplyDependsOnOrder` and
  `RosieFix.PartialBatchStays`).
- `updateCacheFrom` installs the ruleset statuses before it groups the rules
  by language (RosieRulesCache.java:120-145). A language collision under
  `safeValueOf` therefore leaves the new statuses next to the old rules.
- When the MD5 algorithm is unavailable, `getMD5` returns null
  (AnalysisDataCache.java:56-64). Every code of the file then shares one key
  (`AnalysisCache.MissingDigestSharesKey`, `AnalysisCache.MissingDigestReusesAnswer`).
- The modification-stamp check is a plain inequality (RosieRulesCache.java:91-93).
  The unset value -1 gets no special treatment (`RosieRules.StampUnsetIsNotSpecial`).
- Two concurrent lookups of a missing key can each send their own query,
  because nothing merges fetches in flight (AnalysisDataCache.java:90-93).
  Sequential lookups do share one query (`AnalysisCache.RepeatedFileLookup`).
  The concurrent case is outside the model, as "## Left out" says.

## Model

| member | source | states |
|---|---|---|
| AnalysisCache.FileKey | src/main/java/com/code_inspector/plugins/intellij/cache/AnalysisDataCache.java:79-80 | a file key carries the project id, filename and digest, and no revision |
| AnalysisCache.ProjectKey | src/main/java/com/code_inspector/plugins/intellij/cache/AnalysisDataCache.java:112 | a project key carries the project id, the revision (possibly null) and the path, and no digest |
| AnalysisCache.FileKeyIdentifies | src/main/java/com/code_inspector/plugins/intellij/cache/AnalysisDataCache.java:79-80 | two file keys are equal iff their project ids, filenames and digests are |
| AnalysisCache.ProjectKeyIdentifies | src/main/java/com/code_inspector/plugins/intellij/cache/AnalysisDataCache.java:112 | two project keys are equal iff their project ids, revisions and paths are |
| AnalysisCache.MissingDigestSharesKey | src/main/java/com/code_inspector/plugins/intellij/cache/AnalysisDataCache.java:56-80 | when MD5 is unavailable, two codes of the same file get the same key |
| AnalysisCache.AnalysisDataCache.constructor | src/main/java/com/code_inspector/plugins/intellij/cache/AnalysisDataCache.java:36-39 | both maps start empty and no query has been sent |
| AnalysisCache.AnalysisDataCache.GetViolationsFromFileAnalysis | src/main/java/com/code_inspector/plugins/intellij/cache/AnalysisDataCache.java:78-99 | unknown language: empty answer, nothing touched. Miss: exactly one query, its answer stored (empty too) and returned. Hit: no query, no change. The project map is unchanged. |
| AnalysisCache.AnalysisDataCache.GetViolationsFromProjectAnalysis | src/main/java/com/code_inspector/plugins/intellij/cache/AnalysisDataCache.java:111-120 | miss: one query, its answer stored and returned. Hit: no query, the stored answer returned. The file map is unchanged. |
| AnalysisCache.AnalysisDataCache.InvalidateCache | src/main/java/com/code_inspector/plugins/intellij/cache/AnalysisDataCache.java:122-126 | both maps are empty afterwards |
| AnalysisCache.RepeatedFileLookup | src/main/java/com/code_inspector/plugins/intellij/cache/AnalysisDataCache.java:78-99 | the same lookup twice gives the same answer, and it is the stored one on a hit. It sends exactly one query on a miss and none on a hit or for an unknown language. |
| AnalysisCache.LookupAfterInvalidation | src/main/java/com/code_inspector/plugins/intellij/cache/AnalysisDataCache.java:111-126 | after invalidation, a project lookup queries again, and the cache then holds exactly that entry |
| AnalysisCache.DistinctDigestsDistinctEntries | src/main/java/com/code_inspector/plugins/intellij/cache/AnalysisDataCache.java:79-99 | codes with different digests are separate entries. The second lookup queries for its own code, and the first entry stays. Exactly one or two queries are sent, depending on whether the first code was cached. |
| AnalysisCache.MissingDigestReusesAnswer | src/main/java/com/code_inspector/plugins/intellij/cache/AnalysisDataCache.java:56-99 | without a digest, a second code of the file gets the first code's answer, and no query is sent for it |
| RosiePositions.Wrap32 | src/main/java/io/codiga/plugins/jetbrains/model/rosie/RosiePosition.java:22 | the Java int result of the addition: equal to the exact sum when it fits, and congruent to it modulo 2^32 otherwise |
| RosiePositions.LineCount | src/main/java/io/codiga/plugins/jetbrains/model/rosie/RosiePosition.java:22 | the document's line count: one more than its number of newlines, so an empty document has one line |
| RosiePositions.LineStart | src/main/java/io/codiga/plugins/jetbrains/model/rosie/RosiePosition.java:22 | the start of line k lies within the document |
| RosiePositions.LineStartAfterKthNewline | src/main/java/io/codiga/plugins/jetbrains/model/rosie/RosiePosition.java:22 | line k > 0 starts just after a newline, with exactly k newlines before it |
| RosiePositions.LineStartUnique | src/main/java/io/codiga/plugins/jetbrains/model/rosie/RosiePosition.java:22 | any position just after the k-th newline is the start of line k |
| RosiePositions.LineStartIncreasing | src/main/java/io/codiga/plugins/jetbrains/model/rosie/RosiePosition.java:22 | line starts strictly increase |
| RosiePositions.NewlinesAppend | src/main/java/io/codiga/plugins/jetbrains/model/rosie/RosiePosition.java:22 | newline counts add over concatenation |
| RosiePositions.GetOffset | src/main/java/io/codiga/plugins/jetbrains/model/rosie/RosiePosition.java:20-25 | an offset exists iff the 1-based line is between 1 and the line count (getLineStartOffset throws otherwise) |
| RosiePositions.GetOffsetIsLineStartPlusCol | src/main/java/io/codiga/plugins/jetbrains/model/rosie/RosiePosition.java:22 | without overflow, the offset is the line's start plus the column |
| RosiePositions.GetOffsetFirstLine | src/main/java/io/codiga/plugins/jetbrains/model/rosie/RosiePosition.java:22 | on line 1 the offset is the column |
| RosiePositions.GetOffsetIncreasingInCol | src/main/java/io/codiga/plugins/jetbrains/model/rosie/RosiePosition.java:22 | on one line, offsets grow with the column by exactly the column difference |
| RosiePositions.GetOffsetAfterNewline | src/main/java/io/codiga/plugins/jetbrains/model/rosie/RosiePosition.java:22 | for a line after the first, offset minus column is a position just after a newline |
| RosiePositions.GetOffsetNotClamped | src/main/java/io/codiga/plugins/jetbrains/model/rosie/RosiePosition.java:20-25 | the column is not clamped to the line: a column past the end gives an offset past the text |
| RosieFix.EqualsIgnoreCase | src/main/java/io/codiga/plugins/jetbrains/annotators/RosieAnnotationFix.java:59-66 | the kind test equalsIgnoreCase: equal lengths, with each pair of characters equal after ASCII upper-casing |
| RosieFix.EqualsIgnoreCaseSymmetric | src/main/java/io/codiga/plugins/jetbrains/annotators/RosieAnnotationFix.java:59-66 | the edit-kind comparison is symmetric |
| RosieFix.EqualsIgnoreCaseTransitive | src/main/java/io/codiga/plugins/jetbrains/annotators/RosieAnnotationFix.java:59-66 | the edit-kind comparison is transitive |
| RosieFix.KindsExclusive | src/main/java/io/codiga/plugins/jetbrains/annotators/RosieAnnotationFix.java:59-67 | no edit kind matches two of add, update and remove, so at most one of the three branches runs |
| RosieFix.Insert | src/main/java/io/codiga/plugins/jetbrains/annotators/RosieAnnotationFix.java:60 | insertString succeeds iff the offset is within the text; the result is the prefix, the content, the suffix |
| RosieFix.Replace | src/main/java/io/codiga/plugins/jetbrains/annotators/RosieAnnotationFix.java:63 | replaceString succeeds iff 0 <= start <= end <= length; the range is replaced by the content |
| RosieFix.Delete | src/main/java/io/codiga/plugins/jetbrains/annotators/RosieAnnotationFix.java:66 | deleteString succeeds iff 0 <= start <= end <= length; the range is removed |
| RosieFix.Document.constructor | src/main/java/io/codiga/plugins/jetbrains/annotators/RosieAnnotationFix.java:56 | the document holds the given text |
| RosieFix.Document.InsertString | src/main/java/io/codiga/plugins/jetbrains/annotators/RosieAnnotationFix.java:60 | the document changes as Insert says, or is unchanged on failure |
| RosieFix.Document.ReplaceString | src/main/java/io/codiga/plugins/jetbrains/annotators/RosieAnnotationFix.java:63 | the document changes as Replace says, or is unchanged on failure |
| RosieFix.Document.DeleteString | src/main/java/io/codiga/plugins/jetbrains/annotators/RosieAnnotationFix.java:66 | the document changes as Delete says, or is unchanged on failure |
| RosieFix.Step | src/main/java/io/codiga/plugins/jetbrains/annotators/RosieAnnotationFix.java:59-67 | one edit against the text; it can fail only when its kind is add, update or remove, and other kinds leave the text unchanged (StepUnknownKind) |
| RosieFix.Apply | src/main/java/io/codiga/plugins/jetbrains/annotators/RosieAnnotationFix.java:57-73 | the batch run: the edits in list order, each against the text the previous one left, stopping at the first failure; characterised by ApplyAppend, ApplyFirstThenRest and ApplyFailureKeepsPrefix |
| RosieFix.StepAdd | src/main/java/io/codiga/plugins/jetbrains/annotators/RosieAnnotationFix.java:59-61 | an add edit inserts its content at its start offset |
| RosieFix.StepUpdate | src/main/java/io/codiga/plugins/jetbrains/annotators/RosieAnnotationFix.java:62-64 | an update edit replaces the start..end range with its content |
| RosieFix.StepRemove | src/main/java/io/codiga/plugins/jetbrains/annotators/RosieAnnotationFix.java:65-67 | a remove edit deletes the start..end range |
| RosieFix.StepUnknownKind | src/main/java/io/codiga/plugins/jetbrains/annotators/RosieAnnotationFix.java:57-68 | an edit of any other kind leaves the text unchanged |
| RosieFix.StepIgnoresCase | src/main/java/io/codiga/plugins/jetbrains/annotators/RosieAnnotationFix.java:59-66 | an edit's effect depends on its kind only up to case |
| RosieFix.ApplyAppend | src/main/java/io/codiga/plugins/jetbrains/annotators/RosieAnnotationFix.java:57-68 | applying a+b is applying a, then continuing with b unless a failed |
| RosieFix.ApplyFirstThenRest | src/main/java/io/codiga/plugins/jetbrains/annotators/RosieAnnotationFix.java:57-68 | the batch applies the first edit, then the rest on its result, and a failure stops it |
| RosieFix.ApplyFailureKeepsPrefix | src/main/java/io/codiga/plugins/jetbrains/annotators/RosieAnnotationFix.java:57-73 | a failed batch ends with the text of the edits before the failing one, and all of them succeeded |
| RosieFix.ApplyTwo | src/main/java/io/codiga/plugins/jetbrains/annotators/RosieAnnotationFix.java:57-68 | two edits compose: the second sees the first's result |
| RosieFix.AddOnFirstLine | src/main/java/io/codiga/plugins/jetbrains/annotators/RosieAnnotationFix.java:59-61 | on line 1, an add inserts its content at its column |
| RosieFix.UpdateOnFirstLine | src/main/java/io/codiga/plugins/jetbrains/annotators/RosieAnnotationFix.java:62-64 | on line 1, an update replaces the text between its two columns |
| RosieFix.UpdatePastEndFails | src/main/java/io/codiga/plugins/jetbrains/annotators/RosieAnnotationFix.java:62-64 | on line 1, an update whose end column is past the text fails |
| RosieFix.ExampleUpdateFirst | src/main/java/io/codiga/plugins/jetbrains/annotators/RosieAnnotationFix.java:62-64 | concrete update on "abcdef" |
| RosieFix.ExampleAddSecond | src/main/java/io/codiga/plugins/jetbrains/annotators/RosieAnnotationFix.java:59-61 | concrete add after that update |
| RosieFix.ExampleAddFirst | src/main/java/io/codiga/plugins/jetbrains/annotators/RosieAnnotationFix.java:59-61 | concrete add on "abcdef" |
| RosieFix.ExampleUpdateSecond | src/main/java/io/codiga/plugins/jetbrains/annotators/RosieAnnotationFix.java:62-64 | the same update after the add hits different characters |
| RosieFix.ApplyDependsOnOrder | src/main/java/io/codiga/plugins/jetbrains/annotators/RosieAnnotationFix.java:57 | edits run in payload order without re-basing offsets: two orders of the same edits give different texts |
| RosieFix.ExampleBadUpdateFails | src/main/java/io/codiga/plugins/jetbrains/annotators/RosieAnnotationFix.java:63 | an update whose end is past the text fails |
| RosieFix.PartialBatchStays | src/main/java/io/codiga/plugins/jetbrains/annotators/RosieAnnotationFix.java:53-73 | when the second edit fails, the first edit's change stays in the document and the failure is logged |
| RosieFix.RosieAnnotationFix.constructor | src/main/java/io/codiga/plugins/jetbrains/annotators/RosieAnnotationFix.java:31-33 | holds the given fix |
| RosieFix.RosieAnnotationFix.GetText | src/main/java/io/codiga/plugins/jetbrains/annotators/RosieAnnotationFix.java:37-39 | the text is "Fix: " followed by the fix's description |
| RosieFix.RosieAnnotationFix.Invoke | src/main/java/io/codiga/plugins/jetbrains/annotators/RosieAnnotationFix.java:52-75 | the document ends as the in-order batch application leaves it, and an error is logged iff an edit failed |
| RosieRules.RosieRulesCacheValue.GetRosieRules | src/main/java/io/codiga/plugins/jetbrains/annotators/RosieRulesCache.java:169 | the rules of a cached value, one per rule-with-names, in order |
| RosieRules.RulesById | src/main/java/io/codiga/plugins/jetbrains/annotators/RosieRulesCache.java:182 | the value's id-to-rule map; on a repeated id the later rule wins (the assumption noted under Left out); characterised by RulesByIdSpec |
| RosieRules.RulesByIdSpec | src/main/java/io/codiga/plugins/jetbrains/annotators/RosieRulesCache.java:182 | the id map has a rule for an id iff some cached rule has that id, and the rule it gives has that id |
| RosieRules.RulesetStatus | src/main/java/io/codiga/plugins/jetbrains/annotators/RosieRulesCache.java:128-129 | the name-to-empty map toMap builds, absent when toMap throws; when present it has one entry per ruleset |
| RosieRules.RulesetStatusDefined | src/main/java/io/codiga/plugins/jetbrains/annotators/RosieRulesCache.java:128-129 | the status map exists iff no ruleset name repeats (toMap throws on a duplicate) |
| RosieRules.RulesetStatusKeys | src/main/java/io/codiga/plugins/jetbrains/annotators/RosieRulesCache.java:128-129 | its keys are exactly the payload's ruleset names |
| RosieRules.RulesetStatusValues | src/main/java/io/codiga/plugins/jetbrains/annotators/RosieRulesCache.java:129 | a ruleset's status is whether its rule list is empty |
| RosieRules.Paired | src/main/java/io/codiga/plugins/jetbrains/annotators/RosieRulesCache.java:136 | one ruleset's rules, each paired with the ruleset's name, in order |
| RosieRules.Flatten | src/main/java/io/codiga/plugins/jetbrains/annotators/RosieRulesCache.java:135-136 | the flatMap over the payload: each ruleset's pairs, in payload order; characterised by FlattenMembership |
| RosieRules.FlattenMembership | src/main/java/io/codiga/plugins/jetbrains/annotators/RosieRulesCache.java:136 | the flattened list holds exactly the pairs (ruleset name, rule) of the payload |
| RosieRules.RulesOfLanguage | src/main/java/io/codiga/plugins/jetbrains/annotators/RosieRulesCache.java:137 | the group of a language holds exactly the rules whose language maps to it |
| RosieRules.RulesOfLanguageAppend | src/main/java/io/codiga/plugins/jetbrains/annotators/RosieRulesCache.java:137 | a language's group keeps the rules' order and multiplicity: grouping a concatenation is concatenating the groups |
| RosieRules.LanguagesCollide | src/main/java/io/codiga/plugins/jetbrains/annotators/RosieRulesCache.java:140 | toMap over the safeValueOf keys throws: two different language names map to one constant |
| RosieRules.GroupIsGroupingBy | src/main/java/io/codiga/plugins/jetbrains/annotators/RosieRulesCache.java:137 | with no collision, a language name's group is the rules with that language name |
| RosieRules.RulesByLanguage | src/main/java/io/codiga/plugins/jetbrains/annotators/RosieRulesCache.java:135-140 | the language-to-rules map, absent when two language names map to one constant; every cached language has at least one rule |
| RosieRules.RulesByLanguageSpec | src/main/java/io/codiga/plugins/jetbrains/annotators/RosieRulesCache.java:135-140 | with no collision, a language's cached rules are exactly the payload's rules whose language maps to it |
| RosieRules.RosieRulesCache.constructor | src/main/java/io/codiga/plugins/jetbrains/annotators/RosieRulesCache.java:53-89 | empty maps and names, both stamps -1, not initialised |
| RosieRules.RosieRulesCache.HasDifferentModificationStampThan | src/main/java/io/codiga/plugins/jetbrains/annotators/RosieRulesCache.java:91-93 | the given stamp differs from the saved one; stated by SaveModificationStampOf and StampUnsetIsNotSpecial |
| RosieRules.RosieRulesCache.SaveModificationStampOf | src/main/java/io/codiga/plugins/jetbrains/annotators/RosieRulesCache.java:95-97 | stores the stamp, so the same stamp no longer differs; nothing else changes |
| RosieRules.RosieRulesCache.SetRulesetNames | src/main/java/io/codiga/plugins/jetbrains/annotators/RosieRulesCache.java:99-101 | replaces the names; nothing else changes |
| RosieRules.RosieRulesCache.SetLastUpdatedTimeStamp | src/main/java/io/codiga/plugins/jetbrains/annotators/RosieRulesCache.java:57-59 | replaces the server timestamp; nothing else changes |
| RosieRules.RosieRulesCache.IsRulesetExist | src/main/java/io/codiga/plugins/jetbrains/annotators/RosieRulesCache.java:103-105 | the server returned the ruleset; stated after an update by RulesetsAfterUpdate |
| RosieRules.RosieRulesCache.IsRulesetEmpty | src/main/java/io/codiga/plugins/jetbrains/annotators/RosieRulesCache.java:107-109 | the server's ruleset has no rules; stated after an update by RulesetsAfterUpdate |
| RosieRules.RosieRulesCache.UpdateCacheFrom | src/main/java/io/codiga/plugins/jetbrains/annotators/RosieRulesCache.java:120-125 | duplicate ruleset name: nothing changes. Language collision: statuses replaced, rules kept. Otherwise: both maps rebuilt from the payload, one re-analysis requested, initialised. |
| RosieRules.RosieRulesCache.SaveRulesets | src/main/java/io/codiga/plugins/jetbrains/annotators/RosieRulesCache.java:127-132 | the status map is replaced by the payload's when it exists, and is untouched otherwise |
| RosieRules.RosieRulesCache.SaveRulesByLanguages | src/main/java/io/codiga/plugins/jetbrains/annotators/RosieRulesCache.java:134-145 | the language map is replaced by the payload's grouping when it exists, and is untouched otherwise |
| RosieRules.RosieRulesCache.GetRosieRulesForLanguage | src/main/java/io/codiga/plugins/jetbrains/annotators/RosieRulesCache.java:167-170 | the empty list for an uncached language, otherwise the cached entries' rules, in order |
| RosieRules.RosieRulesCache.GetRuleWithNamesFor | src/main/java/io/codiga/plugins/jetbrains/annotators/RosieRulesCache.java:181-183 | a rule exists iff a cached rule of the language has the id, and the one returned has that id |
| RosieRules.RosieRulesCache.Clear | src/main/java/io/codiga/plugins/jetbrains/annotators/RosieRulesCache.java:188-199 | rules, names and statuses are empty, the server timestamp is -1, and the config stamp is kept |
| RosieRules.RosieRulesCache.Dispose | src/main/java/io/codiga/plugins/jetbrains/annotators/RosieRulesCache.java:201-204 | the same state as Clear |
| RosieRules.RulesAfterUpdate | src/main/java/io/codiga/plugins/jetbrains/annotators/RosieRulesCache.java:120-170 | after an update, a rule is served for a language iff some payload ruleset has it with a language that maps there |
| RosieRules.RulesetsAfterUpdate | src/main/java/io/codiga/plugins/jetbrains/annotators/RosieRulesCache.java:103-132 | after an update, a ruleset exists iff the payload names it, and it is empty iff its rule list is |
| RosieRules.StampUnsetIsNotSpecial | src/main/java/io/codiga/plugins/jetbrains/annotators/RosieRulesCache.java:91-93 | with the stamp unset (-1), every stamp but -1 counts as different |
| InlineCompletion.GuardsPass | src/main/java/io/codiga/plugins/jetbrains/completion/inline/InlineDocumentListener.java:45-73 | the five early returns of documentChanged, in order; DocumentChanged states what passing and failing them do |
| InlineCompletion.CurrentLine | src/main/java/io/codiga/plugins/jetbrains/completion/inline/InlineDocumentListener.java:107-119 | the caret line's text exists iff 0 <= line start <= caret <= length (TextRange or getText throws otherwise), and it is the document's characters from the line start up to the caret |
| InlineCompletion.WorthSearching | src/main/java/io/codiga/plugins/jetbrains/completion/inline/InlineDocumentListener.java:99-130 | the file exists, the caret line is readable, it is a comment, and it has more than one word |
| InlineCompletion.PrepareRequest | src/main/java/io/codiga/plugins/jetbrains/completion/inline/InlineDocumentListener.java:133-148 | the request is due 500 ms later and carries the stamp, the caret offset, the language and the comment text stripped of its comment symbols |
| InlineCompletion.QueryOf | src/main/java/io/codiga/plugins/jetbrains/completion/inline/InlineDocumentListener.java:164-179 | the API call's arguments: the request's captured term, dependencies, language and filename, with the visibility settings read when the request runs |
| InlineCompletion.DisposalEffects | src/main/java/io/codiga/plugins/jetbrains/completion/inline/InlineDocumentListener.java:93-97 | a shown preview is disposed, and nothing happens when there is none |
| InlineCompletion.RequestEffects | src/main/java/io/codiga/plugins/jetbrains/completion/inline/InlineDocumentListener.java:152-185 | a stale request does nothing. A current one queries the API once and displays a preview at its caret iff snippets came back. |
| InlineCompletion.InlineDocumentListener.constructor | src/main/java/io/codiga/plugins/jetbrains/completion/inline/InlineDocumentListener.java:35-39 | the stamp starts at 0, with nothing pending and no effects |
| InlineCompletion.InlineDocumentListener.DocumentChanged | src/main/java/io/codiga/plugins/jetbrains/completion/inline/InlineDocumentListener.java:41-87 | a failed guard changes nothing. Otherwise the stamp becomes now, and a check with that stamp is posted, or runs at once in unit-test mode. |
| InlineCompletion.InlineDocumentListener.RunPostedCheck | src/main/java/io/codiga/plugins/jetbrains/completion/inline/InlineDocumentListener.java:82-85 | the oldest posted check runs against the current editor |
| InlineCompletion.InlineDocumentListener.CheckDocumentAndInitiateSnippetPreview | src/main/java/io/codiga/plugins/jetbrains/completion/inline/InlineDocumentListener.java:89-150 | any shown preview is disposed first. A file with a comment line of more than one word puts a request due 500 ms later on the alarm (run at once in unit-test mode); otherwise nothing more happens. |
| InlineCompletion.InlineDocumentListener.RunAlarm | src/main/java/io/codiga/plugins/jetbrains/completion/inline/InlineDocumentListener.java:146-148 | the oldest request runs once it is due, and not before |
| InlineCompletion.InlineDocumentListener.QueryRecipesAndShowSnippetPreview | src/main/java/io/codiga/plugins/jetbrains/completion/inline/InlineDocumentListener.java:152-185 | the effects are extended by what RequestEffects says for the current stamp |
| InlineCompletion.QueriesAppend | src/main/java/io/codiga/plugins/jetbrains/completion/inline/InlineDocumentListener.java:171-179 | API queries are counted log by log |
| InlineCompletion.RequestQueries | src/main/java/io/codiga/plugins/jetbrains/completion/inline/InlineDocumentListener.java:160-179 | a request sends one API query if current, none if stale |
| InlineCompletion.DisposalsSendNothing | src/main/java/io/codiga/plugins/jetbrains/completion/inline/InlineDocumentListener.java:93-97 | disposing previews sends no API query |
| InlineCompletion.CurrentRequestLog | src/main/java/io/codiga/plugins/jetbrains/completion/inline/InlineDocumentListener.java:160-179 | after disposals, a current request's log has exactly one API query, its own, and any preview is at its caret |
| InlineCompletion.DebounceTwoEdits | src/main/java/io/codiga/plugins/jetbrains/completion/inline/InlineDocumentListener.java:75-162 | two qualifying edits 100 ms apart lead to exactly one API query, the second edit's; a preview can only be placed at the second edit's caret |
| InlineCompletion.SameMillisecondEdits | src/main/java/io/codiga/plugins/jetbrains/completion/inline/InlineDocumentListener.java:75-162 | two edits in the same millisecond both pass the staleness check, giving two queries |

## Left out

- Concurrency: the `ConcurrentHashMap`s, the synchronized lists, and the
  threads of the UI, alarm and service calls are modelled as sequential steps.
- The MD5 computation and hex encoding are a function. Only its failure, as
  `None`, is distinguished.
- `getInstance` singletons and services, the test-only accessors (`getCacheProjectAnalysis`,
  `getCacheFileAnalysis`, `isEmpty`, `getConfigFileModificationStamp`, `setConfigFileModificationStamp`) and logging.
- reAnalyzeConfigFile: the restart of highlighting for an open `codiga.yml` is a ghost counter of requests. The file search is not modelled.
- RosieRules.RosieRulesCache.IsRulesetEmpty: requires a known ruleset. For an unknown name the code unboxes a null, which throws.
- RosieRules.RosieRulesCache.HasDifferentModificationStampThan: it has no ensures of its own. Its meaning is stated by `SaveModificationStampOf` and `StampUnsetIsNotSpecial`.
- RosieRules.RosieRulesCache.SetRulesetNames / Clear: `setRulesetNames` wraps the caller's list without copying it, and the model stores a copy. Two things are lost. `clear` also empties the caller's list. If that list cannot be modified, `clear` throws after emptying `cache`, leaving `rulesetsFromServer` and `lastUpdatedTimeStamp` as they were. The model's `Clear` always completes.
- RosieRules.RosieRulesCache.GetRuleWithNamesFor: requires a cached language. For an uncached one the code dereferences a null.
- RosieRulesCacheValue is not part of this model's sources. Its id map is assumed to be keyed by rule id with the last rule winning, and `getRosieRules` to keep the order.
- RosieConstants is not part of this model's sources. The edit kinds are assumed to be "add", "update" and "remove".
- RosieFix.EqualsIgnoreCase: case folding is ASCII only, not Java's full Unicode `equalsIgnoreCase`.
- RosieAnnotationFix: `getFamilyName`, `isAvailable` and `startInWriteAction` return constants and are not modelled. Write-command undo grouping and read-only documents are outside the model.
- RosieFix.Step: a missing end or content throws a null dereference in the code, and the model treats it as a failing edit, as the catch-all logging does. A null `editType` or `start` would throw the same way, but the model's edits always have both.
- RosiePositions.GetOffset: document lengths and line starts are unbounded integers. Only the addition of the column wraps to a Java `int`.
- InlineDocumentListener: the language helpers (`getLanguageFromFilename`, `lineStartsWithComment`,
  `numberOfWordsInComment`, `removeLineFromCommentsSymbols`), dependency detection, the relative filename
  and the snippet preview UI are inputs or effects, not modelled logic.
- InlineDocumentListener: `invokeLater`'s project-disposed condition is not modelled. A posted check always runs.
- InlineCompletion.EditorState: the IDE's preview registry (`SnippetPreview.getInstance`) is an input flag. It is not tied to earlier `PreviewDisplayed` effects, so "the shown preview is disposed first" means the preview the IDE reports.
- RosiePositions.GetOffset / RosiePositions.LineStart / RosieFix.Insert / RosieFix.Replace / RosieFix.Delete / InlineCompletion.CurrentLine: texts are sequences of Unicode characters, while Java strings and IntelliJ document offsets count UTF-16 code units. A character outside the Basic Multilingual Plane counts once in the model and twice in the code, so every later offset differs by one.
- RosieFix.RosieAnnotationFix.GetText: a null description, which `String.format` renders as "Fix: null", cannot be expressed. The description is a plain string.
- InlineCompletion.QueryOf: the third argument of `getRecipesSemantic`, always `Optional.empty()` (InlineDocumentListener.java:174), is not a field of `SemanticQuery`.
- Concurrent lookups in AnalysisDataCache: two threads missing the same key can both query the service. The model runs lookups one after another.
