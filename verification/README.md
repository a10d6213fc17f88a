# Verified model of the subtitle font subsetter

The service embeds font subsets into ASS/SSA subtitles, renames the fonts, turns vector drawings into
characters of a generated font, and can undo all of it. Around that sit a jobs table with backups and
restores, a shared font cache, an incremental font index and a pool of font workers. This project models
those parts in Dafny and proves the properties the code relies on. It models the code, not a simplified
plan of it: where a property fails, a lemma shows the input and another one says exactly when it holds.
Nothing here executes the original program.

`dafny verify dfyconfig.toml` checks the whole project.

## Layout

| part | files |
|---|---|
| text primitives, tags, names | `Text`, `Tags`, `FontNames` |
| UU codec and `[Fonts]` section | `UuCodec`, `FontsSection` |
| drawings, and which of them are replaced | `Drawings`, `DrawingLines`, `DrawingChoice`, `DrawTable` |
| the passes over a script, the loops that compute them, and what they do to each kind of line | `Document`, `DocumentMethods`, `LineFacts`, `PassFacts`, `Columns`, `Forms` |
| the two jobs, and that strip undoes subset | `Jobs`, `JobOutput`, `RoundTrip`, `Markers`, `SubsetOutput`, `RewriterTheorem` |
| when exactly it does, and conditions on the script alone | `NamesShow`, `RewriterExact`, `Spelling`, `RewriterLimits` |
| the interpreter and what it means | `Interpreter`, `TagLanguage`, `Semantics` |
| renaming preserves meaning, and where it does not | `TagMeaning`, `TextMeaning`, `Meaning`, `ScriptMeaning`, `MeaningLimits` |
| bytes and byte order marks, no double subsetting | `Encoding`, `DoubleSubset` |
| jobs, backups, restores, and what they leave behind | `JobProtocol`, `JobRuns`, `JobEffects` |
| cache | `LockTable`, `CacheProtocol`, `CacheEffects`, `CacheMaintenance`, `SweepOrder` |
| font index, workers | `FontIndex`, `WorkerPool` |
| which files a scan skips | `ScanFilter`, `SubtitleRows`, `Revision` |

Text is a sequence of characters and a script a sequence of lines. The two regular expressions of the
rewriter are explicit leftmost scanners. The loops of the source are methods, proved to compute functions;
the theorems are about those functions. Objects that are updated in place are classes (`PassWriter`,
`DrawBook`, `CacheLocks`, `Index`). Protocols are state machines with one action per SQL statement, lock
operation or file operation; theorems about them quantify over every run, that is over every sequence of
enabled actions, crashes included where the code can crash.

`hide` statements and `{:induction false}` only narrow what the solver looks at.

## What the proofs found

- `\fn(X)`, `\fn0` and `\fn@ @X` are read differently by the interpreter and by the renaming
  (`MeaningLimits`); `TagMeaning.OneTagExact` says for every tag, state and injective renaming when the two
  agree. A `\fn` outside of braces is visible text and still renamed (`MeaningLimits.VisibleName`, exactly
  when: `VisibleExact`), and a line without a defined style falls back to `Arial`, renamed or not
  (`FallbackName`, `FallbackExact`).
- A font that is renamed but not embedded leaves no mapping comment as soon as another font was embedded, and
  its name is not restored (`RewriterLimits.RenamedNotEmbedded`). A script comes back exactly when every name
  it was written with comes back through both renamings (`RewriterExact.StripUndoesSubsetExactly`).
- A font data line that looks like `[...]` or `fontname:` breaks the section; `FontsSection.FontsRoundTrip`
  says so exactly.
- A crash between raising the font index revision in memory and storing it can let a later scan skip a stale
  partial conversion (`Revision.StaleAfterCrash`); at the largest 64-bit revision the same happens without
  a crash (`Revision.StaleAtTheTop`). `Revision.SafeExact` says which crashes and raises do harm.
- Enqueueing or uploading a changed file refreshes its recorded size, time and hash at once but keeps the status
  of the previous conversion, so the next scan skips the new version when its job is cancelled, or when no job
  was asked for (`SubtitleRows.CancelledIsSkipped`, `UploadedIsSkipped`). `SubtitleRows.SkippedUnworked` says
  for every run when a file is skipped that no job ever finished with.
- A job row that ended can still change from success or cancelled to failed (`JobRuns.SuccessMayFail`,
  `CancelledMayFail`), never back to active.

## Model

| member | source | states |
|---|---|---|
| Text.SplitAssFields | src/ass.rs:1030-1047 | the field loop computes the recursive field splitter, for any number of fields and any number of commas |
| Text.SplitJoin | src/ass.rs:1030-1047 | splitting undoes joining with commas for trimmed fields without commas except in the last |
| Text.LinesRender | src/ass.rs:506-510 | reading a written text gives back the lines it was written from, except a last empty line without a final newline |
| Text.DetectRendered | src/ass.rs:1013-1015 | a written text of two or more clean lines is detected to use the newline it was written with |
| Tags.DrawingLevelFromTag | src/ass.rs:762-780 | the scanning loop finds the first `\p` of a block and its level, as the recursive definition does |
| FontNames.RewriteCompose | src/ass.rs:886-901 | two renamings of `\fn` tags in sequence are one renaming with the composed table, on every text |
| FontNames.UnchangedIsSpelled | src/ass.rs:886-901 | a text is left alone exactly when every argument that is renamed is spelled as its new name |
| FontNames.RewriteTrim | src/ass.rs:886-901 | renaming commutes with trimming, although blank text at the end may belong to the last tag's argument |
| FontNames.RewriteAcrossBrace | src/ass.rs:886-901 | a closing brace separates what is renamed before it from what is renamed after it |
| FontNames.StyleFieldsOfLine | src/ass.rs:858-884 | a printed Style line reads back as the fields it was printed from |
| FontNames.StyleCompose | src/ass.rs:858-884 | two renamings of a Style line in sequence are one renaming with the composed table |
| PassFacts.TagRenamed | src/ass.rs:886-901 | a tag's argument, up to the next backslash or closing brace, becomes the new name of that font or stays, and text before the tag is kept |
| PassFacts.OtherTextKept | src/ass.rs:886-901 | a text without `\fn` is kept |
| Columns.FormatNames | src/ass.rs:207-211 | a `Format:` line names its columns trimmed and in lower case |
| Columns.StyleRenames | src/ass.rs:858-884 | a Style line is renamed in the column `fontname`, the second when there is none, and nowhere else |
| Forms.NameRead | src/ass.rs:968-974 | a font name is read without blanks around it and marks of vertical writing in front, and looked up in lower case |
| Forms.HeaderRead | src/ass.rs:1017-1019 | a header is exactly a trimmed line in brackets, read in lower case |
| Drawings.DrawBook.RewriteText | src/ass.rs:712-760 | the rewriting loop and its dictionary compute the recursive rewriting, with the new dictionary stated in terms of the old |
| Drawings.RewriteKeepsValid | src/ass.rs:742-754 | entry k has character 0xE000+k while the range lasts, flags hold the level 1 to 15 and the close bit, equal drawings share one entry, and entries are only added at the end |
| Drawings.CharactersDistinct | src/ass.rs:744-745 | distinct drawings have distinct characters exactly while there are at most 0x102000 entries |
| Drawings.RestoreRewrite | src/ass.rs:807-820 | restoring undoes rewriting on any text without the marker, whatever follows on the line and whatever else the dictionary knows |
| Drawings.DrawingRoundTrip | src/ass.rs:807-820 | for every Text field free of the marker, restoring the rewritten field gives it back exactly |
| DrawingChoice.DrawingReplaced | src/ass.rs:712-760 | a drawing turned on at a level from 1 to 15 goes, up to the first block that turns it off, and leaves the token and the character the dictionary has for it |
| DrawingChoice.BlockKept | src/ass.rs:726-741 | every other block is kept: no level, level 0 or less, a level above 15, or a drawing that nothing ends |
| DrawingChoice.EndlessKept | src/ass.rs:782-796 | a drawing no later block ends stays with everything after it, and the dictionary is as before |
| DrawingChoice.NoBlockExactly | src/ass.rs:717-725 | a text has no block exactly when no opening brace has a closing one after it |
| Columns.DialogueDrawn | src/ass.rs:677-699 | the drawing pass rewrites the Text column of a Dialogue line and prints the line again |
| UuCodec.AssUuEncode | src/ass.rs:903-921 | the encoding loop computes the group-wise encoding |
| UuCodec.AssUuDecode | src/ass.rs:923-949 | the decoding loop with its pending group computes the decoding, with the error cases |
| UuCodec.EncodeShape | src/ass.rs:903-921 | every character lies in 33..96 and the length is four per three bytes plus 0, 2 or 3 |
| UuCodec.DecodeEncode | src/ass.rs:923-966 | decoding undoes encoding for every byte string |
| UuCodec.EncodeDecode | src/ass.rs:923-966 | encoding undoes decoding exactly on text without white space whose padding bits are zero |
| Forms.GroupSpells | src/ass.rs:903-921 | the characters of a group are the digits to base 64 of its bytes as one big-endian number |
| Forms.GroupsFollow | src/ass.rs:903-921 | groups of three bytes are encoded one after the other |
| Forms.DecodeExists | src/ass.rs:923-966 | decoding fails exactly on a character outside 33..96 that is no white space, or on one character too many |
| FontsSection.BuildFontsSection | src/ass.rs:842-856 | the printing loop writes the section's lines joined with the newline |
| FontsSection.ParseEmbeddedFonts | src/ass.rs:513-558 | the parsing loop finds the fonts the line-by-line reader finds, undecodable data dropped |
| FontsSection.FontsRoundTrip | src/ass.rs:513-558 | parsing a printed section gives the same names and bytes in order exactly when names are trimmed single lines and no data line reads as a header or a name |
| Forms.ChunkLines | src/ass.rs:850-852 | data lines are the consecutive 80 characters of the data |
| Forms.SectionForm | src/ass.rs:842-856 | the section is its header and, font by font, a name line, the data lines and an empty line |
| DocumentMethods.PassWriter.EnterSection | src/ass.rs:459-478 | what a section header makes the pass write, and the pass's whole new state |
| DocumentMethods.PassWriter.Subset | src/ass.rs:449-501 | one line of the subset pass: the lines written and the whole new state |
| DocumentMethods.PassWriter.Strip | src/ass.rs:578-648 | one line of the strip pass: the lines written and the whole new state |
| DocumentMethods.RewriteWithEmbeddedFonts | src/ass.rs:412-511 | the loop over the mutable pass state computes the subset pass |
| DocumentMethods.RewriteStripEmbedded | src/ass.rs:578-648 | the loop over the mutable pass state computes the strip pass |
| DocumentMethods.MappingComments | src/ass.rs:424-447 | one comment per renamed embedded name, or the renaming table in any order when there is none |
| DocumentMethods.ParseFontSubsetComments | src/ass.rs:560-576 | the loop computes the table of the comments, later ones overriding earlier ones |
| DocumentMethods.RewriteDrawingsAsFont | src/ass.rs:650-710 | the loop over the event lines and the dictionary computes the drawing pass |
| PassFacts.SubsetByPosition | src/ass.rs:412-511 | the written lines, told by position: the last header before a line and the last `Format:` line decide what becomes of it; the section stands in front of the first `[Events]` header or at the end, the comments behind the first `[Script Info]` header |
| PassFacts.StripByPosition | src/ass.rs:578-648 | the same for the strip pass: which lines go, are restored or stay, and where the fonts that stay go |
| PassFacts.DrawByPosition | src/ass.rs:650-710 | the drawing pass rewrites the Text field of every Dialogue line of the events section with the dictionary of the fields before it, in the columns of the last `Format:` line there, and leaves every other line |
| LineFacts.StyleStepKeepsKind | src/ass.rs:484-495 | a line a styles section writes is no header and no comment and is treated the same way again |
| RoundTrip.StripOfSubset | src/ass.rs:578-648 | the strip pass over the lines of the subset pass is the strip pass over the original lines with the composed renaming, lines and state |
| Markers.ParsePrinted | src/ass.rs:560-576 | a printed mapping comment is read as the pair it was printed from |
| Markers.CommentsRead | src/ass.rs:560-576 | reading the comments of a list of fonts gives the original of every renamed font |
| Markers.SectionSkipped | src/ass.rs:453-465 | a printed section without header-like lines is skipped as a whole |
| SubsetOutput.SubsetComments | src/ass.rs:472-483 | the comment reader finds the comments of the subset pass once, and nothing else |
| SubsetOutput.SubsetFonts | src/ass.rs:466-469 | the font reader finds exactly the fonts the subset pass embedded |
| DrawingLines.RestoreDialogue | src/ass.rs:677-699 | restoring a Dialogue line of the drawing pass gives the line with its fields trimmed |
| Jobs.FamilyOfSuffixed | src/processor.rs:831-844 | cutting a slot's file suffix gives the family name back, whatever the name ends in |
| Jobs.NothingKept | src/processor.rs:424-462 | the strip job keeps none of the fonts whose new names the comments record |
| Jobs.OneKept | src/processor.rs:424-462 | a font stays exactly when no comment names its family, it is no drawing font, and inspecting it found neither pair nor drawings |
| Jobs.KeptAppend | src/processor.rs:424-462 | fonts are kept or removed one by one, in order |
| Jobs.RestoringLast | src/processor.rs:424-462 | name pairs found inside fonts override the comments, later fonts the earlier ones |
| JobOutput.SubsetJobWrites | src/processor.rs:255-308 | with a font to embed, the job writes the script with its drawings replaced, every line treated by its position, with the section of all embedded fonts, the drawing font last, and the comments |
| JobOutput.StripJobWrites | src/processor.rs:412-476 | the strip job writes every line treated by its position, with the section of the fonts that stay |
| RewriterTheorem.StripUndoesSubset | src/processor.rs:412-476 | for every job, renaming or not: when the names come back, the strip job applied to what the subset job wrote gives the original with Style and Dialogue lines printed from their own fields, line ends unified and the fonts that stay in front of `[Events]` |
| NamesShow.RestoredUnchanged | src/ass.rs:807-820 | a renaming that cannot be seen after the drawings are restored changed nothing before |
| RewriterExact.StripUndoesSubsetExactly | src/processor.rs:412-476 | the script comes back exactly when every name it was written with comes back through both renamings |
| Spelling.DrawnWithin | src/ass.rs:712-760 | the drawing pass adds no font name but the drawing font's and names that run into a brace |
| Spelling.OneSpellingComesBack | src/ass.rs:426-440 | when every font of the script is spelled one way, new names are fresh and the drawing font keeps its name, the script comes back and no font stays, whatever pairs the fonts record |
| RewriterLimits.RenamedNotEmbedded | src/processor.rs:271-283 | a script with one font embedded and another renamed but not embedded does not come back |
| Interpreter.ApplyOverrideTags | src/ass.rs:345-399 | the tag loop computes the tag-by-tag state change |
| TagLanguage.OneTagMeaning | src/ass.rs:345-410 | a printed tag, its argument in parentheses or not, does what it says: font, reset, weight, slant, drawing level, or nothing |
| TagLanguage.BlockMeaning | src/ass.rs:345-399 | a block of printed tags is read as their effects, in order |
| TagLanguage.DecimalRead | src/ass.rs:368-396 | a decimal number is read as itself when 32 bits hold it, and not at all otherwise |
| Interpreter.AddDialogueTextRun | src/ass.rs:326-343 | the character loop adds exactly what a run shows, to this font and slot only |
| Interpreter.ParseDialogueText | src/ass.rs:288-324 | the scanner returns on every text, unclosed braces included, and adds the usages of its runs |
| Interpreter.ParseSubtitle | src/ass.rs:190-286 | the line loop adds the usages and drawing count of the whole script |
| Semantics.ScannerMeaning | src/ass.rs:288-343 | the scanner collects a character for a font in the set of a slot, bold or not and italic or not, exactly when it occurs outside closed blocks, escapes and drawing mode at a position where that font and these two flags are in force |
| Semantics.DrawingMeaning | src/ass.rs:288-324 | the scanner counts a drawing for every closed block that turns drawing mode on |
| Semantics.DialogueMeaning | src/ass.rs:288-343 | the same for the normal, bold, italic and bold italic sets of the usages that one Text field adds |
| Semantics.ScriptMeaning | src/ass.rs:190-286 | each of the four sets of a font holds a character exactly when some dialogue line, read in the state before it, draws it with these flags |
| Columns.StyleDefines | src/ass.rs:211-245 | a Style line defines the style of its name column with font and flags from their columns, or nothing without name or font |
| Columns.DialogueReads | src/ass.rs:253-276 | a Dialogue line is read in its Text column from the style its Style column names, or from Arial |
| TagMeaning.ArgumentAgain | src/ass.rs:401-410 | an argument is cut off in the same place whatever follows it, parenthesised or not |
| TagMeaning.TagsKept | src/ass.rs:345-399 | a renamed block sets the renamed state |
| TagMeaning.OneTagExact | src/ass.rs:360-366 | the font of a block with one `\fn` tag is renamed exactly when both readers of the tag see the same name, neither name is renamed, or the new name is there anyway; in every state |
| TextMeaning.TextKept | src/ass.rs:288-324 | a renamed Text field has the same runs under the renamed fonts, and as many drawings |
| Meaning.DialogueKept | src/ass.rs:253-276 | a renamed Dialogue line is read as the renamed Text field against the renamed styles |
| Meaning.DefineKept | src/ass.rs:212-245 | a renamed Style line defines the renamed style and nothing else |
| ScriptMeaning.RenamingKeepsMeaning | src/ass.rs:412-511 | interpreting the written text gives the original's runs, in order, under the renamed fonts, and the same number of drawings |
| ScriptMeaning.RenamingKeepsUsages | src/ass.rs:412-511 | a font of the written text needs, slot by slot, exactly the characters that the fonts renamed to it needed |
| MeaningLimits.ParenthesisedName | src/ass.rs:401-410 | `\fn(X)` is understood but not renamed |
| MeaningLimits.ZeroName | src/ass.rs:361-365 | `\fn0` is ignored by the interpreter but renamed |
| MeaningLimits.NotIdempotent | src/ass.rs:968-970 | normalising `@ @X` once and twice gives different names, and the renaming misses it |
| MeaningLimits.VisibleExact | src/ass.rs:886-901 | text without blocks keeps its runs exactly when every renamed argument in it is already spelled as its new name |
| MeaningLimits.VisibleName | src/ass.rs:886-901 | a visible `\fnX` changes what is shown |
| MeaningLimits.FallbackExact | src/ass.rs:264-272 | the base font of a line is renamed exactly when its style is defined or `Arial` keeps its name |
| MeaningLimits.FallbackName | src/ass.rs:264-272 | a line without a defined style keeps the old fallback font |
| Encoding.DecodeEncoded | src/ass.rs:115-188 | decoding an encoded text gives text and mark back exactly when no mark-less text starts with a mark |
| Encoding.EncodeDecoded | src/ass.rs:115-188 | a file that decodes is exactly what its text and mark encode to |
| Encoding.MarkIsCharacter | src/ass.rs:115-188 | a mark is the character U+FEFF in the encoding and byte order of its own file |
| Encoding.UnitAt | src/ass.rs:150-188 | a little-endian file has the low byte of every unit first, a big-endian one the high byte |
| Encoding.Utf8Forms | src/ass.rs:115-148 | the four forms of UTF-8 (section 3 of RFC 3629) |
| Encoding.Utf16Forms | src/ass.rs:150-188 | surrogate pairs (section 2.1 of RFC 2781) |
| DoubleSubset.SubsetIsRejected | src/processor.rs:919-931 | what a subset job writes with at least one font decodes and is rejected as an original, for every text and mark |
| DoubleSubset.OriginalExactly | src/processor.rs:919-931 | a text passes for an original exactly when it has no `[Fonts]` header, no mapping comment and does not name the drawing font |
| JobProtocol.StepKeepsInv | src/processor.rs:173-391 | every statement and file operation of jobs, cancellation, restore, crash and recovery keeps the invariant, in any interleaving |
| JobProtocol.AloneAtWork | migrations/0002_analysis_and_job_indexes.sql:7-8 | no two tasks at work share a path |
| JobRuns.OriginalNeverLost | src/backup.rs:18-61 | what a path first held is always its file or the content of one of its backups |
| JobRuns.OverwrittenIsBackedUp | src/processor.rs:309-318 | what a job overwrites is the content of a backup made before |
| JobRuns.ActiveJobsApart | src/scanner.rs:743-758 | at most one job per path is queued or running, and a task's row is running from its claim to its last write |
| JobRuns.RestoreIsAlone | src/backup.rs:154-193 | a restore replaces a file only while no job on its path is queued or running |
| JobRuns.EndedForever | src/processor.rs:992-1001 | a job that ended never becomes active again, crashes, recoveries and unconditional failure updates included |
| JobRuns.SuccessMayFail | src/processor.rs:992-1001 | a state is reached in which a job that succeeded can become failed |
| JobRuns.CancelledMayFail | src/processor.rs:992-1001 | a state is reached in which a cancelled job can become failed |
| JobRuns.CancelledNeverWrites | src/processor.rs:1032-1041 | a job queued when the cancellation runs never writes its file |
| JobRuns.SubsetOnce | src/processor.rs:235-235 | between two subset jobs that write the same file, a strip job or a restore wrote it |
| JobEffects.RestoreWritesBackup | src/backup.rs:145-187 | in every run, what a restore writes is the content its backup had when it began, which is the content the backup was made of |
| JobEffects.OriginalComesBack | src/backup.rs:145-187 | restoring a backup of what a path first held brings the original back |
| JobEffects.JobWritesItsPlan | src/processor.rs:300-318 | a job writes what it made of the bytes it read, and these are still the file then |
| JobEffects.JobRunsThrough | src/processor.rs:173-391 | a queued job whose turn comes can always run to its end and leaves exactly its output, a backup of what was there and its outcome |
| JobEffects.RestoreRunsThrough | src/backup.rs:145-200 | a restore that finds no active job can always run to its end and changes the file only |
| JobEffects.FailureChangesNoFile | src/processor.rs:992-1001 | a task may fail wherever it stands, which leaves files and backups alone and its job failed, or as it was when that could not be written |
| JobEffects.CrashLosesNoJob | src/processor.rs:105-128 | at any time the service may crash; after the restart every queued or running job is queued and on its way exactly once, no other is, and files and backups are as they were |
| JobEffects.CancelIsExact | src/processor.rs:1032-1041 | cancelling ends the queued jobs and no others |
| LockTable.OneMutexPerKey | src/state.rs:251-260 | in every run of acquisitions, clones and drops, any two live mutexes of a key are the same one, which is also what an acquisition hands out |
| LockTable.HandleStays | src/state.rs:251-260 | a mutex stays its key's while a handle to it is left |
| LockTable.CacheLocks.CacheLock | src/state.rs:251-260 | the method over the shared map hands out a live mutex of the key and leaves a valid table |
| CacheProtocol.SameKey | src/cache.rs:229-241 | eviction takes the very key the conversions of a file take |
| CacheProtocol.KeysApart | src/cache.rs:229-241 | no two file names share a key |
| CacheProtocol.StepKeepsInv | src/cache.rs:176-200 | every lock and file operation of conversions and maintenance keeps the invariant, in any interleaving |
| CacheProtocol.ReadsAreSafe | src/processor.rs:708-793 | a file found ready or published is there, with that content, when it is read |
| CacheProtocol.EvictionIsAlone | src/cache.rs:124-129 | nothing is evicted that a conversion is using |
| CacheProtocol.CounterIsRight | src/cache.rs:146-148 | the byte counter is the summed size of the files whenever the maintenance lock is free |
| CacheProtocol.NoDeadlock | src/cache.rs:120-143 | while maintenance or a conversion is unfinished, some step other than a start or a failure is enabled |
| CacheEffects.ReadIsFoundOrMade | src/processor.rs:708-793 | what a conversion reads is not empty and was in its file when it looked, or it made it itself |
| CacheEffects.StepsForward | src/cache.rs:120-143 | every step takes its own conversion further and leaves the others where they are, and a sweep tries an entry at most once |
| CacheMaintenance.TargetBound | src/cache.rs:119-119 | the target is the largest number of bytes within 90 per cent of the quota, and where the product saturates, at quotas of 2^64/90 and more, the hundredth part of 2^64-1 |
| CacheMaintenance.ByAgeKeeps | src/cache.rs:118-118 | sorting by last use keeps the entries and their bytes and puts the oldest first |
| CacheMaintenance.Evict | src/cache.rs:115-149 | nothing goes below the quota; afterwards at most 90 per cent are left or everything was tried; oldest first; before each try the total exceeded the target; the counts are those of the removed files |
| SweepOrder.EvictionIsSweep | src/cache.rs:120-143 | trying the entries in the order eviction picks is a run of the cache protocol, with its files, byte count and locks |
| FontIndex.Index.Rebuild | src/indexer.rs:112-184 | the new rows as a function of old rows, disk and walk, for any batch boundaries and inspection order; the exact counts of the summary; and the revision is raised exactly when a seen file had changed, a row was pruned or a walk reported an error |
| FontIndex.Index.InspectAndWrite | src/indexer.rs:247-284 | a batch writes the fresh row of every file whose inspection did not die, whichever task ends first |
| FontIndex.Index.WriteResults | src/indexer.rs:360-396 | one transaction writes the fresh rows of the indexed and the failed files |
| FontIndex.RebuiltIsFresh | src/indexer.rs:134-139 | under every fully walked root the rows are those of an index made from nothing, when a row with a file's size and time that could be read is the file's row |
| FontIndex.ChangedIsFresh | src/indexer.rs:145-152 | without any trust: a seen file gets its fresh row exactly when it had none, differs in size or time or was not read before, unless its inspection died |
| FontIndex.UnseenExactly | src/indexer.rs:207-241 | a row that was not seen goes exactly when it lies below a fully walked root, and is left alone elsewhere |
| Revision.NoStaleSkip | src/indexer.rs:175-181 | along every run of safe steps, crashes included, a lookup that precedes a committed index change leaves the job an older revision |
| Revision.StaleIsConverted | src/scanner.rs:507-544 | along such a run neither early return of the filter skips a partly converted file whose lookup precedes a committed index change |
| Revision.SafeExact | src/state.rs:266-275 | a step is safe, that is no recorded job is newer than the stored revision at a crash and no earlier lookup keeps up with a raise, exactly when nothing stale can come of it |
| Revision.StaleAfterCrash | src/state.rs:266-275 | from any start, a raise that was not stored before a crash leads to a stale lookup that counts as current |
| Revision.StaleAtTheTop | src/state.rs:269-269 | at the largest revision a raise changes nothing and a stale lookup counts as current |
| SubtitleRows.DoneIsSucceeded | src/processor.rs:363-388 | a row says done exactly when the last outcome recorded in it was that, with no failure and no restore since |
| ScanFilter.FilterVerdicts | src/scanner.rs:495-549 | each of the five verdicts exactly: busy, same size and time, marked, same hash, to be converted |
| ScanFilter.CastKeepsApart | src/scanner.rs:512-512 | the cast of the revision is the two's complement of 64 bits and keeps revisions apart |
| SubtitleRows.SkippedUnworked | src/scanner.rs:495-549 | in every run, an unmarked file no job finished with is skipped exactly when no job is active, the last outcome was a success or partial at this revision and configuration, and the row was refreshed from this file since or another one had its size and time |
| SubtitleRows.CancelledIsSkipped | src/scanner.rs:722-733 | a new version whose job is cancelled is skipped, after a success or a partial conversion |
| SubtitleRows.UploadedIsSkipped | src/scanner.rs:839-850 | so is a new version that is uploaded without a job |
| SubtitleRows.LostIsDue | src/processor.rs:352-388 | a converted file is due again when a crash fell between the job's row and the file's row |
| SubtitleRows.UnrecordedIsDue | src/processor.rs:992-1001 | so it is when the file's row could not be written |
| SubtitleRows.RestoredIsDue | src/backup.rs:181-193 | and after a restore, whatever version it brings back |
| WorkerPool.IndexInOnePlace | src/font_worker.rs:200-209 | every worker index is in the channel or with exactly one lease, in every run |
| WorkerPool.RightAnswer | src/font_worker.rs:324-328 | a returned value is the answer to this request, after time-outs and failed restarts too |
| WorkerPool.ReturnedBy | src/font_worker.rs:293-328 | a request returns by an ok answer with its own id only, and with that answer's value |
| WorkerPool.RejectedBy | src/font_worker.rs:213-241 | it is rejected by its own answer that says no, by a failed restart or by a restart after the second attempt, and by nothing else |
| WorkerPool.FailureRestarts | src/font_worker.rs:213-241 | a failed send, a missing answer and another's answer lead to a restart with an empty worker, and the first restart to the second attempt |
| WorkerPool.StepsForward | src/font_worker.rs:213-241 | every step of a request takes it further and nothing else moves it, so it ends after at most seven steps |
| WorkerPool.NeverStuck | src/font_worker.rs:197-241 | a request with a lease can go on without any answer, and one without finds a free worker unless another request has a lease |
| WorkerPool.AtMostTwo | src/font_worker.rs:213-241 | a request makes at most two sends and two restarts, and one restart less than sends when it returns a value |
| DrawTable.SerializeDrawTable | workers/font_worker.py:311-327 | the loop writes the table of the entries, flags cut to one byte, and fails exactly when the count or a string is too long |
| DrawTable.EntryLayout | workers/font_worker.py:311-327 | an entry is length, drawing, length, character and flags, the length two bytes with the most significant first |
| DrawTable.TableLayout | workers/font_worker.py:311-327 | a table is the count in four bytes, most significant first, and the entries in order |
| DrawTable.ParseDrawTable | workers/font_worker.py:330-354 | the loop with its position reads what the recursive reader reads, on any bytes |
| DrawTable.WholeIsLongest | workers/font_worker.py:336-353 | the number of entries that lie wholly within n bytes is the largest possible |
| DrawTable.ParseTruncated | workers/font_worker.py:330-354 | any truncation of a table parses to exactly the entries that lie wholly within it |
| DrawTable.DrawingsComeBack | workers/font_worker.py:311-354 | the drawings stored in a font are the ones read out of it |

## Left out

- RewriterTheorem.StripUndoesSubset: what inspecting a font yields is a parameter, any pairs are allowed; only the drawings are taken to be those the job stored (`DrawTable.DrawingsComeBack`).
- RewriterExact.StripUndoesSubsetExactly: names with tag characters, and where drawings are replaced names with braces or names that begin like the drawing font's, are excluded.
- ScriptMeaning.RenamingKeepsMeaning: the conditions on whole scripts are sufficient; they are proved exact for one tag, for visible text and for the fallback style.
- MeaningLimits.ParenthesisedName: the divergence is shown for one block and one name, as in the other members of that module without an equivalence; the general condition is `TagMeaning.OneTagExact`.
- Rendering: the font is not restored after a replaced drawing, so rendering equality is neither stated nor true.
- JobProtocol.StepKeepsInv: the `subtitle_files` row a job updates after its own row is not part of this state; `SubtitleRows` models it for one path, late updates included, without the backups.
- JobProtocol.StepKeepsInv: copies and writes are single steps, the digest in a backup's name is taken to be injective, backups are never pruned, and nobody else edits the subtitles.
- JobProtocol: pausing, parallelism, memory permits and file locks only delay a job and are dropped, which adds runs and removes none.
- CacheProtocol.StepKeepsInv: the directory scan is one step; temporary files, input/output errors of publishing and touching, and foreign files in the directory are not part of the state.
- CacheMaintenance.Evict: the sizes are taken to add up below 2^64, and what trying an entry comes to is a parameter; `SweepOrder` ties it to the locks and files, for a sweep nobody interrupts.
- FontIndex.Index.Rebuild: stale rows are deleted in one step instead of chunks of 500, and the disk does not change while a rebuild runs; a rebuild that returns an error is not modelled.
- Revision.NoStaleSkip: a rebuild that changed the index and then failed commits nothing, so its changes are only covered by the next one that changes the index.
- SubtitleRows.SkippedUnworked: the filter reads the row, the active jobs and the file in one step, a file is replaced only while no job runs on it, and whether it carries the subset marker is part of its content.
- WorkerPool.RightAnswer: a worker answers the requests it reads in order, each with that request's id; garbled lines count as no answer.
- DrawTable.DrawingsComeBack: ill-formed UTF-8 inside a damaged table is kept as bytes, not replaced by the replacement character.
- Encoding: UTF-8 and UTF-16 decoding are strict as in the Rust standard library; the lossy decoder of the scanner's prefix check is not modelled.
- The choice of fonts, their weights and their subsetting, font name tables, glyph outlines and drawing geometry are foreign library behaviour.
- HTTP routes, authentication, uploads, progress events, logging, metrics samples and the user interface.
- Backup pruning, watch directories, session clean-up and the scan scheduler.
