# Verified model of the xtask and script cores

This project models the protocols and algorithms that keep the repository's releases safe, and proves what they
guarantee over whole runs rather than in single calls. One module follows one source component; where the source
loops or updates state in place, the model is a method proved against a specification, and the theorems are about
that specification.

- **Contract rotation** (`FileSystem`, `PathNames`, `AtomicWrite`, `Confinement`, `StagedRotation`, `RotationCauses`,
  `RevisionContracts`): a disk whose every operation may fail, saying so, and whose every intermediate state is
  recorded, and paths walked component by component, `..` and all. The rotation is proved crash-safe state by state: the
  output is absent until one rename publishes it, and nothing that was there before changes. Which revision ids allow
  that, and which sets of ids give a complete output, is proved exactly. Every error is traced to a failed operation or
  to something in the inputs, and a rotation nothing speaks against succeeds.
- **Native canary** (`NativeCanary`, `CanaryRuns`, `CanaryVerdicts`): the multi-window run against answers it does not
  control. When a window passes, and with which error it is refused, is said on what it meets; the theorems beyond that
  are about whole runs, each window of which checks only itself.
- **Task broker** (`GithubWait`, `Slugs`, `ShellCommand`): the polling worker with its two clocks, the slug rewriting
  loop, and the printed command line read back by the shell's own rules.
- **Browser seeds** (`Sequences`, `BrowserSeeds`, `SeedAdvertisement`): order-preserving deduplication, the
  collision-aware rewriting to a DNS host, and seed resolution.
- **Bootstrap** (`BootstrapHeads`, `Remotes`, `BootstrapStack`): head preservation and recovery, remote identities,
  and the materialize/verify pair.
- **Promotion** (`PromotionGates`, `PromotionDecisions`, `PromotionScore`, `PromotionTable`, `PromotionDominance`,
  `PromotionWitness`, `PromotionSummary`, `Sorting`): over a hundred gates and a score of thirty-one terms, judged by how
  the decision moves: with the thresholds, and with the measurements.
- **Analyzers and small cores** (`UpdateSchedule`, `Percentile`, `LongestRun`, `RequireOrdered`, `PercentEncode`).

Several properties one would expect turn out not to hold of the code on all inputs. In each case the code is modelled
as it is, and the exact condition is proved, with a witness for the failure:

| expected | holds exactly when | proved by |
|---|---|---|
| staging a bundle leaves prior files alone and the output absent | the way to its file keeps clear of the output, and the file is inside the staging directory or its write is blocked by a directory of its temporary's name (so for every id without a slash) | `Confinement.HarmlessIff`, `StagedRotation.HarmfulIsUnsafe`, `Confinement.DotDotIsHarmful` |
| a successful rotation is complete | no two of its ids name one file, as `x` and `./x` do | `RevisionContracts.RotateRevisionContracts`, `StagedRotation.DotSlashNotApart` |
| no canonical head comes back in a passing run, given that a head's step is fixed by its id | the preflight head was kept, or has no id, or there is one window, or its step is not above the first replacement's (or the steps of so many windows do not fit into 64 bits, and no run passes) | `CanaryRuns.NeverRevisited`, `CanaryRuns.ReturnIff`, `CanaryRuns.PreflightHeadReturns` |
| the loss drifts by at most one tolerance per window | from the first head that counts, `train_loss` is reported by all heads or by none, or that head reports no loss to compare with | `CanaryRuns.OneKeyIsExact`, `CanaryRuns.FlipEscapes` |
| a recorded conclusion `stale` means the worker gave up | the run had not completed (GitHub has a conclusion of that name) | `GithubWait.RecordedConclusion`, `GithubWait.CompletedRunRecordedStale` |
| an encoded head id is one path segment | the id is not empty, `.` or `..` | `PercentEncode.StaysOneSegment`, `PercentEncode.DotsAreUnreserved` |
| the printed command reads back as its arguments | no argument is empty | `ShellCommand.ReadsBack`, `ShellCommand.ExactUnlessEmpty` |
| a slug is its own slug | before the cut it has at most 48 characters, or no dash as its 48th | `Slugs.SlugifyTwice`, `Slugs.SlugifyTwiceCanDiffer` |
| a rewritten webrtc-direct seed stays one | both transport words survive outside the dropped address | `BrowserSeeds.RewriteKeepsWebrtc`, `BrowserSeeds.AddressWordIsLost` |
| a materialized stack verifies | repair is off, or no path has two revisions, or some path has two remotes | `BootstrapStack.DependableIff` |
| loosening thresholds keeps a promotion | the two answer-distinct gates still pass | `PromotionDecisions.LooseningKeepsPromotion`, `PromotionWitness.ThinIsRejectedByLoosening` |
| an arm nowhere worse than a promoted one is promoted | it passes the gates that more rows, tokens, pairs or records bring on, and those on distinct answers | `PromotionDominance.BetterIsPromotedIff`, `PromotionDominance.OneRowMoreRejects` |

`dafny verify dfyconfig.toml` checks the whole project.

## Model

| member | source | states |
|---|---|---|
| RevisionContracts.RotateRevisionContracts | xtask/src/revision_contract.rs:220-297 | An existing output is refused and nothing is touched. Otherwise, up to the first step of writing a bundle whose id is not harmless, and with harmless ids throughout, every state a crash or error can leave has all prior files unchanged and no output; an error ends in such a state, and success adds one last step, the rename, after which the output is complete for exactly the inputs given if and only if no two ids share a file. Every error has its cause: a disk or key operation that failed, or something seen in the inputs, the authority or the disk as it was; after an error of the loop the staging directory is gone unless its removal failed. With nothing of that kind in the way, the rotation succeeds unless an operation failed. |
| RotationCauses.SmoothIsNotCaused | xtask/src/revision_contract.rs:220-297 | Where the output and the staging directory are absent, every input is a bundle file whose re-signing is faithful, verifies and has a content id, and nothing stands in the way of a write, no error has a cause without a failed operation. |
| RotationCauses.PlainIsSmooth | xtask/src/revision_contract.rs:220-278 | Bundle files with ids without a slash, a faithful authority and free places for the output and the staging directory are enough for that, however many bundles share a signer. |
| RotationCauses.ClearIsWritable | xtask/src/revision_contract.rs:260-265 | Where the ways to the bundles' files meet no prior file and no file of another bundle, each next bundle can be written, whatever was staged before it. |
| AtomicWrite.AtomicWriteJson | xtask/src/revision_contract.rs:466-482 | A crash or an error leaves exactly a beginning of the write's series of states: missing directories appear, a stale temporary goes, a torn and then a whole one comes, the rename. On success the target holds the whole document and the temporary file is gone; without a failed operation there is no error unless the disk blocks the way. |
| AtomicWrite.WriteKeepsDirectories | xtask/src/revision_contract.rs:466-482 | No state of a write lacks a directory that was there before it. |
| RevisionContracts.StageBundles | xtask/src/revision_contract.rs:245-278 | While all ids read are harmless, every state keeps to the staging directory; after the loop it holds nothing but bundle files and the directories on their ways, the id map and signer set are those of the inputs, and where no two ids share a file each id has the last input with it, re-signed. The loop stops early only with an error that has its cause. |
| RevisionContracts.StageBundle | xtask/src/revision_contract.rs:260-265 | Staging one bundle, whatever its id, leaves a beginning of that write's states, and all of it on success. |
| RevisionContracts.Resign | xtask/src/revision_contract.rs:249-259 | A bundle that passes re-signing has the payload it came with and verifies under the new key. |
| RevisionContracts.PrepareStaging | xtask/src/revision_contract.rs:228-243 | A staging directory left over from an earlier attempt stops the rotation with the disk unchanged; otherwise an empty one is created, unless the operation fails or a file stands where the parent's way leads, and no state on the way shows the output. |
| RevisionContracts.Install | xtask/src/revision_contract.rs:280-291 | Writing the manifest and the one directory rename take the output from absent to published with no state in between; any failure leaves it absent, and comes from an operation that failed or from ids whose files stand in each other's way. |
| StagedRotation.StageKeepsSparse | xtask/src/revision_contract.rs:260-265 | Writing one bundle leaves everything in the staging directory accounted for by an id read. |
| StagedRotation.StageKeepsHolding | xtask/src/revision_contract.rs:260-265 | Where no two ids share a file it disturbs no other bundle, not even through its temporary name. |
| StagedRotation.ManifestCompletes | xtask/src/revision_contract.rs:282 | The manifest and its temporary file collide with no bundle, and the manifest completes a staged directory. |
| StagedRotation.TracksSnoc | xtask/src/revision_contract.rs:247-270 | Reading one more input keeps both maps in step with the inputs: for every id the last input counts, and its content id is that of the file written. |
| StagedRotation.MoveKeepsComplete | xtask/src/revision_contract.rs:283 | Renaming the directory carries a complete rotation over file by file, with nothing added. |
| StagedRotation.CompleteMeansApart | xtask/src/revision_contract.rs:260-270 | A complete rotation is only possible where no two ids name one file. |
| StagedRotation.PlainIsApart | xtask/src/revision_contract.rs:260-264 | Ids without a slash never name one file. |
| StagedRotation.HarmfulIsUnsafe | xtask/src/revision_contract.rs:260-265 | For an id that is not harmless there is a disk from which some state of writing its bundle has lost a file from before, or shows an output that is not complete. |
| Confinement.StagingIsSafe | xtask/src/revision_contract.rs:230-243 | Whatever happens inside the staging directory, the output stays absent and earlier files stay as they were. |
| Confinement.ConfinedWrite | xtask/src/revision_contract.rs:260-265 | Every state of writing a bundle with a harmless id, at any depth of the staging directory, keeps to it; outside it only directories away from the output may appear. |
| Confinement.HarmlessIff | xtask/src/revision_contract.rs:260-265 | An id is harmless if and only if, from every disk a rotation can start on, no state of writing its bundle changes a prior file or makes the output appear. |
| Confinement.PlainIsHarmless | xtask/src/revision_contract.rs:260-264 | Every id without a slash is harmless and names a direct child. |
| Confinement.OutsideOverwrites | xtask/src/revision_contract.rs:260-265 | A target outside the staging directory can be a prior file, which a successful write then replaces. |
| Confinement.DotDotIsHarmful | xtask/src/revision_contract.rs:260-264 | No id of the form `../x` is harmless. |
| StagedRotation.RenamePublishes | xtask/src/revision_contract.rs:283 | The rename leaves all prior files, and a complete output if the staging directory was complete. |
| FileSystem.Disk.CreateDirAll | xtask/src/revision_contract.rs:468 | The directories a path names are visited in order and made where missing; a crash or an error leaves a beginning of those states, and success means no file stood in the way. |
| FileSystem.Disk.WriteFile | xtask/src/revision_contract.rs:479-480 | A write that fails may leave a torn file, one that succeeds leaves the content; no other path changes. |
| FileSystem.Disk.RenameFile | xtask/src/revision_contract.rs:481 | A file rename is one atomic step that replaces its target. |
| FileSystem.Disk.RenameDirectory | xtask/src/revision_contract.rs:283 | A directory rename moves the whole subtree in one step, and only onto a free or empty place. |
| FileSystem.Disk.RemoveDirAll | xtask/src/revision_contract.rs:293 | Removal goes entry by entry, may stop anywhere, and touches nothing outside the directory. |
| PathNames.PlainTarget | xtask/src/revision_contract.rs:260-264 | An id without a slash names a direct child of the staging directory, and its way there leads nowhere else. |
| PathNames.DotSlashShares | xtask/src/revision_contract.rs:260-264 | The ids `x` and `./x` name one file. |
| PathNames.DotDotEscapes | xtask/src/revision_contract.rs:260-264 | An id beginning with `../` is written beside the staging directory. |
| Confinement.PlainNames | xtask/src/revision_contract.rs:230-264 | The names a rotation uses for the staging directory, the file of a bundle with a plain id, and its temporary. |
| NativeCanary.RunWindows | xtask/src/native_canary.rs:182-325 | On success there is one report per window and each passed all its checks from the head before it; an error is that of the first window whose checks fail. |
| NativeCanary.RunWindow | xtask/src/native_canary.rs:193-322 | One window returns the first failing check in source order, or its report. |
| CanaryVerdicts.WindowPassesIff | xtask/src/native_canary.rs:193-322 | A window passes with a report if and only if that is what a healthy window shows: an accepted training report, the published head among the first probe's heads that lists it in time, the first directory entry in time that names another head, a higher truncated step than the head before (or than the trainer's base step, where it is replaced), a loss that did not rise by more than a millionth under the first key both report, a probe that lists the head, providers, and with the option the connected peer among them. |
| CanaryVerdicts.WindowVerdict | xtask/src/native_canary.rs:193-322 | Every refusal names the first check that failed: all before it held and it did not. |
| CanaryVerdicts.AnswerIff | xtask/src/native_canary.rs:908-950 | A wait returns the first acceptable answer of a round begun in time, and nothing only if no such round had one. |
| CanaryVerdicts.EdgeGate | xtask/src/native_canary.rs:994-1003 | A window that passes without the edge gate is refused by it as not edge-backed if and only if no non-empty connected peer of the snapshot is among the head's providers; otherwise it passes with the same report. |
| CanaryVerdicts.RunIsEdgeBacked | xtask/src/native_canary.rs:301-304 | In every passing run with that option, each window's new head has a non-empty connected peer of the window's own snapshot among its providers. |
| CanaryVerdicts.RunIsHealthy | xtask/src/native_canary.rs:1146-1190 | Every window of a passing run was healthy, training report included: the trainer could train, its step rose, it reported a loss and positive work, and a settlement was enabled with passes and updates. |
| CanaryVerdicts.TrainedIff | xtask/src/native_canary.rs:1146-1190 | What makes a training report accepted, on its fields. |
| CanaryVerdicts.AsI64Truncates | xtask/src/native_canary.rs:1154-1155 | Steps are truncated toward zero and saturate at the ends of the 64-bit range. |
| NativeCanary.WaitFor | xtask/src/native_canary.rs:908-950 | The wait returns the answer of the first round, begun within the timeout, that is acceptable, and nothing otherwise. |
| NativeCanary.HitMeans | xtask/src/native_canary.rs:1118-1144 | No earlier round offered an acceptable answer, all earlier rounds began in time, and without an answer the clock has run out. |
| CanaryRuns.WindowHolds | xtask/src/native_canary.rs:1207-1240 | A window that passes ends at a new head, at a higher step unless its baseline was replaced, with providers, with the connected peer among them where the option asks for it, and advertised to peers. |
| CanaryRuns.StepsRise | xtask/src/native_canary.rs:190-325 | In a successful run the canonical step rises by at least one per window between any two heads; only a replaced preflight head is exempt. |
| CanaryRuns.ConsecutiveHeadsDiffer | xtask/src/native_canary.rs:1118-1144 | Each window ends with a head that has an id, differs from the one before, has a provider and was seen by a peer. |
| CanaryRuns.NeverRevisited | xtask/src/native_canary.rs:190-325 | If a head's id fixes its step, no published head returns; the preflight head can return only when it was replaced, after the first window, and only if its step lies far enough above the first replacement's. |
| CanaryRuns.ReturnIff | xtask/src/native_canary.rs:190-325 | Over all passing runs that begin with a given preflight head and first replacement, some run comes back to the preflight head if and only if it has an id, there is a second window, its step is above the replacement's, and the steps of that many windows fit into 64 bits. |
| CanaryRuns.PreflightHeadReturns | xtask/src/native_canary.rs:190-325 | A run of two windows that ends at the head it replaced. |
| CanaryRuns.LossDrift | xtask/src/native_canary.rs:1218-1230 | With non-regression required and one loss key throughout, the loss at every window is at most the first one plus one tolerance per window since, counted from the first published head if the preflight head was replaced. |
| CanaryRuns.EveryChainIsARun | xtask/src/native_canary.rs:182-325 | Every sequence of metrics whose neighbours pass the loss check occurs in some successful run, with or without a replaced preflight head. |
| CanaryRuns.FlipEscapes | xtask/src/native_canary.rs:1242-1249 | As soon as one head reports a different key set, metrics exist that pass every check and break the drift bound. |
| CanaryRuns.OneKeyIsExact | xtask/src/native_canary.rs:1242-1249 | With or without a replaced preflight head, the drift bound holds of all full runs with given keys if and only if, from the first head that counts, `train_loss` is reported by all heads or by none, or that head reports no loss. |
| PercentEncode.RoundTrip | xtask/src/native_canary.rs:1302-1316 | Percent-decoding the encoded text gives back the bytes, and the text holds only unreserved characters and upper-case triplets. |
| PercentEncode.Injective | xtask/src/native_canary.rs:1302-1316 | Different ids have different encodings. |
| PercentEncode.EncodedAlone | xtask/src/native_canary.rs:1302-1316 | Letters, digits, hyphen, full stop, underscore and tilde stand for themselves; every other byte becomes a triplet. |
| PercentEncode.EncodeConcat | xtask/src/native_canary.rs:1302-1316 | Ids are encoded byte by byte. |
| PercentEncode.WellFormedHasNoDelimiter | xtask/src/native_canary.rs:1302-1316 | Encoded text has no character outside the unreserved set but the percent sign. |
| PercentEncode.StaysOneSegment | xtask/src/native_canary.rs:722-729 | An encoded id is one URL path segment if and only if it is not empty, `.` or `..`. |
| GithubWait.WaitGithubWorker | xtask/src/agent_task.rs:700-794 | The loop stops at exactly the first poll with a verdict, asked in the order completed, timed out, stale; the recorded task and exit code are those of that verdict, and a failed query ends it with the task still running. |
| GithubWait.VerdictMeans | xtask/src/agent_task.rs:744-792 | What is decided at a poll, given the poll since which the six fields have been steady: failure, completion, timeout or staleness, in this order, by the readings alone. |
| GithubWait.ClockStart | xtask/src/agent_task.rs:728-731 | The stale clock is read from a poll if and only if the six fields have been steady since that poll and not before. |
| GithubWait.ChangeRestartsClock | xtask/src/agent_task.rs:718-731 | A poll that differs from the one before in any of the six fields has its stale clock start at its own reading. |
| GithubWait.OnlySixFieldsDecide | xtask/src/agent_task.rs:166-177 | Two series of polls that agree in the six fields and the readings get the same verdicts, whatever their titles, addresses, workflow names and log tails. |
| GithubWait.ExitTable | xtask/src/agent_task.rs:744-791 | The recorded status and conclusion and the exit code of every verdict, with and without the exit-status option. |
| GithubWait.ChangePollIsUnbroken | xtask/src/agent_task.rs:728-731 | The remembered change is the first of an unbroken series of polls with the present signature. |
| GithubWait.StaleMeansUnchanged | xtask/src/agent_task.rs:781-791 | A stale verdict means that status, conclusion, active job and step, and failed job and step are equal at all polls since the last change, for longer than the limit, and that the run was not completed. |
| GithubWait.CompletedRunRecordedStale | xtask/src/agent_task.rs:744-769 | A run GitHub itself concluded as `stale` completes at once and still exits with 124. |
| GithubWait.PollBound | xtask/src/agent_task.rs:770-792 | With a timeout a verdict falls within timeout / interval + 2 polls. |
| GithubWait.StaleBound | xtask/src/agent_task.rs:781-792 | With a stale limit a verdict falls within limit / interval + 2 polls that agree in the six fields. |
| Slugs.Slugify | xtask/src/agent_task.rs:1513-1528 | The loop that replaces `--` until none is left ends and equals collapsing every dash run once, then trimming and cutting to 48. |
| Slugs.ReplaceKeepsCollapse | xtask/src/agent_task.rs:1524-1526 | A round of replacements never changes what the dash runs collapse to. |
| Slugs.CollapseHasNoPair | xtask/src/agent_task.rs:1524-1526 | The collapsed text has no `--`. |
| Slugs.TaskSlugShape | xtask/src/agent_task.rs:1513-1528 | A task slug has at most 48 characters of the slug alphabet, no `--` and no leading dash; a trailing dash is possible only at full length. |
| Slugs.KeepMeans | xtask/src/agent_task.rs:1514-1523 | What each character becomes: capitals move by 32 places, small letters, digits, underscore and full stop stay, all else is a dash. |
| Slugs.TrimMeans | xtask/src/agent_task.rs:1527 | Trimming drops the dashes at both ends and nothing else, and the cut keeps the first 48 characters. |
| Slugs.SlugifyTwice | xtask/src/agent_task.rs:1513-1528 | Slugifying a slug changes nothing, exactly unless the collapsed and trimmed text is longer than 48 and has a dash in place 48. |
| Slugs.SlugifyTwiceCanDiffer | xtask/src/agent_task.rs:1527 | A word whose slug is not its own slug. |
| Slugs.Slug | xtask/src/bootstrap_settings.rs:1512-1525 | The one-pass flag loop computes the dash-collapsed lower-case text. |
| Slugs.SlugsAgree | xtask/src/bootstrap_settings.rs:1512-1525 | On ASCII text without `_` and `.` the broker slug is the profile slug, trimmed and cut. |
| ShellCommand.OneArgument | xtask/src/agent_task.rs:1615-1624 | A printed non-empty argument is read back by the shell as one word, whatever follows. |
| ShellCommand.ReadsBack | xtask/src/agent_task.rs:1171-1180 | Tokenizing and unquoting the printed command gives exactly its non-empty arguments. |
| ShellCommand.ExactUnlessEmpty | xtask/src/agent_task.rs:1171-1180 | The printed command reads back as the argument list if and only if no argument is empty. |
| ShellCommand.RenderInjective | xtask/src/agent_task.rs:1171-1180 | Different lists of non-empty arguments print differently. |
| ShellCommand.QuotedIff | xtask/src/agent_task.rs:1615-1624 | An argument is printed bare if and only if it has letters, digits and the seven bare signs only; otherwise it stands between single quotes. |
| Sequences.DedupeSeen | xtask/src/deploy_settings.rs:330-336 | The seen-set loop keeps the first occurrence of every element, in order. |
| Sequences.DedupeGrows | xtask/src/deploy_settings.rs:330-336 | Later elements leave what was kept of the earlier ones in its place. |
| BrowserSeeds.RewrittenSegments | xtask/src/deploy_settings.rs:380-389 | A rewritten seed has the host in place of its address pair and all other segments as they were. |
| BrowserSeeds.RewriteIff | xtask/src/deploy_settings.rs:380-389 | Just the dialable seeds at an IP address with something behind it are rewritten. |
| BrowserSeeds.DialableIff | xtask/src/deploy_settings.rs:391-430 | What makes an address dialable and webrtc-direct, word by word. |
| BrowserSeeds.RewriteTwice | xtask/src/deploy_settings.rs:380-389 | Rewriting a seed for a host is idempotent. |
| BrowserSeeds.CanonicalMembers | xtask/src/deploy_settings.rs:348-371 | The canonical list contains exactly the inputs' rewritings, with an input itself where its rewriting was an input too. |
| BrowserSeeds.CanonicalRepresents | xtask/src/deploy_settings.rs:348-371 | Every input is represented by itself or its rewriting, a canonical input is kept, and an IP seed stays unrewritten exactly when its rewriting was an input. |
| BrowserSeeds.CanonicalAddsNothing | xtask/src/deploy_settings.rs:348-371 | The list has no duplicates and holds nothing but inputs and their rewritings. |
| BrowserSeeds.CanonicalIdempotent | xtask/src/deploy_settings.rs:348-371 | Canonicalising a canonical list changes nothing, not even the order. |
| BrowserSeeds.RewriteKeepsWebrtc | xtask/src/deploy_settings.rs:380-406 | A rewritten webrtc-direct seed stays one if and only if both of its words are behind the address or in the host; a plain address is enough. |
| BrowserSeeds.RewriteKeepsDialable | xtask/src/deploy_settings.rs:380-417 | A dialable seed with a plain address stays dialable when rewritten. |
| BrowserSeeds.AddressWordIsLost | xtask/src/deploy_settings.rs:380-389 | A webrtc-direct seed whose rewriting is not dialable. |
| BrowserSeeds.ResolveSeedNodeUrls | xtask/src/deploy_settings.rs:136-161 | The three sources are tried in order; a failed fetch and an empty result are errors. |
| BrowserSeeds.SourcesInOrder | xtask/src/deploy_settings.rs:136-147 | A given list decides alone, whatever the edge or the environment say; without one the edge's non-empty list decides as if it had been given, and a failed fetch is an error; the environment's list counts only behind an empty fetch. |
| BrowserSeeds.ResolvedMembers | xtask/src/deploy_settings.rs:136-161 | Just what is resolved: the dialable ones among what becomes of the preferred candidates, which are the webrtc-direct ones if there are any, each readdressed to the host unless that address is a candidate itself. |
| BrowserSeeds.ResolvedIsClean | xtask/src/deploy_settings.rs:136-161 | Resolved seeds are dialable and without duplicates. |
| BrowserSeeds.ResolvedIsWebrtc | xtask/src/deploy_settings.rs:391-430 | If any candidate was webrtc-direct, every resolved seed is. |
| BrowserSeeds.ResolvedIffDialable | xtask/src/deploy_settings.rs:136-161 | Something is resolved if and only if some candidate was dialable. |
| SeedAdvertisement.Advertisement.PreferValidated | xtask/src/browser_site.rs:1583-1603 | Flattened, the record filter is the list filter on the flattened seeds; without a webrtc-direct address nothing changes, and with one the records are the narrowed ones that are not empty, in order, and the fallback is off. |
| SeedAdvertisement.KeptAddresses | xtask/src/browser_site.rs:1596-1600 | Narrowing every record and dropping the empty ones keeps exactly the webrtc-direct addresses, in order. |
| SeedAdvertisement.NarrowMeans | xtask/src/browser_site.rs:1596-1600 | A narrowed record is the same peer's, with just its webrtc-direct addresses in their order. |
| RequireOrdered.RequireOrdered | xtask/src/workflow_contracts.rs:1178-1187 | The greedy scan succeeds if and only if some choice of in-order, non-overlapping occurrences exists; a rejection names the first snippet no choice can reach. |
| RequireOrdered.LeftmostFirst | xtask/src/workflow_contracts.rs:1181-1184 | Moving the first snippet to its leftmost occurrence never loses a placement of the rest. |
| RequireOrdered.FindFrom | xtask/src/workflow_contracts.rs:1181-1183 | The search returns the leftmost occurrence at or behind the cursor, and none only if there is none. |
| BootstrapHeads.Config.PreserveCurrentHeads | xtask/src/bootstrap_runtime.rs:397-424 | Every entry is kept, filled from the live directory, or filled from a visible root, and the two counts are the numbers of entries each source filled. |
| BootstrapHeads.PreservedIff | xtask/src/bootstrap_runtime.rs:426-436 | An id is preserved if and only if the entry has none and the directory's first entry of the same study, experiment and revision names it; an entry's revision is its current one, and its plain one only where that is missing or empty. |
| BootstrapHeads.RecoveredMeans | xtask/src/bootstrap_runtime.rs:438-462 | An id is recovered only with the option and without a live head, and belongs to a parentless head of the entry's study, experiment and revision that none such outranks. |
| BootstrapHeads.UnfilledMeans | xtask/src/bootstrap_runtime.rs:407-421 | An entry stays without a head only if there was none to fill in. |
| BootstrapHeads.RanksMeans | xtask/src/bootstrap_runtime.rs:453-458 | Of two heads the one created later ranks higher, of those created together the one with the later id, both compared as text from the first difference. |
| BootstrapHeads.FillMeans | xtask/src/bootstrap_runtime.rs:407-421 | Nothing but the head of an entry changes. |
| BootstrapHeads.FillSettles | xtask/src/bootstrap_runtime.rs:407-421 | An entry with a head never changes, and a filled entry asks for nothing more. |
| BootstrapHeads.SecondRun | xtask/src/bootstrap_runtime.rs:397-424 | A second run on the same snapshot changes nothing and reports 0/0. |
| BootstrapHeads.GreatestRootIsGreatest | xtask/src/bootstrap_runtime.rs:438-462 | The recovered head is a parentless head of the entry's key that none outranks by creation time and id; none is recovered only without one. |
| BootstrapHeads.RecoveryIgnoresOrder | xtask/src/bootstrap_runtime.rs:438-462 | The recovered id does not depend on the snapshot's order. |
| Remotes.SpellingsAgree | scripts/bootstrap_stack.py:59-68 | The ssh spelling and a URL of any scheme, the latter with or without user, each with or without `.git` and a slash at the end, have one identity: lower-case host and path. |
| Remotes.SameRemoteIff | scripts/bootstrap_stack.py:71-78 | Two such spellings have equal identities if and only if their hosts and paths are equal in lower case. |
| Remotes.LowerAt | scripts/bootstrap_stack.py:68 | Only the letters from A to Z change, by 32 places. |
| BootstrapStack.Workspace.Clone | scripts/bootstrap_stack.py:88 | A clone adds its repository at the remote's HEAD or nothing. |
| BootstrapStack.Workspace.Checkout | scripts/bootstrap_stack.py:89 | A checkout moves one HEAD or nothing. |
| BootstrapStack.Workspace.Materialize | scripts/bootstrap_stack.py:85-106 | Success is exactly the specified step, a refusal names the specified reason, a failed git command is the only other error, and at every point each prior repository is as it was or was clean and moved to the locked revision, the latter only with repair. |
| BootstrapStack.Workspace.Verify | scripts/bootstrap_stack.py:109-117 | Success means the repository is there with the right remote and HEAD; a refusal names what is wrong with it, unless a git query failed. |
| BootstrapStack.Workspace.RunStack | scripts/bootstrap_stack.py:140-147 | A failed git command is reported if and only if there was one. Without one, verification succeeds if and only if all repositories verify, and otherwise names what is wrong with the first that does not; materialization is the specified run. Verification changes nothing, and the same respect for prior repositories holds at every point of a materialization. |
| BootstrapStack.MaterializedVerifies | scripts/bootstrap_stack.py:85-117 | What a successful run materialized verifies: always without repair, and with it when no path has two revisions. |
| BootstrapStack.RunChecksRemotes | scripts/bootstrap_stack.py:71-78 | A run never changes an origin, and its success means every locked remote matched. |
| BootstrapStack.ReadyRuns | scripts/bootstrap_stack.py:140-147 | From clean repositories with the right remotes, and one remote per path, a repairing run has nothing to refuse. |
| BootstrapStack.VerifiedRuns | scripts/bootstrap_stack.py:85-106 | A stack that verifies is left alone and never refused, with repair or without. |
| BootstrapStack.StepTable | scripts/bootstrap_stack.py:85-106 | What is done to a single repository, and with which refusal otherwise. |
| BootstrapStack.DependableIff | scripts/bootstrap_stack.py:85-147 | Success implies verification from every workspace if and only if repair is off, or no path is locked at two revisions, or some path is locked to two remotes. |
| UpdateSchedule.UpdatesAreRangeSteps | scripts/ruliad_promotion_matrix_analyze.py:879-881 | The closed form counts exactly the steps of `range(start, max_iters, every)`. |
| UpdateSchedule.ExpectedSteps | scripts/ruliad_promotion_matrix_analyze.py:878-892 | The two reported counts are the closed form and the number of visited steps that fall on a rank step, and 0 when disabled. |
| UpdateSchedule.GcdWitness | scripts/ruliad_promotion_matrix_analyze.py:882-892 | The two periods have a greatest common divisor with cofactors and Bezout coefficients. |
| UpdateSchedule.HitsRecur | scripts/ruliad_promotion_matrix_analyze.py:890-892 | From one rank step on, the rank steps are exactly those a multiple of p updates away. |
| UpdateSchedule.OneResidue | scripts/ruliad_promotion_matrix_analyze.py:890-892 | One residue class among n indices has floor(n / p) members, or one more. |
| UpdateSchedule.RankMetricCount | scripts/ruliad_promotion_matrix_analyze.py:882-892 | With p = rank period / gcd, the count is 0 unless the gcd divides the start, and then lies between floor(n / p) and ceil(n / p), one update in every p, beginning with the first that falls on a rank step. |
| PromotionGates.ReasonsLoosen | scripts/ruliad_promotion_matrix_analyze.py:2112-2509 | An arm with no fail reasons has none under looser thresholds if and only if the answer-distinct gates still pass. |
| PromotionTable.PromotedIff | scripts/ruliad_promotion_matrix_analyze.py:2112-2582 | An arm is promoted if and only if it is not the baseline, shows what the gates ask, measurement by measurement, and does not score below zero. Three of the gates decide nothing: they are asked only of arms below the verifier floor. |
| PromotionDecisions.DecisionTable | scripts/ruliad_promotion_matrix_analyze.py:2570-2585 | Which arms are controls and which are held, and the score and reasons each decision reports. |
| PromotionScore.ScoreIsTotal | scripts/ruliad_promotion_matrix_analyze.py:2511-2569 | The score is the sum over a table of thirty-one measurements, each with a point at which it counts nothing and a rate on either side of it. |
| PromotionScore.ScoreFollows | scripts/ruliad_promotion_matrix_analyze.py:2511-2569 | All else held, the score follows each measurement at the rate of the side it is on. |
| PromotionScore.ScoreDirection | scripts/ruliad_promotion_matrix_analyze.py:2511-2569 | All else held, more of a rewarded measurement never lowers the score and more of any other never raises it, and strictly so for eighteen of them, the verifier, semantic, partial and completion deltas, the validation and schema deltas, the drops and the recovery fraction among them. |
| PromotionScore.StrictTerms | scripts/ruliad_promotion_matrix_analyze.py:2511-2569 | Which eighteen those are. |
| PromotionDominance.BetterIsPromotedIff | scripts/ruliad_promotion_matrix_analyze.py:2112-2582 | An arm nowhere worse than a promoted one, with the same objectives configured, never scores lower, and is promoted if and only if it passes the gates that more rows, tokens, pairs or records bring on and those on distinct answers; otherwise it is rejected. |
| PromotionDominance.BetterIsPromoted | scripts/ruliad_promotion_matrix_analyze.py:2112-2582 | With nothing more asked of it, an arm nowhere worse than a promoted one is promoted. |
| PromotionDominance.OneRowMoreRejects | scripts/ruliad_promotion_matrix_analyze.py:2378-2379 | Any promoted arm without policy rows but with too high a clipped fraction is rejected as soon as it reports one row more. |
| PromotionDecisions.ScoreGrows | scripts/ruliad_promotion_matrix_analyze.py:2511-2569 | Loosening thresholds never lowers the promotion score. |
| PromotionDecisions.LooseningKeepsPromotion | scripts/ruliad_promotion_matrix_analyze.py:2088-2585 | On the same metrics a promoted arm stays promoted under looser thresholds if the answer-distinct gates still pass, and is rejected if they do not; its score never falls. |
| PromotionDecisions.LooseningTheOthersIsSafe | scripts/ruliad_promotion_matrix_analyze.py:2088-2585 | With the two answer-distinct thresholds fixed, loosening any others keeps a promotion. |
| PromotionDecisions.LooseningCanReject | scripts/ruliad_promotion_matrix_analyze.py:2264-2268 | At either answer-distinct gate, any promoted arm with fewer distinct answers than expected, both below the threshold, is rejected under some looser threshold. |
| PromotionWitness.ThinIsRejectedByLoosening | scripts/ruliad_promotion_matrix_analyze.py:2264-2268 | An arm that is promoted, and two looser threshold sets that reject it, one for each gate. |
| PromotionSummary.AddGateDecisions | scripts/ruliad_promotion_matrix_analyze.py:1762-2621 | Without a baseline row there is no report; otherwise every row is decided once and the report sorted. |
| PromotionSummary.SortedIsStable | scripts/ruliad_promotion_matrix_analyze.py:2614-2621 | The report is ordered by decision and score, loses and repeats nothing, and leaves ties in their order. |
| PromotionSummary.SortedOrder | scripts/ruliad_promotion_matrix_analyze.py:2614-2621 | Promotions stand first, then the control, holds and rejections; scores fall within one decision, an exact zero counting as minus a billion. |
| PromotionSummary.SortingKeepsCounts | scripts/ruliad_promotion_matrix_analyze.py:2646-2662 | The summary's counts do not depend on the report's order. |
| PromotionSummary.ReportCountsAddUp | scripts/ruliad_promotion_matrix_analyze.py:2624-2662 | The counts of the four decisions add up to the arms, and promotions never outnumber mature arms. |
| PromotionSummary.ValidatedReportLeadsWithPromotion | scripts/ruliad_promotion_matrix_analyze.py:2614-2652 | A sorted report is validated if and only if its first row is a promotion. |
| PromotionSummary.StatusMeans | scripts/ruliad_promotion_matrix_analyze.py:2644-2650 | What each validation status says about the rows. |
| PromotionSummary.LooseningKeepsValidation | scripts/ruliad_promotion_matrix_analyze.py:2624-2662 | A validated report stays validated, with no fewer promotions, when all thresholds but the two answer-distinct ones loosen. |
| Percentile.AtIsMonotone | scripts/latent_reasoning_steps_analyze.py:262-268 | The interpolation never falls as the position grows, within a segment or across any number of them. |
| Percentile.PercentileOnLine | scripts/latent_reasoning_steps_analyze.py:256-268 | Linear interpolation: where the position lies from k to k + 1, the percentile lies on the straight line from the value of rank k to the value of rank k + 1, ranks being counts of smaller and of not greater values. |
| Percentile.RankedIsSorted | scripts/latent_reasoning_steps_analyze.py:259 | Every rank is held by exactly one value, the one sorting puts there. |
| Percentile.PercentileIsMonotone | scripts/latent_reasoning_steps_analyze.py:256-268 | The percentile is monotone in q. |
| Percentile.PercentileRange | scripts/latent_reasoning_steps_analyze.py:256-268 | It is the minimum at 0, the maximum at 1, and between them everywhere. |
| Percentile.OrderDoesNotMatter | scripts/latent_reasoning_steps_analyze.py:259 | It depends on the values only, not on their order. |
| LongestRun.LongestMatchingRun | scripts/ruliad_structural_generalization_analyze.py:444-453 | The loop returns the greatest length of any contiguous all-matching block. |
| LongestRun.LongestIsMonotone | scripts/ruliad_structural_generalization_analyze.py:531-536 | A weaker test has a run at least as long. |
| LongestRun.LongestOfSlice | scripts/ruliad_structural_generalization_analyze.py:512-517 | A slice's run never exceeds the run over the whole log. |
| LongestRun.ActiveWindow | scripts/ruliad_structural_generalization_analyze.py:512-517 | The window reaches from the first to the last reading of at least 80, and is the whole log without one. |
| LongestRun.ActiveRuns | scripts/ruliad_structural_generalization_analyze.py:512-536 | Over the window from the first to the last reading of at least 80, or the whole log without one, the two longest runs; the idle run is at most the sub-80 run, and neither exceeds the same run over the whole log. |
| LongestRun.TestsMean | scripts/ruliad_structural_generalization_analyze.py:531-536 | The two tests: below 80, and at most 20. |

## Left out

- HTTP, git, cargo, AWS and child-process calls: they are inputs or nondeterministic results, and the model lets each of them fail.
- Signing, hashing and key loading: abstract functions of the authority. Nothing is assumed of them; a signature that does not verify is an error path. Loading the key either works or fails.
- RotationCauses.SmoothIsNotCaused: for an authority that signs an input faithfully at every time, since the time of signing is not known beforehand.
- RevisionContracts.RotateRevisionContracts: promises nothing from the first step of writing a bundle on whose id is not harmless, because the code then writes outside its staging directory or into the output, as `StagedRotation.HarmfulIsUnsafe` shows. There are no symbolic links, so that `..` leads to the parent, the operator's output path is already resolved, and no other process writes to the disk meanwhile.
- FileSystem: durability across power loss (no `fsync` in the source) and permissions.
- NativeCanary: the two waits share one loop method, since they differ only in what they accept. The detached validator, enrolment, timings in the report, and infinite or undefined floating-point numbers are not modelled; the source's `number` drops the latter.
- CanaryRuns.EveryChainIsARun: stated, and OneKeyIsExact with it, for fewer than 2^63 windows, because steps saturate at the ends of the 64-bit range; the source's window count is far below.
- Floating-point rounding: exact reals, in the canary losses, the percentiles, the promotion scores and the utilisation samples.
- GithubWait.WaitGithubWorker: runs over a finite stretch of polls; without a timeout and stale limit the source's loop may never end. The `completed_at` and `duration_secs` fields, the log file and failures to write `task.json` are left out, as is the detached worker, which writes the same file as its parent without coordination.
- ShellCommand: reserved words, assignments and aliases, which apply to a word after it is read; `Words` rejects operators, expansions and patterns.
- Slugs.Slug: the Unicode lower-case expansion is a parameter; SlugsAgree needs it only on ASCII.
- BrowserSeeds.ResolveSeedNodeUrls: splitting the comma-separated lists, fetching the edge's advertisement and parsing its URL; their results are parameters.
- BrowserSeeds.ResolvedIsWebrtc: for seeds whose address segment is not itself a transport word; RewriteKeepsWebrtc says exactly what happens to the others.
- SeedAdvertisement: the per-record canonicalisation in the same file, which applies the list version to each record.
- BootstrapHeads: entries that are not JSON objects, on which the source may panic.
- BootstrapStack: the lock file's SHA format check and partial clones. A path, remote or HEAD that git cannot read is a failed command, and a revision that names no commit makes the checkout fail.
- Remotes: lower-casing beyond ASCII.
- UpdateSchedule: reading the configuration and its defaults.
- PromotionGates: how a row's metrics and deltas are read and defaulted; `Metrics` holds the results. Reasons are an enumeration instead of strings, and the theorems say when there are any, not which name each gate gives its own.
- PromotionDominance.BetterIsPromotedIff: compares arms with the same objectives configured; a probe the better arm left out counts as no worse, one it added does not.
- PromotionSummary: the summary's list of healthy arms and of unhealthy controls, and the CSV and Markdown output.
- The latent-step ranking in the promotion analyzer: it reads a rate of exactly 0.0 as 1.0, so the natural claim about it is not what it computes.
- LongestRun: the other columns of `gpu_stats`; an empty log, for which the source reports no run, has runs of 0 here.
- `build.rs`, `bundle.rs`, command-line parsing, the lists of workflow snippets, and one-line predicates: nothing to prove beyond reading them.
