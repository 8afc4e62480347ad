# SonicX: proposal capsule, backup marker and keystore console, in Dafny

This project models three small pieces of the SonicX node and proves properties of the models.

**The governance proposal capsule** (`Capsule`). A `ProposalCapsule` holds one immutable `Proposal` record. The record has:
- an id and a proposer address;
- a parameter map;
- creation and expiration times;
- an ordered approval list;
- a state.

Each setter replaces the held record by a copy in which one field has changed. The approval list can be appended to, cleared, or lose the first occurrence of an address. The queries are:
- whether the proposal has been processed, canceled, or has expired;
- its database key;
- whether enough active witnesses approved it. This is the 60 % rule, evaluated with Java `int` arithmetic: `activeWitnesses.size() * 6 / 10` wraps around once the product leaves the 32-bit range.

**The database backup marker** (`Backup`). A persisted property tells which of two backup directories holds the last completed copy. It also tells whether a copy is in flight:

| value | meaning |
|---|---|
| `"1"` | copying into the first directory |
| `"11"` | first directory complete |
| `"2"` | copying into the second directory |
| `"22"` | second directory complete |

Every `frequency` pushed blocks a backup runs. From a completed value it copies into the other directory; from an in-progress value it finishes that directory. The class `BackupDbUtil` of the model keeps two things the node keeps apart: the chain height, which the node's dynamic properties store holds, and the marker, which the property file holds. The scenario of the backup unit test is proved as `TestDoBackup`.

**The keystore console** (`KeystoreFactory`). This covers:
- the private-key validator;
- the classification of an input line: trim it, take the first `\s+`-separated word, skip it when empty, lower-case it and switch on it;
- the loop that reads private keys until one is valid;
- the command loop of `run`, which stops only on `exit` or `quit`.

Each input line is first read into a `Line`: the command it selects and its first word. The command loop (`Respond`, `Dispatch`) and its lemmas work on those values. `Run` and `ReadPrivateKey` loop over the raw lines, and `RunTurn` is one pass of `run`'s loop body on a raw line. They are proved equal to `Dispatch`, `Respond` and `FindKey` applied to `ReadLines(lines)`.

Java `long` is the `newtype int64`, and a `ByteString` address is a byte sequence. Strings are sequences of Dafny characters, which are Unicode scalar values. The console's input is a sequence of lines, and what the tool prints or writes is a sequence of `Effect` values.

## Model

| member | source | states |
|---|---|---|
| Capsule.ProposalCapsule.constructor | src/main/java/org/sonicx/core/capsule/ProposalCapsule.java:21-23 | the capsule holds exactly the given proposal |
| Capsule.ProposalCapsule.FromProposer | src/main/java/org/sonicx/core/capsule/ProposalCapsule.java:33-38 | the new proposal is the default message with only its proposer and id set |
| Capsule.ProposalCapsule.SetID | src/main/java/org/sonicx/core/capsule/ProposalCapsule.java:44-48 | only the id changes, and the database key becomes the key of the new id |
| Capsule.ProposalCapsule.SetProposalAddress | src/main/java/org/sonicx/core/capsule/ProposalCapsule.java:54-58 | only the proposer changes; the database key is unchanged |
| Capsule.ProposalCapsule.SetParameters | src/main/java/org/sonicx/core/capsule/ProposalCapsule.java:64-68 | the map is merged: its keys are the union, new keys take the new values, other keys keep their old values, nothing else changes |
| Capsule.ProposalCapsule.SetExpirationTime | src/main/java/org/sonicx/core/capsule/ProposalCapsule.java:74-78 | only the expiration time changes; the database key is unchanged |
| Capsule.ProposalCapsule.SetCreateTime | src/main/java/org/sonicx/core/capsule/ProposalCapsule.java:84-88 | only the creation time changes; the database key is unchanged |
| Capsule.ProposalCapsule.RemoveApproval | src/main/java/org/sonicx/core/capsule/ProposalCapsule.java:94-102 | only the approval list changes. If the address is present, the entry at one position holding it is removed and the rest keep their order. If it is absent, the proposal is unchanged |
| Capsule.RemoveFirst | src/main/java/org/sonicx/core/capsule/ProposalCapsule.java:97 | `List.remove`: an absent address leaves the list as it is; a present one makes it exactly one shorter |
| Capsule.RemoveFirstAt | src/main/java/org/sonicx/core/capsule/ProposalCapsule.java:97 | with `i` the first position of the address, removal deletes position `i` and keeps the rest in order |
| Capsule.RemoveFirstMultiset | src/main/java/org/sonicx/core/capsule/ProposalCapsule.java:97 | removal takes away one occurrence of the address and nothing else, so the result is a permutation of the rest |
| Capsule.ProposalCapsule.ClearApproval | src/main/java/org/sonicx/core/capsule/ProposalCapsule.java:104-106 | the approval list becomes empty and no other field changes |
| Capsule.ProposalCapsule.AddApproval | src/main/java/org/sonicx/core/capsule/ProposalCapsule.java:108-112 | the address is appended, duplicates kept, and no other field changes; for every witness list containing it, the active count rises by one |
| Capsule.ProposalCapsule.SetState | src/main/java/org/sonicx/core/capsule/ProposalCapsule.java:118-122 | only the state changes; the database key is unchanged |
| Capsule.ProposalCapsule.HasProcessed | src/main/java/org/sonicx/core/capsule/ProposalCapsule.java:124-127 | holds for an approved or disapproved proposal; a processed proposal is neither pending nor canceled |
| Capsule.ProposalCapsule.HasCanceled | src/main/java/org/sonicx/core/capsule/ProposalCapsule.java:129-131 | holds for a canceled proposal; a canceled proposal is never processed |
| Capsule.ProposalCapsule.HasExpired | src/main/java/org/sonicx/core/capsule/ProposalCapsule.java:133-135 | holds when the expiration time is at or before the given time; `ExpiryIsMonotone` states its meaning |
| Capsule.ProposalCapsule.CreateDbKey | src/main/java/org/sonicx/core/capsule/ProposalCapsule.java:138-140 | the key of the capsule's own id; `DbKeyDependsOnIdOnly` states that nothing else enters it |
| Capsule.CalculateDbKey | src/main/java/org/sonicx/core/capsule/ProposalCapsule.java:142-144 | the database key of a proposal number, kept abstract |
| Capsule.ProposalCapsule.HasMostApprovals | src/main/java/org/sonicx/core/capsule/ProposalCapsule.java:156-169 | the approval rule `MostApprovals` applied to the capsule's approval list |
| Capsule.ProcessedExcludesCanceled | src/main/java/org/sonicx/core/capsule/ProposalCapsule.java:124-131 | processed and canceled are never both true; neither holds exactly when the proposal is pending |
| Capsule.ExpiryIsMonotone | src/main/java/org/sonicx/core/capsule/ProposalCapsule.java:133-135 | a proposal is expired from its expiration time on, inclusive, and at no earlier time; once expired it stays expired |
| Capsule.DbKeyDependsOnIdOnly | src/main/java/org/sonicx/core/capsule/ProposalCapsule.java:138-144 | two capsules with the same id have the same database key, whatever their other fields |
| Capsule.ActiveApprovals | src/main/java/org/sonicx/core/capsule/ProposalCapsule.java:157-158 | the number of approval entries found among the witnesses never exceeds the number of entries |
| Capsule.ActiveApprovalsAppend | src/main/java/org/sonicx/core/capsule/ProposalCapsule.java:157-158 | appending an approval adds one to the count exactly when it is an active witness, even when it is already in the list |
| Capsule.AllApprovalsActive | src/main/java/org/sonicx/core/capsule/ProposalCapsule.java:157-163 | the count equals the number of approvals exactly when every approval is an active witness, which is the case in which no invalid approvals are logged |
| Capsule.ListSize | src/main/java/org/sonicx/core/capsule/ProposalCapsule.java:168 | `size()` of a list is a non-negative `int` and equals the element count when that fits |
| Capsule.WrapInt | src/main/java/org/sonicx/core/capsule/ProposalCapsule.java:168 | the product is a 32-bit `int`, and equal to the mathematical product when that fits |
| Capsule.JavaDiv | src/main/java/org/sonicx/core/capsule/ProposalCapsule.java:168 | Java's `int` division by a positive divisor, truncating toward zero |
| Capsule.ApprovalThreshold | src/main/java/org/sonicx/core/capsule/ProposalCapsule.java:168 | `size * 6 / 10` in `int` arithmetic; up to 357,913,941 witnesses it is the floor of six tenths of their number, with `0 <= 10t <= 6n < 10t + 10` |
| Capsule.ThresholdWrapsBeyondBound | src/main/java/org/sonicx/core/capsule/ProposalCapsule.java:168 | with 357,913,942 witnesses the `int` product wraps and the threshold is -214,748,364 |
| Capsule.MostApprovals | src/main/java/org/sonicx/core/capsule/ProposalCapsule.java:156-169 | the active count reaches the threshold. With no active witnesses every proposal passes. For realistic witness counts it holds exactly when ten times the active count plus ten exceeds six times the number of witnesses |
| Capsule.AddApprovalKeepsMost | src/main/java/org/sonicx/core/capsule/ProposalCapsule.java:156-169 | appending an approval never turns a passing proposal into a failing one; appending a non-witness changes nothing |
| Backup.Render | src/test/java/org/sonicx/core/db/backup/BackupDbUtilTest.java:84-91 | the property text of a marker reads back as that same marker |
| Backup.Parse | src/test/java/org/sonicx/core/db/backup/BackupDbUtilTest.java:84-91 | exactly the four texts "1", "11", "2", "22" read as a marker |
| Backup.ParseRender | src/test/java/org/sonicx/core/db/backup/BackupDbUtilTest.java:84-91 | only a marker's own text reads back as that marker, so the four texts are distinct |
| Backup.OtherTarget | src/test/java/org/sonicx/core/db/backup/BackupDbUtilTest.java:84-101 | the other backup directory is never the same one |
| Backup.Writing | src/test/java/org/sonicx/core/db/backup/BackupDbUtilTest.java:103-115 | an in-progress marker copies into the directory other than the one with the last completed copy |
| Backup.Begin | src/test/java/org/sonicx/core/db/backup/BackupDbUtilTest.java:103-115 | the marker written before copying, a step assumed from the meaning of "1" and "2", is in progress, still names the last completed directory, and never copies into it |
| Backup.Complete | src/test/java/org/sonicx/core/db/backup/BackupDbUtilTest.java:103-115 | finishing a copy leaves a completed marker naming the directory just copied |
| Backup.Step | src/test/java/org/sonicx/core/db/backup/BackupDbUtilTest.java:84-101 | after a backup the marker is completed, and names the other directory than before |
| Backup.IterateAlternates | src/test/java/org/sonicx/core/db/backup/BackupDbUtilTest.java:84-101 | from a completed marker, an even number of backups returns to it and an odd number gives the other completed value |
| Backup.IterateFromInProgress | src/test/java/org/sonicx/core/db/backup/BackupDbUtilTest.java:103-115 | from an in-progress marker the first backup completes its own directory, and alternation follows |
| Backup.Iterate | src/test/java/org/sonicx/core/db/backup/BackupDbUtilTest.java:84-115 | the marker after `k` successful backups; after at least one it is a completed value |
| Backup.Due | src/test/java/org/sonicx/core/db/backup/BackupDbUtilTest.java:63-66 | a backup is due at a height when backups are enabled and the height is a multiple of a positive frequency |
| Backup.DueCount | src/test/java/org/sonicx/core/db/backup/BackupDbUtilTest.java:63-66 | the number of due heights over `n` blocks is at most `n`, and zero when backups are disabled |
| Backup.DueCountIsQuotientDifference | src/test/java/org/sonicx/core/db/backup/BackupDbUtilTest.java:63-66 | over `n` blocks the number of backups is the number of multiples of the frequency passed |
| Backup.OneBackupPerCadence | src/test/java/org/sonicx/core/db/backup/BackupDbUtilTest.java:63-66 | from a multiple of the frequency, the next `frequency` blocks trigger exactly one backup |
| Backup.BackupDbUtil.constructor | src/test/java/org/sonicx/core/db/backup/BackupDbUtilTest.java:63-66 | the coordinator starts at height 0 with the configured switch, frequency and marker |
| Backup.BackupDbUtil.WriteMarker | src/test/java/org/sonicx/core/db/backup/BackupDbUtilTest.java:84-85 | overwriting the property sets the marker and leaves the height unchanged |
| Backup.BackupDbUtil.PushBlock | src/test/java/org/sonicx/core/db/backup/BackupDbUtilTest.java:86 | the height rises by one and a backup fires exactly at a due height. A successful backup advances the marker one step. A failed one, whose outcome is assumed rather than asserted by the test, leaves it in progress with the last good directory unchanged |
| Backup.BackupDbUtil.PushBlocks | src/test/java/org/sonicx/core/db/backup/BackupDbUtilTest.java:86 | after `n` blocks the height has risen by `n`, and the marker has advanced once per due height passed |
| Backup.PushCadence | src/test/java/org/sonicx/core/db/backup/BackupDbUtilTest.java:86-91 | one cadence from a multiple of the frequency advances the marker exactly one step, and reads back the new height and marker text |
| Backup.TestDoBackup | src/test/java/org/sonicx/core/db/backup/BackupDbUtilTest.java:83-116 | the five cadences of the test read heights 50, 100, 150, 200, 250 and markers "22", "11", "22", "11", "22" |
| KeystoreFactory.PriKeyValidExactly | src/main/java/org/sonicx/program/KeystoreFactory.java:25-36 | the three rejections of the validator: a missing key, an empty key, and a key whose length is not 64 |
| KeystoreFactory.PriKeyValid | src/main/java/org/sonicx/program/KeystoreFactory.java:25-36 | a key is valid exactly when it is present and 64 characters long |
| KeystoreFactory.TrimStart | src/main/java/org/sonicx/program/KeystoreFactory.java:130 | dropping the leading characters at or below U+0020 never lengthens the line |
| KeystoreFactory.TrimEnd | src/main/java/org/sonicx/program/KeystoreFactory.java:130 | dropping the trailing characters at or below U+0020 never lengthens the line |
| KeystoreFactory.TrimStartFacts | src/main/java/org/sonicx/program/KeystoreFactory.java:130 | the result is a suffix of the line, everything dropped is at or below U+0020, and a non-empty result starts above it |
| KeystoreFactory.TrimEndFacts | src/main/java/org/sonicx/program/KeystoreFactory.java:130 | the result is a prefix of the line, everything dropped is at or below U+0020, and a non-empty result ends above it |
| KeystoreFactory.Trim | src/main/java/org/sonicx/program/KeystoreFactory.java:130 | `trim` gives an empty line exactly when every character is at or below U+0020. Otherwise both ends of the result are above it, and a line already like that is returned as it is |
| KeystoreFactory.FirstToken | src/main/java/org/sonicx/program/KeystoreFactory.java:131-133 | the first `\s+`-separated token is never longer than the string |
| KeystoreFactory.FirstTokenFacts | src/main/java/org/sonicx/program/KeystoreFactory.java:131-133 | the first token is a prefix of the string free of `\s`, ended by the first `\s` or by the end of the string |
| KeystoreFactory.TokenWithoutSpace | src/main/java/org/sonicx/program/KeystoreFactory.java:131-133 | a string without `\s` is its own first token |
| KeystoreFactory.FirstWord | src/main/java/org/sonicx/program/KeystoreFactory.java:130-133 | the first word of a line is empty exactly when the line is blank, and otherwise starts with a character above U+0020 |
| KeystoreFactory.Lower | src/main/java/org/sonicx/program/KeystoreFactory.java:137 | lower-casing keeps the length |
| KeystoreFactory.LowerChar | src/main/java/org/sonicx/program/KeystoreFactory.java:137 | only ASCII capitals and U+212A KELVIN SIGN change, each to an ASCII lower-case letter; an ASCII capital moves down by 32 |
| KeystoreFactory.LowerCharKeepsClass | src/main/java/org/sonicx/program/KeystoreFactory.java:137 | lower-casing never moves a character into or out of the trimmed set or `\s` |
| KeystoreFactory.LowerTrimStart | src/main/java/org/sonicx/program/KeystoreFactory.java:130-137 | lower-casing and dropping leading blanks commute |
| KeystoreFactory.LowerTrimEnd | src/main/java/org/sonicx/program/KeystoreFactory.java:130-137 | lower-casing and dropping trailing blanks commute |
| KeystoreFactory.LowerFirstToken | src/main/java/org/sonicx/program/KeystoreFactory.java:131-137 | lower-casing and taking the first token commute |
| KeystoreFactory.LowerFirstWord | src/main/java/org/sonicx/program/KeystoreFactory.java:130-137 | lower-casing a line and taking its first word commute |
| KeystoreFactory.Keyword | src/main/java/org/sonicx/program/KeystoreFactory.java:139-165 | the switch selects exit for exactly "exit" and "quit", and never yields a blank or unknown command |
| KeystoreFactory.Classify | src/main/java/org/sonicx/program/KeystoreFactory.java:130-165 | a line is skipped exactly when all its characters are at or below U+0020; an unknown command is reported as typed, as the non-empty first word |
| KeystoreFactory.KelvinSignSelectsGenKeyPair | src/main/java/org/sonicx/program/KeystoreFactory.java:137-155 | the line `gen` U+212A `eypair` lower-cases to "genkeypair" and selects that command |
| KeystoreFactory.CaseInsensitive | src/main/java/org/sonicx/program/KeystoreFactory.java:137-165 | two lines equal up to case select the same command, and an unknown word stays unknown |
| KeystoreFactory.ReadLine | src/main/java/org/sonicx/program/KeystoreFactory.java:130-136 | a read line has an empty first word exactly when it selects no command |
| KeystoreFactory.FindKey | src/main/java/org/sonicx/program/KeystoreFactory.java:82-89 | the answer is a line whose first word is a valid key, and every line before it has an invalid first word; when there is no answer, no line has a valid one |
| KeystoreFactory.ReadPrivateKey | src/main/java/org/sonicx/program/KeystoreFactory.java:82-89 | the retry loop stops at the first line whose first word is a valid key, and reports none when the input runs out |
| KeystoreFactory.Respond | src/main/java/org/sonicx/program/KeystoreFactory.java:130-169 | one pass reads at least one line and no more than the input. It returns exactly on exit or quit, having read just that line |
| KeystoreFactory.Dispatch | src/main/java/org/sonicx/program/KeystoreFactory.java:128-170 | the loop reads no more than the input, and reads all of it unless it returned |
| KeystoreFactory.StopsOnlyOnExit | src/main/java/org/sonicx/program/KeystoreFactory.java:156-161 | when the loop returns, the last line it read selects exit or quit |
| KeystoreFactory.NoExitReadsAll | src/main/java/org/sonicx/program/KeystoreFactory.java:128-170 | without an exit or quit line, the loop reads the whole input and does not return early |
| KeystoreFactory.ImportedKeysValid | src/main/java/org/sonicx/program/KeystoreFactory.java:82-89 | every key the loop imports passed the validator and is 64 characters long |
| KeystoreFactory.RunTurn | src/main/java/org/sonicx/program/KeystoreFactory.java:130-169 | one pass of `run`'s loop body on a raw line does what `Respond` specifies |
| KeystoreFactory.Run | src/main/java/org/sonicx/program/KeystoreFactory.java:125-171 | `run` prints the help, then behaves as the command loop over the read lines |

## Left out

- Protocol buffer parsing and serialisation of the proposal (`ProposalCapsule(byte[])`, `getData`) are not modelled. The plain getters are not modelled either; they read a field.
- `CalculateDbKey`: the key is the abstract value `DbKey(number)`. The byte layout of `ByteArray.fromLong` is not part of this model.
- Logging in `hasMostApprovals` is not modelled. It does not affect the result.
- `SetParameters`: a `null` value in the map would make `putAllParameters` throw. A Dafny map has no `null` values, so that path does not arise.
- `State`: the protocol buffer enum's `UNRECOGNIZED` value is not modelled.
- `MostApprovals`: the exact six-tenths rule is stated only up to 357,913,941 witnesses. Beyond that the Java product wraps, as `ThresholdWrapsBeyondBound` shows.
- `BackupDbUtil`: the class's source is not part of this model. The unit test fixes only five successful cadences and their completed markers.
- `Begin`: writing the in-progress marker before the copy starts is assumed from the meaning of "1" and "2", not taken from any source line.
- `BackupDbUtil.PushBlock`: the outcome of a failed copy is also assumed from the meaning of "1" and "2": the in-progress marker stays, so the next backup retries that directory.
- `BackupDbUtil`: the model's class merges the chain height from the node's dynamic properties store with the marker from the property file into one object.
- Backup I/O is not modelled: copying the database directories and the property file. A copy's failure is the `mirrorOk` parameter of `PushBlock`.
- `Due`: a disabled switch and a frequency that is not positive are taken as never due; the test does not say what `BackupDbUtil` does then. Property text that is not one of the four markers is not modelled.
- `BackupDbUtil.PushBlocks` assumes every backup succeeds, as in the test.
- Key generation and the keystore file are not modelled: ECKey generation, `WalletUtils` encryption, password prompts, directory creation and the text printed. They appear only as `Effect` values.
- Password prompts in `genKeystore` and `importPrivatekey` are taken not to consume input lines, so a `genkeystore` command reads just its own line.
- `KeystoreFactory`: `run` and `importPrivatekey` each open their own `Scanner` on standard input. The model treats them as reading one shared stream of lines, ignoring any read-ahead buffering.
- `Lower`, `LowerChar`: change only the ASCII capitals and U+212A KELVIN SIGN, which is the one other character whose single-character lower case is an ASCII letter. Every other character that `String.toLowerCase` maps, such as `É` or `İ`, is kept as it is, so the model's lower-cased word can differ from Java's. Such a character lower-cases in Java to a non-ASCII character or to more than one character, so it can never complete a keyword, and the command selected is the same. Locale rules are not modelled: under a Turkish locale `I` lower-cases to a dotless `ı`, so `IMPORTPRIVATEKEY` there is an unknown command, while the model selects the import.
- `PriKeyValid`, `PriKeyValidExactly`: count characters rather than UTF-16 code units. A key holding characters outside the Basic Multilingual Plane has a larger Java length, so 63 letters followed by one such character pass here, while `priKeyValid` rejects them. `FindKey` and `ReadPrivateKey` then stop at a line where `importPrivatekey`'s retry loop reads on.
- `genKeystore`, `genKeyPair` and `importPrivatekey` can throw on I/O or cipher errors. `importPrivatekey` throws after its key loop, while writing the keystore file. `run` catches every such exception, and the loop goes on with the next line. The model does not tell these failures apart: `ImportKey(key)` records an import attempted with a valid key, not one that was written.
- Out of scope: the snapshot store, LevelDB, the block builder, the block message decoder, the HTTP servlet, and the virtual-machine and node integration tests.
