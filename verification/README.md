# Verified models of the hard parts of an end-to-end encrypted chat

The repository is a chat server written in Rust with a browser client written in
JavaScript. This project models the parts of it that carry state or arithmetic
worth proving, and proves what they promise over every input and every run. Each
method body follows the branches, constants and edge cases of the code it cites.

| file | what it models |
|---|---|
| `StorageFormats.dfy`, `StorageModel.dfy` | the three encrypted formats in local storage, and every operation of the secure storage layer as a function on the storage, the cached keys and the ready flags |
| `StorageSafety.dfy`, `StorageLiveness.dfy` | whole runs of page loads, ready events, reads, writes, rekeys, logins, stored passwords, password changes and wipes |
| `StorageStart.dfy` | asking for the key, and what a start-up makes of every entry of any storage |
| `StorageKeys.dfy`, `StorageChanges.dfy`, `StorageWipes.dfy` | which key rules, and what a login, a changed password and a wipe make of it |
| `StorageRewriting.dfy` | the rekey and the format upgrade on arbitrary storage |
| `SecureStorage.dfy` | the same layer as the page runs it: a class whose loops rewrite the storage in place |
| `StorageExample.dfy`, `StorageFailure.dfy` | functions that meet all the assumed laws of the browser and of libsodium at once, and a run over them that loses the session token |
| `RelayRing.dfy`, `RelayProcessors.dfy` | the lock-free sample ring shared by two threads, step by step; the two audio worklets with their slew limiter and fades |
| `RoleTiers.dfy`, `RoleDrop.dfy`, `RoleMove.dfy`, `RolePage.dfy` | role ranks: grouping into tiers, drag and drop, arrow buttons, renumbering, and what the server does with the result |
| `SearchIndex.dfy` | the blind search index and the query tokens |
| `Hkdf.dfy`, `WebPush.dfy` | the two expand loops; the push record and its receiver |
| `FileChunks.dfy`, `ServerKeys.dfy` | chunked file encryption; the history of server keys |
| `Soundboard.dfy` | the play epochs of the soundboard |
| `PdfEditor.dfy` | the page list and undo history of the PDF editor |
| `EnvFile.dfy` | looking up and adding settings in the server's `.env` file |

Cryptographic primitives, text encoding and base64 are functions about which only
their usual laws are assumed: what is sealed under a key opens under that key, and
under no other where that is needed; key agreement is symmetric; encodings decode.
Randomness, fetched data, dialog answers and the permission checks that depend on
the server are parameters of the operations.

## What turned out not to hold

In each case the code is modelled as it is, with the exact condition under which it
does what it promises.

- A block that exactly fills the relay ring makes it look empty, because the room
  check lets it through. With whole blocks this can happen if and only if the block
  size divides the ring length (`RelayRing.FullLooksEmpty`,
  `RelayRing.ExactFillReachableIff`).
- Flushing a speaker's ring races with the playback worklet: the ring looks empty
  afterwards if and only if no sample was taken between the flush's load and the end of
  the frame in progress; otherwise the rest of a lap looks unread
  (`RelayRing.FlushEmptiesIff`, `RelayRing.FlushDuringDrain`).
- A drop of a whole tier onto itself merges it with the next weaker one; it and a
  drop out of the caller's reach are the only drops that do not land as requested
  (`RoleDrop.DropIsIntendedIff`).
- An arrow and its opposite do not cancel for a role that is alone in the tier at the
  edge it is first moved towards, unless it is the only tier (`RoleMove.OppositeArrowsIff`).
- For a caller who is not the owner, the weakest renumbered position drops below 1
  when there are more managed tiers than ranks below the caller
  (`RoleRenumbering.NonOwnerBudget`).
- A page that is asked for a changed password stores it without a rekey. From the
  next load on a stored value reads as null, unless the password derives the old key
  or the value was plain and is not first hidden under the cached old key
  (`StorageChanges.StoredPasswordKeepsEntryIff`, and as a run from the empty browser
  `StorageFailure.TokenIsLost`). A rekey before that load saves everything
  (`StorageChanges.RekeyInTimeKeepsAll`).
- The login page's wipe re-writes the media caches under a key that only the memory
  of the page holds. A cache survives the wipe if and only if it could be read just
  before, which a v2 value cannot while libsodium is missing
  (`StorageWipes.WipeKeepsMediaIff`). A login then saves all of them
  (`StorageWipes.LoginAfterWipeKeepsAll`); if the page is loaded again first, they
  read as null, unless they were written plain or the key then drawn is the lost one
  (`StorageWipes.ReloadAfterWipeKeepsIff`).
- A bootstrap entry in the current format is removed, not decrypted, by a start-up
  that finds libsodium missing or another key (`StorageStart.SealedBootstrapIff`).
- Changing the password seals nothing, because the key in memory is already null
  when the collected texts are to be written: a stored value survives only a new
  password that derives the old key (`StorageChanges.PasswordChangeKeepsEntryIff`).
- A value that starts with a byte order mark does not survive being encrypted, as
  the text decoder drops the mark (`StorageFormats.OwnKeyOpens`,
  `StorageRewriting.ReKeyPreserves`).
- The words `constructor` and `__proto__` are never indexed or searched for
  (`SearchIndex.HiddenWordIsNotFound`).
- A generated setting is lost when the `.env` file ends in an unfinished line that
  is not blank (`EnvFile.GeneratedKeyIsFoundIff`). All other settings stay as they are
  if and only if that line, once completed, sets the generated name or one that an
  earlier line sets already (`EnvFile.OtherSettingsUnchangedIff`).
- An `.env` file that is not UTF-8 is replaced by the one generated setting, and its
  others are lost (`EnvFile.LoadOrGenerateKey`, `EnvFile.ReplacedFileHoldsOneSetting`).
- A server's keys are those saved in every run if and only if no id is `history_`
  followed by another one (`ServerKeys.KeysAreKeptIff`); removing a server with such an
  id loses the other one's history (`ServerKeys.CollidingIdsLoseHistory`). The ids that
  this repository's server draws are UUIDs (`server/src/db.rs:2048`), so only a server
  that chooses its ids can send one.
- A push payload above 4078 octets outgrows the record size it announces
  (`WebPush.ReceiverRecoversPayloadIff`); the server's expand loop overflows its
  counter on the 255th block (`Hkdf.ServerExpand`).
- Leaving a call clears all sounds but lets a play of another user that is still in
  flight start afterwards (`SoundboardModel.LeavingSparesOthersInFlight`).

Where a comment and the code disagree the code is followed: the header of
`static/secure-storage.js` speaks of an 8-character tag, the code writes 16; the
comment on the capture ring says a full ring drops the block, the check keeps one
that fits exactly.

## Model

| member | source | states |
|---|---|---|
| StorageSafety.ReadsNeverLie | static/secure-storage.js:498-633 | after any run of loads, ready events, rekeys, logins, stored passwords, password changes, wipes, reads and writes, whatever keys were lost or replaced, reading an entry gives its last written value or null; a non-sensitive entry exactly its last value |
| StorageSafety.RunKeeps | static/secure-storage.js:498-939 | over every run, blobs stored without a rekey, password changes and wipes included, each stored entry is the last written value itself or an encryption of it under some key of the run |
| StorageSafety.StepKeeps | static/secure-storage.js:498-939 | every single event keeps that invariant |
| StorageSafety.ReadsAreSafe | static/secure-storage.js:604-619 | in any state of the invariant a read gives the last written value or null |
| StorageSafety.EnsureKeyChoices | static/secure-storage.js:498-589 | the key chosen is the derived one when nothing is cached and it can be derived, a fresh random one only without any cached key or password bootstrap, else the cached one; what each choice does to storage |
| StorageSafety.EnsureKeyKeeps | static/secure-storage.js:498-589 | choosing a key changes no entry but the stored random key |
| StorageSafety.OpensOrNot | static/secure-storage.js:336-379 | a hidden value opens to itself or not at all, whichever key of the run is tried, and never throws |
| StorageSafety.OpensUnderOwn | static/secure-storage.js:336-379 | every hidden value opens under its own key |
| StorageSafety.StoredHolds | static/secure-storage.js:621-633 | what a write stores is the value, or hides it under the current key, or is the tag of the empty value |
| StorageSafety.SetKeeps | static/secure-storage.js:621-633 | a write keeps the invariant and updates the log |
| StorageSafety.SecInitKeeps | static/secure-storage.js:652-715 | starting up, with its migration, keeps every entry's value in these runs, where no bootstrap entry is encrypted |
| StorageStart.StartLeaves | static/secure-storage.js:652-715 | every entry after a start-up of any storage: an encrypted bootstrap entry is what it shows under the key then at hand, or gone; a plain secret is encrypted under the key at hand; all else but the random key is as it was |
| StorageStart.TaggedBootstrapIff | static/secure-storage.js:668-683 | a bootstrap entry that an old version encrypted comes back if and only if there is a key at hand that passes its tag, its own one for example; else it is removed |
| StorageStart.SealedBootstrapIff | static/secure-storage.js:668-683 | one in the current format comes back if and only if libsodium is there and the key at hand is its own; else it is removed |
| StorageStart.RestoredBlobDerives | static/secure-storage.js:229-273 | when the blob and the device key come back, a later derivation finds the key of their password |
| StorageStart.EncryptedBlobDerives | static/secure-storage.js:244-250 | a blob still encrypted under the key at hand already derives that key |
| StorageStart.MalformedBlobDerivesNothing | static/secure-storage.js:252-255 | a blob that is not two parts of ten characters or more around one colon derives nothing |
| StorageStart.StartLeavesNothingPlain | static/secure-storage.js:693-709 | with a key at hand no secret is left plain |
| StorageStart.StartsOnce | static/secure-storage.js:652-658 | a second start-up of the same page changes nothing |
| StorageStart.ReadyHandlerSeals | static/secure-storage.js:747-757 | after the ready handler, with a key and no invalid entry, whatever the key can read is in the current format, and on a page that starts up only then nothing is plain |
| StorageStart.RedriveReplaces | static/secure-storage.js:865-875 | a successful derivation replaces both caches, drops the random key and is no longer wanted; a failed one changes nothing |
| StorageStart.ReadsAgree | static/secure-storage.js:604-619 | a read asks for the key once and for all: the next read of the entry gives the same |
| StorageStart.InvalidComesBack | static/secure-storage.js:604-619 | a legacy value with invalid base64 text comes back as it is stored |
| StorageStart.SessionKeyOpens | static/secure-storage.js:498-589 | the key cached for the tab opens its values, whatever random key is in storage |
| StorageStart.NewTabForgets | static/secure-storage.js:498-589 | a page in a new tab depends on what is in storage alone |
| StorageStart.SameTabRemembers | static/secure-storage.js:498-589 | a page in the same tab goes on with the session's key where no password decides |
| StorageSafety.RedriveKeeps | static/secure-storage.js:865-875 | deriving the key again keeps every entry |
| StorageSafety.UpgradeKeeps | static/secure-storage.js:721-739 | in these runs the upgrade never throws, and keeps every entry's value |
| StorageSafety.SodiumCallbackKeeps | static/secure-storage.js:747-757 | the ready handler keeps every entry's value |
| StorageSafety.ReKeyKeeps | static/secure-storage.js:877-939 | the rekey keeps every entry's value |
| StorageSafety.LoginKeeps | static/auth.js:350-366 | the part of a login that writes the password blob and rekeys keeps every entry's value, but for the old plain password, which it removes |
| StorageSafety.WithBlobKeeps | static/chat.js:31962-31967 | storing a password without a rekey keeps every entry as it is |
| StorageSafety.WipeKeeps | static/auth.js:37-107 | the login page's wipe leaves only entries whose last written value they hide or show |
| StorageSafety.ClearAllKeeps | static/secure-storage.js:774-798 | clearing all secrets drops exactly them, and the cached keys, and touches no key material in storage |
| StorageSafety.ClearDataKeeps | static/chat.js:6169-6187 | clearing all data keeps the preferences as they are, and nothing secret or internal |
| StorageSafety.PasswordChangeKeeps | static/secure-storage.js:949-997 | a password change keeps every entry as it is |
| StorageLiveness.NothingIsOrphaned | static/secure-storage.js:498-589 | from an empty browser, over every run in the order of the pages' scripts, with logins under any passwords and with wipes, whenever libsodium is ready every entry reads as its last written value; a blob that no rekey follows must wrap the password that already rules, and what a wipe has spared must see a login before its key is dropped |
| StorageLiveness.RunHasOneKey | static/secure-storage.js:498-939 | over such runs everything encrypted is under one key, that is the key the code will choose, and it is at hand or wanted whenever the next event needs it |
| StorageLiveness.StepFits | static/secure-storage.js:498-589 | in page order every event leaves the key of the blob at hand once libsodium is ready, and wanted until then |
| StorageKeys.StepKeepsKey | static/secure-storage.js:498-939 | no event changes which key rules, but for a login, a stored blob, a password change, a wipe, and one that drops a key to which nothing in storage leads |
| StorageKeys.ReadsLastWrittenIff | static/secure-storage.js:604-619 | then an entry reads back if and only if it is plain, or the key can be had and its format opened at this moment; otherwise the read is null |
| StorageKeys.LoginWithBlob | static/secure-storage.js:877-939 | a timely login moves everything to the key of the new password |
| StorageKeys.LoginKeepsEntryIff | static/secure-storage.js:877-939 | after a login a v2 or plain entry reads back if and only if the key was at hand, or the new password derives the same key, or the entry was plain |
| StorageKeys.LoginTakesHold | static/auth.js:350-366 | with both libraries a login ends with the key of its password, cached and derivable, and with no random key |
| StorageWipes.WipeKeepsMediaIff | static/auth.js:37-107 | a media cache reads as its last written value after the wipe if and only if it was plain, or the key could be had and its format opened just before; otherwise it reads as null |
| StorageWipes.WipeHasOneKey | static/auth.js:37-107 | after the wipe everything encrypted is under the one key in memory, and no key material is in storage |
| StorageWipes.WipeLeaves | static/auth.js:75-106 | the preferences come through the wipe as they were, and nothing else but the media caches comes through at all |
| StorageWipes.ClearDataLeaves | static/chat.js:6169-6187 | clearing all data leaves exactly the preferences |
| StorageWipes.ClearAllLeaves | static/secure-storage.js:774-798 | clearing the secrets leaves exactly the other entries and no cached key |
| StorageWipes.LoginAfterWipeKeepsAll | static/auth.js:350-366 | a login that follows the wipe moves all that was spared to the key of its password |
| StorageWipes.ReloadAfterWipeKeepsIff | static/secure-storage.js:498-589 | when the page is loaded again before a login, a spared entry reads back if and only if it was spared plain or the key then drawn is the old one; otherwise it reads as null |
| StorageChanges.StoredPasswordKeepsEntryIff | static/chat.js:31962-31967 | after a blob is stored without a rekey and the page has loaded again, a v2 entry reads back if and only if the password derives the old key, and a plain one if and only if the load did not first hide it under the cached old key, or the new key passes its tag; otherwise the read is null |
| StorageChanges.RekeyInTimeKeepsAll | static/chat.js:13256-13284 | when nothing but reads and writes comes between storing the blob and the rekey, everything moves to the new key |
| StorageFailure.TokenIsLost | static/chat.js:32041-32046 | a run from the empty browser: load, login, token written, changed password stored, load; the token reads as null |
| StorageChanges.PasswordChangeKeepsEntryIff | static/secure-storage.js:949-997 | after a password change a v2 or plain entry reads back if and only if the new password derives the old key or the entry was plain |
| StorageChanges.PasswordChangeTakesHold | static/secure-storage.js:949-997 | with both libraries and a device key the blob derives the new key and every other key is dropped; without them nothing changes |
| StorageFormats.FormatsAreDisjoint | static/secure-storage.js:139-150 | for all keys, nonces and texts, a v2, a tagged and a bare value are each recognised as what they are and as nothing else |
| StorageFormats.OwnKeyOpens | static/secure-storage.js:308-379 | all three formats open under the key that wrote them, up to a leading byte order mark, which defeats the tag |
| StorageFormats.V2Opens | static/secure-storage.js:139-150 | a v2 value opens under exactly the key that sealed it |
| StorageFormats.TaggedOpens | static/secure-storage.js:349-379 | a tagged value opens to what its bytes give under the key tried, if and only if the tags agree |
| StorageFormats.XorTwice | static/secure-storage.js:308-317 | the XOR cipher undoes itself |
| StorageFormats.XorShowsKey | static/secure-storage.js:308-317 | text and result give the key's bytes back |
| StorageFormats.KeysHideDifferently | static/secure-storage.js:308-317 | a text of 32 bytes or more is hidden alike by equal keys only |
| StorageRewriting.ReKeyPreserves | static/secure-storage.js:877-939 | on any storage: a failed rekey leaves it as it was; a successful one keeps the text of each readable secret if and only if it has no leading byte order mark, leaves unreadable ones and all else byte for byte, and drops the stored random key |
| StorageRewriting.UpgradePreservesView | static/secure-storage.js:721-739 | on any storage and in any listing order, the upgrade keeps the text each secret shows unless it rewrites one with a leading byte order mark, leaves unreadable secrets and other entries alone, and if not stopped by an invalid entry leaves no readable legacy value |
| StorageRewriting.SecondUpgradeIsIdle | static/secure-storage.js:721-739 | a second upgrade changes nothing, whatever the first one met |
| StorageRewriting.UpgradeReports | static/secure-storage.js:721-739 | the upgrade reports a change if and only if there is one |
| SecureStorage.XorBytes | static/secure-storage.js:310-314 | the loop computes the XOR with the repeated key |
| SecureStorage.DecryptWithKey | static/secure-storage.js:349-379 | reads a tagged or bare value as specified, with its three outcomes: text, null, thrown |
| SecureStorage.DecryptInnerWithKey | static/secure-storage.js:336-340 | reads any format as specified |
| StorageStart.AskingTwice | static/secure-storage.js:498-589 | once asked for, the key is cached or there is none, and asking again changes nothing |
| SecureStorage.SecureStorage.constructor | static/secure-storage.js:833 | a page load starts from the saved storage and initialises it |
| SecureStorage.SecureStorage.Derive | static/secure-storage.js:229-273 | derives the key from the password blob, decrypting the blob first if an old version encrypted it |
| SecureStorage.SecureStorage.Ensure | static/secure-storage.js:498-589 | the key and the whole state after asking for it |
| SecureStorage.SecureStorage.Encrypt | static/secure-storage.js:308-327 | v2 once libsodium is ready, tagged XOR before; throws without a key unless there is nothing to encrypt |
| SecureStorage.SecureStorage.GetItem | static/secure-storage.js:604-619 | the intercepted read: value returned and state after |
| SecureStorage.SecureStorage.SetItem | static/secure-storage.js:621-633 | the intercepted write, with its fallback to plain text |
| SecureStorage.SecureStorage.Init | static/secure-storage.js:652-715 | key, repair of bootstrap values, migration; once per page load |
| SecureStorage.SecureStorage.RepairItem | static/secure-storage.js:674-683 | an encrypted bootstrap value is decrypted, or removed if that fails |
| SecureStorage.SecureStorage.MigrateItems | static/secure-storage.js:693-709 | every plain secret is encrypted, in one loop over the entries |
| SecureStorage.SecureStorage.Redrive | static/secure-storage.js:865-875 | a successful derivation replaces the caches and drops the random key |
| SecureStorage.SecureStorage.Upgrade | static/secure-storage.js:721-739 | the loop re-encrypts the readable legacy values in listing order, stops at an invalid one, and reports whether it changed anything |
| SecureStorage.SecureStorage.AfterSodium | static/secure-storage.js:747-757 | what runs once libsodium is ready; an upgrade that throws skips the start-up |
| SecureStorage.SecureStorage.Rekey | static/secure-storage.js:877-939 | the rekey: false and only the caches cleared when no key derives, else all readable secrets rewritten |
| SecureStorage.SecureStorage.CompleteLogin | static/auth.js:350-366 | device key, password blob, removal of the plain password, rekey |
| SecureStorage.SecureStorage.ChangePassword | static/secure-storage.js:949-997 | the blob is replaced, the caches are dropped, and no text is written |
| SecureStorage.SecureStorage.SecGet | static/secure-storage.js:805-812 | the direct read: text, or null when it cannot be read, and the state after |
| SecureStorage.SecureStorage.ClearSecrets | static/secure-storage.js:774-798 | all secrets are removed, and both cached keys |
| SecureStorage.SecureStorage.WipeClientData | static/auth.js:37-107 | the three loops leave exactly the state of the wipe |
| RelayRing.Fifo | static/relay-capture-processor.js:43-66 | for both rings, with and without a prebuffer, over every interleaving of producer and consumer steps in which no block exactly fills the ring, the samples delivered are exactly the accepted ones, in order, and none unread is overwritten |
| RelayRing.FrameIsDeliveredIff | static/relay-audio-processor.js:97-120 | a waiting consumer gets a frame if and only if that many samples are unread and playback has started or finds its prebuffer; it is exactly the next samples |
| RelayRing.BlockIsAcceptedIff | static/relay-capture-processor.js:50-63 | a resting producer's block is accepted, whole, if and only if it is no longer than the free room |
| RelayRing.RunKeepsInv | static/relay-audio-processor.js:97-120 | over such interleavings positions, unread samples and partial copies stay consistent |
| RelayRing.StepKeepsInv | static/relay-audio-processor.js:97-120 | one access to shared memory keeps that invariant unless it publishes an exact fill |
| RelayRing.CopyInSparesUnread | static/relay-capture-processor.js:60-62 | a sample copied in never lands on a slot still to be read |
| RelayRing.FullLooksEmpty | static/relay-capture-processor.js:55-63 | after publishing, the positions tell the true number of unread samples if and only if the block did not exactly fill the ring, which then looks empty |
| RelayRing.WholeBlocksNeverFill | static/relay-capture-processor.js:50-58 | with whole blocks on both sides and a ring length that is no multiple of them, no run fills the ring exactly |
| RelayRing.ExactFillReachableIff | static/relay-capture-processor.js:50-58 | an exact fill is reachable with whole blocks if and only if the block size divides the ring length |
| RelayRing.FlushEmptiesIff | static/voice.js:10140-10151 | after a flush, when the consumer has finished what it had begun, the ring looks empty if and only if no sample was taken since the flush loaded the read position; otherwise the rest of a lap looks unread |
| RelayRing.FlushDuringDrain | static/voice.js:10140-10151 | a frame that is being copied when the flush stores leaves exactly that |
| RingArithmetic.WrapDistance | static/relay-audio-processor.js:98-101 | the distance computed from wrapped positions is the true one unless it is a whole lap |
| SlewLimiter.OutputNeverJumps | static/relay-audio-processor.js:97-161 | over every run of frames on the shared path, start-up silence and underruns included, consecutive output samples differ by at most 0.05 |
| SlewLimiter.OutputStaysInHull | static/relay-audio-processor.js:97-161 | the output never leaves the range of zero and the inputs |
| SlewLimiter.LimitIdentityIff | static/relay-audio-processor.js:127-137 | a frame passes unchanged if and only if it keeps within the bound from the previous tail |
| SlewLimiter.LimitSteps | static/relay-audio-processor.js:127-137 | a limited frame keeps within the bound from the previous tail on |
| SlewLimiter.LimitHull | static/relay-audio-processor.js:127-137 | limiting stays between the lowest and the highest of tail and samples |
| SlewLimiter.LimitFollows | static/relay-audio-processor.js:127-137 | every limited sample is the closest to its input among all within 0.05 of the sample before it |
| SlewLimiter.HeldLevelIsReached | static/relay-audio-processor.js:127-137 | so a level that is held is reached as soon as steps of 0.05 cover the distance |
| SlewLimiter.PlaysWhatArrives | static/relay-audio-processor.js:97-161 | while every call finds a frame, and the first one 4800 samples, the output is what arrived, limited as one piece |
| SlewLimiter.SilentUntilStocked | static/relay-audio-processor.js:104-110 | until a call finds 4800 samples there is silence |
| SlewLimiter.NoPops | static/relay-audio-processor.js:151-156 | a limited frame never counts a pop |
| RelayProcessors.SampleRing.Write | static/relay-capture-processor.js:52-63 | a block is dropped when it does not fit, makes the ring look empty when it fits exactly, and is appended otherwise |
| RelayProcessors.SampleRing.Read | static/relay-audio-processor.js:117-120 | a frame takes the oldest samples and leaves the rest |
| RelayProcessors.RelayCaptureProcessor.Process | static/relay-capture-processor.js:43-66 | one capture call: what is kept, dropped or ignored |
| RelayProcessors.RelayAudioProcessor.OnSamples | static/relay-audio-processor.js:64-74 | samples posted to the in-object ring, ignored once the shared one is in use |
| RelayProcessors.RelayAudioProcessor.LimitInPlace | static/relay-audio-processor.js:127-137 | the in-place loop computes the limiter's function: every sample goes as close to its input as a step of 0.05 allows |
| SlewLimiter.MeasuredCounts | static/relay-audio-processor.js:142-157 | the counters count the samples, those above 0.001, and the jumps above 0.06 within a frame |
| SlewLimiter.MeasuredEnergy | static/relay-audio-processor.js:146-149 | the sum of squares is the energy of the samples above 0.001 |
| SlewLimiter.MeasuredMaxima | static/relay-audio-processor.js:150-155 | the two maxima bound every sample and every jump, and are values that occurred |
| SlewLimiter.LimitedIsSmooth | static/relay-audio-processor.js:127-157 | a limited frame adds no pop and no jump above 0.05 |
| RelayProcessors.RelayAudioProcessor.TrackQuality | static/relay-audio-processor.js:142-157 | the loop computes these statistics |
| RelayProcessors.RelayAudioProcessor.ProcessShared | static/relay-audio-processor.js:97-161 | silence below 4800 samples before start, the repeated tail on an underrun, else a frame that follows the oldest samples in steps of at most 0.05; samples consumed and state after |
| RelayProcessors.RelayAudioProcessor.ProcessFallback | static/relay-audio-processor.js:163-221 | silence, fade out, fade in or plain frame on the in-object ring, and the state after |
| RelayProcessors.RelayAudioProcessor.Process | static/relay-audio-processor.js:87-95 | which path a call takes, and that a stopped worklet does nothing |
| RelayProcessors.FadesAttenuate | static/relay-audio-processor.js:175-200 | fades only attenuate; a fade out ends in silence, a fade in on the frame's own last sample |
| RelayProcessors.EaseIsSmooth | static/relay-audio-processor.js:175-200 | the gain of the fades rises, is its own mirror image, and starts and ends flat |
| RelayProcessors.FadesCross | static/relay-audio-processor.js:175-200 | on a steady level, fade in and fade out add up to the level |
| RelayProcessors.FadeInHalfWay | static/relay-audio-processor.js:195-200 | half-way through a frame a fade in has reached half the level |
| RoleDrop.DropIsIntendedIff | static/roles.js:253-298 | renumbered, stored by the server and regrouped, a drop of manageable roles with room to renumber yields exactly the requested ordered partition if and only if its place is within reach and it is not a join onto the tier it empties |
| RoleDrop.RealisedDropIsIntended | static/roles.js:253-298 | one half: the others keep their order, the moved roles share one rank, and that rank is the requested one |
| RoleDrop.UnrealisedDropIsNot | static/roles.js:281-296 | the other half, by a role that ends up on the wrong side |
| RoleDrop.JoinOntoEmptied | static/roles.js:285-293 | a join onto the emptied tier merges with the next weaker one |
| RoleDrop.UnmanageableUntouched | static/roles.js:199-223 | roles the caller cannot manage keep their positions |
| RoleDrop.ResultIsLayout | static/roles.js:283-296 | the rearranged list holds every ranked role exactly once and no empty tier |
| RoleRanks.GroupingShowsRanks | static/roles.js:182-192 | grouping shows exactly the ordered partition that the positions make |
| RoleRanks.RegroupsAsLaidOut | static/roles.js:199-239 | a realisable tier list, renumbered, stored and regrouped, comes back in the same order |
| RoleRanks.RealisedPosition | static/roles.js:199-223 | where the roles of a managed and of an unmanaged tier end up |
| RoleModel.ServedAt | server/src/handlers.rs:3504-3533 | a role that is named only with one acceptable position, or already has it, ends up there, whatever else the list holds |
| RoleModel.ServedUntouched | server/src/handlers.rs:3504-3533 | a role that no update names keeps its position |
| RoleRenumbering.PositionsDecrease | static/roles.js:216-221 | renumbered positions strictly decrease over the managed tiers |
| RoleRenumbering.NonOwnerBudget | static/roles.js:211-217 | below the owner, all positions are below the caller's, and the weakest is at least 1 if and only if there are no more managed tiers than ranks below the caller |
| RoleRenumbering.OwnerBudget | static/roles.js:206-208 | on the owner's branch every position is at least 10 |
| RoleRenumbering.RenumberIsSpread | static/roles.js:199-223 | the positions sent are evenly spread: below the owner from the caller's rank less one, by the largest gap that fits one more gap than there are tiers, or by 1; on the owner's branch by 10, down to 10 |
| RoleRenumbering.RenumberedAccepted | static/roles.js:206-217 | with room below the caller's rank the server takes every renumbered position; without it, it refuses the strongest |
| RolePage.BuildTiers | static/roles.js:182-192 | the tiers are exactly the ranked roles grouped by position, strongest first |
| RolePage.SortDescending | static/roles.js:190 | the positions are sorted, none lost and none added |
| RolePage.ComputeTierPositionUpdates | static/roles.js:199-223 | the loop sends exactly the roles of the managed tiers that are not yet at these positions |
| RolePage.ApplyTiers | static/roles.js:226-239 | empty tiers are dropped before renumbering |
| RolePage.Rearrange | static/roles.js:283-296 | the removal and insertion loop computes the drop's tier list |
| RolePage.DropRolePayload | static/roles.js:253-298 | which drags are refused, what is sent otherwise, and that it realises the request exactly when the drop is a realised one |
| RolePage.PickUp | static/roles.js:256-269 | the roles a drag takes along, and when it is refused |
| RolePage.TierIndexFor | static/roles.js:241-246 | finds the tier of a ranked role |
| RolePage.MoveRole | static/roles.js:1083-1110 | which arrow moves are refused, and that every other one moves the role as the arrow says |
| RoleMove.OppositeArrowsIff | static/roles.js:1083-1110 | an arrow followed by its opposite restores the ordered partition if and only if the role was not alone in the tier at the edge it was first moved towards, or that was the only tier |
| RoleMove.OppositeArrowsRestore | static/roles.js:1083-1110 | the same for two arrow presses through renumbering, storing and regrouping |
| RoleMove.ArrowMoves | static/roles.js:1090-1108 | an arrow takes a role out of a shared tier, into the neighbouring one, or to the edge, and leaves the others in order |
| SearchIndex.QueryAgreesWithSubstringSearch | static/crypto.js:342-403 | without token collisions, for words of at most sixteen letters all processed, the query's tokens are all in the index if and only if every tokenised query word is a substring of some text word |
| SearchIndex.WordAgrees | static/crypto.js:342-403 | the same for one query word under any one key |
| SearchIndex.SearchTokensForText | static/crypto.js:362-403 | no token twice, only tokens of real substrings, all of them for short words, every prefix of up to 121 letters for all words, at most 399 + 120 per key, and below 400 every word is processed |
| SearchIndex.SearchQueryTokens | static/crypto.js:342-360 | no token twice, exactly the tokens of the picked words, every word of 2 to 64 letters picked unless it spells a token, and at most 7 plus one per key |
| SearchIndex.SubstringsOf | static/crypto.js:378-389 | for words of any length: the new substrings in order of start and length, until all are known or exactly 120 were taken; all up to the stopping place are known, every prefix of up to 121 letters among them |
| SearchIndex.AddTokens | static/crypto.js:390-400 | every substring gets a token under every key, none twice |
| SearchIndex.SixteenLettersFit | static/crypto.js:377-387 | sixteen letters is the longest word whose substrings all fit under the cap |
| SearchIndex.HiddenWordIsNotFound | static/crypto.js:365-372 | a text that is one of the two inherited names is not indexed at all |
| Hkdf.BrowserHkdf | static/crypto.js:80-99 | up to 8160 octets the loop computes the expand step of section 2.3 of RFC 5869 |
| Hkdf.ServerExpand | server/src/push.rs:61-75 | up to 8128 octets the loop computes the same expand step; above, its octet counter overflows |
| Hkdf.OkmPrefix | static/crypto.js:80-99 | a shorter output is a prefix of a longer one |
| Hkdf.OkmBlock | static/crypto.js:87-97 | every block is the keyed hash of the block before it, the info and its number |
| Hkdf.OkmOneBlock | server/src/push.rs:203-219 | up to 32 octets the expand step is one keyed hash, as section 3.4 of RFC 8291 writes it |
| WebPush.DeriveWebPushKeys | server/src/push.rs:179-222 | the keys are those of section 3.4 of RFC 8291; fails only on a bad subscription key |
| WebPush.EncryptRecord | server/src/push.rs:225-254 | the body is the record the standard describes |
| WebPush.EncryptWebPushMessage | server/src/push.rs:258-278 | refuses an auth secret that is not 16 octets, else sends such a record |
| WebPush.RecordLayout | server/src/push.rs:246-253 | where a parser finds salt, record size, sender key and ciphertext, and the length of the body |
| WebPush.ReceiverRecoversPayloadIff | server/src/push.rs:225-254 | the subscription's owner recovers exactly the payload if and only if it has at most 4078 octets |
| FileChunks.FileRoundTrip | static/crypto.js:471-514 | decrypting an encrypted file of full chunks and a last one of any size gives the chunks back |
| FileChunks.ChunkOpensInPlace | static/crypto.js:471-482 | a chunk opens under its own number only |
| FileChunks.FileOpensIffInPlace | static/crypto.js:487-514 | full pieces and a last one of any size decrypt if and only if each stands at the place it was encrypted for; a cut at the end of a piece is not noticed |
| FileChunks.DecryptPieces | static/crypto.js:487-504 | the loop cuts the data at multiples of 65576 and decrypts piece by piece, failing if one does not open |
| FileChunks.DecryptFile | static/crypto.js:487-514 | the result is the joined pieces, or the failure |
| ServerKeys.AllKeysAreThoseSaved | static/crypto.js:545-565 | after any run of saves and removals, a server's keys are exactly those saved since its last removal, the newest first |
| ServerKeys.OldMessagesStillOpen | static/crypto.js:566-575 | what was sealed under any of them opens to its plaintext, and nothing else opens |
| ServerKeys.CollidingIdsLoseHistory | static/crypto.js:545-565 | for any id, two saves and the removal of the server whose id spells its history name leave only the second key |
| ServerKeys.KeysAreKeptIff | static/crypto.js:545-565 | for any set of ids, the keys are those saved in every run if and only if no id spells the history name of another |
| ServerKeys.KeyStore.SaveServerKey | static/crypto.js:545-553 | the replaced key is appended to the history |
| ServerKeys.KeyStore.RemoveServerKey | static/crypto.js:562-565 | key and history are removed |
| ServerKeys.KeyStore.GetAllServerKeys | static/crypto.js:554-561 | the current key followed by the history |
| ServerKeys.KeyStore.DecryptWithAnyServerKey | static/crypto.js:566-575 | the first key that opens decides |
| SoundboardModel.OneSoundPerUser | static/soundboard-pairing.js:903-1003 | in every run each user has at most one tracked sound, and its epoch is the user's current one |
| SoundboardModel.SilencedForGood | static/soundboard-pairing.js:927-930 | once a stop, mute or newer play of a user is handled, no earlier play of theirs is ever tracked again |
| SoundboardModel.RunKeepsInv | static/soundboard-pairing.js:903-1003 | over every run at most one play in flight holds each claim, and none a tracked sound's |
| SoundboardModel.LeavingSparesOthersInFlight | static/soundboard-pairing.js:1196-1215 | after leaving the call another user's play in flight is tracked again if and only if it was current |
| SoundboardModel.EndedIsUntracked | static/soundboard-pairing.js:213-290 | in every run, when a clip of a user ends that was tracked, that user has no tracked sound; another clip's end changes nothing |
| Soundboard.SoundboardPage.HandlePlay | static/soundboard-pairing.js:903-926 | an admitted play removes the user's entries and no others, raises the user's epoch and no other, and starts a fetch whose claim is current |
| Soundboard.SoundboardPage.OnFetched | static/soundboard-pairing.js:927-1006 | the play is tracked, or decoded, if and only if its claim was current and the bytes usable; no other user's entries change |
| Soundboard.SoundboardPage.OnDecoded | static/soundboard-pairing.js:983-996 | the play is tracked if and only if its claim was current and there is a source; no other user's entries change |
| Soundboard.SoundboardPage.OnDecodeFailed | static/soundboard-pairing.js:997-1003 | an audio element is tracked if and only if the claim was current; no other user's entries change |
| Soundboard.SoundboardPage.HandleStop | static/soundboard-pairing.js:1138-1151 | a stop removes the user's entries and no others, and makes every earlier claim of theirs stale |
| Soundboard.SoundboardPage.StopAllSoundboardAudio | static/soundboard-pairing.js:1156-1192 | leaving voice removes our own and anonymous entries and no others, and bumps our epoch |
| Soundboard.SoundboardPage.StopAllSoundboardAudioAll | static/soundboard-pairing.js:1196-1224 | leaving the call drops all entries and bumps our epoch only |
| Soundboard.SoundboardPage.BumpEpoch | static/soundboard-pairing.js:186-191 | the user's epoch and no other grows by one |
| Soundboard.SoundboardPage.OnFetchFailed | static/soundboard-pairing.js:1004-1009 | the play is forgotten and no other |
| Soundboard.SoundboardPage.OnClipEnded | static/soundboard-pairing.js:255-270 | exactly the user's entries of that clip are removed |
| Soundboard.SoundboardPage.OnElementEnded | static/soundboard-pairing.js:1060-1066 | exactly that entry is removed |
| Soundboard.SoundboardPage.PlayLocal | static/soundboard-pairing.js:795-815 | a local preview is added to those without a user |
| PdfEditor.Editor.Rotate | static/doc-preview.js:1243-1256 | turns the current visible page, as one remembered edit of the plain page list |
| PdfEditor.Editor.DeletePage | static/doc-preview.js:1258-1276 | deletes the current visible page, never the last one, as one remembered edit |
| PdfEditor.Editor.DuplicatePage | static/doc-preview.js:1278-1293 | duplicates the current visible page behind itself, as one remembered edit |
| PdfEditor.Editor.DropThumbnail | static/doc-preview.js:1139-1149 | drops the dragged page at the place of the other one among the visible pages, skipping the deleted ones, as one remembered edit |
| PdfDocument.MovedAt | static/doc-preview.js:1144-1145 | a move puts the dragged page at its new place, those in between one place over, and leaves the others |
| PdfDocument.MoveBack | static/doc-preview.js:1144-1145 | dragging it back restores the order |
| PdfEditor.Editor.Undo | static/doc-preview.js:879-891 | steps back in the history, the current page number unchanged |
| PdfEditor.Editor.Redo | static/doc-preview.js:893-905 | steps forward again |
| PdfEditor.Editor.SaveState | static/doc-preview.js:865-877 | drops the undone states, appends, and keeps the last thirty |
| PdfEditor.Editor.Export | static/doc-preview.js:1328-1339 | emits exactly the visible pages, in order, with their rotations |
| PdfEditor.Editor.constructor | static/doc-preview.js:919-929 | a fresh document shows all pages unturned, with nothing to undo |
| PdfEditor.VisibleChanged | static/doc-preview.js:1243-1276 | changing or deleting an entry changes or removes exactly that page of what is visible |
| PdfDocument.UndoingEdits | static/doc-preview.js:865-891 | as many undos as edits restore the pages for up to 29 edits; after more the original cannot be reached |
| PdfDocument.UndoReaches | static/doc-preview.js:879-891 | what any number of undos shows |
| PdfDocument.UndoThenRedo | static/doc-preview.js:879-905 | an undo followed by a redo is the identity |
| PdfDocument.RedoThenUndo | static/doc-preview.js:879-905 | and so is a redo followed by an undo |
| PdfEditor.Editor.View | static/doc-preview.js:865-877 | past, present and future states together are never more than thirty |
| PdfEditor.Editor.Edit | static/doc-preview.js:865-877 | changing the pages and saving is one edit of the document |
| PdfDocument.TurnBack | static/doc-preview.js:1248 | a turn and its opposite cancel |
| PdfDocument.TurnsBy | static/doc-preview.js:1248 | a turn adds its angle, up to whole circles |
| PdfDocument.RotatedAt | static/doc-preview.js:1243-1256 | rotating turns the current page and leaves the others |
| PdfDocument.DeletedAt | static/doc-preview.js:1258-1276 | deleting takes out the current page and shows the one behind it, or the last |
| PdfDocument.DuplicatedAt | static/doc-preview.js:1278-1293 | duplicating doubles the current page and shows the copy |
| EnvFile.GeneratedKeyIsFoundIff | server/src/config.rs:75-122 | a generated key is found on the next load if and only if the file's last, unfinished line is blank |
| EnvFile.OtherSettingsUnchanged | server/src/config.rs:109-114 | and then no other setting changes |
| EnvFile.OtherSettingsUnchangedIff | server/src/config.rs:109-114 | in general all other settings stay as they are if and only if the completed line sets the generated name, or one that an earlier line sets to something |
| EnvFile.LookupAfterAdding | server/src/config.rs:109-114 | only the completed line can answer differently than before |
| EnvFile.LookupIsFirst | server/src/config.rs:58-70 | a lookup finds the first line that gives the name a value that is not empty, and nothing if there is none |
| EnvFile.SettingOfWords | server/src/config.rs:59-65 | a line sets a word to a word whatever blanks stand around them, and with either kind of quotes or none |
| EnvFile.LoadOptionalEnv | server/src/config.rs:50-73 | the environment first, then the first non-empty value in the file |
| EnvFile.LoadOrGenerateKey | server/src/config.rs:75-122 | a known key is returned and nothing written; else the generated one is returned and appended, and a file that is not text is replaced by it |
| EnvFile.ReplacedFileHoldsOneSetting | server/src/config.rs:114-120 | a replaced or new file answers for the generated setting only |
| EnvFile.FindInFile | server/src/config.rs:58-70 | the loop with early returns finds the first non-empty value |

## Left out

- StorageSafety.ReadsNeverLie: assumes of the tag that it tells the texts and keys of the run apart, because a 64-bit tag cannot do so for all; values that look encrypted or start with a byte order mark are excluded.
- StorageLiveness.NothingIsOrphaned: a stored blob or a password change with another password and no rekey, and a page load or a failing rekey between a wipe and the login that takes over what it spared, are excluded, because the code loses values there, exactly as the lemmas about them say. The page order is that of the script tags: the crypto module before the storage layer, the ready handler as soon as libsodium is there, logins on another page than password changes.
- SecureStorage.SecureStorage.Upgrade: the browser's listing of the entries is taken once per loop, so an entry added or removed by the browser in the middle of a loop is not modelled.
- Storage quota errors, storage shared between several tabs, the same interception of sessionStorage, the cookies and sound databases that the wipes delete as well, and the insides of the mixing hash.
- Samples are real numbers, so rounding is not modelled.
- The peer threads of both rings are modelled from `static/voice.js`: they take the same steps, the consumer of captured samples without a prebuffer and loading its own position first, which only it stores. The worklets' first stores of both positions as 0, before which the other side may already have published, are not modelled, nor are decoding, encoding and networking around the rings.
- RoleModel.ServedAt: of the server's permission checks only the comparison with the caller's rank; rendering, drag markers and the order of roles inside a tier.
- SearchIndex.SearchTokensForText: lower-casing, word splitting and surrogate pairs; a letter is one character.
- Hkdf.BrowserHkdf: claims nothing about the extract step, which takes key and message in the opposite order to section 2.2 of RFC 5869.
- WebPush.EncryptWebPushMessage: base64 decoding of the subscription, HTTP and VAPID.
- ServerKeys.AllKeysAreThoseSaved: excludes empty keys, which the code takes for no key; a stored history that is not a list, which makes the code throw, is read as some list.
- SoundboardModel.OneSoundPerUser: resume records, loops, badges, offsets, and whether a discarded source is briefly audible; user ids are not empty, as the server sends them.
- PdfEditor.Editor.DeletePage: the dialog is one step with its answer as a parameter, so an edit made while it is open is not modelled; dropping anything but a thumbnail on a thumbnail, merging, annotations and the bytes of the file are not part of the history model.
- EnvFile.GeneratedKeyIsFoundIff: for setting names and keys made of letters, digits and underscores, as all of them are; a file that exists but may not be opened is one that cannot be written.
- Message padding, backups, pagination, the administration pages and the rest of the server: they would only add easy members.
