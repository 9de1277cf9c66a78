# eTabla in Dafny

This project models the core of eTabla, a browser tabla player, together with the Audacity batch script that
produces its faster recordings.

**The player (`apps.js`).**
- `generateAudioFiles` reads a manifest of file names. Names of the form `<taal>_<tempo>_<key>.flac` go into a
  nested dictionary: taal, then key, then tempo, then locator.
- The `ETabla` object keeps the current taal, key, BPM and matra counter.
- Its change handlers:
  - re-pin the key to one the catalog offers;
  - step the BPM along the sorted tempo ladder;
  - restart playback when it is running;
  - start and stop a looping tanpura drone.

**The batch script (`sounds/taals/pitch_adjust.py`).**
- For every `.flac` file it reads the BPM from the second `_`-separated field.
- It asks Audacity to open the file.
- For the increments +5, +10 and +15 it changes the tempo and exports `field0_target_field2.flac`.

**Modules.**

| module | file | what it holds |
|---|---|---|
| `Wrappers` | wrappers.dfy | `Option` |
| `Text` | text.dfy | ASCII lower-casing, decimal numerals, Python `int()` and `str.split` |
| `Seqs` | seqs.dfy | filter and insertion sort on sequences |
| `Assoc` | assoc.dfy | insertion-ordered dictionaries, which is what a JavaScript object is here |
| `ObjectKeys` | objectkeys.dfy | the order `Object.keys` lists property names in |
| `FilenamePattern` | filename_pattern.dfy | the manifest regular expression `^(.+?)_(\d+?)_(.+?)\.flac$` |
| `Catalog` | catalog.dfy | `generateAudioFiles`, lookup and the tempo ladder |
| `Policy` | policy.dfy | the pure decisions the player makes |
| `Player` | player.dfy | the `ETabla` class, with its fields updated in place |
| `PitchAdjust` | pitch_adjust.dfy | the batch script |
| `CrossFile` | crossfile.dfy | how the two halves meet in the file names |

**Player state.**
- Browser audio objects become presence flags:
  - `taalSource` for the tabla buffer source;
  - `intervalActive` for the matra interval timer;
  - `audioBufferLoaded` for the decoded buffer;
  - `tanpuraAudio`, the tanpura handle with its url.
- `tanpuraVoices` counts the tanpura elements that are actually sounding.
- The methods that run are the later definitions of `playTaal`/`stopTaal` (apps.js:324-374). They shadow the
  earlier ones.

**Batch script environment.**
- Audacity's pipe becomes an oracle `replies: nat -> string`, indexed by the number of commands sent so far.
- `os.path.exists` becomes a boolean parameter.
- `os.listdir` becomes a sequence parameter.

**Behaviour of the code worth knowing.**
- **BPM repair.** `startMatraCounter` replaces only a falsy BPM (0 or NaN) with 120 (apps.js:379). A negative BPM
  is kept.
- **`Object.keys` order.** Keys that are array indices come first, in ascending numeric order. Only then come the
  other keys, in insertion order. So the "first available key" (apps.js:180, 307) is the first in that order, which
  is the first key the manifest names for the taal only when no key is an array index
  (`Policy.PinnedKeyFirstNamed`).
- **Duplicate tempos.** The manifest pattern allows leading zeros in the tempo, so "150" and "0150" can both be
  recorded. The ladder then holds 150 twice, and the increase button stalls there
  (`Policy.DuplicateTempoStallsIncrease`).
- **Restart and the tanpura.** Every change handler restarts a playing tabla with `stopTaal(); playTaal();`, and
  `playTaal`'s `loadAudio` drops the tanpura handle (apps.js:136) while the drone keeps sounding.

## Model

| member | source | states |
|---|---|---|
| Text.Lower | apps.js:202 | `toLowerCase` keeps the length, leaves no upper-case letter, keeps every other character, and maps each upper-case letter to the lower-case letter at the same alphabet position |
| Text.LowerIdempotent | apps.js:416 | lower-casing an already lower-cased taal changes nothing |
| Text.NatToString | sounds/taals/pitch_adjust.py:81 | `str(n)` is a non-empty digit string without a leading zero that denotes `n` |
| Text.ParseIntRoundTrip | sounds/taals/pitch_adjust.py:55 | Python `int()` reads back every `str(n)`, negative numbers included |
| Text.SplitOn | sounds/taals/pitch_adjust.py:55 | `str.split('_')` gives at least one field; no field holds `_`; joining the fields with `_` gives the input back |
| Text.SplitJoin | sounds/taals/pitch_adjust.py:81 | splitting a join of `_`-free fields gives exactly those fields |
| Text.ReplaceChar | apps.js:56 | `replace(/#/g, 's')` keeps the length, changes a character only from `#` to `s`, and leaves no `#` |
| Text.ReplaceCharInverse | apps.js:314 | replacing back is the identity on strings that lacked the replacement character |
| Seqs.SortBy | apps.js:237 | `sort((a, b) => a - b)` gives an ascending permutation of its input |
| Assoc.Get | apps.js:177 | property access finds a value exactly when the key is a property, and the value stored under it |
| Assoc.Put | apps.js:422 | after an assignment the key maps to the new value and every other key to its old one; a new key is appended to the key order, an existing one keeps its place |
| Assoc.PutNoDups | apps.js:416-422 | assignments never list a property twice |
| ObjectKeys.EnumerationOrder | apps.js:305 | `Object.keys` lists every property exactly once (same multiset) |
| ObjectKeys.EnumerationOrderListing | apps.js:178 | array-index keys come first in ascending value; the other keys keep insertion order |
| ObjectKeys.FirstKeyNamed | apps.js:182 | when no key is an array index, `availableKeys[0]` is the first key inserted |
| FilenamePattern.MatchFileName | apps.js:412 | a match has groups the pattern accepts and the shortest taal group; no match exactly when no decomposition fits |
| FilenamePattern.MatchUnique | apps.js:412 | two decompositions with the same taal length are the same |
| FilenamePattern.MatchRoundTrip | apps.js:412-414 | `taal_tempo_key.flac` with a `_`-free taal and an all-digit tempo parses back to exactly those three groups |
| Catalog.AddEntry | apps.js:416-422 | after filing a recording, its (taal, key, tempo) yields its locator and every other combination what it did before; a new taal is listed after the known taals, a new key after the taal's known keys, and the other taals' key maps are untouched |
| Catalog.AddEntryLookup | apps.js:416-422 | the same fact, for one combination at a time |
| Catalog.AddFile | apps.js:411-425 | a matching name is filed under its lower-cased taal, its key and its tempo, a new taal or key going last in its listing order; a non-matching name changes nothing |
| Catalog.GenerateAudioFiles | apps.js:403-431 | the loop builds the catalog of the whole manifest and warns exactly about the names that do not match, in order |
| Catalog.BuildCatalogLastWins | apps.js:422 | of several entries naming one combination, the last one in the manifest wins |
| Catalog.BuildCatalogAbsent | apps.js:411-425 | a combination no entry names is absent |
| Catalog.BuildCatalogSound | apps.js:411-425 | every locator in the catalog is `sounds/taals/` plus a manifest entry naming that combination |
| Catalog.BuildCatalogWellFormed | apps.js:412-422 | every built catalog has distinct lower-case taals, no empty level, no empty key and no duplicate key at any level; each locator is `sounds/taals/` plus an entry naming its own taal, key and tempo |
| Catalog.BuildCatalogOrder | apps.js:416-421 | the built catalog lists its taals, and each taal its keys, in the order the manifest first names them |
| Catalog.TaalStep | apps.js:416-417 | filing one name extends the first-occurrence order of taals by that name's taal |
| Catalog.KeyStep | apps.js:419-420 | filing one name extends the first-occurrence order of a taal's keys by that name's key |
| Catalog.ResolveBuilt | apps.js:77 | `audioFiles[taal]?.[key]?.[bpm]` on a built catalog is found exactly when some entry names the combination, and is that entry's locator |
| Catalog.LadderListsTempos | apps.js:237 | the speed ladder is ascending, has one number per recorded tempo string, contains each tempo's value and only such values, and is empty for an unknown taal or for a key the taal does not have |
| Policy.MatrasFor | apps.js:203 | `TAAL_MATRAS_COUNT[taal] \|\| 0` is positive exactly for the three registered taals (16, 12, 10) |
| Policy.IndexOf | apps.js:238 | `indexOf` gives -1 exactly when the BPM is absent, otherwise its first position |
| Policy.StepUpOnLadder | apps.js:237-241 | on an ascending ladder, increase from an off-ladder BPM jumps to the smallest tempo, and from an on-ladder BPM stays on the ladder and never decreases |
| Policy.StepUpNext | apps.js:237-241 | on a ladder without duplicates increase moves to the next larger tempo and stays put only at the top |
| Policy.StepDownOnLadder | apps.js:252-256 | decrease leaves an off-ladder BPM alone and keeps an on-ladder BPM on the ladder without increasing it |
| Policy.StepDownNext | apps.js:252-256 | on a ladder without duplicates decrease moves to the next smaller tempo and stays put only at the bottom |
| Policy.DuplicateTempoStallsIncrease | apps.js:237-240 | on any ascending ladder that holds a tempo twice, the increase button from that tempo keeps the BPM where it is, press after press |
| Policy.PinKey | apps.js:308-309 | updateKeyDisplay keeps an offered key; otherwise it takes the first listed key, unless there is none or it is empty, when the current key stays |
| Policy.PinKeyOnLoad | apps.js:179-183 | loadAudio keeps an offered key, otherwise takes the first listed one; with no key the current key stays |
| Policy.PinKeysAgree | apps.js:181-184 | with no empty key the two pinning rules agree, and pinning twice is pinning once |
| Policy.AvailableKeysOffered | apps.js:305 | for a known taal the offered keys are non-empty, contain no empty key and are exactly the catalog's keys; for an unknown taal there are none |
| Policy.PinnedKey | apps.js:294-310 | the pinned key is the current key for an unknown taal, otherwise a catalog key for the taal: the current key whenever the catalog has it, else the first key `Object.keys` lists |
| Policy.PinnedKeyFirstNamed | apps.js:305-309 | on a built catalog whose keys for the taal are not array indices, an unoffered key is replaced by the key of the first manifest entry of that taal |
| Policy.PinnedKeyStable | apps.js:178-184 | loadAudio's pin followed by updateKeyDisplay's gives the same key as updateKeyDisplay's alone, and pinning is idempotent |
| Policy.NextMatraInRange | apps.js:387 | from any non-negative index a tick lands in 1..count |
| Policy.MatraCycle | apps.js:382-388 | after k ticks from 1 the display reads `k % count + 1`, so it cycles through 1..count |
| Policy.MatraWithoutCount | apps.js:387 | with a beat count of 0 the counter becomes NaN on the first tick and stays NaN |
| Policy.StartBpm | apps.js:377-380 | a zero BPM becomes 120; any other BPM is kept; the result is never 0 |
| Policy.TanpuraUrl | apps.js:55-57 | the drone url is `sounds/tanpura/` plus the key with every `#` as `s`, plus `.mp3` |
| Policy.KeySpellingRoundTrip | apps.js:314 | a catalog key without `#` survives display and back; a shown key without `s` survives the file spelling and back |
| Policy.KeyOptions | apps.js:312-316 | one option per key in order, the key as value, its display spelling (`s` shown as `#`) as caption, and a caption that maps back to the key when the key has no `#` |
| Policy.KeyOptionsOffer | apps.js:317 | every offered key has an option, so `keySelect.value = currentKey` selects one |
| Policy.TaalOption | apps.js:281-282 | a caption is the taal, a space and its beat count as a numeral, or nothing for an unregistered taal |
| Policy.TaalOptions | apps.js:276-283 | one option per catalog taal, in `Object.keys` order, each captioned as above |
| Player.ETabla.constructor | apps.js:122-133 | teentaal, 150 BPM, key Gs, 16 matras, index 0, no timer, no sources, empty catalog |
| Player.ETabla.SetCatalog | apps.js:132 | the player holds the catalog built from the manifest, which has the shape the lookups need |
| Player.ETabla.StopTanpura | apps.js:65-71 | the handle is cleared and its element stops sounding |
| Player.ETabla.PlayTanpura | apps.js:53-63 | the previous drone stops and one drone in the current key's url starts |
| Player.ETabla.ToggleTanpura | apps.js:147-157 | checked plays the drone of the current key; unchecked stops it |
| Player.ETabla.StartMatraCounter | apps.js:376-390 | the BPM is repaired, the display starts at 1 and the timer runs |
| Player.ETabla.StopMatraCounter | apps.js:392-395 | the timer is cleared |
| Player.ETabla.Tick | apps.js:386-389 | one firing advances the index as the callback computes it, into 1..count, or to NaN with no count |
| Player.ETabla.StopTaal | apps.js:355-374 | source and timer are gone, the display is at 0, the tanpura is untouched |
| Player.ETabla.UpdateKeyDisplay | apps.js:294-321 | the key is re-pinned; the dropdown lists the offered keys and contains the pinned key; for an unknown taal it is empty |
| Player.ETabla.PinOnLoad | apps.js:175-191 | with the checkbox present, the key ends as the pinned key; without it, unchanged |
| Player.ETabla.LoadAudio | apps.js:135-191 | the tanpura handle is dropped, its element is not paused, and the key is pinned |
| Player.ETabla.StartIfLoaded | apps.js:330-350 | with no decoded buffer nothing changes; otherwise the source starts and the counter with it |
| Player.ETabla.PlayTaal | apps.js:324-352 | playTaal stops, reloads (dropping the tanpura handle), pins the key, and without a buffer stays stopped with the BPM unchanged |
| Player.ETabla.PlayTaalKeepingTanpura | apps.js:324-352 | the same without dropping the tanpura handle |
| Player.ETabla.Restart | apps.js:229-231 | `stopTaal(); playTaal();` drops the tanpura handle and pins the key; without a buffer the player is stopped with the BPM kept, with one the source, timer and counter restart at the repaired BPM |
| Player.ETabla.RestartIfPlaying | apps.js:209-212 | without the guard `audioBuffer && intervalId` nothing about playback or the tanpura handle changes; with it the handle is dropped, playback restarts at the repaired BPM and the key is re-pinned |
| Player.ETabla.SetTaal | apps.js:202-206 | the given taal is stored as is, its beat count looked up, the key re-pinned for it |
| Player.ETabla.SelectTaal | apps.js:201-217 | the taal listener stores the lower-cased taal and its count and pins the key; a playing tabla restarts and drops the tanpura handle; a stopped player stays stopped with the handle kept |
| Player.ETabla.RetuneTanpura | apps.js:222-227 | with the checkbox on, the drone restarts in the new key; otherwise the tanpura is untouched |
| Player.ETabla.SelectKey | apps.js:220-233 | the key listener sets the key and, with the checkbox on, starts a drone in it; a stopped player stays stopped with that drone under its handle; a playing tabla restarts, re-pins the key and drops the handle of the drone, which keeps sounding |
| Player.ETabla.SetBpm | apps.js:240-246 | without a restart the new BPM is stored and nothing else changes; with one the player restarts at the repaired new BPM, the tanpura handle is dropped and, when the tanpura checkbox exists, the key is re-pinned for the taal |
| Player.ETabla.IncreaseBpm | apps.js:236-248 | at the top of the ladder nothing changes; otherwise the BPM becomes the entry after the current one, and a playing tabla restarts at it, dropping the tanpura handle and, when the tanpura checkbox exists, re-pinning the key for the taal |
| Player.ETabla.DecreaseBpm | apps.js:251-263 | at the bottom or off the ladder nothing changes; otherwise the BPM becomes the entry before the current one, and a playing tabla restarts at it, dropping the tanpura handle and, when the tanpura checkbox exists, re-pinning the key for the taal |
| Player.TanpuraOverlap | apps.js:136 | Play, tanpura on, Play, tanpura off, tanpura on: two drones sound, and switching off once more silences only one |
| Player.TanpuraKept | apps.js:135-136 | with the handle kept, the same presses leave one drone, and switching off silences it |
| PitchAdjust.Basename | sounds/taals/pitch_adjust.py:50 | `os.path.basename` is the longest separator-free end of the path, except that a leading `X:` drive of a path without separators is skipped |
| PitchAdjust.BasenameOfJoin | sounds/taals/pitch_adjust.py:110 | the basename of `join(INPUT_DIR, name)` is the listed name |
| PitchAdjust.SplitExt | sounds/taals/pitch_adjust.py:51 | `splitext` splits the name into stem and extension; the extension is non-empty exactly when the final component has a dot after some non-dot character, and then starts at the last dot and holds no other dot |
| PitchAdjust.ExtensionCondition | sounds/taals/pitch_adjust.py:51 | the last-dot test is the same as "some dot of the final component follows a non-dot character" |
| PitchAdjust.ExtractBpm | sounds/taals/pitch_adjust.py:54-58 | no BPM without an underscore; otherwise `int()` of the text from the first underscore to the next one or to the end |
| PitchAdjust.SecondField | sounds/taals/pitch_adjust.py:55 | field 1 of `split('_')` exists exactly when the base holds an underscore, and is the text up to the next one |
| PitchAdjust.ExtractBpmRoundTrip | sounds/taals/pitch_adjust.py:55 | a BPM written between the first two underscores is read back |
| PitchAdjust.OutputName | sounds/taals/pitch_adjust.py:81 | an export name exists exactly when field 2 exists, and ends in `.flac` |
| PitchAdjust.OutputNameFields | sounds/taals/pitch_adjust.py:81 | the export name's extension is `.flac` and its stem splits into field 0, the target and field 2; later fields are dropped |
| PitchAdjust.IsFlacNameLower | sounds/taals/pitch_adjust.py:109 | the character test is exactly "the lower-cased name ends in `.flac`" |
| PitchAdjust.FlacNamePasses | sounds/taals/pitch_adjust.py:109 | every export name passes the filter |
| PitchAdjust.ReprocessReadsTarget | sounds/taals/pitch_adjust.py:81 | an export fed back is read as a file of the target BPM and would be exported under the same fields |
| PitchAdjust.AdjustTempo | sounds/taals/pitch_adjust.py:72-90 | one increment sends the tempo change and, with a field 2, the export whose reply decides the step |
| PitchAdjust.AdjustTempos | sounds/taals/pitch_adjust.py:71-90 | a BPM of 0 crashes before any tempo change; otherwise the three rounds, +5, +10, +15 in order |
| PitchAdjust.RoundsLength | sounds/taals/pitch_adjust.py:71-90 | each round is one command without a field 2 and two with one |
| PitchAdjust.ProcessFile | sounds/taals/pitch_adjust.py:49-94 | the commands and outcome are a `FileRun`: no BPM, no commands; failed Open, only the Open; BPM 0, Open and SelectAll then a crash; otherwise the specified run |
| PitchAdjust.FileRunOutcome | sounds/taals/pitch_adjust.py:54-68 | each outcome of a `FileRun` occurs exactly when its condition holds, with the commands stated |
| PitchAdjust.FileRunUnique | sounds/taals/pitch_adjust.py:49-94 | a file and the replies determine the commands and the outcome |
| PitchAdjust.ProcessOpened | sounds/taals/pitch_adjust.py:67-94 | after the Open: SelectAll, the rounds and Close, or the crash for BPM 0 |
| PitchAdjust.ProcessedRun | sounds/taals/pitch_adjust.py:67-94 | the commands and steps of an opened file are those of the short or the full name run |
| PitchAdjust.ShortRounds | sounds/taals/pitch_adjust.py:80-90 | without field 2 every export raises and is caught: three tempo changes, three skipped steps |
| PitchAdjust.FullRounds | sounds/taals/pitch_adjust.py:79-94 | with field 2: three change/export pairs, each export answered by the reply right after it, then Close |
| PitchAdjust.RunsFitEach | sounds/taals/pitch_adjust.py:108-111 | in a run of several files, file i is processed as `FileRun` says, starting after the commands of the files before it |
| PitchAdjust.RunsFitAppend | sounds/taals/pitch_adjust.py:108-111 | a file processed from the end of the earlier files' commands, as FileRun describes, extends a run that fits the listing into one that fits the longer listing |
| PitchAdjust.ProcessListed | sounds/taals/pitch_adjust.py:110-111 | the listed file joins `INPUT_DIR`, is processed as `FileRun` says after the commands already sent, and a crash on it is reported |
| PitchAdjust.ProcessEntry | sounds/taals/pitch_adjust.py:108-111 | one listing entry is processed exactly when it passes the `.flac` filter, keeping the run consistent |
| PitchAdjust.ProcessDirectory | sounds/taals/pitch_adjust.py:97-113 | no input directory: nothing; otherwise the `.flac` names are processed in listing order, all of them unless a BPM of 0 crashes the run, which then ends at that file; the commands are the concatenation of the files' runs, each as `FileRun` says from where the previous one ended |
| PitchAdjust.FilterPrefix | sounds/taals/pitch_adjust.py:108-109 | the names filtered from a prefix of the listing are a prefix of those filtered from all of it |
| CrossFile.ExportNameParses | sounds/taals/pitch_adjust.py:81 | with non-empty fields 0 and 2 and a non-negative target, the export name matches the manifest pattern with groups field 0, the target numeral and field 2, and is filed under the lower-cased field 0 |
| CrossFile.ExportResolves | sounds/taals/pitch_adjust.py:81 | a manifest ending in that export makes the player resolve field 0, field 2 and the target BPM to it |

## Left out

- Browser audio: `new Audio`, `play()`, `AudioContext`, `createBufferSource` and `close()` are foreign calls. Only the presence of their handles is kept, plus the number of sounding tanpura elements.
- DOM and listener registration: `getElementById`, `innerHTML`, `textContent` and `style.display` are left out. The tanpura toggle listener and a second key listener that replays the drone are registered only inside `loadAudio` (apps.js:147-172). So they first exist after the first `loadAudio`, and each later `loadAudio` adds another copy. Handlers are methods called directly: the model lets `ToggleTanpura` run before any `loadAudio`, runs it once per change, and leaves out the second key listener. A duplicated toggle listener does not change the drone count: its second `playTanpura` stops the drone its first one started, and its second `stopTanpura` finds no handle.
- Floating point: the volumes (0.25 and `parseFloat`), the interval duration `60 / bpm * 1000` (apps.js:385) and `percentage_change` (sounds/taals/pitch_adjust.py:73) are not modelled. `ChangeTempo` records the input and target BPM instead.
- Timers and promises: `setInterval` becomes an explicit `Tick`. The `async`/`await` of `playTaal` and of the key listener are taken as sequential.
- `fetch` of the manifest (apps.js:407-408) is replaced by the manifest as a parameter. The assignment of the catalog to the player, which the page does, is `SetCatalog`.
- Dead code is not modelled:
  - the shadowed `playTaal`/`stopTaal` (apps.js:74-112), except the lookup expression at line 77, which is `Catalog.Resolve`;
  - `setupTanpura` (apps.js:14-51), which nothing in apps.js calls;
  - the commented block (apps.js:115-121).
- `updateBpmDisplay`, `updateMatraDisplay` and console output are display only.
- Audacity's pipe I/O (sounds/taals/pitch_adjust.py:15-47) becomes the reply oracle. The audio effect of a tempo change is out.
- `os.makedirs` and the prints of the script are left out.
- file.py, generate_sounds_json.py and sounds/taals/pipe_test.py are not part of this model. They do HTTP downloads, directory listings and a pipe smoke test.
- Text.Lower: maps ASCII letters only. JavaScript `toLowerCase` also maps non-ASCII letters.
- Text.NumeralValue: is the exact value of the digit string. `Number(s)` loses precision beyond 2^53.
- PitchAdjust.Basename: follows Windows path rules: `\` and `/` both separate, and a leading `X:` drive is skipped. UNC prefixes are not treated specially.
- Assoc: JavaScript objects inherit `Object.prototype` properties. A manifest taal or key such as `constructor`, `toString` or `__proto__` finds a truthy inherited value at apps.js:416-421, so no own entry is made, and `TAAL_MATRAS_COUNT[taal] || 0` (apps.js:203, 281) yields a function. The model treats these names as ordinary keys.
- Policy.KeyOptions, Policy.TaalOptions: the option markup is parsed by `innerHTML` (apps.js:282, 315), so `&`, `<` or `"` in a taal or key change the options. The model takes the text literally.
- Text.ParseInt: accepts ASCII digits, signs, `_` separators and ASCII whitespace only. Python `int()` (sounds/taals/pitch_adjust.py:55) also accepts Unicode decimal digits and Unicode whitespace, so such a file is processed by the script but has no BPM in the model.
- Player.ETabla: the restart guard `audioBuffer && intervalId` can hold only when a buffer is loaded, which no code does (apps.js:124 sets it to null and nothing assigns it). The handlers are still specified for both sides of the guard.
- CrossFile.ExportNameParses: also requires fields 0 and 2 to hold no line terminator. JavaScript's `.` does not match one, so such a name would not parse.

## Findings

| source | as written | input that shows it | evidently intended | confidence | as-written member | corrected member |
|---|---|---|---|---|---|---|
| apps.js:136 | `loadAudio`, called by every `playTaal`, sets `tanpuraAudio = null` without pausing the element | Play, tanpura on, Play, tanpura off, tanpura on: two drones sound, and switching the tanpura off once more silences only the second | Play leaves a playing tanpura under its handle, so there is one drone and switching off silences it | not executed | Player.TanpuraOverlap | Player.TanpuraKept |
