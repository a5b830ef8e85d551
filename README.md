# SVS subwoofer presets: checksum, frames and the preset store

This project models in Dafny the logic at the heart of an app that sets an SVS
subwoofer's volume and phase over Bluetooth and keeps presets per playing track,
release, artist and genre. It covers three parts:

- **Checksum** (`crc.dfy`, module `Crc`). The table-driven CRC-16 the controller
  appends to every frame: polynomial 0x1021, initial value 0, most significant bit
  first, no reflection, no final XOR (CRC-16/XMODEM).
  - The 256-entry table is built by a loop method, and the checksum loop reads it.
  - Both are proved equal to functional definitions.
  - The table-driven checksum is proved equal to the textbook bit-at-a-time CRC.
  - The catalogue check value of `"123456789"` (0x31C3) is proved as well.
- **Frames** (`frame.dfy`, module `Frame`). The 17-byte memory-write frame
  `setVolume` and `setPhase` send. It is a pure function of the parameter id, the
  memory offset and the value in tenths. JavaScript's `& 0xFF` and `>> 8` are written
  out with the 32-bit conversion JavaScript applies.
  - The frame's layout is stated byte by byte.
  - A reader of frames (`DecodeFrame`) is defined here as the encoder's partner. It
    models no code of the app and makes no claim about what the subwoofer accepts.
    Encoding then reading gives back the write, with the value taken modulo 2^16 as a
    signed number. Every frame the reader accepts is the encoder's frame.
- **Preset store** (`keys.dfy`, module `PresetKeys`; `storage.dfy`, module `Storage`).
  - Key spelling, key derivation per kind, and template keys are pure functions.
  - Local storage is a map from keys to items plus the order in which `key(i)`
    enumerates them.
  - Every mutating operation is a function from the old contents to the new, and the
    lemmas are stated about those functions.
  - The class `PresetStore` holds the map and the order as fields. Its methods update
    them in place, with the source's loops, and are proved to reach exactly those
    states.

Where the code and its design description differ, the model follows the code:

- A RELEASE key needs only a truthy album; a missing artist is spelled `undefined`.
- ARTIST and TRACK keys always exist. Missing fields are spelled `undefined`, and a
  missing album in a TRACK key is the empty string.
- There is no selected-target logic in the store.
- Keys interpolate the fields raw between `<` and `>`, so different fields can share a key,
  and a preset saved for one is resolved for the other.
  - A RELEASE for artist `a><b` and album `c` has the key of the RELEASE for artist `a` and
    album `b><c` (`PresetKeys.ReleaseKeysCollide`).
  - A missing artist has the key of the artist named `undefined`
    (`PresetKeys.MissingArtistCollides`).
- The non-null assertion `!` in `getHome` is erased at run time, so a missing HOME item
  gives `null`. The model gives `None` in the HOME entry, which `getPresetFromPlaying`
  returns as the active entry just as the source returns `item: null`. With HOME stored,
  the active entry always has an item (`Storage.ResolveNeverEmpty`), and no save or delete
  removes HOME (`Storage.SetPresetKeepsHome`, `Storage.DeleteKeepsHome`,
  `Storage.DeleteTemplateKeepsHome`).
- `getAllTemplates` recovers a name by splitting the key at `<` and dropping the last
  character of the third piece. So a template whose name contains `<` is not listed
  under its own name.
  - If the name begins with `<`, the third piece is empty and the template is not
    listed at all (`PresetKeys.TemplateLeadingBracketUnlisted`).
  - Otherwise it is listed as the part before the first `<`, minus its last character
    (`PresetKeys.TemplateNameCutAtBracket`): `"a<b"` is listed as `""`.
  - Listing is proved correct for names without `<`.

`wrappers.dfy` holds the `Option`, `Result` and `Outcome` types. A thrown JavaScript
error is a `Failure`/`Fail` carrying the error's message.

## Model

| member | source | states |
|---|---|---|
| Crc.ComputeEntry | src/svs/crc.ts:6-10 | the eight-iteration loop for entry i yields the table entry for i (eight passes from i << 8, masked to 16 bits) |
| Crc.BuildTable | src/svs/crc.ts:5-11 | builds a fresh 256-entry table of 16-bit values whose entry i is the table entry for i |
| Crc.TableEntryZero | src/svs/crc.ts:5-11 | entry 0 of the table is 0 |
| Crc.ShiftsMasked | src/svs/crc.ts:6-10 | masking the 32-bit loop to 16 bits only at the end gives the 16-bit shift-and-XOR register: the bits above 15 never reach the 0x8000 test |
| Crc.TableEntryIsRegister | src/svs/crc.ts:5-11 | entry i is eight steps of the 16-bit register started from i << 8 |
| Crc.TableStep | src/svs/crc.ts:20-21 | one byte through the table leaves a checksum below 0x10000 |
| Crc.Crc16 | src/svs/crc.ts:17-23 | the checksum is below 0x10000 for every input and 0 for the empty input |
| Crc.Crc16Hqx | src/svs/crc.ts:17-23 | the checksum loop over the bytes, reading a table built as above, returns the checksum of the data |
| Crc.CrcAppend | src/svs/crc.ts:19-22 | the checksum is a left fold: running over a + b equals running over b from the result for a |
| Crc.TableStepIsBitwise | src/svs/crc.ts:20-21 | one table lookup step equals eight bit-at-a-time register steps after XORing the byte into the top half |
| Crc.TableDrivenIsBitwise | src/svs/crc.ts:13-23 | from any 16-bit start, the table-driven loop equals the bit-at-a-time CRC over the same bytes |
| Crc.Crc16IsBitwise | src/svs/crc.ts:17-23 | the checksum equals the bit-at-a-time CRC-16 (polynomial 0x1021, initial 0, MSB first) |
| Crc.TraceFold | src/svs/crc.ts:18-22 | when each value of a trace is the loop body applied to the one before and the matching byte, the loop ends at the trace's last value |
| Crc.CheckValue | src/svs/crc.ts:17-23 | the checksum of ASCII "123456789" is 0x31C3, the CRC-16/XMODEM check value |
| Frame.ToInt32 | src/svs/controller.ts:70 | the 32-bit conversion JavaScript's bitwise operators apply: a value in the int32 range congruent to the input modulo 2^32 |
| Frame.AndFF | src/svs/controller.ts:70 | `x & 0xFF` is a byte congruent to x modulo 256 |
| Frame.Sar8 | src/svs/controller.ts:70 | `x >> 8` is the 32-bit value of x divided by 256, rounded down |
| Frame.Elevate | src/svs/controller.ts:69 | scaling a whole-number setting by 10 gives a multiple of 10 whose tenth is the setting |
| Frame.DataBytesValue | src/svs/controller.ts:70 | the two value bytes, read little-endian, are the value modulo 2^16 (its two's-complement 16-bit form) |
| Frame.DataBytesExamples | src/svs/controller.ts:69-70 | volume 0 gives bytes [0x00, 0x00], volume -29 gives [0xDE, 0xFE], phase 77 gives [0x02, 0x03] |
| Frame.BodyLayout | src/svs/controller.ts:72-76 | the checksummed part of the frame is the fifteen bytes 0xAA, 0xF0, 0x1F, 17, 0, id, 0, 0, 0, offset, 0, 2, 0, lo, hi |
| Frame.Checksum | src/svs/controller.ts:77 | the checksum of the frame body is a 16-bit number |
| Frame.Seal | src/svs/controller.ts:77 | appending `crc & 0xFF` and `(crc >> 8) & 0xFF` keeps the body and stores the checksum low byte first |
| Frame.EncodeFrame | src/svs/controller.ts:69-77 | every frame is 17 bytes: 0xAA, 0xF0, 0x1F, length 17 little-endian, id, three zeros, offset, 0, byte count 2, 0, the value modulo 2^16 little-endian, then the CRC of bytes 0-14 little-endian; every byte is in 0..255 by its type |
| Frame.VolumeFrame | src/svs/controller.ts:63-77 | the frame `setVolume` sends is 17 bytes with id 4 at byte 5, offset 0x2C at byte 9, ten times the volume modulo 2^16 little-endian at bytes 13-14, and the CRC of bytes 0-14 little-endian at bytes 15-16 |
| Frame.PhaseFrame | src/svs/controller.ts:83-97 | the frame `setPhase` sends is 17 bytes with id 4 at byte 5, offset 0x2E at byte 9, ten times the phase modulo 2^16 little-endian at bytes 13-14, and the CRC of bytes 0-14 little-endian at bytes 15-16 |
| Frame.DecodeFrame | src/svs/controller.ts:72-77 | models no code of the app: a reader defined here as the encoder's partner, accepting the layout of lines 72-77 with a matching checksum; the value it returns is a signed 16-bit number |
| Frame.DecodeEncode | src/svs/controller.ts:69-77 | reading back any encoded frame gives its id, its offset and the value modulo 2^16 read as a signed 16-bit number |
| Frame.DecodeEncodeExact | src/svs/controller.ts:69-77 | for a value in -32768..32767 the round trip returns the value exactly |
| Frame.EncodeDecode | src/svs/controller.ts:69-77 | every frame that passes the layout and checksum test is the encoder's frame for the write it decodes to |
| Frame.EncodeWraps | src/svs/controller.ts:70 | values that differ by 2^16 give the same frame: only the value modulo 2^16 is encoded |
| Frame.VolumeFrameInRange | src/svs/controller.ts:63-77 | every slider volume from -60 to 0 is encoded so that the reader gives back parameter 4, offset 0x2C and 10 times the volume |
| Frame.PhaseFrameInRange | src/svs/controller.ts:83-97 | every slider phase from -180 to 180 is encoded so that the reader gives back parameter 4, offset 0x2E and 10 times the phase |
| Frame.VolumeAndPhaseDiffer | src/svs/controller.ts:63-101 | the volume and phase frames for one value agree on bytes 0-14 except byte 9 (the offset), where they differ |
| PresetKeys.KindName | src/svs/storage.ts:4-11 | each kind's token is non-empty and holds neither `<` nor `>` |
| PresetKeys.BuildKey | src/svs/storage.ts:17-23 | a builder gives no key exactly for GENRE with a falsy genre or RELEASE with a falsy album, and every key it gives is non-empty |
| PresetKeys.BuildKeyToken | src/svs/storage.ts:17-23 | every key a builder produces is `PRESET:MUSIC<KIND>` followed by its field groups |
| PresetKeys.SelectKey | src/svs/storage.ts:17-31 | fails exactly for TEMPLATE with "Unknown type: TEMPLATE"; HOME always gives `PRESET:MUSIC<HOME>`; there is no key exactly for GENRE with a falsy genre or RELEASE with a falsy album; ARTIST and TRACK always give one; every key is non-empty |
| PresetKeys.TemplateKey | src/svs/storage.ts:133-135 | a template key starts with `PRESET:MUSIC<TEMPLATE>` |
| PresetKeys.KeysOfDistinctKinds | src/svs/storage.ts:17-23 | preset keys of different kinds never coincide, whatever is playing |
| PresetKeys.PresetKeyIsNoTemplateKey | src/svs/storage.ts:133-135 | no preset key equals any template key |
| PresetKeys.Split | src/svs/storage.ts:161 | splitting at a character gives at least one piece, and no piece holds that character |
| PresetKeys.SplitJoin | src/svs/storage.ts:161 | joining the pieces with the separator gives back the string |
| PresetKeys.ListedName | src/svs/storage.ts:158-169 | a key yields a listed name only if it starts with the template prefix |
| PresetKeys.PresetKeyNotListed | src/svs/storage.ts:158-169 | no preset key yields a listed template name |
| PresetKeys.ListedNames | src/svs/storage.ts:154-173 | over a key order, every key that yields a listed name contributes it, and every name listed comes from some key in the order |
| PresetKeys.TemplateKeyParts | src/svs/storage.ts:161-165 | a template key splits at `<` into `PRESET:MUSIC`, `TEMPLATE>` and, from index 2 on, the pieces of the name followed by `>` |
| PresetKeys.TemplateListed | src/svs/storage.ts:154-173 | a template whose name has no `<` is listed under its own name |
| PresetKeys.TemplateNameCutAtBracket | src/svs/storage.ts:161-167 | a template whose name has a `<` after a non-empty, `<`-free prefix is listed as that prefix minus its last character |
| PresetKeys.TemplateLeadingBracketUnlisted | src/svs/storage.ts:161-167 | a template whose name begins with `<` is not listed at all |
| PresetKeys.ReleaseKeysCollide | src/svs/storage.ts:21 | a RELEASE for artist `a><b` and album `c` gets the same key as one for artist `a` and album `b><c` |
| PresetKeys.MissingArtistCollides | src/svs/storage.ts:20 | an ARTIST key for a missing artist equals the key for the artist named `undefined` |
| PresetKeys.TemplateWithBracketMisread | src/svs/storage.ts:161-167 | the template named "a<b" is listed as "" |
| Storage.Get | src/svs/storage.ts:34-40 | gives an item exactly for a truthy key that is stored, and then the stored item |
| Storage.SetWellFormed | src/svs/storage.ts:41-45 | setting an item keeps the key order listing every stored key exactly once |
| Storage.RemoveWellFormed | src/svs/storage.ts:46-48 | removing an item keeps the key order listing every stored key exactly once |
| Storage.GetHome | src/svs/storage.ts:68 | gives an item exactly when HOME is stored, and then the stored HOME item |
| Storage.AfterInit | src/svs/storage.ts:53-57 | afterwards HOME is stored; a stored HOME leaves the whole store unchanged; a missing HOME gets the default item and nothing else changes |
| Storage.InitSeedsHome | src/svs/storage.ts:53-57 | after `initStorage` HOME holds the item it held, or {title "Home", volume -29, phase 77} if it had none |
| Storage.InitOnlyHome | src/svs/storage.ts:53-57 | `initStorage` changes no key other than HOME |
| Storage.InitIdempotent | src/svs/storage.ts:53-66 | running `initStorage` twice is the same as running it once |
| Storage.Find | src/svs/storage.ts:87 | returns nothing exactly when no entry has a truthy key and a stored item, else the first entry that has both |
| Storage.FindFirst | src/svs/storage.ts:87 | the entry found is the one at the first index with a truthy key and a stored item |
| Storage.GetPresetFromPlaying | src/svs/storage.ts:70-90 | with nothing playing, HOME and an empty chain; otherwise a chain of the TRACK, RELEASE, ARTIST and GENRE entries in that order, each with its key and stored item, and an active entry that is the first chain entry with a truthy key and a stored item, or HOME exactly when no entry has both |
| Storage.AfterSetPreset | src/svs/storage.ts:92-118 | fails with "Unknown type: TEMPLATE" for TEMPLATE and with "Could not generate key for type: KIND" when the key cannot be derived; succeeds exactly otherwise |
| Storage.RemoveAllItems | src/svs/storage.ts:112 | the removals of a `forEach` over keys take out exactly the truthy keys listed and nothing else |
| Storage.RemoveAllWellFormed | src/svs/storage.ts:112 | the removals keep the key order listing every stored key exactly once |
| Storage.SavedKeyNotRemoved | src/svs/storage.ts:99-110 | the key being saved is never among the keys cleared before the save |
| Storage.SetPresetStores | src/svs/storage.ts:114-117 | a successful save stores {title: key, controls} under the preset's key |
| Storage.SetPresetClears | src/svs/storage.ts:99-112 | a RELEASE save clears the TRACK key; an ARTIST save clears the TRACK key and the RELEASE key if derivable |
| Storage.SetPresetFrame | src/svs/storage.ts:92-118 | a successful save changes no key other than the saved key and the cleared keys |
| Storage.SetPresetKeepsHome | src/svs/storage.ts:92-118 | a successful save keeps HOME stored |
| Storage.SaveThenResolve | src/svs/storage.ts:70-118 | after saving a TRACK, RELEASE or ARTIST preset for something playing, resolving the same playing picks that kind, its key and the saved controls |
| Storage.AfterDeletePresets | src/svs/storage.ts:120-129 | `deletePresetsFromPlaying` removes exactly the derivable TRACK, RELEASE, ARTIST and GENRE keys and nothing else |
| Storage.DeleteKeepsHome | src/svs/storage.ts:120-129 | `deletePresetsFromPlaying` leaves HOME unchanged |
| Storage.DeleteKeepsTemplates | src/svs/storage.ts:120-129 | `deletePresetsFromPlaying` leaves every template unchanged |
| Storage.DeleteThenResolve | src/svs/storage.ts:70-129 | after `deletePresetsFromPlaying`, resolving the same playing falls back to HOME |
| Storage.ResolveNeverEmpty | src/svs/storage.ts:68-90 | with HOME stored, the resolved active entry always has an item |
| Storage.AfterSaveTemplate | src/svs/storage.ts:137-141 | fails exactly on an empty name, with "Template name is required" |
| Storage.GetTemplate | src/svs/storage.ts:143-147 | gives controls exactly when the template key is stored, and then the controls of the stored item |
| Storage.AfterDeleteTemplate | src/svs/storage.ts:149-152 | removes exactly the template key, from the items and from the key order |
| Storage.DeleteTemplateKeepsHome | src/svs/storage.ts:149-152 | deleting a template keeps HOME stored |
| Storage.SaveTemplateThenGet | src/svs/storage.ts:137-147 | after saving a template, `getTemplate` gives its controls |
| Storage.SaveTemplateKeepsPresets | src/svs/storage.ts:137-141 | saving a template leaves every preset unchanged |
| Storage.DeleteTemplateThenGet | src/svs/storage.ts:143-152 | after `deleteTemplate`, `getTemplate` gives nothing |
| Storage.AllTemplateNames | src/svs/storage.ts:154-173 | every stored key that yields a name contributes it, and every name listed comes from a stored key with the template prefix, never from a preset key |
| Storage.SaveTemplateListed | src/svs/storage.ts:137-173 | after saving a template whose name has no `<`, `getAllTemplates` lists the name |
| Storage.PresetStore.constructor | src/svs/storage.ts:53-66 | loading the store over persisted contents runs `initStorage` on them |
| Storage.PresetStore.Set | src/svs/storage.ts:41-45 | stores the item under the key; a new key joins the end of the key order |
| Storage.PresetStore.Remove | src/svs/storage.ts:46-48 | removes the key from the items and from the key order |
| Storage.PresetStore.InitStorage | src/svs/storage.ts:53-65 | leaves a stored HOME alone, else stores the default HOME item |
| Storage.PresetStore.RemoveEach | src/svs/storage.ts:112 | the `forEach` loop removes each truthy key in turn |
| Storage.PresetStore.SetPresetFromPlaying | src/svs/storage.ts:92-118 | fails with the source's message and leaves the store unchanged, or clears the shadowing keys and stores {title: key, controls} |
| Storage.PresetStore.DeletePresetsFromPlaying | src/svs/storage.ts:120-129 | removes each derivable TRACK, RELEASE, ARTIST and GENRE key |
| Storage.PresetStore.SaveTemplate | src/svs/storage.ts:137-141 | fails on an empty name and leaves the store unchanged, or stores {title: name, controls} under the template key |
| Storage.PresetStore.DeleteTemplate | src/svs/storage.ts:149-152 | removes the template key |
| Storage.PresetStore.GetAllTemplates | src/svs/storage.ts:154-173 | the index loop over the stored keys returns the names listed for template keys, in key order |

## Left out

- `connect`, `sendFrame`, `createQueue` and `delay` in `src/svs/controller.ts` are left out. They are Web Bluetooth I/O, a timer and asynchronous serialisation of writes.
- The `console.log` calls are left out.
- `Math.floor(v * 10)` on floating-point numbers is not modelled. Settings are whole numbers, as the sliders' step of 1 produces (`src/components/Controls.tsx:31`), so `Frame.Elevate` is exact multiplication by 10.
- The frame for a concrete setting is not evaluated in full, checksum included. Its value bytes are (`Frame.DataBytesExamples`), and its checksum is stated through `Crc.Crc16`.
- `JSON.stringify` and `JSON.parse` are not modelled; items are stored as values. So the exception a corrupt stored string would raise in `storage.get` is not modelled.
- The order in which `localStorage.key(i)` enumerates keys is implementation-defined. It is modelled as insertion order, with a rewritten key keeping its place. Every property proved about `getAllTemplates` holds for any order, except the statement that names come in key order.
- The React components, `App.tsx` (including its calls to selected-target functions that the store does not define), the hooks, the Electron and Tauri processes and the Swift and Rust now-playing and Bluetooth code are not part of this model.
