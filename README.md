# Verified model of panda3d's distributed-object grid and interest core, with a set of engine utilities

This project is a Dafny model of part of the panda3d engine. It has two halves.

**Distributed objects: zones, grids and interest.** These are the Python classes under `direct/src/distributed`.
- `CartesianGridBase`: the grid arithmetic.
  - Maps a position to a zone and a zone back to its cell.
  - Lists the concentric rings of zones around a zone.
  - Sizes a grid from a sphere.
  - Reads and writes the parenting rules.
- `GridParent`: the per-zone cell origins.
- `GridChild`: a mobile object's grid cell and its grid interests.
- `DistributedCartesianGridAI`: the server's periodic check that moves objects whose position has left their cell.
- `DoHierarchy`: the table of which object lives under which parent and zone.
- `DoInterestManager`: the client's interest subscriptions.
  - Handles, scopes and holds.
  - The add/alter/remove messages it sends.
  - The per-interest state machines, including nested interests and how completion cascades to parents.
- The parts of `DistributedObjectBase` and `DistributedObjectOV` that deal with location and auto-interest.

**Engine utilities.** These are C++ files.
- The graphics state guardian's state merge.
- Texture attributes.
- Piecewise curves, NURBS knots and quilts.
- Texture stages.
- The plugin's file specs and multifile reader.
- The WAV cursor.
- The texture-memory counter and the index-page layout.
- The COLLADA accessor and profile.
- The effect pool.
- The navigation-mesh attribute.

Each source file is modelled by one Dafny module, except two large ones. `DoInterestManager.py` is split over the request, interest-machine, re-entrant-machine and manager modules, and `graphicsStateGuardian.cxx` over the state-vector and guardian modules. Code that changes objects in place becomes a class with `modifies` clauses. Pure logic becomes functions and lemmas. Loops become methods whose invariants tie them to a specification function.

Calls into code the model cannot see are replaced:
- The network, the messenger and the task manager become event logs held in the classes.
- Scene-graph nodes become abstract node numbers.
- Files, stat, the loader and the XML DOM become parameters or explicit input sequences.

Python exceptions and `notify.error` become explicit error outcomes. C++ debug assertions mostly become preconditions, or explicit refusals where the code also returns a failure value. "## Left out" names the exceptions: the navigation-mesh area bound and the texture counter's null checks.

Where the code has a bug that Findings records, the code as written is modelled by its own member and the corrected behaviour by another. The operations that build on it use the corrected member, and their rows start with "corrected:". The add-interest request is one case: the code calls `uniqueElements` and throws its result away, so repeated zones are sent. The manager's request sends each zone once.

## Model

| member | source | states |
|---|---|---|
| DoHierarchyModel.DoHierarchy.StoreObjectLocation | direct/src/distributed/DoHierarchy.py:105-116 | an id already stored is refused and nothing changes; otherwise it joins bucket (parent, zone) and allDoIds, and the table stays pruned, uniquely placed and in step with allDoIds |
| DoHierarchyModel.DoHierarchy.DeleteObjectLocation | direct/src/distributed/DoHierarchy.py:118-148 | the four error cases (not stored, parent missing, zone missing, id missing from the bucket) each hold exactly when their condition holds and change nothing; otherwise the id leaves its bucket and allDoIds, emptied buckets and parents are pruned, and the invariant is kept |
| DoHierarchyModel.DoHierarchy.GetDoIds | direct/src/distributed/DoHierarchy.py:71-103 | the result lists, once each, exactly the ids under the parent (in one zone, or in any zone) that pass the class filter; an unknown parent gives the empty list |
| DoHierarchyModel.DoHierarchy.GenTree | direct/src/distributed/DoHierarchy.py:150-182 | there is a node for every parent and every stored id, each carrying its own zones; the roots are exactly the parents that no bucket holds |
| DoHierarchyModel.DoHierarchy.IsEmpty | direct/src/distributed/DoHierarchy.py:59-61 | the table is empty exactly when allDoIds is (the consistency the source asserts) |
| DoHierarchyModel.DoHierarchy.Len | direct/src/distributed/DoHierarchy.py:63-64 | the length is the number of stored ids |
| DoHierarchyModel.DoHierarchy.Clear | direct/src/distributed/DoHierarchy.py:66-69 | both structures become empty and the invariant holds |
| DoHierarchyModel.StoreThenDeleteRestores | direct/src/distributed/DoHierarchy.py:105-148 | storing a fresh id and deleting it from the same place gives back the original table |
| DoHierarchyModel.StoredLocated | direct/src/distributed/DoHierarchy.py:105-116 | after a store exactly the old ids and the new one are located |
| DoHierarchyModel.DeletedLocated | direct/src/distributed/DoHierarchy.py:118-139 | after a delete every other id is still located and the deleted one is nowhere |
| DoHierarchyModel.DeletedBuckets | direct/src/distributed/DoHierarchy.py:131-139 | the delete takes the id out of its bucket and leaves every other bucket unchanged, the pruning notwithstanding |
| MultifileReaderModel.UnxorInvolution | direct/src/plugin/p3dMultifileReader.cxx:251-254 | xoring a name with 0xff twice gives it back: the stored and the decoded names are inverse |
| MultifileReaderModel.UnxorBuffer | direct/src/plugin/p3dMultifileReader.cxx:250-256 | the in-place loop leaves the buffer equal to the decoded name, byte by byte flipped |
| MultifileReaderModel.AgreesWhenForward | direct/src/plugin/p3dMultifileReader.cxx:231-271 | on every index chain the corrected reader accepts, the loop as written ends with the same entries |
| MultifileReaderModel.SelfLinkNeverFinishes | direct/src/plugin/p3dMultifileReader.cxx:236-269 | on a 38-byte file whose entry links to itself, the loop as written never finishes however many rounds it runs, and the corrected reader refuses the file |
| MultifileReaderModel.FixedPointNeverFinishes | direct/src/plugin/p3dMultifileReader.cxx:236-269 | an entry whose link points at its own link brings the loop as written back to the same state every round |
| MultifileReaderModel.P3DMultifileReader.SkipCommentLines | direct/src/plugin/p3dMultifileReader.cxx:176-188 | after a leading '#', lines and the white space after them are skipped until a byte that is neither; EOF fails the stream |
| MultifileReaderModel.P3DMultifileReader.CheckMagic | direct/src/plugin/p3dMultifileReader.cxx:161-197 | the header check passes with the stream just past the magic bytes exactly when the file (after any '#' lines) starts with "pmf\0\n\r"; otherwise it fails or the stream has failed |
| MultifileReaderModel.P3DMultifileReader.ReadAfterMagic | direct/src/plugin/p3dMultifileReader.cxx:199-218 | version 1.1 and scale 1 are required, the timestamp is skipped, and the result is that of the index read |
| MultifileReaderModel.P3DMultifileReader.ReadEntry | direct/src/plugin/p3dMultifileReader.cxx:237-258 | the entry's start, length, flags, timestamp and decoded name are read, skipping the extra length field when flags & 0x18; the stream fails exactly when the file is too short |
| MultifileReaderModel.P3DMultifileReader.ReadIndex | direct/src/plugin/p3dMultifileReader.cxx:231-271 | succeeds exactly when the index chain parses, and then appends exactly the entries whose flags are 0, in chain order |
| MultifileReaderModel.P3DMultifileReader.FollowLink | direct/src/plugin/p3dMultifileReader.cxx:264-268 | seeking to the link and reading the next link succeeds exactly when the stream is good, the link lies past the entry and the file holds four bytes there |
| MultifileReaderModel.P3DMultifileReader.ReadHeader | direct/src/plugin/p3dMultifileReader.cxx:152-221 | clears the subfile list; succeeds exactly when the file opens (not already open) and parses as a Multifile, leaving the parsed subfiles |
| MultifileReaderModel.P3DMultifileReader.ExtractSubfile | direct/src/plugin/p3dMultifileReader.cxx:282-303 | writes the subfile's bytes the file holds, in order, and succeeds exactly when it holds all of them |
| MultifileReaderModel.P3DMultifileReader.CopyDone | direct/src/plugin/p3dMultifileReader.cxx:289-301 | when a read returns nothing, the bytes written are the subfile's available bytes, and nothing remains exactly when all were available |
| MultifileReaderModel.P3DMultifileReader.ExtractOne | direct/src/plugin/p3dMultifileReader.cxx:126-142 | succeeds exactly when the header reads, a subfile of that name is listed and its bytes are all present; then the output is the first such subfile's bytes |
| MultifileReaderModel.Lookup | direct/src/plugin/p3dMultifileReader.cxx:132-139 | the first subfile with the name, and none exactly when no subfile has it |
| MultifileReaderModel.LineEnd | direct/src/plugin/p3dMultifileReader.cxx:180-182 | the first '\n' at or after the position, every byte before it not a newline |
| MultifileReaderModel.NonSpace | direct/src/plugin/p3dMultifileReader.cxx:184-186 | the first non-space byte at or after the position, every byte before it white space |
| WavAudioCursorModel.FormatOf | panda/src/movies/wavAudioCursor.cxx:141-148 | the channel count is the 16-bit field, the sample width is bits / 8 kept to 8 bits, and the rate keeps only the low 16 bits of its 32-bit field |
| WavAudioCursorModel.FindData | panda/src/movies/wavAudioCursor.cxx:151-176 | corrected search: a found position is a whole chunk header inside the file whose id is "data", reached from the start by stepping over chunks |
| WavAudioCursorModel.ListChunkSkipped | panda/src/movies/wavAudioCursor.cxx:151-176 | on a file with a LIST chunk before the data chunk the search as written finds nothing, while the corrected search finds the data chunk at 44 and the file opens as mono 16-bit 44100 Hz with two data bytes |
| WavAudioCursorModel.ParseWav | panda/src/movies/wavAudioCursor.cxx:68-194 | a file opens exactly when the preamble holds, the search finds a data chunk lying wholly inside the file, and the channel count and sample width are not zero; the rate is not checked; the format and data start are the file's |
| WavAudioCursorModel.LengthOf | panda/src/movies/wavAudioCursor.cxx:183 | the length in seconds is finite exactly when the rate is not zero, and then times the rate gives the frame count; a zero rate gives +infinity, or NaN exactly when there are no frames |
| WavAudioCursorModel.RateZeroOpens | panda/src/movies/wavAudioCursor.cxx:146-183 | a mono 16-bit file whose rate field is 0 opens with one frame and an infinite length |
| WavAudioCursorModel.NumSamplesBounds | panda/src/movies/wavAudioCursor.cxx:181 | the frame count is the largest number of whole frames (channels times sample width bytes each) the data holds |
| WavAudioCursorModel.NumSamplesAsWritten | panda/src/movies/wavAudioCursor.cxx:181 | the frame count as written has a value exactly when neither divisor is zero, and then agrees with the corrected count |
| WavAudioCursorModel.ZeroChannelsReachDivision | panda/src/movies/wavAudioCursor.cxx:134-181 | a file declaring zero channels passes every check as written and reaches the division with a zero divisor; the corrected parse refuses it |
| WavAudioCursorModel.Int16 | panda/src/movies/wavAudioCursor.cxx:273 | a 16-bit word stored into a signed 16-bit sample lies in the signed 16-bit range |
| WavAudioCursorModel.Widen8 | panda/src/movies/wavAudioCursor.cxx:280-282 | an unsigned 8-bit sample centred on 128 and shifted up 8 bits lies in the signed 16-bit range |
| WavAudioCursorModel.SampleAt | panda/src/movies/wavAudioCursor.cxx:269-283 | a sample read from the buffer at either width lies in the signed 16-bit range |
| WavAudioCursorModel.SampleRoundTrip | panda/src/movies/wavAudioCursor.cxx:269-274 | a signed 16-bit value stored little-endian in two's complement reads back as itself |
| WavAudioCursorModel.SeekTarget | panda/src/movies/wavAudioCursor.cxx:243-247 | seek lands before the frame count and below 65536, and on the last frame whenever the frame count is below 65536 |
| WavAudioCursorModel.FramesRead | panda/src/movies/wavAudioCursor.cxx:262-266 | read_samples hands out no frames for a request of 0 or less, otherwise the request or the remaining frames, never more than remain |
| WavAudioCursorModel.WavAudioCursor.constructor | panda/src/movies/wavAudioCursor.cxx:36-215 | the cursor is open exactly when the file exists and parses, whatever its rate; then the buffer is the data chunk's bytes, the format fields and frame count are the file's, the cursor is at frame 0 and seeking is fast but not supported |
| WavAudioCursorModel.WavAudioCursor.Cleanup | panda/src/movies/wavAudioCursor.cxx:302-311 | the buffer is released (its size dropping to 0 only if there was one), the cursor rewinds and closes |
| WavAudioCursorModel.WavAudioCursor.Load | panda/src/movies/wavAudioCursor.cxx:68-215 | the sequence of header reads opens the cursor exactly when the file parses, a zero rate included, with the buffer equal to the data chunk |
| WavAudioCursorModel.WavAudioCursor.ReadPreamble | panda/src/movies/wavAudioCursor.cxx:68-139 | the fixed reads succeed exactly when the RIFF, WAVE and fmt ids are in place and the format type is PCM |
| WavAudioCursorModel.WavAudioCursor.SeekDataChunk | panda/src/movies/wavAudioCursor.cxx:150-176 | the search loop finds a chunk exactly when the corrected search does, and at the same position |
| WavAudioCursorModel.WavAudioCursor.LoadData | panda/src/movies/wavAudioCursor.cxx:178-215 | the cursor opens exactly when the channel count and sample width are non-zero and the data chunk fits in the file, and then holds its bytes, its frame count and the length LengthOf gives, non-finite for a zero rate |
| WavAudioCursorModel.CopyIn | panda/src/movies/wavAudioCursor.cxx:186-187 | the buffer ends up equal to the file's bytes from the data start on |
| WavAudioCursorModel.WavAudioCursor.Seek | panda/src/movies/wavAudioCursor.cxx:237-249 | on an open cursor with frames and a non-zero rate the position becomes the seek target whatever the requested time; with a zero rate it stays on a frame below 65536; otherwise nothing changes; the cursor stays valid |
| WavAudioCursorModel.WavAudioCursor.ReadSamples | panda/src/movies/wavAudioCursor.cxx:259-295 | for 1- or 2-byte samples the output's first k times channels entries are the buffer's samples from the current frame on and the rest is untouched, k being the frames handed out, and the cursor advances by k; another width closes the cursor when a frame is due |
| WavAudioCursorModel.WavAudioCursor.DeliverFrames | panda/src/movies/wavAudioCursor.cxx:262-289 | the frame loop advances the cursor by the frames handed out and delivers exactly their samples |
| WavAudioCursorModel.ReadFrame | panda/src/movies/wavAudioCursor.cxx:270-283 | one frame extends the delivered prefix by one sample per channel |
| WavAudioCursorModel.WriteSample | panda/src/movies/wavAudioCursor.cxx:271-282 | one sample extends the delivered prefix by one |
| TextureMemoryCounterModel.BytesPerPixel | pandatool/src/egg-palettize/textureMemoryCounter.cxx:178-215 | the bytes per pixel follow the format table (6, 4, 3, 2 or 1), and any other format uses the channel count |
| TextureMemoryCounterModel.CountBytesBounds | pandatool/src/egg-palettize/textureMemoryCounter.cxx:170-232 | the estimate is pixels times bytes per pixel, and with a mipmapping filter the largest whole number at most four thirds of that |
| TextureMemoryCounterModel.TruncToIntBounds | pandatool/src/egg-palettize/textureMemoryCounter.cxx:125 | the cast of the unused share to int moves it toward zero by less than one |
| TextureMemoryCounterModel.TotalRemove | pandatool/src/egg-palettize/textureMemoryCounter.cxx:136-151 | the total of the stored texture sizes is any one texture's size plus the total of the others |
| TextureMemoryCounterModel.TotalUpdate | pandatool/src/egg-palettize/textureMemoryCounter.cxx:139-150 | storing a size for a texture changes the total by the new size less the old one |
| TextureMemoryCounterModel.EmptyValid | pandatool/src/egg-palettize/textureMemoryCounter.cxx:31-43 | the reset state has no textures and no palettes and keeps the counter's invariant |
| TextureMemoryCounterModel.AddPaletteIdempotent | pandatool/src/egg-palettize/textureMemoryCounter.cxx:113-127 | adding a palette image twice equals adding it once; the first time adds exactly its bytes, its unused share and one palette, and leaves the textures alone |
| TextureMemoryCounterModel.AddTextureAccounts | pandatool/src/egg-palettize/textureMemoryCounter.cxx:136-151 | every byte given to add_texture ends up in the stored sizes or the duplicate bytes; a new texture is counted once, a repeat adds the smaller size to the duplicates and keeps the larger; the invariant holds |
| TextureMemoryCounterModel.PlacementBytes | pandatool/src/egg-palettize/textureMemoryCounter.cxx:50-75 | a placed placement adds one placed texture and only its palette's bytes; an omitted one adds one unplaced texture and its destination's bytes; the invariant holds |
| TextureMemoryCounterModel.TextureMemoryCounter.constructor | pandatool/src/egg-palettize/textureMemoryCounter.cxx:21-24 | a new counter is in the reset state |
| TextureMemoryCounterModel.TextureMemoryCounter.Reset | pandatool/src/egg-palettize/textureMemoryCounter.cxx:31-43 | every count and total is zero and both collections are empty |
| TextureMemoryCounterModel.TextureMemoryCounter.AddPlacement | pandatool/src/egg-palettize/textureMemoryCounter.cxx:50-75 | the new state is add_placement applied to the old one, and the invariant holds |
| TextureMemoryCounterModel.TextureMemoryCounter.AddPalette | pandatool/src/egg-palettize/textureMemoryCounter.cxx:113-127 | the new state is add_palette applied to the old one, and the invariant holds |
| TextureMemoryCounterModel.TextureMemoryCounter.AddTexture | pandatool/src/egg-palettize/textureMemoryCounter.cxx:136-151 | the new state is add_texture applied to the old one, and the invariant holds |
| IndexParametersModel.CDivBounds | pandaapp/src/indexify/indexParameters.cxx:58-61 | C's integer quotient truncates toward zero: for a positive divisor its multiple lies within one divisor of the dividend, on the side of zero |
| IndexParametersModel.ThumbCountIsLargest | pandaapp/src/indexify/indexParameters.cxx:58-65 | when the page is at least as wide as the leading space, the count across is the largest number of thumbnails whose used width fits the page |
| IndexParametersModel.NarrowPageHasNoThumbs | pandaapp/src/indexify/indexParameters.cxx:58-65 | a page narrower than the leading space (by less than one thumbnail) gets no thumbnails, and the width used then exceeds the page |
| IndexParametersModel.IndexParameters.constructor | pandaapp/src/indexify/indexParameters.cxx:21-47 | the user parameters take their default values and the computed ones start at zero |
| IndexParametersModel.IndexParameters.FinalizeParameters | pandaapp/src/indexify/indexParameters.cxx:56-66 | the counts across and down are the truncated quotients, the maximum is their product, the used width follows from the count across and fits the page whenever the page is at least as wide as the leading space |
| ColladaAccessorModel.ColladaAccessor.constructor | panda/src/collada/colladaAccessor.cxx:24-27 | a new accessor starts cleared |
| ColladaAccessorModel.ColladaAccessor.Clear | panda/src/collada/colladaAccessor.cxx:34-42 | clearing sets count 0, offset 0, an empty source, stride 1 and no params |
| ColladaAccessorModel.Load | panda/src/collada/colladaAccessor.cxx:49-94 | loading fails, changing nothing, exactly when the element or its count is missing; otherwise the count is taken, offset defaults to 0 and stride to 1, an absent source keeps the old one, the params are appended in order and the stride ends at least the number of params |
| ColladaAccessorModel.ColladaAccessor.LoadXml | panda/src/collada/colladaAccessor.cxx:49-94 | the result and the new settings are those of Load on the old settings |
| ColladaAccessorModel.RaiseStride | panda/src/collada/colladaAccessor.cxx:87-91 | the stride after the fix-up covers the params and the old stride, and is one of the two |
| ColladaAccessorModel.NegativeStrideKept | panda/src/collada/colladaAccessor.cxx:87-91 | with the unsigned comparison as written, a stride of -1 over one param stays -1; the fix-up raises it to 1 |
| ColladaAccessorModel.SaveLoadRoundTrip | panda/src/collada/colladaAccessor.cxx:102-126 | saving the settings and loading them into a cleared accessor gives the same settings back, empty names and semantics included |
| ColladaAccessorModel.BoundUpToIndices | panda/src/collada/colladaAccessor.cxx:149-158 | the bound indices are exactly the named params, each once, in increasing order |
| ColladaAccessorModel.ColladaAccessor.NumBoundParams | panda/src/collada/colladaAccessor.cxx:149-158 | the count is the number of named params, and equals the leading run exactly when no named param follows an unnamed one |
| ColladaAccessorModel.BoundScanIsLeadingRun | panda/src/collada/colladaAccessor.cxx:149-158 | the loop as written, testing the param at the counter instead of the iteration, keeps the counter at min(iteration, leading run) and so returns the length of the leading run of named params |
| ColladaAccessorModel.NumBoundParamsAsWrittenIsLeadingRun | panda/src/collada/colladaAccessor.cxx:149-158 | get_num_bound_params as written returns the leading run of named params |
| ColladaAccessorModel.LeadingRunVsBound | panda/src/collada/colladaAccessor.cxx:149-158 | the leading run never exceeds the number of named params, and equals it exactly when named params all come first |
| ColladaAccessorModel.LeadingRun | panda/src/collada/colladaAccessor.cxx:149-158 | the params before the result are named and the one at the result, if any, is not |
| ColladaAccessorModel.Record | panda/src/collada/colladaAccessor.cxx:178-188 | component k of a record's vector is its k-th bound value, read from the record's start plus that param's index; the components past the bound ones keep (0, 0, 0, 1) |
| ColladaAccessorModel.RecordStep | panda/src/collada/colladaAccessor.cxx:183-187 | reading an unnamed param changes neither the vector nor whether the record fits; reading a named one needs its value inside the array and fills the next free component |
| ColladaAccessorModel.ColladaAccessor.ReadRecord | panda/src/collada/colladaAccessor.cxx:179-187 | the record is reported to fit exactly when all its bound values lie in the array, and then the vector read is Record |
| ColladaAccessorModel.ColladaAccessor.GetValues | panda/src/collada/colladaAccessor.cxx:169-192 | a missing or non-float array is refused, exactly then, and leaves the vectors untouched; otherwise there is one vector per record, record a starting at offset + a * stride, or, when a record reaches outside the array, the records before it and nothing more |
| ColladaAccessorModel.Records | panda/src/collada/colladaAccessor.cxx:177-190 | there are n vectors and vector a is the record starting at offset + a * stride |
| ColladaAccessorModel.AsWrittenAgreesWhenNamedFirst | panda/src/collada/colladaAccessor.cxx:178-188 | when no named param follows an unnamed one, the record read as written equals the corrected one |
| ColladaAccessorModel.UnnamedFirstParam | panda/src/collada/colladaAccessor.cxx:149-158 | for an unnamed param followed by a named one, get_num_bound_params as written gives 0 where 1 param is bound, and get_values as written keeps (0, 0, 0, 1) where the first component should be the named param's value |
| ColladaProfileModel.StringProfile | panda/src/collada/colladaProfile.cxx:59-75 | each named profile is returned exactly when the string spells its name, ignoring case and '-' versus '_'; COMMON is returned for its own name and for every string that spells none of the names |
| ColladaProfileModel.NamesExclusive | panda/src/collada/colladaProfile.cxx:59-75 | no string spells two of the names, so the order of the tests does not matter |
| ColladaProfileModel.LowerCaseNames | panda/src/collada/colladaProfile.cxx:59-75 | the lower-case spellings read as the same six profiles |
| ColladaProfileModel.SameNameRespected | panda/src/collada/colladaProfile.cxx:104-109 | two words that compare equal read as the same profile |
| ColladaProfileModel.ProfileName | panda/src/collada/colladaProfile.cxx:82-98 | with a case for every profile, the printed name is non-empty and reads back as the same profile |
| ColladaProfileModel.ProfileNamesDistinct | panda/src/collada/colladaProfile.cxx:82-98 | distinct profiles print as names that do not compare equal |
| ColladaProfileModel.PrintReadAsWritten | panda/src/collada/colladaProfile.cxx:82-109 | as written, printing and reading back gives every profile but CG, which prints nothing and reads back as COMMON |
| ColladaProfileModel.ElementName | panda/src/collada/colladaProfile.cxx:42-50 | the saved element name is "profile_" followed by a name that reads as the profile |
| ColladaProfileModel.SaveLoad | panda/src/collada/colladaProfile.cxx:24-34 | loading requires a name starting with "profile_" whose rest reads as this profile: a profile loads from its own saved element and from no other profile's |
| ColladaProfileModel.CgSaveLoadAsWritten | panda/src/collada/colladaProfile.cxx:24-50 | as written, the element saved for CG does not load back, while every other profile's does |
| EffectPoolModel.EffectPool.constructor | panda/src/pgraph/effectPool.cxx:227-233 | the global pool is created empty |
| EffectPoolModel.EffectPool.HasEffect | panda/src/pgraph/effectPool.cxx:27-38 | the answer is true exactly when the filename is in the table with a non-null entry |
| EffectPoolModel.Node | panda/src/pgraph/effectPool.cxx:57-78 | the stored node is null exactly when the loader found nothing, and otherwise carries the filename as its full path |
| EffectPoolModel.LoadResult | panda/src/pgraph/effectPool.cxx:45-96 | after a load the filename is in the table with the returned entry; a cached entry, even a null one, is returned with the table untouched; otherwise the new node is returned; no other filename's entry changes |
| EffectPoolModel.EffectPool.LoadEffect | panda/src/pgraph/effectPool.cxx:45-96 | the new table and the returned entry are those of Load on the old table |
| EffectPoolModel.LoadAgain | panda/src/pgraph/effectPool.cxx:47-55 | loading a filename a second time returns the same entry and changes nothing, whatever the loader would produce |
| EffectPoolModel.Settle | panda/src/pgraph/effectPool.cxx:80-95 | the filename ends up in the table with the returned entry; an entry already there is kept, otherwise the node is stored |
| EffectPoolModel.EffectPool.InsertLoaded | panda/src/pgraph/effectPool.cxx:80-95 | the new table and the returned entry are those of Settle on the old table |
| EffectPoolModel.EarlierEntryWins | panda/src/pgraph/effectPool.cxx:80-93 | an entry stored for the filename while the loader ran is kept and returned instead of the loaded node |
| EffectPoolModel.EffectPool.AddEffect | panda/src/pgraph/effectPool.cxx:104-109 | the filename's entry becomes the given effect, replacing any earlier one |
| EffectPoolModel.EffectPool.AddEffectByPath | panda/src/pgraph/effectPool.cxx:131-136 | the effect is stored under its own full path, replacing any earlier entry |
| EffectPoolModel.AddThenHas | panda/src/pgraph/effectPool.cxx:104-109 | after adding an effect the filename has it, and has_effect is unchanged for every other filename |
| EffectPoolModel.EffectPool.ReleaseEffect | panda/src/pgraph/effectPool.cxx:116-124 | the filename's entry is removed, if there is one |
| EffectPoolModel.EffectPool.ReleaseEffectByPath | panda/src/pgraph/effectPool.cxx:143-151 | the entry under the effect's full path is removed, if there is one |
| EffectPoolModel.ReleaseOnlyItsKey | panda/src/pgraph/effectPool.cxx:116-124 | release removes only its filename, keeps every other entry, and changes nothing when the filename is absent |
| EffectPoolModel.EffectPool.ReleaseAllEffects | panda/src/pgraph/effectPool.cxx:158-162 | the table becomes empty |
| EffectPoolModel.Released | panda/src/pgraph/effectPool.cxx:177-189 | the filenames released are exactly those whose entry is null or whose effect only the pool refers to |
| EffectPoolModel.Collect | panda/src/pgraph/effectPool.cxx:169-193 | the collected table keeps, unchanged, exactly the entries not released |
| EffectPoolModel.CollectStep | panda/src/pgraph/effectPool.cxx:177-189 | handling one more entry either counts it as released or copies it into the new table |
| EffectPoolModel.EffectPool.GarbageCollect | panda/src/pgraph/effectPool.cxx:169-193 | the table becomes Collect of the old one and the count returned is the number of entries released, so it and the new size add up to the old size |
| EffectPoolModel.CollectCount | panda/src/pgraph/effectPool.cxx:169-193 | the kept and the released entries together account for the whole table |
| EffectPoolModel.CollectIdempotent | panda/src/pgraph/effectPool.cxx:169-193 | a second collection releases nothing and leaves the table as it is |
| EffectPoolModel.CollectKeepsLive | panda/src/pgraph/effectPool.cxx:169-193 | after collection a filename has its effect exactly when it had one whose reference count was not 1 |
| NavMeshAttribModel.NavMeshAttrib.constructor | panda/src/navigation/navMeshAttrib.cxx:32-38 | the attribute holds the given flag and area |
| NavMeshAttribModel.Make | panda/src/navigation/navMeshAttrib.cxx:47-51 | a new attribute that is on, with the given area |
| NavMeshAttribModel.MakeOff | panda/src/navigation/navMeshAttrib.cxx:60-65 | a new attribute that is off, with area 0 |
| NavMeshAttribModel.MakeDefault | panda/src/navigation/navMeshAttrib.cxx:74-77 | a new attribute that is on, with the default area 63 |
| NavMeshAttribModel.NavMeshAttrib.SetArea | panda/src/navigation/navMeshAttrib.cxx:85-90 | a new attribute equal to this one except for its area |
| NavMeshAttribModel.CompareAsWrittenNonNegative | panda/src/navigation/navMeshAttrib.cxx:157-179 | as written, attributes with the same off flag never compare negative |
| NavMeshAttribModel.CompareAsWrittenNotAntisymmetric | panda/src/navigation/navMeshAttrib.cxx:157-179 | as written, area 2 compares equal to area 1 although they differ, while area 1 against area 2 gives 1 |
| NavMeshAttribModel.Compare | panda/src/navigation/navMeshAttrib.cxx:157-179 | the corrected comparison is zero exactly for equal attributes, lies between -1 and 1, and agrees with the code when the off flags differ |
| NavMeshAttribModel.CompareAntisymmetric | panda/src/navigation/navMeshAttrib.cxx:157-179 | swapping the attributes flips the sign of the corrected comparison |
| NavMeshAttribModel.CompareTransitive | panda/src/navigation/navMeshAttrib.cxx:157-179 | the corrected comparison is transitive |
| NavMeshAttribModel.CompareOrder | panda/src/navigation/navMeshAttrib.cxx:157-179 | the corrected comparison puts attributes that are on before those that are off, then smaller areas first |
| NavMeshAttribModel.NavMeshAttrib.WriteDatagram | panda/src/navigation/navMeshAttrib.cxx:198-207 | the datagram gains the off flag as a byte 0 or 1 and then the area as an unsigned byte |
| NavMeshAttribModel.NavMeshAttrib.Fillin | panda/src/navigation/navMeshAttrib.cxx:236-242 | the flag and area are those read from the iterator's position, and the position advances past them |
| NavMeshAttribModel.MakeFromBam | panda/src/navigation/navMeshAttrib.cxx:217-227 | a new attribute whose flag and area are read from the datagram |
| NavMeshAttribModel.Decode | panda/src/navigation/navMeshAttrib.cxx:236-242 | with two bytes left, the flag is true exactly for a non-zero first byte and the area is the second byte |
| NavMeshAttribModel.WriteFillinRoundTrip | panda/src/navigation/navMeshAttrib.cxx:198-242 | writing then reading, anywhere in a datagram, gives back the flag and the area modulo 256, and so the attribute itself for an area from 0 to 255 |
| NavMeshAttribModel.LargeAreaTruncated | panda/src/navigation/navMeshAttrib.cxx:205-206 | an area of 256 is read back as 0 |
| GridParentModel.Acquire | direct/src/distributed/GridParent.py:15-27 | the cell gets a node, created with the next free id on first use and reused afterwards, and one more reference; every other cell is unchanged |
| GridParentModel.Release | direct/src/distributed/GridParent.py:29-35 | releasing an uncounted cell is a KeyError; the last reference removes the cell from both dictionaries and hands back its node for removal; otherwise the count drops by one |
| GridParentModel.AcquireReleaseConsistent | direct/src/distributed/GridParent.py:15-35 | both operations keep the dictionaries on the same keys with positive counts and allocated nodes |
| GridParentModel.AcquireReleaseFresh | direct/src/distributed/GridParent.py:15-35 | acquiring a new cell and releasing it again restores both dictionaries and removes the node just made |
| GridParentModel.AcquireReleaseShared | direct/src/distributed/GridParent.py:15-35 | acquiring and releasing a cell that is already referenced leaves the tables unchanged and removes no node |
| GridParentModel.SameCellNoNodeOps | direct/src/distributed/GridParent.py:15-35 | re-entering a referenced cell attaches no node and its release removes none |
| GridParentModel.FreshCellNodeOps | direct/src/distributed/GridParent.py:15-35 | the node attached for a fresh cell is the one its only reference removes on release |
| GridParentModel.Move | direct/src/distributed/GridParent.py:77-90 | a move takes the new cell's reference before giving back the old one, keeps the tables consistent, and moving to the cell already held changes nothing |
| GridParentModel.MoveBetweenCells | direct/src/distributed/GridParent.py:77-90 | moving between two different cells adds one reference to the new cell and removes one from the old |
| GridParentModel.CellOrigins.constructor | direct/src/distributed/GridParent.py:11-13 | the shared dictionaries start empty |
| GridParentModel.CellOrigins.NewNode | direct/src/distributed/GridParent.py:52 | a holder's own node takes the next free id and changes nothing else |
| GridParentModel.CellOrigins.GetCellOrigin | direct/src/distributed/GridParent.py:15-27 | the tables become Acquire of the old ones; a new cell's node is attached under the grid at the cell origin, an existing one records nothing |
| GridParentModel.CellOrigins.ReleaseCellOrigin | direct/src/distributed/GridParent.py:29-35 | the tables become Release of the old ones, or the call raises KeyError and changes nothing; the last reference removes the node |
| GridParentModel.GridParent.constructor | direct/src/distributed/GridParent.py:37-54 | the holder keeps its child, has no grid or zone yet, and its own new node is its cell origin |
| GridParentModel.GridParent.SetGridCell | direct/src/distributed/GridParent.py:72-91 | the new cell's reference is taken first; with a child, the child is moved under the new cell origin, the old cell is released and the new one recorded, and the scene log gains the new cell's attach when the cell is new, then the child's move (keeping its world transform when it had a parent), then the removal of the old cell's node when that was its last reference; without a child the call fails after taking the reference, logging only that attach |
| GridParentModel.GridParent.ReleaseAndRecord | direct/src/distributed/GridParent.py:84-90 | the old cell, if any, is released, logging the removal of its node when that was its last reference, and the new cell and its node are recorded |
| GridParentModel.GridParent.MoveChild | direct/src/distributed/GridParent.py:78-82 | a child with a parent is moved keeping its world transform, one without is simply reparented |
| GridParentModel.GridParent.Delete | direct/src/distributed/GridParent.py:56-70 | the scene log gains, in order, the child's detach only if it hangs under the current cell origin, the removal of the holder's own node, and the removal of the held cell's node when this was its last reference; the held cell is released exactly once |
| GridParentModel.GridParent.DropChild | direct/src/distributed/GridParent.py:56-65 | the child is forgotten and detached only when it hangs under the current cell origin; the holder's own node, if any, is removed and forgotten; the scene log gains exactly those calls |
| GridParentModel.GridParent.ReleaseHeld | direct/src/distributed/GridParent.py:67-70 | a held cell is released once, so the tables become Release of the old ones, which cannot fail for a consistent holder, and its node is removed when that was the last reference; grid and zone are cleared; with no cell held nothing changes |
| GridChildModel.GridChild.constructor | direct/src/distributed/GridChild.py:9-18 | a new grid child has no grid parent, grid interest disabled and no open grid interest |
| GridChildModel.GridChild.GetGridAsWritten | direct/src/distributed/GridChild.py:55-59 | as written the call fails whenever there is a grid parent, since GridParent defines no getGrid, and gives None otherwise |
| GridChildModel.GridChild.GetGrid | direct/src/distributed/GridChild.py:55-59 | the grid is None exactly off the grid, and otherwise the grid parent's grid |
| GridChildModel.GridChild.GetGridZoneAsWritten | direct/src/distributed/GridChild.py:61-65 | as written the call fails whenever there is a grid parent, and gives None otherwise |
| GridChildModel.GridChild.GetGridZone | direct/src/distributed/GridChild.py:61-65 | the zone is None exactly off the grid, and otherwise the grid parent's zone |
| GridChildModel.GridChild.SetGridParent | direct/src/distributed/GridChild.py:67-72 | the old grid parent is deleted only when it is replaced by a different one, releasing its cell and leaving the child detached if it hung under the cell origin; the new one is recorded |
| GridChildModel.GridChild.ClearGridInterestAsWritten | direct/src/distributed/GridChild.py:93-97 | as written an open grid interest (a recorded nonzero handle, since Python reads handle 0 as false) makes the call fail on the misspelt attribute, and nothing is removed or forgotten; otherwise the call finishes |
| GridChildModel.GridChild.ClearGridInterest | direct/src/distributed/GridChild.py:93-97 | an open grid interest (a nonzero handle) is removed and forgotten; with none, or with handle 0 recorded, nothing is requested and the record stays |
| GridChildModel.GridChild.SetGridInterest | direct/src/distributed/GridChild.py:75-91 | during logout nothing changes; otherwise an open interest (a nonzero handle) is altered to the new cell, or, with none or handle 0 recorded, a tagged interest is added there and its handle recorded |
| GridChildModel.GridChild.EnableGridInterest | direct/src/distributed/GridChild.py:45-50 | corrected: the flag is set; disabling closes an open grid interest (a nonzero handle) and leaves a recorded handle 0 as it is; enabling requests nothing |
| GridChildModel.GridChild.SetGridCell | direct/src/distributed/GridChild.py:25-43 | corrected: with no grid the object leaves the grid, the held cell origin is released and the child's scene parent is what the grid parent left it (none once detached from the cell origin), and an open interest (a nonzero handle) is closed; with a grid it gets a grid parent on that cell, the shared tables change as MoveToCell states, and the interest follows it when grid interest is enabled and new interests are allowed, a recorded handle 0 being replaced by a new tagged interest |
| GridChildModel.GridChild.MoveToCell | direct/src/distributed/GridChild.py:31-36 | a grid parent is made on first use (taking one node id), kept afterwards, and moved to the grid and zone: the shared tables become Move of the old ones, acquiring the new cell's origin before releasing the old cell's; the child hangs under the new cell origin, and the object's own scene parent is unchanged |
| GridChildModel.GridChild.Delete | direct/src/distributed/GridChild.py:20-23 | corrected: the object leaves the grid, releasing the held cell origin exactly once (tables unchanged off the grid) and leaving the child's scene parent as the grid parent's delete left it; grid interest is disabled, an open grid interest (a nonzero handle) is removed, and a recorded handle 0 stays |
| CartesianGridAI.ChildArrive | direct/src/distributed/DistributedCartesianGridAI.py:46-63 | a child joins the cell exactly when the zone is at least startingZone, and otherwise leaves the grid |
| CartesianGridAI.ArriveBeyondGrid | direct/src/distributed/DistributedCartesianGridAI.py:49-50 | there is no upper bound: a zone past the last grid zone still joins a cell |
| CartesianGridAI.ChangeZone | direct/src/distributed/DistributedCartesianGridAI.py:153-161 | the zone is the explicit cell when one is given, and otherwise the zone of the grid-relative position |
| CartesianGridAI.CellChange | direct/src/distributed/DistributedCartesianGridAI.py:151-170 | at most one broadcast, made exactly when the zone is valid for the grid's style, to the grid and that zone |
| CartesianGridAI.ExplicitCellOverridesPosition | direct/src/distributed/DistributedCartesianGridAI.py:157-161 | with an explicit cell the outcome does not depend on the position, and a valid cell is broadcast as given |
| CartesianGridAI.TrackOne | direct/src/distributed/DistributedCartesianGridAI.py:134-144 | an object yields a broadcast only when its node is not empty and it has left its cell |
| CartesianGridAI.TrackKey | direct/src/distributed/DistributedCartesianGridAI.py:133-134 | a key that is not on the grid gives no events |
| CartesianGridAI.TrackAll | direct/src/distributed/DistributedCartesianGridAI.py:133-144 | at most one event per object visited |
| CartesianGridAI.TrackAllOnlyMovers | direct/src/distributed/DistributedCartesianGridAI.py:133-144 | every event of the grid task is a broadcast for a present, non-empty object out of its cell, to a valid zone computed from its grid position |
| CartesianGridAI.TrackAllEveryMover | direct/src/distributed/DistributedCartesianGridAI.py:133-144 | every present, non-empty object that left its cell for a valid zone is broadcast |
| CartesianGridAI.Pruned | direct/src/distributed/DistributedCartesianGridAI.py:136-139 | after visiting some keys, exactly the visited empty objects are gone and the others are unchanged |
| CartesianGridAI.PrunedAll | direct/src/distributed/DistributedCartesianGridAI.py:133-139 | after a full pass exactly the objects whose node is not empty remain |
| CartesianGridAI.VisitStep | direct/src/distributed/DistributedCartesianGridAI.py:133-144 | one loop step extends the pruned table and the event list by that object's share |
| CartesianGridAI.GridAI.constructor | direct/src/distributed/DistributedCartesianGridAI.py:14-25 | a new grid tracks no objects and has no task running |
| CartesianGridAI.GridAI.HandleChildArrive | direct/src/distributed/DistributedCartesianGridAI.py:46-63 | records the arrival decision of ChildArrive |
| CartesianGridAI.GridAI.HandleChildLeave | direct/src/distributed/DistributedCartesianGridAI.py:65-68 | the child leaves the grid |
| CartesianGridAI.GridAI.ParentObjectToArea | direct/src/distributed/DistributedCartesianGridAI.py:70-82 | the child is reparented and joins the zone of its position with no validity check; that zone is returned |
| CartesianGridAI.GridAI.HandleChildCellChange | direct/src/distributed/DistributedCartesianGridAI.py:151-170 | broadcasts exactly when the zone is valid, as CellChange says |
| CartesianGridAI.GridAI.StopUpdateGridTask | direct/src/distributed/DistributedCartesianGridAI.py:126-128 | the grid task is removed and marked stopped |
| CartesianGridAI.GridAI.StartUpdateGridTask | direct/src/distributed/DistributedCartesianGridAI.py:121-124 | any running task is removed before one is scheduled |
| CartesianGridAI.GridAI.AddObjectToGrid | direct/src/distributed/DistributedCartesianGridAI.py:85-95 | the object is tracked and placed; the grid task is started only when it is not running and auto-update is asked for |
| CartesianGridAI.GridAI.RemoveObjectFromGrid | direct/src/distributed/DistributedCartesianGridAI.py:97-107 | the object is forgotten; the grid task stops exactly when no objects remain |
| CartesianGridAI.GridAI.Delete | direct/src/distributed/DistributedCartesianGridAI.py:27-29 | the update task is stopped and nothing else changes |
| CartesianGridAI.GridAI.VisitObject | direct/src/distributed/DistributedCartesianGridAI.py:134-144 | an empty object is dropped; otherwise it is re-zoned when out of its cell |
| CartesianGridAI.GridAI.UpdateGridTask | direct/src/distributed/DistributedCartesianGridAI.py:130-149 | run from the grid task, every object is visited: the table becomes Pruned and the events TrackAll over the iteration order, followed by the stray debugger break; run without a task, AttributeError is raised exactly when some object is empty, the table is unchanged (the empty object is not deleted) and the events are those of the objects before the first empty one |
| CartesianGridAI.GridAI.VisitNext | direct/src/distributed/DistributedCartesianGridAI.py:133-144 | one pass of the loop extends the pruned table and the event list of the whole pass by one key |
| CartesianGridAI.StopAtMeaning | direct/src/distributed/DistributedCartesianGridAI.py:133-138 | a pass without a task gets past exactly the objects before the first empty one, and stops on that one |
| CartesianGridAI.StopAtFirstEmpty | direct/src/distributed/DistributedCartesianGridAI.py:133-138 | a position with no empty object before it and an empty one (or the end) at it is where that pass stops |
| CartesianGridAI.PrunedBeforeStop | direct/src/distributed/DistributedCartesianGridAI.py:133-139 | up to where it stops, a pass without a task deletes nothing |
| CartesianGrid.StyleOf | direct/src/distributed/CartesianGridBase.py:50-56 | a style name is unrecognised exactly when it is neither "Cartesian" nor "CartesianStated" |
| CartesianGrid.IsValidZone | direct/src/distributed/CartesianGridBase.py:48-60 | under "Cartesian" a zone is valid iff it is a grid zone in [startingZone, startingZone + gridSize²); an unrecognised style accepts nothing |
| CartesianGrid.StatedZonesAreOneRange | direct/src/distributed/CartesianGridBase.py:52-54 | under "CartesianStated" the valid zones are exactly [0, startingZone + gridSize²) |
| CartesianGrid.ColOf | direct/src/distributed/CartesianGridBase.py:99-101 | the column of a zone always lies in [0, gridSize) |
| CartesianGrid.CoordinatesOfZoneAt | direct/src/distributed/CartesianGridBase.py:70 | a row and an in-range column give a zone whose row and column they are |
| CartesianGrid.ZoneAtOfCoordinates | direct/src/distributed/CartesianGridBase.py:99-101 | every zone is the zone of its own row and column |
| CartesianGrid.GridZoneCoordinates | direct/src/distributed/CartesianGridBase.py:59-60 | a zone is a grid zone iff its row lies in [0, gridSize) |
| CartesianGrid.ZoneFromXYZ | direct/src/distributed/CartesianGridBase.py:62-75 | the zone's column and row are the cells whose width-intervals hold the shifted x and y, and its id is made from them with no bounds check |
| CartesianGrid.ZoneCellOrigin | direct/src/distributed/CartesianGridBase.py:97-105 | the origin is the lower-left corner of the zone's column and row, shifted by center, at height 0 |
| CartesianGrid.ZoneCellOriginCenter | direct/src/distributed/CartesianGridBase.py:107-112 | the centre lies half a cell past the origin on x and y |
| CartesianGrid.CellOfInnerPoint | direct/src/distributed/CartesianGridBase.py:62-70 | a position inside the grid gets a row and column inside the grid |
| CartesianGrid.ZoneFromXYZBrackets | direct/src/distributed/CartesianGridBase.py:62-75 | a position lies between its zone's cell origin and that origin plus one cell width |
| CartesianGrid.CellContainsPosition | direct/src/distributed/CartesianGridBase.py:62-75 | a position inside the grid gets a grid zone whose cell contains it |
| CartesianGrid.CenterRoundTrip | direct/src/distributed/CartesianGridBase.py:62-75 | the zone of the centre of every grid zone's cell is that zone again |
| CartesianGrid.ZoneWrapsIntoNextRow | direct/src/distributed/CartesianGridBase.py:64-70 | a point just past the right edge of row 0 gets the first zone of row 1, a valid-looking grid zone |
| CartesianGrid.GridSizeFromSphereRadius | direct/src/distributed/CartesianGridBase.py:77-83 | the size is even, and half of it is the number of whole cells in the larger of the sphere radius and gridRadius cells |
| CartesianGrid.GridSizeCoversGridRadius | direct/src/distributed/CartesianGridBase.py:78-83 | the size is at least twice gridRadius |
| CartesianGrid.GridSizeFromSphere | direct/src/distributed/CartesianGridBase.py:85-95 | the size is at least 1; above 1 it is even and half of it is the number of whole cells in the given length |
| CartesianGrid.PossibleRowsMeaning | direct/src/distributed/CartesianGridBase.py:142-151 | a column lists exactly the row offsets at max-norm distance radius |
| CartesianGrid.ColumnZonesMeaning | direct/src/distributed/CartesianGridBase.py:141-155 | each column of the clipped square lists exactly the ring zones of that grid column, each once |
| CartesianGrid.RingPrefixMeaning | direct/src/distributed/CartesianGridBase.py:141-155 | the first n columns list, each once, exactly the ring zones lying in them |
| CartesianGrid.RingZoneColumns | direct/src/distributed/CartesianGridBase.py:133-134 | every ring zone lies between the clipped left and right columns |
| CartesianGrid.RingMeaning | direct/src/distributed/CartesianGridBase.py:124-157 | the ring lists every grid zone at max-norm distance radius from the zone, and no other, each once, clipped and not wrapped at the edges |
| CartesianGrid.RingOfRadiusZero | direct/src/distributed/CartesianGridBase.py:124-157 | the ring of radius 0 is the zone itself |
| CartesianGrid.AppendColumn | direct/src/distributed/CartesianGridBase.py:153-155 | the inner loop appends the zones of the listed rows of one column |
| CartesianGrid.ConcentricZones | direct/src/distributed/CartesianGridBase.py:124-157 | the loop produces exactly the specified ring, whose meaning RingMeaning gives |
| CartesianGrid.AppendColumns | direct/src/distributed/CartesianGridBase.py:141-155 | the outer loop visits every column from the clipped left edge to the clipped right edge |
| CartesianGrid.NatToString | direct/src/distributed/CartesianGridBase.py:39 | "%i" formatting of a natural number is a non-empty string of digits |
| CartesianGrid.IntToString | direct/src/distributed/CartesianGridBase.py:39 | a formatted integer contains no ':' separator |
| CartesianGrid.IntStringRoundTrip | direct/src/distributed/CartesianGridBase.py:32-34 | int() reads back every integer that "%i" formatted |
| CartesianGrid.Split | direct/src/distributed/CartesianGridBase.py:29 | splitting on ':' gives at least one field |
| CartesianGrid.SplitFormatRules | direct/src/distributed/CartesianGridBase.py:29-39 | a rule string from getParentingRules splits into its three formatted numbers |
| CartesianGrid.ParseIntSkipsSpace | direct/src/distributed/CartesianGridBase.py:31-34 | int() reads a number with white space around it and a leading '+' |
| CartesianGrid.FieldAt | direct/src/distributed/CartesianGridBase.py:31-34 | reading a field is an IndexError exactly when the rule has too few fields, a ValueError exactly when int() refuses the field, and otherwise gives int()'s value |
| CartesianGrid.ApplyParentingRules | direct/src/distributed/CartesianGridBase.py:28-36 | as written: the style is always stored; startingZone, then gridSize, then viewingRadius are stored while their fields read; it completes exactly when the first three fields read, recomputing center; an exception keeps what was stored and the old center; gridRadius is never written |
| CartesianGrid.SplitFormatRulesRest | direct/src/distributed/CartesianGridBase.py:29-39 | a rule string from getParentingRules followed by more fields splits into its three numbers and the rest |
| CartesianGrid.SameFirstFields | direct/src/distributed/CartesianGridBase.py:29-34 | only the first three fields matter: rules that agree on them are applied alike |
| CartesianGrid.ExtraFieldsIgnored | direct/src/distributed/CartesianGridBase.py:29-34 | "a:b:c:rest" is applied exactly as "a:b:c" |
| CartesianGrid.ShortRuleStopsAtMissingField | direct/src/distributed/CartesianGridBase.py:29-34 | a two-field rule stores the style, startingZone and gridSize and then raises IndexError |
| CartesianGrid.BadFieldKeepsEarlier | direct/src/distributed/CartesianGridBase.py:29-33 | a second field int() refuses raises ValueError after the style and startingZone are stored |
| CartesianGrid.ApplyFormattedRules | direct/src/distributed/CartesianGridBase.py:28-40 | a rule string that getParentingRules produced is accepted and its first two numbers are read back |
| CartesianGrid.FormatRulesInjective | direct/src/distributed/CartesianGridBase.py:39 | rule strings with different radii differ |
| CartesianGrid.ParentingRulesLoseRadius | direct/src/distributed/CartesianGridBase.py:28-40 | setting a rule string whose radius differs from gridRadius does not read back |
| CartesianGrid.ApplyParentingRulesFixed | direct/src/distributed/CartesianGridBase.py:28-36 | corrected: it completes exactly when the as-written one does; then the third field is the grid radius and viewingRadius is untouched; an exception leaves gridRadius as it was |
| CartesianGrid.ParentingRulesRoundTripFixed | direct/src/distributed/CartesianGridBase.py:28-40 | corrected: every rule string from getParentingRules reads back unchanged |
| CartesianGrid.HandleChildArrive | direct/src/distributed/CartesianGridBase.py:175-194 | a grid zone sets the child's cell; any other zone takes it off the grid |
| CartesianGrid.ParentObjectToArea | direct/src/distributed/CartesianGridBase.py:159-173 | the child is reparented; the zone of its position is set and returned iff it is a grid zone, and 0 is returned otherwise |
| CartesianGrid.ManageChildStep | direct/src/distributed/CartesianGridBase.py:244-264 | a child inside its cell is left alone unless this is setup; otherwise a grid zone sets the cell and broadcasts, and any other zone ends in the NameError of the warning |
| CartesianGrid.GridBase.constructor | direct/src/distributed/CartesianGridBase.py:7-18 | the settings are stored, center is gridSize·cellWidth/2, and nothing is managed |
| CartesianGrid.GridBase.SetParentingRules | direct/src/distributed/CartesianGridBase.py:28-36 | the new settings are those ApplyParentingRules gives, the partial update before an exception included, and the exception raised is returned; gridRadius, the children, the management task and the events are untouched |
| CartesianGrid.GridBase.SetCellWidth | direct/src/distributed/CartesianGridBase.py:45-46 | the width changes and center is not recomputed |
| CartesianGrid.GridBase.StopManagementTask | direct/src/distributed/CartesianGridBase.py:267-271 | no management task remains |
| CartesianGrid.GridBase.StartManagementTask | direct/src/distributed/CartesianGridBase.py:220-230 | the grid task is replaced by one that is periodic iff the period is non-zero |
| CartesianGrid.GridBase.ManageChild | direct/src/distributed/CartesianGridBase.py:196-209 | the child is tracked and placed at once; the grid task is started only if none runs and the placement did not raise |
| CartesianGrid.GridBase.IgnoreChild | direct/src/distributed/CartesianGridBase.py:211-218 | the child is no longer tracked; the grid task stops exactly when nothing is tracked |
| CartesianGrid.GridBase.Manage | direct/src/distributed/CartesianGridBase.py:232-242 | earlier calls are kept; on a complete pass every recorded call belongs to a tracked child, and every tracked child that left its cell has been re-celled and re-located |
| InterestMessages.Insert | direct/src/distributed/DoInterestManager.py:442-443 | inserting lengthens the list by one |
| InterestMessages.InsertPermutes | direct/src/distributed/DoInterestManager.py:442-443 | inserting adds exactly one occurrence of the value |
| InterestMessages.InsertSorted | direct/src/distributed/DoInterestManager.py:442-443 | inserting into a sorted list keeps it sorted |
| InterestMessages.SortZones | direct/src/distributed/DoInterestManager.py:442-443 | list.sort() gives an ascending list of the same length |
| InterestMessages.SortZonesPermutes | direct/src/distributed/DoInterestManager.py:442-443 | sorting keeps every occurrence: the result is a permutation of the input |
| InterestMessages.DropRepeats | direct/src/distributed/DoInterestManager.py:444 | dropping repeats of a sorted list gives a strictly ascending list of the same elements |
| InterestMessages.SentZones | direct/src/distributed/DoInterestManager.py:441-448 | as written the zones go out sorted with every occurrence kept; a single zone goes out alone |
| InterestMessages.UniqueSentZones | direct/src/distributed/DoInterestManager.py:441-448 | corrected: each requested zone once, ascending; a single zone goes out alone |
| InterestMessages.ToU32 | direct/src/distributed/DoInterestManager.py:445-446 | each zone becomes one 32-bit field, in order |
| InterestMessages.AddInterestMessage | direct/src/distributed/DoInterestManager.py:417-449 | corrected: parent 0 is refused, and only it; otherwise the request is type, handle, scope and parent, then each requested zone once in ascending order |
| InterestMessages.RemoveInterestMessage | direct/src/distributed/DoInterestManager.py:451-465 | type and handle, followed by the scope exactly when it is not NO_SCOPE |
| InterestMessages.AddInterestKeepsRepeatedZones | direct/src/distributed/DoInterestManager.py:441-446 | as written the list [2, 5, 5, 2] goes out as 2, 2, 5, 5 |
| InterestMessages.UniqueZonesDropRepeats | direct/src/distributed/DoInterestManager.py:441-446 | corrected: the same list goes out as 2, 5 |
| ReentrantFsm.Rfsm.constructor | direct/src/distributed/DoInterestManager.py:25-28 | a new machine is in its initial state with nothing queued |
| ReentrantFsm.Rfsm.CallAfterTrans | direct/src/distributed/DoInterestManager.py:31-35 | during a transition the call is queued; otherwise it runs at once; the state is unchanged |
| ReentrantFsm.Rfsm.Cleanup | direct/src/distributed/DoInterestManager.py:29-30 | the machine's cleanup is deferred past a transition exactly like any other call |
| ReentrantFsm.Rfsm.SetStateCompleted | direct/src/distributed/DoInterestManager.py:36-39 | every queued call runs once in queue order, and the queue empties |
| ReentrantFsm.QueuedCallRunsAfterTransition | direct/src/distributed/DoInterestManager.py:31-39 | a call made during a transition has run, alone, once the transition completes |
| InterestFsm.OpenCompletion | direct/src/distributed/DoInterestManager.py:58-63 | an opening machine enters PendingComplete iff the scope is not NO_SCOPE, and Complete otherwise, both allowed from Off |
| InterestFsm.CompletionTarget | direct/src/distributed/DoInterestManager.py:93-101 | PendingChildren iff there are children, else PendingHold iff a hold is active, else Complete |
| InterestFsm.ClearEvent | direct/src/distributed/DoInterestManager.py:233-236 | the event and scope are cleared and nothing else changes |
| InterestFsm.SendCompleteEventEvolves | direct/src/distributed/DoInterestManager.py:225-239 | a completion cascade only completes machines and consumes events, and the event log only grows |
| InterestFsm.MaybeCompleteEvolves | direct/src/distributed/DoInterestManager.py:93-103 | re-evaluating completion only completes machines and consumes events, and the event log only grows |
| InterestFsm.SendCompleteEventSendsOnce | direct/src/distributed/DoInterestManager.py:225-239 | an interest holding an event has it appended to the log, and afterwards holds neither event nor scope |
| InterestFsm.SendsOnceIfEvent | direct/src/distributed/DoInterestManager.py:233-237 | the event is sent exactly when the interest holds one |
| InterestFsm.ListedChildHoldsParent | direct/src/distributed/DoInterestManager.py:93-103 | a parent that still lists a child waits in PendingChildren on re-evaluation, or raises when already Complete |
| InterestFsm.EnterActive | direct/src/distributed/DoInterestManager.py:194-205 | the interest takes its fields, joins its parent's children set (an Active parent's, or the one a Broken parent kept) and opens its completion machine; a parent without a children set raises, leaving the interest Broken with the new description, parent, scope and event already assigned and no children set; a raise from the opening cascade leaves it Broken too |
| InterestFsm.JoinParent | direct/src/distributed/DoInterestManager.py:179-182 | the child joins the parent's children set and nothing else changes |
| InterestFsm.OpenMachine | direct/src/distributed/DoInterestManager.py:58-63 | a machine that opens waiting changes nothing; one that opens in Complete runs the cascade, which only completes and consumes |
| InterestFsm.ExitActive | direct/src/distributed/DoInterestManager.py:207-217 | the completion machine is dropped and the interest leaves its parent's children set and turns Off; a parent without a children set, or one that does not list it, raises exactly then, after the machine is dropped, leaving the interest Broken with its scope, event and children; no other interest changes |
| InterestFsm.InterestChange | direct/src/distributed/DoInterestManager.py:147-155 | from Closing or Broken the request is refused and nothing changes; otherwise the interest ends Active with the new configuration, by an allowed transition, or a raise on the way leaves it Broken |
| InterestFsm.InterestRemove | direct/src/distributed/DoInterestManager.py:160-164 | only an Active interest can close; with an event it waits in Closing for the scope, without one it goes straight to Off; when exitActive raises, the interest is left Broken and nothing else changes |
| InterestFsm.InterestComplete | direct/src/distributed/DoInterestManager.py:156-159 | an Off or Broken interest has no machine and raises; an ack for another scope is ignored; a matching ack re-evaluates an Active interest, and sends the event and closes a Closing one |
| InterestFsm.AddHold | direct/src/distributed/DoInterestManager.py:69-70 | only an Active interest counts one more hold |
| InterestFsm.RemoveHold | direct/src/distributed/DoInterestManager.py:71-76 | one hold fewer; completion is re-evaluated once no hold remains; an interest that is not Active raises |
| InterestFsm.HoldRoundTrip | direct/src/distributed/DoInterestManager.py:69-76 | a hold taken and released leaves the count where it was |
| InterestFsm.Created | direct/src/distributed/DoInterestManager.py:131-137 | a fresh interest is Off with no parent, under its handle |
| InterestFsm.Construct | direct/src/distributed/DoInterestManager.py:131-138 | a new object is added under its handle and asked to open; the other objects keep their handles |
| InterestFsm.AckThenRemoveScenario | direct/src/distributed/DoInterestManager.py:520-539 | with scope 23 and an event, the ack for 22 is ignored, the ack for 23 sends the event and keeps the interest Active, and a remove without an event closes it |
| InterestFsm.RemoveWithEventScenario | direct/src/distributed/DoInterestManager.py:541-557 | removed with scope 23 and an event, the interest waits in Closing without sending, and the ack for 23 sends the event and turns it Off |
| InterestFsm.ParentRemovedFirstScenario | direct/src/distributed/DoInterestManager.py:207-211 | a parent removed before its child: the child's removal raises and leaves it Broken, and the ack for its scope then raises, so its event is never sent |
| InterestManagerModel.MaskHandle | direct/src/distributed/DoInterestManager.py:381-390 | masking keeps a handle within 15 bits and leaves a 15-bit value unchanged |
| InterestManagerModel.MaskScope | direct/src/distributed/DoInterestManager.py:391-399 | masking keeps a scope id within 30 bits and leaves a 30-bit value unchanged |
| InterestManagerModel.Candidate | direct/src/distributed/DoInterestManager.py:383-384 | every handle tried is within 15 bits |
| InterestManagerModel.MaskHandleStep | direct/src/distributed/DoInterestManager.py:384 | masking after each step equals masking the running count |
| InterestManagerModel.EveryHandleReached | direct/src/distributed/DoInterestManager.py:383-388 | every handle is tried within one full turn of the counter, so a free handle is always found |
| InterestManagerModel.ConstructRegistered | direct/src/distributed/DoInterestManager.py:303-305 | constructing and registering a new interest keeps every open handle naming an object with that handle |
| InterestManagerModel.DoInterestManager.constructor | direct/src/distributed/DoInterestManager.py:273-289 | no interests, no holds, nothing sent; the counters start at 0 and 100 |
| InterestManagerModel.DoInterestManager.NextHandle | direct/src/distributed/DoInterestManager.py:381-390 | the first handle after the last one, modulo 2^15, that is not in use; only the counter changes |
| InterestManagerModel.DoInterestManager.NextScopeId | direct/src/distributed/DoInterestManager.py:391-399 | the last scope id plus one modulo 2^30, with NO_SCOPE skipped to 1; only the counter changes |
| InterestManagerModel.DoInterestManager.RequestScope | direct/src/distributed/DoInterestManager.py:299-302 | a fresh scope id exactly when there is an event, NO_SCOPE otherwise |
| InterestManagerModel.DoInterestManager.ParentObject | direct/src/distributed/DoInterestManager.py:303 | the parent is the interest of an open parent handle, and None otherwise |
| InterestManagerModel.DoInterestManager.OpenInterest | direct/src/distributed/DoInterestManager.py:304-305 | the new interest is registered under the handle unless its constructor raises, in which case the table is unchanged |
| InterestManagerModel.DoInterestManager.AddInterest | direct/src/distributed/DoInterestManager.py:291-308 | corrected: a fresh unused handle; a scope only with an event; the interest is registered and the add request, with each zone once, sent; parent id 0 raises after registration without a request |
| InterestManagerModel.DoInterestManager.AlterInterest | direct/src/distributed/DoInterestManager.py:347-375 | corrected: an unknown handle gives False and changes nothing; a Closing or Broken interest refuses and nothing changes; otherwise the interest re-opens and an add request, with each zone once, is sent, or a raise on the way leaves it Broken without a request |
| InterestManagerModel.DoInterestManager.HandleInterestDone | direct/src/distributed/DoInterestManager.py:377-379 | the done callback drops the handle; a missing handle raises |
| InterestManagerModel.DoInterestManager.RemoveInterest | direct/src/distributed/DoInterestManager.py:327-345 | an unknown handle gives False and changes nothing; without an event the handle is dropped at once, with one the interest waits in Closing for the new scope; the remove request is sent; when exitActive raises, the interest stays registered, Broken, and no request is sent |
| InterestManagerModel.DoInterestManager.HandleInterestDoneMessage | direct/src/distributed/DoInterestManager.py:467-482 | an unknown handle raises; an Off or Broken interest raises and nothing changes; the ack goes to the interest, and one that closes it drops its handle |
| InterestManagerModel.DoInterestManager.AddInterestHoldAsWritten | direct/src/distributed/DoInterestManager.py:310-317 | as written a hold id is drawn, then the call always raises and no hold is recorded |
| InterestManagerModel.DoInterestManager.AddInterestHold | direct/src/distributed/DoInterestManager.py:310-317 | corrected: a fresh hold id holds up an Active interest's completion and is recorded against its handle |
| InterestManagerModel.DoInterestManager.RemoveInterestHold | direct/src/distributed/DoInterestManager.py:319-325 | the hold id is forgotten and its interest counts one hold fewer; an unknown hold id raises |
| DistributedObjectOVModel.DelayDeleteCount | direct/src/distributed/DistributedObjectOV.py:77-82 | flag 1 counts one more holder, flag 0 one fewer, and any other flag is refused |
| DistributedObjectOVModel.HoldThenRelease | direct/src/distributed/DistributedObjectOV.py:77-80 | holding then letting go restores the counter |
| DistributedObjectOVModel.ObjectOV.constructor | direct/src/distributed/DistributedObjectOV.py:24-42 | a new object has no holders, no imminent delete and state ESNew |
| DistributedObjectOVModel.ObjectOV.SetState | direct/src/distributed/DistributedObjectOV.py:42 | the state is set and logged |
| DistributedObjectOVModel.ObjectOV.Disable | direct/src/distributed/DistributedObjectOV.py:133-139 | the object ends disabled; the state is set only when it was not disabled already |
| DistributedObjectOVModel.ObjectOV.DisableAndAnnounce | direct/src/distributed/DistributedObjectOV.py:108-121 | unless already disabled, the disable is announced while in ESDisabling and the object is then disabled; otherwise nothing happens |
| DistributedObjectOVModel.ObjectOV.Delete | direct/src/distributed/DistributedObjectOV.py:156-166 | the object is marked deleted; a second delete changes nothing |
| DistributedObjectOVModel.ObjectOV.DisableAnnounceAndDelete | direct/src/distributed/DistributedObjectOV.py:104-106 | the object ends disabled and deleted, announcing only when it was not disabled before |
| DistributedObjectOVModel.ObjectOV.DeleteOrDelay | direct/src/distributed/DistributedObjectOV.py:67-71 | while held only the imminent flag is set; otherwise the object is disabled, announced and deleted |
| DistributedObjectOVModel.ObjectOV.DelayDelete | direct/src/distributed/DistributedObjectOV.py:73-102 | a bad flag is refused with the counter unchanged; a count below zero is refused after it moved; the last release of an object whose delete is imminent deletes it; the count is returned |
| DistributedObjectOVModel.ObjectOV.AnnounceGenerate | direct/src/distributed/DistributedObjectOV.py:123-131 | the object ends generated, announcing only on the first call |
| DistributedObjectOVModel.ObjectOV.Generate | direct/src/distributed/DistributedObjectOV.py:168-182 | the object is generating |
| DistributedObjectOVModel.StateClasses | direct/src/distributed/DistributedObjectOV.py:141-154 | no state is both disabled and generated, and every state is one of them |
| DistributedObjectOVModel.DelayedDeleteScenario | direct/src/distributed/DistributedObjectOV.py:67-106 | a delete asked for while the object is held waits for the release, then happens once, announced once |
| DistributedObjectBaseModel.GetLocation | direct/src/distributed/DistributedObjectBase.py:34-43 | no location when parent and zone are both 0 or both 0xffffffff or either is missing; otherwise the pair |
| DistributedObjectBaseModel.NewObjectLocation | direct/src/distributed/DistributedObjectBase.py:34-43 | a fresh object's location is (None, None), not None |
| DistributedObjectBaseModel.GetParentObj | direct/src/distributed/DistributedObjectBase.py:91-94 | a missing attribute raises; no parent id gives None; otherwise the repository's object for it, if any |
| DistributedObjectBaseModel.FieldZones | direct/src/distributed/DistributedObjectBase.py:122-126 | every zone read is one of the first length/4 words of the field |
| DistributedObjectBaseModel.ReadZones | direct/src/distributed/DistributedObjectBase.py:122-126 | the unpacking loop reads exactly the field's zones |
| DistributedObjectBaseModel.BasesSpecMembers | direct/src/distributed/DistributedObjectBase.py:112-113 | a zone comes from the bases exactly when one of them has it |
| DistributedObjectBaseModel.AutoSpecMembers | direct/src/distributed/DistributedObjectBase.py:104-129 | a class with a stored set has that set; otherwise a zone is its exactly when a base or its own field has it |
| DistributedObjectBaseModel.AutoInterestCache.constructor | direct/src/distributed/DistributedObjectBase.py:107-108 | the cache starts with the sets declared in class bodies |
| DistributedObjectBaseModel.AutoInterestCache.Collect | direct/src/distributed/DistributedObjectBase.py:104-129 | corrected: the result is the class's inherited auto-interests, the repository being `cr`; the cache only grows, and stores the class when the DC file knows it |
| DistributedObjectBaseModel.AutoInterestCache.CollectBases | direct/src/distributed/DistributedObjectBase.py:112-113 | the loop gives the union of every base's auto-interests |
| DistributedObjectBaseModel.AutoInterestCache.GetAutoInterests | direct/src/distributed/DistributedObjectBase.py:99-138 | corrected: more than one auto-interest is an error; otherwise the class's auto-interests |
| DistributedObjectBaseModel.AutoInterestCache.GetAutoInterestsAsWritten | direct/src/distributed/DistributedObjectBase.py:99-138 | as written: on an object without an `air` attribute a class not yet cached raises AttributeError and nothing is cached; a cached class, or an object with `air`, gives what GetAutoInterests gives |
| TextureAttribModel.OpIndex | panda/src/pgraph/textureAttrib.cxx:232-234 | the operations are numbered 0 (set), 1 (add) and 2 (remove), as the comparison subtracts them |
| TextureAttribModel.Keys | panda/src/pgraph/textureAttrib.cxx:354-405 | the stage list rebuilt by a merge is the map's stages in map order |
| TextureAttribModel.FindBelow | panda/src/pgraph/textureAttrib.cxx:236-255 | a stage below the first key of a sorted map is not in it |
| TextureAttribModel.MakeAllOff | panda/src/pgraph/textureAttrib.cxx:65-70 | a set operation with no stages, which prints as "all off" |
| TextureAttribModel.OutputLabel | panda/src/pgraph/textureAttrib.cxx:181-196 | "all off" is printed exactly for a set with no stages |
| TextureAttribModel.CompareTo | panda/src/pgraph/textureAttrib.cxx:227-265 | the walk over both maps gives the ordering CompareSpec defines |
| TextureAttribModel.CompareEntriesZero | panda/src/pgraph/textureAttrib.cxx:236-264 | two maps compare equal exactly when they are the same map |
| TextureAttribModel.CompareEntriesSwap | panda/src/pgraph/textureAttrib.cxx:236-264 | swapping the maps negates the result |
| TextureAttribModel.CompareSpecProperties | panda/src/pgraph/textureAttrib.cxx:227-265 | 0 exactly for equal operations and maps, and antisymmetric |
| TextureAttribModel.UnionFind | panda/src/pgraph/textureAttrib.cxx:354-405 | in the union a stage has self's texture if self has one, other's otherwise |
| TextureAttribModel.UnionFrom | panda/src/pgraph/textureAttrib.cxx:354-405 | every entry of the union comes from one of the inputs |
| TextureAttribModel.UnionSorted | panda/src/pgraph/textureAttrib.cxx:354-405 | the union of sorted maps is sorted |
| TextureAttribModel.DifferenceFind | panda/src/pgraph/textureAttrib.cxx:414-452 | the difference holds self's texture exactly for the stages other lacks |
| TextureAttribModel.DifferenceFrom | panda/src/pgraph/textureAttrib.cxx:414-452 | every entry of the difference is one of self's |
| TextureAttribModel.DifferenceSorted | panda/src/pgraph/textureAttrib.cxx:414-452 | the difference of a sorted map is sorted |
| TextureAttribModel.MergeFacts | panda/src/pgraph/textureAttrib.cxx:354-452 | both merges of sorted maps are sorted and give each stage its intended texture |
| TextureAttribModel.UnionUnfold | panda/src/pgraph/textureAttrib.cxx:363-390 | one step of the add merge at the current positions |
| TextureAttribModel.DifferenceUnfold | panda/src/pgraph/textureAttrib.cxx:423-443 | one step of the remove merge at the current positions |
| TextureAttribModel.UnionEmpty | panda/src/pgraph/textureAttrib.cxx:392-401 | once either map is used up the union is the rest of the other |
| TextureAttribModel.DifferenceRest | panda/src/pgraph/textureAttrib.cxx:445-449 | once other is used up the difference is the rest of self |
| TextureAttribModel.DoAdd | panda/src/pgraph/textureAttrib.cxx:354-405 | the merge loop builds the union, with the stage list in map order |
| TextureAttribModel.CopyRest | panda/src/pgraph/textureAttrib.cxx:392-449 | the tail loops copy what is left and keep the stage list in step |
| TextureAttribModel.DoRemove | panda/src/pgraph/textureAttrib.cxx:414-452 | the merge loop builds the difference |
| TextureAttribModel.Compose | panda/src/pgraph/textureAttrib.cxx:284-312 | a set replaces everything; a remove followed by add replaces; equal or add/set mixes unite under self's operation; a remove after add or set takes stages away; the result is well formed |
| TextureAttribModel.InvertCompose | panda/src/pgraph/textureAttrib.cxx:323-329 | the other attrib always wins |
| TextureAttribModel.ComposeAgreesWithInvert | panda/src/pgraph/textureAttrib.cxx:284-329 | composing with a set, or onto a remove, agrees with the inverse composition |
| GsgStateModel.LookupBelow | panda/src/display/graphicsStateGuardian.cxx:159-298 | a type below the first slot of a sorted vector has no slot |
| GsgStateModel.ConsSorted | panda/src/display/graphicsStateGuardian.cxx:159-298 | a slot put in front of higher types keeps the vector sorted |
| GsgStateModel.TailAbove | panda/src/display/graphicsStateGuardian.cxx:159-298 | the tail of a sorted vector is sorted and above its head |
| GsgStateModel.ModifyTypes | panda/src/display/graphicsStateGuardian.cxx:159-298 | modify_state's vector mentions only types of the old vector or of the request |
| GsgStateModel.ModifySorted | panda/src/display/graphicsStateGuardian.cxx:159-298 | modify_state keeps the vector sorted by type |
| GsgStateModel.ModifyLookup | panda/src/display/graphicsStateGuardian.cxx:159-298 | after modify_state a type the request sets holds the requested transition, or the current one when it is kept; every other type keeps its slot or its absence |
| GsgStateModel.ModifyIssues | panda/src/display/graphicsStateGuardian.cxx:159-298 | modify_state issues a transition exactly for the types the request sets to something not kept, and never resets |
| GsgStateModel.SetStateTypes | panda/src/display/graphicsStateGuardian.cxx:313-500 | set_state's vector mentions only types of the old vector or of the request |
| GsgStateModel.SetStateSorted | panda/src/display/graphicsStateGuardian.cxx:313-500 | set_state keeps the vector sorted by type |
| GsgStateModel.SetStateLookup | panda/src/display/graphicsStateGuardian.cxx:313-500 | after set_state a type the request sets holds the requested or kept transition; a type the vector had and the request leaves out or NULLs is NULL; others stay absent |
| GsgStateModel.SetStateIssues | panda/src/display/graphicsStateGuardian.cxx:313-500 | set_state issues as modify_state does, and resets exactly the set types the request leaves out or NULLs |
| GraphicsStateGuardianModel.LowerBound | panda/src/display/graphicsStateGuardian.cxx:648-676 | lower_bound lands after every slot of a smaller type |
| GraphicsStateGuardianModel.LowerBoundLookup | panda/src/display/graphicsStateGuardian.cxx:643-681 | in a sorted vector lower_bound finds a type's slot exactly when it has one |
| GraphicsStateGuardianModel.LookupUpdate | panda/src/display/graphicsStateGuardian.cxx:643-662 | overwriting one slot's transition keeps the vector sorted and changes that type's lookup only |
| GraphicsStateGuardianModel.Insert | panda/src/display/graphicsStateGuardian.cxx:1073-1082 | marking adds the context and reports true exactly when it was new |
| GraphicsStateGuardianModel.Erase | panda/src/display/graphicsStateGuardian.cxx:1093-1102 | unmarking removes the context and reports true exactly when it was there |
| GraphicsStateGuardianModel.MarkThenUnmark | panda/src/display/graphicsStateGuardian.cxx:1073-1102 | marking then unmarking a context that was not prepared restores the set |
| GraphicsStateGuardianModel.Advance | panda/src/display/graphicsStateGuardian.cxx:159-500 | moving the head of what is left onto what is done keeps the merge invariant |
| GraphicsStateGuardianModel.UnfoldInsert | panda/src/display/graphicsStateGuardian.cxx:182-355 | a requested type below the vector's next slot is inserted there and issued |
| GraphicsStateGuardianModel.UnfoldPass | panda/src/display/graphicsStateGuardian.cxx:203-206 | modify_state passes over a slot whose type the request does not reach |
| GraphicsStateGuardianModel.UnfoldReset | panda/src/display/graphicsStateGuardian.cxx:357-478 | set_state resets an unrequested slot that is set |
| GraphicsStateGuardianModel.UnfoldFill | panda/src/display/graphicsStateGuardian.cxx:217-228 | modify_state fills a NULL slot of a requested type and visits it again |
| GraphicsStateGuardianModel.UnfoldReplace | panda/src/display/graphicsStateGuardian.cxx:230-443 | a requested transition the slot does not keep replaces it and is issued |
| GraphicsStateGuardianModel.UnfoldKeep | panda/src/display/graphicsStateGuardian.cxx:234-448 | a requested transition the slot keeps changes only the request's entry |
| GraphicsStateGuardianModel.FinishModify | panda/src/display/graphicsStateGuardian.cxx:278-297 | once the request is used up, modify_state has merged everything |
| GraphicsStateGuardianModel.FinishSet | panda/src/display/graphicsStateGuardian.cxx:456-499 | once both sides are used up, set_state has merged everything |
| GraphicsStateGuardianModel.Gsg.constructor | panda/src/display/graphicsStateGuardian.cxx:95-146 | reset leaves no state, clears back and depth each frame, and enables vertex colours |
| GraphicsStateGuardianModel.Gsg.ModifyState | panda/src/display/graphicsStateGuardian.cxx:159-298 | the vector, the commands and the request end as ModifyMerge says, whose properties ModifyLookup and ModifyIssues give |
| GraphicsStateGuardianModel.Gsg.SetState | panda/src/display/graphicsStateGuardian.cxx:313-500 | the vector, the commands and the request end as SetMerge says, whose properties SetStateLookup and SetStateIssues give |
| GraphicsStateGuardianModel.Gsg.MergeStep | panda/src/display/graphicsStateGuardian.cxx:176-454 | one pass of either loop keeps the invariant and makes progress |
| GraphicsStateGuardianModel.Gsg.PushRequested | panda/src/display/graphicsStateGuardian.cxx:182-355 | a requested type below the next slot is issued and inserted |
| GraphicsStateGuardianModel.Gsg.MatchRequested | panda/src/display/graphicsStateGuardian.cxx:208-453 | the request and the vector at the same type keep the invariant |
| GraphicsStateGuardianModel.Gsg.MatchNull | panda/src/display/graphicsStateGuardian.cxx:210-398 | a NULL request for a held type is ignored by modify_state and resets the type under set_state |
| GraphicsStateGuardianModel.Gsg.FillNull | panda/src/display/graphicsStateGuardian.cxx:217-228 | a NULL slot is filled with the requested transition and issued |
| GraphicsStateGuardianModel.Gsg.ReplaceSlot | panda/src/display/graphicsStateGuardian.cxx:230-443 | a transition the slot does not keep is issued and stored |
| GraphicsStateGuardianModel.Gsg.ResetUnrequested | panda/src/display/graphicsStateGuardian.cxx:357-478 | an unrequested set slot is reset |
| GraphicsStateGuardianModel.Gsg.ClearAttribute | panda/src/display/graphicsStateGuardian.cxx:643-662 | a set type issues its initial value and becomes NULL; nothing else changes |
| GraphicsStateGuardianModel.Gsg.GetAttribute | panda/src/display/graphicsStateGuardian.cxx:671-681 | the transition set for the type, NULL when it has none |
| GraphicsStateGuardianModel.Gsg.EnableFrameClear | panda/src/display/graphicsStateGuardian.cxx:569-578 | the back buffer is cleared iff colour is, the depth buffer iff depth is |
| GraphicsStateGuardianModel.Gsg.GetRenderBuffer | panda/src/display/graphicsStateGuardian.cxx:509-512 | exactly the requested buffers the window has |
| GraphicsStateGuardianModel.Gsg.IssueColor | panda/src/display/graphicsStateGuardian.cxx:1034-1062 | flat colour overrides vertex colours and marks the issued colour stale; off disables both; vertex enables vertex colours only |
| GraphicsStateGuardianModel.Gsg.MarkPreparedTexture | panda/src/display/graphicsStateGuardian.cxx:1073-1082 | the context is prepared; true exactly when it was new |
| GraphicsStateGuardianModel.Gsg.UnmarkPreparedTexture | panda/src/display/graphicsStateGuardian.cxx:1093-1102 | the context is no longer prepared; true exactly when it was |
| GraphicsStateGuardianModel.Gsg.MarkPreparedGeom | panda/src/display/graphicsStateGuardian.cxx:1113-1122 | the context is prepared; true exactly when it was new |
| GraphicsStateGuardianModel.Gsg.UnmarkPreparedGeom | panda/src/display/graphicsStateGuardian.cxx:1133-1142 | the context is no longer prepared; true exactly when it was |
| GraphicsStateGuardianModel.Gsg.MarkPreparedGeomNode | panda/src/display/graphicsStateGuardian.cxx:1153-1162 | the context is prepared; true exactly when it was new |
| GraphicsStateGuardianModel.Gsg.UnmarkPreparedGeomNode | panda/src/display/graphicsStateGuardian.cxx:1173-1182 | the context is no longer prepared; true exactly when it was |
| PiecewiseCurveModel.TLength | panda/src/parametrics/piecewiseCurve.cxx:327-331 | a segment's length is its end minus its start, the first one starting at 0 |
| PiecewiseCurveModel.StartAfterLastIsMaxT | panda/src/parametrics/piecewiseCurve.cxx:339-343 | the start of the position after the last segment is get_max_t, which is the last segment's start plus its length |
| PiecewiseCurveModel.NewTend | panda/src/parametrics/piecewiseCurve.cxx:261-280 | an inserted segment ends at the start of its slot plus the requested length |
| PiecewiseCurveModel.InsertLengths | panda/src/parametrics/piecewiseCurve.cxx:249-280 | insertion gives the new segment the requested length and keeps the earlier lengths and every later segment; the following segment loses that length, and the curve's end moves only when appending |
| PiecewiseCurveModel.Shifted | panda/src/parametrics/piecewiseCurve.cxx:299-303 | moving the ends back keeps the number of segments and their curves |
| PiecewiseCurveModel.RemoveLengths | panda/src/parametrics/piecewiseCurve.cxx:290-308 | removing a segment and moving later ends back by its length keeps every other segment's length and shortens the curve by exactly that length |
| PiecewiseCurveModel.AppendSeg | panda/src/parametrics/piecewiseCurve.cxx:266-267 | appending puts the segment at the end with end time get_max_t plus its length and keeps the earlier lengths |
| PiecewiseCurveModel.NurbsSegsFromRising | panda/src/parametrics/piecewiseCurve.cxx:392-406 | every segment make_nurbs builds comes from a strictly increasing knot pair within range and is as long as that pair's span |
| PiecewiseCurveModel.NurbsSegsOrdered | panda/src/parametrics/piecewiseCurve.cxx:392-406 | the segments come in increasing knot order, so no knot pair yields two |
| PiecewiseCurveModel.NurbsSegsComplete | panda/src/parametrics/piecewiseCurve.cxx:392-406 | every strictly increasing knot pair in range yields a segment |
| PiecewiseCurveModel.NurbsMaxT | panda/src/parametrics/piecewiseCurve.cxx:392-406 | with non-decreasing knots the built curve ends at knot n + order - 1 minus knot order - 1 |
| PiecewiseCurveModel.PiecewiseCurve.constructor | panda/src/parametrics/piecewiseCurve.cxx:35-38 | a new curve has no segments and cached index 0 |
| PiecewiseCurveModel.PiecewiseCurve.IsValid | panda/src/parametrics/piecewiseCurve.cxx:58-61 | valid exactly when there is at least one segment |
| PiecewiseCurveModel.PiecewiseCurve.GetTstart | panda/src/parametrics/piecewiseCurve.cxx:339-343 | segment 0 starts at 0 and the position after the last starts at the curve's end |
| PiecewiseCurveModel.PiecewiseCurve.GetTlength | panda/src/parametrics/piecewiseCurve.cxx:327-331 | the length is the segment's end minus its start |
| PiecewiseCurveModel.PiecewiseCurve.InsertCurveseg | panda/src/parametrics/piecewiseCurve.cxx:261-280 | refused, leaving the curve alone, exactly when ti is outside 0..size; otherwise the segment is inserted at ti with the requested length |
| PiecewiseCurveModel.PiecewiseCurve.ShiftEnds | panda/src/parametrics/piecewiseCurve.cxx:299-303 | every end from the index on moves back by the amount |
| PiecewiseCurveModel.PiecewiseCurve.RemoveCurveseg | panda/src/parametrics/piecewiseCurve.cxx:290-308 | refused, changing nothing, exactly when ti is not a segment; otherwise the segment goes, later ends move back by its length and the cached index is reset |
| PiecewiseCurveModel.PiecewiseCurve.RemoveAllCurvesegs | panda/src/parametrics/piecewiseCurve.cxx:315-319 | no segments remain, the cached index is 0, the curve ends at 0 and is not valid |
| PiecewiseCurveModel.PiecewiseCurve.SetTlength | panda/src/parametrics/piecewiseCurve.cxx:366-374 | refused exactly when ti is not a segment; otherwise segment ti gets the new length, every other end stays, and the curve's end is unchanged unless ti is the last segment |
| PiecewiseCurveModel.PiecewiseCurve.MakeNurbs | panda/src/parametrics/piecewiseCurve.cxx:392-406 | the curve becomes the segments of the strictly increasing knot pairs for i below num_cvs - order + 1, each as long as its knot span |
| CurveModel.ComputeTSetup | panda/src/parametrics/curve.cxx:247-271 | a zero offset returns start_t at once exactly; a positive offset starts the search from a guess beyond start_t and a negative one from a guess before it, keeping a guess already on the right side |
| CurveModel.TruncToInt | panda/src/parametrics/curve.cxx:982 | the double-to-int conversion drops the fraction toward zero |
| CurveModel.LegacyRemoveWholeLength | panda/src/parametrics/curve.cxx:976-994 | when the removed length is whole the older remove_curveseg agrees with the newer one |
| CurveModel.LegacyRemoveChangesLength | panda/src/parametrics/curve.cxx:982 | removing the first of segments ending at 1.5 and 3.0 leaves one ending at 2.0, so the later segment's length changes |
| CurveModel.LegacyRemoveCurveseg | panda/src/parametrics/curve.cxx:976-994 | refused, changing nothing, exactly when ti is not a segment; otherwise later ends move back by the removed length with its fraction dropped, and the cached index is reset |
| CurveModel.ParametricCurve.constructor | panda/src/parametrics/curve.cxx:81-86 | a new curve has type NONE, three dimensions and no drawers |
| CurveModel.ParametricCurve.SetCurveType | panda/src/parametrics/curve.cxx:132-149 | the type is stored; XYZ, HPR and NONE give three dimensions, T gives one, and any other type fails the assertion and keeps the dimension count |
| CurveModel.ParametricCurve.Invalidate | panda/src/parametrics/curve.cxx:613-623 | when t1 <= t2 every drawer, in order, is asked to recompute the range clamped to 0..max_t; otherwise nothing happens |
| QuiltModel.EvenEnds | panda/src/parametrics/patch.cxx:668-676 | reset_quilt makes one end time per segment |
| QuiltModel.EvenEndsSpread | panda/src/parametrics/patch.cxx:668-676 | evenly spread ends give every segment width 1/n and the last end is 1 |
| QuiltModel.AddFrom | panda/src/parametrics/patch.cxx:743-747 | moving the ends from an index on keeps their number |
| QuiltModel.SetLengthEffect | panda/src/parametrics/patch.cxx:737-782 | giving a segment a new width gives it exactly that width, keeps every other segment's width and moves the last end by the difference |
| QuiltModel.Scaled | panda/src/parametrics/patch.cxx:550-574 | scaling keeps the number of ends |
| QuiltModel.ScaleEffect | panda/src/parametrics/patch.cxx:550-574 | scaling by s over the last end makes the last end s and scales every width by the same factor |
| QuiltModel.AddFromInPlace | panda/src/parametrics/patch.cxx:743-747 | the loop adds the difference to every end from the index on |
| QuiltModel.ScaleInPlace | panda/src/parametrics/patch.cxx:550-558 | the loop multiplies every end by the factor |
| QuiltModel.RisingAt | panda/src/parametrics/patch.cxx:802-806 | the offsets tried whose knots strictly rise, in increasing order, each below the bound |
| QuiltModel.CountRising | panda/src/parametrics/patch.cxx:802-811 | the counting loop's result is the number of rising knot pairs among the offsets tried |
| QuiltModel.NurbsSegsMatchRising | panda/src/parametrics/patch.cxx:791-837 | a curve's make_nurbs and a quilt's make_nurbs pick the same rising offsets in the same order |
| QuiltModel.Offsets | panda/src/parametrics/patch.cxx:816-831 | every offset make_nurbs uses has its knots in range and strictly rising |
| QuiltModel.RisingPrefix | panda/src/parametrics/patch.cxx:802-806 | the rising offsets below n begin the list of those below any larger m |
| QuiltModel.RisingIndex | panda/src/parametrics/patch.cxx:816-831 | a rising offset n is the next entry after the rising offsets below it, so the running index si or ti names its segment |
| QuiltModel.WidthsAfterSet | panda/src/parametrics/patch.cxx:818-823 | giving the next segment its knot span keeps the spans already given |
| QuiltModel.QuiltMatchesCurve | panda/src/parametrics/patch.cxx:791-837 | the widths a quilt's make_nurbs gives one direction are the segment lengths a curve's make_nurbs gives for the same knots |
| QuiltModel.EvenArray | panda/src/parametrics/patch.cxx:664-676 | a fresh array of the evenly spread ends |
| QuiltModel.Quilt.constructor | panda/src/parametrics/patch.cxx:481-485 | the quilt is reset to the requested size: evenly spread ends and NULL cells when both counts are positive |
| QuiltModel.Quilt.IsValid | panda/src/parametrics/patch.cxx:494-497 | valid exactly when both counts are positive |
| QuiltModel.Quilt.ResetQuilt | panda/src/parametrics/patch.cxx:644-683 | the counts are stored; when both are positive fresh arrays hold evenly spread ends and only NULL cells; the cached indices are 0 |
| QuiltModel.Quilt.GetMaxS | panda/src/parametrics/patch.cxx:529-532 | 0 without s segments, otherwise the last s end |
| QuiltModel.Quilt.GetMaxT | panda/src/parametrics/patch.cxx:539-542 | 0 without t segments, otherwise the last t end |
| QuiltModel.Quilt.MaxSIfValid | panda/src/parametrics/patch.cxx:529-532 | the corrected get_max_s: 0 for a quilt that is not valid, the last s end otherwise |
| QuiltModel.Quilt.SetMaxS | panda/src/parametrics/patch.cxx:550-558 | with s segments every s end is scaled so that the last one becomes s; otherwise nothing changes |
| QuiltModel.Quilt.SetMaxT | panda/src/parametrics/patch.cxx:566-574 | with t segments every t end is scaled so that the last one becomes t; otherwise nothing changes |
| QuiltModel.Quilt.GetPatch | panda/src/parametrics/patch.cxx:710-715 | NULL outside the grid, otherwise the patch in row si, column ti |
| QuiltModel.Quilt.SetPatch | panda/src/parametrics/patch.cxx:694-700 | the cell gets the patch and every other cell keeps its patch |
| QuiltModel.Quilt.SetSLength | panda/src/parametrics/patch.cxx:770-782 | refused, changing nothing, exactly when si is not an s segment; otherwise every s end from si on moves by the change in width |
| QuiltModel.Quilt.SetTLength | panda/src/parametrics/patch.cxx:737-749 | refused, changing nothing, exactly when ti is not a t segment; otherwise every t end from ti on moves by the change in width |
| QuiltModel.Quilt.FillRow | panda/src/parametrics/patch.cxx:820-830 | after the inner loop row si holds the patches of its offsets and every t segment has its knot span |
| QuiltModel.Quilt.SheetDone | panda/src/parametrics/patch.cxx:815-836 | after the outer loop every cell holds the patch of its offsets and every segment has its knot span |
| QuiltModel.Quilt.MakeNurbs | panda/src/parametrics/patch.cxx:791-837 | the quilt has one segment per rising knot pair in each direction, every cell holds the bicubic patch made at its offsets and every segment is as wide as its knot span |
| QuiltModel.UnallocatedEndsScenario | panda/src/parametrics/patch.cxx:662-676 | reset to 2 by 0 the quilt keeps num_s 2 with no s ends allocated, so get_max_s reads through NULL; the corrected reading is 0 |
| NurbsCurveModel.Knot | panda/src/parametrics/nurbsCurve.h:146-153 | 0 below the order or without vertices; otherwise the t of vertex n - 1, or of the last vertex when n - 1 is past the end or below zero (unsigned comparison); always 0 or some vertex's t |
| NurbsCurveModel.KnotMonotone | panda/src/parametrics/nurbsCurve.h:146-153 | with non-decreasing, non-negative vertex knots the knot vector read through GetKnot never decreases |
| NurbsCurveModel.Appended | panda/src/parametrics/nurbsCurve.h:97-100 | the appended vertex carries the point and knot 1 below the order, otherwise the last knot plus 1 |
| NurbsCurveModel.AppendKeepsRising | panda/src/parametrics/nurbsCurve.h:97-100 | once there are at least order vertices with strictly rising knots, appending keeps them strictly rising |
| NurbsCurveModel.AppendBelowOrderRestarts | panda/src/parametrics/nurbsCurve.h:97-100 | below the order the appended knot restarts at 1, so knots already at 1 or more stop rising |
| NurbsCurveModel.NurbsCurve.constructor | panda/src/parametrics/nurbsCurve.h:79-82 | a curve of the given order without vertices |
| NurbsCurveModel.NurbsCurve.NumKnots | panda/src/parametrics/nurbsCurve.h:88-90 | the number of knots is the number of vertices plus the order |
| NurbsCurveModel.NurbsCurve.GetKnot | panda/src/parametrics/nurbsCurve.h:146-153 | the knot read from this curve's vertices; 0 below the order or without vertices |
| NurbsCurveModel.NurbsCurve.AppendCv | panda/src/parametrics/nurbsCurve.h:97-100 | one vertex is pushed, one knot past GetKnot(size), and its index is returned |
| NurbsCurveModel.NurbsCurve.AppendCvPoint | panda/src/parametrics/nurbsCurve.h:94-96 | the point is appended with weight 1 |
| TextureStageModel.ExpectedNumCombineOperands | panda/src/gobj/textureStage.cxx:154-176 | undefined reads 0 operands, replace 1, the two-input modes 2 and interpolate 3, and no mode more |
| TextureStageModel.OperandValidForRgb | panda/src/gobj/textureStage.cxx:184-198 | every operand but the undefined one is valid for RGB |
| TextureStageModel.OperandValidForAlpha | panda/src/gobj/textureStage.cxx:206-220 | exactly the two alpha operands are valid for alpha |
| TextureStageModel.AlphaOperandsAreRgbOperands | panda/src/gobj/textureStage.cxx:184-220 | an operand valid for alpha is valid for RGB; the undefined operand is valid for neither; the colour operands are exactly those valid for RGB only |
| TextureStageModel.TextureStage.constructor | panda/src/gobj/textureStage.cxx:32-56 | a named stage has sort and priority 0, the default texture coordinates, modulate mode, opaque black, undefined combine settings and no operands |
| TextureStageModel.TextureStage.CopyAsWritten | panda/src/gobj/textureStage.cxx:63-86 | the copy takes every field except the two operand counts and the first alpha operand, which keep what the new object held |
| TextureStageModel.TextureStage.Copy | panda/src/gobj/textureStage.cxx:63-86 | the corrected copy equals the original in every field |
| TextureStageModel.CopyLosesAlphaOperand | panda/src/gobj/textureStage.cxx:63-86 | a stage with first alpha operand src_alpha and two alpha operands is copied as written with an undefined operand and no count, while the corrected copy keeps both |
| FileSpecModel.HexValue | direct/src/plugin/fileSpec.cxx:234-235 | a hex digit of either case has its value 0 to 15; any other character gives -1 |
| FileSpecModel.HexDigit | direct/src/plugin/fileSpec.cxx:258-259 | the digit written for a value below 16 is lower-case and reads back as that value |
| FileSpecModel.DigitOfValue | direct/src/plugin/fileSpec.cxx:253-261 | a lower-case hex digit is written back as itself |
| FileSpecModel.DecodedByte | direct/src/plugin/fileSpec.cxx:234-240 | the decoded byte's high four bits are the first digit and its low four bits the second |
| FileSpecModel.FirstBad | direct/src/plugin/fileSpec.cxx:233-238 | the pairs before the first bad pair are all hex and that pair is not |
| FileSpecModel.Decoded | direct/src/plugin/fileSpec.cxx:231-243 | n pairs decode to n bytes |
| FileSpecModel.Encoded | direct/src/plugin/fileSpec.cxx:253-261 | the encoding has two lower-case hex digits per byte |
| FileSpecModel.EncodedAt | direct/src/plugin/fileSpec.cxx:255-260 | pair k of the encoding holds byte k's high digit then its low digit |
| FileSpecModel.ByteDigits | direct/src/plugin/fileSpec.cxx:255-260 | a byte is its high digit times 16 plus its low digit |
| FileSpecModel.DecodeEncode | direct/src/plugin/fileSpec.cxx:231-261 | decoding an encoding succeeds on every pair and gives the bytes back |
| FileSpecModel.FirstBadAllHex | direct/src/plugin/fileSpec.cxx:233-238 | when every pair is hex decoding stops at no pair |
| FileSpecModel.EncodeDecode | direct/src/plugin/fileSpec.cxx:231-261 | encoding the decoding of lower-case hex gives the same string |
| FileSpecModel.PairRoundTrip | direct/src/plugin/fileSpec.cxx:231-261 | each pair of lower-case hex survives decoding and re-encoding |
| FileSpecModel.DecodeHex | direct/src/plugin/fileSpec.cxx:231-243 | true exactly when every pair is hex; the bytes before the first bad pair are written, the rest of the buffer is untouched |
| FileSpecModel.FirstBadStops | direct/src/plugin/fileSpec.cxx:235-238 | a bad pair with none before it is where decoding stops, however many pairs are asked for |
| FileSpecModel.EncodeHex | direct/src/plugin/fileSpec.cxx:253-261 | the first 2 * size characters become the encoding of the first size bytes and the rest of the buffer is untouched |
| FileSpecModel.EncodedStep | direct/src/plugin/fileSpec.cxx:255-260 | encoding one more byte appends its two digits |
| FileSpecModel.StreamHex | direct/src/plugin/fileSpec.cxx:269-276 | the characters put on the stream are exactly the encoding encode_hex writes |
| FileSpecModel.FileSpec.constructor | direct/src/plugin/fileSpec.cxx:41-47 | no name, size 0, timestamp 0, an all-zero hash not marked as read |
| FileSpecModel.FileSpec.LoadXml | direct/src/plugin/fileSpec.cxx:54-79 | attributes present replace name, size and timestamp; the hash counts as read exactly when the attribute is 2 * hash_size hex characters, and then holds their decoding |
| FileSpecModel.FileSpec.QuickVerify | direct/src/plugin/fileSpec.cxx:92-134 | intact exactly when the file exists with the right size and either its timestamp matches or the hash check passes; the timestamp is reset only for an intact file whose timestamp differs |
| FileSpecModel.FileSpec.FullVerify | direct/src/plugin/fileSpec.cxx:147-184 | intact exactly when the file exists with the right size and the hash check passes; the timestamp is reset only when it differs |
| FileSpecModel.FileSpec.FullImpliesQuick | direct/src/plugin/fileSpec.cxx:92-184 | a file the full check passes the quick check passes too with the same verdict; the quick check passes more only on a matching timestamp with a failing hash |

## Left out

- Floating point: positions, curve times, knots and ratios are exact reals or integers. Rounding is not modelled.
- `ParametricCurve::compute_t`'s length search and `calc_length`: only the set-up before the search is modelled, because the search integrates curve lengths numerically.
- Curve and patch evaluation (get_point, tangents, Bezier conversion, find_curve, drawing, datagram I/O of curves): this is floating-point geometry outside the bookkeeping modelled here.
- The curve drawers: they become a log of recompute calls.
- Locks, threads and concurrency. This covers the effect pool's lock and the task manager's scheduling. The locked section of load_effect is modelled as the check it makes.
- The FSM base class (`FSM.py`) is not part of this model. A request outside an interest state's default transitions is taken to raise RequestDenied. An exception out of an interest's enterActive or exitActive is taken to leave the interest in the machine's error state, Broken, where no Active or Closing request is accepted.
- InterestFsm.MaybeComplete: a RequestDenied raised inside a completion cascade leaves each completion machine it passed in the state it had reached; the error state the FSM base class would give those machines is not modelled.
- Python `assert` statements are taken as stripped, as in optimised runs. Only exceptions that remain are modelled.
- CartesianGrid.ParseInt: int() is modelled as white space, an optional sign and ASCII digits. Python 2 also skips white space after the sign, and Python 3 accepts underscores between digits and non-ASCII digits; these are not modelled.
- Printing and reporting are not modelled: `output`, `write`, `list_contents`, `report`, `Print`, `status`, `__repr__` and the debug dumps of the interest manager.
- `CartesianGridBase.isGrid`, `getCellWidth` and the helpers that build task names: constant getters with nothing to state.
- `CartesianGridBase.disable`: it refers to an attribute the class never defines, so it is not modelled.
- `DistributedObjectBase`'s handleChildArrive/Leave hooks are no-ops and are left out. So is `hasParentingRules`.
- InterestMessages.AddInterestMessage: sends each zone once. The code sends every occurrence, sorted, because it discards the result of `uniqueElements`; SentZones models that, see Findings.
- InterestManagerModel.DoInterestManager.NextHandle: requires a free handle. With all 32768 handles in use the code's search never ends, and the model does not represent that hang.
- InterestManagerModel.DoInterestManager.AddInterest: requires a free handle, for the same reason as NextHandle.
- DoInterestManager's handle, scope and hold counters are class attributes shared by every manager. The model keeps them per manager, which agrees while a process has one manager.
- InterestManagerModel.DoInterestManager.AddInterest: its add request is AddInterestMessage, so repeated zones are sent once, not as often as the code sends them.
- InterestManagerModel.DoInterestManager.AlterInterest: the same as AddInterest for the add request it sends again.
- GridChildModel.GridChild.EnableGridInterest: disabling with an open grid interest removes it. The code raises AttributeError there on `self.gridInterest`; ClearGridInterestAsWritten models that, see Findings.
- GridChildModel.GridChild.SetGridCell: with no grid and an open grid interest the interest is removed, where the code raises the same AttributeError after leaving the grid.
- GridChildModel.GridChild.Delete: with an open grid interest the interest is removed, where the code raises the same AttributeError after leaving the grid and clearing the flag.
- DistributedObjectBaseModel.AutoInterestCache.Collect: reaches the repository `cr` for every class not yet cached. The code first evaluates `getattr(self, 'air')` and raises AttributeError on an object without `air`; GetAutoInterestsAsWritten models that, see Findings.
- DistributedObjectBaseModel.AutoInterestCache.GetAutoInterests: the same as Collect, whose result it checks.
- QuiltModel.Quilt.SetMaxS: requires a nonzero last s end. The division by zero in the source is not modelled.
- QuiltModel.Quilt.SetMaxT: requires a nonzero last t end, for the same reason.
- QuiltModel.Quilt.GetMaxS: requires t segments whenever there are s segments. After reset_quilt(n, 0) the source reads s ends it never allocated; see Findings.
- QuiltModel.Quilt.GetMaxT: requires s segments whenever there are t segments, for the same reason.
- QuiltModel.Quilt.SetSLength: requires t segments whenever there are s segments, for the same reason.
- QuiltModel.Quilt.SetTLength: requires s segments whenever there are t segments, for the same reason.
- QuiltModel.Quilt.MakeNurbs: excludes knots that rise in s but never in t. On those the source writes through unallocated arrays; see Findings.
- `nurbsCurve.cxx` is not part of this model. Only the inline members of the header are modelled: get_num_knots, append_cv and GetKnot. The constructor is taken to start with no vertices.
- `fileSpec.I` and `fileSpec.h` are not part of this model. Their digit helpers are modelled as lower-case hex out and either case in, with an MD5 size of 16.
- FileSpec's filesystem side is a parameter: stat, MD5 hashing and setting the timestamp. The model gives the verdict and whether the timestamp is reset. The numbers in the XML attributes are taken as already parsed.
- `p3dMultifileReader.I` is not part of this model. Its integer reads are modelled as little-endian. A failed read yields 0.
- The multifile reader's extraction writes files and stamps them. This is modelled as producing the extracted bytes. `extract_all` is not modelled.
- WAV: the length in seconds and the seek position are rounded through floating point in the source, and are modelled on exact values; of the non-finite values only +infinity and NaN from a zero rate are kept.
- WavAudioCursorModel.WavAudioCursor.Seek: with a zero rate the product of an infinite length and 0 is NaN, whose conversion to PN_uint16 C++ leaves undefined; the model takes frame 0 and promises only that the cursor stays on a frame below 65536.
- WAV: the cast of a sample to 16 bits is modelled as wrapping modulo 65536 into the signed range.
- WAV: the host is taken to be little-endian.
- WAV: the virtual file system lookup is an optional stream given as a parameter.
- WAV: the size of the fmt chunk is ignored, as in the source.
- WAV: `wavAudioCursor.h` is not part of this model.
- Texture memory counter: the `int` overflow in count_bytes is not modelled.
- Texture memory counter: `textureMemoryCounter.h` is not part of this model.
- Texture memory counter: null pointers, which the source rejects with a debug assertion, are Option values that change nothing.
- Texture memory counter: the utilization ratio is a real.
- IndexParametersModel.IndexParameters.FinalizeParameters: 32-bit overflow is not modelled, and the divisors are required to be nonzero. The icon and flag parameters it does not read are left out.
- COLLADA: `ColladaElement::load_xml` is not part of this model. It is taken to fail only for a missing element.
- COLLADA: resolving the source array by id in the document is a parameter.
- COLLADA: doubles are reals.
- ColladaAccessorModel.ColladaAccessor.GetValues: requires at most four bound params. With more, the source writes past the end of its four-component vector.
- COLLADA: `nassertr` is modelled as its checked-build behaviour, returning the failure value.
- `cmp_nocase_uh` (string_utils) is not part of this model. It is modelled as an ASCII case-insensitive comparison in which '-' and '_' compare equal.
- COLLADA: the base element's attributes in make_xml are not modelled, nor are the profile constructor and clear.
- Effect pool: the loader is a parameter.
- Effect pool: reference counts are snapshots given with each effect.
- Effect pool: `verify_effect` lives in `effectPool.I`, which is not part of this model.
- NavMeshAttribModel.NavMeshAttrib.constructor: the assertion that the area is at most 255 is stated by AreaAccepted but not enforced, as in release builds.
- Nav-mesh attribute: `return_new`'s uniquification of attributes is not modelled, nor is `lower_attrib_can_override`. The RenderAttrib base part of the datagram is left out.
- Graphics state guardian: the release_all_* functions and the clear-value setters are not modelled, nor are the decal and lens functions.

## Findings

| source | as written | input that shows it | evidently intended | confidence | as-written member | corrected member |
|---|---|---|---|---|---|---|
| direct/src/distributed/CartesianGridBase.py:28-40 | setParentingRules stores the third rule field in `viewingRadius`, but getParentingRules writes `gridRadius` | rule "100:10:3" on a grid whose gridRadius is 1 reads back "100:10:1" | the radius read is the radius written, so the rules round-trip | high, not executed | CartesianGrid.ApplyParentingRules, CartesianGrid.ParentingRulesLoseRadius | CartesianGrid.ApplyParentingRulesFixed, CartesianGrid.ParentingRulesRoundTripFixed |
| direct/src/distributed/DoInterestManager.py:310-317 | addInterestHold calls `addHold(holdId)` on the interest object, which takes no argument | any handle that is present | the hold is recorded against the interest and its id is returned | medium, not executed | InterestManagerModel.DoInterestManager.AddInterestHoldAsWritten | InterestManagerModel.DoInterestManager.AddInterestHold |
| direct/src/distributed/DoInterestManager.py:441-446 | the result of `uniqueElements(vzl)` is discarded, so repeated zones are sent | zones [2, 5, 5, 2] are sent as 2, 2, 5, 5 | each zone is sent once | medium, not executed | InterestMessages.SentZones, InterestMessages.AddInterestKeepsRepeatedZones | InterestMessages.UniqueSentZones, InterestMessages.UniqueZonesDropRepeats |
| direct/src/distributed/GridChild.py:55-65 | getGrid and getGridZone call methods that GridParent does not define | any child that has a grid parent | the grid and zone the child's parent holds | medium, not executed | GridChildModel.GridChild.GetGridAsWritten, GridChildModel.GridChild.GetGridZoneAsWritten | GridChildModel.GridChild.GetGrid, GridChildModel.GridChild.GetGridZone |
| direct/src/distributed/GridChild.py:93-97 | the interest is removed through `self.gridInterest`, but the attribute is the underscored one | a child with an open grid interest | the child's grid interest is removed | high, not executed | GridChildModel.GridChild.ClearGridInterestAsWritten | GridChildModel.GridChild.ClearGridInterest |
| direct/src/distributed/DistributedObjectBase.py:115 | the default of `getattr(self, 'cr', getattr(self, 'air'))` is evaluated before the lookup of `cr` | an object built by DistributedObjectBase's constructor, which sets `cr` and no `air`, asking for the auto-interests of a class not yet cached | the repository is `cr` when there is one, `air` otherwise | medium, not executed: a subclass outside this model may set `air` | DistributedObjectBaseModel.AutoInterestCache.GetAutoInterestsAsWritten | DistributedObjectBaseModel.AutoInterestCache.Collect, DistributedObjectBaseModel.AutoInterestCache.GetAutoInterests |
| panda/src/parametrics/curve.cxx:976-994 | the older remove_curveseg keeps the removed length in an `int` | removing the first of segments ending at 1.5 and 3.0 leaves one ending at 2.0 | later segments keep their lengths | high, not executed | CurveModel.LegacyRemoveCurveseg, CurveModel.LegacyRemoveChangesLength | PiecewiseCurveModel.PiecewiseCurve.RemoveCurveseg, PiecewiseCurveModel.RemoveLengths |
| panda/src/parametrics/patch.cxx:644-683 | reset_quilt(2, 0) keeps num_s 2 without allocating the s ends, which get_max_s and set_max_s then read | reset_quilt(2, 0) followed by get_max_s | an empty quilt reports 0 | medium, not executed | QuiltModel.UnallocatedEndsScenario | QuiltModel.Quilt.MaxSIfValid |
| panda/src/gobj/textureStage.cxx:63-86 | the copy constructor never copies the operand counts and assigns the first alpha operand from itself | a stage with alpha operand src_alpha and two alpha operands | the copy equals the original | high, not executed | TextureStageModel.TextureStage.CopyAsWritten, TextureStageModel.CopyLosesAlphaOperand | TextureStageModel.TextureStage.Copy |
| direct/src/plugin/p3dMultifileReader.cxx:236-269 | read_index follows next_entry without checking that it moves forward | an index entry whose next_entry is its own offset | the walk ends on every index; the correction chosen refuses every link that does not move forward, so it also refuses a backward link that does not cycle, which the code reads to the end; AgreesWhenForward covers forward chains only | medium, not executed | MultifileReaderModel.AsWrittenFrom, MultifileReaderModel.SelfLinkNeverFinishes | MultifileReaderModel.ParseFrom |
| panda/src/movies/wavAudioCursor.cxx:151-176 | after skipping a chunk the search stops when the stream is still good | a LIST chunk before the data chunk | the search goes on to the next chunk | high, not executed | WavAudioCursorModel.FindDataAsWritten, WavAudioCursorModel.ListChunkSkipped | WavAudioCursorModel.FindData, WavAudioCursorModel.WavAudioCursor.SeekDataChunk |
| panda/src/movies/wavAudioCursor.cxx:134-181 | the channel count and bytes per sample are divided by without a check | a fmt chunk with 0 channels | a header with zero channels or sample size is rejected; a zero rate, which only makes the length non-finite, is still accepted as the code does | high, not executed | WavAudioCursorModel.NumSamplesAsWritten, WavAudioCursorModel.ZeroChannelsReachDivision | WavAudioCursorModel.ParseWav, WavAudioCursorModel.WavAudioCursor.LoadData |
| panda/src/collada/colladaAccessor.cxx:149-158 | get_num_bound_params tests `_params[i]` where it means `_params[p]` | params [unnamed, named] count none | every named param is counted | high, not executed | ColladaAccessorModel.NumBoundParamsAsWritten, ColladaAccessorModel.BoundScanIsLeadingRun | ColladaAccessorModel.ColladaAccessor.NumBoundParams |
| panda/src/collada/colladaAccessor.cxx:178-188 | get_values also tests `_params[i]` in its inner loop | params [unnamed, named] leave the record at the default vector | each named param's value is read | high, not executed | ColladaAccessorModel.RecordAsWritten, ColladaAccessorModel.UnnamedFirstParam | ColladaAccessorModel.ColladaAccessor.GetValues |
| panda/src/collada/colladaAccessor.cxx:87-91 | the stride fix-up compares the stride as unsigned, so a negative stride is kept | stride -1 with one param | the stride is raised to the param count | medium, not executed | ColladaAccessorModel.RaiseStrideAsWritten, ColladaAccessorModel.NegativeStrideKept | ColladaAccessorModel.RaiseStride, ColladaAccessorModel.Load |
| panda/src/collada/colladaProfile.cxx:82-98 | the output operator has no case for CG | printing the CG profile | "CG" is printed and reads back as CG | high, not executed | ColladaProfileModel.ProfileNameAsWritten, ColladaProfileModel.PrintReadAsWritten, ColladaProfileModel.CgSaveLoadAsWritten | ColladaProfileModel.ProfileName, ColladaProfileModel.SaveLoad |
| panda/src/navigation/navMeshAttrib.cxx:157-179 | compare_to_impl returns 1 for a smaller area and 0 otherwise | areas 2 and 1 compare equal | a signed three-way comparison | high, not executed | NavMeshAttribModel.CompareAsWritten, NavMeshAttribModel.CompareAsWrittenNotAntisymmetric | NavMeshAttribModel.Compare, NavMeshAttribModel.CompareAntisymmetric |
