# Print Layout — a verified Dafny model

Print Layout is a desktop application for arranging photographs on a sheet of
paper and printing the sheet through CUPS. This project models its core in
Dafny and proves properties of that model:

- the scene: paper sizes, the page and its printable area, placed images,
  the hit test and the z-ordered `Layout` that owns them (`layout.dfy`);
- the canvas: millimetre/screen conversion at a zoom factor, the image
  cache, and the translation of mouse events into canvas messages
  (`canvas_widget.dfy`);
- the CUPS integration: parsing `lpstat -p -d` and `lpoptions -l` output,
  option lookups, the `lp` argument list, job-id extraction and the rotation
  classification used when a layout is rendered (`printing.dfy`);
- the preferences: their defaults, the most-recently-used file list and the
  retention rule for layout backups (`config.dfy`);
- the application state `PrintLayout` and its message handlers: selection,
  the move and eight-handle resize drag, validated edits of the page and of
  the selected image, zoom, printer choice, the print guard and the window
  title (`app.dfy`).

`text.dfy` gives the parts of Rust's `str` API the parsers use (`split`,
`split_whitespace`, `trim`, `lines`, `find`, `parse::<u32>`, …) and
`float_math.dfy` the `f32` operations (`clamp`, `min`, `max`, the truncating
remainder `%`). `f32` quantities are modelled as exact reals, and pixel
counts and `u32` values as natural numbers.

The classes `Layout.Layout`, `CanvasWidget.ImageCache`,
`CanvasWidget.LayoutCanvas` and `App.PrintLayout` model the objects whose
fields the program updates in place. Each method's postcondition states the
whole new state, in terms of the pure functions beside it, and the lemmas
state what those functions promise. The loops in `remove_image`,
`discover_printers`, `get_printer_capabilities`, `add_recent_file` and
`cleanup_old_backups` are methods with loop invariants, proved equal to the
pure functions the lemmas are about.

Behaviour worth noting:

- Turning borderless off sets every margin to 25.4 mm. It does not restore
  the margins in use before borderless was turned on.
- From the last print settings the start-up page takes the paper size,
  type, quality, colour mode, orientation, borderless flag and margins. For
  the size it sets only the `paper_size` field, so width and height stay
  those of A4 (`src/main.rs:173-175`).
- The canvas starts at zoom 1.0, while the application's zoom field starts
  at the saved zoom level (`src/main.rs:198`, `src/main.rs:213`).
- The print job built by `PrintClicked` (`src/main.rs:756-761`) does not
  set `extra_options`. The model gives it no extra options.

## Model

| member | source | states |
|---|---|---|
| Layout.ToDimensions | src/layout.rs:47-80 | every named paper size has positive width and height; a custom size has exactly the dimensions it carries |
| Layout.StandardSizesArePortraitExceptLedger | src/layout.rs:47-80 | every ISO A/B and North American size is taller than wide, except Ledger, which is Tabloid turned sideways |
| Layout.ASeriesHalves | src/layout.rs:47-80 | each A size's long side is the next larger size's short side (A0 to A5), and A4 is 210 x 297 mm |
| Layout.NewPage | src/layout.rs:139-151 | a new page has the paper's dimensions, its paper size, printer paper, and a one-inch margin on every side |
| Layout.PrintableArea | src/layout.rs:161-167 | the printable area starts at the left and top margins, and adding the opposite margin to its extent gives the page width and height |
| Layout.PrintableAreaPositiveIff | src/layout.rs:161-167 | the printable area's width (height) is positive exactly when the left and right (top and bottom) margins together are less than the page width (height) |
| Layout.A4WithTenMillimetreMargins | src/layout.rs:161-167 | an A4 page with 10 mm margins has the 190 x 277 mm printable area at (10, 10) |
| Layout.DefaultMarginsOverflowA10 | src/layout.rs:139-167 | on an A10 page the default one-inch margins leave a negative printable width |
| Layout.MmToWholePixels | src/layout.rs:154-158 | a non-negative length becomes the whole number of pixels below its exact value in pixels at the given DPI; a negative one becomes 0 |
| Layout.ToPixels | src/layout.rs:154-158 | a non-negative width (height) becomes the whole number of pixels at or below its exact size at the DPI; a negative one becomes 0 |
| Layout.A4At300Dpi | src/layout.rs:154-158 | an A4 page is 2480 x 3507 pixels at 300 DPI |
| Layout.NewPlacedImage | src/layout.rs:195-215 | a new image is 100 mm wide, with height to width in the ratio of its pixel dimensions, placed at (50, 50), unrotated, unlocked, opaque, unflipped, with z-index 0 and its id, path and pixel size |
| Layout.EffectiveDpi | src/layout.rs:218-224 | the DPI on each axis times the printed size in inches gives back the pixel count |
| Layout.EffectiveDpiOfA3000PixelImage | src/layout.rs:218-224 | 3000 pixels printed 100 mm wide is 762 DPI; printed 1000 mm wide it is 76.2 DPI, below 150 |
| Layout.Bounds | src/layout.rs:235-237 | the bounds are the image's position and size |
| Layout.ContainsPointIsClosedBounds | src/layout.rs:227-237 | the hit test holds exactly on the closed rectangle of the bounds, all four corners included |
| Layout.Reindexed | src/layout.rs:272-274 | renumbering keeps every image and its place, and sets each z-index to its position |
| Layout.FirstIndexOf | src/layout.rs:269 | the result is the first position holding an image with that id, and none exactly when no image has it |
| Layout.ImagesAfterRemoval | src/layout.rs:268-283 | removal keeps the stacking invariant, changes nothing for an absent id, and otherwise leaves one image fewer |
| Layout.ImagesAfterRemovalShape | src/layout.rs:268-283 | the images before the removed one stay in place, the ones after it move down one, each z-index becomes the new position, and images that were already numbered are unchanged |
| Layout.GetImage | src/layout.rs:291-293 | the result is the first image with that id, and none exactly when no image has it |
| Layout.FindImageAtPoint | src/layout.rs:296-302 | the result is an image containing the point with no image above it containing the point, and none exactly when no image contains it |
| Layout.TopmostImageWins | src/layout.rs:296-302 | of two images under the point, the one higher in the stack is found |
| Layout.SelectedIndex | src/layout.rs:304-309 | with no selection there is no index; otherwise it is the first position of the selected id |
| Layout.SelectedImage | src/layout.rs:304-309 | none exactly when nothing is selected or the selected id is absent; otherwise the first image with the selected id |
| Layout.Layout.constructor | src/layout.rs:251-257 | a new layout has an A4 page, no images and no selection |
| Layout.Layout.Data | src/layout.rs:241-246 | the snapshot holds the layout's page, images and selection |
| Layout.Layout.AddImage | src/layout.rs:260-265 | the image is appended on top with z-index equal to the old count, and the stacking invariant holds |
| Layout.Layout.RemoveImage | src/layout.rs:268-283 | the images become those of the removal function; the removed image is returned; the selection is cleared only when it named the removed id; an absent id changes nothing |
| CanvasWidget.MmToPixels | src/canvas_widget.rs:104-108 | 25.4 mm is 96 pixels at zoom 1, scaled by the zoom; a non-negative length at a non-negative zoom gives non-negative pixels |
| CanvasWidget.PixelsToMm | src/canvas_widget.rs:111-114 | converting the result back to pixels at the same zoom gives the input |
| CanvasWidget.MmPixelsRoundTrip | src/canvas_widget.rs:104-114 | a length converted to screen pixels and back is unchanged, at every positive zoom |
| CanvasWidget.A4WidthOnScreen | src/canvas_widget.rs:104-108 | at zoom 1 the 210 mm A4 width is between 793.7 and 793.8 screen pixels (96 DPI) |
| CanvasWidget.ImageCache.constructor | src/canvas_widget.rs:24-28 | a new cache is empty |
| CanvasWidget.ImageCache.Load | src/canvas_widget.rs:32-34 | loading never yields an image |
| CanvasWidget.ImageCache.Clear | src/canvas_widget.rs:37-39 | the cache becomes empty |
| CanvasWidget.ImageCache.Invalidate | src/canvas_widget.rs:42-44 | the path is forgotten and every other entry is kept |
| CanvasWidget.LayoutCanvas.constructor | src/canvas_widget.rs:70-77 | the canvas shows the given snapshot at zoom 1 with a fresh, empty cache |
| CanvasWidget.LayoutCanvas.SetLayout | src/canvas_widget.rs:80-83 | the snapshot is replaced and the zoom is unchanged |
| CanvasWidget.LayoutCanvas.SetZoom | src/canvas_widget.rs:92-95 | the zoom becomes the request clamped to [0.1, 5] |
| CanvasWidget.LayoutCanvas.Update | src/canvas_widget.rs:242-290 | outside the bounds every event is ignored; a message is produced exactly when the event is captured; a left press selects the topmost image under the cursor (in millimetres) or deselects all; a cursor move reports the position in millimetres; a left release ends the drag; every other event is ignored |
| Printing.DestinationField | src/printing.rs:189-191 | the default destination carries no leading or trailing whitespace |
| Printing.DestinationFieldOfName | src/printing.rs:189-191 | for a name without ':' the destination is the trimmed name |
| Printing.DefaultDestination | src/printing.rs:188-193 | none exactly when no line starts with "system default destination:"; otherwise the field of the first such line |
| Printing.FindDefaultDestination | src/printing.rs:188-193 | the loop that stops at the first match finds the default destination |
| Printing.StateOf | src/printing.rs:204-212 | a line mentioning "idle" is idle; otherwise "processing" is processing; otherwise "stopped" is stopped; otherwise the state is unknown (each in both directions) |
| Printing.DescriptionOf | src/printing.rs:215-219 | the description is the text after the first " is ", or the printer's name when there is none |
| Printing.PrinterFromLine | src/printing.rs:197-227 | the printer is named by the line's second word, is the default exactly when that name is the default destination, and has the line's state and description |
| Printing.ParsePrinterList | src/printing.rs:196-228 | no more printers than lines, each marked default exactly when it is the default destination |
| Printing.ParsePrinterListAppend | src/printing.rs:196-228 | parsing two listings one after the other gives the printers of each, in order |
| Printing.ParsePrinterListOfLine | src/printing.rs:196-228 | a line yields one printer exactly when it is a printer line, and no printer otherwise |
| Printing.CollectPrinters | src/printing.rs:196-229 | the line loop collects exactly the parsed printer list |
| Printing.PrinterOfLine | src/printing.rs:197-227 | one loop step yields the printers that line parses to |
| Printing.ParsePrinterListSnoc | src/printing.rs:196-228 | one more line appends that line's printers |
| Printing.DiscoverPrinters | src/printing.rs:161-233 | a command that cannot start means CUPS is not available; an unsuccessful listing gives no printers; a successful one gives the parsed list with its default destination |
| Printing.GetDefaultPrinter | src/printing.rs:302-305 | discovery's error is passed on; otherwise the result is the first discovered printer marked default, and none exactly when no printer is |
| Printing.FirstDefaultPrinter | src/printing.rs:304 | the result is the first printer marked default, and none exactly when no printer is |
| Printing.ValueFromToken | src/printing.rs:274-275 | a word is the default exactly when it starts with '*', and its value is the word with every leading '*' removed |
| Printing.OptionValues | src/printing.rs:273-282 | there is one value per word |
| Printing.OptionValuesAt | src/printing.rs:273-282 | the value at each position is the value of the word at that position |
| Printing.LastStarred | src/printing.rs:271-279 | the default index is the last word starting with '*', and none exactly when no word does |
| Printing.OptionNames | src/printing.rs:262-267 | without '/' both names are the trimmed text; with one they are the trimmed pieces before and after the first '/' |
| Printing.OptionFromLine | src/printing.rs:260-290 | the option has the names before the first ':' and the values after it, and its default index names a value marked default |
| Printing.ParseOptions | src/printing.rs:259-291 | no more options than lines, each with a default index that names a default value |
| Printing.ParseOptionsAppend | src/printing.rs:259-291 | parsing two listings one after the other gives the options of each, in order |
| Printing.ParseOptionsOfLine | src/printing.rs:259-291 | a line yields one option exactly when it contains ':' |
| Printing.GetPrinterCapabilities | src/printing.rs:236-298 | a command that cannot start means CUPS is not available; an unsuccessful exit gives no options; otherwise the printer's parsed options |
| Printing.CollectOptions | src/printing.rs:259-291 | the line loop collects exactly the parsed options |
| Printing.ParseOptionsSnoc | src/printing.rs:259-291 | one more line appends that line's options |
| Printing.OptionOfLine | src/printing.rs:260-290 | one loop step yields the options that line parses to |
| Printing.ParseValues | src/printing.rs:270-282 | the option gets one value per word of the value part and the last starred word as its default |
| Printing.ScanValues | src/printing.rs:270-282 | the value loop yields the values of the words and the index of the last starred word |
| Printing.ScanStep | src/printing.rs:273-282 | one more word appends its value, and if it is starred it becomes the default |
| Printing.OptionValuesSnoc | src/printing.rs:273-282 | one more word appends its value |
| Printing.LastStarredSnoc | src/printing.rs:273-282 | one more word becomes the default exactly when it is starred |
| Printing.DefaultValue | src/printing.rs:53-55 | a value exists exactly when there is a default index, and it is the value at that index |
| Printing.FirstDefaultValue | src/printing.rs:59-61 | the result is the first value marked default, and none exactly when no value is |
| Printing.CurrentValue | src/printing.rs:58-62 | the result is a value marked default, and none exactly when no value is |
| Printing.DefaultAndCurrentAgreeOnOneStar | src/printing.rs:53-62 | with exactly one starred word, the default value and the current value are both that word without its '*' |
| Printing.OneStarIsFirstAndLast | src/printing.rs:271-279 | the only starred word is both the last starred word and the first default value |
| Printing.FirstDefaultAt | src/printing.rs:59-61 | a default value with none before it is the first default value |
| Printing.DefaultAndCurrentDisagreeOnTwoStars | src/printing.rs:53-62 | with two starred words the default value is the second and the current value the first |
| Printing.TrimOneStar | src/printing.rs:275 | once all leading stars are trimmed, one more leading '*' makes no difference |
| Printing.GetOption | src/printing.rs:74-76 | the result is the first option with that name, and none exactly when no option has it |
| Printing.FirstOptionNamed | src/printing.rs:74-76 | the result is the first option with that name, and none exactly when no option has it |
| Printing.InputSlot | src/printing.rs:79-81 | an option found is the first of the printer's options named "InputSlot"; none exactly when the printer has no such option |
| Printing.MediaType | src/printing.rs:84-86 | an option found is the first of the printer's options named "MediaType"; none exactly when the printer has no such option |
| Printing.ColorModel | src/printing.rs:89-91 | an option found is the first of the printer's options named "ColorModel"; none exactly when the printer has no such option |
| Printing.PrintQualityOption | src/printing.rs:94-96 | an option found is the first of the printer's options named "cupsPrintQuality"; none exactly when the printer has no such option |
| Printing.PageSizes | src/printing.rs:99-101 | an option found is the first of the printer's options named "PageSize"; none exactly when the printer has no such option |
| Printing.MediaOption | src/printing.rs:449-470 | the option starts with "media="; a size without a media name falls back to A4; no other named size is sent as A4 |
| Printing.MediaOptionInjectiveOnNamedSizes | src/printing.rs:449-470 | different named sizes are sent as different media options |
| Printing.ExtraOptionArguments | src/printing.rs:477-481 | each extra option becomes two arguments |
| Printing.ExtraOptionArgumentsAt | src/printing.rs:477-481 | extra option i becomes "-o" at position 2i, followed by "name=value" |
| Printing.LpArguments | src/printing.rs:438-484 | the arguments are the destination, the copies in decimal, the media option and fit-to-page, then the extra options, with the file last |
| Printing.LastDashSegment | src/printing.rs:502 | the last piece has no '-' and ends the word |
| Printing.JobIdAsWritten | src/printing.rs:498-504 | the id is "unknown" when no word starts with "request"; otherwise it is the last '-'-piece of the first such word |
| Printing.JobIdAsWrittenIgnoresJobNumber | src/printing.rs:498-504 | on the standard reply "request id is P-N …" the extracted id is "request", whatever the job number |
| Printing.JobIdFromTokens | src/printing.rs:498-504 | the id has no '-', or is "unknown" |
| Printing.JobIdOfLpReply | src/printing.rs:498-504 | on the standard reply "request id is P-N …" the id is the job number N |
| Printing.JobId | src/printing.rs:497-504 | the job id has no '-', and is "unknown" when no word of the output starts with "request" |
| Printing.JobIdIntended | src/printing.rs:497-504 | the intended job id has no '-' |
| Printing.LpReplyWords | src/printing.rs:498-499 | the words of the reply "request id is D-N rest" are "request", "id", "is", "D-N", then the words of the rest |
| Printing.JobIdOfLpReplyAsWritten | src/printing.rs:497-504 | on the standard reply text the job id is "request", whatever the job number |
| Printing.JobIdIntendedOfLpReply | src/printing.rs:497-504 | on the standard reply text the intended job id is the job number |
| Printing.SendToPrinter | src/printing.rs:424-508 | discovery's error is passed on; a printer that was not discovered is refused; a command that cannot start is an I/O error; an unsuccessful exit reports its standard error; success gives `JobId` of the output, as extracted by the code |
| Printing.SendToPrinterIntended | src/printing.rs:424-508 | the same errors as `send_to_printer`; success gives the intended job id |
| Printing.SendToPrinterReportsRequest | src/printing.rs:424-508 | for a discovered printer and the standard reply, the job id returned is "request", where the intended one is the job number |
| Printing.NormalizedRotation | src/printing.rs:341 | the normalised angle lies in [0, 360) and differs from the input by whole turns |
| Printing.MultipleMinusModulus | src/printing.rs:341 | a whole number of turns less one turn is still whole turns |
| Printing.NormalizedRotationOfInRange | src/printing.rs:341 | an angle in [0, 360) is left as it is |
| Printing.NormalizedRotationIsPeriodic | src/printing.rs:341 | angles that differ by whole turns normalise alike |
| Printing.RotationFor | src/printing.rs:341-350 | within five degrees of 90, 180 or 270 (after normalising) the image gets that quarter turn; otherwise no turn |
| Printing.RotationForNegativeAndLarge | src/printing.rs:341-350 | -90 degrees renders as 270, 450 as 90 and 45 as no rotation |
| Config.DefaultPreferences | src/config.rs:48-67 | the defaults: one-inch margins, A4 plain paper, zoom 1, 10 mm grid, auto-save every 300 s, no recent files, no last printer and no last print settings |
| Config.DefaultPreferencesMatchNewPage | src/config.rs:48-67 | the default margins and paper give exactly a new A4 page |
| Config.Without | src/config.rs:281 | the result keeps exactly the entries other than the path, and is the list itself when the path is absent |
| Config.WithoutKeepsNoDuplicates | src/config.rs:281 | dropping a path keeps a list free of duplicates |
| Config.AddedRecent | src/config.rs:279-288 | no entry is new except the path, and while the old list holds fewer than ten entries none of them is lost |
| Config.AddRecentFile | src/config.rs:279-288 | only the recent-file list changes, to the path then the others, cut to ten |
| Config.RetainOthers | src/config.rs:281 | the retain loop keeps exactly the entries other than the path, in order |
| Config.WithoutSnoc | src/config.rs:281 | one more entry is kept exactly when it is not the path |
| Config.AddedRecentShape | src/config.rs:284-287 | the added path comes first, occurs once, and the list holds at most ten entries |
| Config.AddedRecentKeepsOrder | src/config.rs:281-287 | after the path come the first up-to-nine other entries, in their old order |
| Config.AddedRecentKeepsNoDuplicates | src/config.rs:281-284 | a list free of duplicates stays free of them |
| Config.AddedRecentIdempotent | src/config.rs:279-288 | adding the same path twice is the same as adding it once |
| Config.WithoutHead | src/config.rs:281-284 | dropping the head path from a list where it occurs only at the head gives the rest |
| Config.BackupNamesAreRecognised | src/config.rs:200-205 | every backup name is taken by the exact filter and by the filter as written |
| Config.BackupNameDeterminesStem | src/config.rs:218-227 | under the exact filter a backup name belongs to one layout only |
| Config.AsWrittenFilterTakesOtherLayoutsBackups | src/config.rs:221-226 | the filter as written takes a backup of "photo_album" as one of "photo" |
| Config.ExactFilterIsNarrower | src/config.rs:221-226 | every name the exact filter takes is also taken by the filter as written |
| Config.InsertByModified | src/config.rs:230-234 | inserting adds exactly that entry |
| Config.InsertKeepsSorted | src/config.rs:230-234 | inserting into a list sorted by modification time keeps it sorted |
| Config.SortByModified | src/config.rs:230-234 | the result is sorted by modification time (an unreadable time first) and is a permutation of the input |
| Config.Reverse | src/config.rs:235 | the result is the input backwards |
| Config.ReverseSortedIsNewestFirst | src/config.rs:229-235 | a sorted list, reversed, is newest first |
| Config.ReversePreservesMultiset | src/config.rs:235 | reversing is a permutation |
| Config.NewestBackups | src/config.rs:229-235 | the entries the filter accepts, newest first, as a permutation of them |
| Config.MatchingBackups | src/config.rs:219-227 | exactly the directory entries whose names the filter accepts (the filter as written: they start with the stem and end with ".pxl") |
| Config.MatchingBackupsAppend | src/config.rs:219-227 | filtering two listings one after the other gives the accepted entries of each, in order |
| Config.MatchingBackupsSnoc | src/config.rs:219-227 | one more entry is kept exactly when the filter accepts its name |
| Config.BackupsToRemove | src/config.rs:218-245 | the entries to delete are the accepted ones after the fifth in newest-first order; the program's filter is `StemAndExtension` |
| Config.Skip | src/config.rs:238 | the elements after the first n, or none when there are no more than n |
| Config.CollectBackups | src/config.rs:219-227 | the filtering loop yields exactly the accepted entries |
| Config.Removed | src/config.rs:237-242 | as many entries are deleted as there are accepted ones beyond five |
| Config.Kept | src/config.rs:237-242 | five accepted entries are kept, or all of them when there are fewer |
| Config.RetentionKeepsTheFiveNewest | src/config.rs:218-245 | under either filter: at most five entries are kept; kept and deleted together are the accepted entries; no deleted entry is newer than a kept one; only accepted entries are deleted |
| Config.OldestMatchIsRemoved | src/config.rs:218-245 | with more than five accepted entries, an accepted entry older than every other entry is deleted |
| Config.AsWrittenCleanupRemovesOtherLayoutsBackup | src/config.rs:218-245 | cleaning up "photo" as written deletes a backup of "photo_album" once it is the oldest of more than five accepted entries |
| Config.ExactCleanupSparesOtherLayouts | src/config.rs:218-245 | with the exact filter no deleted entry is a backup of another layout |
| Config.NewestSplit | src/config.rs:237-242 | splitting a newest-first list leaves nothing in the tail newer than anything in the head |
| App.HeightForWidth | src/main.rs:332-338 | the derived height is in the initial proportions to the width, and positive for positive inputs |
| App.WidthForHeight | src/main.rs:332 | the derived width is in the initial proportions to the height, and positive for positive inputs |
| App.LockedResizeKeepsAspect | src/main.rs:332-413 | under the aspect lock every handle keeps the proportions the frame had when the drag started |
| App.LockedWidthDrag | src/main.rs:335-393 | under the lock a corner or side handle sets the width from the cursor and derives the height |
| App.LockedHeightDrag | src/main.rs:394-412 | under the lock the top or bottom handle sets the height from the cursor and derives the width |
| App.ResizedFrame | src/main.rs:334-413 | the edges away from the dragged handle stay where they were when the drag started |
| App.ResizeFollowsCursorAboveMinimum | src/main.rs:336-404 | the dragged dimension is the initial one plus the cursor offset, but never below 10 mm |
| App.UnlockedResize | src/main.rs:375-412 | without the lock a side handle leaves the other dimension alone, and a corner sets both from the cursor, each at least 10 mm |
| App.StillResizeKeepsFrame | src/main.rs:334-413 | an unlocked drag that has not moved leaves a frame of at least 10 mm unchanged |
| App.LockedResizeStaysPositive | src/main.rs:334-413 | under the lock a positive frame stays positive, whatever the drag |
| App.RotatedClockwise | src/main.rs:636-647 | a clockwise turn swaps width and height, adds 90 degrees modulo 360, and changes nothing else |
| App.RotatedCounterClockwise | src/main.rs:648-659 | a counter-clockwise turn swaps width and height, adds 270 degrees modulo 360, and changes nothing else |
| App.RotationsCancel | src/main.rs:636-659 | for an angle in [0, 360), turning clockwise and counter-clockwise, in either order, gives back the image |
| App.FourQuarterTurns | src/main.rs:636-647 | four clockwise turns give back the image |
| App.OpacityFromPercent | src/main.rs:676-677 | the opacity lies in [0, 1]; a percentage in [0, 100] becomes that fraction; values outside are clamped |
| App.WithWidth | src/main.rs:685-701 | the width is set; under the lock the height is in the pixel proportions; otherwise the height stays; nothing else changes |
| App.WithHeight | src/main.rs:702-718 | the height is set; under the lock the width is in the pixel proportions; otherwise the width stays; nothing else changes |
| App.Apply | src/main.rs:636-718 | no edit changes an image's id, path, z-index or pixel size |
| App.EditImage | src/layout.rs:286-288 | the first image with the id is edited, every other image is left as it was, and an absent id changes nothing |
| App.EditKeepsInvariants | src/main.rs:314-317 | an edit keeps the stacking invariant and every image's pixel size |
| App.EditKeepsSelection | src/main.rs:314-317 | editing an image keeps the same image selected |
| App.SameIdsSameIndex | src/main.rs:314-317 | two image lists with the same ids find an id at the same position |
| App.RemovalKeepsPixelSizes | src/main.rs:486-496 | removing an image keeps every remaining image's pixel size positive |
| App.DragEdit | src/main.rs:304-413 | a move drag places the image at its start position plus the cursor offset; a resize drag sets the frame the resize rules give |
| App.AcceptedMarginsLeavePrintableArea | src/main.rs:510-545 | margins that each pass the margin check leave a printable area of positive width and height |
| App.Toggled | src/main.rs:579-589 | toggling swaps width and height and flips the orientation, changing nothing else |
| App.ToggleTwice | src/main.rs:579-589 | toggling twice gives back the page |
| App.WithBorderless | src/main.rs:590-613 | the flag is set; on makes every margin 0, off makes every margin 25.4; nothing else changes |
| App.BorderlessOffForgetsMargins | src/main.rs:590-613 | borderless on then off is the same as off alone, so custom margins are not restored |
| App.WithPaperSize | src/main.rs:498-505 | the page gets the paper's size and dimensions; margins and everything else stay |
| App.WithLastPrintSettings | src/main.rs:168-196 | each remembered setting, the margins included, replaces the page's own; the width and height stay |
| App.ZoomedIn | src/main.rs:546-550 | zooming in multiplies by 1.2, capped at 5 |
| App.ZoomedOut | src/main.rs:551-555 | zooming out divides by 1.2, floored at 0.1 |
| App.ZoomStaysInRange | src/main.rs:546-555 | a zoom in [0.1, 5] stays there after zooming in or out |
| App.ZoomOutUndoesZoomIn | src/main.rs:546-555 | below the cap, zooming out undoes zooming in |
| App.AcceptedCopies | src/main.rs:614-621 | a count is accepted exactly when the text parses as a u32 from 1 to 99, and then it is that value |
| App.CopiesRoundTrip | src/main.rs:614-621 | every count from 1 to 99, written in decimal, is accepted as itself |
| App.CopiesOutOfRangeRefused | src/main.rs:614-621 | "0", "100" and the empty text are refused |
| App.ChosenPrinter | src/main.rs:733-740 | the first default printer is chosen, else the first printer; with no printers the choice stays |
| App.DefaultPrinterChosen | src/main.rs:733-740 | the first printer marked default is chosen, whatever follows it |
| App.Components | src/main.rs:1785-1787 | path components are non-empty, not ".", and come from the path |
| App.FileName | src/main.rs:1785-1787 | a file name is non-empty, not "." or "..", and has no '/' |
| App.FileNameOfPath | src/main.rs:1785-1787 | the file name of "directory/name" is the name |
| App.Title | src/main.rs:1782-1798 | the title begins "Print Layout", names the file after " - " (or "Unnamed"), and ends in '*' exactly when there are unsaved changes |
| App.TitleOfModifiedFile | src/main.rs:1782-1798 | a saved file with unsaved edits shows "Print Layout - name*" |
| App.PlacedImages | src/main.rs:468-482 | every image has a positive pixel size, and there are at most as many images as files |
| App.PlacedImagesAppend | src/main.rs:468-482 | the images of two lists of files are those of the first list followed by those of the second, so the files are handled one at a time, in order |
| App.PlacedImagesOfOne | src/main.rs:469-481 | a decoded file gives exactly one image, with its id, path and pixel size; a file that fails to decode gives none |
| App.ReindexedSnoc | src/main.rs:468-485 | renumbering after appending one image numbers the new one last and the old ones as before |
| App.PrintLayout.constructor | src/main.rs:163-245 | the editor starts with an empty A4 layout carrying the last print settings, the saved zoom, the remembered printer, the remembered copies or one, 300 DPI, no drag and nothing printing |
| App.PrintLayout.OnSelectImage | src/main.rs:271-285 | the id is selected; for a present image a move drag starts from its current position and size |
| App.PrintLayout.OnStartResize | src/main.rs:286-296 | the id is selected; for a present image a resize drag on that handle starts from its current frame |
| App.PrintLayout.OnDeselectAll | src/main.rs:297-301 | no selection and no drag |
| App.PrintLayout.OnMouseMoved | src/main.rs:302-430 | during a drag with a selection, the first move latches the start point and the selected image gets the position or frame the drag gives; otherwise nothing changes |
| App.PrintLayout.OnMouseReleased | src/main.rs:431-437 | an active drag ends and the layout is marked modified; otherwise nothing changes |
| App.PrintLayout.OnImageMoved | src/main.rs:438-444 | the image with the id, if any, moves to the position; the canvas is refreshed only then |
| App.PrintLayout.OnImageResized | src/main.rs:445-451 | the image with the id, if any, gets the size; the canvas is refreshed only then |
| App.PrintLayout.OnImageFilesSelected | src/main.rs:468-485 | every decoded file is appended on top, in order, and the images are renumbered |
| App.PrintLayout.OnDeleteImageClicked | src/main.rs:486-497 | with a selection the selected image is removed; without one nothing changes |
| App.PrintLayout.OnPaperSizeSelected | src/main.rs:498-505 | the page gets the paper size and its dimensions, and the layout is modified |
| App.PrintLayout.OnPaperTypeSelected | src/main.rs:506-509 | only the paper type changes, and the layout is modified |
| App.PrintLayout.OnPrintQualitySelected | src/main.rs:571-574 | only the print quality changes, and the layout is modified |
| App.PrintLayout.OnColorModeSelected | src/main.rs:575-578 | only the colour mode changes, and the layout is modified |
| App.PrintLayout.OnMarginTopChanged | src/main.rs:510-518 | a parsed top margin from 0 to below half the height is taken; anything else is ignored |
| App.PrintLayout.OnMarginBottomChanged | src/main.rs:519-527 | a parsed bottom margin from 0 to below half the height is taken; anything else is ignored |
| App.PrintLayout.OnMarginLeftChanged | src/main.rs:528-536 | a parsed left margin from 0 to below half the width is taken; anything else is ignored |
| App.PrintLayout.OnMarginRightChanged | src/main.rs:537-545 | a parsed right margin from 0 to below half the width is taken; anything else is ignored |
| App.PrintLayout.OnZoomIn | src/main.rs:546-550 | the zoom grows by 20 % up to 5, and the canvas gets it |
| App.PrintLayout.OnZoomOut | src/main.rs:551-555 | the zoom shrinks by 20 % down to 0.1, and the canvas gets it |
| App.PrintLayout.OnZoomReset | src/main.rs:556-560 | the zoom is 1 |
| App.PrintLayout.OnZoomToFit | src/main.rs:561-566 | the zoom is 0.5 |
| App.PrintLayout.OnOrientationToggled | src/main.rs:579-589 | the page is toggled and the layout is modified |
| App.PrintLayout.OnBorderlessToggled | src/main.rs:590-613 | the page gets the borderless margins and the layout is modified |
| App.PrintLayout.OnCopiesChanged | src/main.rs:614-621 | an accepted count replaces the copies and anything else keeps them, so they stay from 1 to 99 |
| App.PrintLayout.OnThumbnailClicked | src/main.rs:622-631 | the id is selected and no drag starts |
| App.PrintLayout.EditSelected | src/main.rs:636-718 | with a selected image present it alone is edited and the layout is modified; otherwise nothing changes |
| App.PrintLayout.OnRotateImageClockwise | src/main.rs:636-647 | the selected image turns clockwise; without one nothing changes |
| App.PrintLayout.OnRotateImageCounterClockwise | src/main.rs:648-659 | the selected image turns counter-clockwise; without one nothing changes |
| App.PrintLayout.OnFlipImageHorizontal | src/main.rs:660-666 | the selected image's horizontal flip is inverted; without one nothing changes |
| App.PrintLayout.OnFlipImageVertical | src/main.rs:667-673 | the selected image's vertical flip is inverted; without one nothing changes |
| App.PrintLayout.OnImageOpacityChanged | src/main.rs:674-684 | a parsed percentage sets the selected image's opacity, clamped to [0, 1]; otherwise nothing changes |
| App.PrintLayout.OnImageWidthChanged | src/main.rs:685-701 | a positive parsed width is given to the selected image under the aspect rule; otherwise nothing changes |
| App.PrintLayout.OnImageHeightChanged | src/main.rs:702-718 | a positive parsed height is given to the selected image under the aspect rule; otherwise nothing changes |
| App.PrintLayout.OnMaintainAspectRatio | src/main.rs:719-721 | the aspect lock is set |
| App.PrintLayout.OnNewLayout | src/main.rs:722-732 | an empty A4 layout with no file and no unsaved changes |
| App.PrintLayout.OnPrintersDiscovered | src/main.rs:733-740 | the list is stored and the printer choice follows the default-first rule |
| App.PrintLayout.OnPrinterSelected | src/main.rs:741-743 | the printer is chosen |
| App.PrintLayout.OnPrintClicked | src/main.rs:744-773 | a job is started exactly when there are images and a chosen printer; it prints the layout on that printer with the chosen copies, and the status becomes rendering |
| App.PrintLayout.OnPrintJobCompleted | src/main.rs:774-811 | a job id completes the status and records the printer, copies and page settings and the time as the last successful print; an error fails the status and records nothing |
| App.PrintLayout.OnDismissPrintStatus | src/main.rs:812-814 | the status returns to not printing |
| App.PrintLayout.WindowTitle | src/main.rs:1782-1798 | the window shows the title of its current file and modified flag |
| Text.Find | src/printing.rs:215 | the result is the first index where the pattern occurs, and none exactly when it occurs nowhere |
| Text.FindFrom | src/printing.rs:215 | the first occurrence at or after the start index, and none exactly when there is none |
| Text.IndexOf | src/printing.rs:260-262 | the first position of the character, and none exactly when it is absent |
| Text.SplitOnce | src/printing.rs:260-262 | the text is the part before, the separator and the part after, with no separator before; none exactly when it is absent |
| Text.Split | src/printing.rs:190 | at least one piece, none containing the separator |
| Text.JoinOfSplit | src/printing.rs:190 | joining the pieces with the separator gives back the text |
| Text.SplitAtSeparator | src/printing.rs:190 | a separator that occurs gives at least two pieces |
| Text.LastPiece | src/printing.rs:502 | the text after the last separator has no separator and is no longer than the text |
| Text.LastPieceIsMaximalSuffix | src/printing.rs:502 | the last piece ends the text and is all of it or follows a separator |
| Text.LastPieceOfFree | src/printing.rs:502 | a text without the separator is its own last piece |
| Text.LastPieceAfterSeparator | src/printing.rs:502 | what precedes a separator does not affect the last piece |
| Text.SplitEndsWithLastPiece | src/printing.rs:502 | the last piece of the split is the text after the last separator |
| Text.SplitLastPiece | src/printing.rs:502 | the split's last piece is the text after the final separator |
| Text.TrimStart | src/printing.rs:190 | the result is a suffix, everything cut is whitespace, and it does not start with whitespace |
| Text.TrimEnd | src/printing.rs:190 | the result is a prefix, everything cut is whitespace, and it does not end with whitespace |
| Text.Trim | src/printing.rs:190 | the result is a slice of the text with only whitespace cut before and after it, it neither starts nor ends with whitespace, and a text without whitespace is unchanged |
| Text.TrimStartMatches | src/printing.rs:275 | the result is a suffix, everything cut is the character, and it does not start with it |
| Text.TokenLength | src/printing.rs:198 | the length of the longest whitespace-free prefix |
| Text.SplitWhitespace | src/printing.rs:198 | every word is non-empty and free of whitespace |
| Text.SplitWhitespaceOfToken | src/printing.rs:198 | a text free of whitespace is one word |
| Text.TokenLengthBeforeWhitespace | src/printing.rs:198 | a word ends at the first whitespace character |
| Text.SplitWhitespaceAtWhitespace | src/printing.rs:198 | a whitespace character separates the words before it from those after it |
| Text.TokensJoined | src/printing.rs:502 | two words joined by a non-whitespace character form one word |
| Text.SplitWhitespaceOfWordThen | src/printing.rs:498-499 | a word, a space and a text give the word, then the words of the text |
| Text.SplitWhitespaceOfTwoWordsThen | src/printing.rs:498-499 | two words, each followed by a space, then a text give the two words, then the words of the text |
| Text.SplitWhitespaceOfFourWordsThen | src/printing.rs:498-499 | four words, each followed by a space, then a text give the four words, then the words of the text |
| Text.Lines | src/printing.rs:188 | no line contains a line feed; an empty text has no lines and a text without line feeds is one line |
| Text.LinesAtLineFeed | src/printing.rs:188 | the text before the first line feed, less a trailing carriage return, is the first line, and the lines of the rest follow |
| Text.FirstStartingWith | src/printing.rs:501 | the first item with the prefix, and none exactly when no item has it |
| Text.SignLength | src/main.rs:616 | the sign part is one character exactly when the text starts with '+', and none otherwise |
| Text.ParseU32 | src/main.rs:616 | a value is returned exactly when the text after an optional leading '+' is one or more digits whose decimal value fits in 32 bits, and it is that value; the empty text and a lone '+' are refused |
| Text.DigitsValueOfLeadingZero | src/main.rs:616 | a leading zero does not change the value of a digit string |
| Text.ParseU32OfLeadingZero | src/main.rs:616 | a leading zero in front of digits is read as the digits alone |
| Text.ParseU32OfPlus | src/main.rs:616 | the digits after a leading '+' are read as the digits alone |
| Text.ParseU32OfSeven | src/main.rs:616 | "7" reads as 7 |
| Text.ParseU32OfSignAndZeros | src/main.rs:616 | "+7" and "007" both read as 7 |
| Text.ParseU32OfNatToStringAboveBound | src/main.rs:616 | a number above the largest u32, written in decimal, is refused |
| Text.NatToString | src/printing.rs:440 | the decimal form is digits only, with no leading zero |
| Text.DigitsValueOfNatToString | src/printing.rs:440 | reading the decimal form back gives the number |
| Text.ParseU32OfNatToString | src/main.rs:616 | every u32 written in decimal parses back to itself |
| FloatMath.Clamp | src/canvas_widget.rs:93 | the result lies in the range, is the value when it is inside, and the nearer bound otherwise |
| FloatMath.Min | src/main.rs:547 | the smaller of the two |
| FloatMath.Max | src/main.rs:552 | the larger of the two |
| FloatMath.Trunc | src/main.rs:640 | the whole number toward zero within one of the value |
| FloatMath.FMod | src/printing.rs:341 | the remainder has the sign of the dividend, is smaller than the divisor, and differs from the dividend by a multiple of it |
| FloatMath.RemainderBounds | src/printing.rs:341 | dividend minus divisor times the truncated quotient has the remainder's bounds |
| FloatMath.FModOfInRange | src/printing.rs:341 | a value already in [0, m) is its own remainder |
| FloatMath.CongruentInRangeAreEqual | src/printing.rs:341 | two values in [0, m) that differ by a multiple of m are equal |
| FloatMath.FModOfReducedSum | src/main.rs:640 | reducing before adding a non-negative amount gives the remainder of the sum |
| FloatMath.FModOfOneTurnMore | src/main.rs:652 | one more whole turn does not change a reduced angle |

## Left out

- Rendering: drawing the canvas, the thumbnails and the page preview, and compositing the layout into a print image (`render_layout_to_image`). Only the rotation classification it uses is modelled. Pixel output is beyond a model over reals.
- Image decoding (`image::open`): a chosen file arrives already decoded to its pixel size, or as a failure.
- Loading, saving, auto-save, opening a recent file and writing configuration files: these are file-system I/O, and the layout serialisation format is not part of this model. The recent-file list and the backup-retention rule are modelled on values.
- The asynchronous tasks, subscriptions and the `Command`s the handlers return: the printers and job results they deliver are handler parameters.
- Subprocesses: each `lpstat`, `lpoptions` and `lp` run is replaced by its captured result, a `ProcessOutput`. The temporary print-file path is a parameter.
- `String::from_utf8_lossy`: the command output is taken as already decoded text.
- The clock: the time of the last successful print is the parameter `now`.
- The text fields that only echo input (margins, copies, image size and opacity, zoom text): the handlers receive the parsed value (`Option<real>`) or the copies text.
- The canvas calls `update_image_position`, `update_image_bounds` and `remove_from_source_cache` are used in `src/main.rs` but not defined in `src/canvas_widget.rs`, so they are not part of this model. During a drag the canvas snapshot is not refreshed.
- The thumbnail cache, `CanvasClicked` (it has no handler), `ImageCopiesChanged` and `SettingsTabChanged` (UI state only).
- The id generator of `PlacedImage::new`: the id is a parameter of `Layout.NewPlacedImage`.
- f32 rounding and overflow, and `u32` saturation: lengths, angles and zoom are exact reals and counts are unbounded naturals.
- Layout.MmToWholePixels: models the cast from `f32` to `u32` as truncation with negatives becoming 0. It does not model saturation at the `u32` maximum.
- Layout.NewPlacedImage: requires a positive pixel width. With a zero width the source divides by zero in `f32`, giving infinity or NaN, which reals cannot express.
- Layout.EffectiveDpi: requires a positive printed width and height, for the same reason.
- App.PrintLayout.OnMouseMoved: requires a nonzero initial size when a resize drag runs under the aspect lock, because the aspect ratio divides by it. Every image the model places has a positive size.
- App.WithWidth, App.WithHeight and App.PrintLayout.EditSelected: under the aspect lock they require the positive pixel dimension they divide by. The `PrintLayout` invariant keeps every image's pixel size positive.
- Printing.JobIdFromTokens: states only that the id has no '-' or is "unknown". `Printing.JobIdOfLpReply` gives the id for the standard reply.
- Config.Without, Config.AddRecentFile, Config.RetainOthers: compare paths as strings. `PathBuf` equality compares components, so "a/b", "a/b/" and "a//b" are one path to the program and three to the model.
- Layout paper types: `src/layout.rs:94-104` as shown lists nine paper types. The default preferences and the print settings also use Plain, SuperHighGloss, Glossy, SemiGloss, Matte and FineArt (`src/config.rs:53`, `src/main.rs:1153-1154`), so `Layout.PaperType` has those six as well.
- Layout paper sizes: `src/layout.rs` as shown gives dimensions only for the ISO and North American sizes. The photo sizes follow the inch dimensions in their names, and Panorama is 210 x 594 mm.
- Page fields that the shown `Page::new` does not set (orientation, borderless, print quality, colour mode) start as portrait, not borderless, standard quality and driver colour matching. New images start opaque and unflipped.

## Findings

| source | as written | input that shows it | evidently intended | confidence | as-written member | corrected member |
|---|---|---|---|---|---|---|
| src/printing.rs:497-504 | the job id is the last '-'-piece of the first word of `lp`'s output that starts with "request" | the standard reply "request id is HP-42 (1 file(s))": the first such word is "request" itself, so the job id is "request" | the job number after the destination, "42" | not executed | Printing.JobIdOfLpReplyAsWritten | Printing.JobIdIntendedOfLpReply |
| src/config.rs:221-226 | a directory entry is taken as a backup of the layout when its name starts with the layout's file stem and ends with ".pxl" | cleaning up "photo" takes "photo_album_backup_20240101_120000.pxl", a backup of another layout, and deletes it once it is the oldest of six | only names of the form stem + "_backup_" + timestamp + ".pxl" | not executed | Config.AsWrittenCleanupRemovesOtherLayoutsBackup | Config.ExactCleanupSparesOtherLayouts |

The members that model the program keep its behaviour. The intended behaviour sits beside them:

- `Printing.SendToPrinter` returns `Printing.JobId`, the extraction as written. `Printing.SendToPrinterIntended` returns `Printing.JobIdIntended`, which gives the job number.
- `Config.BackupsToRemove`, `Config.Removed` and `Config.Kept` take the filter as a parameter. `cleanup_old_backups` uses `StemAndExtension` (`Config.IsBackupOfAsWritten`). `ExactBackupName` (`Config.IsBackupOf`) is the intended filter. `Config.RetentionKeepsTheFiveNewest` holds for both.
