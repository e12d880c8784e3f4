# fbtft core in Dafny

This project models the core of fbtft, the Linux staging framework for small
TFT panels driven over SPI or a parallel GPIO bus, together with the inline
helpers of the tinydrm header. The model covers:

- `fbtft_set_addr_win`: the three MIPI DCS register writes that open an
  address window.
- The dirty-line tracker. `fbtft_mkdirty` widens the interval
  `(dirty_lines_start, dirty_lines_end)`. `fbtft_deferred_io` takes the
  interval, leaves the clean sentinel `(yres - 1, 0)` behind and folds in the
  dirty pages. `fbtft_update_display` sanitises the range and writes those
  lines to the panel.
- The two init interpreters. `fbtft_init_display` runs the flat
  `init_sequence` program (`-1` register write, `-2` delay, `-3` end), and
  `fbtft_init_display_dt` runs the device-tree `init` property. Both are
  proved against a decoder, and both round-trip with an encoder.
- The hook table `struct fbtft_ops` and `fbtft_merge_fbtftops`, with its
  algebra: idempotent, all-NULL units, associative.
- The configuration done by `fbtft_probe_common`:
  - the gamma-size check;
  - the `fps`/`bpp` defaults;
  - the property reads in source order, each of which can abort the probe;
  - the `buswidth` check;
  - the transmit-buffer size and the 9-bit emulation buffer;
  - the choice of bus functions, the merge of the driver's hooks, and the
    choice of init interpreter.
- `fbtft_verify_gpios`, and the `init_display` check of
  `fbtft_register_framebuffer`.
- The geometry `fbtft_framebuffer_alloc` computes: rotation, `line_length`
  and `smem_len`.
- `chan_to_field` and `fbtft_fb_setcolreg` on the pseudo palette, and
  `fbtft_fb_blank`.
- The tinydrm `prepared`/`enabled` toggles, which call the panel only on a
  real change of state, and the full-clip test and reset of a
  `drm_clip_rect`.

C `unsigned int` arithmetic is written out as reduction modulo 2^32 (`U32`).
Where the C code converts between signed and unsigned values, the model does
too. Calls into the panel and the bus are recorded as a trace of `Event`
values.

Files:

- `common.dfy`: integer types, arithmetic lemmas, error numbers, `Option`,
  `Result`, bus events.
- `addr_win.dfy`: `fbtft_set_addr_win`.
- `dirty_tracker.dfy`: mkdirty, deferred I/O and update_display, with the
  driver state as class `Par`.
- `init_program.dfy`: decoded commands and traces, shared by both
  interpreters.
- `init_flat.dfy` and `init_dt.dfy`: the two interpreters.
- `framebuffer.dfy`: geometry, palette, blanking.
- `ops_table.dfy`: `struct fbtft_ops`, with class `FbtftOps` as
  `par->fbtftops`.
- `probe.dfy`: the probe configuration and the tests made at registration.
- `tinydrm.dfy`: the tinydrm header helpers.

Where the prose description of the system and the code differ, the model
follows the code:

- `fbtft_mkdirty(info, -1, 0)` marks lines `0..yres-2`, not the whole frame
  (`DirtyTracker.FullFrameMarkStopsShort`).
- A deferred flush with nothing dirty is not skipped. The clean sentinel is
  an inverted range, which `fbtft_update_display` turns into a full-frame
  update (`DirtyTracker.EmptyFlushIsFullFrame`).
- The device-tree init hook is stored into `display->fbtftops` after the
  merge, so it never reaches `par->fbtftops`. The model reproduces this
  (`Probe.DtInitNeverInstalled`).

## Model

| member | source | states |
|---|---|---|
| AddrWin.SetAddrWinWrites | fbtft/fbtft-core.c:217-227 | three register writes: 2Ah with the big-endian bytes of xs and xe, 2Bh with those of ys and ye, then 2Ch alone |
| AddrWin.SetAddrWinDecodes | fbtft/fbtft-core.c:217-227 | for 16-bit coordinates, a panel reading the data bytes back as big-endian pairs recovers xs, xe, ys, ye; every byte is below 256 |
| AddrWin.SetAddrWinExample | fbtft/fbtft-core.c:217-227 | the concrete bytes of the window (0x0102,0x0304)-(0x0506,0x0708) |
| DirtyTracker.Widen | fbtft/fbtft-core.c:290-296 | the unsigned min/max merge: start is the smaller of the old start and the marked first line, end the larger of the old end and the marked last line, compared as `unsigned int` |
| DirtyTracker.MarkAllCovers | fbtft/fbtft-core.c:279-300 | any sequence of mkdirty calls only widens the interval, and the result covers the first and last line of every call |
| DirtyTracker.FullFrameMarkStopsShort | fbtft/fbtft-core.c:284-295 | `mkdirty(-1, 0)` on a clean interval flushes lines 0..yres-2, not the last line |
| DirtyTracker.ClampExample | fbtft/fbtft-core.c:254-262 | a mark past the last line makes the flush cover the whole frame |
| DirtyTracker.PageLines | fbtft/fbtft-core.c:322-329 | the last line of a page is clamped to `yres - 1` |
| DirtyTracker.PageLinesCoverBytes | fbtft/fbtft-core.c:322-329 | every byte of a dirty page that lies in the frame is on a line between the page's `y_low` and `y_high` |
| DirtyTracker.FoldPagesCovers | fbtft/fbtft-core.c:319-334 | the page loop only widens the snapshot, and it covers the lines of every dirty page |
| DirtyTracker.SanitizeRange | fbtft/fbtft-core.c:246-262 | a valid range is kept; an inverted range, or one past the last line, becomes `(0, yres - 1)`; the result is never empty and lies in the frame |
| DirtyTracker.VmemSpan | fbtft/fbtft-core.c:270-271 | offset and length are `s * line_length` and `(e - s + 1) * line_length`, do not wrap, and end inside the frame buffer |
| DirtyTracker.UpdateDisplayEvents | fbtft/fbtft-core.c:240-277 | set_addr_win `(0, s, xres - 1, e)` when the hook is present, then one write_vmem of exactly the sanitised lines, which stay inside the frame |
| DirtyTracker.FlushCovers | fbtft/fbtft-core.c:279-337 | after any marks and dirty pages, the flushed range includes every marked line in the frame and every line of every dirty page |
| DirtyTracker.EmptyFlushIsFullFrame | fbtft/fbtft-core.c:246-253 | flushing the clean sentinel `(yres - 1, 0)` rewrites the whole frame |
| DirtyTracker.Par.constructor | fbtft/fbtft-core.c:1015-1017 | the zero-filled par starts with the interval `(0, 0)` and an empty bus trace |
| DirtyTracker.Par.MkDirty | fbtft/fbtft-core.c:279-300 | the new interval is the old one widened by the marked lines, with `y == -1` meaning from line 0 with height `yres - 1` |
| DirtyTracker.Par.AfterDraw | fbtft/fbtft-core.c:339-370 | fillrect, copyarea and imageblit each mark `dy` with the drawn height |
| DirtyTracker.Par.AfterWrite | fbtft/fbtft-core.c:372-385 | a write marks lines 0..yres-2 |
| DirtyTracker.Par.UpdateDisplay | fbtft/fbtft-core.c:240-277 | the bus trace grows by exactly `UpdateDisplayEvents`, and the interval is unchanged |
| DirtyTracker.Par.DeferredIo | fbtft/fbtft-core.c:302-337 | leaves the clean sentinel, and writes the interval folded with the dirty pages |
| InitFlat.FirstStop | fbtft/fbtft-core.c:865-873 | the first `-3` position below the limit, or None exactly when there is none |
| InitFlat.RunEnd | fbtft/fbtft-core.c:913-921 | the end of the run of values: every entry before it is non-negative and the entry at it is negative |
| InitFlat.CopyRun | fbtft/fbtft-core.c:912-921 | copies the run into the 64-entry buffer, failing exactly when it holds more than 64 values |
| InitFlat.WriteCommand | fbtft/fbtft-core.c:897-939 | one `-1` command decoded: the register write and the next position, or a decode failure |
| InitFlat.RunProgram | fbtft/fbtft-core.c:875-956 | return code and trace equal the outcome of the decoded program: reset, chip select, one call per command, then 0 at the stop marker or -EINVAL at the first malformed entry |
| InitFlat.InitDisplay | fbtft/fbtft-core.c:850-957 | without a program or without a stop marker within the limit: -EINVAL with no panel call; otherwise the decoded run; the result is 0 or -EINVAL |
| InitFlat.EncodeFlatEntries | fbtft/fbtft-core.c:880-951 | a well-formed encoding contains no `-3`, and every entry is a delimiter or a value |
| InitFlat.FlatFromEncoded | fbtft/fbtft-core.c:880-951 | decoding an encoded command list gives back exactly that list, successfully |
| InitFlat.FlatFromDecodes | fbtft/fbtft-core.c:880-951 | a successful decode is a well-formed command list whose encoding is exactly the decoded entries |
| InitFlat.FlatRoundTrip | fbtft/fbtft-core.c:850-957 | running the encoding of well-formed commands returns 0 and makes exactly those calls, whatever follows the marker |
| InitFlat.FlatSuccessDecodes | fbtft/fbtft-core.c:850-957 | a run returning 0 had a stop marker, and the program before it is the encoding of the commands executed |
| InitFlat.FlatExample | fbtft/fbtft-core.c:880-951 | a concrete program with a write, a delay and a write |
| InitFlat.FlatTooManyValues | fbtft/fbtft-core.c:914-919 | a register write of 65 values is refused after reset, and nothing is written |
| InitDt.DataEnd | fbtft/fbtft-core.c:787-796 | the run of data words (upper 16 bits clear) ends at the first non-data word or at the end |
| InitDt.DataEndAt | fbtft/fbtft-core.c:787-796 | the run ends at `e` when the words before `e` are data and `e` is not |
| InitDt.DtValues | fbtft/fbtft-core.c:784-796 | a write carries one value per word: the command word's low half, then the data words |
| InitDt.CopyDataRun | fbtft/fbtft-core.c:785-796 | fills the 64-entry buffer, failing exactly when the write would need more than 64 values |
| InitDt.RunDtProgram | fbtft/fbtft-core.c:779-833 | return code and trace equal the outcome of the decoded property: reset, chip select, one call per word group, -EINVAL at a word with neither flag |
| InitDt.InitDisplayDt | fbtft/fbtft-core.c:763-834 | no node, or a missing or empty `init`: -EINVAL with no panel call; otherwise the decoded run; the result is 0 or -EINVAL |
| InitDt.TaggedWord | fbtft/fbtft-core.c:784-821 | a command or delay word carries its own flag, not the other one, is no data word, and keeps its value in its low half |
| InitDt.DtFromEncoded | fbtft/fbtft-core.c:783-831 | decoding the encoding of well-formed commands gives back exactly those commands |
| InitDt.DtRoundTrip | fbtft/fbtft-core.c:763-834 | running the encoding of a non-empty well-formed command list returns 0 and makes exactly those calls |
| InitDt.DtFromWellFormed | fbtft/fbtft-core.c:783-831 | whatever the words, the decoded commands have 16-bit values, 1 to 64 per write, and 16-bit delays |
| InitDt.DtWellFormedIsFlat | fbtft/fbtft-core.c:783-831 | every command the device-tree format can express, the flat format can express too |
| InitDt.InterpretersAgree | fbtft/fbtft-core.c:763-957 | for well-formed commands, the two interpreters on their own encodings return the same code and make the same calls |
| InitDt.EmptyDtProgramFails | fbtft/fbtft-core.c:774-777 | an empty `init` fails before reset, while the flat program `-3` resets the panel and succeeds |
| Framebuffer.FramebufferGeometry | fbtft/fbtft-core.c:540-603 | `xres`/`yres` swap for a rotation of 90 or 270; `line_length` and `smem_len` are the byte sizes of a line and a frame when these fit in 32 bits |
| Framebuffer.ProductsFit | fbtft/fbtft-core.c:551 | products that fit in 32 bits do not wrap |
| Framebuffer.QuarterTurnSwapsSides | fbtft/fbtft-core.c:540-549 | a quarter turn is mounting the panel with width and height exchanged |
| Framebuffer.FrameIsWholeLines | fbtft/fbtft-core.c:551-600 | for whole-byte pixels, `smem_len == yres * line_length`, and the geometry meets the dirty tracker's requirements |
| Framebuffer.ChanToField | fbtft/fbtft-core.c:388-393 | the top `length` bits of the 16-bit channel, placed at `offset`, and below `2^(offset + length)` |
| Framebuffer.FieldFits | fbtft/fbtft-core.c:388-393 | a field value below `2^len` shifted by `off` stays below `2^(off + len)` |
| Framebuffer.Rgb565Packing | fbtft/fbtft-core.c:395-422 | under RGB565 the entry is `r5 << 11 \| g6 << 5 \| b5`, and each channel's top bits read back from their own field |
| Framebuffer.SetColReg | fbtft/fbtft-core.c:395-422 | returns 0 and stores the packed entry at `regno` exactly for a true-colour visual and `regno < 16`; otherwise returns 1 and leaves the palette unchanged |
| Framebuffer.FbBlank | fbtft/fbtft-core.c:424-447 | no hook: -EINVAL and no call; codes 1 to 4 call `blank(true)` and code 0 calls `blank(false)`, returning the hook's result; other codes return -EINVAL with no call |
| OpsTable.OverrideWins | fbtft/fbtft-core.c:449-475 | after a merge every hook is the source's when that is set, and the destination's otherwise |
| OpsTable.MergeIdempotent | fbtft/fbtft-core.c:449-475 | merging the same table twice is merging it once |
| OpsTable.MergeUnits | fbtft/fbtft-core.c:449-475 | an all-NULL source changes nothing, and merging into an all-NULL table copies the source |
| OpsTable.MergeAssociative | fbtft/fbtft-core.c:449-475 | merging b then c is merging b overridden by c |
| OpsTable.FbtftOps.constructor | fbtft/fbtft-core.c:1015-1017 | a zero-filled table, every hook NULL |
| OpsTable.FbtftOps.Merge | fbtft/fbtft-core.c:449-475 | the table in place becomes `MergeOps` of its old value and the source |
| OpsTable.FbtftOps.MergeBus | fbtft/fbtft-core.c:451-462 | write to reset are overridden when set, the other hooks are untouched |
| OpsTable.FbtftOps.MergeRest | fbtft/fbtft-core.c:463-474 | init_display to set_gamma are overridden when set, the other hooks are untouched |
| Probe.PropertyUnsigned | fbtft/fbtft-core.c:959-975 | an absent property succeeds and leaves the value; a readable one succeeds with its value; an unreadable one fails with its error |
| Probe.FirstReadError | fbtft/fbtft-core.c:1034-1078 | None exactly when every listed property that is present can be read; otherwise the error of the first one that cannot |
| Probe.VmemSize | fbtft/fbtft-core.c:1133 | `width * height * bpp / 8` in `unsigned int`, hence below 2^29 |
| Probe.VmemIsSmemLen | fbtft/fbtft-core.c:1133 | the probe's `vmem_size` is the `smem_len` the framebuffer gets, for every rotation |
| Probe.TxBufFor | fbtft/fbtft-core.c:1133-1155 | the buffer is at most `vmem_size + 2`, or one page for byte swapping; it is 0 exactly when neither the property nor the display asks for one and no byte-swap buffer is needed |
| Probe.TxBufMinusOneIsFullFrame | fbtft/fbtft-core.c:1135-1137 | a `txbuflen` of -1 with no property gives a buffer of `vmem_size + 2` |
| Probe.TxBufLen | fbtft/fbtft-core.c:1133-1148 | the computation step by step equals `TxBufFor` |
| Probe.ExtraBufLen | fbtft/fbtft-core.c:1207-1208 | the emulation buffer holds a ninth bit per byte of the transmit buffer plus 8 bytes of slack |
| Probe.DefaultsMatchBus | fbtft/fbtft-core.c:1157-1213 | the register writer matches both widths when one exists; the vmem writer matches the bus; a parallel bus writes by GPIO; 9-bit SPI without controller support is emulated; the generic hooks are set and backlight only on request |
| Probe.SelectBusOps | fbtft/fbtft-core.c:1157-1213 | the zeroed table becomes `DefaultOps`; warns exactly when no register writer exists; switches to 9-bit words exactly for a 9-bit SPI bus the controller supports |
| Probe.SetGenericOps | fbtft/fbtft-core.c:1157-1164 | the generic hooks and 8-bit placeholders, register_backlight only for a backlight |
| Probe.SelectRegWriter | fbtft/fbtft-core.c:1166-1180 | the writer for the widths, or a warning with the hook unchanged |
| Probe.SelectVmemWriter | fbtft/fbtft-core.c:1182-1188 | the vmem writer for bus width 8, 9 or 16, the hook unchanged otherwise |
| Probe.SelectWriter | fbtft/fbtft-core.c:1190-1213 | GPIO write for a parallel bus of 8 or 16 lines; the 9-bit setup on SPI |
| Probe.RegisterInitCheck | fbtft/fbtft-core.c:663-666 | -EINVAL exactly when no `init_display` hook is set, 0 otherwise |
| Probe.DtInitNeverInstalled | fbtft/fbtft-core.c:1215-1220 | the DT interpreter never becomes `par`'s hook, so registration fails exactly when the driver has no `init_display` of its own |
| Probe.InitSequenceSelectsFlat | fbtft/fbtft-core.c:1217-1220 | without an `init` property an init sequence installs the flat interpreter, and the `init_display` test of registration passes |
| Probe.VerifyGpios | fbtft/fbtft-core.c:477-506 | returns 0 or -EINVAL; -EINVAL exactly when `dc` is needed and missing, or on a platform device `wr` or one of the first `buswidth` data lines is missing |
| Probe.ReadOrderUnfolded | fbtft/fbtft-core.c:1034-1078 | the first read error on the probe's order, property by property |
| Probe.ReadProperties | fbtft/fbtft-core.c:1029-1081 | fails with the first read error exactly when there is one; otherwise each property overrides the driver's value after the fps/bpp defaults, and `led-gpios` forces a backlight |
| Probe.ConfigureOps | fbtft/fbtft-core.c:1157-1220 | the table is the defaults merged with the driver's hooks, then the init selection; with an `init` property the DT hook goes to the driver's copy instead |
| Probe.ProbeCommon | fbtft/fbtft-core.c:1008-1220 | -EINVAL for too many gamma values; else the first read error; else -EINVAL for buswidth 0; success exactly when all pass, with the configuration `ConfigFits` describes |
| TinyDrm.AfterSnoc | include/drm/tinydrm/tinydrm.h:88-118 | each panel call sets or clears its own flag and leaves the other |
| TinyDrm.AlternatingSnoc | include/drm/tinydrm/tinydrm.h:88-118 | a call allowed in the current state keeps the trace free of repeated calls |
| TinyDrm.CallsBalance | include/drm/tinydrm/tinydrm.h:88-118 | the panel saw one more prepare than unprepare exactly while prepared, and as many otherwise; likewise for enable and disable |
| TinyDrm.TinyDrmDevice.constructor | include/drm/tinydrm/tinydrm.h:35-36 | neither prepared nor enabled, no panel call yet |
| TinyDrm.TinyDrmDevice.Prepare | include/drm/tinydrm/tinydrm.h:88-94 | prepares the panel only when it is not prepared; afterwards prepared, with enabled unchanged |
| TinyDrm.TinyDrmDevice.Unprepare | include/drm/tinydrm/tinydrm.h:96-102 | unprepares only when prepared; afterwards not prepared, with enabled unchanged |
| TinyDrm.TinyDrmDevice.Enable | include/drm/tinydrm/tinydrm.h:104-110 | enables only when not enabled; afterwards enabled, with prepared unchanged |
| TinyDrm.TinyDrmDevice.Disable | include/drm/tinydrm/tinydrm.h:112-118 | disables only when enabled; afterwards not enabled, with prepared unchanged |
| TinyDrm.IsFullClip | include/drm/tinydrm/tinydrm.h:174-178 | full exactly when the clip starts at the origin and reaches the last column and row of a non-empty display; a zero size wraps and is never full |
| TinyDrm.ResetClipIsEmpty | include/drm/tinydrm/tinydrm.h:180-186 | the reset clip is an empty (crossed) rectangle and never a full clip |
| TinyDrm.ClipRect.Reset | include/drm/tinydrm/tinydrm.h:180-186 | x1 and y1 become 0xFFFF, x2 and y2 become 0; the result is never a full clip |

## Left out

- GPIO requests and the reset pulse (`fbtft_reset`), backlight devices, and
  the fbdev services (`sys_fillrect`, `fb_sys_write`, deferred-I/O
  registration). These appear only as events, or as the calls around the
  dirty tracker.
- Allocation failures (-ENOMEM) in the probe and in
  `fbtft_framebuffer_alloc`: the allocator is outside the model, so every
  allocation succeeds.
- The parsing of the gamma string (`fbtft_gamma_parse_str`) is not part of
  this model. Only whether the `gamma` string property can be read is
  modelled. The model assumes the parse never fails. In the source, a
  failure returns -ENOMEM before the transmit buffer is sized
  (fbtft/fbtft-core.c:1112-1115), so `Probe.ProbeCommon`'s success
  condition holds only under that assumption.
- The spin lock and the delayed work of the dirty tracker: the model runs
  `fbtft_mkdirty` and `fbtft_deferred_io` one after the other, never
  concurrently.
- The bodies of the bus transports (`fbtft_write_spi`, the GPIO writers, the
  vmem writers). Debug and error messages.
- The tinydrm prototypes and macros, which are declarations without bodies
  in this header.
- Device properties are a map from property name to value or read error.
  A read error is a non-zero code (`Probe.ErrCode`), as a failing
  `device_property_read_u32` returns.
- The device-tree flags `FBTFT_OF_INIT_CMD` and `FBTFT_OF_INIT_DELAY` are
  defined in fbtft.h, which is not part of this model. They are parameters,
  each a single bit in the upper half of the word.
- A program shorter than `FBTFT_MAX_INIT_SEQUENCE` that has no `-3`: the
  scan for the marker in `fbtft_init_display` (fbtft/fbtft-core.c:866-868)
  reads past the end of the array. The model never reads past the end of the
  program (`InitFlat.FirstStop`), so such a program returns -EINVAL with no
  panel call, as one without a marker within the limit does.
- Framebuffer.ChanToField: requires a field of at most 16 bits at an offset
  below 32, where the C shifts are defined; fbtft only installs such layouts.
- Probe.VerifyGpios: requires at least `buswidth` data-line entries; the C
  array has 16, and a wider bus would read past it.
- OpsTable.FbtftOps.Merge: runs the twelve field updates in two halves
  (`MergeBus`, `MergeRest`), in the source's order and with the same effect.
