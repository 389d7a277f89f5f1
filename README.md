# EEG streamer: recording core

A model of the recording path of the EEG streamer desktop application
(`EEGStreamApp` in `index.py`). The application records a Muse 2 headset:

- **Start** checks the form and starts the board.
- A recording thread polls the board and appends every non-empty block of samples to the session buffer.
- A 100 ms timer redraws the last three seconds of the EEG channels.
- When the session ends, the buffer is joined into one recording, converted from microvolts to volts, and saved under `<filename>_raw.fif`.

Modules:

- `Wrappers`: `Option` and `Result`.
- `Seqs`: order-preserving `Filter` and its lemmas.
- `Matrices`: sample blocks (one row per board channel, one column per sample) and the buffer-level operations: joining along the time axis, row selection, trailing columns and unit conversion. `SampleAt` is the reference reading of a buffer as one long recording. The joining, window and finalize contracts are stated against it.
- `Board`: the board description the recorder relies on: the sampling rate, the number of rows per block, the EEG row indices and the four channel labels.
- `Render`: the live plot. It covers the trailing window, the start offset, the lines with their labels, the tick positions and the tick labels.
- `Finalize`: `create_raw`, that is, assembling the saved recording.
- `Listing`: the save name, the list of recordings on the data page, and the music choices on the recording page.
- `Acquisition`: the acquisition loop as a specification over what it observes. `observed[i]` is the recording flag read at the i-th check. `polls[i]` is the i-th board poll.
- `Session`: the class `EegStreamApp`. It holds the buffer, the counter, the recording flag, the two button states, the refresh timer and the last assembled recording. Its methods are `StartRecording`, `RecordData`, `StopRecording` and `UpdatePlot`.

Some behaviours of the code worth stating:

- The code only checks the duration field for being non-empty. The field's integer validator admits decimal digits after an optional `+`, including unfinished text such as `0` or a lone `+`. It also admits the locale's group separator between digits, as in `1,000` or the unfinished `5,`. The model takes `,`, the separator of the C and English locales, and admits every text of digits and separators after an optional `+`. No 1..3600 bound is enforced when Start is pressed. `int` reads `+5` as 5. On a lone `+`, or on any text with a group separator, it raises after the recording flag and the buttons were already switched. The error escapes the click handler, and PyQt's default handling of it terminates the application. The model returns `InvalidDuration` with the fields as the handler left them.
- Nothing in the code handles a failure while polling.
- Finalizing an empty buffer is not a separate check. Stop is enabled as soon as a start succeeds, and the buffer stays empty until the first poll that carries samples. Stopping in that interval reaches `numpy.concatenate` on the empty list, which raises after `stop_recording` has already reset the controls. The model returns `Failure(NoData)` at that point.

## Model

| member | source | states |
|---|---|---|
| Seqs.Filter | index.py:85-88 | the kept elements all satisfy the predicate and are no more than the input; with `FilterAppend` and `FilterMembership` it keeps exactly the matching elements in their original order |
| Seqs.FilterAppend | index.py:116 | filtering a concatenation is the concatenation of the filtered parts, so the original order is kept |
| Seqs.FilterMembership | index.py:85-88 | an element is kept exactly when it occurs in the input and satisfies the predicate |
| Seqs.FilterSnoc | index.py:321-323 | one more input element extends the filtered sequence by that element exactly when it satisfies the predicate |
| Matrices.TotalWidthAppend | index.py:323 | the column count of two buffers appended together is the sum of their column counts |
| Matrices.JoinRow | index.py:346 | a joined row has as many samples as the buffer has columns, and sample j is the buffer's global sample j of that row |
| Matrices.ConcatColumns | index.py:346 | joining the blocks along the time axis gives a rectangular matrix of the board's height whose width is the total column count and whose cell (i, j) is global sample j of row i |
| Matrices.HasSamples | index.py:321 | a poll result carries samples exactly when it has at least one row and at least one column (`data.size > 0`) |
| Matrices.SelectRows | index.py:347 | row i of the selection is source row `picks[i]`; the width is unchanged |
| Matrices.TrailingColumns | index.py:353-357 | more than n columns are cut to the last n; otherwise the matrix is kept whole; row i of the result is row i of the input from column `width - shown` on |
| Matrices.DivideAll | index.py:384 | every sample of the result times the divisor is the input sample, with the shape unchanged |
| Matrices.SampleAppend | index.py:383 | reading a buffer `a + b`: a column lies in `a` when below `a`'s width and otherwise is the column of `b` shifted by that width |
| Matrices.SampleInChunk | index.py:383 | column t of block k is global column `TotalWidth(blocks before k) + t`, so the blocks lie one after another in append order |
| Render.TicksFrom | index.py:373 | the i-th tick is `t + i * step`, every tick is below the limit, and one more step would reach the limit |
| Render.TicksExact | index.py:373 | the ticks of a window are exactly the multiples `m * fs` below its width, the m-th tick being `m * fs` |
| Render.TickLabel | index.py:375 | the label is the whole second in which the tick's time falls: label times fs is at most the tick's global sample, which is below label plus one times fs |
| Render.TickLabelSeconds | index.py:371-375 | the label under the k-th tick is the whole second of the window start plus k |
| Render.WindowLength | index.py:350 | the live window spans exactly three whole seconds of samples |
| Render.WindowStart | index.py:353-358 | the window starts within the recording, and from its start to the newest sample there are `min(total, w)` samples |
| Render.EegWindow | index.py:346-357 | the window has one row per EEG channel and `min(total, 3 * fs)` columns |
| Render.EegWindowSamples | index.py:346-357 | window cell (i, j) is EEG channel i at global sample `start + j`, with `start = total - 3 * fs` when more than `3 * fs` samples exist and 0 otherwise, and that sample exists |
| Render.EegWindowAll | index.py:346-357 | every cell (i, j) of the window is EEG channel i at global sample `start + j` |
| Render.PlotOf | index.py:363-375 | line i is labelled with the i-th channel name and holds window row i; ticks are the per-second positions; the label under each tick is the whole second of its time |
| Render.TrailingPlot | index.py:343-375 | nothing is drawn exactly when the buffer is empty; otherwise the window has width `min(total, 3 * fs)`, starts at `total - 3 * fs` or 0, ends at the newest sample, line i is labelled with channel name i and shows EEG channel i from the start sample on, and each tick carries the whole second of its time |
| Render.TrailingPlotTickLabels | index.py:373-375 | on the live plot the k-th tick is at `k * fs` and is labelled with the window's starting whole second plus k |
| Finalize.CreateRaw | index.py:382-391 | an empty buffer fails with `NoData`; otherwise the recording has one row per EEG channel and one column per buffered sample, carries the channel names and the sampling rate, and each cell times 1,000,000 is the corresponding global sample of the selected channel |
| Finalize.CreateRawAppend | index.py:383-384 | the recording of two buffers appended together is, row by row, the first recording followed by the second |
| Listing.SaveName | index.py:396 | the save name ends with `_raw.fif` and begins with the filename text |
| Listing.SaveNameInjective | index.py:396 | distinct filename texts give distinct save names |
| Listing.RecordingFiles | index.py:166-169 | every listed entry ends with `_raw.fif` |
| Listing.RecordingFilesExact | index.py:85-88 | an entry is listed exactly when it is in the directory and ends with `_raw.fif`; every saved name present in the directory is listed |
| Listing.RecordingFilesAppend | index.py:166-169 | listing keeps directory order |
| Listing.MusicChoices | index.py:113-117 | the first choice is "No Music"; every later choice is a directory entry ending in `.mp3` or `.wav` |
| Listing.MusicChoicesAppend | index.py:115-117 | the choices keep directory order: those for two runs of entries are the choices of the first followed by the audio files of the second |
| Listing.MusicChoicesSingleton | index.py:116-117 | one entry yields "No Music" followed by that entry exactly when it ends in `.mp3` or `.wav`; with `MusicChoicesAppend` this fixes the order and multiplicity of every offered file |
| Listing.MusicChoicesComplete | index.py:116-117 | every `.mp3` or `.wav` entry of the directory is offered after "No Music" |
| Acquisition.Kept | index.py:321-323 | only poll results that carry samples are appended |
| Acquisition.Continues | index.py:317-319 | the loop body runs again exactly when fewer than `duration * fs` samples are counted and the flag is set |
| Acquisition.ExitFrom | index.py:317-319 | the loop exits at the first check from i on at which the duration is reached or the flag is clear, and continues at every earlier check |
| Acquisition.LoopExitExact | index.py:317-329 | for a whole run: every check before the exit had fewer than `duration` seconds sampled and the flag set; at the exit one of the two no longer holds; the drain poll that follows is answered |
| Acquisition.CountStep | index.py:321-323 | one more poll extends the kept blocks by that result and the counter by its width when it carries samples, and changes neither otherwise |
| Acquisition.CountMonotone | index.py:316-328 | the sample counter never decreases from one poll to a later one |
| Acquisition.FiveSecondsAt256Hz | index.py:317 | with 5 s at 256 Hz and no Stop, polling goes on while fewer than 1280 samples are in, and the loop leaves with at least 1280 |
| Session.ParseInt | index.py:281 | `int` on a duration text fails exactly on a lone `+` or on a text holding a group separator; on plain digits it is their decimal value |
| Session.LeadingZeroIgnored | index.py:281 | a leading zero does not change the parsed duration |
| Session.PlusSignIgnored | index.py:281 | a leading `+` does not change the parsed duration |
| Session.SaveRecording | index.py:394-397 | saving fails exactly on an empty buffer; otherwise the file is named `<filename>_raw.fif` and holds the recording assembled from the buffer |
| Session.EegStreamApp.constructor | index.py:28-32 | a new window is idle with an empty buffer and a zero counter |
| Session.EegStreamApp.StartRecording | index.py:269-303 | an empty duration or filename is rejected with nothing changed; a lone `+` or a group-separated number fails with the flag set, Start disabled, Stop enabled, no timer and the buffer untouched; otherwise the buffer and counter are cleared; a failing board start leaves the window idle; a successful one sets the flag, disables Start, enables Stop, starts the timer and yields the duration `int` parses |
| Session.EegStreamApp.StopRecording | index.py:331-341 | always leaves the window idle with the buffer unchanged, then saves the buffer as `SaveRecording` does and keeps the assembled recording |
| Session.EegStreamApp.RecordData | index.py:316-329 | makes exactly the loop's iterations plus one drain poll; the buffer becomes the old buffer followed by the non-empty results of those polls in poll order; the counter equals the buffer's total width; ends idle and saved, with the assembled recording kept when saving succeeds |
| Session.EegStreamApp.AppendPoll | index.py:320-323 | appends the polled block exactly when it carries samples and adds its width to the counter, keeping counter and buffer in step |
| Session.EegStreamApp.UpdatePlot | index.py:343-358 | reads without changing anything; nothing is drawn exactly when the counter is 0; otherwise the window is `min(count, 3 * fs)` samples wide and is the trailing plot of the buffer |

## Left out

- Qt widgets, layouts, menus and toast notifications are left out. The button states, the recording flag and the timer's running state are kept as booleans.
- Threads and timing are left out: the recording thread, the 100 ms timer's concurrent reads of the buffer, and `time.sleep(0.2)`. `RecordData` runs sequentially, and the values of the recording flag it reads are given as input.
- Session.EegStreamApp.RecordData: when Stop is pressed, `stop_recording` runs on the UI thread. The thread then breaks out of its loop and polls the board that has already been released, which raises in the real program. The model instead lets the loop read a cleared flag and finish normally with the drain poll and one stop.
- Session.EegStreamApp.RecordData: its inputs must describe a run that ends, with the flag eventually read as cleared. A board that never delivers enough samples and is never stopped would poll forever.
- Session.EegStreamApp.StartRecording: on a lone `+` or a group-separated number the program terminates when the error leaves the click handler. The model returns `InvalidDuration` and keeps the window, with the fields as the handler left them.
- Session.ParseInt: only `,` is modelled as the group separator. Locales that group with `.` or a space are not modelled; with a space, `int` also strips a trailing separator. Native-script digits, which the validator of such a locale admits and `int` reads, are not modelled either.
- Session.EegStreamApp.StopRecording: on an empty buffer the `numpy.concatenate` error terminates the program when Stop was pressed, because it leaves the click handler. When the recording thread stops, the error ends the thread with no success notice. The model returns `NoData` and keeps the window.
- Session.EegStreamApp.StopRecording: stopping the stream and releasing the board are assumed to succeed. Their failure, and the music stop, are not modelled.
- Poll failures: `get_board_data` raising inside the loop has no handler in the code, and the model does not cover it.
- Board communication (preparing and starting the session, polling) is left out. The board is described only by the success flag of its start and by the sequence of poll results. The sampling rate, the rows per block and the EEG row indices come from the board library and are parameters (`Board.Config`).
- Music playback is left out. The mixer load, play and stop at start and stop time are I/O; only the list of choices is modelled.
- MNE is left out: building the info and the raw array, montage, average reference, epochs, the spectrum and topomap plots, reading `.fif` files, `pick_recording`, and writing the file. `SaveRecording` returns the name and the content instead of writing.
- Floating point is left out. Samples are exact reals, so the division by 1,000,000 is exact.
- Render.TickLabel: the source computes tick labels from a floating-point `arange` of times. The model uses the exact whole second, `(start + tick) / fs`.
- Drawing is left out: matplotlib figures, axes, legends and layout.
