# Affdex SDK sample applications: a verified model

This project models the demo applications that ship with the Affdex SDK:
the code that turns the SDK's detections into rows, bars, colours and log
lines. The SDK itself and the rendering libraries are not modelled. Only
their results are, given as parameters.

- **AffdexMe** (C#, `AffdexMe/MainWindow.xaml.cs`) is the desktop window.
  Its classifier panel caches six classifier scores, rounded to percents.
  After a face has been seen, the panel keeps showing the cached scores
  for a while. It zeroes them after ten frames without a face and hides
  them after thirty. Each score becomes a bar: a width, a colour and a
  percent text. A skip counter clears the feature points every fifth
  captured frame. The "Show Points" button toggles the points. This is
  module `ClassifierPanel`.
- **Visualizer** (`vision/shared/Visualizer.cpp`) draws classifier values.
  It colours them on a red-to-green scale and draws them as an equalizer of
  blocks, clipped at the image edges. It alpha-blends a logo onto the
  frame and resizes the logo once, to a quarter of the frame width. This is
  module `Visualizer`.
- **Plotting image listeners** are three variants: the common one, the
  shared one, and the one in the webcam demo. Each queues
  (frame, faces) pairs and estimates capture and processing frame rates.
  Each writes one CSV row per face, in face-id order, or an empty row when
  no face was found. The modules are `CommonListener`, `SharedListener` and
  `WebcamListener`. They share `ListenerSupport` and `VisionData`.
- **Video demo** (`vision/frame-detector-video-demo/VideoDemo.cpp`) reads
  frames. It makes up to `MAX_ATTEMPTS` attempts per frame. It refuses
  frames that go backwards in time, and it samples the video at a
  requested rate. It also reconciles the sampling and processing frame
  rates and checks the file extension. This is module `VideoReading`.
- **Speech samples**: `WavReading` is `readWav`, which accepts only mono
  16-bit PCM WAV at the detector's rate. `WavSegmenting` is `processFile`,
  which feeds the file to the detector one segment at a time.
  `MicRecording` is the microphone recorder's chunk queue and timestamps.
  `SpeechLogging` is the result logger: what it reports, in what order, and
  that it always restores the stream's number format.
- **Locations configuration** (`vision/shared/LocationsConfig.h`) reads a
  CSV of occupant locations and their boxes. It ends the process with
  status 1 on an unknown location name. This is module `Locations`.
- **Status listener** (`vision/shared/StatusListener.h`) is the running
  flag. It also prints a nested exception chain, indenting each level. This
  is module `Status`.

Integers are unbounded. Where the source's fixed width matters, the model
says so explicitly:

- the unsigned arithmetic in `VideoDemo.cpp`;
- the 64-bit guard in `speech/wav/main.cpp`;
- 16-bit samples, which are the `Short` type.

Reals stand for C++ and C# floating point.

## Model

| member | source | states |
|---|---|---|
| Numeric.RoundHalfAway | AffdexMe/MainWindow.xaml.cs:347-352 | the result is within one half of the score, and a tie goes away from zero, as `MidpointRounding.AwayFromZero` does |
| Numeric.RoundHalfAwayIsOdd | AffdexMe/MainWindow.xaml.cs:347-352 | rounding a negated score gives the negated rounding, so negative valence rounds like positive |
| ClassifierPanel.RoundedScores | AffdexMe/MainWindow.xaml.cs:347-352 | each of the six cached values is the rounding of the face's score for that classifier |
| ClassifierPanel.Zeros | AffdexMe/MainWindow.xaml.cs:365-370 | the panel's reset values: six zeros |
| ClassifierPanel.Update | AffdexMe/MainWindow.xaml.cs:335-412 | when the detector is not running, nothing changes and nothing is displayed. A face caches its rounded scores, resets the skip count and always shows the panel. Before the first face, a faceless update hides the panel and leaves the cache untouched. After it, each faceless update raises the skip count; the values are zeroed once it passes 10, and the panel shows exactly while the count is below 30 and the image is visible |
| ClassifierPanel.FacelessRunAfterFace | AffdexMe/MainWindow.xaml.cs:359-376 | after n faceless frames following a face, the skip count is n. The values are the cached ones up to 10 and zeros afterwards. The panel shows exactly while n < 30 and the image is visible |
| ClassifierPanel.NoDisplayBeforeFirstFace | AffdexMe/MainWindow.xaml.cs:359-362 | before any face is seen, faceless frames never change the cache and never show the panel |
| ClassifierPanel.BarFor | AffdexMe/MainWindow.xaml.cs:414-447 | the bar width is the length times \|v\| / 100, truncated. It is lime green exactly when v > 0, red exactly when v < 0, and the text ends in `%` |
| ClassifierPanel.BarProperties | AffdexMe/MainWindow.xaml.cs:419-439 | for a percentage, the width fits the display length and grows with \|v\|, reaching the full length at ±100. The text before `%` parses back to v |
| ClassifierPanel.BarsOf | AffdexMe/MainWindow.xaml.cs:380-389 | one bar per displayed classifier, in the panel's order: smile, frown, brow raise, valence, brow furrow, engagement |
| ClassifierPanel.FeatureSkipStep | AffdexMe/MainWindow.xaml.cs:466-470 | the canvas is cleared exactly when the incremented count exceeds 4, and the count then restarts at 0 |
| ClassifierPanel.FeatureSkipCycles | AffdexMe/MainWindow.xaml.cs:466-470 | from 0, after n captures the count is n mod 5. The n-th capture clears the canvas exactly when n is a multiple of 5 |
| ClassifierPanel.MainWindow.constructor | AffdexMe/MainWindow.xaml.cs:488-525 | zeroed cache, no face yet, counters at 0, points off, classifiers hidden |
| ClassifierPanel.MainWindow.StartCameraProcessing | AffdexMe/MainWindow.xaml.cs:619-690 | the cached values and the skip count are reset. The first-face flag is cleared only when the detector starts |
| ClassifierPanel.MainWindow.UpdateClassifierPanel | AffdexMe/MainWindow.xaml.cs:335-412 | the window's cache and visibility become those of `Update`. The bars drawn are `BarsOf` the new values exactly when `Update` displays |
| ClassifierPanel.MainWindow.DisplayImageToOffscreenCanvas | AffdexMe/MainWindow.xaml.cs:450-486 | the skip counter advances by `FeatureSkipStep`, and a clear removes the points from the canvas |
| ClassifierPanel.MainWindow.DisplayFeaturePoints | AffdexMe/MainWindow.xaml.cs:251-330 | with points on, a running detector and a face, the points are drawn and the skip counter is reset. Otherwise nothing is drawn |
| ClassifierPanel.MainWindow.OnImageResults | AffdexMe/MainWindow.xaml.cs:701-705 | while running, the face's rounded scores are cached, the panel is shown and its bars are those of the new scores. Otherwise the cache and the panel are unchanged and no bar is drawn. With points on and running, the points are drawn and the skip count restarts; otherwise both are unchanged. The points setting is unchanged |
| ClassifierPanel.MainWindow.OnImageCapture | AffdexMe/MainWindow.xaml.cs:707-711 | a faceless panel update (cache, visibility and bars as `Update` gives them), then the feature-point skip step, which clears the canvas exactly when it resets the count. The points setting is unchanged |
| ClassifierPanel.MainWindow.ShowPointsClick | AffdexMe/MainWindow.xaml.cs:531-557 | toggles the points, and the button names the action now available |
| ClassifierPanel.ShowPointsClickTwice | AffdexMe/MainWindow.xaml.cs:531-557 | two clicks restore the setting, and the two button texts differ |
| Visualizer.ColorgenRedGreen | vision/shared/Visualizer.cpp:274-283 | no blue, red and green within 0..255 and summing to 254 or 255 |
| Visualizer.ColorgenRedGreenMonotone | vision/shared/Visualizer.cpp:274-283 | green never falls and red never rises as the value grows. The colour is pure red at or below the red end and pure green at or above the green end |
| Visualizer.ClassifierColor | vision/shared/Visualizer.cpp:142-154 | valence uses the red-green scale over -100..100. Every other classifier has a fixed colour |
| Visualizer.ClassifierColorRange | vision/shared/Visualizer.cpp:142-154 | every colour is either on the red-green scale (no blue, red and green adding to full intensity) or white. Only valence depends on the value. Anger is red and joy is green |
| Visualizer.EqualizerMagnitude | vision/shared/Visualizer.cpp:156-160 | valence is drawn by its absolute value, and the others by their value |
| Visualizer.CursorX | vision/shared/Visualizer.cpp:178-196 | the k-th block sits k steps from the start, leftwards when right-aligned |
| Visualizer.FirstMisfit | vision/shared/Visualizer.cpp:178-197 | every block before the result fits the image. The one at the result, if any, does not |
| Visualizer.DrawEqualizer | vision/shared/Visualizer.cpp:164-208 | the blocks drawn are exactly `EqualizerBlocks` |
| Visualizer.EqualizerShape | vision/shared/Visualizer.cpp:164-208 | at most ten blocks, ten pixels apart in the alignment direction and clipped to the image. Drawing stops at the first block that leaves the image, and all ten are drawn when the strip fits. Block k has the classifier colour at alpha 0.8 exactly when k < round(value / 10) |
| Visualizer.MadeBlockShape | vision/shared/Visualizer.cpp:178-196 | a block that fits is clipped to the image, at most one block in size, and lit (classifier colour, alpha 0.8) exactly when its index is below the lit count |
| Visualizer.BlockRunAppend | vision/shared/Visualizer.cpp:178-197 | one more pass of the loop appends the block made at the next cursor position |
| Visualizer.BlendBetween | vision/shared/Visualizer.cpp:228-272 | a blended channel lies between the background and foreground values. Full alpha gives the foreground |
| Visualizer.OverlayImage | vision/shared/Visualizer.cpp:228-272 | inside the logo's area, each pixel becomes the blend by the foreground's alpha. Every other pixel is unchanged |
| Visualizer.OverlayRow | vision/shared/Visualizer.cpp:240-270 | one row of the overlay: the same, for one y only |
| Visualizer.ResizedLogoWidth | vision/shared/Visualizer.cpp:67-73 | the new logo width is the smaller of its own width and a quarter of the frame width |
| Visualizer.LogoState.constructor | vision/shared/Visualizer.cpp:7-17 | the logo starts unresized at its own size |
| Visualizer.LogoState.UpdateImage | vision/shared/Visualizer.cpp:63-76 | the logo is resized on the first call only, to `ResizedLogoWidth` with its aspect ratio kept. Later calls keep its size. The region is 10 pixels from the top-right corner, with the logo's size |
| ListenerSupport.SortedKeys | common/PlottingImageListener.hpp:171-202 | a std::map visits exactly its face ids, as many as it holds |
| ListenerSupport.SortedKeysIncreasing | common/PlottingImageListener.hpp:171-202 | the visit is in strictly increasing id order, so no id comes twice |
| ListenerSupport.FrameRate | common/PlottingImageListener.hpp:143-159 | the rate is undefined exactly when the interval is zero. Otherwise rate times interval is one |
| CommonListener.Header | common/PlottingImageListener.hpp:82-86 | 32 columns: the fixed columns first, then emotions at index 8 onwards |
| CommonListener.FaceRows | common/PlottingImageListener.hpp:171-202 | one row per id, each that face's row |
| CommonListener.FaceRowsAppend | common/PlottingImageListener.hpp:171-202 | the rows of a prefix extended by one id are the previous rows plus that face's row |
| CommonListener.WriteRows | common/PlottingImageListener.hpp:161-202 | the loop over the faces writes exactly `Rows`: the empty row for no face, else one row per face in id order |
| CommonListener.RowColumns | common/PlottingImageListener.hpp:161-202 | a face row has as many fields as the header. Emotions and expressions sit under their own headings. The empty row is one field short and starts with the timestamp glued to "nan" |
| CommonListener.RowsCount | common/PlottingImageListener.hpp:161-202 | no faces gives one empty row. Otherwise there is one row per face |
| CommonListener.RowsOrder | common/PlottingImageListener.hpp:171-202 | when every face is filed under its own id, the rows are `InFaceOrder`: increasing face ids, each row the row of the face it names, and every face has one |
| CommonListener.FaceRowsOrder | common/PlottingImageListener.hpp:171-202 | the same for the rows of any increasing list of ids that covers the faces |
| CommonListener.FaceRowId | common/PlottingImageListener.hpp:171-202 | a face row names its face's id |
| CommonListener.MinPoint | common/PlottingImageListener.hpp:91-101 | the result's x and y are each the least over the points, and each is attained |
| CommonListener.MaxPoint | common/PlottingImageListener.hpp:103-113 | the result's x and y are each the greatest over the points, and each is attained |
| CommonListener.ShownLines | common/PlottingImageListener.hpp:205-219 | exactly the classifiers whose value exceeds 5.0 get a label, each once and in list order (`Picked`), with its own name and value; the i-th label is i + 1 spacings below the padding |
| CommonListener.PickedIncreasing | common/PlottingImageListener.hpp:209-218 | the drawn positions are strictly increasing: each classifier is drawn at most once, in list order |
| CommonListener.PickedMembers | common/PlottingImageListener.hpp:209-218 | a position is drawn exactly when its value exceeds 5.0, in both directions |
| CommonListener.DrawValues | common/PlottingImageListener.hpp:205-219 | the labels are `Shown`, that is one per value above 5.0 in list order (`ShownLines`), and the padding ends one spacing per label lower |
| CommonListener.PlottingImageListener.constructor | common/PlottingImageListener.hpp:52-89 | the stream holds the header. Nothing is queued. Timestamps and rates start at -1 |
| CommonListener.PlottingImageListener.GetDataSize | common/PlottingImageListener.hpp:128-133 | the queue length |
| CommonListener.PlottingImageListener.GetData | common/PlottingImageListener.hpp:135-141 | removes and returns the oldest entry (FIFO), and changes nothing else |
| CommonListener.PlottingImageListener.OnImageResults | common/PlottingImageListener.hpp:143-152 | queues the results at the back and updates the processing rate from the clock |
| CommonListener.PlottingImageListener.OnImageCapture | common/PlottingImageListener.hpp:154-159 | updates only the capture rate, from the frame's timestamp |
| CommonListener.PlottingImageListener.OutputToFile | common/PlottingImageListener.hpp:161-203 | appends exactly `Rows` to the stream and changes nothing else |
| SharedListener.FaceRows | vision/shared/PlottingImageListener.h:92-116 | one row per id, each that face's row |
| SharedListener.FaceRowsAppend | vision/shared/PlottingImageListener.h:92-116 | the rows of a prefix extended by one id are the previous rows plus that face's row |
| SharedListener.RowColumns | vision/shared/PlottingImageListener.h:82-116 | a 19-column header, with face rows as wide and columns under their headings. The empty row is one field longer |
| SharedListener.RowsCount | vision/shared/PlottingImageListener.h:82-116 | no faces gives one empty row. Otherwise there is one row per face |
| SharedListener.AllRowsAppend | vision/shared/PlottingImageListener.h:145-157 | writing one more result appends its rows |
| SharedListener.AllRowsStep | vision/shared/PlottingImageListener.h:145-157 | draining the result that follows a prefix of the queue appends that result's rows |
| SharedListener.AllRowsLength | vision/shared/PlottingImageListener.h:145-157 | each result writes at least one row, and exactly one when no result has a face |
| SharedListener.WriteRows | vision/shared/PlottingImageListener.h:82-116 | the loop writes exactly `Rows` |
| SharedListener.PlottingImageListener.constructor | vision/shared/PlottingImageListener.h:20-35 | the header is written. Nothing is queued, and timestamps and rates are -1 |
| SharedListener.PlottingImageListener.GetDataSize | vision/shared/PlottingImageListener.h:47-50 | the queue length |
| SharedListener.PlottingImageListener.GetData | vision/shared/PlottingImageListener.h:52-57 | removes and returns the oldest entry (FIFO) |
| SharedListener.PlottingImageListener.OnImageResults | vision/shared/PlottingImageListener.h:64-74 | queues at the back and updates the processing rate |
| SharedListener.PlottingImageListener.OnImageCapture | vision/shared/PlottingImageListener.h:76-80 | updates only the capture rate |
| SharedListener.PlottingImageListener.OutputToFile | vision/shared/PlottingImageListener.h:82-117 | appends exactly `Rows` and changes nothing else |
| SharedListener.PlottingImageListener.ProcessResults | vision/shared/PlottingImageListener.h:145-157 | the queue is drained in order, all its rows are written in order, and drawing happens exactly when the display is on |
| WebcamListener.InterocularOf | vision/frame-detector-webcam-demo/PlottingImageListener.hpp:111 | the face's interocular distance, or 0 when the map lacks it, as `operator[]` yields |
| WebcamListener.FaceRows | vision/frame-detector-webcam-demo/PlottingImageListener.hpp:104-136 | one row per id, each that face's row |
| WebcamListener.FaceRowsAppend | vision/frame-detector-webcam-demo/PlottingImageListener.hpp:104-136 | extending the ids by one appends that face's row |
| WebcamListener.RowColumns | vision/frame-detector-webcam-demo/PlottingImageListener.hpp:94-136 | a 23-column header and an empty row as wide. A face row has two more fields: the confidence sits under the "interocularDistance" heading, and brightness is the last field |
| WebcamListener.RowsCount | vision/frame-detector-webcam-demo/PlottingImageListener.hpp:94-136 | no faces gives one empty row. Otherwise there is one row per face |
| WebcamListener.WriteRows | vision/frame-detector-webcam-demo/PlottingImageListener.hpp:94-136 | the loop writes exactly `Rows` |
| WebcamListener.PlottingImageListener.constructor | vision/frame-detector-webcam-demo/PlottingImageListener.hpp:36-47 | the header is written. Nothing is queued, and timestamps and rates are -1 |
| WebcamListener.PlottingImageListener.GetProcessingFrameRate | vision/frame-detector-webcam-demo/PlottingImageListener.hpp:49-53 | the stored processing rate |
| WebcamListener.PlottingImageListener.GetCaptureFrameRate | vision/frame-detector-webcam-demo/PlottingImageListener.hpp:55-59 | the stored capture rate |
| WebcamListener.PlottingImageListener.GetDataSize | vision/frame-detector-webcam-demo/PlottingImageListener.hpp:61-66 | the queue length |
| WebcamListener.PlottingImageListener.GetData | vision/frame-detector-webcam-demo/PlottingImageListener.hpp:68-74 | removes and returns the oldest entry (FIFO) |
| WebcamListener.PlottingImageListener.OnImageResults | vision/frame-detector-webcam-demo/PlottingImageListener.hpp:76-85 | queues at the back and updates the processing rate |
| WebcamListener.PlottingImageListener.OnImageCapture | vision/frame-detector-webcam-demo/PlottingImageListener.hpp:87-92 | updates only the capture rate |
| WebcamListener.PlottingImageListener.OutputToFile | vision/frame-detector-webcam-demo/PlottingImageListener.hpp:94-137 | appends exactly `Rows` and changes nothing else |
| VideoReading.AttemptAt | vision/frame-detector-video-demo/VideoDemo.cpp:57-61 | a grab past the end of the video finds no frame, at position 0 |
| VideoReading.Tries | vision/frame-detector-video-demo/VideoDemo.cpp:44-61 | at most 1 + MAX_ATTEMPTS grabs. Every grab before the last failed, and the last succeeded unless the attempts ran out |
| VideoReading.WrappedInitialLast | vision/frame-detector-video-demo/VideoDemo.cpp:23 | as written, the initial last timestamp wraps to 2^32 - 1 at rate 1, and is 0 at higher rates |
| VideoReading.WrappedInitialLastHoldsBack | vision/frame-detector-video-demo/VideoDemo.cpp:23 | with the wrapped value, frames at 1 s and at one day are still held back |
| VideoReading.InitialLast | vision/frame-detector-video-demo/VideoDemo.cpp:23 | the intended signed value: -1 at rate 1, and 0 at higher rates |
| VideoReading.InitialLastLetsFirstPeriodThrough | vision/frame-detector-video-demo/VideoDemo.cpp:23 | with the intended value, any frame at or after one sampling period passes |
| VideoReading.VideoReader.constructor | vision/frame-detector-video-demo/VideoDemo.cpp:17-28 | the reader starts at the first grab, with the intended initial timestamp |
| VideoReading.VideoReader.GrabRetrieve | vision/frame-detector-video-demo/VideoDemo.cpp:57-61 | consumes exactly one grab and reports what it found and its position |
| VideoReading.VideoReader.GetFrameData | vision/frame-detector-video-demo/VideoDemo.cpp:43-70 | consumes `Tries` grabs and reports the last one's position. It succeeds exactly when that grab decoded and, if it came after a retry, its position is not below the one read before the first grab. The result is `FrameData` |
| VideoReading.FrameData | vision/frame-detector-video-demo/VideoDemo.cpp:43-70 | one GetFrameData call: `Tries` grabs, the last one's position, and a frame only if that grab decoded |
| VideoReading.Sample | vision/frame-detector-video-demo/VideoDemo.cpp:30-41 | the do/while of GetFrame: it makes at least one read and returns the first read that is not held back, with that read's position |
| VideoReading.SampleOff | vision/frame-detector-video-demo/VideoDemo.cpp:35 | without sampling, GetFrame is exactly one GetFrameData |
| VideoReading.SamplePastEnd | vision/frame-detector-video-demo/VideoDemo.cpp:30-61 | past the end of the video GetFrame returns at once: three failed grabs, no frame, position 0 |
| VideoReading.SampleSkips | vision/frame-detector-video-demo/VideoDemo.cpp:33-37 | a read that is held back is not returned: GetFrame goes on to later grabs |
| VideoReading.VideoReader.GetFrame | vision/frame-detector-video-demo/VideoDemo.cpp:30-41 | the grabs made, the result and the position are `Sample`: GetFrameData is repeated until its result is not held back by the sampling rate, and that result, the first such, is returned. Its position becomes the last timestamp and stays the decoder position |
| VideoReading.OpenVideo | vision/frame-detector-video-demo/VideoDemo.cpp:17-28 | there is no reader exactly when the rate is 0 or the file did not open |
| VideoReading.ExtensionExit | vision/frame-detector-video-demo/VideoDemo.cpp:82-87 | the process exits with 1 exactly when the extension is not in the supported list |
| VideoReading.ExtensionsExact | vision/frame-detector-video-demo/VideoDemo.cpp:145-149 | `.mp4` and `.avi` are accepted. Upper case, other extensions and no extension are refused |
| VideoReading.ReconcileRates | vision/frame-detector-video-demo/VideoDemo.cpp:137-215 | warns exactly when sampling exceeds processing. A missing or equal processing rate becomes sampling + 1, computed unsigned. The demo waits for each result exactly when sampling ≤ processing |
| VideoReading.WaitsUnlessSlower | vision/frame-detector-video-demo/VideoDemo.cpp:137-215 | the demo waits exactly when no processing rate is given or it is at least the sampling rate, and it then processes strictly faster |
| WavReading.ReadWavOutcome | speech/wav/WAVReader.cpp:13-55 | success exactly for mono PCM-16 WAV at the detector's rate. False exactly when the file does not open. Every other case exits with -1, a wrong rate first |
| WavReading.WavReader.constructor | speech/wav/main.cpp:47 | the value-initialised reader `WAVReader()`: the fields of WAVReader.h:13-15 are zero (no buffer, rate 0, no samples) before readWav assigns them |
| WavReading.WavReader.ReadWav | speech/wav/WAVReader.cpp:13-55 | the outcome is `ReadWavOutcome`. On success the buffer holds every frame in order, and twice as many bytes as samples are requested |
| WavSegmenting.SamplesPerSegment | speech/wav/main.cpp:59 | positive, and never more samples than the segment's duration holds |
| WavSegmenting.SegmentTraceLength | speech/wav/main.cpp:62-72 | each segment makes one call, plus one log without a listener. Start and stop never occur among them |
| WavSegmenting.SegmentAt | speech/wav/main.cpp:62-72 | segment k is the samples k·s .. k·s+s with timestamp k times the segment length. Segments are contiguous and disjoint, each followed by its log without a listener |
| WavSegmenting.SegmentsCover | speech/wav/main.cpp:62-72 | the whole segments stop short of the end by less than one segment |
| WavSegmenting.Quotient | speech/wav/main.cpp:62-72 | the number of whole segments is the quotient num / s |
| WavSegmenting.ProcessTrace | speech/wav/main.cpp:45-81 | nothing happens unless the file reads successfully |
| WavSegmenting.ProcessTraceCounts | speech/wav/main.cpp:45-81 | without a listener: start, then two events per segment, stop, and the final log. Stop comes once, after every segment |
| WavSegmenting.GuardAsWritten | speech/wav/main.cpp:63 | the guard as written on LP64 targets: the signed 64-bit difference is compared as an unsigned long, so a negative difference wraps to a huge bound |
| WavSegmenting.GuardAsWrittenOverruns | speech/wav/main.cpp:63 | a file shorter than one segment passes the guard, and the segment reads past the buffer |
| WavSegmenting.GuardAgrees | speech/wav/main.cpp:63 | for files of at least one segment, the written guard equals "the segment fits" |
| WavSegmenting.FeedSegments | speech/wav/main.cpp:62-72 | the loop, with the corrected guard, produces exactly the events of every whole segment |
| WavSegmenting.AudioHelper.constructor | speech/wav/main.cpp:40-42 | records whether the listener receives results |
| WavSegmenting.AudioHelper.ProcessFile | speech/wav/main.cpp:45-81 | the calls made are `ProcessTrace`, which runs the corrected guard (a segment only when it fits), and the process exits exactly when readWav exits |
| MicRecording.NewAudioChunk | speech/mic/MicRecorder.h:16-23 | the chunk is a copy of the first n samples, in order, with the given timestamp |
| MicRecording.MicRecorder.constructor | speech/mic/MicRecorder.cpp:25-30 | not running, no stream, empty queue, timestamp 0 |
| MicRecording.MicRecorder.GetTimestamp | speech/mic/MicRecorder.h:30 | the current recording timestamp |
| MicRecording.MicRecorder.Push | speech/mic/MicRecorder.cpp:103-107 | queues at the back and advances the timestamp by one segment |
| MicRecording.MicRecorder.RecordCallback | speech/mic/MicRecorder.cpp:14-23 | queues a copy stamped with the current time and returns 0. Nothing is delivered, and the running and stream flags are unchanged. It keeps the invariant that the n-th chunk carries n segment lengths |
| MicRecording.MicRecorder.ConsumerStep | speech/mic/MicRecorder.cpp:113-124 | hands the front chunk to the callback, FIFO, and loses no chunk: delivered followed by queued is unchanged. The timestamp and the running and stream flags are unchanged. It keeps the stamping invariant |
| SpeechLogging.LogResult | speech/headers/Logger.h:16-25 | at most four callbacks for one result |
| SpeechLogging.LogResultReportsParts | speech/headers/Logger.h:16-25 | the callbacks made are exactly one per part the result holds |
| SpeechLogging.LogResultCarries | speech/headers/Logger.h:16-25 | each callback gets the result's own value for its part |
| SpeechLogging.LogResultOrdered | speech/headers/Logger.h:16-25 | the order is: speech started, speaker analysed, speech analysed, speech stopped |
| SpeechLogging.GenderString | speech/headers/Logger.h:47-59 | the sentence printed for each gender |
| SpeechLogging.RunAppend | speech/headers/Logger.h:10-11 | writing two op sequences is writing one after the other |
| SpeechLogging.RunPlain | speech/headers/Logger.h:10-11 | text and numbers written without a format change keep the format and the output so far |
| SpeechLogging.PrecisionBlock | speech/headers/Logger.h:10-11 | between the two macros numbers print at the given precision, fixed. Afterwards the caller's format is back |
| SpeechLogging.Bracketed | speech/headers/Logger.h:10-11 | the same, with text before and after the block |
| SpeechLogging.CallbackKeepsFormat | speech/headers/Logger.h:27-71 | every callback leaves the stream's format as it found it, and prints its numbers with four fixed decimals |
| SpeechLogging.SpeakerKeepsFormat | speech/headers/Logger.h:35-43 | the speaker callback restores the caller's format and prints its three numbers with four fixed decimals |
| SpeechLogging.SpeechKeepsFormat | speech/headers/Logger.h:45-71 | the same for the speech callback and its five numbers |
| SpeechLogging.CallbacksKeepFormat | speech/headers/Logger.h:27-71 | the same for any sequence of callbacks |
| SpeechLogging.LoggingKeepsFormat | speech/headers/Logger.h:16-71 | logging any number of results keeps the output, restores the caller's format, and prints every number with four fixed decimals |
| Locations.IndexOf | vision/shared/LocationsConfig.h:22 | the first comma, or the end |
| Locations.NameRest | vision/shared/LocationsConfig.h:22 | the name is the text before the first comma. The line is the name, a comma and the rest |
| Locations.FieldsJoin | vision/shared/LocationsConfig.h:34-36 | splitting on commas and joining back gives the line |
| Locations.Coords | vision/shared/LocationsConfig.h:34-36 | a box is read only from exactly four fields |
| Locations.CoordsRoundTrip | vision/shared/LocationsConfig.h:34-36 | the four coordinates written with commas read back as the same box |
| Locations.FieldsFour | vision/shared/LocationsConfig.h:34-36 | four comma-free texts joined with commas split back into the same four |
| Locations.FindInSound | vision/shared/LocationsConfig.h:23-28 | a location found is a key whose name is the text |
| Locations.LookupExits | vision/shared/LocationsConfig.h:23-32 | the lookup gives Unknown exactly when no known location has the name, or Unknown's own name matches. Otherwise the location's name is the text |
| Locations.FindLocation | vision/shared/LocationsConfig.h:23-28 | the loop finds `Lookup` |
| Locations.EntriesExit | vision/shared/LocationsConfig.h:29-32 | reading ends the process exactly when some line names no known location |
| Locations.EntriesDomain | vision/shared/LocationsConfig.h:19-39 | the map has a location exactly when some line names it |
| Locations.EntriesLastWins | vision/shared/LocationsConfig.h:38 | a location named twice keeps the box of its last line |
| Locations.EntriesKeys | vision/shared/LocationsConfig.h:19-39 | every location in the map is a known one, never Unknown |
| Locations.ParseAll | vision/shared/LocationsConfig.h:19-39 | one parsed line per data line |
| Locations.ExitStays | vision/shared/LocationsConfig.h:29-32 | once a line has made the process exit, later lines cannot undo it |
| Locations.LocationsConfig.constructor | vision/shared/LocationsConfig.h:12-40 | skips the header. It exits with 1 exactly when some line names no known location. Otherwise the map is `Entries` |
| Status.Chain | vision/shared/StatusListener.h:45-54 | the chain starts at the exception itself |
| Status.Spaces | vision/shared/StatusListener.h:45-54 | n spaces |
| Status.IndentedLines | vision/shared/StatusListener.h:45-54 | a run of exceptions gives one line per exception, the k-th indented k levels deeper |
| Status.PrintExceptionIndented | vision/shared/StatusListener.h:45-54 | the recursion of print_exception writes exactly the lines of the nested chain, each one level deeper |
| Status.PrintExceptionLines | vision/shared/StatusListener.h:45-54 | one line per exception of the nested chain: the k-th carries that exception's text, indented by level + k spaces |
| Status.StatusListener.constructor | vision/shared/StatusListener.h:14 | running, nothing printed |
| Status.StatusListener.OnProcessingException | vision/shared/StatusListener.h:16-22 | stops, and prints the whole exception chain |
| Status.StatusListener.OnProcessingFinished | vision/shared/StatusListener.h:24-31 | stops, and prints the success line |
| Status.StatusListener.IsRunning | vision/shared/StatusListener.h:33-40 | the flag, with nothing changed |
| Decimal.IntToStringRoundTrip | AffdexMe/MainWindow.xaml.cs:439 | the percent text of a value parses back to the value |
| Decimal.IntToStringInjective | AffdexMe/MainWindow.xaml.cs:439 | different values give different texts |
| Decimal.NatToStringRoundTrip | AffdexMe/MainWindow.xaml.cs:439 | the digits of a whole number parse back to it |

## Left out

- The Affdex SDK, OpenCV, PortAudio, libsndfile and WPF are outside the model. Detections, decoded frames, sound files and clock readings are parameters. Drawing is modelled only as far as `drawEqualizer`, `overlayImage` and the values `drawValues` lays out. `draw`, `drawText`, `drawHeadOrientation`, the bounding boxes and the window's image construction are not modelled.
- Threads, mutexes and the dispatcher are not modelled. Each callback runs to completion. This also leaves out `waitForResult`, the consumer thread's sleep, the stream mutex and `ShowExceptionAndShutDown`.
- `MicRecorder::start` and `stop` (MicRecorder.cpp:35-98) are PortAudio calls and are not modelled. Only the recorder's state before them (the constructor) and the callbacks are.
- Floating point is modelled by reals. There is no NaN, rounding error or overflow. Number formatting is modelled by the format that is in effect, not by the digits printed.
- File-path handling (extracting an extension, opening a file) is a parameter. `ExtensionExit` receives the extension.
- The std::maps of `Visualizer.h` (`HEAD_ANGLES`, `EMOTIONS`, `EXPRESSIONS`) are keyed by SDK enumerations and iterate in enumeration order. The SDK headers are not part of this model, so `Measurement`, `Emotion` and `Expression` assume that this order is the order in which the Visualizer constructor lists them. The column positions stated by `SharedListener.RowColumns` and `WebcamListener.RowColumns` (which value sits in which column) rest on this assumption. The alignment of each header with its rows does not.
- The classifier and appearance names of `Visualizer.h` are strings. The order of the SDK's `OccupantLocation` enumeration is not available: `LocationOrder` puts Unknown first and the rest in the order of the help text.
- `printHelpMessage`, the command-line parsing and the demos' main loops are left out. Only the rate and extension checks of the video demo's main are modelled.
- `SEGMENT_SIZE_MS_DEFAULT` and `SAMPLE_RATE_DEFAULT` are SDK constants. They are parameters here.
- `affdex::timestamp` is an SDK type that is not part of this model. `VideoReading` assumes it is a signed integer wider than 32 bits: the wrapped initial value 4294967295 is stored as it is, and `HeldBack` compares and subtracts signed. With another timestamp type the finding for VideoDemo.cpp:23 and `HeldBack` would differ.
- Locations.LocationsConfig.constructor: requires the coordinates of every line with a known name to be exactly four comma-separated whole numbers, and nothing else. The source reads them with `ss >> float` (LocationsConfig.h:34-36), which never throws. It also accepts lines this requires excludes: fractional coordinates such as 426.5, spaces after the commas, a trailing carriage return and extra fields. For malformed text it stores a box with zero or unset coordinates. None of these lines is modelled. The process exit is the `exitStatus` field.
- SharedListener.PlottingImageListener.OutputToFile: requires each face to carry the values the row reads (`AllWritable`), where the source's `at()` would throw.
- CommonListener.PlottingImageListener.OutputToFile: requires each face to be well formed (`AllWellFormed`). This stands for the fixed layout of the SDK structures: the source walks a float pointer through the orientation, emotion and expression structures (3, 9 and 15 floats), one step per name. A face whose structures were shorter than the name lists would make the source read adjacent memory, and that is not modelled.
- SharedListener.PlottingImageListener.ProcessResults: requires every queued face to be writable (`AllResultsWritable`), for the same reason.
- WebcamListener.PlottingImageListener.OutputToFile: requires each face to carry the values the row reads (`AllWritable`), for the same reason.
- SpeechLogging.LogResult: its own contract bounds the number of callbacks. What they are and their order are stated by the three lemmas that follow it.
- Visualizer.OverlayRow: a helper for one row of `OverlayImage`. It has no separate source function.

## Findings

| source | as written | input that shows it | evidently intended | confidence | as-written member | corrected member |
|---|---|---|---|---|---|---|
| speech/wav/main.cpp:63 | the loop guard `offset <= num_samples - samples_per_segment` takes a signed 64-bit difference (`sf_count_t` minus `unsigned int`) and compares it with the `unsigned long` offset; on LP64 targets (Linux, macOS) a negative difference converts to a huge unsigned bound, while on Windows, where `long` is 32 bits, the comparison is signed and there is no overrun | on an LP64 target, a WAV file with fewer samples than one segment: the difference wraps to a huge bound, so the segment at offset 0 is read past the buffer's end | process a segment only when it fits: `offset + samples_per_segment <= num_samples` | not executed | WavSegmenting.GuardAsWrittenOverruns | WavSegmenting.FeedSegments |
| vision/frame-detector-video-demo/VideoDemo.cpp:23 | the initial last timestamp `0 - 1 / sampling_frame_rate` is computed in unsigned 32-bit arithmetic | sampling rate 1 with a first frame at 1000 ms: the initial value is 4294967295, so that frame, and every frame in the first 49 days, is held back | the subtraction done signed, as the comment asks: -1 at rate 1 and 0 at higher rates, so every first frame at or after one sampling period passes | not executed | VideoReading.WrappedInitialLastHoldsBack | VideoReading.InitialLastLetsFirstPeriodThrough |
