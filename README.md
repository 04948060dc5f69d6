# Gwenview slideshow engine and crop widget, modelled in Dafny

This project models two pieces of Gwenview, the KDE image viewer.

- **The slideshow engine** is class `SlideShow` in `gvcore/slideshow.cpp`. It owns:
  - a copy of the URL list, which it shuffles when random order is on;
  - the start position;
  - a single-shot timer;
  - the loop and random flags;
  - one prefetch handle on the image loader.

  It never stores the current position. Each time the timer expires, and each time it prefetches, it searches the list for the URL the document currently shows. It then steps one position forward, wrapping to the front. It either emits `nextURL` or stops and emits `finished`. A non-looping show finishes when the next position is the start position.
- **The crop widget** is in `lib/crop/cropwidget.cpp`. It includes:
  - the integer helpers `gcd` and `ratio`;
  - the parsing that splits a custom ratio typed as `W:H`;
  - the four spin boxes that mirror the crop tool's rectangle, and the slots that keep those boxes within the image.

Modules:

- `Wrappers` (`wrappers.dfy`) defines `Option`.
- `Arith` (`arith.dfy`) holds a divisibility predicate and the division/remainder facts the proofs need.
- `SlideShowEngine` (`slideshow.dfy`) models the engine:
  - pure specifications of every transition, over a snapshot datatype `ShowState`;
  - the lemmas about those transitions;
  - class `SlideShow`, whose methods update fields in place and are proved equal to those transitions.
- `Crop` (`crop.dfy`) models the crop widget:
  - `Gcd` and `Ratio`, with their divisibility and coprimality lemmas;
  - the Qt-style `Split` and its inverse `Join`;
  - the custom-ratio classification;
  - value models of `QRect` and `QSpinBox`;
  - class `CropWidget`, whose methods update its four spin boxes in place.

### How the model represents the environment

- **Document.** The URL the document shows is a parameter `doc` of every operation that reads it.
- **Timer.** The single-shot timer is a flag `timerActive` and an interval `timerInterval`. A timeout clears the flag before the slot runs.
- **Prefetch handle.** The handle is the URL it was requested for, or `None`. The ghost fields `requested` and `releases` count what was requested from the loader and what was released.
- **Shuffle.** The shuffled order is a parameter that must be a permutation of the list.
- **Configuration.** `KConfig` is a map from (group, key) to typed entries. The shared `GVConfig` random flag is passed in by `ReadConfig` and returned by `WriteConfig`.
- **Ratio constraint.** The floating-point crop ratio is not modelled. The height or width it produces is passed to the slots as an `Option<int>`; `None` means the ratio is not constrained.

### Behaviour worth knowing

These are facts about `gvcore/slideshow.cpp` that the model keeps.

- A show without looping stops when the next position is the start position. A show started in the middle of the list therefore wraps around to the front before finishing (`NonLoopingShow`).
- Because the position is found by searching for the first occurrence of the URL, a repeated URL can make a non-looping show cycle forever: `[a, b, a]` started on the first `a` never finishes (`RepeatedUrlNeverFinishes`), while the same list started on `b` emits one `a` and finishes (`RepeatedUrlFinishesFromMiddle`).
- `stop()` does not release the prefetch handle. A later `prefetch()` releases the old handle before taking a new one, so at most one handle is ever held (`AtMostOneHandle`).
- A `start()` whose current URL is not in the list stores the new list and the end position. It leaves `mStarted`, the timer and the handle as they were.
- The timer and the prefetch are not joined: `slotTimeout` emits `nextURL` whether or not the prefetch has completed.

In `lib/crop/cropwidget.cpp`, `setCropRect` sets the four boxes one at a time, and each changed value fires its slot before the next box is set. The left value is therefore bounded by the width the boxes held before the call, so a rectangle inside the image is not always shown as given (`SetCropRectReadBack`, `MoveWithShrinkClamped`).

## Model

| member | source | states |
|---|---|---|
| SlideShowEngine.Find | gvcore/slideshow.cpp:80 | the qFind result is the index of the first occurrence of the URL, or the list length (the end iterator) when it is absent |
| SlideShowEngine.FindMember | gvcore/slideshow.cpp:80-84 | qFind stops before the end of the list exactly when the URL is in the list |
| SlideShowEngine.Successor | gvcore/slideshow.cpp:107-110 | stepping forward and wrapping from the end to the beginning gives (i + 1) mod n, always a valid index |
| SlideShowEngine.NextStep | gvcore/slideshow.cpp:99-116 | there is a next position iff qFind finds the current URL and either looping is on or the wrapped successor of that first occurrence is not the start; the next position is that successor |
| SlideShowEngine.Run | gvcore/slideshow.cpp:98-127 | a show whose display follows every nextURL emits at most one URL per timer expiry |
| SlideShowEngine.RunInList | gvcore/slideshow.cpp:107-118 | every URL the show emits is a member of its list |
| SlideShowEngine.NonLoopingFrom | gvcore/slideshow.cpp:107-116 | over distinct URLs without looping, the show emits the URLs after the current one, in list order with wrap-around, up to the one before the start, and no more |
| SlideShowEngine.NonLoopingShow | gvcore/slideshow.cpp:73-116 | a non-looping show over n distinct URLs started at s emits exactly n - 1 URLs: every URL except the start URL, which it never emits; then it finishes |
| SlideShowEngine.LoopingAt | gvcore/slideshow.cpp:107-118 | in a looping show over distinct URLs, the k-th URL emitted from position i is the one at i + 1 + k wrapped around the list |
| SlideShowEngine.LoopingFrom | gvcore/slideshow.cpp:107-118 | a looping show over distinct URLs emits a URL at every expiry, the k-th being the URL k + 1 positions after the current one modulo the length, so the emissions repeat with period n |
| SlideShowEngine.LoopingNeverFinishes | gvcore/slideshow.cpp:112-118 | a looping show whose current URL is in the list never emits finished |
| SlideShowEngine.RepeatedUrlNeverFinishes | gvcore/slideshow.cpp:99-116 | over the list [a, b, a] started on the first a without looping, the first-occurrence search makes the show cycle between a and b forever |
| SlideShowEngine.RepeatedUrlFinishesFromMiddle | gvcore/slideshow.cpp:99-116 | the list [a, b, a] started on b without looping emits a once and then finishes, because the search finds the first a, whose successor is the start |
| SlideShowEngine.Inv | gvcore/slideshow.cpp:145-146 | the handle accounting kept by releasing before loading: every loader requested has been released except the one handle held, which is the latest request; so releases never exceed requests |
| SlideShowEngine.Stopped | gvcore/slideshow.cpp:92-95 | stop clears the started flag and the timer and keeps the list, the interval and the prefetch handle |
| SlideShowEngine.StopIdempotent | gvcore/slideshow.cpp:92-95 | stopping twice is stopping once, and stopping a stopped show changes nothing |
| SlideShowEngine.AfterPrefetch | gvcore/slideshow.cpp:130-148 | prefetch keeps the handle invariant; the number of outstanding handles is unchanged, or goes from none to one |
| SlideShowEngine.PrefetchMatchesTimeout | gvcore/slideshow.cpp:99-148 | prefetch does nothing exactly when the next timeout would finish, and otherwise requests the URL the next timeout will emit |
| SlideShowEngine.AtMostOneHandle | gvcore/slideshow.cpp:145-153 | at most one image-loader handle is outstanding, and none is exactly when every request has been released |
| SlideShowEngine.AfterPrefetchDone | gvcore/slideshow.cpp:150-155 | prefetchDone releases the held handle, after which every request has been released |
| SlideShowEngine.AfterStart | gvcore/slideshow.cpp:73-89 | start keeps the engine invariant, takes the shuffled order only in random mode and records the first occurrence of the current URL as the start position |
| SlideShowEngine.StartEffect | gvcore/slideshow.cpp:73-89 | start keeps the list's multiset; the start position is inside the list iff the current URL is in it; if it is absent the show, timer and handle are untouched; otherwise the start URL is the current one, the timer is armed with delay*1000, the show is started and the URL the first timeout will emit is prefetched (nothing is requested when that timeout would finish) |
| SlideShowEngine.TimeoutSignal | gvcore/slideshow.cpp:98-119 | the timeout emits finished iff the current URL is missing, or the show does not loop and the next position is the start; otherwise it emits the URL at the first occurrence's position plus one, modulo the length |
| SlideShowEngine.AfterTimeout | gvcore/slideshow.cpp:98-119 | after a timeout the single-shot timer is idle, a finishing timeout stops the show while an advancing one keeps the started flag, and the list, start and handle are unchanged |
| SlideShowEngine.AfterLoaded | gvcore/slideshow.cpp:122-127 | a loaded document changes nothing in a stopped show; in a started one it re-arms the timer with delay*1000 and prefetches exactly the URL the next timeout will emit, requesting nothing when that timeout would finish |
| SlideShowEngine.EngineRun | gvcore/slideshow.cpp:98-127 | a started engine, alternating slotTimeout and slotLoaded with the display following each nextURL, emits at most one URL per timer expiry |
| SlideShowEngine.EngineRunIsRun | gvcore/slideshow.cpp:98-127 | for every started show, the URLs the engine's transitions emit are exactly the sequence Run computes from its list, start position and loop flag, so the cycle facts about Run hold of the engine |
| SlideShowEngine.WriteEntries | gvcore/slideshow.cpp:166-171 | writeConfig adds exactly the delay and loop keys of its group and keeps every other entry, including the group's other keys |
| SlideShowEngine.ReadNum | gvcore/slideshow.cpp:160 | readNumEntry gives the default when the group has no such key, and otherwise either the default or the number stored under the key |
| SlideShowEngine.ReadBool | gvcore/slideshow.cpp:161 | readBoolEntry gives the default when the group has no such key, and otherwise either the default or the flag stored under the key |
| SlideShowEngine.ConfigRoundTrip | gvcore/slideshow.cpp:158-171 | reading back what writeConfig wrote gives the delay and the loop flag that were written |
| SlideShowEngine.ConfigDefaults | gvcore/slideshow.cpp:160-161 | a group without entries reads as a 10-second delay and no looping |
| SlideShowEngine.SlideShow.constructor | gvcore/slideshow.cpp:46-53 | a new engine is stopped, with an empty list, a 10-second delay, no looping and no prefetch handle |
| SlideShowEngine.SlideShow.SetLoop | gvcore/slideshow.cpp:58-60 | only the loop flag changes |
| SlideShowEngine.SlideShow.SetDelay | gvcore/slideshow.cpp:62-67 | the delay changes, and the timer interval becomes delay*1000 only if the timer is active |
| SlideShowEngine.SlideShow.SetRandom | gvcore/slideshow.cpp:69-71 | only the random flag changes |
| SlideShowEngine.SlideShow.Locate | gvcore/slideshow.cpp:99 | the linear search returns the first-occurrence position Find of the current URL |
| SlideShowEngine.SlideShow.Start | gvcore/slideshow.cpp:73-89 | the new state is AfterStart of the old one |
| SlideShowEngine.SlideShow.Arm | gvcore/slideshow.cpp:86-87 | the timer is armed with delay*1000 and the show is marked started; nothing else changes |
| SlideShowEngine.SlideShow.Stop | gvcore/slideshow.cpp:92-95 | the new state is Stopped of the old one |
| SlideShowEngine.SlideShow.SlotTimeout | gvcore/slideshow.cpp:98-119 | the emitted signal is TimeoutSignal and the new state is AfterTimeout of the old state |
| SlideShowEngine.SlideShow.SlotLoaded | gvcore/slideshow.cpp:122-127 | the new state is AfterLoaded of the old one |
| SlideShowEngine.SlideShow.Prefetch | gvcore/slideshow.cpp:130-148 | the new state is AfterPrefetch of the old one |
| SlideShowEngine.SlideShow.Load | gvcore/slideshow.cpp:145-147 | the held handle, if any, is released and a loader is requested for the URL, which becomes the held handle; nothing else changes |
| SlideShowEngine.SlideShow.PrefetchDone | gvcore/slideshow.cpp:150-155 | the new state is AfterPrefetchDone of the old one |
| SlideShowEngine.SlideShow.ReadConfig | gvcore/slideshow.cpp:158-163 | the delay and loop flag are read from the group with defaults 10 and false, random comes from the shared setting, nothing else changes |
| SlideShowEngine.SlideShow.WriteConfig | gvcore/slideshow.cpp:166-171 | the written configuration is WriteEntries of the old one and reads back as the engine's delay and loop flag, and the shared random setting receives the engine's flag |
| SlideShowEngine.AdvanceStep | gvcore/slideshow.cpp:107-127 | over distinct URLs without looping, a timeout whose next position is not the start emits that next URL and, once it is loaded, leaves the list, start and loop flag as they were |
| SlideShowEngine.StartStep | gvcore/slideshow.cpp:73-89 | starting a non-random show over distinct URLs at index i keeps the list, sets the start to i and marks the show started |
| SlideShowEngine.FinishStep | gvcore/slideshow.cpp:112-116 | a timeout whose next position is the start of a non-looping show over distinct URLs emits finished and stops the show |
| SlideShowEngine.ThreeImageShow | gvcore/slideshow.cpp:73-127 | a non-looping show over [a, b, c] started on b emits c, then a, then finishes |
| SlideShowEngine.DelayChangeWhileRunning | gvcore/slideshow.cpp:62-67 | changing the delay from 10 to 2 seconds while the timer is armed re-arms it from 10000 ms to 2000 ms |
| Crop.CppRem | lib/crop/cropwidget.cpp:50 | C++ `%` truncates toward zero: the remainder is smaller than the divisor in magnitude, takes the dividend's sign, differs from the dividend by a multiple of the divisor, and is the Euclidean remainder for non-negative operands |
| Crop.Gcd | lib/crop/cropwidget.cpp:48-51 | the Euclidean gcd of non-negative integers is non-negative, and positive unless both are zero |
| Crop.GcdDivides | lib/crop/cropwidget.cpp:45-51 | the gcd divides both arguments |
| Crop.GcdGreatest | lib/crop/cropwidget.cpp:45-51 | every common divisor of the arguments divides the gcd |
| Crop.Ratio | lib/crop/cropwidget.cpp:53-57 | the reduced sides are non-negative and no larger than the size's sides |
| Crop.RatioExact | lib/crop/cropwidget.cpp:53-57 | dividing the size by its gcd is exact: the ratio times the gcd is the size |
| Crop.RatioProportional | lib/crop/cropwidget.cpp:53-57 | the ratio has the same proportions as the size |
| Crop.RatioCoprime | lib/crop/cropwidget.cpp:53-57 | the ratio is in lowest terms: the gcd of its width and height is 1 |
| Crop.Split | lib/crop/cropwidget.cpp:89 | QString::split keeps empty parts, so it always yields at least one part (the exact count and round trip are SplitCount, SplitThenJoin and JoinSplit) |
| Crop.SplitCount | lib/crop/cropwidget.cpp:89-90 | splitting on ':' yields one more part than the text has separators, empty parts included |
| Crop.SplitPartsFree | lib/crop/cropwidget.cpp:89 | no part of the split contains the separator |
| Crop.SplitThenJoin | lib/crop/cropwidget.cpp:89 | joining the parts with the separator gives back the text |
| Crop.JoinSplit | lib/crop/cropwidget.cpp:89 | splitting the join of separator-free parts gives back the parts |
| Crop.ChosenRatio | lib/crop/cropwidget.cpp:74-92 | empty text gives no ratio; a preset is chosen iff the text is non-empty, the index is not -1 and the text equals that item's text, and then the preset is that index; otherwise the typed text is parsed |
| Crop.CustomRatioText | lib/crop/cropwidget.cpp:87-92 | typed text that is not a preset is rejected iff it does not hold exactly one ':'; otherwise it is split into the width and height texts around that ':' |
| Crop.MakeRect | lib/crop/cropwidget.cpp:224-229 | QRect(left, top, width, height) reports back the same left, top, width and height |
| Crop.RectRoundTrip | lib/crop/cropwidget.cpp:224-229 | rebuilding a rectangle from its left, top, width and height gives the same rectangle |
| Crop.SetValue | lib/crop/cropwidget.cpp:345-348 | QSpinBox::setValue keeps the range, takes the value iff it is in range, and otherwise clamps it to the nearer bound |
| Crop.SetMaximum | lib/crop/cropwidget.cpp:355-356 | QSpinBox::setMaximum sets the maximum, lowers the minimum to it if needed, keeps the value when it is within the new maximum and otherwise makes it exactly the new maximum |
| Crop.PositionBounds | lib/crop/cropwidget.cpp:352-356 | slotPositionChanged's two setMaximum calls (and the slots their changes fire) leave the position values as they were and the width and height within the image |
| Crop.WidthBounds | lib/crop/cropwidget.cpp:364-366 | slotWidthChanged's setMaximum makes the left maximum the image width minus the width and bounds the left value by it, keeps width and top, and leaves the crop inside the image horizontally |
| Crop.HeightBounds | lib/crop/cropwidget.cpp:378-380 | slotHeightChanged's setMaximum makes the top maximum the image height minus the height and bounds the top value by it, keeps height and left, and leaves the crop inside the image vertically |
| Crop.EditLeft | lib/crop/cropwidget.cpp:345 | leftSpinBox->setValue, with the slot it fires, leaves the left value at the requested value clamped to the box's range |
| Crop.EditTop | lib/crop/cropwidget.cpp:346 | topSpinBox->setValue, with the slot it fires, leaves the top value at the requested value clamped to the box's range |
| Crop.EditWidth | lib/crop/cropwidget.cpp:347 | widthSpinBox->setValue, with the slot it fires, leaves the width at the requested value clamped to the box's range |
| Crop.EditHeight | lib/crop/cropwidget.cpp:348 | heightSpinBox->setValue, with the slot it fires, leaves the height at the requested value clamped to the box's range |
| Crop.InitialBoxes | lib/crop/cropwidget.cpp:233-240 | initSpinBoxes on default boxes leaves every value at 0, the left and width maxima at the image width and the top and height maxima at the image height, all well formed |
| Crop.InitialFitted | lib/crop/cropwidget.cpp:233-240 | initSpinBoxes changes no value (all are 0), so it fires no slot, and leaves the boxes fitted to the image |
| Crop.FittedInside | lib/crop/cropwidget.cpp:352-390 | boxes fitted to the image describe a crop rectangle inside the image |
| Crop.EditLeftFitted | lib/crop/cropwidget.cpp:345 | on fitted boxes, setting the left value bounds it by the current width and keeps the boxes fitted, changing no other value |
| Crop.EditTopFitted | lib/crop/cropwidget.cpp:346 | on fitted boxes, setting the top value bounds it by the current height and keeps the boxes fitted, changing no other value |
| Crop.EditWidthFitted | lib/crop/cropwidget.cpp:347 | on fitted boxes, setting the width bounds it by the current left value and keeps the boxes fitted, changing no other value |
| Crop.EditHeightFitted | lib/crop/cropwidget.cpp:348 | on fitted boxes, setting the height bounds it by the current top value and keeps the boxes fitted, changing no other value |
| Crop.SetCropRectBoxes | lib/crop/cropwidget.cpp:342-350 | setCropRect's four setValue calls in order, each followed by the slot its change fires, keep the boxes well formed; the values they leave are stated by SetCropRectFitted and SetCropRectReadBack |
| Crop.SetCropRectFitted | lib/crop/cropwidget.cpp:342-350 | setCropRect keeps fitted boxes fitted; the left value is bounded by the width held before the call and then the width by the new left value, likewise top and height |
| Crop.SetCropRectReadBack | lib/crop/cropwidget.cpp:342-350 | on fitted boxes, setCropRect shows exactly the given rectangle iff it lies inside the image and its left and top also fit beside the width and height held before the call |
| Crop.MoveWithShrinkClamped | lib/crop/cropwidget.cpp:342-350 | on a 100-wide image cropped at left 0 with width 90, moving to left 40 with width 20 (inside the image) leaves left 10, because the left value is bounded by the old width |
| Crop.ConstructedFitted | lib/crop/cropwidget.cpp:253-295 | the boxes after initSpinBoxes and the first setCropRect are fitted to the image |
| Crop.WidthSlotBoxes | lib/crop/cropwidget.cpp:364-376 | slotWidthChanged keeps the width value, leaves the left maximum at the image width minus the width, and leaves the crop inside the image horizontally |
| Crop.HeightSlotBoxes | lib/crop/cropwidget.cpp:378-390 | slotHeightChanged keeps the height value, leaves the top maximum at the image height minus the height, and leaves the crop inside the image vertically |
| Crop.CropWidget.CropRect | lib/crop/cropwidget.cpp:222-231 | the crop rectangle's left, top, width and height are the four spin-box values |
| Crop.CropWidget.constructor | lib/crop/cropwidget.cpp:253-295 | the boxes are QSpinBox defaults with the image's sides as maxima, then take the tool's rectangle through setCropRect with its slot cascade; they end fitted to the image, the flag cleared and the tool untouched |
| Crop.CropWidget.SetCropRect | lib/crop/cropwidget.cpp:342-350 | with the flag raised, each box takes the rectangle's component through setValue and the slot each change fires; the flag ends cleared and the tool is untouched |
| Crop.CropWidget.SetLeftValue | lib/crop/cropwidget.cpp:345 | the left box takes the value and, if it changed, slotPositionChanged runs and stops at the raised flag |
| Crop.CropWidget.SetTopValue | lib/crop/cropwidget.cpp:346 | the top box takes the value and, if it changed, slotPositionChanged runs and stops at the raised flag |
| Crop.CropWidget.SetWidthValue | lib/crop/cropwidget.cpp:347 | the width box takes the value and, if it changed, slotWidthChanged runs and stops at the raised flag |
| Crop.CropWidget.SetHeightValue | lib/crop/cropwidget.cpp:348 | the height box takes the value and, if it changed, slotHeightChanged runs and stops at the raised flag |
| Crop.CropWidget.SlotPositionChanged | lib/crop/cropwidget.cpp:352-362 | the width and height maxima become the image side minus the position, so the crop stays inside the image; the tool gets the crop rectangle unless the update came from the tool |
| Crop.CropWidget.SlotWidthChanged | lib/crop/cropwidget.cpp:364-376 | the left maximum becomes the image width minus the width; a constrained height is set only for user edits; the tool gets the crop rectangle unless the update came from the tool |
| Crop.CropWidget.SlotHeightChanged | lib/crop/cropwidget.cpp:378-390 | the top maximum becomes the image height minus the height; a constrained width is set only for user edits; the tool gets the crop rectangle unless the update came from the tool |

## Left out

- `std::random_shuffle` is not modelled: the shuffled order is a parameter of `Start`, required to be a permutation of the list.
- `mRandom` is never initialised by the source constructor, so its initial value is a constructor parameter.
- Real timing of `QTimer`, Qt signal/slot connections and their delivery order are not modelled. The timer is a flag and an interval.
- `ImageLoader` decoding and the `imageLoaded` connection are not modelled. A handle is the URL it was requested for, and the `BUSY_PRELOADING` priority is dropped.
- The `GVConfig` singleton is not modelled: its random flag is a parameter of `ReadConfig` and a result of `WriteConfig`.
- `KConfig::setGroup` as a mutable cursor and the text encoding of entries are not modelled. Entries are typed values keyed by (group, key).
- `kdWarning` logging and the empty destructor are left out; they have no effect on state.
- SlideShowEngine.SlideShow.SetDelay: `delay*1000` is an unbounded integer, so the 32-bit overflow of the source is not modelled.
- SlideShowEngine.AfterStart: the interval `mDelay*1000` is unbounded; 32-bit overflow is not modelled.
- SlideShowEngine.AfterLoaded: the interval `mDelay*1000` is unbounded; 32-bit overflow is not modelled.
- Floating-point code is not modelled: `toDouble`, `cropRatio`, `ratioIsConstrained`, `applyRatioConstraint` and the `int(...)` conversions of the constrained side. The constrained side is an `Option<int>` parameter of the width and height slots.
- Crop.ChosenRatio: the preset's ratio stored as item data (`currentData().toSizeF()`) and the `toDouble` parsing of a custom ratio are not modelled. The result says which branch applies and carries the two texts.
- The `valueChanged` cascade is modelled as a direct call of the connected slot after each `setValue` that changes a value, and after the `setMaximum` calls of `slotWidthChanged` and `slotHeightChanged`. The crop tool's `rectUpdated` feedback into `setCropRect` is not modelled: the tool is the rectangle it was last given.
- Crop.CropWidget.SlotWidthChanged: a slot fired by the constrained `setValue` of another slot runs with `None`, i.e. without the ratio constraint, because the constrained side comes from floating-point code that is not modelled. The same holds for Crop.CropWidget.SlotHeightChanged.
- Crop.CropWidget.SlotPositionChanged: the `slotWidthChanged` and `slotHeightChanged` that its width and height `setMaximum` fire are reduced to their own first line, the left or top `setMaximum` (`PositionBounds`). With the update flag raised that line is the whole slot, and on fitted boxes the width and height never change here, so the slots never fire; with the flag clear on boxes that are not fitted, their ratio-constrained `setValue` and their push to the crop tool are not modelled.
- URLs are strings compared with `==`. `KURL`'s own equality, which normalises the URL, is not modelled.
- The spin boxes' ranges in the `.ui` form are taken to be Qt's defaults, 0 to 99, with value 0.
- Crop.Gcd: the divisibility lemmas cover non-negative arguments only, the case the widget uses with image sizes. The `INT_MIN % -1` overflow is not modelled.
- Crop.Ratio: negative sizes and the all-zero size (a division by zero in the source) are excluded by its precondition. `size / divisor` is `QSize::operator/(qreal)`, which rounds each side; the model uses integer division, which agrees because the division is exact (`RatioExact`).
- The remaining crop widget members are not modelled: `setChosenRatio`, `setCropRatio`, `slotRatioComboBoxChanged`, `updateCropRatio`, `initRatioComboBox`, `setAdvancedSettingsEnabled`, `slotAdvancedCheckBoxToggled`, `initDialogButtonBox` and the other widget plumbing.
- `app/documentview.cpp`, `lib/document/documentjob.cpp` and the headers are context only and are not part of this model.
