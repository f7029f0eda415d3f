# Realtime globe background: a Dafny model

The page shows the latest full-disk Himawari satellite image as the background of a
globe container. It looks up the newest capture token and builds the image URL from the
selected variant and that token. If the image answers, the page shows it. A
self-rescheduling timer repeats this at :01, :11, …, :51 past every hour. Two page
scripts exist:

- `app.js` holds the scheduler, the presenter, the variant picker and a refresh button.
- `js/app.js` repeats the same code up to line 113, except that its option handler
  (lines 96-101) queries `#imageSelect .image-option` where `app.js` queries
  `#floatingSelect .image-option`. It adds a resize controller (wheel, arrow keys,
  grow/shrink buttons) and two feedback messages that fade out.

The model is split into modules:

- `Browser`: JavaScript null as `Option`, and the browser's timer queue as a class
  `Timers`. `setTimeout` hands out fresh positive handles and `clearTimeout` removes a
  pending one. The event loop's firing of a timer is the `Fire` method of each page.
- `Schedule`: the delay arithmetic of `scheduleNextUpdate` as pure functions of the
  minute and second read from the clock, with lemmas on when the timer fires.
- `Presenter`: the URL that `setGlobeImage` requests and the background style it leaves.
- `Picker`: the option click loop, done in place on an array of (value, selected) items.
- `Resize`: the clamp, the percentage shown, its decimal text and the input mapping.
- `App` and `JsApp`: one class `Page` per script. Each holds that script's module-level
  state and its handlers as methods. `Valid()` says that every pending tick is the one
  `updateTimer` names. In `JsApp` it also says that every pending fade timer is the one
  its message's variable names, and that the size stays in [20, 100].

The model follows what the code does, in particular:

- Refreshes are aligned one *minute* past each 10-minute mark (line 61 adds 1 to the
  minute). They are neither one second past the mark nor on the mark that the comment
  at line 60 names.
- In `js/app.js` the second `async function refreshGlobeImage` (lines 194-197) is hoisted
  over the first (lines 90-94). So a click on the globe or on an option neither cancels
  nor re-arms the scheduler there. It presents and then shows "Refresh successful!",
  even when the image did not change.
- The fade of a message cancels only the outer 800 ms timer. The nested 500 ms clear
  timer is never tracked. `JsApp.ResizeAcrossFade` shows the result: a resize between a
  fade and its clear has its new text emptied while it is still fully visible.

## Model

| member | source | states |
|---|---|---|
| `Schedule.CeilTenth` | js/app.js:61 | `Math.ceil(m / 10)`: the least c with m <= 10·c |
| `Schedule.NextUpdateMinute` | js/app.js:61 | the target minute is 1 modulo 10, strictly after m and at most 10 minutes ahead |
| `Schedule.Delay` | js/app.js:61-71 | for every minute and second in 0..59 the delay is a whole number of seconds within [1000, 600000] ms, so it is positive |
| `Schedule.FireSecondIsTarget` | js/app.js:61-71 | the timer fires at ceil(m/10)·600 + 60 seconds past the hour: second 0 of a minute that is 1 modulo 10, strictly after the reading |
| `Schedule.FireSecondIsEarliest` | app.js:61-71 | no refresh instant lies strictly between the reading and the fire instant |
| `Schedule.ImmediateRefreshIsOffTarget` | app.js:65-67 | the extra refresh runs exactly when the reading is a multiple of 600 s (:x0:00), which is never a scheduled instant (:x1:00) |
| `Schedule.OnTimeTickRearmsTenMinutes` | app.js:83-86 | a tick that reads the clock at its fire instant arms the next one exactly 600000 ms ahead |
| `Schedule.ImmediateRefresh` | app.js:65 | the condition of the extra immediate refresh: minute a multiple of 10 and second 0 |
| `Schedule.LastMinuteTargetsNextHour` | app.js:61-71 | at minute 59 the target is minute 61, i.e. :01 of the next hour |
| `Presenter.Usable` | app.js:34 | a token passes the falsiness test exactly when it is neither null nor the empty string |
| `Presenter.ImageUrl` | app.js:36 | the URL is the fixed prefix, the variant, `_`, the token and `.jpg`, each at its position |
| `Presenter.ImageUrlInjective` | app.js:36 | for variants without `_`, equal URLs come from equal variants and tokens |
| `Presenter.Requested` | js/app.js:33-36 | an image is requested exactly when the token is present and non-empty, and it is the URL for the current variant and that token |
| `Presenter.Showing` | app.js:44-46 | the shown style wraps the URL in `url(` and `)`, with size `cover` and position `center` |
| `Presenter.Present` | app.js:34-46 | on the success path the style is exactly `Showing` of the requested URL, whatever it was before; a missing or empty token or a failed image request leaves it unchanged |
| `Presenter.PresentIsAtomic` | js/app.js:38-52 | the style either stays whole or becomes `url(<requested URL>)`, `cover`, `center` all at once |
| `Presenter.TrueColourExample` | app.js:36-46 | variant `trm` with token `2023020112` requests `.../fd__trm_2023020112.jpg` and on success the style is `url(...)`, `cover`, `center` |
| `Presenter.AfterCycle` | app.js:65-67 | a tick or start runs setGlobeImage and then scheduleNextUpdate: off :x0:00 only the first presentation counts; at :x0:00 a successful extra run decides the background; the result is the old style or one of the two presentations |
| `Picker.SelectAt` | app.js:99-105 | the options keep their number and values, and exactly option k is marked selected |
| `Picker.SelectAtMarksOnlyClicked` | js/app.js:99-108 | after a click exactly one option is selected, namely the clicked one, and no value changed |
| `Picker.SelectAtForgetsPast` | app.js:99-105 | the result of a click does not depend on the earlier selection |
| `Picker.Select` | app.js:97-108 | the loop leaves the array equal to `SelectAt` of its old contents and returns the clicked option's value |
| `Resize.Resized` | js/app.js:158-159 | the new size lies in [20, 100] and is the point of that range nearest to size + change |
| `Resize.ResizedStepOnGrid` | js/app.js:158-159 | a step of ±10 from a multiple of 10 in [20, 100] stays a multiple of 10 in [20, 100] |
| `Resize.ResizedAllOnGrid` | js/app.js:124-159 | every sequence of ±10 steps from such a size, 60 included, keeps it a multiple of 10 in [20, 100] |
| `Resize.ResizedAtBounds` | js/app.js:124-126 | 100 + 10 stays 100, 20 − 10 stays 20, and five +10 steps from 60 give 100 |
| `Resize.Percent` | js/app.js:164-165 | the percentage is size·100/60 rounded to the nearest integer, halves up |
| `Resize.PercentExamples` | js/app.js:164-165 | 60 shows 100, 20 shows 33 and 100 shows 167 |
| `Resize.Decimal` | js/app.js:166 | the printed number is a non-empty string of digits without a leading zero |
| `Resize.DecimalRoundTrip` | js/app.js:166 | reading the printed digits back gives the number printed |
| `Resize.SizeMessage` | js/app.js:165-166 | the text is `Size: `, a digit string that reads back as `Percent(size)`, then `%` |
| `Resize.SizeMessageAtBaseline` | js/app.js:164-166 | size 60 shows "Size: 100%" |
| `Resize.Change` | js/app.js:170-191 | every input maps to +10, −10 or nothing |
| `Resize.ChangeDirections` | js/app.js:170-191 | wheel with deltaY < 0, ArrowUp and grow give +10; wheel with deltaY >= 0 (0 included), ArrowDown and shrink give −10; a wheel while focus is elsewhere and any other key give nothing |
| `App.Page.constructor` | app.js:1-2 | no timer, variant `trm`, unstyled container, empty timer queue |
| `App.Page.SetGlobeImage` | app.js:32-53 | the style becomes `Present` of the old style, the current variant and the fetch outcome |
| `App.Page.ScheduleNextUpdate` | app.js:55-87 | afterwards exactly one tick is pending, waiting `Delay(c)`, and `updateTimer` names it; the one pending before is cancelled; the extra presentation runs only at :x0:00 |
| `App.Page.Fire` | app.js:83-86 | a pending tick presents and re-arms, leaving exactly one tick pending; a handle no longer pending does nothing |
| `App.Page.RefreshGlobeImage` | app.js:90-94 | the pending tick is cancelled, the image presented, and exactly one new tick is pending afterwards |
| `App.Page.ClickOption` | app.js:97-112 | only the clicked option is selected, `selectedType` is its value, and the refresh uses that new variant and re-arms the scheduler |
| `App.Page.Start` | app.js:116 | the first presentation, then exactly one pending tick |
| `JsApp.Page.constructor` | js/app.js:1-129 | no timers, variant `trm`, size 60, blank messages, no recorded fade handles |
| `JsApp.Page.SetGlobeImage` | js/app.js:32-53 | the style becomes `Present` of the old style, the current variant and the fetch outcome; nothing else changes |
| `JsApp.Page.ScheduleNextUpdate` | js/app.js:55-87 | the previous tick is cancelled and the only pending tick is the new one `updateTimer` names; the message timers are untouched |
| `JsApp.Page.UpdateMessage` | js/app.js:132-155 | the element shows the text at opacity "1"; its previous fade timer is cancelled; the new fade (800 ms) is recorded in its own variable only; the other element and its handle are unchanged |
| `JsApp.Page.SetText` | js/app.js:133 | the element's text becomes the given string; its opacity, the other element and every other field stay |
| `JsApp.Page.SetOpacity` | js/app.js:134 | the element's opacity becomes the given string; its text, the other element and every other field stay |
| `JsApp.Page.Fire` | js/app.js:140-147 | a fade sets opacity "0" and arms an untracked 500 ms clear; a clear empties the text; a tick presents and re-arms; a handle no longer pending does nothing |
| `JsApp.Page.ResizeGlobe` | js/app.js:158-167 | the size becomes `Resized(size, change)` and stays on the grid for ±10; the resize message shows `SizeMessage` at opacity "1"; the refresh message is untouched |
| `JsApp.Page.HandleInput` | js/app.js:170-191 | an input resizes by `Change(e)`, recording the new fade handle and replacing the old fade timer; an ignored input changes no size, message, handle or timer; the variant, style, refresh message and its handle always stay |
| `JsApp.Page.RefreshGlobeImage` | js/app.js:194-197 | presents, then shows "Refresh successful!" whatever the outcome; `updateTimer` and every pending tick are left as they were |
| `JsApp.Page.ClickOption` | js/app.js:97-112 | only the clicked option is selected and `selectedType` is its value; the refresh presents with the new variant, replaces the refresh message's fade timer and leaves the scheduler, the size, the resize message and its handle alone |
| `JsApp.Page.Start` | js/app.js:116 | the first presentation, then exactly one pending tick named by `updateTimer`; both messages, their handles, the size and the pending fade and clear timers stay |
| `Browser.Timers.SetTimeout` | js/app.js:83 | a fresh positive handle, never pending before, is added with its callback and delay; nothing else pending changes |
| `Browser.Timers.ClearTimeout` | js/app.js:80 | the named timer is no longer pending, a null handle changes nothing, and no other timer is touched |
| `Browser.Timers.Take` | js/app.js:140-146 | the event loop removes the timer it runs and gets its callback, or nothing when it was cleared |
| `JsApp.FadeThenClear` | js/app.js:140-147 | a message left alone ends with opacity "0" and empty text once its fade and then its clear have fired |
| `JsApp.ResizeAcrossFade` | js/app.js:137-147 | a second resize between a fade and its clear does not cancel the clear, so the newer text is emptied at opacity "1" while its own fade is still pending |

## Left out

- `fetchLatestImageTime` (lines 4-30: HTTP GET, `DOMParser`, `querySelector`) is not modelled. Only its result appears, as the optional token in `Presenter.Fetch`.
- The image existence `fetch` (lines 39-40) is the boolean `imageOk`. A thrown network error and a non-ok status both give `false`.
- `new Date()` is not modelled. The minute and second are the `Clock` parameter, and fire instants are counted in seconds past the current hour. `getSeconds()` drops the milliseconds, so the real fire instant falls up to 999 ms after `FireSecond`.
- Real time is not modelled. Each pending timer records its delay, and the `h` argument of `Fire` says which timer the event loop runs next.
- Async interleaving is not modelled: each handler runs as one atomic step. A tick starts `setGlobeImage` without awaiting it, so two presentations can finish in either order (the tick's and the :x0:00 extra one). The model applies them in call order. Overlapping manual and automatic presentations can also race, and the model does not show that race.
- `console.log` and `console.error` are left out, and so is the `Math.round` of minutes in the log message (lines 73-77).
- The `globeContainer` null branch (lines 47-49) is left out: the container is assumed present.
- The `vmin` width and height strings (lines 161-162) are left out: `containerSize` is the value they show.
- `event.preventDefault()` is left out, and so are the implicit globals `growGlobeBtn` and `shrinkGlobeBtn`.
- Listener registration (js/app.js lines 97-98, 122, 170, 181, 190-191; app.js lines 119-121) is left out. Only the handlers' effects are modelled: clicks on the globe and on the refresh button are calls of `RefreshGlobeImage`.
- Each option is assumed to carry a `value` attribute. `getAttribute` returning null for an option without one is not modelled.
- `Resize.Percent`: models the floating-point `Math.round((size / 60) * 100)` as integer round-half-up of size·100/60. This is exact for integer sizes because the quotient's fraction is 0, 1/3 or 2/3. It is not stated for non-integer sizes, which the code never produces.
- `JsApp.Page.UpdateMessage`: requires `timeoutVar` to be the element's own variable, as both call sites pass it (lines 166 and 196). A call passing another element's handle is not modelled.
