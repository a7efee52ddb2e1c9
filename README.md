# Quiz-show kiosk registration: a verified model

This project models the logic core of a kiosk ("totem") registration system for a
quiz show. It covers four pieces:

- **Game creation and listing** (`games.dfy`). A create request is validated. The
  participants who are free to play are those not linked to a waiting or active game.
  An optional id list narrows them. The selection is cut to the game's limit. The game
  is written with status `waiting`, a participant count and one join row per
  participant. Listing filters by an optional status and returns games newest first.
- **Participant registration and listing** (`participants.dfy`). The schema checks the
  name, email and phone. Empty optional fields are never stored, and the response
  shows a missing field as `null`. Listing returns participants newest first, without
  the selfie.
- **The selfie-capture component** (`webcam.dfy`). This is a class with the
  component's state: image, captured flag, error, countdown and mirror flag. Its
  handlers are methods: start countdown, interval tick, capture timeout, retake,
  external reset, flip, camera error and confirm.
- **The registration wizard** (`registration.dfy`). The client schema is proved
  equivalent to the server's. A method builds the submitted form data. A class holds
  the step machine: welcome / camera / form / success, the selfie, a reset counter
  that never decreases, and the return-to-camera timeout.

The store is three in-memory sequences: participants, games and join rows (`store.dfy`).
`base.dfy` holds Option/Result, JavaScript truthiness of an optional string, and an
order-keeping filter. `ordering.dfy` holds the newest-first ordering of the store
queries.

Things outside the model become parameters:
- identifiers and timestamps the store generates;
- a store call that throws (`storeFails`);
- the email check of the validation library (`isEmail`, left uninterpreted);
- the camera's screenshot (`videoReady`, `screenshot`);
- whether the selfie could be read back into a file, and whether the server answered ok.

Timers are events: `Tick`, `Fire` and `FireReturnTimer`.

Some behaviour of the code is worth stating up front, since the model reproduces it:
- The participants route reads its body only with `request.json()`
  (`src/app/api/participants/route.ts:15`). A body that is not JSON takes the 500 path
  (`Participants.Body.NotJson`). The wizard posts a multipart `FormData`
  (`src/components/totem/RegistrationForm.tsx:77-94`). Against this route, that request
  gets the 500 answer, and the wizard stays on its form step
  (`Registration.SubmitToJsonRoute`).
- A successful capture hands the image to the parent at once
  (`src/components/custom/WebcamCapture.tsx:40-44`). The confirm button of the captured
  screen hands the same image over again (249-254).
- The retry button of the camera-error screen calls `retake`
  (`src/components/custom/WebcamCapture.tsx:142`). It clears the error, the photo and
  the countdown, and does nothing else.
- Neither retake nor the external reset cancels the countdown interval or the capture
  timeout. A countdown that was running still expires and still captures
  (`Webcam.CountdownOutlivesRetry`). Only the first of two such captures takes a photo,
  because the camera element is unmounted once a photo is held
  (`Webcam.StaleTimeoutsDeliverOnce`).
- The wizard's step decides which handlers can run:
  - the capture component, and so `HandleSelfieCapture`, exists only on the camera step;
  - the retake, edit and submit controls exist only on the form step;
  - the welcome screen offers only its start button.
  The model's handlers require those steps. The capture component's handlers likewise
  require the screen that renders their controls.

## Model

| member | source | states |
|---|---|---|
| `Games.SchemaIssues` | src/app/api/games/route.ts:7-11 | No issue iff 1 ≤ \|name\| ≤ 100 and 2 ≤ maxParticipants ≤ 20. A name issue comes first: required if empty, too long if over 100. With a valid name, the one issue is the limit that was crossed. |
| `Games.AvailableParticipants` | src/app/api/games/route.ts:22-41 | A participant is listed iff it is stored and none of its join rows points to a waiting or active game. |
| `Games.Select` | src/app/api/games/route.ts:53-59 | A non-empty id list keeps exactly the available participants whose id is in it. An absent or empty list keeps them all. |
| `Games.SelectKeepsOrder` | src/app/api/games/route.ts:55-58 | Selection distributes over concatenation, so it keeps the available list's order. |
| `Games.Truncate` | src/app/api/games/route.ts:62 | The result is the prefix of the selection of length min(\|selection\|, max). |
| `Games.ParticipantsToAdd` | src/app/api/games/route.ts:53-62 | A valid request adds at most maxParticipants participants. |
| `Games.AddedParticipants` | src/app/api/games/route.ts:53-62 | The added participants number at most maxParticipants and are a prefix of the selection. They are all stored and available, all named by a narrowing id list, and (with unique store ids) free of duplicates. |
| `Games.JoinRows` | src/app/api/games/route.ts:71-76 | One join row per added participant, in order, with the new game's id, that participant's id and the creation time. |
| `Games.FindParticipant` | src/app/api/games/route.ts:78-92 | Finds a stored participant with the row's id, or shows that none exists. |
| `Games.SummariesFollowRows` | src/app/api/games/route.ts:96-105 | Every summary comes from a join row, with that row's participant id and join time. When every row's participant is stored, there is one summary per row. |
| `Games.ViewFollowsJoins` | src/app/api/games/route.ts:173-183 | A game's view carries the game, and every participant it lists is linked to the game by a join row with that join time. |
| `Games.Post` | src/app/api/games/route.ts:14-139 | Invalid iff the schema finds an issue, answered with the first one. Created iff valid, the store works and someone is available. No one available gives 400. Every failure leaves the store unchanged. A created game is `waiting`, with currentParticipants = number added ≤ maxParticipants. The store gains exactly that game and its join rows. |
| `Games.CreatedParticipantList` | src/app/api/games/route.ts:96-105 | With a fresh game id, the response's participant list maps the join rows 1:1. Each entry carries the participant's id, name, email, phone and selfie URL, plus the join time. |
| `Games.AddedNoLongerAvailable` | src/app/api/games/route.ts:22-33 | After creation, every participant put into the game is no longer available. |
| `Games.PostKeepsAtMostOneOpenGame` | src/app/api/games/route.ts:22-76 | If no participant is in two waiting or active games before a creation with a fresh id, none is after it. |
| `Games.CreateThreeOfThree` | src/app/api/games/route.ts:53-76 | Limit 3, no id list, at least 3 available: a waiting game with exactly 3 participants and 3 new join rows. |
| `Games.UnmatchedIdsCreateEmptyGame` | src/app/api/games/route.ts:55-76 | A non-empty id list that matches no available participant still creates a game, with 0 participants and no join rows. |
| `Games.List` | src/app/api/games/route.ts:143-202 | Fails (500) iff the store fails, or the status query is non-empty and names no status. Otherwise it lists at most the stored games. |
| `Games.WithStatus` | src/app/api/games/route.ts:148 | A game is kept iff it is in the input and has the status asked for. |
| `Games.ListByStatus` | src/app/api/games/route.ts:145-170 | A status query lists every game with that status and no other game, newest first. |
| `Games.ListAll` | src/app/api/games/route.ts:146-170 | An absent or empty status query lists every game, newest first. |
| `Games.ListUnknownStatusFails` | src/app/api/games/route.ts:146-200 | A non-empty status that names no status is a 500 failure. |
| `Store.ParseStatus` | src/types/game.ts:4 | A string is read as a status iff it is one of the four names; otherwise nothing. |
| `Store.ParseStatusName` | src/types/game.ts:4 | Reading a status's own name gives that status back. |
| `Base.Filter` | src/app/api/games/route.ts:56-58 | The result holds exactly the elements that pass the test. It is empty iff nothing passes, and never longer than the input. |
| `Base.FilterAppend` | src/app/api/games/route.ts:56-58 | Filtering a concatenation is the concatenation of the filtered parts, so the order is kept. |
| `Base.FilterDistinctBy` | src/app/api/games/route.ts:56-58 | Filtering a list with distinct keys gives a list with distinct keys. |
| `Base.KeepTruthy` | src/app/api/participants/route.ts:24-28 | A present non-empty string is kept. Anything else becomes missing, so an empty string never survives. |
| `Ordering.Insert` | src/app/api/games/route.ts:167-169 | Inserting into a newest-first list gives a newest-first list with exactly one more element, the inserted one. |
| `Ordering.SortNewestFirst` | src/app/api/games/route.ts:167-169 | The result has the same elements, with their multiplicities, ordered by creation time, newest first. |
| `Ordering.SortedQuery` | src/app/api/participants/route.ts:73-76 | A newest-first query returns a permutation of the records in which every record is at least as new as all the records after it. |
| `Participants.SchemaIssues` | src/app/api/participants/route.ts:6-11 | No issue iff 2 ≤ \|name\| ≤ 50, email is absent, empty or valid, and phone is absent, empty or at least 10 characters. Each issue is reported iff its rule is broken. |
| `Participants.NewRecord` | src/app/api/participants/route.ts:21-30 | The stored record keeps the name. It keeps email, phone and selfie only when they are non-empty; a non-empty selfie becomes the selfie URL. |
| `Participants.Out` | src/app/api/participants/route.ts:36-42 | The response keeps id and name. Email, phone and selfie URL are null iff the stored field is missing or empty, and otherwise carry the stored value. |
| `Participants.Post` | src/app/api/participants/route.ts:13-69 | Rejected (400, with every issue) iff the payload breaks a rule. Registered iff it is valid and the store works. Any other case is a 500, including a body that is not JSON. Nothing is stored unless registered; then exactly the new record is appended. |
| `Participants.RegisteredIsNormalised` | src/app/api/participants/route.ts:21-45 | A registration answers 201. It stores no empty email, phone or selfie, and answers with exactly what it stored. A field comes back null iff it was absent or empty. |
| `Participants.NonValidationFailure` | src/app/api/participants/route.ts:47-67 | An unparsable body or a store failure answers 500 with success false and stores nothing. |
| `Participants.BadNameRejected` | src/app/api/participants/route.ts:47-58 | A name shorter than 2 or longer than 50 characters is a 400 and stores nothing. |
| `Participants.NameOnlyRegistration` | src/app/api/participants/route.ts:32-45 | A registration with a valid name only answers 201, with email, phone and selfie URL null. |
| `Participants.List` | src/app/api/participants/route.ts:71-102 | Listing fails (500) iff the store fails. |
| `Participants.Project` | src/app/api/participants/route.ts:77-83 | A listing row carries the record's id, name, email, phone and creation time, and no selfie URL. |
| `Participants.ListNewestFirst` | src/app/api/participants/route.ts:73-84 | The listing has one row per stored participant, ordered by creation time, newest first. Its rows are exactly the projections of the stored participants: every row projects a stored participant, and every stored participant's projection is listed. |
| `Participants.RegisterThenList` | src/app/api/participants/route.ts:21-84 | After a registration, the listing has one more row, and that row is the new participant's. |
| `Webcam.CountdownAfterTick` | src/components/custom/WebcamCapture.tsx:63-76 | A value that is missing or ≤ 1 expires to nothing. Any other value goes down by one and stays ≥ 1. |
| `Webcam.WebcamCapture.View` | src/components/custom/WebcamCapture.tsx:136-257 | The error screen shows iff there is an error message. The live preview shows iff there is no error and no photo held. Otherwise the captured photo shows. |
| `Webcam.CountdownFrom` | src/components/custom/WebcamCapture.tsx:60-77 | A countdown from n shows n, n-1, …, 1. It expires on exactly the tick that sees 1. |
| `Webcam.ThreeTwoOne` | src/components/custom/WebcamCapture.tsx:60-77 | Started at 3, the display goes 3, 2, 1 and then clears. The third tick schedules the capture. |
| `Webcam.WebcamCapture.constructor` | src/components/custom/WebcamCapture.tsx:14-18 | Starts with no image, not captured, no error, no countdown, mirrored, no timers, on the live screen. |
| `Webcam.WebcamCapture.StartCountdown` | src/components/custom/WebcamCapture.tsx:53-78 | Reachable only from the live screen, whose preview and capture button call it. Does nothing while a countdown runs. Otherwise it shows 3 and registers one interval; no other field changes. |
| `Webcam.WebcamCapture.Tick` | src/components/custom/WebcamCapture.tsx:62-77 | The countdown moves one step. When the value seen has expired, the interval is dropped and one capture is scheduled. |
| `Webcam.WebcamCapture.Capture` | src/components/custom/WebcamCapture.tsx:36-51 | Takes a photo iff the camera element is mounted (live screen), its video has loaded and the screenshot is non-empty. Then it keeps the image, marks it captured and hands it to the parent once. Otherwise nothing changes. |
| `Webcam.WebcamCapture.Fire` | src/components/custom/WebcamCapture.tsx:68-72 | Captures under the same condition as `capture`, then clears the countdown. One scheduled capture is consumed. |
| `Webcam.WebcamCapture.Retake` | src/components/custom/WebcamCapture.tsx:80-86 | Called from the error screen's retry button or the captured screen's retake button. Clears image, captured flag, error and countdown, and shows the live screen. The mirror flag, the handed-over images and the timers are unchanged. |
| `Webcam.WebcamCapture.ResetTriggerChanged` | src/components/custom/WebcamCapture.tsx:21-34 | A positive trigger clears the same four fields. A zero or missing trigger changes nothing. |
| `Webcam.WebcamCapture.ToggleFlip` | src/components/custom/WebcamCapture.tsx:88-94 | Called from the flip button, which the live and the captured screen render. Negates the mirror flag and changes nothing else. |
| `Webcam.WebcamCapture.HandleUserMediaError` | src/components/custom/WebcamCapture.tsx:128-131 | Raised by the mounted camera element. Sets the camera error message, so only the retry screen is shown. |
| `Webcam.WebcamCapture.Confirm` | src/components/custom/WebcamCapture.tsx:249-254 | On the captured screen, hands the held image to the parent once more and changes nothing else. |
| `Webcam.CountdownToCapture` | src/components/custom/WebcamCapture.tsx:53-78 | From a fresh component: one tap, three ticks (a second tap in between is ignored) and the timeout. The image is captured and handed over exactly once, and no timer is left. |
| `Webcam.FlipTwice` | src/components/custom/WebcamCapture.tsx:88-94 | Two flips restore the mirror flag and leave image, captured flag, error, countdown, handed-over images and timers unchanged. |
| `Webcam.RetryAfterCameraError` | src/components/custom/WebcamCapture.tsx:128-148 | From the live screen, a camera error and then a retry clear the error and return to the live screen. |
| `Webcam.CountdownOutlivesRetry` | src/components/custom/WebcamCapture.tsx:53-86 | A countdown started before a camera error and a retry still expires and captures, and the photo is handed over. |
| `Webcam.StaleTimeoutsDeliverOnce` | src/components/custom/WebcamCapture.tsx:36-86 | Two countdowns whose intervals both expire schedule two captures. Only the first hands a photo over, because the second finds the camera element unmounted. |
| `Registration.ClientMatchesServer` | src/components/totem/RegistrationForm.tsx:15-19 | The client schema accepts a form iff the server schema accepts its name, email and phone, whatever the selfie. |
| `Registration.ClientAccepts` | src/components/totem/RegistrationForm.tsx:15-19 | An accepted form has a name of 2 to 50 characters. A non-empty email the check refuses, or a non-empty phone under 10 characters, makes the form rejected. |
| `Registration.FormDataFor` | src/components/totem/RegistrationForm.tsx:77-88 | The submission starts with the name and has 1 to 4 entries. It has all 4 iff email, phone and a non-empty selfie are all present. |
| `Registration.FormDataFields` | src/components/totem/RegistrationForm.tsx:77-88 | The submission always starts with the name. It holds email or phone iff that field is non-empty, and the selfie iff there is a non-empty image. Each entry carries its own field's value. |
| `Registration.FormDataKeysDistinct` | src/components/totem/RegistrationForm.tsx:77-88 | No key appears twice in the submission. |
| `Registration.BuildFormData` | src/components/totem/RegistrationForm.tsx:76-88 | The step-by-step appends produce exactly the submission described by `FormDataFor`. |
| `Registration.RegistrationForm.constructor` | src/components/totem/RegistrationForm.tsx:30-41 | Starts on the camera step, with no selfie, reset counter 0 and an empty form. |
| `Registration.RegistrationForm.Begin` | src/components/totem/RegistrationForm.tsx:116-136 | From the welcome step, the start button moves to the camera step and changes nothing else. It is the only handler enabled there. Every other handler requires the camera step, the form step or a pending return timeout, and `Valid()` allows a pending timeout only on the success step. |
| `Registration.RegistrationForm.HandleSelfieCapture` | src/components/totem/RegistrationForm.tsx:47-50 | Only on the camera step, the one step that shows the capture component (lines 140-153): stores the image and moves to the form step; nothing else changes. |
| `Registration.RegistrationForm.HandleRetakeSelfie` | src/components/totem/RegistrationForm.tsx:52-56 | Only on the form step, whose retake and back buttons call it. Drops the selfie, moves to the camera step and raises the reset counter by exactly 1, making it positive. The form values are kept. |
| `Registration.RegistrationForm.HandleFormSuccess` | src/components/totem/RegistrationForm.tsx:58-71 | Runs only from `Submit`, after a sent submission on the form step: no control calls it, and `Valid()` ties the success step to a posted submission. Moves to the success step and schedules the return timeout. |
| `Registration.RegistrationForm.FireReturnTimer` | src/components/totem/RegistrationForm.tsx:61-70 | Fires only from the success step. Returns to the camera step with no selfie and an empty form, and raises the reset counter by exactly 1. |
| `Registration.RegistrationForm.Edit` | src/components/totem/RegistrationForm.tsx:190-247 | Typing into the form step's inputs changes only the form values. |
| `Registration.RegistrationForm.Submit` | src/components/totem/RegistrationForm.tsx:74-113 | Only on the form step. Sends exactly the described form data iff the client schema accepts the form and any selfie could be read; the data carries the selfie iff there is a non-empty one. It moves to success and notifies the page iff it sent and the answer was ok. Otherwise step, selfie and values stay as they were. |
| `Registration.VisitorCycle` | src/components/totem/RegistrationForm.tsx:47-71 | Given an ok answer from the server, capture, fill in, submit and the timeout bring the wizard back to the camera step. It has an empty form, no selfie and reset counter 1, and it posted one submission with the visitor's fields. Against the JSON-only participants route that answer never comes (see `Registration.SubmitToJsonRoute`). |
| `Registration.SubmitToJsonRoute` | src/components/totem/RegistrationForm.tsx:91-99 | The participants route answers the wizard's multipart submission with 500 (src/app/api/participants/route.ts:15, 61-67). The form data is posted, but the wizard stays on the form step, the page is not notified and no return timeout is scheduled. |

## Left out

- Game status updates, cancellation, fetch-by-id, and the `startedAt`/`completedAt` stamps. Those handlers are not part of this model.
- The multipart upload of a selfie file to disk. The participants route reads only JSON.
- Prisma itself, transactions, and races between concurrent requests. The store is a value, and each request is one function call on it.
- React rendering, CSS, `video.load()`, `console.log`, `alert`, `fetch`, the `Blob`/`File` conversion and the `isLoading` button disabling.
- Real durations of `setInterval`/`setTimeout`. Timers are discrete events.
- Remounting of the capture component through `key={resetTrigger}`. The model has the reset effect, not the remount.
- The component's unused `handleSubmit`/`onSubmit` path (RegistrationForm.tsx:43-45). Nothing in the component calls it.
- `Participants.SchemaIssues`: JSON `null` for email or phone, and fields of the wrong JSON type, are not modelled. The payload is typed and optional fields are absent or strings.
- `Participants.SchemaIssues`: the email format check of the validation library is a parameter, not the library's expression.
- `Games.SchemaIssues`: a non-integer `maxParticipants`, which the number schema admits, is not modelled. The limit is an integer.
- `Games.SchemaIssues`: string lengths are counted in characters. JavaScript counts UTF-16 code units.
- `Participants.SchemaIssues`: string lengths are counted in characters. JavaScript counts UTF-16 code units.
- `Registration.ClientAccepts`: string lengths are counted in characters. JavaScript counts UTF-16 code units.
- `Games.SchemaIssues`: a missing field, or a field of the wrong JSON type, is not modelled. The schema would answer 400 with its type error. The request is typed, so only the range rules are modelled.
- `Games.Post`: a body that is not JSON is not modelled. `request.json()` throws (src/app/api/games/route.ts:16), and the catch answers 500 (131-138). The model takes a parsed, typed request.
- `Games.JoinRows`: all join rows get one timestamp `now`. The source calls `new Date()` once per row (src/app/api/games/route.ts:74), so their times may differ by a few milliseconds.
- `Games.List`: assumes the store rejects a status that is not one of the four enum values, which makes the route answer 500. The store's schema is not part of this model. If `status` were a plain string column, an unknown status would list no games with 200.
- `Registration.RegistrationForm.Submit`: the submission is one atomic step. The source awaits twice, once to read the selfie (RegistrationForm.tsx:84-85) and once to post (91-94). The component does not set `isLoading` itself (it is a prop), so unless the page sets it the buttons stay enabled and a retake can interleave with a submission. The model does not capture that interleaving.
- `Games.Post`: one store failure flag covers both store calls. A failing store answers 500 and writes nothing, whichever call failed.
- `Ordering.SortNewestFirst`: the store leaves ties in creation time unordered. The model's insertion sort puts the earlier-stored of two records with the same timestamp first. The contracts promise only newest-first order and a permutation.
- `Games.AvailableParticipants`: the availability query has no `orderBy` (src/app/api/games/route.ts:21-39), so the store picks its order, and `slice(0, maxParticipants)` keeps the first participants in that order. The model uses stored order, so which participants `Games.AddedParticipants` calls "a prefix of the selection" is fixed by that choice. The comment at line 53 says participants are picked at random when no id list is given, but lines 54-62 never shuffle. A random pick is not modelled: every order a shuffle could produce is also an order the store could return, so no single call tells the two apart.
- `Games.FindParticipant`: a join row whose participant is missing is skipped. The store's foreign keys rule this case out.
