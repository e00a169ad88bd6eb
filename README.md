# CureLink appointment back end, modelled in Dafny

CureLink is a small clinic-booking service. Patients list the active
doctors, query a doctor's free half-hour slots for a day, and book one.
Doctors mark their appointments completed or cancelled and write medical
records. Admins list and deactivate accounts, add doctors and see every
appointment. This project models the server side of those operations: the
Express controllers, the appointment route table, and the `User` schema with
its setters, validators, unique index and pre-save hook. It proves what each
operation guarantees.

The MongoDB collections are in-memory stores, each a class with a sequence of
documents and an id counter:

- `UserModel.UserStore`, for the `users` collection;
- `AppointmentModel.AppointmentStore`, for `appointments`;
- `RecordModel.RecordStore`, for `medicalrecords`.

Each store's `Valid()` is the invariant the database keeps: ids issued in
increasing order, and what the schema guarantees of a stored document. For
users that is the unique email index and the trimmed, lowercased fields. For
medical records it is the required, trimmed text fields. For appointments it
is the unique index `key` (see below).

Handlers that write to a store are methods whose `modifies` names that store.
Most read-only handlers are functions over the stored sequence. Two are
methods, because the source builds their result step by step:
`getAvailableSlots` and `getAppointments`.

A failed response is a `Common.Error` value. `Common.StatusCode` maps it to
the HTTP status: 400, 403, 404 or 500.

Modules, in dependency order:

| module | file | what it holds |
|---|---|---|
| `Common` | common.dfy | ids, roles, the caller, error responses, store outcomes |
| `Seqs` | seqs.dfy | the `filter` of arrays and queries, and the descending sort of `.sort({ f: -1 })` |
| `Decimal` | decimal.dfy | decimal numerals, as a template literal prints an hour |
| `Text` | text.dfy | the schema's `trim` and `lowercase` setters |
| `SlotGrid` | slot_grid.dfy | the 16 half-hour labels of a working day |
| `UserModel` | user_model.dfy | `User.js`: account, setters, validation, pre-save hook, store |
| `AppointmentModel` | appointment_model.dfy | the appointment record and its store |
| `RecordModel` | record_model.dfy | `MedicalRecord.js` and its store |
| `AppointmentController` | appointment_controller.dfy | the five appointment handlers |
| `AppointmentRoutes` | appointment_routes.dfy | the appointment route → role table |
| `AdminController` | admin_controller.dfy | the four admin handlers |
| `RecordController` | record_controller.dfy | the two record handlers |

Where the code does something other than the system's intended design, the
model follows the code:

- **Booking does not check that the doctor is active.** Any account whose role
  is `doctor` is accepted (`AppointmentController.BookAppointment`).
- **Booking does not check the slot.** Neither the grid nor the free slots are
  consulted. Only the store's validation and unique index can refuse the
  insert.
- **A failed confirmation mail answers 500, but the booking stays stored.** The
  mail is awaited inside the same `try` as the insert.
- **Status changes have no terminal states.** A status update accepts any
  current status, so `completed → booked` and `cancelled → completed` go
  through for the owning doctor (`AppointmentController.UpdateAppointmentStatus`).
  Only the user interface limits the buttons to `booked` rows.
- **The completion mail is sent after the save.** If it fails, or the patient
  account no longer exists, the answer is 500 but the new status stays
  stored.

The schema file of appointments is not part of this model, so three of its
facts are parameters of `AppointmentStore`:

- `key`, the value its unique index compares;
- `initialStatus`, the status a new appointment starts in;
- `accepts`, its validators beyond a readable date and a given slot.

A booking whose date does not read or whose slot is missing fails
validation. The error is not the duplicate key, so it answers 500.

Neither `key` nor `initialStatus` is assumed to be `(doctor, date, slot)` or `booked`. That is also why
the availability filter, which ignores cancelled bookings, is never claimed to
agree with the index.

## Model

| member | source | states |
|---|---|---|
| `SlotGrid.SlotLabel` | backend/controllers/appointmentController.js:30-31 | the two template literals of an hour: `${hour}:00-${hour}:30` and `${hour}:30-${hour + 1}:00` |
| `SlotGrid.Grid` | backend/controllers/appointmentController.js:28-32 | the sixteen labels the loop pushes: entry i is half `i % 2` of hour `9 + i / 2` |
| `SlotGrid.BuildGrid` | backend/controllers/appointmentController.js:28-32 | the loop over hours 9 to 16, two labels per hour, builds exactly `Grid()` |
| `SlotGrid.SlotLabelTimes` | backend/controllers/appointmentController.js:30-31 | the first label of an hour spans minutes h·60 to h·60+30, the second h·60+30 to (h+1)·60 |
| `SlotGrid.GridTimes` | backend/controllers/appointmentController.js:28-32 | the i-th grid label reads back as the half hour from minute 540+30i to 570+30i |
| `SlotGrid.GridShape` | backend/controllers/appointmentController.js:28-32 | 16 labels from "9:00-9:30" to "16:30-17:00"; each 30 minutes; each starts where the previous ends; strictly increasing start times; no duplicates |
| `Decimal.NatToString` | backend/controllers/appointmentController.js:30-31 | an hour prints as at least one decimal digit, without a leading zero (no padding) |
| `Decimal.ParseNatToString` | backend/controllers/appointmentController.js:30-31 | reading the printed hour back gives the hour |
| `Decimal.NatToStringInjective` | backend/controllers/appointmentController.js:30-31 | distinct hours print differently |
| `Seqs.Filter` | backend/controllers/appointmentController.js:34 | an element is kept if and only if it is in the input and passes the test; no element is added |
| `AppointmentController.FreeSlots` | backend/controllers/appointmentController.js:34 | a grid label is kept if and only if it is not booked; the kept labels keep the grid's order |
| `Seqs.FilterKeepsOrder` | backend/controllers/appointmentController.js:34 | filtering keeps any order the input had |
| `Seqs.SortDesc` | backend/controllers/appointmentController.js:89 | the result is in descending order of the key and is a permutation of the input |
| `AppointmentController.ListedDoctor` | backend/controllers/appointmentController.js:7 | the query `{ role: 'doctor', isActive: true }` selects active doctor accounts |
| `AppointmentController.Summary` | backend/controllers/appointmentController.js:8 | the `select('name email specialization')` projection, with the id |
| `AppointmentController.GetDoctors` | backend/controllers/appointmentController.js:5-13 | a summary is listed if and only if it projects an account that is an active doctor; one summary per listed account, in stored order |
| `AppointmentController.HoldsSlot` | backend/controllers/appointmentController.js:22-25 | the query: the same doctor and date, and a status other than `cancelled` |
| `AppointmentController.BookedSlots` | backend/controllers/appointmentController.js:22-26 | a label is booked if and only if an appointment of that doctor and date, not cancelled, holds it |
| `AppointmentController.AvailableSlots` | backend/controllers/appointmentController.js:22-34 | a label is offered if and only if it is in the grid and no non-cancelled appointment of that doctor and date holds it; offered labels are in increasing time order and distinct |
| `AppointmentController.GetAvailableSlots` | backend/controllers/appointmentController.js:15-39 | a missing doctor id or date answers 400 and computes nothing; otherwise the answer is `AvailableSlots` |
| `AppointmentController.NonHolderIgnored` | backend/controllers/appointmentController.js:22-26 | an appointment that is cancelled, or for another doctor or date, never removes a label |
| `AppointmentController.FreeDayOffersGrid` | backend/controllers/appointmentController.js:28-34 | a day without active appointments offers the whole grid |
| `AppointmentController.UnbookedAdd` | backend/controllers/appointmentController.js:34 | excluding one more booked label is filtering that label out of the previous result |
| `AppointmentController.FreeSlotsAdd` | backend/controllers/appointmentController.js:34 | the same fact, for the grid |
| `AppointmentController.BookingTakesSlot` | backend/controllers/appointmentController.js:22-34 | a new active appointment removes its own label, and only that label, from its doctor's day |
| `AppointmentController.CancelFreesSlot` | backend/controllers/appointmentController.js:22-26 | cancelling the only active holder of a grid label makes it available again |
| `AppointmentController.GridWithoutFirst` | backend/controllers/appointmentController.js:28-34 | the grid without "9:00-9:30" is its last fifteen labels |
| `AppointmentController.BookFirstSlotOfFreeDay` | backend/controllers/appointmentController.js:15-39 | on a free day, after booking "9:00-9:30", exactly the other 15 labels remain, in order |
| `AppointmentController.IsDoctorId` | backend/controllers/appointmentController.js:46-47 | the doctor id is given, names an account, and that account's role is `doctor` |
| `AppointmentController.BookAppointment` | backend/controllers/appointmentController.js:41-73 | a doctor id naming no doctor account answers 400 with nothing changed; otherwise a draft failing validation answers 500 with nothing added; otherwise a held key answers the distinct "slot already booked" 400 with nothing added; otherwise exactly one appointment is appended, with the caller as patient and the requested doctor, date and slot, and the answer is that appointment, or 500 when the mail failed |
| `AppointmentController.Matches` | backend/controllers/appointmentController.js:78-86 | an appointment matches the `QueryFilter` object when it agrees on every key that is set |
| `AppointmentController.VisibleTo` | backend/controllers/appointmentController.js:80-84 | a patient is shown their own bookings, a doctor the bookings with them, an admin every booking |
| `AppointmentController.GetAppointments` | backend/controllers/appointmentController.js:75-95 | the caller sees exactly the visible appointments, each as often as stored, newest first |
| `AppointmentController.UpdateAppointmentStatus` | backend/controllers/appointmentController.js:97-131 | a status outside the three names answers 400 even for an unknown id; then an unknown id 404; then a caller who is not the appointment's doctor 403; each leaves the store unchanged; otherwise only the target's status changes, to the requested value, whatever it was; a save the index refuses answers 500 with nothing changed; after saving `completed`, a missing patient or failed mail answers 500 |
| `AppointmentModel.ParseStatus` | backend/controllers/appointmentController.js:102-104 | a string is accepted only when it is a status name, and is read as that status |
| `AppointmentModel.ParseStatusName` | backend/controllers/appointmentController.js:102-104 | every status name is accepted |
| `AppointmentModel.IndexOfAppointment` | backend/controllers/appointmentController.js:106-109 | `findById`: a hit is the appointment with that id; a miss means no appointment has it |
| `AppointmentModel.AppointmentStore.KeyHeld` | backend/controllers/appointmentController.js:51-56 | another stored appointment has the same value of the unique index |
| `AppointmentModel.AppointmentStore.Validates` | backend/controllers/appointmentController.js:51-56 | the date reads, the slot is given, and the schema's remaining validators accept the draft |
| `AppointmentModel.AppointmentStore.NewAppointment` | backend/controllers/appointmentController.js:51-56 | the stored appointment has the draft's patient, doctor, date and slot, the initial status and the current time |
| `AppointmentModel.AppointmentStore.Create` | backend/controllers/appointmentController.js:51-56 | a draft failing validation is refused with nothing changed; otherwise the insert is refused with a duplicate key exactly when the key is held, and otherwise appends the new appointment; the store invariant holds |
| `AppointmentModel.AppointmentStore.Save` | backend/controllers/appointmentController.js:115-116 | the save writes the position if and only if no other appointment holds the key, and changes nothing else |
| `AppointmentRoutes.Unslashed` | backend/routes/appointmentRoutes.js:11 | the path unchanged, or with the one empty segment a trailing slash leaves after a named segment dropped |
| `AppointmentRoutes.PathMatches` | backend/routes/appointmentRoutes.js:11 | the router's default matching: letter case ignored, one trailing slash allowed, a parameter matching any non-empty segment |
| `AppointmentRoutes.Table` | backend/routes/appointmentRoutes.js:13-17 | the five routes in declaration order, each with its verb, path, handler and role gate |
| `AppointmentRoutes.Permits` | backend/routes/appointmentRoutes.js:13-17 | `protect` alone lets every authenticated caller through; `authorizeRoles(role)` only that role |
| `AppointmentRoutes.Resolve` | backend/routes/appointmentRoutes.js:13-17 | the route found is in the table and matches the request; no route means none matches |
| `AppointmentRoutes.Dispatch` | backend/routes/appointmentRoutes.js:13-17 | a dispatched request lets the caller through exactly when the handler's gate permits the role |
| `AppointmentRoutes.GateOf` | backend/routes/appointmentRoutes.js:13-17 | a handler's gate is the gate of its table row |
| `AppointmentRoutes.Gates` | backend/routes/appointmentRoutes.js:13-17 | listing doctors, querying slots and booking: patients only; listing appointments: every role; changing a status: doctors only |
| `AppointmentRoutes.FirstMatch` | backend/routes/appointmentRoutes.js:13-17 | the first matching route of the table answers |
| `AppointmentRoutes.DoctorsRoute` | backend/routes/appointmentRoutes.js:13 | `GET /doctors`, in any letter case and with or without a trailing slash, reaches `getDoctors`, and passes if and only if the caller is a patient |
| `AppointmentRoutes.SlotsRoute` | backend/routes/appointmentRoutes.js:14 | `GET /slots`, in any letter case and with or without a trailing slash, reaches `getAvailableSlots`, and passes if and only if the caller is a patient |
| `AppointmentRoutes.BookRoute` | backend/routes/appointmentRoutes.js:15 | `POST /book`, in any letter case and with or without a trailing slash, reaches `bookAppointment`, and passes if and only if the caller is a patient |
| `AppointmentRoutes.ListRoute` | backend/routes/appointmentRoutes.js:16 | `GET /` reaches `getAppointments` for every role |
| `AppointmentRoutes.StatusRoute` | backend/routes/appointmentRoutes.js:17 | `PATCH /:id/status` for any id, in any letter case and with or without a trailing slash, reaches `updateAppointmentStatus`, and passes if and only if the caller is a doctor |
| `AppointmentRoutes.CapitalisedDoctorsRoute` | backend/routes/appointmentRoutes.js:11-13 | `GET /Doctors/` still reaches `getDoctors` |
| `AppointmentRoutes.RoutesDisjoint` | backend/routes/appointmentRoutes.js:13-17 | no request matches two routes, so the order of declaration hides none |
| `AdminController.WithoutPassword` | backend/controllers/adminController.js:6 | `select('-password')`: every field of the account except the password hash |
| `AdminController.GetAllUsers` | backend/controllers/adminController.js:4-11 | admin only; one entry per account, in stored order; giving an entry back the account's password restores the account, so only the password is dropped |
| `AdminController.PasswordHidden` | backend/controllers/adminController.js:6 | the listed entry does not depend on the password |
| `AdminController.Toggled` | backend/controllers/adminController.js:20 | `isActive` is negated and every other field is kept |
| `AdminController.ToggleAt` | backend/controllers/adminController.js:20-21 | only the toggled account changes |
| `AdminController.ToggleTwice` | backend/controllers/adminController.js:20 | toggling the same account twice restores the collection |
| `AdminController.ToggleUserStatus` | backend/controllers/adminController.js:13-26 | an unknown id answers 404 with nothing changed; otherwise the collection becomes `ToggleAt` of the account, and the save cannot fail |
| `AdminController.DoctorDraft` | backend/controllers/adminController.js:31-37 | the request's four fields, with the role fixed to `doctor` and `isActive` left to its default |
| `AdminController.AddDoctor` | backend/controllers/adminController.js:28-45 | a failed validation answers 500 and a taken email 400, with no account added and no id used; otherwise one account is appended with the next id, and any created account is an active doctor |
| `AdminController.GetAllAppointments` | backend/controllers/adminController.js:47-57 | admin only; every appointment as often as stored, newest first |
| `AdminController.AdminSeesAll` | backend/controllers/appointmentController.js:80-89 | for an admin, `getAppointments` holds the same appointments as `getAllAppointments` |
| `RecordController.IsPatientId` | backend/controllers/recordController.js:9-10 | the patient id is given, names an account, and that account's role is `patient` |
| `RecordController.RecordFor` | backend/controllers/recordController.js:6-21 | the new record's doctor is the caller, never a request field; the other fields come from the request |
| `RecordController.CreateRecord` | backend/controllers/recordController.js:4-27 | a patient id that names no patient answers 400 with nothing added; a failed validation answers 500 with nothing added; neither uses an id; otherwise exactly one record is appended with the next id, with the caller as doctor |
| `RecordController.OwnedBy` | backend/controllers/recordController.js:31 | the query `{ patientId: caller }` keeps the records of that patient |
| `RecordController.GetPatientRecords` | backend/controllers/recordController.js:29-39 | patient only; exactly the caller's records, each as often as stored, latest visit first |
| `RecordController.OthersRecordsHidden` | backend/controllers/recordController.js:31 | another patient's new record never shows in the caller's list |
| `RecordModel.Validates` | backend/models/MedicalRecord.js:6-9 | diagnosis and prescription are present and not empty once trimmed, and the visit date reads |
| `RecordModel.WellFormed` | backend/models/MedicalRecord.js:6-8 | diagnosis and prescription are not empty and trimmed; notes are trimmed when given |
| `RecordModel.NewRecord` | backend/models/MedicalRecord.js:3-10 | text fields are stored trimmed; the record is well formed; ids and date are kept |
| `RecordModel.ConsistentAppend` | backend/models/MedicalRecord.js:3-10 | appending a well-formed record with the next id keeps ids increasing and every record well formed |
| `RecordModel.RecordStore.Create` | backend/controllers/recordController.js:14-21 | a draft failing validation is refused with nothing changed; otherwise the record is appended with a fresh id; every stored record stays well formed |
| `UserModel.ApplySetters` | backend/models/User.js:5-9 | name and specialization become the trimmed request values, email the normalised request value, and the other fields are kept |
| `UserModel.Validates` | backend/models/User.js:5-7 | name, email and password are given and not empty; `UserStore.Create` applies it to the draft after the setters |
| `UserModel.WellFormed` | backend/models/User.js:5-9 | a stored account's name and email are not empty and trimmed, the email has no capital letter, and a specialization is trimmed |
| `UserModel.PreSave` | backend/models/User.js:14-17 | only the password can change; it is replaced by its hash if and only if the password path is modified |
| `UserModel.NewUser` | backend/models/User.js:4-17 | the created account has the requested role, is active unless asked otherwise, stores the hash of the password, the normalised email, and the trimmed name and specialization, and satisfies the schema |
| `UserModel.DefaultActive` | backend/models/User.js:10 | an account created without `isActive` is active |
| `UserModel.FindUser` | backend/controllers/adminController.js:16 | `findById`: found if and only if some account has the id |
| `UserModel.IndexOfUser` | backend/controllers/adminController.js:16 | the position found holds the id; a miss means no account has it |
| `UserModel.ConsistentAppend` | backend/models/User.js:4-11 | appending a well-formed account with a fresh id and a free email keeps ids increasing and emails unique |
| `UserModel.UserStore.EmailTaken` | backend/models/User.js:6 | some stored account already has the email the unique index compares |
| `UserModel.UserStore.Create` | backend/models/User.js:4-17 | a failed validation and a taken email are refused with nothing changed; otherwise `NewUser` is appended; no two accounts ever share an email |
| `UserModel.UserStore.Save` | backend/models/User.js:14-17 | the save succeeds if and only if no other account holds the email; it stores the pre-save result at that position only |
| `Text.Trim` | backend/models/User.js:5 | the result is a slice of the input, framed on both sides only by whitespace, and starts and ends with no whitespace |
| `Text.TrimIdempotent` | backend/models/User.js:5 | trimming twice is trimming once |
| `Text.ToLower` | backend/models/User.js:6 | same length; each letter A-Z is lowered and nothing else changes |
| `Text.LowerTrimCommute` | backend/models/User.js:6 | lowercasing and trimming commute |
| `Text.NormalizeEmail` | backend/models/User.js:6 | a stored email is trimmed and has no upper-case letter; `NormalizeEmailOf` states which address it is |
| `Text.NormalizeEmailFixes` | backend/models/User.js:6 | an email already trimmed and lowercase is stored unchanged |
| `Text.NormalizeEmailOf` | backend/models/User.js:6 | the stored email is the given address itself, trimmed and lowercased |
| `Text.NormalizeEmailIdempotent` | backend/models/User.js:6 | normalising twice is normalising once |
| `Common.StatusCode` | backend/controllers/appointmentController.js:18-19 | every error maps to a 4xx or 5xx status, and to 400 exactly when it is a bad request |

The user's role is one of `patient`, `doctor` and `admin` by construction:
`Common.Role` has exactly those three values (backend/models/User.js:8).

## Left out

- `sendEmail` is I/O. Its outcome is the `mailDelivered` parameter, and the
  recipients and text of the mails are not modelled. The completion mail's doctor name reads
  a field of an unpopulated reference.
- `bcrypt.hash` is a foreign cryptographic call. It is the opaque function
  `UserStore.hash`.
- The `protect` and `authorizeRoles` middleware are not modelled. The caller's
  id and role are inputs. The admin and record gates (backend/routes/adminRoutes.js:12-15,
  backend/routes/recordRoutes.js:7-8) are `requires caller.role == ...` on
  the handlers.
- The status code `authorizeRoles` sends on a refused role is not modelled:
  the middleware is not part of this model. `AppointmentRoutes.Dispatch`
  says only whether the caller passes.
- Concurrency: every write is a sequential check-and-insert. Two bookings
  racing for the same key are not modelled.
- Errors the database raises for other reasons are not modelled: an
  unreachable database, or an id that is not a valid ObjectId (a cast
  error). Each of these answers 500 in every handler. The modelled refusals
  are the duplicate key, and the validation of users, records and
  appointments.
- `new Date(...)` parsing is not modelled. Dates are opaque comparable
  numbers. An unreadable date is the `None` of `RecordDraft.visitDate` and
  `AppointmentDraft.date`, which validation refuses.
- `AppointmentController.GetAvailableSlots`: a `date` query that
  `new Date` cannot read is not modelled. It reaches `Appointment.find` as an
  Invalid Date, the date cast refuses it, and the handler answers 500
  (backend/controllers/appointmentController.js:36-37). The model's `date`
  is missing or a readable date.
- `AppointmentModel.AppointmentStore.Save`: validation is not re-run on save.
  The only field a save changes is `status`, set to a name that
  `ParseStatus` accepts.
- `populate` and the `select` projections are not modelled, except the
  dropped password and the `getDoctors` summary.
- `createdAt`/`updatedAt` of users and records are not modelled. A toggle
  also refreshes the account's `updatedAt`.
- `AppointmentController.GetAppointments`, `AdminController.GetAllAppointments`, `RecordController.GetPatientRecords`:
  the order of documents with equal sort keys is not stated, since MongoDB
  leaves it unspecified. The sort used is stable.
- `AppointmentController.GetDoctors`, `AdminController.GetAllUsers`: an
  unsorted `find()` is modelled as returning documents in stored order.
- `Text.ToLower`: ASCII letters only. JavaScript's full Unicode case mapping
  is not modelled.
- `AppointmentRoutes.PathMatches`: letter case is folded for ASCII letters
  only. All route literals are ASCII, and a non-ASCII character never folds
  onto an ASCII one in a regular expression without the `u` flag. Percent
  decoding of the path is not modelled.
- `backend/controllers/userController.js` (the list of active patients) is
  not part of this model. It has the same shape as `GetDoctors`.
- `backend/server.js`, `backend/middleware/errorHandler.js` and the React
  front end are wiring and presentation, and are not modelled.
