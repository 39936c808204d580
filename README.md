# Record keeping of the ARforIoT smart-monitoring web API, in Dafny

The web API keeps three document collections: `user`, `device` and `data`
(sensor readings). A device points to its owner through `id_user`, and a
reading points to its device through `id_device`. Nothing else links the
collections. The HTTP handlers build creates, updates, deletes and a login out
of five store operations: an equality query, add, get by id, update by id and
delete by id.

This project models those handlers as methods of one class, `WebApi.Store`.
The class holds the three collections as maps from document id to record.
Each handler returns the response envelope (`code`, `msg`, `success`), and each
handler that writes a `last_update` also takes the current timestamp `now` as a
parameter (`UpdateDataValue`, which reads the clock twice, takes two). After the method runs, the maps
hold the handler's eventual effect, including the writes the source fires and
forgets. The two string helpers, `addZeroForTwoChar` and `getNowDate`, are pure
functions in `DateFormat`. The password hash is a constant `hash` of the store.
It is given to the constructor and never interpreted, so every property holds
for any one-way transform.

Files:
- `date_format.dfy`: the zero padding, decimal rendering and the timestamp formatter.
- `snapshots.dfy`: the order a query returns its matches in, and the sorted snapshot.
- `tables.dfy`: the records, the envelope, and the equality queries as sets of ids.
- `store.dfy`: the `Store` class and its handlers.
- `properties.dfy`: lemmas that relate several handlers, and request sequences replayed on a fresh store.

Query snapshots. A query without an explicit ordering returns its documents in
ascending document-id order. So a `forEach` that overwrites a variable leaves
the largest matching id in it. `Snapshots.SortedIds` builds that snapshot, and
`Snapshots.Latest` names its last element. The ids are compared character by
character (`Snapshots.Below`).

What the code has and lacks, as the model reflects it:
- Login only reads: no handler writes a login time, and the user record has
  `name`, `email`, `password` and `last_update` only.
- No handler writes any log, and there is no handler that deletes a single device.
- No handler manages sessions: there is no logout, heartbeat or session check.
- The password-change handler is registered on `/User/UpdateValue` after the
  name/email handler, at index.ts:819 and index.ts:849. Express always dispatches
  to the first handler, so the password change is unreachable over HTTP. It is
  modelled anyway, as `ChangePassword`.

The model departs from the code in the cases listed under "Left out", each
headed by its member.

## Model

| member | source | states |
|---|---|---|
| DateFormat.AddZeroForTwoChar | functions/src/index.ts:60-67 | for strings of one-code-unit characters, such as the rendered date components: a one-character string gets a leading '0' and then has length 2; every other string, the empty one included, is returned unchanged |
| DateFormat.AddZeroForTwoCharIdempotent | functions/src/index.ts:60-67 | padding twice gives the same string as padding once |
| DateFormat.NatToString | functions/src/index.ts:51-56 | the `toString()` of a whole number is a non-empty string of decimal digits |
| DateFormat.DecimalValueOfNatToString | functions/src/index.ts:51-56 | the rendered digits read back as the number they were built from |
| DateFormat.NatToStringLength | functions/src/index.ts:51 | a number with k+1 digits is written with exactly k+1 characters: no sign, no leading zero, so a four-digit year takes four characters |
| DateFormat.PaddedTwoDigits | functions/src/index.ts:52-56 | a component below 100, rendered and padded, is exactly two digits that read back as the component |
| DateFormat.NowDate | functions/src/index.ts:48-58 | the timestamp starts with the year's digits and a '-', and holds nothing but decimal digits and the separators '-', ' ' and ':' |
| DateFormat.NowDateLayout | functions/src/index.ts:48-58 | for a four-digit year and in-range components, the timestamp is 19 characters with '-' at 4 and 7, ' ' at 10 and ':' at 13 and 16, and each field is all decimal digits (zero-padded, never space-padded) that read back as its component, the month as the 0-based month plus 1 |
| Snapshots.SortedIds | functions/src/index.ts:781-788 | the snapshot of a query lists exactly the matching ids, in strictly ascending order, and is empty exactly when nothing matches |
| Snapshots.LastOfAscending | functions/src/index.ts:784-788 | the id a `forEach` leaves in the overwritten variable is the largest matching id |
| Tables.CredentialsQuery | functions/src/index.ts:1066-1082 | the login query finds a document exactly when some user has the email and the password hash |
| WebApi.OwnerByEmail | functions/src/index.ts:314-320 | the id left by the `forEach` over the email query is "" when no user has the email, and otherwise a user with that email whose id is above every other such user's |
| WebApi.Store.constructor | functions/src/index.ts:11-17 | the store starts with three empty collections and the given hash |
| WebApi.Store.CreateUser | functions/src/index.ts:88-121 | if any user already has the email: 400 "email address is already used" and no change; otherwise exactly one user is added under the new id, with the password hashed and `last_update = now`, and the answer is 201; devices and data are untouched |
| WebApi.Store.CreateDevice | functions/src/index.ts:148-183 | refused with 400 "device name is already used" only when a device has the same name and the same `id_user`; otherwise exactly that device is added and the answer is 201 |
| WebApi.Store.CreateData | functions/src/index.ts:208-242 | refused with 400 "data name is already used" only when a reading has the same name and the same `id_device`; otherwise exactly that reading is added and the answer is 201 |
| WebApi.Store.UpdateDataValue | functions/src/index.ts:731-816 | with an id: a missing reading gives 400 and no change; otherwise that reading gets the value and `last_update = now`, its device gets `last_update = deviceNow` (the second clock read), nothing else changes, and the answer is 204. Without an id: the last reading matching the device and name (the largest id) is updated with `now`, and none is when nothing matches; the named device gets `last_update = deviceNow`; the answer is 204 either way |
| WebApi.Store.UpdateUser | functions/src/index.ts:819-846 | a missing user gives 400 and no change; otherwise the user gets the new name, email and `last_update`, with no uniqueness check, and the answer is 204 |
| WebApi.Store.ChangePassword | functions/src/index.ts:849-899 | a missing user gives 400 "failed"; a stored hash that differs from the hash of the old password gives 400 "old password not match" and no change; otherwise the password becomes the hash of the new one, `last_update = now`, and the answer is 204 |
| WebApi.Store.UpdateDevice | functions/src/index.ts:902-932 | a missing device gives 400 and no change; otherwise the name, status, description and `last_update` are replaced, the owner is kept, and the answer is 204 |
| WebApi.Store.UpdateDataName | functions/src/index.ts:935-961 | a missing reading gives 400 and no change; otherwise only its name and `last_update` change, its device is not touched, and the answer is 204 |
| WebApi.Store.DeleteUser | functions/src/index.ts:970-991 | only the user row is removed, and the answer is 200; the user's devices and readings stay |
| WebApi.Store.DeleteReadingsOf | functions/src/index.ts:1011-1020 | every reading of the device is deleted and nothing else changes |
| WebApi.Store.DeleteUserWithData | functions/src/index.ts:994-1046 | the user, every device with `id_user` equal to the user id, and every reading of those devices are removed, and nothing else; the answer is 200 |
| WebApi.Store.Login | functions/src/index.ts:1060-1111 | 200 exactly when some user has the email and the hash of the password, otherwise 400 "failed"; nothing is written |
| WebApi.Store.GetAllData | functions/src/index.ts:422-466 | the rows are exactly the readings of the device, in ascending id order, each with its id, name, value and `last_update`; 404 with an empty list when the device has none |
| WebApi.Store.GetAllDevices | functions/src/index.ts:309-373 | the devices are looked up for the last user the email query returns, or for `id_user` "" when no user has the email; the rows are exactly those devices in ascending id order; 404 with an empty list when there are none |
| Properties.EmailConflictIff | functions/src/index.ts:92-104 | the create is refused exactly when some stored user has the submitted email |
| Properties.DeviceConflictIff | functions/src/index.ts:152-166 | a device name conflicts exactly when a device of the same user has it, so the same name under another user is accepted |
| Properties.ReadingConflictIff | functions/src/index.ts:212-226 | a reading name conflicts exactly when a reading of the same device has it |
| Properties.CreateUserKeepsEmailsUnique | functions/src/index.ts:92-114 | a user create that passes the check keeps emails unique across users |
| Properties.CreateDeviceKeepsNamesUnique | functions/src/index.ts:152-176 | a device create that passes the check keeps device names unique per user |
| Properties.CreateDataKeepsNamesUnique | functions/src/index.ts:212-235 | a reading create that passes the check keeps reading names unique per device |
| Properties.UpdateUserCanDuplicateEmail | functions/src/index.ts:825-829 | the user update performs no email check, so it can leave two users with the same email |
| Properties.LoginAfterChange | functions/src/index.ts:860-864 | after a successful password change, the new password logs in |
| Properties.OldPasswordRejectedAfterChange | functions/src/index.ts:1066-1082 | after a successful change, the old password no longer logs in, given unique emails and passwords that hash differently |
| Properties.TouchDeviceChangesOnlyTimestamp | functions/src/index.ts:749-757 | the device write of a value update changes only `last_update` of that one device, and only if it exists |
| Properties.CascadeRemovesExactlyTheSubtree | functions/src/index.ts:1003-1027 | after the cascade no device of the user and no reading of such a device remains, and every other user's devices and readings are unchanged |
| Properties.RegistrationScenario | functions/src/index.ts:83-121 | create A with a@x.com gives 201, create B with the same email gives 400, and logging in as A with its password gives 200 |
| Properties.PasswordChangeScenario | functions/src/index.ts:849-899 | a wrong old password gives 400 "old password not match"; the right one gives 204; then the new password logs in and the old one gives 400 |
| Properties.ScopedNameScenario | functions/src/index.ts:142-183 | the device name "lamp" is accepted under two users and refused the second time under the same user |
| Properties.CascadeScenario | functions/src/index.ts:994-1036 | deleting a user with data keeps exactly the other user's device and its reading |

## Left out

- Express, Firebase and CORS wiring, body parsing, and the `res.send`/`res.status` plumbing (index.ts:1-24). The handlers return the envelope as a value instead.
- The envelope's `result` payload is not modelled, except for the row lists of the two GetAll handlers.
- The Firestore client is replaced by three maps. A new document id is a parameter `newId`. The store guarantees it is non-empty and unused, which is the only precondition on the creates.
- An empty document id is modelled as an id no document has, the way an in-memory store would treat it. The Firestore client instead throws on `doc("")` (and on a missing id), so the cases below answer differently from the deployed code.
- WebApi.Store.UpdateDataValue: by device and name with no matching reading, `doc("")` throws inside the snapshot callback (index.ts:791), the `catch` at index.ts:808 answers 400 and the device is not touched. The model answers 204 and touches the device, as if the failed update were swallowed by its `.then().catch()` (index.ts:794).
- WebApi.Store.UpdateDataValue: by device and name with an empty `id_device` and a matching reading, the reading update is dispatched (index.ts:791-794), then `deviceRef.doc("")` throws (index.ts:797) and the `catch` at index.ts:808 answers 400. The model answers 204.
- WebApi.Store.DeleteUserWithData: given an empty id, `userRef.doc("")` throws (index.ts:1003), so nothing is deleted and no response is sent. The model deletes the devices whose `id_user` is "" and their readings, and answers 200.
- WebApi.Store.DeleteUser, WebApi.Store.UpdateUser, WebApi.Store.ChangePassword, WebApi.Store.UpdateDevice, WebApi.Store.UpdateDataName: given an empty id, `doc("")` throws (index.ts:825, 855, 910, 941, 974) and no response is sent. The model answers as for any missing document: 200 for the delete, 400 for the updates, and nothing changes.
- DateFormat.AddZeroForTwoChar: Dafny counts a string's length in characters, while JavaScript's `length` (index.ts:61) counts UTF-16 code units. A single character outside the Basic Multilingual Plane, such as U+1F600, has length 2 in the source and is returned unchanged there, while the model pads it. Every string `getNowDate` passes in is ASCII digits, where the two counts agree.
- DateFormat.NatToString: JavaScript's `toString()` writes numbers of 10^21 and above in exponent form ("1e+21"); the model always writes plain decimal digits. The date components are far below that bound.
- Store failures other than a missing document are not modelled: I/O errors, rejected `undefined` values, and the `catch` branches they reach. The outer `try`/`catch` of the creates and the login (index.ts:125-132, 1103-1110) catch only synchronous throws, and none arise in the model.
- Promise ordering and fire-and-forget chains (for example index.ts:114, 757, 794-799, 1017-1022). Each handler is modelled by its sequential eventual state, so the window in which the user is gone but some devices survive is not modelled.
- The check-then-insert race of the creates (index.ts:92-114) is a concurrency matter and is out of scope.
- The wall clock (`new Date()`, index.ts:49): handlers take `now`, and `NowDate` takes the UTC components. The year is a natural number, so negative years are not modelled.
- The MD5 implementation from `ts-md5` (index.ts:6, 69-71) is a foreign library. It is the store's uninterpreted `hash`.
- The read handlers other than the two GetAll handlers are not part of this model: `User/GetInfo`, `Device/GetSpecific`, `Data/GetSpecific`, `User/GetId`, `User/GetUser`, `Device/GetDevice`, `Data/GetData`, and the Dummy endpoints (index.ts:263-306, 376-419, 469-716). Their repeated sends inside `forEach` are not modelled either. `Login` also sends once per match (index.ts:1085-1093); it is modelled as a single 200.
- Express routing precedence is not modelled. The shadowed password handler is the separate method `ChangePassword`.
- The untyped sensor `value` (`any` in the source) is modelled only for JSON scalars: a number (`real`), a string, a boolean or null (`Tables.Value`). Objects and arrays are not represented. No handler examines the value, so no property depends on which values are represented.
