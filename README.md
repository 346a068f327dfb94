# Store booking system — a Dafny model of its decision logic

The system lets customers book the services a store offers (a court, a
haircut, a table) for a date and a start time, and lets store managers and
admins confirm, complete or cancel those bookings. This project models the
parts of it that decide things:

- the booking routes: the chain of checks that admits or refuses a booking
  request, the conflict rule, the price, and who may read or cancel a
  booking. It also covers what cancelling and a status update write. The
  pure rules are in `Bookings`. The class `BookingStore.BookingCollection`
  holds the saved bookings and performs the create, read, cancel and
  status-update handlers on them;
- the `Service` schema (`ServiceSchema`): required fields, the category
  list, the minimum price and duration, and the defaults;
- the sign-up form (`Register`): `validateForm`, the password-strength
  meter and the normalised payload;
- the sign-in form (`Login`): `validateForm`;
- the two authentication contexts, of the web front end (`FrontendAuth`)
  and of the second client (`ClientAuth`): the initial state, the reducer
  with the stored token it writes, and the message a failed sign-in or
  sign-up shows.

Shared pieces:

- `Wrappers`: Option and Result.
- `JsStrings`: the JavaScript string behaviour the forms rely on. This is
  JavaScript white space and `trim`, `replace(/\D/g, '')`, the e-mail
  pattern and the `.*` look-ahead.
- `FormChecks`: a field's ordered rules, of which only the first failure is
  reported.
- `AuthCommon`: the reducer state and actions.

Representation choices:

- Dates are day numbers, and day 0 is Thursday 1 January 1970.
- Times of day are minutes after midnight.
- Strings are sequences of characters.
- Prices are reals.
- The request's caller (id and role) and "today" are parameters.

What the code does, where a reader might expect otherwise:

- The status route writes any requested status, from any status
  (`Bookings.UpdateStatus`, `Bookings.UpdateReopens`); no forward-only rule
  exists.
- The create route checks no capacity: `numberOfPeople` need only be an
  integer of at least 1.
- The conflict rule is one-sided: an active booking of the same service and
  date conflicts when it starts before the candidate's end. A candidate that
  starts inside an earlier booking is therefore refused, and so is one that
  starts after an earlier booking has ended (`Bookings.EarlierBookingBlocks`).
  Without a midnight wrap, it never admits a true overlap
  (`Bookings.AdmittedNeverOverlaps`).
- The conflict query compares with the end time formatted as "HH:mm". That
  end time wraps past midnight, and the model keeps the wrap. With it, a
  slot running past midnight can be booked over an existing booking
  (`Bookings.WrapAdmitsOverlap`), and can even be booked twice
  (`Bookings.WrapAdmitsSameSlotTwice`).

## Model

| member | source | states |
|---|---|---|
| FormChecks.FirstFailure | frontend/src/components/auth/Register.js:26-30 | An `if … else if` chain records nothing iff every rule passes, and otherwise the message of the earliest failing rule |
| FormChecks.FirstFailureAt | frontend/src/components/auth/Register.js:44-50 | A failing rule preceded only by passing rules is the one whose message is recorded |
| JsStrings.TrimEmptyIff | frontend/src/components/auth/Register.js:26 | `trim()` gives the empty string exactly when the string is all white space |
| JsStrings.Trim | frontend/src/components/auth/Register.js:79-80 | `trim()` returns a contiguous part of the string, only white space is cut from either side, and the result neither starts nor ends with white space |
| JsStrings.TrimIdempotent | frontend/src/components/auth/Register.js:79-80 | Trimming a trimmed string changes nothing |
| JsStrings.TrimNoSpace | frontend/src/components/auth/Register.js:80 | A string without white space is its own trim |
| JsStrings.StripNonDigits | frontend/src/components/auth/Register.js:40 | `replace(/\D/g, '')` leaves only digits and never lengthens the string |
| JsStrings.StripNonDigitsKeepsDigits | frontend/src/components/auth/Register.js:40 | `replace(/\D/g, '')`: the result has only digits, is no longer than the input, keeps every digit of the input (as a multiset), and leaves an all-digit string unchanged |
| JsStrings.IndexOf | frontend/src/components/auth/Register.js:34 | None iff the character does not occur; otherwise the index of its first occurrence |
| JsStrings.IsEmailAddress | frontend/src/components/auth/Register.js:34 | The forms' e-mail scan accepts only strings of five or more characters without white space that neither start nor end with `@` (`EmailPatternIff` shows it accepts exactly the pattern) |
| JsStrings.EmailPatternIff | frontend/src/components/auth/Register.js:34 | The scan used by the forms accepts exactly the strings matching `^[^\s@]+@[^\s@]+\.[^\s@]+$`: three non-empty runs without white space or `@`, joined by `@` and `.` |
| JsStrings.EmailScanMatchesPattern | frontend/src/components/auth/Login.js:21 | Every string the scan accepts matches the e-mail pattern |
| JsStrings.EmailPatternMatchesScan | frontend/src/components/auth/Login.js:21 | Every string matching the e-mail pattern is accepted by the scan |
| JsStrings.LookaheadVersusContains | frontend/src/components/auth/Register.js:48 | `(?=.*[a-z])` finding a character implies that `/[a-z]/` finds one; in a string without line breaks they agree |
| Register.NameErrorUnfolded | frontend/src/components/auth/Register.js:26-30 | The name is "required" when empty after trimming, else "too short" when its untrimmed length is below 3 |
| Register.EmailErrorUnfolded | frontend/src/components/auth/Register.js:32-36 | The e-mail is "required" when empty, else "invalid" when it fails the pattern |
| Register.PhoneErrorUnfolded | frontend/src/components/auth/Register.js:38-42 | The phone is "required" when empty, else rejected unless its digits are exactly ten |
| Register.PasswordErrorUnfolded | frontend/src/components/auth/Register.js:44-50 | The password is required, then at least 6 long, then must have a lower-case letter, an upper-case letter and a digit |
| Register.ConfirmErrorUnfolded | frontend/src/components/auth/Register.js:52-56 | The confirmation is required, then must equal the password |
| Register.RecordNameError | frontend/src/components/auth/Register.js:26-30 | The name chain records exactly the name's message, if any, and leaves other entries alone |
| Register.RecordEmailError | frontend/src/components/auth/Register.js:32-36 | The e-mail chain records exactly the e-mail's message, if any |
| Register.RecordPhoneError | frontend/src/components/auth/Register.js:38-42 | The phone chain records exactly the phone's message, if any |
| Register.RecordPasswordError | frontend/src/components/auth/Register.js:44-50 | The password chain records exactly the password's message, if any |
| Register.RecordConfirmError | frontend/src/components/auth/Register.js:52-56 | The confirmation chain records exactly the confirmation's message, if any |
| Register.PutAll | frontend/src/components/auth/Register.js:24-56 | Recording the five fields in turn leaves exactly the fields that have a message, each with its message |
| Register.ValidateForm | frontend/src/components/auth/Register.js:23-60 | The error object has an entry for a field iff that field fails a rule, the entry is its first failing rule's message, and the result is true iff the object is empty |
| Register.EmailPasses | frontend/src/components/auth/Register.js:32-36 | The e-mail passes iff it matches the pattern |
| Register.PhonePasses | frontend/src/components/auth/Register.js:38-42 | The phone passes iff removing the non-digits leaves ten digits |
| Register.ValidIff | frontend/src/components/auth/Register.js:23-59 | The form passes iff all of these hold: the trimmed name is non-empty and the name has 3 or more characters; the e-mail matches the pattern; the phone has ten digits; the password is 6 or more long and has the three character kinds; the confirmation equals the password |
| Register.SubmittedPayload | frontend/src/components/auth/Register.js:78-83 | Whatever the form, the payload is normalised: trimming its name or e-mail and stripping its phone change nothing, and the password is the typed one |
| Register.PayloadOfValidForm | frontend/src/components/auth/Register.js:78-83 | For a valid form, the payload has a non-empty trimmed name, the e-mail as typed, ten digits as phone, and the password unchanged |
| Register.PayloadPassesAgain | frontend/src/components/auth/Register.js:78-83 | The payload's e-mail, phone and password pass the form's rules again |
| Register.PaddedShortNamePasses | frontend/src/components/auth/Register.js:26-30 | " a " passes the name rule, yet the submitted name is "a": the length rule counts the untrimmed name |
| Register.CountFive | frontend/src/components/auth/Register.js:103-108 | The score of five criteria is the sum of one point for each that holds |
| Register.PasswordStrength | frontend/src/components/auth/Register.js:96-127 | The score is the number of the five criteria met (0 for an empty password), at most 5. Weak/red for a score of 2 or less, Fair/yellow for 3, Good/blue for 4, Strong/green for 5 |
| Register.ValidPasswordAtLeastFair | frontend/src/components/auth/Register.js:44-50 | A password that passes the form's rules scores at least 3 |
| Register.StrongIffAllCriteria | frontend/src/components/auth/Register.js:104-108 | The score is 5 iff all five criteria hold |
| Login.EmailErrorUnfolded | frontend/src/components/auth/Login.js:19-23 | The e-mail is "required" when empty, else "invalid" when it fails the pattern |
| Login.PasswordErrorUnfolded | frontend/src/components/auth/Login.js:25-29 | The password is "required" when empty, else "too short" below 6 characters |
| Login.ValidateForm | frontend/src/components/auth/Login.js:16-33 | The error object has an entry for a field iff that field fails a rule, with that rule's message, and the result is true iff the object is empty |
| Login.ValidIff | frontend/src/components/auth/Login.js:19-32 | The form passes iff the e-mail matches the pattern and the password has at least 6 characters |
| Login.EmptyFormGetsBothMessages | frontend/src/components/auth/Login.js:19-29 | The fields are checked independently: an empty form gets both "required" messages |
| Login.AcceptsWhatSignUpAccepts | frontend/src/components/auth/Login.js:19-29 | The e-mail rule equals the sign-up one, and every password the sign-up form accepts is accepted here |
| Login.NoCompositionRule | frontend/src/components/auth/Login.js:25-29 | "aaaaaa" passes here and is refused by the sign-up form |
| FrontendAuth.InitialState | frontend/src/contexts/AuthContext.js:6-11 | No user and loading. The token is the stored one. Authenticated iff a non-empty token is stored |
| FrontendAuth.LoginSuccessEffect | frontend/src/contexts/AuthContext.js:15-23 | LOGIN_SUCCESS sets user and token from the payload, authenticated, not loading, stores the token, and leaves the header |
| FrontendAuth.FailuresAreLogout | frontend/src/contexts/AuthContext.js:24-51 | LOGIN_FAIL, LOGOUT and AUTH_ERROR give one world: no user, no token, unauthenticated, not loading, nothing stored, no header |
| FrontendAuth.LogoutIdempotent | frontend/src/contexts/AuthContext.js:24-34 | Logging out twice equals logging out once |
| FrontendAuth.UserLoadedKeepsToken | frontend/src/contexts/AuthContext.js:35-41 | USER_LOADED sets the user, authenticated, not loading, and keeps the token and the storage |
| FrontendAuth.LoadingOnlySetsLoading | frontend/src/contexts/AuthContext.js:52-58 | LOADING sets `loading` and changes nothing else; an unknown action changes nothing |
| FrontendAuth.InitialMirrored | frontend/src/contexts/AuthContext.js:6-11 | The initial token equals the stored token |
| FrontendAuth.Reduce | frontend/src/contexts/AuthContext.js:13-60 | `authReducer` keeps the state's token equal to the stored token. After it, `loading` holds iff the action is LOADING, or unknown with `loading` already set. `isAuthenticated` holds iff the action is LOGIN_SUCCESS or USER_LOADED, or LOADING or unknown with it already set. The header is kept or removed, never set |
| FrontendAuth.ReduceAllPreservesMirror | frontend/src/contexts/AuthContext.js:13-60 | So does every sequence of actions |
| FrontendAuth.SettledAfterAnswer | frontend/src/contexts/AuthContext.js:13-56 | Every named action except LOADING leaves `loading` false |
| FrontendAuth.AuthenticatedWithoutToken | frontend/src/contexts/AuthContext.js:35-41 | USER_LOADED after a logout gives an authenticated state with no token |
| FrontendAuth.FailureMessage | frontend/src/contexts/AuthContext.js:113-115 | The message is never empty. It is the response message when that is non-empty. Anything other than the fallback is the message or the first validation error's `msg` |
| FrontendAuth.LoginFailureMessage | frontend/src/contexts/AuthContext.js:113-115 | A failed sign-in always has a non-empty message |
| FrontendAuth.RegisterFailureMessage | frontend/src/contexts/AuthContext.js:139-141 | A failed sign-up always has a non-empty message |
| FrontendAuth.FailureMessageOrder | frontend/src/contexts/AuthContext.js:139-141 | The response message comes first, then the first validation error's `msg`, then the fallback. No response gives the fallback |
| ClientAuth.InitialState | client/src/contexts/AuthContext.js:6-11 | No user, loading, the stored token, and unauthenticated whatever is stored |
| ClientAuth.Reduce | client/src/contexts/AuthContext.js:13-53 | `authReducer` keeps the state's token equal to the stored token. After it, `loading` holds only when LOADING or an unknown action finds it set. `isAuthenticated` holds iff the action is LOGIN_SUCCESS or USER_LOADED, or LOADING or unknown with it already set |
| ClientAuth.LoginSuccessEffect | client/src/contexts/AuthContext.js:15-23 | LOGIN_SUCCESS sets user and token, authenticated, not loading, and stores the token |
| ClientAuth.FailuresAreLogout | client/src/contexts/AuthContext.js:24-49 | LOGIN_FAIL, LOGOUT and AUTH_ERROR give one world with nothing stored and no user or token |
| ClientAuth.UserLoadedKeepsToken | client/src/contexts/AuthContext.js:34-40 | USER_LOADED sets the user, authenticated, not loading, and keeps the token |
| ClientAuth.LoadingIsIgnored | client/src/contexts/AuthContext.js:50-51 | LOADING and unknown actions leave the world unchanged |
| ClientAuth.ReduceAllPreservesMirror | client/src/contexts/AuthContext.js:13-53 | Every sequence of actions keeps the state's token equal to the stored one |
| ClientAuth.FailureMessage | client/src/contexts/AuthContext.js:93 | The message is never empty. It is the response message when that is non-empty, otherwise the fallback |
| ClientAuth.LoginFailureMessage | client/src/contexts/AuthContext.js:93 | A failed sign-in always has a non-empty message |
| ClientAuth.RegisterFailureMessage | client/src/contexts/AuthContext.js:109 | A failed sign-up always has a non-empty message |
| ClientAuth.MessageIgnoresValidationErrors | client/src/contexts/AuthContext.js:93 | The client's message is the front end's message with the validation errors removed |
| ClientAuth.MessagesDiffer | client/src/contexts/AuthContext.js:93 | A body with only a validation error gets that error from the front end, but "Login failed" from the client |
| ClientAuth.ReducersAgreeExceptLoading | client/src/contexts/AuthContext.js:13-53 | From the same state, the two reducers agree on every action except LOADING |
| ClientAuth.InitialStatesDiffer | client/src/contexts/AuthContext.js:6-11 | The initial states differ only in `isAuthenticated`, and only when a non-empty token is stored |
| ServiceSchema.ParseCategory | backend/models/Service.js:13-17 | A string accepted by the enumeration is the stored name of the category it gives |
| ServiceSchema.CategoryRoundTrip | backend/models/Service.js:16 | Every category's name is accepted back as that category. A string is refused iff it names none of the seven |
| ServiceSchema.Week.Map | backend/models/Service.js:44-52 | Applying a function to the week applies it to each weekday's entry |
| ServiceSchema.AllPathsComplete | backend/models/Service.js:3-32 | The validated paths are name, description, category, store, price and duration |
| ServiceSchema.PathError | backend/models/Service.js:4-32 | An enumeration failure is only reported for the category path, a minimum only for price and duration. A path that passes has its value present: a non-empty name and description, a listed category, a store, a price of 0 or more, a duration of 15 or more |
| ServiceSchema.Errors | backend/models/Service.js:3-32 | A path is reported iff it fails, with its reason |
| ServiceSchema.DayDefaults | backend/models/Service.js:44-52 | A weekday keeps its `open` and `close`, and is open unless `isOpen` is given as false |
| ServiceSchema.Valid | backend/models/Service.js:4-32 | A valid service, written back as a document, passes every path check |
| ServiceSchema.ApplySchema | backend/models/Service.js:3-52 | Saving fails iff some path fails, and then reports all of them. A saved service is valid: trimmed non-empty name, non-empty description, price of 0 or more, duration of 15 or more. It has the given fields, capacity 1 and isActive true by default, and each day's hours with `isOpen` true by default |
| ServiceSchema.SchemaRoundTrip | backend/models/Service.js:3-52 | Saving a valid service's fields gives back exactly that service |
| ServiceSchema.DefaultsOfMinimalDocument | backend/models/Service.js:33-52 | A document with only the required fields is saved with capacity 1, active, and open on all seven weekdays |
| ServiceSchema.AllFailuresReported | backend/models/Service.js:4-32 | A blank name, an unknown category, a negative price and a 10-minute duration are all reported together |
| Bookings.WeekdayOf | routes/bookings.js:42-43 | The weekday of a day number is the one counted in sevens from Thursday 1 January 1970 |
| Bookings.WeekdayCycle | routes/bookings.js:42-43 | Day 0 is a Thursday, weekdays repeat every seven days, and consecutive days differ |
| Bookings.ParseStatus | routes/bookings.js:220 | A status string gives a status whose stored string is that string; none of the four named values is an OtherStatus |
| Bookings.StatusRoundTrip | routes/bookings.js:163-167 | Statuses without a second encoding correspond one to one to their strings |
| Bookings.IsActive | routes/bookings.js:63 | For such a status, active means its string is in `['pending', 'confirmed']` |
| Bookings.RequestFieldsCovered | routes/bookings.js:16-19 | The error list contains a field iff that field fails |
| Bookings.RequestFieldsOrdered | routes/bookings.js:16-19 | The error list keeps the order in which the validators are declared |
| Bookings.RequestErrors | routes/bookings.js:16-24 | Every failing field is reported once, in the order the validators are declared, and none is reported iff the request is well formed |
| Bookings.AdmissionReply | routes/bookings.js:21-69 | Every refusal is answered with 400: a malformed request with the message of each failing validator, in order, and every later check with a single message |
| Bookings.AdmissionRepliesDistinct | routes/bookings.js:21-69 | Two refusals with the same answer are the same refusal |
| Bookings.WithinHours | routes/bookings.js:50-56 | A time before a given `open` or after a given `close` is outside; with both given, inside iff between them, both ends included; with neither, always inside |
| Bookings.EndOfSlot | routes/bookings.js:59-64 | The end is start plus duration, less 24 hours when it runs past midnight, so it always differs from start plus duration by whole days |
| Bookings.Blocks | routes/bookings.js:60-65 | For a status without a second encoding, a booking matches the conflict query iff it has that service and date, its status string is pending or confirmed, and it starts before the end. A cancelled or completed booking never matches |
| Bookings.SlotTaken | routes/bookings.js:60-67 | When the slot is free, every active booking of that service and date starts at or after the end. No booking list, or an end at midnight, leaves it free |
| Bookings.NewBooking | routes/bookings.js:72-84 | The record belongs to the caller and to the service's store, carries the requested date, time, party size and requests, takes the service's duration, costs `price × people`, has the initial status and no cancellation or notes |
| Bookings.Admit | routes/bookings.js:14-86 | A refused request is refused as malformed iff a field fails. An admitted booking has the caller as user, the requested service, date, time, party size (at least 1) and requests. From the service it takes its store and duration, and its price is `price × people`. It has the initial status and no cancellation or notes |
| Bookings.ServiceCheckedFirst | routes/bookings.js:30-33 | A missing or inactive service is refused whatever the date, time and bookings |
| Bookings.PastDaysOnly | routes/bookings.js:36-39 | A day before today is refused as past; today is not |
| Bookings.DayAndHours | routes/bookings.js:42-56 | A closed weekday is refused. Otherwise the time is refused as outside hours iff it is before `open` or after `close`, so both ends are allowed |
| Bookings.ConflictIff | routes/bookings.js:58-69 | Once the earlier checks pass, a request is refused as a conflict iff a pending or confirmed booking of that service and date starts before `(start + duration) mod 24h`. Otherwise it is admitted |
| Bookings.OverlapsSymmetric | routes/bookings.js:58-69 | Interval overlap is symmetric |
| Bookings.AdmittedNeverOverlaps | routes/bookings.js:58-69 | When the new slot ends before midnight, every active booking of the same service and date starts at or after its end, so none overlaps it |
| Bookings.AdmitKeepsDisjoint | routes/bookings.js:58-86 | Saving an admitted booking that ends before midnight keeps the active bookings free of overlaps |
| Bookings.WrapAdmitsOverlap | routes/bookings.js:59-64 | A 45-minute slot at 23:30 is admitted beside an active booking at 23:40 |
| Bookings.WrapAdmitsSameSlotTwice | routes/bookings.js:59-69 | The same slot at 23:30 is admitted twice |
| Bookings.EarlierBookingBlocks | routes/bookings.js:59-69 | An active booking starting at or before the candidate's start blocks it, even if it ended long before |
| Bookings.SameRequestTwiceConflicts | routes/bookings.js:59-86 | An admitted request repeated after its booking is saved, with an active status and without a midnight wrap, is refused as a conflict |
| Bookings.MayAccess | routes/bookings.js:132-134 | A customer may read or cancel only a booking they own; an admin or store manager may use any booking |
| Bookings.HttpStatus | routes/bookings.js:127-168 | 404 exactly for a missing booking, 403 exactly for an unauthorised caller |
| Bookings.ErrorReply | routes/bookings.js:127-168 | Each error is answered with its status code and a message; only the two status refusals get 400 |
| Bookings.ErrorRepliesDistinct | routes/bookings.js:127-168 | Two errors with the same answer are the same error |
| Bookings.CancellerOf | routes/bookings.js:172-173 | `cancelledBy` is admin exactly for an admin, store exactly for a store manager, and customer exactly for everyone else |
| Bookings.Cancel | routes/bookings.js:157-174 | Succeeds iff the caller is the owner, an admin or a store manager and the booking is neither cancelled nor completed. These are refused as 403, "already cancelled" and "completed", in that order. It sets `cancelled`, `cancelledBy` from the role (admin, store, customer) and the given reason or "Cancelled by user", and changes nothing else |
| Bookings.AuthorisationDecidedFirst | routes/bookings.js:157-165 | A customer who does not own the booking gets 403, whatever its status |
| Bookings.CancelComparesNames | routes/bookings.js:163-169 | For a status without a second encoding, an authorised cancel succeeds iff the status string is neither "cancelled" nor "completed" |
| Bookings.CancelTwiceRefused | routes/bookings.js:163-171 | A booking cancelled once is refused as already cancelled |
| Bookings.CancelFreesSlot | routes/bookings.js:63 | A cancelled booking blocks no slot |
| Bookings.UpdateStatus | routes/bookings.js:220-221 | The requested status string is written whatever the current status, in its one encoding. The notes change only when non-empty notes are given. Nothing else changes |
| Bookings.UpdateReopens | routes/bookings.js:220 | A completed or cancelled booking can be made pending again, and then blocks its slot |
| Bookings.UpdateIdempotent | routes/bookings.js:220-221 | Repeating an update changes nothing more |
| BookingStore.BookingCollection.Create | routes/bookings.js:14-98 | Admitted iff the rules admit. The admitted booking is saved under a fresh id and nothing else changes. A refusal returns the rule's error and leaves the collection unchanged. No overlap among active bookings arises from a slot that ends before midnight |
| BookingStore.BookingCollection.Get | routes/bookings.js:120-143 | A missing id is 404. Otherwise the booking goes to its owner, an admin or a store manager, and anyone else gets 403 |
| BookingStore.BookingCollection.Cancel | routes/bookings.js:148-188 | A missing id is 404 and nothing changes. Otherwise the result is the cancel rule's, and only that booking is replaced, only on success |
| BookingStore.BookingCollection.UpdateStatus | routes/bookings.js:210-235 | A missing id is 404 and nothing changes. Otherwise that booking, and only it, is replaced by the updated one |

## Left out

- Date and time parsing and time zones: `moment` is replaced by day
  numbers and minutes. An unparseable date or time is not modelled.
- Absent opening hours. The model treats an absent `open` or `close` as no
  bound on that side. This assumes that parsing an absent value as "HH:mm"
  gives an invalid moment, which `isBefore` and `isAfter` never satisfy.
- String comparison of times. The conflict query compares stored "HH:mm"
  strings. The model compares minutes, which agrees for zero-padded times
  only.
- Number types. A fractional duration, a floating-point price and a
  `numberOfPeople` sent as a non-integer string are not modelled. The
  product `price × people` is exact.
- Concurrency: the conflict query and the save are not atomic. The model
  handles one request at a time.
- An upper bound on `numberOfPeople`. The server checks none; only a form
  attribute does.
- The Booking model and the authentication middleware are not part of this
  model. The initial status is a parameter of the collection. The caller's
  id and role are inputs. Roles other than admin and store manager behave
  as customers. The status route's manager check is not modelled.
- The status update writes the requested string, read by `Bookings.ParseStatus`.
  A missing status, and the values the Booking schema might refuse, are not
  modelled.
- Validation error bodies. An entry of `errors.array()` also carries the
  field name, location and value; the model keeps only its message.
- Lookup failures. An id that is not a valid ObjectId, which makes a
  lookup throw and answer 500, is not modelled. Nor are database errors.
- The listing routes `GET /api/bookings` and `GET /api/bookings/store/:storeId`
  are database queries with sorting and are not modelled. Nor is the
  population of references in responses.
- Service schema fields. `images`, `features`, `rating` and `createdAt`
  are not read by any of the modelled logic. Casting of ill-typed values
  is not modelled.
- Length counting. JavaScript counts string length in UTF-16 code units,
  and the model counts characters. The two differ only for characters
  outside the Basic Multilingual Plane.
- Network calls. The requests made by `login`, `register`, `loadUser` and
  `updateProfile`, their sequencing, and the `Authorization` header they
  set are not modelled. Only the message fallback and the reducer are.
- The reducer's effects on the browser. The writes to `localStorage` and
  the removal of the axios header are modelled as fields of the world the
  reducer returns, not as real storage.
- The React rendering, toasts, navigation and the clearing of an error
  while typing.
