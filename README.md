# HomeServ backend core, modelled in Dafny

This project models the core of the HomeServ home-services backend. That core
is the FastAPI routers for bookings, customer sign-up and login, and
professional login. It also includes the AI chat route and the password
storage format shared by both logins.

- **Http** (`http.dfy`): the shared outcome types.
  - `Result` is either an answer or an `HttpError` with its status and detail.
  - `InternalError` is the framework's 500, used for an exception no handler catches.
  - Two predicates give Python truthiness: an id of `0` and the string `""` are falsy, like `None`.
- **PyText** (`pytext.dfy`): the Python string operations the routes depend on.
  - `split` and `join` on a one-character separator.
  - `strip()`, using Python's own whitespace set.
  - `str(n)` of a natural number.
  - Each comes with the lemmas that tie it to its inverse.
- **Security** (`security.dfy`): the stored password format.
  - A stored password is `salt.hex() + ":" + digest.hex()`.
  - `bytes.hex`/`bytes.fromhex` are modelled, including the whitespace skipping and the error cases.
  - There are three ways `verify_password` raises instead of returning:
    - a `ValueError` from the split;
    - a `ValueError` from `fromhex`;
    - a `TypeError` from `compare_digest`.
  - PBKDF2 is a function parameter.
- **Query** (`query.dfy`): `filter(...).first()`, with the table held as a sequence of rows. The model takes the first row in sequence order.
- **Auth** (`auth.dfy`): `signup` and `login`.
  - The users table is a class with a `seq` of rows.
  - The class keeps e-mails unique.
  - Login is a pure function over the rows.
- **ProfessionalAuth** (`professional_auth.dfy`): professional login.
  - Only rows with `is_active` set are ever found.
- **BookingSchemas** (`schemas.dfy`): the request and response shapes.
  - A field of the partial update is either absent, or sent (possibly as an explicit `null`).
  - This split is what `exclude_unset` distinguishes.
- **Bookings** (`bookings.dfy`): the booking routes over a `BookingStore` class.
  - The store holds a `map` from id to row.
  - `create_booking`'s shape checks are modelled.
  - Serialisation through `BookingOut` is modelled, including its 500 when a row has a null field.
  - The three per-user queries are modelled: filter, then newest first.
  - Lookup, forced completion, the status guard and delete are modelled.
  - `update_booking` is a `while` loop of `setattr` calls. It is proved equal to a field-by-field merge.
- **Json** and **Chatbot** (`json.dfy`, `chatbot.dfy`): the chat route.
  - The AI service's answer is an input. `json.loads` and `str()` of non-string values are parameters.
  - Each handler returns its reply together with the upstream calls it made and the mock bookings it created.

## Behaviour the model makes explicit

- **Image reply parsing.** `handle_image` decodes the whole model reply with `json.loads`. It does not pull an object out of surrounding prose. A reply such as `Sure! {...} thanks` gets the retry reply of type `"error"` (`ProseAroundJsonIsError`, `SurePrefixIsError`).
- **Image reply types.** The reply type for the risky outcome is `"booking"`. Any decoded object whose `diy_safe` is not exactly `true` takes that branch. That includes `false`, an absent key, and a non-boolean. It creates one mock booking with the fixed id 1001.
- **Create checks.** They use Python truthiness, so an id of `0` counts as absent. With no package and neither a service nor a professional, the error is "Service must be selected".
- **Package queries.** They test SQL `NULL`, not truthiness. A booking with package id `0` is a package booking for the per-user lists (`Selected`).
- **Status writes.** `update_booking` writes any status string, and it writes an explicit `null` too. Only `change_status` restricts statuses to `pending`, `cancelled` and `completed`. The model assumes the four updatable columns accept `NULL` (see "## Left out"). Under that assumption, a `null` written into a field that `BookingOut` requires is stored, and the response fails with a 500 (`NullStatusUpdateCannotRespond`).
- **Initial status.** The status a new booking starts with is set by the booking service, which is not part of this model. It is a parameter.

## Model

| member | source | states |
|---|---|---|
| PyText.Split | app/core/security.py:19 | `str.split` on one character gives one more piece than there are separators, and no piece holds a separator |
| PyText.SplitJoin | app/core/security.py:15-19 | splitting the join of separator-free pieces gives the pieces back |
| PyText.JoinSplit | app/core/security.py:19 | joining the pieces of a split at the same separator gives the original string |
| PyText.Join | app/routers/chatbot.py:145 | `sep.join` of no parts is empty, of one part is that part, and always begins with the first part; `SplitJoin` fixes the rest |
| PyText.Strip | app/routers/chatbot.py:32 | `strip()` is no longer than its input and has no whitespace at either end |
| PyText.TrimLeft | app/routers/chatbot.py:32 | `lstrip` removes a whitespace-only prefix and leaves a first character that is not whitespace |
| PyText.TrimRight | app/routers/chatbot.py:32 | `rstrip` removes a whitespace-only suffix and leaves a last character that is not whitespace |
| PyText.StripEmptyIffBlank | app/routers/chatbot.py:32-33 | `message.strip()` is empty exactly when every character of the message is whitespace |
| PyText.StripIsTrimmedSlice | app/routers/chatbot.py:32 | `strip()` returns a slice of its input with no whitespace at either end, and everything it removes before and after the slice is whitespace |
| PyText.NatToString | app/routers/chatbot.py:146 | `str(n)` is a non-empty string of digits with no leading zero |
| PyText.DecimalRoundTrip | app/routers/chatbot.py:146 | reading `str(n)` back as a decimal number gives `n` |
| PyText.NatToStringInjective | app/routers/chatbot.py:170 | different numbers render as different strings |
| Security.Hex | app/core/security.py:15 | `bytes.hex()` gives two lower-case hex digits per byte |
| Security.FromHexOfHex | app/core/security.py:15-20 | `bytes.fromhex(b.hex()) == b` |
| Security.HexInjective | app/core/security.py:15 | different byte strings have different hex |
| Security.FromHexRejectsStrayChar | app/core/security.py:20 | `bytes.fromhex` raises on any character that is neither a hex digit nor ASCII whitespace |
| Security.FromHexRejectsOddLength | app/core/security.py:20 | `bytes.fromhex` raises on an odd run of hex digits |
| Security.HashPassword | app/core/security.py:5-15 | the stored string is 32 hex digits of salt, one ':', and the digest's hex; it splits back into exactly those two parts |
| Security.FromHex | app/core/security.py:20 | `bytes.fromhex` yields at most one byte per two characters, and whitespace alone decodes to no bytes |
| Security.VerifyPassword | app/core/security.py:18-29 | it raises `ValueError` unless there is exactly one ':' and raises `ValueError` when the salt part is not valid hex. It raises `TypeError` when the digest part is not ASCII. It returns exactly in the remaining case, and the result is whether the recomputed digest's hex equals the digest part |
| Security.VerifyRaisesOnStraySaltChar | app/core/security.py:19-20 | a salt part with a character that is neither a hex digit nor ASCII whitespace makes `verify_password` raise `ValueError` |
| Security.VerifyRaisesOnOddSalt | app/core/security.py:19-20 | a salt part made of an odd number of hex digits makes `verify_password` raise `ValueError` |
| Security.VerifyHashed | app/core/security.py:7-29 | a password verifies as true against its own stored hash, for every salt and every PBKDF2 |
| Security.VerifyOtherPassword | app/core/security.py:18-29 | a password whose digest under the stored salt differs verifies as false without raising |
| Security.VerifyTrueIff | app/core/security.py:18-29 | verification is true if and only if the stored string is a decodable salt, ':', and the hex of the password's digest under that salt |
| Query.First | app/routers/auth.py:13 | `first()` is the lowest-position row satisfying the filter, or none exactly when no row does |
| Query.FirstOfAppended | app/routers/auth.py:24-26 | a row appended to a table with no earlier match is the first match |
| Auth.NewUser | app/routers/auth.py:16-22 | the new row keeps the client's name, e-mail, phone and address and stores a hash the password verifies against |
| Auth.AppendKeepsEmailsUnique | app/routers/auth.py:13-14 | appending a row with an unregistered e-mail keeps e-mails unique |
| Auth.UserTable.Signup | app/routers/auth.py:11-27 | a registered e-mail gives 400 "Email already registered" and stores nothing; otherwise exactly the new row is appended and returned, and e-mails stay unique |
| Auth.Login | app/routers/auth.py:30-44 | 404 exactly when `first()` finds no row with the e-mail. Otherwise, for the row it finds: 500 exactly when `verify_password` raises, 400 "Invalid credentials" exactly when it returns false, and success exactly when it returns true, answering with that row's id, name and e-mail |
| Auth.LoginOkIff | app/routers/auth.py:32-44 | login succeeds exactly when some row has the e-mail, no earlier row has it, and its hash accepts the password |
| Auth.SignupThenLogin | app/routers/auth.py:11-44 | signing up and then logging in with the same e-mail and password succeeds and reports the new row |
| Auth.WrongPasswordRefused | app/routers/auth.py:36-37 | with unique e-mails, a password of a different digest is refused with 400 |
| ProfessionalAuth.Login | app/routers/professional_auth.py:12-32 | 404 exactly when no active row has the e-mail. Otherwise, for the first active row with it: 500 exactly when `verify_password` raises, 401 "Invalid password" exactly when it returns false, and success exactly when it returns true, answering with that row's id, name and e-mail |
| ProfessionalAuth.LoginOkIff | app/routers/professional_auth.py:17-32 | login succeeds exactly when some row is active with the e-mail, no earlier row is, and its hash accepts the password |
| ProfessionalAuth.ActiveWithRightPassword | app/routers/professional_auth.py:17-32 | an active professional with the right password logs in, whatever inactive rows with the same e-mail precede it |
| ProfessionalAuth.WrongPasswordIsUnauthorized | app/routers/professional_auth.py:25-26 | a wrong password for an active professional is 401, never 404 |
| ProfessionalAuth.DeactivatedIsNotFound | app/routers/professional_auth.py:17-23 | a professional whose rows are all inactive gets 404 even with the right password |
| BookingSchemas.SetFields | app/routers/bookings.py:102 | `dict(exclude_unset=True)` holds an entry for a field exactly when the client sent it, with the sent value (including `null`), and is empty exactly when nothing was sent |
| Bookings.ValidateCreate | app/routers/bookings.py:17-34 | creation may proceed exactly for a package alone or a service and a professional without a package; each other shape gets its own 400 |
| Bookings.StoredBooking | app/routers/bookings.py:36 | the stored row carries every field of the request plus the chosen id, time and initial status |
| Bookings.NegativePriceAccepted | app/schemas/booking.py:5-15 | no check bounds the price: a negative price passes the creation checks |
| Bookings.Respond | app/schemas/booking.py:23-32 | a row is answered with exactly its six `BookingOut` fields, or with a 500 exactly when a required field is null |
| Bookings.RespondAll | app/routers/bookings.py:38-40 | a list answer succeeds only when every row fits, and then holds each row's projection in order |
| Bookings.CreatedBookingResponds | app/routers/bookings.py:14-36 | a freshly created booking is answered with the request's own values |
| Bookings.SortedKeys | app/routers/bookings.py:40 | the table's ids, each once, in ascending order |
| Bookings.AllBookings | app/routers/bookings.py:40 | every row of the table exactly once |
| Bookings.RowsAt | app/routers/bookings.py:40 | the rows under the given keys, in key order; ascending keys give ascending ids |
| Bookings.RespondAllOkIff | app/routers/bookings.py:38 | a list answer succeeds exactly when every row in it fits `BookingOut` |
| Bookings.RespondAllKeepsOrder | app/routers/bookings.py:47 | answering a newest-first list keeps it newest first |
| Bookings.GetAllBookings | app/routers/bookings.py:38-40 | one `BookingOut` per row, each the row's own projection, or 500 exactly when some row has a null required field |
| Bookings.FilterRows | app/routers/bookings.py:46 | the rows kept are exactly those of the user and package kind asked for, each as often as in the table, and no others |
| Bookings.InsertByCreated | app/routers/bookings.py:47 | inserting into a newest-first list keeps it newest first and adds exactly that row |
| Bookings.SortNewestFirst | app/routers/bookings.py:47 | the result is ordered by `created_at` descending and is a permutation of the input |
| Bookings.UserQuery | app/routers/bookings.py:44-48 | a per-user list is newest first and holds exactly the user's selected rows |
| Bookings.UserRoute | app/routers/bookings.py:42-73 | a per-user route answers each queried row's projection, newest first, or 500 exactly when one of the user's selected rows has a null required field |
| Bookings.GetUserBookings | app/routers/bookings.py:42-49 | all of the user's rows are answered, or 500 exactly when one of them has a null required field |
| Bookings.GetUserPackageBookings | app/routers/bookings.py:51-61 | the user's rows with a package are answered, or 500 exactly when one of them has a null required field |
| Bookings.GetUserNormalBookings | app/routers/bookings.py:63-73 | the user's rows without a package are answered, or 500 exactly when one of them has a null required field |
| Bookings.FilterPartition | app/routers/bookings.py:51-73 | the package filter and the no-package filter together keep exactly what the user filter keeps |
| Bookings.UserListsPartition | app/routers/bookings.py:42-73 | a user's package list and normal list are disjoint and together hold exactly the rows of the full list |
| Bookings.UserRoutesPartition | app/routers/bookings.py:42-73 | the full list route succeeds exactly when both split routes do, and then its length is the sum of theirs |
| Bookings.GetBooking | app/routers/bookings.py:75-80 | an unknown id is 404; a known one is answered with all six `BookingOut` fields of its row, or 500 when the row has a null required field |
| Bookings.ChangeStatus | app/routers/bookings.py:109-115 | the request reaches the service exactly when the status is `pending`, `cancelled` or `completed`; otherwise 400 "Invalid status" |
| Bookings.Assign | app/routers/bookings.py:103 | one `setattr` writes exactly the named field with the sent value and nothing else |
| Bookings.AssignAll | app/routers/bookings.py:102-103 | the `setattr` loop never changes the id, user, area, package, service, professional or creation time |
| Bookings.Merge | app/schemas/booking.py:17-21 | a partial update writes each sent field with its sent value and keeps every other field |
| Bookings.AssignAllAppend | app/routers/bookings.py:102-103 | running the loop over two stretches of entries is running it over their concatenation |
| Bookings.AssignAllStep | app/routers/bookings.py:102-103 | one more turn of the loop applies the next entry to the row so far |
| Bookings.AssignSetFields | app/routers/bookings.py:102-103 | the loop over the sent fields gives exactly the field-by-field merge |
| Bookings.UpdateStoresAnyStatus | app/routers/bookings.py:102-103 | an update stores whatever status string it is sent |
| Bookings.NullStatusUpdateCannotRespond | app/routers/bookings.py:92-107 | an update that sends `"status": null` stores a row that can only be answered with a 500 |
| Bookings.Completed | app/routers/bookings.py:84-89 | completing a known job sets that row's status to "completed" and leaves every other row and the set of ids unchanged |
| Bookings.CompleteIdempotent | app/routers/bookings.py:82-90 | completing the same job twice leaves the table as completing it once |
| Bookings.CompletedKeyedById | app/routers/bookings.py:88 | completing a job keeps every row filed under its own id |
| Bookings.MergeKeepsKeyedById | app/routers/bookings.py:102-106 | a partial update keeps every row filed under its own id |
| Bookings.BookingStore.CreateBookingService | app/routers/bookings.py:36 | the service stores exactly the new row under its fresh id |
| Bookings.BookingStore.CreateBooking | app/routers/bookings.py:14-36 | a rejected shape returns its error and changes nothing; an accepted one stores one row and answers with the request's values |
| Bookings.BookingStore.CompleteJob | app/routers/bookings.py:82-90 | an unknown id is 404 "Job not found"; otherwise only that row's status becomes "completed" |
| Bookings.BookingStore.UpdateBooking | app/routers/bookings.py:92-107 | an unknown id is 404; otherwise only that row changes, to the merge, and it is answered through `BookingOut` |
| Bookings.BookingStore.DeleteBooking | app/routers/bookings.py:117-125 | an unknown id is 404; otherwise exactly that row is removed |
| Json.Lookup | app/routers/chatbot.py:144 | a key is found exactly when some member has it, and the value found belongs to such a member |
| Json.Get | app/routers/chatbot.py:144 | `d.get(key)` is the value stored under the key when there is one, and `None` when no member has the key |
| Chatbot.PyStr | app/routers/chatbot.py:152 | `str` of a string is the string, and of `None`, `True` and `False` their Python spellings; anything else is rendered by `show` |
| Chatbot.FormatSteps | app/routers/chatbot.py:145-147 | no steps give the empty string, otherwise the text begins "1. " followed by the first step |
| Chatbot.FormatStepsLines | app/routers/chatbot.py:145-147 | split at newlines, the formatted steps give line i as `i+1`, a dot, a space and step i, one line per step |
| Chatbot.StepItems | app/routers/chatbot.py:146 | an absent `steps` is no steps, a list is its items, and only a null, boolean or number makes iteration raise |
| Chatbot.RenderAll | app/routers/chatbot.py:146 | every step is rendered with `str`, one string per step |
| Chatbot.StringStepsRenderVerbatim | app/routers/chatbot.py:146 | steps that are strings are listed exactly as given |
| Chatbot.DiyText | app/routers/chatbot.py:149-156 | the `diy` reply is the identified issue and the steps heading, then the numbered steps, then the booking hint |
| Chatbot.BookingText | app/routers/chatbot.py:165-172 | the `booking` reply is the risk notice followed by "Booking ID: " and the id in decimal, and nothing else |
| Chatbot.CreateBookingMock | app/routers/chatbot.py:176-189 | the mock booking records the user, service and issue with status "confirmed" and source "image", and its id is always 1001 |
| Chatbot.HandleText | app/routers/chatbot.py:39-86 | one upstream call; 500 with the upstream body exactly when the status is not 200; otherwise a `"text"` reply with the model's content |
| Chatbot.HandleImage | app/routers/chatbot.py:90-172 | one upstream call; a non-200 status is a 500 with the upstream body; an undecodable reply gives the retry reply; a booking is created exactly when the reply type is `"booking"`; a `"diy"` reply requires `diy_safe` to be exactly `true` |
| Chatbot.ChatWithBot | app/routers/chatbot.py:21-35 | a missing key is 500 before anything else; a truthy image goes to the image handler; a null message is 500; a blank message is 400 exactly when it is all whitespace; any other message goes to the text handler |
| Chatbot.EmptyImageIsTextMode | app/routers/chatbot.py:28-35 | an empty image string is handled as text, and only the message is sent upstream |
| Chatbot.UpstreamFailureSurfaces | app/routers/chatbot.py:80-81 | in both modes a non-200 upstream status gives a 500 carrying the upstream body and creates no booking |
| Chatbot.DiyReplyListsSteps | app/routers/chatbot.py:144-156 | with `diy_safe` true and a list of string steps, the reply is the `"diy"` text built from those steps, and nothing is booked |
| Chatbot.DiyReplyWithoutSteps | app/routers/chatbot.py:144-156 | with `diy_safe` true and no `steps` key, the reply is still `"diy"`: the steps heading is followed directly by the booking hint, and nothing is booked |
| Chatbot.RiskyReplyBooks | app/routers/chatbot.py:158-172 | any object whose `diy_safe` is not exactly `true` creates exactly one mock booking and replies with id 1001 |
| Chatbot.MockBookingIdText | app/routers/chatbot.py:168-170 | the booking reply ends in "Booking ID: 1001" |
| Chatbot.ProseAroundJsonIsError | app/routers/chatbot.py:133-141 | a JSON object preceded by prose (after any whitespace, a first character that opens no value and a first word that is none of `null`, `true`, `false`, `NaN`, `Infinity`), or followed by non-blank text with nothing before it, makes the reply the retry message, and nothing is booked |
| Chatbot.ProseFailsToDecode | app/routers/chatbot.py:135-137 | under a decoder that reads the whole text, such leading prose, or non-blank text right after the object, makes decoding fail |
| Chatbot.SurePrefixIsError | app/routers/chatbot.py:135-141 | a reply like `Sure! {...} thanks` is answered with the retry message, whatever the object says |

## Left out

- The web framework, sessions and transactions: `commit`, `refresh`, dependency injection and request validation are not modelled. Each route is a function or method over the table it reads or writes.
- Concurrency: two requests racing on the same e-mail or the same booking are not modelled.
- The booking service (`create_booking_service`, `update_booking_status`) is not part of this model. `Bookings.BookingStore.CreateBookingService`, `Bookings.BookingStore.CreateBooking`, `Bookings.StoredBooking` and `Bookings.CreatedBookingResponds` rest on an assumption about it: it stores every field of the request unchanged, under a fresh id, with a creation time and an initial status passed in as inputs, and it never fails. `change_status` is modelled only up to the request it passes on.
- The user and professional schemas and models are not part of this model. `UserOut` is represented by the stored `User` row, and e-mail format validation is not modelled.
- `requests.post`, its headers, prompts and timeout, and the navigation of `response.json()` are left out. The upstream answer is an input made of its status code, raw body and message content.
- `json.loads` is a parameter. Three properties of it are stated (`Json.DecodesWholeText`):
  - it rejects text that does not begin, after whitespace, with a character that opens a string, object, array or number, or with one of the constant words `null`, `true`, `false`, `NaN`, `Infinity`;
  - it rejects an object followed by anything but whitespace;
  - a decoded object has distinct keys.
- Python's `str()` of numbers, lists and dicts is the parameter `show`. Floats are modelled as `real` and datetimes as integers. Nothing computes with them.
- The mock `create_booking` prints its record. The print is left out, and the record is returned in the handler's `created` list instead.
- `os.urandom` and PBKDF2-HMAC-SHA256 are inputs. The salt is an argument, and PBKDF2 is any deterministic function of the password, salt and iteration count.
- Security.VerifyPassword: the constant-time comparison of `hmac.compare_digest` is modelled as plain equality, because timing is outside the model.
- Bookings.AllBookings: SQL leaves the order of `all()` unspecified. The model lists rows by ascending id, so the contract fixes an order the source does not promise.
- Bookings.SortNewestFirst: rows with equal `created_at` keep table order, an order SQL does not promise either.
- The models of the bookings, users and professionals tables are not part of this model. The four columns an update may write (`scheduled_at`, `status`, `total_price`, `details`) are assumed to accept `NULL`. If they did not, an update sending `null` would fail at commit and store nothing. `Booking`'s optional fields, `UpdateBooking` and `NullStatusUpdateCannotRespond` rest on this assumption.
- Query.First: `first()` without `ORDER BY` promises no particular row when several match. The model picks the first in sequence order. `Auth.Login`, `ProfessionalAuth.Login` and `ProfessionalAuth.ActiveWithRightPassword` inherit this choice. It matters for professionals, where several active rows may share an e-mail.
- Auth.Login: e-mails are compared as exact strings. A database collation that ignores case is not modelled.
- Auth.UserTable.Signup: the database assigns ids. Here the new id is an argument, and uniqueness of ids is not tracked.
