# GV Bank teller demo: ledger, dashboard and login decision in Dafny

This project models the core of a small desktop bank-teller demo (`app.py`).
An account table (account number, holder name, e-mail, balance, PIN) is read
from a CSV file. A login checks the account number and PIN against that table.
It then compares a camera frame with the stored face image of the account. On a
mismatch it e-mails a six-digit one-time password (OTP) and asks for it. A
granted login opens a dashboard that deposits, transfers and changes the PIN.
After each change the dashboard rewrites the whole table to the file.

Files:

- `wrappers.dfy`: `Option`, used for lookups that find nothing and for cancelled dialogs.
- `ledger.dfy`: the `Account` row, the table as a sequence, the first-row lookup
  by account number, the bank's total balance, and the three in-place row writes
  the dashboard performs.
- `decimal.dfy`: Python's `str(n)` for non-negative integers (`Digits`), the
  value of a digit string (`Value`), and the lemmas that connect them.
- `login.dfy`: the login decision as pure functions. The camera, the face
  library, the mail transport and the OTP dialog are replaced by an
  `Observation` of what each reported. The OTP is a value of a type ranging over
  [100000, 999999] instead of a random draw.
- `session.dfy`: the dashboard as a class `Dashboard` with mutable fields. It
  holds the session copy of the account (`user`), the in-memory table (`data`),
  the table as last written to the file (`stored`) and the user's row
  (`userIndex`). Pure functions `AfterDeposit`, `AfterTransfer` and
  `AfterPinChange` give the table each operation leaves behind. The methods are
  proved to produce exactly those tables, and lemmas state what the tables
  satisfy. A client method, `Session.TransferScenarios`, walks through two
  concrete sessions, a normal transfer and a self-transfer, with the results asserted.

Dialog results are values of subset types. An amount lies in [1.0, 2147483647.0]
and an account number in [1, 2147483647]; the upper end is Qt's default dialog
maximum. A PIN lies in [1000, 9999]. A cancelled dialog is `None`.

Behaviour the model exposes: a transfer to one's own account loses money. The
recipient row is then the user's own row. It is first credited with the amount
(app.py:274). `update_balance` then overwrites that row with the session
balance, which was already debited (app.py:272, 286). The account ends `amount`
lower, and the bank's total drops by `amount` (`Session.SelfTransferLosesAmount`,
and the concrete session in `Session.TransferScenarios`). The model keeps this
behaviour as written.

The model follows the code as written, including these points:

- There is no transaction log in `app.py`, so transfers append nothing.
- Enrolment happens on any exception while loading, encoding or comparing the
  stored face, not only when the reference file is missing. The captured frame
  then overwrites the stored image.
- Amounts below 1 and PINs outside [1000, 9999] cannot be entered. The dialogs
  clamp them, so no `InvalidAmount` or `InvalidPin` error path exists.
- Conservation of funds holds only for a transfer between two different accounts.
- After a PIN change the session copy keeps the old PIN. Only the table row changes.
- Account numbers are not required to be unique. Login takes the first row matching
  both number and PIN. The dashboard uses the first row matching the number only.
  With duplicate numbers these can be different rows.

## Model

| member | source | states |
|---|---|---|
| `Ledger.FirstWhere` | app.py:101 | returns the first row satisfying the filter, or None exactly when no row satisfies it |
| `Ledger.Find` | app.py:199 | returns the first row holding the account number, or None exactly when no row holds it |
| `Ledger.TotalAfterReplace` | app.py:274 | replacing one row changes the table total by exactly that row's change in balance |
| `Ledger.TotalAfterWrite` | app.py:286 | writing a balance into one row changes the table total by the difference |
| `Decimal.Digits` | app.py:150 | the rendered string is non-empty and consists of decimal digits only |
| `Decimal.ValueOfDigits` | app.py:150 | reading back the decimal rendering of n gives n |
| `Decimal.DigitsLength` | app.py:150 | a number in [10^(k-1), 10^k) is rendered with exactly k digits |
| `Decimal.ValueInjective` | app.py:179 | two digit strings of the same length with the same value are the same string |
| `Login.FindCredentials` | app.py:101-108 | None exactly when no row has both the account number and the PIN; otherwise the first such row |
| `Login.IssuedOtp` | app.py:150 | the issued OTP string has exactly 6 decimal digits and denotes the drawn code |
| `Login.VerifyOtp` | app.py:177-183 | grants exactly when the dialog is confirmed and the input equals the issued OTP; otherwise denies |
| `Login.SendEmailOtp` | app.py:148-183 | a failed delivery aborts the attempt; a delivered OTP that is cancelled or wrong is denied; access is granted iff delivery succeeded and the confirmed input equals the issued OTP |
| `Login.CaptureFace` | app.py:110-146 | no frame aborts with CaptureFailed; no face aborts with NoFaceDetected; enrolment exactly when frame and face are present and the stored reference fails to load; a face-match grant exactly on a match; on a mismatch a failed delivery aborts, a cancelled or wrong OTP is denied, and a delivered and correctly entered OTP grants |
| `Login.ValidateLogin` | app.py:97-108 | invalid credentials iff no row has both number and PIN; with matching credentials, enrolment iff a face was captured and the stored reference failed to load, and an abort iff the frame or face is missing or the OTP was not delivered; a granted user is a table row with those credentials; access iff credentials match, a frame with a face was captured, and the face matched or the OTP check passed |
| `Login.GrantedUserIsFirstMatch` | app.py:101-108 | the user handed to the dashboard is the first row matching both credentials |
| `Login.OtpAcceptsExactlyTheCode` | app.py:150-183 | the OTP check grants iff the dialog is confirmed and the input is a 6-digit string denoting the issued code |
| `Session.DepositEffect` | app.py:257-261 | a deposit sets the user's row to the same row with balance equal to session balance plus amount, and leaves every other row unchanged; with the row in sync, the table total grows by the amount and no balance becomes negative |
| `Session.TransferToOtherAccount` | app.py:263-275 | a transfer to another account turns the sender row into the same row lowered by the amount and the recipient row into the same row raised by it; no other row changes; the total is conserved and no balance becomes negative |
| `Session.SelfTransferLosesAmount` | app.py:271-286 | a transfer to one's own row leaves that row as it was but lower by the amount, no other row changes, and the table total drops by the amount |
| `Session.TransferKeepsSolvency` | app.py:271-274 | any confirmed transfer, synced or not and to any row, leaves every balance non-negative when all were non-negative before |
| `Session.PinChangeEffect` | app.py:279-286 | a PIN change gives the user's row the new PIN in [1000, 9999] and the session balance, with its other fields kept; no other row changes; with the row in sync only the PIN changes and no balance or total changes |
| `Session.Dashboard.constructor` | app.py:191-199 | the dashboard holds the handed-over user and the file's table, and the user row is the first row with the user's account number |
| `Session.Dashboard.UpdateBalance` | app.py:285-287 | the user's row takes the session balance, nothing else changes, and the whole table is persisted |
| `Session.Dashboard.DepositFunds` | app.py:257-261 | a cancelled dialog changes nothing; otherwise the session balance rises by the amount and the table becomes `AfterDeposit` of the old one, persisted and in sync |
| `Session.Dashboard.TransferFunds` | app.py:263-277 | a cancelled dialog, an unknown recipient (RecipientNotFound) or an amount above the session balance (InsufficientFunds) changes nothing; otherwise the first recipient row is used (the user's own row for a self-transfer) and the table becomes `AfterTransfer`, persisted and in sync |
| `Session.Dashboard.ChangePin` | app.py:279-283 | a cancelled dialog changes nothing; otherwise the table becomes `AfterPinChange`, persisted and in sync, and the session record is unchanged |

## Left out

- Widgets, layouts, message boxes, window titles and the balance label. Only the minimum and maximum values the dialogs enforce are kept, and a cancelled dialog is `None`.
- `style_button` and `lighten_color` (app.py:63-81, 237-255): cosmetic, and they scale colours with floating point.
- The start-up dialogs in `initUI` (app.py:42-54): `Login.ValidateLogin` takes the entered account number and PIN as plain integers.
- `create_dataset` (app.py:83-95) and CSV parsing or formatting: file I/O. The table read from the file is a parameter, and writing it is the assignment to `stored`.
- OpenCV capture and `face_recognition` encodings and comparison: external libraries. They appear as the `frameCaptured`, `faceFound` and `reference` fields of `Login.Observation`. Writing the captured frame on enrolment is the `Registered` outcome.
- `random.randint`: the code is any value of `Login.OtpCode`.
- SMTP connection and MIME message construction: network I/O. Delivery success is the `delivered` field.
- Floating-point balances: balances and amounts are exact reals, so rounding is not modelled. `getDouble` also keeps only one decimal place of input by default (app.py:258, 270). The model does not capture this, so an amount (type `Amount` in `session.dfy`) is any real in range.
- `logout` (app.py:290-291) only closes the window and changes no state.
- `Session.Dashboard.constructor`: it requires the user's account number to be in the re-read table. In the program `index[0]` raises otherwise. On the face-match path (app.py:137) that exception would be caught by the `try` at app.py:130 and treated as enrolment. On the OTP path, `open_dashboard` (app.py:181) runs inside `verify_otp`, which is called inside the `try` at app.py:164. There the exception would be reported as a failure to send the OTP (app.py:174-175), with no enrolment. In both cases `Login.ValidateLogin` still returns `Granted`, because the model assumes the dashboard opens.
- capture_face.py: an interactive camera preview that writes an image file. It has no decision logic.
