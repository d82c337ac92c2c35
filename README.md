# SmartScore backend core, modelled in Dafny

This project models the logic that the SmartScore school-management backend
owns itself. The HTTP and Prisma plumbing around it is not modelled. The
modelled logic is:

- the student-identifier service: the `YYYY-NNNN` and `SCH-YYYY-NNNN`
  formats, their two validators and the year extractor;
- the `STU-NNNNNN` identifier of the student controller, and the sign-up and
  admin-create handlers that insert a student row;
- the result-checker service: letter grades, result availability, the
  per-exam report and the credential check;
- the score controller: the add-or-update of one score row per
  (student, class) pair, the per-student listing and the figures behind the
  average;
- the notification service: option defaults, channel selection, one
  persisted record per call, and the per-channel skip and error-swallowing
  rules;
- the two request guards: bearer-token extraction and the 401 paths of the
  authentication middleware, and the admin predicate.

Things the code takes from its environment are parameters:

- the current year and the clock (`new Date()`);
- the draw of `Math.random()`, a real in [0, 1);
- the password hash;
- the JWT verifier, an abstract function from a token to a decoded payload
  or an error;
- the database, given as sequences of rows (the result checker), as a
  `map` from student key to student (the notification service), or as the
  fields of a class (the score table, the student table, the notification
  table).

Modules, one per file: `Wrappers` (Option and Result), `Text` (JavaScript's
number rendering, `padStart`, `split`, and the value of a digit string),
`StudentIds`, `Students`, `ResultChecker`, `Scores`, `Notifications`,
`Http`, `Auth` and `Admin`.

## Model

| member | source | states |
|---|---|---|
| `StudentIds.RandomFourDigits` | src/services/StudentIdService.js:14 | The random part always lies in 1000..9999. |
| `StudentIds.GenerateStudentId` | src/services/StudentIdService.js:12-16 | For any year, the identifier is the year's decimal, a hyphen and exactly four digits. |
| `StudentIds.GeneratedIdRoundTrip` | src/services/StudentIdService.js:12-16 | For a four-digit year, the generated identifier passes `isValidStudentId`, and `extractYear` gives the year back. |
| `StudentIds.GenerateStudentIdWithSchool` | src/services/StudentIdService.js:24-28 | The identifier starts with the school code and a hyphen and has at least seven more characters. For a sequence in 0..9999 it ends with a hyphen and exactly four digits. |
| `StudentIds.IsValidStudentId` | src/services/StudentIdService.js:35-39 | `^\d{4}-\d{4}$` holds exactly for strings of nine characters with a hyphen at position 4 and a digit at every other position. |
| `StudentIds.IsValidStudentIdWithSchool` | src/services/StudentIdService.js:46-50 | `^[A-Z]{2,5}-\d{4}-\d{4}$` holds exactly for strings of 12 to 15 characters with capitals up to ten characters from the end, hyphens ten and five characters from the end, and digits everywhere else. |
| `StudentIds.SchoolIdRoundTrip` | src/services/StudentIdService.js:24-28 | With a 2–5 capital school code and a four-digit year, the school identifier passes `isValidStudentIdWithSchool` exactly when 0 ≤ sequence ≤ 9999. In that case `extractYear` gives the year back. |
| `StudentIds.SequenceFieldDigits` | src/services/StudentIdService.js:26 | The padded sequence is four digits exactly when 0 ≤ sequence ≤ 9999. It is all digits for any sequence ≥ 0. It is five or more characters for sequence ≥ 10000, because padding never truncates. |
| `StudentIds.OverlongSequenceRejected` | src/services/StudentIdService.js:24-28 | For any school code and any year, a sequence ≥ 10000 gives an identifier that the school validator rejects. |
| `StudentIds.SchoolIdLayout` | src/services/StudentIdService.js:46-50 | After a valid code and a four-digit year, the school validator accepts exactly a four-digit last field. |
| `StudentIds.PlainIdIffFields` | src/services/StudentIdService.js:35-39 | `isValidStudentId` accepts exactly the strings that split on '-' into two fields of four digits each. These are the 9-character strings "dddd-dddd". |
| `StudentIds.SchoolIdIffFields` | src/services/StudentIdService.js:46-50 | `isValidStudentIdWithSchool` accepts exactly the strings that split on '-' into three fields: 2–5 capitals, four digits, four digits. |
| `StudentIds.PlainIdParts` | src/services/StudentIdService.js:59 | A valid plain identifier splits into its two four-digit fields. |
| `StudentIds.SchoolIdParts` | src/services/StudentIdService.js:62 | A valid school identifier splits into its code, year and sequence fields. |
| `StudentIds.FormatsDisjoint` | src/services/StudentIdService.js:35-50 | No string is valid in both formats. A plain identifier starts with a digit; a school identifier starts with a capital. So at most one branch of `extractYear` applies. |
| `StudentIds.ExtractYear` | src/services/StudentIdService.js:57-65 | The result is null exactly when neither pattern matches. Otherwise it is the value of the year field: characters 0–3 for the plain format, the four characters before the last hyphen for the school format. |
| `Text.PadStart` | src/services/StudentIdService.js:26 | The result has length max(width, \|s\|). It ends with s and is filled on the left with the pad character. |
| `Text.SplitJoin` | src/services/StudentIdService.js:59 | Joining the fields of `split` gives the string back, and no field contains the separator. |
| `Text.DecimalValueOfNatToString` | src/services/StudentIdService.js:59 | `parseInt` of a rendered number gives the number. |
| `Text.NatToStringLength` | src/services/StudentIdService.js:26 | A number is rendered in at most k digits exactly when it is below 10^k. |
| `Text.FourDigitRendering` | src/services/StudentIdService.js:15 | A number is rendered as exactly four digits exactly when it lies in 1000..9999. |
| `Students.RandomSixDigits` | src/controllers/StudentsController.js:9 | The drawn number always lies in 100000..999999. |
| `Students.GenerateStudentId` | src/controllers/StudentsController.js:8-10 | The identifier is "STU-" followed by six digits with a non-zero first digit (ten characters in all), and their value lies in 100000..999999. |
| `Students.StudentTable.Signup` | src/controllers/StudentsController.js:13-39 | Without parent contact information: 400 and the table is unchanged. Otherwise: 201, and exactly one new row holding the name, the email, the hash of the password, the generated identifier and the given contact information. |
| `Students.StudentTable.Create` | src/controllers/StudentsController.js:88-108 | Contact information is neither required nor stored. The handler returns 201 and appends one row with the hash of the password and the generated identifier. |
| `ResultChecker.CalculateGrade` | src/services/ResultCheckerService.js:114-120 | A is 90 and up, B is 80–89, C is 70–79, D is 60–69 and F is below 60. Each band holds exactly one grade. |
| `ResultChecker.GradeMonotone` | src/services/ResultCheckerService.js:114-120 | A higher score never earns a worse grade. |
| `ResultChecker.FindStudent` | src/services/ResultCheckerService.js:17-19 | The lookup by generated identifier is null exactly when no student has that identifier. A student it returns has that identifier. |
| `ResultChecker.ScoresFor` | src/services/ResultCheckerService.js:28-36 | The query returns exactly the table's scores for that student and exam type: each matching score occurs as often as in the table, and no other score occurs. |
| `ResultChecker.CheckResultAvailability` | src/services/ResultCheckerService.js:15-47 | For an unknown identifier: not available, "Student not found" and no count. Otherwise: available exactly when some score matches the student and exam type, with the count of matching scores and the matching message. |
| `ResultChecker.TotalScore` | src/services/ResultCheckerService.js:82 | The left fold of `reduce` equals the sum taken from the first score: the first score plus the total of the rest. |
| `ResultChecker.TotalScoreBounds` | src/services/ResultCheckerService.js:82 | If n scores each lie in [lo, hi], their total lies in [n·lo, n·hi]. |
| `ResultChecker.Graded` | src/services/ResultCheckerService.js:91-95 | There is one subject line per score, in the same order, and each line carries its score's grade. |
| `ResultChecker.GetStudentResults` | src/services/ResultCheckerService.js:55-107 | An unknown student fails with exactly "Failed to retrieve student results". Otherwise the report carries the student's name and identifier, one graded line per matching score in query order, the count and the total. |
| `ResultChecker.AvailabilityAgreesWithResults` | src/services/ResultCheckerService.js:15-107 | Results are available exactly when the report succeeds with at least one subject. The availability count equals the report's subject count. |
| `ResultChecker.ValidateStudentCredentials` | src/services/ResultCheckerService.js:128-149 | True exactly when a student has the identifier. The date of birth plays no part. |
| `Scores.FindRow` | src/controllers/ScoresController.js:33-35 | The lookup finds the first row for the (student, class) pair, or none exactly when no row has that pair. |
| `Scores.Upsert` | src/controllers/ScoresController.js:33-59 | The table keeps its length when the pair already has a row and grows by one otherwise. Existing rows keep their ids. Afterwards some row holds the pair with the given CA and exam scores, their sum as final score, and the given remarks. |
| `Scores.UpsertEffect` | src/controllers/ScoresController.js:37-59 | If a row for the pair exists, it keeps its id and keys and takes the new CA, exam and final scores and remarks, and no row is added. Otherwise exactly one new row with the next id is appended. Rows of other pairs are unchanged. |
| `Scores.UpsertKeepsKeysUnique` | src/controllers/ScoresController.js:33-59 | If the table had at most one row per pair before, it still does after the upsert, and the pair now has a row. |
| `Scores.UpsertKeepsIdsValid` | src/controllers/ScoresController.js:39-58 | Row ids stay distinct: existing ids are kept, and a new row takes the next id. |
| `Scores.UpsertKeepsFinalIsSum` | src/controllers/ScoresController.js:31-59 | If every row's final score was CA + exam before, it still is after, on the update path and on the insert path. |
| `Scores.ScoreTable.Create` | src/controllers/ScoresController.js:23-66 | A missing or zero student id or class id gives 400 and leaves the table unchanged. Otherwise the table becomes the upsert, and 201 comes with the saved row, whose final score is CA + exam. The method keeps the one-row-per-pair and final-is-sum invariants. |
| `Scores.RowsOf` | src/controllers/ScoresController.js:8-13 | The listing returns exactly the student's rows: each of them occurs as often as in the table, and no other row occurs. |
| `Scores.TotalFinal` | src/controllers/ScoresController.js:81 | The left fold of `reduce` equals the sum taken from the first row: the first final score plus the total of the rest. |
| `Scores.Average` | src/controllers/ScoresController.js:73-82 | The result is 404 ("no scores") exactly when the student has no rows. Otherwise the numerator is the sum of final scores over exactly the student's rows, and the denominator is their count. |
| `Scores.TotalFinalSplits` | src/controllers/ScoresController.js:81 | If every row keeps its final score as the sum, the final total equals the CA total plus the exam total. |
| `Notifications.ResolveOptions` | src/services/NotificationService.js:73-78 | Each absent option takes its default: channels email, sms and app; priority "normal"; template "default"; scheduledFor null. A given option is kept. |
| `Notifications.EmailDelivery` | src/services/NotificationService.js:124-143 | A mail is handed to the transporter exactly when the student exists, has a non-empty parent email and has a school. A student without a school makes the subject's `student.school.name` throw inside the `try`, so nothing is sent. The mail goes to the parent address with subject "<subject> - <school name>". |
| `Notifications.SmsDelivery` | src/services/NotificationService.js:146-167 | An SMS line is logged exactly when the student exists and has a non-empty parent phone. It is logged, not sent to a provider. |
| `Notifications.Dispatch` | src/services/NotificationService.js:93-101 | A mail is sent exactly when the channels contain "email" and the student has a parent email and a school. An SMS is logged exactly when they contain "sms" and a parent phone exists. Every send is the one `EmailDelivery` or `SmsDelivery` decides on for a selected channel. There is one send per selected channel that can deliver, and the mail comes before the SMS. |
| `Notifications.OtherChannelsIgnored` | src/services/NotificationService.js:94-99 | Channel names other than "email" and "sms", "app" included, trigger nothing. |
| `Notifications.DefaultsAttemptBothChannels` | src/services/NotificationService.js:73-99 | With no options, a custom notification attempts the same sends as an alert (email, then SMS), and its settings are the defaults. |
| `Notifications.ResultAlertMessage` | src/services/NotificationService.js:28 | The RESULT_ALERT text starts with "New result available for " and the student's name, and ends with ", Score: " and the rendered final score. |
| `Notifications.CaAlertMessage` | src/services/NotificationService.js:54 | The CA_ALERT text starts with "CA Score Updated: ", the subject and " - ", and ends with "/" and the rendered CA total. |
| `Notifications.Lookup` | src/services/NotificationService.js:21-24 | The lookup by student key is null exactly for an unknown key; otherwise it is that key's student. |
| `Notifications.NotificationService.CreateNotification` | src/services/NotificationService.js:110-121 | Exactly one record is appended, with status "SENT" and the given type, message, metadata and time. No send happens. |
| `Notifications.NotificationService.SendEmail` | src/services/NotificationService.js:124-143 | The log grows by the mail `EmailDelivery` decides on, if any. The method never fails. |
| `Notifications.NotificationService.SendSms` | src/services/NotificationService.js:146-167 | The log grows by the SMS line `SmsDelivery` decides on, if any. The method never fails. |
| `Notifications.NotificationService.SendResultAlert` | src/services/NotificationService.js:19-44 | An unknown student gives "Student not found" and nothing is written. Otherwise one RESULT_ALERT record with the formatted message is written, and email and SMS are both attempted. |
| `Notifications.NotificationService.SendCAScoreAlert` | src/services/NotificationService.js:47-68 | One CA_ALERT record "CA Score Updated: <subject> - <ca>/<total>" is always written, even for a missing student. For a missing student both channels send nothing. |
| `Notifications.NotificationService.SendCustomNotification` | src/services/NotificationService.js:71-107 | One CUSTOM record with metadata {priority, template, scheduledFor} is written. Then the channels the options select are attempted. Channel failures never fail the call. |
| `Auth.ExtractToken` | src/middleware/authMiddleware.js:8-9 | A token is only taken from a present header, and it is never empty and never contains a space. |
| `Auth.SecondWordIsToken` | src/middleware/authMiddleware.js:9 | The second space-separated word is the token whatever the first word is, so the scheme is not checked to be "Bearer". Anything after a further space is ignored. |
| `Auth.NoSecondWordNoToken` | src/middleware/authMiddleware.js:9-18 | A header without a second word, or with an empty one ("Bearer "), gives no token, and so the 401 "No token provided" response. |
| `Auth.TokenIsSecondWord` | src/middleware/authMiddleware.js:9 | Every extracted token is the second word of its header: the header is "<scheme> <token>" or "<scheme> <token> <rest>". |
| `Auth.AuthenticateToken` | src/middleware/authMiddleware.js:7-33 | With no token: 401 "Access denied. No token provided.", and the verifier is never called. If the verifier rejects: 401 "Invalid or expired token." and `req.user` is untouched. Otherwise `req.user` is the decoded payload and the outcome is `next`. Exactly one of the two happens. |
| `Admin.IsAdmin` | src/middleware/isAdmin.js:2-8 | The outcome is `next` exactly when a user is present and its role equals "admin". In every other case it is 403 with the fixed "Forbidden" message. |
| `Admin.RoleMatchIsExact` | src/middleware/isAdmin.js:4-7 | The role comparison is exact: "Admin", "admin " and a missing role or user are all refused. |

## Left out

- Clock, randomness, hashing and JWT signing and verification are parameters. Real `Date`, `Math.random`, bcrypt and `jsonwebtoken` are not modelled.
- Database failures are not modelled. These are the `catch` blocks that answer 500, the `Failed to check result availability` error, and `validateStudentCredentials` returning false on an internal error. Unique and foreign-key constraints are not modelled either; the Prisma schema is not part of this model.
- Floating point is not modelled. `averageScore`, its rounding and `overallGrade` in the result report are left out, and `Scores.Average` returns the total and the count rather than their quotient. Scores are integers. Number rendering is plain decimal, so exponent notation for magnitudes of 10^21 or more is not modelled.
- `Text.DecimalValue`: `parseInt` is modelled only on strings of decimal digits. Those are the only strings it receives here.
- JavaScript coercion is not modelled. Numeric body fields are absent, zero or integers; string ids and NaN are not modelled, nor is `+` on non-numeric scores. A `null` options bag or `null` channels list throws in the source; this is not modelled.
- `Notifications.ResolveOptions`: destructuring defaults apply only to `undefined`. An explicit `null` priority or template is stored as `null` in the metadata. The model has no `null` for these keys and gives "normal" or "default" instead.
- `Students.StudentTable.Signup`: the `!parentContactInfo` guard also answers 400 for `""`, `0` and `false`. The model takes contact information as absent or a contact record, so those falsy non-object values are not modelled.
- `Scores.ScoreTable.Create`: absent `remarks` overwrites the column with none. Prisma would leave the column unchanged for an `undefined` value; that case is not distinguished.
- `Notifications`: `Promise.all` runs the two channel sends concurrently. The model logs them in sequence, email first. A send that fails inside the transporter is logged as attempted, because its error is swallowed. The HTML of `generateEmailTemplate` is reduced to the values it interpolates. Console logging and the transporter set-up are not modelled.
- `Notifications.NotificationService.SendCustomNotification`: `scheduledFor` is stored as metadata only, as in the source; no delayed sending exists.
- `Auth.AuthenticateToken`: the response body's `success: false` field is not modelled; the outcome carries only the status and the error message.
- The trial-limited result-checker token (`generateResultToken`, `resetTokenTrials`) is called by the routes but is not defined in the result-checker service, so it is not modelled. Neither are `sendBulkNotification` and `getNotificationStats`, which the notifications controller calls but the service does not define.
- Routes, app set-up, the worker, and the CRUD controllers for teachers, subjects, classes, schools and admins are not modelled. The student login, index, show, update and destroy handlers are also not modelled. All of these are thin database wrappers.
