# School website core, modelled in Dafny

A model of the logic of a Django school-management site: four user roles
(admin, teacher, student, parent), the school's tables (students,
teachers, classes, subjects, class routines, notices, attendance, results,
fees, books, gallery images, contact messages), the views that decide who
sees or changes which rows, the forms that check submitted data, the
self-registration flow, the two seeding scripts, and the two helpers of the
site script (`getCookie` and the table search).

The database is a `Store` class with one sequence per table. Views that
only read are functions over the tables. Views and scripts that write are
methods with `modifies` on the tables they touch. Each such method is
proved equal to a specification function of the old tables, and the
properties of the site are lemmas about those functions. The gallery and contact lists
follow the models' default ordering, newest first (school/models.py:182
and 209), which the views inherit.

Modules, one per source file plus four helpers:

- `Common`: `Option`; `Outcome` (a value, or the first error message); `Response` (`Allowed(value)`, `Forbidden` or `NotFound`, in place of a rendered page, a 403 or a 404); the HTTP method.
- `Tables`: query-set operations (`filter`, `order_by('-key')`, `unique`).
- `Text`: digits, zero padding, prefixes and substrings.
- `GetOrCreate`: Django's `get_or_create` and a loop of calls to it.
- `AccountsModels`: the user model and its roles.
- `SchoolModels`: the records, their choices, defaults and unique constraints, and the `Store`.
- `SchoolForms`: the contact and notice forms.
- `AccountsForms`: the registration and profile forms.
- `AccountsViews`: `register` and `dashboard`.
- `SchoolViews`: the role-gated views.
- `CreateClasses`: the `create_classes` management command.
- `CreateSampleData`: the `create_sample_data` script.
- `MainJs`: the cookie reader and the row filter of the site script.

## Model

| member | source | states |
|---|---|---|
| AccountsModels.ParseUserType | accounts/models.py:5-11 | a stored role is read only when it is one of admin, teacher, student, parent, and it reads back as the role with that key |
| AccountsModels.UserTypeRoundTrip | accounts/models.py:5-11 | every role's key reads back as that role |
| AccountsModels.NewUser | accounts/models.py:11-14 | a user keeps the given key and username, is a student when created without a role, and starts with a blank address and picture |
| SchoolModels.ParseDay | school/models.py:66-73 | only Monday to Saturday are accepted days; a parsed day has the submitted name |
| SchoolModels.DayRoundTrip | school/models.py:66-73 | each of the six days' names parses back to that day |
| SchoolModels.ParseAudience | school/models.py:86-91 | only All, Teachers, Students, Parents are audiences |
| SchoolModels.ParseContactSubject | school/models.py:186-194 | only the seven subject keys are accepted |
| SchoolModels.NewStudent | school/models.py:16-26 | a created student keeps its keys and is admitted on the day of creation |
| SchoolModels.NewStudentDefaults | school/models.py:19-25 | omitted student fields default to Male, Class 1, section A, roll 1, blank parent fields, no birth date |
| SchoolModels.NewTeacher | school/models.py:32-39 | a created teacher keeps its keys and joins on the day of creation |
| SchoolModels.NewTeacherDefaults | school/models.py:35-40 | omitted teacher fields default to Male, blank qualification and specialization, salary 0, no birth date |
| SchoolModels.NewContact | school/models.py:196-203 | a new message is unread and not responded to, with subject `general` when none is given, and keeps the given name, email, phone and message |
| SchoolModels.NewGallery | school/models.py:172-175 | a new image is active, category `school` when none is given, stamped with its upload time and uploader, and keeps the given title, description and image |
| SchoolModels.NewFee | school/models.py:125-130 | a new fee is unpaid unless stated, a given `paid` is kept, and amount, due date and optional payment date are the given ones |
| SchoolModels.NewResult | school/models.py:113-119 | total marks default to 100 and a given total is kept; student, subject, exam name, marks and grade are the given ones |
| SchoolModels.InsertStudent | school/models.py:16-18 | the insert is refused with an integrity error exactly when the primary key, the user or the `student_id` is taken; otherwise the row is appended |
| SchoolModels.InsertStudentKeepsValid | school/models.py:16-18 | an accepted student insert keeps the table's unique constraints |
| SchoolModels.InsertTeacher | school/models.py:32-34 | refused exactly when the primary key, the user or the `teacher_id` is taken; otherwise appended |
| SchoolModels.InsertTeacherKeepsValid | school/models.py:32-34 | an accepted teacher insert keeps the unique constraints |
| SchoolModels.InsertAttendance | school/models.py:106-107 | refused exactly when the key or the (student, date) pair is taken |
| SchoolModels.InsertAttendanceKeepsValid | school/models.py:106-107 | an accepted attendance insert keeps at most one row per student and date |
| SchoolModels.InsertBook | school/models.py:139 | refused exactly when the key or the ISBN is taken |
| SchoolModels.InsertBookKeepsValid | school/models.py:139 | an accepted book insert keeps ISBNs unique |
| SchoolModels.StudentOf | school/models.py:17 | the profile lookup by user returns a row of that user, and nothing exactly when the user has no student row |
| SchoolModels.TeacherOf | school/models.py:33 | the same for teacher profiles |
| SchoolModels.StudentOfUnique | school/models.py:17 | with the one-to-one link, the lookup returns the user's only student row |
| SchoolModels.TeacherOfUnique | school/models.py:33 | with the one-to-one link, the lookup returns the user's only teacher row |
| SchoolModels.Store.constructor | school/models.py:16-210 | an empty database satisfies every unique constraint |
| Text.RemoveChar | school/forms.py:152 | `replace(c, '')` leaves no `c`, keeps every other character that occurs, and never lengthens the string |
| Text.RemoveCharCounts | school/forms.py:152 | every character other than `c` is kept exactly as many times as it occurred |
| Text.ZeroPad | create_sample_data.py:58 | padding to a width gives at least that many characters, ending in the digits and starting with zeros |
| Text.ZeroPadValue | create_sample_data.py:58 | zero padding keeps a digit string's value |
| Text.DecimalString | create_sample_data.py:58 | `str(n)` is a non-empty digit string that starts with `0` only when n is 0 |
| Text.DecimalStringValue | create_sample_data.py:58 | the decimal string of a number reads back as that number |
| Text.DecimalStringFits | create_sample_data.py:58 | `str(n)` has at most k digits exactly when n < 10^k |
| Text.ContainsIffOccurs | static/js/main.js:42 | `includes` holds exactly when the term occurs at some position |
| Tables.Filter | school/views.py:56 | a filter keeps exactly the rows satisfying the condition, each as many times as the table holds it, and no other row |
| Tables.SortDesc | school/views.py:52 | `order_by('-key')` is a permutation that is ordered by descending key |
| Tables.FilterSorted | school/views.py:52-56 | filtering an ordered query set keeps it ordered and keeps exactly the matching rows, each as many times as the table holds it |
| Tables.FilterKeepsUnique | school/views.py:322 | deleting rows never breaks a unique constraint |
| GetOrCreate.Find | create_classes.py:23-27 | the lookup returns a matching row, and nothing exactly when no row matches |
| GetOrCreate.NextId | create_classes.py:23-27 | a new row's primary key is larger than every key in the table |
| GetOrCreate.GetOrCreateRow | create_classes.py:23-27 | creates exactly when no row matches; then the row built from the lookup is appended, otherwise the table is unchanged and the match returned |
| GetOrCreate.RunShape | create_classes.py:21-29 | a loop of calls only appends rows, obtains one row per request and counts exactly the rows it added |
| GetOrCreate.RunFinds | create_classes.py:21-29 | after the loop, each request's first match is the row the loop obtained for it |
| GetOrCreate.RunPresent | create_classes.py:21-29 | when every request already has a match the loop changes nothing and creates nothing |
| GetOrCreate.RunTwice | create_classes.py:21-29 | a second loop over the same requests changes nothing, creates nothing and obtains the same rows |
| GetOrCreate.RunCount | create_classes.py:21-29 | for distinct requests the count is the number of requests without a match beforehand |
| GetOrCreate.RunKeepsUniqueIds | create_classes.py:21-29 | the loop keeps primary keys unique |
| GetOrCreate.RunKeepsUniqueKey | create_classes.py:23-27 | a column the lookup matches on stays unique through the loop |
| GetOrCreate.RunAddsOnlyBuilt | create_classes.py:23-27 | every row the loop adds was built from one of its requests |
| GetOrCreate.RunLeavesAllPresent | create_classes.py:21-29 | after the loop every request has a match |
| GetOrCreate.RunAgainSameObjs | create_classes.py:21-29 | a second loop obtains the same rows as the first |
| SchoolForms.StripSeparators | school/forms.py:152 | the phone without spaces, `-` and `+`, other characters kept |
| SchoolForms.CleanPhone | school/forms.py:150-154 | a missing or empty phone passes; a phone that passes is returned as typed; a rejection carries "Please enter a valid phone number." |
| SchoolForms.CleanPhoneAccepts | school/forms.py:152 | a non-empty phone passes exactly when it has only digits and separators and at least one digit |
| SchoolForms.CleanPhoneRejectsSeparators | school/forms.py:152-153 | `+` and `--` are rejected |
| SchoolForms.CleanPhoneKeepsSeparators | school/forms.py:154 | `+1 2-3` passes and is kept with its separators |
| SchoolForms.CleanContact | school/forms.py:119-122 | the contact form is valid exactly when name (at most 100), email (at most 254, `EmailField`'s limit), phone, subject and message pass their checks, and carries those five values; a missing name, email, subject or message is reported as required |
| SchoolForms.SaveContact | school/forms.py:119-122 | a saved message holds the form's values and the submission time |
| SchoolForms.ContactFormStartsUnread | school/forms.py:122 | whatever is posted, a message from the form starts unread and not responded to |
| SchoolForms.SaveNotice | school/forms.py:21-24 | a notice is saved exactly when title (at most 200), content and a valid audience are given, with those values and the current time; a missing title, content or audience is reported as required |
| AccountsForms.ParseRegistrationRole | accounts/forms.py:8-14 | only `student` and `teacher` are offered |
| AccountsForms.RegistrationExcludesAdminAndParent | accounts/forms.py:8-14 | admin and parent accounts cannot be registered |
| AccountsForms.CleanAccount | accounts/forms.py:6-14 | the account part is valid exactly when username, email, role and matching passwords are given that the password validators accept for the user being registered (its username, email and names), no existing username equals it once both are case-folded (`username__iexact`), and the user columns keep their lengths |
| AccountsForms.CleanStudentFields | accounts/forms.py:17-53 | the student part is valid exactly when gender is blank, Male or Female, a roll number is at least 1, and class, section, parent name and phone keep to 50, 10, 100 and 15 characters |
| AccountsForms.CleanRegistration | accounts/forms.py:6-59 | valid exactly when both parts are; the cleaned data carries the submitted username, email, first and last name, phone and password, and a student or teacher role |
| AccountsForms.StudentFieldsOptional | accounts/forms.py:17-53 | leaving every student field empty never makes a registration invalid |
| AccountsForms.StyledGivesClass | accounts/forms.py:64-71 | every non-password widget ends with a class, `form-select` for a select and `form-control` otherwise; an existing class and other attributes are kept |
| AccountsForms.StyledIdempotent | accounts/forms.py:64-71 | styling twice is styling once |
| AccountsForms.AddBootstrapClasses | accounts/forms.py:61-71 | the loop leaves every widget with its styled attributes |
| AccountsForms.UpdateProfile | accounts/forms.py:74-90 | the profile form requires an email and changes only names, email, phone, address and picture; without an upload the picture stays |
| AccountsViews.GeneratedId | accounts/views.py:20 | a generated id is its prefix (`STU` here, `TCH` at accounts/views.py:45) followed by exactly the drawn digits |
| AccountsViews.GeneratedIdsDisjoint | accounts/views.py:18-46 | a student id never equals a teacher id |
| AccountsViews.StudentFieldsFrom | accounts/views.py:23-29 | every student column is supplied, and gender and birth date pass through |
| AccountsViews.RegisteredStudentFields | accounts/views.py:23-41 | an empty class or section becomes Class 1 or A, and a missing or zero roll becomes 1; other values, gender, birth date and parent fields are kept |
| AccountsViews.RegisteredUser | accounts/views.py:15 | the saved user has the form's username, email, first and last name, phone, role and password, and an empty address and picture |
| AccountsViews.Register | accounts/views.py:11-52 | registering changes the user, student and teacher tables exactly as the specification of the view says, and keeps every table constraint |
| AccountsViews.RegisterRejectsInvalid | accounts/views.py:13-14 | an invalid form changes nothing and reports its first error |
| AccountsViews.RegisterSavesUser | accounts/views.py:15-16 | a valid form appends exactly one new user with a fresh key and the submitted username and role |
| AccountsViews.RegisterStudent | accounts/views.py:18-41 | a student registration adds exactly one student of the new user with a nine-character id `STU` plus digits, and fails with an integrity error, keeping the user, exactly when an existing student row already has that id or already points at the new user's key |
| AccountsViews.RegisterTeacher | accounts/views.py:43-46 | a teacher registration adds exactly one teacher with id `TCH` plus digits and every other column at its default, and fails with an integrity error, keeping the user, exactly when an existing teacher row already has that id or already points at the new user's key |
| AccountsViews.RegisterKeepsValid | accounts/views.py:11-46 | registration keeps every unique constraint of the three tables |
| AccountsViews.Dashboard | accounts/views.py:55-71 | students get their profile or None, teachers theirs or None, other roles neither |
| AccountsViews.DashboardShowsOwnProfile | accounts/views.py:60-62 | a student with a profile sees exactly that profile |
| AccountsViews.RegisterThenDashboard | accounts/views.py:11-71 | after a registration that succeeded, the dashboard of the new user shows a profile |
| SchoolViews.RoutineClassName | school/views.py:43 | a routine's class name is the name of a class with its class key |
| SchoolViews.ClassRoutineView | school/views.py:34-47 | students see exactly the routines of classes named like their `class_name`, each as often as stored, whatever the section; without a profile, none; other roles see all |
| SchoolViews.ClassRoutineIgnoresSection | school/views.py:43 | a student sees the routines of every class with their class name, whatever its section |
| SchoolViews.ClassNameById | school/views.py:43 | with unique class keys, a routine's class name is its class's name |
| SchoolViews.NoticeBoard | school/views.py:50-58 | notices come newest first; students see exactly those for Students or All, each as often as stored; others see them all |
| SchoolViews.ResultsView | school/views.py:61-82 | students see exactly their own results, teachers exactly those of subjects they teach (each row as often as stored), a missing profile nothing, every other role everything |
| SchoolViews.ResultsArePrivate | school/views.py:65-68 | a student never sees another student's results |
| SchoolViews.AttendanceView | school/views.py:85-106 | students see exactly their own attendance, latest first; teachers exactly that of classes they lead (each row as often as stored); a missing profile nothing; other roles everything |
| SchoolViews.FeesView | school/views.py:115-130 | teachers are refused; students see exactly their own fees, each as often as stored, latest due first, none without a profile; other roles see all fees |
| SchoolViews.MissingProfileSeesNothing | school/views.py:36-124 | a student or teacher without a profile sees no routines, results or attendance; such a student sees an empty fee list and such a teacher is refused the fee page |
| SchoolViews.StudentManagement | school/views.py:14-21 | allowed exactly to admins and teachers, who see every student |
| SchoolViews.TeacherManagement | school/views.py:24-31 | allowed exactly to admins |
| SchoolViews.OnlineAdmission | school/views.py:133-138 | allowed exactly to students and admins |
| SchoolViews.ManageClassRoutines | school/views.py:244-261 | allowed exactly to staff; admins see all routines, teachers exactly those of their subjects (each as often as stored), none without a profile |
| SchoolViews.GalleryView | school/views.py:348-363 | exactly the active images, each as often as stored, of the selected category unless it is `all`, newest upload first |
| SchoolViews.GalleryUnknownCategory | school/views.py:353-356 | a category outside the choices shows no image |
| SchoolViews.ContactMessages | school/views.py:434-455 | allowed exactly to staff; shows exactly the messages the status filter admits, each as often as stored, newest first |
| SchoolViews.ContactMessagesUnknownStatus | school/views.py:443-449 | any status other than unread, read or responded shows every message |
| SchoolViews.ReadAndUnreadPartition | school/views.py:444-447 | every message is in exactly one of the unread and read lists |
| SchoolViews.ParentAccess | school/views.py:14-137 | a parent is refused every staff page and the admission page, and sees all results, attendance and fees |
| SchoolViews.UpdateContact | school/views.py:467-469 | saving a message changes the row with its key and no other |
| SchoolViews.FindAfterUpdate | school/views.py:464-469 | after the save, the lookup by key finds the changed message |
| SchoolViews.ContactMessageDetail | school/views.py:458-474 | viewing a message changes the messages exactly as the view's specification says, and keeps every table constraint |
| SchoolViews.ContactDetailMarksRead | school/views.py:461-474 | staff see an existing message, now read, with its responded flag unchanged; otherwise 403 or 404 and nothing changes |
| SchoolViews.ContactDetailKeepsOthers | school/views.py:467-469 | viewing changes no responded flag, no key and no other message |
| SchoolViews.ContactDetailIdempotent | school/views.py:467-469 | viewing a message again gives the same page and the same table |
| SchoolViews.MarkContactResponded | school/views.py:477-491 | the table changes exactly as the view's specification says, and every table constraint still holds |
| SchoolViews.MarkRespondedOnlyOnPost | school/views.py:480-491 | only a staff POST changes anything; it sets responded on that message only and changes no read flag |
| SchoolViews.DeleteContactMessage | school/views.py:494-510 | the table changes exactly as the view's specification says, and every table constraint still holds |
| SchoolViews.DeleteContactRemovesOne | school/views.py:497-505 | an allowed POST removes exactly the message with that key, anything else removes nothing, and keys stay unique |
| SchoolViews.ContactDetailKeepsKeys | school/views.py:458-474 | opening a message keeps message keys unique |
| SchoolViews.MarkRespondedKeepsKeys | school/views.py:477-491 | marking a message responded keeps message keys unique |
| SchoolViews.RoutineOwner | school/views.py:276 | a routine's owner is the teacher of its subject |
| SchoolViews.RoutineAccess | school/views.py:267-279 | non-staff are refused, an unknown routine is 404, admins may act on any routine, a teacher exactly on routines of subjects they teach |
| SchoolViews.ReplaceRoutine | school/views.py:282-286 | saving the form changes the routine with that key and no other |
| SchoolViews.EditClassRoutine | school/views.py:264-301 | the routines change exactly as the view's specification says, and every table constraint still holds |
| SchoolViews.DeleteClassRoutine | school/views.py:304-326 | the routines change exactly as the view's specification says, and every table constraint still holds |
| SchoolViews.EditRoutineKeepsKeys | school/views.py:264-301 | editing a routine keeps routine keys unique |
| SchoolViews.DeleteRoutineKeepsKeys | school/views.py:304-326 | deleting a routine keeps routine keys unique |
| SchoolViews.RoutineChangesNeedOwner | school/views.py:273-319 | a teacher who does not own the routine, or has no profile, can neither edit nor delete it |
| SchoolViews.DeleteRoutineOnlyOnPost | school/views.py:321-326 | only an allowed POST deletes, and it removes exactly the routines with that key |
| SchoolViews.EditMayReassignSubject | school/views.py:281-286 | an allowed edit saves whatever subject is posted |
| SchoolViews.DeleteGalleryImage | school/views.py:396-413 | the images change exactly as the view's specification says, and every table constraint still holds |
| SchoolViews.DeleteImageKeepsKeys | school/views.py:396-413 | deleting an image keeps image keys unique |
| SchoolViews.GalleryDeleteRules | school/views.py:399-411 | an admin may delete any image, a teacher only their own; only an allowed POST deletes, and it removes exactly that image |
| CreateClasses.Handle | create_classes.py:7-36 | the command leaves the class table as the loop specification says and keeps its keys unique |
| CreateClasses.SeedLoop | create_classes.py:21-29 | the loop's table, obtained rows and count are those of the run of get_or_create calls |
| CreateClasses.ClassesDataDistinct | create_classes.py:8-19 | no class the command builds matches another of its requests |
| CreateClasses.SeedCreatesAll | create_classes.py:22-27 | after the loop every requested (name, section) exists |
| CreateClasses.HandleCreatesAll | create_classes.py:8-27 | after the command Class 1 to Class 10, section A, all exist |
| CreateClasses.HandleOnlyAppends | create_classes.py:22-27 | existing classes are kept unchanged, and every added class is one of the ten, without a class teacher |
| CreateClasses.SeedOnlyAppends | create_classes.py:22-27 | the same for any list of requests |
| CreateClasses.HandleCount | create_classes.py:21-29 | `created_count` is the number of the ten classes missing beforehand |
| CreateClasses.HandleTwice | create_classes.py:21-29 | a second run reports 0 and leaves the table as the first left it |
| CreateSampleData.MakeTeacherUser | create_sample_data.py:41-52 | a created user has the entry's username, first and last name, role teacher, `<username>@school.com`, the sample password, and an empty phone and address |
| CreateSampleData.TchId | create_sample_data.py:58 | a teacher id is `TCH` followed by at least four characters (their digits in TchIdValue, their width in TchIdWidth) |
| CreateSampleData.TchIdWidth | create_sample_data.py:58 | `{:04d}` pads to four digits and no further: `TCH` plus 4 characters exactly for ids below 10000, the plain decimal id with no leading zero from 10000 on, and at most 8 characters below 100000, so never a registration's nine-character `TCH` id |
| CreateSampleData.TchIdValue | create_sample_data.py:58 | after `TCH` come only digits, and they read back as the user id |
| CreateSampleData.TchIdInjective | create_sample_data.py:58 | different users get different teacher ids |
| CreateSampleData.MakeSampleTeacher | create_sample_data.py:55-62 | a created teacher is linked to the user, with id `TCH` plus the user key, Masters and the entry's subject |
| CreateSampleData.GetOrCreateTeacher | create_sample_data.py:55-62 | an existing profile is returned unchanged; otherwise one is appended, or the insert fails with an integrity error |
| CreateSampleData.GetOrCreateTeacherFails | create_sample_data.py:55-62 | the profile insert fails exactly when the user has no profile and its `TCH` id is already taken |
| CreateSampleData.GetOrCreateTeacherKeepsValid | create_sample_data.py:55-62 | a profile get-or-create keeps the teacher constraints |
| CreateSampleData.GetOrCreateUserKeepsValid | create_sample_data.py:41-49 | a user get-or-create keeps keys and usernames unique |
| CreateSampleData.TeacherStep | create_sample_data.py:40-63 | one iteration only appends, obtains one teacher, and changes nothing once the script has failed |
| CreateSampleData.TeachersRun | create_sample_data.py:39-67 | a loop that did not fail obtained one teacher per entry |
| CreateSampleData.TeacherStepKeepsValid | create_sample_data.py:40-63 | one iteration keeps the user and teacher constraints |
| CreateSampleData.TeachersRunKeepsValid | create_sample_data.py:39-67 | the teacher loop keeps the user and teacher constraints |
| CreateSampleData.TeachersRunAppends | create_sample_data.py:39-67 | the teacher loop only appends users, profiles and obtained teachers |
| CreateSampleData.StaffedByExtends | create_sample_data.py:41-62 | an entry staffed by a profile stays so when rows are appended |
| CreateSampleData.TeacherStepStaffs | create_sample_data.py:40-63 | after an iteration, the entry's user exists and the teacher obtained is that user's profile |
| CreateSampleData.TeachersRunStaffs | create_sample_data.py:39-67 | after the loop, one profile was obtained per entry, and each is, in order, the first profile of the user with that entry's username |
| CreateSampleData.TeacherStepWhenStaffed | create_sample_data.py:40-63 | an iteration for an entry already staffed changes no table |
| CreateSampleData.TeachersRunWhenStaffed | create_sample_data.py:39-67 | a loop over entries all already staffed changes no table and obtains those profiles |
| CreateSampleData.TeachersRunTwice | create_sample_data.py:39-67 | running the teacher loop again changes nothing and obtains the same teachers |
| CreateSampleData.TeachersRunNeverFails | create_sample_data.py:55-62 | when every profile's id follows the `TCH` scheme the loop never fails, and the scheme still holds |
| CreateSampleData.TeachersRunFailed | create_sample_data.py:55-62 | after a refused insert the script does nothing more |
| CreateSampleData.ClassSubjectRequests | create_sample_data.py:72-78 | the inner loop asks for `<subject> - <class name>` in that class, taught by the teacher of the same entry |
| CreateSampleData.SubjectRequestsLayout | create_sample_data.py:70-79 | the request for class k and entry i is the (k times entries plus i)-th |
| CreateSampleData.SubjectRequestsLength | create_sample_data.py:70-79 | one request per class and entry |
| CreateSampleData.SeedSubjects | create_sample_data.py:69-83 | the nested loop leaves the subjects as the run of get_or_create calls says |
| CreateSampleData.SeedClassSubjects | create_sample_data.py:72-83 | the inner loop continues that run with one class's requests |
| CreateSampleData.SeedTeachers | create_sample_data.py:39-67 | the teacher loop leaves users and teachers as the loop specification says |
| CreateSampleData.SeedAll | create_sample_data.py:16-86 | the script's three loops leave the four tables and three lists as its specification says, and keep every table constraint |
| CreateSampleData.CreateSample | create_sample_data.py:16-86 | the same for the script's own class keys and teacher entries, constraints included |
| CreateSampleData.SampleDataKeepsValid | create_sample_data.py:16-86 | the script keeps every constraint of the tables it writes to |
| CreateSampleData.SampleDataShape | create_sample_data.py:20-86 | one class per key, and unless it failed one teacher per entry and one subject per class and entry |
| CreateSampleData.SampleDataCounts | create_sample_data.py:20-86 | the script reports 3 classes and, unless it failed, 3 teachers and 9 subjects |
| CreateSampleData.SampleDataSucceeds | create_sample_data.py:55-62 | with profiles that follow the id scheme the script completes |
| CreateSampleData.SampleDataCreatesClasses | create_sample_data.py:20-30 | afterwards every requested class exists |
| CreateSampleData.SampleDataCreatesTeachers | create_sample_data.py:39-67 | afterwards every entry has a user and that user's profile is the teacher obtained |
| CreateSampleData.SampleDataCreatesSubjects | create_sample_data.py:70-83 | afterwards every class and entry has its subject |
| CreateSampleData.SampleDataTwice | create_sample_data.py:20-83 | running the script again changes no table and reports the same lists |
| MainJs.Split | static/js/main.js:98 | `split(';')` gives at least one piece, none containing `;` |
| MainJs.SplitJoin | static/js/main.js:98 | joining the pieces back gives the cookie string |
| MainJs.SplitWithoutSep | static/js/main.js:98 | a string without `;` is one entry |
| MainJs.TrimStart | static/js/main.js:100 | removes exactly the leading white space |
| MainJs.TrimEnd | static/js/main.js:100 | removes exactly the trailing white space |
| MainJs.Trim | static/js/main.js:100 | the result neither starts nor ends with white space, and it sits in the string with only white space before and after it |
| MainJs.TrimUntouched | static/js/main.js:100 | a string without outer white space is its own trim |
| MainJs.TrimIdempotent | static/js/main.js:100 | trimming twice is trimming once |
| MainJs.Substring | static/js/main.js:101-102 | `substring` returns the slice between its bounds once they are clamped to the string and put in order; empty when both are off the same end |
| MainJs.SubstringSwaps | static/js/main.js:101-102 | swapping the two bounds gives the same substring |
| MainJs.NamesCookieIsPrefix | static/js/main.js:101 | the test is exactly "starts with `name=`" |
| MainJs.LongerNameNoMatch | static/js/main.js:101 | a cookie whose name only begins with `name` does not match |
| MainJs.CsrfTokenPrefixExample | static/js/main.js:76-101 | `csrftokenX=abc` is not the `csrftoken` cookie |
| MainJs.FirstNamed | static/js/main.js:99-104 | finds the first entry that, trimmed, starts with `name=`, and nothing exactly when there is none |
| MainJs.GetCookie | static/js/main.js:95-108 | the loop with its `break` returns the decoded value of the first matching entry |
| MainJs.NoCookies | static/js/main.js:96-97 | an empty cookie string gives null |
| MainJs.CookieAbsent | static/js/main.js:99-107 | otherwise null exactly when no entry matches |
| MainJs.FirstEntryWins | static/js/main.js:101-104 | a later entry with the same name never overrides the first |
| MainJs.CookieRoundTrip | static/js/main.js:98-104 | the cookie string `name=value` gives back the decoded value |
| MainJs.CookieEntryValue | static/js/main.js:100-102 | the entry `name=value` matches and carries `value` |
| MainJs.RowShownIffOccurs | static/js/main.js:41-42 | a row is shown exactly when the lower-cased term occurs in its lower-cased text |
| MainJs.VisibleRows | static/js/main.js:40-43 | the visible rows are exactly the rows that pass the test |
| MainJs.EmptyTermShowsAll | static/js/main.js:35-42 | an empty search term shows every row |

## Left out

- Rendering, redirects, flash messages and the bodies of 403 pages. A view answers `Allowed`, `Forbidden` or `NotFound`, and a missing form on a page is `Allowed` with what the page would show.
- Login sessions and `@login_required`: the caller is an authenticated user with a role.
- Password hashing: the stored password is the plain text given.
- Randomness: the six digits of a generated id are an input.
- `auto_now_add` timestamps and dates are inputs.
- Image and file storage: a picture is a path string.
- Decimal money and marks are integers in hundredths; no arithmetic is done on them.
- Django's email, username and password validators, and the database's case folding for `username__iexact`, are parameters (`Validators`). The password validators see the password and the unsaved user's username, email and names; the site's validator settings are not part of this model.
- Django form fields strip surrounding white space before checking; the model checks the values as posted.
- A form reports only its first error, not the full error list.
- Python's `str.isdigit` accepts every Unicode decimal digit; `Text.IsDigit` accepts ASCII digits only.
- `getCookie`'s `trim()` removes every Unicode white-space and line-terminator character; `MainJs.IsJsSpace` covers the ASCII ones, no-break space and the byte-order mark.
- `decodeURIComponent` and `toLowerCase` are parameters. A `decodeURIComponent` that throws on a malformed value is not modelled.
- The DOM work of the site script (showing and hiding rows, fetch calls, notifications) is not modelled.
- `MultipleObjectsReturned` from `get_or_create` and `get` is not modelled: the first match is used. With the unique constraints kept, a one-to-one profile lookup has at most one match.
- Foreign keys are not part of `Store.Valid()`. A profile row may point at a user key that is not in the users table, so a registration is also refused when an existing profile already points at the new user's key; a real database's foreign keys rule that case out.
- Cascading deletes are not modelled. The three delete views remove rows with nothing pointing at them in the model.
- SchoolViews.RoutineAccess: a routine whose subject row is missing makes the source raise a server error for a teacher; the model answers `Forbidden`.
- SchoolViews.EditClassRoutine: the `ClassRoutineForm` checks are not modelled. The cleaned form is an input, and `None` means the form was invalid.
- The subject list a teacher is offered on GET is not modelled, because it only affects what the page shows. `SchoolViews.EditMayReassignSubject` records that a POST may save any subject.
- SchoolViews.NoticeBoard: the order among notices created at the same moment is not stated, since `order_by` leaves it to the database.
- SchoolViews.AttendanceView: the order among a student's rows of the same date is not stated.
- SchoolViews.FeesView: the order among fees due the same day is not stated.
- SchoolViews.GalleryView: the order among images uploaded at the same moment is not stated.
- SchoolViews.ContactMessages: the order among messages submitted at the same moment is not stated.
- AccountsViews.Register: when the profile insert is refused, the source raises an integrity error and the saved user is kept without a profile. The model keeps the user and reports `ProfileRejected`; it does not roll the user back.
- A GET on `register` only renders an empty form and is not modelled; `AccountsViews.Register` is the POST.
- The `profile` view (accounts/views.py:74-103) is modelled only through `AccountsForms.UpdateProfile`. Its context part repeats `dashboard`.
- The other views are not part of this model: `home`, `library_management`, `add_notice`, `student_dashboard`, `student_profile`, `add_class_routine`, `about`, `teachers_members`, `add_gallery_image`, `manage_gallery` and `contact`. The notice and contact forms they save are modelled in `SchoolForms`.
- `SchoolInfo`, the admin configuration, the URL routes and the context processor are not part of this model.
- The seeding scripts' printed messages are not modelled, except the counts they report.
- In the sample-data script the password is set in a second save right after a user is created; the model sets it at creation.
