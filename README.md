# Attendance portal: session, dashboards and profile editor in Dafny

This project models the client-side logic of a school attendance portal. The portal is a React application with three roles: student, teacher and admin. The model covers these parts:

- **Session** (`contexts/AuthContext.js`). A signed-in user and a loading flag. Two local-storage entries, `token` and `user`, hold the session across reloads. A mock `login` picks the role by substring tests on the email address. `signup` keeps what it is given. `logout` removes both entries.
- **App shell** (`app/page.js`). The screen shown for the session state, and the dispatch from role to page.
- **Navigation** (`components/Navigation.js`). The menu entries for each role, the theme icon and the mobile-menu flag.
- **Teacher page** (`components/pages/TeacherPage.js`):
  - the class sessions with their scanner switches;
  - the attendance table, filtered by search term, class and date;
  - the overview figures;
  - the choice between the page, a student's detail page and the profile page.
- **Teacher profile** (`components/pages/TeacherProfilePage.js`). The saved profile and an edit copy, with save and cancel. The list fields are edited as comma-separated text. Also modelled: the experience field, the picture shown and the avatar initials.
- **Admin dashboard** (`components/dashboards/AdminDashboard.js`):
  - the user list with its add form (guarded by a name-and-email check), deletion and the active/inactive switch;
  - the system figures and the role icon and badge tables.
- **Student dashboard** (`components/dashboards/StudentDashboard.js`). The document list, with upload (one document per file, typed by MIME type, sized and dated) and deletion, plus the icon for each document type.

Each source file is one module (`Auth`, `App`, `Navigation`, `TeacherPage`, `Profile`, `Admin`, `StudentDashboard`). Some modules are shared:

- `Identity` holds the user record and its stored text form.
- `Text` holds the JavaScript string operations the components use: `includes`, `toLowerCase`, `trim`, `split` and `join`.
- `Numbers` holds decimal text and `parseInt`.
- `Sequences` holds subsequences.
- `Wrappers` holds `Option`.

Component state that the source updates in place is a class. Its fields and `modifies` clauses follow the `useState` hooks. Each handler is a method whose `ensures` ties the new state to a function of the old one. The properties are proved about those functions as lemmas.

JavaScript truthiness is modelled where the source relies on it:

- A storage entry holding `""` counts as absent.
- A selected student id `""` shows no detail page.
- An empty preview falls back to the profile picture.
- `parseInt(...) || 0` maps NaN to 0.

## Model

| member | source | states |
|---|---|---|
| Auth.InferRole | contexts/AuthContext.js:35 | the role is "teacher" exactly when the whole email contains "teacher"; "admin" exactly when it contains "admin" and not "teacher"; "student" otherwise |
| Auth.LoginUser | contexts/AuthContext.js:27-46 | the mock user has id "1", the email as given and the inferred role; the name is John Teacher, Admin User or Jane Student exactly for a teacher, an admin or a student |
| Auth.TeacherExamples | contexts/AuthContext.js:35 | examples: "teacher.jane@x.com" and "admin.teacher@x.com" make teachers, so "teacher" wins even after "admin" |
| Auth.DomainDecidesRole | contexts/AuthContext.js:35 | the domain part decides the role too ("jane@teacher.org" is a teacher) |
| Auth.AdminExample | contexts/AuthContext.js:35 | example: "admin@x.com", with "admin" and without "teacher", makes an admin |
| Auth.StudentExample | contexts/AuthContext.js:35 | example: "jane@x.com", with neither word, makes a student |
| Auth.SignedIn | contexts/AuthContext.js:39-40 | both entries are stored: the mock token and the serialized user; every other key is kept with its value |
| Auth.SignedOut | contexts/AuthContext.js:69-73 | neither session entry remains; every other key is kept with its value |
| Auth.RestoreFrom | contexts/AuthContext.js:10-25 | with both entries stored and a parseable user text, that user is restored and the storage kept, whatever the token; the user changes only in that case; the storage either stays or loses exactly the two entries, and loses them only when both are stored and the user text does not parse, leaving the user as it was |
| Auth.RestoreCorrupt | contexts/AuthContext.js:15-22 | with both entries stored and unparseable user data, both entries are removed, every other entry is kept, and the user stays as it was |
| Auth.RestorePartial | contexts/AuthContext.js:12-15 | with either entry missing or empty, restoring changes neither the user nor the storage |
| Auth.RestoreAfterSignIn | contexts/AuthContext.js:10-25 | restoring from the storage a sign-in wrote yields exactly the signed-in user and keeps the storage |
| Auth.RestoreAfterSignOut | contexts/AuthContext.js:69-73 | after a logout, restoring yields no user |
| Auth.RestoreIdempotent | contexts/AuthContext.js:10-25 | running the start-up effect on its own result changes nothing |
| Auth.SignOutIdempotent | contexts/AuthContext.js:69-73 | logging out twice leaves the storage as logging out once, without either session entry |
| Auth.AuthProvider.constructor | contexts/AuthContext.js:7-8 | no user, loading, over the storage found |
| Auth.AuthProvider.Restore | contexts/AuthContext.js:10-25 | user and storage become `RestoreFrom` of the old ones; loading is over on every path |
| Auth.AuthProvider.Login | contexts/AuthContext.js:27-46 | the user is the mock user of the email; storage gains the mock token and the serialized user; loading is over |
| Auth.AuthProvider.Signup | contexts/AuthContext.js:48-67 | the user is exactly the given id, name, email and role; storage as for login; loading is over |
| Auth.AuthProvider.Logout | contexts/AuthContext.js:69-73 | no user; both session entries removed; the loading flag is untouched |
| Auth.ReloadAfterLogin | contexts/AuthContext.js:27-46 | a fresh provider over the storage a login left restores the same user the login signed in |
| Auth.ReloadAfterSignup | contexts/AuthContext.js:48-67 | a fresh provider over the storage a signup left restores the user as signed up |
| Auth.LogoutTwice | contexts/AuthContext.js:69-73 | a second logout ends in the same state as the first: no user and neither session entry |
| Identity.Serialize | contexts/AuthContext.js:40 | the stored text is an object text between braces, so it is never empty |
| Identity.Parse | contexts/AuthContext.js:17 | whatever is accepted is the stored text of the user returned, so any other text is rejected |
| Identity.ParseSerialize | contexts/AuthContext.js:40 | the stored text of a user reads back as that user |
| App.AppScreen | app/page.js:15-28 | the loading screen exactly while loading; the sign-in form exactly when loaded without a user; otherwise the page for the user's role |
| App.RenderPage | app/page.js:30-41 | the teacher page exactly for "teacher", the admin dashboard exactly for "admin", the student page for every other role, unknown ones included |
| App.ScreenAfterLogin | app/page.js:30-41 | after a mock login, the teacher page shows exactly when the email contains "teacher", and the admin dashboard exactly when it contains "admin" but not "teacher" |
| App.AppContent.constructor | app/page.js:13 | the profile flag starts cleared |
| App.AppContent.ProfileClick | app/page.js:43-47 | a teacher's click sets the flag; any other click, or none without a user, leaves it as it was |
| Navigation.NavItems | components/Navigation.js:33-59 | no user gives no entries; student, teacher and admin get their listed ids in order; any other role gets none; every non-empty menu starts with dashboard then attendance |
| Navigation.ThemeIconFor | components/Navigation.js:63 | Sun exactly for "light", Moon exactly for "dark", Monitor exactly otherwise |
| Navigation.NavigationMenu.constructor | components/Navigation.js:31 | the mobile menu starts closed |
| Navigation.NavigationMenu.ToggleMobileMenu | components/Navigation.js:145 | the flag is negated |
| Navigation.NavigationMenu.ChooseMobileItem | components/Navigation.js:169-172 | the entry's id is the requested view, and the menu is closed |
| TeacherPage.WithAllScanners | components/pages/TeacherPage.js:166-174 | every session gets the new switch value; length, order and all other fields are kept |
| TeacherPage.WithClassScanner | components/pages/TeacherPage.js:176-187 | only sessions with that id change, and only their switch; the others are kept as they were |
| TeacherPage.ClassToggleUnknownId | components/pages/TeacherPage.js:176-187 | an id no session has leaves the list unchanged |
| TeacherPage.CountEnabled | components/pages/TeacherPage.js:212-213 | no more active classes than classes |
| TeacherPage.SumTotal | components/pages/TeacherPage.js:214-217 | the `reduce` sum is never negative when no session's count is |
| TeacherPage.SumPresent | components/pages/TeacherPage.js:218-221 | the `reduce` sum is never negative when no session's count is |
| TeacherPage.OverallStats | components/pages/TeacherPage.js:210-222 | activeClasses never exceeds totalClasses |
| TeacherPage.StatsAfterGlobalToggle | components/pages/TeacherPage.js:210-222 | after the global switch, either all classes are active or none is; both student sums are unchanged |
| TeacherPage.SumsAfterClassToggle | components/pages/TeacherPage.js:214-221 | a class switch leaves both student sums unchanged |
| TeacherPage.PresentAtMostTotal | components/pages/TeacherPage.js:214-221 | if every session has at most as many present as enrolled, so do the sums |
| TeacherPage.InitialStats | components/pages/TeacherPage.js:61-89 | the page opens with 3 classes, none active, 93 students, 75 present |
| TeacherPage.FilterRecords | components/pages/TeacherPage.js:189-208 | no more records than the table, and every record shown matches search, class and date |
| TeacherPage.FilterSpec | components/pages/TeacherPage.js:189-208 | the filtered table keeps table order (a subsequence); a record is in it exactly when it is in the table and matches search, class and date; each matching record keeps its multiplicity and the others occur zero times |
| TeacherPage.MatchesEmptySearch | components/pages/TeacherPage.js:190-196 | an empty search term matches every name, so only class and date decide |
| TeacherPage.FilterKeepsMatching | components/pages/TeacherPage.js:189-208 | when every record matches, the table is shown whole |
| TeacherPage.FilterDropsUnmatched | components/pages/TeacherPage.js:189-208 | when no record matches, nothing is shown |
| TeacherPage.FilterAppend | components/pages/TeacherPage.js:189-208 | filtering a concatenation is the concatenation of the filtered parts |
| TeacherPage.FilterShowsAll | components/pages/TeacherPage.js:189-208 | an empty search with "all" class and "all" dates shows every record |
| TeacherPage.FilterUnknownDate | components/pages/TeacherPage.js:200-205 | a date choice other than all, today and yesterday shows nothing |
| TeacherPage.FilterIgnoresCase | components/pages/TeacherPage.js:190-196 | lower-casing the search term does not change the result |
| TeacherPage.DefaultFilter | components/pages/TeacherPage.js:189-208 | with the opening filters, exactly today's five records are shown |
| TeacherPage.CurrentView | components/pages/TeacherPage.js:239-254 | the detail page shows exactly when a non-empty student id is selected, and for that id; the profile shows exactly when asked for and no student is selected; the sessions page shows exactly when neither |
| TeacherPage.TeacherPageState.constructor | components/pages/TeacherPage.js:53-89 | the page's opening state |
| TeacherPage.TeacherPageState.GlobalScannerToggle | components/pages/TeacherPage.js:166-174 | the flag and every switch follow the new value; all or none active; sums and view state unchanged |
| TeacherPage.TeacherPageState.ClassScannerToggle | components/pages/TeacherPage.js:176-187 | only that class's switch changes; sums and everything else unchanged |
| TeacherPage.TeacherPageState.SetSearchTerm | components/pages/TeacherPage.js:491 | the search term is the typed text, nothing else changes |
| TeacherPage.TeacherPageState.SetSelectedClass | components/pages/TeacherPage.js:497 | the class filter is the chosen value, nothing else changes |
| TeacherPage.TeacherPageState.SetSelectedDate | components/pages/TeacherPage.js:519 | the date filter is the chosen value, nothing else changes |
| TeacherPage.TeacherPageState.StudentClick | components/pages/TeacherPage.js:230-232 | the student is selected, and for a non-empty id the detail page is shown |
| TeacherPage.TeacherPageState.OpenProfile | components/pages/TeacherPage.js:277 | the profile flag is set; with no student or the empty id selected the profile is shown, and otherwise the selected student's page stays |
| TeacherPage.TeacherPageState.BackToTeacherPage | components/pages/TeacherPage.js:234-237 | both the student and the profile are cleared, so the page itself is shown |
| Profile.TrimAll | components/pages/TeacherProfilePage.js:84 | each piece trimmed, same length and order |
| Profile.DropEmpty | components/pages/TeacherProfilePage.js:84 | the result keeps the input order (a subsequence); an item is in it exactly when it is a non-empty item of the input; each non-empty item keeps its multiplicity and the empty string occurs zero times |
| Profile.ParseList | components/pages/TeacherProfilePage.js:84 | every item of the parsed list is non-empty and trimmed |
| Profile.DropEmptyKeepsAll | components/pages/TeacherProfilePage.js:84 | a list without empty items is kept whole |
| Profile.ShowList | components/pages/TeacherProfilePage.js:220-221 | the shown text of a list of trimmed, non-empty, comma-free items parses back to the list |
| Profile.SplitJoined | components/pages/TeacherProfilePage.js:220-221 | splitting the shown text at commas gives the first item, then each other item after one space |
| Profile.TrimPieces | components/pages/TeacherProfilePage.js:84 | trimming those pieces gives the items back |
| Profile.ParseJoined | components/pages/TeacherProfilePage.js:84 | parsing the ", "-joined text of trimmed, non-empty, comma-free items gives the items back |
| Profile.BlankPieces | components/pages/TeacherProfilePage.js:84 | splitting text of commas and white space at commas gives pieces of white space only |
| Profile.ParseListBlanks | components/pages/TeacherProfilePage.js:84 | any text made only of commas and white space parses to no items |
| Profile.WithArrayField | components/pages/TeacherProfilePage.js:85 | the named list field is replaced, every other field kept |
| Profile.ArrayFieldOnly | components/pages/TeacherProfilePage.js:83-86 | the written field holds the items; the other list fields and all non-list fields are unchanged |
| Profile.WithTextField | components/pages/TeacherProfilePage.js:150 | the named text field is replaced, every other field kept |
| Profile.ExperienceFromText | components/pages/TeacherProfilePage.js:281 | NaN from `parseInt` gives 0; otherwise the parsed value |
| Profile.ExperienceOfNumber | components/pages/TeacherProfilePage.js:281 | the decimal text of a number is stored as that number |
| Profile.ExperienceWithoutDigits | components/pages/TeacherProfilePage.js:281 | text without a decimal digit is stored as 0 |
| Profile.CurrentInfo | components/pages/TeacherProfilePage.js:88 | the edit copy while editing, the saved profile otherwise |
| Profile.DisplayImage | components/pages/TeacherProfilePage.js:89 | a set, non-empty preview wins; otherwise the current profile's picture |
| Profile.FirstChars | components/pages/TeacherProfilePage.js:121 | at most one initial per piece |
| Profile.FirstCharsAll | components/pages/TeacherProfilePage.js:121 | of non-empty pieces, exactly the first character of each, in order |
| Profile.Initials | components/pages/TeacherProfilePage.js:121 | no initial is a space; a name starting with a non-space character has initials starting with that character |
| Profile.InitialsOfWords | components/pages/TeacherProfilePage.js:121 | a name of words joined by single spaces has one initial per word, in order |
| Profile.InitialsExample | components/pages/TeacherProfilePage.js:121 | the opening profile's name gives "DSM" |
| Profile.InitialsDoubleSpace | components/pages/TeacherProfilePage.js:121 | a doubled space adds no initial |
| Profile.ProfileEditor.constructor | components/pages/TeacherProfilePage.js:30-55 | not editing, no preview, the saved profile and the edit copy both the opening profile |
| Profile.ProfileEditor.Current | components/pages/TeacherProfilePage.js:88 | the edit copy while editing, the saved profile otherwise; once saved or cancelled, the two agree |
| Profile.ProfileEditor.StartEditing | components/pages/TeacherProfilePage.js:176 | editing starts; the edit copy is not reset |
| Profile.ProfileEditor.Save | components/pages/TeacherProfilePage.js:70-75 | the edit copy becomes the saved profile; not editing; no preview; the profile shown is the edit copy |
| Profile.ProfileEditor.Cancel | components/pages/TeacherProfilePage.js:77-81 | the edit copy reverts to the saved profile, which is unchanged; not editing; no preview |
| Profile.ProfileEditor.ArrayFieldChange | components/pages/TeacherProfilePage.js:83-86 | the named list field of the edit copy becomes the parsed text, whose items are all trimmed and non-empty |
| Profile.ProfileEditor.TextFieldChange | components/pages/TeacherProfilePage.js:150 | the named text field of the edit copy becomes the typed text |
| Profile.ProfileEditor.ExperienceChange | components/pages/TeacherProfilePage.js:281 | the experience of the edit copy becomes `parseInt` of the text, or 0 |
| Profile.ProfileEditor.Image | components/pages/TeacherProfilePage.js:89 | a set, non-empty preview is shown; otherwise the edit copy's picture while editing and the saved picture when not; after save or cancel, the saved picture |
| Admin.FormComplete | components/dashboards/AdminDashboard.js:80 | the form is accepted exactly when both name and email are non-empty |
| Admin.NewManagedUser | components/dashboards/AdminDashboard.js:81-89 | the form's name, email and role; status active; last login "Never"; rate 0 for a student and undefined otherwise |
| Admin.WithoutUser | components/dashboards/AdminDashboard.js:95-97 | order kept (a subsequence); a user remains exactly when it was there and has another id; each remaining user keeps its multiplicity, and rows with that id occur zero times |
| Admin.DeleteAbsent | components/dashboards/AdminDashboard.js:95-97 | deleting an id nobody has is a no-op |
| Admin.FlipStatus | components/dashboards/AdminDashboard.js:102 | "inactive" exactly for "active"; "active" for every other status |
| Admin.WithToggledStatus | components/dashboards/AdminDashboard.js:99-105 | only rows with that id change, and only their status: active becomes inactive, and anything else becomes active |
| Admin.ToggleTwice | components/dashboards/AdminDashboard.js:99-105 | switching the same id twice restores the list when every status is active or inactive |
| Admin.ToggleTwiceUnknownStatus | components/dashboards/AdminDashboard.js:99-105 | a row with that id and a status other than active and inactive has "inactive" after two switches, so the list is not restored |
| Admin.StatusesStayValid | components/dashboards/AdminDashboard.js:79-105 | adding, deleting and switching all keep every status active or inactive |
| Admin.CountActive | components/dashboards/AdminDashboard.js:72 | no more active users than users |
| Admin.CountRole | components/dashboards/AdminDashboard.js:73-74 | no more users of a role than users |
| Admin.Stats | components/dashboards/AdminDashboard.js:70-77 | activeUsers never exceeds totalUsers |
| Admin.StudentsAndTeachersBounded | components/dashboards/AdminDashboard.js:70-77 | students plus teachers never exceed all users |
| Admin.CountsAppend | components/dashboards/AdminDashboard.js:72-74 | appending a row adds one to the counts it matches and nothing to the others |
| Admin.StatsAfterAdd | components/dashboards/AdminDashboard.js:79-92 | a valid add raises the user and active counts by one, and the student count by one exactly for a student |
| Admin.RoleIconFor | components/dashboards/AdminDashboard.js:107-113 | each of the three roles has its icon; any other role has none |
| Admin.RoleBadgeVariant | components/dashboards/AdminDashboard.js:115-121 | destructive for admin, default for teacher, secondary for student; none otherwise |
| Admin.AdminDashboardState.constructor | components/dashboards/AdminDashboard.js:27-68 | the four opening users, all with valid statuses, and the empty form |
| Admin.AdminDashboardState.SetFormName | components/dashboards/AdminDashboard.js:210 | only the form's name changes |
| Admin.AdminDashboardState.SetFormEmail | components/dashboards/AdminDashboard.js:216 | only the form's email changes |
| Admin.AdminDashboardState.SetFormRole | components/dashboards/AdminDashboard.js:218 | only the form's role changes |
| Admin.AdminDashboardState.AddUser | components/dashboards/AdminDashboard.js:79-93 | with an empty name or email, neither the list nor the form changes; otherwise exactly one new user is appended and the form resets; valid statuses stay valid |
| Admin.AdminDashboardState.DeleteUser | components/dashboards/AdminDashboard.js:95-97 | the list loses the rows with that id; valid statuses stay valid |
| Admin.AdminDashboardState.ToggleUserStatus | components/dashboards/AdminDashboard.js:99-105 | the rows with that id switch status; valid statuses stay valid |
| StudentDashboard.Classify | components/dashboards/StudentDashboard.js:68 | image exactly when the MIME type contains "image"; pdf exactly when it contains "pdf" but not "image"; document otherwise |
| StudentDashboard.ClassifyImage | components/dashboards/StudentDashboard.js:68 | "image/png" is an image |
| StudentDashboard.ClassifyPdf | components/dashboards/StudentDashboard.js:68 | "application/pdf" is a pdf |
| StudentDashboard.ClassifyImageFirst | components/dashboards/StudentDashboard.js:68 | example: "image/pdf", which names both, is an image |
| StudentDashboard.ClassifyOther | components/dashboards/StudentDashboard.js:68 | "text/plain" is a plain document |
| StudentDashboard.FileIconFor | components/dashboards/StudentDashboard.js:81-87 | the image icon exactly for images |
| StudentDashboard.SizeTenths | components/dashboards/StudentDashboard.js:69 | the nearest tenth of a MiB, a tie rounding up |
| StudentDashboard.SizeLabel | components/dashboards/StudentDashboard.js:69 | digits without a leading zero (unless the whole part is 0), a point, one digit, then " MB" |
| StudentDashboard.SizeLabelValue | components/dashboards/StudentDashboard.js:69 | `parseInt` of the label is the whole MiB of the rounded size, and its one decimal is the tenths digit |
| StudentDashboard.SizeLabelExamples | components/dashboards/StudentDashboard.js:69 | byte counts that give the opening labels: 2516582 reads "2.4 MB", 1258291 reads "1.2 MB", and 0 reads "0.0 MB" |
| StudentDashboard.UploadDate | components/dashboards/StudentDashboard.js:70 | the date is a prefix of the timestamp without a 'T', followed by a 'T' unless it is the whole timestamp |
| StudentDashboard.UploadDateExample | components/dashboards/StudentDashboard.js:70 | example: "2024-01-20T09:30:00.000Z" gives "2024-01-20" |
| StudentDashboard.NewDocument | components/dashboards/StudentDashboard.js:65-71 | the file's name; the type from its MIME type; the size label; the date of the timestamp; the given id |
| StudentDashboard.NewDocuments | components/dashboards/StudentDashboard.js:64-73 | one document per file, in file order |
| StudentDashboard.NewDocumentsSnoc | components/dashboards/StudentDashboard.js:64-73 | one more file adds its own document at the end |
| StudentDashboard.WithoutDocument | components/dashboards/StudentDashboard.js:77-79 | order kept (a subsequence); a document remains exactly when it was there and has another id; each remaining document keeps its multiplicity, and documents with that id occur zero times |
| StudentDashboard.DeleteAbsentDocument | components/dashboards/StudentDashboard.js:77-79 | deleting an id no document has is a no-op |
| StudentDashboard.DocumentList.constructor | components/dashboards/StudentDashboard.js:31-46 | the two opening documents |
| StudentDashboard.DocumentList.FileUpload | components/dashboards/StudentDashboard.js:61-75 | without a file list nothing changes; otherwise the old documents are followed by one new document per file, in file order |
| StudentDashboard.DocumentList.DeleteDocument | components/dashboards/StudentDashboard.js:77-79 | the list loses the documents with that id |
| Text.ContainsAt | contexts/AuthContext.js:35 | `includes` holds exactly when the search text occurs at some index |
| Text.Contains | contexts/AuthContext.js:35 | a text contains each of its prefixes, and nothing longer than itself |
| Text.ToLower | components/pages/TeacherPage.js:190-196 | same length; no upper-case ASCII letter remains; upper-case letters move to their lower-case form and every other character stays |
| Text.ToLowerIdempotent | components/pages/TeacherPage.js:190-196 | lower-casing twice is lower-casing once, and leaves no upper-case ASCII letter |
| Text.Trim | components/pages/TeacherProfilePage.js:84 | the result has no white space at either end, and it is a slice of the input with only white space outside it |
| Text.TrimIdempotent | components/pages/TeacherProfilePage.js:84 | trim is idempotent, and its fixed points are exactly the trimmed strings |
| Text.TrimBlank | components/pages/TeacherProfilePage.js:84 | white space alone trims to the empty string |
| Text.Split | components/pages/TeacherProfilePage.js:84 | at least one piece, and no piece holds the separator |
| Text.SplitFirst | components/dashboards/StudentDashboard.js:70 | the first piece is a prefix of the text, and the separator follows it unless it is the whole text |
| Text.Join | components/pages/TeacherProfilePage.js:220-221 | no items join to ""; the join starts with the first item, and the separator follows it when there are more |
| Text.JoinSplit | components/pages/TeacherProfilePage.js:84 | joining the pieces with the separator restores the text |
| Text.SplitJoinPadded | components/pages/TeacherProfilePage.js:220-221 | splitting a join whose separator is followed by padding gives the items back, each after the first carrying the padding |
| Text.JoinThenSplit | components/pages/TeacherProfilePage.js:121 | for a non-empty list of separator-free items, splitting their join restores the items |
| Numbers.NatToString | components/dashboards/StudentDashboard.js:69 | a non-empty run of decimal digits |
| Numbers.ParseInt | components/pages/TeacherProfilePage.js:281 | text without a decimal digit is NaN; a negative result comes only from text whose first non-blank character is "-" |
| Numbers.ParseIntNatToStringThen | components/pages/TeacherProfilePage.js:281 | `parseInt` reads the decimal text of n as n when what follows starts with neither a digit nor x/X |
| Numbers.ParseIntNatToString | components/pages/TeacherProfilePage.js:281 | `parseInt` of the decimal text of n is n |

## Left out

- `components/AttendanceScanner.js` (camera, timers, random outcome) and `contexts/ThemeContext.js` (DOM and media-query plumbing) are not part of this model. The theme reaches the model only as the string `ThemeIconFor` reads.
- The floating-point attendance percentage (`components/pages/TeacherPage.js:224-228`) is not modelled. The document size label is modelled exactly: dividing a byte count by 2^20 is exact in a double, so `toFixed(1)` sees the exact quotient.
- Clock and random values are parameters: the `Date.now()`/`Math.random()` ids and the ISO timestamp of an upload. `ids[i]` and `isos[i]` of `FileUpload` stand for the readings taken for file i.
- The `FileReader` image loading (`components/pages/TeacherProfilePage.js:57-68`) is not modelled. Its preview is the only writer of a non-empty preview, so the preview appears here only as state that `Save` and `Cancel` clear and that `DisplayImage` reads.
- Not modelled: toasts, console logging, animation, JSX markup and the static mock data of the pages that have no logic.
- `login` and `signup` are sequential methods. Nothing in them is awaited, and their `catch` branches cannot be reached by the mock. The `password` argument is accepted and ignored, as in the source.
- JSON is represented by a JSON-shaped encoding of the user record only: string values with `"` and `\` escaped. `Identity.Parse` accepts exactly the output of `Identity.Serialize`. General JSON, control-character escapes and `JSON.parse` results that are not user objects are out of scope.
- Numbers.ParseInt: the digit value is an unbounded integer. For more than about 15 significant digits, JavaScript rounds to a double, and this is not modelled.
- Profile.Initials: a name is a sequence of whole characters, where JavaScript's `n[0]` takes one UTF-16 code unit. For a name piece that starts outside the Basic Multilingual Plane, the source shows half a surrogate pair and the model shows the whole character.
- Text.ToLower: only ASCII letters are folded. JavaScript's `toLowerCase` also folds the rest of Unicode.
- Auth.InferRole: the role is decided by substring tests on the whole email address, domain included, because that is what `contexts/AuthContext.js:33-35` does.
- App.AppContent.ProfileClick: `showTeacherProfile` is set but never read by `app/page.js`, so the model has no screen that depends on it.
- Profile.ProfileEditor.ArrayFieldChange, Profile.ProfileEditor.TextFieldChange and Profile.ProfileEditor.ExperienceChange require `isEditing`, because the source renders their inputs only in edit mode.
- Admin.ToggleTwice holds only for the statuses "active" and "inactive". `Admin.ToggleTwiceUnknownStatus` shows that a third status is not restored, and `Admin.StatusesStayValid` shows that the dashboard never produces one.
- `getRoleIcon` and `getRoleBadgeVariant` return `undefined` for an unknown role. In the model this is `None`.
