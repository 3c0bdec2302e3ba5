# Catechesis management front end — a Dafny model

This project models the core logic of a web application that runs a
Confirmation catechesis programme: seven student groups, their rosters, and
the catechists who teach them. The application is a single-page front end
whose pages read and write a hosted database. The model keeps the logic that
decides what those pages compute and store, and leaves the rendering and the
database client out.

What is modelled:

- **Utilities.**
  - CSV export (field escaping, header and row lines), with a parser that
    proves the export round-trips.
  - The role-based permission table.
  - Attendance and finance analytics: the attendance rate, monthly totals,
    outstanding payments and per-group counts.
  - Input validators.
  - The local-storage cache with a time-to-live, as a class over a key/value
    store.
  - Name capitalisation and string normalisation.
- **Static data.**
  - The group list and the example rosters.
  - The document types and the session labels (`getCatequesisLabel`).
  - The catechist list and its group-by reduction.
- **Per-cell tracking tables.** These are attendance, documents, letters
  (cartas), sheets (sábanas) and payments. Each is a map from a student and
  a column to a value, loaded from database rows and updated one cell at a
  time. Every update writes one row, and the model states which row.
- **Catechist attendance.**
  - The catechist attendance grid of a group.
  - The formation attendance sheet.
  - The catechist module's name list, grid and writes.
- **The income and expense ledgers.**
  - Forms: validation, insert versus update, and reset.
  - Totals and per-category summaries.
  - Filters.
  - The receipt upload path.
- **Page scoping.**
  - Which groups and tiles a user is offered.
  - How the pages pick, load and filter rosters.
  - How a student's detail page assembles its data.

Environment effects are parameters of the model. These are the current time,
the success or failure of a database or storage call, the rows a query
returns, and the answers to confirmation dialogs. A method that performs a
call takes the call's outcome as an argument and states the new page state
for each outcome.

## Model

| member | source | states |
|---|---|---|
| CsvExport.EscapeCSV | src/utils/export.js:2-9 | a missing value gives the empty field; a text without quote, comma or newline is kept as is; any other text is wrapped in quotes and its inner part un-doubles to the text |
| CsvExport.DoubleQuotesChars | src/utils/export.js:6 | doubling the quotes neither adds nor loses any character: a character occurs in the result exactly when it occurs in the text |
| CsvExport.UndoubleDoubled | src/utils/export.js:6 | halving doubled quotes undoes the doubling, for every text |
| CsvExport.EscapeRoundTrip | src/utils/export.js:2-9 | un-escaping an escaped field gives back the value's text (empty for a missing value) |
| CsvExport.QuotedRoundTrip | src/utils/export.js:5-7 | reading a quoted field stops at its closing quote and returns the original text, whatever follows when it does not start with a quote |
| CsvExport.BareRoundTrip | src/utils/export.js:8 | a field without comma or newline reads back unchanged up to the next separator |
| CsvExport.FieldRoundTrip | src/utils/export.js:2-9 | every escaped field, followed by a separator or the end, reads back as its text and leaves the rest untouched |
| CsvExport.QuotedFieldRoundTrip | src/utils/export.js:5-7 | the quoted branch of the escaping reads back as its text |
| CsvExport.BareFieldRoundTrip | src/utils/export.js:3-8 | the unquoted branches of the escaping (missing value, plain text) read back as their text |
| CsvExport.LineRoundTrip | src/utils/export.js:14-16 | a comma-joined line of escaped fields reads back as the list of their texts, one per column |
| CsvExport.LinesRoundTrip | src/utils/export.js:18 | newline-joined lines read back as one record per line, each holding that line's texts |
| CsvExport.HeaderLine | src/utils/export.js:12 | the first line holds, column by column, the header or else the key |
| CsvExport.RowLine | src/utils/export.js:13-17 | line j+1 holds exactly one field per column, the text of row j's value under that column's key |
| CsvExport.ToCSVRoundTrip | src/utils/export.js:11-19 | reading the CSV text back gives one record per row plus the header, the header's texts first and each row's texts in column order |
| Permissions.IsAdmin | src/utils/permissions.js:34-36 | true exactly for the roles admin and logistica |
| Permissions.IsGroupRole | src/utils/permissions.js:4-7 | true exactly for a non-empty role that is not an administrative one |
| Permissions.CanAccess | src/utils/permissions.js:9-26 | a module outside the table is refused; group roles reach exactly attendance, documents and students; admin roles reach exactly the modules in the table; the empty role reaches nothing |
| Permissions.RequireAccess | src/utils/permissions.js:28-32 | access is granted exactly when CanAccess holds, and a refusal carries the message naming the module |
| Permissions.FinancieroIsGroupRole | src/utils/permissions.js:2-26 | the role financiero counts as a group role: it reaches attendance but neither gastos nor ingresos |
| Analytics.PresentCount | src/utils/analytics.js:4 | the number of present records never exceeds the number of records |
| Analytics.RoundedPercentage | src/utils/analytics.js:5 | the rounded percentage lies in 0..100 and within half a unit of 100·present/total |
| Analytics.AttendanceRate | src/utils/analytics.js:2-6 | a missing or empty list gives 0; otherwise the result is the present share in percent, rounded to the nearest integer |
| Analytics.MonthKeyInjective | src/utils/analytics.js:13 | two different year-month pairs never share a key (the month is padded to two digits) |
| Analytics.Pad2 | src/utils/analytics.js:13 | the padded month is always two characters long |
| Analytics.TotalsMeaning | src/utils/analytics.js:8-19 | the totals map has a key exactly for the months of the valid transactions, each holding the sum of that month's amounts |
| Analytics.MonthlyTotals | src/utils/analytics.js:8-19 | the loop builds exactly that map: one key per month with a valid transaction, holding its sum |
| Analytics.Remaining | src/utils/analytics.js:31 | never negative; zero exactly when the amount paid reaches the expected one; otherwise it adds up to the expected amount |
| Analytics.PaidMapMeaning | src/utils/analytics.js:23-28 | the paid map has a key exactly for the ids of the counted payments, holding the sum of their amounts |
| Analytics.PaidPerStudent | src/utils/analytics.js:22-28 | the loop yields the distinct ids in first-seen order and, for each, the sum of its counted payments |
| Analytics.OutstandingPayments | src/utils/analytics.js:21-35 | one entry per distinct paying id, in first-seen order and without duplicates, with the amount paid and the amount still due against the expected amount (50000 by default) |
| Analytics.Groups | src/utils/analytics.js:40 | one group name per student |
| Analytics.GroupStats | src/utils/analytics.js:37-44 | a key exactly for each group present (Sin grupo for a student without one), holding the number of its students |
| Analytics.GroupStatsTotal | src/utils/analytics.js:37-44 | the per-group counts add up to the number of students |
| Validation.Required | src/utils/validation.js:2-7 | null and undefined fail; a string passes exactly when it has a non-space character; an array passes exactly when non-empty; any other value passes |
| Validation.IndexOf | src/utils/validation.js:11 | the first position of a character, or -1 when it does not occur |
| Validation.EmailShapeMatchesPattern | src/utils/validation.js:11 | the decomposition into local part, domain and top-level part of at least two UTF-16 code units accepts exactly the strings the e-mail pattern accepts |
| Validation.LowerKeepsPattern | src/utils/validation.js:12 | lower-casing neither makes nor breaks a match of the e-mail pattern |
| Validation.IsEmail | src/utils/validation.js:9-13 | true exactly for a non-empty string that matches the e-mail pattern, whose last part is counted in UTF-16 code units |
| Validation.Digits | src/utils/validation.js:17 | keeps only digits and is never longer than the input |
| Validation.DigitsMeaning | src/utils/validation.js:17 | the result keeps the input's order and holds each digit exactly as often as the input does |
| Validation.DigitsCount | src/utils/validation.js:17 | the result has one character per digit position of the input |
| Validation.IsPhoneCR | src/utils/validation.js:15-20 | true exactly for a non-empty text with exactly eight digit positions |
| Validation.PhoneExamples | src/utils/validation.js:15-20 | `8888-8888` passes and `8888-888` does not |
| Validation.IsCedulaCR | src/utils/validation.js:22-27 | true exactly for a non-empty text with nine to twelve digit positions |
| Validation.SeparatorsIgnored | src/utils/validation.js:17-26 | inserting a non-digit character anywhere in a text never changes either verdict |
| Validation.PhoneIsNotCedula | src/utils/validation.js:15-27 | no string is both a valid phone number and a valid identity number |
| Validation.IsPositiveAmount | src/utils/validation.js:29-32 | true exactly for a number greater than zero |
| Validation.MaxLength | src/utils/validation.js:34-37 | a non-string fails; a string passes exactly when its length in UTF-16 code units is at most the limit |
| Validation.AstralCountsTwice | src/utils/validation.js:9-37 | a character above U+FFFF counts as two: an emoji alone fails a limit of one, and it completes a two-unit top-level part of an e-mail address |
| Validation.MaxLengthMonotone | src/utils/validation.js:34-37 | a value within a limit is also within any larger limit |
| Storage.MakeKey | src/utils/storage.js:47-49 | the stored key is the namespace, a colon, then the key |
| Storage.ExpiresAt | src/utils/storage.js:52-55 | no positive time-to-live gives 0 (never expires); otherwise now plus the time-to-live |
| Storage.Expired | src/utils/storage.js:68 | an entry without an expiry never expires; an entry with one expires only strictly after that instant |
| Storage.Write | src/utils/storage.js:51-61 | the key holds the new value with its expiry, the other keys keep their entries, and no other key appears |
| Storage.Read | src/utils/storage.js:63-76 | an absent key or an expired entry gives the fallback; otherwise the stored value |
| Storage.Evict | src/utils/storage.js:68-69 | after a read the key holds no expired entry, and every other key is unchanged |
| Storage.Cache.constructor | src/utils/storage.js:46 | a cache is bound to its namespace and its store |
| Storage.Cache.Set | src/utils/storage.js:51-61 | a write that succeeds stores the value and its expiry under the namespaced key; a failed write leaves the store unchanged |
| Storage.Cache.Get | src/utils/storage.js:63-76 | when the read succeeds, returns what Read gives and removes the entry exactly when it has expired; when reading, parsing or removing throws, returns the fallback and removes nothing |
| Storage.Cache.Clear | src/utils/storage.js:78-84 | removes the namespaced key and nothing else; when `removeItem` throws, nothing changes |
| Storage.NoTtlNeverExpires | src/utils/storage.js:54 | an entry written without a positive time-to-live is read back at any later time, and is never evicted |
| Storage.SetThenGet | src/utils/storage.js:51-76 | reading a key before its expiry returns the value last written to it |
| Storage.ExpiredIsGone | src/utils/storage.js:68-70 | after its expiry an entry reads as the fallback, is evicted, and stays gone |
| Storage.LastWriteWins | src/utils/storage.js:51-61 | writing a key twice is the same as writing only the second value |
| Storage.OtherKeysUntouched | src/utils/storage.js:51-84 | writing, evicting or clearing one key never changes what another key reads |
| Storage.ClearedIsGone | src/utils/storage.js:78-81 | a cleared key reads as the fallback |
| Storage.NamespacesIsolated | src/utils/storage.js:47-49 | keys of two namespaces without colons never collide |
| Storage.NamespacesWithColonCollide | src/utils/storage.js:47-49 | a namespace a with key b:c and a namespace a:b with key c share one stored key |
| Format.NextSpace | src/utils/format.js:52 | the end of the word starting at a position: no space before it, a space or the end at it |
| Format.SkipSpaces | src/utils/format.js:52 | the start of the next word: only spaces before it, no space or the end at it |
| Format.SplitWs | src/utils/format.js:52 | splitting on runs of whitespace gives pieces without spaces, only the first and last of which may be empty |
| Format.SplitWsRebuilds | src/utils/format.js:52 | the pieces of the split, put back together with a non-empty run of whitespace between each two, give back the text exactly |
| Format.CutKeepsNonSpace | src/utils/format.js:52 | pieces without spaces, cut out of a text at runs of whitespace, hold exactly its non-space characters in order |
| Format.SplitWsKeepsNonSpace | src/utils/format.js:52 | the pieces of the split, joined with nothing between them, are the text with its whitespace removed: no character is lost, added or reordered |
| Format.SplitJoin | src/utils/format.js:52-54 | splitting words joined by single spaces gives back the same words |
| Format.SplitKeepsLower | src/utils/format.js:51-52 | splitting a lower-case text gives lower-case words |
| Format.CapWord | src/utils/format.js:53 | capitalising a word keeps its length and adds no space |
| Format.LowerJoin | src/utils/format.js:51-54 | lower-casing a space-joined text is the same as joining the lower-cased words |
| Format.LowerCapWord | src/utils/format.js:53 | lower-casing a capitalised lower-case word gives back the word |
| Format.CapitalizeName | src/utils/format.js:48-55 | a missing or empty name gives the empty string; otherwise the result is never longer than the name |
| Format.SplitLength | src/utils/format.js:51-54 | capitalising the words and joining them with single spaces never lengthens the text |
| Format.CapitalizeWords | src/utils/format.js:48-55 | the words of the result are the words of the lower-cased name, each capitalised |
| Format.CapitalizeIdempotent | src/utils/format.js:48-55 | capitalising an already capitalised name changes nothing |
| Format.StripMarks | src/utils/format.js:61 | the result holds no combining mark (U+0300 to U+036F) |
| Format.NormalizeString | src/utils/format.js:57-64 | a missing or empty string gives the empty string; the result is lower-case, without combining marks, and without leading or trailing spaces |
| Format.TrimKeepsLowerNoMarks | src/utils/format.js:62-63 | trimming keeps a text lower-case and free of combining marks |
| Grupos.RosterOf | src/data/grupos.js:14-71 | a group has a roster exactly when it is one of the seven groups |
| Grupos.GruposDataShape | src/data/grupos.js:2-71 | seven distinct group names; the example data has an entry exactly for each group, named after it, whose students' ids equal their keys |
| Grupos.TiposDocumentosDistinct | src/data/grupos.js:74-81 | six document types with distinct ids |
| Grupos.Label | src/data/grupos.js:91-107 | indices 11, 20 and 24 and only they are the two retreats and the rehearsal; every other index is ordinary session number index minus the special sessions before it |
| Grupos.LabelTextInjective | src/data/grupos.js:91-107 | two different labels never print the same text |
| Grupos.FirstLetter | src/data/grupos.js:91-107 | a label's text starts with C exactly when it names an ordinary session |
| Grupos.SessionNumbering | src/data/grupos.js:83-107 | the 25 sessions carry 25 distinct labels; the ordinary ones are numbered 0 to 21 and each of those numbers is used |
| Grupos.IndicesPastTheEnd | src/data/grupos.js:104-105 | an index at or past 25 still yields an ordinary label, its index minus three |
| CatequistasData.Nombres | src/data/catequistas.js:43 | the names, one per catechist, in catalogue order |
| CatequistasData.NombresCatequistas | src/data/catequistas.js:43 | the catalogue's names, one per catechist, in catalogue order |
| CatequistasData.PorGrupo | src/data/catequistas.js:46-48 | the catechists of a group in catalogue order: all of them and no others; none for a group nobody belongs to |
| CatequistasData.GetCatequistasPorGrupo | src/data/catequistas.js:46-48 | the catalogue's catechists of a group, in catalogue order, all of them and no others |
| CatequistasData.PorGrupoLength | src/data/catequistas.js:46-48 | a group's list is as long as the number of its catechists |
| CatequistasData.AgruparMeaning | src/data/catequistas.js:51-57 | the reduction has a key exactly for each group present, holding the names of its catechists in catalogue order |
| CatequistasData.CatequistasPorGrupo | src/data/catequistas.js:51-57 | the loop builds exactly that map |
| CatequistasData.GroupsPartitionCatalogue | src/data/catequistas.js:46-57 | each catechist is listed under their own group and under no other, and the group sizes add up to the catalogue's size |
| CatequistasData.CatalogueGroups | src/data/catequistas.js:2-40 | thirty catechists, each in one of the seven groups or in Formación, which is not one of the seven |
| Rosters.Lookup | src/components/Sabanas.jsx:48 | a key finds a student exactly when the roster holds that key, and then the student stored under it |
| Estados.FromText | src/components/Catequistas.jsx:29 | a stored text reads as one of the three cycle states exactly when it is ausente, presente or justificado |
| Estados.TextRoundTrip | src/components/Catequistas.jsx:29 | a state survives being stored as text and read back, and every text survives being read and written |
| Estados.Current | src/components/Catequistas.jsx:49 | a missing cell (or an empty text) counts as ausente; any other cell is its own state |
| Estados.Ciclo | src/components/Catequistas.jsx:51-57 | each cycle state moves to a different cycle state; any other text moves to a missing state |
| Estados.Siguiente | src/components/Catequistas.jsx:49-57 | a click on a missing cell or a cycle state writes a different cycle state than the one shown; any other stored text writes a missing state |
| Estados.CicloOrbit | src/components/Catequistas.jsx:51-55 | three clicks bring a cycle state back, passing through the two others |
| Estados.MissingActsAsAusente | src/components/Catequistas.jsx:49-57 | a missing cell moves to presente, like ausente |
| Estados.ClicksStayInCycle | src/components/Catequistas.jsx:48-82 | from a missing cell or a cycle state, a click lands in the cycle, and three clicks restore the state shown |
| Estados.Mostrar | src/components/Catequistas.jsx:158-170 | the red ausente cell is shown exactly for states other than presente and justificado |
| Entregas.InitFlags | src/components/Cartas.jsx:13-16 | every listed student starts with a false flag, and nobody else is listed |
| Entregas.LastFlag | src/components/Cartas.jsx:26-30 | the flag of a student's last row in the rows, or none when the student has no row |
| Entregas.FlagsMeaning | src/components/Cartas.jsx:10-31 | after loading, the listed students are exactly the roster's, each holding their last row's flag or false |
| Entregas.LoadFlags | src/components/Cartas.jsx:10-31 | the loop builds exactly that map |
| Entregas.Entregadas | src/components/Cartas.jsx:94 | never more delivered flags than flags |
| Entregas.EntregadasAtMostKeys | src/components/Cartas.jsx:94-101 | right after a load the delivered count is at most the number of roster entries |
| Cartas.Cartas.constructor | src/components/Cartas.jsx:4-6 | the component starts with an empty flag map, bound to its group, roster and table |
| Cartas.Cartas.LoadCartas | src/components/Cartas.jsx:8-45 | with no group nothing loads; otherwise the flags are those of the roster's ids overwritten by this group's rows, or all false when the query fails |
| Cartas.Cartas.HandleCheckboxChange | src/components/Cartas.jsx:47-76 | on success the table row (group, id) and the local flag both take the negated flag; on failure nothing changes |
| Cartas.Cartas.TotalEntregadas | src/components/Cartas.jsx:94 | the delivered count never exceeds the number of flags |
| Cartas.LoadedTotalAtMostRoster | src/components/Cartas.jsx:94-101 | right after a load the counter never shows more deliveries than students |
| Cartas.ToggleKeepsKeys | src/components/Cartas.jsx:68-71 | toggling a listed student keeps the listed students and the count bound |
| Sabanas.Sabanas.constructor | src/components/Sabanas.jsx:4-6 | the component starts with an empty flag map, bound to its group, roster and table |
| Sabanas.Sabanas.LoadSabanas | src/components/Sabanas.jsx:8-43 | with no group nothing loads; otherwise the flags are those of the roster's keys overwritten by this group's rows, or all false when the query fails |
| Sabanas.Sabanas.HandleCheckboxChange | src/components/Sabanas.jsx:45-76 | for a key in the roster, success writes the row (group, key) with the student's name and the negated flag, and sets the local flag; failure, or a key outside the roster, changes nothing |
| Sabanas.Sabanas.TotalEntregadas | src/components/Sabanas.jsx:94 | the delivered count never exceeds the number of flags |
| Sabanas.LoadedTotalAtMostRoster | src/components/Sabanas.jsx:94-101 | right after a load the counter never shows more deliveries than students |
| Sabanas.KeyingDiffers | src/components/Sabanas.jsx:12-28 | when ids equal keys, keying the flags by key (as here) or by id (as for letters) agrees; when they differ, a row for the key is picked up here but would be missed by id |
| Attendance.Snapshot | src/components/Attendance.jsx:18-23 | one row per roster key, holding that student's stored attendance, empty when none is stored |
| Attendance.FullAttendance | src/components/Attendance.jsx:103-105 | a student marked on every date counts every date |
| Attendance.NoAttendance | src/components/Attendance.jsx:103-105 | a student marked on no date counts zero |
| Attendance.Asistencia.constructor | src/components/Attendance.jsx:6-8 | the component starts with an empty grid, bound to its group, roster and store |
| Attendance.Asistencia.LoadAsistencias | src/components/Attendance.jsx:10-30 | with a group and a successful read the grid is the store's snapshot of the roster; otherwise it stays as it was |
| Attendance.Asistencia.HandleCheckboxChange | src/components/Attendance.jsx:32-53 | on success the stored cell and the local cell both take the negated value (missing = unchecked); on failure nothing changes |
| Attendance.Asistencia.Total | src/components/Attendance.jsx:103-105 | a student's count never exceeds the number of dates |
| Attendance.ToggleFlips | src/components/Attendance.jsx:33-48 | a toggle flips that one cell and no other |
| Documents.EmptyRows | src/components/Documents.jsx:14-16 | one empty row per roster key and no other rows |
| Documents.LastRow | src/components/Documents.jsx:28-32 | the flag of the last row for a student and a document, or none when there is no such row |
| Documents.LoadedMeaning | src/components/Documents.jsx:9-33 | after loading, the rows are exactly the roster's keys, and each cell holds the flag of its last row in the data, or nothing |
| Documents.LoadGrid | src/components/Documents.jsx:9-35 | the loop builds exactly that grid |
| Documents.Documentos.constructor | src/components/Documents.jsx:5-7 | the component starts with an empty grid, bound to its group, roster and table |
| Documents.Documentos.LoadDocumentos | src/components/Documents.jsx:9-47 | with no group nothing loads; otherwise the grid is the roster's keys filled from this group's rows, or empty rows when the query fails |
| Documents.Documentos.HandleCheckboxChange | src/components/Documents.jsx:49-86 | for a key in the roster, success writes the row (group, key, document) with the student's name and the negated flag, and sets that one cell; failure, or a key outside the roster, changes nothing |
| AsistenciaCatequistas.RowNames | src/components/Catequistas.jsx:24-25 | the catechist name of each row, in row order |
| AsistenciaCatequistas.LastEstado | src/components/Catequistas.jsx:24-30 | the state of the last row for a catechist and a date, or none when there is no such row |
| AsistenciaCatequistas.StateOfCell | src/components/Catequistas.jsx:13-30 | the loaded grid has a row exactly for the names that occur in the rows, and each cell holds the state of its last row |
| AsistenciaCatequistas.MergeNames | src/components/Catequistas.jsx:23-31 | the name list becomes the old names followed by the new names from the rows, without duplicates and in first-seen order |
| AsistenciaCatequistas.FillState | src/components/Catequistas.jsx:24-30 | the loop builds exactly the grid of last states |
| CatequistasGrupo.LoadedOnlyGroup | src/components/Catequistas.jsx:15-18 | every loaded cell comes from a row of the table for this group, with that name, date and state |
| CatequistasGrupo.Tabla.constructor | src/components/Catequistas.jsx:5-9 | the grid starts empty, the names start as the three placeholder catechists, and the input starts empty |
| CatequistasGrupo.Tabla.LoadCatequistas | src/components/Catequistas.jsx:11-46 | with no group nothing loads; a successful query adds the new names after the old ones and sets the grid from this group's rows; a failed one empties the grid and keeps the names |
| CatequistasGrupo.Tabla.HandleEstadoChange | src/components/Catequistas.jsx:48-86 | on success the row (group, name, date) and the local cell both take the next state in the cycle (a missing cell counts as ausente); on failure nothing changes |
| CatequistasGrupo.Tabla.SetNuevoNombre | src/components/Catequistas.jsx:124 | the input holds the typed text |
| CatequistasGrupo.Tabla.AgregarCatequista | src/components/Catequistas.jsx:88-98 | a trimmed name that is new and not empty is appended with an empty row, and the input is cleared; otherwise nothing changes; names stay free of duplicates |
| CatequistasGrupo.Tabla.Vista | src/components/Catequistas.jsx:157-170 | a cell shows green exactly for presente, yellow exactly for justificado, and red for anything else or nothing |
| FormacionAsistencia.FindPersona | src/components/FormacionAsistencia.jsx:55 | the first persona with that name, or none when no persona has it |
| FormacionAsistencia.DefaultGrid | src/components/FormacionAsistencia.jsx:36-42 | one row per persona, each holding ausente for formaciones 1 to 15 and nothing else |
| FormacionAsistencia.LastRowMeaning | src/components/FormacionAsistencia.jsx:53-59 | the state a cell is overwritten with is that of the last row landing on it (the first persona with the row's name, the row's number), or none when no row lands there |
| FormacionAsistencia.LoadedCell | src/components/FormacionAsistencia.jsx:34-63 | a loaded cell holds its last landing row's state; failing that ausente for a persona and a formación 1 to 15; failing that nothing |
| FormacionAsistencia.LoadedRows | src/components/FormacionAsistencia.jsx:37-42 | the loaded grid has exactly one row per persona |
| FormacionAsistencia.UnknownRowIgnored | src/components/FormacionAsistencia.jsx:55-56 | a row whose name is no persona's leaves the grid unchanged |
| FormacionAsistencia.PresentesAtMostFifteen | src/components/FormacionAsistencia.jsx:170-174 | when every row's formación number lies in 1 to 15, no persona counts more than fifteen presences |
| FormacionAsistencia.Grilla.constructor | src/components/FormacionAsistencia.jsx:5-8 | the grid starts empty, bound to its personas and table |
| FormacionAsistencia.Grilla.LoadAsistencias | src/components/FormacionAsistencia.jsx:29-81 | with no personas nothing loads; a successful select gives the default grid overlaid with the rows; a failed one gives the default grid |
| FormacionAsistencia.Grilla.HandleEstadoChange | src/components/FormacionAsistencia.jsx:83-124 | for a known persona, success writes the row (name, number) and the local cell with the next state in the cycle; otherwise nothing changes |
| FormacionAsistencia.Grilla.Presentes | src/components/FormacionAsistencia.jsx:170-174 | a persona's presence count never exceeds the number of their cells |
| CatequistasModule.Persist | src/pages/CatequistasModule.jsx:100-130 | when the lookup succeeds and exactly one row exists for the name and date, that row takes the new state and no row is added; otherwise a row in group General is inserted, and the write fails when that (General, name, date) key is taken; on success rows for other names or dates are kept |
| CatequistasModule.SeveralRowsNotUpdated | src/pages/CatequistasModule.jsx:102-128 | with two rows for one name and date the lookup finds nothing, so no row is updated: a General row is inserted, or the write fails when a General row exists |
| CatequistasModule.Modulo.constructor | src/pages/CatequistasModule.jsx:5-51 | the page starts with the built-in catechist names, an empty grid and an empty input |
| CatequistasModule.Modulo.LoadCatequistas | src/pages/CatequistasModule.jsx:53-87 | the names become the old names followed by the new ones from all rows, without duplicates (unchanged when the query fails); the grid becomes the rows' last states, or empty when the query fails |
| CatequistasModule.Modulo.HandleEstadoChange | src/pages/CatequistasModule.jsx:89-150 | when the write reaches the table and Persist accepts it, the table becomes Persist's result and the local cell takes the next state in the cycle; otherwise nothing changes |
| CatequistasModule.Modulo.SetNuevoNombre | src/pages/CatequistasModule.jsx:232 | the input holds the typed text |
| CatequistasModule.Modulo.AgregarCatequista | src/pages/CatequistasModule.jsx:178-194 | an empty trimmed name changes nothing; a known one only clears the input; a new one is appended with an empty row and the input cleared; names stay free of duplicates |
| CatequistasModule.LoadedNamesDistinct | src/pages/CatequistasModule.jsx:56-76 | the merged name list has no duplicates and keeps every old name |
| GastosFinancieros.CategoriasDistintas | src/components/GastosFinancieros.jsx:19-26 | the six expense categories have distinct values |
| GastosFinancieros.Datos | src/components/GastosFinancieros.jsx:59-63 | the saved expense keeps the form's concept, category, payer and description, takes today for an empty date, reads an integer typed as the amount as that integer, and an empty amount as null |
| GastosFinancieros.FormularioDe | src/components/GastosFinancieros.jsx:92-101 | an expense without an amount gives no form; otherwise the form shows its fields, a missing description as empty, and a non-empty amount text (`GastosFinancieros.EditRoundTrip` shows it reads back as the amount) |
| GastosFinancieros.EditRoundTrip | src/components/GastosFinancieros.jsx:59-103 | for an expense with an amount and a date, loading it into the form and saving it again gives back the same expense, with a missing description saved as empty; the form is complete exactly when the concept is non-empty |
| GastosFinancieros.Guardado | src/components/GastosFinancieros.jsx:65-82 | when editing, the set of ids is kept and the edited expense takes the new data; otherwise a fresh id is added holding the new data; every other expense is kept |
| GastosFinancieros.TotalGastos | src/components/GastosFinancieros.jsx:136 | zero for no expenses; with no negative amount, never negative and at least each expense's amount |
| GastosFinancieros.PorCategoria | src/components/GastosFinancieros.jsx:138-143 | one total per category in display order, each the sum of the amounts of the expenses filtered to that category |
| GastosFinancieros.CategoriasCuadran | src/components/GastosFinancieros.jsx:136-143 | with every expense in a listed category, there is one total per category, each the sum of that category's amounts, and the totals add up to the overall total |
| GastosFinancieros.Buscar | src/components/GastosFinancieros.jsx:146 | the first category with that value, or none when no category has it |
| GastosFinancieros.ColorDe | src/components/GastosFinancieros.jsx:145-148 | a listed category gets its own colour; any other value gets gray |
| GastosFinancieros.Gastos.constructor | src/components/GastosFinancieros.jsx:5-17 | the page starts loading, with no expenses, the form closed and not editing, and an empty form dated today and paid by the user |
| GastosFinancieros.Gastos.LoadGastos | src/components/GastosFinancieros.jsx:32-48 | a successful query replaces the list; a failed one keeps it; loading ends either way |
| GastosFinancieros.Gastos.ResetForm | src/components/GastosFinancieros.jsx:123-134 | the form is emptied (dated today, paid by the user), editing ends and the form closes |
| GastosFinancieros.Gastos.HandleSubmit | src/components/GastosFinancieros.jsx:50-90 | with a concept and an amount and a successful write, the table changes as Guardado says and the form is reset; an incomplete form or a failed write changes nothing |
| GastosFinancieros.Gastos.HandleEdit | src/components/GastosFinancieros.jsx:92-103 | the form is filled from the expense, editing that id, and opened; an expense without an amount leaves the page unchanged |
| GastosFinancieros.Gastos.HandleDelete | src/components/GastosFinancieros.jsx:105-121 | a confirmed, successful delete removes that id and nothing else; otherwise the table is unchanged |
| GastosFinancieros.Gastos.Promedio | src/components/GastosFinancieros.jsx:197 | zero with no expenses; otherwise the total divided by the count, rounded to the nearest integer |
| IngresosFinancieros.OrElse | src/components/IngresosFinancieros.jsx:131-133 | a present, non-empty text wins; a missing or empty one falls back |
| IngresosFinancieros.Datos | src/components/IngresosFinancieros.jsx:92-97 | the saved income keeps the form's origin, method, description and receiver, carries the receipt URL, takes today for an empty date, reads an integer typed as the amount as that integer, and an empty amount as null |
| IngresosFinancieros.FormularioDe | src/components/IngresosFinancieros.jsx:125-134 | an income without an amount gives no form; otherwise the form shows its fields, empty text for a missing description or receipt, the user for a missing receiver, and an amount text that reads back as the amount |
| IngresosFinancieros.EditRoundTrip | src/components/IngresosFinancieros.jsx:93-134 | for an income with an amount and a date, loading it into the form and saving it with the form's URL gives back the same income, with missing description, receiver and URL saved as empty, the user, and empty; the form is complete exactly when the origin is non-empty |
| IngresosFinancieros.Extension | src/components/IngresosFinancieros.jsx:67 | the extension is the part of the file name after its last dot, without dots, or the whole name when it has no dot |
| IngresosFinancieros.Ruta | src/components/IngresosFinancieros.jsx:67-69 | the path starts with the user's folder (anon without a user) and /ingreso-, and ends with a dot and the file's extension |
| IngresosFinancieros.Guardado | src/components/IngresosFinancieros.jsx:100-113 | when editing, the set of ids is kept and the edited income takes the new data; otherwise a fresh id is added holding the new data; every other income is kept |
| IngresosFinancieros.TotalIngresos | src/components/IngresosFinancieros.jsx:156 | zero for no incomes; with no negative amount, never negative and at least each income's amount |
| IngresosFinancieros.PorMetodo | src/components/IngresosFinancieros.jsx:158-163 | one total per method in display order, each the sum of the amounts of the incomes filtered to that method |
| IngresosFinancieros.MetodosCuadran | src/components/IngresosFinancieros.jsx:156-163 | with every income in a listed method, there is one total per method, each the sum of that method's amounts, and the totals add up to the overall total |
| IngresosFinancieros.Ingresos.constructor | src/components/IngresosFinancieros.jsx:5-20 | the page starts loading, with no incomes, no file, the form closed and not editing, and an empty form dated today and received by the user |
| IngresosFinancieros.Ingresos.LoadIngresos | src/components/IngresosFinancieros.jsx:32-48 | a successful query replaces the list; a failed one keeps it; loading ends either way |
| IngresosFinancieros.Ingresos.SetFile | src/components/IngresosFinancieros.jsx:305 | the chosen file, or none |
| IngresosFinancieros.Ingresos.ResetForm | src/components/IngresosFinancieros.jsx:50-63 | the form is emptied (dated today, received by the user), editing ends, the form closes and the file is dropped |
| IngresosFinancieros.Ingresos.UploadComprobante | src/components/IngresosFinancieros.jsx:65-79 | without a file the form's URL is returned and the bucket is unchanged; with one, a successful upload to a new path adds that path and returns the public URL, and a failed one or an existing path changes nothing and returns no URL |
| IngresosFinancieros.Ingresos.HandleSubmit | src/components/IngresosFinancieros.jsx:81-123 | an incomplete form changes nothing; otherwise the receipt is uploaded as UploadComprobante says and, when the upload and the write succeed, the table changes as Guardado says and the form is reset; any failure leaves the table and form unchanged |
| IngresosFinancieros.Ingresos.HandleEdit | src/components/IngresosFinancieros.jsx:125-138 | the form is filled from the income, editing that id, opened and with no file; an income without an amount leaves the page unchanged |
| IngresosFinancieros.Ingresos.HandleDelete | src/components/IngresosFinancieros.jsx:140-154 | a confirmed, successful delete removes that id and nothing else; otherwise the table is unchanged |
| IngresosFinancieros.Ingresos.Promedio | src/components/IngresosFinancieros.jsx:212 | zero with no incomes; otherwise the total divided by the count, rounded to the nearest integer |
| Libro.SumWhere | src/components/GastosFinancieros.jsx:140-142 | the running total of one key equals filtering the list to that key and then summing the amounts |
| Libro.TotalesPor | src/components/GastosFinancieros.jsx:138-143 | one total per listed key, in the keys' order, each the total of that key |
| Libro.PartitionSum | src/components/GastosFinancieros.jsx:136-143 | over distinct keys that cover every element, the per-key totals add up to the grand total |
| Libro.Cuadran | src/components/GastosFinancieros.jsx:136-143 | the per-key totals shown, added up, equal the grand total when the keys are distinct and cover every element |
| Libro.RoundDiv | src/components/GastosFinancieros.jsx:197 | `Math.round(total / n)`: the integer nearest the mean, halves rounded up |
| Libro.Promedio | src/components/GastosFinancieros.jsx:197 | zero for an empty list; otherwise the mean rounded to the nearest integer |
| Pagos.SinPagos | src/components/Pagos.jsx:13-18 | every roster key starts with nothing paid and not paid, and no other key is listed |
| Pagos.LastPago | src/components/Pagos.jsx:29-36 | the amount and flag of a student's last row, or none when the student has no row |
| Pagos.LoadedMeaning | src/components/Pagos.jsx:8-39 | after loading, the listed students are exactly the roster's keys, each holding their last row's payment or nothing paid |
| Pagos.LoadState | src/components/Pagos.jsx:8-39 | the loop builds exactly that map |
| Pagos.NuevoPago | src/components/Pagos.jsx:55-83 | a new payment records the amount, and is marked paid exactly when the amount reaches 50000 |
| Pagos.Falta | src/components/Pagos.jsx:146 | the amount still due is never negative, is zero exactly when 50000 is reached (and then the payment is marked paid), and otherwise completes 50000 |
| Pagos.MontoDeEntrada | src/components/Pagos.jsx:157 | the typed text's leading integer, or 0 when it has none |
| Pagos.EntradaDeEnteros | src/components/Pagos.jsx:157 | typing an integer enters that integer |
| Pagos.EntradaSinDigitos | src/components/Pagos.jsx:157 | text without leading digits enters 0 |
| Pagos.Loaded | src/components/Pagos.jsx:12-37 | the rows applied in order over a roster of unpaid students: the listed students stay exactly the roster's keys, since a row for anyone else is dropped |
| Pagos.SumaQuita | src/components/Pagos.jsx:106-108 | summing over the entries of `pagosState` counts each entry exactly once, whatever the order: any one entry plus the sum of the others |
| Pagos.SumaNoNegativa | src/components/Pagos.jsx:106 | with no negative amount, the total is never negative |
| Pagos.CadaEntrada | src/components/Pagos.jsx:106 | every entry is part of the total once, and with no negative amounts no single amount exceeds the total |
| Pagos.SumaCambia | src/components/Pagos.jsx:77-106 | setting one student's entry changes the total by the difference between the new and the old amount, or adds the new amount when the student had none |
| Pagos.CuentaPagados | src/components/Pagos.jsx:108 | the completed count is the number of entries flagged paid, never more than the entries |
| Pagos.TodosPagados | src/components/Pagos.jsx:108 | the completed count equals the number of entries exactly when every entry is flagged paid |
| Pagos.TotalCoversCompleted | src/components/Pagos.jsx:106-108 | with consistent, non-negative payments, the total paid is at least 50000 for each completed payment |
| Pagos.LoadedEntries | src/components/Pagos.jsx:12-108 | after a load the entries are exactly the roster's students, one each since an object's keys never repeat, so there are never more completed payments than students |
| Pagos.Pagos.TotalPagado | src/components/Pagos.jsx:106 | the sum of the amounts of all the grid's entries: each entry's amount plus the rest; never negative and at least each amount when no amount is negative |
| Pagos.Pagos.Completados | src/components/Pagos.jsx:108 | the number of the grid's entries flagged paid, at most the number of entries, and equal to it exactly when every entry is paid |
| Pagos.UpdateKeepsConsistent | src/components/Pagos.jsx:77-83 | an update keeps every payment's flag in agreement with its amount |
| Pagos.Pagos.constructor | src/components/Pagos.jsx:4-6 | the grid starts loading with no payments, bound to its group, roster and table |
| Pagos.Pagos.LoadPagos | src/components/Pagos.jsx:8-51 | without a group or a roster nothing happens and loading continues; otherwise loading ends and the state is the roster's keys filled from this group's rows, or with nothing paid when the query fails |
| Pagos.Pagos.HandleMontoPagado | src/components/Pagos.jsx:53-88 | for a key in the roster, success writes the row (group, key) with the name, 50000 required, the amount and its paid flag, and sets the local payment; failure, or a key outside the roster, changes nothing; a successful update of a listed student moves the grid's total by the new amount minus the old |
| Pagos.Pagos.TotalRequerido | src/components/Pagos.jsx:107 | 50000 per student in the roster, never negative |
| StudentDetail.Insert | src/components/StudentDetail.jsx:38 | inserting into a sorted list keeps it sorted and adds exactly that date |
| StudentDetail.SortFechas | src/components/StudentDetail.jsx:38 | the dates come out in ascending order, as a permutation of the input |
| StudentDetail.Fechas | src/components/StudentDetail.jsx:31-34 | the date of each row, in row order |
| StudentDetail.UltimosMeaning | src/components/StudentDetail.jsx:31-32 | the attendance object has a key exactly for each date in the rows, holding the state of that date's last row |
| StudentDetail.SortedDatesMatchMap | src/components/StudentDetail.jsx:30-40 | the sorted list of distinct dates has no repeats and holds exactly the keys of the attendance object, as many as it has |
| StudentDetail.LoadAsistencias | src/components/StudentDetail.jsx:28-41 | the object holds each date's last state, and the dates are the distinct dates of the rows, in ascending order, one per key of the object |
| StudentDetail.DocsOfKeys | src/components/StudentDetail.jsx:50-54 | the documents object has a key exactly for each row's document type, missing types landing under undefined |
| StudentDetail.DocsWithoutTipoCountAtMostOne | src/components/StudentDetail.jsx:52-53 | rows without a document type all land on one key, so at most one document counts as delivered |
| StudentDetail.PagoTexto | src/components/StudentDetail.jsx:202 | the payment percentage text is the amount over 50000 in percent, rounded to the nearest integer, without a cap |
| StudentDetail.PagoBarra | src/components/StudentDetail.jsx:199 | the bar width never exceeds 100, and up to 50000 it is the amount over 50000 in percent |
| StudentDetail.BarCappedTextNot | src/components/StudentDetail.jsx:199-202 | from 50000 on the bar stays at 100 while the text reads at least 100 (150 for 75000) |
| StudentDetail.Detalle.constructor | src/components/StudentDetail.jsx:4-11 | the page starts loading with no attendance, dates, documents, payment or notes, not editing |
| StudentDetail.Detalle.LoadAllData | src/components/StudentDetail.jsx:17-86 | each query that returns data replaces its part (attendance and sorted dates, documents, payment, notes) and one that returns none leaves it; loading ends; the dates stay sorted, distinct and equal to the attendance keys |
| StudentDetail.Detalle.CargarAsistencias | src/components/StudentDetail.jsx:22-41 | attendance rows, when present, replace the attendance object and the sorted dates; absent rows leave both |
| StudentDetail.Detalle.CargarResto | src/components/StudentDetail.jsx:44-85 | documents, payment and notes are each replaced when their query returns data, and loading ends |
| StudentDetail.Detalle.AsistenciaCount | src/components/StudentDetail.jsx:111-114 | the presente count never exceeds the number of dates |
| StudentDetail.Detalle.TotalJueves | src/components/StudentDetail.jsx:114 | the number of dates shown, which is the number of keys of the attendance object |
| StudentDetail.Detalle.PagoCuota | src/components/StudentDetail.jsx:113 | the amount paid, or 0 without a payment row |
| StudentDetail.Detalle.Porcentaje | src/components/StudentDetail.jsx:151-161 | a percentage is shown exactly when there is a date, and it lies in 0 to 100 |
| StudentDetail.Detalle.DocumentosCount | src/components/StudentDetail.jsx:112 | never more delivered documents than document keys |
| StudentDetail.Detalle.SetNotas | src/components/StudentDetail.jsx:264 | the notes hold the typed text |
| StudentDetail.Detalle.EditarNotas | src/components/StudentDetail.jsx:242-251 | for admin or logistica users each press switches editing on or off; for others nothing changes |
| StudentDetail.Detalle.HandleSaveNotas | src/components/StudentDetail.jsx:88-109 | on success the notes are stored under (student, group) and editing ends; on failure nothing changes |
| AttendanceModule.GruposDisponibles | src/pages/AttendanceModule.jsx:16-18 | every group for admin or logistica users, otherwise only the user's role |
| AttendanceModule.BuscarPorId | src/pages/AttendanceModule.jsx:51-57 | the first student, in key order, carrying that id, or none when no student carries it |
| AttendanceModule.Pagina.constructor | src/pages/AttendanceModule.jsx:9-13 | no group, no roster and no selection at first |
| AttendanceModule.Pagina.AutoSelect | src/pages/AttendanceModule.jsx:21-25 | a logged-in user who is neither admin nor logistica, with no group chosen, is moved to their role's group; otherwise the group stays |
| AttendanceModule.Pagina.LoadEstudiantes | src/pages/AttendanceModule.jsx:33-43 | the roster becomes the group's, or empty for an unknown group |
| AttendanceModule.Pagina.HandleGroupChange | src/pages/AttendanceModule.jsx:27-47 | the group becomes the chosen one, and a non-empty choice loads its roster |
| AttendanceModule.Pagina.HandleStudentClick | src/pages/AttendanceModule.jsx:49-66 | the first student carrying the id is selected, tagged with the current group; without one the selection stays |
| PagosModule.GruposDisponibles | src/pages/PagosModule.jsx:15-18 | the Catequistas pseudo-group followed by every group for admin or financiero, otherwise only the user's role |
| PagosModule.Pagina.constructor | src/pages/PagosModule.jsx:7-11 | no group, no roster and no catechists at first |
| PagosModule.Pagina.AutoSelect | src/pages/PagosModule.jsx:21-25 | a logged-in user who is neither admin, logistica nor financiero, with no group chosen, is moved to their role's group; otherwise the group stays |
| PagosModule.Pagina.LoadEstudiantes | src/pages/PagosModule.jsx:33-50 | the pseudo-group loads the catechist names and no roster; any other group loads its roster (empty when unknown) and no names |
| PagosModule.Pagina.HandleGroupChange | src/pages/PagosModule.jsx:27-54 | the group becomes the chosen one, and a non-empty choice loads as LoadEstudiantes says |
| PagosModule.Pagina.AbrirPagos | src/pages/PagosModule.jsx:135-140 | on its first mount the payment grid gets the current group and roster, and starts empty and loading |
| PagosModule.PseudoGrupoNoCarga | src/pages/PagosModule.jsx:36-42 | when the pseudo-group is the first group chosen, the grid gets no roster, so whatever the table holds it stays loading with no payments |
| PagosModule.FinancieroOfferedButRefused | src/pages/PagosModule.jsx:15-18 | the financiero role is offered every group here, while the permission table refuses it payments and the home screen shows it no payments tile |
| StudentList.Estudiantes | src/components/StudentList.jsx:10-17 | the group's students in key order, or none for an unknown group |
| StudentList.IdsAreKeys | src/components/StudentList.jsx:14-17 | one student per roster entry, each carrying its key as id |
| StudentList.FiltradosMeaning | src/components/StudentList.jsx:20-22 | the filtered list keeps the roster's order and holds exactly the students whose lower-cased name contains the lower-cased term, so it is never longer than the roster |
| StudentList.EmptySearchShowsAll | src/components/StudentList.jsx:20-22 | an empty search shows the whole roster |
| StudentsModule.Etiquetar | src/pages/StudentsModule.jsx:17-23 | one entry per roster student, in key order, with the student's id and name and the group |
| StudentsModule.PushRoster | src/pages/StudentsModule.jsx:17-23 | appends exactly the tagged roster to the list |
| StudentsModule.AllStudents | src/pages/StudentsModule.jsx:13-24 | the list is every group's tagged roster, group after group |
| StudentsModule.TodosTagged | src/pages/StudentsModule.jsx:13-24 | every listed student is tagged with one of the groups |
| StudentsModule.FilterByGroup | src/pages/StudentsModule.jsx:28 | filtering the list by one group gives exactly that group's tagged roster, or nothing for a group not walked |
| StudentsModule.FiltradosMeaning | src/pages/StudentsModule.jsx:27-31 | the filtered list keeps the list's order and holds exactly the students of the chosen group (any for Todos) whose name contains the term, case aside |
| StudentsModule.InitialViewShowsAll | src/pages/StudentsModule.jsx:8-31 | the initial view (Todos, empty search) lists every student |
| StudentsModule.SumaConteosIsSumCounts | src/pages/StudentsModule.jsx:195 | the counts on the group buttons are the numbers of students tagged with each group |
| StudentsModule.CountsAddUp | src/pages/StudentsModule.jsx:192-195 | the group buttons' counts add up to the Todos count |
| ModuleSelector.Tiles | src/pages/ModuleSelector.jsx:63-204 | asistencia, documentos and estudiantes for everyone; catequistas, sabanas, cartas and pagos exactly for admin or logistica users; never gastos or ingresos |
| Usuarios.RolOf | src/pages/ModuleSelector.jsx:27 | the logged-in user's role, or the empty string when nobody is logged in |
| Usuarios.AdminOrLogistica | src/pages/ModuleSelector.jsx:84 | true exactly for the admin role or the usuario logistica, never without a user |
| ModuleSelector.Badge | src/pages/ModuleSelector.jsx:27-31 | the ADMIN badge shows exactly for the admin role |
| ModuleSelector.RolTexto | src/pages/ModuleSelector.jsx:57 | the user's role, or the text undefined when nobody is logged in |
| ModuleSelector.Mensaje | src/pages/ModuleSelector.jsx:55-58 | the admin role reads the full-access message; anyone else reads the limited-access prefix followed by their role (undefined without a user) |
| ModuleSelector.TilesWithinPermissions | src/pages/ModuleSelector.jsx:63-204 | for a logged-in user with a role, unless a group role has usuario logistica, every tile offered opens a module the role may use, and admins may also use gastos and ingresos, which have no tile |
| ModuleSelector.LogisticaByNameOnly | src/pages/ModuleSelector.jsx:84-86 | a group-role user named logistica is offered the catechist tile, which the permission table refuses to that role |
| Text.Trim | src/pages/CatequistasModule.jsx:179-181 | the trimmed text starts and ends with a non-space, holds only characters of the text, and a text without spaces is kept |
| Text.LowerStr | src/components/StudentList.jsx:21 | lower-casing keeps the length and lower-cases each character |
| Text.JsLength | src/utils/validation.js:36 | a text's JavaScript length lies between its number of characters and twice that, and equals it when no character lies above U+FFFF |
| Text.AstralBeforePrivateUse | src/components/StudentDetail.jsx:38 | the default sort puts a character above U+FFFF before U+E000, as its surrogate code units do |
| Text.StrLeTotal | src/components/StudentDetail.jsx:38 | any two dates are ordered one way or the other by the default sort order |
| Text.StrLeTransitive | src/components/StudentDetail.jsx:38 | the default sort order is transitive |
| Text.StrLeAntisymmetric | src/components/StudentDetail.jsx:38 | two dates ordered both ways are equal |
| Text.ParseIntOfIntToString | src/components/Pagos.jsx:157 | reading back an integer written in decimal gives the integer |
| Tables.SetCell | src/components/Documents.jsx:75-81 | updating one cell sets that cell, adds its row if missing, and leaves every other cell as it was |
| Tables.ToggleTwice | src/components/Attendance.jsx:33-48 | toggling the same cell twice restores every checkbox |

## Behaviour kept as written

The model follows the code, including the places where pages disagree with
each other or with the permission table. Each place below is stated as a
lemma.

- **Permission policy.** The canonical policy is the table in
  `src/utils/permissions.js`. The pages use their own checks.
  - The home screen offers the administrative tiles to anyone whose
    `usuario` is logistica, even with a group role
    (`ModuleSelector.LogisticaByNameOnly`).
  - The payments page offers every group to the financiero role, which the
    table refuses payments (`PagosModule.FinancieroOfferedButRefused`).
  - financiero counts as a group role in the table
    (`Permissions.FinancieroIsGroupRole`).
  - No tile opens gastos or ingresos, although the table grants them to
    admins (`ModuleSelector.TilesWithinPermissions`).
- **Letters vs. sheets.** The letters grid keys its flags by the id stored
  in each student. The sheets grid keys them by the roster's object key.
  The two agree only while ids equal keys (`Sabanas.KeyingDiffers`).
- **Documents on the detail page.** The detail page indexes documents by
  `tipo_documento`. The documents grid never writes that column, so at most
  one document counts as delivered there
  (`StudentDetail.DocsWithoutTipoCountAtMostOne`).
- **The Catequistas pseudo-group.** On the payments page this pseudo-group
  hands the grid no roster. When it is the first group chosen, the grid
  never leaves its loading state (`PagosModule.PseudoGrupoNoCarga`).
- **Several catechist rows for one date.** The catechist module looks up
  the row for a name and date with `.single()` in every group. With two
  such rows the lookup yields no data, so the page inserts a General row
  instead of updating, and the insert fails when a General row is already
  there (`CatequistasModule.SeveralRowsNotUpdated`).
- **Student clicks on the attendance page.** `AttendanceModule` passes
  `onStudentClick` to the attendance grid, but the grid does not take that
  prop, so `AttendanceModule.Pagina.HandleStudentClick` is never reached
  from the page. It is modelled as written.
- **Cache keys.** A cache key is `namespace:key`. Two namespaces that
  contain colons can collide (`Storage.NamespacesWithColonCollide`). Keys
  are isolated only for namespaces without a colon
  (`Storage.NamespacesIsolated`).
- **Editing id 0.** In the ledgers an editing id of 0 reads as "not
  editing", so saving it inserts a new row (`Editando` in both ledger
  modules).
- **Orphaned receipts.** A receipt uploaded before a failed insert or update
  stays in the bucket. `IngresosFinancieros.Ingresos.HandleSubmit` states
  the bucket change separately from the table change.
- **Payment bar vs. text.** The payment bar on the detail page is capped at
  100, but the percentage text is not (`StudentDetail.BarCappedTextNot`).
- **Unknown formación numbers.** On the formación sheet, a row whose number
  lies outside 1 to 15 adds a cell. The bound of fifteen presences
  (`FormacionAsistencia.PresentesAtMostFifteen`) is therefore proved only
  for rows numbered 1 to 15.

## Left out

- Rendering, routing, login, notifications, PDF generation and
  `downloadCSV` are outside this model. They are browser effects with no
  state the core reads back.
- The database and storage clients are not modelled.
  - Each query's rows and each write's success are parameters.
  - Remote tables are maps keyed by their conflict keys.
  - Row order (for example `order('fecha')`) is the order of the given
    sequence.
  - Concurrent requests and the reload that follows a save or delete are
    not modelled. The reload is a fresh `Load…` call on new rows.
- The current time, today's date, `Date.now()`, `alert` and `confirm` are
  parameters.
- Locale formatting is not modelled: `formatDate`, `formatTime`,
  `formatCurrency`, `toLocaleString` and `toLocaleDateString`. They depend
  on `Intl` data.
- Analytics.MonthlyTotals: transactions carry a parsed year and month.
  Date-string parsing, and the UTC/local shift of `new Date`, are left out.
- Numbers are integers. Fractional amounts from `parseFloat` and the
  floating-point edges of `Math.round` are left out. `Number(x)` on
  non-numeric text is modelled as a missing amount.
- Format.NormalizeString: Unicode NFD decomposition is a parameter. The
  stripping of combining marks, lower-casing and trimming are modelled.
- Texts are sequences of Unicode characters, so a lone surrogate cannot
  occur. `.length`, the e-mail pattern's `{2,}` and the default sort count
  UTF-16 code units as JavaScript does (`Text.JsLength`, `Text.StrLe`).
- Letter case is modelled for Basic Latin and Latin-1 letters only. Other
  scripts are left out, and so are the Latin-1 letters whose case partner
  lies outside Latin-1: `ß` upper-cases to "SS", `ÿ` to U+0178 and `µ` to
  U+039C, but `Text.Upper` leaves all three unchanged. Whitespace follows
  JavaScript's `\s`.
- The `useLocalStorage` and `useSessionStorage` hooks are not modelled.
  They are React state plumbing.
- Loading and uploading flags are modelled only where a contract depends on
  them.
- Roster keys are integers. The string/number distinction of JavaScript
  object keys (`1` vs `"1"`) and the engine's key ordering are left out.
  Rosters are sequences in key order.
- `src/data/formacion.js` is not part of this model. The formación names
  are a parameter.
- The Thursday dates `fechasJueves` are imported from `src/data/grupos.js`,
  but that file does not define them. The dates are a parameter.
- Outside the catechist module, a `.single()` query's outcome is a
  parameter: no data stands for no row, several rows or an error.
- Storage.Cache.Get: the store holds only cache entries. A foreign or
  corrupt value under a cache key is covered only as a failed read.
- Storage.SetThenGet: values are stored as they are. The `JSON.stringify` /
  `JSON.parse` round trip, which changes dates, `NaN` and `undefined`, is
  left out.
- GastosFinancieros.Datos: `parseFloat` is read as an integer prefix, so
  exponent notation such as `1e3` reads as 1 rather than 1000.
- IngresosFinancieros.Datos: `parseFloat` is read as an integer prefix, so
  exponent notation such as `1e3` reads as 1 rather than 1000.
- FormacionAsistencia.Grilla.LoadAsistencias: the effect depends on an
  array rebuilt on every render, so the page reloads after each render.
  The model states one load; the repeated reloads are not modelled.
- StudentDetail.Detalle.HandleSaveNotas: the upsert names no conflict key,
  so the row it overwrites is decided by the table's primary key. The model
  assumes that key is (student, group). With a generated key each save
  would add a row and the later `.single()` load would show no notes.
- PagosModule.Pagina.AbrirPagos: the page mounts the payment grid once and
  keeps its state across later group changes. The model gives a fresh grid
  and so covers only the first mount.
- CartasModule, SabanasModule, GastosModule and IngresosModule are not part
  of this model. They are thin pages that only pass a group or a user to
  the modelled components.
- Exceptions thrown while reading a missing student's name are modelled as
  a failed write that changes nothing.
