# Work journal ("giornale dei lavori") — a Dafny model of its form and search logic

This project models the parts of the construction-site work-journal front-end
that have behaviour worth stating:

- **The journal-entry form** (`src/components/WorkJournalForm.tsx`). A draft
  holds a date, the activities, the weather, optional notes, and three ordered
  groups of rows: workers, equipment and materials. The validation schema reports
  every failing field with its own Italian message. The form opens on a default
  draft. It has add/remove buttons for each group and quantity inputs read with
  `parseInt`, and it hands the draft on only when the whole schema passes.
  - `JournalSchema` holds the draft as a value and the schema in two forms.
    `Validate` is a checker that reports every failure in field order.
    `Expected`/`IsValid` are a per-field table and a single statement.
    The lemmas prove the checker and the table agree exactly.
  - `WorkJournalForm` holds the form as a class. Its fields are the draft's
    fields, and its handlers replace them one at a time.
- **The history page** (`src/pages/HistoryPage.tsx`). It filters entries by a
  search over the activities that ignores case, and by an optional day rendered
  `dd/MM/yyyy`. It also has the results footer, the pagination buttons and a
  weather-icon lookup.
- **Lookups**: the weather icon and impact colour of the weather table
  (`src/components/WeatherConditions.tsx`), and the badge colour of a
  service-order status (`src/components/ServiceOrders.tsx`).

The JavaScript built-ins this logic relies on are modelled in their own modules.
They are `toLowerCase` and `includes` (`JsString`), `parseInt` (`JsNumber`),
`splice(start, 1)` (`JsArray`) and date-fns `format(date, 'dd/MM/yyyy')`
(`Dates`, over the digit strings of `Numerals`).

Two behaviours of the code are worth spelling out:

- A quantity input that does not parse stores NaN. The schema library then
  reports its own type error, "Expected number, received nan"
  (`JournalSchema.NotANumber`), and not the custom "Inserire una quantità
  valida". The custom message is used only for a number below 1.
- The remove handlers apply `splice` directly, with no range check of their
  own. `splice` clamps an index past the end (removing nothing) and counts a
  negative one from the end. `JsArray.SpliceOne` models this.

## Model

| member | source | states |
|---|---|---|
| `JournalSchema.DefaultValues` | src/components/WorkJournalForm.tsx:71-79 | The opening draft is dated today. It has exactly one row in each group, and both quantities are 1. |
| `JournalSchema.DefaultValuesErrors` | src/components/WorkJournalForm.tsx:33-79 | The opening draft fails in this order: activities, weather, worker 0's name and qualification, equipment 0's name, material 0's name. Each failure carries its own message. The date and the quantities pass. |
| `JournalSchema.InRowErrors` | src/components/WorkJournalForm.tsx:44-62 | A group's errors are exactly the union of its rows' errors, whatever the rows are. |
| `JournalSchema.WorkerRowsExact` | src/components/WorkJournalForm.tsx:44-48 | A worker error is reported exactly for a row whose name or qualification is under 2 characters. It carries "Nome richiesto" or "Qualifica richiesta". |
| `JournalSchema.EquipmentRowsExact` | src/components/WorkJournalForm.tsx:50-55 | An equipment error is reported exactly for a name under 2 characters, or for a quantity that is NaN or below 1. Each carries its own message. |
| `JournalSchema.MaterialRowsExact` | src/components/WorkJournalForm.tsx:56-62 | The same as for equipment, for materials. The invoice reference never fails. |
| `JournalSchema.Validate` | src/components/WorkJournalForm.tsx:33-63 | The schema check itself. Its contract: no errors implies a date, activities of at least 5 characters, weather of at least 3 and at least one worker; a missing date is the first error. `ValidateExact`, `ValidateEmptyIffValid` and `ValidateInFieldOrder` state the rest. |
| `JournalSchema.ValidateExact` | src/components/WorkJournalForm.tsx:33-63 | An error (field, message) is reported if and only if that field fails its rule, and the message is that rule's fixed message. Notes never fail. Empty equipment and material lists are not errors. An empty worker list gives "Inserire almeno un operaio". |
| `JournalSchema.ValidateEmptyIffValid` | src/components/WorkJournalForm.tsx:33-63 | Validation reports nothing if and only if all of these hold: there is a date; activities has at least 5 characters; weather has at least 3; there is at least one worker; every name and qualification has at least 2; every quantity is a number of at least 1. |
| `JournalSchema.ValidateInFieldOrder` | src/components/WorkJournalForm.tsx:33-63 | Errors come in schema order (row by row, the name first), so no field is reported twice. |
| `JournalSchema.RowErrorsInOrder` | src/components/WorkJournalForm.tsx:44-62 | A group's errors come row by row, and each row's errors stay inside that row's slots. |
| `WorkJournalForm.RemoveShown` | src/components/WorkJournalForm.tsx:277 | The guard `length > 1` under which each group's remove button is rendered (also :342 and :417). Its consequence is proved by `OfferedRemovalKeepsARow` and the remove handlers' contracts. |
| `WorkJournalForm.OfferedRemovalKeepsARow` | src/components/WorkJournalForm.tsx:277 | A remove button is shown only when the group has more than one row. Removing a shown row leaves exactly one fewer row, and at least one. |
| `WorkJournalForm.JournalForm.constructor` | src/components/WorkJournalForm.tsx:69-80 | The form starts on the default draft, and every group has a row. |
| `WorkJournalForm.JournalForm.AddWorker` | src/components/WorkJournalForm.tsx:86-88 | The worker list becomes the old list plus one empty worker at the end. The rest of the draft is unchanged. |
| `WorkJournalForm.JournalForm.RemoveWorker` | src/components/WorkJournalForm.tsx:90-94 | The worker list becomes the old list after `splice(index, 1)`, and the rest of the draft is unchanged. When the button was shown, every group still has a row. |
| `WorkJournalForm.JournalForm.AddEquipment` | src/components/WorkJournalForm.tsx:96-98 | One equipment row (empty name, quantity 1) is appended, and nothing else changes. |
| `WorkJournalForm.JournalForm.RemoveEquipment` | src/components/WorkJournalForm.tsx:100-104 | The equipment list is spliced at `index`, and nothing else changes. The guard keeps every group non-empty. |
| `WorkJournalForm.JournalForm.AddMaterial` | src/components/WorkJournalForm.tsx:106-108 | One material row (empty name, quantity 1, empty invoice reference) is appended, and nothing else changes. |
| `WorkJournalForm.JournalForm.RemoveMaterial` | src/components/WorkJournalForm.tsx:110-114 | The material list is spliced at `index`, and nothing else changes. The guard keeps every group non-empty. |
| `WorkJournalForm.JournalForm.SetEquipmentQuantity` | src/components/WorkJournalForm.tsx:334 | That row's quantity becomes `parseInt` of the typed text, and nothing else changes. |
| `WorkJournalForm.JournalForm.SetMaterialQuantity` | src/components/WorkJournalForm.tsx:396 | That row's quantity becomes `parseInt` of the typed text, and nothing else changes. |
| `WorkJournalForm.JournalForm.Submit` | src/components/WorkJournalForm.tsx:116-129 | The draft is handed on if and only if it satisfies the schema, and it is handed on unchanged. Otherwise the non-empty list of field errors is returned. |
| `WorkJournalForm.NoWorkersMessageWithARow` | src/components/WorkJournalForm.tsx:49 | With at least one worker row, "Inserire almeno un operaio" is never reported. |
| `WorkJournalForm.AddWorkerThenRemoveLast` | src/components/WorkJournalForm.tsx:86-94 | Adding a worker and then removing the last index restores the whole draft. |
| `JsArray.SpliceOne` | src/components/WorkJournalForm.tsx:92 | `splice(start, 1)` on a copy (also :102 and :112). The result has one element fewer exactly when the list is non-empty and the start is below its length, and is the same list otherwise; it never gains an element. `SpliceOneAt`, `SpliceOnePastEnd` and `SpliceOneFromEnd` pin down which element goes. |
| `JsArray.SpliceOneAt` | src/components/WorkJournalForm.tsx:91-92 | For an index in range, exactly that element is removed. Earlier rows keep their places, later ones shift down by one, and the multiset loses just that row. |
| `JsArray.SpliceOnePastEnd` | src/components/WorkJournalForm.tsx:92 | An index at or past the end removes nothing. |
| `JsArray.SpliceOneFromEnd` | src/components/WorkJournalForm.tsx:102 | A negative index -k (with k at most the length) removes the k-th row from the end. |
| `JsArray.AppendThenSpliceLast` | src/components/WorkJournalForm.tsx:87 | Appending a row and splicing out the last index gives back the list. |
| `JsNumber.ParseInt` | src/components/WorkJournalForm.tsx:334 | `parseInt` of the typed quantity (also :396). After leading white space and one optional sign, no decimal digit gives NaN and a digit 1-9 gives a number. `ParseIntDecimal` states the round trip. |
| `JsNumber.ParseIntDecimal` | src/components/WorkJournalForm.tsx:334 | `parseInt` of any integer's decimal text gives that integer back. |
| `JsNumber.ParseIntEmpty` | src/components/WorkJournalForm.tsx:396 | A cleared quantity input parses to NaN. |
| `HistoryPage.FilterEntries` | src/pages/HistoryPage.tsx:47-51 | Every shown entry is in the list and passes both tests, and every entry that passes both is shown. Each entry is shown exactly as many times as it occurs in the list when it passes, and never otherwise, so repeated entries are counted exactly. The shown count never exceeds the total (footer, :180-181). |
| `HistoryPage.Kept` | src/pages/HistoryPage.tsx:48-50 | The per-entry test: an empty search with no day chosen keeps every entry, and a kept entry's activities are at least as long as the search term. |
| `HistoryPage.FilterIsSubsequence` | src/pages/HistoryPage.tsx:47 | The shown entries are a subsequence of the list, in the original order. |
| `HistoryPage.UnfilteredShowsAll` | src/pages/HistoryPage.tsx:48-49 | With an empty search and no day chosen, every entry is shown. |
| `HistoryPage.SearchIgnoresCase` | src/pages/HistoryPage.tsx:48 | Search terms equal after lowering show the same entries. |
| `HistoryPage.KeptReadsActivitiesAndDate` | src/pages/HistoryPage.tsx:48-50 | Only an entry's activities and date string decide whether it is shown. |
| `HistoryPage.DateFilterSelectsTheDay` | src/pages/HistoryPage.tsx:49 | An entry recorded on day d0 passes the date test for a chosen day if and only if that day is d0. |
| `HistoryPage.NavigationDisabledIff` | src/pages/HistoryPage.tsx:184-188 | The Previous/Next buttons are disabled if and only if no entry passes the filter. |
| `HistoryPage.WeatherIcon` | src/pages/HistoryPage.tsx:53-66 | Case is ignored. The four known conditions map to their four icons, each icon if and only if its condition. Anything else gets the default icon. |
| `HistoryPage.WeatherIconsAgree` | src/pages/HistoryPage.tsx:54-64 | The two pages' icon lookups agree everywhere except "neve" and "temporale". The history page shows those two with the default icon. |
| `WeatherConditions.WeatherIcon` | src/components/WeatherConditions.tsx:16-33 | The six known conditions (case ignored) map one-to-one to their icons. Everything else, and only that, gets the default icon. |
| `WeatherConditions.WeatherIconIgnoresCase` | src/components/WeatherConditions.tsx:17 | Conditions equal after lowering get the same icon. |
| `WeatherConditions.ImpactColor` | src/components/WeatherConditions.tsx:35-42 | The colour is red if and only if the lowered text contains "sospensione". It is amber if and only if the text contains "ritardo" but not "sospensione", and green otherwise. There are always exactly these three classes. |
| `WeatherConditions.SuspensionOutranksDelay` | src/components/WeatherConditions.tsx:36-39 | Text mentioning both a suspension and a delay is red. |
| `ServiceOrders.StatusColor` | src/components/ServiceOrders.tsx:39-50 | 'Completato' gives green, 'In corso' blue and 'Da iniziare' amber, each if and only if the status is exactly that string. Every other string gives grey. |
| `ServiceOrders.CaseVariantsAreGrey` | src/components/ServiceOrders.tsx:40-48 | Matching is case-sensitive, so lower-case spellings of the three statuses give grey. |
| `JsString.Lower` | src/pages/HistoryPage.tsx:48 | Lowering keeps the length, lowers each character in place, and leaves no upper-case ASCII letter. |
| `JsString.Contains` | src/pages/HistoryPage.tsx:48 | `includes`: a text that starts with the term includes it, and a text shorter than the term never does. `ContainsIff` gives the exact meaning. |
| `JsString.ContainsIff` | src/pages/HistoryPage.tsx:48 | `includes` holds if and only if the term occurs at some offset of the text. |
| `JsString.ContainsEmpty` | src/pages/HistoryPage.tsx:48 | Every text includes the empty term. |
| `Dates.FormatDate` | src/pages/HistoryPage.tsx:49 | `format(date, 'dd/MM/yyyy')`: for a calendar day the rendering has at least 10 characters with '/' at positions 2 and 5. `FormatDateInjective` states that it determines the day. |
| `Dates.FormatDateInjective` | src/pages/HistoryPage.tsx:24 | Two calendar days never share a `dd/MM/yyyy` rendering. |
| `Dates.FormatDateShape` | src/pages/HistoryPage.tsx:49 | For a four-digit year the rendering is 10 characters, with '/' at positions 2 and 5. |

## Left out

- React rendering and layout, icons, the toast and `console.log` in the submit handler. The external sink is the `Saved` outcome of `Submit`.
- Editing the text fields is left out: date, activities, weather, notes, names, qualifications and invoice references. The form library binds each input to its field and replaces the value as typed, so there is no logic to model. The only edit with logic, the `parseInt` of the quantity inputs, is modelled.
- When messages appear is left out. The form library validates on submit and then on change; only the result of validation is modelled.
- The "Inserire almeno un operaio" message is attached to `workers` as a whole. The page renders no message slot for it, and with the remove guard the case cannot arise.
- `new Date()` for the default date is a parameter (`today`). The time of day is not modelled. The schema's rejection of an invalid `Date` object is not modelled, because the calendar only produces real days.
- Lowering covers ASCII letters only; JavaScript's full Unicode case mapping is not modelled.
- Text length counts Unicode scalar values. The schema counts UTF-16 code units, which differ for characters outside the Basic Multilingual Plane.
- `JsNumber.ParseInt` works on exact integers. JavaScript's loss of precision beyond 2^53 and its negative zero are not modelled. Among Unicode space separators, only the no-break space is skipped as leading white space.
- `Dates.FormatDate` renders years from 1 upward; year 0 and negative years are not modelled (date-fns prints the era year for `yyyy`, so year 0 would render as year 1).
- The mock-entry generator of the history page is left out because it uses `Math.random` and the clock. The static sample data of the other pages is left out too.
- `Dashboard.tsx`, `Navbar.tsx`, `Index.tsx` and `JournalEntryPage.tsx` are not part of this model: they are markup over fixed data.
