# Lead management front-end: dashboard and form logic in Dafny

This project models the logic under the screens of a small lead-capture web
front-end. A public form submits a prospect's contact details, an admin logs
in, and a dashboard lists, searches and bulk-deletes the captured leads. The
model covers four parts:

- **Search** (`HomePage`). The dashboard shows all leads for an empty query.
  Otherwise it shows the leads whose lower-cased full name, email or company
  name (when present) contains the lower-cased query. Order is kept.
- **Row selection** (`HomePage.Dashboard`). The selection holds the checked ids,
  a header "select all" flag and the rows currently shown. Clicking a row
  toggles its id. The header checkbox clears the selection or selects exactly
  the shown rows. After a row click the flag is recomputed by comparing
  lengths. Delete clears the selection whatever the server answers. The
  selection is kept when the shown rows change: ids of rows that a new query
  hides stay checked, as the code does.
  Timestamps without a `Z` get one appended before parsing.
- **The lead collection** (`LeadsContext.LeadsStore`). Bulk delete filters out
  every lead whose id was deleted, but only when the server reports success.
- **The two forms** (`LeadForm`, `LoginForm`). Each has per-field validation
  with fixed messages and the unanchored email pattern `\S+@\S+\.\S+`.
  Typing into a field updates it and clears errors. Submit either records
  errors or goes on (a post for the lead form, the caller's handler for the
  login form).

Modules: `Text` holds the JavaScript string primitives (`trim`, ASCII
`toLowerCase`, `includes`, `endsWith`, and the ECMAScript whitespace class).
`Seqs` holds `Array.prototype.filter` and the subsequence relation.
`Interfaces` holds the `Lead` record. `Validation` holds the email pattern.
`LeadsContext`, `HomePage`, `LeadForm` and `LoginForm` each follow the
source file of the same name.

Inputs from outside the model are parameters:
- the delete endpoint's answer (`Option<ApiResult>`, where `None` is the
  `undefined` returned when no token is stored);
- the lead post's ending (`PostOutcome`);
- whether the login form was given an `onSubmit` handler;
- the debounced query;
- the field name and value of a change event.

## Model

| member | source | states |
|---|---|---|
| `Text.TrimEmptyIff` | src/components/LeadForm.tsx:40 | `s.trim()` is empty exactly when every character of `s` is ECMAScript whitespace |
| `Text.TrimStartEmptyIff` | src/components/LeadForm.tsx:40 | stripping leading whitespace leaves nothing iff all characters are whitespace; otherwise the result starts with a non-whitespace character |
| `Text.TrimEndEmptyIff` | src/components/LeadForm.tsx:40 | stripping trailing whitespace leaves nothing iff all characters are whitespace |
| `Text.IncludesIff` | src/pages/HomePage.tsx:57-59 | `includes` holds exactly when some position of the string starts a copy of the query |
| `Seqs.Filter` | src/pages/HomePage.tsx:55-60 | the filtered list contains exactly the elements of the input that satisfy the predicate, and is no longer than the input |
| `Seqs.FilterCount` | src/context/LeadsContext.tsx:23 | a kept element keeps all its occurrences; a dropped element keeps none |
| `Seqs.FilterIsSubsequence` | src/pages/HomePage.tsx:55-60 | the filtered list is an order-preserving subsequence of the input |
| `Seqs.FilterAllPass` | src/context/LeadsContext.tsx:23 | filtering with a predicate every element satisfies returns the input unchanged |
| `Seqs.FilterIdempotent` | src/context/LeadsContext.tsx:23 | filtering twice with the same predicate equals filtering once |
| `Validation.EmailPatternTestIff` | src/components/LeadForm.tsx:45 | the executable test succeeds exactly when `\S+@\S+\.\S+` matches some substring, i.e. indices i < j < k < l exist with non-empty non-whitespace runs around `@` at j and `.` at k |
| `Validation.EmailPatternExamples` | src/components/LoginForm.tsx:32 | "a@b.com" and "see x@y.z now" pass (unanchored); "a@b", "a@.com" and "a @b.com" fail |
| `LeadsContext.RemainingExactly` | src/context/LeadsContext.tsx:22-24 | after a confirmed delete no lead with a deleted id is left; every other lead is left with all its occurrences, in the original relative order |
| `LeadsContext.NoIdSurvives` | src/context/LeadsContext.tsx:23 | a lead without an id is never removed by a delete |
| `LeadsContext.RemainingNoIds` | src/context/LeadsContext.tsx:23 | deleting an empty id list leaves the collection unchanged |
| `LeadsContext.RemainingIdempotent` | src/context/LeadsContext.tsx:23 | deleting the same ids twice gives the same collection as deleting them once |
| `LeadsContext.RemainingKeepsUniqueIds` | src/context/LeadsContext.tsx:22-24 | a delete keeps a collection without duplicate ids free of duplicates |
| `LeadsContext.LeadsStore.constructor` | src/context/LeadsContext.tsx:17 | the collection starts empty |
| `LeadsContext.LeadsStore.DeleteLeads` | src/context/LeadsContext.tsx:19-29 | on a successful answer the collection becomes the filtered one; on a failed or missing answer it is unchanged |
| `HomePage.EmptyQueryShowsAll` | src/pages/HomePage.tsx:49-51 | the empty query shows exactly the whole collection, same leads, same order |
| `HomePage.SearchIsSubsequence` | src/pages/HomePage.tsx:48-62 | the shown rows are an order-preserving subsequence of the collection for every query |
| `HomePage.SearchKeepsExactly` | src/pages/HomePage.tsx:54-60 | for a non-empty query a lead is shown iff it is in the collection and the lower-cased query is a substring of its lower-cased name, email, or present company name |
| `HomePage.NoCompanyNoMatch` | src/pages/HomePage.tsx:59 | a lead with no company name whose name and email do not contain the query is not shown |
| `HomePage.SearchIgnoresCase` | src/pages/HomePage.tsx:54-59 | queries equal after lower-casing show the same rows |
| `HomePage.ToggleEffect` | src/pages/HomePage.tsx:83-85 | toggling a checked id removes all its occurrences and nothing else, keeping order; toggling an unchecked id appends it at the end |
| `HomePage.ToggleTwiceRestores` | src/pages/HomePage.tsx:83-85 | checking an unchecked id and then unchecking it restores the original selection |
| `HomePage.UncheckLength` | src/pages/HomePage.tsx:84 | unchecking shortens the selection by the number of occurrences of the id |
| `HomePage.UncheckOneAfterSelectAll` | src/pages/HomePage.tsx:70-90 | with distinct ids, select-all over k rows then unchecking one leaves k - 1 ids, so the length test makes the flag false |
| `HomePage.NormalizeUtc` | src/pages/HomePage.tsx:99-101 | the result ends with "Z", extends the input by at most one character, and equals the input iff the input already ends with "Z" |
| `HomePage.NormalizeUtcIdempotent` | src/pages/HomePage.tsx:99-101 | normalising twice equals normalising once |
| `HomePage.Dashboard.constructor` | src/pages/HomePage.tsx:28-31 | nothing is checked, the flag is off, and the shown rows are the collection |
| `HomePage.Dashboard.ApplyDebouncedQuery` | src/pages/HomePage.tsx:48-62 | the shown rows become the search result for the debounced query; the selection and the flag are not touched |
| `HomePage.Dashboard.ApplyLiveQuery` | src/pages/HomePage.tsx:64-68 | an empty live query shows the whole collection at once; a non-empty one changes nothing |
| `HomePage.Dashboard.HandleSelectAll` | src/pages/HomePage.tsx:70-79 | from flag on: empty selection, flag off; otherwise the selection is the shown rows' ids in order, and the flag is on |
| `HomePage.Dashboard.HandleCheckboxChange` | src/pages/HomePage.tsx:81-90 | the selection is toggled at the id and the flag becomes (selection length == shown length); the shown rows stay |
| `HomePage.Dashboard.HandleDelete` | src/pages/HomePage.tsx:92-96 | the collection is updated as the delete operation defines for the checked ids; the selection is emptied and the flag is off for every answer |
| `HomePage.SelectAllThenUncheckOne` | src/pages/HomePage.tsx:70-90 | on a fresh dashboard over k rows with distinct ids, select-all then one uncheck leaves k - 1 checked and the flag off |
| `LeadForm.FormData.With` | src/components/LeadForm.tsx:34 | the named field takes the value and every other field keeps its value |
| `LeadForm.ValidationRules` | src/components/LeadForm.tsx:38-49 | name error "Full Name is required" iff the name is all whitespace; email error "Email is required" when all whitespace, else "Email format is invalid" when the pattern finds no match, else none; no other key is ever reported |
| `LeadForm.OptionalFieldsIgnored` | src/components/LeadForm.tsx:38-49 | phone, company name and notes never get an error and do not change the errors of the other fields |
| `LeadForm.BlankNameErrors` | src/components/LeadForm.tsx:40-47 | an empty name with email "a@b.com" yields exactly the name error |
| `LeadForm.LeadFormState.constructor` | src/components/LeadForm.tsx:19-28 | all fields are "" and there are no errors |
| `LeadForm.LeadFormState.HandleChange` | src/components/LeadForm.tsx:30-36 | only the named field changes, to the value; that field's error and the general error become "" and the other errors stay |
| `LeadForm.LeadFormState.ValidateForm` | src/components/LeadForm.tsx:38-49 | the error map built step by step equals the error function of the current fields |
| `LeadForm.LeadFormState.HandleSubmit` | src/components/LeadForm.tsx:51-79 | with errors: they are merged over the old errors, data is kept, nothing is posted or submitted; without: the data is posted; on success the lead is handed on, fields reset to "" and errors emptied; on failure the general error is "Failed to submit lead. Please try again." and data is kept |
| `LeadForm.BlankNameScenario` | src/components/LeadForm.tsx:51-57 | typing a valid email and submitting with an empty name posts nothing and leaves exactly the cleared email and general errors plus the name error |
| `LoginForm.FormData.With` | src/components/LoginForm.tsx:24 | the named field takes the value and the other keeps its value |
| `LoginForm.ValidationRules` | src/components/LoginForm.tsx:28-39 | the email rules and messages are the lead form's; "Password is required" iff the password is the empty string |
| `LoginForm.EmailRuleSharedWithLeadForm` | src/components/LoginForm.tsx:30-34 | for the same email text both forms report an email error in the same cases, with the same message |
| `LoginForm.PasswordNotTrimmed` | src/components/LoginForm.tsx:35-37 | a password of three spaces passes; the empty password fails |
| `LoginForm.LoginFormState.constructor` | src/components/LoginForm.tsx:14-18 | both fields are "" and there are no errors |
| `LoginForm.LoginFormState.HandleChange` | src/components/LoginForm.tsx:20-26 | only the named field changes and only its error is cleared to "" |
| `LoginForm.LoginFormState.ValidateForm` | src/components/LoginForm.tsx:28-39 | the error map built step by step equals the error function of the current fields |
| `LoginForm.LoginFormState.HandleSubmit` | src/components/LoginForm.tsx:41-51 | with errors: the error map is replaced by exactly the new errors and the handler is not called; without errors the errors stay and the handler is called iff one was given; the data never changes |

## Left out

- Rendering, styling and layout of every component, including the input/textarea switch of `FormInput`, the loading overlay and the error boundary.
- Routing, bootstrapping and the page-level handlers (login, signup and create-lead pages). They navigate, read the DOM or show toasts.
- The HTTP client and token storage in `src/service/api.ts`. Endpoint answers are inputs of the model.
- Toast notifications after a delete, and the initial fetch of leads on the dashboard. Both are I/O effects.
- The debounce timer. The debounced query is a parameter of `HomePage.Dashboard.ApplyDebouncedQuery`.
- Date parsing and locale formatting in `formatDate`. Only the "Z" suffix rule is modelled.
- Unicode case mapping. `toLowerCase` is modelled on ASCII letters only.
- The re-filter after a delete. In the source it happens because the search effect depends on `leads`; in the model the caller applies `HomePage.Dashboard.ApplyDebouncedQuery` again.
- Async ordering. `HandleDelete` in the source clears the selection before the server answers. In the model the store update and the clearing happen in one call, and stale or interleaved answers are not modelled.
- `HomePage.Dashboard.HandleSelectAll`: requires every shown lead to have an id, as `lead.id!` assumes. The model does not capture the `undefined` entries such a lead would put into the selection in JavaScript.
- Field names outside the inputs' `name` attributes. A change event is modelled with one of the form's own fields, so `[name]: value` on an unknown key is out of scope.
- `LeadForm.LeadFormState.HandleSubmit`: the `created_at` timestamp sent with the post comes from the clock and is not modelled. A throw from inside `onLeadSubmit`, which the same `catch` would catch, is not modelled either.
- Environment configuration (`src/types/constants.ts`).
