# Certo survey logic, modelled in Dafny

Certo is a survey app. Researchers draft surveys in the browser and keep them in
local storage. Participants browse surveys by segmentation tag and answer them. This
project models the list, set and map logic inside its React pages, and proves what
each page's handlers do to that data:

- **Participant discovery** (`SurveyDashboard`, `AvailableSurveys`). Covers the
  catalogue of segmentation tags (flattened, sorted and de-duplicated), switching a
  filter tag on and off, and the filter that keeps the surveys carrying every active
  tag and, when the switch is on, World ID. The older page does the same over four
  built-in mock surveys.
- **Answering a survey** (`SingleSurvey`). Covers the map from question position to a
  radio choice or a list of ticked boxes, the checkbox handler, and how submitting
  turns the map into an `Answer` record.
- **Drafting a survey** (`CreateSurvey`). The editor is a class. Its questions are
  objects, because the option handlers change the shared question object in place.
  Storage is a `seq` field, and submitting appends to it.
- **Researcher dashboards** (`ResearcherDashboard`, `PublishedDashboard`). Covers
  deleting a survey by id, the published-only view, closing a survey by id, the
  button label, and the "Total cost" line (`parseInt(quota) * parseInt(amount)`).

Shared pieces:

- `Seqs` holds `Array.prototype.filter`, de-duplication through `new Set` (keeping
  first occurrences), and dropping one position.
- `StringOrder` holds the default `sort()` order on strings.
- `Api` holds the record shapes of `api/api.ts`.
- `Wrappers` holds `Option`.

The app has no draft validation, time-limit or quota check, eligibility rule or answer
aggregation, so none is modelled.

## Model

| member | source | states |
|---|---|---|
| Api.AnswersOf | api/api.ts:82 | the answers kept are exactly those whose `survey_id` equals the one asked for, every copy of each, in their original order |
| SurveyDashboard.Segmentations | app/components/dashboards/SurveyDashboard.tsx:62 | a tag is in the flattened list iff some survey carries it in `segmentation` |
| StringOrder.Sort | app/components/dashboards/SurveyDashboard.tsx:62 | `sort()` returns an ascending permutation of its input |
| StringOrder.SortedUnique | app/components/dashboards/SurveyDashboard.tsx:62 | two ascending permutations of the same strings are equal, so any correct engine sort gives `Sort`'s result |
| SurveyDashboard.DedupSortedIsStrict | app/components/dashboards/SurveyDashboard.tsx:62 | `Array.from(new Set(...))` over a sorted list gives a strictly increasing list |
| SurveyDashboard.AllRequisites | app/components/dashboards/SurveyDashboard.tsx:62 | the catalogue holds exactly the tags some survey carries, strictly increasing (sorted, no duplicates) |
| SurveyDashboard.ToggleFilter | app/components/dashboards/SurveyDashboard.tsx:73-79 | toggling flips whether the tag is active; other tags keep their membership and multiplicity; an absent tag is appended at the end; a present tag has every copy removed with the rest in order; a duplicate-free list stays duplicate-free; the older page's `toggleFilter` (app/participant/available/page.tsx, lines 65-71) is the same expression |
| SurveyDashboard.ToggleTwice | app/components/dashboards/SurveyDashboard.tsx:74-78 | toggling a tag twice restores which tags are active; for a tag that was inactive it restores the list exactly |
| SurveyDashboard.FilteredSurveys | app/components/dashboards/SurveyDashboard.tsx:81-84 | a survey is shown iff every active filter is among its `segmentation` and (the switch is off or its `requirements` include "World ID"); the list shown is an order-preserving subsequence of the surveys, with multiplicities kept |
| SurveyDashboard.NoFilterShowsAll | app/components/dashboards/SurveyDashboard.tsx:82-83 | with no filter and the switch off, every survey is shown, in order |
| SurveyDashboard.FilteringNarrows | app/components/dashboards/SurveyDashboard.tsx:81-84 | more active filters, or the switch turned on, give a subsequence of the previous list |
| AvailableSurveys.Requisites | app/participant/available/page.tsx:56 | a requisite is in the flattened list iff some mock survey lists it |
| AvailableSurveys.AllRequisites | app/participant/available/page.tsx:56 | the catalogue holds each requisite of some survey exactly once, ordered by where it is first met |
| AvailableSurveys.MockCatalogue | app/participant/available/page.tsx:20-56 | the twelve mock requisites are distinct, so the catalogue is their concatenation in survey order |
| AvailableSurveys.FilteredSurveys | app/participant/available/page.tsx:73-76 | a mock survey is shown iff all active filters are among its `requisites` and (the switch is off or `requiresWorldcoinId`), with multiplicities kept, in original order |
| AvailableSurveys.FilteringNarrows | app/participant/available/page.tsx:74-75 | adding filters or turning the switch on never enlarges the list |
| AvailableSurveys.MockVisibility | app/participant/available/page.tsx:20-76 | with no filter and the switch off all four mock surveys are shown; with the switch on only ids 2 and 4 can be |
| SingleSurvey.HandleInputChange | app/components/dashboards/SingleSurvey.tsx:15-17 | the entry for the question becomes the new value; every other entry is unchanged; no other key appears |
| SingleSurvey.CheckboxChange | app/components/dashboards/SingleSurvey.tsx:83-90 | ticking appends the option to the current selection, a missing entry counting as empty; unticking leaves exactly the other labels, in order, with their multiplicities; other questions are unchanged |
| SingleSurvey.RadioKeepsRecorded | app/components/dashboards/SingleSurvey.tsx:64-75 | choosing one of a single-choice question's options keeps every entry a valid position holding that question's options |
| SingleSurvey.CheckboxKeepsRecorded | app/components/dashboards/SingleSurvey.tsx:77-90 | ticking or unticking a box of a multi-select question keeps the entries valid, and the entry there is never a radio choice |
| SingleSurvey.SortedKeys | app/components/dashboards/SingleSurvey.tsx:25 | `Object.entries` lists the integer keys in ascending order, each once (ECMA-262, section 10.1.11.1) |
| SingleSurvey.EntriesSound | app/components/dashboards/SingleSurvey.tsx:25-28 | every entry carries a recorded key and exactly that key's labels |
| SingleSurvey.EntriesCover | app/components/dashboards/SingleSurvey.tsx:25-28 | every recorded key has its entry |
| SingleSurvey.EntriesOrdered | app/components/dashboards/SingleSurvey.tsx:25-28 | entries follow the ascending order of the keys |
| SingleSurvey.BuildAnswer | app/components/dashboards/SingleSurvey.tsx:23-29 | the answer names the survey's id; it has one entry per recorded key, in ascending key order; each entry carries its key and its labels (a radio choice as a one-element list, a checkbox list unchanged); unanswered questions have no entry |
| SingleSurvey.AnswerFitsSurvey | app/components/dashboards/SingleSurvey.tsx:59-90 | an answer built from what the form records refers only to questions of the survey and their options, with exactly one label for a single-choice question |
| CreateSurvey.ApplyEdit | app/researcher/CreateSurvey/page.tsx:62-73 | the edited field (`text` or `type`) takes the new value; the other fields keep theirs |
| CreateSurvey.UpdateParameters | app/researcher/CreateSurvey/page.tsx:93-98 | only the named parameter changes |
| CreateSurvey.CreateSurveyForm.constructor | app/researcher/CreateSurvey/page.tsx:36-52 | the draft starts with an empty title and description and one blank multiple-choice question with one empty option; quota and reward are off; both ID checks are optional |
| CreateSurvey.CreateSurveyForm.SetTitle | app/researcher/CreateSurvey/page.tsx:132 | only the title changes |
| CreateSurvey.CreateSurveyForm.SetDescription | app/researcher/CreateSurvey/page.tsx:143 | only the description changes |
| CreateSurvey.CreateSurveyForm.AddQuestion | app/researcher/CreateSurvey/page.tsx:54-56 | exactly one blank question is appended; the earlier questions and the rest of the state are unchanged; question objects stay distinct |
| CreateSurvey.CreateSurveyForm.RemoveQuestion | app/researcher/CreateSurvey/page.tsx:58-60 | exactly position `index` is dropped and the rest keep their order; an index outside the list changes nothing |
| CreateSurvey.CreateSurveyForm.UpdateQuestion | app/researcher/CreateSurvey/page.tsx:62-73 | only question `index` changes, and only in the edited field |
| CreateSurvey.CreateSurveyForm.AddOption | app/researcher/CreateSurvey/page.tsx:75-79 | only the options of question `questionIndex` change, gaining one `""` at the end; the change is made in place on that question object |
| CreateSurvey.CreateSurveyForm.UpdateOption | app/researcher/CreateSurvey/page.tsx:81-85 | only option `optionIndex` of question `questionIndex` changes |
| CreateSurvey.CreateSurveyForm.RemoveOption | app/researcher/CreateSurvey/page.tsx:87-91 | exactly option `optionIndex` of question `questionIndex` is dropped and the others keep their order; an index outside the list changes nothing |
| CreateSurvey.CreateSurveyForm.SetParameters | app/researcher/CreateSurvey/page.tsx:93-98 | the parameters become `UpdateParameters` of the old ones; nothing else changes |
| CreateSurvey.CreateSurveyForm.Submit | app/researcher/CreateSurvey/page.tsx:100-120 | the stored list keeps every earlier survey in order and gains the new survey at its end; the survey holds the draft's title, description, questions and parameters, no publication date, and is not closed |
| ResearcherDashboard.WithoutId | app/researcher/dashboard/page.tsx:48 | no remaining survey has the id; every survey with another id is kept with its multiplicity, in original order |
| ResearcherDashboard.DeleteAbsentId | app/researcher/dashboard/page.tsx:48 | deleting an id no survey has changes nothing |
| ResearcherDashboard.DeleteTwice | app/researcher/dashboard/page.tsx:48 | deleting the same id twice is deleting it once |
| ResearcherDashboard.Dashboard.constructor | app/researcher/dashboard/page.tsx:41-45 | on mount, the list shown is the stored list |
| ResearcherDashboard.Dashboard.DeleteSurvey | app/researcher/dashboard/page.tsx:47-51 | the list becomes `WithoutId` of the old list, and storage holds the same list |
| ResearcherDashboard.ParseInt | app/researcher/dashboard/page.tsx:91 | `parseInt` gives NaN iff no digit follows the optional sign; otherwise a value that is not positive after `-` and not negative otherwise |
| ResearcherDashboard.ParseShowNat | app/researcher/dashboard/page.tsx:91 | `parseInt` reads back a written number, signed or not, whatever non-digit text follows it |
| ResearcherDashboard.ParseDollarsAndCents | app/researcher/dashboard/page.tsx:91 | an amount written with a decimal point parses as its whole dollars |
| ResearcherDashboard.TotalCost | app/researcher/dashboard/page.tsx:86-94 | the cost is shown iff quota and reward are both enabled; it is a number iff both texts parse, and then it is the product of the two parsed values; the published page (app/researcher/dashboard/published/page.tsx, lines 85-91) shows the same expression under the same conditions |
| ResearcherDashboard.TotalCostDropsCents | app/researcher/dashboard/page.tsx:86-94 | a quota of `q` at `d` dollars and some cents shows `q * d`: the cents are dropped |
| PublishedDashboard.PublishedOnly | app/researcher/dashboard/published/page.tsx:47 | the published list is exactly the stored surveys with a non-empty `publishedAt`, in stored order, with multiplicities kept |
| PublishedDashboard.PublishedOnlyIdempotent | app/researcher/dashboard/published/page.tsx:47 | filtering for published surveys twice is filtering once |
| PublishedDashboard.CreatedSurveysAreUnpublished | app/researcher/CreateSurvey/page.tsx:107-116 | a survey appended by the editor has no `publishedAt`, so the published list is unchanged |
| PublishedDashboard.CloseById | app/researcher/dashboard/published/page.tsx:52-54 | length, order and ids are kept; at each position a survey with the id is closed and any other is unchanged |
| PublishedDashboard.CloseIdempotent | app/researcher/dashboard/published/page.tsx:52-54 | after closing, every survey with the id is closed; closing again changes nothing |
| PublishedDashboard.PublishedOnlyCloseCommute | app/researcher/dashboard/published/page.tsx:47-54 | filtering for published surveys and closing by id commute |
| PublishedDashboard.ButtonLabel | app/researcher/dashboard/published/page.tsx:104 | the label is "Closed" iff the survey is closed, and "Close Survey" otherwise |
| PublishedDashboard.PublishedPage.constructor | app/researcher/dashboard/published/page.tsx:43-49 | on mount, the list shown is the published part of storage |
| PublishedDashboard.PublishedPage.CloseSurvey | app/researcher/dashboard/published/page.tsx:51-57 | as written: the list shown is closed by id, and storage is overwritten with that same list |
| PublishedDashboard.CloseSurveyDropsUnpublished | app/researcher/dashboard/published/page.tsx:56 | after `closeSurvey`, no unpublished survey is left in storage; storage shrinks iff it held one |
| PublishedDashboard.CloseSurveyLosesDraft | app/researcher/dashboard/published/page.tsx:56 | a store of one draft and one published survey ends up holding only the published survey, closed |
| PublishedDashboard.PublishedPage.CloseSurveyInStorage | app/researcher/dashboard/published/page.tsx:51-57 | corrected close: storage is closed by id in full, and the list shown stays its published part |
| PublishedDashboard.CloseSurveyInStorageKeepsAll | app/researcher/dashboard/published/page.tsx:51-57 | the corrected close keeps the number of stored surveys and every unpublished survey with another id, and its published part is the closed published list |

## Left out

- Network and database access: `getAllSurveys`, `getSurvey`, `pushSurvey`,
  `getAnswers` and `pushAnswer` reach Supabase. Only their record shapes and the
  `survey_id` filter are modelled. The on-chain calls in `app/api/survey.ts` are not
  part of this model.
- The positional requirements encoding described in a comment in `api/api.ts` is read
  and written by no code, so it is not modelled.
- The eligibility check uses `Math.random() > 0.5`, so there is no rule to model. The
  results page shows precomputed or hard-coded data and aggregates nothing.
- Presentational and sign-in components (filters, tags, navigation bar, session
  header, login page, layout) are not part of this model.
- Browser storage is a `seq` field. Its JSON encoding, and the `'[]'` fallback for a
  missing entry, are not modelled.
- Ids from `Date.now()` and timestamps from `toISOString()` are parameters of
  `CreateSurvey.CreateSurveyForm.Submit`.
- Routing, `async`/`await`, the `submitted` flag and logging are not modelled.
- React state is held in fields, and a setter is an assignment. The model does not
  keep earlier state arrays alive. So it does not capture that the in-place option
  handlers also change the question objects that older state arrays still share.
- `SingleSurvey.Responses` keys are natural numbers, and `parseInt(index)` on them is
  the identity. JavaScript stores these keys as strings such as `"0"`, which read back
  as the same numbers.
- SingleSurvey.CheckboxChange: requires that the entry under a checkbox question is
  not a radio choice. The page only ever writes lists there, because a question's kind
  never changes.
- `CreateSurvey.QuestionEdit` covers only `text` and `type`, the two fields the form
  edits. `CreateSurvey.ParameterUpdate` covers only the three fields the form sets.
- ResearcherDashboard.ParseInt: leading white space and a `0x` prefix are not
  modelled. Quota and amount come from number inputs, whose text has neither.
- ResearcherDashboard.TotalCost: the product is an unbounded integer. JavaScript
  loses precision above 2^53. A `NaN` result is `NotANumber`, not the text "NaN".
- `AvailableSurveys.MockSurvey.rewardCents` holds the mock rewards in cents, not as
  floating-point dollars. No modelled operation reads the reward.
- `StringOrder.LexLe` compares characters, while JavaScript's default sort compares
  UTF-16 code units. The two orders differ only for characters outside the Basic
  Multilingual Plane.
- The `responses` count on the published cards and the date formatting are
  display-only and not modelled.

## Findings

| source | as written | input that shows it | evidently intended | confidence | as-written member | corrected member |
|---|---|---|---|---|---|---|
| app/researcher/dashboard/published/page.tsx:56 | `closeSurvey` writes the page's list, which holds only the published surveys, over the whole `'surveys'` entry | storage holds a draft without `publishedAt` and a published survey P; closing P leaves storage holding P alone, closed, so the draft is gone from the main dashboard | close the survey inside the full stored list and keep every other stored survey | not executed; medium (surveys created in the editor are never published, so the page lists a survey only if storage was filled elsewhere) | PublishedDashboard.CloseSurveyDropsUnpublished | PublishedDashboard.PublishedPage.CloseSurveyInStorage |
