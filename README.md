# ClinicalTrials.gov study fetcher — Dafny model

This project models the core of `clinical_trials_client.py`, a client of the
ClinicalTrials.gov v2 `studies` endpoint. The core has two parts:

- **The record projector** (`_extract_study_data`) takes one raw study, as
  decoded JSON. It reads a fixed set of fields along chains of
  `dict.get(section, {})` lookups, with per-field defaults: "Not Available"
  for text, `[]` for lists and `None` for the enrollment count. It also
  builds three derived lists: intervention names, primary outcome measures
  and "city, country" location strings, each defaulting a missing entry
  field to "N/A". Any exception downgrades the study to "skipped".
- **The paginated query runner** (`fetch_all_trials`) sets `pageSize` on a
  copy of the caller's query and requests page after page. For each page it
  appends every successfully projected study to the result. It stores a
  truthy `nextPageToken` as `pageToken` for the next request. It stops when
  the token is missing, a request fails, or `max_pages` pages have been
  requested.

The model has four modules:

- `Wrappers` (`wrappers.dfy`): `Option` and `Result`.
- `JsonValues` (`json.dfy`): decoded JSON values and the Python operations the
  client applies to them:
  - `dict.get`, including the exception it raises on a non-dict;
  - iteration inside a list comprehension, where a dict yields its keys and a
    string its characters;
  - truth testing;
  - `str()` inside an f-string.

  It also gives a path-based reference view, `At`/`AtOr`, of nested values.
- `StudyExtraction` (`extraction.dfy`): the projector, written as the same
  chain of lookups as the code. The properties are stated against the
  reference view: which studies the projector accepts, and which value every
  field takes.
- `TrialFetch` (`fetch.dfy`): the runner, as a method with the code's loop.
  - The network is a `Server` oracle that gives the response to the k-th
    request.
  - The method is proved against the specification functions `Fetched` (the
    records returned) and `RequestCount` (the number of requests made). It
    also returns, as a ghost result, the parameters it sent with each request.
  - Lemmas relate those functions to the stopping conditions and to the
    bounds on requests and records.

The code and its own docstrings disagree in two places; the model follows
the code.

- The docstring of `_extract_study_data` (`clinical_trials_client.py:21-22`)
  promises `None` "if essential data is missing". The code defaults every
  missing field instead: for example, `get('protocolSection', {})` yields an
  empty dict, so a study without a protocol section is accepted with every
  field at its default (`StudyExtraction.MissingProtocolGivesDefaults`). Only
  a value of the wrong shape (a section that is present but not a dict, a
  list entry that is not a dict) makes extraction fail
  (`StudyExtraction.ExtractSucceedsIffWellShaped`).
- The docstring of `fetch_all_trials` (`clinical_trials_client.py:105-106`)
  promises an empty list "if ... an error occurs". The code breaks out of the
  loop and returns what it has accumulated so far
  (`TrialFetch.StopsOnFailedRequest`).

## Model

| member | source | states |
|---|---|---|
| JsonValues.GetStep | clinical_trials_client.py:28-31 | One `.get(key, default)` step on a section that defaults to `{}` succeeds exactly when the section is a dict or absent. It then yields the value at the extended path, or the step's default. |
| JsonValues.AtAppend | clinical_trials_client.py:38 | Following a path `p + q` is following `p` and then `q` from where `p` ended; this is why chained `.get` calls compose. |
| JsonValues.MapEach | clinical_trials_client.py:59 | A comprehension over a list succeeds exactly when the body succeeds on every element. It then has one result per element, in order. |
| JsonValues.ComprehendObjects | clinical_trials_client.py:68 | A comprehension whose body needs a dict succeeds exactly on a list of dicts, an empty dict or an empty string. It then yields one result per element, in order. |
| JsonValues.Digits | clinical_trials_client.py:73 | The decimal text of a natural number is non-empty, made only of digits, and has no leading zero. |
| JsonValues.DigitsValue | clinical_trials_client.py:73 | Reading the decimal text back gives the number it was made from. |
| JsonValues.DisplayNonNegative | clinical_trials_client.py:73 | A non-negative integer city or country is shown in the f-string as its decimal spelling, without leading zeros. |
| JsonValues.DisplayNegative | clinical_trials_client.py:73 | A negative integer is shown as "-" followed by the decimal spelling of its magnitude, without leading zeros. |
| StudyExtraction.IdentificationFollowsPaths | clinical_trials_client.py:28-33 | Reading the protocol section fails exactly when the study is not a dict. Reading the identification module fails exactly when the protocol section is not a dict or absent. `nctId` and `briefTitle` are the values at their paths, or "Not Available". |
| StudyExtraction.StatusSectionFollowsPaths | clinical_trials_client.py:36-39 | The status section reads without failing exactly when the status module and both date structs are dicts or absent. Status, start date and completion date are then the values at their paths, or "Not Available". |
| StudyExtraction.DesignSectionFollowsPaths | clinical_trials_client.py:42-45 | The design section reads without failing exactly when the design module and `enrollmentInfo` are dicts or absent. Phases default to `[]`, study type to "Not Available" and the enrollment count to null. |
| StudyExtraction.ConditionsSectionFollowsPaths | clinical_trials_client.py:48-50 | The conditions section reads without failing exactly when the conditions module is a dict or absent. Conditions and keywords are then the values at their paths, or `[]`. |
| StudyExtraction.EligibilitySectionFollowsPaths | clinical_trials_client.py:53-54 | The eligibility section reads without failing exactly when its module is a dict or absent. The criteria are then the value at their path, or "Not Available". |
| StudyExtraction.InterventionsSectionFollowsPaths | clinical_trials_client.py:57-59 | The intervention names are computed without failing exactly when the module is a dict or absent and the interventions are iterable dicts. There is then one name per intervention, in order, and "N/A" where the name is missing. |
| StudyExtraction.DescriptionSectionFollowsPaths | clinical_trials_client.py:62-63 | The description section reads without failing exactly when its module is a dict or absent. The brief summary is then the value at its path, or "Not Available". |
| StudyExtraction.OutcomesSectionFollowsPaths | clinical_trials_client.py:66-68 | The primary outcome measures are computed without failing exactly when the module is a dict or absent and the outcomes are iterable dicts. There is then one measure per outcome, in order, and "N/A" where the measure is missing. |
| StudyExtraction.LocationsSectionFollowsPaths | clinical_trials_client.py:71-73 | The location strings are computed without failing exactly when the module is a dict or absent and the locations are iterable dicts. There is then one "city, country" string per location, in order, and "N/A" for a missing city or country. |
| StudyExtraction.ExtractSucceedsIffWellShaped | clinical_trials_client.py:27-89 | Extraction succeeds if and only if the study is well shaped: a dict, every section it descends into a dict or absent, and every list it iterates a list of dicts, an empty dict or empty string, or absent. Every other study gives a failure, never an escaping error. |
| StudyExtraction.TextFieldsFollowPaths | clinical_trials_client.py:32-63 | On success, each of the eight text fields is the value at its path in the study, or "Not Available" when a key on that path is absent. |
| StudyExtraction.ListFieldsPassThrough | clinical_trials_client.py:43-50 | On success, phases, conditions and keywords are passed through unchanged, or `[]` when absent. The enrollment count is null, not 0, when absent. |
| StudyExtraction.EntryListsFollowPaths | clinical_trials_client.py:56-73 | On success, interventions, outcome measures and locations have exactly one entry per source element, in source order. A missing name, measure, city or country becomes "N/A", which is distinct from "Not Available". |
| StudyExtraction.FailureCarriesBestKnownId | clinical_trials_client.py:25-32 | A failed extraction reports the nct id that was bound when it stopped, or "Not Available" when the identifier itself was not reached. |
| StudyExtraction.MissingProtocolGivesDefaults | clinical_trials_client.py:28 | A dict study without `protocolSection` is accepted, and every field takes its default. |
| TrialFetch.AppendExtracted | clinical_trials_client.py:143-147 | The per-page loop appends the records of the page's raw studies to the accumulated list, in order, dropping failed extractions. Iterating a dict or a string appends nothing. |
| TrialFetch.KeptConcat | clinical_trials_client.py:144-147 | Filtering a concatenation of raw study lists keeps the records of each part, in order. |
| TrialFetch.KeptExactlySuccesses | clinical_trials_client.py:144-147 | A record is in a page's result if and only if some raw study of the page extracts to it. |
| TrialFetch.KeptAtMost | clinical_trials_client.py:144-147 | A page yields no more records than raw studies, and exactly as many if and only if every extraction succeeds. |
| TrialFetch.PageRecordsBound | clinical_trials_client.py:138-147 | The records of one page are no more than its raw studies. |
| TrialFetch.FetchAllTrials | clinical_trials_client.py:93-165 | The result is `Fetched`: the records of every page requested, page after page. The number of requests is `RequestCount`, and none is made when `max_pages <= 0`. Request k carries the caller's query with `pageSize` set and, from the second request on, `pageToken` set to the previous page's token. Every request but the last followed a page that handed out a truthy token. `max_pages` and `page_size` default to 10 and 100. |
| TrialFetch.ParamsStep | clinical_trials_client.py:152-154 | Storing the token of page k turns the parameters of request k into those of request k+1, and the earlier token is overwritten. |
| TrialFetch.RequestsAtMostMaxPages | clinical_trials_client.py:115-119 | At most `max_pages` requests are made, and none when `max_pages` is zero or negative. |
| TrialFetch.FetchedAtMostRaw | clinical_trials_client.py:138-147 | The result has no more records than the requested pages had raw studies. |
| TrialFetch.FetchedWithinPageSize | clinical_trials_client.py:111-147 | When no page holds more than `page_size` studies, the result has at most (requests made) × `page_size` records. |
| TrialFetch.FetchedPrefix | clinical_trials_client.py:138-162 | While every page hands out a token, the result is those pages' records in order, followed by what later requests bring. |
| TrialFetch.RequestCountPrefix | clinical_trials_client.py:150-162 | While every page hands out a token, each of those pages costs exactly one request. |
| TrialFetch.StopsAtFirstPageWithoutToken | clinical_trials_client.py:150-162 | If page `last` is the first without a truthy token, exactly `last + 1` requests are made. The result is then the records of pages 0..last, in order. |
| TrialFetch.StopsOnFailedRequest | clinical_trials_client.py:123-135 | If request `failed` is the first to fail, exactly `failed + 1` requests are made. The result is then the records of the earlier pages only. |
| TrialFetch.StopsAtPageLimit | clinical_trials_client.py:115-119 | When every page hands out a token, exactly `max_pages` requests are made and all their records are returned. |
| TrialFetch.EmptyPageWithTokenContinues | clinical_trials_client.py:139-141 | A page with no studies but with a token adds nothing and does not stop the loop. |

## Left out

- Network I/O: `requests.get`, `raise_for_status` and `response.json()` are replaced by the `Server` oracle. A transport error, a 4xx or 5xx status and undecodable JSON all end the loop the same way, so the model keeps them only as the two failure responses.
- The parsing of JSON text is not part of this model: bodies are given already decoded.
- `BASE_URL` is not modelled: the oracle stands for the endpoint.
- `time.sleep(0.5)` between pages and every `print` are left out. They do not affect the result.
- Floating-point JSON numbers are not modelled: only integers are.
- Dict key order is not modelled. Objects are maps, and the only place order could matter is iterating a dict, whose keys are strings on which extraction fails whatever their order.
- The `__main__` example block and `agent.py` are not part of this model.
- The caller's `query_params` is a value here. The code copies it before changing it, so the caller never sees an update.
- TrialFetch.FetchAllTrials: bodies on which the loop itself raises are excluded by its precondition: a body that is not a dict, or a `studies` value with no length (null, number, boolean). The code reads these outside any `try`, so the whole call raises, which the model does not represent.
- JsonValues.Display: renders a list or dict as a placeholder rather than Python's `repr`. So StudyExtraction.LocationOf is exact only when city and country are strings, integers, booleans or null.
- StudyExtraction.ExtractStudyData: the "skipped" outcome carries the identifier that would be logged, but the log message itself is not modelled.
