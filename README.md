# AutoML dashboard widgets: algorithm selector and model-detail card

This project models the logic inside two React components of an AutoML
dashboard and proves properties of that model.

- **Algorithm selector** (`Algorithm` module). The component holds the
  candidate algorithms (`data`) and the list of enabled entries `{id, name,
  params}` (`value`). It also holds the focused candidate (`singleData`), the
  entry shown for it (`singleValue`) and the `isDisable` flag. It derives each
  candidate's `checked` flag from the enabled list. It enables, disables and
  edits algorithms, and it adopts new props.
  - JavaScript objects are written in place here, so candidates, entries and
    the enabled array are Dafny objects (`Candidate`, `Entry`, `EntryList`).
  - Ids and names are constant fields. `checked`, `params` and the array's
    `items` are mutable fields.
  - The component itself is the class `Selector`. Its methods are the event
    handlers, and each states the component's whole new state.
- **Model-detail card** (`ModelDetail` module). The card is a pure function of
  one training-run record. It picks one of four display states (failure badge,
  waiting spinner, training spinner, full card) by the first matching case.
  - The full card shows a title (with the training time only for a successful
    run), one row per parameter and the feature-importance data.
  - It also shows the metric list, with each metric's name resolved through a
    lookup table, blank when the table does not know it.
  - The card's action buttons forward to the owner's callbacks only when those
    were supplied.
- `Common` holds an `Option` type and the model of a plain JavaScript object
  (an association list with distinct keys, in `Object.keys` order).

Behaviour of the code that is easy to misread:

- A job status of `"FAIL"` wins over a training status of `"CREATE"`: the
  card shows the failure badge, not the waiting spinner
  (`ModelDetail.FailedJobWhileCreating`).
- Unchecking removes every enabled entry with that id, not just one
  (`Algorithm.WithoutCount`).
- Checking never looks for the id first, so an id can be enabled twice
  (`Algorithm.AppendCount`).
- Editing parameters overwrites `params` on every entry with that id, in
  place. The emitted array is new, but its entries are the same objects as
  before (`Algorithm.Selector.ItemChange`).
- There are four display states. A training run with partial results has no
  state of its own: it gets the full card (`ModelDetail.StatusExact`).

Other behaviour of the code that the contracts make explicit:

- Checking pushes onto the state's own array. When that array is still the
  one the owner passed in, the owner's array grows too. Unchecking builds a new
  array and leaves the old one as it was (`Algorithm.Selector.SwitchChange`).
- After a switch, the focused entry is a separate new object with empty
  params. It is not the entry that was appended to the list.
- `componentWillReceiveProps` keeps the focused candidate even when the
  candidate array is replaced.
- New candidates with an unchanged enabled list take their flags from the
  owner's list. That list can differ from the state's list after a local
  uncheck the owner did not echo back. So the flag-equals-membership invariant
  is only promised when the state's list is still the owner's, when the
  enabled list itself changed, or when neither prop changed (then no flag
  moves at all).

## Model

| member | source | states |
|---|---|---|
| `Common.Lookup` | packages/zet-component/src/automl/modelList/modelDetail.tsx:129 | `o[key]` is absent exactly when no property has that key, and a value it returns is stored under that key |
| `Algorithm.Find` | packages/zet-component/src/automl/algorithm/index.tsx:90 | `find` by id returns nothing exactly when no entry has the id, and otherwise returns an entry of the list that has the id |
| `Algorithm.FindIsFirst` | packages/zet-component/src/automl/algorithm/index.tsx:89-92 | the entry `find` returns is the first entry with the id |
| `Algorithm.GetSingleValue` | packages/zet-component/src/automl/algorithm/index.tsx:89-92 | `getSingleValue` yields the first enabled entry with the focused id, or a new entry `{id, name, params: {}}` when there is none or the list is absent |
| `Algorithm.HandleData` | packages/zet-component/src/automl/algorithm/index.tsx:10-16 | after `handleData`, every candidate is checked exactly when some enabled entry has its id; the same array is returned and only the candidates' flags change |
| `Algorithm.Without` | packages/zet-component/src/automl/algorithm/index.tsx:113 | the filtered list keeps exactly the entries whose id differs, and no entry with the id is left |
| `Algorithm.CountId` | packages/zet-component/src/automl/algorithm/index.tsx:111-113 | the number of entries with an id is zero exactly when the id is not enabled |
| `Algorithm.WithoutAppend` | packages/zet-component/src/automl/algorithm/index.tsx:113 | the filter distributes over concatenation, so the kept entries stay in their original order |
| `Algorithm.WithoutCount` | packages/zet-component/src/automl/algorithm/index.tsx:112-114 | unchecking shortens the list by the number of entries with that id: all of them go, not just one |
| `Algorithm.WithoutKeepsOthers` | packages/zet-component/src/automl/algorithm/index.tsx:113 | unchecking one id keeps every entry of every other id |
| `Algorithm.WithoutAbsent` | packages/zet-component/src/automl/algorithm/index.tsx:113 | filtering out an id that is not enabled leaves the list as it was |
| `Algorithm.CheckThenUncheck` | packages/zet-component/src/automl/algorithm/index.tsx:108-114 | unchecking removes the entry checking appended, and restores the old list when the id was not enabled before |
| `Algorithm.AppendCount` | packages/zet-component/src/automl/algorithm/index.tsx:110-111 | checking adds one more entry with the id even when the id is already enabled (no duplicate guard) |
| `Algorithm.HasIdAppend` | packages/zet-component/src/automl/algorithm/index.tsx:108-111 | after a push, an id is enabled exactly when it was before or it is the pushed entry's id |
| `Algorithm.HasIdWithout` | packages/zet-component/src/automl/algorithm/index.tsx:112-113 | after the filter, an id is enabled exactly when it differs from the removed id and was enabled before |
| `Algorithm.Values` | packages/zet-component/src/automl/algorithm/index.tsx:75 | the structural snapshot that `JSON.stringify` compares holds each entry's id, name and params, position by position |
| `Algorithm.SameValuesSameIds` | packages/zet-component/src/automl/algorithm/index.tsx:75 | two enabled lists with equal snapshots enable the same ids |
| `Algorithm.ReplaceParams` | packages/zet-component/src/automl/algorithm/index.tsx:131-135 | the edit replaces params exactly on the entries with the edited id and keeps length, order, ids and names |
| `Algorithm.ReplaceParamsIdempotent` | packages/zet-component/src/automl/algorithm/index.tsx:131-135 | applying the same params edit twice equals applying it once |
| `Algorithm.Selector.constructor` | packages/zet-component/src/automl/algorithm/index.tsx:53-65 | initial state: props adopted, focus on the first candidate if any with its single value, flags derived, `isDisable` true |
| `Algorithm.Selector.ListChange` | packages/zet-component/src/automl/algorithm/index.tsx:94-102 | `onListChange` sets the focus and its single value, and leaves the enabled list, the candidates and `isDisable` alone |
| `Algorithm.Selector.SwitchChange` | packages/zet-component/src/automl/algorithm/index.tsx:104-126 | `onSwitchChange` sets the flag. Checking appends one new `{id, name, params: {}}` to the same array; unchecking stores a new filtered array and leaves the old array as it was. Focus moves to the candidate with a new empty entry, the new list is emitted, and the flag invariant is kept when the candidate's id is unique |
| `Algorithm.Selector.ItemChange` | packages/zet-component/src/automl/algorithm/index.tsx:128-137 | `onItemChange` overwrites params on exactly the entries with the id, in place, and emits a new array holding the same entries |
| `Algorithm.Selector.ReceiveProps` | packages/zet-component/src/automl/algorithm/index.tsx:67-87 | new props are adopted. New candidates get flags from the new list. A structurally different list replaces the state's list, recomputes flags and the focused entry for the unchanged focus, and ends with `isDisable` true. Otherwise list, focus and `isDisable` are untouched, and with the same candidate array as well, every candidate's flag is unchanged and the flag invariant is kept |
| `Algorithm.Selector.AdoptValue` | packages/zet-component/src/automl/algorithm/index.tsx:75-86 | the deferred update takes the new list, re-derives the flags and the focused entry, and ends with `isDisable` true |
| `ModelDetail.StatusOf` | packages/zet-component/src/automl/modelList/modelDetail.tsx:100-125 | a failed training is always the failure badge, a successful one always the full card. The spinners need `CREATE` or `TRAINING` (the latter with no results) and a job that did not fail |
| `ModelDetail.StatusMatchesTable` | packages/zet-component/src/automl/modelList/modelDetail.tsx:100-125 | the first-match switch equals an order-independent decision table keyed by training status |
| `ModelDetail.StatusExact` | packages/zet-component/src/automl/modelList/modelDetail.tsx:100-125 | each of the four display states is chosen exactly when its condition holds |
| `ModelDetail.FailedJobWhileCreating` | packages/zet-component/src/automl/modelList/modelDetail.tsx:101-114 | a failed job with training status `CREATE` shows the failure badge, not the spinner |
| `ModelDetail.FailedJobAfterSuccess` | packages/zet-component/src/automl/modelList/modelDetail.tsx:100-125 | a failed job with a successful training shows the full card |
| `ModelDetail.ElapsedSeconds` | packages/zet-component/src/automl/modelList/modelDetail.tsx:28-30 | the elapsed time is the millisecond difference in whole seconds, truncated toward zero |
| `ModelDetail.ElapsedExample` | packages/zet-component/src/automl/modelList/modelDetail.tsx:28-30 | a run of 125000 ms reports 125 seconds |
| `ModelDetail.TitleOf` | packages/zet-component/src/automl/modelList/modelDetail.tsx:135-157 | the title carries the elapsed time exactly when the training status is `SUCCESS`, and is otherwise the name alone |
| `ModelDetail.Matching` | packages/zet-component/src/automl/modelList/modelDetail.tsx:33 | the filter keeps exactly the table rows whose key is the metric's name |
| `ModelDetail.MetricName` | packages/zet-component/src/automl/modelList/modelDetail.tsx:32-38 | `getname` is the empty string when no row matches |
| `ModelDetail.MetricNameIsFirst` | packages/zet-component/src/automl/modelList/modelDetail.tsx:32-38 | `getname` is the name of the first matching row, whatever rows follow |
| `ModelDetail.Rows` | packages/zet-component/src/automl/modelList/modelDetail.tsx:126-131 | one `(name, value)` row per key, holding exactly the object's key/value pairs, with no name twice |
| `ModelDetail.ParamsData` | packages/zet-component/src/automl/modelList/modelDetail.tsx:126-131 | `paramsData` is empty when params are absent and otherwise has one row per key with that key's value |
| `ModelDetail.MetricRows` | packages/zet-component/src/automl/modelList/modelDetail.tsx:196-206 | each listed metric shows its score under the name `getname` resolves for it |
| `ModelDetail.UnknownMetricIsBlank` | packages/zet-component/src/automl/modelList/modelDetail.tsx:199-203 | a metric the table does not know is listed with a blank title |
| `ModelDetail.Render` | packages/zet-component/src/automl/modelList/modelDetail.tsx:57-215 | `render` shows each body exactly in its display state. The three status cards are titled with the name; the full card has the success-only title, the parameter rows, the chart data and, exactly when the record has a metric list, the metric rows built from it |
| `ModelDetail.Forward` | packages/zet-component/src/automl/modelList/modelDetail.tsx:40-55 | a click reaches the owner exactly when its callback was supplied: `view`/`forecast` pass their argument, `openModelDetail` passes `(modelId, name, jobId)` |

## Left out

- Markup and presentation: the JSX, the UI-library layout, card, list, spinner
  and icon widgets, the chart component, CSS. The selector's own `render` (it
  shows the parameter pane when `isDisable` holds and there is a focus) is
  markup too.
- `setState` batching and ordering: every state update is applied at once, in
  program order. The callback passed to `setState` runs right after it.
- `JSON.stringify` comparison of the old and new `value` props: modelled as
  equality of the structural snapshot `Values`. The order of keys in the
  serialised text is not modelled.
- Date parsing and formatting: begin and end times are integer milliseconds.
  Timestamps given as strings are not modelled.
- ElapsedSeconds: absent timestamps, which the date library reads as the
  current time, are not modelled; both times are always present.
- The contents of the metrics table: it is a parameter of the lookup.
- Localisation: the locale wrapper and its default texts.
- The child components (parameter pane, candidate list, card actions): their
  events are the arguments of the handler methods and of `Forward`.
- The `onChange` call itself: each handler returns the list it passes to
  `onChange` instead. The source calls `onChange` without checking for it,
  although the prop is optional; the model takes it as supplied.
- Parameter values are strings. Nested values and the truthiness of `0` or
  `""` result fields are not modelled: a result field is either absent or
  present. A status the record does not carry is the empty string.
- `Object.keys` order: an object's keys are taken in the order they are
  stored. JavaScript's rule that integer-like keys come first is not modelled.
- An empty candidate list: the source focuses `false` and builds a
  placeholder entry with an undefined id, which the selector never shows. The
  model has no focus and no single value then.
- A `null` value prop: the default props supply `[]` for an absent one.
  `Algorithm.GetSingleValue` still models the absent-list case it guards for.
- The branch of `componentWillReceiveProps` that runs on a new candidate array
  compares array identity, and so does the model.
