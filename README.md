# React course apps: local state logic in Dafny

This project models the local state handling of four small React apps from a
full-stack course. It leaves out their rendering. Each `useState` field is a
field of a Dafny class, and each setter call in an event handler is an
assignment to that field. The pure parts are Dafny functions: filters, lookups,
the vote maximum, the display classification and the exercise total.

- `Collections` (collections.dfy): `Array.prototype.filter` as `KeepIf` and
  `Array.prototype.find` as `FindFirst`. Also an order-preserving subsequence
  predicate.
- `Text` (text.dfy): the case-insensitive name filter. It is substring
  containment after ASCII lower-casing of both the name and the filter.
- `Phonebook` (phonebook.dfy): the phonebook app. Entries are `{name, phone}`.
  A submission appends the drafts unless an entry already has exactly that
  name, and then clears both drafts. The filter keeps matching entries in
  their order. `course/phonebook/src/App.js` and `part_01/phonebook/src/App.js`
  contain the same logic at different line numbers, and this one module models
  both.
- `Anecdotes` (anecdotes.dfy): the anecdote vote tally. This is a JavaScript
  object with insertion-ordered keys, modelled as a key list plus a count map.
  The module covers the initial tally built by `forEach`, the vote on the shown
  anecdote and the most-voted anecdote with its first-key tie-break.
- `Countries` (countries.dfy): the country search. It covers the four-way
  classification of the filter result, the show button that reads the country
  name back from its list item's text, and the details lookup.
- `CourseInfo` (course.dfy): the `reduce` that sums the exercises and the
  `map` from parts to rows.

Two behaviours of the phonebook code that a reader might not expect:
- Duplicate detection compares names exactly and case-sensitively (`===`,
  course/phonebook/src/App.js:49).
- An empty name is not rejected as such. It is appended once, and a second
  submission of it is refused as a duplicate.

## Model

| member | source | states |
|---|---|---|
| `Collections.KeepIf` | course/phonebook/src/App.js:72 | the filter result holds each passing element exactly as many times as the input does and no failing element, is an order-preserving subsequence of the input, is no longer than it, and is the whole input when every element passes |
| `Collections.FindFirst` | course/phonebook/src/App.js:49 | `find` gives `undefined` (None) iff no element passes; otherwise it gives an element that passes and that no earlier element precedes as a match |
| `Text.IsSubstringIffOccurs` | course/phonebook/src/App.js:71-72 | the containment test holds iff some slice of the name equals the pattern (both directions) |
| `Text.MatchesFilter` | course/phonebook/src/App.js:71-72 | the case-insensitive regex test of a literal filter: it holds iff the lower-cased filter is the slice of the lower-cased name at some position |
| `Text.EmptyFilterMatchesAll` | part_01/phonebook/src/App.js:36-37 | an empty filter matches every name |
| `Text.MatchIgnoresCase` | course/data_for_countries/src/App.js:89-91 | matching gives the same answer after lower-casing the name and the filter, so letter case never matters |
| `Phonebook.FindByName` | part_01/phonebook/src/App.js:14 | the lookup succeeds iff some entry has exactly that name, and then returns an entry of the list with that name |
| `Phonebook.FilteredPersons` | part_01/phonebook/src/App.js:35-38 | the shown entries are an order-preserving subsequence of `persons`, an entry is shown iff its name matches the filter, as many times as it occurs in `persons`, and the empty filter shows every entry |
| `Phonebook.FilterExample` | course/phonebook/src/App.js:70-73 | with names "Ada" and "Mary", the filter "da" keeps only "Ada" |
| `Phonebook.App.constructor` | course/phonebook/src/App.js:39-44 | the app starts with the single entry Arto Hellas / 040-1234567, with empty drafts and an empty filter, and its names are distinct |
| `Phonebook.App.HandleFormSubmission` | course/phonebook/src/App.js:46-56 | a name already listed leaves the entries and both drafts unchanged; a new name appends exactly `{newName, newPhone}` after the unchanged earlier entries and clears both drafts; either way the submitted name is listed afterwards, distinct names stay distinct, and the filter is untouched |
| `Phonebook.App.HandleNameChange` | course/phonebook/src/App.js:58-60 | the name draft becomes the typed value and nothing else changes |
| `Phonebook.App.HandlePhoneChange` | course/phonebook/src/App.js:62-64 | the phone draft becomes the typed value and nothing else changes |
| `Phonebook.App.HandleFilterChange` | course/phonebook/src/App.js:66-68 | the filter becomes the typed value and nothing else changes |
| `Phonebook.App.Shown` | course/phonebook/src/App.js:28-35 | the list shows the entries matching the current filter, in order and with their multiplicity, and reading it changes no state |
| `Phonebook.EmptyNameSubmittedTwice` | part_01/phonebook/src/App.js:11-21 | from the initial state, an empty-name submission is appended once and a second one is refused as a duplicate |
| `Anecdotes.FirstOccurrences` | part_01/anecdotes/src/App.js:15 | the key order built by assigning keys one by one has no repeats and holds exactly the listed anecdotes |
| `Anecdotes.FirstOccurrencesOfDistinct` | part_01/anecdotes/src/App.js:4-15 | for a list with no repeated anecdote, the keys are the list itself in the same order |
| `Anecdotes.FirstOccurrencesOrder` | part_01/anecdotes/src/App.js:15 | the keys are in first-occurrence order: for any two keys, every occurrence of the later one in the list comes after an occurrence of the earlier one |
| `Anecdotes.AnecdoteListDistinct` | part_01/anecdotes/src/App.js:4-12 | the seven anecdotes are pairwise different |
| `Anecdotes.InitialVotes` | part_01/anecdotes/src/App.js:14-15 | the initial tally has one key per distinct anecdote, in first-occurrence order, and every count is 0 |
| `Anecdotes.Vote` | part_01/anecdotes/src/App.js:25-31 | a vote raises the voted anecdote's count by exactly 1 and keeps every other count, the key set and the key order |
| `Anecdotes.MaxOf` | part_01/anecdotes/src/App.js:35-36 | the first value of the descending sort is a value of the list that is at least every value |
| `Anecdotes.IndexOf` | part_01/anecdotes/src/App.js:37 | `indexOf` finds a position holding the value, and no earlier position holds it |
| `Anecdotes.Tally.Values` | part_01/anecdotes/src/App.js:35 | `Object.values(votes)` has one value per key, and the value at each position is the count of the key at that position |
| `Anecdotes.AnecdoteWithMostVotes` | part_01/anecdotes/src/App.js:34-39 | nothing is returned iff the tally is empty; otherwise the key returned has a count at least every count, and every earlier key has a strictly smaller count (first key wins ties) |
| `Anecdotes.App.constructor` | part_01/anecdotes/src/App.js:41-42 | the first anecdote is selected and the tally has exactly the anecdotes as keys, in list order, each at 0 |
| `Anecdotes.App.HandleClickForNextAnecdote` | part_01/anecdotes/src/App.js:17-23 | the selection becomes the drawn index, which lies within the list |
| `Anecdotes.App.HandleClickForVote` | part_01/anecdotes/src/App.js:25-32 | the tally becomes a vote for the shown anecdote, and its keys remain exactly the anecdotes |
| `Anecdotes.App.MostVoted` | part_01/anecdotes/src/App.js:51-52 | in the app's state a most-voted anecdote always exists and is one of the listed anecdotes |
| `Countries.FilterCountryList` | course/data_for_countries/src/App.js:88-93 | the matches are an order-preserving subsequence of the countries, a country is kept iff its name matches, as many times as it occurs, and the empty filter keeps every country |
| `Countries.DisplayCountries` | course/data_for_countries/src/App.js:4-39 | an empty filter gives the blank case; otherwise more than 10 matches give "too many", exactly one match gives that country's details, and any other count (0, or 2 to 10) gives the list of exactly the matches in order |
| `Countries.TenMatchesAreListed` | course/data_for_countries/src/App.js:10-11 | exactly 10 matches are still listed, not refused |
| `Countries.NoMatchIsEmptyList` | course/data_for_countries/src/App.js:29-35 | a non-empty filter that matches nothing gives an empty list |
| `Countries.ItemText` | course/data_for_countries/src/App.js:33 | the text of a list item is the country name followed by the button label "show", 4 characters longer than the name |
| `Countries.JsSlice` | course/data_for_countries/src/App.js:83 | `slice` returns the characters between start and end when both lie within the text, nothing when the end is not after the start, everything up to the length plus a negative end (clamped at 0), and never more characters than the text has |
| `Countries.ShownName` | course/data_for_countries/src/App.js:82-84 | the handler drops the last 4 characters of an item text of length 4 or more; for shorter texts it follows `slice`'s negative end (3 characters keep 2, up to 2 keep none) |
| `Countries.ShowButtonRoundTrip` | course/data_for_countries/src/App.js:82-84 | the name read back from an item whose text is name + "show" is that name |
| `Countries.ShowCountryData` | course/data_for_countries/src/App.js:41-61 | an empty selection shows nothing; otherwise it shows the first country whose name equals the selection exactly, and it is in the missing case iff no country has that name |
| `Countries.App.constructor` | course/data_for_countries/src/App.js:63-74 | after the country list arrives, the filter and the selection are empty |
| `Countries.App.HandleCountryFilterChange` | course/data_for_countries/src/App.js:76-79 | the filter becomes the typed text and the selection is reset to empty |
| `Countries.App.HandleShowButtonClick` | course/data_for_countries/src/App.js:81-86 | clicking the button of a listed country selects the name read from its item, which is the name of a country in the list |
| `Countries.App.SelectedCountry` | course/data_for_countries/src/App.js:106 | in every reachable state the details view shows nothing or a country, and never reads a missing country |
| `CourseInfo.TotalOfNoParts` | part_01/course_information/src/components/Course.js:25 | the total of no parts is 0 |
| `CourseInfo.Reduce` | part_01/course_information/src/components/Course.js:25 | the left fold of `reduce` from any accumulator equals that accumulator plus the right-recursive sum of the exercises |
| `CourseInfo.Total` | part_01/course_information/src/components/Course.js:23-27 | the number `Total` shows, the fold from 0, equals the sum of all parts' exercises; its further properties are TotalCons, TotalAppend, TotalBoundsEachPart and TotalPermutation |
| `CourseInfo.TotalCons` | part_01/course_information/src/components/Course.js:25 | the total is the first part's exercises plus the total of the rest |
| `CourseInfo.TotalAppend` | part_01/course_information/src/components/Course.js:25 | the total of two joined lists is the sum of their totals |
| `CourseInfo.TotalBoundsEachPart` | part_01/course_information/src/components/Course.js:25 | with no negative exercise counts, the total is non-negative and at least each part's count |
| `CourseInfo.TotalPermutation` | part_01/course_information/src/components/Course.js:25 | reordering the parts does not change the total |
| `CourseInfo.Content` | part_01/course_information/src/components/Course.js:13-21 | one row per part, in order, with that part's id as key, its name and its exercises |
| `CourseInfo.TotalMatchesRows` | part_01/course_information/src/components/Course.js:29-36 | the total shown below the rows equals the sum of the exercise counts the rows show |

## Left out

- Rendering: JSX, the DOM and `ReactDOM.render`. The model keeps only the data each component computes.
- Regular-expression semantics of the filters (`new RegExp(filter, 'i')`). The filter text is treated as literal text. A filter with pattern metacharacters matches differently in the source or throws there, and the model does not capture that.
- Case folding beyond ASCII. The source's case-insensitive flag also folds non-ASCII letters, and the model lower-cases `A`-`Z` only.
- `Math.random`: the drawn index is a parameter of `HandleClickForNextAnecdote`, within the list's bounds.
- Anecdotes.MaxOf: the source sorts all vote counts in descending order and uses only the first element. The model computes that element (the maximum) directly and does not model the rest of the sort.
- Anecdotes.Tally: JavaScript puts integer-like keys ahead of the other keys in `Object.keys` order. The model keeps plain insertion order, which is the order for the app's anecdote keys.
- Anecdotes.Vote: the caller must pass a key present in the tally. The source would turn a missing key into `NaN`, but its only caller always passes a listed anecdote.
- The country fetch (axios `get` of the country list). `Countries.App.constructor` takes the fetched list as a parameter. The empty list before the response is not modelled, and neither is the order of the response relative to user input.
- `alert` and `console.log`. A duplicate submission's alert is treated as "no state change".
- Numbers are unbounded integers: exercise counts and vote counts do not model JavaScript's floating-point numbers. A country's area is a real.
- React's scheduling: the state updates inside one handler are applied together before the next event.
- part_01/unicafe/src/App.js (floating-point statistics), course/part3/backend/mongo.js and course/part3/backend/index.js (database and server start-up), course/part5/src/services/login.js (an HTTP wrapper) and course/my-app/src/index.tsx (types and a render call) are not part of this model.
