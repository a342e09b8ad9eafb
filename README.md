# Time capsule core, modelled in Dafny

A model of the logic of a small browser app, written in React, that stores
"time capsules". A capsule is a titled message that stays locked until its
unlock date has passed. After that the user may open it, read it and delete
it. Three pieces are modelled:

- **The collection** (`Collection`, from `src/App.tsx`). The root component
  keeps the list of capsules, newest first, and a copy of it in local
  storage. Adding prepends a capsule. Updating replaces every entry with the
  same id. Deleting filters out every entry with the id. Each mutation then
  rewrites storage with the whole new list. Loading at start-up handles three
  cases: an absent or empty stored value leaves the list alone, unparsable
  text empties it, and a stored list becomes the list. `CapsuleStore` is a
  class with the fields `capsules` and `storage`. The lists it builds are the
  pure functions `Updated` and `WithoutId`, and lemmas state what they keep.
- **The capsule card** (`Lifecycle`, from `src/components/CapsuleItem.tsx`).
  A capsule is unlockable when the current time is strictly after its unlock
  time. The countdown is a cascade: months (whole days / 30) when more than
  30 whole days remain, then days, hours, minutes and seconds. Opening is a
  one-way flip of the card's `isOpen` state, and it sends the updated capsule
  to the collection. The card's view follows its state: which icon and
  footer it shows, and whether it shows a countdown. `CapsuleItem` is a class
  holding the capsule and `isOpen`.
- **The creation form** (`Form`, from `src/components/CapsuleForm.tsx`).
  Submitting first checks that the trimmed title, the trimmed message and the
  date are all non-empty. It then checks that the date is not before now.
  Each check has its own error text. On success it sends one new capsule and
  clears the form. `CapsuleForm` is a class holding the four text fields.

The modules `Types` (the `Capsule` record of `src/types.ts`) and `Text`
support the three above. `Text` models JavaScript's `String.prototype.trim`
and the decimal text a number produces inside a template literal.

Time is an integer number of milliseconds. Parsing a date string
(`dayjs(date)`) is a function parameter `parseTime`. Each `diff` in a given
unit is the millisecond difference divided by the unit's length, truncated
toward zero (`TruncDiv`). The clock, the new id and the creation timestamp
are parameters.

Points of the code's behaviour that the model keeps as written:
- Unlockable is strict: `isAfter`, so the unlock instant itself is still
  locked (src/components/CapsuleItem.tsx:20).
- The unlock date must be "dans le futur" by the form's own comment, but the
  check is `isBefore(now)`, so a date equal to the current instant is
  accepted (src/components/CapsuleForm.tsx:27-34).
- Exactly one minute before the unlock time the countdown comes from the
  minutes branch and reads "1 minutes restantes"
  (src/components/CapsuleItem.tsx:52-55).
- `handleOpen` on a card that is locked or already open changes no state
  and calls no callback (src/components/CapsuleItem.tsx:24).
- Update replaces, and delete removes, every entry carrying the id; nothing
  in the code makes ids unique (src/App.tsx:43-45, 52).
- The card reads the clock twice, once to decide whether the capsule is
  unlockable and once inside the countdown, so the two reads may fall on
  either side of the unlock time (src/components/CapsuleItem.tsx:31, 61).
- The ready text is "Prête à ouvrir" (src/components/CapsuleItem.tsx:34).

The field `opened` of the record is called `isOpened` here, because `opened`
is a Dafny keyword.

## Model

| member | source | states |
|---|---|---|
| `Text.Trim` | src/components/CapsuleForm.tsx:22 | A non-empty trimmed text neither starts nor ends with whitespace. |
| `Text.TrimEmptyIff` | src/components/CapsuleForm.tsx:22 | A text trims to nothing exactly when every character in it is whitespace. |
| `Text.TrimIsSlice` | src/components/CapsuleForm.tsx:39-40 | The trimmed text is one contiguous piece of the input, with only whitespace on either side of it. |
| `Text.TrimStartCutsWhitespace` | src/components/CapsuleForm.tsx:22 | Removing leading whitespace keeps a suffix of the text and cuts off only whitespace. |
| `Text.TrimEndCutsWhitespace` | src/components/CapsuleForm.tsx:22 | Removing trailing whitespace keeps a prefix of the text and cuts off only whitespace. |
| `Text.TrimIdempotent` | src/components/CapsuleForm.tsx:39-40 | Trimming an already trimmed title or message changes nothing. |
| `Text.NatToString` | src/components/CapsuleItem.tsx:40 | A count renders as a non-empty run of decimal digits, with a leading `0` only for zero, and zero renders as exactly `0`; with `DecimalRoundTrip` this fixes the text of every count. |
| `Text.DecimalRoundTrip` | src/components/CapsuleItem.tsx:40-58 | Reading the rendered digits back gives the number, so the countdown text carries exactly its count. |
| `Lifecycle.TruncDiv` | src/components/CapsuleItem.tsx:36 | A `diff` counts whole units toward zero: for a non-negative difference `q*b <= a < q*b + b`, for a negative one `q*b - b < a <= q*b`. |
| `Lifecycle.Diff` | src/components/CapsuleItem.tsx:36-57 | `later.diff(earlier, unit)`: the millisecond difference divided by the unit, rounded toward zero. `TruncDiv` states the bounds of that count, and `CountdownCounts` uses them for each unit. |
| `Lifecycle.IsUnlockable` | src/components/CapsuleItem.tsx:19-21 | `now.isAfter(unlockAt)`. `UnlockableMonotone` shows it stays true at later times. `AtUnlockInstant` shows it is false at the unlock instant itself. |
| `Lifecycle.UnlockableMonotone` | src/components/CapsuleItem.tsx:19-21 | Once a capsule is unlockable, it stays unlockable at every later time. |
| `Lifecycle.CountdownOf` | src/components/CapsuleItem.tsx:30-59 | The branch the countdown takes, with its count. Its contract says it is `Ready` exactly when the capsule is unlockable. `CountdownBranches` and `CountdownCounts` pin down every other branch by the remaining time. |
| `Lifecycle.CountdownBranches` | src/components/CapsuleItem.tsx:34-58 | Each countdown branch fires on exactly one range of the remaining time. Ready: less than 0 ms. Months: at least 31 days. Days: 1 to 31 days. Hours: 1 hour to 1 day. Minutes: 1 minute to 1 hour. Seconds: 0 ms to 1 minute. |
| `Lifecycle.CountdownCounts` | src/components/CapsuleItem.tsx:36-58 | The count each branch reports is the number of whole units in the remaining time, or of whole 30-day blocks for months. So months are at least 1, days 1..30, hours 1..23, minutes 1..59 and seconds 0..59. |
| `Lifecycle.Render` | src/components/CapsuleItem.tsx:34-58 | The text of each branch with the source's wording. `ReadyLabelIffUnlockable` shows only `Ready` renders as "Prête à ouvrir". `DecimalRoundTrip` shows every other text carries its count exactly. |
| `Lifecycle.CalculateTimeRemaining` | src/components/CapsuleItem.tsx:30-59 | `calculateTimeRemaining`. `ReadyLabelIffUnlockable`, `FortyFiveDaysReadsOneMonth`, `OneMinuteReadsOneMinute` and `AtUnlockInstant` state its results. |
| `Lifecycle.ReadyLabelIffUnlockable` | src/components/CapsuleItem.tsx:30-59 | The countdown text is "Prête à ouvrir" exactly when the capsule is unlockable. Any other text starts with a digit. |
| `Lifecycle.FortyFiveDaysReadsOneMonth` | src/components/CapsuleItem.tsx:36-41 | 45 days ahead reads "1 mois restants". |
| `Lifecycle.OneMinuteReadsOneMinute` | src/components/CapsuleItem.tsx:47-55 | Exactly one minute ahead reads "1 minutes restantes". |
| `Lifecycle.AtUnlockInstant` | src/components/CapsuleItem.tsx:19-58 | At the unlock instant itself the capsule is not unlockable, and the countdown reads "0 seconds restantes". |
| `Lifecycle.ViewOf` | src/components/CapsuleItem.tsx:61-148 | The card for a capsule, its open state and the two clock reads. `ViewInvariants`, `CountdownNotReadyAtOneInstant` and `CountdownReadyAcrossUnlock` state what it shows. |
| `Lifecycle.ViewInvariants` | src/components/CapsuleItem.tsx:61-148 | The mail badge, which also calls `handleOpen`, appears exactly when the capsule is unlockable, open card included. The message and its delete button appear exactly when the card is open. The countdown appears exactly when the card is neither open nor unlockable; it then shows the ready text exactly when the second clock read is past the unlock time. The footer's open button appears exactly when the card is unlockable and not open. |
| `Lifecycle.CountdownNotReadyAtOneInstant` | src/components/CapsuleItem.tsx:101-105 | When both clock reads see the same instant, a shown countdown is never the ready text. |
| `Lifecycle.CountdownReadyAcrossUnlock` | src/components/CapsuleItem.tsx:31-34 | For every unlock time and pair of clock reads with the first read not past the unlock time and the second read past it, a locked card shows "Prête à ouvrir" in its countdown slot. |
| `Lifecycle.CapsuleItem.constructor` | src/components/CapsuleItem.tsx:18 | `isOpen` starts as the capsule's `opened` flag. |
| `Lifecycle.CapsuleItem.HandleOpen` | src/components/CapsuleItem.tsx:23-28 | On an unlockable card that is not open, `isOpen` becomes true and the capsule is sent with `opened = true`. In every other state nothing changes and nothing is sent. `isOpen` never goes back to false. |
| `Collection.Updated` | src/App.tsx:43-45 | Same length. At each position, an entry with the argument's id becomes the argument and any other entry is unchanged. |
| `Collection.UpdatedProperties` | src/App.tsx:43-45 | An update keeps the sequence of ids. An update whose id no entry carries leaves the list unchanged. Updating twice equals updating once. |
| `Collection.WithoutId` | src/App.tsx:52 | `capsules.filter(c => c.id !== id)`. `WithoutIdContents` and `WithoutIdConcat` together determine it: which entries stay, how often, and in what order. |
| `Collection.WithoutIdContents` | src/App.tsx:52 | After a delete, each capsule with another id keeps all its occurrences. Each capsule with that id loses all of them, so no entry with that id remains. |
| `Collection.WithoutIdConcat` | src/App.tsx:52 | Deleting from a concatenation is concatenating the deletes, so the survivors keep their relative order. |
| `Collection.WithoutAbsentId` | src/App.tsx:52 | Deleting an id no entry carries leaves the list unchanged. |
| `Collection.WithoutIdIdempotent` | src/App.tsx:52 | Deleting twice equals deleting once. |
| `Collection.WithoutIdLength` | src/App.tsx:52 | A delete never makes the list longer. The length stays the same exactly when no entry carries the id. |
| `Collection.CapsuleStore.constructor` | src/App.tsx:9 | The list starts empty, whatever storage holds. |
| `Collection.CapsuleStore.SaveToStorage` | src/App.tsx:17-19 | Storage afterwards holds exactly the given list. The in-memory list does not change. |
| `Collection.CapsuleStore.LoadFromStorage` | src/App.tsx:22-32 | An absent or empty stored value leaves the list unchanged. Unparsable text empties the list. A stored list becomes the list. Storage is not written. |
| `Collection.CapsuleStore.HandleAddCapsule` | src/App.tsx:35-39 | The new capsule comes first, followed by all old entries in their old order. The length grows by one. Storage then holds the new list. |
| `Collection.CapsuleStore.HandleUpdateCapsule` | src/App.tsx:42-48 | The list becomes `Updated` of the old list. Storage then holds the new list, even when no entry matched. |
| `Collection.CapsuleStore.HandleDeleteCapsule` | src/App.tsx:51-55 | The list becomes the old list with every entry of that id removed. No entry with that id remains. Storage then holds the new list. |
| `Form.SubmitOutcome` | src/components/CapsuleForm.tsx:18-47 | How one submit ends, as error text or the new capsule. `MissingFieldsFirst`, `RejectedIff` and `CreatedCapsule` state each outcome. |
| `Form.MissingFieldsFirst` | src/components/CapsuleForm.tsx:22-25 | A blank title, a blank message or an empty date string gives "Veuillez remplir tous les champs", whatever the date. |
| `Form.RejectedIff` | src/components/CapsuleForm.tsx:22-34 | A submit is rejected exactly when a field is blank or the date is strictly before now. It gets the date error exactly when the fields are filled and the date is in the past. |
| `Form.CreatedCapsule` | src/components/CapsuleForm.tsx:37-47 | A successful submit produces a capsule with the given id and creation time. Title and message are trimmed and non-blank. The date string is kept as typed. `opened` is false and there are no media fields. The capsule is still locked at the moment it is created. |
| `Form.CapsuleForm.constructor` | src/components/CapsuleForm.tsx:13-16 | All four fields start empty. |
| `Form.CapsuleForm.HandleSubmit` | src/components/CapsuleForm.tsx:18-54 | Every submit has exactly one outcome. On a rejection only the error text is set and nothing is sent. On success exactly one capsule is sent and all four fields are cleared. |
| `Form.CapsuleForm.OnOpenChange` | src/components/CapsuleForm.tsx:58-63 | Opening or closing the dialog clears title, message, date and error. |

## Left out

- JSX markup, framer-motion animation, icons and the dialog/button components: presentational. `Lifecycle.ViewOf` keeps only which parts of a card are shown.
- dayjs parsing, formatting, time zones and daylight-saving time. Parsing is the parameter `parseTime`. The zone-offset correction dayjs applies to `diff` across a daylight-saving change is not modelled.
- Invalid dates. An unparsable date string makes dayjs produce `NaN` differences, which the integer model cannot represent.
- Storage reads and writes are assumed to succeed. In the source, `localStorage.getItem` (src/App.tsx:23) is outside the `try`, and `localStorage.setItem` (src/App.tsx:18) can throw (quota exceeded, storage disabled). Add, update and delete call `setCapsules` before `saveToStorage` (src/App.tsx:37-38, 46-47, 53-54), so a failed write leaves the new list in memory, the old value in storage, and an exception escaping the handler. `Collection.CapsuleStore.HandleAddCapsule`, `HandleUpdateCapsule` and `HandleDeleteCapsule` promise `Persisted()` only under this assumption.
- `localStorage` and `JSON.stringify`/`JSON.parse`: foreign calls. Storage is a field holding absent, the empty string, a list, or unparsable text. A stored JSON value that parses but is not an array is not modelled.
- `console.error` in the load fallback: diagnostics only.
- `Date.now()` and `new Date().toISOString()`: the id and the creation time are parameters. Id uniqueness is not claimed, because the code does not enforce it.
- `src/components/CapsuleList.tsx`: a one-second re-render tick and the list rendering. It changes no data.
- `mediaType`/`mediaPath`: present in the record, but no code path sets them.
- `Lifecycle.CapsuleItem`: the capsule a card was mounted with is a constant. React passes a new prop after an update, but `isOpen`, the only state, is not re-initialised from it.
