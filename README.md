# Conversation history buffer of marvin, modelled in Dafny

This project models `History` from `src/marvin/utilities/history.py`, marvin's
conversation history buffer, and proves what it guarantees. The buffer keeps
a list of messages and offers three operations:

- `add_message` appends a message unless one with the same id is already
  stored. When `max_messages` is set, it then cuts the list to its last
  `max_messages` entries.
- `get_messages` returns a filtered, sliced copy of the list.
- `clear` empties the list.

Files:

- `wrappers.dfy` (module `Wrappers`): `Option`, used for Python's `None`
  defaults.
- `py_list.dfy` (module `PyList`): the Python list semantics the buffer
  relies on. It covers one-bound slices `xs[start:]` (`From`) and
  `xs[:stop]` (`Upto`) for every integer bound, negative and out-of-range
  ones included. It also covers filtering comprehensions (`Keep`) and the
  subsequence relation (`IsSubseq`) with its lemmas.
- `history.dfy` (module `MarvinHistory`): `Message`, the `HistoryFilter`
  record, the `History` class and the lemmas about its operations.

`History` is a class with a `seq<Message>` field and the optional
`maxMessages` limit. `AddMessage` and `Clear` are methods that change that
field. Each states the new list: `AddMessage` in terms of the function
`AddedMessages`, `Clear` directly. `GetMessages` only reads the buffer, so it
is a function over the stored list (`Select`), and it cannot change the
buffer. Its three steps are modelled in the source's order:

1. the filter comprehensions (`ApplyFilter`);
2. `xs[:-skip]`, applied only when `skip` is truthy;
3. `xs[-n:]`, applied only when `n` is not None.

Python's slices are modelled exactly, so negative `n`, `skip` and
`max_messages` get Python's behaviour. That behaviour is not excluded by a
precondition. Two cases show why `[-0:]` matters:

- `max_messages = 0` does not truncate, because `xs[-0:]` is the whole list.
- `n = 0` likewise keeps everything.

Filter fields follow Python truthiness:

- A timestamp bound filters whenever it is set. A `datetime` is always
  truthy, and timestamps are modelled as integers.
- A role list filters only when it is non-empty.
- `skip` of `None` or `0` both mean "no skip".

## Model

| member | source | states |
|---|---|---|
| `MarvinHistory.History.constructor` | src/marvin/utilities/history.py:16-18 | The buffer starts with the given messages and `max_messages` setting. |
| `MarvinHistory.ContainsId` | src/marvin/utilities/history.py:21-23 | The `any(...)` scan finds a match exactly when some stored message has the new message's id. |
| `MarvinHistory.AddedMessages` | src/marvin/utilities/history.py:21-27 | The list `add_message` leaves. If a stored message has the same id, the list is exactly the old one: no append and no truncation. Otherwise it is a suffix of `old + [m]`; the closed forms for each `max_messages` value are the lemmas below. |
| `MarvinHistory.History.AddMessage` | src/marvin/utilities/history.py:20-27 | The new list is `AddedMessages(old list, max_messages, m)`. `max_messages` is unchanged. A buffer whose ids were unique still has unique ids. |
| `MarvinHistory.AddKeepsIdsUnique` | src/marvin/utilities/history.py:21-27 | If no two stored messages share an id before `add_message`, none do afterwards, whatever `max_messages` is. |
| `MarvinHistory.AddNewUntruncated` | src/marvin/utilities/history.py:24-27 | A new message with `max_messages` of None or 0 gives exactly `old + [m]`. |
| `MarvinHistory.AddNewTruncated` | src/marvin/utilities/history.py:24-27 | A new message with `max_messages = k >= 1` leaves the last `min(|old|+1, k)` elements of `old + [m]`. The list then has at most `k` entries, and `m` is its last element. |
| `MarvinHistory.AddNewNegativeLimit` | src/marvin/utilities/history.py:26-27 | With a negative `max_messages = -k`, the first `k` elements of `old + [m]` are dropped. The list ends up empty exactly when `k > |old|`. |
| `MarvinHistory.AddKeepsBound` | src/marvin/utilities/history.py:26-27 | With `max_messages = k >= 1`, a list of at most `k` messages still has at most `k` after `add_message`. |
| `PyList.Bound` | src/marvin/utilities/history.py:44-47 | Python's normalisation of a slice bound `i` for a list of length `len`. A bound in `0..len` stays as it is, and a larger one becomes `len`. A negative bound counts from the end, and one before the start becomes 0. |
| `PyList.From` | src/marvin/utilities/history.py:47 | `xs[start:]` is a suffix of `xs`. A non-negative start drops the first `start` elements. A negative start keeps the last `-start` elements, or all of them if there are fewer. |
| `PyList.Upto` | src/marvin/utilities/history.py:44 | `xs[:stop]` is a prefix of `xs`. A non-negative stop keeps the first `stop` elements. A negative stop drops the last `-stop` elements, or all of them if there are fewer. |
| `PyList.Keep` | src/marvin/utilities/history.py:37 | The comprehension's result only holds elements of `xs` that satisfy the condition. Every element of `xs` that satisfies it appears in the result. |
| `PyList.KeepMultiset` | src/marvin/utilities/history.py:37 | The comprehension keeps every copy of an element that satisfies the condition and no copy of one that does not. |
| `PyList.KeepMembers` | src/marvin/utilities/history.py:37 | Every element the comprehension keeps comes from the source list and satisfies the condition. Its result is a subsequence of its source. |
| `PyList.WindowFacts` | src/marvin/utilities/history.py:43-47 | A suffix of a prefix of `xs` is a contiguous window of `xs`, and so a subsequence of it. |
| `PyList.KeepSubseq` | src/marvin/utilities/history.py:37-41 | A filtering comprehension keeps the order of its source list: its result is a subsequence of that list. |
| `PyList.KeepKeep` | src/marvin/utilities/history.py:37-41 | Two comprehensions in a row filter by the conjunction of their two conditions. |
| `MarvinHistory.Matches` | src/marvin/utilities/history.py:10-13 | A message passes a `HistoryFilter` when every condition that is set holds. The default filter has no roles and no bounds, and lets every message through. |
| `MarvinHistory.KeepAtOrAfter` | src/marvin/utilities/history.py:36-37 | The `timestamp_ge` comprehension, applied only when the bound is set. Its result is a subsequence of its input, and when the bound is set every message in it is at or after it. |
| `MarvinHistory.KeepAtOrBefore` | src/marvin/utilities/history.py:38-39 | The `timestamp_le` comprehension, applied only when the bound is set. Its result is a subsequence of its input, and when the bound is set every message in it is at or before it. |
| `MarvinHistory.KeepRoles` | src/marvin/utilities/history.py:40-41 | The `role_in` comprehension, applied only when the list is non-empty. Its result is a subsequence of its input, and when the list is non-empty every message in it has a listed role. |
| `MarvinHistory.ApplyFilter` | src/marvin/utilities/history.py:36-41 | The three truthiness-guarded comprehensions, in source order. The result is a subsequence of the input, and each message in it passes the filter. `ApplyFilterIsMatches` gives the converse. |
| `MarvinHistory.ApplyFilterIsMatches` | src/marvin/utilities/history.py:36-41 | The three comprehensions of `get_messages` together keep exactly the messages that satisfy every condition set in the filter. Those conditions are `timestamp >= timestamp_ge`, `timestamp <= timestamp_le` and role in `role_in`, and an empty `role_in` imposes nothing. |
| `MarvinHistory.Filtered` | src/marvin/utilities/history.py:33-41 | The filtering step, done only when a filter is given. With no filter it is the stored list itself. Otherwise it is a subsequence of the stored list, and each of its messages passes the filter. |
| `MarvinHistory.FilteredIsAdmitted` | src/marvin/utilities/history.py:35-41 | The filtering step keeps exactly the admitted messages in stored order. With no filter, it keeps the whole list. |
| `MarvinHistory.Sliced` | src/marvin/utilities/history.py:43-47 | `xs[:-skip]` when `skip` is truthy, then `xs[-n:]` when `n` is not None. For every integer `n` and `skip`, the result is a contiguous window `xs[lo..hi]`, and so an order-preserving subsequence of `xs`. `SlicedNonNegative` gives the window exactly. |
| `MarvinHistory.Select` | src/marvin/utilities/history.py:33-49 | What `get_messages` returns, for every `n`, `skip` and filter: an order-preserving subsequence of the stored messages. Every message in it satisfies each condition of the filter that is set. `SelectWindow` gives the exact window. |
| `MarvinHistory.SlicedNonNegative` | src/marvin/utilities/history.py:43-47 | Take `n` and `skip` non-negative, applied to a list `xs`. The result is `xs[start..stop]`. A `skip = s > 0` sets `stop = max(0, |xs| - s)`, so `s >= |xs|` gives `[]`; a `skip` of None or 0 drops nothing. Then `n >= 1` keeps the last `min(n, stop)` messages, and `n` of None or 0 keeps all that remain. |
| `MarvinHistory.SelectWindow` | src/marvin/utilities/history.py:33-47 | Filter, then skip, then `n`: for non-negative `n` and `skip`, `get_messages` returns the window `F[start..stop]` of `SlicedNonNegative`, taken over the admitted messages `F`. |
| `MarvinHistory.History.GetMessages` | src/marvin/utilities/history.py:30-49 | Only reads the buffer: it is a function with `reads this` and cannot change the stored list. It returns `Select` of the stored list: an order-preserving subsequence of the stored messages, each passing the filter. |
| `MarvinHistory.History.Clear` | src/marvin/utilities/history.py:51-52 | Afterwards the stored list is empty. `max_messages` is unchanged. |

## Left out

- `src/marvin/utilities/asyncutils.py` as a whole. It consists of:
  - background-task retention against garbage collection;
  - offloading to a thread pool;
  - running coroutines from synchronous code on a fresh or reused event loop;
  - installing synchronous twins of methods at class-creation time.

  All of it is concurrency or runtime reflection, with no sequential
  behaviour to state.
- Argument coercion and validation by pydantic (`BaseModel`,
  `Field(default_factory=...)`, `@validate_arguments`). This is library
  behaviour. The arguments are modelled directly as `Option<int>` and
  `Option<HistoryFilter>`.
- `datetime` semantics. Timestamps are integers with their usual order.
- The other attributes of messages. `Message` and `Role` from
  `marvin.utilities.messages` are not part of this model: a message is its
  id, timestamp and role name.
- Aliasing of the Python list. `append` and `clear` act on the list object in
  place, and the truncation rebinds the field to a new list. The model only
  tracks the field's value, so another reference to the same list object is
  not modelled.
- Uniqueness of ids in the initial list. The constructor accepts any list,
  as the source's field does. Uniqueness of ids is therefore proved as an
  invariant that `add_message` preserves, not as one the buffer establishes.
