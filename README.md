# py3status: the persistent module storage and the pomodoro widget

This project is a Dafny model of two parts of py3status.

**The storage (`py3status/storage.py`)** keeps values for widget modules under a
(module name, key) pair across restarts.
- The storage file is an append-only log. Each line is a `json` record (a write) or a `clear` record.
- `init` replays the log into a nested dictionary in file order, then vacuums the file.
- A vacuum rewrites the file with one `json` record per live entry.
- `storage_set` and `storage_clear` update the dictionary, then append one record.

The model keeps these pieces:
- the dictionary is a `map` of `map`s;
- the file is a `seq<Record>`, or `None` while no file exists;
- the store is a class called `Storage` whose methods change those fields in place.

The class invariant `Valid()` says that replaying the file from an empty
dictionary gives the same entries as memory. Every operation keeps it, so a
restart reads back every value and every key set (`Storage.Restart`). Replay is
specified two ways, which are proved to agree:
- a left fold, `Storage.Replay`;
- "the last record about an entry wins", `Storage.Latest`.

**The pomodoro widget** comes in two versions: the package
`py3status/modules/simple_pomodoro/__init__.py` and its single-file predecessor
`py3status/modules/simple_pomodoro.py`. Both share a state machine of five
states and two transition tables (module `PomodoroStates`).
- A click follows the click table.
- The expiry of the last timer follows the timer table.
- In the package version, button 2 resets the machine.
- `_init_timers` builds five timers. The first four fire at each fifth of the duration and show a progress bar with one more empty segment. The fifth fires at the full duration and moves to the next state.

The bar text uses Python's `s * n` and `str.replace(old, new, count)`, modelled in module `PyStr`.

Files:
- `wrappers.dfy`: `Option`.
- `storage.dfy`: the storage.
- `pystr.dfy`: the two string operations.
- `pomodoro_states.dfy`: the states, the tables and the timer data.
- `simple_pomodoro.dfy`: the package widget.
- `simple_pomodoro_legacy.dfy`: the single-file widget.

Where the code may surprise a reader:
- `storage_set` suppresses a write when the stored value is Python-`==` to the new one, and Python's `==` has `True == 1`. So storing `1` over `True` changes nothing (`Storage.BoolEqualsItsInt`).
- `storage_set` updates memory before it appends to the file, and the model keeps that order.
- `storage_clear` without a key deletes nothing, yet still appends a `clear` record whose key is `None`.
- A clear can leave a module with an empty dictionary in memory. Replaying the vacuumed file cannot recreate that empty dictionary. So the invariant compares dictionaries after `Normalize`, which drops empty modules. `storage_get` and `storage_keys` cannot tell the difference.

## Model

| member | source | states |
|---|---|---|
| Storage.PyEquals | py3status/storage.py:71 | Python `==` on JSON values: structural, with `True == 1` and `False == 0` also inside lists and dictionaries; every value is `==` to itself, so setting the stored value again is suppressed; on `None` and strings it is plain equality, so setting `None` on an absent key is suppressed and nothing else is |
| Storage.PyEqualsSymmetric | py3status/storage.py:71 | `a == b` exactly when `b == a`, so the suppression does not depend on which side is the stored value |
| Storage.BoolEqualsItsInt | py3status/storage.py:70-72 | a bool and its integer are distinct values yet `==`, so one never overwrites the other |
| Storage.Namespace | py3status/storage.py:83 | `data.get(m, {})` holds exactly the keys stored for `m` |
| Storage.PyGet | py3status/storage.py:83 | the stored value when present, `None` when the module or the key is absent |
| Storage.SetEntry | py3status/storage.py:37-39 | after `data[m][k] = v` (creating `data[m]` when missing), (m, k) holds `v`, every other entry is unchanged, and module `m` exists |
| Storage.ClearEntry | py3status/storage.py:29-33 | a clear removes (m, k), leaves every other entry alone and creates no module; without a key it removes nothing |
| Storage.Apply | py3status/storage.py:24-39 | one record changes exactly the entry it is about: a write sets the value, a clear removes the entry |
| Storage.Replay | py3status/storage.py:23-39 | the loop of `init` as a left fold of the records in file order; an entry that no record is about keeps the value it had before the replay |
| Storage.ReplayAppend | py3status/storage.py:23-39 | replaying a log in two pieces is replaying it whole |
| Storage.ReplaySnoc | py3status/storage.py:23-39 | replaying one more line is applying that record to the replay so far |
| Storage.LastRecordWins | py3status/storage.py:23-39 | after replay each entry is what the last record about it says, or its starting value when no record is about it |
| Storage.LatestOfUnique | py3status/storage.py:61-64 | when exactly one record is about an entry, that record decides it |
| Storage.LatestUntouched | py3status/storage.py:23-39 | an entry no record is about keeps its starting value |
| Storage.Normalize | py3status/storage.py:29-33 | dropping empty module dictionaries keeps every entry and leaves no empty module |
| Storage.NormalizeEquiv | py3status/storage.py:82-83 | two dictionaries normalize to the same map exactly when they hold the same entries |
| Storage.LogStep | py3status/storage.py:70-98 | if the file replays to memory, appending a record and applying it to memory keeps it so |
| Storage.ReplayWritesNoEmpty | py3status/storage.py:59-68 | replaying only `json` records never leaves an empty module |
| Storage.CompactionEntry | py3status/storage.py:59-68 | replaying a vacuumed file from nothing gives back each entry of memory |
| Storage.CompactionReplays | py3status/storage.py:59-68 | replaying a vacuumed file, in whatever order it lists the entries, gives exactly the entries of memory |
| Storage.Encode | py3status/storage.py:45-57 | the `json` record for (m, k, v), replayed on any dictionary, stores `v` under (m, k) and touches nothing else |
| Storage.WriteCompacted | py3status/storage.py:59-65 | the nested loops write one `json` record per entry of memory, with the current value, no entry twice, and nothing else; replaying it gives the entries of memory |
| Storage.Storage.constructor | py3status/storage.py:9-12 | a fresh store: empty dictionary, not initialized, over the file found at the storage path |
| Storage.Storage.Init | py3status/storage.py:14-43 | a missing file changes nothing, and the store becomes initialized; otherwise memory is the file replayed on it in order, and the file is replaced by a compaction of it |
| Storage.Storage.ApplyRecord | py3status/storage.py:24-39 | one pass of the loop body of `init`: memory becomes the record applied to it |
| Storage.Storage.Vacuum | py3status/storage.py:59-68 | memory is unchanged, and the file is replaced by one record per entry that replays to exactly those entries |
| Storage.Storage.StorageSet | py3status/storage.py:70-80 | when the stored value (or `None`) is `==` to `v`, nothing changes and nothing is appended; otherwise (m, k) becomes `v`, exactly one `json` record is appended, and the invariant is kept |
| Storage.Storage.StorageGet | py3status/storage.py:82-83 | the stored value when (m, k) is present, `None` when it is absent; the same value as replaying the file |
| Storage.Storage.StorageClear | py3status/storage.py:85-98 | the entry is removed when present, other entries are unchanged, and exactly one `clear` record is appended in every case |
| Storage.Storage.StorageKeys | py3status/storage.py:100-101 | exactly the keys stored for the module, none for an unknown module; the same keys as replaying the file |
| Storage.Restart | py3status/storage.py:14-43 | a new store over the same file, once initialized, returns the same value for every entry and the same keys for every module |
| PyStr.Repeat | py3status/modules/simple_pomodoro/__init__.py:119 | `s * n`: `n` copies of `s` one after the other; copies of the empty string are empty |
| PyStr.RepeatLength | py3status/modules/simple_pomodoro/__init__.py:119 | `n` copies of `s` are `n` times as long as `s` |
| PyStr.Replace | py3status/modules/simple_pomodoro/__init__.py:119-120 | `s.replace(old, new, count)`: at most `count` occurrences of `old`, the leftmost first and without overlap, are replaced by `new`; an empty `old` matches before every character and at the end (CPython 3.9 and later) |
| PyStr.ReplaceStep | py3status/modules/simple_pomodoro/__init__.py:119-120 | with a count left, a string that starts with a non-empty pattern has that occurrence replaced first, and the remaining count applies to the rest |
| PyStr.ReplaceInRepeat | py3status/modules/simple_pomodoro/__init__.py:119-120 | replacing `n` of `m` leading copies of a non-empty segment turns exactly the first `n` copies into the replacement |
| PyStr.ReplaceAfterPrefix | py3status/modules/simple_pomodoro.py:228 | a prefix that does not contain a one-character pattern is copied unchanged by `replace` |
| PomodoroStates.ClickDomain | py3status/modules/simple_pomodoro/__init__.py:64-68 | a state has a click transition exactly when it is not taking a break |
| PomodoroStates.TimerDomainIsTimerStates | py3status/modules/simple_pomodoro.py:123-156 | timer expiry is defined exactly in the two states derived from `TimerState` (working, taking a break) |
| PomodoroStates.ClicksAvoidTimedTargets | py3status/modules/simple_pomodoro/__init__.py:64-68 | no click leads to a waiting state; only timers (or a reset) do |
| PomodoroStates.FifthsIncrease | py3status/modules/simple_pomodoro/__init__.py:116-127 | the `i`-th fifth of a positive duration grows strictly with `i`, and the fifth fifth is the duration |
| SimplePomodoro.BarText | py3status/modules/simple_pomodoro/__init__.py:118-120 | `(5 * full).replace(full, empty, i)` is `i` empty segments followed by `5 - i` full ones |
| SimplePomodoro.ScheduleShape | py3status/modules/simple_pomodoro/__init__.py:114-130 | the schedule `_init_timers` builds shows one more empty segment per timer, and for a positive duration it fires in strictly increasing order |
| SimplePomodoro.Py3status.constructor | py3status/modules/simple_pomodoro/__init__.py:47-55 | the configuration defaults (the two glyphs, 5 and 25 minutes) and the initial state |
| SimplePomodoro.Py3status.InitialState | py3status/modules/simple_pomodoro/__init__.py:57-75 | the machine waits for a start |
| SimplePomodoro.Py3status.EnterNextStateOnTimer | py3status/modules/simple_pomodoro/__init__.py:93-96 | the timer table is followed; in a state outside it the lookup raises `KeyError` and the state stays |
| SimplePomodoro.Py3status.EnterNextStateOnClick | py3status/modules/simple_pomodoro/__init__.py:98-107 | the click table is followed; in a state outside it the state stays |
| SimplePomodoro.Py3status.OnClick | py3status/modules/simple_pomodoro/__init__.py:132-139 | button 1 performs a click transition, button 2 resets to waiting for a start from any state, any other button changes nothing |
| SimplePomodoro.Py3status.InitTimers | py3status/modules/simple_pomodoro/__init__.py:114-130 | five timers: the `i`-th of the first four at `i * (d / 5) * 60` seconds showing the bar with `i` empty segments, the fifth at `d * 60` entering the next state; strictly increasing for `d > 0` |
| SimplePomodoro.PomodoroCycle | py3status/modules/simple_pomodoro/__init__.py:93-107 | from waiting for a start, button 1, the work timer, button 1 and the break timer lead back to waiting for a start, and neither timer transition raises `KeyError` |
| SimplePomodoro.PauseResume | py3status/modules/simple_pomodoro/__init__.py:132-134 | from work, button 1 twice (pause, resume) returns to work |
| SimplePomodoroLegacy.FullSegmentNotInSpan | py3status/modules/simple_pomodoro.py:36-38 | the full glyph is one character and does not occur in the span's opening tag |
| SimplePomodoroLegacy.BarText | py3status/modules/simple_pomodoro.py:228 | `FULL_BAR.replace(FULL, EMPTY, i)` is the span around `i` empty segments followed by `5 - i` full ones |
| SimplePomodoroLegacy.SpanBarText | py3status/modules/simple_pomodoro.py:38 | the same for any opening tag that lacks the glyph and any number of segments |
| SimplePomodoroLegacy.ScheduleShape | py3status/modules/simple_pomodoro.py:222-237 | the schedule `_init_timers` builds shows one more empty segment per timer, and for a positive duration it fires in strictly increasing order |
| SimplePomodoroLegacy.TimerDuration | py3status/modules/simple_pomodoro.py:123-156 | the duration a timed state passes to `_init_timers`: `POMODORO_DURATION_SEC` (10 seconds) for work, `BREAK_DURATION_SEC` (5 seconds) for the break; both positive |
| SimplePomodoroLegacy.Py3status.constructor | py3status/modules/simple_pomodoro.py:160-162 | the initial state |
| SimplePomodoroLegacy.Py3status.InitialState | py3status/modules/simple_pomodoro.py:164-183 | the machine waits for a start |
| SimplePomodoroLegacy.Py3status.EnterNextStateOnTimer | py3status/modules/simple_pomodoro.py:201-204 | the timer table is followed; in a state outside it the lookup raises `KeyError` and the state stays |
| SimplePomodoroLegacy.Py3status.EnterNextStateOnClick | py3status/modules/simple_pomodoro.py:206-215 | the click table is followed; in a state outside it the state stays |
| SimplePomodoroLegacy.Py3status.OnClick | py3status/modules/simple_pomodoro.py:245-246 | every button performs the click transition |
| SimplePomodoroLegacy.Py3status.InitTimers | py3status/modules/simple_pomodoro.py:222-237 | five timers: the `i`-th of the first four at `i * (d / 5)` seconds showing `FULL_BAR` with `i` empty segments, the fifth at `d` entering the next state; strictly increasing for `d > 0` |
| SimplePomodoroLegacy.Py3status.StartTimers | py3status/modules/simple_pomodoro.py:107-110 | a timed state entered without live timers gets five fresh timers for its own duration: at 2, 4, 6, 8 and 10 seconds for work, at 1, 2, 3, 4 and 5 seconds for the break, the last one entering the next state |
| SimplePomodoroLegacy.PomodoroCycle | py3status/modules/simple_pomodoro.py:201-215 | from waiting for a start, a click, the work timer, a click and the break timer lead back to waiting for a start, whatever the buttons, and neither timer transition raises `KeyError` |
| SimplePomodoroLegacy.PauseResume | py3status/modules/simple_pomodoro.py:245-246 | from work, any two clicks (pause, resume) return to work |

## Left out

- JSON text: a record holds the decoded value, and `json.loads(json.dumps(v)) == v` is taken for granted for `Value`. Tuples and dictionaries with non-string keys do not round-trip that way, so `Value` has none of them.
- Storage.PyEquals: floating-point numbers are left out of `Value` as a modelling choice. The model therefore does not capture the suppressions that `==` across numbers causes: `1` over `1.0` and `True` over `1.0` are suppressed. Nor does it capture that a NaN is never `==` to itself, so setting a NaN is never suppressed.
- The order in which `vacuum` writes the entries is the dictionary's iteration order: insertion order from Python 3.7, unspecified before. The model picks any order, and its results hold for every order.
- Storage.Storage.StorageSet: the model stores a copy of the value, while the source stores the caller's object itself. A caller that mutates a stored list or dictionary in place and sets it again is suppressed, because the object is `==` to itself. Memory then holds the mutated value while the file keeps the old one. The model's invariant that the file replays to memory does not hold for such callers in the source.
- Storage.Storage.StorageGet: the model returns a copy, while the source returns the stored object itself. A caller that mutates it changes memory without appending any record, so the value no longer matches what replaying the file gives.
- Storage.Restart: a restart reads back every value only if no caller has mutated a stored list or dictionary in place after `storage_set` or `storage_get`. The model's values cannot be mutated, so the property holds in the model unconditionally.
- Storage.Storage.Init: the model follows Python 2 file semantics for the vacuum. `NamedTemporaryFile` opens in binary mode, so under Python 3 writing an encoded `str` raises `TypeError` as soon as memory holds an entry. `except IOError` does not catch that error, so `init` would stop with memory replayed, the file untouched and `initialized` still false. The model's `Init` always vacuums and sets `initialized`.
- Storage.Storage.StorageSet and Storage.Storage.StorageClear: calling them before `init` is not modelled. The source then changes memory and raises `AttributeError` at the append, because `storage_path` is not set yet. The model requires an initialized store.
- Opening, appending, `NamedTemporaryFile`, `fsync` and the atomic `os.rename`: the file is a sequence of records, an append extends it (creating the file when missing), and a vacuum replaces it whole.
- Storage.Storage.StorageSet: an `IOError` on the append after memory was updated is not modelled. Memory would then be ahead of the file, and the invariant would not hold.
- Storage.Storage.Init: an `IOError` from the vacuum, which the same `except` swallows, is not modelled.
- Storage.Storage.Init: records whose `type` is neither `json` nor `clear`, and records without a `module` or `key` field, are not modelled. For the first the code reuses a stale `value` or fails; for the second it raises `KeyError`.
- `Storage.data` is a class attribute shared by every instance, so a second store's `init` merges into the first one's dictionary. The model gives each store its own dictionary, starting empty.
- `py3_wrapper` and the computation of the storage path: the file found at that path is the constructor's parameter.
- Storage.Storage.Vacuum and Storage.Storage.Init: replaying the vacuumed file gives memory's entries, not the same dictionary, because a module whose dictionary a clear emptied is not recreated (see `Storage.Normalize`).
- The `enter` and `exit` of each pomodoro state are not modelled: the display text (`full_text`), `py3.update`, `notify_user`, and the `PomodoroLogger` append to `~/.pomodoro.log`. `_initial_state` returns to waiting for a start without running them.
- Threads and the clock: starting, cancelling and resuming timers, `TimeleftTimer` and `time()`. A timer is the pair of its delay and its callback. So the timers a reset cancels, and the timers the legacy `StateWorking.exit` rebuilds on a pause, are not modelled.
- `update_output` and `_update_widget` only build or store the display text, so they are not modelled. The same holds for the legacy `kill`, which does nothing.
- `py3status/modules/pomodoro_counter.py` and `py3status/modules/simple_pomodoro_ng/states.py` are not part of this model.
- Delays are `real` numbers, not IEEE floating point.
- The states of the two widgets are distinct Python objects, created again on each reset. The model identifies a state by its class (`Phase`), and both widgets share the tables of `PomodoroStates`.
