# org-server reminder core, modelled in Dafny

org-server reads Emacs org-mode files, derives reminders from their `SCHEDULED:` and
`DEADLINE:` timestamps, keeps the pending reminders in a long-lived collection and sends a
desktop notification when a reminder's time has passed. A file watcher re-parses files as
they change. This project models the sequential logic at the centre of that system and
proves properties of it:

- **Reminder derivation** (`reminder.dfy`, module `Reminder`). It walks a section tree. For
  each scheduling entry it parses the timestamp, retrying with `" 09:00"` appended. When the
  target time is strictly after `now`, it emits three reminders, 30, 10 and 1 minute before the
  target. The older copy lives in `remainder.dfy` (module `Remainder`). That copy uses bare titles
  and a scheduling type that carries only the timestamp text.
- **Position shifting** (`movable.dfy`, module `Movable`). Every node kind's `move_point`
  is a method that rebuilds its node with a `while` loop over each child list and recursion into
  subsections. Each method is proved equal to a generic specification function `Map*`, which
  replaces every position `p` by `f(p)`.
- **The set-based engine** (`reminder_engine.dfy`, class `ReminderEngine.Engine`). A
  `HashSet<Reminder>` whose equality covers only `(title, datetime)`. Receive inserts the reminders
  that lie in the future. A tick notifies and collects the due reminders, then removes them.
- **The vector-based engine** (`remainder_engine.dfy`, class `RemainderEngine.VecEngine`).
  Receive appends. A tick runs a `while i < len` loop that either removes the entry at `i` or
  steps past it.
- **The watcher loop** (`watcher.dfy`, module `Watcher`). It receives watch results and skips an
  event equal to the previous event. A `Modify` event parses and sends every path of the event.

Shared definitions are the document tree in `orgtree.dfy` and `Option` in `common.dfy`.
Throughout the model, time is a whole number of seconds. Three things are parameters:

- the timestamp parser (`parse_from_str` with format `"%F %a %R"`), as `parse: string -> Option<int>`;
- the current time, as `now`;
- reading and parsing a file, as `parseFile: string -> Option<D>`.

Desktop notifications are appended to a ghost `log` of `(summary, body)` pairs. The watcher's
channel is a sequence of `Option<WatchResult>`, in which `None` is the channel closing.

The tree types (`Pos`, `Section`, `Properties`, `Drawer`, `Keyword`, `Property`, `Content`,
`Scheduling`) are not defined in `parser/src/parser.rs`, whose only `Property` has no
position (parser/src/parser.rs:31-34). They are declared from how `parser/src/movable.rs`
and `parser/src/reminder.rs` use them. `parser/src/remainder.rs` matches
on `Scheduling::Scheduled(ref datetime)`, with no position. Its tree is therefore modelled
separately, as `OldScheduling` and `OldSection`.

## Model

| member | source | states |
|---|---|---|
| Reminder.SameIffHashKey | parser/src/reminder.rs:13-24 | equality holds exactly when the hash inputs (title, datetime) agree; the originating entry never separates two reminders |
| Reminder.SameIsEquivalence | parser/src/reminder.rs:13-17 | the custom equality is reflexive, symmetric and transitive |
| Reminder.CreateReminder | parser/src/reminder.rs:42-66 | exactly three reminders, in order, at target minus 30, 10 and 1 minutes, titled with the three fixed messages followed by the title, all carrying the entry and strictly increasing in time, all before the target |
| Reminder.ConvertReminder | parser/src/reminder.rs:69-118 | a result exists exactly when the timestamp, parsed as written or else with " 09:00" appended, gives a time strictly after now; it is then the three reminders for that time; a first parse at or before now gives none, without the fallback being tried |
| Reminder.ScheduledLikeDeadline | parser/src/reminder.rs:72-116 | a Scheduled and a Deadline entry with the same timestamp both give reminders or both give none, with equal (title, datetime) keys |
| Reminder.GetReminders | parser/src/reminder.rs:26-40 | the result is the section's own entries' reminders in entry order, followed by each subsection's reminders in order |
| Reminder.RemindersTriples | parser/src/reminder.rs:26-40 | the number of derived reminders is a multiple of three |
| Reminder.OwnTriples | parser/src/reminder.rs:28-32 | the reminders of any prefix of a section's own entries number a multiple of three |
| Reminder.ChildTriples | parser/src/reminder.rs:33-38 | the reminders of any prefix of the subsections number a multiple of three |
| Reminder.RemindersSound | parser/src/reminder.rs:26-40 | every derived reminder is one of the three reminders created for an entry of the tree whose target is strictly after now, so it carries that entry and its message and fires 30, 10 or 1 minutes before the target; the converse of RemindersComplete |
| Reminder.OwnSound | parser/src/reminder.rs:28-32 | the same, for the reminders of a prefix of the section's own entries |
| Reminder.ChildSound | parser/src/reminder.rs:33-38 | the same, for the reminders of a prefix of the subsections |
| Reminder.RemindersComplete | parser/src/reminder.rs:26-40 | every entry of the tree whose target is strictly after now contributes all three of its reminders to the result |
| Reminder.OwnComplete | parser/src/reminder.rs:28-32 | a section's own entry contributes its reminders to every longer prefix of entries |
| Reminder.ChildComplete | parser/src/reminder.rs:33-38 | an entry inside a subsection contributes its reminders to every longer prefix of subsections |
| Remainder.SameRemainderIffHashKey | parser/src/remainder.rs:13-24 | equality holds exactly when (title, datetime) agree; the entry is ignored |
| Remainder.CreateRemainder | parser/src/remainder.rs:42-66 | three entries at target minus 30, 10 and 1 minutes, each with the bare title and the entry, pairwise unequal and increasing in time |
| Remainder.ConvertRemainder | parser/src/remainder.rs:69-118 | a result exists exactly when the timestamp, parsed as written or with " 09:00" appended, is strictly after now, and is then the three entries for it; a first parse at or before now gives none |
| Remainder.OldScheduledLikeDeadline | parser/src/remainder.rs:72-116 | Scheduled and Deadline with the same text agree on whether a result exists and give pairwise equal entries |
| Remainder.GetRemainders | parser/src/remainder.rs:26-40 | the result is the section's own entries' results in order, followed by each subsection's results in order |
| Remainder.RemaindersTitles | parser/src/remainder.rs:26-40 | every derived entry carries the title of some section of the tree |
| Remainder.OldOwnTitles | parser/src/remainder.rs:28-32 | entries from a section's own scheduling carry that section's title |
| Remainder.OldChildTitles | parser/src/remainder.rs:33-38 | entries from the subsections carry the title of a section of the tree |
| Remainder.RemaindersSound | parser/src/remainder.rs:26-40 | every derived entry is one of the three entries created for a scheduling entry of the tree whose target is strictly after now; the converse of RemaindersComplete |
| Remainder.OldOwnSound | parser/src/remainder.rs:28-32 | the same, for the entries of a prefix of the section's own scheduling |
| Remainder.OldChildSound | parser/src/remainder.rs:33-38 | the same, for the entries of a prefix of the subsections |
| Remainder.RemaindersComplete | parser/src/remainder.rs:26-40 | every entry of the tree whose target is strictly after now contributes all three of its results |
| Remainder.OldOwnComplete | parser/src/remainder.rs:28-32 | an own entry contributes its results to every longer prefix of entries |
| Remainder.OldChildComplete | parser/src/remainder.rs:33-38 | an entry inside a subsection contributes to every longer prefix of subsections |
| Movable.SaturatingIsNearest | parser/src/movable.rs:9 | `saturating_add_signed` gives the word nearest to the exact sum, and the exact sum when it fits |
| Movable.MovePosUnsaturated | parser/src/movable.rs:9-10 | without saturation a move sets the column to col + dcol and the line to the new column + dline |
| Movable.MovePosIgnoresLine | parser/src/movable.rs:9-10 | the moved position does not depend on the old line at all |
| Movable.MapPropertiesCompose | parser/src/movable.rs:21-29 | rewriting a property block's positions twice is rewriting them once by the composed rule |
| Movable.MapDrawerCompose | parser/src/movable.rs:38-46 | the same for a drawer and its contents |
| Movable.MapSectionCompose | parser/src/movable.rs:63-85 | the same for a whole section tree |
| Movable.MapPropertiesIdentity | parser/src/movable.rs:21-29 | an identity rule leaves a property block unchanged |
| Movable.MapDrawerIdentity | parser/src/movable.rs:38-46 | an identity rule leaves a drawer unchanged |
| Movable.MapSectionIdentity | parser/src/movable.rs:63-85 | an identity rule leaves a section tree unchanged |
| Movable.MoveKeepsShape | parser/src/movable.rs:3-85 | a move changes nothing but positions: every list keeps its length and order, and every title, key, value, name, text and timestamp is unchanged |
| Movable.MoveTwice | parser/src/movable.rs:63-85 | two moves of a tree equal one move by the composed position update |
| Movable.ZeroMoveChangesLine | parser/src/movable.rs:9-10 | a move by zero deltas sets the line to the column, for example (line 5, col 2) becomes (2, 2), so it is not the identity on some tree |
| Movable.ShiftSectionZero | parser/src/movable.rs:63-85 | with each coordinate shifted by its own delta, a zero move is the identity on every tree |
| Movable.ShiftPosRoundTrip | parser/src/movable.rs:9-10 | with the corrected update, a shift followed by the opposite shift restores the position when nothing saturates |
| Movable.MoveContent | parser/src/movable.rs:7-12 | the result is the content with its position moved and its text unchanged |
| Movable.MoveKeyword | parser/src/movable.rs:14-19 | the result is the keyword with its position moved |
| Movable.MoveProperty | parser/src/movable.rs:31-36 | the result is the property with its position moved |
| Movable.MoveProperties | parser/src/movable.rs:21-29 | the block's own position and every child property's position are moved by the same deltas |
| Movable.MoveDrawer | parser/src/movable.rs:38-46 | the drawer's position and every child content's position are moved |
| Movable.MoveScheduling | parser/src/movable.rs:48-61 | in either variant only the position is moved; the timestamp text is untouched |
| Movable.MoveSection | parser/src/movable.rs:63-85 | the section, each of its drawers, property blocks, keywords, scheduling entries and contents, and recursively every subsection, are moved by the same deltas |
| ReminderEngine.Engine.constructor | server/src/reminders.rs:55 | the engine starts with no pending reminders and no notifications |
| ReminderEngine.Engine.Receive | server/src/reminders.rs:76-91 | a closed channel leaves the set unchanged; otherwise each reminder strictly after now is inserted in order, the set stays keyed by (title, datetime), and nothing is notified |
| ReminderEngine.Engine.Tick | server/src/reminders.rs:59-75 | afterwards exactly the reminders not due remain; the fired reminders are the pending ones that were due, each once, as they were stored; each fired reminder is notified with the fixed summary and its title |
| ReminderEngine.Engine.CollectDue | server/src/reminders.rs:61-70 | the collected reminders are exactly the due ones of the set, each stored and each once; each is notified as it is collected |
| ReminderEngine.Engine.RemoveAll | server/src/reminders.rs:71-73 | the set loses exactly the keys of the collected reminders |
| ReminderEngine.InsertPresent | server/src/reminders.rs:84 | inserting a reminder equal to a pending one leaves the set unchanged |
| ReminderEngine.InsertEqualTwice | server/src/reminders.rs:84 | inserting two equal reminders adds at most one element |
| ReminderEngine.ReceiveAllKeys | server/src/reminders.rs:80-88 | after a receive a key is pending exactly when it was pending before or a reminder of the batch strictly after now has it; pending entries keep their reminder, new ones lie in the future |
| ReminderEngine.ExpireKeepsPresent | server/src/reminders.rs:61-73 | after a tick no pending reminder lies before now, one due exactly now is kept, and exactly the due keys are removed |
| ReminderEngine.ExpireReceiveCommute | server/src/reminders.rs:59-91 | a tick and a receive at the same time commute: nothing just received is fired |
| RemainderEngine.VecEngine.constructor | server/src/remainders.rs:39 | the engine starts with an empty vector and no notifications |
| RemainderEngine.VecEngine.Receive | server/src/remainders.rs:60-68 | the batch is appended at the end as it is, with no de-duplication and no time filter; a closed channel changes nothing |
| RemainderEngine.VecEngine.Tick | server/src/remainders.rs:43-59 | the loop ends; what remains is the entries not due in their original order; the fired entries are the due ones in their original order, each notified with its title as summary and body |
| RemainderEngine.TickPartitions | server/src/remainders.rs:46-58 | kept and fired together are a permutation of the vector: nothing is lost or duplicated |
| RemainderEngine.TickSeparates | server/src/remainders.rs:46-58 | kept entries come from the vector and are not before now; fired ones are strictly before now |
| RemainderEngine.KeptOfUndue | server/src/remainders.rs:46-58 | a vector with nothing due is kept whole and fires nothing |
| RemainderEngine.TickIdempotent | server/src/remainders.rs:43-59 | a second tick at the same time fires nothing and keeps everything |
| RemainderEngine.KeptAppend | server/src/remainders.rs:46-66 | keeping and firing distribute over an append, so the older entries stay ahead of the ones received later |
| Watcher.Notify | server/src/watcher.rs:79-97 | only a Modify event parses; it parses every path in order and sends each document that parsed; Create and every other kind send nothing |
| Watcher.OnlyModifySends | server/src/watcher.rs:80-96 | anything but Modify sends nothing; a Modify event sends one document per path when every parse succeeds |
| Watcher.ParsedAllTotal | server/src/watcher.rs:85-91 | when every parse succeeds, one document is sent per path |
| Watcher.AllSendsSnoc | server/src/watcher.rs:67-68 | dispatching one more event appends exactly what it sends |
| Watcher.WatchLoop | server/src/watcher.rs:51-74 | the dispatched events and the sends follow the debounce specification, where two events are equal only when kind, paths and attributes all agree; the loop stops exactly at the first closed-channel item; the previous event is the latest Ok event seen; every error is counted |
| Watcher.ErrorsSkipped | server/src/watcher.rs:70-72 | a run of errors is skipped without touching the previous event |
| Watcher.FirstEventDispatched | server/src/watcher.rs:51-68 | the first Ok event is always dispatched, whatever errors precede it |
| Watcher.RepeatAt | server/src/watcher.rs:60-66 | an Ok event equal to the previous event is skipped without dispatch |
| Watcher.RepeatSkipped | server/src/watcher.rs:60-72 | an event equal to the previous event is skipped even with errors in between |
| Watcher.NewEventDispatched | server/src/watcher.rs:59-68 | an Ok event that differs from the previous event is dispatched, and becomes the previous event |
| Watcher.NoRepeats | server/src/watcher.rs:58-69 | no two consecutive dispatched events are equal, and the first differs from the previous event |
| Watcher.DispatchedDelivered | server/src/watcher.rs:53-68 | every dispatched event arrived on the channel before it closed |

## Left out

- `parser/src/parser.rs` and its grammar are not part of this model. The tree types are declared from how the modelled files use them.
- Timestamp parsing (`parse_from_str` with `"%F %a %R"`) is a parameter. Calendar and weekday validation live inside that parameter and are not modelled.
- The current time (`Local::now`) is a parameter. Sub-second precision and chrono's overflow panics on subtraction are not modelled.
- `Org::get_reminders` and `Org::get_remainders` are not part of this model. The engines' receive methods take the derived batch directly.
- Concurrency and timing are not modelled: tokio's `select!`, the five-second `interval`, the `mpsc` channels and `task::spawn`. Only the state update of one receive or one tick is modelled.
- ReminderEngine.Engine.CollectDue: `HashSet` iteration order is unspecified, so the loop picks keys in an arbitrary order. The contract says nothing about the order of the notifications.
- The I/O plumbing is not modelled: `scan`, `scan_reminders` and `scan_remainders` (directory walks), `server/src/parse.rs` (file reading), `OrgWatcher::create_watcher` (the notify crate and its runtime), `server/src/config.rs`, `server/src/utils.rs`, `server/src/main.rs`, `server/src/web.rs` and `parser/src/lib.rs`.
- Desktop notifications (`server/src/notification.rs`) are recorded in a ghost log. Their result is ignored, as in the source.
- In the watcher, failures to send on the document channel are only logged in the source, so every parsed document counts as sent. The `unwrap` in the watcher callback is not modelled.
- Movable: the tree is modelled as values. Each `move_point` returns the moved node rather than updating it through `&mut`, so aliasing between nodes is not modelled, though there is none in the source's owned tree.
- Reminder.GetReminders: the source reads the clock once per scheduling entry, inside `convert_reminder` (parser/src/reminder.rs:70). The model uses one `now` for the whole walk, so a walk that straddles an entry's time is not modelled. `Reminder.RemindersComplete` relies on that single `now`. The same holds for `Remainder.GetRemainders` (parser/src/remainder.rs:70).
- Watcher.WatchLoop: `parseFile` is one fixed function for the whole stream, so a path yields the same document at every `Modify`. The source re-reads the file each time (server/src/parse.rs), and the file's content may change between events.
- OrgTree: `usize` and `isize` are fixed at 64 bits, while the source's width depends on the target platform.
- Watcher.WatchLoop: the channel is a finite sequence, so a channel that stays open forever is modelled by its finite prefix.

## Findings

| source | as written | input that shows it | evidently intended | confidence | as-written member | corrected member |
|---|---|---|---|---|---|---|
| parser/src/movable.rs:10 (repeated at 17, 24, 34, 41, 53, 57, 66) | the new line is the new column plus the line delta, so the old line is discarded | a node at line 5, column 2 moved by (0, 0) ends at line 2, column 2 | each coordinate shifted by its own delta, so a zero move is the identity and opposite moves cancel | not executed | Movable.ZeroMoveChangesLine | Movable.ShiftSectionZero |

The `Move*` methods keep the behaviour as written, because that is what the program does.
`Movable.ShiftedSection` and `Movable.ShiftPosRoundTrip` give the corrected update and its
round trip.
