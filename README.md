# Limit order book replica, modelled in Dafny

This project models the order-book maintenance of a small Rust client for
one instrument's order-book feed. The client keeps a local copy of the top of
the book. The feed delivers one snapshot and then incremental "change"
messages. Each message carries its own change id and, optionally, the id of
the message it follows.

The model covers the book logic that `main` in `src/main.rs` runs for every
book message:

- the change-id check, which only reports a gap and does not halt;
- the unconditional overwrite of the stored change id;
- snapshot loading (`load_snapshot`): both maps are cleared and refilled, and
  the best bid and best ask are taken as the largest and smallest key;
- "change" messages: every ask level, then every bid level, is applied. A
  "new" level inserts or overwrites its price and may improve the cached best
  price of its side. "change", "delete" and any other action word do nothing;
- the size lookups at the best prices that follow every message.

Layout:

- `wrappers.dfy`: `Option`.
- `feed.dfy`: the typed message (`Data`, `Trade`, `Kind`, `Action`).
  These follow the shapes declared in `src/orderbook.rs`, with the
  differences listed under "## Left out".
- `ledger.dfy`: one side of the book. It has the map-filling function
  `Extend`, which mirrors `HashMap::extend`, and the per-level update
  `Apply`/`ApplyAll`. It also has the key scan `BestKey` and the lemmas that
  keep the cached best equal to the extremum key.
- `sync.dfy`: the whole book state. `Step` specifies one message and `Run`
  a sequence of messages. The class `Book` updates the maps and cached values
  in place and is proved against `Step`. `Replay` is the message loop. The
  lemmas relate all of these.

Prices are modelled as the integer keys the client derives from them.
Sizes are an opaque type parameter `S`, because the book stores sizes and
never computes with them.

The model follows what the code does, not what its comments and empty
branches suggest it was meant to do:

- a detected gap does not stop the update (`GapDoesNotBlock`,
  `GapStillApplied`): the reconnect and the reset of the change id are
  commented out at `src/main.rs:51-52`;
- "change" and "delete" levels are ignored: their match arms at
  `src/main.rs:77-78` and `95-96` are empty;
- "delete" removes nothing, so only a snapshot resets the cached bests;
- change ids are not required to increase.

## Model

| member | source | states |
|---|---|---|
| Ledger.Extend | src/main.rs:147-151 | refilling a map from levels gives exactly the old keys plus the levels' prices, and keys the levels do not mention keep their sizes |
| Ledger.ExtendLastWins | src/main.rs:148-151 | when several levels share a price, the size of the last of them is stored |
| Ledger.BestPrice | src/main.rs:153 | the best price of a non-empty list of levels is one of its prices, and no price in the list beats it |
| Ledger.LoadedBest | src/main.rs:147-153 | after a side is refilled from non-empty levels, the best price of those levels is the maximum bid key or minimum ask key of the new map |
| Ledger.BestIsUnique | src/main.rs:153 | a side has at most one best key, so the key scan and the reference definition agree |
| Ledger.BestKey | src/main.rs:153 | a scan over the keys of a non-empty map returns a key of the map that no other key beats: `max()` for bids, `min()` for asks |
| Ledger.Apply | src/main.rs:68-100 | a "new" level stores its size at its price and leaves every other key as it was. The best moves to the price exactly when the price beats it (`<` for asks, `>` for bids). Any other action leaves the side unchanged |
| Ledger.ApplyKeepsBest | src/main.rs:71-93 | one applied level keeps the cached best equal to the extremum key (ask side at lines 71-75, bid side at lines 89-93) |
| Ledger.ApplyAllKeepsBest | src/main.rs:68-102 | applying all levels of one side keeps the cached best equal to the extremum key |
| Ledger.ApplyAllOnlyImproves | src/main.rs:73-93 | while a message is applied, the best ask never increases (lines 73-75) and the best bid never decreases (lines 91-93) |
| Ledger.ApplyAllIgnoresOthers | src/main.rs:77-100 | levels whose action is "change", "delete" or unrecognised leave the side unchanged (ask arms at lines 77-82, bid arms at lines 95-100) |
| Sync.SnapshotLevels | src/main.rs:147-151 | after a snapshot, each map holds exactly the snapshot's prices of its side, each with the size of the last level at that price |
| Sync.SnapshotSyncs | src/main.rs:63 | after a snapshot with both sides non-empty, the best bid is the maximum bid key and the best ask is the minimum ask key |
| Sync.SnapshotReplaces | src/main.rs:147-151 | the book after a snapshot does not depend on the book before it, so applying the same snapshot twice gives the same book as applying it once |
| Sync.StepKeepsSynced | src/main.rs:61-109 | every message of any type keeps the cached bests equal to the extremum keys |
| Sync.DiffOnlyImproves | src/main.rs:65-102 | a "change" message never raises the best ask and never lowers the best bid |
| Sync.QuietMessages | src/main.rs:65-108 | an unsupported message type, or a "change" message with no "new" level, changes nothing but the stored change id |
| Sync.GapDoesNotBlock | src/main.rs:48-64 | the book update is the same whatever previous change id the message names |
| Sync.RunChangeId | src/main.rs:59 | after every message, the stored change id is that message's change id |
| Sync.GapAgainstPredecessor | src/main.rs:48-59 | the first message is never flagged. Any later message is flagged exactly when it names a previous id, the preceding message's id is non-zero, and the two differ |
| Sync.FeedStaysSynced | src/main.rs:61-115 | once the first message is a snapshot, the book stays synced after every later message, so both lookups at line 115 find their key |
| Sync.GapStillApplied | src/main.rs:48-105 | in snapshot(100), change(prev 100, id 101), change(prev 105, id 106), only the third message is flagged, and its new ask 1005 still becomes the best ask |
| Sync.Book.constructor | src/main.rs:16-29 | a new book has empty maps, best bid and best ask 0, and change id 0 |
| Sync.Book.LoadSnapshot | src/main.rs:140-154 | both maps are rebuilt from the snapshot's levels alone. The cached bests become the maximum bid key and minimum ask key, which equal the reference `BestPrice`. Requires both sides non-empty, as `unwrap` does |
| Sync.Book.ApplyAskEntry | src/main.rs:68-84 | the ask side is updated as `Apply` says, and the bids and the change id are untouched |
| Sync.Book.ApplyBidEntry | src/main.rs:86-102 | the bid side is updated as `Apply` says, and the asks and the change id are untouched |
| Sync.Book.ApplyDiff | src/main.rs:65-105 | all ask levels, then all bid levels, are applied in order, and the change id is untouched |
| Sync.Book.Ingest | src/main.rs:48-109 | it reports a gap exactly as `GapDetected` defines it, against the id stored before the call. The new state is `Step` of the old one, so the id is overwritten and the book updated whether or not a gap was seen |
| Sync.Book.BestSizes | src/main.rs:115 | it returns the sizes resting at the cached best bid and best ask, and needs both keys present |
| Sync.Replay | src/main.rs:31-122 | for every message of a session whose size lookups all succeed, it reports whether a gap was seen and the sizes at the best prices after that message, as `Run` predicts. Its precondition is exactly that the lookups at line 115 find their keys after every message |
| Sync.OpeningSnapshotLooksUp | src/main.rs:61-115 | a session that opens with a snapshot passes the lookups at line 115 after every message |
| Sync.ChangeFirstLooksUp | src/main.rs:65-115 | a session may also open with a "change" message: one with new bid and ask levels at key 0 passes both lookups, since both bests stay 0 |
| Ledger.ApplyAll | src/main.rs:68-102 | the levels of one side of a "change" message applied one after another, in message order (the ask loop at lines 68-84, the bid loop at lines 86-102) |
| Sync.Initial | src/main.rs:16-29 | the state before any message: empty bid and ask maps, best bid and best ask 0, change id 0 |
| Sync.GapDetected | src/main.rs:48-50 | a gap is seen when the message names a previous change id, the stored id is non-zero, and the two differ |
| Sync.Step | src/main.rs:48-109 | one message: the change id becomes the message's own whatever the gap test says; a snapshot rebuilds both maps and both bests, a "change" message applies its ask levels and then its bid levels, any other type changes nothing else |
| Sync.Run | src/main.rs:31-122 | the state after a sequence of book messages, each applied to the state the previous one left |

## Left out

- Network I/O: the WebSocket connection, the subscription request, reading frames, the subscription confirmation check and `exit`. `Replay` starts with the first book message after the confirmation and covers a finite prefix of the feed.
- The type of `prev_change_id`: `src/orderbook.rs:10` declares it as a plain `u64`, while `src/main.rs:48-57` matches it as an `Option`; the two files disagree, and the model follows `src/main.rs`, so a message may omit it.
- Decoding of the type and action words: `Kind` and `Action` are enumerations rather than the `String` fields of `src/orderbook.rs`. The model assumes "snapshot", "change", "new" and "delete" always decode to their own constructors, so `Kind.Other` and `Action.Unknown` hold only other words, as the string matches at `src/main.rs:61` and `69` would sort them.
- JSON decoding. `Data` has only the fields the book logic reads. The timestamp and the instrument name are not used.
- Price conversion. The float-to-key conversion `(p * 10.0) as u32` is not modelled, including its saturation to the `u32` range and its rounding toward zero. Keys are unbounded naturals.
- Size arithmetic: the `f32` sizes are an opaque type parameter, since the book only stores and returns them.
- The display conversion `best / 10.0` and all console output, including the "Reconnecting...." message. That message is modelled only as the `gap` result.
- Change ids are unbounded naturals rather than `u64`.
- The message counter and the empty `counter % 10` block. They sequence transport and display, not the book.
- Sync.Book.BestSizes: its precondition is that both best keys are present. The source panics when either is missing, for example when the first book message is of an unsupported type, or is a "change" message that has no new ask at key 0 (the best ask starts at 0 and no ask key is below it) or no new bid at all. `Sync.Replay` asks for exactly the condition under which these lookups succeed.
