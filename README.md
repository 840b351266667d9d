# ipfs-cli core, modelled in Dafny

This project models the decision logic of `main.js` in ipfs-cli, an interactive
terminal tool for browsing a content-addressed store (IPFS) by CID. The store,
the prompts and the filesystem are replaced by inputs. The model covers:

- the node classifier `getCidType` (`listing.dfy`): an IPFS listing is an empty
  node, a file or a directory;
- the input check on a typed CID, the prompts' `validate` (`cid_input.dfy`),
  with JavaScript's `String.prototype.trim` written out;
- the action menus of the navigator (`listActionOption`) and of the
  single-shot inspector (`getOption`), with their values and shown names
  (`actions.dfy`);
- the navigation loop of `listOption` (`navigation.dfy`). Its state is
  `providedCid` plus ONE remembered CID, `lastPath`. The loop is a method
  proved equal to a run function over the store's listings and the
  operator's answers. Lemmas state what Enter, Back, Exit, Save and Show do,
  and the invariant the loop keeps;
- the inspector `getOption` as a function (`inspector.dfy`);
- `byteProcess` and its four module globals as a class (`progress.dfy`). The
  fields are tied to a reference definition over the history of progress
  events: the history is cut into stretches of consecutive events for one
  unit;
- `dirSize` over a tree datatype of directory entries (`dir_size.dfy`).

Three behaviours of the code deserve a note:

- The navigator keeps a single remembered CID, not a history stack. Enter
  sets `lastPath` to the node it leaves. Back moves to `lastPath`, or stops
  navigation when `lastPath` is already the current node. So two Backs in a
  row always stop, and after going two levels down the root cannot be
  reached again (`Navigation.BackTwiceEnds`,
  `Navigation.GrandparentUnreachable`).
- `byteProcess` treats each count as cumulative for its unit, not as a
  delta. A unit's last count reaches `totalUploadedBytes` only when an event
  for another unit arrives. The running unit's count is never folded in.
- `byteProcess` uses `lastFile === undefined` both for "no event yet" and
  for an event whose unit was `undefined`. So the count of such an event is
  overwritten by the next event without being added to the total
  (`Progress.UndefinedUnitDropped`).

## Model

| member | source | states |
|---|---|---|
| `Listing.CidType` | main.js:282-295 | Total classifier. "empty" exactly for an empty listing. "file" exactly for one entry whose name equals its path. "dir" for one entry whose name differs from its path, or for two or more entries. So a directory always has at least one entry. |
| `CidInput.TrimEmptyIffBlank` | main.js:356 | `trim()` yields "" exactly when every character is ECMAScript whitespace or a line terminator. |
| `CidInput.Validate` | main.js:355-361 | The answer is accepted exactly when it is present and holds a non-whitespace character. Otherwise it is refused with "Please enter a valid CID". |
| `CidInput.AcceptedIsNonEmpty` | main.js:355-366 | An accepted CID is never "", so the `while (providedCid)` guard holds on the first round. |
| `Actions.NavigatorMenu` | main.js:297-318 | Enter is offered exactly for directories and Show exactly for files. Save is offered for everything but an empty node. Back and Exit are always offered, Exit last. |
| `Actions.InspectorMenu` | main.js:426-442 | Never offers Enter or Back. Show exactly for files, Save for everything but an empty node, Exit always and last. |
| `Actions.InspectorIsNavigatorWithoutMoves` | main.js:426-442 | The inspector's menu equals the navigator's menu for the same kind with Enter and Back removed. Order and shown names are kept. |
| `Navigation.Step` | main.js:366-398 | One round of the loop. Exit stops. Back stops exactly when `lastPath` equals `providedCid`, and otherwise moves to `lastPath`. Enter (directories only) moves to one of the listed children's CIDs and remembers the node it left. Save and Show act on the current CID and change nothing. |
| `Navigation.ListOption` | main.js:363-398 | The loop returns exactly the outcome of `Run` from `(root, root)`: the final state, the Save/Show effects in order, and why it ended (exit, back at the top, empty CID, store failure). |
| `Navigation.RunKeepsRemembered` | main.js:365-394 | Invariant of every reachable state: `lastPath` is the current CID, or a CID whose listing contains the current CID. |
| `Navigation.BackAtRootEnds` | main.js:364-393 | Back right after the start stops navigation at once, because `lastPath` starts as the root. It does nothing else. |
| `Navigation.ExitEnds` | main.js:395-397 | Exit stops navigation from any state, with no effect. |
| `Navigation.SaveAndShowStay` | main.js:328-346 | Save and Show perform their effect on the current CID. The loop then carries on from the unchanged state. |
| `Navigation.EnterMovesToChild` | main.js:371-389 | Enter moves to the chosen listed child, with `lastPath` set to the node left. |
| `Navigation.BackToRemembered` | main.js:390-394 | Back from a node whose `lastPath` differs moves to `lastPath`. From there the run continues as from a fresh start on that CID. |
| `Navigation.EnterThenBackReturns` | main.js:371-394 | Enter followed by Back returns to the node left. The run then continues as a fresh start there, so a further Back stops. |
| `Navigation.BackTwiceEnds` | main.js:390-394 | Only one level of history: two Backs in a row stop navigation from any state, with no effect. |
| `Navigation.GrandparentUnreachable` | main.js:365-394 | After entering two levels down, Back, Back stops at the middle node. The root is not returned to. |
| `Inspector.Inspect` | main.js:416-467 | The log shows "Contents: " and one `type - name (cid)` line per listed entry, whatever the kind. The menu is the inspector menu for the listing's kind, so it never has Enter or Back. Exit is exactly the reply with no effect. Save saves the inspected CID to the typed path. Show displays the inspected CID, and only for a file. A failed `ls` gives a store failure. |
| `Inspector.AgreesWithNavigator` | main.js:450-466 | Save and Show in the inspector do what they do in the navigator on the same CID and listing. |
| `Progress.StretchesSnoc` | main.js:180-193 | A new event for the running unit replaces that stretch's count. An event for another unit opens a new stretch. |
| `Progress.CompletedSnoc` | main.js:177-194 | The completed total is unchanged by the first event, by an event for the same unit, and by an event after a stretch whose unit is undefined. It grows by the running stretch's last count when a defined unit changes. Afterwards the event's unit and count are the running stretch. |
| `Progress.CompletedNeverDecreases` | main.js:190 | With non-negative counts, the completed total never decreases. |
| `Progress.UndefinedUnitDropped` | main.js:180-192 | After 10 bytes of "a", 5 for an undefined unit and 7 of "b", the completed total is 10. The 5 is overwritten without being added, because an undefined `lastFile` takes the first-event branch. |
| `Progress.CumulativeExample` | main.js:184-192 | Counts 10 then 25 for one unit count once, as 25. They reach the total only when another unit starts. |
| `Progress.ProgressTracker.constructor` | main.js:172-176 | The globals start at 0, 0, undefined, 0 with an empty history. |
| `Progress.ProgressTracker.ByteProcess` | main.js:177-194 | `lastValue` becomes x, `curFileTotalSize` becomes x and `lastFile` becomes y, which may be undefined. The total gains the old current size only when `lastFile` was defined and differs from y. The fields stay equal to the completed stretches' sum and the running stretch. |
| `DirSize.DirSizeIsSumOfFiles` | main.js:145-165 | `dirSize` equals the sum of the sizes of all regular files anywhere in the tree. Other entries count 0. |
| `DirSize.EntrySizeIsSumOfFiles` | main.js:148-160 | One entry contributes the total size of the regular files at or below it. |
| `DirSize.DirSizeAppend` | main.js:162-164 | Additivity: the size of a concatenation of entry lists is the sum of their sizes. |
| `DirSize.DirSizeSwap` | main.js:148-164 | The size does not depend on the order of the parts of a listing. |
| `DirSize.NestedExample` | main.js:145-165 | Files of 10, 20 and 30 bytes nested two levels deep, beside a symlink, give 60. |

## Left out

- The IPFS node and its calls (`IPFSNode.create`, `ipfs.add`, `get`, `cat`, `ls`, `globSource`) are foreign library code. `ls` is a parameter of type `Cid -> Option<seq<Entry>>`, where `None` stands for a call that threw. `get` and `cat` appear only as the effects `SaveToLocal` and `ShowContents`. The bytes they fetch, and the files written, are not modelled.
- `Navigation.ListOption`: `ls` is a fixed function of the CID. A store whose listing of one CID changes between rounds is not modelled.
- `Navigation.ListOption`: failures of `getFile`/`catFile`/`writeFileSync` during Save or Show are not modelled.
- `Navigation.ListOption`: the operator's answers are a finite list. A run that uses them all ends as `AwaitingOperator`, meaning the real loop is still waiting.
- `saveToIpfs`: upload wiring over `fs.lstatSync` and `ipfs.add`. Its only decision, reporting the wrapping root when the returned path trims to "", depends on the store's output.
- `mainPrompt`, the prompt rendering, and the re-asking of a prompt after a refused answer are UI. `validate` itself is modelled.
- `exitProgram`, the signal handlers, the terminal-resize listener and `totalStdoutColumns` are process and terminal plumbing.
- `colorSpec` and the `console.log` debug lines in `byteProcess` are output formatting only.
- The percentage and bar rendering in `byteProcess` and the daemon spawning are commented out, so they are not modelled. So is `totalDirSize`, which only commented-out code writes. `byteProcess` is modelled although the `progress` option that would call it is commented out.
- `DirSize.DirSizeIsSumOfFiles`: the `Promise.all` concurrency is a deterministic sum, modelled as sequential recursion. `readdir`/`stat` are replaced by the tree datatype, so their failures are not modelled.
- Byte counts and sizes are unbounded integers. JavaScript numbers lose precision above 2^53, which is not modelled.
- `./mfs.js` (the MFS navigator) and `peer.js` are not part of this model.
