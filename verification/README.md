# Verified model of sk64

sk64 edits Kubernetes Secrets and ConfigMaps from a terminal. This project models the parts
whose correctness its users rely on without seeing it, and proves their promises for all
inputs, all interleavings and all runs.

- **The save protocol** (`Cluster`, `Save`). The apiserver is a versioned object with a
  history. Other writers commit at any moment, replies are lost, and a request that was sent
  may land at once, later or never, more than once. A save that retries over this network
  writes at most once, and only over the version its caller had read.
- **The edit flow** (`Edits`, `EditFlow`, `TypedConfirm`, `Loader`, `Undo`, `KeyView`,
  `Session`). The 17-phase machine changes a resource object that it shares with its parent
  screen. `EditFlow.Flow` keeps its fields; `Session` runs one flow against the cluster, with
  its requests and replies in flight and every key and reply on record, in order. What lands
  is a diff the user accepted by Y, checked by a dry run of exactly these values or waved past
  a missing one, and then confirmed by the typed word while it was on show.
- **Resources and order** (`Resources`, `Values`, `Natsort`, `ByteOrder`, `Sorting`). One
  observable map over two backing maps, the natural order, and the equality built on it.
- **The editable document** (`YamlScalars`, `YamlBlocks`, `Resyaml`). The printer, and a
  reader for what it prints that follows YAML 1.2.2: sections 5.1, 5.7, 7.3.1, 8.1.1.2 and
  8.1.2. The first escaping pass follows section 7 of RFC 8259.
- **References** (`Sequences`, `RefWalk`, `RefIndex`, `RefsCollect`). The walk over a pod, its
  aggregation, the index, and the collector whose pages arrive in any order.
- **Smaller algorithms** (`Suggestions`, `Levenshtein`, `ConfigLines`, `Collisions`,
  `GitIgnore`).

Objects whose methods update their fields are classes here, with the same fields; each
method is proved against a function of the old state, and the lemmas are about those
functions. Nondeterminism of the environment (other writers, the network, the user, the
visiting order of maps, cancellation) is left open in the code, so that a proof covers every
choice.

Four properties hold only under a condition. The condition is exact, and a lemma shows an
input that fails it:

- Taking a single-key edit back restores the resource if and only if the key was present when
  the edit was made, or absent for a new key (`EditFlow.RestoreIffReversible`). Taking
  back an edit of a key that was gone leaves an empty key behind
  (`EditFlow.RestoreOfMissingKeyFails`); taking back an add of a key that was there removes it.
- Undo inverts a save if and only if the same holds and, when several keys changed, every
  changed value is text (`KeyView.UndoInvertsSave`). `KeyView.UndoOfBinaryChangeFails` is a
  save that fails the condition: its undo is refused as a collision with a binary key.
- A block candidate survives the verifying reparse if and only if all its characters are
  printable and none is the next-line character U+0085, which the library takes for a line
  break (`Resyaml.VerifiedIffPrintable`). The others, such as the one of
  `Resyaml.NextLineFallsThrough`, fall to the double-quoted floor, which survives.
- A mapping is printed as a document that parses to it if and only if it has no key that is
  taken for a merge (`Resyaml.DocumentRoundTrip`). A key `<<`, if the library resolves it to
  itself when it stands alone, is written plain, and merges the value of its entry instead of
  naming it; the round-trip check then refuses the mapping (`Resyaml.MergeKeyFails`). No key
  of a resource is spelled so, since the apiserver admits only letters, digits, `-`, `_` and
  `.` in keys.

To check everything: `dafny verify dfyconfig.toml`.

## Model

| member | source | states |
|---|---|---|
| Cluster.NothingOverwritten | internal/k8s/save.go:114-120 | A write guarded by a version directly follows, in the history of the object, the moment that version was read: no commit of anybody lies between, so no concurrent update is overwritten |
| Cluster.AtMostOneWrite | internal/k8s/save.go:146-194 | Of all the writes guarded by one version, however many copies were sent, lost, retried or delivered late, at most one ever takes effect |
| Cluster.VersionsGrow | internal/k8s/save.go:179-181 | Versions strictly grow along every history, so the version guard can never match a later object by accident |
| Cluster.GoneForGood | internal/k8s/save.go:155-157 | A version the server has moved past is never admitted again, whatever other writers do |
| Cluster.Server.Send | internal/k8s/save.go:148-151 | One request over the unreliable network: only an acceptance proves the values were held, only a pre-send failure proves nothing was sent, a conflict proves the guard no longer holds |
| Cluster.Server.DryRun | internal/k8s/save.go:58-71 | A dry run changes nothing; one that passed met an object its guard admits at some moment of the call, and a version that was refused as stale never holds again |
| Cluster.Server.Interference | internal/k8s/save.go:114-120 | Any number of commits by other writers and late deliveries of earlier requests keep the history valid and only extend it |
| Cluster.Server.Fetch | internal/k8s/save.go:129-137 | A fetched resource is one the object was at some moment during the call, with data split over the two backing maps in any way |
| Save.Save | internal/k8s/save.go:146-194 | At most three copies of exactly one request, guarded by the submitted version, are sent; success means the object held the submitted values at some moment of the call; a conflict shows an object seen during the call under another version; and the result is exactly what the sequence of answers, reads and waits demands |
| Save.Attempt | internal/k8s/save.go:147-191 | One attempt sends at most one request; what it settles is true of the history and follows from its answer and reread; it is left open exactly after a pre-send failure or when the reread shows the old version with other data |
| Save.Try | internal/k8s/save.go:147-192 | A verdict ends the save at once; an open attempt is repeated after an undisturbed wait, at most twice, and a cancelled wait or a third open attempt fails |
| Save.StaysOpen | internal/k8s/save.go:161-190 | Attempts that settle nothing, each followed by an undisturbed wait, are what a later attempt starts from |
| Save.Reread | internal/k8s/save.go:171-189 | After an ambiguous reply one read decides: success exactly for the submitted values, a conflict for other values under another version, nothing for the old version, failure when the read fails; and nothing more is sent |
| Save.SaveConflict | internal/k8s/save.go:196-202 | After a rejected update one read shows the object, whose version is always other than the submitted one |
| Save.DryRunSave | internal/k8s/save.go:58-71 | The result is exactly what the one answer demands: accepted for a dry run that passed, which takes the object having had the submitted version at some moment of the call; a rejected version is reread once and is a conflict exactly when that shows the object, seen during the call under another version, else a failure; unsupported, refused and lost answers map one to one. Nothing is sent |
| Save.DryRunCreate | internal/k8s/create_delete.go:26-35 | The result is exactly what the one answer demands, with an object that exists already a rejection and nothing reread; accepted only if the object was absent at some moment of the call |
| Save.Create | internal/k8s/create_delete.go:44-73 | At most one request is sent, guarded by the absence of the object; success means the object held the submitted values during the call; an ambiguous answer is reread once, and the result follows from what was read |
| Resources.Resource.Get | internal/k8s/configmap.go:50-58 | What a key reads as is the observable map: text data first, then binary data, for a key in both |
| Resources.Resource.Set | internal/k8s/configmap.go:60-76 | Setting a key changes the observable map at that key only, whichever backing map the key is in or moves to |
| Resources.Resource.Delete | internal/k8s/configmap.go:78-87 | Deleting removes the key from the observable map and fails exactly when it is not there |
| Resources.Resource.Keys | internal/k8s/configmap.go:43-48 | Keys are the unique duplicate-free listing of the observable keys in natural order, for both kinds |
| Resources.Resource.Clone | internal/k8s/configmap.go:31-31 | A copy is a new object with the same version and observable map |
| Resources.Resource.IsBinary | internal/k8s/configmap.go:89-92 | Whether the observable value of a key is binary |
| Resources.SortedKeys | internal/k8s/secret.go:53-55 | The keys of a Secret in natural order, each once |
| Resources.UnionMoves | internal/k8s/configmap.go:60-76 | Moving a key between the two backing maps acts on their union as one update |
| Resources.UnionRemoves | internal/k8s/configmap.go:78-87 | Removing a key from both backing maps removes it from their union |
| Resources.ListingUnique | internal/k8s/configmap.go:43-48 | A key set has exactly one duplicate-free listing in natural order |
| Resources.SortCompactLists | internal/k8s/configmap.go:43-48 | Sorting the keys of both maps and dropping equal neighbours gives that listing, even when a key is in both |
| Resources.SameData | internal/k8s/save.go:223-239 | Answers true exactly when the two observable maps are equal |
| Resources.ListingsDecide | internal/k8s/save.go:223-239 | Two maps are equal exactly when their canonical listings agree position by position in key and value |
| Resources.FromResource | internal/resyaml/resyaml.go:40-56 | Splits a resource into exactly its text values and the canonical listing of its binary keys with their sizes |
| Resources.BinaryListingSorted | internal/resyaml/resyaml.go:54-54 | The last sort of the binary keys changes nothing, as they come in canonical order already |
| Values.EncodedTextIsNotBinary | internal/k8s/resource.go:41-52 | The bytes of a text without disallowed control characters are never taken for binary, and read back as that text |
| Values.TextIffEncoding | internal/k8s/resource.go:41-52 | A value is text exactly when it is the UTF-8 encoding of a string without disallowed control characters |
| Values.DecodeEncodedChar | internal/k8s/resource.go:46-50 | Decoding what encoding one character wrote gives that character and its width |
| Values.EncodeDecodedChar | internal/k8s/resource.go:46-50 | A decoded character encodes to exactly the bytes it was decoded from, so overlong and surrogate forms are refused |
| Natsort.Compare | internal/natsort/natsort.go:10-38 | The loop equals lexicographic order on tokens, where a maximal digit run is one unbounded number, ties broken by characters; on byte strings and, by ByteOrder.BytesKeepOrder, on the texts they encode |
| Natsort.DigitRunEnd | internal/natsort/natsort.go:52-57 | The end of the maximal digit run that starts at an index |
| Natsort.RunsCompareByValue | internal/natsort/natsort.go:40-50 | Stripping leading zeros and comparing by length, then by digit, compares digit runs of any length by their numeric value |
| Natsort.OrderAntisymmetric | internal/natsort/natsort.go:10-38 | Swapping the arguments negates the result, and 0 is given only for identical strings |
| Natsort.OrderTransitive | internal/natsort/natsort.go:10-38 | The order is transitive across all mixtures of numbers, text and ties |
| Natsort.LessIsStrictTotal | internal/natsort/natsort.go:10-38 | The order is a strict total order, so every sort by it is canonical |
| Natsort.OrderMeans | internal/natsort/natsort.go:10-38 | Which comes first: at the first difference of their tokens the string that ends there, the lesser number, or the lesser character, digits standing among the characters; with equal tokens the same by characters |
| ByteOrder.BytesKeepOrder | internal/natsort/natsort.go:10-38 | Comparing the bytes of two UTF-8 encodings, plainly or naturally, comes out as comparing the characters of the texts |
| ByteOrder.TokensOfRaw | internal/natsort/natsort.go:19-31 | The bytes of a text have the tokens of the text, with the same digit runs and every other character byte by byte |
| ByteOrder.FirstDifference | internal/natsort/natsort.go:26-31 | Of two characters the smaller has the smaller byte at the first place where their encodings differ |
| Edits.ChangesWhatIsListed | internal/tui/edit_flow.go:939-979 | An edit changes exactly the keys its diff lists, to what the diff says, and no other key |
| Edits.DocumentReplacesText | internal/tui/edit_flow.go:906-913 | A document edit turns the text keys into the document and keeps the bytes of every binary key |
| Edits.OverlayIsAfter | internal/tui/edit_flow.go:939-979 | Setting and deleting key by key exactly where two documents differ equals the edit between them |
| Edits.RestoreInverts | internal/tui/edit_flow.go:1047-1066 | Restoring the touched keys undoes any number of complete or half-finished applications |
| EditFlow.ApplyDocument | internal/tui/edit_flow.go:950-968 | Sets every differing key and deletes every missing one; on success the touched keys are exactly those on which the documents differ; it fails only when a key to delete is already gone |
| EditFlow.RestoreDocument | internal/tui/edit_flow.go:1053-1060 | Gives every touched key its original value back, or removes it |
| EditFlow.RestoreIffReversible | internal/tui/edit_flow.go:1061-1065 | Taking a single-key edit back restores the old view if and only if the key was present (absent, for a new key) when the edit was made |
| EditFlow.RestoreOfMissingKeyFails | internal/tui/edit_flow.go:1020-1034 | A concrete edit of a key that was gone from the cluster: taking it back leaves the key behind, empty |
| EditFlow.Flow.ApplyChanges | internal/tui/edit_flow.go:939-979 | Whatever was applied before, afterwards the resource holds exactly the edit on show, or the edit was refused and it holds the old values |
| EditFlow.Flow.RestoreOriginal | internal/tui/edit_flow.go:1047-1066 | Takes the accepted edit back from the resource the flow holds |
| EditFlow.Flow.EnterConflict | internal/tui/edit_flow.go:1008-1039 | Takes the edit back from the resource held so far, then moves the flow, its picture and its base to the object the cluster holds now; a draft that names a binary key of that object collides |
| EditFlow.Flow.Confirm | internal/tui/edit_flow.go:915-937 | Exactly one of: refused for a document that names a binary key; back where it was with nothing applied, exactly when the key to delete is gone; or on to the warnings or the dry run, with the flow holding exactly the diff on show and that diff recorded as agreed to |
| EditFlow.Flow.StartDryRun | internal/tui/edit_flow.go:981-993 | The dry run carries exactly what the flow holds, and is remembered under its request id |
| EditFlow.Flow.StartSaving | internal/tui/edit_flow.go:995-1006 | The save carries exactly what the flow holds, after the typed word, and is recorded |
| EditFlow.Flow.OpenTheEditor | internal/tui/edit_flow.go:304-365 | When the editor opens, the phase to return to is the one it opened from, and it counts as seeded with the original exactly when there is no draft |
| EditFlow.Flow.FinishEditor | internal/tui/edit_flow.go:520-584 | Where every editor outcome leads, with the draft it leaves: an error phase, back to the phase the editor opened from, out with the resource restored when nothing changed from the original, a binary collision, or the diff of the new draft |
| EditFlow.NormalizedIff | internal/editor/editor.go:114-120 | Exactly one newline goes from the end of edited content, exactly when the original has none there; so a value that was not edited comes back as it was |
| EditFlow.Flow.TakeDryRun | internal/tui/edit_flow.go:398-419 | Only the pending dry run moves the flow, to the phase of its outcome: the gate with the diff applied, rejected, unsupported, the conflict with the object adopted, or the diff; the gate opens only on its acceptance, empty and with what it saw recorded as checked |
| EditFlow.Flow.TakeSave | internal/tui/edit_flow.go:420-464 | Only the pending save moves the flow, to the phase of its outcome: saved with the draft dropped and what the save overwrote pushed on the undo ring, the conflict with the object adopted, forbidden, or the diff; the draft stays unless it was saved |
| EditFlow.Flow.UndoEntry | internal/tui/edit_flow.go:1068-1088 | The entry remembers the overwritten value of every changed key and the keys that were added, nothing else |
| EditFlow.Flow.GateKey | internal/tui/edit_flow.go:590-609 | In a gate esc goes back with nothing dispatched, enter with the confirmation word typed dispatches the save or the restart, and every other key only edits the line |
| EditFlow.Flow.Press | internal/tui/edit_flow.go:480-494 | Where every key leads from every phase, with the command it gives. A diff is agreed to, and the accepted diff changes, only by Y on a diff or a conflict, to the diff on show; a save leaves only by enter in the commit gate and carries the diff on show; the gate is entered by a key only by Y from the dry-run-unsupported phase, and what it was opened on does not change until it is left or the save leaves |
| EditFlow.Flow.EditKey | internal/tui/edit_flow.go:611-772 | Where every key before the save leads: Y on, each phase to its next, e to the editor or the diff, esc out of the flow or of the dry run, any other key nowhere; only Y accepts, always the diff on show, and none dispatches a save |
| EditFlow.Flow.Init | internal/tui/edit_flow.go:271-286 | The flow closes at once exactly when a proposed value changes nothing; otherwise the diff stays or the editor opens |
| EditFlow.Flow.Update | internal/tui/edit_flow.go:377-518 | One message of any kind keeps the invariant of the whole machine, and leads exactly where it has to: a key by the table of phases and keys; the end of the editor by its outcome; the pending reply to the phase of its outcome, with the resource adopted on a conflict, the undo entry pushed on success, and the draft kept unless it was saved; any other reply nowhere, with nothing changed. A diff is agreed to only by Y on a diff or a conflict that shows it; the commit gate opens only on the acceptance of a pending dry run, whose snapshot is then what is checked, or by Y past an unsupported one; saves leave only by enter in the gate, each under a new id, and carry the diff then on show |
| EditFlow.Flow.Receive | internal/tui/edit_flow.go:395-472 | The reply the flow waits for leads to the phase of its outcome, and any other changes nothing but is taken off the wire |
| EditFlow.Flow.SavesAreGuarded | internal/tui/edit_flow.go:995-1006 | Every save ever dispatched followed the typed word, carried exactly a diff the user agreed to by Y, applied to the base it was shown against, and equals the snapshot on record as checked, unless it is on record as past an unsupported dry run; Flow.Update says when these records change, and Session.Session.Run what stands behind them |
| EditFlow.Flow.LeavesAsOpened | internal/tui/edit_flow.go:1041-1066 | A flow that ends without a successful save leaves the shared resource as it was at opening, given the key was where its kind of edit expects it |
| EditFlow.NewEditFlow | internal/tui/edit_flow.go:150-168 | Opens on the value the key has; a missing key opens the failed phase |
| EditFlow.NewKeyRestoreFlow | internal/tui/edit_flow.go:177-184 | Opens the diff that adds a key with a known value |
| EditFlow.NewKeyDeleteFlow | internal/tui/edit_flow.go:186-201 | Opens the diff that removes a key |
| EditFlow.NewResourceEditFlow | internal/tui/edit_flow.go:203-214 | Opens on the text values and binary keys of the whole resource |
| EditFlow.NewResourceCreateFlow | internal/tui/edit_flow.go:216-221 | Opens the creation of a resource |
| EditFlow.NewResourceRevertFlow | internal/tui/edit_flow.go:223-239 | Opens the diff that sets some keys and removes others; a set key that is binary now is refused as a collision |
| TypedConfirm.ConfirmGate.HandleKey | internal/tui/typed_confirm.go:40-56 | The gate keeps the line and the cursor that the keys since it was armed leave, and confirms only on enter when the line spells the word |
| TypedConfirm.ConfirmingTakesTyping | internal/tui/typed_confirm.go:40-56 | Keys that spell the confirmation word contain its three letters, wherever the cursor was moved and whatever was deleted between them: a gate cannot be confirmed by enter alone |
| TypedConfirm.TextWasTyped | internal/tui/typed_confirm.go:54-54 | Every letter in the input was typed since the gate was armed, however the cursor was moved |
| TypedConfirm.TypedText | internal/tui/typed_confirm.go:54-54 | Typing a text and nothing else leaves that text, so typing the word can confirm |
| TypedConfirm.KeyAt | internal/tui/typed_confirm.go:54-54 | A key acts at the cursor, between the text on its left and the text on its right |
| TypedConfirm.Erased | internal/tui/typed_confirm.go:54-54 | A key that deletes a range takes out what lies in it and leaves the cursor there |
| TypedConfirm.TrimSpaceCuts | internal/tui/typed_confirm.go:42-42 | Trimming the line takes white space from both ends and leaves none there |
| Loader.Loader.Start | internal/tui/loader.go:16-25 | Every request gets an id never used before, so no earlier reply can match it |
| Loader.Loader.Finish | internal/tui/loader.go:27-37 | Only the reply to the pending request is taken, and only once |
| Undo.Ring.Push | internal/undo/session.go:32-40 | The ring keeps the newest twenty entries in order; the shifting loop drops exactly the oldest |
| Undo.NewestStay | internal/undo/session.go:32-40 | What stays after a push are the newest entries of all, as many as fit |
| Undo.Ring.LatestFor | internal/undo/session.go:46-54 | Finds the newest entry of the resource |
| Undo.PushThenLatest | internal/undo/session.go:32-54 | A save just pushed is the one found for its resource, and leaves what is found for every other |
| Undo.LatestAfterEviction | internal/undo/session.go:33-36 | Evicting the oldest entry changes what is found only where it was the only one |
| KeyView.UndoInvertsSave | internal/tui/key_view.go:276-300 | Undoing a save gives the overwritten view back if and only if the key was where the edit expected it and, for several keys, the changed values are text |
| KeyView.UndoTwice | internal/tui/key_view.go:276-300 | Undoing the undo gives the saved view back |
| KeyView.UndoOfBinaryChangeFails | internal/tui/key_view.go:288-299 | A concrete save of two keys, one edited into binary bytes, whose undo does not give the old values back |
| KeyView.UndoFlow | internal/tui/key_view.go:276-300 | The flow opened for an entry shows exactly the undoing edit, or does not reach the diff when there is none |
| Session.SaveLandsAsAccepted | internal/tui/edit_flow.go:995-1006 | However late a dispatched save lands, it replaces the version its diff was made from and changes exactly the listed keys of those values |
| Session.Session.Run | internal/tui/edit_flow.go:377-518 | Over runs of any length with other writers, lost and reordered replies: every landed save is a diff on which the user pressed Y; after that either a reply arrived that accepts a dry run of exactly the saved values, or the user pressed Y past an unsupported dry run with this diff on show; the keys pressed from then on spell the word and end with the enter that sent the save, with this diff on show; and it is applied to the values it was shown against. When success is reported, the object held what the last save carried at some moment after that save was dispatched. A flow that ends without success leaves the shared resource unchanged |
| Session.PressAgrees | internal/tui/edit_flow.go:611-660 | One more key adds to what the user agreed to only the diff on show, by Y, and to the saves only one confirmed by that enter in a gate that was opened as it has to be |
| Session.ConfirmedMeans | internal/tui/edit_flow.go:398-419 | A confirmed save had its diff accepted by Y, and either a delivered reply accepted a dry run of exactly what it carries, or the user pressed Y past an unsupported dry run that showed this diff |
| Session.Session.GateWitnessed | internal/tui/edit_flow.go:398-419 | Whenever the gate is open, its diff had been accepted by Y before, and the last thing before the keys typed into it was an accepting reply to a dry run of exactly what is checked, or a Y past an unsupported one |
| Session.Session.SuccessReported | internal/tui/edit_flow.go:420-464 | The save whose success is reported is the last one dispatched, and the values that were held are the ones it carried |
| Session.SaveConfirmed | internal/k8s/save.go:146-194 | A save that is answered with success was held after it was dispatched, not at some earlier moment of the history |
| Session.Session.Step | internal/tui/edit_flow.go:377-518 | Any step of the user, the editor, the runtime or the cluster keeps the invariant of the whole session |
| Session.Session.CarryOut | internal/tui/edit_flow.go:981-1006 | Carrying out any waiting request, in any order, keeps every waiting reply true of the history; the new reply says exactly what the answers of the server to its request come to, and a dry run that passed met the object under the version it carries |
| Session.Session.Deliver | internal/tui/edit_flow.go:398-464 | The reply the flow waits for leads it by its outcome, in phases: a dry run to the gate, rejected, unsupported, the conflict with exactly the object that was shown, or the diff; a save to success, forbidden, the conflict, or the diff; any other reply changes nothing |
| Session.Session.Hand | internal/tui/edit_flow.go:981-1006 | A message that makes the flow submit a dry run or a save adds exactly one request, under its id and with the values the flow holds; any other adds none |
| YamlScalars.QuoteReads | internal/resyaml/resyaml.go:254-260 | Quoting is total and lossless: for every text the double-quoted form reads back, by the escapes of YAML 1.2.2 section 5.7, as that text |
| YamlScalars.QuoteLiteral | internal/resyaml/resyaml.go:262-285 | Everything quoting writes may stand as it is: it is printable by YAML 1.2.2 section 5.1, stays on one line, and holds none of the further line breaks of YAML 1.1, U+0085 among them |
| YamlScalars.CharForms | internal/resyaml/resyaml.go:267-281 | The second escaping pass leaves every escape of the first alone: each character is itself, a short escape or one number |
| YamlScalars.EscapeYamlNonPrintable | internal/resyaml/resyaml.go:267-281 | The early return and the loop both give the escaped text |
| YamlBlocks.BlockReads | internal/resyaml/resyaml.go:206-252 | A literal block reads back as its value for every number of trailing newlines, by the indentation and chomping rules of YAML 1.2.2 section 8.1, and leaves the lines after it alone |
| YamlBlocks.RenderBlock | internal/resyaml/resyaml.go:230-252 | The builder loops write the indicator, the indented lines and exactly the line breaks to keep |
| YamlBlocks.BlockShape | internal/resyaml/resyaml.go:230-252 | What a block looks like, without the lines it is made of: the indicator for the number of newlines that end the value, the rest with two more spaces after every newline, and all those newlines but one when there are two or more |
| YamlBlocks.CandidateIff | internal/resyaml/resyaml.go:206-228 | Which values are block candidates, character by character: the value starts at once, holds a newline, a double quote or a backslash, has no blank before a newline or at its end, and no control character or separator |
| YamlBlocks.LinesOfText | internal/resyaml/resyaml.go:141-149 | Cutting a text of whole lines gives the lines back |
| Resyaml.CandidateVerifies | internal/resyaml/resyaml.go:179-183 | A block candidate of characters that may stand as they are always survives the verifying reparse, so it is written as a block |
| Resyaml.VerifiedIffPrintable | internal/resyaml/resyaml.go:179-185 | The verifying reparse accepts a block candidate if and only if it is printable and holds no next-line character U+0085 |
| Resyaml.NextLineFallsThrough | internal/resyaml/resyaml_test.go:81-98 | A concrete printable candidate with a next-line character: it fails the reparse, and its quoted form reads back |
| Resyaml.RenderValue | internal/resyaml/resyaml.go:175-187 | A plain value is written as it is; a block candidate that is printable and free of U+0085 as its literal block; every other value in double quotes that read back |
| Resyaml.ValueOnItsRung | internal/resyaml/resyaml.go:175-187 | The rung of the ladder that every value is written on, stated over the text written |
| Resyaml.EntryIsWritten | internal/resyaml/resyaml.go:83-95 | An entry is its key, plain or quoted, and its value on its rung; the key has a line of its own exactly when it has more than 1024 bytes |
| Resyaml.BodyIsWritten | internal/resyaml/resyaml.go:83-95 | The body is the entries of the keys in the order given and nothing else |
| Resyaml.EntryReads | internal/resyaml/resyaml.go:83-95 | Every entry, with an implicit or an explicit key, reads back as its key and value and takes exactly its own lines, unless its key is taken for a merge |
| Resyaml.ValueReads | internal/resyaml/resyaml.go:175-187 | Whichever rung of the ladder a value was written on, it reads back |
| Resyaml.MergeFails | internal/resyaml/resyaml.go:168-173 | An entry under a plain merge key is not read as an entry |
| Resyaml.MergeKeyFails | internal/resyaml/resyaml.go:97-105 | A concrete mapping that is printed and cannot be read back: its only key is the merge key |
| Resyaml.CommentsSkipped | internal/resyaml/resyaml.go:65-76 | Comment lines before and after the mapping do not change what is read |
| Resyaml.DocumentRoundTrip | internal/resyaml/resyaml.go:81-105 | For every mapping, any comments above and below its serialized body parse to exactly that mapping if no key is taken for a merge, and do not parse otherwise |
| Resyaml.SerializeValues | internal/resyaml/resyaml.go:81-105 | The body is the entries in natural key order, each value on its rung, and parses to exactly the mapping; the round-trip check fails exactly on a key taken for a merge |
| Resyaml.Serialize | internal/resyaml/resyaml.go:59-78 | The document is the header lines, the mapping in natural key order and one footer line for each binary key, and its comments do not change the parse: it parses to exactly the mapping, or is refused on a key taken for a merge |
| Resyaml.CommentsSay | internal/resyaml/resyaml.go:64-77 | The comments name the resource, its version exactly when it has one, the omission exactly when binary keys are omitted, and one line for each omitted key with its size, in order |
| RefWalk.WalkPodSpec | internal/k8s/refwalk.go:55-149 | The references are exactly the ways the pod refers to a resource, none missing and none made up, each volume reference marked exactly when some container mounts its volume by sub-path; the account name defaults |
| RefWalk.OccursIff | internal/k8s/refwalk.go:61-143 | A reference occurs if and only if a variable of some container takes that key, an environment source names the resource, a volume or a projected source names it with the mark of its mounts, or it is a named image pull secret |
| RefWalk.PodMentions | internal/k8s/refwalk.go:61-143 | A resource is mentioned if and only if some container environment names it, some volume names it, or it is a Secret with a nonempty name among the image pull secrets |
| RefWalk.MarkContainers | internal/k8s/refwalk.go:120-139 | The marking loop over positions marks exactly the references of volumes some container mounts by sub-path |
| RefWalk.AppendVolume | internal/k8s/refwalk.go:90-118 | The recorded positions of a volume are exactly those of its references |
| RefWalk.MarkedByOwner | internal/k8s/refwalk.go:120-139 | Marking by position at the end is marking each reference where it is made |
| RefWalk.ServiceAccountRefs | internal/k8s/refwalk.go:152-168 | Exactly the named Secrets an account carries, pull secrets included |
| RefWalk.AccountMentions | internal/k8s/refwalk.go:152-168 | An account mentions a resource if and only if it is a Secret with a nonempty name among its secrets or pull secrets |
| RefWalk.CollectedMeans | internal/k8s/refwalk.go:184-204 | What the references to a resource come to depends only on which occurrences there are: tags, keys, sub-path and restart flags as exists-statements over them |
| RefWalk.AggregationCanonical | internal/k8s/refwalk.go:172-218 | Aggregation is unchanged by permuting or repeating occurrences: equal sets of references have equal aggregations |
| RefWalk.Aggregated | internal/k8s/refwalk.go:172-218 | One strictly sorted entry for exactly the resources pointed at, with tags in canonical order and keys in natural order |
| RefWalk.AggregateRefs | internal/k8s/refwalk.go:172-218 | The map accumulation and final sort compute that aggregation, whatever order the map is visited in |
| RefWalk.EntryMeans | internal/k8s/refwalk.go:190-213 | What the entry of a pod says: each tag exactly for the way of use it stands for, pull exactly for pull secrets, key k exactly when some variable takes it, sub-path exactly when a volume that names the resource is mounted inside |
| RefWalk.EntryIff | internal/k8s/refwalk.go:184-200 | A resource has an entry if and only if some reference mentions it |
| RefWalk.TagsListed | internal/k8s/refwalk.go:206-210 | The tags of an entry are listed once each, in their canonical order |
| RefWalk.RolloutNeededIff | internal/k8s/refwalk.go:203-203 | An entry of a pod needs a restart exactly when an environment names it, or a volume that names it is mounted by sub-path in some container |
| RefIndex.RefIndex.AddWorkload | internal/k8s/reverse.go:49-52 | Records a workload with its walked references |
| RefIndex.RefIndex.AddPod | internal/k8s/reverse.go:57-68 | Records a pod with its walked references and controller |
| RefIndex.RefIndex.AddServiceAccount | internal/k8s/reverse.go:72-78 | Records a named account under its own name, replacing an earlier one |
| RefIndex.RefIndex.AddExisting | internal/k8s/reverse.go:82-97 | Adds the nonempty names of a kind, marks it known when complete, and ignores other kinds |
| RefIndex.RefIndex.PodCovered | internal/k8s/reverse.go:207-226 | A pod is covered exactly when its controller is an indexed workload, or a ReplicaSet named after an indexed Deployment, a dash and a template hash |
| RefIndex.MadeMeans | internal/k8s/reverse.go:218-221 | Cutting the prefix and testing the suffix finds exactly the names of that form |
| RefIndex.HashChars | internal/k8s/reverse.go:228-238 | A template hash is not empty and holds only letters that are no vowels and no y, and digits other than 0, 1 and 3 |
| RefIndex.RefIndex.Workloads | internal/k8s/reverse.go:133-145 | Workloads with their own and their account's aggregated references, sorted by kind order and name |
| RefIndex.WorkloadsListed | internal/k8s/reverse.go:133-145 | One entry for every workload, with its own and its account's references, by kind order and by name within a kind |
| RefIndex.RefIndex.Orphans | internal/k8s/reverse.go:149-165 | The sorted names of loose pods that refer to something, and their aggregated references |
| RefIndex.OrphansIff | internal/k8s/reverse.go:149-165 | The names are exactly those of the loose pods that refer to something, in order, and the references aggregated are exactly those of the loose pods and of their accounts |
| RefIndex.RefIndex.ConsumersOf | internal/k8s/reverse.go:176-202 | Workloads, then loose pods, then accounts that point at a resource, each in order, whatever order the map of accounts is visited in |
| RefIndex.ConsumersIff | internal/k8s/reverse.go:176-202 | A consumer is listed if and only if it is a workload, loose pod or account whose references point at the resource, with its aggregated view of it |
| RefIndex.ConsumersOrdered | internal/k8s/reverse.go:176-202 | First the workloads by kind and name, then the pods by name, then the accounts by name, each account once |
| RefIndex.ConsumesIff | internal/k8s/reverse.go:49-68 | An added workload or pod consumes a resource if and only if its spec uses it or the account it runs as, where known, carries it |
| RefIndex.JoinedHas | internal/k8s/reverse.go:265-271 | The references of a consumer are its own and, when its account is known, the account's |
| RefIndex.WorkloadOrderIrrelevant | internal/k8s/reverse.go:133-145 | With names unique per kind the answer does not depend on the order workloads were added in |
| RefIndex.AccountOrderIrrelevant | internal/k8s/reverse.go:194-201 | The sorted account consumers do not depend on the order the map is visited in |
| RefIndex.AnswersAgree | internal/k8s/reverse.go:133-202 | Two indexes that differ only in the order of their workloads give equal workloads, orphans and consumers |
| RefIndex.RefIndex.Missing | internal/k8s/reverse.go:242-248 | Missing is known absence |
| RefsCollect.CollectPaged | internal/k8s/reverse.go:350-366 | Lists one source to its end: afterwards the index is consistent with one open listing fewer, unless cancelled |
| RefsCollect.CollectNamespaceRefs | internal/k8s/reverse.go:294-348 | The listings one after the other: no index exactly when a listing is interrupted or the collection turns out cancelled at the end, otherwise an index consistent with everything served |
| RefsCollect.RefsCollector.StartCollect | internal/tui/refs_collect.go:28-48 | An empty index, a fresh request id, and the first page of exactly every listing asked for once |
| RefsCollect.RefsCollector.HandleRefsPage | internal/tui/refs_collect.go:84-145 | A stale page changes nothing; an error reports its listing; a page adds its items and asks for the next, or closes the listing; cancellation ends the collection |
| RefsCollect.RefsCollector.FinishSource | internal/tui/refs_collect.go:147-155 | The collection is complete exactly when the last open listing ends |
| RefsCollect.AbsorbHolds | internal/tui/refs_collect.go:97-139 | A page of one listing extends that listing in its own order and leaves every other as it was |
| RefsCollect.PageArrives | internal/tui/refs_collect.go:97-145 | A page that arrives keeps the index consistent, with the listing still open or closed |
| RefsCollect.ListingFails | internal/tui/refs_collect.go:88-96 | A listing that fails is reported once, under a name no other listing has |
| RefsCollect.SourceNamed | internal/k8s/reverse.go:107-122 | A listing goes by the plural of its kind in lower case |
| RefsCollect.ListedOrReported | internal/tui/refs_collect.go:88-145 | Once nothing is open each listing has arrived in full, and it is whole exactly when it is not among the failed sources |
| RefsCollect.Collection.Run | internal/tui/refs_collect.go:28-155 | For every arrival order, restart and stop: a collection under way always has a reply to come, and a complete index is consistent with everything served |
| RefsCollect.CollectorsAgree | internal/tui/refs_collect.go:28-155 | A completed concurrent collection answers workloads, orphans and consumers, and names failed sources, as the sequential one does |
| RefsCollect.NamesOnMeans | internal/k8s/reverse.go:82-97 | The known names of a kind are exactly the nonempty names on the pages that arrived |
| RefsCollect.MissingIff | internal/k8s/reverse.go:242-248 | A name is called missing exactly when the listing of its kind has ended with its last page and no page named it |
| Suggestions.BuildChecks | internal/tui/suggestion_view.go:192-221 | The queue shares out the rows: every row is served by exactly one command and no command is idle; a row that names a Secret or ConfigMap by prefix is served by the one command of its kind and namespace, which asks for exactly the names of its rows, and any other row by a command of its own |
| Suggestions.GroupPrefixes | internal/tui/suggestion_view.go:195-207 | Rows served by prefix are grouped by kind and namespace, each group once |
| Suggestions.ResolvedSharesOut | internal/tui/suggestion_view.go:229-270 | After one command is answered the others still share out exactly the unchecked rows |
| Suggestions.ReplyKeepsDispatching | internal/tui/suggestion_view.go:229-281 | A reply frees one place, which the next command takes: at most eight at work, none waiting while fewer are, and the counter equals the unchecked rows |
| Suggestions.ReplyOutcome | internal/tui/suggestion_view.go:246-251 | A reply keeps the dispatch going, and when the counter reaches 0 the queue is empty, nothing is at work and no row is unchecked |
| Suggestions.DispatchEnds | internal/tui/suggestion_view.go:246-251 | The counter is 0 exactly when nothing waits and nothing is at work |
| Suggestions.SuggestionScreen.ScanDone | internal/tui/suggestion_view.go:164-228 | Starts at most eight commands and queues the rest, over all rows of the scan |
| Suggestions.SuggestionScreen.SuggestionChecked | internal/tui/suggestion_view.go:229-251 | A current reply makes its one row found with the name it gives, not found, or failed, exactly as it answers, keeps what the row is about, and lowers the counter by one; a stale one changes nothing |
| Suggestions.SuggestionScreen.PrefixMatched | internal/tui/suggestion_view.go:252-281 | A current reply makes every row of the kind and namespace found with its own match exactly when its name has one, not found exactly when the answer has none, failed exactly when there was no answer, keeps what the rows are about, and lowers the counter by their number; a stale one changes nothing |
| Suggestions.SuggestionScreen.TakeChecks | internal/tui/suggestion_view.go:306-313 | Takes up to n commands off the front of the queue |
| Suggestions.ScanRun.Reply | internal/tui/suggestion_view.go:229-281 | Over whole runs each row is judged exactly once, and as the reply to its own check answers: a reply judges rows that were unchecked and touches no other |
| Suggestions.ScanRun.LateReply | internal/tui/suggestion_view.go:230-232 | A reply to an earlier scan, or after a stop, changes no row |
| Suggestions.ScanRun.ScanEnds | internal/tui/suggestion_view.go:164-228 | The result of a scan starts the dispatch in a state where the sharing invariant holds |
| Suggestions.ScanRun.Run | internal/tui/suggestion_view.go:162-281 | Over runs of any length, with rescans, stops and late replies: while checks run at least one and at most eight commands are at work and the counter is the number of unchecked rows; a scan that was not stopped ends with an empty queue and no row unchecked |
| Suggestions.SomeAtWork | internal/tui/suggestion_view.go:299-305 | As long as a row is unchecked some command is at work, so the queue is never stranded |
| Levenshtein.Levenshtein | internal/config/parse.go:139-157 | The two-row loop computes the distance |
| Levenshtein.DistanceIsLeast | internal/config/parse.go:139-157 | The distance is the least number of single-byte insertions, deletions and replacements, anywhere in the string, that lead from one string to the other |
| Levenshtein.NoShorterWay | internal/config/parse.go:139-157 | No sequence of single edits is shorter than the distance |
| Levenshtein.NoneCheaper | internal/config/parse.go:139-157 | No alignment costs less than the distance |
| Levenshtein.Best | internal/config/parse.go:139-157 | Some alignment costs exactly the distance |
| Levenshtein.Compose | internal/config/parse.go:139-157 | Two alignments compose into one that costs no more than both together |
| Levenshtein.ZeroIffEqual | internal/config/parse.go:139-157 | Distance zero means equal |
| Levenshtein.Symmetric | internal/config/parse.go:139-157 | The distance is symmetric |
| Levenshtein.Triangle | internal/config/parse.go:139-157 | The distance satisfies the triangle inequality |
| Levenshtein.ActionSuggestion | internal/config/parse.go:123-137 | Suggests the first of the closest actions when one is less than three edits away, and none otherwise |
| Collisions.Parse | internal/config/parse.go:25-75 | A file is accepted exactly when no line is over-long, every line is valid and no screen has a key with two different claims of which at least one comes from the file. Any other file is rejected for exactly what is wrong with it: cut short by an over-long line, for the errors of the lines before it and that line; else for one error at every invalid line and one for every clash, sorted by line |
| Collisions.ReadLines | internal/config/parse.go:29-67 | Reads the lines in order, reporting each invalid one at its line, up to the first over-long one, which ends the reading with an error at that line |
| Collisions.LineErrorsIff | internal/config/parse.go:77-117 | One error for each line with something wrong, the first check that it fails; none exactly when every line is valid |
| ConfigLines.BindIff | internal/config/parse.go:31-59 | A line binds a key to an action exactly when, after the byte order mark and carriage returns, it spells the setting with any blanks around its parts; the last equals sign parts the two, so a key may hold one |
| ConfigLines.TrimCuts | internal/config/parse.go:35-47 | Trimming takes blanks from both ends and leaves a text with none |
| ConfigLines.TextIs | internal/config/parse.go:31-34 | All carriage returns go from the end of a line, and then the byte order mark from the start of the first, and nothing else |
| ConfigLines.RawLinesAre | internal/config/parse.go:27-31 | The lines hold no line break and together are the file, whether or not its last line is ended |
| Collisions.Parser.ValidateScopeCollisions | internal/config/actions.go:172-222 | Exactly the clashes of all screens are reported: each pair of claims on a key once, at the later of their lines and on the first screen that has both, by screen and by key within it |
| Collisions.ClashErrorsIff | internal/config/actions.go:172-222 | Something is reported exactly when some screen has clashing claims |
| Collisions.Parser.CheckPair | internal/config/actions.go:190-217 | A clashing pair is reported at the later line unless it was looked at before, in which case it has been reported; a pair without a line from the file is not |
| Collisions.Parser.CheckOwners | internal/config/actions.go:188-219 | The double loop looks at every pair of claims on a key |
| Collisions.Parser.ClaimsForScreen | internal/config/actions.go:224-259 | The claims on each key of a screen: rebound actions by the keys and lines of the file, the others by their defaults, and the fixed keys |
| Collisions.CollisionIdUnique | internal/config/actions.go:196-202 | The id of a reported pair determines its key and both claims, so no pair is mistaken for another |
| Collisions.LineDetermined | internal/config/actions.go:238-246 | The line of a claim follows from its id and key alone, whatever the screen |
| Collisions.FirstHere | internal/config/actions.go:190-200 | A pair that was not looked at before is on no earlier screen |
| Collisions.DefaultsForClasses | internal/config/actions.go:261-273 | The default keys of an action on a screen, each once |
| Collisions.Parser.ParseKeybind | internal/config/parse.go:77-117 | A valid binding is recorded under its first line, a repeated one changes nothing, and an invalid one adds one error at its line, for the first check it fails |
| Collisions.RecordMore | internal/config/parse.go:105-116 | Recording one more binding keeps the table equal to what the lines say |
| GitIgnore.MatchIff | internal/project/gitignore.go:102-116 | A path matches exactly when it can be divided so that each ** takes some run of segments and every other pattern segment one that it matches |
| GitIgnore.MatchDivides | internal/project/gitignore.go:102-116 | A match yields such a division |
| GitIgnore.DivisionMatches | internal/project/gitignore.go:102-116 | Every such division is found by the recursion |
| GitIgnore.IgnoreMatcher.Ignored | internal/project/gitignore.go:51-79 | A path, without slashes at its ends, is ignored exactly when the last rule that applies to it is not negated |
| GitIgnore.IgnoreMatcher.RuleMatches | internal/project/gitignore.go:62-73 | A single unanchored segment matches anywhere below; other rules match the whole path |
| GitIgnore.BelowIff | internal/project/gitignore.go:81-93 | A path lies below the directory of a rule exactly when it is the directory or continues it after a slash |
| GitIgnore.RuleSpells | internal/project/gitignore.go:23-49 | Reading a pattern loses nothing: negated exactly with a leading !, for directories only exactly with a trailing slash, its parts spell it again, it is anchored exactly when a slash leads it or parts its segments, and its directory is the given one without slashes at its ends |
| GitIgnore.NoRuleIff | internal/project/gitignore.go:23-49 | Exactly which lines state no rule |
| GitIgnore.IgnoreMatcher.AddFile | internal/project/gitignore.go:23-49 | The rules of a file are added in order |
| GitIgnore.RulesInOrder | internal/project/gitignore.go:23-49 | Every line that states a rule gives that one rule, in the order of the lines |
| GitIgnore.SplitJoins | internal/project/gitignore.go:95-100 | Cutting at slashes and joining again gives the path back, with no slash left in a segment |
| GitIgnore.PathSplits | internal/project/gitignore.go:95-100 | A path is cut into segments without slashes that join to it again; only the empty path has none |

## Left out

- Mutating admission: the server stores the values it was sent. A webhook that changes them makes an ambiguous save read as a conflict.
- Guarded deletion of a whole resource: a version-guarded request like the save, without its retries.
- An update without a resourceVersion, which the server accepts unconditionally: sk64 always edits what it has fetched.
- Classification of Go errors: the class of a reply (conflict, forbidden, never sent, ambiguous, other) is chosen by the environment.
- Deadlines and backoff times: a request may take any time, and a save may be cancelled while it backs off.
- Metadata, types and immutability of resources: a Secret and a ConfigMap are one class with a kind, a version and their data.
- Names and documents that are not UTF-8: they are strings of Unicode scalar values, in the order of their encodings; values are any bytes.
- The text input of the gate beyond its line and cursor: a key counts by what it does, so the deleting and moving keys carry any range and any place; a key press that brings several characters counts as several.
- Validation warnings: an unknown answer decides whether the warning phase is entered.
- Rollout restarts: requested, awaited and left; which workloads are restarted and how is not modelled.
- Editor sessions and temporary files: an editor breaks, leaves its file unreadable or unchanged, or writes any content, whose parse is any result.
- Stopping the program, quitting and navigation between screens.
- Session.Session.Run: requests and replies in flight are values, where the program passes the resource objects themselves.
- Plain YAML scalars: whether a text alone resolves to itself as a string is an unknown predicate that implies the form of a one-line plain scalar. The reader assumes that such a text also resolves to itself in its place as a key or a value; the merge key `<<` is the exception it knows. Quoted keys and values, blocks, comments and explicit keys are read by the model.
- Documents with raw U+0085, U+2028 or U+2029: refused as a whole, where the library reads on with further line breaks; never printed.
- Quoted scalars over several lines, a last line without a line break, anchors, flow collections and duplicate-key messages: never printed.
- Error messages of the parser, sizes in the footer and all rendering: opaque texts.
- Tokens of paginated lists: a token is the number of pages already served, and the pages of one collection are fixed.
- Fields of workloads that the index does not read: namespace and readiness.
- Sorting with ties: names are unique within a kind, as the apiserver guarantees, and no statement depends on the order of ties.
- Linking a suggestion, filters and alignment of its list: no effect on the dispatch of checks.
- The spelling of keys in a config file: a valid key is an unknown predicate. The tables of actions, screens and fixed keys are parameters, and a file that cannot be read is left out.
- Matching one pattern segment against one path segment: an unknown relation, which stands for the matcher of the Go library.
- Trimming of white space in .gitignore lines, and the walk over the file system.
- Search, project forms, context switching, hex dump, CI and Helm extraction: easier invariants than the edit flow's.
