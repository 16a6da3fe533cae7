# Termux:X11, verified models

Termux:X11 is an X server and an Android activity in two processes, joined by a socket and a block of shared memory.
This project models the parts whose correctness does not show in any single function, and proves what they guarantee
for every input, every run or every interleaving.

`dafny verify dfyconfig.toml` checks the whole project.

| file | what it models |
|---|---|
| `FrameProtocol.dfy` | shared flags, root-window lock and cursor lock between server, cursor mover, renderer and activity threads |
| `FrameService.dfy` | what the frame protocol keeps pending is drawn by the next tick and turn of the renderer |
| `BufferLists.dfy` | the renderer's added / attached / removed buffer lists and reference counts |
| `BufferRegistry.dfy` | agreement of the server's registered buffers with the renderer's live ones, through the messages in flight |
| `CondVarProxy.dfy` | replacement of the shared state and the helper thread that forwards its condition variable |
| `Keymap.dfy` | symbol and action lookup in a keymap, the search for a key that produces a keysym |
| `KeyLaws.dfy` | what the search covers and prefers; what Lock, inactive entries, modifier maps and NumLock do |
| `SpareKeys.dfy` | the least-recently-used pool of spare keycodes |
| `KeyInjection.dfy` | typing a keysym with fake Shift and level-three events, the table of pressed keys |
| `StuckPress.dfy` | a keyboard on which a press is given up with a fake Shift left down |
| `ClipboardCodec.dfy` | UTF-8 and Latin-1 conversions |
| `ClipboardRequests.dfy` | pending selection requests and their replies |
| `Viewport.dfy` | fitting, zooming and panning; drawing and touch input as inverse maps |
| `ViewportReports.dfy` | the race between viewport changes and redraws |
| `VblankQueue.dfy` | the Present extension's vblank queue |
| `ComposingText.dfy` | composing text replayed as BackSpaces and characters |
| `ShmTable.dfy` | the emulated System V shared memory table |

Concurrent code is a step system: a state with program counters, an action per atomic step, an inductive invariant, and
theorems over every schedule. Objects that the source updates in place are classes whose methods are proved against
functions on values; the theorems over runs are about those functions.

## Findings

Properties one might expect that do not hold of the code. Each has a member with a failing case and one that says, over
the inputs, exactly when the property holds.

- The pan window is computed from the cursor before `cursor.moved` is cleared (renderer.c:677-678 and 732); a move in
  between is drawn but not panned to: `FrameProtocol.PanCanBeLost`, `FrameProtocol.PanCurrentIffNotLate`.
- A viewport or zoom change that falls between sampling and clearing the request (renderer.c:638 and 710, where
  `stateLock` is not held) is not drawn and no redraw is pending, and touches can be translated for a frame that is not
  on the surface: `ViewportReports.ChangeCanBeLost`, `ViewportReports.FrameCurrentIffNotLate`.
- `addFd` does not forget what was registered on the previous connection; after a reconnect without a hangup the two
  sides agree only if nothing was registered: `BufferRegistry.ReconnectDisagrees`,
  `BufferRegistry.ReconnectAgreesIffNothingRegistered`.
- A press given up because level three cannot be faked (InputXKB.c:930-942) leaves the fake Shift queued before it, so
  Shift stays down: `StuckPress.ShiftStaysDown`, `KeyInjection.AbandonedBalance`.
- A successful reply to a request without a property repeats None and is the event of a refusal (clipboard.c:327-330 and
  408): `ClipboardRequests.SuccessLooksLikeRefusal`, `ClipboardRequests.EventTellsSuccess`.
- Without zoom, a buffer narrower than the expected width (renderer.c:626-629 accepts one rounded down to a multiple of
  8) is stretched, but the input map assumes the expected width: `Viewport.NarrowBufferMisses`, `Viewport.ShowFrame`.
- Composing text is erased with one BackSpace per UTF-16 unit although it is typed by code points; a surrogate pair
  takes a committed character along: `ComposingText.PairEatsCommittedText`, `ComposingText.ReplacedIff`.
- With a socket number of 0x8000 or more, an id does not lead back to it, so a process drops its own segments at the
  first detach: `ShmTable.OwnSegmentDropped`, `ShmTable.DetachKeepsIff`.

## Conditional results

Exact conditions for failures that need something which is not part of this model; whether it happens is not claimed.

- A refresh with an unusable window would clear `drawRequested` (renderer.c:597 assigns `win != defaultWin` to three
  flags, after 566-569 fell back to the default window). This presupposes that a second eglCreateWindowSurface on the
  default window, which has carried `defaultSfc` since renderer.c:269, succeeds; where EGL refuses it, the code returns
  at 584-585 and no flag changes (the action `FailRefresh`). When it succeeds, `FrameProtocol.UnusableWindowLosesIff`
  says which updates are lost, `FrameProtocol.InvalidWindowDropsRequest` is a schedule that loses one, and
  `FrameProtocol.UsableWindowRecovers` says that the next usable window makes up for it.
- A tap of NoSymbol would match the empty entry of keycode 0 and queue a release of it (InputXKB.c:761-769,
  `KeyInjection.Injector.Tap`). This presupposes that `ucs2keysym`, which is not part of this model, can return NoSymbol.
- A keysym added to the keymap is found again only if it equals its own lower or upper case
  (`SpareKeys.PlacedSymbolAnswer`). Whether XkbConvertCase, which is not part of this model, has a keysym that equals
  neither is left open.
- Delivery of clipboard data would not end if it were given NULL (`ClipboardRequests.DeliveryEndsIff`); the caller
  (cmdentrypoint.c:398-401) writes to the buffer before it passes it on.

## Model

| member | source | states |
|---|---|---|
| FrameProtocol.StepKeepsInv | app/src/main/cpp/lorie/renderer.c:606-756 | every atomic step of server, cursor mover, renderer and activity keeps the invariant that no root, shape or cursor update is lost, frames are paced and not torn, and each lock has the owner its program counter says |
| FrameProtocol.ReachableInv | app/src/main/cpp/lorie/InitOutput.c:398-446 | the invariant holds after every schedule |
| FrameProtocol.NoUpdateLost | app/src/main/cpp/lorie/InitOutput.c:398-446 | after every schedule a root write, cursor shape or cursor move is shown or something is still pending, which FrameService.PendingIsServed says is drawn; at rest the screen is current; the exception is confined to times without a surface |
| FrameProtocol.BlankedOnlyByInvalidWindow | app/src/main/cpp/lorie/renderer.c:559-601 | without an unusable window the guarantee has no exception |
| FrameProtocol.InvalidWindowDropsRequest | app/src/main/cpp/lorie/renderer.c:566-597 | given that the surface can be created, a schedule on which an unusable window clears a draw request and nothing is pending |
| FrameProtocol.UnusableWindowLosesIff | app/src/main/cpp/lorie/renderer.c:583-597 | in every reachable state in which an unusable window is about to clear a flag, the root update survives if and only if it is shown or damage or a server step will bring it back, the cursor shape if and only if it is shown or its flag is about to be set |
| FrameProtocol.UsableWindowRecovers | app/src/main/cpp/lorie/renderer.c:595-597 | in every reachable state the end of a refresh with a usable window asks for the root and the cursor to be drawn anew |
| FrameProtocol.FramesPaced | app/src/main/cpp/lorie/renderer.c:739 | frames drawn never exceed ticks plus one |
| FrameProtocol.FramesNotTorn | app/src/main/cpp/lorie/InitOutput.c:881-910 | from sampling to the release of the root lock, the sampled content is the current content |
| FrameProtocol.PanCurrentIffNotLate | app/src/main/cpp/lorie/renderer.c:677-732 | at rest the pan window was computed from the current cursor if and only if no coordinate was written between its reading and the clearing of `cursor.moved` |
| FrameProtocol.PanCanBeLost | app/src/main/cpp/lorie/InitOutput.c:322-329 | a schedule on which the cursor is drawn where it is, the window is not panned to it, and nothing is pending |
| FrameService.PendingIsServed | app/src/main/cpp/lorie/renderer.c:770-832 | what NoUpdateLost counts as pending is served: from every reachable state between two tasks with a surface, a tick and a turn of the renderer leave nothing pending and the screen current, with one frame if there was damage or a flag and none otherwise |
| FrameService.CheckFindsPending | app/src/main/cpp/lorie/renderer.c:832-833 | with a surface and no frame to wait for, the renderer draws if and only if one of the three flags is set; while it has to wait it does not |
| FrameService.FrameServes | app/src/main/cpp/lorie/renderer.c:606-756 | a frame, once begun with its buffer found and the locks free, ends with root, cursor position, pan window and any changed shape as they are |
| FrameService.AfterTick | app/src/main/cpp/lorie/InitOutput.c:403-446 | a tick turns damage into a draw request and lets the renderer draw again |
| FrameService.ConnectionIsServed | app/src/main/cpp/lorie/InitOutput.c:136-140 | a new connection asks for root and cursor shape to be drawn |
| BufferLists.RendererBuffers.AddBuffer | app/src/main/cpp/lorie/renderer.c:441-446 | the buffer is put first on the added list, everything else is unchanged |
| BufferLists.RendererBuffers.RemoveBuffer | app/src/main/cpp/lorie/renderer.c:448-463 | a buffer GL does not know is freed, one it knows moves to the removed list, an unknown id changes nothing |
| BufferLists.RendererBuffers.RemoveAllBuffers | app/src/main/cpp/lorie/renderer.c:465-479 | both loops terminate; added buffers are freed in list order, attached ones retired in reverse order |
| BufferLists.RendererBuffers.AttachAll | app/src/main/cpp/lorie/renderer.c:820-826 | the loop terminates and moves all added buffers in front of the attached ones, reversed |
| BufferLists.RendererBuffers.DrainRemoved | app/src/main/cpp/lorie/renderer.c:835-838 | the loop terminates because every listed buffer has count 1, and frees exactly the removed list |
| BufferLists.RendererBuffers.ReleaseAdded | app/src/main/cpp/lorie/buffer.h:101-105 | releasing a listed buffer frees it and takes it off its list |
| BufferLists.ActivityKeepsGLBuffers | app/src/main/cpp/lorie/renderer.c:448-479 | no operation of the activity thread frees or loses a buffer GL knows; it frees only added ones |
| BufferLists.StepKeepsInv | app/src/main/cpp/lorie/renderer.c:611-618 | every step of either thread conserves the buffers and keeps the one being drawn alive |
| BufferLists.BufferLifetime | app/src/main/cpp/lorie/renderer.c:820-839 | in every interleaving each received buffer is in exactly one list or was freed exactly once, nothing else is listed or freed, and the buffer being drawn is alive |
| BufferLists.OnlyDrainFreesGLBuffers | app/src/main/cpp/lorie/buffer.c:254-270 | a buffer GL knows is freed by nothing but the renderer's own drain, never during a redraw |
| BufferLists.Chosen | app/src/main/cpp/lorie/renderer.c:610-617 | some buffer of the id is found if and only if one is attached or retired, and an attached one goes first |
| BufferLists.AttachedIsDrawable | app/src/main/cpp/lorie/renderer.c:820-826 | a received buffer can be drawn after the next attaching |
| BufferLists.RemovedIsDrawable | app/src/main/cpp/lorie/renderer.c:612-615 | a buffer that is removed can be displayed one last time |
| BufferLists.RetiredIsFreed | app/src/main/cpp/lorie/renderer.c:835-838 | a retired buffer is freed by the next drain |
| BufferRegistry.RegistryAgreement | app/src/main/cpp/lorie/cmdentrypoint.c:452-477 | on every run, while a connection is up, the messages in flight turn the renderer's live ids into exactly the registered ids, with no duplicate ADD and no REMOVE of an unknown id |
| BufferRegistry.QuietAgreement | app/src/main/cpp/lorie/activity.c:197-209 | once all messages are handled the live ids are the registered ids |
| BufferRegistry.ReconnectAgreesIffNothingRegistered | app/src/main/cpp/lorie/cmdentrypoint.c:437-465 | after a reconnect that no hangup preceded the sides agree if and only if nothing was registered, and a registered root buffer is not sent again |
| BufferRegistry.ReconnectDisagrees | app/src/main/cpp/lorie/cmdentrypoint.c:437-465 | a run after which such a reconnect leaves the sides in disagreement |
| BufferRegistry.RemoveLive | app/src/main/cpp/lorie/renderer.c:448-463 | removing a live id takes exactly that id out of added plus attached |
| BufferRegistry.RendererStepsKeepLive | app/src/main/cpp/lorie/renderer.c:820-838 | attaching, drawing and draining change no live id |
| CondVarProxy.ReachableInv | app/src/main/cpp/lorie/renderer.c:793-815 | after every schedule the mapped regions are those somebody holds, and the proxy listens where the phase of the swap says |
| CondVarProxy.NothingRefersToUnmappedMemory | app/src/main/cpp/lorie/renderer.c:952-968 | every condition variable the proxy sleeps on or may sleep on next, and every state a thread uses, is in mapped memory |
| CondVarProxy.UnmapIsSafe | app/src/main/cpp/lorie/renderer.c:970-978 | when a replaced state is about to be unmapped the proxy is on the new variable and no thread has the old state |
| CondVarProxy.UnmappedExactlyOnce | app/src/main/cpp/lorie/renderer.c:429-439 | every region ever mapped is held by someone or was unmapped exactly once |
| CondVarProxy.SwapCompletes | app/src/main/cpp/lorie/renderer.c:952-978 | from every reachable state with the proxy asleep, three steps of the renderer and two of the proxy move it to the new variable and unmap the old state |
| Keymap.EffectiveGroup | app/src/main/cpp/lorie/InputXKB.c:154-170 | a group in range is unchanged; otherwise it is brought into range by a multiple of the number of groups, to the last group, or to the redirected group or the first |
| Keymap.FindEntry | app/src/main/cpp/lorie/InputXKB.c:175-185 | the loop finds the first active entry that matches the modifiers, or none |
| Keymap.TranslateKeyCode | app/src/main/cpp/lorie/InputXKB.c:131-195 | symbol and consumed modifiers of a key in a state, for every key and state |
| Keymap.SearchKeys | app/src/main/cpp/lorie/InputXKB.c:482-540 | the loop returns the lowest producing key a real keyboard sends, else the lowest fake one, else 0 only if no key produces the keysym |
| Keymap.BestIsUnique | app/src/main/cpp/lorie/InputXKB.c:515-540 | there is only one such key |
| Keymap.LevelThreeMask | app/src/main/cpp/lorie/InputXKB.c:284-313 | the modifiers the level-three key sets, 0 if there is none or it sets none |
| Keymap.KeysymToKeycode | app/src/main/cpp/lorie/InputXKB.c:482-566 | the returned state is the first of unchanged, Shift toggled, level three toggled, both toggled in which any key produces the keysym, the key is the best one there, and 0 means no candidate state has one |
| Keymap.AnswerProduces | app/src/main/cpp/lorie/InputXKB.c:482-566 | a non-zero answer really produces the keysym under the returned state |
| Keymap.AnswerIsUnique | app/src/main/cpp/lorie/InputXKB.c:482-566 | the search is determined by keymap, keysym and state |
| KeyLaws.NoAnswerIff | app/src/main/cpp/lorie/InputXKB.c:482-566 | with a one-bit level three the search fails if and only if no state that differs in nothing but Shift and level three has a key for the symbol |
| KeyLaws.AnswerIsLeastChange | app/src/main/cpp/lorie/InputXKB.c:543-563 | no state with a smaller change, Shift counting less than level three, has a key for the symbol |
| KeyLaws.CandidatesComplete | app/src/main/cpp/lorie/InputXKB.c:543-563 | every such state is tried, in the order of its change |
| KeyLaws.CandidateStates | app/src/main/cpp/lorie/InputXKB.c:543-560 | which bits each state tried has, for every mask, also one of several bits or one with Shift |
| KeyLaws.LevelThreeFallsBack | app/src/main/cpp/lorie/InputXKB.c:284-313 | the level-three mask is that of the best ISO_Level3_Shift key, else of the best Mode_switch key |
| KeyLaws.LevelThreePressFallsBack | app/src/main/cpp/lorie/InputXKB.c:397-428 | so is the key that is pressed for it, provided it sets modifiers |
| KeyLaws.LevelIsThatOfActive | app/src/main/cpp/lorie/InputXKB.c:175-185 | inactive map entries are as good as absent |
| KeyLaws.SymbolIgnores | app/src/main/cpp/lorie/InputXKB.c:175-189 | a modifier the type does not look at does not change the symbol |
| KeyLaws.LockCapitalises | app/src/main/cpp/lorie/InputXKB.c:503-511 | Lock on a key whose type does not look at it gives the upper case of what the key gives without |
| KeyLaws.LockConsumed | app/src/main/cpp/lorie/InputXKB.c:503-511 | Lock that the type looks at does not capitalise |
| KeyLaws.LockPreserved | app/src/main/cpp/lorie/InputXKB.c:180-192 | Lock that the matching entry preserves does |
| KeyLaws.ActionBesideSymbol | app/src/main/cpp/lorie/InputXKB.c:197-243 | a key's action stands where its symbol stands |
| KeyLaws.ModMapIsMask | app/src/main/cpp/lorie/InputXKB.c:337-340 | an action that uses the modifier map is as good as one that names the same modifiers |
| KeyLaws.UnaffectedByNumLock | app/src/main/cpp/lorie/InputXKB.c:568-610 | if a key is not affected by NumLock, the modifiers of the NumLock key make no difference to its symbol |
| KeyLaws.AffectedByNumLock | app/src/main/cpp/lorie/InputXKB.c:588-609 | a key whose type looks at one of them is affected, and none is without a NumLock key |
| SpareKeys.KeymapEditor.OnKeyUsed | app/src/main/cpp/lorie/InputXKB.c:628-646 | for any list, the first entry of a used key moves to the front, the others keep their order |
| SpareKeys.KeymapEditor.ReusableKeycode | app/src/main/cpp/lorie/InputXKB.c:653-672 | takes the last entry nobody else modified and forgets those behind it |
| SpareKeys.ReusedIsOldestUntouched | app/src/main/cpp/lorie/InputXKB.c:653-672 | also when others edit the keymap, the reused key is untouched and every entry used less recently was modified |
| SpareKeys.KeymapEditor.AddKeysym | app/src/main/cpp/lorie/InputXKB.c:674-737 | for any keymap, also one others have edited: places the keysym on the highest unused key, else on the last entry nobody modified, else nowhere, and what remains of the list |
| SpareKeys.WithSymIsValid | app/src/main/cpp/lorie/InputXKB.c:612-622 | an addition keeps listed keycodes distinct, in range and carrying what was put on them |
| SpareKeys.UsedIsValid | app/src/main/cpp/lorie/InputXKB.c:628-646 | so does a use |
| SpareKeys.AlwaysOrdered | app/src/main/cpp/lorie/InputXKB.c:612-672 | on every run of presses and additions the list is ordered by last press or addition |
| SpareKeys.EvictionIsLeastRecentlyUsed | app/src/main/cpp/lorie/InputXKB.c:688-697 | an added key is given up only when no keycode is unused, and it is the one whose last press or addition lies furthest back |
| SpareKeys.PlacedProduces | app/src/main/cpp/lorie/InputXKB.c:719-726 | what a placed key produces in every state |
| SpareKeys.PlacedSymbolFound | app/src/main/cpp/lorie/InputXKB.c:809-830 | a placed keysym is found under the current state or with Shift toggled if and only if it equals its own lower or upper case, and then on exactly the key it was placed on |
| SpareKeys.PlacedSymbolAnswer | app/src/main/cpp/lorie/InputXKB.c:825-829 | the whole search, over all states it tries, finds a key for a placed keysym if and only if it equals its own lower or upper case |
| KeyInjection.PressShift | app/src/main/cpp/lorie/InputXKB.c:315-347 | the lowest key that sets Shift; 0 if Shift is down or no key sets it |
| KeyInjection.ReleaseMods | app/src/main/cpp/lorie/InputXKB.c:349-480 | exactly the held keys that set the modifier, in order; none when there are more than eight |
| KeyInjection.PressLevelThree | app/src/main/cpp/lorie/InputXKB.c:397-428 | the best ISO_Level3_Shift key, else the best Mode_switch key, if level three is up and the key sets modifiers |
| KeyInjection.FakeShift | app/src/main/cpp/lorie/InputXKB.c:906-925 | what is faked for Shift, and that it fails if and only if no key can be pressed or released for it |
| KeyInjection.FakeLevelThree | app/src/main/cpp/lorie/InputXKB.c:894-946 | the same for level three, which is looked at only when more than Shift changes |
| KeyInjection.ShiftIsRight | app/src/main/cpp/lorie/InputXKB.c:906-949 | if the Shift bit comes from held keys: when the real key is pressed, a held key sets Shift exactly as the chosen state has it, if and only if the key pressed for level three does not set an unwanted Shift and the keys released for it are not all that hold a wanted one |
| KeyInjection.LevelThreeIsRight | app/src/main/cpp/lorie/InputXKB.c:928-949 | the same for level three: if and only if the keys pressed or released for Shift leave it alone and the key pressed for it sets it |
| KeyInjection.TargetInEffect | app/src/main/cpp/lorie/InputXKB.c:906-949 | with one-bit modifiers that are not locked and keys that set one of them and nothing else, the modifiers in effect when the real key is pressed are exactly those of the chosen state |
| KeyInjection.CandidatesToggle | app/src/main/cpp/lorie/InputXKB.c:542-563 | the states the search tries differ from the current one in nothing but Shift and level three |
| KeyInjection.Injector.TypedProduces | app/src/main/cpp/lorie/InputXKB.c:779-949 | so the key produces the keysym, or an equivalent one, under the modifiers in effect when the trace reaches its press; Tab keeps a held Shift |
| KeyInjection.Injector.TabKeepsShift | app/src/main/cpp/lorie/InputXKB.c:877-892 | with Shift held Tab never releases it; every other keysym is typed under a state that is tried |
| KeyInjection.Injector.FindEquivalent | app/src/main/cpp/lorie/InputXKB.c:791-807 | a key for an equivalent keysym, none if and only if no equivalent has one |
| KeyInjection.Injector.NoEquivalentIff | app/src/main/cpp/lorie/InputXKB.c:792-806 | the table is searched both ways: none is found if and only if no keysym paired with the wanted one has a key |
| KeyInjection.Injector.ChooseKey | app/src/main/cpp/lorie/InputXKB.c:789-830 | the search's own answer if there is one; the keymap is edited if and only if neither the keysym nor an equivalent has a key; 0 only if the edited keymap has none either |
| KeyInjection.Injector.AvoidNumpadShift | app/src/main/cpp/lorie/InputXKB.c:832-877 | an awkward key (fake Shift, affected by NumLock) is replaced by the first table entry whose answer is not awkward, every other key and a key without such an entry stays; the result still fits |
| KeyInjection.Injector.IsAffectedByNumLock | app/src/main/cpp/lorie/InputXKB.c:568-610 | what the code tests: the mask of the NumLock action, or the modifier map of the key itself, against the type of the key |
| KeyInjection.Injector.Decide | app/src/main/cpp/lorie/InputXKB.c:789-892 | the key produces the keysym, or an equivalent one, in one of the states the search tries; the target is that state, for Tab with a held Shift kept; 0 only if nothing has a key |
| KeyInjection.Injector.Press | app/src/main/cpp/lorie/InputXKB.c:779-988 | the whole event trace, table and keymap, and what is behind each outcome: no key, a modifier that cannot be faked and what had been queued by then, or the chosen key with its fakes |
| KeyInjection.Injector.Record | app/src/main/cpp/lorie/InputXKB.c:953-964 | only the pressed keycode maps to the keysym afterwards |
| KeyInjection.RecordedIsInjective | app/src/main/cpp/lorie/InputXKB.c:953-964 | the table never maps two keycodes to one keysym, and the new entry is the one a release finds |
| KeyInjection.RecordedKeepsOthers | app/src/main/cpp/lorie/InputXKB.c:954-963 | a keysym recorded for another key stays recorded there, and is what its release finds |
| KeyInjection.ReleasedWhereTyped | app/src/main/cpp/lorie/InputXKB.c:761-777 | on every run of presses and releases a keysym is released on the key it was typed on, whatever else is typed on other keys or released in between |
| KeyInjection.Injector.Release | app/src/main/cpp/lorie/InputXKB.c:761-777 | releases the lowest keycode recorded for the keysym and clears the entry, or does nothing |
| KeyInjection.Injector.Tap | app/src/main/cpp/lorie/cmdentrypoint.c:383-388 | the trace of a press and release and what is behind it; the table is empty between taps; what NoSymbol does |
| KeyInjection.TypedBalance | app/src/main/cpp/lorie/InputXKB.c:903-988 | after a run that reaches the real key, presses minus releases is 1 for that key and 0 for all others |
| KeyInjection.TapBalance | app/src/main/cpp/lorie/cmdentrypoint.c:383-388 | after a whole tap it is 0 for all keys |
| KeyInjection.AbandonedBalance | app/src/main/cpp/lorie/InputXKB.c:930-942 | a press given up leaves every key as it was if and only if Shift could not be faked or need not change |
| StuckPress.ShiftStaysDown | app/src/main/cpp/lorie/InputXKB.c:906-946 | a keymap, a state and a keysym for which press and release leave a press of Shift in the queue that nobody releases |
| StuckPress.GivenUp | app/src/main/cpp/lorie/InputXKB.c:934-942 | on that keyboard the press of the capital is given up with a fake press of Shift queued |
| StuckPress.BoardIsPlain | app/src/main/cpp/lorie/InputXKB.c:284-313 | without a latched modifier the same keyboard meets what TargetInEffect asks of modifiers |
| ClipboardCodec.ConvertLF | app/src/main/cpp/lorie/clipboard.c:36-41 | the buffer starts with the bytes other than CR, in order, and is unchanged behind them |
| ClipboardCodec.WithoutCRCommutes | app/src/main/cpp/lorie/clipboard.c:260-272 | removing CR from the bytes removes it from the text, so the result is well-formed |
| ClipboardCodec.Latin1ToUTF8 | app/src/main/cpp/lorie/clipboard.c:43-49 | writes the UTF-8 encoding of the text up to its NUL and not a byte more |
| ClipboardCodec.MaskTests | app/src/main/cpp/lorie/clipboard.c:51-78 | the bit tests of the source select the ranges used in the models |
| ClipboardCodec.CheckUTF8 | app/src/main/cpp/lorie/clipboard.c:51-78 | with a NUL at index size, reads only indices up to it and accepts exactly the sequences of complete groups before the first NUL |
| ClipboardCodec.CheckGroup | app/src/main/cpp/lorie/clipboard.c:56-75 | one turn of the loop: the complete group at an index, or none |
| ClipboardCodec.WellFormedPasses | app/src/main/cpp/lorie/clipboard.c:51-78 | every well-formed text passes the check |
| ClipboardCodec.PrefixPasses | app/src/main/cpp/lorie/clipboard.c:51-78 | also one with NUL characters in it |
| ClipboardCodec.Utf8ToUCS4 | app/src/main/cpp/lorie/clipboard.c:80-135 | bytes consumed and code point for any bytes within the budget, malformed ones included |
| ClipboardCodec.ReadContinuations | app/src/main/cpp/lorie/clipboard.c:111-134 | the loop over the continuation bytes; an offending byte is counted as consumed |
| ClipboardCodec.SkipContinuations | app/src/main/cpp/lorie/clipboard.c:102-108 | the loop over the bytes behind an invalid lead |
| ClipboardCodec.DecodesEncoded | app/src/main/cpp/lorie/clipboard.c:80-135 | on well-formed input the decoder consumes exactly one code point and reports it |
| ClipboardCodec.CodePointsOfText | app/src/main/cpp/lorie/clipboard.c:137-180 | decoding inverts encoding for every NUL-free text |
| ClipboardCodec.Utf8ToLatin1 | app/src/main/cpp/lorie/clipboard.c:137-180 | on every well-formed NUL-free text shorter than 2^32 bytes both passes take the same steps, exactly the counted bytes are written, each code point becomes itself or a question mark |
| ClipboardCodec.Fill | app/src/main/cpp/lorie/clipboard.c:161-179 | the second pass fills the buffer to its last byte and returns a copy |
| ClipboardCodec.Latin1RoundTrip | app/src/main/cpp/lorie/clipboard.c:43-180 | Latin-1 to UTF-8 to Latin-1 is the identity on NUL-free text |
| ClipboardCodec.Latin1Faithful | app/src/main/cpp/lorie/clipboard.c:137-180 | a text survives the conversion if and only if it is Latin-1 |
| ClipboardRequests.ClipboardServer.ConvertSelection | app/src/main/cpp/lorie/clipboard.c:299-411 | sends one reply with the request's own fields, or queues the request and asks for data, or does neither and fails |
| ClipboardRequests.StoredWhereAsked | app/src/main/cpp/lorie/clipboard.c:327-330 | a successful conversion stores under exactly the property the request names, and under the name of the target if it names none |
| ClipboardRequests.StoredAsWanted | app/src/main/cpp/lorie/clipboard.c:334-401 | what is stored for each target: the text; a byte for each character, itself or a question mark; the five targets; the time |
| ClipboardRequests.OfferedIsServed | app/src/main/cpp/lorie/clipboard.c:334-345 | the targets that are offered are exactly those a request succeeds with |
| ClipboardRequests.SucceedsIff | app/src/main/cpp/lorie/clipboard.c:316-401 | with data, when exactly a conversion succeeds |
| ClipboardRequests.EventNamesStored | app/src/main/cpp/lorie/clipboard.c:403-410 | an event names a property if and only if the client finds something stored under it |
| ClipboardRequests.AskedWithoutData | app/src/main/cpp/lorie/clipboard.c:353-376 | without data exactly a text request is queued; targets and time are answered at once |
| ClipboardRequests.ClipboardServer.ProcConvertSelection | app/src/main/cpp/lorie/clipboard.c:433-456 | a request on the owned selection is replied to once or queued once, any other is left to the original handler |
| ClipboardRequests.ClipboardServer.HandleAnnounce | app/src/main/cpp/lorie/clipboard.c:512-524 | forgets the cached text, takes the selection if that is granted, keeps what is pending |
| ClipboardRequests.ClipboardServer.HandleData | app/src/main/cpp/lorie/clipboard.c:526-559 | the loop terminates, answers every pending request once, newest first, and leaves none |
| ClipboardRequests.BalancedKept | app/src/main/cpp/lorie/clipboard.c:299-559 | every step keeps: requests are replies plus pending ones, as multisets of serial numbers |
| ClipboardRequests.FreshKept | app/src/main/cpp/lorie/clipboard.c:512-530 | every step keeps versions growing from the Android clipboard through the channel to the cache |
| ClipboardRequests.AnsweredOnce | app/src/main/cpp/lorie/clipboard.c:413-559 | on every run each request is answered exactly once or pending exactly once, each reply carries the fields of its request, and no text served is older than the last announced change |
| ClipboardRequests.DataAnswersEverything | app/src/main/cpp/lorie/clipboard.c:526-559 | once the activity's text is handled every request so far has its one reply |
| ClipboardRequests.SuccessLooksLikeRefusal | app/src/main/cpp/lorie/clipboard.c:327-408 | for every text, a request whose data is stored and whose event is that of a refusal |
| ClipboardRequests.EventTellsSuccess | app/src/main/cpp/lorie/clipboard.c:327-408 | the event of the answer is that of a refusal if and only if the conversion failed or the request names no property |
| ClipboardRequests.NoDataNoProgress | app/src/main/cpp/lorie/clipboard.c:534-558 | without data, no number of turns of the delivery loop changes anything when the newest request can be queued again |
| ClipboardRequests.DeliveryEndsIff | app/src/main/cpp/lorie/clipboard.c:534-558 | the delivery loop ends if and only if there is data or a text request cannot be queued again |
| ClipboardRequests.ClipboardServer.AnswerNewest | app/src/main/cpp/lorie/clipboard.c:534-557 | one turn of the loop, with or without data |
| Viewport.View.UpdateViewport | app/src/main/java/com/termux/x11/LorieView.java:712-749 | the fitted viewport is inside the surface, centred in the available area, fills one dimension and misses the aspect ratio by less than a pixel in the other |
| Viewport.FittedIsLargest | app/src/main/java/com/termux/x11/LorieView.java:724-732 | no box of the exact aspect ratio is larger in either dimension |
| Viewport.RenderInside | app/src/main/cpp/lorie/renderer.c:640-657 | along an axis the zoomed and rounded viewport stays on the surface, is not smaller than fitted, and is off centre by at most half a pixel |
| Viewport.RenderedInside | app/src/main/cpp/lorie/renderer.c:638-657 | so a viewport inside the surface is drawn inside the surface |
| Viewport.WindowWithinScreen | app/src/main/cpp/lorie/renderer.c:668-670 | the pan window is never larger than the screen, nor smaller than the screen divided by the zoom |
| Viewport.PanInside | app/src/main/cpp/lorie/renderer.c:680-698 | the pan window is on the screen, contains every cursor on the screen, and does not move again for the same cursor |
| Viewport.PanIsNearest | app/src/main/cpp/lorie/renderer.c:673-698 | among the positions that keep the cursor out of the edge bands it takes the nearest, and stays if it is one |
| Viewport.Renderer.SetZoom | app/src/main/cpp/lorie/renderer.c:546-557 | the zoom is clamped to 100..400, and 100 resets the pan window |
| Viewport.Renderer.Redraw | app/src/main/cpp/lorie/renderer.c:624-706 | for every surface, buffer and cursor: when a frame is drawn, that it is inside the surface; with zoom, that window and viewport together make up the zoom, that the window is on the screen, contains the cursor and rests; that drawn and reported windows have one width if and only if zoomed or the buffer has the expected width |
| Viewport.AxisMagnified | app/src/main/cpp/lorie/renderer.c:640-670 | the viewport grows by the zoom, or to the nearer edge of the surface if there is no room, and window times zoom is 100 times the screen times that growth |
| Viewport.FullViewportMagnifies | app/src/main/cpp/lorie/renderer.c:667-670 | under a viewport that fills the surface, window times zoom is 100 times the screen |
| Viewport.TouchMeetsColumn | app/src/main/java/com/termux/x11/LorieView.java:658-664 | a touch where a column is drawn is reported as exactly that column if and only if drawn and reported widths agree or it is the left edge |
| Viewport.TouchMeetsRow | app/src/main/java/com/termux/x11/LorieView.java:687-702 | the same for rows, although GL and Android count them from opposite sides |
| Viewport.HotspotOnItsPoint | app/src/main/cpp/lorie/renderer.c:922-935 | the cursor's hotspot is drawn exactly on the screen point it points at |
| Viewport.TouchOnHotspot | app/src/main/cpp/lorie/renderer.c:664-706 | a touch on the hotspot gives back the cursor's coordinates under the same condition as for any other point |
| Viewport.ShowFrame | app/src/main/cpp/lorie/renderer.c:624-735 | after a redraw and its report, a touch on the drawn hotspot is translated from the view's fields to the cursor's row, and to its column if and only if zoomed, or the buffer has the expected width, or it is column 0 |
| Viewport.NarrowBufferMisses | app/src/main/cpp/lorie/renderer.c:626-629 | a redraw of a 1366 pixel screen with a 1360 pixel buffer, after which a touch on the cursor misses it |
| ViewportReports.StepKeepsInv | app/src/main/cpp/lorie/renderer.c:162-187 | every step of UI and renderer thread keeps the report cache in line with what the view will have, and `late` in line with what was missed |
| ViewportReports.FrameCurrentIffNotLate | app/src/main/cpp/lorie/renderer.c:530-556 | when both threads are quiet the frame is current if and only if the last change did not fall between sampling and clearing the request; and then touches are translated for exactly the frame on the surface |
| ViewportReports.ChangeCanBeLost | app/src/main/cpp/lorie/renderer.c:638-710 | a schedule on which a change is lost and touches are translated for a frame that is not there |
| VblankQueue.Screen.QueueVblank | app/src/main/cpp/lorie/InitOutput.c:742-754 | the event is put first, or nothing changes when there is no memory |
| VblankQueue.Screen.AbortVblank | app/src/main/cpp/lorie/InitOutput.c:756-766 | exactly the first event of that id is taken out |
| VblankQueue.Screen.PerformVblanks | app/src/main/cpp/lorie/InitOutput.c:768-777 | the loop that deletes as it goes notifies the due events in queue order and keeps the others in order |
| VblankQueue.Screen.Redraw | app/src/main/cpp/lorie/InitOutput.c:403-404 | the counter advances before the events are performed |
| VblankQueue.PerformTakesDue | app/src/main/cpp/lorie/InitOutput.c:768-777 | after a perform nothing due is left and exactly the due events were notified |
| VblankQueue.NothingLostOrDoubled | app/src/main/cpp/lorie/InitOutput.c:742-777 | on every run events queued are events pending, notified and aborted together, and none was notified before its MSC |
| VblankQueue.NotifiedAtMostOnce | app/src/main/cpp/lorie/InitOutput.c:756-777 | an event queued once has at most one notice, and none while pending or once aborted |
| VblankQueue.AbortedIsSilent | app/src/main/cpp/lorie/InitOutput.c:756-766 | when ids are used once: after an abort no event of that id is pending and none is notified any more |
| VblankQueue.FiresExactlyOnTime | app/src/main/cpp/lorie/InitOutput.c:403-404 | whatever else is queued or aborted, an event for MSC m queued at c < m fires at exactly the (m - c)-th redraw, a past one at the next |
| ComposingText.InputConnection.ReplaceText | app/src/main/java/com/termux/x11/LorieView.java:476-498 | the keys sent for every old and new text, and the composing text afterwards |
| ComposingText.InputConnection.SendText | app/src/main/cpp/lorie/activity.c:344-375 | one key per code point |
| ComposingText.TypedIsText | app/src/main/cpp/lorie/activity.c:355-374 | a well-formed UTF-16 text is typed as exactly its characters, and has a surrogate pair for each one beyond the basic plane |
| ComposingText.InputConnection.SetComposingText | app/src/main/java/com/termux/x11/LorieView.java:522-524 | replaces the composing text and keeps it |
| ComposingText.InputConnection.CommitText | app/src/main/java/com/termux/x11/LorieView.java:526-539 | replaces the composing text and forgets it |
| ComposingText.InputConnection.FinishComposingText | app/src/main/java/com/termux/x11/LorieView.java:541-546 | forgets it without a key |
| ComposingText.ReplacedIff | app/src/main/java/com/termux/x11/LorieView.java:476-498 | replaying the keys leaves committed text followed by the new text if and only if the surrogate pairs are harmless: as many in both texts for the prefix shortcut, otherwise none in the old text or nothing before it |
| ComposingText.ShortcutIsRetyping | app/src/main/java/com/termux/x11/LorieView.java:479-490 | on basic-plane text the prefix shortcut does what erasing all and retyping does |
| ComposingText.StepShows | app/src/main/java/com/termux/x11/LorieView.java:522-546 | a call made while the screen is right leaves it right exactly then |
| ComposingText.ScreenShowsMeaning | app/src/main/java/com/termux/x11/LorieView.java:522-546 | on every run over basic-plane texts the screen shows the committed text followed by the composing text |
| ComposingText.PairEatsCommittedText | app/src/main/java/com/termux/x11/LorieView.java:486-487 | an emoji replaced by a letter takes the character before it along |
| ShmTable.SocketRoundTrip | app/src/main/cpp/lorie/shm/shmem.c:235-245 | an id leads back to its socket number if and only if that is below 0x8000; ids of one socket differ |
| ShmTable.SuccessiveIdsDiffer | app/src/main/cpp/lorie/shm/shmem.c:463-466 | the ids of any 0x8000 successive calls are different |
| ShmTable.RoundedToPages | app/src/main/cpp/lorie/shm/shmem.c:469 | sizes are rounded up to whole pages by less than a page |
| ShmTable.Shm.FindLocalIndex | app/src/main/cpp/lorie/shm/shmem.c:247-253 | the first segment with that id, or none |
| ShmTable.Shm.Delete | app/src/main/cpp/lorie/shm/shmem.c:290-295 | in-place compaction takes out one entry, keeps the others in order, and closes its descriptor |
| ShmTable.Shm.Get | app/src/main/cpp/lorie/shm/shmem.c:458-486 | one new unattached segment under the next id, or no change and a used-up id when the region cannot be created |
| ShmTable.Shm.Attach | app/src/main/cpp/lorie/shm/shmem.c:490-534 | maps an unattached segment, gives the address of an attached one |
| ShmTable.Shm.Detach | app/src/main/cpp/lorie/shm/shmem.c:537-571 | detaches the first segment at the address, and deletes it if marked or foreign |
| ShmTable.Shm.Remove | app/src/main/cpp/lorie/shm/shmem.c:588-607 | marks an attached segment, deletes an unattached one |
| ShmTable.DeleteRefines | app/src/main/cpp/lorie/shm/shmem.c:290-295 | compaction removes one id of the map and changes no other |
| ShmTable.GetRefines | app/src/main/cpp/lorie/shm/shmem.c:458-486 | a new segment refines an insertion when its id is not live, and breaks distinctness when it is |
| ShmTable.StepRefines | app/src/main/cpp/lorie/shm/shmem.c:458-607 | every operation does to the array what the reference does to the map; marked segments stay attached and addresses distinct |
| ShmTable.ArrayRefinesMap | app/src/main/cpp/lorie/shm/shmem.c:458-607 | array and map agree in every state of every run |
| ShmTable.EarlyRunsAgree | app/src/main/cpp/lorie/shm/shmem.c:458-607 | on runs from the empty table with at most 0x8000 calls of shmget array and map agree without any condition on ids |
| ShmTable.AttachActs | app/src/main/cpp/lorie/shm/shmem.c:521-529 | an unattached segment gets the mapped address, an attached one keeps its own, no other changes |
| ShmTable.RemoveActs | app/src/main/cpp/lorie/shm/shmem.c:597-604 | an unattached segment is gone at once, an attached one stays, marked, no other changes |
| ShmTable.RemovedUntilDetach | app/src/main/cpp/lorie/shm/shmem.c:551-606 | a removed segment stays as it is until it is detached, whatever happens to the others, and vanishes at exactly that detach, alone |
| ShmTable.DetachKeepsIff | app/src/main/cpp/lorie/shm/shmem.c:556-561 | the code's detach leaves an attached segment nobody removed in the table if and only if the socket number is below 0x8000 |
| ShmTable.OwnSegmentDropped | app/src/main/cpp/lorie/shm/shmem.c:551-561 | a process with socket number 0x8000 creates, attaches and detaches a segment, and it is gone |
| ShmTable.DetachNull | app/src/main/cpp/lorie/shm/shmem.c:551-565 | shmdt(NULL) changes nothing if and only if every segment is attached or the socket number is below 0x8000 |

## Left out

- EGL, GLES, AHardwareBuffer, ANativeWindow, JNI and the Android framework: foreign code; only their effect on flags, lists and ownership is modelled.
- The X server's Damage, EXA, RandR, Present core and input queue: a root write sets damage, the input queue is an ordered list of events, `lorieProcConvertSelection` is modelled from the point where its parameters are valid, and whether lorieOwnSelection succeeds is a parameter.
- Wake-up liveness: lost condition signals and the proxy's start-up race. PendingIsServed and SwapCompletes say what the threads do once they run, not that they are woken.
- Weak memory, mutex recovery after process death (lorie.h:50-85) and several threads moving the cursor at once: memory is sequentially consistent, mutexes work, one thread moves the cursor.
- Root resize and page flipping: they replace the damage object or may lower the MSC; frame and vblank models have a fixed root and redraw ticks.
- FrameProtocol, BufferRegistry, CondVarProxy and ViewportReports are step systems on values, not classes: their content is the interleaving; BufferLists has the lists both as a class and as a step system.
- Failed receives and exhausted memory when a buffer arrives (activity.c:197-203), and the reuse of freed buffer addresses: a received buffer is a new one with count 1.
- XkbConvertCase, XkbChangeTypesOfKey and key names: two functions on keysyms, the canonical ALPHABETIC type, and one bit per key; they map real symbols to real symbols.
- KeyInjection.Injector.IsAffectedByNumLock: follows the code, which reads the modifier map of the key it is asked about where the NumLock key's is meant (InputXKB.c:601); that this is the right mask is not claimed.
- SpareKeys.AlwaysOrdered: and EvictionIsLeastRecentlyUsed are about runs in which only this code edits the keymap; AddKeysym, OnKeyUsed and ReusableKeycode hold for any keymap. Out of memory in saveAddedKeysym is not modelled.
- KeyInjection.ShiftIsRight: and the members beside it read what a key sets in the current state, as the code does, and take it that the key does the same when it is pressed or released; a latched or locked Shift is not a bit that comes from held keys.
- The table of equivalent keysyms `altKeysym` (up to InputXKB.c:126) is a parameter; the symbols in it are real ones.
- ClipboardCodec.Utf8ToLatin1: is about well-formed input, which is what the activity sends; on malformed input the decoder's own behaviour is in Utf8ToUCS4. Texts longer than `int` can index are not considered in CheckUTF8.
- Receiving a selection from X clients (clipboard.c:203-292) beyond its conversions; the MULTIPLE target, which the source does not support.
- ClipboardRequests.ClipboardServer.HandleData: takes actual data; the caller allocates it and cannot pass NULL without crashing first. Texts end at their first NUL.
- Viewport: 32-bit float rounding and Java int overflow; screen dimensions from the settings are positive. The viewport is inside the surface when the measured view and the native window have the same size.
- ViewportReports.FrameCurrentIffNotLate: assumes that a shared state is present when the viewport changes and that the report call raises no exception.
- VblankQueue: 64-bit wrap-around of the MSC, and callbacks that change the queue during a notification.
- ComposingText: NUL characters, cursor movement and deleteSurroundingText, modifier keys of the extra keys bar; the application is assumed to insert typed characters and to delete one per BackSpace.
- ShmTable: keys other than IPC_PRIVATE, remote segments, sockets, symbolic links and forks; one attachment per segment and process, as in the source. The size is rounded up without overflow.
- Input devices, preferences, gestures, toolbar, loader and stubs: they would only add easy members.
