# Chat front-end state model

A Dafny model of the state logic of a chat-assistant web front-end: the
conversation store behind the sidebar, the model registry, the sidebar
flag, the page's glow settings, chat grouping, "load more" window and
simulated streaming reply, and the small state machines of the input bar,
the sidebar list item and the message list's scroll coordinator.

Layout, one module per source file (plus three helper modules):

- `wrappers.dfy` (`Wrappers`): `Option`, for `undefined` and absent keys.
- `js_array.dfy` (`JsArray`): `filter`, `slice(0, n)` and `find` on sequences, with their laws.
- `text.dfy` (`Text`): `String.prototype.trim` over the ECMAScript whitespace set.
- `chats.dfy` (`Chats`): the `useChats` store as functions on `seq<Chat>`.
- `models.dfy` (`Models`): the `useModels` store and its invariant "the selection is listed".
- `sidebar.dfy` (`Sidebar`): the `useSidebar` flag.
- `chat_input.dfy` (`ChatInput`): the submit guard, and the `InputBox` class holding the typed text.
- `page.dfy` (`Page`): glow settings merge, pinned/recent/archived groups, load more, "New chat", `split(' ')`/`join(' ')`, and the `ChatSession` class whose `SimulateStreamingResponse` runs the word-by-word loop.
- `chat_list_item.dfy` (`ChatListItem`): the rename guard, the menu dispatch, and the `ListItem` class with `isRenaming`/`newTitle`.
- `chat_container.dfy` (`ChatContainer`): the debounced scroll classifier as pure steps (scroll event, timer fires, scroll to bottom) and the `ScrollCoordinator` class proved against them; the streaming indicator.

The stores are pure: every action maps the old list to a new one. The
streaming loop, the input box, the list item and the scroll coordinator
update state step by step, so they are classes whose methods state their
new state in terms of the old one; what those states mean is proved as
lemmas about the pure functions.

The record type `Chat` in `types/chat.ts` lacks the two flags the store
uses; the model's `Chat` has both, and a chat made by the "New chat"
button, which omits them, carries `false`, as the filters read it.

The model follows the code where it departs from the behaviour one might expect of such an app:

- Renaming: the store's `renameChat` has no blank-title check. The check lives only in the list item's `handleRename`, which passes the draft untrimmed.
- Archiving a pinned chat keeps it in the pinned group. The pinned filter ignores `isArchived`, so such a chat is listed under both Pinned and Archived (`GroupsOverlap`, `ArchiveKeepsPinned`).
- "Load more" caps the window at `chats.length`, not at the number of unflagged chats. The recent group shown is still capped at the unflagged count (`LoadMoreGrows`).
- The reply is split on single spaces (`split(' ')`), not on all whitespace. Newlines stay inside words, and consecutive spaces give empty words.

## Model

| member | source | states |
|---|---|---|
| Chats.EditWhere | hooks/use-chats.ts:26-50 | an id-keyed `map` keeps the length, edits every chat whose id matches and leaves every other chat as it was |
| Chats.InitialChats | hooks/use-chats.ts:18-23 | the seed list has ids "1".."4" in order, none pinned or archived, timestamps 4000..1000 ms before now |
| Chats.AddChat | hooks/use-chats.ts:24 | the new chat is at index 0 and every old chat follows in its old order; length grows by one |
| Chats.RemoveChat | hooks/use-chats.ts:25 | a chat survives exactly when it was in the list and its id differs |
| Chats.PinChat | hooks/use-chats.ts:26-30 | same length; only isPinned changes, becoming true exactly on matching ids |
| Chats.UnpinChat | hooks/use-chats.ts:31-35 | same length; only isPinned changes, becoming false exactly on matching ids |
| Chats.ArchiveChat | hooks/use-chats.ts:36-40 | same length; only isArchived changes, becoming true exactly on matching ids |
| Chats.UnarchiveChat | hooks/use-chats.ts:41-45 | same length; only isArchived changes, becoming false exactly on matching ids |
| Chats.RenameChat | hooks/use-chats.ts:46-50 | same length; only the title of matching chats changes, to the given title, with no emptiness check |
| Chats.AddChatPrepends | hooks/use-chats.ts:24 | after addChat the tail is the old list and the ids are the new id followed by the old ids |
| Chats.RemoveAbsent | hooks/use-chats.ts:25 | removing an id no chat has leaves the list unchanged |
| Chats.RemovePreservesOrder | hooks/use-chats.ts:25 | removal distributes over concatenation and keeps a single chat iff its id differs, so survivors keep their relative order |
| Chats.RemoveCounts | hooks/use-chats.ts:25 | every copy of a matching chat is dropped; every other chat keeps its multiplicity |
| Chats.RemoveIdempotent | hooks/use-chats.ts:25 | removing the same id twice equals removing it once |
| Chats.EditPreservesIds | hooks/use-chats.ts:26-50 | every map-based action keeps the sequence of ids |
| Chats.EditIdempotent | hooks/use-chats.ts:26-50 | applying a map-based action twice equals applying it once |
| Chats.FlagActionsIdempotent | hooks/use-chats.ts:26-45 | pin, unpin, archive and unarchive are each idempotent |
| Chats.UnpinAfterPin | hooks/use-chats.ts:26-35 | of pin and unpin on the same id, the later one alone decides the result |
| Chats.PinUnpinRoundTrip | hooks/use-chats.ts:26-35 | pin then unpin restores a list whose matching chats were unpinned |
| Chats.ArchiveUnarchiveRoundTrip | hooks/use-chats.ts:36-45 | archive then unarchive restores a list whose matching chats were unarchived |
| Chats.EditAbsent | hooks/use-chats.ts:26-50 | a map-based action on an absent id changes nothing |
| Chats.DuplicateIdsEditedTogether | hooks/use-chats.ts:24-30 | addChat admits a duplicate id, and a later pin reaches both copies while a remove drops both |
| Models.InitialRegistry | hooks/use-models.ts:14-19 | three seeded models; the selection is "gemini-pro", equal to the first entry, so the invariant holds |
| Models.AddCustomModel | hooks/use-models.ts:20 | appends at the end without a duplicate check and keeps the selection |
| Models.SelectModel | hooks/use-models.ts:21-23 | the list is unchanged; a present id selects a listed model with that id; an absent id keeps the old selection |
| Models.SelectFirstMatch | hooks/use-models.ts:22 | with the id present, the selection is the first model carrying it |
| Models.SelectIdempotent | hooks/use-models.ts:21-23 | selecting the same id twice equals selecting it once |
| Models.ValidPreserved | hooks/use-models.ts:19-23 | if the selection is listed, it stays listed after any add or select |
| Sidebar.InitialSidebar | hooks/use-sidebar.ts:11 | the sidebar starts expanded |
| Sidebar.Toggle | hooks/use-sidebar.ts:12 | toggle negates isCollapsed, the store's only field |
| Sidebar.ToggleTwice | hooks/use-sidebar.ts:12 | toggling twice restores the state |
| Text.TrimSpan | components/chat-input.tsx:54 | trim returns a contiguous piece s[i..j] of the text, and only whitespace was cut away before i and after j |
| Text.TrimEdges | components/chat-input.tsx:54 | non-empty trimmed text neither starts nor ends with whitespace |
| Text.BlankIffAllWhitespace | components/chat-input.tsx:52 | the trimmed text is empty exactly when every character is whitespace |
| Text.TrimIdempotent | components/chat-input.tsx:54 | trimming twice equals trimming once |
| Text.Trim | components/chat-input.tsx:52-54 | definition of `String.prototype.trim`: strip leading and trailing whitespace |
| ChatInput.SendButtonDisabled | components/chat-input.tsx:149 | the send button is disabled exactly when the text is all whitespace or a reply is streaming |
| ChatInput.TextareaDisabled | components/chat-input.tsx:113 | definition of the textarea's `disabled`: set while a reply is streaming |
| ChatInput.StreamingLocksInput | components/chat-input.tsx:113 | while streaming, both the textarea and the send button are disabled |
| ChatInput.SubmitBlocked | components/chat-input.tsx:52 | definition of the submit guard `!content.trim() \|\| isStreaming` |
| ChatInput.KeySubmits | components/chat-input.tsx:62 | definition of the key test `e.key === 'Enter' && !e.shiftKey` |
| ChatInput.InputBox.constructor | components/chat-input.tsx:32 | the input starts empty |
| ChatInput.InputBox.HandleChange | components/chat-input.tsx:44-49 | the typed value becomes the content |
| ChatInput.InputBox.BeginSubmit | components/chat-input.tsx:51-54 | nothing is submitted exactly when the send button is disabled; otherwise the trimmed, non-blank text is passed on |
| ChatInput.InputBox.CompleteSubmit | components/chat-input.tsx:55-58 | after onSubmit resolves the content is cleared |
| ChatInput.InputBox.HandleKeyDown | components/chat-input.tsx:61-66 | Enter without Shift prevents the default and submits as the button would; any other key does neither |
| Page.InitialGlow | app/page.tsx:37-42 | the glow store starts disabled, colour #FF4500, no gradient, brightness 1, speed 3, radius 20 |
| Page.UpdateSettings | app/page.tsx:43 | each field given in the partial is overwritten, each field not given is kept |
| Page.UpdateEmptyAndIdempotent | app/page.tsx:43 | an empty partial changes nothing; repeating an update changes nothing more |
| Page.UpdateCompose | app/page.tsx:43 | two updates equal one update with the merged partial, later keys winning |
| Page.PinnedGroup | app/page.tsx:238 | a chat is in the pinned group exactly when it is listed and pinned |
| Page.ArchivedGroup | app/page.tsx:288 | a chat is in the archived group exactly when it is listed and archived |
| Page.PinnedSectionShown | app/page.tsx:232 | definition of when the Pinned section renders: `chats.some(chat => chat.isPinned)` |
| Page.ArchivedSectionShown | app/page.tsx:282 | definition of when the Archived section renders: `chats.some(chat => chat.isArchived)` |
| Page.Unflagged | app/page.tsx:258 | the candidates for recent are exactly the listed chats neither pinned nor archived |
| Page.RecentGroup | app/page.tsx:258 | the recent group is the first min(visible, count) unflagged chats, in list order |
| Page.LoadMore | app/page.tsx:74-76 | the new window is the smaller of visible + 20 and the number of chats |
| Page.LoadMoreShown | app/page.tsx:268 | definition of the button's condition: more unflagged chats than the window shows |
| Page.SectionsShownIffNonEmpty | app/page.tsx:232-288 | the Pinned and Archived sections are rendered exactly when their groups are non-empty |
| Page.LoadMoreGrows | app/page.tsx:268-272 | when Load more is shown, pressing it strictly enlarges the window within the chat count, and the shown recent group extends to min(visible + 20, unflagged count) |
| Page.GroupsOverlap | app/page.tsx:238-288 | the recent group shares no chat with the pinned or archived group; a pinned and archived chat is in both of those |
| Page.PinMovesToPinned | app/page.tsx:238-258 | after pinning, the chat is in the pinned group and no chat with its id is in the recent group |
| Page.UnpinReturnsToRecent | app/page.tsx:238-258 | after unpinning an unarchived chat it is a recent candidate and not in the pinned group |
| Page.ArchiveKeepsPinned | app/page.tsx:238-288 | archiving a pinned chat leaves it in the pinned group and adds it to the archived group |
| Page.NewChat | app/page.tsx:208-212 | the button prepends an unflagged chat titled "New Chat" with the given id and time, before the old list |
| Page.NewChatHeadsRecent | app/page.tsx:208-258 | the new chat heads the recent group whenever that group shows at least one chat |
| Page.Split | app/page.tsx:125 | split gives at least one piece and no piece contains a space |
| Page.JoinSplit | app/page.tsx:125-132 | joining the split words with single spaces gives back the reply |
| Page.SplitJoin | app/page.tsx:125-132 | splitting a join of space-free words gives back the words |
| Page.Join | app/page.tsx:132 | definition of `join(' ')`: the words separated by single spaces |
| Page.Revealed | app/page.tsx:132 | definition of the text after step `i`: `words.slice(0, i + 1).join(' ')` |
| Page.StreamingPrefixes | app/page.tsx:126-132 | each streaming step appends a space and the next word, so the shown text grows strictly and is a prefix of the next |
| Page.RevealedPrefixOfReply | app/page.tsx:125-132 | every shown text is a prefix of the reply and the last one is the reply |
| Page.RevealStep | app/page.tsx:128-135 | a step gives the last message, when it is the assistant's, the first i+1 words; earlier messages and other fields are untouched; otherwise nothing changes |
| Page.ChatSession.constructor | app/page.tsx:58-62 | the page starts with no messages, not streaming, six recent chats visible |
| Page.ChatSession.LoadMoreChats | app/page.tsx:74-76 | the window becomes LoadMore of the old window and the chat count; nothing else changes |
| Page.ChatSession.SimulateStreamingResponse | app/page.tsx:78-139 | exactly two messages are appended, the user's prompt then the assistant's message holding the whole reply; the assistant message is first shown empty with streaming on, then every step ran while streaming and showed the next word prefix; streaming is off at the end; the chat window is untouched |
| Page.ChatSession.SubmitFromInput | app/page.tsx:141-143 | a blocked submit changes nothing (messages, flag, trace, input); otherwise the trimmed text and the reply are appended with the same empty-then-word-by-word trace, streaming ends, the input is cleared; the chat window never changes |
| ChatListItem.RenameRequest | components/chat-list-item.tsx:30-35 | a rename is dispatched exactly when the draft is not all whitespace, with the draft untrimmed |
| ChatListItem.PinMenuToggles | components/chat-list-item.tsx:90 | the Pin item gives every chat with this id the opposite of the shown isPinned and leaves other chats alone |
| ChatListItem.ArchiveMenuToggles | components/chat-list-item.tsx:98 | the Archive item gives every chat with this id the opposite of the shown isArchived and leaves other chats alone |
| ChatListItem.DeleteMenuRemoves | components/chat-list-item.tsx:102 | Delete keeps exactly the chats whose id differs from the item's |
| ChatListItem.RenameStoresDraft | components/chat-list-item.tsx:31-33 | an accepted rename stores the draft as typed on every chat with this id |
| ChatListItem.MenuOffered | components/chat-list-item.tsx:75 | definition of when the menu is rendered: sidebar expanded and not renaming |
| ChatListItem.PinMenuAction | components/chat-list-item.tsx:90 | definition of the Pin item's action: unpin when pinned, pin otherwise |
| ChatListItem.ArchiveMenuAction | components/chat-list-item.tsx:98 | definition of the Archive item's action: unarchive when archived, archive otherwise |
| ChatListItem.DeleteMenuAction | components/chat-list-item.tsx:102 | definition of the Delete item's action: `removeChat(id)` |
| ChatListItem.ListItem.constructor | components/chat-list-item.tsx:25-26 | an item mounts not renaming, with the draft equal to the title |
| ChatListItem.ListItem.ReceiveProps | components/chat-list-item.tsx:24 | a re-render updates the props and keeps the rename state and draft |
| ChatListItem.ListItem.EditDraft | components/chat-list-item.tsx:64 | typing sets the draft |
| ChatListItem.ListItem.HandleRename | components/chat-list-item.tsx:30-35 | a blank draft dispatches nothing and stays in rename mode; otherwise the draft is dispatched and rename mode ends |
| ChatListItem.ListItem.StartRenaming | components/chat-list-item.tsx:37-39 | rename mode starts with the draft reset to the current title, and the menu is then not offered |
| ChatListItem.ListItem.PickMenuItem | components/chat-list-item.tsx:75-107 | with the menu offered, Pin/Archive/Delete dispatch their actions and Rename starts renaming; with the menu hidden (collapsed or renaming) nothing happens |
| ChatContainer.Settle | components/chat-container.tsx:42-47 | at the bottom the flag becomes false; otherwise scrolling up sets it; otherwise it is unchanged |
| ChatContainer.InitialScroll | components/chat-container.tsx:15-18 | definition of the mounted state: button hidden, flag false, last position 0, no timer |
| ChatContainer.AutoScrolls | components/chat-container.tsx:22 | definition of the auto-scroll effect's condition: `!userHasScrolled && containerRef.current` |
| ChatContainer.OnScrollStep | components/chat-container.tsx:28-52 | a scroll event overwrites the pending classification with its own, records scrollTop, shows the button exactly when not at the bottom, and leaves the flag alone |
| ChatContainer.TimerFiresStep | components/chat-container.tsx:41-48 | the timer settles the flag by the pending classification, empties the slot and touches nothing else |
| ChatContainer.ScrollToBottomStep | components/chat-container.tsx:54-64 | scrollToBottom hides the button and clears the flag |
| ChatContainer.IsAtBottom | components/chat-container.tsx:32 | definition of at-the-bottom: `Math.abs(scrollHeight - scrollTop - clientHeight) < 10` |
| ChatContainer.Classify | components/chat-container.tsx:32-33 | definition of an event's classification: moved up relative to the last position, and at the bottom |
| ChatContainer.BurstKeepsLast | components/chat-container.tsx:35-51 | after a burst of scroll events only the last one's classification is pending, taken against the position recorded before it |
| ChatContainer.DebounceSettlesLast | components/chat-container.tsx:35-51 | when the timer fires after a burst, the flag is settled by the last event alone |
| ChatContainer.ArrivingAtBottomWins | components/chat-container.tsx:42-47 | a burst ending at the bottom leaves the flag false once the timer fires, so auto-scroll resumes |
| ChatContainer.ScrollingUpStopsFollowing | components/chat-container.tsx:42-47 | a burst ending off the bottom after moving up sets the flag, so the container's own auto-scroll effect stops |
| ChatContainer.ShowsIndicator | components/chat-container.tsx:77 | definition of a message's `isStreaming` prop: streaming and its id is the last message's id |
| ChatContainer.IndicatorOnLast | components/chat-container.tsx:77 | while streaming the last message shows the indicator, with distinct ids only it does, and none does when not streaming |
| ChatContainer.ScrollCoordinator.constructor | components/chat-container.tsx:15-18 | the coordinator starts with the button hidden, no scroll, position 0 and no timer |
| ChatContainer.ScrollCoordinator.OnScroll | components/chat-container.tsx:28-52 | onScroll performs the scroll-event step, or nothing without a container |
| ChatContainer.ScrollCoordinator.TimerFires | components/chat-container.tsx:41-48 | the timeout callback performs the timer step |
| ChatContainer.ScrollCoordinator.ScrollToBottom | components/chat-container.tsx:54-64 | scrollToBottom performs its step, or nothing without a container |
| ChatContainer.ScrollCoordinator.AutoScrollEffect | components/chat-container.tsx:21-25 | the effect scrolls to the bottom exactly when the user has not scrolled away and the container exists |

## Left out

- hooks/use-location.ts is not part of this model. It is a network fetch of a geolocation service.
- tailwind.config.js is not part of this model. It holds styling only.
- components/settings-menu.tsx is not part of this model. It forwards one-key partials to `updateSettings`, which is modelled.
- components/model-selector.tsx is not part of this model: it renders the list and only calls `selectModel`.
- components/chat-message.tsx is not part of this model. Besides rendering a message, its effect (chat-message.tsx:13-17) calls `scrollIntoView` on the streaming message whenever its content changes, whatever `userHasScrolled` says. So the stop-following properties (`ScrollingUpStopsFollowing`, `AutoScrollEffect`) describe only ChatContainer's own effect (chat-container.tsx:21-25), not what the whole page does while a reply streams.
- `getGreeting`, `cn` (from lib/utils) and the 60-second greeting interval are left out. lib/utils is not part of this model.
- Time is not modelled as durations. The 30 ms per-word delay is one loop iteration, and the 150 ms debounce is the separate `TimerFires` step.
- `Date.now()` ids and timestamps are parameters. Ids may collide, so uniqueness is never assumed.
- The seed chats' timestamps come from four separate `Date.now()` calls. They are modelled from a single `now`.
- The hard-coded reply text is a parameter: every property holds for any reply.
- DOM effects are left out: the textarea autosize (chat-input.tsx:35-49, 56-58), `scrollTo`, focus and select. Scroll geometry is given as integers, and a mounted container as the `hasContainer` flag.
- Chats.Chat: the flags are plain booleans. An absent flag is `false`, which is how every reader in the source treats it.
- Page.GlowSettings: brightness, speed and radius are floats. They are modelled as `real` and are only stored.
- Page.UpdateSettings: a key given explicitly as `undefined` is modelled only for `gradient`. For the other keys, a present key always carries a value.
- Page.ChatSession.SimulateStreamingResponse: other events interleaving during the `await`s are not modelled; the stream runs as one sequential method. The in-place assignment to the shared message object (page.tsx:132) is modelled as replacing the last message by value.
- ChatContainer.ScrollCoordinator.ScrollToBottom: the scroll events that `scrollTo` itself causes in a browser are not modelled. Callers feed them through `OnScroll`.
