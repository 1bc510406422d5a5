# konva-nexus core, modelled in Dafny

konva-nexus is a chat and discovery app written in React and TypeScript. It has a chat list with presence dots and unread badges, stories, a realtime message store on a hosted backend, an anime browser fed by AniList, a mock AI chat, and profile screens. This project models the parts of it that carry logic and proves what those parts promise:

- **Anime card.** `AnimeCard` turns a media record into what the card shows:
  - the title fallback chain;
  - the description cleanup, with the two global regular-expression replaces written as left-to-right scanners;
  - shortening to 140 characters plus `…`;
  - the first three genres;
  - the score badge;
  - the detail and watch routes.
- **Chat store.** `ChatStore` models the message store:
  - a `Store` class whose list is replaced by a load, left alone on a load error, and appended to by every realtime event;
  - the backend's answer to the load query, written as a pure filter-and-sort over a table of rows.
- **Mock AI chat.** `AIInterface` is the mock chat as a class over the message list, the input box and the loading flag. Its steps are send, the timer firing, topic clicks, typing and key presses. Its invariant says:
  - questions and answers alternate;
  - each answer quotes the question before it.
- **Chat rows and layout.** `ChatItem` and `ChatLayout` cover:
  - the status colour mapping;
  - the visibility of the status dot, group icon, unread badge and stories sidebar;
  - the three tabs and their navigation.
- **Profile screens.** `AccountSettings` and `ProfilePage` are the two profile editors, each an `isEditing` flag plus a record edited one field at a time.
- **Shared helpers.** `Text` holds JavaScript's white space, `trim`, upper-casing and the two-letter avatar fallback. `Decimal` holds integer printing and its inverse.

Clock readings, backend replies, realtime events, the firing of the mock chat's timer and the user's input are all inputs to the model's methods.

## Model

| member | source | states |
|---|---|---|
| AnimeCard.FirstTruthy | src/components/anime/AnimeCard.tsx:11-12 | an `a \|\| b \|\| … \|\| fallback` chain over optional strings is never empty when its fallback is not |
| AnimeCard.FallbackWhenNoneTruthy | src/components/anime/AnimeCard.tsx:11-12 | when no candidate is truthy the chain yields the fallback |
| AnimeCard.FirstTruthyWins | src/components/anime/AnimeCard.tsx:11-12 | the chain yields the first truthy candidate |
| AnimeCard.Title | src/components/anime/AnimeCard.tsx:11-12 | the title is never empty |
| AnimeCard.TitleFallbackChain | src/components/anime/AnimeCard.tsx:11-12 | the title is `english` if truthy, else `romaji`, else `native`, else "Untitled"; empty strings fall through |
| AnimeCard.BreakMatch | src/components/anime/AnimeCard.tsx:14 | a match of `<br\s*\/?>` at the start of a text is at least 4 characters long and lies within it |
| AnimeCard.BreakMatchIff | src/components/anime/AnimeCard.tsx:14 | the scanner matches exactly the prefixes that are `<br`, white space, an optional `/`, then `>` (lower case only) |
| AnimeCard.ReplaceBreaks | src/components/anime/AnimeCard.tsx:14 | the break pass never lengthens the text |
| AnimeCard.ReplaceBreaksPlainPrefix | src/components/anime/AnimeCard.tsx:14 | text before the first `<` passes through the break pass unchanged |
| AnimeCard.ReplaceBreaksSplit | src/components/anime/AnimeCard.tsx:14 | cutting a text just before a `<` and running the break pass on each piece gives the same result, since no break contains a `<` after its first character |
| AnimeCard.BreakBecomesOneSpace | src/components/anime/AnimeCard.tsx:14 | each lower-case `<br>`, `<br/>` or `<br />` becomes exactly one space, wherever it stands and whatever comes before it |
| AnimeCard.UpperBreakNotSpaced | src/components/anime/AnimeCard.tsx:14 | an upper-case `<BR>` is left alone by the break pass wherever it stands, because the pattern is case-sensitive |
| AnimeCard.ReplaceBreaksShrinks | src/components/anime/AnimeCard.tsx:14 | a text containing a break gets strictly shorter |
| AnimeCard.ReplaceBreaksIdentityIff | src/components/anime/AnimeCard.tsx:14 | the break pass changes a text exactly when a break occurs somewhere in it |
| AnimeCard.TagMatch | src/components/anime/AnimeCard.tsx:15 | a match of `<[^>]+>` at the start of a text is at least 3 characters long and lies within it |
| AnimeCard.TagMatchIff | src/components/anime/AnimeCard.tsx:15 | the scanner matches exactly the prefixes that are `<`, one or more non-`>` characters, then `>` |
| AnimeCard.StripTags | src/components/anime/AnimeCard.tsx:15 | the tag pass only deletes characters: the result is no longer and its characters are a sub-multiset |
| AnimeCard.StripTagsLeavesNoTag | src/components/anime/AnimeCard.tsx:15 | after the tag pass no substring is `<`, one or more non-`>` characters, then `>` |
| AnimeCard.StripTagsPlainPrefix | src/components/anime/AnimeCard.tsx:15 | text before the first `<` passes through the tag pass unchanged |
| AnimeCard.TagRemoved | src/components/anime/AnimeCard.tsx:15 | a tag after plain text is removed and nothing else is |
| AnimeCard.StripTagsIdentityWithoutTag | src/components/anime/AnimeCard.tsx:15 | a tag-free text is unchanged by the tag pass |
| AnimeCard.StripTagsFixpoints | src/components/anime/AnimeCard.tsx:15 | the tag pass changes a text exactly when it contains a tag, and applying it twice is applying it once |
| AnimeCard.StripTagsSplit | src/components/anime/AnimeCard.tsx:15 | the tag pass works piece by piece on a text whose tail has no `>`, since no tag can end in that tail |
| AnimeCard.LoneOpenSurvives | src/components/anime/AnimeCard.tsx:15 | a `<` with no `>` anywhere after it survives, together with everything after it, whatever comes before it |
| AnimeCard.EmptyBracketsSurvive | src/components/anime/AnimeCard.tsx:15 | `<>` survives, since the pattern needs at least one character between the brackets |
| AnimeCard.CleanDescription | src/components/anime/AnimeCard.tsx:13-15 | a null or missing description yields "", and the cleaned text contains no tag |
| AnimeCard.LowerBreakBecomesSpace | src/components/anime/AnimeCard.tsx:13-15 | after both passes, a lower-case break between plain texts leaves exactly one space |
| AnimeCard.UpperBreakJoinsTexts | src/components/anime/AnimeCard.tsx:13-15 | after both passes, an upper-case `<BR>` is removed and joins the texts without a space |
| AnimeCard.Shorten | src/components/anime/AnimeCard.tsx:16 | a text of at most 140 characters is kept as is; a longer one becomes its first 140 characters plus `…`, so the result has at most 141 |
| AnimeCard.ShortenIdempotent | src/components/anime/AnimeCard.tsx:16 | shortening a shortened text changes nothing |
| AnimeCard.ShortenKeepsNoTag | src/components/anime/AnimeCard.tsx:16 | shortening a tag-free text cannot create a tag |
| AnimeCard.Blurb | src/components/anime/AnimeCard.tsx:13-16 | the shown text is "" for a missing description, has at most 141 characters and contains no tag |
| AnimeCard.ShownGenres | src/components/anime/AnimeCard.tsx:50-52 | at most the first three genres are shown, in their original order; null genres show none |
| AnimeCard.ScoreBadge | src/components/anime/AnimeCard.tsx:39-41 | the badge is shown exactly when the score is present and non-zero; its text is the score, read back exactly, followed by `%` |
| AnimeCard.DetailPath | src/components/anime/AnimeCard.tsx:65 | the cover and Details link is `/anime/` followed by a decimal text that reads back as the id |
| AnimeCard.WatchPath | src/components/anime/AnimeCard.tsx:60 | the Watch link is the Details link followed by `?autoPlay=1` |
| AnimeCard.LinksRoundTrip | src/components/anime/AnimeCard.tsx:21-65 | the detail link reads back as this anime without playback, and the watch link as this anime with `?autoPlay=1` |
| AnimeCard.Card | src/components/anime/AnimeCard.tsx:11-65 | everything a card shows: the title is non-empty, the text is at most 141 characters with no tag, at most 3 genres are shown, the badge rule holds, and both links lead to the card's own anime |
| Text.Trim | src/pages/DiscoveryTabs/AIInterface.tsx:38 | `trim()` never lengthens a text, and what it returns neither starts nor ends with white space |
| Text.TrimEmptyIffBlank | src/pages/DiscoveryTabs/AIInterface.tsx:38 | `s.trim()` is empty exactly when `s` is white space only |
| Text.TrimIsInnerSlice | src/pages/DiscoveryTabs/AIInterface.tsx:38 | trimming keeps one contiguous piece of the text and removes only white space around it |
| Text.Initials | src/components/ChatItem.tsx:46 | the avatar fallback is the first two characters (fewer for a shorter name), each upper-cased |
| Text.InitialsIdempotent | src/components/ChatItem.tsx:46 | the fallback of a fallback is the fallback |
| Decimal.IntToStringRoundTrip | src/pages/DiscoveryTabs/AIInterface.tsx:41 | printing an integer in decimal with a leading minus sign for negatives, as JavaScript does below 2^53, and reading it back gives the integer |
| Decimal.IntToStringInjective | src/pages/DiscoveryTabs/AIInterface.tsx:41 | distinct clock readings print as distinct ids |
| ChatStore.Store.constructor | src/store/chatStore.ts:20 | the store starts with no messages |
| ChatStore.LoadQuery | src/store/chatStore.ts:24-32 | the query is for the given chat, with a cutoff exactly seven days before the load started |
| ChatStore.Select | src/store/chatStore.ts:30-31 | the selected rows are those that match the chat and the cutoff, each as often as the table holds it |
| ChatStore.InsertByTime | src/store/chatStore.ts:32 | inserting into an ascending list keeps it ascending and adds exactly that row |
| ChatStore.SortByTime | src/store/chatStore.ts:32 | the result is ascending by creation time and a permutation of its input |
| ChatStore.LoadSelectsLastSevenDays | src/store/chatStore.ts:24-32 | a load returns exactly the chat's rows from the last seven days, each as often as the table holds it, earliest first |
| ChatStore.LoadedRowsMatch | src/store/chatStore.ts:30-31 | every loaded row belongs to the chat and is inside the window |
| ChatStore.Respond | src/store/chatStore.ts:27-32 | a failed call yields its error; a successful one yields the query's rows |
| ChatStore.Store.CompleteLoad | src/store/chatStore.ts:34-39 | an error leaves the list unchanged; otherwise the list becomes the returned rows, or `[]` when the rows are null |
| ChatStore.Store.LoadMessages | src/store/chatStore.ts:22-40 | an uninterrupted load either leaves the list alone (error) or replaces it with the query's rows: ascending by creation time and holding exactly the chat's rows from the last seven days, each as often as the table does |
| ChatStore.Store.OnChange | src/store/chatStore.ts:47-52 | every event, of any kind, appends its record at the end, which is one step of `Replay` |
| ChatStore.ReplayAppendsOnly | src/store/chatStore.ts:49-51 | between loads the old list is a prefix of the new one and there is exactly one new entry per event, that event's record; nothing is removed, replaced or de-duplicated |
| ChatStore.ReplayStep | src/store/chatStore.ts:49-51 | handling one more event extends the list by that event's record |
| ChatStore.EventsAroundLoad | src/store/chatStore.ts:39 | an event that arrives while a load awaits its reply is overwritten by the reply; one after the load stays |
| AIInterface.ReplyText | src/pages/DiscoveryTabs/AIInterface.tsx:55 | the simulated answer is the fixed head, the question verbatim, then the fixed tail |
| AIInterface.QuotedQuestion | src/pages/DiscoveryTabs/AIInterface.tsx:55 | reading the question back from an answer gives a text whose length is the answer's minus head and tail |
| AIInterface.ReplyQuotesQuestion | src/pages/DiscoveryTabs/AIInterface.tsx:55 | the question can be read back exactly from its answer |
| AIInterface.ReplyTextInjective | src/pages/DiscoveryTabs/AIInterface.tsx:55 | different questions get different answers |
| AIInterface.SendBlocked | src/pages/DiscoveryTabs/AIInterface.tsx:38 | send returns early, and the send button is disabled (line 148), exactly when loading or the input is white space only |
| AIInterface.SendsOnKey | src/pages/DiscoveryTabs/AIInterface.tsx:69 | only Enter can send, Shift+Enter never sends, and Enter without Shift always does |
| AIInterface.AnswersQuoteQuestions | src/pages/DiscoveryTabs/AIInterface.tsx:52-59 | in every reachable list each answer after the greeting quotes the user message just before it |
| AIInterface.AIChat.constructor | src/pages/DiscoveryTabs/AIInterface.tsx:17-26 | the chat starts with the greeting alone, an empty input and not loading |
| AIInterface.AIChat.SendMessage | src/pages/DiscoveryTabs/AIInterface.tsx:37-49 | a blocked send changes nothing; otherwise exactly one user message with the untrimmed input is appended, the input is cleared, loading starts and the answer is armed with that input |
| AIInterface.AIChat.FireReply | src/pages/DiscoveryTabs/AIInterface.tsx:52-61 | the timer appends exactly one non-user message quoting the text captured at send time and ends loading, leaving the input alone |
| AIInterface.AIChat.HandleTopicClick | src/pages/DiscoveryTabs/AIInterface.tsx:64-66 | a topic click sets the input to the topic and changes nothing else |
| AIInterface.AIChat.HandleInputChange | src/pages/DiscoveryTabs/AIInterface.tsx:140 | typing stores the new input and changes nothing else |
| AIInterface.AIChat.HandleKeyPress | src/pages/DiscoveryTabs/AIInterface.tsx:68-73 | Enter without Shift behaves as send; every other key, Shift+Enter included, changes nothing |
| AIInterface.SuggestionNotBlank | src/pages/DiscoveryTabs/AIInterface.tsx:169-212 | no topic card or quick command text is white space only, so sending one is never blocked by the trim check |
| AIInterface.AskTopic | src/pages/DiscoveryTabs/AIInterface.tsx:169-212 | clicking a trending topic or a quick command, sending it and letting the timer fire shows the greeting, the clicked text and the answer quoting it |
| ChatItem.StatusColor | src/components/ChatItem.tsx:28-35 | online, idle and stealth each get their own class, and everything else, missing status included, gets the offline class; the result is always one of the four |
| ChatItem.Render | src/components/ChatItem.tsx:44-67 | the avatar image is the `avatar` prop; the status dot shows exactly for a non-group chat with a status, the group icon exactly for groups, the badge exactly for a positive unread count |
| ChatItem.DotAndGroupIconExclusive | src/components/ChatItem.tsx:49-60 | a row never shows both the dot and the group icon, and an offline-coloured dot means a status other than online, idle and stealth |
| ChatLayout.StatusColor | src/components/ChatLayout.tsx:73-80 | the copy always yields one of the four classes |
| ChatLayout.StatusColorsAgree | src/components/ChatLayout.tsx:73-80 | the copy maps every status exactly as ChatItem's does |
| ChatLayout.RingClass | src/components/ChatLayout.tsx:146 | a story's ring is the viewed class exactly when it has been viewed |
| ChatLayout.RenderStory | src/components/ChatLayout.tsx:146-155 | a story shows its ring, its two-letter fallback and its name |
| ChatLayout.StoryViewIgnoresIdAndAvatar | src/components/ChatLayout.tsx:146 | a story's look depends only on its viewed flag and its name |
| ChatLayout.ChatRow | src/components/ChatLayout.tsx:172-195 | an inline row shows no avatar image, and shows the dot for a non-group chat with a status, the group icon for groups, the badge for a positive unread count |
| ChatLayout.ChatRowMatchesChatItem | src/components/ChatLayout.tsx:166-201 | an inline chat row shows the same fallback, status dot, group icon, badge and texts as ChatItem for the same chat; ChatItem also shows the chat's avatar image, the inline row shows none |
| ChatLayout.RenderTabContent | src/components/ChatLayout.tsx:82-233 | one panel per tab; the chat panel has the stories sidebar exactly when there are stories, and one row per chat in order, equal to ChatItem's row without the image |
| ChatLayout.TabsRenderDistinctPanels | src/components/ChatLayout.tsx:83-232 | different tabs render different panels |
| ChatLayout.NavVariant | src/components/ChatLayout.tsx:245 | a navigation button is highlighted exactly when its tab is active |
| ChatLayout.ExactlyOneDefaultButton | src/components/ChatLayout.tsx:244-272 | whatever the active tab, exactly one navigation button is highlighted, the active tab's |
| ChatLayout.Layout.constructor | src/components/ChatLayout.tsx:31 | the layout opens on the chat tab |
| ChatLayout.Layout.SelectTab | src/components/ChatLayout.tsx:247 | a navigation click makes its tab active |
| ChatLayout.Layout.Content | src/components/ChatLayout.tsx:239 | the chat panel is shown exactly while the chat tab is active |
| ChatLayout.MockChatPanel | src/components/ChatLayout.tsx:34-71 | with the mock data the sidebar shows; Alex Chen has the online dot and badge 2, Design Team the group icon and no dot, Jordan Smith the idle dot and no badge |
| AccountSettings.Put | src/pages/ProfileTabs/AccountSettings.tsx:73-115 | an update replaces only the named field; all other fields are unchanged |
| AccountSettings.PutLaws | src/pages/ProfileTabs/AccountSettings.tsx:73-115 | writing back a field's own value changes nothing, and a later write to a field replaces an earlier one |
| AccountSettings.PutCommutes | src/pages/ProfileTabs/AccountSettings.tsx:73-115 | updates to different fields commute |
| AccountSettings.AvatarFallback | src/pages/ProfileTabs/AccountSettings.tsx:45 | the fallback is exactly the nickname's first two characters (all of a shorter nickname), upper-cased |
| AccountSettings.FallbackFollowsNickname | src/pages/ProfileTabs/AccountSettings.tsx:45 | only a nickname edit can change the fallback |
| AccountSettings.SettingsForm.constructor | src/pages/ProfileTabs/AccountSettings.tsx:12-19 | the form starts not editing, with the mock profile |
| AccountSettings.SettingsForm.Edit | src/pages/ProfileTabs/AccountSettings.tsx:136 | Edit enters edit mode and changes nothing else |
| AccountSettings.SettingsForm.Save | src/pages/ProfileTabs/AccountSettings.tsx:21-27 | Save leaves edit mode, keeps the field values and adds the "Profile Updated" toast |
| AccountSettings.SettingsForm.Cancel | src/pages/ProfileTabs/AccountSettings.tsx:131 | Cancel leaves edit mode and restores nothing |
| AccountSettings.SettingsForm.ChangeField | src/pages/ProfileTabs/AccountSettings.tsx:73-116 | a field changes only in edit mode, and then only that field changes |
| AccountSettings.EditThenCancel | src/pages/ProfileTabs/AccountSettings.tsx:131 | an edit followed by Cancel is kept, the form leaves edit mode and no toast is shown |
| AccountSettings.ChangeWithoutEdit | src/pages/ProfileTabs/AccountSettings.tsx:74 | without edit mode no field can be changed |
| ProfilePage.Put | src/pages/Profile.tsx:59-69 | an update replaces only the named field, and never the email, join date or picture |
| ProfilePage.PutLaws | src/pages/Profile.tsx:59-69 | writing back a field's own value changes nothing, and a later write to a field replaces an earlier one |
| ProfilePage.EditInputs | src/pages/Profile.tsx:55-73 | the nickname, username and status inputs are shown exactly while editing |
| ProfilePage.HeaderLabel | src/pages/Profile.tsx:93 | the header button reads "Save" exactly while editing and "Edit Profile" exactly while not |
| ProfilePage.SaveLabelWithInputs | src/pages/Profile.tsx:55-93 | the button reads "Save" exactly when the three edit inputs are on screen, and "Edit Profile" exactly when none is |
| ProfilePage.AvatarFallback | src/pages/Profile.tsx:42 | the fallback is exactly the nickname's first two characters (all of a shorter nickname), upper-cased |
| ProfilePage.ProfileScreen.constructor | src/pages/Profile.tsx:14-26 | the page starts not editing, dark mode off, online status shown, with the mock profile |
| ProfilePage.ProfileScreen.ProfileUpdate | src/pages/Profile.tsx:28-31 | saving only leaves edit mode |
| ProfilePage.ProfileScreen.HeaderButton | src/pages/Profile.tsx:87-93 | pressing the button labelled "Save" leaves edit mode and pressing "Edit Profile" enters it; nothing else changes |
| ProfilePage.ProfileScreen.ChangeField | src/pages/Profile.tsx:55-73 | a field changes exactly when its input is on screen, that is while editing, and then only that field changes; email and join date never change |
| ProfilePage.ProfileScreen.SetDarkMode | src/pages/Profile.tsx:157-160 | the switch sets dark mode to its value and touches nothing else |
| ProfilePage.ProfileScreen.SetShowOnlineStatus | src/pages/Profile.tsx:208-211 | the switch sets online-status visibility to its value and touches nothing else |
| ProfilePage.EditAndSave | src/pages/Profile.tsx:28-94 | edit, type and save keeps the typed value and leaves email and join date as they were |
| ProfilePage.TypeWithoutEdit | src/pages/Profile.tsx:55 | outside edit mode nothing can be typed, so the profile stays as it was |

## Left out

- The backend and network are not modelled. `loadMessages` is split into the query it sends (`LoadQuery`) and the handling of the reply (`CompleteLoad`), and the backend's answer is a function of a table of rows. Channel setup and subscription are not modelled. The `console.error` log of a failed load is not modelled.
- Clocks and ids are parameters: `Date.now()`, `new Date()` and the moment of the load. The seven-day cutoff is the load instant minus seven times 86,400,000 ms. `setDate` works on the local calendar and can differ by an hour across a daylight-saving change; that is not modelled. Timestamps are integers, not ISO strings.
- ChatStore.SortByTime: rows with equal `created_at` keep their table order. The backend promises no tie order, so the model fixes one. The contracts that say the list equals `Run(...)` (`Store.LoadMessages`, `EventsAroundLoad`) depend on that fixed tie order. The order-independent facts are that the list is ascending and holds exactly the window's rows (`LoadSelectsLastSevenDays`, and the matching clauses of `Store.LoadMessages`).
- ChatStore.Store.OnChange: for a delete event, `payload.new` is an empty record, not a message. The model treats every event's record as a message.
- AIInterface.AIChat.SendMessage is modelled with the state it reads taken fresh at each step. In the component, the handler reads `message` and `loading` from the render that created it. Two sends before a re-render could both pass the guard. That stale-closure race is not modelled, and neither is the one-second delay.
- AIInterface.AIChat.SendMessage and AIInterface.AIChat.FireReply take one clock reading each and use it for both the id and the timestamp. The component reads `Date.now()` and `new Date()` separately, so the two can differ by a millisecond; that difference is not modelled.
- AIInterface.AIChat.FireReply is an explicit step. It may happen only while an answer is pending.
- Characters are Unicode scalar values, not UTF-16 code units. `slice(0, 140)` and `slice(0, 2)` can split a surrogate pair in JavaScript; they cannot here.
- Text.Initials: `toUpperCase` is modelled for ASCII letters only. Other characters are kept as they are, and JavaScript's expansions such as `ß` to `SS` are not modelled. The facts that rest on one character upper-casing to one character hold only for such characters: the length bounds of `ChatItem.Render` (`|fallback| <= 2`), `AccountSettings.AvatarFallback` and `ProfilePage.AvatarFallback`, and the idempotence in `Text.InitialsIdempotent`. In JavaScript `"ßa".slice(0, 2).toUpperCase()` is `"SSA"`, three characters long and not its own fallback.
- Decimal.IntToString: numbers are modelled as unbounded integers. JavaScript prints a magnitude of 1e21 or more in exponent form (`"1e+21"`), and integers beyond 2^53 are not exact. The ids, scores and clock readings here stay far below 2^53, so the model assumes integers below 2^53.
- AnimeCard.ScoreBadge: the score is an integer. A NaN or fractional score is not modelled.
- Rendering is reduced to the values a component shows. The following are not modelled:
  - markup and styling beyond the class names above;
  - images, beyond whether a row is given an image source;
  - icons;
  - toasts' visual form;
  - the Danger Zone, notification and chat-settings cards;
  - buttons without handlers.
- Not part of this model:
  - the auth store;
  - the AniList and anime API clients and the backend client setup;
  - routing and the remaining pages (App, Index, Discovery, AnimeHub, AnimeDetails, MangaHub);
  - AnimeGrid, AnimePlayer, StoryRing and ChatInterface.
