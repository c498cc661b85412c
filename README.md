# WhatsApp Guild Manager: state model

The WhatsApp Guild Manager is a single-page dashboard. It shows a chat with a simulated
"Guild Agent", the members of a group, and a log of agent actions. The component
`WhatsAppGuildManager` in `app/page.tsx` keeps all of this in memory in three lists: chat
messages, members and agent actions. It also keeps the text of the input box. Five things
change that state:

- the 8-second interval tick, which sometimes logs a random action and keeps at most ten;
- `handleSendMessage`, which ignores blank input and otherwise appends the user's message;
- the delayed reply that `handleSendMessage` schedules, which appends one of six canned
  replies;
- `handleWarnMember`, which gives one more warning to the members with an id, logs a
  `warning_issued` action and posts a system message;
- typing into the input box.

The page also derives statistics from the members on each render.

This project models that state and those operations in Dafny and proves what they do.

- `jstext.dfy` (module `JsText`) models the two JavaScript string operations the
  component relies on. `String.prototype.trim` decides what counts as blank input.
  `Number.prototype.toString` turns `Date.now()` into record ids.
- `guild.dfy` (module `Guild`) holds the records, the constants (action templates and
  canned replies), and one pure step function per operation. Each step function's contract
  gives the exact new lists. The module also has the statistics, and lemmas over
  arbitrary runs of events.
- `dashboard.dfy` (module `Dashboard`) has the class `GuildManager`. Its fields are the
  component's `useState` cells. Each handler is a method that replaces those fields, and
  its postcondition says the new state is the matching step function applied to the old
  state. The invariant `Valid()` says member ids are unique. The seed has unique ids and no
  operation changes an id.
- `seed.dfy` (module `SeedData`) holds the initial state and concrete scenarios on it.

Random choices are parameters:

- `fires` stands for `Math.random() > 0.7`.
- `pick` stands for `Math.floor(Math.random() * n)`. It is in 0..4 for the five action
  templates and 0..5 for the six replies.

The clock is a parameter `now`, in milliseconds. Ids are `now.toString()`, and the reply
uses `(now + 1).toString()`.

## Model

| member | source | states |
|---|---|---|
| `Guild.Take` | app/page.tsx:96 | `slice(0, n)` keeps the first min(length, n) elements, in order |
| `Guild.TickAction` | app/page.tsx:78-95 | the action a firing tick logs has one of the five template (type, description) pairs, status `success` and the tick's time |
| `Guild.TickStep` | app/page.tsx:77-97 | gate failing: nothing changes. Gate passing: the new action is at index 0, followed by the first min(old length, 9) old entries in their old order, so the log has at most 10 entries. Messages, members and input never change |
| `Guild.TickAfterWarnsIsBounded` | app/page.tsx:148-157 | warns grow the log by one each and are not capped; the next tick that fires brings it back to at most 10 |
| `Dashboard.GuildManager.Tick` | app/page.tsx:74-99 | the interval callback replaces the store's state with `TickStep` of the old state and keeps ids unique |
| `Dashboard.GuildManager.SetInput` | app/page.tsx:327 | typing sets the input box and changes nothing else |
| `JsText.TrimStart` | app/page.tsx:105 | the leading part `trim` removes is blank and the rest is the unchanged suffix, starting with a non-trimmable character when non-empty |
| `JsText.TrimEnd` | app/page.tsx:105 | the trailing part `trim` removes is blank and the rest is the unchanged prefix, ending with a non-trimmable character when non-empty |
| `JsText.Trim` | app/page.tsx:105 | `s.trim()` is no longer than `s` and, when not empty, neither starts nor ends with whitespace or a line terminator |
| `JsText.TrimIsMiddle` | app/page.tsx:105 | `s.trim()` is the contiguous part of `s` between a blank prefix and a blank suffix; with `Trim`'s non-trimmable ends this fixes the result |
| `JsText.TrimEmptyIffBlank` | app/page.tsx:105 | `!s.trim()` holds exactly when every character of `s` is ECMAScript whitespace or a line terminator |
| `Guild.SendStep` | app/page.tsx:104-116 | blank input changes nothing. Otherwise exactly one message is appended, with sender `You`, type `user`, the untrimmed input as content, and id and timestamp from the clock (`UserMessageOf`). Earlier messages are kept, the input is cleared, and members and actions do not change |
| `Dashboard.GuildManager.SendMessage` | app/page.tsx:104-119 | the store moves to `SendStep` of its old state; the reply is scheduled exactly when the input was not blank |
| `Guild.ReplyMessage` | app/page.tsx:120-135 | the reply comes from `Guild Agent`, has type `agent`, and its content is one of the six canned replies; no user text is an input to it |
| `Guild.ReplyStep` | app/page.tsx:119-138 | exactly one message is appended, the reply for `pick`; earlier messages, members, actions and input are unchanged |
| `Dashboard.GuildManager.DeliverReply` | app/page.tsx:119-138 | the timeout callback moves the store to `ReplyStep` of its old state |
| `Guild.TypeSendReply` | app/page.tsx:104-138 | typing a non-blank text, sending and receiving the reply appends exactly the user message then the canned reply and clears the input |
| `JsText.NatToStringRoundTrip` | app/page.tsx:108 | reading back the decimal digits of `Date.now().toString()` gives the clock value |
| `JsText.NatToStringInjective` | app/page.tsx:150 | two clock values give the same id string exactly when they are equal |
| `Guild.FindMember` | app/page.tsx:146 | `find` returns the first member with the id when there is one, and nothing exactly when no member has it |
| `Guild.NameOrUndefined` | app/page.tsx:152 | `member?.name` is the first matching member's name, or `undefined` when no member has the id |
| `Guild.WarnMembers` | app/page.tsx:142-144 | same length and order; exactly the members whose id matches get `warnings + 1`; ids, names, roles and join dates are unchanged; the role is not consulted |
| `Guild.WarnStep` | app/page.tsx:141-168 | members become `WarnMembers`; one `warning_issued`/`success` action goes in front of the whole old log (length + 1, no cut); one `system` message from `System` goes at the end; both are exactly `WarningAction`/`WarningMessage` for `member?.name` looked up before the update and the clock reading; input unchanged |
| `Guild.WarnNamesMember` | app/page.tsx:146-162 | for an id whose first holder is member k, both the logged description and the system message name that member |
| `Guild.WarnUnknownNamesUndefined` | app/page.tsx:141-167 | an unknown id leaves the members unchanged, but still logs an action and posts a message, both naming `undefined` |
| `Guild.WarnUnchangedIffUnknown` | app/page.tsx:142-144 | the member list comes back unchanged exactly when no member has the id |
| `Guild.WarnTotalWarnings` | app/page.tsx:142-173 | a warn raises the total warnings by the number of members that carry the id |
| `Guild.WarnExistingRaisesTotalByOne` | app/page.tsx:142-173 | with unique ids, a warn on an existing id raises the total warnings by exactly 1 |
| `Guild.WarnKnownRaisesTotalByOne` | app/page.tsx:142-173 | with unique ids, a warn on an id that some member carries raises the total warnings by exactly 1 |
| `Guild.WarnActiveNotHigher` | app/page.tsx:142-172 | a warn never raises the active-member count |
| `Guild.WarnFromViewSparesAdmins` | app/page.tsx:376-378 | the view offers the button only for non-admins; with unique ids such a warn leaves every admin unchanged |
| `Dashboard.GuildManager.WarnMember` | app/page.tsx:141-173 | the handler moves the store to `WarnStep` of its old state, looking the name up in the members before the update, and keeps ids unique; when some member has the id, the total warnings rise by exactly 1 |
| `Guild.ActiveCount` | app/page.tsx:172 | the count of members with fewer than 2 warnings is at most the member count, and equals it exactly when every member has fewer than 2 |
| `Guild.TotalWarnings` | app/page.tsx:173 | the sum bounds every member's warnings and is 0 exactly when no member has a warning |
| `Guild.ComputeStats` | app/page.tsx:170-175 | `totalMembers` is the member count and `agentActions` the log length; `activeMembers` is at most `totalMembers`, with equality exactly when no member has 2 or more warnings; `totalWarnings` is 0 exactly when nobody was warned |
| `Guild.StepNeverLowersWarnings` | app/page.tsx:141-168 | no single event lowers a warning count or changes any other member field |
| `Guild.RunNeverLowersWarnings` | app/page.tsx:141-168 | after any sequence of events every member keeps its place, id, name, role and join date, and its warnings never go down |
| `Guild.RunKeepsMessageHistory` | app/page.tsx:115 | after any sequence of events the old messages are still the first ones, unchanged and in order |
| `Guild.RunKeepsIdsUnique` | app/page.tsx:142-144 | unique member ids stay unique after any sequence of events |
| `Dashboard.GuildManager.constructor` | app/page.tsx:36-61 | the store starts with the seed state and an empty input, with unique member ids |
| `SeedData.Seed` | app/page.tsx:36-61 | the initial state: the welcome message from `Guild Agent` at mount time, the five seed members, three `success` actions dated exactly 300000, 180000 and 60000 ms before mount, in that order, and an empty input |
| `SeedData.SeedIdsUnique` | app/page.tsx:46-52 | the five seed members have distinct ids |
| `SeedData.SeedStats` | app/page.tsx:170-175 | on the seed state the statistics are 5 members, 4 active, 3 warnings, 3 actions |
| `SeedData.SeedMembersWarnedAmit` | app/page.tsx:49 | warning id "3" on the seed members takes Amit Patel from 1 to 2 warnings and leaves the others' counts alone |
| `SeedData.SeedWarnAmitPatelCounts` | app/page.tsx:141-175 | after warning Amit Patel the statistics are 5 members, 3 active, 4 warnings |
| `SeedData.SeedWarnAmitPatelRecords` | app/page.tsx:148-167 | warning Amit Patel logs `Warning issued to Amit Patel` at the front and appends the system message naming him |
| `SeedData.SeedWarnAdminIsNotRefused` | app/page.tsx:141-144 | the handler warns the admin Rahul Kumar (id "1") when called with that id: there is no role check |
| `SeedData.SeedWarnUnknownId` | app/page.tsx:141-167 | an unknown id ("9") leaves the seed members unchanged and still adds an action and a message naming `undefined` |
| `SeedData.SeedSendThenReply` | app/page.tsx:104-138 | sending "hello" on the seed and getting the reply leaves three messages: the welcome, "hello" from `You`, and a canned reply |
| `SeedData.SendBlankIsIgnored` | app/page.tsx:105 | on any state whose input is two spaces and a tab, sending changes nothing, and the input is not cleared |

## Behaviour of the handlers worth knowing

These facts about `app/page.tsx` are easy to miss when reading only the view, and the
model keeps them.

- `handleWarnMember` does not check the role. Only the view hides the warn button for
  admins (app/page.tsx:376). `SeedWarnAdminIsNotRefused` shows an admin being warned.
  `WarnFromViewSparesAdmins` states the protection the view gives.
- `handleWarnMember` with an unknown id is not a no-op. The members stay the same, but an
  action and a system message naming `undefined` are still added.
- Only the interval tick cuts the action log. A warn puts its action in front of the
  whole log, so the log can hold more than ten entries until the next tick fires.

## Left out

- Rendering, animation, icons, styling, `scrollToBottom`, and the display-only
  `slice(0, 8)` of the action list are presentation and hold no state.
- `app/layout.tsx` is not part of this model. It holds only page metadata and a wrapper.
- `setInterval`, `setTimeout`, their 8 s and 1 s delays, and interval cleanup are not
  modelled. Each callback is an explicit step (`Tick`, `DeliverReply`), so nothing
  restricts how steps interleave. In particular a reply step is not tied to an earlier
  send.
- `Math.random()` is replaced by parameters: the gate boolean and the template and reply
  indices.
- Clock readings are replaced by one `now` per handler. The source calls `Date.now()` and
  `new Date()` separately for each record, so in principle the readings can differ by a
  millisecond.
- Timestamps are plain milliseconds. `toLocaleTimeString` formatting is presentation.
- Ids are the decimal string of the clock value, as in the source. No uniqueness of
  message or action ids is claimed, because a warn gives its action and its message the
  same id.
- `agentStatus` is never changed from `'active'`, so it is not modelled.
- The name lookup in `handleWarnMember` reads `members` from the render's closure, not
  from `prev`. The model looks the name up in the members before the update. Warns never
  change names, so the result is the same.
- `JsText.NatToString` models `Number.prototype.toString` only in decimal notation. JavaScript
  switches to exponent notation from 10^21 on, far beyond any `Date.now()` reading.
- Member `warnings` is a natural number. The TypeScript type is `number`, but the seed
  values are natural numbers and the only update adds 1.
- JavaScript strings are UTF-16 code units. Here they are Dafny `char`s. The trim
  whitespace set contains no surrogates, so blank detection is unaffected.
