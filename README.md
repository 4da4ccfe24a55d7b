# Chat lounge: session logic and room server in Dafny

This project models the two pieces of a small WebSocket chat that carry logic:

- the browser session of the React `App` component (`src/App.js`): joining with a display name, the raw-text handshake, the message log that every inbound frame is appended to, the user's own colour, the focus hint, sending the composer's text, and the pure rendering decisions (which row each log entry becomes, avatar initials);
- the Python room server (`server.py`): the registry of connected users (`clients`) and their colours (`user_colors`), join validation, the per-line router (blank lines, `/quit`, `@name message` direct messages, public chat), broadcasting, and the cleanup that runs when a connection ends.

Frames are modelled as already-decoded JSON objects (`Protocol.Frame`), with every field optional. The server's handlers are methods on `Server.Room`. Each returns the ordered list of `(connection, frame)` sends it makes. The browser's state is `Client.Session`. Each React state setter is a field assignment. The values that `connect`'s handlers capture (the socket, `username`, `selfColor`) are an explicit `Client.Handlers` record.

Modules: `Text` (JavaScript `trim` and Python `strip`, with each runtime's exact whitespace set; JavaScript `split(" ")`; Python `split(maxsplit=1)`; ASCII case mapping), `Protocol`, `Render`, `Client`, `Server`, and `Interop` (how the server's frames behave once the browser has them).

Notes on what the code does, which the model follows:

- The colour cache is not "first seen wins". The message handler reads the `selfColor` captured when `connect` ran, not the live value. If that captured value was unset, every own chat frame overwrites the colour, so the last one wins (`Client.LastOwnChatWins`). If it was set, the colour never changes (`Client.CapturedColorFreezes`).
- Notices do not come only from the close handler: the server sends `notice` frames for joins and departures.
- Self-detection compares `from` with the untrimmed name, while the handshake sends the trimmed name. A padded name never recognises its own messages (`Interop.PaddedNameNeverSeesOwnChat`).
- There is no Connecting/Connected distinction. The session holds a socket or does not, and `connect` stores the socket before it opens.

## Model

| member | source | states |
|---|---|---|
| `Text.TrimStart` | src/App.js:60 | the result is a suffix of the input and everything dropped is whitespace, and it does not start with whitespace |
| `Text.TrimEnd` | src/App.js:60 | the result is a prefix of the input and everything dropped is whitespace, and it does not end with whitespace |
| `Text.Trim` | src/App.js:60 | `trim()`/`strip()` return a string with no whitespace at either end, and it is empty exactly when the input is all whitespace |
| `Text.TrimPadded` | server.py:56 | stripping removes exactly the whitespace padding around a stripped string |
| `Text.TrimStartPadded` | server.py:56 | leading whitespace before a non-space is exactly what the left trim removes |
| `Text.TrimEndPadded` | server.py:56 | trailing whitespace after a stripped string is exactly what the right trim removes |
| `Text.TrimTrimmed` | server.py:56 | a string without whitespace at either end is left unchanged by `strip()`/`trim()` |
| `Text.TrimIdempotent` | server.py:69 | stripping twice is stripping once |
| `Text.TrimShrinks` | src/App.js:63 | a string with whitespace at either end gets strictly shorter when trimmed |
| `Text.Upper` | src/App.js:7 | upper-casing never yields a lower-case ASCII letter |
| `Text.ContainsIgnoringCase` | src/App.js:72 | `/p/i.test(s)` holds exactly when `p` occurs somewhere in `s` with letters compared without case |
| `Text.IndexOf` | src/App.js:6 | the index found holds the character and no earlier index does |
| `Text.IndexOfAfter` | src/App.js:6 | after a prefix without the character, the first occurrence is right at the end of the prefix |
| `Text.SplitOnSpace` | src/App.js:6 | `split(" ")` yields at least one piece, no piece contains a space, and joining the pieces with spaces gives back the input |
| `Text.SplitJoin` | src/App.js:6 | splitting on spaces undoes joining with spaces, for pieces without spaces |
| `Text.FirstSpace` | server.py:75 | the index of the first whitespace: nothing before it is whitespace |
| `Text.FirstSpaceAfter` | server.py:75 | after a prefix without whitespace, the first whitespace is at the end of that prefix |
| `Text.TrimStartKeepsLast` | server.py:75 | dropping leading whitespace keeps a last character that is not whitespace |
| `Text.SplitWord` | server.py:75 | on a string starting with non-whitespace: one or two non-empty parts, the first without whitespace, a second not starting with whitespace |
| `Text.SplitWordOfTrimmed` | server.py:75-76 | a stripped string splits off a single word exactly when it has no whitespace, and a second part is itself stripped |
| `Text.SplitOnce` | server.py:75 | `split(maxsplit=1)` yields at most two non-empty parts, none for an all-whitespace string; the first has no whitespace and the second does not start with whitespace |
| `Text.SplitOnceWord` | server.py:75 | a word, a whitespace gap and a remainder split into exactly the word and the remainder |
| `Text.SplitOnceSingleWord` | server.py:75-76 | a string without whitespace splits into itself alone |
| `Render.Head` | src/App.js:7 | `w[0]?.toUpperCase()` contributes nothing for an empty piece, and otherwise exactly the upper-cased first character |
| `Render.Heads` | src/App.js:7-9 | at most one initial per piece, none of them a lower-case ASCII letter |
| `Render.HeadsOfTwo` | src/App.js:7-9 | the first two pieces contribute their heads, in order |
| `Render.SplitLeadingSpace` | src/App.js:6 | a leading space splits off an empty first piece |
| `Render.Initials` | src/App.js:4-13 | avatar initials are one or two characters, never a lower-case ASCII letter |
| `Render.InitialsOneWord` | src/App.js:5-9 | a one-word name shows its upper-cased first letter |
| `Render.InitialsFirstTwoPieces` | src/App.js:5-12 | a name of two or more space-separated pieces shows the upper-cased first letters of whichever of the first two pieces are non-empty, or "?" when both are empty ("a  b" shows "A", " b" shows "B"); later pieces are ignored |
| `Render.InitialsFirstTwoWords` | src/App.js:5-9 | a name of two or more words shows the upper-cased first letters of the first two only |
| `Render.InitialsTwoLeadingSpaces` | src/App.js:5-12 | a name starting with two spaces shows "?" whatever follows, because only the first two pieces count |
| `Render.InitialsOfNothing` | src/App.js:5 | a missing or empty name shows "?" |
| `Render.AvatarOf` | src/App.js:4-13 | an avatar shows the initials of the name, on the given colour when it is a non-empty string and on `var(--accent)` otherwise, never on an empty background |
| `Render.TemplateText` | src/App.js:160 | a template literal writes a present value as itself and a missing one as "undefined" |
| `Render.Classify` | src/App.js:132-177 | "chat" gives a chat row, which is the user's own exactly when `from` equals the untrimmed `username`; it shows `from` in the frame's colour, the text, the time only when truthy, and an avatar for `from` whose background is the frame's colour for others and `selfColor \|\| m.color` (then the accent colour) for the user's own; "notice"/"info"/"error" give the pill of that kind with the frame's text; "dm" gives a direct-message row, incoming exactly when `from` is truthy, titled "DM from " or "DM to " followed by `from \|\| to`, with the frame's text and an avatar of that peer in the frame's colour; any other type renders nothing |
| `Client.Socket.Send` | src/App.js:88 | a send appends exactly the given text as one raw frame |
| `Client.Session.constructor` | src/App.js:40-44 | no socket, empty name, input and log, no colour |
| `Client.Session.EditUsername` | src/App.js:112 | the name field changes and nothing else |
| `Client.Session.EditInput` | src/App.js:187 | the composer changes and nothing else |
| `Client.Session.Connect` | src/App.js:59-84 | a blank name does nothing; otherwise a fresh socket is stored at once, and its handlers capture the current `username` and `selfColor`; log, name, input and colour are unchanged |
| `Client.Session.OnOpen` | src/App.js:62-64 | the only frame sent on open is the trimmed captured name, as raw text |
| `Client.Session.OnMessage` | src/App.js:65-78 | every frame is appended at the end of the log with earlier entries kept; `selfColor` moves only for an own chat frame while the captured colour is unset; focus is requested exactly for an "info" frame containing "joined as" in any case |
| `Client.Session.OnClose` | src/App.js:79-82 | the socket is dropped and exactly one "Disconnected from server" notice is appended; name, input and colour are kept |
| `Client.Session.SendMsg` | src/App.js:86-91 | with a socket and a non-blank input, the untrimmed input is sent exactly once and the input cleared; otherwise nothing is sent and the input is unchanged |
| `Client.CapturedColorFreezes` | src/App.js:69 | when the colour was set at connect time, no sequence of frames changes `selfColor` |
| `Client.NoOwnChatKeepsColor` | src/App.js:68-71 | frames that are not own chat lines never change `selfColor` |
| `Client.LastOwnChatWins` | src/App.js:68-71 | when the colour was unset at connect time, `selfColor` ends as the colour of the last own chat frame |
| `Server.ParseLine` | server.py:68-80 | a line is skipped exactly when blank, quits exactly when it strips to "/quit", is a malformed direct message exactly when it strips to an "@" word without whitespace, and a direct message exactly when it strips to an "@" word followed by more; the target has no whitespace and the text is stripped and non-empty; it is public chat exactly when it strips to something non-empty other than "/quit" not starting with "@", and the chat text is the stripped line |
| `Server.DirectRoundTrip` | server.py:74-80 | "@name message", padded with whitespace, is routed to `name` with `message` |
| `Server.LastNotInPrefix` | server.py:12 | in a list without repeats, the last name does not occur before it |
| `Server.DistinctSnoc` | server.py:62 | appending a new name keeps the list free of repeats |
| `Server.SendAll` | server.py:27-30 | one send of the frame per listed name, in list order, each to that name's connection |
| `Server.Except` | server.py:28-29 | the names other than `exclude`, in registration order, never more than are registered |
| `Server.ExceptSnoc` | server.py:28-29 | one more registered name is visited last, and kept unless it is the excluded one |
| `Server.ExceptMembers` | server.py:28-29 | a name is visited exactly when it is registered and not excluded |
| `Server.ExceptDistinct` | server.py:28-29 | with a registry free of repeats, nobody is visited twice |
| `Server.ExceptOnce` | server.py:27-30 | each registered name other than `exclude` receives a broadcast exactly once, and `exclude` never |
| `Server.ExceptAbsent` | server.py:27-30 | excluding a name that is not registered keeps everyone |
| `Server.TakenUntil` | server.py:68-73 | the loop reads no more lines than there are |
| `Server.TakenUntilFrom` | server.py:68-73 | from any line on, the loop reads that line and, unless it stops the loop, carries on with the next |
| `Server.TakenUntilEndsAtStop` | server.py:72-73 | the last line read stops the loop, unless every line was read |
| `Server.TakenUntilSkipsNoStop` | server.py:72-73 | no line before the last one read stops the loop |
| `Server.TakenUntilStopsAtFirst` | server.py:68-73 | the loop reads all lines, or up to and including the first that stops it, and none before that one does |
| `Server.Room.constructor` | server.py:12-13 | the server starts with an empty, valid registry |
| `Server.Room.AddressedSnoc` | server.py:28-30 | sending the frame to one more registered user extends the sends in step with the names |
| `Server.Room.Broadcast` | server.py:27-30 | one send of the frame to each registered connection except the excluded name, in registration order |
| `Server.Room.SendDirect` | server.py:33-48 | known recipient: it gets the `from` copy, then the sender gets the `to` echo, and nobody else gets anything; unknown recipient: only the sender gets "user '<target>' not found"; an unregistered sender ends the handler (KeyError); every frame goes to a registered connection |
| `Server.Room.Route` | server.py:70-89 | blank lines send nothing; "/quit" stops with no output; a malformed "@" line sends the usage error to the sender only; a direct message is routed as `SendDirect` says, also when an unregistered sender's recipient copy goes out before the handler raises; any other line is broadcast as a chat with the sender's colour to every registered user including the sender; for a registered sender nothing raises and only "/quit" stops; every frame goes to the connection itself or a registered one; the sends are `RouteSends` of the registry, the single definition the message loop is stated with; the registry is not changed |
| `Server.Room.HandleLine` | server.py:69-89 | the stripped line is parsed and routed as `Route` says, so its sends are `RouteSends` of the parsed line; for a registered sender it stops exactly on a line that strips to "/quit" and never raises |
| `Server.Room.MessageLoop` | server.py:68-89 | a registered user's loop reads every line, or up to and including the first that strips to "/quit" (`TakenUntil` with `QuitsChat`); its sends are, in order, the sends each line read makes (`LoopSends`), and every frame goes to the connection itself or a registered one |
| `Server.Room.Join` | server.py:55-65 | the name is stripped; an empty or taken name gets "invalid or duplicate username" and nothing is registered; otherwise the name is registered with a palette colour, the joiner gets "joined as <name>" and then every user registered before gets one "<name> joined the chat", in registration order (`SendAll`); the registry stays valid |
| `Server.Room.Register` | server.py:62-63 | a new name is added to `clients`, appended to the iteration order, and given its colour |
| `Server.Room.Cleanup` | server.py:92-95 | a registered name is removed and everyone still registered gets "<name> left the chat", in registration order (`SendAll`); an unregistered name changes nothing; colours are never removed |
| `Server.Room.Converse` | server.py:67-95 | after a join, the message loop's sends followed by the "<name> left the chat" notices of the cleanup; the name is unregistered and colours are kept |
| `Server.Room.HandleClient` | server.py:51-95 | a whole connection run sends the greeting, then: for an empty name only "invalid or duplicate username"; for a duplicate name that error and then "<name> left the chat" to everyone left after the cleanup evicts the earlier holder; for a new name "joined as <name>", the join notices to those registered before, the message loop's sends (computed on the registry with the new user in it), and the leave notices; it leaves the stripped name registered to nobody, and a colour is recorded only for an accepted join |
| `Interop.RegisteredName` | src/App.js:63 | the browser's `trim()` followed by the server's `strip()` (server.py:56) gives a name the server's strip leaves unchanged, never longer than typed, and empty whenever the browser's name is all whitespace |
| `Interop.JoinConfirmationRequestsFocus` | server.py:64 | the server's "joined as <name>" info frame always triggers the browser's focus hint |
| `Interop.GreetingRequestsNoFocus` | server.py:54 | the "enter your username" greeting does not |
| `Interop.NoFirstLetterNoMatch` | src/App.js:72 | a text with no letter matching the pattern's first letter does not contain the pattern |
| `Interop.DirectMessageViews` | server.py:37-48 | the recipient's copy renders as incoming "DM from <sender>", the sender's echo as outgoing "DM to <recipient>", both in the direct-message colour |
| `Interop.PaddedNameNeverSeesOwnChat` | src/App.js:63-69 | a name typed with whitespace at either end is registered trimmed, so that user's own chat lines render as someone else's and never set `selfColor` |
| `Interop.TrimmedNameSeesOwnChat` | src/App.js:135 | a name without padding is registered unchanged, and its own chat lines render on the user's side |
| `Interop.BrowserAcceptsServerRefuses` | server.py:56-58 | any non-empty name made only of the separators U+001C..U+001F passes the browser's blank check unchanged but is stripped to nothing by the server, which refuses it |

## Left out

- WebSocket transport, `websockets.serve`, `asyncio` scheduling and the interleaving of connections at `await` points. Each server handler step is atomic over the registry. `Server.Room.HandleClient` runs one connection with no other connection acting in between.
- JSON encoding and decoding. Frames are records. A frame that fails `JSON.parse` (an uncaught exception in the browser) is not modelled.
- `random.choice` is a `color` parameter that must be in the palette. `datetime.now().strftime` is an opaque `time` parameter.
- Exceptions swallowed by `send_json`, and exceptions from `ws.recv` or a dropped connection during the join. A missing dictionary key in the message loop is modelled: the handler stops and runs the cleanup.
- `ws.close()` after a refused join is not a frame. `Server.Room.Join` reports the refusal with `joined == false`.
- The server's port, host and `print`, and the `main` entry point.
- The browser's socket cleanup effect on unmount, and scroll-into-view.
- The actual `setTimeout` and focus: the model only says whether a focus hint is requested.
- JSX markup, CSS classes, the `Header` and `SystemPill` components, and the buttons' `disabled` states.
- The key handlers that call `connect` and `sendMsg` on Enter.
- Sending on a socket that is still connecting: sends are recorded as made.
- Unicode case mapping: `Text.Upper` and `Text.ContainsIgnoringCase` map ASCII letters only. For the pattern "joined as" this is exact, because the non-Unicode regular-expression case folding never maps a non-ASCII character to an ASCII one.
- JavaScript strings are UTF-16. Here a string is a sequence of Unicode scalar values, so `w[0]` of a name starting with an astral character is the whole character, not half of it.
- `Render.Initials`: does not model `toUpperCase` of non-ASCII first letters, which can lengthen the initials.
