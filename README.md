# M5Stack avatar and news reader, modelled in Dafny

This project models the two in-memory state machines of a desktop "M5Stack avatar"
widget, and proves properties of them. The first is the avatar itself: blinking eyes,
a lip-synced mouth, subtitle text that scrolls off one character per tick, and a FIFO
queue of utterances. The second is the news reader. It turns Google News feed entries
into headline records and reads them out into the avatar's queue, one per step, using
a cursor.

Modules:

- `AvatarMachine` (avatar_machine.dfy). The avatar state as a value (`AvatarState`).
  It has one transition function per timer callback and public operation, the
  invariant `Inv`, and lemmas about speech acts: how long one takes, and that
  utterances are spoken in queue order.
- `AvatarLoop` (avatar_loop.dfy). Qt's event loop, as a dispatcher over events. A
  timeout runs its callback only while that timer is running. The single-shot
  reopen timer stops itself when it fires. The lemmas: every state reachable from
  construction keeps `Inv`, the eyes are closed exactly while a reopen is pending,
  and the queue is FIFO over any run.
- `Avatar` (avatar.dfy). The class `M5StackAvatar`. Its fields are the widget's
  state fields, updated in place. Each method is specified by its `AvatarMachine`
  transition and keeps the invariant. Every Qt timer is a `Timer(active, interval)`
  value. `random.randint(2000, 6000)` is a nondeterministic choice in the inclusive
  range [2000, 6000].
- `NewsFeed` (news_feed.dfy). The pure part of the reader:
  - the feed URL;
  - the title rule (keep what comes before the first `" - "`);
  - Python's slice `entries[:max_items]`, negative bounds included;
  - the headline records;
  - `str(n)`, with a round-trip lemma;
  - the messages;
  - `read_next_news` and one `read_all_news` step as functions;
  - the whole self-rescheduling `read_all_news` chain.
- `News` (news.dfy). The class `NewsReader`: the headline list and the cursor,
  updated in place. It speaks through the avatar object's `Speak`, which appends to
  the avatar's queue.
- `Wrappers` (wrappers.dfy). `Option`.

External collaborators become parameters:

- `feedparser.parse` is a function argument `parse: string -> Option<seq<Entry>>`.
  `None` stands for an exception raised while fetching or parsing, before the list
  is cleared.
- The randomness is a `:|` choice.
- The scheduling done by `QTimer.singleShot` in `read_all_news` is the returned
  delay `Some(interval)`.

## Behaviour worth knowing

- `read_all_news`, unlike `read_next_news`, never speaks the completion message.
  When the cursor is out of bounds it only resets the cursor (news_reader.py:85-89).
  A full pass from cursor 0 over n headlines therefore speaks n messages and runs
  n + 1 steps (`NewsFeed.ReadAllChain`). Only n + 1 calls of `read_next_news` end
  with the completion message (`NewsFeed.ReadNextPass`).
- `fetch_google_news` clears the list before the loop (news_reader.py:40), so a
  feed with no entries empties it. A failure leaves the list untouched only when it
  happens before that line. A fetch never moves the cursor.
- The blink delay is drawn from the inclusive range [2000, 6000]
  (m5stack_avatar.py:197 and 252).

## Model

| member | source | states |
|---|---|---|
| Avatar.M5StackAvatar.constructor | m5stack_avatar.py:41-88 | The initial state: eyes open, mouth closed, no overlays, empty text hidden, idle, empty queue, only the 100 ms message poll running; it satisfies the invariant |
| Avatar.M5StackAvatar.ToggleBlink | m5stack_avatar.py:189-198 | Open eyes are closed and the 500 ms reopen is armed; closed eyes stay closed with the reopen timer untouched; in both cases the blink timer runs again with some delay d, 2000 <= d <= 6000; the invariant is kept |
| Avatar.M5StackAvatar.OpenEyes | m5stack_avatar.py:200-203 | The eyes are open and nothing else changes; the invariant is kept |
| Avatar.M5StackAvatar.ToggleMouth | m5stack_avatar.py:205-208 | mouthClose is negated and nothing else changes; the invariant is kept when the mouth timer is running, the only time Qt calls it |
| Avatar.M5StackAvatar.UpdateText | m5stack_avatar.py:210-222 | With text left, exactly the first character is dropped and speaking is unchanged; with the text empty, both timers stop, the text is hidden, the mouth is closed and speaking ends; the invariant is kept |
| Avatar.M5StackAvatar.CheckMessages | m5stack_avatar.py:224-228 | When idle with a non-empty queue, exactly the head is dequeued and a speech act of it starts; otherwise the state is unchanged; the invariant is kept |
| Avatar.M5StackAvatar.SpeakNow | m5stack_avatar.py:230-246 | speaking, currentText = text and textVisible are set; the mouth and text timers both run at 200 ms; the invariant is kept |
| Avatar.M5StackAvatar.Start | m5stack_avatar.py:248-252 | The blink timer runs with a delay in [2000, 6000] and nothing else changes |
| Avatar.M5StackAvatar.Speak | m5stack_avatar.py:254-261 | text is appended to the end of the queue and no other field changes |
| Avatar.M5StackAvatar.ExclamationOn | m5stack_avatar.py:263-266 | Only exclamationVisible changes, to true (so a repeat changes nothing) |
| Avatar.M5StackAvatar.ExclamationOff | m5stack_avatar.py:268-271 | Only exclamationVisible changes, to false |
| Avatar.M5StackAvatar.PaleOn | m5stack_avatar.py:273-276 | Only paleVisible changes, to true |
| Avatar.M5StackAvatar.PaleOff | m5stack_avatar.py:278-281 | Only paleVisible changes, to false |
| AvatarMachine.OverlaySettersIdempotent | m5stack_avatar.py:263-281 | Each overlay setter changes only its own flag and is idempotent |
| AvatarMachine.ScrollDropsPrefix | m5stack_avatar.py:210-214 | While text remains, k scroll ticks leave exactly text[k..] and change nothing else |
| AvatarMachine.SpeechActEnds | m5stack_avatar.py:215-222 | The tick after the text runs out stops both timers, hides the text, closes the mouth and ends speaking, changing nothing else |
| AvatarMachine.SpeechActTakesLengthPlusOneTicks | m5stack_avatar.py:210-246 | A speech act of t started from idle is still speaking t[k..] after each k <= len(t) ticks and is idle, mouth closed, text hidden, invariant restored after exactly len(t) + 1 ticks |
| AvatarMachine.CheckMessagesWhileSpeaking | m5stack_avatar.py:224-228 | The poll never dequeues while a speech act is on |
| AvatarMachine.SpokenInQueueOrder | m5stack_avatar.py:224-261 | Speaking "a" then "b" into an idle avatar: "a" starts first, "b" cannot start during the len(a) + 1 ticks of "a", and the next poll then starts "b" |
| AvatarLoop.Step | m5stack_avatar.py:67-88 | Dispatch of one event as Qt does it: a timeout of a stopped timer changes nothing; the single-shot reopen, when it fires, opens the eyes and stops itself; nothing restarts or stops the 100 ms poll; only speak and the poll change the queue; only the setters change the overlays |
| AvatarLoop.StepKeepsReachable | m5stack_avatar.py:67-88 | Every event, dispatched as Qt does (a callback fires only while its timer runs), keeps the invariant and "eyes closed exactly while the reopen is pending" |
| AvatarLoop.RunKeepsReachable | m5stack_avatar.py:67-88 | Any sequence of such events keeps both |
| AvatarLoop.InitReachable | m5stack_avatar.py:41-88 | Every state reachable from construction keeps both: speaking == textVisible == text timer running == mouth timer running, idle implies mouth closed, closed eyes have the 500 ms reopen pending |
| AvatarLoop.StepDuringSpeech | m5stack_avatar.py:205-228 | During a speech act, a scroll timeout drops one character, every other event leaves the text alone, and the act goes on |
| AvatarLoop.SpeechActUnderLoop | m5stack_avatar.py:205-261 | With any other events interleaved, a speech act is still on after k <= len(text) scroll timeouts and shows exactly text[k..] |
| AvatarLoop.SpeechActEndsUnderLoop | m5stack_avatar.py:210-222 | With any other events interleaved, the (len(text) + 1)-th scroll timeout ends the act: text hidden, both timers stopped, mouth closed, not speaking |
| AvatarLoop.StepIsFifo | m5stack_avatar.py:224-261 | One event begins the head of the queue, which is then the text being spoken, or appends to its tail, or leaves the queue alone |
| AvatarLoop.RunIsFifo | m5stack_avatar.py:224-261 | Over any run, texts begun followed by texts still queued equal texts initially queued followed by texts passed to speak, in order (FIFO) |
| NewsFeed.FeedUrl | news_reader.py:34-37 | The URL is exactly determined: it starts with https://news.google.com/rss and ends with "&gl=JP&ceid=JP:" + lang; it is the default feed (next character '?') exactly when the topic is "japan", and then continues with "?hl=" + lang; otherwise it continues with "/search?q=" + topic and ends with "&hl=" + lang + "&gl=JP&ceid=JP:" + lang; the length of each case leaves nothing in between |
| NewsFeed.BeforeSeparator | news_reader.py:47 | The prefix of the title that ends where the first " - " begins, or the whole title when there is none |
| NewsFeed.ShortTitle | news_reader.py:44-47 | Without " - " the stored title is the original; otherwise it is a prefix of the original followed by " - ", with no " - " beginning earlier, and it contains no " - " |
| NewsFeed.ShortTitleIsFirstSplit | news_reader.py:44-47 | The rule determines the stored title: any prefix followed by " - " with no earlier " - " is it |
| NewsFeed.ShortTitleExamples | news_reader.py:44-47 | "Foo - Bar" and "Foo - Bar - Baz" become "Foo"; "Foo" stays "Foo" |
| NewsFeed.SliceTo | news_reader.py:43 | Python's s[:k]: a prefix of s of length min(len(s), k) for k >= 0, and of length max(0, len(s) + k) for k < 0 |
| NewsFeed.ItemOf | news_reader.py:44-53 | One entry's record: the title unchanged when it has no " - ", otherwise the prefix followed by " - " with no " - " beginning earlier (so the first split, which ShortTitleIsFirstSplit shows unique) and free of " - "; the link; the published value, or "" when absent |
| NewsFeed.Items | news_reader.py:43-53 | One record per entry, in feed order |
| NewsFeed.Headlines | news_reader.py:40-53 | The stored list has length min(len(entries), max_items) for max_items >= 0, in feed order; item i has entry i's shortened title, its link, and its published value or "" |
| NewsFeed.DecimalString | news_reader.py:70 | str(n): a non-empty run of decimal digits with no leading zero |
| NewsFeed.DecimalRoundTrip | news_reader.py:70 | str(n) denotes n |
| NewsFeed.HeadlineMessage | news_reader.py:70 | The message is ニュース, then the decimal numeral of the headline's number (str(n), read back as n by DecimalRoundTrip), then ": " and the title; its length leaves nothing else |
| NewsFeed.MessagesFrom | news_reader.py:68-72 | The headline messages from a cursor on, numbered from cursor + 1, in order |
| NewsFeed.ReadNext | news_reader.py:68-76 | In bounds: the next cursor, headline message i+1 and true; otherwise cursor 0, the completion message and false |
| NewsFeed.ReadAllStep | news_reader.py:85-89 | In bounds: one headline message, cursor advanced, another step scheduled; otherwise cursor 0, nothing spoken, nothing scheduled |
| NewsFeed.ReadAllChain | news_reader.py:78-89 | The self-rescheduling chain from any cursor speaks exactly the remaining headline messages in order, no completion message, ends at cursor 0, and from cursor 0 with n items runs n + 1 steps |
| NewsFeed.ReadNextPass | news_reader.py:61-76 | From cursor 0, n + 1 calls of read_next_news speak the n headline messages in order, then the completion message, and end at cursor 0 |
| News.NewsReader.constructor | news_reader.py:11-18 | Cursor 0, empty list, the given avatar |
| News.NewsReader.FetchGoogleNews | news_reader.py:20-59 | topic, lang and max_items default to "japan", "ja" and 10; the URL is chosen by FeedUrl; on a failed parse, false with nothing changed; otherwise the list becomes Headlines(entries, max_items) and the result is true iff it is non-empty; the cursor never changes |
| News.NewsReader.ReadNextNews | news_reader.py:61-76 | In bounds, headline message i+1 is appended to the avatar's queue, the cursor advances and the result is true; otherwise the completion message is appended, the cursor is 0 and the result is false; the list and the rest of the avatar are unchanged |
| News.NewsReader.ReadAllNews | news_reader.py:78-89 | One step: in bounds, exactly one headline message is appended and the cursor advances, with the next step scheduled after interval (8000 ms by default); out of bounds, the cursor is 0, nothing is appended and nothing is scheduled |
| News.NewsReader.Reset | news_reader.py:91-93 | The cursor is 0 and the list is unchanged |
| News.NewsReader.GetNewsCount | news_reader.py:95-102 | Returns the list's length and changes nothing |

## Left out

- Drawing: `paintEvent` and every `draw_*` method (m5stack_avatar.py:90-187), and the `update()` redraw requests. They render to a Qt canvas and change no modelled state.
- The window setup in `__init__`: title, fixed size, geometry constants and `self.app`. Also the `show()` call in `start`. None of them is read by the modelled logic.
- Wall-clock timing. A timer is a running flag plus the interval it was started with. When timeouts happen and how they interleave is left open; `AvatarLoop` takes any order of events.
- `random.randint`: any value in [2000, 6000] may be chosen, with no distribution.
- `feedparser.parse`: the network fetch and the XML parsing. The parsed entries are an input.
- The exception path of `fetch_google_news` and its `print` (news_reader.py:57-59). Only a failure before the list is cleared is modelled. An exception inside the loop would leave a partly rebuilt list. So would an entry without `title` or `link`. Entries are assumed to carry both.
- `News.NewsReader.ReadAllNews`: the `QTimer.singleShot` call and its lambda. The model returns the delay of the step it would schedule, and `NewsFeed.ReadAllChain` strings the steps together.
- `queue.Queue` thread safety. Everything runs on one thread, so the queue is a sequence.
- main.py: application startup, the fetch-retry wiring and `sys.exit`. This is glue with no logic of its own, and main.py is not part of this model.
- Avatar.M5StackAvatar.ToggleMouth: keeps the invariant only while the mouth timer is running. Called directly while idle, the source breaks "idle implies mouth closed" too.
- Avatar.M5StackAvatar.OpenEyes: called directly, it does not stop the single-shot reopen timer. That stop is Qt's doing, and `AvatarLoop` models it. So "eyes closed exactly while a reopen is pending" is a property of the event loop (`AvatarLoop.InitReachable`), not of the method.
