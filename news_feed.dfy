/** The pure parts of the news reader: the feed URL, how feed entries become headline
    records, the spoken messages, and how the cursor moves through the headlines. */
module NewsFeed {
  import opened Wrappers

  /** One parsed feed entry; published may be absent. */
  datatype Entry = Entry(title: string, link: string, published: Option<string>)

  /** One stored headline record. */
  datatype NewsItem = NewsItem(title: string, link: string, published: string)

  const DEFAULT_TOPIC := "japan"
  const DEFAULT_LANG := "ja"
  const DEFAULT_MAX_ITEMS := 10
  const DEFAULT_READ_INTERVAL_MS := 8000

  const SEPARATOR := " - "
  const FEED_BASE := "https://news.google.com/rss"
  const END_MESSAGE := "以上でニュースは終わりです"
  const HEADLINE_PREFIX := "ニュース"

  // --- The feed URL ---

  /** The Google News RSS URL for topic and lang. Every URL is under the RSS base and
      ends with "&gl=JP&ceid=JP:" followed by lang. The character after the base tells
      the default feed ('?') from a search ('/'), and it is the default feed exactly
      when the topic is "japan". The default feed continues with "?hl=" + lang; a
      search continues with "/search?q=" + topic and ends with "&hl=" + lang and the
      common tail. With the lengths, these fix every character of the URL. */
  function FeedUrl(topic: string, lang: string): (url: string)
    ensures topic == DEFAULT_TOPIC ==> |url| == |FEED_BASE| + 4 + |lang| + 15 + |lang|
    ensures topic != DEFAULT_TOPIC ==> |url| == |FEED_BASE| + 10 + |topic| + 4 + |lang| + 15 + |lang|
    ensures IsPrefix(FEED_BASE, url)
    ensures topic == DEFAULT_TOPIC <==> url[|FEED_BASE|] == '?'
    ensures topic == DEFAULT_TOPIC ==> IsPrefix(FEED_BASE + ("?hl=" + lang), url)
    ensures topic != DEFAULT_TOPIC ==> IsPrefix(FEED_BASE + ("/search?q=" + topic), url)
    ensures topic != DEFAULT_TOPIC ==> IsSuffix("&hl=" + (lang + ("&gl=JP&ceid=JP:" + lang)), url)
    ensures IsSuffix("&gl=JP&ceid=JP:" + lang, url)
  {
    var tail := "&gl=JP&ceid=JP:" + lang;
    if topic == DEFAULT_TOPIC then
      Nest(FEED_BASE, "?hl=", lang, tail);
      FEED_BASE + ("?hl=" + (lang + tail))
    else
      var rest := "&hl=" + (lang + tail);
      var url := FEED_BASE + ("/search?q=" + (topic + rest));
      Concat(lang, tail);
      SuffixOfAppend(tail, "&hl=", lang + tail);
      Nest(FEED_BASE, "/search?q=", topic, rest);
      SuffixOfSuffix(tail, rest, url);
      url
  }

  /** For a + (b + (c + d)): a and a + (b + c) are prefixes, b begins right after a,
      and d is a suffix. */
  lemma Nest(a: string, b: string, c: string, d: string)
    requires |b| > 0
    ensures var s := a + (b + (c + d));
      && IsPrefix(a, s) && IsPrefix(a + (b + c), s) && s[|a|] == b[0]
      && IsSuffix(d, s)
  {
    var s := a + (b + (c + d));
    assert s == (a + (b + c)) + d;
    assert s[..|a|] == a;
    assert s[..|a + (b + c)|] == a + (b + c);
    assert s[|s| - |d|..] == d;
  }

  lemma SuffixOfSuffix(t: string, u: string, s: string)
    requires IsSuffix(t, u) && IsSuffix(u, s)
    ensures IsSuffix(t, s)
  {
    assert s[|s| - |t|..] == u[|u| - |t|..];
  }

  /** Any suffix of b is a suffix of a + b. */
  lemma SuffixOfAppend(t: string, a: string, b: string)
    requires IsSuffix(t, b)
    ensures IsSuffix(t, a + b)
  {
    assert (a + b)[|a + b| - |t|..] == b[|b| - |t|..];
  }

  /** b is a suffix of a + b. */
  lemma Concat(a: string, b: string)
    ensures IsSuffix(b, a + b)
  {
    assert (a + b)[|a|..] == b;
  }

  // --- Titles ---

  predicate IsPrefix(p: string, s: string) { |p| <= |s| && s[..|p|] == p }

  predicate IsSuffix(p: string, s: string) { |p| <= |s| && s[|s| - |p|..] == p }

  /** The separator " - " starts at position i of s. */
  predicate SeparatorAt(s: string, i: int)
  {
    0 <= i && i + 3 <= |s| && s[i] == ' ' && s[i + 1] == '-' && s[i + 2] == ' '
  }

  /** Python's `" - " in s`. */
  predicate HasSeparator(s: string)
  {
    exists i :: 0 <= i <= |s| - 3 && SeparatorAt(s, i)
  }

  /** Python's `s.split(" - ")[0]`: the text before the first separator, or all of s
      when there is none. */
  function BeforeSeparator(s: string): (r: string)
    ensures IsPrefix(r, s)
    ensures forall j :: 0 <= j < |r| ==> !SeparatorAt(s, j)
    ensures HasSeparator(s) ==> SeparatorAt(s, |r|)
    ensures !HasSeparator(s) ==> r == s
  {
    if |s| < 3 then
      s
    else if SeparatorAt(s, 0) then
      assert SeparatorAt(s, 0);
      ""
    else
      var rest := BeforeSeparator(s[1..]);
      var r := [s[0]] + rest;
      ShiftSeparator(s);
      assert forall j :: 0 <= j < |r| ==> !SeparatorAt(s, j) by {
        forall j | 1 <= j < |r| ensures !SeparatorAt(s, j) {
          assert SeparatorAt(s, j) == SeparatorAt(s[1..], j - 1);
        }
      }
      assert HasSeparator(s) ==> HasSeparator(s[1..]) by {
        if HasSeparator(s) {
          var i :| 0 <= i <= |s| - 3 && SeparatorAt(s, i);
          assert SeparatorAt(s[1..], i - 1);
        }
      }
      assert HasSeparator(s[1..]) ==> HasSeparator(s) by {
        if HasSeparator(s[1..]) {
          var i :| 0 <= i <= |s[1..]| - 3 && SeparatorAt(s[1..], i);
          assert SeparatorAt(s, i + 1);
        }
      }
      r
  }

  /** A separator at position i + 1 of s is one at position i of s[1..]. */
  lemma ShiftSeparator(s: string)
    requires |s| > 0
    ensures forall i :: 0 <= i ==> SeparatorAt(s, i + 1) == SeparatorAt(s[1..], i)
  {
  }

  /** The stored title (the title with a trailing " - source" removed). Without a
      separator it is the title itself. Otherwise it is the prefix of the title that
      ends where the first separator begins: the separator follows it, and no
      separator begins earlier, so in particular none lies inside it. */
  function ShortTitle(title: string): (r: string)
    ensures !HasSeparator(title) ==> r == title
    ensures HasSeparator(title) ==>
      && IsPrefix(r + SEPARATOR, title)
      && (forall j :: 0 <= j < |r| ==> !SeparatorAt(title, j))
      && !HasSeparator(r)
  {
    if HasSeparator(title) then
      var r := BeforeSeparator(title);
      assert (r + SEPARATOR) == title[..|r| + 3];
      assert !HasSeparator(r) by {
        forall j | 0 <= j <= |r| - 3 ensures !SeparatorAt(r, j) {
          assert !SeparatorAt(title, j);
        }
      }
      r
    else
      title
  }

  /** ShortTitle is determined by the rule: any prefix of the title that is followed
      by a separator, with no separator beginning before its end, is the stored title. */
  lemma ShortTitleIsFirstSplit(title: string, p: string)
    requires IsPrefix(p + SEPARATOR, title)
    requires forall j :: 0 <= j < |p| ==> !SeparatorAt(title, j)
    ensures ShortTitle(title) == p
  {
    assert title[..|p| + 3] == p + SEPARATOR;
    assert SeparatorAt(title, |p|);
    var r := ShortTitle(title);
    assert title[..|r|] == r && title[..|p|] == p;
    assert SeparatorAt(title, |r|);
  }

  lemma ShortTitleExamples()
    ensures ShortTitle("Foo - Bar") == "Foo"
    ensures ShortTitle("Foo - Bar - Baz") == "Foo"
    ensures ShortTitle("Foo") == "Foo"
  {
    assert forall j :: 0 <= j < 3 ==> !SeparatorAt("Foo - Bar", j) && !SeparatorAt("Foo - Bar - Baz", j);
    ShortTitleIsFirstSplit("Foo - Bar", "Foo");
    ShortTitleIsFirstSplit("Foo - Bar - Baz", "Foo");
    assert !SeparatorAt("Foo", 0);
  }

  // --- Entries to headline records ---

  /** The record one entry is stored as: the title cut where its first separator
      begins (ShortTitleIsFirstSplit: no other title meets these clauses), the
      link, and the published date or "" when the entry has none. */
  function ItemOf(e: Entry): (r: NewsItem)
    ensures !HasSeparator(e.title) ==> r.title == e.title
    ensures HasSeparator(e.title) ==>
      && IsPrefix(r.title + SEPARATOR, e.title)
      && (forall j :: 0 <= j < |r.title| ==> !SeparatorAt(e.title, j))
      && !HasSeparator(r.title)
    ensures r.link == e.link
    ensures e.published.Some? ==> r.published == e.published.value
    ensures e.published.None? ==> r.published == ""
  {
    NewsItem(ShortTitle(e.title), e.link, e.published.GetOr(""))
  }

  /** The records of entries, one per entry, in feed order. */
  function Items(entries: seq<Entry>): (r: seq<NewsItem>)
    ensures |r| == |entries|
    ensures forall i :: 0 <= i < |entries| ==> r[i] == ItemOf(entries[i])
  {
    if entries == [] then [] else [ItemOf(entries[0])] + Items(entries[1..])
  }

  function Min(a: int, b: int): int { if a <= b then a else b }

  /** Python's slice s[:k]: the first k elements for k >= 0 (all of s when k >= |s|);
      for negative k, all but the last -k elements (none when -k >= |s|). */
  function SliceTo<T>(s: seq<T>, k: int): (r: seq<T>)
    ensures k >= 0 ==> |r| == Min(|s|, k)
    ensures k < 0 ==> |r| == (if -k <= |s| then |s| + k else 0)
    ensures r == s[..|r|]
  {
    if k >= 0 then
      (if k <= |s| then s[..k] else s)
    else if -k <= |s| then
      s[..|s| + k]
    else
      []
  }

  /** The headline list a fetch stores for the parsed entries: the first max_items
      entries, each shaped by ItemOf, in feed order. */
  function Headlines(entries: seq<Entry>, maxItems: int): (r: seq<NewsItem>)
    ensures maxItems >= 0 ==> |r| == Min(|entries|, maxItems)
    ensures |r| <= |entries|
    ensures forall i :: 0 <= i < |r| ==>
      && r[i].title == ShortTitle(entries[i].title)
      && r[i].link == entries[i].link
      && r[i].published == (if entries[i].published.Some? then entries[i].published.value else "")
  {
    Items(SliceTo(entries, maxItems))
  }

  // --- Numbers and messages ---

  function DigitChar(d: nat): char
    requires d < 10
  {
    "0123456789"[d]
  }

  /** Python's str(n) for n >= 0: the shortest decimal numeral for n. */
  function DecimalString(n: nat): (s: string)
    ensures 1 <= |s|
    ensures forall i :: 0 <= i < |s| ==> '0' <= s[i] <= '9'
    ensures |s| > 1 ==> s[0] != '0'
  {
    if n < 10 then [DigitChar(n)] else DecimalString(n / 10) + [DigitChar(n % 10)]
  }

  /** The number a decimal numeral denotes. */
  function DecimalValue(s: string): nat
    requires forall i :: 0 <= i < |s| ==> '0' <= s[i] <= '9'
  {
    if s == [] then 0 else 10 * DecimalValue(s[..|s| - 1]) + (s[|s| - 1] as int - '0' as int)
  }

  lemma {:induction false} DecimalRoundTrip(n: nat)
    ensures DecimalValue(DecimalString(n)) == n
  {
    var s := DecimalString(n);
    if n >= 10 {
      DecimalRoundTrip(n / 10);
      assert s[..|s| - 1] == DecimalString(n / 10);
    }
  }

  /** The message read out for the headline at 1-based position number: the prefix,
      the decimal numeral of number (which DecimalRoundTrip reads back as number),
      then ": " and the title. The length leaves nothing else. */
  function HeadlineMessage(number: nat, title: string): (m: string)
    ensures |m| == |HEADLINE_PREFIX| + |DecimalString(number)| + 2 + |title|
    ensures IsPrefix(HEADLINE_PREFIX, m) && IsSuffix(": " + title, m)
    ensures m[|HEADLINE_PREFIX|..|HEADLINE_PREFIX| + |DecimalString(number)|] == DecimalString(number)
  {
    assert HEADLINE_PREFIX + DecimalString(number) + ": " + title
        == HEADLINE_PREFIX + (DecimalString(number) + (": " + title));
    HEADLINE_PREFIX + DecimalString(number) + ": " + title
  }

  /** The headline messages for items from position index on, in order. */
  function MessagesFrom(items: seq<NewsItem>, index: nat): (ms: seq<string>)
    ensures |ms| == (if index < |items| then |items| - index else 0)
    ensures forall k :: 0 <= k < |ms| ==> ms[k] == HeadlineMessage(index + k + 1, items[index + k].title)
    decreases |items| - index
  {
    if index < |items| then
      [HeadlineMessage(index + 1, items[index].title)] + MessagesFrom(items, index + 1)
    else
      []
  }

  // --- The cursor ---

  /** What read_next_news does: the new cursor, the message spoken and the result. */
  datatype Reading = Reading(index: nat, message: string, ok: bool)

  function ReadNext(items: seq<NewsItem>, index: nat): (r: Reading)
    ensures r.ok == (index < |items|)
    ensures r.ok ==> r.index == index + 1 && r.message == HeadlineMessage(index + 1, items[index].title)
    ensures !r.ok ==> r.index == 0 && r.message == END_MESSAGE
  {
    if index < |items| then
      Reading(index + 1, HeadlineMessage(index + 1, items[index].title), true)
    else
      Reading(0, END_MESSAGE, false)
  }

  /** What one step of read_all_news does: the new cursor, the messages spoken and
      whether a further step is scheduled. */
  datatype ReadAllOutcome = ReadAllOutcome(index: nat, spoken: seq<string>, again: bool)

  function ReadAllStep(items: seq<NewsItem>, index: nat): (r: ReadAllOutcome)
    ensures r.again == (index < |items|)
    ensures r.again ==> r.index == index + 1 && r.spoken == [HeadlineMessage(index + 1, items[index].title)]
    ensures !r.again ==> r.index == 0 && r.spoken == []
  {
    if index < |items| then
      var reading := ReadNext(items, index);
      ReadAllOutcome(reading.index, [reading.message], true)
    else
      ReadAllOutcome(0, [], false)
  }

  /** What a whole read_all_news chain does: the final cursor, the messages spoken and
      the number of steps run. */
  datatype ReadAllRun = ReadAllRun(cursor: nat, spoken: seq<string>, steps: nat)

  /** The whole self-rescheduling chain started by read_all_news at cursor index: one
      step, and, when that step schedules another, the rest of the chain. It returns
      the final cursor, the messages spoken and the number of steps run: from any
      cursor the chain speaks every headline from there on, in order, and no
      completion message, and ends at cursor 0; from cursor 0 with n headlines it
      runs n + 1 steps. */
  function ReadAllChain(items: seq<NewsItem>, index: nat): (r: ReadAllRun)
    ensures r.cursor == 0
    ensures r.spoken == MessagesFrom(items, index)
    ensures r.steps == (if index < |items| then |items| - index + 1 else 1)
    decreases |items| - index
  {
    var step := ReadAllStep(items, index);
    if step.again then
      var rest := ReadAllChain(items, step.index);
      ReadAllRun(rest.cursor, step.spoken + rest.spoken, rest.steps + 1)
    else
      ReadAllRun(step.index, step.spoken, 1)
  }

  /** k calls of read_next_news from cursor index. */
  function ReadNextCalls(items: seq<NewsItem>, index: nat, k: nat): (nat, seq<string>)
    decreases k
  {
    if k == 0 then (index, [])
    else
      var reading := ReadNext(items, index);
      var rest := ReadNextCalls(items, reading.index, k - 1);
      (rest.0, [reading.message] + rest.1)
  }

  /** From cursor 0 with n headlines, n + 1 calls of read_next_news speak the n
      headline messages in order followed by the completion message, and leave the
      cursor at 0. */
  lemma {:induction false} ReadNextPass(items: seq<NewsItem>, index: nat)
    requires index <= |items|
    ensures ReadNextCalls(items, index, |items| - index + 1) == (0, MessagesFrom(items, index) + [END_MESSAGE])
    decreases |items| - index
  {
    if index < |items| {
      ReadNextPass(items, index + 1);
      var m := HeadlineMessage(index + 1, items[index].title);
      assert MessagesFrom(items, index) + [END_MESSAGE] == [m] + (MessagesFrom(items, index + 1) + [END_MESSAGE]);
    } else {
      assert MessagesFrom(items, index) + [END_MESSAGE] == [END_MESSAGE] + [];
    }
  }
}
