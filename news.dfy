/** The news reader: the headline list and the read-out cursor, updated in place. It
    speaks by calling the avatar's speak, which appends to the avatar's queue. */
module News {
  import opened Wrappers
  import opened NewsFeed
  import AvatarMachine
  import Avatar

  class NewsReader {
    const avatar: Avatar.M5StackAvatar
    var newsIndex: nat
    var newsItems: seq<NewsItem>

    constructor (avatar: Avatar.M5StackAvatar)
      ensures this.avatar == avatar && newsIndex == 0 && newsItems == []
    {
      this.avatar := avatar;
      newsIndex := 0;
      newsItems := [];
    }

    /** Fetches the feed for topic and lang (by default the Japanese default feed, at
        most 10 headlines) through parse (None: the fetch or the parse
        raised) and rebuilds the headline list from its first maxItems entries. On
        failure nothing changes and the result is false; otherwise the result says
        whether any headline was stored. The cursor is never touched. */
    method FetchGoogleNews(parse: string -> Option<seq<Entry>>, topic: string := DEFAULT_TOPIC,
                           lang: string := DEFAULT_LANG, maxItems: int := DEFAULT_MAX_ITEMS)
      returns (ok: bool)
      modifies this
      ensures newsIndex == old(newsIndex)
      ensures parse(FeedUrl(topic, lang)).None? ==> !ok && newsItems == old(newsItems)
      ensures parse(FeedUrl(topic, lang)).Some? ==>
        && newsItems == Headlines(parse(FeedUrl(topic, lang)).value, maxItems)
        && ok == (|newsItems| > 0)
    {
      var url := FeedUrl(topic, lang);
      var feed := parse(url);
      if feed.None? {
        return false;
      }
      newsItems := [];
      var entries := SliceTo(feed.value, maxItems);
      for i := 0 to |entries|
        invariant |newsItems| == i && newsIndex == old(newsIndex)
        invariant forall j :: 0 <= j < i ==> newsItems[j] == ItemOf(entries[j])
      {
        var entry := entries[i];
        var title := ShortTitle(entry.title);
        var item := NewsItem(title, entry.link, entry.published.GetOr(""));
        assert item == ItemOf(entry);
        newsItems := newsItems + [item];
      }
      assert newsItems == Items(entries);
      assert newsItems == Headlines(feed.value, maxItems);
      ok := |newsItems| > 0;
    }

    /** Speaks the headline at the cursor and advances it, answering true; past the end,
        speaks the completion message and resets the cursor, answering false. */
    method ReadNextNews() returns (ok: bool)
      modifies this, avatar
      ensures ok == (old(newsIndex) < |newsItems|)
      ensures newsItems == old(newsItems)
      ensures ok ==> newsIndex == old(newsIndex) + 1
      ensures !ok ==> newsIndex == 0
      ensures var r := ReadNext(old(newsItems), old(newsIndex));
        && newsIndex == r.index && ok == r.ok
        && avatar.State() == AvatarMachine.Speak(old(avatar.State()), r.message)
      ensures old(avatar.Valid()) ==> avatar.Valid()
    {
      if newsIndex < |newsItems| {
        var news := newsItems[newsIndex];
        avatar.Speak(HeadlineMessage(newsIndex + 1, news.title));
        newsIndex := newsIndex + 1;
        ok := true;
      } else {
        avatar.Speak(END_MESSAGE);
        newsIndex := 0;
        ok := false;
      }
    }

    /** One step of read_all_news: in bounds, speaks the next headline and schedules the
        next step after interval ms (8000 by default; the returned delay); out of bounds, only resets
        the cursor, speaking nothing and scheduling nothing. */
    method ReadAllNews(interval: int := DEFAULT_READ_INTERVAL_MS) returns (next: Option<int>)
      modifies this, avatar
      ensures newsItems == old(newsItems)
      ensures var r := ReadAllStep(old(newsItems), old(newsIndex));
        && newsIndex == r.index
        && next == (if r.again then Some(interval) else None)
        && avatar.State() == old(avatar.State()).(messageQueue := old(avatar.messageQueue) + r.spoken)
      ensures old(avatar.Valid()) ==> avatar.Valid()
    {
      if newsIndex < |newsItems| {
        var _ := ReadNextNews();
        next := Some(interval);
      } else {
        newsIndex := 0;
        next := None;
      }
    }

    method Reset()
      modifies this
      ensures newsIndex == 0 && newsItems == old(newsItems)
    {
      newsIndex := 0;
    }

    method GetNewsCount() returns (count: nat)
      ensures count == |newsItems|
    {
      count := |newsItems|;
    }
  }
}
