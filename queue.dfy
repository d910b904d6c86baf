/** The queue side of scripts/content.js: `parseQueue`, the aggregation loop of
    `getQueueProgress`, and the bootstrap test that waits for a non-empty
    queue. The page's queue panel is replaced by the sequence of matched queue
    items in document order, or None when the panel is absent. */
module Queue {
  import opened Text
  import opened Duration

  /** A matched queue item as parseQueue sees it: the text of its duration
      label and whether the item carries a `selected` attribute. */
  datatype QueueItem = QueueItem(durationText: string, selected: bool)

  /** `{duration, current}`, one per queue item. */
  datatype Song = Song(duration: nat, current: bool)

  /** `{songs, elapsedTime, totalTime}`, the result of getQueueProgress. */
  datatype Progress = Progress(songs: seq<Song>, elapsedTime: nat, totalTime: nat)

  /** What getQueueProgress returns when there is no queue panel; also the
      hook's initial progress. */
  const EmptyProgress := Progress([], 0, 0)

  predicate LabelParses(item: QueueItem) {
    ClockSeconds(item.durationText).Some?
  }

  predicate AllLabelsParse(items: seq<QueueItem>) {
    forall i :: 0 <= i < |items| ==> LabelParses(items[i])
  }

  // ---------------------------------------------------------------------------
  // Specification functions
  // ---------------------------------------------------------------------------

  /** The sum of the durations of `songs`. */
  function Total(songs: seq<Song>): (total: nat) {
    if songs == [] then 0 else Total(songs[..|songs| - 1]) + songs[|songs| - 1].duration
  }

  /** The position of the first song marked current, or |songs| when none is. */
  function FirstCurrent(songs: seq<Song>): (k: nat)
    ensures k <= |songs|
    ensures forall j :: 0 <= j < k ==> !songs[j].current
    ensures k < |songs| ==> songs[k].current
  {
    if songs == [] then 0
    else if songs[0].current then 0
    else 1 + FirstCurrent(songs[1..])
  }

  /** The durations of the songs strictly before the first current song. */
  function ElapsedBefore(songs: seq<Song>): (elapsed: nat) {
    Total(songs[..FirstCurrent(songs)])
  }

  // ---------------------------------------------------------------------------
  // parseQueue and getQueueProgress
  // ---------------------------------------------------------------------------

  /** `parseQueue`: one song per matched item, in document order; its duration
      is `minutes * 60 + seconds` of the label, and it is current exactly when
      the item is selected. */
  method ParseQueue(items: seq<QueueItem>) returns (songs: seq<Song>)
    requires AllLabelsParse(items)
    ensures |songs| == |items|
    ensures forall i :: 0 <= i < |items| ==>
      songs[i].duration == ClockSeconds(items[i].durationText).value && songs[i].current == items[i].selected
  {
    songs := [];
    for i := 0 to |items|
      invariant |songs| == i
      invariant forall j :: 0 <= j < i ==>
        songs[j].duration == ClockSeconds(items[j].durationText).value && songs[j].current == items[j].selected
    {
      var minutesSeconds := ClockSeconds(items[i].durationText);
      songs := songs + [Song(minutesSeconds.value, items[i].selected)];
    }
  }

  /** What `getQueueProgress(currentTime)` returns for `queue`: without a
      queue panel, the empty progress; otherwise the parsed songs, unchanged,
      their total duration, and the elapsed time made of the current position
      plus the durations before the first current song. */
  ghost predicate IsProgressOf(p: Progress, queue: Option<seq<QueueItem>>, currentTime: nat)
    requires queue.Some? ==> AllLabelsParse(queue.value)
  {
    match queue
    case None => p == EmptyProgress
    case Some(items) =>
      && |p.songs| == |items|
      && (forall i :: 0 <= i < |items| ==>
            p.songs[i].duration == ClockSeconds(items[i].durationText).value &&
            p.songs[i].current == items[i].selected)
      && p.totalTime == Total(p.songs)
      && p.elapsedTime == currentTime + ElapsedBefore(p.songs)
  }

  /** `getQueueProgress(currentTime)`: one pass over the parsed songs that
      accumulates the total and, until the first current song, the elapsed time. */
  method GetQueueProgress(queue: Option<seq<QueueItem>>, currentTime: nat) returns (p: Progress)
    requires queue.Some? ==> AllLabelsParse(queue.value)
    ensures IsProgressOf(p, queue, currentTime)
  {
    if queue.None? {
      return EmptyProgress;
    }
    var songs := ParseQueue(queue.value);

    var elapsedTime := currentTime;
    var totalTime := 0;
    var selectedFound := false;

    for i := 0 to |songs|
      invariant selectedFound <==> FirstCurrent(songs) < i
      invariant totalTime == Total(songs[..i])
      invariant elapsedTime == currentTime + Total(songs[..if selectedFound then FirstCurrent(songs) else i])
    {
      TotalExtend(songs, i);
      if songs[i].current {
        selectedFound := true;
      }
      if !selectedFound {
        elapsedTime := elapsedTime + songs[i].duration;
      }
      totalTime := totalTime + songs[i].duration;
    }
    assert songs[..|songs|] == songs;
    p := Progress(songs, elapsedTime, totalTime);
    assert p.totalTime == Total(p.songs);
    assert p.elapsedTime == currentTime + ElapsedBefore(p.songs);
  }

  /** The bootstrap watcher's test, whether getQueueProgress at position 0
      has a non-zero total: the hook is installed once the queue panel exists
      and some song has a non-zero duration. */
  method ReadyToHook(queue: Option<seq<QueueItem>>) returns (ready: bool)
    requires queue.Some? ==> AllLabelsParse(queue.value)
    ensures ready <==> (queue.Some? &&
      exists i :: 0 <= i < |queue.value| && ClockSeconds(queue.value[i].durationText).value > 0)
  {
    var p := GetQueueProgress(queue, 0);
    ready := p.totalTime != 0;
    assert p.totalTime == Total(p.songs);
    if queue.Some? {
      TotalZero(p.songs);
      if ready {
        var i :| 0 <= i < |p.songs| && p.songs[i].duration > 0;
        assert ClockSeconds(queue.value[i].durationText).value > 0;
      }
    }
  }

  // ---------------------------------------------------------------------------
  // Properties of the aggregation
  // ---------------------------------------------------------------------------

  lemma TotalExtend(songs: seq<Song>, i: nat)
    requires i < |songs|
    ensures Total(songs[..i + 1]) == Total(songs[..i]) + songs[i].duration
  {
    assert songs[..i + 1][..i] == songs[..i];
  }

  lemma {:induction false} TotalAppend(a: seq<Song>, b: seq<Song>)
    ensures Total(a + b) == Total(a) + Total(b)
  {
    if b == [] {
      assert a + b == a;
    } else {
      var b' := b[..|b| - 1];
      TotalAppend(a, b');
      assert (a + b)[..|a + b| - 1] == a + b';
    }
  }

  /** A total is zero exactly when every duration is zero. */
  lemma {:induction false} TotalZero(songs: seq<Song>)
    ensures Total(songs) == 0 <==> forall i :: 0 <= i < |songs| ==> songs[i].duration == 0
  {
    if songs != [] {
      var init := songs[..|songs| - 1];
      TotalZero(init);
      assert forall i :: 0 <= i < |init| ==> init[i] == songs[i];
    }
  }

  /** A prefix never lasts longer than the whole queue. */
  lemma TotalPrefixAtMost(songs: seq<Song>, k: nat)
    requires k <= |songs|
    ensures Total(songs[..k]) <= Total(songs)
  {
    TotalAppend(songs[..k], songs[k..]);
    assert songs[..k] + songs[k..] == songs;
  }

  /** The elapsed time never runs past the end of the queue:
      `elapsedTime - currentTime <= totalTime`. */
  lemma ElapsedAtMostTotal(songs: seq<Song>)
    ensures ElapsedBefore(songs) <= Total(songs)
  {
    TotalPrefixAtMost(songs, FirstCurrent(songs));
  }

  /** With no song marked current, every duration counts as elapsed. */
  lemma NoCurrentSong(songs: seq<Song>)
    requires forall i :: 0 <= i < |songs| ==> !songs[i].current
    ensures ElapsedBefore(songs) == Total(songs)
  {
    assert songs[..|songs|] == songs;
  }

  /** While the position stays within the current song, the elapsed time
      does not exceed the total. */
  lemma ElapsedWithinQueue(songs: seq<Song>, currentTime: nat)
    requires FirstCurrent(songs) < |songs|
    requires currentTime <= songs[FirstCurrent(songs)].duration
    ensures currentTime + ElapsedBefore(songs) <= Total(songs)
  {
    var k := FirstCurrent(songs);
    TotalExtend(songs, k);
    TotalPrefixAtMost(songs, k + 1);
  }

  /** A current song with no current song before it is the first current song. */
  lemma FirstCurrentAt(songs: seq<Song>, k: nat)
    requires k < |songs| && songs[k].current
    requires forall j :: 0 <= j < k ==> !songs[j].current
    ensures FirstCurrent(songs) == k
  {
  }

  /** The elapsed time counts the songs before the first current one and
      nothing else: not the current song, not the songs after it, and not any
      later current flags. */
  lemma ElapsedStopsAtCurrent(before: seq<Song>, current: Song, after: seq<Song>)
    requires forall i :: 0 <= i < |before| ==> !before[i].current
    requires current.current
    ensures ElapsedBefore(before + [current] + after) == Total(before)
  {
    var songs := before + [current] + after;
    assert songs[..|before|] == before;
    assert songs[|before|] == current;
    assert forall j :: 0 <= j < |before| ==> songs[j] == before[j];
    FirstCurrentAt(songs, |before|);
  }

  /** Durations 30, 45 and 20 with the second song current: 30 seconds lie
      before it out of 95 in all. */
  lemma QueueExample()
    ensures var songs := [Song(30, false), Song(45, true), Song(20, false)];
      ElapsedBefore(songs) == 30 && Total(songs) == 95
  {
    var songs := [Song(30, false), Song(45, true), Song(20, false)];
    ElapsedStopsAtCurrent([Song(30, false)], Song(45, true), [Song(20, false)]);
    assert songs == [Song(30, false)] + [Song(45, true)] + [Song(20, false)];
    assert songs[..2] == [Song(30, false), Song(45, true)];
    assert songs[..2][..1] == [Song(30, false)];
    assert songs[..1] == [Song(30, false)];
    assert [Song(30, false)][..0] == [];
  }

  /** The same queue read from its labels: whatever three labels read as
      30, 45 and 20 seconds (such as "0:30", "0:45" and "0:20"), at position 10
      of the second song 40 seconds of 95 have elapsed. */
  method QueueProgressExample(first: string, second: string, third: string) returns (p: Progress)
    requires ClockSeconds(first) == Some(30)
    requires ClockSeconds(second) == Some(45)
    requires ClockSeconds(third) == Some(20)
    ensures p.elapsedTime == 40 && p.totalTime == 95
  {
    var items := [QueueItem(first, false), QueueItem(second, true), QueueItem(third, false)];
    forall i | 0 <= i < |items| ensures LabelParses(items[i]) {
      assert i == 0 || i == 1 || i == 2;
    }
    p := GetQueueProgress(Some(items), 10);
    assert p.songs[0] == Song(30, false);
    assert p.songs[1] == Song(45, true);
    assert p.songs[2] == Song(20, false);
    assert p.songs == [Song(30, false), Song(45, true), Song(20, false)];
    QueueExample();
  }
}
