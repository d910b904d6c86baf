/** The player hook of scripts/content.js (`hookIntoPlayer`): the closure
    state `previousTime` / `previousQueueProgress` and the `updateProgress`
    routine that both the media element's `timeupdate` listener and the queue
    panel's mutation observer call. Which of the two called it is an explicit
    event; the time read by getCurrentTime and the queue items are inputs of
    the update; the render is its output. */
module Hook {
  import opened Text
  import opened Queue
  import opened Display

  datatype Event = TimeUpdate | Mutation

  /** What one update writes into the progress element: nothing, or a
      progress written as ProgressText. An update also writes nothing when the
      queue panel is gone, because looking up the progress element inside the
      missing panel fails before anything is written or stored. */
  datatype Render = NoRender | Shown(progress: Progress, text: string)

  /** The number of songs a fresh getQueueProgress call returns. */
  function SongCount(queue: Option<seq<QueueItem>>): (count: nat) {
    match queue
    case None => 0
    case Some(items) => |items|
  }

  class ProgressHook {
    var previousTime: nat
    var previousQueueProgress: Progress

    /** The stored progress is one that getQueueProgress returned for a queue
        panel at the stored time: its total is the sum over its songs, and its
        elapsed time is counted from that time. The initial state meets this
        with no songs. */
    ghost predicate Valid()
      reads this
    {
      && previousQueueProgress.totalTime == Total(previousQueueProgress.songs)
      && previousQueueProgress.elapsedTime == previousTime + ElapsedBefore(previousQueueProgress.songs)
    }

    /** The state `hookIntoPlayer` starts from. */
    constructor ()
      ensures Valid()
      ensures previousTime == 0 && previousQueueProgress == EmptyProgress
    {
      previousTime := 0;
      previousQueueProgress := EmptyProgress;
    }

    /** `updateProgress`: a time update at the stored time renders nothing; a
        missing queue panel renders nothing either, since showing any progress
        needs the panel, and the state is kept; a mutation that leaves the song
        count unchanged re-renders the stored progress; anything else renders
        the fresh progress and stores it with the time it was computed at. */
    method Update(event: Event, currentTime: nat, queue: Option<seq<QueueItem>>) returns (r: Render)
      requires Valid()
      requires queue.Some? ==> AllLabelsParse(queue.value)
      modifies this
      ensures Valid()
      ensures event == TimeUpdate && currentTime == old(previousTime) ==>
        && r == NoRender
        && previousTime == old(previousTime) && previousQueueProgress == old(previousQueueProgress)
      ensures queue.None? ==>
        && r == NoRender
        && previousTime == old(previousTime) && previousQueueProgress == old(previousQueueProgress)
      ensures event == Mutation && queue.Some? && |old(previousQueueProgress).songs| == SongCount(queue) ==>
        && r == Shown(old(previousQueueProgress), ProgressText(old(previousQueueProgress)))
        && previousTime == old(previousTime) && previousQueueProgress == old(previousQueueProgress)
      ensures queue.Some? &&
              !(event == TimeUpdate && currentTime == old(previousTime)) &&
              !(event == Mutation && |old(previousQueueProgress).songs| == SongCount(queue)) ==>
        && IsProgressOf(previousQueueProgress, queue, currentTime)
        && previousTime == currentTime
        && r == Shown(previousQueueProgress, ProgressText(previousQueueProgress))
      ensures event == Mutation && queue.Some? ==> r != NoRender
    {
      if event == TimeUpdate && currentTime == previousTime {
        return NoRender;
      }

      var queueProgress := GetQueueProgress(queue, currentTime);

      if event == Mutation && |previousQueueProgress.songs| == |queueProgress.songs| {
        if queue.None? {
          // Showing the stored progress fails on the missing panel.
          return NoRender;
        }
        return Shown(previousQueueProgress, ProgressText(previousQueueProgress));
      }

      if queue.None? {
        // Showing the fresh progress fails on the missing panel, before the store.
        return NoRender;
      }

      r := Shown(queueProgress, ProgressText(queueProgress));

      previousTime := currentTime;
      previousQueueProgress := queueProgress;
    }
  }

  /** Whatever the hook has stored, its elapsed time does not run past the
      stored time plus the whole queue. */
  lemma StoredElapsedBounded(hook: ProgressHook)
    requires hook.Valid()
    ensures hook.previousQueueProgress.elapsedTime
            <= hook.previousTime + hook.previousQueueProgress.totalTime
  {
    ElapsedAtMostTotal(hook.previousQueueProgress.songs);
  }

  /** Two time updates in a row that report the same position: the second one
      renders nothing, whatever the first one did. */
  method RepeatedTick(hook: ProgressHook, currentTime: nat, queue: Option<seq<QueueItem>>)
      returns (first: Render, second: Render)
    requires hook.Valid()
    requires queue.Some? ==> AllLabelsParse(queue.value)
    modifies hook
    ensures hook.Valid()
    ensures second == NoRender
  {
    first := hook.Update(TimeUpdate, currentTime, queue);
    second := hook.Update(TimeUpdate, currentTime, queue);
  }
}
