/** The attempt log as a job's whole story: replaying it gives the job's state. */
module JobLog {
  import opened Common
  import opened JobModel

  /** A log that no sequence of attempts can write is broken. */
  datatype LogState = Broken | State(status: Status, attempts: nat, worker: Option<Id>)

  function After(s: LogState, e: Event): LogState {
    match s
    case Broken => Broken
    case State(status, attempts, worker) =>
      match e
      case Started(k, w) => if status == Queued && k == attempts + 1 then State(Processing, k, Some(w)) else Broken
      case Retried(k, w) =>
        if status == Processing && k == attempts && worker == Some(w) then State(Queued, k, None) else Broken
      case GaveUp(k, w) =>
        if status == Processing && k == attempts && worker == Some(w) then State(Failed, k, None) else Broken
      case Delivered(k, w) =>
        if status == Processing && k == attempts && worker == Some(w) then State(Completed, k, None) else Broken
      case Recovered(k, _) => if status == Processing && k == attempts then State(Queued, k, None) else Broken
  }

  function Replay(log: seq<Event>): LogState {
    if log == [] then State(Queued, 0, None) else After(Replay(log[..|log| - 1]), log[|log| - 1])
  }

  lemma ReplayAppends(log: seq<Event>, e: Event)
    ensures Replay(log + [e]) == After(Replay(log), e)
  {
    assert (log + [e])[..|log|] == log;
  }

  function StateOf(job: Job): LogState {
    State(job.status, job.attempts, job.worker)
  }

  predicate ClosesFor(closing: Event, started: Event) {
    && started.Started? && !closing.Started? && closing.attempt == started.attempt
    && (!closing.Recovered? ==> closing.worker == started.worker)
  }

  predicate IsFinal(e: Event) {
    e.GaveUp? || e.Delivered?
  }

  /**
   Attempts 1, 2, 3 and so on, each started once and each but possibly the last closed
   once, by its own worker or by recovery; nothing follows a final close.
   */
  predicate IsStory(log: seq<Event>) {
    && (forall i | 0 <= i < |log| && i % 2 == 0 :: log[i].Started? && log[i].attempt == i / 2 + 1)
    && (forall i | 0 < i < |log| && i % 2 == 1 :: ClosesFor(log[i], log[i - 1]))
    && (forall i | 0 <= i < |log| - 1 :: !IsFinal(log[i]))
  }

  /** The status the last event leaves behind. */
  function Ending(log: seq<Event>): Status {
    if log == [] then Queued
    else match log[|log| - 1]
      case Started(_, _) => Processing
      case GaveUp(_, _) => Failed
      case Delivered(_, _) => Completed
      case _ => Queued
  }

  function StoryWorker(log: seq<Event>): Option<Id> {
    if log != [] && log[|log| - 1].Started? then Some(log[|log| - 1].worker) else None
  }

  /** Exactly the stories can be replayed, and the state they lead to can be read off their end. */
  lemma {:induction false} ReplayedIsStory(log: seq<Event>)
    ensures Replay(log).State? <==> IsStory(log)
    ensures IsStory(log) ==> Replay(log) == State(Ending(log), (|log| + 1) / 2, StoryWorker(log))
  {
    if log != [] {
      var earlier := log[..|log| - 1];
      ReplayedIsStory(earlier);
      assert log == earlier + [log[|log| - 1]];
      if IsStory(earlier) {
        StoryContinues(earlier, log[|log| - 1]);
      } else {
        BrokenStays(log);
      }
    }
  }

  lemma StoryContinues(earlier: seq<Event>, e: Event)
    requires IsStory(earlier) && Replay(earlier) == State(Ending(earlier), (|earlier| + 1) / 2, StoryWorker(earlier))
    ensures var log := earlier + [e];
            && (Replay(log).State? <==> IsStory(log))
            && (IsStory(log) ==> Replay(log) == State(Ending(log), (|log| + 1) / 2, StoryWorker(log)))
  {
    ReplayAppends(earlier, e);
    LongerStory(earlier, e);
    LastDecides(earlier);
  }

  lemma LastDecides(log: seq<Event>)
    requires IsStory(log)
    ensures |log| % 2 == 1 <==> Ending(log) == Processing
    ensures |log| % 2 == 1 ==>
              StoryWorker(log) == Some(log[|log| - 1].worker) && log[|log| - 1].attempt == (|log| + 1) / 2
    ensures |log| % 2 == 0 ==> (Ending(log) == Queued <==> (log != [] ==> !IsFinal(log[|log| - 1])))
  {
    if |log| % 2 == 1 { assert log[|log| - 1].Started?; }
    else if log != [] { assert ClosesFor(log[|log| - 1], log[|log| - 2]); }
  }

  lemma BrokenStays(log: seq<Event>)
    requires log != [] && !IsStory(log[..|log| - 1])
    ensures !IsStory(log)
  {
    var earlier := log[..|log| - 1];
    if IsStory(log) {
      forall i | 0 <= i < |earlier| ensures earlier[i] == log[i] {}
      assert IsStory(earlier);
    }
  }

  /** An event continues a story exactly when it is the next start after an open end, or closes the last start. */
  lemma LongerStory(earlier: seq<Event>, e: Event)
    requires IsStory(earlier)
    ensures IsStory(earlier + [e]) <==>
            if |earlier| % 2 == 0 then (earlier != [] ==> !IsFinal(earlier[|earlier| - 1])) && e.Started?
                && e.attempt == |earlier| / 2 + 1
            else ClosesFor(e, earlier[|earlier| - 1])
  {
    var log := earlier + [e];
    assert forall i | 0 <= i < |earlier| :: log[i] == earlier[i];
    if |earlier| % 2 == 0 {
      EvenContinuation(earlier, e);
    } else {
      OddContinuation(earlier, e);
    }
  }

  lemma EvenContinuation(earlier: seq<Event>, e: Event)
    requires IsStory(earlier) && |earlier| % 2 == 0
    ensures IsStory(earlier + [e]) <==>
            (earlier != [] ==> !IsFinal(earlier[|earlier| - 1])) && e.Started? && e.attempt == |earlier| / 2 + 1
  {
    var log := earlier + [e];
    assert log[|earlier|] == e;
    assert earlier != [] ==> log[|earlier| - 1] == earlier[|earlier| - 1];
  }

  lemma OddContinuation(earlier: seq<Event>, e: Event)
    requires IsStory(earlier) && |earlier| % 2 == 1
    ensures IsStory(earlier + [e]) <==> ClosesFor(e, earlier[|earlier| - 1])
  {
    var log := earlier + [e];
    assert log[|earlier|] == e && log[|earlier| - 1] == earlier[|earlier| - 1];
    assert earlier[|earlier| - 1].Started?;
  }
}
