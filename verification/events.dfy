/**
 * The quit decision of the viewer's event loop. SDL's event queue is an
 * explicit sequence of events, consumed front to back; a poll stops at the
 * first window-close or key-press event and otherwise drains the queue.
 */
module Events {

  /**
   * An SDL event as the viewer distinguishes it: only the event type
   * matters, and the key of a key press does not.
   */
  datatype Event =
    | Quit     // SDL_QUIT: the window was closed
    | KeyDown  // SDL_KEYDOWN, for any key
    | Other    // any event whose type is neither of those (key-up, mouse, window, ...)

  /** Whether an event ends the session: a quit event or a key press of any key. */
  predicate IsStop(e: Event) {
    e.Quit? || e.KeyDown?
  }

  predicate HasStop(queue: seq<Event>) {
    exists i :: 0 <= i < |queue| && IsStop(queue[i])
  }

  /** `i` is the position of the first stop event in `queue`. */
  predicate IsFirstStop(queue: seq<Event>, i: int) {
    0 <= i < |queue| && IsStop(queue[i]) && forall j :: 0 <= j < i ==> !IsStop(queue[j])
  }

  /** What one call of `eventHandle` returns, with the events it left in the queue. */
  datatype PollOutcome = PollOutcome(keepRunning: bool, rest: seq<Event>)

  /**
   * `eventHandle` over an explicit queue: it returns false as soon as it
   * takes a stop event off the queue, without taking any later event, and
   * returns true only after emptying a queue that held no stop event. The
   * events left untaken are determined by the first stop event.
   */
  function EventHandle(queue: seq<Event>): (r: PollOutcome)
    ensures r.keepRunning <==> !HasStop(queue)
    ensures r.keepRunning ==> r.rest == []
    ensures !r.keepRunning ==> exists i :: IsFirstStop(queue, i) && r.rest == queue[i + 1..]
    ensures !r.keepRunning ==> forall i :: IsFirstStop(queue, i) ==> r.rest == queue[i + 1..]
    decreases |queue|
  {
    if |queue| == 0 then
      PollOutcome(true, [])
    else if IsStop(queue[0]) then
      assert IsFirstStop(queue, 0);
      PollOutcome(false, queue[1..])
    else
      var r := EventHandle(queue[1..]);
      StopInTail(queue);
      if r.keepRunning then r
      else
        FirstStopInTail(queue, r.rest);
        r
  }

  /** Past a first event that is no stop event, the queue holds a stop event iff its tail does. */
  lemma StopInTail(queue: seq<Event>)
    requires |queue| > 0 && !IsStop(queue[0])
    ensures HasStop(queue) <==> HasStop(queue[1..])
  {
  }

  /** Past a first event that is no stop event, the first stop event of the tail is that of the queue. */
  lemma FirstStopInTail(queue: seq<Event>, rest: seq<Event>)
    requires |queue| > 0 && !IsStop(queue[0])
    requires exists i :: IsFirstStop(queue[1..], i) && rest == queue[1..][i + 1..]
    ensures exists i :: IsFirstStop(queue, i) && rest == queue[i + 1..]
  {
    var i :| IsFirstStop(queue[1..], i) && rest == queue[1..][i + 1..];
    assert queue[1..][i + 1..] == queue[i + 2..];
    assert forall j :: 1 <= j < i + 1 ==> queue[j] == queue[1..][j - 1];
    assert IsFirstStop(queue, i + 1);
  }

  /**
   * The `while (SDL_PollEvent(&event))` loop itself: events are taken one
   * at a time and the loop returns at the first stop event. It agrees with
   * `EventHandle` on every queue.
   */
  method PollEvents(queue: seq<Event>) returns (keepRunning: bool, rest: seq<Event>)
    ensures PollOutcome(keepRunning, rest) == EventHandle(queue)
    ensures keepRunning <==> !HasStop(queue)
  {
    rest := queue;
    while |rest| > 0
      invariant |rest| <= |queue| && rest == queue[|queue| - |rest|..]
      invariant EventHandle(rest) == EventHandle(queue)
      decreases |rest|
    {
      var event := rest[0];
      rest := rest[1..];
      if IsStop(event) {
        return false, rest;
      }
    }
    keepRunning := true;
  }

  /** Whether the viewer has called `SDL_Quit`, which it does exactly when `eventHandle` returns false. */
  datatype Stage = Ready | Closed

  /**
   * One call of `eventHandle` on a session: a stop event closes the
   * session; a session once closed stays closed.
   */
  function Step(stage: Stage, queue: seq<Event>): (r: (Stage, PollOutcome))
    ensures r.1 == EventHandle(queue)
    ensures r.0 == Closed <==> stage == Closed || HasStop(queue)
  {
    var o := EventHandle(queue);
    (if o.keepRunning then stage else Closed, o)
  }

  /** What the driver loop `while (viewer.eventHandle());` has done after some polls. */
  datatype LoopOutcome = LoopOutcome(stage: Stage, polls: nat)

  /**
   * The driver loop, given the queue each successive poll finds (a poll
   * that returns true has drained the queue, so each batch holds just the
   * events that arrived since the previous poll). It polls until a poll
   * returns false, which closes the session; if no batch holds a stop
   * event it is still Ready after polling them all.
   */
  function Drive(batches: seq<seq<Event>>): (r: LoopOutcome)
    ensures r.stage == Closed <==> exists k :: 0 <= k < |batches| && HasStop(batches[k])
    ensures r.stage == Closed ==> 1 <= r.polls <= |batches| && HasStop(batches[r.polls - 1])
    ensures r.stage == Closed ==> forall k :: 0 <= k < r.polls - 1 ==> !HasStop(batches[k])
    ensures r.stage == Ready ==> r.polls == |batches|
    decreases |batches|
  {
    if |batches| == 0 then
      LoopOutcome(Ready, 0)
    else
      var (stage, o) := Step(Ready, batches[0]);
      if !o.keepRunning then
        LoopOutcome(stage, 1)
      else
        var r := Drive(batches[1..]);
        assert forall k :: 1 <= k < |batches| ==> batches[1..][k - 1] == batches[k];
        LoopOutcome(r.stage, r.polls + 1)
  }

  /** Batches that follow the one holding the first stop event are never polled. */
  lemma {:induction false} DriveIgnoresLaterBatches(batches: seq<seq<Event>>, later: seq<seq<Event>>)
    requires exists k :: 0 <= k < |batches| && HasStop(batches[k])
    ensures Drive(batches + later) == Drive(batches)
    decreases |batches|
  {
    if !HasStop(batches[0]) {
      var k :| 0 <= k < |batches| && HasStop(batches[k]);
      assert k != 0 && HasStop(batches[1..][k - 1]);
      assert (batches + later)[1..] == batches[1..] + later;
      DriveIgnoresLaterBatches(batches[1..], later);
    }
  }
}
