/**
The invalidation pipeline of one session socket: data is written and its topic raised, reads sample the topic's revision
before they read, results and change notices share the coalescing queue, and the page keeps the newest revision it was
told of each topic. Every step is atomic; raising a topic releases its lock between the revision's advance and the
listeners, so those are two steps.
*/
module Invalidation {
  import opened Wrappers
  import opened Outbound

  type Topic = string
  type Change = nat
  type CallId = nat

  /** A server frame, as far as topics go; a read's result carries what the read saw. */
  datatype Frame =
    | ReadResult(topic: Topic, revision: nat, reflects: set<Change>)
    | Subscription(revisions: map<Topic, nat>)
    | Changed(topic: Topic, revision: nat)
    | Unrevised

  /** How far a call is: the revision taken, then the data read, then a reply ready to send. */
  datatype Call =
    | Sampled(topic: Topic, revision: nat)
    | Replying(frame: Frame)

  /**
  `written` is what each topic's data reflects now and `history` the changes whose revision was taken, in order; a
  change of `raised` has not reached the socket's listener yet. `known` and `results` are the page's.
  */
  datatype System = System(
    written: map<Topic, set<Change>>,
    history: map<Topic, seq<Change>>,
    raised: set<(Topic, nat)>,
    subscriptions: set<Topic>,
    queue: seq<Item<Frame>>,
    closed: bool,
    calls: map<CallId, Call>,
    known: map<Topic, nat>,
    results: seq<Frame>)

  predicate Initial(s: System) {
    s == System(map[], map[], {}, {}, [], false, map[], map[], [])
  }

  function Written(s: System, topic: Topic): set<Change> {
    if topic in s.written then s.written[topic] else {}
  }

  function History(s: System, topic: Topic): seq<Change> {
    if topic in s.history then s.history[topic] else []
  }

  /** The topic's revision: how many changes of it were raised. */
  function Revision(s: System, topic: Topic): nat {
    |History(s, topic)|
  }

  function Revisions(s: System, topics: set<Topic>): map<Topic, nat> {
    map topic | topic in topics :: Revision(s, topic)
  }

  function Known(s: System, topic: Topic): nat {
    if topic in s.known then s.known[topic] else 0
  }

  /** The revision of `topic` a frame tells the page. */
  function Announced(frame: Frame, topic: Topic): nat {
    match frame
    case Changed(changed, revision) => if changed == topic then revision else 0
    case Subscription(revisions) => if topic in revisions then revisions[topic] else 0
    case _ => 0
  }

  function Queued(s: System, frame: Frame): seq<Item<Frame>> {
    var topic := if frame.Changed? then Some(frame.topic) else None;
    if s.closed then s.queue else PutItem(s.queue, Item(frame, 0, topic))
  }

  datatype Step =
    | Write(topic: Topic, change: Change)
    | Raise(topic: Topic, change: Change)                    // the revision advances
    | Deliver(topic: Topic, revision: nat)                   // the socket's listener hears it
    | Sample(id: CallId, topic: Topic)
    | Read(id: CallId)
    | Reply(id: CallId, revised: bool)                       // only a success carries its revision
    | Resubscribe(id: CallId, subscriptions: set<Topic>)     // subscribe or unsubscribe
    | Take                                                   // the page receives the next frame
    | Close

  predicate Enabled(s: System, step: Step) {
    match step
    case Write(_, _) => true
    case Raise(topic, change) => change in Written(s, topic)
    case Deliver(topic, revision) => (topic, revision) in s.raised
    case Sample(id, _) => id !in s.calls
    case Read(id) => id in s.calls && s.calls[id].Sampled?
    case Reply(id, _) => id in s.calls && s.calls[id].Replying?
    case Resubscribe(id, _) => id !in s.calls
    case Take => s.queue != [] && !s.closed
    case Close => true
  }

  function After(s: System, step: Step): System
    requires Enabled(s, step)
  {
    match step
    case Write(topic, change) => s.(written := s.written[topic := Written(s, topic) + {change}])
    case Raise(topic, change) =>
      var history := History(s, topic) + [change];
      s.(history := s.history[topic := history], raised := s.raised + {(topic, |history|)})
    case Deliver(topic, revision) =>
      var queue := if topic in s.subscriptions then Queued(s, Changed(topic, revision)) else s.queue;
      s.(raised := s.raised - {(topic, revision)}, queue := queue)
    case Sample(id, topic) => s.(calls := s.calls[id := Sampled(topic, Revision(s, topic))])
    case Read(id) =>
      var Sampled(topic, revision) := s.calls[id];
      s.(calls := s.calls[id := Replying(ReadResult(topic, revision, Written(s, topic)))])
    case Reply(id, revised) =>
      var frame := s.calls[id].frame;
      s.(calls := s.calls - {id}, queue := Queued(s, if frame.ReadResult? && !revised then Unrevised else frame))
    case Resubscribe(id, subscriptions) =>
      var reply := Subscription(Revisions(s, subscriptions));
      s.(subscriptions := subscriptions, calls := s.calls[id := Replying(reply)])
    case Take =>
      var frame := s.queue[0].frame;
      var told := map topic | topic in s.known.Keys + Names(frame) :: Max(Known(s, topic), Announced(frame, topic));
      s.(queue := s.queue[1..], known := told, results := if frame.ReadResult? then s.results + [frame] else s.results)
    case Close => s.(closed := true)
  }

  function Max(a: nat, b: nat): nat {
    if a < b then b else a
  }

  function Names(frame: Frame): set<Topic> {
    match frame
    case Changed(topic, _) => {topic}
    case Subscription(revisions) => revisions.Keys
    case _ => {}
  }

  ghost predicate IsRun(states: seq<System>, steps: seq<Step>) {
    && |states| == |steps| + 1
    && Initial(states[0])
    && forall i | 0 <= i < |steps| ::
         Enabled(states[i], steps[i]) && states[i + 1] == After(states[i], steps[i])
  }

  // ---- What every step keeps ----

  /** The result reflects every change of its topic whose revision its own covers. */
  predicate Sound(s: System, frame: Frame) {
    frame.ReadResult? ==>
      && frame.revision <= Revision(s, frame.topic)
      && forall k | 0 <= k < frame.revision :: History(s, frame.topic)[k] in frame.reflects
  }

  /** What was raised is written: a change raises its topic only after its data is in place. */
  ghost predicate RaisedIsWritten(s: System) {
    forall topic, k | 0 <= k < Revision(s, topic) :: History(s, topic)[k] in Written(s, topic)
  }

  ghost predicate ResultsSound(s: System) {
    && (forall id <- s.calls :: s.calls[id].Sampled? ==> s.calls[id].revision <= Revision(s, s.calls[id].topic))
    && (forall id <- s.calls :: s.calls[id].Replying? ==> Sound(s, s.calls[id].frame))
    && (forall i | 0 <= i < |s.queue| :: Sound(s, s.queue[i].frame))
    && (forall i | 0 <= i < |s.results| :: Sound(s, s.results[i]))
  }

  lemma StepKeepsRaisedIsWritten(s: System, step: Step)
    requires RaisedIsWritten(s) && Enabled(s, step)
    ensures RaisedIsWritten(After(s, step))
  {
    var t := After(s, step);
    forall topic, k | 0 <= k < Revision(t, topic) ensures History(t, topic)[k] in Written(t, topic) {
      if k < Revision(s, topic) {
        assert History(t, topic)[k] == History(s, topic)[k];
      }
    }
  }

  /** A result stays sound as its topic goes on changing. */
  lemma StepKeepsSound(s: System, step: Step, frame: Frame)
    requires Sound(s, frame) && Enabled(s, step)
    ensures Sound(After(s, step), frame)
  {
    if frame.ReadResult? {
      var t := After(s, step);
      assert History(s, frame.topic) <= History(t, frame.topic);
    }
  }

  lemma StepKeepsResultsSound(s: System, step: Step)
    requires RaisedIsWritten(s) && ResultsSound(s) && Enabled(s, step)
    ensures ResultsSound(After(s, step))
  {
    var t := After(s, step);
    forall frame | Sound(s, frame) ensures Sound(t, frame) {
      StepKeepsSound(s, step, frame);
    }
    forall i | 0 <= i < |t.queue| ensures Sound(t, t.queue[i].frame) {
      assert Sound(s, t.queue[i].frame);
    }
    forall id | id in t.calls && t.calls[id].Replying? ensures Sound(t, t.calls[id].frame) {
      assert Sound(s, t.calls[id].frame);
    }
  }

  /** The page knows revision `k` of the topic, or a frame on its way tells it one no older. */
  ghost predicate Told(s: System, topic: Topic, k: nat) {
    || k <= Known(s, topic)
    || (exists i :: 0 <= i < |s.queue| && k <= Announced(s.queue[i].frame, topic))
    || (exists id :: id in s.calls && s.calls[id].Replying? && k <= Announced(s.calls[id].frame, topic))
  }

  /** Only notices are queued under a topic's name, and only its own. */
  ghost predicate UnderOwnName(s: System) {
    && (forall i | 0 <= i < |s.queue| ::
          s.queue[i].topic == if s.queue[i].frame.Changed? then Some(s.queue[i].frame.topic) else None)
    && (forall id <- s.calls :: s.calls[id].Replying? ==> !s.calls[id].frame.Changed?)
  }

  /** Only a topic's own notices are queued under its name, each of a revision that reached the listener. */
  ghost predicate WellFormed(s: System) {
    && UnderOwnName(s)
    && (forall topic, k | (topic, k) in s.raised :: 0 < k <= Revision(s, topic))
    && (forall i | 0 <= i < |s.queue| && s.queue[i].frame.Changed? :: HasArrived(s, s.queue[i].frame))
  }

  ghost predicate HasArrived(s: System, notice: Frame)
    requires notice.Changed?
  {
    0 < notice.revision <= Revision(s, notice.topic) && (notice.topic, notice.revision) !in s.raised
  }

  /** The topic's revision `k` reached the listener of a socket that subscribes to it. */
  ghost predicate Due(s: System, topic: Topic, k: nat) {
    topic in s.subscriptions && 0 < k <= Revision(s, topic) && (topic, k) !in s.raised
  }

  ghost predicate NothingLost(s: System) {
    s.closed || forall topic, k | Due(s, topic, k) :: Told(s, topic, k)
  }

  lemma StepKeepsWellFormed(s: System, step: Step)
    requires WellFormed(s) && Enabled(s, step)
    ensures WellFormed(After(s, step))
  {
    StepKeepsOwnName(s, step);
    StepKeepsArrived(s, step);
  }

  lemma StepKeepsOwnName(s: System, step: Step)
    requires UnderOwnName(s) && Enabled(s, step)
    ensures UnderOwnName(After(s, step))
  {
  }

  lemma StepKeepsArrived(s: System, step: Step)
    requires WellFormed(s) && Enabled(s, step)
    ensures var t := After(s, step);
      forall i | 0 <= i < |t.queue| && t.queue[i].frame.Changed? :: HasArrived(t, t.queue[i].frame)
  {
    var t := After(s, step);
    forall i | 0 <= i < |t.queue| && t.queue[i].frame.Changed? ensures HasArrived(t, t.queue[i].frame) {
      assert HasArrived(s, t.queue[i].frame) ||
             (step.Deliver? && t.queue[i].frame == Changed(step.topic, step.revision));
    }
  }

  /** A frame put on the queue never displaces another topic's notice or any reply. */
  lemma PutKeepsTold(s: System, frame: Frame, topic: Topic, k: nat, i: nat)
    requires WellFormed(s) && !s.closed && 0 < k
    requires i < |s.queue| && k <= Announced(s.queue[i].frame, topic)
    requires frame.Changed? ==> frame.topic != topic || k <= frame.revision
    ensures exists j :: 0 <= j < |Queued(s, frame)| && k <= Announced(Queued(s, frame)[j].frame, topic)
  {
    var queue := Queued(s, frame);
    var p := Position(s.queue, if frame.Changed? then Some(frame.topic) else None);
    assert queue[if p == i then p else i] == if p == i then Item(frame, 0, s.queue[p].topic) else s.queue[i];
    assert k <= Announced(queue[i].frame, topic);
  }

  /** The page knows revision `k` of the topic, or a frame other than the queue's `p`-th tells it one no older. */
  ghost predicate ToldBeside(s: System, topic: Topic, k: nat, p: nat) {
    || k <= Known(s, topic)
    || (exists i :: 0 <= i < |s.queue| && i != p && k <= Announced(s.queue[i].frame, topic))
    || (exists id :: id in s.calls && s.calls[id].Replying? && k <= Announced(s.calls[id].frame, topic))
  }

  /** A delivery replaces no queued notice of a newer revision, unless another frame tells the page that one. */
  ghost predicate Harmless(s: System, step: Step) {
    step.Deliver? && !s.closed && step.topic in s.subscriptions ==>
      var p := Position(s.queue, Some(step.topic));
      p < |s.queue| ==>
        var replaced := Announced(s.queue[p].frame, step.topic);
        replaced <= step.revision || ToldBeside(s, step.topic, replaced, p)
  }

  /** Beside the replaced notice a delivery leaves every frame, so what those tell stays told. */
  lemma DeliveryKeepsOthers(s: System, step: Step, topic: Topic, k: nat)
    requires step.Deliver? && Enabled(s, step) && !s.closed && step.topic in s.subscriptions
    requires ToldBeside(s, topic, k, Position(s.queue, Some(step.topic)))
    ensures Told(After(s, step), topic, k)
  {
    var t, p := After(s, step), Position(s.queue, Some(step.topic));
    if i :| 0 <= i < |s.queue| && i != p && k <= Announced(s.queue[i].frame, topic) {
      assert t.queue[i] == s.queue[i];
    } else if k > Known(s, topic) {
      var id :| id in s.calls && s.calls[id].Replying? && k <= Announced(s.calls[id].frame, topic);
      assert t.calls[id] == s.calls[id];
    }
  }

  lemma DeliverKeepsTold(s: System, step: Step, topic: Topic, k: nat)
    requires WellFormed(s) && NothingLost(s) && !s.closed && step.Deliver? && Enabled(s, step) && Harmless(s, step)
    requires Due(After(s, step), topic, k)
    ensures Told(After(s, step), topic, k)
  {
    var t := After(s, step);
    if step.topic !in s.subscriptions {
      assert Due(s, topic, k);
    } else {
      var p := Position(s.queue, Some(step.topic));
      assert t.queue[p].frame == Changed(step.topic, step.revision);
      if topic == step.topic && k <= step.revision {
        assert k <= Announced(t.queue[p].frame, topic);
      } else {
        assert Due(s, topic, k) && Told(s, topic, k);
        ReplacedIsToldBeside(s, step, topic, k);
        DeliveryKeepsOthers(s, step, topic, k);
      }
    }
  }

  /** What a harmless delivery's replaced notice told, another frame tells too, or the new notice does. */
  lemma ReplacedIsToldBeside(s: System, step: Step, topic: Topic, k: nat)
    requires WellFormed(s) && !s.closed && step.Deliver? && step.topic in s.subscriptions && Harmless(s, step)
    requires 0 < k && Told(s, topic, k) && (topic == step.topic ==> step.revision < k)
    ensures ToldBeside(s, topic, k, Position(s.queue, Some(step.topic)))
  {
    var p := Position(s.queue, Some(step.topic));
    if p < |s.queue| && k <= Announced(s.queue[p].frame, topic) {
      assert s.queue[p].frame.Changed? && topic == step.topic;
    }
  }

  /** A delivery that is not harmless loses the revision its replaced notice told. */
  lemma HarmfulDeliveryLoses(s: System, step: Step)
    requires WellFormed(s) && Enabled(s, step) && !Harmless(s, step)
    ensures !NothingLost(After(s, step))
  {
    var t, p := After(s, step), Position(s.queue, Some(step.topic));
    var replaced := Announced(s.queue[p].frame, step.topic);
    assert HasArrived(s, s.queue[p].frame) && Due(t, step.topic, replaced);
    assert t.queue == s.queue[p := Item(Changed(step.topic, step.revision), 0, Some(step.topic))];
    assert forall i | 0 <= i < |t.queue| && i != p :: t.queue[i] == s.queue[i];
    assert !Told(t, step.topic, replaced);
  }

  lemma ReplyKeepsTold(s: System, id: CallId, revised: bool, topic: Topic, k: nat)
    requires WellFormed(s) && !s.closed && Enabled(s, Reply(id, revised)) && 0 < k && Told(s, topic, k)
    ensures Told(After(s, Reply(id, revised)), topic, k)
  {
    var t := After(s, Reply(id, revised));
    var frame := s.calls[id].frame;
    var sent := if frame.ReadResult? && !revised then Unrevised else frame;
    if i :| 0 <= i < |s.queue| && k <= Announced(s.queue[i].frame, topic) {
      PutKeepsTold(s, sent, topic, k, i);
    } else if k <= Announced(frame, topic) {
      assert t.queue[|s.queue|].frame == sent;
    } else if k > Known(s, topic) {
      var other :| other in s.calls && s.calls[other].Replying? && k <= Announced(s.calls[other].frame, topic);
      assert t.calls[other] == s.calls[other];
    }
  }

  lemma TakeKeepsTold(s: System, topic: Topic, k: nat)
    requires Enabled(s, Take) && 0 < k && Told(s, topic, k)
    ensures Told(After(s, Take), topic, k)
  {
    var t := After(s, Take);
    if i :| 0 <= i < |s.queue| && k <= Announced(s.queue[i].frame, topic) {
      if 0 < i {
        assert t.queue[i - 1] == s.queue[i];
      }
    }
  }

  lemma StepKeepsTold(s: System, step: Step, topic: Topic, k: nat)
    requires WellFormed(s) && NothingLost(s) && Enabled(s, step) && Harmless(s, step)
    requires !After(s, step).closed && Due(After(s, step), topic, k)
    ensures Told(After(s, step), topic, k)
  {
    var t := After(s, step);
    if step.Resubscribe? {
      assert t.calls[step.id].Replying? && k <= Announced(t.calls[step.id].frame, topic);
    } else if step.Deliver? {
      DeliverKeepsTold(s, step, topic, k);
    } else if step.Reply? {
      assert Due(s, topic, k);
      ReplyKeepsTold(s, step.id, step.revised, topic, k);
    } else if step.Take? {
      assert Due(s, topic, k);
      TakeKeepsTold(s, topic, k);
    } else if !step.Close? {
      assert Due(s, topic, k) && Told(s, topic, k);
      forall id | id in s.calls && s.calls[id].Replying? ensures id in t.calls && t.calls[id] == s.calls[id] {}
    }
  }

  /** A step loses no notice if and only if it is harmless. */
  lemma StepLosesNothingExactly(s: System, step: Step)
    requires WellFormed(s) && NothingLost(s) && Enabled(s, step)
    ensures NothingLost(After(s, step)) <==> Harmless(s, step)
  {
    var t := After(s, step);
    if Harmless(s, step) {
      forall topic, k | !t.closed && Due(t, topic, k) ensures Told(t, topic, k) {
        StepKeepsTold(s, step, topic, k);
      }
    } else {
      HarmfulDeliveryLoses(s, step);
    }
  }

  /** Once a socket is closed nothing is queued on it, and its page receives nothing, in any later state. */
  lemma {:induction false} ClosedStays(states: seq<System>, steps: seq<Step>, m: nat, n: nat)
    requires IsRun(states, steps) && m < n < |states| && steps[m].Close?
    ensures states[n].closed && states[n].queue == states[m].queue && states[n].results == states[m].results
  {
    if m < n - 1 {
      ClosedStays(states, steps, m, n - 1);
    }
  }

  ghost predicate Inv(s: System) {
    RaisedIsWritten(s) && ResultsSound(s) && WellFormed(s)
  }

  lemma {:induction false} RunKeepsInv(states: seq<System>, steps: seq<Step>, n: nat)
    requires IsRun(states, steps) && n < |states|
    ensures Inv(states[n])
  {
    if n > 0 {
      RunKeepsInv(states, steps, n - 1);
      StepKeepsRaisedIsWritten(states[n - 1], steps[n - 1]);
      StepKeepsResultsSound(states[n - 1], steps[n - 1]);
      StepKeepsWellFormed(states[n - 1], steps[n - 1]);
    }
  }

  /** Every delivery before the run's n-th state is harmless. */
  ghost predicate HarmlessUntil(states: seq<System>, steps: seq<Step>, n: nat)
    requires |states| == |steps| + 1 && n <= |steps|
  {
    forall m | 0 <= m < n :: Harmless(states[m], steps[m])
  }

  lemma {:induction false} HarmlessRunLosesNothing(states: seq<System>, steps: seq<Step>, n: nat)
    requires IsRun(states, steps) && n < |states| && HarmlessUntil(states, steps, n)
    ensures NothingLost(states[n])
  {
    if n > 0 {
      HarmlessRunLosesNothing(states, steps, n - 1);
      RunKeepsInv(states, steps, n - 1);
      assert Harmless(states[n - 1], steps[n - 1]);
      StepLosesNothingExactly(states[n - 1], steps[n - 1]);
    }
  }

  /** No state of a run has lost a notice if and only if every delivery of it is harmless. */
  lemma RunLosesNothingExactly(states: seq<System>, steps: seq<Step>)
    requires IsRun(states, steps)
    ensures (forall n | 0 <= n < |states| :: NothingLost(states[n])) <==> HarmlessUntil(states, steps, |steps|)
  {
    if HarmlessUntil(states, steps, |steps|) {
      forall n | 0 <= n < |states| ensures NothingLost(states[n]) {
        HarmlessRunLosesNothing(states, steps, n);
      }
    }
    if forall n | 0 <= n < |states| :: NothingLost(states[n]) {
      forall m | 0 <= m < |steps| ensures Harmless(states[m], steps[m]) {
        RunKeepsInv(states, steps, m);
        assert NothingLost(states[m]) && NothingLost(states[m + 1]);
        StepLosesNothingExactly(states[m], steps[m]);
      }
    }
  }

  // ---- The guarantee ----

  /** Every change of the topic whose raising the socket's listener has heard. */
  function Heard(s: System, topic: Topic): set<Change> {
    set k | 0 <= k < Revision(s, topic) && (topic, k + 1) !in s.raised :: History(s, topic)[k]
  }

  /** Nothing on its way to the page names the topic: neither a queued frame nor a subscription reply. */
  predicate Drained(s: System, topic: Topic) {
    && (forall i | 0 <= i < |s.queue| :: Announced(s.queue[i].frame, topic) == 0)
    && (forall id <- s.calls :: s.calls[id].Replying? ==> Announced(s.calls[id].frame, topic) == 0)
  }

  /**
  No invalidation is lost while deliveries are harmless: when a page subscribed to a topic has drained what was on its
  way and was told no revision above the one its result carries, that result reflects every change whose raising
  completed.
  */
  lemma NoInvalidationIsLost(states: seq<System>, steps: seq<Step>, n: nat, result: Frame)
    requires IsRun(states, steps) && n < |states| && HarmlessUntil(states, steps, n)
    requires var s := states[n];
      && result in s.results && result.ReadResult?
      && !s.closed && result.topic in s.subscriptions && Drained(s, result.topic)
      && Known(s, result.topic) <= result.revision
    ensures Heard(states[n], result.topic) <= result.reflects
  {
    RunKeepsInv(states, steps, n);
    HarmlessRunLosesNothing(states, steps, n);
    var s, topic := states[n], result.topic;
    forall change | change in Heard(s, topic) ensures change in result.reflects {
      var k :| 0 <= k < Revision(s, topic) && (topic, k + 1) !in s.raised && History(s, topic)[k] == change;
      assert Due(s, topic, k + 1) && Told(s, topic, k + 1);
      assert Sound(s, result);
    }
  }

  // ---- Deliveries in order ----

  /** The outstanding revisions of a topic are its newest. */
  ghost predicate NewestOutstanding(s: System) {
    forall topic, j, k | (topic, j) in s.raised && j < k <= Revision(s, topic) :: (topic, k) in s.raised
  }

  /** A topic's oldest outstanding revision is delivered. */
  ghost predicate IsNext(s: System, step: Step) {
    step.Deliver? ==> forall k | 0 < k < step.revision :: (step.topic, k) !in s.raised
  }

  lemma NextKeepsNewest(s: System, step: Step)
    requires WellFormed(s) && NewestOutstanding(s) && Enabled(s, step) && IsNext(s, step)
    ensures NewestOutstanding(After(s, step))
  {
    var t := After(s, step);
    forall topic, j, k | (topic, j) in t.raised && j < k <= Revision(t, topic) ensures (topic, k) in t.raised {
      if step.Deliver? && step.topic == topic {
        assert (topic, k) in s.raised && k != step.revision;
      }
    }
  }

  lemma {:induction false} InOrderKeepsNewest(states: seq<System>, steps: seq<Step>, n: nat)
    requires IsRun(states, steps) && n < |states| && forall m | 0 <= m < n :: IsNext(states[m], steps[m])
    ensures NewestOutstanding(states[n])
  {
    if n > 0 {
      InOrderKeepsNewest(states, steps, n - 1);
      RunKeepsInv(states, steps, n - 1);
      NextKeepsNewest(states[n - 1], steps[n - 1]);
    }
  }

  /** Delivered in the order they were taken, revisions are delivered harmlessly. */
  lemma InOrderIsHarmless(states: seq<System>, steps: seq<Step>, n: nat)
    requires IsRun(states, steps) && n <= |steps| && forall m | 0 <= m < n :: IsNext(states[m], steps[m])
    ensures HarmlessUntil(states, steps, n)
  {
    forall m | 0 <= m < n ensures Harmless(states[m], steps[m]) {
      RunKeepsInv(states, steps, m);
      InOrderKeepsNewest(states, steps, m);
      NewestIsHarmless(states[m], steps[m]);
    }
  }

  lemma NewestIsHarmless(s: System, step: Step)
    requires WellFormed(s) && NewestOutstanding(s) && Enabled(s, step)
    ensures Harmless(s, step)
  {
    if step.Deliver? {
      var p := Position(s.queue, Some(step.topic));
      if p < |s.queue| {
        assert HasArrived(s, s.queue[p].frame);
      }
    }
  }

  // ---- A delivery that is not harmless ----

  ghost predicate RunTo(run: (seq<System>, seq<Step>), last: System) {
    IsRun(run.0, run.1) && run.0[|run.0| - 1] == last
  }

  lemma Extended(run: (seq<System>, seq<Step>), last: System, step: Step, next: System)
    returns (longer: (seq<System>, seq<Step>))
    requires RunTo(run, last) && Enabled(last, step) && next == After(last, step)
    ensures RunTo(longer, next)
  {
    longer := (run.0 + [next], run.1 + [step]);
  }

  /** A page that subscribed to `topic` at revision 0 and received the reply. */
  lemma Subscribes(topic: Topic) returns (run: (seq<System>, seq<Step>), last: System)
    ensures last == System(map[], map[], {}, {topic}, [], false, map[], map[topic := 0], [])
    ensures RunTo(run, last)
  {
    var s := System(map[], map[], {}, {}, [], false, map[], map[], []);
    run := ([s], []);
    var reply := Subscription(map[topic := 0]);
    var s1 := s.(subscriptions := {topic}, calls := map[0 := Replying(reply)]);
    assert Revisions(s, {topic}) == map[topic := 0];
    run := Extended(run, s, Resubscribe(0, {topic}), s1);
    var s2 := s.(subscriptions := {topic}, queue := [Item(reply, 0, None)]);
    assert map[0 := Replying(reply)] - {0} == map[];
    run := Extended(run, s1, Reply(0, true), s2);
    last := s.(subscriptions := {topic}, known := map[topic := 0]);
    run := Extended(run, s2, Take, last);
  }

  /** The page's read of revision 1 sees only the first of two changes; its result waits to be sent. */
  lemma ReadsTheFirst(topic: Topic) returns (run: (seq<System>, seq<Step>), last: System)
    ensures var result := ReadResult(topic, 1, {1});
      last == System(map[topic := {1, 2}], map[topic := [1, 2]], {(topic, 1), (topic, 2)}, {topic}, [], false,
                     map[0 := Replying(result)], map[topic := 0], [])
    ensures RunTo(run, last)
  {
    var s;
    run, s := Subscribes(topic);
    var s1 := s.(written := map[topic := {1}]);
    assert Written(s, topic) + {1} == {1};
    run := Extended(run, s, Write(topic, 1), s1);
    var s2 := s1.(history := map[topic := [1]], raised := {(topic, 1)});
    assert History(s1, topic) + [1] == [1];
    run := Extended(run, s1, Raise(topic, 1), s2);
    var s3 := s2.(calls := map[0 := Sampled(topic, 1)]);
    run := Extended(run, s2, Sample(0, topic), s3);
    var s4 := s3.(calls := map[0 := Replying(ReadResult(topic, 1, {1}))]);
    run := Extended(run, s3, Read(0), s4);
    var s5 := s4.(written := map[topic := {1, 2}]);
    assert Written(s4, topic) + {2} == {1, 2};
    run := Extended(run, s4, Write(topic, 2), s5);
    last := s5.(history := map[topic := [1, 2]], raised := {(topic, 1), (topic, 2)});
    assert History(s5, topic) + [2] == [1, 2];
    run := Extended(run, s5, Raise(topic, 2), last);
  }

  /** The two notices reach the listener in the other order, and the older one stays queued. */
  lemma NoticesCross(topic: Topic) returns (run: (seq<System>, seq<Step>), last: System)
    ensures var result, older := ReadResult(topic, 1, {1}), Item(Changed(topic, 1), 0, Some(topic));
      last == System(map[topic := {1, 2}], map[topic := [1, 2]], {}, {topic}, [older], false,
                     map[0 := Replying(result)], map[topic := 0], [])
    ensures RunTo(run, last)
  {
    var s;
    run, s := ReadsTheFirst(topic);
    var newer, older := Item(Changed(topic, 2), 0, Some(topic)), Item(Changed(topic, 1), 0, Some(topic));
    var s1 := s.(raised := {(topic, 1)}, queue := [newer]);
    run := Extended(run, s, Deliver(topic, 2), s1);
    last := s1.(raised := {}, queue := [older]);
    assert PutItem([newer], older) == [older];
    run := Extended(run, s1, Deliver(topic, 1), last);
  }

  /**
  Two threads raising one topic may reach the listener in the other order. The older notice then replaces the newer one
  still queued, and the drained page keeps a result that misses a change already raised and heard.
  */
  lemma OvertakenNoticeLosesAnInvalidation(topic: Topic) returns (run: (seq<System>, seq<Step>), last: System)
    ensures RunTo(run, last)
    ensures !last.closed && topic in last.subscriptions && Drained(last, topic)
    ensures exists result ::
      && result in last.results && result.ReadResult? && result.topic == topic
      && Known(last, topic) <= result.revision
      && !(Heard(last, topic) <= result.reflects)
  {
    var s;
    run, s := NoticesCross(topic);
    var result := ReadResult(topic, 1, {1});
    var s1 := s.(queue := s.queue + [Item(result, 0, None)], calls := map[]);
    assert map[0 := Replying(result)] - {0} == map[];
    run := Extended(run, s, Reply(0, true), s1);
    var s2 := s1.(queue := [Item(result, 0, None)], known := map[topic := 1]);
    run := Extended(run, s1, Take, s2);
    last := s2.(queue := [], results := [result]);
    run := Extended(run, s2, Take, last);
    assert History(last, topic)[1] == 2 && (topic, 1 + 1) !in last.raised;
    assert 2 in Heard(last, topic) && 2 !in result.reflects;
  }
}
