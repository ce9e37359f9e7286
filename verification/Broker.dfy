/** Live-update signals: bounded queues that collapse on overflow, and the stream that drains one of them. */
module Broker {
  import opened Sequences

  datatype Topic =
    | Snapshot | Activity | Auth | Offline | Resync | Health
    | VpnLogs | TrafficLogs | SystemLogs | ActivityLogs | AuthLogs

  type Queue = seq<Topic>

  const CAPACITY := 16

  function Members(q: Queue): set<Topic> {
    set t | t in q
  }

  // ---------- publishing ----------

  /** The one signal that a full queue is replaced by. */
  function Collapsed(pending: set<Topic>): Topic {
    if Auth in pending then Auth else if Offline in pending then Offline else Resync
  }

  function Published(topic: Topic): Queue -> Queue {
    (q: Queue) => if |q| >= CAPACITY then [Collapsed(Members(q)), topic] else q + [topic]
  }

  class Hub {
    var subscribers: seq<Queue>

    constructor ()
      ensures subscribers == []
    {
      subscribers := [];
    }

    /** Broker.publish: each queue is drained and refilled when full, then takes the topic if it has room. */
    method Publish(topic: Topic)
      modifies this
      ensures subscribers == Map(Published(topic), old(subscribers))
    {
      for i := 0 to |subscribers|
        invariant |subscribers| == |old(subscribers)|
        invariant forall k :: 0 <= k < i ==> subscribers[k] == Published(topic)(old(subscribers)[k])
        invariant forall k :: i <= k < |subscribers| ==> subscribers[k] == old(subscribers)[k]
      {
        var queue := subscribers[i];
        if |queue| >= CAPACITY {
          var pending := {};
          ghost var full := queue;
          while queue != []
            invariant Members(full) == pending + Members(queue)
          {
            pending := pending + {queue[0]};
            queue := queue[1..];
          }
          assert pending == Members(full);
          queue := queue + [Collapsed(pending)];
        }
        if |queue| < CAPACITY {
          queue := queue + [topic];
        }
        subscribers := subscribers[i := queue];
      }
    }
  }

  // ---------- one stream ----------

  /** Greeting: subscribed, the first frame still being written.  Holding: the first topic is taken, more may arrive. */
  datatype Phase = Greeting | Waiting | Holding(topic: Topic) | Ended

  /** Bookkeeping: `unread` is every topic published since the last drain, `dropped` those of them whose last publish
      was followed by one that met a full queue. */
  datatype Stream = Stream(queue: Queue, phase: Phase, unread: set<Topic>, dropped: set<Topic>)

  datatype Action = Publish(topic: Topic) | Greet | Take | Drain | Drop

  /** What a drain finds. */
  function Drained(s: Stream): set<Topic>
    requires s.phase.Holding?
  {
    {s.phase.topic} + Members(s.queue)
  }

  /** A resync stands for both dashboard topics. */
  function Expanded(topics: set<Topic>): set<Topic> {
    if Resync in topics then topics + {Snapshot, Activity} else topics
  }

  predicate MustEnd(topics: set<Topic>) {
    Auth in topics || Offline in topics
  }

  /** The topics named in the frame sent to a browser. */
  function Changed(topics: set<Topic>, admin: bool): set<Topic> {
    Expanded(topics) * if admin then {Snapshot, Activity, VpnLogs, TrafficLogs, SystemLogs, ActivityLogs, AuthLogs}
                       else {Snapshot, Activity, VpnLogs, AuthLogs}
  }

  /** The greeting puts a health topic into the queue; with the queue already full that raises, which ends the stream.
      */
  function Do(s: Stream, a: Action): Stream {
    match a
    case Publish(topic) =>
      if s.phase.Ended? then s
      else
        Stream(Published(topic)(s.queue), s.phase, s.unread + {topic},
               (if |s.queue| >= CAPACITY then s.unread else s.dropped) - {topic})
    case Greet =>
      if !s.phase.Greeting? then s
      else if |s.queue| >= CAPACITY then s.(phase := Ended)
      else Stream(s.queue + [Health], Waiting, s.unread + {Health}, s.dropped - {Health})
    case Take =>
      if s.phase.Waiting? && s.queue != [] then s.(queue := s.queue[1..], phase := Holding(s.queue[0])) else s
    case Drain =>
      if !s.phase.Holding? then s
      else if MustEnd(Drained(s)) then Stream([], Ended, {}, {})
      else Stream([], Waiting, {}, {})
    case Drop => s.(phase := Ended)
  }

  function Exec(schedule: seq<Action>): Stream {
    if schedule == [] then Stream([], Greeting, {}, {})
    else Do(Exec(schedule[..|schedule| - 1]), schedule[|schedule| - 1])
  }

  // ---------- the invariant ----------

  /** The topics that no overflow signal stands for. */
  predicate Plain(t: Topic) {
    t !in {Snapshot, Activity, Auth, Offline, Resync}
  }

  /** The stream has the topic in hand already. */
  predicate Held(s: Stream, t: Topic) {
    s.phase.Holding? && s.phase.topic == t
  }

  function Visible(s: Stream): set<Topic> {
    if s.phase.Holding? then Drained(s) else Members(s.queue)
  }

  ghost predicate Inv(s: Stream) {
    && |s.queue| <= CAPACITY
    && (!s.phase.Ended? ==>
          && (MustEnd(s.unread) <==> MustEnd(Visible(s)))
          && (forall t :: t in s.unread && t in {Snapshot, Activity, Resync} ==>
                t in Expanded(Visible(s)) || MustEnd(Visible(s)))
          && (forall t :: t in Visible(s) ==> t in s.unread || t == Resync)
          && (forall t :: t in s.unread && Plain(t) ==>
                (t in s.queue || Held(s, t) <==> Held(s, t) || t !in s.dropped)))
  }

  lemma PublishedMembers(q: Queue, topic: Topic)
    ensures |q| < CAPACITY ==> Members(Published(topic)(q)) == Members(q) + {topic}
    ensures |q| >= CAPACITY ==> Members(Published(topic)(q)) == {Collapsed(Members(q)), topic}
  {
  }

  lemma DoKeepsInv(s: Stream, a: Action)
    requires Inv(s)
    ensures Inv(Do(s, a))
  {
    var s' := Do(s, a);
    match a {
      case Publish(topic) =>
        PublishedMembers(s.queue, topic);
      case Greet =>
        assert Members(s.queue + [Health]) == Members(s.queue) + {Health};
      case Take =>
        if s.queue != [] { assert Members(s.queue) == {s.queue[0]} + Members(s.queue[1..]); }
      case Drain =>
        assert Members([]) == {};
      case Drop =>
    }
  }

  lemma {:induction false} ExecInv(schedule: seq<Action>)
    ensures Inv(Exec(schedule))
  {
    if schedule != [] {
      hide Inv, Do;
      ExecInv(schedule[..|schedule| - 1]);
      DoKeepsInv(Exec(schedule[..|schedule| - 1]), schedule[|schedule| - 1]);
    } else {
      assert Members([]) == {};
    }
  }

  // ---------- the main results ----------

  lemma {:induction false} QueueIsBounded(schedule: seq<Action>)
    ensures |Exec(schedule).queue| <= CAPACITY
  {
    ExecInv(schedule);
  }

  /** A drain ends the stream exactly when a sign-out or an outage was published since the last one. */
  lemma EndsIffSignalled(schedule: seq<Action>)
    requires Exec(schedule).phase.Holding?
    ensures Do(Exec(schedule), Drain).phase.Ended?
            <==> Auth in Exec(schedule).unread || Offline in Exec(schedule).unread
  {
    ExecInv(schedule);
  }

  /** No dashboard signal is lost to an overflow: every snapshot or activity topic published since the last drain, and
      for a resync both, is named in the next frame, unless that drain ends the stream. */
  lemma DashboardSignalsArrive(schedule: seq<Action>, admin: bool, t: Topic)
    requires Exec(schedule).phase.Holding? && t in {Snapshot, Activity}
    requires t in Exec(schedule).unread || Resync in Exec(schedule).unread
    ensures var s := Exec(schedule);
            Do(s, Drain).phase.Ended? || t in Changed(Drained(s), admin)
  {
    ExecInv(schedule);
  }

  /** What a frame names was published since the last drain, or a resync or an overflow stands for it. */
  lemma NothingIsInvented(schedule: seq<Action>, admin: bool, t: Topic)
    requires Exec(schedule).phase.Holding? && t in Changed(Drained(Exec(schedule)), admin)
    ensures t in Exec(schedule).unread || (t in {Snapshot, Activity} && Resync in Drained(Exec(schedule)))
  {
    ExecInv(schedule);
  }

  /** Log and health topics have no such guarantee: one published since the last drain is in the next one if and only if
      the stream has it in hand, or no publish since its last one met a full queue. */
  lemma LogTopicArrivesIff(schedule: seq<Action>, t: Topic)
    requires Exec(schedule).phase.Holding? && Plain(t) && t in Exec(schedule).unread
    ensures t in Drained(Exec(schedule)) <==> Held(Exec(schedule), t) || t !in Exec(schedule).dropped
  {
    ExecInv(schedule);
  }

  /** What a browser is told, topic by topic.  The logs of traffic, system and activity reach administrators only; VPN
      and sign-in logs reach both roles, exactly when the stream has the topic in hand or lost none of it; a dashboard
      topic is named exactly when it was published, or a resync was, or one that stands for an overflow; and nothing
      else is ever named. */
  lemma FrameNames(schedule: seq<Action>, admin: bool, t: Topic)
    requires Exec(schedule).phase.Holding?
    ensures var s := Exec(schedule);
            var frame := Changed(Drained(s), admin);
            match t
            case TrafficLogs | SystemLogs | ActivityLogs => t in frame <==> admin && Arrives(s, t)
            case VpnLogs | AuthLogs => t in frame <==> Arrives(s, t)
            case Snapshot | Activity => t in frame <==> t in Drained(s) || Resync in Drained(s)
            case Auth | Offline | Resync | Health => t !in frame
  {
    ExecInv(schedule);
    if Plain(t) && t in Exec(schedule).unread {
      LogTopicArrivesIff(schedule, t);
    }
  }

  /** Published since the last drain, and in hand or not dropped. */
  predicate Arrives(s: Stream, t: Topic) {
    t in s.unread && (Held(s, t) || t !in s.dropped)
  }

  function Repeated(t: Topic, n: nat): seq<Action> {
    seq(n, _ => Publish(t))
  }

  /** While there is room, publishes fill the queue. */
  lemma {:induction false} Fills(schedule: seq<Action>, t: Topic, n: nat)
    requires !Exec(schedule).phase.Ended? && |Exec(schedule).queue| + n <= CAPACITY
    ensures var s, s' := Exec(schedule), Exec(schedule + Repeated(t, n));
            s'.queue == s.queue + seq(n, _ => t) && s'.phase == s.phase && s.unread <= s'.unread
            && s'.unread <= s.unread + {t}
  {
    if n == 0 {
      assert schedule + Repeated(t, 0) == schedule;
    } else {
      hide Do, Exec;
      Fills(schedule, t, n - 1);
      assert schedule + Repeated(t, n) == schedule + Repeated(t, n - 1) + [Publish(t)];
      ExecNext(schedule + Repeated(t, n - 1), Publish(t));
      PublishFits(Exec(schedule + Repeated(t, n - 1)), t);
      assert seq(n, _ => t) == seq(n - 1, _ => t) + [t];
    }
  }

  lemma PublishFits(s: Stream, t: Topic)
    requires !s.phase.Ended? && |s.queue| < CAPACITY
    ensures Do(s, Publish(t)).queue == s.queue + [t] && Do(s, Publish(t)).phase == s.phase
    ensures Do(s, Publish(t)).unread == s.unread + {t}
  {
  }

  /** Such a schedule: a log topic, then fifteen activity signals, and the browser is never told about the log. */
  lemma LogTopicCanBeLost(log: Topic)
    requires Plain(log) && log != Health
    ensures var s := Exec([Greet, Publish(log)] + Repeated(Activity, 15) + [Take]);
            s.phase.Holding? && log in s.unread && log !in Drained(s)
  {
    hide Do, Exec;
    var all := [Greet, Publish(log)] + Repeated(Activity, 15);
    Overflowing(log);
    ExecNext(all, Take);
    TakesResync(Exec(all));
  }

  lemma ExecNext(schedule: seq<Action>, a: Action)
    ensures Exec(schedule + [a]) == Do(Exec(schedule), a)
  {
    hide Do;
    assert (schedule + [a])[..|schedule|] == schedule;
  }

  lemma LogQueued(log: Topic)
    requires Plain(log) && log != Health
    ensures var s := Exec([Greet, Publish(log)]);
            s.queue == [Health, log] && s.phase.Waiting? && log in s.unread
  {
    hide Do, Exec;
    assert [Greet] == [] + [Greet] && [Greet, Publish(log)] == [Greet] + [Publish(log)];
    ExecNext([], Greet);
    Begins();
    ExecNext([Greet], Publish(log));
    PublishFits(Stream([Health], Waiting, {Health}, {}), log);
  }

  lemma Begins()
    ensures Do(Exec([]), Greet) == Stream([Health], Waiting, {Health}, {})
  {
    assert Exec([]) == Stream([], Greeting, {}, {});
  }

  /** The sixteenth signal finds the queue full. */
  lemma Overflowing(log: Topic)
    requires Plain(log) && log != Health
    ensures var s := Exec([Greet, Publish(log)] + Repeated(Activity, 15));
            s.queue == [Resync, Activity] && s.phase.Waiting? && log in s.unread
  {
    hide Do, Exec;
    var start := [Greet, Publish(log)];
    LogQueued(log);
    Fills(start, Activity, 14);
    var full := start + Repeated(Activity, 14);
    assert start + Repeated(Activity, 15) == full + [Publish(Activity)];
    ExecNext(full, Publish(Activity));
    CollapsesTo(Exec(full), log);
  }

  lemma CollapsesTo(s: Stream, log: Topic)
    requires s.queue == [Health, log] + seq(14, _ => Activity) && s.phase.Waiting? && Plain(log) && log in s.unread
    ensures var s' := Do(s, Publish(Activity));
            s'.queue == [Resync, Activity] && s'.phase.Waiting? && log in s'.unread
  {
    assert Collapsed(Members(s.queue)) == Resync;
  }

  lemma TakesResync(s: Stream)
    requires s.queue == [Resync, Activity] && s.phase.Waiting?
    ensures Do(s, Take).phase.Holding? && Do(s, Take).unread == s.unread
    ensures Drained(Do(s, Take)) == {Resync, Activity}
  {
    assert [Resync, Activity][1..] == [Activity];
  }
}
