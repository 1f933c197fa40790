/** The agent wrapper of the NIXL engine: it sorts what arrives on one socket, and in batches of
    notifications, into one FIFO queue per remote agent. */
module NixlAgents {
  import opened Options

  /** `defaultdict(deque)`: an absent key is an empty queue. */
  function Queue<T>(m: map<string, seq<T>>, a: string): seq<T> {
    if a in m then m[a] else []
  }

  /** The messages of one sender, in arrival order. */
  function From<T>(arrivals: seq<(string, T)>, a: string): seq<T> {
    if arrivals == [] then []
    else (if arrivals[0].0 == a then [arrivals[0].1] else []) + From(arrivals[1..], a)
  }

  /** A batch of `get_new_notifs`: the items of a dict, in its iteration order. */
  type Batch<T> = seq<(string, seq<T>)>

  ghost predicate ValidBatch<T>(b: Batch<T>) {
    forall i :: 0 <= i < |b| ==> b[i].1 != [] && forall j :: i < j < |b| ==> b[i].0 != b[j].0
  }

  function BatchFrom<T>(b: Batch<T>, a: string): seq<T> {
    if b == [] then []
    else (if b[0].0 == a then b[0].1 else []) + BatchFrom(b[1..], a)
  }

  function BatchesFrom<T>(bs: seq<Batch<T>>, a: string): seq<T> {
    if bs == [] then [] else BatchFrom(bs[0], a) + BatchesFrom(bs[1..], a)
  }

  /** Two states of the queues and the undelivered batches that hold the same for every agent. */
  ghost predicate SamePending<T(!new)>(q: map<string, seq<T>>, bs: seq<Batch<T>>, q': map<string, seq<T>>, bs': seq<Batch<T>>) {
    forall a: string :: Queue(q', a) + BatchesFrom(bs', a) == Queue(q, a) + BatchesFrom(bs, a)
  }

  ghost predicate SameMessages<M(!new)>(
      q: map<string, seq<M>>, arrivals: seq<(string, M)>, q': map<string, seq<M>>, arrivals': seq<(string, M)>) {
    forall a: string :: Queue(q', a) + From(arrivals', a) == Queue(q, a) + From(arrivals, a)
  }

  lemma MessageSorted<M(!new)>(
      q0: map<string, seq<M>>, arrivals0: seq<(string, M)>, q: map<string, seq<M>>, arrivals: seq<(string, M)>)
    requires arrivals != [] && SameMessages(q0, arrivals0, q, arrivals)
    ensures SameMessages(q0, arrivals0,
      q[arrivals[0].0 := Queue(q, arrivals[0].0) + [arrivals[0].1]], arrivals[1..])
  {
    var sender, m := arrivals[0].0, arrivals[0].1;
    Regroup(Queue(q, sender), [m], From(arrivals[1..], sender));
    assert From(arrivals, sender) == [m] + From(arrivals[1..], sender);
  }

  lemma MessagePopped<M(!new)>(
      q0: map<string, seq<M>>, arrivals0: seq<(string, M)>, q: map<string, seq<M>>, arrivals: seq<(string, M)>, a: string)
    requires SameMessages(q0, arrivals0, q, arrivals) && Queue(q, a) != []
    ensures var q' := q[a := q[a][1..]];
      && Queue(q0, a) + From(arrivals0, a) == [q[a][0]] + (Queue(q', a) + From(arrivals, a))
      && forall b: string :: b != a ==> Queue(q', b) + From(arrivals, b) == Queue(q0, b) + From(arrivals0, b)
  {
    Regroup([q[a][0]], q[a][1..], From(arrivals, a));
    assert Queue(q, a) == [q[a][0]] + q[a][1..];
    assert Queue(q, a) + From(arrivals, a) == Queue(q0, a) + From(arrivals0, a);
  }

  lemma NothingPending<M(!new)>(q0: map<string, seq<M>>, arrivals0: seq<(string, M)>, q: map<string, seq<M>>, a: string)
    requires SameMessages(q0, arrivals0, q, []) && Queue(q, a) == []
    ensures Queue(q0, a) + From(arrivals0, a) == []
  {
    assert Queue(q, a) + From([], a) == Queue(q0, a) + From(arrivals0, a);
  }

  lemma Regroup<T>(x: seq<T>, y: seq<T>, z: seq<T>)
    ensures (x + y) + z == x + (y + z)
  {}

  lemma PendingAbsorbed<T(!new)>(
      q0: map<string, seq<T>>, bs0: seq<Batch<T>>, q: map<string, seq<T>>, q': map<string, seq<T>>, bs: seq<Batch<T>>)
    requires bs != [] && SamePending(q0, bs0, q, bs)
    requires forall a: string :: Queue(q', a) == Queue(q, a) + BatchFrom(bs[0], a)
    ensures SamePending(q0, bs0, q', bs[1..])
  {
    forall a: string ensures Queue(q', a) + BatchesFrom(bs[1..], a) == Queue(q0, a) + BatchesFrom(bs0, a) {
      Regroup(Queue(q, a), BatchFrom(bs[0], a), BatchesFrom(bs[1..], a));
    }
  }

  lemma PendingPopped<T(!new)>(
      q0: map<string, seq<T>>, bs0: seq<Batch<T>>, q: map<string, seq<T>>, q': map<string, seq<T>>, bs: seq<Batch<T>>,
      a: string, note: T)
    requires SamePending(q0, bs0, q, bs) && Queue(q, a) == [note] + Queue(q', a)
    requires forall b: string :: b != a ==> Queue(q', b) == Queue(q, b)
    ensures Queue(q0, a) + BatchesFrom(bs0, a) == [note] + (Queue(q', a) + BatchesFrom(bs, a))
    ensures forall b: string :: b != a ==> Queue(q', b) + BatchesFrom(bs, b) == Queue(q0, b) + BatchesFrom(bs0, b)
  {
    Regroup([note], Queue(q', a), BatchesFrom(bs, a));
    assert Queue(q, a) + BatchesFrom(bs, a) == Queue(q0, a) + BatchesFrom(bs0, a);
  }

  class NixlAgent<M(!new), T(!new)> {
    var messages: map<string, seq<M>>
    var notifications: map<string, seq<T>>
    /** What the socket and the NIXL library still hold for this agent, oldest first. */
    var socket: seq<(string, M)>
    var batches: seq<Batch<T>>

    constructor ()
      ensures messages == map[] && notifications == map[] && socket == [] && batches == []
    {
      messages, notifications, socket, batches := map[], map[], [], [];
    }

    /** Everything sent by `a` that no `read_message` has returned yet, oldest first. */
    ghost function PendingMessages(a: string): seq<M>
      reads this
    {
      Queue(messages, a) + From(socket, a)
    }

    ghost function PendingNotes(a: string): seq<T>
      reads this
    {
      Queue(notifications, a) + BatchesFrom(batches, a)
    }

    /** Returns the oldest unread message of the named agent and loses nobody else's; `None` stands
        for waiting on a socket that delivers nothing more. */
    method ReadMessage(name: string) returns (r: Option<M>)
      modifies this`messages, this`socket
      ensures old(PendingMessages(name)) == [] <==> r == None
      ensures r.Some? ==> old(PendingMessages(name)) == [r.value] + PendingMessages(name)
      ensures forall a: string :: a != name || r == None ==> PendingMessages(a) == old(PendingMessages(a))
    {
      hide From;
      ghost var queue0, socket0 := messages, socket;
      while Queue(messages, name) == []
        invariant SameMessages(queue0, socket0, messages, socket)
        decreases |socket|
      {
        if socket == [] {
          NothingPending(queue0, socket0, messages, name);
          return None;
        }
        var (sender, message) := socket[0];
        MessageSorted(queue0, socket0, messages, socket);
        messages := messages[sender := Queue(messages, sender) + [message]];
        socket := socket[1..];
      }
      MessagePopped(queue0, socket0, messages, socket, name);
      r := Some(messages[name][0]);
      messages := messages[name := messages[name][1..]];
    }

    /** The inner loop: every list of the batch joins its agent's queue. It runs over the items with
        the caller's parameter as loop variable, which therefore ends as the last agent listed. */
    method Absorb(notifs: Batch<T>, name: string) returns (remoteName: string)
      requires ValidBatch(notifs)
      modifies this`notifications
      ensures remoteName == if notifs == [] then name else notifs[|notifs| - 1].0
      ensures notifs != [] ==> Queue(notifications, remoteName) != []
      ensures notifs == [] ==> notifications == old(notifications)
      ensures forall a: string :: Queue(notifications, a) == old(Queue(notifications, a)) + BatchFrom(notifs, a)
    {
      remoteName := name;
      for i := 0 to |notifs|
        invariant remoteName == if i == 0 then name else notifs[i - 1].0
        invariant i > 0 ==> Queue(notifications, remoteName) != []
        invariant i == 0 ==> notifications == old(notifications)
        invariant forall a: string ::
          Queue(notifications, a) + BatchFrom(notifs[i..], a) == old(Queue(notifications, a)) + BatchFrom(notifs, a)
      {
        remoteName := notifs[i].0;
        ghost var before := notifications;
        notifications := notifications[remoteName := Queue(notifications, remoteName) + notifs[i].1];
        assert notifs[i..][0] == notifs[i] && notifs[i..][1..] == notifs[i + 1..];
        forall a: string
          ensures Queue(notifications, a) + BatchFrom(notifs[i + 1..], a) == Queue(before, a) + BatchFrom(notifs[i..], a)
        {
          if a != remoteName { assert BatchFrom(notifs[i..], a) == BatchFrom(notifs[i + 1..], a); }
        }
      }
      assert notifs[|notifs|..] == [];
    }

    /** The polling loop: ends when the queue under the loop variable is filled, or nothing more comes. */
    method Poll(name: string) returns (source: Option<string>)
      requires forall b <- batches :: ValidBatch(b)
      modifies this`notifications, this`batches
      ensures source == NotificationSource(old(Queue(notifications, name)), old(batches), name)
      ensures source.Some? ==> Queue(notifications, source.value) != []
      ensures SamePending(old(notifications), old(batches), notifications, batches)
    {
      hide BatchesFrom;
      hide ValidBatch;
      var remoteName := name;
      ghost var queue0, batches0 := notifications, batches;
      while Queue(notifications, remoteName) == []
        invariant forall b <- batches :: ValidBatch(b)
        invariant SamePending(queue0, batches0, notifications, batches)
        invariant Queue(notifications, remoteName) == [] ==> remoteName == name
        invariant NotificationSource(Queue(queue0, name), batches0, name) ==
          NotificationSource(Queue(notifications, remoteName), batches, remoteName)
        decreases |batches|
      {
        if batches == [] {
          return None;
        }
        var notifs := batches[0];
        ghost var before := notifications;
        remoteName := Absorb(notifs, remoteName);
        PendingAbsorbed(queue0, batches0, before, notifications, batches);
        batches := batches[1..];
      }
      source := Some(remoteName);
    }

    /** Returns the oldest notification of `source`, which may be another agent than `name`. */
    method GetNotification(name: string) returns (r: Option<T>, ghost source: Option<string>)
      requires forall b <- batches :: ValidBatch(b)
      modifies this`notifications, this`batches
      ensures source == NotificationSource(old(Queue(notifications, name)), old(batches), name)
      ensures source == None <==> r == None
      ensures r.Some? ==> old(PendingNotes(source.value)) == [r.value] + PendingNotes(source.value)
      ensures forall a: string :: source != Some(a) ==> PendingNotes(a) == old(PendingNotes(a))
    {
      var remoteName := Poll(name);
      if remoteName == None {
        return None, None;
      }
      hide SamePending;
      hide Queue;
      hide BatchesFrom;
      ghost var before := notifications;
      var note := PopNote(remoteName.value);
      PendingPopped(old(notifications), old(batches), before, notifications, batches, remoteName.value, note);
      r, source := Some(note), remoteName;
    }

    method PopNote(a: string) returns (note: T)
      requires Queue(notifications, a) != []
      modifies this`notifications
      ensures old(Queue(notifications, a)) == [note] + Queue(notifications, a)
      ensures forall b: string :: b != a ==> Queue(notifications, b) == old(Queue(notifications, b))
    {
      note := notifications[a][0];
      notifications := notifications[a := notifications[a][1..]];
    }
  }

  /** The agent whose queue `get_notification` pops: the requested one if its queue is filled, else
      the last agent listed in the first batch that is not empty. */
  function NotificationSource<T>(queue: seq<T>, batches: seq<Batch<T>>, name: string): Option<string> {
    if queue != [] then Some(name)
    else if batches == [] then None
    else if batches[0] == [] then NotificationSource(queue, batches[1..], name)
    else Some(batches[0][|batches[0]| - 1].0)
  }

  /** The first batch that reports anything ends with the requested agent. */
  ghost predicate FirstReportEndsWith<T>(batches: seq<Batch<T>>, name: string) {
    exists i :: FirstReport(batches, i) && batches[i][|batches[i]| - 1].0 == name
  }

  ghost predicate FirstReport<T>(batches: seq<Batch<T>>, i: int) {
    0 <= i < |batches| && batches[i] != [] && forall j :: 0 <= j < i ==> batches[j] == []
  }

  /** `get_notification` answers for the requested agent exactly when its queue is filled already, or
      the first batch that reports anything lists it last. */
  lemma {:induction false} RightSource<T>(queue: seq<T>, batches: seq<Batch<T>>, name: string)
    ensures NotificationSource(queue, batches, name) == Some(name)
      <==> queue != [] || FirstReportEndsWith(batches, name)
  {
    if queue == [] && batches != [] {
      if batches[0] == [] {
        RightSource(queue, batches[1..], name);
        if FirstReportEndsWith(batches, name) {
          var i :| FirstReport(batches, i) && batches[i][|batches[i]| - 1].0 == name;
          assert FirstReport(batches[1..], i - 1);
        }
        if FirstReportEndsWith(batches[1..], name) {
          var i :| FirstReport(batches[1..], i) && batches[1..][i][|batches[1..][i]| - 1].0 == name;
          assert FirstReport(batches, i + 1);
        }
      } else {
        assert FirstReport(batches, 0);
      }
    }
  }

  /** Otherwise it answers for the agent that the first reporting batch lists last. */
  lemma {:induction false} ReportedSource<T>(batches: seq<Batch<T>>, name: string, i: nat)
    requires FirstReport(batches, i)
    ensures NotificationSource([], batches, name) == Some(batches[i][|batches[i]| - 1].0)
  {
    if i > 0 {
      assert batches[0] == [];
      assert FirstReport(batches[1..], i - 1);
      ReportedSource(batches[1..], name, i - 1);
    }
  }

  /** With two agents in one batch, the caller waiting for the first is answered for the second. */
  lemma WrongSource()
    ensures NotificationSource<nat>([], [[("next", [1]), ("other", [2])]], "next") == Some("other")
  {}

  ghost predicate OnlyFrom<T>(b: Batch<T>, name: string) {
    forall e <- b :: e.0 == name
  }

  /** In a chain only the next agent notifies, so the answer is always for it. */
  lemma {:induction false} ChainSource<T>(queue: seq<T>, batches: seq<Batch<T>>, name: string)
    requires forall b <- batches :: OnlyFrom(b, name)
    ensures NotificationSource(queue, batches, name) == None || NotificationSource(queue, batches, name) == Some(name)
    ensures NotificationSource(queue, batches, name) == None <==> queue == [] && forall i :: 0 <= i < |batches| ==> batches[i] == []
  {
    if batches != [] {
      assert OnlyFrom(batches[0], name) && batches == [batches[0]] + batches[1..];
      ChainSource(queue, batches[1..], name);
      if batches[0] != [] {
        assert batches[0][|batches[0]| - 1] in batches[0];
      } else {
        assert forall i :: 0 < i < |batches| ==> batches[i] == batches[1..][i - 1];
      }
    }
  }
}
