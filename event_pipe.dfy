/**
 * EventPipe: the one-way mailbox between the parent process and the RX child
 * process, made of an event flag and a pipe. Three versions exist:
 *  - flightgear_python/fg_if.py: parent_send is dropped while the flag is set,
 *    so at most one message is ever pending (coalescing);
 *  - flightgear_python/general_util.py: the same, plus an unguarded
 *    child-to-parent queue (child_send, parent_recv, parent_poll);
 *  - src/flightgear_python/fg_if.py: parent_send always sends and sets the flag.
 * The pipe is a FIFO of messages. A receive on an empty pipe blocks in Python;
 * here it returns None and changes nothing. The public set/clear aliases are
 * not modelled: the mailbox is used only through its send and receive methods.
 */
module EventPipes {
  import opened Wrappers

  /** The parent-to-child state: pending messages, oldest first, and the event flag. */
  datatype Mailbox<T> = Mailbox(pending: seq<T>, flag: bool)

  function Empty<T>(): Mailbox<T>
  {
    Mailbox([], false)
  }

  /** The coalescing invariant: exactly one message is pending when the flag is set, none otherwise. */
  predicate OneSlot<T>(m: Mailbox<T>)
  {
    |m.pending| == if m.flag then 1 else 0
  }

  /** parent_send of the coalescing versions: send and set the flag only when the flag is clear. */
  function Post<T>(m: Mailbox<T>, msg: T): (r: Mailbox<T>)
    ensures r.flag
  {
    if m.flag then m else Mailbox(m.pending + [msg], true)
  }

  /** parent_send of the older version: always send, always set the flag. */
  function PostAlways<T>(m: Mailbox<T>, msg: T): (r: Mailbox<T>)
    ensures r.flag && |r.pending| == |m.pending| + 1
  {
    Mailbox(m.pending + [msg], true)
  }

  /** child_recv: the oldest pending message, with the flag cleared; None when nothing is pending. */
  function Take<T>(m: Mailbox<T>): (r: (Option<T>, Mailbox<T>))
    ensures r.0.None? <==> m.pending == []
  {
    if m.pending == [] then (None, m) else (Some(m.pending[0]), Mailbox(m.pending[1..], false))
  }

  /** Posting and taking keep the one-slot invariant. */
  lemma PostTakeKeepOneSlot<T>(m: Mailbox<T>, msg: T)
    requires OneSlot(m)
    ensures OneSlot(Post(m, msg))
    ensures OneSlot(Take(m).1)
    ensures Post(m, msg).pending == if m.flag then m.pending else [msg]
  {
  }

  /** A second post before any take is dropped: the first message stays the only one pending. */
  lemma SecondPostDropped<T>(m: Mailbox<T>, a: T, b: T)
    ensures Post(Post(m, a), b) == Post(m, a)
  {
  }

  /** After a take, the next post is delivered, and the one after that is taken first. */
  lemma TakeThenPostDelivers<T>(m: Mailbox<T>, a: T)
    requires OneSlot(m) && m.flag
    ensures Take(m).0 == Some(m.pending[0])
    ensures Post(Take(m).1, a) == Mailbox([a], true)
    ensures Take(Post(Take(m).1, a)) == (Some(a), Empty())
  {
    assert [a][1..] == [];
  }

  /** Without coalescing, two sends before a receive leave two messages; the receive returns the
      first and clears the flag although the second is still pending. */
  lemma PlainTwoSendsOneReceive<T>(a: T, b: T)
    ensures PostAlways(PostAlways(Empty(), a), b).pending == [a, b]
    ensures Take(PostAlways(PostAlways(Empty(), a), b)) == (Some(a), Mailbox([b], false))
    ensures !OneSlot(Take(PostAlways(PostAlways(Empty(), a), b)).1)
  {
  }

  /** The coalescing EventPipe of flightgear_python/fg_if.py (simplex). */
  class EventPipe<T> {
    var pending: seq<T>
    var flag: bool

    function State(): Mailbox<T>
      reads this
    {
      Mailbox(pending, flag)
    }

    constructor ()
      ensures State() == Empty()
    {
      pending := [];
      flag := false;
    }

    function IsSet(): bool
      reads this
    {
      flag
    }

    /** child_poll: whether a message is waiting for the child. */
    function ChildPoll(): (r: bool)
      reads this
      ensures r <==> |pending| > 0
    {
      pending != []
    }

    method ParentSend(msg: T)
      modifies this
      ensures State() == Post(old(State()), msg)
    {
      if !flag {
        pending := pending + [msg];
        flag := true;
      }
    }

    method ChildRecv() returns (r: Option<T>)
      modifies this
      ensures (r, State()) == Take(old(State()))
    {
      if pending == [] {
        r := None;
      } else {
        r := Some(pending[0]);
        pending := pending[1..];
        flag := false;
      }
    }
  }

  /** The EventPipe of flightgear_python/general_util.py: the coalescing parent-to-child
      mailbox plus an unguarded child-to-parent queue. */
  class DuplexEventPipe<T> {
    var pending: seq<T>
    var flag: bool
    var toParent: seq<T>

    function State(): Mailbox<T>
      reads this
    {
      Mailbox(pending, flag)
    }

    constructor ()
      ensures State() == Empty() && toParent == []
    {
      pending := [];
      flag := false;
      toParent := [];
    }

    function IsSet(): bool
      reads this
    {
      flag
    }

    function ChildPoll(): (r: bool)
      reads this
      ensures r <==> |pending| > 0
    {
      pending != []
    }

    /** parent_poll: whether a message is waiting for the parent. */
    function ParentPoll(): (r: bool)
      reads this
      ensures r <==> |toParent| > 0
    {
      toParent != []
    }

    method ParentSend(msg: T)
      modifies this
      ensures State() == Post(old(State()), msg)
      ensures toParent == old(toParent)
    {
      if !flag {
        pending := pending + [msg];
        flag := true;
      }
    }

    method ChildRecv() returns (r: Option<T>)
      modifies this
      ensures (r, State()) == Take(old(State()))
      ensures toParent == old(toParent)
    {
      if pending == [] {
        r := None;
      } else {
        r := Some(pending[0]);
        pending := pending[1..];
        flag := false;
      }
    }

    /** child_send: always delivered, whatever the flag. */
    method ChildSend(msg: T)
      modifies this
      ensures toParent == old(toParent) + [msg]
      ensures State() == old(State())
    {
      toParent := toParent + [msg];
    }

    /** parent_recv: the oldest child-to-parent message. */
    method ParentRecv() returns (r: Option<T>)
      modifies this
      ensures old(toParent) == [] ==> r == None && toParent == []
      ensures old(toParent) != [] ==> r == Some(old(toParent)[0]) && toParent == old(toParent)[1..]
      ensures State() == old(State())
    {
      if toParent == [] {
        r := None;
      } else {
        r := Some(toParent[0]);
        toParent := toParent[1..];
      }
    }
  }

  /** The EventPipe of src/flightgear_python/fg_if.py: every parent_send is delivered. */
  class PlainEventPipe<T> {
    var pending: seq<T>
    var flag: bool

    function State(): Mailbox<T>
      reads this
    {
      Mailbox(pending, flag)
    }

    constructor ()
      ensures State() == Empty()
    {
      pending := [];
      flag := false;
    }

    function IsSet(): bool
      reads this
    {
      flag
    }

    function ChildPoll(): (r: bool)
      reads this
      ensures r <==> |pending| > 0
    {
      pending != []
    }

    method ParentSend(msg: T)
      modifies this
      ensures State() == PostAlways(old(State()), msg)
    {
      pending := pending + [msg];
      flag := true;
    }

    method ChildRecv() returns (r: Option<T>)
      modifies this
      ensures (r, State()) == Take(old(State()))
    {
      if pending == [] {
        r := None;
      } else {
        r := Some(pending[0]);
        pending := pending[1..];
        flag := false;
      }
    }
  }

  /** Two sends then a receive on a fresh coalescing pipe: the child gets the first message,
      the second was dropped, and the pipe is empty again. */
  method CoalescingExchange<T>(a: T, b: T) returns (got: Option<T>, left: Mailbox<T>)
    ensures got == Some(a) && left == Empty()
  {
    var p := new EventPipe<T>();
    p.ParentSend(a);
    p.ParentSend(b);
    got := p.ChildRecv();
    left := p.State();
  }

  /** The same exchange on the older pipe: the child gets the first message, the flag is clear
      and the second message is still pending. */
  method PlainExchange<T>(a: T, b: T) returns (got: Option<T>, left: Mailbox<T>)
    ensures got == Some(a) && left == Mailbox([b], false)
  {
    var p := new PlainEventPipe<T>();
    p.ParentSend(a);
    p.ParentSend(b);
    got := p.ChildRecv();
    left := p.State();
  }

  /** Child-to-parent messages arrive in order whatever happens on the parent-to-child side. */
  method DuplexExchange<T>(a: T, b: T, c: T) returns (first: Option<T>, second: Option<T>, got: Option<T>)
    ensures first == Some(a) && second == Some(b) && got == Some(c)
  {
    var p := new DuplexEventPipe<T>();
    p.ChildSend(a);
    p.ParentSend(c);
    p.ChildSend(b);
    got := p.ChildRecv();
    first := p.ParentRecv();
    second := p.ParentRecv();
  }
}
